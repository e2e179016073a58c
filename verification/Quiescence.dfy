/**
 Stores at rest: every request returns without error and without effect. Such stores agree on
 everything the controllers manage. Some hatches prevent rest altogether.
 */
module Quiescence {
  import opened Wrappers
  import opened JsonTree
  import opened TreeEdit
  import opened JsonPatch
  import opened EscapeHatch
  import opened NamedList
  import opened Specs
  import opened VolumeUpsert
  import opened Deployments
  import opened DeploymentWriters
  import opened Cluster
  import opened LeafFrames
  import opened Histories
  import opened Fixpoints
  import opened Convergence
  import opened Schedules

  predicate AtRest(types: Types, c: State, r: Request) {
    Reconcile(types, c, r) == Outcome(c, true)
  }

  ghost predicate AllAtRest(types: Types, c: State, work: set<Request>) {
    forall r | r in work :: AtRest(types, c, r)
  }

  // ----- The first layer

  predicate TouchedBy(work: set<Request>, k: CrKey) {
    ParentOf(k).Some? && Child(ParentOf(k).value, k.cap) in work
  }

  lemma {:induction false} UntouchedStays(types: Types, work: set<Request>, c: State, rs: seq<Request>, k: CrKey)
    requires !TouchedBy(work, k) && forall r | r in rs :: r in work
    ensures Get(Run(StepOf(types), c, rs).crs, k) == Get(c.crs, k)
    decreases |rs|
  {
    if rs != [] {
      if rs[0].Child? {
        ChildStep(types, c, rs[0], k);
      }
      UntouchedStays(types, work, Reconcile(types, c, rs[0]).state, rs[1..], k);
    }
  }

  /** The closed form of the capability resources at rest. */
  lemma ChildrenAtRest(types: Types, c0: State, work: set<Request>, rs: seq<Request>, k: CrKey)
    requires Admissible(types, c0, work) && forall r :: r in rs ==> r in work
    requires forall r | r in work && r.Child? :: Quiet(types, Run(StepOf(types), c0, rs), r)
    ensures Get(Run(StepOf(types), c0, rs).crs, k) == if TouchedBy(work, k) then SettledChild(c0, k) else Get(c0.crs, k)
  {
    var c := Run(StepOf(types), c0, rs);
    BoundedConvergence(types, c0, work, rs);
    if TouchedBy(work, k) {
      var r := Child(ParentOf(k).value, k.cap);
      assert Quiet(types, c, r);
      ChildStep(types, c, r, k);
      SettledAgain(c0, c, k);
    } else {
      UntouchedStays(types, work, c0, rs, k);
    }
  }

  // ----- The second layer

  /** The plan of a leaf controller for the resource as it is in `c`. */
  function PlanIn(c: State, r: Request): seq<LeafOp>
    requires r.ForResource? && r.ck in c.crs
  {
    Plan(r.ck, c.crs[r.ck].spec, r.ctl, Convergence.Selector(c, r.ck, c.crs[r.ck].spec))
  }

  predicate Live(c: State, r: Request) {
    r.ForResource? && r.ck in c.crs && c.crs[r.ck].spec.targetRef.resource != ""
  }

  /** At rest the last operation of a plan on each leaf holds. */
  lemma PlanHolds(types: Types, c: State, r: Request, i: nat)
    requires Live(c, r) && !WritesDeployments(r.ctl) && AtRest(types, c, r)
    requires i < |PlanIn(c, r)| && LastOnItsLeaf(PlanIn(c, r), i) &&
             SteadyPlan(types, c.crs[r.ck].spec.hatches, PlanIn(c, r))
    ensures OpHolds(types, c.leaves, CrOwner(r.ck), c.crs[r.ck].spec.hatches, PlanIn(c, r)[i])
  {
    var spec := c.crs[r.ck].spec;
    LeafRequest(types, c, r);
    forall op | op in PlanIn(c, r) && op.Write?
      ensures op.managed.Into?
    {
      PlansAssign(r.ck, spec, r.ctl, Convergence.Selector(c, r.ck, spec), op);
    }
    LastOpHolds(types, CrOwner(r.ck), spec.hatches, PlanIn(c, r), c.leaves, i);
  }

  /** Two stores agree on what an operation manages: both lack the leaf, or both hold the same managed fields. */
  ghost predicate SameManaged(types: Types, a: map<LeafKey, Leaf>, b: map<LeafKey, Leaf>, hs: seq<Hatch>, op: LeafOp) {
    match op
    case Erase(key) => key !in a && key !in b
    case Reject => false
    case Write(key, managed) =>
      key in a && key in b && a[key].owner == b[key].owner &&
      var whole := Whole(types, KindName(key.kind), managed, hs);
      whole.Some? && Agree(whole.value, Some(a[key].doc), Some(b[key].doc))
  }

  lemma BothHold(types: Types, a: map<LeafKey, Leaf>, b: map<LeafKey, Leaf>, owner: Owner, hs: seq<Hatch>, op: LeafOp)
    requires OpHolds(types, a, owner, hs, op) && OpHolds(types, b, owner, hs, op)
    ensures SameManaged(types, a, b, hs, op)
  {
    match op
    case Erase(key) =>
    case Reject =>
    case Write(key, managed) =>
      FixedAgree(Whole(types, KindName(key.kind), managed, hs).value, Some(a[key].doc), Some(b[key].doc));
  }

  /** The fields of a Deployment that its writers manage hold what their specs say. */
  predicate DeploymentHolds(p: PodSpec, ck: CrKey, spec: Spec, ctl: Controller) {
    match (ctl, spec)
    case (SchedulingController, ComputeSpec(_, _, _, s, _, _)) =>
      (s.nodeSelector == map[] && s.affinity == Affinity(None, None, None) && s.spread == []) ||
      (p.nodeSelector == s.nodeSelector && AffinityIs(p.affinity, s.affinity) && p.spread == s.spread)
    case (VolumesController, StorageSpec(_, _, _, vols)) =>
      forall v | v in vols :: VolumeHolds(p, ck.name, vols, v.name)
    case (_, _) => true
  }

  /** The listed volume is a claim of the Storage, mounted at its last listed path. */
  predicate VolumeHolds(p: PodSpec, storage: string, vols: seq<VolumeSpec>, n: string) {
    Lookup(p.volumes, n) == Some(map["persistentVolumeClaim" := Obj(map["claimName" := Str(storage + "-" + n)])]) &&
    Last(vols, n).Some? &&
    (p.containers != [] ==>
       Lookup(p.containers[0].mounts, n).Some? &&
       Lookup(p.containers[0].mounts, n).value.path == Last(vols, n).value.mountPath)
  }

  lemma EditHolds(ck: CrKey, spec: Spec, ctl: Controller, d: Deployment)
    requires DeploymentEdit(ck, spec, ctl, d).Some? ==> DeploymentEdit(ck, spec, ctl, d).value == d
    ensures DeploymentHolds(d.pod, ck, spec, ctl)
  {
    if ctl.SchedulingController? && spec.ComputeSpec? {
      IsSetIff(spec.scheduling);
      ScheduleMeans(d.pod, spec.scheduling);
    } else if ctl.VolumesController? && spec.StorageSpec? {
      forall v | v in spec.volumes
        ensures VolumeHolds(d.pod, ck.name, spec.volumes, v.name)
      {
        VolumeAttached(d.pod, ck.name, spec.volumes, v);
      }
    }
  }

  lemma VolumeAttached(p: PodSpec, storage: string, vols: seq<VolumeSpec>, v: VolumeSpec)
    requires AttachVolumes(p, storage, vols) == p && v in vols
    ensures VolumeHolds(p, storage, vols, v.name)
  {
    LastListed(vols, v.name);
    AttachMeans(p, storage, vols, v.name);
  }

  lemma TargetHolds(types: Types, c: State, r: Request)
    requires Live(c, r) && WritesDeployments(r.ctl) && AtRest(types, c, r) &&
             NoHatchesFor(c.crs[r.ck].spec.hatches, "Deployment")
    ensures var spec := c.crs[r.ck].spec;
            var key := Target(r.ck, spec);
            spec.targetRef.kind == "Deployment" && key in c.deployments ==>
              DeploymentHolds(c.deployments[key].pod, r.ck, spec, r.ctl)
  {
    var spec := c.crs[r.ck].spec;
    var key := Target(r.ck, spec);
    DeploymentRequest(types, c, r);
    NothingWritten(c.deployments, r.ck, spec, r.ctl);
    if spec.targetRef.kind == "Deployment" && key in c.deployments {
      EditHolds(r.ck, spec, r.ctl, c.deployments[key]);
    }
  }

  // ----- Confluence

  /** Both stores hold what the request manages, and agree on it. */
  ghost predicate AgreeOn(types: Types, a: State, b: State, r: Request)
    requires Live(a, r) && a.crs == b.crs
  {
    var spec := a.crs[r.ck].spec;
    if WritesDeployments(r.ctl) then
      var key := Target(r.ck, spec);
      (key in a.deployments <==> key in b.deployments) &&
      (spec.targetRef.kind == "Deployment" && key in a.deployments ==>
        DeploymentHolds(a.deployments[key].pod, r.ck, spec, r.ctl) &&
        DeploymentHolds(b.deployments[key].pod, r.ck, spec, r.ctl))
    else
      PlanIn(a, r) == PlanIn(b, r) &&
      forall i: nat | i < |PlanIn(a, r)| && LastOnItsLeaf(PlanIn(a, r), i) ::
        SameManaged(types, a.leaves, b.leaves, spec.hatches, PlanIn(a, r)[i])
  }

  lemma RequestAgrees(types: Types, c0: State, work: set<Request>, a: State, b: State, r: Request)
    requires Admissible(types, c0, work) && Reachable(c0, a) && Reachable(c0, b) && r in work
    requires AtRest(types, a, r) && AtRest(types, b, r) && a.crs == b.crs && Live(a, r)
    ensures AgreeOn(types, a, b, r)
  {
    LiveSpec(types, c0, work, a, r);
    var spec := a.crs[r.ck].spec;
    if WritesDeployments(r.ctl) {
      TargetHolds(types, a, r);
      TargetHolds(types, b, r);
    } else {
      SelectorFromStart(c0, a, r.ck, spec);
      SelectorFromStart(c0, b, r.ck, spec);
      forall i: nat | i < |PlanIn(a, r)| && LastOnItsLeaf(PlanIn(a, r), i)
        ensures SameManaged(types, a.leaves, b.leaves, spec.hatches, PlanIn(a, r)[i])
      {
        PlanHolds(types, a, r, i);
        PlanHolds(types, b, r, i);
        BothHold(types, a.leaves, b.leaves, CrOwner(r.ck), spec.hatches, PlanIn(a, r)[i]);
      }
    }
  }

  /**
   Whatever two schedules of the requests bring the cluster to rest, the capability resources are
   the same, and every live request finds both clusters in agreement on all it manages.
   */
  lemma Confluence(types: Types, c0: State, work: set<Request>, rs: seq<Request>, qs: seq<Request>)
    requires Admissible(types, c0, work) && (forall r :: r in rs ==> r in work) && (forall r :: r in qs ==> r in work)
    requires AllAtRest(types, Run(StepOf(types), c0, rs), work) && AllAtRest(types, Run(StepOf(types), c0, qs), work)
    ensures var a, b := Run(StepOf(types), c0, rs), Run(StepOf(types), c0, qs);
            a.crs == b.crs && forall r | r in work && Live(a, r) :: AgreeOn(types, a, b, r)
  {
    var a, b := Run(StepOf(types), c0, rs), Run(StepOf(types), c0, qs);
    BoundedConvergence(types, c0, work, rs);
    BoundedConvergence(types, c0, work, qs);
    assert forall r | r in work :: AtRest(types, a, r) && AtRest(types, b, r);
    forall k
      ensures Get(a.crs, k) == Get(b.crs, k)
    {
      ChildrenAtRest(types, c0, work, rs, k);
      ChildrenAtRest(types, c0, work, qs, k);
    }
    SameEntries(a.crs, b.crs);
    forall r | r in work && Live(a, r)
      ensures AgreeOn(types, a, b, r)
    {
      assert AtRest(types, a, r) && AtRest(types, b, r);
      RequestAgrees(types, c0, work, a, b, r);
    }
  }

  // ----- Hatches that prevent rest

  /** A leaf controller whose one hatch moves elements of an array that the controller does not set is never at rest. */
  lemma UnsteadyNeverAtRest(types: Types, c: State, r: Request, op: Op)
    requires Live(c, r) && !WritesDeployments(r.ctl) && |PlanIn(c, r)| == 1 && PlanIn(c, r)[0].Write?
    requires c.crs[r.ck].spec.hatches == OneOp(KindName(PlanIn(c, r)[0].key.kind), op)
    requires MovesUnset(PlanIn(c, r)[0].managed, op, op.path)
    ensures !AtRest(types, c, r)
  {
    var w := PlanIn(c, r)[0];
    LeafRequest(types, c, r);
    ExecSingle(types, CrOwner(r.ck), c.crs[r.ck].spec.hatches, PlanIn(c, r), c.leaves);
    PlansAssign(r.ck, c.crs[r.ck].spec, r.ctl, Convergence.Selector(c, r.ck, c.crs[r.ck].spec), w);
    UnsteadyNeverRests(types, CrOwner(r.ck), w.key, w.managed, op, c.leaves);
  }

  /**
   Nor is one whose one hatch replaces a field that the controller does not set by what the field
   omits, unless that is what the leaf has there.
   */
  lemma LostTargetNeverAtRest(types: Types, c: State, r: Request, op: Op)
    requires Live(c, r) && !WritesDeployments(r.ctl) && |PlanIn(c, r)| == 1 && PlanIn(c, r)[0].Write?
    requires c.crs[r.ck].spec.hatches == OneOp(KindName(PlanIn(c, r)[0].key.kind), op)
    requires op.Replace? && Unset(PlanIn(c, r)[0].managed, op.path) && op.path != [] && op.path[|op.path| - 1].Name?
    requires Omits(types.places(KindName(PlanIn(c, r)[0].key.kind))(HopsOf(op.path)), op.value)
    ensures var key := PlanIn(c, r)[0].key;
            AtRest(types, c, r) ==> key in c.leaves && ValueOf(Some(c.leaves[key].doc), op.path) == Some(op.value)
  {
    var w := PlanIn(c, r)[0];
    LeafRequest(types, c, r);
    ExecSingle(types, CrOwner(r.ck), c.crs[r.ck].spec.hatches, PlanIn(c, r), c.leaves);
    PlansAssign(r.ck, c.crs[r.ck].spec, r.ctl, Convergence.Selector(c, r.ck, c.crs[r.ck].spec), w);
    if AtRest(types, c, r) {
      assert w.key in c.leaves;
      if ValueOf(Some(c.leaves[w.key].doc), op.path) != Some(op.value) {
        LostTargetNeverRests(types, CrOwner(r.ck), w.key, w.managed, op, c.leaves);
      }
    }
  }
}
