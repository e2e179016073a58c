/** Properties of every run of the reconcilers: ownership, order independence, and the PDB invariant. */
module Histories {
  import opened Wrappers
  import opened JsonTree
  import opened TreeEdit
  import opened EscapeHatch
  import opened Specs
  import opened Deployments
  import opened Cluster
  import opened LeafFrames
  import opened Schedules

  /** One reconcile; requests that fail keep what they wrote before failing. */
  function StepOf(types: Types): (State, Request) -> State {
    (c: State, r: Request) => Reconcile(types, c, r).state
  }

  // ----- Write ownership

  predicate ActsFor(r: Request, key: LeafKey, owner: Owner) {
    r.ForResource? && r.ck.namespace == key.namespace && CrOwner(r.ck) == owner
  }

  /** The request finds its object disabled and deletes the leaf, without a look at its owner. */
  predicate Deletes(c: State, r: Request, key: LeafKey) {
    r.ForResource? && r.ck in c.crs && c.crs[r.ck].spec.targetRef.resource != "" && !WritesDeployments(r.ctl) &&
    Plan(r.ck, c.crs[r.ck].spec, r.ctl, PdbSelector(c.deployments, r.ck.namespace, c.crs[r.ck].spec.targetRef)) ==
      [Erase(key)]
  }

  /** A reconcile for another owner never rewrites an owned leaf: it deletes it if disabled, or leaves it as it is. */
  lemma ForeignStep(types: Types, c: State, r: Request, key: LeafKey, o: Owner)
    requires key in c.leaves && c.leaves[key].owner == Some(o) && !ActsFor(r, key, o)
    ensures Get(Reconcile(types, c, r).state.leaves, key) == if Deletes(c, r, key) then None else Some(c.leaves[key])
  {
    if r.ForResource? && r.ck in c.crs && !WritesDeployments(r.ctl) {
      var spec := c.crs[r.ck].spec;
      var plan := Plan(r.ck, spec, r.ctl, PdbSelector(c.deployments, r.ck.namespace, spec.targetRef));
      PlanShape(r.ck, spec, r.ctl, PdbSelector(c.deployments, r.ck.namespace, spec.targetRef));
      KeysOfMember(plan, key);
      if key !in KeysOf(plan) {
        ExecFrame(types, CrOwner(r.ck), spec.hatches, plan, c.leaves, key);
      } else if |plan| == 1 {
        ExecSingle(types, CrOwner(r.ck), spec.hatches, plan, c.leaves);
      } else {
        WritesRespectOwner(types, CrOwner(r.ck), spec.hatches, plan, c.leaves, key);
      }
    }
  }

  /** Nor does a Workload rewrite a capability resource of another: it deletes it if disabled, or leaves it. */
  lemma ForeignChild(types: Types, c: State, r: Request, k: CrKey, o: Owner)
    requires k in c.crs && c.crs[k].owner == Some(o) && (r.Child? ==> WorkloadOwner(r.workload) != o)
    ensures var after := Reconcile(types, c, r).state.crs;
            k in after ==> after[k] == c.crs[k]
  {
    if r.Child? && r.workload in c.workloads {
      assert ChildAfter(c.workloads[r.workload], r.workload, r.cap, Some(c.crs[k])) in {None, Some(None)};
    }
  }

  /** The leaf is in the store before and after every step of the run. */
  ghost predicate AlwaysThere(types: Types, c: State, rs: seq<Request>, key: LeafKey)
    decreases |rs|
  {
    key in c.leaves && (rs != [] ==> AlwaysThere(types, Reconcile(types, c, rs[0]).state, rs[1..], key))
  }

  /** As long as it exists, an owned leaf keeps its owner and its contents over every run of other owners. */
  lemma {:induction false} OwnershipHolds(types: Types, c: State, rs: seq<Request>, key: LeafKey, o: Owner)
    requires AlwaysThere(types, c, rs, key) && c.leaves[key].owner == Some(o)
    requires forall r | r in rs :: !ActsFor(r, key, o)
    ensures Get(Run(StepOf(types), c, rs).leaves, key) == Some(c.leaves[key])
    decreases |rs|
  {
    if rs != [] {
      ForeignStep(types, c, rs[0], key, o);
      OwnershipHolds(types, Reconcile(types, c, rs[0]).state, rs[1..], key, o);
    }
  }

  lemma NoClaimDeletedByStep(types: Types, c: State, r: Request, key: LeafKey)
    requires key.kind.Pvc? && key in c.leaves
    ensures key in Reconcile(types, c, r).state.leaves
  {
    if r.ForResource? && r.ck in c.crs && !WritesDeployments(r.ctl) {
      var spec := c.crs[r.ck].spec;
      var plan := Plan(r.ck, spec, r.ctl, PdbSelector(c.deployments, r.ck.namespace, spec.targetRef));
      ExecKeeps(types, CrOwner(r.ck), spec.hatches, plan, c.leaves, key);
    }
  }

  lemma {:induction false} ExecKeeps(types: Types, owner: Owner, hs: seq<Hatch>, ops: seq<LeafOp>,
                                     leaves: map<LeafKey, Leaf>, key: LeafKey)
    requires key in leaves && forall op | op in ops :: op != Erase(key)
    ensures key in Exec(types, owner, hs, ops, leaves).leaves
  {
    if ops != [] {
      assert ops[0] in ops;
      assert forall op | op in ops[1..] :: op in ops;
      ExecKeeps(types, owner, hs, ops[1..], ExecOp(types, owner, hs, ops[0], leaves).leaves, key);
    }
  }

  /** No run ever deletes a persistent volume claim. */
  lemma {:induction false} NoClaimDeleted(types: Types, c: State, rs: seq<Request>, key: LeafKey)
    requires key.kind.Pvc? && key in c.leaves
    ensures key in Run(StepOf(types), c, rs).leaves
    decreases |rs|
  {
    if rs != [] {
      NoClaimDeletedByStep(types, c, rs[0], key);
      NoClaimDeleted(types, Reconcile(types, c, rs[0]).state, rs[1..], key);
    }
  }

  // ----- Workload non-interference

  /** The Workload whose child a key could be. */
  function ParentOf(k: CrKey): Option<string> {
    var n := |k.name| - |Suffix(k.cap)|;
    if n >= 0 && k.name[n..] == Suffix(k.cap) then Some(k.name[..n]) else None
  }

  /** Child keys determine their Workload and capability, whatever namespaces the Workloads target. */
  lemma ChildKeyParent(w: string, ws: WorkloadSpec, cap: Capability)
    ensures ChildKey(w, ws, cap).cap == cap && ParentOf(ChildKey(w, ws, cap)) == Some(w)
  {
  }

  /** The entry that all reconciles of the child at `k` agree on, given the entry they start from. */
  function SettledChild(c: State, k: CrKey): Option<Cr> {
    match ParentOf(k)
    case None => Get(c.crs, k)
    case Some(w) =>
      if w !in c.workloads || k.namespace == "" || ChildKey(w, c.workloads[w], k.cap) != k then Get(c.crs, k)
      else match ChildAfter(c.workloads[w], w, k.cap, Get(c.crs, k))
        case None => Get(c.crs, k)
        case Some(after) => after
  }

  predicate Touches(rs: seq<Request>, k: CrKey) {
    ParentOf(k).Some? && Child(ParentOf(k).value, k.cap) in rs
  }

  /** The closed form of a run of Workload reconciles, in any order and with any repetitions. */
  lemma {:induction false} ChildrenRun(types: Types, c: State, rs: seq<Request>, k: CrKey)
    requires forall r | r in rs :: r.Child?
    ensures var after := Run(StepOf(types), c, rs);
            after == c.(crs := after.crs) &&
            Get(after.crs, k) == if Touches(rs, k) then SettledChild(c, k) else Get(c.crs, k)
    decreases |rs|
  {
    if rs != [] {
      var r := rs[0];
      var next := Reconcile(types, c, r).state;
      ChildrenRun(types, next, rs[1..], k);
      ChildStep(types, c, r, k);
      SettledOnce(c, next, k);
      assert Touches(rs, k) <==> Touches(rs[1..], k) || (ParentOf(k) == Some(r.workload) && k.cap == r.cap) by {
        assert forall x :: x in rs <==> x == r || x in rs[1..];
      }
    }
  }

  /** From an entry that is already settled, or from the one it started as, a child settles alike. */
  lemma SettledOnce(c: State, d: State, k: CrKey)
    requires d.workloads == c.workloads && (Get(d.crs, k) == Get(c.crs, k) || Get(d.crs, k) == SettledChild(c, k))
    ensures SettledChild(d, k) == SettledChild(c, k)
  {
  }

  lemma ChildStep(types: Types, c: State, r: Request, k: CrKey)
    requires r.Child?
    ensures Get(Reconcile(types, c, r).state.crs, k) ==
            if ParentOf(k) == Some(r.workload) && k.cap == r.cap then SettledChild(c, k) else Get(c.crs, k)
  {
    if r.workload in c.workloads {
      ChildKeyIff(r.workload, c.workloads[r.workload], r.cap, k);
    }
  }

  lemma ChildKeyIff(w: string, ws: WorkloadSpec, cap: Capability, k: CrKey)
    ensures k == ChildKey(w, ws, cap) <==>
            ParentOf(k) == Some(w) && k.cap == cap && k.namespace == ws.targetRef.namespace
  {
    ChildKeyParent(w, ws, cap);
    var n := |k.name| - |Suffix(k.cap)|;
    if n >= 0 {
      assert k.name == k.name[..n] + k.name[n..];
    }
  }

  /**
   Runs of Workload reconciles that serve the same requests end in the same state: reconciles of
   distinct Workloads commute in every order, and repeating one changes nothing.
   */
  lemma OrderIrrelevant(types: Types, c: State, rs: seq<Request>, qs: seq<Request>)
    requires forall r | r in rs :: r.Child?
    requires forall r :: r in rs <==> r in qs
    ensures Run(StepOf(types), c, rs) == Run(StepOf(types), c, qs)
  {
    var a, b := Run(StepOf(types), c, rs), Run(StepOf(types), c, qs);
    forall k
      ensures Get(a.crs, k) == Get(b.crs, k) && a == c.(crs := a.crs) && b == c.(crs := b.crs)
    {
      ChildrenRun(types, c, rs, k);
      ChildrenRun(types, c, qs, k);
    }
    SameEntries(a.crs, b.crs);
    ChildrenRun(types, c, rs, CrKey(Compute, "", ""));
    ChildrenRun(types, c, qs, CrKey(Compute, "", ""));
  }

  // ----- Watches

  /**
   A Deployment writer that does not look a Deployment up is indifferent to it, so the watch map,
   which enqueues exactly those that do, misses nobody.
   */
  lemma WatchMissesNobody(types: Types, c: State, ck: CrKey, ctl: Controller, d: ObjectKey, x: Deployment)
    requires WritesDeployments(ctl) && d in c.deployments && !LooksUp(c, ck, d)
    ensures var changed := c.(deployments := c.deployments[d := x]);
            var r, r' := Reconcile(types, c, ForResource(ck, ctl)), Reconcile(types, changed, ForResource(ck, ctl));
            r'.ok == r.ok && r'.state == r.state.(deployments := r.state.deployments[d := x])
  {
    if ck in c.crs && c.crs[ck].spec.targetRef.resource != "" {
      WriterIndifferent(types, c, ck, c.crs[ck].spec, ctl, d, x);
    }
  }

  lemma WriterIndifferent(types: Types, c: State, ck: CrKey, spec: Spec, ctl: Controller, d: ObjectKey, x: Deployment)
    requires spec.targetRef.kind != "Deployment" || ObjectKey(ck.namespace, spec.targetRef.resource) != d
    requires d in c.deployments
    ensures var changed := c.(deployments := c.deployments[d := x]);
            var r, r' :=
              ReconcileDeployment(types, c, ck, spec, ctl), ReconcileDeployment(types, changed, ck, spec, ctl);
            r'.ok == r.ok && r'.state == r.state.(deployments := r.state.deployments[d := x])
  {
    var key := ObjectKey(ck.namespace, spec.targetRef.resource);
    if key != d && key in c.deployments && DeploymentEdit(ck, spec, ctl, c.deployments[key]).Some? {
      PatchIndifferent(types, c, key, spec.hatches, DeploymentEdit(ck, spec, ctl, c.deployments[key]).value, d, x);
    }
  }

  lemma PatchIndifferent(types: Types, c: State, key: ObjectKey, hs: seq<Hatch>, edited: Deployment, d: ObjectKey,
                         x: Deployment)
    requires key in c.deployments && key != d
    ensures var changed := c.(deployments := c.deployments[d := x]);
            var r, r' := PatchOutcome(types, c, key, hs, edited), PatchOutcome(types, changed, key, hs, edited);
            r'.ok == r.ok && r'.state == r.state.(deployments := r.state.deployments[d := x])
  {
    StoreIndifferent(c, key, PatchDeployment(types, hs, c.deployments[key], edited), d, x);
  }

  lemma StoreIndifferent(c: State, key: ObjectKey, y: Option<Deployment>, d: ObjectKey, x: Deployment)
    requires key != d
    ensures var r, r' := StoreIfAny(c, key, y), StoreIfAny(c.(deployments := c.deployments[d := x]), key, y);
            r'.ok == r.ok && r'.state == r.state.(deployments := r.state.deployments[d := x])
  {
    if y.Some? {
      assert c.deployments[d := x][key := y.value] == c.deployments[key := y.value][d := x];
    }
  }

  // ----- PodDisruptionBudgets

  /** Exactly one of the two exclusive fields is set. */
  predicate ExactlyOne(doc: Json) {
    var spec := Fields(Member(doc, "spec"));
    ("minAvailable" in spec) != ("maxUnavailable" in spec)
  }

  predicate PdbsExclusive(leaves: map<LeafKey, Leaf>) {
    forall k | k in leaves && k.kind.Pdb? :: ExactlyOne(leaves[k].doc)
  }

  /** A user replaces any custom resources and Deployments by any others, or a reconciler runs. */
  datatype Event =
    | Edited(workloads: map<string, WorkloadSpec>, crs: map<CrKey, Cr>, deployments: map<ObjectKey, Deployment>)
    | Reconciled(request: Request)

  function Next(types: Types): (State, Event) -> State {
    (c: State, e: Event) =>
      match e
      case Edited(ws, crs, ds) => State(ws, crs, ds, c.leaves)
      case Reconciled(r) => Reconcile(types, c, r).state
  }

  /** No escape hatch for PodDisruptionBudgets, in custom resources or in the Workloads they come from. */
  predicate NoPdbHatches(workloads: map<string, WorkloadSpec>, crs: map<CrKey, Cr>) {
    (forall w, cap: Capability | w in workloads :: NoHatchesFor(workloads[w].Of(cap).hatches, "PodDisruptionBudget")) &&
    (forall k | k in crs :: NoHatchesFor(crs[k].spec.hatches, "PodDisruptionBudget"))
  }

  lemma PdbEditExclusive(selector: Json, minAvailable: IntOrString, maxUnavailable: IntOrString, doc: Json)
    requires minAvailable.IsSet() || maxUnavailable.IsSet()
    ensures Apply(PdbEdit(selector, minAvailable, maxUnavailable), Some(doc)).Some?
    ensures ExactlyOne(Apply(PdbEdit(selector, minAvailable, maxUnavailable), Some(doc)).value)
  {
    var e := PdbEdit(selector, minAvailable, maxUnavailable);
    var m := e.members["spec"].members;
    IntoMember(e.members, "spec", Some(doc));
    IntoMember(m, "minAvailable", Get(Fields(doc), "spec"));
    IntoMember(m, "maxUnavailable", Get(Fields(doc), "spec"));
  }

  lemma OtherPlansAvoidPdbs(ck: CrKey, spec: Spec, ctl: Controller, selector: Json)
    requires !(ctl.PdbController? && spec.ComputeSpec?)
    ensures forall op | op in Plan(ck, spec, ctl, selector), k | k in KeyOf(op) :: !k.kind.Pdb?
  {
  }

  lemma PdbPlanStep(types: Types, leaves: map<LeafKey, Leaf>, ck: CrKey, spec: Spec, selector: Json)
    requires spec.ComputeSpec? && NoHatchesFor(spec.hatches, "PodDisruptionBudget") && PdbsExclusive(leaves)
    ensures var plan := Plan(ck, spec, PdbController, selector);
            PdbsExclusive(Exec(types, CrOwner(ck), spec.hatches, plan, leaves).leaves)
  {
    var plan := Plan(ck, spec, PdbController, selector);
    ExecSingle(types, CrOwner(ck), spec.hatches, plan, leaves);
    if plan[0].Write? {
      var stored := Get(leaves, plan[0].key);
      var blank := if stored.Some? then stored.value.doc else Obj(map[]);
      PdbEditExclusive(selector, spec.minAvailable, spec.maxUnavailable, blank);
      NoHatchesNoChange(types, "PodDisruptionBudget", spec.hatches, Apply(plan[0].managed, Some(blank)).value);
    }
  }

  lemma OtherPlanStep(types: Types, leaves: map<LeafKey, Leaf>, owner: Owner, hs: seq<Hatch>, plan: seq<LeafOp>)
    requires forall op | op in plan, k | k in KeyOf(op) :: !k.kind.Pdb?
    requires PdbsExclusive(leaves)
    ensures PdbsExclusive(Exec(types, owner, hs, plan, leaves).leaves)
  {
    var after := Exec(types, owner, hs, plan, leaves).leaves;
    forall k | k in after && k.kind.Pdb?
      ensures ExactlyOne(after[k].doc)
    {
      KeysOfMember(plan, k);
      ExecFrame(types, owner, hs, plan, leaves, k);
    }
  }

  lemma PlanKeepsPdbs(types: Types, leaves: map<LeafKey, Leaf>, ck: CrKey, spec: Spec, ctl: Controller, selector: Json)
    requires NoHatchesFor(spec.hatches, "PodDisruptionBudget") && PdbsExclusive(leaves)
    ensures PdbsExclusive(Exec(types, CrOwner(ck), spec.hatches, Plan(ck, spec, ctl, selector), leaves).leaves)
  {
    if ctl.PdbController? && spec.ComputeSpec? {
      PdbPlanStep(types, leaves, ck, spec, selector);
    } else {
      OtherPlansAvoidPdbs(ck, spec, ctl, selector);
      OtherPlanStep(types, leaves, CrOwner(ck), spec.hatches, Plan(ck, spec, ctl, selector));
    }
  }

  lemma ChildKeepsHatches(c: State, w: string, cap: Capability)
    requires NoPdbHatches(c.workloads, c.crs)
    ensures var d := ReconcileChild(c, w, cap).state; NoPdbHatches(d.workloads, d.crs)
  {
  }

  lemma LeafKeepsPdbs(types: Types, c: State, ck: CrKey, ctl: Controller)
    requires NoPdbHatches(c.workloads, c.crs) && PdbsExclusive(c.leaves)
    ensures PdbsExclusive(ReconcileLeaf(types, c, ck, ctl).state.leaves)
  {
    if ck in c.crs {
      var spec := c.crs[ck].spec;
      PlanKeepsPdbs(types, c.leaves, ck, spec, ctl, PdbSelector(c.deployments, ck.namespace, spec.targetRef));
    }
  }

  lemma PdbStep(types: Types, c: State, r: Request)
    requires NoPdbHatches(c.workloads, c.crs) && PdbsExclusive(c.leaves)
    ensures var d := Reconcile(types, c, r).state;
            NoPdbHatches(d.workloads, d.crs) && PdbsExclusive(d.leaves)
  {
    match r
    case Child(w, cap) => ChildKeepsHatches(c, w, cap);
    case ForResource(ck, ctl) => LeafKeepsPdbs(types, c, ck, ctl);
  }

  /** Over every history from an empty store, every stored PDB has exactly one of the two fields. */
  lemma {:induction false} PdbsStayExclusive(types: Types, c: State, events: seq<Event>)
    requires NoPdbHatches(c.workloads, c.crs) && PdbsExclusive(c.leaves)
    requires forall e | e in events && e.Edited? :: NoPdbHatches(e.workloads, e.crs)
    ensures PdbsExclusive(Run(Next(types), c, events).leaves)
    decreases |events|
  {
    if events != [] {
      if events[0].Reconciled? {
        PdbStep(types, c, events[0].request);
      }
      PdbsStayExclusive(types, Next(types)(c, events[0]), events[1..]);
    }
  }

  lemma PdbsFromEmpty(types: Types, events: seq<Event>)
    requires forall e | e in events && e.Edited? :: NoPdbHatches(e.workloads, e.crs)
    ensures PdbsExclusive(Run(Next(types), State(map[], map[], map[], map[]), events).leaves)
  {
    PdbsStayExclusive(types, State(map[], map[], map[], map[]), events);
  }
}
