/**
 Two-layer convergence: for fixed Workloads, every schedule of a set of requests makes a bounded
 number of effective steps, and all the stores at which the requests come to rest agree on
 everything the controllers manage, whatever the schedule was.
 */
module Convergence {
  import opened Wrappers
  import opened JsonTree
  import opened EscapeHatch
  import opened Specs
  import opened Deployments
  import opened WatchLoop
  import opened Cluster
  import opened LeafFrames
  import opened Histories
  import opened Fixpoints
  import opened Schedules

  /** The specs that the resource at `k` can have in a run from `c0`: the one it starts with, or the Workload's. */
  ghost function Candidates(c0: State, k: CrKey): set<Spec> {
    (if k in c0.crs then {c0.crs[k].spec} else {}) +
    (match ParentOf(k)
     case None => {}
     case Some(w) => if w in c0.workloads then {Desired(c0.workloads[w], k.cap)} else {})
  }

  /** The leaves that a request can touch; they do not depend on the selector that is read. */
  function Footprint(ck: CrKey, spec: Spec, ctl: Controller): set<LeafKey> {
    KeysOf(Plan(ck, spec, ctl, Null))
  }

  lemma FootprintOfPlan(ck: CrKey, spec: Spec, ctl: Controller, selector: Json)
    ensures KeysOf(Plan(ck, spec, ctl, selector)) == Footprint(ck, spec, ctl)
  {
    if ctl.PdbController? && spec.ComputeSpec? {
      var p, q := Plan(ck, spec, ctl, selector), Plan(ck, spec, ctl, Null);
      assert KeyOf(p[0]) == KeyOf(q[0]) && p[1..] == q[1..] == [];
    }
  }

  function Target(ck: CrKey, spec: Spec): ObjectKey {
    ObjectKey(ck.namespace, spec.targetRef.resource)
  }

  /**
   Two requests of the second layer cannot meet: no common leaf, and no Deployment of which they
   write the same fields.
   */
  predicate Apart(r: Request, s: Spec, r': Request, s': Spec)
    requires r.ForResource? && r'.ForResource?
  {
    Footprint(r.ck, s, r.ctl) !! Footprint(r'.ck, s', r'.ctl) && !WritersMeet(r, s, r', s')
  }

  predicate WritersMeet(r: Request, s: Spec, r': Request, s': Spec)
    requires r.ForResource? && r'.ForResource?
  {
    WritesDeployments(r.ctl) && WritesDeployments(r'.ctl) && Target(r.ck, s) == Target(r'.ck, s') &&
    !WriteApart(r.ck, s, r.ctl, r'.ck, s', r'.ctl)
  }

  /** Pairwise distinct derived keys, and hatches under which a pass can be repeated. */
  ghost predicate Admissible(types: Types, c0: State, work: set<Request>) {
    RepeatableSpecs(types, c0, work) && AllApart(c0, work)
  }

  ghost predicate RepeatableSpecs(types: Types, c0: State, work: set<Request>) {
    forall r, s | r in work && r.ForResource? && s in Candidates(c0, r.ck) ::
      Repeatable(types, r.ck, s, r.ctl, Selector(c0, r.ck, s))
  }

  ghost predicate AllApart(c0: State, work: set<Request>) {
    (forall r, r', s, s' | r in work && r' in work && r != r' && r.ForResource? && r'.ForResource?
                           && s in Candidates(c0, r.ck) && s' in Candidates(c0, r'.ck) :: Apart(r, s, r', s'))
  }

  /** What every run from `c0` keeps. */
  ghost predicate Reachable(c0: State, c: State) {
    c.workloads == c0.workloads &&
    (forall k :: Get(c.crs, k) == Get(c0.crs, k) || Get(c.crs, k) == SettledChild(c0, k)) &&
    c.deployments.Keys == c0.deployments.Keys &&
    (forall k | k in c.deployments :: c.deployments[k].Selector() == c0.deployments[k].Selector())
  }

  lemma SpecsAreCandidates(c0: State, c: State, ck: CrKey)
    requires Reachable(c0, c) && ck in c.crs
    ensures c.crs[ck].spec in Candidates(c0, ck)
  {
    assert Get(c.crs, ck) == Get(c0.crs, ck) || Get(c.crs, ck) == SettledChild(c0, ck);
  }

  // ----- Effect of one request

  function Selector(c: State, ck: CrKey, spec: Spec): Json {
    PdbSelector(c.deployments, ck.namespace, spec.targetRef)
  }

  /** A leaf request on a live resource, as the execution of its plan. */
  lemma LeafRequest(types: Types, c: State, r: Request)
    requires r.ForResource? && !WritesDeployments(r.ctl) && r.ck in c.crs && c.crs[r.ck].spec.targetRef.resource != ""
    ensures var spec := c.crs[r.ck].spec;
            var x :=
              Exec(types, CrOwner(r.ck), spec.hatches, Plan(r.ck, spec, r.ctl, Selector(c, r.ck, spec)), c.leaves);
            Reconcile(types, c, r) == Outcome(c.(leaves := x.leaves), x.ok)
  {
  }

  /** Whether a resource of this spec has its controller edit its target. */
  predicate Acts(ds: map<ObjectKey, Deployment>, ck: CrKey, spec: Spec, ctl: Controller) {
    spec.targetRef.resource != "" && spec.targetRef.kind == "Deployment" && Target(ck, spec) in ds &&
    DeploymentEdit(ck, spec, ctl, ds[Target(ck, spec)]).Some?
  }

  function Written(ds: map<ObjectKey, Deployment>, ck: CrKey, spec: Spec, ctl: Controller): map<ObjectKey, Deployment> {
    if Acts(ds, ck, spec, ctl) then ds[Target(ck, spec) := DeploymentEdit(ck, spec, ctl, ds[Target(ck, spec)]).value]
    else ds
  }

  lemma NothingWritten(ds: map<ObjectKey, Deployment>, ck: CrKey, spec: Spec, ctl: Controller)
    ensures Written(ds, ck, spec, ctl) == ds <==>
            (Acts(ds, ck, spec, ctl) ==>
               DeploymentEdit(ck, spec, ctl, ds[Target(ck, spec)]).value == ds[Target(ck, spec)])
  {
    if Acts(ds, ck, spec, ctl) {
      assert Written(ds, ck, spec, ctl)[Target(ck, spec)] == DeploymentEdit(ck, spec, ctl, ds[Target(ck, spec)]).value;
    }
  }

  /** A write of another kind, or to another Deployment, leaves a settled writer with nothing to write. */
  lemma StillNothingWritten(ds: map<ObjectKey, Deployment>, ck: CrKey, spec: Spec, ctl: Controller,
                            ck': CrKey, spec': Spec, ctl': Controller)
    requires Written(ds, ck, spec, ctl) == ds
    requires Target(ck, spec) == Target(ck', spec') ==> WriteApart(ck, spec, ctl, ck', spec', ctl')
    ensures var after := Written(ds, ck', spec', ctl'); Written(after, ck, spec, ctl) == after
  {
    var after := Written(ds, ck', spec', ctl');
    var key := Target(ck, spec);
    NothingWritten(ds, ck, spec, ctl);
    NothingWritten(after, ck, spec, ctl);
    if Acts(ds, ck', spec', ctl') && Target(ck', spec') == key && Acts(ds, ck, spec, ctl) {
      EditsIndependent(ck, spec, ctl, ck', spec', ctl', ds[key]);
    }
  }

  /** A Deployment request without hatches for it stores its edit. */
  lemma DeploymentRequest(types: Types, c: State, r: Request)
    requires r.ForResource? && WritesDeployments(r.ctl) && r.ck in c.crs && Plain(c, r)
    ensures Reconcile(types, c, r) ==
              Outcome(c.(deployments := Written(c.deployments, r.ck, c.crs[r.ck].spec, r.ctl)), true)
  {
    if c.crs[r.ck].spec.targetRef.resource != "" {
      WriterStoresEdit(types, c, r.ck, c.crs[r.ck].spec, r.ctl);
    }
  }

  lemma WriterStoresEdit(types: Types, c: State, ck: CrKey, spec: Spec, ctl: Controller)
    requires NoHatchesFor(spec.hatches, "Deployment") && spec.targetRef.resource != ""
    ensures ReconcileDeployment(types, c, ck, spec, ctl) ==
              Outcome(c.(deployments := Written(c.deployments, ck, spec, ctl)), true)
  {
    var key := Target(ck, spec);
    if Acts(c.deployments, ck, spec, ctl) {
      PatchStoresEdit(types, spec.hatches, ck, spec, ctl, c.deployments[key]);
    }
  }

  lemma SelectorFromStart(c0: State, c: State, ck: CrKey, spec: Spec)
    requires Reachable(c0, c)
    ensures Selector(c, ck, spec) == Selector(c0, ck, spec)
  {
    var key := Target(ck, spec);
    assert key in c.deployments <==> key in c0.deployments;
  }

  /** A live resource of the run has one of its candidate specs, whose passes can be repeated. */
  lemma LiveSpec(types: Types, c0: State, work: set<Request>, c: State, r: Request)
    requires RepeatableSpecs(types, c0, work) && Reachable(c0, c) && r in work && r.ForResource? && r.ck in c.crs
    ensures c.crs[r.ck].spec in Candidates(c0, r.ck)
    ensures Repeatable(types, r.ck, c.crs[r.ck].spec, r.ctl, Selector(c, r.ck, c.crs[r.ck].spec))
  {
    SpecsAreCandidates(c0, c, r.ck);
    SelectorFromStart(c0, c, r.ck, c.crs[r.ck].spec);
  }

  /** A request that writes a Deployment has no hatch for it. */
  predicate Plain(c: State, r: Request)
    requires r.ForResource?
  {
    r.ck in c.crs && WritesDeployments(r.ctl) ==> NoHatchesFor(c.crs[r.ck].spec.hatches, "Deployment")
  }

  lemma ChildStaysReachable(types: Types, c0: State, c: State, r: Request)
    requires Reachable(c0, c) && r.Child?
    ensures Reachable(c0, Reconcile(types, c, r).state)
  {
    var d := Reconcile(types, c, r).state;
    forall k
      ensures Get(d.crs, k) == Get(c0.crs, k) || Get(d.crs, k) == SettledChild(c0, k)
    {
      ChildStep(types, c, r, k);
      SettledAgain(c0, c, k);
    }
  }

  /** Reconciling a child from any state of the run gives the entry it would have been given at the start. */
  lemma SettledAgain(c0: State, c: State, k: CrKey)
    requires Reachable(c0, c)
    ensures Get(c.crs, k) == Get(c0.crs, k) || Get(c.crs, k) == SettledChild(c0, k)
    ensures SettledChild(c, k) == SettledChild(c0, k)
  {
    SettledOnce(c0, c, k);
  }

  lemma DeploymentStaysReachable(types: Types, c0: State, c: State, r: Request)
    requires Reachable(c0, c) && r.ForResource? && r.ck in c.crs && WritesDeployments(r.ctl) && Plain(c, r)
    ensures Reachable(c0, Reconcile(types, c, r).state)
  {
    DeploymentRequest(types, c, r);
    var spec := c.crs[r.ck].spec;
    var key := Target(r.ck, spec);
    if key in c.deployments && DeploymentEdit(r.ck, spec, r.ctl, c.deployments[key]).Some? {
      EditKeepsSelector(r.ck, spec, r.ctl, c.deployments[key]);
    }
  }

  lemma StaysReachable(types: Types, c0: State, work: set<Request>, c: State, r: Request)
    requires Admissible(types, c0, work) && Reachable(c0, c) && r in work
    ensures Reachable(c0, Reconcile(types, c, r).state)
  {
    if r.Child? {
      ChildStaysReachable(types, c0, c, r);
    } else if r.ck in c.crs && WritesDeployments(r.ctl) {
      LiveSpec(types, c0, work, c, r);
      DeploymentStaysReachable(types, c0, c, r);
    }
  }

  predicate Quiet(types: Types, c: State, r: Request) {
    Reconcile(types, c, r).state == c
  }

  lemma ChildTwice(types: Types, c: State, r: Request)
    requires r.Child?
    ensures Quiet(types, Reconcile(types, c, r).state, r)
  {
    var d := Reconcile(types, c, r).state;
    var e := Reconcile(types, d, r).state;
    forall k
      ensures Get(e.crs, k) == Get(d.crs, k)
    {
      ChildStep(types, c, r, k);
      ChildStep(types, d, r, k);
    }
    SameEntries(e.crs, d.crs);
  }

  lemma DeploymentTwice(types: Types, c: State, r: Request)
    requires r.ForResource? && r.ck in c.crs && WritesDeployments(r.ctl) && Plain(c, r)
    ensures Quiet(types, Reconcile(types, c, r).state, r)
  {
    var spec := c.crs[r.ck].spec;
    var key := Target(r.ck, spec);
    DeploymentRequest(types, c, r);
    DeploymentRequest(types, Reconcile(types, c, r).state, r);
    if key in c.deployments && DeploymentEdit(r.ck, spec, r.ctl, c.deployments[key]).Some? {
      EditTwice(r.ck, spec, r.ctl, c.deployments[key]);
    }
  }

  lemma LeafTwice(types: Types, c: State, r: Request)
    requires r.ForResource? && r.ck in c.crs && !WritesDeployments(r.ctl) && c.crs[r.ck].spec.targetRef.resource != ""
    requires Repeatable(types, r.ck, c.crs[r.ck].spec, r.ctl, Selector(c, r.ck, c.crs[r.ck].spec))
    ensures Quiet(types, Reconcile(types, c, r).state, r)
  {
    var spec := c.crs[r.ck].spec;
    LeafRequest(types, c, r);
    LeafRequest(types, Reconcile(types, c, r).state, r);
    PlanTwice(types, r.ck, spec, r.ctl, Selector(c, r.ck, spec), c.leaves);
  }

  /** A second pass of the same request has no effect. */
  lemma RequestTwice(types: Types, c0: State, work: set<Request>, c: State, r: Request)
    requires Admissible(types, c0, work) && Reachable(c0, c) && r in work
    ensures Quiet(types, Reconcile(types, c, r).state, r)
  {
    if r.Child? {
      ChildTwice(types, c, r);
    } else if r.ck in c.crs && c.crs[r.ck].spec.targetRef.resource != "" {
      LiveSpec(types, c0, work, c, r);
      if WritesDeployments(r.ctl) {
        DeploymentTwice(types, c, r);
      } else {
        LeafTwice(types, c, r);
      }
    }
  }

  // ----- A quiet request stays quiet

  /** A child that is as its Workload wants it is not disturbed by any other request. */
  lemma ChildStaysQuiet(types: Types, c: State, r: Request, q: Request)
    requires q.Child? && Quiet(types, c, q)
    ensures Quiet(types, Reconcile(types, c, r).state, q)
  {
    var d := Reconcile(types, c, r).state;
    if r.Child? {
      var e := Reconcile(types, d, q).state;
      forall k
        ensures Get(e.crs, k) == Get(d.crs, k)
      {
        ChildStep(types, c, r, k);
        ChildStep(types, c, q, k);
        ChildStep(types, d, q, k);
      }
      SameEntries(e.crs, d.crs);
    }
  }

  lemma QuietWriter(types: Types, c: State, q: Request)
    requires q.ForResource? && WritesDeployments(q.ctl) && q.ck in c.crs && Plain(c, q)
    ensures Quiet(types, c, q) <==> Written(c.deployments, q.ck, c.crs[q.ck].spec, q.ctl) == c.deployments
  {
    DeploymentRequest(types, c, q);
  }

  /** Neither is a Deployment writer by a request that stays apart from it. */
  lemma DeploymentStaysQuiet(types: Types, c: State, r: Request, q: Request)
    requires r.ForResource? && q.ForResource? && WritesDeployments(q.ctl) && Quiet(types, c, q)
    requires Plain(c, q) && Plain(c, r)
    requires r.ck in c.crs && q.ck in c.crs ==> !WritersMeet(q, c.crs[q.ck].spec, r, c.crs[r.ck].spec)
    ensures Quiet(types, Reconcile(types, c, r).state, q)
  {
    if q.ck in c.crs && r.ck in c.crs {
      var d := Reconcile(types, c, r).state;
      QuietWriter(types, c, q);
      DeploymentsAfter(types, c, r);
      NothingWrittenAfter(c, r, q);
      QuietWriter(types, d, q);
    }
  }

  lemma NothingWrittenAfter(c: State, r: Request, q: Request)
    requires r.ForResource? && q.ForResource? && r.ck in c.crs && q.ck in c.crs && WritesDeployments(q.ctl)
    requires !WritersMeet(q, c.crs[q.ck].spec, r, c.crs[r.ck].spec)
    requires Written(c.deployments, q.ck, c.crs[q.ck].spec, q.ctl) == c.deployments
    ensures var after :=
              if WritesDeployments(r.ctl) then Written(c.deployments, r.ck, c.crs[r.ck].spec, r.ctl) else c.deployments;
            Written(after, q.ck, c.crs[q.ck].spec, q.ctl) == after
  {
    if WritesDeployments(r.ctl) {
      StillNothingWritten(c.deployments, q.ck, c.crs[q.ck].spec, q.ctl, r.ck, c.crs[r.ck].spec, r.ctl);
    }
  }

  lemma DeploymentsAfter(types: Types, c: State, r: Request)
    requires r.ForResource? && r.ck in c.crs && Plain(c, r)
    ensures var d := Reconcile(types, c, r).state;
            d.crs == c.crs &&
            d.deployments ==
            if WritesDeployments(r.ctl) then Written(c.deployments, r.ck, c.crs[r.ck].spec, r.ctl) else c.deployments
  {
    if WritesDeployments(r.ctl) {
      DeploymentRequest(types, c, r);
    }
  }

  /** Nor a leaf controller, whose only read of a Deployment is a selector that no writer changes. */
  lemma LeafStaysQuiet(types: Types, c: State, r: Request, q: Request)
    requires r.ForResource? && q.ForResource? && !WritesDeployments(q.ctl) && Quiet(types, c, q)
    requires Plain(c, r)
    requires r.ck in c.crs && q.ck in c.crs ==> Apart(r, c.crs[r.ck].spec, q, c.crs[q.ck].spec)
    ensures Quiet(types, Reconcile(types, c, r).state, q)
  {
    var d := Reconcile(types, c, r).state;
    if q.ck in c.crs && r.ck in c.crs && c.crs[q.ck].spec.targetRef.resource != "" {
      var spec := c.crs[q.ck].spec;
      SelectorKept(types, c, r, q.ck, spec);
      FootprintOfPlan(q.ck, spec, q.ctl, Selector(c, q.ck, spec));
      OtherLeavesKept(types, c, r, Footprint(q.ck, spec, q.ctl));
      LeafRequest(types, c, q);
      LeafRequest(types, d, q);
      FixedElsewhere(types, CrOwner(q.ck), spec.hatches, Plan(q.ck, spec, q.ctl, Selector(c, q.ck, spec)), c.leaves,
                     d.leaves);
    }
  }

  /** A second-layer request leaves the resources, and the leaves outside its footprint, as they are. */
  lemma OtherLeavesKept(types: Types, c: State, r: Request, others: set<LeafKey>)
    requires r.ForResource? && r.ck in c.crs && Footprint(r.ck, c.crs[r.ck].spec, r.ctl) !! others
    ensures var d := Reconcile(types, c, r).state;
            d.crs == c.crs && forall k | k in others :: Get(c.leaves, k) == Get(d.leaves, k)
  {
    var theirs := c.crs[r.ck].spec;
    if !WritesDeployments(r.ctl) && theirs.targetRef.resource != "" {
      LeafRequest(types, c, r);
      FootprintOfPlan(r.ck, theirs, r.ctl, Selector(c, r.ck, theirs));
      forall k | k in others
        ensures Get(c.leaves, k) == Get(Reconcile(types, c, r).state.leaves, k)
      {
        ExecFrame(types, CrOwner(r.ck), theirs.hatches, Plan(r.ck, theirs, r.ctl, Selector(c, r.ck, theirs)), c.leaves,
                  k);
      }
    }
  }

  lemma SelectorKept(types: Types, c: State, r: Request, ck: CrKey, spec: Spec)
    requires r.ForResource? && r.ck in c.crs && Plain(c, r)
    ensures Selector(Reconcile(types, c, r).state, ck, spec) == Selector(c, ck, spec)
  {
    if WritesDeployments(r.ctl) {
      DeploymentRequest(types, c, r);
      WrittenKeepsSelectors(c.deployments, r.ck, c.crs[r.ck].spec, r.ctl, ck.namespace, spec.targetRef);
    }
  }

  lemma WrittenKeepsSelectors(ds: map<ObjectKey, Deployment>, ck: CrKey, spec: Spec, ctl: Controller,
                              namespace: string, target: ResourceRef)
    ensures PdbSelector(Written(ds, ck, spec, ctl), namespace, target) == PdbSelector(ds, namespace, target)
  {
    if Acts(ds, ck, spec, ctl) {
      EditKeepsSelector(ck, spec, ctl, ds[Target(ck, spec)]);
    }
  }

  lemma StaysQuiet(types: Types, c0: State, work: set<Request>, c: State, r: Request, q: Request)
    requires Admissible(types, c0, work) && Reachable(c0, c) && r in work && q in work && r != q
    requires Quiet(types, c, q) && (q.Child? || r.ForResource?)
    ensures Quiet(types, Reconcile(types, c, r).state, q)
  {
    if q.Child? {
      ChildStaysQuiet(types, c, r, q);
    } else {
      if r.ck in c.crs {
        LiveSpec(types, c0, work, c, r);
      }
      if q.ck in c.crs {
        LiveSpec(types, c0, work, c, q);
      }
      if WritesDeployments(q.ctl) {
        DeploymentStaysQuiet(types, c, r, q);
      } else {
        LeafStaysQuiet(types, c, r, q);
      }
    }
  }

  // ----- The measure

  function QuietIn(types: Types, c: State): Request -> bool {
    (r: Request) => Quiet(types, c, r)
  }

  /** The requests of one layer that still have an effect. */
  ghost function Dirty(work: set<Request>, quiet: Request -> bool, first: bool): set<Request> {
    set r | r in work && r.Child? == first && !quiet(r)
  }

  /** Dirty children first, then dirty second-layer requests. */
  ghost function RankBy(work: set<Request>, quiet: Request -> bool): nat {
    |Dirty(work, quiet, true)| * (|work| + 1) + |Dirty(work, quiet, false)|
  }

  ghost function Rank(types: Types, work: set<Request>, c: State): nat {
    RankBy(work, QuietIn(types, c))
  }

  lemma QuietOnesStay(types: Types, c0: State, work: set<Request>, c: State, r: Request)
    requires Admissible(types, c0, work) && Reachable(c0, c) && r in work
    ensures forall q | q in work && Quiet(types, c, q) && (q.Child? || r.ForResource?) ::
              Quiet(types, Reconcile(types, c, r).state, q)
  {
    forall q | q in work && Quiet(types, c, q) && (q.Child? || r.ForResource?)
      ensures Quiet(types, Reconcile(types, c, r).state, q)
    {
      if q == r {
        RequestTwice(types, c0, work, c, r);
      } else {
        StaysQuiet(types, c0, work, c, r, q);
      }
    }
  }

  lemma Lexicographic(f: nat, f': nat, s: nat, s': nat, n: nat)
    requires (f' < f && s' <= n) || (f' <= f && s' < s)
    ensures f' * (n + 1) + s' < f * (n + 1) + s
  {
    if f' < f {
      assert (f' + 1) * (n + 1) <= f * (n + 1);
    } else {
      assert f' * (n + 1) <= f * (n + 1);
    }
  }

  /** An effective step lowers the number of dirty children, or keeps it and lowers that of dirty leaves. */
  lemma EffectiveStepDescends(types: Types, c0: State, work: set<Request>, c: State, r: Request)
    requires Admissible(types, c0, work) && Reachable(c0, c) && r in work && !Quiet(types, c, r)
    ensures Rank(types, work, Reconcile(types, c, r).state) < Rank(types, work, c)
  {
    var d := Reconcile(types, c, r).state;
    RequestTwice(types, c0, work, c, r);
    QuietOnesStay(types, c0, work, c, r);
    DirtyDescends(work, QuietIn(types, c), QuietIn(types, d), r);
  }

  lemma DirtyDescends(work: set<Request>, before: Request -> bool, after: Request -> bool, r: Request)
    requires r in work && !before(r) && after(r)
    requires forall q | q in work && before(q) && (q.Child? || r.ForResource?) :: after(q)
    ensures RankBy(work, after) < RankBy(work, before)
  {
    var f, f' := Dirty(work, before, true), Dirty(work, after, true);
    var s, s' := Dirty(work, before, false), Dirty(work, after, false);
    assert f' <= f;
    assert r in if r.Child? then f - f' else s - s';
    SubsetSize(f', f);
    SubsetSize(s', work);
    if r.Child? {
      SmallerSet(f', f);
    } else {
      assert s' <= s;
      SmallerSet(s', s);
    }
    Lexicographic(|f|, |f'|, |s|, |s'|, |work|);
  }

  ghost function FromStart(c0: State): State -> bool {
    (c: State) => Reachable(c0, c)
  }

  ghost function Among(work: set<Request>): Request -> bool {
    (r: Request) => r in work
  }

  ghost function RankIn(types: Types, work: set<Request>): State -> nat {
    (c: State) => Rank(types, work, c)
  }

  lemma RequestsAreRanked(types: Types, c0: State, work: set<Request>)
    requires Admissible(types, c0, work)
    ensures Ranked(StepOf(types), FromStart(c0), Among(work), RankIn(types, work))
  {
    forall c: State, r | Reachable(c0, c) && r in work
      ensures Reachable(c0, Reconcile(types, c, r).state)
      ensures Quiet(types, c, r) || Rank(types, work, Reconcile(types, c, r).state) < Rank(types, work, c)
    {
      StaysReachable(types, c0, work, c, r);
      if !Quiet(types, c, r) {
        EffectiveStepDescends(types, c0, work, c, r);
      }
    }
  }

  /**
   Every schedule of the requests, of any length, has at most F * (N + 1) + S effective steps, where
   N requests are in play, F of them of the first layer and S of the second.
   */
  lemma BoundedConvergence(types: Types, c0: State, work: set<Request>, schedule: seq<Request>)
    requires Admissible(types, c0, work) && forall r :: r in schedule ==> r in work
    ensures Reachable(c0, Run(StepOf(types), c0, schedule))
    ensures Effective(StepOf(types), c0, schedule) <=
            |(set r | r in work && r.Child?)| * (|work| + 1) + |(set r | r in work && r.ForResource?)|
  {
    RequestsAreRanked(types, c0, work);
    EffectiveBounded(StepOf(types), FromStart(c0), Among(work), RankIn(types, work), c0, schedule);
    RankBound(types, c0, work);
  }

  lemma RankBound(types: Types, c: State, work: set<Request>)
    ensures Rank(types, work, c) <= |(set r | r in work && r.Child?)| * (|work| + 1) +
              |(set r | r in work && r.ForResource?)|
  {
    var f, s := set r | r in work && r.Child?, set r | r in work && r.ForResource?;
    SubsetSize(Dirty(work, QuietIn(types, c), true), f);
    SubsetSize(Dirty(work, QuietIn(types, c), false), s);
    assert |Dirty(work, QuietIn(types, c), true)| * (|work| + 1) <= |f| * (|work| + 1);
  }

  /** And an end is within reach: some schedule brings every request to the point where it has no effect. */
  lemma {:induction false} SettlesEventually(types: Types, c0: State, work: set<Request>, c: State)
    returns (schedule: seq<Request>)
    requires Admissible(types, c0, work) && Reachable(c0, c)
    ensures forall r | r in schedule :: r in work
    ensures forall r | r in work :: Quiet(types, Run(StepOf(types), c, schedule), r)
    decreases Rank(types, work, c)
  {
    if r :| r in work && !Quiet(types, c, r) {
      var next := Reconcile(types, c, r).state;
      StaysReachable(types, c0, work, c, r);
      EffectiveStepDescends(types, c0, work, c, r);
      var rest := SettlesEventually(types, c0, work, next);
      schedule := [r] + rest;
      assert schedule[1..] == rest;
    } else {
      schedule := [];
    }
  }
}
