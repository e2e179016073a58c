/**
 From a start without obstacles - no leaf or child under a foreign controller, sizes that parse, and
 hatches that cannot fail - every request succeeds in every state of every run. So stores without
 pending work are at rest, they are reached, and they agree.
 */
module Settling {
  import opened Wrappers
  import opened JsonTree
  import opened EscapeHatch
  import opened Specs
  import opened Cluster
  import opened LeafFrames
  import opened Histories
  import opened Fixpoints
  import opened Convergence
  import opened Quiescence
  import opened Schedules

  /** No other controller holds a leaf that the request could touch for a resource of this spec. */
  ghost predicate LeavesFree(leaves: map<LeafKey, Leaf>, r: Request, s: Spec)
    requires r.ForResource?
  {
    forall k | k in Footprint(r.ck, s, r.ctl) && k in leaves :: leaves[k].owner in {None, Some(CrOwner(r.ck))}
  }

  /** All its sizes parse, and none of its hatches can fail. */
  ghost predicate CanRun(types: Types, c0: State, r: Request, s: Spec)
    requires r.ForResource?
  {
    var plan := Plan(r.ck, s, r.ctl, Convergence.Selector(c0, r.ck, s));
    WritesDeployments(r.ctl) || (SurePlan(types, s.hatches, plan) && forall op | op in plan :: !op.Reject?)
  }

  /** No other controller holds the child of a Workload request. */
  predicate ChildFree(c: State, r: Request)
    requires r.Child?
  {
    r.workload in c.workloads ==>
      var key := ChildKey(r.workload, c.workloads[r.workload], r.cap);
      key in c.crs ==> c.crs[key].owner in {None, Some(Owner("Workload", r.workload))}
  }

  ghost predicate AllLeavesFree(c0: State, work: set<Request>, leaves: map<LeafKey, Leaf>) {
    forall r, s | r in work && r.ForResource? && s in Candidates(c0, r.ck) :: LeavesFree(leaves, r, s)
  }

  /** What the requests need of the state they start from. */
  ghost predicate Unobstructed(types: Types, c0: State, work: set<Request>) {
    (forall r | r in work && r.Child? :: ChildFree(c0, r)) &&
    (forall r, s | r in work && r.ForResource? && s in Candidates(c0, r.ck) :: CanRun(types, c0, r, s)) &&
    AllLeavesFree(c0, work, c0.leaves)
  }

  // ----- Owners along a run

  /** A leaf after a plan is as before, gone, or the owner's. */
  lemma {:induction false} ExecOwner(types: Types, owner: Owner, hs: seq<Hatch>, ops: seq<LeafOp>,
                                     leaves: map<LeafKey, Leaf>, k: LeafKey)
    ensures var after := Exec(types, owner, hs, ops, leaves).leaves;
            k in after ==> Get(after, k) == Get(leaves, k) || after[k].owner == Some(owner)
  {
    if ops != [] {
      var first := ExecOp(types, owner, hs, ops[0], leaves);
      if first.ok {
        ExecOwner(types, owner, hs, ops[1..], first.leaves, k);
      }
    }
  }

  /** A request leaves its own leaves free for itself. */
  lemma OwnLeavesStayFree(types: Types, c: State, r: Request, s: Spec)
    requires r.ForResource? && LeavesFree(c.leaves, r, s)
    ensures LeavesFree(Reconcile(types, c, r).state.leaves, r, s)
  {
    if Live(c, r) && !WritesDeployments(r.ctl) {
      var spec := c.crs[r.ck].spec;
      var plan := Plan(r.ck, spec, r.ctl, Convergence.Selector(c, r.ck, spec));
      LeafRequest(types, c, r);
      forall k | k in Footprint(r.ck, s, r.ctl) && k in Reconcile(types, c, r).state.leaves
        ensures Reconcile(types, c, r).state.leaves[k].owner in {None, Some(CrOwner(r.ck))}
      {
        ExecOwner(types, CrOwner(r.ck), spec.hatches, plan, c.leaves, k);
      }
    }
  }

  lemma LeavesStayFree(types: Types, c0: State, work: set<Request>, c: State, r: Request)
    requires Admissible(types, c0, work) && Reachable(c0, c) && r in work && AllLeavesFree(c0, work, c.leaves)
    ensures AllLeavesFree(c0, work, Reconcile(types, c, r).state.leaves)
  {
    var d := Reconcile(types, c, r).state;
    forall q, s | q in work && q.ForResource? && s in Candidates(c0, q.ck)
      ensures LeavesFree(d.leaves, q, s)
    {
      if q == r {
        OwnLeavesStayFree(types, c, r, s);
      } else if r.ForResource? && r.ck in c.crs {
        LiveSpec(types, c0, work, c, r);
        assert Apart(r, c.crs[r.ck].spec, q, s);
        OtherLeavesKept(types, c, r, Footprint(q.ck, s, q.ctl));
        assert forall k | k in Footprint(q.ck, s, q.ctl) :: Get(c.leaves, k) == Get(d.leaves, k);
      }
    }
  }

  lemma {:induction false} RunStaysFree(types: Types, c0: State, work: set<Request>, c: State, rs: seq<Request>)
    requires Admissible(types, c0, work) && Reachable(c0, c) && AllLeavesFree(c0, work, c.leaves)
    requires forall r | r in rs :: r in work
    ensures Reachable(c0, Run(StepOf(types), c, rs)) && AllLeavesFree(c0, work, Run(StepOf(types), c, rs).leaves)
    decreases |rs|
  {
    if rs != [] {
      StaysReachable(types, c0, work, c, rs[0]);
      LeavesStayFree(types, c0, work, c, rs[0]);
      RunStaysFree(types, c0, work, Reconcile(types, c, rs[0]).state, rs[1..]);
    }
  }

  // ----- Every request succeeds

  lemma ChildSucceeds(types: Types, c0: State, c: State, r: Request)
    requires r.Child? && ChildFree(c0, r) && Reachable(c0, c)
    ensures Reconcile(types, c, r).ok
  {
    if r.workload in c.workloads {
      var key := ChildKey(r.workload, c.workloads[r.workload], r.cap);
      ChildKeyParent(r.workload, c.workloads[r.workload], r.cap);
      assert Get(c.crs, key) == Get(c0.crs, key) || Get(c.crs, key) == SettledChild(c0, key);
    }
  }

  lemma PlanSucceeds(types: Types, ck: CrKey, spec: Spec, ctl: Controller, selector: Json, leaves: map<LeafKey, Leaf>)
    requires SurePlan(types, spec.hatches, Plan(ck, spec, ctl, selector))
    requires forall op | op in Plan(ck, spec, ctl, selector) :: !op.Reject?
    requires forall k | k in KeysOf(Plan(ck, spec, ctl, selector)) && k in leaves ::
               MayControl(leaves[k].owner, CrOwner(ck))
    ensures Exec(types, CrOwner(ck), spec.hatches, Plan(ck, spec, ctl, selector), leaves).ok
  {
    var plan := Plan(ck, spec, ctl, selector);
    PlanShape(ck, spec, ctl, selector);
    forall op | op in plan && op.Write?
      ensures op.managed.Into? && (op.key in leaves ==> MayControl(leaves[op.key].owner, CrOwner(ck)))
    {
      PlansAssign(ck, spec, ctl, selector, op);
      KeysOfMember(plan, op.key);
      assert op.key in KeyOf(op);
    }
    if forall op | op in plan :: !op.Erase? {
      SureRunSucceedsIff(types, CrOwner(ck), spec.hatches, plan, leaves);
    } else {
      ExecSingle(types, CrOwner(ck), spec.hatches, plan, leaves);
    }
  }

  lemma LeafSucceeds(types: Types, c0: State, c: State, r: Request)
    requires Live(c, r) && !WritesDeployments(r.ctl) && Reachable(c0, c)
    requires CanRun(types, c0, r, c.crs[r.ck].spec) && LeavesFree(c.leaves, r, c.crs[r.ck].spec)
    ensures Reconcile(types, c, r).ok
  {
    var spec := c.crs[r.ck].spec;
    LeafRequest(types, c, r);
    SelectorFromStart(c0, c, r.ck, spec);
    FootprintOfPlan(r.ck, spec, r.ctl, Convergence.Selector(c, r.ck, spec));
    PlanSucceeds(types, r.ck, spec, r.ctl, Convergence.Selector(c, r.ck, spec), c.leaves);
  }

  /** From an unobstructed start no request ever fails. */
  lemma RequestSucceeds(types: Types, c0: State, work: set<Request>, c: State, r: Request)
    requires Admissible(types, c0, work) && Unobstructed(types, c0, work) && r in work
    requires Reachable(c0, c) && AllLeavesFree(c0, work, c.leaves)
    ensures Reconcile(types, c, r).ok
  {
    if r.Child? {
      ChildSucceeds(types, c0, c, r);
    } else if Live(c, r) {
      LiveSpec(types, c0, work, c, r);
      if WritesDeployments(r.ctl) {
        DeploymentRequest(types, c, r);
      } else {
        LeafSucceeds(types, c0, c, r);
      }
    }
  }

  // ----- Rest

  ghost predicate AllQuiet(types: Types, c: State, work: set<Request>) {
    forall r | r in work :: Quiet(types, c, r)
  }

  /** In every run, then, a store without pending work is a store at rest. */
  lemma QuietIsRest(types: Types, c0: State, work: set<Request>, rs: seq<Request>)
    requires Admissible(types, c0, work) && Unobstructed(types, c0, work) && forall r :: r in rs ==> r in work
    ensures forall r | r in work :: Reconcile(types, Run(StepOf(types), c0, rs), r).ok
    ensures AllQuiet(types, Run(StepOf(types), c0, rs), work) <==> AllAtRest(types, Run(StepOf(types), c0, rs), work)
  {
    var c := Run(StepOf(types), c0, rs);
    RunStaysFree(types, c0, work, c0, rs);
    forall r | r in work
      ensures Reconcile(types, c, r).ok && (Quiet(types, c, r) <==> AtRest(types, c, r))
    {
      RequestSucceeds(types, c0, work, c, r);
    }
  }

  lemma {:induction false} RunAppend(types: Types, c: State, rs: seq<Request>, qs: seq<Request>)
    ensures Run(StepOf(types), c, rs + qs) == Run(StepOf(types), Run(StepOf(types), c, rs), qs)
    decreases |rs|
  {
    if rs == [] {
      assert rs + qs == qs;
    } else {
      assert (rs + qs)[0] == rs[0] && (rs + qs)[1..] == rs[1..] + qs;
      RunAppend(types, Reconcile(types, c, rs[0]).state, rs[1..], qs);
    }
  }

  /** Every run can be continued to a store at which every request returns without error and without effect. */
  lemma ComesToRest(types: Types, c0: State, work: set<Request>, rs: seq<Request>) returns (more: seq<Request>)
    requires Admissible(types, c0, work) && Unobstructed(types, c0, work) && forall r :: r in rs ==> r in work
    ensures forall r | r in more :: r in work
    ensures AllAtRest(types, Run(StepOf(types), c0, rs + more), work)
  {
    RunStaysFree(types, c0, work, c0, rs);
    more := SettlesEventually(types, c0, work, Run(StepOf(types), c0, rs));
    RunAppend(types, c0, rs, more);
    QuietIsRest(types, c0, work, rs + more);
  }

  /**
   Whatever two schedules leave no request with an effect, the two stores are at rest, have the same
   capability resources, and agree on all that every live request manages.
   */
  lemma QuietConfluence(types: Types, c0: State, work: set<Request>, rs: seq<Request>, qs: seq<Request>)
    requires Admissible(types, c0, work) && Unobstructed(types, c0, work)
    requires (forall r :: r in rs ==> r in work) && (forall r :: r in qs ==> r in work)
    requires AllQuiet(types, Run(StepOf(types), c0, rs), work) && AllQuiet(types, Run(StepOf(types), c0, qs), work)
    ensures var a, b := Run(StepOf(types), c0, rs), Run(StepOf(types), c0, qs);
            AllAtRest(types, a, work) && AllAtRest(types, b, work) &&
            a.crs == b.crs && forall r | r in work && Live(a, r) :: AgreeOn(types, a, b, r)
  {
    QuietIsRest(types, c0, work, rs);
    QuietIsRest(types, c0, work, qs);
    Confluence(types, c0, work, rs, qs);
  }
}
