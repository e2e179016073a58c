/** Runs of a transition system under an arbitrary schedule, and how many of their steps change the state. */
module Schedules {

  function Run<S, L>(step: (S, L) -> S, s: S, ls: seq<L>): S {
    if ls == [] then s else Run(step, step(s, ls[0]), ls[1..])
  }

  /** The number of steps of the run that change the state. */
  function Effective<S(==), L>(step: (S, L) -> S, s: S, ls: seq<L>): nat {
    if ls == [] then 0
    else (if step(s, ls[0]) == s then 0 else 1) + Effective(step, step(s, ls[0]), ls[1..])
  }

  /** `inv` is kept by every allowed step, and `rank` drops whenever such a step changes the state. */
  ghost predicate Ranked<S(!new), L(!new)>(step: (S, L) -> S, inv: S -> bool, allowed: L -> bool, rank: S -> nat) {
    forall s, l :: inv(s) && allowed(l) ==>
      inv(step(s, l)) && (step(s, l) == s || rank(step(s, l)) < rank(s))
  }

  /** However long the schedule, at most `rank(s)` of its steps have an effect. */
  lemma {:induction false} EffectiveBounded<S(!new), L(!new)>(
    step: (S, L) -> S, inv: S -> bool, allowed: L -> bool, rank: S -> nat, s: S, ls: seq<L>)
    requires Ranked(step, inv, allowed, rank)
    requires inv(s) && forall l | l in ls :: allowed(l)
    ensures inv(Run(step, s, ls)) && Effective(step, s, ls) <= rank(s)
  {
    if ls != [] {
      assert inv(step(s, ls[0]));
      EffectiveBounded(step, inv, allowed, rank, step(s, ls[0]), ls[1..]);
    }
  }
}
