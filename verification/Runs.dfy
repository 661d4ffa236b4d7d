/** Runs of a state machine: what a step keeps, a run keeps. */
module Runs {

  function Apply<S, E>(next: (S, E) -> S, s: S, e: E): S {
    next(s, e)
  }

  predicate Holds<S>(inv: S -> bool, s: S) {
    inv(s)
  }

  predicate Fits<S, E>(allowed: (S, E) -> bool, s: S, e: E) {
    allowed(s, e)
  }

  /** The state after the first `n` events. */
  function RunTo<S, E>(next: (S, E) -> S, s: S, events: seq<E>, n: nat): S
    requires n <= |events|
  {
    if n == 0 then s else Apply(next, RunTo(next, s, events, n - 1), events[n - 1])
  }

  /** Every event is allowed in the state it meets. */
  ghost predicate Follows<S, E>(next: (S, E) -> S, allowed: (S, E) -> bool, s: S, events: seq<E>) {
    forall i :: 0 <= i < |events| ==> Fits(allowed, RunTo(next, s, events, i), events[i])
  }

  ghost predicate Inductive<S(!new), E(!new)>(next: (S, E) -> S, inv: S -> bool, allowed: (S, E) -> bool) {
    forall s, e :: Holds(inv, s) && Fits(allowed, s, e) ==> Holds(inv, Apply(next, s, e))
  }

  lemma {:induction false} InductiveHolds<S(!new), E(!new)>(
      next: (S, E) -> S, inv: S -> bool, allowed: (S, E) -> bool, s: S, events: seq<E>, n: nat)
    requires Inductive(next, inv, allowed) && Holds(inv, s) && n <= |events|
    requires Follows(next, allowed, s, events)
    ensures Holds(inv, RunTo(next, s, events, n))
  {
    if n != 0 {
      InductiveHolds(next, inv, allowed, s, events, n - 1);
    }
  }

  /** What holds at one point of a run holds at a later one, if every step in between is allowed. */
  lemma {:induction false} InductiveFrom<S(!new), E(!new)>(
      next: (S, E) -> S, inv: S -> bool, allowed: (S, E) -> bool, s: S, events: seq<E>, i: nat, j: nat)
    requires Inductive(next, inv, allowed) && i <= j <= |events| && Holds(inv, RunTo(next, s, events, i))
    requires forall k :: i <= k < j ==> Fits(allowed, RunTo(next, s, events, k), events[k])
    ensures Holds(inv, RunTo(next, s, events, j))
  {
    if i < j {
      InductiveFrom(next, inv, allowed, s, events, i, j - 1);
    }
  }

  lemma RunStep<S, E>(next: (S, E) -> S, s: S, events: seq<E>, k: nat)
    requires k < |events|
    ensures RunTo(next, s, events, k + 1) == Apply(next, RunTo(next, s, events, k), events[k])
  {
  }

  lemma {:induction false} RunPrefix<S, E>(next: (S, E) -> S, s: S, events: seq<E>, more: seq<E>, n: nat)
    requires n <= |events|
    ensures RunTo(next, s, events + more, n) == RunTo(next, s, events, n)
  {
    if n != 0 {
      RunPrefix(next, s, events, more, n - 1);
    }
  }

  /** A run goes on by one allowed event. */
  lemma Extended<S, E>(next: (S, E) -> S, allowed: (S, E) -> bool, s: S, events: seq<E>, e: E)
    requires Follows(next, allowed, s, events) && Fits(allowed, RunTo(next, s, events, |events|), e)
    ensures Follows(next, allowed, s, events + [e])
    ensures RunTo(next, s, events + [e], |events| + 1) == Apply(next, RunTo(next, s, events, |events|), e)
  {
    forall i | 0 <= i < |events + [e]|
      ensures Fits(allowed, RunTo(next, s, events + [e], i), (events + [e])[i])
    {
      RunPrefix(next, s, events, [e], i);
    }
    RunPrefix(next, s, events, [e], |events|);
  }
}
