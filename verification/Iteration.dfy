/** Running a step that may fail over a range of indices. */
module Iteration {
  import opened Wrappers

  function Iterate<S>(step: (S, nat) -> Option<S>, s: S, index: nat, stop: nat): Option<S>
    decreases stop - index
  {
    if index >= stop then Some(s)
    else
      match step(s, index)
      case None => None
      case Some(s') => Iterate(step, s', index + 1, stop)
  }

  method IterateLoop<S>(step: (S, nat) -> Option<S>, start: S, first: nat, stop: nat) returns (r: Option<S>)
    requires first <= stop
    ensures r == Iterate(step, start, first, stop)
  {
    var state := start;
    for index := first to stop
      invariant Iterate(step, state, index, stop) == Iterate(step, start, first, stop)
    {
      var stepped := step(state, index);
      if stepped.None? {
        return None;
      }
      state := stepped.value;
    }
    return Some(state);
  }

  /** Stopping on the way and going on from there is the same as not stopping. */
  lemma {:induction false} IterateSplits<S>(step: (S, nat) -> Option<S>, s: S, first: nat, mid: nat, stop: nat)
    requires first <= mid <= stop
    ensures Iterate(step, s, first, stop) ==
      match Iterate(step, s, first, mid)
      case None => None
      case Some(s') => Iterate(step, s', mid, stop)
    decreases mid - first
  {
    if first < mid && step(s, first).Some? {
      IterateSplits(step, step(s, first).value, first + 1, mid, stop);
    }
  }

  /** Steps that agree on a range run the same over it. */
  lemma {:induction false} IterateAgrees<S(!new)>(f: (S, nat) -> Option<S>, g: (S, nat) -> Option<S>, s: S,
                                                  first: nat, stop: nat)
    requires forall x, i: nat :: first <= i < stop ==> f(x, i) == g(x, i)
    ensures Iterate(f, s, first, stop) == Iterate(g, s, first, stop)
    decreases stop - first
  {
    if first < stop && f(s, first).Some? {
      IterateAgrees(f, g, f(s, first).value, first + 1, stop);
    }
  }

  /** Unless it fails, the step at index `i` takes the invariant to the next index. */
  ghost predicate KeepsAt<S(!new)>(step: (S, nat) -> Option<S>, inv: (S, nat) -> bool, s: S, i: nat) {
    inv(s, i) && step(s, i).Some? ==> inv(step(s, i).value, i + 1)
  }

  ghost predicate Keeps<S(!new)>(step: (S, nat) -> Option<S>, inv: (S, nat) -> bool, first: nat, stop: nat) {
    forall s, i: nat {:trigger KeepsAt(step, inv, s, i)} :: first <= i < stop ==> KeepsAt(step, inv, s, i)
  }

  /** What every step keeps, a run keeps. */
  lemma {:induction false} IterateKeeps<S(!new)>(step: (S, nat) -> Option<S>, inv: (S, nat) -> bool, s: S, first: nat,
                                                 stop: nat)
    requires first <= stop && Keeps(step, inv, first, stop) && inv(s, first)
    ensures Iterate(step, s, first, stop).Some? ==> inv(Iterate(step, s, first, stop).value, stop)
    decreases stop - first
  {
    if first < stop && step(s, first).Some? {
      assert KeepsAt(step, inv, s, first);
      IterateKeeps(step, inv, step(s, first).value, first + 1, stop);
    }
  }
}
