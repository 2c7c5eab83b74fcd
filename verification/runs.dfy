/** Runs of a state machine: a schedule is a list of labels, and next says where a label
    leads when it can go. */
module Runs {
  import opened Options

  /** A schedule that the machine can follow from s. */
  predicate CanRun<S, L>(next: (S, L) -> Option<S>, s: S, sched: seq<L>)
    decreases |sched|
  {
    sched == [] || (next(s, sched[0]).Some? && CanRun(next, next(s, sched[0]).value, sched[1..]))
  }

  /** Where it leads. */
  function Reached<S, L>(next: (S, L) -> Option<S>, s: S, sched: seq<L>): S
    requires CanRun(next, s, sched)
    decreases |sched|
  {
    if sched == [] then s else Reached(next, next(s, sched[0]).value, sched[1..])
  }

  lemma NoStep<S, L>(next: (S, L) -> Option<S>, s: S)
    ensures CanRun(next, s, []) && Reached(next, s, []) == s
  {
  }

  lemma OneStep<S, L>(next: (S, L) -> Option<S>, s: S, l: L)
    requires next(s, l).Some?
    ensures CanRun(next, s, [l]) && Reached(next, s, [l]) == next(s, l).value
  {
    Prepend(next, s, l, []);
    assert [l] + [] == [l];
  }

  lemma Prepend<S, L>(next: (S, L) -> Option<S>, s: S, l: L, rest: seq<L>)
    requires next(s, l).Some? && CanRun(next, next(s, l).value, rest)
    ensures CanRun(next, s, [l] + rest) && Reached(next, s, [l] + rest) == Reached(next, next(s, l).value, rest)
  {
    assert ([l] + rest)[1..] == rest;
  }

  lemma {:induction false} Split<S, L>(next: (S, L) -> Option<S>, s: S, a: seq<L>, b: seq<L>)
    ensures CanRun(next, s, a + b) <==> CanRun(next, s, a) && CanRun(next, Reached(next, s, a), b)
    ensures CanRun(next, s, a + b) ==> Reached(next, s, a + b) == Reached(next, Reached(next, s, a), b)
    decreases |a|
  {
    if a == [] {
      assert a + b == b;
    } else {
      assert (a + b)[1..] == a[1..] + b;
      if next(s, a[0]).Some? {
        Split(next, next(s, a[0]).value, a[1..], b);
      }
    }
  }

  lemma Extend<S, L>(next: (S, L) -> Option<S>, s: S, sched: seq<L>, l: L)
    requires CanRun(next, s, sched) && next(Reached(next, s, sched), l).Some?
    ensures CanRun(next, s, sched + [l]) && Reached(next, s, sched + [l]) == next(Reached(next, s, sched), l).value
  {
    OneStep(next, Reached(next, s, sched), l);
    Split(next, s, sched, [l]);
  }
}
