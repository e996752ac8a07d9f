/** Runs of a labelled transition system, and the induction over them. */
module Runs {

  /** A run from `s`: each entry is a label and the state its step leads to. */
  ghost predicate IsTrace<S, L>(step: (S, L, S) -> bool, s: S, trace: seq<(L, S)>)
    decreases |trace|
  {
    trace == [] || (step(s, trace[0].0, trace[0].1) && IsTrace(step, trace[0].1, trace[1..]))
  }

  ghost function End<S, L>(s: S, trace: seq<(L, S)>): S {
    if trace == [] then s else trace[|trace| - 1].1
  }

  /** What every step keeps holds at the end of every run. */
  lemma {:induction false} Invariant<S(!new), L(!new)>(inv: S -> bool, step: (S, L, S) -> bool, s: S, trace: seq<(L, S)>)
    requires inv(s) && IsTrace(step, s, trace)
    requires forall a, l, b :: inv(a) && step(a, l, b) ==> inv(b)
    ensures inv(End(s, trace))
    decreases |trace|
  {
    if trace != [] {
      Invariant(inv, step, trace[0].1, trace[1..]);
      assert End(trace[0].1, trace[1..]) == End(s, trace);
    }
  }

  lemma TraceCons<S, L>(step: (S, L, S) -> bool, s: S, l: L, s': S, rest: seq<(L, S)>)
    requires step(s, l, s') && IsTrace(step, s', rest)
    ensures IsTrace(step, s, [(l, s')] + rest) && End(s, [(l, s')] + rest) == End(s', rest)
  {
    assert ([(l, s')] + rest)[1..] == rest;
  }
}
