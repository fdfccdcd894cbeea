/** Runs of a state machine given by its step relation. */
module Runs {

  datatype Transition<E, S> = Transition(event: E, after: S)

  ghost predicate IsRun<S, E>(next: (S, E, S) -> bool, s: S, run: seq<Transition<E, S>>)
    decreases run
  {
    run == [] || (next(s, run[0].event, run[0].after) && IsRun(next, run[0].after, run[1..]))
  }

  function Final<S, E>(s: S, run: seq<Transition<E, S>>): S {
    if run == [] then s else run[|run| - 1].after
  }

  lemma {:induction false} RunAppend<S, E>(next: (S, E, S) -> bool, s: S, a: seq<Transition<E, S>>, b: seq<Transition<E, S>>)
    requires IsRun(next, s, a) && IsRun(next, Final(s, a), b)
    ensures IsRun(next, s, a + b) && Final(s, a + b) == Final(Final(s, a), b)
    decreases a
  {
    if a == [] {
      assert a + b == b;
    } else {
      assert Final(a[0].after, a[1..]) == Final(s, a);
      RunAppend(next, a[0].after, a[1..], b);
      assert (a + b)[0] == a[0] && (a + b)[1..] == a[1..] + b;
    }
  }

  /** What holds at first and is kept by every step holds at the end of every run. */
  lemma {:induction false} InvariantHolds<S(!new), E(!new)>(next: (S, E, S) -> bool, inv: S -> bool, s: S, run: seq<Transition<E, S>>)
    requires inv(s) && IsRun(next, s, run)
    requires forall a, e, b :: inv(a) && next(a, e, b) ==> inv(b)
    ensures inv(Final(s, run))
    decreases run
  {
    if run != [] {
      InvariantHolds(next, inv, run[0].after, run[1..]);
    }
  }

  /** What every step from a good state does, and what composes, a whole run does. */
  lemma {:induction false} RelationHolds<S(!new), E(!new)>(next: (S, E, S) -> bool, inv: S -> bool, rel: (S, S) -> bool,
                                                            s: S, run: seq<Transition<E, S>>)
    requires inv(s) && IsRun(next, s, run)
    requires forall a, e, b :: inv(a) && next(a, e, b) ==> inv(b) && rel(a, b)
    requires forall a :: inv(a) ==> rel(a, a)
    requires forall a, b, c :: inv(a) && inv(b) && inv(c) && rel(a, b) && rel(b, c) ==> rel(a, c)
    ensures inv(Final(s, run)) && rel(s, Final(s, run))
    decreases run
  {
    if run != [] {
      RelationHolds(next, inv, rel, run[0].after, run[1..]);
      assert Final(run[0].after, run[1..]) == Final(s, run);
    }
  }

  /** The state a run has reached before its step `i`. */
  function StateAt<S, E>(s: S, run: seq<Transition<E, S>>, i: nat): S
    requires i <= |run|
  {
    Final(s, run[..i])
  }

  /** A run is a run up to any step, that step, and a run from there on. */
  lemma {:induction false} RunAt<S, E>(next: (S, E, S) -> bool, s: S, run: seq<Transition<E, S>>, i: nat)
    requires IsRun(next, s, run) && i < |run|
    ensures IsRun(next, s, run[..i]) && next(StateAt(s, run, i), run[i].event, run[i].after)
    ensures IsRun(next, run[i].after, run[i + 1..]) && Final(run[i].after, run[i + 1..]) == Final(s, run)
    decreases run
  {
    if i > 0 {
      RunAt(next, run[0].after, run[1..], i - 1);
      assert run[1..][..i - 1] == run[..i][1..] && run[1..][i..] == run[i + 1..];
      assert Final(run[0].after, run[1..][..i - 1]) == Final(s, run[..i]);
    }
  }

  /** A run splits at any point. */
  lemma {:induction false} RunUpTo<S, E>(next: (S, E, S) -> bool, s: S, run: seq<Transition<E, S>>, i: nat)
    requires IsRun(next, s, run) && i <= |run|
    ensures IsRun(next, s, run[..i]) && IsRun(next, StateAt(s, run, i), run[i..])
    ensures Final(StateAt(s, run, i), run[i..]) == Final(s, run)
    decreases run
  {
    if i == 0 {
      assert run[0..] == run;
    } else {
      RunUpTo(next, run[0].after, run[1..], i - 1);
      assert run[1..][..i - 1] == run[..i][1..] && run[1..][i - 1..] == run[i..];
      assert Final(run[0].after, run[1..][..i - 1]) == Final(s, run[..i]);
    }
  }
}
