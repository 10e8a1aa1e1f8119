/** Systems of steps: runs of actions, what every run keeps, and which states can be reached. */
module Steps {
  import opened Options

  /** One step; `None` when the action cannot happen in the state. */
  type Stepper<!S, !A> = (S, A) -> Option<S>

  /** The state after a run, and `None` when one of its actions cannot happen. */
  function RunOf<S, A>(next: Stepper<S, A>, s: S, actions: seq<A>): Option<S> {
    if actions == [] then Some(s)
    else match RunOf(next, s, actions[..|actions| - 1])
         case Some(t) => next(t, actions[|actions| - 1])
         case None => None
  }

  /** No step leads out of the set. */
  ghost predicate Keeps<S(!new), A(!new)>(next: Stepper<S, A>, inv: S -> bool) {
    forall s: S, a: A :: inv(s) && next(s, a).Some? ==> inv(next(s, a).value)
  }

  /** What every step keeps, every run keeps. */
  lemma {:induction false} RunKeeps<S(!new), A(!new)>(next: Stepper<S, A>, inv: S -> bool, s: S, actions: seq<A>)
    requires Keeps(next, inv) && inv(s) && RunOf(next, s, actions).Some?
    ensures inv(RunOf(next, s, actions).value)
  {
    if actions != [] {
      RunKeeps(next, inv, s, actions[..|actions| - 1]);
    }
  }

  lemma {:induction false} RunAppend<S, A>(next: Stepper<S, A>, s: S, a: seq<A>, b: seq<A>)
    requires RunOf(next, s, a).Some?
    ensures RunOf(next, s, a + b) == RunOf(next, RunOf(next, s, a).value, b)
  {
    if b == [] {
      assert a + b == a;
    } else {
      var n := |b| - 1;
      assert (a + b)[..|a| + n] == a + b[..n] && (a + b)[|a| + n] == b[n];
      RunAppend(next, s, a, b[..n]);
    }
  }

  lemma RunCons<S, A>(next: Stepper<S, A>, s: S, a: A, rest: seq<A>)
    requires next(s, a).Some?
    ensures RunOf(next, s, [a] + rest) == RunOf(next, next(s, a).value, rest)
  {
    assert [a][..0] == [];
    assert RunOf(next, s, [a]) == next(s, a);
    RunAppend(next, s, [a], rest);
  }

  lemma TwoSteps<S, A>(next: Stepper<S, A>, s: S, a: A, b: A)
    requires next(s, a).Some?
    ensures RunOf(next, s, [a, b]) == next(next(s, a).value, b)
  {
    assert [a, b][..1] == [a] && [a][..0] == [];
    assert RunOf(next, s, [a]) == next(s, a);
  }

  /** Some run from a starting state ends in the state. */
  ghost predicate ReachableBy<S(!new), A(!new)>(next: Stepper<S, A>, starts: S -> bool, s: S) {
    exists start: S, actions: seq<A> :: starts(start) && RunOf(next, start, actions) == Some(s)
  }

  /** What holds at the start and is kept by every step holds in every reachable state. */
  lemma ReachableKeeps<S(!new), A(!new)>(next: Stepper<S, A>, starts: S -> bool, inv: S -> bool, s: S)
    requires Keeps(next, inv) && (forall start: S :: starts(start) ==> inv(start)) && ReachableBy(next, starts, s)
    ensures inv(s)
  {
    var start: S, actions: seq<A> :| starts(start) && RunOf(next, start, actions) == Some(s);
    RunKeeps(next, inv, start, actions);
  }

  /** A run from a reachable state ends in one. */
  lemma ReachableRun<S(!new), A(!new)>(next: Stepper<S, A>, starts: S -> bool, s: S, actions: seq<A>)
    requires ReachableBy(next, starts, s) && RunOf(next, s, actions).Some?
    ensures ReachableBy(next, starts, RunOf(next, s, actions).value)
  {
    var start: S, before: seq<A> :| starts(start) && RunOf(next, start, before) == Some(s);
    RunAppend(next, start, before, actions);
    assert RunOf(next, start, before + actions) == RunOf(next, s, actions);
  }
}
