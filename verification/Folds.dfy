/** Running a fallible step over a sequence until it fails or is done, and where such a run can end. */
module Folds {
  import opened Options
  import opened Streams

  type Step<!S, !F> = (S, F) -> (S, Outcome)

  /** Steps through the items; `end` is the outcome when they run out before the state is done. */
  function RunAll<S, F>(step: Step<S, F>, done: S -> bool, items: seq<F>, end: Outcome, st: S): (S, Outcome) {
    if items == [] then (st, end)
    else
      var (next, o) := step(st, items[0]);
      if o != Ok || done(next) then (next, o) else RunAll(step, done, items[1..], end, next)
  }

  /** The state once every item was taken without error, none of them in a done state. */
  function Reach<S, F>(step: Step<S, F>, done: S -> bool, start: S, items: seq<F>): Option<S> {
    if items == [] then Some(start)
    else
      match Reach(step, done, start, items[..|items| - 1])
      case None => None
      case Some(st) =>
        if done(st) then None
        else
          var (next, o) := step(st, items[|items| - 1]);
          if o == Ok then Some(next) else None
  }

  /** The first `k` items reach `final`, which is done. */
  ghost predicate CompletesAt<S, F>(step: Step<S, F>, done: S -> bool, start: S, items: seq<F>, k: nat, final: S) {
    k <= |items| && Reach(step, done, start, items[..k]) == Some(final) && done(final)
  }

  /** The first `k` items are taken, and `final` is the state they reach or the one the next item fails in. */
  ghost predicate StopsAt<S, F>(step: Step<S, F>, done: S -> bool, start: S, items: seq<F>, k: nat, final: S) {
    && k <= |items|
    && Reach(step, done, start, items[..k]).Some?
    && var st := Reach(step, done, start, items[..k]).value;
       || final == st
       || (k < |items| && !done(st) && step(st, items[k]).0 == final && step(st, items[k]).1 != Ok)
  }

  lemma {:induction false} NotReachedLater<S, F>(step: Step<S, F>, done: S -> bool, start: S, items: seq<F>, j: nat, k: nat)
    requires j < k <= |items|
    requires Reach(step, done, start, items[..j]).None? || done(Reach(step, done, start, items[..j]).value)
    ensures Reach(step, done, start, items[..k]).None?
    decreases k
  {
    assert items[..k][..k - 1] == items[..k - 1];
    if j < k - 1 {
      NotReachedLater(step, done, start, items, j, k - 1);
    }
  }

  lemma {:induction false} RunFromReach<S, F>(
    step: Step<S, F>, done: S -> bool, start: S, items: seq<F>, i: nat, end: Outcome)
    requires i <= |items| && end != Ok
    requires Reach(step, done, start, items[..i]).Some? && !done(Reach(step, done, start, items[..i]).value)
    ensures
      var (final, o) := RunAll(step, done, items[i..], end, Reach(step, done, start, items[..i]).value);
      && (o == Ok ==> exists k :: CompletesAt(step, done, start, items, k, final))
      && (forall k, st :: CompletesAt(step, done, start, items, k, st) ==> o == Ok && st == final)
      && (exists k :: StopsAt(step, done, start, items, k, final))
    decreases |items| - i
  {
    var st := Reach(step, done, start, items[..i]).value;
    forall k: nat, s | CompletesAt(step, done, start, items, k, s)
      ensures k > i
    {
      if k < i {
        NotReachedLater(step, done, start, items, k, i);
      }
    }
    assert StopsAt(step, done, start, items, i, st);
    if i < |items| {
      assert items[..i + 1][..i] == items[..i] && items[i..][1..] == items[i + 1..];
      var (next, o) := step(st, items[i]);
      if o == Ok && !done(next) {
        RunFromReach(step, done, start, items, i + 1, end);
      } else {
        if o == Ok {
          assert CompletesAt(step, done, start, items, i + 1, next);
          assert StopsAt(step, done, start, items, i + 1, next);
        } else {
          assert StopsAt(step, done, start, items, i, next);
        }
        forall k: nat, s | CompletesAt(step, done, start, items, k, s)
          ensures k == i + 1
        {
          if k > i + 1 {
            NotReachedLater(step, done, start, items, i + 1, k);
          }
        }
      }
    }
  }

  /** A run succeeds exactly when some prefix of the items reaches a done state, which is where it ends. */
  lemma RunReaches<S, F>(step: Step<S, F>, done: S -> bool, start: S, items: seq<F>, end: Outcome)
    requires end != Ok && !done(start)
    ensures
      var (final, o) := RunAll(step, done, items, end, start);
      && (o == Ok <==> exists k, st :: CompletesAt(step, done, start, items, k, st))
      && (forall k, st :: CompletesAt(step, done, start, items, k, st) ==> st == final)
      && (exists k :: StopsAt(step, done, start, items, k, final))
  {
    assert items[..0] == [] && items[0..] == items;
    RunFromReach(step, done, start, items, 0, end);
  }

  /** The client takes the first `n` frames. */
  ghost predicate AcceptsFirst(accepts: nat -> bool, n: nat) {
    forall i :: 0 <= i < n ==> accepts(i)
  }
}
