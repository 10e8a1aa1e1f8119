/**
 The native database gateway as a system of steps. Every region the gateway runs
 under its mutex, every channel operation and every goroutine transition is one
 step, so a sequence of actions is one interleaving of creates, deletes, accept
 loops, sessions and closes. The invariant is proved for all of them.
 */
module DbGateway {
  import opened Options
  import opened Steps
  import opened Maps

  const CAPACITY := 1024

  /** A create that reserved its entry, by the order of reservation. */
  type Ref = nat

  /**
   Where a create stands: its entry is reserved; its listen failed; its entry is
   withdrawn again; its accept loop runs; the loop is left and waits for its
   sessions; its `done` is closed.
   */
  datatype Phase = Reserved | ListenFailed | Withdrawn | Serving | Draining | Finished

  /** `busy` sessions hold a slot; `leaving` ones gave it back and are not yet waited for. */
  datatype Listener = Listener(id: int, phase: Phase, cancelled: bool, busy: nat, leaving: nat)

  datatype DeleteStage = Found | Waiting | SawDone | Returned

  /** A `DeleteProxy` call that found a listener. */
  datatype Delete = Delete(id: int, target: Ref, stage: DeleteStage)

  /** A `Close` call: its snapshot, and the listeners it has yet to cancel and to await. */
  datatype Close = Close(snapshot: set<Ref>, toCancel: set<Ref>, toAwait: set<Ref>)

  datatype State = State(
    listeners: map<int, Ref>, closed: bool, slots: nat,
    all: seq<Listener>, deletes: seq<Delete>, closes: seq<Close>)

  const INIT := State(map[], false, 0, [], [], [])

  // ---- The regions under the mutex

  datatype Reservation = Granted | GatewayClosed | AlreadyExists

  function Reserve(listeners: map<int, Ref>, closed: bool, id: int, r: Ref): (map<int, Ref>, Reservation) {
    if closed then (listeners, GatewayClosed)
    else if id in listeners then (listeners, AlreadyExists)
    else (listeners[id := r], Granted)
  }

  /** The delete after a failed listen: by id, without looking whose entry it is. */
  function Withdraw(listeners: map<int, Ref>, id: int): map<int, Ref> {
    listeners - {id}
  }

  function RemoveIfCurrent(listeners: map<int, Ref>, id: int, r: Ref): map<int, Ref> {
    if id in listeners && listeners[id] == r then listeners - {id} else listeners
  }

  /** A non-blocking send on `slots`. */
  function TakeSlot(slots: nat): (nat, bool) {
    if slots < CAPACITY then (slots + 1, true) else (slots, false)
  }

  /** The gateway's own fields. Each method is shown to take a step of the system below. */
  class Gateway {
    var listeners: map<int, Ref>
    var closed: bool
    var slots: nat

    constructor ()
      ensures Shows(INIT)
    {
      listeners, closed, slots := map[], false, 0;
    }

    /** The fields are those of the state. */
    ghost predicate Shows(s: State)
      reads this
    {
      s.listeners == listeners && s.closed == closed && s.slots == slots
    }

    method ReserveEntry(id: int, r: Ref) returns (outcome: Reservation)
      modifies this`listeners
      ensures (listeners, outcome) == Reserve(old(listeners), closed, id, r)
      ensures outcome == Granted <==> !closed && id !in old(listeners)
      ensures outcome == Granted ==> listeners == old(listeners)[id := r]
      ensures forall s: State :: old(Shows(s)) && r == |s.all| ==>
                var t := Next(s, Create(id)).value;
                Shows(t) && (outcome == Granted <==> |t.all| > |s.all|)
    {
      if closed {
        return GatewayClosed;
      }
      if id in listeners {
        return AlreadyExists;
      }
      listeners := listeners[id := r];
      outcome := Granted;
    }

    method WithdrawEntry(id: int)
      modifies this`listeners
      ensures listeners == Withdraw(old(listeners), id)
      ensures listeners.Keys == old(listeners).Keys - {id}
      ensures forall s: State, r: Ref :: old(Shows(s)) && InPhase(s, r, ListenFailed) && s.all[r].id == id ==>
                Shows(Next(s, WithdrawFailed(r)).value)
    {
      listeners := listeners - {id};
    }

    method RemoveEntryIfCurrent(id: int, r: Ref)
      modifies this`listeners
      ensures listeners == RemoveIfCurrent(old(listeners), id, r)
      ensures !(id in listeners && listeners[id] == r)
      ensures id in old(listeners) && old(listeners)[id] != r ==> listeners == old(listeners)
      ensures forall s: State, d: nat :: old(Shows(s)) && DeleteIn(s, d, SawDone) && s.deletes[d] == Delete(id, r, SawDone) ==>
                Shows(Next(s, RemoveDeleted(d)).value)
    {
      if id in listeners && listeners[id] == r {
        listeners := listeners - {id};
      }
    }

    /** Marks the gateway closed and collects every listener it still knows. */
    method CloseAndSnapshot() returns (states: seq<Ref>)
      modifies this`closed
      ensures closed && Members(states) == listeners.Values && |states| == |listeners|
      ensures forall s: State :: old(Shows(s)) ==>
                var t := Next(s, BeginClose).value;
                Shows(t) && t.closes == s.closes + [Close(Members(states), Members(states), Members(states))]
    {
      closed := true;
      states := ListenersOf(listeners);
    }

    /** The accept loop's `select`: a session begins, or the client is turned away for want of a slot. */
    method TryTakeSlot() returns (ok: bool)
      modifies this`slots
      ensures (slots, ok) == TakeSlot(old(slots))
      ensures ok <==> old(slots) < 1024
      ensures forall s: State, r: Ref :: old(Shows(s)) && InPhase(s, r, Serving) ==>
                var t := Next(s, Accept(r)).value;
                Shows(t) && t.all[r].busy == s.all[r].busy + if ok then 1 else 0
    {
      ok := slots < CAPACITY;
      if ok {
        slots := slots + 1;
      }
    }

    /** The session's deferred receive. */
    method ReleaseSlot()
      requires slots > 0
      modifies this`slots
      ensures slots == old(slots) - 1
      ensures forall s: State, r: Ref :: old(Shows(s)) && r < |s.all| && s.all[r].busy > 0 ==>
                Shows(Next(s, Action.ReleaseSlot(r)).value)
    {
      slots := slots - 1;
    }
  }

  function Members(states: seq<Ref>): set<Ref> {
    set r | r in states
  }

  method ListenersOf(listeners: map<int, Ref>) returns (states: seq<Ref>)
    ensures Members(states) == listeners.Values && |states| == |listeners|
  {
    ghost var ids;
    states, ids := Collect(listeners);
    EnumeratedValues(listeners, ids, states);
  }

  lemma EnumeratedValues(listeners: map<int, Ref>, ids: seq<int>, states: seq<Ref>)
    requires Enumerates(listeners, ids, states)
    ensures listeners.Values == Members(states)
  {
    forall r | r in listeners.Values
      ensures r in states
    {
      var id :| id in listeners && listeners[id] == r;
      var i :| 0 <= i < |ids| && ids[i] == id;
      assert states[i] == r;
    }
  }

  // ---- Steps

  datatype Action =
    | Create(id: int)
    | ListenSucceeds(r: Ref)
    | ListenFails(r: Ref)
    | WithdrawFailed(r: Ref)
    | CloseDoneOfFailed(r: Ref)
    | Accept(r: Ref)
    | AcceptFails(r: Ref)
    | ReleaseSlot(r: Ref)
    | SessionDone(r: Ref)
    | CloseDoneOfServed(r: Ref)
    | BeginDelete(id: int)
    | CancelForDelete(d: nat)
    | ObserveDone(d: nat)
    | RemoveDeleted(d: nat)
    | GiveUpDelete(d: nat)
    | BeginClose
    | CancelForClose(c: nat, r: Ref)
    | AwaitForClose(c: nat, r: Ref)

  predicate InPhase(s: State, r: Ref, phase: Phase) {
    r < |s.all| && s.all[r].phase == phase
  }

  function With(s: State, r: Ref, l: Listener): State
    requires r < |s.all|
  {
    s.(all := s.all[r := l])
  }

  function ToPhase(s: State, r: Ref, phase: Phase): State
    requires r < |s.all|
  {
    With(s, r, s.all[r].(phase := phase))
  }

  function Cancel(s: State, r: Ref): State
    requires r < |s.all|
  {
    With(s, r, s.all[r].(cancelled := true))
  }

  predicate DeleteIn(s: State, d: nat, stage: DeleteStage) {
    d < |s.deletes| && s.deletes[d].stage == stage && s.deletes[d].target < |s.all|
  }

  function MoveDelete(s: State, d: nat, stage: DeleteStage): State
    requires d < |s.deletes|
  {
    s.(deletes := s.deletes[d := s.deletes[d].(stage := stage)])
  }

  /** One step; `None` when the action cannot happen in the state. */
  function Next(s: State, a: Action): Option<State> {
    match a
    case Create(id) =>
      var (listeners, outcome) := Reserve(s.listeners, s.closed, id, |s.all|);
      Some(if outcome == Granted
           then s.(listeners := listeners, all := s.all + [Listener(id, Reserved, false, 0, 0)])
           else s)
    case ListenSucceeds(r) => if InPhase(s, r, Reserved) then Some(ToPhase(s, r, Serving)) else None
    case ListenFails(r) => if InPhase(s, r, Reserved) then Some(ToPhase(Cancel(s, r), r, ListenFailed)) else None
    case WithdrawFailed(r) =>
      if InPhase(s, r, ListenFailed)
      then Some(ToPhase(s.(listeners := Withdraw(s.listeners, s.all[r].id)), r, Withdrawn)) else None
    case CloseDoneOfFailed(r) => if InPhase(s, r, Withdrawn) then Some(ToPhase(s, r, Finished)) else None
    case Accept(r) =>
      if !InPhase(s, r, Serving) then None
      else
        var (slots, ok) := TakeSlot(s.slots);
        Some(if ok then With(s.(slots := slots), r, s.all[r].(busy := s.all[r].busy + 1)) else s)
    case AcceptFails(r) => if InPhase(s, r, Serving) then Some(ToPhase(Cancel(s, r), r, Draining)) else None
    case ReleaseSlot(r) =>
      if r < |s.all| && s.all[r].busy > 0 && s.slots > 0
      then Some(With(s.(slots := s.slots - 1), r, s.all[r].(busy := s.all[r].busy - 1, leaving := s.all[r].leaving + 1)))
      else None
    case SessionDone(r) =>
      if r < |s.all| && s.all[r].leaving > 0 then Some(With(s, r, s.all[r].(leaving := s.all[r].leaving - 1))) else None
    case CloseDoneOfServed(r) =>
      if InPhase(s, r, Draining) && s.all[r].busy == 0 && s.all[r].leaving == 0
      then Some(ToPhase(s, r, Finished)) else None
    case BeginDelete(id) =>
      Some(if id in s.listeners then s.(deletes := s.deletes + [Delete(id, s.listeners[id], Found)]) else s)
    case CancelForDelete(d) =>
      if DeleteIn(s, d, Found) then Some(MoveDelete(Cancel(s, s.deletes[d].target), d, Waiting)) else None
    case ObserveDone(d) =>
      if DeleteIn(s, d, Waiting) && s.all[s.deletes[d].target].phase == Finished
      then Some(MoveDelete(s, d, SawDone)) else None
    case RemoveDeleted(d) =>
      if DeleteIn(s, d, SawDone)
      then Some(MoveDelete(s.(listeners := RemoveIfCurrent(s.listeners, s.deletes[d].id, s.deletes[d].target)), d, Returned))
      else None
    case GiveUpDelete(d) => if DeleteIn(s, d, Waiting) then Some(MoveDelete(s, d, Returned)) else None
    case BeginClose =>
      var snapshot := s.listeners.Values;
      Some(s.(closed := true, closes := s.closes + [Close(snapshot, snapshot, snapshot)]))
    case CancelForClose(c, r) =>
      if c < |s.closes| && r in s.closes[c].toCancel && r < |s.all|
      then Some(Cancel(s, r).(closes := s.closes[c := s.closes[c].(toCancel := s.closes[c].toCancel - {r})]))
      else None
    case AwaitForClose(c, r) =>
      if c < |s.closes| && s.closes[c].toCancel == {} && r in s.closes[c].toAwait && InPhase(s, r, Finished)
      then Some(s.(closes := s.closes[c := s.closes[c].(toAwait := s.closes[c].toAwait - {r})]))
      else None
  }

  function Step(): Stepper<State, Action> {
    (s, a) => Next(s, a)
  }

  function Run(s: State, actions: seq<Action>): Option<State> {
    RunOf(Step(), s, actions)
  }

  // ---- The invariant

  /** The listener still owns its entry: it has neither withdrawn it nor closed `done`. */
  predicate Owns(l: Listener) {
    l.phase != Withdrawn && l.phase != Finished
  }

  ghost predicate EntriesOk(s: State) {
    && (forall id :: id in s.listeners ==> s.listeners[id] < |s.all| && s.all[s.listeners[id]].id == id)
    && (forall r :: 0 <= r < |s.all| && Owns(s.all[r]) ==>
          s.all[r].id in s.listeners && s.listeners[s.all[r].id] == r)
    && (forall r :: 0 <= r < |s.all| && s.all[r].phase == Withdrawn && s.all[r].id in s.listeners ==>
          s.listeners[s.all[r].id] != r)
  }

  ghost predicate SessionsOk(s: State) {
    forall r :: 0 <= r < |s.all| && s.all[r].phase != Serving && s.all[r].phase != Draining ==>
      s.all[r].busy == 0 && s.all[r].leaving == 0
  }

  function Busy(all: seq<Listener>): nat {
    if all == [] then 0 else Busy(all[..|all| - 1]) + all[|all| - 1].busy
  }

  predicate SlotsOk(s: State) {
    s.slots == Busy(s.all) && s.slots <= CAPACITY
  }

  /** A delete that saw `done` has a finished target of its own id. */
  predicate DeleteOk(s: State, d: Delete) {
    && d.target < |s.all| && s.all[d.target].id == d.id
    && (d.stage == SawDone ==> s.all[d.target].phase == Finished)
  }

  ghost predicate DeletesOk(s: State) {
    forall d :: 0 <= d < |s.deletes| ==> DeleteOk(s, s.deletes[d])
  }

  /** A close has everything still owned in its snapshot, and what it awaited is finished. */
  ghost predicate CloseOk(s: State, c: Close) {
    && c.toCancel <= c.snapshot && c.toAwait <= c.snapshot
    && (forall r :: 0 <= r < |s.all| && Owns(s.all[r]) ==> r in c.snapshot)
    && (forall r :: r in c.snapshot && r !in c.toAwait ==> InPhase(s, r, Finished))
  }

  ghost predicate ClosesOk(s: State) {
    && (|s.closes| > 0 ==> s.closed)
    && forall c :: 0 <= c < |s.closes| ==> CloseOk(s, s.closes[c])
  }

  ghost predicate Inv(s: State) {
    EntriesOk(s) && SessionsOk(s) && SlotsOk(s) && DeletesOk(s) && ClosesOk(s)
  }

  // ---- It is kept by every step

  lemma {:induction false} BusyUpdate(all: seq<Listener>, r: Ref, l: Listener)
    requires r < |all|
    ensures Busy(all[r := l]) == Busy(all) - all[r].busy + l.busy
  {
    var n := |all| - 1;
    if r < n {
      assert all[r := l][..n] == all[..n][r := l];
      BusyUpdate(all[..n], r, l);
    } else {
      assert all[r := l][..n] == all[..n];
    }
  }

  lemma {:induction false} BusyCovers(all: seq<Listener>, r: Ref)
    requires r < |all|
    ensures Busy(all) >= all[r].busy
  {
    BusyUpdate(all, r, all[r].(busy := 0));
  }

  /** What any step may do to a listener: ids stay, `done` stays closed, ownership is never regained. */
  predicate Evolves(l: Listener, m: Listener) {
    m.id == l.id && (Owns(m) ==> Owns(l)) && (l.phase == Finished ==> m.phase == Finished)
  }

  lemma StepEvolvesAt(s: State, a: Action, r: Ref)
    requires Next(s, a).Some? && r < |s.all|
    ensures
      var t := Next(s, a).value;
      && r < |t.all| && Evolves(s.all[r], t.all[r])
      && (!TouchesMap(a) && t.all[r].phase == Withdrawn ==> s.all[r].phase == Withdrawn)
  {
  }

  lemma StepGrows(s: State, a: Action)
    requires Next(s, a).Some?
    ensures
      var t := Next(s, a).value;
      && |s.all| <= |t.all| && (|t.all| > |s.all| ==> !s.closed)
      && (!TouchesMap(a) ==> t.listeners == s.listeners && |t.all| == |s.all|)
  {
  }

  lemma StepEvolves(s: State, a: Action)
    requires Next(s, a).Some?
    ensures var t := Next(s, a).value;
            |s.all| <= |t.all| && forall r :: 0 <= r < |s.all| ==> Evolves(s.all[r], t.all[r])
    ensures |Next(s, a).value.all| > |s.all| ==> !s.closed
  {
    StepGrows(s, a);
    forall r | 0 <= r < |s.all|
      ensures Evolves(s.all[r], Next(s, a).value.all[r])
    {
      StepEvolvesAt(s, a, r);
    }
  }

  lemma UntouchedEntries(s: State, t: State)
    requires EntriesOk(s) && t.listeners == s.listeners && |t.all| == |s.all|
    requires forall r :: 0 <= r < |s.all| ==>
               Evolves(s.all[r], t.all[r]) && (t.all[r].phase == Withdrawn ==> s.all[r].phase == Withdrawn)
    ensures EntriesOk(t)
  {
    forall r | 0 <= r < |t.all| && Owns(t.all[r])
      ensures t.all[r].id in t.listeners && t.listeners[t.all[r].id] == r
    {
      assert Evolves(s.all[r], t.all[r]) && Owns(s.all[r]);
    }
  }

  lemma CreateKeepsEntries(s: State, id: int)
    requires EntriesOk(s)
    ensures EntriesOk(Next(s, Create(id)).value)
  {
    var t := Next(s, Create(id)).value;
    if t != s {
      assert forall r :: 0 <= r < |s.all| ==> t.all[r] == s.all[r];
    }
  }

  lemma WithdrawKeepsEntries(s: State, r: Ref)
    requires EntriesOk(s) && InPhase(s, r, ListenFailed)
    ensures EntriesOk(Next(s, WithdrawFailed(r)).value)
  {
    var t := Next(s, WithdrawFailed(r)).value;
    forall q | 0 <= q < |t.all| && Owns(t.all[q])
      ensures t.all[q].id in t.listeners && t.listeners[t.all[q].id] == q
    {
      assert Owns(s.all[q]) && Owns(s.all[r]);
    }
  }

  lemma RemoveKeepsEntries(s: State, d: nat)
    requires EntriesOk(s) && DeletesOk(s) && DeleteIn(s, d, SawDone)
    ensures EntriesOk(Next(s, RemoveDeleted(d)).value)
  {
    var t := Next(s, RemoveDeleted(d)).value;
    assert DeleteOk(s, s.deletes[d]);
    forall q | 0 <= q < |t.all| && Owns(t.all[q])
      ensures t.all[q].id in t.listeners && t.listeners[t.all[q].id] == q
    {
      assert Owns(s.all[q]);
    }
  }

  predicate TouchesMap(a: Action) {
    a.Create? || a.WithdrawFailed? || a.RemoveDeleted?
  }

  lemma OthersLeaveTheMap(s: State, a: Action)
    requires Next(s, a).Some? && !TouchesMap(a)
    ensures var t := Next(s, a).value;
            t.listeners == s.listeners && |t.all| == |s.all|
            && forall r :: 0 <= r < |s.all| && t.all[r].phase == Withdrawn ==> s.all[r].phase == Withdrawn
  {
    StepGrows(s, a);
    forall r | 0 <= r < |s.all| && Next(s, a).value.all[r].phase == Withdrawn
      ensures s.all[r].phase == Withdrawn
    {
      StepEvolvesAt(s, a, r);
    }
  }

  lemma StepKeepsEntries(s: State, a: Action)
    requires EntriesOk(s) && DeletesOk(s) && Next(s, a).Some?
    ensures EntriesOk(Next(s, a).value)
  {
    if a.Create? {
      CreateKeepsEntries(s, a.id);
    } else if a.WithdrawFailed? {
      WithdrawKeepsEntries(s, a.r);
    } else if a.RemoveDeleted? {
      RemoveKeepsEntries(s, a.d);
    } else {
      OthersLeaveTheMap(s, a);
      StepEvolves(s, a);
      UntouchedEntries(s, Next(s, a).value);
    }
  }

  lemma StepKeepsSessions(s: State, a: Action)
    requires SessionsOk(s) && Next(s, a).Some?
    ensures SessionsOk(Next(s, a).value)
  {
  }

  /** The one listener record an existing action may replace. */
  function Touched(s: State, a: Action): Option<Ref> {
    match a
    case Create(_) => None
    case BeginDelete(_) => None
    case BeginClose => None
    case CancelForDelete(d) => if d < |s.deletes| then Some(s.deletes[d].target) else None
    case ObserveDone(_) => None
    case RemoveDeleted(_) => None
    case GiveUpDelete(_) => None
    case AwaitForClose(_, _) => None
    case CancelForClose(_, r) => Some(r)
    case _ => Some(a.r)
  }

  /** A step replaces at most one listener record, and the slots move as its sessions do. */
  lemma SlotsMove(s: State, a: Action)
    requires Next(s, a).Some?
    ensures
      var t, touched := Next(s, a).value, Touched(s, a);
      && (s.slots <= CAPACITY ==> t.slots <= CAPACITY)
      && (if touched.Some? && touched.value < |s.all|
          then var r := touched.value;
               |t.all| == |s.all| && t.all == s.all[r := t.all[r]] && t.slots == s.slots - s.all[r].busy + t.all[r].busy
          else t.slots == s.slots && (t.all == s.all || (t.all == s.all + [t.all[|s.all|]] && t.all[|s.all|].busy == 0)))
  {
  }

  lemma BusySnoc(all: seq<Listener>, l: Listener)
    ensures Busy(all + [l]) == Busy(all) + l.busy
  {
    assert (all + [l])[..|all|] == all;
  }

  lemma StepKeepsSlots(s: State, a: Action)
    requires SlotsOk(s) && Next(s, a).Some?
    ensures SlotsOk(Next(s, a).value)
  {
    var t, touched := Next(s, a).value, Touched(s, a);
    SlotsMove(s, a);
    if touched.Some? && touched.value < |s.all| {
      BusyUpdate(s.all, touched.value, t.all[touched.value]);
    } else if t.all != s.all {
      BusySnoc(s.all, t.all[|s.all|]);
    }
  }

  lemma DeleteStaysOk(s: State, t: State, d: Delete)
    requires DeleteOk(s, d) && |s.all| <= |t.all| && forall r :: 0 <= r < |s.all| ==> Evolves(s.all[r], t.all[r])
    ensures DeleteOk(t, d)
  {
    assert Evolves(s.all[d.target], t.all[d.target]);
  }

  lemma StepKeepsDeletes(s: State, a: Action)
    requires DeletesOk(s) && EntriesOk(s) && Next(s, a).Some?
    ensures DeletesOk(Next(s, a).value)
  {
    var t := Next(s, a).value;
    StepEvolves(s, a);
    forall d | 0 <= d < |t.deletes|
      ensures DeleteOk(t, t.deletes[d])
    {
      if d < |s.deletes| {
        DeleteStaysOk(s, t, s.deletes[d]);
      }
    }
  }

  lemma CloseStaysOk(s: State, t: State, c: Close)
    requires CloseOk(s, c) && |s.all| == |t.all| && forall r :: 0 <= r < |s.all| ==> Evolves(s.all[r], t.all[r])
    ensures CloseOk(t, c)
  {
    forall r | 0 <= r < |t.all| && Owns(t.all[r])
      ensures r in c.snapshot
    {
      assert Evolves(s.all[r], t.all[r]);
    }
    forall r | r in c.snapshot && r !in c.toAwait
      ensures InPhase(t, r, Finished)
    {
      assert InPhase(s, r, Finished) && Evolves(s.all[r], t.all[r]);
    }
  }

  lemma StepKeepsCloses(s: State, a: Action)
    requires ClosesOk(s) && EntriesOk(s) && Next(s, a).Some?
    ensures ClosesOk(Next(s, a).value)
  {
    var t := Next(s, a).value;
    StepEvolves(s, a);
    forall c | 0 <= c < |t.closes|
      ensures CloseOk(t, t.closes[c])
    {
      if c < |s.closes| {
        CloseStaysOk(s, t, s.closes[c]);
      } else {
        NewCloseOk(s);
      }
    }
  }

  lemma NewCloseOk(s: State)
    requires EntriesOk(s)
    ensures CloseOk(s, Close(s.listeners.Values, s.listeners.Values, s.listeners.Values))
  {
    forall r | 0 <= r < |s.all| && Owns(s.all[r])
      ensures r in s.listeners.Values
    {
      assert s.listeners[s.all[r].id] == r;
    }
  }

  lemma StepKeepsInv(s: State, a: Action)
    requires Inv(s) && Next(s, a).Some?
    ensures Inv(Next(s, a).value)
  {
    StepKeepsEntries(s, a);
    StepKeepsSessions(s, a);
    StepKeepsSlots(s, a);
    StepKeepsDeletes(s, a);
    StepKeepsCloses(s, a);
  }

  // ---- Nobody waits for a listener that was not told to stop

  /** Whoever waits for a listener has cancelled it, and one that is on its way out is cancelled. */
  ghost predicate CancelsOk(s: State) {
    && (forall d :: 0 <= d < |s.deletes| && s.deletes[d].stage != Found ==> Cancelled(s, s.deletes[d].target))
    && (forall c, r :: 0 <= c < |s.closes| && r in s.closes[c].snapshot && r !in s.closes[c].toCancel ==> Cancelled(s, r))
    && (forall r :: 0 <= r < |s.all| && s.all[r].phase != Reserved && s.all[r].phase != Serving ==> s.all[r].cancelled)
  }

  predicate Cancelled(s: State, r: Ref) {
    r < |s.all| && s.all[r].cancelled
  }

  lemma StaysCancelled(s: State, a: Action, r: Ref)
    requires Next(s, a).Some? && Cancelled(s, r)
    ensures Cancelled(Next(s, a).value, r)
  {
  }

  lemma DeletesCancel(s: State, a: Action, d: nat)
    requires CancelsOk(s) && Next(s, a).Some? && d < |Next(s, a).value.deletes| && Next(s, a).value.deletes[d].stage != Found
    ensures Cancelled(Next(s, a).value, Next(s, a).value.deletes[d].target)
  {
    if d < |s.deletes| && s.deletes[d].stage != Found {
      StaysCancelled(s, a, s.deletes[d].target);
    }
  }

  lemma ClosesCancel(s: State, a: Action, c: nat, r: Ref)
    requires CancelsOk(s) && Next(s, a).Some? && c < |Next(s, a).value.closes|
    requires r in Next(s, a).value.closes[c].snapshot && r !in Next(s, a).value.closes[c].toCancel
    ensures Cancelled(Next(s, a).value, r)
  {
    if c < |s.closes| && r !in s.closes[c].toCancel {
      StaysCancelled(s, a, r);
    }
  }

  lemma LeavingIsCancelled(s: State, a: Action, r: Ref)
    requires CancelsOk(s) && Next(s, a).Some? && r < |Next(s, a).value.all|
    ensures var l := Next(s, a).value.all[r]; l.phase != Reserved && l.phase != Serving ==> l.cancelled
  {
  }

  lemma StepKeepsCancels(s: State, a: Action)
    requires CancelsOk(s) && Next(s, a).Some?
    ensures CancelsOk(Next(s, a).value)
  {
    var t := Next(s, a).value;
    forall d | 0 <= d < |t.deletes| && t.deletes[d].stage != Found
      ensures Cancelled(t, t.deletes[d].target)
    {
      DeletesCancel(s, a, d);
    }
    forall c, r | 0 <= c < |t.closes| && r in t.closes[c].snapshot && r !in t.closes[c].toCancel
      ensures Cancelled(t, r)
    {
      ClosesCancel(s, a, c, r);
    }
    forall r | 0 <= r < |t.all| && t.all[r].phase != Reserved && t.all[r].phase != Serving
      ensures t.all[r].cancelled
    {
      LeavingIsCancelled(s, a, r);
    }
  }

  // ---- What follows for every interleaving

  ghost predicate Reachable(s: State) {
    ReachableBy(Step(), (t: State) => t == INIT, s)
  }

  ghost function Invariant(): State -> bool {
    s => Inv(s)
  }

  lemma ReachableInv(s: State)
    requires Reachable(s)
    ensures Inv(s)
  {
    forall t: State, a: Action | Inv(t) && Next(t, a).Some?
      ensures Inv(Next(t, a).value)
    {
      StepKeepsInv(t, a);
    }
    ReachableKeeps(Step(), (t: State) => t == INIT, Invariant(), s);
  }

  /**
   An entry stays that of the create that reserved it until that create withdraws
   it itself or its `done` is closed: no step of another create, and no late
   delete, takes it away or replaces it.
   */
  lemma EntryIsOwned(s: State, a: Action, id: int)
    requires Reachable(s) && Next(s, a).Some? && id in s.listeners
    ensures
      var t, r := Next(s, a).value, s.listeners[id];
      || (id in t.listeners && t.listeners[id] == r)
      || a == WithdrawFailed(r)
      || (r < |s.all| && s.all[r].phase == Finished && exists d :: a == RemoveDeleted(d))
  {
    ReachableInv(s);
    match a {
      case WithdrawFailed(r) => assert Owns(s.all[r]);
      case RemoveDeleted(d) => assert DeleteOk(s, s.deletes[d]);
      case _ =>
    }
  }

  /** At most one create of an id is between its reservation and its withdrawal or `done`. */
  lemma OneOwnerPerId(s: State, q: Ref, r: Ref)
    requires Reachable(s) && q < |s.all| && r < |s.all|
    requires s.all[q].id == s.all[r].id && Owns(s.all[q]) && Owns(s.all[r])
    ensures q == r
  {
    ReachableInv(s);
  }

  /** The slot tokens are exactly the sessions that hold one, and never more than the capacity. */
  lemma SlotsMatchSessions(s: State)
    requires Reachable(s)
    ensures s.slots == Busy(s.all) <= CAPACITY
    ensures forall r :: 0 <= r < |s.all| ==> s.all[r].busy <= CAPACITY
  {
    ReachableInv(s);
    forall r | 0 <= r < |s.all|
      ensures s.all[r].busy <= CAPACITY
    {
      BusyCovers(s.all, r);
    }
  }

  /**
   A client that reaches a serving listener gets a session exactly when fewer than
   1024 sessions hold a slot; else nothing changes.
   */
  lemma AcceptedWhileRoom(s: State, r: Ref)
    requires Reachable(s) && InPhase(s, r, Serving)
    ensures
      var t := Next(s, Accept(r)).value;
      && (t.all[r].busy == s.all[r].busy + 1 <==> Busy(s.all) < 1024)
      && (Busy(s.all) >= 1024 ==> t == s)
  {
    ReachableInv(s);
  }

  /** A create gets its entry exactly when the gateway is open and nobody has the id, and it is then its own. */
  lemma CreatedWhenFree(s: State, id: int)
    ensures
      var t := Next(s, Create(id)).value;
      && (|t.all| == |s.all| + 1 <==> !s.closed && id !in s.listeners)
      && (!s.closed && id !in s.listeners ==> t.listeners == s.listeners[id := |s.all|] && t.all[|s.all|].id == id)
      && (s.closed || id in s.listeners ==> t == s)
  {
  }

  /** A delete that returns without error leaves no entry of the listener it awaited, so that its id is free or another's. */
  lemma DeletedIsGone(s: State, d: nat)
    requires Reachable(s) && Next(s, RemoveDeleted(d)).Some?
    ensures
      var t, delete := Next(s, RemoveDeleted(d)).value, s.deletes[d];
      && !(delete.id in t.listeners && t.listeners[delete.id] == delete.target)
      && forall id :: id != delete.id ==> (id in t.listeners <==> id in s.listeners)
  {
  }

  /** A closed `done` means that every session of the listener has ended. */
  lemma DoneMeansNoSessions(s: State, r: Ref)
    requires Reachable(s) && InPhase(s, r, Finished)
    ensures s.all[r].busy == 0 && s.all[r].leaving == 0
  {
    ReachableInv(s);
  }

  ghost function CancelInvariant(): State -> bool {
    s => CancelsOk(s)
  }

  /**
   In every reachable state: a delete that waits, and a close for every listener it
   waits for, has cancelled it first; and a listener that has left its accept loop or
   failed to listen is cancelled.
   */
  lemma WaitersHaveCancelled(s: State)
    requires Reachable(s)
    ensures CancelsOk(s)
    ensures forall c: nat, r: nat :: AwaitsDone(s, c, r) ==> Cancelled(s, r)
  {
    forall t: State, a: Action | CancelsOk(t) && Next(t, a).Some?
      ensures CancelsOk(Next(t, a).value)
    {
      StepKeepsCancels(t, a);
    }
    ReachableKeeps(Step(), (t: State) => t == INIT, CancelInvariant(), s);
    ReachableInv(s);
    forall c: nat, r: nat | AwaitsDone(s, c, r)
      ensures Cancelled(s, r)
    {
      assert CloseOk(s, s.closes[c]);
    }
  }

  /** Close `c` is past its cancelling and has yet to see `done` of the listener. */
  predicate AwaitsDone(s: State, c: nat, r: Ref) {
    c < |s.closes| && s.closes[c].toCancel == {} && r in s.closes[c].toAwait
  }

  lemma {:induction false} NoBusy(all: seq<Listener>)
    requires forall r :: 0 <= r < |all| ==> all[r].busy == 0
    ensures Busy(all) == 0
  {
    if all != [] {
      NoBusy(all[..|all| - 1]);
    }
  }

  /** A `Close` call has returned: it has nothing left to await. */
  predicate HasReturned(s: State, c: nat) {
    c < |s.closes| && s.closes[c].toAwait == {}
  }

  lemma StepKeepsReturned(s: State, a: Action, c: nat)
    requires HasReturned(s, c) && Next(s, a).Some?
    ensures HasReturned(Next(s, a).value, c)
  {
  }

  lemma RunKeepsReturned(s: State, actions: seq<Action>, c: nat)
    requires HasReturned(s, c) && Run(s, actions).Some?
    ensures HasReturned(Run(s, actions).value, c)
  {
    var returned := (t: State) => HasReturned(t, c);
    forall t: State, a: Action | returned(t) && Next(t, a).Some?
      ensures returned(Next(t, a).value)
    {
      StepKeepsReturned(t, a, c);
    }
    RunKeeps(Step(), returned, s, actions);
  }

  /**
   Once a `Close` has returned, and however the run goes on, the gateway is closed,
   no entry is reserved, no accept loop and no session is alive, and no slot is taken.
   */
  lemma CloseIsComplete(s: State, c: nat, later: seq<Action>)
    requires Reachable(s) && HasReturned(s, c) && Run(s, later).Some?
    ensures
      var t := Run(s, later).value;
      && t.closed && t.slots == 0
      && forall r :: 0 <= r < |t.all| ==>
           (t.all[r].phase == Finished || t.all[r].phase == Withdrawn) && t.all[r].busy == 0 && t.all[r].leaving == 0
  {
    var t := Run(s, later).value;
    ReachableRun(Step(), (t: State) => t == INIT, s, later);
    ReachableInv(t);
    RunKeepsReturned(s, later, c);
    assert CloseOk(t, t.closes[c]);
    NoBusy(t.all);
  }
}
