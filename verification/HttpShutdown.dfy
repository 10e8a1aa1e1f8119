/**
 Connection tracking of the HTTP proxy against `stop`, as a system of steps: the
 accept loop, the connection handlers and a stopping caller interleave freely,
 and each locked region, close and wait-group operation is one step.
 */
module HttpShutdown {
  import opened Options
  import opened Steps

  type Conn = nat

  /**
   What the accept loop is doing: waiting; holding a connection it has just
   accepted; about to close one that was refused; checking a tracked one against
   the firewall; about to untrack one the firewall rejected and it has closed; about
   to count that one as done; leaving; gone.
   */
  datatype Loop =
    | Idle
    | Holding(c: Conn)
    | Refusing(c: Conn)
    | Checking(c: Conn)
    | Rejected(c: Conn)
    | Untracked(c: Conn)
    | Returning
    | Exited

  /** The one `stop` call that takes effect, with the connections it has yet to close. */
  datatype Stop = Stop(cancelled: bool, listenerClosed: bool, toClose: set<Conn>)

  /**
   `running`, `closing` and `leaving` are the handlers before their close, before
   their untracking and before their final count. `accepted` and `closed` record
   every connection ever accepted or closed.
   */
  datatype State = State(
    stopping: bool, connections: set<Conn>, wait: int, loop: Loop,
    running: set<Conn>, closing: set<Conn>, leaving: set<Conn>,
    stop: Option<Stop>, accepted: set<Conn>, closed: set<Conn>)

  const INIT := State(false, {}, 1, Idle, {}, {}, {}, None, {}, {})

  // ---- The regions under the connection mutex

  /** Tracking a connection: the tracked ones, the wait count, and whether it was taken. */
  function TrackRegion(stopping: bool, connections: set<Conn>, wait: int, c: Conn): (set<Conn>, int, bool) {
    if stopping then (connections, wait, false) else (connections + {c}, wait + 1, true)
  }

  function Untrack(connections: set<Conn>, c: Conn): set<Conn> {
    connections - {c}
  }

  /** `Done` on the wait group. */
  function OneDone(wait: int): int {
    wait - 1
  }

  /** The locked part of `stop`: the connections to close, for the first call only. */
  function StopRegion(stopping: bool, connections: set<Conn>): Option<set<Conn>> {
    if stopping then None else Some(connections)
  }

  /** The proxy's own fields. Each method is shown to take the steps of the system below. */
  class HttpProxy {
    var stopping: bool
    var connections: set<Conn>
    var wait: int

    constructor ()
      ensures Shows(INIT)
    {
      stopping, connections, wait := false, {}, 1;
    }

    /** The fields are those of the state. */
    ghost predicate Shows(s: State)
      reads this
    {
      s.stopping == stopping && s.connections == connections && s.wait == wait
    }

    /** Takes the `Track` step of an accept loop that holds the connection. */
    method TrackConnection(c: Conn) returns (ok: bool)
      modifies this`connections, this`wait
      ensures (connections, wait, ok) == TrackRegion(stopping, old(connections), old(wait), c)
      ensures ok <==> !stopping
      ensures ok ==> c in connections && wait == old(wait) + 1
      ensures forall s: State :: old(Shows(s)) && s.loop == Holding(c) ==>
                var t := Next(s, Track).value;
                Shows(t) && t.loop == if ok then Checking(c) else Refusing(c)
    {
      if stopping {
        return false;
      }
      connections := connections + {c};
      wait := wait + 1;
      ok := true;
    }

    /** Takes the two last steps of a handler, with nothing in between. */
    method ReleaseConnection(c: Conn)
      modifies this`connections, this`wait
      ensures connections == Untrack(old(connections), c) && wait == OneDone(old(wait))
      ensures forall s: State :: old(Shows(s)) && c in s.closing ==>
                var t := Run(s, [UntrackHandled(c), DoneHandled(c)]);
                t.Some? && Shows(t.value) && c !in t.value.connections + t.value.closing + t.value.leaving
    {
      connections := connections - {c};
      wait := wait - 1;
      forall s: State | old(Shows(s)) && c in s.closing
        ensures
          var t := Run(s, [UntrackHandled(c), DoneHandled(c)]);
          t.Some? && Shows(t.value) && c !in t.value.connections + t.value.closing + t.value.leaving
      {
        TwoSteps(Step(), s, UntrackHandled(c), DoneHandled(c));
      }
    }

    /** Takes the `BeginStop` step; the snapshot is what `stop` has yet to close. */
    method BeginStop() returns (snapshot: Option<set<Conn>>)
      modifies this`stopping
      ensures stopping && snapshot == StopRegion(old(stopping), connections)
      ensures forall s: State :: old(Shows(s)) ==>
                var t := Next(s, Action.BeginStop).value;
                Shows(t) && t.stop == if snapshot.Some? then Some(Stop(false, false, snapshot.value)) else s.stop
    {
      if stopping {
        return None;
      }
      stopping := true;
      snapshot := Some(connections);
    }
  }

  // ---- Steps

  datatype Action =
    | Accept(c: Conn)
    | AcceptFails
    | Track
    | CloseRefused
    | FirewallRejects
    | UntrackRejected
    | DoneRejected
    | FirewallAllows
    | LoopDone
    | HandlerCloses(c: Conn)
    | UntrackHandled(c: Conn)
    | DoneHandled(c: Conn)
    | BeginStop
    | StopCancels
    | StopClosesListener
    | StopCloses(c: Conn)

  /** One step; `None` when the action cannot happen in the state. */
  function Next(s: State, a: Action): Option<State> {
    match a
    case Accept(c) =>
      if s.loop == Idle && c !in s.accepted && !(s.stop.Some? && s.stop.value.listenerClosed)
      then Some(s.(loop := Holding(c), accepted := s.accepted + {c})) else None
    case AcceptFails =>
      if s.loop == Idle then Some(if s.stop.Some? && s.stop.value.cancelled then s.(loop := Returning) else s) else None
    case Track =>
      if !s.loop.Holding? then None
      else
        var (connections, wait, ok) := TrackRegion(s.stopping, s.connections, s.wait, s.loop.c);
        Some(s.(connections := connections, wait := wait, loop := if ok then Checking(s.loop.c) else Refusing(s.loop.c)))
    case CloseRefused =>
      if s.loop.Refusing? then Some(s.(closed := s.closed + {s.loop.c}, loop := Returning)) else None
    case FirewallRejects =>
      if s.loop.Checking? then Some(s.(closed := s.closed + {s.loop.c}, loop := Rejected(s.loop.c))) else None
    case UntrackRejected =>
      if s.loop.Rejected?
      then Some(s.(connections := Untrack(s.connections, s.loop.c), loop := Untracked(s.loop.c))) else None
    case DoneRejected => if s.loop.Untracked? then Some(s.(wait := OneDone(s.wait), loop := Idle)) else None
    case FirewallAllows =>
      if s.loop.Checking? then Some(s.(running := s.running + {s.loop.c}, loop := Idle)) else None
    case LoopDone => if s.loop == Returning then Some(s.(wait := OneDone(s.wait), loop := Exited)) else None
    case HandlerCloses(c) =>
      if c in s.running
      then Some(s.(running := s.running - {c}, closing := s.closing + {c}, closed := s.closed + {c})) else None
    case UntrackHandled(c) =>
      if c in s.closing
      then Some(s.(closing := s.closing - {c}, leaving := s.leaving + {c}, connections := Untrack(s.connections, c)))
      else None
    case DoneHandled(c) =>
      if c in s.leaving then Some(s.(leaving := s.leaving - {c}, wait := OneDone(s.wait))) else None
    case BeginStop =>
      (match StopRegion(s.stopping, s.connections)
       case Some(snapshot) => Some(s.(stopping := true, stop := Some(Stop(false, false, snapshot))))
       case None => Some(s))
    case StopCancels =>
      if s.stop.Some? then Some(s.(stop := Some(s.stop.value.(cancelled := true)))) else None
    case StopClosesListener =>
      if s.stop.Some? && s.stop.value.cancelled
      then Some(s.(stop := Some(s.stop.value.(listenerClosed := true)))) else None
    case StopCloses(c) =>
      if s.stop.Some? && s.stop.value.listenerClosed && c in s.stop.value.toClose
      then Some(s.(closed := s.closed + {c}, stop := Some(s.stop.value.(toClose := s.stop.value.toClose - {c}))))
      else None
  }

  function Step(): Stepper<State, Action> {
    (s, a) => Next(s, a)
  }

  function Run(s: State, actions: seq<Action>): Option<State> {
    RunOf(Step(), s, actions)
  }

  // ---- The invariant

  /** The tracked connection the accept loop has in hand. */
  function InHand(loop: Loop): set<Conn> {
    if loop.Checking? || loop.Rejected? then {loop.c} else {}
  }

  /** The connection the accept loop has in hand, tracked or not. */
  function Held(loop: Loop): set<Conn> {
    if loop.Holding? || loop.Refusing? || loop.Checking? || loop.Rejected? || loop.Untracked? then {loop.c} else {}
  }

  /** Releases that have left the map but not yet the wait group. */
  function ReleasesInProgress(s: State): nat {
    |s.leaving| + (if s.loop.Untracked? then 1 else 0)
  }

  predicate WaitOk(s: State) {
    s.wait == (if s.loop.Exited? then 0 else 1) + |s.connections| + ReleasesInProgress(s)
  }

  /** A tracked connection has exactly one owner: the loop or its handler. */
  predicate OwnersOk(s: State) {
    && s.connections == s.running + s.closing + InHand(s.loop)
    && s.running !! s.closing && s.running !! s.leaving && s.closing !! s.leaving
    && Held(s.loop) !! s.running + s.closing + s.leaving
    && s.running + s.closing + s.leaving + Held(s.loop) <= s.accepted
  }

  /** Whoever gave a connection up has closed it. */
  predicate ClosedOk(s: State) {
    && s.accepted <= s.closed + s.running + (if s.loop.Rejected? || s.loop.Untracked? then {} else Held(s.loop))
    && s.closed <= s.accepted
  }

  /** Once stopping, every tracked connection is closed or about to be closed by `stop`. */
  predicate StopOk(s: State) {
    && (s.stopping <==> s.stop.Some?)
    && (s.loop.Refusing? || s.loop.Returning? || s.loop.Exited? ==> s.stopping)
    && (s.stopping ==> s.connections <= s.closed + s.stop.value.toClose && s.stop.value.toClose <= s.accepted)
  }

  predicate Inv(s: State) {
    WaitOk(s) && OwnersOk(s) && ClosedOk(s) && StopOk(s)
  }

  lemma AddOne(s: set<Conn>, c: Conn)
    requires c !in s
    ensures |s + {c}| == |s| + 1
  {
  }

  lemma RemoveOne(s: set<Conn>, c: Conn)
    requires c in s
    ensures |s - {c}| == |s| - 1
  {
    AddOne(s - {c}, c);
    assert s == s - {c} + {c};
  }

  /** Tracking is of a new connection, untracking of a tracked one. */
  ghost predicate CountsOnce(s: State) {
    && (s.loop.Holding? ==> s.loop.c !in s.connections)
    && (s.loop.Rejected? ==> s.loop.c in s.connections)
    && (forall c :: c in s.closing ==> c in s.connections && c !in s.leaving)
  }

  lemma OwnersCountOnce(s: State)
    requires OwnersOk(s)
    ensures CountsOnce(s)
  {
  }

  predicate Counts(a: Action) {
    a.Track? || a.UntrackRejected? || a.UntrackHandled? || a.DoneHandled?
  }

  lemma OthersKeepWait(s: State, a: Action)
    requires WaitOk(s) && Next(s, a).Some? && !Counts(a)
    ensures WaitOk(Next(s, a).value)
  {
  }

  lemma StepKeepsWait(s: State, a: Action)
    requires WaitOk(s) && CountsOnce(s) && Next(s, a).Some?
    ensures WaitOk(Next(s, a).value)
  {
    if a.Track? {
      if !s.stopping {
        AddOne(s.connections, s.loop.c);
      }
    } else if a.UntrackRejected? {
      RemoveOne(s.connections, s.loop.c);
    } else if a.UntrackHandled? {
      RemoveOne(s.connections, a.c);
      AddOne(s.leaving, a.c);
    } else if a.DoneHandled? {
      RemoveOne(s.leaving, a.c);
    } else {
      OthersKeepWait(s, a);
    }
  }

  lemma StepKeepsOwners(s: State, a: Action)
    requires OwnersOk(s) && Next(s, a).Some?
    ensures OwnersOk(Next(s, a).value)
  {
  }

  lemma StepKeepsClosed(s: State, a: Action)
    requires OwnersOk(s) && ClosedOk(s) && StopOk(s) && Next(s, a).Some?
    ensures ClosedOk(Next(s, a).value)
  {
  }

  lemma StepKeepsStop(s: State, a: Action)
    requires OwnersOk(s) && ClosedOk(s) && StopOk(s) && Next(s, a).Some?
    ensures StopOk(Next(s, a).value)
  {
  }

  lemma StepKeepsInv(s: State, a: Action)
    requires Inv(s) && Next(s, a).Some?
    ensures Inv(Next(s, a).value)
  {
    OwnersCountOnce(s);
    StepKeepsWait(s, a);
    StepKeepsOwners(s, a);
    StepKeepsClosed(s, a);
    StepKeepsStop(s, a);
  }

  // ---- What follows for every interleaving

  ghost predicate Reachable(s: State) {
    ReachableBy(Step(), (t: State) => t == INIT, s)
  }

  function Invariant(): State -> bool {
    s => Inv(s)
  }

  lemma ReachableInv(s: State)
    requires Reachable(s)
    ensures Inv(s)
  {
    forall t: State, a: Action | Inv(t) && Next(t, a).Some?
      ensures Inv(Next(t, a).value)
    {
      StepKeepsInv(t, a);
    }
    ReachableKeeps(Step(), (t: State) => t == INIT, Invariant(), s);
  }

  /** The wait count is the live loop plus the tracked connections plus the releases in progress. */
  lemma WaitCounts(s: State)
    requires Reachable(s)
    ensures s.wait == (if s.loop.Exited? then 0 else 1) + |s.connections| + ReleasesInProgress(s) >= 0
  {
    ReachableInv(s);
  }

  /** A connection in the loop's hand is tracked and counted exactly while the proxy is not stopping, else refused. */
  lemma TrackedUnlessStopping(s: State)
    requires Reachable(s) && s.loop.Holding?
    ensures
      var t, c := Next(s, Track).value, s.loop.c;
      && (c in t.connections <==> !s.stopping)
      && (!s.stopping ==> t.loop == Checking(c) && t.connections == s.connections + {c} && t.wait == s.wait + 1)
      && (s.stopping ==> t.loop == Refusing(c) && t.connections == s.connections && t.wait == s.wait)
  {
    ReachableInv(s);
  }

  /** The proxy is stopping and has no more tracked, and no more to wait for, than before. */
  predicate OnlyLess(s: State, t: State) {
    t.stopping && t.connections <= s.connections && t.wait <= s.wait
  }

  lemma StepAddsNothing(s: State, a: Action)
    requires s.stopping && Next(s, a).Some?
    ensures OnlyLess(s, Next(s, a).value)
  {
  }

  /** After `stopping`, however the run goes on, nothing is tracked and nothing added to the wait count. */
  lemma NothingAddedAfterStopping(s: State, actions: seq<Action>)
    requires s.stopping && Run(s, actions).Some?
    ensures OnlyLess(s, Run(s, actions).value)
  {
    var less := (t: State) => OnlyLess(s, t);
    forall t: State, a: Action | less(t) && Next(t, a).Some?
      ensures less(Next(t, a).value)
    {
      StepAddsNothing(t, a);
    }
    RunKeeps(Step(), less, s, actions);
  }

  /** `stop` has returned: context cancelled, listener closed, snapshot closed. */
  predicate StopReturned(s: State) {
    s.stop.Some? && s.stop.value.cancelled && s.stop.value.listenerClosed && s.stop.value.toClose == {}
  }

  /**
   Once `stop` has returned, every connection ever accepted is closed, but for one
   the accept loop has just accepted and is about to refuse. So no idle one is left
   open even when nobody waits for the handlers.
   */
  lemma StopClosesAccepted(s: State)
    requires Reachable(s) && StopReturned(s)
    ensures s.connections <= s.closed && s.accepted <= s.closed + Held(s.loop)
    ensures !s.loop.Holding? && !s.loop.Refusing? ==> s.accepted == s.closed
  {
    ReachableInv(s);
  }

  /**
   When the wait ends, however the steps interleaved: the accept loop and every
   handler are gone, and every connection ever accepted has been closed.
   */
  lemma ShutdownIsComplete(s: State)
    requires Reachable(s) && s.wait == 0
    ensures s.stopping && s.loop == Exited && s.connections == s.running == s.closing == s.leaving == {}
    ensures s.accepted == s.closed
  {
    ReachableInv(s);
    assert |s.connections| == 0 && |s.leaving| == 0;
  }

  // ---- The wait ends

  /** Steps of the accept loop and of the handlers. */
  predicate OfProxy(a: Action) {
    !(a.BeginStop? || a.StopCancels? || a.StopClosesListener? || a.StopCloses?)
  }

  function LoopWork(loop: Loop): nat {
    match loop
    case Exited => 0
    case Returning => 1
    case Idle => 2
    case Refusing(_) => 2
    case Untracked(_) => 3
    case Rejected(_) => 4
    case Holding(_) => 3
    case Checking(_) => 6
  }

  /** The steps left to the loop and the handlers once `stop` has returned. */
  function Work(s: State): nat {
    LoopWork(s.loop) + 3 * |s.running| + 2 * |s.closing| + |s.leaving|
  }

  predicate OfHandler(a: Action) {
    a.HandlerCloses? || a.UntrackHandled? || a.DoneHandled?
  }

  /** A step of the loop changes no handler, but for the one it starts. */
  lemma LoopMoves(s: State, a: Action)
    requires StopReturned(s) && s.stopping && OfProxy(a) && !OfHandler(a) && Next(s, a).Some?
    ensures
      var t := Next(s, a).value;
      && t.closing == s.closing && t.leaving == s.leaving
      && (if a.FirewallAllows? then s.loop.Checking? && t.running == s.running + {s.loop.c} && t.loop == Idle
          else t.running == s.running && LoopWork(t.loop) < LoopWork(s.loop))
  {
  }

  lemma LoopWorkDescends(s: State, a: Action)
    requires OwnersOk(s) && s.stopping && StopReturned(s) && OfProxy(a) && !OfHandler(a) && Next(s, a).Some?
    ensures Work(Next(s, a).value) < Work(s)
  {
    LoopMoves(s, a);
    if a.FirewallAllows? {
      assert s.loop.c !in s.running;
      AddOne(s.running, s.loop.c);
    }
  }

  /** A handler moves its connection one set on. */
  lemma HandlerMoves(s: State, a: Action)
    requires Next(s, a).Some? && OfHandler(a)
    ensures
      var t := Next(s, a).value;
      && t.loop == s.loop
      && (a.HandlerCloses? ==>
            a.c in s.running && t.running == s.running - {a.c} && t.closing == s.closing + {a.c} && t.leaving == s.leaving)
      && (a.UntrackHandled? ==>
            a.c in s.closing && t.running == s.running && t.closing == s.closing - {a.c} && t.leaving == s.leaving + {a.c})
      && (a.DoneHandled? ==>
            a.c in s.leaving && t.running == s.running && t.closing == s.closing && t.leaving == s.leaving - {a.c})
  {
  }

  lemma HandlerWorkDescends(s: State, a: Action)
    requires OwnersOk(s) && Next(s, a).Some? && OfHandler(a)
    ensures Work(Next(s, a).value) < Work(s)
  {
    HandlerMoves(s, a);
    if a.HandlerCloses? {
      RemoveOne(s.running, a.c);
      AddOne(s.closing, a.c);
    } else if a.UntrackHandled? {
      RemoveOne(s.closing, a.c);
      AddOne(s.leaving, a.c);
    } else {
      RemoveOne(s.leaving, a.c);
    }
  }

  lemma StaysReturned(s: State, a: Action)
    requires s.stopping && StopReturned(s) && Next(s, a).Some?
    ensures StopReturned(Next(s, a).value)
  {
  }

  /** Once `stop` has returned, every step of the loop or a handler leaves less to do. */
  lemma WorkDescends(s: State, a: Action)
    requires Reachable(s) && StopReturned(s) && OfProxy(a) && Next(s, a).Some?
    ensures Work(Next(s, a).value) < Work(s) && StopReturned(Next(s, a).value)
  {
    ReachableInv(s);
    StaysReturned(s, a);
    if OfHandler(a) {
      HandlerWorkDescends(s, a);
    } else {
      LoopWorkDescends(s, a);
    }
  }

  /**
   And while anything is waited for, the loop or a handler can take a step; so the
   wait ends after at most `Work(s)` of them, with nobody left to wait for.
   */
  lemma WaitEnds(s: State)
    requires Reachable(s) && StopReturned(s)
    ensures s.wait > 0 ==> exists a :: OfProxy(a) && Next(s, a).Some?
    ensures Work(s) == 0 ==> s.wait == 0
  {
    ReachableInv(s);
    if s.running + s.closing + s.leaving != {} {
      HandlerCanStep(s);
    } else if !s.loop.Exited? {
      LoopCanStep(s);
    } else {
      assert s.connections == {};
    }
  }

  lemma HandlerCanStep(s: State)
    requires s.running + s.closing + s.leaving != {}
    ensures exists a :: OfProxy(a) && Next(s, a).Some?
  {
    var c :| c in s.running + s.closing + s.leaving;
    var a := if c in s.running then HandlerCloses(c) else if c in s.closing then UntrackHandled(c) else DoneHandled(c);
    assert OfProxy(a) && Next(s, a).Some?;
  }

  lemma LoopCanStep(s: State)
    requires !s.loop.Exited?
    ensures exists a :: OfProxy(a) && Next(s, a).Some?
  {
    var a := match s.loop
      case Idle => AcceptFails
      case Holding(_) => Track
      case Refusing(_) => CloseRefused
      case Checking(_) => FirewallRejects
      case Rejected(_) => UntrackRejected
      case Untracked(_) => DoneRejected
      case Returning => LoopDone;
    assert OfProxy(a) && Next(s, a).Some?;
  }

  lemma DrainedStep(s: State, a: Action)
    requires Inv(s) && s.wait == 0 && Next(s, a).Some?
    ensures Next(s, a).value.wait == 0 && Next(s, a).value.accepted == s.accepted
  {
    assert |s.connections| == 0 && |s.leaving| == 0;
    assert s.closing == {} && s.running == {};
  }

  /** The wait count never comes back from zero. */
  lemma WaitStaysZero(s: State, actions: seq<Action>)
    requires Reachable(s) && s.wait == 0 && Run(s, actions).Some?
    ensures Run(s, actions).value.wait == 0 && Run(s, actions).value.accepted == s.accepted
  {
    ReachableInv(s);
    var drained := (t: State) => Inv(t) && t.wait == 0 && t.accepted == s.accepted;
    forall t: State, a: Action | drained(t) && Next(t, a).Some?
      ensures drained(Next(t, a).value)
    {
      StepKeepsInv(t, a);
      DrainedStep(t, a);
    }
    RunKeeps(Step(), drained, s, actions);
  }
}
