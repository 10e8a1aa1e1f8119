/**
 The desktop edge supervisor as a system of steps: its run loop, the handle
 methods that callers use at any moment, and the child process. The watch channel
 is a value with a version; the loop remembers the version it has seen.
 */
module Supervisor {
  import opened Options
  import opened Steps

  const BACKOFF_INITIAL := 2
  const BACKOFF_MAX := 30

  datatype Intent = Running | Stopped

  datatype Tray = LoggedOut | Paused | Connecting | Online | Error

  /** The run loop's position: between two steps of it anything else may happen. */
  datatype Position =
    | Top
    | EmitPaused
    | WaitForResume
    | EmitConnecting
    | Spawning
    | EmitSpawnError
    | SleepAfterSpawnError
    | ChildWait
    | EmitExit(healthy: bool)
    | SleepAfterExit(healthy: bool)
    | Killing

  /**
   `borrowed` is the version of the intent the loop last read; `failures` counts
   the failed or short runs since the backoff was last reset.
   */
  datatype State = State(
    intent: Intent, version: nat, seen: nat, borrowed: nat,
    at: Position, children: nat, backoff: nat, failures: nat, tray: Tray)

  predicate Initial(s: State) {
    s.seen == 0 && s.borrowed == 0 && s.version == 0 && s.at == Top && s.children == 0
    && s.backoff == BACKOFF_INITIAL && s.failures == 0 && s.tray == LoggedOut
  }

  // ---- The handle

  /**
   What callers share with the loop: the intent channel and the last tray state.
   Each method is shown to take a step of the system below.
   */
  class SupervisorHandle {
    var intent: Intent
    var version: nat
    var tray: Tray

    constructor (intent: Intent)
      ensures forall s: State :: Initial(s) && s.intent == intent ==> Shows(s)
    {
      this.intent, version, tray := intent, 0, LoggedOut;
    }

    /** The fields are those of the state. */
    ghost predicate Shows(s: State)
      reads this
    {
      s.intent == intent && s.version == version && s.tray == tray
    }

    /** Bumps the version even when the value stays the same, so that the loop is woken. */
    method SetIntended(next: Intent)
      modifies this`intent, this`version
      ensures intent == next && version > old(version)
      ensures Published(intent, version) == Publish(Published(old(intent), old(version)), next)
      ensures forall s: State :: old(Shows(s)) ==>
                var t := Next(s, Action.SetIntended(next)).value;
                Shows(t) && (s.seen <= s.version ==> t.seen < t.version)
    {
      intent, version := next, version + 1;
    }

    method ForceState(next: Tray)
      modifies this`tray
      ensures tray == next
      ensures forall s: State :: old(Shows(s)) ==>
                && (next == Paused ==> Shows(Next(s, ForcePaused).value))
                && (next == Connecting ==> Shows(Next(s, ForceConnecting).value))
    {
      tray := next;
    }

    /** `cmd_pause`: under the application's lock, the intent and then the tray. */
    method Pause()
      modifies this
      ensures intent == Stopped && tray == Paused
      ensures forall s: State :: old(Shows(s)) ==>
                var t := Run(s, PAUSE);
                t.Some? && Shows(t.value) && (s.seen <= s.version ==> t.value.seen < t.value.version)
    {
      SetIntended(Stopped);
      ForceState(Paused);
      assert forall s: State :: Run(s, PAUSE) == Next(Next(s, Action.SetIntended(Stopped)).value, ForcePaused) by {
        forall s: State
          ensures Run(s, PAUSE) == Next(Next(s, Action.SetIntended(Stopped)).value, ForcePaused)
        {
          TwoSteps(Step(), s, Action.SetIntended(Stopped), ForcePaused);
        }
      }
    }

    /** `cmd_resume`, likewise. */
    method Resume()
      modifies this
      ensures intent == Running && tray == Connecting
      ensures forall s: State :: old(Shows(s)) ==>
                var t := Run(s, RESUME);
                t.Some? && Shows(t.value) && (s.seen <= s.version ==> t.value.seen < t.value.version)
    {
      SetIntended(Running);
      ForceState(Connecting);
      assert forall s: State :: Run(s, RESUME) == Next(Next(s, Action.SetIntended(Running)).value, ForceConnecting) by {
        forall s: State
          ensures Run(s, RESUME) == Next(Next(s, Action.SetIntended(Running)).value, ForceConnecting)
        {
          TwoSteps(Step(), s, Action.SetIntended(Running), ForceConnecting);
        }
      }
    }

    method ReportTunnelOnline()
      modifies this`tray
      ensures tray == if old(tray) == Connecting then Online else old(tray)
      ensures forall s: State :: old(Shows(s)) ==> Shows(Next(s, PollOnline).value)
    {
      if tray == Connecting {
        tray := Online;
      }
    }

    method ReportTunnelOffline()
      modifies this`tray
      ensures tray == if old(tray) == Online then Connecting else old(tray)
      ensures forall s: State :: old(Shows(s)) ==> Shows(Next(s, PollOffline).value)
    {
      if tray == Online {
        tray := Connecting;
      }
    }
  }

  /** The watch channel: a value and how often it was sent. */
  datatype Channel = Published(intent: Intent, version: nat)

  function Publish(c: Channel, next: Intent): Channel {
    Published(next, c.version + 1)
  }

  const PAUSE := [Action.SetIntended(Stopped), ForcePaused]
  const RESUME := [Action.SetIntended(Running), ForceConnecting]

  function ReportOnline(tray: Tray): Tray {
    if tray == Connecting then Online else tray
  }

  function ReportOffline(tray: Tray): Tray {
    if tray == Online then Connecting else tray
  }

  // ---- Steps

  /**
   The loop's actions, then those of others. `exited` says whether a finished wait
   reaped the child; a wait that fails leaves it to be killed when it is dropped.
   Callers force only the paused and connecting states.
   */
  datatype Action =
    | ReadIntent
    | EmitTray
    | SpawnFails
    | SpawnSucceeds
    | ChildEnds(healthy: bool, exited: bool)
    | SeeChange
    | KillEnds
    | SleepEnds
    | SetIntended(next: Intent)
    | ForcePaused
    | ForceConnecting
    | PollOnline
    | PollOffline

  predicate OfLoop(a: Action) {
    !(a.SetIntended? || a.ForcePaused? || a.ForceConnecting? || a.PollOnline? || a.PollOffline?)
  }

  function Doubled(backoff: nat): nat {
    if backoff * 2 < BACKOFF_MAX then backoff * 2 else BACKOFF_MAX
  }

  /** Leaving a sleep: the backoff is updated and a child that was not reaped is killed. */
  function Wake(s: State): State
    requires s.at.SleepAfterSpawnError? || s.at.SleepAfterExit?
  {
    if s.at.SleepAfterExit? && s.at.healthy
    then s.(at := Top, children := 0, backoff := BACKOFF_INITIAL, failures := 0)
    else s.(at := Top, children := 0, backoff := Doubled(s.backoff), failures := s.failures + 1)
  }

  /** One step; `None` when the action cannot happen in the state. */
  function Next(s: State, a: Action): Option<State> {
    match a
    case ReadIntent =>
      if s.at == Top
      then Some(s.(borrowed := s.version, at := if s.intent == Stopped then EmitPaused else EmitConnecting)) else None
    case EmitTray =>
      (match s.at
       case EmitPaused => Some(s.(at := WaitForResume, tray := Paused))
       case EmitConnecting => Some(s.(at := Spawning, tray := Connecting))
       case EmitSpawnError => Some(s.(at := SleepAfterSpawnError, tray := Error))
       case EmitExit(healthy) => Some(s.(at := SleepAfterExit(healthy), tray := Error))
       case _ => None)
    case SpawnFails => if s.at == Spawning then Some(s.(at := EmitSpawnError)) else None
    case SpawnSucceeds => if s.at == Spawning then Some(s.(at := ChildWait, children := s.children + 1)) else None
    case ChildEnds(healthy, exited) =>
      if s.at == ChildWait && s.children > 0
      then Some(s.(at := EmitExit(healthy), children := if exited then s.children - 1 else s.children)) else None
    case SeeChange =>
      if s.seen == s.version then None
      else
        (match s.at
         case WaitForResume => Some(s.(seen := s.version, at := Top))
         case ChildWait => Some(s.(seen := s.version, at := Killing))
         case SleepAfterSpawnError => Some(Wake(s).(seen := s.version))
         case SleepAfterExit(_) => Some(Wake(s).(seen := s.version))
         case _ => None)
    case KillEnds => if s.at == Killing then Some(s.(at := Top, children := 0)) else None
    case SleepEnds => if s.at.SleepAfterSpawnError? || s.at.SleepAfterExit? then Some(Wake(s)) else None
    case SetIntended(next) =>
      var sent := Publish(Published(s.intent, s.version), next);
      Some(s.(intent := sent.intent, version := sent.version))
    case ForcePaused => Some(s.(tray := Paused))
    case ForceConnecting => Some(s.(tray := Connecting))
    case PollOnline => Some(s.(tray := ReportOnline(s.tray)))
    case PollOffline => Some(s.(tray := ReportOffline(s.tray)))
  }

  function Step(): Stepper<State, Action> {
    (s, a) => Next(s, a)
  }

  function Run(s: State, actions: seq<Action>): Option<State> {
    RunOf(Step(), s, actions)
  }

  // ---- The invariant

  predicate AfterStopped(at: Position) {
    at == EmitPaused || at == WaitForResume
  }

  predicate AfterRunning(at: Position) {
    !AfterStopped(at) && at != Top && at != Killing
  }

  /** What the loop acts on is the current intent unless there is a change it has yet to see. */
  predicate IntentOk(s: State) {
    && s.seen <= s.version
    && (HasRead(s) ==> s.seen <= s.borrowed <= s.version)
    && (AfterStopped(s.at) && s.borrowed == s.version ==> s.intent == Stopped)
    && (AfterRunning(s.at) && s.borrowed == s.version ==> s.intent == Running)
  }

  predicate HasRead(s: State) {
    AfterStopped(s.at) || AfterRunning(s.at)
  }

  predicate ChildOk(s: State) {
    if s.at == ChildWait || s.at == Killing then s.children == 1
    else if s.at.EmitExit? || s.at.SleepAfterExit? then s.children <= 1
    else s.children == 0
  }

  /** The backoff after a number of failures in a row. */
  function BackoffAfter(failures: nat): nat {
    if failures == 0 then BACKOFF_INITIAL else Doubled(BackoffAfter(failures - 1))
  }

  predicate Inv(s: State) {
    IntentOk(s) && ChildOk(s) && s.backoff == BackoffAfter(s.failures)
  }

  lemma StepKeepsInv(s: State, a: Action)
    requires Inv(s) && Next(s, a).Some?
    ensures Inv(Next(s, a).value)
  {
  }

  function Invariant(): State -> bool {
    s => Inv(s)
  }

  lemma EveryStepKeepsInv()
    ensures Keeps(Step(), Invariant())
  {
    forall s: State, a: Action | Inv(s) && Next(s, a).Some?
      ensures Inv(Next(s, a).value)
    {
      StepKeepsInv(s, a);
    }
  }

  lemma RunHolds(s: State, actions: seq<Action>)
    requires Inv(s) && Run(s, actions).Some?
    ensures Inv(Run(s, actions).value)
  {
    EveryStepKeepsInv();
    RunKeeps(Step(), Invariant(), s, actions);
  }

  // ---- What follows for every interleaving

  function Starts(): State -> bool {
    s => Initial(s)
  }

  ghost predicate Reachable(s: State) {
    ReachableBy(Step(), Starts(), s)
  }

  lemma ReachableInv(s: State)
    requires Reachable(s)
    ensures Inv(s)
  {
    EveryStepKeepsInv();
    ReachableKeeps(Step(), Starts(), Invariant(), s);
  }

  /** The loop waits for a change, for its child, or for a sleep. */
  predicate Blocked(s: State) {
    s.at == WaitForResume || s.at == ChildWait || s.at.SleepAfterSpawnError? || s.at.SleepAfterExit?
  }

  /**
   Whenever the loop is blocked with no unseen change, it is doing what is
   intended: stopped means waiting without a child, and a loop that waits on a
   child is meant to run and has exactly one.
   */
  lemma NoIntentIsLost(s: State)
    requires Reachable(s) && Blocked(s) && s.seen == s.version
    ensures s.intent == Stopped ==> s.at == WaitForResume && s.children == 0
    ensures s.intent == Running ==> s.at != WaitForResume
    ensures s.at == ChildWait ==> s.intent == Running && s.children == 1
  {
    ReachableInv(s);
  }

  /** There is never more than one child, and none when a new one is spawned. */
  lemma AtMostOneChild(s: State)
    requires Reachable(s)
    ensures s.children <= 1 && (s.at == Spawning ==> s.children == 0)
  {
    ReachableInv(s);
  }

  /** What the loop shows: Paused before it waits to be resumed, Connecting before it spawns, an error before it sleeps. */
  lemma LoopShows(s: State)
    requires Next(s, EmitTray).Some?
    ensures
      var t := Next(s, EmitTray).value;
      && (t.at == WaitForResume ==> t.tray == Paused)
      && (t.at == Spawning ==> t.tray == Connecting)
      && (t.at == SleepAfterSpawnError || t.at.SleepAfterExit? ==> t.tray == Error)
      && (t.at == WaitForResume || t.at == Spawning || t.at == SleepAfterSpawnError || t.at.SleepAfterExit?)
  {
  }

  /** Online is entered only from Connecting, and only by the status poller. */
  lemma OnlineOnlyFromConnecting(s: State, a: Action)
    requires Next(s, a).Some? && s.tray != Online && Next(s, a).value.tray == Online
    ensures s.tray == Connecting && a == PollOnline
  {
  }

  /** The backoff after `n` failures: 2, 4, 8, 16 and then 30 seconds. */
  lemma {:induction false} BackoffTable(n: nat)
    ensures BackoffAfter(n) == (if n == 0 then 2 else if n == 1 then 4 else if n == 2 then 8 else if n == 3 then 16 else 30)
  {
    if n > 0 {
      BackoffTable(n - 1);
    }
  }

  /** The backoff always lies between 2 and 30 seconds and follows the failures since the last healthy run. */
  lemma BackoffIsBounded(s: State)
    requires Reachable(s)
    ensures s.backoff == BackoffAfter(s.failures) && BACKOFF_INITIAL <= s.backoff <= BACKOFF_MAX
  {
    ReachableInv(s);
    BackoffTable(s.failures);
  }

  /** It changes only when a sleep ends: reset after a healthy run, else doubled up to the cap. */
  lemma BackoffChanges(s: State, a: Action)
    requires Next(s, a).Some? && Next(s, a).value.backoff != s.backoff
    ensures a == SleepEnds || a == SeeChange
    ensures Next(s, a).value.backoff == (if s.at == SleepAfterExit(true) then BACKOFF_INITIAL else Doubled(s.backoff))
  {
  }

  // ---- A stop is always realised

  /** The loop rests in the stopped state and has seen every change. */
  predicate Settled(s: State) {
    s.at == WaitForResume && s.seen == s.version
  }

  /** A bound on the loop steps left before it settles, while stopping is intended. */
  function Rank(s: State): nat {
    var unseen := if s.seen == s.version then 0 else 3;
    match s.at
    case WaitForResume => unseen
    case EmitPaused => 1 + unseen
    case Top => 2 + unseen
    case Killing => 6
    case SleepAfterSpawnError => 6
    case SleepAfterExit(_) => 6
    case EmitSpawnError => 7
    case EmitExit(_) => 7
    case ChildWait => 8
    case Spawning => 9
    case EmitConnecting => 10
  }

  lemma LoopStepDescends(s: State, a: Action)
    requires Inv(s) && s.intent == Stopped && !a.SetIntended? && Next(s, a).Some?
    ensures Next(s, a).value.intent == Stopped
    ensures if OfLoop(a) then Rank(Next(s, a).value) < Rank(s) else Rank(Next(s, a).value) == Rank(s)
  {
  }

  /** Until it settles, the loop can take a step on its own. */
  lemma NotStuck(s: State)
    requires Reachable(s) && s.intent == Stopped && !Settled(s)
    ensures exists a :: OfLoop(a) && Next(s, a).Some?
  {
    ReachableInv(s);
    var a := match s.at
      case Top => ReadIntent
      case EmitPaused => EmitTray
      case EmitConnecting => EmitTray
      case EmitSpawnError => EmitTray
      case EmitExit(_) => EmitTray
      case Spawning => SpawnFails
      case Killing => KillEnds
      case SleepAfterSpawnError => SleepEnds
      case SleepAfterExit(_) => SleepEnds
      case WaitForResume => SeeChange
      case ChildWait => SeeChange;
    assert OfLoop(a) && Next(s, a).Some?;
  }

  function LoopSteps(actions: seq<Action>): nat {
    if actions == [] then 0
    else LoopSteps(actions[..|actions| - 1]) + (if OfLoop(actions[|actions| - 1]) then 1 else 0)
  }

  lemma {:induction false} StopDescends(s: State, actions: seq<Action>)
    requires Inv(s) && s.intent == Stopped && Run(s, actions).Some?
    requires forall i :: 0 <= i < |actions| ==> !actions[i].SetIntended?
    ensures Run(s, actions).value.intent == Stopped
    ensures Rank(Run(s, actions).value) + LoopSteps(actions) <= Rank(s)
  {
    if actions != [] {
      var before, a := actions[..|actions| - 1], actions[|actions| - 1];
      StopDescends(s, before);
      RunHolds(s, before);
      LoopStepDescends(Run(s, before).value, a);
    }
  }

  /**
   From any reachable state in which stopping is intended, and as long as nobody
   changes the intent again: the loop takes at most ten more steps, it can always
   take one until it has settled, and it settles without a child. So a stop
   request is never lost, whatever the loop was doing.
   */
  lemma StopIsRealised(s: State, actions: seq<Action>)
    requires Reachable(s) && s.intent == Stopped && Run(s, actions).Some?
    requires forall i :: 0 <= i < |actions| ==> !actions[i].SetIntended?
    ensures LoopSteps(actions) <= 10
    ensures LoopSteps(actions) == 10 ==> Settled(Run(s, actions).value)
    ensures var t := Run(s, actions).value; Settled(t) ==> t.children == 0 && t.intent == Stopped
  {
    ReachableInv(s);
    StopDescends(s, actions);
    RunHolds(s, actions);
  }

  // ---- And so is a resume

  /** A bound on the loop steps left before a child is spawned, while running is intended. */
  function Climb(at: Position): nat {
    match at
    case Spawning => 0
    case EmitConnecting => 1
    case Top => 2
    case WaitForResume => 3
    case Killing => 3
    case SleepAfterSpawnError => 3
    case SleepAfterExit(_) => 3
    case EmitPaused => 4
    case EmitSpawnError => 4
    case EmitExit(_) => 4
    case ChildWait => 5
  }

  lemma LoopStepClimbs(s: State, a: Action)
    requires Inv(s) && s.intent == Running && s.at != Spawning && !a.SetIntended? && Next(s, a).Some?
    ensures Next(s, a).value.intent == Running
    ensures if OfLoop(a) then Climb(Next(s, a).value.at) < Climb(s.at) else Next(s, a).value.at == s.at
  {
  }

  /** The run comes to the point of spawning a child. */
  ghost predicate Spawns(s: State, actions: seq<Action>) {
    exists i: nat :: i <= |actions| && SpawnsAt(s, actions, i)
  }

  predicate SpawnsAt(s: State, actions: seq<Action>, i: nat)
    requires i <= |actions|
  {
    Run(s, actions[..i]).Some? && Run(s, actions[..i]).value.at == Spawning
  }

  lemma {:induction false} ResumeClimbs(s: State, actions: seq<Action>)
    requires Inv(s) && s.intent == Running && Run(s, actions).Some? && !Spawns(s, actions)
    requires forall i :: 0 <= i < |actions| ==> !actions[i].SetIntended?
    ensures Run(s, actions).value.intent == Running
    ensures Climb(Run(s, actions).value.at) + LoopSteps(actions) <= Climb(s.at)
  {
    if actions != [] {
      var before, a := actions[..|actions| - 1], actions[|actions| - 1];
      forall i: nat | i <= |before|
        ensures !SpawnsAt(s, before, i)
      {
        assert before[..i] == actions[..i];
        assert !SpawnsAt(s, actions, i);
      }
      assert before[..|before|] == before && !SpawnsAt(s, before, |before|);
      ResumeClimbs(s, before);
      RunHolds(s, before);
      LoopStepClimbs(Run(s, before).value, a);
    }
  }

  /** Until it spawns, the loop can take a step on its own, unless it waits on the one child it has. */
  lemma RunningNotStuck(s: State)
    requires Reachable(s) && s.intent == Running
    ensures (s.at == ChildWait && s.children == 1) || exists a :: OfLoop(a) && !a.ChildEnds? && Next(s, a).Some?
  {
    ReachableInv(s);
    if s.at != ChildWait {
      var a := match s.at
        case Top => ReadIntent
        case Spawning => SpawnSucceeds
        case Killing => KillEnds
        case SleepAfterSpawnError => SleepEnds
        case SleepAfterExit(_) => SleepEnds
        case WaitForResume => SeeChange
        case _ => EmitTray;
      assert OfLoop(a) && !a.ChildEnds? && Next(s, a).Some?;
    }
  }

  /**
   From any reachable state in which running is intended, and as long as nobody
   changes the intent again: within five steps of the loop a child is spawned.
   */
  lemma ResumeIsRealised(s: State, actions: seq<Action>)
    requires Reachable(s) && s.intent == Running && Run(s, actions).Some?
    requires forall i :: 0 <= i < |actions| ==> !actions[i].SetIntended?
    requires LoopSteps(actions) >= 5
    ensures Spawns(s, actions)
  {
    ReachableInv(s);
    assert actions[..|actions|] == actions;
    assert Run(s, actions).value.at == Spawning ==> SpawnsAt(s, actions, |actions|);
    if !Spawns(s, actions) {
      ResumeClimbs(s, actions);
    }
  }

  // ---- What the tray shows

  /**
   The application's lock around its calls: free, or held since an intent was set.
   A stop on logout or exit sets the intent and forces nothing, so a lock held for
   a stop may be taken again.
   */
  datatype Lock = Free | HeldFor(intent: Intent)

  function LockStep(l: Lock, a: Action): Option<Lock> {
    match a
    case SetIntended(next) => if l == HeldFor(Running) then None else Some(HeldFor(next))
    case ForcePaused => if l == HeldFor(Stopped) then Some(Free) else None
    case ForceConnecting => if l == HeldFor(Running) then Some(Free) else None
    case _ => Some(l)
  }

  /** The lock after a run whose callers keep to it. */
  function LockAfter(actions: seq<Action>): Option<Lock> {
    if actions == [] then Some(Free)
    else match LockAfter(actions[..|actions| - 1])
         case Some(l) => LockStep(l, actions[|actions| - 1])
         case None => None
  }

  predicate TrayOk(s: State, l: Lock) {
    && (l.HeldFor? ==> s.intent == l.intent)
    && (s.at == WaitForResume && s.borrowed == s.version ==> s.tray == Paused)
  }

  lemma StepKeepsTray(s: State, a: Action, l: Lock)
    requires Inv(s) && TrayOk(s, l) && Next(s, a).Some? && LockStep(l, a).Some?
    ensures TrayOk(Next(s, a).value, LockStep(l, a).value)
  {
  }

  lemma {:induction false} RunKeepsTray(start: State, actions: seq<Action>)
    requires Initial(start) && Run(start, actions).Some? && LockAfter(actions).Some?
    ensures TrayOk(Run(start, actions).value, LockAfter(actions).value)
  {
    if actions != [] {
      var before, a := actions[..|actions| - 1], actions[|actions| - 1];
      RunKeepsTray(start, before);
      RunHolds(start, before);
      StepKeepsTray(Run(start, before).value, a, LockAfter(before).value);
    }
  }

  /**
   In every run whose callers keep to the lock, a loop that has settled shows
   Paused: neither a late forced state nor the poller can leave anything else.
   */
  lemma SettledShowsPaused(start: State, actions: seq<Action>)
    requires Initial(start) && Run(start, actions).Some? && LockAfter(actions).Some?
    requires Settled(Run(start, actions).value)
    ensures Run(start, actions).value.tray == Paused
  {
    RunKeepsTray(start, actions);
    RunHolds(start, actions);
  }

  /** A resume sets its intent and is overtaken by a pause; the loop settles; then both force their states. */
  const OVERTAKEN := [ReadIntent, EmitTray, Action.SetIntended(Running), Action.SetIntended(Stopped)]
  const LATE := [SeeChange, ReadIntent, EmitTray, ForcePaused, ForceConnecting]
  const RACE := OVERTAKEN + LATE

  lemma Overtaken(start: State)
    requires Initial(start) && start.intent == Stopped
    ensures Run(start, OVERTAKEN) == Some(start.(at := WaitForResume, version := 2, tray := Paused))
  {
    var rest := OVERTAKEN;
    var s1 := start.(at := EmitPaused);
    assert rest == [ReadIntent] + rest[1..];
    RunCons(Step(), start, ReadIntent, rest[1..]);
    assert rest[1..] == [EmitTray] + rest[2..];
    RunCons(Step(), s1, EmitTray, rest[2..]);
    TwoSteps(Step(), s1.(at := WaitForResume, tray := Paused), Action.SetIntended(Running), Action.SetIntended(Stopped));
  }

  lemma Late(s: State)
    requires s.at == WaitForResume && s.intent == Stopped && s.seen < s.version
    ensures Run(s, LATE) == Some(s.(at := WaitForResume, seen := s.version, borrowed := s.version, tray := Connecting))
  {
    var rest := LATE;
    var s1 := s.(at := Top, seen := s.version);
    var s2 := s1.(at := EmitPaused, borrowed := s.version);
    assert rest == [SeeChange] + rest[1..];
    RunCons(Step(), s, SeeChange, rest[1..]);
    assert rest[1..] == [ReadIntent] + rest[2..];
    RunCons(Step(), s1, ReadIntent, rest[2..]);
    assert rest[2..] == [EmitTray] + rest[3..];
    RunCons(Step(), s2, EmitTray, rest[3..]);
    TwoSteps(Step(), s2.(at := WaitForResume, tray := Paused), ForcePaused, ForceConnecting);
  }

  /** Without the lock it can be Connecting. */
  lemma WithoutLockTrayLies(start: State)
    requires Initial(start) && start.intent == Stopped
    ensures
      var s := Run(start, RACE);
      s.Some? && Settled(s.value) && s.value.tray == Connecting && LockAfter(RACE).None?
  {
    Overtaken(start);
    RunAppend(Step(), start, OVERTAKEN, LATE);
    Late(Run(start, OVERTAKEN).value);
    RaceBreaksTheLock();
  }

  lemma RaceBreaksTheLock()
    ensures LockAfter(RACE).None?
  {
    var a := RACE;
    assert a[..9] == a;
    assert forall i :: 0 < i <= 9 ==> a[..i][..i - 1] == a[..i - 1] && a[..i][i - 1] == a[i - 1];
    assert LockAfter(a[..1]) == Some(Free);
    assert LockAfter(a[..2]) == Some(Free);
    assert LockAfter(a[..3]) == Some(HeldFor(Running));
    NoLockAgain(a, 4, 9);
  }

  lemma {:induction false} NoLockAgain(actions: seq<Action>, i: nat, j: nat)
    requires i <= j <= |actions| && LockAfter(actions[..i]).None?
    ensures LockAfter(actions[..j]).None?
    decreases j
  {
    if i < j {
      NoLockAgain(actions, i, j - 1);
      assert actions[..j][..j - 1] == actions[..j - 1];
    }
  }
}
