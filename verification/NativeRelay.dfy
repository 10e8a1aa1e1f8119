/**
 `RelayMessagesSSE`: the relay of native Anthropic streams, which passes every
 event on and replaces only the model of message_start. It is shown to complete
 on exactly one language of event sequences, to deliver exactly the events it
 dispatched, and to account tokens exactly.
 */
module NativeRelay {
  import opened Options
  import opened Json
  import opened Streams
  import opened Folds

  /** One delivered event: its name and its data object. */
  datatype Frame = Frame(kind: string, payload: Fields)

  datatype Config = Config(
    alias: string,
    trim: string -> string,
    parse: string -> Option<Json>,
    accepts: nat -> bool)

  datatype State = State(started: bool, ended: bool, usage: Usage, out: seq<Frame>)

  const START := State(false, false, UNKNOWN, [])

  // ---- Token accounting

  const INPUT_KEYS := ["input_tokens", "cache_read_input_tokens", "cache_creation_input_tokens"]

  function Amount(values: Fields, key: string): nat {
    match Counter(Get(values, key)) case Some(n) => n case None => 0
  }

  /** The exact, unbounded sum of the first `n` input counters. */
  function InputSum(values: Fields, n: nat): nat
    requires n <= 3
  {
    if n == 0 then 0 else InputSum(values, n - 1) + Amount(values, INPUT_KEYS[n - 1])
  }

  predicate WellFormed(values: Fields, key: string) {
    key in values ==> Counter(Get(values, key)).Some?
  }

  /** Every input counter present is valid and their sum fits an int64. */
  predicate InputOk(values: Fields) {
    (forall i :: 0 <= i < 3 ==> WellFormed(values, INPUT_KEYS[i])) && InputSum(values, 3) <= MAX_INT64
  }

  /** What one usage report leaves, and whether it is accepted. */
  function Account(u: Usage, raw: Option<Json>): (Usage, bool) {
    match raw
    case None => (u, true)
    case Some(JObj(values)) =>
      if !InputOk(values) then (u, false)
      else
        var seen := if "input_tokens" in values then u.(input := Some(InputSum(values, 3))) else u;
        if "output_tokens" !in values then (seen, true)
        else (match Counter(Get(values, "output_tokens"))
              case Some(n) => (seen.(output := Some(n)), true)
              case None => (seen, false))
    case _ => (u, false)
  }

  lemma {:induction false} InputSumGrows(values: Fields, n: nat, m: nat)
    requires n <= m <= 3
    ensures InputSum(values, n) <= InputSum(values, m)
    decreases m
  {
    if n < m {
      InputSumGrows(values, n, m - 1);
    }
  }

  method NativeUsage(obj: Fields, u: Meter) returns (ok: bool)
    modifies u
    ensures (u.Value(), ok) == Account(old(u.Value()), Get(obj, "usage"))
  {
    if "usage" !in obj {
      return true;
    }
    if !obj["usage"].JObj? {
      return false;
    }
    var values := obj["usage"].fields;
    var input, hasInput := 0, false;
    for i := 0 to 3
      invariant u.Value() == old(u.Value())
      invariant input == InputSum(values, i) <= MAX_INT64
      invariant forall j :: 0 <= j < i ==> WellFormed(values, INPUT_KEYS[j])
      invariant hasInput == (i > 0 && "input_tokens" in values)
    {
      var key := INPUT_KEYS[i];
      assert i > 0 ==> key != "input_tokens";
      if key in values {
        var n := AsInt64(Some(values[key]));
        if n.None? || n.value.None? || n.value.value < 0 || input > MAX_INT64 - n.value.value {
          InputSumGrows(values, i + 1, 3);
          return false;
        }
        input := input + n.value.value;
        if key == "input_tokens" {
          hasInput := true;
        }
      }
    }
    if hasInput {
      u.input := Some(input);
    }
    if "output_tokens" in values {
      var n := AsInt64(Some(values["output_tokens"]));
      if n.None? || n.value.None? || n.value.value < 0 {
        return false;
      }
      u.output := n.value;
    }
    ok := true;
  }

  // ---- Messages

  predicate IsMessage(obj: Fields) {
    && AsString(Get(obj, "type")) == Some("message")
    && AsString(Get(obj, "role")) == Some("assistant")
    && AsString(Get(obj, "id")).Some? && AsString(Get(obj, "id")) != Some("")
    && AsArray(Get(obj, "content")).Some? && AsArray(Get(obj, "content")).value.Some?
  }

  /** A message with its model hidden behind the alias, and the usage it leaves. */
  function Message(u: Usage, raw: Option<Json>, alias: string): (Option<Fields>, Usage) {
    match ResponseObject(raw)
    case None => (None, u)
    case Some(obj) =>
      if !IsMessage(obj) then (None, u)
      else
        var (seen, ok) := Account(u, Get(obj, "usage"));
        (if ok then Some(obj["model" := JStr(alias)]) else None, seen)
  }

  method NativeMessage(raw: Option<Json>, alias: string, u: Meter) returns (r: Option<Fields>)
    modifies u
    ensures (r, u.Value()) == Message(old(u.Value()), raw, alias)
  {
    var obj := ResponseObject(raw);
    if obj.None? || !IsMessage(obj.value) {
      return None;
    }
    var ok := NativeUsage(obj.value, u);
    if !ok {
      return None;
    }
    r := Some(obj.value["model" := JStr(alias)]);
  }

  // ---- Events

  datatype Kind = Ping | MessageStart | Content | MessageDelta | MessageStop | Unknown

  /** The kind of an event; a type that is not a string is unknown too. */
  function KindOf(obj: Fields): Kind {
    match AsString(Get(obj, "type"))
    case Some("ping") => Ping
    case Some("message_start") => MessageStart
    case Some("content_block_start") => Content
    case Some("content_block_delta") => Content
    case Some("content_block_stop") => Content
    case Some("message_delta") => MessageDelta
    case Some("message_stop") => MessageStop
    case _ => Unknown
  }

  /** The name an event is delivered under. */
  function NameOf(obj: Fields): string {
    match AsString(Get(obj, "type")) case Some(name) => name case None => ""
  }

  /** The stop reason of a message_delta; `None` when its delta does not decode. */
  function DeltaReason(obj: Fields): Option<string> {
    match Get(obj, "delta")
    case Some(JObj(delta)) => StringField(delta, "stop_reason")
    case Some(JNull) => Some("")
    case _ => None
  }

  function Emit(cfg: Config, st: State, obj: Fields): (State, Outcome) {
    if cfg.accepts(|st.out|)
    then
      var complete := st.usage.complete || KindOf(obj) == MessageStop;
      (st.(out := st.out + [Frame(NameOf(obj), obj)], usage := st.usage.(complete := complete)), Ok)
    else (st, ErrEmit)
  }

  function Apply(cfg: Config, st: State, obj: Fields): (State, Outcome) {
    match KindOf(obj)
    case Ping => Emit(cfg, st, obj)
    case MessageStart =>
      if st.started then (st, ErrResponse)
      else
        var (message, seen) := Message(st.usage, Get(obj, "message"), cfg.alias);
        if message.None? then (st.(usage := seen), ErrResponse)
        else Emit(cfg, st.(started := true, usage := seen), obj["message" := JObj(message.value)])
    case Content => if !st.started || st.ended then (st, ErrResponse) else Emit(cfg, st, obj)
    case MessageDelta =>
      if !st.started || DeltaReason(obj).None? then (st, ErrResponse)
      else
        var (seen, ok) := Account(st.usage, Get(obj, "usage"));
        var next := st.(ended := st.ended || DeltaReason(obj) != Some(""), usage := seen);
        if !ok then (next, ErrResponse) else Emit(cfg, next, obj)
    case MessageStop => if !st.started || !st.ended then (st, ErrResponse) else Emit(cfg, st, obj)
    case Unknown => (st, ErrResponse)
  }

  function Dispatch(cfg: Config, st: State, data: string): (State, Outcome) {
    if data == "" then (st, Ok)
    else
      match ResponseObject(cfg.parse(cfg.trim(data)))
      case None => (st, ErrResponse)
      case Some(obj) => Apply(cfg, st, obj)
  }

  function Scan(cfg: Config, lines: seq<string>, end: Outcome, data: string, st: State): (State, Outcome) {
    if lines == [] then (st, end)
    else if lines[0] == "" then
      var (next, o) := Dispatch(cfg, st, data);
      if o != Ok || next.usage.complete then (next, o) else Scan(cfg, lines[1..], end, "", next)
    else if IsData(lines[0]) then
      if |data| + |lines[0]| > MAX_FRAME then (st, ErrResponse)
      else Scan(cfg, lines[1..], end, data + lines[0][5..] + "\n", st)
    else Scan(cfg, lines[1..], end, data, st)
  }

  // ---- The relay itself

  class NativeRun {
    const cfg: Config
    const u: Meter
    const sink: Sink<Frame>
    var started: bool
    var ended: bool

    constructor (cfg: Config, u: Meter, sink: Sink<Frame>)
      requires sink.accepts == cfg.accepts
      ensures this.cfg == cfg && this.u == u && this.sink == sink
      ensures Valid() && Value() == START.(usage := u.Value(), out := sink.frames)
    {
      this.cfg, this.u, this.sink := cfg, u, sink;
      started, ended := false, false;
    }

    ghost predicate Valid() {
      sink.accepts == cfg.accepts
    }

    ghost function Value(): State
      reads this, u, sink
    {
      State(started, ended, u.Value(), sink.frames)
    }

    method DispatchFrame(data: string) returns (o: Outcome)
      requires Valid()
      modifies this, u, sink
      ensures (Value(), o) == Dispatch(cfg, old(Value()), data)
    {
      if data == "" {
        return Ok;
      }
      var parsed := ResponseObject(cfg.parse(cfg.trim(data)));
      if parsed.None? {
        return ErrResponse;
      }
      var obj := parsed.value;
      var kind := KindOf(obj);
      match kind {
        case Ping =>
        case MessageStart =>
          if started {
            return ErrResponse;
          }
          var message := NativeMessage(Get(obj, "message"), cfg.alias, u);
          if message.None? {
            return ErrResponse;
          }
          obj := obj["message" := JObj(message.value)];
          started := true;
        case Content =>
          if !started || ended {
            return ErrResponse;
          }
        case MessageDelta =>
          var reason := DeltaReason(obj);
          if !started || reason.None? {
            return ErrResponse;
          }
          if reason.value != "" {
            ended := true;
          }
          var ok := NativeUsage(obj, u);
          if !ok {
            return ErrResponse;
          }
        case MessageStop =>
          if !started || !ended {
            return ErrResponse;
          }
        case Unknown =>
          return ErrResponse;
      }
      var ok := sink.Emit(Frame(NameOf(obj), obj));
      if !ok {
        return ErrEmit;
      }
      if kind == MessageStop {
        u.complete := true;
      }
      o := Ok;
    }
  }

  method RelayMessagesSse(lines: seq<string>, scanError: bool, cfg: Config, u: Meter, sink: Sink<Frame>)
    returns (o: Outcome)
    requires sink.accepts == cfg.accepts
    modifies u, sink
    ensures
      var (final, outcome) :=
        Scan(cfg, lines, if scanError then ErrScan else ErrResponse, "",
             START.(usage := old(u.Value()), out := old(sink.frames)));
      o == outcome && u.Value() == final.usage && sink.frames == final.out
  {
    var run := new NativeRun(cfg, u, sink);
    var data := "";
    ghost var end := if scanError then ErrScan else ErrResponse;
    ghost var begin := run.Value();
    for i := 0 to |lines|
      invariant run.Valid() && run.u == u && run.sink == sink && run.cfg == cfg
      invariant Scan(cfg, lines, end, "", begin) == Scan(cfg, lines[i..], end, data, run.Value())
    {
      var line := lines[i];
      assert lines[i..][1..] == lines[i + 1..];
      if line == "" {
        o := run.DispatchFrame(data);
        if o != Ok {
          return;
        }
        if u.complete {
          return;
        }
        data := "";
      } else if IsData(line) {
        if |data| + |line| > MAX_FRAME {
          return ErrResponse;
        }
        data := data + line[5..] + "\n";
      }
    }
    o := if scanError then ErrScan else ErrResponse;
  }

  // ---- Framing

  /** The frames completed by a blank line, and whether one outgrows the limit first. */
  function Frames(lines: seq<string>, data: string): (seq<string>, bool) {
    if lines == [] then ([], false)
    else if lines[0] == "" then
      var (rest, overflow) := Frames(lines[1..], "");
      ([data] + rest, overflow)
    else if IsData(lines[0]) then
      if |data| + |lines[0]| > MAX_FRAME then ([], true)
      else Frames(lines[1..], data + lines[0][5..] + "\n")
    else Frames(lines[1..], data)
  }

  function Dispatcher(cfg: Config): Step<State, string> {
    (st, data) => Dispatch(cfg, st, data)
  }

  function IsComplete(): State -> bool {
    (st: State) => st.usage.complete
  }

  lemma {:induction false} ScanDispatchesFrames(cfg: Config, lines: seq<string>, end: Outcome, data: string, st: State)
    ensures
      var (frames, overflow) := Frames(lines, data);
      Scan(cfg, lines, end, data, st) ==
      RunAll(Dispatcher(cfg), IsComplete(), frames, if overflow then ErrResponse else end, st)
    decreases |lines|
  {
    if lines == [] {
    } else if lines[0] == "" {
      var (rest, overflow) := Frames(lines[1..], "");
      assert ([data] + rest)[1..] == rest;
      ScanDispatchesFrames(cfg, lines[1..], end, "", Dispatch(cfg, st, data).0);
    } else if IsData(lines[0]) {
      ScanDispatchesFrames(cfg, lines[1..], end, data + lines[0][5..] + "\n", st);
    } else {
      ScanDispatchesFrames(cfg, lines[1..], end, data, st);
    }
  }

  // ---- The language of event sequences

  type Event = Option<Fields>

  /** The objects of the frames that carry data; `None` where there is no response object. */
  function Events(cfg: Config, frames: seq<string>): seq<Event> {
    if frames == [] then []
    else
      var before, last := Events(cfg, frames[..|frames| - 1]), frames[|frames| - 1];
      if last == "" then before else before + [ResponseObject(cfg.parse(cfg.trim(last)))]
  }

  predicate Is(e: Event, kind: Kind) {
    e.Some? && KindOf(e.value) == kind
  }

  /** A message_delta that carries a stop reason. */
  predicate Ends(e: Event) {
    Is(e, MessageDelta) && DeltaReason(e.value).Some? && DeltaReason(e.value) != Some("")
  }

  /** The usage report of an event, where the relay reads one. */
  function Report(e: Event): Option<Json> {
    if Is(e, MessageStart) then
      (match ResponseObject(Get(e.value, "message")) case Some(message) => Get(message, "usage") case None => None)
    else if Is(e, MessageDelta) then Get(e.value, "usage")
    else None
  }

  /** A usage report with no malformed counter. */
  predicate ReportOk(raw: Option<Json>) {
    match raw
    case None => true
    case Some(JObj(values)) => InputOk(values) && WellFormed(values, "output_tokens")
    case _ => false
  }

  /** The event is of a known kind and well-formed on its own. */
  predicate Good(e: Event) {
    || Is(e, Ping) || Is(e, Content) || Is(e, MessageStop)
    || (Is(e, MessageStart) && ReportOk(Report(e)) &&
        match ResponseObject(Get(e.value, "message")) case Some(message) => IsMessage(message) case None => false)
    || (Is(e, MessageDelta) && ReportOk(Report(e)) && DeltaReason(e.value).Some?)
  }

  ghost predicate Started(events: seq<Event>, before: nat)
    requires before <= |events|
  {
    exists j :: 0 <= j < before && Is(events[j], MessageStart)
  }

  ghost predicate Ended(events: seq<Event>, before: nat)
    requires before <= |events|
  {
    exists j :: 0 <= j < before && Ends(events[j])
  }

  /** Event `i` may stand where it stands. */
  ghost predicate Allowed(events: seq<Event>, i: nat)
    requires i < |events|
  {
    var e := events[i];
    && Good(e)
    && (Is(e, MessageStart) ==> !Started(events, i))
    && (Is(e, Content) ==> Started(events, i) && !Ended(events, i))
    && (Is(e, MessageDelta) ==> Started(events, i))
    && (Is(e, MessageStop) ==> Ended(events, i) && i == |events| - 1)
  }

  /** Pings anywhere, one message_start, content before a stop reason, message_stop after one and last. */
  ghost predicate Orderly(events: seq<Event>) {
    forall i :: 0 <= i < |events| ==> Allowed(events, i)
  }

  predicate Completed(events: seq<Event>) {
    |events| > 0 && Is(events[|events| - 1], MessageStop)
  }

  // ---- What is delivered and accounted

  /** The event as delivered: itself, with the message's model replaced in message_start. */
  function Delivered(alias: string, e: Event): Frame
    requires Good(e)
  {
    if Is(e, MessageStart)
    then Frame(NameOf(e.value), e.value["message" := JObj(ResponseObject(Get(e.value, "message")).value["model" := JStr(alias)])])
    else Frame(NameOf(e.value), e.value)
  }

  function DeliveredAll(alias: string, events: seq<Event>): seq<Frame>
    requires forall i :: 0 <= i < |events| ==> Good(events[i])
  {
    seq(|events|, i requires 0 <= i < |events| => Delivered(alias, events[i]))
  }

  /** The input a report gives: the sum of its three counters when it holds input_tokens. */
  function InputReported(raw: Option<Json>): Option<int> {
    match raw
    case Some(JObj(values)) =>
      if "input_tokens" in values
      then Some(Amount(values, "input_tokens") + Amount(values, "cache_read_input_tokens")
                + Amount(values, "cache_creation_input_tokens"))
      else None
    case _ => None
  }

  function OutputReported(raw: Option<Json>): Option<int> {
    match raw
    case Some(JObj(values)) => if "output_tokens" in values then Some(Amount(values, "output_tokens")) else None
    case _ => None
  }

  /** The last input any event reports; unknown when none does. */
  function LastInput(events: seq<Event>): Option<int> {
    if events == [] then None
    else
      var last := InputReported(Report(events[|events| - 1]));
      if last.Some? then last else LastInput(events[..|events| - 1])
  }

  function LastOutput(events: seq<Event>): Option<int> {
    if events == [] then None
    else
      var last := OutputReported(Report(events[|events| - 1]));
      if last.Some? then last else LastOutput(events[..|events| - 1])
  }

  lemma AccountExact(u: Usage, raw: Option<Json>)
    ensures Account(u, raw).1 <==> ReportOk(raw)
    ensures ReportOk(raw) ==>
              Account(u, raw).0 ==
              Usage(if InputReported(raw).Some? then InputReported(raw) else u.input,
                    if OutputReported(raw).Some? then OutputReported(raw) else u.output, u.complete)
  {
    match raw {
      case Some(JObj(values)) =>
        assert InputSum(values, 3) == Amount(values, "input_tokens") + Amount(values, "cache_read_input_tokens")
                                      + Amount(values, "cache_creation_input_tokens") by {
          assert InputSum(values, 1) == Amount(values, INPUT_KEYS[0]);
          assert InputSum(values, 2) == InputSum(values, 1) + Amount(values, INPUT_KEYS[1]);
        }
      case _ =>
    }
  }

  ghost predicate StateAfter(alias: string, events: seq<Event>, st: State) {
    && Orderly(events)
    && (st.started <==> Started(events, |events|))
    && (st.ended <==> Ended(events, |events|))
    && st.usage == Usage(LastInput(events), LastOutput(events), Completed(events))
    && (forall i :: 0 <= i < |events| ==> Allowed(events, i) && Good(events[i]))
    && st.out == DeliveredAll(alias, events)
  }

  // ---- One event more

  lemma EarlierUnchanged(events: seq<Event>, e: Event, i: nat)
    requires i <= |events|
    ensures Started(events + [e], i) == Started(events, i)
    ensures Ended(events + [e], i) == Ended(events, i)
    ensures i < |events| ==>
              (Allowed(events + [e], i) <==> Allowed(events, i) && !Is(events[i], MessageStop))
  {
    assert forall j :: 0 <= j < |events| ==> (events + [e])[j] == events[j];
  }

  lemma OrderlySnoc(events: seq<Event>, e: Event)
    ensures Orderly(events + [e]) <==>
            Orderly(events) && !Completed(events) && Allowed(events + [e], |events|)
  {
    var all, n := events + [e], |events|;
    forall i | 0 <= i < n
      ensures Allowed(all, i) <==> Allowed(events, i) && !Is(events[i], MessageStop)
    {
      EarlierUnchanged(events, e, i);
    }
    if Orderly(events) && !Completed(events) && Allowed(all, n) {
      forall i | 0 <= i < |all|
        ensures Allowed(all, i)
      {
        if i < n {
          assert Allowed(events, i);
        }
      }
    }
  }

  lemma StartedSnoc(events: seq<Event>, e: Event)
    ensures Started(events + [e], |events| + 1) <==> Started(events, |events|) || Is(e, MessageStart)
    ensures Ended(events + [e], |events| + 1) <==> Ended(events, |events|) || Ends(e)
  {
    var all := events + [e];
    assert forall j :: 0 <= j < |events| ==> all[j] == events[j];
    assert all[|events|] == e;
  }

  lemma {:induction false} EndedIsStarted(events: seq<Event>)
    requires Orderly(events) && Ended(events, |events|)
    ensures Started(events, |events|)
  {
    var j :| 0 <= j < |events| && Ends(events[j]);
    assert Allowed(events, j);
    var i :| 0 <= i < j && Is(events[i], MessageStart);
  }

  lemma DeliveredSnoc(alias: string, events: seq<Event>, e: Event)
    requires Good(e) && forall i :: 0 <= i < |events| ==> Good(events[i])
    ensures DeliveredAll(alias, events + [e]) == DeliveredAll(alias, events) + [Delivered(alias, e)]
  {
  }

  lemma AccountedSnoc(events: seq<Event>, e: Event)
    ensures LastInput(events + [e]) ==
            if InputReported(Report(e)).Some? then InputReported(Report(e)) else LastInput(events)
    ensures LastOutput(events + [e]) ==
            if OutputReported(Report(e)).Some? then OutputReported(Report(e)) else LastOutput(events)
  {
    assert (events + [e])[..|events|] == events;
  }

  /** What one event does to the flags, the usage and the delivered frames. */
  lemma ApplyStep(cfg: Config, st: State, obj: Fields)
    requires !st.usage.complete && (st.ended ==> st.started)
    ensures
      var e := Some(obj);
      var (next, o) := Apply(cfg, st, obj);
      && (o == Ok <==>
          && Good(e)
          && (Is(e, MessageStart) ==> !st.started)
          && (Is(e, Content) ==> st.started && !st.ended)
          && (Is(e, MessageDelta) ==> st.started)
          && (Is(e, MessageStop) ==> st.ended)
          && cfg.accepts(|st.out|))
      && (o == Ok ==>
            next == State(
              st.started || Is(e, MessageStart),
              st.ended || Ends(e),
              Account(st.usage, Report(e)).0.(complete := Is(e, MessageStop)),
              st.out + [Delivered(cfg.alias, e)]))
  {
    AccountExact(st.usage, Report(Some(obj)));
    if KindOf(obj) == MessageStart {
      var message := Message(st.usage, Get(obj, "message"), cfg.alias).0;
      if message.Some? {
        var sent := obj["message" := JObj(message.value)];
        assert Get(sent, "type") == Get(obj, "type");
      }
    }
  }

  /** One event: it is taken exactly when it is allowed and the client takes it, and is then delivered. */
  lemma ApplyExact(cfg: Config, events: seq<Event>, obj: Fields, st: State)
    requires StateAfter(cfg.alias, events, st) && !Completed(events)
    ensures
      var (next, o) := Apply(cfg, st, obj);
      && (o == Ok <==> Allowed(events + [Some(obj)], |events|) && cfg.accepts(|events|))
      && (o == Ok ==>
            && next.out == st.out + [Delivered(cfg.alias, Some(obj))]
            && next.started == (st.started || Is(Some(obj), MessageStart))
            && next.ended == (st.ended || Ends(Some(obj)))
            && next.usage == Usage(LastInput(events + [Some(obj)]), LastOutput(events + [Some(obj)]),
                                   Is(Some(obj), MessageStop)))
  {
    if st.ended {
      EndedIsStarted(events);
    }
    ApplyStep(cfg, st, obj);
    AccountExact(st.usage, Report(Some(obj)));
    AccountedSnoc(events, Some(obj));
    EarlierUnchanged(events, Some(obj), |events|);
  }

  lemma StateSnoc(cfg: Config, events: seq<Event>, obj: Fields, st: State)
    requires StateAfter(cfg.alias, events, st) && !Completed(events)
    requires Apply(cfg, st, obj).1 == Ok
    ensures StateAfter(cfg.alias, events + [Some(obj)], Apply(cfg, st, obj).0)
  {
    var all, e := events + [Some(obj)], Some(obj);
    ApplyExact(cfg, events, obj, st);
    OrderlySnoc(events, e);
    StartedSnoc(events, e);
    DeliveredSnoc(cfg.alias, events, e);
    assert forall i :: 0 <= i < |all| ==> Allowed(all, i);
  }

  // ---- Whole streams

  function After(cfg: Config, frames: seq<string>): Option<State> {
    Reach(Dispatcher(cfg), IsComplete(), START, frames)
  }

  /** The frames are orderly, the stream was open before the last one, and the client takes every event. */
  ghost predicate Taken(cfg: Config, frames: seq<string>) {
    && Orderly(Events(cfg, frames))
    && (frames != [] ==> !Completed(Events(cfg, frames[..|frames| - 1])))
    && AcceptsFirst(cfg.accepts, |Events(cfg, frames)|)
  }

  lemma TakenSnoc(cfg: Config, before: seq<string>, last: string)
    ensures
      var events := Events(cfg, before);
      Taken(cfg, before + [last]) <==>
      && Taken(cfg, before) && !Completed(events)
      && (last != "" ==>
            Allowed(events + [ResponseObject(cfg.parse(cfg.trim(last)))], |events|) && cfg.accepts(|events|))
  {
    assert (before + [last])[..|before|] == before;
    OrderlySnoc(Events(cfg, before), ResponseObject(cfg.parse(cfg.trim(last))));
    if before != [] {
      OrderlySnoc(Events(cfg, before[..|before| - 1]),
                  ResponseObject(cfg.parse(cfg.trim(before[|before| - 1]))));
    }
  }

  ghost predicate Exact(cfg: Config, frames: seq<string>) {
    && (After(cfg, frames).Some? <==> Taken(cfg, frames))
    && (After(cfg, frames).Some? ==> StateAfter(cfg.alias, Events(cfg, frames), After(cfg, frames).value))
  }

  /** One frame more, dispatched in an open state. */
  lemma DispatchExact(cfg: Config, events: seq<Event>, st: State, last: string)
    requires StateAfter(cfg.alias, events, st) && !Completed(events) && last != ""
    ensures
      var e := ResponseObject(cfg.parse(cfg.trim(last)));
      var (next, o) := Dispatch(cfg, st, last);
      && (o == Ok <==> Allowed(events + [e], |events|) && cfg.accepts(|events|))
      && (o == Ok ==> StateAfter(cfg.alias, events + [e], next))
  {
    var obj := ResponseObject(cfg.parse(cfg.trim(last)));
    if obj.Some? {
      ApplyExact(cfg, events, obj.value, st);
      if Apply(cfg, st, obj.value).1 == Ok {
        StateSnoc(cfg, events, obj.value, st);
      }
    }
  }

  lemma ExactSnoc(cfg: Config, before: seq<string>, last: string)
    requires Exact(cfg, before)
    ensures Exact(cfg, before + [last])
  {
    assert (before + [last])[..|before|] == before;
    TakenSnoc(cfg, before, last);
    if last != "" && After(cfg, before).Some? && !After(cfg, before).value.usage.complete {
      DispatchExact(cfg, Events(cfg, before), After(cfg, before).value, last);
    }
  }

  lemma {:induction false} AfterExact(cfg: Config, frames: seq<string>)
    ensures Exact(cfg, frames)
  {
    if frames != [] {
      var before, last := frames[..|frames| - 1], frames[|frames| - 1];
      assert before + [last] == frames;
      AfterExact(cfg, before);
      ExactSnoc(cfg, before, last);
    }
  }

  /** The first `k` frames are a whole stream that the client takes. */
  ghost predicate WholeStream(cfg: Config, frames: seq<string>, k: nat) {
    k <= |frames| && Taken(cfg, frames[..k]) && Completed(Events(cfg, frames[..k]))
  }

  ghost predicate HoldsWholeStream(cfg: Config, frames: seq<string>) {
    exists k: nat :: WholeStream(cfg, frames, k)
  }

  lemma FailureStaysOpen(cfg: Config, st: State, data: string)
    requires !st.usage.complete && Dispatch(cfg, st, data).1 != Ok
    ensures !Dispatch(cfg, st, data).0.usage.complete
  {
  }

  /** The relay completes in `final` once the first `k` frames are dispatched. */
  ghost predicate CompleteAfter(cfg: Config, frames: seq<string>, k: nat, final: State) {
    CompletesAt(Dispatcher(cfg), IsComplete(), START, frames, k, final)
  }

  lemma CompletionEndsTheRun(cfg: Config, lines: seq<string>, end: Outcome, k: nat, st: State)
    requires end != Ok && CompleteAfter(cfg, Frames(lines, "").0, k, st)
    ensures Scan(cfg, lines, end, "", START) == (st, Ok)
  {
    ScanDispatchesFrames(cfg, lines, end, "", START);
    var (frames, overflow) := Frames(lines, "");
    RunReaches(Dispatcher(cfg), IsComplete(), START, frames, if overflow then ErrResponse else end);
    assert CompletesAt(Dispatcher(cfg), IsComplete(), START, frames, k, st);
  }

  lemma SuccessIsReached(cfg: Config, lines: seq<string>, end: Outcome) returns (k: nat)
    requires end != Ok
    ensures
      var (final, o) := Scan(cfg, lines, end, "", START);
      && (o == Ok || final.usage.complete ==> CompleteAfter(cfg, Frames(lines, "").0, k, final))
  {
    ScanDispatchesFrames(cfg, lines, end, "", START);
    var (frames, overflow) := Frames(lines, "");
    var (final, o) := Scan(cfg, lines, end, "", START);
    RunReaches(Dispatcher(cfg), IsComplete(), START, frames, if overflow then ErrResponse else end);
    if o == Ok {
      var n: nat, st :| CompletesAt(Dispatcher(cfg), IsComplete(), START, frames, n, st);
      k := n;
    } else {
      k :| StopsAt(Dispatcher(cfg), IsComplete(), START, frames, k, final);
      var st := After(cfg, frames[..k]).value;
      if k < |frames| && !st.usage.complete && Dispatch(cfg, st, frames[k]).1 != Ok {
        FailureStaysOpen(cfg, st, frames[k]);
      }
    }
  }

  lemma WholeStreamCompletes(cfg: Config, frames: seq<string>, k: nat, final: State)
    requires k <= |frames|
    ensures CompleteAfter(cfg, frames, k, final) ==> WholeStream(cfg, frames, k)
    ensures WholeStream(cfg, frames, k) ==>
              && After(cfg, frames[..k]).Some?
              && CompleteAfter(cfg, frames, k, After(cfg, frames[..k]).value)
              && After(cfg, frames[..k]).value.usage.complete
              && StateAfter(cfg.alias, Events(cfg, frames[..k]), After(cfg, frames[..k]).value)
  {
    AfterExact(cfg, frames[..k]);
  }

  /**
   Whenever the frames begin with a whole stream, for all lines, endings and
   patterns of emit failures: the relay succeeds, has delivered that stream's
   events in order with only message_start's model replaced, and has accounted the
   sum of the last input report and the last output report.
   */
  lemma WholeStreamSucceeds(cfg: Config, lines: seq<string>, end: Outcome, k: nat)
    requires end != Ok && WholeStream(cfg, Frames(lines, "").0, k)
    ensures
      var (final, o) := Scan(cfg, lines, end, "", START);
      o == Ok && StateAfter(cfg.alias, Events(cfg, Frames(lines, "").0[..k]), final)
  {
    var st := After(cfg, Frames(lines, "").0[..k]);
    WholeStreamCompletes(cfg, Frames(lines, "").0, k, START);
    CompletionEndsTheRun(cfg, lines, end, k, st.value);
  }

  /** The relay succeeds, and marks usage complete, only on a whole stream. */
  lemma OnlyWholeStreamsSucceed(cfg: Config, lines: seq<string>, end: Outcome) returns (k: nat)
    requires end != Ok
    requires var (final, o) := Scan(cfg, lines, end, "", START); o == Ok || final.usage.complete
    ensures WholeStream(cfg, Frames(lines, "").0, k)
  {
    k := SuccessIsReached(cfg, lines, end);
    WholeStreamCompletes(cfg, Frames(lines, "").0, k, Scan(cfg, lines, end, "", START).0);
  }

  /** Success and completeness are one and the same, and both mean a whole stream. */
  lemma NativeStreamExact(cfg: Config, lines: seq<string>, end: Outcome)
    requires end != Ok
    ensures
      var (final, o) := Scan(cfg, lines, end, "", START);
      (o == Ok <==> final.usage.complete) && (o == Ok <==> HoldsWholeStream(cfg, Frames(lines, "").0))
  {
    var (final, o) := Scan(cfg, lines, end, "", START);
    var frames := Frames(lines, "").0;
    if o == Ok || final.usage.complete {
      var k := OnlyWholeStreamsSucceed(cfg, lines, end);
      WholeStreamSucceeds(cfg, lines, end, k);
      assert WholeStream(cfg, frames, k);
      assert HoldsWholeStream(cfg, frames);
    } else if k: nat :| WholeStream(cfg, frames, k) {
      WholeStreamSucceeds(cfg, lines, end, k);
    }
  }

  // ---- Usage of every run, complete or not

  function EventOf(cfg: Config, data: string): Event {
    ResponseObject(cfg.parse(cfg.trim(data)))
  }

  /** A known counter fits an int64 and is what one of the frames reports. */
  ghost predicate Backed(cfg: Config, frames: seq<string>, u: Usage) {
    && InRange(u.input) && InRange(u.output)
    && (u.input.Some? ==>
          exists i :: 0 <= i < |frames| && InputReported(Report(EventOf(cfg, frames[i]))) == u.input)
    && (u.output.Some? ==>
          exists i :: 0 <= i < |frames| && OutputReported(Report(EventOf(cfg, frames[i]))) == u.output)
  }

  /** Each counter is kept or becomes what the report gives, also when the report is refused. */
  predicate Moves(u: Usage, v: Usage, raw: Option<Json>) {
    && (v.input == u.input || (v.input == InputReported(raw) && v.input.Some? && InRange(v.input)))
    && (v.output == u.output || (v.output == OutputReported(raw) && v.output.Some? && InRange(v.output)))
  }

  lemma AccountMoves(u: Usage, raw: Option<Json>)
    ensures Moves(u, Account(u, raw).0, raw)
  {
    match raw {
      case Some(JObj(values)) =>
        assert InputSum(values, 1) == Amount(values, INPUT_KEYS[0]);
        assert InputSum(values, 2) == InputSum(values, 1) + Amount(values, INPUT_KEYS[1]);
      case _ =>
    }
  }

  lemma ApplyMoves(cfg: Config, st: State, obj: Fields)
    ensures Moves(st.usage, Apply(cfg, st, obj).0.usage, Report(Some(obj)))
  {
    AccountMoves(st.usage, Report(Some(obj)));
  }

  lemma DispatchMoves(cfg: Config, st: State, data: string)
    ensures Moves(st.usage, Dispatch(cfg, st, data).0.usage, Report(EventOf(cfg, data)))
  {
    if EventOf(cfg, data).Some? {
      ApplyMoves(cfg, st, EventOf(cfg, data).value);
    }
  }

  lemma {:induction false} RunIsBacked(cfg: Config, frames: seq<string>, i: nat, end: Outcome, st: State)
    requires i <= |frames| && Backed(cfg, frames, st.usage)
    ensures Backed(cfg, frames, RunAll(Dispatcher(cfg), IsComplete(), frames[i..], end, st).0.usage)
    decreases |frames| - i
  {
    if i < |frames| {
      DispatchMoves(cfg, st, frames[i]);
      var next := Dispatch(cfg, st, frames[i]).0;
      assert Backed(cfg, frames, next.usage);
      assert frames[i..][1..] == frames[i + 1..];
      RunIsBacked(cfg, frames, i + 1, end, next);
    }
  }

  /**
   For all lines, endings and patterns of emit failures, however the relay ends: a
   known counter is the one an upstream frame reports, input being the exact sum of
   its three counters, and lies within int64; what nobody reports stays unknown.
   */
  lemma UsageIsNeverGuessed(cfg: Config, lines: seq<string>, end: Outcome)
    ensures Backed(cfg, Frames(lines, "").0, Scan(cfg, lines, end, "", START).0.usage)
  {
    var (frames, overflow) := Frames(lines, "");
    ScanDispatchesFrames(cfg, lines, end, "", START);
    assert frames[0..] == frames;
    RunIsBacked(cfg, frames, 0, if overflow then ErrResponse else end, START);
  }

  /**
   And of a run that stops after the first `k` frames, however it ends: each counter
   is the last one the events taken report, or what the frame it failed on reports.
   */
  lemma UsageOfEveryRun(cfg: Config, lines: seq<string>, end: Outcome) returns (k: nat)
    requires end != Ok
    ensures
      var frames, u := Frames(lines, "").0, Scan(cfg, lines, end, "", START).0.usage;
      && k <= |frames| && Taken(cfg, frames[..k])
      && var events := Events(cfg, frames[..k]);
         var failed := if k < |frames| then Report(EventOf(cfg, frames[k])) else None;
         && (u.input == LastInput(events) || (u.input.Some? && u.input == InputReported(failed)))
         && (u.output == LastOutput(events) || (u.output.Some? && u.output == OutputReported(failed)))
  {
    var (frames, overflow) := Frames(lines, "");
    var (final, o) := Scan(cfg, lines, end, "", START);
    ScanDispatchesFrames(cfg, lines, end, "", START);
    RunReaches(Dispatcher(cfg), IsComplete(), START, frames, if overflow then ErrResponse else end);
    k :| StopsAt(Dispatcher(cfg), IsComplete(), START, frames, k, final);
    AfterExact(cfg, frames[..k]);
    var st := After(cfg, frames[..k]).value;
    if final != st {
      DispatchMoves(cfg, st, frames[k]);
    }
  }
}
