/**
 `RelaySSE` and `RewriteJSON` for the OpenAI-compatible and Anthropic protocols.

 The reader is the sequence of lines its scanner yields plus how scanning ends.
 `trim` and `parse` stand for trimming and JSON parsing and are arbitrary, so
 every result holds for all of them. Delivered frames are kept as values: their
 constant members and the `created` timestamp are not part of the model.
 */
module Relay {
  import opened Options
  import opened Json
  import opened Streams

  datatype Protocol = OpenAi | Anthropic

  datatype Frame =
    | Chunk(id: string, model: string, delta: map<string, string>, reason: Option<string>)
    | Relayed(payload: Fields)
    | DoneMark

  datatype Config = Config(
    protocol: Protocol,
    alias: string,
    trim: string -> string,
    parse: string -> Option<Json>,
    accepts: nat -> bool)

  datatype State = State(id: string, started: bool, finished: bool, usage: Usage, out: seq<Frame>)

  const START := State("", false, false, UNKNOWN, [])

  function FinishReason(reason: string): Option<string> {
    match reason
    case "end_turn" => Some("stop")
    case "stop_sequence" => Some("stop")
    case "max_tokens" => Some("length")
    case "refusal" => Some("content_filter")
    case _ => None
  }

  // ---- Anthropic events

  /** One Anthropic event as the relay reads it; `Malformed` is rejected wherever it occurs. */
  datatype Event =
    | Ping
    | MessageStart(id: string, startUsage: Option<Json>)
    | BlockStart(text: string)
    | BlockDelta(text: string)
    | BlockStop
    | MessageDelta(stop: string, deltaUsage: Option<Json>)
    | MessageStop
    | Malformed

  /** The text of a content part of the wanted type. */
  function TextPart(raw: Option<Json>, kind: string): Option<string> {
    match raw
    case Some(JObj(part)) =>
      if StringField(part, "type") == Some(kind) then StringField(part, "text") else None
    case _ => None
  }

  /** The stop reason of a delta; one that does not decode is as unacceptable as an empty one. */
  function StopReason(raw: Option<Json>): string {
    match raw
    case Some(JObj(delta)) => (match StringField(delta, "stop_reason") case Some(stop) => stop case None => "")
    case _ => ""
  }

  function DecodeEvent(obj: Fields): Event {
    match AsString(Get(obj, "type"))
    case Some("ping") => Ping
    case Some("message_start") =>
      (match ResponseObject(Get(obj, "message"))
       case Some(message) =>
         (match AsString(Get(message, "id"))
          case Some(id) => MessageStart(id, Get(message, "usage"))
          case None => Malformed)
       case None => Malformed)
    case Some("content_block_start") =>
      (match TextPart(Get(obj, "content_block"), "text") case Some(t) => BlockStart(t) case None => Malformed)
    case Some("content_block_delta") =>
      (match TextPart(Get(obj, "delta"), "text_delta") case Some(t) => BlockDelta(t) case None => Malformed)
    case Some("content_block_stop") => BlockStop
    case Some("message_delta") => MessageDelta(StopReason(Get(obj, "delta")), Get(obj, "usage"))
    case Some("message_stop") => MessageStop
    case _ => Malformed
  }

  // ---- Specification of one dispatch

  function Emit(accepts: nat -> bool, st: State, frame: Frame): (State, Outcome) {
    if accepts(|st.out|) then (st.(out := st.out + [frame]), Ok) else (st, ErrEmit)
  }

  function Send(cfg: Config, st: State, delta: map<string, string>, reason: Option<string>): (State, Outcome) {
    Emit(cfg.accepts, st, Chunk(st.id, cfg.alias, delta, reason))
  }

  function Finish(cfg: Config, st: State): (State, Outcome) {
    var (sent, o) := Emit(cfg.accepts, st, DoneMark);
    (if o == Ok then sent.(usage := sent.usage.(complete := true)) else sent, o)
  }

  function ApplyEvent(cfg: Config, st: State, e: Event): (State, Outcome) {
    match e
    case Ping => (st, Ok)
    case MessageStart(id, usage) =>
      if st.started then (st, ErrResponse) else
      Send(cfg, st.(started := true, id := id, usage := Observe(st.usage, usage, "input_tokens", "output_tokens")),
           map["role" := "assistant", "content" := ""], None)
    case BlockStart(text) =>
      if !st.started then (st, ErrResponse)
      else if text != "" then Send(cfg, st, map["content" := text], None)
      else (st, Ok)
    case BlockDelta(text) =>
      if !st.started then (st, ErrResponse) else Send(cfg, st, map["content" := text], None)
    case BlockStop => (st, Ok)
    case MessageDelta(stop, usage) =>
      if !st.started then (st, ErrResponse) else
      var seen := st.(usage := Observe(st.usage, usage, "input_tokens", "output_tokens"));
      if FinishReason(stop).None? then (seen, ErrResponse)
      else Send(cfg, seen.(finished := true), map[], FinishReason(stop))
    case MessageStop => if !st.finished then (st, ErrResponse) else Finish(cfg, st)
    case Malformed => (st, ErrResponse)
  }

  /** One object of an OpenAI-compatible stream. */
  function ApplyObject(cfg: Config, st: State, obj: Fields): (State, Outcome) {
    var seen := st.(usage := Observe(st.usage, Get(obj, "usage"), "prompt_tokens", "completion_tokens"));
    if AsArray(Get(obj, "choices")).None? then (seen, ErrResponse)
    else Emit(cfg.accepts, seen.(started := true), Relayed(obj["model" := JStr(cfg.alias)]))
  }

  function Dispatch(cfg: Config, st: State, frame: string): (State, Outcome) {
    var data := cfg.trim(frame);
    if data == "" then (st, Ok)
    else if cfg.protocol == OpenAi && data == "[DONE]" then
      if !st.started then (st, ErrResponse) else Finish(cfg, st)
    else
      match ResponseObject(cfg.parse(data))
      case None => (st, ErrResponse)
      case Some(obj) =>
        if cfg.protocol == OpenAi then ApplyObject(cfg, st, obj)
        else ApplyEvent(cfg, st, DecodeEvent(obj))
  }

  // ---- Specification of the scan loop

  /** The value of a `data:` line, one leading space removed. */
  function DataValue(line: string): string
    requires IsData(line)
  {
    if HasPrefix(line[5..], " ") then line[6..] else line[5..]
  }

  function Grow(frame: string, line: string): string
    requires IsData(line)
  {
    (if |frame| > 0 then frame + "\n" else frame) + DataValue(line)
  }

  function Scan(cfg: Config, lines: seq<string>, end: Outcome, frame: string, st: State): (State, Outcome) {
    if lines == [] then (st, end)
    else if lines[0] == "" then
      var (next, o) := Dispatch(cfg, st, frame);
      if o != Ok || next.usage.complete then (next, o)
      else Scan(cfg, lines[1..], end, "", next)
    else if IsData(lines[0]) then
      var grown := Grow(frame, lines[0]);
      if |grown| > MAX_FRAME then (st, ErrResponse) else Scan(cfg, lines[1..], end, grown, st)
    else Scan(cfg, lines[1..], end, frame, st)
  }

  // ---- The relay itself

  /** The variables the dispatch closure captures. */
  class RelayRun {
    const cfg: Config
    const u: Meter
    const sink: Sink<Frame>
    var id: string
    var started: bool
    var finished: bool

    constructor (cfg: Config, u: Meter, sink: Sink<Frame>)
      requires sink.accepts == cfg.accepts
      ensures this.cfg == cfg && this.u == u && this.sink == sink
      ensures Valid() && Value() == START.(usage := u.Value(), out := sink.frames)
    {
      this.cfg, this.u, this.sink := cfg, u, sink;
      id, started, finished := "", false, false;
    }

    ghost predicate Valid() {
      sink.accepts == cfg.accepts
    }

    ghost function Value(): State
      reads this, u, sink
    {
      State(id, started, finished, u.Value(), sink.frames)
    }

    method SendChunk(delta: map<string, string>, reason: Option<string>) returns (o: Outcome)
      requires Valid()
      modifies sink
      ensures (Value(), o) == Send(cfg, old(Value()), delta, reason)
    {
      var ok := sink.Emit(Chunk(id, cfg.alias, delta, reason));
      o := if ok then Ok else ErrEmit;
    }

    method FinishStream() returns (o: Outcome)
      requires Valid()
      modifies u, sink
      ensures (Value(), o) == Finish(cfg, old(Value()))
    {
      var ok := sink.Emit(DoneMark);
      if !ok {
        return ErrEmit;
      }
      u.complete := true;
      o := Ok;
    }

    method DispatchOpenAi(data: string) returns (o: Outcome)
      requires Valid() && cfg.protocol == OpenAi && data != ""
      modifies this, u, sink
      ensures forall frame :: cfg.trim(frame) == data ==> (Value(), o) == Dispatch(cfg, old(Value()), frame)
    {
      if data == "[DONE]" {
        if !started {
          return ErrResponse;
        }
        o := FinishStream();
        return;
      }
      var obj := ResponseObject(cfg.parse(data));
      if obj.None? {
        return ErrResponse;
      }
      ObserveUsage(obj.value, u, false);
      if AsArray(Get(obj.value, "choices")).None? {
        return ErrResponse;
      }
      started := true;
      var ok := sink.Emit(Relayed(obj.value["model" := JStr(cfg.alias)]));
      o := if ok then Ok else ErrEmit;
    }

    method DispatchAnthropic(obj: Fields) returns (o: Outcome)
      requires Valid()
      modifies this, u, sink
      ensures (Value(), o) == ApplyEvent(cfg, old(Value()), DecodeEvent(obj))
    {
      var kind := AsString(Get(obj, "type"));
      if kind.None? {
        return ErrResponse;
      }
      match kind.value {
        case "ping" =>
          o := Ok;
        case "message_start" =>
          var message := ResponseObject(Get(obj, "message"));
          if started || message.None? {
            return ErrResponse;
          }
          var name := AsString(Get(message.value, "id"));
          if name.None? {
            return ErrResponse;
          }
          started, id := true, name.value;
          ObserveUsage(message.value, u, true);
          o := SendChunk(map["role" := "assistant", "content" := ""], None);
        case "content_block_start" =>
          var text := TextPart(Get(obj, "content_block"), "text");
          if !started || text.None? {
            return ErrResponse;
          }
          if text.value != "" {
            o := SendChunk(map["content" := text.value], None);
          } else {
            o := Ok;
          }
        case "content_block_delta" =>
          var text := TextPart(Get(obj, "delta"), "text_delta");
          if !started || text.None? {
            return ErrResponse;
          }
          o := SendChunk(map["content" := text.value], None);
        case "content_block_stop" =>
          o := Ok;
        case "message_delta" =>
          if !started {
            return ErrResponse;
          }
          ObserveUsage(obj, u, true);
          var reason := FinishReason(StopReason(Get(obj, "delta")));
          if reason.None? {
            return ErrResponse;
          }
          finished := true;
          o := SendChunk(map[], reason);
        case "message_stop" =>
          if !finished {
            return ErrResponse;
          }
          o := FinishStream();
        case _ =>
          o := ErrResponse;
      }
    }

    method DispatchFrame(frame: string) returns (o: Outcome)
      requires Valid()
      modifies this, u, sink
      ensures (Value(), o) == Dispatch(cfg, old(Value()), frame)
    {
      var data := cfg.trim(frame);
      if data == "" {
        return Ok;
      }
      if cfg.protocol == OpenAi {
        o := DispatchOpenAi(data);
        return;
      }
      var obj := ResponseObject(cfg.parse(data));
      if obj.None? {
        return ErrResponse;
      }
      o := DispatchAnthropic(obj.value);
    }
  }

  /** The scan loop of `RelaySSE`; `scanError` says whether scanning ends in an error. */
  method RelaySse(lines: seq<string>, scanError: bool, cfg: Config, u: Meter, sink: Sink<Frame>) returns (o: Outcome)
    requires sink.accepts == cfg.accepts
    modifies u, sink
    ensures
      var (final, outcome) :=
        Scan(cfg, lines, if scanError then ErrScan else ErrResponse, "",
             START.(usage := old(u.Value()), out := old(sink.frames)));
      o == outcome && u.Value() == final.usage && sink.frames == final.out
  {
    var run := new RelayRun(cfg, u, sink);
    var frame := "";
    ghost var end := if scanError then ErrScan else ErrResponse;
    ghost var begin := run.Value();
    for i := 0 to |lines|
      invariant run.Valid() && run.u == u && run.sink == sink && run.cfg == cfg
      invariant Scan(cfg, lines, end, "", begin) == Scan(cfg, lines[i..], end, frame, run.Value())
    {
      var line := lines[i];
      assert lines[i..][1..] == lines[i + 1..];
      if line == "" {
        o := run.DispatchFrame(frame);
        if o != Ok {
          return;
        }
        frame := "";
        if u.complete {
          return;
        }
      } else if IsData(line) {
        frame := Grow(frame, line);
        if |frame| > MAX_FRAME {
          return ErrResponse;
        }
      }
    }
    o := if scanError then ErrScan else ErrResponse;
  }

  // ---- The non-streaming rewrite of an Anthropic message

  /** A chat completion; `usage` is prompt, completion and total tokens. */
  datatype Completion = Completion(
    id: string, model: string, text: string, reason: string, usage: Option<(int, int, int)>)

  /** Addition of two int64 values, which wraps around. */
  function AddInt64(a: int, b: int): int {
    var sum := (a + b) % 0x1_0000_0000_0000_0000;
    if sum > MAX_INT64 then sum - 0x1_0000_0000_0000_0000 else sum
  }

  /** The concatenated texts of a content list that holds text blocks only. */
  function TextOf(items: seq<Json>): Option<string> {
    if items == [] then Some("")
    else
      match (TextOf(items[..|items| - 1]), TextPart(Some(items[|items| - 1]), "text"))
      case (Some(before), Some(last)) => Some(before + last)
      case _ => None
  }

  /** Decodes the content of a message; a missing or null list is empty. */
  function ContentItems(message: Fields): Option<seq<Json>> {
    if "content" !in message then Some([])
    else match message["content"]
         case JNull => Some([])
         case JArr(items) => Some(items)
         case _ => None
  }

  function UsageTotals(u: Usage): Option<(int, int, int)> {
    if u.input.Some? && u.output.Some?
    then Some((u.input.value, u.output.value, AddInt64(u.input.value, u.output.value)))
    else None
  }

  /** The completion of a whole message and the usage it leaves; `None` is `ErrResponse`. */
  function Rewrite(raw: Option<Json>, alias: string, u: Usage): (Option<Completion>, Usage) {
    match ResponseObject(raw)
    case None => (None, u)
    case Some(message) =>
      var seen := Observe(u, Get(message, "usage"), "input_tokens", "output_tokens");
      match (StringField(message, "id"), ContentItems(message), StringField(message, "stop_reason"))
      case (Some(id), Some(items), Some(stop)) =>
        (match (TextOf(items), FinishReason(stop))
         case (Some(text), Some(reason)) =>
           (Some(Completion(id, alias, text, reason, UsageTotals(seen))), seen.(complete := true))
         case _ => (None, seen))
      case _ => (None, seen)
  }

  lemma {:induction false} TextOfPrefix(items: seq<Json>, k: nat)
    requires k <= |items| && TextOf(items[..k]).None?
    ensures TextOf(items).None?
    decreases |items| - k
  {
    if k == |items| {
      assert items[..k] == items;
    } else {
      assert items[..k + 1][..k] == items[..k];
      TextOfPrefix(items, k + 1);
    }
  }

  method RewriteJson(raw: Option<Json>, alias: string, u: Meter) returns (r: Option<Completion>)
    modifies u
    ensures (r, u.Value()) == Rewrite(raw, alias, old(u.Value()))
  {
    var message := ResponseObject(raw);
    if message.None? {
      return None;
    }
    ObserveUsage(message.value, u, true);
    var id, items, stop := StringField(message.value, "id"), ContentItems(message.value), StringField(message.value, "stop_reason");
    if id.None? || items.None? || stop.None? {
      return None;
    }
    var text := "";
    for i := 0 to |items.value|
      invariant TextOf(items.value[..i]) == Some(text)
    {
      var part := TextPart(Some(items.value[i]), "text");
      assert items.value[..i + 1][..i] == items.value[..i];
      if part.None? {
        TextOfPrefix(items.value, i + 1);
        return None;
      }
      text := text + part.value;
    }
    assert items.value[..|items.value|] == items.value;
    var reason := FinishReason(stop.value);
    if reason.None? {
      return None;
    }
    r := Some(Completion(id.value, alias, text, reason.value, UsageTotals(u.Value())));
    u.complete := true;
  }
}
