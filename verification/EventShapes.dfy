/**
 Anthropic events as JSON: what an object must hold to be an event, said by its
 members alone. The relays' decoders are shown to read exactly these shapes, in
 both directions, and to read back every event as the protocol writes it.
 */
module EventShapes {
  import opened Options
  import opened Json
  import opened Streams
  import opened Relay
  import RelayTheorems
  import NativeRelay

  // ---- Members of an object

  /** The object has the string under the name. */
  predicate Has(obj: Fields, name: string, s: string) {
    name in obj && obj[name] == JStr(s)
  }

  /** The member is absent or null. */
  predicate Lacks(obj: Fields, name: string) {
    name !in obj || obj[name] == JNull
  }

  /** The object reads as the string: it has it, or lacks it and the string is empty. */
  predicate Reads(obj: Fields, name: string, s: string) {
    Has(obj, name, s) || (Lacks(obj, name) && s == "")
  }

  /** The object has an object under the name. */
  predicate HasObject(obj: Fields, name: string) {
    name in obj && obj[name].JObj?
  }

  function Member(obj: Fields, name: string): Option<Json> {
    if name in obj then Some(obj[name]) else None
  }

  // ---- Events of the translating relay

  /** A content part of a type, with its text. */
  predicate ShowsPart(part: Fields, kind: string, text: string) {
    Has(part, "type", kind) && Reads(part, "text", text)
  }

  /** A message_start's message: an id, which may be null, no error, and perhaps a usage report. */
  predicate ShowsStart(message: Fields, id: string, report: Option<Json>) {
    && "error" !in message && report == Member(message, "usage")
    && (Has(message, "id", id) || (id == "" && "id" in message && message["id"] == JNull))
  }

  /** A delta's stop reason; one that is not a string counts as empty. */
  predicate ShowsStop(obj: Fields, stop: string) {
    if HasObject(obj, "delta") && (Lacks(obj["delta"].fields, "stop_reason") || obj["delta"].fields["stop_reason"].JStr?)
    then Reads(obj["delta"].fields, "stop_reason", stop)
    else stop == ""
  }

  /** The object is the event. */
  predicate Shows(obj: Fields, e: Event) {
    match e
    case Ping => Has(obj, "type", "ping")
    case MessageStart(id, report) =>
      Has(obj, "type", "message_start") && HasObject(obj, "message") && ShowsStart(obj["message"].fields, id, report)
    case BlockStart(text) =>
      && Has(obj, "type", "content_block_start") && HasObject(obj, "content_block")
      && ShowsPart(obj["content_block"].fields, "text", text)
    case BlockDelta(text) =>
      && Has(obj, "type", "content_block_delta") && HasObject(obj, "delta")
      && ShowsPart(obj["delta"].fields, "text_delta", text)
    case BlockStop => Has(obj, "type", "content_block_stop")
    case MessageDelta(stop, report) =>
      Has(obj, "type", "message_delta") && ShowsStop(obj, stop) && report == Member(obj, "usage")
    case MessageStop => Has(obj, "type", "message_stop")
    case Malformed => false
  }

  lemma StringsRead(obj: Fields, name: string, s: string)
    ensures StringField(obj, name) == Some(s) <==> Reads(obj, name, s)
    ensures s != "" ==> (AsString(Get(obj, name)) == Some(s) <==> Has(obj, name, s))
  {
  }

  lemma PartsRead(obj: Fields, name: string, kind: string, text: string)
    requires kind != ""
    ensures TextPart(Get(obj, name), kind) == Some(text) <==> HasObject(obj, name) && ShowsPart(obj[name].fields, kind, text)
  {
    if HasObject(obj, name) {
      StringsRead(obj[name].fields, "type", kind);
      StringsRead(obj[name].fields, "text", text);
    }
  }

  lemma StopRead(obj: Fields, stop: string)
    ensures StopReason(Get(obj, "delta")) == stop <==> ShowsStop(obj, stop)
  {
    if HasObject(obj, "delta") {
      StringsRead(obj["delta"].fields, "stop_reason", stop);
    }
  }

  lemma StartRead(obj: Fields, id: string, report: Option<Json>)
    ensures
      var message := ResponseObject(Get(obj, "message"));
      && (message.Some? && AsString(Get(message.value, "id")) == Some(id) && Get(message.value, "usage") == report
          <==> HasObject(obj, "message") && ShowsStart(obj["message"].fields, id, report))
  {
  }

  /** The type an event is announced by. */
  function TypeOf(e: Event): string {
    match e
    case Ping => "ping"
    case MessageStart(_, _) => "message_start"
    case BlockStart(_) => "content_block_start"
    case BlockDelta(_) => "content_block_delta"
    case BlockStop => "content_block_stop"
    case MessageDelta(_, _) => "message_delta"
    case MessageStop => "message_stop"
    case Malformed => ""
  }

  lemma TypesRead(obj: Fields, e: Event)
    requires !e.Malformed?
    ensures DecodeEvent(obj) == e ==> Has(obj, "type", TypeOf(e))
    ensures Shows(obj, e) ==> Has(obj, "type", TypeOf(e))
  {
    StringsRead(obj, "type", TypeOf(e));
  }

  /** The relay decodes an object as an event exactly when the object is that event. */
  lemma DecodedExactly(obj: Fields, e: Event)
    requires !e.Malformed?
    ensures DecodeEvent(obj) == e <==> Shows(obj, e)
  {
    TypesRead(obj, e);
    match e {
      case MessageStart(id, report) => StartRead(obj, id, report);
      case BlockStart(text) => PartsRead(obj, "content_block", "text", text);
      case BlockDelta(text) => PartsRead(obj, "delta", "text_delta", text);
      case MessageDelta(stop, _) => StopRead(obj, stop);
      case _ =>
    }
  }

  // ---- Events as the protocol writes them

  function UsageMember(report: Option<Json>): Fields {
    match report case Some(usage) => map["usage" := usage] case None => map[]
  }

  function EventJson(e: Event): Fields
    requires !e.Malformed?
  {
    match e
    case Ping => map["type" := JStr("ping")]
    case MessageStart(id, report) =>
      map["type" := JStr("message_start"), "message" := JObj(map["id" := JStr(id)] + UsageMember(report))]
    case BlockStart(text) =>
      map["type" := JStr("content_block_start"),
          "content_block" := JObj(map["type" := JStr("text"), "text" := JStr(text)])]
    case BlockDelta(text) =>
      map["type" := JStr("content_block_delta"),
          "delta" := JObj(map["type" := JStr("text_delta"), "text" := JStr(text)])]
    case BlockStop => map["type" := JStr("content_block_stop")]
    case MessageDelta(stop, report) =>
      map["type" := JStr("message_delta"), "delta" := JObj(map["stop_reason" := JStr(stop)])] + UsageMember(report)
    case MessageStop => map["type" := JStr("message_stop")]
  }

  /** Every event is read back from what the protocol writes for it, which is no error. */
  lemma EventRoundTrip(e: Event)
    requires !e.Malformed?
    ensures DecodeEvent(EventJson(e)) == e && "error" !in EventJson(e)
  {
    assert Shows(EventJson(e), e);
    DecodedExactly(EventJson(e), e);
  }

  // ---- Streams of such objects

  /** The frame holds the event: it is not blank and parses to an object that is no error and is the event. */
  predicate FrameShows(cfg: Config, frame: string, e: Event) {
    && cfg.trim(frame) != ""
    && cfg.parse(cfg.trim(frame)).Some? && cfg.parse(cfg.trim(frame)).value.JObj?
    && "error" !in cfg.parse(cfg.trim(frame)).value.fields
    && Shows(cfg.parse(cfg.trim(frame)).value.fields, e)
  }

  /** The frames hold the events, in order; blank frames may stand between them. */
  predicate StreamShows(cfg: Config, frames: seq<string>, events: seq<Event>) {
    if frames == [] then events == []
    else
      var n := |frames| - 1;
      if cfg.trim(frames[n]) == "" then StreamShows(cfg, frames[..n], events)
      else
        && events != [] && FrameShows(cfg, frames[n], events[|events| - 1])
        && StreamShows(cfg, frames[..n], events[..|events| - 1])
  }

  lemma FrameIsRead(cfg: Config, frame: string, e: Event)
    requires FrameShows(cfg, frame, e)
    ensures RelayTheorems.EventOf(cfg, frame) == e
  {
    DecodedExactly(cfg.parse(cfg.trim(frame)).value.fields, e);
  }

  /** Such a stream is the sequence of its events to the relay. */
  lemma {:induction false} StreamIsRead(cfg: Config, frames: seq<string>, events: seq<Event>)
    requires StreamShows(cfg, frames, events)
    ensures RelayTheorems.Events(cfg, frames) == events
  {
    if frames != [] {
      var n := |frames| - 1;
      if cfg.trim(frames[n]) == "" {
        StreamIsRead(cfg, frames[..n], events);
      } else {
        var m := |events| - 1;
        StreamIsRead(cfg, frames[..n], events[..m]);
        FrameIsRead(cfg, frames[n], events[m]);
        assert events == events[..m] + [events[m]];
      }
    }
  }

  // ---- Whole messages

  /** The item is a text block. */
  predicate ShowsBlock(item: Json, text: string) {
    item.JObj? && ShowsPart(item.fields, "text", text)
  }

  /** The object is a message of the id, of text blocks only, ended for the reason. */
  predicate ShowsMessage(message: Fields, id: string, texts: seq<string>, stop: string) {
    && "error" !in message && Reads(message, "id", id) && Reads(message, "stop_reason", stop)
    && (if Lacks(message, "content") then texts == []
        else
          && message["content"].JArr? && |message["content"].items| == |texts|
          && forall i :: 0 <= i < |texts| ==> ShowsBlock(message["content"].items[i], texts[i]))
  }

  function Concat(texts: seq<string>): string {
    if texts == [] then "" else Concat(texts[..|texts| - 1]) + texts[|texts| - 1]
  }

  lemma {:induction false} BlocksRead(items: seq<Json>, texts: seq<string>)
    requires |items| == |texts| && forall i :: 0 <= i < |texts| ==> ShowsBlock(items[i], texts[i])
    ensures TextOf(items) == Some(Concat(texts))
  {
    if texts != [] {
      var n := |texts| - 1;
      BlocksRead(items[..n], texts[..n]);
      StringsRead(items[n].fields, "type", "text");
      StringsRead(items[n].fields, "text", texts[n]);
    }
  }

  /** The members `RewriteJSON` decodes of such a message. */
  lemma MessageRead(message: Fields, id: string, texts: seq<string>, stop: string)
    requires ShowsMessage(message, id, texts, stop)
    ensures StringField(message, "id") == Some(id) && StringField(message, "stop_reason") == Some(stop)
    ensures ContentItems(message).Some? && TextOf(ContentItems(message).value) == Some(Concat(texts))
  {
    StringsRead(message, "id", id);
    StringsRead(message, "stop_reason", stop);
    BlocksRead(ContentItems(message).value, texts);
  }

  // ---- Stop reasons and counters

  /** The finish reason of each stop reason; any other is refused. */
  lemma FinishReasonTable(stop: string, reason: string)
    ensures FinishReason(stop) == Some(reason) <==>
            || (reason == "stop" && (stop == "end_turn" || stop == "stop_sequence"))
            || (reason == "length" && stop == "max_tokens")
            || (reason == "content_filter" && stop == "refusal")
  {
  }

  /** A usage report sets a counter exactly when it has it as an integer from 0 to 2^63 - 1. */
  lemma CounterIsSet(u: Usage, report: Option<Json>, input: string, output: string)
    ensures
      var seen := Observe(u, report, input, output);
      var has := (name: string, n: int) =>
        && report.Some? && report.value.JObj? && name in report.value.fields
        && report.value.fields[name] == JInt(n) && 0 <= n < 0x8000_0000_0000_0000;
      && (forall n :: has(input, n) ==> seen.input == Some(n))
      && ((forall n :: !has(input, n)) ==> seen.input == u.input)
      && (forall n :: has(output, n) ==> seen.output == Some(n))
      && ((forall n :: !has(output, n)) ==> seen.output == u.output)
      && seen.complete == u.complete
  {
    match report {
      case Some(JObj(fields)) =>
        CounterExact(fields, input);
        CounterExact(fields, output);
      case _ =>
    }
  }

  lemma CounterExact(fields: Fields, name: string)
    ensures forall n :: Counter(Get(fields, name)) == Some(n) <==>
              name in fields && fields[name] == JInt(n) && 0 <= n < 0x8000_0000_0000_0000
  {
  }

  // ---- Events of the native relay

  /** The kind of a native event is its type, and it is delivered under that name. */
  lemma NativeKinds(obj: Fields)
    ensures NativeRelay.KindOf(obj) == NativeRelay.Ping <==> Has(obj, "type", "ping")
    ensures NativeRelay.KindOf(obj) == NativeRelay.MessageStart <==> Has(obj, "type", "message_start")
    ensures NativeRelay.KindOf(obj) == NativeRelay.Content <==>
            || Has(obj, "type", "content_block_start") || Has(obj, "type", "content_block_delta")
            || Has(obj, "type", "content_block_stop")
    ensures NativeRelay.KindOf(obj) == NativeRelay.MessageDelta <==> Has(obj, "type", "message_delta")
    ensures NativeRelay.KindOf(obj) == NativeRelay.MessageStop <==> Has(obj, "type", "message_stop")
    ensures NativeRelay.KindOf(obj) != NativeRelay.Unknown ==> Has(obj, "type", NativeRelay.NameOf(obj))
  {
  }

  /** A native event ends the content exactly when it is a message_delta whose delta has a stop reason. */
  lemma NativeEnds(obj: Fields)
    ensures NativeRelay.Ends(Some(obj)) <==>
            && Has(obj, "type", "message_delta") && HasObject(obj, "delta") && "stop_reason" in obj["delta"].fields
            && obj["delta"].fields["stop_reason"].JStr? && obj["delta"].fields["stop_reason"] != JStr("")
  {
    NativeKinds(obj);
  }

  /** A delta is refused exactly when it is neither null nor an object whose stop reason is null or a string. */
  lemma NativeDeltaRead(obj: Fields)
    ensures NativeRelay.DeltaReason(obj).Some? <==>
            && "delta" in obj
            && (obj["delta"] == JNull
                || (obj["delta"].JObj? && (Lacks(obj["delta"].fields, "stop_reason")
                                           || obj["delta"].fields["stop_reason"].JStr?)))
  {
  }

  /** A native message: an assistant's, with an id and a list as its content. */
  lemma NativeMessageRead(obj: Fields)
    ensures NativeRelay.IsMessage(obj) <==>
            && Has(obj, "type", "message") && Has(obj, "role", "assistant")
            && "id" in obj && obj["id"].JStr? && obj["id"] != JStr("")
            && "content" in obj && obj["content"].JArr?
  {
    StringsRead(obj, "type", "message");
    StringsRead(obj, "role", "assistant");
  }
}
