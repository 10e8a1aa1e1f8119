/**
 The Ollama adapter: newline-delimited records translated into a chat completion
 stream, and a single record rewritten as one completion. The stream is shown to
 complete on exactly the orderly record sequences and to assemble to the rewrite
 of the one record its records fold into.
 */
module Ollama {
  import opened Options
  import opened Json
  import opened Streams
  import opened Folds

  /** A decoded chat record; the fields the adapter never reads again are dropped. */
  datatype Record = Record(
    content: string, thinking: string, done: bool, reason: string, input: Option<int>, output: Option<int>)

  /** One choice of a completion or chunk; `usage` is prompt, completion and total tokens. */
  datatype Payload = Payload(
    id: string, model: string, content: string, reasoning: Option<string>, reason: Option<string>,
    usage: Option<(int, int, int)>)

  datatype Frame = Data(payload: Payload) | DoneMark

  datatype Config = Config(
    alias: string,
    id: string,
    trim: string -> string,
    parse: string -> Option<Json>,
    accepts: nat -> bool)

  /** `ended` says that the loop has returned nil. */
  datatype State = State(usage: Usage, out: seq<Frame>, ended: bool)

  const START := State(UNKNOWN, [], false)

  // ---- Decoding a record

  /** A struct field of slice type decodes and holds nothing. */
  predicate NoItems(fields: Fields, name: string) {
    name !in fields || fields[name].JNull? || fields[name] == JArr([])
  }

  /** A struct field of type `*int64`. */
  function Int64Field(fields: Fields, name: string): Option<Option<int>> {
    if name in fields then AsInt64(Some(fields[name])) else Some(None)
  }

  predicate NotNegative(n: Option<int>) {
    n.Some? ==> n.value >= 0
  }

  function ParseRecord(raw: Option<Json>): Option<Record> {
    match ResponseObject(raw)
    case None => None
    case Some(obj) =>
      match (Get(obj, "message"), Get(obj, "done"), Int64Field(obj, "prompt_eval_count"), Int64Field(obj, "eval_count"),
             StringField(obj, "done_reason"))
      case (Some(JObj(message)), Some(JBool(done)), Some(input), Some(output), Some(reason)) =>
        (match (StringField(message, "content"), StringField(message, "thinking"))
         case (Some(content), Some(thinking)) =>
           if && StringField(obj, "model").Some? && StringField(obj, "model") != Some("")
              && StringField(message, "role") == Some("assistant")
              && NoItems(message, "tool_calls") && NoItems(message, "images")
              && (done ==> reason == "stop" || reason == "length")
              && NotNegative(input) && NotNegative(output)
           then Some(Record(content, thinking, done, reason, input, output))
           else None
         case _ => None)
      case _ => None
  }

  // ---- One payload

  /** The record's token total, where both counters are known, fits an int64. */
  predicate Fits(r: Record) {
    r.done && r.input.Some? && r.output.Some? ==> r.input.value + r.output.value <= MAX_INT64
  }

  /** The payload of a record and the usage it leaves; `None` when the total overflows. */
  function PayloadOf(r: Record, alias: string, id: string, u: Usage): (Option<Payload>, Usage) {
    var reasoning := if r.thinking != "" then Some(r.thinking) else None;
    if !r.done then (Some(Payload(id, alias, r.content, reasoning, None, None)), u)
    else
      var seen := u.(input := r.input, output := r.output);
      if r.input.Some? && r.output.Some? then
        if r.input.value > MAX_INT64 - r.output.value then (None, seen)
        else
          var usage := (r.input.value, r.output.value, r.input.value + r.output.value);
          (Some(Payload(id, alias, r.content, reasoning, Some(r.reason), Some(usage))), seen)
      else (Some(Payload(id, alias, r.content, reasoning, Some(r.reason), None)), seen)
  }

  method OllamaPayload(r: Record, alias: string, id: string, u: Meter) returns (p: Option<Payload>)
    modifies u
    ensures (p, u.Value()) == PayloadOf(r, alias, id, old(u.Value()))
  {
    var reasoning, reason: Option<string>, usage: Option<(int, int, int)> := None, None, None;
    if r.thinking != "" {
      reasoning := Some(r.thinking);
    }
    if r.done {
      reason := Some(r.reason);
      u.input := r.input;
      u.output := r.output;
    }
    if r.done && u.input.Some? && u.output.Some? {
      if u.input.value > MAX_INT64 - u.output.value {
        return None;
      }
      usage := Some((u.input.value, u.output.value, u.input.value + u.output.value));
    }
    p := Some(Payload(id, alias, r.content, reasoning, reason, usage));
  }

  /** The rewrite of a whole response; `None` is `ErrResponse`. */
  function Rewrite(raw: Option<Json>, alias: string, id: string, u: Usage): (Option<Payload>, Usage) {
    match ParseRecord(raw)
    case None => (None, u)
    case Some(r) =>
      if !r.done then (None, u)
      else
        var (p, seen) := PayloadOf(r, alias, id, u);
        (p, seen.(complete := p.Some?))
  }

  method RewriteOllamaJson(raw: Option<Json>, alias: string, id: string, u: Meter) returns (p: Option<Payload>)
    modifies u
    ensures (p, u.Value()) == Rewrite(raw, alias, id, old(u.Value()))
  {
    var r := ParseRecord(raw);
    if r.None? || !r.value.done {
      return None;
    }
    p := OllamaPayload(r.value, alias, id, u);
    u.complete := p.Some?;
  }

  // ---- The relay

  function Emit(cfg: Config, st: State, frame: Frame): (State, Outcome) {
    if cfg.accepts(|st.out|) then (st.(out := st.out + [frame]), Ok) else (st, ErrEmit)
  }

  function TakeLine(cfg: Config, st: State, line: string): (State, Outcome) {
    var raw := cfg.trim(line);
    if raw == "" then (st, Ok)
    else
      match ParseRecord(cfg.parse(raw))
      case None => (st, ErrResponse)
      case Some(r) =>
        var (p, seen) := PayloadOf(r, cfg.alias, cfg.id, st.usage);
        if p.None? then (st.(usage := seen), ErrResponse)
        else
          var (sent, o) := Emit(cfg, st.(usage := seen), Data(p.value));
          if o != Ok || !r.done then (sent, o)
          else
            var (ended, last) := Emit(cfg, sent, DoneMark);
            (if last == Ok then ended.(usage := ended.usage.(complete := true), ended := true) else ended, last)
  }

  function Taker(cfg: Config): Step<State, string> {
    (st, line) => TakeLine(cfg, st, line)
  }

  function HasEnded(): State -> bool {
    (st: State) => st.ended
  }

  /** One turn of the relay's loop; `ended` when it has delivered the final mark. */
  method RelayLine(line: string, cfg: Config, u: Meter, sink: Sink<Frame>) returns (o: Outcome, ended: bool)
    requires sink.accepts == cfg.accepts
    modifies u, sink
    ensures (State(u.Value(), sink.frames, ended), o) ==
            TakeLine(cfg, State(old(u.Value()), old(sink.frames), false), line)
  {
    ended := false;
    var raw := cfg.trim(line);
    if raw == "" {
      return Ok, false;
    }
    var r := ParseRecord(cfg.parse(raw));
    if r.None? {
      return ErrResponse, false;
    }
    var p := OllamaPayload(r.value, cfg.alias, cfg.id, u);
    if p.None? {
      return ErrResponse, false;
    }
    var ok := sink.Emit(Data(p.value));
    if !ok {
      return ErrEmit, false;
    }
    if r.value.done {
      ok := sink.Emit(DoneMark);
      if !ok {
        return ErrEmit, false;
      }
      u.complete := true;
      return Ok, true;
    }
    o := Ok;
  }

  method RelayOllama(lines: seq<string>, scanError: bool, cfg: Config, u: Meter, sink: Sink<Frame>) returns (o: Outcome)
    requires sink.accepts == cfg.accepts
    modifies u, sink
    ensures
      var (final, outcome) :=
        RunAll(Taker(cfg), HasEnded(), lines, if scanError then ErrScan else ErrResponse,
               State(old(u.Value()), old(sink.frames), false));
      o == outcome && u.Value() == final.usage && sink.frames == final.out
  {
    ghost var end := if scanError then ErrScan else ErrResponse;
    ghost var begin := State(u.Value(), sink.frames, false);
    for i := 0 to |lines|
      invariant RunAll(Taker(cfg), HasEnded(), lines, end, begin) ==
                RunAll(Taker(cfg), HasEnded(), lines[i..], end, State(u.Value(), sink.frames, false))
    {
      ghost var st := State(u.Value(), sink.frames, false);
      assert lines[i..][1..] == lines[i + 1..];
      assert Taker(cfg)(st, lines[i]) == TakeLine(cfg, st, lines[i]);
      var ended;
      o, ended := RelayLine(lines[i], cfg, u, sink);
      if o != Ok || ended {
        return;
      }
    }
    o := if scanError then ErrScan else ErrResponse;
  }

  // ---- The language of record sequences

  function RecordOf(cfg: Config, line: string): Option<Record> {
    ParseRecord(cfg.parse(cfg.trim(line)))
  }

  /** The records of the lines that hold anything; `None` where a line does not decode. */
  function Records(cfg: Config, lines: seq<string>): seq<Option<Record>> {
    if lines == [] then []
    else
      var before, last := Records(cfg, lines[..|lines| - 1]), cfg.trim(lines[|lines| - 1]);
      if last == "" then before else before + [ParseRecord(cfg.parse(last))]
  }

  /** Well-formed records whose totals fit, with at most the last one done. */
  ghost predicate Orderly(records: seq<Option<Record>>) {
    forall i :: 0 <= i < |records| ==>
      records[i].Some? && Fits(records[i].value) && (records[i].value.done ==> i == |records| - 1)
  }

  predicate Completed(records: seq<Option<Record>>) {
    |records| > 0 && records[|records| - 1].Some? && records[|records| - 1].value.done
  }

  /** The frames the records are translated into. */
  function Translated(cfg: Config, records: seq<Option<Record>>): seq<Frame> {
    if records == [] then []
    else
      var before := Translated(cfg, records[..|records| - 1]);
      match records[|records| - 1]
      case None => before
      case Some(r) =>
        (match PayloadOf(r, cfg.alias, cfg.id, UNKNOWN).0
         case Some(p) => before + [Data(p)] + (if r.done then [DoneMark] else [])
         case None => before)
  }

  ghost predicate StateAfter(cfg: Config, records: seq<Option<Record>>, st: State) {
    && st.out == Translated(cfg, records)
    && st.ended == Completed(records)
    && st.usage == (if Completed(records)
                    then Usage(records[|records| - 1].value.input, records[|records| - 1].value.output, true)
                    else UNKNOWN)
  }

  lemma OrderlySnoc(records: seq<Option<Record>>, r: Option<Record>)
    ensures Orderly(records + [r]) <==> Orderly(records) && !Completed(records) && r.Some? && Fits(r.value)
  {
    var all, n := records + [r], |records|;
    assert all[n] == r && forall i :: 0 <= i < n ==> all[i] == records[i];
    if Orderly(all) && n > 0 {
      assert all[n - 1] == records[n - 1];
    }
  }

  function After(cfg: Config, lines: seq<string>): Option<State> {
    Reach(Taker(cfg), HasEnded(), START, lines)
  }

  /** The lines are orderly, the stream was open before the last one, and the client takes every frame. */
  ghost predicate Taken(cfg: Config, lines: seq<string>) {
    && Orderly(Records(cfg, lines))
    && (lines != [] ==> !Completed(Records(cfg, lines[..|lines| - 1])))
    && AcceptsFirst(cfg.accepts, |Translated(cfg, Records(cfg, lines))|)
  }

  lemma OpenBefore(cfg: Config, lines: seq<string>)
    requires lines != [] && Orderly(Records(cfg, lines)) && !Completed(Records(cfg, lines))
    ensures !Completed(Records(cfg, lines[..|lines| - 1]))
  {
    OrderlySnoc(Records(cfg, lines[..|lines| - 1]), RecordOf(cfg, lines[|lines| - 1]));
  }

  lemma OpenSnoc(cfg: Config, before: seq<string>, last: string)
    ensures
      var records, r := Records(cfg, before), RecordOf(cfg, last);
      Orderly(Records(cfg, before + [last])) && !Completed(records) <==>
      && Orderly(records) && !Completed(records)
      && (before != [] ==> !Completed(Records(cfg, before[..|before| - 1])))
      && (cfg.trim(last) != "" ==> r.Some? && Fits(r.value))
  {
    assert (before + [last])[..|before|] == before;
    OrderlySnoc(Records(cfg, before), RecordOf(cfg, last));
    if before != [] && Orderly(Records(cfg, before)) && !Completed(Records(cfg, before)) {
      OpenBefore(cfg, before);
    }
  }

  lemma TranslatedSnoc(cfg: Config, records: seq<Option<Record>>, r: Record)
    requires Fits(r)
    ensures |Translated(cfg, records + [Some(r)])| == |Translated(cfg, records)| + (if r.done then 2 else 1)
  {
    assert (records + [Some(r)])[..|records|] == records;
  }

  lemma AcceptsSnoc(cfg: Config, records: seq<Option<Record>>, r: Record)
    requires Fits(r)
    ensures
      var size := |Translated(cfg, records)|;
      AcceptsFirst(cfg.accepts, |Translated(cfg, records + [Some(r)])|) <==>
      AcceptsFirst(cfg.accepts, size) && cfg.accepts(size) && (r.done ==> cfg.accepts(size + 1))
  {
    var size := |Translated(cfg, records)|;
    TranslatedSnoc(cfg, records, r);
    AcceptsMore(cfg.accepts, size);
    AcceptsMore(cfg.accepts, size + 1);
  }

  lemma TakenSnoc(cfg: Config, before: seq<string>, last: string)
    ensures
      var records, r := Records(cfg, before), RecordOf(cfg, last);
      Taken(cfg, before + [last]) <==>
      && Taken(cfg, before) && !Completed(records)
      && (cfg.trim(last) != "" ==>
            && r.Some? && Fits(r.value)
            && cfg.accepts(|Translated(cfg, records)|)
            && (r.value.done ==> cfg.accepts(|Translated(cfg, records)| + 1)))
  {
    var r := RecordOf(cfg, last);
    assert (before + [last])[..|before|] == before;
    OpenSnoc(cfg, before, last);
    if r.Some? && Fits(r.value) {
      AcceptsSnoc(cfg, Records(cfg, before), r.value);
    }
  }

  lemma AcceptsMore(accepts: nat -> bool, n: nat)
    ensures AcceptsFirst(accepts, n + 1) <==> AcceptsFirst(accepts, n) && accepts(n)
  {
  }

  lemma {:induction false} AfterExact(cfg: Config, lines: seq<string>)
    ensures After(cfg, lines).Some? <==> Taken(cfg, lines)
    ensures After(cfg, lines).Some? ==> StateAfter(cfg, Records(cfg, lines), After(cfg, lines).value)
  {
    if lines != [] {
      var before, last := lines[..|lines| - 1], lines[|lines| - 1];
      assert before + [last] == lines;
      AfterExact(cfg, before);
      TakenSnoc(cfg, before, last);
      var records, r := Records(cfg, before), RecordOf(cfg, last);
      assert (records + [r])[..|records|] == records;
    }
  }

  /** The first `k` lines are a whole stream that the client takes. */
  ghost predicate WholeStream(cfg: Config, lines: seq<string>, k: nat) {
    k <= |lines| && Taken(cfg, lines[..k]) && Completed(Records(cfg, lines[..k]))
  }

  ghost predicate HoldsWholeStream(cfg: Config, lines: seq<string>) {
    exists k: nat :: WholeStream(cfg, lines, k)
  }

  function RelayResult(cfg: Config, lines: seq<string>, end: Outcome): (State, Outcome) {
    RunAll(Taker(cfg), HasEnded(), lines, end, START)
  }

  /** Whenever the lines begin with a whole stream, the relay succeeds in exactly its translation. */
  lemma WholeStreamSucceeds(cfg: Config, lines: seq<string>, end: Outcome, k: nat)
    requires end != Ok && WholeStream(cfg, lines, k)
    ensures RelayResult(cfg, lines, end).1 == Ok
    ensures StateAfter(cfg, Records(cfg, lines[..k]), RelayResult(cfg, lines, end).0)
  {
    AfterExact(cfg, lines[..k]);
    RunReaches(Taker(cfg), HasEnded(), START, lines, end);
    assert CompletesAt(Taker(cfg), HasEnded(), START, lines, k, After(cfg, lines[..k]).value);
  }

  lemma FailureStaysOpen(cfg: Config, st: State, line: string)
    requires !st.usage.complete && TakeLine(cfg, st, line).1 != Ok
    ensures !TakeLine(cfg, st, line).0.usage.complete
  {
  }

  /** The relay succeeds, and marks usage complete, exactly on lines that begin with a whole stream. */
  lemma OllamaStreamExact(cfg: Config, lines: seq<string>, end: Outcome)
    requires end != Ok
    ensures
      var (final, o) := RelayResult(cfg, lines, end);
      (o == Ok <==> final.usage.complete) && (o == Ok <==> HoldsWholeStream(cfg, lines))
  {
    var (final, o) := RelayResult(cfg, lines, end);
    RunReaches(Taker(cfg), HasEnded(), START, lines, end);
    if o == Ok {
      var k: nat, st :| CompletesAt(Taker(cfg), HasEnded(), START, lines, k, st);
      AfterExact(cfg, lines[..k]);
      assert WholeStream(cfg, lines, k);
    } else {
      if k: nat :| WholeStream(cfg, lines, k) {
        WholeStreamSucceeds(cfg, lines, end, k);
      }
      var k: nat :| StopsAt(Taker(cfg), HasEnded(), START, lines, k, final);
      var st := After(cfg, lines[..k]).value;
      AfterExact(cfg, lines[..k]);
      if final == st && st.usage.complete {
        assert CompletesAt(Taker(cfg), HasEnded(), START, lines, k, st);
      } else if final != st {
        FailureStaysOpen(cfg, st, lines[k]);
      }
    }
  }

  // ---- Folding a stream into one record

  /** The one record a sequence of records amounts to. */
  function Folded(records: seq<Option<Record>>): Record {
    if records == [] then Record("", "", false, "", None, None)
    else
      var before := Folded(records[..|records| - 1]);
      match records[|records| - 1]
      case None => before
      case Some(r) => r.(content := before.content + r.content, thinking := before.thinking + r.thinking)
  }

  function MessageFields(r: Record): Fields {
    map["role" := JStr("assistant"), "content" := JStr(r.content), "thinking" := JStr(r.thinking)]
  }

  function CounterJson(n: Option<int>): Json {
    match n case Some(v) => JInt(v) case None => JNull
  }

  function RecordFields(model: string, r: Record): Fields {
    map["model" := JStr(model), "message" := JObj(MessageFields(r)), "done" := JBool(r.done),
        "done_reason" := JStr(r.reason), "prompt_eval_count" := CounterJson(r.input),
        "eval_count" := CounterJson(r.output)]
  }

  /** The response object that holds a record. */
  function RecordJson(model: string, r: Record): Json {
    JObj(RecordFields(model, r))
  }

  lemma MessageFieldsRead(r: Record)
    ensures
      var message := MessageFields(r);
      && StringField(message, "role") == Some("assistant")
      && StringField(message, "content") == Some(r.content) && StringField(message, "thinking") == Some(r.thinking)
      && NoItems(message, "tool_calls") && NoItems(message, "images")
  {
  }

  lemma RecordFieldsRead(model: string, r: Record)
    requires InRange(r.input) && InRange(r.output)
    ensures
      var obj := RecordFields(model, r);
      && ResponseObject(Some(JObj(obj))) == Some(obj)
      && Get(obj, "message") == Some(JObj(MessageFields(r))) && Get(obj, "done") == Some(JBool(r.done))
      && StringField(obj, "model") == Some(model) && StringField(obj, "done_reason") == Some(r.reason)
      && Int64Field(obj, "prompt_eval_count") == Some(r.input) && Int64Field(obj, "eval_count") == Some(r.output)
  {
  }

  /** The object has the string under the name, or lacks it and the string is empty. */
  predicate ReadsAs(obj: Fields, name: string, s: string) {
    if name in obj && obj[name] != JNull then obj[name] == JStr(s) else s == ""
  }

  /** The object has the count under the name, or lacks it and there is none. */
  predicate Counts(obj: Fields, name: string, n: Option<int>) {
    if name in obj && obj[name] != JNull
    then n.Some? && obj[name] == JInt(n.value) && 0 <= n.value < 0x8000_0000_0000_0000
    else n == None
  }

  /** The object is an assistant's record of plain text; a done one has an accepted reason. */
  predicate ShowsRecord(obj: Fields, r: Record) {
    && "error" !in obj && "model" in obj && obj["model"].JStr? && obj["model"] != JStr("")
    && "done" in obj && obj["done"] == JBool(r.done) && ReadsAs(obj, "done_reason", r.reason)
    && (r.done ==> r.reason == "stop" || r.reason == "length")
    && Counts(obj, "prompt_eval_count", r.input) && Counts(obj, "eval_count", r.output)
    && "message" in obj && obj["message"].JObj? && ShowsMessage(obj["message"].fields, r.content, r.thinking)
  }

  predicate ShowsMessage(message: Fields, content: string, thinking: string) {
    && "role" in message && message["role"] == JStr("assistant")
    && ReadsAs(message, "content", content) && ReadsAs(message, "thinking", thinking)
    && ("tool_calls" in message ==> message["tool_calls"] == JNull || message["tool_calls"] == JArr([]))
    && ("images" in message ==> message["images"] == JNull || message["images"] == JArr([]))
  }

  lemma StringsRead(obj: Fields, name: string, s: string)
    ensures StringField(obj, name) == Some(s) <==> ReadsAs(obj, name, s)
  {
  }

  lemma CountsRead(obj: Fields, name: string, n: Option<int>)
    ensures Int64Field(obj, name) == Some(n) && NotNegative(n) <==> Counts(obj, name, n)
  {
  }

  lemma MessageRead(message: Fields, content: string, thinking: string)
    ensures
      && StringField(message, "role") == Some("assistant")
      && NoItems(message, "tool_calls") && NoItems(message, "images")
      && StringField(message, "content") == Some(content) && StringField(message, "thinking") == Some(thinking)
      <==> ShowsMessage(message, content, thinking)
  {
    StringsRead(message, "role", "assistant");
    StringsRead(message, "content", content);
    StringsRead(message, "thinking", thinking);
  }

  /** A line is decoded as a record exactly when it is an object that is that record. */
  lemma ParsedExactly(raw: Option<Json>, r: Record)
    ensures ParseRecord(raw) == Some(r) <==> raw.Some? && raw.value.JObj? && ShowsRecord(raw.value.fields, r)
  {
    if raw.Some? && raw.value.JObj? {
      var obj := raw.value.fields;
      StringsRead(obj, "done_reason", r.reason);
      CountsRead(obj, "prompt_eval_count", r.input);
      CountsRead(obj, "eval_count", r.output);
      if "message" in obj && obj["message"].JObj? {
        MessageRead(obj["message"].fields, r.content, r.thinking);
      }
    }
  }

  lemma RecordRoundTrip(model: string, r: Record)
    requires model != "" && InRange(r.input) && InRange(r.output)
    requires r.done ==> r.reason == "stop" || r.reason == "length"
    ensures ParseRecord(Some(RecordJson(model, r))) == Some(r)
  {
    MessageFieldsRead(r);
    RecordFieldsRead(model, r);
  }

  lemma ParsedRecord(raw: Option<Json>)
    requires ParseRecord(raw).Some?
    ensures
      var r := ParseRecord(raw).value;
      InRange(r.input) && InRange(r.output) && (r.done ==> r.reason == "stop" || r.reason == "length")
  {
  }

  /** The text, thinking and final parts a client assembles from the delivered frames. */
  datatype Assembled = Assembled(
    id: string, model: string, content: string, thinking: string, reason: Option<string>, usage: Option<(int, int, int)>, done: bool)

  function Assemble(out: seq<Frame>): Assembled {
    if out == [] then Assembled("", "", "", "", None, None, false)
    else
      var a := Assemble(out[..|out| - 1]);
      match out[|out| - 1]
      case Data(p) =>
        Assembled(p.id, p.model, a.content + p.content, a.thinking + (match p.reasoning case Some(t) => t case None => ""),
                  if p.reason.Some? then p.reason else a.reason,
                  if p.usage.Some? then p.usage else a.usage, a.done)
      case DoneMark => a.(done := true)
  }

  lemma AssembleSnoc(out: seq<Frame>, frame: Frame)
    ensures Assemble(out + [frame]) ==
            var a := Assemble(out);
            match frame
            case Data(p) =>
              Assembled(p.id, p.model, a.content + p.content, a.thinking + (match p.reasoning case Some(t) => t case None => ""),
                        if p.reason.Some? then p.reason else a.reason,
                        if p.usage.Some? then p.usage else a.usage, a.done)
            case DoneMark => a.(done := true)
  {
    assert (out + [frame])[..|out|] == out;
  }

  function Totals(r: Record): Option<(int, int, int)> {
    if r.done && r.input.Some? && r.output.Some?
    then Some((r.input.value, r.output.value, r.input.value + r.output.value))
    else None
  }

  /** The client has the text, the thinking and the final parts of the record. */
  predicate IsViewOf(a: Assembled, r: Record) {
    && a.content == r.content && a.thinking == r.thinking && a.done == r.done
    && a.reason == (if r.done then Some(r.reason) else None)
    && a.usage == Totals(r)
  }

  /** The client's view of the delivered frames is that of the folded record, under the id and the alias. */
  ghost predicate AssembledFrom(cfg: Config, records: seq<Option<Record>>) {
    var a, r := Assemble(Translated(cfg, records)), Folded(records);
    && IsViewOf(a, r) && r.done == Completed(records)
    && (records != [] ==> a.id == cfg.id && a.model == cfg.alias)
  }

  /** The payload of a record that fits, member by member. */
  lemma PayloadOfRecord(r: Record, alias: string, id: string)
    requires Fits(r)
    ensures PayloadOf(r, alias, id, UNKNOWN).0 ==
            Some(Payload(id, alias, r.content, if r.thinking == "" then None else Some(r.thinking),
                         if r.done then Some(r.reason) else None, Totals(r)))
  {
  }

  /** The client's view once the frames of a payload are in. */
  function Added(a: Assembled, p: Payload, done: bool): Assembled {
    Assembled(p.id, p.model, a.content + p.content, a.thinking + (match p.reasoning case Some(t) => t case None => ""),
              if p.reason.Some? then p.reason else a.reason, if p.usage.Some? then p.usage else a.usage, a.done || done)
  }

  lemma FramesAdded(out: seq<Frame>, p: Payload, done: bool)
    ensures Assemble(out + [Data(p)] + (if done then [DoneMark] else [])) == Added(Assemble(out), p, done)
  {
    AssembleSnoc(out, Data(p));
    if done {
      AssembleSnoc(out + [Data(p)], DoneMark);
    } else {
      assert out + [Data(p)] + [] == out + [Data(p)];
    }
  }

  lemma ViewGrows(a: Assembled, folded: Record, r: Record, alias: string, id: string)
    requires IsViewOf(a, folded) && !folded.done && Fits(r)
    ensures
      var p := PayloadOf(r, alias, id, UNKNOWN).0;
      && p.Some? && p.value.id == id && p.value.model == alias
      && IsViewOf(Added(a, p.value, r.done),
                  r.(content := folded.content + r.content, thinking := folded.thinking + r.thinking))
  {
    PayloadOfRecord(r, alias, id);
  }

  lemma FoldedSnoc(cfg: Config, before: seq<Option<Record>>, r: Record)
    requires Fits(r)
    ensures
      var all, f := before + [Some(r)], Folded(before);
      var p := PayloadOf(r, cfg.alias, cfg.id, UNKNOWN).0;
      && Folded(all) == r.(content := f.content + r.content, thinking := f.thinking + r.thinking)
      && p.Some? && Translated(cfg, all) == Translated(cfg, before) + [Data(p.value)] + (if r.done then [DoneMark] else [])
      && Completed(all) == r.done
  {
    assert (before + [Some(r)])[..|before|] == before;
  }

  lemma AssembledFromSnoc(cfg: Config, before: seq<Option<Record>>, r: Record)
    requires AssembledFrom(cfg, before) && !Completed(before) && Fits(r)
    ensures AssembledFrom(cfg, before + [Some(r)])
  {
    var out := Translated(cfg, before);
    FoldedSnoc(cfg, before, r);
    ViewGrows(Assemble(out), Folded(before), r, cfg.alias, cfg.id);
    FramesAdded(out, PayloadOf(r, cfg.alias, cfg.id, UNKNOWN).0.value, r.done);
  }

  lemma {:induction false} AssembledFromRecords(cfg: Config, records: seq<Option<Record>>)
    requires Orderly(records)
    ensures AssembledFrom(cfg, records)
  {
    if records != [] {
      var before, last := records[..|records| - 1], records[|records| - 1];
      assert before + [last] == records;
      OrderlySnoc(before, last);
      AssembledFromRecords(cfg, before);
      AssembledFromSnoc(cfg, before, last.value);
    }
  }

  /** What a client has from a stream and what it has from one completion. */
  predicate Same(a: Assembled, p: Payload) {
    && a.done && a.id == p.id && a.model == p.model && a.content == p.content && a.reason == p.reason && a.usage == p.usage
    && a.thinking == (match p.reasoning case Some(t) => t case None => "")
  }

  /**
   For every stream that completes: the delivered frames assemble to the rewrite of
   the single record the stream folds into, the observed usage is the same, and a
   token total was only ever delivered when it fits an int64.
   */
  lemma StreamAgreesWithRecord(cfg: Config, lines: seq<string>, end: Outcome, k: nat, model: string)
    requires end != Ok && model != "" && WholeStream(cfg, lines, k)
    ensures
      var final := RelayResult(cfg, lines, end).0;
      var (whole, usage) := Rewrite(Some(RecordJson(model, Folded(Records(cfg, lines[..k])))), cfg.alias, cfg.id, UNKNOWN);
      && whole.Some? && Same(Assemble(final.out), whole.value) && usage == final.usage
      && (whole.value.usage.Some? ==>
            whole.value.usage.value.2 == whole.value.usage.value.0 + whole.value.usage.value.1 <= MAX_INT64)
  {
    var records := Records(cfg, lines[..k]);
    WholeStreamSucceeds(cfg, lines, end, k);
    AssembledFromRecords(cfg, records);
    LastRecordParsed(cfg, lines[..k]);
    var last := records[|records| - 1].value;
    var r := Folded(records);
    assert Fits(last);
    assert r.input == last.input && r.output == last.output && r.reason == last.reason && r.done;
    RecordRoundTrip(model, r);
  }

  lemma {:induction false} LastRecordParsed(cfg: Config, lines: seq<string>)
    requires Completed(Records(cfg, lines))
    ensures
      var r := Records(cfg, lines)[|Records(cfg, lines)| - 1].value;
      InRange(r.input) && InRange(r.output) && (r.reason == "stop" || r.reason == "length")
  {
    var last := cfg.trim(lines[|lines| - 1]);
    if last == "" {
      LastRecordParsed(cfg, lines[..|lines| - 1]);
    } else {
      ParsedRecord(cfg.parse(last));
    }
  }
}
