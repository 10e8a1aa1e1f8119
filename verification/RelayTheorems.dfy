/**
 What `RelaySSE` promises over whole streams: framing, no invented success, and
 for each protocol the exact language of streams that complete, the exact frames
 delivered and the usage observed.
 */
module RelayTheorems {
  import opened Options
  import opened Json
  import opened Streams
  import opened Folds
  import opened Relay

  // ---- Framing

  /** The frames completed by a blank line, and whether one outgrows the limit first. */
  function Frames(lines: seq<string>, frame: string): (seq<string>, bool) {
    if lines == [] then ([], false)
    else if lines[0] == "" then
      var (rest, overflow) := Frames(lines[1..], "");
      ([frame] + rest, overflow)
    else if IsData(lines[0]) then
      var grown := Grow(frame, lines[0]);
      if |grown| > MAX_FRAME then ([], true) else Frames(lines[1..], grown)
    else Frames(lines[1..], frame)
  }

  function Dispatcher(cfg: Config): Step<State, string> {
    (st, frame) => Dispatch(cfg, st, frame)
  }

  function IsComplete(): State -> bool {
    (st: State) => st.usage.complete
  }

  /** Dispatching a sequence of frames, without any scanning. */
  function DispatchAll(cfg: Config, frames: seq<string>, end: Outcome, st: State): (State, Outcome) {
    RunAll(Dispatcher(cfg), IsComplete(), frames, end, st)
  }

  function EndOf(end: Outcome, overflow: bool): Outcome {
    if overflow then ErrResponse else end
  }

  lemma {:induction false} ScanDispatchesFrames(cfg: Config, lines: seq<string>, end: Outcome, frame: string, st: State)
    ensures
      var (frames, overflow) := Frames(lines, frame);
      Scan(cfg, lines, end, frame, st) == DispatchAll(cfg, frames, EndOf(end, overflow), st)
    decreases |lines|
  {
    if lines == [] {
    } else if lines[0] == "" {
      var (rest, overflow) := Frames(lines[1..], "");
      assert ([frame] + rest)[1..] == rest;
      var (next, o) := Dispatch(cfg, st, frame);
      ScanDispatchesFrames(cfg, lines[1..], end, "", next);
    } else if IsData(lines[0]) {
      if |Grow(frame, lines[0])| <= MAX_FRAME {
        ScanDispatchesFrames(cfg, lines[1..], end, Grow(frame, lines[0]), st);
      }
    } else {
      ScanDispatchesFrames(cfg, lines[1..], end, frame, st);
    }
  }

  /** A frame that no blank line ends is never dispatched: the tail only decides the error. */
  lemma {:induction false} UnfinishedFrameIsDropped(lines: seq<string>, tail: seq<string>, frame: string)
    requires "" !in tail
    ensures Frames(lines + tail, frame).0 == Frames(lines, frame).0
    decreases |lines|, |tail|
  {
    if lines == [] {
      assert lines + tail == tail;
      if tail != [] {
        assert tail[0] != "" && [] + tail[1..] == tail[1..];
        assert "" !in tail[1..];
        if IsData(tail[0]) {
          UnfinishedFrameIsDropped([], tail[1..], Grow(frame, tail[0]));
        } else {
          UnfinishedFrameIsDropped([], tail[1..], frame);
        }
      }
    } else {
      assert (lines + tail)[1..] == lines[1..] + tail;
      if lines[0] == "" {
        UnfinishedFrameIsDropped(lines[1..], tail, "");
      } else if IsData(lines[0]) {
        UnfinishedFrameIsDropped(lines[1..], tail, Grow(frame, lines[0]));
      } else {
        UnfinishedFrameIsDropped(lines[1..], tail, frame);
      }
    }
  }

  // ---- No invented success

  /** A `[DONE]` is present exactly when the stream is complete, once, and last. */
  ghost predicate Honest(st: State) {
    if st.usage.complete
    then |st.out| > 0 && st.out[|st.out| - 1] == DoneMark && DoneMark !in st.out[..|st.out| - 1]
    else DoneMark !in st.out
  }

  lemma EventIsHonest(cfg: Config, st: State, e: Event)
    requires Honest(st) && !st.usage.complete
    ensures Honest(ApplyEvent(cfg, st, e).0)
    ensures ApplyEvent(cfg, st, e).0.usage.complete ==> ApplyEvent(cfg, st, e).1 == Ok
  {
    var next := ApplyEvent(cfg, st, e).0;
    assert next.usage.complete ==> next.out == st.out + [DoneMark];
  }

  lemma ObjectIsHonest(cfg: Config, st: State, obj: Fields)
    requires Honest(st) && !st.usage.complete
    ensures Honest(ApplyObject(cfg, st, obj).0) && !ApplyObject(cfg, st, obj).0.usage.complete
  {
  }

  lemma DispatchIsHonest(cfg: Config, st: State, frame: string)
    requires Honest(st) && !st.usage.complete
    ensures Honest(Dispatch(cfg, st, frame).0)
    ensures Dispatch(cfg, st, frame).0.usage.complete ==> Dispatch(cfg, st, frame).1 == Ok
  {
    var obj := ResponseObject(cfg.parse(cfg.trim(frame)));
    if obj.Some? {
      EventIsHonest(cfg, st, DecodeEvent(obj.value));
      ObjectIsHonest(cfg, st, obj.value);
    }
    var done := Finish(cfg, st).0;
    assert done.usage.complete ==> done.out == st.out + [DoneMark];
  }

  lemma {:induction false} DispatchAllIsHonest(cfg: Config, frames: seq<string>, end: Outcome, st: State)
    requires Honest(st) && !st.usage.complete && end != Ok
    ensures
      var (final, o) := DispatchAll(cfg, frames, end, st);
      Honest(final) && (o == Ok <==> final.usage.complete)
    decreases |frames|
  {
    if frames != [] {
      DispatchIsHonest(cfg, st, frames[0]);
      var (next, o) := Dispatch(cfg, st, frames[0]);
      if o == Ok && !next.usage.complete {
        DispatchAllIsHonest(cfg, frames[1..], end, next);
      }
    }
  }

  /**
   For all lines, both endings and every pattern of emit failures: the relay
   returns nil exactly when usage is complete, which is exactly when one `[DONE]`
   was delivered, as the last frame.
   */
  lemma NoInventedSuccess(cfg: Config, lines: seq<string>, end: Outcome)
    requires end != Ok
    ensures
      var (final, o) := Scan(cfg, lines, end, "", START);
      && Honest(final)
      && (o == Ok <==> final.usage.complete)
      && (o == Ok <==> DoneMark in final.out)
  {
    ScanDispatchesFrames(cfg, lines, end, "", START);
    var (frames, overflow) := Frames(lines, "");
    DispatchAllIsHonest(cfg, frames, EndOf(end, overflow), START);
  }

  // ---- The state after a sequence of frames

  function After(cfg: Config, frames: seq<string>): Option<State> {
    Reach(Dispatcher(cfg), IsComplete(), START, frames)
  }

  /** The relay completes in `final` once the first `k` frames are dispatched. */
  ghost predicate CompleteAfter(cfg: Config, frames: seq<string>, k: nat, final: State) {
    CompletesAt(Dispatcher(cfg), IsComplete(), START, frames, k, final)
  }

  /** The first `k` frames were dispatched and `out` is what they delivered. */
  ghost predicate DeliveredBy(cfg: Config, frames: seq<string>, k: nat, out: seq<Frame>) {
    k <= |frames| && After(cfg, frames[..k]).Some? && After(cfg, frames[..k]).value.out == out
  }

  lemma FailureDeliversNothing(cfg: Config, st: State, frame: string)
    ensures Dispatch(cfg, st, frame).1 != Ok ==> Dispatch(cfg, st, frame).0.out == st.out
  {
  }

  lemma CompletionIsReached(cfg: Config, lines: seq<string>, end: Outcome)
    requires end != Ok
    ensures
      var (final, o) := Scan(cfg, lines, end, "", START);
      var frames := Frames(lines, "").0;
      && (o == Ok <==> exists k, st :: CompleteAfter(cfg, frames, k, st))
      && (forall k, st :: CompleteAfter(cfg, frames, k, st) ==> st == final)
      && (exists k :: DeliveredBy(cfg, frames, k, final.out))
  {
    ScanDispatchesFrames(cfg, lines, end, "", START);
    var (frames, overflow) := Frames(lines, "");
    var final := Scan(cfg, lines, end, "", START).0;
    RunReaches(Dispatcher(cfg), IsComplete(), START, frames, EndOf(end, overflow));
    forall k, st
      ensures CompleteAfter(cfg, frames, k, st) <==> CompletesAt(Dispatcher(cfg), IsComplete(), START, frames, k, st)
    {
    }
    var k: nat :| StopsAt(Dispatcher(cfg), IsComplete(), START, frames, k, final);
    if k < |frames| {
      FailureDeliversNothing(cfg, After(cfg, frames[..k]).value, frames[k]);
    }
    assert DeliveredBy(cfg, frames, k, final.out);
  }

  // ---- Usage reports

  /** The counter a usage report gives for a name, when it is a valid one. */
  function Reported(report: Option<Json>, name: string): Option<int> {
    match AsObject(report)
    case Some(Some(fields)) => Counter(Get(fields, name))
    case _ => None
  }

  function LastReported(reports: seq<Option<Json>>, name: string): Option<int> {
    if reports == [] then None
    else
      var last := Reported(reports[|reports| - 1], name);
      if last.Some? then last else LastReported(reports[..|reports| - 1], name)
  }

  /** Observing one report more. */
  lemma LastReportedSnoc(reports: seq<Option<Json>>, report: Option<Json>, u: Usage, input: string, output: string)
    requires u.input == LastReported(reports, input) && u.output == LastReported(reports, output)
    ensures
      var seen := Observe(u, report, input, output);
      && seen.input == LastReported(reports + [report], input)
      && seen.output == LastReported(reports + [report], output)
  {
    assert (reports + [report])[..|reports|] == reports;
  }

  // ---- OpenAI-compatible streams

  predicate IsDone(cfg: Config, frame: string) {
    cfg.trim(frame) == "[DONE]"
  }

  /** The object of a well-formed chunk frame. */
  function ChunkOf(cfg: Config, frame: string): Option<Fields> {
    match ResponseObject(cfg.parse(cfg.trim(frame)))
    case Some(obj) => if AsArray(Get(obj, "choices")).Some? then Some(obj) else None
    case None => None
  }

  /** What the relay delivers: every chunk in order with only its model replaced, and the final mark. */
  function Rewritten(cfg: Config, frames: seq<string>): seq<Frame> {
    if frames == [] then []
    else
      var before, last := Rewritten(cfg, frames[..|frames| - 1]), frames[|frames| - 1];
      if cfg.trim(last) == "" then before
      else if IsDone(cfg, last) then before + [DoneMark]
      else match ChunkOf(cfg, last)
           case Some(obj) => before + [Relayed(obj["model" := JStr(cfg.alias)])]
           case None => before
  }

  /** The usage reports of the chunks, in order. */
  function ChunkReports(cfg: Config, frames: seq<string>): seq<Option<Json>> {
    if frames == [] then []
    else
      var before, last := ChunkReports(cfg, frames[..|frames| - 1]), frames[|frames| - 1];
      if IsChunk(cfg, last) then before + [ReportIn(cfg, last)] else before
  }

  /** The usage report a frame carries. */
  function ReportIn(cfg: Config, frame: string): Option<Json> {
    match ResponseObject(cfg.parse(cfg.trim(frame))) case Some(obj) => Get(obj, "usage") case None => None
  }

  /** The usage the chunks report. */
  function ChunkUsage(cfg: Config, frames: seq<string>, complete: bool): Usage {
    var reports := ChunkReports(cfg, frames);
    Usage(LastReported(reports, "prompt_tokens"), LastReported(reports, "completion_tokens"), complete)
  }

  predicate IsChunk(cfg: Config, frame: string) {
    cfg.trim(frame) != "" && !IsDone(cfg, frame) && ChunkOf(cfg, frame).Some?
  }

  /** Blank frames and chunks, then at most one `[DONE]`, last and after a chunk. */
  ghost predicate OpenAiOrder(cfg: Config, frames: seq<string>) {
    forall i :: 0 <= i < |frames| ==>
      || cfg.trim(frames[i]) == ""
      || IsChunk(cfg, frames[i])
      || (IsDone(cfg, frames[i]) && i == |frames| - 1 && exists j :: 0 <= j < i && IsChunk(cfg, frames[j]))
  }

  lemma OpenAiOrderSnoc(cfg: Config, before: seq<string>, last: string)
    ensures
      var chunked := exists j :: 0 <= j < |before| && IsChunk(cfg, before[j]);
      && (OpenAiOrder(cfg, before + [last]) <==>
          && OpenAiOrder(cfg, before)
          && (|before| > 0 ==> !IsDone(cfg, before[|before| - 1]))
          && (cfg.trim(last) == "" || IsChunk(cfg, last) || (IsDone(cfg, last) && chunked)))
      && ((exists j :: 0 <= j <= |before| && IsChunk(cfg, (before + [last])[j])) <==> chunked || IsChunk(cfg, last))
  {
    var n, frames := |before|, before + [last];
    assert frames[n] == last && forall i :: 0 <= i < n ==> before[i] == frames[i];
    if OpenAiOrder(cfg, frames) && n > 0 && IsDone(cfg, before[n - 1]) {
      assert false;
    }
  }

  lemma RewrittenSnoc(cfg: Config, before: seq<string>, last: string)
    ensures
      var r, all := Rewritten(cfg, before), Rewritten(cfg, before + [last]);
      && r <= all && |all| <= |r| + 1
      && (AcceptsFirst(cfg.accepts, |all|) <==>
          AcceptsFirst(cfg.accepts, |r|) && (|all| > |r| ==> cfg.accepts(|r|)))
  {
    assert (before + [last])[..|before|] == before;
  }

  lemma {:induction false} OpenAiReach(cfg: Config, frames: seq<string>)
    requires cfg.protocol == OpenAi
    ensures After(cfg, frames).Some? <==>
            OpenAiOrder(cfg, frames) && AcceptsFirst(cfg.accepts, |Rewritten(cfg, frames)|)
    ensures After(cfg, frames).Some? ==>
              var st := After(cfg, frames).value;
              && st.out == Rewritten(cfg, frames)
              && (st.started <==> exists j :: 0 <= j < |frames| && IsChunk(cfg, frames[j]))
              && (st.usage.complete <==> |frames| > 0 && IsDone(cfg, frames[|frames| - 1]))
  {
    if frames != [] {
      var before, last := frames[..|frames| - 1], frames[|frames| - 1];
      assert before + [last] == frames;
      AfterSnoc(cfg, before, last);
      OpenAiReach(cfg, before);
      OpenAiOrderSnoc(cfg, before, last);
      RewrittenSnoc(cfg, before, last);
    }
  }

  /** One frame that is taken observes the report of a chunk and nothing else. */
  lemma ChunkIsObserved(cfg: Config, st: State, frame: string)
    requires cfg.protocol == OpenAi && Dispatch(cfg, st, frame).1 == Ok
    ensures
      var next := Dispatch(cfg, st, frame).0.usage;
      var seen := if IsChunk(cfg, frame) then Observe(st.usage, ReportIn(cfg, frame), "prompt_tokens", "completion_tokens")
                  else st.usage;
      next.input == seen.input && next.output == seen.output
  {
  }

  /** The usage after any frames taken is that of their chunks. */
  lemma {:induction false} OpenAiUsage(cfg: Config, frames: seq<string>)
    requires cfg.protocol == OpenAi && After(cfg, frames).Some?
    ensures
      var u := After(cfg, frames).value.usage;
      u == ChunkUsage(cfg, frames, u.complete)
  {
    if frames != [] {
      var before, last := frames[..|frames| - 1], frames[|frames| - 1];
      assert before + [last] == frames;
      AfterSnoc(cfg, before, last);
      OpenAiUsage(cfg, before);
      var st := After(cfg, before).value;
      ChunkIsObserved(cfg, st, last);
      LastReportedSnoc(ChunkReports(cfg, before), ReportIn(cfg, last), st.usage, "prompt_tokens", "completion_tokens");
    }
  }

  /** The first `k` frames are a whole stream, and the client takes every frame they deliver. */
  ghost predicate OpenAiComplete(cfg: Config, frames: seq<string>, k: nat) {
    && 0 < k <= |frames|
    && IsDone(cfg, frames[k - 1])
    && OpenAiOrder(cfg, frames[..k])
    && AcceptsFirst(cfg.accepts, |Rewritten(cfg, frames[..k])|)
  }

  /** The state a whole stream leaves: its chunks rewritten, and the usage they report. */
  ghost predicate OpenAiResult(cfg: Config, frames: seq<string>, st: State) {
    st.out == Rewritten(cfg, frames) && st.usage == ChunkUsage(cfg, frames, true)
  }

  lemma OpenAiPrefix(cfg: Config, frames: seq<string>, k: nat, out: seq<Frame>)
    requires cfg.protocol == OpenAi && k <= |frames|
    ensures forall st :: CompleteAfter(cfg, frames, k, st) ==> OpenAiComplete(cfg, frames, k)
    ensures OpenAiComplete(cfg, frames, k) ==> exists st :: CompleteAfter(cfg, frames, k, st) && OpenAiResult(cfg, frames[..k], st)
    ensures DeliveredBy(cfg, frames, k, out) ==> out == Rewritten(cfg, frames[..k])
  {
    OpenAiReach(cfg, frames[..k]);
    if OpenAiComplete(cfg, frames, k) {
      OpenAiUsage(cfg, frames[..k]);
      assert CompleteAfter(cfg, frames, k, After(cfg, frames[..k]).value);
    }
  }

  /**
   An OpenAI-compatible stream completes exactly on blank frames and chunks, at
   least one, ended by `[DONE]`. Then the usage is the last valid count of each kind
   that a chunk reports; and what was delivered is, complete or not, a run of the
   upstream chunks in order with only the model replaced.
   */
  lemma OpenAiStreamExact(cfg: Config, lines: seq<string>, end: Outcome)
    requires cfg.protocol == OpenAi && end != Ok
    ensures
      var (final, o) := Scan(cfg, lines, end, "", START);
      var frames := Frames(lines, "").0;
      && (o == Ok <==> exists k :: OpenAiComplete(cfg, frames, k))
      && (forall k: nat :: OpenAiComplete(cfg, frames, k) ==> OpenAiResult(cfg, frames[..k], final))
      && (exists k :: 0 <= k <= |frames| && final.out == Rewritten(cfg, frames[..k]))
  {
    var (final, o) := Scan(cfg, lines, end, "", START);
    var frames := Frames(lines, "").0;
    CompletionIsReached(cfg, lines, end);
    forall k: nat | k <= |frames|
      ensures forall st :: CompleteAfter(cfg, frames, k, st) ==> OpenAiComplete(cfg, frames, k)
      ensures OpenAiComplete(cfg, frames, k) ==>
                exists st :: CompleteAfter(cfg, frames, k, st) && OpenAiResult(cfg, frames[..k], st)
      ensures DeliveredBy(cfg, frames, k, final.out) ==> final.out == Rewritten(cfg, frames[..k])
    {
      OpenAiPrefix(cfg, frames, k, final.out);
    }
    var k: nat :| DeliveredBy(cfg, frames, k, final.out);
    assert final.out == Rewritten(cfg, frames[..k]);
  }

  /** A frame, taken or not, leaves each counter or sets it to what it reports. */
  lemma FrameMovesUsage(cfg: Config, st: State, frame: string)
    requires cfg.protocol == OpenAi
    ensures
      var u, v, report := st.usage, Dispatch(cfg, st, frame).0.usage, ReportIn(cfg, frame);
      && (v.input == u.input || (v.input.Some? && v.input == Reported(report, "prompt_tokens")))
      && (v.output == u.output || (v.output.Some? && v.output == Reported(report, "completion_tokens")))
  {
    var obj := ResponseObject(cfg.parse(cfg.trim(frame)));
    if obj.Some? {
      ObjectMovesUsage(cfg, st, obj.value);
    }
  }

  lemma ObjectMovesUsage(cfg: Config, st: State, obj: Fields)
    ensures
      var u, v, report := st.usage, ApplyObject(cfg, st, obj).0.usage, Get(obj, "usage");
      && (v.input == u.input || (v.input.Some? && v.input == Reported(report, "prompt_tokens")))
      && (v.output == u.output || (v.output.Some? && v.output == Reported(report, "completion_tokens")))
  {
  }

  /**
   For every run, failed ones included: each counter is the last valid one that the
   chunks taken report, or what the frame it failed on reports.
   */
  lemma OpenAiUsageOfEveryRun(cfg: Config, lines: seq<string>, end: Outcome) returns (k: nat)
    requires cfg.protocol == OpenAi && end != Ok
    ensures
      var frames, u := Frames(lines, "").0, Scan(cfg, lines, end, "", START).0.usage;
      && k <= |frames| && After(cfg, frames[..k]).Some?
      && var taken := ChunkUsage(cfg, frames[..k], u.complete);
         var failed := if k < |frames| then ReportIn(cfg, frames[k]) else None;
         && (u.input == taken.input || (u.input.Some? && u.input == Reported(failed, "prompt_tokens")))
         && (u.output == taken.output || (u.output.Some? && u.output == Reported(failed, "completion_tokens")))
  {
    var (frames, overflow) := Frames(lines, "");
    var final := Scan(cfg, lines, end, "", START).0;
    ScanDispatchesFrames(cfg, lines, end, "", START);
    RunReaches(Dispatcher(cfg), IsComplete(), START, frames, EndOf(end, overflow));
    k :| StopsAt(Dispatcher(cfg), IsComplete(), START, frames, k, final);
    OpenAiUsage(cfg, frames[..k]);
    if k < |frames| {
      FrameMovesUsage(cfg, After(cfg, frames[..k]).value, frames[k]);
    }
  }

  // ---- Anthropic streams

  function EventOf(cfg: Config, frame: string): Event {
    match ResponseObject(cfg.parse(cfg.trim(frame)))
    case Some(obj) => DecodeEvent(obj)
    case None => Malformed
  }

  /** The events of a sequence of frames; blank frames carry none. */
  function Events(cfg: Config, frames: seq<string>): seq<Event> {
    if frames == [] then []
    else
      var before, last := Events(cfg, frames[..|frames| - 1]), frames[|frames| - 1];
      if cfg.trim(last) == "" then before else before + [EventOf(cfg, last)]
  }

  predicate NeedsStart(e: Event) {
    e.BlockStart? || e.BlockDelta? || e.MessageDelta?
  }

  ghost predicate HasStart(events: seq<Event>, before: nat)
    requires before <= |events|
  {
    exists j :: 0 <= j < before && events[j].MessageStart?
  }

  ghost predicate HasStop(events: seq<Event>, before: nat)
    requires before <= |events|
  {
    exists j :: 0 <= j < before && events[j].MessageDelta?
  }

  /** Event `i` may stand where it stands. */
  ghost predicate Allowed(events: seq<Event>, i: nat)
    requires i < |events|
  {
    var e := events[i];
    && !e.Malformed?
    && (e.MessageStart? ==> !HasStart(events, i))
    && (NeedsStart(e) ==> HasStart(events, i))
    && (e.MessageDelta? ==> FinishReason(e.stop).Some?)
    && (e.MessageStop? ==> HasStop(events, i) && i == |events| - 1)
  }

  /** The language of orderly event sequences. */
  ghost predicate Orderly(events: seq<Event>) {
    forall i :: 0 <= i < |events| ==> Allowed(events, i)
  }

  /** The id of the message the events start. */
  function StartId(events: seq<Event>): string {
    if events == [] then ""
    else if events[|events| - 1].MessageStart? then events[|events| - 1].id
    else StartId(events[..|events| - 1])
  }

  /** The frames one event is translated into. */
  function ChunksFor(id: string, alias: string, e: Event): seq<Frame> {
    match e
    case MessageStart(_, _) => [Chunk(id, alias, map["role" := "assistant", "content" := ""], None)]
    case BlockStart(text) => if text == "" then [] else [Chunk(id, alias, map["content" := text], None)]
    case BlockDelta(text) => [Chunk(id, alias, map["content" := text], None)]
    case MessageDelta(stop, _) => [Chunk(id, alias, map[], FinishReason(stop))]
    case MessageStop => [DoneMark]
    case _ => []
  }

  function Translated(alias: string, events: seq<Event>): seq<Frame> {
    if events == [] then []
    else Translated(alias, events[..|events| - 1]) + ChunksFor(StartId(events), alias, events[|events| - 1])
  }

  /** The usage reports of the events, in order. */
  function Reports(events: seq<Event>): seq<Option<Json>> {
    if events == [] then []
    else
      var before := Reports(events[..|events| - 1]);
      match events[|events| - 1]
      case MessageStart(_, usage) => before + [usage]
      case MessageDelta(_, usage) => before + [usage]
      case _ => before
  }

  predicate Completed(events: seq<Event>) {
    |events| > 0 && events[|events| - 1].MessageStop?
  }

  /** The relay's state as the events so far determine it. */
  ghost predicate StateAfter(cfg: Config, events: seq<Event>, st: State) {
    && st.id == StartId(events)
    && (st.started <==> HasStart(events, |events|))
    && (st.finished <==> HasStop(events, |events|))
    && st.usage.input == LastReported(Reports(events), "input_tokens")
    && st.usage.output == LastReported(Reports(events), "output_tokens")
    && (st.usage.complete <==> Completed(events))
    && st.out == Translated(cfg.alias, events)
  }

  lemma EarlierUnchanged(events: seq<Event>, e: Event, i: nat)
    requires i <= |events|
    ensures HasStart(events + [e], i) == HasStart(events, i)
    ensures HasStop(events + [e], i) == HasStop(events, i)
    ensures i < |events| ==> (Allowed(events + [e], i) <==> Allowed(events, i) && !events[i].MessageStop?)
  {
    assert forall j :: 0 <= j < |events| ==> (events + [e])[j] == events[j];
  }

  lemma OrderlySnoc(events: seq<Event>, e: Event)
    ensures Orderly(events + [e]) <==>
            Orderly(events) && !Completed(events) && Allowed(events + [e], |events|)
  {
    var all, n := events + [e], |events|;
    forall i | 0 <= i < n
      ensures Allowed(all, i) <==> Allowed(events, i) && !events[i].MessageStop?
    {
      EarlierUnchanged(events, e, i);
    }
    if Orderly(events) && !Completed(events) && Allowed(all, n) {
      forall i | 0 <= i < |all|
        ensures Allowed(all, i)
      {
        if i < n {
          assert Allowed(events, i);
        }
      }
    }
  }

  lemma HasStartSnoc(events: seq<Event>, e: Event)
    ensures HasStart(events + [e], |events| + 1) <==> HasStart(events, |events|) || e.MessageStart?
    ensures HasStop(events + [e], |events| + 1) <==> HasStop(events, |events|) || e.MessageDelta?
  {
    var all := events + [e];
    assert forall j :: 0 <= j < |events| ==> all[j] == events[j];
    assert all[|events|] == e;
  }

  lemma SnocParts(alias: string, events: seq<Event>, e: Event)
    ensures var all := events + [e];
            && StartId(all) == (if e.MessageStart? then e.id else StartId(events))
            && Translated(alias, all) == Translated(alias, events) + ChunksFor(StartId(all), alias, e)
            && Reports(all) == Reports(events) + (if e.MessageStart? then [e.startUsage]
                                                  else if e.MessageDelta? then [e.deltaUsage] else [])
  {
    assert (events + [e])[..|events|] == events;
  }

  /** The usage after an event, its report observed. */
  function SeenIn(u: Usage, e: Event): Usage {
    match e
    case MessageStart(_, report) => Observe(u, report, "input_tokens", "output_tokens")
    case MessageDelta(_, report) => Observe(u, report, "input_tokens", "output_tokens")
    case _ => u
  }

  /** What one event does to the flags, the usage and the delivered frames. */
  lemma EventStep(cfg: Config, st: State, e: Event)
    requires !st.usage.complete
    ensures
      var (next, o) := ApplyEvent(cfg, st, e);
      var id := if e.MessageStart? then e.id else st.id;
      var chunks := ChunksFor(id, cfg.alias, e);
      && (o == Ok <==>
          && !e.Malformed?
          && (e.MessageStart? ==> !st.started) && (NeedsStart(e) ==> st.started)
          && (e.MessageDelta? ==> FinishReason(e.stop).Some?) && (e.MessageStop? ==> st.finished)
          && (chunks != [] ==> cfg.accepts(|st.out|)))
      && (o == Ok ==>
            next == State(id, st.started || e.MessageStart?, st.finished || e.MessageDelta?,
                          SeenIn(st.usage, e).(complete := e.MessageStop?), st.out + chunks))
  {
    assert st.out + [] == st.out;
  }

  lemma SeenSnoc(events: seq<Event>, e: Event, u: Usage)
    requires u.input == LastReported(Reports(events), "input_tokens")
    requires u.output == LastReported(Reports(events), "output_tokens")
    ensures SeenIn(u, e).input == LastReported(Reports(events + [e]), "input_tokens")
    ensures SeenIn(u, e).output == LastReported(Reports(events + [e]), "output_tokens")
  {
    SnocParts("", events, e);
    match e {
      case MessageStart(_, report) => LastReportedSnoc(Reports(events), report, u, "input_tokens", "output_tokens");
      case MessageDelta(_, report) => LastReportedSnoc(Reports(events), report, u, "input_tokens", "output_tokens");
      case _ => assert Reports(events + [e]) == Reports(events);
    }
  }

  /** One event: it is taken exactly when it is allowed and the client takes its frames. */
  lemma ApplyEventExact(cfg: Config, events: seq<Event>, e: Event, st: State)
    requires StateAfter(cfg, events, st) && !st.usage.complete
    ensures
      var all := events + [e];
      var (next, o) := ApplyEvent(cfg, st, e);
      && (o == Ok <==> Allowed(all, |events|)
                       && (|Translated(cfg.alias, all)| > |st.out| ==> cfg.accepts(|st.out|)))
      && (o == Ok ==> StateAfter(cfg, all, next))
  {
    EarlierUnchanged(events, e, |events|);
    HasStartSnoc(events, e);
    SnocParts(cfg.alias, events, e);
    SeenSnoc(events, e, st.usage);
    EventStep(cfg, st, e);
  }

  /** The frames are orderly, the stream was open before the last one, and the client takes what they deliver. */
  ghost predicate Taken(cfg: Config, frames: seq<string>) {
    && Orderly(Events(cfg, frames))
    && (frames != [] ==> !Completed(Events(cfg, frames[..|frames| - 1])))
    && AcceptsFirst(cfg.accepts, |Translated(cfg.alias, Events(cfg, frames))|)
  }

  lemma OpenBefore(cfg: Config, frames: seq<string>)
    requires frames != [] && Orderly(Events(cfg, frames)) && !Completed(Events(cfg, frames))
    ensures !Completed(Events(cfg, frames[..|frames| - 1]))
  {
    OrderlySnoc(Events(cfg, frames[..|frames| - 1]), EventOf(cfg, frames[|frames| - 1]));
  }

  lemma OpenSnoc(cfg: Config, before: seq<string>, last: string)
    ensures
      var events, e := Events(cfg, before), EventOf(cfg, last);
      Orderly(Events(cfg, before + [last])) && !Completed(events) <==>
      && Orderly(events) && !Completed(events)
      && (before != [] ==> !Completed(Events(cfg, before[..|before| - 1])))
      && (cfg.trim(last) != "" ==> Allowed(events + [e], |events|))
  {
    var events, e := Events(cfg, before), EventOf(cfg, last);
    assert (before + [last])[..|before|] == before;
    OrderlySnoc(events, e);
    if before != [] && Orderly(events) && !Completed(events) {
      OpenBefore(cfg, before);
    }
  }

  lemma AcceptsSnoc(cfg: Config, events: seq<Event>, e: Event)
    ensures
      var size, grown := |Translated(cfg.alias, events)|, |Translated(cfg.alias, events + [e])|;
      AcceptsFirst(cfg.accepts, grown) <==>
      AcceptsFirst(cfg.accepts, size) && (grown > size ==> cfg.accepts(size))
  {
    SnocParts(cfg.alias, events, e);
  }

  lemma TakenSnoc(cfg: Config, before: seq<string>, last: string)
    ensures
      var events, e := Events(cfg, before), EventOf(cfg, last);
      var size := |Translated(cfg.alias, events)|;
      Taken(cfg, before + [last]) <==>
      && Taken(cfg, before) && !Completed(events)
      && (cfg.trim(last) != "" ==>
            && Allowed(events + [e], |events|)
            && (|Translated(cfg.alias, events + [e])| > size ==> cfg.accepts(size)))
  {
    assert (before + [last])[..|before|] == before;
    OpenSnoc(cfg, before, last);
    AcceptsSnoc(cfg, Events(cfg, before), EventOf(cfg, last));
  }

  /** A frame that carries an event dispatches just that event. */
  lemma DispatchIsEvent(cfg: Config, st: State, frame: string)
    requires cfg.protocol == Anthropic && cfg.trim(frame) != ""
    ensures Dispatch(cfg, st, frame) == ApplyEvent(cfg, st, EventOf(cfg, frame))
  {
  }

  ghost predicate ReachesExactly(cfg: Config, frames: seq<string>) {
    && (After(cfg, frames).Some? <==> Taken(cfg, frames))
    && (After(cfg, frames).Some? ==> StateAfter(cfg, Events(cfg, frames), After(cfg, frames).value))
  }

  lemma AfterSnoc(cfg: Config, before: seq<string>, last: string)
    ensures
      var st := After(cfg, before);
      After(cfg, before + [last]) ==
      if st.None? || st.value.usage.complete || Dispatch(cfg, st.value, last).1 != Ok then None
      else Some(Dispatch(cfg, st.value, last).0)
  {
    assert (before + [last])[..|before|] == before;
  }

  lemma EventsSnoc(cfg: Config, before: seq<string>, last: string)
    ensures Events(cfg, before + [last]) ==
            Events(cfg, before) + (if cfg.trim(last) == "" then [] else [EventOf(cfg, last)])
  {
    assert (before + [last])[..|before|] == before;
  }

  lemma ReachSnoc(cfg: Config, before: seq<string>, last: string)
    requires cfg.protocol == Anthropic && ReachesExactly(cfg, before)
    ensures ReachesExactly(cfg, before + [last])
  {
    AfterSnoc(cfg, before, last);
    EventsSnoc(cfg, before, last);
    TakenSnoc(cfg, before, last);
    if cfg.trim(last) != "" && After(cfg, before).Some? && !After(cfg, before).value.usage.complete {
      DispatchIsEvent(cfg, After(cfg, before).value, last);
      ApplyEventExact(cfg, Events(cfg, before), EventOf(cfg, last), After(cfg, before).value);
    }
  }

  lemma {:induction false} AnthropicReach(cfg: Config, frames: seq<string>)
    requires cfg.protocol == Anthropic
    ensures ReachesExactly(cfg, frames)
  {
    if frames != [] {
      var before, last := frames[..|frames| - 1], frames[|frames| - 1];
      assert before + [last] == frames;
      AnthropicReach(cfg, before);
      ReachSnoc(cfg, before, last);
    }
  }
}
