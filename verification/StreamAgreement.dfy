/**
 The Anthropic path of `RelaySSE`: the exact language of streams that complete,
 and the theorem that a client which puts the delivered chunks together has the
 completion `RewriteJSON` makes of the message the stream carries.
 */
module StreamAgreement {
  import opened Options
  import opened Json
  import opened Streams
  import opened Relay
  import opened RelayTheorems
  import opened EventShapes

  // ---- The exact language

  /** The first `k` frames are a whole stream whose frames the client takes. */
  ghost predicate AnthropicComplete(cfg: Config, frames: seq<string>, k: nat) {
    k <= |frames| && Taken(cfg, frames[..k]) && Completed(Events(cfg, frames[..k]))
  }

  /**
   An Anthropic stream completes exactly on the orderly event sequences ended by
   message_stop. What was delivered is, complete or not, the translation of the
   events dispatched so far.
   */
  lemma AnthropicStreamExact(cfg: Config, lines: seq<string>, end: Outcome)
    requires cfg.protocol == Anthropic && end != Ok
    ensures
      var (final, o) := Scan(cfg, lines, end, "", START);
      var frames := Frames(lines, "").0;
      && (o == Ok <==> exists k :: AnthropicComplete(cfg, frames, k))
      && (forall k: nat :: AnthropicComplete(cfg, frames, k) ==> StateAfter(cfg, Events(cfg, frames[..k]), final))
      && (exists k :: 0 <= k <= |frames| && final.out == Translated(cfg.alias, Events(cfg, frames[..k])))
  {
    var (final, o) := Scan(cfg, lines, end, "", START);
    var frames := Frames(lines, "").0;
    CompletionIsReached(cfg, lines, end);
    forall k: nat | k <= |frames|
      ensures forall st :: CompleteAfter(cfg, frames, k, st) ==> AnthropicComplete(cfg, frames, k)
      ensures AnthropicComplete(cfg, frames, k) ==>
                exists st :: CompleteAfter(cfg, frames, k, st) && StateAfter(cfg, Events(cfg, frames[..k]), st)
      ensures DeliveredBy(cfg, frames, k, final.out) ==> final.out == Translated(cfg.alias, Events(cfg, frames[..k]))
    {
      AnthropicReach(cfg, frames[..k]);
      if AnthropicComplete(cfg, frames, k) {
        assert CompleteAfter(cfg, frames, k, After(cfg, frames[..k]).value);
      }
    }
    var k: nat :| DeliveredBy(cfg, frames, k, final.out);
    assert final.out == Translated(cfg.alias, Events(cfg, frames[..k]));
  }

  /** Completion needs a message_start, then an accepted stop reason, then message_stop. */
  lemma CompletionNeedsStartAndReason(events: seq<Event>)
    requires Orderly(events) && Completed(events)
    ensures exists i, j :: 0 <= i < j < |events| - 1 && events[i].MessageStart?
                           && events[j].MessageDelta? && FinishReason(events[j].stop).Some?
  {
    assert Allowed(events, |events| - 1);
    var j :| 0 <= j < |events| - 1 && events[j].MessageDelta?;
    assert Allowed(events, j);
    var i :| 0 <= i < j && events[i].MessageStart?;
  }

  // ---- What a client assembles from the chunks

  datatype Assembled = Assembled(id: string, model: string, text: string, reason: Option<string>, done: bool)

  function Assemble(out: seq<Frame>): Assembled {
    if out == [] then Assembled("", "", "", None, false)
    else
      var a := Assemble(out[..|out| - 1]);
      match out[|out| - 1]
      case Chunk(id, model, delta, reason) =>
        Assembled(id, model, a.text + (if "content" in delta then delta["content"] else ""),
                  if reason.Some? then reason else a.reason, a.done)
      case Relayed(_) => a
      case DoneMark => a.(done := true)
  }

  // ---- The message a stream carries

  /** The content blocks: a block start opens one, a delta grows the last one. */
  function Blocks(events: seq<Event>): seq<string> {
    if events == [] then []
    else
      var before := Blocks(events[..|events| - 1]);
      match events[|events| - 1]
      case BlockStart(text) => before + [text]
      case BlockDelta(text) =>
        if before == [] then [text] else before[|before| - 1 := before[|before| - 1] + text]
      case _ => before
  }

  function LastStop(events: seq<Event>): string {
    if events == [] then ""
    else if events[|events| - 1].MessageDelta? then events[|events| - 1].stop
    else LastStop(events[..|events| - 1])
  }

  /** Usage reports laid over each other, the later ones on top. */
  function Merged(reports: seq<Option<Json>>): Fields {
    if reports == [] then map[]
    else
      var before := Merged(reports[..|reports| - 1]);
      match AsObject(reports[|reports| - 1])
      case Some(Some(fields)) => before + fields
      case _ => before
  }

  function BlockItem(text: string): Json {
    JObj(map["type" := JStr("text"), "text" := JStr(text)])
  }

  function Items(texts: seq<string>): seq<Json> {
    if texts == [] then [] else Items(texts[..|texts| - 1]) + [BlockItem(texts[|texts| - 1])]
  }

  function MessageOf(events: seq<Event>): Fields {
    map["id" := JStr(StartId(events)),
        "content" := JArr(Items(Blocks(events))),
        "stop_reason" := JStr(LastStop(events)),
        "usage" := JObj(Merged(Reports(events)))]
  }

  lemma {:induction false} TextOfItems(texts: seq<string>)
    ensures TextOf(Items(texts)) == Some(Concat(texts))
  {
    if texts != [] {
      TextOfItems(texts[..|texts| - 1]);
      var items := Items(texts);
      assert items[..|items| - 1] == Items(texts[..|texts| - 1]);
    }
  }

  /** The text an event adds. */
  function TextAdded(e: Event): string {
    match e
    case BlockStart(text) => text
    case BlockDelta(text) => text
    case _ => ""
  }

  lemma BlocksSnoc(events: seq<Event>, e: Event)
    ensures Concat(Blocks(events + [e])) == Concat(Blocks(events)) + TextAdded(e)
    ensures LastStop(events + [e]) == if e.MessageDelta? then e.stop else LastStop(events)
  {
    assert (events + [e])[..|events|] == events;
    var before, after := Blocks(events), Blocks(events + [e]);
    if e.BlockStart? {
      assert after[..|after| - 1] == before;
    } else if e.BlockDelta? && before != [] {
      assert after[..|after| - 1] == before[..|before| - 1];
    } else if e.BlockDelta? {
      assert after[..0] == [];
    }
  }

  /** The client's view of the delivered frames, as the events determine it. */
  ghost predicate AssembledFrom(alias: string, events: seq<Event>) {
    var a := Assemble(Translated(alias, events));
    && a.text == Concat(Blocks(events))
    && a.done == Completed(events)
    && a.reason == (if HasStop(events, |events|) then FinishReason(LastStop(events)) else None)
    && (HasStart(events, |events|) ==> a.id == StartId(events) && a.model == alias)
  }

  lemma AssembleSnoc(out: seq<Frame>, frame: Frame)
    ensures Assemble(out + [frame]) ==
            var a := Assemble(out);
            match frame
            case Chunk(id, model, delta, reason) =>
              Assembled(id, model, a.text + (if "content" in delta then delta["content"] else ""),
                        if reason.Some? then reason else a.reason, a.done)
            case Relayed(_) => a
            case DoneMark => a.(done := true)
  {
    assert (out + [frame])[..|out|] == out;
  }

  /** What the frames of one event add to the client's view. */
  lemma ChunksAssembled(out: seq<Frame>, id: string, alias: string, e: Event)
    ensures
      var a, next := Assemble(out), Assemble(out + ChunksFor(id, alias, e));
      && next.text == a.text + TextAdded(e)
      && next.done == (a.done || e.MessageStop?)
      && next.reason == (if e.MessageDelta? && FinishReason(e.stop).Some? then FinishReason(e.stop) else a.reason)
      && ((next.id == a.id && next.model == a.model) || (next.id == id && next.model == alias))
      && (e.MessageStart? ==> next.id == id && next.model == alias)
  {
    var chunks := ChunksFor(id, alias, e);
    if chunks == [] {
      assert out + chunks == out;
    } else {
      AssembleSnoc(out, chunks[0]);
    }
  }

  lemma AssembledSnoc(alias: string, before: seq<Event>, e: Event)
    requires Orderly(before + [e]) && AssembledFrom(alias, before)
    ensures AssembledFrom(alias, before + [e])
  {
    OrderlySnoc(before, e);
    EarlierUnchanged(before, e, |before|);
    HasStartSnoc(before, e);
    SnocParts(alias, before, e);
    BlocksSnoc(before, e);
    ChunksAssembled(Translated(alias, before), StartId(before + [e]), alias, e);
  }

  lemma {:induction false} AssembledFromEvents(alias: string, events: seq<Event>)
    requires Orderly(events)
    ensures AssembledFrom(alias, events)
  {
    if events != [] {
      var before, e := events[..|events| - 1], events[|events| - 1];
      assert before + [e] == events;
      OrderlySnoc(before, e);
      AssembledFromEvents(alias, before);
      AssembledSnoc(alias, before, e);
    }
  }

  ghost predicate CarryIdAndAlias(alias: string, events: seq<Event>) {
    && (!HasStart(events, |events|) ==> Translated(alias, events) == [])
    && forall f :: f in Translated(alias, events) && f.Chunk? ==> f.id == StartId(events) && f.model == alias
  }

  lemma StopIsAfterStart(events: seq<Event>)
    requires Orderly(events) && Completed(events)
    ensures HasStart(events, |events| - 1)
  {
    CompletionNeedsStartAndReason(events);
  }

  lemma CarrySnoc(alias: string, before: seq<Event>, e: Event)
    requires Orderly(before + [e]) && CarryIdAndAlias(alias, before)
    ensures CarryIdAndAlias(alias, before + [e])
  {
    var all := before + [e];
    assert Allowed(all, |before|);
    EarlierUnchanged(before, e, |before|);
    HasStartSnoc(before, e);
    SnocParts(alias, before, e);
    if e.MessageStop? {
      StopIsAfterStart(all);
    }
  }

  /** Every delivered chunk carries the message's id and the alias, and nothing is delivered before the start. */
  lemma {:induction false} ChunksCarryIdAndAlias(alias: string, events: seq<Event>)
    requires Orderly(events)
    ensures CarryIdAndAlias(alias, events)
  {
    if events != [] {
      var before, e := events[..|events| - 1], events[|events| - 1];
      assert before + [e] == events;
      OrderlySnoc(before, e);
      ChunksCarryIdAndAlias(alias, before);
      CarrySnoc(alias, before, e);
    }
  }

  // ---- Usage

  predicate Mentions(report: Option<Json>, name: string) {
    match AsObject(report)
    case Some(Some(fields)) => name in fields
    case _ => false
  }

  /** Report `j` gives a valid counter and no later one mentions it. */
  ghost predicate SettledAt(reports: seq<Option<Json>>, name: string, j: nat) {
    && j < |reports| && Reported(reports[j], name).Some?
    && forall k :: j < k < |reports| ==> !Mentions(reports[k], name)
  }

  /** No report with a valid counter is followed by one that spoils it. */
  ghost predicate Settled(reports: seq<Option<Json>>, name: string) {
    || (forall i :: 0 <= i < |reports| ==> Reported(reports[i], name).None?)
    || (exists j :: SettledAt(reports, name, j))
  }

  lemma {:induction false} LastReportedNone(reports: seq<Option<Json>>, name: string)
    ensures LastReported(reports, name).None? <==>
            forall i :: 0 <= i < |reports| ==> Reported(reports[i], name).None?
  {
    if reports != [] {
      var before := reports[..|reports| - 1];
      LastReportedNone(before, name);
      assert forall i :: 0 <= i < |before| ==> before[i] == reports[i];
    }
  }

  lemma SettledAtSnoc(before: seq<Option<Json>>, report: Option<Json>, name: string, j: nat)
    ensures j < |before| ==>
              (SettledAt(before + [report], name, j) <==> SettledAt(before, name, j) && !Mentions(report, name))
    ensures SettledAt(before + [report], name, |before|) <==> Reported(report, name).Some?
  {
    var all, n := before + [report], |before|;
    assert forall i :: 0 <= i < n ==> all[i] == before[i];
    assert all[n] == report;
    if j < n && SettledAt(all, name, j) {
      assert !Mentions(all[n], name);
      assert forall k :: j < k < n ==> !Mentions(all[k], name);
    }
  }

  lemma SettledSnoc(before: seq<Option<Json>>, report: Option<Json>, name: string)
    ensures Settled(before + [report], name) <==>
            || Reported(report, name).Some?
            || (if Mentions(report, name) then LastReported(before, name).None? else Settled(before, name))
  {
    var all, n := before + [report], |before|;
    LastReportedNone(before, name);
    LastReportedNone(all, name);
    assert all[..n] == before && all[n] == report;
    SettledAtSnoc(before, report, name, n);
    forall j: nat | j < n
      ensures SettledAt(all, name, j) <==> SettledAt(before, name, j) && !Mentions(report, name)
    {
      SettledAtSnoc(before, report, name, j);
    }
    if Settled(all, name) && LastReported(all, name).Some? {
      var j :| SettledAt(all, name, j);
    }
    if Settled(before, name) && LastReported(before, name).Some? {
      var j :| SettledAt(before, name, j);
      assert !Mentions(report, name) ==> SettledAt(all, name, j);
    }
  }

  /** Observing the merged reports once is observing each in turn exactly when they are settled. */
  lemma {:induction false} MergedUsage(reports: seq<Option<Json>>, name: string)
    ensures Counter(Get(Merged(reports), name)) == LastReported(reports, name) <==> Settled(reports, name)
    ensures Counter(Get(Merged(reports), name)).Some? ==> LastReported(reports, name).Some?
  {
    if reports != [] {
      var before, last := reports[..|reports| - 1], reports[|reports| - 1];
      assert before + [last] == reports;
      MergedUsage(before, name);
      SettledSnoc(before, last, name);
    }
  }

  /** Two reports that are not: a stream keeps the 7, the merged message has no valid counter. */
  lemma SpoiledCounter(name: string)
    ensures
      var reports := [Some(JObj(map[name := JInt(7)])), Some(JObj(map[name := JStr("7")]))];
      && LastReported(reports, name) == Some(7)
      && Counter(Get(Merged(reports), name)) == None
      && !Settled(reports, name)
  {
    var first, second := Some(JObj(map[name := JInt(7)])), Some(JObj(map[name := JStr("7")]));
    var reports := [first, second];
    assert reports[..1] == [first] && [first][..0] == [];
    assert Reported(second, name).None? && Reported(first, name) == Some(7);
    MergedUsage(reports, name);
  }

  // ---- Agreement

  predicate Same(a: Assembled, c: Completion) {
    a.done && a.id == c.id && a.model == c.model && a.text == c.text && a.reason == Some(c.reason)
  }

  lemma RewriteMessage(id: string, items: seq<Json>, stop: string, report: Fields, alias: string)
    requires TextOf(items).Some? && FinishReason(stop).Some?
    ensures
      var message := map["id" := JStr(id), "content" := JArr(items), "stop_reason" := JStr(stop), "usage" := JObj(report)];
      var (whole, usage) := Rewrite(Some(JObj(message)), alias, UNKNOWN);
      && whole.Some?
      && whole.value.id == id && whole.value.model == alias && whole.value.text == TextOf(items).value
      && Some(whole.value.reason) == FinishReason(stop)
      && usage == Usage(Counter(Get(report, "input_tokens")), Counter(Get(report, "output_tokens")), true)
  {
  }

  lemma WholeMessage(alias: string, events: seq<Event>)
    requires FinishReason(LastStop(events)).Some?
    ensures
      var (whole, usage) := Rewrite(Some(JObj(MessageOf(events))), alias, UNKNOWN);
      && whole.Some?
      && whole.value.id == StartId(events) && whole.value.model == alias
      && whole.value.text == Concat(Blocks(events))
      && Some(whole.value.reason) == FinishReason(LastStop(events))
      && usage.complete
      && usage.input == Counter(Get(Merged(Reports(events)), "input_tokens"))
      && usage.output == Counter(Get(Merged(Reports(events)), "output_tokens"))
  {
    TextOfItems(Blocks(events));
    RewriteMessage(StartId(events), Items(Blocks(events)), LastStop(events), Merged(Reports(events)), alias);
  }

  lemma {:induction false} LastStopAccepted(events: seq<Event>)
    requires Orderly(events) && HasStop(events, |events|)
    ensures FinishReason(LastStop(events)).Some?
  {
    var before, e := events[..|events| - 1], events[|events| - 1];
    assert before + [e] == events;
    OrderlySnoc(before, e);
    HasStartSnoc(before, e);
    assert Allowed(events, |before|);
    if !e.MessageDelta? {
      LastStopAccepted(before);
    }
  }

  /**
   For every stream that completes: its chunks assemble to the completion that
   `RewriteJSON` makes of the message it carries (same id, alias, text and finish
   reason), and the observed usage is the same exactly when no counter is
   reported validly and then spoiled by a later malformed report.
   */
  lemma StreamAgreesWithMessage(cfg: Config, lines: seq<string>, end: Outcome, k: nat)
    requires cfg.protocol == Anthropic && end != Ok
    requires AnthropicComplete(cfg, Frames(lines, "").0, k)
    ensures
      var (final, o) := Scan(cfg, lines, end, "", START);
      var events := Events(cfg, Frames(lines, "").0[..k]);
      var (whole, usage) := Rewrite(Some(JObj(MessageOf(events))), cfg.alias, UNKNOWN);
      && o == Ok && whole.Some?
      && Same(Assemble(final.out), whole.value)
      && (usage == final.usage <==>
          Settled(Reports(events), "input_tokens") && Settled(Reports(events), "output_tokens"))
  {
    AnthropicStreamExact(cfg, lines, end);
    var events := Events(cfg, Frames(lines, "").0[..k]);
    CompletionNeedsStartAndReason(events);
    LastStopAccepted(events);
    WholeMessage(cfg.alias, events);
    AssembledFromEvents(cfg.alias, events);
    MergedUsage(Reports(events), "input_tokens");
    MergedUsage(Reports(events), "output_tokens");
  }

  // ---- Every split of a message

  /** Events that may carry text between message_start and the stop reason. */
  predicate IsContent(e: Event) {
    e.Ping? || e.BlockStart? || e.BlockDelta? || e.BlockStop?
  }

  /** A stream of one message: pings, the start, its content in any split, the stop reason, pings, the stop. */
  function OneMessage(pre: nat, start: Event, body: seq<Event>, stop: Event, post: nat): seq<Event> {
    seq(pre, _ => Ping) + [start] + body + [stop] + seq(post, _ => Ping) + [MessageStop]
  }

  lemma OneMessageIsOrderly(pre: nat, start: Event, body: seq<Event>, stop: Event, post: nat)
    requires start.MessageStart? && stop.MessageDelta? && FinishReason(stop.stop).Some?
    requires forall e :: e in body ==> IsContent(e)
    ensures Orderly(OneMessage(pre, start, body, stop, post)) && Completed(OneMessage(pre, start, body, stop, post))
  {
    var all := OneMessage(pre, start, body, stop, post);
    var d := pre + 1 + |body|;
    assert all[pre] == start && all[d] == stop && all[d + post + 1] == MessageStop;
    forall i | pre < i < d
      ensures IsContent(all[i])
    {
      assert all[i] == body[i - pre - 1] && body[i - pre - 1] in body;
    }
    assert forall i :: 0 <= i < pre || d < i <= d + post ==> all[i] == Ping;
    forall i | 0 <= i < |all|
      ensures Allowed(all, i)
    {
      if i > pre {
        assert HasStart(all, i);
      }
      if i > d {
        assert HasStop(all, i);
      }
    }
  }

  lemma JoinedInOrder(a: string, b: string, c: string)
    ensures (a + b) + c == a + (b + c)
  {
  }

  lemma {:induction false} BlocksAppend(before: seq<Event>, after: seq<Event>)
    ensures Concat(Blocks(before + after)) == Concat(Blocks(before)) + TextsAdded(after)
  {
    if after == [] {
      assert before + after == before;
    } else {
      var n := |after| - 1;
      var start, e := before + after[..n], after[n];
      assert before + after == start + [e];
      BlocksAppend(before, after[..n]);
      BlocksSnoc(start, e);
      JoinedInOrder(Concat(Blocks(before)), TextsAdded(after[..n]), TextAdded(e));
    }
  }

  /** The texts the events add, in order. */
  function TextsAdded(events: seq<Event>): string {
    if events == [] then "" else TextsAdded(events[..|events| - 1]) + TextAdded(events[|events| - 1])
  }

  lemma {:induction false} PingsAddNothing(n: nat)
    ensures TextsAdded(seq(n, _ => Ping)) == ""
  {
    if n > 0 {
      var pings := seq(n, _ => Ping);
      assert pings[..n - 1] == seq(n - 1, _ => Ping);
      PingsAddNothing(n - 1);
    }
  }

  lemma OneMessageText(pre: nat, start: Event, body: seq<Event>, stop: Event, post: nat)
    requires start.MessageStart? && stop.MessageDelta?
    ensures Concat(Blocks(OneMessage(pre, start, body, stop, post))) == TextsAdded(body)
  {
    var p, q := seq(pre, _ => Ping), seq(post, _ => Ping);
    BlocksSnoc(p + [start] + body + [stop] + q, MessageStop);
    BlocksAppend(p + [start] + body + [stop], q);
    BlocksSnoc(p + [start] + body, stop);
    BlocksAppend(p + [start], body);
    BlocksSnoc(p, start);
    BlocksAppend([], p);
    assert [] + p == p;
    PingsAddNothing(pre);
    PingsAddNothing(post);
  }

  lemma {:induction false} EventsUpTo(cfg: Config, frames: seq<string>) returns (k: nat)
    requires Events(cfg, frames) != []
    ensures 0 < k <= |frames| && cfg.trim(frames[k - 1]) != "" && Events(cfg, frames[..k]) == Events(cfg, frames)
  {
    var n := |frames|;
    if cfg.trim(frames[n - 1]) != "" {
      assert frames[..n] == frames;
      k := n;
    } else {
      k := EventsUpTo(cfg, frames[..n - 1]);
      assert frames[..n - 1][..k] == frames[..k];
    }
  }

  /** The frames up to the last event are a whole stream that a willing client takes. */
  lemma WholeStreamTaken(cfg: Config, frames: seq<string>) returns (k: nat)
    requires Orderly(Events(cfg, frames)) && Completed(Events(cfg, frames)) && forall i :: cfg.accepts(i)
    ensures AnthropicComplete(cfg, frames, k) && Events(cfg, frames[..k]) == Events(cfg, frames)
  {
    var events := Events(cfg, frames);
    k := EventsUpTo(cfg, frames);
    assert frames[..k][..k - 1] == frames[..k - 1];
    OrderlySnoc(Events(cfg, frames[..k - 1]), EventOf(cfg, frames[k - 1]));
  }

  /** The stream is of the message: its text, its id and its stop reason. */
  ghost predicate CarriesMessage(message: Fields, texts: seq<string>, start: Event, body: seq<Event>, stop: Event) {
    && start.MessageStart? && stop.MessageDelta? && FinishReason(stop.stop).Some?
    && ShowsMessage(message, start.id, texts, stop.stop) && Concat(texts) == TextsAdded(body)
    && forall e :: e in body ==> IsContent(e)
  }

  lemma OneMessageRewritten(alias: string, message: Fields, texts: seq<string>,
                            pre: nat, start: Event, body: seq<Event>, stop: Event, post: nat)
    requires CarriesMessage(message, texts, start, body, stop)
    ensures
      var events := OneMessage(pre, start, body, stop, post);
      var (whole, usage) := Rewrite(Some(JObj(message)), alias, UNKNOWN);
      && StartId(events) == start.id && Concat(Blocks(events)) == Concat(texts) && LastStop(events) == stop.stop
      && whole.Some?
      && whole.value.id == start.id && whole.value.model == alias && whole.value.text == Concat(texts)
      && Some(whole.value.reason) == FinishReason(stop.stop)
      && usage == Usage(Reported(Get(message, "usage"), "input_tokens"), Reported(Get(message, "usage"), "output_tokens"),
                        true)
  {
    MessageRead(message, start.id, texts, stop.stop);
    OneMessageText(pre, start, body, stop, post);
    OneMessageIdAndStop(pre, start, body, stop, post);
  }

  /**
   For every whole message of text blocks with an accepted stop reason, and every
   stream whose frames hold that message as JSON, however its text is split into
   block starts and deltas and wherever pings fall: relayed to a client that takes
   every frame, the stream completes, the client has exactly the message's id, text
   and finish reason under the alias, and so has `RewriteJSON` of the message; the
   observed usage is the same exactly when the message's counters are the ones its
   stream last reported.
   */
  lemma EverySplitAgrees(cfg: Config, lines: seq<string>, end: Outcome, message: Fields, texts: seq<string>,
                         pre: nat, start: Event, body: seq<Event>, stop: Event, post: nat)
    requires cfg.protocol == Anthropic && end != Ok && forall i :: cfg.accepts(i)
    requires CarriesMessage(message, texts, start, body, stop)
    requires StreamShows(cfg, Frames(lines, "").0, OneMessage(pre, start, body, stop, post))
    ensures
      var (final, o) := Scan(cfg, lines, end, "", START);
      var (whole, usage) := Rewrite(Some(JObj(message)), cfg.alias, UNKNOWN);
      var reports := [start.startUsage, stop.deltaUsage];
      && o == Ok && whole.Some? && Same(Assemble(final.out), whole.value)
      && Assemble(final.out) == Assembled(start.id, cfg.alias, Concat(texts), FinishReason(stop.stop), true)
      && (usage == final.usage <==>
          && Reported(Get(message, "usage"), "input_tokens") == LastReported(reports, "input_tokens")
          && Reported(Get(message, "usage"), "output_tokens") == LastReported(reports, "output_tokens"))
  {
    var frames, events := Frames(lines, "").0, OneMessage(pre, start, body, stop, post);
    StreamIsRead(cfg, frames, events);
    OneMessageIsOrderly(pre, start, body, stop, post);
    var k := WholeStreamTaken(cfg, frames);
    AnthropicStreamExact(cfg, lines, end);
    CompletionNeedsStartAndReason(events);
    AssembledFromEvents(cfg.alias, events);
    OneMessageRewritten(cfg.alias, message, texts, pre, start, body, stop, post);
    OneMessageReports(pre, start, body, stop, post);
  }

  /**
   The usage a completion states: both counters and their sum, when both are known;
   the sum is the exact one when it fits an int64, and wraps around by 2^64 else.
   */
  lemma CompletionTotals(raw: Option<Json>, alias: string, u: Usage)
    requires InRange(u.input) && InRange(u.output)
    ensures
      var (whole, usage) := Rewrite(raw, alias, u);
      whole.Some? ==>
        if usage.input.None? || usage.output.None? then whole.value.usage == None
        else
          var input, output := usage.input.value, usage.output.value;
          whole.value.usage ==
          Some((input, output,
                if input + output < 0x8000_0000_0000_0000 then input + output
                else input + output - 0x1_0000_0000_0000_0000))
  {
    var usage := Rewrite(raw, alias, u).1;
    assert InRange(usage.input) && InRange(usage.output);
  }

  lemma OneMessageReports(pre: nat, start: Event, body: seq<Event>, stop: Event, post: nat)
    requires start.MessageStart? && stop.MessageDelta? && forall e :: e in body ==> IsContent(e)
    ensures Reports(OneMessage(pre, start, body, stop, post)) == [start.startUsage, stop.deltaUsage]
  {
    var p, q := seq(pre, _ => Ping), seq(post, _ => Ping);
    SnocParts("", p + [start] + body + [stop] + q, MessageStop);
    ReportsAppend(p + [start] + body + [stop], q);
    SnocParts("", p + [start] + body, stop);
    ReportsAppend(p + [start], body);
    SnocParts("", p, start);
    ReportsAppend([], p);
    assert [] + p == p;
  }

  lemma {:induction false} ReportsAppend(before: seq<Event>, after: seq<Event>)
    requires forall e :: e in after ==> IsContent(e)
    ensures Reports(before + after) == Reports(before)
  {
    if after == [] {
      assert before + after == before;
    } else {
      var n := |after| - 1;
      assert before + after == (before + after[..n]) + [after[n]] && after[n] in after;
      ReportsAppend(before, after[..n]);
      SnocParts("", before + after[..n], after[n]);
    }
  }

  lemma OneMessageIdAndStop(pre: nat, start: Event, body: seq<Event>, stop: Event, post: nat)
    requires start.MessageStart? && stop.MessageDelta? && forall e :: e in body ==> IsContent(e)
    ensures StartId(OneMessage(pre, start, body, stop, post)) == start.id
    ensures LastStop(OneMessage(pre, start, body, stop, post)) == stop.stop
  {
    var p, q := seq(pre, _ => Ping), seq(post, _ => Ping);
    SnocParts("", p + [start] + body + [stop] + q, MessageStop);
    BlocksSnoc(p + [start] + body + [stop] + q, MessageStop);
    IdAndStopAppend(p + [start] + body + [stop], q);
    SnocParts("", p + [start] + body, stop);
    BlocksSnoc(p + [start] + body, stop);
    IdAndStopAppend(p + [start], body);
    SnocParts("", p, start);
  }

  lemma {:induction false} IdAndStopAppend(before: seq<Event>, after: seq<Event>)
    requires forall e :: e in after ==> IsContent(e)
    ensures StartId(before + after) == StartId(before)
    ensures LastStop(before + after) == LastStop(before)
  {
    if after == [] {
      assert before + after == before;
    } else {
      var n := |after| - 1;
      assert before + after == (before + after[..n]) + [after[n]] && after[n] in after;
      IdAndStopAppend(before, after[..n]);
      SnocParts("", before + after[..n], after[n]);
      BlocksSnoc(before + after[..n], after[n]);
    }
  }
}
