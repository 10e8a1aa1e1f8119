/**
 The event framing of the two relays against section 9.2.6 of the WHATWG HTML
 Living Standard (interpreting an event stream): which lines carry data, what a
 block of lines amounts to, and exactly when a relay's frame is the standard's
 data.
 */
module Framing {
  import opened Options
  import opened Json
  import opened Streams
  import Relay
  import RelayTheorems
  import NativeRelay

  // ---- The standard

  /** Where the first colon of a line is; its length when there is none. */
  function ColonAt(line: string): (n: nat)
    ensures n <= |line| && (n < |line| ==> line[n] == ':') && forall i :: 0 <= i < n ==> line[i] != ':'
  {
    if line == "" || line[0] == ':' then 0 else 1 + ColonAt(line[1..])
  }

  function WithoutSpace(value: string): string {
    if value != "" && value[0] == ' ' then value[1..] else value
  }

  /** The data a line carries: the value of a field named `data`, which is empty when the line has no colon. */
  function DataOf(line: string): Option<string> {
    var n := ColonAt(line);
    if line[..n] != "data" then None
    else Some(if n < |line| then WithoutSpace(line[n + 1..]) else "")
  }

  /** The data values of a block of lines. */
  function Values(block: seq<string>): seq<string> {
    if block == [] then []
    else
      var before := Values(block[..|block| - 1]);
      match DataOf(block[|block| - 1])
      case Some(value) => before + [value]
      case None => before
  }

  /** The data of an event: its values joined by newlines. */
  function Join(values: seq<string>): string {
    if values == [] then ""
    else if |values| == 1 then values[0]
    else Join(values[..|values| - 1]) + "\n" + values[|values| - 1]
  }

  // ---- The relay's buffer

  /** The values the relay buffers. */
  function Buffered(block: seq<string>): seq<string> {
    if block == [] then []
    else
      var before, last := Buffered(block[..|block| - 1]), block[|block| - 1];
      if IsData(last) then before + [Relay.DataValue(last)] else before
  }

  /** The frame the relay makes of them: a newline goes in only behind something. */
  function Frame(values: seq<string>): string {
    if values == [] then ""
    else
      var before := Frame(values[..|values| - 1]);
      (if |before| > 0 then before + "\n" else before) + values[|values| - 1]
  }

  /** No prefix of the block outgrows the frame limit behind the lines already read. */
  ghost predicate Fits(done: seq<string>, block: seq<string>) {
    forall i :: 0 <= i <= |block| ==> |Frame(Buffered(done + block[..i]))| <= MAX_FRAME
  }

  lemma BufferedSnoc(done: seq<string>, line: string)
    ensures Buffered(done + [line]) ==
            if IsData(line) then Buffered(done) + [Relay.DataValue(line)] else Buffered(done)
    ensures IsData(line) ==> Frame(Buffered(done + [line])) == Relay.Grow(Frame(Buffered(done)), line)
  {
    assert (done + [line])[..|done|] == done;
    if IsData(line) {
      var values := Buffered(done);
      assert (values + [Relay.DataValue(line)])[..|values|] == values;
    }
  }

  lemma FitsCons(done: seq<string>, block: seq<string>)
    requires block != []
    ensures Fits(done, block) <==> |Frame(Buffered(done))| <= MAX_FRAME && Fits(done + [block[0]], block[1..])
  {
    var rest := block[1..];
    assert done + block[..0] == done;
    forall i | 0 <= i <= |rest|
      ensures done + [block[0]] + rest[..i] == done + block[..i + 1]
    {
    }
    if |Frame(Buffered(done))| <= MAX_FRAME && Fits(done + [block[0]], rest) {
      forall i | 0 <= i <= |block|
        ensures |Frame(Buffered(done + block[..i]))| <= MAX_FRAME
      {
        if i > 0 {
          assert done + [block[0]] + rest[..i - 1] == done + block[..i];
        }
      }
    }
  }

  /**
   A block of lines ended by a blank one becomes exactly one frame, that of its
   values, before what follows is framed; unless it outgrows the limit, which ends
   the framing.
   */
  lemma {:induction false} BlockIsOneFrame(done: seq<string>, block: seq<string>, rest: seq<string>)
    requires "" !in block && |Frame(Buffered(done))| <= MAX_FRAME
    ensures
      var (frames, overflow) := RelayTheorems.Frames(rest, "");
      RelayTheorems.Frames(block + [""] + rest, Frame(Buffered(done))) ==
      if Fits(done, block) then ([Frame(Buffered(done + block))] + frames, overflow) else ([], true)
    decreases |block|
  {
    var all := block + [""] + rest;
    if block == [] {
      assert all[0] == "" && all[1..] == rest && done + block == done;
      assert done + block[..0] == done;
    } else {
      var line := block[0];
      assert line in block;
      assert all[0] == line && all[1..] == block[1..] + [""] + rest;
      assert done + [line] + block[1..] == done + block;
      BufferedSnoc(done, line);
      FitsCons(done, block);
      if IsData(line) && |Frame(Buffered(done + [line]))| > MAX_FRAME {
        assert done + [line] + block[1..][..0] == done + [line];
      } else {
        BlockIsOneFrame(done + [line], block[1..], rest);
      }
    }
  }

  // ---- Lengths

  function Total(values: seq<string>): nat {
    if values == [] then 0 else Total(values[..|values| - 1]) + |values[|values| - 1]|
  }

  /** The values from the first non-empty one on. */
  function FromFirstNonEmpty(values: seq<string>): seq<string> {
    if values != [] && values[0] == "" then FromFirstNonEmpty(values[1..]) else values
  }

  lemma {:induction false} FromFirstSnoc(values: seq<string>, last: string)
    ensures FromFirstNonEmpty(values + [last]) ==
            if FromFirstNonEmpty(values) == [] && last == "" then [] else FromFirstNonEmpty(values) + [last]
    ensures FromFirstNonEmpty(values) != [] ==> FromFirstNonEmpty(values)[0] != ""
    ensures |FromFirstNonEmpty(values)| <= |values|
    ensures |FromFirstNonEmpty(values)| == |values| <==> values == [] || values[0] != ""
  {
    if values == [] {
      assert values + [last] == [last];
    } else {
      assert (values + [last])[1..] == values[1..] + [last];
      FromFirstSnoc(values[1..], last);
    }
  }

  lemma {:induction false} JoinSnoc(values: seq<string>, last: string)
    ensures Join(values + [last]) == if values == [] then last else Join(values) + "\n" + last
    ensures values != [] && values[0] != "" ==> Join(values) != ""
  {
    assert (values + [last])[..|values|] == values;
    if |values| > 1 {
      JoinSnoc(values[..|values| - 1], "");
    }
  }

  /** The relay's frame is the standard's data of the values from the first non-empty one on. */
  lemma {:induction false} FrameIsJoined(values: seq<string>)
    ensures Frame(values) == Join(FromFirstNonEmpty(values))
    ensures Total(FromFirstNonEmpty(values)) == Total(values)
  {
    if values != [] {
      var before, last := values[..|values| - 1], values[|values| - 1];
      assert before + [last] == values;
      FrameIsJoined(before);
      FromFirstSnoc(before, last);
      JoinSnoc(FromFirstNonEmpty(before), last);
      TotalSnoc(FromFirstNonEmpty(before), last);
    }
  }

  lemma TotalSnoc(values: seq<string>, last: string)
    ensures Total(values + [last]) == Total(values) + |last|
  {
    assert (values + [last])[..|values|] == values;
  }

  lemma {:induction false} JoinLength(values: seq<string>)
    ensures |Join(values)| == Total(values) + (if values == [] then 0 else |values| - 1)
  {
    if values != [] {
      var before, last := values[..|values| - 1], values[|values| - 1];
      assert before + [last] == values;
      JoinLength(before);
      JoinSnoc(before, last);
    }
  }

  // ---- The relay against the standard

  /** The standard reads data from the lines the relay buffers, and from the bare word besides. */
  lemma DataLines(line: string)
    ensures DataOf(line) ==
            if IsData(line) then Some(Relay.DataValue(line)) else if line == "data" then Some("") else None
  {
    var n := ColonAt(line);
    if IsData(line) {
      assert line[..5][4] == ':' && forall i :: 0 <= i < 4 ==> line[i] == line[..5][i] == "data:"[i] != ':';
      assert n == 4;
      assert line[..4] == line[..5][..4] == "data";
      var value := line[5..];
      assert HasPrefix(value, " ") <==> value != "" && value[0] == ' ';
    } else {
      assert n < |line| ==> line[..n + 1] == line[..n] + [':'];
      assert n == |line| ==> line[..n] == line;
    }
  }

  lemma {:induction false} BufferedOrBare(block: seq<string>)
    ensures Total(Buffered(block)) == Total(Values(block)) && |Buffered(block)| <= |Values(block)|
    ensures "data" !in block ==> Buffered(block) == Values(block)
    ensures "data" in block ==> |Buffered(block)| < |Values(block)|
  {
    if block != [] {
      var before, last := block[..|block| - 1], block[|block| - 1];
      assert block == before + [last];
      BufferedOrBare(before);
      DataLines(last);
      assert "data" in block <==> "data" in before || last == "data";
      assert IsData(last) ==> last != "data";
      TotalSnoc(Buffered(before), if IsData(last) then Relay.DataValue(last) else "");
      TotalSnoc(Values(before), if DataOf(last).Some? then DataOf(last).value else "");
    }
  }

  /** The relay's frame of a block is the standard's data exactly when nothing was dropped. */
  lemma FrameIsStandard(block: seq<string>)
    ensures
      var values := Values(block);
      Frame(Buffered(block)) == Join(values) <==> |values| <= 1 || (values[0] != "" && "data" !in block)
  {
    var values, buffered := Values(block), Buffered(block);
    BufferedOrBare(block);
    FrameIsJoined(buffered);
    FromFirstSnoc(buffered, "");
    JoinLength(values);
    JoinLength(FromFirstNonEmpty(buffered));
    if |values| == 1 {
      SingleFrame(buffered, values[0]);
    } else if |values| > 1 && values[0] != "" && "data" !in block {
      assert FromFirstNonEmpty(buffered) == buffered == values;
    }
  }

  lemma SingleFrame(buffered: seq<string>, value: string)
    requires |buffered| <= 1 && Total(buffered) == |value| && (buffered != [] ==> buffered == [value])
    ensures Frame(buffered) == value
  {
    if buffered == [] {
      assert value == "";
    } else {
      assert buffered[..0] == [] && Frame(buffered[..0]) == "";
    }
  }

  /**
   The text of the frame the relay makes of a block that fits is the standard's data
   exactly when the block has at most one data line, or its first value is not empty
   and no line is the bare word `data`.
   */
  lemma FramingIsStandard(block: seq<string>, rest: seq<string>)
    requires "" !in block && Fits([], block)
    ensures
      var frames, values := RelayTheorems.Frames(block + [""] + rest, "").0, Values(block);
      && frames == [Frame(Buffered(block))] + RelayTheorems.Frames(rest, "").0
      && (frames[0] == Join(values) <==> |values| <= 1 || (values[0] != "" && "data" !in block))
  {
    assert [] + block == block;
    BlockIsOneFrame([], block, rest);
    FrameIsStandard(block);
  }

  // ---- The native relay

  /** The raw values the native relay buffers, space and all. */
  function Raw(block: seq<string>): seq<string> {
    if block == [] then []
    else
      var before, last := Raw(block[..|block| - 1]), block[|block| - 1];
      if IsData(last) then before + [last[5..]] else before
  }

  function Terminated(values: seq<string>): string {
    if values == [] then "" else Terminated(values[..|values| - 1]) + values[|values| - 1] + "\n"
  }

  /** Each data line of the block fits behind what was buffered before it. */
  ghost predicate FitsNative(done: seq<string>, block: seq<string>) {
    forall i :: 0 <= i < |block| && IsData(block[i]) ==>
      |Terminated(Raw(done + block[..i]))| + |block[i]| <= MAX_FRAME
  }

  lemma RawSnoc(done: seq<string>, line: string)
    ensures Raw(done + [line]) == if IsData(line) then Raw(done) + [line[5..]] else Raw(done)
    ensures Terminated(Raw(done + [line])) ==
            if IsData(line) then Terminated(Raw(done)) + line[5..] + "\n" else Terminated(Raw(done))
  {
    assert (done + [line])[..|done|] == done;
    if IsData(line) {
      assert (Raw(done) + [line[5..]])[..|Raw(done)|] == Raw(done);
    }
  }

  lemma FitsNativeCons(done: seq<string>, block: seq<string>)
    requires block != []
    ensures FitsNative(done, block) <==>
            && (IsData(block[0]) ==> |Terminated(Raw(done))| + |block[0]| <= MAX_FRAME)
            && FitsNative(done + [block[0]], block[1..])
  {
    var rest := block[1..];
    assert done + block[..0] == done;
    forall i | 0 <= i < |rest|
      ensures done + [block[0]] + rest[..i] == done + block[..i + 1] && rest[i] == block[i + 1]
    {
    }
    if FitsNative(done, block) {
      assert IsData(block[0]) ==> |Terminated(Raw(done + block[..0]))| + |block[0]| <= MAX_FRAME;
      forall i | 0 <= i < |rest| && IsData(rest[i])
        ensures |Terminated(Raw(done + [block[0]] + rest[..i]))| + |rest[i]| <= MAX_FRAME
      {
        assert IsData(block[i + 1]);
      }
    }
    if FitsNative(done + [block[0]], rest)
       && (IsData(block[0]) ==> |Terminated(Raw(done))| + |block[0]| <= MAX_FRAME) {
      forall i | 0 <= i < |block| && IsData(block[i])
        ensures |Terminated(Raw(done + block[..i]))| + |block[i]| <= MAX_FRAME
      {
        if i > 0 {
          assert IsData(rest[i - 1]) && done + [block[0]] + rest[..i - 1] == done + block[..i];
        }
      }
    }
  }

  /** The native relay, too, makes one frame of a block: its raw values, each ended by a newline. */
  lemma {:induction false} NativeBlockIsOneFrame(done: seq<string>, block: seq<string>, rest: seq<string>)
    requires "" !in block
    ensures
      var (frames, overflow) := NativeRelay.Frames(rest, "");
      NativeRelay.Frames(block + [""] + rest, Terminated(Raw(done))) ==
      if FitsNative(done, block) then ([Terminated(Raw(done + block))] + frames, overflow) else ([], true)
    decreases |block|
  {
    var all := block + [""] + rest;
    if block == [] {
      assert all[0] == "" && all[1..] == rest && done + block == done;
    } else {
      var line := block[0];
      assert line in block;
      assert all[0] == line && all[1..] == block[1..] + [""] + rest;
      assert done + [line] + block[1..] == done + block;
      RawSnoc(done, line);
      FitsNativeCons(done, block);
      NativeBlockIsOneFrame(done + [line], block[1..], rest);
    }
  }

  lemma {:induction false} JoinTerminated(values: seq<string>)
    requires values != []
    ensures Join(values) + "\n" == Terminated(values)
  {
    var before, last := values[..|values| - 1], values[|values| - 1];
    assert before + [last] == values;
    JoinSnoc(before, last);
    if before != [] {
      JoinTerminated(before);
    }
  }

  predicate OneLine(value: string) {
    '\n' !in value
  }

  lemma EndsInNewline(values: seq<string>)
    ensures Terminated(values) != "" ==> Terminated(values)[|Terminated(values)| - 1] == '\n'
  {
  }

  /** Where a newline ends every part, the last parts of equal texts are equal. */
  lemma LastPart(a: string, x: string, b: string, y: string)
    requires a + x + "\n" == b + y + "\n" && OneLine(x) && OneLine(y)
    requires (a != "" ==> a[|a| - 1] == '\n') && (b != "" ==> b[|b| - 1] == '\n')
    ensures a == b && x == y
  {
    var s, t := a + x, b + y;
    assert s == (s + "\n")[..|s|] == (t + "\n")[..|t|] == t;
    NotLonger(a, x, b, y);
    NotLonger(b, y, a, x);
    assert a == s[..|a|] && x == s[|a|..] && b == t[..|b|] && y == t[|b|..];
  }

  lemma NotLonger(a: string, x: string, b: string, y: string)
    requires a + x == b + y && OneLine(y) && (a != "" ==> a[|a| - 1] == '\n')
    ensures |a| <= |b|
  {
    assert forall i :: 0 <= i < |y| ==> (b + y)[|b| + i] == y[i] && y[i] in y;
    assert a != "" ==> (a + x)[|a| - 1] == '\n';
  }

  lemma {:induction false} TerminatedInjective(a: seq<string>, b: seq<string>)
    requires (forall i :: 0 <= i < |a| ==> OneLine(a[i])) && (forall i :: 0 <= i < |b| ==> OneLine(b[i]))
    requires Terminated(a) == Terminated(b)
    ensures a == b
  {
    if a != [] && b != [] {
      var m, n := |a| - 1, |b| - 1;
      EndsInNewline(a[..m]);
      EndsInNewline(b[..n]);
      LastPart(Terminated(a[..m]), a[m], Terminated(b[..n]), b[n]);
      TerminatedInjective(a[..m], b[..n]);
      assert a == a[..m] + [a[m]] && b == b[..n] + [b[n]];
    }
  }

  /** A line the native relay buffers as the standard does: no bare word, and no space behind the colon. */
  predicate Plain(line: string) {
    line != "data" && (IsData(line) ==> !HasPrefix(line[5..], " "))
  }

  lemma {:induction false} RawIsPlain(block: seq<string>)
    ensures |Raw(block)| <= |Values(block)|
    ensures Raw(block) == Values(block) <==> forall i :: 0 <= i < |block| ==> Plain(block[i])
    ensures (forall i :: 0 <= i < |block| ==> OneLine(block[i])) ==>
              && (forall i :: 0 <= i < |Raw(block)| ==> OneLine(Raw(block)[i]))
              && (forall i :: 0 <= i < |Values(block)| ==> OneLine(Values(block)[i]))
  {
    if block != [] {
      var before, last := block[..|block| - 1], block[|block| - 1];
      assert block == before + [last];
      RawIsPlain(before);
      DataLines(last);
      assert (forall i :: 0 <= i < |block| ==> Plain(block[i])) <==>
             Plain(last) && forall i :: 0 <= i < |before| ==> Plain(before[i]);
      if IsData(last) {
        var value := Relay.DataValue(last);
        assert last[5..] == value <==> Plain(last);
        SnocEqual(Raw(before), last[5..], Values(before), value);
      }
    }
  }

  lemma SnocEqual(a: seq<string>, x: string, b: seq<string>, y: string)
    ensures a + [x] == b + [y] <==> a == b && x == y
  {
    if a + [x] == b + [y] {
      assert a == (a + [x])[..|a|] && b == (b + [y])[..|b|];
      assert (a + [x])[|a|] == x && (b + [y])[|b|] == y;
    }
  }

  /**
   The native relay's frame of a block that fits and carries data is the standard's
   data with a newline behind it, exactly when no line is the bare word
   and none has a space behind its colon.
   */
  lemma NativeFramingIsStandard(block: seq<string>, rest: seq<string>)
    requires "" !in block && FitsNative([], block) && Values(block) != []
    requires forall i :: 0 <= i < |block| ==> OneLine(block[i])
    ensures
      var frames := NativeRelay.Frames(block + [""] + rest, "").0;
      && frames == [Terminated(Raw(block))] + NativeRelay.Frames(rest, "").0
      && (frames[0] == Join(Values(block)) + "\n" <==> forall i :: 0 <= i < |block| ==> Plain(block[i]))
  {
    assert [] + block == block;
    NativeBlockIsOneFrame([], block, rest);
    RawIsPlain(block);
    JoinTerminated(Values(block));
    if Terminated(Raw(block)) == Terminated(Values(block)) {
      TerminatedInjective(Raw(block), Values(block));
    }
  }

  // ---- Events

  /** The event of a block: none without a data line, else its data, which may be the empty string. */
  function Event(block: seq<string>): Option<string> {
    if Values(block) == [] then None else Some(Join(Values(block)))
  }

  /** The event the relay sees: nothing in a frame that trims to nothing. */
  function Handled(trim: string -> string, block: seq<string>): Option<string> {
    var frame := Frame(Buffered(block));
    if trim(frame) == "" then None else Some(frame)
  }

  /**
   The relay sees the standard's event exactly when there is none, or its data does
   not trim to nothing and no empty or bare line was dropped from it.
   */
  lemma EventIsStandard(trim: string -> string, block: seq<string>)
    requires trim("") == ""
    ensures
      var values := Values(block);
      Handled(trim, block) == Event(block) <==>
      || values == []
      || (trim(Join(values)) != "" && (|values| == 1 || (values[0] != "" && "data" !in block)))
  {
    BufferedOrBare(block);
    FrameIsStandard(block);
  }

  /** What follows a dispatch: the run ends, or goes on with the other lines. */
  function Continue(cfg: Relay.Config, step: (Relay.State, Outcome), rest: seq<string>, end: Outcome)
    : (Relay.State, Outcome)
  {
    if step.1 != Ok || step.0.usage.complete then step else Relay.Scan(cfg, rest, end, "", step.0)
  }

  /** The relay dispatches a block that fits as its one frame; one in which it sees no event changes nothing. */
  lemma BlockIsDispatched(cfg: Relay.Config, block: seq<string>, rest: seq<string>, end: Outcome, st: Relay.State)
    requires "" !in block && Fits([], block)
    ensures Relay.Scan(cfg, block + [""] + rest, end, "", st) ==
            Continue(cfg, Relay.Dispatch(cfg, st, Frame(Buffered(block))), rest, end)
    ensures Handled(cfg.trim, block).None? ==> Relay.Dispatch(cfg, st, Frame(Buffered(block))) == (st, Ok)
  {
    var frame, all := Frame(Buffered(block)), block + [""] + rest;
    var (frames, overflow) := RelayTheorems.Frames(rest, "");
    assert [] + block == block && ([frame] + frames)[1..] == frames;
    BlockIsOneFrame([], block, rest);
    RelayTheorems.ScanDispatchesFrames(cfg, all, end, "", st);
    RelayTheorems.ScanDispatchesFrames(cfg, rest, end, "", Relay.Dispatch(cfg, st, frame).0);
  }

  function NativeContinue(cfg: NativeRelay.Config, step: (NativeRelay.State, Outcome), rest: seq<string>, end: Outcome)
    : (NativeRelay.State, Outcome)
  {
    if step.1 != Ok || step.0.usage.complete then step else NativeRelay.Scan(cfg, rest, end, "", step.0)
  }

  lemma NativeBlockIsDispatched(
    cfg: NativeRelay.Config, block: seq<string>, rest: seq<string>, end: Outcome, st: NativeRelay.State)
    requires "" !in block && FitsNative([], block)
    ensures NativeRelay.Scan(cfg, block + [""] + rest, end, "", st) ==
            NativeContinue(cfg, NativeRelay.Dispatch(cfg, st, Terminated(Raw(block))), rest, end)
  {
    var frame, all := Terminated(Raw(block)), block + [""] + rest;
    var (frames, overflow) := NativeRelay.Frames(rest, "");
    assert [] + block == block && ([frame] + frames)[1..] == frames;
    NativeBlockIsOneFrame([], block, rest);
    NativeRelay.ScanDispatchesFrames(cfg, all, end, "", st);
    NativeRelay.ScanDispatchesFrames(cfg, rest, end, "", NativeRelay.Dispatch(cfg, st, frame).0);
  }

  // ---- Empty data

  /** No event, or one whose data is the empty string. */
  lemma EmptyJoin(values: seq<string>)
    ensures Join(values) == "" <==> values == [] || values == [""]
    ensures Join(values) == "" ==> |values| <= 1 && Total(values) == 0
  {
    JoinLength(values);
    if values == [""] {
      assert values[..0] == [];
    }
  }

  lemma {:induction false} PrefixIsNoLonger(block: seq<string>, i: nat)
    requires i <= |block|
    ensures |Raw(block[..i])| <= |Raw(block)| && |Values(block[..i])| <= |Values(block)|
    ensures Total(Values(block[..i])) <= Total(Values(block))
    decreases |block|
  {
    if i == |block| {
      assert block[..i] == block;
    } else {
      var n := |block| - 1;
      assert block[..n][..i] == block[..i];
      PrefixIsNoLonger(block[..n], i);
      if DataOf(block[n]).Some? {
        TotalSnoc(Values(block[..n]), DataOf(block[n]).value);
      }
    }
  }

  lemma EmptyDataFits(block: seq<string>)
    requires Join(Values(block)) == ""
    ensures Fits([], block)
  {
    EmptyJoin(Values(block));
    forall i | 0 <= i <= |block|
      ensures |Frame(Buffered([] + block[..i]))| <= MAX_FRAME
    {
      var part := block[..i];
      assert [] + part == part;
      PrefixIsNoLonger(block, i);
      BufferedOrBare(part);
      FrameIsJoined(Buffered(part));
      FromFirstSnoc(Buffered(part), "");
      JoinLength(FromFirstNonEmpty(Buffered(part)));
    }
  }

  /** A raw value whose data is empty. */
  predicate IsEmptyRaw(raw: string) {
    raw == "" || raw == " "
  }

  lemma {:induction false} RawOfEmpty(block: seq<string>)
    requires Total(Values(block)) == 0
    ensures |Raw(block)| <= |Values(block)| && forall i :: 0 <= i < |Raw(block)| ==> IsEmptyRaw(Raw(block)[i])
    ensures Raw(block) == [] <==> forall i :: 0 <= i < |block| ==> !IsData(block[i])
  {
    if block != [] {
      var before, last := block[..|block| - 1], block[|block| - 1];
      assert block == before + [last];
      DataLines(last);
      if DataOf(last).Some? {
        TotalSnoc(Values(before), DataOf(last).value);
      }
      RawOfEmpty(before);
      if IsData(last) {
        assert block[|block| - 1] == last;
        assert DataOf(last) == Some("");
        EmptyValue(last);
      }
      assert forall i :: 0 <= i < |before| ==> before[i] == block[i];
    }
  }

  lemma EmptyValue(line: string)
    requires IsData(line) && Relay.DataValue(line) == ""
    ensures IsEmptyRaw(line[5..])
  {
    var raw := line[5..];
    if HasPrefix(raw, " ") {
      assert raw[1..] == line[6..] == "";
      assert raw == raw[..1] + raw[1..];
    }
  }

  /** A data line of such a block is short. */
  lemma ShortDataLine(before: seq<string>, line: string)
    requires Total(Values(before + [line])) == 0 && IsData(line)
    ensures |line| <= 6
  {
    assert (before + [line])[..|before|] == before;
    DataLines(line);
    TotalSnoc(Values(before), Relay.DataValue(line));
    EmptyValue(line);
    assert |line| == 5 + |line[5..]|;
  }

  /** The one data line of such a block has nothing buffered before it. */
  lemma OnlyDataLine(block: seq<string>, i: nat)
    requires |Values(block)| <= 1 && Total(Values(block)) == 0 && i < |block| && IsData(block[i])
    ensures Raw(block[..i]) == [] && |block[i]| <= 6
  {
    assert block[..i + 1] == block[..i] + [block[i]];
    PrefixIsNoLonger(block, i + 1);
    ShortDataLine(block[..i], block[i]);
    RawSnoc(block[..i], block[i]);
    RawOfEmpty(block);
  }

  lemma EmptyDataFitsNative(block: seq<string>)
    requires Join(Values(block)) == ""
    ensures FitsNative([], block)
  {
    EmptyJoin(Values(block));
    forall i | 0 <= i < |block| && IsData(block[i])
      ensures |Terminated(Raw([] + block[..i]))| + |block[i]| <= MAX_FRAME
    {
      assert [] + block[..i] == block[..i];
      OnlyDataLine(block, i);
    }
  }

  /**
   On a block without data, and on one whose data is the empty string, the relay goes
   on: for the standard the second is an event, so that one is never seen.
   */
  lemma RelaySkipsEmptyData(cfg: Relay.Config, block: seq<string>, rest: seq<string>, end: Outcome, st: Relay.State)
    requires "" !in block && Join(Values(block)) == "" && cfg.trim("") == "" && !st.usage.complete
    ensures Relay.Scan(cfg, block + [""] + rest, end, "", st) == Relay.Scan(cfg, rest, end, "", st)
  {
    EmptyDataFits(block);
    EmptyJoin(Values(block));
    FrameIsStandard(block);
    BlockIsDispatched(cfg, block, rest, end, st);
  }

  /**
   On such a block the native relay fails exactly when some line begins with `data:`,
   and else goes on: a bare word makes an event for the standard and none for it.
   */
  lemma NativeOnEmptyData(
    cfg: NativeRelay.Config, block: seq<string>, rest: seq<string>, end: Outcome, st: NativeRelay.State)
    requires "" !in block && Join(Values(block)) == "" && !st.usage.complete
    requires cfg.trim("\n") == "" && cfg.trim(" \n") == "" && cfg.parse("") == None
    ensures NativeRelay.Scan(cfg, block + [""] + rest, end, "", st) ==
            if exists i :: 0 <= i < |block| && IsData(block[i]) then (st, ErrResponse)
            else NativeRelay.Scan(cfg, rest, end, "", st)
  {
    EmptyDataFitsNative(block);
    EmptyJoin(Values(block));
    RawOfEmpty(block);
    NativeBlockIsDispatched(cfg, block, rest, end, st);
    var raw := Raw(block);
    if raw != [] {
      assert raw == [raw[0]] && IsEmptyRaw(raw[0]) && raw[..0] == [];
      assert Terminated(raw) == "" + raw[0] + "\n";
      assert Terminated(raw) == "\n" || Terminated(raw) == " \n";
    }
  }
}
