/**
 The shell command collector: a one-pass line editor over terminal input, with an
 escape-sequence machine and suppression of the line after a password prompt. It
 is shown to refine a two-stage specification: first strip the escape sequences,
 then split into lines and edit each one.

 Input arrives in chunks of bytes, each decoded by itself as the gateway does it.
 */
module Terminal {
  import opened Bytes
  import opened Text
  import opened PromptWindow

  const MAX_RUNES := 4096

  const ESC: Rune := 0x1b

  const SENSITIVE: seq<string> := [
    "password", "passwd", "passphrase", "secret", "token", "api_key", "apikey", "access_key", "secret_key",
    "sshpass", "mysql_pwd", "pgpassword"
  ]

  const REDACTED := "[SENSITIVE COMMAND REDACTED]"

  /** What reaches the editor: a typed rune, or the mark that a prompt was just detected. */
  datatype Item = Typed(r: Rune) | Prompt

  // ---- Sanitising

  predicate IsSensitive(lower: Rune -> Rune, command: seq<Rune>) {
    exists n :: 0 <= n < |SENSITIVE| && Contains(Lowered(lower, command), Runes(SENSITIVE[n]))
  }

  function Sanitize(lower: Rune -> Rune, command: seq<Rune>): seq<Rune> {
    if IsSensitive(lower, Trim(command)) then Runes(REDACTED) else Trim(command)
  }

  // ---- Stage one: escape sequences

  datatype Escape = Plain | Introduced | InParameters

  predicate IsIntroducer(r: Rune) {
    r == 0x5b || r == 0x4f
  }

  predicate IsFinal(r: Rune) {
    0x40 <= r <= 0x7e
  }

  /**
   The items without escape sequences. ESC takes the next rune with it and, when
   that is `[` or `O`, everything up to a final byte. Prompt marks stay.
   */
  function Strip(items: seq<Item>): seq<Item> {
    if items == [] then []
    else if items[0] == Typed(ESC) then StripIntroduced(items[1..])
    else [items[0]] + Strip(items[1..])
  }

  function StripIntroduced(items: seq<Item>): seq<Item> {
    if items == [] then []
    else if items[0].Prompt? then [Prompt] + StripIntroduced(items[1..])
    else if IsIntroducer(items[0].r) then StripParameters(items[1..])
    else Strip(items[1..])
  }

  function StripParameters(items: seq<Item>): seq<Item> {
    if items == [] then []
    else if items[0].Prompt? then [Prompt] + StripParameters(items[1..])
    else if IsFinal(items[0].r) then Strip(items[1..])
    else StripParameters(items[1..])
  }

  function StripFrom(escape: Escape, items: seq<Item>): seq<Item> {
    match escape
    case Plain => Strip(items)
    case Introduced => StripIntroduced(items)
    case InParameters => StripParameters(items)
  }

  // ---- Stage two: lines

  predicate EndsLine(i: Item) {
    i == Typed(0x0d) || i == Typed(0x0a)
  }

  /** The effect of one item on the line being typed. */
  function EditStep(line: seq<Rune>, i: Item): seq<Rune> {
    match i
    case Prompt => line
    case Typed(r) =>
      if r == 0x08 || r == 0x7f then (if line == [] then [] else line[..|line| - 1])
      else if r == 0x03 || r == 0x15 || r == 0x18 || r == 0x1a then []
      else if r >= 0x20 && |line| < MAX_RUNES then line + [r]
      else line
  }

  /** The text that typing a line leaves. */
  function Edit(line: seq<Item>): seq<Rune> {
    if line == [] then [] else EditStep(Edit(line[..|line| - 1]), line[|line| - 1])
  }

  /** The command of a finished line: none after a prompt, none when blank. */
  function CommandOf(lower: Rune -> Rune, line: seq<Item>): seq<seq<Rune>> {
    if Prompt in line || Trim(Edit(line)) == [] then [] else [Sanitize(lower, Trim(Edit(line)))]
  }

  /** The length of the first line. */
  function LineLength(items: seq<Item>): (n: nat)
    ensures n <= |items|
    ensures n < |items| ==> EndsLine(items[n])
    ensures forall i :: 0 <= i < n ==> !EndsLine(items[i])
  {
    if items == [] || EndsLine(items[0]) then 0 else 1 + LineLength(items[1..])
  }

  /** The commands of all finished lines. */
  function Commands(lower: Rune -> Rune, items: seq<Item>): seq<seq<Rune>>
    decreases |items|
  {
    var n := LineLength(items);
    if n == |items| then [] else CommandOf(lower, items[..n]) + Commands(lower, items[n + 1..])
  }

  // ---- The one-pass machine

  datatype Editor = Editor(buffer: seq<Rune>, escape: Escape, suppress: bool)

  const BLANK := Editor([], Plain, false)

  /** One item: the new editor, and the command it finishes, if any. */
  function Take(lower: Rune -> Rune, ed: Editor, i: Item): (Editor, seq<seq<Rune>>) {
    match i
    case Prompt => (ed.(suppress := true), [])
    case Typed(r) =>
      if ed.escape == Introduced then (ed.(escape := if IsIntroducer(r) then InParameters else Plain), [])
      else if ed.escape == InParameters then (if IsFinal(r) then ed.(escape := Plain) else ed, [])
      else if r == ESC then (ed.(escape := Introduced), [])
      else if EndsLine(i) then
        var command := Trim(ed.buffer);
        (ed.(buffer := [], suppress := false),
         if ed.suppress || command == [] then [] else [Sanitize(lower, command)])
      else (ed.(buffer := EditStep(ed.buffer, i)), [])
  }

  function TakeAll(lower: Rune -> Rune, ed: Editor, items: seq<Item>): (Editor, seq<seq<Rune>>)
    decreases |items|
  {
    if items == [] then (ed, [])
    else
      var (next, first) := Take(lower, ed, items[0]);
      var (last, rest) := TakeAll(lower, next, items[1..]);
      (last, first + rest)
  }

  function TypedAll(runes: seq<Rune>): seq<Item> {
    seq(|runes|, i requires 0 <= i < |runes| => Typed(runes[i]))
  }

  // ---- The collector

  class ShellCommandCollector {
    const lower: Rune -> Rune
    var enabled: bool
    var buffer: seq<Rune>
    var escape: Escape
    var suppressNextLine: bool
    var outputTail: seq<Byte>

    constructor (lower: Rune -> Rune)
      ensures this.lower == lower && Value() == State(false, BLANK, [])
    {
      this.lower := lower;
      enabled, buffer, escape, suppressNextLine, outputTail := false, [], Plain, false, [];
    }

    ghost function Value(): State
      reads this
    {
      State(enabled, Editor(buffer, escape, suppressNextLine), outputTail)
    }

    method Enable()
      modifies this
      ensures Value() == old(Value()).(enabled := true)
    {
      enabled := true;
    }

    method ConsumeEscape(r: Rune) returns (consumed: bool)
      modifies this`escape
      ensures consumed == (old(escape) != Plain)
      ensures !consumed ==> escape == old(escape)
      ensures consumed ==> old(Value()).(editor := Take(lower, old(Value()).editor, Typed(r)).0) == Value()
    {
      match escape {
        case Plain =>
          return false;
        case Introduced =>
          escape := if IsIntroducer(r) then InParameters else Plain;
        case InParameters =>
          if IsFinal(r) {
            escape := Plain;
          }
      }
      consumed := true;
    }

    /** Ends the line: the command it leaves, unless a prompt suppresses it. */
    method FlushLine() returns (commands: seq<seq<Rune>>)
      modifies this`buffer, this`suppressNextLine
      ensures buffer == [] && !suppressNextLine
      ensures commands == if old(suppressNextLine) || Trim(old(buffer)) == [] then []
                          else [Sanitize(lower, Trim(old(buffer)))]
    {
      var command := Trim(buffer);
      buffer := [];
      if suppressNextLine {
        suppressNextLine := false;
        return [];
      }
      commands := if command != [] then [Sanitize(lower, command)] else [];
    }

    /** One rune of input. */
    method FeedRune(r: Rune) returns (commands: seq<seq<Rune>>)
      modifies this
      ensures enabled == old(enabled) && outputTail == old(outputTail)
      ensures (Value().editor, commands) == Take(lower, old(Value()).editor, Typed(r))
    {
      commands := [];
      var consumed := ConsumeEscape(r);
      if consumed {
        return;
      }
      if r == ESC {
        escape := Introduced;
      } else if r == 0x0d || r == 0x0a {
        commands := FlushLine();
      } else if r == 0x08 || r == 0x7f {
        if |buffer| > 0 {
          buffer := buffer[..|buffer| - 1];
        }
      } else if r == 0x03 || r == 0x15 || r == 0x18 || r == 0x1a {
        buffer := [];
      } else if r >= 0x20 && |buffer| < MAX_RUNES {
        buffer := buffer + [r];
      }
    }

    /** Returns the commands in the order they are emitted after the lock is released. */
    method Feed(data: seq<Byte>) returns (commands: seq<seq<Rune>>)
      modifies this
      ensures (Value(), commands) == Respond(lower, old(Value()), Input(data))
    {
      commands := [];
      if !enabled {
        return;
      }
      var runes := Decode(data, 0);
      ghost var begin, items := Value().editor, TypedAll(runes);
      for i := 0 to |runes|
        invariant enabled && outputTail == old(outputTail)
        invariant (Value().editor, commands) == TakeAll(lower, begin, items[..i])
      {
        assert items[..i + 1] == items[..i] + [Typed(runes[i])];
        TakeAllSnoc(lower, begin, items[..i], Typed(runes[i]));
        var more := FeedRune(runes[i]);
        commands := commands + more;
      }
      assert items[..|runes|] == items;
    }

    method ObserveOutput(data: seq<Byte>)
      modifies this
      ensures (Value(), []) == Respond(lower, old(Value()), Output(data))
    {
      if data == [] {
        return;
      }
      var combined := outputTail + data;
      if |combined| > WINDOW {
        outputTail := combined[|combined| - WINDOW..];
      } else {
        outputTail := combined;
      }
      var prompt := OutputHasSensitivePrompt(lower, combined);
      if prompt {
        suppressNextLine := true;
        outputTail := [];
      }
    }
  }

  // ---- Sessions

  datatype Event = Enable | Input(data: seq<Byte>) | Output(bytes: seq<Byte>)

  datatype State = State(enabled: bool, editor: Editor, tail: seq<Byte>)

  function Respond(lower: Rune -> Rune, st: State, e: Event): (State, seq<seq<Rune>>) {
    match e
    case Enable => (st.(enabled := true), [])
    case Input(data) =>
      if !st.enabled then (st, [])
      else
        var (editor, commands) := TakeAll(lower, st.editor, TypedAll(Decode(data, 0)));
        (st.(editor := editor), commands)
    case Output(bytes) =>
      var (tail, raise) := Observe(lower, st.tail, bytes);
      (st.(tail := tail, editor := if raise then st.editor.(suppress := true) else st.editor), [])
  }

  /** The collector after a session, and every command it emitted. */
  function Session(lower: Rune -> Rune, events: seq<Event>): (State, seq<seq<Rune>>) {
    if events == [] then (State(false, BLANK, []), [])
    else
      var (st, before) := Session(lower, events[..|events| - 1]);
      var (next, commands) := Respond(lower, st, events[|events| - 1]);
      (next, before + commands)
  }

  /** The session as the specification sees it: what counts as typed, and where prompts were, by unbounded search. */
  datatype View = View(enabled: bool, items: seq<Item>, history: seq<Byte>)

  function Seen(lower: Rune -> Rune, events: seq<Event>): View {
    if events == [] then View(false, [], [])
    else
      var v := Seen(lower, events[..|events| - 1]);
      match events[|events| - 1]
      case Enable => v.(enabled := true)
      case Input(data) => if v.enabled then v.(items := v.items + TypedAll(Decode(data, 0))) else v
      case Output(bytes) =>
        var (history, raise) := ObserveAll(lower, v.history, bytes);
        v.(history := history, items := if raise then v.items + [Prompt] else v.items)
  }

  // ---- One pass is the composition of the two stages

  lemma {:induction false} TakeAllAppend(lower: Rune -> Rune, ed: Editor, a: seq<Item>, b: seq<Item>)
    ensures
      var (mid, first) := TakeAll(lower, ed, a);
      var (last, second) := TakeAll(lower, mid, b);
      TakeAll(lower, ed, a + b) == (last, first + second)
    decreases |a|
  {
    if a == [] {
      assert a + b == b;
      assert [] + TakeAll(lower, ed, b).1 == TakeAll(lower, ed, b).1;
    } else {
      assert (a + b)[1..] == a[1..] + b;
      var (next, first) := Take(lower, ed, a[0]);
      TakeAllAppend(lower, next, a[1..], b);
      var (mid, rest) := TakeAll(lower, next, a[1..]);
      var second := TakeAll(lower, mid, b).1;
      assert first + (rest + second) == (first + rest) + second;
    }
  }

  lemma TakeAllSnoc(lower: Rune -> Rune, ed: Editor, items: seq<Item>, i: Item)
    ensures
      var (mid, before) := TakeAll(lower, ed, items);
      var (last, more) := Take(lower, mid, i);
      TakeAll(lower, ed, items + [i]) == (last, before + more)
  {
    TakeAllAppend(lower, ed, items, [i]);
    var (last, more) := Take(lower, TakeAll(lower, ed, items).0, i);
    assert [i][1..] == [] && more + [] == more;
    assert TakeAll(lower, last, []) == (last, []);
  }

  lemma LineLengthOf(line: seq<Item>, rest: seq<Item>)
    requires forall i :: 0 <= i < |line| ==> !EndsLine(line[i])
    requires rest != [] && EndsLine(rest[0])
    ensures LineLength(line + rest) == |line|
  {
    var all := line + rest;
    assert all[|line|] == rest[0];
    assert forall i :: 0 <= i < |line| ==> all[i] == line[i];
  }

  lemma FinishedLine(lower: Rune -> Rune, line: seq<Item>, end: Item, rest: seq<Item>)
    requires EndsLine(end) && forall i :: 0 <= i < |line| ==> !EndsLine(line[i])
    ensures Commands(lower, line + [end] + rest) == CommandOf(lower, line) + Commands(lower, rest)
  {
    var all := line + [end] + rest;
    assert all == line + ([end] + rest);
    LineLengthOf(line, [end] + rest);
    assert all[..|line|] == line && all[|line| + 1..] == rest;
  }

  lemma EditSnoc(line: seq<Item>, i: Item)
    ensures Edit(line + [i]) == EditStep(Edit(line), i)
  {
    assert (line + [i])[..|line|] == line;
  }

  /** Between items, the buffer is the edited line so far and `suppress` tells of a prompt in it. */
  ghost predicate Holds(ed: Editor, line: seq<Item>) {
    && ed.buffer == Edit(line) && (ed.suppress <==> Prompt in line)
    && forall i :: 0 <= i < |line| ==> !EndsLine(line[i])
  }

  lemma HoldsMore(ed: Editor, line: seq<Item>, i: Item)
    requires Holds(ed, line) && !EndsLine(i)
    ensures Holds(ed.(buffer := EditStep(ed.buffer, i), suppress := ed.suppress || i == Prompt), line + [i])
  {
    EditSnoc(line, i);
  }

  /** Inside an escape sequence, and at its start, nothing but the escape state changes. */
  lemma EscapeStep(lower: Rune -> Rune, ed: Editor, items: seq<Item>)
    requires items != [] && items[0].Typed? && (ed.escape != Plain || items[0].r == ESC)
    ensures
      var (next, first) := Take(lower, ed, items[0]);
      && first == [] && next == ed.(escape := next.escape)
      && StripFrom(ed.escape, items) == StripFrom(next.escape, items[1..])
  {
  }

  /** The two stages from a point on: the rest of the current line is `line`. */
  function TwoStages(lower: Rune -> Rune, escape: Escape, line: seq<Item>, items: seq<Item>): seq<seq<Rune>> {
    Commands(lower, line + StripFrom(escape, items))
  }

  lemma NoItems(lower: Rune -> Rune, escape: Escape, line: seq<Item>)
    requires forall i :: 0 <= i < |line| ==> !EndsLine(line[i])
    ensures TwoStages(lower, escape, line, []) == []
  {
    assert line + [] == line;
    assert LineLength(line) == |line|;
  }

  lemma StaysInLine(lower: Rune -> Rune, escape: Escape, line: seq<Item>, items: seq<Item>)
    requires items != []
    requires items[0].Prompt? || (escape == Plain && items[0] != Typed(ESC))
    ensures TwoStages(lower, escape, line, items) == TwoStages(lower, escape, line + [items[0]], items[1..])
  {
    var rest := StripFrom(escape, items[1..]);
    assert StripFrom(escape, items) == [items[0]] + rest;
    assert line + ([items[0]] + rest) == line + [items[0]] + rest;
  }

  lemma ItemsInOrder(line: seq<Item>, end: Item, rest: seq<Item>)
    ensures line + ([end] + rest) == line + [end] + rest && [] + rest == rest
  {
  }

  lemma EndsTheLine(lower: Rune -> Rune, line: seq<Item>, items: seq<Item>)
    requires items != [] && EndsLine(items[0]) && forall i :: 0 <= i < |line| ==> !EndsLine(line[i])
    ensures TwoStages(lower, Plain, line, items) == CommandOf(lower, line) + TwoStages(lower, Plain, [], items[1..])
  {
    var end, rest := items[0], Strip(items[1..]);
    ItemsInOrder(line, end, rest);
    FinishedLine(lower, line, end, rest);
  }

  /** From any point on, one pass gives the commands of the two stages. */
  lemma {:induction false} OnePassFrom(lower: Rune -> Rune, ed: Editor, line: seq<Item>, items: seq<Item>)
    requires Holds(ed, line)
    ensures TakeAll(lower, ed, items).1 == TwoStages(lower, ed.escape, line, items)
    decreases |items|
  {
    if items == [] {
      NoItems(lower, ed.escape, line);
    } else {
      var i, rest := items[0], items[1..];
      var (next, first) := Take(lower, ed, i);
      if i.Typed? && (ed.escape != Plain || i.r == ESC) {
        EscapeStep(lower, ed, items);
        OnePassFrom(lower, next, line, rest);
      } else if EndsLine(i) {
        OnePassFrom(lower, next, [], rest);
        EndsTheLine(lower, line, items);
      } else {
        HoldsMore(ed, line, i);
        OnePassFrom(lower, next, line + [i], rest);
        StaysInLine(lower, ed.escape, line, items);
      }
    }
  }

  /** One pass over a stream of runes and prompts is stripping escapes, then editing lines. */
  lemma OnePassIsTwoStages(lower: Rune -> Rune, items: seq<Item>)
    ensures TakeAll(lower, BLANK, items).1 == Commands(lower, Strip(items))
  {
    OnePassFrom(lower, BLANK, [], items);
    assert [] + Strip(items) == Strip(items);
  }

  // ---- Whole sessions

  lemma PromptOnly(lower: Rune -> Rune, ed: Editor)
    ensures TakeAll(lower, ed, [Prompt]) == (ed.(suppress := true), [])
  {
    var one: seq<Item> := [Prompt];
    assert one[1..] == [];
    var none: seq<seq<Rune>> := [];
    assert none + none == none;
  }

  lemma {:induction false} SessionIsOnePass(lower: Rune -> Rune, events: seq<Event>)
    requires LowerOk(lower)
    ensures
      var (st, commands) := Session(lower, events);
      var v := Seen(lower, events);
      && (st.editor, commands) == TakeAll(lower, BLANK, v.items)
      && st.enabled == v.enabled
      && st.tail == LastBytes(v.history) && !Detected(lower, v.history)
  {
    if events == [] {
      NothingInNothing(lower);
    } else {
      var before, e := events[..|events| - 1], events[|events| - 1];
      SessionIsOnePass(lower, before);
      var v := Seen(lower, before);
      match e {
        case Enable =>
          assert Session(lower, before).1 + [] == Session(lower, before).1;
        case Input(data) =>
          TakeAllAppend(lower, BLANK, v.items, TypedAll(Decode(data, 0)));
          assert Session(lower, before).1 + [] == Session(lower, before).1;
        case Output(bytes) =>
          ObserveAlike(lower, v.history, bytes);
          TakeAllAppend(lower, BLANK, v.items, [Prompt]);
          var mid := TakeAll(lower, BLANK, v.items).0;
          PromptOnly(lower, mid);
          assert Session(lower, before).1 + [] == Session(lower, before).1;
      }
    }
  }

  /**
   For every session, however input and output are chunked and interleaved: the
   commands emitted are those of the specification, which strips escape sequences
   from everything typed since the shell was enabled, edits it line by line, and
   leaves out exactly the lines during which a prompt appeared, found by searching
   all output since the last prompt.
   */
  lemma CollectorRefinesSpecification(lower: Rune -> Rune, events: seq<Event>)
    requires LowerOk(lower)
    ensures Session(lower, events).1 == Commands(lower, Strip(Seen(lower, events).items))
  {
    SessionIsOnePass(lower, events);
    OnePassIsTwoStages(lower, Seen(lower, events).items);
  }

  // ---- What editing leaves

  /** A rune that is typed into the line, as opposed to one that edits it. */
  predicate IsPrintable(r: Rune) {
    r >= 0x20 && r != 0x7f
  }

  predicate IsErase(r: Rune) {
    r == 0x08 || r == 0x7f
  }

  predicate IsKill(r: Rune) {
    r == 0x03 || r == 0x15 || r == 0x18 || r == 0x1a
  }

  function Depth(line: seq<Item>): nat {
    if line == [] then 0
    else
      var before := Depth(line[..|line| - 1]);
      match line[|line| - 1]
      case Prompt => before
      case Typed(r) =>
        if IsPrintable(r) then (if before < 4096 then before + 1 else before)
        else if IsErase(r) then (if before > 0 then before - 1 else 0)
        else if IsKill(r) then 0
        else before
  }

  /** Item `i` is a printable rune that found room, so that it was written at position `p`. */
  ghost predicate WrittenAt(line: seq<Item>, i: nat, p: nat) {
    && i < |line| && line[i].Typed? && IsPrintable(line[i].r)
    && Depth(line[..i]) == p < 4096
  }

  /** And nothing typed later has taken it back. */
  ghost predicate Survives(line: seq<Item>, i: nat, p: nat) {
    WrittenAt(line, i, p) && forall j :: i < j <= |line| ==> Depth(line[..j]) > p
  }

  lemma DepthSnoc(line: seq<Item>, i: Item)
    ensures (line + [i])[..|line|] == line
    ensures Depth(line + [i]) <= Depth(line) + 1
  {
  }

  lemma {:induction false} EditLength(line: seq<Item>)
    ensures |Edit(line)| == Depth(line) <= 4096
  {
    if line != [] {
      EditLength(line[..|line| - 1]);
    }
  }

  lemma SurvivesLonger(line: seq<Item>, last: Item, i: nat, p: nat)
    requires i < |line| && Survives(line, i, p) && Depth(line + [last]) > p
    ensures Survives(line + [last], i, p)
  {
    var all := line + [last];
    assert all[i] == line[i] && all[..i] == line[..i];
    forall j | i < j <= |all|
      ensures Depth(all[..j]) > p
    {
      if j <= |line| {
        assert all[..j] == line[..j];
      } else {
        assert all[..j] == all;
      }
    }
  }

  /**
   Which typed runes are left, and where: position `p` of the edited line holds the
   printable rune that was written there and never taken back. Writing moves one
   position on while there is room for 4096, erasing one back, killing to the start.
   */
  lemma {:induction false} EditAt(line: seq<Item>, p: nat) returns (i: nat)
    requires p < Depth(line)
    ensures Survives(line, i, p) && p < |Edit(line)| && Edit(line)[p] == line[i].r
  {
    var n := |line| - 1;
    var before, last := line[..n], line[n];
    assert line == before + [last] && line[..|line|] == line;
    EditLength(before);
    EditLength(line);
    if p < Depth(before) {
      i := EditAt(before, p);
      SurvivesLonger(before, last, i, p);
    } else {
      i := n;
      assert line[..n + 1] == line;
    }
  }

  /** No other typed rune is left: a surviving one is at its position. */
  lemma {:induction false} SurvivorIsKept(line: seq<Item>, i: nat, p: nat)
    requires Survives(line, i, p)
    ensures p < |Edit(line)| && Edit(line)[p] == line[i].r
  {
    var n := |line| - 1;
    var before, last := line[..n], line[n];
    assert line == before + [last] && line[..|line|] == line;
    EditLength(before);
    EditLength(line);
    if i < n {
      assert Survives(before, i, p) by {
        assert before[i] == line[i] && before[..i] == line[..i];
        forall j | i < j <= |before|
          ensures Depth(before[..j]) > p
        {
          assert before[..j] == line[..j];
        }
      }
      SurvivorIsKept(before, i, p);
    }
  }

  /** Plain typing leaves what was typed. */
  lemma {:induction false} PlainTyping(runes: seq<Rune>)
    requires |runes| <= 4096 && forall i :: 0 <= i < |runes| ==> IsPrintable(runes[i])
    ensures Edit(TypedAll(runes)) == runes
  {
    if runes != [] {
      var n := |runes| - 1;
      PlainTyping(runes[..n]);
      assert TypedAll(runes) == TypedAll(runes[..n]) + [Typed(runes[n])];
      EditSnoc(TypedAll(runes[..n]), Typed(runes[n]));
      assert runes == runes[..n] + [runes[n]];
    }
  }

  /** Backspace and delete take back the rune typed before. */
  lemma EraseTakesBack(line: seq<Item>, r: Rune, erase: Rune)
    requires IsPrintable(r) && (erase == 0x08 || erase == 0x7f) && |Edit(line)| < 4096
    ensures Edit(line + [Typed(r), Typed(erase)]) == Edit(line)
  {
    assert line + [Typed(r), Typed(erase)] == line + [Typed(r)] + [Typed(erase)];
    EditSnoc(line, Typed(r));
    EditSnoc(line + [Typed(r)], Typed(erase));
  }

  /** Ctrl-C, Ctrl-U, Ctrl-X and Ctrl-Z forget the line so far. */
  lemma {:induction false} KillForgets(line: seq<Item>, kill: Rune, rest: seq<Item>)
    requires kill == 0x03 || kill == 0x15 || kill == 0x18 || kill == 0x1a
    ensures Edit(line + [Typed(kill)] + rest) == Edit(rest)
    decreases |rest|
  {
    if rest == [] {
      EditSnoc(line, Typed(kill));
      assert line + [Typed(kill)] + rest == line + [Typed(kill)];
    } else {
      var n := |rest| - 1;
      KillForgets(line, kill, rest[..n]);
      assert line + [Typed(kill)] + rest == line + [Typed(kill)] + rest[..n] + [rest[n]];
      EditSnoc(line + [Typed(kill)] + rest[..n], rest[n]);
    }
  }

  /** Nothing else changes the line: other control runes, prompts, erasing nothing, or typing past the limit. */
  lemma NothingElseEdits(line: seq<Item>, i: Item)
    requires
      || i == Prompt
      || (i.Typed? && !IsPrintable(i.r) && !IsErase(i.r) && !IsKill(i.r))
      || (i.Typed? && IsErase(i.r) && Edit(line) == [])
      || (i.Typed? && IsPrintable(i.r) && |Edit(line)| == 4096)
    ensures Edit(line + [i]) == Edit(line)
  {
    EditSnoc(line, i);
  }

  // ---- What stripping leaves

  ghost predicate NoEscape(items: seq<Item>) {
    forall i :: 0 <= i < |items| ==> items[i] != Typed(0x1b)
  }

  /** What stands before an escape sequence stays. */
  lemma {:induction false} StripBefore(before: seq<Item>, rest: seq<Item>)
    requires NoEscape(before)
    ensures Strip(before + rest) == before + Strip(rest)
    decreases |before|
  {
    if before == [] {
      assert before + rest == rest;
    } else {
      assert (before + rest)[0] == before[0] && (before + rest)[1..] == before[1..] + rest;
      StripBefore(before[1..], rest);
    }
  }

  /** ESC takes the one rune after it, unless that opens a longer sequence. */
  lemma ShortSequence(before: seq<Item>, r: Rune, rest: seq<Item>)
    requires NoEscape(before) && r != '[' as int && r != 'O' as int
    ensures Strip(before + [Typed(0x1b), Typed(r)] + rest) == before + Strip(rest)
  {
    var tail := [Typed(0x1b), Typed(r)] + rest;
    assert before + [Typed(0x1b), Typed(r)] + rest == before + tail;
    StripBefore(before, tail);
    assert tail[1..] == [Typed(r)] + rest && tail[1..][1..] == rest;
  }

  lemma {:induction false} ParametersStripped(parameters: seq<Rune>, final: Rune, rest: seq<Item>)
    requires 0x40 <= final <= 0x7e && forall i :: 0 <= i < |parameters| ==> !(0x40 <= parameters[i] <= 0x7e)
    ensures StripParameters(TypedAll(parameters) + [Typed(final)] + rest) == Strip(rest)
    decreases |parameters|
  {
    var items := TypedAll(parameters) + [Typed(final)] + rest;
    if parameters == [] {
      assert items[0] == Typed(final) && items[1..] == rest;
    } else {
      assert items[0] == Typed(parameters[0]);
      assert items[1..] == TypedAll(parameters[1..]) + [Typed(final)] + rest;
      ParametersStripped(parameters[1..], final, rest);
    }
  }

  /** ESC with `[` or `O` takes everything up to and with the first rune from 0x40 to 0x7e. */
  lemma LongSequence(before: seq<Item>, opener: Rune, parameters: seq<Rune>, final: Rune, rest: seq<Item>)
    requires NoEscape(before) && (opener == '[' as int || opener == 'O' as int)
    requires 0x40 <= final <= 0x7e && forall i :: 0 <= i < |parameters| ==> !(0x40 <= parameters[i] <= 0x7e)
    ensures Strip(before + [Typed(0x1b), Typed(opener)] + TypedAll(parameters) + [Typed(final)] + rest) ==
            before + Strip(rest)
  {
    var inner := TypedAll(parameters) + [Typed(final)] + rest;
    var tail := [Typed(0x1b), Typed(opener)] + inner;
    assert before + [Typed(0x1b), Typed(opener)] + TypedAll(parameters) + [Typed(final)] + rest == before + tail;
    StripBefore(before, tail);
    assert tail[1..] == [Typed(opener)] + inner && tail[1..][1..] == inner;
    ParametersStripped(parameters, final, rest);
  }

  // ---- Whole lines

  predicate IsSecretWord(m: string) {
    || m == "password" || m == "passwd" || m == "passphrase" || m == "secret" || m == "token" || m == "api_key"
    || m == "apikey" || m == "access_key" || m == "secret_key" || m == "sshpass" || m == "mysql_pwd" || m == "pgpassword"
  }

  lemma SecretWords(m: string)
    ensures IsSecretWord(m) <==> exists n :: 0 <= n < |SENSITIVE| && SENSITIVE[n] == m
  {
    if IsSecretWord(m) {
      var n := if m == SENSITIVE[0] then 0 else if m == SENSITIVE[1] then 1 else if m == SENSITIVE[2] then 2
               else if m == SENSITIVE[3] then 3 else if m == SENSITIVE[4] then 4 else if m == SENSITIVE[5] then 5
               else if m == SENSITIVE[6] then 6 else if m == SENSITIVE[7] then 7 else if m == SENSITIVE[8] then 8
               else if m == SENSITIVE[9] then 9 else if m == SENSITIVE[10] then 10 else 11;
      assert SENSITIVE[n] == m;
    }
  }

  /** The command holds one of the words, in any case. */
  ghost predicate HoldsSecret(lower: Rune -> Rune, command: seq<Rune>) {
    exists m :: IsSecretWord(m) && Contains(Lowered(lower, command), Runes(m))
  }

  /** A command is replaced as a whole exactly when it holds a secret word, and is else only trimmed. */
  lemma SanitizedExactly(lower: Rune -> Rune, command: seq<Rune>)
    ensures Sanitize(lower, command) ==
            if HoldsSecret(lower, Trim(command)) then Runes("[SENSITIVE COMMAND REDACTED]") else Trim(command)
  {
    var text := Trim(command);
    if IsSensitive(lower, text) {
      var n :| 0 <= n < |SENSITIVE| && Contains(Lowered(lower, text), Runes(SENSITIVE[n]));
      SecretWords(SENSITIVE[n]);
      assert IsSecretWord(SENSITIVE[n]);
    }
    if HoldsSecret(lower, text) {
      var m :| IsSecretWord(m) && Contains(Lowered(lower, text), Runes(m));
      SecretWords(m);
    }
  }

  lemma PrintableIsPlain(runes: seq<Rune>)
    requires forall i :: 0 <= i < |runes| ==> IsPrintable(runes[i])
    ensures NoEscape(TypedAll(runes)) && forall i :: 0 <= i < |runes| ==> !EndsLine(TypedAll(runes)[i])
    ensures Prompt !in TypedAll(runes)
  {
  }

  /**
   A line of up to 4096 printable runes ended by CR or LF is emitted as it was typed,
   trimmed and without secrets, and nothing is emitted for a blank one; what follows
   is treated on its own.
   */
  lemma TypedLineIsEmitted(lower: Rune -> Rune, runes: seq<Rune>, end: Rune, rest: seq<Item>)
    requires |runes| <= 4096 && forall i :: 0 <= i < |runes| ==> IsPrintable(runes[i])
    requires end == 0x0d || end == 0x0a
    ensures
      var line := if Trim(runes) == [] then [] else [Sanitize(lower, Trim(runes))];
      TakeAll(lower, BLANK, TypedAll(runes) + [Typed(end)] + rest).1 == line + TakeAll(lower, BLANK, rest).1
  {
    var line := TypedAll(runes);
    PrintableIsPlain(runes);
    PlainTyping(runes);
    assert line + [Typed(end)] + rest == line + ([Typed(end)] + rest);
    StripBefore(line, [Typed(end)] + rest);
    assert ([Typed(end)] + rest)[1..] == rest;
    assert line + ([Typed(end)] + Strip(rest)) == line + [Typed(end)] + Strip(rest);
    FinishedLine(lower, line, Typed(end), Strip(rest));
    OnePassIsTwoStages(lower, line + [Typed(end)] + rest);
    OnePassIsTwoStages(lower, rest);
  }

  /** With a prompt anywhere in it, nothing is emitted for that line, and the next is treated on its own. */
  lemma PromptedLineIsNot(lower: Rune -> Rune, before: seq<Rune>, after: seq<Rune>, end: Rune, rest: seq<Item>)
    requires forall i :: 0 <= i < |before| ==> IsPrintable(before[i])
    requires forall i :: 0 <= i < |after| ==> IsPrintable(after[i])
    requires end == 0x0d || end == 0x0a
    ensures TakeAll(lower, BLANK, TypedAll(before) + [Prompt] + TypedAll(after) + [Typed(end)] + rest).1 ==
            TakeAll(lower, BLANK, rest).1
  {
    var line := TypedAll(before) + [Prompt] + TypedAll(after);
    PrintableIsPlain(before);
    PrintableIsPlain(after);
    assert line[|before|] == Prompt;
    assert NoEscape(line) && forall i :: 0 <= i < |line| ==> !EndsLine(line[i]);
    assert line + [Typed(end)] + rest == line + ([Typed(end)] + rest);
    StripBefore(line, [Typed(end)] + rest);
    assert ([Typed(end)] + rest)[1..] == rest;
    assert line + ([Typed(end)] + Strip(rest)) == line + [Typed(end)] + Strip(rest);
    FinishedLine(lower, line, Typed(end), Strip(rest));
    OnePassIsTwoStages(lower, line + [Typed(end)] + rest);
    OnePassIsTwoStages(lower, rest);
    assert CommandOf(lower, line) == [];
  }

  // ---- Chunking of the input

  lemma InputInTwo(lower: Rune -> Rune, st: State, a: seq<Byte>, b: seq<Byte>)
    requires b != [] ==> !IsContinuation(b[0])
    ensures
      var (mid, first) := Respond(lower, st, Input(a));
      var (last, second) := Respond(lower, mid, Input(b));
      Respond(lower, st, Input(a + b)) == (last, first + second)
  {
    if st.enabled {
      DecodeAppend(a, b, 0);
      assert TypedAll(Decode(a + b, 0)) == TypedAll(Decode(a, 0)) + TypedAll(Decode(b, 0));
      TakeAllAppend(lower, st.editor, TypedAll(Decode(a, 0)), TypedAll(Decode(b, 0)));
    } else {
      var none: seq<seq<Rune>> := [];
      assert none + none == none;
    }
  }

  lemma SessionSnoc(lower: Rune -> Rune, events: seq<Event>, e: Event)
    ensures
      var (st, before) := Session(lower, events);
      var (next, commands) := Respond(lower, st, e);
      Session(lower, events + [e]) == (next, before + commands)
  {
    assert (events + [e])[..|events|] == events;
  }

  /** Wherever a chunk of input is cut without cutting a UTF-8 sequence, the session is the same. */
  lemma {:induction false} CutsDoNotMatter(
    lower: Rune -> Rune, before: seq<Event>, a: seq<Byte>, b: seq<Byte>, after: seq<Event>)
    requires b != [] ==> !IsContinuation(b[0])
    ensures Session(lower, before + [Input(a + b)] + after) == Session(lower, before + [Input(a), Input(b)] + after)
    decreases |after|
  {
    var whole, cut := before + [Input(a + b)], before + [Input(a), Input(b)];
    if after == [] {
      assert whole + after == whole && cut + after == cut && cut == before + [Input(a)] + [Input(b)];
      SessionSnoc(lower, before, Input(a + b));
      SessionSnoc(lower, before, Input(a));
      SessionSnoc(lower, before + [Input(a)], Input(b));
      var st := Session(lower, before).0;
      InputInTwo(lower, st, a, b);
      CommandsInTwo(Session(lower, before).1, Respond(lower, st, Input(a)).1,
                    Respond(lower, Respond(lower, st, Input(a)).0, Input(b)).1);
    } else {
      var n := |after| - 1;
      CutsDoNotMatter(lower, before, a, b, after[..n]);
      assert whole + after == (whole + after[..n]) + [after[n]] && cut + after == (cut + after[..n]) + [after[n]];
      SessionSnoc(lower, whole + after[..n], after[n]);
      SessionSnoc(lower, cut + after[..n], after[n]);
    }
  }

  lemma CommandsInTwo(a: seq<seq<Rune>>, b: seq<seq<Rune>>, c: seq<seq<Rune>>)
    ensures a + (b + c) == (a + b) + c
  {
  }

  // ---- What is emitted

  lemma {:induction false} EditIsBounded(line: seq<Item>)
    ensures |Edit(line)| <= MAX_RUNES
    ensures forall i :: 0 <= i < |Edit(line)| ==> Edit(line)[i] >= 0x20
  {
    if line != [] {
      EditIsBounded(line[..|line| - 1]);
    }
  }

  /** The buffer never exceeds its limit, in any session. */
  lemma {:induction false} BufferIsBounded(lower: Rune -> Rune, ed: Editor, items: seq<Item>)
    requires |ed.buffer| <= MAX_RUNES
    ensures |TakeAll(lower, ed, items).0.buffer| <= MAX_RUNES
    decreases |items|
  {
    if items != [] {
      BufferIsBounded(lower, Take(lower, ed, items[0]).0, items[1..]);
    }
  }

  /** Whether a marker occurs from position `k` on, decided by scanning. */
  predicate OccursFrom(s: string, m: string, k: nat)
    decreases |s| - k
  {
    k + |m| <= |s| && (s[k..k + |m|] == m || OccursFrom(s, m, k + 1))
  }

  lemma {:induction false} OccursFromFinds(s: string, m: string, k: nat, i: nat)
    requires k <= i && OccursAt(Runes(s), Runes(m), i)
    ensures OccursFrom(s, m, k)
    decreases i - k
  {
    if k == i {
      var found := Runes(s)[i..i + |m|];
      assert forall j :: 0 <= j < |m| ==> found[j] == s[i + j] as int == Runes(m)[j] == m[j] as int;
      assert forall j :: 0 <= j < |m| ==> s[i..i + |m|][j] == m[j];
      assert s[i..i + |m|] == m;
    } else {
      OccursFromFinds(s, m, k + 1, i);
    }
  }

  const REDACTED_LOWER := "[sensitive command redacted]"

  /** A text that lacks some two neighbouring runes of a marker lacks the marker. */
  lemma {:induction false} MissingPair(s: string, m: string, j: nat, k: nat)
    requires j + 1 < |m| && forall i :: 0 <= i < |s| - 1 ==> s[i] != m[j] || s[i + 1] != m[j + 1]
    ensures !OccursFrom(s, m, k)
    decreases |s| - k
  {
    if k + |m| <= |s| {
      var found := s[k..k + |m|];
      assert found[j] == s[k + j] && found[j + 1] == s[k + j + 1];
      MissingPair(s, m, j, k + 1);
    }
  }

  /** Eleven of the markers hold a letter the redaction lacks; "secret" has a pair it lacks. */
  lemma RedactedHasNoMarker(n: nat)
    requires n < |SENSITIVE|
    ensures !OccursFrom(REDACTED_LOWER, SENSITIVE[n], 0)
  {
    var s, m := REDACTED_LOWER, SENSITIVE[n];
    assert 'p' !in s && 'k' !in s;
    var j := [0, 0, 0, 1, 2, 1, 1, 7, 7, 3, 6, 0][n];
    assert n == 3 || m[j] == 'p' || m[j] == 'k';
    assert n == 3 ==> m[j] == 'e' && m[j + 1] == 'c';
    forall i | 0 <= i < |s| - 1
      ensures s[i] != m[j] || s[i + 1] != m[j + 1]
    {
      assert s[10] == ' ' && s[22] == 'a';
      assert s[i] in s;
    }
    MissingPair(s, m, j, 0);
  }

  lemma RedactedIsClean(lower: Rune -> Rune)
    requires LowerOk(lower)
    ensures !IsSensitive(lower, Runes(REDACTED)) && Trim(Runes(REDACTED)) == Runes(REDACTED) && Runes(REDACTED) != []
  {
    var r := Runes(REDACTED);
    assert Lowered(lower, r) == Runes(REDACTED_LOWER);
    forall n | 0 <= n < |SENSITIVE|
      ensures !Contains(Lowered(lower, r), Runes(SENSITIVE[n]))
    {
      RedactedHasNoMarker(n);
      if k: nat :| OccursAt(Runes(REDACTED_LOWER), Runes(SENSITIVE[n]), k) {
        OccursFromFinds(REDACTED_LOWER, SENSITIVE[n], 0, k);
      }
    }
  }

  /** Not empty, no space at either end, and none of the sensitive markers in it. */
  predicate IsClean(lower: Rune -> Rune, command: seq<Rune>) {
    command != [] && Trim(command) == command && !IsSensitive(lower, command)
  }

  lemma SanitizedIsClean(lower: Rune -> Rune, text: seq<Rune>)
    requires LowerOk(lower) && Trim(text) != []
    ensures IsClean(lower, Sanitize(lower, Trim(text)))
  {
    TrimmedEnds(text);
    RedactedIsClean(lower);
  }

  /** Every command emitted in any session is clean. */
  lemma {:induction false} CommandsAreClean(lower: Rune -> Rune, items: seq<Item>)
    requires LowerOk(lower)
    ensures forall c :: c in Commands(lower, items) ==> IsClean(lower, c)
    decreases |items|
  {
    var n := LineLength(items);
    if n < |items| {
      CommandsAreClean(lower, items[n + 1..]);
      if Trim(Edit(items[..n])) != [] {
        SanitizedIsClean(lower, Edit(items[..n]));
      }
    }
  }

  /** In every session: emitted commands are clean and the buffer is within its limit. */
  lemma SessionIsClean(lower: Rune -> Rune, events: seq<Event>)
    requires LowerOk(lower)
    ensures forall c :: c in Session(lower, events).1 ==> IsClean(lower, c)
    ensures |Session(lower, events).0.editor.buffer| <= MAX_RUNES
  {
    CollectorRefinesSpecification(lower, events);
    CommandsAreClean(lower, Strip(Seen(lower, events).items));
    SessionIsOnePass(lower, events);
    BufferIsBounded(lower, BLANK, Seen(lower, events).items);
  }
}
