/**
 Detection of password prompts in terminal output. The gateway keeps only the last
 256 bytes between chunks, which may cut a UTF-8 sequence; that is shown to raise
 on exactly the same chunks as searching all output since the last raise.
 */
module PromptWindow {
  import opened Bytes
  import opened Text

  const WINDOW := 256

  const MARKERS: seq<string> := [
    "password:", "password for", "passphrase:", "verification code:", "one-time password:",
    "\U{8bf7}\U{8f93}\U{5165}\U{5bc6}\U{7801}", "\U{5bc6}\U{7801}:", "\U{5bc6}\U{7801}\U{ff1a}"
  ]

  // ---- UTF-8

  predicate IsContinuation(b: Byte) {
    0x80 <= b <= 0xbf
  }

  predicate ContinuesAt(s: seq<Byte>, i: nat) {
    i < |s| && IsContinuation(s[i])
  }

  /** The second byte rules out overlong forms, surrogates and values past U+10FFFF. */
  predicate SecondOk(first: Byte, second: Byte) {
    && IsContinuation(second)
    && (first == 0xe0 ==> second >= 0xa0) && (first == 0xed ==> second <= 0x9f)
    && (first == 0xf0 ==> second >= 0x90) && (first == 0xf4 ==> second <= 0x8f)
  }

  /** The length of the valid encoding that begins at `i`; 0 when there is none. */
  function EncodedLength(s: seq<Byte>, i: nat): nat
    requires i < |s|
  {
    var b := s[i];
    if b < 0x80 then 1
    else if 0xc2 <= b <= 0xdf && ContinuesAt(s, i + 1) then 2
    else if 0xe0 <= b <= 0xef && ContinuesAt(s, i + 1) && SecondOk(b, s[i + 1]) && ContinuesAt(s, i + 2) then 3
    else if 0xf0 <= b <= 0xf4 && ContinuesAt(s, i + 1) && SecondOk(b, s[i + 1]) && ContinuesAt(s, i + 2)
            && ContinuesAt(s, i + 3) then 4
    else 0
  }

  /** Decoding steps over an invalid byte by itself. */
  function Width(s: seq<Byte>, i: nat): (w: nat)
    requires i < |s|
    ensures 1 <= w <= 4 && i + w <= |s|
  {
    if EncodedLength(s, i) == 0 then 1 else EncodedLength(s, i)
  }

  function RuneAt(s: seq<Byte>, i: nat): Rune
    requires i < |s|
  {
    match EncodedLength(s, i)
    case 1 => s[i]
    case 2 => (s[i] - 0xc0) * 0x40 + (s[i + 1] - 0x80)
    case 3 => (s[i] - 0xe0) * 0x1000 + (s[i + 1] - 0x80) * 0x40 + (s[i + 2] - 0x80)
    case 4 => (s[i] - 0xf0) * 0x4_0000 + (s[i + 1] - 0x80) * 0x1000 + (s[i + 2] - 0x80) * 0x40 + (s[i + 3] - 0x80)
    case _ => REPLACEMENT
  }

  /** The runes from byte `i` on, as a Go range loop over the string yields them. */
  function Decode(s: seq<Byte>, i: nat): seq<Rune>
    requires i <= |s|
    decreases |s| - i
  {
    if i == |s| then [] else [RuneAt(s, i)] + Decode(s, i + Width(s, i))
  }

  // ---- Detection

  /** The text, trimmed and lower-cased, contains a marker. */
  predicate Detected(lower: Rune -> Rune, data: seq<Byte>) {
    exists n :: 0 <= n < |MARKERS| && Contains(Lowered(lower, Trim(Decode(data, 0))), Runes(MARKERS[n]))
  }

  /** Go's own detection, one marker after the other. */
  method OutputHasSensitivePrompt(lower: Rune -> Rune, data: seq<Byte>) returns (r: bool)
    ensures r == Detected(lower, data)
  {
    var normalized := Lowered(lower, Trim(Decode(data, 0)));
    for n := 0 to |MARKERS|
      invariant forall j :: 0 <= j < n ==> !Contains(normalized, Runes(MARKERS[j]))
    {
      if Contains(normalized, Runes(MARKERS[n])) {
        return true;
      }
    }
    r := false;
  }

  function LastBytes(s: seq<Byte>): seq<Byte> {
    if |s| > WINDOW then s[|s| - WINDOW..] else s
  }

  /** One chunk against the bounded window: the new tail, and whether suppression is raised. */
  function Observe(lower: Rune -> Rune, tail: seq<Byte>, chunk: seq<Byte>): (seq<Byte>, bool) {
    if chunk == [] then (tail, false)
    else if Detected(lower, tail + chunk) then ([], true)
    else (LastBytes(tail + chunk), false)
  }

  /** One chunk against all output since the last raise. */
  function ObserveAll(lower: Rune -> Rune, history: seq<Byte>, chunk: seq<Byte>): (seq<Byte>, bool) {
    if chunk == [] then (history, false)
    else if Detected(lower, history + chunk) then ([], true)
    else (history + chunk, false)
  }

  // ---- A marker at a byte position

  /** The encoding at byte `i` spells the marker, case aside. */
  predicate MatchAt(lower: Rune -> Rune, s: seq<Byte>, i: nat, m: seq<Rune>)
    decreases |m|
  {
    m == [] || (i < |s| && lower(RuneAt(s, i)) == m[0] && MatchAt(lower, s, i + Width(s, i), m[1..]))
  }

  /** A marker the window can hold: short, not empty, no space at its ends, no U+FFFD in it. */
  predicate MarkerOk(m: seq<Rune>) {
    0 < |m| <= 64 && !IsSpace(m[0]) && !IsSpace(m[|m| - 1]) && REPLACEMENT !in m
  }

  lemma MarkersAreOk(n: nat)
    requires n < |MARKERS|
    ensures MarkerOk(Runes(MARKERS[n]))
  {
    var m := MARKERS[n];
    assert |m| <= 18;
    forall i | 0 <= i < |m|
      ensures m[i] as int != REPLACEMENT
    {
    }
  }

  lemma {:induction false} MatchIsPrefix(lower: Rune -> Rune, s: seq<Byte>, i: nat, m: seq<Rune>)
    requires i <= |s|
    ensures MatchAt(lower, s, i, m) <==> OccursAt(Lowered(lower, Decode(s, i)), m, 0)
    decreases |m|
  {
    var all := Lowered(lower, Decode(s, i));
    if m != [] && i < |s| {
      var rest := Lowered(lower, Decode(s, i + Width(s, i)));
      assert all == [lower(RuneAt(s, i))] + rest;
      MatchIsPrefix(lower, s, i + Width(s, i), m[1..]);
      assert all[1..] == rest;
      if |m| <= |all| {
        assert all[0..|m|][1..] == rest[0..|m| - 1];
        assert all[0..|m|] == [all[0]] + rest[0..|m| - 1];
        assert m == [m[0]] + m[1..];
      }
    }
  }

  /** Byte `i` is where decoding from `j` comes to start a rune. */
  predicate Starts(s: seq<Byte>, j: nat, i: nat)
    requires i <= |s|
    decreases |s| - j
  {
    j == i || (j < i && Starts(s, j + Width(s, j), i))
  }

  lemma InsideContinues(s: seq<Byte>, j: nat, i: nat)
    requires j < i < |s| && i < j + Width(s, j)
    ensures IsContinuation(s[i])
  {
  }

  /** Wherever decoding begins, it is back in step at the next byte that begins an encoding. */
  lemma {:induction false} Resynchronises(s: seq<Byte>, j: nat, i: nat)
    requires j <= i < |s| && !IsContinuation(s[i])
    ensures Starts(s, j, i)
    decreases i - j
  {
    if j < i {
      if i < j + Width(s, j) {
        InsideContinues(s, j, i);
      } else {
        Resynchronises(s, j + Width(s, j), i);
      }
    }
  }

  /** The runes from a start on are the last runes of the decoding. */
  lemma {:induction false} StartsSplits(s: seq<Byte>, j: nat, i: nat) returns (n: nat)
    requires j <= i <= |s| && Starts(s, j, i)
    ensures n <= |Decode(s, j)| && Decode(s, j)[n..] == Decode(s, i)
    decreases i - j
  {
    if j == i {
      n := 0;
    } else {
      var k := StartsSplits(s, j + Width(s, j), i);
      n := k + 1;
      assert Decode(s, j)[k + 1..] == Decode(s, j + Width(s, j))[k..];
    }
  }

  /** Every rune of the decoding has a byte where it starts. */
  lemma {:induction false} RuneStarts(s: seq<Byte>, j: nat, n: nat) returns (i: nat)
    requires j <= |s| && n <= |Decode(s, j)|
    ensures j <= i <= |s| && Decode(s, j)[n..] == Decode(s, i)
    decreases n
  {
    if n == 0 {
      i := j;
    } else {
      i := RuneStarts(s, j + Width(s, j), n - 1);
      assert Decode(s, j)[n..] == Decode(s, j + Width(s, j))[n - 1..];
    }
  }

  lemma OccursLater(s: seq<Rune>, m: seq<Rune>, n: nat)
    requires n <= |s|
    ensures OccursAt(s, m, n) <==> OccursAt(s[n..], m, 0)
  {
    if n + |m| <= |s| {
      assert s[n..][0..|m|] == s[n..n + |m|];
    }
  }

  lemma LoweredSuffix(lower: Rune -> Rune, s: seq<Rune>, n: nat)
    requires n <= |s|
    ensures Lowered(lower, s)[n..] == Lowered(lower, s[n..])
  {
  }

  lemma ReplacementStarts(s: seq<Byte>, i: nat)
    requires i < |s| && IsContinuation(s[i])
    ensures RuneAt(s, i) == REPLACEMENT
  {
  }

  /** Some byte position spells the marker. */
  ghost predicate Matches(lower: Rune -> Rune, s: seq<Byte>, m: seq<Rune>) {
    exists i: nat :: MatchAt(lower, s, i, m)
  }

  /** A marker occurs in the decoded text exactly when some byte position spells it. */
  lemma ContainsIsMatch(lower: Rune -> Rune, s: seq<Byte>, m: seq<Rune>)
    requires LowerOk(lower) && MarkerOk(m)
    ensures Contains(Lowered(lower, Decode(s, 0)), m) <==> Matches(lower, s, m)
  {
    var runes := Decode(s, 0);
    if Contains(Lowered(lower, runes), m) {
      var n: nat :| n <= |runes| && OccursAt(Lowered(lower, runes), m, n);
      OccursLater(Lowered(lower, runes), m, n);
      LoweredSuffix(lower, runes, n);
      var i := RuneStarts(s, 0, n);
      MatchIsPrefix(lower, s, i, m);
    }
    if i: nat :| MatchAt(lower, s, i, m) {
      if IsContinuation(s[i]) {
        ReplacementStarts(s, i);
      }
      assert !IsContinuation(s[i]);
      Resynchronises(s, 0, i);
      var n := StartsSplits(s, 0, i);
      MatchIsPrefix(lower, s, i, m);
      LoweredSuffix(lower, runes, n);
      OccursLater(Lowered(lower, runes), m, n);
    }
  }

  /** Detection asks whether some byte position spells some marker. */
  lemma DetectedIsMatch(lower: Rune -> Rune, s: seq<Byte>)
    requires LowerOk(lower)
    ensures Detected(lower, s) <==> exists n :: 0 <= n < |MARKERS| && Matches(lower, s, Runes(MARKERS[n]))
  {
    forall n | 0 <= n < |MARKERS|
      ensures Contains(Lowered(lower, Trim(Decode(s, 0))), Runes(MARKERS[n])) <==> Matches(lower, s, Runes(MARKERS[n]))
    {
      MarkersAreOk(n);
      TrimHidesNothing(lower, Decode(s, 0), Runes(MARKERS[n]));
      ContainsIsMatch(lower, s, Runes(MARKERS[n]));
    }
  }

  // ---- Matches are local

  lemma LengthInSuffix(s: seq<Byte>, k: nat, i: nat)
    requires k <= |s| && k + i < |s|
    ensures RuneAt(s[k..], i) == RuneAt(s, k + i) && Width(s[k..], i) == Width(s, k + i)
  {
    var t := s[k..];
    assert forall j :: 0 <= j < |t| ==> t[j] == s[k + j];
    assert forall j: nat :: ContinuesAt(t, j) <==> ContinuesAt(s, k + j);
  }

  lemma {:induction false} MatchInSuffix(lower: Rune -> Rune, s: seq<Byte>, k: nat, i: nat, m: seq<Rune>)
    requires k <= |s|
    ensures MatchAt(lower, s[k..], i, m) <==> MatchAt(lower, s, k + i, m)
    decreases |m|
  {
    if m != [] && k + i < |s| {
      LengthInSuffix(s, k, i);
      MatchInSuffix(lower, s, k, i + Width(s, k + i), m[1..]);
    }
  }

  /** Before a byte that begins an encoding, nothing that follows can complete one. */
  lemma LengthBefore(a: seq<Byte>, b: seq<Byte>, i: nat)
    requires i < |a| && (b != [] ==> !IsContinuation(b[0]))
    ensures EncodedLength(a + b, i) == EncodedLength(a, i)
    ensures RuneAt(a + b, i) == RuneAt(a, i) && Width(a + b, i) == Width(a, i)
  {
    var s := a + b;
    assert forall j :: 0 <= j < |a| ==> s[j] == a[j];
    assert b != [] ==> s[|a|] == b[0];
  }

  lemma {:induction false} DecodeSuffix(s: seq<Byte>, k: nat, i: nat)
    requires k <= |s| && k + i <= |s|
    ensures Decode(s[k..], i) == Decode(s, k + i)
    decreases |s| - i
  {
    if k + i < |s| {
      LengthInSuffix(s, k, i);
      DecodeSuffix(s, k, i + Width(s, k + i));
    }
  }

  lemma Regrouped(r: Rune, s: seq<Rune>, t: seq<Rune>)
    ensures [r] + (s + t) == ([r] + s) + t
  {
  }

  /** Decoding two chunks one after the other is decoding them together, where no sequence is cut. */
  lemma {:induction false} DecodeAppend(a: seq<Byte>, b: seq<Byte>, i: nat)
    requires i <= |a| && (b != [] ==> !IsContinuation(b[0]))
    ensures Decode(a + b, i) == Decode(a, i) + Decode(b, 0)
    decreases |a| - i
  {
    if i == |a| {
      assert (a + b)[i..] == b;
      DecodeSuffix(a + b, i, 0);
    } else {
      var r, w := RuneAt(a, i), Width(a, i);
      LengthBefore(a, b, i);
      DecodeAppend(a, b, i + w);
      Regrouped(r, Decode(a, i + w), Decode(b, 0));
    }
  }

  // ---- Encoding

  /** A Unicode scalar value: any code point that is not a surrogate. */
  predicate IsScalar(r: Rune) {
    0 <= r <= 0x10_ffff && !(0xd800 <= r <= 0xdfff)
  }

  /** UTF-8 as it is defined: six bits to a continuation byte, the rest in the first byte behind its mark. */
  function Encode(r: Rune): (bytes: seq<Byte>)
    requires IsScalar(r)
    ensures 1 <= |bytes| <= 4
  {
    if r < 0x80 then [r]
    else if r < 0x800 then [0xc0 + r / 0x40, 0x80 + r % 0x40]
    else if r < 0x1_0000 then [0xe0 + r / 0x40 / 0x40, 0x80 + r / 0x40 % 0x40, 0x80 + r % 0x40]
    else [0xf0 + r / 0x40 / 0x40 / 0x40, 0x80 + r / 0x40 / 0x40 % 0x40, 0x80 + r / 0x40 % 0x40, 0x80 + r % 0x40]
  }

  predicate AllScalar(rs: seq<Rune>) {
    forall i :: 0 <= i < |rs| ==> IsScalar(rs[i])
  }

  function EncodeAll(rs: seq<Rune>): seq<Byte>
    requires AllScalar(rs)
  {
    if rs == [] then [] else Encode(rs[0]) + EncodeAll(rs[1..])
  }

  lemma SixBits(r: nat)
    ensures r == r / 0x40 * 0x40 + r % 0x40 && 0 <= r % 0x40 < 0x40
  {
  }

  lemma TwoBytes(r: Rune, rest: seq<Byte>)
    requires 0x80 <= r < 0x800
    ensures EncodedLength(Encode(r) + rest, 0) == 2 && RuneAt(Encode(r) + rest, 0) == r
  {
    SixBits(r);
    var s := Encode(r) + rest;
    assert s[0] == 0xc0 + r / 0x40 && s[1] == 0x80 + r % 0x40;
  }

  lemma ThreeBytes(r: Rune, rest: seq<Byte>)
    requires 0x800 <= r < 0x1_0000 && IsScalar(r)
    ensures EncodedLength(Encode(r) + rest, 0) == 3 && RuneAt(Encode(r) + rest, 0) == r
  {
    SixBits(r);
    SixBits(r / 0x40);
    var s := Encode(r) + rest;
    assert s[0] == 0xe0 + r / 0x40 / 0x40 && s[1] == 0x80 + r / 0x40 % 0x40 && s[2] == 0x80 + r % 0x40;
  }

  lemma FourBytes(r: Rune, rest: seq<Byte>)
    requires 0x1_0000 <= r <= 0x10_ffff
    ensures EncodedLength(Encode(r) + rest, 0) == 4 && RuneAt(Encode(r) + rest, 0) == r
  {
    SixBits(r);
    SixBits(r / 0x40);
    SixBits(r / 0x40 / 0x40);
    var s := Encode(r) + rest;
    assert s[0] == 0xf0 + r / 0x40 / 0x40 / 0x40 && s[1] == 0x80 + r / 0x40 / 0x40 % 0x40;
    assert s[2] == 0x80 + r / 0x40 % 0x40 && s[3] == 0x80 + r % 0x40;
  }

  lemma EncodedAt(r: Rune, rest: seq<Byte>)
    requires IsScalar(r)
    ensures var s := Encode(r) + rest; RuneAt(s, 0) == r && Width(s, 0) == |Encode(r)|
  {
    if r >= 0x1_0000 {
      FourBytes(r, rest);
    } else if r >= 0x800 {
      ThreeBytes(r, rest);
    } else if r >= 0x80 {
      TwoBytes(r, rest);
    } else {
      assert (Encode(r) + rest)[0] == r;
    }
  }

  /** Decoding undoes encoding, whatever bytes follow. */
  lemma {:induction false} DecodeEncoded(rs: seq<Rune>, rest: seq<Byte>)
    requires AllScalar(rs)
    ensures Decode(EncodeAll(rs) + rest, 0) == rs + Decode(rest, 0)
    decreases |rs|
  {
    if rs == [] {
      assert EncodeAll(rs) + rest == rest;
    } else {
      var more := EncodeAll(rs[1..]);
      EncodedAt(rs[0], more + rest);
      DecodeStep(Encode(rs[0]), more + rest, rs[0]);
      DecodeEncoded(rs[1..], rest);
      BytesInOrder(Encode(rs[0]), more, rest);
      RunesInOrder(rs, Decode(rest, 0));
    }
  }

  lemma DecodeStep(head: seq<Byte>, tail: seq<Byte>, r: Rune)
    requires head != [] && RuneAt(head + tail, 0) == r && Width(head + tail, 0) == |head|
    ensures Decode(head + tail, 0) == [r] + Decode(tail, 0)
  {
    assert (head + tail)[|head|..] == tail;
    DecodeSuffix(head + tail, |head|, 0);
  }

  lemma BytesInOrder(a: seq<Byte>, b: seq<Byte>, c: seq<Byte>)
    ensures (a + b) + c == a + (b + c)
  {
  }

  lemma RunesInOrder(rs: seq<Rune>, more: seq<Rune>)
    requires rs != []
    ensures rs + more == [rs[0]] + (rs[1..] + more)
  {
  }

  /** Every text comes back from its encoding. */
  lemma Utf8RoundTrip(rs: seq<Rune>)
    requires AllScalar(rs)
    ensures Decode(EncodeAll(rs), 0) == rs
  {
    DecodeEncoded(rs, []);
    assert EncodeAll(rs) + [] == EncodeAll(rs) && rs + [] == rs;
  }

  lemma LengthInPrefix(s: seq<Byte>, n: nat, i: nat)
    requires i + 4 <= n <= |s|
    ensures RuneAt(s[..n], i) == RuneAt(s, i) && Width(s[..n], i) == Width(s, i)
  {
    var t := s[..n];
    assert t[i] == s[i] && t[i + 1] == s[i + 1] && t[i + 2] == s[i + 2] && t[i + 3] == s[i + 3];
  }

  lemma {:induction false} MatchInPrefix(lower: Rune -> Rune, s: seq<Byte>, n: nat, i: nat, m: seq<Rune>)
    requires MatchAt(lower, s, i, m) && i + 4 * |m| <= n <= |s|
    ensures MatchAt(lower, s[..n], i, m)
    decreases |m|
  {
    if m != [] {
      LengthInPrefix(s, n, i);
      MatchInPrefix(lower, s, n, i + Width(s, i), m[1..]);
    }
  }

  // ---- The window

  /** A marker that did not occur before occurs in the window exactly when it occurs in all output. */
  lemma WindowShowsMarker(lower: Rune -> Rune, history: seq<Byte>, chunk: seq<Byte>, m: seq<Rune>)
    requires MarkerOk(m) && !Matches(lower, history, m)
    ensures Matches(lower, LastBytes(history) + chunk, m) <==> Matches(lower, history + chunk, m)
  {
    var all, window := history + chunk, LastBytes(history) + chunk;
    var k := |all| - |window|;
    assert all[k..] == window && all[..|history|] == history;
    if i: nat :| MatchAt(lower, window, i, m) {
      MatchInSuffix(lower, all, k, i, m);
    }
    if i: nat :| MatchAt(lower, all, i, m) {
      if i < k {
        MatchInPrefix(lower, all, |history|, i, m);
      } else {
        MatchInSuffix(lower, all, k, i - k, m);
      }
    }
  }

  /** With no marker in what came before, the last 256 bytes and the new chunk show all there is to find. */
  lemma WindowShowsAll(lower: Rune -> Rune, history: seq<Byte>, chunk: seq<Byte>)
    requires LowerOk(lower) && !Detected(lower, history)
    ensures Detected(lower, LastBytes(history) + chunk) <==> Detected(lower, history + chunk)
  {
    DetectedIsMatch(lower, history + chunk);
    DetectedIsMatch(lower, LastBytes(history) + chunk);
    DetectedIsMatch(lower, history);
    forall n | 0 <= n < |MARKERS|
      ensures Matches(lower, LastBytes(history) + chunk, Runes(MARKERS[n])) <==>
              Matches(lower, history + chunk, Runes(MARKERS[n]))
    {
      MarkersAreOk(n);
      WindowShowsMarker(lower, history, chunk, Runes(MARKERS[n]));
    }
  }

  /** The window after a sequence of chunks, and on which chunks it raised. */
  function Watch(lower: Rune -> Rune, chunks: seq<seq<Byte>>): (seq<Byte>, seq<bool>) {
    if chunks == [] then ([], [])
    else
      var (tail, raised) := Watch(lower, chunks[..|chunks| - 1]);
      var (next, raise) := Observe(lower, tail, chunks[|chunks| - 1]);
      (next, raised + [raise])
  }

  function WatchAll(lower: Rune -> Rune, chunks: seq<seq<Byte>>): (seq<Byte>, seq<bool>) {
    if chunks == [] then ([], [])
    else
      var (history, raised) := WatchAll(lower, chunks[..|chunks| - 1]);
      var (next, raise) := ObserveAll(lower, history, chunks[|chunks| - 1]);
      (next, raised + [raise])
  }

  lemma NothingInNothing(lower: Rune -> Rune)
    requires LowerOk(lower)
    ensures !Detected(lower, [])
  {
    DetectedIsMatch(lower, []);
    forall n | 0 <= n < |MARKERS|
      ensures !Matches(lower, [], Runes(MARKERS[n]))
    {
      MarkersAreOk(n);
    }
  }

  /** The window is the last 256 bytes, or all while there are no more. */
  lemma WindowSize(s: seq<Byte>)
    ensures |LastBytes(s)| == if |s| < 256 then |s| else 256
    ensures s[|s| - |LastBytes(s)|..] == LastBytes(s)
  {
  }

  lemma LastBytesAppend(s: seq<Byte>, t: seq<Byte>)
    ensures LastBytes(LastBytes(s) + t) == LastBytes(s + t)
  {
    var k := |s| - |LastBytes(s)|;
    assert (s + t)[k..] == LastBytes(s) + t;
  }

  /** One chunk keeps the window the tail of an unraised history, and raises alike. */
  lemma ObserveAlike(lower: Rune -> Rune, history: seq<Byte>, chunk: seq<Byte>)
    requires LowerOk(lower) && !Detected(lower, history)
    ensures
      var (tail, raise) := Observe(lower, LastBytes(history), chunk);
      var (next, raiseAll) := ObserveAll(lower, history, chunk);
      raise == raiseAll && tail == LastBytes(next) && !Detected(lower, next)
  {
    WindowShowsAll(lower, history, chunk);
    NothingInNothing(lower);
    LastBytesAppend(history, chunk);
  }

  /** For every chunking of the output, bounded and unbounded search raise on exactly the same chunks. */
  lemma {:induction false} WindowIsExact(lower: Rune -> Rune, chunks: seq<seq<Byte>>)
    requires LowerOk(lower)
    ensures Watch(lower, chunks).1 == WatchAll(lower, chunks).1
    ensures Watch(lower, chunks).0 == LastBytes(WatchAll(lower, chunks).0)
    ensures !Detected(lower, WatchAll(lower, chunks).0)
  {
    if chunks == [] {
      NothingInNothing(lower);
    } else {
      WindowIsExact(lower, chunks[..|chunks| - 1]);
      ObserveAlike(lower, WatchAll(lower, chunks[..|chunks| - 1]).0, chunks[|chunks| - 1]);
    }
  }

  // ---- Prompts in the output

  /** The phrases that ask for a secret. */
  predicate IsPhrase(m: string) {
    || m == "password:" || m == "password for" || m == "passphrase:" || m == "verification code:"
    || m == "one-time password:" || m == "\U{8bf7}\U{8f93}\U{5165}\U{5bc6}\U{7801}"
    || m == "\U{5bc6}\U{7801}:" || m == "\U{5bc6}\U{7801}\U{ff1a}"
  }

  /** They are the markers that are searched for. */
  lemma PhrasesAreMarkers(m: string)
    ensures IsPhrase(m) <==> exists n :: 0 <= n < |MARKERS| && MARKERS[n] == m
  {
    if IsPhrase(m) {
      var n := if m == MARKERS[0] then 0 else if m == MARKERS[1] then 1 else if m == MARKERS[2] then 2
               else if m == MARKERS[3] then 3 else if m == MARKERS[4] then 4 else if m == MARKERS[5] then 5
               else if m == MARKERS[6] then 6 else 7;
      assert MARKERS[n] == m;
    }
  }

  /**
   Output that anywhere holds the encoding of a text that lower-cases to a phrase is
   detected, whatever bytes stand before and after it.
   */
  lemma PhraseIsDetected(lower: Rune -> Rune, m: string, typed: seq<Rune>, before: seq<Byte>, after: seq<Byte>)
    requires LowerOk(lower) && IsPhrase(m) && AllScalar(typed) && Lowered(lower, typed) == Runes(m)
    ensures Detected(lower, before + EncodeAll(typed) + after)
  {
    var s, i := before + EncodeAll(typed) + after, |before|;
    PhrasesAreMarkers(m);
    var n :| 0 <= n < |MARKERS| && MARKERS[n] == m;
    assert s[i..] == EncodeAll(typed) + after;
    DecodeSuffix(s, i, 0);
    DecodeEncoded(typed, after);
    LoweredAppend(lower, typed, Decode(after, 0));
    assert (Runes(m) + Lowered(lower, Decode(after, 0)))[..|m|] == Runes(m);
    assert OccursAt(Lowered(lower, Decode(s, i)), Runes(m), 0);
    MatchIsPrefix(lower, s, i, Runes(m));
    assert Matches(lower, s, Runes(MARKERS[n]));
    DetectedIsMatch(lower, s);
  }

  lemma LoweredAppend(lower: Rune -> Rune, a: seq<Rune>, b: seq<Rune>)
    ensures Lowered(lower, a + b) == Lowered(lower, a) + Lowered(lower, b)
  {
  }

  /** The text spells the phrase, its ASCII letters in either case. */
  predicate Spells(typed: seq<Rune>, m: string) {
    && |typed| == |m|
    && forall i :: 0 <= i < |m| ==>
         || typed[i] == m[i] as int
         || ('a' <= m[i] <= 'z' && typed[i] == m[i] as int - 0x20)
  }

  /** CJK unified ideographs, which have no case. */
  predicate IsIdeograph(r: Rune) {
    0x4e00 <= r <= 0x9fff
  }

  /** So every phrase is detected in either case, where `lower` leaves alone what has no case. */
  lemma SpelledPhraseIsDetected(lower: Rune -> Rune, m: string, typed: seq<Rune>, before: seq<Byte>, after: seq<Byte>)
    requires LowerOk(lower) && forall r :: IsIdeograph(r) || r == 0xff1a ==> lower(r) == r
    requires IsPhrase(m) && AllScalar(typed) && Spells(typed, m)
    ensures Detected(lower, before + EncodeAll(typed) + after)
  {
    forall i | 0 <= i < |m|
      ensures lower(typed[i]) == m[i] as int
    {
      PhraseRune(m, i);
    }
    assert Lowered(lower, typed) == Runes(m);
    PhraseIsDetected(lower, m, typed, before, after);
  }

  lemma PhraseRune(m: string, i: nat)
    requires IsPhrase(m) && i < |m|
    ensures var r := m[i] as int; IsIdeograph(r) || r == 0xff1a || (r < 0x80 && !(0x41 <= r <= 0x5a))
  {
  }
}
