/** Bytes. */
module Bytes {
  type Byte = b: int | 0 <= b < 256
}

/** Text as runes (Unicode code points), with the `strings` operations the SSH gateway uses. */
module Text {
  type Rune = int

  const REPLACEMENT: Rune := 0xfffd

  function Runes(s: string): seq<Rune> {
    seq(|s|, i requires 0 <= i < |s| => s[i] as int)
  }

  /** `unicode.IsSpace`. */
  predicate IsSpace(r: Rune) {
    || 0x09 <= r <= 0x0d || r == 0x20 || r == 0x85 || r == 0xa0 || r == 0x1680
    || 0x2000 <= r <= 0x200a || r == 0x2028 || r == 0x2029 || r == 0x202f || r == 0x205f || r == 0x3000
  }

  function TrimLeft(s: seq<Rune>): seq<Rune> {
    if s != [] && IsSpace(s[0]) then TrimLeft(s[1..]) else s
  }

  function TrimRight(s: seq<Rune>): seq<Rune> {
    if s != [] && IsSpace(s[|s| - 1]) then TrimRight(s[..|s| - 1]) else s
  }

  function Trim(s: seq<Rune>): seq<Rune> {
    TrimRight(TrimLeft(s))
  }

  /** Mapping every rune; stands for `strings.ToLower` with `unicode.ToLower` as `lower`. */
  function Lowered(lower: Rune -> Rune, s: seq<Rune>): seq<Rune> {
    seq(|s|, i requires 0 <= i < |s| => lower(s[i]))
  }

  /** What is used of `unicode.ToLower`: ASCII letters, and that spaces and U+FFFD have no lower case. */
  ghost predicate LowerOk(lower: Rune -> Rune) {
    && (forall r :: 0 <= r < 0x80 ==> lower(r) == if 0x41 <= r <= 0x5a then r + 0x20 else r)
    && (forall r :: IsSpace(r) ==> lower(r) == r)
    && lower(REPLACEMENT) == REPLACEMENT
  }

  predicate OccursAt(s: seq<Rune>, m: seq<Rune>, k: nat) {
    k + |m| <= |s| && s[k..k + |m|] == m
  }

  predicate Contains(s: seq<Rune>, m: seq<Rune>) {
    exists k :: 0 <= k <= |s| && OccursAt(s, m, k)
  }

  // ---- Trimming

  /** Trimming cuts spaces off both ends and nothing else. */
  lemma TrimCuts(s: seq<Rune>) returns (a: nat, b: nat)
    ensures a <= b <= |s| && Trim(s) == s[a..b]
    ensures forall i :: 0 <= i < a || b <= i < |s| ==> IsSpace(s[i])
    ensures Trim(s) != [] ==> !IsSpace(s[a]) && !IsSpace(s[b - 1])
  {
    a := TrimLeftCuts(s);
    b := TrimRightCuts(s[a..]);
    assert s[a..][..b] == s[a..a + b];
    forall i | a + b <= i < |s|
      ensures IsSpace(s[i])
    {
      assert s[i] == s[a..][i - a];
    }
    b := a + b;
  }

  lemma {:induction false} TrimLeftCuts(s: seq<Rune>) returns (a: nat)
    ensures a <= |s| && TrimLeft(s) == s[a..]
    ensures forall i :: 0 <= i < a ==> IsSpace(s[i])
    ensures a < |s| ==> !IsSpace(s[a])
  {
    if s != [] && IsSpace(s[0]) {
      a := TrimLeftCuts(s[1..]);
      assert s[1..][a..] == s[a + 1..];
      forall i | 0 <= i < a + 1
        ensures IsSpace(s[i])
      {
        if i > 0 {
          assert s[i] == s[1..][i - 1];
        }
      }
      a := a + 1;
    } else {
      a := 0;
    }
  }

  lemma {:induction false} TrimRightCuts(s: seq<Rune>) returns (b: nat)
    ensures b <= |s| && TrimRight(s) == s[..b]
    ensures forall i :: b <= i < |s| ==> IsSpace(s[i])
    ensures b > 0 ==> !IsSpace(s[b - 1])
  {
    var n := |s| - 1;
    if s != [] && IsSpace(s[n]) {
      b := TrimRightCuts(s[..n]);
      assert s[..n][..b] == s[..b];
      forall i | b <= i < |s|
        ensures IsSpace(s[i])
      {
        if i < n {
          assert s[i] == s[..n][i];
        }
      }
    } else {
      b := |s|;
    }
  }

  lemma TrimmedEnds(s: seq<Rune>)
    ensures Trim(s) != [] ==> !IsSpace(Trim(s)[0]) && !IsSpace(Trim(s)[|Trim(s)| - 1])
    ensures Trim(Trim(s)) == Trim(s)
  {
    var a, b := TrimCuts(s);
    var t := Trim(s);
    if t != [] {
      assert t[0] == s[a] && t[|t| - 1] == s[b - 1];
    }
  }

  lemma OccursInside(s: seq<Rune>, m: seq<Rune>, a: nat, b: nat, k: nat)
    requires a <= b <= |s| && a <= k && k + |m| <= b
    ensures OccursAt(s[a..b], m, k - a) <==> OccursAt(s, m, k)
  {
    var inner, outer := s[a..b][k - a..k - a + |m|], s[k..k + |m|];
    assert forall i :: 0 <= i < |m| ==> inner[i] == s[a..b][k - a + i] == s[k + i] == outer[i];
    assert inner == outer;
  }

  /** An occurrence of a marker begins and ends where the text has no space. */
  lemma OccurrenceEnds(lower: Rune -> Rune, s: seq<Rune>, m: seq<Rune>, k: nat)
    requires LowerOk(lower) && m != [] && !IsSpace(m[0]) && !IsSpace(m[|m| - 1])
    requires OccursAt(Lowered(lower, s), m, k)
    ensures !IsSpace(s[k]) && !IsSpace(s[k + |m| - 1])
  {
    var found := Lowered(lower, s)[k..k + |m|];
    assert found[0] == lower(s[k]) && found[|m| - 1] == lower(s[k + |m| - 1]);
  }

  /** Trimming cannot hide a marker that neither begins nor ends with a space. */
  lemma TrimHidesNothing(lower: Rune -> Rune, s: seq<Rune>, m: seq<Rune>)
    requires LowerOk(lower) && m != [] && !IsSpace(m[0]) && !IsSpace(m[|m| - 1])
    ensures Contains(Lowered(lower, Trim(s)), m) <==> Contains(Lowered(lower, s), m)
  {
    var a, b := TrimCuts(s);
    var all, cut := Lowered(lower, s), Lowered(lower, Trim(s));
    assert cut == all[a..b];
    if Contains(cut, m) {
      var k :| 0 <= k <= |cut| && OccursAt(cut, m, k);
      OccursInside(all, m, a, b, a + k);
    }
    if Contains(all, m) {
      var k :| 0 <= k <= |all| && OccursAt(all, m, k);
      OccurrenceEnds(lower, s, m, k);
      OccursInside(all, m, a, b, k);
    }
  }
}
