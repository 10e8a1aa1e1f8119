/** Unsigned numbers in decimal: formatting with `%d`, and `strconv.ParseUint` in base ten. */
module Decimals {
  import opened Options

  function Digit(n: nat): char
    requires n < 10
  {
    "0123456789"[n]
  }

  predicate IsDigit(c: char) {
    '0' <= c <= '9'
  }

  function Decimal(n: nat): string {
    if n < 10 then [Digit(n)] else Decimal(n / 10) + [Digit(n % 10)]
  }

  predicate AllDigits(s: string) {
    forall i :: 0 <= i < |s| ==> IsDigit(s[i])
  }

  function Value(s: string): nat
    requires AllDigits(s)
  {
    if s == "" then 0 else Value(s[..|s| - 1]) * 10 + (s[|s| - 1] as int - '0' as int)
  }

  /** Parsing accepts digits only, at least one, and no value above the limit. */
  function ParseUint(s: string, limit: nat): Option<nat> {
    if s != "" && AllDigits(s) && Value(s) <= limit then Some(Value(s)) else None
  }

  lemma {:induction false} DecimalRoundTrip(n: nat)
    ensures Decimal(n) != "" && AllDigits(Decimal(n)) && Value(Decimal(n)) == n
  {
    var s := Decimal(n);
    if n >= 10 {
      DecimalRoundTrip(n / 10);
      assert s[..|s| - 1] == Decimal(n / 10);
    } else {
      assert s[..0] == "";
    }
  }

  /** The last digit is the last character, and the others stand before it. */
  lemma LastDigit(n: nat)
    ensures var s := Decimal(n); s[|s| - 1] as int == '0' as int + n % 10 && (n >= 10 ==> s[..|s| - 1] == Decimal(n / 10))
  {
    assert forall k :: 0 <= k < 10 ==> Digit(k) as int == '0' as int + k;
  }

  lemma DecimalDigits(n: nat)
    ensures Decimal(n) != "" && forall i :: 0 <= i < |Decimal(n)| ==> Decimal(n)[i] != ':'
  {
    DecimalRoundTrip(n);
  }

  lemma DecimalInjective(m: nat, n: nat)
    requires Decimal(m) == Decimal(n)
    ensures m == n
  {
    DecimalRoundTrip(m);
    DecimalRoundTrip(n);
  }

  lemma {:induction false} DecimalLength(n: nat, bound: nat, digits: nat)
    requires n < bound && bound == Power10(digits) && digits > 0
    ensures |Decimal(n)| <= digits
    decreases digits
  {
    if n >= 10 {
      DecimalLength(n / 10, Power10(digits - 1), digits - 1);
    }
  }

  function Power10(n: nat): nat {
    if n == 0 then 1 else 10 * Power10(n - 1)
  }
}
