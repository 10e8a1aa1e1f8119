/**
 Enumeration of the addresses of a network, as the edge scanner does it: mask the
 address, then step through the block in place with a byte-carry increment while
 the network still contains it. An address of four or sixteen bytes is read as a
 big-endian number; the enumeration is compared with the block of numbers.
 */
module Cidr {
  import opened Options
  import opened Bytes

  // ---- Addresses as numbers

  function Pow2(k: nat): (p: nat)
    ensures p >= 1
  {
    if k == 0 then 1 else 2 * Pow2(k - 1)
  }

  /** The number of addresses of `n` bytes. */
  function Size(n: nat): nat {
    Pow2(8 * n)
  }

  function Value(s: seq<Byte>): nat {
    if s == [] then 0 else Value(s[..|s| - 1]) * 256 + s[|s| - 1]
  }

  function ToBytes(v: nat, n: nat): seq<Byte> {
    if n == 0 then [] else ToBytes(v / 256, n - 1) + [v % 256]
  }

  lemma {:induction false} Pow2Adds(a: nat, b: nat)
    ensures Pow2(a + b) == Pow2(a) * Pow2(b)
    decreases b
  {
    if b > 0 {
      Pow2Adds(a, b - 1);
      Twice(Pow2(a), Pow2(b - 1));
    }
  }

  lemma Twice(x: nat, y: nat)
    ensures 2 * (x * y) == x * (2 * y)
  {
  }

  lemma SizeStep(n: nat)
    ensures Size(n + 1) == 256 * Size(n)
  {
    Pow2Adds(8 * n, 8);
    assert Pow2(8) == 256 by { assert Pow2(4) == 16; assert Pow2(8) == 2 * (2 * (2 * (2 * Pow2(4)))); }
  }

  lemma {:induction false} ValueBound(s: seq<Byte>)
    ensures Value(s) < Size(|s|)
  {
    if s != [] {
      ValueBound(s[..|s| - 1]);
      SizeStep(|s| - 1);
    }
  }

  lemma {:induction false} BytesOfValue(s: seq<Byte>)
    ensures ToBytes(Value(s), |s|) == s
  {
    if s != [] {
      var before, last := s[..|s| - 1], s[|s| - 1];
      BytesOfValue(before);
      LastByte(Value(before), last);
      assert s == before + [last];
    }
  }

  lemma LastByte(v: nat, b: Byte)
    ensures (v * 256 + b) / 256 == v && (v * 256 + b) % 256 == b
  {
  }

  lemma {:induction false} ValueOfBytes(v: nat, n: nat)
    requires v < Size(n)
    ensures |ToBytes(v, n)| == n && Value(ToBytes(v, n)) == v
  {
    if n > 0 {
      SizeStep(n - 1);
      ValueOfBytes(v / 256, n - 1);
      var s := ToBytes(v, n);
      assert s[..n - 1] == ToBytes(v / 256, n - 1);
    }
  }

  lemma ValueInjective(s: seq<Byte>, t: seq<Byte>)
    requires |s| == |t|
    ensures Value(s) == Value(t) <==> s == t
  {
    BytesOfValue(s);
    BytesOfValue(t);
  }

  lemma Regroup(a: nat, b: nat)
    ensures a * (256 * b) == a * b * 256
  {
  }

  lemma {:induction false} ValueOfParts(s: seq<Byte>, t: seq<Byte>)
    ensures Value(s + t) == Value(s) * Size(|t|) + Value(t)
    decreases |t|
  {
    if t == [] {
      assert s + t == s;
    } else {
      var n := |t| - 1;
      assert (s + t)[..|s + t| - 1] == s + t[..n];
      ValueOfParts(s, t[..n]);
      SizeStep(n);
      Regroup(Value(s), Size(n));
    }
  }

  // ---- The increment

  function Incremented(s: seq<Byte>): seq<Byte> {
    if s == [] then []
    else if s[|s| - 1] < 255 then s[..|s| - 1] + [s[|s| - 1] + 1]
    else Incremented(s[..|s| - 1]) + [0]
  }

  lemma NextModulo(v: nat, m: nat)
    requires v < m
    ensures (v + 1) % m == if v + 1 == m then 0 else v + 1
  {
    if v + 1 < m {
      SmallModulo(v + 1, m);
    }
  }

  lemma SmallModulo(v: nat, m: nat)
    requires v < m
    ensures v % m == v
  {
  }

  lemma {:induction false} IncrementedValue(s: seq<Byte>)
    ensures |Incremented(s)| == |s|
    ensures Value(Incremented(s)) == if Value(s) + 1 == Size(|s|) then 0 else Value(s) + 1
  {
    if s != [] {
      var n := |s| - 1;
      var before, t := s[..n], Incremented(s);
      IncrementedValue(before);
      ValueBound(before);
      SizeStep(n);
      assert t[..n] == if s[n] < 255 then before else Incremented(before);
    }
  }

  /** The increment adds one, modulo the number of addresses. */
  lemma IncrementAddsOne(s: seq<Byte>)
    ensures |Incremented(s)| == |s| && Value(Incremented(s)) == (Value(s) + 1) % Size(|s|)
  {
    ValueBound(s);
    IncrementedValue(s);
    NextModulo(Value(s), Size(|s|));
  }

  lemma {:induction false} CarryPast(s: seq<Byte>, j: nat)
    requires j <= |s| && forall i :: j <= i < |s| ==> s[i] == 255
    ensures Incremented(s) == Incremented(s[..j]) + Zeros(|s| - j)
    decreases |s| - j
  {
    if j == |s| {
      assert s[..j] == s && Incremented(s) + [] == Incremented(s);
    } else {
      var n := |s| - 1;
      assert s[..n][..j] == s[..j];
      CarryPast(s[..n], j);
      assert Zeros(n - j) + [0] == Zeros(|s| - j);
    }
  }

  function Zeros(n: nat): seq<Byte> {
    seq(n, _ => 0)
  }

  /** The in-place increment, carrying from the last byte forward. */
  method Inc(ip: array<Byte>)
    modifies ip
    ensures ip[..] == Incremented(old(ip[..]))
  {
    ghost var was := ip[..];
    var j := ip.Length - 1;
    while j >= 0
      invariant -1 <= j < ip.Length
      invariant forall i :: j < i < ip.Length ==> was[i] == 255 && ip[i] == 0
      invariant forall i :: 0 <= i <= j ==> ip[i] == was[i]
    {
      ip[j] := (ip[j] as int + 1) % 256;
      if ip[j] > 0 {
        CarryPast(was, j + 1);
        assert was[..j + 1][..j] == was[..j];
        assert ip[..] == was[..j] + [ip[j]] + Zeros(ip.Length - 1 - j);
        return;
      }
      j := j - 1;
    }
    CarryPast(was, 0);
    assert ip[..] == Zeros(ip.Length);
  }

  // ---- Masks

  /** The leading one bits of byte `i` in a mask of `ones` bits. */
  function MaskBits(ones: nat, i: nat): (k: nat)
    ensures k <= 8
  {
    if ones <= 8 * i then 0 else if ones >= 8 * i + 8 then 8 else ones - 8 * i
  }

  /** The weight of the last bit that a mask byte of `k` leading ones keeps. */
  function Unit(k: nat): (u: nat)
    requires k <= 8
    ensures u > 0
  {
    match k
    case 0 => 256
    case 1 => 128
    case 2 => 64
    case 3 => 32
    case 4 => 16
    case 5 => 8
    case 6 => 4
    case 7 => 2
    case _ => 1
  }

  lemma UnitIsPow2(k: nat)
    requires k <= 8
    ensures Unit(k) == Pow2(8 - k)
  {
    Pow2Table();
  }

  /** A byte under a mask of `k` leading ones. */
  function Keep(b: Byte, k: nat): Byte
    requires k <= 8
  {
    b / Unit(k) * Unit(k)
  }

  /** The mask bytes `net.CIDRMask` builds. */
  function MaskByte(k: nat): bv8
    requires k <= 8
  {
    match k
    case 0 => 0x00
    case 1 => 0x80
    case 2 => 0xc0
    case 3 => 0xe0
    case 4 => 0xf0
    case 5 => 0xf8
    case 6 => 0xfc
    case 7 => 0xfe
    case _ => 0xff
  }

  /** `Keep` is the bitwise and with a mask byte. */
  ghost predicate KeepsBits(b: bv8, k: nat)
    requires k <= 8
  {
    (b & MaskByte(k)) as int == Keep(b as int, k)
  }

  lemma KeepIsBitwiseAnd(b: bv8, k: nat)
    requires k <= 8
    ensures KeepsBits(b, k)
  {
    if k <= 4 {
      ShortMask(b, k);
    } else {
      LongMask(b, k);
    }
  }

  lemma ShortMask(b: bv8, k: nat)
    requires k <= 4
    ensures KeepsBits(b, k)
  {
    match k {
      case 0 => MaskZero(b);
      case 1 => MaskOne(b);
      case 2 => MaskTwo(b);
      case 3 => MaskThree(b);
      case 4 => MaskFour(b);
    }
  }

  lemma LongMask(b: bv8, k: nat)
    requires 5 <= k <= 8
    ensures KeepsBits(b, k)
  {
    match k {
      case 5 => MaskFive(b);
      case 6 => MaskSix(b);
      case 7 => MaskSeven(b);
      case 8 => MaskEight(b);
    }
  }

  lemma MaskZero(b: bv8)
    ensures KeepsBits(b, 0)
  {
    assert (b & 0x00) as int == b as int / 256 * 256;
  }

  lemma MaskOne(b: bv8)
    ensures KeepsBits(b, 1)
  {
    assert b & 0x80 == if b < 0x80 then 0 else 0x80;
    assert b < 0x80 <==> b as int < 128;
  }

  lemma MaskTwo(b: bv8)
    ensures KeepsBits(b, 2)
  {
    assert (b & 0xc0) as int == b as int / 64 * 64;
  }

  lemma MaskThree(b: bv8)
    ensures KeepsBits(b, 3)
  {
    assert (b & 0xe0) as int == b as int / 32 * 32;
  }

  lemma MaskFour(b: bv8)
    ensures KeepsBits(b, 4)
  {
    assert (b & 0xf0) as int == b as int / 16 * 16;
  }

  lemma MaskFive(b: bv8)
    ensures KeepsBits(b, 5)
  {
    assert (b & 0xf8) as int == b as int / 8 * 8;
  }

  lemma MaskSix(b: bv8)
    ensures KeepsBits(b, 6)
  {
    assert (b & 0xfc) as int == b as int / 4 * 4;
  }

  lemma MaskSeven(b: bv8)
    ensures KeepsBits(b, 7)
  {
    assert (b & 0xfe) as int == b as int / 2 * 2;
  }

  lemma MaskEight(b: bv8)
    ensures KeepsBits(b, 8)
  {
    assert (b & 0xff) as int == b as int / 1 * 1;
  }

  lemma Pow2Table()
    ensures Pow2(0) == 1 && Pow2(1) == 2 && Pow2(2) == 4 && Pow2(3) == 8 && Pow2(4) == 16
    ensures Pow2(5) == 32 && Pow2(6) == 64 && Pow2(7) == 128 && Pow2(8) == 256
  {
    assert Pow2(2) == 2 * Pow2(1);
    assert Pow2(4) == 2 * (2 * Pow2(2));
    assert Pow2(6) == 2 * (2 * Pow2(4));
    assert Pow2(8) == 2 * (2 * Pow2(6));
  }

  function Masked(s: seq<Byte>, ones: nat): seq<Byte> {
    seq(|s|, i requires 0 <= i < |s| => Keep(s[i], MaskBits(ones, i)))
  }

  function Ints(ip: seq<bv8>): seq<Byte> {
    seq(|ip|, i requires 0 <= i < |ip| => ip[i] as int)
  }

  /** `IP.Mask`: byte by byte the bitwise and with the mask of `ones` leading ones. */
  lemma MaskedIsBitwiseAnd(ip: seq<bv8>, ones: nat)
    ensures forall i :: 0 <= i < |ip| ==> Masked(Ints(ip), ones)[i] == (ip[i] & MaskByte(MaskBits(ones, i))) as int
  {
    forall i | 0 <= i < |ip|
      ensures Masked(Ints(ip), ones)[i] == (ip[i] & MaskByte(MaskBits(ones, i))) as int
    {
      KeepIsBitwiseAnd(ip[i], MaskBits(ones, i));
    }
  }

  /** The number of addresses in a block. */
  function BlockSize(n: nat, ones: nat): nat
    requires ones <= 8 * n
  {
    Pow2(8 * n - ones)
  }

  lemma Distribute(a: int, b: int, d: int)
    ensures (a - b) * d == a * d - b * d
  {
  }

  lemma AtLeastOnce(a: int, d: nat)
    requires a >= 1
    ensures a * d >= d
  {
    Distribute(a, 1, d);
    assert (a - 1) * d >= 0;
  }

  lemma DivideUnique(v: nat, d: nat, q: nat, r: nat)
    requires d > 0 && v == q * d + r && r < d
    ensures v / d == q
  {
    var k := v / d;
    Distribute(k, q, d);
    if k < q {
      Distribute(q, k, d);
      AtLeastOnce(q - k, d);
    } else if q < k {
      AtLeastOnce(k - q, d);
    }
  }

  lemma DivideOut(v: nat, b: nat, p: nat)
    requires p > 0 && b < 256
    ensures (v * 256 + b) / (256 * p) == v / p
  {
    var q, r := v / p, v % p;
    Regroup(q, p);
    DivideUnique(v * 256 + b, 256 * p, q, r * 256 + b);
  }

  lemma KeepLow(v: nat, b: Byte, k: nat)
    requires k <= 8
    ensures (v * 256 + b) / Unit(k) * Unit(k) == v * 256 + Keep(b, k)
  {
    if k < 3 {
      assert k == 0 ==> (v * 256 + b) / 256 == v;
      assert k == 1 ==> (v * 256 + b) / 128 == v * 2 + b / 128;
      assert k == 2 ==> (v * 256 + b) / 64 == v * 4 + b / 64;
    } else if k < 6 {
      assert k == 3 ==> (v * 256 + b) / 32 == v * 8 + b / 32;
      assert k == 4 ==> (v * 256 + b) / 16 == v * 16 + b / 16;
      assert k == 5 ==> (v * 256 + b) / 8 == v * 32 + b / 8;
    } else {
      assert k == 6 ==> (v * 256 + b) / 4 == v * 64 + b / 4;
      assert k == 7 ==> (v * 256 + b) / 2 == v * 128 + b / 2;
    }
  }

  lemma {:induction false} MaskedFully(s: seq<Byte>, ones: nat)
    requires ones >= 8 * |s|
    ensures Masked(s, ones) == s
  {
  }

  lemma MaskedSnoc(s: seq<Byte>, ones: nat)
    requires s != []
    ensures
      var n := |s| - 1;
      Value(Masked(s, ones)) == Value(Masked(s[..n], ones)) * 256 + Keep(s[n], MaskBits(ones, n))
  {
    var n, m := |s| - 1, Masked(s, ones);
    assert m[..n] == Masked(s[..n], ones);
  }

  lemma MaskedAbove(v: nat, b: Byte, p: nat)
    requires p > 0
    ensures v / p * p * 256 == (v * 256 + b) / (256 * p) * (256 * p)
  {
    DivideOut(v, b, p);
    Regroup(v / p, p);
  }

  lemma BlockSizeStep(n: nat, ones: nat)
    requires ones <= 8 * n
    ensures BlockSize(n + 1, ones) == 256 * BlockSize(n, ones)
  {
    Pow2Adds(8 * n - ones, 8);
    Pow2Table();
  }

  lemma MaskedAboveValue(v: nat, b: Byte, p: nat, d: nat, before: nat, masked: nat, whole: nat)
    requires p > 0 && d == 256 * p && before == v / p * p && masked == before * 256 && whole == v * 256 + b
    ensures masked == whole / d * d
  {
    MaskedAbove(v, b, p);
  }

  lemma NothingKept(b: Byte)
    ensures Keep(b, 0) == 0
  {
  }

  lemma MaskedShort(s: seq<Byte>, ones: nat, p: nat, d: nat, before: nat)
    requires s != [] && ones <= 8 * (|s| - 1) && p > 0 && d == 256 * p
    requires Value(Masked(s[..|s| - 1], ones)) == before == Value(s[..|s| - 1]) / p * p
    ensures Value(Masked(s, ones)) == Value(s) / d * d
  {
    var n := |s| - 1;
    MaskedSnoc(s, ones);
    NothingKept(s[n]);
    MaskedAboveValue(Value(s[..n]), s[n], p, d, before, Value(Masked(s, ones)), Value(s));
  }

  lemma KeepLowValue(before: nat, b: Byte, k: nat, u: nat, masked: nat, v: nat)
    requires k <= 8 && u == Unit(k) && masked == before * 256 + Keep(b, k) && v == before * 256 + b
    ensures masked == v / u * u
  {
    KeepLow(before, b, k);
  }

  lemma MaskedLast(s: seq<Byte>, ones: nat)
    requires s != [] && 8 * (|s| - 1) < ones <= 8 * |s|
    ensures Value(Masked(s, ones)) == Value(s[..|s| - 1]) * 256 + Keep(s[|s| - 1], ones - 8 * (|s| - 1))
  {
    MaskedSnoc(s, ones);
    MaskedFully(s[..|s| - 1], ones);
  }

  lemma MaskedLong(s: seq<Byte>, ones: nat, u: nat)
    requires s != [] && 8 * (|s| - 1) < ones <= 8 * |s| && u == Unit(ones - 8 * (|s| - 1))
    ensures Value(Masked(s, ones)) == Value(s) / u * u
  {
    var n := |s| - 1;
    MaskedLast(s, ones);
    KeepLowValue(Value(s[..n]), s[n], ones - 8 * n, u, Value(Masked(s, ones)), Value(s));
  }

  /** Masking rounds the number down to a multiple of the block size. */
  lemma {:induction false} MaskedValueAt(s: seq<Byte>, ones: nat, d: nat)
    requires ones <= 8 * |s| && d == BlockSize(|s|, ones)
    ensures Value(Masked(s, ones)) == Value(s) / d * d
    decreases |s|
  {
    if s == [] {
      assert d == 1;
    } else if ones <= 8 * (|s| - 1) {
      var n := |s| - 1;
      var p := BlockSize(n, ones);
      assert d == 256 * p by { BlockSizeStep(n, ones); }
      MaskedValueAt(s[..n], ones, p);
      MaskedShort(s, ones, p, d, Value(Masked(s[..n], ones)));
    } else {
      assert d == Unit(ones - 8 * (|s| - 1)) by { UnitIsPow2(ones - 8 * (|s| - 1)); }
      MaskedLong(s, ones, d);
    }
  }

  lemma MaskedValue(s: seq<Byte>, ones: nat)
    requires ones <= 8 * |s|
    ensures Value(Masked(s, ones)) == Value(s) / BlockSize(|s|, ones) * BlockSize(|s|, ones)
  {
    MaskedValueAt(s, ones, BlockSize(|s|, ones));
  }

  // ---- Networks

  /** An IPv4-mapped IPv6 address begins with ten zero bytes and two bytes 0xff. */
  const MAPPED_PREFIX: seq<Byte> := [0, 0, 0, 0, 0, 0, 0, 0, 0, 0, 255, 255]

  predicate IsMapped(ip: seq<Byte>) {
    |ip| == 16 && ip[..12] == MAPPED_PREFIX
  }

  /** `IP.To4`, falling back on the address itself. */
  function Short(ip: seq<Byte>): seq<Byte> {
    if IsMapped(ip) then ip[12..] else ip
  }

  /** A parsed network: the masked address and the prefix length. */
  datatype Net = Net(base: seq<Byte>, ones: nat)

  predicate ValidNet(net: Net) {
    (|net.base| == 4 || |net.base| == 16) && net.ones <= 8 * |net.base| && Masked(net.base, net.ones) == net.base
  }

  /** The prefix length of a mask of sixteen bytes cut to its last four. */
  function ShortOnes(net: Net): nat {
    if !IsMapped(net.base) then net.ones else if net.ones < 96 then 0 else net.ones - 96
  }

  /** `IPNet.Contains`: both sides shortened to four bytes where they can be, then compared under the mask. */
  predicate Contains(net: Net, ip: seq<Byte>) {
    var nn, x, ones := Short(net.base), Short(ip), ShortOnes(net);
    |x| == |nn| && Masked(nn, ones) == Masked(x, ones)
  }

  function Lowest(net: Net): nat {
    Value(net.base)
  }

  function Addresses(net: Net): nat
    requires net.ones <= 8 * |net.base|
  {
    BlockSize(|net.base|, net.ones)
  }

  /** The number lies in the block of the network. */
  predicate InBlock(net: Net, v: nat)
    requires net.ones <= 8 * |net.base|
  {
    Lowest(net) <= v < Lowest(net) + Addresses(net)
  }

  /** The first IPv4-mapped address, ::ffff:0:0, and how many there are. */
  const FIRST_MAPPED := 0xffff_0000_0000
  const ALL_MAPPED := 0x1_0000_0000

  lemma SizeOfFour()
    ensures Size(4) == ALL_MAPPED
  {
    Pow2Table();
    Pow2Adds(8, 8);
    Pow2Adds(16, 16);
  }

  lemma PrefixValue()
    ensures Value(MAPPED_PREFIX) == 0xffff
  {
    TwoLastBytes(MAPPED_PREFIX);
  }

  lemma {:induction false} ZeroValue(s: seq<Byte>)
    requires forall i :: 0 <= i < |s| ==> s[i] == 0
    ensures Value(s) == 0
  {
    if s != [] {
      ZeroValue(s[..|s| - 1]);
    }
  }

  lemma MappedRange(ip: seq<Byte>)
    requires |ip| == 16
    ensures IsMapped(ip) <==> FIRST_MAPPED <= Value(ip) < FIRST_MAPPED + ALL_MAPPED
    ensures IsMapped(ip) ==> Value(ip) == FIRST_MAPPED + Value(ip[12..])
  {
    assert ip == ip[..12] + ip[12..];
    ValueOfParts(ip[..12], ip[12..]);
    SizeOfFour();
    ValueBound(ip[12..]);
    PrefixValue();
    ValueInjective(ip[..12], MAPPED_PREFIX);
  }

  // ---- Containment is membership of the block

  /** A number rounds down to a block's base exactly when it lies in the block. */
  lemma RoundsToBase(base: nat, v: nat, d: nat)
    requires d > 0 && base / d * d == base
    ensures v / d * d == base <==> base <= v < base + d
  {
    if base <= v < base + d {
      DivideUnique(v, d, base / d, v - base);
    }
  }

  lemma MaskedAlike(base: seq<Byte>, ip: seq<Byte>, ones: nat)
    requires |ip| == |base| && ones <= 8 * |base| && Masked(base, ones) == base
    ensures Masked(base, ones) == Masked(ip, ones) <==> InBlock(Net(base, ones), Value(ip))
  {
    MaskedValue(base, ones);
    MaskedValue(ip, ones);
    ValueInjective(Masked(base, ones), Masked(ip, ones));
    RoundsToBase(Value(base), Value(ip), BlockSize(|base|, ones));
  }

  lemma MultiplyGrows(p: nat, q: nat, d: nat)
    requires p <= q
    ensures p * d <= q * d
  {
    Distribute(q, p, d);
    assert (q - p) * d >= 0;
  }

  lemma SmallerFactor(q: nat, p: nat, d: nat)
    requires q * d < p * d
    ensures q < p
  {
    if p <= q {
      MultiplyGrows(p, q, d);
    }
  }

  lemma MultipleFits(base: nat, d: nat, p: nat)
    requires d > 0 && base / d * d == base && base < p * d
    ensures base + d <= p * d
  {
    var q := base / d;
    SmallerFactor(q, p, d);
    Distribute(p, q, d);
    AtLeastOnce(p - q, d);
  }

  /** A block ends within the address space. */
  lemma BlockFits(base: seq<Byte>, ones: nat)
    requires ones <= 8 * |base| && Masked(base, ones) == base
    ensures Value(base) + BlockSize(|base|, ones) <= Size(|base|)
  {
    MaskedValue(base, ones);
    ValueBound(base);
    Pow2Adds(ones, 8 * |base| - ones);
    MultipleFitsIn(Value(base), BlockSize(|base|, ones), Pow2(ones), Size(|base|));
  }

  lemma MultipleFitsIn(base: nat, d: nat, p: nat, size: nat)
    requires d > 0 && base / d * d == base && size == p * d && base < size
    ensures base + d <= size
  {
    MultipleFits(base, d, p);
  }

  lemma MappedNetIsLong(net: Net)
    requires ValidNet(net) && IsMapped(net.base)
    ensures net.ones >= 96
  {
    assert net.base[11] == net.base[..12][11] == 255;
    assert Masked(net.base, net.ones)[11] == Keep(255, MaskBits(net.ones, 11));
    if net.ones < 96 {
      var k := MaskBits(net.ones, 11);
      assert k < 8;
      KeepsLess(k);
    }
  }

  lemma KeepsLess(k: nat)
    requires k < 8
    ensures Keep(255, k) < 255
  {
  }

  lemma ShortenedMask(net: Net)
    requires ValidNet(net) && IsMapped(net.base) && net.ones >= 96
    ensures Masked(net.base[12..], net.ones - 96) == net.base[12..]
  {
    var tail := net.base[12..];
    forall i | 0 <= i < 4
      ensures Masked(tail, net.ones - 96)[i] == tail[i]
    {
      assert MaskBits(net.ones - 96, i) == MaskBits(net.ones, i + 12);
      assert Masked(net.base, net.ones)[i + 12] == net.base[i + 12];
    }
  }

  lemma MappedContains(net: Net, ip: seq<Byte>)
    requires ValidNet(net) && IsMapped(net.base) && |ip| == 16
    ensures Contains(net, ip) <==> InBlock(net, Value(ip))
    ensures InBlock(net, Value(ip)) ==> IsMapped(ip)
  {
    MappedNetIsLong(net);
    ShortenedMask(net);
    MappedRange(net.base);
    MappedRange(ip);
    var tail, ones := net.base[12..], net.ones - 96;
    BlockFits(tail, ones);
    SizeOfFour();
    assert BlockSize(4, ones) == Addresses(net);
    if IsMapped(ip) {
      MaskedAlike(tail, ip[12..], ones);
    }
  }

  /** The network contains exactly the addresses of its block that are mapped if and only if it is. */
  lemma ContainsExact(net: Net, ip: seq<Byte>)
    requires ValidNet(net) && |ip| == |net.base|
    ensures Contains(net, ip) <==> InBlock(net, Value(ip)) && IsMapped(ip) == IsMapped(net.base)
  {
    if IsMapped(net.base) {
      MappedContains(net, ip);
    } else {
      MaskedAlike(net.base, ip, net.ones);
    }
  }

  // ---- Where the enumeration stops

  /** The block holds the IPv4-mapped range in its midst. */
  predicate HoldsMapped(net: Net)
    requires net.ones <= 8 * |net.base|
  {
    |net.base| == 16 && Lowest(net) < FIRST_MAPPED < Lowest(net) + Addresses(net)
  }

  /** One past the last address visited. */
  function Stop(net: Net): nat
    requires net.ones <= 8 * |net.base|
  {
    if HoldsMapped(net) then FIRST_MAPPED else Lowest(net) + Addresses(net)
  }

  /** The one kind of network the loop never leaves: IPv4 with prefix length zero. */
  predicate IsEndless(net: Net) {
    |net.base| == 4 && net.ones == 0
  }

  lemma MappedBlockHoldsNoMore(net: Net)
    requires ValidNet(net) && IsMapped(net.base)
    ensures !HoldsMapped(net)
  {
    MappedRange(net.base);
  }

  lemma FirstAddressIsNotZero(net: Net)
    requires ValidNet(net) && net.ones >= 1 && Lowest(net) + Addresses(net) == Size(|net.base|)
    ensures Lowest(net) > 0
  {
    LastBlock(Lowest(net), net.ones, 8 * |net.base|);
  }

  lemma LastBlock(lo: nat, ones: nat, bits: nat)
    requires 1 <= ones <= bits && lo + Pow2(bits - ones) == Pow2(bits)
    ensures lo > 0
  {
    Pow2Adds(ones, bits - ones);
    LastOfSeveral(lo, Pow2(ones - 1), Pow2(bits - ones), Pow2(bits), Pow2(ones));
  }

  /** Of an even number of blocks the last does not begin at zero. */
  lemma LastOfSeveral(lo: nat, p: nat, d: nat, size: nat, blocks: nat)
    requires p >= 1 && d >= 1 && blocks == 2 * p && size == blocks * d && lo + d == size
    ensures lo > 0
  {
    AtLeastOnce(p, d);
    assert blocks * d == p * d + p * d;
  }

  /** An address reached by counting, which wraps around at the end of the address space. */
  predicate Counted(ip: seq<Byte>, v: nat, size: nat) {
    Value(ip) == if v == size then 0 else v
  }

  lemma ContainsBeforeStop(net: Net, v: nat, ip: seq<Byte>)
    requires ValidNet(net) && |ip| == |net.base| && Lowest(net) <= v < Stop(net) && Value(ip) == v
    ensures Contains(net, ip)
  {
    ContainsExact(net, ip);
    if IsMapped(net.base) {
      MappedBlockHoldsNoMore(net);
      MappedContains(net, ip);
    } else if |net.base| == 16 {
      MappedRange(ip);
      MappedRange(net.base);
    }
  }

  /** A 16-byte block of prefix length zero holds every mapped address. */
  lemma WholeSpaceHoldsMapped(net: Net)
    requires ValidNet(net) && |net.base| == 16 && net.ones == 0
    ensures HoldsMapped(net)
  {
    var n := |net.base|;
    MaskedValue(net.base, net.ones);
    ValueBound(net.base);
    WholeSpaceStartsAtZero(Value(net.base), Size(n));
    GreaterPower(48, 8 * n - 48);
    SizeOfSix();
  }

  lemma GreaterPower(a: nat, b: nat)
    ensures Pow2(a + b) >= Pow2(a)
  {
    Pow2Adds(a, b);
    AtLeastOnce(Pow2(b), Pow2(a));
  }

  lemma WholeSpaceStartsAtZero(v: nat, size: nat)
    requires v < size && v == v / size * size
    ensures v == 0
  {
  }

  lemma SizeOfSix()
    ensures Pow2(48) == 0x1_0000_0000_0000
  {
    SizeOfFour();
    Pow2Table();
    Pow2Adds(8, 8);
    Pow2Adds(32, 16);
  }

  lemma NotContainedAtStop(net: Net, ip: seq<Byte>)
    requires ValidNet(net) && !IsEndless(net) && |ip| == |net.base| && Counted(ip, Stop(net), Size(|ip|))
    ensures !Contains(net, ip)
  {
    ContainsExact(net, ip);
    if HoldsMapped(net) {
      BlockFits(net.base, net.ones);
      MappedRange(ip);
      MappedRange(net.base);
    } else if Stop(net) == Size(|net.base|) {
      if net.ones == 0 {
        WholeSpaceHoldsMapped(net);
      }
      FirstAddressIsNotZero(net);
    }
  }

  /** Counting on from an address is incrementing it. */
  lemma CountOn(ip: seq<Byte>, v: nat)
    requires Value(ip) == v
    ensures |Incremented(ip)| == |ip| && Counted(Incremented(ip), v + 1, Size(|ip|))
  {
    IncrementedValue(ip);
  }

  // ---- The enumeration

  /** The skip rule looks at the last octet only, in blocks of /24 and longer. */
  predicate Skips(net: Net, ip: seq<Byte>) {
    net.ones >= 24 && |net.base| == 4 && |ip| == 4 && (ip[3] == 0 || ip[3] == 255)
  }

  /** The addresses from `lo` to below `hi` that the skip rule keeps, in ascending order. */
  function Kept(net: Net, lo: nat, hi: nat): seq<seq<Byte>>
    requires lo <= hi
    decreases hi - lo
  {
    if lo == hi then []
    else
      var ip := ToBytes(hi - 1, |net.base|);
      Kept(net, lo, hi - 1) + (if Skips(net, ip) then [] else [ip])
  }

  /** The addresses of a list that the skip rule keeps. */
  function Listed(net: Net, path: seq<seq<Byte>>): seq<seq<Byte>> {
    if path == [] then []
    else
      var ip := path[|path| - 1];
      Listed(net, path[..|path| - 1]) + (if Skips(net, ip) then [] else [ip])
  }

  /** The walk of the loop: from the base by increments, inside the network except at its end. */
  ghost predicate IsWalk(net: Net, path: seq<seq<Byte>>) {
    && |path| > 0 && path[0] == net.base
    && (forall i :: 0 <= i < |path| ==> |path[i]| == |net.base|)
    && (forall i :: 0 <= i < |path| - 1 ==> path[i + 1] == Incremented(path[i]))
    && (forall i :: 0 <= i < |path| ==> (Contains(net, path[i]) <==> i < |path| - 1))
  }

  method Enumerate(net: Net) returns (ips: seq<seq<Byte>>)
    requires ValidNet(net) && !IsEndless(net)
    ensures ips == Visited(net)
  {
    ghost var path := WalkOf(net);
    StopIsWithin(net);
    WalkVisits(net, path, Lowest(net), Stop(net));
    ips := EnumerateWalk(net, path);
  }

  /** The loop itself, against the walk it takes. */
  method EnumerateWalk(net: Net, ghost path: seq<seq<Byte>>) returns (ips: seq<seq<Byte>>)
    requires IsWalk(net, path)
    ensures ips == Listed(net, path[..|path| - 1])
  {
    ips := [];
    var n := |net.base|;
    var ip := new Byte[n](i requires 0 <= i < n => net.base[i]);
    assert ip[..] == net.base;
    ghost var i := 0;
    while Contains(net, ip[..])
      invariant 0 <= i < |path| && ip[..] == path[i]
      invariant ips == Listed(net, path[..i])
      decreases |path| - i
    {
      WalkStep(net, path, i);
      if !Skips(net, ip[..]) {
        ips := ips + [ip[..]];
      }
      Inc(ip);
      i := i + 1;
    }
  }

  /** Inside the network the walk goes on. */
  lemma WalkStep(net: Net, path: seq<seq<Byte>>, i: nat)
    requires IsWalk(net, path) && i < |path| && Contains(net, path[i])
    ensures i + 1 < |path| && path[i + 1] == Incremented(path[i])
    ensures Listed(net, path[..i + 1]) == Listed(net, path[..i]) + (if Skips(net, path[i]) then [] else [path[i]])
  {
    assert path[..i + 1][..i] == path[..i];
  }

  /** The path counts on from `lo`, which wraps around at the end of the address space. */
  ghost predicate CountsFrom(path: seq<seq<Byte>>, lo: nat, n: nat) {
    && (forall i :: 0 <= i < |path| ==> |path[i]| == n && Counted(path[i], lo + i, Size(n)))
    && (forall i :: 0 <= i < |path| - 1 ==> path[i + 1] == Incremented(path[i]))
  }

  /** The walk counts from the lowest address to the stop. */
  lemma WalkOf(net: Net) returns (path: seq<seq<Byte>>)
    requires ValidNet(net) && !IsEndless(net)
    ensures IsWalk(net, path)
    ensures CountsFrom(path, Lowest(net), |net.base|) && |path| == Stop(net) - Lowest(net) + 1
  {
    StartsAtLowest(net);
    BlockFits(net.base, net.ones);
    path := WalkTo(net.base, Lowest(net), Stop(net), Size(|net.base|));
    WalkStaysInside(net, path, Lowest(net), Size(|net.base|));
  }

  lemma WalkNumbers(path: seq<seq<Byte>>, lo: nat, n: nat, k: nat)
    requires CountsFrom(path, lo, n) && k <= |path| && lo + k <= Size(n)
    ensures forall i :: 0 <= i < k ==> |path[i]| == n && Value(path[i]) == lo + i
  {
    forall i | 0 <= i < k
      ensures |path[i]| == n && Value(path[i]) == lo + i
    {
      assert Counted(path[i], lo + i, Size(n));
    }
  }

  /** What it lists are the numbers in between that the skip rule keeps. */
  lemma WalkLists(net: Net, path: seq<seq<Byte>>, lo: nat, k: nat)
    requires CountsFrom(path, lo, |net.base|) && k <= |path| && lo + k <= Size(|net.base|)
    ensures Listed(net, path[..k]) == Kept(net, lo, lo + k)
  {
    WalkNumbers(path, lo, |net.base|, k);
    ListedIsKept(net, path, lo, k);
  }

  lemma WalkVisits(net: Net, path: seq<seq<Byte>>, lo: nat, stop: nat)
    requires CountsFrom(path, lo, |net.base|) && lo <= stop <= Size(|net.base|) && |path| == stop - lo + 1
    ensures Listed(net, path[..|path| - 1]) == Kept(net, lo, stop)
  {
    WalkLists(net, path, lo, stop - lo);
  }

  lemma WalkStaysInside(net: Net, path: seq<seq<Byte>>, lo: nat, size: nat)
    requires ValidNet(net) && !IsEndless(net) && lo == Lowest(net) && size == Size(|net.base|)
    requires |path| == Stop(net) - lo + 1
    requires forall i :: 0 <= i < |path| ==> |path[i]| == |net.base| && Counted(path[i], lo + i, size)
    ensures forall i :: 0 <= i < |path| ==> (Contains(net, path[i]) <==> i < |path| - 1)
    ensures forall i :: 0 <= i < |path| - 1 ==> Value(path[i]) == lo + i
  {
    forall i | 0 <= i < |path|
      ensures Contains(net, path[i]) <==> i < |path| - 1
      ensures i < |path| - 1 ==> Value(path[i]) == lo + i
    {
      WalkContains(net, lo + i, path[i]);
      if i < |path| - 1 {
        ContainedIsBeforeStop(net, lo + i, path[i]);
      }
    }
  }

  lemma {:induction false} WalkTo(base: seq<Byte>, lo: nat, v: nat, size: nat) returns (path: seq<seq<Byte>>)
    requires Value(base) == lo && size == Size(|base|) && lo <= v <= size
    ensures |path| == v - lo + 1 && path[0] == base
    ensures forall i :: 0 <= i < |path| ==> |path[i]| == |base| && Counted(path[i], lo + i, size)
    ensures forall i :: 0 <= i < |path| - 1 ==> path[i + 1] == Incremented(path[i])
    decreases v
  {
    if v == lo {
      ValueBound(base);
      path := [base];
    } else {
      var before := WalkTo(base, lo, v - 1, size);
      var last := before[|before| - 1];
      CountOn(last, v - 1);
      path := before + [Incremented(last)];
    }
  }

  lemma {:induction false} ListedIsKept(net: Net, path: seq<seq<Byte>>, lo: nat, k: nat)
    requires k <= |path|
    requires forall i :: 0 <= i < k ==> |path[i]| == |net.base| && Value(path[i]) == lo + i
    ensures Listed(net, path[..k]) == Kept(net, lo, lo + k)
    decreases k
  {
    if k > 0 {
      ListedIsKept(net, path, lo, k - 1);
      assert path[..k][..k - 1] == path[..k - 1];
      KeptGrows(net, lo, lo + k - 1, path[k - 1]);
    }
  }

  lemma WalkContains(net: Net, v: nat, ip: seq<Byte>)
    requires ValidNet(net) && !IsEndless(net) && |ip| == |net.base|
    requires Lowest(net) <= v <= Stop(net) && Counted(ip, v, Size(|ip|))
    ensures Contains(net, ip) <==> v < Stop(net)
  {
    if Contains(net, ip) {
      ContainedIsBeforeStop(net, v, ip);
    } else {
      NotContainedIsStop(net, v, ip);
    }
  }

  lemma StartsAtLowest(net: Net)
    requires ValidNet(net)
    ensures Lowest(net) <= Stop(net) && Counted(net.base, Lowest(net), Size(|net.base|))
  {
    ValueBound(net.base);
  }

  lemma ContainedIsBeforeStop(net: Net, v: nat, ip: seq<Byte>)
    requires ValidNet(net) && !IsEndless(net) && |ip| == |net.base|
    requires Lowest(net) <= v <= Stop(net) && Counted(ip, v, Size(|ip|)) && Contains(net, ip)
    ensures v < Stop(net) && Value(ip) == v
  {
    BlockFits(net.base, net.ones);
    if v == Stop(net) {
      NotContainedAtStop(net, ip);
    }
  }

  lemma NotContainedIsStop(net: Net, v: nat, ip: seq<Byte>)
    requires ValidNet(net) && |ip| == |net.base|
    requires Lowest(net) <= v <= Stop(net) && Counted(ip, v, Size(|ip|)) && !Contains(net, ip)
    ensures v == Stop(net)
  {
    BlockFits(net.base, net.ones);
    if v < Stop(net) {
      ContainsBeforeStop(net, v, ip);
    }
  }

  lemma KeptGrows(net: Net, lo: nat, v: nat, ip: seq<Byte>)
    requires lo <= v && |ip| == |net.base| && Value(ip) == v
    ensures Kept(net, lo, v + 1) == Kept(net, lo, v) + (if Skips(net, ip) then [] else [ip])
  {
    BytesOfValue(ip);
  }

  lemma KeptSnoc(net: Net, lo: nat, hi: nat)
    requires lo < hi <= Size(|net.base|)
    ensures
      var ip := ToBytes(hi - 1, |net.base|);
      && |ip| == |net.base| && Value(ip) == hi - 1
      && (forall s :: |s| == |net.base| && Value(s) == hi - 1 ==> s == ip)
      && Kept(net, lo, hi) == Kept(net, lo, hi - 1) + (if Skips(net, ip) then [] else [ip])
  {
    ValueOfBytes(hi - 1, |net.base|);
    forall s: seq<Byte> | |s| == |net.base| && Value(s) == hi - 1
      ensures s == ToBytes(hi - 1, |net.base|)
    {
      BytesOfValue(s);
    }
  }

  lemma OneMoreAddress(net: Net, lo: nat, hi: nat, s: seq<Byte>)
    requires lo < hi <= Size(|net.base|)
    requires s in Kept(net, lo, hi - 1) <==> |s| == |net.base| && lo <= Value(s) < hi - 1 && !Skips(net, s)
    ensures s in Kept(net, lo, hi) <==> |s| == |net.base| && lo <= Value(s) < hi && !Skips(net, s)
  {
    KeptSnoc(net, lo, hi);
  }

  /** What is kept is every address of the range that is not skipped. */
  lemma {:induction false} KeptExact(net: Net, lo: nat, hi: nat, s: seq<Byte>)
    requires lo <= hi <= Size(|net.base|)
    ensures s in Kept(net, lo, hi) <==> |s| == |net.base| && lo <= Value(s) < hi && !Skips(net, s)
    decreases hi - lo
  {
    if lo < hi {
      KeptExact(net, lo, hi - 1, s);
      OneMoreAddress(net, lo, hi, s);
    }
  }

  /** All that is kept below `hi` lies below it. */
  lemma KeptIsBelow(net: Net, lo: nat, hi: nat, i: nat)
    requires lo <= hi <= Size(|net.base|) && i < |Kept(net, lo, hi)|
    ensures Value(Kept(net, lo, hi)[i]) < hi
  {
    var kept := Kept(net, lo, hi);
    assert kept[i] in kept;
    KeptExact(net, lo, hi, kept[i]);
  }

  /** At most one address, of the number below `hi`, is kept at the end. */
  lemma KeptStep(net: Net, lo: nat, hi: nat) returns (more: seq<seq<Byte>>)
    requires lo < hi <= Size(|net.base|)
    ensures Kept(net, lo, hi) == Kept(net, lo, hi - 1) + more
    ensures |more| <= 1 && forall k :: 0 <= k < |more| ==> Value(more[k]) == hi - 1
  {
    var ip := ToBytes(hi - 1, |net.base|);
    KeptSnoc(net, lo, hi);
    more := if Skips(net, ip) then [] else [ip];
  }

  /** The numbers of the addresses ascend. */
  ghost predicate Ascending(numbers: seq<nat>) {
    forall i, j :: 0 <= i < j < |numbers| ==> numbers[i] < numbers[j]
  }

  function Numbers(ips: seq<seq<Byte>>): seq<nat> {
    seq(|ips|, i requires 0 <= i < |ips| => Value(ips[i]))
  }

  lemma AscendingMore(before: seq<nat>, more: seq<nat>, top: nat)
    requires Ascending(before) && (forall i :: 0 <= i < |before| ==> before[i] < top)
    requires |more| <= 1 && forall i :: 0 <= i < |more| ==> more[i] == top
    ensures Ascending(before + more)
  {
  }

  /** It is kept once, in ascending order. */
  lemma {:induction false} KeptAscends(net: Net, lo: nat, hi: nat)
    requires lo <= hi <= Size(|net.base|)
    ensures Ascending(Numbers(Kept(net, lo, hi)))
    decreases hi - lo
  {
    if lo < hi {
      var before := Kept(net, lo, hi - 1);
      var more := KeptStep(net, lo, hi);
      KeptAscends(net, lo, hi - 1);
      forall i | 0 <= i < |before|
        ensures Value(before[i]) < hi - 1
      {
        KeptIsBelow(net, lo, hi - 1, i);
      }
      AscendingMore(Numbers(before), Numbers(more), hi - 1);
      NumbersAppend(before, more);
    }
  }

  lemma NumbersAppend(a: seq<seq<Byte>>, b: seq<seq<Byte>>)
    ensures Numbers(a + b) == Numbers(a) + Numbers(b)
  {
  }

  lemma StopIsWithin(net: Net)
    requires ValidNet(net)
    ensures Lowest(net) <= Stop(net) <= Lowest(net) + Addresses(net) <= Size(|net.base|)
  {
    BlockFits(net.base, net.ones);
    StartsAtLowest(net);
  }

  /** What the enumeration lists. */
  function Visited(net: Net): seq<seq<Byte>>
    requires ValidNet(net)
  {
    StopIsWithin(net);
    Kept(net, Lowest(net), Stop(net))
  }

  /** An address of the block that the skip rule keeps. */
  predicate Wanted(net: Net, s: seq<Byte>)
    requires net.ones <= 8 * |net.base|
  {
    |s| == |net.base| && InBlock(net, Value(s)) && !Skips(net, s)
  }

  const HALF_MAPPED := Net([0, 0, 0, 0, 0, 0, 0, 0, 0, 0, 255, 254, 0, 0, 0, 0], 95)

  lemma HalfMappedIsValid()
    ensures ValidNet(HALF_MAPPED)
  {
    var base := HALF_MAPPED.base;
    forall i | 0 <= i < 16
      ensures Keep(base[i], MaskBits(95, i)) == base[i]
    {
    }
    assert Masked(base, 95) == base;
  }

  lemma TwoLastBytes(s: seq<Byte>)
    requires |s| == 12 && forall i :: 0 <= i < 10 ==> s[i] == 0
    ensures Value(s) == s[10] as int * 256 + s[11] as int
  {
    ZeroValue(s[..10]);
    assert s[..11][..10] == s[..10] && s[..11][10] == s[10];
    assert Value(s[..11]) == s[10];
  }

  lemma HalfMappedBounds()
    ensures Lowest(HALF_MAPPED) == 0xfffe_0000_0000 && Addresses(HALF_MAPPED) == 0x2_0000_0000
  {
    var base := HALF_MAPPED.base;
    var head, tail := base[..12], base[12..];
    assert base == head + tail;
    ValueOfParts(head, tail);
    ZeroValue(tail);
    TwoLastBytes(head);
    SizeOfFour();
    Pow2Adds(1, 32);
  }

  /** A block that does: ::fffe:0:0/95 is left half way, and ::ffff:0:0 is in it but never listed. */
  lemma MappedHalfIsMissed()
    ensures ValidNet(HALF_MAPPED) && HoldsMapped(HALF_MAPPED)
    ensures Wanted(HALF_MAPPED, ToBytes(FIRST_MAPPED, 16)) && ToBytes(FIRST_MAPPED, 16) !in Visited(HALF_MAPPED)
  {
    HalfMappedIsValid();
    HalfMappedBounds();
    StopIsWithin(HALF_MAPPED);
    ValueOfBytes(FIRST_MAPPED, 16);
    KeptExact(HALF_MAPPED, Lowest(HALF_MAPPED), Stop(HALF_MAPPED), ToBytes(FIRST_MAPPED, 16));
  }

  /** With a prefix of length zero an IPv4 network contains every address. */
  lemma EndlessContainsAll(net: Net, ip: seq<Byte>)
    requires IsEndless(net) && |ip| == 4
    ensures Contains(net, ip)
  {
    forall i | 0 <= i < 4
      ensures Masked(net.base, 0)[i] == Masked(ip, 0)[i]
    {
    }
    assert Masked(net.base, 0) == Masked(ip, 0);
  }

  /** The loop comes to an end: increments from the base reach an address outside the network. */
  ghost predicate Exits(net: Net) {
    exists path :: IsWalk(net, path)
  }

  /** The loop exits exactly when the network is not IPv4 with prefix length zero. */
  lemma ExitsExactly(net: Net)
    requires ValidNet(net)
    ensures Exits(net) <==> !IsEndless(net)
  {
    if IsEndless(net) {
      forall path
        ensures !IsWalk(net, path)
      {
        if IsWalk(net, path) {
          EndlessContainsAll(net, path[|path| - 1]);
        }
      }
    } else {
      var path := WalkOf(net);
      assert IsWalk(net, path);
    }
  }

  /**
   The loop ends with every address of the block that the skip rule keeps listed,
   exactly when the block does not hold the IPv4-mapped range in its midst and is
   not the whole of IPv4; what is listed is always such an address.
   */
  lemma WholeBlockIsListed(net: Net)
    requires ValidNet(net)
    ensures Exits(net) && (forall s :: Wanted(net, s) ==> s in Visited(net)) <==> !HoldsMapped(net) && !IsEndless(net)
    ensures forall s :: s in Visited(net) ==> Wanted(net, s)
  {
    StopIsWithin(net);
    ExitsExactly(net);
    forall s
      ensures s in Visited(net) <==> |s| == |net.base| && Lowest(net) <= Value(s) < Stop(net) && !Skips(net, s)
    {
      KeptExact(net, Lowest(net), Stop(net), s);
    }
    if HoldsMapped(net) {
      var missed := ToBytes(FIRST_MAPPED, 16);
      ValueOfBytes(FIRST_MAPPED, 16);
      assert Wanted(net, missed) && missed !in Visited(net);
    }
  }

  // ---- The skip rule in numbers

  lemma LastOctet(s: seq<Byte>)
    requires |s| == 4
    ensures Value(s) % 256 == s[3]
  {
    LastByte(Value(s[..3]), s[3]);
  }

  /** Left out are the addresses whose number ends in 0 or 255 modulo 256, in IPv4 blocks of /24 and longer only. */
  lemma SkippedInNumbers(net: Net, s: seq<Byte>)
    requires ValidNet(net) && |s| == |net.base|
    ensures Skips(net, s) <==>
            |net.base| == 4 && net.ones >= 24 && (Value(s) % 256 == 0 || Value(s) % 256 == 255)
  {
    if |s| == 4 {
      LastOctet(s);
    }
  }

  lemma WithinOctet(lo: nat, v: nat)
    requires lo % 256 == 0 && lo <= v < lo + 256
    ensures v % 256 == v - lo
  {
  }

  /** So a /24 block is listed without its first and its last address. */
  lemma Slash24IsListed(net: Net, s: seq<Byte>)
    requires ValidNet(net) && |net.base| == 4 && net.ones == 24 && |s| == 4
    ensures s in Visited(net) <==> Lowest(net) < Value(s) < Lowest(net) + 255
  {
    StopIsWithin(net);
    SkippedInNumbers(net, s);
    KeptExact(net, Lowest(net), Stop(net), s);
    Slash24IsAligned(net);
    if Lowest(net) <= Value(s) < Lowest(net) + 256 {
      WithinOctet(Lowest(net), Value(s));
    }
  }

  lemma Slash24IsAligned(net: Net)
    requires ValidNet(net) && |net.base| == 4 && net.ones == 24
    ensures Lowest(net) % 256 == 0 && Addresses(net) == 256
  {
    Pow2Table();
    assert net.base == Masked(net.base, 24);
    assert net.base[3] == Keep(net.base[3], MaskBits(24, 3)) == 0;
    LastOctet(net.base);
  }

  // ---- A list of networks

  /** One entry of the request: a network, a single address taken as it is written, or neither. */
  datatype Target = Block(ip: seq<Byte>, ones: nat) | Single(text: string) | Malformed

  datatype Host = Address(bytes: seq<Byte>) | Literal(text: string)

  predicate TargetOk(t: Target) {
    t.Block? ==> (|t.ip| == 4 && 1 <= t.ones <= 32) || (|t.ip| == 16 && t.ones <= 128)
  }

  function NetOf(t: Target): Net
    requires t.Block?
  {
    Net(Masked(t.ip, t.ones), t.ones)
  }

  lemma NetIsValid(t: Target)
    requires t.Block? && TargetOk(t)
    ensures ValidNet(NetOf(t))
  {
    var m := Masked(t.ip, t.ones);
    forall i | 0 <= i < |m|
      ensures Keep(m[i], MaskBits(t.ones, i)) == m[i]
    {
      KeepTwice(t.ip[i], MaskBits(t.ones, i));
    }
    assert Masked(m, t.ones) == m;
  }

  lemma KeepTwice(b: Byte, k: nat)
    requires k <= 8
    ensures Keep(Keep(b, k), k) == Keep(b, k)
  {
    var q, u := b / Unit(k), Unit(k);
    DivideUnique(q * u, u, q, 0);
  }

  function Hosts(ips: seq<seq<Byte>>): seq<Host> {
    seq(|ips|, i requires 0 <= i < |ips| => Address(ips[i]))
  }

  /** The hosts one target stands for. */
  ghost function HostsOf(t: Target): seq<Host>
    requires TargetOk(t)
  {
    match t
    case Block(_, _) =>
      NetIsValid(t);
      Hosts(Visited(NetOf(t)))
    case Single(text) => [Literal(text)]
    case Malformed => []
  }

  ghost function AllHosts(targets: seq<Target>): seq<Host>
    requires forall i :: 0 <= i < |targets| ==> TargetOk(targets[i])
  {
    if targets == [] then [] else AllHosts(targets[..|targets| - 1]) + HostsOf(targets[|targets| - 1])
  }

  /** All hosts in the order of the request, or an error when any target is malformed. */
  method HostsFromTargets(targets: seq<Target>) returns (r: Option<seq<Host>>)
    requires forall i :: 0 <= i < |targets| ==> TargetOk(targets[i])
    ensures r.Some? <==> Malformed !in targets
    ensures r.Some? ==> r.value == AllHosts(targets)
  {
    var hosts: seq<Host> := [];
    for i := 0 to |targets|
      invariant Malformed !in targets[..i] && hosts == AllHosts(targets[..i])
    {
      assert targets[..i + 1] == targets[..i] + [targets[i]] && targets[..i + 1][..i] == targets[..i];
      match targets[i] {
        case Block(_, _) =>
          NetIsValid(targets[i]);
          var ips := Enumerate(NetOf(targets[i]));
          hosts := hosts + Hosts(ips);
        case Single(text) =>
          hosts := hosts + [Literal(text)];
        case Malformed =>
          return None;
      }
    }
    assert targets[..|targets|] == targets;
    r := Some(hosts);
  }
}
