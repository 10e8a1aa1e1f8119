/**
 The destination frame that opens every stream to an edge: a four-byte big-endian
 length and the marshalled destination. Three writers produce it and the edge
 proxy reads it back, whatever the pattern of short writes and short reads.
 */
module DestinationFrame {
  import opened Options
  import opened Bytes
  import Cidr

  const LENGTHS := 0x1_0000_0000

  // ---- The format

  /** `binary.BigEndian.PutUint32` of a length truncated to 32 bits. */
  function BigEndian(n: nat): seq<Byte> {
    [n / 0x100_0000 % 256, n / 0x1_0000 % 256, n / 0x100 % 256, n % 256]
  }

  function FromBigEndian(b: seq<Byte>): nat
    requires |b| == 4
  {
    (b[0] as int) * 0x100_0000 + (b[1] as int) * 0x1_0000 + (b[2] as int) * 0x100 + b[3] as int
  }

  function Encode(payload: seq<Byte>): seq<Byte> {
    BigEndian(|payload|) + payload
  }

  /** What the reader makes of a stream: the payload and the bytes it leaves. */
  function Decode(s: seq<Byte>): Option<(seq<Byte>, seq<Byte>)> {
    if |s| < 4 then None
    else
      var n := FromBigEndian(s[..4]);
      if |s| < 4 + n then None else Some((s[4..4 + n], s[4 + n..]))
  }

  lemma BigEndianRoundTrip(n: nat)
    ensures FromBigEndian(BigEndian(n)) == n % LENGTHS
  {
    var a, b, c := n / 0x100, n / 0x1_0000, n / 0x100_0000;
    assert b == a / 0x100 && c == b / 0x100;
    assert n == a * 0x100 + n % 256 && a == b * 0x100 + a % 256 && b == c * 0x100 + b % 256;
    assert c == c / 0x100 * 0x100 + c % 256;
    assert n == (c / 0x100) * LENGTHS + FromBigEndian(BigEndian(n));
    assert 0 <= FromBigEndian(BigEndian(n)) < LENGTHS;
  }

  lemma FourDigits(a: Byte, b: Byte, c: Byte, d: Byte)
    ensures BigEndian(((a as int * 256 + b) * 256 + c) * 256 + d) == [a, b, c, d]
  {
    var first: nat := a as int;
    var second: nat := first * 256 + b;
    var third: nat := second * 256 + c;
    var n: nat := third * 256 + d;
    Cidr.LastByte(third, d);
    Cidr.LastByte(second, c);
    Cidr.LastByte(first, b);
    assert n / 0x1_0000 == n / 256 / 256 && n / 0x100_0000 == n / 256 / 256 / 256;
  }

  lemma ValueOfFour(b: seq<Byte>)
    requires |b| == 4
    ensures Cidr.Value(b) == ((b[0] as int * 256 + b[1]) * 256 + b[2]) * 256 + b[3]
  {
    assert b[..3][..2] == b[..2] && b[..2][..1] == b[..1] && b[..1][..0] == [];
    assert Cidr.Value(b[..1]) == b[0];
    assert Cidr.Value(b[..2]) == Cidr.Value(b[..1]) * 256 + b[1];
    assert Cidr.Value(b[..3]) == Cidr.Value(b[..2]) * 256 + b[2];
  }

  /** The header has the most significant byte first, as the number of an address has. */
  lemma MostSignificantFirst(b: seq<Byte>)
    requires |b| == 4
    ensures FromBigEndian(b) == Cidr.Value(b) && BigEndian(Cidr.Value(b)) == b
  {
    ValueOfFour(b);
    FourDigits(b[0], b[1], b[2], b[3]);
    assert b == [b[0], b[1], b[2], b[3]];
  }

  /** A payload comes back exactly when its header states its length. */
  lemma DecodesBehind(header: seq<Byte>, payload: seq<Byte>, rest: seq<Byte>)
    requires |header| == 4
    ensures Decode(header + payload + rest) == Some((payload, rest)) <==> FromBigEndian(header) == |payload|
  {
    var s := header + payload + rest;
    assert s[..4] == header;
    if FromBigEndian(header) == |payload| {
      assert s[4..4 + |payload|] == payload && s[4 + |payload|..] == rest;
    }
  }

  /** The payload comes back, and the bytes behind it are untouched, exactly when its length fits 32 bits. */
  lemma FrameRoundTrip(payload: seq<Byte>, rest: seq<Byte>)
    ensures Decode(Encode(payload) + rest) == Some((payload, rest)) <==> |payload| < LENGTHS
  {
    BigEndianRoundTrip(|payload|);
    FitsItself(|payload|);
    DecodesBehind(BigEndian(|payload|), payload, rest);
  }

  lemma FitsItself(n: nat)
    ensures n % LENGTHS == n <==> n < LENGTHS
  {
  }

  // ---- Writing

  datatype WriteOutcome = Written | WriteFailed | ShortWrite

  /**
   A stream under a pattern of writes: call number `i` with `n` bytes takes
   `takes(i, n)` of them, at most `n`, and reports an error when `fails(i)`.
   */
  class Writer {
    const takes: (nat, nat) -> nat
    const fails: nat -> bool
    var calls: nat
    var sent: seq<Byte>

    constructor (takes: (nat, nat) -> nat, fails: nat -> bool)
      ensures this.takes == takes && this.fails == fails && calls == 0 && sent == []
    {
      this.takes, this.fails, calls, sent := takes, fails, 0, [];
    }

    method Write(data: seq<Byte>) returns (n: nat, failed: bool)
      modifies this
      ensures n == (if takes(old(calls), |data|) < |data| then takes(old(calls), |data|) else |data|)
      ensures failed == fails(old(calls)) && calls == old(calls) + 1 && sent == old(sent) + data[..n]
    {
      n := takes(calls, |data|);
      if n > |data| {
        n := |data|;
      }
      failed := fails(calls);
      sent := sent + data[..n];
      calls := calls + 1;
    }
  }

  /** Every write from call `from` on succeeds and takes at least one byte. */
  ghost predicate Progresses(takes: (nat, nat) -> nat, fails: nat -> bool, from: nat) {
    forall i: nat, n: nat {:trigger takes(i, n)} :: i >= from && n > 0 ==> !fails(i) && takes(i, n) > 0
  }

  /** A prefix of the data is sent in any case; all of it on success, and always when the stream makes progress. */
  method WriteAll(w: Writer, data: seq<Byte>) returns (o: WriteOutcome)
    modifies w
    ensures old(w.sent) <= w.sent <= old(w.sent) + data
    ensures o == Written ==> w.sent == old(w.sent) + data
    ensures Progresses(w.takes, w.fails, old(w.calls)) ==> o == Written
  {
    var rest := data;
    while |rest| > 0
      invariant w.sent + rest == old(w.sent) + data && old(w.sent) <= w.sent
      invariant w.calls >= old(w.calls)
      decreases |rest|
    {
      ghost var before, call := w.sent, w.calls;
      assert w.takes(call, |rest|) >= 0;
      var n, failed := w.Write(rest);
      assert before + rest == w.sent + rest[n..] by { assert rest == rest[..n] + rest[n..]; }
      if failed {
        return WriteFailed;
      }
      if n == 0 {
        return ShortWrite;
      }
      rest := rest[n..];
    }
    o := Written;
  }

  /** The database gateway's writer: one buffer, short writes continued. */
  method WriteFrameAtOnce(w: Writer, payload: seq<Byte>) returns (o: WriteOutcome)
    modifies w
    ensures o == Written ==> w.sent == old(w.sent) + Encode(payload)
    ensures Progresses(w.takes, w.fails, old(w.calls)) ==> o == Written
  {
    o := WriteAll(w, BigEndian(|payload|) + payload);
  }

  /**
   The writer of the transport gatekeeper and of the HTTP server: length, then
   payload, each in one write whose count is not looked at. Without an error the
   frame is whole exactly when both writes took everything, as `io.Writer` demands.
   */
  method WriteFrameInTwo(w: Writer, payload: seq<Byte>) returns (o: WriteOutcome)
    modifies w
    ensures o == Written <==> !w.fails(old(w.calls)) && !w.fails(old(w.calls) + 1)
    ensures o == Written ==>
              (w.sent == old(w.sent) + Encode(payload) <==>
               w.takes(old(w.calls), 4) >= 4 && w.takes(old(w.calls) + 1, |payload|) >= |payload|)
  {
    var header := BigEndian(|payload|);
    var n, failed := w.Write(header);
    if failed {
      return WriteFailed;
    }
    ghost var first := n;
    n, failed := w.Write(payload);
    if failed {
      return WriteFailed;
    }
    assert |w.sent| == |old(w.sent)| + first + n;
    assert header[..4] == header && payload[..|payload|] == payload;
    o := Written;
  }

  // ---- Reading

  /** A stream under a pattern of reads: call number `i` gives at most `chunk(i)` bytes, at least one while any are left. */
  class Reader {
    const chunk: nat -> nat
    var calls: nat
    var left: seq<Byte>

    constructor (chunk: nat -> nat, left: seq<Byte>)
      ensures this.chunk == chunk && this.left == left && calls == 0
    {
      this.chunk, this.left, calls := chunk, left, 0;
    }

    method Read(most: nat) returns (got: seq<Byte>)
      requires most > 0
      modifies this
      ensures |got| <= most && got + left == old(left)
      ensures got == [] <==> old(left) == []
    {
      var n := chunk(calls);
      if n == 0 {
        n := 1;
      }
      if n > most {
        n := most;
      }
      if n > |left| {
        n := |left|;
      }
      got, left := left[..n], left[n..];
      calls := calls + 1;
    }
  }

  /** `io.ReadFull`: the buffer is filled from the front, or the stream ended before. */
  method ReadFull(r: Reader, n: nat) returns (got: Option<seq<Byte>>)
    modifies r
    ensures got.Some? <==> n <= |old(r.left)|
    ensures got.Some? ==> got.value == old(r.left)[..n] && r.left == old(r.left)[n..]
  {
    var buffer: seq<Byte> := [];
    while |buffer| < n
      invariant |buffer| <= n && buffer + r.left == old(r.left)
      decreases n - |buffer|
    {
      var more := r.Read(n - |buffer|);
      if more == [] {
        return None;
      }
      buffer := buffer + more;
    }
    got := Some(buffer);
  }

  /** The edge reads exactly the specified payload, for every chunking, and leaves what follows. */
  method ReadFrame(r: Reader) returns (payload: Option<seq<Byte>>)
    modifies r
    ensures payload.Some? <==> Decode(old(r.left)).Some?
    ensures payload.Some? ==> Decode(old(r.left)) == Some((payload.value, r.left))
  {
    ghost var all := r.left;
    var header := ReadFull(r, 4);
    if header.None? {
      return None;
    }
    ghost var rest := r.left;
    assert all == header.value + rest;
    var n := FromBigEndian(header.value);
    payload := ReadFull(r, n);
    if payload.Some? {
      assert all[4..4 + n] == rest[..n] && all[4 + n..] == rest[n..];
    }
  }

  /**
   End to end: whatever the short writes and the chunks read, the edge has exactly
   the payload, and the bytes the client sent behind it are still to be read.
   */
  method FrameArrives(takes: (nat, nat) -> nat, fails: nat -> bool, chunk: nat -> nat,
                      payload: seq<Byte>, behind: seq<Byte>) returns (got: Option<seq<Byte>>, left: seq<Byte>)
    requires Progresses(takes, fails, 0)
    ensures got == Some(payload) && left == behind <==> |payload| < LENGTHS
  {
    var w := new Writer(takes, fails);
    var o := WriteFrameAtOnce(w, payload);
    assert w.sent == Encode(payload);
    var r := new Reader(chunk, w.sent + behind);
    got := ReadFrame(r);
    left := r.left;
    FrameRoundTrip(payload, behind);
  }
}
