/**
 Traffic accounting across its two layers, as a system of steps. Connections count
 bytes in atomic counters; concurrent flushes swap each counter to zero and record
 what they took in an accumulator keyed by "proxy:application"; reports take the
 accumulator as a batch and hand it to the collector entry by entry. No byte is
 lost or counted twice, for every pair, direction and interleaving.
 */
module Traffic {
  import opened Options
  import opened Steps
  import opened Maps
  import opened Decimals

  // ---- Keys

  datatype Pair = Pair(proxy: nat, application: nat)

  function Key(p: Pair): string {
    Decimal(p.proxy) + ":" + Decimal(p.application)
  }

  /** Two pairs share a key only if they are the same pair. */
  lemma KeyInjective(p: Pair, q: Pair)
    requires Key(p) == Key(q)
    ensures p == q
  {
    DecimalDigits(p.proxy);
    DecimalDigits(q.proxy);
    var i, j := |Decimal(p.proxy)|, |Decimal(q.proxy)|;
    assert Key(p)[i] == ':' && Key(q)[j] == ':';
    assert forall k :: 0 <= k < i ==> Key(p)[k] == Decimal(p.proxy)[k];
    assert forall k :: 0 <= k < j ==> Key(q)[k] == Decimal(q.proxy)[k];
    assert i == j;
    assert Decimal(p.proxy) == Key(p)[..i] && Decimal(q.proxy) == Key(q)[..i];
    assert Decimal(p.application) == Key(p)[i + 1..] && Decimal(q.application) == Key(q)[i + 1..];
    DecimalInjective(p.proxy, q.proxy);
    DecimalInjective(p.application, q.application);
  }

  // ---- Counts

  datatype Direction = In | Out

  /** Bytes of one pair: a counter, a swapped amount, an accumulator entry or a report. */
  datatype Count = Count(pair: Pair, bytesIn: nat, bytesOut: nat) {
    function Bytes(d: Direction): nat {
      if d == In then bytesIn else bytesOut
    }

    predicate IsZero() {
      bytesIn == 0 && bytesOut == 0
    }
  }

  function AddIn(c: Count, n: nat): Count {
    c.(bytesIn := c.bytesIn + n)
  }

  function AddOut(c: Count, n: nat): Count {
    c.(bytesOut := c.bytesOut + n)
  }

  /** The bytes a list of counts holds for one pair. */
  function Sum(counts: seq<Count>, p: Pair, d: Direction): nat {
    if counts == [] then 0
    else Sum(counts[..|counts| - 1], p, d)
         + (if counts[|counts| - 1].pair == p then counts[|counts| - 1].Bytes(d) else 0)
  }

  function Share(c: Count, p: Pair, d: Direction): nat {
    if c.pair == p then c.Bytes(d) else 0
  }

  lemma SumSnoc(counts: seq<Count>, c: Count, p: Pair, d: Direction)
    ensures Sum(counts + [c], p, d) == Sum(counts, p, d) + Share(c, p, d)
  {
    assert (counts + [c])[..|counts|] == counts;
  }

  lemma {:induction false} SumUpdate(counts: seq<Count>, i: nat, c: Count, p: Pair, d: Direction)
    requires i < |counts|
    ensures Sum(counts[i := c], p, d) + Share(counts[i], p, d) == Sum(counts, p, d) + Share(c, p, d)
  {
    var n := |counts| - 1;
    if i < n {
      assert counts[i := c][..n] == counts[..n][i := c];
      SumUpdate(counts[..n], i, c, p, d);
    } else {
      assert counts[i := c][..n] == counts[..n];
    }
  }

  lemma {:induction false} SumAppend(a: seq<Count>, b: seq<Count>, p: Pair, d: Direction)
    ensures Sum(a + b, p, d) == Sum(a, p, d) + Sum(b, p, d)
  {
    if b == [] {
      assert a + b == a;
    } else {
      var n := |b| - 1;
      assert a + b == (a + b[..n]) + [b[n]];
      SumAppend(a, b[..n], p, d);
      SumSnoc(a + b[..n], b[n], p, d);
    }
  }

  // ---- The accumulator

  type Stats = map<string, Count>

  /** Every entry stands under the key of its own pair. */
  ghost predicate Keyed(stats: Stats) {
    forall k :: k in stats ==> k == Key(stats[k].pair)
  }

  function Record(stats: Stats, c: Count): Stats {
    if c.IsZero() then stats
    else
      var k := Key(c.pair);
      var entry := if k in stats then stats[k] else Count(c.pair, 0, 0);
      stats[k := entry.(bytesIn := entry.bytesIn + c.bytesIn, bytesOut := entry.bytesOut + c.bytesOut)]
  }

  /** What the accumulator holds for a pair. */
  function Held(stats: Stats, p: Pair, d: Direction): nat {
    if Key(p) in stats then stats[Key(p)].Bytes(d) else 0
  }

  lemma RecordAdds(stats: Stats, c: Count, p: Pair, d: Direction)
    requires Keyed(stats)
    ensures Keyed(Record(stats, c)) && Held(Record(stats, c), p, d) == Held(stats, p, d) + Share(c, p, d)
  {
    if Key(c.pair) == Key(p) {
      KeyInjective(c.pair, p);
    }
  }

  /** A batch holds exactly what the accumulator held. */
  lemma BatchHolds(stats: Stats, keys: seq<string>, batch: seq<Count>, p: Pair, d: Direction)
    requires Keyed(stats) && Enumerates(stats, keys, batch)
    ensures Sum(batch, p, d) == Held(stats, p, d)
  {
    if Key(p) in stats {
      var i :| 0 <= i < |keys| && keys[i] == Key(p);
      KeyInjective(stats[Key(p)].pair, p);
      forall j | 0 <= j < |batch| && j != i
        ensures batch[j].pair != p
      {
        assert keys[j] == Key(batch[j].pair);
      }
      SumOfOne(batch, i, p, d);
    } else {
      forall j | 0 <= j < |batch|
        ensures batch[j].pair != p
      {
        assert keys[j] == Key(batch[j].pair);
      }
      SumOfNone(batch, p, d);
    }
  }

  lemma {:induction false} SumOfNone(counts: seq<Count>, p: Pair, d: Direction)
    requires forall j :: 0 <= j < |counts| ==> counts[j].pair != p
    ensures Sum(counts, p, d) == 0
  {
    if counts != [] {
      SumOfNone(counts[..|counts| - 1], p, d);
    }
  }

  lemma {:induction false} SumOfOne(counts: seq<Count>, i: nat, p: Pair, d: Direction)
    requires i < |counts| && counts[i].pair == p
    requires forall j :: 0 <= j < |counts| && j != i ==> counts[j].pair != p
    ensures Sum(counts, p, d) == counts[i].Bytes(d)
  {
    var n := |counts| - 1;
    if i < n {
      SumOfOne(counts[..n], i, p, d);
    } else {
      SumOfNone(counts[..n], p, d);
    }
  }

  // ---- The two layers as they are written

  /** The metered side of one target connection. */
  class MeteredConn {
    const pair: Pair
    var bytesIn: nat
    var bytesOut: nat

    constructor (pair: Pair)
      ensures this.pair == pair && Counters() == Count(pair, 0, 0)
    {
      this.pair := pair;
      bytesIn, bytesOut := 0, 0;
    }

    function Counters(): Count
      reads this
    {
      Count(pair, bytesIn, bytesOut)
    }

    /** The bytes of a pair that are still counted here or already recorded. */
    ghost function Metered(recorder: Accumulator, p: Pair, d: Direction): nat
      reads this, recorder
    {
      Held(recorder.stats, p, d) + Share(Counters(), p, d)
    }

    /**
     A read of `n` bytes, which may also have failed: they are counted out for this
     connection's pair and for no other, and a failure leaves none of them uncollected.
     */
    method Read(n: nat, failed: bool, recorder: Accumulator)
      requires Keyed(recorder.stats)
      modifies this, recorder
      ensures Keyed(recorder.stats)
      ensures forall p, d :: Metered(recorder, p, d) == old(Metered(recorder, p, d)) + Share(Count(pair, 0, n), p, d)
      ensures if failed then Counters() == Count(pair, 0, 0)
              else Counters() == AddOut(old(Counters()), n) && recorder.stats == old(recorder.stats)
    {
      if n > 0 {
        bytesOut := bytesOut + n;
      }
      if failed {
        Flush(recorder);
      }
    }

    /** A write of `n` bytes, likewise counted in. */
    method Write(n: nat, failed: bool, recorder: Accumulator)
      requires Keyed(recorder.stats)
      modifies this, recorder
      ensures Keyed(recorder.stats)
      ensures forall p, d :: Metered(recorder, p, d) == old(Metered(recorder, p, d)) + Share(Count(pair, n, 0), p, d)
      ensures if failed then Counters() == Count(pair, 0, 0)
              else Counters() == AddIn(old(Counters()), n) && recorder.stats == old(recorder.stats)
    {
      if n > 0 {
        bytesIn := bytesIn + n;
      }
      if failed {
        Flush(recorder);
      }
    }

    /** One flush that nothing interrupts: the counters move to the accumulator. */
    method Flush(recorder: Accumulator)
      requires Keyed(recorder.stats)
      modifies this, recorder
      ensures Counters() == Count(pair, 0, 0) && Keyed(recorder.stats)
      ensures recorder.stats == Record(old(recorder.stats), old(Counters()))
      ensures forall p, d :: Metered(recorder, p, d) == old(Metered(recorder, p, d))
    {
      forall p, d
        ensures Keyed(Record(recorder.stats, Counters()))
        ensures Held(Record(recorder.stats, Counters()), p, d) == Metered(recorder, p, d)
      {
        RecordAdds(recorder.stats, Counters(), p, d);
      }
      var takenIn, takenOut := bytesIn, bytesOut;
      bytesIn := 0;
      bytesOut := 0;
      if takenIn == 0 && takenOut == 0 {
        return;
      }
      recorder.RecordTraffic(Count(pair, takenIn, takenOut));
    }
  }

  /** The accumulator of a gatekeeper or of the HTTP server. */
  class Accumulator {
    var stats: Stats

    constructor ()
      ensures stats == map[]
    {
      stats := map[];
    }

    method RecordTraffic(c: Count)
      modifies this
      ensures stats == Record(old(stats), c)
    {
      if c.bytesIn == 0 && c.bytesOut == 0 {
        return;
      }
      var k := Key(c.pair);
      if k !in stats {
        stats := stats[k := Count(c.pair, 0, 0)];
      }
      var entry := stats[k];
      stats := stats[k := entry.(bytesIn := entry.bytesIn + c.bytesIn, bytesOut := entry.bytesOut + c.bytesOut)];
    }

    /** The locked part of a report: every entry is copied once and the accumulator is empty again. */
    method TakeBatch() returns (batch: seq<Count>, ghost keys: seq<string>)
      modifies this
      ensures stats == map[] && Enumerates(old(stats), keys, batch)
    {
      batch, keys := Collect(stats);
      stats := map[];
    }
  }

  // ---- Steps

  /** A flush in progress: how far it is, and what it has swapped out and not yet recorded. */
  datatype Stage = SwappingIn | SwappingOut | Recording | Flushed

  datatype Flush = Flush(conn: nat, stage: Stage)

  /**
   `counters` are the connections' own, `taken[f]` is what flush `f` holds,
   `batches` what reports have yet to hand over, and `undecided` those whose report
   has not yet looked whether there is a collector. `transferred`, `reported` and
   `dropped` record what was ever moved, collected, or thrown away for want of a
   collector.
   */
  datatype State = State(
    counters: seq<Count>, flushes: seq<Flush>, taken: seq<Count>, stats: Stats, batches: seq<seq<Count>>,
    undecided: set<nat>, collector: bool, transferred: seq<Count>, reported: seq<Count>, dropped: seq<Count>)

  const INIT := State([], [], [], map[], [], {}, false, [], [], [])

  datatype Action =
    | Open(pair: Pair)
    | Read(c: nat, n: nat)
    | Write(c: nat, n: nat)
    | BeginFlush(c: nat)
    | SwapIn(f: nat)
    | SwapOut(f: nat)
    | RecordTaken(f: nat)
    | TakeBatch(keys: seq<string>, batch: seq<Count>)
    | Decide(b: nat)
    | ReportOne(b: nat)
    | SetCollector

  predicate FlushIn(s: State, f: nat, stage: Stage) {
    f < |s.flushes| && f < |s.taken| && s.flushes[f].stage == stage && s.flushes[f].conn < |s.counters|
  }

  function Advance(s: State, f: nat, stage: Stage, held: Count): State
    requires f < |s.flushes| && f < |s.taken|
  {
    s.(flushes := s.flushes[f := s.flushes[f].(stage := stage)], taken := s.taken[f := held])
  }

  /** The counter of connection `c` becomes `after` as `moved` bytes are transferred. */
  function Transfer(s: State, c: nat, after: Count, moved: Count): State
    requires c < |s.counters|
  {
    s.(counters := s.counters[c := after], transferred := s.transferred + [moved])
  }

  /** Steps on the counters, which leave the accumulator alone; `None` when the action cannot happen. */
  function CountingStep(s: State, a: Action): Option<State> {
    match a
    case Open(pair) => Some(s.(counters := s.counters + [Count(pair, 0, 0)]))
    case Read(c, n) =>
      if c >= |s.counters| then None
      else
        var counter := s.counters[c];
        Some(Transfer(s, c, AddOut(counter, n), Count(counter.pair, 0, n)))
    case Write(c, n) =>
      if c >= |s.counters| then None
      else
        var counter := s.counters[c];
        Some(Transfer(s, c, AddIn(counter, n), Count(counter.pair, n, 0)))
    case BeginFlush(c) =>
      if c >= |s.counters| then None
      else Some(s.(flushes := s.flushes + [Flush(c, SwappingIn)], taken := s.taken + [Count(s.counters[c].pair, 0, 0)]))
    case SwapIn(f) =>
      if !FlushIn(s, f, SwappingIn) then None
      else
        var c := s.flushes[f].conn;
        Some(Advance(s, f, SwappingOut, s.taken[f].(bytesIn := s.counters[c].bytesIn))
             .(counters := s.counters[c := s.counters[c].(bytesIn := 0)]))
    case SwapOut(f) =>
      if !FlushIn(s, f, SwappingOut) then None
      else
        var c := s.flushes[f].conn;
        Some(Advance(s, f, Recording, s.taken[f].(bytesOut := s.counters[c].bytesOut))
             .(counters := s.counters[c := s.counters[c].(bytesOut := 0)]))
    case _ => None
  }

  /** Steps on the accumulator and its reports. */
  ghost function CollectingStep(s: State, a: Action): Option<State> {
    match a
    case RecordTaken(f) =>
      if !FlushIn(s, f, Recording) then None
      else Some(Advance(s, f, Flushed, Count(s.taken[f].pair, 0, 0)).(stats := Record(s.stats, s.taken[f])))
    case TakeBatch(keys, batch) =>
      if !Enumerates(s.stats, keys, batch) then None
      else Some(s.(stats := map[], batches := s.batches + [batch], undecided := s.undecided + {|s.batches|}))
    case Decide(b) =>
      if b >= |s.batches| || b !in s.undecided then None
      else if s.collector then Some(s.(undecided := s.undecided - {b}))
      else Some(s.(undecided := s.undecided - {b}, batches := s.batches[b := []], dropped := s.dropped + s.batches[b]))
    case ReportOne(b) =>
      if b >= |s.batches| || b in s.undecided || s.batches[b] == [] then None
      else Some(s.(batches := s.batches[b := s.batches[b][1..]], reported := s.reported + [s.batches[b][0]]))
    case SetCollector => Some(s.(collector := true))
    case _ => None
  }

  predicate IsCounting(a: Action) {
    a.Open? || a.Read? || a.Write? || a.BeginFlush? || a.SwapIn? || a.SwapOut?
  }

  /** One step; `None` when the action cannot happen in the state. */
  ghost function Next(s: State, a: Action): Option<State> {
    if IsCounting(a) then CountingStep(s, a) else CollectingStep(s, a)
  }

  ghost function Step(): Stepper<State, Action> {
    (s, a) => Next(s, a)
  }

  ghost function Run(s: State, actions: seq<Action>): Option<State> {
    RunOf(Step(), s, actions)
  }

  // ---- Conservation

  function SumAll(batches: seq<seq<Count>>, p: Pair, d: Direction): nat {
    if batches == [] then 0
    else SumAll(batches[..|batches| - 1], p, d) + Sum(batches[|batches| - 1], p, d)
  }

  lemma {:induction false} SumAllUpdate(batches: seq<seq<Count>>, b: nat, batch: seq<Count>, p: Pair, d: Direction)
    requires b < |batches|
    ensures SumAll(batches[b := batch], p, d) + Sum(batches[b], p, d) == SumAll(batches, p, d) + Sum(batch, p, d)
  {
    var n := |batches| - 1;
    if b < n {
      assert batches[b := batch][..n] == batches[..n][b := batch];
      SumAllUpdate(batches[..n], b, batch, p, d);
    } else {
      assert batches[b := batch][..n] == batches[..n];
    }
  }

  /** Each flush belongs to its connection's pair, and holds only what it has swapped so far. */
  ghost predicate FlushesOk(s: State) {
    && |s.flushes| == |s.taken|
    && forall f :: 0 <= f < |s.flushes| ==>
         && s.flushes[f].conn < |s.counters|
         && s.taken[f].pair == s.counters[s.flushes[f].conn].pair
         && (s.flushes[f].stage == SwappingIn ==> s.taken[f].bytesIn == 0)
         && (s.flushes[f].stage == SwappingIn || s.flushes[f].stage == SwappingOut ==> s.taken[f].bytesOut == 0)
  }

  /** Every byte of the pair is in exactly one place, `held` of them in the accumulator. */
  predicate Balanced(s: State, held: nat, p: Pair, d: Direction) {
    Sum(s.transferred, p, d) ==
    Sum(s.reported, p, d) + Sum(s.dropped, p, d) + SumAll(s.batches, p, d) + held
    + Sum(s.taken, p, d) + Sum(s.counters, p, d)
  }

  predicate Conserved(s: State, p: Pair, d: Direction) {
    Balanced(s, Held(s.stats, p, d), p, d)
  }

  ghost predicate Shape(s: State) {
    FlushesOk(s) && Keyed(s.stats)
  }

  lemma StepKeepsFlushes(s: State, a: Action)
    requires FlushesOk(s) && Next(s, a).Some?
    ensures FlushesOk(Next(s, a).value)
  {
  }

  lemma StepKeepsKeyed(s: State, a: Action)
    requires Keyed(s.stats) && Next(s, a).Some?
    ensures Keyed(Next(s, a).value.stats)
  {
    if a.RecordTaken? {
      RecordAdds(s.stats, s.taken[a.f], s.taken[a.f].pair, In);
    }
  }

  lemma OpenConserves(s: State, pair: Pair, held: nat, p: Pair, d: Direction)
    requires Balanced(s, held, p, d)
    ensures Balanced(s.(counters := s.counters + [Count(pair, 0, 0)]), held, p, d)
  {
    SumSnoc(s.counters, Count(pair, 0, 0), p, d);
  }

  lemma BeginConserves(s: State, flushes: seq<Flush>, pair: Pair, held: nat, p: Pair, d: Direction)
    requires Balanced(s, held, p, d)
    ensures Balanced(s.(flushes := flushes, taken := s.taken + [Count(pair, 0, 0)]), held, p, d)
  {
    SumSnoc(s.taken, Count(pair, 0, 0), p, d);
  }

  /** Bytes are counted where they are transferred. */
  lemma TransferConserves(s: State, c: nat, after: Count, moved: Count, held: nat, p: Pair, d: Direction)
    requires Balanced(s, held, p, d) && c < |s.counters| && after.pair == moved.pair == s.counters[c].pair
    requires after.bytesIn == s.counters[c].bytesIn + moved.bytesIn
    requires after.bytesOut == s.counters[c].bytesOut + moved.bytesOut
    ensures Balanced(Transfer(s, c, after, moved), held, p, d)
  {
    SumUpdate(s.counters, c, after, p, d);
    SumSnoc(s.transferred, moved, p, d);
  }

  lemma SwapConserves(s: State, a: Action, held: nat, p: Pair, d: Direction)
    requires FlushesOk(s) && Balanced(s, held, p, d) && (a.SwapIn? || a.SwapOut?) && CountingStep(s, a).Some?
    ensures Balanced(CountingStep(s, a).value, held, p, d)
  {
    var f := a.f;
    var c := s.flushes[f].conn;
    var counter, taken := s.counters[c], s.taken[f];
    var counter', taken' := if a.SwapIn? then counter.(bytesIn := 0) else counter.(bytesOut := 0),
                            if a.SwapIn? then taken.(bytesIn := counter.bytesIn)
                            else taken.(bytesOut := counter.bytesOut);
    SumUpdate(s.counters, c, counter', p, d);
    SumUpdate(s.taken, f, taken', p, d);
    assert Share(counter, p, d) + Share(taken, p, d) == Share(counter', p, d) + Share(taken', p, d);
  }

  lemma RecordConserves(s: State, f: nat, p: Pair, d: Direction)
    requires Keyed(s.stats) && Conserved(s, p, d) && Next(s, RecordTaken(f)).Some?
    ensures Conserved(Next(s, RecordTaken(f)).value, p, d)
  {
    SumUpdate(s.taken, f, Count(s.taken[f].pair, 0, 0), p, d);
    RecordAdds(s.stats, s.taken[f], p, d);
  }

  /** All that the accumulator held goes into one batch. */
  lemma EmptiedConserves(s: State, batch: seq<Count>, undecided: set<nat>, p: Pair, d: Direction)
    requires Balanced(s, Sum(batch, p, d), p, d)
    ensures Balanced(s.(stats := map[], batches := s.batches + [batch], undecided := undecided), 0, p, d)
  {
    assert (s.batches + [batch])[..|s.batches|] == s.batches;
  }

  /** A batch that finds no collector is dropped as a whole. */
  lemma DecideConserves(s: State, b: nat, held: nat, p: Pair, d: Direction)
    requires Balanced(s, held, p, d) && CollectingStep(s, Decide(b)).Some?
    ensures Balanced(CollectingStep(s, Decide(b)).value, held, p, d)
  {
    SumAllUpdate(s.batches, b, [], p, d);
    SumAppend(s.dropped, s.batches[b], p, d);
  }

  lemma BatchConserves(s: State, keys: seq<string>, batch: seq<Count>, p: Pair, d: Direction)
    requires Keyed(s.stats) && Conserved(s, p, d) && Next(s, TakeBatch(keys, batch)).Some?
    ensures Conserved(Next(s, TakeBatch(keys, batch)).value, p, d)
  {
    BatchHolds(s.stats, keys, batch, p, d);
    EmptiedConserves(s, batch, s.undecided + {|s.batches|}, p, d);
  }

  lemma ReportConserves(s: State, b: nat, held: nat, p: Pair, d: Direction)
    requires Balanced(s, held, p, d) && Next(s, ReportOne(b)).Some?
    ensures Balanced(Next(s, ReportOne(b)).value, held, p, d)
  {
    var batch := s.batches[b];
    SumAllUpdate(s.batches, b, batch[1..], p, d);
    SumAppend([batch[0]], batch[1..], p, d);
    assert [batch[0]] + batch[1..] == batch;
    SumSnoc([], batch[0], p, d);
    assert [] + [batch[0]] == [batch[0]];
    SumSnoc(s.reported, batch[0], p, d);
  }

  lemma ReadConserves(s: State, c: nat, n: nat, held: nat, p: Pair, d: Direction)
    requires c < |s.counters| && Balanced(s, held, p, d)
    ensures Balanced(CountingStep(s, Read(c, n)).value, held, p, d)
  {
    var counter := s.counters[c];
    TransferConserves(s, c, AddOut(counter, n), Count(counter.pair, 0, n), held, p, d);
  }

  lemma WriteConserves(s: State, c: nat, n: nat, held: nat, p: Pair, d: Direction)
    requires c < |s.counters| && Balanced(s, held, p, d)
    ensures Balanced(CountingStep(s, Write(c, n)).value, held, p, d)
  {
    var counter := s.counters[c];
    TransferConserves(s, c, AddIn(counter, n), Count(counter.pair, n, 0), held, p, d);
  }

  lemma CountingConserves(s: State, a: Action, held: nat, p: Pair, d: Direction)
    requires FlushesOk(s) && Balanced(s, held, p, d) && CountingStep(s, a).Some?
    ensures Balanced(CountingStep(s, a).value, held, p, d)
  {
    match a {
      case Open(pair) => OpenConserves(s, pair, held, p, d);
      case Read(c, n) => ReadConserves(s, c, n, held, p, d);
      case Write(c, n) => WriteConserves(s, c, n, held, p, d);
      case BeginFlush(c) =>
        BeginConserves(s, s.flushes + [Flush(c, SwappingIn)], s.counters[c].pair, held, p, d);
      case _ => SwapConserves(s, a, held, p, d);
    }
  }

  lemma StepConserves(s: State, a: Action, p: Pair, d: Direction)
    requires Shape(s) && Conserved(s, p, d) && Next(s, a).Some?
    ensures Conserved(Next(s, a).value, p, d)
  {
    match a {
      case RecordTaken(f) => RecordConserves(s, f, p, d);
      case TakeBatch(keys, batch) => BatchConserves(s, keys, batch, p, d);
      case Decide(b) => DecideConserves(s, b, Held(s.stats, p, d), p, d);
      case ReportOne(b) => ReportConserves(s, b, Held(s.stats, p, d), p, d);
      case SetCollector =>
      case _ => CountingConserves(s, a, Held(s.stats, p, d), p, d);
    }
  }

  lemma RunConserves(s: State, actions: seq<Action>, p: Pair, d: Direction)
    requires Shape(s) && Conserved(s, p, d) && Run(s, actions).Some?
    ensures Conserved(Run(s, actions).value, p, d)
  {
    ghost var conserved := (t: State) => Shape(t) && Conserved(t, p, d);
    forall t: State, a: Action | conserved(t) && Next(t, a).Some?
      ensures conserved(Next(t, a).value)
    {
      StepKeepsFlushes(t, a);
      StepKeepsKeyed(t, a);
      StepConserves(t, a, p, d);
    }
    RunKeeps(Step(), conserved, s, actions);
  }

  lemma StepDropsNothing(s: State, a: Action)
    requires s.collector && Next(s, a).Some?
    ensures Next(s, a).value.collector && Next(s, a).value.dropped == s.dropped
  {
  }

  /** Once a collector is set nothing is dropped any more, also of batches that were taken before. */
  lemma NothingDropped(s: State, actions: seq<Action>)
    requires s.collector && Run(s, actions).Some?
    ensures Run(s, actions).value.collector && Run(s, actions).value.dropped == s.dropped
  {
    var intact := (t: State) => t.collector && t.dropped == s.dropped;
    forall t: State, a: Action | intact(t) && Next(t, a).Some?
      ensures intact(Next(t, a).value)
    {
      StepDropsNothing(t, a);
    }
    RunKeeps(Step(), intact, s, actions);
  }

  /**
   With a collector set from the start, in every interleaving of transfers, flushes
   and reports, for every pair and direction: the bytes transferred are the bytes
   reported, in a batch, in the accumulator, swapped but unrecorded, or still counted.
   */
  lemma TrafficIsConserved(actions: seq<Action>, p: Pair, d: Direction)
    requires Run(INIT.(collector := true), actions).Some?
    ensures
      var s := Run(INIT.(collector := true), actions).value;
      Sum(s.transferred, p, d) ==
      Sum(s.reported, p, d) + SumAll(s.batches, p, d) + Held(s.stats, p, d) + Sum(s.taken, p, d) + Sum(s.counters, p, d)
  {
    var start := INIT.(collector := true);
    RunConserves(start, actions, p, d);
    NothingDropped(start, actions);
  }

  /** In general the only other place a byte can be is a batch that found no collector. */
  lemma OnlyUncollectedIsDropped(actions: seq<Action>, p: Pair, d: Direction)
    requires Run(INIT, actions).Some?
    ensures Conserved(Run(INIT, actions).value, p, d)
  {
    RunConserves(INIT, actions, p, d);
  }
}
