/**
 The access-session registry. Reusing an id advances its generation, so that a
 stale attachment or a stale unregister can never reach a replacement session.
 The registry is a class; what it promises is proved over every history of
 registrations and unregister calls.
 */
module Registry {
  import opened Options

  const GENERATIONS := 0x1_0000_0000_0000_0000

  datatype Descriptor = Descriptor(
    id: string, user: nat, access: nat, application: nat, protocol: string, capabilities: seq<string>, generation: nat)

  /** A session: its descriptor and which protocol handlers it brings. */
  datatype Handle = Handle(descriptor: Descriptor, terminal: bool, data: bool, desktop: bool)

  datatype Request = Request(id: string, user: nat, access: nat, application: nat, protocol: string, generation: nat)

  datatype Resolution = Found(handle: Handle) | NotFound | Mismatch

  datatype Description = Facts(descriptor: Descriptor) | NoSession | NotTheirs

  datatype State = State(handles: map<string, Handle>, generations: map<string, nat>)

  const EMPTY := State(map[], map[])

  // ---- Specification of the operations

  predicate Registrable(h: Handle) {
    && h.descriptor.id != "" && h.descriptor.user != 0 && h.descriptor.access != 0 && h.descriptor.protocol != ""
    && (h.terminal || h.data || h.desktop)
  }

  function GenerationOf(st: State, id: string): nat {
    if id in st.generations then st.generations[id] else 0
  }

  /** The next generation, an unsigned 64-bit increment. */
  function Advance(generation: nat): nat {
    (generation + 1) % GENERATIONS
  }

  function Stamp(h: Handle, generation: nat): Handle {
    h.(descriptor := h.descriptor.(generation := generation))
  }

  function Registered(st: State, h: Handle): State {
    var id := h.descriptor.id;
    var generation := Advance(GenerationOf(st, id));
    State(st.handles[id := Stamp(h, generation)], st.generations[id := generation])
  }

  function Unregistered(st: State, id: string, generation: nat): State {
    if id in st.handles && st.handles[id].descriptor.generation == generation
    then st.(handles := st.handles - {id}) else st
  }

  predicate Matches(d: Descriptor, q: Request) {
    && d.user == q.user && d.access == q.access && d.application == q.application
    && d.protocol == q.protocol && d.generation == q.generation
  }

  function Resolved(st: State, q: Request): Resolution {
    if q.id !in st.handles then NotFound
    else if Matches(st.handles[q.id].descriptor, q) then Found(st.handles[q.id])
    else Mismatch
  }

  function Described(st: State, id: string, user: nat): Description {
    if id !in st.handles then NoSession
    else if user != 0 && st.handles[id].descriptor.user == user then Facts(st.handles[id].descriptor)
    else NotTheirs
  }

  // ---- The registry

  class Registry {
    var handles: map<string, Handle>
    var generations: map<string, nat>

    constructor ()
      ensures Value() == EMPTY
    {
      handles, generations := map[], map[];
    }

    ghost function Value(): State
      reads this
    {
      State(handles, generations)
    }

    /** The descriptor with its generation, which with its id is what the unregister closure keeps. */
    method Register(handle: Handle) returns (r: Option<Descriptor>)
      modifies this
      ensures r.Some? <==>
              && handle.descriptor.id != "" && handle.descriptor.user != 0 && handle.descriptor.access != 0
              && handle.descriptor.protocol != "" && (handle.terminal || handle.data || handle.desktop)
      ensures Value() == if r.Some? then Registered(old(Value()), handle) else old(Value())
      ensures r.Some? ==> r.value == Value().handles[handle.descriptor.id].descriptor
    {
      var d := handle.descriptor;
      if d.id == "" || d.user == 0 || d.access == 0 || d.protocol == "" {
        return None;
      }
      if !handle.terminal && !handle.data && !handle.desktop {
        return None;
      }
      var generation := ((if d.id in generations then generations[d.id] else 0) + 1) % GENERATIONS;
      generations := generations[d.id := generation];
      d := d.(generation := generation);
      handles := handles[d.id := handle.(descriptor := d)];
      r := Some(d);
    }

    method Unregister(id: string, generation: nat)
      modifies this
      ensures Value() == Unregistered(old(Value()), id, generation)
    {
      if id in handles && handles[id].descriptor.generation == generation {
        handles := handles - {id};
      }
    }

    method Resolve(q: Request) returns (r: Resolution)
      ensures r == Resolved(Value(), q)
      ensures r == NotFound <==> q.id !in handles
      ensures r.Found? <==>
              && q.id in handles
              && handles[q.id].descriptor.user == q.user && handles[q.id].descriptor.access == q.access
              && handles[q.id].descriptor.application == q.application
              && handles[q.id].descriptor.protocol == q.protocol && handles[q.id].descriptor.generation == q.generation
    {
      if q.id !in handles {
        return NotFound;
      }
      var d := handles[q.id].descriptor;
      if d.user != q.user || d.access != q.access || d.application != q.application || d.protocol != q.protocol
         || d.generation != q.generation {
        return Mismatch;
      }
      r := Found(handles[q.id]);
    }

    /** The facts of a live session, for its own user only. */
    method Describe(id: string, user: nat) returns (r: Description)
      ensures r == Described(Value(), id, user)
    {
      if id !in handles {
        return NoSession;
      }
      if user == 0 || handles[id].descriptor.user != user {
        return NotTheirs;
      }
      r := Facts(handles[id].descriptor);
    }
  }

  // ---- Histories

  /** A registration attempt, or a run of the unregister closure that call number `k` returned. */
  datatype Call = Register(handle: Handle) | Unregister(k: nat)

  predicate IsRegistration(h: seq<Call>, k: nat) {
    k < |h| && h[k].Register? && Registrable(h[k].handle)
  }

  function IdOf(h: seq<Call>, k: nat): string
    requires IsRegistration(h, k)
  {
    h[k].handle.descriptor.id
  }

  /** How often an id was registered. */
  function Count(h: seq<Call>, id: string): nat {
    if h == [] then 0
    else Count(h[..|h| - 1], id) + (if IsRegistration(h, |h| - 1) && IdOf(h, |h| - 1) == id then 1 else 0)
  }

  /** Which registration of its id call `k` is, from one. */
  function Ordinal(h: seq<Call>, k: nat): nat
    requires IsRegistration(h, k)
  {
    Count(h[..k + 1], IdOf(h, k))
  }

  /** The generation call `k` got. */
  function Generation(h: seq<Call>, k: nat): nat
    requires IsRegistration(h, k)
  {
    Ordinal(h, k) % GENERATIONS
  }

  function After(h: seq<Call>): State {
    if h == [] then EMPTY
    else
      var before, st := h[..|h| - 1], After(h[..|h| - 1]);
      match h[|h| - 1]
      case Register(handle) => if Registrable(handle) then Registered(st, handle) else st
      case Unregister(k) =>
        if IsRegistration(before, k) then Unregistered(st, IdOf(before, k), Generation(before, k)) else st
  }

  /** Call `k` is the latest registration of its id and was not unregistered. */
  ghost predicate Live(h: seq<Call>, k: nat) {
    && IsRegistration(h, k)
    && (forall j :: k < j < |h| && IsRegistration(h, j) ==> IdOf(h, j) != IdOf(h, k))
    && (forall j :: k < j < |h| ==> h[j] != Unregister(k))
  }

  // ---- Counting

  lemma {:induction false} CountGrows(h: seq<Call>, i: nat, j: nat, id: string)
    requires i <= j <= |h|
    ensures Count(h[..i], id) <= Count(h[..j], id)
    decreases j
  {
    if i < j {
      assert h[..j][..j - 1] == h[..j - 1];
      CountGrows(h, i, j - 1, id);
    }
  }

  lemma OrdinalIsCount(h: seq<Call>, k: nat)
    requires IsRegistration(h, k)
    ensures Ordinal(h, k) == Count(h[..k], IdOf(h, k)) + 1
  {
    assert h[..k + 1][..k] == h[..k];
    assert IsRegistration(h[..k + 1], k);
  }

  lemma SmallModulo(n: nat)
    requires n < GENERATIONS
    ensures n % GENERATIONS == n
  {
  }

  lemma WrapModulo(n: nat)
    ensures (n + GENERATIONS) % GENERATIONS == n % GENERATIONS
  {
  }

  /** Generations of an id strictly increase, as long as it was registered fewer than 2^64 times. */
  lemma GenerationsIncrease(h: seq<Call>, j: nat, k: nat)
    requires IsRegistration(h, j) && IsRegistration(h, k) && j < k && IdOf(h, j) == IdOf(h, k)
    requires Count(h, IdOf(h, k)) < GENERATIONS
    ensures 0 < Generation(h, j) < Generation(h, k)
  {
    OrdinalsIncrease(h, j, k);
    SmallModulo(Ordinal(h, j));
    SmallModulo(Ordinal(h, k));
  }

  /** Generations wrap to the same value only a multiple of 2^64 registrations apart. */
  lemma DistinctModulo(m: nat, n: nat)
    requires 1 <= m < n <= GENERATIONS
    ensures m % GENERATIONS != n % GENERATIONS
  {
    SmallModulo(m);
    if n < GENERATIONS {
      SmallModulo(n);
    }
  }

  lemma OrdinalsIncrease(h: seq<Call>, j: nat, k: nat)
    requires IsRegistration(h, j) && IsRegistration(h, k) && j < k && IdOf(h, j) == IdOf(h, k)
    ensures 1 <= Ordinal(h, j) < Ordinal(h, k) <= Count(h, IdOf(h, k))
  {
    var id := IdOf(h, k);
    OrdinalIsCount(h, j);
    OrdinalIsCount(h, k);
    CountGrows(h, j + 1, k, id);
    CountGrows(h, k + 1, |h|, id);
    assert h[..|h|] == h;
  }

  /** Up to 2^64 registrations no two of an id share a generation. */
  lemma GenerationsDiffer(h: seq<Call>, j: nat, k: nat)
    requires IsRegistration(h, j) && IsRegistration(h, k) && IdOf(h, j) == IdOf(h, k)
    requires Count(h, IdOf(h, k)) <= GENERATIONS
    ensures Generation(h, j) == Generation(h, k) <==> j == k
  {
    if j != k {
      var first, last := if j < k then j else k, if j < k then k else j;
      OrdinalsIncrease(h, first, last);
      DistinctModulo(Ordinal(h, first), Ordinal(h, last));
    }
  }

  /** Every registration of an id is some call. */
  lemma {:induction false} CallOfOrdinal(h: seq<Call>, id: string, n: nat) returns (k: nat)
    requires 1 <= n <= Count(h, id)
    ensures IsRegistration(h, k) && IdOf(h, k) == id && Ordinal(h, k) == n
  {
    var last := |h| - 1;
    if IsRegistration(h, last) && IdOf(h, last) == id && n == Count(h, id) {
      assert h[..last + 1] == h;
      k := last;
    } else {
      k := CallOfOrdinal(h[..last], id, n);
      assert h[..last][..k + 1] == h[..k + 1];
    }
  }

  /** In every history the registry's own counter is the number of registrations, modulo 2^64. */
  lemma {:induction false} CounterIsCount(h: seq<Call>, id: string)
    ensures GenerationOf(After(h), id) == Count(h, id) % GENERATIONS
  {
    if h != [] {
      CounterIsCount(h[..|h| - 1], id);
      AdvanceCounts(Count(h[..|h| - 1], id));
    }
  }

  /** So the generation of call `k` is the one the registry stamped on the session when it was registered. */
  lemma GenerationIsStamped(h: seq<Call>, k: nat)
    requires IsRegistration(h, k)
    ensures
      var handles := After(h[..k + 1]).handles;
      IdOf(h, k) in handles && handles[IdOf(h, k)] == Stamp(h[k].handle, Generation(h, k))
  {
    var upTo := h[..k + 1];
    assert upTo[..k] == h[..k] && upTo[k] == h[k];
    CounterIsCount(h[..k], IdOf(h, k));
    AdvanceCounts(Count(h[..k], IdOf(h, k)));
    OrdinalIsCount(h, k);
  }

  /** Each registration of the id has a greater generation than all before it. */
  ghost predicate Increasing(h: seq<Call>, id: string) {
    forall j: nat, k: nat :: j < k && IsRegistration(h, j) && IsRegistration(h, k) && IdOf(h, j) == IdOf(h, k) == id ==>
      Generation(h, j) < Generation(h, k)
  }

  /** The generations of an id strictly increase exactly as long as it was registered fewer than 2^64 times. */
  lemma GenerationsIncreaseExactly(h: seq<Call>, id: string)
    ensures Increasing(h, id) <==> Count(h, id) < GENERATIONS
  {
    if Count(h, id) < GENERATIONS {
      forall j: nat, k: nat | j < k && IsRegistration(h, j) && IsRegistration(h, k) && IdOf(h, j) == IdOf(h, k) == id
        ensures Generation(h, j) < Generation(h, k)
      {
        GenerationsIncrease(h, j, k);
      }
    } else {
      var j := CallOfOrdinal(h, id, 1);
      var k := CallOfOrdinal(h, id, GENERATIONS);
      if k < j {
        OrdinalsIncrease(h, k, j);
      }
      SmallModulo(1);
      assert Generation(h, j) == 1 && Generation(h, k) == 0;
    }
  }

  /** One id registered over and over. */
  function Repeated(handle: Handle, n: nat): seq<Call> {
    seq(n, _ => Register(handle))
  }

  lemma {:induction false} AfterRepeated(handle: Handle, n: nat)
    requires Registrable(handle)
    ensures Count(Repeated(handle, n), handle.descriptor.id) == n
    ensures GenerationOf(After(Repeated(handle, n)), handle.descriptor.id) == n % GENERATIONS
    ensures n > 0 ==>
              var handles := After(Repeated(handle, n)).handles;
              handle.descriptor.id in handles && handles[handle.descriptor.id] == Stamp(handle, n % GENERATIONS)
  {
    if n > 0 {
      AfterRepeated(handle, n - 1);
      assert Repeated(handle, n)[..n - 1] == Repeated(handle, n - 1);
      AdvanceCounts(n - 1);
    }
  }

  /** Where the bound is needed: registered once more than 2^64 times, an id is lost to the first, stale closure. */
  lemma StaleClosureAfterWrap(handle: Handle)
    requires Registrable(handle)
    ensures
      var h, id := Repeated(handle, GENERATIONS + 1), handle.descriptor.id;
      && Live(h, GENERATIONS) && !Live(h, 0)
      && id in After(h).handles && id !in After(h + [Unregister(0)]).handles
  {
    var h := Repeated(handle, GENERATIONS + 1);
    AfterRepeated(handle, GENERATIONS + 1);
    AfterRepeated(handle, 1);
    assert h[..1] == Repeated(handle, 1) && (h + [Unregister(0)])[..|h|] == h;
    WrapModulo(1);
    SmallModulo(1);
    assert IsRegistration(h, 1);
  }

  lemma PrefixRegistration(h: seq<Call>, c: Call, k: nat)
    requires k < |h|
    ensures IsRegistration(h + [c], k) <==> IsRegistration(h, k)
    ensures IsRegistration(h, k) ==>
              IdOf(h + [c], k) == IdOf(h, k) && Generation(h + [c], k) == Generation(h, k)
  {
    assert (h + [c])[k] == h[k];
    assert (h + [c])[..k + 1] == h[..k + 1];
  }

  lemma LiveSnoc(h: seq<Call>, c: Call, k: nat)
    requires k < |h|
    ensures Live(h + [c], k) <==>
            && Live(h, k)
            && !(IsRegistration(h + [c], |h|) && IdOf(h + [c], |h|) == IdOf(h, k))
            && c != Unregister(k)
  {
    var all, n := h + [c], |h|;
    forall j: nat | j < n
      ensures all[j] == h[j] && (IsRegistration(all, j) <==> IsRegistration(h, j))
    {
    }
    assert all[n] == c;
    if Live(all, k) {
      assert all[n] != Unregister(k);
      assert IsRegistration(all, n) ==> IdOf(all, n) != IdOf(all, k);
      assert forall j :: k < j < n ==> all[j] != Unregister(k);
      assert forall j :: k < j < n && IsRegistration(h, j) ==> IsRegistration(all, j) && IdOf(all, j) != IdOf(all, k);
    }
  }

  /** For one id: its generation counts its registrations, and its entry is its live registration. */
  ghost predicate Describes(h: seq<Call>, st: State, id: string) {
    && GenerationOf(st, id) == Count(h, id) % GENERATIONS
    && (forall k: nat :: Live(h, k) && IdOf(h, k) == id ==>
          id in st.handles && st.handles[id] == Stamp(h[k].handle, Generation(h, k)))
    && (id in st.handles ==> exists k: nat :: Live(h, k) && IdOf(h, k) == id)
  }

  lemma AdvanceCounts(n: nat)
    ensures Advance(n % GENERATIONS) == (n + 1) % GENERATIONS
  {
  }

  /** A registration replaces whatever its id had. */
  lemma AfterRegister(h: seq<Call>, c: Call)
    requires c.Register? && Registrable(c.handle) && Describes(h, After(h), c.handle.descriptor.id)
    ensures Describes(h + [c], After(h + [c]), c.handle.descriptor.id)
  {
    var all, n, id := h + [c], |h|, c.handle.descriptor.id;
    assert all[..n] == h && all[n] == c && all[..n + 1] == all;
    assert IsRegistration(all, n) && IdOf(all, n) == id;
    AdvanceCounts(Count(h, id));
    assert Live(all, n);
    forall k: nat | Live(all, k) && IdOf(all, k) == id
      ensures k == n
    {
      if k < n {
        LiveSnoc(h, c, k);
        PrefixRegistration(h, c, k);
      }
    }
  }

  lemma AfterOther(h: seq<Call>, c: Call, id: string)
    requires Describes(h, After(h), id)
    requires c.Register? && Registrable(c.handle) ==> c.handle.descriptor.id != id
    requires c.Unregister? && IsRegistration(h, c.k) ==> IdOf(h, c.k) != id
    ensures Describes(h + [c], After(h + [c]), id)
  {
    var all, n := h + [c], |h|;
    assert all[..n] == h && all[n] == c;
    forall k: nat | k < n
      ensures Live(all, k) && IdOf(all, k) == id <==> Live(h, k) && IdOf(h, k) == id
      ensures IsRegistration(h, k) ==> IsRegistration(all, k) && Generation(all, k) == Generation(h, k)
    {
      LiveSnoc(h, c, k);
      PrefixRegistration(h, c, k);
    }
    if id in After(all).handles {
      var k: nat :| Live(h, k) && IdOf(h, k) == id;
      assert Live(all, k);
    }
  }

  lemma OneLive(h: seq<Call>, i: nat, j: nat)
    requires Live(h, i) && Live(h, j) && IdOf(h, i) == IdOf(h, j)
    ensures i == j
  {
  }

  /** The closure of call `k` is stale, yet carries the generation of its id's live registration. */
  ghost predicate Clashes(h: seq<Call>, k: nat) {
    && IsRegistration(h, k)
    && exists j: nat :: Live(h, j) && IdOf(h, j) == IdOf(h, k) && j != k && Generation(h, j) == Generation(h, k)
  }

  /** An unregister call ends the liveness of its registration and touches no other. */
  lemma UnregisterEnds(h: seq<Call>, k: nat, j: nat)
    ensures Live(h + [Unregister(k)], j) <==> Live(h, j) && j != k
    ensures IsRegistration(h, j) ==>
              var all := h + [Unregister(k)];
              IsRegistration(all, j) && IdOf(all, j) == IdOf(h, j) && Generation(all, j) == Generation(h, j)
  {
    if j < |h| {
      LiveSnoc(h, Unregister(k), j);
      PrefixRegistration(h, Unregister(k), j);
    } else if j == |h| {
      assert (h + [Unregister(k)])[j] == Unregister(k);
    }
  }

  lemma UnregisterState(h: seq<Call>, k: nat)
    requires IsRegistration(h, k)
    ensures After(h + [Unregister(k)]) == Unregistered(After(h), IdOf(h, k), Generation(h, k))
    ensures Count(h + [Unregister(k)], IdOf(h, k)) == Count(h, IdOf(h, k))
  {
    assert (h + [Unregister(k)])[..|h|] == h;
  }

  lemma UnregisterOfNone(h: seq<Call>, k: nat, id: string)
    requires Describes(h, After(h), id) && id !in After(h).handles && IsRegistration(h, k) && IdOf(h, k) == id
    ensures Describes(h + [Unregister(k)], After(h), id) && !Clashes(h, k)
  {
    UnregisterState(h, k);
    forall j: nat
      ensures !(Live(h + [Unregister(k)], j) && IdOf(h + [Unregister(k)], j) == id)
    {
      UnregisterEnds(h, k, j);
    }
  }

  lemma UnregisterOfLive(h: seq<Call>, k: nat, id: string)
    requires Describes(h, After(h), id) && Live(h, k) && IdOf(h, k) == id
    ensures Describes(h + [Unregister(k)], After(h + [Unregister(k)]), id) && !Clashes(h, k)
  {
    UnregisterState(h, k);
    forall j: nat | Live(h, j) && IdOf(h, j) == id
      ensures j == k
    {
      OneLive(h, j, k);
    }
    forall j: nat
      ensures !(Live(h + [Unregister(k)], j) && IdOf(h + [Unregister(k)], j) == id)
    {
      UnregisterEnds(h, k, j);
    }
  }

  lemma UnregisterOfStale(h: seq<Call>, k: nat, j: nat, id: string)
    requires Describes(h, After(h), id) && Live(h, j) && IdOf(h, j) == id
    requires IsRegistration(h, k) && IdOf(h, k) == id && j != k
    ensures Clashes(h, k) <==> Generation(h, j) == Generation(h, k)
    ensures Describes(h + [Unregister(k)], After(h + [Unregister(k)]), id) <==> !Clashes(h, k)
    ensures !Clashes(h, k) ==> After(h + [Unregister(k)]) == After(h)
  {
    UnregisterState(h, k);
    UnregisterEnds(h, k, j);
    forall i: nat | Live(h, i) && IdOf(h, i) == id
      ensures i == j
    {
      OneLive(h, i, j);
    }
    forall i: nat | Live(h + [Unregister(k)], i) && IdOf(h + [Unregister(k)], i) == id
      ensures i == j
    {
      UnregisterEnds(h, k, i);
    }
  }

  /** Running an unregister closure leaves the registry exact precisely when it does not clash. */
  lemma AfterUnregister(h: seq<Call>, k: nat, id: string)
    requires Describes(h, After(h), id)
    requires IsRegistration(h, k) && IdOf(h, k) == id
    ensures Describes(h + [Unregister(k)], After(h + [Unregister(k)]), id) <==> !Clashes(h, k)
    ensures !Live(h, k) && !Clashes(h, k) ==> After(h + [Unregister(k)]) == After(h)
  {
    if id !in After(h).handles {
      UnregisterState(h, k);
      UnregisterOfNone(h, k, id);
    } else if Live(h, k) {
      UnregisterOfLive(h, k, id);
    } else {
      var j: nat :| Live(h, j) && IdOf(h, j) == id;
      UnregisterOfStale(h, k, j, id);
    }
  }

  /** Running the closure at step `i` of the history is a clash on the id. */
  ghost predicate ClashAt(h: seq<Call>, i: nat, id: string) {
    && i < |h| && h[i].Unregister?
    && Clashes(h[..i], h[i].k) && IdOf(h[..i], h[i].k) == id
  }

  ghost predicate ExactThroughout(h: seq<Call>, id: string) {
    forall i: nat :: i <= |h| ==> Describes(h[..i], After(h[..i]), id)
  }

  ghost predicate ClashFree(h: seq<Call>, id: string) {
    forall i: nat :: i < |h| ==> !ClashAt(h, i, id)
  }

  lemma StepIsExact(h: seq<Call>, c: Call, id: string)
    requires Describes(h, After(h), id)
    ensures Describes(h + [c], After(h + [c]), id) <==> !ClashAt(h + [c], |h|, id)
  {
    assert (h + [c])[..|h|] == h && (h + [c])[|h|] == c;
    if c.Register? && Registrable(c.handle) && c.handle.descriptor.id == id {
      AfterRegister(h, c);
    } else if c.Unregister? && IsRegistration(h, c.k) && IdOf(h, c.k) == id {
      AfterUnregister(h, c.k, id);
    } else {
      AfterOther(h, c, id);
    }
  }

  lemma ClashFreeSnoc(h: seq<Call>, c: Call, id: string)
    ensures ClashFree(h + [c], id) <==> ClashFree(h, id) && !ClashAt(h + [c], |h|, id)
  {
    var all := h + [c];
    forall i: nat | i < |h|
      ensures ClashAt(all, i, id) <==> ClashAt(h, i, id)
    {
      assert all[..i] == h[..i] && all[i] == h[i];
    }
  }

  lemma ExactSnoc(h: seq<Call>, c: Call, id: string)
    ensures ExactThroughout(h + [c], id) <==>
            ExactThroughout(h, id) && Describes(h + [c], After(h + [c]), id)
  {
    var all := h + [c];
    assert all[..|all|] == all;
    if ExactThroughout(all, id) {
      forall i: nat | i <= |h|
        ensures Describes(h[..i], After(h[..i]), id)
      {
        assert all[..i] == h[..i];
      }
    }
    if ExactThroughout(h, id) && Describes(all, After(all), id) {
      forall i: nat | i <= |all|
        ensures Describes(all[..i], After(all[..i]), id)
      {
        if i <= |h| {
          assert all[..i] == h[..i];
        }
      }
    }
  }

  /**
   For every history, however long: the registry holds exactly the live
   registration of the id at every moment if and only if no stale closure is run
   while its generation is that of the live registration.
   */
  lemma {:induction false} HistoryIsExact(h: seq<Call>, id: string)
    ensures ExactThroughout(h, id) <==> ClashFree(h, id)
  {
    if h == [] {
      assert h[..0] == [];
    } else {
      var before, c := h[..|h| - 1], h[|h| - 1];
      assert before + [c] == h;
      HistoryIsExact(before, id);
      ClashFreeSnoc(before, c, id);
      ExactSnoc(before, c, id);
      if ExactThroughout(before, id) {
        assert before[..|before|] == before;
        StepIsExact(before, c, id);
      }
    }
  }

  /** Up to 2^64 registrations of an id nothing can clash. */
  lemma NothingClashes(h: seq<Call>, id: string)
    requires Count(h, id) <= GENERATIONS
    ensures ClashFree(h, id)
    ensures forall k: nat :: IsRegistration(h, k) && IdOf(h, k) == id ==> !Clashes(h, k)
  {
    forall k: nat | IsRegistration(h, k) && IdOf(h, k) == id
      ensures !Clashes(h, k)
    {
      forall j: nat | Live(h, j) && IdOf(h, j) == id && j != k
        ensures Generation(h, j) != Generation(h, k)
      {
        GenerationsDiffer(h, j, k);
      }
    }
    forall i: nat | i < |h|
      ensures !ClashAt(h, i, id)
    {
      if ClashAt(h, i, id) {
        var j: nat :| Live(h[..i], j) && IdOf(h[..i], j) == id && j != h[i].k
                      && Generation(h[..i], j) == Generation(h[..i], h[i].k);
        CountGrows(h, i, |h|, id);
        assert h[..|h|] == h;
        GenerationsDiffer(h[..i], j, h[i].k);
      }
    }
  }

  lemma AfterDescribes(h: seq<Call>, id: string)
    requires ClashFree(h, id)
    ensures Describes(h, After(h), id)
  {
    HistoryIsExact(h, id);
    assert h[..|h|] == h;
  }

  /** Every history with at most `n` registrations of the id leaves the registry exact. */
  ghost predicate ExactUpTo(n: nat, id: string) {
    forall h: seq<Call> :: Count(h, id) <= n ==> Describes(h, After(h), id)
  }

  /** And 2^64 is the greatest such number. */
  lemma BoundIsExact(n: nat, handle: Handle)
    requires Registrable(handle)
    ensures ExactUpTo(n, handle.descriptor.id) <==> n <= GENERATIONS
  {
    var id := handle.descriptor.id;
    if n <= GENERATIONS {
      forall h: seq<Call> | Count(h, id) <= n
        ensures Describes(h, After(h), id)
      {
        NothingClashes(h, id);
        AfterDescribes(h, id);
      }
    } else {
      var h := Repeated(handle, GENERATIONS + 1);
      var all := h + [Unregister(0)];
      AfterRepeated(handle, GENERATIONS + 1);
      StaleClosureAfterWrap(handle);
      LiveSnoc(h, Unregister(0), GENERATIONS);
      assert all[..|h|] == h && all[|h|] == Unregister(0);
      assert Count(all, id) == GENERATIONS + 1;
      assert Live(all, GENERATIONS) && IdOf(all, GENERATIONS) == id;
    }
  }

  // ---- What the registry promises over every history

  /** The request names registration `k`: its id, its generation and every other fact it was made with. */
  ghost predicate Names(h: seq<Call>, k: nat, q: Request) {
    && IsRegistration(h, k) && IdOf(h, k) == q.id
    && Generation(h, k) == q.generation
    && h[k].handle.descriptor.user == q.user
    && h[k].handle.descriptor.access == q.access
    && h[k].handle.descriptor.application == q.application
    && h[k].handle.descriptor.protocol == q.protocol
  }

  /** The id has a live registration. */
  ghost predicate HasLive(h: seq<Call>, id: string) {
    exists k: nat :: Live(h, k) && IdOf(h, k) == id
  }

  ghost predicate NamesLive(h: seq<Call>, q: Request) {
    exists k: nat :: Live(h, k) && Names(h, k, q)
  }

  /**
   A request resolves exactly when it names the latest registration of its id and
   that one was not unregistered, and it resolves to that very session; it finds
   none exactly when the id has no live registration, and mismatches otherwise.
   */
  lemma ResolveIsExact(h: seq<Call>, q: Request)
    requires ClashFree(h, q.id)
    ensures Resolved(After(h), q).Found? <==> NamesLive(h, q)
    ensures Resolved(After(h), q) == NotFound <==> !HasLive(h, q.id)
    ensures Resolved(After(h), q) == Mismatch <==> HasLive(h, q.id) && !NamesLive(h, q)
    ensures forall k: nat :: Live(h, k) && Names(h, k, q) ==>
              Resolved(After(h), q) == Found(Stamp(h[k].handle, Generation(h, k)))
  {
    AfterDescribes(h, q.id);
    if q.id in After(h).handles {
      var k: nat :| Live(h, k) && IdOf(h, k) == q.id;
      assert Names(h, k, q) <==> Resolved(After(h), q).Found?;
      forall j: nat | Live(h, j) && IdOf(h, j) == q.id
        ensures j == k
      {
        OneLive(h, j, k);
      }
    }
  }

  /** The latest registration of the id is live and was made for the user. */
  ghost predicate BelongsTo(h: seq<Call>, k: nat, id: string, user: nat) {
    Live(h, k) && IdOf(h, k) == id && user != 0 && h[k].handle.descriptor.user == user
  }

  /** A user is told the facts of a session exactly when it is live and theirs. */
  lemma DescribeIsExact(h: seq<Call>, id: string, user: nat)
    requires ClashFree(h, id)
    ensures Described(After(h), id, user).Facts? <==> exists k: nat :: BelongsTo(h, k, id, user)
    ensures Described(After(h), id, user) == NoSession <==> !exists k: nat :: Live(h, k) && IdOf(h, k) == id
    ensures forall k: nat :: BelongsTo(h, k, id, user) ==>
              Described(After(h), id, user) == Facts(Stamp(h[k].handle, Generation(h, k)).descriptor)
  {
    AfterDescribes(h, id);
    if id in After(h).handles {
      var k: nat :| Live(h, k) && IdOf(h, k) == id;
      forall j: nat | Live(h, j) && IdOf(h, j) == id
        ensures j == k
      {
        OneLive(h, j, k);
      }
      assert BelongsTo(h, k, id, user) <==> user != 0 && After(h).handles[id].descriptor.user == user;
    }
  }

  /** A stale closure changes nothing exactly when it does not carry the live registration's generation. */
  lemma StaleUnregisterExact(h: seq<Call>, k: nat)
    requires IsRegistration(h, k) && !Live(h, k) && ClashFree(h, IdOf(h, k))
    ensures After(h + [Unregister(k)]) == After(h) <==> !Clashes(h, k)
  {
    var id := IdOf(h, k);
    AfterDescribes(h, id);
    AfterUnregister(h, k, id);
    if Clashes(h, k) {
      UnregisterState(h, k);
    }
  }

  /** However often a stale closure runs, it changes nothing. */
  lemma {:induction false} StaleUnregisterIsHarmless(h: seq<Call>, k: nat, times: nat)
    requires IsRegistration(h, k) && !Live(h, k) && ClashFree(h, IdOf(h, k)) && !Clashes(h, k)
    ensures After(h + seq(times, _ => Unregister(k))) == After(h)
    decreases times
  {
    if times == 0 {
      assert h + seq(times, _ => Unregister(k)) == h;
    } else {
      var next := h + [Unregister(k)];
      StaleUnregisterExact(h, k);
      StaleStaysStale(h, k);
      StaleUnregisterIsHarmless(next, k, times - 1);
      assert next + seq(times - 1, _ => Unregister(k)) == h + seq(times, _ => Unregister(k));
    }
  }

  lemma StaleStaysStale(h: seq<Call>, k: nat)
    requires IsRegistration(h, k) && !Live(h, k) && ClashFree(h, IdOf(h, k)) && !Clashes(h, k)
    ensures
      var next := h + [Unregister(k)];
      && IsRegistration(next, k) && IdOf(next, k) == IdOf(h, k)
      && !Live(next, k) && ClashFree(next, IdOf(h, k)) && !Clashes(next, k)
  {
    var next := h + [Unregister(k)];
    UnregisterEnds(h, k, k);
    ClashFreeSnoc(h, Unregister(k), IdOf(h, k));
    assert next[..|h|] == h && next[|h|] == Unregister(k);
    forall j: nat | Live(next, j) && IdOf(next, j) == IdOf(h, k) && j != k
      ensures Generation(next, j) != Generation(next, k)
    {
      UnregisterEnds(h, k, j);
    }
  }

  /** In particular with up to 2^64 registrations of the id. */
  lemma StaleUnregisterWithinBound(h: seq<Call>, k: nat, times: nat)
    requires IsRegistration(h, k) && !Live(h, k) && Count(h, IdOf(h, k)) <= GENERATIONS
    ensures After(h + seq(times, _ => Unregister(k))) == After(h)
  {
    NothingClashes(h, IdOf(h, k));
    StaleUnregisterIsHarmless(h, k, times);
  }
}
