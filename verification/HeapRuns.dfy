/**
 Whole runs of the allocator against a ledger kept from its interface alone: what was
 requested, what was returned, what was freed. Between calls the caller may write anything
 except chunk headers, and may grow the memory.
 */
module HeapRuns {
  import opened Wrappers
  import opened LinearMemory
  import opened FreeingBump
  import opened HeapLayout

  datatype Call =
    | Request(size: u32, grant: bool)
    | Release(ptr: u32)
    | Mutate(memory: Memory)

  /** `live` maps each live block to its order, `count` and `peak` give per order the present and the
      greatest number of simultaneously live blocks; `bytes` figures include headers. */
  datatype Ledger = Ledger(
    live: map<u32, Order>,
    returned: set<u32>,
    count: seq<nat>,
    peak: seq<nat>,
    bytes: nat,
    bytesPeak: nat,
    bytesSum: nat)

  datatype World = World(alloc: Allocator, memory: Memory, ledger: Ledger) {
    predicate Ok() {
      memory.WellFormed() && |alloc.heads| == N_ORDERS && |ledger.count| == |ledger.peak| == N_ORDERS
    }
  }

  function EmptyLedger(): Ledger {
    Ledger(map[], {}, seq(N_ORDERS, _ => 0), seq(N_ORDERS, _ => 0), 0, 0, 0)
  }

  function Credit(g: Ledger, ptr: u32, k: Order): Ledger
    requires |g.count| == |g.peak| == N_ORDERS
  {
    Ledger(g.live[ptr := k],
           g.returned + {ptr},
           g.count[k := g.count[k] + 1],
           g.peak[k := Max(g.peak[k], g.count[k] + 1)],
           g.bytes + CellOf(k),
           Max(g.bytesPeak, g.bytes + CellOf(k)),
           g.bytesSum + CellOf(k))
  }

  function Debit(g: Ledger, ptr: u32): Ledger
    requires |g.count| == |g.peak| == N_ORDERS
  {
    if ptr !in g.live then g
    else
      var k := g.live[ptr];
      g.(live := g.live - {ptr},
         count := g.count[k := if g.count[k] > 0 then g.count[k] - 1 else 0],
         bytes := if g.bytes >= CellOf(k) then g.bytes - CellOf(k) else 0)
  }

  ghost function Step(w: World, call: Call): (w': World)
    requires w.Ok()
    requires call.Mutate? ==> call.memory.WellFormed()
    ensures w'.Ok()
  {
    match call
    case Request(size, grant) =>
      var o := Allocate(w.alloc, w.memory, size, grant);
      World(o.alloc, o.memory,
            if o.result.Success? && size <= MAX_POSSIBLE_ALLOCATION
            then Credit(w.ledger, o.result.value, OrderOf(size)) else w.ledger)
    case Release(ptr) =>
      var o := Deallocate(w.alloc, w.memory, ptr);
      World(o.alloc, o.memory, if o.result.Success? then Debit(w.ledger, ptr) else w.ledger)
    case Mutate(m) =>
      World(w.alloc, m, w.ledger)
  }

  /** The caller's duties: release only pointers it was given (twice is allowed and will be refused),
      leave the header in front of every such pointer alone, never shrink the memory, and, where the
      memory may span all 32-bit addresses, make no request that would take its last byte. */
  ghost predicate Legal(w: World, call: Call)
    requires w.Ok()
  {
    match call
    case Request(size, grant) => !TakesTheLastByte(w.alloc, w.memory, size, grant)
    case Release(ptr) => ptr in w.ledger.returned
    case Mutate(m) =>
      && m.WellFormed()
      && w.memory.Size() <= m.Size()
      && KeepsHeaders(w.memory.data, m.data, w.ledger.returned)
  }

  /** The request is served by bumping to 2^32: no free chunk of its order, and the memory has, or the
      host grants, all 65536 pages. */
  ghost predicate TakesTheLastByte(a: Allocator, m: Memory, size: u32, grant: bool)
    requires |a.heads| == N_ORDERS
  {
    && size <= MAX_POSSIBLE_ALLOCATION
    && a.heads[OrderOf(size)] == Nil && a.bumper + CellOf(OrderOf(size)) == U32_LIMIT
    && m.Limit() == MAX_WASM_PAGES && (grant || m.Size() == U32_LIMIT)
  }

  ghost predicate KeepsHeaders(before: seq<byte>, after: seq<byte>, returned: set<u32>) {
    && |before| <= |after|
    && forall p :: p in returned && 8 <= p <= |before| ==> after[p - 8..p] == before[p - 8..p]
  }

  ghost predicate LegalRun(w: World, calls: seq<Call>)
    requires w.Ok()
    decreases |calls|
  {
    calls == [] || (Legal(w, calls[0]) && LegalRun(Step(w, calls[0]), calls[1..]))
  }

  ghost function Run(w: World, calls: seq<Call>): (w': World)
    requires w.Ok() && LegalRun(w, calls)
    ensures w'.Ok()
    decreases |calls|
  {
    if calls == [] then w else Run(Step(w, calls[0]), calls[1..])
  }

  ghost function Start(heapBase: u32, m: Memory): (w: World)
    requires m.WellFormed()
    ensures w.Ok()
  {
    World(New(heapBase), m, EmptyLedger())
  }

  // ----- counting chunks

  ghost function CountLive(chunks: seq<Chunk>, k: nat): nat {
    if chunks == [] then 0
    else
      var last := chunks[|chunks| - 1];
      CountLive(chunks[..|chunks| - 1], k) + (if last.live && last.order == k then 1 else 0)
  }

  ghost function CountAll(chunks: seq<Chunk>, k: nat): nat {
    if chunks == [] then 0
    else
      var last := chunks[|chunks| - 1];
      CountAll(chunks[..|chunks| - 1], k) + (if last.order == k then 1 else 0)
  }

  lemma {:induction false} CountAfterFlip(chunks: seq<Chunk>, c: nat, live: bool, k: nat)
    requires c < |chunks| && chunks[c].live != live
    ensures CountAll(SetLive(chunks, c, live), k) == CountAll(chunks, k)
    ensures CountLive(SetLive(chunks, c, live), k) ==
            CountLive(chunks, k) + (if chunks[c].order != k then 0 else if live then 1 else -1)
  {
    var n := |chunks| - 1;
    var flipped := SetLive(chunks, c, live);
    if c < n {
      CountAfterFlip(chunks[..n], c, live, k);
      assert flipped[..n] == SetLive(chunks[..n], c, live);
    } else {
      assert flipped[..n] == chunks[..n];
    }
  }

  lemma {:induction false} CountBounds(chunks: seq<Chunk>, k: nat)
    ensures CountLive(chunks, k) <= CountAll(chunks, k)
    ensures (forall c :: 0 <= c < |chunks| && chunks[c].order == k ==> chunks[c].live) ==>
              CountLive(chunks, k) == CountAll(chunks, k)
  {
    if chunks != [] {
      CountBounds(chunks[..|chunks| - 1], k);
    }
  }

  /** The heap that `f[k]` chunks of each order below `n` take together. */
  ghost function Footprint(f: seq<nat>, n: nat): nat
    requires n <= |f|
  {
    if n == 0 then 0 else Footprint(f, n - 1) + CellOf(n - 1) * f[n - 1]
  }

  lemma {:induction false} FootprintPlusOne(f: seq<nat>, k: nat, n: nat)
    requires k < |f| && n <= |f|
    ensures Footprint(f[k := f[k] + 1], n) == Footprint(f, n) + (if k < n then CellOf(k) else 0)
  {
    hide CellOf;
    if n > 0 {
      FootprintPlusOne(f, k, n - 1);
      if k == n - 1 {
        assert CellOf(k) * (f[k] + 1) == CellOf(k) * f[k] + CellOf(k);
      }
    }
  }

  lemma {:induction false} FootprintOfNothing(f: seq<nat>, n: nat)
    requires n <= |f| && forall i :: 0 <= i < |f| ==> f[i] == 0
    ensures Footprint(f, n) == 0
  {
    if n > 0 {
      FootprintOfNothing(f, n - 1);
    }
  }

  // ----- the ledger agrees with the layout

  /** The pointer handed out for a chunk. */
  ghost function Block(c: Chunk): nat {
    c.ptr + HEADER_SIZE
  }

  ghost predicate Tracks(g: Ledger, chunks: seq<Chunk>) {
    && (forall c :: 0 <= c < |chunks| ==>
                      && Block(chunks[c]) in g.returned
                      && (chunks[c].live <==> Block(chunks[c]) in g.live)
                      && (chunks[c].live ==> g.live[Block(chunks[c])] == chunks[c].order))
    && (forall p :: p in g.returned ==> exists c :: 0 <= c < |chunks| && Block(chunks[c]) == p)
    && g.live.Keys <= g.returned
  }

  ghost predicate Distinct(chunks: seq<Chunk>, bumper: nat) {
    && (forall c, d :: 0 <= c < d < |chunks| ==> chunks[c].ptr != chunks[d].ptr)
    && (forall c :: 0 <= c < |chunks| ==> chunks[c].ptr < bumper)
  }

  lemma TiledIsDistinct(chunks: seq<Chunk>, base: nat, bumper: nat)
    requires Tiled(chunks, base, bumper)
    ensures Distinct(chunks, bumper)
  {
    hide CellOf;
    forall c | 0 <= c < |chunks|
      ensures CellOf(chunks[c].order) >= 16
    {
      CellFacts(chunks[c].order);
    }
  }

  ghost predicate Counts(g: Ledger, chunks: seq<Chunk>) {
    && |g.count| == |g.peak| == N_ORDERS
    && (forall k :: 0 <= k < N_ORDERS ==> g.count[k] == CountLive(chunks, k) && g.peak[k] == CountAll(chunks, k))
  }

  ghost predicate Agrees(w: World, l: Layout) {
    && Represents(w.alloc, w.memory, l)
    && Tracks(w.ledger, l.chunks)
    && Counts(w.ledger, l.chunks)
    && w.alloc.bumper - w.alloc.originalHeapBase == Footprint(w.ledger.peak, N_ORDERS)
    && w.alloc.stats.bytesAllocated == w.ledger.bytes
    && w.alloc.stats.bytesAllocatedPeak == w.ledger.bytesPeak
    && w.alloc.stats.bytesAllocatedSum == w.ledger.bytesSum
  }

  // ----- requests

  lemma TracksAfterServe(g: Ledger, l: Layout, a: Allocator, k: Order, ptr: u32)
    requires Distinct(l.chunks, a.bumper) && |l.free| == N_ORDERS && |g.count| == |g.peak| == N_ORDERS
    requires Tracks(g, l.chunks)
    requires l.free[k] != [] ==> l.free[k][0] < |l.chunks| && l.chunks[l.free[k][0]].order == k
    requires ptr == (if l.free[k] != [] then l.chunks[l.free[k][0]].ptr else a.bumper) + 8
    ensures Tracks(Credit(g, ptr, k), AllocateLayout(a, l, k).chunks)
  {
    hide CellOf;
    var after := AllocateLayout(a, l, k).chunks;
    var g' := Credit(g, ptr, k);
    var served := if l.free[k] != [] then l.free[k][0] else |l.chunks|;
    assert g'.live == g.live[ptr := k] && g'.returned == g.returned + {ptr};
    assert after[served] == Chunk(ptr - 8, k, true);
    forall c | 0 <= c < |after|
      ensures Block(after[c]) in g'.returned
      ensures after[c].live <==> Block(after[c]) in g'.live
      ensures after[c].live ==> g'.live[Block(after[c])] == after[c].order
    {
      if c != served {
        assert after[c] == l.chunks[c] && Block(after[c]) != ptr;
      }
    }
    forall p | p in g'.returned
      ensures exists c :: 0 <= c < |after| && Block(after[c]) == p
    {
      if p == ptr {
        assert Block(after[served]) == p;
      } else {
        var c :| 0 <= c < |l.chunks| && Block(l.chunks[c]) == p;
        assert Block(after[c]) == p;
      }
    }
  }

  /** A new chunk is cut only when all chunks of its order are live, so per order the number of
      chunks is the greatest number ever live at once. */
  lemma CountsAfterServe(g: Ledger, l: Layout, a: Allocator, k: Order, ptr: u32)
    requires |l.free| == N_ORDERS && Counts(g, l.chunks)
    requires l.free[k] != [] ==>
               l.free[k][0] < |l.chunks| && l.chunks[l.free[k][0]].order == k && !l.chunks[l.free[k][0]].live
    requires l.free[k] == [] ==> forall c :: 0 <= c < |l.chunks| && l.chunks[c].order == k ==> l.chunks[c].live
    ensures Counts(Credit(g, ptr, k), AllocateLayout(a, l, k).chunks)
    ensures Footprint(Credit(g, ptr, k).peak, N_ORDERS)
            == Footprint(g.peak, N_ORDERS) + (if l.free[k] == [] then CellOf(k) else 0)
  {
    hide CellOf;
    var after := AllocateLayout(a, l, k).chunks;
    CountBounds(l.chunks, k);
    forall j | 0 <= j < N_ORDERS
      ensures CountLive(after, j) == CountLive(l.chunks, j) + (if j == k then 1 else 0)
      ensures CountAll(after, j) == CountAll(l.chunks, j) + (if j == k && l.free[k] == [] then 1 else 0)
    {
      if l.free[k] != [] {
        CountAfterFlip(l.chunks, l.free[k][0], true, j);
      } else {
        assert after[..|l.chunks|] == l.chunks;
      }
    }
    CountBounds(after, k);
    if l.free[k] == [] {
      FootprintPlusOne(g.peak, k, N_ORDERS);
    } else {
      assert Credit(g, ptr, k).peak == g.peak;
    }
  }

  /** What runs leave out is exactly the request that is served and overflows the bumper. */
  lemma OverflowIsTheLastByte(a: Allocator, m: Memory, l: Layout, size: u32, grant: bool)
    requires Represents(a, m, l)
    ensures |l.free| == N_ORDERS
    ensures CanServe(a, m, l, size, grant) && BumperOverflows(a, l, size) <==> TakesTheLastByte(a, m, size, grant)
  {
    ServedChunk(a, m, l, 0);
    if size <= MAX_POSSIBLE_ALLOCATION {
      ServedChunk(a, m, l, OrderOf(size));
    }
    hide Represents, CellOf, OrderOf;
  }

  lemma ServedChunk(a: Allocator, m: Memory, l: Layout, k: Order)
    requires Represents(a, m, l)
    ensures |l.free| == |a.heads| == N_ORDERS
    ensures l.free[k] == [] <==> a.heads[k] == Nil
    ensures l.free[k] != [] ==>
              l.free[k][0] < |l.chunks| && l.chunks[l.free[k][0]].order == k && !l.chunks[l.free[k][0]].live
    ensures l.free[k] == [] ==> forall c :: 0 <= c < |l.chunks| && l.chunks[c].order == k ==> l.chunks[c].live
  {
    hide ReadHeader, CellOf, Tiled, LiveHeaders, LiveBytes;
    ListOf(l, m.data, a.heads, k);
  }

  lemma AfterRequest(w: World, l: Layout, size: u32, grant: bool) returns (l': Layout)
    requires w.Ok() && Agrees(w, l) && !TakesTheLastByte(w.alloc, w.memory, size, grant)
    ensures var w' := Step(w, Request(size, grant)); w'.alloc.poisoned || Agrees(w', l')
  {
    hide FreeLists, CellOf, LiveHeaders, LiveBytes, Tiled, Footprint, Tracks, Allocate, OrderOf, AllocateLayout;
    hide TakesTheLastByte;
    l' := l;
    ErrorsPoison(w.alloc, w.memory, size, grant, 0);
    ServedChunk(w.alloc, w.memory, l, 0);
    AllocateKeepsHeap(w.alloc, w.memory, l, size, grant);
    CallsKeepBaseAndLimit(w.alloc, w.memory, size, grant, 0);
    var o := Allocate(w.alloc, w.memory, size, grant);
    if o.result.Success? {
      var k := OrderOf(size);
      ServedChunk(w.alloc, w.memory, l, k);
      OverflowIsTheLastByte(w.alloc, w.memory, l, size, grant);
      l' := AllocateLayout(w.alloc, l, k);
      TiledIsDistinct(l.chunks, w.alloc.originalHeapBase, w.alloc.bumper);
      TracksAfterServe(w.ledger, l, w.alloc, k, o.result.value);
      CountsAfterServe(w.ledger, l, w.alloc, k, o.result.value);
    }
  }

  // ----- releases

  lemma AfterRelease(w: World, l: Layout, ptr: u32) returns (l': Layout)
    requires w.Ok() && Agrees(w, l) && ptr in w.ledger.returned
    ensures var w' := Step(w, Release(ptr)); w'.alloc.poisoned || Agrees(w', l')
  {
    hide FreeLists, CellOf, LiveHeaders, LiveBytes, Tiled, Footprint, Deallocate, FreeLayout, Counts;
    l' := l;
    ErrorsPoison(w.alloc, w.memory, 0, false, ptr);
    ServedChunk(w.alloc, w.memory, l, 0);
    var c :| 0 <= c < |l.chunks| && Block(l.chunks[c]) == ptr;
    DeallocateKeepsHeap(w.alloc, w.memory, l, c, ptr);
    hide Represents;
    if l.chunks[c].live {
      l' := FreeLayout(l, c);
      LiveRelease(w, l, c, ptr);
    }
  }

  lemma LiveRelease(w: World, l: Layout, c: nat, ptr: u32)
    requires w.Ok() && Agrees(w, l) && c < |l.chunks| && Block(l.chunks[c]) == ptr && l.chunks[c].live
    requires Deallocate(w.alloc, w.memory, ptr).result.Success?
    ensures |l.free| == N_ORDERS && Agrees(Step(w, Release(ptr)), FreeLayout(l, c))
  {
    hide FreeLists, CellOf, LiveHeaders, Tiled, Footprint, Deallocate, FreeLayout, Counts, Tracks;
    CallsKeepBaseAndLimit(w.alloc, w.memory, 0, false, ptr);
    ServedChunk(w.alloc, w.memory, l, 0);
    DeallocateKeepsHeap(w.alloc, w.memory, l, c, ptr);
    TiledIsDistinct(l.chunks, w.alloc.originalHeapBase, w.alloc.bumper);
    LiveBytesAfterRelease(l, c);
    LiveIsTracked(w.ledger, l.chunks, c);
    TracksAfterRelease(w.ledger, l, w.alloc.bumper, c, ptr);
    CountsAfterRelease(w.ledger, l, c, ptr);
    hide LiveBytes;
  }

  lemma LiveIsTracked(g: Ledger, chunks: seq<Chunk>, c: nat)
    requires Tracks(g, chunks) && c < |chunks| && chunks[c].live
    ensures Block(chunks[c]) in g.live && g.live[Block(chunks[c])] == chunks[c].order
  {
  }

  lemma LiveBytesAfterRelease(l: Layout, c: nat)
    requires |l.free| == N_ORDERS && c < |l.chunks| && l.chunks[c].live
    ensures LiveBytes(FreeLayout(l, c).chunks) + CellOf(l.chunks[c].order) == LiveBytes(l.chunks)
  {
    hide CellOf;
    LiveBytesFlip(l.chunks, c, false);
  }

  lemma TracksAfterRelease(g: Ledger, l: Layout, bumper: nat, c: nat, ptr: u32)
    requires Distinct(l.chunks, bumper) && |l.free| == N_ORDERS && |g.count| == |g.peak| == N_ORDERS
    requires Tracks(g, l.chunks) && c < |l.chunks| && l.chunks[c].live && ptr == Block(l.chunks[c])
    ensures Tracks(Debit(g, ptr), FreeLayout(l, c).chunks)
  {
    hide CellOf;
    var after := FreeLayout(l, c).chunks;
    var g' := Debit(g, ptr);
    assert g'.live == g.live - {ptr} && g'.returned == g.returned;
    forall d | 0 <= d < |after|
      ensures Block(after[d]) == Block(l.chunks[d])
      ensures after[d].live <==> Block(after[d]) in g'.live
      ensures after[d].live ==> g'.live[Block(after[d])] == after[d].order
    {
      assert d != c ==> after[d] == l.chunks[d];
    }
    forall p | p in g.returned
      ensures exists d :: 0 <= d < |after| && Block(after[d]) == p
    {
      var d :| 0 <= d < |l.chunks| && Block(l.chunks[d]) == p;
      assert Block(after[d]) == p;
    }
  }

  lemma CountsAfterRelease(g: Ledger, l: Layout, c: nat, ptr: u32)
    requires |l.free| == N_ORDERS && Counts(g, l.chunks)
    requires c < |l.chunks| && l.chunks[c].live && ptr in g.live && g.live[ptr] == l.chunks[c].order
    ensures Counts(Debit(g, ptr), FreeLayout(l, c).chunks)
  {
    forall j | 0 <= j < N_ORDERS
      ensures CountLive(FreeLayout(l, c).chunks, j) == CountLive(l.chunks, j) - (if j == g.live[ptr] then 1 else 0)
      ensures CountAll(FreeLayout(l, c).chunks, j) == CountAll(l.chunks, j)
    {
      CountAfterFlip(l.chunks, c, false, j);
    }
  }

  // ----- writes by the caller

  /** Bytes outside headers do not matter to the invariant, and neither does more memory. */
  lemma AfterMutate(w: World, l: Layout, m: Memory)
    requires w.Ok() && Agrees(w, l) && Legal(w, Mutate(m))
    ensures Agrees(Step(w, Mutate(m)), l)
  {
    hide CellOf, LiveBytes, Footprint, Counts, FreeLists, LiveHeaders, ReadHeader;
    forall c | 0 <= c < |l.chunks|
      ensures ReadHeader(m.data, l.chunks[c].ptr) == ReadHeader(w.memory.data, l.chunks[c].ptr)
    {
      CellFacts(l.chunks[c].order);
      var p := Block(l.chunks[c]);
      assert m.data[p - 8..p] == w.memory.data[p - 8..p];
      ReadDependsOnEightBytes(w.memory.data, m.data, l.chunks[c].ptr);
    }
    SameHeadersSameHeap(l, w.alloc.heads, w.memory.data, m.data);
  }

  lemma SameHeadersSameHeap(l: Layout, heads: seq<Link>, before: seq<byte>, after: seq<byte>)
    requires FreeLists(l.chunks, before, heads, l.free) && LiveHeaders(l.chunks, before)
    requires forall c :: 0 <= c < |l.chunks| ==>
                           ReadHeader(after, l.chunks[c].ptr) == ReadHeader(before, l.chunks[c].ptr)
    ensures FreeLists(l.chunks, after, heads, l.free) && LiveHeaders(l.chunks, after)
  {
    hide ReadHeader, FreeLists;
    ListOf(l, before, heads, 0);
    forall k: Order
      ensures FreeList(l.chunks, after, heads[k], l.free[k], k)
    {
      ListOf(l, before, heads, k);
      FreeListFrame(l.chunks, before, l.chunks, after, heads[k], l.free[k], k);
    }
    AllListed(l, before, heads);
    FreeListsFrom(l, after, heads);
  }

  lemma AllListed(l: Layout, data: seq<byte>, heads: seq<Link>)
    requires FreeLists(l.chunks, data, heads, l.free)
    ensures forall c :: 0 <= c < |l.chunks| && !l.chunks[c].live ==> c in l.free[l.chunks[c].order]
  {
    hide FreeList;
  }

  // ----- every run

  lemma StartAgrees(heapBase: u32, m: Memory)
    requires m.WellFormed()
    ensures Agrees(Start(heapBase, m), Layout([], seq(N_ORDERS, _ => [])))
  {
    hide CellOf;
    HeapBaseRoundsUp(heapBase);
    FootprintOfNothing(EmptyLedger().peak, N_ORDERS);
  }

  lemma {:induction false} RunAgrees(w: World, calls: seq<Call>, l: Layout) returns (l': Layout)
    requires w.Ok() && LegalRun(w, calls) && (w.alloc.poisoned || Agrees(w, l))
    ensures Run(w, calls).alloc.poisoned || Agrees(Run(w, calls), l')
    decreases |calls|
  {
    l' := l;
    if calls != [] {
      var next := Step(w, calls[0]);
      if w.alloc.poisoned {
        StaysPoisoned(w, calls[0]);
      } else {
        match calls[0]
        case Request(size, grant) => l' := AfterRequest(w, l, size, grant);
        case Release(ptr) => l' := AfterRelease(w, l, ptr);
        case Mutate(m) => AfterMutate(w, l, m);
      }
      l' := RunAgrees(next, calls[1..], l');
    }
  }

  lemma StaysPoisoned(w: World, call: Call)
    requires w.Ok() && w.alloc.poisoned && (call.Mutate? ==> call.memory.WellFormed())
    ensures Step(w, call).alloc == w.alloc
    ensures !call.Mutate? ==> Step(w, call).memory == w.memory
  {
  }

  /** The high-water law: in every unpoisoned run the heap used is exactly what the greatest number
      of simultaneously live blocks of each order needs, and the statistics are the ledger's. */
  lemma HighWaterLaw(heapBase: u32, m: Memory, calls: seq<Call>)
    requires m.WellFormed()
    requires LegalRun(Start(heapBase, m), calls)
    ensures var w := Run(Start(heapBase, m), calls);
            w.alloc.poisoned ||
            (&& w.alloc.bumper - w.alloc.originalHeapBase == Footprint(w.ledger.peak, N_ORDERS)
             && w.alloc.stats.addressSpaceUsed == Footprint(w.ledger.peak, N_ORDERS)
             && w.alloc.stats.bytesAllocated == w.ledger.bytes
             && w.alloc.stats.bytesAllocatedPeak == w.ledger.bytesPeak
             && w.alloc.stats.bytesAllocatedSum == w.ledger.bytesSum)
  {
    StartAgrees(heapBase, m);
    var l := RunAgrees(Start(heapBase, m), calls, Layout([], seq(N_ORDERS, _ => [])));
  }

  // ----- how often memory grows

  /** The requests of a run that grow the memory. */
  ghost function Growths(w: World, calls: seq<Call>): nat
    requires w.Ok() && LegalRun(w, calls)
    decreases |calls|
  {
    if calls == [] then 0
    else
      var next := Step(w, calls[0]);
      (if calls[0].Request? && next.memory.pages > w.memory.pages then 1 else 0) + Growths(next, calls[1..])
  }

  /** The caller may grow the memory but not move its limit. */
  ghost predicate LimitStays(calls: seq<Call>, limit: nat) {
    forall i :: 0 <= i < |calls| && calls[i].Mutate? ==> calls[i].memory.Limit() == limit
  }

  lemma MemoryAfterStep(w: World, call: Call)
    requires w.Ok() && Legal(w, call) && (call.Mutate? ==> call.memory.Limit() == w.memory.Limit())
    ensures var m := Step(w, call).memory;
            && m.Limit() == w.memory.Limit() && w.memory.pages <= m.pages <= m.Limit()
            && (call.Request? && m.pages > w.memory.pages ==>
                  m.pages == m.Limit() || m.pages >= 2 * w.memory.pages)
  {
    hide Allocate, Deallocate;
    match call
    case Request(size, grant) =>
      AllocateGrows(w.alloc, w.memory, size, grant);
      CallsKeepBaseAndLimit(w.alloc, w.memory, size, grant, 0);
    case Release(ptr) =>
      CallsKeepBaseAndLimit(w.alloc, w.memory, 0, false, ptr);
    case Mutate(_) =>
  }

  /** `g` growths lead from `p` to `q` pages under the limit. */
  ghost predicate GrownBy(p: nat, q: nat, limit: nat, g: nat) {
    && p <= q <= limit
    && (p * Pow2(g) <= q || q == limit)
    && (g > 0 ==> p < q && p * Pow2(g - 1) < q)
  }

  lemma GrownByRest(p: nat, p1: nat, q: nat, limit: nat, g: nat)
    requires p <= p1 && GrownBy(p1, q, limit, g)
    ensures GrownBy(p, q, limit, g)
  {
    ScalesPage(p, p1, Pow2(g));
    if g > 0 {
      ScalesPage(p, p1, Pow2(g - 1));
    }
  }

  lemma GrownByOneMore(p: nat, p1: nat, q: nat, limit: nat, g: nat)
    requires p < p1 && (2 * p <= p1 || p1 == limit) && GrownBy(p1, q, limit, g)
    ensures GrownBy(p, q, limit, g + 1)
  {
    if 2 * p <= p1 {
      assert Pow2(g + 1) == 2 * Pow2(g);
      ScalesPage(2 * p, p1, Pow2(g));
      assert p * Pow2(g + 1) == (2 * p) * Pow2(g);
      if g > 0 {
        assert Pow2(g) == 2 * Pow2(g - 1);
        ScalesPage(2 * p, p1, Pow2(g - 1));
        assert p * Pow2(g) == (2 * p) * Pow2(g - 1);
      }
    }
  }

  lemma ScalesPage(p: nat, p1: nat, x: nat)
    requires p <= p1
    ensures p * x <= p1 * x
  {
  }

  /** Every growth of a run doubles the memory, save one that reaches the limit, after which there is none. */
  lemma {:induction false} GrowthsDouble(w: World, calls: seq<Call>)
    requires w.Ok() && LegalRun(w, calls) && LimitStays(calls, w.memory.Limit())
    ensures GrownBy(w.memory.pages, Run(w, calls).memory.pages, w.memory.Limit(), Growths(w, calls))
    ensures w.memory.Limit() <= 65536
    decreases |calls|
  {
    if calls != [] {
      var next, rest := Step(w, calls[0]), calls[1..];
      assert calls[0].Mutate? ==> calls[0].memory.Limit() == w.memory.Limit();
      assert forall i :: 0 <= i < |rest| ==> rest[i] == calls[i + 1];
      MemoryAfterStep(w, calls[0]);
      hide Step, Legal, GrownBy;
      GrowthsDouble(next, rest);
      var q, g := Run(w, calls).memory.pages, Growths(next, rest);
      if calls[0].Request? && next.memory.pages > w.memory.pages {
        GrownByOneMore(w.memory.pages, next.memory.pages, q, w.memory.Limit(), g);
      } else {
        GrownByRest(w.memory.pages, next.memory.pages, q, w.memory.Limit(), g);
      }
    }
  }

  /** Growing from `p` to `q` pages takes at most `n` requests where `p * 2^n` is at least `q`; so no run that
      starts with a page grows its memory more than sixteen times. */
  lemma GrowthIsLogarithmic(w: World, calls: seq<Call>, n: nat)
    requires w.Ok() && LegalRun(w, calls) && LimitStays(calls, w.memory.Limit()) && w.memory.pages > 0
    ensures w.memory.pages * Pow2(n) >= Run(w, calls).memory.pages ==> Growths(w, calls) <= n
    ensures Growths(w, calls) <= 16
  {
    hide Run, Growths, LegalRun, GrownBy, Pow2;
    GrowthsDouble(w, calls);
    var p, q, g := w.memory.pages, Run(w, calls).memory.pages, Growths(w, calls);
    if p * Pow2(n) >= q {
      FewGrowths(p, q, w.memory.Limit(), g, n);
    }
    SixteenDoublings(p);
    FewGrowths(p, q, w.memory.Limit(), g, 16);
  }

  lemma FewGrowths(p: nat, q: nat, limit: nat, g: nat, n: nat)
    requires GrownBy(p, q, limit, g) && p * Pow2(n) >= q
    ensures g <= n
  {
    if g > n {
      Pow2Monotone(n, g - 1);
      ScalesPage(Pow2(n), Pow2(g - 1), p);
    }
  }

  lemma SixteenDoublings(p: nat)
    requires p > 0
    ensures p * Pow2(16) >= 65536
  {
    assert Pow2(8) == 256;
    assert Pow2(16) == 65536;
  }

  ghost predicate Apart(p: nat, k: nat, q: nat, j: nat) {
    p + SizeOf(k) <= q - HEADER_SIZE || q + SizeOf(j) <= p - HEADER_SIZE
  }

  /** In every unpoisoned run the live blocks are 8-aligned, lie in the heap and in the memory, and no
      block reaches into another one or into its header. */
  lemma LiveBlocksAreDisjoint(heapBase: u32, m: Memory, calls: seq<Call>, p: u32, q: u32)
    requires m.WellFormed()
    requires LegalRun(Start(heapBase, m), calls)
    requires var w := Run(Start(heapBase, m), calls); !w.alloc.poisoned && p in w.ledger.live && q in w.ledger.live
    ensures var w := Run(Start(heapBase, m), calls);
            && p % 8 == 0
            && w.alloc.originalHeapBase + HEADER_SIZE <= p
            && p + SizeOf(w.ledger.live[p]) <= w.alloc.bumper <= w.memory.Size()
            && (p != q ==> Apart(p, w.ledger.live[p], q, w.ledger.live[q]))
  {
    hide CellOf, FreeLists, LiveHeaders, LiveBytes, Footprint, Run, Start, LegalRun, Counts, Tiled, Apart;
    StartAgrees(heapBase, m);
    var l := RunAgrees(Start(heapBase, m), calls, Layout([], seq(N_ORDERS, _ => [])));
    var c :| 0 <= c < |l.chunks| && Block(l.chunks[c]) == p;
    var d :| 0 <= d < |l.chunks| && Block(l.chunks[d]) == q;
    var w := Run(Start(heapBase, m), calls);
    TiledBlocks(l.chunks, w.alloc.originalHeapBase, w.alloc.bumper, c, d);
  }

  lemma TiledBlocks(chunks: seq<Chunk>, base: nat, bumper: nat, c: nat, d: nat)
    requires Tiled(chunks, base, bumper) && c < |chunks| && d < |chunks|
    ensures Block(chunks[c]) % 8 == 0
    ensures base + HEADER_SIZE <= Block(chunks[c])
    ensures Block(chunks[c]) + SizeOf(chunks[c].order) <= bumper
    ensures c != d ==> Apart(Block(chunks[c]), chunks[c].order, Block(chunks[d]), chunks[d].order)
  {
    hide SizeOf;
  }
}
