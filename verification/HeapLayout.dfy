/**
 The heap invariant: an abstract layout of chunks that the bytes and the free-list
 heads of the allocator represent, and its preservation by every call.
 */
module HeapLayout {
  import opened Wrappers
  import opened LinearMemory
  import opened FreeingBump

  /** A chunk starts with its header at `ptr`; its payload follows at `ptr + 8`. */
  datatype Chunk = Chunk(ptr: u32, order: Order, live: bool)

  /** All chunks by address, and for each order the stack of indices of its free chunks. */
  datatype Layout = Layout(chunks: seq<Chunk>, free: seq<seq<nat>>)

  ghost function End(c: Chunk): nat {
    c.ptr + CellOf(c.order)
  }

  /** The chunks cover the heap from `base` to `bumper` without gap or overlap, all 8-aligned. */
  ghost predicate Tiled(chunks: seq<Chunk>, base: nat, bumper: nat) {
    && base % 8 == 0
    && bumper == (if chunks == [] then base else End(chunks[|chunks| - 1]))
    && (chunks != [] ==> chunks[0].ptr == base)
    && (forall i, j :: 0 <= i && j == i + 1 && j < |chunks| ==> chunks[j].ptr == End(chunks[i]))
    && (forall i :: 0 <= i < |chunks| ==>
                      base <= chunks[i].ptr && chunks[i].ptr % 8 == 0 && End(chunks[i]) <= bumper)
    && (forall i, j :: 0 <= i < j < |chunks| ==> End(chunks[i]) <= chunks[j].ptr)
  }

  ghost function LinkTo(chunks: seq<Chunk>, list: seq<nat>, i: nat): Link {
    if i < |list| && list[i] < |chunks| then Ptr(chunks[list[i]].ptr) else Nil
  }

  /** `head` starts a nil-terminated chain through memory that visits exactly `list`, without repetition. */
  ghost predicate FreeList(chunks: seq<Chunk>, data: seq<byte>, head: Link, list: seq<nat>, k: nat) {
    && head == LinkTo(chunks, list, 0)
    && (forall i :: 0 <= i < |list| ==>
                      && list[i] < |chunks|
                      && chunks[list[i]].order == k && !chunks[list[i]].live
                      && ReadHeader(data, chunks[list[i]].ptr) == Success(Free(LinkTo(chunks, list, i + 1))))
    && (forall i, j :: 0 <= i < j < |list| ==> list[i] != list[j])
  }

  ghost predicate FreeLists(chunks: seq<Chunk>, data: seq<byte>, heads: seq<Link>, free: seq<seq<nat>>) {
    && |heads| == |free| == N_ORDERS
    && (forall k :: 0 <= k < N_ORDERS ==> FreeList(chunks, data, heads[k], free[k], k))
    && (forall c :: 0 <= c < |chunks| && !chunks[c].live ==> c in free[chunks[c].order])
  }

  ghost predicate LiveHeaders(chunks: seq<Chunk>, data: seq<byte>) {
    forall c :: 0 <= c < |chunks| && chunks[c].live ==>
                  ReadHeader(data, chunks[c].ptr) == Success(Occupied(chunks[c].order))
  }

  /** Bytes taken by live chunks, headers included. */
  ghost function LiveBytes(chunks: seq<Chunk>): nat {
    if chunks == [] then 0
    else
      var last := chunks[|chunks| - 1];
      LiveBytes(chunks[..|chunks| - 1]) + (if last.live then CellOf(last.order) else 0)
  }

  /** The heap invariant. */
  ghost predicate Represents(a: Allocator, m: Memory, l: Layout) {
    && m.WellFormed()
    && !a.poisoned
    && (l.chunks != [] ==> a.bumper <= m.Size())
    && a.lastObservedMemorySize <= m.Size()
    && Tiled(l.chunks, a.originalHeapBase, a.bumper)
    && FreeLists(l.chunks, m.data, a.heads, l.free)
    && LiveHeaders(l.chunks, m.data)
    && a.stats.bytesAllocated == LiveBytes(l.chunks)
    && a.stats.addressSpaceUsed == a.bumper - a.originalHeapBase
  }

  lemma ListOf(l: Layout, data: seq<byte>, heads: seq<Link>, k: Order)
    requires FreeLists(l.chunks, data, heads, l.free)
    ensures |heads| == |l.free| == N_ORDERS
    ensures FreeList(l.chunks, data, heads[k], l.free[k], k)
    ensures l.free[k] == [] <==> heads[k] == Nil
    ensures l.free[k] != [] ==> l.free[k][0] < |l.chunks| && heads[k] == Ptr(l.chunks[l.free[k][0]].ptr)
  {
    hide ReadHeader;
    assert FreeList(l.chunks, data, heads[k], l.free[k], k);
  }

  // ----- helpers on chunk sequences

  ghost function SetLive(chunks: seq<Chunk>, c: nat, live: bool): seq<Chunk>
    requires c < |chunks|
  {
    chunks[c := chunks[c].(live := live)]
  }

  lemma {:induction false} LiveBytesBound(chunks: seq<Chunk>, base: nat, bumper: nat)
    requires Tiled(chunks, base, bumper)
    ensures LiveBytes(chunks) <= bumper - base
  {
    hide CellOf;
    if chunks != [] {
      var n := |chunks| - 1;
      var init := chunks[..n];
      assert n > 0 ==> End(init[n - 1]) == chunks[n].ptr;
      LiveBytesBound(init, base, chunks[n].ptr);
    }
  }

  lemma {:induction false} LiveBytesFlip(chunks: seq<Chunk>, c: nat, live: bool)
    requires c < |chunks| && chunks[c].live != live
    ensures LiveBytes(SetLive(chunks, c, live)) ==
            LiveBytes(chunks) + (if live then CellOf(chunks[c].order) else 0 - CellOf(chunks[c].order))
  {
    var n := |chunks| - 1;
    var flipped := SetLive(chunks, c, live);
    if c < n {
      LiveBytesFlip(chunks[..n], c, live);
      assert flipped[..n] == SetLive(chunks[..n], c, live);
    } else {
      assert flipped[..n] == chunks[..n];
    }
  }

  lemma TiledAfterFlip(chunks: seq<Chunk>, base: nat, bumper: nat, c: nat, live: bool)
    requires Tiled(chunks, base, bumper) && c < |chunks|
    ensures Tiled(SetLive(chunks, c, live), base, bumper)
  {
    hide CellOf;
    var after := SetLive(chunks, c, live);
    assert forall i :: 0 <= i < |chunks| ==> after[i].ptr == chunks[i].ptr && End(after[i]) == End(chunks[i]);
  }

  lemma FreeListFrame(chunks: seq<Chunk>, data: seq<byte>, chunks': seq<Chunk>, data': seq<byte>,
                      head: Link, list: seq<nat>, k: nat)
    requires FreeList(chunks, data, head, list, k)
    requires |chunks| <= |chunks'|
    requires forall i :: 0 <= i < |list| ==>
                           && chunks'[list[i]] == chunks[list[i]]
                           && ReadHeader(data', chunks[list[i]].ptr) == ReadHeader(data, chunks[list[i]].ptr)
    ensures FreeList(chunks', data', head, list, k)
  {
    hide ReadHeader, CellOf;
    assert forall i: nat :: i <= |list| ==> LinkTo(chunks', list, i) == LinkTo(chunks, list, i);
  }

  /** Rewriting the header of chunk `c` does not disturb the header of any other chunk. */
  lemma OtherHeadersKept(chunks: seq<Chunk>, base: nat, bumper: nat, data: seq<byte>, c: nat, h: Header)
    requires Tiled(chunks, base, bumper) && bumper <= |data| && bumper < U32_LIMIT
    requires c < |chunks|
    ensures HeapRange(chunks[c].ptr, 8, |data|)
    ensures forall d :: 0 <= d < |chunks| && d != c ==>
                          ReadHeader(WriteHeader(data, chunks[c].ptr, h).value, chunks[d].ptr)
                          == ReadHeader(data, chunks[d].ptr)
  {
    CellFacts(chunks[c].order);
    forall d | 0 <= d < |chunks| && d != c
      ensures ReadHeader(WriteHeader(data, chunks[c].ptr, h).value, chunks[d].ptr) == ReadHeader(data, chunks[d].ptr)
    {
      CellFacts(chunks[d].order);
      WriteFrame(data, chunks[c].ptr, h, chunks[d].ptr);
    }
  }

  // ----- serving from a free list

  ghost function PopLayout(l: Layout, k: Order): Layout
    requires |l.free| == N_ORDERS && l.free[k] != [] && l.free[k][0] < |l.chunks|
  {
    Layout(SetLive(l.chunks, l.free[k][0], true), l.free[k := l.free[k][1..]])
  }

  /** Dropping the head of a free list leaves a free list that starts at the second entry. */
  lemma FreeListTail(chunks: seq<Chunk>, data: seq<byte>, head: Link, list: seq<nat>, k: nat)
    requires FreeList(chunks, data, head, list, k) && list != []
    ensures FreeList(chunks, data, LinkTo(chunks, list, 1), list[1..], k)
    ensures list[0] !in list[1..]
  {
    hide ReadHeader;
    var rest := list[1..];
    assert forall i: nat :: i <= |rest| ==> LinkTo(chunks, rest, i) == LinkTo(chunks, list, i + 1);
  }

  lemma PopKeepsFreeLists(l: Layout, data: seq<byte>, data': seq<byte>, heads: seq<Link>, k: Order)
    requires FreeLists(l.chunks, data, heads, l.free)
    requires l.free[k] != []
    requires forall d :: 0 <= d < |l.chunks| && d != l.free[k][0] ==>
                           ReadHeader(data', l.chunks[d].ptr) == ReadHeader(data, l.chunks[d].ptr)
    ensures FreeList(l.chunks, data, heads[k], l.free[k], k)
    ensures var l' := PopLayout(l, k);
            FreeLists(l'.chunks, data', heads[k := LinkTo(l.chunks, l.free[k], 1)], l'.free)
  {
    hide ReadHeader, FreeLists, FreeList;
    ListOf(l, data, heads, k);
    var l' := PopLayout(l, k);
    var next := LinkTo(l.chunks, l.free[k], 1);
    forall j: Order
      ensures FreeList(l'.chunks, data', heads[k := next][j], l'.free[j], j)
    {
      PopKeepsList(l, data, data', heads, k, j);
    }
    PopKeepsListed(l, data, heads, k);
    FreeListsFrom(l', data', heads[k := next]);
  }

  lemma FreeListsFrom(l: Layout, data: seq<byte>, heads: seq<Link>)
    requires |heads| == |l.free| == N_ORDERS
    requires forall j: Order :: FreeList(l.chunks, data, heads[j], l.free[j], j)
    requires forall c :: 0 <= c < |l.chunks| && !l.chunks[c].live ==> c in l.free[l.chunks[c].order]
    ensures FreeLists(l.chunks, data, heads, l.free)
  {
    hide FreeList;
  }

  lemma PopKeepsList(l: Layout, data: seq<byte>, data': seq<byte>, heads: seq<Link>, k: Order, j: Order)
    requires FreeLists(l.chunks, data, heads, l.free)
    requires l.free[k] != [] && l.free[k][0] < |l.chunks|
    requires forall d :: 0 <= d < |l.chunks| && d != l.free[k][0] ==>
                           ReadHeader(data', l.chunks[d].ptr) == ReadHeader(data, l.chunks[d].ptr)
    ensures var l' := PopLayout(l, k);
            FreeList(l'.chunks, data', heads[k := LinkTo(l.chunks, l.free[k], 1)][j], l'.free[j], j)
  {
    hide ReadHeader, FreeLists;
    ListOf(l, data, heads, k);
    var l' := PopLayout(l, k);
    if j == k {
      FreeListTail(l.chunks, data, heads[k], l.free[k], k);
      FreeListFrame(l.chunks, data, l'.chunks, data', LinkTo(l.chunks, l.free[k], 1), l.free[k][1..], k);
    } else {
      ListOf(l, data, heads, j);
      FreeListFrame(l.chunks, data, l'.chunks, data', heads[j], l.free[j], j);
    }
  }

  lemma PopKeepsListed(l: Layout, data: seq<byte>, heads: seq<Link>, k: Order)
    requires FreeLists(l.chunks, data, heads, l.free)
    requires l.free[k] != [] && l.free[k][0] < |l.chunks|
    ensures var l' := PopLayout(l, k);
            forall d :: 0 <= d < |l'.chunks| && !l'.chunks[d].live ==> d in l'.free[l'.chunks[d].order]
  {
    hide ReadHeader, FreeList;
    var l' := PopLayout(l, k);
    assert l.free[k] == [l.free[k][0]] + l.free[k][1..];
    forall d | 0 <= d < |l'.chunks| && !l'.chunks[d].live
      ensures d in l'.free[l'.chunks[d].order]
    {
      assert d in l.free[l.chunks[d].order];
    }
  }

  lemma PopComputes(a: Allocator, m: Memory, k: Order, grant: bool, p: u32, next: Link)
    requires m.WellFormed() && |a.heads| == N_ORDERS && a.heads[k] == Ptr(p)
    requires p + CellOf(k) <= m.Size() && HeapRange(p, 8, |m.data|)
    requires ReadHeader(m.data, p) == Success(Free(next))
    ensures Serve(a, m, k, grant)
            == Outcome(CountAllocation(a.(heads := a.heads[k := next]), k),
                       m.(data := WriteHeader(m.data, p, Occupied(k)).value),
                       Success(p + 8))
  {
    hide ReadHeader, WriteHeader, CountAllocation;
  }

  /** What serving chunk `c` of the free list does to the chunks and their headers. */
  lemma PopKeepsLayout(a: Allocator, m: Memory, l: Layout, k: Order)
    requires Represents(a, m, l) && l.free[k] != []
    ensures l.free[k][0] < |l.chunks| && |a.heads| == |l.free| == N_ORDERS
    ensures FreeList(l.chunks, m.data, a.heads[k], l.free[k], k)
    ensures var c := l.free[k][0];
            var p := l.chunks[c].ptr;
            var l' := PopLayout(l, k);
            && HeapRange(p, 8, |m.data|) && p + CellOf(k) <= a.bumper
            && var data' := WriteHeader(m.data, p, Occupied(k)).value;
            && Tiled(l'.chunks, a.originalHeapBase, a.bumper)
            && FreeLists(l'.chunks, data', a.heads[k := LinkTo(l.chunks, l.free[k], 1)], l'.free)
            && LiveHeaders(l'.chunks, data')
            && LiveBytes(l'.chunks) == LiveBytes(l.chunks) + CellOf(k) <= a.bumper - a.originalHeapBase
  {
    hide ReadHeader, WriteHeader, CellOf, LiveBytes;
    assert FreeList(l.chunks, m.data, a.heads[k], l.free[k], k);
    var c := l.free[k][0];
    var p := l.chunks[c].ptr;
    var l' := PopLayout(l, k);
    OtherHeadersKept(l.chunks, a.originalHeapBase, a.bumper, m.data, c, Occupied(k));
    WriteThenRead(m.data, p, Occupied(k));
    TiledAfterFlip(l.chunks, a.originalHeapBase, a.bumper, c, true);
    LiveBytesFlip(l.chunks, c, true);
    LiveBytesBound(l'.chunks, a.originalHeapBase, a.bumper);
    PopKeepsFreeLists(l, m.data, WriteHeader(m.data, p, Occupied(k)).value, a.heads, k);
  }

  lemma ServeFromFreeList(a: Allocator, m: Memory, l: Layout, k: Order, grant: bool)
    requires Represents(a, m, l) && l.free[k] != []
    ensures l.free[k][0] < |l.chunks|
    ensures var o := Serve(a, m, k, grant);
            && o.result == Success(l.chunks[l.free[k][0]].ptr + 8)
            && Represents(o.alloc, o.memory, PopLayout(l, k))
            && o.alloc.bumper == a.bumper
            && o.alloc.stats.bytesAllocated == a.stats.bytesAllocated + CellOf(k)
            && o.alloc.stats.bytesAllocatedPeak
               == Max(a.stats.bytesAllocatedPeak, a.stats.bytesAllocated + CellOf(k))
            && o.alloc.stats.bytesAllocatedSum == a.stats.bytesAllocatedSum + CellOf(k)
  {
    hide ReadHeader, WriteHeader, CellOf, LiveBytes, Serve, LiveHeaders, FreeLists, Tiled, Wrap;
    PopKeepsLayout(a, m, l, k);
    WrapInRange(a.stats.bytesAllocated + CellOf(k));
    WrapInRange(a.bumper - a.originalHeapBase);
    PopComputes(a, m, k, grant, l.chunks[l.free[k][0]].ptr, LinkTo(l.chunks, l.free[k], 1));
  }

  // ----- serving from the bumper

  ghost function PushLayout(l: Layout, bumper: u32, k: Order): Layout {
    Layout(l.chunks + [Chunk(bumper, k, true)], l.free)
  }

  lemma TiledAfterPush(chunks: seq<Chunk>, base: nat, bumper: u32, k: Order)
    requires Tiled(chunks, base, bumper)
    ensures Tiled(chunks + [Chunk(bumper, k, true)], base, bumper + CellOf(k))
  {
    hide CellOf;
    CellFacts(k);
    var longer := chunks + [Chunk(bumper, k, true)];
    assert forall i :: 0 <= i < |chunks| ==> longer[i] == chunks[i];
    assert longer[|chunks|] == Chunk(bumper, k, true);
    assert chunks == [] ==> longer[0].ptr == base;
    if chunks != [] {
      CellFacts(chunks[|chunks| - 1].order);
    }
  }

  lemma PushKeepsHeaders(l: Layout, a: Allocator, data: seq<byte>, data': seq<byte>, k: Order)
    requires FreeLists(l.chunks, data, a.heads, l.free) && LiveHeaders(l.chunks, data)
    requires forall d :: 0 <= d < |l.chunks| ==>
                           ReadHeader(data', l.chunks[d].ptr) == ReadHeader(data, l.chunks[d].ptr)
    requires ReadHeader(data', a.bumper) == Success(Occupied(k))
    ensures var l' := PushLayout(l, a.bumper, k);
            FreeLists(l'.chunks, data', a.heads, l'.free) && LiveHeaders(l'.chunks, data')
  {
    hide ReadHeader, CellOf;
    var l' := PushLayout(l, a.bumper, k);
    forall j | 0 <= j < N_ORDERS
      ensures FreeList(l'.chunks, data', a.heads[j], l.free[j], j)
    {
      assert FreeList(l.chunks, data, a.heads[j], l.free[j], j);
      FreeListFrame(l.chunks, data, l'.chunks, data', a.heads[j], l.free[j], j);
    }
  }

  lemma BumpComputes(a: Allocator, m: Memory, k: Order, grant: bool)
    requires m.WellFormed() && |a.heads| == N_ORDERS && a.heads[k] == Nil
    ensures Serve(a, m, k, grant).result.Success? <==>
            a.bumper + CellOf(k) <= m.Size() || (grant && a.bumper + CellOf(k) <= m.Limit() * PAGE_SIZE)
    ensures Serve(a, m, k, grant).result.Failure? ==> Serve(a, m, k, grant).result.error == AllocatorOutOfSpace
    ensures Serve(a, m, k, grant).result.Success? ==>
              var grown := Bump(a.bumper, CellOf(k), m, grant).2;
              && HeapRange(a.bumper, 8, |grown.data|)
              && Serve(a, m, k, grant)
                 == Outcome(CountAllocation(a.(bumper := Wrap(a.bumper + CellOf(k))), k),
                            grown.(data := WriteHeader(grown.data, a.bumper, Occupied(k)).value),
                            Success(a.bumper + 8))
  {
    hide ReadHeader, WriteHeader, CountAllocation, SizeOf;
    CellFacts(k);
    BumpGrowthIsSound(a.bumper, CellOf(k), m, grant);
  }

  /** Headers of existing chunks read the same in grown memory with a new header at the bumper. */
  lemma OldHeadersKept(chunks: seq<Chunk>, base: nat, bumper: u32, data: seq<byte>, grown: seq<byte>, h: Header)
    requires Tiled(chunks, base, bumper) && data <= grown
    requires chunks != [] ==> bumper <= |data|
    requires HeapRange(bumper, 8, |grown|)
    ensures forall d :: 0 <= d < |chunks| ==>
                          ReadHeader(WriteHeader(grown, bumper, h).value, chunks[d].ptr) ==
                              ReadHeader(data, chunks[d].ptr)
  {
    forall d | 0 <= d < |chunks|
      ensures ReadHeader(WriteHeader(grown, bumper, h).value, chunks[d].ptr) == ReadHeader(data, chunks[d].ptr)
    {
      hide ReadHeader, WriteHeader, CellOf;
      CellFacts(chunks[d].order);
      ReadDependsOnEightBytes(data, grown, chunks[d].ptr);
      WriteFrame(grown, bumper, h, chunks[d].ptr);
    }
  }

  lemma ServeFromBumper(a: Allocator, m: Memory, l: Layout, k: Order, grant: bool)
    requires Represents(a, m, l) && l.free[k] == []
    requires a.bumper + CellOf(k) < U32_LIMIT
    requires a.bumper + CellOf(k) <= m.Size() || (grant && a.bumper + CellOf(k) <= m.Limit() * PAGE_SIZE)
    ensures var o := Serve(a, m, k, grant);
            && o.result == Success(a.bumper + 8)
            && Represents(o.alloc, o.memory, PushLayout(l, a.bumper, k))
            && o.alloc.bumper == a.bumper + CellOf(k)
            && o.alloc.stats.bytesAllocated == a.stats.bytesAllocated + CellOf(k)
            && o.alloc.stats.bytesAllocatedPeak
               == Max(a.stats.bytesAllocatedPeak, a.stats.bytesAllocated + CellOf(k))
            && o.alloc.stats.bytesAllocatedSum == a.stats.bytesAllocatedSum + CellOf(k)
  {
    hide ReadHeader, WriteHeader, CellOf, Serve, LiveHeaders, FreeLists, Tiled, Bump, Wrap;
    ListOf(l, m.data, a.heads, k);
    CellFacts(k);
    BumpGrowthIsSound(a.bumper, CellOf(k), m, grant);
    BumpComputes(a, m, k, grant);
    var grown := Bump(a.bumper, CellOf(k), m, grant).2;
    WriteThenRead(grown.data, a.bumper, Occupied(k));
    OldHeadersKept(l.chunks, a.originalHeapBase, a.bumper, m.data, grown.data, Occupied(k));
    PushKeepsHeaders(l, a, m.data, WriteHeader(grown.data, a.bumper, Occupied(k)).value, k);
    TiledAfterPush(l.chunks, a.originalHeapBase, a.bumper, k);
    assert PushLayout(l, a.bumper, k).chunks[..|l.chunks|] == l.chunks;
    LiveBytesBound(l.chunks, a.originalHeapBase, a.bumper);
    WrapInRange(a.bumper + CellOf(k));
    WrapInRange(a.stats.bytesAllocated + CellOf(k));
    WrapInRange(a.bumper + CellOf(k) - a.originalHeapBase);
  }

  // ----- deallocation

  ghost function FreeLayout(l: Layout, c: nat): Layout
    requires |l.free| == N_ORDERS && c < |l.chunks|
  {
    var k := l.chunks[c].order;
    Layout(SetLive(l.chunks, c, false), l.free[k := [c] + l.free[k]])
  }

  lemma FreeKeepsFreeLists(l: Layout, data: seq<byte>, data': seq<byte>, heads: seq<Link>, c: nat)
    requires FreeLists(l.chunks, data, heads, l.free)
    requires c < |l.chunks| && l.chunks[c].live
    requires forall d :: 0 <= d < |l.chunks| && d != c ==>
                           ReadHeader(data', l.chunks[d].ptr) == ReadHeader(data, l.chunks[d].ptr)
    requires ReadHeader(data', l.chunks[c].ptr) == Success(Free(heads[l.chunks[c].order]))
    ensures var l' := FreeLayout(l, c);
            FreeLists(l'.chunks, data', heads[l.chunks[c].order := Ptr(l.chunks[c].ptr)], l'.free)
  {
    hide ReadHeader, FreeLists;
    var k := l.chunks[c].order;
    ListOf(l, data, heads, k);
    var l' := FreeLayout(l, c);
    forall j: Order
      ensures FreeList(l'.chunks, data', heads[j], l.free[j], j) && c !in l.free[j]
    {
      ListOf(l, data, heads, j);
      FreeListFrame(l.chunks, data, l'.chunks, data', heads[j], l.free[j], j);
    }
    FreeListCons(l'.chunks, data', heads[k], l.free[k], c);
    FreeKeepsListed(l, data, heads, c);
    FreeListsFrom(l', data', heads[k := Ptr(l.chunks[c].ptr)]);
  }

  /** Putting a chunk whose header links to the old head in front makes a free list again. */
  lemma FreeListCons(chunks: seq<Chunk>, data: seq<byte>, head: Link, list: seq<nat>, c: nat)
    requires c < |chunks| && !chunks[c].live && c !in list
    requires FreeList(chunks, data, head, list, chunks[c].order)
    requires ReadHeader(data, chunks[c].ptr) == Success(Free(head))
    ensures FreeList(chunks, data, Ptr(chunks[c].ptr), [c] + list, chunks[c].order)
  {
    hide ReadHeader;
    assert forall i: nat :: LinkTo(chunks, [c] + list, i + 1) == LinkTo(chunks, list, i);
  }

  lemma FreeKeepsListed(l: Layout, data: seq<byte>, heads: seq<Link>, c: nat)
    requires FreeLists(l.chunks, data, heads, l.free) && c < |l.chunks|
    ensures var l' := FreeLayout(l, c);
            forall d :: 0 <= d < |l'.chunks| && !l'.chunks[d].live ==> d in l'.free[l'.chunks[d].order]
  {
    hide ReadHeader, FreeList;
    var l' := FreeLayout(l, c);
    forall d | 0 <= d < |l'.chunks| && !l'.chunks[d].live
      ensures d in l'.free[l'.chunks[d].order]
    {
      assert d == c || d in l.free[l.chunks[d].order];
    }
  }

  lemma FreeComputes(a: Allocator, m: Memory, p: u32, k: Order)
    requires m.WellFormed() && |a.heads| == N_ORDERS && !a.poisoned && a.lastObservedMemorySize <= m.Size()
    requires HeapRange(p, 8, |m.data|) && ReadHeader(m.data, p) == Success(Occupied(k))
    requires CellOf(k) <= a.stats.bytesAllocated
    ensures Deallocate(a, m, p + 8)
            == Outcome(a.(lastObservedMemorySize := m.Size(),
                       heads := a.heads[k := Ptr(p)],
                       stats := a.stats.(bytesAllocated := a.stats.bytesAllocated - CellOf(k))),
                       m.(data := WriteHeader(m.data, p, Free(a.heads[k])).value),
                       Success(()))
  {
    hide ReadHeader, WriteHeader, CellOf;
  }

  lemma FreeKeepsLayout(a: Allocator, m: Memory, l: Layout, c: nat)
    requires Represents(a, m, l) && c < |l.chunks| && l.chunks[c].live
    ensures |a.heads| == |l.free| == N_ORDERS &&
            ReadHeader(m.data, l.chunks[c].ptr) == Success(Occupied(l.chunks[c].order))
    ensures var k := l.chunks[c].order;
            var p := l.chunks[c].ptr;
            var l' := FreeLayout(l, c);
            && HeapRange(p, 8, |m.data|)
            && var data' := WriteHeader(m.data, p, Free(a.heads[k])).value;
            && Tiled(l'.chunks, a.originalHeapBase, a.bumper)
            && FreeLists(l'.chunks, data', a.heads[k := Ptr(p)], l'.free)
            && LiveHeaders(l'.chunks, data')
            && LiveBytes(l'.chunks) + CellOf(k) == LiveBytes(l.chunks)
  {
    hide ReadHeader, WriteHeader, CellOf, LiveBytes;
    var k := l.chunks[c].order;
    var p := l.chunks[c].ptr;
    assert FreeList(l.chunks, m.data, a.heads[k], l.free[k], k);
    assert a.heads[k] != Ptr(NIL_MARKER);
    OtherHeadersKept(l.chunks, a.originalHeapBase, a.bumper, m.data, c, Free(a.heads[k]));
    WriteThenRead(m.data, p, Free(a.heads[k]));
    TiledAfterFlip(l.chunks, a.originalHeapBase, a.bumper, c, false);
    LiveBytesFlip(l.chunks, c, false);
    FreeKeepsFreeLists(l, m.data, WriteHeader(m.data, p, Free(a.heads[k])).value, a.heads, c);
  }

  /** Freeing a chunk succeeds exactly when the chunk is live, and then keeps the invariant. */
  lemma DeallocateKeepsHeap(a: Allocator, m: Memory, l: Layout, c: nat, ptr: u32)
    requires Represents(a, m, l) && c < |l.chunks| && ptr == l.chunks[c].ptr + 8
    ensures var o := Deallocate(a, m, ptr);
            && (o.result.Success? <==> l.chunks[c].live)
            && (o.result.Failure? ==> o.result.error == Other("the allocation points to an empty header"))
            && (o.result.Success? ==> Represents(o.alloc, o.memory, FreeLayout(l, c)))
            && (o.result.Success? ==> o.alloc.bumper == a.bumper)
            && (o.result.Success? ==> o.alloc.stats.bytesAllocatedPeak == a.stats.bytesAllocatedPeak)
            && (o.result.Success? ==> o.alloc.stats.bytesAllocatedSum == a.stats.bytesAllocatedSum)
  {
    hide ReadHeader, CellOf, LiveBytes, Deallocate, Tiled, LiveHeaders;
    var k := l.chunks[c].order;
    if l.chunks[c].live {
      FreeLiveChunk(a, m, l, c, ptr);
    } else {
      assert FreeList(l.chunks, m.data, a.heads[k], l.free[k], k);
      var i :| 0 <= i < |l.free[k]| && l.free[k][i] == c;
      DoubleFreeIsRefused(a, m, l.chunks[c].ptr, LinkTo(l.chunks, l.free[k], i + 1));
    }
  }

  lemma DoubleFreeIsRefused(a: Allocator, m: Memory, p: u32, link: Link)
    requires m.WellFormed() && |a.heads| == N_ORDERS
    requires !a.poisoned && a.lastObservedMemorySize <= m.Size()
    requires p + 8 < U32_LIMIT && ReadHeader(m.data, p) == Success(Free(link))
    ensures Deallocate(a, m, p + 8).result == Failure(Other("the allocation points to an empty header"))
  {
  }

  lemma FreeLiveChunk(a: Allocator, m: Memory, l: Layout, c: nat, ptr: u32)
    requires Represents(a, m, l) && c < |l.chunks| && l.chunks[c].live
    requires ptr == l.chunks[c].ptr + 8
    ensures var o := Deallocate(a, m, ptr);
            && o.result.Success?
            && Represents(o.alloc, o.memory, FreeLayout(l, c))
            && o.alloc.bumper == a.bumper
            && o.alloc.stats.bytesAllocatedPeak == a.stats.bytesAllocatedPeak
            && o.alloc.stats.bytesAllocatedSum == a.stats.bytesAllocatedSum
  {
    hide ReadHeader, WriteHeader, CellOf, LiveBytes, Deallocate, LiveHeaders, FreeLists, Tiled;
    FreeKeepsLayout(a, m, l, c);
    FreeComputes(a, m, l.chunks[c].ptr, l.chunks[c].order);
  }

  // ----- allocation

  ghost function OrderOf(size: u32): Order
    requires size <= MAX_POSSIBLE_ALLOCATION
  {
    OrderFromSizeIsLeast(size);
    OrderFromSize(size).value
  }

  /** A request can be served: small enough, and either a free chunk of its order or room to bump. */
  ghost predicate CanServe(a: Allocator, m: Memory, l: Layout, size: u32, grant: bool)
    requires |l.free| == N_ORDERS
  {
    && size <= MAX_POSSIBLE_ALLOCATION
    && (|| l.free[OrderOf(size)] != []
        || a.bumper + CellOf(OrderOf(size)) <= m.Size()
        || (grant && a.bumper + CellOf(OrderOf(size)) <= m.Limit() * PAGE_SIZE))
  }

  /** The request would move the bumper to 2^32, which the 32-bit field cannot hold. */
  ghost predicate BumperOverflows(a: Allocator, l: Layout, size: u32)
    requires |l.free| == N_ORDERS && size <= MAX_POSSIBLE_ALLOCATION
  {
    l.free[OrderOf(size)] == [] && a.bumper + CellOf(OrderOf(size)) >= U32_LIMIT
  }

  ghost function AllocateLayout(a: Allocator, l: Layout, k: Order): Layout
    requires |l.free| == N_ORDERS && (l.free[k] != [] ==> l.free[k][0] < |l.chunks|)
  {
    if l.free[k] != [] then PopLayout(l, k) else PushLayout(l, a.bumper, k)
  }

  ghost predicate IsLiveBlock(l: Layout, ptr: nat, k: int) {
    exists c :: 0 <= c < |l.chunks| && l.chunks[c].ptr + 8 == ptr && l.chunks[c].order == k && l.chunks[c].live
  }

  /** An allocation fails exactly when the request cannot be served; otherwise, short of the one
      overflow case, the new state represents the layout with the returned block live in it. */
  lemma AllocateKeepsHeap(a: Allocator, m: Memory, l: Layout, size: u32, grant: bool)
    requires Represents(a, m, l)
    ensures Allocate(a, m, size, grant).result.Success? <==> CanServe(a, m, l, size, grant)
    ensures !CanServe(a, m, l, size, grant) ==>
              Allocate(a, m, size, grant).result ==
              Failure(if size > 33554432 then RequestedAllocationTooLarge else AllocatorOutOfSpace)
    ensures CanServe(a, m, l, size, grant) && !BumperOverflows(a, l, size) ==>
              var o := Allocate(a, m, size, grant);
              var k := OrderOf(size);
              && (l.free[k] != [] ==> l.free[k][0] < |l.chunks|)
              && Represents(o.alloc, o.memory, AllocateLayout(a, l, k))
              && IsLiveBlock(AllocateLayout(a, l, k), o.result.value, k)
              && o.result.value == (if l.free[k] != [] then l.chunks[l.free[k][0]].ptr else a.bumper) + 8
              && o.alloc.bumper == (if l.free[k] != [] then a.bumper else a.bumper + CellOf(k))
              && o.alloc.stats.bytesAllocated == a.stats.bytesAllocated + CellOf(k)
              && o.alloc.stats.bytesAllocatedPeak
                 == Max(a.stats.bytesAllocatedPeak, a.stats.bytesAllocated + CellOf(k))
              && o.alloc.stats.bytesAllocatedSum == a.stats.bytesAllocatedSum + CellOf(k)
  {
    hide ReadHeader, Serve, CellOf, Tiled, LiveHeaders, LiveBytes;
    OrderFromSizeIsLeast(size);
    if size <= MAX_POSSIBLE_ALLOCATION {
      var k := OrderOf(size);
      var a1 := a.(lastObservedMemorySize := m.Size());
      assert Represents(a1, m, l);
      assert FreeList(l.chunks, m.data, a.heads[k], l.free[k], k);
      if l.free[k] != [] {
        ServeFromFreeList(a1, m, l, k, grant);
        assert AllocateLayout(a, l, k).chunks[l.free[k][0]].live;
      } else {
        BumpComputes(a1, m, k, grant);
        if CanServe(a, m, l, size, grant) && !BumperOverflows(a, l, size) {
          ServeFromBumper(a1, m, l, k, grant);
          assert AllocateLayout(a, l, k).chunks[|l.chunks|].live;
        }
      }
    }
  }

  /** The block freed last is the one the next request of its order gets. */
  lemma FreedIsReused(a: Allocator, m: Memory, l: Layout, c: nat, ptr: u32, size: u32, grant: bool)
    requires Represents(a, m, l) && |a.heads| == |l.free| == N_ORDERS
    requires c < |l.chunks| && l.chunks[c].live && ptr == l.chunks[c].ptr + 8
    requires size <= MAX_POSSIBLE_ALLOCATION && OrderOf(size) == l.chunks[c].order
    ensures var freed := Deallocate(a, m, ptr);
            && |freed.alloc.heads| == N_ORDERS
            && Allocate(freed.alloc, freed.memory, size, grant).result == Success(ptr)
  {
    hide Allocate, Deallocate, Tiled, FreeLists, LiveHeaders, LiveBytes;
    DeallocateKeepsHeap(a, m, l, c, ptr);
    var freed := Deallocate(a, m, ptr);
    AllocateKeepsHeap(freed.alloc, freed.memory, FreeLayout(l, c), size, grant);
  }

  /** The overflow case: a successful allocation leaves a state in which no layout at all
      holds the block it just returned. Together with AllocateKeepsHeap this makes
      `!BumperOverflows` the exact condition for the invariant to be kept. */
  lemma OverflowLosesTheBlock(a: Allocator, m: Memory, l: Layout, size: u32, grant: bool, after: Layout)
    requires Represents(a, m, l) && CanServe(a, m, l, size, grant) && BumperOverflows(a, l, size)
    ensures var o := Allocate(a, m, size, grant);
            && o.result.Success?
            && o.alloc.bumper == 0
            && !(Represents(o.alloc, o.memory, after) && IsLiveBlock(after, o.result.value, OrderOf(size)))
  {
    hide ReadHeader, Serve, CellOf;
    OrderFromSizeIsLeast(size);
    var k := OrderOf(size);
    CellFacts(k);
    assert FreeList(l.chunks, m.data, a.heads[k], l.free[k], k);
    BumpComputes(a.(lastObservedMemorySize := m.Size()), m, k, grant);
    assert a.bumper + CellOf(k) == U32_LIMIT;
  }

  /** The overflow case happens: a heap based 24 bytes below 2^32 and a request for 16 bytes. */
  lemma OverflowHappens()
    ensures var a, m := New(0xFFFF_FFE8), Memory([], 0, None);
            var l := Layout([], seq(N_ORDERS, _ => []));
            Represents(a, m, l) && CanServe(a, m, l, 16, true) && BumperOverflows(a, l, 16)
  {
    CellOfSixteen();
    hide OrderOf, CellOf, Pow2;
  }

  lemma CellOfSixteen()
    ensures CellOf(OrderOf(16)) == 24
  {
    OrderFromSizeIsLeast(16);
    assert SizeOf(0) == 8 && SizeOf(1) == 16;
    Pow2Monotone(1, OrderOf(16));
  }
}
