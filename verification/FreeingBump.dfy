/**
 The freeing-bump allocator: what each call computes, on values.

 Arithmetic on 32-bit fields wraps, as in a release build. Whether the host
 grants a request to grow is the parameter `grant`.
 */
module FreeingBump {
  import opened Wrappers
  import opened LinearMemory

  const ALIGNMENT: nat := 8
  const MIN_POSSIBLE_ALLOCATION: nat := 8
  const MAX_POSSIBLE_ALLOCATION: nat := 33554432

  function Wrap(x: int): u32 {
    x % U32_LIMIT
  }

  lemma WrapInRange(x: int)
    requires 0 <= x < U32_LIMIT
    ensures Wrap(x) == x
  {
  }

  function Max(a: int, b: int): int { if a < b then b else a }

  function Min(a: int, b: int): int { if a < b then a else b }

  // ----- orders

  function Pow2(n: nat): (p: nat)
    ensures p >= 1
  {
    if n == 0 then 1 else 2 * Pow2(n - 1)
  }

  /** The payload size of an order: the minimal size shifted left by the order. */
  function SizeOf(order: nat): nat {
    MIN_POSSIBLE_ALLOCATION * Pow2(order)
  }

  /** The bytes a chunk of this order takes, header included. */
  function CellOf(order: nat): nat {
    SizeOf(order) + HEADER_SIZE
  }

  /** The smallest power of two at least `n`, searching upwards from `p`. */
  function NextPowerOfTwo(n: nat, p: nat): (r: nat)
    requires p >= 1
    ensures r >= n && r >= 1
    decreases n - p
  {
    if p >= n then p else NextPowerOfTwo(n, 2 * p)
  }

  function TrailingZeros(n: nat): nat
    requires n >= 1
  {
    if n % 2 == 1 then 0 else 1 + TrailingZeros(n / 2)
  }

  function OrderFromSize(size: u32): Result<int, Error> {
    if size > MAX_POSSIBLE_ALLOCATION then
      Failure(RequestedAllocationTooLarge)
    else
      var clamped := if size < MIN_POSSIBLE_ALLOCATION then MIN_POSSIBLE_ALLOCATION else size;
      Success(TrailingZeros(NextPowerOfTwo(clamped, 1)) - TrailingZeros(MIN_POSSIBLE_ALLOCATION))
  }

  lemma {:induction false} TrailingZerosOfPow2(n: nat)
    ensures TrailingZeros(Pow2(n)) == n
  {
    if n > 0 {
      TrailingZerosOfPow2(n - 1);
    }
  }

  lemma {:induction false} Pow2Monotone(a: nat, b: nat)
    requires a <= b
    ensures Pow2(a) <= Pow2(b)
    decreases b
  {
    if a < b {
      Pow2Monotone(a, b - 1);
    }
  }

  /** The search stops at the first power of two that is large enough. */
  lemma {:induction false} NextPowerOfTwoIsLeast(n: nat, j: nat) returns (k: nat)
    requires j == 0 || Pow2(j - 1) < n
    ensures k >= j && NextPowerOfTwo(n, Pow2(j)) == Pow2(k)
    ensures n <= Pow2(k)
    ensures k == 0 || Pow2(k - 1) < n
    decreases n - Pow2(j)
  {
    if Pow2(j) >= n {
      k := j;
    } else {
      k := NextPowerOfTwoIsLeast(n, j + 1);
    }
  }

  /** A request gets the smallest order that holds it; it is refused exactly when above 32 MiB. */
  lemma OrderFromSizeIsLeast(size: u32)
    ensures OrderFromSize(size).Success? <==> size <= 33554432
    ensures OrderFromSize(size).Failure? ==> OrderFromSize(size).error == RequestedAllocationTooLarge
    ensures OrderFromSize(size).Success? ==>
              var k := OrderFromSize(size).value;
              && 0 <= k < 23
              && size <= 8 * Pow2(k)
              && (k == 0 || 8 * Pow2(k - 1) < size)
  {
    hide NextPowerOfTwo, TrailingZeros, Pow2;
    if size <= MAX_POSSIBLE_ALLOCATION {
      var clamped := if size < MIN_POSSIBLE_ALLOCATION then MIN_POSSIBLE_ALLOCATION else size;
      var k := LeastPower(clamped);
      Pow2Values();
      TrailingZerosOfPow2(k);
      TrailingZerosOfPow2(3);
      EightTimesPow2(k - 3);
      if k > 3 {
        EightTimesPow2(k - 4);
      }
    }
  }

  lemma LeastPower(n: nat) returns (k: nat)
    requires 8 <= n <= 33554432
    ensures 3 <= k <= 25 && NextPowerOfTwo(n, 1) == Pow2(k) && n <= Pow2(k)
    ensures k > 3 ==> Pow2(k - 1) < n
  {
    Pow2Values();
    assert Pow2(0) == 1;
    k := NextPowerOfTwoIsLeast(n, 0);
    hide NextPowerOfTwo;
    if k < 3 {
      Pow2Monotone(k, 2);
    }
    if k > 25 {
      Pow2Monotone(25, k - 1);
    }
  }

  lemma EightTimesPow2(n: nat)
    ensures 8 * Pow2(n) == Pow2(n + 3)
  {
    assert Pow2(n + 2) == 2 * Pow2(n + 1);
  }

  lemma CellFacts(order: nat)
    ensures CellOf(order) % 8 == 0
    ensures CellOf(order) >= 16
    ensures order < N_ORDERS ==> CellOf(order) <= MAX_POSSIBLE_ALLOCATION + 8
  {
    assert CellOf(order) == 8 * (Pow2(order) + 1);
    if order < N_ORDERS {
      Pow2Monotone(order, 22);
      Pow2Values();
    }
  }

  lemma Pow2Values()
    ensures Pow2(2) == 4 && Pow2(3) == 8 && Pow2(22) == 4194304 && Pow2(25) == 33554432
  {
    assert Pow2(12) == 4096;
  }

  // ----- allocator state

  datatype Stats = Stats(bytesAllocated: u32, bytesAllocatedPeak: u32, bytesAllocatedSum: nat, addressSpaceUsed: u32)

  datatype Allocator = Allocator(
    originalHeapBase: u32,
    bumper: u32,
    heads: seq<Link>,
    poisoned: bool,
    lastObservedMemorySize: nat,
    stats: Stats)

  datatype Outcome<T> = Outcome(alloc: Allocator, memory: Memory, result: Result<T, Error>)

  function DivCeil(a: nat, b: nat): nat
    requires b > 0
  {
    (a + b - 1) / b
  }

  function AlignedHeapBase(heapBase: u32): u32 {
    Wrap(DivCeil(heapBase, ALIGNMENT) * ALIGNMENT)
  }

  function New(heapBase: u32): Allocator {
    var aligned := AlignedHeapBase(heapBase);
    Allocator(aligned, aligned, seq(N_ORDERS, _ => Nil), false, 0, Stats(0, 0, 0, 0))
  }

  function PagesFromSize(size: nat): Option<nat> {
    var pages := DivCeil(size, PAGE_SIZE);
    if pages < U32_LIMIT then Some(pages) else None
  }

  /** Takes `size` bytes at the bumper, growing the memory when they do not fit. */
  function Bump(bumper: u32, size: u32, m: Memory, grant: bool): (r: (Result<u32, Error>, u32, Memory))
    requires m.WellFormed()
  {
    var required := bumper + size;
    if required > m.Size() then
      var pages := PagesFromSize(required);
      if pages.None? then
        (Failure(AllocatorOutOfSpace), bumper, m)
      else if m.pages >= m.Limit() || pages.value > m.Limit() then
        (Failure(AllocatorOutOfSpace), bumper, m)
      else
        var nextPages := Max(Min(m.pages * 2, m.Limit()), pages.value);
        PagesCover(required, m.pages);
        if !grant then
          (Failure(AllocatorOutOfSpace), bumper, m)
        else
          (Success(bumper), Wrap(bumper + size), m.Grow(nextPages - m.pages))
    else
      (Success(bumper), Wrap(bumper + size), m)
  }

  /** Memory that grew reached its limit or at least doubled, and passed the double only where one page less
      would not hold the bytes it grew for. */
  ghost predicate GrewEnough(m: Memory, m': Memory, required: nat) {
    && (m'.pages == (if m.maxPages.Some? then m.maxPages.value else 65536) || m'.pages >= 2 * m.pages)
    && (m'.pages > 2 * m.pages ==> (m'.pages - 1) * 65536 < required)
  }

  /** A bump succeeds exactly when the request fits the limit and the host plays along; it grows only
      when needed, then by doubling or as far as needed or allowed, keeps every existing byte and adds
      zeros. */
  lemma BumpGrowthIsSound(bumper: u32, size: u32, m: Memory, grant: bool)
    requires m.WellFormed()
    ensures var (r, bumper', m') := Bump(bumper, size, m, grant);
            var limit := if m.maxPages.Some? then m.maxPages.value else 65536;
            && (r.Success? <==> bumper + size <= m.pages * 65536 || (grant && bumper + size <= limit * 65536))
            && m'.pages <= limit
            && (r.Success? ==> r.value == bumper && bumper' == Wrap(bumper + size))
            && (r.Failure? ==> r.error == AllocatorOutOfSpace && bumper' == bumper && m' == m)
            && m'.WellFormed() && m'.maxPages == m.maxPages
            && m.data <= m'.data
            && (r.Success? ==> bumper + size <= m'.Size())
            && (m'.pages > m.pages <==> r.Success? && bumper + size > m.Size())
            && (m'.pages == m.pages <==> m' == m)
            && (m'.pages > m.pages ==> GrewEnough(m, m', bumper + size))
            && (forall i :: m.Size() <= i < m'.Size() ==> m'.data[i] == 0)
  {
    var required := bumper + size;
    PagesCover(required, m.Limit());
    if required > m.Size() {
      PagesCover(required, m.pages);
    }
  }

  /** `n` pages hold `size` bytes exactly when the page count of `size` is at most `n`. */
  lemma PagesCover(size: nat, n: nat)
    ensures DivCeil(size, PAGE_SIZE) <= n <==> size <= n * PAGE_SIZE
  {
  }

  /** What every error return does: the guard left armed poisons the allocator. */
  function Poison<T>(a: Allocator, m: Memory, e: Error): Outcome<T> {
    Outcome(a.(poisoned := true), m, Failure(e))
  }

  /** The header a request is served from: popped from the order's free list, or bumped. */
  function Reserve(a: Allocator, m: Memory, order: Order, grant: bool): (o: Outcome<u32>)
    requires m.WellFormed() && |a.heads| == N_ORDERS
    ensures o.memory.WellFormed() && |o.alloc.heads| == N_ORDERS
  {
    match a.heads[order]
    case Ptr(p) =>
      if p + SizeOf(order) + HEADER_SIZE > m.Size() then
        Outcome(a, m, Failure(Other("Invalid header pointer detected")))
      else
        var header := ReadHeader(m.data, p);
        if header.Failure? then
          Outcome(a, m, Failure(header.error))
        else if !header.value.Free? then
          Outcome(a, m, Failure(Other("free list points to a occupied header")))
        else
          Outcome(a.(heads := a.heads[order := header.value.link]), m, Success(p))
    case Nil =>
      CellFacts(order);
      BumpGrowthIsSound(a.bumper, CellOf(order), m, grant);
      var (r, bumper', m') := Bump(a.bumper, CellOf(order), m, grant);
      Outcome(a.(bumper := bumper'), m', r)
  }

  function CountAllocation(a: Allocator, order: Order): Allocator {
    var now := Wrap(a.stats.bytesAllocated + CellOf(order));
    a.(stats := Stats(
         now,
         Max(a.stats.bytesAllocatedPeak, now),
         a.stats.bytesAllocatedSum + CellOf(order),
         Wrap(a.bumper - a.originalHeapBase)))
  }

  /** Reserves a chunk of the given order, writes its occupied header and counts it. */
  function Serve(a: Allocator, m: Memory, order: Order, grant: bool): (o: Outcome<u32>)
    requires m.WellFormed() && |a.heads| == N_ORDERS
    ensures o.memory.WellFormed() && |o.alloc.heads| == N_ORDERS
  {
    var reserved := Reserve(a, m, order, grant);
    match reserved.result
    case Failure(e) => Poison(reserved.alloc, reserved.memory, e)
    case Success(p) =>
      match WriteHeader(reserved.memory.data, p, Occupied(order))
      case Failure(e) => Poison(reserved.alloc, reserved.memory, e)
      case Success(data) =>
        Outcome(CountAllocation(reserved.alloc, order),
                reserved.memory.(data := data),
                Success(Wrap(p + HEADER_SIZE)))
  }

  function Allocate(a: Allocator, m: Memory, size: u32, grant: bool): (o: Outcome<u32>)
    requires m.WellFormed() && |a.heads| == N_ORDERS
    ensures o.memory.WellFormed() && |o.alloc.heads| == N_ORDERS
  {
    if a.poisoned then
      Outcome(a, m, Failure(Other("the allocator has been poisoned")))
    else if m.Size() < a.lastObservedMemorySize then
      Poison(a, m, MemoryShrinked)
    else
      var a1 := a.(lastObservedMemorySize := m.Size());
      OrderFromSizeIsLeast(size);
      match OrderFromSize(size)
      case Failure(e) => Poison(a1, m, e)
      case Success(order) => Serve(a1, m, order, grant)
  }

  function Deallocate(a: Allocator, m: Memory, ptr: u32): (o: Outcome<()>)
    requires m.WellFormed() && |a.heads| == N_ORDERS
    ensures o.memory.WellFormed() && |o.alloc.heads| == N_ORDERS
  {
    if a.poisoned then
      Outcome(a, m, Failure(Other("the allocator has been poisoned")))
    else if m.Size() < a.lastObservedMemorySize then
      Poison(a, m, MemoryShrinked)
    else
      var a1 := a.(lastObservedMemorySize := m.Size());
      if ptr < HEADER_SIZE then
        Poison(a1, m, Other("Invalid pointer for deallocation"))
      else
        var p: u32 := ptr - HEADER_SIZE;
        var header := ReadHeader(m.data, p);
        if header.Failure? then
          Poison(a1, m, header.error)
        else if !header.value.Occupied? then
          Poison(a1, m, Other("the allocation points to an empty header"))
        else
          var order := header.value.order;
          var a2 := a1.(heads := a1.heads[order := Ptr(p)]);
          match WriteHeader(m.data, p, Free(a1.heads[order]))
          case Failure(e) => Poison(a2, m, e)
          case Success(data) =>
            var m2 := m.(data := data);
            if a.stats.bytesAllocated < CellOf(order) then
              Poison(a2, m2, Other("underflow of the currently allocated bytes count"))
            else
              Outcome(a2.(stats := a2.stats.(bytesAllocated := a2.stats.bytesAllocated - CellOf(order))),
                      m2, Success(()))
  }

  // ----- laws for arbitrary memory contents

  /** Rounding up the heap base gives the next multiple of eight exactly when that still fits 32 bits. */
  lemma HeapBaseRoundsUp(heapBase: u32)
    ensures AlignedHeapBase(heapBase) % 8 == 0
    ensures heapBase <= AlignedHeapBase(heapBase) < heapBase + 8 <==> heapBase <= U32_LIMIT - 8
    ensures heapBase > U32_LIMIT - 8 ==> AlignedHeapBase(heapBase) == 0
  {
  }

  /** Whatever the memory holds, a successful allocation returns a block that lies inside the memory,
      clear of its header, and the only bytes it changes are the eight of that header. */
  lemma AllocateIsInBounds(a: Allocator, m: Memory, size: u32, grant: bool)
    requires m.WellFormed() && |a.heads| == N_ORDERS
    ensures var o := Allocate(a, m, size, grant);
            o.result.Success? ==>
              && 8 <= o.result.value
              && o.result.value + size <= o.memory.Size()
              && m.Size() <= o.memory.Size()
              && forall i :: 0 <= i < m.Size() && !(o.result.value - 8 <= i < o.result.value) ==>
                               o.memory.data[i] == m.data[i]
  {
    if Allocate(a, m, size, grant).result.Success? {
      OrderFromSizeIsLeast(size);
      ServeIsInBounds(a.(lastObservedMemorySize := m.Size()), m, OrderFromSize(size).value, grant);
    }
  }

  lemma ServeIsInBounds(a: Allocator, m: Memory, order: Order, grant: bool)
    requires m.WellFormed() && |a.heads| == N_ORDERS
    ensures var o := Serve(a, m, order, grant);
            o.result.Success? ==>
              && 8 <= o.result.value
              && o.result.value + SizeOf(order) <= o.memory.Size()
              && m.Size() <= o.memory.Size()
              && forall i :: 0 <= i < m.Size() && !(o.result.value - 8 <= i < o.result.value) ==>
                               o.memory.data[i] == m.data[i]
  {
    hide ReadHeader, Reserve, CountAllocation, EncodeHeader;
    ReserveIsInBounds(a, m, order, grant);
    CellFacts(order);
    var reserved := Reserve(a, m, order, grant);
    var o := Serve(a, m, order, grant);
    if o.result.Success? {
      var p := reserved.result.value;
      var bytes := ToLeBytes(8, EncodeHeader(Occupied(order)));
      forall i | 0 <= i < m.Size() && !(p <= i < p + 8)
        ensures o.memory.data[i] == m.data[i]
      {
        OverwriteElsewhere(reserved.memory.data, p, bytes, i);
      }
    }
  }

  lemma ReserveIsInBounds(a: Allocator, m: Memory, order: Order, grant: bool)
    requires m.WellFormed() && |a.heads| == N_ORDERS
    ensures var o := Reserve(a, m, order, grant);
            && m.data <= o.memory.data
            && (o.result.Success? ==> o.result.value + CellOf(order) <= o.memory.Size())
  {
    hide ReadHeader, Bump;
    CellFacts(order);
    BumpGrowthIsSound(a.bumper, CellOf(order), m, grant);
  }

  lemma OverwriteElsewhere(data: seq<byte>, p: nat, bytes: seq<byte>, i: nat)
    requires p + |bytes| <= |data| && i < |data| && !(p <= i < p + |bytes|)
    ensures Overwrite(data, p, bytes)[i] == data[i]
  {
  }

  lemma ServeGrows(a: Allocator, m: Memory, k: Order, grant: bool)
    requires m.WellFormed() && |a.heads| == N_ORDERS
    ensures var m' := Serve(a, m, k, grant).memory;
            m'.pages > m.pages ==> a.heads[k] == Nil && GrewEnough(m, m', a.bumper + CellOf(k))
  {
    hide CellOf, Wrap, ReadHeader, WriteHeader, Bump, CountAllocation;
    CellFacts(k);
    BumpGrowthIsSound(a.bumper, CellOf(k), m, grant);
  }

  /** An allocation that grows the memory reaches the limit or doubles it, and goes further only for its own need. */
  lemma AllocateGrows(a: Allocator, m: Memory, size: u32, grant: bool)
    requires m.WellFormed() && |a.heads| == N_ORDERS
    ensures var m' := Allocate(a, m, size, grant).memory;
            m'.pages > m.pages ==>
              && OrderFromSize(size).Success? && OrderFromSize(size).value >= 0
              && GrewEnough(m, m', a.bumper + 8 * Pow2(OrderFromSize(size).value) + 8)
  {
    hide Serve, OrderFromSize, GrewEnough;
    OrderFromSizeIsLeast(size);
    if size <= MAX_POSSIBLE_ALLOCATION {
      ServeGrows(a.(lastObservedMemorySize := m.Size()), m, OrderFromSize(size).value, grant);
    }
  }

  /** Any error poisons; a poisoned allocator refuses every later call and touches nothing. */
  lemma ErrorsPoison(a: Allocator, m: Memory, size: u32, grant: bool, ptr: u32)
    requires m.WellFormed() && |a.heads| == N_ORDERS
    ensures Allocate(a, m, size, grant).result.Failure? <==> Allocate(a, m, size, grant).alloc.poisoned
    ensures Deallocate(a, m, ptr).result.Failure? <==> Deallocate(a, m, ptr).alloc.poisoned
    ensures a.poisoned ==>
              && Allocate(a, m, size, grant) == Outcome(a, m, Failure(Other("the allocator has been poisoned")))
              && Deallocate(a, m, ptr) == Outcome(a, m, Failure(Other("the allocator has been poisoned")))
  {
    hide ReadHeader, WriteHeader, CellOf, SizeOf, Bump, Wrap;
  }

  /** A call on a memory smaller than the last call found it is refused with that error, and by it alone;
      otherwise the size it finds is the one the next call compares with. */
  lemma ShrunkMemoryIsRefused(a: Allocator, m: Memory, size: u32, grant: bool, ptr: u32)
    requires m.WellFormed() && |a.heads| == N_ORDERS && !a.poisoned
    ensures var o := Allocate(a, m, size, grant);
            && (o.result == Failure(MemoryShrinked) <==> m.Size() < a.lastObservedMemorySize)
            && (m.Size() < a.lastObservedMemorySize ==> o.alloc == a.(poisoned := true) && o.memory == m)
            && (m.Size() >= a.lastObservedMemorySize ==> o.alloc.lastObservedMemorySize == m.Size())
    ensures var o := Deallocate(a, m, ptr);
            && (o.result == Failure(MemoryShrinked) <==> m.Size() < a.lastObservedMemorySize)
            && (m.Size() < a.lastObservedMemorySize ==> o.alloc == a.(poisoned := true) && o.memory == m)
            && (m.Size() >= a.lastObservedMemorySize ==> o.alloc.lastObservedMemorySize == m.Size())
  {
    hide CellOf, Wrap, ReadHeader, WriteHeader, Serve, OrderFromSize, CountAllocation;
    OrderFromSizeIsLeast(size);
    if size <= MAX_POSSIBLE_ALLOCATION {
      ServeErrors(a.(lastObservedMemorySize := m.Size()), m, OrderFromSize(size).value, grant);
    }
    HeaderErrors(m.data, if ptr < 8 then 0 else ptr - 8);
  }

  lemma HeaderErrors(data: seq<byte>, p: u32)
    ensures ReadHeader(data, p) != Failure(MemoryShrinked)
    ensures forall h :: WriteHeader(data, p, h) != Failure(MemoryShrinked)
  {
  }

  lemma ServeErrors(a: Allocator, m: Memory, k: Order, grant: bool)
    requires m.WellFormed() && |a.heads| == N_ORDERS
    ensures var o := Serve(a, m, k, grant);
            && o.result != Failure(MemoryShrinked)
            && o.alloc.lastObservedMemorySize == a.lastObservedMemorySize
  {
    hide CellOf, Wrap, ReadHeader, WriteHeader, Bump;
    CellFacts(k);
    BumpGrowthIsSound(a.bumper, CellOf(k), m, grant);
    if a.heads[k].Ptr? {
      HeaderErrors(m.data, a.heads[k].ptr);
    }
    var reserved := Reserve(a, m, k, grant);
    if reserved.result.Success? {
      HeaderErrors(reserved.memory.data, reserved.result.value);
    }
  }

  /** No call moves the heap base, the memory's limit or its size downwards. */
  lemma CallsKeepBaseAndLimit(a: Allocator, m: Memory, size: u32, grant: bool, ptr: u32)
    requires m.WellFormed() && |a.heads| == N_ORDERS
    ensures var o := Allocate(a, m, size, grant);
            && o.alloc.originalHeapBase == a.originalHeapBase
            && o.memory.maxPages == m.maxPages && m.Size() <= o.memory.Size()
    ensures var o := Deallocate(a, m, ptr);
            && o.alloc.originalHeapBase == a.originalHeapBase
            && o.memory.maxPages == m.maxPages && m.Size() == o.memory.Size()
  {
    hide ReadHeader, WriteHeader, CellOf, Wrap, Reserve, OrderFromSize, CountAllocation;
    OrderFromSizeIsLeast(size);
    if size <= MAX_POSSIBLE_ALLOCATION {
      ServeKeepsBaseAndLimit(a.(lastObservedMemorySize := m.Size()), m, OrderFromSize(size).value, grant);
      hide Serve;
    }
  }

  lemma ServeKeepsBaseAndLimit(a: Allocator, m: Memory, k: Order, grant: bool)
    requires m.WellFormed() && |a.heads| == N_ORDERS
    ensures var o := Serve(a, m, k, grant);
            && o.alloc.originalHeapBase == a.originalHeapBase
            && o.memory.maxPages == m.maxPages && m.Size() <= o.memory.Size()
  {
    hide WriteHeader, Reserve, Wrap;
    ReserveKeepsBaseAndLimit(a, m, k, grant);
  }

  lemma ReserveKeepsBaseAndLimit(a: Allocator, m: Memory, k: Order, grant: bool)
    requires m.WellFormed() && |a.heads| == N_ORDERS
    ensures var o := Reserve(a, m, k, grant);
            && o.alloc.originalHeapBase == a.originalHeapBase
            && o.memory.maxPages == m.maxPages && m.Size() <= o.memory.Size()
  {
    hide ReadHeader, CellOf, Bump;
    CellFacts(k);
    BumpGrowthIsSound(a.bumper, CellOf(k), m, grant);
  }
}
