/**
 The allocator as the object its callers hold, working on a memory object in place.
 Each method is proved against the functions of module FreeingBump.
 */
module HeapAllocator {
  import opened Wrappers
  import opened LinearMemory
  import opened FreeingBump

  /** A linear memory; `Grow` succeeds when the host grants it. */
  class MemoryObject {
    var data: seq<byte>
    var pages: nat
    const maxPages: Option<nat>

    ghost function Value(): Memory
      reads this
    {
      Memory(data, pages, maxPages)
    }

    constructor (pages: nat, maxPages: Option<nat>)
      requires pages <= (if maxPages.Some? then maxPages.value else MAX_WASM_PAGES) <= MAX_WASM_PAGES
      ensures Value().WellFormed() && this.pages == pages && this.maxPages == maxPages
    {
      this.data := seq(pages * PAGE_SIZE, _ => 0);
      this.pages := pages;
      this.maxPages := maxPages;
    }

    method Grow(additional: nat, grant: bool) returns (ok: bool)
      modifies this
      ensures ok == grant
      ensures Value() == if ok then old(Value()).Grow(additional) else old(Value())
    {
      ok := grant;
      if ok {
        data := data + seq(additional * PAGE_SIZE, _ => 0);
        pages := pages + additional;
      }
    }

    method ReadHeaderAt(ptr: u32) returns (r: Result<Header, Error>)
      ensures r == ReadHeader(data, ptr)
    {
      r := ReadHeader(data, ptr);
    }

    method WriteHeaderAt(ptr: u32, h: Header) returns (r: Result<(), Error>)
      modifies this`data
      ensures r.Success? <==> HeapRange(ptr, 8, |old(data)|)
      ensures r.Success? ==> data == WriteHeader(old(data), ptr, h).value
      ensures r.Failure? ==> data == old(data) && r.error == WriteHeader(old(data), ptr, h).error
    {
      var written := WriteHeader(data, ptr, h);
      if written.Success? {
        data := written.value;
        r := Success(());
      } else {
        r := Failure(written.error);
      }
    }
  }

  class HeapAllocatorObject {
    const originalHeapBase: u32
    var bumper: u32
    const heads: array<Link>
    var poisoned: bool
    var lastObservedMemorySize: nat
    var stats: Stats

    ghost predicate Valid()
      reads this
    {
      heads.Length == N_ORDERS
    }

    ghost function Value(): (a: Allocator)
      reads this, heads
      ensures |a.heads| == heads.Length
    {
      Allocator(originalHeapBase, bumper, heads[..], poisoned, lastObservedMemorySize, stats)
    }

    constructor (heapBase: u32)
      ensures Valid() && fresh(heads)
      ensures Value() == New(heapBase)
    {
      var aligned := AlignedHeapBase(heapBase);
      originalHeapBase := aligned;
      bumper := aligned;
      heads := new Link[N_ORDERS](_ => Nil);
      poisoned := false;
      lastObservedMemorySize := 0;
      stats := Stats(0, 0, 0, 0);
      new;
      assert heads[..] == New(heapBase).heads;
    }

    method ObserveMemorySize(mem: MemoryObject) returns (r: Result<(), Error>)
      modifies this`lastObservedMemorySize
      ensures r.Success? <==> old(lastObservedMemorySize) <= mem.Value().Size()
      ensures r.Failure? ==> r.error == MemoryShrinked
      ensures lastObservedMemorySize == if r.Success? then mem.Value().Size() else old(lastObservedMemorySize)
    {
      var size := mem.pages * PAGE_SIZE;
      if size < lastObservedMemorySize {
        r := Failure(MemoryShrinked);
      } else {
        lastObservedMemorySize := size;
        r := Success(());
      }
    }

    method BumpBy(size: u32, mem: MemoryObject, grant: bool) returns (r: Result<u32, Error>)
      requires mem.Value().WellFormed()
      modifies this`bumper, mem
      ensures (r, bumper, mem.Value()) == Bump(old(bumper), size, old(mem.Value()), grant)
    {
      var required := bumper + size;
      if required > mem.pages * PAGE_SIZE {
        var pages := PagesFromSize(required);
        if pages.None? {
          return Failure(AllocatorOutOfSpace);
        }
        var maxPages := if mem.maxPages.Some? then mem.maxPages.value else MAX_WASM_PAGES;
        PagesCover(required, mem.pages);
        // The two debug assertions of the source around the growth step.
        assert mem.pages < pages.value;
        if mem.pages >= maxPages {
          return Failure(AllocatorOutOfSpace);
        } else if pages.value > maxPages {
          return Failure(AllocatorOutOfSpace);
        }
        var nextPages := Min(mem.pages * 2, maxPages);
        nextPages := Max(nextPages, pages.value);
        var grown := mem.Grow(nextPages - mem.pages, grant);
        if !grown {
          return Failure(AllocatorOutOfSpace);
        }
        assert mem.pages == nextPages;
      }
      r := Success(bumper);
      bumper := Wrap(bumper + size);
    }

    /** The header to use for a request of the given order. */
    method ReserveHeader(mem: MemoryObject, order: Order, grant: bool) returns (r: Result<u32, Error>)
      requires Valid() && mem.Value().WellFormed()
      modifies this`bumper, heads, mem
      ensures Outcome(Value(), mem.Value(), r) == Reserve(old(Value()), old(mem.Value()), order, grant)
    {
      match heads[order]
      case Ptr(p) =>
        if p + SizeOf(order) + HEADER_SIZE > mem.pages * PAGE_SIZE {
          return Failure(Other("Invalid header pointer detected"));
        }
        var header := mem.ReadHeaderAt(p);
        if header.Failure? {
          return Failure(header.error);
        }
        if !header.value.Free? {
          return Failure(Other("free list points to a occupied header"));
        }
        heads[order] := header.value.link;
        r := Success(p);
      case Nil =>
        CellFacts(order);
        r := BumpBy(CellOf(order), mem, grant);
    }

    method ServeOrder(mem: MemoryObject, order: Order, grant: bool) returns (r: Result<u32, Error>)
      requires Valid() && mem.Value().WellFormed()
      modifies this`bumper, this`stats, heads, mem
      ensures Guarded(Outcome(Value(), mem.Value(), r)) == Serve(old(Value()), old(mem.Value()), order, grant)
    {
      hide ReadHeader, WriteHeader, CellOf, Wrap, Reserve;
      var header := ReserveHeader(mem, order, grant);
      ghost var reserved := Value();
      if header.Failure? {
        return Failure(header.error);
      }
      var written := mem.WriteHeaderAt(header.value, Occupied(order));
      if written.Failure? {
        return Failure(written.error);
      }
      var inUse := Wrap(stats.bytesAllocated + CellOf(order));
      stats := Stats(inUse, Max(stats.bytesAllocatedPeak, inUse),
                     stats.bytesAllocatedSum + CellOf(order), Wrap(bumper - originalHeapBase));
      assert Value() == CountAllocation(reserved, order);
      r := Success(Wrap(header.value + HEADER_SIZE));
    }

    /** The part of an allocation that runs under the armed guard. */
    method AllocateArmed(mem: MemoryObject, size: u32, grant: bool) returns (r: Result<u32, Error>)
      requires Valid() && mem.Value().WellFormed() && !poisoned
      modifies this`bumper, this`stats, this`lastObservedMemorySize, heads, mem
      ensures Guarded(Outcome(Value(), mem.Value(), r)) == Allocate(old(Value()), old(mem.Value()), size, grant)
    {
      hide Serve, OrderFromSize;
      var observed := ObserveMemorySize(mem);
      if observed.Failure? {
        return Failure(observed.error);
      }
      OrderFromSizeIsLeast(size);
      var order := OrderFromSize(size);
      if order.Failure? {
        return Failure(order.error);
      }
      assert Value() == old(Value()).(lastObservedMemorySize := mem.Value().Size());
      r := ServeOrder(mem, order.value, grant);
    }

    method AllocateBlock(mem: MemoryObject, size: u32, grant: bool) returns (r: Result<u32, Error>)
      requires Valid() && mem.Value().WellFormed()
      modifies this, heads, mem
      ensures Outcome(Value(), mem.Value(), r) == Allocate(old(Value()), old(mem.Value()), size, grant)
    {
      if poisoned {
        return Failure(Other("the allocator has been poisoned"));
      }
      r := AllocateArmed(mem, size, grant);
      if r.Failure? {
        poisoned := true;
      }
    }

    /** The part of a deallocation that runs under the armed guard. */
    method DeallocateArmed(mem: MemoryObject, ptr: u32) returns (r: Result<(), Error>)
      requires Valid() && mem.Value().WellFormed() && !poisoned
      modifies this`stats, this`lastObservedMemorySize, heads, mem
      ensures Guarded(Outcome(Value(), mem.Value(), r)) == Deallocate(old(Value()), old(mem.Value()), ptr)
    {
      hide ReadHeader, WriteHeader, CellOf;
      var observed := ObserveMemorySize(mem);
      if observed.Failure? {
        return Failure(observed.error);
      }
      if ptr < HEADER_SIZE {
        return Failure(Other("Invalid pointer for deallocation"));
      }
      var headerPtr := ptr - HEADER_SIZE;
      var header := mem.ReadHeaderAt(headerPtr);
      if header.Failure? {
        return Failure(header.error);
      }
      if !header.value.Occupied? {
        return Failure(Other("the allocation points to an empty header"));
      }
      var order := header.value.order;
      var prevHead := heads[order];
      heads[order] := Ptr(headerPtr);
      var written := mem.WriteHeaderAt(headerPtr, Free(prevHead));
      if written.Failure? {
        return Failure(written.error);
      }
      if stats.bytesAllocated < CellOf(order) {
        return Failure(Other("underflow of the currently allocated bytes count"));
      }
      stats := stats.(bytesAllocated := stats.bytesAllocated - CellOf(order));
      r := Success(());
    }

    method DeallocateBlock(mem: MemoryObject, ptr: u32) returns (r: Result<(), Error>)
      requires Valid() && mem.Value().WellFormed()
      modifies this, heads, mem
      ensures Outcome(Value(), mem.Value(), r) == Deallocate(old(Value()), old(mem.Value()), ptr)
    {
      if poisoned {
        return Failure(Other("the allocator has been poisoned"));
      }
      r := DeallocateArmed(mem, ptr);
      if r.Failure? {
        poisoned := true;
      }
    }
  }

  /** What the guard does to an outcome when it goes out of scope. */
  ghost function Guarded<T>(o: Outcome<T>): Outcome<T> {
    if o.result.Failure? then o.(alloc := o.alloc.(poisoned := true)) else o
  }
}
