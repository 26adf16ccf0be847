/**
 Linear memory, little-endian words and allocation headers.

 A memory is a byte sequence made of 64 KiB pages. An allocation header is one
 little-endian 64-bit word: bit 32 says "occupied", the low 32 bits hold either
 the order of the allocation or the link to the next free header.
 */
module LinearMemory {
  import opened Wrappers

  type u32 = x: int | 0 <= x < 0x1_0000_0000
  type u64 = x: int | 0 <= x < 0x1_0000_0000_0000_0000

  const PAGE_SIZE: nat := 65536
  const MAX_WASM_PAGES: nat := 65536
  const HEADER_SIZE: nat := 8
  const N_ORDERS: nat := 23
  const NIL_MARKER: u32 := 0xFFFF_FFFF
  const U32_LIMIT: nat := 0x1_0000_0000

  datatype Error =
    | RequestedAllocationTooLarge
    | AllocatorOutOfSpace
    | MemoryShrinked
    | Other(message: string)

  /** A memory as its caller sees it; `maxPages` is the limit the host declares, if any. */
  datatype Memory = Memory(data: seq<byte>, pages: nat, maxPages: Option<nat>) {
    function Limit(): nat {
      if maxPages.Some? then maxPages.value else MAX_WASM_PAGES
    }

    /** The contract every implementation of the memory trait owes the allocator. */
    predicate WellFormed() {
      && |data| == pages * PAGE_SIZE
      && pages <= Limit() <= MAX_WASM_PAGES
    }

    function Size(): nat {
      pages * PAGE_SIZE
    }

    function Grow(additional: nat): Memory {
      Memory(data + seq(additional * PAGE_SIZE, _ => 0), pages + additional, maxPages)
    }
  }

  // ----- little-endian words

  ghost function Pow256(n: nat): nat {
    if n == 0 then 1 else 256 * Pow256(n - 1)
  }

  function ToLeBytes(n: nat, v: nat): (bytes: seq<byte>)
    ensures |bytes| == n
  {
    if n == 0 then [] else [v % 256] + ToLeBytes(n - 1, v / 256)
  }

  function FromLeBytes(bytes: seq<byte>): nat {
    if bytes == [] then 0 else bytes[0] + 256 * FromLeBytes(bytes[1..])
  }

  lemma {:induction false} LeRoundTrip(n: nat, v: nat)
    requires v < Pow256(n)
    ensures FromLeBytes(ToLeBytes(n, v)) == v
  {
    if n > 0 {
      LeRoundTrip(n - 1, v / 256);
      assert ToLeBytes(n, v)[1..] == ToLeBytes(n - 1, v / 256);
    }
  }

  lemma {:induction false} LeBound(bytes: seq<byte>)
    ensures FromLeBytes(bytes) < Pow256(|bytes|)
  {
    if bytes != [] {
      LeBound(bytes[1..]);
    }
  }

  lemma Pow256Of8()
    ensures Pow256(8) == 0x1_0000_0000_0000_0000
  {
    assert Pow256(4) == 0x1_0000_0000;
  }

  // ----- headers

  datatype Link = Nil | Ptr(ptr: u32)

  type Order = k: nat | k < N_ORDERS

  datatype Header = Free(link: Link) | Occupied(order: Order)

  function LinkFromRaw(raw: u32): Link {
    if raw != NIL_MARKER then Ptr(raw) else Nil
  }

  function LinkToRaw(link: Link): u32 {
    match link
    case Nil => NIL_MARKER
    case Ptr(p) => p
  }

  function OrderFromRaw(raw: u32): Result<Order, Error> {
    if raw < N_ORDERS then Success(raw) else Failure(Other("invalid order"))
  }

  function EncodeHeader(h: Header): u64 {
    match h
    case Occupied(order) => order + U32_LIMIT
    case Free(link) => LinkToRaw(link)
  }

  function DecodeHeader(raw: u64): Result<Header, Error> {
    var occupied := (raw / U32_LIMIT) % 2 == 1;
    var headerData := raw % U32_LIMIT;
    if occupied then
      var order :- OrderFromRaw(headerData);
      Success(Occupied(order))
    else
      Success(Free(LinkFromRaw(headerData)))
  }

  /** A header survives encoding exactly when it is not a link to the nil marker's own address. */
  lemma HeaderRoundTrip(h: Header)
    ensures DecodeHeader(EncodeHeader(h)) == Success(h) <==> h != Free(Ptr(NIL_MARKER))
    ensures DecodeHeader(EncodeHeader(Free(Ptr(NIL_MARKER)))) == Success(Free(Nil))
  {
    match h
    case Occupied(order) =>
      assert (order + U32_LIMIT) / U32_LIMIT == 1 && (order + U32_LIMIT) % U32_LIMIT == order;
    case Free(link) =>
      assert LinkToRaw(link) / U32_LIMIT == 0 && LinkToRaw(link) % U32_LIMIT == LinkToRaw(link);
  }

  /** Whether `length` bytes at `offset` lie in a heap of `heapLen` bytes, with the 32-bit check of the sum. */
  predicate HeapRange(offset: u32, length: nat, heapLen: nat) {
    offset + length < U32_LIMIT && offset + length <= heapLen
  }

  function ReadLeU64(data: seq<byte>, ptr: u32): (r: Result<u64, Error>)
    ensures r.Success? <==> HeapRange(ptr, 8, |data|)
  {
    if HeapRange(ptr, 8, |data|) then
      LeBound(data[ptr..ptr + 8]);
      Pow256Of8();
      Success(FromLeBytes(data[ptr..ptr + 8]))
    else
      Failure(Other("read out of heap bounds"))
  }

  function Overwrite(data: seq<byte>, ptr: nat, bytes: seq<byte>): (r: seq<byte>)
    requires ptr + |bytes| <= |data|
    ensures |r| == |data|
    ensures r[ptr..ptr + |bytes|] == bytes
    ensures r[..ptr] == data[..ptr] && r[ptr + |bytes|..] == data[ptr + |bytes|..]
  {
    data[..ptr] + bytes + data[ptr + |bytes|..]
  }

  function WriteLeU64(data: seq<byte>, ptr: u32, v: u64): (r: Result<seq<byte>, Error>)
    ensures r.Success? <==> HeapRange(ptr, 8, |data|)
  {
    if HeapRange(ptr, 8, |data|) then
      Success(Overwrite(data, ptr, ToLeBytes(8, v)))
    else
      Failure(Other("write out of heap bounds"))
  }

  function ReadHeader(data: seq<byte>, ptr: u32): Result<Header, Error> {
    var raw :- ReadLeU64(data, ptr);
    DecodeHeader(raw)
  }

  function WriteHeader(data: seq<byte>, ptr: u32, h: Header): (r: Result<seq<byte>, Error>)
    ensures r.Success? <==> HeapRange(ptr, 8, |data|)
    ensures r.Success? ==> |r.value| == |data|
  {
    WriteLeU64(data, ptr, EncodeHeader(h))
  }

  // ----- the eight bytes of a header

  /** Four bytes as a number, lowest first. */
  function Word(b: seq<byte>): nat
    requires |b| == 4
  {
    var first: nat, second: nat, third: nat, fourth: nat := b[0], b[1], b[2], b[3];
    first + 0x100 * second + 0x1_0000 * third + 0x100_0000 * fourth
  }

  lemma FourBytes(b: seq<byte>)
    requires |b| == 4
    ensures FromLeBytes(b) == Word(b)
  {
    assert b[3..][1..] == [] && b[2..][1..] == b[3..] && b[1..][1..] == b[2..];
    assert FromLeBytes(b[3..]) == b[3] + 256 * FromLeBytes([]);
    assert FromLeBytes(b[2..]) == b[2] + 256 * FromLeBytes(b[3..]);
    assert FromLeBytes(b[1..]) == b[1] + 256 * FromLeBytes(b[2..]);
  }

  lemma EightBytes(b: seq<byte>)
    requires |b| == 8
    ensures FromLeBytes(b) == Word(b[..4]) + 0x1_0000_0000 * Word(b[4..])
  {
    FourBytes(b[4..]);
    assert b[3..][1..] == b[4..] && b[2..][1..] == b[3..] && b[1..][1..] == b[2..];
    assert FromLeBytes(b[1..]) == b[1] + 256 * FromLeBytes(b[2..]);
    assert FromLeBytes(b[2..]) == b[2] + 256 * FromLeBytes(b[3..]);
    assert FromLeBytes(b[3..]) == b[3] + 256 * FromLeBytes(b[4..]);
  }

  /** How eight bytes read: the lowest bit of the fifth says whether the chunk is occupied, the first four hold its
      order or else the link, all ones for none; an order above 22 is an error. */
  lemma HeaderBytes(data: seq<byte>, ptr: u32)
    requires HeapRange(ptr, 8, |data|)
    ensures var w, occupied := Word(data[ptr..ptr + 4]), data[ptr + 4] % 2 == 1;
            && w < 0x1_0000_0000
            && ReadHeader(data, ptr) ==
               if !occupied then Success(Free(if w == 0xFFFF_FFFF then Nil else Ptr(w)))
               else if w < 23 then Success(Occupied(w))
               else Failure(Other("invalid order"))
  {
    var b := data[ptr..ptr + 8];
    EightBytes(b);
    assert b[..4] == data[ptr..ptr + 4] && b[4..][0] == data[ptr + 4];
    var lo, hi := Word(b[..4]), Word(b[4..]);
    assert hi % 2 == data[ptr + 4] % 2;
    assert FromLeBytes(b) / U32_LIMIT == hi && FromLeBytes(b) % U32_LIMIT == lo;
  }

  lemma ShiftsDown(lo: nat, hi: nat)
    requires lo < 0x1_0000_0000
    ensures (lo + 0x1_0000_0000 * hi) / 256 / 256 / 256 / 256 == hi
  {
    var v := lo + 0x1_0000_0000 * hi;
    assert v / 256 == lo / 256 + 0x100_0000 * hi;
    assert v / 256 / 256 == lo / 256 / 256 + 0x1_0000 * hi;
    assert v / 256 / 256 / 256 == lo / 256 / 256 / 256 + 0x100 * hi;
  }

  lemma TailBytes(n: nat, v: nat)
    ensures ToLeBytes(n + 1, v)[1..] == ToLeBytes(n, v / 256)
  {
  }

  lemma UpperBytes(lo: nat, hi: nat)
    requires lo < 0x1_0000_0000 && hi <= 1
    ensures ToLeBytes(8, lo + 0x1_0000_0000 * hi)[4..] == [hi, 0, 0, 0]
  {
    ShiftsDown(lo, hi);
    var v := lo + 0x1_0000_0000 * hi;
    TailBytes(7, v);
    TailBytes(6, v / 256);
    TailBytes(5, v / 256 / 256);
    TailBytes(4, v / 256 / 256 / 256);
    assert ToLeBytes(8, v)[4..] == ToLeBytes(4, hi);
    SmallWord(hi);
  }

  lemma SmallWord(hi: nat)
    requires hi <= 1
    ensures ToLeBytes(4, hi) == [hi, 0, 0, 0]
  {
    TailBytes(3, hi);
    TailBytes(2, 0);
    TailBytes(1, 0);
  }

  /** The upper four bytes written are one for an occupied chunk and zero for a free one. */
  lemma WrittenBytes(data: seq<byte>, ptr: u32, h: Header)
    requires HeapRange(ptr, 8, |data|)
    ensures WriteHeader(data, ptr, h).value[ptr + 4..ptr + 8] == [if h.Occupied? then 1 else 0, 0, 0, 0]
  {
    var hi := if h.Occupied? then 1 else 0;
    UpperBytes(EncodeHeader(h) - 0x1_0000_0000 * hi, hi);
    var bytes, after := ToLeBytes(8, EncodeHeader(h)), WriteHeader(data, ptr, h).value;
    assert after[ptr..ptr + 8] == bytes;
    assert after[ptr + 4..ptr + 8] == after[ptr..ptr + 8][4..];
  }

  /** Writing a header and reading it back gives the header. */
  lemma WriteThenRead(data: seq<byte>, ptr: u32, h: Header)
    requires HeapRange(ptr, 8, |data|)
    requires h != Free(Ptr(NIL_MARKER))
    ensures ReadHeader(WriteHeader(data, ptr, h).value, ptr) == Success(h)
  {
    Pow256Of8();
    LeRoundTrip(8, EncodeHeader(h));
    HeaderRoundTrip(h);
  }

  /** What a header read depends on: the eight bytes at its address. */
  lemma ReadDependsOnEightBytes(before: seq<byte>, after: seq<byte>, ptr: u32)
    requires ptr + 8 <= |before| <= |after|
    requires before[ptr..ptr + 8] == after[ptr..ptr + 8]
    ensures ReadHeader(after, ptr) == ReadHeader(before, ptr)
  {
  }

  /** Writing one header leaves every header at a disjoint address alone. */
  lemma WriteFrame(data: seq<byte>, ptr: u32, h: Header, other: u32)
    requires HeapRange(ptr, 8, |data|)
    requires other + 8 <= |data|
    requires other + 8 <= ptr || ptr + 8 <= other
    ensures ReadHeader(WriteHeader(data, ptr, h).value, other) == ReadHeader(data, other)
  {
    var after := WriteHeader(data, ptr, h).value;
    if other + 8 <= ptr {
      assert after[other..other + 8] == after[..ptr][other..other + 8];
      assert data[other..other + 8] == data[..ptr][other..other + 8];
    } else {
      var d := other - (ptr + 8);
      assert after[other..other + 8] == after[ptr + 8..][d..d + 8];
      assert data[other..other + 8] == data[ptr + 8..][d..d + 8];
    }
    ReadDependsOnEightBytes(data, after, other);
  }
}
