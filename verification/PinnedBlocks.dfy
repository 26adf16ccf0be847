/**
 The cache of pinned blocks: reference counts over a least-recently-used map.

 The map holds at most `PINNING_CACHE_SIZE` entries. Pinning makes an entry the
 most recently used one; looking at an entry or filling it does not. Recency is
 kept as the time of the last pin, and the entry with the oldest time is evicted.
 */
module PinnedBlocks {
  import opened Wrappers

  const PINNING_CACHE_SIZE: nat := 2048
  const U32_MAX: nat := 0xFFFF_FFFF

  type BlockHash = nat
  type Body = seq<seq<byte>>
  type Justification = seq<byte>
  type Justifications = seq<Justification>

  datatype Entry = Entry(refs: nat, used: nat, justifications: Option<Option<Justifications>>,
                         body: Option<Option<Body>>)

  type Entries = map<BlockHash, Entry>

  datatype Cache = Cache(entries: Entries, clock: nat)

  predicate IsLowest(times: set<nat>, t: nat) {
    t in times && forall s :: s in times ==> t <= s
  }

  lemma {:induction false} LowestExists(times: set<nat>) returns (t: nat)
    requires times != {}
    ensures IsLowest(times, t)
  {
    var k :| k in times;
    t := k;
    var rest := times - {k};
    if rest != {} {
      var n := LowestExists(rest);
      t := if k < n then k else n;
    }
    assert times == rest + {k};
  }

  function Lowest(times: set<nat>): (t: nat)
    requires times != {}
    ensures IsLowest(times, t)
  {
    assert exists t :: IsLowest(times, t) by {
      var t := LowestExists(times);
    }
    var t :| IsLowest(times, t);
    t
  }

  function UseTimes(entries: Entries): set<nat> {
    set h | h in entries :: entries[h].used
  }

  /** The entries without the least recently used one. */
  function Evicted(entries: Entries): Entries
    requires entries != map[]
  {
    assert UseTimes(entries) != {} by {
      var h :| h in entries;
      assert entries[h].used in UseTimes(entries);
    }
    var oldest := Lowest(UseTimes(entries));
    map h | h in entries && entries[h].used != oldest :: entries[h]
  }

  function Pinned(c: Cache, h: BlockHash): Cache {
    if h in c.entries then
      var refs := if c.entries[h].refs < U32_MAX then c.entries[h].refs + 1 else U32_MAX;
      Cache(c.entries[h := c.entries[h].(refs := refs, used := c.clock)], c.clock + 1)
    else
      var entries := c.entries[h := Entry(1, c.clock, None, None)];
      Cache(if |entries| > PINNING_CACHE_SIZE then Evicted(entries) else entries, c.clock + 1)
  }

  function Unpinned(c: Cache, h: BlockHash): Cache {
    if h !in c.entries then c
    else if c.entries[h].refs <= 1 then c.(entries := c.entries - {h})
    else c.(entries := c.entries[h := c.entries[h].(refs := c.entries[h].refs - 1)])
  }

  function WithBody(c: Cache, h: BlockHash, body: Option<Body>): Cache {
    if h in c.entries then c.(entries := c.entries[h := c.entries[h].(body := Some(body))]) else c
  }

  function WithJustifications(c: Cache, h: BlockHash, js: Option<Justifications>): Cache {
    if h in c.entries then c.(entries := c.entries[h := c.entries[h].(justifications := Some(js))]) else c
  }

  // ----- who holds a block, and who was pinned since

  /**
   `holders` counts the pins of a block not yet given back, `rivals` the other
   blocks pinned since it was last pinned, and `lost` the held blocks that have
   had 2048 rivals at some time.
   */
  datatype Ledger = Ledger(holders: map<BlockHash, nat>, rivals: map<BlockHash, set<BlockHash>>, lost: set<BlockHash>)

  ghost function RivalsAfterPin(l: Ledger, h: BlockHash): map<BlockHash, set<BlockHash>> {
    (map g | g in l.rivals :: l.rivals[g] + {h})[h := {}]
  }

  ghost function AfterPin(l: Ledger, h: BlockHash): Ledger {
    var rivals := RivalsAfterPin(l, h);
    Ledger(l.holders[h := if h in l.holders then l.holders[h] + 1 else 1], rivals,
           l.lost + set g | g in rivals && |rivals[g]| >= 2048)
  }

  ghost function AfterUnpin(l: Ledger, h: BlockHash): Ledger
    requires h in l.holders
  {
    if l.holders[h] <= 1 then Ledger(l.holders - {h}, l.rivals - {h}, l.lost - {h})
    else l.(holders := l.holders[h := l.holders[h] - 1])
  }

  /** No two entries were pinned at the same time, and none after the clock. */
  ghost predicate TimesDiffer(entries: Entries) {
    forall g, h :: g in entries && h in entries && g != h ==> entries[g].used != entries[h].used
  }

  ghost predicate CacheOk(c: Cache) {
    && |c.entries| <= 2048
    && (forall h :: h in c.entries ==> c.entries[h].refs >= 1 && c.entries[h].used < c.clock)
    && TimesDiffer(c.entries)
  }

  /** The block is held, and never since were 2048 others pinned between two of its pins or after the last. */
  ghost predicate Safe(l: Ledger, h: BlockHash) {
    h in l.holders && h !in l.lost
  }

  /** Whatever was pinned after a cached block is one of its rivals. */
  ghost predicate Recency(entries: Entries, l: Ledger) {
    forall g, h :: g in entries && h in entries && entries[g].used > entries[h].used && h in l.rivals ==>
        g in l.rivals[h]
  }

  ghost predicate LedgerOk(l: Ledger) {
    && l.holders.Keys == l.rivals.Keys
    && l.lost <= l.holders.Keys
    && (forall h :: h in l.holders ==> 1 <= l.holders[h] <= U32_MAX)
    && (forall h :: h in l.rivals && |l.rivals[h]| >= 2048 ==> h in l.lost)
  }

  /** Counts never exceed the holders, and match them for every safe block. */
  ghost predicate CountsFit(entries: Entries, l: Ledger) {
    && (forall h :: h in entries ==> h in l.holders && entries[h].refs <= l.holders[h])
    && (forall h :: Safe(l, h) && h in l.holders ==> h in entries && entries[h].refs == l.holders[h])
  }

  ghost predicate Tracks(c: Cache, l: Ledger) {
    CacheOk(c) && LedgerOk(l) && CountsFit(c.entries, l) && Recency(c.entries, l)
  }

  lemma {:induction false} Subset(a: set<BlockHash>, b: set<BlockHash>)
    requires a <= b
    ensures |a| <= |b|
    decreases a
  {
    if a != {} {
      var x :| x in a;
      Subset(a - {x}, b - {x});
    }
  }

  // ----- eviction

  lemma OldestExists(entries: Entries) returns (victim: BlockHash)
    requires entries != map[]
    ensures victim in entries && forall g :: g in entries ==> entries[victim].used <= entries[g].used
    ensures UseTimes(entries) != {} && entries[victim].used == Lowest(UseTimes(entries))
  {
    var h :| h in entries;
    assert entries[h].used in UseTimes(entries);
    var oldest := Lowest(UseTimes(entries));
    victim :| victim in entries && entries[victim].used == oldest;
    forall g | g in entries
      ensures oldest <= entries[g].used
    {
      assert entries[g].used in UseTimes(entries);
    }
  }

  lemma EvictsOne(entries: Entries) returns (victim: BlockHash)
    requires entries != map[] && TimesDiffer(entries)
    ensures victim in entries && Evicted(entries) == entries - {victim}
    ensures forall g :: g in entries && g != victim ==> entries[g].used > entries[victim].used
    ensures |Evicted(entries)| == |entries| - 1
  {
    victim := OldestExists(entries);
    hide UseTimes, IsLowest;
    assert Evicted(entries) == entries - {victim};
    assert (entries - {victim}).Keys == entries.Keys - {victim};
  }

  /** A full cache evicts only a block with 2048 rivals. */
  lemma EvictionIsFair(entries: Entries, l: Ledger) returns (victim: BlockHash)
    requires |entries| > 2048 && TimesDiffer(entries) && Recency(entries, l) && LedgerOk(l)
    ensures victim in entries && Evicted(entries) == entries - {victim} && !Safe(l, victim)
    ensures |Evicted(entries)| == |entries| - 1
  {
    victim := EvictsOne(entries);
    if victim in l.rivals {
      var others := entries.Keys - {victim};
      assert others <= l.rivals[victim];
      Subset(others, l.rivals[victim]);
      assert |others| == |entries.Keys| - 1 == |entries| - 1;
    }
  }

  // ----- pinning

  lemma GrowsRivals(l: Ledger, h: BlockHash, g: BlockHash)
    requires LedgerOk(l) && Safe(AfterPin(l, h), g) && (g != h || h in l.holders)
    ensures Safe(l, g)
  {
  }

  /** The entry of a block just pinned, over what the cache held. */
  function Bumped(c: Cache, h: BlockHash): Entries {
    if h in c.entries then Pinned(c, h).entries else c.entries[h := Entry(1, c.clock, None, None)]
  }

  lemma BumpedOk(c: Cache, h: BlockHash)
    requires CacheOk(c)
    ensures Bumped(c, h).Keys == c.entries.Keys + {h}
    ensures forall g :: g in Bumped(c, h) ==> Bumped(c, h)[g].refs >= 1 && Bumped(c, h)[g].used < c.clock + 1
  {
  }

  lemma BumpedTimes(c: Cache, h: BlockHash)
    requires CacheOk(c)
    ensures TimesDiffer(Bumped(c, h))
  {
    var entries := Bumped(c, h);
    forall g, k | g in entries && k in entries && g != k
      ensures entries[g].used != entries[k].used
    {
      assert g == h || entries[g] == c.entries[g];
      assert k == h || entries[k] == c.entries[k];
    }
  }

  lemma BumpedCounts(c: Cache, l: Ledger, h: BlockHash)
    requires LedgerOk(l) && CountsFit(c.entries, l) && (h in l.holders ==> l.holders[h] < U32_MAX)
    ensures CountsFit(Bumped(c, h), AfterPin(l, h))
  {
    var entries, l' := Bumped(c, h), AfterPin(l, h);
    forall g | Safe(l', g) && g in l'.holders
      ensures g in entries && entries[g].refs == l'.holders[g]
    {
      if g != h || h in l.holders {
        GrowsRivals(l, h, g);
      }
    }
  }

  lemma BumpedRecency(c: Cache, l: Ledger, h: BlockHash)
    requires CacheOk(c) && LedgerOk(l) && Recency(c.entries, l)
    ensures Recency(Bumped(c, h), AfterPin(l, h))
  {
    var entries, l' := Bumped(c, h), AfterPin(l, h);
    assert l'.rivals == RivalsAfterPin(l, h);
    assert forall k :: k in entries && k != h ==> k in c.entries && entries[k] == c.entries[k];
    assert entries[h].used == c.clock;
    hide Bumped, AfterPin, LedgerOk;
    forall g, k | g in entries && k in entries && entries[g].used > entries[k].used && k in l'.rivals
      ensures g in l'.rivals[k]
    {
      assert k != h;
      if g != h {
        assert g in l.rivals[k];
      }
    }
  }

  lemma AfterPinOk(l: Ledger, h: BlockHash)
    requires LedgerOk(l) && (h in l.holders ==> l.holders[h] < U32_MAX)
    ensures LedgerOk(AfterPin(l, h))
  {
  }

  lemma PinnedIsBumped(c: Cache, h: BlockHash)
    ensures Bumped(c, h) != map[]
    ensures Pinned(c, h) ==
            Cache(if h !in c.entries && |Bumped(c, h)| > PINNING_CACHE_SIZE then Evicted(Bumped(c, h))
                else Bumped(c, h),
                  c.clock + 1)
  {
    assert h in Bumped(c, h);
  }

  /** Pinning keeps the counts of all blocks that are safe. */
  lemma PinKeepsTrack(c: Cache, l: Ledger, h: BlockHash)
    requires Tracks(c, l) && (h in l.holders ==> l.holders[h] < U32_MAX)
    ensures Tracks(Pinned(c, h), AfterPin(l, h))
  {
    hide TimesDiffer, CountsFit, Recency, AfterPin, LedgerOk, Pinned, Bumped, Evicted;
    BumpedOk(c, h);
    BumpedTimes(c, h);
    BumpedCounts(c, l, h);
    BumpedRecency(c, l, h);
    LedgerKeys(l);
    AfterPinOk(l, h);
    PinnedSize(c, h);
    PinnedIsBumped(c, h);
    if h !in c.entries && |Bumped(c, h)| > PINNING_CACHE_SIZE {
      PinEvicts(c, Bumped(c, h), AfterPin(l, h));
    }
  }

  lemma LedgerKeys(l: Ledger)
    requires LedgerOk(l)
    ensures l.holders.Keys == l.rivals.Keys
  {
  }

  lemma PinnedSize(c: Cache, h: BlockHash)
    requires Bumped(c, h).Keys == c.entries.Keys + {h}
    ensures |Bumped(c, h)| == |c.entries| + if h in c.entries then 0 else 1
  {
    assert |Bumped(c, h)| == |Bumped(c, h).Keys| && |c.entries| == |c.entries.Keys|;
    if h in c.entries {
      assert c.entries.Keys + {h} == c.entries.Keys;
    }
  }

  lemma PinEvicts(c: Cache, entries: Entries, l: Ledger)
    requires PINNING_CACHE_SIZE < |entries| <= PINNING_CACHE_SIZE + 1
    requires TimesDiffer(entries) && CountsFit(entries, l) && Recency(entries, l) && LedgerOk(l)
    requires forall g :: g in entries ==> entries[g].refs >= 1 && entries[g].used < c.clock + 1
    ensures CacheOk(Cache(Evicted(entries), c.clock + 1))
    ensures CountsFit(Evicted(entries), l) && Recency(Evicted(entries), l)
  {
    var victim := EvictionIsFair(entries, l);
    hide Evicted;
  }

  /** Pinning a cached block adds one to its count, up to what 32 bits hold, and leaves its values alone. */
  lemma PinCountsUp(c: Cache, h: BlockHash)
    requires h in c.entries && c.entries[h].refs <= 0xFFFF_FFFF
    ensures var refs := c.entries[h].refs;
            Pinned(c, h).entries ==
            c.entries[h := c.entries[h].(refs := if refs == 0xFFFF_FFFF then refs else refs + 1, used := c.clock)]
  {
  }

  // ----- unpinning and filling

  /** A holder gives back its pin. */
  lemma UnpinKeepsTrack(c: Cache, l: Ledger, h: BlockHash)
    requires Tracks(c, l) && h in l.holders
    ensures Tracks(Unpinned(c, h), AfterUnpin(l, h))
  {
    UnpinnedOk(c, h);
    UnpinnedCounts(c, l, h);
    UnpinnedRecency(c, l, h);
  }

  lemma UnpinnedOk(c: Cache, h: BlockHash)
    requires CacheOk(c)
    ensures CacheOk(Unpinned(c, h))
  {
    Subset(Unpinned(c, h).entries.Keys, c.entries.Keys);
  }

  lemma UnpinnedCounts(c: Cache, l: Ledger, h: BlockHash)
    requires LedgerOk(l) && CountsFit(c.entries, l) && h in l.holders
    ensures LedgerOk(AfterUnpin(l, h)) && CountsFit(Unpinned(c, h).entries, AfterUnpin(l, h))
  {
    assert forall g :: Safe(AfterUnpin(l, h), g) ==> Safe(l, g);
  }

  lemma UnpinnedRecency(c: Cache, l: Ledger, h: BlockHash)
    requires LedgerOk(l) && Recency(c.entries, l) && h in l.holders
    ensures Recency(Unpinned(c, h).entries, AfterUnpin(l, h))
  {
  }

  /** The two caches differ in the values stored with the entries only. */
  ghost predicate SameBookkeeping(a: Cache, b: Cache) {
    && a.clock == b.clock && a.entries.Keys == b.entries.Keys
    && forall h :: h in a.entries ==> a.entries[h].refs == b.entries[h].refs && a.entries[h].used == b.entries[h].used
  }

  lemma FillingKeepsTrack(a: Cache, b: Cache, l: Ledger)
    requires Tracks(a, l) && SameBookkeeping(a, b)
    ensures Tracks(b, l)
  {
    assert |b.entries| == |b.entries.Keys| == |a.entries.Keys| == |a.entries|;
    assert CacheOk(b);
    assert CountsFit(b.entries, l);
    assert Recency(b.entries, l);
  }

  class PinnedBlocksCache {
    var cache: Entries
    var clock: nat

    constructor ()
      ensures Value() == Cache(map[], 0)
    {
      cache, clock := map[], 0;
    }

    function Value(): Cache
      reads this
    {
      Cache(cache, clock)
    }

    method Pin(h: BlockHash)
      modifies this
      ensures Value() == Pinned(old(Value()), h)
    {
      var inserted := h !in cache;
      if inserted {
        cache := cache[h := Entry(0, clock, None, None)];
      }
      var refs := if cache[h].refs < U32_MAX then cache[h].refs + 1 else U32_MAX;
      cache := cache[h := cache[h].(refs := refs, used := clock)];
      if inserted {
        assert cache == old(cache)[h := Entry(1, clock, None, None)];
        if |cache| > PINNING_CACHE_SIZE {
          cache := Evicted(cache);
        }
      }
      clock := clock + 1;
    }

    method Unpin(h: BlockHash)
      modifies this
      ensures Value() == Unpinned(old(Value()), h)
    {
      if h in cache {
        var refs := if cache[h].refs > 0 then cache[h].refs - 1 else 0;
        cache := cache[h := cache[h].(refs := refs)];
        if refs == 0 {
          cache := cache - {h};
          assert cache == old(cache) - {h};
        }
      }
    }

    method InsertBody(h: BlockHash, body: Option<Body>)
      modifies this
      ensures Value() == WithBody(old(Value()), h, body)
    {
      if h in cache {
        cache := cache[h := cache[h].(body := Some(body))];
      }
    }

    method InsertJustifications(h: BlockHash, js: Option<Justifications>)
      modifies this
      ensures Value() == WithJustifications(old(Value()), h, js)
    {
      if h in cache {
        cache := cache[h := cache[h].(justifications := Some(js))];
      }
    }
  }
}
