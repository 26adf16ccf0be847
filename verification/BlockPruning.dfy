/**
 Pruning of block bodies behind finality, and what pinned blocks still read.

 The number index, the blocks an operation finalizes and the blocks it displaces
 come from the rest of the database. `stored` is the database as last committed,
 which is what reads see; `queued` is what the transaction being built will leave;
 `pending` holds the justifications this transaction has set.
 */
module BlockPruning {
  import opened Wrappers
  import opened PinnedBlocks

  datatype Db = Db(bodies: map<BlockHash, Body>, justifications: map<BlockHash, Justifications>)

  datatype Node = Node(
    stored: Db, queued: Db, pending: map<BlockHash, Justification>,
    index: map<nat, BlockHash>, height: nat, cache: Cache)

  datatype Finality = Finality(hash: BlockHash, justification: Option<Justification>)

  function Get<T>(m: map<BlockHash, T>, h: BlockHash): Option<T> {
    if h in m then Some(m[h]) else None
  }

  /** What a client reads: the cached value of a pinned block if there is one, else the database. */
  function BodyOf(n: Node, h: BlockHash): Option<Body> {
    if h in n.cache.entries && n.cache.entries[h].body.Some? then n.cache.entries[h].body.value
    else Get(n.stored.bodies, h)
  }

  function JustificationsOf(n: Node, h: BlockHash): Option<Justifications> {
    if h in n.cache.entries && n.cache.entries[h].justifications.Some? then n.cache.entries[h].justifications.value
    else Get(n.stored.justifications, h)
  }

  function BodyCached(n: Node, h: BlockHash): Node {
    n.(cache := WithBody(n.cache, h, Get(n.stored.bodies, h)))
  }

  function JustificationsCached(n: Node, h: BlockHash): Node {
    if h in n.pending then
      n.(cache := WithJustifications(n.cache, h, Some([n.pending[h]])), pending := n.pending - {h})
    else
      n.(cache := WithJustifications(n.cache, h, Get(n.stored.justifications, h)))
  }

  function BlockPruned(n: Node, h: BlockHash): Node {
    n.(queued := Db(n.queued.bodies - {h}, n.queued.justifications - {h}))
  }

  function Keep(setting: nat): nat {
    if setting > 1 then setting else 1
  }

  /** Finalizing number `f` prunes the block `Keep(setting)` below it. */
  function WindowPruned(n: Node, setting: nat, f: nat): Node {
    if f < Keep(setting) || f - Keep(setting) !in n.index then n
    else
      var h := n.index[f - Keep(setting)];
      BlockPruned(JustificationsCached(BodyCached(n, h), h), h)
  }

  function DisplacedPruned(n: Node, displaced: seq<BlockHash>): Node {
    if displaced == [] then n
    else
      var h := displaced[|displaced| - 1];
      BlockPruned(BodyCached(DisplacedPruned(n, displaced[..|displaced| - 1]), h), h)
  }

  function Justified(n: Node, fin: Finality): Node {
    match fin.justification
    case None => n
    case Some(j) =>
      n.(queued := n.queued.(justifications := n.queued.justifications[fin.hash := [j]]),
         pending := n.pending[fin.hash := j])
  }

  /** One block finalized; its number is the count of blocks finalized before it. */
  function FinalizedOne(n: Node, setting: nat, fin: Finality, displaced: seq<BlockHash>): Node {
    Justified(WindowPruned(DisplacedPruned(n, displaced), setting, n.height), fin).(height := n.height + 1)
  }

  /** The blocks of one operation in turn, displaced branches with the last of them. */
  function FinalizedFirst(n: Node, setting: nat, fins: seq<Finality>, k: nat, displaced: seq<BlockHash>): Node
    requires k <= |fins|
    decreases k
  {
    if k == 0 then n
    else FinalizedOne(FinalizedFirst(n, setting, fins, k - 1, displaced), setting, fins[k - 1],
                      if k == |fins| then displaced else [])
  }

  function Committed(n: Node): Node {
    n.(stored := n.queued, pending := map[])
  }

  function FinalizedAll(n: Node, setting: nat, fins: seq<Finality>, displaced: seq<BlockHash>): Node {
    Committed(FinalizedFirst(n, setting, fins, |fins|, displaced))
  }

  // ----- one pruning of one block

  /** A pinned block reads the same after its body is cached and pruned exactly when nothing else was cached for it. */
  lemma PinnedBodySurvives(n: Node, h: BlockHash)
    requires n.stored == n.queued
    ensures var r := Committed(BlockPruned(BodyCached(n, h), h));
            BodyOf(r, h) == BodyOf(n, h) <==>
              if h in n.cache.entries then n.cache.entries[h].body in {None, Some(Get(n.stored.bodies, h))}
              else h !in n.stored.bodies
  {
  }

  /** Pruning the same pinned block again loses its body. */
  lemma SecondPruningLosesTheBody(n: Node, h: BlockHash)
    requires n.stored == n.queued && h in n.cache.entries && h in n.stored.bodies
    ensures var once := Committed(BlockPruned(BodyCached(n, h), h));
            BodyOf(once, h) == Some(n.stored.bodies[h]) &&
            BodyOf(Committed(BlockPruned(BodyCached(once, h), h)), h) == None
  {
  }

  /** On the path of displaced branches a justification survives only if it was cached before. */
  lemma DisplacedJustification(n: Node, h: BlockHash)
    requires n.stored == n.queued
    ensures var r := Committed(BlockPruned(BodyCached(n, h), h));
            JustificationsOf(r, h) == JustificationsOf(n, h) <==>
              (h in n.cache.entries && n.cache.entries[h].justifications.Some?) || h !in n.stored.justifications
  {
  }

  // ----- the law over a run

  /** The node, and what it was told: bodies as imported, justifications as last set, displaced blocks, those of
      them displaced when their body had already left the database, pins, and blocks held since they had a body. */
  datatype World = World(
    node: Node, setting: nat, bodies: map<BlockHash, Body>, justifications: map<BlockHash, Justifications>,
    displaced: set<BlockHash>, twice: set<BlockHash>, ledger: Ledger, whole: set<BlockHash>)

  /** Block `h` still has its body, and nothing about it is cached. */
  ghost predicate Present(w: World, h: BlockHash) {
    var n := w.node;
    && h in w.bodies && Get(n.queued.bodies, h) == Get(n.stored.bodies, h) == Some(w.bodies[h])
    && Get(n.queued.justifications, h) == Get(w.justifications, h)
    && (if h in n.pending then Some([n.pending[h]]) else Get(n.stored.justifications, h)) == Get(w.justifications, h)
    && (h in n.cache.entries ==> n.cache.entries[h].body == None && n.cache.entries[h].justifications == None)
  }

  /** Block `h` was pruned; if it is held safely since before, its values are in the cache, but for the body of a
      block displaced once more after that. */
  ghost predicate Gone(w: World, h: BlockHash) {
    var n := w.node;
    h in w.bodies && h in w.whole && Safe(w.ledger, h) && h in n.cache.entries ==>
      && n.cache.entries[h].body == Some(if h in w.twice then None else Some(w.bodies[h]))
      && (h !in w.displaced ==> n.cache.entries[h].justifications == Some(Get(w.justifications, h)))
  }

  /** Among the finalized blocks exactly the last ones of the window have bodies. */
  ghost predicate Window(w: World) {
    var n := w.node;
    && (forall i :: 0 <= i < n.height ==> i in n.index && n.index[i] in w.bodies)
    && (forall i :: 0 <= i < n.height ==> (n.index[i] in n.queued.bodies <==> i + Keep(w.setting) >= n.height))
  }

  /** Nothing else was pruned. */
  ghost predicate OnlyThose(w: World) {
    forall h :: h in w.bodies && h !in w.node.queued.bodies ==>
      h in w.displaced || exists i :: 0 <= i < w.node.height && i in w.node.index && w.node.index[i] == h
  }

  /** A body read from the database is the one imported, and its block was not displaced after losing it. */
  ghost predicate StoredRight(w: World, h: BlockHash) {
    h in w.node.stored.bodies ==> h in w.bodies && w.node.stored.bodies[h] == w.bodies[h] && h !in w.twice
  }

  ghost predicate LawAt(w: World, h: BlockHash) {
    && StoredRight(w, h)
    && if h in w.node.queued.bodies then Present(w, h) else Gone(w, h)
  }

  ghost predicate BlockLaw(w: World) {
    forall h :: LawAt(w, h)
  }

  /** Only known blocks are held or displaced, displaced blocks have no body, and only blocks with a body have
      justifications. */
  ghost predicate Known(w: World) {
    && w.twice <= w.displaced <= w.bodies.Keys && w.displaced !! w.node.queued.bodies.Keys
    && w.whole <= w.ledger.holders.Keys <= w.bodies.Keys
    && w.justifications.Keys <= w.bodies.Keys
    && w.node.queued.justifications.Keys <= w.node.queued.bodies.Keys <= w.bodies.Keys
  }

  ghost predicate MidLaw(w: World) {
    && Tracks(w.node.cache, w.ledger) && Known(w)
    && Window(w) && OnlyThose(w) && BlockLaw(w)
  }

  ghost predicate Law(w: World) {
    && w.node.stored.bodies == w.node.queued.bodies
    && w.node.stored == w.node.queued && w.node.pending == map[]
    && MidLaw(w)
  }

  /** Every number below `top` has its own block. */
  ghost predicate OneEach(index: map<nat, BlockHash>, top: nat) {
    && (forall i :: 0 <= i < top ==> i in index)
    && (forall i, j :: 0 <= i < j < top ==> index[i] != index[j])
  }

  /** All that the law says of one block reads the same in both worlds. */
  ghost predicate SameAt(w: World, v: World, h: BlockHash) {
    && Get(w.node.stored.bodies, h) == Get(v.node.stored.bodies, h)
    && Get(w.node.queued.bodies, h) == Get(v.node.queued.bodies, h)
    && Get(w.node.stored.justifications, h) == Get(v.node.stored.justifications, h)
    && Get(w.node.queued.justifications, h) == Get(v.node.queued.justifications, h)
    && Get(w.node.pending, h) == Get(v.node.pending, h)
    && Get(w.node.cache.entries, h) == Get(v.node.cache.entries, h)
    && Get(w.bodies, h) == Get(v.bodies, h) && Get(w.justifications, h) == Get(v.justifications, h)
    && (h in w.displaced <==> h in v.displaced) && (h in w.twice <==> h in v.twice) && (h in w.whole <==> h in v.whole)
    && w.ledger == v.ledger
  }

  lemma SameLawAt(w: World, v: World, h: BlockHash)
    requires SameAt(w, v, h) && LawAt(w, h)
    ensures LawAt(v, h)
  {
    hide Safe;
  }

  // ----- pruning steps

  ghost predicate Unfinalized(n: Node, h: BlockHash) {
    forall i :: 0 <= i < n.height && i in n.index ==> n.index[i] != h
  }

  ghost function DisplaceOne(w: World, h: BlockHash): World {
    w.(node := BlockPruned(BodyCached(w.node, h), h), displaced := w.displaced + {h},
       twice := if h in w.node.stored.bodies then w.twice else w.twice + {h})
  }

  lemma BodyCachedKeepsTrack(n: Node, l: Ledger, h: BlockHash)
    requires Tracks(n.cache, l)
    ensures Tracks(BodyCached(n, h).cache, l)
  {
    hide Tracks;
    assert SameBookkeeping(n.cache, BodyCached(n, h).cache);
    FillingKeepsTrack(n.cache, BodyCached(n, h).cache, l);
  }

  lemma JustificationsCachedKeepsTrack(n: Node, l: Ledger, h: BlockHash)
    requires Tracks(n.cache, l)
    ensures Tracks(JustificationsCached(n, h).cache, l)
  {
    hide Tracks;
    assert SameBookkeeping(n.cache, JustificationsCached(n, h).cache);
    FillingKeepsTrack(n.cache, JustificationsCached(n, h).cache, l);
  }

  lemma DisplacedAt(w: World, h: BlockHash, g: BlockHash)
    requires LawAt(w, g)
    ensures LawAt(DisplaceOne(w, h), g)
  {
    hide Safe;
    if g != h {
      SameLawAt(w, DisplaceOne(w, h), g);
    }
  }

  lemma DisplacedRest(w: World, h: BlockHash)
    requires Window(w) && OnlyThose(w) && Unfinalized(w.node, h)
    ensures Window(DisplaceOne(w, h)) && OnlyThose(DisplaceOne(w, h))
  {
    var w' := DisplaceOne(w, h);
    forall g | g in w'.bodies && g !in w'.node.queued.bodies
      ensures g in w'.displaced || exists i :: 0 <= i < w'.node.height && i in w'.node.index && w'.node.index[i] == g
    {
      assert g == h || g !in w.node.queued.bodies;
    }
  }

  lemma DisplacedKnown(w: World, h: BlockHash)
    requires Known(w) && h in w.bodies
    ensures Known(DisplaceOne(w, h))
  {
  }

  lemma DisplaceKeepsLaw(w: World, h: BlockHash)
    requires MidLaw(w) && h in w.bodies && Unfinalized(w.node, h)
    ensures MidLaw(DisplaceOne(w, h))
  {
    hide Tracks, Window, OnlyThose, LawAt, BodyCached;
    BodyCachedKeepsTrack(w.node, w.ledger, h);
    DisplacedRest(w, h);
    DisplacedKnown(w, h);
    hide Known;
    forall g
      ensures LawAt(DisplaceOne(w, h), g)
    {
      DisplacedAt(w, h, g);
    }
  }

  ghost function DisplaceMany(w: World, displaced: seq<BlockHash>): World {
    w.(node := DisplacedPruned(w.node, displaced), displaced := w.displaced + (set h | h in displaced),
       twice := w.twice + set h | h in displaced && h !in w.node.stored.bodies)
  }

  lemma {:induction false} DisplacedFrame(n: Node, displaced: seq<BlockHash>)
    ensures var r := DisplacedPruned(n, displaced);
            && r.height == n.height && r.index == n.index && r.stored == n.stored && r.pending == n.pending
            && forall h :: h in r.queued.bodies <==> h in n.queued.bodies && h !in displaced
    decreases |displaced|
  {
    if displaced != [] {
      var init, h := displaced[..|displaced| - 1], displaced[|displaced| - 1];
      DisplacedFrame(n, init);
      assert displaced == init + [h];
    }
  }

  lemma DisplacedSets(displaced: seq<BlockHash>, bodies: map<BlockHash, Body>)
    requires displaced != []
    ensures var init, h := displaced[..|displaced| - 1], displaced[|displaced| - 1];
            && (set g | g in displaced) == (set g | g in init) + {h}
            && (set g | g in displaced && g !in bodies) ==
               (set g | g in init && g !in bodies) + if h in bodies then {} else {h}
  {
    var init, h := displaced[..|displaced| - 1], displaced[|displaced| - 1];
    assert displaced == init + [h];
  }

  lemma DisplaceManyUnfolds(w: World, displaced: seq<BlockHash>)
    requires displaced != []
    ensures DisplaceMany(w, displaced) ==
            DisplaceOne(DisplaceMany(w, displaced[..|displaced| - 1]), displaced[|displaced| - 1])
  {
    DisplacedSets(displaced, w.node.stored.bodies);
    DisplacedFrame(w.node, displaced[..|displaced| - 1]);
  }

  /** Displaced blocks are known and not finalized; they may have lost their bodies before. */
  ghost predicate CanDisplace(w: World, displaced: seq<BlockHash>) {
    forall h :: h in displaced ==> h in w.bodies && Unfinalized(w.node, h)
  }

  lemma {:induction false} DisplaceManyKeepsLaw(w: World, displaced: seq<BlockHash>)
    requires MidLaw(w) && CanDisplace(w, displaced)
    ensures MidLaw(DisplaceMany(w, displaced))
    decreases |displaced|
  {
    hide MidLaw;
    if displaced == [] {
      assert DisplaceMany(w, displaced) == w;
    } else {
      hide DisplacedPruned, DisplaceOne;
      var init, h := displaced[..|displaced| - 1], displaced[|displaced| - 1];
      assert h in displaced && forall g :: g in init ==> g in displaced;
      DisplaceManyUnfolds(w, displaced);
      DisplacedFrame(w.node, init);
      DisplaceManyKeepsLaw(w, init);
      DisplaceKeepsLaw(DisplaceMany(w, init), h);
    }
  }

  // ----- the window moves by one

  /** A block is finalized: the world after the pruning of the window, with the height raised. */
  ghost function MoveWindow(w: World): World {
    w.(node := WindowPruned(w.node, w.setting, w.node.height).(height := w.node.height + 1))
  }

  lemma MovedElsewhere(w: World, g: BlockHash)
    requires Window(w) && (w.node.height < Keep(w.setting) || w.node.index[w.node.height - Keep(w.setting)] != g)
    ensures SameAt(w, MoveWindow(w), g)
  {
  }

  lemma MovedAt(w: World, g: BlockHash)
    requires LawAt(w, g) && Window(w)
    ensures LawAt(MoveWindow(w), g)
  {
    var f, keep := w.node.height, Keep(w.setting);
    if f < keep || w.node.index[f - keep] != g {
      MovedElsewhere(w, g);
      SameLawAt(w, MoveWindow(w), g);
    } else {
      MovedHere(w, g);
    }
  }

  lemma MovedHere(w: World, g: BlockHash)
    requires LawAt(w, g) && Window(w)
    requires w.node.height >= Keep(w.setting) && w.node.index[w.node.height - Keep(w.setting)] == g
    ensures LawAt(MoveWindow(w), g)
  {
    hide Safe;
    assert g in w.node.queued.bodies;
  }

  lemma MovedRest(w: World)
    requires Window(w) && OnlyThose(w) && OneEach(w.node.index, w.node.height + 1)
    requires w.node.index[w.node.height] in w.node.queued.bodies && w.node.index[w.node.height] in w.bodies
    ensures Window(MoveWindow(w)) && OnlyThose(MoveWindow(w))
  {
    var w', f, keep := MoveWindow(w), w.node.height, Keep(w.setting);
    forall i | 0 <= i < f + 1
      ensures w'.node.index[i] in w'.node.queued.bodies <==> i + keep >= f + 1
    {
      if f >= keep && i != f - keep {
        assert w.node.index[i] != w.node.index[f - keep];
      }
    }
    forall g | g in w'.bodies && g !in w'.node.queued.bodies
      ensures g in w'.displaced || exists i :: 0 <= i < w'.node.height && i in w'.node.index && w'.node.index[i] == g
    {
      if g in w.node.queued.bodies {
        assert w'.node.index[f - keep] == g;
      }
    }
  }

  lemma MovedTrack(w: World)
    requires Tracks(w.node.cache, w.ledger)
    ensures Tracks(MoveWindow(w).node.cache, w.ledger)
  {
    hide Tracks, BodyCached, JustificationsCached;
    var f, keep := w.node.height, Keep(w.setting);
    if f >= keep && f - keep in w.node.index {
      var h := w.node.index[f - keep];
      BodyCachedKeepsTrack(w.node, w.ledger, h);
      JustificationsCachedKeepsTrack(BodyCached(w.node, h), w.ledger, h);
    }
  }

  lemma MoveKeepsLaw(w: World)
    requires MidLaw(w) && OneEach(w.node.index, w.node.height + 1)
    requires w.node.index[w.node.height] in w.node.queued.bodies
    ensures MidLaw(MoveWindow(w))
  {
    hide Tracks, OnlyThose, Window, LawAt, WindowPruned, OneEach;
    MovedTrack(w);
    MovedKnown(w);
    MovedRest(w);
    hide Known;
    forall g
      ensures LawAt(MoveWindow(w), g)
    {
      MovedAt(w, g);
    }
  }

  lemma MovedKnown(w: World)
    requires Known(w)
    ensures Known(MoveWindow(w))
  {
    hide BodyCached, JustificationsCached;
    var f, keep := w.node.height, Keep(w.setting);
    if f >= keep && f - keep in w.node.index {
      CachingFrame(w.node, w.node.index[f - keep]);
    }
  }

  lemma CachingFrame(n: Node, h: BlockHash)
    ensures BodyCached(n, h).queued == n.queued && JustificationsCached(BodyCached(n, h), h).queued == n.queued
  {
  }

  // ----- the justification of the block just finalized

  ghost function JustifyOne(w: World, fin: Finality): World {
    w.(node := Justified(w.node, fin),
       justifications := match fin.justification
                         case None => w.justifications
                         case Some(j) => w.justifications[fin.hash := [j]])
  }

  lemma JustifyKeepsLaw(w: World, fin: Finality)
    requires MidLaw(w) && fin.hash in w.node.queued.bodies
    ensures MidLaw(JustifyOne(w, fin))
  {
    hide Tracks, Safe;
    assert LawAt(w, fin.hash);
    assert Known(JustifyOne(w, fin));
    hide Present, Gone, LawAt;
    forall g
      ensures LawAt(JustifyOne(w, fin), g)
    {
      JustifiedAt(w, fin, g);
    }
  }

  lemma JustifiedAt(w: World, fin: Finality, g: BlockHash)
    requires LawAt(w, g) && fin.hash in w.node.queued.bodies
    ensures LawAt(JustifyOne(w, fin), g)
  {
    hide Safe;
    if g != fin.hash || fin.justification.None? {
      SameLawAt(w, JustifyOne(w, fin), g);
    }
  }

  // ----- one operation

  ghost function FinalizeOne(w: World, fin: Finality, displaced: seq<BlockHash>): World {
    JustifyOne(MoveWindow(DisplaceMany(w, displaced)), fin)
  }

  /** What the rest of the database gives: the next block is indexed and stored, displaced blocks are known and
      not finalized. */
  ghost predicate CanFinalize(w: World, fin: Finality, displaced: seq<BlockHash>) {
    var n := w.node;
    && OneEach(n.index, n.height + 1) && n.index[n.height] == fin.hash && fin.hash in n.queued.bodies
    && CanDisplace(w, displaced) && fin.hash !in displaced
  }

  lemma FinalizeOneKeepsLaw(w: World, fin: Finality, displaced: seq<BlockHash>)
    requires MidLaw(w) && CanFinalize(w, fin, displaced)
    ensures MidLaw(FinalizeOne(w, fin, displaced))
    ensures FinalizeOne(w, fin, displaced).node == FinalizedOne(w.node, w.setting, fin, displaced)
  {
    hide MidLaw, DisplacedPruned;
    DisplaceManyKeepsLaw(w, displaced);
    DisplacedFrame(w.node, displaced);
    var w1 := DisplaceMany(w, displaced);
    MoveKeepsLaw(w1);
    var w2 := MoveWindow(w1);
    assert fin.hash in w2.node.queued.bodies by {
      StillStored(w1, fin.hash);
    }
    JustifyKeepsLaw(w2, fin);
  }

  lemma StillStored(w: World, h: BlockHash)
    requires OneEach(w.node.index, w.node.height + 1) && w.node.index[w.node.height] == h
    requires h in w.node.queued.bodies
    ensures h in MoveWindow(w).node.queued.bodies
  {
  }

  ghost function FinalizeFirst(w: World, fins: seq<Finality>, k: nat, displaced: seq<BlockHash>): World
    requires k <= |fins|
    decreases k
  {
    if k == 0 then w
    else FinalizeOne(FinalizeFirst(w, fins, k - 1, displaced), fins[k - 1], if k == |fins| then displaced else [])
  }

  /** The operation names the next blocks of the index, which are stored, and displaces known blocks off it. */
  ghost predicate CanOperate(w: World, fins: seq<Finality>, displaced: seq<BlockHash>) {
    var n := w.node;
    && OneEach(n.index, n.height + |fins|)
    && (forall i :: 0 <= i < |fins| ==> n.index[n.height + i] == fins[i].hash && fins[i].hash in n.queued.bodies)
    && (forall h :: h in displaced ==> h in w.bodies && forall i :: 0 <= i < n.height + |fins| ==> n.index[i] != h)
  }

  lemma OneFrame(w: World, fin: Finality, h: BlockHash)
    requires OneEach(w.node.index, w.node.height)
    ensures var r := FinalizeOne(w, fin, []);
            && r.bodies == w.bodies && r.node.height == w.node.height + 1 && r.node.index == w.node.index
            && ((forall i :: 0 <= i < w.node.height ==> w.node.index[i] != h) && h in w.node.queued.bodies ==>
                  h in r.node.queued.bodies)
  {
    assert DisplaceMany(w, []).node == w.node;
  }

  /** What the first `k` blocks of an operation leave alone. */
  lemma {:induction false} FirstFrame(w: World, fins: seq<Finality>, k: nat, displaced: seq<BlockHash>, h: BlockHash)
    requires k < |fins| && OneEach(w.node.index, w.node.height + |fins|)
    ensures FinalizeFirst(w, fins, k, displaced).bodies == w.bodies
    ensures var n := FinalizeFirst(w, fins, k, displaced).node;
            && n.height == w.node.height + k && n.index == w.node.index
            && ((forall i :: 0 <= i < n.height ==> n.index[i] != h) && h in w.node.queued.bodies ==>
                  h in n.queued.bodies)
    decreases k
  {
    hide FinalizeOne;
    if k > 0 {
      FirstFrame(w, fins, k - 1, displaced, h);
      OneFrame(FinalizeFirst(w, fins, k - 1, displaced), fins[k - 1], h);
    }
  }

  lemma NextCanFinalize(w: World, fins: seq<Finality>, k: nat, displaced: seq<BlockHash>)
    requires CanOperate(w, fins, displaced) && k < |fins|
    ensures CanFinalize(FinalizeFirst(w, fins, k, displaced), fins[k], if k + 1 == |fins| then displaced else [])
  {
    hide FinalizeFirst;
    FirstFrame(w, fins, k, displaced, fins[k].hash);
  }

  lemma {:induction false} FinalizeFirstKeepsLaw(w: World, fins: seq<Finality>, k: nat, displaced: seq<BlockHash>)
    requires MidLaw(w) && CanOperate(w, fins, displaced) && k <= |fins|
    ensures MidLaw(FinalizeFirst(w, fins, k, displaced))
    ensures FinalizeFirst(w, fins, k, displaced).setting == w.setting
    ensures FinalizeFirst(w, fins, k, displaced).node == FinalizedFirst(w.node, w.setting, fins, k, displaced)
    decreases k
  {
    hide MidLaw, CanOperate, FinalizeOne, FinalizedOne;
    if k > 0 {
      FinalizeFirstKeepsLaw(w, fins, k - 1, displaced);
      var w1 := FinalizeFirst(w, fins, k - 1, displaced);
      var d := if k == |fins| then displaced else [];
      NextCanFinalize(w, fins, k - 1, displaced);
      FinalizeOneKeepsLaw(w1, fins[k - 1], d);
      SettingKept(w1, fins[k - 1], d);
    }
  }

  lemma SettingKept(w: World, fin: Finality, displaced: seq<BlockHash>)
    ensures FinalizeOne(w, fin, displaced).setting == w.setting
    ensures FinalizeOne(w, fin, displaced).ledger == w.ledger && FinalizeOne(w, fin, displaced).bodies == w.bodies
  {
  }

  // ----- runs

  datatype Step =
    | Import(hash: BlockHash, body: Body, js: Option<Justifications>, index: map<nat, BlockHash>)
    | Pin(hash: BlockHash)
    | Unpin(hash: BlockHash)
    | Finalize(fins: seq<Finality>, displaced: seq<BlockHash>)

  function ImportedNode(n: Node, h: BlockHash, body: Body, js: Option<Justifications>,
                        index: map<nat, BlockHash>): Node {
    var db := Db(n.stored.bodies[h := body],
                 if js.Some? then n.stored.justifications[h := js.value] else n.stored.justifications);
    n.(stored := db, queued := db, index := index)
  }

  /** A block is imported once, the index below finality stands, pins are few enough to count and given back once. */
  ghost predicate Legal(w: World, step: Step) {
    match step
    case Import(h, body, js, index) =>
      && h !in w.bodies
      && (forall i :: 0 <= i < w.node.height ==> i in index && i in w.node.index && index[i] == w.node.index[i])
    case Pin(h) => h in w.bodies && (h in w.ledger.holders ==> w.ledger.holders[h] < U32_MAX)
    case Unpin(h) => h in w.ledger.holders
    case Finalize(fins, displaced) => CanOperate(w, fins, displaced)
  }

  ghost function Next(w: World, step: Step): World
    requires LedgerOk(w.ledger) && Legal(w, step)
  {
    match step
    case Import(h, body, js, index) =>
      w.(node := ImportedNode(w.node, h, body, js, index), bodies := w.bodies[h := body],
         justifications := if js.Some? then w.justifications[h := js.value] else w.justifications)
    case Pin(h) =>
      w.(node := w.node.(cache := Pinned(w.node.cache, h)), ledger := AfterPin(w.ledger, h),
         whole := if h !in w.ledger.holders && h in w.node.stored.bodies then w.whole + {h} else w.whole)
    case Unpin(h) =>
      w.(node := w.node.(cache := Unpinned(w.node.cache, h)), ledger := AfterUnpin(w.ledger, h),
         whole := if w.ledger.holders[h] <= 1 then w.whole - {h} else w.whole)
    case Finalize(fins, displaced) =>
      var r := FinalizeFirst(w, fins, |fins|, displaced);
      r.(node := Committed(r.node))
  }

  lemma CommitKeepsLaw(w: World)
    requires MidLaw(w)
    ensures Law(w.(node := Committed(w.node)))
  {
    var w' := w.(node := Committed(w.node));
    hide Tracks, Safe;
    forall h
      ensures LawAt(w', h)
    {
      assert LawAt(w, h);
    }
  }

  lemma ImportedAt(w: World, step: Step, h: BlockHash)
    requires Law(w) && step.Import? && Legal(w, step)
    ensures LawAt(Next(w, step), h)
  {
    NotCached(w, step.hash);
    hide Tracks, Safe, Window, OnlyThose;
    assert LawAt(w, h);
    if h != step.hash {
      SameLawAt(w, Next(w, step), h);
    }
  }

  lemma ImportedRest(w: World, step: Step)
    requires Window(w) && OnlyThose(w) && w.node.stored == w.node.queued
    requires LedgerOk(w.ledger) && step.Import? && Legal(w, step)
    ensures Window(Next(w, step)) && OnlyThose(Next(w, step))
  {
    var w' := Next(w, step);
    assert forall i :: 0 <= i < w.node.height ==> w'.node.index[i] == w.node.index[i];
    forall h | h in w'.bodies && h !in w'.node.queued.bodies && h !in w'.displaced
      ensures exists i :: 0 <= i < w'.node.height && i in w'.node.index && w'.node.index[i] == h
    {
      var i :| 0 <= i < w.node.height && i in w.node.index && w.node.index[i] == h;
      assert w'.node.index[i] == h;
    }
  }

  lemma ImportKeepsLaw(w: World, step: Step)
    requires Law(w) && step.Import? && Legal(w, step)
    ensures Law(Next(w, step))
  {
    ImportedRest(w, step);
    hide Tracks, Window, OnlyThose, LawAt;
    forall h
      ensures LawAt(Next(w, step), h)
    {
      ImportedAt(w, step, h);
    }
  }

  lemma NotCached(w: World, h: BlockHash)
    requires Tracks(w.node.cache, w.ledger) && Known(w) && h !in w.bodies
    ensures h !in w.node.cache.entries && h !in w.node.queued.justifications && h !in w.justifications
  {
  }

  // ----- pins

  /** Pinning a block leaves the values cached with every entry that stays. */
  lemma PinnedValues(c: Cache, h: BlockHash, g: BlockHash)
    requires g in Pinned(c, h).entries
    ensures g != h ==> g in c.entries
    ensures g in c.entries ==>
              && Pinned(c, h).entries[g].body == c.entries[g].body
              && Pinned(c, h).entries[g].justifications == c.entries[g].justifications
    ensures g !in c.entries ==> Pinned(c, h).entries[g].body == None && Pinned(c, h).entries[g].justifications == None
  {
  }

  lemma SafeBefore(w: World, h: BlockHash, g: BlockHash)
    requires LedgerOk(w.ledger) && w.whole <= w.ledger.holders.Keys
    requires Safe(AfterPin(w.ledger, h), g) && g in w.whole
    ensures Safe(w.ledger, g)
  {
    GrowsRivals(w.ledger, h, g);
  }

  lemma PinnedAt(w: World, h: BlockHash, g: BlockHash)
    requires Law(w) && Legal(w, Pin(h))
    ensures LawAt(Next(w, Pin(h)), g)
  {
    var w' := Next(w, Pin(h));
    assert LawAt(w, g);
    if g in w'.node.cache.entries {
      PinnedValues(w.node.cache, h, g);
      if g in w.whole && Safe(w'.ledger, g) {
        SafeBefore(w, h, g);
        assert g in w.node.cache.entries;
      }
    }
    hide Tracks, Safe, Window, OnlyThose, Pinned, AfterPin;
  }

  lemma PinnedRest(w: World, h: BlockHash)
    requires Window(w) && OnlyThose(w) && Known(w) && LedgerOk(w.ledger) && Legal(w, Pin(h))
    ensures Window(Next(w, Pin(h))) && OnlyThose(Next(w, Pin(h))) && Known(Next(w, Pin(h)))
  {
    hide Pinned;
    assert AfterPin(w.ledger, h).holders.Keys == w.ledger.holders.Keys + {h};
    hide AfterPin;
  }

  lemma PinKeepsLaw(w: World, h: BlockHash)
    requires Law(w) && Legal(w, Pin(h))
    ensures Law(Next(w, Pin(h)))
  {
    assert LedgerOk(w.ledger);
    hide Tracks, LawAt, Window, OnlyThose, Known, Pinned, AfterPin;
    PinKeepsTrack(w.node.cache, w.ledger, h);
    PinnedRest(w, h);
    forall g
      ensures LawAt(Next(w, Pin(h)), g)
    {
      PinnedAt(w, h, g);
    }
  }

  lemma UnpinnedAt(w: World, h: BlockHash, g: BlockHash)
    requires Law(w) && Legal(w, Unpin(h))
    ensures LawAt(Next(w, Unpin(h)), g)
  {
    hide Tracks, Window, OnlyThose;
    assert LawAt(w, g);
  }

  lemma UnpinnedRest(w: World, h: BlockHash)
    requires Window(w) && OnlyThose(w) && Known(w) && LedgerOk(w.ledger) && Legal(w, Unpin(h))
    ensures Window(Next(w, Unpin(h))) && OnlyThose(Next(w, Unpin(h))) && Known(Next(w, Unpin(h)))
  {
    hide Unpinned;
    assert AfterUnpin(w.ledger, h).holders.Keys ==
           if w.ledger.holders[h] <= 1 then w.ledger.holders.Keys - {h} else w.ledger.holders.Keys;
    hide AfterUnpin;
  }

  lemma UnpinKeepsLaw(w: World, h: BlockHash)
    requires Law(w) && Legal(w, Unpin(h))
    ensures Law(Next(w, Unpin(h)))
  {
    assert LedgerOk(w.ledger);
    hide Tracks, LawAt, Window, OnlyThose, Known, Unpinned, AfterUnpin;
    UnpinKeepsTrack(w.node.cache, w.ledger, h);
    UnpinnedRest(w, h);
    forall g
      ensures LawAt(Next(w, Unpin(h)), g)
    {
      UnpinnedAt(w, h, g);
    }
  }

  lemma StepKeepsLaw(w: World, step: Step)
    requires Law(w) && Legal(w, step)
    ensures Law(Next(w, step))
    ensures Next(w, step).setting == w.setting
  {
    match step
    case Import(_, _, _, _) => ImportKeepsLaw(w, step);
    case Pin(h) => PinKeepsLaw(w, h);
    case Unpin(h) => UnpinKeepsLaw(w, h);
    case Finalize(fins, displaced) =>
      FinalizeFirstKeepsLaw(w, fins, |fins|, displaced);
      CommitKeepsLaw(FinalizeFirst(w, fins, |fins|, displaced));
  }

  ghost predicate LegalRun(w: World, steps: seq<Step>)
    requires Law(w)
    decreases |steps|
  {
    steps == [] || (Legal(w, steps[0]) && (StepKeepsLaw(w, steps[0]); LegalRun(Next(w, steps[0]), steps[1..])))
  }

  ghost function Run(w: World, steps: seq<Step>): (r: World)
    requires Law(w) && LegalRun(w, steps)
    ensures Law(r)
    decreases |steps|
  {
    if steps == [] then w
    else
      StepKeepsLaw(w, steps[0]);
      Run(Next(w, steps[0]), steps[1..])
  }

  ghost function Fresh(setting: nat): (w: World)
    ensures Law(w)
  {
    var node := Node(Db(map[], map[]), Db(map[], map[]), map[], map[], 0, Cache(map[], 0));
    World(node, setting, map[], map[], {}, {}, Ledger(map[], map[], {}), {})
  }

  lemma {:induction false} SettingStays(w: World, steps: seq<Step>)
    requires Law(w) && LegalRun(w, steps)
    ensures Run(w, steps).setting == w.setting
    decreases |steps|
  {
    if steps != [] {
      StepKeepsLaw(w, steps[0]);
      SettingStays(Next(w, steps[0]), steps[1..]);
    }
  }

  /**
   After any run that has finalized `height` blocks in sequence, exactly the last
   `setting` of them have bodies, at least the last one, and all of them while
   there are fewer; every other missing body belongs to a displaced block.
   */
  lemma WindowIsExact(setting: nat, steps: seq<Step>, i: nat)
    requires LegalRun(Fresh(setting), steps)
    requires i < Run(Fresh(setting), steps).node.height
    ensures var n := Run(Fresh(setting), steps).node;
            i in n.index && (n.index[i] in n.stored.bodies <==> i + setting >= n.height || i + 1 == n.height)
  {
    SettingStays(Fresh(setting), steps);
    hide Run;
    var w := Run(Fresh(setting), steps);
    assert Window(w);
  }

  /** After any run a known block lacks its body exactly when it was displaced or has left the window. */
  lemma OnlyWindowAndDisplacedPruned(setting: nat, steps: seq<Step>, h: BlockHash)
    requires LegalRun(Fresh(setting), steps)
    requires h in Run(Fresh(setting), steps).bodies
    ensures var w := Run(Fresh(setting), steps);
            h !in w.node.stored.bodies <==>
              || h in w.displaced
              || exists i :: 0 <= i < w.node.height - 1 && i + setting < w.node.height && i in w.node.index &&
                   w.node.index[i] == h
  {
    SettingStays(Fresh(setting), steps);
    hide Run;
    var w := Run(Fresh(setting), steps);
    assert Known(w) && Window(w) && OnlyThose(w);
    if h !in w.node.stored.bodies && h !in w.displaced {
      var i :| 0 <= i < w.node.height && i in w.node.index && w.node.index[i] == h;
      assert i + Keep(setting) < w.node.height;
    }
  }

  /** After any run a body in the database is the one imported, with the justifications last set for its block; a
      block without a body has none. */
  lemma StoredBlocksRead(setting: nat, steps: seq<Step>, h: BlockHash)
    requires LegalRun(Fresh(setting), steps)
    ensures var w := Run(Fresh(setting), steps);
            if h in w.node.stored.bodies
            then && h in w.bodies && w.node.stored.bodies[h] == w.bodies[h]
                 && Get(w.node.stored.justifications, h) == Get(w.justifications, h)
            else h !in w.node.stored.justifications
  {
    hide Run, Window, OnlyThose;
    var w := Run(Fresh(setting), steps);
    assert LawAt(w, h) && Known(w);
  }

  /**
   A block whose body was stored when its present holders pinned it, and since
   each of whose pins fewer than 2048 other blocks were pinned before the next, reads its body as imported if
   and only if it was not displaced after losing it, and no body otherwise; and it
   reads its justifications as last set unless it was displaced.
   */
  lemma PinnedBlocksRead(setting: nat, steps: seq<Step>, h: BlockHash)
    requires LegalRun(Fresh(setting), steps)
    requires var w := Run(Fresh(setting), steps); h in w.whole && Safe(w.ledger, h)
    ensures var w := Run(Fresh(setting), steps);
            && h in w.bodies && BodyOf(w.node, h) == (if h in w.twice then None else Some(w.bodies[h]))
            && (h !in w.displaced ==> JustificationsOf(w.node, h) == Get(w.justifications, h))
  {
    hide Run, Window, OnlyThose;
    var w := Run(Fresh(setting), steps);
    assert LawAt(w, h);
    assert h in w.ledger.holders && h in w.node.cache.entries;
  }

  // ----- a held block that loses its body

  lemma LawfulLedger(w: World)
    requires Law(w)
    ensures LedgerOk(w.ledger)
  {
  }

  lemma {:induction false} RunAppends(w: World, steps: seq<Step>, step: Step)
    requires Law(w) && LegalRun(w, steps) && Legal(Run(w, steps), step)
    ensures LegalRun(w, steps + [step])
    ensures LedgerOk(Run(w, steps).ledger) && Run(w, steps + [step]) == Next(Run(w, steps), step)
    decreases |steps|
  {
    hide Law, Legal, Next, LedgerOk;
    LawfulLedger(Run(w, steps));
    LawfulLedger(w);
    var all := steps + [step];
    if steps == [] {
      StepKeepsLaw(w, step);
      assert all[1..] == [];
    } else {
      StepKeepsLaw(w, steps[0]);
      RunAppends(Next(w, steps[0]), steps[1..], step);
      assert all[0] == steps[0] && all[1..] == steps[1..] + [step];
    }
  }

  /** What decides whether a step is legal, and which blocks are displaced again. */
  datatype View = View(known: set<BlockHash>, stored: set<BlockHash>, index: map<nat, BlockHash>, height: nat,
                       ledger: Ledger, whole: set<BlockHash>, twice: set<BlockHash>)

  ghost function ViewOf(w: World): View {
    View(w.bodies.Keys, w.node.stored.bodies.Keys, w.node.index, w.node.height, w.ledger, w.whole, w.twice)
  }

  function ImportView(v: View, h: BlockHash, index: map<nat, BlockHash>): View {
    v.(known := v.known + {h}, stored := v.stored + {h}, index := index)
  }

  function FinalizeView(v: View, displaced: seq<BlockHash>): View {
    var d := set h | h in displaced;
    v.(stored := v.stored - d, height := v.height + 1, twice := v.twice + (d - v.stored))
  }

  lemma ImportViews(w: World, h: BlockHash, body: Body, index: map<nat, BlockHash>)
    requires LedgerOk(w.ledger) && Legal(w, Import(h, body, None, index))
    ensures ViewOf(Next(w, Import(h, body, None, index))) == ImportView(ViewOf(w), h, index)
  {
  }

  lemma FinalizeFirstOfOne(w: World, fin: Finality, displaced: seq<BlockHash>)
    ensures FinalizeFirst(w, [fin], 1, displaced) == FinalizeOne(w, fin, displaced)
  {
    hide FinalizeOne;
    assert FinalizeFirst(w, [fin], 0, displaced) == w;
  }

  /** While the window is not full, only displaced blocks are pruned. */
  lemma FinalizeViews(w: World, fin: Finality, displaced: seq<BlockHash>)
    requires Law(w) && Legal(w, Finalize([fin], displaced)) && w.node.height < Keep(w.setting)
    ensures ViewOf(Next(w, Finalize([fin], displaced))) == FinalizeView(ViewOf(w), displaced)
  {
    hide MidLaw, CanOperate;
    FinalizeFirstOfOne(w, fin, displaced);
    hide FinalizeFirst;
    DisplacedFrame(w.node, displaced);
    hide DisplacedPruned;
    var r, d := FinalizeOne(w, fin, displaced), set h | h in displaced;
    assert (set h | h in displaced && h !in w.node.stored.bodies) == d - w.node.stored.bodies.Keys;
    assert r.node.queued.bodies.Keys == w.node.queued.bodies.Keys - d;
  }

  ghost predicate Reaches(setting: nat, steps: seq<Step>, v: View) {
    && LegalRun(Fresh(setting), steps)
    && ViewOf(Run(Fresh(setting), steps)) == v
  }

  lemma ThenImport(setting: nat, steps: seq<Step>, v: View, h: BlockHash, body: Body, index: map<nat, BlockHash>,
                   after: View)
    requires Reaches(setting, steps, v) && h !in v.known && after == ImportView(v, h, index)
    requires forall i :: 0 <= i < v.height ==> i in index && i in v.index && index[i] == v.index[i]
    ensures Reaches(setting, steps + [Import(h, body, None, index)], after)
  {
    hide Law, Run, LegalRun;
    var w := Run(Fresh(setting), steps);
    RunAppends(Fresh(setting), steps, Import(h, body, None, index));
    ImportViews(w, h, body, index);
  }

  lemma ThenPin(setting: nat, steps: seq<Step>, v: View, h: BlockHash)
    requires Reaches(setting, steps, v) && v.ledger == NO_PINS && h in v.known && h in v.stored
    ensures Reaches(setting, steps + [Pin(h)], v.(ledger := AfterPin(NO_PINS, h), whole := v.whole + {h}))
  {
    hide Law, Run, LegalRun;
    RunAppends(Fresh(setting), steps, Pin(h));
  }

  ghost predicate Finalizable(v: View, h: BlockHash, displaced: seq<BlockHash>) {
    && OneEach(v.index, v.height + 1) && v.index[v.height] == h && h in v.stored
    && forall g :: g in displaced ==> g in v.known && forall i :: 0 <= i <= v.height ==> v.index[i] != g
  }

  lemma FinalizableIsLegal(w: World, h: BlockHash, displaced: seq<BlockHash>)
    requires Law(w) && Finalizable(ViewOf(w), h, displaced)
    ensures Legal(w, Finalize([Plain(h)], displaced))
  {
    hide MidLaw;
  }

  lemma ThenFinalize(setting: nat, steps: seq<Step>, v: View, h: BlockHash, displaced: seq<BlockHash>, after: View)
    requires Reaches(setting, steps, v) && v.height < setting && Finalizable(v, h, displaced)
    requires after == FinalizeView(v, displaced)
    ensures Reaches(setting, steps + [Finalize([Plain(h)], displaced)], after)
  {
    hide Law, Run, LegalRun, Legal, Next, Finalizable, FinalizeView;
    var w := Run(Fresh(setting), steps);
    SettingStays(Fresh(setting), steps);
    FinalizableIsLegal(w, h, displaced);
    RunAppends(Fresh(setting), steps, Finalize([Plain(h)], displaced));
    FinalizeViews(w, Plain(h), displaced);
  }

  const NO_PINS: Ledger := Ledger(map[], map[], {})

  function Plain(h: BlockHash): Finality {
    Finality(h, None)
  }

  const UP_TO_1: map<nat, BlockHash> := map[0 := 0, 1 := 1]
  const UP_TO_3: map<nat, BlockHash> := map[0 := 0, 1 := 1, 2 := 3]

  function GenesisFinalized(body: Body): seq<Step> {
    [Import(0, body, None, map[0 := 0])] + [Finalize([Plain(0)], [])]
  }

  /** Blocks 1 and 2 on genesis; 2 is pinned. */
  function SiblingPinned(body: Body): seq<Step> {
    GenesisFinalized(body) + [Import(1, body, None, UP_TO_1)] + [Import(2, body, None, UP_TO_1)] + [Pin(2)]
  }

  /** Finalizing 1 displaces 2; then come 3 on 1 and 4 on 2. */
  function SiblingDisplaced(body: Body): seq<Step> {
    SiblingPinned(body) + [Finalize([Plain(1)], [2])] +
    [Import(3, body, None, UP_TO_3)] + [Import(4, body, None, UP_TO_3)]
  }

  /** Finalizing 3 displaces the branch of 4, in which 2 lies. */
  function SiblingDisplacedTwice(body: Body): seq<Step> {
    SiblingDisplaced(body) + [Finalize([Plain(3)], [4, 2])]
  }

  lemma ReachNothing(setting: nat)
    ensures Reaches(setting, [], View({}, {}, map[], 0, NO_PINS, {}, {}))
  {
  }

  lemma ReachGenesis(setting: nat, body: Body)
    requires setting >= 3
    ensures Reaches(setting, GenesisFinalized(body), View({0}, {0}, map[0 := 0], 1, NO_PINS, {}, {}))
  {
    hide Reaches;
    ReachNothing(setting);
    var start, v := View({}, {}, map[], 0, NO_PINS, {}, {}), View({0}, {0}, map[0 := 0], 0, NO_PINS, {}, {});
    ThenImport(setting, [], start, 0, body, map[0 := 0], v);
    assert [] + [Import(0, body, None, map[0 := 0])] == [Import(0, body, None, map[0 := 0])];
    ThenFinalize(setting, [Import(0, body, None, map[0 := 0])], v, 0, [], v.(height := 1));
  }

  lemma ReachPinned(setting: nat, body: Body)
    requires setting >= 3
    ensures Reaches(setting, SiblingPinned(body),
                    View({0, 1, 2}, {0, 1, 2}, UP_TO_1, 1, AfterPin(NO_PINS, 2), {2}, {}))
  {
    hide Reaches, AfterPin, GenesisFinalized;
    ReachGenesis(setting, body);
    var steps, v := GenesisFinalized(body), View({0}, {0}, map[0 := 0], 1, NO_PINS, {}, {});
    var v1, v2 := View({0, 1}, {0, 1}, UP_TO_1, 1, NO_PINS, {}, {}),
                  View({0, 1, 2}, {0, 1, 2}, UP_TO_1, 1, NO_PINS, {}, {});
    ThenImport(setting, steps, v, 1, body, UP_TO_1, v1);
    steps := steps + [Import(1, body, None, UP_TO_1)];
    ThenImport(setting, steps, v1, 2, body, UP_TO_1, v2);
    steps := steps + [Import(2, body, None, UP_TO_1)];
    ThenPin(setting, steps, v2, 2);
    assert v2.whole + {2} == {2};
  }

  lemma ReachDisplaced(setting: nat, body: Body)
    requires setting >= 3
    ensures Reaches(setting, SiblingDisplaced(body),
                    View({0, 1, 2, 3, 4}, {0, 1, 3, 4}, UP_TO_3, 2, AfterPin(NO_PINS, 2), {2}, {}))
  {
    hide Reaches, AfterPin, SiblingPinned;
    ReachPinned(setting, body);
    var steps, held := SiblingPinned(body), AfterPin(NO_PINS, 2);
    var v2, v := View({0, 1, 2}, {0, 1, 2}, UP_TO_1, 1, held, {2}, {}),
                 View({0, 1, 2}, {0, 1}, UP_TO_1, 2, held, {2}, {});
    var v3, v4 := View({0, 1, 2, 3}, {0, 1, 3}, UP_TO_3, 2, held, {2}, {}),
                  View({0, 1, 2, 3, 4}, {0, 1, 3, 4}, UP_TO_3, 2, held, {2}, {});
    ThenFinalize(setting, steps, v2, 1, [2], v);
    steps := steps + [Finalize([Plain(1)], [2])];
    ThenImport(setting, steps, v, 3, body, UP_TO_3, v3);
    steps := steps + [Import(3, body, None, UP_TO_3)];
    ThenImport(setting, steps, v3, 4, body, UP_TO_3, v4);
  }

  lemma ReachDisplacedTwice(setting: nat, body: Body)
    requires setting >= 3
    ensures Reaches(setting, SiblingDisplacedTwice(body),
                    View({0, 1, 2, 3, 4}, {0, 1, 3}, UP_TO_3, 3, AfterPin(NO_PINS, 2), {2}, {2}))
  {
    hide Reaches, AfterPin, SiblingDisplaced;
    ReachDisplaced(setting, body);
    var v4 := View({0, 1, 2, 3, 4}, {0, 1, 3, 4}, UP_TO_3, 2, AfterPin(NO_PINS, 2), {2}, {});
    ThenFinalize(setting, SiblingDisplaced(body), v4, 3, [4, 2],
                 v4.(stored := {0, 1, 3}, height := 3, twice := {2}));
  }

  /** A block held all along can so lose its body: the second displacement caches none over the first one's. */
  lemma HeldBlockLosesItsBody(setting: nat, body: Body)
    requires setting >= 3
    ensures LegalRun(Fresh(setting), SiblingDisplacedTwice(body))
    ensures var w := Run(Fresh(setting), SiblingDisplacedTwice(body));
            2 in w.whole && Safe(w.ledger, 2) && 2 in w.twice && 2 in w.bodies && BodyOf(w.node, 2) == None
  {
    hide Run, LegalRun, SiblingDisplacedTwice, Law;
    ReachDisplacedTwice(setting, body);
    PinnedBlocksRead(setting, SiblingDisplacedTwice(body), 2);
  }

  // ----- the object

  class PruningBackend {
    var stored: Db
    var queued: Db
    var pending: map<BlockHash, Justification>
    var index: map<nat, BlockHash>
    var height: nat
    const pinned: PinnedBlocksCache
    const setting: nat

    constructor (setting: nat)
      ensures Value() == Node(Db(map[], map[]), Db(map[], map[]), map[], map[], 0, Cache(map[], 0))
      ensures fresh(pinned) && this.setting == setting
    {
      stored, queued, pending := Db(map[], map[]), Db(map[], map[]), map[];
      index, height := map[], 0;
      pinned := new PinnedBlocksCache();
      this.setting := setting;
    }

    function Value(): Node
      reads this, pinned
    {
      Node(stored, queued, pending, index, height, pinned.Value())
    }

    method InsertPersistedBodyIfPinned(h: BlockHash)
      modifies pinned
      ensures Value() == BodyCached(old(Value()), h)
    {
      if h in pinned.cache {
        pinned.InsertBody(h, Get(stored.bodies, h));
      }
    }

    /** The justification set by this transaction if there is one, else the stored ones. */
    method InsertJustificationsIfPinned(h: BlockHash)
      modifies this`pending, pinned
      ensures Value() == JustificationsCached(old(Value()), h)
    {
      if h in pending {
        var justification := pending[h];
        pending := pending - {h};
        if h in pinned.cache {
          pinned.InsertJustifications(h, Some([justification]));
        }
      } else if h in pinned.cache {
        pinned.InsertJustifications(h, Get(stored.justifications, h));
      }
    }

    method PruneBlock(h: BlockHash)
      modifies this`queued
      ensures Value() == BlockPruned(old(Value()), h)
    {
      queued := Db(queued.bodies - {h}, queued.justifications - {h});
    }

    method PruneBlocks()
      modifies this, pinned
      ensures Value() == WindowPruned(old(Value()), setting, height)
    {
      var keep := if setting > 1 then setting else 1;
      if height >= keep {
        var number := height - keep;
        if number in index {
          var h := index[number];
          InsertPersistedBodyIfPinned(h);
          InsertJustificationsIfPinned(h);
          PruneBlock(h);
        }
      }
    }

    method PruneDisplacedBranches(displaced: seq<BlockHash>)
      modifies this, pinned
      ensures Value() == DisplacedPruned(old(Value()), displaced)
    {
      ghost var n := Value();
      var i := 0;
      while i < |displaced|
        invariant i <= |displaced|
        invariant Value() == DisplacedPruned(n, displaced[..i])
      {
        assert displaced[..i + 1][..i] == displaced[..i];
        InsertPersistedBodyIfPinned(displaced[i]);
        PruneBlock(displaced[i]);
        i := i + 1;
      }
      assert displaced[..i] == displaced;
    }

    method FinalizeBlock(fin: Finality, displaced: seq<BlockHash>)
      modifies this, pinned
      ensures Value() == FinalizedOne(old(Value()), setting, fin, displaced)
    {
      DisplacedFrame(Value(), displaced);
      PruneDisplacedBranches(displaced);
      PruneBlocks();
      if fin.justification.Some? {
        queued := queued.(justifications := queued.justifications[fin.hash := [fin.justification.value]]);
        pending := pending[fin.hash := fin.justification.value];
      }
      height := height + 1;
    }

    /** One operation: its blocks in turn, displaced branches with the last of them, then the commit. */
    method CommitFinality(fins: seq<Finality>, displaced: seq<BlockHash>)
      requires pending == map[]
      modifies this, pinned
      ensures Value() == FinalizedAll(old(Value()), setting, fins, displaced)
    {
      ghost var n := Value();
      var k := 0;
      while k < |fins|
        invariant k <= |fins|
        invariant Value() == FinalizedFirst(n, setting, fins, k, displaced)
      {
        FinalizeBlock(fins[k], if k + 1 == |fins| then displaced else []);
        k := k + 1;
      }
      stored, pending := queued, map[];
    }
  }
}
