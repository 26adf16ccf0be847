/**
 The canonical index of the block database: the lookup column maps each block number to the
 canonical block at that height, and a head change rewrites it along the route between heads.
 */
module CanonicalIndex {
  import opened Wrappers
  import opened BlockTree

  datatype Error = SetHeadTooOld | NotInFinalizedChain | NumberTooLarge

  const NUMBERS: nat := 0x1_0000_0000

  // ----- keys

  /** The four bytes of a block number, highest first. */
  function NumberKey(n: nat): (key: Bytes)
    requires n < NUMBERS
    ensures |key| == 4
  {
    [n / 0x100_0000, (n / 0x1_0000) % 256, (n / 0x100) % 256, n % 256]
  }

  function LookupKey(n: nat, h: Hash): Bytes
    requires n < NUMBERS
  {
    NumberKey(n) + h
  }

  /** Different numbers have different keys. */
  lemma NumberKeysDiffer(m: nat, n: nat)
    requires m < NUMBERS && n < NUMBERS && NumberKey(m) == NumberKey(n)
    ensures m == n
  {
    assert NumberKey(m)[0] == NumberKey(n)[0] && NumberKey(m)[1] == NumberKey(n)[1];
    assert NumberKey(m)[2] == NumberKey(n)[2] && NumberKey(m)[3] == NumberKey(n)[3];
    FromDigits(m);
    FromDigits(n);
  }

  lemma FromDigits(n: nat)
    ensures n == (n / 0x100_0000) * 0x100_0000 + ((n / 0x1_0000) % 256) * 0x1_0000 + ((n / 0x100) % 256) * 0x100 +
            n % 256
  {
    var a, b := n / 0x100, n / 0x1_0000;
    assert b == a / 0x100 && n / 0x100_0000 == b / 0x100;
  }

  /** Byte strings in the order of a dictionary. */
  ghost predicate Before(a: Bytes, b: Bytes) {
    exists i :: 0 <= i < |a| && i < |b| && a[..i] == b[..i] && a[i] < b[i]
  }

  /** Keys sort as the numbers do. */
  lemma NumberKeysAreOrdered(m: nat, n: nat)
    requires m < n < 0x1_0000_0000
    ensures Before(NumberKey(m), NumberKey(n))
  {
    FromDigits(m);
    FromDigits(n);
    var a, b := NumberKey(m), NumberKey(n);
    var i := if a[0] != b[0] then 0 else if a[1] != b[1] then 1 else if a[2] != b[2] then 2 else 3;
    assert a[..i] == b[..i] && a[i] < b[i];
  }

  /** A lookup key names its number and its hash. */
  lemma LookupKeysDiffer(m: nat, g: Hash, n: nat, h: Hash)
    requires m < NUMBERS && n < NUMBERS && LookupKey(m, g) == LookupKey(n, h)
    ensures m == n && g == h
  {
    assert LookupKey(m, g)[..4] == NumberKey(m) && LookupKey(n, h)[..4] == NumberKey(n);
    assert LookupKey(m, g)[4..] == g && LookupKey(n, h)[4..] == h;
    NumberKeysDiffer(m, n);
  }

  // ----- transactions

  datatype Change = SetLookup(key: Bytes, value: Bytes) | RemoveLookup(key: Bytes) | SetBest(value: Bytes)

  datatype Columns = Columns(lookup: map<Bytes, Bytes>, best: Bytes)

  function Apply(cols: Columns, change: Change): Columns {
    match change
    case SetLookup(k, v) => cols.(lookup := cols.lookup[k := v])
    case RemoveLookup(k) => cols.(lookup := cols.lookup - {k})
    case SetBest(v) => cols.(best := v)
  }

  function Commit(cols: Columns, changes: seq<Change>): Columns {
    ApplyAll(Apply, cols, changes)
  }

  lemma CommitOne(cols: Columns, change: Change)
    ensures Commit(cols, [change]) == Apply(cols, change)
  {
    ApplyOne(Apply, cols, change);
  }

  lemma CommitConcat(cols: Columns, a: seq<Change>, b: seq<Change>)
    ensures Commit(cols, a + b) == Commit(Commit(cols, a), b)
  {
    ApplyConcat(Apply, cols, a, b);
  }

  predicate Fits(points: seq<Point>) {
    forall i :: 0 <= i < |points| ==> points[i].number < NUMBERS
  }

  function Unmap(points: seq<Point>): seq<Change>
    requires Fits(points)
  {
    seq(|points|, i requires 0 <= i < |points| => RemoveLookup(NumberKey(points[i].number)))
  }

  function MapTo(p: Point): Change
    requires p.number < NUMBERS
  {
    SetLookup(NumberKey(p.number), LookupKey(p.number, p.hash))
  }

  function MapAll(points: seq<Point>): seq<Change>
    requires Fits(points)
  {
    seq(|points|, i requires 0 <= i < |points| => MapTo(points[i]))
  }

  lemma {:induction false} UnmapRemoves(cols: Columns, points: seq<Point>, n: nat)
    requires Fits(points) && n < NUMBERS
    ensures var after := Commit(cols, Unmap(points)).lookup;
            && (NumberKey(n) in after <==> NumberKey(n) in cols.lookup && forall i :: 0 <= i < |points| ==>
                points[i].number != n)
            && (NumberKey(n) in after ==> after[NumberKey(n)] == cols.lookup[NumberKey(n)])
    decreases |points|
  {
    hide NumberKey;
    if points != [] {
      var changes := Unmap(points);
      assert changes[1..] == Unmap(points[1..]);
      UnmapRemoves(Apply(cols, changes[0]), points[1..], n);
      if NumberKey(points[0].number) == NumberKey(n) {
        NumberKeysDiffer(points[0].number, n);
      }
      assert forall i :: 0 < i < |points| ==> points[i] == points[1..][i - 1];
    }
  }

  /** Setting the mappings of an ascending run of points: inside the run the points win, outside nothing changes. */
  lemma {:induction false} MapAllSets(cols: Columns, points: seq<Point>, from: nat, n: nat)
    requires Fits(points) && n < NUMBERS
    requires forall i :: 0 <= i < |points| ==> points[i].number == from + i
    ensures var after := Commit(cols, MapAll(points)).lookup;
            && (NumberKey(n) in after <==> NumberKey(n) in cols.lookup || from <= n < from + |points|)
            && (from <= n < from + |points| ==> after[NumberKey(n)] == LookupKey(n, points[n - from].hash))
            && (NumberKey(n) in cols.lookup && !(from <= n < from + |points|) ==>
                  after[NumberKey(n)] == cols.lookup[NumberKey(n)])
    decreases |points|
  {
    hide NumberKey, LookupKey;
    if points != [] {
      var changes := MapAll(points);
      assert changes[1..] == MapAll(points[1..]);
      assert forall i :: 0 <= i < |points| - 1 ==> points[1..][i] == points[i + 1];
      MapAllSets(Apply(cols, changes[0]), points[1..], from + 1, n);
      if NumberKey(from) == NumberKey(n) {
        NumberKeysDiffer(from, n);
      }
    }
  }

  // ----- changing the head

  datatype Meta = Meta(bestHash: Hash, bestNumber: nat, finalizedHash: Hash)

  datatype HeadChange = HeadChange(changes: seq<Change>, enacted: seq<Point>, retracted: seq<Point>)

  ghost predicate NumbersFit(t: Headers) {
    forall h :: h in t ==> t[h].number < NUMBERS
  }

  function Zero(): Hash {
    seq(32, _ => 0)
  }

  /** Whether there is a route to follow: not in an empty database, and not to a detached block. */
  predicate Linked(t: Headers, meta: Meta, routeTo: Hash) {
    meta.bestHash != Zero() && routeTo in t
  }

  ghost predicate MetaFits(t: Headers, meta: Meta) {
    TreeOk(t) && NumbersFit(t) && (meta.bestHash != Zero() ==> meta.bestHash in t)
  }

  ghost function Retracted(t: Headers, meta: Meta, routeTo: Hash): (r: seq<Point>)
    requires MetaFits(t, meta)
    ensures Fits(r)
  {
    if Linked(t, meta, routeTo) then PathDown(t, meta.bestHash, CommonHeight(t, meta.bestHash, routeTo)) else []
  }

  ghost function Enacted(t: Headers, meta: Meta, routeTo: Hash): (r: seq<Point>)
    requires MetaFits(t, meta)
    ensures Fits(r)
  {
    if Linked(t, meta, routeTo) then Reversed(PathDown(t, routeTo, CommonHeight(t, meta.bestHash, routeTo))) else []
  }

  /** What a head change puts into the transaction. */
  ghost function SetHead(t: Headers, meta: Meta, delay: nat, routeTo: Hash, best: Point): Result<HeadChange, Error>
    requires MetaFits(t, meta)
  {
    if meta.bestNumber - best.number > delay then Failure(SetHeadTooOld)
    else
      var retracted := Retracted(t, meta, routeTo);
      var enacted := Enacted(t, meta, routeTo);
      if Lists(retracted, meta.finalizedHash) then Failure(NotInFinalizedChain)
      else if best.number >= NUMBERS then Failure(NumberTooLarge)
      else
        Success(HeadChange(Unmap(retracted) + MapAll(enacted) + HeadChanges(best),
                           enacted, retracted))
  }

  method RetractAll(points: seq<Point>, finalizedHash: Hash, transaction: seq<Change>)
    returns (safe: bool, retracted: seq<Point>, tx: seq<Change>)
    requires Fits(points)
    ensures safe <==> !Lists(points, finalizedHash)
    ensures safe ==> retracted == points && tx == transaction + Unmap(points)
  {
    retracted, tx := [], transaction;
    for i := 0 to |points|
      invariant retracted == points[..i]
      invariant !Lists(points[..i], finalizedHash)
      invariant tx == transaction + Unmap(points[..i])
    {
      if points[i].hash == finalizedHash {
        return false, retracted, tx;
      }
      retracted := retracted + [points[i]];
      tx := tx + [RemoveLookup(NumberKey(points[i].number))];
      assert Unmap(points[..i + 1]) == Unmap(points[..i]) + [RemoveLookup(NumberKey(points[i].number))];
    }
    assert points[..|points|] == points;
    safe := true;
  }

  method EnactAll(points: seq<Point>, transaction: seq<Change>) returns (enacted: seq<Point>, tx: seq<Change>)
    requires Fits(points)
    ensures enacted == points && tx == transaction + MapAll(points)
  {
    enacted, tx := [], transaction;
    for i := 0 to |points|
      invariant enacted == points[..i]
      invariant tx == transaction + MapAll(points[..i])
    {
      enacted := enacted + [points[i]];
      tx := tx + [SetLookup(NumberKey(points[i].number), LookupKey(points[i].number, points[i].hash))];
      assert MapAll(points[..i + 1]) == MapAll(points[..i]) + [MapTo(points[i])];
    }
    assert points[..|points|] == points;
  }

  /** The head change of the source: walk the route, note retracted and enacted blocks, append to the
      transaction. On an error the transaction is abandoned by the caller. */
  method SetHeadWithTransaction(t: Headers, meta: Meta, delay: nat, transaction: seq<Change>, routeTo: Hash,
                                best: Point)
    returns (r: Result<(seq<Point>, seq<Point>), Error>, tx: seq<Change>)
    requires MetaFits(t, meta)
    ensures var spec := SetHead(t, meta, delay, routeTo, best);
            && (r.Failure? <==> spec.Failure?)
            && (r.Failure? ==> r.error == spec.error)
            && (r.Success? ==> r.value == (spec.value.enacted, spec.value.retracted))
            && (r.Success? ==> tx == transaction + spec.value.changes)
  {
    hide NumberKey, LookupKey, Unmap, MapAll, CommonHeight, PathDown, Lists, TreeOk, Ancestor;
    tx := transaction;
    var enacted, retracted: seq<Point> := [], [];
    if meta.bestNumber - best.number > delay {
      return Failure(SetHeadTooOld), tx;
    }
    if meta.bestHash != Zero() && routeTo in t {
      var route := TreeRoute(t, meta.bestHash, routeTo);
      assert route.Retracted() == Retracted(t, meta, routeTo);
      assert route.Enacted() == Enacted(t, meta, routeTo);
      var safe;
      safe, retracted, tx := RetractAll(route.Retracted(), meta.finalizedHash, tx);
      if !safe {
        return Failure(NotInFinalizedChain), tx;
      }
      enacted, tx := EnactAll(route.Enacted(), tx);
    } else {
      NothingToWalk(meta.finalizedHash, tx);
    }
    if best.number >= NUMBERS {
      return Failure(NumberTooLarge), tx;
    }
    assert tx == transaction + (Unmap(retracted) + MapAll(enacted));
    var last := [SetBest(LookupKey(best.number, best.hash)),
        SetLookup(NumberKey(best.number), LookupKey(best.number, best.hash))];
    assert transaction + (Unmap(retracted) + MapAll(enacted)) + last == transaction +
        (Unmap(retracted) + MapAll(enacted) + last);
    tx := tx + last;
    r := Success((enacted, retracted));
  }

  lemma NothingToWalk(f: Hash, tx: seq<Change>)
    ensures !Lists([], f) && tx == tx + (Unmap([]) + MapAll([]))
  {
  }

  // ----- the index follows the head

  /** The number entries of the lookup column are exactly the ancestors of `h`, itself included. */
  ghost predicate IndexIs(lookup: map<Bytes, Bytes>, t: Headers, h: Hash)
    requires TreeOk(t) && h in t
  {
    forall n: nat :: n < NUMBERS ==>
                       && (NumberKey(n) in lookup <==> n <= t[h].number)
                       && (n <= t[h].number ==> lookup[NumberKey(n)] == LookupKey(n, Ancestor(t, h, n)))
  }

  lemma RouteMovesEntry(t: Headers, meta: Meta, cols: Columns, routeTo: Hash, n: nat)
    requires MetaFits(t, meta) && Linked(t, meta, routeTo) && IndexIs(cols.lookup, t, meta.bestHash) && n < NUMBERS
    ensures var after := Commit(Commit(cols, Unmap(Retracted(t, meta, routeTo))),
            MapAll(Enacted(t, meta, routeTo))).lookup;
            && (NumberKey(n) in after <==> n <= t[routeTo].number)
            && (n <= t[routeTo].number ==> after[NumberKey(n)] == LookupKey(n, Ancestor(t, routeTo, n)))
  {
    hide NumberKey, LookupKey, Commit, Unmap, MapAll, CommonHeight, Retracted, Enacted, Ancestor, TreeOk, NumbersFit;
    var c := CommonHeight(t, meta.bestHash, routeTo);
    var retracted, enacted := Retracted(t, meta, routeTo), Enacted(t, meta, routeTo);
    RouteNumbers(t, meta, routeTo);
    UnmapRemoves(cols, retracted, n);
    MapAllSets(Commit(cols, Unmap(retracted)), enacted, c + 1, n);
    if n <= c {
      CommonHeightIsLast(t, meta.bestHash, routeTo, n);
    } else if n <= t[meta.bestHash].number {
      assert retracted[t[meta.bestHash].number - n].number == n;
    }
  }

  lemma RouteNumbers(t: Headers, meta: Meta, routeTo: Hash)
    requires MetaFits(t, meta) && Linked(t, meta, routeTo)
    ensures var c := CommonHeight(t, meta.bestHash, routeTo);
            var retracted, enacted := Retracted(t, meta, routeTo), Enacted(t, meta, routeTo);
            && |retracted| == t[meta.bestHash].number - c && |enacted| == t[routeTo].number - c
            && (forall i :: 0 <= i < |retracted| ==> retracted[i].number == t[meta.bestHash].number - i)
            && (forall i :: 0 <= i < |enacted| ==> enacted[i] == Point(c + 1 + i, Ancestor(t, routeTo, c + 1 + i)))
  {
    hide CommonHeight, PathDown, Reversed, Ancestor, TreeOk;
    PathUp(t, routeTo, CommonHeight(t, meta.bestHash, routeTo));
  }

  /** Following the route moves the index from the ancestors of the old head to those of `routeTo`. */
  lemma RouteMovesIndex(t: Headers, meta: Meta, cols: Columns, routeTo: Hash)
    requires MetaFits(t, meta) && Linked(t, meta, routeTo) && IndexIs(cols.lookup, t, meta.bestHash)
    ensures IndexIs(Commit(cols, Unmap(Retracted(t, meta, routeTo)) + MapAll(Enacted(t, meta, routeTo))).lookup, t,
            routeTo)
  {
    hide NumberKey, LookupKey, Commit, Unmap, MapAll, Retracted, Enacted;
    CommitConcat(cols, Unmap(Retracted(t, meta, routeTo)), MapAll(Enacted(t, meta, routeTo)));
    forall n: nat | n < NUMBERS {
      RouteMovesEntry(t, meta, cols, routeTo, n);
    }
  }

  function HeadChanges(best: Point): seq<Change>
    requires best.number < NUMBERS
  {
    [SetBest(LookupKey(best.number, best.hash)), MapTo(best)]
  }

  lemma HeadEntries(cols: Columns, best: Point, n: nat)
    requires best.number < NUMBERS && n < NUMBERS
    ensures var after := Commit(cols, HeadChanges(best));
            && after.best == LookupKey(best.number, best.hash)
            && (NumberKey(n) in after.lookup <==> NumberKey(n) in cols.lookup || n == best.number)
            && (n == best.number ==> after.lookup[NumberKey(n)] == LookupKey(n, best.hash))
            && (n != best.number && NumberKey(n) in cols.lookup ==>
                after.lookup[NumberKey(n)] == cols.lookup[NumberKey(n)])
  {
    hide NumberKey, LookupKey;
    var changes := HeadChanges(best);
    var first := Apply(cols, changes[0]);
    assert changes == [changes[0]] + [MapTo(best)];
    CommitConcat(cols, [changes[0]], [MapTo(best)]);
    CommitOne(cols, changes[0]);
    CommitOne(first, MapTo(best));
    if NumberKey(n) == NumberKey(best.number) {
      NumberKeysDiffer(n, best.number);
    }
  }

  lemma {:induction false} AncestorInLargerTree(t: Headers, t': Headers, h: Hash, n: nat)
    requires TreeOk(t) && TreeOk(t') && h in t && n <= t[h].number
    requires forall g :: g in t ==> g in t' && t'[g] == t[g]
    ensures Ancestor(t', h, n) == Ancestor(t, h, n)
    decreases t[h].number
  {
    if t[h].number > n {
      AncestorInLargerTree(t, t', t[h].parent, n);
    }
  }

  /** The head moves after the route has been followed. */
  lemma SetHeadInOrder(t: Headers, meta: Meta, cols: Columns, delay: nat, routeTo: Hash, best: Point)
    requires MetaFits(t, meta) && SetHead(t, meta, delay, routeTo, best).Success?
    ensures best.number < NUMBERS
    ensures var route := Unmap(Retracted(t, meta, routeTo)) + MapAll(Enacted(t, meta, routeTo));
            Commit(cols, SetHead(t, meta, delay, routeTo, best).value.changes) ==
            Commit(Commit(cols, route), HeadChanges(best))
  {
    hide Commit, Unmap, MapAll, HeadChanges, Retracted, Enacted;
    CommitConcat(cols, Unmap(Retracted(t, meta, routeTo)) + MapAll(Enacted(t, meta, routeTo)), HeadChanges(best));
  }

  /** Moving the head to a block of the tree, up, down or across a fork, leaves exactly its ancestors in
      the index: nothing stale above the new head. */
  lemma SetHeadToExisting(t: Headers, meta: Meta, cols: Columns, delay: nat, h: Hash)
    requires MetaFits(t, meta) && Linked(t, meta, h) && IndexIs(cols.lookup, t, meta.bestHash)
    requires SetHead(t, meta, delay, h, Point(t[h].number, h)).Success?
    ensures var after := Commit(cols, SetHead(t, meta, delay, h, Point(t[h].number, h)).value.changes);
            IndexIs(after.lookup, t, h) && after.best == LookupKey(t[h].number, h)
  {
    hide NumberKey, LookupKey, Commit, Unmap, MapAll, HeadChanges, Retracted, Enacted, SetHead;
    var best := Point(t[h].number, h);
    var first := Unmap(Retracted(t, meta, h)) + MapAll(Enacted(t, meta, h));
    RouteMovesIndex(t, meta, cols, h);
    SetHeadInOrder(t, meta, cols, delay, h, best);
    forall n: nat | n < NUMBERS {
      HeadEntries(Commit(cols, first), best, n);
    }
  }

  /** The hash is new to the tree, or names this very child of the parent already. */
  ghost predicate Importable(t: Headers, h: Hash, parent: Hash) {
    parent in t && (h in t ==> t[h] == Header(t[parent].number + 1, parent))
  }

  ghost function Extend(t: Headers, h: Hash, parent: Hash): Headers
    requires parent in t
  {
    t[h := Header(t[parent].number + 1, parent)]
  }

  lemma ExtendKeepsTree(t: Headers, h: Hash, parent: Hash)
    requires TreeOk(t) && Importable(t, h, parent)
    ensures TreeOk(Extend(t, h, parent))
    ensures h in t ==> Extend(t, h, parent) == t
  {
    hide TreeOk;
    if h in t {
      assert Extend(t, h, parent) == t;
    } else {
      NewBlockKeepsTree(t, h, parent);
    }
  }

  lemma NewBlockKeepsTree(t: Headers, h: Hash, parent: Hash)
    requires TreeOk(t) && parent in t && h !in t
    ensures TreeOk(Extend(t, h, parent))
  {
  }

  /** Importing a block as the head, new or known, with its parent anywhere in the tree, leaves exactly
      the ancestors of the block in the index. */
  lemma SetHeadToImported(t: Headers, meta: Meta, cols: Columns, delay: nat, h: Hash, parent: Hash)
    requires MetaFits(t, meta) && Linked(t, meta, parent) && IndexIs(cols.lookup, t, meta.bestHash)
    requires Importable(t, h, parent)
    requires SetHead(t, meta, delay, parent, Point(t[parent].number + 1, h)).Success?
    ensures TreeOk(Extend(t, h, parent))
    ensures var after := Commit(cols, SetHead(t, meta, delay, parent, Point(t[parent].number + 1, h)).value.changes);
            IndexIs(after.lookup, Extend(t, h, parent), h) && after.best == LookupKey(t[parent].number + 1, h)
  {
    hide NumberKey, LookupKey, Commit, Unmap, MapAll, HeadChanges, Retracted, Enacted, IndexIs, SetHead;
    ExtendKeepsTree(t, h, parent);
    RouteMovesIndex(t, meta, cols, parent);
    SetHeadInOrder(t, meta, cols, delay, parent, Point(t[parent].number + 1, h));
    NewHeadEntry(t, Commit(cols, Unmap(Retracted(t, meta, parent)) + MapAll(Enacted(t, meta, parent))), h, parent);
  }

  lemma NewHeadEntry(t: Headers, cols: Columns, h: Hash, parent: Hash)
    requires TreeOk(t) && Importable(t, h, parent) && TreeOk(Extend(t, h, parent))
    requires IndexIs(cols.lookup, t, parent) && t[parent].number + 1 < NUMBERS
    ensures var best := Point(t[parent].number + 1, h);
            var after := Commit(cols, HeadChanges(best));
            IndexIs(after.lookup, Extend(t, h, parent), h) && after.best == LookupKey(best.number, h)
  {
    hide NumberKey, LookupKey, Commit, HeadChanges;
    var best := Point(t[parent].number + 1, h);
    var after := Commit(cols, HeadChanges(best));
    HeadEntries(cols, best, 0);
    forall n: nat | n < NUMBERS
      ensures NumberKey(n) in after.lookup <==> n <= best.number
      ensures n <= best.number ==> after.lookup[NumberKey(n)] == LookupKey(n, Ancestor(Extend(t, h, parent), h, n))
    {
      HeadEntries(cols, best, n);
      if n <= t[parent].number {
        AncestorInLargerTree(t, Extend(t, h, parent), parent, n);
      }
    }
  }

  /** A canonical block stays canonical under a head change exactly when it is not retracted. */
  lemma RetractedIsLost(t: Headers, meta: Meta, routeTo: Hash, f: Hash)
    requires MetaFits(t, meta) && Linked(t, meta, routeTo)
    requires OnPath(t, meta.bestHash, f)
    ensures !Lists(Retracted(t, meta, routeTo), f) <==> OnPath(t, routeTo, f)
  {
    var c := CommonHeight(t, meta.bestHash, routeTo);
    var retracted := Retracted(t, meta, routeTo);
    var n := t[f].number;
    if n <= c {
      CommonHeightIsLast(t, meta.bestHash, routeTo, n);
    } else {
      assert retracted[t[meta.bestHash].number - n].hash == f;
      if n <= t[routeTo].number {
        CommonHeightIsLast(t, meta.bestHash, routeTo, n);
      }
    }
  }

  ghost function Reported(t: Headers, meta: Meta, delay: nat, routeTo: Hash, best: Point): (seq<Point>, seq<Point>)
    requires MetaFits(t, meta) && SetHead(t, meta, delay, routeTo, best).Success?
  {
    var change := SetHead(t, meta, delay, routeTo, best).value;
    (change.enacted, change.retracted)
  }

  lemma EnactedAre(t: Headers, meta: Meta, routeTo: Hash, h: Hash)
    requires MetaFits(t, meta) && Linked(t, meta, routeTo)
    ensures var points := Enacted(t, meta, routeTo);
            && (Lists(points, h) <==> OnPath(t, routeTo, h) && !OnPath(t, meta.bestHash, h))
            && Numbered(t, points)
            && (forall i, j :: 0 <= i < j < |points| ==> points[i].number < points[j].number)
  {
    hide CommonHeight, PathDown, Reversed, Lists, OnPath, TreeOk, Numbered;
    BranchUp(t, routeTo, meta.bestHash, h);
    CommonHeightIsSymmetric(t, meta.bestHash, routeTo);
  }

  lemma RetractedAre(t: Headers, meta: Meta, routeTo: Hash, h: Hash)
    requires MetaFits(t, meta) && Linked(t, meta, routeTo)
    ensures var points := Retracted(t, meta, routeTo);
            && (Lists(points, h) <==> OnPath(t, meta.bestHash, h) && !OnPath(t, routeTo, h))
            && Numbered(t, points)
            && (forall i, j :: 0 <= i < j < |points| ==> points[i].number > points[j].number)
  {
    hide CommonHeight, PathDown, Lists, OnPath, TreeOk, Numbered;
    BranchDown(t, meta.bestHash, routeTo, h);
  }

  /**
   What a head change reports: enacted are exactly the blocks on the path of
   `routeTo` and not on that of the old head, listed upwards; retracted are exactly
   those on the path of the old head and not on that of `routeTo`, listed downwards;
   each comes with its number. Without a route nothing is reported.
   */
  lemma HeadChangeReports(t: Headers, meta: Meta, delay: nat, routeTo: Hash, best: Point, h: Hash)
    requires MetaFits(t, meta) && SetHead(t, meta, delay, routeTo, best).Success?
    ensures var (enacted, retracted) := Reported(t, meta, delay, routeTo, best);
            if meta.bestHash == seq(32, _ => 0) || routeTo !in t then enacted == retracted == []
            else
              && (Lists(enacted, h) <==> OnPath(t, routeTo, h) && !OnPath(t, meta.bestHash, h))
              && (Lists(retracted, h) <==> OnPath(t, meta.bestHash, h) && !OnPath(t, routeTo, h))
              && Numbered(t, enacted) && Numbered(t, retracted)
              && (forall i, j :: 0 <= i < j < |enacted| ==> enacted[i].number < enacted[j].number)
              && (forall i, j :: 0 <= i < j < |retracted| ==> retracted[i].number > retracted[j].number)
  {
    hide Lists, OnPath, TreeOk, Unmap, MapAll, HeadChanges, Numbered;
    if Linked(t, meta, routeTo) {
      hide Enacted, Retracted;
      EnactedAre(t, meta, routeTo, h);
      RetractedAre(t, meta, routeTo, h);
    }
  }

  /**
   With the finalized block on the path of the head, a head change is made exactly
   when the new head is at most `delay` below the old one, the route ends on a
   descendant of the finalized block or on itself, and the number fits 32 bits;
   the first of these that fails is the error.
   */
  lemma HeadChangesAllowed(t: Headers, meta: Meta, delay: nat, routeTo: Hash, best: Point)
    requires MetaFits(t, meta) && Linked(t, meta, routeTo) && OnPath(t, meta.bestHash, meta.finalizedHash)
    ensures var r := SetHead(t, meta, delay, routeTo, best);
            if meta.bestNumber > best.number + delay then r == Failure(SetHeadTooOld)
            else if !OnPath(t, routeTo, meta.finalizedHash) then r == Failure(NotInFinalizedChain)
            else if best.number >= 0x1_0000_0000 then r == Failure(NumberTooLarge)
            else r.Success?
  {
    RetractedIsLost(t, meta, routeTo, meta.finalizedHash);
    hide Unmap, MapAll, HeadChanges, Retracted, Enacted;
  }
}
