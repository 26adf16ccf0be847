/**
 The leaf set: leaf hashes kept by block number, with undo and revert.

 A level is the vector of hashes stored under one block number. Iteration goes
 from the highest number down, as the reversed keys of the source do.
 */
module LeafSet {
  import opened Wrappers
  import opened Picks

  type Levels<H> = map<nat, seq<H>>

  datatype Leaf<H> = Leaf(number: nat, hash: H)

  datatype ImportOutcome<H> = ImportOutcome(inserted: Leaf<H>, removed: Option<H>)

  datatype RemoveOutcome<H> = RemoveOutcome(inserted: Option<H>, removed: Leaf<H>)

  function Level<K(==), H(==)>(s: map<K, seq<H>>, n: K): seq<H> {
    if n in s then s[n] else []
  }

  predicate Contains<K(==), H(==)>(s: map<K, seq<H>>, n: K, h: H) {
    h in Level(s, n)
  }

  /** `hs` with every occurrence of `h` dropped. */
  function Without<H(==)>(hs: seq<H>, h: H): seq<H> {
    if hs == [] then []
    else
      var init := Without(hs[..|hs| - 1], h);
      if hs[|hs| - 1] == h then init else init + [hs[|hs| - 1]]
  }

  /** The number of the parent. */
  function Below(n: nat): nat
    requires n > 0
  {
    n - 1
  }

  function Inserted<K(==), H(==)>(s: map<K, seq<H>>, n: K, h: H): map<K, seq<H>> {
    s[n := Level(s, n) + [h]]
  }

  function Removed<K(==), H(==)>(s: map<K, seq<H>>, n: K, h: H): map<K, seq<H>> {
    if !Contains(s, n, h) then s
    else if Without(s[n], h) == [] then s - {n}
    else s[n := Without(s[n], h)]
  }

  function Imported<H(==)>(s: Levels<H>, h: H, n: nat, parent: H): Levels<H> {
    Inserted(if n > 0 then Removed(s, Below(n), parent) else s, n, h)
  }

  function ImportReport<H(==)>(s: Levels<H>, h: H, n: nat, parent: H): ImportOutcome<H> {
    ImportOutcome(Leaf(n, h), if n > 0 && Contains(s, Below(n), parent) then Some(parent) else None)
  }

  function RemovedWith<H(==)>(s: Levels<H>, h: H, n: nat, parent: Option<H>): Levels<H> {
    if !Contains(s, n, h) then s
    else if parent.Some? && n > 0 then Inserted(Removed(s, n, h), Below(n), parent.value)
    else Removed(s, n, h)
  }

  function RemoveReport<H(==)>(s: Levels<H>, h: H, n: nat, parent: Option<H>): Option<RemoveOutcome<H>> {
    if !Contains(s, n, h) then None
    else Some(RemoveOutcome(if n > 0 then parent else None, Leaf(n, h)))
  }

  function ImportUndone<H(==)>(s: Levels<H>, o: ImportOutcome<H>): Levels<H>
    requires o.removed.Some? ==> o.inserted.number > 0
  {
    var back := if o.removed.Some? then Inserted(s, Below(o.inserted.number), o.removed.value) else s;
    Removed(back, o.inserted.number, o.inserted.hash)
  }

  function RemoveUndone<H(==)>(s: Levels<H>, o: RemoveOutcome<H>): Levels<H>
    requires o.inserted.Some? ==> o.removed.number > 0
  {
    var back := if o.inserted.Some? then Removed(s, Below(o.removed.number), o.inserted.value) else s;
    Inserted(back, o.removed.number, o.removed.hash)
  }

  // ----- what the operations do, level by level and counting copies

  ghost function Copies<K, H>(s: map<K, seq<H>>, n: K, h: H): nat {
    multiset(Level(s, n))[h]
  }

  lemma OneMore<T(!new)>(done: seq<T>, x: T, y: T)
    ensures multiset(done + [x])[y] == multiset(done)[y] + if y == x then 1 else 0
    ensures y in done + [x] <==> y in done || y == x
    ensures y in done <==> multiset(done)[y] > 0
  {
    assert y in multiset(done) <==> y in done;
  }

  lemma WithoutUnfolds<H(!new)>(hs: seq<H>, h: H)
    requires hs != []
    ensures Without(hs, h) == Without(hs[..|hs| - 1], h) + if hs[|hs| - 1] == h then [] else [hs[|hs| - 1]]
  {
  }

  lemma {:induction false} WithoutCounts<H(!new)>(hs: seq<H>, h: H)
    ensures multiset(Without(hs, h)) == multiset(hs)[h := 0]
    ensures h !in hs ==> Without(hs, h) == hs
  {
    if hs != [] {
      var init, last := hs[..|hs| - 1], hs[|hs| - 1];
      WithoutCounts(init, h);
      WithoutUnfolds(hs, h);
      hide Without;
      assert hs == init + [last];
      assert multiset(hs) == multiset(init) + multiset{last};
    }
  }

  /** Dropping a hash keeps the others of the level in their order. */
  lemma {:induction false} WithoutPicks<H(!new)>(hs: seq<H>, h: H) returns (at: seq<nat>)
    ensures Increasing(at, |hs|) && Without(hs, h) == Picked(hs, at)
    ensures forall k :: 0 <= k < |hs| ==> (k in at <==> hs[k] != h)
  {
    at := [];
    if hs != [] {
      hide Increasing, Picked;
      var init, last := hs[..|hs| - 1], hs[|hs| - 1];
      assert hs == init + [last];
      var before := WithoutPicks(init, h);
      PickMore(init, last, before, last != h);
      at := if last != h then before + [|init|] else before;
    }
  }

  /** A new leaf is the last of its level. */
  lemma InsertedComesLast<K(!new), H(!new)>(s: map<K, seq<H>>, n: K, h: H, m: K)
    ensures var level := Level(Inserted(s, n, h), m);
            if m == n then |level| == |Level(s, n)| + 1 && level[|level| - 1] == h && Level(s, n) <= level
            else level == Level(s, m)
  {
  }

  lemma ContainsIsCopies<K(!new), H(!new)>(s: map<K, seq<H>>, n: K, h: H)
    ensures Contains(s, n, h) <==> Copies(s, n, h) > 0
  {
    assert h in multiset(Level(s, n)) <==> h in Level(s, n);
  }

  lemma InsertedCopies<K(!new), H(!new)>(s: map<K, seq<H>>, n: K, h: H, m: K, g: H)
    ensures Copies(Inserted(s, n, h), m, g) == Copies(s, m, g) + if m == n && g == h then 1 else 0
  {
  }

  lemma RemovedCopies<K(!new), H(!new)>(s: map<K, seq<H>>, n: K, h: H, m: K, g: H)
    ensures Copies(Removed(s, n, h), m, g) == if m == n && g == h then 0 else Copies(s, m, g)
  {
    WithoutCounts(Level(s, n), h);
  }

  lemma ImportedCopies<H(!new)>(s: Levels<H>, h: H, n: nat, parent: H, m: nat, g: H)
    ensures Copies(Imported(s, h, n, parent), m, g) ==
            (if m + 1 == n && g == parent then 0 else Copies(s, m, g)) + if m == n && g == h then 1 else 0
  {
    hide Inserted, Removed, Copies;
    if n > 0 {
      RemovedCopies(s, Below(n), parent, m, g);
      InsertedCopies(Removed(s, Below(n), parent), n, h, m, g);
    } else {
      InsertedCopies(s, n, h, m, g);
    }
  }

  /** Removing puts the given parent in place of a leaf, and does and reports nothing for any other hash. */
  lemma RemovedWithCopies<H(!new)>(s: Levels<H>, h: H, n: nat, parent: Option<H>, m: nat, g: H)
    ensures RemoveReport(s, h, n, parent).None? <==> !Contains(s, n, h)
    ensures !Contains(s, n, h) ==> RemovedWith(s, h, n, parent) == s
    ensures Contains(s, n, h) ==>
              Copies(RemovedWith(s, h, n, parent), m, g) ==
              (if m == n && g == h then 0 else Copies(s, m, g)) +
              if parent.Some? && m + 1 == n && g == parent.value then 1 else 0
  {
    hide Inserted, Removed, Copies, Contains;
    RemovedCopies(s, n, h, m, g);
    if parent.Some? && n > 0 {
      InsertedCopies(Removed(s, n, h), Below(n), parent.value, m, g);
    }
  }

  lemma NoLevelEmptied<H(!new)>(s: Levels<H>, n: nat, h: H)
    requires NoEmptyLevel(s)
    ensures NoEmptyLevel(Inserted(s, n, h)) && NoEmptyLevel(Removed(s, n, h))
  {
  }

  /** Every level holds the same leaves the same number of times; the order within a level is free. */
  ghost predicate SameLeaves<H(!new)>(s: Levels<H>, t: Levels<H>) {
    forall n: nat, h: H :: Copies(s, n, h) == Copies(t, n, h)
  }

  /** What an import followed by its undo leaves of each hash. */
  lemma ImportUndoneCopies<H(!new)>(s: Levels<H>, h: H, n: nat, parent: H, m: nat, g: H)
    ensures Copies(ImportUndone(Imported(s, h, n, parent), ImportReport(s, h, n, parent)), m, g) ==
            if m == n && g == h then 0
            else if m + 1 == n && g == parent && Copies(s, m, g) > 0 then 1
            else Copies(s, m, g)
  {
    hide Inserted, Removed, Copies;
    var cleared := if n > 0 then Removed(s, Below(n), parent) else s;
    var after := Inserted(cleared, n, h);
    InsertedCopies(cleared, n, h, m, g);
    if n > 0 {
      ContainsIsCopies(s, Below(n), parent);
      RemovedCopies(s, Below(n), parent, m, g);
      InsertedCopies(after, Below(n), parent, m, g);
    }
    var back := if n > 0 && Contains(s, Below(n), parent) then Inserted(after, Below(n), parent) else after;
    RemovedCopies(back, n, h, m, g);
  }

  lemma UndoImportLoses<H(!new)>(s: Levels<H>, h: H, n: nat, parent: H)
    requires Contains(s, n, h) || (n > 0 && Copies(s, Below(n), parent) > 1)
    ensures !SameLeaves(ImportUndone(Imported(s, h, n, parent), ImportReport(s, h, n, parent)), s)
  {
    hide Imported, Copies;
    var restored := ImportUndone(Imported(s, h, n, parent), ImportReport(s, h, n, parent));
    hide ImportUndone, ImportReport;
    ContainsIsCopies(s, n, h);
    if Contains(s, n, h) {
      ImportUndoneCopies(s, h, n, parent, n, h);
      assert Copies(restored, n, h) != Copies(s, n, h);
    } else {
      ImportUndoneCopies(s, h, n, parent, Below(n), parent);
      assert Copies(restored, Below(n), parent) != Copies(s, Below(n), parent);
    }
  }

  lemma UndoImportGivesBack<H(!new)>(s: Levels<H>, h: H, n: nat, parent: H)
    requires !Contains(s, n, h) && (n > 0 ==> Copies(s, Below(n), parent) <= 1)
    ensures SameLeaves(ImportUndone(Imported(s, h, n, parent), ImportReport(s, h, n, parent)), s)
  {
    hide Imported, Copies;
    var restored := ImportUndone(Imported(s, h, n, parent), ImportReport(s, h, n, parent));
    hide ImportUndone, ImportReport;
    ContainsIsCopies(s, n, h);
    forall m: nat, g: H
      ensures Copies(restored, m, g) == Copies(s, m, g)
    {
      ImportUndoneCopies(s, h, n, parent, m, g);
    }
  }

  /**
   Undoing an import gives back the same leaves exactly when the imported block
   was not a leaf already and its parent was not listed twice.
   */
  lemma UndoImportRestores<H(!new)>(s: Levels<H>, h: H, n: nat, parent: H)
    ensures SameLeaves(ImportUndone(Imported(s, h, n, parent), ImportReport(s, h, n, parent)), s)
       <==> !Contains(s, n, h) && (n > 0 ==> Copies(s, Below(n), parent) <= 1)
  {
    if Contains(s, n, h) || (n > 0 && Copies(s, Below(n), parent) > 1) {
      UndoImportLoses(s, h, n, parent);
    } else {
      UndoImportGivesBack(s, h, n, parent);
    }
  }

  /** What a removal followed by its undo leaves of each hash. */
  lemma RemoveUndoneCopies<H(!new)>(s: Levels<H>, h: H, n: nat, parent: Option<H>, m: nat, g: H)
    requires Contains(s, n, h)
    ensures Copies(RemoveUndone(RemovedWith(s, h, n, parent), RemoveReport(s, h, n, parent).value), m, g) ==
            if m == n && g == h then 1
            else if m + 1 == n && parent == Some(g) then 0
            else Copies(s, m, g)
  {
    hide Inserted, Removed, Copies;
    var cleared := Removed(s, n, h);
    RemovedCopies(s, n, h, m, g);
    var back := cleared;
    if parent.Some? && n > 0 {
      var after := Inserted(cleared, Below(n), parent.value);
      InsertedCopies(cleared, Below(n), parent.value, m, g);
      RemovedCopies(after, Below(n), parent.value, m, g);
      back := Removed(after, Below(n), parent.value);
    }
    InsertedCopies(back, n, h, m, g);
  }

  lemma UndoRemoveLoses<H(!new)>(s: Levels<H>, h: H, n: nat, parent: Option<H>)
    requires Contains(s, n, h)
    requires Copies(s, n, h) > 1 || (n > 0 && parent.Some? && Contains(s, Below(n), parent.value))
    ensures !SameLeaves(RemoveUndone(RemovedWith(s, h, n, parent), RemoveReport(s, h, n, parent).value), s)
  {
    hide RemovedWith, Copies;
    var restored := RemoveUndone(RemovedWith(s, h, n, parent), RemoveReport(s, h, n, parent).value);
    hide RemoveUndone, RemoveReport;
    if Copies(s, n, h) > 1 {
      RemoveUndoneCopies(s, h, n, parent, n, h);
      assert Copies(restored, n, h) != Copies(s, n, h);
    } else {
      ContainsIsCopies(s, Below(n), parent.value);
      RemoveUndoneCopies(s, h, n, parent, Below(n), parent.value);
      assert Copies(restored, Below(n), parent.value) != Copies(s, Below(n), parent.value);
    }
  }

  lemma UndoRemoveGivesBack<H(!new)>(s: Levels<H>, h: H, n: nat, parent: Option<H>)
    requires Contains(s, n, h) && Copies(s, n, h) == 1
    requires n > 0 && parent.Some? ==> !Contains(s, Below(n), parent.value)
    ensures SameLeaves(RemoveUndone(RemovedWith(s, h, n, parent), RemoveReport(s, h, n, parent).value), s)
  {
    hide RemovedWith, Copies;
    var restored := RemoveUndone(RemovedWith(s, h, n, parent), RemoveReport(s, h, n, parent).value);
    hide RemoveUndone, RemoveReport;
    forall m: nat, g: H
      ensures Copies(restored, m, g) == Copies(s, m, g)
    {
      ContainsIsCopies(s, m, g);
      RemoveUndoneCopies(s, h, n, parent, m, g);
    }
  }

  /**
   Undoing a removal gives back the same leaves exactly when the removed leaf
   was listed once and the parent put in its place was not a leaf already.
   */
  lemma UndoRemoveRestores<H(!new)>(s: Levels<H>, h: H, n: nat, parent: Option<H>)
    requires Contains(s, n, h)
    ensures SameLeaves(RemoveUndone(RemovedWith(s, h, n, parent), RemoveReport(s, h, n, parent).value), s)
       <==> Copies(s, n, h) == 1 && (n > 0 && parent.Some? ==> !Contains(s, Below(n), parent.value))
  {
    ContainsIsCopies(s, n, h);
    if Copies(s, n, h) > 1 || (n > 0 && parent.Some? && Contains(s, Below(n), parent.value)) {
      UndoRemoveLoses(s, h, n, parent);
    } else {
      UndoRemoveGivesBack(s, h, n, parent);
    }
  }

  // ----- iteration from the highest level down

  predicate IsHighest(keys: set<nat>, n: nat) {
    n in keys && forall m :: m in keys ==> m <= n
  }

  lemma {:induction false} HighestExists(keys: set<nat>) returns (top: nat)
    requires keys != {}
    ensures IsHighest(keys, top)
  {
    var k :| k in keys;
    top := k;
    var rest := keys - {k};
    if rest != {} {
      var n := HighestExists(rest);
      top := if k > n then k else n;
    }
    assert keys == rest + {k};
  }

  function Highest(keys: set<nat>): (n: nat)
    requires keys != {}
    ensures n in keys && forall m :: m in keys ==> m <= n
  {
    assert exists n :: IsHighest(keys, n) by {
      var n := HighestExists(keys);
    }
    var n :| IsHighest(keys, n);
    n
  }

  function OnLevel<H(==)>(n: nat, hs: seq<H>): seq<Leaf<H>> {
    seq(|hs|, i requires 0 <= i < |hs| => Leaf(n, hs[i]))
  }

  /** All leaves, highest number first, each level in its own order. */
  function InOrder<H(==)>(s: Levels<H>): seq<Leaf<H>>
    decreases |s|
  {
    if s == map[] then []
    else
      var n := Highest(s.Keys);
      assert (s - {n}).Keys == s.Keys - {n};
      OnLevel(n, s[n]) + InOrder(s - {n})
  }

  lemma {:induction false} OnLevelCounts<H(!new)>(n: nat, hs: seq<H>, x: Leaf<H>)
    ensures multiset(OnLevel(n, hs))[x] == if x.number == n then multiset(hs)[x.hash] else 0
  {
    if hs != [] {
      var init := hs[..|hs| - 1];
      OnLevelCounts(n, init, x);
      assert OnLevel(n, hs) == OnLevel(n, init) + [Leaf(n, hs[|hs| - 1])];
      assert hs == init + [hs[|hs| - 1]];
    }
  }

  lemma {:induction false} InOrderCounts<H(!new)>(s: Levels<H>, x: Leaf<H>)
    ensures multiset(InOrder(s))[x] == Copies(s, x.number, x.hash)
    decreases |s|
  {
    if s != map[] {
      var n := Highest(s.Keys);
      assert (s - {n}).Keys == s.Keys - {n};
      InOrderCounts(s - {n}, x);
      OnLevelCounts(n, s[n], x);
      assert Level(s - {n}, x.number) == if x.number == n then [] else Level(s, x.number);
    }
  }

  /** The iteration lists every leaf as often as it is stored, in descending order of number. */
  lemma {:induction false} InOrderDescends<H(!new)>(s: Levels<H>, i: nat, j: nat)
    requires i < j < |InOrder(s)|
    ensures InOrder(s)[i].number in s && InOrder(s)[j].number in s
    ensures InOrder(s)[i].number >= InOrder(s)[j].number
    decreases |s|
  {
    var n := Highest(s.Keys);
    assert (s - {n}).Keys == s.Keys - {n};
    var rest := InOrder(s - {n});
    if i >= |s[n]| {
      InOrderDescends(s - {n}, i - |s[n]|, j - |s[n]|);
    } else if j >= |s[n]| {
      InOrderNumber(s - {n}, j - |s[n]|);
    }
  }

  lemma {:induction false} InOrderNumber<H(!new)>(s: Levels<H>, i: nat)
    requires i < |InOrder(s)|
    ensures InOrder(s)[i].number in s
    decreases |s|
  {
    var n := Highest(s.Keys);
    assert (s - {n}).Keys == s.Keys - {n};
    if i >= |s[n]| {
      InOrderNumber(s - {n}, i - |s[n]|);
    }
  }

  // ----- revert

  /** No hash twice on a level above `n`. */
  ghost predicate DistinctAbove<H(!new)>(s: Levels<H>, n: nat) {
    forall m: nat, h: H :: m > n ==> Copies(s, m, h) <= 1
  }

  ghost predicate NoEmptyLevel<H(!new)>(s: Levels<H>) {
    forall n :: n in s ==> s[n] != []
  }

  ghost function Reverted<H(!new)>(s: Levels<H>, best: H, number: nat): Levels<H> {
    var low := map n | n in s && n <= number :: s[n];
    if Contains(low, number, best) then low else Inserted(low, number, best)
  }

  function Above<H(==)>(items: seq<Leaf<H>>, number: nat): seq<Leaf<H>> {
    if items == [] then []
    else
      var init := Above(items[..|items| - 1], number);
      if items[|items| - 1].number > number then init + [items[|items| - 1]] else init
  }

  /** A revert reports the leaves above its target, in the order of the iteration. */
  lemma {:induction false} AbovePicks<H(!new)>(items: seq<Leaf<H>>, number: nat) returns (at: seq<nat>)
    ensures Increasing(at, |items|) && Above(items, number) == Picked(items, at)
    ensures forall k :: 0 <= k < |items| ==> (k in at <==> items[k].number > number)
  {
    at := [];
    if items != [] {
      hide Increasing, Picked;
      var init, last := items[..|items| - 1], items[|items| - 1];
      assert items == init + [last];
      var before := AbovePicks(init, number);
      PickMore(init, last, before, last.number > number);
      at := if last.number > number then before + [|init|] else before;
    }
  }

  /** The highest leaf is that of the highest level, and zero where there is none. */
  lemma HighestLeafMeans<H(!new)>(s: Levels<H>)
    ensures s == map[] ==> HighestLeafOf(s) == 0
    ensures s != map[] ==> HighestLeafOf(s) in s && forall n :: n in s ==> n <= HighestLeafOf(s)
  {
    if s != map[] {
      var n :| n in s;
      assert |s| > 0;
    }
  }

  /** After a revert the leaves are exactly those at or below the target, and the target. */
  lemma RevertedLeaves<H(!new)>(s: Levels<H>, best: H, number: nat, n: nat, h: H)
    ensures Contains(Reverted(s, best, number), n, h)
       <==> (n <= number && Contains(s, n, h)) || (n == number && h == best)
    ensures Copies(s, number, best) <= 1 ==> Copies(Reverted(s, best, number), number, best) == 1
    ensures NoEmptyLevel(s) ==> NoEmptyLevel(Reverted(s, best, number))
  {
  }

  method Retain<H(==)>(leaves: seq<H>, h: H) returns (kept: seq<H>, found: bool)
    ensures kept == Without(leaves, h)
    ensures found <==> h in leaves
  {
    kept, found := [], false;
    var i := 0;
    while i < |leaves|
      invariant i <= |leaves|
      invariant kept == Without(leaves[..i], h)
      invariant found <==> h in leaves[..i]
    {
      assert leaves[..i + 1] == leaves[..i] + [leaves[i]];
      if leaves[i] == h {
        found := true;
      } else {
        kept := kept + [leaves[i]];
      }
      i := i + 1;
    }
    assert leaves[..i] == leaves;
  }

  function HighestLeafOf<H>(s: Levels<H>): nat {
    if |s| == 0 then 0 else Highest(s.Keys)
  }

  class LeafStore<H(==,!new)> {
    var storage: Levels<H>

    constructor ()
      ensures storage == map[]
    {
      storage := map[];
    }

    method InsertLeaf(n: nat, h: H)
      modifies this
      ensures storage == Inserted(old(storage), n, h)
    {
      if n !in storage {
        storage := storage[n := []];
      }
      storage := storage[n := storage[n] + [h]];
    }

    method RemoveLeaf(n: nat, h: H) returns (removed: bool)
      modifies this
      ensures storage == Removed(old(storage), n, h)
      ensures removed <==> Contains(old(storage), n, h)
    {
      removed := false;
      if n in storage {
        var kept, found := Retain(storage[n], h);
        WithoutCounts(storage[n], h);
        removed := found;
        storage := storage[n := kept];
        if removed && kept == [] {
          storage := storage - {n};
        }
      }
    }

    method Import(h: H, n: nat, parent: H) returns (o: ImportOutcome<H>)
      modifies this
      ensures storage == Imported(old(storage), h, n, parent)
      ensures o == ImportReport(old(storage), h, n, parent)
    {
      var removed: Option<H> := None;
      if n != 0 {
        var found := RemoveLeaf(n - 1, parent);
        removed := if found then Some(parent) else None;
      }
      InsertLeaf(n, h);
      o := ImportOutcome(Leaf(n, h), removed);
    }

    method Remove(h: H, n: nat, parent: Option<H>) returns (o: Option<RemoveOutcome<H>>)
      modifies this
      ensures storage == RemovedWith(old(storage), h, n, parent)
      ensures o == RemoveReport(old(storage), h, n, parent)
    {
      var found := RemoveLeaf(n, h);
      if !found {
        return None;
      }
      var inserted: Option<H> := None;
      if parent.Some? && n != 0 {
        InsertLeaf(n - 1, parent.value);
        inserted := parent;
      }
      o := Some(RemoveOutcome(inserted, Leaf(n, h)));
    }

    method UndoImport(o: ImportOutcome<H>)
      requires o.removed.Some? ==> o.inserted.number > 0
      modifies this
      ensures storage == ImportUndone(old(storage), o)
    {
      if o.removed.Some? {
        InsertLeaf(o.inserted.number - 1, o.removed.value);
      }
      var _ := RemoveLeaf(o.inserted.number, o.inserted.hash);
    }

    method UndoRemove(o: RemoveOutcome<H>)
      requires o.inserted.Some? ==> o.removed.number > 0
      modifies this
      ensures storage == RemoveUndone(old(storage), o)
    {
      if o.inserted.Some? {
        var _ := RemoveLeaf(o.removed.number - 1, o.inserted.value);
      }
      InsertLeaf(o.removed.number, o.removed.hash);
    }

    /** The highest number with a leaf, zero when there is none. */
    function HighestLeaf(): nat
      reads this
    {
      HighestLeafOf(storage)
    }

    /**
     Drops every leaf above `number` and makes `best` a leaf. The assertion on
     each removal is the failing result; it fires exactly when some level above
     the target lists a hash twice.
     */
    method Revert(best: H, number: nat) returns (r: Result<seq<Leaf<H>>, string>)
      modifies this
      ensures r.Success? <==> DistinctAbove(old(storage), number)
      ensures r.Success? ==> r.value == Above(InOrder(old(storage)), number)
      ensures r.Success? && NoEmptyLevel(old(storage)) ==> storage == Reverted(old(storage), best, number)
    {
      hide Copies, InOrder, Removed, NoEmptyLevel, RevertSoFar, DistinctAbove;
      ghost var s0 := storage;
      RevertStarts(s0, number);
      var items := InOrder(storage);
      var dropped: seq<Leaf<H>> := [];
      var i := 0;
      while i < |items|
        invariant i <= |items|
        invariant dropped == Above(items[..i], number)
        invariant RevertSoFar(s0, storage, items[..i], number)
      {
        assert items[..i + 1] == items[..i] + [items[i]];
        if items[i].number > number {
          ghost var s := storage;
          var found := RemoveLeaf(items[i].number, items[i].hash);
          if !found {
            RevertFails(s0, s, items, i, number);
            return Failure("item comes from an iterator over storage");
          }
          RevertDrops(s0, s, items[..i], items[i], number);
          dropped := dropped + [items[i]];
        } else {
          RevertSkips(s0, storage, items[..i], items[i], number);
        }
        i := i + 1;
      }
      assert items[..i] == items;
      RevertEnds(s0, storage, number);
      if number !in storage || best !in storage[number] {
        InsertLeaf(number, best);
      }
      r := Success(dropped);
    }
  }

  /** Levels at or below the target are as they were. */
  ghost predicate LowKept<H(!new)>(s0: Levels<H>, s: Levels<H>, number: nat) {
    forall n: nat :: n <= number ==> (n in s <==> n in s0) && Level(s, n) == Level(s0, n)
  }

  /** Above the target exactly the visited leaves are gone. */
  ghost predicate HighDropped<H(!new)>(s0: Levels<H>, s: Levels<H>, done: seq<Leaf<H>>, number: nat) {
    forall n: nat, h: H :: n > number ==>
      Copies(s, n, h) == if Leaf(n, h) in done then 0 else Copies(s0, n, h)
  }

  ghost predicate OnceEach<H(!new)>(done: seq<Leaf<H>>, number: nat) {
    forall x: Leaf<H> :: x.number > number ==> multiset(done)[x] <= 1
  }

  /** What holds once the leaves `done` have been visited. */
  ghost predicate RevertSoFar<H(!new)>(s0: Levels<H>, s: Levels<H>, done: seq<Leaf<H>>, number: nat) {
    && LowKept(s0, s, number)
    && HighDropped(s0, s, done, number)
    && OnceEach(done, number)
    && (NoEmptyLevel(s0) ==> NoEmptyLevel(s))
  }

  lemma RevertStarts<H(!new)>(s: Levels<H>, number: nat)
    ensures RevertSoFar(s, s, [], number)
  {
  }

  lemma RevertSkips<H(!new)>(s0: Levels<H>, s: Levels<H>, done: seq<Leaf<H>>, x: Leaf<H>, number: nat)
    requires RevertSoFar(s0, s, done, number) && x.number <= number
    ensures RevertSoFar(s0, s, done + [x], number)
  {
    hide Copies, LowKept, NoEmptyLevel;
    forall y: Leaf<H>
      ensures y.number > number ==> multiset(done + [x])[y] <= 1 && (y in done + [x] <==> y in done)
    {
      OneMore(done, x, y);
    }
  }

  lemma HighDrops<H(!new)>(s0: Levels<H>, s: Levels<H>, done: seq<Leaf<H>>, x: Leaf<H>, number: nat)
    requires HighDropped(s0, s, done, number) && OnceEach(done, number)
    requires x.number > number && Copies(s, x.number, x.hash) > 0
    ensures HighDropped(s0, Removed(s, x.number, x.hash), done + [x], number)
    ensures OnceEach(done + [x], number)
  {
    hide Copies, Removed;
    OneMore(done, x, x);
    forall n: nat, h: H | n > number
      ensures Copies(Removed(s, x.number, x.hash), n, h) ==
              if Leaf(n, h) in done + [x] then 0 else Copies(s0, n, h)
    {
      RemovedCopies(s, x.number, x.hash, n, h);
      OneMore(done, x, Leaf(n, h));
    }
    forall y: Leaf<H> | y.number > number
      ensures multiset(done + [x])[y] <= 1
    {
      OneMore(done, x, y);
    }
  }

  lemma RevertDrops<H(!new)>(s0: Levels<H>, s: Levels<H>, done: seq<Leaf<H>>, x: Leaf<H>, number: nat)
    requires RevertSoFar(s0, s, done, number) && x.number > number
    requires Contains(s, x.number, x.hash)
    ensures RevertSoFar(s0, Removed(s, x.number, x.hash), done + [x], number)
  {
    hide Copies, HighDropped, OnceEach;
    ContainsIsCopies(s, x.number, x.hash);
    HighDrops(s0, s, done, x, number);
  }

  lemma RevertFails<H(!new)>(s0: Levels<H>, s: Levels<H>, items: seq<Leaf<H>>, i: nat, number: nat)
    requires items == InOrder(s0) && i < |items| && items[i].number > number
    requires RevertSoFar(s0, s, items[..i], number)
    requires !Contains(s, items[i].number, items[i].hash)
    ensures !DistinctAbove(s0, number)
  {
    hide Copies, Contains, InOrder, NoEmptyLevel, LowKept, OnceEach;
    var x := items[i];
    ContainsIsCopies(s, x.number, x.hash);
    InOrderCounts(s0, x);
    assert items == items[..i] + [x] + items[i + 1..];
    OneMore(items[..i], x, x);
    assert multiset(items)[x] >= multiset(items[..i] + [x])[x];
    assert Copies(s, x.number, x.hash) == if x in items[..i] then 0 else Copies(s0, x.number, x.hash);
    assert Copies(s0, x.number, x.hash) > 1;
  }

  lemma NothingAbove<H(!new)>(s0: Levels<H>, s: Levels<H>, number: nat, m: nat, h: H)
    requires RevertSoFar(s0, s, InOrder(s0), number) && m > number
    ensures Copies(s0, m, h) <= 1 && Copies(s, m, h) == 0
  {
    hide Copies, InOrder, LowKept, NoEmptyLevel;
    InOrderCounts(s0, Leaf(m, h));
    OneMore(InOrder(s0), Leaf(m, h), Leaf(m, h));
  }

  lemma RevertEnds<H(!new)>(s0: Levels<H>, s: Levels<H>, number: nat)
    requires RevertSoFar(s0, s, InOrder(s0), number)
    ensures DistinctAbove(s0, number)
    ensures NoEmptyLevel(s0) ==> s == (map n | n in s0 && n <= number :: s0[n])
  {
    hide Copies, HighDropped, OnceEach, InOrder;
    forall m: nat, h: H | m > number
      ensures Copies(s0, m, h) <= 1
    {
      NothingAbove(s0, s, number, m, h);
    }
    if NoEmptyLevel(s0) {
      forall n: nat | n in s
        ensures n <= number && n in s0 && s[n] == s0[n]
      {
        if n > number {
          NothingAbove(s0, s, number, n, s[n][0]);
          ContainsIsCopies(s, n, s[n][0]);
        }
        assert Level(s, n) == Level(s0, n);
      }
    }
  }
}
