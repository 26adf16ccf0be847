/**
 The leaf set beside the block tree: block imports and leaf removals keep it
 equal to the childless blocks, but for those that were imported without
 becoming leaves.

 Headers stand for what a lookup by hash finds, children for the list stored
 under each parent. Block numbers, hashes and parents come from the caller's
 headers; the best block, the presence of state and the outcome of a database
 commit are parameters.
 */
module LeavesOfTree {
  import opened Wrappers
  import opened BlockTree
  import opened LeafSet

  type Children = map<Hash, seq<Hash>>

  datatype Chain = Chain(headers: Headers, children: Children, leaves: Levels<Hash>)

  datatype Error = CantRemoveBest | UnknownBlock | StateDiscarded | NotALeaf | CommitFailed

  /** Whether a new block becomes a leaf: on request, and only where it can still be finalized. */
  predicate Registers(number: nat, registerAsLeaf: bool, lastFinalized: nat) {
    registerAsLeaf && (number > lastFinalized || lastFinalized == 0)
  }

  /** What importing a block makes of headers, children and leaves. */
  function Committed(c: Chain, h: Hash, header: Header, registerAsLeaf: bool, lastFinalized: nat): Chain {
    var headers := c.headers[h := header];
    if header.number <= HighestLeafOf(c.leaves) && h in c.headers then c.(headers := headers)
    else
      var siblings := Level(c.children, header.parent);
      Chain(
        headers,
        if h in siblings then c.children else c.children[header.parent := siblings + [h]],
        if Registers(header.number, registerAsLeaf, lastFinalized)
        then Imported(c.leaves, h, header.number, header.parent) else c.leaves)
  }

  function LeafRemovalCheck(c: Chain, h: Hash, best: Hash, hasState: bool): Option<Error> {
    if best == h then Some(CantRemoveBest)
    else if h !in c.headers then Some(UnknownBlock)
    else if !hasState then Some(StateDiscarded)
    else if !Contains(c.leaves, c.headers[h].number, h) then Some(NotALeaf)
    else None
  }

  function SiblingsWithout(c: Chain, h: Hash): seq<Hash>
    requires h in c.headers
  {
    Without(Level(c.children, c.headers[h].parent), h)
  }

  /** The parent when `h` was its last child. */
  function ParentLeaf(c: Chain, h: Hash): Option<Hash>
    requires h in c.headers
  {
    if SiblingsWithout(c, h) == [] then Some(c.headers[h].parent) else None
  }

  /** What removing a leaf block makes of the chain once the removal is allowed. */
  function LeafRemoved(c: Chain, h: Hash, commits: bool): Chain
    requires h in c.headers && Contains(c.leaves, c.headers[h].number, h)
  {
    var n, parent := c.headers[h].number, c.headers[h].parent;
    var rest := SiblingsWithout(c, h);
    var leaves := RemovedWith(c.leaves, h, n, ParentLeaf(c, h));
    if commits then
      Chain(c.headers - {h}, if rest == [] then c.children - {parent} else c.children[parent := rest], leaves)
    else
      c.(leaves := RemoveUndone(leaves, RemoveReport(c.leaves, h, n, ParentLeaf(c, h)).value))
  }

  // ----- the law

  ghost predicate Childless(t: Headers, h: Hash) {
    forall g :: g in t ==> t[g].parent != h
  }

  ghost predicate IsLeaf(t: Headers, n: nat, h: Hash) {
    h in t && t[h].number == n && Childless(t, h)
  }

  /** The leaf set lists each childless block once, under its number, but for the missed ones, and nothing else. */
  ghost predicate LeavesExact(t: Headers, leaves: Levels<Hash>, missed: set<Hash>) {
    && NoEmptyLevel(leaves)
    && (forall h :: h in missed ==> h in t && Childless(t, h))
    && forall n: nat, h: Hash :: Copies(leaves, n, h) == if IsLeaf(t, n, h) && h !in missed then 1 else 0
  }

  /** Every parent's list holds each of its children once. */
  ghost predicate ChildrenExact(t: Headers, children: Children) {
    forall p: Hash, h: Hash ::
      Copies(children, p, h) == if h in t && t[h].parent == p then 1 else 0
  }

  /** The parent hash a genesis block names is not itself a block. */
  ghost predicate Rooted(t: Headers) {
    forall h :: h in t && t[h].number == 0 ==> t[h].parent !in t
  }

  ghost predicate AgreesBut(c: Chain, missed: set<Hash>) {
    && TreeOk(c.headers) && Rooted(c.headers)
    && ChildrenExact(c.headers, c.children)
    && LeavesExact(c.headers, c.leaves, missed)
  }

  ghost predicate Agrees(c: Chain) {
    AgreesBut(c, {})
  }

  /** A block comes after its parent and before its children, and a hash names one header. */
  ghost predicate Fits(t: Headers, h: Hash, header: Header) {
    if h in t then t[h] == header
    else
      && Childless(t, h) && header.parent != h
      && if header.number == 0 then t == map[]
         else header.parent in t && t[header.parent].number == header.number - 1
  }

  /** The highest leaf is as high as any block, so the guard before the header lookup never hides a block. */
  lemma HighestLeafIsTop(c: Chain, h: Hash)
    requires Agrees(c) && h in c.headers
    ensures c.headers[h].number <= HighestLeafOf(c.leaves)
  {
    var t := c.headers;
    var numbers := set g | g in t :: t[g].number;
    assert t[h].number in numbers;
    var top := Highest(numbers);
    var b :| b in t && t[b].number == top;
    forall g | g in t
      ensures t[g].parent != b
    {
      assert t[g].number in numbers;
    }
    assert IsLeaf(t, top, b);
    ContainsIsCopies(c.leaves, top, b);
    assert top in c.leaves.Keys;
  }

  // ----- importing a block

  lemma LeafAfterImport(t: Headers, h: Hash, header: Header, m: nat, g: Hash)
    requires h !in t && Fits(t, h, header)
    ensures IsLeaf(t[h := header], m, g) <==>
            (m == header.number && g == h) || (IsLeaf(t, m, g) && !(m + 1 == header.number && g == header.parent))
    ensures IsLeaf(t, m, g) ==> g != h
  {
    hide Childless;
    ChildlessAfterImport(t, h, header, g);
  }

  lemma ImportedLeaf(t: Headers, leaves: Levels<Hash>, missed: set<Hash>, h: Hash, header: Header, m: nat, g: Hash)
    requires LeavesExact(t, leaves, missed) && h !in t && Fits(t, h, header)
    ensures Copies(Imported(leaves, h, header.number, header.parent), m, g) ==
            if IsLeaf(t[h := header], m, g) && g !in missed - {header.parent} then 1 else 0
  {
    LeafAfterImport(t, h, header, m, g);
    ChildlessAfterImport(t, h, header, g);
    hide Imported, Copies, NoEmptyLevel, Fits, Childless;
    assert Copies(leaves, m, g) == if IsLeaf(t, m, g) && g !in missed then 1 else 0;
    ImportedCopies(leaves, h, header.number, header.parent, m, g);
  }

  lemma NoLevelEmptiedByImport(leaves: Levels<Hash>, h: Hash, n: nat, parent: Hash)
    requires NoEmptyLevel(leaves)
    ensures NoEmptyLevel(Imported(leaves, h, n, parent))
  {
    var cleared := if n > 0 then Removed(leaves, Below(n), parent) else leaves;
    if n > 0 {
      NoLevelEmptied(leaves, Below(n), parent);
    }
    NoLevelEmptied(cleared, n, h);
  }

  lemma ImportedLeaves(t: Headers, leaves: Levels<Hash>, missed: set<Hash>, h: Hash, header: Header)
    requires LeavesExact(t, leaves, missed) && h !in t && Fits(t, h, header)
    ensures LeavesExact(t[h := header], Imported(leaves, h, header.number, header.parent), missed - {header.parent})
  {
    NoLevelEmptiedByImport(leaves, h, header.number, header.parent);
    hide Imported, Copies, NoEmptyLevel, Fits, IsLeaf;
    forall g | g in missed - {header.parent}
      ensures Childless(t[h := header], g)
    {
      ChildlessAfterImport(t, h, header, g);
    }
    forall m: nat, g: Hash
      ensures Copies(Imported(leaves, h, header.number, header.parent), m, g) ==
              if IsLeaf(t[h := header], m, g) && g !in missed - {header.parent} then 1 else 0
    {
      ImportedLeaf(t, leaves, missed, h, header, m, g);
    }
  }

  /** Without registration the leaves stay, and the new block is missed. */
  lemma UnregisteredLeaves(t: Headers, leaves: Levels<Hash>, missed: set<Hash>, h: Hash, header: Header)
    requires LeavesExact(t, leaves, missed) && h !in t && Fits(t, h, header)
    requires header.number > 0 ==> !Contains(leaves, header.number - 1, header.parent)
    ensures LeavesExact(t[h := header], leaves, missed - {header.parent} + {h})
  {
    var t', missed' := t[h := header], missed - {header.parent} + {h};
    forall g | g in missed'
      ensures Childless(t', g)
    {
      ChildlessAfterImport(t, h, header, g);
    }
    if header.number > 0 {
      ContainsIsCopies(leaves, Below(header.number), header.parent);
    }
    forall m: nat, g: Hash
      ensures Copies(leaves, m, g) == if IsLeaf(t', m, g) && g !in missed' then 1 else 0
    {
      LeafAfterImport(t, h, header, m, g);
      hide Childless, Copies;
      assert Copies(leaves, m, g) == if IsLeaf(t, m, g) && g !in missed then 1 else 0;
    }
  }

  /** A missed block that is imported again above all leaves becomes one after all. */
  lemma RegisteredAfterAll(t: Headers, leaves: Levels<Hash>, missed: set<Hash>, h: Hash)
    requires TreeOk(t) && LeavesExact(t, leaves, missed) && h in t && Childless(t, h)
    requires t[h].number > HighestLeafOf(leaves)
    ensures LeavesExact(t, Imported(leaves, h, t[h].number, t[h].parent), missed - {h})
  {
    var n, parent := t[h].number, t[h].parent;
    NoLevelEmptiedByImport(leaves, h, n, parent);
    assert n !in leaves.Keys;
    assert Copies(leaves, n, h) == 0 && h in missed;
    assert !Childless(t, parent);
    hide Imported, Copies, NoEmptyLevel, Childless;
    forall m: nat, g: Hash
      ensures Copies(Imported(leaves, h, n, parent), m, g) == if IsLeaf(t, m, g) && g !in missed - {h} then 1 else 0
    {
      ImportedCopies(leaves, h, n, parent, m, g);
      assert Copies(leaves, m, g) == if IsLeaf(t, m, g) && g !in missed then 1 else 0;
    }
  }

  lemma ChildlessAfterImport(t: Headers, h: Hash, header: Header, g: Hash)
    requires h !in t && Fits(t, h, header)
    ensures Childless(t[h := header], g) <==> Childless(t, g) && g != header.parent
    ensures Childless(t[h := header], h)
  {
    var t' := t[h := header];
    assert t'[h].parent == header.parent;
    if Childless(t', g) {
      forall k | k in t
        ensures t[k].parent != g
      {
        assert t'[k] == t[k];
      }
    }
  }

  lemma ImportedChildren(t: Headers, children: Children, h: Hash, header: Header)
    requires ChildrenExact(t, children) && h !in t
    ensures !Contains(children, header.parent, h)
    ensures ChildrenExact(t[h := header], Inserted(children, header.parent, h))
  {
    ContainsIsCopies(children, header.parent, h);
    hide Copies, Inserted;
    forall p: Hash, g: Hash
      ensures Copies(Inserted(children, header.parent, h), p, g) ==
              if g in t[h := header] && t[h := header][g].parent == p then 1 else 0
    {
      InsertedCopies(children, header.parent, h, p, g);
    }
  }

  lemma ImportedTree(t: Headers, h: Hash, header: Header)
    requires TreeOk(t) && Rooted(t) && h !in t && Fits(t, h, header)
    ensures TreeOk(t[h := header]) && Rooted(t[h := header])
  {
  }

  /** An import lists no block that has children: a block not registered has no leaf for a parent, and one
      imported again above all leaves has no children. */
  ghost predicate Placeable(c: Chain, h: Hash, header: Header, registerAsLeaf: bool, lastFinalized: nat) {
    if registerAsLeaf && (header.number > lastFinalized || lastFinalized == 0)
    then h in c.headers ==> header.number <= HighestLeafOf(c.leaves) || Childless(c.headers, h)
    else h in c.headers || header.number == 0 || !Contains(c.leaves, header.number - 1, header.parent)
  }

  /** A new block is missed unless it registers, and its parent no longer is. */
  ghost function MissedBy(c: Chain, missed: set<Hash>, h: Hash, header: Header, registerAsLeaf: bool,
                          lastFinalized: nat): set<Hash> {
    var registers := registerAsLeaf && (header.number > lastFinalized || lastFinalized == 0);
    if h in c.headers then
      if registers && header.number > HighestLeafOf(c.leaves) then missed - {h} else missed
    else missed - {header.parent} + if registers then {} else {h}
  }

  lemma KnownKeepsAgreement(c: Chain, missed: set<Hash>, h: Hash, registerAsLeaf: bool, lastFinalized: nat)
    requires AgreesBut(c, missed) && h in c.headers
    requires Placeable(c, h, c.headers[h], registerAsLeaf, lastFinalized)
    ensures AgreesBut(Committed(c, h, c.headers[h], registerAsLeaf, lastFinalized),
                      MissedBy(c, missed, h, c.headers[h], registerAsLeaf, lastFinalized))
  {
    var header := c.headers[h];
    assert c.headers[h := header] == c.headers;
    assert Copies(c.children, header.parent, h) == 1;
    ContainsIsCopies(c.children, header.parent, h);
    hide Copies, ChildrenExact, Rooted;
    if Registers(header.number, registerAsLeaf, lastFinalized) && header.number > HighestLeafOf(c.leaves) {
      RegisteredAfterAll(c.headers, c.leaves, missed, h);
    }
    hide TreeOk, LeavesExact, Imported;
  }

  lemma NewKeepsAgreement(c: Chain, missed: set<Hash>, h: Hash, header: Header, registerAsLeaf: bool,
                          lastFinalized: nat)
    requires AgreesBut(c, missed) && h !in c.headers && Fits(c.headers, h, header)
    requires Placeable(c, h, header, registerAsLeaf, lastFinalized)
    ensures AgreesBut(Committed(c, h, header, registerAsLeaf, lastFinalized),
                      MissedBy(c, missed, h, header, registerAsLeaf, lastFinalized))
  {
    hide TreeOk, Rooted, ChildrenExact, LeavesExact, Fits;
    ImportedTree(c.headers, h, header);
    ImportedChildren(c.headers, c.children, h, header);
    if Registers(header.number, registerAsLeaf, lastFinalized) {
      ImportedLeaves(c.headers, c.leaves, missed, h, header);
      assert missed - {header.parent} + {} == missed - {header.parent};
    } else {
      UnregisteredLeaves(c.headers, c.leaves, missed, h, header);
    }
  }

  lemma ImportKeepsAgreement(c: Chain, missed: set<Hash>, h: Hash, header: Header, registerAsLeaf: bool,
                             lastFinalized: nat)
    requires AgreesBut(c, missed) && Fits(c.headers, h, header)
    requires Placeable(c, h, header, registerAsLeaf, lastFinalized)
    ensures AgreesBut(Committed(c, h, header, registerAsLeaf, lastFinalized),
                      MissedBy(c, missed, h, header, registerAsLeaf, lastFinalized))
  {
    if h in c.headers {
      KnownKeepsAgreement(c, missed, h, registerAsLeaf, lastFinalized);
    } else {
      NewKeepsAgreement(c, missed, h, header, registerAsLeaf, lastFinalized);
    }
  }

  lemma ListedParentBreaksAgreement(c: Chain, n: nat, b: Hash, child: Hash, missed: set<Hash>)
    requires child in c.headers && c.headers[child].parent == b && Contains(c.leaves, n, b)
    ensures !AgreesBut(c, missed)
  {
    hide TreeOk, Rooted, ChildrenExact, NoEmptyLevel;
    ContainsIsCopies(c.leaves, n, b);
    hide Copies, Contains;
    assert !IsLeaf(c.headers, n, b);
  }

  /** Otherwise a block with children stands in the leaf set afterwards. */
  lemma MisplacedBreaksAgreement(c: Chain, h: Hash, header: Header, registerAsLeaf: bool, lastFinalized: nat,
                                 missed: set<Hash>)
    requires Fits(c.headers, h, header) && !Placeable(c, h, header, registerAsLeaf, lastFinalized)
    ensures !AgreesBut(Committed(c, h, header, registerAsLeaf, lastFinalized), missed)
  {
    hide AgreesBut;
    var c' := Committed(c, h, header, registerAsLeaf, lastFinalized);
    if h in c.headers {
      var g :| g in c.headers && c.headers[g].parent == h;
      assert c.headers[h := header] == c.headers;
      ImportedCopies(c.leaves, h, header.number, header.parent, header.number, h);
      ContainsIsCopies(c'.leaves, header.number, h);
      ListedParentBreaksAgreement(c', header.number, h, g, missed);
    } else {
      ListedParentBreaksAgreement(c', header.number - 1, header.parent, h, missed);
    }
  }

  lemma UnregisteredBreaksAgreement(c: Chain, h: Hash, header: Header, registerAsLeaf: bool, lastFinalized: nat)
    requires Agrees(c) && Fits(c.headers, h, header)
    requires h !in c.headers && !Registers(header.number, registerAsLeaf, lastFinalized)
    ensures !Agrees(Committed(c, h, header, registerAsLeaf, lastFinalized))
  {
    ChildlessAfterImport(c.headers, h, header, h);
    var c' := Committed(c, h, header, registerAsLeaf, lastFinalized);
    assert IsLeaf(c'.headers, header.number, h);
    assert Copies(c.leaves, header.number, h) == 0;
  }

  /**
   An import leaves childless blocks alone in the leaf set exactly when it is
   placeable; it keeps the leaf set equal to the childless blocks exactly when the
   block is known already or is registered as a leaf.
   */
  lemma ImportAgreesExactly(c: Chain, missed: set<Hash>, h: Hash, header: Header, registerAsLeaf: bool,
                            lastFinalized: nat)
    requires AgreesBut(c, missed) && Fits(c.headers, h, header)
    ensures var c' := Committed(c, h, header, registerAsLeaf, lastFinalized);
            && c'.headers == c.headers[h := header]
            && (Placeable(c, h, header, registerAsLeaf, lastFinalized) <==>
                exists after :: AgreesBut(c', after))
            && (missed == {} ==>
                  (Agrees(c') <==>
                   h in c.headers || (registerAsLeaf && (header.number > lastFinalized || lastFinalized == 0))))
  {
    var c' := Committed(c, h, header, registerAsLeaf, lastFinalized);
    hide AgreesBut, Fits;
    if Placeable(c, h, header, registerAsLeaf, lastFinalized) {
      ImportKeepsAgreement(c, missed, h, header, registerAsLeaf, lastFinalized);
    } else {
      forall after
        ensures !AgreesBut(c', after)
      {
        MisplacedBreaksAgreement(c, h, header, registerAsLeaf, lastFinalized, after);
      }
    }
    if missed == {} {
      if h in c.headers || Registers(header.number, registerAsLeaf, lastFinalized) {
        RegisteringMissesNone(c, h, header, registerAsLeaf, lastFinalized);
      } else {
        UnregisteredBreaksAgreement(c, h, header, registerAsLeaf, lastFinalized);
      }
    }
  }

  lemma RegisteringMissesNone(c: Chain, h: Hash, header: Header, registerAsLeaf: bool, lastFinalized: nat)
    requires Agrees(c) && Fits(c.headers, h, header)
    requires h in c.headers || Registers(header.number, registerAsLeaf, lastFinalized)
    ensures Placeable(c, h, header, registerAsLeaf, lastFinalized)
    ensures MissedBy(c, {}, h, header, registerAsLeaf, lastFinalized) == {}
  {
    if h in c.headers {
      HighestLeafIsTop(c, h);
    }
  }

  // ----- removing a leaf block

  /** A leaf other than the best block is not the genesis. */
  lemma LeafIsNotGenesis(t: Headers, h: Hash, best: Hash)
    requires TreeOk(t) && h in t && best in t && h != best && Childless(t, h)
    ensures t[h].number > 0
  {
    if t[best].number > 0 {
      var first := Ancestor(t, best, 1);
      assert t[t[first].parent].number == 0;
    }
  }

  lemma ChildlessAfterRemoval(t: Headers, h: Hash, g: Hash)
    requires h in t
    ensures Childless(t - {h}, g) <==> forall k :: k in t && t[k].parent == g ==> k == h
  {
    var t' := t - {h};
    assert forall k :: k in t && k != h ==> k in t' && t'[k] == t[k];
  }

  lemma LastChild(c: Chain, h: Hash)
    requires ChildrenExact(c.headers, c.children) && h in c.headers
    ensures ParentLeaf(c, h).Some? <==> Childless(c.headers - {h}, c.headers[h].parent)
  {
    var t, parent := c.headers, c.headers[h].parent;
    var rest := SiblingsWithout(c, h);
    ChildlessAfterRemoval(t, h, parent);
    forall k: Hash
      ensures k in rest <==> k in t && t[k].parent == parent && k != h
    {
      assert Copies(c.children, parent, k) == if k in t && t[k].parent == parent then 1 else 0;
      WithoutCounts(Level(c.children, parent), h);
      OneMore(rest, h, k);
    }
    if rest != [] {
      assert rest[0] in rest;
    }
  }

  lemma RemovedChildren(c: Chain, h: Hash)
    requires ChildrenExact(c.headers, c.children) && h in c.headers
    requires Contains(c.leaves, c.headers[h].number, h)
    ensures ChildrenExact(c.headers - {h}, LeafRemoved(c, h, true).children)
  {
    var t, parent := c.headers, c.headers[h].parent;
    assert Copies(c.children, parent, h) == 1;
    ContainsIsCopies(c.children, parent, h);
    assert LeafRemoved(c, h, true).children == Removed(c.children, parent, h);
    var t' := LeafRemoved(c, h, true).headers;
    hide Copies, Removed, LeafRemoved;
    forall p: Hash, g: Hash
      ensures Copies(Removed(c.children, parent, h), p, g) == if g in t' && t'[g].parent == p then 1 else 0
    {
      RemovedCopies(c.children, parent, h, p, g);
    }
  }

  lemma RemovedLeaves(c: Chain, missed: set<Hash>, h: Hash)
    requires AgreesBut(c, missed) && h in c.headers && c.headers[h].number > 0
    requires Contains(c.leaves, c.headers[h].number, h)
    ensures LeavesExact(c.headers - {h}, RemovedWith(c.leaves, h, c.headers[h].number, ParentLeaf(c, h)), missed)
  {
    var t, n, parent := c.headers, c.headers[h].number, c.headers[h].parent;
    var cleared := Removed(c.leaves, n, h);
    var after := RemovedWith(c.leaves, h, n, ParentLeaf(c, h));
    LastChild(c, h);
    NoLevelEmptied(c.leaves, n, h);
    NoLevelEmptied(cleared, Below(n), parent);
    ContainsIsCopies(c.leaves, n, h);
    assert !Childless(t, parent);
    forall g | g in missed
      ensures g in t - {h} && Childless(t - {h}, g)
    {
      assert Copies(c.leaves, n, h) > 0;
      StillChildless(t, h, g);
    }
    hide Inserted, Removed, Copies, NoEmptyLevel, ChildrenExact, ParentLeaf;
    forall m: nat, g: Hash
      ensures Copies(after, m, g) == if IsLeaf(t - {h}, m, g) && g !in missed then 1 else 0
    {
      RemovedCopies(c.leaves, n, h, m, g);
      InsertedCopies(cleared, Below(n), parent, m, g);
      LeafAfterRemoval(t, h, m, g);
      assert Copies(c.leaves, m, g) == if IsLeaf(t, m, g) && g !in missed then 1 else 0;
    }
  }

  lemma LeafAfterRemoval(t: Headers, h: Hash, m: nat, g: Hash)
    requires TreeOk(t) && h in t && t[h].number > 0
    ensures IsLeaf(t - {h}, m, g) <==>
            g != h && (IsLeaf(t, m, g) || (m + 1 == t[h].number && g == t[h].parent && Childless(t - {h}, g)))
    ensures IsLeaf(t, t[h].number - 1, t[h].parent) == false
  {
    assert t[h].parent in t && !Childless(t, t[h].parent);
    StillChildless(t, h, g);
    hide Childless;
  }

  /** Removing a block makes no other block childless than its parent. */
  lemma StillChildless(t: Headers, h: Hash, g: Hash)
    requires h in t
    ensures g != t[h].parent ==> (Childless(t - {h}, g) <==> Childless(t, g))
    ensures Childless(t, g) ==> Childless(t - {h}, g)
  {
    ChildlessAfterRemoval(t, h, g);
  }

  lemma RemovedTree(t: Headers, h: Hash)
    requires TreeOk(t) && Rooted(t) && h in t && Childless(t, h)
    ensures TreeOk(t - {h}) && Rooted(t - {h})
  {
  }

  /** Removing a leaf block keeps the agreement, whether the database commit succeeds or the removal is undone;
      the parent whose last child it was becomes a leaf even if it had been missed before. */
  lemma RemovalKeepsAgreement(c: Chain, missed: set<Hash>, h: Hash, best: Hash, hasState: bool, commits: bool)
    requires AgreesBut(c, missed) && best in c.headers
    requires LeafRemovalCheck(c, h, best, hasState) == None
    ensures AgreesBut(LeafRemoved(c, h, commits), missed)
    ensures commits ==> LeafRemoved(c, h, commits).headers == c.headers - {h}
    ensures !commits ==> SameLeaves(LeafRemoved(c, h, commits).leaves, c.leaves)
  {
    var n := c.headers[h].number;
    ContainsIsCopies(c.leaves, n, h);
    assert IsLeaf(c.headers, n, h);
    LeafIsNotGenesis(c.headers, h, best);
    if commits {
      RemovedTree(c.headers, h);
      RemovedChildren(c, h);
      RemovedLeaves(c, missed, h);
    } else {
      RemovalUndone(c, missed, h);
    }
  }

  /** Why a removal is refused; the first of the tests that fails decides. */
  ghost function Refusal(c: Chain, missed: set<Hash>, h: Hash, best: Hash, hasState: bool): Option<Error> {
    if h == best then Some(CantRemoveBest)
    else if h !in c.headers then Some(UnknownBlock)
    else if !hasState then Some(StateDiscarded)
    else if !Childless(c.headers, h) || h in missed then Some(NotALeaf)
    else None
  }

  /** A block is removed exactly when it is known and not the best one, has its state, is childless and was not
      missed, and the commit succeeds. */
  lemma RemovalIsDecided(c: Chain, missed: set<Hash>, h: Hash, best: Hash, hasState: bool, commits: bool)
    requires AgreesBut(c, missed)
    ensures LeafRemovalCheck(c, h, best, hasState) == Refusal(c, missed, h, best, hasState)
    ensures Next(c, RemoveBlock(h, best, hasState, commits)).headers ==
            if Refusal(c, missed, h, best, hasState).None? && commits then c.headers - {h} else c.headers
  {
    if h in c.headers {
      ContainsIsCopies(c.leaves, c.headers[h].number, h);
    }
  }

  lemma RemovalUndone(c: Chain, missed: set<Hash>, h: Hash)
    requires AgreesBut(c, missed) && h in c.headers && c.headers[h].number > 0
    requires Contains(c.leaves, c.headers[h].number, h)
    ensures SameLeaves(LeafRemoved(c, h, false).leaves, c.leaves)
    ensures LeavesExact(c.headers, LeafRemoved(c, h, false).leaves, missed)
  {
    var n, parent := c.headers[h].number, c.headers[h].parent;
    LeafAfterRemoval(c.headers, h, Below(n), parent);
    assert Copies(c.leaves, Below(n), parent) == 0;
    ContainsIsCopies(c.leaves, Below(n), parent);
    ContainsIsCopies(c.leaves, n, h);
    UndoRemoveRestores(c.leaves, h, n, ParentLeaf(c, h));
    NoLevelEmptied(c.leaves, n, h);
    var cleared := Removed(c.leaves, n, h);
    NoLevelEmptied(cleared, Below(n), parent);
    NoLevelEmptied(Inserted(cleared, Below(n), parent), Below(n), parent);
    NoLevelEmptied(Removed(Inserted(cleared, Below(n), parent), Below(n), parent), n, h);
    NoLevelEmptied(cleared, n, h);
  }

  /** A removal that is undone leaves its block the last of its level. */
  lemma UndoneComesLast(c: Chain, h: Hash)
    requires h in c.headers && Contains(c.leaves, c.headers[h].number, h)
    ensures var level := Level(LeafRemoved(c, h, false).leaves, c.headers[h].number);
            level != [] && level[|level| - 1] == h
  {
    hide Removed, RemovedWith;
  }

  // ----- runs

  datatype Step =
    | Import(hash: Hash, header: Header, registerAsLeaf: bool, lastFinalized: nat)
    | RemoveBlock(hash: Hash, best: Hash, hasState: bool, commits: bool)

  ghost predicate Legal(c: Chain, step: Step) {
    match step
    case Import(h, header, registerAsLeaf, lastFinalized) =>
      Fits(c.headers, h, header) && Placeable(c, h, header, registerAsLeaf, lastFinalized)
    case RemoveBlock(h, best, hasState, commits) => best in c.headers
  }

  ghost function Next(c: Chain, step: Step): Chain {
    match step
    case Import(h, header, registerAsLeaf, lastFinalized) => Committed(c, h, header, registerAsLeaf, lastFinalized)
    case RemoveBlock(h, best, hasState, commits) =>
      if LeafRemovalCheck(c, h, best, hasState).Some? then c else LeafRemoved(c, h, commits)
  }

  ghost predicate LegalRun(c: Chain, steps: seq<Step>)
    decreases |steps|
  {
    steps == [] || (Legal(c, steps[0]) && LegalRun(Next(c, steps[0]), steps[1..]))
  }

  ghost function Run(c: Chain, steps: seq<Step>): Chain
    decreases |steps|
  {
    if steps == [] then c else Run(Next(c, steps[0]), steps[1..])
  }

  ghost function MissedIn(c: Chain, missed: set<Hash>, step: Step): set<Hash> {
    match step
    case Import(h, header, registerAsLeaf, lastFinalized) =>
      MissedBy(c, missed, h, header, registerAsLeaf, lastFinalized)
    case RemoveBlock(_, _, _, _) => missed
  }

  /** The blocks missed at the end of a run. */
  ghost function Missed(c: Chain, missed: set<Hash>, steps: seq<Step>): set<Hash>
    decreases |steps|
  {
    if steps == [] then missed else Missed(Next(c, steps[0]), MissedIn(c, missed, steps[0]), steps[1..])
  }

  lemma StepKeepsAgreement(c: Chain, missed: set<Hash>, step: Step)
    requires AgreesBut(c, missed) && Legal(c, step)
    ensures AgreesBut(Next(c, step), MissedIn(c, missed, step))
  {
    hide AgreesBut, Fits, Placeable, MissedBy;
    match step
    case Import(h, header, registerAsLeaf, lastFinalized) =>
      ImportKeepsAgreement(c, missed, h, header, registerAsLeaf, lastFinalized);
    case RemoveBlock(h, best, hasState, commits) =>
      if LeafRemovalCheck(c, h, best, hasState).None? {
        RemovalKeepsAgreement(c, missed, h, best, hasState, commits);
      }
  }

  lemma {:induction false} RunKeepsAgreement(c: Chain, missed: set<Hash>, steps: seq<Step>)
    requires AgreesBut(c, missed) && LegalRun(c, steps)
    ensures AgreesBut(Run(c, steps), Missed(c, missed, steps))
    decreases |steps|
  {
    if steps != [] {
      hide AgreesBut, Legal, Next, MissedIn;
      StepKeepsAgreement(c, missed, steps[0]);
      RunKeepsAgreement(Next(c, steps[0]), MissedIn(c, missed, steps[0]), steps[1..]);
    }
  }

  const EMPTY: Chain := Chain(map[], map[], map[])

  lemma EmptyAgrees()
    ensures AgreesBut(EMPTY, {})
  {
  }

  /**
   After any placeable imports and any leaf removals from an empty database a
   block is in the leaf set exactly when it is known, childless and not one of the
   missed blocks; it is listed once, and no level is empty.
   */
  lemma LeavesAndMissedBlocks(steps: seq<Step>, n: nat, h: Hash)
    requires LegalRun(EMPTY, steps)
    ensures var c, missed := Run(EMPTY, steps), Missed(EMPTY, {}, steps);
            && NoEmptyLevel(c.leaves)
            && Copies(c.leaves, n, h) <= 1
            && (h in missed ==> h in c.headers && forall g :: g in c.headers ==> c.headers[g].parent != h)
            && (Contains(c.leaves, n, h) <==>
                && h in c.headers && c.headers[h].number == n && h !in missed
                && forall g :: g in c.headers ==> c.headers[g].parent != h)
  {
    EmptyAgrees();
    RunKeepsAgreement(EMPTY, {}, steps);
    ContainsIsCopies(Run(EMPTY, steps).leaves, n, h);
  }

  /** A step whose import, if it is one, brings a known block or registers a new one. */
  ghost predicate RegisteringStep(c: Chain, step: Step) {
    match step
    case Import(h, header, registerAsLeaf, lastFinalized) =>
      && Fits(c.headers, h, header)
      && (h in c.headers || (registerAsLeaf && (header.number > lastFinalized || lastFinalized == 0)))
    case RemoveBlock(_, best, _, _) => best in c.headers
  }

  ghost predicate RegisteringRun(c: Chain, steps: seq<Step>)
    decreases |steps|
  {
    steps == [] || (RegisteringStep(c, steps[0]) && RegisteringRun(Next(c, steps[0]), steps[1..]))
  }

  lemma RegisteringStepMissesNone(c: Chain, step: Step)
    requires Agrees(c) && RegisteringStep(c, step)
    ensures Legal(c, step) && MissedIn(c, {}, step) == {}
  {
    if step.Import? {
      RegisteringMissesNone(c, step.hash, step.header, step.registerAsLeaf, step.lastFinalized);
    }
  }

  lemma {:induction false} RegisteringRunMissesNone(c: Chain, steps: seq<Step>)
    requires Agrees(c) && RegisteringRun(c, steps)
    ensures LegalRun(c, steps) && Missed(c, {}, steps) == {}
    decreases |steps|
  {
    if steps != [] {
      hide AgreesBut, Legal, Next, MissedIn, RegisteringStep;
      RegisteringStepMissesNone(c, steps[0]);
      StepKeepsAgreement(c, {}, steps[0]);
      RegisteringRunMissesNone(Next(c, steps[0]), steps[1..]);
    }
  }

  /**
   After any imports that register their new blocks, and any leaf removals, from
   an empty database a block is in the leaf set exactly when it is known and
   childless, it is listed once, and no level is empty.
   */
  lemma LeavesAreTheChildlessBlocks(steps: seq<Step>, n: nat, h: Hash)
    requires RegisteringRun(EMPTY, steps)
    ensures var c := Run(EMPTY, steps);
            && NoEmptyLevel(c.leaves)
            && Copies(c.leaves, n, h) <= 1
            && (Contains(c.leaves, n, h) <==>
                h in c.headers && c.headers[h].number == n && forall g :: g in c.headers ==> c.headers[g].parent != h)
  {
    EmptyAgrees();
    RegisteringRunMissesNone(EMPTY, steps);
    LeavesAndMissedBlocks(steps, n, h);
  }

  function BlockHash(i: byte): Hash {
    seq(32, _ => i)
  }

  /** Two imports that give a genesis and a block on it. */
  function TwoImports(): seq<Step> {
    [Import(BlockHash(1), Header(0, BlockHash(0)), true, 0), Import(BlockHash(2), Header(1, BlockHash(1)), true, 0)]
  }

  lemma TwoBlocks()
    ensures LegalRun(EMPTY, TwoImports())
    ensures var c := Run(EMPTY, TwoImports());
            && Agrees(c)
            && c.headers == map[BlockHash(1) := Header(0, BlockHash(0)), BlockHash(2) := Header(1, BlockHash(1))]
  {
    var first, second := TwoImports()[0], TwoImports()[1];
    assert BlockHash(0)[0] == 0 && BlockHash(1)[0] == 1 && BlockHash(2)[0] == 2;
    EmptyAgrees();
    hide AgreesBut, Committed, Placeable;
    ImportAgreesExactly(EMPTY, {}, BlockHash(1), first.header, true, 0);
    RegisteringStepMissesNone(EMPTY, first);
    var c := Next(EMPTY, first);
    assert c.headers == map[BlockHash(1) := Header(0, BlockHash(0))];
    ImportAgreesExactly(c, {}, BlockHash(2), second.header, true, 0);
    RegisteringStepMissesNone(c, second);
    RunOfTwo(EMPTY, first, second);
  }

  /** A fork block imported at the finalized height: known, childless, and no leaf. */
  lemma ForkBelowFinalityIsNoLeaf()
    ensures LegalRun(EMPTY, TwoImports())
    ensures var c := Run(EMPTY, TwoImports());
            var fork := Header(1, BlockHash(1));
            && Agrees(c) && Fits(c.headers, BlockHash(3), fork)
            && !Agrees(Committed(c, BlockHash(3), fork, true, 1))
            && AgreesBut(Committed(c, BlockHash(3), fork, true, 1), {BlockHash(3)})
  {
    TwoBlocks();
    hide AgreesBut, Committed, Run, LegalRun;
    var c := Run(EMPTY, TwoImports());
    assert BlockHash(1)[0] == 1 && BlockHash(2)[0] == 2 && BlockHash(3)[0] == 3;
    assert Fits(c.headers, BlockHash(3), Header(1, BlockHash(1)));
    ImportAgreesExactly(c, {}, BlockHash(3), Header(1, BlockHash(1)), true, 1);
    assert Placeable(c, BlockHash(3), Header(1, BlockHash(1)), true, 1) by {
      ParentIsNoLeaf(c, {}, BlockHash(2));
    }
    ImportKeepsAgreement(c, {}, BlockHash(3), Header(1, BlockHash(1)), true, 1);
    assert {} - {BlockHash(1)} + {BlockHash(3)} == {BlockHash(3)};
  }

  lemma ParentIsNoLeaf(c: Chain, missed: set<Hash>, child: Hash)
    requires AgreesBut(c, missed) && child in c.headers && c.headers[child].number > 0
    ensures !Contains(c.leaves, c.headers[child].number - 1, c.headers[child].parent)
  {
    if Contains(c.leaves, c.headers[child].number - 1, c.headers[child].parent) {
      ListedParentBreaksAgreement(c, c.headers[child].number - 1, c.headers[child].parent, child, missed);
    }
  }

  lemma RunOfTwo(c: Chain, first: Step, second: Step)
    requires Legal(c, first) && Legal(Next(c, first), second)
    ensures LegalRun(c, [first, second]) && Run(c, [first, second]) == Next(Next(c, first), second)
  {
    hide Next, Legal;
    assert [first, second][1..] == [second] && [second][1..] == [];
    assert LegalRun(Next(c, first), [second]) && Run(Next(c, first), [second]) == Next(Next(c, first), second);
  }

  /** The tables the two operations update. */
  class BlockStore {
    var headers: Headers
    var children: Children
    const leaves: LeafStore<Hash>

    constructor ()
      ensures fresh(leaves)
      ensures Value() == Chain(map[], map[], map[])
    {
      headers, children := map[], map[];
      leaves := new LeafStore();
    }

    function Value(): Chain
      reads this, leaves
    {
      Chain(headers, children, leaves.storage)
    }

    method CommitBlock(h: Hash, header: Header, registerAsLeaf: bool, lastFinalized: nat)
      modifies this, leaves
      ensures Value() == Committed(old(Value()), h, header, registerAsLeaf, lastFinalized)
    {
      var highest := leaves.HighestLeaf();
      var known := header.number <= highest && h in headers;
      headers := headers[h := header];
      if !known {
        if registerAsLeaf && (header.number > lastFinalized || lastFinalized == 0) {
          var _ := leaves.Import(h, header.number, header.parent);
        }
        var siblings := Level(children, header.parent);
        if h !in siblings {
          siblings := siblings + [h];
          children := children[header.parent := siblings];
        }
      }
    }

    method RemoveLeafBlock(h: Hash, best: Hash, hasState: bool, commits: bool) returns (r: Result<(), Error>)
      modifies this, leaves
      ensures r.Failure? && r.error != CommitFailed <==> LeafRemovalCheck(old(Value()), h, best, hasState).Some?
      ensures r.Failure? && r.error != CommitFailed ==>
                LeafRemovalCheck(old(Value()), h, best, hasState) == Some(r.error) && Value() == old(Value())
      ensures LeafRemovalCheck(old(Value()), h, best, hasState).None? ==>
                && (r.Success? <==> commits)
                && Value() == LeafRemoved(old(Value()), h, commits)
    {
      if best == h {
        return Failure(CantRemoveBest);
      }
      if h !in headers {
        return Failure(UnknownBlock);
      }
      var header := headers[h];
      if !hasState {
        return Failure(StateDiscarded);
      }
      if !Contains(leaves.storage, header.number, h) {
        return Failure(NotALeaf);
      }
      var rest, _ := Retain(Level(children, header.parent), h);
      var parentLeaf := if rest == [] then Some(header.parent) else None;
      var outcome := leaves.Remove(h, header.number, parentLeaf);
      if !commits {
        leaves.UndoRemove(outcome.value);
        return Failure(CommitFailed);
      }
      headers := headers - {h};
      children := if rest == [] then children - {header.parent} else children[header.parent := rest];
      r := Success(());
    }
  }
}
