/**
 Runs of imports, head changes and finalizations: the canonical index is always the ancestor
 path of the head, and what was finalized once stays canonical.
 */
module ChainRuns {
  import opened Wrappers
  import opened BlockTree
  import opened CanonicalIndex

  datatype Chain = Chain(t: Headers, cols: Columns, meta: Meta)

  datatype Step =
    | ImportSide(hash: Hash, parent: Hash)
    | ImportBest(hash: Hash, parent: Hash)
    | MoveHead(hash: Hash)
    | Finalize(hash: Hash)

  /** The head is in the tree, the index is its ancestor path, and the finalized block is on it. */
  ghost predicate Sound(s: Chain) {
    && MetaFits(s.t, s.meta) && Zero() !in s.t && s.meta.bestHash in s.t
    && s.meta.bestNumber == s.t[s.meta.bestHash].number
    && IndexIs(s.cols.lookup, s.t, s.meta.bestHash)
    && s.cols.best == LookupKey(s.meta.bestNumber, s.meta.bestHash)
    && OnPath(s.t, s.meta.bestHash, s.meta.finalizedHash)
  }

  /** Imported blocks have a parent in the tree, a hash of their own and a number that fits; finalization is
      on the canonical chain, and sequential once it has left the genesis. */
  ghost predicate Legal(s: Chain, step: Step)
    requires Sound(s)
  {
    match step
    case ImportSide(h, parent) => Importable(s.t, h, parent) && h != Zero() && s.t[parent].number + 1 < NUMBERS
    case ImportBest(h, parent) => Importable(s.t, h, parent) && h != Zero()
    case MoveHead(h) => h in s.t
    case Finalize(h) =>
      && OnPath(s.t, s.meta.bestHash, h)
      && (s.t[s.meta.finalizedHash].number > 0 ==> s.t[h].number > 0 && s.t[h].parent == s.meta.finalizedHash)
  }

  /** Importing also maps the hash to its lookup key. */
  function HashMapping(n: nat, h: Hash): Change
    requires n < NUMBERS
  {
    SetLookup(h, LookupKey(n, h))
  }

  ghost function AfterImportSide(s: Chain, h: Hash, parent: Hash): Chain
    requires parent in s.t && s.t[parent].number + 1 < NUMBERS
  {
    Chain(Extend(s.t, h, parent), Commit(s.cols, [HashMapping(s.t[parent].number + 1, h)]), s.meta)
  }

  /** A refused head change leaves everything as it was. */
  ghost function AfterImportBest(s: Chain, h: Hash, parent: Hash, delay: nat): Chain
    requires MetaFits(s.t, s.meta) && parent in s.t
  {
    var best := Point(s.t[parent].number + 1, h);
    match SetHead(s.t, s.meta, delay, parent, best)
    case Failure(_) => s
    case Success(change) =>
      Chain(Extend(s.t, h, parent),
            Commit(s.cols, change.changes + [HashMapping(best.number, h)]),
            s.meta.(bestHash := h, bestNumber := best.number))
  }

  ghost function AfterMoveHead(s: Chain, h: Hash, delay: nat): Chain
    requires MetaFits(s.t, s.meta) && h in s.t
  {
    match SetHead(s.t, s.meta, delay, h, Point(s.t[h].number, h))
    case Failure(_) => s
    case Success(change) =>
      Chain(s.t, Commit(s.cols, change.changes), s.meta.(bestHash := h, bestNumber := s.t[h].number))
  }

  ghost function Next(s: Chain, step: Step, delay: nat): Chain
    requires Sound(s) && Legal(s, step)
  {
    match step
    case ImportSide(h, parent) => AfterImportSide(s, h, parent)
    case ImportBest(h, parent) => AfterImportBest(s, h, parent, delay)
    case MoveHead(h) => AfterMoveHead(s, h, delay)
    case Finalize(h) => s.(meta := s.meta.(finalizedHash := h))
  }

  /** Hash keys are longer than number keys, so they never touch the index. */
  lemma HashKeysDoNotMatter(cols: Columns, t: Headers, head: Hash, n: nat, h: Hash)
    requires TreeOk(t) && head in t && n < NUMBERS && IndexIs(cols.lookup, t, head)
    ensures IndexIs(Commit(cols, [HashMapping(n, h)]).lookup, t, head)
    ensures Commit(cols, [HashMapping(n, h)]).best == cols.best
  {
    hide LookupKey;
    var change := HashMapping(n, h);
    CommitOne(cols, change);
    assert forall m: nat :: m < NUMBERS ==> |NumberKey(m)| == 4;
  }

  lemma IndexInLargerTree(lookup: map<Bytes, Bytes>, t: Headers, t': Headers, head: Hash)
    requires TreeOk(t) && TreeOk(t') && head in t && IndexIs(lookup, t, head)
    requires forall g :: g in t ==> g in t' && t'[g] == t[g]
    ensures IndexIs(lookup, t', head)
  {
    hide NumberKey, LookupKey;
    forall n: nat | n <= t[head].number {
      AncestorInLargerTree(t, t', head, n);
    }
  }

  lemma PathInLargerTree(t: Headers, t': Headers, head: Hash, f: Hash)
    requires TreeOk(t) && TreeOk(t') && head in t && OnPath(t, head, f)
    requires forall g :: g in t ==> g in t' && t'[g] == t[g]
    ensures OnPath(t', head, f)
  {
    AncestorInLargerTree(t, t', head, t[f].number);
  }

  lemma ExtendFits(t: Headers, h: Hash, parent: Hash)
    requires TreeOk(t) && NumbersFit(t) && Importable(t, h, parent) && t[parent].number + 1 < NUMBERS
    ensures var t' := Extend(t, h, parent);
            && TreeOk(t') && NumbersFit(t')
            && forall g :: g in t ==> g in t' && t'[g] == t[g]
  {
    hide TreeOk;
    ExtendKeepsTree(t, h, parent);
  }

  lemma ImportSideKeepsSound(s: Chain, h: Hash, parent: Hash)
    requires Sound(s) && Legal(s, ImportSide(h, parent))
    ensures Sound(AfterImportSide(s, h, parent))
    ensures Follows(s, AfterImportSide(s, h, parent))
  {
    hide IndexIs, Commit, LookupKey, OnPath, TreeOk, NumbersFit, HashMapping;
    var t' := Extend(s.t, h, parent);
    PathIsInTree(s.t, s.meta.bestHash, s.meta.finalizedHash);
    ExtendFits(s.t, h, parent);
    IndexInLargerTree(s.cols.lookup, s.t, t', s.meta.bestHash);
    HashKeysDoNotMatter(s.cols, t', s.meta.bestHash, s.t[parent].number + 1, h);
    PathInLargerTree(s.t, t', s.meta.bestHash, s.meta.finalizedHash);
    OnOwnPath(t', s.meta.finalizedHash);
  }

  lemma PathIsInTree(t: Headers, head: Hash, f: Hash)
    requires TreeOk(t) && head in t && OnPath(t, head, f)
    ensures f in t
  {
  }

  lemma PathThroughParent(t: Headers, h: Hash, f: Hash)
    requires TreeOk(t) && h in t && t[h].number > 0 && OnPath(t, t[h].parent, f)
    ensures OnPath(t, h, f)
  {
  }

  lemma OnOwnPath(t: Headers, f: Hash)
    requires TreeOk(t) && f in t
    ensures OnPath(t, f, f)
  {
  }

  /** A head change that is not refused keeps the finalized block on the path. */
  lemma HeadChangeKeepsFinalized(t: Headers, meta: Meta, delay: nat, routeTo: Hash, best: Point)
    requires MetaFits(t, meta) && Linked(t, meta, routeTo) && OnPath(t, meta.bestHash, meta.finalizedHash)
    requires SetHead(t, meta, delay, routeTo, best).Success?
    ensures OnPath(t, routeTo, meta.finalizedHash) && best.number < NUMBERS
  {
    hide Retracted, Enacted, Unmap, MapAll, HeadChanges;
    RetractedIsLost(t, meta, routeTo, meta.finalizedHash);
  }

  lemma ImportBestKeepsSound(s: Chain, h: Hash, parent: Hash, delay: nat)
    requires Sound(s) && Legal(s, ImportBest(h, parent))
    ensures Sound(AfterImportBest(s, h, parent, delay))
    ensures Follows(s, AfterImportBest(s, h, parent, delay))
  {
    hide IndexIs, Commit, LookupKey, HashMapping, TreeOk, NumbersFit, SetHead, OnPath;
    PathIsInTree(s.t, s.meta.bestHash, s.meta.finalizedHash);
    var best := Point(s.t[parent].number + 1, h);
    var change := SetHead(s.t, s.meta, delay, parent, best);
    OnOwnPath(s.t, s.meta.finalizedHash);
    if change.Success? {
      var t' := Extend(s.t, h, parent);
      HeadChangeKeepsFinalized(s.t, s.meta, delay, parent, best);
      ExtendFits(s.t, h, parent);
      SetHeadToImported(s.t, s.meta, s.cols, delay, h, parent);
      CommitConcat(s.cols, change.value.changes, [HashMapping(best.number, h)]);
      HashKeysDoNotMatter(Commit(s.cols, change.value.changes), t', h, best.number, h);
      PathInLargerTree(s.t, t', parent, s.meta.finalizedHash);
      PathThroughParent(t', h, s.meta.finalizedHash);
      OnOwnPath(t', s.meta.finalizedHash);
    }
  }

  lemma MoveHeadKeepsSound(s: Chain, h: Hash, delay: nat)
    requires Sound(s) && Legal(s, MoveHead(h))
    ensures Sound(AfterMoveHead(s, h, delay))
    ensures Follows(s, AfterMoveHead(s, h, delay))
  {
    hide IndexIs, Commit, LookupKey, TreeOk, NumbersFit, SetHead, OnPath;
    PathIsInTree(s.t, s.meta.bestHash, s.meta.finalizedHash);
    OnOwnPath(s.t, s.meta.finalizedHash);
    if SetHead(s.t, s.meta, delay, h, Point(s.t[h].number, h)).Success? {
      SetHeadToExisting(s.t, s.meta, s.cols, delay, h);
      HeadChangeKeepsFinalized(s.t, s.meta, delay, h, Point(s.t[h].number, h));
    }
  }

  lemma FinalizedBelow(t: Headers, head: Hash, f: Hash, h: Hash)
    requires TreeOk(t) && head in t && OnPath(t, head, f) && OnPath(t, head, h)
    requires t[f].number > 0 ==> t[h].number > 0 && t[h].parent == f
    ensures OnPath(t, h, f)
  {
    if t[f].number == 0 {
      AncestorOfAncestor(t, head, t[h].number, 0);
    } else {
      assert Ancestor(t, h, t[h].number - 1) == t[h].parent;
    }
  }

  lemma FinalizeKeepsSound(s: Chain, h: Hash, delay: nat)
    requires Sound(s) && Legal(s, Finalize(h))
    ensures Sound(Next(s, Finalize(h), delay))
    ensures Follows(s, Next(s, Finalize(h), delay))
  {
    FinalizedBelow(s.t, s.meta.bestHash, s.meta.finalizedHash, h);
    PathIsInTree(s.t, s.meta.bestHash, h);
    hide IndexIs, NumbersFit, LookupKey, TreeOk, OnPath;
  }

  /** Steps only add blocks to the tree, and the finalized block only moves to its descendants. */
  ghost predicate Follows(s: Chain, s': Chain)
    requires Sound(s) && Sound(s')
  {
    && (forall g :: g in s.t ==> g in s'.t && s'.t[g] == s.t[g])
    && s'.meta.finalizedHash in s'.t
    && OnPath(s'.t, s'.meta.finalizedHash, s.meta.finalizedHash)
  }

  lemma NextKeepsSound(s: Chain, step: Step, delay: nat)
    requires Sound(s) && Legal(s, step)
    ensures Sound(Next(s, step, delay)) && Follows(s, Next(s, step, delay))
  {
    hide IndexIs, MetaFits, Commit, SetHead, OnPath, LookupKey, AfterImportSide, AfterImportBest, AfterMoveHead,
        Follows;
    match step
    case ImportSide(h, parent) => ImportSideKeepsSound(s, h, parent);
    case ImportBest(h, parent) => ImportBestKeepsSound(s, h, parent, delay);
    case MoveHead(h) => MoveHeadKeepsSound(s, h, delay);
    case Finalize(h) => FinalizeKeepsSound(s, h, delay);
  }

  lemma PathsCompose(t: Headers, head: Hash, mid: Hash, f: Hash)
    requires TreeOk(t) && head in t && OnPath(t, head, mid) && OnPath(t, mid, f)
    ensures OnPath(t, head, f)
  {
    AncestorOfAncestor(t, head, t[mid].number, t[f].number);
  }

  // ----- every run

  ghost predicate LegalRun(s: Chain, steps: seq<Step>, delay: nat)
    requires Sound(s)
    decreases |steps|
  {
    steps == [] ||
    (&& Legal(s, steps[0])
     && (NextKeepsSound(s, steps[0], delay); LegalRun(Next(s, steps[0], delay), steps[1..], delay)))
  }

  ghost function Run(s: Chain, steps: seq<Step>, delay: nat): (s': Chain)
    requires Sound(s) && LegalRun(s, steps, delay)
    ensures Sound(s')
    decreases |steps|
  {
    if steps == [] then s
    else
      NextKeepsSound(s, steps[0], delay);
      Run(Next(s, steps[0], delay), steps[1..], delay)
  }

  lemma {:induction false} RunFollows(s: Chain, steps: seq<Step>, delay: nat)
    requires Sound(s) && LegalRun(s, steps, delay)
    ensures Follows(s, Run(s, steps, delay))
    decreases |steps|
  {
    if steps != [] {
      NextKeepsSound(s, steps[0], delay);
      var mid := Next(s, steps[0], delay);
      hide Sound, Next, Follows;
      RunFollows(mid, steps[1..], delay);
      var end := Run(s, steps, delay);
      FollowsComposes(s, mid, end);
    }
  }

  lemma FollowsComposes(s: Chain, mid: Chain, end: Chain)
    requires Sound(s) && Sound(mid) && Sound(end) && Follows(s, mid) && Follows(mid, end)
    ensures Follows(s, end)
  {
    hide IndexIs, LookupKey;
    PathInLargerTree(mid.t, end.t, mid.meta.finalizedHash, s.meta.finalizedHash);
    PathsCompose(end.t, end.meta.finalizedHash, mid.meta.finalizedHash, s.meta.finalizedHash);
  }

  /** In every run the number entries are exactly the ancestor path of the current head. */
  lemma IndexFollowsTheHead(s: Chain, steps: seq<Step>, delay: nat, n: nat)
    requires Sound(s) && LegalRun(s, steps, delay) && n < NUMBERS
    ensures var s' := Run(s, steps, delay);
            && (NumberKey(n) in s'.cols.lookup <==> n <= s'.meta.bestNumber)
            && (n <= s'.meta.bestNumber ==>
                s'.cols.lookup[NumberKey(n)] == LookupKey(n, Ancestor(s'.t, s'.meta.bestHash, n)))
  {
    hide NumberKey, LookupKey, Run;
  }

  /** Finality: up to the finalized height, no entry of the index ever changes again. */
  lemma FinalityIsPermanent(s: Chain, steps: seq<Step>, delay: nat, n: nat)
    requires Sound(s) && LegalRun(s, steps, delay) && n <= s.t[s.meta.finalizedHash].number && n < NUMBERS
    ensures var s' := Run(s, steps, delay);
            && NumberKey(n) in s.cols.lookup && NumberKey(n) in s'.cols.lookup
            && s'.cols.lookup[NumberKey(n)] == s.cols.lookup[NumberKey(n)]
  {
    hide NumberKey, LookupKey, Run, LegalRun;
    RunFollows(s, steps, delay);
    var s' := Run(s, steps, delay);
    var f := s.meta.finalizedHash;
    PathsCompose(s'.t, s'.meta.bestHash, s'.meta.finalizedHash, f);
    AncestorOfAncestor(s'.t, s'.meta.bestHash, s.t[f].number, n);
    AncestorOfAncestor(s.t, s.meta.bestHash, s.t[f].number, n);
    AncestorInLargerTree(s.t, s'.t, f, n);
  }

  /** In every run the index names a block at its height exactly when the block is on the path of the head: a
      block finalized off that path would not be canonical. */
  lemma IndexedExactlyOnPath(s: Chain, steps: seq<Step>, delay: nat, h: Hash)
    requires Sound(s) && LegalRun(s, steps, delay) && h in Run(s, steps, delay).t
    ensures var s' := Run(s, steps, delay);
            var n := s'.t[h].number;
            && n < NUMBERS
            && (NumberKey(n) in s'.cols.lookup && s'.cols.lookup[NumberKey(n)] == LookupKey(n, h) <==>
                OnPath(s'.t, s'.meta.bestHash, h))
  {
    RunFollows(s, steps, delay);
    hide Run, LegalRun, NumberKey, LookupKey;
    var s' := Run(s, steps, delay);
    var n := s'.t[h].number;
    if n <= s'.meta.bestNumber && LookupKey(n, h) == LookupKey(n, Ancestor(s'.t, s'.meta.bestHash, n)) {
      LookupKeysDiffer(n, h, n, Ancestor(s'.t, s'.meta.bestHash, n));
    }
  }

  /** Importing the genesis into an empty database gives a sound state. */
  lemma GenesisIsSound(genesis: Hash, delay: nat)
    requires genesis != Zero()
    ensures var meta := Meta(Zero(), 0, Zero());
            var change := SetHead(map[], meta, delay, Zero(), Point(0, genesis));
            && change.Success?
            && Sound(Chain(map[genesis := Header(0, Zero())],
                           Commit(Commit(Columns(map[], []), change.value.changes), [HashMapping(0, genesis)]),
                           Meta(genesis, 0, genesis)))
  {
    hide NumberKey, LookupKey, Commit, HeadChanges;
    var t := map[genesis := Header(0, Zero())];
    var meta := Meta(Zero(), 0, Zero());
    var best := Point(0, genesis);
    var change := SetHead(map[], meta, delay, Zero(), best);
    assert change.value.changes == HeadChanges(best);
    var cols := Commit(Columns(map[], []), HeadChanges(best));
    HeadEntries(Columns(map[], []), best, 0);
    GenesisIndex(genesis);
    HashKeysDoNotMatter(cols, t, genesis, 0, genesis);
    hide IndexIs;
  }

  lemma GenesisIndex(genesis: Hash)
    ensures var t := map[genesis := Header(0, Zero())];
            TreeOk(t) && IndexIs(Commit(Columns(map[], []), HeadChanges(Point(0, genesis))).lookup, t, genesis)
  {
    hide NumberKey, LookupKey, Commit, HeadChanges;
    forall n: nat | n < NUMBERS {
      HeadEntries(Columns(map[], []), Point(0, genesis), n);
    }
  }
}
