/**
 Runs of imports and prunes on the block database: reference counts are exact and every
 unpruned body reads back as it was imported.
 */
module IndexedBodies {
  import opened Wrappers
  import opened RefCounted
  import opened TransactionIndex
  import opened JoinInput

  // ----- reference counts under one transaction

  function CountOf(col: Column, h: Hash): nat {
    if h in col then col[h].count else 0
  }

  ghost predicate Positive(col: Column) {
    forall h :: h in col ==> col[h].count > 0
  }

  ghost predicate NoReleases(changes: seq<Change>) {
    forall i :: 0 <= i < |changes| ==> !changes[i].Release?
  }

  /** Every reference finds its hash in the column when its turn comes. */
  ghost predicate Backed(col: Column, changes: seq<Change>)
    decreases |changes|
  {
    changes == [] ||
    ((changes[0].Reference? ==> changes[0].key in col) && Backed(Apply(col, changes[0]), changes[1..]))
  }

  ghost function Uses(hashes: seq<Hash>): multiset<Hash> {
    multiset(hashes)
  }

  lemma KeysSplit(changes: seq<Change>)
    requires changes != []
    ensures Uses(KeysOf(changes)) == multiset{changes[0].key} + Uses(KeysOf(changes[1..]))
  {
    assert KeysOf(changes) == [changes[0].key] + KeysOf(changes[1..]);
  }

  /** A transaction of stores and references never counts more than its uses, and counts each of
      them for every hash exactly when it is backed. */
  lemma {:induction false} CommitCountsUses(col: Column, changes: seq<Change>)
    requires NoReleases(changes)
    ensures forall h :: CountOf(Commit(col, changes), h) <= CountOf(col, h) + Uses(KeysOf(changes))[h]
    ensures (forall h :: CountOf(Commit(col, changes), h) == CountOf(col, h) + Uses(KeysOf(changes))[h])
            <==> Backed(col, changes)
    decreases |changes|
  {
    assert changes == [] ==> KeysOf(changes) == [];
    hide KeysOf;
    if changes != [] {
      KeysSplit(changes);
      var c := changes[0];
      var next := Apply(col, c);
      assert NoReleases(changes[1..]);
      CommitCountsUses(next, changes[1..]);
      assert forall h :: h != c.key ==> CountOf(next, h) == CountOf(col, h);
      if c.Reference? && c.key !in col {
        assert CountOf(next, c.key) == 0;
        assert CountOf(Commit(col, changes), c.key) < CountOf(col, c.key) + Uses(KeysOf(changes))[c.key];
      } else {
        assert CountOf(next, c.key) == CountOf(col, c.key) + 1;
        hide Apply;
        assert forall h ::
            CountOf(col, h) + Uses(KeysOf(changes))[h] == CountOf(next, h) + Uses(KeysOf(changes[1..]))[h];
      }
    }
  }

  lemma {:induction false} CommitKeepsKeys(col: Column, changes: seq<Change>)
    requires NoReleases(changes)
    ensures col.Keys <= Commit(col, changes).Keys
    ensures Positive(col) ==> Positive(Commit(col, changes))
    decreases |changes|
  {
    if changes != [] {
      assert NoReleases(changes[1..]);
      CommitKeepsKeys(Apply(col, changes[0]), changes[1..]);
    }
  }

  /** Releases of counted uses give back exactly those counts. */
  lemma {:induction false} ReleasesUncount(col: Column, hashes: seq<Hash>)
    requires Positive(col) && forall h :: Uses(hashes)[h] <= CountOf(col, h)
    ensures Positive(Commit(col, Releases(hashes)))
    ensures forall h :: CountOf(Commit(col, Releases(hashes)), h) == CountOf(col, h) - Uses(hashes)[h]
    decreases |hashes|
  {
    var changes := Releases(hashes);
    if hashes != [] {
      assert changes[1..] == Releases(hashes[1..]);
      assert hashes == [hashes[0]] + hashes[1..];
      var next := Apply(col, changes[0]);
      forall h
        ensures CountOf(next, h) == CountOf(col, h) - (if h == hashes[0] then 1 else 0)
      {
        assert Uses(hashes)[hashes[0]] >= 1;
      }
      ReleasesUncount(next, hashes[1..]);
    }
  }

  lemma {:induction false} BackedConcat(col: Column, a: seq<Change>, b: seq<Change>)
    ensures Backed(col, a + b) <==> Backed(col, a) && Backed(Commit(col, a), b)
    decreases |a|
  {
    if a == [] {
      assert a + b == b;
    } else {
      assert (a + b)[1..] == a[1..] + b;
      BackedConcat(Apply(col, a[0]), a[1..], b);
    }
  }

  // ----- what an import emits

  lemma {:induction false} StoreOrReferenceKeys(prefetched: map<Hash, Bytes>, hashes: seq<Hash>)
    ensures KeysOf(StoreOrReference(prefetched, hashes).0) == hashes
    ensures NoReleases(StoreOrReference(prefetched, hashes).0)
    decreases |hashes|
  {
    if hashes != [] {
      StoreOrReferenceKeys(prefetched - {hashes[0]}, hashes[1..]);
    }
  }

  lemma StoreOneKeys(codec: Codec, ops: seq<IndexOp>, i: nat, x: Extrinsic, prefetched: map<Hash, Bytes>)
    ensures var (entry, changes, _) := StoreOne(codec, ops, i, x, prefetched);
            KeysOf(changes) == EntryHashes(entry) && NoReleases(changes)
  {
    StoreOrReferenceKeys(prefetched, RenewalsFor(ops, i));
    var renewals := RenewalsFor(ops, i);
    if |renewals| == 1 {
      assert renewals == [renewals[0]];
    }
  }

  lemma KeysAppend(a: seq<Change>, b: seq<Change>)
    ensures KeysOf(a + b) == KeysOf(a) + KeysOf(b)
    ensures NoReleases(a) && NoReleases(b) ==> NoReleases(a + b)
  {
  }

  /** An import adds one use to the column for every hash its index names, in the same order. */
  lemma {:induction false} ImportUsesWhatItNames(codec: Codec, body: seq<Extrinsic>, ops: seq<IndexOp>,
                                                 prefetched: map<Hash, Bytes>)
    ensures var s := ApplyIndexOps(codec, body, ops, prefetched);
            KeysOf(s.changes) == HashesOf(s.entries) && NoReleases(s.changes)
    decreases |body|
  {
    if body != [] {
      ApplyUnfolds(codec, body, ops, prefetched);
      hide StoreOne, ApplyIndexOps, HashesOf, KeysOf, NoReleases;
      var n := |body| - 1;
      ImportUsesWhatItNames(codec, body[..n], ops, prefetched);
      var before := ApplyIndexOps(codec, body[..n], ops, prefetched);
      StoreOneKeys(codec, ops, n, body[n], before.prefetched);
      var (entry, changes, _) := StoreOne(codec, ops, n, body[n], before.prefetched);
      KeysAppend(before.changes, changes);
      HashesAppend(before.entries, entry);
    }
  }

  // ----- renewals that are present or prefetched are backed

  ghost predicate Available(col: Column, prefetched: map<Hash, Bytes>, h: Hash) {
    h in col || h in prefetched
  }

  lemma {:induction false} AvailableIsBacked(col: Column, prefetched: map<Hash, Bytes>, hashes: seq<Hash>)
    requires forall i :: 0 <= i < |hashes| ==> Available(col, prefetched, hashes[i])
    ensures var (changes, left) := StoreOrReference(prefetched, hashes);
            && Backed(col, changes)
            && forall h :: Available(col, prefetched, h) ==> Available(Commit(col, changes), left, h)
    decreases |hashes|
  {
    if hashes != [] {
      var h := hashes[0];
      var change := if h in prefetched then Store(h, prefetched[h]) else Reference(h);
      var next := Apply(col, change);
      assert Available(col, prefetched, h);
      assert forall k :: Available(col, prefetched, k) ==> Available(next, prefetched - {h}, k);
      AvailableIsBacked(next, prefetched - {h}, hashes[1..]);
      var (changes, left) := StoreOrReference(prefetched - {h}, hashes[1..]);
      assert ([change] + changes)[1..] == changes;
    }
  }

  ghost predicate RenewalsAvailable(col: Column, prefetched: map<Hash, Bytes>, ops: seq<IndexOp>, n: nat) {
    forall i, j :: 0 <= i < n && 0 <= j < |RenewalsFor(ops, i)| ==> Available(col, prefetched, RenewalsFor(ops, i)[j])
  }

  lemma StoreOneIsBacked(codec: Codec, ops: seq<IndexOp>, i: nat, x: Extrinsic, prefetched: map<Hash, Bytes>,
                         col: Column)
    requires forall j :: 0 <= j < |RenewalsFor(ops, i)| ==> Available(col, prefetched, RenewalsFor(ops, i)[j])
    ensures var (_, changes, left) := StoreOne(codec, ops, i, x, prefetched);
            && Backed(col, changes)
            && forall h :: Available(col, prefetched, h) ==> Available(Commit(col, changes), left, h)
  {
    var (_, changes, _) := StoreOne(codec, ops, i, x, prefetched);
    if RenewalsFor(ops, i) != [] {
      AvailableIsBacked(col, prefetched, RenewalsFor(ops, i));
    } else {
      assert |changes| <= 1 && NoReleases(changes);
      CommitKeepsKeys(col, changes);
    }
  }

  lemma {:induction false} ImportIsBacked(codec: Codec, body: seq<Extrinsic>, ops: seq<IndexOp>,
                                          prefetched: map<Hash, Bytes>, col: Column)
    requires RenewalsAvailable(col, prefetched, ops, |body|)
    ensures var s := ApplyIndexOps(codec, body, ops, prefetched);
            && Backed(col, s.changes)
            && forall h :: Available(col, prefetched, h) ==> Available(Commit(col, s.changes), s.prefetched, h)
    decreases |body|
  {
    if body != [] {
      ApplyUnfolds(codec, body, ops, prefetched);
      hide StoreOne, Available, Backed, Commit, ApplyIndexOps;
      var n := |body| - 1;
      ImportIsBacked(codec, body[..n], ops, prefetched, col);
      var before := ApplyIndexOps(codec, body[..n], ops, prefetched);
      var (entry, changes, left) := StoreOne(codec, ops, n, body[n], before.prefetched);
      BackedConcat(col, before.changes, changes);
      ApplyConcat(Apply, col, before.changes, changes);
      StoreOneIsBacked(codec, ops, n, body[n], before.prefetched, Commit(col, before.changes));
    }
  }

  // ----- contents

  ghost predicate Faithful(col: Column, content: Hash -> Bytes) {
    forall h :: h in col ==> col[h].value == content(h)
  }

  ghost predicate StoresFaithfully(changes: seq<Change>, content: Hash -> Bytes) {
    forall i :: 0 <= i < |changes| && changes[i].Store? ==> changes[i].value == content(changes[i].key)
  }

  lemma {:induction false} CommitStaysFaithful(col: Column, changes: seq<Change>, content: Hash -> Bytes)
    requires Faithful(col, content) && StoresFaithfully(changes, content)
    ensures Faithful(Commit(col, changes), content)
    decreases |changes|
  {
    if changes != [] {
      assert StoresFaithfully(changes[1..], content);
      CommitStaysFaithful(Apply(col, changes[0]), changes[1..], content);
    }
  }

  /** Hashes address contents: prefetched bytes and every slice that is really inserted are what
      their hash stands for. */
  ghost predicate ContentAddressed(codec: Codec, content: Hash -> Bytes, body: seq<Extrinsic>, ops: seq<IndexOp>,
                                   prefetched: map<Hash, Bytes>) {
    && (forall h :: h in prefetched ==> prefetched[h] == content(h))
    && (forall i :: 0 <= i < |body| ==> SliceAddressed(codec, content, body[i], InsertionFor(ops, i)))
  }

  ghost predicate SliceAddressed(codec: Codec, content: Hash -> Bytes, x: Extrinsic, insertion: Option<(Hash, nat)>) {
    insertion.Some? && insertion.value.1 <= |codec.encode(x)| ==>
      codec.encode(x)[|codec.encode(x)| - insertion.value.1..] == content(insertion.value.0)
  }

  lemma {:induction false} StoreOrReferenceFaithfully(prefetched: map<Hash, Bytes>, hashes: seq<Hash>,
                                                      content: Hash -> Bytes)
    requires forall h :: h in prefetched ==> prefetched[h] == content(h)
    ensures var (changes, left) := StoreOrReference(prefetched, hashes);
            StoresFaithfully(changes, content) && forall h :: h in left ==> left[h] == content(h)
    decreases |hashes|
  {
    if hashes != [] {
      StoreOrReferenceFaithfully(prefetched - {hashes[0]}, hashes[1..], content);
    }
  }

  /** An entry stands for an extrinsic: with the contents its hashes address, it decodes to it. */
  ghost predicate StandsFor(codec: Codec, content: Hash -> Bytes, entry: DbExtrinsic, x: Extrinsic) {
    match entry
    case Indexed(hash, header) => codec.Decode(header + content(hash)) == Some(x)
    case Full(y) => y == x
    case MultiRenew(_, encoded) => codec.Decode(encoded) == Some(x)
  }

  lemma StoreOneFaithfully(codec: Codec, content: Hash -> Bytes, ops: seq<IndexOp>, i: nat, x: Extrinsic,
                           prefetched: map<Hash, Bytes>)
    requires forall h :: h in prefetched ==> prefetched[h] == content(h)
    requires SliceAddressed(codec, content, x, InsertionFor(ops, i))
    ensures var (_, changes, left) := StoreOne(codec, ops, i, x, prefetched);
            && StoresFaithfully(changes, content)
            && forall h :: h in left ==> left[h] == content(h)
  {
    StoreOrReferenceFaithfully(prefetched, RenewalsFor(ops, i), content);
  }

  lemma {:induction false} ImportStoresFaithfully(codec: Codec, content: Hash -> Bytes, body: seq<Extrinsic>,
                                                  ops: seq<IndexOp>, prefetched: map<Hash, Bytes>)
    requires ContentAddressed(codec, content, body, ops, prefetched)
    ensures var s := ApplyIndexOps(codec, body, ops, prefetched);
            && StoresFaithfully(s.changes, content)
            && forall h :: h in s.prefetched ==> s.prefetched[h] == content(h)
    decreases |body|
  {
    if body != [] {
      ApplyUnfolds(codec, body, ops, prefetched);
      hide StoreOne, SliceAddressed, ApplyIndexOps, StoresFaithfully;
      var n := |body| - 1;
      var init := body[..n];
      assert forall i :: 0 <= i < n ==> init[i] == body[i];
      ImportStoresFaithfully(codec, content, init, ops, prefetched);
      var before := ApplyIndexOps(codec, init, ops, prefetched);
      StoreOneFaithfully(codec, content, ops, n, body[n], before.prefetched);
      var (_, changes, _) := StoreOne(codec, ops, n, body[n], before.prefetched);
      FaithfulAppend(before.changes, changes, content);
    }
  }

  lemma StoreOneStandsFor(codec: Codec, content: Hash -> Bytes, ops: seq<IndexOp>, i: nat, x: Extrinsic,
                          prefetched: map<Hash, Bytes>)
    requires PrefixDecodes(codec)
    requires SliceAddressed(codec, content, x, InsertionFor(ops, i))
    ensures StandsFor(codec, content, StoreOne(codec, ops, i, x, prefetched).0, x)
  {
    var encoded := codec.encode(x);
    var renewals := RenewalsFor(ops, i);
    assert encoded + [] == encoded;
    assert codec.Decode(encoded + []) == Some(x);
    if |renewals| == 1 {
      assert codec.Decode(encoded + content(renewals[0])) == Some(x);
    }
    match InsertionFor(ops, i)
    case Some((hash, size)) =>
      if size <= |encoded| {
        assert encoded[..|encoded| - size] + encoded[|encoded| - size..] == encoded;
      }
    case None =>
  }

  lemma ImportStandsFor(codec: Codec, content: Hash -> Bytes, body: seq<Extrinsic>, ops: seq<IndexOp>,
                        prefetched: map<Hash, Bytes>, i: nat)
    requires PrefixDecodes(codec) && ContentAddressed(codec, content, body, ops, prefetched) && i < |body|
    ensures StandsFor(codec, content, ApplyIndexOps(codec, body, ops, prefetched).entries[i], body[i])
  {
    hide StoreOne, StandsFor, PrefixDecodes, SliceAddressed, ApplyIndexOps;
    var before := EntryOf(codec, body, ops, prefetched, i);
    StoreOneStandsFor(codec, content, ops, i, body[i], before);
  }

  lemma FaithfulAppend(a: seq<Change>, b: seq<Change>, content: Hash -> Bytes)
    requires StoresFaithfully(a, content) && StoresFaithfully(b, content)
    ensures StoresFaithfully(a + b, content)
  {
  }

  /** With faithful contents and every named hash present, a body reads back as what it stands for. */
  lemma {:induction false} ReadsBack(codec: Codec, content: Hash -> Bytes, col: Column, entries: seq<DbExtrinsic>,
                                     body: seq<Extrinsic>)
    requires |entries| == |body| && forall i :: 0 <= i < |body| ==> StandsFor(codec, content, entries[i], body[i])
    requires Faithful(col, content) && forall h :: h in HashesOf(entries) ==> h in col
    ensures ReadBody(codec, col, entries) == Success(body)
    decreases |entries|
  {
    if entries != [] {
      var n := |entries| - 1;
      assert entries == entries[..n] + [entries[n]] && body == body[..n] + [body[n]];
      HashesAppend(entries[..n], entries[n]);
      hide StandsFor, Faithful, HashesOf, ReadEntry;
      assert forall i :: 0 <= i < n ==> entries[..n][i] == entries[i] && body[..n][i] == body[i];
      ReadsBack(codec, content, col, entries[..n], body[..n]);
      EntryReadsBack(codec, content, col, entries[n], body[n]);
    }
  }

  lemma EntryReadsBack(codec: Codec, content: Hash -> Bytes, col: Column, entry: DbExtrinsic, x: Extrinsic)
    requires StandsFor(codec, content, entry, x)
    requires Faithful(col, content) && forall h :: h in EntryHashes(entry) ==> h in col
    ensures ReadEntry(codec, col, entry) == Success(x)
  {
    if entry.Indexed? {
      assert entry.hash in EntryHashes(entry);
      DecodersSeeTheConcatenation(codec.decoder, Joined(entry.header, content(entry.hash)), []);
    }
  }

  // ----- the database

  datatype Db = Db(column: Column, plain: map<BlockId, seq<Extrinsic>>, index: map<BlockId, seq<DbExtrinsic>>)

  /** Without index operations the body is stored as one blob, otherwise through the index. */
  function ImportBlock(db: Db, codec: Codec, b: BlockId, body: seq<Extrinsic>, ops: seq<IndexOp>,
                       prefetched: map<Hash, Bytes>): Db {
    if ops == [] then db.(plain := db.plain[b := body])
    else
      var s := ApplyIndexOps(codec, body, ops, prefetched);
      db.(index := db.index[b := s.entries], column := Commit(db.column, s.changes))
  }

  function PruneBlock(db: Db, b: BlockId): Db {
    var db1 := db.(plain := db.plain - {b});
    if b in db.index
    then db1.(index := db.index - {b}, column := Commit(db.column, Releases(HashesOf(db.index[b]))))
    else db1
  }

  /** What reading a body gives: none for a block without one, an error for one that cannot be read. */
  function BodyOf(db: Db, codec: Codec, b: BlockId): Result<Option<seq<Extrinsic>>, ReadError> {
    if b in db.plain then Success(Some(db.plain[b]))
    else if b in db.index then
      var body :- ReadBody(codec, db.column, db.index[b]);
      Success(Some(body))
    else Success(None)
  }

  /** All uses of hashes by the indexes of unpruned blocks. */
  ghost function TotalUses(index: map<BlockId, seq<DbExtrinsic>>): multiset<Hash>
    decreases |index|
  {
    if |index| == 0 then multiset{}
    else
      var b :| b in index;
      Uses(HashesOf(index[b])) + TotalUses(index - {b})
  }

  lemma TotalUnfolds(index: map<BlockId, seq<DbExtrinsic>>) returns (c: BlockId)
    requires |index| != 0
    ensures c in index && TotalUses(index) == Uses(HashesOf(index[c])) + TotalUses(index - {c})
  {
    c :| c in index && TotalUses(index) == Uses(HashesOf(index[c])) + TotalUses(index - {c});
  }

  lemma {:induction false} TotalWithout(index: map<BlockId, seq<DbExtrinsic>>, b: BlockId)
    requires b in index
    ensures TotalUses(index) == Uses(HashesOf(index[b])) + TotalUses(index - {b})
    decreases |index|
  {
    hide TotalUses, HashesOf, Uses;
    var c := TotalUnfolds(index);
    if c != b {
      TotalWithout(index - {c}, b);
      TotalWithout(index - {b}, c);
      assert index - {c} - {b} == index - {b} - {c};
    }
  }

  ghost predicate CountsUses(col: Column, index: map<BlockId, seq<DbExtrinsic>>) {
    forall h :: CountOf(col, h) == TotalUses(index)[h]
  }

  /** The law of the column: counts are the uses by unpruned blocks, contents are what hashes address,
      and each index stands for the body that was imported. */
  ghost predicate Lawful(db: Db, codec: Codec, content: Hash -> Bytes, bodies: map<BlockId, seq<Extrinsic>>) {
    && Positive(db.column)
    && Faithful(db.column, content)
    && CountsUses(db.column, db.index)
    && db.plain.Keys !! db.index.Keys
    && db.plain.Keys + db.index.Keys == bodies.Keys
    && (forall b :: b in db.plain ==> db.plain[b] == bodies[b])
    && (forall b :: b in db.index ==> IndexStandsFor(codec, content, db.index[b], bodies[b]))
  }

  ghost predicate IndexStandsFor(codec: Codec, content: Hash -> Bytes, entries: seq<DbExtrinsic>,
                                 body: seq<Extrinsic>) {
    |entries| == |body| && forall i :: 0 <= i < |body| ==> StandsFor(codec, content, entries[i], body[i])
  }

  datatype Step =
    | Import(block: BlockId, body: seq<Extrinsic>, ops: seq<IndexOp>, prefetched: map<Hash, Bytes>)
    | Prune(block: BlockId)

  /** A fresh block, and renewals that are present or prefetched. */
  ghost predicate Countable(db: Db, step: Step) {
    step.Import? ==>
      && step.block !in db.plain && step.block !in db.index
      && RenewalsAvailable(db.column, step.prefetched, step.ops, |step.body|)
  }

  /** The same, with hashes that address contents. */
  ghost predicate Legal(db: Db, codec: Codec, content: Hash -> Bytes, step: Step) {
    && Countable(db, step)
    && (step.Import? ==> ContentAddressed(codec, content, step.body, step.ops, step.prefetched))
  }

  function Take(db: Db, codec: Codec, step: Step): Db {
    match step
    case Import(b, body, ops, prefetched) => ImportBlock(db, codec, b, body, ops, prefetched)
    case Prune(b) => PruneBlock(db, b)
  }

  function Remember(bodies: map<BlockId, seq<Extrinsic>>, step: Step): map<BlockId, seq<Extrinsic>> {
    match step
    case Import(b, body, _, _) => bodies[b := body]
    case Prune(b) => bodies - {b}
  }

  /** After a backed transaction the counts include the uses of the new index. */
  lemma ImportCounts(col: Column, index: map<BlockId, seq<DbExtrinsic>>, b: BlockId, entries: seq<DbExtrinsic>,
                     changes: seq<Change>)
    requires CountsUses(col, index) && b !in index
    requires NoReleases(changes) && Backed(col, changes) && KeysOf(changes) == HashesOf(entries)
    ensures CountsUses(Commit(col, changes), index[b := entries])
  {
    hide TotalUses, Backed, Commit, HashesOf, CountOf, KeysOf, NoReleases;
    CommitCountsUses(col, changes);
    TotalWithout(index[b := entries], b);
    assert index[b := entries] - {b} == index;
  }

  lemma ImportKeepsLaw(db: Db, codec: Codec, content: Hash -> Bytes, bodies: map<BlockId, seq<Extrinsic>>,
                       b: BlockId, body: seq<Extrinsic>, ops: seq<IndexOp>, prefetched: map<Hash, Bytes>)
    requires PrefixDecodes(codec) && Lawful(db, codec, content, bodies)
    requires Legal(db, codec, content, Import(b, body, ops, prefetched))
    ensures Lawful(ImportBlock(db, codec, b, body, ops, prefetched), codec, content, bodies[b := body])
  {
    hide ApplyIndexOps, PrefixDecodes, IndexStandsFor, ContentAddressed, RenewalsAvailable, Backed, StoresFaithfully,
         CountsUses, Commit, Positive, Faithful, NoReleases, HashesOf, KeysOf;
    var after := ImportBlock(db, codec, b, body, ops, prefetched);
    if ops == [] {
      assert after.plain.Keys == db.plain.Keys + {b};
    } else {
      var s := ApplyIndexOps(codec, body, ops, prefetched);
      ImportUsesWhatItNames(codec, body, ops, prefetched);
      ImportIsBacked(codec, body, ops, prefetched, db.column);
      ImportIndexStandsFor(codec, content, body, ops, prefetched);
      CommitKeepsKeys(db.column, s.changes);
      CommitStaysFaithful(db.column, s.changes, content);
      ImportCounts(db.column, db.index, b, s.entries, s.changes);
      assert after.index.Keys == db.index.Keys + {b};
    }
  }

  lemma ImportIndexStandsFor(codec: Codec, content: Hash -> Bytes, body: seq<Extrinsic>, ops: seq<IndexOp>,
                             prefetched: map<Hash, Bytes>)
    requires PrefixDecodes(codec) && ContentAddressed(codec, content, body, ops, prefetched)
    ensures var s := ApplyIndexOps(codec, body, ops, prefetched);
            IndexStandsFor(codec, content, s.entries, body) && StoresFaithfully(s.changes, content)
  {
    hide ApplyIndexOps, StandsFor, PrefixDecodes, ContentAddressed, StoresFaithfully;
    ImportStoresFaithfully(codec, content, body, ops, prefetched);
    forall i | 0 <= i < |body|
      ensures StandsFor(codec, content, ApplyIndexOps(codec, body, ops, prefetched).entries[i], body[i])
    {
      ImportStandsFor(codec, content, body, ops, prefetched, i);
    }
  }

  lemma PruneCounts(col: Column, index: map<BlockId, seq<DbExtrinsic>>, b: BlockId)
    requires CountsUses(col, index) && Positive(col) && b in index
    ensures var after := Commit(col, Releases(HashesOf(index[b])));
            CountsUses(after, index - {b}) && Positive(after)
  {
    hide TotalUses, Commit, HashesOf, CountOf, Positive;
    TotalWithout(index, b);
    ReleasesUncount(col, HashesOf(index[b]));
  }

  lemma PruneKeepsLaw(db: Db, codec: Codec, content: Hash -> Bytes, bodies: map<BlockId, seq<Extrinsic>>, b: BlockId)
    requires Lawful(db, codec, content, bodies)
    ensures Lawful(PruneBlock(db, b), codec, content, bodies - {b})
  {
    hide StandsFor, CountsUses, Commit, Positive, HashesOf, IndexStandsFor, Faithful;
    if b in db.index {
      PruneCounts(db.column, db.index, b);
      CommitStaysFaithful(db.column, Releases(HashesOf(db.index[b])), content);
    }
  }

  /** Counts need neither decoding nor contents. */
  ghost predicate Counted(db: Db) {
    Positive(db.column) && CountsUses(db.column, db.index)
  }

  lemma StepKeepsCounts(db: Db, codec: Codec, step: Step)
    requires Counted(db) && Countable(db, step)
    ensures Counted(Take(db, codec, step))
  {
    hide ApplyIndexOps, Backed, CountsUses, Commit, Positive, NoReleases, HashesOf, KeysOf, RenewalsAvailable;
    match step {
      case Import(b, body, ops, prefetched) =>
        ImportUsesWhatItNames(codec, body, ops, prefetched);
        ImportIsBacked(codec, body, ops, prefetched, db.column);
        var s := ApplyIndexOps(codec, body, ops, prefetched);
        CommitKeepsKeys(db.column, s.changes);
        ImportCounts(db.column, db.index, b, s.entries, s.changes);
      case Prune(b) =>
        if b in db.index {
          PruneCounts(db.column, db.index, b);
        }
    }
  }

  lemma UsedIsPresent(col: Column, index: map<BlockId, seq<DbExtrinsic>>, b: BlockId, h: Hash)
    requires CountsUses(col, index) && b in index && h in HashesOf(index[b])
    ensures h in col
  {
    hide TotalUses, HashesOf;
    TotalWithout(index, b);
    assert Uses(HashesOf(index[b]))[h] > 0;
    assert CountOf(col, h) > 0;
  }

  lemma LawfulReads(db: Db, codec: Codec, content: Hash -> Bytes, bodies: map<BlockId, seq<Extrinsic>>, b: BlockId)
    requires Lawful(db, codec, content, bodies) && b in bodies
    ensures BodyOf(db, codec, b) == Success(Some(bodies[b]))
  {
    hide StandsFor, CountsUses, HashesOf, ReadBody, Faithful, Positive;
    if b in db.index {
      forall h | h in HashesOf(db.index[b])
        ensures h in db.column
      {
        UsedIsPresent(db.column, db.index, b, h);
      }
      ReadsBack(codec, content, db.column, db.index[b], bodies[b]);
    }
  }

  // ----- runs

  ghost predicate LegalRun(db: Db, codec: Codec, content: Hash -> Bytes, steps: seq<Step>)
    decreases |steps|
  {
    steps == [] || (Legal(db, codec, content, steps[0]) &&
        LegalRun(Take(db, codec, steps[0]), codec, content, steps[1..]))
  }

  function Run(db: Db, codec: Codec, steps: seq<Step>): Db
    decreases |steps|
  {
    if steps == [] then db else Run(Take(db, codec, steps[0]), codec, steps[1..])
  }

  function RememberAll(bodies: map<BlockId, seq<Extrinsic>>, steps: seq<Step>): map<BlockId, seq<Extrinsic>>
    decreases |steps|
  {
    if steps == [] then bodies else RememberAll(Remember(bodies, steps[0]), steps[1..])
  }

  lemma {:induction false} RunKeepsLaw(db: Db, codec: Codec, content: Hash -> Bytes,
                                       bodies: map<BlockId, seq<Extrinsic>>, steps: seq<Step>)
    requires PrefixDecodes(codec) && Lawful(db, codec, content, bodies) && LegalRun(db, codec, content, steps)
    ensures Lawful(Run(db, codec, steps), codec, content, RememberAll(bodies, steps))
    decreases |steps|
  {
    if steps != [] {
      hide Lawful, PrefixDecodes, ImportBlock, PruneBlock, ContentAddressed, RenewalsAvailable;
      match steps[0] {
        case Import(b, body, ops, prefetched) => ImportKeepsLaw(db, codec, content, bodies, b, body, ops, prefetched);
        case Prune(b) => PruneKeepsLaw(db, codec, content, bodies, b);
      }
      RunKeepsLaw(Take(db, codec, steps[0]), codec, content, Remember(bodies, steps[0]), steps[1..]);
    }
  }

  const EMPTY_DB: Db := Db(map[], map[], map[])

  ghost predicate CountableRun(db: Db, codec: Codec, steps: seq<Step>)
    decreases |steps|
  {
    steps == [] || (Countable(db, steps[0]) && CountableRun(Take(db, codec, steps[0]), codec, steps[1..]))
  }

  lemma {:induction false} RunKeepsCounts(db: Db, codec: Codec, steps: seq<Step>)
    requires Counted(db) && CountableRun(db, codec, steps)
    ensures Counted(Run(db, codec, steps))
    decreases |steps|
  {
    if steps != [] {
      hide Counted, Countable, Take;
      StepKeepsCounts(db, codec, steps[0]);
      RunKeepsCounts(Take(db, codec, steps[0]), codec, steps[1..]);
    }
  }

  /** In every run of fresh imports and prunes, whatever the codec and the contents, the count of each
      transaction is the number of times the unpruned indexes name it, so a transaction is present
      exactly while some unpruned block uses it. */
  lemma CountsAreExact(codec: Codec, steps: seq<Step>, h: Hash)
    requires CountableRun(EMPTY_DB, codec, steps)
    ensures var db := Run(EMPTY_DB, codec, steps);
            && CountOf(db.column, h) == TotalUses(db.index)[h]
            && (h in db.column <==> TotalUses(db.index)[h] > 0)
  {
    RunKeepsCounts(EMPTY_DB, codec, steps);
  }

  /** In every run whose hashes also address contents, the body of every block imported and not pruned
      since reads back unchanged, and no other block has one. */
  lemma BodiesReadBack(codec: Codec, content: Hash -> Bytes, steps: seq<Step>, b: BlockId)
    requires PrefixDecodes(codec) && LegalRun(EMPTY_DB, codec, content, steps)
    ensures var bodies := RememberAll(map[], steps);
            BodyOf(Run(EMPTY_DB, codec, steps), codec, b) == Success(if b in bodies then Some(bodies[b]) else None)
  {
    RunKeepsLaw(EMPTY_DB, codec, content, map[], steps);
    if b in RememberAll(map[], steps) {
      LawfulReads(Run(EMPTY_DB, codec, steps), codec, content, RememberAll(map[], steps), b);
    }
  }

  // ----- transactions are served by hash

  /** Without operations an import touches neither the column nor the index, with them not the plain bodies. */
  lemma ImportTouchesOnly(db: Db, codec: Codec, b: BlockId, body: seq<Extrinsic>, ops: seq<IndexOp>,
                          prefetched: map<Hash, Bytes>)
    ensures var after := ImportBlock(db, codec, b, body, ops, prefetched);
            && (ops == [] ==> after.column == db.column && after.index == db.index)
            && (ops != [] ==> after.plain == db.plain && b in after.index)
  {
  }

  lemma StepStaysFaithful(db: Db, codec: Codec, content: Hash -> Bytes, step: Step)
    requires Faithful(db.column, content) && Legal(db, codec, content, step)
    ensures Faithful(Take(db, codec, step).column, content)
  {
    hide ApplyIndexOps, ContentAddressed, Faithful, Commit, HashesOf, Countable, StoresFaithfully;
    match step
    case Import(b, body, ops, prefetched) =>
      ImportStoresFaithfully(codec, content, body, ops, prefetched);
      CommitStaysFaithful(db.column, ApplyIndexOps(codec, body, ops, prefetched).changes, content);
    case Prune(b) =>
      if b in db.index {
        ReleasesStoreNothing(HashesOf(db.index[b]), content);
        CommitStaysFaithful(db.column, Releases(HashesOf(db.index[b])), content);
      }
  }

  lemma ReleasesStoreNothing(hashes: seq<Hash>, content: Hash -> Bytes)
    ensures StoresFaithfully(Releases(hashes), content)
  {
  }

  lemma {:induction false} RunServes(db: Db, codec: Codec, content: Hash -> Bytes, steps: seq<Step>)
    requires Faithful(db.column, content) && Counted(db) && LegalRun(db, codec, content, steps)
    ensures Faithful(Run(db, codec, steps).column, content) && Counted(Run(db, codec, steps))
    decreases |steps|
  {
    if steps != [] {
      assert Countable(db, steps[0]);
      hide Faithful, Counted, Legal, Take, Countable;
      StepStaysFaithful(db, codec, content, steps[0]);
      StepKeepsCounts(db, codec, steps[0]);
      RunServes(Take(db, codec, steps[0]), codec, content, steps[1..]);
    }
  }

  lemma {:induction false} RunConcat(db: Db, codec: Codec, content: Hash -> Bytes, a: seq<Step>, b: seq<Step>)
    ensures LegalRun(db, codec, content, a + b) <==>
            LegalRun(db, codec, content, a) && LegalRun(Run(db, codec, a), codec, content, b)
    ensures Run(db, codec, a + b) == Run(Run(db, codec, a), codec, b)
    decreases |a|
  {
    hide Legal, Take;
    if a == [] {
      assert a + b == b;
    } else {
      assert (a + b)[1..] == a[1..] + b;
      RunConcat(Take(db, codec, a[0]), codec, content, a[1..], b);
    }
  }

  /** The index of a block stays as long as the block is not pruned. */
  lemma {:induction false} IndexStays(db: Db, codec: Codec, content: Hash -> Bytes, steps: seq<Step>, b: BlockId)
    requires b in db.index && LegalRun(db, codec, content, steps) && Prune(b) !in steps
    ensures b in Run(db, codec, steps).index && Run(db, codec, steps).index[b] == db.index[b]
    decreases |steps|
  {
    if steps != [] {
      hide ContentAddressed, RenewalsAvailable, ApplyIndexOps, Commit;
      assert steps[0] in steps;
      IndexStays(Take(db, codec, steps[0]), codec, content, steps[1..], b);
    }
  }

  /** In every run each transaction that the index of an unpruned block names is served, with what its hash
      addresses. */
  lemma NamedIsServed(codec: Codec, content: Hash -> Bytes, steps: seq<Step>, b: BlockId, h: Hash)
    requires LegalRun(EMPTY_DB, codec, content, steps)
    requires b in Run(EMPTY_DB, codec, steps).index && h in HashesOf(Run(EMPTY_DB, codec, steps).index[b])
    ensures var col := Run(EMPTY_DB, codec, steps).column;
            h in col && col[h].value == content(h)
  {
    RunServes(EMPTY_DB, codec, content, steps);
    hide Run, LegalRun, HashesOf;
    var db := Run(EMPTY_DB, codec, steps);
    UsedIsPresent(db.column, db.index, b, h);
  }

  lemma {:induction false} EntryIsNamed(entries: seq<DbExtrinsic>, i: nat, h: Hash)
    requires i < |entries| && h in EntryHashes(entries[i])
    ensures h in HashesOf(entries)
    decreases |entries|
  {
    hide EntryHashes;
    if i < |entries| - 1 {
      EntryIsNamed(entries[..|entries| - 1], i, h);
    }
  }

  /**
   In every run, once a block is imported and until it is pruned, each transaction
   its operations ask for is served: every hash renewed for one of its extrinsics,
   and for an extrinsic without renewals the hash of its last insertion, with the
   last bytes of the encoding as content, unless it asks for more bytes than there
   are.
   */
  lemma AskedForIsServed(codec: Codec, content: Hash -> Bytes, before: seq<Step>, imported: Step, after: seq<Step>,
                         i: nat, k: nat)
    requires imported.Import? && Prune(imported.block) !in after
    requires LegalRun(EMPTY_DB, codec, content, before + [imported] + after)
    requires i < |imported.body| && k < |imported.ops|
    requires var (x, ops) := (imported.body[i], imported.ops);
             || ops[k] == Renew(i, ops[k].hash)
             || (&& LastInsertion(ops, i, k) && RenewalsAt(ops, i, [])
                 && ops[k].size <= |codec.encode(x)|)
    ensures var (col, op) := (Run(EMPTY_DB, codec, before + [imported] + after).column, imported.ops[k]);
            && op.hash in col && col[op.hash].value == content(op.hash)
            && (op.Insert? ==>
                  var encoded := codec.encode(imported.body[i]);
                  content(op.hash) == encoded[|encoded| - op.size..])
  {
    hide Run, LegalRun, HashesOf, EntryHashes, ApplyIndexOps, ContentAddressed, RenewalsAt, LastInsertion, InsertionFor;
    var Import(b, body, ops, prefetched) := imported;
    RunConcat(EMPTY_DB, codec, content, before + [imported], after);
    RunConcat(EMPTY_DB, codec, content, before, [imported]);
    var db1 := Run(EMPTY_DB, codec, before + [imported]);
    var entries := ApplyIndexOps(codec, body, ops, prefetched).entries;
    ImportedLast(codec, content, before, imported);
    AskedForIsNamed(codec, body, ops, prefetched, i, k);
    EntryIsNamed(entries, i, ops[k].hash);
    IndexStays(db1, codec, content, after, b);
    NamedIsServed(codec, content, before + [imported] + after, b, ops[k].hash);
    if ops[k].Insert? {
      InsertionIsAddressed(codec, content, body, ops, prefetched, i, k);
    }
  }

  lemma ImportedLast(codec: Codec, content: Hash -> Bytes, before: seq<Step>, imported: Step)
    requires imported.Import? && imported.ops != []
    requires LegalRun(Run(EMPTY_DB, codec, before), codec, content, [imported])
    requires Run(EMPTY_DB, codec, before + [imported]) == Run(Run(EMPTY_DB, codec, before), codec, [imported])
    ensures var db := Run(EMPTY_DB, codec, before + [imported]);
            && imported.block in db.index
            && db.index[imported.block] ==
               ApplyIndexOps(codec, imported.body, imported.ops, imported.prefetched).entries
    ensures ContentAddressed(codec, content, imported.body, imported.ops, imported.prefetched)
  {
    hide ContentAddressed, ApplyIndexOps, Commit, RenewalsAvailable;
    var db := Run(EMPTY_DB, codec, before);
    assert Run(db, codec, [imported]) == Run(Take(db, codec, imported), codec, []);
  }

  lemma InsertionIsAddressed(codec: Codec, content: Hash -> Bytes, body: seq<Extrinsic>, ops: seq<IndexOp>,
                             prefetched: map<Hash, Bytes>, i: nat, k: nat)
    requires ContentAddressed(codec, content, body, ops, prefetched) && i < |body| && k < |ops| && ops[k].Insert?
    requires LastInsertion(ops, i, k) && ops[k].size <= |codec.encode(body[i])|
    ensures var encoded := codec.encode(body[i]);
            content(ops[k].hash) == encoded[|encoded| - ops[k].size..]
  {
    LastInsertionCounts(ops, i);
    assert SliceAddressed(codec, content, body[i], InsertionFor(ops, i));
  }

  /** What the operations ask for is named by the entry of the extrinsic. */
  lemma AskedForIsNamed(codec: Codec, body: seq<Extrinsic>, ops: seq<IndexOp>, prefetched: map<Hash, Bytes>,
                        i: nat, k: nat)
    requires i < |body| && k < |ops|
    requires || ops[k] == Renew(i, ops[k].hash)
             || (&& LastInsertion(ops, i, k) && RenewalsAt(ops, i, [])
                 && ops[k].size <= |codec.encode(body[i])|)
    ensures ops[k].hash in EntryHashes(ApplyIndexOps(codec, body, ops, prefetched).entries[i])
  {
    var at := EntryFollowsOperations(codec, body, ops, prefetched, i);
    hide ApplyIndexOps;
    if ops[k].Renew? {
      assert k in at;
      var m :| 0 <= m < |at| && at[m] == k;
      assert HashesAt(ops, at)[m] == ops[k].hash;
    }
  }
}
