/**
 Block bodies stored through the transaction index: which entries and which changes to the
 transaction column an import produces, how a body is read back, and what pruning releases.

 The codec of extrinsics is a parameter, known only to decode what it encoded with anything
 following. Hashes are content addresses: `content` maps each hash to the bytes it stands for.
 */
module TransactionIndex {
  import opened Wrappers
  import opened Picks
  import opened RefCounted
  import opened JoinInput

  type Extrinsic = nat
  type BlockId = nat

  datatype IndexOp = Insert(extrinsic: nat, hash: Hash, size: nat) | Renew(extrinsic: nat, hash: Hash)

  datatype DbExtrinsic =
    | Indexed(hash: Hash, header: Bytes)
    | Full(extrinsic: Extrinsic)
    | MultiRenew(hashes: seq<Hash>, encoded: Bytes)

  datatype Codec = Codec(encode: Extrinsic -> Bytes, decoder: Decoder<Extrinsic>) {
    function Decode(bytes: Bytes): Option<Extrinsic> {
      DecodePlain(decoder, bytes, [])
    }
  }

  ghost predicate PrefixDecodes(codec: Codec) {
    forall x: Extrinsic, rest: Bytes :: codec.Decode(codec.encode(x) + rest) == Some(x)
  }

  /** A number as so many ones and a zero. */
  function Unary(x: Extrinsic): Bytes {
    if x == 0 then [0] else [1] + Unary(x - 1)
  }

  /** Reads byte by byte up to the zero; the value is the number of ones. */
  function NextUnary(got: seq<Bytes>): Move<Extrinsic> {
    if got == [] || got[|got| - 1] != [0] then ReadMore(1) else Finish(Some(|got| - 1))
  }

  const UNARY: Codec := Codec(Unary, Decoder(NextUnary))

  lemma UnaryReads(s: Bytes, got: seq<Bytes>)
    requires s != [] && (got == [] || got[|got| - 1] != [0])
    ensures DecodePlain(UNARY.decoder, s, got) == DecodePlain(UNARY.decoder, s[1..], got + [[s[0]]])
  {
    assert s[..1] == [s[0]];
    assert SliceRead(s, 1) == (Some([s[0]]), s[1..]);
  }

  lemma UnaryFinishes(s: Bytes, got: seq<Bytes>)
    ensures DecodePlain(UNARY.decoder, s, got + [[0]]) == Some(|got|)
  {
  }

  lemma UnarySplits(x: Extrinsic, rest: Bytes)
    ensures var s := Unary(x) + rest;
            && s != [] && s[0] == (if x == 0 then 0 else 1)
            && (x > 0 ==> s[1..] == Unary(x - 1) + rest)
  {
  }

  lemma {:induction false} UnaryDecodesFrom(x: Extrinsic, rest: Bytes, got: seq<Bytes>)
    requires got == [] || got[|got| - 1] != [0]
    ensures DecodePlain(UNARY.decoder, Unary(x) + rest, got) == Some(|got| + x)
    decreases x
  {
    hide DecodePlain, Unary;
    UnarySplits(x, rest);
    var s := Unary(x) + rest;
    UnaryReads(s, got);
    if x == 0 {
      UnaryFinishes(s[1..], got);
    } else {
      UnaryDecodesFrom(x - 1, rest, got + [[1]]);
    }
  }

  /** A codec that decodes whatever it encoded, with anything following, exists. */
  lemma SomeCodecPrefixDecodes()
    ensures PrefixDecodes(UNARY)
  {
    forall x: Extrinsic, rest: Bytes
      ensures UNARY.Decode(UNARY.encode(x) + rest) == Some(x)
    {
      UnaryDecodesFrom(x, rest, []);
    }
  }

  /** Why a stored body cannot be read. */
  datatype ReadError = MissingTransaction(hash: Hash) | Undecodable

  // ----- storing a body

  /** The insertion that counts for an extrinsic: the last one submitted. */
  function InsertionFor(ops: seq<IndexOp>, i: nat): Option<(Hash, nat)> {
    if ops == [] then None
    else
      var last := ops[|ops| - 1];
      if last.Insert? && last.extrinsic == i then Some((last.hash, last.size))
      else InsertionFor(ops[..|ops| - 1], i)
  }

  /** The renewals of an extrinsic in submission order, duplicates kept. */
  function RenewalsFor(ops: seq<IndexOp>, i: nat): seq<Hash> {
    if ops == [] then []
    else
      var last := ops[|ops| - 1];
      RenewalsFor(ops[..|ops| - 1], i) + (if last.Renew? && last.extrinsic == i then [last.hash] else [])
  }

  /** Prefetched bytes are stored at their first use; later uses only add a reference. */
  function StoreOrReference(prefetched: map<Hash, Bytes>, hashes: seq<Hash>): (seq<Change>, map<Hash, Bytes>) {
    if hashes == [] then ([], prefetched)
    else
      var h := hashes[0];
      var change := if h in prefetched then Store(h, prefetched[h]) else Reference(h);
      var (changes, left) := StoreOrReference(prefetched - {h}, hashes[1..]);
      ([change] + changes, left)
  }

  datatype Stored = Stored(entries: seq<DbExtrinsic>, changes: seq<Change>, prefetched: map<Hash, Bytes>)

  function StoreOne(codec: Codec, ops: seq<IndexOp>, i: nat, x: Extrinsic, prefetched: map<Hash, Bytes>)
    : (DbExtrinsic, seq<Change>, map<Hash, Bytes>)
  {
    var encoded := codec.encode(x);
    var renewals := RenewalsFor(ops, i);
    if renewals != [] then
      var (changes, left) := StoreOrReference(prefetched, renewals);
      if |renewals| == 1
      then (Indexed(renewals[0], encoded), changes, left)
      else (MultiRenew(renewals, encoded), changes, left)
    else
      match InsertionFor(ops, i)
      case Some((hash, size)) =>
        if size <= |encoded| then
          var offset := |encoded| - size;
          (Indexed(hash, encoded[..offset]), [Store(hash, encoded[offset..])], prefetched)
        else (Full(x), [], prefetched)
      case None => (Full(x), [], prefetched)
  }

  function ApplyIndexOps(codec: Codec, body: seq<Extrinsic>, ops: seq<IndexOp>,
                         prefetched: map<Hash, Bytes>): (s: Stored)
    ensures |s.entries| == |body|
  {
    if body == [] then Stored([], [], prefetched)
    else
      var n := |body| - 1;
      var before := ApplyIndexOps(codec, body[..n], ops, prefetched);
      var (entry, changes, left) := StoreOne(codec, ops, n, body[n], before.prefetched);
      Stored(before.entries + [entry], before.changes + changes, left)
  }

  lemma ApplyUnfolds(codec: Codec, body: seq<Extrinsic>, ops: seq<IndexOp>, prefetched: map<Hash, Bytes>)
    requires body != []
    ensures var n := |body| - 1;
            var before := ApplyIndexOps(codec, body[..n], ops, prefetched);
            var (entry, changes, left) := StoreOne(codec, ops, n, body[n], before.prefetched);
            ApplyIndexOps(codec, body, ops, prefetched)
            == Stored(before.entries + [entry], before.changes + changes, left)
  {
    hide StoreOne;
  }

  // ----- what the operations ask for

  /** Operation `k` is the last insertion for extrinsic `i`. */
  ghost predicate LastInsertion(ops: seq<IndexOp>, i: nat, k: nat) {
    && k < |ops| && ops[k].Insert? && ops[k].extrinsic == i
    && forall j :: k < j < |ops| && ops[j].Insert? ==> ops[j].extrinsic != i
  }

  ghost predicate NoInsertion(ops: seq<IndexOp>, i: nat) {
    forall k :: 0 <= k < |ops| && ops[k].Insert? ==> ops[k].extrinsic != i
  }

  /** The positions of the renewals for extrinsic `i`, in submission order. */
  ghost predicate RenewalsAt(ops: seq<IndexOp>, i: nat, at: seq<nat>) {
    && Increasing(at, |ops|)
    && forall k :: 0 <= k < |ops| ==> (k in at <==> ops[k].Renew? && ops[k].extrinsic == i)
  }

  ghost function HashesAt(ops: seq<IndexOp>, at: seq<nat>): seq<Hash>
    requires Increasing(at, |ops|)
  {
    seq(|at|, m requires 0 <= m < |at| => ops[at[m]].hash)
  }

  lemma HashesGrow(init: seq<IndexOp>, op: IndexOp, at: seq<nat>, pick: bool)
    requires Increasing(at, |init|)
    ensures var at' := if pick then at + [|init|] else at;
            && Increasing(at', |init| + 1)
            && HashesAt(init + [op], at') == HashesAt(init, at) + if pick then [op.hash] else []
  {
  }

  /** One more operation. */
  lemma RenewalsGrow(init: seq<IndexOp>, op: IndexOp, i: nat, at: seq<nat>)
    requires RenewalsAt(init, i, at)
    ensures var renews := op.Renew? && op.extrinsic == i;
            var at' := if renews then at + [|init|] else at;
            && RenewalsAt(init + [op], i, at')
            && HashesAt(init + [op], at') == HashesAt(init, at) + if renews then [op.hash] else []
  {
    hide HashesAt, Increasing, Picked;
    var renews := op.Renew? && op.extrinsic == i;
    HashesGrow(init, op, at, renews);
    PickMore(init, op, at, renews);
    assert forall k :: 0 <= k < |init| ==> (init + [op])[k] == init[k];
  }

  lemma {:induction false} RenewalsInOrder(ops: seq<IndexOp>, i: nat) returns (at: seq<nat>)
    ensures RenewalsAt(ops, i, at) && RenewalsFor(ops, i) == HashesAt(ops, at)
    decreases |ops|
  {
    at := [];
    if ops != [] {
      hide RenewalsAt, HashesAt;
      var init, op := ops[..|ops| - 1], ops[|ops| - 1];
      assert ops == init + [op];
      at := RenewalsInOrder(init, i);
      RenewalsGrow(init, op, i, at);
      if op.Renew? && op.extrinsic == i {
        at := at + [|init|];
      }
    }
  }

  lemma {:induction false} LastInsertionCounts(ops: seq<IndexOp>, i: nat)
    ensures InsertionFor(ops, i).None? ==> NoInsertion(ops, i)
    ensures forall k: nat :: LastInsertion(ops, i, k) ==> InsertionFor(ops, i) == Some((ops[k].hash, ops[k].size))
    decreases |ops|
  {
    if ops != [] {
      var n := |ops| - 1;
      LastInsertionCounts(ops[..n], i);
      forall k: nat | LastInsertion(ops, i, k) && k < n
        ensures LastInsertion(ops[..n], i, k)
      {
        assert forall j :: k < j < n ==> ops[..n][j] == ops[j];
      }
      assert forall j :: 0 <= j < n ==> ops[..n][j] == ops[j];
    }
  }

  lemma {:induction false} EntryOf(codec: Codec, body: seq<Extrinsic>, ops: seq<IndexOp>, prefetched: map<Hash, Bytes>,
                                   i: nat) returns (before: map<Hash, Bytes>)
    requires i < |body|
    ensures ApplyIndexOps(codec, body, ops, prefetched).entries[i] == StoreOne(codec, ops, i, body[i], before).0
    decreases |body|
  {
    hide StoreOne;
    var n := |body| - 1;
    if i == n {
      before := ApplyIndexOps(codec, body[..n], ops, prefetched).prefetched;
    } else {
      before := EntryOf(codec, body[..n], ops, prefetched, i);
    }
  }

  /**
   What an import makes of extrinsic `i`, from the operations alone: renewals win
   and are all named, in submission order; otherwise the last insertion is, with
   the slice cut off the end of the encoding, if it is no longer than that; and
   otherwise nothing is named.
   */
  lemma EntryFollowsOperations(codec: Codec, body: seq<Extrinsic>, ops: seq<IndexOp>, prefetched: map<Hash, Bytes>,
                               i: nat) returns (at: seq<nat>)
    requires i < |body|
    ensures RenewalsAt(ops, i, at)
    ensures var entry, encoded := ApplyIndexOps(codec, body, ops, prefetched).entries[i], codec.encode(body[i]);
            && (|at| == 1 ==> entry == Indexed(ops[at[0]].hash, encoded))
            && (|at| > 1 ==> entry == MultiRenew(HashesAt(ops, at), encoded))
            && (at == [] && NoInsertion(ops, i) ==> entry == Full(body[i]))
            && (forall k: nat :: at == [] && LastInsertion(ops, i, k) ==>
                  entry == if ops[k].size > |encoded| then Full(body[i])
                           else Indexed(ops[k].hash, encoded[..|encoded| - ops[k].size]))
  {
    at := RenewalsInOrder(ops, i);
    LastInsertionCounts(ops, i);
    var before := EntryOf(codec, body, ops, prefetched, i);
    hide ApplyIndexOps, RenewalsFor, InsertionFor, RenewalsAt, StoreOrReference;
    var entry := StoreOne(codec, ops, i, body[i], before).0;
    if InsertionFor(ops, i).Some? && NoInsertion(ops, i) {
      SomeInsertion(ops, i);
    }
  }

  lemma {:induction false} SomeInsertion(ops: seq<IndexOp>, i: nat)
    ensures InsertionFor(ops, i).Some? ==> !NoInsertion(ops, i)
    decreases |ops|
  {
    if ops != [] {
      SomeInsertion(ops[..|ops| - 1], i);
    }
  }

  lemma {:induction false} UsedIsGone(prefetched: map<Hash, Bytes>, hashes: seq<Hash>, h: Hash)
    ensures h in StoreOrReference(prefetched, hashes).1 <==> h in prefetched && h !in hashes
    decreases |hashes|
  {
    if hashes != [] {
      UsedIsGone(prefetched - {hashes[0]}, hashes[1..], h);
    }
  }

  /** No renewal for one of the first `n` extrinsics names the hash. */
  ghost predicate Unrenewed(ops: seq<IndexOp>, n: nat, h: Hash) {
    forall k :: 0 <= k < |ops| && ops[k].Renew? && ops[k].extrinsic < n ==> ops[k].hash != h
  }

  lemma {:induction false} RenewedOnce(ops: seq<IndexOp>, n: nat, h: Hash)
    ensures Unrenewed(ops, n + 1, h) <==> Unrenewed(ops, n, h) && h !in RenewalsFor(ops, n)
    decreases |ops|
  {
    if ops != [] {
      var init, last := ops[..|ops| - 1], ops[|ops| - 1];
      RenewedOnce(init, n, h);
      UnrenewedUnfolds(init, last, n, h);
      UnrenewedUnfolds(init, last, n + 1, h);
      assert ops == init + [last];
      hide Unrenewed;
    }
  }

  lemma UnrenewedUnfolds(init: seq<IndexOp>, last: IndexOp, n: nat, h: Hash)
    ensures Unrenewed(init + [last], n, h) <==>
            Unrenewed(init, n, h) && (last.Renew? && last.extrinsic < n ==> last.hash != h)
  {
    var ops := init + [last];
    assert ops[|init|] == last && forall k :: 0 <= k < |init| ==> ops[k] == init[k];
  }

  /** Prefetched contents are taken by their first renewal: what is left over was renewed for no extrinsic. */
  lemma {:induction false} LeftOverIsUnrenewed(codec: Codec, body: seq<Extrinsic>, ops: seq<IndexOp>,
                                               prefetched: map<Hash, Bytes>, h: Hash)
    ensures h in ApplyIndexOps(codec, body, ops, prefetched).prefetched <==>
            h in prefetched && Unrenewed(ops, |body|, h)
    decreases |body|
  {
    if body != [] {
      ApplyUnfolds(codec, body, ops, prefetched);
      hide RenewalsFor, ApplyIndexOps, StoreOne, Unrenewed;
      var n := |body| - 1;
      RenewedOnce(ops, n, h);
      LeftOverIsUnrenewed(codec, body[..n], ops, prefetched, h);
      StoreOneLeaves(codec, ops, n, body[n], ApplyIndexOps(codec, body[..n], ops, prefetched).prefetched, h);
    }
  }

  lemma StoreOneLeaves(codec: Codec, ops: seq<IndexOp>, i: nat, x: Extrinsic, prefetched: map<Hash, Bytes>, h: Hash)
    ensures h in StoreOne(codec, ops, i, x, prefetched).2 <==> h in prefetched && h !in RenewalsFor(ops, i)
  {
    hide RenewalsFor, InsertionFor, StoreOrReference;
    UsedIsGone(prefetched, RenewalsFor(ops, i), h);
  }

  method CollectOps(ops: seq<IndexOp>) returns (indexMap: map<nat, (Hash, nat)>, renewedMap: map<nat, seq<Hash>>)
    ensures forall i :: InsertionFor(ops, i) == if i in indexMap then Some(indexMap[i]) else None
    ensures forall i :: RenewalsFor(ops, i) == if i in renewedMap then renewedMap[i] else []
    ensures forall i :: i in renewedMap ==> renewedMap[i] != []
  {
    indexMap, renewedMap := map[], map[];
    for k := 0 to |ops|
      invariant forall i :: InsertionFor(ops[..k], i) == if i in indexMap then Some(indexMap[i]) else None
      invariant forall i :: RenewalsFor(ops[..k], i) == if i in renewedMap then renewedMap[i] else []
      invariant forall i :: i in renewedMap ==> renewedMap[i] != []
    {
      assert ops[..k + 1][..k] == ops[..k];
      match ops[k]
      case Insert(i, hash, size) =>
        indexMap := indexMap[i := (hash, size)];
      case Renew(i, hash) =>
        renewedMap := renewedMap[i := (if i in renewedMap then renewedMap[i] else []) + [hash]];
    }
    assert ops[..|ops|] == ops;
  }

  /** One turn of the import loop: renewals win over an insertion, and an insertion larger than the
      encoded extrinsic is ignored. */
  method StoreExtrinsic(codec: Codec, ghost ops: seq<IndexOp>, indexMap: map<nat, (Hash, nat)>,
                        renewedMap: map<nat, seq<Hash>>,
                        i: nat, x: Extrinsic, prefetched: map<Hash, Bytes>)
    returns (entry: DbExtrinsic, changes: seq<Change>, left: map<Hash, Bytes>)
    requires InsertionFor(ops, i) == if i in indexMap then Some(indexMap[i]) else None
    requires RenewalsFor(ops, i) == if i in renewedMap then renewedMap[i] else []
    requires i in renewedMap ==> renewedMap[i] != []
    ensures (entry, changes, left) == StoreOne(codec, ops, i, x, prefetched)
  {
    hide InsertionFor, RenewalsFor, StoreOrReference;
    var encoded := codec.encode(x);
    left := prefetched;
    if i in renewedMap {
      var hashes := renewedMap[i];
      changes, left := StoreOrReferenceAll(prefetched, hashes);
      entry := if |hashes| == 1 then Indexed(hashes[0], encoded) else MultiRenew(hashes, encoded);
    } else if i in indexMap && indexMap[i].1 <= |encoded| {
      var (hash, size) := indexMap[i];
      var offset := |encoded| - size;
      changes := [Store(hash, encoded[offset..])];
      entry := Indexed(hash, encoded[..offset]);
    } else {
      changes := [];
      entry := Full(x);
    }
  }

  /** The import loop of the source, over the operations collected by extrinsic. */
  method StoreBody(codec: Codec, body: seq<Extrinsic>, ops: seq<IndexOp>, prefetched: map<Hash, Bytes>)
    returns (entries: seq<DbExtrinsic>, changes: seq<Change>, left: map<Hash, Bytes>)
    ensures Stored(entries, changes, left) == ApplyIndexOps(codec, body, ops, prefetched)
  {
    hide StoreOne, InsertionFor, RenewalsFor;
    var indexMap, renewedMap := CollectOps(ops);
    entries, changes, left := [], [], prefetched;
    for i := 0 to |body|
      invariant Stored(entries, changes, left) == ApplyIndexOps(codec, body[..i], ops, prefetched)
    {
      assert body[..i + 1][..i] == body[..i];
      var entry, more, rest := StoreExtrinsic(codec, ops, indexMap, renewedMap, i, body[i], left);
      entries := entries + [entry];
      changes := changes + more;
      left := rest;
    }
    assert body[..|body|] == body;
  }

  method StoreOrReferenceAll(prefetched: map<Hash, Bytes>, hashes: seq<Hash>)
    returns (changes: seq<Change>, left: map<Hash, Bytes>)
    ensures (changes, left) == StoreOrReference(prefetched, hashes)
  {
    changes, left := [], prefetched;
    for i := 0 to |hashes|
      invariant (changes, left) == StoreOrReference(prefetched, hashes[..i])
    {
      var h := hashes[i];
      assert hashes[..i + 1] == hashes[..i] + [h];
      StoreOrReferenceAppends(prefetched, hashes[..i], h);
      if h in left {
        changes := changes + [Store(h, left[h])];
      } else {
        changes := changes + [Reference(h)];
      }
      left := left - {h};
    }
    assert hashes[..|hashes|] == hashes;
  }

  lemma {:induction false} StoreOrReferenceAppends(prefetched: map<Hash, Bytes>, hashes: seq<Hash>, h: Hash)
    ensures var (changes, left) := StoreOrReference(prefetched, hashes);
            StoreOrReference(prefetched, hashes + [h])
            == (changes + [if h in left then Store(h, left[h]) else Reference(h)], left - {h})
    decreases |hashes|
  {
    if hashes != [] {
      StoreOrReferenceAppends(prefetched - {hashes[0]}, hashes[1..], h);
      assert (hashes + [h])[1..] == hashes[1..] + [h];
      var first := if hashes[0] in prefetched then Store(hashes[0], prefetched[hashes[0]]) else Reference(hashes[0]);
      var (rest, left) := StoreOrReference(prefetched - {hashes[0]}, hashes[1..]);
      var last := if h in left then Store(h, left[h]) else Reference(h);
      assert [first] + (rest + [last]) == ([first] + rest) + [last];
    } else {
      var change := if h in prefetched then Store(h, prefetched[h]) else Reference(h);
      assert hashes + [h] == [h] && [h][1..] == [];
      assert StoreOrReference(prefetched, [h]) == ([change] + [], prefetched - {h});
      assert [change] + [] == [] + [change];
    }
  }

  // ----- reading a body back

  function Decoded(x: Option<Extrinsic>): Result<Extrinsic, ReadError> {
    if x.Some? then Success(x.value) else Failure(Undecodable)
  }

  /** An indexed entry is decoded from its own bytes and the transaction's, joined. */
  function ReadEntry(codec: Codec, col: Column, entry: DbExtrinsic): Result<Extrinsic, ReadError> {
    match entry
    case Indexed(hash, header) =>
      if hash in col then Decoded(DecodeJoined(codec.decoder, Joined(header, col[hash].value), []))
      else Failure(MissingTransaction(hash))
    case Full(x) => Success(x)
    case MultiRenew(_, encoded) => Decoded(codec.Decode(encoded))
  }

  /** The body an index stands for, or the error of the first entry that cannot be read. */
  function ReadBody(codec: Codec, col: Column, entries: seq<DbExtrinsic>): Result<seq<Extrinsic>, ReadError> {
    if entries == [] then Success([])
    else
      var n := |entries| - 1;
      var before :- ReadBody(codec, col, entries[..n]);
      var x :- ReadEntry(codec, col, entries[n]);
      Success(before + [x])
  }

  /** A body is read exactly when each of its entries is; otherwise the first that is not tells why. */
  lemma {:induction false} ReadFailsAtFirst(codec: Codec, col: Column, entries: seq<DbExtrinsic>) returns (i: nat)
    ensures match ReadBody(codec, col, entries)
            case Success(body) =>
              && |body| == |entries|
              && forall j :: 0 <= j < |body| ==> ReadEntry(codec, col, entries[j]) == Success(body[j])
            case Failure(e) =>
              && i < |entries| && ReadEntry(codec, col, entries[i]) == Failure(e)
              && forall j :: 0 <= j < i ==> ReadEntry(codec, col, entries[j]).Success?
    decreases |entries|
  {
    hide ReadEntry;
    i := 0;
    if entries != [] {
      var n := |entries| - 1;
      i := ReadFailsAtFirst(codec, col, entries[..n]);
      if ReadBody(codec, col, entries[..n]).Success? {
        i := n;
      }
    }
  }

  /** An indexed entry decodes its bytes followed by the transaction's; it is missing exactly when that is. */
  lemma EntryReads(codec: Codec, col: Column, hash: Hash, header: Bytes)
    ensures ReadEntry(codec, col, Indexed(hash, header)) == Failure(MissingTransaction(hash)) <==> hash !in col
    ensures hash in col ==>
              var x := codec.Decode(header + col[hash].value);
              ReadEntry(codec, col, Indexed(hash, header)) == if x.Some? then Success(x.value) else Failure(Undecodable)
  {
    if hash in col {
      DecodersSeeTheConcatenation(codec.decoder, Joined(header, col[hash].value), []);
    }
  }

  method LoadEntry(codec: Codec, col: Column, entry: DbExtrinsic) returns (r: Result<Extrinsic, ReadError>)
    ensures r == ReadEntry(codec, col, entry)
  {
    match entry
    case Indexed(hash, header) =>
      if hash !in col {
        return Failure(MissingTransaction(hash));
      }
      var input := new JoinedInput(header, col[hash].value);
      var x := DecodeFrom(codec.decoder, input);
      r := Decoded(x);
    case Full(x) => r := Success(x);
    case MultiRenew(_, encoded) => r := Decoded(codec.Decode(encoded));
  }

  method LoadBody(codec: Codec, col: Column, entries: seq<DbExtrinsic>)
    returns (body: Result<seq<Extrinsic>, ReadError>)
    ensures body == ReadBody(codec, col, entries)
  {
    var read: seq<Extrinsic> := [];
    for i := 0 to |entries|
      invariant ReadBody(codec, col, entries[..i]) == Success(read)
    {
      assert entries[..i + 1][..i] == entries[..i];
      var x := LoadEntry(codec, col, entries[i]);
      if x.Failure? {
        ReadFailureSpreads(codec, col, entries, i + 1);
        return Failure(x.error);
      }
      read := read + [x.value];
    }
    assert entries[..|entries|] == entries;
    body := Success(read);
  }

  lemma {:induction false} ReadFailureSpreads(codec: Codec, col: Column, entries: seq<DbExtrinsic>, k: nat)
    requires k <= |entries| && ReadBody(codec, col, entries[..k]).Failure?
    ensures ReadBody(codec, col, entries) == ReadBody(codec, col, entries[..k])
    decreases |entries|
  {
    if k == |entries| {
      assert entries[..k] == entries;
    } else {
      assert entries[..|entries| - 1][..k] == entries[..k];
      ReadFailureSpreads(codec, col, entries[..|entries| - 1], k);
    }
  }

  // ----- references

  function EntryHashes(entry: DbExtrinsic): seq<Hash> {
    match entry
    case Indexed(hash, _) => [hash]
    case Full(_) => []
    case MultiRenew(hashes, _) => hashes
  }

  /** The hashes an index refers to, in order, duplicates counted. */
  function HashesOf(entries: seq<DbExtrinsic>): seq<Hash> {
    if entries == [] then []
    else HashesOf(entries[..|entries| - 1]) + EntryHashes(entries[|entries| - 1])
  }

  lemma HashesAppend(entries: seq<DbExtrinsic>, entry: DbExtrinsic)
    ensures HashesOf(entries + [entry]) == HashesOf(entries) + EntryHashes(entry)
  {
    assert (entries + [entry])[..|entries|] == entries;
  }

  function KeysOf(changes: seq<Change>): seq<Hash> {
    seq(|changes|, i requires 0 <= i < |changes| => changes[i].key)
  }

  function Releases(hashes: seq<Hash>): seq<Change> {
    seq(|hashes|, i requires 0 <= i < |hashes| => Release(hashes[i]))
  }
}
