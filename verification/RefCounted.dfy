/**
 A reference-counted database column: what a transaction of stores, references and releases
 does to it one change at a time, and the grouped commit of the key-value adapter, which
 reads each counter once and writes it back once.
 */
module RefCounted {
  import opened Wrappers

  type Hash = nat

  datatype Counted = Counted(count: nat, value: Bytes)

  type Column = map<Hash, Counted>

  datatype Change = Store(key: Hash, value: Bytes) | Reference(key: Hash) | Release(key: Hash)

  function Get(col: Column, h: Hash): Option<Counted> {
    if h in col then Some(col[h]) else None
  }

  /** The effect of one change on the entry of its key. */
  function CellStep(cell: Option<Counted>, change: Change): Option<Counted> {
    match change
    case Store(_, v) =>
      if cell.Some? then Some(cell.value.(count := cell.value.count + 1)) else Some(Counted(1, v))
    case Reference(_) =>
      if cell.Some? then Some(cell.value.(count := cell.value.count + 1)) else None
    case Release(_) =>
      if cell.Some? && cell.value.count > 1 then Some(cell.value.(count := cell.value.count - 1)) else None
  }

  function Apply(col: Column, change: Change): Column {
    match CellStep(Get(col, change.key), change)
    case None => col - {change.key}
    case Some(cell) => col[change.key := cell]
  }

  /** A transaction applies its changes in order. */
  function Commit(col: Column, changes: seq<Change>): Column {
    ApplyAll(Apply, col, changes)
  }

  // ----- grouped commit

  /** Counters and values are separate entries of the underlying store. */
  datatype Disk = Disk(counters: map<Hash, nat>, values: map<Hash, Bytes>) {
    predicate Valid() {
      && counters.Keys == values.Keys
      && forall h :: h in counters ==> counters[h] > 0
    }

    function Contents(): Column
      requires Valid()
    {
      map h | h in counters :: Counted(counters[h], values[h])
    }
  }

  function OpsOn(changes: seq<Change>, h: Hash): seq<Change> {
    if changes == [] then []
    else (if changes[0].key == h then [changes[0]] else []) + OpsOn(changes[1..], h)
  }

  function ReplayCell(cell: Option<Counted>, ops: seq<Change>): Option<Counted>
    decreases |ops|
  {
    if ops == [] then cell else ReplayCell(CellStep(cell, ops[0]), ops[1..])
  }

  lemma {:induction false} ReplayAppends(cell: Option<Counted>, ops: seq<Change>, op: Change)
    ensures ReplayCell(cell, ops + [op]) == CellStep(ReplayCell(cell, ops), op)
    decreases |ops|
  {
    if ops != [] {
      assert (ops + [op])[1..] == ops[1..] + [op];
      ReplayAppends(CellStep(cell, ops[0]), ops[1..], op);
    }
  }

  lemma {:induction false} OpsOnAppends(changes: seq<Change>, c: Change, h: Hash)
    ensures OpsOn(changes + [c], h) == OpsOn(changes, h) + (if c.key == h then [c] else [])
  {
    if changes != [] {
      assert (changes + [c])[1..] == changes[1..] + [c];
      OpsOnAppends(changes[1..], c, h);
    }
  }

  /** Changes to different keys do not interact: each entry only sees its own operations. */
  lemma {:induction false} CommitIsPerKey(col: Column, changes: seq<Change>, h: Hash)
    ensures Get(Commit(col, changes), h) == ReplayCell(Get(col, h), OpsOn(changes, h))
    decreases |changes|
  {
    if changes != [] {
      CommitIsPerKey(Apply(col, changes[0]), changes[1..], h);
      var rest := OpsOn(changes[1..], h);
      if changes[0].key == h {
        assert ([changes[0]] + rest)[1..] == rest;
      } else {
        assert OpsOn(changes, h) == rest;
      }
    }
  }

  /** `i` is the first change that stores the hash. */
  ghost predicate FirstStore(changes: seq<Change>, h: Hash, i: nat) {
    && i < |changes| && changes[i].Store? && changes[i].key == h
    && forall j :: 0 <= j < i && changes[j].key == h ==> !changes[j].Store?
  }

  /** Without releases an entry keeps the value it had, and a new one has that of the first store; later stores
      only count. */
  lemma {:induction false} FirstValueStays(col: Column, changes: seq<Change>, h: Hash)
    requires forall i :: 0 <= i < |changes| && changes[i].key == h ==> !changes[i].Release?
    ensures h in col ==> h in Commit(col, changes) && Commit(col, changes)[h].value == col[h].value
    ensures forall i: nat :: h !in col && FirstStore(changes, h, i) ==>
              h in Commit(col, changes) && Commit(col, changes)[h].value == changes[i].value
    decreases |changes|
  {
    if changes != [] {
      var c, rest := changes[0], changes[1..];
      assert forall j :: 0 <= j < |rest| ==> rest[j] == changes[j + 1];
      FirstValueStays(Apply(col, c), rest, h);
      forall i: nat | h !in col && FirstStore(changes, h, i) && i > 0
        ensures FirstStore(rest, h, i - 1)
      {
      }
    }
  }

  /** What the pair of counter and pending value stands for, over the value on disk. */
  ghost predicate Stands(counter: Option<nat>, pending: Option<Bytes>, disk: Disk, h: Hash, cell: Option<Counted>) {
    && (counter.None? ==> cell.None? && pending.None?)
    && (counter.Some? ==>
          && counter.value > 0
          && (pending.None? ==> h in disk.values)
          && cell == Some(Counted(counter.value, if pending.Some? then pending.value else disk.values[h])))
  }

  method ReplayOnCounter(disk: Disk, h: Hash, ops: seq<Change>) returns (counter: Option<nat>, pending: Option<Bytes>)
    requires disk.Valid()
    ensures Stands(counter, pending, disk, h, ReplayCell(Get(disk.Contents(), h), ops))
  {
    counter := if h in disk.counters then Some(disk.counters[h]) else None;
    pending := None;
    for i := 0 to |ops|
      invariant Stands(counter, pending, disk, h, ReplayCell(Get(disk.Contents(), h), ops[..i]))
    {
      assert ops[..i + 1] == ops[..i] + [ops[i]];
      ReplayAppends(Get(disk.Contents(), h), ops[..i], ops[i]);
      match ops[i]
      case Store(_, v) =>
        if counter.Some? {
          counter := Some(counter.value + 1);
        } else {
          counter := Some(1);
          pending := Some(v);
        }
      case Reference(_) =>
        if counter.Some? {
          counter := Some(counter.value + 1);
        }
      case Release(_) =>
        if counter.Some? {
          if counter.value == 1 {
            counter := None;
            pending := None;
          } else {
            counter := Some(counter.value - 1);
          }
        }
    }
    assert ops[..|ops|] == ops;
  }

  method GroupByKey(changes: seq<Change>) returns (groups: map<Hash, seq<Change>>)
    ensures forall h :: OpsOn(changes, h) == if h in groups then groups[h] else []
  {
    groups := map[];
    for i := 0 to |changes|
      invariant forall h :: OpsOn(changes[..i], h) == if h in groups then groups[h] else []
    {
      var c := changes[i];
      assert changes[..i + 1] == changes[..i] + [c];
      forall h ensures OpsOn(changes[..i + 1], h) == OpsOn(changes[..i], h) + (if c.key == h then [c] else []) {
        OpsOnAppends(changes[..i], c, h);
      }
      groups := groups[c.key := (if c.key in groups then groups[c.key] else []) + [c]];
    }
    assert changes[..|changes|] == changes;
  }

  function PutCell(disk: Disk, h: Hash, counter: Option<nat>, pending: Option<Bytes>): Disk {
    match counter
    case Some(n) => Disk(disk.counters[h := n], if pending.Some? then disk.values[h := pending.value] else disk.values)
    case None => Disk(disk.counters - {h}, disk.values - {h})
  }

  lemma PutCellWrites(original: Disk, disk: Disk, h: Hash, counter: Option<nat>, pending: Option<Bytes>,
                      cell: Option<Counted>)
    requires original.Valid() && disk.Valid()
    requires Get(disk.Contents(), h) == Get(original.Contents(), h)
    requires Stands(counter, pending, original, h, cell)
    ensures var r := PutCell(disk, h, counter, pending);
            && r.Valid()
            && Get(r.Contents(), h) == cell
            && forall k :: k != h ==> Get(r.Contents(), k) == Get(disk.Contents(), k)
  {
  }

  /** Grouping the operations by key and writing every counter once commits the same column as
      applying the changes one after the other. */
  method CommitGrouped(disk: Disk, changes: seq<Change>) returns (r: Disk)
    requires disk.Valid()
    ensures r.Valid()
    ensures r.Contents() == Commit(disk.Contents(), changes)
  {
    hide Stands, PutCell;
    var groups := GroupByKey(changes);
    r := disk;
    var rest := groups.Keys;
    while rest != {}
      invariant rest <= groups.Keys && r.Valid()
      invariant forall h :: Get(r.Contents(), h) ==
                            if h in groups.Keys - rest then ReplayCell(Get(disk.Contents(), h), groups[h])
                            else Get(disk.Contents(), h)
      decreases |rest|
    {
      var h :| h in rest;
      rest := rest - {h};
      var counter, pending := ReplayOnCounter(disk, h, groups[h]);
      PutCellWrites(disk, r, h, counter, pending, ReplayCell(Get(disk.Contents(), h), groups[h]));
      r := PutCell(r, h, counter, pending);
    }
    forall h
      ensures Get(r.Contents(), h) == Get(Commit(disk.Contents(), changes), h)
    {
      CommitIsPerKey(disk.Contents(), changes, h);
    }
    SameEntriesSameColumn(r.Contents(), Commit(disk.Contents(), changes));
  }

  lemma SameEntriesSameColumn(a: Column, b: Column)
    requires forall h :: Get(a, h) == Get(b, h)
    ensures a == b
  {
    assert forall h :: h in a <==> Get(a, h).Some?;
    assert forall h :: h in b <==> Get(b, h).Some?;
    assert forall h :: h in a ==> Get(a, h) == Some(a[h]) && Get(b, h) == Some(b[h]);
  }
}
