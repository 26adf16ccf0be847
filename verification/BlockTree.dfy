/**
 The block tree: ancestors, and the route between two blocks.
 */
module BlockTree {
  import opened Wrappers

  type Hash = h: seq<byte> | |h| == 32 witness seq(32, _ => 0)

  datatype Header = Header(number: nat, parent: Hash)

  type Headers = map<Hash, Header>

  /** Every block but the genesis has its parent one below it, and there is one genesis. */
  ghost predicate TreeOk(t: Headers) {
    && (forall h :: h in t && t[h].number > 0 ==> t[h].parent in t && t[t[h].parent].number == t[h].number - 1)
    && (forall g, h :: g in t && h in t && t[g].number == 0 && t[h].number == 0 ==> g == h)
  }

  /** The ancestor at height `n`, the block itself at its own height. */
  ghost function Ancestor(t: Headers, h: Hash, n: nat): (a: Hash)
    requires TreeOk(t) && h in t && n <= t[h].number
    ensures a in t && t[a].number == n
    decreases t[h].number
  {
    if t[h].number == n then h else Ancestor(t, t[h].parent, n)
  }

  lemma {:induction false} AncestorOfAncestor(t: Headers, h: Hash, m: nat, n: nat)
    requires TreeOk(t) && h in t && n <= m <= t[h].number
    ensures Ancestor(t, Ancestor(t, h, m), n) == Ancestor(t, h, n)
    decreases t[h].number
  {
    if t[h].number > m {
      AncestorOfAncestor(t, t[h].parent, m, n);
    }
  }

  lemma {:induction false} ParentIsAncestor(t: Headers, h: Hash, n: nat)
    requires TreeOk(t) && h in t && 0 < n <= t[h].number
    ensures Ancestor(t, h, n - 1) == t[Ancestor(t, h, n)].parent
    decreases t[h].number
  {
    if t[h].number > n {
      ParentIsAncestor(t, t[h].parent, n);
    }
  }

  /** The block is `head` or one of its ancestors. */
  ghost predicate OnPath(t: Headers, head: Hash, h: Hash)
    requires TreeOk(t) && head in t
  {
    h in t && t[h].number <= t[head].number && Ancestor(t, head, t[h].number) == h
  }

  // ----- the route between two blocks

  datatype Point = Point(number: nat, hash: Hash)

  datatype Route = Route(route: seq<Point>, pivot: nat) {
    predicate Valid() {
      pivot < |route|
    }

    function Retracted(): seq<Point>
      requires Valid()
    {
      route[..pivot]
    }

    function Enacted(): seq<Point>
      requires Valid()
    {
      route[pivot + 1..]
    }
  }

  /** The height of the last common ancestor. */
  ghost function CommonHeight(t: Headers, a: Hash, b: Hash): (c: nat)
    requires TreeOk(t) && a in t && b in t
    ensures c <= t[a].number && c <= t[b].number
    decreases t[a].number + t[b].number
  {
    if a == b then t[a].number
    else if t[a].number < t[b].number then CommonHeight(t, a, t[b].parent)
    else if t[a].number > t[b].number then CommonHeight(t, t[a].parent, b)
    else CommonHeight(t, t[a].parent, t[b].parent)
  }

  /** Below and at the common height the ancestors agree, above it they differ. */
  lemma {:induction false} CommonHeightIsLast(t: Headers, a: Hash, b: Hash, n: nat)
    requires TreeOk(t) && a in t && b in t && n <= t[a].number && n <= t[b].number
    ensures Ancestor(t, a, n) == Ancestor(t, b, n) <==> n <= CommonHeight(t, a, b)
    decreases t[a].number + t[b].number
  {
    if a != b {
      if t[a].number < t[b].number {
        CommonHeightIsLast(t, a, t[b].parent, n);
      } else if t[a].number > t[b].number {
        CommonHeightIsLast(t, t[a].parent, b, n);
      } else if n < t[a].number {
        CommonHeightIsLast(t, t[a].parent, t[b].parent, n);
      }
    }
  }

  /** From `h` down to the block above height `c`. */
  ghost function PathDown(t: Headers, h: Hash, c: nat): (p: seq<Point>)
    requires TreeOk(t) && h in t && c <= t[h].number
    ensures |p| == t[h].number - c
    ensures forall i :: 0 <= i < |p| ==> p[i] == Point(t[h].number - i, Ancestor(t, h, t[h].number - i))
    decreases t[h].number
  {
    if t[h].number == c then [] else [Point(t[h].number, h)] + PathDown(t, t[h].parent, c)
  }

  function Reversed(p: seq<Point>): (r: seq<Point>)
    ensures |r| == |p|
    ensures forall i :: 0 <= i < |r| ==> r[i] == p[|p| - 1 - i]
  {
    if p == [] then [] else Reversed(p[1..]) + [p[0]]
  }

  lemma PathUp(t: Headers, h: Hash, c: nat)
    requires TreeOk(t) && h in t && c <= t[h].number
    ensures var up := Reversed(PathDown(t, h, c));
            && |up| == t[h].number - c
            && forall i :: 0 <= i < |up| ==> up[i] == Point(c + 1 + i, Ancestor(t, h, c + 1 + i))
  {
    hide PathDown, Reversed, Ancestor, TreeOk;
    var down := PathDown(t, h, c);
    var up := Reversed(down);
    forall i | 0 <= i < |up|
      ensures up[i] == Point(c + 1 + i, Ancestor(t, h, c + 1 + i))
    {
      assert up[i] == down[|down| - 1 - i];
    }
  }

  ghost predicate Lists(points: seq<Point>, h: Hash) {
    exists i :: 0 <= i < |points| && points[i].hash == h
  }

  ghost predicate Numbered(t: Headers, points: seq<Point>) {
    forall i :: 0 <= i < |points| ==> points[i].hash in t && points[i].number == t[points[i].hash].number
  }

  /** The branch of `h` down to height `c` holds the blocks on its path above `c`. */
  lemma BranchIsPath(t: Headers, h: Hash, c: nat, b: Hash)
    requires TreeOk(t) && h in t && c <= t[h].number
    ensures Lists(PathDown(t, h, c), b) <==> OnPath(t, h, b) && t[b].number > c
  {
    var down := PathDown(t, h, c);
    hide PathDown, TreeOk;
    if OnPath(t, h, b) && t[b].number > c {
      assert down[t[h].number - t[b].number].hash == b;
    }
  }

  /** Down to the common height these are exactly the blocks that are not on the path of `other`. */
  lemma BranchIsPathWithout(t: Headers, h: Hash, other: Hash, b: Hash)
    requires TreeOk(t) && h in t && other in t
    ensures Lists(PathDown(t, h, CommonHeight(t, h, other)), b) <==> OnPath(t, h, b) && !OnPath(t, other, b)
  {
    hide PathDown, TreeOk, CommonHeight, Lists;
    BranchIsPath(t, h, CommonHeight(t, h, other), b);
    if OnPath(t, h, b) && t[b].number <= t[other].number {
      CommonHeightIsLast(t, h, other, t[b].number);
    }
  }

  lemma CommonHeightIsSymmetric(t: Headers, a: Hash, b: Hash)
    requires TreeOk(t) && a in t && b in t
    ensures CommonHeight(t, a, b) == CommonHeight(t, b, a)
  {
    var c, d := CommonHeight(t, a, b), CommonHeight(t, b, a);
    CommonHeightIsLast(t, a, b, c);
    CommonHeightIsLast(t, b, a, c);
    CommonHeightIsLast(t, a, b, d);
    CommonHeightIsLast(t, b, a, d);
  }

  lemma ReversedLists(p: seq<Point>, h: Hash)
    ensures Lists(Reversed(p), h) <==> Lists(p, h)
  {
    var r := Reversed(p);
    if Lists(p, h) {
      var i :| 0 <= i < |p| && p[i].hash == h;
      assert r[|p| - 1 - i].hash == h;
    }
    if Lists(r, h) {
      var i :| 0 <= i < |r| && r[i].hash == h;
      assert p[|p| - 1 - i].hash == h;
    }
  }

  /** The branch of `h` above the common height, downwards. */
  lemma BranchDown(t: Headers, h: Hash, other: Hash, b: Hash)
    requires TreeOk(t) && h in t && other in t
    ensures var down := PathDown(t, h, CommonHeight(t, h, other));
            && (Lists(down, b) <==> OnPath(t, h, b) && !OnPath(t, other, b))
            && Numbered(t, down)
            && (forall i, j :: 0 <= i < j < |down| ==> down[i].number > down[j].number)
  {
    hide CommonHeight, PathDown, Lists, OnPath, TreeOk;
    BranchIsPathWithout(t, h, other, b);
  }

  /** The same branch upwards. */
  lemma BranchUp(t: Headers, h: Hash, other: Hash, b: Hash)
    requires TreeOk(t) && h in t && other in t
    ensures var up := Reversed(PathDown(t, h, CommonHeight(t, h, other)));
            && (Lists(up, b) <==> OnPath(t, h, b) && !OnPath(t, other, b))
            && Numbered(t, up)
            && (forall i, j :: 0 <= i < j < |up| ==> up[i].number < up[j].number)
  {
    hide CommonHeight, PathDown, Reversed, Lists, OnPath, TreeOk;
    var c := CommonHeight(t, h, other);
    BranchIsPathWithout(t, h, other, b);
    ReversedLists(PathDown(t, h, c), b);
    PathUp(t, h, c);
  }

  /** Down from `from` to the last common ancestor, then up to `to`. */
  ghost function RouteBetween(t: Headers, from: Hash, to: Hash): (r: Route)
    requires TreeOk(t) && from in t && to in t
    ensures r.Valid()
  {
    var c := CommonHeight(t, from, to);
    var down := PathDown(t, from, c);
    Route(down + [Point(c, Ancestor(t, to, c))] + Reversed(PathDown(t, to, c)), |down|)
  }

  /**
   A route retracts exactly the blocks on the path of `from` and not on that of
   `to`, downwards, and enacts those on the path of `to` and not on that of `from`,
   upwards; between them stands the highest block on both.
   */
  lemma RouteMeans(t: Headers, from: Hash, to: Hash, b: Hash)
    requires TreeOk(t) && from in t && to in t
    ensures var r := RouteBetween(t, from, to);
            var down, up, pivot := r.Retracted(), r.Enacted(), r.route[r.pivot];
            && (Lists(down, b) <==> OnPath(t, from, b) && !OnPath(t, to, b))
            && (Lists(up, b) <==> OnPath(t, to, b) && !OnPath(t, from, b))
            && Numbered(t, down) && Numbered(t, up)
            && (forall i, j :: 0 <= i < j < |down| ==> down[i].number > down[j].number)
            && (forall i, j :: 0 <= i < j < |up| ==> up[i].number < up[j].number)
            && OnPath(t, from, pivot.hash) && OnPath(t, to, pivot.hash) && pivot.number == t[pivot.hash].number
            && (OnPath(t, from, b) && OnPath(t, to, b) ==> t[b].number <= pivot.number)
  {
    BranchDown(t, from, to, b);
    BranchUp(t, to, from, b);
    CommonHeightIsSymmetric(t, from, to);
    var c := CommonHeight(t, from, to);
    PivotIsHighest(t, from, to, b);
    hide CommonHeight, PathDown, Reversed, Lists, OnPath, TreeOk, Numbered;
    var r := RouteBetween(t, from, to);
    assert r.Retracted() == PathDown(t, from, c) && r.Enacted() == Reversed(PathDown(t, to, c));
  }

  lemma PivotIsHighest(t: Headers, from: Hash, to: Hash, b: Hash)
    requires TreeOk(t) && from in t && to in t
    ensures var c := CommonHeight(t, from, to);
            var pivot := Ancestor(t, to, c);
            && OnPath(t, from, pivot) && OnPath(t, to, pivot) && t[pivot].number == c
            && (OnPath(t, from, b) && OnPath(t, to, b) ==> t[b].number <= c)
  {
    var c := CommonHeight(t, from, to);
    CommonHeightIsLast(t, from, to, c);
    if OnPath(t, from, b) && OnPath(t, to, b) {
      CommonHeightIsLast(t, from, to, t[b].number);
    }
  }

  lemma CommonSteps(t: Headers, a: Hash, b: Hash)
    requires TreeOk(t) && a in t && b in t
    ensures (t[a].number > 0 ==> t[a].parent in t) && (t[b].number > 0 ==> t[b].parent in t)
    ensures t[a].number < t[b].number ==> t[b].parent in t && CommonHeight(t, a, b) == CommonHeight(t, a, t[b].parent)
    ensures t[a].number > t[b].number ==> t[a].parent in t && CommonHeight(t, a, b) == CommonHeight(t, t[a].parent, b)
    ensures t[a].number == t[b].number && a != b ==>
              && t[a].number > 0 && t[a].parent in t && t[b].parent in t
              && CommonHeight(t, a, b) == CommonHeight(t, t[a].parent, t[b].parent)
    ensures a == b ==> CommonHeight(t, a, b) == t[a].number
    ensures CommonHeight(t, a, b) <= t[a].number && CommonHeight(t, a, b) <= t[b].number
    ensures t[a].number > 0 ==> t[t[a].parent].number == t[a].number - 1
    ensures t[b].number > 0 ==> t[t[b].parent].number == t[b].number - 1
  {
  }

  lemma WalkStarts(t: Headers, start: Hash, c: nat)
    requires TreeOk(t) && start in t && c <= t[start].number
    ensures Walked(t, [], start, start, c)
  {
  }

  /** `branch` is the part of the way from `start` down to `c` already walked when standing at `h`. */
  ghost predicate Walked(t: Headers, branch: seq<Point>, start: Hash, h: Hash, c: nat)
    requires TreeOk(t) && start in t && c <= t[start].number
  {
    && h in t && c <= t[h].number <= t[start].number
    && h == Ancestor(t, start, t[h].number)
    && branch + PathDown(t, h, c) == PathDown(t, start, c)
  }

  lemma WalkOn(t: Headers, branch: seq<Point>, start: Hash, h: Hash, c: nat)
    requires TreeOk(t) && start in t && c <= t[start].number
    requires Walked(t, branch, start, h, c) && c < t[h].number
    ensures Walked(t, branch + [Point(t[h].number, h)], start, t[h].parent, c)
  {
    ParentIsAncestor(t, start, t[h].number);
    assert PathDown(t, h, c) == [Point(t[h].number, h)] + PathDown(t, t[h].parent, c);
  }

  /** The three loops of the source: level the two blocks, then walk both down until they meet. */
  method TreeRoute(t: Headers, from: Hash, to: Hash) returns (r: Route)
    requires TreeOk(t) && from in t && to in t
    ensures r == RouteBetween(t, from, to)
  {
    hide CommonHeight, Walked, PathDown, Reversed, Ancestor, TreeOk;
    ghost var c := CommonHeight(t, from, to);
    CommonSteps(t, from, to);
    var a, b := from, to;
    var toBranch: seq<Point> := [];
    var fromBranch: seq<Point> := [];
    WalkStarts(t, to, c);
    WalkStarts(t, from, c);
    while t[b].number > t[a].number
      invariant b in t && CommonHeight(t, a, b) == c && Walked(t, toBranch, to, b, c)
      decreases t[b].number
    {
      CommonSteps(t, a, b);
      WalkOn(t, toBranch, to, b, c);
      toBranch := toBranch + [Point(t[b].number, b)];
      b := t[b].parent;
    }
    while t[a].number > t[b].number
      invariant a in t && CommonHeight(t, a, b) == c && Walked(t, fromBranch, from, a, c)
      invariant t[a].number >= t[b].number
      decreases t[a].number
    {
      CommonSteps(t, a, b);
      WalkOn(t, fromBranch, from, a, c);
      fromBranch := fromBranch + [Point(t[a].number, a)];
      a := t[a].parent;
    }
    while b != a
      invariant a in t && b in t && t[a].number == t[b].number && CommonHeight(t, a, b) == c
      invariant Walked(t, toBranch, to, b, c) && Walked(t, fromBranch, from, a, c)
      decreases t[a].number
    {
      CommonSteps(t, a, b);
      WalkOn(t, toBranch, to, b, c);
      toBranch := toBranch + [Point(t[b].number, b)];
      b := t[b].parent;
      WalkOn(t, fromBranch, from, a, c);
      fromBranch := fromBranch + [Point(t[a].number, a)];
      a := t[a].parent;
    }
    CommonSteps(t, a, b);
    Arrived(t, toBranch, to, b, c);
    Arrived(t, fromBranch, from, a, c);
    r := Route(fromBranch + [Point(t[b].number, b)] + Reversed(toBranch), |fromBranch|);
  }

  lemma Arrived(t: Headers, branch: seq<Point>, start: Hash, h: Hash, c: nat)
    requires TreeOk(t) && start in t && c <= t[start].number
    requires Walked(t, branch, start, h, c) && t[h].number == c
    ensures branch == PathDown(t, start, c) && h == Ancestor(t, start, c)
  {
    assert PathDown(t, h, c) == [];
  }
}
