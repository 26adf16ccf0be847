/**
 Merging JSON patches, and updating the runtime code of a chain specification.
 */
module JsonPatch {
  import opened Wrappers

  datatype Json =
    | Null
    | Bool(b: bool)
    | Number(n: int)
    | String(s: string)
    | Array(items: seq<Json>)
    | Object(fields: map<string, Json>)

  /** `b` merged into `a`: objects merge key by key, anything else is replaced. */
  function Merge(a: Json, b: Json): Json
    decreases b
  {
    if a.Object? && b.Object? then
      Object(map k | k in a.fields.Keys + b.fields.Keys ::
               if k !in b.fields then a.fields[k]
               else Merge(if k in a.fields then a.fields[k] else Null, b.fields[k]))
    else b
  }

  type Path = seq<string>

  /** The value at a path of keys, the document itself at the empty path. */
  function At(doc: Json, path: Path): Option<Json> {
    if path == [] then Some(doc)
    else if doc.Object? && path[0] in doc.fields then At(doc.fields[path[0]], path[1..])
    else None
  }

  /** Some proper prefix of the path holds a value that is not an object. */
  ghost predicate Blocked(doc: Json, path: Path) {
    exists n :: 0 <= n < |path| && At(doc, path[..n]).Some? && !At(doc, path[..n]).value.Object?
  }

  // ----- the value at every path of a merge

  lemma BlockedUnfolds(doc: Json, path: Path)
    requires path != []
    ensures Blocked(doc, path) <==>
            !doc.Object? || (path[0] in doc.fields && Blocked(doc.fields[path[0]], path[1..]))
  {
    if !doc.Object? {
      assert At(doc, path[..0]) == Some(doc);
    } else if path[0] in doc.fields {
      var child := doc.fields[path[0]];
      if n :| 0 <= n < |path| && At(doc, path[..n]).Some? && !At(doc, path[..n]).value.Object? {
        assert n > 0 && path[..n][1..] == path[1..][..n - 1];
        assert At(child, path[1..][..n - 1]) == At(doc, path[..n]);
      }
      if n :| 0 <= n < |path[1..]| && At(child, path[1..][..n]).Some? && !At(child, path[1..][..n]).value.Object? {
        assert path[..n + 1][1..] == path[1..][..n];
        assert At(doc, path[..n + 1]) == At(child, path[1..][..n]);
      }
    }
  }

  /**
   Reading a path of a merge: a patched value is merged there, an unpatched one
   is the old value unless a value that is not an object stands in its way.
   */
  lemma {:induction false} MergeAt(a: Json, b: Json, path: Path)
    ensures At(Merge(a, b), path) ==
            if At(b, path).Some? then
              Some(if At(a, path).Some? then Merge(At(a, path).value, At(b, path).value) else At(b, path).value)
            else if Blocked(b, path) then None
            else At(a, path)
    decreases |path|
  {
    if path != [] {
      var k := path[0];
      BlockedUnfolds(b, path);
      if a.Object? && b.Object? && k in b.fields {
        MergeAt(if k in a.fields then a.fields[k] else Null, b.fields[k], path[1..]);
        if k !in a.fields {
          assert Merge(Null, b.fields[k]) == b.fields[k];
        }
      } else if !b.Object? {
        assert Merge(a, b) == b;
      }
    }
  }

  /** A path of the target is dropped exactly when the patch puts something other than an object on the way to it. */
  lemma PathsSurvive(a: Json, b: Json, path: Path)
    ensures At(Merge(a, b), path).Some? <==>
            At(b, path).Some? || (At(a, path).Some? && !Blocked(b, path))
  {
    MergeAt(a, b, path);
  }

  // ----- idempotence

  /** Nothing in `a` would survive beside `b`: every key of `a` is set by `b`, down to where `b` replaces. */
  ghost predicate Covers(b: Json, a: Json)
    decreases b
  {
    a.Object? && b.Object? ==> forall k :: k in a.fields ==> k in b.fields && Covers(b.fields[k], a.fields[k])
  }

  /** A patch swallows a value exactly when it covers it. */
  lemma {:induction false} MergeIsPatch(a: Json, b: Json)
    ensures Merge(a, b) == b <==> Covers(b, a)
    decreases b
  {
    if a.Object? && b.Object? {
      var m := Merge(a, b);
      forall k | k in a.fields && k in b.fields
        ensures m.fields[k] == b.fields[k] <==> Covers(b.fields[k], a.fields[k])
      {
        MergeIsPatch(a.fields[k], b.fields[k]);
      }
      if Covers(b, a) {
        assert forall k :: k in b.fields && k !in a.fields ==> m.fields[k] == Merge(Null, b.fields[k]);
        assert m.fields == b.fields;
      }
      if m == b {
        forall k | k in a.fields
          ensures k in b.fields && Covers(b.fields[k], a.fields[k])
        {
          assert k in m.fields;
        }
      }
    }
  }

  lemma {:induction false} MergeIdempotent(a: Json, b: Json)
    ensures Merge(Merge(a, b), b) == Merge(a, b)
    decreases b
  {
    if a.Object? && b.Object? {
      var m := Merge(a, b);
      forall k | k in b.fields
        ensures Merge(m.fields[k], b.fields[k]) == m.fields[k]
      {
        MergeIdempotent(if k in a.fields then a.fields[k] else Null, b.fields[k]);
      }
      assert Merge(m, b).fields == m.fields;
    } else {
      SelfMerge(b);
    }
  }

  lemma {:induction false} SelfMerge(a: Json)
    ensures Merge(a, a) == a
    decreases a
  {
    if a.Object? {
      forall k | k in a.fields
        ensures Merge(a.fields[k], a.fields[k]) == a.fields[k]
      {
        SelfMerge(a.fields[k]);
      }
      assert Merge(a, a).fields == a.fields;
    }
  }

  // ----- two patches in turn

  /** At the root: `first` replaces an object of the base that `second` would have merged into. */
  ghost predicate RootHarmless(base: Json, first: Json, second: Json) {
    base.Object? && !first.Object? && second.Object? ==> Covers(second, base)
  }

  ghost predicate Composable(base: Json, first: Json, second: Json)
    decreases second
  {
    && RootHarmless(base, first, second)
    && (base.Object? && first.Object? && second.Object? ==>
          forall k :: k in second.fields && k in base.fields && k in first.fields ==>
            Composable(base.fields[k], first.fields[k], second.fields[k]))
  }

  lemma KeyOfMerge(a: Json, b: Json, k: string)
    requires a.Object? && b.Object?
    ensures var m := Merge(a, b);
            && m.Object? && (k in m.fields <==> k in a.fields || k in b.fields)
            && (k in a.fields && k !in b.fields ==> m.fields[k] == a.fields[k])
            && (k !in a.fields && k in b.fields ==> m.fields[k] == b.fields[k])
            && (k in a.fields && k in b.fields ==> m.fields[k] == Merge(a.fields[k], b.fields[k]))
  {
    if k !in a.fields && k in b.fields {
      assert Merge(Null, b.fields[k]) == b.fields[k];
    }
  }

  lemma {:induction false} ComposableMeans(base: Json, first: Json, second: Json)
    ensures Merge(Merge(base, first), second) == Merge(base, Merge(first, second)) <==> Composable(base, first, second)
    decreases second
  {
    if base.Object? && first.Object? && second.Object? {
      var left, right := Merge(Merge(base, first), second), Merge(base, Merge(first, second));
      forall k | k in left.fields
        ensures k in right.fields
        ensures left.fields[k] == right.fields[k] <==>
                (k in second.fields && k in base.fields && k in first.fields ==>
                   Composable(base.fields[k], first.fields[k], second.fields[k]))
      {
        KeyOfMerge(base, first, k);
        KeyOfMerge(first, second, k);
        KeyOfMerge(Merge(base, first), second, k);
        KeyOfMerge(base, Merge(first, second), k);
        if k in second.fields && k in base.fields && k in first.fields {
          ComposableMeans(base.fields[k], first.fields[k], second.fields[k]);
        }
      }
      assert left.fields.Keys == right.fields.Keys;
      if Composable(base, first, second) {
        assert left.fields == right.fields;
      } else {
        var k :| k in second.fields && k in base.fields && k in first.fields &&
                 !Composable(base.fields[k], first.fields[k], second.fields[k]);
        assert left.fields[k] != right.fields[k];
      }
    } else if base.Object? && second.Object? {
      MergeIsPatch(base, second);
    }
  }

  /** The base, the first and the second patch all have a value at the path, and the replacement there is harmless. */
  ghost predicate HarmlessAt(base: Json, first: Json, second: Json, path: Path) {
    At(base, path).Some? && At(first, path).Some? && At(second, path).Some? ==>
      RootHarmless(At(base, path).value, At(first, path).value, At(second, path).value)
  }

  lemma {:induction false} ComposableAt(base: Json, first: Json, second: Json, path: Path)
    requires Composable(base, first, second)
    ensures HarmlessAt(base, first, second, path)
    decreases |path|
  {
    if path != [] && At(base, path).Some? && At(first, path).Some? && At(second, path).Some? {
      var k := path[0];
      ComposableAt(base.fields[k], first.fields[k], second.fields[k], path[1..]);
    }
  }

  lemma {:induction false} NotComposableAt(base: Json, first: Json, second: Json) returns (path: Path)
    requires !Composable(base, first, second)
    ensures !HarmlessAt(base, first, second, path)
    decreases second
  {
    if !RootHarmless(base, first, second) {
      path := [];
    } else {
      var k :| k in second.fields && k in base.fields && k in first.fields &&
               !Composable(base.fields[k], first.fields[k], second.fields[k]);
      var rest := NotComposableAt(base.fields[k], first.fields[k], second.fields[k]);
      path := [k] + rest;
      assert path[1..] == rest;
    }
  }

  /**
   Two patches in turn do what the merged patch does exactly when, wherever the
   first holds something other than an object and base and second hold objects,
   the second covers the base.
   */
  lemma PatchesCompose(base: Json, first: Json, second: Json)
    ensures Merge(Merge(base, first), second) == Merge(base, Merge(first, second)) <==>
            forall path :: HarmlessAt(base, first, second, path)
  {
    ComposableMeans(base, first, second);
    if Composable(base, first, second) {
      forall path
        ensures HarmlessAt(base, first, second, path)
      {
        ComposableAt(base, first, second, path);
      }
    } else {
      var path := NotComposableAt(base, first, second);
    }
  }

  /** A patch that first replaces an object by a scalar and then puts an object back does not compose. */
  lemma PatchesNeedNotCompose()
    ensures var base, first, second := Object(map["x" := Null]), Bool(true), Object(map[]);
            Merge(Merge(base, first), second) != Merge(base, Merge(first, second))
  {
    var base, first, second := Object(map["x" := Null]), Bool(true), Object(map[]);
    assert "x" in Merge(base, second).fields;
    assert Merge(first, second) == second;
  }

  // ----- the code of a chain specification

  const CODE_PATH: Path := ["genesis", "runtimeGenesis", "code"]
  const RAW_PATH: Path := ["genesis", "raw", "top"]
  const RAW_CODE_KEY: string := "0x3a636f6465"

  /** The queue of keys still to follow. */
  class PathQueue {
    var keys: Path

    constructor (keys: Path)
      ensures this.keys == keys
    {
      this.keys := keys;
    }
  }

  /** Applies `fun` to the value at the queued path; an empty queue, a missing key or a non-object gives false. */
  method EvalValueAtKey(doc: Json, path: PathQueue, fun: Json -> bool) returns (r: bool)
    modifies path
    ensures r <==> old(path.keys) != [] && At(doc, old(path.keys)).Some? && fun(At(doc, old(path.keys)).value)
    decreases |path.keys|
  {
    if path.keys == [] {
      return false;
    }
    var key := path.keys[0];
    path.keys := path.keys[1..];
    if !doc.Object? || key !in doc.fields {
      return false;
    }
    if path.keys == [] {
      r := fun(doc.fields[key]);
    } else {
      r := EvalValueAtKey(doc.fields[key], path, fun);
    }
  }

  /** The document whose only content is `v` at the path. */
  function Single(path: Path, v: Json): Json {
    if path == [] then v else Object(map[path[0] := Single(path[1..], v)])
  }

  /** Where the code of a specification is stored, if the specification has a place for it. */
  function CodePlace(spec: Json): Option<Path> {
    if At(spec, CODE_PATH).Some? then Some(CODE_PATH)
    else if At(spec, RAW_PATH).Some? then Some(RAW_PATH + [RAW_CODE_KEY])
    else None
  }

  method UpdateCode(spec: Json, code: string) returns (r: Json, ok: bool)
    ensures ok <==> CodePlace(spec).Some?
    ensures r == if ok then Merge(spec, Single(CodePlace(spec).value, String(code))) else spec
  {
    var path := new PathQueue(CODE_PATH);
    var rawPath := new PathQueue(RAW_PATH);
    var found := EvalValueAtKey(spec, path, _ => true);
    if found {
      return Merge(spec, Single(CODE_PATH, String(code))), true;
    }
    found := EvalValueAtKey(spec, rawPath, _ => true);
    if found {
      return Merge(spec, Single(RAW_PATH + [RAW_CODE_KEY], String(code))), true;
    }
    r, ok := spec, false;
  }

  lemma {:induction false} SingleAt(path: Path, v: Json, q: Path)
    requires !v.Object?
    ensures q == path ==> At(Single(path, v), q) == Some(v)
    ensures q < path ==> At(Single(path, v), q) == Some(Single(path[|q|..], v))
    ensures !(q <= path) ==> At(Single(path, v), q) == None
    ensures Blocked(Single(path, v), q) <==> path < q
    decreases |path|
  {
    if path == [] {
      if q != [] {
        BlockedUnfolds(v, q);
      }
    } else if q == [] {
    } else {
      BlockedUnfolds(Single(path, v), q);
      SingleAt(path[1..], v, q[1..]);
      assert path == [path[0]] + path[1..] && q == [q[0]] + q[1..];
      if q[0] == path[0] {
        assert q < path <==> q[1..] < path[1..];
        assert path < q <==> path[1..] < q[1..];
        if q < path {
          assert path[|q|..] == path[1..][|q[1..]|..];
        }
      }
    }
  }

  /**
   Setting one path changes that path only: the value is there, every path that
   neither leads to it nor runs through it reads as before, and a container on
   the way keeps its keys; a value in the way that is not an object is replaced.
   */
  lemma SettingIsLocal(doc: Json, path: Path, v: Json, q: Path)
    requires !v.Object?
    ensures var r := Merge(doc, Single(path, v));
            && At(r, path) == Some(v)
            && (!(q <= path) && !(path <= q) ==> At(r, q) == At(doc, q))
            && (q < path && At(doc, q).Some? && At(doc, q).value.Object? ==>
                  && At(r, q).Some? && At(r, q).value.Object?
                  && At(r, q).value.fields.Keys == At(doc, q).value.fields.Keys + {path[|q|]})
            && (q < path && At(doc, q).Some? && !At(doc, q).value.Object? ==>
                  At(r, q) == Some(Single(path[|q|..], v)))
  {
    MergeAt(doc, Single(path, v), path);
    SingleAt(path, v, path);
    MergeAt(doc, Single(path, v), q);
    SingleAt(path, v, q);
    if q < path {
      assert Single(path[|q|..], v).Object?;
      assert Single(path[|q|..], v).fields.Keys == {path[|q|..][0]};
    }
  }

  /** Updating the code sets the code's path and leaves every unrelated path alone. */
  lemma CodeUpdateIsLocal(spec: Json, code: string, q: Path)
    requires CodePlace(spec).Some?
    ensures var place := CodePlace(spec).value;
            var r := Merge(spec, Single(place, String(code)));
            && At(r, place) == Some(String(code))
            && (!(q <= place) && !(place <= q) ==> At(r, q) == At(spec, q))
            && (q < place && At(spec, q).Some? && At(spec, q).value.Object? ==>
                  && At(r, q).Some? && At(r, q).value.Object?
                  && At(r, q).value.fields.Keys == At(spec, q).value.fields.Keys + {place[|q|]})
            && (q < place && At(spec, q).Some? && !At(spec, q).value.Object? ==>
                  At(r, q) == Some(Single(place[|q|..], String(code))))
  {
    SettingIsLocal(spec, CodePlace(spec).value, String(code), q);
  }

  /** The code has its place under the runtime genesis if there is code there already, and otherwise in the raw
      storage if there is one; a specification with neither is left alone. */
  lemma CodePlaceExactly(spec: Json)
    ensures var runtime, raw := ["genesis", "runtimeGenesis", "code"], ["genesis", "raw", "top"];
            && (At(spec, runtime).Some? ==> CodePlace(spec) == Some(runtime))
            && (At(spec, runtime).None? && At(spec, raw).Some? ==> CodePlace(spec) == Some(raw + ["0x3a636f6465"]))
            && (At(spec, runtime).None? && At(spec, raw).None? ==> CodePlace(spec).None?)
  {
  }

  /** A specification with both places changes under the runtime genesis, and nowhere in the raw storage. */
  lemma RawStorageIsLeftAlone(spec: Json, code: string, q: Path)
    requires At(spec, ["genesis", "runtimeGenesis", "code"]).Some?
    requires ["genesis", "raw"] <= q
    ensures CodePlace(spec).Some? && At(Merge(spec, Single(CodePlace(spec).value, String(code))), q) == At(spec, q)
  {
    CodePlaceExactly(spec);
    CodeUpdateIsLocal(spec, code, q);
    var place: Path := ["genesis", "runtimeGenesis", "code"];
    assert q[1] == "raw" && place[1] == "runtimeGenesis";
    assert !(q <= place) && !(place <= q);
  }
}
