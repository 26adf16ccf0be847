/** Optional values, results, bytes and lists of changes. */
module Wrappers {
  type byte = x: int | 0 <= x < 256

  type Bytes = seq<byte>

  datatype Option<+T> = None | Some(value: T)

  datatype Result<+T, +E> = Success(value: T) | Failure(error: E) {
    predicate IsFailure() {
      Failure?
    }

    function PropagateFailure<U>(): Result<U, E>
      requires Failure?
    {
      Failure(error)
    }

    function Extract(): T
      requires Success?
    {
      value
    }
  }

  /** A list of changes applied in order. */
  function ApplyAll<S, C>(apply: (S, C) -> S, start: S, changes: seq<C>): S
    decreases |changes|
  {
    if changes == [] then start else ApplyAll(apply, apply(start, changes[0]), changes[1..])
  }

  lemma ApplyOne<S, C>(apply: (S, C) -> S, start: S, change: C)
    ensures ApplyAll(apply, start, [change]) == apply(start, change)
  {
    assert [change][1..] == [];
    assert ApplyAll(apply, apply(start, change), [change][1..]) == apply(start, change);
  }

  lemma {:induction false} ApplyConcat<S, C>(apply: (S, C) -> S, start: S, a: seq<C>, b: seq<C>)
    ensures ApplyAll(apply, start, a + b) == ApplyAll(apply, ApplyAll(apply, start, a), b)
    decreases |a|
  {
    if a == [] {
      assert a + b == b;
    } else {
      assert (a + b)[1..] == a[1..] + b;
      ApplyConcat(apply, apply(start, a[0]), a[1..], b);
    }
  }
}
