/** Elements of a sequence picked by position, in order. */
module Picks {
  /** Positions below `n`, in order. */
  ghost predicate Increasing(at: seq<nat>, n: nat) {
    && (forall i :: 0 <= i < |at| ==> at[i] < n)
    && (forall i, j :: 0 <= i < j < |at| ==> at[i] < at[j])
  }

  ghost function Picked<T>(s: seq<T>, at: seq<nat>): seq<T>
    requires Increasing(at, |s|)
  {
    seq(|at|, i requires 0 <= i < |at| => s[at[i]])
  }

  /** One more element, which is picked or not. */
  lemma PickMore<T>(init: seq<T>, last: T, at: seq<nat>, pick: bool)
    requires Increasing(at, |init|)
    ensures var at' := if pick then at + [|init|] else at;
            && Increasing(at', |init| + 1)
            && Picked(init + [last], at') == Picked(init, at) + (if pick then [last] else [])
            && (forall k :: 0 <= k < |init| ==> (k in at' <==> k in at)) && (|init| in at' <==> pick)
  {
    if pick {
      assert (at + [|init|])[|at|] == |init|;
    }
  }
}
