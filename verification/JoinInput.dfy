/**
 The decoder input that joins two slices, against plain reads of their concatenation.
 */
module JoinInput {
  import opened Wrappers

  /** A slice read takes exactly `n` bytes or fails and takes nothing. */
  function SliceRead(s: Bytes, n: nat): (Option<Bytes>, Bytes) {
    if n <= |s| then (Some(s[..n]), s[n..]) else (None, s)
  }

  datatype Joined = Joined(first: Bytes, second: Bytes)

  function JoinRead(j: Joined, n: nat): (Option<Bytes>, Joined) {
    var fromFirst := if |j.first| < n then |j.first| else n;
    var (head, first) := SliceRead(j.first, fromFirst);
    if head.Some? && fromFirst < n then
      var (tail, second) := SliceRead(j.second, n - fromFirst);
      (if tail.Some? then Some(head.value + tail.value) else None, Joined(first, second))
    else
      (head, Joined(first, j.second))
  }

  class JoinedInput {
    var first: Bytes
    var second: Bytes

    constructor (first: Bytes, second: Bytes)
      ensures this.first == first && this.second == second
    {
      this.first := first;
      this.second := second;
    }

    method Read(n: nat) returns (r: Option<Bytes>)
      modifies this
      ensures (r, Joined(first, second)) == JoinRead(old(Joined(first, second)), n)
    {
      var read := 0;
      var head: Bytes := [];
      if |first| > 0 {
        read := if |first| < n then |first| else n;
        head := first[..read];
        first := first[read..];
      }
      if read < n {
        if n - read > |second| {
          return None;
        }
        head := head + second[..n - read];
        second := second[n - read..];
      }
      r := Some(head);
    }
  }

  /** One read returns what a read of the concatenation returns, and fails when that fails; what remains
      afterwards is what remains of the concatenation exactly when the read succeeded or the first
      slice was already used up. */
  lemma ReadAgrees(j: Joined, n: nat)
    ensures var (r, j') := JoinRead(j, n);
            var (plain, rest) := SliceRead(j.first + j.second, n);
            && r == plain
            && (j'.first + j'.second == rest <==> n <= |j.first| + |j.second| || j.first == [])
  {
    var (r, j') := JoinRead(j, n);
    var (plain, rest) := SliceRead(j.first + j.second, n);
    if n <= |j.first| {
      assert (j.first + j.second)[..n] == j.first[..n];
      assert (j.first + j.second)[n..] == j.first[n..] + j.second;
    } else if n <= |j.first| + |j.second| {
      var k := n - |j.first|;
      assert (j.first + j.second)[..n] == j.first + j.second[..k];
      assert (j.first + j.second)[n..] == j.second[k..];
      assert j.first[..|j.first|] == j.first && j.first[|j.first|..] == [];
      assert j'.first + j'.second == j.second[k..];
    } else {
      assert j.first[|j.first|..] == [];
      assert j'.first + j'.second == j.second;
      assert |rest| == |j.first| + |j.second|;
    }
  }

  function JoinReads(j: Joined, sizes: seq<nat>): (r: seq<Option<Bytes>>)
    ensures |r| == |sizes|
    decreases |sizes|
  {
    if sizes == [] then [] else [JoinRead(j, sizes[0]).0] + JoinReads(JoinRead(j, sizes[0]).1, sizes[1..])
  }

  function PlainReads(s: Bytes, sizes: seq<nat>): (r: seq<Option<Bytes>>)
    ensures |r| == |sizes|
    decreases |sizes|
  {
    if sizes == [] then [] else [SliceRead(s, sizes[0]).0] + PlainReads(SliceRead(s, sizes[0]).1, sizes[1..])
  }

  /** Everything up to and including the first failure. */
  function UntilFailure(results: seq<Option<Bytes>>): seq<Option<Bytes>> {
    if results == [] then []
    else if results[0].None? then [None]
    else [results[0]] + UntilFailure(results[1..])
  }

  /** Any sequence of reads returns the bytes, and first fails at the same read, as reads of the
      concatenation. */
  lemma {:induction false} ReadsAgreeUntilFailure(j: Joined, sizes: seq<nat>)
    ensures UntilFailure(JoinReads(j, sizes)) == UntilFailure(PlainReads(j.first + j.second, sizes))
    decreases |sizes|
  {
    if sizes != [] {
      ReadAgrees(j, sizes[0]);
      var (r, j') := JoinRead(j, sizes[0]);
      if r.Some? {
        ReadsAgreeUntilFailure(j', sizes[1..]);
        assert JoinReads(j, sizes)[1..] == JoinReads(j', sizes[1..]);
        assert PlainReads(j.first + j.second, sizes)[1..] == PlainReads(j'.first + j'.second, sizes[1..]);
      }
    }
  }

  // ----- decoders

  /** A read of no bytes always succeeds and tells a decoder nothing, so only the others are steps. */
  type Size = n: nat | n > 0 witness 1

  /** What a decoder does next: read that many bytes, or finish with a value or an error. */
  datatype Move<+A> = ReadMore(size: Size) | Finish(result: Option<A>)

  /** A decoder chooses each step from the bytes read so far, as often as it likes, and stops at its
      first failed read. */
  datatype Decoder<+A> = Decoder(next: seq<Bytes> -> Move<A>)

  function DecodePlain<A>(d: Decoder<A>, s: Bytes, got: seq<Bytes>): Option<A>
    decreases |s|
  {
    match d.next(got)
    case Finish(r) => r
    case ReadMore(n) =>
      var (r, rest) := SliceRead(s, n);
      if r.None? then None else DecodePlain(d, rest, got + [r.value])
  }

  function DecodeJoined<A>(d: Decoder<A>, j: Joined, got: seq<Bytes>): Option<A>
    decreases |j.first| + |j.second|
  {
    match d.next(got)
    case Finish(r) => r
    case ReadMore(n) =>
      var (r, rest) := JoinRead(j, n);
      if r.None? then None else DecodeJoined(d, rest, got + [r.value])
  }

  /** Every decoder, whatever it reads and however it chooses its reads, decodes the two slices as it
      decodes their concatenation. */
  lemma {:induction false} DecodersSeeTheConcatenation<A>(d: Decoder<A>, j: Joined, got: seq<Bytes>)
    ensures DecodeJoined(d, j, got) == DecodePlain(d, j.first + j.second, got)
    decreases |j.first| + |j.second|
  {
    match d.next(got)
    case Finish(_) =>
    case ReadMore(n) =>
      ReadAgrees(j, n);
      var (r, rest) := JoinRead(j, n);
      if r.Some? {
        DecodersSeeTheConcatenation(d, rest, got + [r.value]);
      }
  }

  /** Drives a decoder over the input object. */
  method DecodeFrom<A>(d: Decoder<A>, input: JoinedInput) returns (r: Option<A>)
    modifies input
    ensures r == DecodeJoined(d, old(Joined(input.first, input.second)), [])
    ensures r == DecodePlain(d, old(input.first + input.second), [])
  {
    DecodersSeeTheConcatenation(d, Joined(input.first, input.second), []);
    ghost var whole := DecodeJoined(d, Joined(input.first, input.second), []);
    var got: seq<Bytes> := [];
    while true
      invariant DecodeJoined(d, Joined(input.first, input.second), got) == whole
      decreases |input.first| + |input.second|
    {
      match d.next(got)
      case Finish(result) =>
        return result;
      case ReadMore(n) =>
        var bytes := input.Read(n);
        if bytes.None? {
          return None;
        }
        got := got + [bytes.value];
    }
  }

  /** Past a failure the two can differ: a failed read uses up the first slice, so the next read agrees
      whatever its size exactly when the failure did not happen with bytes of the first slice left. */
  lemma AgreesPastFailure(j: Joined, n: nat)
    ensures (forall m: nat :: JoinReads(j, [n, m]) == PlainReads(j.first + j.second, [n, m]))
            <==> n <= |j.first| + |j.second| || j.first == []
  {
    forall m: nat
      ensures JoinReads(j, [n, m]) == [JoinRead(j, n).0, JoinRead(JoinRead(j, n).1, m).0]
      ensures PlainReads(j.first + j.second, [n, m])
              == [SliceRead(j.first + j.second, n).0, SliceRead(SliceRead(j.first + j.second, n).1, m).0]
    {
      assert [n, m][1..] == [m] && [m][1..] == [];
    }
    ReadAgrees(j, n);
    var j' := JoinRead(j, n).1;
    if n <= |j.first| + |j.second| || j.first == [] {
      forall m: nat
        ensures JoinReads(j, [n, m]) == PlainReads(j.first + j.second, [n, m])
      {
        ReadAgrees(j', m);
      }
    } else {
      var m := |j.first| + |j.second|;
      ReadAgrees(j', m);
      assert JoinReads(j, [n, m])[1].None? && PlainReads(j.first + j.second, [n, m])[1].Some?;
    }
  }
}
