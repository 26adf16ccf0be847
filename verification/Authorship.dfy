/**
 Block authoring: inherents first, then transactions from the pool until a limit
 or a deadline stops the loop.

 What the runtime answers to a push, the readings of the clock and the size of a
 recorded proof are parameters, one `Turn` for each transaction the pool's iterator
 hands out. Times are microseconds, sizes are bytes.
 */
module Authorship {
  import opened Wrappers
  import opened Picks

  const MAX_SKIPPED_TRANSACTIONS: nat := 8

  datatype Tx = Tx(hash: nat, size: nat)

  datatype Outcome =
    | Applied
    | Mandatory
    | ExhaustedResources
    | OtherValidity(code: nat)
    | OtherError

  datatype EndReason = NoMoreTransactions | HitDeadline | HitBlockSizeLimit | HitBlockWeightLimit

  /** What one pass of the loop meets: the clock, the proof size, the answer to a push, and the clock after it. */
  datatype Turn = Turn(now: nat, proof: nat, outcome: Outcome, later: nat)

  /** Bytes of the compact length prefix of a vector of `n` elements. */
  function PrefixSize(n: nat): nat {
    if n < 64 then 1 else if n < 16384 then 2 else if n < 1073741824 then 4 else 5
  }

  function TotalSize(txs: seq<Tx>): nat {
    if txs == [] then 0 else TotalSize(txs[..|txs| - 1]) + txs[|txs| - 1].size
  }

  function EstimatedSize(header: nat, body: seq<Tx>, proof: nat): nat {
    header + PrefixSize(|body|) + TotalSize(body) + proof
  }

  // ----- inherents

  /** The inherents the runtime applied, in order; a failed mandatory one means no block. */
  function Inherents(xts: seq<Tx>, outcomes: seq<Outcome>): Result<seq<Tx>, Outcome>
    requires |outcomes| == |xts|
  {
    if xts == [] then Success([])
    else
      var n := |xts| - 1;
      var init :- Inherents(xts[..n], outcomes[..n]);
      match outcomes[n]
      case Mandatory => Failure(Mandatory)
      case Applied => Success(init + [xts[n]])
      case _ => Success(init)
  }

  // ----- transactions

  /** Limits of one proposal. */
  datatype Limits = Limits(header: nat, size: nat, soft: nat, deadline: nat)

  /**
   The loop's variables: the block body, the number skipped, the transactions
   reported to the pool as invalid, the last limit hit, and why the loop ended.
   `picked` lists the positions pushed.
   */
  datatype Loop = Loop(
    body: seq<Tx>, skipped: nat, invalid: map<nat, Option<Outcome>>, limitHit: Option<EndReason>,
    ended: Option<EndReason>, picked: seq<nat>)

  function Start(body: seq<Tx>): Loop {
    Loop(body, 0, map[], None, None, [])
  }

  /** A transaction that does not fit: skip it, keep trying until the soft deadline, or stop. */
  function OverLimit(s: Loop, reason: EndReason, decided: nat, soft: nat): Loop {
    var noted := s.(limitHit := Some(reason));
    if s.skipped < MAX_SKIPPED_TRANSACTIONS then noted.(skipped := s.skipped + 1)
    else if decided < soft then noted
    else noted.(ended := Some(reason))
  }

  /** One pass of the loop with transaction `tx` at position `i` of the pool. */
  function Pass(s: Loop, i: nat, tx: Tx, t: Turn, l: Limits): Loop {
    if s.ended.Some? then s
    else if t.now > l.deadline then s.(ended := Some(if s.limitHit.Some? then s.limitHit.value else HitDeadline))
    else if EstimatedSize(l.header, s.body, t.proof) + tx.size > l.size then
      OverLimit(s, HitBlockSizeLimit, t.now, l.soft)
    else
      match t.outcome
      case Applied => s.(body := s.body + [tx], limitHit := None, picked := s.picked + [i])
      case ExhaustedResources => OverLimit(s, HitBlockWeightLimit, t.later, l.soft)
      case OtherError => s.(invalid := s.invalid[tx.hash := None])
      case _ => s.(invalid := s.invalid[tx.hash := Some(t.outcome)])
  }

  /** The loop over the first `k` transactions. */
  function Passes(body: seq<Tx>, pool: seq<Tx>, turns: seq<Turn>, k: nat, l: Limits): Loop
    requires k <= |pool| == |turns|
    decreases k
  {
    if k == 0 then Start(body)
    else Pass(Passes(body, pool, turns, k - 1, l), k - 1, pool[k - 1], turns[k - 1], l)
  }

  function EndOf(s: Loop): EndReason {
    if s.ended.Some? then s.ended.value
    else if s.limitHit.Some? then s.limitHit.value
    else NoMoreTransactions
  }

  // ----- the body is the inherents and a subsequence of the pool

  /** A pass pushes its transaction or leaves the body alone. */
  lemma PassPicks(s: Loop, i: nat, tx: Tx, t: Turn, l: Limits)
    ensures var s' := Pass(s, i, tx, t, l);
            || (s'.body == s.body && s'.picked == s.picked)
            || (s'.body == s.body + [tx] && s'.picked == s.picked + [i] && t.outcome == Applied && t.now <= l.deadline)
  {
  }

  /** The body is what was there and the picked transactions in pool order; each was applied in time. */
  lemma {:induction false} BodyIsSubsequence(body: seq<Tx>, pool: seq<Tx>, turns: seq<Turn>, k: nat, l: Limits)
    requires k <= |pool| == |turns|
    ensures var s := Passes(body, pool, turns, k, l);
            && Increasing(s.picked, k) && s.body == body + Picked(pool, s.picked)
            && forall j :: 0 <= j < |s.picked| ==>
                 turns[s.picked[j]].outcome == Applied && turns[s.picked[j]].now <= l.deadline
    decreases k
  {
    hide Pass;
    if k > 0 {
      BodyIsSubsequence(body, pool, turns, k - 1, l);
      var s, s' := Passes(body, pool, turns, k - 1, l), Passes(body, pool, turns, k, l);
      PassPicks(s, k - 1, pool[k - 1], turns[k - 1], l);
      if s'.picked == s.picked + [k - 1] {
        assert Picked(pool, s'.picked) == Picked(pool, s.picked) + [pool[k - 1]];
      }
    }
  }

  // ----- the size limit

  lemma PrefixGrows(n: nat)
    ensures PrefixSize(n) <= PrefixSize(n + 1) <= PrefixSize(n) + 2
    ensures PrefixSize(n + 1) != PrefixSize(n) <==> n + 1 in {64, 16384, 1073741824}
  {
  }

  /** The prefix is the compact encoding: two bits of its first byte give its length, the others the number. */
  lemma PrefixHolds(n: nat)
    ensures PrefixSize(n) == 1 <==> 4 * n < 0x100
    ensures PrefixSize(n) == 2 <==> 0x100 <= 4 * n < 0x1_0000
    ensures PrefixSize(n) == 4 <==> 0x1_0000 <= 4 * n < 0x1_0000_0000
    ensures PrefixSize(n) == 5 <==> 0x1_0000_0000 <= 4 * n
  {
  }

  lemma PushedSize(header: nat, body: seq<Tx>, tx: Tx, proof: nat)
    ensures EstimatedSize(header, [], proof) == header + 1 + proof
    ensures EstimatedSize(header, body + [tx], proof) ==
            EstimatedSize(header, body, proof) + tx.size + (PrefixSize(|body| + 1) - PrefixSize(|body|))
  {
    assert (body + [tx])[..|body|] == body;
  }

  ghost predicate NoRecorder(turns: seq<Turn>) {
    forall i :: 0 <= i < |turns| ==> turns[i].proof == 0
  }

  /** Bytes by which the length prefix grows with the next extrinsic. */
  function PrefixGrowth(n: nat): nat {
    PrefixGrows(n);
    PrefixSize(n + 1) - PrefixSize(n)
  }

  /** A transaction that fits takes the estimate past the limit exactly when the room it leaves is below
      the growth of the prefix. */
  lemma FittingPushPassesLimit(header: nat, body: seq<Tx>, tx: Tx, proof: nat, limit: nat)
    requires EstimatedSize(header, body, proof) + tx.size <= limit
    ensures EstimatedSize(header, body + [tx], proof) > limit <==>
            limit - (EstimatedSize(header, body, proof) + tx.size) < PrefixGrowth(|body|)
  {
    PushedSize(header, body, tx, proof);
  }

  /** What the body's last transaction tells about the size, once one was pushed. */
  ghost predicate SizeLaw(header: nat, body: seq<Tx>, limit: nat) {
    body != [] &&
    var init, last := body[..|body| - 1], body[|body| - 1];
    var size := EstimatedSize(header, init, 0) + last.size;
    && size <= limit
    && (EstimatedSize(header, body, 0) > limit <==> limit - size < PrefixGrowth(|init|))
  }

  lemma PushGivesSizeLaw(header: nat, body: seq<Tx>, tx: Tx, limit: nat)
    requires EstimatedSize(header, body, 0) + tx.size <= limit
    ensures SizeLaw(header, body + [tx], limit)
  {
    assert (body + [tx])[..|body|] == body;
    FittingPushPassesLimit(header, body, tx, 0, limit);
  }

  /** The size law in bytes: at most two past the limit, and only where the prefix grows. */
  lemma SizeLawBounds(header: nat, body: seq<Tx>, limit: nat)
    requires SizeLaw(header, body, limit)
    ensures EstimatedSize(header, body, 0) <= limit + 2
    ensures EstimatedSize(header, body, 0) > limit ==> |body| in {64, 16384, 1073741824}
  {
    var init, last := body[..|body| - 1], body[|body| - 1];
    assert body == init + [last];
    PushedSize(header, init, last, 0);
    PrefixGrows(|init|);
  }

  /** What every push leaves. */
  ghost predicate SizeOk(header: nat, body: seq<Tx>, limit: nat) {
    && SizeLaw(header, body, limit)
    && EstimatedSize(header, body, 0) <= limit + 2
    && (EstimatedSize(header, body, 0) > limit ==> |body| in {64, 16384, 1073741824})
  }

  lemma PassKeepsSize(s: Loop, i: nat, tx: Tx, t: Turn, l: Limits)
    requires t.proof == 0
    ensures Pass(s, i, tx, t, l).body == s.body || SizeOk(l.header, Pass(s, i, tx, t, l).body, l.size)
  {
    hide EstimatedSize, SizeLaw;
    if EstimatedSize(l.header, s.body, 0) + tx.size <= l.size {
      PushGivesSizeLaw(l.header, s.body, tx, l.size);
      SizeLawBounds(l.header, s.body + [tx], l.size);
    }
  }

  /**
   Without a proof recorder, once a transaction was pushed the estimated size is
   past the limit exactly when the last one left less room than the growth of the
   length prefix. The growth is at most two bytes, and none unless the body
   reached a length at which the prefix grows.
   */
  lemma {:induction false} SizeIsBounded(body: seq<Tx>, pool: seq<Tx>, turns: seq<Turn>, k: nat, l: Limits)
    requires k <= |pool| == |turns| && NoRecorder(turns)
    ensures var s := Passes(body, pool, turns, k, l);
            s.body == body || SizeOk(l.header, s.body, l.size)
    decreases k
  {
    hide Pass, SizeOk;
    if k > 0 {
      SizeIsBounded(body, pool, turns, k - 1, l);
      PassKeepsSize(Passes(body, pool, turns, k - 1, l), k - 1, pool[k - 1], turns[k - 1], l);
    }
  }

  /** The limit is passed when the sixty-fourth extrinsic just fits: the prefix grows by a byte. */
  lemma LimitCanBePassed(body: seq<Tx>, tx: Tx, header: nat)
    requires |body| == 63
    ensures var limit := EstimatedSize(header, body, 0) + tx.size;
            var l := Limits(header, limit, 0, 0);
            EstimatedSize(header, Passes(body, [tx], [Turn(0, 0, Applied, 0)], 1, l).body, 0) == limit + 1
  {
    PushedSize(header, body, tx, 0);
    var l := Limits(header, EstimatedSize(header, body, 0) + tx.size, 0, 0);
    assert Passes(body, [tx], [Turn(0, 0, Applied, 0)], 0, l) == Start(body);
  }

  // ----- nothing is left out without a reason

  lemma {:induction false} SizeGrows(header: nat, body: seq<Tx>, more: seq<Tx>, k: nat)
    requires k <= |more|
    ensures EstimatedSize(header, body + more[..k], 0) <= EstimatedSize(header, body + more, 0)
    decreases |more| - k
  {
    if k == |more| {
      assert more[..k] == more;
    } else {
      SizeGrows(header, body, more, k + 1);
      assert body + more[..k + 1] == body + more[..k] + [more[k]];
      PushedSize(header, body + more[..k], more[k], 0);
      PrefixGrows(|body + more[..k]|);
    }
  }

  /** A pool that fits the size limit, is applied by the runtime and handed out in time is taken whole. */
  lemma {:induction false} EverythingFits(body: seq<Tx>, pool: seq<Tx>, turns: seq<Turn>, k: nat, l: Limits)
    requires k <= |pool| == |turns| && NoRecorder(turns)
    requires forall i :: 0 <= i < |turns| ==> turns[i].outcome == Applied && turns[i].now <= l.deadline
    requires EstimatedSize(l.header, body + pool, 0) <= l.size
    ensures Passes(body, pool, turns, k, l).body == body + pool[..k]
    ensures Passes(body, pool, turns, k, l).ended == None && Passes(body, pool, turns, k, l).limitHit == None
    ensures EndOf(Passes(body, pool, turns, k, l)) == NoMoreTransactions
    decreases k
  {
    if k == 0 {
      assert body + pool[..0] == body;
    } else {
      hide Pass;
      EverythingFits(body, pool, turns, k - 1, l);
      assert turns[k - 1].proof == 0;
      var before := body + pool[..k - 1];
      assert body + pool[..k] == before + [pool[k - 1]];
      SizeGrows(l.header, body, pool, k);
      PushedSize(l.header, before, pool[k - 1], 0);
      PrefixGrows(|before|);
      PassFits(Passes(body, pool, turns, k - 1, l), k - 1, pool[k - 1], turns[k - 1], l);
    }
  }

  lemma PassFits(s: Loop, i: nat, tx: Tx, t: Turn, l: Limits)
    requires s.ended.None? && t.outcome == Applied && t.now <= l.deadline
    requires EstimatedSize(l.header, s.body, t.proof) + tx.size <= l.size
    ensures Pass(s, i, tx, t, l) == s.(body := s.body + [tx], limitHit := None, picked := s.picked + [i])
  {
    hide EstimatedSize;
  }

  /** What a pass meets when the loop stands at `s`, for each reason to end. */
  predicate Meets(reason: EndReason, s: Loop, tx: Tx, t: Turn, l: Limits) {
    match reason
    case NoMoreTransactions => false
    case HitDeadline => t.now > l.deadline
    case HitBlockSizeLimit =>
      t.now <= l.deadline && EstimatedSize(l.header, s.body, t.proof) + tx.size > l.size
    case HitBlockWeightLimit =>
      && t.now <= l.deadline && EstimatedSize(l.header, s.body, t.proof) + tx.size <= l.size
      && t.outcome == ExhaustedResources
  }

  /** Pass `i` of the loop took place and met the reason. */
  ghost predicate MetAt(reason: EndReason, body: seq<Tx>, pool: seq<Tx>, turns: seq<Turn>, i: nat, l: Limits)
    requires |pool| == |turns|
  {
    && i < |pool| && Passes(body, pool, turns, i, l).ended.None?
    && Meets(reason, Passes(body, pool, turns, i, l), pool[i], turns[i], l)
  }

  lemma PassMeets(s: Loop, i: nat, tx: Tx, t: Turn, l: Limits)
    requires s.ended.None?
    ensures var s' := Pass(s, i, tx, t, l);
            && (s'.ended.Some? ==> Meets(s'.ended.value, s, tx, t, l) || s.limitHit == s'.ended)
            && (s'.limitHit.Some? ==> Meets(s'.limitHit.value, s, tx, t, l) || s.limitHit == s'.limitHit)
  {
    hide EstimatedSize;
  }

  /** The loop ends for a reason, and notes a limit, only after a pass that met it: the deadline, a
      transaction too large for the room left, or a push the runtime refused for want of weight. */
  lemma {:induction false} EndHasAReason(body: seq<Tx>, pool: seq<Tx>, turns: seq<Turn>, k: nat, l: Limits)
    requires k <= |pool| == |turns|
    ensures var s := Passes(body, pool, turns, k, l);
            && (s.ended.Some? ==> exists i :: 0 <= i < k && MetAt(s.ended.value, body, pool, turns, i, l))
            && (s.limitHit.Some? ==> exists i :: 0 <= i < k && MetAt(s.limitHit.value, body, pool, turns, i, l))
    decreases k
  {
    if k > 0 {
      hide Pass, Meets;
      EndHasAReason(body, pool, turns, k - 1, l);
      var s := Passes(body, pool, turns, k - 1, l);
      if s.ended.None? {
        PassMeets(s, k - 1, pool[k - 1], turns[k - 1], l);
        var s' := Passes(body, pool, turns, k, l);
        if s'.ended.Some? && s'.ended != s.limitHit {
          assert MetAt(s'.ended.value, body, pool, turns, k - 1, l);
        }
        if s'.limitHit.Some? && s'.limitHit != s.limitHit {
          assert MetAt(s'.limitHit.value, body, pool, turns, k - 1, l);
        }
      } else {
        EndedStays(body, pool, turns, k - 1, k, l);
      }
    }
  }

  // ----- reports to the pool

  ghost predicate DistinctHashes(pool: seq<Tx>) {
    forall i, j :: 0 <= i < j < |pool| ==> pool[i].hash != pool[j].hash
  }

  /** A reported hash belongs to a transaction whose push failed for another reason than a full block. */
  lemma {:induction false} ReportsAreEarned(body: seq<Tx>, pool: seq<Tx>, turns: seq<Turn>, k: nat, l: Limits, h: nat)
    requires k <= |pool| == |turns|
    requires h in Passes(body, pool, turns, k, l).invalid
    ensures exists i :: 0 <= i < k && pool[i].hash == h &&
              turns[i].outcome != Applied && turns[i].outcome != ExhaustedResources
    decreases k
  {
    var s := Passes(body, pool, turns, k - 1, l);
    if h in s.invalid {
      ReportsAreEarned(body, pool, turns, k - 1, l, h);
    }
  }

  /** With distinct hashes no transaction in the block is reported invalid. */
  lemma PushedIsNotReported(body: seq<Tx>, pool: seq<Tx>, turns: seq<Turn>, l: Limits, i: nat)
    requires |pool| == |turns| && DistinctHashes(pool)
    requires i in Passes(body, pool, turns, |pool|, l).picked
    ensures i < |pool| && pool[i].hash !in Passes(body, pool, turns, |pool|, l).invalid
  {
    BodyIsSubsequence(body, pool, turns, |pool|, l);
    hide Passes;
    var h := pool[i].hash;
    if h in Passes(body, pool, turns, |pool|, l).invalid {
      ReportsAreEarned(body, pool, turns, |pool|, l, h);
    }
  }

  // ----- what exactly becomes of each transaction

  /** A proposal: the inherents, the pool, what each pass meets, and the limits. */
  datatype Proposal = Proposal(body: seq<Tx>, pool: seq<Tx>, turns: seq<Turn>, l: Limits) {
    ghost predicate Valid() {
      |pool| == |turns|
    }

    ghost function At(k: nat): Loop
      requires Valid() && k <= |pool|
    {
      Passes(body, pool, turns, k, l)
    }

    /** Pass `i` takes place before the deadline. */
    ghost predicate InTime(i: nat)
      requires Valid()
    {
      i < |pool| && At(i).ended.None? && turns[i].now <= l.deadline
    }

    ghost predicate TooLarge(i: nat)
      requires Valid()
    {
      InTime(i) && EstimatedSize(l.header, At(i).body, turns[i].proof) + pool[i].size > l.size
    }

    /** Transaction `i` is given to the runtime. */
    ghost predicate Tried(i: nat)
      requires Valid()
    {
      InTime(i) && !TooLarge(i)
    }

    ghost predicate Pushed(i: nat)
      requires Valid()
    {
      Tried(i) && turns[i].outcome == Applied
    }

    ghost predicate TooHeavy(i: nat)
      requires Valid()
    {
      Tried(i) && turns[i].outcome == ExhaustedResources
    }

    /** Transaction `i` is refused for another reason than a full block. */
    ghost predicate Refused(i: nat)
      requires Valid()
    {
      Tried(i) && turns[i].outcome != Applied && turns[i].outcome != ExhaustedResources
    }

    /** How many of the first `k` transactions did not fit. */
    ghost function Misfits(k: nat): nat
      requires Valid() && k <= |pool|
    {
      if k == 0 then 0 else Misfits(k - 1) + if TooLarge(k - 1) || TooHeavy(k - 1) then 1 else 0
    }

    /** How many of them at or after the soft deadline. */
    ghost function LateMisfits(k: nat): nat
      requires Valid() && k <= |pool|
    {
      if k == 0 then 0
      else LateMisfits(k - 1) + if (TooLarge(k - 1) || TooHeavy(k - 1)) && turns[k - 1].now >= l.soft then 1 else 0
    }

    /** Transaction `i` did not fit, and nothing since was pushed or did not fit. */
    ghost predicate LastMisfit(i: nat, k: nat)
      requires Valid()
    {
      && i < k && (TooLarge(i) || TooHeavy(i))
      && forall j :: i < j < k ==> !TooLarge(j) && !TooHeavy(j) && !Pushed(j)
    }
  }

  lemma OnePass(p: Proposal, i: nat)
    requires p.Valid() && i < |p.pool|
    ensures p.At(i + 1) == Pass(p.At(i), i, p.pool[i], p.turns[i], p.l)
  {
  }

  /** Pushed are exactly the transactions that are tried and applied. */
  lemma {:induction false} PushedExactly(p: Proposal, k: nat, i: nat)
    requires p.Valid() && k <= |p.pool|
    ensures i in p.At(k).picked <==> i < k && p.Pushed(i)
    decreases k
  {
    hide Proposal.Pushed, Pass;
    if k == 0 {
      assert p.At(0).picked == [];
    } else {
      PushedExactly(p, k - 1, i);
      OnePass(p, k - 1);
      PassPushesOrReports(p, k - 1);
    }
  }

  /** Reported are exactly the transactions that are tried and refused for another reason than a full block. */
  lemma {:induction false} ReportedExactly(p: Proposal, k: nat, h: nat)
    requires p.Valid() && k <= |p.pool|
    ensures h in p.At(k).invalid <==> exists j :: 0 <= j < k && p.pool[j].hash == h && p.Refused(j)
    decreases k
  {
    hide Proposal.Refused, Pass;
    if k == 0 {
      assert p.At(0).invalid == map[];
    } else {
      ReportedExactly(p, k - 1, h);
      OnePass(p, k - 1);
      PassPushesOrReports(p, k - 1);
      hide Proposal.At;
    }
  }

  lemma PassPushesOrReports(p: Proposal, k: nat)
    requires p.Valid() && k < |p.pool|
    ensures var s, s' := p.At(k), Pass(p.At(k), k, p.pool[k], p.turns[k], p.l);
            && s'.picked == s.picked + (if p.Pushed(k) then [k] else [])
            && s'.invalid == if p.Refused(k)
                             then s.invalid[p.pool[k].hash := if p.turns[k].outcome == OtherError then None
                                                              else Some(p.turns[k].outcome)]
                             else s.invalid
  {
    hide EstimatedSize, Passes;
  }

  /** What is reported is the runtime's verdict, if it was about validity, on the last refused transaction with
      that hash. */
  lemma {:induction false} ReportsTellWhy(p: Proposal, k: nat, j: nat)
    requires p.Valid() && j < k <= |p.pool| && p.Refused(j)
    requires forall m :: j < m < k && p.Refused(m) ==> p.pool[m].hash != p.pool[j].hash
    ensures var why := if p.turns[j].outcome == OtherError then None else Some(p.turns[j].outcome);
            p.pool[j].hash in p.At(k).invalid && p.At(k).invalid[p.pool[j].hash] == why
    decreases k
  {
    hide Proposal.Refused, Pass;
    OnePass(p, k - 1);
    PassPushesOrReports(p, k - 1);
    if j < k - 1 {
      ReportsTellWhy(p, k - 1, j);
    }
  }

  /** The first eight misfits are skipped. */
  lemma {:induction false} MisfitsAreSkipped(p: Proposal, k: nat)
    requires p.Valid() && k <= |p.pool|
    ensures p.At(k).skipped == if p.Misfits(k) < 8 then p.Misfits(k) else 8
    decreases k
  {
    hide Proposal.TooLarge, Proposal.TooHeavy, Pass;
    if k > 0 {
      MisfitsAreSkipped(p, k - 1);
      OnePass(p, k - 1);
      PassSkips(p, k - 1);
    }
  }

  lemma PassSkips(p: Proposal, k: nat)
    requires p.Valid() && k < |p.pool|
    ensures var s, s' := p.At(k), Pass(p.At(k), k, p.pool[k], p.turns[k], p.l);
            && s'.skipped == s.skipped + (if (p.TooLarge(k) || p.TooHeavy(k)) && s.skipped < 8 then 1 else 0)
            && s'.limitHit == if p.TooLarge(k) then Some(HitBlockSizeLimit)
                              else if p.TooHeavy(k) then Some(HitBlockWeightLimit)
                              else if p.Pushed(k) then None else s.limitHit
  {
    hide EstimatedSize, Passes;
  }

  /** The limit noted is the one the last misfit hit, unless something was pushed since. */
  lemma {:induction false} NotedIsLastMisfit(p: Proposal, k: nat)
    requires p.Valid() && k <= |p.pool|
    ensures p.At(k).limitHit.None? <==> forall i :: 0 <= i < k ==> !p.LastMisfit(i, k)
    ensures forall i :: 0 <= i < k && p.LastMisfit(i, k) ==>
              p.At(k).limitHit == Some(if p.TooLarge(i) then HitBlockSizeLimit else HitBlockWeightLimit)
    decreases k
  {
    hide Proposal.TooLarge, Proposal.TooHeavy, Proposal.Pushed, Pass;
    if k == 0 {
      assert p.At(0).limitHit == None;
    } else {
      NotedIsLastMisfit(p, k - 1);
      OnePass(p, k - 1);
      PassSkips(p, k - 1);
      var n := k - 1;
      forall i | 0 <= i < n
        ensures p.LastMisfit(i, k) <==> p.LastMisfit(i, n) && !p.TooLarge(n) && !p.TooHeavy(n) && !p.Pushed(n)
      {
        LastMisfitStays(p, i, n);
      }
      assert p.LastMisfit(n, k) <==> p.TooLarge(n) || p.TooHeavy(n);
      hide Proposal.LastMisfit, Proposal.At;
    }
  }

  lemma LastMisfitStays(p: Proposal, i: nat, n: nat)
    requires p.Valid() && i < n
    ensures p.LastMisfit(i, n + 1) <==> p.LastMisfit(i, n) && !p.TooLarge(n) && !p.TooHeavy(n) && !p.Pushed(n)
  {
    hide Proposal.TooLarge, Proposal.TooHeavy, Proposal.Pushed;
  }

  /** The reason of the last misfit before pass `k`, if there is one, and otherwise the given one. */
  ghost predicate LastLimitOr(p: Proposal, k: nat, otherwise: EndReason, reason: EndReason)
    requires p.Valid() && k <= |p.pool|
  {
    if i: nat :| p.LastMisfit(i, k) then reason == if p.TooLarge(i) then HitBlockSizeLimit else HitBlockWeightLimit
    else reason == otherwise
  }

  lemma NotedOr(p: Proposal, k: nat, otherwise: EndReason)
    requires p.Valid() && k <= |p.pool|
    ensures LastLimitOr(p, k, otherwise, if p.At(k).limitHit.Some? then p.At(k).limitHit.value else otherwise)
  {
    NotedIsLastMisfit(p, k);
    hide Proposal.TooLarge, Proposal.TooHeavy, Proposal.Pushed, Proposal.At;
  }

  /**
   The loop ends with a pass exactly when the deadline is behind it, or its
   transaction is at least the ninth that does not fit and the soft deadline has
   come; otherwise it goes on. In the latter case the limit met is the reason, in
   the former that of the last misfit, if nothing was pushed since, or the
   deadline.
   */
  lemma LoopEndsExactly(p: Proposal, i: nat)
    requires p.Valid() && i < |p.pool| && p.At(i).ended.None?
    ensures var t, ended := p.turns[i], p.At(i + 1).ended;
            && (ended.Some? <==>
                || t.now > p.l.deadline
                || (p.TooLarge(i) && p.Misfits(i) >= 8 && t.now >= p.l.soft)
                || (p.TooHeavy(i) && p.Misfits(i) >= 8 && t.later >= p.l.soft))
            && (ended.Some? && p.TooLarge(i) ==> ended.value == HitBlockSizeLimit)
            && (ended.Some? && p.TooHeavy(i) ==> ended.value == HitBlockWeightLimit)
            && (t.now > p.l.deadline ==> LastLimitOr(p, i, HitDeadline, ended.value))
            && (ended.Some? ==> EndOf(p.At(|p.pool|)) == ended.value)
  {
    hide Proposal.Misfits, LastLimitOr, Pass, Proposal.TooLarge, Proposal.TooHeavy;
    MisfitsAreSkipped(p, i);
    NotedOr(p, i, HitDeadline);
    OnePass(p, i);
    PassEnds(p, i);
    if p.At(i + 1).ended.Some? {
      EndedStays(p.body, p.pool, p.turns, i + 1, |p.pool|, p.l);
    }
  }

  lemma PassEnds(p: Proposal, i: nat)
    requires p.Valid() && i < |p.pool| && p.At(i).ended.None?
    ensures var s, t, ended := p.At(i), p.turns[i], Pass(p.At(i), i, p.pool[i], p.turns[i], p.l).ended;
            && (ended.Some? <==>
                || t.now > p.l.deadline
                || (p.TooLarge(i) && s.skipped >= 8 && t.now >= p.l.soft)
                || (p.TooHeavy(i) && s.skipped >= 8 && t.later >= p.l.soft))
            && (ended.Some? && p.TooLarge(i) ==> ended.value == HitBlockSizeLimit)
            && (ended.Some? && p.TooHeavy(i) ==> ended.value == HitBlockWeightLimit)
            && (t.now > p.l.deadline ==> ended.value == if s.limitHit.Some? then s.limitHit.value else HitDeadline)
  {
    hide EstimatedSize, Passes;
  }

  /** A loop that runs out of transactions ends for the limit of the last misfit, if nothing was pushed since. */
  lemma EndIsLastLimit(p: Proposal)
    requires p.Valid() && p.At(|p.pool|).ended.None?
    ensures LastLimitOr(p, |p.pool|, NoMoreTransactions, EndOf(p.At(|p.pool|)))
  {
    hide LastLimitOr;
    NotedOr(p, |p.pool|, NoMoreTransactions);
  }

  // ----- attempts after the soft deadline

  ghost predicate ClockRuns(turns: seq<Turn>) {
    forall i :: 0 <= i < |turns| ==> turns[i].now <= turns[i].later
  }

  /** At most nine transactions that do not fit are met at or after the soft deadline, one more than are skipped. */
  lemma {:induction false} FewLateAttempts(p: Proposal, k: nat)
    requires p.Valid() && k <= |p.pool| && ClockRuns(p.turns)
    ensures p.LateMisfits(k) <= p.At(k).skipped + (if p.At(k).ended.Some? then 1 else 0)
    ensures p.LateMisfits(k) <= 9
    decreases k
  {
    hide Proposal.TooLarge, Proposal.TooHeavy, Pass;
    MisfitsAreSkipped(p, k);
    if k > 0 {
      FewLateAttempts(p, k - 1);
      OnePass(p, k - 1);
      PassSkips(p, k - 1);
      NoMisfitAfterEnd(p, k - 1);
      if p.At(k - 1).ended.None? {
        PassEnds(p, k - 1);
      }
      hide Proposal.At;
    }
  }

  lemma NoMisfitAfterEnd(p: Proposal, i: nat)
    requires p.Valid() && i < |p.pool|
    ensures p.At(i).ended.Some? ==> !p.TooLarge(i) && !p.TooHeavy(i) && p.At(i + 1) == p.At(i)
  {
  }

  // ----- the loops themselves

  class BlockBuilder {
    var extrinsics: seq<Tx>
    const estimatedHeaderSize: nat

    constructor (estimatedHeaderSize: nat)
      ensures this.estimatedHeaderSize == estimatedHeaderSize && extrinsics == []
    {
      this.estimatedHeaderSize := estimatedHeaderSize;
      extrinsics := [];
    }

    /** Sum of the parts the estimate is made of. */
    method EstimateBlockSize(proof: nat) returns (size: nat)
      ensures size == EstimatedSize(estimatedHeaderSize, extrinsics, proof)
    {
      var total := 0;
      var i := 0;
      while i < |extrinsics|
        invariant i <= |extrinsics|
        invariant total == TotalSize(extrinsics[..i])
      {
        assert extrinsics[..i + 1][..i] == extrinsics[..i];
        total := total + extrinsics[i].size;
        i := i + 1;
      }
      assert extrinsics[..i] == extrinsics;
      size := estimatedHeaderSize + PrefixSize(|extrinsics|) + total + proof;
    }

    /** Pushes an extrinsic if the runtime applied it. */
    method Push(xt: Tx, outcome: Outcome)
      modifies this
      ensures extrinsics == if outcome == Applied then old(extrinsics) + [xt] else old(extrinsics)
    {
      if outcome == Applied {
        extrinsics := extrinsics + [xt];
      }
    }

    method ApplyInherents(xts: seq<Tx>, outcomes: seq<Outcome>) returns (r: Result<(), Outcome>)
      requires |outcomes| == |xts| && extrinsics == []
      modifies this
      ensures r.Success? <==> Inherents(xts, outcomes).Success?
      ensures r.Success? ==> extrinsics == Inherents(xts, outcomes).value
      ensures r.Failure? ==> r.error == Mandatory
    {
      var i := 0;
      while i < |xts|
        invariant i <= |xts|
        invariant Inherents(xts[..i], outcomes[..i]) == Success(extrinsics)
      {
        InherentsUnfold(xts, outcomes, i);
        Push(xts[i], outcomes[i]);
        if outcomes[i] == Mandatory {
          MandatoryFails(xts, outcomes, i + 1);
          return Failure(Mandatory);
        }
        i := i + 1;
      }
      assert xts[..i] == xts && outcomes[..i] == outcomes;
      r := Success(());
    }

    method ApplyExtrinsics(pool: seq<Tx>, turns: seq<Turn>, sizeLimit: nat, soft: nat, deadline: nat)
      returns (reason: EndReason, unqueueInvalid: map<nat, Option<Outcome>>)
      requires |pool| == |turns|
      modifies this
      ensures var s := Passes(old(extrinsics), pool, turns, |pool|,
              Limits(estimatedHeaderSize, sizeLimit, soft, deadline));
              extrinsics == s.body && unqueueInvalid == s.invalid && reason == EndOf(s)
    {
      ghost var l := Limits(estimatedHeaderSize, sizeLimit, soft, deadline);
      ghost var body := extrinsics;
      ghost var s := Start(body);
      var skipped := 0;
      unqueueInvalid := map[];
      var limitHit: Option<EndReason> := None;
      var ended: Option<EndReason> := None;
      var i := 0;
      while i < |pool| && ended.None?
        invariant i <= |pool| && s == Passes(body, pool, turns, i, l)
        invariant s.body == extrinsics && s.skipped == skipped && s.invalid == unqueueInvalid
        invariant s.limitHit == limitHit && s.ended == ended
      {
        s := Pass(s, i, pool[i], turns[i], l);
        var now := turns[i].now;
        if now > deadline {
          ended := Some(if limitHit.Some? then limitHit.value else HitDeadline);
        } else {
          var size := EstimateBlockSize(turns[i].proof);
          if size + pool[i].size > sizeLimit {
            limitHit := Some(HitBlockSizeLimit);
            if skipped < MAX_SKIPPED_TRANSACTIONS {
              skipped := skipped + 1;
            } else if now >= soft {
              ended := Some(HitBlockSizeLimit);
            }
          } else {
            Push(pool[i], turns[i].outcome);
            match turns[i].outcome
            case Applied => limitHit := None;
            case ExhaustedResources =>
              limitHit := Some(HitBlockWeightLimit);
              if skipped < MAX_SKIPPED_TRANSACTIONS {
                skipped := skipped + 1;
              } else if turns[i].later >= soft {
                ended := Some(HitBlockWeightLimit);
              }
            case OtherError => unqueueInvalid := unqueueInvalid[pool[i].hash := None];
            case _ => unqueueInvalid := unqueueInvalid[pool[i].hash := Some(turns[i].outcome)];
          }
        }
        i := i + 1;
      }
      if ended.Some? {
        EndedStays(body, pool, turns, i, |pool|, l);
      }
      reason := if ended.Some? then ended.value else if limitHit.Some? then limitHit.value else NoMoreTransactions;
    }
  }

  lemma {:induction false} EndedStays(body: seq<Tx>, pool: seq<Tx>, turns: seq<Turn>, i: nat, k: nat, l: Limits)
    requires i <= k <= |pool| == |turns| && Passes(body, pool, turns, i, l).ended.Some?
    ensures Passes(body, pool, turns, k, l) == Passes(body, pool, turns, i, l)
    decreases k
  {
    if i < k {
      EndedStays(body, pool, turns, i, k - 1, l);
    }
  }

  lemma InherentsUnfold(xts: seq<Tx>, outcomes: seq<Outcome>, i: nat)
    requires i < |xts| == |outcomes| && Inherents(xts[..i], outcomes[..i]).Success?
    ensures Inherents(xts[..i + 1], outcomes[..i + 1]) ==
            match outcomes[i]
            case Mandatory => Failure(Mandatory)
            case Applied => Success(Inherents(xts[..i], outcomes[..i]).value + [xts[i]])
            case _ => Inherents(xts[..i], outcomes[..i])
  {
    assert xts[..i + 1][..i] == xts[..i] && outcomes[..i + 1][..i] == outcomes[..i];
  }

  lemma {:induction false} MandatoryFails(xts: seq<Tx>, outcomes: seq<Outcome>, i: nat)
    requires i <= |xts| == |outcomes| && Inherents(xts[..i], outcomes[..i]).Failure?
    ensures Inherents(xts, outcomes).Failure?
    decreases |xts|
  {
    if i == |xts| {
      assert xts[..i] == xts && outcomes[..i] == outcomes;
    } else {
      var n := |xts| - 1;
      assert xts[..n][..i] == xts[..i] && outcomes[..n][..i] == outcomes[..i];
      MandatoryFails(xts[..n], outcomes[..n], i);
    }
  }

  /** The positions of the inherents the runtime applied. */
  ghost predicate AppliedAt(outcomes: seq<Outcome>, picked: seq<nat>) {
    && Increasing(picked, |outcomes|)
    && forall i :: 0 <= i < |outcomes| ==> (i in picked <==> outcomes[i] == Applied)
  }

  lemma AppliedAtGrows(outcomes: seq<Outcome>, last: Outcome, picked: seq<nat>)
    requires AppliedAt(outcomes, picked)
    ensures AppliedAt(outcomes + [last], if last == Applied then picked + [|outcomes|] else picked)
  {
    var longer := outcomes + [last];
    assert forall i :: 0 <= i < |outcomes| ==> longer[i] == outcomes[i];
    if last == Applied {
      assert forall i :: i in picked + [|outcomes|] <==> i in picked || i == |outcomes|;
    } else {
      assert forall i :: i in picked ==> i < |outcomes|;
    }
  }

  /** `body` is the applied ones among `xts`, in order. */
  ghost predicate AppliedInOrder(xts: seq<Tx>, outcomes: seq<Outcome>, picked: seq<nat>, body: seq<Tx>) {
    |xts| == |outcomes| && AppliedAt(outcomes, picked) && body == Picked(xts, picked)
  }

  lemma AppliedInOrderGrows(xts: seq<Tx>, outcomes: seq<Outcome>, picked: seq<nat>, body: seq<Tx>, x: Tx, o: Outcome)
    requires AppliedInOrder(xts, outcomes, picked, body)
    ensures o == Applied ==> AppliedInOrder(xts + [x], outcomes + [o], picked + [|xts|], body + [x])
    ensures o != Applied ==> AppliedInOrder(xts + [x], outcomes + [o], picked, body)
  {
    AppliedAtGrows(outcomes, o, picked);
    assert Picked(xts + [x], picked) == body;
    if o == Applied {
      assert Picked(xts + [x], picked + [|xts|]) == body + [x];
    }
  }

  /** There is no block exactly when a mandatory inherent fails. */
  lemma {:induction false} MandatoryIsMandatory(xts: seq<Tx>, outcomes: seq<Outcome>)
    requires |xts| == |outcomes|
    ensures Inherents(xts, outcomes).Failure? <==> Mandatory in outcomes
    decreases |xts|
  {
    if xts != [] {
      var n := |xts| - 1;
      MandatoryIsMandatory(xts[..n], outcomes[..n]);
      assert outcomes == outcomes[..n] + [outcomes[n]];
    }
  }

  /** The block starts with the inherents that were applied, in the runtime's order. */
  lemma {:induction false} InherentsInOrder(xts: seq<Tx>, outcomes: seq<Outcome>) returns (picked: seq<nat>)
    requires |xts| == |outcomes| && Inherents(xts, outcomes).Success?
    ensures AppliedInOrder(xts, outcomes, picked, Inherents(xts, outcomes).value)
    decreases |xts|
  {
    if xts == [] {
      picked := [];
    } else {
      hide AppliedInOrder;
      var n := |xts| - 1;
      var xs, os := xts[..n], outcomes[..n];
      picked := InherentsInOrder(xs, os);
      AppliedInOrderGrows(xs, os, picked, Inherents(xs, os).value, xts[n], outcomes[n]);
      assert xts == xs + [xts[n]] && outcomes == os + [outcomes[n]];
      if outcomes[n] == Applied {
        picked := picked + [n];
      }
    }
  }
}
