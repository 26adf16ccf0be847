/**
 Peer reputations: decay, reports, bans and the choice of outgoing candidates.
 Instants are whole seconds handed in by the caller.
 */
module PeerStore {
  import opened Reputation
  import opened DecayTime

  type PeerId = nat

  const DISCONNECT_REPUTATION_CHANGE: i32 := -256
  const FORGET_AFTER: nat := 3600

  datatype PeerInfo = PeerInfo(reputation: i32, lastUpdated: nat)

  // ----- the store

  type Peers = map<PeerId, PeerInfo>

  predicate IsBanned(info: PeerInfo) {
    info.reputation < BANNED_THRESHOLD
  }

  predicate PeerIsBanned(peers: Peers, p: PeerId) {
    p in peers && IsBanned(peers[p])
  }

  predicate Eligible(peers: Peers, ignored: set<PeerId>, p: PeerId) {
    p in peers && !IsBanned(peers[p]) && p !in ignored
  }

  /** A list of candidates to connect to: distinct eligible peers, at most `count` of them and all
      eligible peers if there is room, best reputation first, none outranked by an eligible peer left out. */
  ghost predicate BestCandidates(peers: Peers, count: nat, ignored: set<PeerId>, r: seq<PeerId>) {
    && |r| <= count
    && (forall i, j :: 0 <= i < j < |r| ==> r[i] != r[j])
    && (forall i :: 0 <= i < |r| ==> Eligible(peers, ignored, r[i]))
    && (|r| < count ==> forall p :: Eligible(peers, ignored, p) ==> p in r)
    && (forall i, j :: 0 <= i < j < |r| ==> Outranks(peers, r[i], r[j]))
    && (forall i, p :: 0 <= i < |r| && Eligible(peers, ignored, p) && p !in r ==> Outranks(peers, r[i], p))
  }

  predicate Outranks(peers: Peers, p: PeerId, q: PeerId) {
    p in peers && q in peers ==> peers[p].reputation >= peers[q].reputation
  }

  ghost predicate Distinct(s: seq<PeerId>) {
    forall i, j :: 0 <= i < j < |s| ==> s[i] != s[j]
  }

  /** The top `k` of `s` are in place: ranked among themselves and above all the rest. */
  ghost predicate TopInPlace(peers: Peers, s: seq<PeerId>, k: nat) {
    forall i, j :: 0 <= i < j < |s| && i < k ==> Outranks(peers, s[i], s[j])
  }

  method BestIndex(peers: Peers, s: seq<PeerId>, from: nat) returns (best: nat)
    requires from < |s|
    requires forall i :: 0 <= i < |s| ==> s[i] in peers
    ensures from <= best < |s|
    ensures forall i :: from <= i < |s| ==> Outranks(peers, s[best], s[i])
  {
    best := from;
    for i := from to |s|
      invariant from <= best < |s|
      invariant forall j :: from <= j < i ==> Outranks(peers, s[best], s[j])
    {
      if peers[s[i]].reputation > peers[s[best]].reputation {
        best := i;
      }
    }
  }

  /** Brings the `count` highest reputations to the front, in order. */
  method PartialSort(peers: Peers, s: seq<PeerId>, count: nat) returns (t: seq<PeerId>)
    requires count <= |s| && Distinct(s)
    requires forall i :: 0 <= i < |s| ==> s[i] in peers
    ensures |t| == |s| && Distinct(t) && TopInPlace(peers, t, count)
    ensures forall p :: p in t <==> p in s
  {
    t := s;
    for k := 0 to count
      invariant |t| == |s| && Distinct(t) && TopInPlace(peers, t, k)
      invariant forall p :: p in t <==> p in s
      invariant forall i :: 0 <= i < |t| ==> t[i] in peers
    {
      var best := BestIndex(peers, t, k);
      var u := t[k := t[best]][best := t[k]];
      SwapKeepsElements(t, k, best);
      t := u;
    }
  }

  lemma SwapKeepsElements(t: seq<PeerId>, i: nat, j: nat)
    requires i < |t| && j < |t| && Distinct(t)
    ensures var u := t[i := t[j]][j := t[i]];
            Distinct(u) && forall p :: p in u <==> p in t
  {
    var u := t[i := t[j]][j := t[i]];
    forall p | p in t
      ensures p in u
    {
      var k :| 0 <= k < |t| && t[k] == p;
      assert u[if k == i then j else if k == j then i else k] == p;
    }
  }

  class PeerStoreInner {
    var peers: Peers
    var protocols: nat
    var disconnects: seq<PeerId>

    constructor (bootnodes: seq<PeerId>, now: nat)
      ensures peers.Keys == (set p | p in bootnodes)
      ensures forall p :: p in peers ==> peers[p] == PeerInfo(0, now)
      ensures protocols == 0 && disconnects == []
    {
      peers := map p | p in bootnodes :: PeerInfo(0, now);
      protocols := 0;
      disconnects := [];
    }

    /** Reads the peers in whatever order the table yields them. */
    method OutgoingCandidates(count: nat, ignored: set<PeerId>) returns (r: seq<PeerId>)
      ensures BestCandidates(peers, count, ignored, r)
    {
      var candidates: seq<PeerId> := [];
      var rest := peers.Keys;
      while rest != {}
        invariant rest <= peers.Keys
        invariant Distinct(candidates)
        invariant forall p :: p in candidates <==> p in peers.Keys - rest && Eligible(peers, ignored, p)
        decreases |rest|
      {
        var p :| p in rest;
        assert p !in candidates;
        rest := rest - {p};
        if !IsBanned(peers[p]) && p !in ignored {
          candidates := candidates + [p];
        }
      }
      assert forall i :: 0 <= i < |candidates| ==> candidates[i] in candidates;
      var taken := if count < |candidates| then count else |candidates|;
      var sorted := PartialSort(peers, candidates, taken);
      r := sorted[..taken];
      assert forall p :: Eligible(peers, ignored, p) ==> p in sorted;
      assert sorted == r + sorted[taken..];
    }

    method ReportPeer(p: PeerId, change: i32, now: nat)
      modifies this
      ensures peers == Reported(old(peers), p, change, now)
      ensures protocols == old(protocols)
      ensures disconnects == old(disconnects) +
              if (if p in old(peers) then old(peers)[p].reputation else 0) + change < -1524713356
              then seq(protocols, _ => p) else []
    {
      var before := if p in peers then peers[p].reputation else 0;
      peers := peers[p := PeerInfo(Clamp(before + change), now)];
      if IsBanned(peers[p]) {
        disconnects := disconnects + seq(protocols, _ => p);
      }
    }

    method ReportDisconnect(p: PeerId, now: nat)
      modifies this`peers
      ensures peers == Reported(old(peers), p, -256, now)
    {
      var before := if p in peers then peers[p].reputation else 0;
      peers := peers[p := PeerInfo(Clamp(before + DISCONNECT_REPUTATION_CHANGE), now)];
    }

    /** Decays every reputation and forgets entries that reached zero and were not updated lately. */
    method ProgressTime(secondsPassed: nat, now: nat)
      modifies this`peers
      ensures peers == Progressed(old(peers), secondsPassed, now)
    {
      if secondsPassed == 0 {
        return;
      }
      var rest := peers.Keys;
      ghost var before := peers;
      while rest != {}
        invariant rest <= peers.Keys == before.Keys
        invariant forall p :: p in peers ==>
                                peers[p] == if p in rest then before[p] else DecayedInfo(before[p], secondsPassed)
        decreases |rest|
      {
        var p :| p in rest;
        rest := rest - {p};
        var decayed := DecayReputation(peers[p].reputation, secondsPassed);
        peers := peers[p := peers[p].(reputation := decayed)];
      }
      peers := map p | p in peers && Retained(peers[p], now) :: peers[p];
    }
  }

  /** The reputation of a peer, zero for one the store does not know. */
  function ReputationOf(peers: Peers, p: PeerId): i32 {
    if p in peers then peers[p].reputation else 0
  }

  function Reported(peers: Peers, p: PeerId, change: i32, now: nat): Peers {
    peers[p := PeerInfo(Clamp(ReputationOf(peers, p) + change), now)]
  }

  /**
   A report touches its peer alone and moves it to the 32-bit number nearest to
   the sum, so it is banned afterwards exactly when the sum is below the
   threshold, whether it was known, banned or at an end of the range before.
   */
  lemma ReportMeans(peers: Peers, p: PeerId, change: i32, now: nat, q: PeerId, x: i32)
    ensures var after := Reported(peers, p, change, now);
            var sum := (if p in peers then peers[p].reputation else 0) + change;
            && p in after && after[p].lastUpdated == now
            && (q != p ==> (q in after <==> q in peers) && (q in peers ==> after[q] == peers[q]))
            && Magnitude(after[p].reputation - sum) <= Magnitude(x - sum)
            && (PeerIsBanned(after, p) <==> sum < -1524713356)
  {
  }

  /** Reports do not overtake: of two peers given the same report the better one stays at least as good. */
  lemma ReportsKeepRanking(peers: Peers, p: PeerId, q: PeerId, change: i32, now: nat)
    requires p in peers && q in peers && p != q && Outranks(peers, p, q)
    ensures Outranks(Reported(Reported(peers, p, change, now), q, change, now), p, q)
  {
  }

  /** A ban ends: a peer that is left alone for 69 seconds is not banned, whatever it did before. */
  lemma BansEnd(peers: Peers, p: PeerId, seconds: nat, now: nat)
    requires seconds >= 69
    ensures !PeerIsBanned(Progressed(peers, seconds, now), p)
  {
    if p in peers {
      DecayEndsBan(peers[p].reputation, seconds);
    }
  }

  lemma DecayEndsBan(r: i32, seconds: nat)
    requires seconds >= 69
    ensures Decay(r, seconds) >= BANNED_THRESHOLD
  {
    hide Decay;
    LongestBan();
    DecayIsMonotone(I32_MIN, r, 69);
    DecayComposes(r, 69, seconds - 69);
    DecayShrinks(Decay(r, 69), seconds - 69);
  }

  function DecayedInfo(info: PeerInfo, seconds: nat): PeerInfo {
    info.(reputation := Decay(info.reputation, seconds))
  }

  predicate Retained(info: PeerInfo, now: nat) {
    info.reputation != 0 || info.lastUpdated + FORGET_AFTER > now
  }

  function Progressed(peers: Peers, seconds: nat, now: nat): Peers {
    if seconds == 0 then peers
    else map p | p in peers && Retained(DecayedInfo(peers[p], seconds), now) :: DecayedInfo(peers[p], seconds)
  }

  /** Splitting an interval at any second gives the same store as passing it in one step. */
  lemma ProgressComposes(peers: Peers, a: nat, b: nat, t1: nat, t2: nat)
    requires a > 0 && b > 0 && t1 <= t2
    ensures Progressed(Progressed(peers, a, t1), b, t2) == Progressed(peers, a + b, t2)
  {
    forall p | p in peers
      ensures DecayedInfo(DecayedInfo(peers[p], a), b) == DecayedInfo(peers[p], a + b)
      ensures Retained(DecayedInfo(peers[p], a + b), t2) ==> Retained(DecayedInfo(peers[p], a), t1)
    {
      DecayComposes(peers[p].reputation, a, b);
      ZeroStays(b);
    }
  }

  /** Time keeps a peer exactly while it was updated within the last 3600 seconds or its reputation is further from
      zero than decay takes it in that time; it adds none, and of those kept it changes the reputation alone. No
      time changes nothing. */
  lemma KeptExactly(peers: Peers, seconds: nat, now: nat, p: PeerId)
    ensures var after := Progressed(peers, seconds, now);
            && (seconds == 0 ==> after == peers)
            && (seconds > 0 ==>
                  (p in after <==>
                   && p in peers
                   && (|| peers[p].lastUpdated + 3600 > now
                       || peers[p].reputation > Threshold(0, seconds)
                       || peers[p].reputation + Threshold(0, seconds) < 0)))
            && (p in after ==> after[p] == PeerInfo(Decay(peers[p].reputation, seconds), peers[p].lastUpdated))
  {
    hide Decay, Threshold;
    if p in peers {
      GoneExactly(peers[p].reputation, seconds);
      DecayOfNoTime(peers[p].reputation);
    }
  }

  lemma DecayOfNoTime(r: i32)
    ensures Decay(r, 0) == r
  {
  }

  /** A peer not updated within the forgetting time is forgotten by a tick of 3544 seconds or more. */
  lemma IdlePeersAreForgotten(peers: Peers, p: PeerId, seconds: nat, now: nat)
    requires p in peers && seconds >= 3544 && peers[p].lastUpdated + 3600 <= now
    ensures p !in Progressed(peers, seconds, now)
  {
    DecayReachesZero(peers[p].reputation, seconds);
  }

  /** The passage of time changes no ranking: the best candidates of a store stay ranked as they were. */
  lemma ProgressKeepsRanking(peers: Peers, seconds: nat, now: nat, p: PeerId, q: PeerId)
    requires p in peers && q in peers && Outranks(peers, p, q)
    ensures Outranks(Progressed(peers, seconds, now), p, q)
  {
    DecayIsMonotone(peers[q].reputation, peers[p].reputation, seconds);
  }
}
