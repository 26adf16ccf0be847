/**
 Consensus gossip: what each peer is known to hold, and what is sent to it.

 A message is identified with its hash. The bounded cache of known messages may
 evict anything, so an insertion names the cache it leaves behind. Answers of the
 validator's closures are indexed by the position they are asked at, the order in
 which the peer table is walked is a parameter, and what a validator does through
 its context is a list of calls.
 */
module Gossip {
  import opened Wrappers
  import opened Picks

  type Hash = nat
  type Topic = nat
  type PeerId = nat

  type Peers = map<PeerId, set<Hash>>

  datatype Intent = Broadcast | ForcedBroadcast | PeriodicRebroadcast

  datatype Report = GossipSuccess | DuplicateGossip | NoReport

  datatype Entry = Entry(hash: Hash, topic: Topic, sender: Option<PeerId>)

  datatype Event =
    | Sent(to: PeerId, hash: Hash, intent: Intent)
    | Addressed(to: PeerId, hash: Hash)
    | Untracked(to: PeerId, hash: Hash)
    | Heard(from: PeerId, hash: Hash, report: Report)
    | Joined(who: PeerId)
    | Left(who: PeerId)
    | Collected(cache: set<Hash>)

  // ----- what a history of events says about the peers

  /** The event after which `p` is known to hold `h`. */
  predicate Tells(e: Event, p: PeerId, h: Hash) {
    match e
    case Sent(to, hash, _) => to == p && hash == h
    case Addressed(to, hash) => to == p && hash == h
    case Heard(from, hash, _) => from == p && hash == h
    case _ => false
  }

  /** A garbage collection that finds `h` gone from the cache, or the edge of a session of `p`. */
  predicate Forgets(e: Event, p: PeerId, h: Hash) {
    match e
    case Collected(cache) => h !in cache
    case Joined(who) => who == p
    case Left(who) => who == p
    case _ => false
  }

  function Learn(peers: Peers, p: PeerId, h: Hash): Peers {
    if p in peers then peers[p := peers[p] + {h}] else peers
  }

  function Note(peers: Peers, e: Event): Peers {
    match e
    case Sent(to, hash, _) => Learn(peers, to, hash)
    case Addressed(to, hash) => Learn(peers, to, hash)
    case Untracked(_, _) => peers
    case Heard(from, hash, _) => Learn(peers, from, hash)
    case Joined(who) => peers[who := {}]
    case Left(who) => peers - {who}
    case Collected(cache) => map p | p in peers :: peers[p] * cache
  }

  ghost function After(log: seq<Event>): Peers {
    if log == [] then map[] else Note(After(log[..|log| - 1]), log[|log| - 1])
  }

  /** What the rules of gossip ask of an event when the peers hold `peers`. */
  predicate Proper(peers: Peers, e: Event) {
    match e
    case Sent(to, hash, intent) =>
      && to in peers
      && (intent == Broadcast ==> hash !in peers[to])
      && (intent == PeriodicRebroadcast ==> hash in peers[to])
    case Addressed(to, hash) => to in peers
    case Heard(from, hash, report) =>
      && from in peers
      && (report == DuplicateGossip ==> hash in peers[from])
      && (report == NoReport ==> hash !in peers[from])
    case _ => true
  }

  ghost predicate Disciplined(log: seq<Event>) {
    log == [] || (Disciplined(log[..|log| - 1]) && Proper(After(log[..|log| - 1]), log[|log| - 1]))
  }

  lemma Appended(log: seq<Event>, e: Event)
    ensures After(log + [e]) == Note(After(log), e)
    ensures Disciplined(log + [e]) <==> Disciplined(log) && Proper(After(log), e)
  {
    assert (log + [e])[..|log|] == log;
  }

  /** `i` is the last time `p` was told of `h`, and nothing since has made the node forget it. */
  ghost predicate ToldAt(log: seq<Event>, i: nat, p: PeerId, h: Hash) {
    && i < |log| && Tells(log[i], p, h)
    && forall k :: i < k < |log| ==> !Forgets(log[k], p, h)
  }

  lemma ToldUnlessForgotten(log: seq<Event>, e: Event, i: nat, p: PeerId, h: Hash)
    requires i < |log|
    ensures ToldAt(log + [e], i, p, h) <==> ToldAt(log, i, p, h) && !Forgets(e, p, h)
  {
    var longer := log + [e];
    assert longer[|log|] == e;
    assert forall k :: 0 <= k < |log| ==> longer[k] == log[k];
    if ToldAt(log, i, p, h) && !Forgets(e, p, h) {
      assert forall k :: i < k < |longer| ==> !Forgets(longer[k], p, h);
    }
  }

  /**
   A peer is taken to hold a message exactly when some event of the current
   session told it, or it told the node, and no collection has dropped it since.
   */
  lemma {:induction false} KnownMeansTold(log: seq<Event>, p: PeerId, h: Hash)
    requires Disciplined(log)
    ensures p in After(log) && h in After(log)[p] <==> exists i :: ToldAt(log, i, p, h)
    decreases |log|
  {
    if log != [] {
      var init, e := log[..|log| - 1], log[|log| - 1];
      assert log == init + [e];
      Appended(init, e);
      KnownMeansTold(init, p, h);
      if Tells(e, p, h) {
        assert ToldAt(log, |init|, p, h);
      } else {
        ToldBefore(init, e, p, h);
      }
    }
  }

  lemma ToldBefore(log: seq<Event>, e: Event, p: PeerId, h: Hash)
    requires !Tells(e, p, h)
    ensures (exists i :: ToldAt(log + [e], i, p, h)) <==> (exists i :: ToldAt(log, i, p, h)) && !Forgets(e, p, h)
  {
    if i: nat :| ToldAt(log + [e], i, p, h) {
      assert i < |log|;
      ToldUnlessForgotten(log, e, i, p, h);
    }
    if i: nat :| ToldAt(log, i, p, h) {
      ToldUnlessForgotten(log, e, i, p, h);
    }
  }

  lemma {:induction false} PrefixDisciplined(log: seq<Event>, j: nat)
    requires Disciplined(log) && j < |log|
    ensures Disciplined(log[..j]) && Proper(After(log[..j]), log[j])
    decreases |log|
  {
    var init := log[..|log| - 1];
    if j < |init| {
      PrefixDisciplined(init, j);
      assert init[..j] == log[..j];
    }
  }

  /**
   Within one session of a peer, once the peer has been sent a message or has
   sent it, the message goes out to it with the broadcast intent again only after
   a garbage collection that found it gone from the node's cache.
   */
  lemma RebroadcastNeedsForgetting(log: seq<Event>, i: nat, j: nat, p: PeerId, h: Hash)
    requires Disciplined(log) && i < j < |log|
    requires Tells(log[i], p, h) && log[j] == Sent(p, h, Broadcast)
    requires forall k :: i < k < j ==> log[k] != Joined(p) && log[k] != Left(p)
    ensures exists k :: i < k < j && log[k].Collected? && h !in log[k].cache
  {
    PrefixDisciplined(log, j);
    var before := log[..j];
    KnownMeansTold(before, p, h);
    assert !ToldAt(before, i, p, h);
    var k :| i < k < |before| && Forgets(before[k], p, h);
    assert log[k].Collected?;
  }

  /** A peer is penalised for a duplicate only over a message it was told of, or told, and that was not forgotten. */
  lemma DuplicateIsEarned(log: seq<Event>, j: nat, p: PeerId, h: Hash)
    requires Disciplined(log) && j < |log| && log[j] == Heard(p, h, DuplicateGossip)
    ensures exists i :: ToldAt(log[..j], i, p, h)
  {
    PrefixDisciplined(log, j);
    KnownMeansTold(log[..j], p, h);
  }

  // ----- the state machine

  datatype State = State(peers: Peers, messages: seq<Entry>, cache: set<Hash>, log: seq<Event>)

  ghost predicate Sound(g: State) {
    g.peers == After(g.log) && Disciplined(g.log)
  }

  function Emit(g: State, e: Event): State {
    g.(peers := Note(g.peers, e), log := g.log + [e])
  }

  lemma EmitKeepsSound(g: State, e: Event)
    requires Sound(g) && Proper(g.peers, e)
    ensures Sound(Emit(g, e))
  {
    Appended(g.log, e);
  }

  /** One message offered to one peer; `allowed` is the validator's answer if it is asked. */
  function Offer(g: State, p: PeerId, h: Hash, intent: Intent, allowed: bool): State {
    if p !in g.peers then g
    else
      var known := h in g.peers[p];
      if intent == Broadcast && known then g
      else if !allowed then g
      else Emit(g, Sent(p, h, if intent == PeriodicRebroadcast && !known then Broadcast else intent))
  }

  /** The first `k` messages of `ms` offered to one peer, in order. */
  function OfferAll(g: State, p: PeerId, ms: seq<Entry>, k: nat, intent: Intent, allowed: nat -> bool): State
    requires k <= |ms|
    decreases k
  {
    if k == 0 then g
    else Offer(OfferAll(g, p, ms, k - 1, intent, allowed), p, ms[k - 1].hash, intent, allowed(k - 1))
  }

  /** The answers given for the `i`-th peer of the walk. */
  function AnswersFor(allowed: (nat, nat) -> bool, i: nat): nat -> bool {
    (j: nat) => allowed(i, j)
  }

  /** Every message offered to each of the first `n` peers of the walk. */
  function Propagated(g: State, order: seq<PeerId>, n: nat, ms: seq<Entry>, intent: Intent,
                      allowed: (nat, nat) -> bool): State
    requires n <= |order|
    decreases n
  {
    if n == 0 then g
    else OfferAll(Propagated(g, order, n - 1, ms, intent, allowed), order[n - 1], ms, |ms|, intent,
        AnswersFor(allowed, n - 1))
  }

  function OfTopic(ms: seq<Entry>, topic: Topic): seq<Entry> {
    if ms == [] then []
    else
      var init := OfTopic(ms[..|ms| - 1], topic);
      if ms[|ms| - 1].topic == topic then init + [ms[|ms| - 1]] else init
  }

  function Kept(ms: seq<Entry>, expired: nat -> bool): seq<Entry> {
    if ms == [] then []
    else
      var init := Kept(ms[..|ms| - 1], expired);
      if expired(|ms| - 1) then init else init + [ms[|ms| - 1]]
  }

  function IntentOf(force: bool): Intent {
    if force then ForcedBroadcast else Broadcast
  }

  /** What inserting `h` makes of the cache: `after`, when the limiter lets it in. */
  function Registered(g: State, entry: Entry, accepted: bool, after: set<Hash>): State {
    g.(cache := after, messages := if accepted then g.messages + [entry] else g.messages)
  }

  function GarbageCollected(g: State, expired: nat -> bool): State {
    Emit(g.(messages := Kept(g.messages, expired)), Collected(g.cache))
  }

  /** What a validator may do through its context, and the same calls from outside. */
  datatype Call =
    | BroadcastTopic(topic: Topic, force: bool, order: seq<PeerId>, allowed: (nat, nat) -> bool)
    | Multicast(entry: Entry, force: bool, accepted: bool, after: set<Hash>, order: seq<PeerId>,
        allowed: (nat, nat) -> bool)
    | SendTopic(who: PeerId, topic: Topic, force: bool, answers: nat -> bool)
    | ContextSend(who: PeerId, hash: Hash)

  function Called(g: State, c: Call): State {
    match c
    case BroadcastTopic(topic, force, order, allowed) =>
      Propagated(g, order, |order|, OfTopic(g.messages, topic), IntentOf(force), allowed)
    case Multicast(entry, force, accepted, after, order, allowed) =>
      Propagated(Registered(g, entry, accepted, after), order, |order|, [entry], IntentOf(force), allowed)
    case SendTopic(who, topic, force, answers) =>
      OfferAll(g, who, OfTopic(g.messages, topic), |OfTopic(g.messages, topic)|, IntentOf(force), answers)
    case ContextSend(who, hash) => Emit(g, Untracked(who, hash))
  }

  function CalledAll(g: State, calls: seq<Call>): State {
    if calls == [] then g else Called(CalledAll(g, calls[..|calls| - 1]), calls[|calls| - 1])
  }

  datatype Validation = ProcessAndKeep(topic: Topic) | ProcessAndDiscard(topic: Topic) | Discard

  /** One incoming message, with what validating and registering it would bring. */
  datatype Item = Item(hash: Hash, calls: seq<Call>, validation: Validation, accepted: bool, after: set<Hash>)

  function Received(g: State, who: PeerId, item: Item): State {
    var h := item.hash;
    if h in g.cache then
      if who in g.peers then Emit(g, Heard(who, h, if h in g.peers[who] then DuplicateGossip else NoReport)) else g
    else
      var g1 := CalledAll(g, item.calls);
      if item.validation.Discard? || who !in g1.peers then g1
      else
        var g2 := Emit(g1, Heard(who, h, GossipSuccess));
        if item.validation.ProcessAndDiscard? then g2
        else Registered(g2, Entry(h, item.validation.topic, Some(who)), item.accepted, item.after)
  }

  /** The message an incoming item hands to the upper layers, if any. */
  function ForwardedOf(g: State, who: PeerId, item: Item): Option<(Topic, Hash)> {
    if item.hash in g.cache || item.validation.Discard? || who !in CalledAll(g, item.calls).peers then None
    else Some((item.validation.topic, item.hash))
  }

  function ReceivedAll(g: State, who: PeerId, items: seq<Item>): State {
    if items == [] then g else Received(ReceivedAll(g, who, items[..|items| - 1]), who, items[|items| - 1])
  }

  function ForwardedAll(g: State, who: PeerId, items: seq<Item>): seq<(Topic, Hash)> {
    if items == [] then []
    else
      var init := items[..|items| - 1];
      var last := ForwardedOf(ReceivedAll(g, who, init), who, items[|items| - 1]);
      ForwardedAll(g, who, init) + if last.Some? then [last.value] else []
  }

  datatype Input =
    | Direct(call: Call)
    | Register(entry: Entry, accepted: bool, after: set<Hash>)
    | NewPeer(who: PeerId, calls: seq<Call>)
    | PeerDisconnected(who: PeerId, calls: seq<Call>)
    | Tick(expired: nat -> bool, due: bool, order: seq<PeerId>, allowed: (nat, nat) -> bool)
    | Incoming(who: PeerId, items: seq<Item>)
    | SendMessage(who: PeerId, hash: Hash)

  function Ticked(g: State, expired: nat -> bool, due: bool, order: seq<PeerId>, allowed: (nat, nat) -> bool): State {
    var g1 := GarbageCollected(g, expired);
    if due then Propagated(g1, order, |order|, g1.messages, PeriodicRebroadcast, allowed) else g1
  }

  function Next(g: State, input: Input): State {
    match input
    case Direct(c) => Called(g, c)
    case Register(entry, accepted, after) => Registered(g, entry, accepted, after)
    case NewPeer(who, calls) => CalledAll(Emit(g, Joined(who)), calls)
    case PeerDisconnected(who, calls) => Emit(CalledAll(g, calls), Left(who))
    case Tick(expired, due, order, allowed) => Ticked(g, expired, due, order, allowed)
    case Incoming(who, items) => ReceivedAll(g, who, items)
    case SendMessage(who, hash) => if who in g.peers then Emit(g, Addressed(who, hash)) else g
  }

  function Run(g: State, inputs: seq<Input>): State {
    if inputs == [] then g else Next(Run(g, inputs[..|inputs| - 1]), inputs[|inputs| - 1])
  }

  // ----- every step keeps the discipline

  lemma OfferKeepsSound(g: State, p: PeerId, h: Hash, intent: Intent, allowed: bool)
    requires Sound(g)
    ensures Sound(Offer(g, p, h, intent, allowed))
  {
    if p in g.peers && !(intent == Broadcast && h in g.peers[p]) && allowed {
      EmitKeepsSound(g, Sent(p, h, if intent == PeriodicRebroadcast && h !in g.peers[p] then Broadcast else intent));
    }
  }

  lemma {:induction false} OfferAllKeepsSound(g: State, p: PeerId, ms: seq<Entry>, k: nat, intent: Intent,
                                              allowed: nat -> bool)
    requires Sound(g) && k <= |ms|
    ensures Sound(OfferAll(g, p, ms, k, intent, allowed))
    decreases k
  {
    if k > 0 {
      OfferAllKeepsSound(g, p, ms, k - 1, intent, allowed);
      OfferKeepsSound(OfferAll(g, p, ms, k - 1, intent, allowed), p, ms[k - 1].hash, intent, allowed(k - 1));
    }
  }

  lemma {:induction false} PropagationKeepsSound(g: State, order: seq<PeerId>, n: nat, ms: seq<Entry>,
                                                 intent: Intent, allowed: (nat, nat) -> bool)
    requires Sound(g) && n <= |order|
    ensures Sound(Propagated(g, order, n, ms, intent, allowed))
    decreases n
  {
    if n > 0 {
      PropagationKeepsSound(g, order, n - 1, ms, intent, allowed);
      OfferAllKeepsSound(Propagated(g, order, n - 1, ms, intent, allowed), order[n - 1], ms, |ms|, intent,
                         AnswersFor(allowed, n - 1));
    }
  }

  lemma CallKeepsSound(g: State, c: Call)
    requires Sound(g)
    ensures Sound(Called(g, c))
  {
    hide After, Disciplined;
    match c
    case BroadcastTopic(topic, force, order, allowed) =>
      PropagationKeepsSound(g, order, |order|, OfTopic(g.messages, topic), IntentOf(force), allowed);
    case Multicast(entry, force, accepted, after, order, allowed) =>
      PropagationKeepsSound(Registered(g, entry, accepted, after), order, |order|, [entry], IntentOf(force), allowed);
    case SendTopic(who, topic, force, answers) =>
      OfferAllKeepsSound(g, who, OfTopic(g.messages, topic), |OfTopic(g.messages, topic)|, IntentOf(force), answers);
    case ContextSend(who, hash) => EmitKeepsSound(g, Untracked(who, hash));
  }

  lemma {:induction false} CallsKeepSound(g: State, calls: seq<Call>)
    requires Sound(g)
    ensures Sound(CalledAll(g, calls))
    decreases |calls|
  {
    hide Called, Sound;
    if calls != [] {
      CallsKeepSound(g, calls[..|calls| - 1]);
      CallKeepsSound(CalledAll(g, calls[..|calls| - 1]), calls[|calls| - 1]);
    }
  }

  lemma ReceiptKeepsSound(g: State, who: PeerId, item: Item)
    requires Sound(g)
    ensures Sound(Received(g, who, item))
  {
    hide After, Disciplined, CalledAll;
    var h := item.hash;
    if h in g.cache {
      if who in g.peers {
        EmitKeepsSound(g, Heard(who, h, if h in g.peers[who] then DuplicateGossip else NoReport));
      }
    } else {
      CallsKeepSound(g, item.calls);
      var g1 := CalledAll(g, item.calls);
      if !item.validation.Discard? && who in g1.peers {
        EmitKeepsSound(g1, Heard(who, h, GossipSuccess));
      }
    }
  }

  lemma {:induction false} ReceiptsKeepSound(g: State, who: PeerId, items: seq<Item>)
    requires Sound(g)
    ensures Sound(ReceivedAll(g, who, items))
    decreases |items|
  {
    hide Received, Sound;
    if items != [] {
      ReceiptsKeepSound(g, who, items[..|items| - 1]);
      ReceiptKeepsSound(ReceivedAll(g, who, items[..|items| - 1]), who, items[|items| - 1]);
    }
  }

  lemma StepKeepsSound(g: State, input: Input)
    requires Sound(g)
    ensures Sound(Next(g, input))
  {
    hide After, Disciplined, CalledAll, Called, ReceivedAll, Propagated;
    match input
    case Direct(c) => CallKeepsSound(g, c);
    case Register(_, _, _) =>
    case NewPeer(who, calls) =>
      EmitKeepsSound(g, Joined(who));
      CallsKeepSound(Emit(g, Joined(who)), calls);
    case PeerDisconnected(who, calls) =>
      CallsKeepSound(g, calls);
      EmitKeepsSound(CalledAll(g, calls), Left(who));
    case Tick(expired, due, order, allowed) =>
      var trimmed := g.(messages := Kept(g.messages, expired));
      EmitKeepsSound(trimmed, Collected(g.cache));
      var g1 := GarbageCollected(g, expired);
      PropagationKeepsSound(g1, order, |order|, g1.messages, PeriodicRebroadcast, allowed);
    case Incoming(who, items) => ReceiptsKeepSound(g, who, items);
    case SendMessage(who, hash) =>
      if who in g.peers {
        EmitKeepsSound(g, Addressed(who, hash));
      }
  }

  lemma {:induction false} RunKeepsSound(g: State, inputs: seq<Input>)
    requires Sound(g)
    ensures Sound(Run(g, inputs))
    decreases |inputs|
  {
    hide Next, Sound;
    if inputs != [] {
      RunKeepsSound(g, inputs[..|inputs| - 1]);
      StepKeepsSound(Run(g, inputs[..|inputs| - 1]), inputs[|inputs| - 1]);
    }
  }

  /**
   Over any run from a fresh node: within one session, two broadcasts of the same
   message to the same peer are separated by a garbage collection that found the
   message gone from the cache.
   */
  lemma NoRepeatedBroadcast(inputs: seq<Input>, i: nat, j: nat, p: PeerId, h: Hash)
    requires var log := Run(State(map[], [], {}, []), inputs).log;
             && i < j < |log|
             && log[i] == Sent(p, h, Broadcast) && log[j] == Sent(p, h, Broadcast)
             && forall k :: i < k < j ==> log[k] != Joined(p) && log[k] != Left(p)
    ensures var log := Run(State(map[], [], {}, []), inputs).log;
            exists k :: i < k < j && log[k].Collected? && h !in log[k].cache
  {
    var g := State(map[], [], {}, []);
    assert Sound(g);
    RunKeepsSound(g, inputs);
    RebroadcastNeedsForgetting(Run(g, inputs).log, i, j, p, h);
  }

  // ----- what a propagation achieves

  ghost predicate Distinct(order: seq<PeerId>) {
    forall i, j :: 0 <= i < j < |order| ==> order[i] != order[j]
  }

  lemma {:induction false} OfferAllReaches(g: State, p: PeerId, ms: seq<Entry>, k: nat, intent: Intent,
                                           allowed: nat -> bool, q: PeerId)
    requires k <= |ms|
    ensures var g' := OfferAll(g, p, ms, k, intent, allowed);
            && g'.peers.Keys == g.peers.Keys && g'.messages == g.messages && g'.cache == g.cache
            && (q in g.peers && q != p ==> g'.peers[q] == g.peers[q])
            && (p in g.peers ==>
                  g'.peers[p] == g.peers[p] + set j | 0 <= j < k && allowed(j) :: ms[j].hash)
    decreases k
  {
    if k > 0 {
      OfferAllReaches(g, p, ms, k - 1, intent, allowed, q);
      var g1 := OfferAll(g, p, ms, k - 1, intent, allowed);
      if p in g.peers {
        var before := set j | 0 <= j < k - 1 && allowed(j) :: ms[j].hash;
        var after := set j | 0 <= j < k && allowed(j) :: ms[j].hash;
        assert after == before + if allowed(k - 1) then {ms[k - 1].hash} else {};
        OfferLearns(g1, p, ms[k - 1].hash, intent, allowed(k - 1));
      }
    }
  }

  lemma OfferLearns(g: State, p: PeerId, h: Hash, intent: Intent, allowed: bool)
    requires p in g.peers
    ensures Offer(g, p, h, intent, allowed).peers[p] == g.peers[p] + if allowed then {h} else {}
  {
    if intent == Broadcast && h in g.peers[p] {
      assert g.peers[p] == g.peers[p] + {h};
    }
  }

  /**
   After a propagation each walked peer holds what it held and exactly the
   messages the validator allowed for it, whatever the intent; nothing else
   changes.
   */
  lemma {:induction false} PropagationReaches(g: State, order: seq<PeerId>, n: nat, ms: seq<Entry>, intent: Intent,
                                              allowed: (nat, nat) -> bool, q: PeerId)
    requires n <= |order| && q in g.peers && Distinct(order)
    ensures var g' := Propagated(g, order, n, ms, intent, allowed);
            && g'.peers.Keys == g.peers.Keys && g'.messages == g.messages && g'.cache == g.cache
            && (q !in order[..n] ==> g'.peers[q] == g.peers[q])
            && (forall i :: 0 <= i < n && order[i] == q ==>
                  g'.peers[q] == g.peers[q] + set j | 0 <= j < |ms| && allowed(i, j) :: ms[j].hash)
    decreases n
  {
    if n > 0 {
      PropagationReaches(g, order, n - 1, ms, intent, allowed, q);
      var g1 := Propagated(g, order, n - 1, ms, intent, allowed);
      OfferAllReaches(g1, order[n - 1], ms, |ms|, intent, AnswersFor(allowed, n - 1), q);
      assert order[..n] == order[..n - 1] + [order[n - 1]];
      if order[n - 1] == q {
        assert q !in order[..n - 1];
        assert (set j | 0 <= j < |ms| && AnswersFor(allowed, n - 1)(j) :: ms[j].hash)
            == set j | 0 <= j < |ms| && allowed(n - 1, j) :: ms[j].hash;
      }
    }
  }

  lemma {:induction false} NoPeerNoOffer(g: State, p: PeerId, ms: seq<Entry>, k: nat, intent: Intent,
                                         allowed: nat -> bool)
    requires k <= |ms| && p !in g.peers
    ensures OfferAll(g, p, ms, k, intent, allowed) == g
    decreases k
  {
    if k > 0 {
      NoPeerNoOffer(g, p, ms, k - 1, intent, allowed);
    }
  }

  lemma {:induction false} PropagationKeepsKeys(g: State, order: seq<PeerId>, n: nat, ms: seq<Entry>, intent: Intent,
                                                allowed: (nat, nat) -> bool)
    requires n <= |order|
    ensures Propagated(g, order, n, ms, intent, allowed).peers.Keys == g.peers.Keys
    decreases n
  {
    if n > 0 {
      PropagationKeepsKeys(g, order, n - 1, ms, intent, allowed);
      OfferAllReaches(Propagated(g, order, n - 1, ms, intent, allowed), order[n - 1], ms, |ms|, intent,
                      AnswersFor(allowed, n - 1), 0);
    }
  }

  // ----- which messages are offered

  /** A topic call offers exactly the stored messages of the topic, in the order they were stored. */
  lemma {:induction false} TopicPicks(ms: seq<Entry>, topic: Topic) returns (at: seq<nat>)
    ensures Increasing(at, |ms|) && OfTopic(ms, topic) == Picked(ms, at)
    ensures forall k :: 0 <= k < |ms| ==> (k in at <==> ms[k].topic == topic)
    decreases |ms|
  {
    at := [];
    if ms != [] {
      hide Increasing, Picked;
      var init, last := ms[..|ms| - 1], ms[|ms| - 1];
      assert ms == init + [last];
      var before := TopicPicks(init, topic);
      PickMore(init, last, before, last.topic == topic);
      at := if last.topic == topic then before + [|init|] else before;
    }
  }

  /** The positions below `n` that have not expired, in order. */
  ghost function FreshAt(expired: nat -> bool, n: nat): seq<nat> {
    if n == 0 then [] else FreshAt(expired, n - 1) + if expired(n - 1) then [] else [n - 1]
  }

  lemma {:induction false} FreshExactly(expired: nat -> bool, n: nat)
    ensures Increasing(FreshAt(expired, n), n)
    ensures forall k :: 0 <= k < n ==> (k in FreshAt(expired, n) <==> !expired(k))
    decreases n
  {
    if n > 0 {
      FreshExactly(expired, n - 1);
      var before := FreshAt(expired, n - 1);
      if !expired(n - 1) {
        assert (before + [n - 1])[|before|] == n - 1;
      }
    }
  }

  lemma FreshIncreases(expired: nat -> bool, n: nat)
    ensures Increasing(FreshAt(expired, n), n)
  {
    FreshExactly(expired, n);
  }

  lemma KeptMore(init: seq<Entry>, last: Entry, expired: nat -> bool)
    ensures Kept(init + [last], expired) == Kept(init, expired) + if expired(|init|) then [] else [last]
  {
    assert (init + [last])[..|init|] == init;
  }

  lemma FreshMore(expired: nat -> bool, n: nat)
    ensures FreshAt(expired, n + 1) == if !expired(n) then FreshAt(expired, n) + [n] else FreshAt(expired, n)
  {
  }

  lemma KeptPicksMore(init: seq<Entry>, last: Entry, expired: nat -> bool)
    requires Increasing(FreshAt(expired, |init|), |init|)
    requires Increasing(FreshAt(expired, |init| + 1), |init| + 1)
    requires Kept(init, expired) == Picked(init, FreshAt(expired, |init|))
    ensures Kept(init + [last], expired) == Picked(init + [last], FreshAt(expired, |init| + 1))
  {
    hide Kept, FreshAt, Picked, Increasing;
    KeptMore(init, last, expired);
    FreshMore(expired, |init|);
    PickMore(init, last, FreshAt(expired, |init|), !expired(|init|));
  }

  /** A collection keeps exactly the messages that have not expired, in order. */
  lemma {:induction false} KeptPicks(ms: seq<Entry>, expired: nat -> bool)
    ensures Increasing(FreshAt(expired, |ms|), |ms|)
    ensures Kept(ms, expired) == Picked(ms, FreshAt(expired, |ms|))
    decreases |ms|
  {
    FreshIncreases(expired, |ms|);
    if ms != [] {
      hide Kept, FreshAt, Picked, Increasing;
      var init, last := ms[..|ms| - 1], ms[|ms| - 1];
      KeptPicks(init, expired);
      KeptPicksMore(init, last, expired);
      assert ms == init + [last];
    }
  }

  // ----- what goes out

  /** The peer holds the `j`-th message when its turn comes. */
  ghost predicate Holds(g: State, p: PeerId, ms: seq<Entry>, j: nat, allowed: nat -> bool)
    requires p in g.peers && j < |ms|
  {
    ms[j].hash in g.peers[p] || exists i :: 0 <= i < j && allowed(i) && ms[i].hash == ms[j].hash
  }

  ghost predicate Goes(g: State, p: PeerId, ms: seq<Entry>, j: nat, intent: Intent, allowed: nat -> bool)
    requires j < |ms|
  {
    p in g.peers && allowed(j) && (intent == Broadcast ==> !Holds(g, p, ms, j, allowed))
  }

  /** The intent it goes out with: a rebroadcast of what the peer does not hold is a broadcast. */
  ghost function GoesAs(g: State, p: PeerId, ms: seq<Entry>, j: nat, intent: Intent, allowed: nat -> bool): Intent
    requires p in g.peers && j < |ms|
  {
    if intent == PeriodicRebroadcast && !Holds(g, p, ms, j, allowed) then Broadcast else intent
  }

  /** What goes out to a peer of the first `k` messages, in order. */
  ghost function SentTo(g: State, p: PeerId, ms: seq<Entry>, k: nat, intent: Intent, allowed: nat -> bool): seq<Event>
    requires k <= |ms|
    decreases k
  {
    if k == 0 then []
    else
      SentTo(g, p, ms, k - 1, intent, allowed) +
      if Goes(g, p, ms, k - 1, intent, allowed)
      then [Sent(p, ms[k - 1].hash, GoesAs(g, p, ms, k - 1, intent, allowed))] else []
  }

  lemma HoldsThen(g: State, p: PeerId, ms: seq<Entry>, k: nat, intent: Intent, allowed: nat -> bool)
    requires k < |ms| && p in g.peers
    ensures var g1 := OfferAll(g, p, ms, k, intent, allowed);
            p in g1.peers && (ms[k].hash in g1.peers[p] <==> Holds(g, p, ms, k, allowed))
  {
    OfferAllReaches(g, p, ms, k, intent, allowed, p);
  }

  lemma OfferOneMore(g: State, p: PeerId, ms: seq<Entry>, k: nat, intent: Intent, allowed: nat -> bool)
    requires k < |ms|
    ensures OfferAll(g, p, ms, k + 1, intent, allowed).log ==
            OfferAll(g, p, ms, k, intent, allowed).log +
            if Goes(g, p, ms, k, intent, allowed)
            then [Sent(p, ms[k].hash, GoesAs(g, p, ms, k, intent, allowed))] else []
  {
    OfferAllReaches(g, p, ms, k, intent, allowed, p);
    var g1 := OfferAll(g, p, ms, k, intent, allowed);
    assert OfferAll(g, p, ms, k + 1, intent, allowed) == Offer(g1, p, ms[k].hash, intent, allowed(k));
    if p in g.peers {
      HoldsThen(g, p, ms, k, intent, allowed);
    }
    hide OfferAll, Holds;
  }

  /**
   What is sent to one peer: the allowed messages in order, and with the broadcast
   intent only those the peer does not hold when their turn comes.
   */
  lemma {:induction false} OfferAllSends(g: State, p: PeerId, ms: seq<Entry>, k: nat, intent: Intent,
                                         allowed: nat -> bool)
    requires k <= |ms|
    ensures OfferAll(g, p, ms, k, intent, allowed).log == g.log + SentTo(g, p, ms, k, intent, allowed)
    decreases k
  {
    hide Goes, GoesAs;
    if k > 0 {
      OfferAllSends(g, p, ms, k - 1, intent, allowed);
      OfferOneMore(g, p, ms, k - 1, intent, allowed);
      hide OfferAll;
    }
  }

  /** One peer of the walk after the other. */
  ghost function SentAll(g: State, order: seq<PeerId>, n: nat, ms: seq<Entry>, intent: Intent,
                         allowed: (nat, nat) -> bool): seq<Event>
    requires n <= |order|
    decreases n
  {
    if n == 0 then []
    else
      SentAll(g, order, n - 1, ms, intent, allowed) +
      SentTo(g, order[n - 1], ms, |ms|, intent, AnswersFor(allowed, n - 1))
  }

  lemma {:induction false} SameSentTo(g: State, g1: State, p: PeerId, ms: seq<Entry>, k: nat, intent: Intent,
                                      allowed: nat -> bool)
    requires k <= |ms| && (p in g.peers <==> p in g1.peers)
    requires p in g.peers ==> g.peers[p] == g1.peers[p]
    ensures SentTo(g, p, ms, k, intent, allowed) == SentTo(g1, p, ms, k, intent, allowed)
    decreases k
  {
    if k > 0 {
      SameSentTo(g, g1, p, ms, k - 1, intent, allowed);
      assert p in g.peers ==> Holds(g, p, ms, k - 1, allowed) == Holds(g1, p, ms, k - 1, allowed);
      hide Holds;
    }
  }

  /** The next peer of the walk holds what it held before. */
  lemma StillTheSame(g: State, order: seq<PeerId>, n: nat, ms: seq<Entry>, intent: Intent, allowed: (nat, nat) -> bool)
    requires n < |order| && Distinct(order)
    ensures var g1, p := Propagated(g, order, n, ms, intent, allowed), order[n];
            (p in g.peers <==> p in g1.peers) && (p in g.peers ==> g.peers[p] == g1.peers[p])
  {
    hide Propagated;
    PropagationKeepsKeys(g, order, n, ms, intent, allowed);
    if order[n] in g.peers {
      PropagationReaches(g, order, n, ms, intent, allowed, order[n]);
    }
  }

  /** A propagation sends to one peer of the walk after the other, to each what goes out to it alone. */
  lemma {:induction false} PropagationSends(g: State, order: seq<PeerId>, n: nat, ms: seq<Entry>, intent: Intent,
                                            allowed: (nat, nat) -> bool)
    requires n <= |order| && Distinct(order)
    ensures Propagated(g, order, n, ms, intent, allowed).log == g.log + SentAll(g, order, n, ms, intent, allowed)
    decreases n
  {
    if n > 0 {
      PropagationSends(g, order, n - 1, ms, intent, allowed);
      StillTheSame(g, order, n - 1, ms, intent, allowed);
      var g1, p := Propagated(g, order, n - 1, ms, intent, allowed), order[n - 1];
      hide OfferAll, SentTo, Distinct;
      OfferAllSends(g1, p, ms, |ms|, intent, AnswersFor(allowed, n - 1));
      SameSentTo(g, g1, p, ms, |ms|, intent, AnswersFor(allowed, n - 1));
    }
  }

  // ----- what each input does

  /** A topic broadcast offers the stored messages of the topic to every peer and stores nothing. */
  lemma BroadcastSends(g: State, topic: Topic, force: bool, order: seq<PeerId>, allowed: (nat, nat) -> bool)
    returns (at: seq<nat>)
    requires Distinct(order)
    ensures Increasing(at, |g.messages|)
    ensures forall k :: 0 <= k < |g.messages| ==> (k in at <==> g.messages[k].topic == topic)
    ensures var g' := Called(g, BroadcastTopic(topic, force, order, allowed));
            var ms, intent := Picked(g.messages, at), if force then ForcedBroadcast else Broadcast;
            && g'.log == g.log + SentAll(g, order, |order|, ms, intent, allowed)
            && g'.messages == g.messages && g'.cache == g.cache
  {
    hide SentAll, Propagated, OfTopic;
    at := TopicPicks(g.messages, topic);
    PropagationSends(g, order, |order|, Picked(g.messages, at), IntentOf(force), allowed);
    PropagationFrame(g, order, |order|, Picked(g.messages, at), IntentOf(force), allowed);
  }

  lemma {:induction false} PropagationFrame(g: State, order: seq<PeerId>, n: nat, ms: seq<Entry>, intent: Intent,
                                            allowed: (nat, nat) -> bool)
    requires n <= |order|
    ensures var g' := Propagated(g, order, n, ms, intent, allowed);
            g'.messages == g.messages && g'.cache == g.cache && g.log <= g'.log
    decreases n
  {
    if n > 0 {
      PropagationFrame(g, order, n - 1, ms, intent, allowed);
      OfferFrame(Propagated(g, order, n - 1, ms, intent, allowed), order[n - 1], ms, |ms|, intent,
                 AnswersFor(allowed, n - 1));
    }
  }

  lemma OfferFrame(g: State, p: PeerId, ms: seq<Entry>, k: nat, intent: Intent, allowed: nat -> bool)
    requires k <= |ms|
    ensures var g' := OfferAll(g, p, ms, k, intent, allowed);
            g'.messages == g.messages && g'.cache == g.cache && g.log <= g'.log && g'.peers.Keys == g.peers.Keys
  {
    OfferAllReaches(g, p, ms, k, intent, allowed, p);
    OfferAllSends(g, p, ms, k, intent, allowed);
  }

  /** What goes out depends on the peers alone. */
  lemma {:induction false} SameSentAll(g: State, g1: State, order: seq<PeerId>, n: nat, ms: seq<Entry>,
                                       intent: Intent, allowed: (nat, nat) -> bool)
    requires n <= |order| && g.peers == g1.peers
    ensures SentAll(g, order, n, ms, intent, allowed) == SentAll(g1, order, n, ms, intent, allowed)
    decreases n
  {
    if n > 0 {
      SameSentAll(g, g1, order, n - 1, ms, intent, allowed);
      SameSentTo(g, g1, order[n - 1], ms, |ms|, intent, AnswersFor(allowed, n - 1));
    }
  }

  /** A multicast stores its message as the limiter lets it and offers it alone to every peer. */
  lemma MulticastSends(g: State, entry: Entry, force: bool, accepted: bool, after: set<Hash>, order: seq<PeerId>,
                       allowed: (nat, nat) -> bool)
    requires Distinct(order)
    ensures var g' := Called(g, Multicast(entry, force, accepted, after, order, allowed));
            var intent := if force then ForcedBroadcast else Broadcast;
            && g'.log == g.log + SentAll(g, order, |order|, [entry], intent, allowed)
            && g'.messages == g.messages + (if accepted then [entry] else []) && g'.cache == after
  {
    hide SentAll, Propagated;
    var g1 := Registered(g, entry, accepted, after);
    PropagationSends(g1, order, |order|, [entry], IntentOf(force), allowed);
    PropagationFrame(g1, order, |order|, [entry], IntentOf(force), allowed);
    SameSentAll(g, g1, order, |order|, [entry], IntentOf(force), allowed);
  }

  /** A topic send offers the stored messages of the topic to one peer. */
  lemma SendTopicSends(g: State, who: PeerId, topic: Topic, force: bool, answers: nat -> bool) returns (at: seq<nat>)
    ensures Increasing(at, |g.messages|)
    ensures forall k :: 0 <= k < |g.messages| ==> (k in at <==> g.messages[k].topic == topic)
    ensures var g' := Called(g, SendTopic(who, topic, force, answers));
            var ms, intent := Picked(g.messages, at), if force then ForcedBroadcast else Broadcast;
            && g'.log == g.log + SentTo(g, who, ms, |ms|, intent, answers)
            && g'.messages == g.messages && g'.cache == g.cache
  {
    hide OfTopic, SentTo, OfferAll;
    at := TopicPicks(g.messages, topic);
    var ms := Picked(g.messages, at);
    OfferAllSends(g, who, ms, |ms|, IntentOf(force), answers);
    OfferFrame(g, who, ms, |ms|, IntentOf(force), answers);
  }

  /** A tick forgets first, keeps the messages that have not expired, and then, if it is time, offers these to
      every peer as a rebroadcast. */
  lemma TickSends(g: State, expired: nat -> bool, due: bool, order: seq<PeerId>, allowed: (nat, nat) -> bool)
    requires Distinct(order)
    ensures Increasing(FreshAt(expired, |g.messages|), |g.messages|)
    ensures forall k :: 0 <= k < |g.messages| ==> (k in FreshAt(expired, |g.messages|) <==> !expired(k))
    ensures var g' := Ticked(g, expired, due, order, allowed);
            var ms := Picked(g.messages, FreshAt(expired, |g.messages|));
            var g1 := g.(peers := map p | p in g.peers :: g.peers[p] * g.cache);
            && g'.log == g.log + [Collected(g.cache)] +
                         (if due then SentAll(g1, order, |order|, ms, PeriodicRebroadcast, allowed) else [])
            && g'.messages == ms && g'.cache == g.cache
  {
    hide SentAll, Propagated, Kept;
    FreshExactly(expired, |g.messages|);
    KeptPicks(g.messages, expired);
    var ms := Picked(g.messages, FreshAt(expired, |g.messages|));
    var collected := GarbageCollected(g, expired);
    var g1 := g.(peers := map p | p in g.peers :: g.peers[p] * g.cache);
    PropagationSends(collected, order, |order|, ms, PeriodicRebroadcast, allowed);
    PropagationFrame(collected, order, |order|, ms, PeriodicRebroadcast, allowed);
    SameSentAll(g1, collected, order, |order|, ms, PeriodicRebroadcast, allowed);
  }

  lemma CallFrame(g: State, c: Call)
    ensures Called(g, c).peers.Keys == g.peers.Keys && g.log <= Called(g, c).log
  {
    hide Propagated, OfferAll, OfTopic;
    match c
    case BroadcastTopic(topic, force, order, allowed) =>
      PropagationFrame(g, order, |order|, OfTopic(g.messages, topic), IntentOf(force), allowed);
      PropagationKeepsKeys(g, order, |order|, OfTopic(g.messages, topic), IntentOf(force), allowed);
    case Multicast(entry, force, accepted, after, order, allowed) =>
      var g1 := Registered(g, entry, accepted, after);
      PropagationFrame(g1, order, |order|, [entry], IntentOf(force), allowed);
      PropagationKeepsKeys(g1, order, |order|, [entry], IntentOf(force), allowed);
    case SendTopic(who, topic, force, answers) =>
      OfferFrame(g, who, OfTopic(g.messages, topic), |OfTopic(g.messages, topic)|, IntentOf(force), answers);
    case ContextSend(_, _) =>
  }

  lemma OneCall(g: State, c: Call, who: PeerId, item: Item)
    ensures CalledAll(g, [c]) == Called(g, c) && ReceivedAll(g, who, [item]) == Received(g, who, item)
  {
    hide Called, Received;
    assert [c][..0] == [] && [item][..0] == [];
  }

  /** Incoming messages are taken in order. */
  lemma {:induction false} ReceiptsInOrder(g: State, who: PeerId, a: seq<Item>, b: seq<Item>)
    ensures ReceivedAll(g, who, a + b) == ReceivedAll(ReceivedAll(g, who, a), who, b)
    decreases |b|
  {
    hide Received;
    if b == [] {
      assert a + b == a;
    } else {
      var init := b[..|b| - 1];
      assert (a + b)[..|a + b| - 1] == a + init;
      ReceiptsInOrder(g, who, a, init);
    }
  }

  /** Calls of a validator are made in order; they register and unregister nobody. */
  lemma {:induction false} CallsInOrder(g: State, a: seq<Call>, b: seq<Call>)
    ensures CalledAll(g, a + b) == CalledAll(CalledAll(g, a), b)
    ensures CalledAll(g, a).peers.Keys == g.peers.Keys && g.log <= CalledAll(g, a).log
    decreases |a| + |b|, |b|
  {
    hide Called;
    if b == [] {
      assert a + b == a;
      if a != [] {
        var init := a[..|a| - 1];
        CallsInOrder(g, init, []);
        CallFrame(CalledAll(g, init), a[|a| - 1]);
      }
    } else {
      var init := b[..|b| - 1];
      assert (a + b)[..|a + b| - 1] == a + init;
      CallsInOrder(g, a, init);
    }
  }

  /** A context send goes out without being noted for the peer; a direct message is noted, if the peer is there. */
  lemma DirectSends(g: State, who: PeerId, hash: Hash)
    ensures var g' := Called(g, ContextSend(who, hash));
            g'.peers == g.peers && g'.messages == g.messages && g'.log == g.log + [Untracked(who, hash)]
    ensures var g' := Next(g, SendMessage(who, hash));
            && g'.messages == g.messages
            && g'.log == g.log + if who in g.peers then [Addressed(who, hash)] else []
  {
  }

  /** A session begins before the validator is called and ends after it. */
  lemma SessionEdges(g: State, who: PeerId, calls: seq<Call>)
    ensures g.log + [Joined(who)] <= Next(g, NewPeer(who, calls)).log
    ensures Next(g, NewPeer(who, calls)).peers.Keys == g.peers.Keys + {who}
    ensures Next(g, PeerDisconnected(who, calls)).log == CalledAll(g, calls).log + [Left(who)]
    ensures Next(g, PeerDisconnected(who, calls)).peers.Keys == g.peers.Keys - {who}
  {
    hide CalledAll;
    CallsInOrder(Emit(g, Joined(who)), calls, []);
    CallsInOrder(g, calls, []);
  }

  /**
   What an incoming message does. One that is in the cache is noted, as a
   duplicate exactly when the peer was told of it or told it, and not forgotten
   since; one that is not is validated, and if it passes and the peer is
   registered it is noted as a success and kept as the verdict says.
   */
  lemma ReceiptIsDecided(g: State, who: PeerId, item: Item)
    requires Sound(g)
    ensures var g', h := Received(g, who, item), item.hash;
            if h in g.cache then
              && g'.messages == g.messages && g'.cache == g.cache
              && (who !in g.peers ==> g' == g)
              && (who in g.peers && (exists i :: ToldAt(g.log, i, who, h)) ==>
                    g'.log == g.log + [Heard(who, h, DuplicateGossip)])
              && (who in g.peers && !(exists i :: ToldAt(g.log, i, who, h)) ==>
                    g'.log == g.log + [Heard(who, h, NoReport)])
            else
              var g1 := CalledAll(g, item.calls);
              if item.validation.Discard? || who !in g.peers then g' == g1
              else
                && g'.log == g1.log + [Heard(who, h, GossipSuccess)]
                && (item.validation.ProcessAndDiscard? ==> g'.messages == g1.messages && g'.cache == g1.cache)
                && (item.validation.ProcessAndKeep? ==>
                      && g'.cache == item.after
                      && g'.messages == g1.messages +
                         if item.accepted then [Entry(h, item.validation.topic, Some(who))] else [])
  {
    hide CalledAll, After, Disciplined, ToldAt;
    KnownMeansTold(g.log, who, item.hash);
    CallsInOrder(g, item.calls, []);
  }

  lemma {:induction false} ReceiptsKeepKeys(g: State, who: PeerId, items: seq<Item>)
    ensures ReceivedAll(g, who, items).peers.Keys == g.peers.Keys
    decreases |items|
  {
    if items != [] {
      hide CalledAll;
      ReceiptsKeepKeys(g, who, items[..|items| - 1]);
      CallsInOrder(ReceivedAll(g, who, items[..|items| - 1]), items[|items| - 1].calls, []);
    }
  }

  /** The item is handed to the upper layers: its peer is registered, it is new when its turn comes, and valid. */
  ghost predicate HandedUp(g: State, who: PeerId, items: seq<Item>, n: nat)
    requires n < |items|
  {
    && who in g.peers && !items[n].validation.Discard?
    && items[n].hash !in ReceivedAll(g, who, items[..n]).cache
  }

  /** Exactly those items are handed up, in order, each with the topic its verdict gave. */
  lemma {:induction false} ForwardedExactly(g: State, who: PeerId, items: seq<Item>) returns (at: seq<nat>)
    ensures Increasing(at, |items|)
    ensures forall n :: 0 <= n < |items| ==> (n in at <==> HandedUp(g, who, items, n))
    ensures |ForwardedAll(g, who, items)| == |at|
    ensures forall m :: 0 <= m < |at| ==>
              && !items[at[m]].validation.Discard?
              && ForwardedAll(g, who, items)[m] == (items[at[m]].validation.topic, items[at[m]].hash)
    decreases |items|
  {
    at := [];
    if items != [] {
      var n := |items| - 1;
      var init := items[..n];
      at := ForwardedExactly(g, who, init);
      ReceiptsKeepKeys(g, who, init);
      CallsInOrder(ReceivedAll(g, who, init), items[n].calls, []);
      forall k | 0 <= k < n
        ensures HandedUp(g, who, items, k) <==> HandedUp(g, who, init, k)
      {
        assert init[..k] == items[..k];
      }
      hide ReceivedAll, CalledAll;
      if HandedUp(g, who, items, n) {
        assert (at + [n])[|at|] == n;
        at := at + [n];
      }
    }
  }

  // ----- the object

  /** A walk of the peer table: every peer once. */
  ghost predicate Walk(order: seq<PeerId>, peers: Peers) {
    (forall p :: p in order <==> p in peers) && Distinct(order)
  }

  /** The walks a call makes are walks of the table it finds. */
  ghost predicate CallFits(g: State, c: Call) {
    match c
    case BroadcastTopic(_, _, order, _) => Walk(order, g.peers)
    case Multicast(_, _, _, _, order, _) => Walk(order, g.peers)
    case _ => true
  }

  ghost predicate CallsFit(g: State, calls: seq<Call>) {
    calls == [] || (CallsFit(g, calls[..|calls| - 1]) &&
        CallFits(CalledAll(g, calls[..|calls| - 1]), calls[|calls| - 1]))
  }

  lemma {:induction false} CallsFitPrefix(g: State, calls: seq<Call>, n: nat)
    requires CallsFit(g, calls) && n < |calls|
    ensures CallFits(CalledAll(g, calls[..n]), calls[n])
    decreases |calls|
  {
    var init := calls[..|calls| - 1];
    if n < |init| {
      CallsFitPrefix(g, init, n);
      assert init[..n] == calls[..n];
    }
  }

  ghost predicate ItemsFit(g: State, who: PeerId, items: seq<Item>) {
    forall n :: 0 <= n < |items| ==> CallsFit(ReceivedAll(g, who, items[..n]), items[n].calls)
  }

  class ConsensusGossip {
    var peers: Peers
    var messages: seq<Entry>
    var knownMessages: set<Hash>
    ghost var log: seq<Event>

    constructor ()
      ensures Value() == State(map[], [], {}, [])
    {
      peers, messages, knownMessages, log := map[], [], {}, [];
    }

    ghost function Value(): State
      reads this
    {
      State(peers, messages, knownMessages, log)
    }

    /** The loop over one peer's messages, shared by propagation and topic sends. */
    method OfferMessages(p: PeerId, ms: seq<Entry>, intent: Intent, allowed: nat -> bool)
      requires p in peers
      modifies this`peers, this`log
      ensures Value() == OfferAll(old(Value()), p, ms, |ms|, intent, allowed)
    {
      ghost var g := Value();
      var j := 0;
      while j < |ms|
        invariant j <= |ms| && p in peers
        invariant Value() == OfferAll(g, p, ms, j, intent, allowed)
      {
        var h := ms[j].hash;
        var known := h in peers[p];
        if !(intent == Broadcast && known) && allowed(j) {
          var chosen := if intent == PeriodicRebroadcast && !known then Broadcast else intent;
          peers := peers[p := peers[p] + {h}];
          log := log + [Sent(p, h, chosen)];
        }
        j := j + 1;
      }
    }

    method Propagate(order: seq<PeerId>, ms: seq<Entry>, intent: Intent, allowed: (nat, nat) -> bool)
      requires Walk(order, peers)
      modifies this`peers, this`log
      ensures Value() == Propagated(old(Value()), order, |order|, ms, intent, allowed)
    {
      ghost var g := Value();
      var i := 0;
      while i < |order|
        invariant i <= |order| && messages == g.messages && knownMessages == g.cache
        invariant Value() == Propagated(g, order, i, ms, intent, allowed)
      {
        PropagationKeepsKeys(g, order, i, ms, intent, allowed);
        OfferMessages(order[i], ms, intent, AnswersFor(allowed, i));
        i := i + 1;
      }
    }

    method RetainMessages(expired: nat -> bool)
      modifies this`messages
      ensures messages == Kept(old(messages), expired)
    {
      var kept: seq<Entry> := [];
      var i := 0;
      while i < |messages|
        invariant i <= |messages|
        invariant kept == Kept(messages[..i], expired)
      {
        assert messages[..i + 1][..i] == messages[..i];
        if !expired(i) {
          kept := kept + [messages[i]];
        }
        i := i + 1;
      }
      assert messages[..i] == messages;
      messages := kept;
    }

    method ForgetUncached(order: seq<PeerId>)
      requires Walk(order, peers)
      modifies this`peers, this`log
      ensures Value() == Emit(old(Value()), Collected(knownMessages))
    {
      ghost var before := peers;
      var i := 0;
      while i < |order|
        invariant i <= |order| && peers.Keys == before.Keys
        invariant log == old(log)
        invariant forall p :: p in before ==>
                    peers[p] == if p in order[..i] then before[p] * knownMessages else before[p]
      {
        assert order[..i + 1] == order[..i] + [order[i]];
        var known := set h | h in peers[order[i]] && h in knownMessages;
        assert known == before[order[i]] * knownMessages;
        peers := peers[order[i] := known];
        i := i + 1;
      }
      assert order[..i] == order;
      log := log + [Collected(knownMessages)];
    }

    method CollectGarbage(expired: nat -> bool, order: seq<PeerId>)
      requires Walk(order, peers)
      modifies this
      ensures Value() == GarbageCollected(old(Value()), expired)
    {
      RetainMessages(expired);
      ForgetUncached(order);
    }

    method Tick(expired: nat -> bool, due: bool, order: seq<PeerId>, allowed: (nat, nat) -> bool)
      requires Walk(order, peers)
      modifies this
      ensures Value() == Ticked(old(Value()), expired, due, order, allowed)
    {
      CollectGarbage(expired, order);
      if due {
        Propagate(order, messages, PeriodicRebroadcast, allowed);
      }
    }

    method RegisterMessage(entry: Entry, accepted: bool, after: set<Hash>)
      modifies this`messages, this`knownMessages
      ensures Value() == Registered(old(Value()), entry, accepted, after)
    {
      knownMessages := after;
      if accepted {
        messages := messages + [entry];
      }
    }

    /** The messages kept under one topic. */
    method MessagesFor(topic: Topic) returns (r: seq<Entry>)
      ensures r == OfTopic(messages, topic)
    {
      r := [];
      var i := 0;
      while i < |messages|
        invariant i <= |messages|
        invariant r == OfTopic(messages[..i], topic)
      {
        assert messages[..i + 1][..i] == messages[..i];
        if messages[i].topic == topic {
          r := r + [messages[i]];
        }
        i := i + 1;
      }
      assert messages[..i] == messages;
    }

    method Perform(c: Call)
      requires CallFits(Value(), c)
      modifies this
      ensures Value() == Called(old(Value()), c)
    {
      match c
      case BroadcastTopic(topic, force, order, allowed) =>
        var ms := MessagesFor(topic);
        Propagate(order, ms, IntentOf(force), allowed);
      case Multicast(entry, force, accepted, after, order, allowed) =>
        RegisterMessage(entry, accepted, after);
        Propagate(order, [entry], IntentOf(force), allowed);
      case SendTopic(who, topic, force, answers) =>
        var ms := MessagesFor(topic);
        if who in peers {
          OfferMessages(who, ms, IntentOf(force), answers);
        } else {
          NoPeerNoOffer(Value(), who, ms, |ms|, IntentOf(force), answers);
        }
      case ContextSend(who, hash) =>
        log := log + [Untracked(who, hash)];
    }

    method PerformAll(calls: seq<Call>)
      requires CallsFit(Value(), calls)
      modifies this
      ensures Value() == CalledAll(old(Value()), calls)
    {
      ghost var g := Value();
      var i := 0;
      while i < |calls|
        invariant i <= |calls|
        invariant Value() == CalledAll(g, calls[..i])
      {
        assert calls[..i + 1][..i] == calls[..i];
        CallsFitPrefix(g, calls, i);
        Perform(calls[i]);
        i := i + 1;
      }
      assert calls[..i] == calls;
    }

    method AddPeer(who: PeerId, calls: seq<Call>)
      requires CallsFit(Emit(Value(), Joined(who)), calls)
      modifies this
      ensures Value() == Next(old(Value()), NewPeer(who, calls))
    {
      peers := peers[who := {}];
      log := log + [Joined(who)];
      PerformAll(calls);
    }

    method RemovePeer(who: PeerId, calls: seq<Call>)
      requires CallsFit(Value(), calls)
      modifies this
      ensures Value() == Next(old(Value()), PeerDisconnected(who, calls))
    {
      PerformAll(calls);
      peers := peers - {who};
      log := log + [Left(who)];
    }

    method SendDirect(who: PeerId, hash: Hash)
      modifies this
      ensures Value() == Next(old(Value()), SendMessage(who, hash))
    {
      if who in peers {
        peers := peers[who := peers[who] + {hash}];
        log := log + [Addressed(who, hash)];
      }
    }

    method ReceiveOne(who: PeerId, item: Item) returns (forward: Option<(Topic, Hash)>)
      requires CallsFit(Value(), item.calls)
      modifies this
      ensures Value() == Received(old(Value()), who, item)
      ensures forward == ForwardedOf(old(Value()), who, item)
    {
      var h := item.hash;
      if h in knownMessages {
        if who in peers {
          var duplicate := h in peers[who];
          peers := peers[who := peers[who] + {h}];
          log := log + [Heard(who, h, if duplicate then DuplicateGossip else NoReport)];
        }
        return None;
      }
      PerformAll(item.calls);
      if item.validation.Discard? || who !in peers {
        return None;
      }
      peers := peers[who := peers[who] + {h}];
      log := log + [Heard(who, h, GossipSuccess)];
      if item.validation.ProcessAndKeep? {
        RegisterMessage(Entry(h, item.validation.topic, Some(who)), item.accepted, item.after);
      }
      forward := Some((item.validation.topic, h));
    }

    method OnIncoming(who: PeerId, items: seq<Item>) returns (toForward: seq<(Topic, Hash)>)
      requires ItemsFit(Value(), who, items)
      modifies this
      ensures Value() == ReceivedAll(old(Value()), who, items)
      ensures toForward == ForwardedAll(old(Value()), who, items)
    {
      ghost var g := Value();
      toForward := [];
      var i := 0;
      while i < |items|
        invariant i <= |items|
        invariant Value() == ReceivedAll(g, who, items[..i])
        invariant toForward == ForwardedAll(g, who, items[..i])
      {
        assert items[..i + 1][..i] == items[..i];
        var forward := ReceiveOne(who, items[i]);
        if forward.Some? {
          toForward := toForward + [forward.value];
        }
        i := i + 1;
      }
      assert items[..i] == items;
    }
  }
}
