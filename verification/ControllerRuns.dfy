/**
 Every step of the protocol controller keeps its invariant, so every run does.
 */
module ControllerRuns {
  import opened Wrappers
  import opened PeerStore
  import opened ProtocolController

  // ----- single changes

  /** Removing a regular node frees exactly its slot. */
  lemma DropNodeMatches(c: Controller, p: PeerId)
    requires SlotsMatch(c)
    ensures SlotsMatch(DropNode(c, p))
  {
    if p in c.nodes {
      CountRemove(c.nodes, p, Inbound);
      CountRemove(c.nodes, p, Outbound);
    }
  }

  lemma AddNodeMatches(c: Controller, p: PeerId, d: Direction)
    requires SlotsMatch(c) && p !in c.nodes
    ensures SlotsMatch(TakeSlot(c.(nodes := c.nodes[p := d]), d))
  {
    CountInsert(c.nodes, p, d, Inbound);
    CountInsert(c.nodes, p, d, Outbound);
  }

  // ----- slot allocation

  lemma {:induction false} ConnectReservedKeepsSound(c: Controller, order: seq<PeerId>, banned: set<PeerId>)
    requires Sound(c)
    ensures var c' := ConnectReserved(c, order, banned);
            && Sound(c')
            && c' == c.(reserved := c'.reserved, history := c'.history)
            && c'.reserved.Keys == c.reserved.Keys
            && (forall p :: p in c.reserved ==>
                  c'.reserved[p] == if c.reserved[p].Connected? || p in banned || p !in order then c.reserved[p]
                                    else Connected(Outbound))
    decreases |order|
  {
    hide Count, Replay, Disciplined;
    if order != [] {
      var p := order[0];
      if p in c.reserved && c.reserved[p].NotConnected? && p !in banned {
        var c1 := Send(c.(reserved := c.reserved[p := Connected(Outbound)]), Connect(p));
        Appended(c.(reserved := c.reserved[p := Connected(Outbound)]), Sent(Connect(p)));
        assert ConnectedPeers(c1) == ConnectedPeers(c) + {p};
        assert Sound(c1);
        ConnectReservedKeepsSound(c1, order[1..], banned);
      } else {
        ConnectReservedKeepsSound(c, order[1..], banned);
      }
    }
  }

  lemma {:induction false} ConnectReservedFrame(c: Controller, order: seq<PeerId>, banned: set<PeerId>)
    ensures var c' := ConnectReserved(c, order, banned);
            c' == c.(reserved := c'.reserved, history := c'.history) && c'.reserved.Keys == c.reserved.Keys
    decreases |order|
  {
    if order != [] {
      var p := order[0];
      var wakes := p in c.reserved && c.reserved[p].NotConnected? && p !in banned;
      var c1 := if wakes then Send(c.(reserved := c.reserved[p := Connected(Outbound)]), Connect(p)) else c;
      ConnectReservedFrame(c1, order[1..], banned);
    }
  }

  /** Peers that are all distinct and unknown to the controller. */
  ghost predicate Strangers(c: Controller, peers: seq<PeerId>) {
    && Distinct(peers)
    && (forall p :: p in peers ==> p !in c.nodes && p !in c.reserved)
  }

  lemma {:induction false} ConnectAllKeepsSound(c: Controller, peers: seq<PeerId>)
    requires Sound(c) && Strangers(c, peers) && !c.reservedOnly && |peers| <= c.maxOut - c.numOut
    ensures var c' := ConnectAll(c, peers);
            && Sound(c')
            && c' == c.(numOut := c.numOut + |peers|, nodes := c'.nodes, history := c'.history)
            && c'.nodes.Keys == c.nodes.Keys + (set p | p in peers)
            && (forall p :: p in c.nodes ==> c'.nodes[p] == c.nodes[p])
    decreases |peers|
  {
    hide Count, Replay, Disciplined;
    if peers != [] {
      var p := peers[0];
      var c0 := TakeSlot(c.(nodes := c.nodes[p := Outbound]), Outbound);
      var c1 := Send(c0, Connect(p));
      assert p in peers;
      AddNodeMatches(c, p, Outbound);
      Appended(c0, Sent(Connect(p)));
      assert ConnectedPeers(c1) == ConnectedPeers(c) + {p};
      assert p !in ConnectedPeers(c);
      assert Sound(c1);
      assert forall q :: q in peers[1..] ==> q in peers && q != p;
      ConnectAllKeepsSound(c1, peers[1..]);
    }
  }

  lemma {:induction false} UnknownKeepsAll(c: Controller, candidates: seq<PeerId>)
    requires forall p :: p in candidates ==> p !in c.nodes && p !in c.reserved
    ensures Unknown(c, candidates) == candidates
  {
    if candidates != [] {
      assert candidates[0] in candidates;
      UnknownKeepsAll(c, candidates[1..]);
    }
  }

  /** The peers a slot allocation picks beyond the reserved ones. */
  ghost function Chosen(c: Controller, env: Env): seq<PeerId> {
    if c.reservedOnly || c.numOut >= c.maxOut then [] else env.candidates
  }

  lemma AllocSlotsKeepsSound(c: Controller, env: Env)
    requires Sound(c) && EnvFits(c, env)
    ensures var c' := AllocSlots(c, env);
            && Sound(c')
            && c'.reserved.Keys == c.reserved.Keys && c'.reservedOnly == c.reservedOnly
            && c'.maxIn == c.maxIn && c'.maxOut == c.maxOut && c'.numIn == c.numIn
            && c'.numOut == c.numOut + |Chosen(c, env)|
            && c'.nodes.Keys == c.nodes.Keys + (set p | p in Chosen(c, env))
            && (forall p :: p in c.nodes ==> c'.nodes[p] == c.nodes[p])
            && (forall p :: p in c.reserved ==>
                  c'.reserved[p] == if c.reserved[p].Connected? || p in env.banned then c.reserved[p]
                                    else Connected(Outbound))
  {
    hide Sound, Outranks;
    ConnectReservedKeepsSound(c, env.order, env.banned);
    var c1 := ConnectReserved(c, env.order, env.banned);
    if !c.reservedOnly && c.numOut < c.maxOut {
      assert forall p :: p in env.candidates ==> Eligible(env.store, c.reserved.Keys + c.nodes.Keys, p);
      UnknownKeepsAll(c1, env.candidates);
      assert Take(env.candidates, c1.maxOut - c1.numOut) == env.candidates;
      ConnectAllKeepsSound(c1, env.candidates);
    }
  }

  lemma {:induction false} UnknownPicks(c: Controller, candidates: seq<PeerId>, p: PeerId)
    requires Distinct(candidates)
    ensures p in Unknown(c, candidates) <==> p in candidates && p !in c.reserved && p !in c.nodes
    ensures Distinct(Unknown(c, candidates))
  {
    if candidates != [] {
      UnknownPicks(c, candidates[1..], p);
      UnknownPicks(c, candidates[1..], candidates[0]);
      var rest := Unknown(c, candidates[1..]);
      assert forall i :: 0 <= i < |rest| ==> rest[i] in rest;
    }
  }

  /** Even where a store returns peers it was asked to ignore, or more than there are slots for, an allocation
      keeps the invariant: it connects strangers alone, and no more than fit. */
  lemma AnyCandidatesKeepSound(c: Controller, env: Env)
    requires Sound(c) && Distinct(env.candidates)
    ensures Sound(AllocSlots(c, env))
  {
    hide Sound;
    ConnectReservedKeepsSound(c, env.order, env.banned);
    var c1 := ConnectReserved(c, env.order, env.banned);
    if !c1.reservedOnly && c1.numOut < c1.maxOut {
      var known := Unknown(c1, env.candidates);
      UnknownPicks(c1, env.candidates, 0);
      var taken := Take(known, c1.maxOut - c1.numOut);
      forall p | p in taken
        ensures p !in c1.nodes && p !in c1.reserved
      {
        assert p in known;
        UnknownPicks(c1, env.candidates, p);
      }
      ConnectAllKeepsSound(c1, taken);
    }
  }

  /** A slot allocation connects exactly the reserved peers that are not banned and fills the free slots: outside
      reserved-only mode either no slot is left or every known unbanned peer is regular or reserved.
      The peers it adds are not outranked by any eligible peer it left out. */
  lemma AllocSlotsFillsSlots(c: Controller, env: Env)
    requires Sound(c) && EnvFits(c, env)
    ensures var c' := AllocSlots(c, env);
            && Sound(c')
            && c'.reserved.Keys == c.reserved.Keys
            && (forall p :: p in c.reserved ==>
                  c'.reserved[p] == if c.reserved[p].Connected? || p in env.banned then c.reserved[p]
                                    else Connected(Outbound))
            && (c.reservedOnly || c'.numOut == c.maxOut ||
                forall p :: p in env.store && !PeerIsBanned(env.store, p) ==> p in c'.nodes || p in c'.reserved)
            && (forall p, q :: p in c'.nodes && p !in c.nodes && LeftOut(c', env, q) ==> Outranks(env.store, p, q))
  {
    AllocSlotsKeepsSound(c, env);
    assert c.numOut <= c.maxOut;
    var c' := AllocSlots(c, env);
    hide Sound, Outranks, AllocSlots;
    if !c.reservedOnly && c.numOut < c.maxOut {
      var ignored := c.reserved.Keys + c.nodes.Keys;
      forall q | LeftOut(c', env, q)
        ensures Eligible(env.store, ignored, q) && q !in env.candidates
      {
      }
    }
  }

  /** A known, unbanned peer that is in neither table. */
  ghost predicate LeftOut(c: Controller, env: Env, q: PeerId) {
    q in env.store && !PeerIsBanned(env.store, q) && q !in c.nodes && q !in c.reserved
  }

  // ----- actions

  lemma AddReservedKeepsSound(c: Controller, p: PeerId, env: Env)
    requires Sound(c)
    requires p !in c.reserved && p !in c.nodes ==> EnvFits(c.(reserved := c.reserved[p := NotConnected]), env)
    ensures var c' := AddReservedPeer(c, p, env);
            && Sound(c') && c'.reserved.Keys == c.reserved.Keys + {p}
  {
    hide Count, Replay, Disciplined;
    if p in c.reserved {
    } else if p in c.nodes {
      DropNodeMatches(c, p);
      assert ConnectedPeers(AddReservedPeer(c, p, env)) == ConnectedPeers(c);
    } else {
      var c1 := c.(reserved := c.reserved[p := NotConnected]);
      assert ConnectedPeers(c1) == ConnectedPeers(c);
      assert Sound(c1);
      AllocSlotsKeepsSound(c1, env);
    }
  }

  lemma RemoveReservedKeepsSound(c: Controller, p: PeerId)
    requires Sound(c)
    ensures var c' := RemoveReservedPeer(c, p);
            && Sound(c') && c'.reserved.Keys == c.reserved.Keys - {p}
  {
    hide Count, Replay, Disciplined;
    if p in c.reserved {
      var c1 := c.(reserved := c.reserved - {p});
      match c.reserved[p]
      case NotConnected =>
        assert ConnectedPeers(c1) == ConnectedPeers(c);
      case Connected(d) =>
        assert ConnectedPeers(c1) == ConnectedPeers(c) - {p};
        Appended(c1, Sent(Drop(p)));
        AddNodeMatches(c1, p, d);
        assert ConnectedPeers(c1.(nodes := c1.nodes[p := d])) == ConnectedPeers(c);
    }
  }

  /** Each insertion that needs a slot allocation gets an environment for the state it happens in. */
  ghost predicate EnvsFit(c: Controller, peers: seq<PeerId>, envs: seq<Env>)
    requires |peers| == |envs|
    decreases |peers|
  {
    peers == [] ||
    (&& (peers[0] !in c.reserved && peers[0] !in c.nodes ==>
           EnvFits(c.(reserved := c.reserved[peers[0] := NotConnected]), envs[0]))
     && EnvsFit(AddReservedPeer(c, peers[0], envs[0]), peers[1..], envs[1..]))
  }

  lemma {:induction false} AddAllKeepsSound(c: Controller, peers: seq<PeerId>, envs: seq<Env>)
    requires |peers| == |envs| && Sound(c) && EnvsFit(c, peers, envs)
    ensures var c' := AddAll(c, peers, envs);
            && Sound(c') && c'.reserved.Keys == c.reserved.Keys + (set p | p in peers)
    decreases |peers|
  {
    hide Sound, EnvFits, AddReservedPeer;
    if peers != [] {
      AddReservedKeepsSound(c, peers[0], envs[0]);
      AddAllKeepsSound(AddReservedPeer(c, peers[0], envs[0]), peers[1..], envs[1..]);
    }
  }

  lemma {:induction false} RemoveAllKeepsSound(c: Controller, peers: seq<PeerId>)
    requires Sound(c)
    ensures var c' := RemoveAll(c, peers);
            && Sound(c') && c'.reserved.Keys == c.reserved.Keys - (set p | p in peers)
    decreases |peers|
  {
    hide Sound, RemoveReservedPeer;
    if peers != [] {
      RemoveReservedKeepsSound(c, peers[0]);
      RemoveAllKeepsSound(RemoveReservedPeer(c, peers[0]), peers[1..]);
    }
  }

  /** Whatever the slot allocations in between do, the reserved set ends up as exactly the given one. */
  lemma SetReservedPeersIsExact(c: Controller, ids: set<PeerId>, toInsert: seq<PeerId>, envs: seq<Env>,
                                toRemove: seq<PeerId>)
    requires Sound(c) && |toInsert| == |envs|
    requires Enumerates(toInsert, ids - c.reserved.Keys) && Enumerates(toRemove, c.reserved.Keys - ids)
    requires EnvsFit(c, toInsert, envs)
    ensures Sound(SetReservedPeers(c, toInsert, envs, toRemove))
    ensures SetReservedPeers(c, toInsert, envs, toRemove).reserved.Keys == ids
  {
    hide Sound, EnvsFit, AddAll, RemoveAll;
    AddAllKeepsSound(c, toInsert, envs);
    RemoveAllKeepsSound(AddAll(c, toInsert, envs), toRemove);
  }

  lemma NoNodes(nodes: map<PeerId, Direction>)
    requires forall p :: p !in nodes
    ensures nodes == map[] && nodes.Keys == {}
    ensures Count(nodes, Inbound) == Count(nodes, Outbound) == 0
  {
    assert Having(nodes, Inbound) == {} && Having(nodes, Outbound) == {};
  }

  /** Dropping nodes one by one: the counters follow the nodes not yet dropped. */
  lemma {:induction false} DropAllEmpties(c: Controller, order: seq<PeerId>, left: map<PeerId, Direction>)
    requires left.Keys <= c.nodes.Keys && (forall p :: p in left ==> left[p] == c.nodes[p])
    requires Enumerates(order, left.Keys)
    requires c.numIn == Count(left, Inbound) && c.numOut == Count(left, Outbound)
    requires Disciplined(c.history) && Replay(c.history).pending == None
    requires left.Keys <= Replay(c.history).connected
    ensures var c' := DropAll(c, order);
            && c' == c.(numIn := 0, numOut := 0, history := c'.history)
            && Disciplined(c'.history)
            && Replay(c'.history) == View(Replay(c.history).connected - left.Keys, None)
    decreases |order|
  {
    hide Replay, Disciplined, Count;
    if order == [] {
      NoNodes(left);
    } else {
      var p := order[0];
      assert p in order;
      var c1 := Send(FreeSlot(c, c.nodes[p]), Drop(p));
      Appended(FreeSlot(c, c.nodes[p]), Sent(Drop(p)));
      CountRemove(left, p, Inbound);
      CountRemove(left, p, Outbound);
      assert forall q :: q in order[1..] <==> q in order && q != p;
      DropAllEmpties(c1, order[1..], left - {p});
    }
  }

  lemma SetReservedOnlyKeepsSound(c: Controller, flag: bool, order: seq<PeerId>, env: Env)
    requires Sound(c)
    requires flag ==> Enumerates(order, c.nodes.Keys)
    requires !flag ==> EnvFits(c.(reservedOnly := false), env)
    ensures var c' := SetReservedOnly(c, flag, order, env);
            && Sound(c') && c'.reservedOnly == flag && c'.reserved.Keys == c.reserved.Keys
  {
    hide Count, Replay, Disciplined, AllocSlots, DropAll, EnvFits;
    if !flag {
      assert Sound(c.(reservedOnly := false)) by {
        assert ConnectedPeers(c.(reservedOnly := false)) == ConnectedPeers(c);
      }
      AllocSlotsKeepsSound(c.(reservedOnly := false), env);
    } else {
      var c1 := c.(reservedOnly := true);
      DropAllEmpties(c1, order, c.nodes);
      var c' := SetReservedOnly(c, flag, order, env);
      NoNodes(c'.nodes);
      assert ConnectedPeers(c') == ConnectedPeers(c) - c.nodes.Keys;
    }
  }

  lemma DisconnectKeepsSound(c: Controller, p: PeerId)
    requires Sound(c)
    ensures Sound(DisconnectPeer(c, p)) && DisconnectPeer(c, p).reserved == c.reserved
    ensures p !in DisconnectPeer(c, p).nodes
  {
    hide Count, Replay, Disciplined;
    if p in c.nodes {
      DropNodeMatches(c, p);
      Appended(DropNode(c, p), Sent(Drop(p)));
      assert ConnectedPeers(DropNode(c, p)) == ConnectedPeers(c) - {p};
    }
  }

  // ----- events

  lemma IncomingReservedKeepsSound(c: Controller, p: PeerId, i: Index, banned: bool)
    requires Sound(c) && p in c.reserved
    ensures Sound(IncomingConnection(c, p, i, banned))
  {
    hide Count, Replay, Disciplined;
    var c0 := Note(c, Arrived(p, i));
    Appended(c, Arrived(p, i));
    if c.reserved[p].Connected? || !banned {
      var c1 := c0.(reserved := c0.reserved[p := Connected(Inbound)]);
      Appended(c1, Sent(Accept(i)));
      assert ConnectedPeers(c1) == ConnectedPeers(c) + {p};
    } else {
      Appended(c0, Sent(Reject(i)));
      assert ConnectedPeers(c0) == ConnectedPeers(c) - {p};
    }
  }

  lemma IncomingRegularKeepsSound(c: Controller, p: PeerId, i: Index, banned: bool)
    requires Sound(c) && p !in c.reserved && !c.reservedOnly
    ensures Sound(IncomingConnection(c, p, i, banned))
  {
    hide Count, Replay, Disciplined;
    var c0 := Note(c, Arrived(p, i));
    Appended(c, Arrived(p, i));
    DropNodeMatches(c0, p);
    var c1 := DropNode(c0, p);
    assert ConnectedPeers(c1) == ConnectedPeers(c) - {p};
    if c1.numIn >= c1.maxIn || banned {
      Appended(c1, Sent(Reject(i)));
    } else {
      AddNodeMatches(c1, p, Inbound);
      var c2 := TakeSlot(c1.(nodes := c1.nodes[p := Inbound]), Inbound);
      Appended(c2, Sent(Accept(i)));
      assert ConnectedPeers(c2) == ConnectedPeers(c) + {p};
    }
  }

  lemma IncomingKeepsSound(c: Controller, p: PeerId, i: Index, banned: bool)
    requires Sound(c)
    ensures Sound(IncomingConnection(c, p, i, banned))
  {
    hide Count, Replay, Disciplined;
    if p in c.reserved {
      IncomingReservedKeepsSound(c, p, i, banned);
    } else if !c.reservedOnly {
      IncomingRegularKeepsSound(c, p, i, banned);
    } else {
      Appended(c, Arrived(p, i));
      Appended(Note(c, Arrived(p, i)), Sent(Reject(i)));
      assert ConnectedPeers(c) - {p} == ConnectedPeers(c);
    }
  }

  lemma PeerDroppedKeepsSound(c: Controller, p: PeerId)
    requires Sound(c)
    ensures Sound(PeerDropped(c, p)) && p !in ConnectedPeers(PeerDropped(c, p))
    ensures PeerDropped(c, p).reserved.Keys == c.reserved.Keys
  {
    hide Count, Replay, Disciplined;
    var c0 := Note(c, Gone(p));
    Appended(c, Gone(p));
    DropNodeMatches(c0, p);
    assert ConnectedPeers(PeerDropped(c, p)) == ConnectedPeers(c) - {p};
  }

  // ----- runs

  datatype Input =
    | Incoming(peer: PeerId, index: Index, banned: bool)
    | Dropped(peer: PeerId)
    | AddReserved(peer: PeerId, env: Env)
    | RemoveReserved(peer: PeerId)
    | SetReserved(ids: set<PeerId>, toInsert: seq<PeerId>, envs: seq<Env>, toRemove: seq<PeerId>)
    | SetOnly(flag: bool, order: seq<PeerId>, env: Env)
    | Disconnect(peer: PeerId)
    | Periodic(env: Env)

  ghost predicate Legal(c: Controller, input: Input) {
    match input
    case Incoming(_, _, _) => true
    case Dropped(_) => true
    case AddReserved(p, env) =>
      p !in c.reserved && p !in c.nodes ==> EnvFits(c.(reserved := c.reserved[p := NotConnected]), env)
    case RemoveReserved(_) => true
    case SetReserved(ids, toInsert, envs, toRemove) =>
      && |toInsert| == |envs|
      && Enumerates(toInsert, ids - c.reserved.Keys) && Enumerates(toRemove, c.reserved.Keys - ids)
      && EnvsFit(c, toInsert, envs)
    case SetOnly(flag, order, env) =>
      && (flag ==> Enumerates(order, c.nodes.Keys))
      && (!flag ==> EnvFits(c.(reservedOnly := false), env))
    case Disconnect(_) => true
    case Periodic(env) => EnvFits(c, env)
  }

  function Step(c: Controller, input: Input): Controller {
    match input
    case Incoming(p, i, banned) => IncomingConnection(c, p, i, banned)
    case Dropped(p) => PeerDropped(c, p)
    case AddReserved(p, env) => AddReservedPeer(c, p, env)
    case RemoveReserved(p) => RemoveReservedPeer(c, p)
    case SetReserved(ids, toInsert, envs, toRemove) =>
      if |toInsert| == |envs| then SetReservedPeers(c, toInsert, envs, toRemove) else c
    case SetOnly(flag, order, env) => SetReservedOnly(c, flag, order, env)
    case Disconnect(p) => DisconnectPeer(c, p)
    case Periodic(env) => AllocSlots(c, env)
  }

  ghost predicate LegalRun(c: Controller, inputs: seq<Input>)
    decreases |inputs|
  {
    inputs == [] || (Legal(c, inputs[0]) && LegalRun(Step(c, inputs[0]), inputs[1..]))
  }

  function Run(c: Controller, inputs: seq<Input>): Controller
    decreases |inputs|
  {
    if inputs == [] then c else Run(Step(c, inputs[0]), inputs[1..])
  }

  lemma StepKeepsSound(c: Controller, input: Input)
    requires Sound(c) && Legal(c, input)
    ensures Sound(Step(c, input))
  {
    hide Sound, EnvFits, EnvsFit, Enumerates;
    match input
    case Incoming(p, i, banned) => IncomingKeepsSound(c, p, i, banned);
    case Dropped(p) => PeerDroppedKeepsSound(c, p);
    case AddReserved(p, env) => AddReservedKeepsSound(c, p, env);
    case RemoveReserved(p) => RemoveReservedKeepsSound(c, p);
    case SetReserved(ids, toInsert, envs, toRemove) => SetReservedPeersIsExact(c, ids, toInsert, envs, toRemove);
    case SetOnly(flag, order, env) => SetReservedOnlyKeepsSound(c, flag, order, env);
    case Disconnect(p) => DisconnectKeepsSound(c, p);
    case Periodic(env) => AllocSlotsKeepsSound(c, env);
  }

  lemma {:induction false} RunKeepsSound(c: Controller, inputs: seq<Input>)
    requires Sound(c) && LegalRun(c, inputs)
    ensures Sound(Run(c, inputs))
    decreases |inputs|
  {
    if inputs != [] {
      StepKeepsSound(c, inputs[0]);
      RunKeepsSound(Step(c, inputs[0]), inputs[1..]);
    }
  }

  lemma NewIsSound(maxIn: nat, maxOut: nat, reserved: set<PeerId>, reservedOnly: bool)
    ensures var c := New(maxIn, maxOut, reserved, reservedOnly);
            && Sound(c) && c.history == []
            && c.reserved.Keys == reserved && c.maxIn == maxIn && c.maxOut == maxOut && c.reservedOnly == reservedOnly
  {
    var c := New(maxIn, maxOut, reserved, reservedOnly);
    NoNodes(c.nodes);
    assert ConnectedPeers(c) == {};
  }

  /** In every reachable state the counters are exact and within their limits, the tables are disjoint,
      reserved-only mode has no regular nodes, and the corrupted-state assertion has not fired. */
  lemma ReachableStatesAreSound(maxIn: nat, maxOut: nat, reserved: set<PeerId>, reservedOnly: bool, inputs: seq<Input>)
    requires LegalRun(New(maxIn, maxOut, reserved, reservedOnly), inputs)
    ensures var c := Run(New(maxIn, maxOut, reserved, reservedOnly), inputs);
            && c.numIn == Count(c.nodes, Inbound) <= c.maxIn
            && c.numOut == Count(c.nodes, Outbound) <= c.maxOut
            && c.nodes.Keys !! c.reserved.Keys
            && (c.reservedOnly ==> c.nodes == map[])
            && !c.corrupted
  {
    NewIsSound(maxIn, maxOut, reserved, reservedOnly);
    RunKeepsSound(New(maxIn, maxOut, reserved, reservedOnly), inputs);
  }

  function Arrivals(history: seq<Entry>, i: Index): nat {
    if history == [] then 0
    else
      Arrivals(history[..|history| - 1], i)
      + (if history[|history| - 1].Arrived? && history[|history| - 1].index == i then 1 else 0)
  }

  function Answers(history: seq<Entry>, i: Index): nat {
    if history == [] then 0
    else
      Answers(history[..|history| - 1], i)
      + (if history[|history| - 1] in {Sent(Accept(i)), Sent(Reject(i))} then 1 else 0)
  }

  lemma {:induction false} AnswersFollowArrivals(history: seq<Entry>, i: Index)
    requires Disciplined(history)
    ensures Arrivals(history, i) ==
            Answers(history, i) + (if Replay(history).pending.Some? &&
                Replay(history).pending.value.1 == i then 1 else 0)
  {
    if history != [] {
      AnswersFollowArrivals(history[..|history| - 1], i);
    }
  }

  /** Replaying the history of any run yields exactly the connected peers; the messages respect the
      protocol, and every index that arrived was answered as often as it arrived. */
  lemma HistoryTellsTheState(maxIn: nat, maxOut: nat, reserved: set<PeerId>, reservedOnly: bool,
                             inputs: seq<Input>, i: Index)
    requires LegalRun(New(maxIn, maxOut, reserved, reservedOnly), inputs)
    ensures var c := Run(New(maxIn, maxOut, reserved, reservedOnly), inputs);
            && Replay(c.history) == View(ConnectedPeers(c), None)
            && Disciplined(c.history)
            && Answers(c.history, i) == Arrivals(c.history, i)
  {
    NewIsSound(maxIn, maxOut, reserved, reservedOnly);
    RunKeepsSound(New(maxIn, maxOut, reserved, reservedOnly), inputs);
    AnswersFollowArrivals(Run(New(maxIn, maxOut, reserved, reservedOnly), inputs).history, i);
  }

  // ----- what each handler does to the connections

  /** The direction in which a peer is connected, reserved or regular. */
  function ConnectionOf(c: Controller, p: PeerId): Option<Direction> {
    if p in c.reserved then (match c.reserved[p] case NotConnected => None case Connected(d) => Some(d))
    else if p in c.nodes then Some(c.nodes[p])
    else None
  }

  ghost predicate OthersKept(c: Controller, c': Controller, p: PeerId) {
    forall q :: q != p ==>
      && ConnectionOf(c', q) == ConnectionOf(c, q)
      && (q in c'.reserved <==> q in c.reserved) && (q in c'.nodes <==> q in c.nodes)
  }

  // The messages that tell so many peers to connect, and to drop.
  function Connects(peers: seq<PeerId>): seq<Entry> {
    seq(|peers|, i requires 0 <= i < |peers| => Sent(Connect(peers[i])))
  }

  function Drops(peers: seq<PeerId>): seq<Entry> {
    seq(|peers|, i requires 0 <= i < |peers| => Sent(Drop(peers[i])))
  }

  lemma ConnectsJoin(history: seq<Entry>, a: seq<PeerId>, b: seq<PeerId>)
    ensures history + Connects(a) + Connects(b) == history + Connects(a + b)
  {
  }

  lemma DropsJoin(history: seq<Entry>, a: seq<PeerId>, b: seq<PeerId>)
    ensures history + Drops(a) + Drops(b) == history + Drops(a + b)
  {
  }

  lemma {:induction false} WalkConnects(c: Controller, order: seq<PeerId>, banned: set<PeerId>)
    returns (woken: seq<PeerId>)
    ensures Distinct(woken)
    ensures forall p :: p in woken <==> p in order && p in c.reserved && ConnectionOf(c, p) == None && p !in banned
    ensures var c' := ConnectReserved(c, order, banned);
            && c'.history == c.history + Connects(woken)
            && c'.nodes == c.nodes && c'.reserved.Keys == c.reserved.Keys
            && forall p :: ConnectionOf(c', p) == if p in woken then Some(Outbound) else ConnectionOf(c, p)
    decreases |order|
  {
    woken := [];
    if order != [] {
      var p := order[0];
      var wakes := p in c.reserved && c.reserved[p].NotConnected? && p !in banned;
      var c1 := if wakes then Send(c.(reserved := c.reserved[p := Connected(Outbound)]), Connect(p)) else c;
      woken := WalkConnects(c1, order[1..], banned);
      if wakes {
        assert c1.history == c.history + Connects([p]);
        ConnectsJoin(c.history, [p], woken);
        woken := [p] + woken;
      }
    }
  }

  lemma {:induction false} CandidatesConnect(c: Controller, peers: seq<PeerId>)
    requires forall p :: p in peers ==> p !in c.reserved
    ensures var c' := ConnectAll(c, peers);
            && c'.history == c.history + Connects(peers)
            && c'.reserved == c.reserved
            && forall p :: ConnectionOf(c', p) == if p in peers then Some(Outbound) else ConnectionOf(c, p)
    decreases |peers|
  {
    if peers != [] {
      var p := peers[0];
      var c1 := Send(TakeSlot(c.(nodes := c.nodes[p := Outbound]), Outbound), Connect(p));
      assert p in peers;
      CandidatesConnect(c1, peers[1..]);
      assert c1.history + Connects(peers[1..]) == c.history + Connects(peers);
    }
  }

  /** The reserved peers a slot allocation wakes: those that are unconnected and not banned. */
  ghost predicate Wakes(c: Controller, banned: set<PeerId>, woken: seq<PeerId>) {
    && Distinct(woken)
    && forall p :: p in woken <==> p in c.reserved && ConnectionOf(c, p) == None && p !in banned
  }

  /** After a slot allocation. */
  ghost predicate Allocated(c: Controller, env: Env, woken: seq<PeerId>, c': Controller) {
    && Wakes(c, env.banned, woken)
    && c'.reserved.Keys == c.reserved.Keys
    && c'.history == c.history + Connects(woken + Chosen(c, env))
    && Distinct(woken + Chosen(c, env))
    && (forall p :: p in c.reserved ==>
          ConnectionOf(c', p) == if ConnectionOf(c, p).Some? then ConnectionOf(c, p)
                                 else if p in env.banned then None else Some(Outbound))
    && (forall p :: p !in c.reserved ==>
          ConnectionOf(c', p) == if p in Chosen(c, env) then Some(Outbound) else ConnectionOf(c, p))
  }

  /**
   A slot allocation leaves connected peers as they are and banned reserved peers
   unconnected, connects every other reserved peer and the chosen candidates
   outbound, and tells each of these to connect once, the reserved ones first.
   */
  lemma AllocSlotsIsDecided(c: Controller, env: Env) returns (woken: seq<PeerId>)
    requires EnvFits(c, env)
    ensures Allocated(c, env, woken, AllocSlots(c, env))
  {
    woken := WalkConnects(c, env.order, env.banned);
    AllocSlotsInTwo(c, env);
    hide BestCandidates, ConnectAll, ConnectReserved, AllocSlots, Chosen, ConnectionOf, Connects;
    var c1, chosen := ConnectReserved(c, env.order, env.banned), Chosen(c, env);
    CandidatesConnect(c1, chosen);
    ConnectsJoin(c.history, woken, chosen);
    WokenAndChosen(c, env, woken);
  }

  lemma WokenAndChosen(c: Controller, env: Env, woken: seq<PeerId>)
    requires Wakes(c, env.banned, woken) && Strangers(c, Chosen(c, env))
    ensures Distinct(woken + Chosen(c, env))
    ensures forall p :: p in Chosen(c, env) ==> ConnectionOf(c, p) == None
    ensures forall p :: p in woken ==> p in c.reserved
  {
    hide Chosen;
    var chosen := Chosen(c, env);
    forall i, j | 0 <= i < j < |woken + chosen|
      ensures (woken + chosen)[i] != (woken + chosen)[j]
    {
      if i < |woken| <= j {
        assert woken[i] in woken && chosen[j - |woken|] in chosen;
      }
    }
  }

  /** First the reserved peers, then all the candidates the store gave. */
  lemma AllocSlotsInTwo(c: Controller, env: Env)
    requires EnvFits(c, env)
    ensures AllocSlots(c, env) == ConnectAll(ConnectReserved(c, env.order, env.banned), Chosen(c, env))
    ensures Strangers(c, Chosen(c, env))
  {
    assert ConnectAll(ConnectReserved(c, env.order, env.banned), []) == ConnectReserved(c, env.order, env.banned);
    hide ConnectReserved, ConnectAll, Outranks;
    ConnectReservedFrame(c, env.order, env.banned);
    if !c.reservedOnly && c.numOut < c.maxOut {
      assert forall p :: p in env.candidates ==> Eligible(env.store, c.reserved.Keys + c.nodes.Keys, p);
      UnknownKeepsAll(ConnectReserved(c, env.order, env.banned), env.candidates);
    }
  }

  /** Reserving a peer that is neither reserved nor connected allocates slots with the peer reserved. */
  lemma ReservingAllocates(c: Controller, p: PeerId, env: Env) returns (woken: seq<PeerId>)
    requires p !in c.reserved && ConnectionOf(c, p) == None
    requires EnvFits(c.(reserved := c.reserved[p := NotConnected]), env)
    ensures Allocated(c.(reserved := c.reserved[p := NotConnected]), env, woken, AddReservedPeer(c, p, env))
    ensures p in woken <==> p !in env.banned
  {
    hide EnvFits, AllocSlots, Connects, Chosen;
    woken := AllocSlotsIsDecided(c.(reserved := c.reserved[p := NotConnected]), env);
  }

  /** Reserving a reserved peer again changes nothing. */
  lemma ReservingTwice(c: Controller, p: PeerId, env: Env)
    requires p in c.reserved
    ensures AddReservedPeer(c, p, env) == c
  {
  }

  /** A peer that becomes reserved while connected stays connected and gives up its slot, without a message. */
  lemma ReservingKeepsTheConnection(c: Controller, p: PeerId, env: Env)
    requires Sound(c) && ConnectionOf(c, p).Some?
    ensures var c' := AddReservedPeer(c, p, env);
            && OthersKept(c, c', p) && ConnectionOf(c', p) == ConnectionOf(c, p)
            && p in c'.reserved && p !in c'.nodes && c'.history == c.history
  {
  }

  /** A reserved peer that is removed stays connected exactly when a slot of its direction is free for it. */
  lemma UnreservingNeedsASlot(c: Controller, p: PeerId)
    requires Sound(c) && p in c.reserved
    ensures var c' := RemoveReservedPeer(c, p);
            var room := match ConnectionOf(c, p)
                        case None => false
                        case Some(Inbound) => !c.reservedOnly && c.numIn < c.maxIn
                        case Some(Outbound) => !c.reservedOnly && c.numOut < c.maxOut;
            && OthersKept(c, c', p) && p !in c'.reserved
            && ConnectionOf(c', p) == (if room then ConnectionOf(c, p) else None)
            && c'.history == c.history + (if ConnectionOf(c, p).Some? && !room then [Sent(Drop(p))] else [])
  {
  }

  /** Nobody but the given peers loses or changes a connection. */
  ghost predicate ConnectionsStay(c: Controller, c': Controller, except: seq<PeerId>) {
    forall p :: p !in except && ConnectionOf(c, p).Some? ==> ConnectionOf(c', p) == ConnectionOf(c, p)
  }

  lemma ReservingOnlyConnects(c: Controller, p: PeerId, env: Env) returns (news: seq<PeerId>)
    requires p !in c.reserved && p !in c.nodes ==> EnvFits(c.(reserved := c.reserved[p := NotConnected]), env)
    requires c.nodes.Keys !! c.reserved.Keys
    ensures var c' := AddReservedPeer(c, p, env);
            && c'.history == c.history + Connects(news) && ConnectionsStay(c, c', [])
            && (ConnectionOf(c', p).None? ==> p in c.reserved || p in env.banned)
  {
    news := [];
    if p !in c.reserved && p !in c.nodes {
      hide EnvFits, AddReservedPeer, Connects;
      news := ReservingAllocates(c, p, env);
      news := news + Chosen(c.(reserved := c.reserved[p := NotConnected]), env);
    }
  }

  lemma {:induction false} InsertionsOnlyConnect(c: Controller, peers: seq<PeerId>, envs: seq<Env>)
    returns (news: seq<PeerId>)
    requires |peers| == |envs| && Sound(c) && EnvsFit(c, peers, envs)
    ensures var c' := AddAll(c, peers, envs);
            && c'.history == c.history + Connects(news) && ConnectionsStay(c, c', [])
            && (forall p :: p in peers && ConnectionOf(c', p).None? ==> p in c.reserved || BannedThen(peers, envs, p))
    decreases |peers|
  {
    news := [];
    if peers != [] {
      assert c.nodes.Keys !! c.reserved.Keys;
      hide EnvFits, AddReservedPeer, Sound, Connects, ConnectionOf, BannedThen;
      news := ReservingOnlyConnects(c, peers[0], envs[0]);
      AddReservedKeepsSound(c, peers[0], envs[0]);
      var c1 := AddReservedPeer(c, peers[0], envs[0]);
      var more := InsertionsOnlyConnect(c1, peers[1..], envs[1..]);
      ConnectsJoin(c.history, news, more);
      forall p | p in peers && ConnectionOf(AddAll(c, peers, envs), p).None?
        ensures p in c.reserved || BannedThen(peers, envs, p)
      {
        InsertedOrBanned(c, c1, AddAll(c, peers, envs), peers, envs, p);
      }
      news := news + more;
    }
  }

  /** The peer is banned when it is inserted. */
  ghost predicate BannedThen(peers: seq<PeerId>, envs: seq<Env>, p: PeerId)
    requires |peers| == |envs|
  {
    exists i :: 0 <= i < |peers| && peers[i] == p && p in envs[i].banned
  }

  lemma InsertedOrBanned(c: Controller, c1: Controller, c': Controller, peers: seq<PeerId>, envs: seq<Env>, p: PeerId)
    requires |peers| == |envs| && p in peers && c1.reserved.Keys == c.reserved.Keys + {peers[0]}
    requires ConnectionOf(c', p).None? && ConnectionsStay(c1, c', [])
    requires ConnectionOf(c1, peers[0]).None? ==> peers[0] in c.reserved || peers[0] in envs[0].banned
    requires p in peers[1..] ==> p in c1.reserved || BannedThen(peers[1..], envs[1..], p)
    ensures p in c.reserved || BannedThen(peers, envs, p)
  {
    if p != peers[0] && BannedThen(peers[1..], envs[1..], p) {
      var i :| 0 <= i < |peers| - 1 && peers[1..][i] == p && p in envs[1..][i].banned;
      assert peers[i + 1] == p && p in envs[i + 1].banned;
    }
  }

  lemma {:induction false} RemovalsOnlyDrop(c: Controller, peers: seq<PeerId>) returns (dropped: seq<PeerId>)
    requires Sound(c)
    ensures var c' := RemoveAll(c, peers);
            && c'.history == c.history + Drops(dropped) && ConnectionsStay(c, c', peers)
            && (forall p :: p in dropped ==> p in peers)
            && (forall p :: p !in peers ==> ConnectionOf(c', p) == ConnectionOf(c, p))
    decreases |peers|
  {
    dropped := [];
    if peers != [] {
      hide Sound, RemoveReservedPeer;
      var p := peers[0];
      var c1 := RemoveReservedPeer(c, p);
      RemoveReservedKeepsSound(c, p);
      var first := RemovalMayDrop(c, p);
      var rest := RemovalsOnlyDrop(c1, peers[1..]);
      dropped := first + rest;
      DropsJoin(c.history, first, rest);
    }
  }

  lemma RemovalMayDrop(c: Controller, p: PeerId) returns (dropped: seq<PeerId>)
    requires Sound(c)
    ensures var c' := RemoveReservedPeer(c, p);
            && c'.history == c.history + Drops(dropped) && OthersKept(c, c', p) && dropped in {[], [p]}
  {
    dropped := [];
    if p in c.reserved {
      UnreservingNeedsASlot(c, p);
      if RemoveReservedPeer(c, p).history != c.history {
        dropped := [p];
      }
    }
  }

  /**
   Setting the reserved peers tells some peers to connect and then some of the
   removed ones to drop; nobody else loses a connection, and an inserted peer ends
   unconnected only if it was banned when it was inserted.
   */
  lemma SetReservedPeersIsDecided(c: Controller, ids: set<PeerId>, toInsert: seq<PeerId>, envs: seq<Env>,
                                  toRemove: seq<PeerId>)
    returns (news: seq<PeerId>, dropped: seq<PeerId>)
    requires Sound(c) && |toInsert| == |envs|
    requires Enumerates(toInsert, ids - c.reserved.Keys) && Enumerates(toRemove, c.reserved.Keys - ids)
    requires EnvsFit(c, toInsert, envs)
    ensures var c' := SetReservedPeers(c, toInsert, envs, toRemove);
            && c'.history == c.history + Connects(news) + Drops(dropped)
            && (forall p :: p in dropped ==> p in toRemove) && ConnectionsStay(c, c', toRemove)
            && (forall p :: p in toInsert && ConnectionOf(c', p).None? ==> BannedThen(toInsert, envs, p))
  {
    hide Sound, EnvsFit, AddAll, RemoveAll, Connects, Drops, BannedThen;
    AddAllKeepsSound(c, toInsert, envs);
    news := InsertionsOnlyConnect(c, toInsert, envs);
    var c1 := AddAll(c, toInsert, envs);
    dropped := RemovalsOnlyDrop(c1, toRemove);
  }

  lemma {:induction false} DropAllTells(c: Controller, order: seq<PeerId>)
    requires forall p :: p in order ==> p in c.nodes
    ensures DropAll(c, order).history == c.history + Drops(order)
    ensures DropAll(c, order).reserved == c.reserved && DropAll(c, order).reservedOnly == c.reservedOnly
    decreases |order|
  {
    if order != [] {
      var p := order[0];
      assert p in order;
      var c1 := Send(FreeSlot(c, c.nodes[p]), Drop(p));
      DropAllTells(c1, order[1..]);
      assert c1.history + Drops(order[1..]) == c.history + Drops(order);
    }
  }

  /** Switching to reserved peers only tells every regular peer once to drop and leaves the reserved ones alone. */
  lemma ReservedOnlyDropsTheRest(c: Controller, order: seq<PeerId>, env: Env)
    requires Sound(c) && Enumerates(order, c.nodes.Keys)
    ensures var c' := SetReservedOnly(c, true, order, env);
            && c'.reservedOnly && c'.reserved == c.reserved
            && c'.history == c.history + Drops(order)
            && (forall p :: ConnectionOf(c', p) == if p in c.reserved then ConnectionOf(c, p) else None)
  {
    hide Replay, Disciplined, Count, Drops;
    DropAllTells(c.(reservedOnly := true), order);
  }

  /** Switching back allocates slots in the new mode. */
  lemma LeavingReservedOnlyAllocates(c: Controller, order: seq<PeerId>, env: Env) returns (woken: seq<PeerId>)
    requires EnvFits(c.(reservedOnly := false), env)
    ensures Allocated(c.(reservedOnly := false), env, woken, SetReservedOnly(c, false, order, env))
  {
    hide EnvFits, AllocSlots;
    woken := AllocSlotsIsDecided(c.(reservedOnly := false), env);
  }

  /** The corrupted-state assertion fires exactly where a connected reserved peer with room among the regular ones
      is one of them already. */
  lemma CorruptionIsNoticed(c: Controller, p: PeerId)
    requires p in c.reserved && !c.corrupted
    ensures var room := match c.reserved[p]
                        case NotConnected => false
                        case Connected(Inbound) => !c.reservedOnly && c.numIn < c.maxIn
                        case Connected(Outbound) => !c.reservedOnly && c.numOut < c.maxOut;
            RemoveReservedPeer(c, p).corrupted <==> room && p in c.nodes
  {
  }

  /** A disconnect drops a connected regular peer and nobody else. */
  lemma DisconnectDropsRegularPeers(c: Controller, p: PeerId)
    requires Sound(c)
    ensures var c' := DisconnectPeer(c, p);
            && OthersKept(c, c', p) && c'.reserved == c.reserved
            && ConnectionOf(c', p) == (if p in c.reserved then ConnectionOf(c, p) else None)
            && c'.history == c.history + (if p in c.nodes then [Sent(Drop(p))] else [])
  {
    hide Replay, Disciplined, Count;
  }

  /** Inbound connections of regular peers other than `p`. */
  ghost predicate InboundRoom(c: Controller, p: PeerId) {
    |Having(c.nodes, Inbound) - {p}| < c.maxIn
  }

  ghost predicate Acceptable(c: Controller, p: PeerId, banned: bool) {
    if p in c.reserved then ConnectionOf(c, p).Some? || !banned
    else !c.reservedOnly && !banned && InboundRoom(c, p)
  }

  /**
   An incoming connection is accepted exactly when the peer is reserved and
   connected or not banned, or is regular, not banned, allowed by the mode and
   fits beside the other inbound peers. Then it is connected inbound; a rejected
   peer is not connected.
   */
  lemma IncomingIsDecided(c: Controller, p: PeerId, i: Index, banned: bool)
    requires Sound(c)
    ensures var c' := IncomingConnection(c, p, i, banned);
            var accepted := Acceptable(c, p, banned);
            && OthersKept(c, c', p) && c'.reserved.Keys == c.reserved.Keys
            && ConnectionOf(c', p) == (if accepted then Some(Inbound) else None)
            && c'.history == c.history + [Arrived(p, i), Sent(if accepted then Accept(i) else Reject(i))]
  {
    hide Replay, Disciplined;
    if p !in c.reserved && !c.reservedOnly {
      RoomForInbound(c, p);
      hide InboundRoom, Count;
      RegularIsDecided(c, p, i, banned);
    } else {
      hide InboundRoom, Count;
    }
  }

  lemma RoomForInbound(c: Controller, p: PeerId)
    requires SlotsMatch(c)
    ensures InboundRoom(c, p) <==> DropNode(c, p).numIn < c.maxIn
  {
    var others := Having(c.nodes, Inbound) - {p};
    if p in c.nodes && c.nodes[p] == Inbound {
      assert p in Having(c.nodes, Inbound);
      assert |others| == |Having(c.nodes, Inbound)| - 1;
    } else {
      assert others == Having(c.nodes, Inbound);
    }
  }

  lemma RegularIsDecided(c: Controller, p: PeerId, i: Index, banned: bool)
    requires p !in c.reserved && !c.reservedOnly
    ensures var c' := IncomingConnection(c, p, i, banned);
            var accepted := !banned && DropNode(c, p).numIn < c.maxIn;
            && OthersKept(c, c', p) && c'.reserved == c.reserved
            && ConnectionOf(c', p) == (if accepted then Some(Inbound) else None)
            && c'.history == c.history + [Arrived(p, i), Sent(if accepted then Accept(i) else Reject(i))]
  {
    RegularIsAnswered(c, p, i, banned);
    var c' := IncomingConnection(c, p, i, banned);
    var accepted := !banned && DropNode(c, p).numIn < c.maxIn;
    assert c'.nodes == if accepted then (c.nodes - {p})[p := Inbound] else c.nodes - {p};
    hide IncomingConnection;
  }

  lemma RegularIsAnswered(c: Controller, p: PeerId, i: Index, banned: bool)
    requires p !in c.reserved && !c.reservedOnly
    ensures var c' := IncomingConnection(c, p, i, banned);
            var accepted := !banned && DropNode(c, p).numIn < c.maxIn;
            && c'.reserved == c.reserved
            && c'.history == c.history + [Arrived(p, i), Sent(if accepted then Accept(i) else Reject(i))]
  {
    var c' := IncomingConnection(c, p, i, banned);
    assert c'.history == c.history + [Arrived(p, i)] + [c'.history[|c.history| + 1]];
  }

  /** A peer that is gone is not connected; everyone else is left alone and no message is sent. */
  lemma GonePeersAreForgotten(c: Controller, p: PeerId)
    requires Sound(c)
    ensures var c' := PeerDropped(c, p);
            && OthersKept(c, c', p) && c'.reserved.Keys == c.reserved.Keys
            && ConnectionOf(c', p) == None && c'.history == c.history + [Gone(p)]
  {
    hide Replay, Disciplined, Count;
  }
}
