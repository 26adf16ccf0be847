/**
 The protocol controller as an object whose handlers update its fields, talking to a peer
 store object. Each handler is proved against the functions of module ProtocolController;
 where a hash table is walked or the store is asked, the handler also returns what it saw.
 */
module ControllerObject {
  import opened PeerStore
  import opened ProtocolController
  import opened ControllerRuns

  /** Some order in which a table with these keys may be walked. */
  method WalkOrder(keys: set<PeerId>) returns (order: seq<PeerId>)
    ensures Enumerates(order, keys)
  {
    order := [];
    var rest := keys;
    while rest != {}
      invariant rest <= keys && Enumerates(order, keys - rest)
      decreases |rest|
    {
      var p :| p in rest;
      assert p !in order;
      rest := rest - {p};
      order := order + [p];
    }
  }

  class ControllerOnPeers {
    var numIn: nat
    var numOut: nat
    const maxIn: nat
    const maxOut: nat
    var nodes: map<PeerId, Direction>
    var reserved: map<PeerId, PeerState>
    var reservedOnly: bool
    var history: seq<Entry>

    ghost function Value(): Controller
      reads this
    {
      Controller(numIn, numOut, maxIn, maxOut, nodes, reserved, reservedOnly, history, false)
    }

    constructor (maxIn: nat, maxOut: nat, reservedPeers: set<PeerId>, reservedOnly: bool)
      ensures Value() == New(maxIn, maxOut, reservedPeers, reservedOnly)
      ensures Sound(Value())
    {
      this.numIn := 0;
      this.numOut := 0;
      this.maxIn := maxIn;
      this.maxOut := maxOut;
      this.nodes := map[];
      this.reserved := map p | p in reservedPeers :: NotConnected;
      this.reservedOnly := reservedOnly;
      this.history := [];
      new;
      NewIsSound(maxIn, maxOut, reservedPeers, reservedOnly);
    }

    method SendMessage(m: Message)
      modifies this`history
      ensures Value() == Send(old(Value()), m)
    {
      history := history + [Sent(m)];
    }

    method ReleaseSlot(d: Direction)
      requires match d case Inbound => numIn > 0 case Outbound => numOut > 0
      modifies this`numIn, this`numOut
      ensures Value() == FreeSlot(old(Value()), d)
    {
      match d
      case Inbound => numIn := numIn - 1;
      case Outbound => numOut := numOut - 1;
    }

    method OccupySlot(d: Direction)
      modifies this`numIn, this`numOut
      ensures Value() == TakeSlot(old(Value()), d)
    {
      match d
      case Inbound => numIn := numIn + 1;
      case Outbound => numOut := numOut + 1;
    }

    method ReconnectReserved(order: seq<PeerId>, banned: set<PeerId>)
      modifies this`reserved, this`history
      ensures Value() == ConnectReserved(old(Value()), order, banned)
    {
      for i := 0 to |order|
        invariant ConnectReserved(Value(), order[i..], banned) == ConnectReserved(old(Value()), order, banned)
      {
        var p := order[i];
        assert order[i..][0] == p && order[i..][1..] == order[i + 1..];
        if p in reserved && reserved[p].NotConnected? && p !in banned {
          reserved := reserved[p := Connected(Outbound)];
          SendMessage(Connect(p));
        }
      }
    }

    method FillSlots(candidates: seq<PeerId>)
      modifies this`numOut, this`nodes, this`history
      ensures Value() == ConnectAll(old(Value()), candidates)
    {
      for i := 0 to |candidates|
        invariant ConnectAll(Value(), candidates[i..]) == ConnectAll(old(Value()), candidates)
      {
        var p := candidates[i];
        assert candidates[i..][0] == p && candidates[i..][1..] == candidates[i + 1..];
        numOut := numOut + 1;
        nodes := nodes[p := Outbound];
        SendMessage(Connect(p));
      }
    }

    method AllocateSlots(store: PeerStoreInner) returns (ghost env: Env)
      modifies this
      ensures env.store == store.peers && env.banned == (set p | p in store.peers && IsBanned(store.peers[p]))
      ensures EnvFits(old(Value()), env)
      ensures Value() == AllocSlots(old(Value()), env)
    {
      hide BestCandidates;
      var order := WalkOrder(reserved.Keys);
      var banned := set p | p in store.peers && IsBanned(store.peers[p]);
      ConnectReservedFrame(Value(), order, banned);
      ReconnectReserved(order, banned);
      env := Env(order, banned, store.peers, []);
      if reservedOnly || numOut >= maxOut {
        return;
      }
      var available := maxOut - numOut;
      var found := store.OutgoingCandidates(available, reserved.Keys + nodes.Keys);
      env := env.(candidates := found);
      var candidates := Unknown(Controller(numIn, numOut, maxIn, maxOut, nodes, reserved, reservedOnly, history,
          false), found);
      FillSlots(Take(candidates, available));
    }

    method OnAddReservedPeer(p: PeerId, store: PeerStoreInner) returns (ghost env: Env)
      requires SlotsMatch(Value())
      modifies this
      ensures p !in old(reserved) && p !in old(nodes) ==>
                EnvFits(old(Value()).(reserved := old(reserved)[p := NotConnected]), env)
      ensures Value() == AddReservedPeer(old(Value()), p, env)
    {
      hide EnvFits, AllocSlots;
      env := Env([], {}, map[], []);
      if p in reserved {
        return;
      }
      if p in nodes {
        var d := nodes[p];
        SlotIsTaken(Value(), p);
        nodes := nodes - {p};
        reserved := reserved[p := Connected(d)];
        ReleaseSlot(d);
      } else {
        reserved := reserved[p := NotConnected];
        env := AllocateSlots(store);
      }
    }

    method OnRemoveReservedPeer(p: PeerId)
      requires Sound(Value())
      modifies this
      ensures Value() == RemoveReservedPeer(old(Value()), p)
    {
      if p !in reserved {
        return;
      }
      var state := reserved[p];
      reserved := reserved - {p};
      if state.Connected? {
        var full := match state.direction case Inbound => numIn >= maxIn case Outbound => numOut >= maxOut;
        if reservedOnly || full {
          SendMessage(Drop(p));
        } else {
          OccupySlot(state.direction);
          // The corrupted-state assertion of the source.
          assert p !in nodes;
          nodes := nodes[p := state.direction];
        }
      }
    }

    method OnSetReservedPeers(ids: set<PeerId>, store: PeerStoreInner)
      returns (ghost toInsert: seq<PeerId>, ghost envs: seq<Env>, ghost toRemove: seq<PeerId>)
      requires Sound(Value())
      modifies this
      ensures |toInsert| == |envs|
      ensures Enumerates(toInsert, ids - old(reserved).Keys) && Enumerates(toRemove, old(reserved).Keys - ids)
      ensures EnvsFit(old(Value()), toInsert, envs)
      ensures Value() == SetReservedPeers(old(Value()), toInsert, envs, toRemove)
      ensures reserved.Keys == ids
    {
      hide Sound, EnvFits, AddReservedPeer, RemoveReservedPeer;
      var inserting := WalkOrder(ids - reserved.Keys);
      var removing := WalkOrder(reserved.Keys - ids);
      envs := [];
      for i := 0 to |inserting|
        invariant |envs| == i && EnvsFit(old(Value()), inserting[..i], envs)
        invariant Value() == AddAll(old(Value()), inserting[..i], envs)
      {
        AddAllKeepsSound(old(Value()), inserting[..i], envs);
        SoundSlotsMatch(Value());
        ghost var before := Value();
        var env := OnAddReservedPeer(inserting[i], store);
        AddAllExtends(old(Value()), inserting[..i], envs, inserting[i], env);
        assert inserting[..i + 1] == inserting[..i] + [inserting[i]];
        envs := envs + [env];
      }
      assert inserting[..|inserting|] == inserting;
      AddAllKeepsSound(old(Value()), inserting, envs);
      ghost var added := Value();
      for i := 0 to |removing|
        invariant Sound(Value())
        invariant RemoveAll(Value(), removing[i..]) == RemoveAll(added, removing)
      {
        assert removing[i..][0] == removing[i] && removing[i..][1..] == removing[i + 1..];
        RemoveReservedKeepsSound(Value(), removing[i]);
        OnRemoveReservedPeer(removing[i]);
      }
      toInsert, toRemove := inserting, removing;
      SetReservedPeersIsExact(old(Value()), ids, toInsert, envs, toRemove);
    }

    method OnSetReservedOnly(flag: bool, store: PeerStoreInner) returns (ghost order: seq<PeerId>, ghost env: Env)
      requires SlotsMatch(Value())
      modifies this
      ensures flag ==> Enumerates(order, old(nodes).Keys)
      ensures !flag ==> EnvFits(old(Value()).(reservedOnly := false), env)
      ensures Value() == SetReservedOnly(old(Value()), flag, order, env)
    {
      hide EnvFits, AllocSlots;
      order, env := [], Env([], {}, map[], []);
      reservedOnly := flag;
      if !flag {
        env := AllocateSlots(store);
        return;
      }
      order := DropNodes();
      nodes := map[];
    }

    /** Releases the slot of every regular node and tells it to drop. */
    method DropNodes() returns (ghost order: seq<PeerId>)
      requires SlotsMatch(Value())
      modifies this`numIn, this`numOut, this`history
      ensures Enumerates(order, nodes.Keys)
      ensures Value() == DropAll(old(Value()), order)
    {
      ghost var start := Value();
      var walk := WalkOrder(nodes.Keys);
      ghost var left := nodes;
      StillToDrop(start, walk);
      hide Count, SlotsMatch, ToDrop;
      for i := 0 to |walk|
        invariant DropAll(Value(), walk[i..]) == DropAll(start, walk)
        invariant ToDrop(Value(), walk[i..], left)
      {
        assert walk[i..][0] == walk[i] && walk[i..][1..] == walk[i + 1..];
        DropNext(Value(), walk[i..], left);
        left := left - {walk[i]};
        ReleaseSlot(nodes[walk[i]]);
        SendMessage(Drop(walk[i]));
      }
      order := walk;
    }

    method OnDisconnectPeer(p: PeerId)
      requires SlotsMatch(Value())
      modifies this
      ensures Value() == DisconnectPeer(old(Value()), p)
    {
      if p in reserved {
        return;
      }
      if p in nodes {
        var d := nodes[p];
        SlotIsTaken(Value(), p);
        nodes := nodes - {p};
        ReleaseSlot(d);
        SendMessage(Drop(p));
      }
    }

    method OnIncomingConnection(p: PeerId, index: Index, store: PeerStoreInner)
      requires SlotsMatch(Value())
      modifies this
      ensures Value() == IncomingConnection(old(Value()), p, index, PeerIsBanned(store.peers, p))
    {
      history := history + [Arrived(p, index)];
      if reservedOnly && p !in reserved {
        SendMessage(Reject(index));
        return;
      }
      if p in reserved {
        match reserved[p] {
          case Connected(_) =>
            reserved := reserved[p := Connected(Inbound)];
            SendMessage(Accept(index));
          case NotConnected =>
            if PeerIsBanned(store.peers, p) {
              SendMessage(Reject(index));
            } else {
              reserved := reserved[p := Connected(Inbound)];
              SendMessage(Accept(index));
            }
        }
        return;
      }
      if p in nodes {
        var d := nodes[p];
        SlotIsTaken(Value(), p);
        nodes := nodes - {p};
        ReleaseSlot(d);
      }
      if numIn >= maxIn {
        SendMessage(Reject(index));
        return;
      }
      if PeerIsBanned(store.peers, p) {
        SendMessage(Reject(index));
        return;
      }
      numIn := numIn + 1;
      nodes := nodes[p := Inbound];
      SendMessage(Accept(index));
    }

    /** A peer that was connected until now is also reported to the store; otherwise nothing is. */
    method OnPeerDropped(p: PeerId, store: PeerStoreInner, now: nat)
      requires SlotsMatch(Value())
      modifies this, store`peers
      ensures Value() == PeerDropped(old(Value()), p)
      ensures store.peers ==
              if (p in old(reserved) && old(reserved)[p].Connected?) || (p !in old(reserved) && p in old(nodes))
              then Reported(old(store.peers), p, -256, now) else old(store.peers)
    {
      history := history + [Gone(p)];
      if p in reserved {
        if reserved[p].Connected? {
          reserved := reserved[p := NotConnected];
          store.ReportDisconnect(p, now);
        }
        return;
      }
      if p in nodes {
        var d := nodes[p];
        SlotIsTaken(Value(), p);
        nodes := nodes - {p};
        ReleaseSlot(d);
        store.ReportDisconnect(p, now);
      }
    }
  }

  /** A regular node occupies a slot of its direction. */
  lemma SlotIsTaken(c: Controller, p: PeerId)
    requires SlotsMatch(c) && p in c.nodes
    ensures match c.nodes[p] case Inbound => c.numIn > 0 case Outbound => c.numOut > 0
  {
    CountRemove(c.nodes, p, c.nodes[p]);
  }

  /** The nodes of `order` are still to be dropped, and the counters count exactly those. */
  ghost predicate ToDrop(c: Controller, order: seq<PeerId>, left: map<PeerId, Direction>) {
    && Enumerates(order, left.Keys)
    && (forall p :: p in left ==> p in c.nodes && left[p] == c.nodes[p])
    && c.numIn == Count(left, Inbound) && c.numOut == Count(left, Outbound)
  }

  lemma StillToDrop(c: Controller, order: seq<PeerId>)
    requires SlotsMatch(c) && Enumerates(order, c.nodes.Keys)
    ensures ToDrop(c, order, c.nodes)
  {
  }

  lemma DropNext(c: Controller, order: seq<PeerId>, left: map<PeerId, Direction>)
    requires ToDrop(c, order, left) && order != []
    ensures order[0] in c.nodes
    ensures match c.nodes[order[0]] case Inbound => c.numIn > 0 case Outbound => c.numOut > 0
    ensures ToDrop(Send(FreeSlot(c, c.nodes[order[0]]), Drop(order[0])), order[1..], left - {order[0]})
  {
    var p := order[0];
    assert p in order;
    CountRemove(left, p, Inbound);
    CountRemove(left, p, Outbound);
    hide Count;
    assert forall q :: q in order <==> q == p || q in order[1..];
  }

  lemma SoundSlotsMatch(c: Controller)
    requires Sound(c)
    ensures SlotsMatch(c)
  {
  }

  lemma {:induction false} AddAllExtends(c: Controller, peers: seq<PeerId>, envs: seq<Env>, p: PeerId, env: Env)
    requires |peers| == |envs| && EnvsFit(c, peers, envs)
    requires var c' := AddAll(c, peers, envs);
             p !in c'.reserved && p !in c'.nodes ==> EnvFits(c'.(reserved := c'.reserved[p := NotConnected]), env)
    ensures AddAll(c, peers + [p], envs + [env]) == AddReservedPeer(AddAll(c, peers, envs), p, env)
    ensures EnvsFit(c, peers + [p], envs + [env])
    decreases |peers|
  {
    hide EnvFits, AddReservedPeer;
    if peers != [] {
      AddAllExtends(AddReservedPeer(c, peers[0], envs[0]), peers[1..], envs[1..], p, env);
      assert (peers + [p])[1..] == peers[1..] + [p] && (envs + [env])[1..] == envs[1..] + [env];
    } else {
      assert (peers + [p])[1..] == [] && (envs + [env])[1..] == [];
    }
  }
}
