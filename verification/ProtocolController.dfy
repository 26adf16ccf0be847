/**
 The protocol controller: what each event, action and slot allocation does to the two peer
 tables, the slot counters and the history of messages, on values.

 The iteration order of hash tables, the bans seen and the answer of the peer store are
 inputs of a step. `history` records what was received and sent, in order.
 */
module ProtocolController {
  import opened Wrappers
  import opened PeerStore

  datatype Direction = Inbound | Outbound

  datatype PeerState = Connected(direction: Direction) | NotConnected

  type Index = nat

  datatype Message = Connect(peer: PeerId) | Drop(peer: PeerId) | Accept(index: Index) | Reject(index: Index)

  datatype Entry = Sent(message: Message) | Arrived(peer: PeerId, index: Index) | Gone(peer: PeerId)

  datatype Controller = Controller(
    numIn: int,
    numOut: int,
    maxIn: nat,
    maxOut: nat,
    nodes: map<PeerId, Direction>,
    reserved: map<PeerId, PeerState>,
    reservedOnly: bool,
    history: seq<Entry>,
    corrupted: bool)

  /** What one slot allocation sees: the order in which it walks the reserved table, the peers that
      are banned meanwhile, and the candidates a store snapshot yields. */
  datatype Env = Env(order: seq<PeerId>, banned: set<PeerId>, store: Peers, candidates: seq<PeerId>)

  function New(maxIn: nat, maxOut: nat, reserved: set<PeerId>, reservedOnly: bool): Controller {
    Controller(0, 0, maxIn, maxOut, map[], map p | p in reserved :: NotConnected, reservedOnly, [], false)
  }

  // ----- building blocks

  function Note(c: Controller, e: Entry): Controller {
    c.(history := c.history + [e])
  }

  function Send(c: Controller, m: Message): Controller {
    Note(c, Sent(m))
  }

  function FreeSlot(c: Controller, d: Direction): Controller {
    match d
    case Inbound => c.(numIn := c.numIn - 1)
    case Outbound => c.(numOut := c.numOut - 1)
  }

  function TakeSlot(c: Controller, d: Direction): Controller {
    match d
    case Inbound => c.(numIn := c.numIn + 1)
    case Outbound => c.(numOut := c.numOut + 1)
  }

  function DropNode(c: Controller, p: PeerId): Controller {
    if p in c.nodes then FreeSlot(c.(nodes := c.nodes - {p}), c.nodes[p]) else c
  }

  // ----- slot allocation

  function ConnectReserved(c: Controller, order: seq<PeerId>, banned: set<PeerId>): Controller
    decreases |order|
  {
    if order == [] then c
    else
      var p := order[0];
      var c1 :=
        if p in c.reserved && c.reserved[p].NotConnected? && p !in banned
        then Send(c.(reserved := c.reserved[p := Connected(Outbound)]), Connect(p)) else c;
      ConnectReserved(c1, order[1..], banned)
  }

  function Unknown(c: Controller, candidates: seq<PeerId>): (r: seq<PeerId>)
    ensures |r| <= |candidates|
  {
    if candidates == [] then []
    else
      var p := candidates[0];
      (if p !in c.reserved && p !in c.nodes then [p] else []) + Unknown(c, candidates[1..])
  }

  function ConnectAll(c: Controller, peers: seq<PeerId>): Controller
    decreases |peers|
  {
    if peers == [] then c
    else
      var p := peers[0];
      ConnectAll(Send(TakeSlot(c.(nodes := c.nodes[p := Outbound]), Outbound), Connect(p)), peers[1..])
  }

  function Take(s: seq<PeerId>, n: int): seq<PeerId> {
    if 0 <= n < |s| then s[..n] else s
  }

  function AllocSlots(c: Controller, env: Env): Controller {
    var c1 := ConnectReserved(c, env.order, env.banned);
    if c1.reservedOnly || c1.numOut >= c1.maxOut then c1
    else ConnectAll(c1, Take(Unknown(c1, env.candidates), c1.maxOut - c1.numOut))
  }

  // ----- actions

  function AddReservedPeer(c: Controller, p: PeerId, env: Env): Controller {
    if p in c.reserved then c
    else if p in c.nodes then
      var d := c.nodes[p];
      FreeSlot(c.(nodes := c.nodes - {p}, reserved := c.reserved[p := Connected(d)]), d)
    else
      AllocSlots(c.(reserved := c.reserved[p := NotConnected]), env)
  }

  function RemoveReservedPeer(c: Controller, p: PeerId): Controller {
    if p !in c.reserved then c
    else
      var c1 := c.(reserved := c.reserved - {p});
      match c.reserved[p]
      case NotConnected => c1
      case Connected(d) =>
        var full := match d case Inbound => c.numIn >= c.maxIn case Outbound => c.numOut >= c.maxOut;
        if c.reservedOnly || full then Send(c1, Drop(p))
        else TakeSlot(c1.(nodes := c1.nodes[p := d], corrupted := c1.corrupted || p in c1.nodes), d)
  }

  function AddAll(c: Controller, peers: seq<PeerId>, envs: seq<Env>): Controller
    requires |peers| == |envs|
    decreases |peers|
  {
    if peers == [] then c else AddAll(AddReservedPeer(c, peers[0], envs[0]), peers[1..], envs[1..])
  }

  function RemoveAll(c: Controller, peers: seq<PeerId>): Controller
    decreases |peers|
  {
    if peers == [] then c else RemoveAll(RemoveReservedPeer(c, peers[0]), peers[1..])
  }

  /** `toInsert` and `toRemove` list the two differences between the given set and the current one. */
  function SetReservedPeers(c: Controller, toInsert: seq<PeerId>, envs: seq<Env>, toRemove: seq<PeerId>): Controller
    requires |toInsert| == |envs|
  {
    RemoveAll(AddAll(c, toInsert, envs), toRemove)
  }

  function DropAll(c: Controller, order: seq<PeerId>): Controller
    decreases |order|
  {
    if order == [] then c
    else
      var p := order[0];
      DropAll(if p in c.nodes then Send(FreeSlot(c, c.nodes[p]), Drop(p)) else c, order[1..])
  }

  function SetReservedOnly(c: Controller, flag: bool, order: seq<PeerId>, env: Env): Controller {
    var c1 := c.(reservedOnly := flag);
    if !flag then AllocSlots(c1, env) else DropAll(c1, order).(nodes := map[])
  }

  function DisconnectPeer(c: Controller, p: PeerId): Controller {
    if p in c.reserved then c
    else if p in c.nodes then Send(DropNode(c, p), Drop(p))
    else c
  }

  // ----- events

  function IncomingConnection(c: Controller, p: PeerId, i: Index, banned: bool): Controller {
    var c0 := Note(c, Arrived(p, i));
    if c0.reservedOnly && p !in c0.reserved then Send(c0, Reject(i))
    else if p in c0.reserved then
      if c0.reserved[p].Connected? || !banned
      then Send(c0.(reserved := c0.reserved[p := Connected(Inbound)]), Accept(i))
      else Send(c0, Reject(i))
    else
      var c1 := DropNode(c0, p);
      if c1.numIn >= c1.maxIn || banned then Send(c1, Reject(i))
      else Send(TakeSlot(c1.(nodes := c1.nodes[p := Inbound]), Inbound), Accept(i))
  }

  function PeerDropped(c: Controller, p: PeerId): Controller {
    var c0 := Note(c, Gone(p));
    if p in c0.reserved then
      if c0.reserved[p].Connected? then c0.(reserved := c0.reserved[p := NotConnected]) else c0
    else DropNode(c0, p)
  }

  // ----- replaying the history

  datatype View = View(connected: set<PeerId>, pending: Option<(PeerId, Index)>)

  function ReplayStep(v: View, e: Entry): View {
    match e
    case Sent(Connect(p)) => v.(connected := v.connected + {p})
    case Sent(Drop(p)) => v.(connected := v.connected - {p})
    case Sent(Accept(i)) =>
      if v.pending.Some? && v.pending.value.1 == i
      then View(v.connected + {v.pending.value.0}, None) else v
    case Sent(Reject(i)) =>
      if v.pending.Some? && v.pending.value.1 == i
      then View(v.connected - {v.pending.value.0}, None) else v
    case Arrived(p, i) => v.(pending := Some((p, i)))
    case Gone(p) => v.(connected := v.connected - {p})
  }

  function Replay(history: seq<Entry>): View {
    if history == [] then View({}, None)
    else ReplayStep(Replay(history[..|history| - 1]), history[|history| - 1])
  }

  /** Connect goes only to unconnected peers, Drop only to connected ones; an answer names the index
      that just arrived, and nothing else happens before the answer. */
  predicate EntryFits(v: View, e: Entry) {
    match e
    case Sent(Connect(p)) => v.pending.None? && p !in v.connected
    case Sent(Drop(p)) => v.pending.None? && p in v.connected
    case Sent(Accept(i)) => v.pending.Some? && v.pending.value.1 == i
    case Sent(Reject(i)) => v.pending.Some? && v.pending.value.1 == i
    case Arrived(_, _) => v.pending.None?
    case Gone(_) => v.pending.None?
  }

  predicate Disciplined(history: seq<Entry>) {
    history == [] ||
    (&& Disciplined(history[..|history| - 1])
     && EntryFits(Replay(history[..|history| - 1]), history[|history| - 1]))
  }

  lemma Appended(c: Controller, e: Entry)
    ensures Replay(Note(c, e).history) == ReplayStep(Replay(c.history), e)
    ensures Disciplined(Note(c, e).history) <==> Disciplined(c.history) && EntryFits(Replay(c.history), e)
  {
    assert (c.history + [e])[..|c.history|] == c.history;
  }

  // ----- counting slots

  ghost function Having(nodes: map<PeerId, Direction>, d: Direction): set<PeerId> {
    set p | p in nodes && nodes[p] == d
  }

  ghost function Count(nodes: map<PeerId, Direction>, d: Direction): nat {
    |Having(nodes, d)|
  }

  lemma CountInsert(nodes: map<PeerId, Direction>, p: PeerId, d: Direction, e: Direction)
    requires p !in nodes
    ensures Count(nodes[p := d], e) == Count(nodes, e) + (if d == e then 1 else 0)
  {
    assert Having(nodes[p := d], e) == if d == e then Having(nodes, e) + {p} else Having(nodes, e);
  }

  lemma CountRemove(nodes: map<PeerId, Direction>, p: PeerId, e: Direction)
    requires p in nodes
    ensures Count(nodes - {p}, e) == Count(nodes, e) - (if nodes[p] == e then 1 else 0)
  {
    assert Having(nodes - {p}, e) == Having(nodes, e) - {p};
  }

  // ----- the invariant

  ghost function ConnectedPeers(c: Controller): set<PeerId> {
    c.nodes.Keys + (set p | p in c.reserved && c.reserved[p].Connected?)
  }

  ghost predicate SlotsMatch(c: Controller) {
    && c.numIn == Count(c.nodes, Inbound)
    && c.numOut == Count(c.nodes, Outbound)
  }

  ghost predicate Sound(c: Controller) {
    && SlotsMatch(c)
    && c.numIn <= c.maxIn
    && c.numOut <= c.maxOut
    && c.nodes.Keys !! c.reserved.Keys
    && (c.reservedOnly ==> c.nodes == map[])
    && !c.corrupted
    && Disciplined(c.history)
    && Replay(c.history) == View(ConnectedPeers(c), None)
  }

  ghost predicate Enumerates(s: seq<PeerId>, keys: set<PeerId>) {
    && Distinct(s)
    && (forall p :: p in s <==> p in keys)
  }

  /** The environment answers for this state: it walks the reserved table once, and the store was
      asked for as many candidates as there are free slots, ignoring every known peer. */
  ghost predicate EnvFits(c: Controller, env: Env) {
    && Enumerates(env.order, c.reserved.Keys)
    && (!c.reservedOnly && c.numOut < c.maxOut ==>
          BestCandidates(env.store, c.maxOut - c.numOut, c.reserved.Keys + c.nodes.Keys, env.candidates))
  }
}
