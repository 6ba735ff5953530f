/**
 The gossip filter of BOLT #7 without a chain client: announcements, updates that may arrive before
 the channel they are about, and node announcements that may arrive before the node has a channel.
 Each store is an object with its maps; what waits is replayed once the announcement it waited for
 has been accepted.
*/
module GossipFilter {
  import opened Common

  type NodeId = nat
  type Scid = nat
  type Direction = d: nat | d < 2

  datatype Message =
    | ChannelAnnouncement(scid: Scid, nodeId1: NodeId, nodeId2: NodeId, body: nat)
    | ChannelUpdate(scid: Scid, direction: Direction, timestamp: nat, body: nat)
    | NodeAnnouncement(nodeId: NodeId, timestamp: nat, body: nat)
    | Other

  datatype Result = Ok(relayed: seq<Message>) | Err(error: Error)

  datatype Error = ChanAnnSigFailed | ChanUpdSigFailed | NodeAnnSigFailed

  /** Signature checks, of a message alone or of an update against the node it is from. */
  datatype Signatures = Signatures(
    announcement: Message -> bool, update: (Message, NodeId) -> bool, node: Message -> bool)

  // ---------------------------------------------------------------------------
  // The store

  datatype Store = Store(
    ann: map<Scid, Message>, upd: map<(Scid, Direction), Message>,
    node: map<NodeId, Message>, nodeChannels: map<NodeId, set<Scid>>)

  function EmptyStore(): Store {
    Store(map[], map[], map[], map[])
  }

  function Lookup<K, V>(m: map<K, V>, k: K): Option<V> {
    if k in m then Some(m[k]) else None
  }

  function ChannelsFor(s: Store, n: NodeId): set<Scid> {
    if n in s.nodeChannels then s.nodeChannels[n] else {}
  }

  function WithNodeChannel(s: Store, n: NodeId, scid: Scid): Store {
    s.(nodeChannels := s.nodeChannels[n := ChannelsFor(s, n) + {scid}])
  }

  function WithAnnouncement(s: Store, m: Message): Store
    requires m.ChannelAnnouncement?
  {
    WithNodeChannel(WithNodeChannel(s.(ann := s.ann[m.scid := m]), m.nodeId1, m.scid), m.nodeId2, m.scid)
  }

  function WithUpdate(s: Store, m: Message): Store
    requires m.ChannelUpdate?
  {
    s.(upd := s.upd[(m.scid, m.direction) := m])
  }

  function WithNode(s: Store, m: Message): Store
    requires m.NodeAnnouncement?
  {
    s.(node := s.node[m.nodeId := m])
  }

  function WithoutUpdate(s: Store, scid: Scid, direction: Direction): Store {
    s.(upd := s.upd - {(scid, direction)})
  }

  function WithoutNode(s: Store, n: NodeId): Store {
    s.(node := s.node - {n})
  }

  /** Messages are stored under the key they belong to. */
  predicate WellKeyed(s: Store) {
    && (forall k :: k in s.ann ==> s.ann[k].ChannelAnnouncement? && s.ann[k].scid == k)
    && (forall k :: k in s.upd ==> s.upd[k].ChannelUpdate? && (s.upd[k].scid, s.upd[k].direction) == k)
    && (forall k :: k in s.node ==> s.node[k].NodeAnnouncement? && s.node[k].nodeId == k)
  }

  class GossipMemoryStore {
    var channelAnn: map<Scid, Message>
    var channelUpd: map<(Scid, Direction), Message>
    var nodeAnn: map<NodeId, Message>
    var nodeChannels: map<NodeId, set<Scid>>

    function View(): Store
      reads this
    {
      Store(channelAnn, channelUpd, nodeAnn, nodeChannels)
    }

    constructor ()
      ensures View() == EmptyStore()
    {
      channelAnn, channelUpd, nodeAnn, nodeChannels := map[], map[], map[], map[];
    }

    method SaveNodeChannel(n: NodeId, scid: Scid)
      modifies this`nodeChannels
      ensures View() == WithNodeChannel(old(View()), n, scid)
    {
      nodeChannels := nodeChannels[n := if n in nodeChannels then nodeChannels[n] else {}];
      nodeChannels := nodeChannels[n := nodeChannels[n] + {scid}];
    }

    method SaveChannelAnnouncement(m: Message)
      requires m.ChannelAnnouncement?
      modifies this
      ensures View() == WithAnnouncement(old(View()), m)
    {
      channelAnn := channelAnn[m.scid := m];
      SaveNodeChannel(m.nodeId1, m.scid);
      SaveNodeChannel(m.nodeId2, m.scid);
    }

    method SaveChannelUpdate(m: Message)
      requires m.ChannelUpdate?
      modifies this
      ensures View() == WithUpdate(old(View()), m)
    {
      channelUpd := channelUpd[(m.scid, m.direction) := m];
    }

    method SaveNodeAnnouncement(m: Message)
      requires m.NodeAnnouncement?
      modifies this
      ensures View() == WithNode(old(View()), m)
    {
      nodeAnn := nodeAnn[m.nodeId := m];
    }

    method DeleteChannelUpdate(scid: Scid, direction: Direction)
      modifies this
      ensures View() == WithoutUpdate(old(View()), scid, direction)
    {
      channelUpd := channelUpd - {(scid, direction)};
    }

    method DeleteNodeAnnouncement(n: NodeId)
      modifies this
      ensures View() == WithoutNode(old(View()), n)
    {
      nodeAnn := nodeAnn - {n};
    }
  }

  // ---------------------------------------------------------------------------
  // The filter as functions

  datatype Filter = Filter(gossip: Store, pending: Store)

  ghost predicate Valid(f: Filter) {
    WellKeyed(f.gossip) && WellKeyed(f.pending)
  }

  function NodeValidated(sig: Signatures, f: Filter, m: Message): (Filter, Result)
    requires m.NodeAnnouncement? && WellKeyed(f.gossip)
  {
    var existing := Lookup(f.gossip.node, m.nodeId);
    if existing.Some? && existing.value.timestamp >= m.timestamp then (f, Ok([]))
    else if ChannelsFor(f.gossip, m.nodeId) == {} then (f.(pending := WithNode(f.pending, m)), Ok([]))
    else if !sig.node(m) then (f, Err(NodeAnnSigFailed))
    else (f.(gossip := WithNode(f.gossip, m)), Ok([m]))
  }

  function Sender(ann: Message, direction: Direction): NodeId
    requires ann.ChannelAnnouncement?
  {
    if direction == 0 then ann.nodeId1 else ann.nodeId2
  }

  function UpdateValidated(sig: Signatures, f: Filter, m: Message): (Filter, Result)
    requires m.ChannelUpdate? && WellKeyed(f.gossip)
  {
    var ann := Lookup(f.gossip.ann, m.scid);
    if ann.None? then (f.(pending := WithUpdate(f.pending, m)), Ok([])) else
    var existing := Lookup(f.gossip.upd, (m.scid, m.direction));
    if existing.Some? && existing.value.timestamp >= m.timestamp then (f, Ok([]))
    else if !sig.update(m, Sender(ann.value, m.direction)) then (f, Err(ChanUpdSigFailed))
    else (f.(gossip := WithUpdate(f.gossip, m)), Ok([m]))
  }

  /** A pending update, if there is one, is taken out of the pending store and validated again. */
  function ReplayUpdate(sig: Signatures, f: Filter, u: Option<Message>): (Filter, Result)
    requires WellKeyed(f.gossip) && (u.Some? ==> u.value.ChannelUpdate?)
  {
    if u.None? then (f, Ok([]))
    else UpdateValidated(sig, f.(pending := WithoutUpdate(f.pending, u.value.scid, u.value.direction)), u.value)
  }

  function ReplayNode(sig: Signatures, f: Filter, n: Option<Message>): (Filter, Result)
    requires WellKeyed(f.gossip) && (n.Some? ==> n.value.NodeAnnouncement?)
  {
    if n.None? then (f, Ok([]))
    else NodeValidated(sig, f.(pending := WithoutNode(f.pending, n.value.nodeId)), n.value)
  }

  lemma {:induction false} StoresKeepKeyed(s: Store, m: Message, scid: Scid, direction: Direction, n: NodeId)
    requires WellKeyed(s)
    ensures m.ChannelUpdate? ==> WellKeyed(WithUpdate(s, m))
    ensures m.NodeAnnouncement? ==> WellKeyed(WithNode(s, m))
    ensures WellKeyed(WithoutUpdate(s, scid, direction)) && WellKeyed(WithoutNode(s, n))
  {
  }

  lemma {:induction false} ReplayKeepsValid(sig: Signatures, f: Filter, u: Option<Message>, n: Option<Message>)
    requires Valid(f) && (u.Some? ==> u.value.ChannelUpdate?) && (n.Some? ==> n.value.NodeAnnouncement?)
    ensures Valid(ReplayUpdate(sig, f, u).0) && Valid(ReplayNode(sig, f, n).0)
  {
    hide WellKeyed, WithUpdate, WithNode, WithoutUpdate, WithoutNode;
    if u.Some? {
      StoresKeepKeyed(f.gossip, u.value, u.value.scid, u.value.direction, 0);
      StoresKeepKeyed(f.pending, u.value, u.value.scid, u.value.direction, 0);
      StoresKeepKeyed(WithoutUpdate(f.pending, u.value.scid, u.value.direction), u.value, 0, 0, 0);
    }
    if n.Some? {
      StoresKeepKeyed(f.gossip, n.value, 0, 0, n.value.nodeId);
      StoresKeepKeyed(f.pending, n.value, 0, 0, n.value.nodeId);
      StoresKeepKeyed(WithoutNode(f.pending, n.value.nodeId), n.value, 0, 0, 0);
    }
  }

  function AnnouncementValidated(sig: Signatures, f: Filter, m: Message): (r: (Filter, Result))
    requires m.ChannelAnnouncement? && Valid(f)
    ensures Valid(r.0)
  {
    if m.scid in f.gossip.ann then (f, Ok([]))
    else if !sig.announcement(m) then (f, Err(ChanAnnSigFailed))
    else
      var f0 := f.(gossip := WithAnnouncement(f.gossip, m));
      var u0, u1 := Lookup(f0.pending.upd, (m.scid, 0)), Lookup(f0.pending.upd, (m.scid, 1));
      ReplayKeepsValid(sig, f0, u0, None);
      var (f1, r1) := ReplayUpdate(sig, f0, u0);
      if r1.Err? then (f1, r1) else
      ReplayKeepsValid(sig, f1, u1, None);
      var (f2, r2) := ReplayUpdate(sig, f1, u1);
      if r2.Err? then (f2, r2) else
      var n1, n2 := Lookup(f2.pending.node, m.nodeId1), Lookup(f2.pending.node, m.nodeId2);
      ReplayKeepsValid(sig, f2, None, n1);
      var (f3, r3) := ReplayNode(sig, f2, n1);
      if r3.Err? then (f3, r3) else
      ReplayKeepsValid(sig, f3, None, n2);
      var (f4, r4) := ReplayNode(sig, f3, n2);
      if r4.Err? then (f4, r4)
      else (f4, Ok([m] + r1.relayed + r2.relayed + r3.relayed + r4.relayed))
  }

  function Validated(sig: Signatures, f: Filter, m: Message): (Filter, Result)
    requires Valid(f)
  {
    match m
    case ChannelAnnouncement(_, _, _, _) => AnnouncementValidated(sig, f, m)
    case NodeAnnouncement(_, _, _) => NodeValidated(sig, f, m)
    case ChannelUpdate(_, _, _, _) => UpdateValidated(sig, f, m)
    case Other => (f, Ok([]))
  }

  lemma {:induction false} ValidatedKeepsValid(sig: Signatures, f: Filter, m: Message)
    requires Valid(f)
    ensures Valid(Validated(sig, f, m).0)
  {
    hide AnnouncementValidated;
  }

  lemma PendingShapes(f: Filter, m: Message)
    requires Valid(f) && m.ChannelAnnouncement?
    ensures forall d: Direction :: (m.scid, d) in f.pending.upd ==>
      f.pending.upd[(m.scid, d)].ChannelUpdate? && f.pending.upd[(m.scid, d)].scid == m.scid
    ensures forall n :: n in f.pending.node ==> f.pending.node[n].NodeAnnouncement? && f.pending.node[n].nodeId == n
  {
  }

  // ---------------------------------------------------------------------------
  // The filter as a class over two stores

  class GossipFilter {
    const gossipStore: GossipMemoryStore
    const pendingStore: GossipMemoryStore
    const sig: Signatures

    function View(): Filter
      reads gossipStore, pendingStore
    {
      Filter(gossipStore.View(), pendingStore.View())
    }

    ghost predicate Separate() {
      gossipStore != pendingStore
    }

    constructor (sig: Signatures)
      ensures Separate() && fresh(gossipStore) && fresh(pendingStore) && this.sig == sig
      ensures View() == Filter(EmptyStore(), EmptyStore())
    {
      var g := new GossipMemoryStore();
      var p := new GossipMemoryStore();
      gossipStore, pendingStore, this.sig := g, p, sig;
    }

    method ValidateMessage(m: Message) returns (r: Result)
      requires Separate() && Valid(View())
      modifies gossipStore, pendingStore
      ensures Valid(View()) && (View(), r) == Validated(sig, old(View()), m)
    {
      hide AnnouncementValidated, NodeValidated, UpdateValidated, WellKeyed;
      ValidatedKeepsValid(sig, View(), m);
      match m {
        case ChannelAnnouncement(_, _, _, _) => r := ValidateChannelAnnouncement(m);
        case NodeAnnouncement(_, _, _) => r := ValidateNodeAnnouncement(m);
        case ChannelUpdate(_, _, _, _) => r := ValidateChannelUpdate(m);
        case Other => r := Ok([]);
      }
    }

    method ValidateNodeAnnouncement(m: Message) returns (r: Result)
      requires Separate() && m.NodeAnnouncement? && WellKeyed(gossipStore.View())
      modifies gossipStore, pendingStore
      ensures (View(), r) == NodeValidated(sig, old(View()), m)
    {
      var existing := Lookup(gossipStore.nodeAnn, m.nodeId);
      if existing.Some? && existing.value.timestamp >= m.timestamp { return Ok([]); }
      if ChannelsFor(gossipStore.View(), m.nodeId) == {} {
        pendingStore.SaveNodeAnnouncement(m);
        return Ok([]);
      }
      if !sig.node(m) { return Err(NodeAnnSigFailed); }
      gossipStore.SaveNodeAnnouncement(m);
      return Ok([m]);
    }

    method ValidateChannelUpdate(m: Message) returns (r: Result)
      requires Separate() && m.ChannelUpdate? && WellKeyed(gossipStore.View())
      modifies gossipStore, pendingStore
      ensures (View(), r) == UpdateValidated(sig, old(View()), m)
    {
      var channelMessage := Lookup(gossipStore.channelAnn, m.scid);
      if channelMessage.None? {
        pendingStore.SaveChannelUpdate(m);
        return Ok([]);
      }
      var existing := Lookup(gossipStore.channelUpd, (m.scid, m.direction));
      if existing.Some? && existing.value.timestamp >= m.timestamp { return Ok([]); }
      if !sig.update(m, Sender(channelMessage.value, m.direction)) { return Err(ChanUpdSigFailed); }
      gossipStore.SaveChannelUpdate(m);
      return Ok([m]);
    }

    method ReplayPendingUpdate(u: Option<Message>) returns (r: Result)
      requires Separate() && WellKeyed(gossipStore.View()) && (u.Some? ==> u.value.ChannelUpdate?)
      modifies gossipStore, pendingStore
      ensures (View(), r) == ReplayUpdate(sig, old(View()), u)
    {
      if u.None? { return Ok([]); }
      pendingStore.DeleteChannelUpdate(u.value.scid, u.value.direction);
      r := ValidateChannelUpdate(u.value);
    }

    method ReplayPendingNode(n: Option<Message>) returns (r: Result)
      requires Separate() && WellKeyed(gossipStore.View()) && (n.Some? ==> n.value.NodeAnnouncement?)
      modifies gossipStore, pendingStore
      ensures (View(), r) == ReplayNode(sig, old(View()), n)
    {
      if n.None? { return Ok([]); }
      pendingStore.DeleteNodeAnnouncement(n.value.nodeId);
      r := ValidateNodeAnnouncement(n.value);
    }

    method ValidateChannelAnnouncement(m: Message) returns (r: Result)
      requires Separate() && m.ChannelAnnouncement? && Valid(View())
      modifies gossipStore, pendingStore
      ensures (View(), r) == AnnouncementValidated(sig, old(View()), m)
    {
      hide ReplayUpdate, ReplayNode;
      if m.scid in gossipStore.channelAnn { return Ok([]); }
      if !sig.announcement(m) { return Err(ChanAnnSigFailed); }
      gossipStore.SaveChannelAnnouncement(m);
      assert Valid(View());
      hide WithAnnouncement, WellKeyed;
      PendingShapes(View(), m);
      var u0, u1 := Lookup(pendingStore.channelUpd, (m.scid, 0)), Lookup(pendingStore.channelUpd, (m.scid, 1));
      ReplayKeepsValid(sig, View(), u0, None);
      var r1 := ReplayPendingUpdate(u0);
      if r1.Err? { return r1; }
      ReplayKeepsValid(sig, View(), u1, None);
      var r2 := ReplayPendingUpdate(u1);
      if r2.Err? { return r2; }
      PendingShapes(View(), m);
      var n1, n2 := Lookup(pendingStore.nodeAnn, m.nodeId1), Lookup(pendingStore.nodeAnn, m.nodeId2);
      ReplayKeepsValid(sig, View(), None, n1);
      var r3 := ReplayPendingNode(n1);
      if r3.Err? { return r3; }
      ReplayKeepsValid(sig, View(), None, n2);
      var r4 := ReplayPendingNode(n2);
      if r4.Err? { return r4; }
      return Ok([m] + r1.relayed + r2.relayed + r3.relayed + r4.relayed);
    }
  }
}
