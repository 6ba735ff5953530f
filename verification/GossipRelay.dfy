/**
 The rumour queue that gossip is relayed from: one queue of hot messages, and for each peer an index
 into it. Each accepted message is numbered, so that its occurrences in logs can be told apart.
*/
module GossipRelay {
  import opened Common
  import opened GossipFilter

  type Peer = nat

  datatype Entry = Entry(message: Message, number: nat)

  datatype RelayKey = AnnouncementKey(scid: Scid) | UpdateKey(scid: Scid, direction: Direction) | NodeKey(nodeId: NodeId)

  function RelayKeyOf(m: Message): Option<RelayKey> {
    match m
    case ChannelAnnouncement(scid, _, _, _) => Some(AnnouncementKey(scid))
    case ChannelUpdate(scid, direction, _, _) => Some(UpdateKey(scid, direction))
    case NodeAnnouncement(nodeId, _, _) => Some(NodeKey(nodeId))
    case Other => None
  }

  /** The relay, with its history: all it ever sent to a peer, how much before the peer was last added. */
  datatype Relay = Relay(
    active: bool, queue: seq<Entry>, peers: map<Peer, nat>, maxLength: nat,
    sent: map<Peer, seq<Entry>>, start: map<Peer, nat>, next: nat)

  function NewRelay(maxLength: nat): Relay {
    Relay(false, [], map[], maxLength, map[], map[], 0)
  }

  /** Where the message of a key is in the queue. */
  function Position(queue: seq<Entry>, key: RelayKey): (r: Option<nat>)
    ensures r.Some? ==> r.value < |queue| && RelayKeyOf(queue[r.value].message) == Some(key)
    ensures r.None? ==> forall e :: e in queue ==> RelayKeyOf(e.message) != Some(key)
  {
    if queue == [] then None
    else if RelayKeyOf(queue[0].message) == Some(key) then Some(0)
    else
      var rest := Position(queue[1..], key);
      if rest.None? then None else Some(rest.value + 1)
  }

  datatype Verdict = Ignored | Appended | Replaced(position: nat)

  /** What enqueueing a message does. */
  function Judge(r: Relay, m: Message): (v: Verdict)
    ensures v.Replaced? ==> v.position < |r.queue|
  {
    if !r.active || m.Other? then Ignored else
    var position := Position(r.queue, RelayKeyOf(m).value);
    if position.None? then Appended
    else if m.ChannelAnnouncement? then Ignored
    else if r.queue[position.value].message.timestamp < m.timestamp then Replaced(position.value)
    else Ignored
  }

  function Enqueued(r: Relay, m: Message): Relay {
    match Judge(r, m)
    case Ignored => r
    case Appended => r.(queue := r.queue + [Entry(m, r.next)], next := r.next + 1)
    case Replaced(i) => r.(queue := r.queue[..i] + r.queue[i + 1..] + [Entry(m, r.next)], next := r.next + 1)
  }

  function Log(r: Relay, p: Peer): seq<Entry> {
    if p in r.sent then r.sent[p] else []
  }

  /** What a peer has yet to be sent. */
  function Pending(r: Relay, p: Peer): seq<Entry> {
    if p in r.peers && r.peers[p] <= |r.queue| then r.queue[r.peers[p]..] else []
  }

  function Added(r: Relay, p: Peer): Relay {
    r.(peers := r.peers[p := |r.queue|], sent := r.sent[p := Log(r, p)], start := r.start[p := |Log(r, p)|])
  }

  function Removed(r: Relay, p: Peer): Relay {
    r.(peers := r.peers - {p})
  }

  predicate Safe(r: Relay) {
    forall p :: p in r.peers ==> r.peers[p] <= |r.queue| && p in r.sent && p in r.start && r.start[p] <= |r.sent[p]|
  }

  function Flushed(r: Relay, p: Peer): Relay
    requires p in r.peers
  {
    if Pending(r, p) == [] then r
    else r.(sent := r.sent[p := Log(r, p) + Pending(r, p)], peers := r.peers[p := |r.queue|])
  }

  function Excess(r: Relay): nat {
    if |r.queue| > r.maxLength then |r.queue| - r.maxLength else 0
  }

  function Pruned(r: Relay): Relay
    requires forall p :: p in r.peers ==> r.peers[p] >= Excess(r)
  {
    r.(queue := r.queue[Excess(r)..], peers := map p | p in r.peers :: r.peers[p] - Excess(r))
  }

  /** Every peer is flushed, so every index is the length of the queue; then the queue is pruned. */
  function Ticked(r: Relay): Relay {
    r.(queue := r.queue[Excess(r)..],
       peers := map p | p in r.peers :: |r.queue| - Excess(r),
       sent := map p | p in r.sent :: r.sent[p] + Pending(r, p))
  }

  datatype Event = Start | Stop | Add(peer: Peer) | Remove(peer: Peer) | Enqueue(message: Message) | Tick

  /** One event; without a running timer a tick does not happen. */
  function Step(r: Relay, e: Event): Relay {
    match e
    case Start => r.(active := true)
    case Stop => r.(active := false)
    case Add(p) => Added(r, p)
    case Remove(p) => Removed(r, p)
    case Enqueue(m) => Enqueued(r, m)
    case Tick => if r.active then Ticked(r) else r
  }

  // ---------------------------------------------------------------------------
  // One tick, peer by peer

  /** All peers flushed but some. */
  ghost function PartlyFlushed(r: Relay, todo: set<Peer>): Relay {
    r.(peers := map p | p in r.peers :: if p in todo then r.peers[p] else |r.queue|,
       sent := map p | p in r.sent :: if p in todo then r.sent[p] else r.sent[p] + Pending(r, p))
  }

  lemma {:induction false} NoneFlushed(r: Relay)
    requires Safe(r)
    ensures PartlyFlushed(r, r.peers.Keys) == r
  {
    assert forall p :: p in r.sent && p !in r.peers ==> r.sent[p] + Pending(r, p) == r.sent[p];
  }

  lemma {:induction false} FlushOne(r: Relay, todo: set<Peer>, p: Peer)
    requires Safe(r) && p in todo && todo <= r.peers.Keys
    ensures Safe(PartlyFlushed(r, todo)) && p in PartlyFlushed(r, todo).peers
    ensures Flushed(PartlyFlushed(r, todo), p) == PartlyFlushed(r, todo - {p})
  {
    var a, b := PartlyFlushed(r, todo), PartlyFlushed(r, todo - {p});
    assert Pending(a, p) == Pending(r, p);
    if Pending(r, p) == [] {
      assert r.sent[p] + Pending(r, p) == r.sent[p];
      assert a.peers == b.peers;
      assert a.sent == b.sent;
    } else {
      assert a.sent[p := Log(a, p) + Pending(a, p)] == b.sent;
      assert a.peers[p := |a.queue|] == b.peers;
    }
  }

  lemma {:induction false} AllFlushed(r: Relay)
    requires Safe(r)
    ensures var f := PartlyFlushed(r, {});
            && (forall p :: p in f.peers ==> f.peers[p] >= Excess(f))
            && Pruned(f) == Ticked(r)
  {
    var f := PartlyFlushed(r, {});
    assert Pruned(f).peers == Ticked(r).peers;
    assert Pruned(f).sent == Ticked(r).sent;
  }

  // ---------------------------------------------------------------------------
  // The class

  class GossipRelay {
    const maxQueueLen: nat
    var queue: seq<Entry>
    var peers: map<Peer, nat>
    var active: bool
    // the history
    var sent: map<Peer, seq<Entry>>
    var start: map<Peer, nat>
    var next: nat

    function View(): Relay
      reads this
    {
      Relay(active, queue, peers, maxQueueLen, sent, start, next)
    }

    constructor (maxQueueLen: nat)
      ensures View() == NewRelay(maxQueueLen)
    {
      this.maxQueueLen := maxQueueLen;
      queue, peers, active, sent, start, next := [], map[], false, map[], map[], 0;
    }

    method StartRelay()
      modifies this`active
      ensures View() == Step(old(View()), Start)
    {
      if active { return; }
      active := true;
    }

    method StopRelay()
      modifies this`active
      ensures View() == Step(old(View()), Stop)
    {
      if !active { return; }
      active := false;
    }

    /** Also for a peer already there, whose index then moves to the end. */
    method AddPeer(peer: Peer)
      modifies this`peers, this`sent, this`start
      ensures View() == Step(old(View()), Add(peer))
    {
      peers := peers[peer := |queue|];
      sent := sent[peer := if peer in sent then sent[peer] else []];
      start := start[peer := |sent[peer]|];
    }

    method RemovePeer(peer: Peer)
      modifies this`peers
      ensures View() == Step(old(View()), Remove(peer))
    {
      peers := peers - {peer};
    }

    method FindInQueue(key: RelayKey) returns (position: Option<nat>)
      ensures position == Position(queue, key)
    {
      var i := 0;
      while i < |queue|
        invariant 0 <= i <= |queue|
        invariant Position(queue, key) ==
                  var rest := Position(queue[i..], key);
                  if rest.None? then None else Some(rest.value + i)
      {
        if RelayKeyOf(queue[i].message) == Some(key) {
          return Some(i);
        }
        assert queue[i..][1..] == queue[i + 1..];
        i := i + 1;
      }
      return None;
    }

    method EnqueueMessage(m: Message)
      modifies this`queue, this`next
      ensures View() == Step(old(View()), Enqueue(m))
    {
      if !active || m.Other? { return; }
      var existing := FindInQueue(RelayKeyOf(m).value);
      if existing.None? {
        queue, next := queue + [Entry(m, next)], next + 1;
        return;
      }
      if m.ChannelAnnouncement? { return; }
      var i := existing.value;
      if queue[i].message.timestamp < m.timestamp {
        queue := queue[..i] + queue[i + 1..];
        queue, next := queue + [Entry(m, next)], next + 1;
      }
    }

    method FlushToPeer(peer: Peer)
      requires Safe(View()) && peer in peers
      modifies this`peers, this`sent
      ensures View() == Flushed(old(View()), peer)
    {
      var i := peers[peer];
      ghost var from, log := i, sent[peer];
      while i < |queue|
        invariant from <= i <= |queue|
        invariant i == from ==> peers == old(peers) && sent == old(sent)
        invariant i > from ==> peers == old(peers)[peer := |queue|]
        invariant i > from ==> sent == old(sent)[peer := log + queue[from..i]]
      {
        sent := sent[peer := sent[peer] + [queue[i]]];
        peers := peers[peer := |queue|];
        assert queue[from..i] + [queue[i]] == queue[from..i + 1];
        assert sent[peer] == log + queue[from..i + 1];
        i := i + 1;
      }
      assert queue[from..|queue|] == queue[from..];
    }

    method PruneQueue()
      requires forall p :: p in peers ==> peers[p] >= Excess(View())
      modifies this`queue, this`peers
      ensures View() == Pruned(old(View()))
    {
      var deleteCount := if |queue| > maxQueueLen then |queue| - maxQueueLen else 0;
      if deleteCount == 0 { return; }
      queue := queue[deleteCount..];
      var todo := peers.Keys;
      while todo != {}
        invariant queue == old(queue)[deleteCount..] && todo <= peers.Keys == old(peers).Keys
        invariant forall p :: p in todo ==> peers[p] == old(peers)[p]
        invariant forall p :: p in peers && p !in todo ==> peers[p] == old(peers)[p] - deleteCount
        decreases |todo|
      {
        var p :| p in todo;
        peers := peers[p := peers[p] - deleteCount];
        todo := todo - {p};
      }
    }

    method OnTimer()
      requires Safe(View())
      modifies this`queue, this`peers, this`sent
      ensures View() == Ticked(old(View()))
    {
      var todo := peers.Keys;
      ghost var before := View();
      NoneFlushed(before);
      hide Safe, Flushed, PartlyFlushed, Pruned;
      while todo != {}
        invariant todo <= before.peers.Keys && View() == PartlyFlushed(before, todo)
        decreases |todo|
      {
        var p :| p in todo;
        FlushOne(before, todo, p);
        FlushToPeer(p);
        todo := todo - {p};
      }
      AllFlushed(before);
      PruneQueue();
    }
  }
}
