/**
 What enqueueing does in every run, told by the messages themselves, and which message of several with
 the same key the queue holds.
*/
module RelayQueue {
  import opened Common
  import opened GossipFilter
  import opened GossipRelay
  import opened RelayRuns

  /** Announcements of one channel, updates of one direction of a channel, or announcements of one node. */
  predicate SameKey(a: Message, b: Message) {
    match a
    case ChannelAnnouncement(scid, _, _, _) => b.ChannelAnnouncement? && b.scid == scid
    case ChannelUpdate(scid, direction, _, _) => b.ChannelUpdate? && b.scid == scid && b.direction == direction
    case NodeAnnouncement(nodeId, _, _) => b.NodeAnnouncement? && b.nodeId == nodeId
    case Other => false
  }

  predicate Newer(a: Message, b: Message)
    requires SameKey(a, b)
  {
    !a.ChannelAnnouncement? && a.timestamp > b.timestamp
  }

  lemma {:induction false} SameKeyIs(a: Message, b: Message)
    ensures SameKey(a, b) <==> RelayKeyOf(a).Some? && RelayKeyOf(a) == RelayKeyOf(b)
  {
  }

  /** The entry at i leaves, and its successor of the same key goes to the end. */
  function Moved(r: Relay, m: Message, i: nat): Relay
    requires i < |r.queue|
  {
    r.(queue := r.queue[..i] + r.queue[i + 1..] + [Entry(m, r.next)], next := r.next + 1)
  }

  /**
   Whatever came before: without a running relay, or for a message that is no gossip, nothing happens; a
   message whose key is not queued goes to the end; one whose key is queued takes that entry's place, at
   the end, if and only if it is newer.
  */
  lemma {:induction false} EnqueueIs(es: seq<Event>, m: Message, maxLength: nat)
    ensures var r, r' := Run(es, maxLength), Run(es + [Enqueue(m)], maxLength);
            && (!r.active || m.Other? ==> r' == r)
            && (r.active && !m.Other? && (forall e :: e in r.queue ==> !SameKey(e.message, m)) ==>
                  r' == r.(queue := r.queue + [Entry(m, r.next)], next := r.next + 1))
            && (forall i :: 0 <= i < |r.queue| && r.active && SameKey(m, r.queue[i].message) ==>
                  r' == if Newer(m, r.queue[i].message) then Moved(r, m, i) else r)
  {
    var r := Run(es, maxLength);
    RunMore(es, Enqueue(m), maxLength);
    RunIsSafe(es, maxLength);
    InvIsOneAKey(r);
    hide Run, Inv, OneAKey, SameKey, Newer;
    if !r.active || m.Other? {
      NotTaken(r, m);
    } else if forall e :: e in r.queue ==> !SameKey(e.message, m) {
      Fresh(r, m);
    }
    hide Enqueued;
    forall i | 0 <= i < |r.queue| && r.active && SameKey(m, r.queue[i].message)
      ensures Enqueued(r, m) == if Newer(m, r.queue[i].message) then Moved(r, m, i) else r
    {
      AtItsPlace(r, m, i);
    }
  }

  lemma {:induction false} NotTaken(r: Relay, m: Message)
    requires !r.active || m.Other?
    ensures Enqueued(r, m) == r
  {
  }

  lemma {:induction false} Fresh(r: Relay, m: Message)
    requires r.active && !m.Other? && forall e :: e in r.queue ==> !SameKey(e.message, m)
    ensures Enqueued(r, m) == r.(queue := r.queue + [Entry(m, r.next)], next := r.next + 1)
  {
    var at := Position(r.queue, RelayKeyOf(m).value);
    if at.Some? {
      SameKeyIs(r.queue[at.value].message, m);
      assert false;
    }
  }

  lemma {:induction false} AtItsPlace(r: Relay, m: Message, i: nat)
    requires r.active && OneAKey(r.queue) && i < |r.queue| && SameKey(m, r.queue[i].message)
    ensures Enqueued(r, m) == if Newer(m, r.queue[i].message) then Moved(r, m, i) else r
  {
    PositionIs(r.queue, m, i);
    hide OneAKey, Position;
    assert !m.Other?;
  }

  lemma {:induction false} PositionIs(queue: seq<Entry>, m: Message, i: nat)
    requires OneAKey(queue) && i < |queue| && SameKey(m, queue[i].message)
    ensures RelayKeyOf(m).Some? && Position(queue, RelayKeyOf(m).value) == Some(i)
  {
    SameKeyIs(m, queue[i].message);
    hide SameKey, RelayKeyOf;
    assert queue[i] in queue;
  }

  lemma {:induction false} InvIsOneAKey(r: Relay)
    requires Inv(r)
    ensures OneAKey(r.queue)
  {
  }

  predicate Queued(r: Relay, m: Message) {
    exists e :: e in r.queue && SameKey(m, e.message)
  }

  /** The messages with the key of k that were enqueued on a running relay since that key last entered the queue. */
  ghost function Offered(es: seq<Event>, maxLength: nat, k: Message): (r: seq<Message>)
    ensures forall m :: m in r ==> SameKey(k, m)
  {
    if es == [] then [] else
    var pre, e := es[..|es| - 1], es[|es| - 1];
    var before, r := Offered(pre, maxLength, k), Run(pre, maxLength);
    if !e.Enqueue? || !r.active || !SameKey(k, e.message) then before
    else if Queued(r, k) then before + [e.message]
    else [e.message]
  }

  /** Of those, the queue holds one, and none of them is newer. */
  ghost predicate HoldsNewest(offered: seq<Message>, e: Entry) {
    && e.message in offered
    && forall m :: m in offered ==> SameKey(m, e.message) && !Newer(m, e.message)
  }

  /** In every run, a queued entry is the newest of its key since that key last entered the queue. */
  lemma {:induction false} QueuedIsNewest(es: seq<Event>, maxLength: nat, e: Entry)
    requires e in Run(es, maxLength).queue
    ensures HoldsNewest(Offered(es, maxLength, e.message), e)
    decreases |es|
  {
    if es != [] {
      var pre, last := es[..|es| - 1], es[|es| - 1];
      assert es == pre + [last];
      var r := Run(pre, maxLength);
      forall x | x in r.queue ensures HoldsNewest(Offered(pre, maxLength, x.message), x) {
        QueuedIsNewest(pre, maxLength, x);
      }
      hide HoldsNewest, Step, Queued;
      if last.Enqueue? {
        EnqueuedNewest(pre, last.message, maxLength, e);
      } else {
        StepKeepsEntries(r, last, e);
      }
    }
  }

  lemma {:induction false} StepKeepsEntries(r: Relay, event: Event, e: Entry)
    requires !event.Enqueue? && e in Step(r, event).queue
    ensures e in r.queue
  {
  }

  /** Only the key counts. */
  lemma {:induction false} OfferedByKey(es: seq<Event>, maxLength: nat, a: Message, b: Message)
    requires SameKey(a, b)
    ensures Offered(es, maxLength, a) == Offered(es, maxLength, b)
  {
    if es != [] {
      OfferedByKey(es[..|es| - 1], maxLength, a, b);
      hide Run;
    }
  }

  lemma {:induction false} OneMoreOffered(pre: seq<Event>, m: Message, maxLength: nat, k: Message)
    ensures Offered(pre + [Enqueue(m)], maxLength, k) ==
            var before, r := Offered(pre, maxLength, k), Run(pre, maxLength);
            if !r.active || !SameKey(k, m) then before else if Queued(r, k) then before + [m] else [m]
  {
    assert (pre + [Enqueue(m)])[..|pre|] == pre;
    hide Run;
  }

  lemma {:induction false} FirstNewest(m: Message, n: nat)
    requires !m.Other?
    ensures HoldsNewest([m], Entry(m, n))
  {
  }

  lemma {:induction false} OneMoreNewest(offered: seq<Message>, x: Entry, m: Message, n: nat)
    requires HoldsNewest(offered, x) && SameKey(m, x.message)
    ensures HoldsNewest(offered + [m], if Newer(m, x.message) then Entry(m, n) else x)
  {
  }

  lemma {:induction false} EnqueuedNewest(pre: seq<Event>, m: Message, maxLength: nat, e: Entry)
    requires forall x :: x in Run(pre, maxLength).queue ==> HoldsNewest(Offered(pre, maxLength, x.message), x)
    requires e in Run(pre + [Enqueue(m)], maxLength).queue
    ensures HoldsNewest(Offered(pre + [Enqueue(m)], maxLength, e.message), e)
  {
    var r := Run(pre, maxLength);
    EnqueueIs(pre, m, maxLength);
    OneMoreOffered(pre, m, maxLength, e.message);
    RunIsSafe(pre, maxLength);
    InvIsOneAKey(r);
    hide Run, Inv, OneAKey, Offered, HoldsNewest, Newer, Moved;
    if r.active && !m.Other? {
      if i :| 0 <= i < |r.queue| && SameKey(m, r.queue[i].message) {
        assert r.queue[i] in r.queue;
        OfferedByKey(pre, maxLength, m, r.queue[i].message);
        OneMoreNewest(Offered(pre, maxLength, r.queue[i].message), r.queue[i], m, r.next);
        AfterMove(r, m, i, e);
      } else {
        FirstNewest(m, r.next);
      }
    }
  }

  /** An entry of the queue after m came for the key at i is one of another key, or the one that stays of the two. */
  lemma {:induction false} AfterMove(r: Relay, m: Message, i: nat, e: Entry)
    requires OneAKey(r.queue) && i < |r.queue| && SameKey(m, r.queue[i].message)
    requires e in (if Newer(m, r.queue[i].message) then Moved(r, m, i) else r).queue
    ensures || (e in r.queue && !SameKey(e.message, m))
            || e == if Newer(m, r.queue[i].message) then Entry(m, r.next) else r.queue[i]
  {
    OthersHaveOtherKeys(r.queue, i, m);
    hide OneAKey, SameKey;
    if !Newer(m, r.queue[i].message) && e != r.queue[i] {
      assert r.queue == r.queue[..i] + [r.queue[i]] + r.queue[i + 1..];
    }
  }

  lemma {:induction false} OthersHaveOtherKeys(queue: seq<Entry>, i: nat, m: Message)
    requires OneAKey(queue) && i < |queue| && SameKey(m, queue[i].message)
    ensures forall x :: x in queue[..i] + queue[i + 1..] ==> !SameKey(x.message, m)
  {
    forall x | x in queue[..i] + queue[i + 1..] ensures !SameKey(x.message, m) {
      var j :| 0 <= j < |queue| && j != i && queue[j] == x;
      SameKeyIs(x.message, m);
      SameKeyIs(m, queue[i].message);
    }
  }

  /** A tick of a running relay leaves the last entries of the queue, at most maxLength. */
  lemma {:induction false} TickIs(es: seq<Event>, maxLength: nat)
    ensures var r, r' := Run(es, maxLength), Run(es + [Tick], maxLength);
            && r'.queue == (if r.active && |r.queue| > maxLength then r.queue[|r.queue| - maxLength..] else r.queue)
            && r'.peers.Keys == r.peers.Keys && (!r.active ==> r' == r)
            && (forall p :: p !in r.peers ==> Log(r', p) == Log(r, p))
  {
    RunMore(es, Tick, maxLength);
    SameMaximum(es, maxLength);
    hide Run;
  }

  /** A relay runs exactly from a start to the next stop, and these change nothing else. */
  lemma {:induction false} ActiveIs(es: seq<Event>, e: Event, maxLength: nat)
    ensures !Run([], maxLength).active
    ensures var r, r' := Run(es, maxLength), Run(es + [e], maxLength);
            && (r'.active <==> e == Start || (r.active && e != Stop))
            && (e == Start || e == Stop ==> r' == r.(active := r'.active))
  {
    assert Run([], maxLength) == NewRelay(maxLength);
    RunMore(es, e, maxLength);
    hide Run;
  }

  /** A peer is added with nothing to be sent, and once removed is sent nothing until it is added again. */
  lemma {:induction false} PeersAre(es: seq<Event>, p: Peer, maxLength: nat)
    ensures var r, r' := Run(es, maxLength), Run(es + [Add(p)], maxLength);
            p in r'.peers && Pending(r', p) == [] && Log(r', p) == Log(r, p) && r'.queue == r.queue
    ensures var r, r' := Run(es, maxLength), Run(es + [Remove(p)], maxLength);
            p !in r'.peers && Log(r', p) == Log(r, p) && r'.queue == r.queue
    ensures forall q :: q != p ==> Pending(Run(es + [Add(p)], maxLength), q) == Pending(Run(es, maxLength), q)
    ensures forall q :: q != p ==> Pending(Run(es + [Remove(p)], maxLength), q) == Pending(Run(es, maxLength), q)
  {
    RunMore(es, Add(p), maxLength);
    RunMore(es, Remove(p), maxLength);
    hide Run;
  }
}
