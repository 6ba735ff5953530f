/**
 What the gossip filter ends up holding, for every sequence of signed messages: which messages are
 public, which wait, and on what part of the arrival order that depends.
*/
module GossipOrder {
  import opened Common
  import opened GossipFilter

  /** What a message replaces: the update of one direction of a channel, or a node's announcement. */
  datatype Key = UpdateKey(scid: Scid, direction: Direction) | NodeKey(nodeId: NodeId)

  function KeyOf(m: Message): Option<Key> {
    match m
    case ChannelUpdate(scid, direction, _, _) => Some(UpdateKey(scid, direction))
    case NodeAnnouncement(nodeId, _, _) => Some(NodeKey(nodeId))
    case _ => None
  }

  predicate Keyed(m: Message) {
    m.ChannelUpdate? || m.NodeAnnouncement?
  }

  function Find(s: Store, k: Key): Option<Message> {
    match k
    case UpdateKey(scid, direction) => Lookup(s.upd, (scid, direction))
    case NodeKey(n) => Lookup(s.node, n)
  }

  predicate HasNode(ann: Message, n: NodeId)
    requires ann.ChannelAnnouncement?
  {
    n == ann.nodeId1 || n == ann.nodeId2
  }

  // ---------------------------------------------------------------------------
  // Functions of the arrival sequence

  /** The first announcement of a channel. */
  ghost function FirstAnnouncement(ms: seq<Message>, scid: Scid): (r: Option<Message>)
    ensures r.Some? ==> r.value in ms && r.value.ChannelAnnouncement? && r.value.scid == scid
  {
    if ms == [] then None else
    var before, m := FirstAnnouncement(ms[..|ms| - 1], scid), ms[|ms| - 1];
    if before.Some? then before
    else if m.ChannelAnnouncement? && m.scid == scid then Some(m)
    else None
  }

  /** The announced channels of a node. */
  ghost function ChannelsOf(ms: seq<Message>, n: NodeId): set<Scid> {
    if ms == [] then {} else
    var before, m := ChannelsOf(ms[..|ms| - 1], n), ms[|ms| - 1];
    if m.ChannelAnnouncement? && FirstAnnouncement(ms[..|ms| - 1], m.scid).None? && HasNode(m, n)
    then before + {m.scid} else before
  }

  /** Messages for a key are public once its channel, or a channel of its node, is announced. */
  ghost predicate Opened(ms: seq<Message>, k: Key) {
    match k
    case UpdateKey(scid, _) => FirstAnnouncement(ms, scid).Some?
    case NodeKey(n) => ChannelsOf(ms, n) != {}
  }

  /** The message held for a key: while it waits the latest to arrive, once public only newer ones. */
  ghost function Held(ms: seq<Message>, k: Key): (r: Option<Message>)
    ensures r.Some? ==> r.value in ms && KeyOf(r.value) == Some(k)
  {
    if ms == [] then None else
    var pre, m := ms[..|ms| - 1], ms[|ms| - 1];
    var before := Held(pre, k);
    if KeyOf(m) != Some(k) then before
    else if Opened(pre, k) && before.Some? && before.value.timestamp >= m.timestamp then before
    else Some(m)
  }

  /**
   The signatures check: of node announcements, of the first announcement of each channel, and of updates
   against that one.
  */
  ghost predicate AllSigned(sig: Signatures, ms: seq<Message>) {
    && (forall m :: m in ms && m.NodeAnnouncement? ==> sig.node(m))
    && (forall s :: FirstAnnouncement(ms, s).Some? ==> sig.announcement(FirstAnnouncement(ms, s).value))
    && (forall u :: u in ms && u.ChannelUpdate? && FirstAnnouncement(ms, u.scid).Some? ==>
          sig.update(u, Sender(FirstAnnouncement(ms, u.scid).value, u.direction)))
  }

  ghost function Run(sig: Signatures, ms: seq<Message>): (f: Filter)
    ensures Valid(f)
  {
    if ms == [] then Filter(EmptyStore(), EmptyStore())
    else
      var f := Run(sig, ms[..|ms| - 1]);
      ValidatedKeepsValid(sig, f, ms[|ms| - 1]);
      Validated(sig, f, ms[|ms| - 1]).0
  }

  /** The two stores hold exactly what the sequence says. */
  ghost predicate Settled(f: Filter, ms: seq<Message>) {
    && Valid(f)
    && (forall s :: Lookup(f.gossip.ann, s) == FirstAnnouncement(ms, s))
    && (forall n :: ChannelsFor(f.gossip, n) == ChannelsOf(ms, n))
    && (forall k :: Find(f.gossip, k) == if Opened(ms, k) then Held(ms, k) else None)
    && (forall k :: Find(f.pending, k) == if Opened(ms, k) then None else Held(ms, k))
  }

  // ---------------------------------------------------------------------------
  // One update or node announcement

  lemma {:induction false} SequenceStep(pre: seq<Message>, m: Message)
    ensures (pre + [m])[..|pre|] == pre && (pre + [m])[|pre|] == m
  {
  }

  /** What one more message does to the message held for each key. */
  lemma {:induction false} HeldStep(pre: seq<Message>, m: Message, k: Key)
    ensures Held(pre + [m], k) ==
            if KeyOf(m) != Some(k) then Held(pre, k)
            else if Opened(pre, k) && Held(pre, k).Some? && Held(pre, k).value.timestamp >= m.timestamp then Held(pre, k)
            else Some(m)
  {
    hide Opened;
    SequenceStep(pre, m);
  }

  /** An update or a node announcement touches one key of one store. */
  lemma {:induction false} KeyedEffect(sig: Signatures, f: Filter, m: Message, open: bool)
    requires Valid(f) && Keyed(m)
    requires m.ChannelUpdate? ==> open == (m.scid in f.gossip.ann)
    requires m.ChannelUpdate? && m.scid in f.gossip.ann ==> sig.update(m, Sender(f.gossip.ann[m.scid], m.direction))
    requires m.NodeAnnouncement? ==> open == (ChannelsFor(f.gossip, m.nodeId) != {}) && sig.node(m)
    requires !open ==> Find(f.gossip, KeyOf(m).value).None?
    ensures Validated(sig, f, m).1.Ok?
    ensures var f' := Validated(sig, f, m).0; var held := Find(f.gossip, KeyOf(m).value);
            && f'.gossip.ann == f.gossip.ann && f'.gossip.nodeChannels == f.gossip.nodeChannels
            && (forall k :: k != KeyOf(m).value ==> Find(f'.gossip, k) == Find(f.gossip, k))
            && (forall k :: k != KeyOf(m).value ==> Find(f'.pending, k) == Find(f.pending, k))
            && Find(f'.pending, KeyOf(m).value) == (if open then Find(f.pending, KeyOf(m).value) else Some(m))
            && Find(f'.gossip, KeyOf(m).value) ==
               (if !open || (held.Some? && held.value.timestamp >= m.timestamp) then held else Some(m))
  {
  }

  lemma {:induction false} KeyedSettles(sig: Signatures, f: Filter, pre: seq<Message>, m: Message)
    requires Settled(f, pre) && Keyed(m) && AllSigned(sig, pre + [m])
    ensures Settled(Validated(sig, f, m).0, pre + [m]) && Validated(sig, f, m).1.Ok?
  {
    var ms, f' := pre + [m], Validated(sig, f, m).0;
    var key := KeyOf(m).value;
    var open := Opened(pre, key);
    ValidatedKeepsValid(sig, f, m);
    KeyedKeepsPublic(pre, m);
    assert m in ms;
    hide Held, Validated, Find;
    if m.ChannelUpdate? && open {
      assert Lookup(f.gossip.ann, m.scid) == FirstAnnouncement(pre, m.scid);
    }
    assert m.ChannelUpdate? ==> Lookup(f.gossip.ann, m.scid) == FirstAnnouncement(pre, m.scid);
    assert m.NodeAnnouncement? ==> ChannelsFor(f.gossip, m.nodeId) == ChannelsOf(pre, m.nodeId);
    assert Find(f.gossip, key) == if open then Held(pre, key) else None;
    KeyedEffect(sig, f, m, open);
    hide AllSigned, FirstAnnouncement, ChannelsOf, Opened;
    forall k
      ensures Find(f'.gossip, k) == if Opened(ms, k) then Held(ms, k) else None
      ensures Find(f'.pending, k) == if Opened(ms, k) then None else Held(ms, k)
    {
      HeldStep(pre, m, k);
      assert Find(f.gossip, k) == if Opened(pre, k) then Held(pre, k) else None;
      assert Find(f.pending, k) == if Opened(pre, k) then None else Held(pre, k);
    }
  }

  /** Updates and node announcements announce no channel. */
  lemma {:induction false} KeyedKeepsPublic(pre: seq<Message>, m: Message)
    requires !m.ChannelAnnouncement?
    ensures forall s :: FirstAnnouncement(pre + [m], s) == FirstAnnouncement(pre, s)
    ensures forall n :: ChannelsOf(pre + [m], n) == ChannelsOf(pre, n)
    ensures forall k :: Opened(pre + [m], k) == Opened(pre, k)
  {
    SequenceStep(pre, m);
  }

  // ---------------------------------------------------------------------------
  // One channel announcement

  /** The pending message of a key, if there is one, has moved to the gossip store. */
  ghost predicate Drained(f: Filter, f': Filter, k: Key) {
    && f'.gossip.ann == f.gossip.ann && f'.gossip.nodeChannels == f.gossip.nodeChannels
    && Find(f'.gossip, k) == (if Find(f.pending, k).Some? then Find(f.pending, k) else Find(f.gossip, k))
    && Find(f'.pending, k).None?
    && (forall other :: other != k ==> Find(f'.gossip, other) == Find(f.gossip, other))
    && (forall other :: other != k ==> Find(f'.pending, other) == Find(f.pending, other))
  }

  /** No key is held in both stores. */
  ghost predicate Apart(f: Filter) {
    forall k :: Find(f.pending, k).Some? ==> Find(f.gossip, k).None?
  }

  lemma {:induction false} DrainedKeepsApart(f: Filter, f': Filter, k: Key)
    requires Apart(f) && Drained(f, f', k)
    ensures Apart(f')
  {
    hide Find;
    forall other | Find(f'.pending, other).Some? ensures Find(f'.gossip, other).None? {
      assert other != k;
    }
  }

  lemma {:induction false} ReplayUpdateDrains(sig: Signatures, f: Filter, scid: Scid, direction: Direction)
    requires Valid(f) && Apart(f) && scid in f.gossip.ann
    requires var u := Find(f.pending, UpdateKey(scid, direction));
             u.Some? ==> u.value.ChannelUpdate? && sig.update(u.value, Sender(f.gossip.ann[scid], direction))
    ensures var u := Lookup(f.pending.upd, (scid, direction));
            && (u.Some? ==> u.value.ChannelUpdate?)
            && ReplayUpdate(sig, f, u).1.Ok?
            && Drained(f, ReplayUpdate(sig, f, u).0, UpdateKey(scid, direction))
            && Valid(ReplayUpdate(sig, f, u).0)
  {
    var u := Lookup(f.pending.upd, (scid, direction));
    assert u == Find(f.pending, UpdateKey(scid, direction));
    ReplayKeepsValid(sig, f, u, None);
  }

  /** A node on both ends of the channel is replayed twice; the second time changes nothing. */
  lemma {:induction false} ReplayNodeDrains(sig: Signatures, f: Filter, n: NodeId, a: Option<Message>)
    requires Valid(f) && Apart(f) && ChannelsFor(f.gossip, n) != {}
    requires || a == Find(f.pending, NodeKey(n))
             || (a.Some? && a == Find(f.gossip, NodeKey(n)) && Find(f.pending, NodeKey(n)).None?)
    requires a.Some? ==> a.value.NodeAnnouncement? && sig.node(a.value)
    ensures ReplayNode(sig, f, a).1.Ok?
    ensures Drained(f, ReplayNode(sig, f, a).0, NodeKey(n)) && Valid(ReplayNode(sig, f, a).0)
  {
    ReplayKeepsValid(sig, f, None, a);
    if a == Find(f.pending, NodeKey(n)) && a.Some? {
      assert Find(f.gossip, NodeKey(n)).None?;
    }
  }

  /** The keys an announcement makes public. */
  predicate Opens(m: Message, k: Key)
    requires m.ChannelAnnouncement?
  {
    match k
    case UpdateKey(scid, _) => scid == m.scid
    case NodeKey(n) => HasNode(m, n)
  }

  /** The signatures of what waits for an announcement. */
  ghost predicate PendingSigned(sig: Signatures, f: Filter, m: Message)
    requires m.ChannelAnnouncement?
  {
    && (forall d: Direction :: var u := Find(f.pending, UpdateKey(m.scid, d));
          u.Some? ==> u.value.ChannelUpdate? && sig.update(u.value, Sender(m, d)))
    && (forall n :: HasNode(m, n) ==> var a := Find(f.pending, NodeKey(n));
          a.Some? ==> a.value.NodeAnnouncement? && sig.node(a.value))
  }

  ghost predicate AllDrained(f: Filter, f': Filter, m: Message)
    requires m.ChannelAnnouncement?
  {
    && Valid(f')
    && f'.gossip.ann == f.gossip.ann[m.scid := m]
    && (forall n :: ChannelsFor(f'.gossip, n) == ChannelsFor(f.gossip, n) + if HasNode(m, n) then {m.scid} else {})
    && (forall k :: Find(f'.gossip, k) ==
          if Opens(m, k) && Find(f.pending, k).Some? then Find(f.pending, k) else Find(f.gossip, k))
    && (forall k :: Find(f'.pending, k) == if Opens(m, k) then None else Find(f.pending, k))
  }

  lemma {:induction false} AnnouncementSaved(f: Filter, m: Message)
    requires Valid(f) && m.ChannelAnnouncement?
    ensures var f0 := f.(gossip := WithAnnouncement(f.gossip, m));
            && Valid(f0) && f0.gossip.ann == f.gossip.ann[m.scid := m]
            && (forall n :: ChannelsFor(f0.gossip, n) == ChannelsFor(f.gossip, n) + if HasNode(m, n) then {m.scid} else {})
            && (forall k :: Find(f0.gossip, k) == Find(f.gossip, k))
            && (forall k :: Find(f0.pending, k) == Find(f.pending, k))
  {
  }

  lemma {:induction false} LookupIsFind(s: Store, scid: Scid, direction: Direction, n: NodeId)
    ensures Lookup(s.upd, (scid, direction)) == Find(s, UpdateKey(scid, direction))
    ensures Lookup(s.node, n) == Find(s, NodeKey(n))
  {
  }

  lemma {:induction false} SameChannels(f: Filter, f': Filter, n: NodeId)
    requires f'.gossip.nodeChannels == f.gossip.nodeChannels
    ensures ChannelsFor(f'.gossip, n) == ChannelsFor(f.gossip, n)
  {
  }

  lemma {:induction false} FourDrained(
      f: Filter, f0: Filter, f1: Filter, f2: Filter, f3: Filter, f4: Filter, m: Message)
    requires Apart(f) && m.ChannelAnnouncement? && Valid(f4)
    requires f0.gossip.ann == f.gossip.ann[m.scid := m]
    requires forall n ::
      ChannelsFor(f0.gossip, n) == ChannelsFor(f.gossip, n) + if HasNode(m, n) then {m.scid} else {}
    requires forall k :: Find(f0.gossip, k) == Find(f.gossip, k)
    requires forall k :: Find(f0.pending, k) == Find(f.pending, k)
    requires Drained(f0, f1, UpdateKey(m.scid, 0)) && Drained(f1, f2, UpdateKey(m.scid, 1))
    requires Drained(f2, f3, NodeKey(m.nodeId1)) && Drained(f3, f4, NodeKey(m.nodeId2))
    ensures AllDrained(f, f4, m)
  {
    hide Find, WellKeyed;
    forall n
      ensures ChannelsFor(f4.gossip, n) == ChannelsFor(f.gossip, n) + if HasNode(m, n) then {m.scid} else {}
    {
      SameChannels(f0, f4, n);
    }
    forall k
      ensures Find(f4.gossip, k) ==
              if Opens(m, k) && Find(f.pending, k).Some? then Find(f.pending, k) else Find(f.gossip, k)
      ensures Find(f4.pending, k) == if Opens(m, k) then None else Find(f.pending, k)
    {
      assert k.UpdateKey? ==> k.direction == 0 || k.direction == 1;
      assert Find(f0.gossip, k) == Find(f.gossip, k) && Find(f0.pending, k) == Find(f.pending, k);
    }
  }

  lemma {:induction false} UpdatesDrain(sig: Signatures, f: Filter, f0: Filter, m: Message)
    returns (f2: Filter, u0: Option<Message>, u1: Option<Message>)
    requires Apart(f) && m.ChannelAnnouncement? && Valid(f0) && PendingSigned(sig, f, m)
    requires f0.gossip.ann == f.gossip.ann[m.scid := m]
    requires forall k :: Find(f0.gossip, k) == Find(f.gossip, k)
    requires forall k :: Find(f0.pending, k) == Find(f.pending, k)
    ensures u0 == Lookup(f0.pending.upd, (m.scid, 0)) && u1 == Lookup(f0.pending.upd, (m.scid, 1))
    ensures (u0.Some? ==> u0.value.ChannelUpdate?) && (u1.Some? ==> u1.value.ChannelUpdate?)
    ensures ReplayUpdate(sig, f0, u0).1.Ok? && Valid(ReplayUpdate(sig, f0, u0).0)
    ensures ReplayUpdate(sig, ReplayUpdate(sig, f0, u0).0, u1).1.Ok? && Valid(f2)
    ensures f2 == ReplayUpdate(sig, ReplayUpdate(sig, f0, u0).0, u1).0
    ensures Drained(f0, ReplayUpdate(sig, f0, u0).0, UpdateKey(m.scid, 0))
    ensures Drained(ReplayUpdate(sig, f0, u0).0, f2, UpdateKey(m.scid, 1))
  {
    hide ReplayUpdate, WellKeyed, Find, Lookup;
    LookupIsFind(f0.pending, m.scid, 0, m.nodeId1);
    LookupIsFind(f0.pending, m.scid, 1, m.nodeId1);
    u0, u1 := Lookup(f0.pending.upd, (m.scid, 0)), Lookup(f0.pending.upd, (m.scid, 1));
    assert Find(f0.pending, UpdateKey(m.scid, 0)) == Find(f.pending, UpdateKey(m.scid, 0));
    assert Find(f0.pending, UpdateKey(m.scid, 1)) == Find(f.pending, UpdateKey(m.scid, 1));
    assert Apart(f0);
    ReplayUpdateDrains(sig, f0, m.scid, 0);
    var f1 := ReplayUpdate(sig, f0, u0).0;
    DrainedKeepsApart(f0, f1, UpdateKey(m.scid, 0));
    LookupIsFind(f1.pending, m.scid, 1, m.nodeId1);
    ReplayUpdateDrains(sig, f1, m.scid, 1);
    f2 := ReplayUpdate(sig, f1, u1).0;
  }

  lemma {:induction false} NodesDrain(
      sig: Signatures, f: Filter, f0: Filter, f1: Filter, f2: Filter, m: Message)
    returns (f3: Filter, f4: Filter)
    requires Apart(f) && m.ChannelAnnouncement? && Valid(f2) && PendingSigned(sig, f, m)
    requires forall n ::
      ChannelsFor(f0.gossip, n) == ChannelsFor(f.gossip, n) + if HasNode(m, n) then {m.scid} else {}
    requires forall k :: Find(f0.gossip, k) == Find(f.gossip, k)
    requires forall k :: Find(f0.pending, k) == Find(f.pending, k)
    requires Drained(f0, f1, UpdateKey(m.scid, 0)) && Drained(f1, f2, UpdateKey(m.scid, 1))
    ensures var n1, n2 := Lookup(f2.pending.node, m.nodeId1), Lookup(f2.pending.node, m.nodeId2);
            && (n1.Some? ==> n1.value.NodeAnnouncement?) && (n2.Some? ==> n2.value.NodeAnnouncement?)
            && f3 == ReplayNode(sig, f2, n1).0 && ReplayNode(sig, f2, n1).1.Ok? && Valid(f3)
            && f4 == ReplayNode(sig, f3, n2).0 && ReplayNode(sig, f3, n2).1.Ok? && Valid(f4)
    ensures Drained(f2, f3, NodeKey(m.nodeId1)) && Drained(f3, f4, NodeKey(m.nodeId2))
  {
    hide ReplayNode, WellKeyed, Find, Lookup, ChannelsFor;
    var k1, k2 := NodeKey(m.nodeId1), NodeKey(m.nodeId2);
    assert Apart(f0);
    DrainedKeepsApart(f0, f1, UpdateKey(m.scid, 0));
    DrainedKeepsApart(f1, f2, UpdateKey(m.scid, 1));
    assert Find(f2.pending, k1) == Find(f.pending, k1) by { assert Find(f0.pending, k1) == Find(f.pending, k1); }
    assert Find(f2.pending, k2) == Find(f.pending, k2) by { assert Find(f0.pending, k2) == Find(f.pending, k2); }
    LookupIsFind(f2.pending, m.scid, 0, m.nodeId1);
    LookupIsFind(f2.pending, m.scid, 0, m.nodeId2);
    var n1, n2 := Lookup(f2.pending.node, m.nodeId1), Lookup(f2.pending.node, m.nodeId2);
    SameChannels(f0, f2, m.nodeId1);
    assert m.scid in ChannelsFor(f2.gossip, m.nodeId1);
    ReplayNodeDrains(sig, f2, m.nodeId1, n1);
    f3 := ReplayNode(sig, f2, n1).0;
    DrainedKeepsApart(f2, f3, k1);
    SameChannels(f0, f3, m.nodeId2);
    assert m.scid in ChannelsFor(f3.gossip, m.nodeId2);
    ReplayNodeDrains(sig, f3, m.nodeId2, n2);
    f4 := ReplayNode(sig, f3, n2).0;
  }

  lemma {:induction false} AnnouncementDrains(sig: Signatures, f: Filter, m: Message)
    requires Valid(f) && Apart(f) && m.ChannelAnnouncement? && m.scid !in f.gossip.ann
    requires sig.announcement(m) && PendingSigned(sig, f, m)
    ensures AnnouncementValidated(sig, f, m).1.Ok?
    ensures AllDrained(f, AnnouncementValidated(sig, f, m).0, m)
  {
    hide ReplayUpdate, ReplayNode, WithAnnouncement, WellKeyed, Find, ChannelsFor, Lookup, AllDrained;
    var f0 := f.(gossip := WithAnnouncement(f.gossip, m));
    AnnouncementSaved(f, m);
    var f2, u0, u1 := UpdatesDrain(sig, f, f0, m);
    var f1 := ReplayUpdate(sig, f0, u0).0;
    var n1, n2 := Lookup(f2.pending.node, m.nodeId1), Lookup(f2.pending.node, m.nodeId2);
    var f3, f4 := NodesDrain(sig, f, f0, f1, f2, m);
    FourDrained(f, f0, f1, f2, f3, f4, m);
    hide Drained, Apart, PendingSigned;
  }

  /** What one more announcement does to the functions of the sequence. */
  lemma {:induction false} AnnouncementStep(pre: seq<Message>, m: Message)
    requires m.ChannelAnnouncement?
    ensures var first := FirstAnnouncement(pre, m.scid).None?;
            && (forall s :: FirstAnnouncement(pre + [m], s) ==
                  if first && s == m.scid then Some(m) else FirstAnnouncement(pre, s))
            && (forall n :: ChannelsOf(pre + [m], n) ==
                  ChannelsOf(pre, n) + if first && HasNode(m, n) then {m.scid} else {})
            && (forall k :: Opened(pre + [m], k) <==> Opened(pre, k) || (first && Opens(m, k)))
            && (forall k :: Held(pre + [m], k) == Held(pre, k))
  {
    SequenceStep(pre, m);
    assert KeyOf(m).None?;
  }

  lemma {:induction false} WhatWaitsIsSigned(sig: Signatures, f: Filter, pre: seq<Message>, m: Message)
    requires Settled(f, pre) && m.ChannelAnnouncement? && AllSigned(sig, pre + [m])
    requires FirstAnnouncement(pre, m.scid).None?
    ensures PendingSigned(sig, f, m) && Apart(f)
  {
    assert FirstAnnouncement(pre + [m], m.scid) == Some(m) by {
      AnnouncementStep(pre, m);
    }
    hide Find, Held, Opened, WellKeyed, FirstAnnouncement, ChannelsOf;
    forall d: Direction
      ensures var u := Find(f.pending, UpdateKey(m.scid, d));
              u.Some? ==> u.value.ChannelUpdate? && sig.update(u.value, Sender(m, d))
    {
      var u := Find(f.pending, UpdateKey(m.scid, d));
      if u.Some? {
        assert u == Held(pre, UpdateKey(m.scid, d));
        assert u.value in pre + [m];
        assert u.value.scid == m.scid && u.value.direction == d;
      }
    }
    forall n | HasNode(m, n)
      ensures var a := Find(f.pending, NodeKey(n)); a.Some? ==> a.value.NodeAnnouncement? && sig.node(a.value)
    {
      var a := Find(f.pending, NodeKey(n));
      if a.Some? {
        assert a == Held(pre, NodeKey(n));
        assert a.value in pre + [m];
      }
    }
  }

  lemma {:induction false} AnnouncementSettles(sig: Signatures, f: Filter, pre: seq<Message>, m: Message)
    requires Settled(f, pre) && m.ChannelAnnouncement? && AllSigned(sig, pre + [m])
    ensures Settled(Validated(sig, f, m).0, pre + [m]) && Validated(sig, f, m).1.Ok?
  {
    assert Lookup(f.gossip.ann, m.scid) == FirstAnnouncement(pre, m.scid);
    if m.scid !in f.gossip.ann {
      OpeningSettles(sig, f, pre, m);
    } else {
      AnnouncementStep(pre, m);
      hide Find, Held, Opened, WellKeyed, FirstAnnouncement, ChannelsOf, ChannelsFor;
      assert Validated(sig, f, m).0 == f;
    }
  }

  lemma {:induction false} OpeningSettles(sig: Signatures, f: Filter, pre: seq<Message>, m: Message)
    requires Settled(f, pre) && m.ChannelAnnouncement? && AllSigned(sig, pre + [m])
    requires m.scid !in f.gossip.ann && FirstAnnouncement(pre, m.scid).None?
    ensures Settled(Validated(sig, f, m).0, pre + [m]) && Validated(sig, f, m).1.Ok?
  {
    var ms, f' := pre + [m], Validated(sig, f, m).0;
    AnnouncementStep(pre, m);
    WhatWaitsIsSigned(sig, f, pre, m);
    hide Find, Held, Opened, WellKeyed, FirstAnnouncement, ChannelsOf, ChannelsFor;
    AnnouncementDrains(sig, f, m);
    hide AnnouncementValidated, AllSigned, PendingSigned, Apart;
    forall s ensures Lookup(f'.gossip.ann, s) == FirstAnnouncement(ms, s) {
      assert Lookup(f.gossip.ann, s) == FirstAnnouncement(pre, s);
    }
    forall n ensures ChannelsFor(f'.gossip, n) == ChannelsOf(ms, n) {
      assert ChannelsFor(f.gossip, n) == ChannelsOf(pre, n);
    }
    forall k
      ensures Find(f'.gossip, k) == if Opened(ms, k) then Held(ms, k) else None
      ensures Find(f'.pending, k) == if Opened(ms, k) then None else Held(ms, k)
    {
      assert Find(f.gossip, k) == if Opened(pre, k) then Held(pre, k) else None;
      assert Find(f.pending, k) == if Opened(pre, k) then None else Held(pre, k);
    }
  }

  // ---------------------------------------------------------------------------
  // Every sequence

  lemma {:induction false} FirstStays(pre: seq<Message>, m: Message, s: Scid)
    requires FirstAnnouncement(pre, s).Some?
    ensures FirstAnnouncement(pre + [m], s) == FirstAnnouncement(pre, s)
  {
    SequenceStep(pre, m);
  }

  lemma {:induction false} SignedSoFar(sig: Signatures, pre: seq<Message>, m: Message)
    requires AllSigned(sig, pre + [m])
    ensures AllSigned(sig, pre)
  {
    hide FirstAnnouncement;
    forall s | FirstAnnouncement(pre, s).Some? ensures FirstAnnouncement(pre + [m], s) == FirstAnnouncement(pre, s) {
      FirstStays(pre, m, s);
    }
    forall x | x in pre ensures x in pre + [m] {
    }
  }

  /** Any sequence of signed messages, whatever its timestamps, leaves exactly what Held says. */
  lemma {:induction false} RunSettles(sig: Signatures, ms: seq<Message>)
    requires AllSigned(sig, ms)
    ensures Settled(Run(sig, ms), ms)
  {
    if ms != [] {
      var pre, m := ms[..|ms| - 1], ms[|ms| - 1];
      assert ms == pre + [m];
      SignedSoFar(sig, pre, m);
      RunSettles(sig, pre);
      var f := Run(sig, pre);
      hide Settled, Valid;
      if Keyed(m) {
        KeyedSettles(sig, f, pre, m);
      } else if m.ChannelAnnouncement? {
        AnnouncementSettles(sig, f, pre, m);
      } else {
        OtherSettles(sig, f, pre, m);
      }
    }
  }

  lemma {:induction false} OtherSettles(sig: Signatures, f: Filter, pre: seq<Message>, m: Message)
    requires Settled(f, pre) && m.Other?
    ensures Settled(Validated(sig, f, m).0, pre + [m])
  {
    var ms := pre + [m];
    KeyedKeepsPublic(pre, m);
    hide Find, Opened, WellKeyed, FirstAnnouncement, ChannelsOf, ChannelsFor, Held;
    forall k
      ensures Find(f.gossip, k) == if Opened(ms, k) then Held(ms, k) else None
      ensures Find(f.pending, k) == if Opened(ms, k) then None else Held(ms, k)
    {
      HeldStep(pre, m, k);
      assert Find(f.gossip, k) == if Opened(pre, k) then Held(pre, k) else None;
      assert Find(f.pending, k) == if Opened(pre, k) then None else Held(pre, k);
    }
  }

  // ---------------------------------------------------------------------------
  // Rising timestamps: the order between keys does not matter

  /** The messages of one key, in order of arrival. */
  ghost function Stream(ms: seq<Message>, k: Key): (r: seq<Message>)
    ensures forall m :: m in r <==> m in ms && KeyOf(m) == Some(k)
  {
    if ms == [] then [] else
    var before, m := Stream(ms[..|ms| - 1], k), ms[|ms| - 1];
    assert ms == ms[..|ms| - 1] + [m];
    if KeyOf(m) == Some(k) then before + [m] else before
  }

  /** Timestamps rise; a message may be repeated. */
  predicate Rising(s: seq<Message>) {
    forall i, j :: 0 <= i < j < |s| ==> Keyed(s[i]) && Keyed(s[j]) && (s[i] == s[j] || s[i].timestamp < s[j].timestamp)
  }

  function Last(s: seq<Message>): Option<Message> {
    if s == [] then None else Some(s[|s| - 1])
  }

  /** When a key's timestamps rise, what is held is the last of its messages. */
  lemma {:induction false} RisingHoldsLast(ms: seq<Message>, k: Key)
    requires Rising(Stream(ms, k))
    ensures Held(ms, k) == Last(Stream(ms, k))
  {
    if ms != [] {
      var pre, m := ms[..|ms| - 1], ms[|ms| - 1];
      assert ms == pre + [m];
      var s, t := Stream(pre, k), Stream(ms, k);
      assert Rising(s) by {
        assert forall i {:trigger s[i]} :: 0 <= i < |s| ==> t[i] == s[i];
      }
      RisingHoldsLast(pre, k);
      HeldStep(pre, m, k);
      if KeyOf(m) == Some(k) && s != [] {
        assert t[|s| - 1] == s[|s| - 1] && t[|s|] == m;
      }
    }
  }

  /** A node's channels are those whose first announcement names it. */
  lemma {:induction false} ChannelsAreAnnounced(ms: seq<Message>, n: NodeId, scid: Scid)
    ensures scid in ChannelsOf(ms, n) <==>
            FirstAnnouncement(ms, scid).Some? && HasNode(FirstAnnouncement(ms, scid).value, n)
  {
    if ms != [] {
      ChannelsAreAnnounced(ms[..|ms| - 1], n, scid);
    }
  }

  /** Two arrival orders of the same streams: one stream a key, and the same first announcements. */
  ghost predicate SameStreams(xs: seq<Message>, ys: seq<Message>) {
    && (forall k :: Stream(xs, k) == Stream(ys, k))
    && (forall s :: FirstAnnouncement(xs, s) == FirstAnnouncement(ys, s))
  }

  ghost predicate AllRising(ms: seq<Message>) {
    forall k :: Rising(Stream(ms, k))
  }

  ghost predicate SameStore(s: Store, t: Store) {
    s.ann == t.ann && s.upd == t.upd && s.node == t.node && forall n :: ChannelsFor(s, n) == ChannelsFor(t, n)
  }

  lemma {:induction false} SamePublic(xs: seq<Message>, ys: seq<Message>)
    requires SameStreams(xs, ys)
    ensures forall n :: ChannelsOf(xs, n) == ChannelsOf(ys, n)
    ensures forall k :: Opened(xs, k) == Opened(ys, k)
  {
    hide FirstAnnouncement, ChannelsOf, Stream;
    forall n ensures ChannelsOf(xs, n) == ChannelsOf(ys, n) {
      forall scid ensures scid in ChannelsOf(xs, n) <==> scid in ChannelsOf(ys, n) {
        ChannelsAreAnnounced(xs, n, scid);
        ChannelsAreAnnounced(ys, n, scid);
      }
    }
  }

  lemma {:induction false} SameFinds(s: Store, t: Store)
    requires forall k :: Find(s, k) == Find(t, k)
    ensures s.upd == t.upd && s.node == t.node
  {
    forall x: (Scid, Direction) ensures Lookup(s.upd, x) == Lookup(t.upd, x) {
      assert Find(s, UpdateKey(x.0, x.1)) == Find(t, UpdateKey(x.0, x.1));
      assert x == (x.0, x.1);
    }
    forall n ensures Lookup(s.node, n) == Lookup(t.node, n) {
      assert Find(s, NodeKey(n)) == Find(t, NodeKey(n));
    }
    SameLookups(s.upd, t.upd);
    SameLookups(s.node, t.node);
  }

  lemma {:induction false} SameLookups<K(!new), V(!new)>(a: map<K, V>, b: map<K, V>)
    requires forall k :: Lookup(a, k) == Lookup(b, k)
    ensures a == b
  {
    forall k ensures (k in a <==> k in b) && (k in a ==> a[k] == b[k]) {
      assert Lookup(a, k) == Lookup(b, k);
    }
  }

  /** However the streams of different keys interleave, both stores end the same. */
  lemma {:induction false} OrderDoesNotMatter(sig: Signatures, xs: seq<Message>, ys: seq<Message>)
    requires AllSigned(sig, xs) && AllSigned(sig, ys) && SameStreams(xs, ys) && AllRising(xs)
    ensures SameStore(Run(sig, xs).gossip, Run(sig, ys).gossip)
    ensures Run(sig, xs).pending.upd == Run(sig, ys).pending.upd
    ensures Run(sig, xs).pending.node == Run(sig, ys).pending.node
  {
    var f, g := Run(sig, xs), Run(sig, ys);
    RunSettles(sig, xs);
    RunSettles(sig, ys);
    SamePublic(xs, ys);
    hide Run, Find, Opened, Held, Stream, FirstAnnouncement, ChannelsOf, Lookup, ChannelsFor, Rising;
    hide AllSigned, Valid;
    forall k ensures Find(f.gossip, k) == Find(g.gossip, k) && Find(f.pending, k) == Find(g.pending, k) {
      RisingHoldsLast(xs, k);
      RisingHoldsLast(ys, k);
    }
    SameFinds(f.gossip, g.gossip);
    SameFinds(f.pending, g.pending);
    SameLookups(f.gossip.ann, g.gossip.ann);
  }

  /** The gossip store holds the last message of each public key; the pending store exactly the rest. */
  lemma {:induction false} LastMessageIsHeld(sig: Signatures, ms: seq<Message>, k: Key)
    requires AllSigned(sig, ms) && AllRising(ms)
    ensures var public := (k.UpdateKey? && k.scid in Run(sig, ms).gossip.ann)
                          || (k.NodeKey? && ChannelsFor(Run(sig, ms).gossip, k.nodeId) != {});
            && Find(Run(sig, ms).gossip, k) == (if public then Last(Stream(ms, k)) else None)
            && Find(Run(sig, ms).pending, k) == (if public then None else Last(Stream(ms, k)))
  {
    RunSettles(sig, ms);
    hide Run, Find, Held, Stream, FirstAnnouncement, ChannelsOf, ChannelsFor, Rising, AllSigned, Valid;
    RisingHoldsLast(ms, k);
    var f := Run(sig, ms);
    if k.UpdateKey? {
      assert Lookup(f.gossip.ann, k.scid) == FirstAnnouncement(ms, k.scid);
    } else {
      assert ChannelsFor(f.gossip, k.nodeId) == ChannelsOf(ms, k.nodeId);
    }
  }

  // ---------------------------------------------------------------------------
  // Any timestamps: when the newest message is the one held

  /** The messages of a key that arrived before it was public, or after. */
  ghost function Part(ms: seq<Message>, k: Key, public: bool): (r: seq<Message>)
    ensures forall m :: m in r ==> Keyed(m)
  {
    if ms == [] then [] else
    var pre, m := ms[..|ms| - 1], ms[|ms| - 1];
    var before := Part(pre, k, public);
    if KeyOf(m) == Some(k) && Opened(pre, k) == public then before + [m] else before
  }

  lemma {:induction false} PartsAreStream(ms: seq<Message>, k: Key)
    ensures forall m :: m in Stream(ms, k) <==> m in Part(ms, k, false) || m in Part(ms, k, true)
  {
    if ms != [] {
      var pre, m := ms[..|ms| - 1], ms[|ms| - 1];
      assert ms == pre + [m];
      hide Opened;
      PartsAreStream(pre, k);
      assert forall x :: x in Part(ms, k, true) <==>
          x in Part(pre, k, true) || (x == m && KeyOf(m) == Some(k) && Opened(pre, k));
      assert forall x :: x in Part(ms, k, false) <==>
          x in Part(pre, k, false) || (x == m && KeyOf(m) == Some(k) && !Opened(pre, k));
    }
  }

  lemma {:induction false} StaysPublic(pre: seq<Message>, m: Message, k: Key)
    ensures Opened(pre, k) ==> Opened(pre + [m], k)
    ensures !Opened(pre, k) ==> Part(pre, k, true) == []
    decreases |pre|
  {
    if m.ChannelAnnouncement? {
      AnnouncementStep(pre, m);
    } else {
      KeyedKeepsPublic(pre, m);
    }
    if pre != [] {
      var pre', m' := pre[..|pre| - 1], pre[|pre| - 1];
      assert pre == pre' + [m'];
      StaysPublic(pre', m', k);
    }
  }

  /** Held is the last to wait or one of the later, and no older than either. */
  lemma {:induction false} HeldIsLatest(ms: seq<Message>, k: Key)
    ensures var w, later, held := Last(Part(ms, k, false)), Part(ms, k, true), Held(ms, k);
            && (held.None? <==> w.None? && later == [])
            && (held.Some? ==> held == w || held.value in later)
            && (w.Some? ==> Keyed(w.value) && Keyed(held.value) && w.value.timestamp <= held.value.timestamp)
            && (forall m :: m in later ==> Keyed(m) && Keyed(held.value) && m.timestamp <= held.value.timestamp)
  {
    if ms != [] {
      var pre, m := ms[..|ms| - 1], ms[|ms| - 1];
      assert ms == pre + [m];
      HeldIsLatest(pre, k);
      HeldStep(pre, m, k);
      StaysPublic(pre, m, k);
      hide Opened, Held;
      assert KeyOf(m) == Some(k) ==> Keyed(m);
      assert forall x :: x in Part(ms, k, true) <==>
          x in Part(pre, k, true) || (x == m && KeyOf(m) == Some(k) && Opened(pre, k));
    }
  }

  predicate NoOlder(m: Message, s: seq<Message>)
    requires Keyed(m)
  {
    forall x :: x in s && Keyed(x) ==> x.timestamp <= m.timestamp
  }

  /**
   Whatever the timestamps, the newest message of a key is the one held if and only if the last to
   wait was the newest to wait, or something no older than all that waited came later.
  */
  lemma {:induction false} NewestHeldIff(ms: seq<Message>, k: Key)
    requires Held(ms, k).Some?
    ensures Keyed(Held(ms, k).value)
    ensures NoOlder(Held(ms, k).value, Stream(ms, k)) <==>
            var waited, later := Part(ms, k, false), Part(ms, k, true);
            || waited == []
            || NoOlder(waited[|waited| - 1], waited)
            || exists m :: m in later && NoOlder(m, waited)
  {
    HeldIsLatest(ms, k);
    PartsAreStream(ms, k);
    hide Held, Stream, Part;
    assert KeyOf(Held(ms, k).value) == Some(k);
    var waited, later, held := Part(ms, k, false), Part(ms, k, true), Held(ms, k).value;
    if NoOlder(held, Stream(ms, k)) {
      assert NoOlder(held, waited);
    }
    if waited != [] {
      assert waited[|waited| - 1] in waited;
    }
  }

  /** Without rising timestamps an older update that waits replaces a newer one, and is made public. */
  lemma {:induction false} OlderReplacesNewer(sig: Signatures, a: Message, newer: Message, older: Message)
    requires a.ChannelAnnouncement? && newer.ChannelUpdate? && older.ChannelUpdate?
    requires KeyOf(newer) == KeyOf(older) && a.scid == newer.scid && older.timestamp < newer.timestamp
    requires AllSigned(sig, [newer, older, a])
    ensures Find(Run(sig, [newer, older, a]).gossip, KeyOf(newer).value) == Some(older)
    ensures !NoOlder(older, Stream([newer, older, a], KeyOf(newer).value))
  {
    hide Run, AllSigned, Valid, Find;
    var ms, k := [newer, older, a], KeyOf(newer).value;
    RunSettles(sig, ms);
    assert ms == [newer, older] + [a] && [newer, older] == [newer] + [older] && [newer] == [] + [newer];
    AnnouncementStep([newer, older], a);
    HeldStep([newer], older, k);
    HeldStep([], newer, k);
    KeyedKeepsPublic([newer], older);
    KeyedKeepsPublic([], newer);
    assert newer in ms;
    hide Held;
    assert Opened(ms, k) && Held(ms, k) == Some(older);
    assert newer in Stream(ms, k);
  }
}
