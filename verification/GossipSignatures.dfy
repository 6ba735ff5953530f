/**
 What the gossip filter refuses, for any messages at all: nothing without a good signature becomes public
 or is passed on, and what is passed on is exactly what became public.
*/
module GossipSignatures {
  import opened Common
  import opened GossipFilter
  import opened GossipOrder

  /** All that is public is signed: updates by the node of their direction in the announcement of their channel. */
  ghost predicate AllGood(sig: Signatures, s: Store) {
    && WellKeyed(s)
    && (forall c :: c in s.ann ==> sig.announcement(s.ann[c]))
    && (forall n :: n in s.node ==> sig.node(s.node[n]))
    && (forall c, d :: (c, d) in s.upd ==>
          c in s.ann && sig.update(s.upd[(c, d)], if d == 0 then s.ann[c].nodeId1 else s.ann[c].nodeId2))
  }

  /** A public message. */
  predicate Public(s: Store, m: Message) {
    match m
    case ChannelAnnouncement(c, _, _, _) => Lookup(s.ann, c) == Some(m)
    case ChannelUpdate(c, d, _, _) => Lookup(s.upd, (c, d)) == Some(m)
    case NodeAnnouncement(n, _, _) => Lookup(s.node, n) == Some(m)
    case Other => false
  }

  /** What is passed on is what has become public, none of it twice. */
  ghost predicate RelaysTheNew(s: Store, s': Store, relayed: seq<Message>) {
    && (forall m :: m in relayed <==> Public(s', m) && !Public(s, m))
    && (forall i, j :: 0 <= i < j < |relayed| ==> relayed[i] != relayed[j])
  }

  /** Two messages of a kind that has timestamps, the second with the later one. */
  predicate Outdated(m: Message, m': Message) {
    || (m.ChannelUpdate? && m'.ChannelUpdate? && m.timestamp < m'.timestamp)
    || (m.NodeAnnouncement? && m'.NodeAnnouncement? && m.timestamp < m'.timestamp)
  }

  /** No announcement of a channel is replaced, and nothing else but by something newer. */
  ghost predicate OnlyNewer(s: Store, s': Store) {
    && (forall c :: c in s.ann ==> c in s'.ann && s'.ann[c] == s.ann[c])
    && (forall k :: k in s.upd ==> k in s'.upd && (s'.upd[k] == s.upd[k] || Outdated(s.upd[k], s'.upd[k])))
    && (forall n :: n in s.node ==> n in s'.node && (s'.node[n] == s.node[n] || Outdated(s.node[n], s'.node[n])))
  }

  /** One step of the filter does what it should. */
  ghost predicate Sound(sig: Signatures, f: Filter, f': Filter, r: Result) {
    && AllGood(sig, f'.gossip) && OnlyNewer(f.gossip, f'.gossip)
    && (r.Ok? ==> RelaysTheNew(f.gossip, f'.gossip, r.relayed))
  }

  lemma {:induction false} UpdateSound(sig: Signatures, f: Filter, m: Message)
    requires Valid(f) && AllGood(sig, f.gossip) && m.ChannelUpdate?
    ensures var (f', r) := UpdateValidated(sig, f, m); Sound(sig, f, f', r)
  {
  }

  lemma {:induction false} NodeSound(sig: Signatures, f: Filter, m: Message)
    requires Valid(f) && AllGood(sig, f.gossip) && m.NodeAnnouncement?
    ensures var (f', r) := NodeValidated(sig, f, m); Sound(sig, f, f', r)
  {
  }

  lemma {:induction false} SavedSound(sig: Signatures, f: Filter, m: Message)
    requires Valid(f) && AllGood(sig, f.gossip) && m.ChannelAnnouncement?
    requires m.scid !in f.gossip.ann && sig.announcement(m)
    ensures var f' := f.(gossip := WithAnnouncement(f.gossip, m)); Valid(f') && Sound(sig, f, f', Ok([m]))
  {
  }

  /** Two steps, of which the second leaves public what the first passed on. */
  lemma {:induction false} Later(sig: Signatures, f: Filter, f1: Filter, f2: Filter, r1: Result, r2: Result)
    requires Sound(sig, f, f1, r1) && Sound(sig, f1, f2, r2) && r1.Ok?
    requires forall m :: m in r1.relayed ==> Public(f2.gossip, m)
    ensures Sound(sig, f, f2, if r2.Ok? then Ok(r1.relayed + r2.relayed) else r2)
  {
    OnlyNewerTwice(f.gossip, f1.gossip, f2.gossip);
    hide AllGood;
    if r2.Ok? {
      BothRelay(f.gossip, f1.gossip, f2.gossip, r1.relayed, r2.relayed);
    }
    hide OnlyNewer, RelaysTheNew;
  }

  lemma {:induction false} OnlyNewerTwice(s: Store, s1: Store, s2: Store)
    requires OnlyNewer(s, s1) && OnlyNewer(s1, s2)
    ensures OnlyNewer(s, s2)
  {
  }

  /** What was public and is not any more was replaced by something newer, and does not come back. */
  lemma {:induction false} NotBack(s: Store, s1: Store, s2: Store, m: Message)
    requires OnlyNewer(s, s1) && OnlyNewer(s1, s2) && Public(s, m) && Public(s2, m)
    ensures Public(s1, m)
  {
    match m
    case ChannelAnnouncement(c, _, _, _) =>
    case ChannelUpdate(c, d, _, _) =>
      var k := (c, d);
      assert k in s.upd && k in s1.upd && k in s2.upd;
    case NodeAnnouncement(n, _, _) =>
      assert n in s.node && n in s1.node && n in s2.node;
    case Other =>
  }

  lemma {:induction false} BothRelay(s: Store, s1: Store, s2: Store, a: seq<Message>, b: seq<Message>)
    requires OnlyNewer(s, s1) && OnlyNewer(s1, s2) && RelaysTheNew(s, s1, a) && RelaysTheNew(s1, s2, b)
    requires forall m :: m in a ==> Public(s2, m)
    ensures RelaysTheNew(s, s2, a + b)
  {
    hide OnlyNewer, Public;
    forall m ensures m in a + b <==> Public(s2, m) && !Public(s, m) {
      if Public(s, m) && Public(s2, m) {
        NotBack(s, s1, s2, m);
      }
    }
    NoneTwice(a, b);
  }

  lemma {:induction false} NoneTwice(a: seq<Message>, b: seq<Message>)
    requires forall i, j :: 0 <= i < j < |a| ==> a[i] != a[j]
    requires forall i, j :: 0 <= i < j < |b| ==> b[i] != b[j]
    requires forall m :: m in a ==> m !in b
    ensures forall i, j :: 0 <= i < j < |a + b| ==> (a + b)[i] != (a + b)[j]
  {
    forall i, j | 0 <= i < j < |a + b| ensures (a + b)[i] != (a + b)[j] {
      if i < |a| <= j {
        assert a[i] in a && b[j - |a|] in b;
      }
    }
  }

  // ---------------------------------------------------------------------------
  // An announcement and what waited for it

  lemma {:induction false} ReplayUpdateSound(sig: Signatures, f: Filter, c: Scid, d: Direction, u: Option<Message>)
    requires Valid(f) && AllGood(sig, f.gossip)
    requires u.Some? ==> u.value.ChannelUpdate? && (u.value.scid, u.value.direction) == (c, d)
    ensures var (f', r) := ReplayUpdate(sig, f, u); Valid(f') && Sound(sig, f, f', r)
  {
    ReplayKeepsValid(sig, f, u, None);
    if u.Some? {
      var f0 := f.(pending := WithoutUpdate(f.pending, c, d));
      StoresKeepKeyed(f.pending, u.value, c, d, 0);
      hide AllGood, UpdateValidated, WellKeyed, OnlyNewer, RelaysTheNew, WithoutUpdate;
      UpdateSound(sig, f0, u.value);
    } else {
      NothingNew(f.gossip);
      hide AllGood, OnlyNewer, RelaysTheNew;
    }
  }

  lemma {:induction false} NothingNew(s: Store)
    ensures OnlyNewer(s, s) && RelaysTheNew(s, s, [])
  {
  }

  /** Replaying updates leaves announcements and the updates of the other direction. */
  lemma {:induction false} ReplayUpdateLeaves(sig: Signatures, f: Filter, d: Direction, u: Option<Message>)
    requires WellKeyed(f.gossip) && (u.Some? ==> u.value.ChannelUpdate? && u.value.direction == d)
    ensures var (f', r) := ReplayUpdate(sig, f, u);
            && (forall m :: Public(f.gossip, m) && !(m.ChannelUpdate? && m.direction == d) ==> Public(f'.gossip, m))
            && (r.Ok? ==> forall m :: m in r.relayed ==> u == Some(m))
  {
  }

  lemma {:induction false} ReplayNodeSound(sig: Signatures, f: Filter, n: NodeId, a: Option<Message>)
    requires Valid(f) && AllGood(sig, f.gossip) && (a.Some? ==> a.value.NodeAnnouncement? && a.value.nodeId == n)
    ensures var (f', r) := ReplayNode(sig, f, a); Valid(f') && Sound(sig, f, f', r)
  {
    ReplayKeepsValid(sig, f, None, a);
    if a.Some? {
      var f0 := f.(pending := WithoutNode(f.pending, n));
      StoresKeepKeyed(f.pending, a.value, 0, 0, n);
      hide AllGood, NodeValidated, WellKeyed, OnlyNewer, RelaysTheNew, WithoutNode;
      NodeSound(sig, f0, a.value);
    } else {
      NothingNew(f.gossip);
      hide AllGood, OnlyNewer, RelaysTheNew;
    }
  }

  /** Replaying a node leaves all that is not of the node, and itself where it is public. */
  lemma {:induction false} ReplayNodeLeaves(sig: Signatures, f: Filter, n: NodeId, a: Option<Message>)
    requires WellKeyed(f.gossip) && (a.Some? ==> a.value.NodeAnnouncement? && a.value.nodeId == n)
    ensures var (f', r) := ReplayNode(sig, f, a);
            && (forall m :: Public(f.gossip, m) && (!(m.NodeAnnouncement? && m.nodeId == n) || a == Some(m)) ==>
                  Public(f'.gossip, m))
            && (r.Ok? ==> forall m :: m in r.relayed ==> a == Some(m))
  {
  }

  lemma {:induction false} SoundIsGood(sig: Signatures, f: Filter, f': Filter, r: Result)
    requires Sound(sig, f, f', r)
    ensures AllGood(sig, f'.gossip) && (r.Ok? ==> forall m :: m in r.relayed ==> Public(f'.gossip, m))
  {
  }

  lemma {:induction false} WaitingShapes(f: Filter, c: Scid, d: Direction)
    requires WellKeyed(f.pending)
    ensures var u := Lookup(f.pending.upd, (c, d));
            u.Some? ==> u.value.ChannelUpdate? && (u.value.scid, u.value.direction) == (c, d)
  {
  }

  /** The two updates. */
  lemma {:induction false} UpdatesSound(sig: Signatures, f: Filter, f0: Filter, m: Message)
    requires m.ChannelAnnouncement? && Valid(f0) && Sound(sig, f, f0, Ok([m]))
    ensures var u0, u1 := Lookup(f0.pending.upd, (m.scid, 0)), Lookup(f0.pending.upd, (m.scid, 1));
            && (u0.Some? ==> u0.value.ChannelUpdate? && (u0.value.scid, u0.value.direction) == (m.scid, 0))
            && (u1.Some? ==> u1.value.ChannelUpdate? && (u1.value.scid, u1.value.direction) == (m.scid, 1))
            && var (f1, r1) := ReplayUpdate(sig, f0, u0);
            && Valid(f1) && (r1.Err? ==> Sound(sig, f, f1, r1))
            && (r1.Ok? ==> var (f2, r2) := ReplayUpdate(sig, f1, u1);
                  && Valid(f2) && Sound(sig, f, f2, if r2.Ok? then Ok([m] + r1.relayed + r2.relayed) else r2)
                  && (r2.Ok? ==> forall x :: x in [m] + r1.relayed + r2.relayed ==> !x.NodeAnnouncement?))
  {
    hide AllGood, ReplayUpdate, OnlyNewer, RelaysTheNew, Sound;
    hide Public;
    SoundIsGood(sig, f, f0, Ok([m]));
    var u0, u1 := Lookup(f0.pending.upd, (m.scid, 0)), Lookup(f0.pending.upd, (m.scid, 1));
    WaitingShapes(f0, m.scid, 0);
    WaitingShapes(f0, m.scid, 1);
    hide WellKeyed;
    ReplayUpdateSound(sig, f0, m.scid, 0, u0);
    ReplayUpdateLeaves(sig, f0, 0, u0);
    var (f1, r1) := ReplayUpdate(sig, f0, u0);
    Later(sig, f, f0, f1, Ok([m]), r1);
    if r1.Ok? {
      SoundIsGood(sig, f, f1, Ok([m] + r1.relayed));
      ReplayUpdateSound(sig, f1, m.scid, 1, u1);
      ReplayUpdateLeaves(sig, f1, 1, u1);
      Later(sig, f, f1, ReplayUpdate(sig, f1, u1).0, Ok([m] + r1.relayed), ReplayUpdate(sig, f1, u1).1);
    }
  }

  /** The two nodes, after that. */
  lemma {:induction false} NodesSound(sig: Signatures, f: Filter, f2: Filter, m: Message, before: seq<Message>)
    requires m.ChannelAnnouncement? && Valid(f2) && Sound(sig, f, f2, Ok(before))
    requires forall x :: x in before ==> !x.NodeAnnouncement?
    ensures var n1, n2 := Lookup(f2.pending.node, m.nodeId1), Lookup(f2.pending.node, m.nodeId2);
            && (n1.Some? ==> n1.value.NodeAnnouncement? && n1.value.nodeId == m.nodeId1)
            && (n2.Some? ==> n2.value.NodeAnnouncement? && n2.value.nodeId == m.nodeId2)
            && var (f3, r3) := ReplayNode(sig, f2, n1);
            && Valid(f3) && (r3.Err? ==> Sound(sig, f, f3, r3))
            && (r3.Ok? ==> var (f4, r4) := ReplayNode(sig, f3, n2);
                  Sound(sig, f, f4, if r4.Ok? then Ok(before + r3.relayed + r4.relayed) else r4))
  {
    hide AllGood, ReplayNode, OnlyNewer, RelaysTheNew, Sound, Public;
    SoundIsGood(sig, f, f2, Ok(before));
    var n1, n2 := Lookup(f2.pending.node, m.nodeId1), Lookup(f2.pending.node, m.nodeId2);
    ReplayNodeSound(sig, f2, m.nodeId1, n1);
    ReplayNodeLeaves(sig, f2, m.nodeId1, n1);
    hide WellKeyed;
    var (f3, r3) := ReplayNode(sig, f2, n1);
    Later(sig, f, f2, f3, Ok(before), r3);
    if r3.Ok? {
      SoundIsGood(sig, f, f3, Ok(before + r3.relayed));
      ReplayNodeSound(sig, f3, m.nodeId2, n2);
      ReplayNodeLeaves(sig, f3, m.nodeId2, n2);
      Later(sig, f, f3, ReplayNode(sig, f3, n2).0, Ok(before + r3.relayed), ReplayNode(sig, f3, n2).1);
    }
  }

  /** An announcement that is new and signed is passed on with all it makes public. */
  lemma {:induction false} AnnouncementSound(sig: Signatures, f: Filter, m: Message)
    requires Valid(f) && AllGood(sig, f.gossip) && m.ChannelAnnouncement?
    ensures var (f', r) := AnnouncementValidated(sig, f, m); Sound(sig, f, f', r)
  {
    NothingNew(f.gossip);
    hide AllGood, OnlyNewer, RelaysTheNew, WellKeyed, ReplayUpdate, ReplayNode, WithAnnouncement;
    if m.scid !in f.gossip.ann && sig.announcement(m) {
      SavedSound(sig, f, m);
      var f0 := f.(gossip := WithAnnouncement(f.gossip, m));
      UpdatesSound(sig, f, f0, m);
      var u0, u1 := Lookup(f0.pending.upd, (m.scid, 0)), Lookup(f0.pending.upd, (m.scid, 1));
      var (f1, r1) := ReplayUpdate(sig, f0, u0);
      if r1.Ok? {
        var (f2, r2) := ReplayUpdate(sig, f1, u1);
        if r2.Ok? {
          NodesSound(sig, f, f2, m, [m] + r1.relayed + r2.relayed);
          var n1, n2 := Lookup(f2.pending.node, m.nodeId1), Lookup(f2.pending.node, m.nodeId2);
          var (f3, r3) := ReplayNode(sig, f2, n1);
          if r3.Ok? {
            var (f4, r4) := ReplayNode(sig, f3, n2);
            assert AnnouncementValidated(sig, f, m) ==
                   (f4, if r4.Ok? then Ok([m] + r1.relayed + r2.relayed + r3.relayed + r4.relayed) else r4);
          } else {
            assert AnnouncementValidated(sig, f, m) == (f3, r3);
          }
        } else {
          assert AnnouncementValidated(sig, f, m) == (f2, r2);
        }
      }
    }
  }

  // ---------------------------------------------------------------------------
  // Main results

  lemma {:induction false} StepSound(sig: Signatures, f: Filter, m: Message)
    requires Valid(f) && AllGood(sig, f.gossip)
    ensures var (f', r) := Validated(sig, f, m); Sound(sig, f, f', r)
  {
    hide AllGood, Sound, AnnouncementValidated, UpdateValidated, NodeValidated, WellKeyed;
    match m
    case ChannelAnnouncement(_, _, _, _) => AnnouncementSound(sig, f, m);
    case ChannelUpdate(_, _, _, _) => UpdateSound(sig, f, m);
    case NodeAnnouncement(_, _, _) => NodeSound(sig, f, m);
    case Other => NothingSound(sig, f);
  }

  lemma {:induction false} NothingSound(sig: Signatures, f: Filter)
    requires AllGood(sig, f.gossip)
    ensures Sound(sig, f, f, Ok([]))
  {
    NothingNew(f.gossip);
  }

  /** After any messages, signed or not, all that is public is signed. */
  lemma {:induction false} PublicIsSigned(sig: Signatures, ms: seq<Message>)
    ensures AllGood(sig, Run(sig, ms).gossip)
  {
    hide AllGood, Valid, Sound;
    if ms == [] {
      NothingPublic(sig);
    } else {
      PublicIsSigned(sig, ms[..|ms| - 1]);
      StepSound(sig, Run(sig, ms[..|ms| - 1]), ms[|ms| - 1]);
      var before := Run(sig, ms[..|ms| - 1]);
      SoundIsGood(sig, before, Run(sig, ms), Validated(sig, before, ms[|ms| - 1]).1);
    }
  }

  lemma {:induction false} NothingPublic(sig: Signatures)
    ensures AllGood(sig, EmptyStore())
  {
  }

  /**
   After any messages, one more: what is passed on is exactly what it made public, and nothing public is
   replaced but by something newer.
  */
  lemma {:induction false} RelayedIsNew(sig: Signatures, ms: seq<Message>, m: Message)
    ensures var f, (f', r) := Run(sig, ms), Validated(sig, Run(sig, ms), m);
            && f' == Run(sig, ms + [m])
            && OnlyNewer(f.gossip, f'.gossip)
            && (r.Ok? ==> RelaysTheNew(f.gossip, f'.gossip, r.relayed))
  {
    SequenceStep(ms, m);
    PublicIsSigned(sig, ms);
    hide AllGood, OnlyNewer, RelaysTheNew, Validated, Valid;
    StepSound(sig, Run(sig, ms), m);
  }

  /**
   A bad signature: an announcement of a channel or of a node with a channel, or an update of an announced
   channel, against the node that the announcement names for its direction.
  */
  ghost predicate Forged(sig: Signatures, s: Store, m: Message) {
    match m
    case ChannelAnnouncement(_, _, _, _) => !sig.announcement(m)
    case ChannelUpdate(c, d, _, _) =>
      && c in s.ann && s.ann[c].ChannelAnnouncement?
      && !sig.update(m, if d == 0 then s.ann[c].nodeId1 else s.ann[c].nodeId2)
    case NodeAnnouncement(n, _, _) => ChannelsFor(s, n) != {} && !sig.node(m)
    case Other => false
  }

  /** After any messages a forgery changes neither store and is not passed on; unless it is stale it is an error. */
  lemma {:induction false} ForgeryRefused(sig: Signatures, ms: seq<Message>, m: Message)
    requires Forged(sig, Run(sig, ms).gossip, m)
    ensures var (f', r) := Validated(sig, Run(sig, ms), m);
            && f' == Run(sig, ms)
            && (r.Ok? ==> r.relayed == [])
            && (r.Ok? <==> match m
                           case ChannelAnnouncement(c, _, _, _) => c in f'.gossip.ann
                           case ChannelUpdate(c, d, time, _) =>
                             && (c, d) in f'.gossip.upd && f'.gossip.upd[(c, d)].ChannelUpdate?
                             && f'.gossip.upd[(c, d)].timestamp >= time
                           case NodeAnnouncement(n, time, _) =>
                             && n in f'.gossip.node && f'.gossip.node[n].NodeAnnouncement?
                             && f'.gossip.node[n].timestamp >= time
                           case Other => true)
  {
    var f := Run(sig, ms);
    assert Valid(f);
    hide Run;
  }

  /** A forgery that waits for an announcement: an update of its channel, or one of its nodes that is not stale. */
  ghost predicate Waiting(sig: Signatures, f: Filter, m: Message)
    requires m.ChannelAnnouncement?
  {
    || UpdateWaiting(sig, f, m.scid, 0, m.nodeId1)
    || UpdateWaiting(sig, f, m.scid, 1, m.nodeId2)
    || NodeWaiting(sig, f, m.nodeId1)
    || NodeWaiting(sig, f, m.nodeId2)
  }

  predicate UpdateWaiting(sig: Signatures, f: Filter, scid: Scid, direction: Direction, from: NodeId) {
    (scid, direction) in f.pending.upd && !sig.update(f.pending.upd[(scid, direction)], from)
  }

  predicate NodeWaiting(sig: Signatures, f: Filter, n: NodeId) {
    && n in f.pending.node && !sig.node(f.pending.node[n])
    && !(n in f.gossip.node && f.pending.node[n].NodeAnnouncement? && f.gossip.node[n].NodeAnnouncement?
         && f.gossip.node[n].timestamp >= f.pending.node[n].timestamp)
  }

  /** The replay of an update whose channel was just announced. */
  lemma {:induction false} UpdateReplayed(sig: Signatures, f: Filter, m: Message, d: Direction, from: NodeId)
    requires Valid(f) && m.ChannelAnnouncement? && Lookup(f.gossip.ann, m.scid) == Some(m)
    requires (m.scid, d) !in f.gossip.upd && from == if d == 0 then m.nodeId1 else m.nodeId2
    ensures var u := Lookup(f.pending.upd, (m.scid, d));
            && (u.Some? ==> u.value.ChannelUpdate?)
            && var (f', r) := ReplayUpdate(sig, f, u);
            && (r.Err? <==> UpdateWaiting(sig, f, m.scid, d, from))
            && f'.gossip.ann == f.gossip.ann && f'.gossip.node == f.gossip.node && f'.pending.node == f.pending.node
            && f'.gossip.nodeChannels == f.gossip.nodeChannels
            && (forall k :: k != (m.scid, d) ==> Lookup(f'.gossip.upd, k) == Lookup(f.gossip.upd, k)
                                                 && Lookup(f'.pending.upd, k) == Lookup(f.pending.upd, k))
  {
  }

  /** The replay of the announcement of a node with a channel, which may have been replayed already. */
  lemma {:induction false} NodeReplayed(sig: Signatures, f: Filter, n: NodeId, a: Option<Message>)
    requires Valid(f) && ChannelsFor(f.gossip, n) != {}
    requires a.Some? ==> a.value.NodeAnnouncement? && a.value.nodeId == n
    ensures var (f', r) := ReplayNode(sig, f, a); var old_ := Lookup(f.gossip.node, n);
            && (r.Err? <==> a.Some? && !sig.node(a.value) && !(old_.Some? && old_.value.timestamp >= a.value.timestamp))
            && f'.gossip.ann == f.gossip.ann && f'.gossip.nodeChannels == f.gossip.nodeChannels
            && (forall k :: k != n ==> Lookup(f'.gossip.node, k) == Lookup(f.gossip.node, k))
            && (r.Ok? && a.Some? ==> var new_ := Lookup(f'.gossip.node, n);
                  new_.Some? && new_.value.timestamp >= a.value.timestamp)
  {
  }

  lemma {:induction false} NodeShapes(f: Filter, n: NodeId)
    requires Valid(f)
    ensures n in f.pending.node ==> f.pending.node[n].NodeAnnouncement? && f.pending.node[n].nodeId == n
    ensures n in f.gossip.node ==> f.gossip.node[n].NodeAnnouncement?
  {
  }

  lemma {:induction false} JustSaved(f: Filter, m: Message)
    requires Valid(f) && m.ChannelAnnouncement?
    ensures var f0 := f.(gossip := WithAnnouncement(f.gossip, m));
            && Valid(f0) && Lookup(f0.gossip.ann, m.scid) == Some(m)
            && f0.gossip.upd == f.gossip.upd && f0.gossip.node == f.gossip.node
            && ChannelsFor(f0.gossip, m.nodeId1) != {} && ChannelsFor(f0.gossip, m.nodeId2) != {}
  {
    AnnouncementSaved(f, m);
    assert m.scid in ChannelsFor(f.gossip, m.nodeId1) + {m.scid};
    assert m.scid in ChannelsFor(f.gossip, m.nodeId2) + {m.scid};
  }

  /** The replays of the updates. */
  lemma {:induction false} UpdatesReplayed(sig: Signatures, f: Filter, f0: Filter, m: Message)
    requires Valid(f0) && m.ChannelAnnouncement? && Lookup(f0.gossip.ann, m.scid) == Some(m)
    requires f0.pending == f.pending && f0.gossip.node == f.gossip.node
    requires (m.scid, 0) !in f0.gossip.upd && (m.scid, 1) !in f0.gossip.upd
    ensures var u0, u1 := Lookup(f0.pending.upd, (m.scid, 0)), Lookup(f0.pending.upd, (m.scid, 1));
            && (u0.Some? ==> u0.value.ChannelUpdate?) && (u1.Some? ==> u1.value.ChannelUpdate?)
            && var (f1, r1) := ReplayUpdate(sig, f0, u0);
            && Valid(f1)
            && (r1.Err? <==> UpdateWaiting(sig, f, m.scid, 0, m.nodeId1))
            && var (f2, r2) := ReplayUpdate(sig, f1, u1);
            && (r2.Err? <==> UpdateWaiting(sig, f, m.scid, 1, m.nodeId2))
            && Valid(f2) && f2.pending.node == f.pending.node && f2.gossip.node == f.gossip.node
            && f2.gossip.nodeChannels == f0.gossip.nodeChannels
  {
    WaitingShapes(f0, m.scid, 0);
    WaitingShapes(f0, m.scid, 1);
    UpdateReplayed(sig, f0, m, 0, m.nodeId1);
    var u0, u1 := Lookup(f0.pending.upd, (m.scid, 0)), Lookup(f0.pending.upd, (m.scid, 1));
    ReplayKeepsValid(sig, f0, u0, None);
    var f1 := ReplayUpdate(sig, f0, u0).0;
    hide WellKeyed, ReplayUpdate;
    assert Lookup(f1.pending.upd, (m.scid, 1)) == u1 && Lookup(f1.gossip.upd, (m.scid, 1)).None?;
    UpdateReplayed(sig, f1, m, 1, m.nodeId2);
    ReplayKeepsValid(sig, f1, u1, None);
  }

  /** The replays of the nodes. */
  lemma {:induction false} NodesReplayed(sig: Signatures, f: Filter, f2: Filter, m: Message)
    requires Valid(f) && Valid(f2) && m.ChannelAnnouncement?
    requires f2.pending.node == f.pending.node && f2.gossip.node == f.gossip.node
    requires ChannelsFor(f2.gossip, m.nodeId1) != {} && ChannelsFor(f2.gossip, m.nodeId2) != {}
    ensures var n1, n2 := Lookup(f2.pending.node, m.nodeId1), Lookup(f2.pending.node, m.nodeId2);
            && (n1.Some? ==> n1.value.NodeAnnouncement?) && (n2.Some? ==> n2.value.NodeAnnouncement?)
            && var (f3, r3) := ReplayNode(sig, f2, n1);
            && Valid(f3)
            && (r3.Err? <==> NodeWaiting(sig, f, m.nodeId1))
            && (r3.Ok? ==> (ReplayNode(sig, f3, n2).1.Err? <==> NodeWaiting(sig, f, m.nodeId2)))
  {
    NodeShapes(f, m.nodeId1);
    NodeShapes(f, m.nodeId2);
    var n1, n2 := Lookup(f2.pending.node, m.nodeId1), Lookup(f2.pending.node, m.nodeId2);
    NodeReplayed(sig, f2, m.nodeId1, n1);
    ReplayKeepsValid(sig, f2, None, n1);
    hide WellKeyed, ReplayNode;
    var f3 := ReplayNode(sig, f2, n1).0;
    NodeReplayed(sig, f3, m.nodeId2, n2);
  }

  /**
   After any messages: a signed announcement of a new channel is an error if and only if a forgery waited
   for it.
  */
  lemma {:induction false} AnnouncementErrsIff(sig: Signatures, ms: seq<Message>, m: Message)
    requires m.ChannelAnnouncement? && m.scid !in Run(sig, ms).gossip.ann && sig.announcement(m)
    ensures Validated(sig, Run(sig, ms), m).1.Err? <==> Waiting(sig, Run(sig, ms), m)
  {
    var f := Run(sig, ms);
    PublicIsSigned(sig, ms);
    assert (m.scid, 0) !in f.gossip.upd && (m.scid, 1) !in f.gossip.upd;
    hide Run, AllGood;
    AnnouncementErrs(sig, f, m);
  }

  lemma {:induction false} AnnouncementErrs(sig: Signatures, f: Filter, m: Message)
    requires Valid(f) && m.ChannelAnnouncement? && m.scid !in f.gossip.ann && sig.announcement(m)
    requires (m.scid, 0) !in f.gossip.upd && (m.scid, 1) !in f.gossip.upd
    ensures AnnouncementValidated(sig, f, m).1.Err? <==> Waiting(sig, f, m)
  {
    hide WellKeyed, ReplayUpdate, ReplayNode, WithAnnouncement, UpdateWaiting, NodeWaiting, ChannelsFor;
    JustSaved(f, m);
    var f0 := f.(gossip := WithAnnouncement(f.gossip, m));
    UpdatesReplayed(sig, f, f0, m);
    var (f1, r1) := ReplayUpdate(sig, f0, Lookup(f0.pending.upd, (m.scid, 0)));
    var (f2, r2) := ReplayUpdate(sig, f1, Lookup(f0.pending.upd, (m.scid, 1)));
    SameChannels(f0, f2, m.nodeId1);
    SameChannels(f0, f2, m.nodeId2);
    NodesReplayed(sig, f, f2, m);
    var (f3, r3) := ReplayNode(sig, f2, Lookup(f2.pending.node, m.nodeId1));
    var (_, r4) := ReplayNode(sig, f3, Lookup(f2.pending.node, m.nodeId2));
    assert AnnouncementValidated(sig, f, m).1.Err? <==> r1.Err? || r2.Err? || r3.Err? || r4.Err?;
  }
}
