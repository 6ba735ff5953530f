/**
 The channel manager: which of its channels an event reaches, and what then holds of all of them in
 every run. A message is for the first channel with its identifier, a block is for every channel, and
 a disconnection is for the channels with that peer; every channel of a manager goes through a run of
 the state machine of its own.
*/
module ChannelManager {
  import opened Common
  import opened StateTree
  import opened ChannelEvents
  import opened ChannelRuns

  datatype ManagerEvent =
    | Open(peer: nat, ok: bool, temporaryId: nat)
    | Accept(peer: nat, accept: AcceptChannel)
    | Sign(signed: FundingSigned)
    | Ready(channelReady: ChannelReady)
    | Connect(block: Block)
    | Disconnect(peer: nat)

  /** The result of looking a channel up by its id. */
  datatype Search = NotFound | FoundAt(index: nat) | Crashed

  function FindByTempId(vs: seq<View>, peer: nat, temporaryId: nat): (r: Search)
    ensures r.FoundAt? ==> r.index < |vs|
  {
    if vs == [] then NotFound
    else if vs[0].record.peerId == peer && vs[0].record.temporaryId == temporaryId then FoundAt(0)
    else
      var rest := FindByTempId(vs[1..], peer, temporaryId);
      if rest.FoundAt? then FoundAt(rest.index + 1) else rest
  }

  /** A channel without an id yet cannot be compared: meeting one before the match is an exception. */
  function FindById(vs: seq<View>, channelId: nat): (r: Search)
    ensures r.FoundAt? ==> r.index < |vs|
  {
    if vs == [] then NotFound
    else if vs[0].record.channelId.None? then Crashed
    else if vs[0].record.channelId == Some(channelId) then FoundAt(0)
    else
      var rest := FindById(vs[1..], channelId);
      if rest.FoundAt? then FoundAt(rest.index + 1) else rest
  }

  /** The search ends in an exception exactly when it meets a channel without an id before the one it looks for. */
  lemma {:induction false} FindByIdCrashesIff(vs: seq<View>, channelId: nat)
    ensures FindById(vs, channelId) == Crashed <==>
            exists i :: && 0 <= i < |vs| && vs[i].record.channelId.None?
                        && forall j :: 0 <= j < i ==> vs[j].record.channelId != Some(channelId)
  {
    if vs != [] {
      FindByIdCrashesIff(vs[1..], channelId);
      if vs[0].record.channelId.Some? && vs[0].record.channelId != Some(channelId) {
        if FindById(vs, channelId) == Crashed {
          var i :| && 0 <= i < |vs[1..]| && vs[1..][i].record.channelId.None?
                   && forall j :: 0 <= j < i ==> vs[1..][j].record.channelId != Some(channelId);
          assert vs[i + 1] == vs[1..][i];
          assert forall j :: 0 < j < i + 1 ==> vs[j] == vs[1..][j - 1];
        }
        if i :| && 0 <= i < |vs| && vs[i].record.channelId.None?
                && forall j :: 0 <= j < i ==> vs[j].record.channelId != Some(channelId) {
          assert vs[1..][i - 1] == vs[i];
          assert forall j :: 0 <= j < i - 1 ==> vs[1..][j] == vs[j + 1];
        }
      }
    }
  }

  ghost predicate AllInv(vs: seq<View>) {
    forall i :: 0 <= i < |vs| ==> Inv(vs[i])
  }

  function Reached(logic: Logic, v: View, e: Event): View
    requires Inv(v)
  {
    StepKeeps(logic, v, e);
    Step(Construct(), logic, v, e).0
  }

  ghost function OneReached(logic: Logic, vs: seq<View>, s: Search, e: Event): seq<View>
    requires AllInv(vs) && (s.FoundAt? ==> s.index < |vs|)
  {
    if s.FoundAt? then vs[s.index := Reached(logic, vs[s.index], e)] else vs
  }

  /** Whether an event goes to a channel when it goes to all that match. */
  predicate Meant(v: View, e: ManagerEvent) {
    e.Connect? || (e.Disconnect? && v.record.peerId == e.peer)
  }

  function ChannelEvent(e: ManagerEvent): Event
    requires !e.Open?
  {
    match e
    case Accept(_, m) => AcceptEvent(m)
    case Sign(m) => SignedEvent(m)
    case Ready(m) => ReadyEvent(m)
    case Connect(b) => BlockEvent(b)
    case Disconnect(_) => DisconnectEvent
  }

  ghost function AllReached(logic: Logic, vs: seq<View>, e: ManagerEvent): (r: seq<View>)
    requires AllInv(vs) && !e.Open?
    ensures |r| == |vs|
    ensures forall i :: 0 <= i < |vs| ==>
      r[i] == if Meant(vs[i], e) then Reached(logic, vs[i], ChannelEvent(e)) else vs[i]
  {
    seq(|vs|, i requires 0 <= i < |vs| => if Meant(vs[i], e) then Reached(logic, vs[i], ChannelEvent(e)) else vs[i])
  }

  /** The channels after an event. */
  ghost function Managed(logic: Logic, vs: seq<View>, e: ManagerEvent): (r: seq<View>)
    requires AllInv(vs)
    ensures |r| >= |vs|
  {
    match e
    case Open(peer, ok, id) => if ok then vs + [Opened(Construct(), peer, id).0] else vs
    case Accept(peer, m) => OneReached(logic, vs, FindByTempId(vs, peer, m.temporaryId), ChannelEvent(e))
    case Sign(m) => OneReached(logic, vs, FindById(vs, m.channelId), ChannelEvent(e))
    case Ready(m) => OneReached(logic, vs, FindById(vs, m.channelId), ChannelEvent(e))
    case _ => AllReached(logic, vs, e)
  }

  lemma {:induction false} ReachedIsInv(logic: Logic, v: View, e: Event)
    requires Inv(v)
    ensures Inv(Reached(logic, v, e))
  {
    StepKeeps(logic, v, e);
    hide Step, Construct, Inv;
  }

  /** Every event keeps the invariant of every channel. */
  lemma {:induction false} ManagedKeeps(logic: Logic, vs: seq<View>, e: ManagerEvent)
    requires AllInv(vs)
    ensures AllInv(Managed(logic, vs, e))
  {
    hide Inv, Opened, Construct, Reached;
    if e.Open? {
      OpenedIsInv(e.peer, e.temporaryId);
    } else {
      forall i | 0 <= i < |vs| ensures Inv(Reached(logic, vs[i], ChannelEvent(e))) {
        ReachedIsInv(logic, vs[i], ChannelEvent(e));
      }
    }
  }

  /** Each channel after an event is as it was, has taken the event, or was just opened. */
  lemma {:induction false} ManagedAt(logic: Logic, vs: seq<View>, e: ManagerEvent, i: nat)
    requires AllInv(vs) && i < |Managed(logic, vs, e)|
    ensures var r := Managed(logic, vs, e)[i];
            || (i < |vs| && r == vs[i])
            || (i < |vs| && !e.Open? && r == Reached(logic, vs[i], ChannelEvent(e)))
            || (i == |vs| && e.Open? && r == Opened(Construct(), e.peer, e.temporaryId).0)
  {
    hide Reached, Opened, Construct, AllInv, FindById, FindByTempId;
  }

  ghost function ManagerRun(logic: Logic, es: seq<ManagerEvent>): (vs: seq<View>)
    ensures AllInv(vs)
  {
    if es == [] then []
    else
      var vs := ManagerRun(logic, es[..|es| - 1]);
      ManagedKeeps(logic, vs, es[|es| - 1]);
      Managed(logic, vs, es[|es| - 1])
  }

  /** In every run of the manager each of its channels is in a run of its own. */
  lemma {:induction false} EachIsRun(logic: Logic, es: seq<ManagerEvent>, i: nat)
    returns (peer: nat, temporaryId: nat, own: seq<Event>)
    requires i < |ManagerRun(logic, es)|
    ensures ManagerRun(logic, es)[i] == Run(logic, peer, temporaryId, own)
  {
    if es == [] {
      assert false;
    } else {
      var pre, e := es[..|es| - 1], es[|es| - 1];
      var vs := ManagerRun(logic, pre);
      hide Managed, Opened, Construct, AllInv, Inv, Step;
      ManagedAt(logic, vs, e, i);
      if i < |vs| {
        peer, temporaryId, own := EachIsRun(logic, pre, i);
        if ManagerRun(logic, es)[i] != vs[i] {
          assert (own + [ChannelEvent(e)])[..|own|] == own;
          own := own + [ChannelEvent(e)];
        }
      } else {
        peer, temporaryId, own := e.peer, e.temporaryId, [];
      }
    }
  }

  // ---------------------------------------------------------------------------
  // Which messages are lost

  lemma {:induction false} RunOne(logic: Logic, es: seq<ManagerEvent>, e: ManagerEvent)
    ensures ManagerRun(logic, es + [e]) == Managed(logic, ManagerRun(logic, es), e)
  {
    hide Managed;
    assert (es + [e])[..|es|] == es;
  }

  /** A channel has an id from when funding_created is sent for it. */
  lemma {:induction false} HasIdIff(v: View)
    requires Inv(v)
    ensures v.record.channelId.Some? <==> |v.log| >= 2
  {
    hide Stage, Stored;
  }

  /**
   In every run of the manager funding_signed or channel_ready for a channel reaches it if and only if
   funding_created was sent for every channel opened before it. Otherwise it is an exception, and nothing
   changes.
  */
  lemma {:induction false} MessageReachesIff(logic: Logic, es: seq<ManagerEvent>, i: nat, channelId: nat)
    requires var vs := ManagerRun(logic, es);
             && i < |vs| && vs[i].record.channelId == Some(channelId)
             && forall j :: 0 <= j < i ==> vs[j].record.channelId != Some(channelId)
    ensures var vs := ManagerRun(logic, es);
            && (FindById(vs, channelId) == FoundAt(i) <==> forall j :: 0 <= j < i ==> |vs[j].log| >= 2)
            && (FindById(vs, channelId) == FoundAt(i) || FindById(vs, channelId) == Crashed)
            && (FindById(vs, channelId) == Crashed ==>
                  && (forall m: FundingSigned :: m.channelId == channelId ==> Managed(logic, vs, Sign(m)) == vs)
                  && (forall m: ChannelReady :: m.channelId == channelId ==> Managed(logic, vs, Ready(m)) == vs))
  {
    var vs := ManagerRun(logic, es);
    forall j | 0 <= j < |vs| ensures vs[j].record.channelId.Some? <==> |vs[j].log| >= 2 {
      HasIdIff(vs[j]);
    }
    hide ManagerRun, Inv, Construct, Reached;
    FindByIdCrashesIff(vs, channelId);
    if forall j :: 0 <= j < i ==> |vs[j].log| >= 2 {
      FirstWithId(vs, i, channelId);
    } else {
      var j :| 0 <= j < i && |vs[j].log| < 2;
      assert vs[j].record.channelId.None? && forall k :: 0 <= k < j ==> vs[k].record.channelId != Some(channelId);
    }
  }

  lemma {:induction false} FirstWithId(vs: seq<View>, i: nat, channelId: nat)
    requires i < |vs| && vs[i].record.channelId == Some(channelId)
    requires forall j :: 0 <= j < i ==> vs[j].record.channelId.Some? && vs[j].record.channelId != Some(channelId)
    ensures FindById(vs, channelId) == FoundAt(i)
    decreases i
  {
    if i > 0 {
      var rest := vs[1..];
      assert forall j :: 0 <= j < i - 1 ==> rest[j] == vs[j + 1];
      FirstWithId(rest, i - 1, channelId);
    }
  }

  lemma {:induction false} EndedStays(logic: Logic, v: View, e: Event)
    requires Inv(v) && Rank(v.record.state.value) == 5
    ensures Reached(logic, v, e) == v
  {
    StepKeeps(logic, v, e);
    StepRank(logic, v, e);
    hide TableStep, Step, Construct, Inv;
  }

  /** A channel that failed or was abandoned stays where it is in the list, as it is, whatever happens. */
  lemma {:induction false} EndedForever(logic: Logic, es: seq<ManagerEvent>, more: seq<ManagerEvent>, j: nat)
    requires j < |ManagerRun(logic, es)| && Rank(ManagerRun(logic, es)[j].record.state.value) == 5
    ensures j < |ManagerRun(logic, es + more)| && ManagerRun(logic, es + more)[j] == ManagerRun(logic, es)[j]
    decreases |more|
  {
    if more == [] {
      assert es + more == es;
    } else {
      var pre, e := more[..|more| - 1], more[|more| - 1];
      EndedForever(logic, es, pre, j);
      assert es + more == (es + pre) + [e];
      RunOne(logic, es + pre, e);
      var vs := ManagerRun(logic, es + pre);
      assert Inv(vs[j]);
      ManagedAt(logic, vs, e, j);
      if !e.Open? {
        EndedStays(logic, vs[j], ChannelEvent(e));
      }
      hide ManagerRun, Managed, Inv, Reached, Rank, Construct;
    }
  }

  /**
   Once a channel ended before funding_created was sent for it, no funding_signed or channel_ready reaches
   any channel opened after it, ever.
  */
  lemma {:induction false} LostForever(
    logic: Logic, es: seq<ManagerEvent>, more: seq<ManagerEvent>, j: nat, i: nat, channelId: nat)
    requires j < |ManagerRun(logic, es)| && Rank(ManagerRun(logic, es)[j].record.state.value) == 5
    requires |ManagerRun(logic, es)[j].log| < 2
    requires var vs := ManagerRun(logic, es + more);
             && j < i < |vs| && vs[i].record.channelId == Some(channelId)
             && forall k :: 0 <= k < i ==> vs[k].record.channelId != Some(channelId)
    ensures FindById(ManagerRun(logic, es + more), channelId) == Crashed
  {
    EndedForever(logic, es, more, j);
    MessageReachesIff(logic, es + more, i, channelId);
    hide ManagerRun, FindById, Rank, Managed;
  }

  /** Takes accept_channel with terms 0 only, and every other message. */
  function Strict(): Logic {
    Logic((_, m: AcceptChannel) => m.terms == 0, _ => Tx(9, 1), (_, _) => true, _ => true)
  }

  lemma {:induction false} AcceptIs(logic: Logic, v: View, m: AcceptChannel)
    requires Inv(v) && v.record.state == Some(AWAITING_ACCEPT_CHANNEL)
    ensures Reached(logic, v, AcceptEvent(m)).record.state ==
            Some(if logic.acceptIsValid(v.record, m) then AWAITING_FUNDING_SIGNED else FAILING)
    ensures Reached(logic, v, AcceptEvent(m)).record.channelId ==
            if logic.acceptIsValid(v.record, m) then Some(logic.fundingTx(WithAccept(v.record, m)).txId)
            else v.record.channelId
    ensures Reached(logic, v, AcceptEvent(m)).record.peerId == v.record.peerId
  {
    StepKeeps(logic, v, AcceptEvent(m));
    hide Step, Construct, Inv;
  }

  /** The channels of the list are all but the last for other peers. */
  lemma {:induction false} AcceptReachesLast(logic: Logic, vs: seq<View>, v: View, peer: nat, m: AcceptChannel)
    requires AllInv(vs + [v]) && forall k :: 0 <= k < |vs| ==> vs[k].record.peerId != peer
    requires v.record.peerId == peer && v.record.temporaryId == m.temporaryId
    ensures Managed(logic, vs + [v], Accept(peer, m)) ==
            (assert Inv((vs + [v])[|vs|]); vs + [Reached(logic, v, AcceptEvent(m))])
  {
    assert Inv((vs + [v])[|vs|]);
    FoundLast(vs, v, peer, m.temporaryId);
    hide Inv, Reached, FindByTempId;
  }

  lemma {:induction false} FoundLast(vs: seq<View>, v: View, peer: nat, temporaryId: nat)
    requires forall k :: 0 <= k < |vs| ==> vs[k].record.peerId != peer
    requires v.record.peerId == peer && v.record.temporaryId == temporaryId
    ensures FindByTempId(vs + [v], peer, temporaryId) == FoundAt(|vs|)
    decreases |vs|
  {
    if vs != [] {
      FoundLast(vs[1..], v, peer, temporaryId);
      assert (vs + [v])[1..] == vs[1..] + [v];
    }
  }

  /** Opening a channel with a new peer, which answers. */
  lemma {:induction false} OpenAndAccept(logic: Logic, es: seq<ManagerEvent>, peer: nat, m: AcceptChannel)
    returns (v: View)
    requires forall k :: 0 <= k < |ManagerRun(logic, es)| ==> ManagerRun(logic, es)[k].record.peerId != peer
    ensures ManagerRun(logic, es + [Open(peer, true, m.temporaryId)] + [Accept(peer, m)]) == ManagerRun(logic, es) + [v]
    ensures v.record.peerId == peer
    ensures var v0 := Opened(Construct(), peer, m.temporaryId).0.record;
            && v.record.state == Some(if logic.acceptIsValid(v0, m) then AWAITING_FUNDING_SIGNED else FAILING)
            && v.record.channelId ==
               if logic.acceptIsValid(v0, m) then Some(logic.fundingTx(WithAccept(v0, m)).txId) else None
  {
    var vs, v0 := ManagerRun(logic, es), Opened(Construct(), peer, m.temporaryId).0;
    RunOne(logic, es, Open(peer, true, m.temporaryId));
    RunOne(logic, es + [Open(peer, true, m.temporaryId)], Accept(peer, m));
    OpenedIsInv(peer, m.temporaryId);
    v := Reached(logic, v0, AcceptEvent(m));
    assert Managed(logic, vs, Open(peer, true, m.temporaryId)) == vs + [v0];
    hide ManagerRun, Managed, Opened, Construct, Inv, Reached;
    AcceptReachesLast(logic, vs, v0, peer, m);
    AcceptIs(logic, v0, m);
  }

  /** Two channels with peers 1 and 2, the first of which gets an invalid answer. */
  function FailedFirst(): seq<ManagerEvent> {
    [Open(1, true, 7), Accept(1, AcceptChannel(7, 3, 1)), Open(2, true, 8), Accept(2, AcceptChannel(8, 3, 0))]
  }

  lemma {:induction false} FailedFirstRun(logic: Logic) returns (v: View, w: View)
    requires logic == Strict()
    ensures ManagerRun(logic, FailedFirst()) == [v, w]
    ensures v.record.state == Some(FAILING) && v.record.channelId.None? && w.record.channelId == Some(9)
  {
    assert ManagerRun(logic, []) == [];
    hide ManagerRun, Opened, Construct;
    var bad, good := AcceptChannel(7, 3, 1), AcceptChannel(8, 3, 0);
    var es2 := [] + [Open(1, true, 7)] + [Accept(1, bad)];
    assert es2 + [Open(2, true, 8)] + [Accept(2, good)] == FailedFirst();
    v := OpenAndAccept(logic, [], 1, bad);
    w := OpenAndAccept(logic, es2, 2, good);
  }

  /** After that run, whatever comes, the second channel never hears from its peer again. */
  lemma {:induction false} FailedFirstLosesSecond(logic: Logic, more: seq<ManagerEvent>)
    requires logic == Strict()
    ensures var vs := ManagerRun(logic, FailedFirst());
            |vs| == 2 && vs[0].record.state == Some(FAILING) && vs[1].record.channelId == Some(9)
    ensures FindById(ManagerRun(logic, FailedFirst() + more), 9) == Crashed
  {
    hide ManagerRun, Strict, FailedFirst;
    var v, w := FailedFirstRun(logic);
    EndedForever(logic, FailedFirst(), more, 0);
  }

  /** The first i channels have taken an event, and the others are as they were. */
  function UpTo(after: seq<View>, before: seq<View>, i: nat): (r: seq<View>)
    requires i <= |before| == |after|
  {
    after[..i] + before[i..]
  }

  lemma {:induction false} OneMore(after: seq<View>, before: seq<View>, i: nat)
    requires i < |before| == |after|
    ensures |UpTo(after, before, i)| == |before| && UpTo(after, before, i)[i] == before[i]
    ensures UpTo(after, before, i)[i := after[i]] == UpTo(after, before, i + 1)
    ensures after[i] == before[i] ==> UpTo(after, before, i) == UpTo(after, before, i + 1)
  {
  }

  lemma {:induction false} NoneAndAll(after: seq<View>, before: seq<View>)
    requires |before| == |after|
    ensures UpTo(after, before, 0) == before && UpTo(after, before, |before|) == after
  {
  }

  lemma {:induction false} OneMoreInv(vs: seq<View>, v: View)
    requires AllInv(vs) && Inv(v)
    ensures AllInv(vs + [v])
  {
    hide Inv;
  }

  lemma {:induction false} ChangedInv(vs: seq<View>, i: nat, v: View)
    requires AllInv(vs) && Inv(v) && i < |vs|
    ensures AllInv(vs[i := v])
  {
    hide Inv;
  }

  // ---------------------------------------------------------------------------
  // The class

  class ChannelManager {
    const root: State
    const logic: Logic
    var channels: seq<OpeningChannel>

    ghost predicate Valid()
      reads this, channels
    {
      && root == Construct()
      && (forall i, j :: 0 <= i < j < |channels| ==> channels[i] != channels[j])
      && AllInv(Values())
    }

    ghost function Values(): (r: seq<View>)
      reads this, channels
      ensures |r| == |channels| && forall i :: 0 <= i < |r| ==> r[i] == channels[i].Value()
    {
      seq(|channels|, i requires 0 <= i < |channels| reads this, channels => channels[i].Value())
    }

    constructor (logic: Logic)
      ensures Valid() && Values() == [] && this.logic == logic
    {
      this.root, this.logic := Construct(), logic;
      channels := [];
    }

    method FindChannelByTempId(peer: nat, temporaryId: nat) returns (r: Search)
      ensures r == FindByTempId(Values(), peer, temporaryId)
    {
      var i := 0;
      while i < |channels|
        invariant 0 <= i <= |channels|
        invariant FindByTempId(Values(), peer, temporaryId) ==
                  var rest := FindByTempId(Values()[i..], peer, temporaryId);
                  if rest.FoundAt? then FoundAt(rest.index + i) else rest
      {
        if channels[i].peerId == peer && channels[i].temporaryId == temporaryId {
          return FoundAt(i);
        }
        assert Values()[i..][1..] == Values()[i + 1..];
        i := i + 1;
      }
      return NotFound;
    }

    method FindChannelById(channelId: nat) returns (r: Search)
      ensures r == FindById(Values(), channelId)
    {
      var i := 0;
      while i < |channels|
        invariant 0 <= i <= |channels|
        invariant FindById(Values(), channelId) ==
                  var rest := FindById(Values()[i..], channelId);
                  if rest.FoundAt? then FoundAt(rest.index + i) else rest
      {
        if channels[i].channelId.None? {
          return Crashed;
        }
        if channels[i].channelId == Some(channelId) {
          return FoundAt(i);
        }
        assert Values()[i..][1..] == Values()[i + 1..];
        i := i + 1;
      }
      return NotFound;
    }

    /** One event of one channel: its handlers, then the transition. */
    method Deliver(c: OpeningChannel, e: Event)
      requires root == Construct() && Inv(c.Value())
      modifies c
      ensures c.Value() == Reached(logic, old(c.Value()), e)
    {
      StepKeeps(logic, c.Value(), e);
      ConstructIsDistinct();
      hide Construct, Handlers, At, Distinct, Transitioned, AllHandled, Story, Stage, Stored;
      var outcome := c.OnEvent(root, logic, e);
      var _ := c.TransitionState(root, outcome);
    }

    method NewChannel(peer: nat, temporaryId: nat) returns (c: OpeningChannel)
      requires root == Construct()
      ensures fresh(c) && c.Value() == Opened(root, peer, temporaryId).0
    {
      ConstructIsDistinct();
      hide Construct, At, Distinct, Transitioned;
      c := new OpeningChannel(peer, temporaryId);
      c.log := c.log + [OpenChannelSent];
      assert c.log == [OpenChannelSent];
      var _ := c.TransitionState(root, Goto(AWAITING_ACCEPT_CHANNEL));
    }

    method Register(c: OpeningChannel)
      requires Valid() && c !in channels && Inv(c.Value())
      modifies this`channels
      ensures Valid() && Values() == old(Values()) + [c.Value()]
    {
      OneMoreInv(Values(), c.Value());
      hide AllInv, Inv, Construct;
      channels := channels + [c];
      assert Values() == old(Values()) + [c.Value()];
    }

    /** Nothing is opened when the peer is not ready or the channel could not be created. */
    method OpenChannel(peer: nat, ok: bool, temporaryId: nat)
      requires Valid()
      modifies this`channels
      ensures Valid() && Values() == Managed(logic, old(Values()), Open(peer, ok, temporaryId))
    {
      if !ok { return; }
      OpenedIsInv(peer, temporaryId);
      hide Construct, Inv, Opened, AllInv;
      var c := NewChannel(peer, temporaryId);
      Register(c);
    }

    method DeliverAt(i: nat, e: Event)
      requires Valid() && i < |channels|
      modifies channels
      ensures Valid() && Values() == old(Values())[i := Reached(logic, old(Values()[i]), e)]
    {
      ReachedIsInv(logic, Values()[i], e);
      ChangedInv(Values(), i, Reached(logic, Values()[i], e));
      hide Inv, AllInv, Reached, Construct;
      Deliver(channels[i], e);
      assert Values() == old(Values())[i := channels[i].Value()];
    }

    method DeliverTo(s: Search, e: Event)
      requires Valid() && (s.FoundAt? ==> s.index < |channels|)
      modifies channels
      ensures Valid() && Values() == OneReached(logic, old(Values()), s, e)
    {
      hide AllInv, Reached, Construct;
      if s.FoundAt? {
        DeliverAt(s.index, e);
      }
    }

    method OnAcceptChannelMessage(peer: nat, m: AcceptChannel)
      requires Valid()
      modifies channels
      ensures Valid() && Values() == Managed(logic, old(Values()), Accept(peer, m))
    {
      hide AllInv, Reached, Construct, OneReached, FindByTempId;
      var found := FindChannelByTempId(peer, m.temporaryId);
      DeliverTo(found, AcceptEvent(m));
    }

    method OnFundingSignedMessage(m: FundingSigned)
      requires Valid()
      modifies channels
      ensures Valid() && Values() == Managed(logic, old(Values()), Sign(m))
    {
      hide AllInv, Reached, Construct, OneReached, FindById;
      var found := FindChannelById(m.channelId);
      DeliverTo(found, SignedEvent(m));
    }

    method OnChannelReadyMessage(m: ChannelReady)
      requires Valid()
      modifies channels
      ensures Valid() && Values() == Managed(logic, old(Values()), Ready(m))
    {
      hide AllInv, Reached, Construct, OneReached, FindById;
      var found := FindChannelById(m.channelId);
      DeliverTo(found, ReadyEvent(m));
    }

    /** The channel at i takes the event if it is meant; those before it already did. */
    method DeliverNext(i: nat, e: ManagerEvent, ghost before: seq<View>)
      requires Valid() && (e.Connect? || e.Disconnect?) && AllInv(before) && i < |channels| == |before|
      requires Values() == UpTo(AllReached(logic, before, e), before, i)
      modifies channels
      ensures Valid() && Values() == UpTo(AllReached(logic, before, e), before, i + 1)
    {
      hide AllInv, Inv, Reached, Construct, AllReached, UpTo;
      OneMore(AllReached(logic, before, e), before, i);
      assert channels[i].peerId == before[i].record.peerId;
      if e.Connect? || channels[i].peerId == e.peer {
        DeliverAt(i, ChannelEvent(e));
      }
    }

    method OnAll(e: ManagerEvent)
      requires Valid() && (e.Connect? || e.Disconnect?)
      modifies channels
      ensures Valid() && Values() == AllReached(logic, old(Values()), e)
    {
      hide AllInv, Inv, Reached, Construct, AllReached, UpTo, ChannelEvent, Meant;
      ghost var before := Values();
      NoneAndAll(AllReached(logic, before, e), before);
      for i := 0 to |channels|
        invariant |channels| == |before| && Valid()
        invariant Values() == UpTo(AllReached(logic, before, e), before, i)
      {
        DeliverNext(i, e, before);
      }
    }

    method OnBlockConnected(block: Block)
      requires Valid()
      modifies channels
      ensures Valid() && Values() == Managed(logic, old(Values()), Connect(block))
    {
      hide AllInv, Inv, Reached, Construct, AllReached;
      OnAll(Connect(block));
    }

    method OnPeerDisconnected(peer: nat)
      requires Valid()
      modifies channels
      ensures Valid() && Values() == Managed(logic, old(Values()), Disconnect(peer))
    {
      hide AllInv, Inv, Reached, Construct, AllReached;
      OnAll(Disconnect(peer));
    }
  }
}
