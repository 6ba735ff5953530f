/**
 Which channel of a manager hears which event, in every run.
*/
module ManagerHearing {
  import opened Common
  import opened StateTree
  import opened ChannelEvents
  import opened ChannelRuns
  import opened ChannelManager

  /** The k-th is the first with a property. */
  ghost predicate IsFirst(vs: seq<View>, k: nat, p: View -> bool)
    requires k < |vs|
  {
    p(vs[k]) && forall j :: 0 <= j < k ==> !p(vs[j])
  }

  /**
   accept_channel is for the first channel of its peer with its temporary id; funding_signed and
   channel_ready are for the first with their id, if all before it have one; a block is for all, and a
   disconnection for all of its peer.
  */
  ghost predicate Hears(vs: seq<View>, k: nat, e: ManagerEvent)
    requires k < |vs|
  {
    match e
    case Open(_, _, _) => false
    case Accept(peer, m) =>
      IsFirst(vs, k, (v: View) => v.record.peerId == peer && v.record.temporaryId == m.temporaryId)
    case Sign(m) => HasIds(vs, k) && IsFirst(vs, k, (v: View) => v.record.channelId == Some(m.channelId))
    case Ready(m) => HasIds(vs, k) && IsFirst(vs, k, (v: View) => v.record.channelId == Some(m.channelId))
    case Connect(_) => true
    case Disconnect(peer) => vs[k].record.peerId == peer
  }

  predicate HasIds(vs: seq<View>, k: nat)
    requires k < |vs|
  {
    forall j :: 0 <= j < k ==> vs[j].record.channelId.Some?
  }

  /** What a channel hears of an event. */
  predicate IsHeard(e: ManagerEvent, heard: Event) {
    match e
    case Open(_, _, _) => false
    case Accept(_, m) => heard == AcceptEvent(m)
    case Sign(m) => heard == SignedEvent(m)
    case Ready(m) => heard == ReadyEvent(m)
    case Connect(b) => heard == BlockEvent(b)
    case Disconnect(_) => heard == DisconnectEvent
  }

  lemma {:induction false} FoundByTempIdIff(vs: seq<View>, peer: nat, temporaryId: nat, k: nat)
    requires k < |vs|
    ensures FindByTempId(vs, peer, temporaryId) == FoundAt(k) <==>
            IsFirst(vs, k, (v: View) => v.record.peerId == peer && v.record.temporaryId == temporaryId)
    decreases k
  {
    var p := (v: View) => v.record.peerId == peer && v.record.temporaryId == temporaryId;
    if k > 0 && !p(vs[0]) {
      FoundByTempIdIff(vs[1..], peer, temporaryId, k - 1);
      RestIsFirst(vs, k, p);
    }
  }

  lemma {:induction false} RestIsFirst(vs: seq<View>, k: nat, p: View -> bool)
    requires 0 < k < |vs| && !p(vs[0])
    ensures IsFirst(vs, k, p) <==> IsFirst(vs[1..], k - 1, p)
  {
    if IsFirst(vs[1..], k - 1, p) {
      forall j | 0 <= j < k ensures !p(vs[j]) {
        if j > 0 { assert vs[j] == vs[1..][j - 1]; }
      }
    }
  }

  lemma {:induction false} FoundByIdIff(vs: seq<View>, channelId: nat, k: nat)
    requires k < |vs|
    ensures FindById(vs, channelId) == FoundAt(k) <==>
            HasIds(vs, k) && IsFirst(vs, k, (v: View) => v.record.channelId == Some(channelId))
    decreases k
  {
    var p := (v: View) => v.record.channelId == Some(channelId);
    if k > 0 && vs[0].record.channelId.Some? && !p(vs[0]) {
      FoundByIdIff(vs[1..], channelId, k - 1);
      RestIsFirst(vs, k, p);
      if HasIds(vs[1..], k - 1) {
        forall j | 0 <= j < k ensures vs[j].record.channelId.Some? {
          if j > 0 { assert vs[j] == vs[1..][j - 1]; }
        }
      }
    }
  }

  lemma {:induction false} OneReachedAt(logic: Logic, vs: seq<View>, s: Search, e: Event, k: nat)
    requires AllInv(vs) && (s.FoundAt? ==> s.index < |vs|) && k < |vs|
    ensures |OneReached(logic, vs, s, e)| == |vs|
    ensures OneReached(logic, vs, s, e)[k] ==
            (assert Inv(vs[k]); if s == FoundAt(k) then Reached(logic, vs[k], e) else vs[k])
  {
    hide Reached, Inv;
    assert Inv(vs[k]);
  }

  /** In every run of the manager an event changes exactly the channels that hear it, by a step of their own. */
  lemma {:induction false} HeardIff(logic: Logic, es: seq<ManagerEvent>, e: ManagerEvent, k: nat, heard: Event)
    requires k < |ManagerRun(logic, es)| && (e.Open? || IsHeard(e, heard))
    ensures var vs, vs' := ManagerRun(logic, es), ManagerRun(logic, es + [e]);
            && AllSuit(Construct(), vs[k].record.state.value, TypeOf(heard))
            && k < |vs'| && vs'[k] == if Hears(vs, k, e) then Step(Construct(), logic, vs[k], heard).0 else vs[k]
  {
    RunOne(logic, es, e);
    var vs := ManagerRun(logic, es);
    assert Inv(vs[k]);
    StepKeeps(logic, vs[k], heard);
    assert Reached(logic, vs[k], heard) == Step(Construct(), logic, vs[k], heard).0;
    hide ManagerRun, Inv, Construct, Step, Reached, IsFirst, HasIds, AllSuit, FindById, FindByTempId;
    match e
    case Open(_, _, _) =>
    case Accept(peer, m) =>
      FoundByTempIdIff(vs, peer, m.temporaryId, k);
      OneReachedAt(logic, vs, FindByTempId(vs, peer, m.temporaryId), heard, k);
    case Sign(m) =>
      FoundByIdIff(vs, m.channelId, k);
      OneReachedAt(logic, vs, FindById(vs, m.channelId), heard, k);
    case Ready(m) =>
      FoundByIdIff(vs, m.channelId, k);
      OneReachedAt(logic, vs, FindById(vs, m.channelId), heard, k);
    case Connect(_) =>
    case Disconnect(_) =>
  }

  /** Channels are added at the end, one for each that could be opened, for its peer and its temporary id. */
  lemma {:induction false} AddedIff(logic: Logic, es: seq<ManagerEvent>, e: ManagerEvent)
    ensures var vs, vs' := ManagerRun(logic, es), ManagerRun(logic, es + [e]);
            && |vs'| == |vs| + (if e.Open? && e.ok then 1 else 0)
            && (e.Open? && e.ok ==> vs'[|vs|].record.peerId == e.peer && vs'[|vs|].record.temporaryId == e.temporaryId
                                    && vs'[|vs|].record.state == Some(AWAITING_ACCEPT_CHANNEL))
  {
    RunOne(logic, es, e);
    hide ManagerRun, Inv, Construct, Step, Reached, FindById, FindByTempId, Opened;
    if e.Open? { OpenedIsInv(e.peer, e.temporaryId); }
  }
}
