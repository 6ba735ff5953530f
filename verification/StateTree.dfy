/**
 The hierarchy of channel states: states nested in states, each with handlers for some events. The
 dotted id of a state is modelled by its parts.
*/
module StateTree {
  import opened Common

  datatype Name =
    | Channel | Initializing | AwaitingAcceptChannel | AwaitingFundingSigned
    | Funding | AwaitingFundingConf | NoChannelReady | AwaitingFundingDepth | AwaitingChannelReady
    | Abandoned | Failing | Normal

  /** The id of a state is that of its parent and then its name. */
  datatype Id = Top(name: Name) | Under(parent: Id, name: Name)

  datatype EventType = AcceptChannelMessage | FundingSignedMessage | BlockConnected | ChannelReadyMessage | PeerDisconnected

  datatype Handler =
    | OnAcceptChannel | OnFundingSigned | OnChannelReady(success: Id)
    | FundingConfirmed | FundingDepthReached | DisconnectedAbandon

  datatype State = State(name: Name, transitions: map<EventType, seq<Handler>>, subStates: seq<State>) {

    function AddSubState(sub: State): State {
      this.(subStates := subStates + [sub])
    }

    function AddTransition(t: EventType, h: Handler): State {
      this.(transitions := transitions[t := GetTransitions(t) + [h]])
    }

    predicate HandlesEvent(t: EventType) {
      t in transitions
    }

    function GetTransitions(t: EventType): seq<Handler> {
      if t in transitions then transitions[t] else []
    }
  }

  function NewState(name: Name): State {
    State(name, map[], [])
  }

  // ---------------------------------------------------------------------------
  // Where a state is

  /** The first substate of a name. */
  function Child(subs: seq<State>, name: Name): (r: Option<State>)
    ensures r.Some? ==> r.value in subs && r.value.name == name
  {
    if subs == [] then None
    else if subs[0].name == name then Some(subs[0])
    else Child(subs[1..], name)
  }

  /** The state with an id. */
  function At(root: State, id: Id): Option<State>
    decreases id, root
  {
    match id
    case Top(name) => if name == root.name then Some(root) else None
    case Under(parent, name) =>
      var above := At(root, parent);
      if above.None? then None else Child(above.value.subStates, name)
  }

  /** No two substates of a state have the same name. */
  predicate Distinct(s: State)
    decreases s
  {
    && (forall i, j :: 0 <= i < j < |s.subStates| ==> s.subStates[i].name != s.subStates[j].name)
    && (forall i :: 0 <= i < |s.subStates| ==> Distinct(s.subStates[i]))
  }

  function Size(s: State): nat
    decreases s, 0
  {
    1 + Sizes(s.subStates)
  }

  function Sizes(subs: seq<State>): nat
    decreases subs, 1
  {
    if subs == [] then 0 else Size(subs[0]) + Sizes(subs[1..])
  }

  lemma {:induction false} ChildIsNamed(subs: seq<State>, i: nat)
    requires i < |subs|
    requires forall j, k :: 0 <= j < k < |subs| ==> subs[j].name != subs[k].name
    ensures Child(subs, subs[i].name) == Some(subs[i])
  {
    if i > 0 {
      assert subs[1..][i - 1] == subs[i];
      ChildIsNamed(subs[1..], i - 1);
    }
  }

  lemma {:induction false} AtIsDistinct(root: State, id: Id)
    requires Distinct(root) && At(root, id).Some?
    ensures Distinct(At(root, id).value)
  {
    if id.Under? {
      AtIsDistinct(root, id.parent);
    }
  }

  /** One state is the other or above it. */
  predicate Leads(above: Id, id: Id)
    decreases id
  {
    above == id || (id.Under? && Leads(above, id.parent))
  }

  /** The id one below, on the way to another. */
  function Next(above: Id, id: Id): (r: Id)
    requires Leads(above, id) && above != id
    ensures r.Under? && r.parent == above && Leads(r, id)
    decreases id
  {
    if id.parent == above then id else Next(above, id.parent)
  }

  /** All that leads to an id that is there is there. */
  lemma {:induction false} AboveIsThere(root: State, above: Id, id: Id)
    requires At(root, id).Some? && Leads(above, id)
    ensures At(root, above).Some?
    decreases id
  {
    if above != id {
      AboveIsThere(root, above, id.parent);
    }
  }

  lemma {:induction false} RootLeads(root: State, id: Id)
    requires At(root, id).Some?
    ensures Leads(Top(root.name), id)
    decreases id
  {
    if id.Under? {
      RootLeads(root, id.parent);
    }
  }

  // ---------------------------------------------------------------------------
  // Breadth-first search

  datatype Visit = Visit(state: State, id: Id)

  function Children(v: Visit): (r: seq<Visit>)
    ensures |r| == |v.state.subStates|
    ensures forall i :: 0 <= i < |r| ==> r[i] == Visit(v.state.subStates[i], Under(v.id, v.state.subStates[i].name))
  {
    seq(|v.state.subStates|, i requires 0 <= i < |v.state.subStates| =>
      Visit(v.state.subStates[i], Under(v.id, v.state.subStates[i].name)))
  }

  function Weight(queue: seq<Visit>): nat {
    if queue == [] then 0 else Size(queue[0].state) + Weight(queue[1..])
  }

  lemma {:induction false} WeightOfBoth(a: seq<Visit>, b: seq<Visit>)
    ensures Weight(a + b) == Weight(a) + Weight(b)
  {
    if a == [] {
      assert a + b == b;
    } else {
      assert (a + b)[1..] == a[1..] + b;
      WeightOfBoth(a[1..], b);
    }
  }

  lemma {:induction false} WeightOfChildren(vs: seq<Visit>, subs: seq<State>)
    requires |vs| == |subs| && forall i :: 0 <= i < |vs| ==> vs[i].state == subs[i]
    ensures Weight(vs) == Sizes(subs)
  {
    if vs != [] {
      WeightOfChildren(vs[1..], subs[1..]);
    }
  }

  ghost predicate Found(root: State, queue: seq<Visit>) {
    forall i :: 0 <= i < |queue| ==> At(root, queue[i].id) == Some(queue[i].state)
  }

  predicate Covers(queue: seq<Visit>, id: Id) {
    exists i :: 0 <= i < |queue| && Leads(queue[i].id, id)
  }

  lemma {:induction false} ChildrenAreFound(root: State, v: Visit)
    requires Distinct(root) && At(root, v.id) == Some(v.state)
    ensures Found(root, Children(v))
  {
    AtIsDistinct(root, v.id);
    forall i | 0 <= i < |Children(v)| ensures At(root, Children(v)[i].id) == Some(Children(v)[i].state) {
      ChildIsNamed(v.state.subStates, i);
    }
  }

  /** When the way to the id goes through a state, it goes on through one of its children. */
  lemma {:induction false} ChildrenCover(root: State, v: Visit, id: Id)
    requires At(root, v.id) == Some(v.state) && At(root, id).Some? && Leads(v.id, id) && v.id != id
    ensures Covers(Children(v), id)
  {
    var next := Next(v.id, id);
    AboveIsThere(root, next, id);
    var child := Child(v.state.subStates, next.name).value;
    var i :| 0 <= i < |v.state.subStates| && v.state.subStates[i] == child;
    assert Children(v)[i].id == next;
  }

  /** What leads to an id is passed on to the children of the state that is taken off. */
  lemma {:induction false} StillCovers(root: State, queue: seq<Visit>, id: Id)
    requires queue != [] && Covers(queue, id) && queue[0].id != id && At(root, id).Some? && Found(root, queue)
    requires Distinct(root)
    ensures Covers(queue[1..] + Children(queue[0]), id)
  {
    hide At, Distinct, Leads;
    var current, rest := queue[0], queue[1..] + Children(queue[0]);
    var i :| 0 <= i < |queue| && Leads(queue[i].id, id);
    if i == 0 {
      ChildrenCover(root, current, id);
      var j :| 0 <= j < |Children(current)| && Leads(Children(current)[j].id, id);
      assert rest[|queue| - 1 + j] == Children(current)[j];
    } else {
      assert rest[i - 1] == queue[i];
    }
  }

  /** The search from the root finds the state with the id, if there is one. */
  method FindState(root: State, id: Id) returns (r: Option<State>)
    requires Distinct(root)
    ensures r == At(root, id)
  {
    var queue := [Visit(root, Top(root.name))];
    if At(root, id).Some? {
      RootLeads(root, id);
      assert Leads(queue[0].id, id);
    }
    while queue != []
      invariant Found(root, queue)
      invariant At(root, id).Some? ==> Covers(queue, id)
      decreases Weight(queue)
    {
      hide At, Distinct, Leads;
      var current := queue[0];
      if current.id == id {
        return Some(current.state);
      }
      ghost var before := queue;
      queue := queue[1..] + Children(current);
      ChildrenAreFound(root, current);
      WeightOfBoth(before[1..], Children(current));
      WeightOfChildren(Children(current), current.state.subStates);
      if At(root, id).Some? {
        StillCovers(root, before, id);
      }
    }
    return None;
  }

  // ---------------------------------------------------------------------------
  // The cascade

  predicate Handles(root: State, id: Id, t: EventType) {
    At(root, id).Some? && At(root, id).value.HandlesEvent(t)
  }

  /** The handlers of the nearest state, from the state upward, that handles the event. */
  function Handlers(root: State, id: Id, t: EventType): seq<Handler>
    decreases id, root
  {
    if Handles(root, id, t) then At(root, id).value.GetTransitions(t)
    else if id.Under? then Handlers(root, id.parent, t)
    else []
  }

  /** They are those of the lowest state, at the id or above, that handles the event. */
  lemma {:induction false} NearestHandles(root: State, id: Id, t: EventType, near: Id)
    requires Leads(near, id) && Handles(root, near, t)
    requires forall a :: Leads(a, id) && Handles(root, a, t) ==> Leads(a, near)
    ensures Handlers(root, id, t) == At(root, near).value.GetTransitions(t)
    decreases id
  {
    if near != id {
      if Handles(root, id, t) {
        LeadsOneWay(id, near);
        LeadsOneWay(near, id);
        assert false;
      }
      NearestHandles(root, id.parent, t, near);
    }
  }

  function Depth(id: Id): nat {
    if id.Under? then 1 + Depth(id.parent) else 0
  }

  lemma {:induction false} LeadsOneWay(a: Id, b: Id)
    requires Leads(a, b)
    ensures a == b || Depth(a) < Depth(b)
    decreases b
  {
    if a != b {
      LeadsOneWay(a, b.parent);
    }
  }

  /** Walks up from a state to one that handles the event. */
  method CollectHandlers(root: State, id: Id, t: EventType) returns (r: seq<Handler>)
    ensures r == Handlers(root, id, t)
  {
    var current := Some(id);
    while current.Some?
      invariant Handlers(root, id, t) == if current.Some? then Handlers(root, current.value, t) else []
      decreases if current.Some? then 1 + Depth(current.value) else 0
    {
      if Handles(root, current.value, t) {
        return At(root, current.value).value.GetTransitions(t);
      }
      current := if current.value.Under? then Some(current.value.parent) else None;
    }
    return [];
  }

  // ---------------------------------------------------------------------------
  // The tree of a channel

  const AWAITING_ACCEPT_CHANNEL := Under(Under(Top(Channel), Initializing), AwaitingAcceptChannel)
  const AWAITING_FUNDING_SIGNED := Under(Under(Top(Channel), Initializing), AwaitingFundingSigned)
  const NO_CHANNEL_READY := Under(Under(Under(Top(Channel), Funding), AwaitingFundingConf), NoChannelReady)
  const AWAITING_FUNDING_DEPTH := Under(Under(Top(Channel), Funding), AwaitingFundingDepth)
  const AWAITING_CHANNEL_READY := Under(Under(Top(Channel), Funding), AwaitingChannelReady)
  const FAILING := Under(Top(Channel), Failing)
  const NORMAL := Under(Top(Channel), Normal)
  const ABANDONED := Under(Top(Channel), Abandoned)

  function InitializingState(): State {
    NewState(Initializing)
      .AddSubState(NewState(AwaitingAcceptChannel).AddTransition(AcceptChannelMessage, OnAcceptChannel))
      .AddSubState(NewState(AwaitingFundingSigned).AddTransition(FundingSignedMessage, OnFundingSigned))
      .AddTransition(PeerDisconnected, DisconnectedAbandon)
  }

  function FundingConfState(): State {
    NewState(AwaitingFundingConf)
      .AddSubState(NewState(NoChannelReady).AddTransition(BlockConnected, FundingConfirmed))
  }

  function FundingState(): State {
    NewState(Funding)
      .AddSubState(FundingConfState())
      .AddSubState(NewState(AwaitingFundingDepth)
        .AddTransition(BlockConnected, FundingDepthReached)
        .AddTransition(ChannelReadyMessage, OnChannelReady(AWAITING_FUNDING_DEPTH)))
      .AddSubState(NewState(AwaitingChannelReady).AddTransition(ChannelReadyMessage, OnChannelReady(NORMAL)))
  }

  function Construct(): State {
    NewState(Channel)
      .AddSubState(InitializingState())
      .AddSubState(FundingState())
      .AddSubState(NewState(Abandoned))
      .AddSubState(NewState(Failing))
      .AddSubState(NewState(Normal))
  }

  /** The ids a channel can be in. */
  predicate Leaf(id: Id) {
    || id == AWAITING_ACCEPT_CHANNEL || id == AWAITING_FUNDING_SIGNED || id == NO_CHANNEL_READY
    || id == AWAITING_FUNDING_DEPTH || id == AWAITING_CHANNEL_READY
    || id == FAILING || id == NORMAL || id == ABANDONED
  }

  predicate Initial(id: Id) {
    id == AWAITING_ACCEPT_CHANNEL || id == AWAITING_FUNDING_SIGNED
  }

  /** The tree and its states. */
  datatype Parts = Parts(
    root: State, initializing: State, accept: State, signed: State, funding: State, conf: State, noReady: State,
    depth: State, ready: State, abandoned: State, failing: State, normal: State)

  predicate HandlesNone(s: State) {
    forall t :: !s.HandlesEvent(t)
  }

  function One(h: Handler): seq<Handler> {
    [h]
  }

  predicate HandlesOne(s: State, t: EventType, h: Handler) {
    && (forall u :: s.HandlesEvent(u) <==> u == t)
    && s.GetTransitions(t) == One(h)
  }

  /** What the factory's calls add up to. */
  predicate Built(p: Parts) {
    && p.root.name == Channel && HandlesNone(p.root) && |p.root.subStates| == 5
    && p.root.subStates[0] == p.initializing && p.root.subStates[1] == p.funding
    && p.root.subStates[2] == p.abandoned && p.root.subStates[3] == p.failing && p.root.subStates[4] == p.normal
    && p.initializing.name == Initializing && HandlesOne(p.initializing, PeerDisconnected, DisconnectedAbandon)
    && |p.initializing.subStates| == 2
    && p.initializing.subStates[0] == p.accept && p.initializing.subStates[1] == p.signed
    && p.funding.name == Funding && HandlesNone(p.funding) && |p.funding.subStates| == 3
    && p.funding.subStates[0] == p.conf && p.funding.subStates[1] == p.depth && p.funding.subStates[2] == p.ready
    && p.conf.name == AwaitingFundingConf && HandlesNone(p.conf)
    && |p.conf.subStates| == 1 && p.conf.subStates[0] == p.noReady
    && BuiltLeaves(p)
  }

  predicate BuiltLeaves(p: Parts) {
    && p.accept.name == AwaitingAcceptChannel && HandlesOne(p.accept, AcceptChannelMessage, OnAcceptChannel)
    && p.signed.name == AwaitingFundingSigned && HandlesOne(p.signed, FundingSignedMessage, OnFundingSigned)
    && p.noReady.name == NoChannelReady && HandlesOne(p.noReady, BlockConnected, FundingConfirmed)
    && p.depth.name == AwaitingFundingDepth
    && (forall t :: p.depth.HandlesEvent(t) <==> t == BlockConnected || t == ChannelReadyMessage)
    && p.depth.GetTransitions(BlockConnected) == One(FundingDepthReached)
    && p.depth.GetTransitions(ChannelReadyMessage) == One(OnChannelReady(AWAITING_FUNDING_DEPTH))
    && p.ready.name == AwaitingChannelReady && HandlesOne(p.ready, ChannelReadyMessage, OnChannelReady(NORMAL))
    && p.abandoned.name == Abandoned && HandlesNone(p.abandoned)
    && p.failing.name == Failing && HandlesNone(p.failing)
    && p.normal.name == Normal && HandlesNone(p.normal)
    && p.accept.subStates == p.signed.subStates == p.noReady.subStates == p.depth.subStates == p.ready.subStates == []
    && p.abandoned.subStates == p.failing.subStates == p.normal.subStates == []
  }

  function ConstructedParts(): Parts {
    Parts(Construct(), InitializingState(), InitializingState().subStates[0], InitializingState().subStates[1],
          FundingState(), FundingConfState(), FundingConfState().subStates[0],
          FundingState().subStates[1], FundingState().subStates[2],
          NewState(Abandoned), NewState(Failing), NewState(Normal))
  }

  lemma {:induction false} OneTransition(name: Name, t: EventType, h: Handler)
    ensures HandlesOne(NewState(name).AddTransition(t, h), t, h)
  {
    var hs: seq<Handler> := [];
    assert hs + [h] == [h];
  }

  lemma {:induction false} ConstructLeaves()
    ensures BuiltLeaves(ConstructedParts())
  {
    var hs: seq<Handler> := [];
    assert hs + [FundingDepthReached] == [FundingDepthReached];
    var stay := OnChannelReady(AWAITING_FUNDING_DEPTH);
    assert hs + [stay] == [stay];
    OneTransition(AwaitingAcceptChannel, AcceptChannelMessage, OnAcceptChannel);
    OneTransition(AwaitingFundingSigned, FundingSignedMessage, OnFundingSigned);
    OneTransition(NoChannelReady, BlockConnected, FundingConfirmed);
    OneTransition(AwaitingChannelReady, ChannelReadyMessage, OnChannelReady(NORMAL));
  }

  lemma {:induction false} ConstructIsBuilt()
    ensures Built(ConstructedParts())
  {
    ConstructLeaves();
    OneTransition(Initializing, PeerDisconnected, DisconnectedAbandon);
    var hs: seq<Handler> := [];
    assert hs + [DisconnectedAbandon] == [DisconnectedAbandon];
    hide BuiltLeaves;
  }

  // ---------------------------------------------------------------------------
  // What the tree does with each event

  lemma {:induction false} LeafIsDistinct(s: State)
    requires s.subStates == []
    ensures Distinct(s)
  {
  }

  lemma {:induction false} InnerIsDistinct(s: State)
    requires forall i, j :: 0 <= i < j < |s.subStates| ==> s.subStates[i].name != s.subStates[j].name
    requires forall i :: 0 <= i < |s.subStates| ==> Distinct(s.subStates[i])
    ensures Distinct(s)
  {
  }

  lemma {:induction false} BuiltIsDistinct(p: Parts)
    requires Built(p)
    ensures Distinct(p.root)
  {
    hide Distinct, HandlesNone, HandlesOne;
    LeafIsDistinct(p.accept);
    LeafIsDistinct(p.signed);
    LeafIsDistinct(p.noReady);
    LeafIsDistinct(p.depth);
    LeafIsDistinct(p.ready);
    LeafIsDistinct(p.abandoned);
    LeafIsDistinct(p.failing);
    LeafIsDistinct(p.normal);
    hide BuiltLeaves;
    InnerIsDistinct(p.initializing);
    InnerIsDistinct(p.conf);
    InnerIsDistinct(p.funding);
    InnerIsDistinct(p.root);
  }

  lemma {:induction false} ConstructIsDistinct()
    ensures Distinct(Construct())
  {
    ConstructIsBuilt();
    hide Construct, Distinct, Built;
    BuiltIsDistinct(ConstructedParts());
  }

  /** The state one name below another that is known. */
  lemma {:induction false} ChildAt(root: State, id: Id, i: nat, child: State)
    requires At(root, id).Some? && i < |At(root, id).value.subStates| && At(root, id).value.subStates[i] == child
    requires Distinct(root)
    ensures At(root, Under(id, child.name)) == Some(child)
  {
    AtIsDistinct(root, id);
    ChildIsNamed(At(root, id).value.subStates, i);
  }

  /** The state at each id of the channel's tree. */
  lemma {:induction false} BuiltIds(p: Parts)
    requires Built(p) && Distinct(p.root)
    ensures At(p.root, Top(Channel)) == Some(p.root)
    ensures At(p.root, Under(Top(Channel), Initializing)) == Some(p.initializing)
    ensures At(p.root, Under(Top(Channel), Funding)) == Some(p.funding)
    ensures At(p.root, Under(Under(Top(Channel), Funding), AwaitingFundingConf)) == Some(p.conf)
    ensures At(p.root, AWAITING_ACCEPT_CHANNEL) == Some(p.accept)
    ensures At(p.root, AWAITING_FUNDING_SIGNED) == Some(p.signed)
    ensures At(p.root, NO_CHANNEL_READY) == Some(p.noReady)
    ensures At(p.root, AWAITING_FUNDING_DEPTH) == Some(p.depth)
    ensures At(p.root, AWAITING_CHANNEL_READY) == Some(p.ready)
    ensures At(p.root, FAILING) == Some(p.failing)
    ensures At(p.root, NORMAL) == Some(p.normal)
    ensures At(p.root, ABANDONED) == Some(p.abandoned)
  {
    var top := Top(Channel);
    assert At(p.root, top) == Some(p.root);
    hide At, Distinct;
    ChildAt(p.root, top, 0, p.initializing);
    ChildAt(p.root, top, 1, p.funding);
    ChildAt(p.root, top, 2, p.abandoned);
    ChildAt(p.root, top, 3, p.failing);
    ChildAt(p.root, top, 4, p.normal);
    ChildAt(p.root, Under(top, Initializing), 0, p.accept);
    ChildAt(p.root, Under(top, Initializing), 1, p.signed);
    ChildAt(p.root, Under(top, Funding), 0, p.conf);
    ChildAt(p.root, Under(top, Funding), 1, p.depth);
    ChildAt(p.root, Under(top, Funding), 2, p.ready);
    ChildAt(p.root, Under(Under(top, Funding), AwaitingFundingConf), 0, p.noReady);
  }

  /** What the channel's tree does with each event in each state. */
  function Expected(id: Id, t: EventType): seq<Handler> {
    if id == AWAITING_ACCEPT_CHANNEL && t == AcceptChannelMessage then One(OnAcceptChannel)
    else if id == AWAITING_FUNDING_SIGNED && t == FundingSignedMessage then One(OnFundingSigned)
    else if Initial(id) && t == PeerDisconnected then One(DisconnectedAbandon)
    else if id == NO_CHANNEL_READY && t == BlockConnected then One(FundingConfirmed)
    else if id == AWAITING_FUNDING_DEPTH && t == BlockConnected then One(FundingDepthReached)
    else if id == AWAITING_FUNDING_DEPTH && t == ChannelReadyMessage then One(OnChannelReady(AWAITING_FUNDING_DEPTH))
    else if id == AWAITING_CHANNEL_READY && t == ChannelReadyMessage then One(OnChannelReady(NORMAL))
    else []
  }

  function OwnOr(s: State, t: EventType, otherwise: seq<Handler>): seq<Handler> {
    if s.HandlesEvent(t) then s.GetTransitions(t) else otherwise
  }

  lemma {:induction false} OneUp(root: State, id: Id, s: State, t: EventType)
    requires At(root, id) == Some(s)
    ensures Handlers(root, id, t) == OwnOr(s, t, if id.Under? then Handlers(root, id.parent, t) else [])
  {
    hide At;
  }

  /** Above the leaves only the initializing state handles anything: a peer that disconnects. */
  lemma {:induction false} InnerHandlers(p: Parts, t: EventType)
    requires Built(p) && Distinct(p.root)
    ensures Handlers(p.root, Top(Channel), t) == []
    ensures Handlers(p.root, Under(Top(Channel), Funding), t) == []
    ensures Handlers(p.root, Under(Under(Top(Channel), Funding), AwaitingFundingConf), t) == []
    ensures Handlers(p.root, Under(Top(Channel), Initializing), t) ==
            if t == PeerDisconnected then One(DisconnectedAbandon) else []
  {
    BuiltIds(p);
    hide At, Distinct, Handlers, BuiltLeaves, One;
    OneUp(p.root, Top(Channel), p.root, t);
    OneUp(p.root, Under(Top(Channel), Funding), p.funding, t);
    OneUp(p.root, Under(Under(Top(Channel), Funding), AwaitingFundingConf), p.conf, t);
    OneUp(p.root, Under(Top(Channel), Initializing), p.initializing, t);
  }

  lemma {:induction false} LeafOwn(p: Parts, id: Id, t: EventType)
    requires BuiltLeaves(p) && Leaf(id)
    ensures OwnOr(LeafState(p, id), t, if Initial(id) && t == PeerDisconnected then One(DisconnectedAbandon) else []) ==
            Expected(id, t)
  {
    hide One;
  }

  function LeafState(p: Parts, id: Id): State {
    if id == AWAITING_ACCEPT_CHANNEL then p.accept
    else if id == AWAITING_FUNDING_SIGNED then p.signed
    else if id == NO_CHANNEL_READY then p.noReady
    else if id == AWAITING_FUNDING_DEPTH then p.depth
    else if id == AWAITING_CHANNEL_READY then p.ready
    else if id == FAILING then p.failing
    else if id == NORMAL then p.normal
    else p.abandoned
  }

  lemma {:induction false} BuiltHandles(p: Parts, id: Id, t: EventType)
    requires Built(p) && Distinct(p.root) && Leaf(id)
    ensures Handlers(p.root, id, t) == Expected(id, t) && At(p.root, id).Some?
  {
    BuiltIds(p);
    InnerHandlers(p, t);
    LeafOwn(p, id, t);
    assert At(p.root, id) == Some(LeafState(p, id));
    hide At, Distinct, Handlers, Expected, Built, BuiltLeaves, OwnOr, One, LeafState;
    OneUp(p.root, id, LeafState(p, id), t);
  }

  /** The factory's tree, searched and cascaded, does what the table says in every state. */
  lemma {:induction false} ConstructHandles(id: Id, t: EventType)
    requires Leaf(id)
    ensures Handlers(Construct(), id, t) == Expected(id, t) && At(Construct(), id).Some?
  {
    ConstructIsBuilt();
    ConstructIsDistinct();
    hide Construct, Distinct, Built, Handlers, At, Expected, Leaf;
    BuiltHandles(ConstructedParts(), id, t);
  }
}
