/**
 What holds of a channel in every run of events: what it broadcasts and sends and when, which states
 follow which, and what of it is on disk.
*/
module ChannelRuns {
  import opened Common
  import opened StateTree
  import opened ChannelEvents

  // ---------------------------------------------------------------------------
  // The invariant

  /** What a channel has made others see, by how far its opening got. */
  predicate Story(c: Record, log: seq<Effect>) {
    && 1 <= |log| <= 4
    && log[0] == OpenChannelSent
    && (|log| >= 2 ==>
          && log[1] == FundingCreatedSent
          && c.minimumDepth.Some? && c.theirNumber.Some? && c.fundingTx.Some?
          && c.fundingOutPoint == Some(OutPoint(c.fundingTx.value.txId, 0))
          && c.channelId == Some(c.fundingTx.value.txId))
    && (|log| < 2 ==> c.channelId.None? && c.theirNumber.None?)
    && (|log| >= 3 ==> log[2] == Broadcast(c.fundingTx.value))
    && (|log| >= 3 <==> c.ourSignature.Some?)
    && (|log| >= 4 ==> ReadyHeight(c).Some? && log[3].ReadySent? && log[3].height >= ReadyHeight(c).value)
  }

  /** How far the opening is in each state, and whether the peer's channel_ready has come. */
  predicate Stage(c: Record, sent: nat)
    requires c.state.Some?
  {
    var s, counted := c.state.value, if c.theirNumber.Some? then c.theirNumber.value else 0;
    && Leaf(s)
    && (s == AWAITING_ACCEPT_CHANNEL ==> sent == 1 && c.confirmedHeight.None?)
    && (s == AWAITING_FUNDING_SIGNED ==> sent == 2 && counted == 0 && c.confirmedHeight.None?)
    && (s == NO_CHANNEL_READY ==> sent == 3 && counted == 0 && c.confirmedHeight.None?)
    && (s == AWAITING_FUNDING_DEPTH ==> sent == 3 && c.confirmedHeight.Some?)
    && (s == AWAITING_CHANNEL_READY ==> sent == 4 && counted == 0)
    && (s == NORMAL ==> sent == 4 && counted > 0)
    && (s == ABANDONED ==> sent <= 2)
    && (s == FAILING ==> sent == 4 ==> counted == 0)
  }

  /** The copy on disk is the channel, but for a channel_ready that came while awaiting depth. */
  predicate Stored(v: View)
    requires v.record.state.Some?
  {
    && v.disk.Some?
    && (v.record.state.value != AWAITING_FUNDING_DEPTH ==> v.disk == Some(v.record))
    && (v.record.state.value == AWAITING_FUNDING_DEPTH ==> v.disk == Some(v.record.(theirNumber := Some(0))))
  }

  ghost predicate Inv(v: View) {
    v.record.state.Some? && Story(v.record, v.log) && Stage(v.record, |v.log|) && Stored(v)
  }

  // ---------------------------------------------------------------------------
  // One step, without the tree

  function Moved(v: View, id: Id): View {
    if v.record.state == Some(id) then v
    else v.(record := v.record.(state := Some(id)), disk := Some(v.record.(state := Some(id))))
  }

  /** A step by the table of the tree. */
  function TableStep(logic: Logic, v: View, e: Event): (View, Outcome)
    requires v.record.state.Some? && Leaf(v.record.state.value)
  {
    var hs := Expected(v.record.state.value, TypeOf(e));
    if hs == [] then (v, Stay) else
    var (v', outcome) := Handled(logic, v, hs[0], e);
    match outcome
    case Stay => (v', Stay)
    case Throw => (v', Throw)
    case Goto(id) => (Moved(v', id), Stay)
  }

  lemma {:induction false} ExpectedSuits(id: Id, t: EventType)
    ensures |Expected(id, t)| <= 1
    ensures forall h :: h in Expected(id, t) ==> Suits(h, t)
  {
  }

  lemma {:induction false} GoesToLeaf(logic: Logic, v: View, e: Event)
    requires v.record.state.Some? && Expected(v.record.state.value, TypeOf(e)) != []
    ensures Suits(Expected(v.record.state.value, TypeOf(e))[0], TypeOf(e))
    ensures var (v', outcome) := Handled(logic, v, Expected(v.record.state.value, TypeOf(e))[0], e);
            && (outcome.Goto? ==> Leaf(outcome.id))
            && v'.record.state == v.record.state
  {
  }

  lemma {:induction false} OneHandled(logic: Logic, v: View, hs: seq<Handler>, e: Event)
    requires forall h :: h in hs ==> Suits(h, TypeOf(e))
    requires |hs| <= 1
    ensures AllHandled(logic, v, hs, e) == if hs == [] then (v, Stay) else Handled(logic, v, hs[0], e)
  {
    hide Handled;
    if hs != [] {
      assert hs[1..] == [];
      assert forall w :: AllHandled(logic, w, [], e) == (w, Stay);
    }
  }

  lemma {:induction false} TransitionMoves(v: View, outcome: Outcome)
    requires v.record.state.Some? && (outcome.Goto? ==> Leaf(outcome.id))
    ensures Transitioned(Construct(), v, outcome) ==
            if outcome.Goto? then (Moved(v, outcome.id), Stay) else (v, outcome)
  {
    hide Construct, At, Handlers, Expected, Leaf;
    if outcome.Goto? {
      ConstructHandles(outcome.id, BlockConnected);
    }
  }

  /** Search, cascade and transition loop over the factory's tree do what the table says. */
  lemma {:induction false} StepIsTableStep(logic: Logic, v: View, e: Event)
    requires v.record.state.Some? && Leaf(v.record.state.value)
    ensures AllSuit(Construct(), v.record.state.value, TypeOf(e))
    ensures Step(Construct(), logic, v, e) == TableStep(logic, v, e)
  {
    hide Construct, Handled, At, Handlers, Expected, AllHandled, Suits, Transitioned, Moved, Leaf;
    var id, t := v.record.state.value, TypeOf(e);
    ConstructHandles(id, t);
    ExpectedSuits(id, t);
    OneHandled(logic, v, Expected(id, t), e);
    if Expected(id, t) != [] {
      GoesToLeaf(logic, v, e);
      var (v', outcome) := Handled(logic, v, Expected(id, t)[0], e);
      TransitionMoves(v', outcome);
    } else {
      TransitionMoves(v, Stay);
    }
  }

  // ---------------------------------------------------------------------------
  // Every run

  lemma {:induction false} OpenedIsInv(peerId: nat, temporaryId: nat)
    ensures Opened(Construct(), peerId, temporaryId).1 == Stay
    ensures Inv(Opened(Construct(), peerId, temporaryId).0)
    ensures Opened(Construct(), peerId, temporaryId).0.record ==
            Record(peerId, temporaryId, Some(AWAITING_ACCEPT_CHANNEL), None, None, None, None, None, None, None)
    ensures Opened(Construct(), peerId, temporaryId).0.log == [OpenChannelSent]
  {
    hide Construct, At, Handlers, Expected, Handles;
    ConstructHandles(AWAITING_ACCEPT_CHANNEL, PeerDisconnected);
  }

  /** A transition that keeps the invariant once its new state is entered. */
  ghost predicate Keeps(after: (View, Outcome)) {
    match after.1
    case Throw => false
    case Stay => Inv(after.0)
    case Goto(id) => after.0.record.state.Some? && Inv(Moved(after.0, id))
  }

  lemma {:induction false} AcceptedKeeps(logic: Logic, v: View, m: AcceptChannel)
    requires Inv(v) && v.record.state == Some(AWAITING_ACCEPT_CHANNEL)
    ensures Keeps(Accepted(logic, v, m))
  {
  }

  lemma {:induction false} SignedKeeps(logic: Logic, v: View, m: FundingSigned)
    requires Inv(v) && v.record.state == Some(AWAITING_FUNDING_SIGNED)
    ensures Keeps(Signed(logic, v, m))
  {
  }

  lemma {:induction false} ReadiedKeeps(logic: Logic, v: View, m: ChannelReady)
    requires Inv(v)
    ensures v.record.state == Some(AWAITING_FUNDING_DEPTH) ==> Keeps(Readied(logic, v, m, AWAITING_FUNDING_DEPTH))
    ensures v.record.state == Some(AWAITING_CHANNEL_READY) ==> Keeps(Readied(logic, v, m, NORMAL))
  {
  }

  lemma {:induction false} BlockKeeps(v: View, b: Block)
    requires Inv(v)
    ensures v.record.state == Some(NO_CHANNEL_READY) ==> Keeps(Confirmed(v, b))
    ensures v.record.state == Some(AWAITING_FUNDING_DEPTH) ==> Keeps(DepthReached(v, b))
  {
  }

  lemma {:induction false} AbandonKeeps(v: View)
    requires Inv(v) && Initial(v.record.state.value)
    ensures Keeps(Abandon(v))
  {
  }

  lemma {:induction false} TableStepKeeps(logic: Logic, v: View, e: Event)
    requires Inv(v)
    ensures Inv(TableStep(logic, v, e).0) && TableStep(logic, v, e).1 == Stay
  {
    if Expected(v.record.state.value, TypeOf(e)) != [] {
      assert Keeps(Handled(logic, v, Expected(v.record.state.value, TypeOf(e))[0], e)) by {
        hide Accepted, Signed, Readied, Confirmed, DepthReached, Abandon, Keeps, Story, Stage, Stored;
        match e
        case AcceptEvent(m) => AcceptedKeeps(logic, v, m);
        case SignedEvent(m) => SignedKeeps(logic, v, m);
        case BlockEvent(b) => BlockKeeps(v, b);
        case ReadyEvent(m) => ReadiedKeeps(logic, v, m);
        case DisconnectEvent => AbandonKeeps(v);
      }
      hide Handled, Inv, Moved, Expected;
    }
  }

  /** Every event keeps the invariant, and none throws. */
  lemma {:induction false} StepKeeps(logic: Logic, v: View, e: Event)
    requires Inv(v)
    ensures AllSuit(Construct(), v.record.state.value, TypeOf(e))
    ensures Step(Construct(), logic, v, e).1 == Stay && Inv(Step(Construct(), logic, v, e).0)
    ensures Step(Construct(), logic, v, e) == TableStep(logic, v, e)
  {
    StepIsTableStep(logic, v, e);
    TableStepKeeps(logic, v, e);
    hide Construct, Step, TableStep, Inv, AllSuit;
  }

  /** The channel after a sequence of events. */
  ghost function Run(logic: Logic, peerId: nat, temporaryId: nat, es: seq<Event>): (v: View)
    ensures Inv(v)
  {
    if es == [] then
      OpenedIsInv(peerId, temporaryId);
      Opened(Construct(), peerId, temporaryId).0
    else
      var v := Run(logic, peerId, temporaryId, es[..|es| - 1]);
      StepKeeps(logic, v, es[|es| - 1]);
      Step(Construct(), logic, v, es[|es| - 1]).0
  }

  // ---------------------------------------------------------------------------
  // At most once

  predicate SentOnce(e: Effect, f: Effect) {
    (e.Broadcast? && f.Broadcast?) || (e.ReadySent? && f.ReadySent?) || e == f == FundingCreatedSent
  }

  /** In every run: one broadcast, one channel_ready and one funding_created at most. */
  lemma {:induction false} SentAtMostOnce(logic: Logic, peerId: nat, temporaryId: nat, es: seq<Event>)
    ensures var log := Run(logic, peerId, temporaryId, es).log;
            forall i, j :: 0 <= i < |log| && 0 <= j < |log| && SentOnce(log[i], log[j]) ==> i == j
  {
    hide Run, Stage, Stored;
    assert Inv(Run(logic, peerId, temporaryId, es));
  }

  // ---------------------------------------------------------------------------
  // Only after

  lemma {:induction false} RunStep(logic: Logic, peerId: nat, temporaryId: nat, es: seq<Event>)
    requires es != []
    ensures var v := Run(logic, peerId, temporaryId, es[..|es| - 1]);
            Inv(v) && Run(logic, peerId, temporaryId, es) == TableStep(logic, v, es[|es| - 1]).0
  {
    StepKeeps(logic, Run(logic, peerId, temporaryId, es[..|es| - 1]), es[|es| - 1]);
    hide Step, TableStep, Inv, Construct;
  }

  lemma {:induction false} RunNothing(logic: Logic, peerId: nat, temporaryId: nat)
    ensures var v := Run(logic, peerId, temporaryId, []);
            && v.log == [OpenChannelSent] && v.record.confirmedHeight.None? && Number(v.record) == 0
            && v.record.state == Some(AWAITING_ACCEPT_CHANNEL)
  {
    hide Opened, Construct, Inv;
    OpenedIsInv(peerId, temporaryId);
  }

  /** The funding transaction is broadcast by exactly one kind of step. */
  lemma {:induction false} BroadcastIff(logic: Logic, v: View, e: Event)
    requires Inv(v)
    ensures |TableStep(logic, v, e).0.log| == 3 && |v.log| == 2 <==>
            && v.record.state == Some(AWAITING_FUNDING_SIGNED)
            && e.SignedEvent? && logic.signedIsValid(v.record, e.signed)
    ensures |TableStep(logic, v, e).0.log| == 3 && |v.log| == 2 ==>
            TableStep(logic, v, e).0.log[2] == Broadcast(v.record.fundingTx.value)
  {
  }

  lemma {:induction false} ReadySentIff(logic: Logic, v: View, e: Event)
    requires Inv(v)
    ensures |TableStep(logic, v, e).0.log| == 4 && |v.log| == 3 <==>
            && v.record.state == Some(AWAITING_FUNDING_DEPTH)
            && e.BlockEvent? && e.block.height >= ReadyHeight(v.record).value
    ensures |TableStep(logic, v, e).0.log| == 4 && |v.log| == 3 ==>
            TableStep(logic, v, e).0.log[3] == ReadySent(e.block.height)
  {
  }

  lemma {:induction false} LogGrows(logic: Logic, v: View, e: Event)
    requires Inv(v)
    ensures v.log <= TableStep(logic, v, e).0.log && |TableStep(logic, v, e).0.log| <= |v.log| + 1
  {
  }

  lemma {:induction false} NewBroadcast(logic: Logic, v: View, e: Event, tx: Tx)
    requires Inv(v) && Broadcast(tx) in TableStep(logic, v, e).0.log && Broadcast(tx) !in v.log
    ensures v.record.state == Some(AWAITING_FUNDING_SIGNED) && v.record.fundingTx == Some(tx)
    ensures e.SignedEvent? && logic.signedIsValid(v.record, e.signed)
  {
    LogGrows(logic, v, e);
    BroadcastIff(logic, v, e);
    TableStepKeeps(logic, v, e);
    hide TableStep, Stage, Stored;
  }

  lemma {:induction false} NewReadySent(logic: Logic, v: View, e: Event, h: nat)
    requires Inv(v) && ReadySent(h) in TableStep(logic, v, e).0.log && ReadySent(h) !in v.log
    ensures v.record.state == Some(AWAITING_FUNDING_DEPTH) && e.BlockEvent? && e.block.height == h
    ensures v.record.confirmedHeight.Some? && v.record.minimumDepth.Some?
    ensures h >= v.record.confirmedHeight.value + v.record.minimumDepth.value - 1
  {
    LogGrows(logic, v, e);
    ReadySentIff(logic, v, e);
    TableStepKeeps(logic, v, e);
    hide TableStep, Stored;
  }

  /** At event k a valid funding_signed came, in the state that awaits it, and tx was not broadcast yet. */
  ghost predicate SignedAt(logic: Logic, peerId: nat, temporaryId: nat, es: seq<Event>, k: nat, tx: Tx)
    requires k < |es|
  {
    var before := Run(logic, peerId, temporaryId, es[..k]);
    && es[k].SignedEvent? && logic.signedIsValid(before.record, es[k].signed)
    && before.record.state == Some(AWAITING_FUNDING_SIGNED) && before.record.fundingTx == Some(tx)
    && Broadcast(tx) !in before.log
  }

  /** In every run a broadcast has a valid funding_signed before it. */
  lemma {:induction false} BroadcastAfterSigned(
      logic: Logic, peerId: nat, temporaryId: nat, es: seq<Event>, tx: Tx)
    ensures Broadcast(tx) in Run(logic, peerId, temporaryId, es).log ==>
            exists k :: 0 <= k < |es| && SignedAt(logic, peerId, temporaryId, es, k, tx)
  {
    hide Run, TableStep, Inv;
    if es == [] {
      RunNothing(logic, peerId, temporaryId);
    } else if Broadcast(tx) in Run(logic, peerId, temporaryId, es).log {
      RunStep(logic, peerId, temporaryId, es);
      var pre, e := es[..|es| - 1], es[|es| - 1];
      var v := Run(logic, peerId, temporaryId, pre);
      BroadcastAfterSigned(logic, peerId, temporaryId, pre, tx);
      if Broadcast(tx) in v.log {
        var k :| 0 <= k < |pre| && SignedAt(logic, peerId, temporaryId, pre, k, tx);
        assert pre[..k] == es[..k];
        assert SignedAt(logic, peerId, temporaryId, es, k, tx);
      } else {
        NewBroadcast(logic, v, e, tx);
        assert SignedAt(logic, peerId, temporaryId, es, |es| - 1, tx);
      }
    }
  }

  /** At event k a block of height h came that is deep enough above the one that confirmed. */
  ghost predicate DeepAt(logic: Logic, peerId: nat, temporaryId: nat, es: seq<Event>, k: nat, h: nat)
    requires k < |es|
  {
    var before := Run(logic, peerId, temporaryId, es[..k]).record;
    && es[k].BlockEvent? && es[k].block.height == h
    && before.state == Some(AWAITING_FUNDING_DEPTH)
    && before.confirmedHeight.Some? && before.minimumDepth.Some?
    && h >= before.confirmedHeight.value + before.minimumDepth.value - 1
  }

  lemma {:induction false} ReadySentWhenDeep(
      logic: Logic, peerId: nat, temporaryId: nat, es: seq<Event>, h: nat)
    ensures ReadySent(h) in Run(logic, peerId, temporaryId, es).log ==>
            exists k :: 0 <= k < |es| && DeepAt(logic, peerId, temporaryId, es, k, h)
  {
    hide Run, TableStep, Inv;
    if es == [] {
      RunNothing(logic, peerId, temporaryId);
    } else if ReadySent(h) in Run(logic, peerId, temporaryId, es).log {
      RunStep(logic, peerId, temporaryId, es);
      var pre, e := es[..|es| - 1], es[|es| - 1];
      var v := Run(logic, peerId, temporaryId, pre);
      ReadySentWhenDeep(logic, peerId, temporaryId, pre, h);
      if ReadySent(h) in v.log {
        var k :| 0 <= k < |pre| && DeepAt(logic, peerId, temporaryId, pre, k, h);
        assert pre[..k] == es[..k];
        assert DeepAt(logic, peerId, temporaryId, es, k, h);
      } else {
        NewReadySent(logic, v, e, h);
        assert DeepAt(logic, peerId, temporaryId, es, |es| - 1, h);
      }
    }
  }

  lemma {:induction false} ConfirmedIff(logic: Logic, v: View, e: Event)
    requires Inv(v)
    ensures var c, c' := v.record, TableStep(logic, v, e).0.record;
            && (c'.confirmedHeight != c.confirmedHeight ==>
                  && c.confirmedHeight.None? && c.state == Some(NO_CHANNEL_READY) && e.BlockEvent?
                  && c'.confirmedHeight == Some(e.block.height) && c.fundingOutPoint.Some?
                  && Contains(e.block, c.fundingOutPoint.value))
  {
  }

  /** At event k a block with the funding output came, in the state that awaits it. */
  ghost predicate ConfirmedAt(logic: Logic, peerId: nat, temporaryId: nat, es: seq<Event>, k: nat, h: nat)
    requires k < |es|
  {
    var before := Run(logic, peerId, temporaryId, es[..k]).record;
    && es[k].BlockEvent? && es[k].block.height == h && before.state == Some(NO_CHANNEL_READY)
    && before.fundingOutPoint.Some? && Contains(es[k].block, before.fundingOutPoint.value)
  }

  /** In every run the confirmed height is that of a block with the funding output. */
  lemma {:induction false} ConfirmedByBlock(logic: Logic, peerId: nat, temporaryId: nat, es: seq<Event>, h: nat)
    ensures Run(logic, peerId, temporaryId, es).record.confirmedHeight == Some(h) ==>
            exists k :: 0 <= k < |es| && ConfirmedAt(logic, peerId, temporaryId, es, k, h)
  {
    hide Run, TableStep, Inv;
    if es == [] {
      RunNothing(logic, peerId, temporaryId);
    } else if Run(logic, peerId, temporaryId, es).record.confirmedHeight == Some(h) {
      RunStep(logic, peerId, temporaryId, es);
      var pre, e := es[..|es| - 1], es[|es| - 1];
      var v := Run(logic, peerId, temporaryId, pre);
      ConfirmedIff(logic, v, e);
      if v.record.confirmedHeight == Some(h) {
        ConfirmedByBlock(logic, peerId, temporaryId, pre, h);
        var k :| 0 <= k < |pre| && ConfirmedAt(logic, peerId, temporaryId, pre, k, h);
        assert pre[..k] == es[..k];
        assert ConfirmedAt(logic, peerId, temporaryId, es, k, h);
      } else {
        assert ConfirmedAt(logic, peerId, temporaryId, es, |es| - 1, h);
      }
    }
  }

  /**
   In every run channel_ready is sent on a block deep enough above the one that confirmed the funding
   output, and that one came strictly before.
  */
  lemma {:induction false} ReadySentAfterDepth(
      logic: Logic, peerId: nat, temporaryId: nat, es: seq<Event>, h: nat) returns (j: nat, k: nat, c: nat)
    requires ReadySent(h) in Run(logic, peerId, temporaryId, es).log
    ensures j < k < |es| && ConfirmedAt(logic, peerId, temporaryId, es, j, c) && DeepAt(logic, peerId, temporaryId, es, k, h)
    ensures var depth := Run(logic, peerId, temporaryId, es[..k]).record.minimumDepth; depth.Some? && h >= c + depth.value - 1
  {
    hide Run, Inv, Contains;
    ReadySentWhenDeep(logic, peerId, temporaryId, es, h);
    k :| 0 <= k < |es| && DeepAt(logic, peerId, temporaryId, es, k, h);
    c := Run(logic, peerId, temporaryId, es[..k]).record.confirmedHeight.value;
    ConfirmedByBlock(logic, peerId, temporaryId, es[..k], c);
    j :| 0 <= j < k && ConfirmedAt(logic, peerId, temporaryId, es[..k], j, c);
    assert es[..k][..j] == es[..j];
  }

  // ---------------------------------------------------------------------------
  // What normal means

  predicate AwaitsReady(c: Record) {
    c.state == Some(AWAITING_FUNDING_DEPTH) || c.state == Some(AWAITING_CHANNEL_READY)
  }

  /** How many valid channel_ready messages came while one was awaited. */
  ghost function Counted(logic: Logic, peerId: nat, temporaryId: nat, es: seq<Event>): nat {
    if es == [] then 0 else
    var pre, e := es[..|es| - 1], es[|es| - 1];
    Counted(logic, peerId, temporaryId, pre) +
      if e.ReadyEvent? && logic.readyIsValid(e.ready) && AwaitsReady(Run(logic, peerId, temporaryId, pre).record)
      then 1 else 0
  }

  function Number(c: Record): nat {
    if c.theirNumber.Some? then c.theirNumber.value else 0
  }

  lemma {:induction false} NumberStep(logic: Logic, v: View, e: Event)
    requires Inv(v)
    ensures Number(TableStep(logic, v, e).0.record) ==
            Number(v.record) + if e.ReadyEvent? && logic.readyIsValid(e.ready) && AwaitsReady(v.record) then 1 else 0
  {
  }

  lemma {:induction false} NumberIsCounted(logic: Logic, peerId: nat, temporaryId: nat, es: seq<Event>)
    ensures Number(Run(logic, peerId, temporaryId, es).record) == Counted(logic, peerId, temporaryId, es)
  {
    hide Run, TableStep, Inv, Number;
    if es == [] {
      RunNothing(logic, peerId, temporaryId);
    } else {
      NumberIsCounted(logic, peerId, temporaryId, es[..|es| - 1]);
      RunStep(logic, peerId, temporaryId, es);
      NumberStep(logic, Run(logic, peerId, temporaryId, es[..|es| - 1]), es[|es| - 1]);
    }
  }

  /** Normal is: channel_ready was sent, and one came while it was awaited. */
  lemma {:induction false} NormalIff(logic: Logic, peerId: nat, temporaryId: nat, es: seq<Event>)
    ensures Run(logic, peerId, temporaryId, es).record.state == Some(NORMAL) <==>
            && (exists h: nat :: ReadySent(h) in Run(logic, peerId, temporaryId, es).log)
            && Counted(logic, peerId, temporaryId, es) > 0
  {
    NumberIsCounted(logic, peerId, temporaryId, es);
    hide Run, Counted;
    var v := Run(logic, peerId, temporaryId, es);
    assert Inv(v);
    if v.record.state == Some(NORMAL) {
      assert v.log[3] == ReadySent(v.log[3].height) && v.log[3] in v.log;
    }
    if h: nat :| ReadySent(h) in v.log {
      assert |v.log| == 4;
    }
  }

  // ---------------------------------------------------------------------------
  // Phases

  function Rank(id: Id): nat {
    if id == AWAITING_ACCEPT_CHANNEL then 0
    else if id == AWAITING_FUNDING_SIGNED then 1
    else if id == NO_CHANNEL_READY then 2
    else if id == AWAITING_FUNDING_DEPTH then 3
    else if id == AWAITING_CHANNEL_READY then 4
    else 5
  }

  /** A step goes one phase on, stays, or ends; after the end nothing changes at all. */
  lemma {:induction false} StepRank(logic: Logic, v: View, e: Event)
    requires Inv(v)
    ensures var before, after := Rank(v.record.state.value), Rank(TableStep(logic, v, e).0.record.state.value);
            after == before || after == before + 1 || after == 5
    ensures Rank(v.record.state.value) == 5 ==> TableStep(logic, v, e).0 == v
  {
  }

  lemma {:induction false} NeverBack(logic: Logic, peerId: nat, temporaryId: nat, es: seq<Event>, k: nat)
    requires k <= |es|
    ensures var early, late := Run(logic, peerId, temporaryId, es[..k]), Run(logic, peerId, temporaryId, es);
            && Rank(early.record.state.value) <= Rank(late.record.state.value)
            && (Rank(early.record.state.value) == 5 ==> late == early)
    decreases |es|
  {
    if k == |es| {
      assert es[..k] == es;
    } else {
      var pre := es[..|es| - 1];
      assert pre[..k] == es[..k];
      NeverBack(logic, peerId, temporaryId, pre, k);
      RunStep(logic, peerId, temporaryId, es);
      hide Run;
      StepRank(logic, Run(logic, peerId, temporaryId, pre), es[|es| - 1]);
      RankTop(Run(logic, peerId, temporaryId, es).record.state.value);
      hide TableStep, Rank, Story, Stage, Stored;
    }
  }

  lemma {:induction false} RankTop(id: Id)
    ensures Rank(id) <= 5
  {
  }

  /** A peer that disconnects ends the opening exactly while it is initializing. */
  lemma {:induction false} DisconnectAbandonsIff(logic: Logic, v: View)
    requires Inv(v)
    ensures var v' := TableStep(logic, v, DisconnectEvent).0;
            && (Initial(v.record.state.value) ==> v'.record == v.record.(state := Some(ABANDONED)) && v'.log == v.log)
            && (!Initial(v.record.state.value) ==> v' == v)
  {
  }

  /** At event k the peer disconnected while the channel was initializing. */
  ghost predicate LeftAt(logic: Logic, peerId: nat, temporaryId: nat, es: seq<Event>, k: nat)
    requires k < |es|
  {
    es[k].DisconnectEvent? && IsInitializing(Run(logic, peerId, temporaryId, es[..k]).record)
  }

  predicate IsInitializing(c: Record) {
    c.state.Some? && Initial(c.state.value)
  }

  lemma {:induction false} AbandonStep(logic: Logic, v: View, e: Event)
    requires Inv(v)
    ensures v.record.state.Some? && TableStep(logic, v, e).0.record.state.Some?
    ensures TableStep(logic, v, e).0.record.state == Some(ABANDONED) <==>
            v.record.state == Some(ABANDONED) || (e.DisconnectEvent? && Initial(v.record.state.value))
  {
    DisconnectAbandonsIff(logic, v);
    TableStepKeeps(logic, v, e);
    StepRank(logic, v, e);
    hide Story, Stage, Stored;
  }

  ghost predicate Left(logic: Logic, peerId: nat, temporaryId: nat, es: seq<Event>) {
    exists k :: 0 <= k < |es| && LeftAt(logic, peerId, temporaryId, es, k)
  }

  lemma {:induction false} LeftMore(logic: Logic, peerId: nat, temporaryId: nat, es: seq<Event>)
    requires es != []
    ensures var pre := es[..|es| - 1];
            Left(logic, peerId, temporaryId, es) <==>
            || Left(logic, peerId, temporaryId, pre)
            || (es[|pre|].DisconnectEvent? && IsInitializing(Run(logic, peerId, temporaryId, pre).record))
  {
    hide Run, IsInitializing, Inv;
    var pre := es[..|es| - 1];
    assert forall k :: 0 <= k < |pre| ==> pre[..k] == es[..k];
    assert forall k :: 0 <= k < |pre| ==> (LeftAt(logic, peerId, temporaryId, es, k) <==> LeftAt(logic, peerId, temporaryId, pre, k));
    assert es[..|pre|] == pre;
    if Left(logic, peerId, temporaryId, pre) {
      var k :| 0 <= k < |pre| && LeftAt(logic, peerId, temporaryId, pre, k);
      assert LeftAt(logic, peerId, temporaryId, es, k);
    }
    if es[|pre|].DisconnectEvent? && IsInitializing(Run(logic, peerId, temporaryId, pre).record) {
      assert LeftAt(logic, peerId, temporaryId, es, |pre|);
    }
  }

  /** In every run a channel is abandoned exactly when its peer disconnected while it was initializing. */
  lemma {:induction false} AbandonedIff(logic: Logic, peerId: nat, temporaryId: nat, es: seq<Event>)
    ensures Run(logic, peerId, temporaryId, es).record.state == Some(ABANDONED) <==> Left(logic, peerId, temporaryId, es)
    decreases |es|
  {
    hide Run, TableStep, Initial, Inv, LeftAt;
    if es == [] {
      RunNothing(logic, peerId, temporaryId);
    } else {
      hide Left;
      RunStep(logic, peerId, temporaryId, es);
      var pre := es[..|es| - 1];
      AbandonedIff(logic, peerId, temporaryId, pre);
      LeftMore(logic, peerId, temporaryId, es);
      AbandonStep(logic, Run(logic, peerId, temporaryId, pre), es[|pre|]);
    }
  }

  // ---------------------------------------------------------------------------
  // Where the code falls short

  lemma {:induction false} RunMore(logic: Logic, peerId: nat, temporaryId: nat, es: seq<Event>, e: Event)
    ensures Run(logic, peerId, temporaryId, es + [e]) ==
            (assert Inv(Run(logic, peerId, temporaryId, es)); TableStep(logic, Run(logic, peerId, temporaryId, es), e).0)
  {
    assert (es + [e])[..|es|] == es;
    RunStep(logic, peerId, temporaryId, es + [e]);
    hide TableStep, Run;
  }

  /** Takes every message; the funding transaction is number 9, with one output. */
  function Lenient(): Logic {
    Logic((_, _) => true, _ => Tx(9, 1), (_, _) => true, _ => true)
  }

  /** accept_channel for a depth, and funding_signed. */
  function Begun(temporaryId: nat, depth: nat): seq<Event> {
    [AcceptEvent(AcceptChannel(temporaryId, depth, 0)), SignedEvent(FundingSigned(9, 0))]
  }

  /** A block with the funding transaction. */
  function Confirming(height: nat): Event {
    BlockEvent(Block(height, [Tx(9, 1)]))
  }

  lemma {:induction false} BegunRun(logic: Logic, peerId: nat, temporaryId: nat, depth: nat)
    requires logic == Lenient()
    ensures var v := Run(logic, peerId, temporaryId, Begun(temporaryId, depth));
            && v.record.state == Some(NO_CHANNEL_READY) && |v.log| == 3 && v.record.minimumDepth == Some(depth)
            && v.record.theirNumber == Some(0) && v.record.fundingOutPoint == Some(OutPoint(9, 0))
  {
    var accept, signed := AcceptChannel(temporaryId, depth, 0), FundingSigned(9, 0);
    assert Begun(temporaryId, depth) == [] + [AcceptEvent(accept)] + [SignedEvent(signed)];
    hide Run, TableStep, Inv, Begun;
    RunNothing(logic, peerId, temporaryId);
    RunMore(logic, peerId, temporaryId, [], AcceptEvent(accept));
    RunMore(logic, peerId, temporaryId, [] + [AcceptEvent(accept)], SignedEvent(signed));
    AcceptStep(logic, Run(logic, peerId, temporaryId, []), accept);
    SignStep(logic, Run(logic, peerId, temporaryId, [] + [AcceptEvent(accept)]), signed);
  }

  lemma {:induction false} AcceptStep(logic: Logic, v: View, m: AcceptChannel)
    requires Inv(v) && v.record.state == Some(AWAITING_ACCEPT_CHANNEL) && logic == Lenient()
    ensures var v' := TableStep(logic, v, AcceptEvent(m)).0;
            && v'.record.state == Some(AWAITING_FUNDING_SIGNED) && v'.record.minimumDepth == Some(m.minimumDepth)
            && v'.record.theirNumber == Some(0) && v'.record.fundingTx == Some(Tx(9, 1))
            && v'.record.fundingOutPoint == Some(OutPoint(9, 0)) && |v'.log| == |v.log| + 1
  {
  }

  lemma {:induction false} SignStep(logic: Logic, v: View, m: FundingSigned)
    requires Inv(v) && v.record.state == Some(AWAITING_FUNDING_SIGNED) && logic == Lenient()
    ensures var v' := TableStep(logic, v, SignedEvent(m)).0;
            && v'.record == v.record.(state := Some(NO_CHANNEL_READY), ourSignature := Some(m.signature))
            && |v'.log| == |v.log| + 1
  {
  }

  /** The block that confirms the funding transaction never counts as deep enough itself. */
  lemma {:induction false} ConfirmStep(logic: Logic, v: View, b: Block)
    requires Inv(v) && v.record.state == Some(NO_CHANNEL_READY) && Contains(b, v.record.fundingOutPoint.value)
    ensures var v' := TableStep(logic, v, BlockEvent(b)).0;
            && v'.record == v.record.(state := Some(AWAITING_FUNDING_DEPTH), confirmedHeight := Some(b.height))
            && v'.log == v.log && v'.disk == Some(v'.record)
  {
    hide Contains;
  }

  /** A channel_ready before the funding transaction confirms is dropped: nothing changes. */
  lemma {:induction false} EarlyReadyIgnored(logic: Logic, v: View, m: ChannelReady)
    requires Inv(v) && !AwaitsReady(v.record)
    ensures TableStep(logic, v, ReadyEvent(m)) == (v, Stay)
  {
  }

  lemma {:induction false} ReadyStep(logic: Logic, v: View, m: ChannelReady)
    requires Inv(v) && v.record.state == Some(AWAITING_FUNDING_DEPTH) && logic.readyIsValid(m)
    ensures TableStep(logic, v, ReadyEvent(m)).0
            == v.(record := v.record.(theirNumber := Some(v.record.theirNumber.value + 1)))
  {
  }

  lemma {:induction false} DeepStep(logic: Logic, v: View, b: Block)
    requires Inv(v) && v.record.state == Some(AWAITING_FUNDING_DEPTH) && b.height >= ReadyHeight(v.record).value
    requires Number(v.record) == 0
    ensures TableStep(logic, v, BlockEvent(b)).0.record.state == Some(AWAITING_CHANNEL_READY)
  {
  }

  lemma {:induction false} ConfirmingMoves(logic: Logic, peerId: nat, temporaryId: nat, es: seq<Event>, height: nat)
    requires var c := Run(logic, peerId, temporaryId, es).record;
             c.state == Some(NO_CHANNEL_READY) && c.fundingOutPoint == Some(OutPoint(9, 0))
    ensures var v, v' := Run(logic, peerId, temporaryId, es), Run(logic, peerId, temporaryId, es + [Confirming(height)]);
            v'.record == v.record.(state := Some(AWAITING_FUNDING_DEPTH), confirmedHeight := Some(height))
            && v'.log == v.log && v'.disk == Some(v'.record)
  {
    assert Contains(Confirming(height).block, OutPoint(9, 0)) by {
      assert Confirming(height).block.txs[0] == Tx(9, 1);
    }
    RunMore(logic, peerId, temporaryId, es, Confirming(height));
    ConfirmStep(logic, Run(logic, peerId, temporaryId, es), Confirming(height).block);
    hide Run, Contains, Inv, TableStep;
  }

  /** The run that is not on disk: a counted channel_ready while awaiting depth. */
  lemma {:induction false} ReadyNotSaved(
    logic: Logic, peerId: nat, temporaryId: nat, depth: nat, height: nat, m: ChannelReady)
    requires logic == Lenient()
    ensures var v := Run(logic, peerId, temporaryId, Begun(temporaryId, depth) + [Confirming(height)] + [ReadyEvent(m)]);
            && v.record.state == Some(AWAITING_FUNDING_DEPTH) && v.record.theirNumber == Some(1)
            && v.disk == Some(v.record.(theirNumber := Some(0)))
  {
    assert logic.readyIsValid(m);
    var es := Begun(temporaryId, depth);
    hide Run, TableStep, Begun, Confirming, Lenient, Inv;
    BegunRun(logic, peerId, temporaryId, depth);
    ConfirmingMoves(logic, peerId, temporaryId, es, height);
    RunMore(logic, peerId, temporaryId, es + [Confirming(height)], ReadyEvent(m));
    ReadyStep(logic, Run(logic, peerId, temporaryId, es + [Confirming(height)]), m);
  }

  /** The run that never becomes normal: the peer's only channel_ready, m, comes before the funding transaction confirms. */
  function EarlyReady(temporaryId: nat, depth: nat, m: ChannelReady, height: nat, deep: Block): seq<Event> {
    Begun(temporaryId, depth) + [ReadyEvent(m)] + [Confirming(height)] + [BlockEvent(deep)]
  }

  lemma {:induction false} EarlyReadyRun(
    logic: Logic, peerId: nat, temporaryId: nat, depth: nat, m: ChannelReady, height: nat, deep: Block)
    requires logic == Lenient() && deep.height >= height + depth
    ensures Run(logic, peerId, temporaryId, EarlyReady(temporaryId, depth, m, height, deep)).record.state
            == Some(AWAITING_CHANNEL_READY)
  {
    var begun := Begun(temporaryId, depth);
    hide Run, TableStep, Lenient, Begun, Confirming, Inv;
    BegunRun(logic, peerId, temporaryId, depth);
    RunMore(logic, peerId, temporaryId, begun, ReadyEvent(m));
    EarlyReadyIgnored(logic, Run(logic, peerId, temporaryId, begun), m);
    ConfirmingMoves(logic, peerId, temporaryId, begun + [ReadyEvent(m)], height);
    RunMore(logic, peerId, temporaryId, begun + [ReadyEvent(m)] + [Confirming(height)], BlockEvent(deep));
    DeepStep(logic, Run(logic, peerId, temporaryId, begun + [ReadyEvent(m)] + [Confirming(height)]), deep);
  }

  /** Nothing but another channel_ready would help. */
  lemma {:induction false} EarlyReadyLost(
    logic: Logic, peerId: nat, temporaryId: nat, depth: nat, m: ChannelReady, height: nat, deep: Block, more: seq<Event>)
    requires logic == Lenient() && deep.height >= height + depth && forall e :: e in more ==> !e.ReadyEvent?
    ensures var es := EarlyReady(temporaryId, depth, m, height, deep);
            && Run(logic, peerId, temporaryId, es).record.state == Some(AWAITING_CHANNEL_READY)
            && Run(logic, peerId, temporaryId, es + more).record.state != Some(NORMAL)
  {
    hide Run, Counted, Lenient, EarlyReady, Inv;
    var es := EarlyReady(temporaryId, depth, m, height, deep);
    EarlyReadyRun(logic, peerId, temporaryId, depth, m, height, deep);
    NoneCounted(logic, peerId, temporaryId, es);
    CountedNoMore(logic, peerId, temporaryId, es, more);
    NormalIff(logic, peerId, temporaryId, es + more);
  }

  lemma {:induction false} NoneCounted(logic: Logic, peerId: nat, temporaryId: nat, es: seq<Event>)
    requires Run(logic, peerId, temporaryId, es).record.state == Some(AWAITING_CHANNEL_READY)
    ensures Counted(logic, peerId, temporaryId, es) == 0
  {
    NumberIsCounted(logic, peerId, temporaryId, es);
    hide Run, Counted;
    assert Inv(Run(logic, peerId, temporaryId, es));
  }

  lemma {:induction false} CountedNoMore(logic: Logic, peerId: nat, temporaryId: nat, es: seq<Event>, more: seq<Event>)
    requires forall e :: e in more ==> !e.ReadyEvent?
    ensures Counted(logic, peerId, temporaryId, es + more) == Counted(logic, peerId, temporaryId, es)
    decreases |more|
  {
    if more == [] {
      assert es + more == es;
    } else {
      CountedNoMore(logic, peerId, temporaryId, es, more[..|more| - 1]);
      assert (es + more)[..|es + more| - 1] == es + more[..|more| - 1];
      assert (es + more)[|es + more| - 1] == more[|more| - 1];
      hide Run;
    }
  }

  /** With a depth of one the confirming block is deep enough, and yet channel_ready waits for another. */
  lemma {:induction false} ConfirmingBlockWaits(logic: Logic, peerId: nat, temporaryId: nat, height: nat)
    requires logic == Lenient()
    ensures var v := Run(logic, peerId, temporaryId, Begun(temporaryId, 1) + [Confirming(height)]);
            && ReadyHeight(v.record) == Some(height as int)
            && v.record.state == Some(AWAITING_FUNDING_DEPTH) && |v.log| == 3
  {
    hide Run, Begun, Confirming, Lenient, Inv;
    BegunRun(logic, peerId, temporaryId, 1);
    ConfirmingMoves(logic, peerId, temporaryId, Begun(temporaryId, 1), height);
  }

  /**
   In every run the copy on disk is the channel itself, also after it was abandoned and removed, but
   for a channel_ready that came while awaiting depth: that one is not saved.
  */
  lemma {:induction false} OnDiskIff(logic: Logic, peerId: nat, temporaryId: nat, es: seq<Event>)
    ensures var v := Run(logic, peerId, temporaryId, es);
            v.disk == Some(v.record) <==>
            !(v.record.state == Some(AWAITING_FUNDING_DEPTH) && Counted(logic, peerId, temporaryId, es) > 0)
  {
    NumberIsCounted(logic, peerId, temporaryId, es);
    hide Run, Counted;
    assert Inv(Run(logic, peerId, temporaryId, es));
  }
}
