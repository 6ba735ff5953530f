/**
 What a channel and the channel manager do with each event: the transitions of the state machine, the
 manager's transition loop, and how a message finds its channel.
*/
module ChannelEvents {
  import opened Common
  import opened StateTree

  datatype Tx = Tx(txId: nat, outputs: nat)

  datatype OutPoint = OutPoint(txId: nat, index: nat)

  datatype Block = Block(height: nat, txs: seq<Tx>)

  datatype AcceptChannel = AcceptChannel(temporaryId: nat, minimumDepth: nat, terms: nat)

  datatype FundingSigned = FundingSigned(channelId: nat, signature: nat)

  datatype ChannelReady = ChannelReady(channelId: nat, point: nat)

  datatype Event =
    | AcceptEvent(accept: AcceptChannel)
    | SignedEvent(signed: FundingSigned)
    | BlockEvent(block: Block)
    | ReadyEvent(ready: ChannelReady)
    | DisconnectEvent

  function TypeOf(e: Event): EventType {
    match e
    case AcceptEvent(_) => AcceptChannelMessage
    case SignedEvent(_) => FundingSignedMessage
    case BlockEvent(_) => BlockConnected
    case ReadyEvent(_) => ChannelReadyMessage
    case DisconnectEvent => PeerDisconnected
  }

  /** The fields of a channel that its opening touches; an absent one is undefined in the program. */
  datatype Record = Record(
    peerId: nat, temporaryId: nat, state: Option<Id>, minimumDepth: Option<nat>,
    fundingTx: Option<Tx>, fundingOutPoint: Option<OutPoint>, channelId: Option<nat>,
    confirmedHeight: Option<nat>, theirNumber: Option<nat>, ourSignature: Option<nat>)

  datatype Effect =
    | OpenChannelSent
    | FundingCreatedSent
    | Broadcast(tx: Tx)
    | ReadySent(height: nat)

  /** A channel, what it has made others see, and the copy of it on disk. */
  datatype View = View(record: Record, log: seq<Effect>, disk: Option<Record>)

  /** What the channel logic decides: validity of messages, and the funding transaction. */
  datatype Logic = Logic(
    acceptIsValid: (Record, AcceptChannel) -> bool,
    fundingTx: Record -> Tx,
    signedIsValid: (Record, FundingSigned) -> bool,
    readyIsValid: ChannelReady -> bool)

  /** Where a transition leads, if anywhere; or an exception. */
  datatype Outcome = Stay | Goto(id: Id) | Throw

  // ---------------------------------------------------------------------------
  // The transitions

  function WithAccept(c: Record, m: AcceptChannel): Record {
    c.(minimumDepth := Some(m.minimumDepth), theirNumber := Some(0))
  }

  function WithFundingTx(c: Record, tx: Tx): Record {
    c.(fundingTx := Some(tx), fundingOutPoint := Some(OutPoint(tx.txId, 0)), channelId := Some(tx.txId))
  }

  predicate Contains(b: Block, target: OutPoint) {
    exists i :: 0 <= i < |b.txs| && b.txs[i].txId == target.txId && target.index < b.txs[i].outputs
  }

  predicate HasOutput(b: Block) {
    exists i :: 0 <= i < |b.txs| && b.txs[i].outputs > 0
  }

  /** Undefined until the depth and the height are known. */
  function ReadyHeight(c: Record): Option<int> {
    if c.confirmedHeight.None? || c.minimumDepth.None? then None
    else Some(c.confirmedHeight.value + c.minimumDepth.value - 1)
  }

  function Accepted(logic: Logic, v: View, m: AcceptChannel): (View, Outcome) {
    if !logic.acceptIsValid(v.record, m) then (v, Goto(FAILING)) else
    var c := WithAccept(v.record, m);
    (v.(record := WithFundingTx(c, logic.fundingTx(c)), log := v.log + [FundingCreatedSent]),
     Goto(AWAITING_FUNDING_SIGNED))
  }

  function Signed(logic: Logic, v: View, m: FundingSigned): (View, Outcome) {
    if !logic.signedIsValid(v.record, m) then (v, Goto(FAILING)) else
    var c := v.record.(ourSignature := Some(m.signature));
    if c.fundingTx.None? then (v.(record := c), Throw)
    else (v.(record := c, log := v.log + [Broadcast(c.fundingTx.value)]), Goto(NO_CHANNEL_READY))
  }

  function Readied(logic: Logic, v: View, m: ChannelReady, success: Id): (View, Outcome) {
    if !logic.readyIsValid(m) then (v, Goto(FAILING))
    else if v.record.theirNumber.None? then (v, Throw)
    else (v.(record := v.record.(theirNumber := Some(v.record.theirNumber.value + 1))), Goto(success))
  }

  function Confirmed(v: View, b: Block): (View, Outcome) {
    if v.record.fundingOutPoint.None? then (v, if HasOutput(b) then Throw else Stay)
    else if Contains(b, v.record.fundingOutPoint.value) then
      (v.(record := v.record.(confirmedHeight := Some(b.height))), Goto(AWAITING_FUNDING_DEPTH))
    else (v, Stay)
  }

  function DepthReached(v: View, b: Block): (View, Outcome) {
    var ready := ReadyHeight(v.record);
    if ready.None? || b.height < ready.value then (v, Stay) else
    var v' := v.(log := v.log + [ReadySent(b.height)]);
    if v.record.theirNumber.None? then (v', Throw)
    else (v', Goto(if v.record.theirNumber.value > 0 then NORMAL else AWAITING_CHANNEL_READY))
  }

  function Abandon(v: View): (View, Outcome) {
    (v.(disk := None), Goto(ABANDONED))
  }

  predicate Suits(h: Handler, t: EventType) {
    match h
    case OnAcceptChannel => t == AcceptChannelMessage
    case OnFundingSigned => t == FundingSignedMessage
    case OnChannelReady(_) => t == ChannelReadyMessage
    case FundingConfirmed => t == BlockConnected
    case FundingDepthReached => t == BlockConnected
    case DisconnectedAbandon => t == PeerDisconnected
  }

  function Handled(logic: Logic, v: View, h: Handler, e: Event): (View, Outcome)
    requires Suits(h, TypeOf(e))
  {
    match h
    case OnAcceptChannel => Accepted(logic, v, e.accept)
    case OnFundingSigned => Signed(logic, v, e.signed)
    case OnChannelReady(success) => Readied(logic, v, e.ready, success)
    case FundingConfirmed => Confirmed(v, e.block)
    case FundingDepthReached => DepthReached(v, e.block)
    case DisconnectedAbandon => Abandon(v)
  }

  /** The first handler that leads anywhere ends the search. */
  function AllHandled(logic: Logic, v: View, hs: seq<Handler>, e: Event): (View, Outcome)
    requires forall h :: h in hs ==> Suits(h, TypeOf(e))
  {
    if hs == [] then (v, Stay) else
    var (v', outcome) := Handled(logic, v, hs[0], e);
    if outcome != Stay then (v', outcome) else AllHandled(logic, v', hs[1..], e)
  }

  /** The manager's transition: to another state of the tree, which is then saved. */
  function Transitioned(root: State, v: View, outcome: Outcome): (View, Outcome) {
    match outcome
    case Stay => (v, Stay)
    case Throw => (v, Throw)
    case Goto(id) =>
      if id == (if v.record.state.Some? then v.record.state.value else Top(root.name)) then (v, Stay)
      else if At(root, id).None? then (v, Throw)
      else
        var c := v.record.(state := Some(id));
        (v.(record := c, disk := Some(c)), Stay)
  }

  predicate AllSuit(root: State, id: Id, t: EventType) {
    forall h :: h in Handlers(root, id, t) ==> Suits(h, t)
  }

  /** One event of one channel; the outcome is Stay or Throw. */
  function Step(root: State, logic: Logic, v: View, e: Event): (View, Outcome)
    requires v.record.state.Some? && AllSuit(root, v.record.state.value, TypeOf(e))
  {
    var (v', outcome) := AllHandled(logic, v, Handlers(root, v.record.state.value, TypeOf(e)), e);
    Transitioned(root, v', outcome)
  }

  /** A channel as the manager opens it. */
  function Opened(root: State, peerId: nat, temporaryId: nat): (View, Outcome) {
    Transitioned(root,
      View(Record(peerId, temporaryId, None, None, None, None, None, None, None, None), [OpenChannelSent], None),
      Goto(AWAITING_ACCEPT_CHANNEL))
  }

  // ---------------------------------------------------------------------------
  // The class

  method ContainsOutPoint(b: Block, target: OutPoint) returns (r: bool)
    ensures r == Contains(b, target)
  {
    for t := 0 to |b.txs|
      invariant forall k :: 0 <= k < t ==> !(b.txs[k].txId == target.txId && target.index < b.txs[k].outputs)
    {
      var tx := b.txs[t];
      for i := 0 to tx.outputs
        invariant !(tx.txId == target.txId && target.index < i)
      {
        if target == OutPoint(tx.txId, i) {
          return true;
        }
      }
    }
    return false;
  }

  class OpeningChannel {
    const peerId: nat
    const temporaryId: nat
    var state: Option<Id>
    var minimumDepth: Option<nat>
    var fundingTx: Option<Tx>
    var fundingOutPoint: Option<OutPoint>
    var channelId: Option<nat>
    var confirmedHeight: Option<nat>
    var theirNumber: Option<nat>
    var ourSignature: Option<nat>
    // what others have seen of it
    var log: seq<Effect>
    var disk: Option<Record>

    function Fields(): Record
      reads this
    {
      Record(peerId, temporaryId, state, minimumDepth, fundingTx, fundingOutPoint, channelId,
             confirmedHeight, theirNumber, ourSignature)
    }

    function Value(): View
      reads this
    {
      View(Fields(), log, disk)
    }

    constructor (peerId: nat, temporaryId: nat)
      ensures Value() == View(Record(peerId, temporaryId, None, None, None, None, None, None, None, None), [], None)
    {
      this.peerId, this.temporaryId := peerId, temporaryId;
      state, minimumDepth, fundingTx, fundingOutPoint, channelId := None, None, None, None, None;
      confirmedHeight, theirNumber, ourSignature, log, disk := None, None, None, [], None;
    }

    method OnAccept(logic: Logic, m: AcceptChannel) returns (outcome: Outcome)
      modifies this
      ensures (Value(), outcome) == Accepted(logic, old(Value()), m)
    {
      if !logic.acceptIsValid(Fields(), m) {
        return Goto(FAILING);
      }
      minimumDepth, theirNumber := Some(m.minimumDepth), Some(0);
      var tx := logic.fundingTx(Fields());
      fundingTx, fundingOutPoint, channelId := Some(tx), Some(OutPoint(tx.txId, 0)), Some(tx.txId);
      log := log + [FundingCreatedSent];
      return Goto(AWAITING_FUNDING_SIGNED);
    }

    method OnSigned(logic: Logic, m: FundingSigned) returns (outcome: Outcome)
      modifies this
      ensures (Value(), outcome) == Signed(logic, old(Value()), m)
    {
      if !logic.signedIsValid(Fields(), m) {
        return Goto(FAILING);
      }
      ourSignature := Some(m.signature);
      if fundingTx.None? { return Throw; }
      log := log + [Broadcast(fundingTx.value)];
      return Goto(NO_CHANNEL_READY);
    }

    method OnReady(logic: Logic, m: ChannelReady, success: Id) returns (outcome: Outcome)
      modifies this
      ensures (Value(), outcome) == Readied(logic, old(Value()), m, success)
    {
      if !logic.readyIsValid(m) {
        return Goto(FAILING);
      }
      if theirNumber.None? { return Throw; }
      theirNumber := Some(theirNumber.value + 1);
      return Goto(success);
    }

    method OnBlock(h: Handler, b: Block) returns (outcome: Outcome)
      requires h == FundingConfirmed || h == FundingDepthReached
      modifies this
      ensures (Value(), outcome) ==
              if h == FundingConfirmed then Confirmed(old(Value()), b) else DepthReached(old(Value()), b)
    {
      if h == FundingConfirmed {
        if fundingOutPoint.None? {
          return if exists i :: 0 <= i < |b.txs| && b.txs[i].outputs > 0 then Throw else Stay;
        }
        var found := ContainsOutPoint(b, fundingOutPoint.value);
        if found {
          confirmedHeight := Some(b.height);
          return Goto(AWAITING_FUNDING_DEPTH);
        }
        return Stay;
      }
      var ready := ReadyHeight(Fields());
      if ready.None? || b.height < ready.value {
        return Stay;
      }
      log := log + [ReadySent(b.height)];
      if theirNumber.None? { return Throw; }
      return Goto(if theirNumber.value > 0 then NORMAL else AWAITING_CHANNEL_READY);
    }

    method RunHandler(logic: Logic, h: Handler, e: Event) returns (outcome: Outcome)
      requires Suits(h, TypeOf(e))
      modifies this
      ensures (Value(), outcome) == Handled(logic, old(Value()), h, e)
    {
      match h {
        case OnAcceptChannel => outcome := OnAccept(logic, e.accept);
        case OnFundingSigned => outcome := OnSigned(logic, e.signed);
        case OnChannelReady(success) => outcome := OnReady(logic, e.ready, success);
        case DisconnectedAbandon =>
          disk := None;
          outcome := Goto(ABANDONED);
        case _ => outcome := OnBlock(h, e.block);
      }
    }

    method OnEvent(root: State, logic: Logic, e: Event) returns (outcome: Outcome)
      requires state.Some? && AllSuit(root, state.value, TypeOf(e))
      modifies this
      ensures (Value(), outcome) == AllHandled(logic, old(Value()), old(Handlers(root, state.value, TypeOf(e))), e)
    {
      hide Handled, Handlers;
      var handlers := CollectHandlers(root, state.value, TypeOf(e));
      ghost var start := Value();
      var i := 0;
      while i < |handlers|
        invariant 0 <= i <= |handlers|
        invariant AllHandled(logic, start, handlers, e) == AllHandled(logic, Value(), handlers[i..], e)
      {
        outcome := RunHandler(logic, handlers[i], e);
        if outcome != Stay { return; }
        assert handlers[i..][1..] == handlers[i + 1..];
        i := i + 1;
      }
      outcome := Stay;
    }

    /** The loop goes round again only if entering a state names another; none of the states does. */
    method TransitionState(root: State, outcome: Outcome) returns (result: Outcome)
      requires Distinct(root)
      modifies this
      ensures (Value(), result) == Transitioned(root, old(Value()), outcome)
    {
      hide At, Distinct;
      if outcome == Throw { return Throw; }
      var newId := if outcome.Goto? then Some(outcome.id) else None;
      var oldState := if state.Some? then state.value else Top(root.name);
      ghost var start := Value();
      while newId.Some? && newId.value != oldState
        invariant newId.Some? ==> outcome == Goto(newId.value) && Value() == start
        invariant newId.Some? ==> oldState == if state.Some? then state.value else Top(root.name)
        invariant newId.None? ==> (Value(), Stay) == Transitioned(root, start, outcome)
        decreases if newId.Some? then 1 else 0
      {
        var newState := FindState(root, newId.value);
        if newState.None? { return Throw; }
        state := newId;
        oldState := newId.value;
        newId := None;
        disk := Some(Fields());
      }
      return Stay;
    }
  }
}
