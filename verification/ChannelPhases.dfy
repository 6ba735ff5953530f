/**
 Which event takes a channel from which state to which, and when in a run its opening fails. What a
 channel then holds comes from the messages that were accepted.
*/
module ChannelPhases {
  import opened Common
  import opened StateTree
  import opened ChannelEvents
  import opened ChannelRuns

  // ---------------------------------------------------------------------------
  // One event

  /** The state after an event, as BOLT #2 and the documentation of the states have it. */
  function Next(logic: Logic, c: Record, e: Event): Option<Id> {
    if c.state == Some(AWAITING_ACCEPT_CHANNEL) && e.AcceptEvent? then
      Some(if logic.acceptIsValid(c, e.accept) then AWAITING_FUNDING_SIGNED else FAILING)
    else if c.state == Some(AWAITING_FUNDING_SIGNED) && e.SignedEvent? then
      Some(if logic.signedIsValid(c, e.signed) then NO_CHANNEL_READY else FAILING)
    else if c.state in [Some(AWAITING_ACCEPT_CHANNEL), Some(AWAITING_FUNDING_SIGNED)] && e.DisconnectEvent? then
      Some(ABANDONED)
    else if c.state == Some(NO_CHANNEL_READY) && e.BlockEvent? && HasFunding(c, e.block) then
      Some(AWAITING_FUNDING_DEPTH)
    else if c.state == Some(AWAITING_FUNDING_DEPTH) && e.BlockEvent? && IsDeep(c, e.block) then
      Some(if Number(c) > 0 then NORMAL else AWAITING_CHANNEL_READY)
    else if AwaitsReady(c) && e.ReadyEvent? && !logic.readyIsValid(e.ready) then
      Some(FAILING)
    else if c.state == Some(AWAITING_CHANNEL_READY) && e.ReadyEvent? then
      Some(NORMAL)
    else c.state
  }

  /** The block holds the funding transaction with its output. */
  predicate HasFunding(c: Record, b: Block) {
    && c.fundingOutPoint.Some?
    && exists tx :: tx in b.txs && tx.txId == c.fundingOutPoint.value.txId && tx.outputs > c.fundingOutPoint.value.index
  }

  /** The block is the minimum depth deep, the confirming one counted. */
  predicate IsDeep(c: Record, b: Block) {
    c.confirmedHeight.Some? && c.minimumDepth.Some? && b.height + 1 >= c.confirmedHeight.value + c.minimumDepth.value
  }

  lemma {:induction false} HasFundingIs(c: Record, b: Block)
    requires c.fundingOutPoint.Some?
    ensures HasFunding(c, b) <==> Contains(b, c.fundingOutPoint.value)
  {
    var target := c.fundingOutPoint.value;
    if Contains(b, target) {
      var i :| 0 <= i < |b.txs| && b.txs[i].txId == target.txId && target.index < b.txs[i].outputs;
      assert b.txs[i] in b.txs;
    }
  }

  lemma {:induction false} StepGoesTo(logic: Logic, v: View, e: Event)
    requires Inv(v)
    ensures TableStep(logic, v, e).0.record.state == Next(logic, v.record, e)
  {
    if v.record.state == Some(NO_CHANNEL_READY) && e.BlockEvent? {
      assert v.record.fundingOutPoint.Some?;
      HasFundingIs(v.record, e.block);
    }
    hide Contains, HasFunding;
  }

  /** In every run each event takes the channel where the table says, and nowhere else. */
  lemma {:induction false} RunGoesTo(logic: Logic, peerId: nat, temporaryId: nat, es: seq<Event>, e: Event)
    ensures Run(logic, peerId, temporaryId, []).record.state == Some(AWAITING_ACCEPT_CHANNEL)
    ensures Run(logic, peerId, temporaryId, es + [e]).record.state ==
            Next(logic, Run(logic, peerId, temporaryId, es).record, e)
  {
    RunNothing(logic, peerId, temporaryId);
    RunMore(logic, peerId, temporaryId, es, e);
    hide Run, TableStep, Inv, Next;
    StepGoesTo(logic, Run(logic, peerId, temporaryId, es), e);
  }

  // ---------------------------------------------------------------------------
  // Several handlers, and any tree

  predicate AllFit(hs: seq<Handler>, e: Event) {
    forall h :: h in hs ==> Suits(h, TypeOf(e))
  }

  /** Handlers run in turn on what those before them left, until one leads somewhere or throws. */
  lemma {:induction false} HandledInTurn(logic: Logic, v: View, before: seq<Handler>, after: seq<Handler>, e: Event)
    requires AllFit(before, e) && AllFit(after, e)
    ensures AllFit(before + after, e)
    ensures AllHandled(logic, v, before + after, e) ==
            var (v', outcome) := AllHandled(logic, v, before, e);
            if outcome == Stay then AllHandled(logic, v', after, e) else (v', outcome)
    ensures AllHandled(logic, v, [], e) == (v, Stay)
    decreases |before|
  {
    hide Handled;
    if before == [] {
      assert before + after == after;
    } else {
      assert (before + after)[1..] == before[1..] + after && (before + after)[0] == before[0];
      HandledInTurn(logic, Handled(logic, v, before[0], e).0, before[1..], after, e);
    }
  }

  /**
   In any tree: the state a transition leads to is entered and saved, unless it is the channel's already;
   one that is not there is an exception that changes nothing.
  */
  lemma {:induction false} TransitionIs(root: State, v: View, id: Id)
    requires v.record.state.Some?
    ensures var (v', outcome) := Transitioned(root, v, Goto(id));
            && (v.record.state == Some(id) ==> v' == v && outcome == Stay)
            && (v.record.state != Some(id) && At(root, id).Some? ==>
                  && outcome == Stay && v'.record == v.record.(state := Some(id))
                  && v'.disk == Some(v'.record) && v'.log == v.log)
            && (v.record.state != Some(id) && At(root, id).None? ==> v' == v && outcome == Throw)
  {
    hide At;
  }

  // ---------------------------------------------------------------------------
  // Failing

  /** A message that is awaited and not valid. */
  predicate Refused(logic: Logic, c: Record, e: Event) {
    || (c.state == Some(AWAITING_ACCEPT_CHANNEL) && e.AcceptEvent? && !logic.acceptIsValid(c, e.accept))
    || (c.state == Some(AWAITING_FUNDING_SIGNED) && e.SignedEvent? && !logic.signedIsValid(c, e.signed))
    || (AwaitsReady(c) && e.ReadyEvent? && !logic.readyIsValid(e.ready))
  }

  ghost predicate RefusedAt(logic: Logic, peerId: nat, temporaryId: nat, es: seq<Event>, k: nat)
    requires k < |es|
  {
    Refused(logic, Run(logic, peerId, temporaryId, es[..k]).record, es[k])
  }

  lemma {:induction false} FailingStep(logic: Logic, v: View, e: Event)
    requires Inv(v)
    ensures TableStep(logic, v, e).0.record.state == Some(FAILING) <==>
            v.record.state == Some(FAILING) || Refused(logic, v.record, e)
  {
    StepGoesTo(logic, v, e);
    hide TableStep, HasFunding, IsDeep, Story, Stage, Stored;
  }

  /** In every run the channel fails exactly when a message came that was awaited and not valid. */
  lemma {:induction false} FailingIff(logic: Logic, peerId: nat, temporaryId: nat, es: seq<Event>)
    ensures Run(logic, peerId, temporaryId, es).record.state == Some(FAILING) <==>
            exists k :: 0 <= k < |es| && RefusedAt(logic, peerId, temporaryId, es, k)
  {
    hide Run, TableStep, Inv, Refused;
    if es == [] {
      RunNothing(logic, peerId, temporaryId);
    } else {
      RunStep(logic, peerId, temporaryId, es);
      var pre := es[..|es| - 1];
      FailingIff(logic, peerId, temporaryId, pre);
      FailingStep(logic, Run(logic, peerId, temporaryId, pre), es[|pre|]);
      assert forall k :: 0 <= k < |pre| ==> pre[..k] == es[..k];
      assert forall k :: 0 <= k < |pre| ==>
        (RefusedAt(logic, peerId, temporaryId, es, k) <==> RefusedAt(logic, peerId, temporaryId, pre, k));
      assert es[..|pre|] == pre;
      if Refused(logic, Run(logic, peerId, temporaryId, pre).record, es[|pre|]) {
        assert RefusedAt(logic, peerId, temporaryId, es, |pre|);
      }
    }
  }

  // ---------------------------------------------------------------------------
  // Where the fields of a channel come from

  /** The minimum depth, the funding transaction and the outpoint, once accept_channel is taken. */
  predicate HasTerms(c: Record, depth: nat, tx: Tx) {
    && c.minimumDepth == Some(depth) && c.fundingTx == Some(tx)
    && c.fundingOutPoint == Some(OutPoint(tx.txId, 0)) && c.channelId == Some(tx.txId)
  }

  predicate NoTerms(c: Record) {
    c.minimumDepth.None? && c.fundingTx.None? && c.fundingOutPoint.None? && c.channelId.None?
  }

  /** At event k a valid accept_channel was taken for a depth, and the funding transaction made for it. */
  ghost predicate AcceptedAt(logic: Logic, peerId: nat, temporaryId: nat, es: seq<Event>, k: nat, depth: nat, tx: Tx)
    requires k < |es|
  {
    var c := Run(logic, peerId, temporaryId, es[..k]).record;
    && c.state == Some(AWAITING_ACCEPT_CHANNEL) && es[k].AcceptEvent? && logic.acceptIsValid(c, es[k].accept)
    && es[k].accept.minimumDepth == depth
    && tx == logic.fundingTx(c.(minimumDepth := Some(depth), theirNumber := Some(0)))
  }

  lemma {:induction false} TermsStep(logic: Logic, v: View, e: Event)
    requires Inv(v)
    ensures var c, c' := v.record, TableStep(logic, v, e).0.record;
            if c.state == Some(AWAITING_ACCEPT_CHANNEL) && e.AcceptEvent? && logic.acceptIsValid(c, e.accept)
            then var depth := e.accept.minimumDepth;
                 HasTerms(c', depth, logic.fundingTx(c.(minimumDepth := Some(depth), theirNumber := Some(0))))
            else c'.minimumDepth == c.minimumDepth && c'.fundingTx == c.fundingTx
                 && c'.fundingOutPoint == c.fundingOutPoint && c'.channelId == c.channelId
    ensures TableStep(logic, v, e).0.record.peerId == v.record.peerId
    ensures TableStep(logic, v, e).0.record.temporaryId == v.record.temporaryId
  {
    hide Contains;
  }

  lemma {:induction false} NothingYet(logic: Logic, peerId: nat, temporaryId: nat)
    ensures var c := Run(logic, peerId, temporaryId, []).record;
            NoTerms(c) && c.ourSignature.None? && c.peerId == peerId && c.temporaryId == temporaryId
  {
    hide Construct, Inv, Opened;
    OpenedIsInv(peerId, temporaryId);
  }

  /** In every run the terms are those of the accept_channel that was taken, or there are none. */
  lemma {:induction false} TermsAreAccepted(logic: Logic, peerId: nat, temporaryId: nat, es: seq<Event>)
    ensures var c := Run(logic, peerId, temporaryId, es).record;
            || NoTerms(c)
            || exists k, depth, tx ::
                 0 <= k < |es| && AcceptedAt(logic, peerId, temporaryId, es, k, depth, tx) && HasTerms(c, depth, tx)
    ensures var c := Run(logic, peerId, temporaryId, es).record; c.peerId == peerId && c.temporaryId == temporaryId
  {
    hide Run, TableStep, Inv;
    if es == [] {
      NothingYet(logic, peerId, temporaryId);
    } else {
      RunStep(logic, peerId, temporaryId, es);
      var pre, e := es[..|es| - 1], es[|es| - 1];
      var v := Run(logic, peerId, temporaryId, pre);
      TermsAreAccepted(logic, peerId, temporaryId, pre);
      TermsStep(logic, v, e);
      if v.record.state == Some(AWAITING_ACCEPT_CHANNEL) && e.AcceptEvent? && logic.acceptIsValid(v.record, e.accept) {
        var depth := e.accept.minimumDepth;
        var tx := logic.fundingTx(v.record.(minimumDepth := Some(depth), theirNumber := Some(0)));
        assert AcceptedAt(logic, peerId, temporaryId, es, |pre|, depth, tx);
      } else if !NoTerms(v.record) {
        var k, depth, tx :|
          0 <= k < |pre| && AcceptedAt(logic, peerId, temporaryId, pre, k, depth, tx) && HasTerms(v.record, depth, tx);
        assert pre[..k] == es[..k];
        assert AcceptedAt(logic, peerId, temporaryId, es, k, depth, tx);
      }
    }
  }

  /** At event k a valid funding_signed with a signature was taken. */
  ghost predicate SignatureAt(logic: Logic, peerId: nat, temporaryId: nat, es: seq<Event>, k: nat, signature: nat)
    requires k < |es|
  {
    var c := Run(logic, peerId, temporaryId, es[..k]).record;
    && c.state == Some(AWAITING_FUNDING_SIGNED) && es[k].SignedEvent? && logic.signedIsValid(c, es[k].signed)
    && es[k].signed.signature == signature
  }

  lemma {:induction false} SignatureStep(logic: Logic, v: View, e: Event)
    requires Inv(v)
    ensures var c, c' := v.record, TableStep(logic, v, e).0.record;
            c'.ourSignature ==
            if c.state == Some(AWAITING_FUNDING_SIGNED) && e.SignedEvent? && logic.signedIsValid(c, e.signed)
            then Some(e.signed.signature) else c.ourSignature
  {
    hide Contains;
  }

  /** In every run the signature kept is that of the funding_signed that was taken. */
  lemma {:induction false} SignatureIsTaken(logic: Logic, peerId: nat, temporaryId: nat, es: seq<Event>)
    ensures var signature := Run(logic, peerId, temporaryId, es).record.ourSignature;
            signature.Some? ==>
              exists k :: 0 <= k < |es| && SignatureAt(logic, peerId, temporaryId, es, k, signature.value)
  {
    hide Run, TableStep, Inv;
    if es == [] {
      NothingYet(logic, peerId, temporaryId);
    } else {
      RunStep(logic, peerId, temporaryId, es);
      var pre, e := es[..|es| - 1], es[|es| - 1];
      var v := Run(logic, peerId, temporaryId, pre);
      SignatureIsTaken(logic, peerId, temporaryId, pre);
      SignatureStep(logic, v, e);
      var signature := Run(logic, peerId, temporaryId, es).record.ourSignature;
      if v.record.state == Some(AWAITING_FUNDING_SIGNED) && e.SignedEvent? && logic.signedIsValid(v.record, e.signed) {
        assert SignatureAt(logic, peerId, temporaryId, es, |pre|, e.signed.signature);
      } else if signature.Some? {
        var k :| 0 <= k < |pre| && SignatureAt(logic, peerId, temporaryId, pre, k, signature.value);
        assert pre[..k] == es[..k];
        assert SignatureAt(logic, peerId, temporaryId, es, k, signature.value);
      }
    }
  }
}
