/**
 Exactly which channels the funder opens and which answers it takes, limit by limit as BOLT #2 states
 them, and what the two first commitments are then built from.
*/
module ChannelLimits {
  import opened Common
  import opened CommitmentTx
  import opened ChannelOpening

  // ---------------------------------------------------------------------------
  // Opening

  /** The fee of a commitment without HTLCs. */
  function OpeningFee(feeRate: Value): nat {
    724 * Sats(feeRate) / 1000
  }

  /** What is wrong with a request, by the error that reports it. */
  predicate Breaks(w: WalletView, o: OpenRequest, e: OpeningError) {
    match e
    case FundsNotAvailable => !w.hasFunds
    case FundingAmountTooHigh => !o.bothSupportLargeChannels && Sats(o.fundingAmount) >= 0x100_0000
    case PushAmountTooHigh => o.pushAmount > o.fundingAmount
    case FundingAmountTooLow =>
      o.pushAmount <= o.fundingAmount && Sats(o.fundingAmount - o.pushAmount) <= OpeningFee(w.feeRatePerKw)
    case DustLimitTooLow => w.dustLimit < FromSats(354)
    case ChannelReserveTooLow => o.channelReserveValue < w.dustLimit
    case ChannelReserveUnreachable =>
      && o.pushAmount <= o.channelReserveValue
      && o.fundingAmount <= o.pushAmount + FromSats(OpeningFee(w.feeRatePerKw)) + o.channelReserveValue
    case MaxAcceptedHtlcsTooHigh => o.maxAcceptedHtlcs > 483
    case _ => false
  }

  /** A channel is opened if and only if no limit is broken; what is reported is one that is. */
  lemma {:induction false} OpenedIff(w: WalletView, o: OpenRequest)
    ensures Created(w, o).Ok? <==> forall e :: !Breaks(w, o, e)
    ensures Created(w, o).Err? ==> Breaks(w, o, Created(w, o).error)
  {
    hide Sats, FromSats;
    if o.pushAmount <= o.fundingAmount && Sats(o.fundingAmount - o.pushAmount) > OpeningFee(w.feeRatePerKw) {
      FeeIsPaid(o.fundingAmount - o.pushAmount, OpeningFee(w.feeRatePerKw));
    }
    if Created(w, o).Err? {
      assert Breaks(w, o, Created(w, o).error);
    }
  }

  lemma {:induction false} FeeIsPaid(v: Value, fee: nat)
    requires Sats(v) > fee
    ensures FromSats(fee) <= v
  {
  }

  // ---------------------------------------------------------------------------
  // Taking an answer

  /** More, or less, than so many percent of the funding amount, in whole satoshis. */
  predicate Above(v: Value, fundingAmount: Value, percent: nat) {
    v > FromSats(Sats(fundingAmount) * percent / 100)
  }

  predicate Under(v: Value, fundingAmount: Value, percent: nat) {
    v < FromSats(Sats(fundingAmount) * percent / 100)
  }

  /** What is wrong with an answer, by the error that reports it. */
  predicate Offends(p: Preferences, isKey: Bytes -> bool, ch: Channel, m: AcceptMessage, e: OpeningError) {
    match e
    case ChannelReserveDustLimitMismatch =>
      || ch.theirSide.channelReserve < ch.ourSide.dustLimit
      || ch.theirSide.channelReserve < m.dustLimitValue
      || m.channelReserveValue < ch.ourSide.dustLimit
    case ToSelfDelayTooHigh => m.toSelfDelay > p.maxAllowedToSelfDelay
    case MaxAcceptedHtlcsTooHigh => m.maxAcceptedHtlcs > 483
    case MaxAcceptedHtlcsTooLow => m.maxAcceptedHtlcs < p.minMaxAcceptedHtlcs
    case InvalidFundingKey => !isKey(m.fundingPubKey)
    case InvalidPaymentBasePoint => !isKey(m.paymentBasePoint)
    case InvalidDelayedBasePoint => !isKey(m.delayedPaymentBasePoint)
    case InvalidRevocationBasePoint => !isKey(m.revocationBasePoint)
    case InvalidHtlcBasePoint => !isKey(m.htlcBasePoint)
    case InvalidPerCommitmentPoint => !isKey(m.firstPerCommitmentPoint)
    case DustLimitTooLow => m.dustLimitValue < FromSats(354)
    case DustLimitTooHigh => m.dustLimitValue > p.maxDustLimit
    case MinimumDepthTooHigh => m.minimumDepth > p.maxMinimumFundingDepth
    case HtlcMinimumTooHigh => Above(m.htlcMinimumValue, ch.fundingAmount, p.maxChanPercHtlcMinimum)
    case MaxHtlcInFlightTooLow => Under(m.maxHtlcValueInFlightValue, ch.fundingAmount, p.minChanPercMaxHtlcInFlight)
    case ChannelReserveTooHigh => Above(m.channelReserveValue, ch.fundingAmount, p.maxChanPercChannelReserve)
    case _ => false
  }

  /** An answer is taken if and only if it offends no limit; what is reported is one that it offends. */
  lemma {:induction false} TakenIff(p: Preferences, isKey: Bytes -> bool, ch: Channel, m: AcceptMessage)
    ensures Validated(p, isKey, ch, m).Ok? <==> forall e :: !Offends(p, isKey, ch, m, e)
    ensures Validated(p, isKey, ch, m).Err? ==> Offends(p, isKey, ch, m, Validated(p, isKey, ch, m).error)
  {
    hide Sats, FromSats;
    if Validated(p, isKey, ch, m).Err? {
      assert Offends(p, isKey, ch, m, Validated(p, isKey, ch, m).error);
    }
  }

  /**
   What a channel holds once the answer is taken: the funding is split as asked, what either peer asks of
   the other is on the other's side, and what it says of itself is on its own.
  */
  lemma {:induction false} ChannelIs(w: WalletView, o: OpenRequest, m: AcceptMessage)
    requires Created(w, o).Ok?
    ensures var ch := Attached(Created(w, o).value, m); var ours, theirs := ch.ourSide, ch.theirSide;
            && ch.funder && ch.feeRatePerKw == w.feeRatePerKw && ch.minimumDepth == m.minimumDepth
            && ch.fundingAmount == o.fundingAmount && ch.pushAmount == o.pushAmount
            && ours.balance + theirs.balance == o.fundingAmount && theirs.balance == o.pushAmount
            && ours.channelReserve == m.channelReserveValue && theirs.channelReserve == o.channelReserveValue
            && ours.toSelfDelayBlocks == m.toSelfDelay && theirs.toSelfDelayBlocks == o.toSelfBlockDelay
            && ours.dustLimit == w.dustLimit && theirs.dustLimit == m.dustLimitValue
            && ours.minHtlcValue == o.minHtlcValue && theirs.minHtlcValue == m.htlcMinimumValue
            && ours.maxAcceptedHtlc == o.maxAcceptedHtlcs && theirs.maxAcceptedHtlc == m.maxAcceptedHtlcs
            && ours.maxInFlightHtlcValue == o.maxHtlcInFlightValue
            && theirs.maxInFlightHtlcValue == m.maxHtlcValueInFlightValue
            && ours.fundingPubKey == w.ours.fundingPubKey && theirs.fundingPubKey == m.fundingPubKey
            && ours.paymentBasePoint == w.ours.paymentBasePoint && theirs.paymentBasePoint == m.paymentBasePoint
            && ours.delayedBasePoint == w.ours.delayedBasePoint && theirs.delayedBasePoint == m.delayedPaymentBasePoint
            && ours.htlcBasePoint == w.ours.htlcBasePoint && theirs.htlcBasePoint == m.htlcBasePoint
            && ours.revocationBasePoint == w.ours.revocationBasePoint && theirs.revocationBasePoint == m.revocationBasePoint
            && ours.nextCommitmentNumber == theirs.nextCommitmentNumber == 0
            && ours.nextCommitmentPoint == w.ours.nextCommitmentPoint && theirs.nextCommitmentPoint == m.firstPerCommitmentPoint
  {
    hide Sats, FromSats;
  }

  // ---------------------------------------------------------------------------
  // The two first commitments

  /** Ours: our balance is delayed by what they ask, and revocable with their base point. */
  lemma {:induction false} LocalIs(d: Derivations, w: WalletView, o: OpenRequest, m: AcceptMessage)
    requires Created(w, o).Ok?
    ensures var t := LocalTerms(d, Attached(Created(w, o).value, m)); var point := w.ours.nextCommitmentPoint;
            && t.isFunderLocal && t.commitmentNumber == 0
            && t.obscuringHash == d.obscuringHash(w.ours.paymentBasePoint, m.paymentBasePoint)
            && t.dustLimit == w.dustLimit && t.feePerKw == Sats(w.feeRatePerKw) && t.localDelay == m.toSelfDelay
            && t.localValue + o.pushAmount == o.fundingAmount && t.remoteValue == o.pushAmount
            && t.revocationPubKey == d.revocation(point, m.revocationBasePoint)
            && t.delayedPubKey == d.pubKey(point, w.ours.delayedBasePoint)
            && t.remotePubKey == m.paymentBasePoint
            && t.localHtlcPubKey == d.pubKey(point, w.ours.htlcBasePoint)
            && t.remoteHtlcPubKey == d.pubKey(point, m.htlcBasePoint)
  {
    hide Sats, FromSats;
  }

  /** Theirs: their balance is delayed by what we ask, and revocable with our base point. */
  lemma {:induction false} RemoteIs(d: Derivations, w: WalletView, o: OpenRequest, m: AcceptMessage)
    requires Created(w, o).Ok?
    ensures var t := RemoteTerms(d, Attached(Created(w, o).value, m)); var point := m.firstPerCommitmentPoint;
            && !t.isFunderLocal && t.commitmentNumber == 0
            && t.obscuringHash == d.obscuringHash(w.ours.paymentBasePoint, m.paymentBasePoint)
            && t.dustLimit == m.dustLimitValue && t.feePerKw == Sats(w.feeRatePerKw) && t.localDelay == o.toSelfBlockDelay
            && t.localValue == o.pushAmount && t.remoteValue + o.pushAmount == o.fundingAmount
            && t.revocationPubKey == d.revocation(point, w.ours.revocationBasePoint)
            && t.delayedPubKey == d.pubKey(point, m.delayedPaymentBasePoint)
            && t.remotePubKey == w.ours.paymentBasePoint
            && t.localHtlcPubKey == d.pubKey(point, m.htlcBasePoint)
            && t.remoteHtlcPubKey == d.pubKey(point, w.ours.htlcBasePoint)
  {
    hide Sats, FromSats;
  }
}
