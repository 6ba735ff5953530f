/**
 Opening a channel as the funder (BOLT #2): the checks of `createChannel` and
 `validateAcceptChannel`, the terms of the two first commitments, and what the checks are worth.
*/
module ChannelOpening {
  import opened Common
  import opened CommitmentTx
  import opened CommitmentLaws

  // ---------------------------------------------------------------------------
  // A channel and its two sides

  datatype Side = Side(
    dustLimit: Value, channelReserve: Value, toSelfDelayBlocks: nat, balance: Value,
    minHtlcValue: Value, maxAcceptedHtlc: nat, maxInFlightHtlcValue: Value,
    fundingPubKey: Bytes, paymentBasePoint: Bytes, delayedBasePoint: Bytes,
    htlcBasePoint: Bytes, revocationBasePoint: Bytes,
    nextCommitmentNumber: nat, nextCommitmentPoint: Bytes)

  datatype Channel = Channel(
    funder: bool, feeRatePerKw: Value, fundingAmount: Value, pushAmount: Value,
    minimumDepth: nat, fundingOutPoint: OutPoint, ourSide: Side, theirSide: Side)

  /** Key derivations and the hash behind the obscured commitment number. */
  datatype Derivations = Derivations(
    pubKey: (Bytes, Bytes) -> Bytes,         // per-commitment point, base point
    revocation: (Bytes, Bytes) -> Bytes,     // per-commitment point, revocation base point
    obscuringHash: (Bytes, Bytes) -> nat)    // opener's and accepter's payment base points

  function OpenPaymentBasePoint(ch: Channel): Bytes {
    if ch.funder then ch.ourSide.paymentBasePoint else ch.theirSide.paymentBasePoint
  }

  function AcceptPaymentBasePoint(ch: Channel): Bytes {
    if ch.funder then ch.theirSide.paymentBasePoint else ch.ourSide.paymentBasePoint
  }

  /** The arguments `createRemoteCommitmentTx` passes on; it reverses HTLCs. */
  function RemoteTerms(d: Derivations, ch: Channel): Terms {
    var point := ch.theirSide.nextCommitmentPoint;
    Terms(!ch.funder, ch.theirSide.nextCommitmentNumber,
          d.obscuringHash(OpenPaymentBasePoint(ch), AcceptPaymentBasePoint(ch)),
          ch.fundingOutPoint, ch.theirSide.dustLimit, Sats(ch.feeRatePerKw),
          ch.theirSide.toSelfDelayBlocks, ch.theirSide.balance, ch.ourSide.balance,
          d.revocation(point, ch.ourSide.revocationBasePoint),
          d.pubKey(point, ch.theirSide.delayedBasePoint),
          ch.ourSide.paymentBasePoint,
          d.pubKey(point, ch.theirSide.htlcBasePoint),
          d.pubKey(point, ch.ourSide.htlcBasePoint))
  }

  /** The arguments `createLocalCommitmentTx` passes on; it does not reverse HTLCs. */
  function LocalTerms(d: Derivations, ch: Channel): Terms {
    var point := ch.ourSide.nextCommitmentPoint;
    Terms(ch.funder, ch.ourSide.nextCommitmentNumber,
          d.obscuringHash(OpenPaymentBasePoint(ch), AcceptPaymentBasePoint(ch)),
          ch.fundingOutPoint, ch.ourSide.dustLimit, Sats(ch.feeRatePerKw),
          ch.ourSide.toSelfDelayBlocks, ch.ourSide.balance, ch.theirSide.balance,
          d.revocation(point, ch.theirSide.revocationBasePoint),
          d.pubKey(point, ch.ourSide.delayedBasePoint),
          ch.theirSide.paymentBasePoint,
          d.pubKey(point, ch.ourSide.htlcBasePoint),
          d.pubKey(point, ch.theirSide.htlcBasePoint))
  }

  /** Two peers' records of one channel: the sides swapped, the rest shared. */
  predicate Mirrored(a: Channel, b: Channel) {
    b == a.(funder := !a.funder, ourSide := a.theirSide, theirSide := a.ourSide)
  }

  /**
   The transaction one peer signs for the other is the one the other builds for itself, whatever
   HTLCs are pending and in whatever order each peer lists them.
  */
  lemma {:induction false} PeersAgree(f: Scripts, d: Derivations, a: Channel, b: Channel, htlcsA: seq<Htlc>, htlcsB: seq<Htlc>)
    requires Mirrored(a, b) && multiset(FlipAll(htlcsA)) == multiset(htlcsB)
    ensures Wire(Commitment(f, RemoteTerms(d, a), true, htlcsA).0) == Wire(Commitment(f, LocalTerms(d, b), false, htlcsB).0)
  {
    hide Commitment, Wire;
    assert RemoteTerms(d, a) == LocalTerms(d, b);
    ReverseIsFlip(f, RemoteTerms(d, a), htlcsA);
    OrderDoesNotMatter(f, LocalTerms(d, b), false, FlipAll(htlcsA), htlcsB);
  }

  // ---------------------------------------------------------------------------
  // The checks

  datatype OpeningError =
    | FundsNotAvailable | FundingAmountTooHigh | PushAmountTooHigh | FundingAmountTooLow
    | DustLimitTooLow | DustLimitTooHigh | ChannelReserveTooLow | ChannelReserveTooHigh
    | ChannelReserveUnreachable | ChannelReserveDustLimitMismatch
    | MaxAcceptedHtlcsTooLow | MaxAcceptedHtlcsTooHigh | ToSelfDelayTooHigh
    | InvalidFundingKey | InvalidPaymentBasePoint | InvalidDelayedBasePoint
    | InvalidRevocationBasePoint | InvalidHtlcBasePoint | InvalidPerCommitmentPoint
    | MinimumDepthTooHigh | HtlcMinimumTooHigh | MaxHtlcInFlightTooLow

  datatype Result<+T> = Ok(value: T) | Err(error: OpeningError)

  /** What the wallet answers while a channel is created. */
  datatype WalletView = WalletView(hasFunds: bool, feeRatePerKw: Value, dustLimit: Value, ours: Side)

  datatype OpenRequest = OpenRequest(
    fundingAmount: Value, pushAmount: Value, channelReserveValue: Value, toSelfBlockDelay: nat,
    minHtlcValue: Value, maxAcceptedHtlcs: nat, maxHtlcInFlightValue: Value, bothSupportLargeChannels: bool)

  function CommitmentFees(feeRatePerKw: Value): nat {
    724 * Sats(feeRatePerKw) / 1000
  }

  predicate ValidFundingAmountMax(fundingAmount: Value, large: bool) {
    large || Sats(fundingAmount) < 16777216
  }

  predicate ValidFunderFees(fundingAmount: Value, pushAmount: Value, feeRatePerKw: Value) {
    pushAmount <= fundingAmount && Sats(fundingAmount - pushAmount) > CommitmentFees(feeRatePerKw)
  }

  predicate ValidDustLimit(dustLimit: Value) {
    dustLimit >= FromSats(354)
  }

  predicate ValidReserveReachable(fundingAmount: Value, pushAmount: Value, feeRatePerKw: Value, reserve: Value) {
    var fees := FromSats(CommitmentFees(feeRatePerKw));
    && pushAmount + fees <= fundingAmount
    && (fundingAmount - pushAmount - fees > reserve || pushAmount > reserve)
  }

  predicate ValidMaxAccepted(n: nat) {
    n <= 483
  }

  function EmptySide(): Side {
    Side(0, 0, 0, 0, 0, 0, 0, [], [], [], [], [], 0, [])
  }

  /** `Helpers.createChannel`: the first check that fails decides. */
  function Created(w: WalletView, o: OpenRequest): Result<Channel> {
    if !w.hasFunds then Err(FundsNotAvailable)
    else if !ValidFundingAmountMax(o.fundingAmount, o.bothSupportLargeChannels) then Err(FundingAmountTooHigh)
    else if o.pushAmount > o.fundingAmount then Err(PushAmountTooHigh)
    else if !ValidFunderFees(o.fundingAmount, o.pushAmount, w.feeRatePerKw) then Err(FundingAmountTooLow)
    else if !ValidDustLimit(w.dustLimit) then Err(DustLimitTooLow)
    else if w.dustLimit > o.channelReserveValue then Err(ChannelReserveTooLow)
    else if !ValidReserveReachable(o.fundingAmount, o.pushAmount, w.feeRatePerKw, o.channelReserveValue) then
      Err(ChannelReserveUnreachable)
    else if !ValidMaxAccepted(o.maxAcceptedHtlcs) then Err(MaxAcceptedHtlcsTooHigh)
    else Ok(Channel(true, w.feeRatePerKw, o.fundingAmount, o.pushAmount, 0, OutPoint([], 0),
      w.ours.(balance := o.fundingAmount - o.pushAmount, dustLimit := w.dustLimit, minHtlcValue := o.minHtlcValue,
              maxAcceptedHtlc := o.maxAcceptedHtlcs, maxInFlightHtlcValue := o.maxHtlcInFlightValue,
              nextCommitmentNumber := 0),
      EmptySide().(balance := o.pushAmount, channelReserve := o.channelReserveValue,
                   toSelfDelayBlocks := o.toSelfBlockDelay)))
  }

  datatype AcceptMessage = AcceptMessage(
    dustLimitValue: Value, channelReserveValue: Value, toSelfDelay: nat, minimumDepth: nat,
    htlcMinimumValue: Value, maxAcceptedHtlcs: nat, maxHtlcValueInFlightValue: Value,
    fundingPubKey: Bytes, paymentBasePoint: Bytes, delayedPaymentBasePoint: Bytes,
    htlcBasePoint: Bytes, revocationBasePoint: Bytes, firstPerCommitmentPoint: Bytes)

  datatype Preferences = Preferences(
    maxAllowedToSelfDelay: nat, maxMinimumFundingDepth: nat, maxChanPercHtlcMinimum: nat,
    minChanPercMaxHtlcInFlight: nat, maxChanPercChannelReserve: nat, minMaxAcceptedHtlcs: nat, maxDustLimit: Value)

  /** A percentage of the funding amount, in whole satoshis. */
  function PercentOf(fundingAmount: Value, percent: nat): Value {
    FromSats(Sats(fundingAmount) * percent / 100)
  }

  /** `Helpers.validateAcceptChannel`; `isKey` is the curve's test for a valid public key. */
  function Validated(p: Preferences, isKey: Bytes -> bool, ch: Channel, m: AcceptMessage): Result<bool> {
    var reserve, dust := ch.theirSide.channelReserve, ch.ourSide.dustLimit;
    if !(dust <= reserve && m.dustLimitValue <= reserve && dust <= m.channelReserveValue) then
      Err(ChannelReserveDustLimitMismatch)
    else if m.toSelfDelay > p.maxAllowedToSelfDelay then Err(ToSelfDelayTooHigh)
    else if !ValidMaxAccepted(m.maxAcceptedHtlcs) then Err(MaxAcceptedHtlcsTooHigh)
    else if !isKey(m.fundingPubKey) then Err(InvalidFundingKey)
    else if !isKey(m.paymentBasePoint) then Err(InvalidPaymentBasePoint)
    else if !isKey(m.delayedPaymentBasePoint) then Err(InvalidDelayedBasePoint)
    else if !isKey(m.revocationBasePoint) then Err(InvalidRevocationBasePoint)
    else if !isKey(m.htlcBasePoint) then Err(InvalidHtlcBasePoint)
    else if !isKey(m.firstPerCommitmentPoint) then Err(InvalidPerCommitmentPoint)
    else if !ValidDustLimit(m.dustLimitValue) then Err(DustLimitTooLow)
    else if m.minimumDepth > p.maxMinimumFundingDepth then Err(MinimumDepthTooHigh)
    else if m.htlcMinimumValue > PercentOf(ch.fundingAmount, p.maxChanPercHtlcMinimum) then Err(HtlcMinimumTooHigh)
    else if m.maxHtlcValueInFlightValue < PercentOf(ch.fundingAmount, p.minChanPercMaxHtlcInFlight) then
      Err(MaxHtlcInFlightTooLow)
    else if m.channelReserveValue > PercentOf(ch.fundingAmount, p.maxChanPercChannelReserve) then
      Err(ChannelReserveTooHigh)
    else if m.maxAcceptedHtlcs < p.minMaxAcceptedHtlcs then Err(MaxAcceptedHtlcsTooLow)
    else if m.dustLimitValue > p.maxDustLimit then Err(DustLimitTooHigh)
    else Ok(true)
  }

  /** `Channel.attachAcceptChannel` */
  function Attached(ch: Channel, m: AcceptMessage): Channel {
    ch.(minimumDepth := m.minimumDepth,
        ourSide := ch.ourSide.(channelReserve := m.channelReserveValue, toSelfDelayBlocks := m.toSelfDelay),
        theirSide := ch.theirSide.(
          dustLimit := m.dustLimitValue, minHtlcValue := m.htlcMinimumValue, maxAcceptedHtlc := m.maxAcceptedHtlcs,
          maxInFlightHtlcValue := m.maxHtlcValueInFlightValue, fundingPubKey := m.fundingPubKey,
          paymentBasePoint := m.paymentBasePoint, delayedBasePoint := m.delayedPaymentBasePoint,
          htlcBasePoint := m.htlcBasePoint, revocationBasePoint := m.revocationBasePoint,
          nextCommitmentNumber := 0, nextCommitmentPoint := m.firstPerCommitmentPoint))
  }

  // ---------------------------------------------------------------------------
  // What the checks are worth

  /** A commitment the funder can pay for in full and that pays somebody something. */
  ghost predicate Workable(f: Scripts, t: Terms, reverse: bool) {
    && BaseFee(0, t.feePerKw) < Sats(FunderValue(t))
    && |Commitment(f, t, reverse, []).0.outputs| >= 1
  }

  lemma BaseFeeOfNoHtlcs(feePerKw: nat)
    ensures BaseFee(0, feePerKw) == 724 * feePerKw / 1000
  {
    assert (724 + 0 * 172) * feePerKw == 724 * feePerKw;
  }

  lemma SatsOrder(a: Value, b: Value)
    requires a <= b
    ensures Sats(a) <= Sats(b)
  {
  }

  lemma SatsLessFee(v: Value, fee: nat)
    requires FromSats(fee) <= v
    ensures Sats(v - FromSats(fee)) == Sats(v) - fee
  {
  }

  lemma {:induction false} SortKeepsLength(es: seq<Entry>)
    ensures |SortedOf(es)| == |es|
  {
    SortSorts(es);
    assert |multiset(SortedOf(es))| == |multiset(es)|;
  }

  /** A balance of at least the dust limit has its output. */
  lemma {:induction false} BalanceIsPaid(f: Scripts, t: Terms, reverse: bool)
    requires Sats(LocalAfterFee(t, BaseFee(0, t.feePerKw))) >= Sats(t.dustLimit)
          || Sats(RemoteAfterFee(t, BaseFee(0, t.feePerKw))) >= Sats(t.dustLimit)
    ensures |Commitment(f, t, reverse, []).0.outputs| >= 1
  {
    hide Sats, BaseFee, LocalAfterFee, RemoteAfterFee, SortedOf, TxOuts, HtlcsOf, Obscured, SequenceOf, LockTimeOf;
    var es := Entries(f, t, reverse, []);
    assert KeptOf(t, reverse, []) == [];
    assert HtlcEntries(f, t, reverse, []) == [];
    assert es == BalanceEntries(f, t, BaseFee(0, t.feePerKw));
    SortKeepsLength(es);
    TxOutsShape(SortedOf(es));
  }

  /**
   A channel that passes both validations starts with two workable commitments: on both, the fee is
   paid in full without being cut off at zero, and at least one output is left.
  */
  lemma {:induction false} OpenedChannelWorks(f: Scripts, d: Derivations, w: WalletView, o: OpenRequest,
                                              p: Preferences, isKey: Bytes -> bool, m: AcceptMessage)
    requires Created(w, o).Ok? && Validated(p, isKey, Created(w, o).value, m).Ok?
    ensures var ch := Attached(Created(w, o).value, m);
      Workable(f, LocalTerms(d, ch), false) && Workable(f, RemoteTerms(d, ch), true)
  {
    hide Commitment, BaseFee, PercentOf, KeyLe;
    var ch := Attached(Created(w, o).value, m);
    var fee := CommitmentFees(w.feeRatePerKw);
    BaseFeeOfNoHtlcs(Sats(w.feeRatePerKw));
    var local, remote := LocalTerms(d, ch), RemoteTerms(d, ch);
    var funders, reserve := o.fundingAmount - o.pushAmount, o.channelReserveValue;
    assert Sats(funders) > fee;
    SatsLessFee(funders, fee);
    assert Sats(Deducted(funders, fee)) == Sats(funders) - fee;
    if funders - FromSats(fee) > reserve {
      SatsOrder(reserve, funders - FromSats(fee));
      SatsOrder(local.dustLimit, reserve);
      SatsOrder(remote.dustLimit, reserve);
    } else {
      SatsOrder(reserve, o.pushAmount);
      SatsOrder(local.dustLimit, reserve);
      SatsOrder(remote.dustLimit, reserve);
    }
    BalanceIsPaid(f, local, false);
    BalanceIsPaid(f, remote, true);
  }
}
