/**
 What commitment transactions keep: no satoshi is lost, what is kept can be spent, sorting never throws,
 and neither the orientation nor the order of the HTLCs changes more than it should.
*/
module CommitmentLaws {
  import opened Common
  import opened CommitmentTx

  // ---------------------------------------------------------------------------
  // Conservation

  function EntrySats(es: seq<Entry>): nat {
    if es == [] then 0 else Sats(es[0].txout.value) + EntrySats(es[1..])
  }

  function OutputSats(outputs: seq<TxOut>): nat {
    if outputs == [] then 0 else Sats(outputs[0].value) + OutputSats(outputs[1..])
  }

  function HtlcSats(htlcs: seq<Htlc>): nat {
    if htlcs == [] then 0 else Sats(htlcs[0].value) + HtlcSats(htlcs[1..])
  }

  /** The satoshis of the HTLCs that get no output. */
  function TrimmedHtlcSats(t: Terms, reverse: bool, htlcs: seq<Htlc>): nat {
    if htlcs == [] then 0
    else (if Kept(t, reverse, htlcs[0]) then 0 else Sats(htlcs[0].value)) + TrimmedHtlcSats(t, reverse, htlcs[1..])
  }

  /** The satoshis of a balance that gets no output. */
  function TrimmedBalance(v: Value, dustLimit: Value): nat {
    if Sats(v) >= Sats(dustLimit) then 0 else Sats(v)
  }

  function Min(a: nat, b: nat): nat {
    if a < b then a else b
  }

  function FunderValue(t: Terms): Value {
    if t.isFunderLocal then t.localValue else t.remoteValue
  }

  lemma {:induction false} EntrySatsAppend(a: seq<Entry>, b: seq<Entry>)
    ensures EntrySats(a + b) == EntrySats(a) + EntrySats(b)
    decreases |a|
  {
    hide Sats;
    if a == [] {
      assert a + b == b;
    } else {
      assert (a + b)[1..] == a[1..] + b;
      EntrySatsAppend(a[1..], b);
    }
  }

  lemma EntrySatsOne(e: Entry)
    ensures EntrySats([e]) == Sats(e.txout.value)
  {
    assert EntrySats([e][1..]) == 0;
  }

  lemma {:induction false} InsertKeepsSats(es: seq<Entry>, e: Entry)
    ensures EntrySats(Insert(es, e)) == EntrySats(es) + Sats(e.txout.value)
    decreases |es|
  {
    hide Sats, KeyLe;
    EntrySatsOne(e);
    if es != [] {
      var n := |es| - 1;
      assert es == es[..n] + [es[n]];
      EntrySatsAppend(es[..n], [es[n]]);
      EntrySatsOne(es[n]);
      InsertKeepsSats(es[..n], e);
      EntrySatsAppend(es, [e]);
      EntrySatsAppend(Insert(es[..n], e), [es[n]]);
    }
  }

  lemma {:induction false} SortKeepsSats(es: seq<Entry>)
    ensures EntrySats(SortedOf(es)) == EntrySats(es)
    decreases |es|
  {
    hide Sats, Insert;
    if es != [] {
      var n := |es| - 1;
      assert es == es[..n] + [es[n]];
      EntrySatsAppend(es[..n], [es[n]]);
      EntrySatsOne(es[n]);
      SortKeepsSats(es[..n]);
      InsertKeepsSats(SortedOf(es[..n]), es[n]);
    }
  }

  lemma {:induction false} TxOutsSats(es: seq<Entry>)
    ensures OutputSats(TxOuts(es)) == EntrySats(es)
  {
    hide Sats;
    if es != [] {
      TxOutsSats(es[1..]);
      assert TxOuts(es)[1..] == TxOuts(es[1..]);
    }
  }

  lemma {:induction false} HtlcEntriesSats(f: Scripts, t: Terms, reverse: bool, htlcs: seq<Htlc>)
    ensures EntrySats(HtlcEntries(f, t, reverse, htlcs)) == HtlcSats(htlcs)
  {
    hide Sats;
    if htlcs != [] {
      HtlcEntriesSats(f, t, reverse, htlcs[1..]);
      assert HtlcEntries(f, t, reverse, htlcs)[1..] == HtlcEntries(f, t, reverse, htlcs[1..]);
    }
  }

  lemma {:induction false} KeptAndTrimmed(t: Terms, reverse: bool, htlcs: seq<Htlc>)
    ensures HtlcSats(KeptOf(t, reverse, htlcs)) + TrimmedHtlcSats(t, reverse, htlcs) == HtlcSats(htlcs)
  {
    hide Sats, Kept;
    if htlcs != [] {
      KeptAndTrimmed(t, reverse, htlcs[1..]);
      assert ([htlcs[0]] + KeptOf(t, reverse, htlcs[1..]))[1..] == KeptOf(t, reverse, htlcs[1..]);
    }
  }

  lemma {:induction false} BalanceSats(f: Scripts, t: Terms, fee: nat)
    ensures EntrySats(BalanceEntries(f, t, fee))
          + TrimmedBalance(LocalAfterFee(t, fee), t.dustLimit) + TrimmedBalance(RemoteAfterFee(t, fee), t.dustLimit)
         == Sats(LocalAfterFee(t, fee)) + Sats(RemoteAfterFee(t, fee))
  {
    hide Sats, LocalAfterFee, RemoteAfterFee;
    var a := BalanceEntry(LocalAfterFee(t, fee), t.dustLimit, f.toLocal(t.revocationPubKey, t.delayedPubKey, t.localDelay));
    var b := BalanceEntry(RemoteAfterFee(t, fee), t.dustLimit, f.toRemote(t.remotePubKey));
    EntrySatsAppend(a, b);
    if a != [] { EntrySatsOne(a[0]); }
    if b != [] { EntrySatsOne(b[0]); }
  }

  /**
   Every satoshi of the two balances and the HTLCs is in an output, trimmed as dust, or fee; the fee
   is the base fee unless the funder has less.
  */
  lemma {:induction false} Conservation(f: Scripts, t: Terms, reverse: bool, htlcs: seq<Htlc>)
    ensures var (tx, _) := Commitment(f, t, reverse, htlcs);
      var fee := BaseFee(|KeptOf(t, reverse, htlcs)|, t.feePerKw);
      OutputSats(tx.outputs) + TrimmedHtlcSats(t, reverse, htlcs)
      + TrimmedBalance(LocalAfterFee(t, fee), t.dustLimit) + TrimmedBalance(RemoteAfterFee(t, fee), t.dustLimit)
      + Min(fee, Sats(FunderValue(t)))
      == Sats(t.localValue) + Sats(t.remoteValue) + HtlcSats(htlcs)
  {
    hide KeptOf, HtlcEntries, SortedOf, Obscured, SequenceOf, LockTimeOf, BalanceEntries, BaseFee, Sats;
    var kept := KeptOf(t, reverse, htlcs);
    var fee := BaseFee(|kept|, t.feePerKw);
    var es := Entries(f, t, reverse, htlcs);
    TxOutsSats(SortedOf(es));
    SortKeepsSats(es);
    EntrySatsAppend(HtlcEntries(f, t, reverse, kept), BalanceEntries(f, t, fee));
    HtlcEntriesSats(f, t, reverse, kept);
    KeptAndTrimmed(t, reverse, htlcs);
    BalanceSats(f, t, fee);
    FeeTaken(FunderValue(t), fee);
  }

  lemma FeeTaken(v: Value, fee: nat)
    ensures Sats(Deducted(v, fee)) + Min(fee, Sats(v)) == Sats(v)
  {
  }

  // ---------------------------------------------------------------------------
  // Spending an HTLC output

  /** The amount of an HTLC-Timeout or HTLC-Success output: never negative. */
  function SecondStageSats(weight: nat, feePerKw: nat, value: Value): nat {
    var fees := weight * feePerKw / 1000;
    if fees > Sats(value) then 0 else Sats(value) - fees
  }

  /** `TxFactory.createHtlcTimeout` */
  function HtlcTimeout(f: Scripts, t: Terms, commitment: OutPoint, h: Htlc): Tx {
    Tx(2, commitment, 0, h.cltvExpiry,
       [TxOut(FromSats(SecondStageSats(TIMEOUT_WEIGHT, t.feePerKw, h.value)),
              f.toLocal(t.revocationPubKey, t.delayedPubKey, t.localDelay))])
  }

  /** `TxFactory.createHtlcSuccess` */
  function HtlcSuccess(f: Scripts, t: Terms, commitment: OutPoint, h: Htlc): Tx {
    Tx(2, commitment, 0, 0,
       [TxOut(FromSats(SecondStageSats(SUCCESS_WEIGHT, t.feePerKw, h.value)),
              f.toLocal(t.revocationPubKey, t.delayedPubKey, t.localDelay))])
  }

  /** The transaction the commitment's holder spends the HTLC output with. */
  function SecondStage(f: Scripts, t: Terms, reverse: bool, commitment: OutPoint, h: Htlc): Tx {
    if IsOfferedHere(reverse, h.direction) then HtlcTimeout(f, t, commitment, h) else HtlcSuccess(f, t, commitment, h)
  }

  /** An HTLC is kept exactly when spending it pays its whole fee and leaves at least the dust limit. */
  lemma {:induction false} KeptIffSpendable(f: Scripts, t: Terms, reverse: bool, commitment: OutPoint, h: Htlc)
    ensures var out := SecondStage(f, t, reverse, commitment, h).outputs[0];
      var fee := SpendFee(reverse, h.direction, t.feePerKw);
      Kept(t, reverse, h) <==> Sats(out.value) + fee == Sats(h.value) && Sats(out.value) >= Sats(t.dustLimit)
  {
    hide Sats;
  }

  // ---------------------------------------------------------------------------
  // The comparison never looks at an HTLC that is not there

  lemma {:induction false} HtlcEntriesShape(f: Scripts, t: Terms, reverse: bool, htlcs: seq<Htlc>)
    ensures |HtlcEntries(f, t, reverse, htlcs)| == |htlcs|
    ensures forall i :: 0 <= i < |htlcs| ==> HtlcEntries(f, t, reverse, htlcs)[i] == HtlcEntry(f, t, reverse, htlcs[i])
  {
    hide HtlcEntry;
    if htlcs != [] { HtlcEntriesShape(f, t, reverse, htlcs[1..]); }
  }

  lemma {:induction false} SortNeverThrows(f: Scripts, t: Terms, reverse: bool, htlcs: seq<Htlc>, i: nat, j: nat)
    requires KindsApart(f) && i < j < |Entries(f, t, reverse, htlcs)|
    ensures var es := Entries(f, t, reverse, htlcs); !TieWithoutHtlc(es[i], es[j]) && !TieWithoutHtlc(es[j], es[i])
  {
    hide KeptOf, BaseFee, Sats, LocalAfterFee, RemoteAfterFee;
    var kept := KeptOf(t, reverse, htlcs);
    HtlcEntriesShape(f, t, reverse, kept);
  }

  // ---------------------------------------------------------------------------
  // Seen from the other side

  function Flip(h: Htlc): Htlc {
    h.(direction := if h.direction == Offered then Accepted else Offered)
  }

  function FlipAll(htlcs: seq<Htlc>): (r: seq<Htlc>)
    ensures |r| == |htlcs|
  {
    if htlcs == [] then [] else [Flip(htlcs[0])] + FlipAll(htlcs[1..])
  }

  function FlipEntry(e: Entry): Entry {
    e.(htlc := if e.htlc.Some? then Some(Flip(e.htlc.value)) else None)
  }

  function FlipEntries(es: seq<Entry>): (r: seq<Entry>)
    ensures |r| == |es|
  {
    seq(|es|, i requires 0 <= i < |es| => FlipEntry(es[i]))
  }

  lemma {:induction false} KeptFlips(t: Terms, htlcs: seq<Htlc>)
    ensures KeptOf(t, false, FlipAll(htlcs)) == FlipAll(KeptOf(t, true, htlcs))
  {
    hide Sats;
    if htlcs != [] {
      KeptFlips(t, htlcs[1..]);
      assert FlipAll(htlcs)[1..] == FlipAll(htlcs[1..]);
      assert Kept(t, false, Flip(htlcs[0])) == Kept(t, true, htlcs[0]);
      assert FlipAll([htlcs[0]] + KeptOf(t, true, htlcs[1..])) == [Flip(htlcs[0])] + FlipAll(KeptOf(t, true, htlcs[1..])) by {
        assert ([htlcs[0]] + KeptOf(t, true, htlcs[1..]))[1..] == KeptOf(t, true, htlcs[1..]);
      }
    }
  }

  lemma {:induction false} EntriesFlip(f: Scripts, t: Terms, htlcs: seq<Htlc>)
    ensures HtlcEntries(f, t, false, FlipAll(htlcs)) == FlipEntries(HtlcEntries(f, t, true, htlcs))
  {
    if htlcs != [] {
      EntriesFlip(f, t, htlcs[1..]);
      assert FlipAll(htlcs)[1..] == FlipAll(htlcs[1..]);
      assert HtlcEntry(f, t, false, Flip(htlcs[0])) == FlipEntry(HtlcEntry(f, t, true, htlcs[0]));
    }
  }

  /** Sorting does not look at directions. */
  lemma {:induction false} InsertFlips(es: seq<Entry>, e: Entry)
    ensures Insert(FlipEntries(es), FlipEntry(e)) == FlipEntries(Insert(es, e))
    decreases |es|
  {
    hide KeyLe;
    if es != [] {
      var n := |es| - 1;
      assert FlipEntries(es)[..n] == FlipEntries(es[..n]);
      assert KeyOf(FlipEntry(es[n])) == KeyOf(es[n]) && KeyOf(FlipEntry(e)) == KeyOf(e);
      InsertFlips(es[..n], e);
    }
  }

  lemma {:induction false} SortFlips(es: seq<Entry>)
    ensures SortedOf(FlipEntries(es)) == FlipEntries(SortedOf(es))
    decreases |es|
  {
    hide Insert;
    if es != [] {
      var n := |es| - 1;
      assert FlipEntries(es)[..n] == FlipEntries(es[..n]);
      SortFlips(es[..n]);
      InsertFlips(SortedOf(es[..n]), es[n]);
    }
  }

  lemma {:induction false} OutputsOfFlipped(es: seq<Entry>)
    ensures TxOuts(FlipEntries(es)) == TxOuts(es)
  {
    if es != [] {
      assert FlipEntries(es)[1..] == FlipEntries(es[1..]);
      OutputsOfFlipped(es[1..]);
    }
  }

  lemma {:induction false} HtlcsOfFlipped(es: seq<Entry>)
    ensures HtlcsOf(FlipEntries(es)) == FlipAll(HtlcsOf(es))
  {
    if es != [] {
      assert FlipEntries(es)[1..] == FlipEntries(es[1..]);
      HtlcsOfFlipped(es[1..]);
      if es[0].htlc.Some? {
        assert ([es[0].htlc.value] + HtlcsOf(es[1..]))[1..] == HtlcsOf(es[1..]);
      }
    }
  }

  /** Building the counterparty's commitment is building one's own with every direction flipped. */
  lemma {:induction false} ReverseIsFlip(f: Scripts, t: Terms, htlcs: seq<Htlc>)
    ensures var (tx, sorted) := Commitment(f, t, true, htlcs);
      Commitment(f, t, false, FlipAll(htlcs)) == (tx, FlipAll(sorted))
  {
    hide KeptOf, HtlcEntries, SortedOf, TxOuts, HtlcsOf, BaseFee, BalanceEntries, Obscured, SequenceOf, LockTimeOf;
    var kept := KeptOf(t, true, htlcs);
    var es := Entries(f, t, true, htlcs);
    KeptFlips(t, htlcs);
    EntriesFlip(f, t, kept);
    BalancesHaveNoHtlc(f, t, BaseFee(|kept|, t.feePerKw));
    assert Entries(f, t, false, FlipAll(htlcs)) == FlipEntries(es);
    SortFlips(es);
    OutputsOfFlipped(SortedOf(es));
    HtlcsOfFlipped(SortedOf(es));
  }

  lemma BalancesHaveNoHtlc(f: Scripts, t: Terms, fee: nat)
    ensures FlipEntries(BalanceEntries(f, t, fee)) == BalanceEntries(f, t, fee)
  {
  }

  // ---------------------------------------------------------------------------
  // Any order of the HTLCs

  /** The outputs of the kept HTLCs, as a multiset. */
  ghost function KeptEntries(f: Scripts, t: Terms, reverse: bool, htlcs: seq<Htlc>): multiset<Entry> {
    multiset(HtlcEntries(f, t, reverse, KeptOf(t, reverse, htlcs)))
  }

  lemma {:induction false} KeptEntriesAppend(f: Scripts, t: Terms, reverse: bool, a: seq<Htlc>, b: seq<Htlc>)
    ensures KeptEntries(f, t, reverse, a + b) == KeptEntries(f, t, reverse, a) + KeptEntries(f, t, reverse, b)
    ensures |KeptOf(t, reverse, a + b)| == |KeptOf(t, reverse, a)| + |KeptOf(t, reverse, b)|
  {
    hide Kept, HtlcEntry, KeptOf, HtlcEntries;
    KeptAppend(t, reverse, a, b);
    HtlcEntriesAppend(f, t, reverse, KeptOf(t, reverse, a), KeptOf(t, reverse, b));
  }

  /** The outputs of an HTLC list, one HTLC taken out. */
  lemma {:induction false} KeptEntriesTakeOut(f: Scripts, t: Terms, reverse: bool, b: seq<Htlc>, i: nat)
    requires i < |b|
    ensures KeptEntries(f, t, reverse, b)
         == KeptEntries(f, t, reverse, [b[i]]) + KeptEntries(f, t, reverse, b[..i] + b[i + 1..])
    ensures |KeptOf(t, reverse, b)| == |KeptOf(t, reverse, [b[i]])| + |KeptOf(t, reverse, b[..i] + b[i + 1..])|
  {
    hide KeptEntries, KeptOf;
    assert b == b[..i] + ([b[i]] + b[i + 1..]);
    KeptEntriesAppend(f, t, reverse, b[..i], [b[i]] + b[i + 1..]);
    KeptEntriesAppend(f, t, reverse, [b[i]], b[i + 1..]);
    KeptEntriesAppend(f, t, reverse, b[..i], b[i + 1..]);
  }

  lemma {:induction false} KeptEntriesOfPermutation(f: Scripts, t: Terms, reverse: bool, a: seq<Htlc>, b: seq<Htlc>)
    requires multiset(a) == multiset(b)
    ensures KeptEntries(f, t, reverse, a) == KeptEntries(f, t, reverse, b)
    ensures |KeptOf(t, reverse, a)| == |KeptOf(t, reverse, b)|
    decreases |a|
  {
    hide KeptEntries, KeptOf;
    assert |multiset(a)| == |multiset(b)|;
    if a == [] {
      assert b == [];
    } else {
      var i := TakeOutFirst(a, b);
      KeptEntriesOfPermutation(f, t, reverse, a[1..], b[..i] + b[i + 1..]);
      KeptEntriesTakeOut(f, t, reverse, a, 0);
      KeptEntriesTakeOut(f, t, reverse, b, i);
      assert a[..0] + a[1..] == a[1..];
    }
  }

  /** Amount and script of an output, as serialised. */
  datatype WireOut = WireOut(sats: nat, script: Bytes)

  datatype WireTx = WireTx(version: nat, input: OutPoint, sequence: nat, locktime: nat, outputs: seq<WireOut>)

  function Wire(tx: Tx): WireTx {
    WireTx(tx.version, tx.input, tx.sequence, tx.locktime,
           seq(|tx.outputs|, i requires 0 <= i < |tx.outputs| => WireOut(Sats(tx.outputs[i].value), tx.outputs[i].script)))
  }

  lemma {:induction false} TxOutsShape(es: seq<Entry>)
    ensures |TxOuts(es)| == |es| && forall i :: 0 <= i < |es| ==> TxOuts(es)[i] == es[i].txout
  {
    if es != [] { TxOutsShape(es[1..]); }
  }

  /** What is serialised, and the expiry each output stands with, do not depend on the order of the HTLCs. */
  lemma {:induction false} OrderDoesNotMatter(f: Scripts, t: Terms, reverse: bool, a: seq<Htlc>, b: seq<Htlc>)
    requires multiset(a) == multiset(b)
    ensures Wire(Commitment(f, t, reverse, a).0) == Wire(Commitment(f, t, reverse, b).0)
    ensures Keys(SortedOf(Entries(f, t, reverse, a))) == Keys(SortedOf(Entries(f, t, reverse, b)))
  {
    hide KeptOf, HtlcEntries, SortedOf, TxOuts, HtlcsOf, BaseFee, BalanceEntries, Obscured, SequenceOf, LockTimeOf, Sats;
    var ea, eb := Entries(f, t, reverse, a), Entries(f, t, reverse, b);
    KeptEntriesOfPermutation(f, t, reverse, a, b);
    KeysOfPermutation(ea, eb);
    SortingForgetsOrder(ea, eb);
    TxOutsShape(SortedOf(ea));
    TxOutsShape(SortedOf(eb));
    SameKeysSameWire(SortedOf(ea), SortedOf(eb));
  }

  lemma {:induction false} SameKeysSameWire(a: seq<Entry>, b: seq<Entry>)
    requires Keys(a) == Keys(b)
    ensures |a| == |b|
    ensures forall i :: 0 <= i < |a| ==>
      Sats(a[i].txout.value) == Sats(b[i].txout.value) && a[i].txout.script == b[i].txout.script
  {
    hide Sats;
    assert |a| == |Keys(a)| == |b|;
    forall i | 0 <= i < |a|
      ensures Sats(a[i].txout.value) == Sats(b[i].txout.value) && a[i].txout.script == b[i].txout.script
    {
      assert Keys(a)[i] == Keys(b)[i];
    }
  }
}
