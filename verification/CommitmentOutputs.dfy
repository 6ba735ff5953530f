/**
 What a commitment transaction says, in the terms of BOLT #3: which outputs it has and with which
 scripts, in which order they stand, and where the commitment number is.
*/
module CommitmentOutputs {
  import opened Common
  import opened Bits
  import opened CommitmentTx
  import opened CommitmentLaws

  // ---------------------------------------------------------------------------
  // The outputs

  /**
   The holder of the commitment offered the HTLC; on the counterparty's commitment directions are seen from
   the other side.
  */
  predicate OfferedByHolder(reverse: bool, h: Htlc) {
    (h.direction == Offered) != reverse
  }

  /** Its second stage, of weight 663 for a timeout and 703 for a success, leaves the dust limit. */
  predicate Worth(t: Terms, reverse: bool, h: Htlc) {
    var weight := if OfferedByHolder(reverse, h) then 663 else 703;
    Sats(h.value) as int - weight * t.feePerKw / 1000 >= Sats(t.dustLimit)
  }

  function Worthy(t: Terms, reverse: bool, htlcs: seq<Htlc>): seq<Htlc> {
    if htlcs == [] then []
    else if Worth(t, reverse, htlcs[0]) then [htlcs[0]] + Worthy(t, reverse, htlcs[1..])
    else Worthy(t, reverse, htlcs[1..])
  }

  /** The whole value, to the script of what the holder offered or of what the holder was offered. */
  function HtlcOut(f: Scripts, t: Terms, reverse: bool, h: Htlc): TxOut {
    if OfferedByHolder(reverse, h)
    then TxOut(h.value, f.offeredHtlc(h.paymentHash, t.revocationPubKey, t.localHtlcPubKey, t.remoteHtlcPubKey))
    else TxOut(h.value, f.receivedHtlc(h.paymentHash, h.cltvExpiry, t.revocationPubKey,
                                       t.localHtlcPubKey, t.remoteHtlcPubKey))
  }

  function HtlcOuts(f: Scripts, t: Terms, reverse: bool, htlcs: seq<Htlc>): (outs: seq<TxOut>)
    ensures |outs| == |htlcs| && forall i :: 0 <= i < |htlcs| ==> outs[i] == HtlcOut(f, t, reverse, htlcs[i])
  {
    seq(|htlcs|, i requires 0 <= i < |htlcs| => HtlcOut(f, t, reverse, htlcs[i]))
  }

  /** A funder pays the fee, in whole satoshis and not beyond its balance. */
  function Balance(v: Value, funds: bool, fee: nat): Value {
    if !funds then v else FromSats(if Sats(v) <= fee then 0 else Sats(v) - fee)
  }

  function Fee(t: Terms, outputs: nat): nat {
    (724 + 172 * outputs) * t.feePerKw / 1000
  }

  function HolderBalance(t: Terms, fee: nat): Value {
    Balance(t.localValue, t.isFunderLocal, fee)
  }

  function OtherBalance(t: Terms, fee: nat): Value {
    Balance(t.remoteValue, !t.isFunderLocal, fee)
  }

  function ToLocal(f: Scripts, t: Terms): Bytes {
    f.toLocal(t.revocationPubKey, t.delayedPubKey, t.localDelay)
  }

  ghost function Unless(dust: Value, out: TxOut): multiset<TxOut> {
    if Sats(out.value) < Sats(dust) then multiset{} else multiset{out}
  }

  lemma {:induction false} KeptIsWorthy(t: Terms, reverse: bool, htlcs: seq<Htlc>)
    ensures KeptOf(t, reverse, htlcs) == Worthy(t, reverse, htlcs)
  {
    hide Sats;
    if htlcs != [] {
      KeptIsWorthy(t, reverse, htlcs[1..]);
    }
  }

  lemma {:induction false} TxOutsOfEntries(f: Scripts, t: Terms, reverse: bool, htlcs: seq<Htlc>)
    ensures TxOuts(HtlcEntries(f, t, reverse, htlcs)) == HtlcOuts(f, t, reverse, htlcs)
  {
    if htlcs != [] {
      TxOutsOfEntries(f, t, reverse, htlcs[1..]);
      assert HtlcEntries(f, t, reverse, htlcs)[1..] == HtlcEntries(f, t, reverse, htlcs[1..]);
    }
  }

  lemma {:induction false} InsertKeepsTxOuts(es: seq<Entry>, e: Entry)
    ensures multiset(TxOuts(Insert(es, e))) == multiset(TxOuts(es)) + multiset{e.txout}
    decreases |es|
  {
    hide KeyLe;
    OneTxOut(e);
    TxOutsAppend(es, [e]);
    if es != [] {
      var n := |es| - 1;
      assert es == es[..n] + [es[n]];
      InsertKeepsTxOuts(es[..n], e);
      OneTxOut(es[n]);
      TxOutsAppend(es[..n], [es[n]]);
      TxOutsAppend(Insert(es[..n], e), [es[n]]);
    }
  }

  lemma {:induction false} OneTxOut(e: Entry)
    ensures TxOuts([e]) == [e.txout]
  {
    assert TxOuts([e][1..]) == [];
  }

  lemma {:induction false} SortKeepsTxOuts(es: seq<Entry>)
    ensures multiset(TxOuts(SortedOf(es))) == multiset(TxOuts(es))
    decreases |es|
  {
    hide Insert, KeyLe;
    if es != [] {
      var n := |es| - 1;
      assert es == es[..n] + [es[n]];
      SortKeepsTxOuts(es[..n]);
      InsertKeepsTxOuts(SortedOf(es[..n]), es[n]);
      OneTxOut(es[n]);
      TxOutsAppend(es[..n], [es[n]]);
    }
  }

  lemma {:induction false} BalanceIsDeducted(v: Value, funds: bool, fee: nat)
    ensures Balance(v, funds, fee) == if funds then Deducted(v, fee) else v
  {
  }

  lemma {:induction false} BalanceTxOut(v: Value, dust: Value, script: Bytes)
    ensures multiset(TxOuts(BalanceEntry(v, dust, script))) == Unless(dust, TxOut(v, script))
  {
    hide Sats;
    OneTxOut(Entry(TxOut(v, script), None));
  }

  lemma {:induction false} BalanceTxOuts(f: Scripts, t: Terms, fee: nat)
    ensures multiset(TxOuts(BalanceEntries(f, t, fee))) ==
            Unless(t.dustLimit, TxOut(HolderBalance(t, fee), ToLocal(f, t)))
            + Unless(t.dustLimit, TxOut(OtherBalance(t, fee), f.toRemote(t.remotePubKey)))
  {
    hide Sats, Balance, Deducted, Unless, TxOuts, BalanceEntry;
    BalanceIsDeducted(t.localValue, t.isFunderLocal, fee);
    BalanceIsDeducted(t.remoteValue, !t.isFunderLocal, fee);
    TxOutsAppend(BalanceEntry(LocalAfterFee(t, fee), t.dustLimit, ToLocal(f, t)),
                 BalanceEntry(RemoteAfterFee(t, fee), t.dustLimit, f.toRemote(t.remotePubKey)));
    BalanceTxOut(LocalAfterFee(t, fee), t.dustLimit, ToLocal(f, t));
    BalanceTxOut(RemoteAfterFee(t, fee), t.dustLimit, f.toRemote(t.remotePubKey));
  }

  /**
   The outputs, each as often as it stands there: one for every HTLC that is worth it, and the balances that
   are not dust.
  */
  lemma {:induction false} OutputsAre(f: Scripts, t: Terms, reverse: bool, htlcs: seq<Htlc>)
    ensures var worthy := Worthy(t, reverse, htlcs);
            var fee := Fee(t, |worthy|);
            multiset(Commitment(f, t, reverse, htlcs).0.outputs) ==
            multiset(HtlcOuts(f, t, reverse, worthy))
            + Unless(t.dustLimit, TxOut(HolderBalance(t, fee), ToLocal(f, t)))
            + Unless(t.dustLimit, TxOut(OtherBalance(t, fee), f.toRemote(t.remotePubKey)))
  {
    var kept := KeptOf(t, reverse, htlcs);
    KeptIsWorthy(t, reverse, htlcs);
    var fee := Fee(t, |kept|);
    assert fee == BaseFee(|kept|, t.feePerKw);
    hide KeptOf, Worthy, HtlcEntries, BalanceEntries, SortedOf, TxOuts, HtlcOuts, Unless, BaseFee, Fee;
    hide Obscured, SequenceOf, LockTimeOf, HtlcsOf;
    SortKeepsTxOuts(Entries(f, t, reverse, htlcs));
    TxOutsAppend(HtlcEntries(f, t, reverse, kept), BalanceEntries(f, t, fee));
    TxOutsOfEntries(f, t, reverse, kept);
    BalanceTxOuts(f, t, fee);
  }

  /**
   Where scripts of different kinds differ: the holder is paid to the delayed script, and the counterparty
   to its key, if and only if the balance after the fee is no dust, and then exactly that; any other output
   is that of an HTLC which is worth it.
  */
  lemma {:induction false} BalancesPaidIff(f: Scripts, t: Terms, reverse: bool, htlcs: seq<Htlc>)
    requires KindsApart(f)
    ensures var outs := Commitment(f, t, reverse, htlcs).0.outputs;
            var worthy := Worthy(t, reverse, htlcs);
            var fee := Fee(t, |worthy|);
            var toLocal, toRemote := ToLocal(f, t), f.toRemote(t.remotePubKey);
            && ((exists o :: o in outs && o.script == toLocal) <==> Sats(HolderBalance(t, fee)) >= Sats(t.dustLimit))
            && (forall o :: o in outs && o.script == toLocal ==> o.value == HolderBalance(t, fee))
            && ((exists o :: o in outs && o.script == toRemote) <==> Sats(OtherBalance(t, fee)) >= Sats(t.dustLimit))
            && (forall o :: o in outs && o.script == toRemote ==> o.value == OtherBalance(t, fee))
            && (forall o :: o in outs && o.script != toLocal && o.script != toRemote ==>
                  exists h :: h in worthy && o == HtlcOut(f, t, reverse, h))
            && (forall h :: h in worthy ==> HtlcOut(f, t, reverse, h) in outs)
  {
    var outs := Commitment(f, t, reverse, htlcs).0.outputs;
    var worthy := Worthy(t, reverse, htlcs);
    var fee := Fee(t, |worthy|);
    var local := TxOut(HolderBalance(t, fee), ToLocal(f, t));
    var remote := TxOut(OtherBalance(t, fee), f.toRemote(t.remotePubKey));
    OutputsAre(f, t, reverse, htlcs);
    ScriptsApart(f, t, reverse, worthy);
    hide Commitment, Worthy, Fee, Sats, HolderBalance, OtherBalance, HtlcOut, ToLocal, KindsApart, HtlcOuts, Unless;
    PaidIff(outs, HtlcOuts(f, t, reverse, worthy), t.dustLimit, local, remote);
    forall h | h in worthy ensures HtlcOut(f, t, reverse, h) in outs {
      var i :| 0 <= i < |worthy| && worthy[i] == h;
      assert HtlcOuts(f, t, reverse, worthy)[i] == HtlcOut(f, t, reverse, h);
    }
  }

  lemma {:induction false} PaidIff(outs: seq<TxOut>, hs: seq<TxOut>, dust: Value, a: TxOut, b: TxOut)
    requires multiset(outs) == multiset(hs) + Unless(dust, a) + Unless(dust, b)
    requires a.script != b.script && forall o :: o in hs ==> o.script != a.script && o.script != b.script
    ensures (exists o :: o in outs && o.script == a.script) <==> Sats(a.value) >= Sats(dust)
    ensures forall o :: o in outs && o.script == a.script ==> o.value == a.value
    ensures (exists o :: o in outs && o.script == b.script) <==> Sats(b.value) >= Sats(dust)
    ensures forall o :: o in outs && o.script == b.script ==> o.value == b.value
    ensures forall o :: o in outs && o.script != a.script && o.script != b.script ==> o in hs
    ensures forall o :: o in hs ==> o in outs
  {
    hide Sats, Unless;
    Members(outs, hs, dust, a, b);
    assert a in outs ==> exists o :: o in outs && o.script == a.script;
    assert b in outs ==> exists o :: o in outs && o.script == b.script;
  }

  lemma {:induction false} ScriptsApart(f: Scripts, t: Terms, reverse: bool, htlcs: seq<Htlc>)
    requires KindsApart(f)
    ensures ToLocal(f, t) != f.toRemote(t.remotePubKey)
    ensures forall o :: o in HtlcOuts(f, t, reverse, htlcs) ==>
      o.script != ToLocal(f, t) && o.script != f.toRemote(t.remotePubKey)
    ensures forall o :: o in HtlcOuts(f, t, reverse, htlcs) ==> exists h :: h in htlcs && o == HtlcOut(f, t, reverse, h)
  {
    forall o | o in HtlcOuts(f, t, reverse, htlcs)
      ensures o.script != ToLocal(f, t) && o.script != f.toRemote(t.remotePubKey)
      ensures exists h :: h in htlcs && o == HtlcOut(f, t, reverse, h)
    {
      var i :| 0 <= i < |htlcs| && o == HtlcOut(f, t, reverse, htlcs[i]);
    }
  }

  lemma {:induction false} Members(outs: seq<TxOut>, hs: seq<TxOut>, dust: Value, a: TxOut, b: TxOut)
    requires multiset(outs) == multiset(hs) + Unless(dust, a) + Unless(dust, b)
    ensures forall o :: o in outs <==>
      o in hs || (o == a && Sats(a.value) >= Sats(dust)) || (o == b && Sats(b.value) >= Sats(dust))
  {
    hide Sats;
    forall o
      ensures o in outs <==> o in hs || (o == a && Sats(a.value) >= Sats(dust)) || (o == b && Sats(b.value) >= Sats(dust))
    {
      assert o in outs <==> o in multiset(outs);
      assert o in hs <==> o in multiset(hs);
    }
  }

  // ---------------------------------------------------------------------------
  // The order of outputs

  /** The first byte that differs is lower, or there is none in a. */
  ghost predicate Precedes(a: Bytes, b: Bytes) {
    exists n :: 0 <= n <= |a| && n <= |b| && a[..n] == b[..n] && (n == |a| || (n < |b| && a[n] < b[n]))
  }

  lemma {:induction false} LePrecedes(a: Bytes, b: Bytes)
    requires BytesLe(a, b)
    ensures Precedes(a, b)
    decreases |a|
  {
    if a == [] || a[0] < b[0] {
      assert a[..0] == b[..0];
    } else {
      LePrecedes(a[1..], b[1..]);
      var n :| 0 <= n <= |a| - 1 && n <= |b| - 1 && a[1..][..n] == b[1..][..n]
               && (n == |a| - 1 || (n < |b| - 1 && a[1..][n] < b[1..][n]));
      assert a[..n + 1] == [a[0]] + a[1..][..n] && b[..n + 1] == [b[0]] + b[1..][..n];
    }
  }

  /** By satoshis, then by script; outputs of HTLCs that agree in both stand by expiry. */
  lemma {:induction false} OutputsInOrder(f: Scripts, t: Terms, reverse: bool, htlcs: seq<Htlc>, i: nat, j: nat)
    requires i < j < |Commitment(f, t, reverse, htlcs).0.outputs|
    ensures var a, b := Commitment(f, t, reverse, htlcs).0.outputs[i], Commitment(f, t, reverse, htlcs).0.outputs[j];
            Sats(a.value) < Sats(b.value) || (Sats(a.value) == Sats(b.value) && Precedes(a.script, b.script))
  {
    var es := SortedOf(Entries(f, t, reverse, htlcs));
    SortSorts(Entries(f, t, reverse, htlcs));
    TxOutsShape(es);
    hide Entries, SortedOf, TxOuts, BytesLe, Precedes, Sats;
    assert KeyLe(KeyOf(es[i]), KeyOf(es[j]));
    if es[i].txout.script == es[j].txout.script {
      PrecedesItself(es[i].txout.script);
    } else if Sats(es[i].txout.value) == Sats(es[j].txout.value) {
      LePrecedes(es[i].txout.script, es[j].txout.script);
    }
  }

  lemma {:induction false} PrecedesItself(a: Bytes)
    ensures Precedes(a, a)
  {
    assert a[..|a|] == a[..|a|];
  }

  /** Where the entries with an HTLC stand. */
  predicate ArePlaces(places: seq<nat>, es: seq<Entry>, htlcs: seq<Htlc>) {
    && |places| == |htlcs|
    && (forall i :: 0 <= i < |places| ==> places[i] < |es| && es[places[i]].htlc == Some(htlcs[i]))
    && (forall i, j :: 0 <= i < j < |places| ==> places[i] < places[j])
  }

  lemma {:induction false} HtlcPlaces(es: seq<Entry>) returns (places: seq<nat>)
    ensures ArePlaces(places, es, HtlcsOf(es))
    decreases |es|
  {
    hide ArePlaces, HtlcsOf;
    NoHtlcs();
    if es == [] {
      NoPlaces();
      return [];
    }
    var n := |es| - 1;
    var before := HtlcPlaces(es[..n]);
    assert es == es[..n] + [es[n]];
    HtlcsOfAppend(es[..n], [es[n]]);
    OneHtlc(es[n]);
    places := if es[n].htlc.Some? then before + [n] else before;
    MorePlaces(before, es, HtlcsOf(es[..n]));
  }

  lemma {:induction false} NoPlaces()
    ensures ArePlaces([], [], [])
  {
  }

  lemma {:induction false} MorePlaces(before: seq<nat>, es: seq<Entry>, htlcs: seq<Htlc>)
    requires es != [] && ArePlaces(before, es[..|es| - 1], htlcs)
    ensures var n := |es| - 1;
            if es[n].htlc.Some? then ArePlaces(before + [n], es, htlcs + [es[n].htlc.value])
            else ArePlaces(before, es, htlcs + [])
  {
    assert forall i :: 0 <= i < |before| ==> es[..|es| - 1][before[i]] == es[before[i]];
    assert htlcs + [] == htlcs;
  }

  /**
   The list of HTLCs that goes with the outputs: the i-th is that of an output, later ones of later
   outputs, and where two outputs look the same the one that expires first comes first.
  */
  lemma {:induction false} HtlcsFollowOutputs(f: Scripts, t: Terms, reverse: bool, htlcs: seq<Htlc>)
    returns (places: seq<nat>)
    ensures var (tx, sorted) := Commitment(f, t, reverse, htlcs);
            && multiset(sorted) == multiset(Worthy(t, reverse, htlcs))
            && |places| == |sorted|
            && (forall i :: 0 <= i < |sorted| ==>
                  places[i] < |tx.outputs| && tx.outputs[places[i]] == HtlcOut(f, t, reverse, sorted[i]))
            && (forall i, j :: 0 <= i < j < |sorted| ==> places[i] < places[j])
            && (forall i, j :: 0 <= i < j < |sorted| && Sats(sorted[i].value) == Sats(sorted[j].value)
                  && HtlcOut(f, t, reverse, sorted[i]).script == HtlcOut(f, t, reverse, sorted[j]).script
                  ==> sorted[i].cltvExpiry <= sorted[j].cltvExpiry)
  {
    var entries := Entries(f, t, reverse, htlcs);
    var es := SortedOf(entries);
    SortSorts(entries);
    SortKeepsHtlcs(entries);
    HtlcsOfAll(f, t, reverse, htlcs);
    EntriesMatch(f, t, reverse, htlcs);
    TxOutsShape(es);
    places := HtlcPlaces(es);
    assert ArePlaces(places, es, HtlcsOf(es));
    hide Entries, SortedOf, TxOuts, BytesLe, Sats, HtlcsOf, HtlcOut, Worthy;
    forall e | e in es ensures e in entries {
      assert e in multiset(es);
    }
    hide KeyLe, KeyOf, Sorted;
    PlacesOrdered(f, t, reverse, es, HtlcsOf(es), places);
  }

  lemma {:induction false} PlacesOrdered(
    f: Scripts, t: Terms, reverse: bool, es: seq<Entry>, htlcs: seq<Htlc>, places: seq<nat>)
    requires ArePlaces(places, es, htlcs) && Sorted(es)
    requires forall e :: e in es && e.htlc.Some? ==> e.txout == HtlcOut(f, t, reverse, e.htlc.value)
    ensures forall i :: 0 <= i < |htlcs| ==> es[places[i]].txout == HtlcOut(f, t, reverse, htlcs[i])
    ensures forall i, j :: 0 <= i < j < |htlcs| && Sats(htlcs[i].value) == Sats(htlcs[j].value)
              && HtlcOut(f, t, reverse, htlcs[i]).script == HtlcOut(f, t, reverse, htlcs[j]).script
              ==> htlcs[i].cltvExpiry <= htlcs[j].cltvExpiry
  {
    hide Sats, BytesLe;
    forall i | 0 <= i < |htlcs| ensures es[places[i]].txout == HtlcOut(f, t, reverse, htlcs[i]) {
      assert es[places[i]] in es;
    }
    forall i, j | 0 <= i < j < |htlcs| && Sats(htlcs[i].value) == Sats(htlcs[j].value)
                  && HtlcOut(f, t, reverse, htlcs[i]).script == HtlcOut(f, t, reverse, htlcs[j]).script
      ensures htlcs[i].cltvExpiry <= htlcs[j].cltvExpiry
    {
      assert KeyLe(KeyOf(es[places[i]]), KeyOf(es[places[j]]));
    }
  }

  lemma {:induction false} OneHtlc(e: Entry)
    ensures HtlcsOf([e]) == if e.htlc.Some? then [e.htlc.value] else []
  {
    assert HtlcsOf([e][1..]) == [];
  }

  lemma {:induction false} InsertKeepsHtlcs(es: seq<Entry>, e: Entry)
    ensures multiset(HtlcsOf(Insert(es, e))) == multiset(HtlcsOf(es)) + multiset(HtlcsOf([e]))
    decreases |es|
  {
    hide KeyLe, HtlcsOf;
    HtlcsOfAppend(es, [e]);
    if es != [] {
      var n := |es| - 1;
      assert es == es[..n] + [es[n]];
      InsertKeepsHtlcs(es[..n], e);
      HtlcsOfAppend(es[..n], [es[n]]);
      HtlcsOfAppend(Insert(es[..n], e), [es[n]]);
    } else {
      assert HtlcsOf([]) == [] by { NoHtlcs(); }
    }
  }

  lemma NoHtlcs()
    ensures HtlcsOf([]) == []
  {
  }

  lemma {:induction false} SortKeepsHtlcs(es: seq<Entry>)
    ensures multiset(HtlcsOf(SortedOf(es))) == multiset(HtlcsOf(es))
    decreases |es|
  {
    hide Insert, KeyLe, HtlcsOf;
    if es != [] {
      var n := |es| - 1;
      assert es == es[..n] + [es[n]];
      SortKeepsHtlcs(es[..n]);
      InsertKeepsHtlcs(SortedOf(es[..n]), es[n]);
      HtlcsOfAppend(es[..n], [es[n]]);
    }
  }

  lemma {:induction false} HtlcsOfEntries(f: Scripts, t: Terms, reverse: bool, htlcs: seq<Htlc>)
    ensures HtlcsOf(HtlcEntries(f, t, reverse, htlcs)) == htlcs
  {
    if htlcs != [] {
      HtlcsOfEntries(f, t, reverse, htlcs[1..]);
      assert htlcs == [htlcs[0]] + htlcs[1..];
      assert HtlcEntries(f, t, reverse, htlcs)[1..] == HtlcEntries(f, t, reverse, htlcs[1..]);
    }
  }

  lemma {:induction false} HtlcsOfBalances(f: Scripts, t: Terms, fee: nat)
    ensures HtlcsOf(BalanceEntries(f, t, fee)) == []
  {
    hide Sats, HtlcsOf;
    var a := BalanceEntry(LocalAfterFee(t, fee), t.dustLimit, ToLocal(f, t));
    var b := BalanceEntry(RemoteAfterFee(t, fee), t.dustLimit, f.toRemote(t.remotePubKey));
    HtlcsOfAppend(a, b);
    NoHtlcs();
    if a != [] { OneHtlc(a[0]); }
    if b != [] { OneHtlc(b[0]); }
  }

  lemma {:induction false} HtlcsOfAll(f: Scripts, t: Terms, reverse: bool, htlcs: seq<Htlc>)
    ensures HtlcsOf(Entries(f, t, reverse, htlcs)) == Worthy(t, reverse, htlcs)
  {
    hide KeptOf, Worthy, HtlcEntries, BalanceEntries, BaseFee, HtlcsOf;
    var kept := KeptOf(t, reverse, htlcs);
    KeptIsWorthy(t, reverse, htlcs);
    HtlcsOfAppend(HtlcEntries(f, t, reverse, kept), BalanceEntries(f, t, BaseFee(|kept|, t.feePerKw)));
    HtlcsOfEntries(f, t, reverse, kept);
    HtlcsOfBalances(f, t, BaseFee(|kept|, t.feePerKw));
    assert kept + [] == kept;
  }

  lemma {:induction false} EntriesMatch(f: Scripts, t: Terms, reverse: bool, htlcs: seq<Htlc>)
    ensures forall e :: e in Entries(f, t, reverse, htlcs) && e.htlc.Some? ==>
      e.txout == HtlcOut(f, t, reverse, e.htlc.value)
  {
    hide KeptOf, HtlcEntries, BaseFee, Sats, LocalAfterFee, RemoteAfterFee;
    var kept := KeptOf(t, reverse, htlcs);
    HtlcEntriesShape(f, t, reverse, kept);
  }

  // ---------------------------------------------------------------------------
  // Where the commitment number is

  /** Version 2, the funding output, and the obscured number in the low three bytes of sequence and lock time. */
  lemma {:induction false} FieldsAre(f: Scripts, t: Terms, reverse: bool, htlcs: seq<Htlc>)
    requires t.commitmentNumber < Pow2(48) && t.obscuringHash < Pow2(48)
    ensures var tx := Commitment(f, t, reverse, htlcs).0;
            && tx.version == 2 && tx.input == t.fundingOutPoint
            && Shr(tx.locktime, 24) == 0x20 && Shr(tx.sequence, 24) == 0x80
            && Low(tx.locktime, 24) == Xor(Low(t.obscuringHash, 24), Low(t.commitmentNumber, 24))
            && Low(tx.sequence, 24) == Xor(Shr(t.obscuringHash, 24), Shr(t.commitmentNumber, 24))
  {
    hide Entries, SortedOf, TxOuts, HtlcsOf, Xor, Low, Shr, Shl, Pow2;
    var o := Obscured(t.commitmentNumber, t.obscuringHash);
    XorBound(t.obscuringHash, t.commitmentNumber, 48);
    ShrBound(o, 24, 24);
    HighAndLow(0x80, Shr(o, 24));
    HighAndLow(0x20, Low(o, 24));
    XorLow(t.obscuringHash, t.commitmentNumber, 24);
    XorShr(t.obscuringHash, t.commitmentNumber, 24);
  }

  lemma {:induction false} HighAndLow(high: nat, low: nat)
    requires low < Pow2(24)
    ensures Shr(Shl(high, 24) + low, 24) == high && Low(Shl(high, 24) + low, 24) == low
  {
    hide Low, Shr, Shl, Pow2;
    LowOfShl(high, 24);
    LowOffset(Shl(high, 24), low, 24);
    ShrOffset(high, low, 24);
  }

  lemma {:induction false} ShrOffset(high: nat, low: nat, n: nat)
    requires low < Pow2(n)
    ensures Shr(Shl(high, n) + low, n) == high
    decreases n
  {
    if n > 0 {
      ShrOffset(high, low / 2, n - 1);
      assert (Shl(high, n) + low) / 2 == Shl(high, n - 1) + low / 2;
    }
  }
}
