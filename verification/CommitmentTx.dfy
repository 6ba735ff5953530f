/**
 Commitment transactions of BOLT #3: which HTLCs and balances become outputs, who pays the fee,
 in which order the outputs stand, and why the transaction one peer signs is the one the other builds.
*/
module CommitmentTx {
  import opened Common
  import opened Bits

  // ---------------------------------------------------------------------------
  // Amounts: picosatoshis, shown to the chain as whole satoshis

  type Value = nat

  const PSATS_PER_SAT: nat := 1_000_000_000_000

  function Sats(v: Value): nat {
    v / PSATS_PER_SAT
  }

  function FromSats(sats: nat): (v: Value)
    ensures Sats(v) == sats
  {
    sats * PSATS_PER_SAT
  }

  // ---------------------------------------------------------------------------
  // What a commitment is built from

  datatype Direction = Offered | Accepted

  datatype Htlc = Htlc(id: nat, direction: Direction, value: Value, cltvExpiry: nat, paymentHash: Bytes)

  /** The output scripts, as the bytes that are compared and put on the chain. */
  datatype Scripts = Scripts(
    offeredHtlc: (Bytes, Bytes, Bytes, Bytes) -> Bytes,         // payment hash, revocation, local, remote
    receivedHtlc: (Bytes, nat, Bytes, Bytes, Bytes) -> Bytes,   // payment hash, expiry, revocation, local, remote
    toLocal: (Bytes, Bytes, nat) -> Bytes,                      // revocation, delayed, delay
    toRemote: Bytes -> Bytes)                                   // remote key

  /** Outputs of different kinds never share a script: hashing does not collide and P2WPKH is shorter. */
  ghost predicate KindsApart(f: Scripts) {
    && (forall a, b, c, d, r, k, n :: f.offeredHtlc(a, b, c, d) != f.toLocal(r, k, n))
    && (forall a, b, c, d, e, r, k, n :: f.receivedHtlc(a, b, c, d, e) != f.toLocal(r, k, n))
    && (forall a, b, c, d, k :: f.offeredHtlc(a, b, c, d) != f.toRemote(k))
    && (forall a, b, c, d, e, k :: f.receivedHtlc(a, b, c, d, e) != f.toRemote(k))
    && (forall r, k, n, k' :: f.toLocal(r, k, n) != f.toRemote(k'))
  }

  datatype OutPoint = OutPoint(txid: Bytes, index: nat)

  datatype Terms = Terms(
    isFunderLocal: bool, commitmentNumber: nat, obscuringHash: nat, fundingOutPoint: OutPoint,
    dustLimit: Value, feePerKw: nat, localDelay: nat, localValue: Value, remoteValue: Value,
    revocationPubKey: Bytes, delayedPubKey: Bytes, remotePubKey: Bytes,
    localHtlcPubKey: Bytes, remoteHtlcPubKey: Bytes)

  datatype TxOut = TxOut(value: Value, script: Bytes)

  datatype Entry = Entry(txout: TxOut, htlc: Option<Htlc>)

  datatype Tx = Tx(version: nat, input: OutPoint, sequence: nat, locktime: nat, outputs: seq<TxOut>)

  // ---------------------------------------------------------------------------
  // The obscured commitment number

  const TIMEOUT_WEIGHT: nat := 663
  const SUCCESS_WEIGHT: nat := 703

  function Obscured(number: nat, hash: nat): nat {
    Xor(hash, number)
  }

  /** `(0x80n << 24n) | (obscured >> 24n)`; the operands share no bits. */
  function SequenceOf(obscured: nat): nat {
    Shl(0x80, 24) + Shr(obscured, 24)
  }

  /** `(0x20n << 24n) | (obscured & 0xffffffn)`; the operands share no bits. */
  function LockTimeOf(obscured: nat): nat {
    Shl(0x20, 24) + Low(obscured, 24)
  }

  /** `CommitmentNumber.reveal` */
  function Revealed(locktime: nat, sequence: nat, hash: nat): nat {
    Xor(hash, Shl(Low(sequence, 24), 24) + Low(locktime, 24))
  }

  /** The number put into locktime and sequence comes back out of them. */
  lemma {:induction false} RevealUndoesObscure(number: nat, hash: nat)
    requires number < Pow2(48) && hash < Pow2(48)
    ensures var o := Obscured(number, hash); Revealed(LockTimeOf(o), SequenceOf(o), hash) == number
  {
    hide Xor, Shl, Shr, Low, Pow2;
    var o := Obscured(number, hash);
    XorBound(hash, number, 48);
    ShrBound(o, 24, 24);
    LowOfShl(0x80, 24);
    LowOfShl(0x20, 24);
    LowOffset(Shl(0x80, 24), Shr(o, 24), 24);
    LowOffset(Shl(0x20, 24), Low(o, 24), 24);
    SplitAt(o, 24);
    XorCommutes(hash, number);
    XorCancels(number, hash);
    XorCommutes(hash, o);
  }

  // ---------------------------------------------------------------------------
  // Trimming and fees

  /** The weight of the transaction that will spend the HTLC, seen by the commitment's holder. */
  function FeeWeight(reverse: bool, direction: Direction): nat {
    if reverse then (if direction == Offered then SUCCESS_WEIGHT else TIMEOUT_WEIGHT)
    else (if direction == Offered then TIMEOUT_WEIGHT else SUCCESS_WEIGHT)
  }

  function SpendFee(reverse: bool, direction: Direction, feePerKw: nat): nat {
    FeeWeight(reverse, direction) * feePerKw / 1000
  }

  predicate Kept(t: Terms, reverse: bool, htlc: Htlc) {
    Sats(htlc.value) as int - SpendFee(reverse, htlc.direction, t.feePerKw) >= Sats(t.dustLimit)
  }

  function KeptOf(t: Terms, reverse: bool, htlcs: seq<Htlc>): seq<Htlc> {
    if htlcs == [] then []
    else if Kept(t, reverse, htlcs[0]) then [htlcs[0]] + KeptOf(t, reverse, htlcs[1..])
    else KeptOf(t, reverse, htlcs[1..])
  }

  function BaseFee(htlcCount: nat, feePerKw: nat): nat {
    (724 + htlcCount * 172) * feePerKw / 1000
  }

  /** The funder's balance after the fee: whole satoshis, or nothing. */
  function Deducted(v: Value, fee: nat): Value {
    if Sats(v) > fee then FromSats(Sats(v) - fee) else 0
  }

  function LocalAfterFee(t: Terms, fee: nat): Value {
    if t.isFunderLocal then Deducted(t.localValue, fee) else t.localValue
  }

  function RemoteAfterFee(t: Terms, fee: nat): Value {
    if t.isFunderLocal then t.remoteValue else Deducted(t.remoteValue, fee)
  }

  // ---------------------------------------------------------------------------
  // Outputs

  predicate IsOfferedHere(reverse: bool, direction: Direction) {
    (!reverse && direction == Offered) || (reverse && direction == Accepted)
  }

  function HtlcEntry(f: Scripts, t: Terms, reverse: bool, h: Htlc): Entry {
    var script :=
      if IsOfferedHere(reverse, h.direction)
      then f.offeredHtlc(h.paymentHash, t.revocationPubKey, t.localHtlcPubKey, t.remoteHtlcPubKey)
      else f.receivedHtlc(h.paymentHash, h.cltvExpiry, t.revocationPubKey, t.localHtlcPubKey, t.remoteHtlcPubKey);
    Entry(TxOut(h.value, script), Some(h))
  }

  function HtlcEntries(f: Scripts, t: Terms, reverse: bool, htlcs: seq<Htlc>): seq<Entry> {
    if htlcs == [] then [] else [HtlcEntry(f, t, reverse, htlcs[0])] + HtlcEntries(f, t, reverse, htlcs[1..])
  }

  /** The output of a balance, unless it is dust. */
  function BalanceEntry(v: Value, dustLimit: Value, script: Bytes): seq<Entry> {
    if Sats(v) >= Sats(dustLimit) then [Entry(TxOut(v, script), None)] else []
  }

  function BalanceEntries(f: Scripts, t: Terms, fee: nat): seq<Entry> {
    BalanceEntry(LocalAfterFee(t, fee), t.dustLimit, f.toLocal(t.revocationPubKey, t.delayedPubKey, t.localDelay))
    + BalanceEntry(RemoteAfterFee(t, fee), t.dustLimit, f.toRemote(t.remotePubKey))
  }

  /** All outputs, before they are sorted. */
  function Entries(f: Scripts, t: Terms, reverse: bool, htlcs: seq<Htlc>): seq<Entry> {
    var kept := KeptOf(t, reverse, htlcs);
    HtlcEntries(f, t, reverse, kept) + BalanceEntries(f, t, BaseFee(|kept|, t.feePerKw))
  }

  // ---------------------------------------------------------------------------
  // The order of outputs

  /** What the comparison looks at: satoshis, then script bytes, then the expiry. */
  datatype Key = Key(sats: nat, script: Bytes, cltv: nat)

  function KeyOf(e: Entry): Key {
    Key(Sats(e.txout.value), e.txout.script, if e.htlc.Some? then e.htlc.value.cltvExpiry else 0)
  }

  /** `Buffer.compare(a, b) <= 0` */
  predicate BytesLe(a: Bytes, b: Bytes) {
    if a == [] then true
    else if b == [] then false
    else if a[0] != b[0] then a[0] < b[0]
    else BytesLe(a[1..], b[1..])
  }

  predicate KeyLe(a: Key, b: Key) {
    if a.sats != b.sats then a.sats < b.sats
    else if a.script != b.script then BytesLe(a.script, b.script)
    else a.cltv <= b.cltv
  }

  /** The comparison would look at the expiry of an output that carries no HTLC, and throw. */
  predicate TieWithoutHtlc(a: Entry, b: Entry) {
    Sats(a.txout.value) == Sats(b.txout.value) && a.txout.script == b.txout.script
    && (a.htlc.None? || b.htlc.None?)
  }

  predicate Sorted(es: seq<Entry>) {
    forall i, j :: 0 <= i < j < |es| ==> KeyLe(KeyOf(es[i]), KeyOf(es[j]))
  }

  /** Places e behind everything that does not compare greater, as a stable sort does. */
  function Insert(es: seq<Entry>, e: Entry): seq<Entry> {
    if es == [] then [e]
    else if KeyLe(KeyOf(es[|es| - 1]), KeyOf(e)) then es + [e]
    else Insert(es[..|es| - 1], e) + [es[|es| - 1]]
  }

  /** The result of the stable `Array.prototype.sort` with `sortCommitmentOutputs`' comparison. */
  function SortedOf(es: seq<Entry>): seq<Entry> {
    if es == [] then [] else Insert(SortedOf(es[..|es| - 1]), es[|es| - 1])
  }

  function TxOuts(es: seq<Entry>): seq<TxOut> {
    if es == [] then [] else [es[0].txout] + TxOuts(es[1..])
  }

  function HtlcsOf(es: seq<Entry>): seq<Htlc> {
    if es == [] then []
    else if es[0].htlc.Some? then [es[0].htlc.value] + HtlcsOf(es[1..])
    else HtlcsOf(es[1..])
  }

  /** The unsigned commitment and the HTLCs in the order of their outputs. */
  function Commitment(f: Scripts, t: Terms, reverse: bool, htlcs: seq<Htlc>): (Tx, seq<Htlc>) {
    var o := Obscured(t.commitmentNumber, t.obscuringHash);
    var sorted := SortedOf(Entries(f, t, reverse, htlcs));
    (Tx(2, t.fundingOutPoint, SequenceOf(o), LockTimeOf(o), TxOuts(sorted)), HtlcsOf(sorted))
  }

  // ---------------------------------------------------------------------------
  // Sequences

  lemma {:induction false} TxOutsAppend(a: seq<Entry>, b: seq<Entry>)
    ensures TxOuts(a + b) == TxOuts(a) + TxOuts(b)
    decreases |a|
  {
    if a == [] {
      assert a + b == b;
    } else {
      assert (a + b)[1..] == a[1..] + b;
      TxOutsAppend(a[1..], b);
    }
  }

  lemma {:induction false} HtlcsOfAppend(a: seq<Entry>, b: seq<Entry>)
    ensures HtlcsOf(a + b) == HtlcsOf(a) + HtlcsOf(b)
    decreases |a|
  {
    if a == [] {
      assert a + b == b;
    } else {
      assert (a + b)[1..] == a[1..] + b;
      HtlcsOfAppend(a[1..], b);
    }
  }

  lemma {:induction false} HtlcEntriesAppend(f: Scripts, t: Terms, reverse: bool, a: seq<Htlc>, b: seq<Htlc>)
    ensures HtlcEntries(f, t, reverse, a + b) == HtlcEntries(f, t, reverse, a) + HtlcEntries(f, t, reverse, b)
    decreases |a|
  {
    if a == [] {
      assert a + b == b;
    } else {
      assert (a + b)[1..] == a[1..] + b;
      HtlcEntriesAppend(f, t, reverse, a[1..], b);
    }
  }

  lemma {:induction false} KeptAppend(t: Terms, reverse: bool, a: seq<Htlc>, b: seq<Htlc>)
    ensures KeptOf(t, reverse, a + b) == KeptOf(t, reverse, a) + KeptOf(t, reverse, b)
    decreases |a|
  {
    if a == [] {
      assert a + b == b;
    } else {
      assert (a + b)[1..] == a[1..] + b;
      KeptAppend(t, reverse, a[1..], b);
    }
  }

  /** Step 3: the HTLCs that will have an output. */
  method FindUnpruned(t: Terms, reverse: bool, htlcs: seq<Htlc>) returns (unpruned: seq<Htlc>)
    ensures unpruned == KeptOf(t, reverse, htlcs)
  {
    hide SpendFee, Sats;
    unpruned := [];
    for i := 0 to |htlcs|
      invariant unpruned == KeptOf(t, reverse, htlcs[..i])
    {
      var htlc := htlcs[i];
      assert htlcs[..i + 1] == htlcs[..i] + [htlc];
      KeptAppend(t, reverse, htlcs[..i], [htlc]);
      var satsLessFee: int := Sats(htlc.value) - SpendFee(reverse, htlc.direction, t.feePerKw);
      if satsLessFee >= Sats(t.dustLimit) {
        unpruned := unpruned + [htlc];
      }
    }
    assert htlcs[..|htlcs|] == htlcs;
  }

  /** Steps 6 and 7: an output for each of them. */
  method AddHtlcs(f: Scripts, t: Terms, reverse: bool, unpruned: seq<Htlc>) returns (txouts: seq<Entry>)
    ensures txouts == HtlcEntries(f, t, reverse, unpruned)
  {
    hide HtlcEntry;
    txouts := [];
    for i := 0 to |unpruned|
      invariant txouts == HtlcEntries(f, t, reverse, unpruned[..i])
    {
      assert unpruned[..i + 1] == unpruned[..i] + [unpruned[i]];
      HtlcEntriesAppend(f, t, reverse, unpruned[..i], [unpruned[i]]);
      txouts := txouts + [HtlcEntry(f, t, reverse, unpruned[i])];
    }
    assert unpruned[..|unpruned|] == unpruned;
  }

  /** `TxFactory.createCommitment` */
  method CreateCommitment(f: Scripts, t: Terms, reverse: bool, htlcs: seq<Htlc>) returns (tx: Tx, sortedHtlcs: seq<Htlc>)
    ensures (tx, sortedHtlcs) == Commitment(f, t, reverse, htlcs)
  {
    hide BaseFee, Sats, KeptOf, HtlcEntries, Insert, SortedOf, SequenceOf, LockTimeOf, Obscured, TxOuts, HtlcsOf;
    var obscured := Obscured(t.commitmentNumber, t.obscuringHash);
    var unpruned := FindUnpruned(t, reverse, htlcs);
    var baseFee := BaseFee(|unpruned|, t.feePerKw);
    var localValue, remoteValue := t.localValue, t.remoteValue;
    if t.isFunderLocal {
      localValue := Deducted(localValue, baseFee);
    } else {
      remoteValue := Deducted(remoteValue, baseFee);
    }
    var txouts := AddHtlcs(f, t, reverse, unpruned);
    ghost var htlcOuts := txouts;
    if Sats(localValue) >= Sats(t.dustLimit) {
      txouts := txouts + [Entry(TxOut(localValue, f.toLocal(t.revocationPubKey, t.delayedPubKey, t.localDelay)), None)];
    }
    if Sats(remoteValue) >= Sats(t.dustLimit) {
      txouts := txouts + [Entry(TxOut(remoteValue, f.toRemote(t.remotePubKey)), None)];
    }
    assert txouts == htlcOuts + BalanceEntries(f, t, baseFee);
    var sorted := SortedOf(txouts);
    var outputs := CollectOutputs(sorted);
    sortedHtlcs := CollectHtlcs(sorted);
    tx := Tx(2, t.fundingOutPoint, SequenceOf(obscured), LockTimeOf(obscured), outputs);
  }

  method CollectOutputs(sorted: seq<Entry>) returns (outputs: seq<TxOut>)
    ensures outputs == TxOuts(sorted)
  {
    outputs := [];
    for i := 0 to |sorted|
      invariant outputs == TxOuts(sorted[..i])
    {
      assert sorted[..i + 1] == sorted[..i] + [sorted[i]];
      TxOutsAppend(sorted[..i], [sorted[i]]);
      outputs := outputs + [sorted[i].txout];
    }
    assert sorted[..|sorted|] == sorted;
  }

  method CollectHtlcs(sorted: seq<Entry>) returns (htlcs: seq<Htlc>)
    ensures htlcs == HtlcsOf(sorted)
  {
    htlcs := [];
    for i := 0 to |sorted|
      invariant htlcs == HtlcsOf(sorted[..i])
    {
      assert sorted[..i + 1] == sorted[..i] + [sorted[i]];
      HtlcsOfAppend(sorted[..i], [sorted[i]]);
      if sorted[i].htlc.Some? {
        htlcs := htlcs + [sorted[i].htlc.value];
      }
    }
    assert sorted[..|sorted|] == sorted;
  }

  // ---------------------------------------------------------------------------
  // The order is total, and sorting is well defined

  lemma {:induction false} BytesLeTotal(a: Bytes, b: Bytes)
    ensures BytesLe(a, b) || BytesLe(b, a)
    ensures BytesLe(a, b) && BytesLe(b, a) ==> a == b
    decreases |a|
  {
    if a != [] && b != [] && a[0] == b[0] {
      BytesLeTotal(a[1..], b[1..]);
      assert a == [a[0]] + a[1..] && b == [b[0]] + b[1..];
    }
  }

  lemma {:induction false} BytesLeTransitive(a: Bytes, b: Bytes, c: Bytes)
    requires BytesLe(a, b) && BytesLe(b, c)
    ensures BytesLe(a, c)
    decreases |a|
  {
    if a != [] && a[0] == b[0] && b[0] == c[0] {
      BytesLeTransitive(a[1..], b[1..], c[1..]);
    }
  }

  lemma {:induction false} KeyLeTotal(a: Key, b: Key)
    ensures KeyLe(a, b) || KeyLe(b, a)
    ensures KeyLe(a, b) && KeyLe(b, a) ==> a == b
  {
    BytesLeTotal(a.script, b.script);
  }

  lemma {:induction false} KeyLeTransitive(a: Key, b: Key, c: Key)
    requires KeyLe(a, b) && KeyLe(b, c)
    ensures KeyLe(a, c)
  {
    BytesLeTotal(a.script, b.script);
    BytesLeTotal(b.script, c.script);
    BytesLeTotal(a.script, c.script);
    if a.sats == b.sats == c.sats { 
      if BytesLe(a.script, b.script) && BytesLe(b.script, c.script) {
        BytesLeTransitive(a.script, b.script, c.script);
      }
    }
  }

  lemma {:induction false} InsertKeeps(es: seq<Entry>, e: Entry)
    ensures multiset(Insert(es, e)) == multiset(es) + multiset{e}
    decreases |es|
  {
    hide KeyLe;
    if es != [] {
      assert es == es[..|es| - 1] + [es[|es| - 1]];
      InsertKeeps(es[..|es| - 1], e);
    }
  }

  lemma {:induction false} InsertSorts(es: seq<Entry>, e: Entry)
    requires Sorted(es)
    ensures Sorted(Insert(es, e)) && multiset(Insert(es, e)) == multiset(es) + multiset{e}
    decreases |es|
  {
    InsertKeeps(es, e);
    hide KeyLe;
    if es != [] {
      var n := |es| - 1;
      if KeyLe(KeyOf(es[n]), KeyOf(e)) {
        forall i | 0 <= i < n
          ensures KeyLe(KeyOf(es[i]), KeyOf(e))
        {
          KeyLeTransitive(KeyOf(es[i]), KeyOf(es[n]), KeyOf(e));
        }
      } else {
        InsertSorts(es[..n], e);
        KeyLeTotal(KeyOf(es[n]), KeyOf(e));
        var r := Insert(es[..n], e);
        forall i | 0 <= i < |r|
          ensures KeyLe(KeyOf(r[i]), KeyOf(es[n]))
        {
          InsertKeeps(es[..n], e);
          assert r[i] in multiset(r);
          assert r[i] in es[..n] || r[i] == e;
        }
      }
    }
  }

  lemma {:induction false} SortSorts(es: seq<Entry>)
    ensures Sorted(SortedOf(es)) && multiset(SortedOf(es)) == multiset(es)
    decreases |es|
  {
    hide KeyLe, Insert;
    if es != [] {
      var n := |es| - 1;
      assert es == es[..n] + [es[n]];
      SortSorts(es[..n]);
      InsertSorts(SortedOf(es[..n]), es[n]);
    }
  }

  function Keys(es: seq<Entry>): (r: seq<Key>)
    ensures |r| == |es|
  {
    seq(|es|, i requires 0 <= i < |es| => KeyOf(es[i]))
  }

  predicate KeysSorted(ks: seq<Key>) {
    forall i, j :: 0 <= i < j < |ks| ==> KeyLe(ks[i], ks[j])
  }

  lemma {:induction false} TakeOut<T>(s: seq<T>, i: nat)
    requires i < |s|
    ensures multiset(s) == multiset(s[..i] + s[i + 1..]) + multiset{s[i]}
  {
    assert s == s[..i] + [s[i]] + s[i + 1..];
  }

  /** Taking the first of one sequence out of another with the same elements. */
  lemma {:induction false} TakeOutFirst<T>(a: seq<T>, b: seq<T>) returns (i: nat)
    requires multiset(a) == multiset(b) && a != []
    ensures i < |b| && b[i] == a[0] && multiset(a[1..]) == multiset(b[..i] + b[i + 1..])
  {
    TakeOut(a, 0);
    assert a[..0] + a[1..] == a[1..];
    assert a[0] in multiset(b);
    i :| 0 <= i < |b| && b[i] == a[0];
    TakeOut(b, i);
    var b' := b[..i] + b[i + 1..];
    assert multiset(a[1..]) == multiset(a) - multiset{a[0]};
    assert multiset(b') == multiset(b) - multiset{a[0]};
  }

  lemma {:induction false} HeadsEqual(a: seq<Key>, b: seq<Key>)
    requires KeysSorted(a) && KeysSorted(b) && multiset(a) == multiset(b) && a != [] && b != []
    ensures a[0] == b[0]
  {
    hide KeyLe;
    KeyLeTotal(a[0], b[0]);
    var i := TakeOutFirst(a, b);
    var j := TakeOutFirst(b, a);
  }

  /** A multiset of keys has only one sorted order. */
  lemma {:induction false} SortedKeysUnique(a: seq<Key>, b: seq<Key>)
    requires KeysSorted(a) && KeysSorted(b) && multiset(a) == multiset(b)
    ensures a == b
    decreases |a|
  {
    hide KeyLe;
    assert |multiset(a)| == |multiset(b)|;
    if a != [] {
      HeadsEqual(a, b);
      TailsAgree(a, b);
      SortedKeysUnique(a[1..], b[1..]);
      assert a == [a[0]] + a[1..] && b == [b[0]] + b[1..];
    }
  }

  lemma {:induction false} TailsAgree<T>(a: seq<T>, b: seq<T>)
    requires multiset(a) == multiset(b) && a != [] && b != [] && a[0] == b[0]
    ensures multiset(a[1..]) == multiset(b[1..])
  {
    TailIs(a);
    TailIs(b);
  }

  lemma {:induction false} TailIs<T>(a: seq<T>)
    requires a != []
    ensures multiset(a[1..]) == multiset(a) - multiset{a[0]}
  {
    assert a == [a[0]] + a[1..];
  }

  lemma {:induction false} KeysOfPermutation(a: seq<Entry>, b: seq<Entry>)
    requires multiset(a) == multiset(b)
    ensures multiset(Keys(a)) == multiset(Keys(b))
    decreases |a|
  {
    assert |multiset(a)| == |multiset(b)|;
    if a != [] {
      var i := TakeOutFirst(a, b);
      var b' := b[..i] + b[i + 1..];
      KeysOfPermutation(a[1..], b');
      KeysTakeOut(a, 0);
      KeysTakeOut(b, i);
      assert a[..0] + a[1..] == a[1..];
    }
  }

  lemma {:induction false} KeysTakeOut(b: seq<Entry>, i: nat)
    requires i < |b|
    ensures multiset(Keys(b)) == multiset(Keys(b[..i] + b[i + 1..])) + multiset{KeyOf(b[i])}
  {
    hide KeyOf;
    TakeOut(Keys(b), i);
    assert Keys(b)[..i] + Keys(b)[i + 1..] == Keys(b[..i] + b[i + 1..]);
  }

  /** Entries with the same keys in any order are sorted into the same sequence of keys. */
  lemma {:induction false} SortingForgetsOrder(a: seq<Entry>, b: seq<Entry>)
    requires multiset(Keys(a)) == multiset(Keys(b))
    ensures Keys(SortedOf(a)) == Keys(SortedOf(b))
  {
    hide KeyLe, SortedOf;
    SortSorts(a);
    SortSorts(b);
    KeysOfPermutation(SortedOf(a), a);
    KeysOfPermutation(SortedOf(b), b);
    SortedKeysUnique(Keys(SortedOf(a)), Keys(SortedOf(b)));
  }
}
