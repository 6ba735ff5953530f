/**
 Bitcoin blocks as bytes: a header of 80 bytes and a counted list of transactions.
*/
module BlockCodec {
  import opened Common
  import opened BufferIo
  import opened CountedLists
  import opened TxCodec
  import opened TxStreams

  const HEADER_SIZE: nat := 80

  datatype Header = Header(version: nat, previous: Bytes, merkleRoot: Bytes, timestamp: nat,
                           coefficient: nat, exponent: nat, nonce: nat)

  datatype Block = Block(header: Header, txs: seq<Tx>)

  predicate LegalHeader(h: Header) {
    && h.version < TWO32 && |h.previous| == 32 && |h.merkleRoot| == 32 && h.timestamp < TWO32
    && h.coefficient < 0x100_0000 && h.exponent < 0x100 && h.nonce < TWO32
  }

  predicate LegalBlock(block: Block) {
    LegalHeader(block.header) && |block.txs| < TWO64 && forall tx :: tx in block.txs ==> Legal(tx)
  }

  function WriteHeader(h: Header): Bytes {
    Le(h.version, 4) + (h.previous + (h.merkleRoot
    + (Le(h.timestamp, 4) + (Le(h.coefficient, 3) + (Le(h.exponent, 1) + Le(h.nonce, 4))))))
  }

  function ReadHeader(b: Bytes): Header
    requires |b| == HEADER_SIZE
  {
    Header(LeValue(b[0..4]), b[4..36], b[36..68], LeValue(b[68..72]),
           LeValue(b[72..75]), LeValue(b[75..76]), LeValue(b[76..80]))
  }

  function Encode(block: Block): Bytes {
    WriteHeader(block.header) + Counted(Serialize, block.txs)
  }

  /** Bytes after the last transaction are ignored. */
  function Decode(b: Bytes): Option<Block> {
    if |b| < HEADER_SIZE then None
    else
      match ReadCounted(ReadTx, b[HEADER_SIZE..])
      case Failed => None
      case Got(txs, _) => Some(Block(ReadHeader(b[..HEADER_SIZE]), txs))
  }

  // ---------------------------------------------------------------------------
  // Round trip

  lemma HeaderParts(a: Bytes, b: Bytes, c: Bytes, d: Bytes, e: Bytes, f: Bytes, g: Bytes)
    requires |a| == |d| == |g| == 4 && |b| == |c| == 32 && |e| == 3 && |f| == 1
    ensures var h := a + (b + (c + (d + (e + (f + g)))));
            && |h| == HEADER_SIZE && h[0..4] == a && h[4..36] == b && h[36..68] == c && h[68..72] == d
            && h[72..75] == e && h[75..76] == f && h[76..80] == g
  {
  }

  lemma {:induction false} HeaderBack(h: Header)
    requires LegalHeader(h)
    ensures |WriteHeader(h)| == HEADER_SIZE && ReadHeader(WriteHeader(h)) == h
  {
    Powers();
    hide Le, LeValue, Pow256;
    LeBack(h.version, 4);
    LeBack(h.timestamp, 4);
    LeBack(h.coefficient, 3);
    LeBack(h.exponent, 1);
    LeBack(h.nonce, 4);
    HeaderParts(Le(h.version, 4), h.previous, h.merkleRoot, Le(h.timestamp, 4),
                Le(h.coefficient, 3), Le(h.exponent, 1), Le(h.nonce, 4));
  }

  lemma {:induction false} TxsBack(txs: seq<Tx>)
    requires |txs| < TWO64 && forall tx :: tx in txs ==> Legal(tx) && !Ambiguous(tx)
    ensures ReadCounted(ReadTx, Counted(Serialize, txs)) == Got(txs, [])
  {
    hide Legal, Ambiguous, Serialize, Parse, Counted, ReadCounted;
    forall tx | tx in txs ensures ComesBack(Serialize, ReadTx, tx) {
      forall rest: Bytes ensures ReadTx(Serialize(tx) + rest) == Got(tx, rest) {
        TxBack(tx, rest);
      }
    }
    CountedBack(Serialize, ReadTx, txs, []);
    assert Counted(Serialize, txs) + [] == Counted(Serialize, txs);
  }

  function SerializedSize(tx: Tx): nat {
    BaseSize(tx) + WitnessSize(tx)
  }

  lemma {:induction false} AmbiguousTakeMore(txs: seq<Tx>)
    ensures Sum(TakenBy, txs) >= Sum(SerializedSize, txs)
    ensures (exists tx :: tx in txs && Ambiguous(tx)) ==> Sum(TakenBy, txs) > Sum(SerializedSize, txs)
    decreases |txs|
  {
    hide BaseSize, WitnessSize, Ambiguous;
    if txs != [] {
      AmbiguousTakeMore(txs[1..]);
      if tx :| tx in txs && Ambiguous(tx) {
        assert txs == [txs[0]] + txs[1..];
      }
    }
  }

  lemma {:induction false} TxsTakeTooMuch(txs: seq<Tx>, rest: Bytes)
    requires (forall tx :: tx in txs ==> Legal(tx)) && exists tx :: tx in txs && Ambiguous(tx)
    ensures ReadCounted(ReadTx, Counted(Serialize, txs)) != Got(txs, rest)
  {
    hide Legal, Ambiguous, Serialize, Parse, ReadCounted, BaseSize, WitnessSize, TakenBy, VarInt, VarIntBytes;
    forall tx | tx in txs ensures |Serialize(tx)| == SerializedSize(tx) {
      SizesOfBytes(tx);
    }
    ManySize(Serialize, SerializedSize, txs);
    AmbiguousTakeMore(txs);
    TxTakes();
    CountedTakes(ReadTx, TakenBy, Counted(Serialize, txs));
  }

  /** A block comes back just when each of its transactions has an input or no outputs. */
  lemma {:induction false} BlockBackIff(block: Block)
    requires LegalBlock(block)
    ensures Decode(Encode(block)) == Some(block)
            <==> forall tx :: tx in block.txs ==> tx.inputs != [] || tx.outputs == []
  {
    hide Legal, LegalHeader, Serialize, Parse, WriteHeader, ReadHeader, Counted, ReadCounted;
    var txs, b := Counted(Serialize, block.txs), Encode(block);
    HeaderBack(block.header);
    assert b[..HEADER_SIZE] == WriteHeader(block.header) && b[HEADER_SIZE..] == txs;
    if tx :| tx in block.txs && Ambiguous(tx) {
      var r := ReadCounted(ReadTx, txs);
      if r.Got? {
        TxsTakeTooMuch(block.txs, r.rest);
      }
    } else {
      TxsBack(block.txs);
    }
  }

  // ---------------------------------------------------------------------------
  // The loops

  method ParseTxs(r: StreamReader, numTxs: nat) returns (x: Option<seq<Tx>>)
    requires r.Valid()
    modifies r`position
    ensures r.Valid()
    ensures var spec := ReadMany(ReadTx, numTxs, old(r.Rest())); x == if spec.Got? then Some(spec.value) else None
  {
    hide Parse, ReadMany;
    ghost var all := ReadMany(ReadTx, numTxs, r.Rest());
    var txs: seq<Tx> := [];
    NoneYet(all);
    for i := 0 to numTxs
      invariant r.Valid() && Prepended(txs, ReadMany(ReadTx, numTxs - i, r.Rest())) == all
    {
      NextItem(ReadTx, numTxs - i, txs, r.Rest());
      var tx := ParseTx(r, true);
      if tx.None? { return None; }
      txs := txs + [tx.value];
    }
    NoneLeft(ReadTx, txs, r.Rest());
    return Some(txs);
  }

  /** `Block.fromBuffer` */
  method FromBuffer(buf: Bytes) returns (x: Option<Block>)
    ensures x == Decode(buf)
  {
    hide ReadTx, ReadVarInt, ReadMany, ReadHeader;
    var r := new StreamReader(buf);
    var header := r.TakeBytes(HEADER_SIZE);
    if header.None? { return None; }
    var numTxs := r.TakeVarInt();
    if numTxs.None? { return None; }
    var txs := ParseTxs(r, numTxs.value);
    if txs.None? { return None; }
    return Some(Block(ReadHeader(header.value), txs.value));
  }

  /** `BlockHeader.toBuffer`: seven writes that fill a buffer of the header's size exactly. */
  method HeaderBytes(h: Header) returns (b: Bytes)
    requires LegalHeader(h)
    ensures b == WriteHeader(h)
  {
    HeaderBack(h);
    var buffer := new Byte[HEADER_SIZE](_ => 0);
    var w := new BufferWriter.Over(buffer);
    hide Le;
    var ok := w.WriteBytes(Le(h.version, 4));
    ok := w.WriteBytes(h.previous);
    ok := w.WriteBytes(h.merkleRoot);
    ok := w.WriteBytes(Le(h.timestamp, 4));
    ok := w.WriteBytes(Le(h.coefficient, 3));
    ok := w.WriteBytes(Le(h.exponent, 1));
    ok := w.WriteBytes(Le(h.nonce, 4));
    HeaderInOrder(Le(h.version, 4), h.previous, h.merkleRoot, Le(h.timestamp, 4),
                  Le(h.coefficient, 3), Le(h.exponent, 1), Le(h.nonce, 4));
    b := buffer[..];
  }

  lemma HeaderInOrder(a: Bytes, b: Bytes, c: Bytes, d: Bytes, e: Bytes, f: Bytes, g: Bytes)
    ensures [] + a + b + c + d + e + f + g == a + (b + (c + (d + (e + (f + g)))))
  {
  }

  /** `Block.toBuffer` */
  method ToBuffer(block: Block) returns (b: Bytes)
    requires LegalBlock(block) && |Encode(block)| <= LARGEST
    ensures b == Encode(block)
  {
    hide Legal, LegalHeader, VarInt, VarIntBytes, WriteHeader, Serialize;
    var w := new BufferWriter();
    var header := HeaderBytes(block.header);
    var ok := w.WriteBytes(header);
    assert w.Written() == WriteHeader(block.header);
    ok := w.WriteVarInt(|block.txs|);
    Associate(WriteHeader(block.header), VarInt(|block.txs|), Many(Serialize, block.txs));
    for i := 0 to |block.txs|
      invariant w.Valid() && !w.fixed && fresh(w) && fresh(w.buffer)
      invariant w.Written() + Many(Serialize, block.txs[i..]) == Encode(block)
    {
      var tx := block.txs[i];
      assert block.txs[i..][1..] == block.txs[i + 1..];
      Associate(w.Written(), Serialize(tx), Many(Serialize, block.txs[i + 1..]));
      var bytes := SerializeTx(tx);
      ok := w.WriteBytes(bytes);
    }
    assert w.Written() + [] == w.Written();
    b := w.buffer[..w.position];
  }
}
