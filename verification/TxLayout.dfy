/**
 Transactions and block headers byte by byte, in the order and the widths of the Bitcoin protocol: every
 number the lowest byte first, every list behind its count, witnesses behind a marker.
*/
module TxLayout {
  import opened Common
  import opened BufferIo
  import opened CountedLists
  import opened TxCodec
  import B = BlockCodec

  /** The number that bytes stand for, the lowest first. */
  function Value(b: Bytes): nat
    decreases |b|
  {
    if b == [] then 0 else b[0] as nat + 256 * Value(b[1..])
  }

  predicate IsNumber(b: Bytes, n: nat, width: nat) {
    |b| == width && Value(b) == n
  }

  lemma {:induction false} NumberIs(b: Bytes, n: nat, width: nat)
    requires IsNumber(b, n, width)
    ensures b == Le(n, width)
    decreases width
  {
    if width > 0 {
      NumberIs(b[1..], n / 256, width - 1);
      assert b == [b[0]] + b[1..];
    }
  }

  /** Under 253 in one byte; else a marker and two, four or eight bytes, the shortest that will do. */
  predicate IsCount(b: Bytes, n: nat) {
    if n < 253 then IsNumber(b, n, 1)
    else if n < 0x1_0000 then b != [] && b[0] == 253 && IsNumber(b[1..], n, 2)
    else if n < 0x1_0000_0000 then b != [] && b[0] == 254 && IsNumber(b[1..], n, 4)
    else b != [] && b[0] == 255 && IsNumber(b[1..], n, 8)
  }

  lemma {:induction false} CountIs(b: Bytes, n: nat)
    requires IsCount(b, n)
    ensures b == VarInt(n)
  {
    hide Le, Value;
    if n < 253 {
      OneByteValue(b);
    } else {
      NumberIs(b[1..], n, if n < 0x1_0000 then 2 else if n < 0x1_0000_0000 then 4 else 8);
      assert b == [b[0]] + b[1..];
    }
  }

  lemma {:induction false} OneByteValue(b: Bytes)
    requires |b| == 1
    ensures Value(b) == b[0] as nat && b == [b[0]]
  {
    assert Value(b[1..]) == 0;
  }

  /** A length and as many bytes. */
  ghost predicate IsBlob(b: Bytes, bytes: Bytes) {
    exists n :: IsCount(n, |bytes|) && b == n + bytes
  }

  lemma {:induction false} BlobIs(b: Bytes, bytes: Bytes)
    requires IsBlob(b, bytes)
    ensures b == Blob(bytes)
  {
    hide IsCount;
    var n :| IsCount(n, |bytes|) && b == n + bytes;
    CountIs(n, |bytes|);
  }

  /** The identifier and the number of the output that is spent, the script and the sequence. */
  ghost predicate IsInput(b: Bytes, i: TxIn) {
    exists index, script, sequence ::
      && IsNumber(index, i.index, 4) && IsBlob(script, i.script) && IsNumber(sequence, i.sequence, 4)
      && b == i.txid + index + script + sequence
  }

  lemma {:induction false} InputIs(b: Bytes, i: TxIn)
    requires IsInput(b, i)
    ensures b == WriteInput(i)
  {
    hide IsNumber, IsBlob, Le, Blob;
    var index, script, sequence :|
      && IsNumber(index, i.index, 4) && IsBlob(script, i.script) && IsNumber(sequence, i.sequence, 4)
      && b == i.txid + index + script + sequence;
    NumberIs(index, i.index, 4);
    BlobIs(script, i.script);
    NumberIs(sequence, i.sequence, 4);
    InOrder(i.txid, index, script, sequence);
  }

  lemma {:induction false} InOrder(a: Bytes, b: Bytes, c: Bytes, d: Bytes)
    ensures a + b + c + d == a + (b + (c + d))
  {
  }

  /** The satoshis and the script. */
  ghost predicate IsOutput(b: Bytes, o: TxOut) {
    exists value, script :: IsNumber(value, o.value, 8) && IsBlob(script, o.script) && b == value + script
  }

  lemma {:induction false} OutputIs(b: Bytes, o: TxOut)
    requires IsOutput(b, o)
    ensures b == WriteOutput(o)
  {
    hide IsNumber, IsBlob;
    var value, script :| IsNumber(value, o.value, 8) && IsBlob(script, o.script) && b == value + script;
    NumberIs(value, o.value, 8);
    BlobIs(script, o.script);
  }

  // ---------------------------------------------------------------------------
  // Lists

  function Concat(parts: seq<Bytes>): Bytes {
    if parts == [] then [] else parts[0] + Concat(parts[1..])
  }

  /** The items one after the other. */
  ghost predicate AreItems<T>(parts: seq<Bytes>, form: (Bytes, T) -> bool, items: seq<T>) {
    |parts| == |items| && forall i :: 0 <= i < |items| ==> form(parts[i], items[i])
  }

  lemma {:induction false} ItemsAre<T>(parts: seq<Bytes>, form: (Bytes, T) -> bool, write: T -> Bytes, items: seq<T>)
    requires AreItems(parts, form, items)
    requires forall b, x :: form(b, x) ==> b == write(x)
    ensures Concat(parts) == Many(write, items)
    decreases |items|
  {
    if items != [] {
      assert form(parts[0], items[0]);
      ItemsAre(parts[1..], form, write, items[1..]);
    }
  }

  /** A witness: how many items, and each with its length. */
  ghost predicate IsStack(b: Bytes, stack: seq<Bytes>) {
    exists n, parts :: IsCount(n, |stack|) && AreItems(parts, IsBlob, stack) && b == n + Concat(parts)
  }

  lemma {:induction false} StackIs(b: Bytes, stack: seq<Bytes>)
    requires IsStack(b, stack)
    ensures b == WriteStack(stack)
  {
    hide IsCount, IsBlob, Blob, Concat, Many;
    var n, parts :| IsCount(n, |stack|) && AreItems(parts, IsBlob, stack) && b == n + Concat(parts);
    CountIs(n, |stack|);
    forall c, x | IsBlob(c, x) ensures c == Blob(x) {
      BlobIs(c, x);
    }
    ItemsAre(parts, IsBlob, Blob, stack);
  }

  // ---------------------------------------------------------------------------
  // Transactions

  /** The parts of a transaction. */
  datatype Parts = Parts(
    version: Bytes, inputCount: Bytes, inputs: seq<Bytes>, outputCount: Bytes, outputs: seq<Bytes>,
    witnesses: seq<Bytes>, locktime: Bytes)

  ghost predicate AreParts(p: Parts, tx: Tx) {
    && IsNumber(p.version, tx.version, 4) && IsNumber(p.locktime, tx.locktime, 4)
    && IsCount(p.inputCount, |tx.inputs|) && AreItems(p.inputs, IsInput, tx.inputs)
    && IsCount(p.outputCount, |tx.outputs|) && AreItems(p.outputs, IsOutput, tx.outputs)
    && |p.witnesses| == |tx.inputs| && forall i :: 0 <= i < |tx.inputs| ==> IsStack(p.witnesses[i], tx.inputs[i].stack)
  }

  lemma {:induction false} WitnessesAre(p: Parts, tx: Tx)
    requires AreParts(p, tx)
    ensures Concat(p.witnesses) == Many(WriteStack, Stacks(tx.inputs))
  {
    hide IsNumber, IsCount, IsStack, WriteStack;
    forall b, x | IsStack(b, x) ensures b == WriteStack(x) {
      StackIs(b, x);
    }
    assert AreItems(p.witnesses, IsStack, Stacks(tx.inputs));
    ItemsAre(p.witnesses, IsStack, WriteStack, Stacks(tx.inputs));
  }

  lemma {:induction false} ListsAre(p: Parts, tx: Tx)
    requires AreParts(p, tx)
    ensures p.inputCount + Concat(p.inputs) == Counted(WriteInput, tx.inputs)
    ensures p.outputCount + Concat(p.outputs) == Counted(WriteOutput, tx.outputs)
  {
    hide IsNumber, IsCount, IsStack, IsInput, IsOutput, WriteInput, WriteOutput, VarInt;
    CountIs(p.inputCount, |tx.inputs|);
    CountIs(p.outputCount, |tx.outputs|);
    forall b, x | IsInput(b, x) ensures b == WriteInput(x) {
      InputIs(b, x);
    }
    forall b, x | IsOutput(b, x) ensures b == WriteOutput(x) {
      OutputIs(b, x);
    }
    ItemsAre(p.inputs, IsInput, WriteInput, tx.inputs);
    ItemsAre(p.outputs, IsOutput, WriteOutput, tx.outputs);
  }

  /** Version, inputs, outputs and lock time; where an input has a witness, a marker, a flag and all witnesses. */
  lemma {:induction false} TransactionIs(tx: Tx, p: Parts)
    requires AreParts(p, tx)
    ensures var inputs, outputs := p.inputCount + Concat(p.inputs), p.outputCount + Concat(p.outputs);
            && Legacy(tx) == p.version + inputs + outputs + p.locktime
            && Serialize(tx) == if exists i :: i in tx.inputs && i.stack != []
                                then p.version + [0, 1] + inputs + outputs + Concat(p.witnesses) + p.locktime
                                else p.version + inputs + outputs + p.locktime
  {
    WitnessesAre(p, tx);
    ListsAre(p, tx);
    NumberIs(p.version, tx.version, 4);
    NumberIs(p.locktime, tx.locktime, 4);
    hide AreParts, Counted, Concat, Le, Many;
    Joined(p.version, Counted(WriteInput, tx.inputs), Counted(WriteOutput, tx.outputs), Concat(p.witnesses), p.locktime);
  }

  lemma {:induction false} Joined(v: Bytes, i: Bytes, o: Bytes, w: Bytes, l: Bytes)
    ensures v + (i + (o + ([] + l))) == v + i + o + l
    ensures v + ([0, 1] + (i + (o + (w + l)))) == v + [0, 1] + i + o + w + l
  {
  }

  // ---------------------------------------------------------------------------
  // Block headers

  lemma {:induction false} EightyBytes(b: Bytes)
    requires |b| == 80
    ensures b == b[0..4] + (b[4..36] + (b[36..68] + (b[68..72] + (b[72..75] + (b[75..76] + b[76..80])))))
  {
    assert b[72..80] == b[72..75] + (b[75..76] + b[76..80]);
    assert b[36..80] == b[36..68] + (b[68..72] + b[72..80]);
    assert b == b[0..4] + (b[4..36] + b[36..80]);
  }

  /** 80 bytes: version, previous block, Merkle root, time, the target in three bytes and one, and the nonce. */
  lemma {:induction false} HeaderIs(h: B.Header, b: Bytes)
    requires |b| == 80 && IsNumber(b[0..4], h.version, 4) && b[4..36] == h.previous && b[36..68] == h.merkleRoot
    requires IsNumber(b[68..72], h.timestamp, 4) && IsNumber(b[72..75], h.coefficient, 3)
    requires IsNumber(b[75..76], h.exponent, 1) && IsNumber(b[76..80], h.nonce, 4)
    ensures b == B.WriteHeader(h)
  {
    hide IsNumber;
    NumberIs(b[0..4], h.version, 4);
    NumberIs(b[68..72], h.timestamp, 4);
    NumberIs(b[72..75], h.coefficient, 3);
    NumberIs(b[75..76], h.exponent, 1);
    NumberIs(b[76..80], h.nonce, 4);
    hide Le;
    EightyBytes(b);
  }
}
