/**
 The loops that read a transaction from a stream, write it to a growing buffer and add up its sizes, each
 against its function in TxCodec.
*/
module TxStreams {
  import opened Common
  import opened BufferIo
  import opened CountedLists
  import opened TxCodec

  // ---------------------------------------------------------------------------
  // Reading

  /** A script or a witness: `ScriptBuf.parse`, `Witness.parse`. */
  method ParseBlob(r: StreamReader) returns (x: Option<Bytes>)
    requires r.Valid()
    modifies r`position
    ensures r.Valid()
    ensures var spec := ReadBlob(old(r.Rest()));
            if spec.Got? then x == Some(spec.value) && r.Rest() == spec.rest else x.None?
  {
    hide ReadVarInt;
    var len := r.TakeVarInt();
    if len.None? { return None; }
    x := r.TakeBytes(len.value);
  }

  method ParseInput(r: StreamReader) returns (x: Option<TxIn>)
    requires r.Valid()
    modifies r`position
    ensures r.Valid()
    ensures var spec := ReadInput(old(r.Rest()));
            if spec.Got? then x == Some(spec.value) && r.Rest() == spec.rest else x.None?
  {
    hide ReadBlob, ReadLe, ReadBytes;
    var txid := r.TakeBytes(32);
    if txid.None? { return None; }
    var index := r.TakeUInt(4);
    if index.None? { return None; }
    var script := ParseBlob(r);
    if script.None? { return None; }
    var sequence := r.TakeUInt(4);
    if sequence.None? { return None; }
    return Some(TxIn(txid.value, index.value, script.value, sequence.value, []));
  }

  lemma {:induction false} NextItem<T>(read: Bytes -> Read<T>, n: nat, xs: seq<T>, b: Bytes)
    requires n > 0
    ensures read(b).Failed? ==> Prepended(xs, ReadMany(read, n, b)).Failed?
    ensures read(b).Got? ==> Prepended(xs, ReadMany(read, n, b))
                             == Prepended(xs + [read(b).value], ReadMany(read, n - 1, read(b).rest))
  {
    if read(b).Got? {
      PrependedTwice(xs, [read(b).value], ReadMany(read, n - 1, read(b).rest));
    }
  }

  lemma {:induction false} NoneYet<T>(r: Read<seq<T>>)
    ensures Prepended([], r) == r
  {
    assert r.Got? ==> [] + r.value == r.value;
  }

  lemma {:induction false} NoneLeft<T>(read: Bytes -> Read<T>, xs: seq<T>, b: Bytes)
    ensures Prepended(xs, ReadMany(read, 0, b)) == Got(xs, b)
  {
    assert xs + [] == xs;
  }

  method ParseInputs(r: StreamReader) returns (x: Option<seq<TxIn>>)
    requires r.Valid()
    modifies r`position
    ensures r.Valid()
    ensures var spec := ReadCounted(ReadInput, old(r.Rest()));
            if spec.Got? then x == Some(spec.value) && r.Rest() == spec.rest else x.None?
  {
    hide ReadInput, ReadVarInt, ReadMany, Prepended;
    var count := r.TakeVarInt();
    if count.None? { return None; }
    ghost var all := ReadMany(ReadInput, count.value, r.Rest());
    var inputs: seq<TxIn> := [];
    NoneYet(all);
    for i := 0 to count.value
      invariant r.Valid() && Prepended(inputs, ReadMany(ReadInput, count.value - i, r.Rest())) == all
    {
      NextItem(ReadInput, count.value - i, inputs, r.Rest());
      var input := ParseInput(r);
      if input.None? { return None; }
      inputs := inputs + [input.value];
    }
    NoneLeft(ReadInput, inputs, r.Rest());
    return Some(inputs);
  }

  method ParseOutputs(r: StreamReader) returns (x: Option<seq<TxOut>>)
    requires r.Valid()
    modifies r`position
    ensures r.Valid()
    ensures var spec := ReadCounted(ReadOutput, old(r.Rest()));
            if spec.Got? then x == Some(spec.value) && r.Rest() == spec.rest else x.None?
  {
    hide ReadBlob, ReadLe, ReadVarInt, ReadMany, Prepended;
    var count := r.TakeVarInt();
    if count.None? { return None; }
    ghost var all := ReadMany(ReadOutput, count.value, r.Rest());
    var outputs: seq<TxOut> := [];
    NoneYet(all);
    for i := 0 to count.value
      invariant r.Valid() && Prepended(outputs, ReadMany(ReadOutput, count.value - i, r.Rest())) == all
    {
      NextItem(ReadOutput, count.value - i, outputs, r.Rest());
      var value := r.TakeUInt(8);
      if value.None? { return None; }
      var script := ParseBlob(r);
      if script.None? { return None; }
      outputs := outputs + [TxOut(value.value, script.value)];
    }
    NoneLeft(ReadOutput, outputs, r.Rest());
    return Some(outputs);
  }

  method ParseStack(r: StreamReader) returns (x: Option<seq<Bytes>>)
    requires r.Valid()
    modifies r`position
    ensures r.Valid()
    ensures var spec := ReadStack(old(r.Rest()));
            if spec.Got? then x == Some(spec.value) && r.Rest() == spec.rest else x.None?
  {
    hide ReadBlob, ReadVarInt, ReadMany, Prepended;
    var items := r.TakeVarInt();
    if items.None? { return None; }
    ghost var all := ReadMany(ReadBlob, items.value, r.Rest());
    var stack: seq<Bytes> := [];
    NoneYet(all);
    for i := 0 to items.value
      invariant r.Valid() && Prepended(stack, ReadMany(ReadBlob, items.value - i, r.Rest())) == all
    {
      NextItem(ReadBlob, items.value - i, stack, r.Rest());
      var item := ParseBlob(r);
      if item.None? { return None; }
      stack := stack + [item.value];
    }
    NoneLeft(ReadBlob, stack, r.Rest());
    return Some(stack);
  }

  /** Every input gets its stack in place. */
  method ParseWitnesses(r: StreamReader, vins: seq<TxIn>) returns (x: Option<seq<TxIn>>)
    requires r.Valid()
    modifies r`position
    ensures r.Valid()
    ensures var spec := ReadMany(ReadStack, |vins|, old(r.Rest()));
            if spec.Got? then x == Some(Filled(vins, spec.value)) && r.Rest() == spec.rest else x.None?
  {
    hide ReadStack, ReadMany, Prepended;
    ghost var all := ReadMany(ReadStack, |vins|, r.Rest());
    ghost var stacks: seq<seq<Bytes>> := [];
    var inputs := vins;
    NoneYet(all);
    for i := 0 to |vins|
      invariant r.Valid() && Prepended(stacks, ReadMany(ReadStack, |vins| - i, r.Rest())) == all
      invariant |stacks| == i && |inputs| == |vins|
      invariant forall k :: 0 <= k < |vins| ==>
                              inputs[k] == if k < i then vins[k].(stack := stacks[k]) else vins[k]
    {
      NextItem(ReadStack, |vins| - i, stacks, r.Rest());
      var stack := ParseStack(r);
      if stack.None? { return None; }
      inputs := inputs[i := inputs[i].(stack := stack.value)];
      stacks := stacks + [stack.value];
    }
    NoneLeft(ReadStack, stacks, r.Rest());
    assert inputs == Filled(vins, stacks);
    return Some(inputs);
  }

  /** `Tx.parse` */
  method ParseTx(r: StreamReader, allowWitness: bool) returns (x: Option<Tx>)
    requires r.Valid()
    modifies r`position
    ensures r.Valid()
    ensures var spec := Parse(old(r.Rest()), allowWitness);
            if spec.Got? then x == Some(spec.value) && r.Rest() == spec.rest else x.None?
  {
    hide ReadLe, ReadCounted, ReadMany, ReadInput, ReadOutput, ReadStack;
    var version := r.TakeUInt(4);
    if version.None? { return None; }
    var vins := ParseInputs(r);
    if vins.None? { return None; }
    var inputs, outputs, flags := vins.value, [], 0;
    if allowWitness && |inputs| == 0 {
      var flag := r.TakeUInt(1);
      if flag.None? { return None; }
      flags := flag.value;
      if flags != 0 {
        vins := ParseInputs(r);
        if vins.None? { return None; }
        inputs := vins.value;
        var vouts := ParseOutputs(r);
        if vouts.None? { return None; }
        outputs := vouts.value;
      }
    } else {
      var vouts := ParseOutputs(r);
      if vouts.None? { return None; }
      outputs := vouts.value;
    }
    if allowWitness && flags % 2 == 1 {
      vins := ParseWitnesses(r, inputs);
      if vins.None? { return None; }
      inputs := vins.value;
    }
    var locktime := r.TakeUInt(4);
    if locktime.None? { return None; }
    return Some(Tx(version.value, inputs, outputs, locktime.value));
  }

  // ---------------------------------------------------------------------------
  // Writing

  /** A writer that grows, and what was in it before. */
  twostate predicate Grown(w: BufferWriter, more: Bytes)
    reads w, w.buffer
  {
    && w.Valid() && !w.fixed && (w.buffer == old(w.buffer) || fresh(w.buffer))
    && w.Written() == old(w.Written()) + more
  }

  /** The room that is needed, up to the largest buffer. */
  ghost predicate Room(w: BufferWriter, more: nat)
    reads w, w.buffer
  {
    w.Valid() && !w.fixed && w.position + more <= LARGEST
  }

  method SerializeInputs(w: BufferWriter, inputs: seq<TxIn>)
    requires |inputs| < TWO64 && Room(w, |Counted(WriteInput, inputs)|)
    modifies w`position, w`buffer, w.buffer
    ensures Grown(w, Counted(WriteInput, inputs))
  {
    hide VarInt, WriteInput, VarIntBytes;
    ghost var whole := w.Written() + Counted(WriteInput, inputs);
    var ok := w.WriteVarInt(|inputs|);
    Associate(old(w.Written()), VarInt(|inputs|), Many(WriteInput, inputs));
    for i := 0 to |inputs|
      invariant w.Valid() && !w.fixed && (w.buffer == old(w.buffer) || fresh(w.buffer))
      invariant w.Written() + Many(WriteInput, inputs[i..]) == whole
    {
      assert inputs[i..][1..] == inputs[i + 1..];
      Associate(w.Written(), WriteInput(inputs[i]), Many(WriteInput, inputs[i + 1..]));
      ok := w.WriteBytes(WriteInput(inputs[i]));
    }
    assert w.Written() + [] == w.Written();
  }

  method SerializeOutputs(w: BufferWriter, outputs: seq<TxOut>)
    requires |outputs| < TWO64 && Room(w, |Counted(WriteOutput, outputs)|)
    modifies w`position, w`buffer, w.buffer
    ensures Grown(w, Counted(WriteOutput, outputs))
  {
    hide VarInt, WriteOutput, VarIntBytes;
    ghost var whole := w.Written() + Counted(WriteOutput, outputs);
    var ok := w.WriteVarInt(|outputs|);
    Associate(old(w.Written()), VarInt(|outputs|), Many(WriteOutput, outputs));
    for i := 0 to |outputs|
      invariant w.Valid() && !w.fixed && (w.buffer == old(w.buffer) || fresh(w.buffer))
      invariant w.Written() + Many(WriteOutput, outputs[i..]) == whole
    {
      assert outputs[i..][1..] == outputs[i + 1..];
      Associate(w.Written(), WriteOutput(outputs[i]), Many(WriteOutput, outputs[i + 1..]));
      ok := w.WriteBytes(WriteOutput(outputs[i]));
    }
    assert w.Written() + [] == w.Written();
  }

  method SerializeStack(w: BufferWriter, stack: seq<Bytes>)
    requires |stack| < TWO64 && Room(w, |WriteStack(stack)|)
    modifies w`position, w`buffer, w.buffer
    ensures Grown(w, WriteStack(stack))
  {
    hide VarInt, Blob, VarIntBytes;
    ghost var whole := w.Written() + WriteStack(stack);
    var ok := w.WriteVarInt(|stack|);
    Associate(old(w.Written()), VarInt(|stack|), Many(Blob, stack));
    for i := 0 to |stack|
      invariant w.Valid() && !w.fixed && (w.buffer == old(w.buffer) || fresh(w.buffer))
      invariant w.Written() + Many(Blob, stack[i..]) == whole
    {
      assert stack[i..][1..] == stack[i + 1..];
      Associate(w.Written(), Blob(stack[i]), Many(Blob, stack[i + 1..]));
      ok := w.WriteBytes(Blob(stack[i]));
    }
    assert w.Written() + [] == w.Written();
  }

  method SerializeStacks(w: BufferWriter, inputs: seq<TxIn>)
    requires (forall i :: i in inputs ==> |i.stack| < TWO64) && Room(w, |Many(WriteStack, Stacks(inputs))|)
    modifies w`position, w`buffer, w.buffer
    ensures Grown(w, Many(WriteStack, Stacks(inputs)))
  {
    hide WriteStack;
    ghost var stacks := Stacks(inputs);
    ghost var whole := w.Written() + Many(WriteStack, stacks);
    for i := 0 to |inputs|
      invariant w.Valid() && !w.fixed && (w.buffer == old(w.buffer) || fresh(w.buffer))
      invariant w.Written() + Many(WriteStack, stacks[i..]) == whole
    {
      assert stacks[i..][1..] == stacks[i + 1..];
      Associate(w.Written(), WriteStack(stacks[i]), Many(WriteStack, stacks[i + 1..]));
      SerializeStack(w, inputs[i].stack);
    }
    assert w.Written() + [] == w.Written();
  }

  lemma LegacyParts(v: Bytes, ins: Bytes, outs: Bytes, l: Bytes)
    ensures ((([] + v) + ins) + outs) + l == v + (ins + (outs + ([] + l)))
  {
  }

  lemma SegWitParts(v: Bytes, ins: Bytes, outs: Bytes, stacks: Bytes, l: Bytes)
    ensures ((((([] + v) + [0, 1]) + ins) + outs) + stacks) + l == v + ([0, 1] + (ins + (outs + (stacks + l))))
  {
  }

  /** `_serializeLegacy` */
  method SerializeLegacy(tx: Tx) returns (b: Bytes)
    requires Legal(tx) && |Legacy(tx)| <= LARGEST
    ensures b == Legacy(tx)
  {
    hide Le, Counted, LegalInput, LegalOutput;
    LegacyParts(Le(tx.version, 4), Counted(WriteInput, tx.inputs), Counted(WriteOutput, tx.outputs), Le(tx.locktime, 4));
    var w := new BufferWriter();
    var ok := w.WriteBytes(Le(tx.version, 4));
    SerializeInputs(w, tx.inputs);
    SerializeOutputs(w, tx.outputs);
    ok := w.WriteBytes(Le(tx.locktime, 4));
    b := w.buffer[..w.position];
  }

  /** `_serializeSegWit` */
  method SerializeSegWit(tx: Tx) returns (b: Bytes)
    requires Legal(tx) && |SegWit(tx)| <= LARGEST
    ensures b == SegWit(tx)
  {
    hide Le, Counted, Many, LegalOutput;
    var w := new BufferWriter();
    var ok := w.WriteBytes(Le(tx.version, 4));
    ok := w.WriteBytes([0, 1]);
    SerializeInputs(w, tx.inputs);
    SerializeOutputs(w, tx.outputs);
    forall i | i in tx.inputs ensures |i.stack| < TWO64 {
      assert LegalInput(i);
    }
    SerializeStacks(w, tx.inputs);
    ok := w.WriteBytes(Le(tx.locktime, 4));
    SegWitParts(Le(tx.version, 4), Counted(WriteInput, tx.inputs), Counted(WriteOutput, tx.outputs),
                Many(WriteStack, Stacks(tx.inputs)), Le(tx.locktime, 4));
    b := w.buffer[..w.position];
  }

  method HasWitness(tx: Tx) returns (r: bool)
    ensures r == IsSegWit(tx)
  {
    for i := 0 to |tx.inputs|
      invariant forall k :: 0 <= k < i ==> tx.inputs[k].stack == []
    {
      if |tx.inputs[i].stack| > 0 {
        assert tx.inputs[i] in tx.inputs;
        return true;
      }
    }
    return false;
  }

  /** `serialize` */
  method SerializeTx(tx: Tx) returns (b: Bytes)
    requires Legal(tx) && |Serialize(tx)| <= LARGEST
    ensures b == Serialize(tx)
  {
    hide Legal, IsSegWit, SegWit, Legacy;
    var segWit := HasWitness(tx);
    if segWit { b := SerializeSegWit(tx); } else { b := SerializeLegacy(tx); }
  }

  // ---------------------------------------------------------------------------
  // Sizes

  method StackBytes(stack: seq<Bytes>) returns (bytes: nat)
    ensures bytes == StackSize(stack)
  {
    hide BlobSize, VarIntBytes;
    bytes := VarIntBytes(|stack|);
    assert stack[..0] == [];
    for i := 0 to |stack|
      invariant bytes == VarIntBytes(|stack|) + Sum(BlobSize, stack[..i])
    {
      assert stack[..i + 1] == stack[..i] + [stack[i]];
      SumAppends(BlobSize, stack[..i], stack[i]);
      bytes := bytes + BlobSize(stack[i]);
    }
    assert stack[..|stack|] == stack;
  }

  method InputBytes(inputs: seq<TxIn>, hasWitness: bool) returns (standardBytes: nat, witnessBytes: nat)
    ensures standardBytes == Sum(InputSize, inputs)
    ensures witnessBytes == if hasWitness then Sum(StackSize, Stacks(inputs)) else 0
  {
    hide BlobSize, StackSize;
    standardBytes, witnessBytes := 0, 0;
    ghost var stacks := Stacks(inputs);
    assert inputs[..0] == [] && stacks[..0] == [];
    for i := 0 to |inputs|
      invariant standardBytes == Sum(InputSize, inputs[..i])
      invariant witnessBytes == if hasWitness then Sum(StackSize, stacks[..i]) else 0
    {
      var input := inputs[i];
      assert inputs[..i + 1] == inputs[..i] + [input];
      SumAppends(InputSize, inputs[..i], input);
      standardBytes := standardBytes + 32 + 4 + BlobSize(input.script) + 4;
      if hasWitness {
        assert stacks[..i + 1] == stacks[..i] + [input.stack];
        SumAppends(StackSize, stacks[..i], input.stack);
        var stackBytes := StackBytes(input.stack);
        witnessBytes := witnessBytes + stackBytes;
      }
    }
    assert inputs[..|inputs|] == inputs && stacks[..|inputs|] == stacks;
  }

  method OutputBytes(outputs: seq<TxOut>) returns (standardBytes: nat)
    ensures standardBytes == Sum(OutputSize, outputs)
  {
    hide BlobSize;
    standardBytes := 0;
    assert outputs[..0] == [];
    for i := 0 to |outputs|
      invariant standardBytes == Sum(OutputSize, outputs[..i])
    {
      assert outputs[..i + 1] == outputs[..i] + [outputs[i]];
      SumAppends(OutputSize, outputs[..i], outputs[i]);
      standardBytes := standardBytes + 8 + BlobSize(outputs[i].script);
    }
    assert outputs[..|outputs|] == outputs;
  }

  /** `_calcSize`: the sizes are those of the two forms of the transaction, whichever of them it is sent in. */
  method CalcSize(tx: Tx) returns (size: nat, vsize: nat, weight: nat)
    requires Legal(tx)
    ensures size == |Serialize(tx)|
    ensures weight == 3 * |Legacy(tx)| + |Serialize(tx)|
    ensures 4 * vsize - 4 < weight <= 4 * vsize
  {
    hide InputSize, OutputSize, StackSize, VarIntBytes, Legal, Legacy, Serialize, IsSegWit;
    var hasWitness := HasWitness(tx);
    var inputBytes, stackBytes := InputBytes(tx.inputs, hasWitness);
    var outputBytes := OutputBytes(tx.outputs);
    var standardBytes := 4 + VarIntBytes(|tx.inputs|) + inputBytes + VarIntBytes(|tx.outputs|) + outputBytes + 4;
    var witnessBytes := if hasWitness then 2 + stackBytes else 0;
    SizesOfBytes(tx);
    size := standardBytes + witnessBytes;
    weight := standardBytes * 4 + witnessBytes;
    vsize := (weight + 3) / 4;
  }
}
