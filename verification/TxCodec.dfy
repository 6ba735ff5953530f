/**
 Bitcoin transactions as bytes: the legacy form, the segregated witness form of BIP144, the reader that
 tells them apart, and the sizes of BIP141.
*/
module TxCodec {
  import opened Common
  import opened BufferIo
  import opened CountedLists

  const TWO32: nat := 0x1_0000_0000
  const TWO64: nat := 0x1_0000_0000_0000_0000

  datatype TxIn = TxIn(txid: Bytes, index: nat, script: Bytes, sequence: nat, stack: seq<Bytes>)

  datatype TxOut = TxOut(value: nat, script: Bytes)

  datatype Tx = Tx(version: nat, inputs: seq<TxIn>, outputs: seq<TxOut>, locktime: nat)

  /** The ranges outside of which writing is an exception. */
  predicate LegalBlob(b: Bytes) {
    |b| < TWO64
  }

  predicate LegalInput(i: TxIn) {
    && |i.txid| == 32 && i.index < TWO32 && |i.script| < TWO64 && i.sequence < TWO32
    && |i.stack| < TWO64 && forall w :: w in i.stack ==> LegalBlob(w)
  }

  predicate LegalOutput(o: TxOut) {
    o.value < TWO64 && |o.script| < TWO64
  }

  predicate Legal(tx: Tx) {
    && tx.version < TWO32 && tx.locktime < TWO32 && |tx.inputs| < TWO64 && |tx.outputs| < TWO64
    && (forall i :: i in tx.inputs ==> LegalInput(i))
    && (forall o :: o in tx.outputs ==> LegalOutput(o))
  }

  /** `isSegWit` */
  predicate IsSegWit(tx: Tx) {
    exists i :: i in tx.inputs && i.stack != []
  }

  // ---------------------------------------------------------------------------
  // Writing

  function Blob(b: Bytes): Bytes {
    VarInt(|b|) + b
  }

  function WriteInput(i: TxIn): Bytes {
    i.txid + (Le(i.index, 4) + (Blob(i.script) + Le(i.sequence, 4)))
  }

  function WriteOutput(o: TxOut): Bytes {
    Le(o.value, 8) + Blob(o.script)
  }

  function WriteStack(stack: seq<Bytes>): Bytes {
    Counted(Blob, stack)
  }

  function Stacks(inputs: seq<TxIn>): (s: seq<seq<Bytes>>)
    ensures |s| == |inputs| && forall k :: 0 <= k < |s| ==> s[k] == inputs[k].stack
  {
    if inputs == [] then [] else [inputs[0].stack] + Stacks(inputs[1..])
  }

  /** Inputs, outputs, any witnesses and the lock time. */
  function Body(tx: Tx, witnesses: Bytes): Bytes {
    Counted(WriteInput, tx.inputs) + (Counted(WriteOutput, tx.outputs) + (witnesses + Le(tx.locktime, 4)))
  }

  function Legacy(tx: Tx): Bytes {
    Le(tx.version, 4) + Body(tx, [])
  }

  function SegWit(tx: Tx): Bytes {
    Le(tx.version, 4) + ([0, 1] + Body(tx, Many(WriteStack, Stacks(tx.inputs))))
  }

  function Serialize(tx: Tx): Bytes {
    if IsSegWit(tx) then SegWit(tx) else Legacy(tx)
  }

  // ---------------------------------------------------------------------------
  // Reading

  function ReadBlob(b: Bytes): Read<Bytes> {
    match ReadVarInt(b)
    case Failed => Failed
    case Got(n, rest) => ReadBytes(rest, n)
  }

  function ReadInput(b: Bytes): Read<TxIn> {
    match ReadBytes(b, 32)
    case Failed => Failed
    case Got(txid, b1) =>
      match ReadLe(b1, 4)
      case Failed => Failed
      case Got(index, b2) =>
        match ReadBlob(b2)
        case Failed => Failed
        case Got(script, b3) =>
          match ReadLe(b3, 4)
          case Failed => Failed
          case Got(sequence, rest) => Got(TxIn(txid, index, script, sequence, []), rest)
  }

  function ReadOutput(b: Bytes): Read<TxOut> {
    match ReadLe(b, 8)
    case Failed => Failed
    case Got(value, b1) =>
      match ReadBlob(b1)
      case Failed => Failed
      case Got(script, rest) => Got(TxOut(value, script), rest)
  }

  function ReadStack(b: Bytes): Read<seq<Bytes>> {
    ReadCounted(ReadBlob, b)
  }

  function Filled(inputs: seq<TxIn>, stacks: seq<seq<Bytes>>): (r: seq<TxIn>)
    requires |inputs| == |stacks|
    ensures |r| == |inputs| && forall k :: 0 <= k < |r| ==> r[k] == inputs[k].(stack := stacks[k])
  {
    if inputs == [] then [] else [inputs[0].(stack := stacks[0])] + Filled(inputs[1..], stacks[1..])
  }

  function ReadEnd(version: nat, inputs: seq<TxIn>, outputs: seq<TxOut>, b: Bytes): Read<Tx> {
    match ReadLe(b, 4)
    case Failed => Failed
    case Got(locktime, rest) => Got(Tx(version, inputs, outputs, locktime), rest)
  }

  function ReadOutputsEnd(version: nat, inputs: seq<TxIn>, b: Bytes): Read<Tx> {
    match ReadCounted(ReadOutput, b)
    case Failed => Failed
    case Got(outputs, rest) => ReadEnd(version, inputs, outputs, rest)
  }

  /** What follows a marker: with an odd flag every input has a witness stack. */
  function ReadFlagged(version: nat, flag: nat, b: Bytes): Read<Tx> {
    match ReadCounted(ReadInput, b)
    case Failed => Failed
    case Got(inputs, b1) =>
      match ReadCounted(ReadOutput, b1)
      case Failed => Failed
      case Got(outputs, b2) =>
        if flag % 2 == 0 then ReadEnd(version, inputs, outputs, b2)
        else
          match ReadMany(ReadStack, |inputs|, b2)
          case Failed => Failed
          case Got(stacks, b3) => ReadEnd(version, Filled(inputs, stacks), outputs, b3)
  }

  /** `parse`: no inputs is taken for the marker of the segregated witness form when that is allowed. */
  function Parse(b: Bytes, allowWitness: bool): Read<Tx> {
    match ReadLe(b, 4)
    case Failed => Failed
    case Got(version, b1) =>
      match ReadCounted(ReadInput, b1)
      case Failed => Failed
      case Got(inputs, b2) =>
        if allowWitness && inputs == [] then
          match ReadLe(b2, 1)
          case Failed => Failed
          case Got(flag, b3) =>
            if flag == 0 then ReadEnd(version, [], [], b3) else ReadFlagged(version, flag, b3)
        else ReadOutputsEnd(version, inputs, b2)
  }

  /** `fromBuffer`: a failed reading is tried again without witnesses; bytes left over are ignored. */
  function FromBuffer(b: Bytes): Option<Tx> {
    var r := Parse(b, true);
    if r.Got? then Some(r.value)
    else
      var legacy := Parse(b, false);
      if legacy.Got? then Some(legacy.value) else None
  }

  // ---------------------------------------------------------------------------
  // The parts come back

  lemma {:induction false} BlobsBack(b: Bytes)
    requires LegalBlob(b)
    ensures ComesBack(Blob, ReadBlob, b)
  {
    hide VarInt, ReadVarInt;
    forall rest: Bytes ensures ReadBlob(Blob(b) + rest) == Got(b, rest) {
      Associate(VarInt(|b|), b, rest);
      VarIntBack(|b|, b + rest);
      BytesAppended(b, rest);
    }
  }

  lemma {:induction false} BlobBack(b: Bytes, rest: Bytes)
    requires LegalBlob(b)
    ensures ReadBlob(Blob(b) + rest) == Got(b, rest)
  {
    hide Blob, ReadBlob;
    BlobsBack(b);
    assert ComesBack(Blob, ReadBlob, b);
  }

  lemma {:induction false} StackBack(stack: seq<Bytes>)
    requires |stack| < TWO64 && forall w :: w in stack ==> LegalBlob(w)
    ensures ComesBack(WriteStack, ReadStack, stack)
  {
    hide Blob, ReadBlob, Counted, ReadCounted;
    forall w | w in stack ensures ComesBack(Blob, ReadBlob, w) {
      BlobsBack(w);
    }
    forall rest: Bytes ensures ReadStack(WriteStack(stack) + rest) == Got(stack, rest) {
      CountedBack(Blob, ReadBlob, stack, rest);
    }
  }

  lemma InputParts(a: Bytes, b: Bytes, c: Bytes, d: Bytes, rest: Bytes)
    ensures (a + (b + (c + d))) + rest == a + (b + (c + (d + rest)))
  {
  }

  lemma FourBytes()
    ensures Pow256(4) == TWO32 && Pow256(8) == TWO64
  {
    Powers();
  }

  /** An input is read back but for its witness, which is elsewhere. */
  lemma {:induction false} InputBack(i: TxIn)
    requires LegalInput(i) && i.stack == []
    ensures ComesBack(WriteInput, ReadInput, i)
  {
    forall rest: Bytes ensures ReadInput(WriteInput(i) + rest) == Got(i, rest) {
      FourBytes();
      hide Le, Blob, ReadBlob, ReadLe, ReadBytes, Pow256;
      var script, sequence := Blob(i.script), Le(i.sequence, 4);
      InputParts(i.txid, Le(i.index, 4), script, sequence, rest);
      BytesAppended(i.txid, Le(i.index, 4) + (script + (sequence + rest)));
      LeAppended(i.index, 4, script + (sequence + rest));
      BlobBack(i.script, sequence + rest);
      LeAppended(i.sequence, 4, rest);
    }
  }

  lemma {:induction false} OutputBack(o: TxOut)
    requires LegalOutput(o)
    ensures ComesBack(WriteOutput, ReadOutput, o)
  {
    forall rest: Bytes ensures ReadOutput(WriteOutput(o) + rest) == Got(o, rest) {
      FourBytes();
      hide Le, Blob, ReadBlob, ReadLe, Pow256;
      Associate(Le(o.value, 8), Blob(o.script), rest);
      LeAppended(o.value, 8, Blob(o.script) + rest);
      BlobBack(o.script, rest);
    }
  }

  /** The inputs as they are read before any witness. */
  function Bare(inputs: seq<TxIn>): (r: seq<TxIn>)
    ensures |r| == |inputs| && forall k :: 0 <= k < |r| ==> r[k] == inputs[k].(stack := [])
  {
    if inputs == [] then [] else [inputs[0].(stack := [])] + Bare(inputs[1..])
  }

  lemma {:induction false} BareBytes(inputs: seq<TxIn>)
    ensures Many(WriteInput, Bare(inputs)) == Many(WriteInput, inputs)
    decreases |inputs|
  {
    hide Le, Blob;
    if inputs != [] {
      BareBytes(inputs[1..]);
      assert Bare(inputs)[1..] == Bare(inputs[1..]);
      assert WriteInput(Bare(inputs)[0]) == WriteInput(inputs[0]);
    }
  }

  lemma {:induction false} InputsBack(inputs: seq<TxIn>, rest: Bytes)
    requires |inputs| < TWO64 && forall i :: i in inputs ==> LegalInput(i)
    ensures ReadCounted(ReadInput, Counted(WriteInput, inputs) + rest) == Got(Bare(inputs), rest)
  {
    hide ReadCounted, WriteInput, ReadInput, VarInt;
    var bare := Bare(inputs);
    forall i | i in bare ensures ComesBack(WriteInput, ReadInput, i) {
      var k :| 0 <= k < |bare| && bare[k] == i;
      assert LegalInput(inputs[k]);
      InputBack(i);
    }
    CountedBack(WriteInput, ReadInput, bare, rest);
    BareBytes(inputs);
  }

  lemma {:induction false} OutputsBack(outputs: seq<TxOut>, rest: Bytes)
    requires |outputs| < TWO64 && forall o :: o in outputs ==> LegalOutput(o)
    ensures ReadCounted(ReadOutput, Counted(WriteOutput, outputs) + rest) == Got(outputs, rest)
  {
    hide ReadCounted, Counted, WriteOutput, ReadOutput;
    forall o | o in outputs ensures ComesBack(WriteOutput, ReadOutput, o) {
      OutputBack(o);
    }
    CountedBack(WriteOutput, ReadOutput, outputs, rest);
  }

  lemma {:induction false} StacksBack(inputs: seq<TxIn>, rest: Bytes)
    requires forall i :: i in inputs ==> LegalInput(i)
    ensures ReadMany(ReadStack, |inputs|, Many(WriteStack, Stacks(inputs)) + rest) == Got(Stacks(inputs), rest)
  {
    hide WriteStack, ReadStack, Many, ReadMany;
    var stacks := Stacks(inputs);
    forall s | s in stacks ensures ComesBack(WriteStack, ReadStack, s) {
      var k :| 0 <= k < |stacks| && stacks[k] == s;
      assert LegalInput(inputs[k]);
      StackBack(s);
    }
    ManyBack(WriteStack, ReadStack, stacks, rest);
  }

  lemma {:induction false} FilledAgain(inputs: seq<TxIn>)
    ensures Filled(Bare(inputs), Stacks(inputs)) == inputs
  {
    forall k | 0 <= k < |inputs| ensures Filled(Bare(inputs), Stacks(inputs))[k] == inputs[k] {
    }
  }

  lemma {:induction false} BareAlready(inputs: seq<TxIn>)
    requires forall i :: i in inputs ==> i.stack == []
    ensures Bare(inputs) == inputs
  {
    forall k | 0 <= k < |inputs| ensures Bare(inputs)[k] == inputs[k] {
    }
  }

  // ---------------------------------------------------------------------------
  // The transaction comes back

  lemma BodyParts(v: Bytes, ins: Bytes, outs: Bytes, witnesses: Bytes, l: Bytes, rest: Bytes)
    ensures (v + (ins + (outs + (witnesses + l)))) + rest == v + (ins + (outs + (witnesses + (l + rest))))
    ensures [] + (l + rest) == l + rest
  {
  }

  lemma MarkedParts(v: Bytes, body: Bytes, rest: Bytes)
    ensures (v + ([0, 1] + body)) + rest == v + ([0] + ([1] + (body + rest)))
  {
  }

  /** The legacy form gives back everything but the witnesses. */
  lemma {:induction false} LegacyBack(tx: Tx, allowWitness: bool, rest: Bytes)
    requires Legal(tx) && (tx.inputs != [] || !allowWitness)
    ensures Parse(Legacy(tx) + rest, allowWitness) == Got(tx.(inputs := Bare(tx.inputs)), rest)
  {
    FourBytes();
    hide Le, Counted, ReadCounted, ReadLe, Pow256, LegalInput, LegalOutput;
    var ins, outs, l := Counted(WriteInput, tx.inputs), Counted(WriteOutput, tx.outputs), Le(tx.locktime, 4);
    BodyParts(Le(tx.version, 4), ins, outs, [], l, rest);
    LeAppended(tx.version, 4, ins + (outs + (l + rest)));
    InputsBack(tx.inputs, outs + (l + rest));
    OutputsBack(tx.outputs, l + rest);
    LeAppended(tx.locktime, 4, rest);
  }

  lemma OneByte(x: Byte, rest: Bytes)
    ensures ReadLe([x] + rest, 1) == Got(x as nat, rest)
    ensures ReadVarInt([0] + rest) == Got(0, rest)
  {
    assert ([x] + rest)[..1] == [x] && ([x] + rest)[1..] == rest;
    assert LeValue([x]) == x as nat + 256 * LeValue([x][1..]);
  }

  /** Any odd flag announces the witnesses. */
  lemma {:induction false} FlaggedBack(tx: Tx, flag: nat, rest: Bytes)
    requires Legal(tx) && flag % 2 == 1
    ensures ReadFlagged(tx.version, flag, Body(tx, Many(WriteStack, Stacks(tx.inputs))) + rest) == Got(tx, rest)
  {
    FourBytes();
    hide Le, Counted, ReadCounted, ReadLe, Pow256, LegalOutput, Many, ReadMany;
    var ins, outs, l := Counted(WriteInput, tx.inputs), Counted(WriteOutput, tx.outputs), Le(tx.locktime, 4);
    var stacks := Many(WriteStack, Stacks(tx.inputs));
    BodyParts([], ins, outs, stacks, l, rest);
    assert Body(tx, stacks) + rest == ins + (outs + (stacks + (l + rest)));
    InputsBack(tx.inputs, outs + (stacks + (l + rest)));
    OutputsBack(tx.outputs, stacks + (l + rest));
    StacksBack(tx.inputs, l + rest);
    FilledAgain(tx.inputs);
    LeAppended(tx.locktime, 4, rest);
  }

  /** The segregated witness form gives everything back. */
  lemma {:induction false} SegWitBack(tx: Tx, rest: Bytes)
    requires Legal(tx)
    ensures Parse(SegWit(tx) + rest, true) == Got(tx, rest)
  {
    FourBytes();
    var body := Body(tx, Many(WriteStack, Stacks(tx.inputs)));
    MarkedParts(Le(tx.version, 4), body, rest);
    FlaggedBack(tx, 1, rest);
    assert tx.version < TWO32;
    hide Parse, ReadFlagged, Legal, Le, Body;
    MarkedParse(tx.version, 1, body + rest);
  }

  /** No inputs and then a byte that is not zero are a marker and its flag. */
  lemma {:induction false} MarkedParse(version: nat, flag: Byte, b: Bytes)
    requires version < TWO32 && flag != 0
    ensures Parse(Le(version, 4) + ([0] + ([flag] + b)), true) == ReadFlagged(version, flag as nat, b)
  {
    FourBytes();
    hide Le, ReadVarInt, ReadLe, Pow256, ReadFlagged, ReadInput;
    LeAppended(version, 4, [0] + ([flag] + b));
    OneByte(0, [flag] + b);
    OneByte(flag, b);
  }

  /** Any even flag announces nothing. */
  lemma {:induction false} FlaggedBare(tx: Tx, flag: nat, rest: Bytes)
    requires Legal(tx) && flag % 2 == 0
    ensures ReadFlagged(tx.version, flag, Body(tx, []) + rest) == Got(tx.(inputs := Bare(tx.inputs)), rest)
  {
    FourBytes();
    hide Le, Counted, ReadCounted, ReadLe, Pow256, LegalOutput;
    var ins, outs, l := Counted(WriteInput, tx.inputs), Counted(WriteOutput, tx.outputs), Le(tx.locktime, 4);
    BodyParts([], ins, outs, [], l, rest);
    assert Body(tx, []) + rest == ins + (outs + (l + rest));
    InputsBack(tx.inputs, outs + (l + rest));
    OutputsBack(tx.outputs, l + rest);
    LeAppended(tx.locktime, 4, rest);
  }

  /** Behind the marker any flag but zero is taken: odd ones with a witness for each input, even ones without. */
  lemma {:induction false} AnyFlagBack(tx: Tx, flag: Byte, rest: Bytes)
    requires Legal(tx) && flag != 0
    ensures flag % 2 == 1 ==>
            Parse(Le(tx.version, 4) + ([0] + ([flag] + (Body(tx, Many(WriteStack, Stacks(tx.inputs))) + rest))), true)
            == Got(tx, rest)
    ensures flag % 2 == 0 ==>
            Parse(Le(tx.version, 4) + ([0] + ([flag] + (Body(tx, []) + rest))), true)
            == Got(tx.(inputs := Bare(tx.inputs)), rest)
  {
    assert tx.version < TWO32;
    assert flag as nat % 2 == (flag % 2) as nat;
    hide Parse, ReadFlagged, Legal, Le, Body, Many;
    if flag % 2 == 1 {
      MarkedParse(tx.version, flag, Body(tx, Many(WriteStack, Stacks(tx.inputs))) + rest);
      FlaggedBack(tx, flag as nat, rest);
    } else {
      MarkedParse(tx.version, flag, Body(tx, []) + rest);
      FlaggedBare(tx, flag as nat, rest);
    }
  }

  /** A flag and then no inputs and no outputs. */
  lemma {:induction false} FlaggedEmpty(version: nat, flag: nat, b: Bytes)
    ensures ReadFlagged(version, flag, [0] + ([0] + b)) == ReadEnd(version, [], [], b)
  {
    hide ReadVarInt, ReadEnd, ReadInput, ReadOutput, ReadStack;
    OneByte(0, [0] + b);
    OneByte(0, b);
  }

  /** Read back wrongly: outputs but no inputs. */
  predicate Ambiguous(tx: Tx) {
    tx.inputs == [] && tx.outputs != []
  }

  lemma {:induction false} EmptyBack(tx: Tx, rest: Bytes)
    requires Legal(tx) && tx.inputs == [] && tx.outputs == []
    ensures Parse(Serialize(tx) + rest, true) == Got(tx, rest)
  {
    FourBytes();
    hide Le, ReadVarInt, ReadLe, Pow256;
    var l := Le(tx.locktime, 4);
    assert Legacy(tx) + rest == Le(tx.version, 4) + ([0] + ([0] + (l + rest)));
    LeAppended(tx.version, 4, [0] + ([0] + (l + rest)));
    OneByte(0, [0] + (l + rest));
    OneByte(0, l + rest);
    LeAppended(tx.locktime, 4, rest);
  }

  /** Whatever follows its bytes, a transaction with an input is read back from exactly those bytes. */
  lemma {:induction false} TxBack(tx: Tx, rest: Bytes)
    requires Legal(tx) && !Ambiguous(tx)
    ensures Parse(Serialize(tx) + rest, true) == Got(tx, rest)
  {
    hide Parse, Legacy, SegWit, LegalInput, LegalOutput;
    if tx.inputs == [] {
      EmptyBack(tx, rest);
    } else if IsSegWit(tx) {
      SegWitBack(tx, rest);
    } else {
      BareAlready(tx.inputs);
      LegacyBack(tx, true, rest);
    }
  }

  // ---------------------------------------------------------------------------
  // Sizes

  function BlobSize(b: Bytes): nat {
    VarIntBytes(|b|) + |b|
  }

  function InputSize(i: TxIn): nat {
    32 + 4 + BlobSize(i.script) + 4
  }

  function OutputSize(o: TxOut): nat {
    8 + BlobSize(o.script)
  }

  function StackSize(stack: seq<Bytes>): nat {
    VarIntBytes(|stack|) + Sum(BlobSize, stack)
  }

  /** The bytes outside of the witnesses. */
  function BaseSize(tx: Tx): nat {
    4 + (VarIntBytes(|tx.inputs|) + Sum(InputSize, tx.inputs))
    + (VarIntBytes(|tx.outputs|) + Sum(OutputSize, tx.outputs)) + 4
  }

  function WitnessSize(tx: Tx): nat {
    if IsSegWit(tx) then 2 + Sum(StackSize, Stacks(tx.inputs)) else 0
  }

  lemma {:induction false} StackLength(stack: seq<Bytes>)
    ensures |WriteStack(stack)| == StackSize(stack)
  {
    hide VarInt, VarIntBytes;
    ManySize(Blob, BlobSize, stack);
  }

  /** The sizes are those of the bytes. */
  lemma {:induction false} SizesOfBytes(tx: Tx)
    requires Legal(tx)
    ensures |Legacy(tx)| == BaseSize(tx) && |Serialize(tx)| == BaseSize(tx) + WitnessSize(tx)
  {
    hide VarInt, VarIntBytes, Le, WriteStack, StackSize;
    forall i | i in tx.inputs ensures |WriteInput(i)| == InputSize(i) {
      assert LegalInput(i);
    }
    ManySize(WriteInput, InputSize, tx.inputs);
    ManySize(WriteOutput, OutputSize, tx.outputs);
    forall s: seq<Bytes> ensures |WriteStack(s)| == StackSize(s) {
      StackLength(s);
    }
    ManySize(WriteStack, StackSize, Stacks(tx.inputs));
  }

  lemma {:induction false} BlobTakes()
    ensures Takes(ReadBlob, BlobSize)
  {
    hide ReadVarInt, VarIntBytes;
    forall b: Bytes ensures ReadBlob(b).Got? ==> |b| >= |ReadBlob(b).rest| + BlobSize(ReadBlob(b).value) {
      VarIntTakes(b);
    }
  }

  lemma {:induction false} InputTakes()
    ensures Takes(ReadInput, InputSize)
  {
    hide ReadBlob, BlobSize, LeValue;
    BlobTakes();
  }

  lemma {:induction false} OutputTakes()
    ensures Takes(ReadOutput, OutputSize)
  {
    hide ReadBlob, BlobSize, LeValue;
    BlobTakes();
  }

  lemma {:induction false} StackTakes()
    ensures Takes(ReadStack, StackSize)
  {
    hide ReadBlob, BlobSize, ReadCounted, VarIntBytes;
    BlobTakes();
    forall b: Bytes ensures ReadStack(b).Got? ==> |b| >= |ReadStack(b).rest| + StackSize(ReadStack(b).value) {
      CountedTakes(ReadBlob, BlobSize, b);
    }
  }

  lemma {:induction false} ReadBare(n: nat, b: Bytes)
    ensures var r := ReadMany(ReadInput, n, b); r.Got? ==> forall i :: i in r.value ==> i.stack == []
    decreases n
  {
    hide ReadBlob, ReadLe, ReadBytes;
    if n > 0 && ReadInput(b).Got? {
      ReadBare(n - 1, ReadInput(b).rest);
    }
  }

  lemma {:induction false} FilledSizes(inputs: seq<TxIn>, stacks: seq<seq<Bytes>>)
    requires |inputs| == |stacks|
    ensures Sum(InputSize, Filled(inputs, stacks)) == Sum(InputSize, inputs)
    ensures Stacks(Filled(inputs, stacks)) == stacks
    decreases |inputs|
  {
    hide BlobSize;
    if inputs != [] {
      FilledSizes(inputs[1..], stacks[1..]);
      assert Filled(inputs, stacks)[1..] == Filled(inputs[1..], stacks[1..]);
      assert InputSize(Filled(inputs, stacks)[0]) == InputSize(inputs[0]);
    }
  }

  lemma {:induction false} CountedInputsTake(b: Bytes)
    ensures var r := ReadCounted(ReadInput, b);
            r.Got? ==> (&& |b| >= |r.rest| + (VarIntBytes(|r.value|) + Sum(InputSize, r.value))
                        && forall i :: i in r.value ==> i.stack == [])
  {
    hide ReadInput, InputSize, VarIntBytes, ReadMany;
    InputTakes();
    CountedTakes(ReadInput, InputSize, b);
    var n := ReadVarInt(b);
    if n.Got? {
      ReadBare(n.value, n.rest);
    }
  }

  lemma {:induction false} CountedOutputsTake(b: Bytes)
    ensures var r := ReadCounted(ReadOutput, b);
            r.Got? ==> |b| >= |r.rest| + (VarIntBytes(|r.value|) + Sum(OutputSize, r.value))
  {
    hide ReadOutput, OutputSize, VarIntBytes;
    OutputTakes();
    CountedTakes(ReadOutput, OutputSize, b);
  }

  /** A marked transaction takes at least the bytes of its own form but for the version. */
  lemma {:induction false} FlaggedTakes(version: nat, flag: nat, b: Bytes)
    ensures var r := ReadFlagged(version, flag, b);
            r.Got? ==> |b| + (if IsSegWit(r.value) then 6 else 4) >= |r.rest| + BaseSize(r.value) + WitnessSize(r.value)
  {
    hide ReadCounted, VarIntBytes, InputSize, OutputSize, ReadStack, StackSize, ReadMany, LeValue;
    CountedInputsTake(b);
    var ins := ReadCounted(ReadInput, b);
    if ins.Got? {
      CountedOutputsTake(ins.rest);
      var outs := ReadCounted(ReadOutput, ins.rest);
      if outs.Got? && flag % 2 == 1 {
        StackTakes();
        ManyTakes(ReadStack, StackSize, |ins.value|, outs.rest);
        var stacks := ReadMany(ReadStack, |ins.value|, outs.rest);
        if stacks.Got? {
          FilledSizes(ins.value, stacks.value);
        }
      }
    }
  }

  function ReadTx(b: Bytes): Read<Tx> {
    Parse(b, true)
  }

  /** One more than the size for a transaction that is never read from its own bytes. */
  function TakenBy(tx: Tx): nat {
    BaseSize(tx) + WitnessSize(tx) + if Ambiguous(tx) then 1 else 0
  }

  /** What was read took its own size at least, and more when it has outputs but no inputs. */
  lemma {:induction false} TxTakes()
    ensures Takes(ReadTx, TakenBy)
  {
    forall b: Bytes ensures ReadTx(b).Got? ==> |b| >= |ReadTx(b).rest| + TakenBy(ReadTx(b).value) {
      OneTxTakes(b);
    }
  }

  lemma {:induction false} OneTxTakes(b: Bytes)
    ensures var r := ReadTx(b); r.Got? ==> |b| >= |r.rest| + TakenBy(r.value)
  {
    hide ReadCounted, InputSize, OutputSize, StackSize, LeValue, ReadFlagged;
    if ReadLe(b, 4).Got? {
      var version, b1 := ReadLe(b, 4).value, ReadLe(b, 4).rest;
      CountedInputsTake(b1);
      var ins := ReadCounted(ReadInput, b1);
      if ins.Got? {
        CountedOutputsTake(ins.rest);
        if ins.value == [] && ReadLe(ins.rest, 1).Got? {
          var flag, b3 := ReadLe(ins.rest, 1).value, ReadLe(ins.rest, 1).rest;
          FlaggedTakes(version, flag, b3);
          assert |b| >= |b3| + 6;
        }
      }
    }
  }

  /** A transaction comes back from its bytes just when it has an input or no outputs. */
  lemma {:induction false} TxBackIff(tx: Tx, rest: Bytes)
    requires Legal(tx)
    ensures Parse(Serialize(tx) + rest, true) == Got(tx, rest) <==> (tx.inputs != [] || tx.outputs == [])
  {
    hide Parse, Serialize, BaseSize, WitnessSize, Legal;
    if Ambiguous(tx) {
      OneTxTakes(Serialize(tx) + rest);
      SizesOfBytes(tx);
    } else {
      TxBack(tx, rest);
    }
  }

  /** `fromBuffer` gives back, of the others, those that its first reading refuses. */
  lemma {:induction false} FromBufferBackIff(tx: Tx)
    requires Legal(tx)
    ensures FromBuffer(Serialize(tx)) == Some(tx)
            <==> (tx.inputs != [] || tx.outputs == [] || Parse(Serialize(tx), true).Failed?)
  {
    assert Ambiguous(tx) ==> Serialize(tx) == Legacy(tx);
    hide Parse, Serialize, BaseSize, WitnessSize, Legal, Legacy;
    assert Serialize(tx) + [] == Serialize(tx);
    if Ambiguous(tx) {
      OneTxTakes(Serialize(tx));
      SizesOfBytes(tx);
      LegacyBack(tx, false, []);
    } else {
      TxBack(tx, []);
    }
  }

  /** No input is read from fewer than 41 bytes. */
  lemma {:induction false} InputsTake41(inputs: seq<TxIn>)
    ensures Sum(InputSize, inputs) >= 41 * |inputs|
    decreases |inputs|
  {
    hide VarIntBytes;
    if inputs != [] {
      assert VarIntBytes(|inputs[0].script|) >= 1 by {
        VarIntTakesSome(|inputs[0].script|);
      }
      InputsTake41(inputs[1..]);
    }
  }

  lemma VarIntTakesSome(n: nat)
    ensures VarIntBytes(n) >= 1
  {
  }

  lemma {:induction false} TooManyInputs(n: Byte, b: Bytes)
    requires n < 0xfd && |b| < 41 * n as nat
    ensures ReadCounted(ReadInput, [n] + b).Failed?
  {
    assert ([n] + b)[1..] == b;
    hide ReadInput, InputSize;
    var r := ReadMany(ReadInput, n as nat, b);
    if r.Got? {
      InputTakes();
      ManyTakes(ReadInput, InputSize, n as nat, b);
      InputsTake41(r.value);
    }
  }

  /** How a transaction without inputs and under 253 outputs begins, where b and c are the low bytes of the first value. */
  lemma {:induction false} AmbiguousStarts(tx: Tx) returns (rest: Bytes)
    requires Legal(tx) && Ambiguous(tx) && |tx.outputs| < 0xfd
    ensures var value := tx.outputs[0].value;
            Serialize(tx) == Le(tx.version, 4) + ([0] + ([|tx.outputs| as Byte] +
                             ([(value % 256) as Byte] + ([(value / 256 % 256) as Byte] + rest))))
    ensures rest == Le(tx.outputs[0].value / 256 / 256, 6)
                    + (Blob(tx.outputs[0].script) + (Many(WriteOutput, tx.outputs[1..]) + Le(tx.locktime, 4)))
    ensures |rest| >= 4
  {
    var o := tx.outputs[0];
    var tail := Many(WriteOutput, tx.outputs[1..]) + Le(tx.locktime, 4);
    rest := Le(o.value / 256 / 256, 6) + (Blob(o.script) + tail);
    assert Le(o.value, 8) == [(o.value % 256) as Byte] + ([(o.value / 256 % 256) as Byte] + Le(o.value / 256 / 256, 6));
    assert Counted(WriteInput, tx.inputs) == [0];
    assert Counted(WriteOutput, tx.outputs) == [|tx.outputs| as Byte] + (WriteOutput(o) + Many(WriteOutput, tx.outputs[1..]));
    hide Le, Blob, Many, Counted;
    Regroup(Le(tx.version, 4), [|tx.outputs| as Byte], [(o.value % 256) as Byte], [(o.value / 256 % 256) as Byte],
            Le(o.value / 256 / 256, 6), Blob(o.script), Many(WriteOutput, tx.outputs[1..]), Le(tx.locktime, 4));
  }

  lemma Regroup(v: Bytes, n: Bytes, b: Bytes, c: Bytes, value: Bytes, script: Bytes, more: Bytes, l: Bytes)
    ensures v + ([0] + ((n + (((b + (c + value)) + script) + more)) + ([] + l)))
            == v + ([0] + (n + (b + (c + (value + (script + (more + l)))))))
  {
  }

  /**
   Outputs but no inputs: where the low byte of the first value, read as a number of inputs, asks for more
   bytes than there are, the first reading is refused and the second gives the transaction back.
  */
  lemma {:induction false} RefusedComesBack(tx: Tx)
    requires Legal(tx) && Ambiguous(tx) && |tx.outputs| < 0xfd
    requires var low := tx.outputs[0].value % 256; low < 0xfd && 41 * low > |Serialize(tx)| - 7
    ensures FromBuffer(Serialize(tx)) == Some(tx)
  {
    var value := tx.outputs[0].value;
    var n, low := |tx.outputs| as Byte, (value % 256) as Byte;
    var tail := AmbiguousStarts(tx);
    var b := [(value / 256 % 256) as Byte] + tail;
    FromBufferBackIff(tx);
    assert tx.version < TWO32 && |Le(tx.version, 4)| == 4;
    TooManyInputs(low, b);
    hide Le, Parse, ReadCounted, Legal, Serialize, FromBuffer;
    MarkedParse(tx.version, n, [low] + b);
  }

  lemma {:induction false} RoundStarts(tx: Tx) returns (rest: Bytes)
    requires Legal(tx) && Ambiguous(tx) && |tx.outputs| < 0xfd && tx.outputs[0].value % 0x1_0000 == 0
    ensures Serialize(tx) == Le(tx.version, 4) + ([0] + ([|tx.outputs| as Byte] + ([0] + ([0] + rest)))) && |rest| >= 4
  {
    hide Le, Legal, Serialize;
    rest := AmbiguousStarts(tx);
    LowBytesZero(tx.outputs[0].value);
  }

  lemma LowBytesZero(value: nat)
    requires value % 0x1_0000 == 0
    ensures value % 256 == 0 && value / 256 % 256 == 0
  {
    var q := value / 0x1_0000;
    assert value == 256 * (256 * q);
    assert value / 256 == 256 * q;
  }

  /** Where the first value is a multiple of 2^16 the first reading finds no inputs and no outputs, without complaint. */
  lemma {:induction false} RoundValueMisread(tx: Tx)
    requires Legal(tx) && Ambiguous(tx) && |tx.outputs| < 0xfd && tx.outputs[0].value % 0x1_0000 == 0
    ensures var r := FromBuffer(Serialize(tx));
            r.Some? && r.value.version == tx.version && r.value.inputs == [] && r.value.outputs == []
  {
    var n := |tx.outputs| as Byte;
    assert tx.version < TWO32;
    hide Le, Parse, ReadFlagged, LeValue, Legal, Serialize;
    var rest := RoundStarts(tx);
    MarkedParse(tx.version, n, [0] + ([0] + rest));
    FlaggedEmpty(tx.version, n as nat, rest);
  }

  lemma KeyHashBytes(six: Bytes, hash: Bytes, l: Bytes)
    requires |six| == 6 && |hash| == 20 && |l| == 4
    ensures var rest := six + (([22] + ([0, 20] + hash)) + ([] + l));
            && |rest| == 33 && rest[..8] == six + [22, 0] && rest[8..] == ([20] + hash) + l
  {
  }

  /** A pay to witness key hash output from its third byte on is read as an output, up to the lock time. */
  lemma {:induction false} KeyHashShifted(six: Bytes, hash: Bytes, l: Bytes)
    requires |six| == 6 && |hash| == 20 && |l| == 4
    ensures var r := ReadOutput(six + (Blob([0, 20] + hash) + ([] + l))); r.Got? && r.rest == l
    ensures ReadOutput(l).Failed?
  {
    assert Blob([0, 20] + hash) == [22] + ([0, 20] + hash) && Blob(hash) == [20] + hash;
    KeyHashBytes(six, hash, l);
    hide ReadBlob, Blob, LeValue;
    BlobBack(hash, l);
  }

  /** Zero inputs, and then a count of outputs: one is read, and two are more than there is. */
  lemma {:induction false} KeyHashCounted(count: Byte, six: Bytes, hash: Bytes, l: Bytes)
    requires |six| == 6 && |hash| == 20 && |l| == 4 && 1 <= count < 0xfd
    ensures var rest := six + (Blob([0, 20] + hash) + ([] + l));
            var r := ReadCounted(ReadOutput, [count] + rest);
            && (r.Got? <==> count == 1) && (r.Got? ==> r.rest == l)
  {
    var rest := six + (Blob([0, 20] + hash) + ([] + l));
    assert ReadVarInt([count] + rest) == Got(count as nat, rest) by {
      assert ([count] + rest)[1..] == rest;
    }
    KeyHashShifted(six, hash, l);
    hide ReadOutput, ReadVarInt, Blob;
    var r := ReadOutput(rest);
    assert ReadMany(ReadOutput, count as nat, rest) == Prepended([r.value], ReadMany(ReadOutput, count as nat - 1, l));
  }

  /**
   For the one most usual output and no inputs, exactly: with the low two bytes of the value under 0xfd, the
   transaction comes back if and only if the value modulo 2^16 is neither 0 nor 256.
  */
  lemma {:induction false} KeyHashBackIff(tx: Tx, hash: Bytes)
    requires Legal(tx) && tx.inputs == [] && |tx.outputs| == 1
    requires tx.outputs[0].script == [0, 20] + hash && |hash| == 20
    requires var v := tx.outputs[0].value; v % 256 < 0xfd && v / 256 % 256 < 0xfd
    ensures FromBuffer(Serialize(tx)) == Some(tx) <==>
            !(tx.outputs[0].value % 256 == 0 && tx.outputs[0].value / 256 % 256 < 2)
  {
    var v := tx.outputs[0].value;
    hide Parse, Serialize, FromBuffer, Legal;
    FromBufferBackIff(tx);
    if v % 256 != 0 {
      KeyHashSize(tx);
      RefusedComesBack(tx);
    } else if v / 256 % 256 == 0 {
      RoundIfLowBytes(v);
      RoundValueMisread(tx);
    } else {
      KeyHashParse(tx, hash);
    }
  }

  lemma {:induction false} KeyHashSize(tx: Tx)
    requires Legal(tx) && tx.inputs == [] && |tx.outputs| == 1 && |tx.outputs[0].script| == 22
    ensures |Serialize(tx)| == 41
  {
    hide Serialize, Legacy, Legal;
    SizesOfBytes(tx);
    assert tx.outputs[1..] == [];
    assert Sum(OutputSize, tx.outputs) == OutputSize(tx.outputs[0]) + Sum(OutputSize, tx.outputs[1..]);
  }

  lemma RoundIfLowBytes(v: nat)
    requires v % 256 == 0 && v / 256 % 256 == 0
    ensures v % 0x1_0000 == 0
  {
    var q := v / 256 / 256;
    assert v == 256 * (256 * q);
  }

  lemma {:induction false} KeyHashParse(tx: Tx, hash: Bytes)
    requires Legal(tx) && tx.inputs == [] && |tx.outputs| == 1
    requires tx.outputs[0].script == [0, 20] + hash && |hash| == 20
    requires var v := tx.outputs[0].value; v % 256 == 0 && 1 <= v / 256 % 256 < 0xfd
    ensures Parse(Serialize(tx), true).Failed? <==> tx.outputs[0].value / 256 % 256 >= 2
  {
    var o := tx.outputs[0];
    var count, six, l := (o.value / 256 % 256) as Byte, Le(o.value / 256 / 256, 6), Le(tx.locktime, 4);
    var tail := six + (Blob(o.script) + ([] + l));
    var rest := AmbiguousStarts(tx);
    assert tx.outputs[1..] == [] && Many(WriteOutput, tx.outputs[1..]) == [];
    assert rest == tail;
    assert tx.version < TWO32;
    hide Le, Parse, ReadOutput, Legal, Serialize, Blob, LeValue;
    MarkedParse(tx.version, 1, [0] + ([count] + tail));
    KeyHashCounted(count, six, hash, l);
    OneByte(0, [count] + tail);
    assert ReadFlagged(tx.version, 1, [0] + ([count] + tail)).Failed? <==> count >= 2;
  }

  lemma ZeroBytes()
    ensures Le(0, 8) == [0, 0] + (Le(0, 4) + [0, 0])
  {
    assert Le(0, 2) == [0, 0];
    assert Le(0, 4) == [0, 0, 0, 0];
    assert Le(0, 6) == [0, 0, 0, 0, 0, 0];
    assert Le(0, 8) == [0, 0, 0, 0, 0, 0, 0, 0];
  }

  /** One output of no value and no input: read without complaint as having no output and no lock time. */
  lemma {:induction false} NoInputsMisread(version: nat, script: Bytes, locktime: nat)
    requires version < TWO32 && locktime < TWO32 && |script| < TWO64
    ensures FromBuffer(Serialize(Tx(version, [], [TxOut(0, script)], locktime))) == Some(Tx(version, [], [], 0))
  {
    FourBytes();
    hide ReadVarInt, ReadLe, Pow256, Blob, Le;
    var tx := Tx(version, [], [TxOut(0, script)], locktime);
    var tail := Blob(script) + Le(locktime, 4);
    ZeroBytes();
    var after: Bytes := [0, 0] + tail;
    assert Many(WriteOutput, tx.outputs) == WriteOutput(tx.outputs[0]) by {
      assert tx.outputs[1..] == [];
    }
    assert Counted(WriteInput, tx.inputs) == [0];
    assert Counted(WriteOutput, tx.outputs) == [1] + WriteOutput(tx.outputs[0]);
    assert Serialize(tx) == Le(version, 4) + ([0] + ([1] + ([0] + ([0] + (Le(0, 4) + after)))));
    hide Parse, ReadFlagged, Serialize;
    MarkedParse(version, 1, [0] + ([0] + (Le(0, 4) + after)));
    FlaggedEmpty(version, 1, Le(0, 4) + after);
    LeAppended(0, 4, after);
  }
}
