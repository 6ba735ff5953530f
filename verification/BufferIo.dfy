/**
 Reading and writing bytes: little-endian numbers, Bitcoin's variable-length integers, a reader over a
 stream and a writer over a buffer that grows.
*/
module BufferIo {
  import opened Common
  import opened Bits

  /** What was read and what is left; a read past the end is an exception. */
  datatype Read<+T> = Got(value: T, rest: Bytes) | Failed

  // ---------------------------------------------------------------------------
  // Little-endian numbers

  function Pow256(k: nat): (p: nat)
    ensures p > 0
  {
    if k == 0 then 1 else 256 * Pow256(k - 1)
  }

  /** The k low bytes of a number, lowest first. */
  function Le(n: nat, k: nat): (b: Bytes)
    ensures |b| == k
    decreases k, n
  {
    if k == 0 then [] else [(n % 256) as Byte] + Le(n / 256, k - 1)
  }

  function LeValue(b: Bytes): (n: nat)
    ensures n < Pow256(|b|)
    decreases |b|
  {
    if b == [] then 0 else b[0] as nat + 256 * LeValue(b[1..])
  }

  lemma {:induction false} LeBack(n: nat, k: nat)
    requires n < Pow256(k)
    ensures LeValue(Le(n, k)) == n
    decreases k
  {
    if k > 0 {
      LeBack(n / 256, k - 1);
      assert Le(n, k)[1..] == Le(n / 256, k - 1);
    }
  }

  lemma Powers()
    ensures Pow256(1) == 0x100 && Pow256(2) == 0x1_0000 && Pow256(3) == 0x100_0000
    ensures Pow256(4) == 0x1_0000_0000 && Pow256(8) == 0x1_0000_0000_0000_0000
  {
    assert Pow256(2) == 0x1_0000;
    assert Pow256(4) == 0x1_0000_0000;
    assert Pow256(6) == 0x1_0000_0000_0000;
  }

  function ReadBytes(b: Bytes, n: nat): Read<Bytes> {
    if n <= |b| then Got(b[..n], b[n..]) else Failed
  }

  function ReadLe(b: Bytes, k: nat): Read<nat> {
    if k <= |b| then Got(LeValue(b[..k]), b[k..]) else Failed
  }

  // ---------------------------------------------------------------------------
  // Variable-length integers

  function VarInt(n: nat): (b: Bytes)
    ensures |b| == VarIntBytes(n)
  {
    if n < 0xfd then [n as Byte]
    else if n < 0x1_0000 then [0xfd] + Le(n, 2)
    else if n < 0x1_0000_0000 then [0xfe] + Le(n, 4)
    else [0xff] + Le(n, 8)
  }

  /** `varIntBytes` */
  function VarIntBytes(n: nat): nat {
    if n < 0xfd then 1 else if n < 0x1_0000 then 3 else if n < 0x1_0000_0000 then 5 else 9
  }

  /** A longer form than needed is read as well. */
  function ReadVarInt(b: Bytes): Read<nat> {
    if b == [] then Failed
    else if b[0] < 0xfd then Got(b[0] as nat, b[1..])
    else ReadLe(b[1..], if b[0] == 0xfd then 2 else if b[0] == 0xfe then 4 else 8)
  }

  lemma {:induction false} LeAppended(n: nat, k: nat, rest: Bytes)
    requires n < Pow256(k)
    ensures ReadLe(Le(n, k) + rest, k) == Got(n, rest)
  {
    LeBack(n, k);
    assert (Le(n, k) + rest)[..k] == Le(n, k) && (Le(n, k) + rest)[k..] == rest;
  }

  lemma {:induction false} BytesAppended(b: Bytes, rest: Bytes)
    ensures ReadBytes(b + rest, |b|) == Got(b, rest)
  {
  }

  lemma {:induction false} MarkedAppended(mark: Byte, n: nat, k: nat, rest: Bytes)
    ensures (([mark] + Le(n, k)) + rest)[0] == mark && (([mark] + Le(n, k)) + rest)[1..] == Le(n, k) + rest
  {
  }

  /** A number comes back from its variable-length form, whatever follows. */
  lemma {:induction false} VarIntBack(n: nat, rest: Bytes)
    requires n < 0x1_0000_0000_0000_0000
    ensures ReadVarInt(VarInt(n) + rest) == Got(n, rest)
  {
    Powers();
    hide Le, LeValue, Pow256, ReadLe;
    if n < 0xfd {
      assert ([n as Byte] + rest)[1..] == rest;
    } else if n < 0x1_0000 {
      MarkedAppended(0xfd, n, 2, rest);
      LeAppended(n, 2, rest);
    } else if n < 0x1_0000_0000 {
      MarkedAppended(0xfe, n, 4, rest);
      LeAppended(n, 4, rest);
    } else {
      MarkedAppended(0xff, n, 8, rest);
      LeAppended(n, 8, rest);
    }
  }

  /** What was read took at least as many bytes as writing it would. */
  lemma {:induction false} VarIntTakes(b: Bytes)
    ensures var r := ReadVarInt(b); r.Got? ==> |b| - |r.rest| >= VarIntBytes(r.value)
  {
    Powers();
    hide LeValue, Pow256;
  }

  // ---------------------------------------------------------------------------
  // The reader

  class StreamReader {
    const data: Bytes
    var position: nat

    constructor (data: Bytes)
      ensures this.data == data && position == 0 && Rest() == data
    {
      this.data, position := data, 0;
    }

    ghost predicate Valid()
      reads this
    {
      position <= |data|
    }

    /** What is left in the stream. */
    function Rest(): Bytes
      reads this
    {
      if position <= |data| then data[position..] else []
    }

    method TakeBytes(n: nat) returns (r: Option<Bytes>)
      requires Valid()
      modifies this`position
      ensures Valid()
      ensures var spec := ReadBytes(old(Rest()), n);
              if spec.Got? then r == Some(spec.value) && Rest() == spec.rest else r.None?
    {
      if position + n > |data| { return None; }
      assert data[position..][..n] == data[position..position + n] && data[position..][n..] == data[position + n..];
      r := Some(data[position..position + n]);
      position := position + n;
    }

    method TakeUInt(k: nat) returns (r: Option<nat>)
      requires Valid()
      modifies this`position
      ensures Valid()
      ensures var spec := ReadLe(old(Rest()), k);
              if spec.Got? then r == Some(spec.value) && Rest() == spec.rest else r.None?
    {
      hide LeValue;
      var b := TakeBytes(k);
      if b.None? { return None; }
      return Some(LeValue(b.value));
    }

    method TakeVarInt() returns (r: Option<nat>)
      requires Valid()
      modifies this`position
      ensures Valid()
      ensures var spec := ReadVarInt(old(Rest()));
              if spec.Got? then r == Some(spec.value) && Rest() == spec.rest else r.None?
    {
      hide LeValue, ReadLe;
      ghost var before := Rest();
      var b := TakeBytes(1);
      if b.None? { return None; }
      assert Rest() == before[1..] && b.value[0] == before[0];
      var byte := b.value[0];
      if byte < 0xfd { return Some(byte as nat); }
      r := TakeUInt(if byte == 0xfd then 2 else if byte == 0xfe then 4 else 8);
    }
  }

  // ---------------------------------------------------------------------------
  // The writer

  /** The exponent of the smallest power of two that is no smaller: `ceil(log2(n))`. */
  function Log2Up(n: nat, e: nat): (r: nat)
    requires e <= 30 && n <= Pow2(30)
    ensures e <= r <= 30 && Pow2(r) >= n && (r > e ==> Pow2(r - 1) < n)
    decreases 30 - e, n
  {
    if Pow2(e) >= n then e else Log2Up(n, e + 1)
  }

  /** A buffer of 2^30 bytes is the largest that the doubling can make. */
  const LARGEST: nat := 0x4000_0000

  lemma LargestIsPower()
    ensures Pow2(30) == LARGEST
  {
    assert Pow2(10) == 1024;
    assert Pow2(20) == 0x10_0000;
  }

  class BufferWriter {
    var position: nat
    var fixed: bool
    var buffer: array<Byte>

    ghost predicate Valid()
      reads this
    {
      position <= buffer.Length
    }

    /** What has been written. */
    ghost function Written(): (b: Bytes)
      reads this, buffer
      ensures Valid() ==> |b| == position
    {
      if position <= buffer.Length then buffer[..position] else []
    }

    constructor ()
      ensures Valid() && !fixed && Written() == [] && fresh(buffer)
    {
      position, fixed := 0, false;
      buffer := new Byte[0];
    }

    constructor Over(buffer: array<Byte>)
      ensures Valid() && fixed && Written() == [] && this.buffer == buffer
    {
      position, fixed := 0, true;
      this.buffer := buffer;
    }

    /** A fixed buffer does not grow; one that grows cannot grow beyond the largest. */
    predicate HasRoom(needed: nat)
      reads this
    {
      position + needed <= buffer.Length || (!fixed && position + needed <= LARGEST)
    }

    /**
     Without room it is an exception, and nothing changes: `1 << 31` is negative. From 2^31 bytes on the
     shift would wrap around.
    */
    method Expand(needed: nat) returns (ok: bool)
      requires Valid() && (!fixed ==> position + needed <= 2 * LARGEST)
      modifies this`buffer
      ensures ok <==> old(HasRoom(needed))
      ensures Valid() && Written() == old(Written()) && (buffer == old(buffer) || fresh(buffer))
      ensures ok ==> position + needed <= buffer.Length
      ensures fixed || !ok ==> buffer == old(buffer)
      ensures buffer == old(buffer) || (buffer.Length <= LARGEST && old(buffer.Length) < position + needed)
    {
      LargestIsPower();
      hide Pow2;
      var required := position + needed;
      if fixed && required > buffer.Length { return false; }
      if buffer.Length < required {
        if required > LARGEST { return false; }
        var newLen := Pow2(Log2Up(required, 0));
        Pow2Monotonic(Log2Up(required, 0), 30);
        var newBuf := new Byte[newLen](_ => 0);
        for i := 0 to buffer.Length
          invariant newBuf.Length == newLen && fresh(newBuf) && buffer == old(buffer)
          invariant buffer.Length < required <= newLen
          invariant newBuf[..i] == buffer[..i]
        {
          newBuf[i] := buffer[i];
        }
        assert newBuf[..position] == newBuf[..buffer.Length][..position];
        assert buffer[..position] == buffer[..][..position];
        buffer := newBuf;
      }
      return true;
    }

    method WriteBytes(b: Bytes) returns (ok: bool)
      requires Valid() && (!fixed ==> position + |b| <= 2 * LARGEST)
      modifies this`position, this`buffer, buffer
      ensures Valid() && fixed == old(fixed) && (buffer == old(buffer) || fresh(buffer))
      ensures fixed ==> buffer == old(buffer)
      ensures buffer == old(buffer) || (buffer.Length <= LARGEST && old(buffer.Length) < old(position) + |b|)
      ensures ok <==> |b| == 0 || old(HasRoom(|b|))
      ensures Written() == if ok then old(Written()) + b else old(Written())
    {
      if |b| == 0 {
        assert Written() + b == Written();
        return true;
      }
      ok := Expand(|b|);
      if !ok { return; }
      ghost var before := Written();
      for i := 0 to |b|
        invariant position + |b| <= buffer.Length && buffer[..position] == before
        invariant position == old(position) && fixed == old(fixed) && (buffer == old(buffer) || fresh(buffer))
        invariant fixed ==> buffer == old(buffer)
        invariant buffer == old(buffer) || (buffer.Length <= LARGEST && old(buffer.Length) < position + |b|)
        invariant buffer[position..position + i] == b[..i]
      {
        buffer[position + i] := b[i];
      }
      assert b[..|b|] == b;
      assert buffer[..position + |b|] == buffer[..position] + buffer[position..position + |b|];
      position := position + |b|;
    }

    /** The marker and the number are two writes: without room for the second the marker stays behind. */
    method WriteMarked(marker: Byte, b: Bytes) returns (ok: bool)
      requires Valid() && b != [] && (!fixed ==> position + 1 + |b| <= 2 * LARGEST)
      modifies this`position, this`buffer, buffer
      ensures Valid() && fixed == old(fixed) && (buffer == old(buffer) || fresh(buffer))
      ensures ok <==> old(HasRoom(1 + |b|))
      ensures Written() == old(Written()) + if ok then [marker] + b else if old(HasRoom(1)) then [marker] else []
    {
      ghost var before := Written();
      assert before + [] == before;
      ok := WriteBytes([marker]);
      if !ok { return; }
      ok := WriteBytes(b);
      assert (before + [marker]) + b == before + ([marker] + b);
    }

    method WriteVarInt(n: nat) returns (ok: bool)
      requires n < 0x1_0000_0000_0000_0000 && Valid() && (!fixed ==> position + VarIntBytes(n) <= 2 * LARGEST)
      modifies this`position, this`buffer, buffer
      ensures Valid() && fixed == old(fixed) && (buffer == old(buffer) || fresh(buffer))
      ensures ok <==> old(HasRoom(VarIntBytes(n)))
      ensures Written() == old(Written()) +
                           if ok then VarInt(n) else if old(HasRoom(1)) then VarInt(n)[..1] else []
    {
      hide Le;
      if n < 0xfd {
        ok := WriteBytes([n as Byte]);
        assert Written() == old(Written()) + if ok then [n as Byte] else [];
      } else if n < 0x1_0000 {
        ok := WriteMarked(0xfd, Le(n, 2));
      } else if n < 0x1_0000_0000 {
        ok := WriteMarked(0xfe, Le(n, 4));
      } else {
        ok := WriteMarked(0xff, Le(n, 8));
      }
    }
  }
}
