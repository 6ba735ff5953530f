/**
 Lists on the wire: a variable-length count followed by that many items. Every list of a transaction and of
 a block has this form, so what a list keeps is proved here once from what its items keep.
*/
module CountedLists {
  import opened Common
  import opened BufferIo

  function Many<T>(write: T -> Bytes, items: seq<T>): Bytes
    decreases |items|
  {
    if |items| == 0 then [] else write(items[0]) + Many(write, items[1..])
  }

  function Counted<T>(write: T -> Bytes, items: seq<T>): Bytes {
    VarInt(|items|) + Many(write, items)
  }

  function ReadMany<T>(read: Bytes -> Read<T>, n: nat, b: Bytes): (r: Read<seq<T>>)
    ensures r.Got? ==> |r.value| == n
  {
    if n == 0 then Got([], b)
    else match read(b)
      case Failed => Failed
      case Got(x, rest) => Prepended([x], ReadMany(read, n - 1, rest))
  }

  function Prepended<T>(xs: seq<T>, r: Read<seq<T>>): Read<seq<T>> {
    if r.Got? then Got(xs + r.value, r.rest) else Failed
  }

  function ReadCounted<T>(read: Bytes -> Read<T>, b: Bytes): Read<seq<T>> {
    match ReadVarInt(b)
    case Failed => Failed
    case Got(n, rest) => ReadMany(read, n, rest)
  }

  function Sum<T>(size: T -> nat, items: seq<T>): nat
    decreases |items|
  {
    if |items| == 0 then 0 else size(items[0]) + Sum(size, items[1..])
  }

  // ---------------------------------------------------------------------------
  // What a list keeps

  /** An item is read back from its own bytes, whatever follows them. */
  ghost predicate ComesBack<T(!new)>(write: T -> Bytes, read: Bytes -> Read<T>, x: T) {
    forall rest: Bytes :: read(write(x) + rest) == Got(x, rest)
  }

  /** No reading takes fewer bytes than the size of what it gives. */
  ghost predicate Takes<T(!new)>(read: Bytes -> Read<T>, size: T -> nat) {
    forall b: Bytes :: read(b).Got? ==> |b| >= |read(b).rest| + size(read(b).value)
  }

  lemma Associate(a: Bytes, b: Bytes, c: Bytes)
    ensures (a + b) + c == a + (b + c)
  {
  }

  lemma {:induction false} ManyBack<T(!new)>(write: T -> Bytes, read: Bytes -> Read<T>, items: seq<T>, rest: Bytes)
    requires forall x :: x in items ==> ComesBack(write, read, x)
    ensures ReadMany(read, |items|, Many(write, items) + rest) == Got(items, rest)
    decreases |items|
  {
    if |items| == 0 {
      assert Many(write, items) + rest == rest;
    } else {
      var tail := Many(write, items[1..]);
      Associate(write(items[0]), tail, rest);
      assert ComesBack(write, read, items[0]);
      ManyBack(write, read, items[1..], rest);
      assert [items[0]] + items[1..] == items;
    }
  }

  /** A list of items that come back comes back. */
  lemma {:induction false} CountedBack<T(!new)>(write: T -> Bytes, read: Bytes -> Read<T>, items: seq<T>, rest: Bytes)
    requires |items| < 0x1_0000_0000_0000_0000
    requires forall x :: x in items ==> ComesBack(write, read, x)
    ensures ReadCounted(read, Counted(write, items) + rest) == Got(items, rest)
  {
    hide VarInt, ReadVarInt;
    Associate(VarInt(|items|), Many(write, items), rest);
    VarIntBack(|items|, Many(write, items) + rest);
    ManyBack(write, read, items, rest);
  }

  lemma {:induction false} ManySize<T>(write: T -> Bytes, size: T -> nat, items: seq<T>)
    requires forall x :: x in items ==> |write(x)| == size(x)
    ensures |Many(write, items)| == Sum(size, items)
    decreases |items|
  {
    if |items| > 0 {
      assert items[0] in items;
      ManySize(write, size, items[1..]);
    }
  }

  lemma {:induction false} ManyTakes<T(!new)>(read: Bytes -> Read<T>, size: T -> nat, n: nat, b: Bytes)
    requires Takes(read, size)
    ensures var r := ReadMany(read, n, b); r.Got? ==> |b| >= |r.rest| + Sum(size, r.value)
    decreases n
  {
    if n > 0 && read(b).Got? {
      ManyTakes(read, size, n - 1, read(b).rest);
      var r := ReadMany(read, n - 1, read(b).rest);
      if r.Got? {
        assert ([read(b).value] + r.value)[1..] == r.value;
      }
    }
  }

  lemma {:induction false} CountedTakes<T(!new)>(read: Bytes -> Read<T>, size: T -> nat, b: Bytes)
    requires Takes(read, size)
    ensures var r := ReadCounted(read, b);
            r.Got? ==> |b| >= |r.rest| + VarIntBytes(|r.value|) + Sum(size, r.value)
  {
    hide ReadVarInt;
    VarIntTakes(b);
    var r := ReadVarInt(b);
    if r.Got? {
      ManyTakes(read, size, r.value, r.rest);
    }
  }

  lemma {:induction false} SumAppends<T>(size: T -> nat, items: seq<T>, x: T)
    ensures Sum(size, items + [x]) == Sum(size, items) + size(x)
    decreases |items|
  {
    if |items| > 0 {
      SumAppends(size, items[1..], x);
      assert (items + [x])[1..] == items[1..] + [x];
    }
  }

  lemma {:induction false} PrependedTwice<T>(xs: seq<T>, ys: seq<T>, r: Read<seq<T>>)
    ensures Prepended(xs, Prepended(ys, r)) == Prepended(xs + ys, r)
  {
    if r.Got? {
      assert xs + (ys + r.value) == (xs + ys) + r.value;
    }
  }
}
