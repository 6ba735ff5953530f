/**
 CRC32C as a 256-entry table lookup, proved equal to bit-at-a-time reflected division and, through it, to
 the remainder of section 12.1 of RFC 3720.
*/
module Crc32c {
  import opened Bits

  type Byte = x: nat | x < 256

  const POLYNOMIAL: nat := 0x82f63b78
  const ALL_ONES: nat := 0xffff_ffff
  const WIDTH: nat := 32

  lemma Widths()
    ensures Pow2(8) == 256 && Pow2(31) == 0x8000_0000 && Pow2(WIDTH) == 0x1_0000_0000
  {
    assert Pow2(8) == 0x100;
    assert Pow2(16) == 0x1_0000;
    assert Pow2(24) == 0x100_0000;
  }

  /** One bit of reflected division. */
  function ShiftBit(c: nat): nat {
    if c % 2 == 1 then Xor(c / 2, POLYNOMIAL) else c / 2
  }

  function ShiftBits(c: nat, n: nat): nat
    decreases n, c
  {
    if n == 0 then c else ShiftBits(ShiftBit(c), n - 1)
  }

  /** The simple form: a byte is added to the register and eight bits are divided out. */
  function BitwiseRegister(c: nat, buf: seq<Byte>): nat
    decreases |buf|
  {
    if buf == [] then c else BitwiseRegister(ShiftBits(Xor(c, buf[0]), 8), buf[1..])
  }

  function BitwiseCrc(buf: seq<Byte>): nat {
    Xor(BitwiseRegister(ALL_ONES, buf), ALL_ONES)
  }

  // ---------------------------------------------------------------------------
  // The table-driven form

  predicate IsTable(table: seq<nat>) {
    |table| == 256 && forall i :: 0 <= i < 256 ==> table[i] == ShiftBits(i, 8)
  }

  /** `generateReversedTable` */
  method GenerateReversedTable() returns (table: seq<nat>)
    ensures IsTable(table)
  {
    table := [];
    for i := 0 to 256
      invariant |table| == i
      invariant forall k :: 0 <= k < i ==> table[k] == ShiftBits(k, 8)
    {
      var byte: nat := i;
      for bit := 0 to 8
        invariant ShiftBits(byte, 8 - bit) == ShiftBits(i, 8)
      {
        Halve(byte);
        ghost var before := byte;
        if And(byte, 0x1) != 0 {
          byte := Shr(byte, 1);
          byte := Xor(byte, 0x82f63b78);
        } else {
          byte := Shr(byte, 1);
        }
        assert byte == ShiftBit(before);
      }
      table := table + [byte];
    }
  }

  /** `crc32c`, with the table the module computes once. */
  method Crc32c(constants: seq<nat>, buf: seq<Byte>) returns (r: nat)
    requires IsTable(constants)
    ensures r == BitwiseCrc(buf)
  {
    var crc: nat := 0xffff_ffff;
    for i := 0 to |buf|
      invariant BitwiseRegister(crc, buf[i..]) == BitwiseRegister(0xffff_ffff, buf)
    {
      var constantIdx := Xor(And(crc, 0xff), buf[i]);
      TableStep(crc, buf[i]);
      var constant := constants[constantIdx];
      assert buf[i..][1..] == buf[i + 1..];
      crc := Xor(constant, Shr(crc, 8));
    }
    return Xor(crc, 0xffff_ffff);
  }

  /** Division is linear over exclusive or. */
  lemma {:induction false} ShiftBitLinear(a: nat, b: nat)
    ensures ShiftBit(Xor(a, b)) == Xor(ShiftBit(a), ShiftBit(b))
  {
    hide Xor;
    XorHalf(a, b);
    XorAssociates(a / 2, b / 2, POLYNOMIAL);
    XorAssociates(a / 2, POLYNOMIAL, b / 2);
    XorCommutes(POLYNOMIAL, b / 2);
    XorRegroup(a / 2, POLYNOMIAL, b / 2, POLYNOMIAL);
    XorSelf(POLYNOMIAL);
    XorCommutes(Xor(a / 2, b / 2), 0);
    XorZero(Xor(a / 2, b / 2));
  }

  lemma {:induction false} ShiftBitsLinear(a: nat, b: nat, n: nat)
    ensures ShiftBits(Xor(a, b), n) == Xor(ShiftBits(a, n), ShiftBits(b, n))
    decreases n
  {
    hide Xor, ShiftBit;
    if n > 0 {
      ShiftBitLinear(a, b);
      ShiftBitsLinear(ShiftBit(a), ShiftBit(b), n - 1);
    }
  }

  /** A register whose low bits are clear is only shifted. */
  lemma {:induction false} ShiftClear(c: nat, n: nat)
    requires Low(c, n) == 0
    ensures ShiftBits(c, n) == Shr(c, n)
    decreases n
  {
    if n > 0 { ShiftClear(c / 2, n - 1); }
  }

  /** One table lookup does what eight single-bit steps do. */
  lemma {:induction false} TableStep(c: nat, b: Byte)
    ensures Xor(And(c, 0xff), b) < 256
    ensures Xor(ShiftBits(Xor(And(c, 0xff), b), 8), Shr(c, 8)) == ShiftBits(Xor(c, b), 8)
  {
    Widths();
    hide And, Xor, Shr, Shl, ShiftBits, Low, Pow2;
    var low, high := Low(c, 8), Shl(Shr(c, 8), 8);
    AndMaskIsLow(c, 8);
    XorBound(low, b, 8);
    SplitAt(c, 8);
    LowOfShl(Shr(c, 8), 8);
    XorDisjoint(high, low, 8);
    XorAssociates(high, low, b);
    XorCommutes(high, Xor(low, b));
    ShiftBitsLinear(Xor(low, b), high, 8);
    ShiftClear(high, 8);
  }

  // ---------------------------------------------------------------------------
  // What the register is: the remainder of a polynomial over GF(2)

  /** A polynomial, highest power first. */
  type Poly = seq<bool>

  /** The lowest n bits of c, bit 0 first: reflected, bit 0 carries the highest power. */
  function BitsOf(c: nat, n: nat): (p: Poly)
    ensures |p| == n
    decreases n, c
  {
    if n == 0 then [] else [c % 2 == 1] + BitsOf(c / 2, n - 1)
  }

  /** The message as a polynomial: bytes in order, the lowest bit of each byte first. */
  function MessageBits(buf: seq<Byte>): Poly {
    if buf == [] then [] else BitsOf(buf[0], 8) + MessageBits(buf[1..])
  }

  function Zeros(n: nat): (p: Poly)
    ensures |p| == n
  {
    seq(n, _ => false)
  }

  function Ones(n: nat): (p: Poly)
    ensures |p| == n
  {
    seq(n, _ => true)
  }

  /** Adds q to the highest powers of p. */
  function AddFront(p: Poly, q: Poly): (r: Poly)
    requires |q| <= |p|
    ensures |r| == |p|
  {
    seq(|p|, i requires 0 <= i < |p| => p[i] != (i < |q| && q[i]))
  }

  /**
   The Castagnoli polynomial x^32 + x^28 + x^27 + x^26 + x^25 + x^23 + x^22 + x^20 + x^19 + x^18 + x^14
   + x^13 + x^11 + x^10 + x^9 + x^8 + x^6 + 1, without its leading term.
  */
  function Castagnoli(): (p: Poly)
    ensures |p| == WIDTH
  {
    [false, false, false, true,  true, true, true, false,  true, true, false, true,  true, true, false, false,
     false, true,  true,  false, true, true, true, true,   false, true, false, false, false, false, false, true]
  }

  /** Long division: while the degree is too high, the leading term is cancelled with a multiple of the divisor. */
  function Remainder(p: Poly): Poly
    decreases |p|
  {
    if |p| <= WIDTH then p
    else Remainder(if p[0] then AddFront(p[1..], Castagnoli()) else p[1..])
  }

  /** The table's constant is the Castagnoli polynomial, reflected. */
  lemma {:induction false} PolynomialReflected()
    ensures BitsOf(POLYNOMIAL, WIDTH) == Castagnoli()
  {
    hide BitsOf;
    LowDigit(0x82f63b7, 8, 32);
    LowDigit(0x82f63b, 7, 28);
    LowDigit(0x82f63, 0xb, 24);
    LowDigit(0x82f6, 3, 20);
    LowDigit(0x82f, 6, 16);
    LowDigit(0x82, 0xf, 12);
    LowDigit(0x8, 2, 8);
    DigitBits();
  }

  lemma {:induction false} DigitBits()
    ensures BitsOf(0x2, 4) == [false, true, false, false] && BitsOf(0x3, 4) == [true, true, false, false]
    ensures BitsOf(0x6, 4) == [false, true, true, false] && BitsOf(0x7, 4) == [true, true, true, false]
    ensures BitsOf(0x8, 4) == [false, false, false, true] && BitsOf(0xb, 4) == [true, true, false, true]
    ensures BitsOf(0xf, 4) == [true, true, true, true]
  {
  }

  lemma LowDigit(high: nat, digit: nat, n: nat)
    requires digit < 16 && n >= 4
    ensures BitsOf(16 * high + digit, n) == BitsOf(digit, 4) + BitsOf(high, n - 4)
  {
    assert Pow2(4) == 16;
    assert Shl(high, 1) == 2 * Shl(high, 0);
    assert Shl(high, 3) == 2 * Shl(high, 2);
    assert Shl(high, 4) == 16 * high;
    BitsOfSplit(high, digit, 4, n - 4);
  }

  lemma {:induction false} BitsOfSplit(high: nat, low: nat, k: nat, m: nat)
    requires low < Pow2(k)
    ensures BitsOf(Shl(high, k) + low, k + m) == BitsOf(low, k) + BitsOf(high, m)
    decreases k
  {
    if k > 0 {
      assert (Shl(high, k) + low) / 2 == Shl(high, k - 1) + low / 2;
      BitsOfSplit(high, low / 2, k - 1, m);
    }
  }

  lemma {:induction false} BitsOfXor(a: nat, b: nat, n: nat)
    ensures BitsOf(Xor(a, b), n) == AddFront(BitsOf(a, n), BitsOf(b, n))
    decreases n
  {
    hide Xor;
    if n > 0 {
      XorHalf(a, b);
      BitsOfXor(a / 2, b / 2, n - 1);
    }
  }

  /** Above a number's own bits there are only zeros. */
  lemma {:induction false} BitsOfShort(c: nat, n: nat, m: nat)
    requires c < Pow2(n)
    ensures BitsOf(c, n + m) == BitsOf(c, n) + Zeros(m)
    decreases n, m
  {
    if n > 0 {
      BitsOfShort(c / 2, n - 1, m);
    } else if m > 0 {
      BitsOfShort(0, 0, m - 1);
    }
  }

  /** Feeding message bits, one at a time. */
  function Feed(c: nat, bits: Poly): nat
    decreases |bits|
  {
    if bits == [] then c else Feed(ShiftBit(Xor(c, if bits[0] then 1 else 0)), bits[1..])
  }

  lemma {:induction false} FeedConcat(c: nat, a: Poly, b: Poly)
    ensures Feed(c, a + b) == Feed(Feed(c, a), b)
    decreases |a|
  {
    hide Xor, ShiftBit;
    if a == [] {
      assert a + b == b;
    } else {
      assert (a + b)[1..] == a[1..] + b;
      FeedConcat(ShiftBit(Xor(c, if a[0] then 1 else 0)), a[1..], b);
    }
  }

  lemma ShiftBitBound(c: nat)
    requires c < Pow2(WIDTH)
    ensures ShiftBit(c) < Pow2(WIDTH)
  {
    Widths();
    hide Xor, Pow2;
    XorBound(c / 2, POLYNOMIAL, WIDTH);
  }

  lemma AddBitBound(c: nat, m: nat)
    requires c < Pow2(WIDTH) && m < 2
    ensures Xor(c, m) < Pow2(WIDTH)
  {
    Widths();
    hide Xor, Pow2;
    XorBound(c, m, WIDTH);
  }

  /** One feeding step is one step of long division. */
  lemma {:induction false} DivisionStep(c: nat, bits: Poly)
    requires bits != [] && c < Pow2(WIDTH)
    ensures AddFront(bits[1..] + Zeros(WIDTH), BitsOf(ShiftBit(Xor(c, if bits[0] then 1 else 0)), WIDTH))
         == CancelLeading(AddFront(bits + Zeros(WIDTH), BitsOf(c, WIDTH)))
  {
    var m := if bits[0] then 1 else 0;
    var p := AddFront(bits + Zeros(WIDTH), BitsOf(c, WIDTH));
    var rest := bits[1..] + Zeros(WIDTH);
    Shifted(c, bits);
    hide Xor, Pow2, Castagnoli, BitsOf;
    XorHalf(c, m);
    XorZero(c / 2);
    if p[0] {
      BitsOfXor(c / 2, POLYNOMIAL, WIDTH);
      PolynomialReflected();
      assert AddFront(rest, AddFront(BitsOf(c / 2, WIDTH), Castagnoli()))
          == AddFront(AddFront(rest, BitsOf(c / 2, WIDTH)), Castagnoli());
    }
  }

  lemma {:induction false} Shifted(c: nat, bits: Poly)
    requires bits != [] && c < Pow2(WIDTH)
    ensures var p := AddFront(bits + Zeros(WIDTH), BitsOf(c, WIDTH));
      p[0] == (bits[0] != (c % 2 == 1)) && p[1..] == AddFront(bits[1..] + Zeros(WIDTH), BitsOf(c / 2, WIDTH))
  {
    hide BitsOf, Pow2;
    RegisterTail(c);
    var p, q := AddFront(bits + Zeros(WIDTH), BitsOf(c, WIDTH)), BitsOf(c / 2, WIDTH);
    assert p[1..] == AddFront(bits[1..] + Zeros(WIDTH), q);
  }

  lemma RegisterTail(c: nat)
    requires c < Pow2(WIDTH)
    ensures BitsOf(c, WIDTH) == [c % 2 == 1] + BitsOf(c / 2, 31)
    ensures BitsOf(c / 2, WIDTH) == BitsOf(c / 2, 31) + [false]
  {
    BitsOfShort(c / 2, 31, 1);
  }

  function CancelLeading(p: Poly): Poly
    requires |p| > WIDTH
  {
    if p[0] then AddFront(p[1..], Castagnoli()) else p[1..]
  }

  /** The register after a message is the remainder of the message with the initial register added to its front. */
  lemma {:induction false} FeedIsRemainder(c: nat, bits: Poly)
    requires c < Pow2(WIDTH)
    ensures BitsOf(Feed(c, bits), WIDTH) == Remainder(AddFront(bits + Zeros(WIDTH), BitsOf(c, WIDTH)))
    decreases |bits|
  {
    hide BitsOf, Pow2, ShiftBit, Xor, Castagnoli;
    if bits == [] {
      assert AddFront(bits + Zeros(WIDTH), BitsOf(c, WIDTH)) == BitsOf(c, WIDTH);
    } else {
      var m := if bits[0] then 1 else 0;
      AddBitBound(c, m);
      ShiftBitBound(Xor(c, m));
      FeedIsRemainder(ShiftBit(Xor(c, m)), bits[1..]);
      DivisionStep(c, bits);
    }
  }

  /** Adding a whole byte first and dividing eight times is feeding its bits one by one. */
  lemma {:induction false} FeedByte(c: nat, b: nat, n: nat)
    requires b < Pow2(n)
    ensures Feed(c, BitsOf(b, n)) == ShiftBits(Xor(c, b), n)
    decreases n
  {
    if n == 0 {
      XorZero(c);
    } else {
      FeedByte(ShiftBit(Xor(c, b % 2)), b / 2, n - 1);
      SplitLowBit(c, b);
    }
  }

  lemma {:induction false} SplitLowBit(c: nat, b: nat)
    ensures Xor(ShiftBit(Xor(c, b % 2)), b / 2) == ShiftBit(Xor(c, b))
  {
    hide Xor;
    var even := 2 * (b / 2);
    XorLowBit(b);
    XorAssociates(c, b % 2, even);
    ShiftBitLinear(Xor(c, b % 2), even);
  }

  lemma XorLowBit(b: nat)
    ensures Xor(b % 2, 2 * (b / 2)) == b
  {
    XorHalf(b % 2, 2 * (b / 2));
    XorZero(b / 2);
  }

  lemma {:induction false} RegisterIsFeed(c: nat, buf: seq<Byte>)
    ensures BitwiseRegister(c, buf) == Feed(c, MessageBits(buf))
    decreases |buf|
  {
    Widths();
    hide Xor, ShiftBits, BitsOf, Pow2;
    if buf != [] {
      FeedByte(c, buf[0], 8);
      FeedConcat(c, BitsOf(buf[0], 8), MessageBits(buf[1..]));
      RegisterIsFeed(ShiftBits(Xor(c, buf[0]), 8), buf[1..]);
    }
  }

  lemma {:induction false} AllOnesBits(n: nat)
    ensures BitsOf(Pow2(n) - 1, n) == Ones(n)
  {
    if n > 0 { AllOnesBits(n - 1); }
  }

  // ---------------------------------------------------------------------------
  // Main results

  /** The checksum, inverted back, is the remainder of the message times x^32 with its first 32 bits inverted. */
  lemma {:induction false} CrcIsRemainder(buf: seq<Byte>)
    ensures BitsOf(Xor(BitwiseCrc(buf), ALL_ONES), WIDTH)
         == Remainder(AddFront(MessageBits(buf) + Zeros(WIDTH), Ones(WIDTH)))
  {
    Widths();
    hide BitsOf, Xor, Pow2, Remainder, BitwiseRegister;
    XorCancels(BitwiseRegister(ALL_ONES, buf), ALL_ONES);
    RegisterIsFeed(ALL_ONES, buf);
    FeedIsRemainder(ALL_ONES, MessageBits(buf));
    AllOnesBits(WIDTH);
  }

  /** The highest bit of the shifted register tells which branch was taken. */
  lemma {:induction false} BranchShows(c: nat)
    requires c < Pow2(WIDTH)
    ensures Shr(ShiftBit(c), 31) == c % 2
  {
    hide Xor, Shr, Pow2;
    Widths();
    ShrSmall(c / 2, 31);
    XorShr(c / 2, POLYNOMIAL, 31);
    PolynomialTop();
    XorZero(1);
  }

  lemma {:induction false} TopBit(p: nat, n: nat)
    requires Pow2(n) <= p < Pow2(n + 1)
    ensures Shr(p, n) == 1
  {
    assert Pow2(1) == 2;
    hide Shr, Shl, Low, Pow2;
    ShrBound(p, n, 1);
    SplitAt(p, n);
    ShlZero(n);
  }

  lemma {:induction false} PolynomialTop()
    ensures Shr(POLYNOMIAL, 31) == 1
  {
    Widths();
    hide Shr, Pow2;
    TopBit(POLYNOMIAL, 31);
  }

  lemma {:induction false} ShiftBitInjective(a: nat, b: nat)
    requires a < Pow2(WIDTH) && b < Pow2(WIDTH) && ShiftBit(a) == ShiftBit(b)
    ensures a == b
  {
    hide Xor, Shr, Pow2;
    BranchShows(a);
    BranchShows(b);
    XorCancels(a / 2, POLYNOMIAL);
    XorCancels(b / 2, POLYNOMIAL);
  }

  lemma {:induction false} ShiftBitsInjective(a: nat, b: nat, n: nat)
    requires a < Pow2(WIDTH) && b < Pow2(WIDTH) && ShiftBits(a, n) == ShiftBits(b, n)
    ensures a == b
    decreases n
  {
    hide Xor, ShiftBit, Pow2;
    if n > 0 {
      ShiftBitBound(a);
      ShiftBitBound(b);
      ShiftBitsInjective(ShiftBit(a), ShiftBit(b), n - 1);
      ShiftBitInjective(a, b);
    }
  }

  lemma {:induction false} ShiftBitsBound(c: nat, n: nat)
    requires c < Pow2(WIDTH)
    ensures ShiftBits(c, n) < Pow2(WIDTH)
    decreases n
  {
    hide ShiftBit, Pow2;
    if n > 0 {
      ShiftBitBound(c);
      ShiftBitsBound(ShiftBit(c), n - 1);
    }
  }

  lemma AddByteBound(c: nat, b: Byte)
    requires c < Pow2(WIDTH)
    ensures Xor(c, b) < Pow2(WIDTH) && ShiftBits(Xor(c, b), 8) < Pow2(WIDTH)
  {
    Widths();
    hide Xor, Pow2, ShiftBits;
    XorBound(c, b, WIDTH);
    ShiftBitsBound(Xor(c, b), 8);
  }

  lemma {:induction false} RegisterInjective(c: nat, d: nat, buf: seq<Byte>)
    requires c < Pow2(WIDTH) && d < Pow2(WIDTH) && BitwiseRegister(c, buf) == BitwiseRegister(d, buf)
    ensures c == d
    decreases |buf|
  {
    hide Xor, ShiftBits, Pow2;
    if buf != [] {
      var b := buf[0];
      AddByteBound(c, b);
      AddByteBound(d, b);
      RegisterInjective(ShiftBits(Xor(c, b), 8), ShiftBits(Xor(d, b), 8), buf[1..]);
      ShiftBitsInjective(Xor(c, b), Xor(d, b), 8);
      XorCancels(c, b);
      XorCancels(d, b);
    }
  }

  lemma {:induction false} RegisterConcat(c: nat, a: seq<Byte>, b: seq<Byte>)
    ensures BitwiseRegister(c, a + b) == BitwiseRegister(BitwiseRegister(c, a), b)
    ensures c < Pow2(WIDTH) ==> BitwiseRegister(c, a) < Pow2(WIDTH)
    decreases |a|
  {
    hide Xor, ShiftBits, Pow2;
    if a == [] {
      assert a + b == b;
    } else {
      assert (a + b)[1..] == a[1..] + b;
      if c < Pow2(WIDTH) { AddByteBound(c, a[0]); }
      RegisterConcat(ShiftBits(Xor(c, a[0]), 8), a[1..], b);
    }
  }

  /** Changing any one byte of any message changes its checksum. */
  lemma {:induction false} DetectsOneByte(pre: seq<Byte>, x: Byte, y: Byte, post: seq<Byte>)
    requires x != y
    ensures BitwiseCrc(pre + [x] + post) != BitwiseCrc(pre + [y] + post)
  {
    Widths();
    var c := BitwiseRegister(ALL_ONES, pre);
    RegisterConcat(ALL_ONES, pre, []);
    RegisterAround(pre, x, post);
    RegisterAround(pre, y, post);
    hide Xor, ShiftBits, Pow2, BitwiseRegister;
    var rx, ry := ShiftBits(Xor(c, x), 8), ShiftBits(Xor(c, y), 8);
    XorCancels(BitwiseRegister(rx, post), ALL_ONES);
    XorCancels(BitwiseRegister(ry, post), ALL_ONES);
    if BitwiseCrc(pre + [x] + post) == BitwiseCrc(pre + [y] + post) {
      AddByteBound(c, x);
      AddByteBound(c, y);
      RegisterInjective(rx, ry, post);
      ShiftBitsInjective(Xor(c, x), Xor(c, y), 8);
      XorCommutes(c, x);
      XorCommutes(c, y);
      XorCancels(x, c);
      XorCancels(y, c);
    }
  }

  lemma RegisterAround(pre: seq<Byte>, x: Byte, post: seq<Byte>)
    ensures BitwiseRegister(ALL_ONES, pre + [x] + post)
         == BitwiseRegister(ShiftBits(Xor(BitwiseRegister(ALL_ONES, pre), x), 8), post)
  {
    hide Xor, ShiftBits, Pow2;
    RegisterConcat(ALL_ONES, pre + [x], post);
    RegisterConcat(ALL_ONES, pre, [x]);
    assert [x][1..] == [];
  }
}
