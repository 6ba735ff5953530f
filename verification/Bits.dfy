/**
 JavaScript's bitwise operators on non-negative numbers and bigints, stated over the natural
 numbers by halving: powers of two, single bits, shifts, `&`, `^` and masks.
*/
module Bits {

  function Pow2(n: nat): (p: nat)
    ensures p > 0
  {
    if n == 0 then 1 else 2 * Pow2(n - 1)
  }

  /** True when bit b of x is set, the source's `x & (1n << b)`. */
  predicate Bit(x: nat, b: nat)
    decreases b, x
  {
    if b == 0 then x % 2 == 1 else Bit(x / 2, b - 1)
  }

  /** The operator `&` on non-negative operands. */
  function And(x: nat, y: nat): nat {
    if x == 0 || y == 0 then 0
    else (if x % 2 == 1 && y % 2 == 1 then 1 else 0) + 2 * And(x / 2, y / 2)
  }

  /** The operator `^` on non-negative operands. */
  function Xor(x: nat, y: nat): nat {
    if x == 0 then y else if y == 0 then x
    else (if x % 2 != y % 2 then 1 else 0) + 2 * Xor(x / 2, y / 2)
  }

  /** The operator `>>` on non-negative operands. */
  function Shr(x: nat, b: nat): nat
    decreases b, x
  {
    if b == 0 then x else Shr(x / 2, b - 1)
  }

  /** The operator `<<`, without loss of high bits. */
  function Shl(x: nat, b: nat): nat
    decreases b, x
  {
    if b == 0 then x else 2 * Shl(x, b - 1)
  }

  /** The lowest b bits of x. */
  function Low(x: nat, b: nat): (r: nat)
    ensures r < Pow2(b) && r <= x
    decreases b, x
  {
    if b == 0 then 0 else x % 2 + 2 * Low(x / 2, b - 1)
  }

  /** x without its lowest b bits. */
  function ClearLow(x: nat, b: nat): (r: nat)
    ensures r <= x < r + Pow2(b)
  {
    x - Low(x, b)
  }

  lemma {:induction false} Pow2Monotonic(a: nat, b: nat)
    requires a <= b
    ensures Pow2(a) <= Pow2(b)
    ensures a < b ==> 2 * Pow2(a) <= Pow2(b)
    decreases b - a
  {
    if a < b { Pow2Monotonic(a + 1, b); }
  }

  lemma {:induction false} LowSmall(x: nat, b: nat)
    requires x < Pow2(b)
    ensures Low(x, b) == x
    decreases b
  {
    if b > 0 { LowSmall(x / 2, b - 1); }
  }

  /** One more low bit: the bit itself decides what is added. */
  lemma {:induction false} LowStep(x: nat, b: nat)
    ensures Low(x, b + 1) == Low(x, b) + (if Bit(x, b) then Pow2(b) else 0)
    decreases b
  {
    if b == 0 {
      assert Low(x / 2, 0) == 0;
    } else {
      LowStep(x / 2, b - 1);
    }
  }

  lemma {:induction false} LowShift(x: nat, y: nat, b: nat)
    requires Low(x, b) == 0
    ensures Low(x + y, b) == Low(y, b)
    decreases b
  {
    if b > 0 {
      assert (x + y) / 2 == x / 2 + y / 2;
      LowShift(x / 2, y / 2, b - 1);
    }
  }

  lemma LowOffset(x: nat, d: nat, b: nat)
    requires Low(x, b) == 0 && d < Pow2(b)
    ensures Low(x + d, b) == d && ClearLow(x + d, b) == x
  {
    LowShift(x, d, b);
    LowSmall(d, b);
  }

  lemma {:induction false} LowOfPow2(a: nat, b: nat)
    requires a <= b
    ensures Low(Pow2(b), a) == 0
    decreases a
  {
    if a > 0 { LowOfPow2(a - 1, b - 1); }
  }

  lemma {:induction false} LowOfLow(x: nat, a: nat, b: nat)
    requires a <= b
    ensures Low(Low(x, b), a) == Low(x, a)
    decreases a
  {
    if a > 0 {
      assert Low(x, b) / 2 == Low(x / 2, b - 1);
      LowOfLow(x / 2, a - 1, b - 1);
    }
  }

  /** Two multiples of 2^b are at least 2^b apart. */
  lemma {:induction false} Apart(x: nat, y: nat, b: nat)
    requires Low(x, b) == 0 && Low(y, b) == 0 && x < y
    ensures x + Pow2(b) <= y
    decreases b
  {
    if b > 0 { Apart(x / 2, y / 2, b - 1); }
  }

  lemma ClearLowStep(x: nat, b: nat)
    ensures ClearLow(x, b) == ClearLow(x, b + 1) + (if Bit(x, b) then Pow2(b) else 0)
  {
    LowStep(x, b);
  }

  lemma {:induction false} ClearLowHasNoLowBits(x: nat, b: nat)
    ensures Low(ClearLow(x, b), b) == 0
    decreases b
  {
    if b > 0 {
      ClearLowHalf(x, b);
      ClearLowHasNoLowBits(x / 2, b - 1);
      hide ClearLow;
      assert ClearLow(x, b) / 2 == ClearLow(x / 2, b - 1);
    }
  }

  lemma ClearLowHalf(x: nat, b: nat)
    requires b > 0
    ensures ClearLow(x, b) == 2 * ClearLow(x / 2, b - 1)
  {
    assert x == 2 * (x / 2) + x % 2;
  }

  lemma {:induction false} ClearLowKeepsBit(x: nat, b: nat, c: nat)
    requires b <= c
    ensures Bit(ClearLow(x, b), c) == Bit(x, c)
    decreases b
  {
    if b > 0 {
      ClearLowHalf(x, b);
      ClearLowKeepsBit(x / 2, b - 1, c - 1);
    }
  }

  /** The mask `(2^n - 1 >> b) << b` keeps exactly the bits from b up to n. */
  lemma {:induction false} MaskClearsLowBits(x: nat, n: nat, b: nat)
    requires x < Pow2(n) && b <= n
    ensures And(x, Shl(Shr(Pow2(n) - 1, b), b)) == ClearLow(x, b)
    decreases n
  {
    if b > 0 {
      assert (Pow2(n) - 1) / 2 == Pow2(n - 1) - 1;
      var mask := Shl(Shr(Pow2(n - 1) - 1, b - 1), b - 1);
      assert Shl(Shr(Pow2(n) - 1, b), b) == 2 * mask;
      MaskClearsLowBits(x / 2, n - 1, b - 1);
      ClearLowHalf(x, b);
    } else {
      AndAllOnes(x, n);
    }
  }

  lemma {:induction false} AndAllOnes(x: nat, n: nat)
    requires x < Pow2(n)
    ensures And(x, Pow2(n) - 1) == x
    decreases n
  {
    AndMaskIsLow(x, n);
    hide And, Low, Pow2;
    LowSmall(x, n);
  }

  lemma {:induction false} AndMaskIsLow(x: nat, n: nat)
    ensures And(x, Pow2(n) - 1) == Low(x, n)
    decreases n
  {
    if n > 0 {
      assert (Pow2(n) - 1) / 2 == Pow2(n - 1) - 1;
      AndMaskIsLow(x / 2, n - 1);
    }
  }

  /** `x >> 1` and `x & 1` */
  lemma Halve(x: nat)
    ensures Shr(x, 1) == x / 2 && And(x, 1) == x % 2
  {
    assert Shr(x / 2, 0) == x / 2;
  }

  lemma {:induction false} ShrAdd(x: nat, a: nat, b: nat)
    ensures Shr(x, a + b) == Shr(Shr(x, a), b)
    decreases a
  {
    if a > 0 { ShrAdd(x / 2, a - 1, b); }
  }

  /** A number is its low bits and the rest, shifted back. */
  lemma {:induction false} SplitAt(x: nat, n: nat)
    ensures x == Shl(Shr(x, n), n) + Low(x, n)
    decreases n
  {
    if n > 0 { SplitAt(x / 2, n - 1); }
  }

  lemma {:induction false} ShlZero(n: nat)
    ensures Shl(0, n) == 0
  {
    if n > 0 { ShlZero(n - 1); }
  }

  lemma {:induction false} LowOfShl(x: nat, n: nat)
    ensures Low(Shl(x, n), n) == 0 && Shr(Shl(x, n), n) == x
    decreases n
  {
    if n > 0 {
      LowOfShl(x, n - 1);
      assert Shl(x, n) % 2 == 0 && Shl(x, n) / 2 == Shl(x, n - 1);
    }
  }

  lemma {:induction false} ShrSmall(x: nat, n: nat)
    requires x < Pow2(n)
    ensures Shr(x, n) == 0
    decreases n
  {
    if n > 0 { ShrSmall(x / 2, n - 1); }
  }

  lemma {:induction false} ShrBound(x: nat, n: nat, m: nat)
    requires x < Pow2(n + m)
    ensures Shr(x, n) < Pow2(m)
    decreases n
  {
    if n > 0 { ShrBound(x / 2, n - 1, m); }
  }

  // ---------------------------------------------------------------------------
  // Exclusive or

  lemma XorHalf(x: nat, y: nat)
    ensures Xor(x, y) / 2 == Xor(x / 2, y / 2)
    ensures Xor(x, y) % 2 == if x % 2 != y % 2 then 1 else 0
  {
  }

  lemma {:induction false} XorCommutes(x: nat, y: nat)
    ensures Xor(x, y) == Xor(y, x)
  {
    if x != 0 && y != 0 { XorCommutes(x / 2, y / 2); }
  }

  lemma XorZero(x: nat)
    ensures Xor(0, x) == x && Xor(x, 0) == x
  {
  }

  lemma {:induction false} XorAssociates(x: nat, y: nat, z: nat)
    ensures Xor(Xor(x, y), z) == Xor(x, Xor(y, z))
  {
    if x != 0 && y != 0 && z != 0 {
      XorHalf(Xor(x, y), z);
      XorHalf(x, Xor(y, z));
      XorHalf(x, y);
      XorHalf(y, z);
      XorAssociates(x / 2, y / 2, z / 2);
    }
  }

  lemma {:induction false} XorSelf(x: nat)
    ensures Xor(x, x) == 0
  {
    if x != 0 { XorSelf(x / 2); }
  }

  lemma XorCancels(x: nat, y: nat)
    ensures Xor(Xor(x, y), y) == x
  {
    XorAssociates(x, y, y);
    XorSelf(y);
  }

  /** Four operands may be regrouped in the two pairs that cross. */
  lemma XorRegroup(a: nat, b: nat, c: nat, d: nat)
    ensures Xor(Xor(a, b), Xor(c, d)) == Xor(Xor(a, c), Xor(b, d))
  {
    XorAssociates(a, b, Xor(c, d));
    XorAssociates(b, c, d);
    XorCommutes(b, c);
    XorAssociates(c, b, d);
    XorAssociates(a, c, Xor(b, d));
  }

  lemma {:induction false} XorBound(x: nat, y: nat, n: nat)
    requires x < Pow2(n) && y < Pow2(n)
    ensures Xor(x, y) < Pow2(n)
    decreases n
  {
    if n > 0 { XorBound(x / 2, y / 2, n - 1); }
  }

  lemma LowHalf(x: nat, n: nat)
    requires n > 0
    ensures Low(x, n) / 2 == Low(x / 2, n - 1) && Low(x, n) % 2 == x % 2
  {
  }

  lemma {:induction false} XorLow(x: nat, y: nat, n: nat)
    ensures Low(Xor(x, y), n) == Xor(Low(x, n), Low(y, n))
    decreases n
  {
    hide Xor, Low;
    if n == 0 {
      XorSelf(0);
      assert Low(Xor(x, y), 0) < Pow2(0) && Low(x, 0) < Pow2(0) && Low(y, 0) < Pow2(0);
    } else {
      XorHalf(x, y);
      LowHalf(x, n);
      LowHalf(y, n);
      LowHalf(Xor(x, y), n);
      XorHalf(Low(x, n), Low(y, n));
      XorLow(x / 2, y / 2, n - 1);
    }
  }

  lemma {:induction false} XorShr(x: nat, y: nat, n: nat)
    ensures Shr(Xor(x, y), n) == Xor(Shr(x, n), Shr(y, n))
    decreases n
  {
    if n > 0 {
      XorHalf(x, y);
      XorShr(x / 2, y / 2, n - 1);
    }
  }

  lemma {:induction false} XorShl(x: nat, y: nat, n: nat)
    ensures Shl(Xor(x, y), n) == Xor(Shl(x, n), Shl(y, n))
    decreases n
  {
    if n > 0 { XorShl(x, y, n - 1); }
  }

  /** Where no bits meet, exclusive or is addition. */
  lemma {:induction false} XorDisjoint(x: nat, y: nat, n: nat)
    requires Low(x, n) == 0 && y < Pow2(n)
    ensures Xor(x, y) == x + y
    decreases n
  {
    if n > 0 { XorDisjoint(x / 2, y / 2, n - 1); }
  }

  lemma {:induction false} XorBit(x: nat, y: nat, b: nat)
    ensures Bit(Xor(x, y), b) <==> Bit(x, b) != Bit(y, b)
    decreases b
  {
    hide Xor;
    XorHalf(x, y);
    if b > 0 { XorBit(x / 2, y / 2, b - 1); }
  }

  lemma {:induction false} ZeroBits(b: nat)
    ensures !Bit(0, b)
  {
    if b > 0 { ZeroBits(b - 1); }
  }

  /** A number with none of its lowest n bits set has no low part. */
  lemma {:induction false} LowZeroIffNoBits(x: nat, n: nat)
    ensures Low(x, n) == 0 <==> forall b :: 0 <= b < n ==> !Bit(x, b)
    decreases n
  {
    hide Bit;
    if n > 0 {
      LowZeroIffNoBits(x, n - 1);
      LowStep(x, n - 1);
    }
  }

  lemma {:induction false} ShlBound(x: nat, n: nat, m: nat)
    requires x < Pow2(m)
    ensures Shl(x, n) < Pow2(m + n)
    decreases n
  {
    if n > 0 { ShlBound(x, n - 1, m); }
  }
}
