/**
 The checksum of Bech32 as BIP173 defines it: the register is a polynomial with six coefficients in the
 field of 32 elements, a step multiplies it by x, adds a word and reduces modulo the generator polynomial,
 and the text of an encoding is the one whose words come to the constant.
*/
module Bech32Field {
  import opened Common
  import opened Bits
  import opened Bech32

  // ---------------------------------------------------------------------------
  // The field of 32 elements: polynomials over GF(2) modulo z^5 + z^3 + 1

  /** Times z, where z^5 is z^3 + 1: bit 0, which is free, and bit 3, which may be set, are flipped. */
  function Twice(a: nat): nat
    requires a < 32
    ensures Twice(a) < 32
  {
    var t := 2 * a % 32;
    if a < 16 then t else if t / 8 % 2 == 0 then t + 9 else t - 7
  }

  function Product(a: nat, b: nat, i: nat): nat
    requires i <= 5 && b < 32
    decreases 5 - i, a, b
  {
    if i == 5 then 0 else Xor(if Bit(a, i) then b else 0, Product(a, Twice(b), i + 1))
  }

  function Times(a: nat, b: nat): nat
    requires b < 32
  {
    Product(a, b, 0)
  }

  /** The coefficient of x^k in the register. */
  function Coefficient(c: nat, k: nat): (r: nat)
    ensures r < 32
  {
    Widths();
    Low(Shr(c, 5 * k), 5)
  }

  /** g(x) = x^6 + 29x^5 + 22x^4 + 20x^3 + 21x^2 + 29x + 18 */
  const G: seq<nat> := [18, 29, 21, 20, 22, 29]

  lemma {:induction false} CoefficientXor(a: nat, b: nat, k: nat)
    ensures Coefficient(Xor(a, b), k) == Xor(Coefficient(a, k), Coefficient(b, k))
  {
    hide Xor, Low, Shr;
    XorShr(a, b, 5 * k);
    XorLow(Shr(a, 5 * k), Shr(b, 5 * k), 5);
  }

  lemma {:induction false} ShlIsTimes32(p: nat)
    ensures Shl(p, 5) == 32 * p
  {
    assert Shl(p, 0) == p;
    assert Shl(p, 1) == 2 * p;
    assert Shl(p, 2) == 4 * p;
    assert Shl(p, 3) == 8 * p;
    assert Shl(p, 4) == 16 * p;
  }

  /** One digit to base 32. */
  lemma {:induction false} Digit(x: nat, high: nat, low: nat)
    requires x == 32 * high + low && low < 32
    ensures Shr(x, 5) == high && Low(x, 5) == low
  {
    hide Shr, Low, Shl;
    ShlIsTimes32(high);
    ShiftDrops(high, low);
  }

  /** The six digits of a number to base 32. */
  lemma {:induction false} SixDigits(x: nat, d: seq<nat>)
    requires |d| == 6 && Symbols(d)
    requires x == ((((d[5] * 32 + d[4]) * 32 + d[3]) * 32 + d[2]) * 32 + d[1]) * 32 + d[0]
    ensures forall k :: 0 <= k < 6 ==> Coefficient(x, k) == d[k]
  {
    hide Shr, Low;
    var x5 := d[5];
    var x4 := x5 * 32 + d[4];
    var x3 := x4 * 32 + d[3];
    var x2 := x3 * 32 + d[2];
    var x1 := x2 * 32 + d[1];
    Digit(x, x1, d[0]);
    Digit(x1, x2, d[1]);
    Digit(x2, x3, d[2]);
    Digit(x3, x4, d[3]);
    Digit(x4, x5, d[4]);
    Digit(x5, 0, d[5]);
    NoShift(x);
    ShrAdd(x, 5, 5);
    ShrAdd(x, 10, 5);
    ShrAdd(x, 15, 5);
    ShrAdd(x, 20, 5);
  }

  lemma NoShift(x: nat)
    ensures Shr(x, 0) == x
  {
  }

  lemma {:induction false} GeneratorDigits()
    ensures forall k :: 0 <= k < 6 ==> Coefficient(Generator(0), k) == [18, 29, 21, 20, 22, 29][k]
    ensures forall k :: 0 <= k < 6 ==> Coefficient(Generator(1), k) == [13, 19, 3, 1, 5, 19][k]
    ensures forall k :: 0 <= k < 6 ==> Coefficient(Generator(2), k) == [26, 15, 6, 2, 10, 15][k]
    ensures forall k :: 0 <= k < 6 ==> Coefficient(Generator(3), k) == [29, 30, 12, 4, 20, 30][k]
    ensures forall k :: 0 <= k < 6 ==> Coefficient(Generator(4), k) == [19, 21, 24, 8, 1, 21][k]
  {
    hide Coefficient;
    SixDigits(Generator(0), [18, 29, 21, 20, 22, 29]);
    SixDigits(Generator(1), [13, 19, 3, 1, 5, 19]);
    SixDigits(Generator(2), [26, 15, 6, 2, 10, 15]);
    SixDigits(Generator(3), [29, 30, 12, 4, 20, 30]);
    SixDigits(Generator(4), [19, 21, 24, 8, 1, 21]);
  }

  lemma {:induction false} TwiceTable()
    ensures Twice(18) == 13 && Twice(29) == 19 && Twice(21) == 3 && Twice(20) == 1 && Twice(22) == 5
    ensures Twice(13) == 26 && Twice(19) == 15 && Twice(3) == 6 && Twice(1) == 2 && Twice(5) == 10
    ensures Twice(26) == 29 && Twice(15) == 30 && Twice(6) == 12 && Twice(2) == 4 && Twice(10) == 20
    ensures Twice(30) == 21 && Twice(12) == 24 && Twice(4) == 8
  {
  }

  /** The constants are the generator polynomial times 1, z, z^2, z^3 and z^4. */
  lemma {:induction false} GeneratorsDouble(i: nat, k: nat)
    requires i < 4 && k < 6
    ensures Coefficient(Generator(0), k) == G[k]
    ensures Coefficient(Generator(i + 1), k) == Twice(Coefficient(Generator(i), k))
  {
    GeneratorDigits();
    TwiceTable();
    hide Coefficient, Generator, Twice;
  }

  /** What is taken off is the generator polynomial times the coefficient that is shifted out. */
  lemma {:induction false} ReductionIsProduct(top: nat, i: nat, k: nat)
    requires i < 5 && k < 6
    ensures Coefficient(Reduction(top, i), k) == Product(top, Coefficient(Generator(i), k), i)
    decreases 5 - i
  {
    hide Xor, Bit, Coefficient, Generator, Twice;
    CoefficientXor(if Bit(top, i) then Generator(i) else 0, Reduction(top, i + 1), k);
    NoCoefficient(k);
    if i < 4 {
      ReductionIsProduct(top, i + 1, k);
      GeneratorsDouble(i, k);
    }
  }

  lemma {:induction false} NoCoefficient(k: nat)
    ensures Coefficient(0, k) == 0
  {
    ShrZero(5 * k);
  }

  /** The register shifted left: each coefficient moves up, and the highest is gone. */
  lemma {:induction false} ShiftedCoefficient(c: nat, k: nat)
    requires k < 6
    ensures Coefficient(Shl(Low(c, 25), 5), k) == if k == 0 then 0 else Coefficient(c, k - 1)
  {
    hide Shl, Shr, Low;
    var p := Low(c, 25);
    LowOfShl(p, 5);
    if k == 0 {
      NoShift(Shl(p, 5));
    } else {
      ShrAdd(Shl(p, 5), 5, 5 * (k - 1));
      LowKeeps(c, 25, 5 * (k - 1), 5);
    }
  }

  /** Low bits are read from low bits. */
  lemma {:induction false} LowKeeps(c: nat, n: nat, at: nat, m: nat)
    requires at + m <= n
    ensures Low(Shr(Low(c, n), at), m) == Low(Shr(c, at), m)
    decreases at
  {
    if at == 0 {
      NoShift(Low(c, n));
      NoShift(c);
      LowOfLow(c, m, n);
    } else {
      LowKeeps(c / 2, n - 1, at - 1, m);
      LowHalf(c, n);
      hide Low;
    }
  }

  lemma {:induction false} WordCoefficient(v: nat, k: nat)
    requires v < 32
    ensures Coefficient(v, k) == if k == 0 then v else 0
  {
    hide Shr, Low;
    if k == 0 {
      Digit(v, 0, v);
      NoShift(v);
    } else {
      Widths();
      Pow2Monotonic(5, 5 * k);
      ShrSmall(v, 5 * k);
      Digit(0, 0, 0);
    }
  }

  /**
   One step of the checksum: the register times x, plus the word, modulo the generator polynomial. Each
   coefficient is the one below it plus the highest times that of the generator.
  */
  lemma {:induction false} StepIsRemainder(c: nat, v: nat, k: nat)
    requires v < 32 && k < 6
    ensures Coefficient(Step(c, v), k) ==
            Xor(if k == 0 then v else Coefficient(c, k - 1), Times(Shr(c, 25), G[k]))
  {
    var shifted, top := Shl(Low(c, 25), 5), Shr(c, 25);
    assert Step(c, v) == Xor(Xor(shifted, v), Reduction(top, 0));
    hide Step, Xor, Shl, Shr, Low, Reduction, Coefficient, Product, Generator;
    CoefficientXor(Xor(shifted, v), Reduction(top, 0), k);
    CoefficientXor(shifted, v, k);
    ShiftedCoefficient(c, k);
    WordCoefficient(v, k);
    ReductionIsProduct(top, 0, k);
    GeneratorsDouble(0, k);
    XorZero(v);
    XorZero(Coefficient(c, if k == 0 then 0 else k - 1));
  }

  // ---------------------------------------------------------------------------
  // The text

  const SYMBOLS := "qpzry9x8gf2tvdw0s3jn54khce6mua7l"

  /** The prefix as words: the high bits of its characters, a zero and the low five bits. */
  predicate Expands(hrp: string, e: seq<nat>) {
    && |e| == 2 * |hrp| + 1 && e[|hrp|] == 0
    && forall i :: 0 <= i < |hrp| ==> e[i] == hrp[i] as nat / 32 && e[|hrp| + 1 + i] == hrp[i] as nat % 32
  }

  lemma {:induction false} ExpandsIs(hrp: string, e: seq<nat>)
    requires Expands(hrp, e)
    ensures e == HrpExpand(hrp)
  {
    hide Shr, Low;
    forall i | 0 <= i < |hrp|
      ensures Shr(hrp[i] as nat, 5) == hrp[i] as nat / 32 && Low(hrp[i] as nat, 5) == hrp[i] as nat % 32
    {
      var x := hrp[i] as nat;
      Digit(x, x / 32, x % 32);
    }
    forall k | 0 <= k < |e| ensures e[k] == HrpExpand(hrp)[k] {
      if k > |hrp| {
        assert e[|hrp| + 1 + (k - |hrp| - 1)] == e[k];
      }
    }
  }

  function Spelled(words: seq<nat>): (s: string)
    requires Symbols(words)
    ensures |s| == |words|
  {
    seq(|words|, i requires 0 <= i < |words| => SYMBOLS[words[i]])
  }

  lemma {:induction false} SpelledIsChars(words: seq<nat>)
    requires Symbols(words)
    ensures Spelled(words) == Chars(words)
  {
  }

  lemma {:induction false} SpelledOnce(a: seq<nat>, b: seq<nat>)
    requires Symbols(a) && Symbols(b) && Spelled(a) == Spelled(b)
    ensures a == b
  {
    SpelledIsChars(a);
    SpelledIsChars(b);
    WordsOfChars(a);
    WordsOfChars(b);
    hide *;
  }

  /**
   An encoding is the prefix, a one and the symbols of the words and of six more, the only six with which
   the checksum of everything comes to the constant: 1, or 0x2bc830a3 of BIP350.
  */
  lemma {:induction false} EncodingIs(hrp: string, words: seq<nat>, version: nat, e: seq<nat>, check: seq<nat>)
    requires HrpChars(hrp) && Symbols(words) && Expands(hrp, e) && (version == 1 || version == 0x2bc830a3)
    requires |check| == 6 && Symbols(check)
    ensures Polymod(1, e + words + check) == version <==> Encoded(hrp, words, version) == hrp + "1" + Spelled(words + check)
  {
    ExpandsIs(hrp, e);
    ValidIffChecksum(hrp, words, check, version);
    var right := Checksum(hrp, words, version);
    ChecksumWordsAreSymbols(Xor(Polymod(1, HrpExpand(hrp) + words + ZeroWords(6)), version));
    assert e + words + check == HrpExpand(hrp) + (words + check);
    SpelledIsChars(words + right);
    assert Encoded(hrp, words, version) == hrp + "1" + Spelled(words + right);
    hide *;
    if hrp + "1" + Spelled(words + right) == hrp + "1" + Spelled(words + check) {
      SameTail(hrp + "1", Spelled(words + right), Spelled(words + check));
      SpelledOnce(words + right, words + check);
      SameTail(words, right, check);
    }
  }

  lemma {:induction false} SameTail<T>(a: seq<T>, b: seq<T>, c: seq<T>)
    requires a + b == a + c
    ensures b == c
  {
    assert b == (a + b)[|a|..] && c == (a + c)[|a|..];
  }

  /**
   A text without capitals of a prefix, a one and symbols. It needs a prefix, of characters from 33 to 126,
   and six symbols at least; then it is decoded to its words but the last six, under the constant the checksum
   of everything comes to, if that is one of the two.
  */
  lemma {:induction false} DecodingIs(hrp: string, data: seq<nat>, e: seq<nat>)
    requires (forall i :: 0 <= i < |hrp| ==> !('A' <= hrp[i] <= 'Z')) && Symbols(data) && Expands(hrp, e)
    ensures DecodedOf(hrp + "1" + Spelled(data)) ==
            var p := Polymod(1, e + data);
            if hrp == "" || |data| < 6 || (exists i :: 0 <= i < |hrp| && !(33 <= hrp[i] as nat <= 126)) then InvalidHrp
            else if p == 1 || p == 0x2bc830a3 then Decoded(hrp, data[..|data| - 6], p)
            else InvalidChecksum
  {
    hide Polymod, HrpExpand, LastIndexOf, IndexOf, Words, DataChars, Lower, Spelled, Chars, Expands;
    var text, s := Spelled(data), hrp + "1" + Spelled(data);
    ExpandsIs(hrp, e);
    SpelledIsChars(data);
    WordsOfChars(data);
    NoSeparator(text);
    LastSeparator(hrp, text);
    NoCapitals(hrp, data);
    LowerFixed(s);
    assert s[..|hrp|] == hrp && s[|hrp| + 1..] == text;
  }

  lemma {:induction false} NoCapitals(hrp: string, data: seq<nat>)
    requires (forall i :: 0 <= i < |hrp| ==> !IsUpper(hrp[i])) && Symbols(data)
    ensures forall i :: 0 <= i < |hrp + "1" + Spelled(data)| ==> !IsUpper((hrp + "1" + Spelled(data))[i])
  {
    AlphabetFacts();
    SpelledIsChars(data);
    var text := Chars(data);
    assert forall i :: 0 <= i < |text| ==> text[i] == ALPHABET[data[i]];
    hide Chars, Spelled;
  }

  predicate Capital(c: char) {
    65 <= c as nat <= 90
  }

  predicate Small(c: char) {
    97 <= c as nat <= 122
  }

  /** Capitals and small letters together are refused; capitals alone are read as the small letters 32 further on. */
  lemma {:induction false} CaseIs(s: string, t: string)
    requires |t| == |s| && forall i :: 0 <= i < |s| ==> t[i] as nat == s[i] as nat + if Capital(s[i]) then 32 else 0
    ensures if (exists i :: 0 <= i < |s| && Capital(s[i])) && (exists i :: 0 <= i < |s| && Small(s[i]))
            then DecodedOf(s) == InvalidEncoding
            else DecodedOf(s) == DecodedOf(t)
  {
    assert forall i :: 0 <= i < |s| ==> IsUpper(s[i]) == Capital(s[i]) && IsLower(s[i]) == Small(s[i]);
    if i, j :| 0 <= i < |s| && 0 <= j < |s| && Capital(s[i]) && Small(s[j]) {
      assert IsUpper(s[i]) && IsLower(s[j]) && MixedCase(s);
    } else {
      assert !MixedCase(s);
      assert t == Lower(s);
      LowerDecodesAlike(s);
    }
    hide DecodedOf;
  }
}
