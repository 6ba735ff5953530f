/**
 Bech32 and Bech32m (BIP173, BIP350): the checksum as a linear map over GF(2), encoding,
 decoding, and the exact set of strings that decode.
*/
module Bech32 {
  import opened Common
  import opened Bits

  const ALPHABET: string := "qpzry9x8gf2tvdw0s3jn54khce6mua7l"
  const BECH32: nat := 1
  const BECH32M: nat := 0x2bc830a3

  // ---------------------------------------------------------------------------
  // The checksum polynomial

  function Generator(i: nat): (g: nat)
    requires i < 5
  {
    if i == 0 then 0x3b6a57b2 else if i == 1 then 0x26508e6d else if i == 2 then 0x1ea119fa
    else if i == 3 then 0x3d4233dd else 0x2a1462b3
  }

  /** The generators from i up, selected by the bits of the symbol shifted out. */
  function Reduction(top: nat, i: nat): nat
    requires i <= 5
    decreases 5 - i, top
  {
    if i == 5 then 0
    else Xor(if Bit(top, i) then Generator(i) else 0, Reduction(top, i + 1))
  }

  function Step(chk: nat, value: nat): nat {
    Xor(Xor(Shl(Low(chk, 25), 5), value), Reduction(Shr(chk, 25), 0))
  }

  function Polymod(chk: nat, values: seq<nat>): nat
    decreases |values|
  {
    if values == [] then chk else Polymod(Step(chk, values[0]), values[1..])
  }

  /** `polymod` */
  method ComputePolymod(values: seq<nat>) returns (r: nat)
    ensures r == Polymod(1, values)
  {
    var chk := 1;
    for k := 0 to |values|
      invariant Polymod(chk, values[k..]) == Polymod(1, values)
    {
      var value := values[k];
      ghost var start := Xor(Shl(Low(chk, 25), 5), value);
      ghost var before := chk;
      var top := Shr(chk, 25);
      MaskOf25(chk);
      chk := Xor(Shl(And(chk, 0x1ffffff), 5), value);
      for i := 0 to 5
        invariant Xor(chk, Reduction(top, i)) == Xor(start, Reduction(top, 0))
      {
        XorAssociates(chk, Generator(i), Reduction(top, i + 1));
        XorZero(Reduction(top, i + 1));
        if Bit(top, i) {
          chk := Xor(chk, Generator(i));
        }
      }
      XorZero(chk);
      assert chk == Step(before, value);
      assert values[k..][1..] == values[k + 1..];
    }
    return chk;
  }

  lemma MaskOf25(x: nat)
    ensures And(x, 0x1ffffff) == Low(x, 25)
  {
    assert Pow2(8) == 0x100;
    assert Pow2(16) == 0x10000;
    assert Pow2(25) == 0x2000000;
    AndMaskIsLow(x, 25);
  }

  lemma {:induction false} ReductionLinear(s: nat, t: nat, i: nat)
    requires i <= 5
    ensures Reduction(Xor(s, t), i) == Xor(Reduction(s, i), Reduction(t, i))
    decreases 5 - i
  {
    hide Xor, Bit, Generator;
    if i == 5 {
      XorZero(0);
    } else {
      var g := Generator(i);
      var gs, gt := if Bit(s, i) then g else 0, if Bit(t, i) then g else 0;
      XorBit(s, t, i);
      XorZero(g);
      XorZero(0);
      XorSelf(g);
      ReductionLinear(s, t, i + 1);
      XorRegroup(gs, gt, Reduction(s, i + 1), Reduction(t, i + 1));
    }
  }

  /** One step of the checksum is linear over exclusive or. */
  lemma {:induction false} StepLinear(a: nat, b: nat, v: nat, w: nat)
    ensures Step(Xor(a, b), Xor(v, w)) == Xor(Step(a, v), Step(b, w))
  {
    hide Xor, Shl, Shr, Low, Reduction;
    XorLow(a, b, 25);
    XorShl(Low(a, 25), Low(b, 25), 5);
    XorShr(a, b, 25);
    ReductionLinear(Shr(a, 25), Shr(b, 25), 0);
    XorRegroup(Shl(Low(a, 25), 5), Shl(Low(b, 25), 5), v, w);
    XorRegroup(Xor(Shl(Low(a, 25), 5), v), Xor(Shl(Low(b, 25), 5), w),
               Reduction(Shr(a, 25), 0), Reduction(Shr(b, 25), 0));
  }

  function XorAll(u: seq<nat>, w: seq<nat>): (r: seq<nat>)
    requires |u| == |w|
    ensures |r| == |u|
  {
    seq(|u|, i requires 0 <= i < |u| => Xor(u[i], w[i]))
  }

  /** The checksum is linear over exclusive or, at any length. */
  lemma {:induction false} PolymodLinear(a: nat, b: nat, u: seq<nat>, w: seq<nat>)
    requires |u| == |w|
    ensures Polymod(Xor(a, b), XorAll(u, w)) == Xor(Polymod(a, u), Polymod(b, w))
    decreases |u|
  {
    hide Xor, Step;
    if u != [] {
      StepLinear(a, b, u[0], w[0]);
      assert XorAll(u, w)[1..] == XorAll(u[1..], w[1..]);
      PolymodLinear(Step(a, u[0]), Step(b, w[0]), u[1..], w[1..]);
    }
  }

  lemma {:induction false} PolymodConcat(chk: nat, u: seq<nat>, w: seq<nat>)
    ensures Polymod(chk, u + w) == Polymod(Polymod(chk, u), w)
    decreases |u|
  {
    hide Step;
    if u == [] {
      assert u + w == w;
    } else {
      assert (u + w)[1..] == u[1..] + w;
      PolymodConcat(Step(chk, u[0]), u[1..], w);
    }
  }

  // ---------------------------------------------------------------------------
  // Bounds: everything fits the 30 bits of a JavaScript integer

  predicate Symbols(values: seq<nat>) {
    forall i :: 0 <= i < |values| ==> values[i] < 32
  }

  lemma Widths()
    ensures Pow2(5) == 32 && Pow2(25) == 0x2000000 && Pow2(30) == 0x4000_0000
  {
    assert Pow2(8) == 0x100;
    assert Pow2(16) == 0x10000;
  }

  lemma {:induction false} ReductionBound(top: nat, i: nat)
    requires i <= 5
    ensures Reduction(top, i) < Pow2(30)
    decreases 5 - i
  {
    Widths();
    hide Xor, Pow2, Bit;
    if i < 5 {
      ReductionBound(top, i + 1);
      XorBound(if Bit(top, i) then Generator(i) else 0, Reduction(top, i + 1), 30);
    }
  }

  lemma {:induction false} StepBound(chk: nat, value: nat)
    requires value < 32
    ensures Step(chk, value) < Pow2(30)
  {
    Widths();
    hide Xor, Pow2, Shl, Shr, Low, Reduction;
    ShlBound(Low(chk, 25), 5, 25);
    XorBound(Shl(Low(chk, 25), 5), value, 30);
    ReductionBound(Shr(chk, 25), 0);
    XorBound(Xor(Shl(Low(chk, 25), 5), value), Reduction(Shr(chk, 25), 0), 30);
  }

  lemma {:induction false} PolymodBound(chk: nat, values: seq<nat>)
    requires Symbols(values) && chk < Pow2(30)
    ensures Polymod(chk, values) < Pow2(30)
    decreases |values|
  {
    hide Step, Pow2;
    if values != [] {
      StepBound(chk, values[0]);
      PolymodBound(Step(chk, values[0]), values[1..]);
    }
  }

  // ---------------------------------------------------------------------------
  // Creating the checksum

  function ZeroWords(n: nat): (r: seq<nat>)
    ensures |r| == n
  {
    seq(n, _ => 0)
  }

  /** The k-th of the six 5-bit words of a 30-bit number, highest first. */
  function ChecksumWord(mod: nat, k: nat): (r: nat)
    requires k < 6
  {
    Low(Shr(mod, 5 * (5 - k)), 5)
  }

  function ChecksumWords(mod: nat, n: nat): (r: seq<nat>)
    requires n <= 6
    ensures |r| == n
  {
    seq(n, k requires 0 <= k < n => ChecksumWord(mod, k))
  }

  function HrpExpand(hrp: string): (r: seq<nat>)
    ensures |r| == 2 * |hrp| + 1
  {
    seq(|hrp|, i requires 0 <= i < |hrp| => Shr(hrp[i] as nat, 5)) + [0]
    + seq(|hrp|, i requires 0 <= i < |hrp| => Low(hrp[i] as nat, 5))
  }

  function Checksum(hrp: string, words: seq<nat>, version: nat): (r: seq<nat>)
    ensures |r| == 6
  {
    ChecksumWords(Xor(Polymod(1, HrpExpand(hrp) + words + ZeroWords(6)), version), 6)
  }

  /** The constant the checksum of a whole data part comes to. */
  function Residue(hrp: string, data: seq<nat>): nat {
    Polymod(1, HrpExpand(hrp) + data)
  }

  /** While nothing is shifted out, a step only appends its word. */
  lemma {:induction false} StepAppends(c: nat, v: nat)
    requires c < Pow2(25) && v < 32
    ensures Step(c, v) == Shl(c, 5) + v
  {
    Widths();
    hide Xor, Shl, Shr, Low, Reduction, Pow2;
    LowSmall(c, 25);
    ShrSmall(c, 25);
    NoReduction();
    LowOfShl(c, 5);
    XorDisjoint(Shl(c, 5), v, 5);
    XorZero(Shl(c, 5) + v);
  }

  lemma {:induction false} NoReduction()
    ensures Reduction(0, 0) == 0
  {
    ReductionLinear(0, 0, 0);
    XorZero(0);
    XorSelf(Reduction(0, 0));
  }

  /** Fed to an empty register, the six words of a 30-bit number put it back together. */
  lemma {:induction false} FeedBack(mod: nat, n: nat)
    requires n <= 6 && mod < Pow2(30)
    ensures Polymod(0, ChecksumWords(mod, n)) == Shr(mod, 5 * (6 - n))
    decreases n
  {
    Widths();
    hide Xor, Shl, Shr, Low, Step, Pow2;
    if n == 0 {
      ShrSmall(mod, 30);
      assert ChecksumWords(mod, 0) == [];
    } else {
      FeedBack(mod, n - 1);
      var prefix, w := Shr(mod, 5 * (6 - (n - 1))), ChecksumWord(mod, n - 1);
      assert ChecksumWords(mod, n) == ChecksumWords(mod, n - 1) + [w];
      PolymodConcat(0, ChecksumWords(mod, n - 1), [w]);
      PolymodOne(prefix, w);
      PrefixBound(mod, n - 1);
      StepAppends(prefix, w);
      ShrAdd(mod, 5 * (6 - n), 5);
      SplitAt(Shr(mod, 5 * (6 - n)), 5);
    }
  }

  lemma PolymodOne(chk: nat, v: nat)
    ensures Polymod(chk, [v]) == Step(chk, v)
  {
    assert Polymod(Step(chk, v), [v][1..]) == Step(chk, v);
  }

  lemma {:induction false} PrefixBound(mod: nat, n: nat)
    requires n < 6 && mod < Pow2(30)
    ensures Shr(mod, 5 * (6 - n)) < Pow2(25)
  {
    hide Shr;
    ShrBound(mod, 5 * (6 - n), 5 * n);
    Pow2Monotonic(5 * n, 25);
  }

  /** Appending data to a register is appending zeros and adding the data's own polynomial. */
  lemma {:induction false} AppendedData(chk: nat, data: seq<nat>)
    ensures Polymod(chk, data) == Xor(Polymod(chk, ZeroWords(|data|)), Polymod(0, data))
  {
    hide Step, Polymod;
    PolymodLinear(chk, 0, ZeroWords(|data|), data);
    XorZero(chk);
    assert XorAll(ZeroWords(|data|), data) == data;
  }

  lemma ChecksumWordsAreSymbols(mod: nat)
    ensures Symbols(ChecksumWords(mod, 6))
  {
    Widths();
  }

  lemma VersionBound(version: nat)
    requires version == BECH32 || version == BECH32M
    ensures version < Pow2(30)
  {
    Widths();
  }

  lemma {:induction false} ZeroWordsAreSymbols(n: nat)
    ensures Symbols(ZeroWords(n))
  {
  }

  /** Exactly the created checksum completes a message: any 30-bit constant, any message length. */
  lemma {:induction false} ChecksumUnique(chk: nat, check: seq<nat>, version: nat)
    requires chk < Pow2(30) && version < Pow2(30) && |check| == 6 && Symbols(check)
    ensures Polymod(chk, check) == version
       <==> check == ChecksumWords(Xor(Polymod(chk, ZeroWords(6)), version), 6)
  {
    hide Step, Polymod, Xor, Pow2, ChecksumWords;
    var base := Polymod(chk, ZeroWords(6));
    ZeroWordsAreSymbols(6);
    PolymodBound(chk, ZeroWords(6));
    XorBound(base, version, 30);
    AppendedData(chk, check);
    var mod := Xor(base, version);
    FeedBack(mod, 6);
    ShrNone(mod);
    XorCommutes(base, version);
    XorCancels(version, base);
    XorCommutes(base, Polymod(0, check));
    XorCancels(Polymod(0, check), base);
    XorCommutes(Xor(version, base), base);
    if Polymod(chk, check) == version {
      assert Polymod(0, check) == mod;
      SixWordsDetermined(check);
    }
  }

  lemma ShrNone(x: nat)
    ensures Shr(x, 5 * (6 - 6)) == x
  {
  }

  /** Six words are the words of the number they form. */
  lemma {:induction false} SixWordsDetermined(check: seq<nat>)
    requires |check| == 6 && Symbols(check)
    ensures check == ChecksumWords(Polymod(0, check), 6)
  {
    hide Polymod, Pow2;
    forall k | 0 <= k < 6
      ensures check[k] == ChecksumWord(Polymod(0, check), k)
    {
      WordAt(check, 6, k);
    }
  }

  lemma {:induction false} ShortFeedBound(check: seq<nat>, n: nat)
    requires |check| == 6 && Symbols(check) && n <= 6
    ensures Polymod(0, check[..n]) < Pow2(5 * n)
    decreases n
  {
    hide Shl, Step;
    if n > 0 {
      ShortFeedBound(check, n - 1);
      FeedOne(check, n - 1);
      ShlBound(Polymod(0, check[..n - 1]), 5, 5 * (n - 1));
      ShlEven(Polymod(0, check[..n - 1]), 5 * (n - 1));
    }
  }

  /** A number below 2^m shifted by five leaves room for a word. */
  lemma {:induction false} ShlEven(x: nat, m: nat)
    requires x < Pow2(m)
    ensures Shl(x, 5) + 32 <= Pow2(m + 5)
  {
    Widths();
    hide Shl, Low;
    ShlBound(x, 5, m);
    LowOfShl(x, 5);
    LowOfPow2(5, m + 5);
    Apart(Shl(x, 5), Pow2(m + 5), 5);
  }

  lemma {:induction false} FeedOne(check: seq<nat>, n: nat)
    requires |check| == 6 && Symbols(check) && n < 6 && Polymod(0, check[..n]) < Pow2(5 * n)
    ensures Polymod(0, check[..n + 1]) == Shl(Polymod(0, check[..n]), 5) + check[n]
  {
    hide Shl, Step, Polymod, Pow2;
    assert check[..n + 1] == check[..n] + [check[n]];
    PolymodConcat(0, check[..n], [check[n]]);
    PolymodOne(Polymod(0, check[..n]), check[n]);
    Pow2Monotonic(5 * n, 25);
    StepAppends(Polymod(0, check[..n]), check[n]);
  }

  lemma {:induction false} WordAt(check: seq<nat>, n: nat, k: nat)
    requires |check| == 6 && Symbols(check) && k < n <= 6
    ensures Low(Shr(Polymod(0, check[..n]), 5 * (n - 1 - k)), 5) == check[k]
    ensures n == 6 ==> check[..n] == check
    decreases n
  {
    Widths();
    hide Shl, Shr, Low, Step, Polymod, Pow2;
    ShortFeedBound(check, n - 1);
    FeedOne(check, n - 1);
    var p, w := Polymod(0, check[..n - 1]), check[n - 1];
    LowOfShl(p, 5);
    ShiftDrops(p, w);
    if k == n - 1 {
      ShrByZero(Polymod(0, check[..n]));
    } else {
      WordAt(check, n - 1, k);
      ShrAdd(Polymod(0, check[..n]), 5, 5 * (n - 2 - k));
    }
  }

  lemma ShrByZero(x: nat)
    ensures Shr(x, 0) == x
  {
  }

  lemma {:induction false} ShiftDrops(p: nat, w: nat)
    requires w < 32
    ensures Shr(Shl(p, 5) + w, 5) == p && Low(Shl(p, 5) + w, 5) == w
  {
    Widths();
    hide Shl, Shr, Low, Xor, Pow2;
    LowOfShl(p, 5);
    LowOffset(Shl(p, 5), w, 5);
    XorDisjoint(Shl(p, 5), w, 5);
    XorShr(Shl(p, 5), w, 5);
    ShrSmall(w, 5);
    XorZero(p);
  }

  // ---------------------------------------------------------------------------
  // Text

  function Chars(words: seq<nat>): (s: string)
    requires Symbols(words)
    ensures |s| == |words|
  {
    seq(|words|, i requires 0 <= i < |words| => ALPHABET[words[i]])
  }

  function Encoded(hrp: string, words: seq<nat>, version: nat): string
    requires Symbols(words)
  {
    ChecksumWordsAreSymbols(Xor(Polymod(1, HrpExpand(hrp) + words + ZeroWords(6)), version));
    hrp + "1" + Chars(words + Checksum(hrp, words, version))
  }

  /** `hrpExpand` */
  method ExpandHrp(hrp: string) returns (results: seq<nat>)
    ensures results == HrpExpand(hrp)
  {
    results := [];
    for i := 0 to |hrp|
      invariant results == HrpExpand(hrp)[..i]
    {
      results := results + [Shr(hrp[i] as nat, 5)];
    }
    results := results + [0];
    for i := 0 to |hrp|
      invariant results == HrpExpand(hrp)[..|hrp| + 1 + i]
    {
      MaskOf5(hrp[i] as nat);
      results := results + [And(hrp[i] as nat, 31)];
    }
  }

  lemma MaskOf5(x: nat)
    ensures And(x, 31) == Low(x, 5)
  {
    Widths();
    AndMaskIsLow(x, 5);
  }

  lemma WordMeaning(mod: nat, k: nat)
    requires k < 6
    ensures ChecksumWord(mod, k) == Low(Shr(mod, 5 * (5 - k)), 5)
  {
  }

  /** `createChecksum` */
  method CreateChecksum(hrp: string, data: seq<nat>, constant: nat) returns (results: seq<nat>)
    ensures results == Checksum(hrp, data, constant)
  {
    hide Polymod, HrpExpand, ChecksumWord;
    var expanded := ExpandHrp(hrp);
    var mod := ComputePolymod(expanded + data + [0, 0, 0, 0, 0, 0]);
    assert [0, 0, 0, 0, 0, 0] == ZeroWords(6);
    mod := Xor(mod, constant);
    results := [];
    for i := 0 to 6
      invariant results == ChecksumWords(mod, 6)[..i]
    {
      MaskOf5(Shr(mod, 5 * (5 - i)));
      WordMeaning(mod, i);
      results := results + [And(Shr(mod, 5 * (5 - i)), 31)];
    }
  }

  /** `Bech32.encode` */
  method Encode(hrp: string, words: seq<nat>, version: nat) returns (result: string)
    requires Symbols(words)
    ensures result == Encoded(hrp, words, version)
  {
    var checksum := CreateChecksum(hrp, words, version);
    ChecksumWordsAreSymbols(Xor(Polymod(1, HrpExpand(hrp) + words + ZeroWords(6)), version));
    result := Join(hrp + "1", words + checksum);
  }

  /** The loop that appends the symbol of each word. */
  method Join(before: string, combined: seq<nat>) returns (result: string)
    requires Symbols(combined)
    ensures result == before + Chars(combined)
  {
    result := before;
    for i := 0 to |combined|
      invariant result == before + Chars(combined)[..i]
    {
      result := result + [ALPHABET[combined[i]]];
    }
  }

  datatype DecodeResult =
    | Decoded(hrp: string, words: seq<nat>, version: nat)
    | InvalidEncoding
    | InvalidHrp
    | InvalidChecksum

  predicate IsUpper(c: char) { 'A' <= c <= 'Z' }

  predicate IsLower(c: char) { 'a' <= c <= 'z' }

  predicate MixedCase(s: string) {
    (exists i :: 0 <= i < |s| && IsUpper(s[i])) && (exists i :: 0 <= i < |s| && IsLower(s[i]))
  }

  function LowerChar(c: char): char {
    if IsUpper(c) then (c as nat + 32) as char else c
  }

  function Lower(s: string): (r: string)
    ensures |r| == |s|
  {
    seq(|s|, i requires 0 <= i < |s| => LowerChar(s[i]))
  }

  /** The position of the last c in s, or -1. */
  function LastIndexOf(s: string, c: char): (r: int)
    ensures -1 <= r < |s|
    ensures r >= 0 ==> s[r] == c
    ensures forall i :: r < i < |s| ==> s[i] != c
  {
    if s == [] then -1 else if s[|s| - 1] == c then |s| - 1 else LastIndexOf(s[..|s| - 1], c)
  }

  predicate HrpChars(hrp: string) {
    forall i :: 0 <= i < |hrp| ==> 33 <= hrp[i] as nat <= 126
  }

  predicate DataChars(s: string) {
    forall i :: 0 <= i < |s| ==> s[i] in ALPHABET
  }

  function Words(s: string): (r: seq<nat>)
    requires DataChars(s)
    ensures |r| == |s| && Symbols(r)
  {
    seq(|s|, i requires 0 <= i < |s| => IndexOf(ALPHABET, s[i]))
  }

  function DecodedOf(encoded: string): DecodeResult {
    if MixedCase(encoded) then InvalidEncoding
    else
      var s := Lower(encoded);
      var sep := LastIndexOf(s, '1');
      if sep < 1 || sep + 7 > |s| then InvalidHrp
      else if !HrpChars(s[..sep]) then InvalidHrp
      else if !DataChars(s[sep + 1..]) then InvalidEncoding
      else
        var words := Words(s[sep + 1..]);
        var checksum := Residue(s[..sep], words);
        if checksum != BECH32 && checksum != BECH32M then InvalidChecksum
        else Decoded(s[..sep], words[..|words| - 6], checksum)
  }

  /** `Bech32.decode` */
  method Decode(encoded: string) returns (r: DecodeResult)
    ensures r == DecodedOf(encoded)
  {
    hide Polymod, HrpExpand, LastIndexOf, IndexOf, Lower;
    var hasUpper, hasLower := false, false;
    for i := 0 to |encoded|
      invariant hasUpper <==> exists k :: 0 <= k < i && IsUpper(encoded[k])
      invariant hasLower <==> exists k :: 0 <= k < i && IsLower(encoded[k])
    {
      if IsUpper(encoded[i]) { hasUpper := true; }
      if IsLower(encoded[i]) { hasLower := true; }
    }
    if hasUpper && hasLower { return InvalidEncoding; }
    var s := Lower(encoded);
    var hrpIdx := LastIndexOf(s, '1');
    if hrpIdx < 1 { return InvalidHrp; }
    if hrpIdx + 7 > |s| { return InvalidHrp; }
    var hrp := s[..hrpIdx];
    for i := 0 to |hrp|
      invariant forall k :: 0 <= k < i ==> 33 <= hrp[k] as nat <= 126
    {
      var code := hrp[i] as nat;
      if code < 33 || code > 126 { return InvalidHrp; }
    }
    ghost var data := s[hrpIdx + 1..];
    var words: seq<nat> := [];
    for i := hrpIdx + 1 to |s|
      invariant |words| == i - (hrpIdx + 1)
      invariant forall k :: 0 <= k < |words| ==> data[k] in ALPHABET && words[k] == IndexOf(ALPHABET, data[k])
    {
      var word := IndexOf(ALPHABET, s[i]);
      if word == -1 {
        assert data[i - (hrpIdx + 1)] !in ALPHABET;
        return InvalidEncoding;
      }
      words := words + [word];
    }
    assert words == Words(data);
    var expanded := ExpandHrp(hrp);
    var checksum := ComputePolymod(expanded + words);
    if checksum != BECH32 && checksum != BECH32M { return InvalidChecksum; }
    return Decoded(hrp, words[..|words| - 6], checksum);
  }

  // ---------------------------------------------------------------------------
  // Main results

  /** A human-readable part the encoding is meant for. */
  predicate LegalHrp(hrp: string) {
    |hrp| >= 1 && HrpChars(hrp) && forall i :: 0 <= i < |hrp| ==> !IsUpper(hrp[i])
  }

  predicate LegalVersion(version: nat) {
    version == BECH32 || version == BECH32M
  }

  /** The value each data character stands for. */
  function SymbolValue(c: char): int {
    match c
    case 'q' => 0 case 'p' => 1 case 'z' => 2 case 'r' => 3 case 'y' => 4 case '9' => 5 case 'x' => 6 case '8' => 7
    case 'g' => 8 case 'f' => 9 case '2' => 10 case 't' => 11 case 'v' => 12 case 'd' => 13 case 'w' => 14 case '0' => 15
    case 's' => 16 case '3' => 17 case 'j' => 18 case 'n' => 19 case '5' => 20 case '4' => 21 case 'k' => 22 case 'h' => 23
    case 'c' => 24 case 'e' => 25 case '6' => 26 case 'm' => 27 case 'u' => 28 case 'a' => 29 case '7' => 30 case 'l' => 31
    case _ => -1
  }

  lemma AlphabetValue(w: nat)
    requires w < 32
    ensures SymbolValue(ALPHABET[w]) == w
  {
  }

  lemma AlphabetFacts()
    ensures |ALPHABET| == 32
    ensures forall i :: 0 <= i < 32 ==> !IsUpper(ALPHABET[i]) && ALPHABET[i] != '1'
  {
  }

  lemma AlphabetIndex(w: nat)
    requires w < 32
    ensures IndexOf(ALPHABET, ALPHABET[w]) == w
  {
    hide IndexOf;
    AlphabetValue(w);
    AlphabetValue(IndexOf(ALPHABET, ALPHABET[w]));
  }

  lemma {:induction false} WordsOfChars(words: seq<nat>)
    requires Symbols(words)
    ensures DataChars(Chars(words)) && Words(Chars(words)) == words
  {
    forall i | 0 <= i < |words|
      ensures Chars(words)[i] in ALPHABET && IndexOf(ALPHABET, Chars(words)[i]) == words[i]
    {
      AlphabetIndex(words[i]);
    }
  }

  lemma {:induction false} CharsOfWords(s: string)
    requires DataChars(s)
    ensures Chars(Words(s)) == s
  {
  }

  lemma {:induction false} HrpSymbols(hrp: string)
    requires HrpChars(hrp)
    ensures Symbols(HrpExpand(hrp))
  {
    Widths();
    assert Pow2(10) == 1024;
    forall i | 0 <= i < |hrp|
      ensures Shr(hrp[i] as nat, 5) < 32
    {
      ShrBound(hrp[i] as nat, 5, 5);
    }
  }

  /** A data part is valid for a version exactly when its last six words are the created checksum. */
  lemma {:induction false} ValidIffChecksum(hrp: string, words: seq<nat>, check: seq<nat>, version: nat)
    requires HrpChars(hrp) && Symbols(words) && Symbols(check) && |check| == 6 && LegalVersion(version)
    ensures Residue(hrp, words + check) == version <==> check == Checksum(hrp, words, version)
  {
    hide Polymod, ChecksumWords, HrpExpand;
    HrpSymbols(hrp);
    VersionBound(version);
    Widths();
    var body := HrpExpand(hrp) + words;
    PolymodBound(1, body);
    assert HrpExpand(hrp) + (words + check) == body + check;
    PolymodConcat(1, body, check);
    PolymodConcat(1, body, ZeroWords(6));
    ChecksumUnique(Polymod(1, body), check, version);
  }

  lemma NoSeparator(data: string)
    requires DataChars(data)
    ensures '1' !in data
  {
    AlphabetFacts();
  }

  lemma {:induction false} LastSeparator(hrp: string, data: string)
    requires '1' !in data
    ensures LastIndexOf(hrp + "1" + data, '1') == |hrp|
  {
    hide LastIndexOf;
    var s := hrp + "1" + data;
    assert s[|hrp|] == '1';
    assert forall i :: 0 <= i < |data| ==> s[|hrp| + 1 + i] == data[i];
  }

  lemma {:induction false} LowerFixed(s: string)
    ensures (forall i :: 0 <= i < |s| ==> !IsUpper(s[i])) <==> Lower(s) == s
    ensures forall i :: 0 <= i < |s| ==> !IsUpper(Lower(s)[i])
  {
    if Lower(s) == s {
      forall i | 0 <= i < |s|
        ensures !IsUpper(s[i])
      {
        assert Lower(s)[i] == s[i];
      }
    }
  }

  lemma {:induction false} EncodedHasNoUpper(hrp: string, words: seq<nat>, version: nat)
    requires LegalHrp(hrp) && Symbols(words)
    ensures forall i :: 0 <= i < |Encoded(hrp, words, version)| ==> !IsUpper(Encoded(hrp, words, version)[i])
  {
    AlphabetFacts();
  }

  /** Decoding undoes encoding, for every legal prefix and any number of words. */
  lemma {:induction false} DecodeEncoded(hrp: string, words: seq<nat>, version: nat)
    requires LegalHrp(hrp) && Symbols(words) && LegalVersion(version)
    ensures DecodedOf(Encoded(hrp, words, version)) == Decoded(hrp, words, version)
  {
    hide Polymod, ChecksumWords, HrpExpand, LastIndexOf, IndexOf, Residue;
    var check := Checksum(hrp, words, version);
    ChecksumWordsAreSymbols(Xor(Polymod(1, HrpExpand(hrp) + words + ZeroWords(6)), version));
    var data := Chars(words + check);
    var s := Encoded(hrp, words, version);
    assert s == hrp + "1" + data;
    EncodedHasNoUpper(hrp, words, version);
    LowerFixed(s);
    WordsOfChars(words + check);
    NoSeparator(data);
    LastSeparator(hrp, data);
    assert s[..|hrp|] == hrp;
    assert s[|hrp| + 1..] == data;
    ValidIffChecksum(hrp, words, check, version);
    assert (words + check)[..|words|] == words;
  }

  /**
   What decodes, exactly: a string without mixed case whose lower-case form is the encoding of
   what it decodes to, with a legal prefix. In particular no two lower-case strings decode alike.
  */
  lemma {:induction false} DecodesIffEncoded(encoded: string, hrp: string, words: seq<nat>, version: nat)
    ensures DecodedOf(encoded) == Decoded(hrp, words, version)
       <==> !MixedCase(encoded) && LegalHrp(hrp) && Symbols(words) && LegalVersion(version)
            && Lower(encoded) == Encoded(hrp, words, version)
  {
    hide Polymod, ChecksumWords, HrpExpand, LastIndexOf, IndexOf, Residue, Checksum, DecodedOf, MixedCase, Encoded;
    if DecodedOf(encoded) == Decoded(hrp, words, version) {
      DecodeSound(encoded);
    }
    if !MixedCase(encoded) && LegalHrp(hrp) && Symbols(words) && LegalVersion(version)
       && Lower(encoded) == Encoded(hrp, words, version) {
      DecodeEncoded(hrp, words, version);
      LowerDecodesAlike(encoded);
    }
  }

  lemma {:induction false} LowerDecodesAlike(encoded: string)
    requires !MixedCase(encoded)
    ensures DecodedOf(encoded) == DecodedOf(Lower(encoded))
  {
    hide Polymod, HrpExpand, LastIndexOf, IndexOf, Residue, Words, DataChars, HrpChars;
    LowerFixed(encoded);
    LowerFixed(Lower(encoded));
  }

  /** Whatever decodes is the encoding of what it decodes to. */
  lemma {:induction false} DecodeSound(encoded: string)
    requires DecodedOf(encoded).Decoded?
    ensures var r := DecodedOf(encoded);
      !MixedCase(encoded) && LegalHrp(r.hrp) && Symbols(r.words) && LegalVersion(r.version)
      && Lower(encoded) == Encoded(r.hrp, r.words, r.version)
  {
    hide Polymod, ChecksumWords, HrpExpand, LastIndexOf, IndexOf, Residue, Checksum, DataChars, Words, Lower;
    var s, r := Lower(encoded), DecodedOf(encoded);
    LowerFixed(encoded);
    var sep := LastIndexOf(s, '1');
    var all := Words(s[sep + 1..]);
    var check := all[|all| - 6..];
    assert all == r.words + check;
    ValidIffChecksum(r.hrp, r.words, check, r.version);
    CharsOfWords(s[sep + 1..]);
    assert s == s[..sep] + [s[sep]] + s[sep + 1..];
  }

  /** The round trip holds exactly for the legal prefixes. */
  lemma {:induction false} RoundTripIffLegal(hrp: string, words: seq<nat>, version: nat)
    requires Symbols(words) && LegalVersion(version)
    ensures DecodedOf(Encoded(hrp, words, version)) == Decoded(hrp, words, version) <==> LegalHrp(hrp)
  {
    hide DecodedOf, Encoded;
    DecodesIffEncoded(Encoded(hrp, words, version), hrp, words, version);
    if LegalHrp(hrp) { DecodeEncoded(hrp, words, version); }
  }

  // ---------------------------------------------------------------------------
  // Single errors

  /** The low five bits of the generators are independent, so no selection of them vanishes there. */
  lemma {:induction false} ReductionTells(top: nat)
    requires top < 32 && Low(Reduction(top, 0), 5) == 0
    ensures top == 0
  {
    forall j | 0 <= j < 5
      ensures !Bit(Reduction(top, 0), j)
    {
      LowZeroIffNoBits(Reduction(top, 0), 5);
    }
    GeneratorBits();
    hide Bit, Reduction, Generator, Low, Xor;
    ReductionBit(top, 0);
    ReductionBit(top, 1);
    ReductionBit(top, 2);
    ReductionBit(top, 3);
    ReductionBit(top, 4);
    assert !Bit(top, 0) && !Bit(top, 1) && !Bit(top, 2) && !Bit(top, 3) && !Bit(top, 4);
    LowZeroIffNoBits(top, 5);
    Widths();
    LowSmall(top, 5);
  }

  lemma {:induction false} ReductionBit(top: nat, j: nat)
    ensures Bit(Reduction(top, 0), j) <==>
      ((Bit(top, 0) && Bit(Generator(0), j)) != ((Bit(top, 1) && Bit(Generator(1), j))
        != ((Bit(top, 2) && Bit(Generator(2), j)) != ((Bit(top, 3) && Bit(Generator(3), j))
        != (Bit(top, 4) && Bit(Generator(4), j))))))
  {
    hide Bit, Xor, Generator;
    ReductionBitFrom(top, j, 0);
    ReductionBitFrom(top, j, 1);
    ReductionBitFrom(top, j, 2);
    ReductionBitFrom(top, j, 3);
    ReductionBitFrom(top, j, 4);
    ZeroBits(j);
  }

  lemma ReductionBitFrom(top: nat, j: nat, i: nat)
    requires i < 5
    ensures Bit(Reduction(top, i), j) <==> (Bit(top, i) && Bit(Generator(i), j)) != Bit(Reduction(top, i + 1), j)
  {
    hide Bit, Xor, Generator;
    XorBit(if Bit(top, i) then Generator(i) else 0, Reduction(top, i + 1), j);
    ZeroBits(j);
  }

  lemma {:induction false} GeneratorBits()
    ensures forall j :: 0 <= j < 5 ==> (Bit(Generator(0), j) <==> j == 1 || j == 4)
    ensures forall j :: 0 <= j < 5 ==> (Bit(Generator(1), j) <==> j == 0 || j == 2 || j == 3)
    ensures forall j :: 0 <= j < 5 ==> (Bit(Generator(2), j) <==> j == 1 || j == 3 || j == 4)
    ensures forall j :: 0 <= j < 5 ==> (Bit(Generator(3), j) <==> j == 0 || j == 2 || j == 3 || j == 4)
    ensures forall j :: 0 <= j < 5 ==> (Bit(Generator(4), j) <==> j == 0 || j == 1 || j == 4)
  {
    LowFiveBits(0x3b6a57b2, 0x1db52bd, 18);
    LowFiveBits(0x26508e6d, 0x1328473, 13);
    LowFiveBits(0x1ea119fa, 0x0f508cf, 26);
    LowFiveBits(0x3d4233dd, 0x1ea119e, 29);
    LowFiveBits(0x2a1462b3, 0x150a315, 19);
  }

  lemma {:induction false} LowTwoBits(x: nat, high: nat, low: nat)
    requires x == 4 * high + low && low < 4
    ensures (Bit(x, 0) <==> low % 2 == 1) && (Bit(x, 1) <==> low / 2 == 1)
    ensures Bit(x, 2) == Bit(high, 0) && Bit(x, 3) == Bit(high, 1) && Bit(x, 4) == Bit(high, 2)
  {
    assert x / 2 == 2 * high + low / 2 && x / 2 / 2 == high;
    assert Bit(x, 1) == Bit(x / 2, 0);
    assert Bit(x, 2) == Bit(x / 2, 1) == Bit(high, 0);
    assert Bit(x, 3) == Bit(x / 2, 2) == Bit(high, 1);
    assert Bit(x, 4) == Bit(x / 2, 3) == Bit(high, 2);
  }

  lemma {:induction false} LowBit(x: nat, high: nat, low: nat)
    requires x == 2 * high + low && low < 2
    ensures Bit(x, 0) <==> low % 2 == 1
  {
  }

  lemma {:induction false} PartsOfFive(low: nat)
    requires low < 32
    ensures low == 4 * (low / 4) + low % 4 && low / 4 == 4 * (low / 16) + low / 4 % 4 && low / 16 < 2
    ensures low % 4 % 2 == low % 2 && low % 4 / 2 == low / 2 % 2
    ensures low / 4 % 4 % 2 == low / 4 % 2 && low / 4 % 4 / 2 == low / 8 % 2
  {
  }

  lemma {:induction false} LowFiveBits(x: nat, high: nat, low: nat)
    requires x == 32 * high + low && low < 32
    ensures Bit(x, 0) <==> low % 2 == 1
    ensures Bit(x, 1) <==> low / 2 % 2 == 1
    ensures Bit(x, 2) <==> low / 4 % 2 == 1
    ensures Bit(x, 3) <==> low / 8 % 2 == 1
    ensures Bit(x, 4) <==> low / 16 % 2 == 1
  {
    hide Bit;
    PartsOfFive(low);
    var middle := low / 4 % 4;
    var y, z := 8 * high + low / 4, 2 * high + low / 16;
    LowTwoBits(x, y, low % 4);
    LowTwoBits(y, z, middle);
    LowBit(z, high, low / 16);
  }

  /** Only the empty register is stepped to the empty register. */
  lemma {:induction false} StepKernel(e: nat)
    requires e < Pow2(30) && Step(e, 0) == 0
    ensures e == 0
  {
    Widths();
    hide Xor, Shl, Shr, Low, Reduction, Pow2;
    var top, rest := Shr(e, 25), Shl(Low(e, 25), 5);
    XorZero(rest);
    XorCancels(rest, Reduction(top, 0));
    XorZero(Reduction(top, 0));
    assert rest == Reduction(top, 0);
    LowOfShl(Low(e, 25), 5);
    ShrBound(e, 25, 5);
    ReductionTells(top);
    NoReduction();
    ShlZero(5);
    assert Low(e, 25) == Shr(rest, 5);
    ShrZero(5);
    SplitAt(e, 25);
    ShlZero(25);
  }

  lemma {:induction false} ShrZero(n: nat)
    ensures Shr(0, n) == 0
  {
    if n > 0 { ShrZero(n - 1); }
  }

  /** Different registers, or different symbols, stay different. */
  lemma {:induction false} StepInjective(c: nat, d: nat, v: nat, w: nat)
    requires c < Pow2(30) && d < Pow2(30) && Step(c, v) == Step(d, w)
    requires v == w || c == d
    ensures c == d && v == w
  {
    hide Xor, Step, Pow2;
    StepLinear(c, d, v, w);
    XorSelf(Step(c, v));
    XorSelf(v);
    XorSelf(c);
    if v == w {
      XorBound(c, d, 30);
      StepKernel(Xor(c, d));
      XorCancels(c, d);
      XorZero(d);
    } else {
      StepOfZero(Xor(v, w));
      XorCancels(v, w);
      XorZero(w);
    }
  }

  lemma {:induction false} StepOfZero(v: nat)
    ensures Step(0, v) == v
  {
    NoReduction();
    ShlZero(5);
    ShrZero(25);
    XorZero(v);
    assert Low(0, 25) <= 0;
  }

  lemma {:induction false} PolymodInjective(c: nat, d: nat, values: seq<nat>)
    requires c < Pow2(30) && d < Pow2(30) && Symbols(values) && Polymod(c, values) == Polymod(d, values)
    ensures c == d
    decreases |values|
  {
    hide Step, Pow2;
    if values != [] {
      StepBound(c, values[0]);
      StepBound(d, values[0]);
      PolymodInjective(Step(c, values[0]), Step(d, values[0]), values[1..]);
      StepInjective(c, d, values[0], values[0]);
    }
  }

  /** Replacing one symbol of any value sequence changes its polynomial. */
  lemma {:induction false} OneSymbolChangesPolymod(pre: seq<nat>, v: nat, w: nat, post: seq<nat>)
    requires Symbols(pre) && v < 32 && w < 32 && Symbols(post) && v != w
    ensures Polymod(1, pre + [v] + post) != Polymod(1, pre + [w] + post)
  {
    Widths();
    hide Polymod, Step, Pow2;
    var c := Polymod(1, pre);
    PolymodBound(1, pre);
    PolymodConcat(1, pre + [v], post);
    PolymodConcat(1, pre + [w], post);
    PolymodConcat(1, pre, [v]);
    PolymodConcat(1, pre, [w]);
    PolymodOne(c, v);
    PolymodOne(c, w);
    StepBound(c, v);
    StepBound(c, w);
    if Polymod(1, pre + [v] + post) == Polymod(1, pre + [w] + post) {
      PolymodInjective(Step(c, v), Step(c, w), post);
      StepInjective(c, c, v, w);
    }
  }

  /** Of two strings that differ in one data symbol not both decode as the same version. */
  lemma {:induction false} OneSymbolErrorDetected(s: string, i: nat, c: char)
    requires Lower(s) == s && LastIndexOf(s, '1') < i < |s| && c in ALPHABET && c != s[i]
    ensures DecodedOf(s).Decoded? && DecodedOf(s[i := c]).Decoded? ==>
      DecodedOf(s[i := c]).version != DecodedOf(s).version
  {
    hide Polymod, HrpExpand, LastIndexOf, IndexOf, Words, Lower, HrpChars, DataChars, Residue;
    if DecodedOf(s).Decoded? {
      var sep, k := LastIndexOf(s, '1'), i - LastIndexOf(s, '1') - 1;
      var hrp, data := s[..sep], s[sep + 1..];
      var data' := data[k := c];
      assert s[i := c] == hrp + "1" + data';
      DataCharsUpdate(data, k, c);
      NoSeparator(data');
      LastSeparator(hrp, data');
      assert s[i := c][..sep] == hrp && s[i := c][sep + 1..] == data';
      NoUpperUpdate(s, i, c);
      HrpSymbols(hrp);
      ResidueChanges(hrp, data, k, c);
    }
  }

  lemma {:induction false} NoUpperUpdate(s: string, i: nat, c: char)
    requires Lower(s) == s && i < |s| && c in ALPHABET
    ensures Lower(s[i := c]) == s[i := c]
  {
    AlphabetFacts();
    LowerFixed(s);
    LowerFixed(s[i := c]);
  }

  lemma DataCharsUpdate(data: string, k: nat, c: char)
    requires DataChars(data) && k < |data| && c in ALPHABET
    ensures DataChars(data[k := c])
  {
  }

  lemma {:induction false} ResidueChanges(hrp: string, data: string, k: nat, c: char)
    requires Symbols(HrpExpand(hrp)) && DataChars(data) && k < |data| && c in ALPHABET && c != data[k]
    ensures DataChars(data[k := c])
    ensures Residue(hrp, Words(data[k := c])) != Residue(hrp, Words(data))
  {
    hide Polymod, HrpExpand, IndexOf;
    DataCharsUpdate(data, k, c);
    var words, words' := Words(data), Words(data[k := c]);
    CharsOfWords(data);
    CharsOfWords(data[k := c]);
    assert Chars(words)[k] == data[k] && Chars(words')[k] == c;
    var pre, post := HrpExpand(hrp) + words[..k], words[k + 1..];
    assert HrpExpand(hrp) + words == pre + [words[k]] + post;
    assert HrpExpand(hrp) + words' == pre + [words'[k]] + post;
    OneSymbolChangesPolymod(pre, words[k], words'[k], post);
  }
}
