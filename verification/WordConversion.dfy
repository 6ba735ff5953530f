/**
 The regrouping of 8-bit bytes into 5-bit words and back behind Bech32 payloads and BOLT #11
 invoices. A JavaScript shift drops what leaves 32 bits, so the accumulator is kept below 2^32.
*/
module WordConversion {
  import opened Common
  import opened Bits

  type Stream = seq<bool>

  /** The lowest n bits of x, highest first. */
  function BigEndian(x: nat, n: nat): (s: Stream)
    ensures |s| == n
    decreases n, x
  {
    if n == 0 then [] else BigEndian(x / 2, n - 1) + [x % 2 == 1]
  }

  function ValueOf(s: Stream): (x: nat)
    ensures x < Pow2(|s|)
  {
    if s == [] then 0 else 2 * ValueOf(s[..|s| - 1]) + (if s[|s| - 1] then 1 else 0)
  }

  predicate Fits(words: seq<nat>, n: nat) {
    forall i :: 0 <= i < |words| ==> words[i] < Pow2(n)
  }

  /** The bits of all words in order. */
  function Flat(words: seq<nat>, n: nat): (s: Stream)
    decreases |words|
  {
    if words == [] then [] else BigEndian(words[0], n) + Flat(words[1..], n)
  }

  function Zeros(n: nat): (s: Stream)
    ensures |s| == n
  {
    seq(n, _ => false)
  }

  predicate AllZero(s: Stream) {
    forall i :: 0 <= i < |s| ==> !s[i]
  }

  /** A stream cut into full groups of n bits, and what is left over. */
  function Cut(s: Stream, n: nat): (r: (seq<nat>, Stream))
    requires n > 0
    ensures |r.1| < n
    decreases |s|
  {
    if |s| < n then ([], s)
    else var (words, rest) := Cut(s[n..], n); ([ValueOf(s[..n])] + words, rest)
  }

  /** What `convertWords` returns: None where it throws. */
  function Converted(data: seq<nat>, inBits: nat, outBits: nat, pad: bool): Option<seq<nat>>
    requires outBits > 0
  {
    var (words, rest) := Cut(Flat(data, inBits), outBits);
    if pad then
      Some(if rest == [] then words else words + [ValueOf(rest + Zeros(outBits - |rest|))])
    else if |rest| >= inBits || !AllZero(rest) then None
    else Some(words)
  }

  // ---------------------------------------------------------------------------
  // Bits of numbers

  lemma {:induction false} ValueOfBigEndian(x: nat, n: nat)
    ensures ValueOf(BigEndian(x, n)) == Low(x, n)
    decreases n
  {
    if n > 0 {
      ValueOfBigEndian(x / 2, n - 1);
      assert BigEndian(x, n)[..n - 1] == BigEndian(x / 2, n - 1);
    }
  }

  lemma {:induction false} BigEndianOfValue(s: Stream)
    ensures BigEndian(ValueOf(s), |s|) == s
    decreases |s|
  {
    if s != [] {
      BigEndianOfValue(s[..|s| - 1]);
      assert s == s[..|s| - 1] + [s[|s| - 1]];
    }
  }

  lemma BigEndianStep(x: nat, n: nat)
    requires n > 0
    ensures BigEndian(x, n) == BigEndian(x / 2, n - 1) + [x % 2 == 1] && Shr(x, n) == Shr(x / 2, n - 1)
  {
  }

  lemma Associates(a: Stream, b: Stream, c: Stream)
    ensures (a + b) + c == a + (b + c)
  {
  }

  /** High bits first, then low bits. */
  lemma {:induction false} BigEndianSplit(x: nat, high: nat, low: nat)
    ensures BigEndian(x, high + low) == BigEndian(Shr(x, low), high) + BigEndian(x, low)
    decreases low
  {
    if low == 0 {
      assert BigEndian(x, high) + BigEndian(x, 0) == BigEndian(x, high);
    } else {
      hide BigEndian, Shr;
      BigEndianSplit(x / 2, high, low - 1);
      BigEndianStep(x, high + low);
      BigEndianStep(x, low);
      Associates(BigEndian(Shr(x, low), high), BigEndian(x / 2, low - 1), [x % 2 == 1]);
    }
  }

  lemma {:induction false} BigEndianIgnoresHigh(x: nat, n: nat, m: nat)
    requires n <= m
    ensures BigEndian(Low(x, m), n) == BigEndian(x, n)
    decreases n
  {
    if n > 0 {
      LowHalf(x, m);
      BigEndianIgnoresHigh(x / 2, n - 1, m - 1);
    }
  }

  lemma {:induction false} ZeroOnlyWithoutBits(s: Stream)
    ensures ValueOf(s) == 0 <==> AllZero(s)
    decreases |s|
  {
    if s != [] {
      ZeroOnlyWithoutBits(s[..|s| - 1]);
      assert s == s[..|s| - 1] + [s[|s| - 1]];
    }
  }

  lemma {:induction false} ValueOfPadded(s: Stream, n: nat)
    ensures ValueOf(s + Zeros(n)) == Shl(ValueOf(s), n)
    decreases n
  {
    if n == 0 {
      assert s + Zeros(0) == s;
    } else {
      var t := s + Zeros(n);
      assert t[..|t| - 1] == s + Zeros(n - 1);
      ValueOfPadded(s, n - 1);
    }
  }

  // ---------------------------------------------------------------------------
  // Streams of words

  lemma {:induction false} FlatAppend(a: seq<nat>, b: seq<nat>, n: nat)
    ensures Flat(a + b, n) == Flat(a, n) + Flat(b, n)
    decreases |a|
  {
    if a == [] {
      assert a + b == b;
    } else {
      assert (a + b)[1..] == a[1..] + b;
      FlatAppend(a[1..], b, n);
    }
  }

  lemma FlatOne(w: nat, n: nat)
    ensures Flat([w], n) == BigEndian(w, n)
  {
    assert Flat([w][1..], n) == [];
  }

  /** Cutting a stream of n-bit words gives the words back. */
  lemma {:induction false} CutFlat(words: seq<nat>, rest: Stream, n: nat)
    requires n > 0 && Fits(words, n) && |rest| < n
    ensures Cut(Flat(words, n) + rest, n) == (words, rest)
    decreases |words|
  {
    var s := Flat(words, n) + rest;
    if words == [] {
      assert s == rest;
    } else {
      assert s == BigEndian(words[0], n) + (Flat(words[1..], n) + rest);
      assert s[..n] == BigEndian(words[0], n);
      assert s[n..] == Flat(words[1..], n) + rest;
      CutFlat(words[1..], rest, n);
      ValueOfBigEndian(words[0], n);
      LowSmall(words[0], n);
      assert words == [words[0]] + words[1..];
    }
  }

  lemma {:induction false} FlatBefore(v: nat, words: seq<nat>, n: nat)
    ensures Flat([v] + words, n) == BigEndian(v, n) + Flat(words, n)
  {
    hide BigEndian, Flat;
    FlatAppend([v], words, n);
    FlatOne(v, n);
  }

  lemma {:induction false} CutFits(s: Stream, n: nat)
    requires n > 0
    ensures Fits(Cut(s, n).0, n)
    decreases |s|
  {
    if |s| >= n {
      CutFits(s[n..], n);
      hide Pow2, ValueOf;
      CutStep(s, n);
      assert |s[..n]| == n;
      hide Cut;
    }
  }

  /** Nothing of a stream is lost by cutting it. */
  lemma {:induction false} CutKeeps(s: Stream, n: nat)
    requires n > 0
    ensures var (words, rest) := Cut(s, n); Fits(words, n) && Flat(words, n) + rest == s
    decreases |s|
  {
    hide BigEndian, ValueOf, Pow2, Fits;
    CutFits(s, n);
    if |s| < n {
      assert Flat([], n) + s == s;
    } else {
      CutKeeps(s[n..], n);
      CutStep(s, n);
      var (words, rest) := Cut(s[n..], n);
      hide Cut, Flat;
      BigEndianOfValue(s[..n]);
      FlatBefore(ValueOf(s[..n]), words, n);
      Associates(s[..n], Flat(words, n), rest);
      assert s[..n] + s[n..] == s;
    }
  }

  lemma CutStep(s: Stream, n: nat)
    requires n > 0 && |s| >= n
    ensures Cut(s, n) == ([ValueOf(s[..n])] + Cut(s[n..], n).0, Cut(s[n..], n).1)
  {
  }

  // ---------------------------------------------------------------------------
  // The loop

  /** One input word joins the accumulator. */
  lemma {:induction false} Accumulate(value: nat, bits: nat, d: nat, inBits: nat)
    requires bits + inBits <= 32 && d < Pow2(inBits)
    ensures BigEndian(Low(Shl(value, inBits), 32) + d, bits + inBits)
         == BigEndian(value, bits) + BigEndian(d, inBits)
  {
    hide BigEndian, Low, Shl, Shr, Xor, Pow2;
    var shifted := Low(Shl(value, inBits), 32);
    LowOfShl(value, inBits);
    LowOfLow(Shl(value, inBits), inBits, 32);
    var v := shifted + d;
    LowOffset(shifted, d, inBits);
    XorDisjoint(shifted, d, inBits);
    XorShr(shifted, d, inBits);
    ShrSmall(d, inBits);
    XorZero(Shr(shifted, inBits));
    BigEndianSplit(v, bits, inBits);
    BigEndianIgnoresHigh(v, inBits, inBits);
    // the accumulator's own bits survive the truncation
    BigEndianIgnoresHigh(Shl(value, inBits), bits + inBits, 32);
    BigEndianSplit(shifted, bits, inBits);
    BigEndianSplit(Shl(value, inBits), bits, inBits);
    SamePrefix(BigEndian(Shr(shifted, inBits), bits), BigEndian(shifted, inBits),
               BigEndian(value, bits), BigEndian(Shl(value, inBits), inBits));
  }

  lemma SamePrefix(a: Stream, b: Stream, c: Stream, d: Stream)
    requires a + b == c + d && |a| == |c|
    ensures a == c
  {
    assert a == (a + b)[..|a|];
    assert c == (c + d)[..|c|];
  }

  lemma {:induction false} ShlOne(n: nat)
    ensures Shl(1, n) == Pow2(n)
  {
    if n > 0 { ShlOne(n - 1); }
  }

  /** One output word leaves the accumulator. */
  lemma {:induction false} TakeWord(value: nat, bits: nat, outBits: nat)
    ensures BigEndian(value, bits + outBits)
         == BigEndian(Low(Shr(value, bits), outBits), outBits) + BigEndian(value, bits)
  {
    hide BigEndian, Low, Shr;
    BigEndianSplit(value, outBits, bits);
    BigEndianIgnoresHigh(Shr(value, bits), outBits, outBits);
  }

  /** The word `(value << (outBits - bits)) & maxV`: the last bits, moved up and filled with zeros. */
  lemma {:induction false} LastWord(value: nat, bits: nat, outBits: nat)
    requires bits <= outBits
    ensures Low(Shl(value, outBits - bits), outBits) == ValueOf(BigEndian(value, bits) + Zeros(outBits - bits))
    ensures Low(Shl(value, outBits - bits), outBits) == 0 <==> AllZero(BigEndian(value, bits))
  {
    hide Low, BigEndian, ValueOf;
    var n := outBits - bits;
    ValueOfBigEndian(value, bits);
    ValueOfPadded(BigEndian(value, bits), n);
    LowOfShifted(value, bits, n);
    ZeroOnlyWithoutBits(BigEndian(value, bits));
    ShlZeroIff(Low(value, bits), n);
  }

  lemma {:induction false} LowOfShifted(x: nat, m: nat, n: nat)
    ensures Low(Shl(x, n), m + n) == Shl(Low(x, m), n)
    decreases n
  {
    if n > 0 {
      LowOfShifted(x, m, n - 1);
      assert Shl(x, n) / 2 == Shl(x, n - 1) && Shl(x, n) % 2 == 0;
    }
  }

  lemma {:induction false} ShlZeroIff(x: nat, n: nat)
    ensures Shl(x, n) == 0 <==> x == 0
    decreases n
  {
    if n > 0 { ShlZeroIff(x, n - 1); }
  }

  /** The loop's state: words already produced, then the accumulator's last `bits` bits. */
  ghost function Held(result: seq<nat>, outBits: nat, value: nat, bits: nat): Stream {
    Flat(result, outBits) + BigEndian(value, bits)
  }

  lemma {:induction false} PushKeeps(result: seq<nat>, outBits: nat, value: nat, bits: nat)
    requires Fits(result, outBits)
    ensures var word := Low(Shr(value, bits), outBits);
      Fits(result + [word], outBits)
      && Held(result + [word], outBits, value, bits) == Held(result, outBits, value, bits + outBits)
  {
    hide BigEndian, Low, Shr, Pow2, Flat;
    var word := Low(Shr(value, bits), outBits);
    TakeWord(value, bits, outBits);
    FlatAppend(result, [word], outBits);
    FlatOne(word, outBits);
  }

  lemma {:induction false} PullKeeps(result: seq<nat>, outBits: nat, value: nat, bits: nat,
                                     data: seq<nat>, i: nat, inBits: nat)
    requires i < |data| && bits + inBits <= 32 && Fits(data, inBits)
    requires Held(result, outBits, value, bits) == Flat(data[..i], inBits)
    ensures Held(result, outBits, Low(Shl(value, inBits), 32) + data[i], bits + inBits) == Flat(data[..i + 1], inBits)
  {
    hide BigEndian, Low, Shl, Pow2, Flat;
    Accumulate(value, bits, data[i], inBits);
    assert data[..i + 1] == data[..i] + [data[i]];
    FlatAppend(data[..i], [data[i]], inBits);
    FlatOne(data[i], inBits);
  }

  lemma {:induction false} FinishMeans(result: seq<nat>, outBits: nat, value: nat, bits: nat,
                                       data: seq<nat>, inBits: nat)
    requires bits < outBits && Fits(result, outBits)
    requires Held(result, outBits, value, bits) == Flat(data, inBits)
    ensures var last := Low(Shl(value, outBits - bits), outBits);
      Converted(data, inBits, outBits, true) == Some(if bits > 0 then result + [last] else result)
      && Converted(data, inBits, outBits, false) == if bits >= inBits || last != 0 then None else Some(result)
  {
    hide BigEndian, Low, Shl, Pow2, Flat, Cut, ValueOf;
    CutFlat(result, BigEndian(value, bits), outBits);
    LastWord(value, bits, outBits);
  }

  /** The inner loop of `convertWords`: whole output words leave the accumulator. */
  method Drain(words: seq<nat>, value: nat, held: nat, outBits: nat, maxV: nat)
    returns (result: seq<nat>, bits: nat)
    requires 0 < outBits && Fits(words, outBits) && maxV == Pow2(outBits) - 1
    ensures bits < outBits && Fits(result, outBits)
    ensures Held(result, outBits, value, bits) == Held(words, outBits, value, held)
  {
    hide BigEndian, Low, Shr, And, Pow2, Held, Fits;
    result, bits := words, held;
    while bits >= outBits
      invariant Fits(result, outBits)
      invariant Held(result, outBits, value, bits) == Held(words, outBits, value, held)
    {
      bits := bits - outBits;
      PushKeeps(result, outBits, value, bits);
      AndMaskIsLow(Shr(value, bits), outBits);
      result := result + [And(Shr(value, bits), maxV)];
    }
  }

  /** `convertWords`; the source calls it with 8 and 5 bits, in either order. */
  method ConvertWords(data: seq<nat>, inBits: nat, outBits: nat, pad: bool) returns (r: Option<seq<nat>>)
    requires 0 < outBits <= 16 && inBits <= 16 && Fits(data, inBits)
    ensures r == Converted(data, inBits, outBits, pad)
  {
    hide BigEndian, Low, Shl, And, Pow2, Flat, Converted;
    var value: nat, bits: nat := 0, 0;
    ShlOne(outBits);
    var maxV: nat := Shl(1, outBits) - 1;
    var result: seq<nat> := [];
    EmptyHeld(data, inBits, outBits);
    for i := 0 to |data|
      invariant bits < outBits && Fits(result, outBits)
      invariant Held(result, outBits, value, bits) == Flat(data[..i], inBits)
    {
      hide Held, Fits;
      PullKeeps(result, outBits, value, bits, data, i, inBits);
      value := Low(Shl(value, inBits), 32) + data[i];
      bits := bits + inBits;
      result, bits := Drain(result, value, bits, outBits, maxV);
    }
    hide Held, Fits;
    assert data[..|data|] == data;
    FinishMeans(result, outBits, value, bits, data, inBits);
    AndMaskIsLow(Shl(value, outBits - bits), outBits);
    var last := And(Shl(value, outBits - bits), maxV);
    if pad {
      return Some(if bits > 0 then result + [last] else result);
    } else if bits >= inBits || last != 0 {
      return None;
    } else {
      return Some(result);
    }
  }

  lemma EmptyHeld(data: seq<nat>, inBits: nat, outBits: nat)
    ensures Held([], outBits, 0, 0) == Flat(data[..0], inBits)
  {
  }

  // ---------------------------------------------------------------------------
  // Main results

  /** `Bech32.bufferToWords` */
  function BufferToWords(buffer: seq<nat>, pad: bool): Option<seq<nat>> {
    Converted(buffer, 8, 5, pad)
  }

  /** `Bech32.wordsToBuffer` */
  function WordsToBuffer(words: seq<nat>, pad: bool): Option<seq<nat>> {
    Converted(words, 5, 8, pad)
  }

  /** Padding out a buffer only appends zero bits, fewer than a word. */
  lemma {:induction false} PaddedWords(buffer: seq<nat>) returns (words: seq<nat>, p: nat)
    ensures BufferToWords(buffer, true) == Some(words)
    ensures Fits(words, 5) && p < 5 && Flat(words, 5) == Flat(buffer, 8) + Zeros(p)
  {
    hide BigEndian, Pow2, Cut, ValueOf, Flat;
    var (full, rest) := Cut(Flat(buffer, 8), 5);
    CutKeeps(Flat(buffer, 8), 5);
    if rest == [] {
      words, p := full, 0;
    } else {
      p := 5 - |rest|;
      var last := ValueOf(rest + Zeros(p));
      words := full + [last];
      BigEndianOfValue(rest + Zeros(p));
      FlatAppend(full, [last], 5);
      FlatOne(last, 5);
    }
  }

  lemma {:induction false} ZerosAreZero(n: nat)
    ensures AllZero(Zeros(n))
  {
  }

  lemma {:induction false} AllZeroIsZeros(s: Stream)
    requires AllZero(s)
    ensures s == Zeros(|s|)
  {
  }

  lemma Distribute(n: nat, k: nat)
    ensures n * (k + 1) == n * k + n
  {
  }

  lemma {:induction false} FlatLength(words: seq<nat>, n: nat)
    ensures |Flat(words, n)| == n * |words|
    decreases |words|
  {
    if words != [] {
      FlatLength(words[1..], n);
      Distribute(n, |words| - 1);
    }
  }

  /**
   A padded word list converts back to a buffer without padding exactly when it is what that buffer
   converts to; in particular every buffer round-trips and no two word lists give the same buffer.
  */
  lemma {:induction false} WordsRoundTrip(words: seq<nat>, buffer: seq<nat>)
    requires Fits(words, 5) && Fits(buffer, 8)
    ensures WordsToBuffer(words, false) == Some(buffer) <==> BufferToWords(buffer, true) == Some(words)
  {
    hide BigEndian, Pow2, Cut, ValueOf, Flat;
    var padded, p := PaddedWords(buffer);
    if BufferToWords(buffer, true) == Some(words) {
      CutFlat(buffer, Zeros(p), 8);
      ZerosAreZero(p);
    }
    if WordsToBuffer(words, false) == Some(buffer) {
      var (_, rest) := Cut(Flat(words, 5), 8);
      CutKeeps(Flat(words, 5), 8);
      AllZeroIsZeros(rest);
      FlatLength(words, 5);
      FlatLength(padded, 5);
      SamePadding(|words|, |padded|, |rest|, p);
      WordsFromFlat(words, padded);
    }
  }

  lemma SamePadding(m: nat, n: nat, a: nat, b: nat)
    requires a < 5 && b < 5 && 5 * m - a == 5 * n - b
    ensures a == b
  {
  }

  lemma {:induction false} WordsFromFlat(a: seq<nat>, b: seq<nat>)
    requires Fits(a, 5) && Fits(b, 5) && Flat(a, 5) == Flat(b, 5)
    ensures a == b
  {
    hide Flat, Cut, Pow2;
    CutFlat(a, [], 5);
    CutFlat(b, [], 5);
  }

  /** Every buffer survives the way to words and back. */
  lemma {:induction false} BufferRoundTrip(buffer: seq<nat>)
    requires Fits(buffer, 8)
    ensures BufferToWords(buffer, true).Some?
    ensures WordsToBuffer(BufferToWords(buffer, true).value, false) == Some(buffer)
  {
    hide BufferToWords, WordsToBuffer, Flat;
    var words, _ := PaddedWords(buffer);
    WordsRoundTrip(words, buffer);
  }
}
