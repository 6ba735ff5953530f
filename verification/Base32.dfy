/**
 Base32: the encoder and the decoder work from right to left, and do what RFC 4648 says from left to
 right. The decoder takes any text; the index -1 of a character outside the alphabet goes into its
 shifts like any other.
*/
module Base32 {
  import opened Common
  import opened Bits
  import opened WordConversion

  const ALPHABET: string := "ABCDEFGHIJKLMNOPQRSTUVWXYZ234567"

  // The operators `<<` and `|`, on operands that may be negative.

  function Up(x: int, n: nat): int {
    if n == 0 then x else 2 * Up(x, n - 1)
  }

  function Or(x: int, y: int): int
    decreases if x < 0 then -x else x, if y < 0 then -y else y
  {
    if x == 0 then y else if x == -1 then -1
    else 2 * Or(x / 2, y / 2) + (if x % 2 == 1 || y % 2 == 1 then 1 else 0)
  }

  lemma {:induction false} UpIsShl(x: nat, n: nat)
    ensures Up(x, n) == Shl(x, n)
  {
    if n > 0 { UpIsShl(x, n - 1); }
  }

  /** Bits moved up above others do not meet them, whatever the sign. */
  lemma {:induction false} OrAbove(x: int, low: nat, n: nat)
    requires low < Pow2(n)
    ensures Or(Up(x, n), low) == Up(x, n) + low
    decreases n
  {
    if n == 0 {
      OrZero(x);
    } else {
      OrAbove(x, low / 2, n - 1);
    }
  }

  lemma {:induction false} OrZero(x: int)
    ensures Or(x, 0) == x
    decreases if x < 0 then -x else x
  {
    if x != 0 && x != -1 { OrZero(x / 2); }
  }

  // ---------------------------------------------------------------------------
  // Section 6 of RFC 4648

  predicate Bytes(buf: seq<nat>) {
    Fits(buf, 8)
  }

  predicate Words(words: seq<nat>) {
    forall i :: 0 <= i < |words| ==> words[i] < 32
  }

  function Chars(words: seq<nat>): (s: string)
    requires Words(words)
    ensures |s| == |words| && forall i :: 0 <= i < |s| ==> s[i] == ALPHABET[words[i]]
  {
    seq(|words|, i requires 0 <= i < |words| => ALPHABET[words[i]])
  }

  /** The bytes as five-bit groups from the left, zeros filling the last. */
  function Groups(buf: seq<nat>): (words: seq<nat>)
    requires Bytes(buf)
    ensures Words(words)
  {
    GroupsAreWords(buf);
    Converted(buf, 8, 5, true).value
  }

  lemma {:induction false} GroupsAreWords(buf: seq<nat>)
    requires Bytes(buf)
    ensures Words(Converted(buf, 8, 5, true).value)
  {
    Widths();
    CutKeeps(Flat(buf, 8), 5);
    hide Flat, Cut, Pow2, ValueOf;
    var (words, rest) := Cut(Flat(buf, 8), 5);
    assert |rest + Zeros(5 - |rest|)| == 5;
  }

  lemma Widths()
    ensures Pow2(5) == 32 && Pow2(8) == 256
  {
    assert Pow2(4) == 16;
  }

  /** The text: the groups, and pad characters up to a multiple of eight. */
  function Encoded(buf: seq<nat>): string
    requires Bytes(buf)
  {
    Chars(Groups(buf)) + Repeat('=', (8 - |Groups(buf)| % 8) % 8)
  }

  // ---------------------------------------------------------------------------
  // The encoder

  function PadBits(n: nat): nat {
    if n % 5 == 0 then 0 else 40 - n * 8 % 40
  }

  function PadChars(padBits: nat): nat {
    if padBits == 32 then 6 else if padBits == 24 then 4 else if padBits == 16 then 3 else if padBits == 8 then 1 else 0
  }

  function FillBits(padBits: nat): (r: nat)
    ensures r < 5
  {
    if padBits == 32 then 2 else if padBits == 24 then 4 else if padBits == 16 then 1 else if padBits == 8 then 3 else 0
  }

  /** The accumulator's bits and then the groups already made. */
  ghost function Made(val: nat, bits: nat, groups: seq<nat>, n: nat): Stream {
    BigEndian(val, bits) + Flat(groups, n)
  }

  /** One more byte or word on the left of the accumulator. */
  lemma {:induction false} JoinKeeps(val: nat, bits: nat, groups: seq<nat>, n: nat, d: nat, width: nat)
    requires val < Pow2(bits) && d < Pow2(width)
    ensures var joined := Or(Up(d, bits), val);
            && 0 <= joined < Pow2(bits + width)
            && Made(joined, bits + width, groups, n) == BigEndian(d, width) + Made(val, bits, groups, n)
  {
    hide BigEndian, Flat, Pow2, Shl, Shr, Or, Low;
    OrAbove(d, val, bits);
    UpIsShl(d, bits);
    var joined := Shl(d, bits) + val;
    JoinSplits(d, val, bits);
    JoinBound(d, val, bits, width);
    BigEndianSplit(joined, width, bits);
    BigEndianIgnoresHigh(joined, bits, bits);
    assert BigEndian(joined, width + bits) == BigEndian(d, width) + BigEndian(val, bits);
  }

  lemma {:induction false} JoinSplits(d: nat, val: nat, bits: nat)
    requires val < Pow2(bits)
    ensures Shr(Shl(d, bits) + val, bits) == d && Low(Shl(d, bits) + val, bits) == val
    decreases bits
  {
    if bits > 0 {
      JoinSplits(d, val / 2, bits - 1);
      assert (Shl(d, bits) + val) / 2 == Shl(d, bits - 1) + val / 2;
      assert (Shl(d, bits) + val) % 2 == val % 2;
    }
  }

  lemma {:induction false} JoinBound(d: nat, val: nat, bits: nat, width: nat)
    requires val < Pow2(bits) && d < Pow2(width)
    ensures Shl(d, bits) + val < Pow2(bits + width)
    decreases bits
  {
    if bits > 0 {
      JoinBound(d, val / 2, bits - 1, width);
    }
  }

  /** One group off the right of the accumulator. */
  lemma {:induction false} TakeKeeps(val: nat, bits: nat, groups: seq<nat>, n: nat)
    requires val < Pow2(bits) && n <= bits
    ensures Shr(val, n) < Pow2(bits - n) && Low(val, n) < Pow2(n)
    ensures Made(Shr(val, n), bits - n, [Low(val, n)] + groups, n) == Made(val, bits, groups, n)
  {
    hide BigEndian, Pow2, Shr, Low, Flat;
    ShrBound(val, n, bits - n);
    BigEndianSplit(val, bits - n, n);
    BigEndianIgnoresHigh(val, n, n);
    FlatAppend([Low(val, n)], groups, n);
    FlatOne(Low(val, n), n);
    assert BigEndian(val, bits) == BigEndian(Shr(val, n), bits - n) + BigEndian(val, n);
  }

  lemma {:induction false} SameGroups(a: seq<nat>, b: seq<nat>, n: nat)
    requires n > 0 && Fits(a, n) && Fits(b, n) && Flat(a, n) == Flat(b, n)
    ensures a == b
  {
    hide Flat, Cut;
    CutFlat(a, [], n);
    CutFlat(b, [], n);
    assert Flat(a, n) + [] == Flat(b, n) + [];
  }

  lemma {:induction false} Mod5(q: nat, r: nat)
    requires r < 5
    ensures (5 * q + r) % 5 == r && (5 * q + r) / 5 == q
  {
  }

  lemma {:induction false} Mod8(q: nat, r: nat)
    requires r < 8
    ensures (8 * q + r) % 8 == r
  {
  }

  lemma {:induction false} Mod40(q: nat, r: nat)
    requires r < 40
    ensures (40 * q + r) % 40 == r
  {
  }

  /** r bytes after whole fives take k groups, of which e bits are fill. */
  predicate Case(r: nat, k: nat, e: nat) {
    (r, k, e) in [(0, 0, 0), (1, 2, 2), (2, 4, 4), (3, 5, 1), (4, 7, 3)]
  }

  function CaseOf(n: nat): (c: (nat, nat, nat))
    ensures Case(c.0, c.1, c.2) && c.0 == n % 5
  {
    var r := n % 5;
    if r == 0 then (0, 0, 0) else if r == 1 then (1, 2, 2) else if r == 2 then (2, 4, 4) else if r == 3 then (3, 5, 1) else (4, 7, 3)
  }

  lemma {:induction false} CaseFill(q: nat, r: nat, k: nat, e: nat)
    requires Case(r, k, e)
    ensures var n := 5 * q + r;
            && n * 8 == 40 * q + 8 * r && n * 8 + e == 5 * (8 * q + k)
            && n * 8 % 5 == if e == 0 then 0 else 5 - e
  {
    var n := 5 * q + r;
    assert n * 8 == 40 * q + 8 * r;
    if e == 0 {
      Mod5(8 * q + k, 0);
    } else {
      assert n * 8 == 5 * (8 * q + k - 1) + (5 - e);
      Mod5(8 * q + k - 1, 5 - e);
    }
  }

  lemma {:induction false} FillCounts(n: nat)
    ensures FillBits(PadBits(n)) == (5 - n * 8 % 5) % 5
    ensures PadChars(PadBits(n)) == (8 - (n * 8 + FillBits(PadBits(n))) / 5 % 8) % 8
  {
    var (r, k, e) := CaseOf(n);
    var q := n / 5;
    hide CaseOf;
    assert n == 5 * q + r;
    CaseFill(q, r, k, e);
    Mod5(q, r);
    Mod40(q, 8 * r);
    Mod5(8 * q + k, 0);
    Mod8(q, k);
  }

  /** The groups of the padded stream are the groups of the buffer. */
  lemma {:induction false} FilledGroups(buf: seq<nat>, fill: nat)
    requires Bytes(buf) && fill == (5 - |buf| * 8 % 5) % 5
    ensures Flat(Groups(buf), 5) == Flat(buf, 8) + Zeros(fill)
  {
    hide Flat, Cut, Pow2, ValueOf, BigEndian;
    var (words, rest) := Cut(Flat(buf, 8), 5);
    CutKeeps(Flat(buf, 8), 5);
    FlatLength(buf, 8);
    FlatLength(words, 5);
    assert 5 * |words| + |rest| == 8 * |buf|;
    if rest == [] {
      assert fill == 0;
      assert Flat(words, 5) + [] == Flat(words, 5) && Flat(buf, 8) + Zeros(0) == Flat(buf, 8);
    } else {
      assert fill == 5 - |rest|;
      var last := rest + Zeros(fill);
      BigEndianOfValue(last);
      FlatAppend(words, [ValueOf(last)], 5);
      FlatOne(ValueOf(last), 5);
      assert Flat(words, 5) + last == Flat(words, 5) + rest + Zeros(fill);
    }
  }

  lemma {:induction false} NothingLeft(total: nat, fill: nat, bits: nat, count: nat)
    requires bits < 5 && bits + 5 * count == total + fill && fill == (5 - total % 5) % 5
    ensures bits == 0 && count == (total + fill) / 5
  {
    var q, r := total / 5, total % 5;
    assert total + fill == if r == 0 then 5 * q else 5 * (q + 1);
  }

  lemma {:induction false} EncodeFinish(buf: seq<nat>, groups: seq<nat>, val: nat, bits: nat)
    requires Bytes(buf) && Words(groups) && bits < 5
    requires Made(val, bits, groups, 5) == Flat(buf, 8) + Zeros(FillBits(PadBits(|buf|)))
    ensures groups == Groups(buf) && PadChars(PadBits(|buf|)) == (8 - |groups| % 8) % 8
  {
    hide Flat, Pow2, BigEndian, Groups, PadBits, FillBits, PadChars;
    FillCounts(|buf|);
    var fill := FillBits(PadBits(|buf|));
    FilledGroups(buf, fill);
    FlatLength(buf, 8);
    FlatLength(groups, 5);
    NothingLeft(|buf| * 8, fill, bits, |groups|);
    assert BigEndian(val, 0) + Flat(groups, 5) == Flat(groups, 5);
    Widths();
    SameGroups(groups, Groups(buf), 5);
  }

  lemma {:induction false} FlatFirst(words: seq<nat>, i: nat, n: nat, rest: Stream)
    requires i < |words|
    ensures Flat(words[i..], n) + rest == BigEndian(words[i], n) + (Flat(words[i + 1..], n) + rest)
  {
    hide Flat, BigEndian;
    FlatAppend([words[i]], words[i + 1..], n);
    FlatOne(words[i], n);
    assert words[i..] == [words[i]] + words[i + 1..];
  }

  /** The inner loop: groups leave the accumulator on the right. */
  method TakeGroups(val0: nat, bits0: nat, ghost groups0: seq<nat>, text0: string)
    returns (val: nat, bits: nat, ghost groups: seq<nat>, text: string)
    requires val0 < Pow2(bits0) && Words(groups0)
    requires |groups0| <= |text0| && text0 == Chars(groups0) + text0[|groups0|..]
    ensures val < Pow2(bits) && bits < 5 && Words(groups)
    ensures Made(val, bits, groups, 5) == Made(val0, bits0, groups0, 5)
    ensures text == Chars(groups) + text0[|groups0|..]
  {
    hide Flat, BigEndian, Shr, Made, Pow2;
    Widths();
    val, bits, groups, text := val0, bits0, groups0, text0;
    while bits >= 5
      invariant val < Pow2(bits) && Words(groups)
      invariant Made(val, bits, groups, 5) == Made(val0, bits0, groups0, 5)
      invariant text == Chars(groups) + text0[|groups0|..]
      decreases bits
    {
      TakeKeeps(val, bits, groups, 5);
      AndMaskIsLow(val, 5);
      var index := And(val, 31);
      text := [ALPHABET[index]] + text;
      groups := [index] + groups;
      val := Shr(val, 5);
      bits := bits - 5;
    }
  }

  lemma {:induction false} NoGroups(buf: seq<nat>)
    requires Bytes(buf) && |buf| == 0
    ensures Groups(buf) == []
  {
  }

  method Encode(buf: seq<nat>) returns (result: string)
    requires Bytes(buf)
    ensures result == Encoded(buf)
  {
    hide Flat, BigEndian, Shr, Pow2, Groups, PadBits, PadChars, FillBits, Made, Chars;
    Widths();
    if |buf| == 0 {
      NoGroups(buf);
      return "";
    }
    var padBits := PadBits(|buf|);
    result := Repeat('=', PadChars(padBits));
    var val: nat, valBits: nat := 0, FillBits(padBits);
    ghost var pads, groups := result, [];
    ghost var fill := Zeros(FillBits(padBits));
    NoGroupsYet(buf, valBits);
    var i := |buf|;
    while i > 0
      invariant 0 <= i <= |buf| && Words(groups) && result == Chars(groups) + pads
      invariant val < Pow2(valBits) && valBits < 5
      invariant Made(val, valBits, groups, 5) == Flat(buf[i..], 8) + fill
    {
      i := i - 1;
      FlatFirst(buf, i, 8, fill);
      assert result[|groups|..] == pads;
      val, valBits, groups, result := TakeByte(val, valBits, groups, result, buf[i]);
    }
    assert buf[0..] == buf;
    EncodeFinish(buf, groups, val, valBits);
  }

  lemma {:induction false} ZeroIsZeros(n: nat)
    ensures BigEndian(0, n) == Zeros(n)
  {
    if n > 0 {
      ZeroIsZeros(n - 1);
    }
  }

  lemma {:induction false} NoGroupsYet(buf: seq<nat>, bits: nat)
    ensures 0 < Pow2(bits) && Made(0, bits, [], 5) == Flat(buf[|buf|..], 8) + Zeros(bits)
  {
    assert Flat(buf[|buf|..], 8) == [] && Flat([], 5) == [];
    ZeroIsZeros(bits);
  }

  /** One byte on the left of the accumulator, and the whole groups taken off. */
  method TakeByte(val0: nat, bits0: nat, ghost groups0: seq<nat>, text0: string, byte: nat)
    returns (val: nat, bits: nat, ghost groups: seq<nat>, text: string)
    requires val0 < Pow2(bits0) && Words(groups0) && byte < 256
    requires |groups0| <= |text0| && text0 == Chars(groups0) + text0[|groups0|..]
    ensures val < Pow2(bits) && bits < 5 && Words(groups)
    ensures Made(val, bits, groups, 5) == BigEndian(byte, 8) + Made(val0, bits0, groups0, 5)
    ensures text == Chars(groups) + text0[|groups0|..]
  {
    Widths();
    hide Flat, BigEndian, Shl, Or, Pow2, Made;
    JoinKeeps(val0, bits0, groups0, 5, byte, 8);
    val, bits, groups, text := TakeGroups(Or(Up(byte, bits0), val0), bits0 + 8, groups0, text0);
  }

  // ---------------------------------------------------------------------------
  // The decoder

  /** How many pad characters a text ends with. */
  function Pads(s: string): (n: nat)
    ensures n <= |s| && (forall i :: |s| - n <= i < |s| ==> s[i] == '=') && (n < |s| ==> s[|s| - n - 1] != '=')
  {
    if s == [] || s[|s| - 1] != '=' then 0 else 1 + Pads(s[..|s| - 1])
  }

  /** Whether the text before the padding has a character outside the alphabet at position i or later. */
  predicate Foreign(s: string, i: nat) {
    exists j :: i <= j < |s| - Pads(s) && s[j] !in ALPHABET
  }

  /**
   The words of the characters before the padding. A character outside the alphabet counts as -1, all ones
   without end, so it and all characters to the left of it are words of ones.
  */
  function WordsIn(s: string): (words: seq<nat>)
    ensures |words| == |s| - Pads(s) && Words(words)
    ensures forall i :: 0 <= i < |words| ==> words[i] == if Foreign(s, i) then 31 else IndexOf(ALPHABET, s[i])
  {
    seq(|s| - Pads(s), i requires 0 <= i < |s| - Pads(s) =>
      if Foreign(s, i) then 31 else assert s[i] in ALPHABET; IndexOf(ALPHABET, s[i]))
  }

  /** How many bits of the last group a number of pad characters stands for. */
  function Unused(pads: nat): (r: nat)
    ensures r < 5
  {
    if pads == 6 then 2 else if pads == 4 then 4 else if pads == 3 then 1 else if pads == 1 then 3 else 0
  }

  /** The bits of the groups, without what fills the last. */
  function Used(words: seq<nat>, pads: nat): Stream
    requires Words(words)
  {
    if pads == 0 || words == [] then Flat(words, 5)
    else Flat(words[..|words| - 1], 5) + BigEndian(Shr(words[|words| - 1], Unused(pads)), 5 - Unused(pads))
  }

  /** The bytes of a stream from the right; what is left over on the left is dropped. */
  function BytesFromRight(s: Stream): seq<nat> {
    Cut(s[|s| % 8..], 8).0
  }

  // The operators `>>` and `&`, on operands that may be negative.

  /** The sign is kept. */
  function Down(x: int, n: nat): int
    decreases n
  {
    if n == 0 then x else Down(x / 2, n - 1)
  }

  function Masked(x: int, mask: nat): nat
    decreases mask
  {
    if mask == 0 then 0 else 2 * Masked(x / 2, mask / 2) + (if x % 2 == 1 && mask % 2 == 1 then 1 else 0)
  }

  /** The accumulator: its low bits, and above them ones without end after a foreign character. */
  function Acc(low: nat, bits: nat, foreign: bool): int {
    if foreign then low - Pow2(bits) else low
  }

  lemma {:induction false} UpOfOnes(n: nat)
    ensures Up(-1, n) == 0 - Pow2(n) && Shl(31, n) == Pow2(n + 5) - Pow2(n)
  {
    if n == 0 {
      Widths();
    } else {
      UpOfOnes(n - 1);
    }
  }

  /** What is moved up under ones without end changes nothing. */
  lemma {:induction false} OrOnes(x: int, low: nat, n: nat)
    requires low < Pow2(n)
    ensures Or(Up(x, n), low - Pow2(n)) == low - Pow2(n)
    decreases n
  {
    if n == 0 {
      OrOne(x);
    } else {
      OrOnes(x, low / 2, n - 1);
      assert (low - Pow2(n)) / 2 == low / 2 - Pow2(n - 1);
    }
  }

  lemma {:induction false} OrOne(x: int)
    ensures Or(x, -1) == -1
    decreases if x < 0 then -x else x
  {
    if x != 0 && x != -1 { OrOne(x / 2); }
  }

  /** A character's index on the left of the accumulator: its word, or ones from there on. */
  lemma {:induction false} JoinIndex(low: nat, bits: nat, foreign: bool, index: int)
    requires low < Pow2(bits) && -1 <= index < 32
    ensures var word := if foreign || index < 0 then 31 else index;
            Or(Up(index, bits), Acc(low, bits, foreign)) == Acc(Shl(word, bits) + low, bits + 5, foreign || index < 0)
  {
    hide Or, Up, Shl, Pow2;
    UpOfOnes(bits);
    if foreign {
      OrOnes(index, low, bits);
    } else {
      OrAbove(index, low, bits);
      if index >= 0 { UpIsShl(index, bits); }
    }
  }

  lemma {:induction false} AccHalf(low: nat, bits: nat, foreign: bool)
    requires bits > 0
    ensures Acc(low, bits, foreign) / 2 == Acc(low / 2, bits - 1, foreign) && Acc(low, bits, foreign) % 2 == low % 2
  {
  }

  /** The low bits and the rest of the accumulator. */
  lemma {:induction false} DownKeeps(low: nat, bits: nat, foreign: bool, n: nat)
    requires n <= bits
    ensures Masked(Acc(low, bits, foreign), Pow2(n) - 1) == Low(low, n)
    ensures Down(Acc(low, bits, foreign), n) == Acc(Shr(low, n), bits - n, foreign)
    decreases n
  {
    hide Acc;
    if n > 0 {
      assert (Pow2(n) - 1) / 2 == Pow2(n - 1) - 1;
      AccHalf(low, bits, foreign);
      DownKeeps(low / 2, bits - 1, foreign, n - 1);
    }
  }

  method TakeBytes(val0: int, bits0: nat, bytes0: seq<nat>, ghost low0: nat, ghost foreign: bool)
    returns (val: int, bits: nat, bytes: seq<nat>, ghost low: nat)
    requires val0 == Acc(low0, bits0, foreign) && low0 < Pow2(bits0) && Bytes(bytes0)
    ensures val == Acc(low, bits, foreign) && low < Pow2(bits) && bits < 8 && Bytes(bytes)
    ensures Made(low, bits, bytes, 8) == Made(low0, bits0, bytes0, 8)
  {
    hide Flat, BigEndian, Shr, Made, Pow2, Acc, Down, Masked;
    Widths();
    val, bits, bytes, low := val0, bits0, bytes0, low0;
    while bits >= 8
      invariant val == Acc(low, bits, foreign) && low < Pow2(bits) && Bytes(bytes)
      invariant Made(low, bits, bytes, 8) == Made(low0, bits0, bytes0, 8)
      decreases bits
    {
      TakeKeeps(low, bits, bytes, 8);
      DownKeeps(low, bits, foreign, 8);
      var word := Masked(val, 255);
      bytes := [word] + bytes;
      val := Down(val, 8);
      low := Shr(low, 8);
      bits := bits - 8;
    }
  }

  lemma {:induction false} DecodeFinish(s: Stream, bytes: seq<nat>, val: nat, bits: nat)
    requires Bytes(bytes) && bits < 8 && Made(val, bits, bytes, 8) == s
    ensures bytes == BytesFromRight(s)
  {
    hide Flat, BigEndian, Cut, Pow2;
    FlatLength(bytes, 8);
    assert |s| % 8 == bits;
    assert s[bits..] == Flat(bytes, 8) + [];
    CutFlat(bytes, [], 8);
  }

  lemma IndexIsWord(w: nat)
    requires w < 32
    ensures IndexOf(ALPHABET, ALPHABET[w]) == w && ALPHABET[w] != '='
  {
    hide IndexOf;
    AlphabetValue(w);
    AlphabetValue(IndexOf(ALPHABET, ALPHABET[w]));
  }

  function WordOf(c: char): int {
    if 'A' <= c <= 'Z' then c as int - 65 else if '2' <= c <= '7' then c as int - 50 + 26 else -1
  }

  lemma AlphabetValue(w: nat)
    requires w < 32
    ensures |ALPHABET| == 32 && WordOf(ALPHABET[w]) == w
  {
  }

  /** What a text stands for. */
  function Decoded(s: string): seq<nat> {
    BytesFromRight(Used(WordsIn(s), Pads(s)))
  }

  lemma {:induction false} UsedLast(words: seq<nat>, pads: nat, bytes: seq<nat>)
    requires Words(words) && pads > 0 && words != [] && bytes == []
    ensures var unused := Unused(pads); var val := Shr(words[|words| - 1], unused);
            && val < Pow2(5 - unused)
            && Used(words, pads) == Flat(words[..|words| - 1], 5) + Made(val, 5 - unused, bytes, 8)
  {
    hide BigEndian, Pow2;
    Widths();
    ShrBound(words[|words| - 1], Unused(pads), 5 - Unused(pads));
    var last := BigEndian(Shr(words[|words| - 1], Unused(pads)), 5 - Unused(pads));
    assert last + Flat(bytes, 8) == last;
  }

  lemma {:induction false} FlatLast(words: seq<nat>, i: nat, n: nat, rest: Stream)
    requires i < |words|
    ensures Flat(words[..i + 1], n) + rest == Flat(words[..i], n) + (BigEndian(words[i], n) + rest)
  {
    hide Flat, BigEndian;
    FlatAppend(words[..i], [words[i]], n);
    FlatOne(words[i], n);
    assert words[..i + 1] == words[..i] + [words[i]];
  }

  method CountPads(input: string) returns (i: int, padChars: nat)
    ensures padChars == Pads(input) && i == |input| - padChars - 1
  {
    hide Pads;
    i := |input| - 1;
    padChars := 0;
    while i >= 0 && input[i] == '='
      invariant |input| - Pads(input) - 1 <= i < |input| && padChars == |input| - 1 - i
      decreases i
    {
      padChars := padChars + 1;
      i := i - 1;
    }
  }

  /** The index of a character, and the word it adds. */
  lemma {:induction false} IndexAt(s: string, i: nat)
    requires i < |s| - Pads(s)
    ensures var index := IndexOf(ALPHABET, s[i]);
            && -1 <= index < 32
            && (Foreign(s, i) <==> Foreign(s, i + 1) || index < 0)
            && WordsIn(s)[i] == if Foreign(s, i + 1) || index < 0 then 31 else index
  {
    hide IndexOf, Pads;
    AlphabetValue(0);
  }

  /** One character: its word on the left of the accumulator, and the whole bytes taken off. */
  method TakeWord(val0: int, bits0: nat, bytes0: seq<nat>, index: int, ghost low0: nat, ghost foreign0: bool)
    returns (val: int, bits: nat, bytes: seq<nat>, ghost low: nat)
    requires val0 == Acc(low0, bits0, foreign0) && low0 < Pow2(bits0) && Bytes(bytes0) && -1 <= index < 32
    ensures val == Acc(low, bits, foreign0 || index < 0) && low < Pow2(bits) && bits < 8 && Bytes(bytes)
    ensures Made(low, bits, bytes, 8)
         == BigEndian(if foreign0 || index < 0 then 31 else index, 5) + Made(low0, bits0, bytes0, 8)
  {
    Widths();
    hide Flat, BigEndian, Shl, Or, Or, Up, Pow2, Made, Bytes, Acc;
    ghost var word := if foreign0 || index < 0 then 31 else index;
    JoinIndex(low0, bits0, foreign0, index);
    OrAbove(word, low0, bits0);
    UpIsShl(word, bits0);
    JoinKeeps(low0, bits0, bytes0, 8, word, 5);
    val, bits, bytes, low := TakeBytes(Or(Up(index, bits0), val0), bits0 + 5, bytes0,
                                       Shl(word, bits0) + low0, foreign0 || index < 0);
  }

  /** The characters up to position i0, from right to left. */
  method DecodeRest(input: string, i0: int, val0: int, valBits0: nat, ghost low0: nat, ghost used: Stream)
    returns (bytes: seq<nat>)
    requires -1 <= i0 < |WordsIn(input)| && valBits0 < 8
    requires val0 == Acc(low0, valBits0, Foreign(input, i0 + 1)) && low0 < Pow2(valBits0)
    requires used == Flat(WordsIn(input)[..i0 + 1], 5) + Made(low0, valBits0, [], 8)
    ensures bytes == BytesFromRight(used)
  {
    hide Flat, BigEndian, Pow2, IndexOf, BytesFromRight, WordsIn, Made, Acc, Foreign;
    ghost var words := WordsIn(input);
    bytes := [];
    var val, valBits: nat, i := val0, valBits0, i0;
    ghost var low: nat := low0;
    while i >= 0
      invariant -1 <= i < |words| && Bytes(bytes)
      invariant val == Acc(low, valBits, Foreign(input, i + 1)) && low < Pow2(valBits) && valBits < 8
      invariant used == Flat(words[..i + 1], 5) + Made(low, valBits, bytes, 8)
      decreases i
    {
      var index := IndexOf(ALPHABET, input[i]);
      IndexAt(input, i);
      FlatLast(words, i, 5, Made(low, valBits, bytes, 8));
      val, valBits, bytes, low := TakeWord(val, valBits, bytes, index, low, Foreign(input, i + 1));
      i := i - 1;
    }
    assert words[..i + 1] == words[..0];
    FlatNothing(words, 5, Made(low, valBits, bytes, 8));
    DecodeFinish(used, bytes, low, valBits);
  }

  lemma {:induction false} NoneForeign(s: string, i: nat)
    requires i >= |s| - Pads(s)
    ensures !Foreign(s, i)
  {
  }

  /** The last word of a padded text, without what is unused. */
  lemma {:induction false} LastIndex(input: string)
    requires Pads(input) > 0 && WordsIn(input) != []
    ensures var words, unused := WordsIn(input), Unused(Pads(input));
            var k := |words| - 1;
            && -1 <= IndexOf(ALPHABET, input[k]) < 32
            && Down(IndexOf(ALPHABET, input[k]), unused) == Acc(Shr(words[k], unused), 5 - unused, Foreign(input, k))
  {
    hide IndexOf, Pads, WordsIn, Down, Shr, Unused, Masked, Foreign, Low, Pow2;
    Widths();
    var k := |WordsIn(input)| - 1;
    IndexAt(input, k);
    NoneForeign(input, k + 1);
    DownKeeps(WordsIn(input)[k], 5, Foreign(input, k), Unused(Pads(input)));
  }

  method Decode(input: string) returns (bytes: seq<nat>)
    ensures bytes == Decoded(input)
  {
    hide Flat, BigEndian, Shr, Pow2, IndexOf, BytesFromRight, Made, WordsIn, Used, Unused, Down, Pads, Acc, Foreign;
    ghost var words, pads := WordsIn(input), Pads(input);
    NothingYet(input);
    var i, padChars := CountPads(input);
    if padChars == 0 {
      bytes := DecodeRest(input, i, 0, 0, 0, Used(words, pads));
    } else if i < 0 {
      // There is no character at -1, and its index is -1: fewer than eight bits, and no bytes.
      return [];
    } else {
      UsedLast(words, pads, []);
      LastIndex(input);
      var val := Down(IndexOf(ALPHABET, input[i]), Unused(padChars));
      ghost var low := Shr(words[i], Unused(padChars));
      bytes := DecodeRest(input, i - 1, val, 5 - Unused(padChars), low, Used(words, pads));
    }
  }

  lemma {:induction false} NothingYet(input: string)
    ensures var words := WordsIn(input);
            && 0 == Acc(0, 0, Foreign(input, |words|)) && 0 < Pow2(0)
            && Used(words, 0) == Flat(words[..|words|], 5) + Made(0, 0, [], 8)
            && (words == [] ==> Decoded(input) == [])
  {
    hide IndexOf, Pads, WordsIn;
    var words := WordsIn(input);
    NothingMade(words);
    if words == [] {
      assert Used(words, Pads(input)) == [];
    }
  }

  lemma {:induction false} NothingMade(words: seq<nat>)
    requires Words(words)
    ensures 0 < Pow2(0) && Used(words, 0) == Flat(words[..|words|], 5) + Made(0, 0, [], 8)
  {
    assert words[..|words|] == words;
    assert BigEndian(0, 0) == [] && Flat([], 8) == [];
  }

  lemma {:induction false} FlatNothing(words: seq<nat>, n: nat, s: Stream)
    ensures Flat(words[..0], n) + s == s
  {
    assert Flat(words[..0], n) == [];
  }

  /** Nothing to the left of a character outside the alphabet has a say in the result. */
  lemma {:induction false} LeftOfForeignIsLost(s: string, t: string, i: nat)
    requires i < |s| - Pads(s) && s[i] !in ALPHABET
    requires |t| == |s| && t[i..] == s[i..]
    ensures Decoded(t) == Decoded(s)
  {
    hide Pads, IndexOf, WordsIn, Used, BytesFromRight, Foreign;
    forall j | i <= j < |s| ensures t[j] == s[j] {
      assert t[j] == t[i..][j - i] && s[j] == s[i..][j - i];
    }
    SamePads(s, t, i);
    forall j | 0 <= j < |WordsIn(s)| ensures WordsIn(t)[j] == WordsIn(s)[j] {
      SameWord(s, t, i, j);
    }
    assert WordsIn(t) == WordsIn(s);
  }

  lemma {:induction false} SameWord(s: string, t: string, i: nat, j: nat)
    requires |t| == |s| && i < |s| - Pads(s) && s[i] !in ALPHABET && forall j :: i <= j < |s| ==> t[j] == s[j]
    requires Pads(t) == Pads(s) && j < |s| - Pads(s)
    ensures WordsIn(t)[j] == WordsIn(s)[j]
  {
    hide Pads, IndexOf, WordsIn;
    assert t[i] !in ALPHABET;
    if j >= i {
      assert t[j] == s[j];
      assert Foreign(t, j) <==> Foreign(s, j);
    }
  }

  lemma {:induction false} SamePads(s: string, t: string, i: nat)
    requires |t| == |s| && i < |s| - Pads(s) && forall j :: i <= j < |s| ==> t[j] == s[j]
    ensures Pads(t) == Pads(s)
  {
    hide Pads;
    var last := |s| - Pads(s) - 1;
    assert t[last] != '=';
    assert Pads(t) <= Pads(s);
    assert Pads(t) < |t| && t[|t| - Pads(t) - 1] != '=';
  }

  // ---------------------------------------------------------------------------
  // Round trip

  lemma {:induction false} TextOf(words: seq<nat>, pads: nat)
    requires Words(words) && (pads > 0 ==> words != [])
    ensures var s := Chars(words) + Repeat('=', pads); Pads(s) == pads && WordsIn(s) == words
  {
    hide IndexOf, WordsIn;
    var s := Chars(words) + Repeat('=', pads);
    forall i | 0 <= i < |words| ensures s[i] in ALPHABET && s[i] != '=' && IndexOf(ALPHABET, s[i]) == words[i] {
      IndexIsWord(words[i]);
    }
    assert forall i :: |words| <= i < |s| ==> s[i] == '=';
    assert words != [] ==> s[|words| - 1] != '=';
  }

  /** Every buffer comes back. */
  lemma {:induction false} RoundTrip(buf: seq<nat>)
    requires Bytes(buf)
    ensures Decoded(Encoded(buf)) == buf
  {
    hide Flat, Groups, Used, BytesFromRight, WordsIn, Pads, Chars;
    UsedIsBuffer(buf);
    BytesBack(buf);
    TextOf(Groups(buf), (8 - |Groups(buf)| % 8) % 8);
  }

  lemma {:induction false} BytesBack(buf: seq<nat>)
    requires Bytes(buf)
    ensures BytesFromRight(Flat(buf, 8)) == buf
  {
    hide Flat, Cut;
    FlatLength(buf, 8);
    assert |Flat(buf, 8)| % 8 == 0;
    assert Flat(buf, 8)[0..] == Flat(buf, 8) + [];
    CutFlat(buf, [], 8);
  }

  /** The number of pad characters says how many bits of the last group are fill. */
  lemma {:induction false} UnusedIsFill(n: nat, count: nat)
    requires 5 * count == n * 8 + (5 - n * 8 % 5) % 5
    ensures Unused((8 - count % 8) % 8) == (5 - n * 8 % 5) % 5
    ensures (8 - count % 8) % 8 == 0 ==> n * 8 % 5 == 0
    ensures count == 0 <==> n == 0
  {
    var (r, k, e) := CaseOf(n);
    var q := n / 5;
    hide CaseOf;
    assert n == 5 * q + r;
    CaseFill(q, r, k, e);
    assert count == 8 * q + k;
    Mod8(q, k);
  }

  lemma {:induction false} UsedIsBuffer(buf: seq<nat>)
    requires Bytes(buf)
    ensures var words := Groups(buf); var pads := (8 - |words| % 8) % 8;
            && (pads > 0 ==> words != [])
            && Used(words, pads) == Flat(buf, 8)
  {
    hide Flat, Pow2, BigEndian, Shr, Groups, Unused;
    var words := Groups(buf);
    var fill, pads := (5 - |buf| * 8 % 5) % 5, (8 - |words| % 8) % 8;
    FilledGroups(buf, fill);
    FlatLength(words, 5);
    FlatLength(buf, 8);
    UnusedIsFill(|buf|, |words|);
    if pads > 0 {
      var k := |words| - 1;
      FlatLast(words, k, 5, []);
      BigEndianSplit(words[k], 5 - fill, fill);
      assert words[..k + 1] == words;
      var kept, dropped := BigEndian(Shr(words[k], fill), 5 - fill), BigEndian(words[k], fill);
      assert BigEndian(words[k], 5) + [] == kept + dropped;
      assert Flat(words, 5) + [] == Flat(words, 5);
      assert (Flat(words[..k], 5) + kept) + dropped == Flat(buf, 8) + Zeros(fill);
      SamePrefix(Flat(words[..k], 5) + kept, dropped, Flat(buf, 8), Zeros(fill));
    } else {
      assert Flat(buf, 8) + Zeros(0) == Flat(buf, 8);
    }
  }
}
