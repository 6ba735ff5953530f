/**
 The cursor an invoice is written to and read from, five bits a word. Numbers go through JavaScript's
 shifts, which work on signed 32-bit integers.
*/
module WordCursor {
  import opened Common
  import opened Bits
  import opened WordConversion
  import Bech32

  /** What a shift makes of a number: its low 32 bits, signed. */
  function ToInt32(x: int): (r: int)
    ensures -0x8000_0000 <= r < 0x8000_0000
    ensures 0 <= x < 0x8000_0000 ==> r == x
  {
    (x + 0x8000_0000) % 0x1_0000_0000 - 0x8000_0000
  }

  /** `val & 31` and `val >>= 5`, from the last word to the first. */
  function Written(val: int, n: nat): (words: seq<nat>)
    ensures |words| == n && Bech32.Symbols(words)
    decreases n, val
  {
    if n == 0 then [] else Written(ToInt32(val) / 32, n - 1) + [val % 32]
  }

  /** `val <<= 5` and `val |= word`, from the first word to the last. */
  function ReadOf(words: seq<nat>): (val: int)
    decreases |words|
  {
    if words == [] then 0
    else ToInt32(32 * ReadOf(words[..|words| - 1])) + words[|words| - 1]
  }

  /** `words.slice(start, end)`: a negative end counts from the back, an end before the start gives nothing. */
  function Slice(words: seq<nat>, start: nat, end: int): (r: seq<nat>)
    ensures Bech32.Symbols(words) ==> Bech32.Symbols(r)
  {
    var e := if end < 0 then |words| + end else if end < |words| then end else |words|;
    if start <= e then words[start..e] else []
  }

  lemma WrittenStep(val: int, n: nat, rest: seq<nat>)
    requires n > 0
    ensures Written(val, n) + rest == Written(ToInt32(val) / 32, n - 1) + ([val % 32] + rest)
  {
  }

  /** The loop of `writeUIntBE`. */
  method WordsOf(val: int, wordLen: nat) returns (words: seq<nat>)
    ensures words == Written(val, wordLen)
  {
    hide Written, ToInt32;
    words := [];
    var v := val;
    var i := wordLen;
    while i > 0
      invariant 0 <= i <= wordLen
      invariant Written(val, wordLen) == Written(v, i) + words
    {
      WrittenStep(v, i, words);
      words := [v % 32] + words;
      v := ToInt32(v) / 32;
      i := i - 1;
    }
  }

  // ---------------------------------------------------------------------------
  // The class

  class WordCursor {
    var words: seq<nat>
    var position: int

    constructor (words: seq<nat>)
      ensures this.words == words && position == 0
    {
      this.words, position := words, 0;
    }

    function WordsRemaining(): int
      reads this
    {
      |words| - position
    }

    /** No words to write to is an exception. */
    method WriteUIntBE(val: int, wordLen: nat) returns (ok: bool)
      modifies this`words
      ensures ok <==> wordLen > 0
      ensures words == if ok then old(words) + Written(val, wordLen) else old(words)
    {
      if wordLen == 0 { return false; }
      var written := WordsOf(val, wordLen);
      words := words + written;
      return true;
    }

    method WriteBytes(buf: seq<nat>)
      requires Fits(buf, 8)
      modifies this`words
      ensures words == old(words) + BufferToWords(buf, true).value
    {
      var r := ConvertWords(buf, 8, 5, true);
      words := words + r.value;
    }

    method ReadUIntBE(numWords: nat) returns (val: int)
      requires position >= 0
      modifies this`position
      ensures position == old(position) + numWords
      ensures val == ReadOf(Slice(words, old(position), old(position) + numWords))
    {
      var taken := Slice(words, position, position + numWords);
      val := 0;
      for i := 0 to |taken|
        invariant val == ReadOf(taken[..i])
      {
        assert taken[..i + 1][..i] == taken[..i];
        val := ToInt32(32 * val);
        val := val + taken[i];
      }
      assert taken[..|taken|] == taken;
      position := position + numWords;
    }

    /** None is an exception of the conversion; the position has moved all the same. */
    method ReadBytes(numWords: int, pad: bool) returns (buf: Option<seq<nat>>)
      requires position >= 0 && Bech32.Symbols(words)
      modifies this`position
      ensures position == old(position) + numWords
      ensures buf == WordsToBuffer(Slice(words, old(position), old(position) + numWords), pad)
    {
      var taken := Slice(words, position, position + numWords);
      Width();
      position := position + numWords;
      buf := ConvertWords(taken, 5, 8, pad);
    }
  }

  lemma Width()
    ensures Pow2(5) == 32 && Pow2(8) == 256
  {
    assert Pow2(4) == 16;
  }

  // ---------------------------------------------------------------------------
  // Numbers come back

  function Pow32(n: nat): (p: nat)
    ensures p > 0
  {
    if n == 0 then 1 else 32 * Pow32(n - 1)
  }

  /** The number the words stand for. */
  function Number(words: seq<nat>): (r: nat)
    requires Bech32.Symbols(words)
    ensures r < Pow32(|words|)
    decreases |words|
  {
    if words == [] then 0 else 32 * Number(words[..|words| - 1]) + words[|words| - 1]
  }

  lemma {:induction false} Int32Step(x: int, w: nat)
    requires w < 32
    ensures ToInt32(32 * ToInt32(x)) + w == ToInt32(32 * x + w)
  {
    var q, y := (x + 0x8000_0000) / 0x1_0000_0000, ToInt32(x);
    assert x == q * 0x1_0000_0000 + y;
    Int32Shift(32 * y, 32 * q);
    Int32Low(y, w);
    Int32Shift(32 * y + w, 32 * q);
  }

  lemma {:induction false} Int32Shift(x: int, q: int)
    ensures ToInt32(x + q * 0x1_0000_0000) == ToInt32(x)
  {
  }

  lemma RemainderIs(x: int, q: int, r: int)
    requires x == q * 0x1_0000_0000 + r && 0 <= r < 0x1_0000_0000
    ensures x % 0x1_0000_0000 == r
  {
  }

  /** The low five bits are free after a shift. */
  lemma {:induction false} Int32Low(y: int, w: nat)
    requires w < 32
    ensures ToInt32(32 * y) + w == ToInt32(32 * y + w)
  {
    var q, r := (32 * y + 0x8000_0000) / 0x1_0000_0000, (32 * y + 0x8000_0000) % 0x1_0000_0000;
    assert r == 32 * (y + 0x400_0000 - q * 0x800_0000);
    assert r + w < 0x1_0000_0000;
    RemainderIs(32 * y + w + 0x8000_0000, q, r + w);
  }

  /** Reading is the number, wrapped to 32 bits. */
  lemma {:induction false} ReadIsNumber(words: seq<nat>)
    requires Bech32.Symbols(words)
    ensures ReadOf(words) == ToInt32(Number(words))
    decreases |words|
  {
    if words != [] {
      var pre := words[..|words| - 1];
      ReadIsNumber(pre);
      Int32Step(Number(pre), words[|words| - 1]);
    }
  }

  lemma {:induction false} WrittenIsNumber(val: nat, n: nat)
    requires val < 0x8000_0000 && val < Pow32(n)
    ensures Number(Written(val, n)) == val
    decreases n
  {
    if n > 0 {
      WrittenIsNumber(val / 32, n - 1);
      assert Written(val, n)[..n - 1] == Written(val / 32, n - 1);
    }
  }

  lemma {:induction false} Pow32Grows(n: nat)
    ensures n <= 6 ==> Pow32(n) < 0x8000_0000
    ensures n >= 7 ==> Pow32(n) > 0x8000_0000
    decreases n
  {
    if n >= 8 {
      Pow32Grows(n - 1);
    } else {
      assert Pow32(2) == 1024 && Pow32(4) == 0x10_0000 && Pow32(6) == 0x4000_0000;
    }
  }

  /** A number comes back from n words if and only if it fits them and a signed 32-bit integer. */
  lemma {:induction false} NumberRoundTripIff(val: nat, n: nat)
    ensures ReadOf(Written(val, n)) == val <==> val < 0x8000_0000 && val < Pow32(n)
  {
    var words := Written(val, n);
    ReadIsNumber(words);
    Pow32Grows(n);
    if val < 0x8000_0000 && val < Pow32(n) {
      WrittenIsNumber(val, n);
    }
  }

  // ---------------------------------------------------------------------------
  // Sizes

  /** `floor(log2(num) / 5) + 1` in whole numbers: how many words a number takes. */
  function SizeOfNumber(num: nat): (n: nat)
    ensures n > 0 && num < Pow32(n)
    ensures num > 0 ==> num >= Pow32(n - 1)
    ensures num < 0x8000_0000 ==> n <= 7
    decreases num
  {
    if num < 32 then 1
    else
      var n := SizeOfNumber(num / 32);
      Pow32Grows(n);
      n + 1
  }

  /** `ceil(bytes * 8 / 5)`. */
  function SizeOfBytes(bytes: nat): nat {
    (bytes * 8 + 4) / 5
  }

  /** The words bytes are written as are as many as that. */
  lemma {:induction false} BytesTakeSize(buf: seq<nat>)
    requires Fits(buf, 8)
    ensures var words := BufferToWords(buf, true).value; |words| == SizeOfBytes(|buf|) && Bech32.Symbols(words)
    ensures WordsToBuffer(BufferToWords(buf, true).value, false) == Some(buf)
  {
    hide BufferToWords, WordsToBuffer, Flat;
    Width();
    BufferRoundTrip(buf);
    var words, p := PaddedWords(buf);
    FlatLength(words, 5);
    FlatLength(buf, 8);
    assert 5 * |words| == 8 * |buf| + p;
  }
}
