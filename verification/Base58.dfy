/**
 Base58: a number written in base 256 is written in base 58, with the leading zero bytes kept as
 leading ones. None is an exception.
*/
module Base58 {
  import opened Common

  const LOW_ALPHABET: string := "123456789ABCDEFGHJKLMNPQRSTUV"
  const HIGH_ALPHABET: string := "WXYZabcdefghijkmnopqrstuvwxyz"

  /** The alphabet "123456789ABCDEFGHJKLMNPQRSTUVWXYZabcdefghijkmnopqrstuvwxyz". */
  const ALPHABET: string := LOW_ALPHABET + HIGH_ALPHABET

  // ---------------------------------------------------------------------------
  // Numerals

  type Digit = d: nat | d < 58

  /** The value of bytes, most significant first. */
  function Value256(s: seq<Byte>): nat {
    if s == [] then 0 else 256 * Value256(s[..|s| - 1]) + s[|s| - 1] as nat
  }

  /** The shortest bytes of a value. */
  function Bytes(n: nat): (s: seq<Byte>)
    ensures s != [] ==> s[0] != 0
    ensures s == [] <==> n == 0
  {
    if n == 0 then [] else
    var rest := Bytes(n / 256);
    rest + [(n % 256) as Byte]
  }

  function Value58(s: seq<Digit>): nat {
    if s == [] then 0 else 58 * Value58(s[..|s| - 1]) + s[|s| - 1]
  }

  function Digits(n: nat): (s: seq<Digit>)
    ensures s != [] ==> s[0] != 0
    ensures s == [] <==> n == 0
  {
    if n == 0 then [] else Digits(n / 58) + [n % 58]
  }

  lemma {:induction false} ValueOfBytes(n: nat)
    ensures Value256(Bytes(n)) == n
  {
    if n > 0 {
      ValueOfBytes(n / 256);
      assert Bytes(n)[..|Bytes(n)| - 1] == Bytes(n / 256);
    }
  }

  lemma {:induction false} BytesOfValue(s: seq<Byte>)
    requires s != [] ==> s[0] != 0
    ensures Bytes(Value256(s)) == s
  {
    if s != [] {
      var pre := s[..|s| - 1];
      BytesOfValue(pre);
      assert Value256(s) / 256 == Value256(pre) && Value256(s) % 256 == s[|s| - 1] as nat;
      assert s == pre + [s[|s| - 1]];
      if Value256(s) == 0 {
        assert false;
      }
    }
  }

  lemma {:induction false} ValueOfDigits(n: nat)
    ensures Value58(Digits(n)) == n
  {
    if n > 0 {
      ValueOfDigits(n / 58);
      assert Digits(n)[..|Digits(n)| - 1] == Digits(n / 58);
    }
  }

  lemma {:induction false} DigitsOfValue(s: seq<Digit>)
    requires s != [] ==> s[0] != 0
    ensures Digits(Value58(s)) == s
  {
    if s != [] {
      var pre := s[..|s| - 1];
      DigitsOfValue(pre);
      assert Value58(s) / 58 == Value58(pre) && Value58(s) % 58 == s[|s| - 1];
      assert s == pre + [s[|s| - 1]];
      if Value58(s) == 0 {
        assert false;
      }
    }
  }

  // ---------------------------------------------------------------------------
  // The codec as functions

  function Leading<T(==)>(s: seq<T>, x: T): (n: nat)
    ensures n <= |s| && (forall i :: 0 <= i < n ==> s[i] == x) && (n < |s| ==> s[n] != x)
  {
    if s == [] || s[0] != x then 0 else 1 + Leading(s[1..], x)
  }

  function Chars(digits: seq<Digit>): (s: string)
    ensures |s| == |digits| && forall i :: 0 <= i < |s| ==> s[i] == ALPHABET[digits[i]]
  {
    seq(|digits|, i requires 0 <= i < |digits| => ALPHABET[digits[i]])
  }

  /** An empty buffer has no hexadecimal digits to make a number of. */
  function Encoded(buf: seq<Byte>): Option<string> {
    if buf == [] then None
    else Some(Repeat('1', Leading(buf, 0)) + Chars(Digits(Value256(buf))))
  }

  /** What the decoder makes of its characters, one not in the alphabet counting as -1. */
  function Weighed(s: string): int {
    if s == [] then 0 else 58 * Weighed(s[..|s| - 1]) + IndexOf(ALPHABET, s[|s| - 1])
  }

  /** A number as bytes: one byte for zero, and none for what is not a number in hexadecimal. */
  function BigToBuf(n: int): seq<Byte> {
    if n < 0 then [] else if n == 0 then [0] else Bytes(n)
  }

  function Decoded(s: string): seq<Byte> {
    Repeat(0, Leading(s, '1')) + BigToBuf(Weighed(s))
  }

  // ---------------------------------------------------------------------------
  // The loops

  lemma LastDigit(n: nat, digits: seq<Digit>)
    requires n > 0
    ensures Digits(n) + digits == Digits(n / 58) + ([n % 58] + digits)
  {
  }

  lemma NoDigits(digits: seq<Digit>)
    ensures Digits(0) + digits == digits
  {
  }

  method Encode(buf: seq<Byte>) returns (r: Option<string>)
    ensures r == Encoded(buf)
  {
    hide Value256, Bytes, Digits;
    var prefix := "";
    var i := 0;
    while i < |buf|
      invariant 0 <= i <= |buf| && prefix == Repeat('1', i)
      invariant Leading(buf, 0) == i + Leading(buf[i..], 0)
    {
      if buf[i] != 0 { break; }
      assert buf[i..][1..] == buf[i + 1..];
      prefix := prefix + "1";
      i := i + 1;
    }
    if buf == [] { return None; }
    var num := Value256(buf);
    var result: seq<Digit> := [];
    while num > 0
      invariant Digits(Value256(buf)) == Digits(num) + result
    {
      var mod: Digit := num % 58;
      LastDigit(num, result);
      result := [mod] + result;
      num := num / 58;
    }
    NoDigits(result);
    return Some(prefix + Chars(result));
  }

  method Decode(input: string) returns (r: seq<Byte>)
    ensures r == Decoded(input)
  {
    hide IndexOf, Bytes;
    var prefix := 0;
    while prefix < |input|
      invariant 0 <= prefix <= |input|
      invariant Leading(input, '1') == prefix + Leading(input[prefix..], '1')
    {
      if input[prefix] != '1' { break; }
      assert input[prefix..][1..] == input[prefix + 1..];
      prefix := prefix + 1;
    }
    assert prefix == Leading(input, '1');
    hide Leading;
    var num := 0;
    for i := 0 to |input|
      invariant num == Weighed(input[..i])
    {
      assert input[..i + 1][..i] == input[..i];
      num := num * 58;
      num := num + IndexOf(ALPHABET, input[i]);
    }
    assert input[..|input|] == input;
    r := Repeat(0, prefix) + BigToBuf(num);
  }

  // ---------------------------------------------------------------------------
  // Round trips

  /** The value each character stands for. */
  function DigitOf(c: char): int {
    var n := c as int;
    if '1' <= c <= '9' then n - 49
    else if 'A' <= c <= 'H' then n - 65 + 9
    else if 'J' <= c <= 'N' then n - 74 + 17
    else if 'P' <= c <= 'Z' then n - 80 + 22
    else if 'a' <= c <= 'k' then n - 97 + 33
    else if 'm' <= c <= 'z' then n - 109 + 44
    else -1
  }

  lemma {:induction false} LowDigit(d: nat)
    requires d < 29
    ensures |LOW_ALPHABET| == 29 && DigitOf(LOW_ALPHABET[d]) == d
  {
  }

  lemma {:induction false} HighDigit(d: nat)
    requires d < 29
    ensures |HIGH_ALPHABET| == 29 && DigitOf(HIGH_ALPHABET[d]) == 29 + d
  {
  }

  lemma {:induction false} AlphabetDigit(d: Digit)
    ensures |ALPHABET| == 58 && DigitOf(ALPHABET[d]) == d
  {
    LowDigit(0);
    HighDigit(0);
    if d < 29 {
      LowDigit(d);
    } else {
      HighDigit(d - 29);
    }
  }

  lemma {:induction false} AlphabetIndex(d: Digit)
    ensures IndexOf(ALPHABET, ALPHABET[d]) == d && (ALPHABET[d] == '1' <==> d == 0)
  {
    hide IndexOf;
    AlphabetDigit(d);
    AlphabetDigit(0);
    AlphabetDigit(IndexOf(ALPHABET, ALPHABET[d]));
  }

  predicate Legal(s: string) {
    forall i :: 0 <= i < |s| ==> s[i] in ALPHABET
  }

  function DigitsOf(s: string): (r: seq<Digit>)
    requires Legal(s)
    ensures |r| == |s| && forall i :: 0 <= i < |r| ==> ALPHABET[r[i]] == s[i]
  {
    AlphabetDigit(0);
    seq(|s|, i requires 0 <= i < |s| => IndexOf(ALPHABET, s[i]))
  }

  lemma {:induction false} WeighedMore(s: string, d: Digit)
    ensures Weighed(s + [ALPHABET[d]]) == 58 * Weighed(s) + d
  {
    AlphabetIndex(d);
    assert (s + [ALPHABET[d]])[..|s|] == s;
    hide IndexOf;
  }

  lemma {:induction false} WeighedOnes(n: nat)
    ensures Weighed(Repeat('1', n)) == 0
  {
    if n > 0 {
      WeighedOnes(n - 1);
      WeighedMore(Repeat('1', n - 1), 0);
      AlphabetIndex(0);
      assert Repeat('1', n) == Repeat('1', n - 1) + [ALPHABET[0]];
    }
  }

  /** Leading ones weigh nothing. */
  lemma {:induction false} WeighedDigits(n: nat, digits: seq<Digit>)
    ensures Weighed(Repeat('1', n) + Chars(digits)) == Value58(digits)
    decreases |digits|
  {
    hide Weighed;
    if digits == [] {
      WeighedOnes(n);
      assert Repeat('1', n) + Chars(digits) == Repeat('1', n);
    } else {
      var pre, d := digits[..|digits| - 1], digits[|digits| - 1];
      assert Repeat('1', n) + Chars(digits) == Repeat('1', n) + Chars(pre) + [ALPHABET[d]];
      WeighedDigits(n, pre);
      WeighedMore(Repeat('1', n) + Chars(pre), d);
    }
  }

  lemma {:induction false} ValueAfterZeros(s: seq<Byte>, n: nat)
    requires n <= |s| && forall i :: 0 <= i < n ==> s[i] == 0
    ensures Value256(s) == Value256(s[n..])
    decreases |s|
  {
    if n < |s| {
      var pre := s[..|s| - 1];
      assert pre[n..] == s[n..][..|s| - n - 1];
      ValueAfterZeros(pre, n);
    } else if n > 0 {
      assert s[..|s| - 1][n - 1..] == [];
      ValueAfterZeros(s[..|s| - 1], n - 1);
    }
  }

  lemma {:induction false} LeadingOf<T>(x: T, n: nat, rest: seq<T>)
    requires rest != [] ==> rest[0] != x
    ensures Leading(Repeat(x, n) + rest, x) == n
  {
    var s := Repeat(x, n) + rest;
    assert forall i :: 0 <= i < n ==> s[i] == x;
    if rest != [] { assert s[n] == rest[0]; }
  }

  /**
   Only an empty buffer is refused. Any other comes back, leading zeros and all, if and only if it has a
   byte that is not zero.
  */
  lemma {:induction false} RoundTripIff(buf: seq<Byte>)
    ensures Encoded(buf).Some? <==> buf != []
    ensures (Encoded(buf).Some? && Decoded(Encoded(buf).value) == buf) <==> exists i :: 0 <= i < |buf| && buf[i] != 0
  {
    hide IndexOf, Weighed, Value256, Value58, Digits, Bytes;
    if buf == [] { return; }
    var n := Leading(buf, 0);
    var digits := Digits(Value256(buf));
    var s := Encoded(buf).value;
    WeighedDigits(n, digits);
    ValueOfDigits(Value256(buf));
    if digits != [] { AlphabetIndex(digits[0]); }
    LeadingOf('1', n, Chars(digits));
    ValueAfterZeros(buf, n);
    BytesOfValue(buf[n..]);
    assert buf == Repeat(0, n) + buf[n..];
    if n == |buf| {
      assert Bytes(0) == [];
      assert |Decoded(s)| == |buf| + 1;
    }
  }

  lemma {:induction false} OnesDecoded(n: nat)
    ensures Decoded(Repeat('1', n)) == Repeat(0, n + 1)
  {
    hide Weighed;
    WeighedOnes(n);
    LeadingOf('1', n, []);
    assert Repeat('1', n) + [] == Repeat('1', n);
  }

  lemma {:induction false} ZerosEncoded(n: nat)
    requires n > 0
    ensures Encoded(Repeat(0, n)) == Some(Repeat('1', n))
  {
    hide Value256;
    var buf: seq<Byte> := Repeat(0, n);
    ValueAfterZeros(buf, n);
    assert Value256([]) == 0 by { BytesOfValue([]); ValueOfBytes(0); }
    LeadingOf(0, n, []);
    assert buf + [] == buf;
    assert Digits(0) == [];
    assert buf[n..] == [];
    assert Repeat('1', n) + Chars([]) == Repeat('1', n);
  }

  lemma {:induction false} LegalDecoded(n: nat, digits: seq<Digit>)
    requires digits != [] && digits[0] != 0
    ensures Decoded(Repeat('1', n) + Chars(digits)) == Repeat(0, n) + Bytes(Value58(digits))
    ensures Value58(digits) > 0
  {
    hide Weighed, Value58, Bytes, Digits, IndexOf;
    WeighedDigits(n, digits);
    DigitsOfValue(digits);
    AlphabetIndex(digits[0]);
    LeadingOf('1', n, Chars(digits));
  }

  lemma {:induction false} BytesEncoded(n: nat, value: nat)
    requires value > 0
    ensures Encoded(Repeat(0, n) + Bytes(value)) == Some(Repeat('1', n) + Chars(Digits(value)))
  {
    hide Value256, Digits, Bytes;
    var buf := Repeat(0, n) + Bytes(value);
    ValueOfBytes(value);
    ValueAfterZeros(buf, n);
    assert buf[n..] == Bytes(value);
    LeadingOf(0, n, Bytes(value));
  }

  /** A string over the alphabet comes back if and only if some character is not a one. */
  lemma {:induction false} TextRoundTripIff(s: string)
    requires Legal(s)
    ensures Encoded(Decoded(s)).Some?
    ensures Encoded(Decoded(s)) == Some(s) <==> exists i :: 0 <= i < |s| && s[i] != '1'
  {
    hide IndexOf, Encoded, Decoded;
    var n := Leading(s, '1');
    if n == |s| {
      assert s == Repeat('1', n);
      OnesDecoded(n);
      ZerosEncoded(n + 1);
    } else {
      var digits := DigitsOf(s)[n..];
      assert s == Repeat('1', n) + Chars(digits);
      AlphabetIndex(digits[0]);
      LegalDecoded(n, digits);
      DigitsOfValue(digits);
      BytesEncoded(n, Value58(digits));
      assert s[n] != '1';
    }
  }
}
