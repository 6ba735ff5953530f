/**
 What an invoice says, word by word as BOLT #11 lists it, what its signature covers, and that nothing is
 decoded without one.
*/
module InvoiceText {
  import opened Common
  import opened WordConversion
  import opened InvoiceAmount
  import opened InvoiceFields
  import opened Invoice
  import Bech32
  import W = WordCursor

  // ---------------------------------------------------------------------------
  // Numbers and fields

  /** A number under 2^31 in words, the highest first. */
  predicate Numeral(words: seq<nat>, value: int) {
    Bech32.Symbols(words) && 0 <= value < 0x8000_0000 && W.Number(words) == value
  }

  lemma {:induction false} NumeralIs(words: seq<nat>, value: nat)
    requires Numeral(words, value)
    ensures words == W.Written(value, |words|)
    decreases |words|
  {
    if words != [] {
      var n := |words| - 1;
      NumeralIs(words[..n], value / 32);
      assert W.ToInt32(value) == value;
    }
  }

  /** The type of a field: r is 3, x is 6, f is 9 and c is 24; the others are those of plain bytes. */
  function TypeOf(f: Field): nat {
    match f
    case Data(kind, _) => kind
    case Routes(_) => 3
    case Number(kind, _) => kind
    case Fallback(_, _) => 9
  }

  /** A hop in 51 bytes: key, channel, base fee, rate and expiry delta, numbers with the highest byte first. */
  predicate IsHopBytes(b: seq<nat>, h: Hop) {
    && |b| == 51 && b[..33] == h.pubkey && b[33..41] == h.shortChannelId
    && ((b[41] * 256 + b[42]) * 256 + b[43]) * 256 + b[44] == h.feeBase
    && ((b[45] * 256 + b[46]) * 256 + b[47]) * 256 + b[48] == h.feeRate
    && b[49] * 256 + b[50] == h.delta
    && forall i :: 41 <= i < 51 ==> b[i] < 256
  }

  predicate AreHopBytes(b: seq<nat>, hops: seq<Hop>) {
    |b| == 51 * |hops| && forall i :: 0 <= i < |hops| ==> IsHopBytes(b[51 * i..51 * i + 51], hops[i])
  }

  lemma {:induction false} FourBytes(a: nat, b: nat, c: nat, d: nat, n: nat)
    requires a < 256 && b < 256 && c < 256 && d < 256 && n == ((a * 256 + b) * 256 + c) * 256 + d
    ensures n < 0x1_0000_0000 && [a, b, c, d] == BigEndian4(n)
  {
    var m, l := (a * 256 + b) * 256 + c, a * 256 + b;
    Quotient(n, 256, m, d);
    Quotient(m, 256, l, c);
    Quotient(l, 256, a, b);
    Quotient(n, 0x1_0000, l, 256 * c + d);
    Quotient(n, 0x100_0000, a, 0x1_0000 * b + 256 * c + d);
  }

  lemma {:induction false} Quotient(n: nat, unit: nat, q: nat, r: nat)
    requires unit in [256, 0x1_0000, 0x100_0000] && n == unit * q + r && r < unit
    ensures n / unit == q && n % unit == r
  {
    if unit == 256 {
      assert n == 256 * q + r;
    } else if unit == 0x1_0000 {
      assert n == 0x1_0000 * q + r;
    } else {
      assert n == 0x100_0000 * q + r;
    }
  }

  lemma {:induction false} HopBytesAre(b: seq<nat>, h: Hop)
    requires IsHop(h) && IsHopBytes(b, h)
    ensures b == HopBytes(h)
  {
    FourBytes(b[41], b[42], b[43], b[44], h.feeBase);
    FourBytes(b[45], b[46], b[47], b[48], h.feeRate);
    assert BigEndian2(h.delta) == [b[49], b[50]];
    hide BigEndian2, BigEndian4, Fits;
    assert b == b[..33] + b[33..41] + [b[41], b[42], b[43], b[44]] + [b[45], b[46], b[47], b[48]] + [b[49], b[50]];
  }

  lemma {:induction false} Shifted<T>(s: seq<T>, k: nat, lo: nat, hi: nat)
    requires lo <= hi && k + hi <= |s|
    ensures s[k..][lo..hi] == s[k + lo..k + hi]
  {
  }

  lemma {:induction false} RouteBytesAre(b: seq<nat>, hops: seq<Hop>)
    requires AreHopBytes(b, hops) && forall i :: 0 <= i < |hops| ==> IsHop(hops[i])
    ensures b == RouteBytes(hops)
    decreases |hops|
  {
    hide IsHopBytes, IsHop, HopBytes;
    if hops != [] {
      assert b[51 * 0..51 * 0 + 51] == b[..51];
      HopBytesAre(b[..51], hops[0]);
      forall i | 0 <= i < |hops| - 1 ensures IsHopBytes(b[51..][51 * i..51 * i + 51], hops[1..][i]) {
        Shifted(b, 51, 51 * i, 51 * i + 51);
        assert 51 + 51 * i == 51 * (i + 1);
        assert IsHopBytes(b[51 * (i + 1)..51 * (i + 1) + 51], hops[i + 1]);
      }
      RouteBytesAre(b[51..], hops[1..]);
      assert b == b[..51] + b[51..];
    }
  }

  /** The words behind the header: bytes, routes as bytes, a number without leading zeros, or a version and bytes. */
  predicate IsPayload(words: seq<nat>, f: Field, routes: seq<nat>)
    requires WellTyped(f)
  {
    match f
    case Data(_, bytes) => words == BufferToWords(bytes, true).value
    case Routes(hops) => AreHopBytes(routes, hops) && words == BufferToWords(routes, true).value
    case Number(_, value) => words != [] && Numeral(words, value) && (|words| > 1 ==> words[0] > 0)
    case Fallback(version, address) =>
      words != [] && words[0] == version && words[1..] == BufferToWords(address, true).value
  }

  lemma {:induction false} SizeIs(words: seq<nat>, value: nat)
    requires words != [] && Numeral(words, value) && (|words| > 1 ==> words[0] > 0)
    ensures |words| == W.SizeOfNumber(value)
    decreases |words|
  {
    if |words| == 1 {
      assert words[..0] == [];
    } else {
      var n := |words| - 1;
      assert words[..n][0] == words[0];
      SizeIs(words[..n], value / 32);
      LeadingWord(words[..n]);
    }
  }

  lemma {:induction false} LeadingWord(words: seq<nat>)
    requires words != [] && Bech32.Symbols(words) && words[0] > 0
    ensures W.Number(words) > 0
    decreases |words|
  {
    if |words| > 1 {
      LeadingWord(words[..|words| - 1]);
    } else {
      assert words[..0] == [];
    }
  }

  lemma {:induction false} PayloadIs(words: seq<nat>, f: Field, routes: seq<nat>)
    requires Writable(f) && IsPayload(words, f, routes)
    ensures words == Payload(f)
  {
    hide Fits, IsHop, BufferToWords, AreHopBytes, W.Written, W.SizeOfNumber, W.Number;
    match f
    case Data(_, _) =>
    case Routes(hops) => RouteBytesAre(routes, hops);
    case Number(_, value) =>
      SizeIs(words, value);
      NumeralIs(words, value);
    case Fallback(version, _) =>
      OneWord(version);
      assert words == [words[0]] + words[1..];
  }

  lemma {:induction false} OneWord(v: nat)
    requires v < 32
    ensures W.Written(v, 1) == [v]
  {
    assert W.Written(W.ToInt32(v) / 32, 0) == [];
  }

  lemma {:induction false} TwoWords(n: nat)
    requires n < 1024
    ensures W.Written(n, 2) == [n / 32, n % 32]
  {
    assert W.ToInt32(n) == n;
    OneWord(n / 32);
  }

  /** A field is its type, its length in two words and as many words. */
  lemma {:induction false} FieldIs(f: Field, words: seq<nat>, routes: seq<nat>)
    requires Writable(f) && IsPayload(words, f, routes)
    ensures |words| < 1024 && Encoded(f) == [TypeOf(f)] + [|words| / 32, |words| % 32] + words
  {
    PayloadIs(words, f, routes);
    PayloadLength(f);
    hide IsPayload, WellTyped, LengthOf, Payload, W.Written;
    OneWord(KindOf(f));
    TwoWords(|words|);
  }

  /**
   The fields that are read under their name: p (1) and h (23) of 32 bytes, n (19) of 33, d (13), routes,
   expiries, and addresses of version 0, 17 or 18. Any other is kept apart.
  */
  lemma {:induction false} StandardIff(f: Field)
    requires WellTyped(f)
    ensures Standard(f, LengthOf(f)) <==>
            match f
            case Data(kind, bytes) => (kind in {1, 23} && |bytes| == 32) || (kind == 19 && |bytes| == 33) || kind == 13
            case Routes(_) => true
            case Number(_, _) => true
            case Fallback(version, _) => version in {0, 17, 18}
    ensures f.Number? ==> f.kind in {6, 24}
  {
    hide Fits, IsHop, W.SizeOfNumber;
  }

  // ---------------------------------------------------------------------------
  // The amount

  /** The pico bitcoin of a unit: whole bitcoin, or thousandths of the one before. */
  function Unit(letter: string): nat {
    if letter == "" then 1_000_000_000_000
    else if letter == "m" then 1_000_000_000
    else if letter == "u" then 1_000_000
    else if letter == "n" then 1_000
    else 1
  }

  lemma {:induction false} ThousandTimes(q: nat)
    requires q > 0
    ensures Tens(1_000 * q) == 3 + Tens(q)
  {
    assert Tens(10 * q) == 1 + Tens(q) by { assert 10 * q / 10 == q; }
    assert Tens(100 * q) == 2 + Tens(q) by { assert 100 * q / 10 == 10 * q; }
    assert 1_000 * q / 10 == 100 * q;
  }

  lemma {:induction false} Factor(n: nat, unit: nat)
    requires unit in [1_000, 1_000_000, 1_000_000_000] && n > 0 && n % (1_000 * unit) == 0
    ensures n == 1_000 * (n / 1_000) && n / 1_000 > 0 && n / 1_000 % unit == 0
  {
    var q := n / (1_000 * unit);
    assert n == 1_000 * (unit * q);
    assert n / 1_000 == unit * q;
  }

  lemma {:induction false} Three(n: nat)
    requires n > 0 && n % 1_000 == 0
    ensures Tens(n) >= 3
  {
    hide Tens;
    ThousandTimes(n / 1_000);
    assert n == 1_000 * (n / 1_000);
  }

  lemma {:induction false} Six(n: nat)
    requires n > 0 && n % 1_000_000 == 0
    ensures Tens(n) >= 6
  {
    hide Tens;
    Factor(n, 1_000);
    ThousandTimes(n / 1_000);
    Three(n / 1_000);
  }

  lemma {:induction false} Nine(n: nat)
    requires n > 0 && n % 1_000_000_000 == 0
    ensures Tens(n) >= 9
  {
    hide Tens;
    Factor(n, 1_000_000);
    ThousandTimes(n / 1_000);
    Six(n / 1_000);
  }

  lemma {:induction false} Twelve(n: nat)
    requires n > 0 && n % 1_000_000_000_000 == 0
    ensures Tens(n) >= 12
  {
    hide Tens;
    Factor(n, 1_000_000_000);
    ThousandTimes(n / 1_000);
    Nine(n / 1_000);
  }

  /** An amount that a larger unit divides ends in more zeros. */
  lemma {:induction false} SmallerUnits(n: nat)
    requires n > 0 && MinimumMultiplier(Tens(n)) != ""
    ensures n % (1_000 * Unit(MinimumMultiplier(Tens(n)))) != 0
  {
    hide Tens;
    if n % 1_000 == 0 { Three(n); }
    if n % 1_000_000 == 0 { Six(n); }
    if n % 1_000_000_000 == 0 { Nine(n); }
    if n % 1_000_000_000_000 == 0 { Twelve(n); }
  }

  lemma {:induction false} UnitIs(zeros: nat)
    ensures var letter := MinimumMultiplier(zeros);
            letter in ["", "m", "u", "n", "p"] && HrpToPico(letter) == Some(Unit(letter))
  {
  }

  /** An amount is a numeral and a unit that come to it, and no larger unit would do. */
  lemma {:induction false} AmountIs(pico: nat) returns (digits: string, letter: string)
    requires pico > 0
    ensures Digits(digits) && letter in ["", "m", "u", "n", "p"]
    ensures AmountOf(Some(pico)) == digits + letter
    ensures DecimalValue(digits) * Unit(letter) == pico
    ensures letter != "" ==> pico % (1_000 * Unit(letter)) != 0
  {
    var zeros := Tens(pico);
    if MinimumMultiplier(zeros) != "" { SmallerUnits(pico); }
    ZerosAreTens(pico);
    AmountIsWhole(pico);
    UnitOf(zeros);
    letter := MinimumMultiplier(zeros);
    var unit := HrpToPico(letter).value;
    digits := Decimal(pico / unit);
    ValueOfDecimal(pico / unit);
    UnitIs(zeros);
    hide Decimal, DecimalValue, Tens, TrailingZeros, MinimumMultiplier, HrpToPico, Unit;
  }

  /** The networks of the decoder. */
  predicate Known(network: string) {
    network in ["bc", "tb", "bcrt", "sb", "tbs"]
  }

  /** The multiplier that letters behind an amount stand for: only the last of them counts. */
  function LastLetter(tail: string): string {
    if tail == "" then "" else [tail[|tail| - 1]]
  }

  /** A prefix is ln, a network and either nothing or a numeral and letters, of which the last is a multiplier. */
  ghost predicate IsPrefix(prefix: string, network: string, pico: Option<nat>, digits: string, tail: string) {
    && prefix == "ln" + network + digits + tail
    && Known(network) && Digits(digits) && (forall i :: 0 <= i < |tail| ==> Letter(tail[i]))
    && if digits == "" then tail == "" && pico == None
       else
         && LastLetter(tail) in ["", "m", "u", "n", "p"]
         && pico == Some(DecimalValue(digits) * Unit(LastLetter(tail))) && pico != Some(0)
  }

  lemma {:induction false} PicoIs(letter: string)
    ensures HrpToPico(letter).Some? <==> letter in ["", "m", "u", "n", "p"]
    ensures HrpToPico(letter).Some? ==> HrpToPico(letter).value == Unit(letter)
  {
  }

  lemma {:induction false} TokensAre(rest: string)
    ensures var t := TokensOf(rest); rest == t.network + t.digits + t.tail
  {
    hide LetterRun, DigitRun;
    ThreeParts(rest, LetterRun(rest), DigitRun(rest[LetterRun(rest)..]));
  }

  lemma {:induction false} ThreeParts<T>(s: seq<T>, n: nat, m: nat)
    requires n <= |s| && m <= |s[n..]|
    ensures s == s[..n] + s[n..][..m] + s[n..][m..]
  {
  }

  /** For any text: it is read as a network and an amount if and only if it is such a prefix. */
  lemma {:induction false} PrefixReadIff(prefix: string, network: string, pico: Option<nat>)
    ensures ParsedOf(prefix) == Parsed(network, pico) <==> exists digits, tail :: IsPrefix(prefix, network, pico, digits, tail)
  {
    if ParsedOf(prefix) == Parsed(network, pico) {
      PrefixRead(prefix, network, pico);
    }
    if digits, tail :| IsPrefix(prefix, network, pico, digits, tail) {
      PrefixIsRead(prefix, network, pico, digits, tail);
    }
  }

  lemma {:induction false} PrefixRead(prefix: string, network: string, pico: Option<nat>)
    requires ParsedOf(prefix) == Parsed(network, pico)
    ensures exists digits, tail :: IsPrefix(prefix, network, pico, digits, tail)
  {
    hide TokensOf, DecimalValue, HrpToPico, Unit;
    var t := TokensOf(prefix[2..]);
    TokensAre(prefix[2..]);
    PicoIs(LastLetter(t.tail));
    assert prefix == "ln" + prefix[2..];
    assert "ln" + (t.network + t.digits + t.tail) == "ln" + t.network + t.digits + t.tail;
    assert IsPrefix(prefix, network, pico, t.digits, t.tail);
  }

  lemma {:induction false} Grouped(a: string, b: string, c: string)
    ensures a + (b + c) == a + b + c
  {
  }

  lemma {:induction false} PrefixIsRead(prefix: string, network: string, pico: Option<nat>, digits: string, tail: string)
    requires IsPrefix(prefix, network, pico, digits, tail)
    ensures ParsedOf(prefix) == Parsed(network, pico)
  {
    hide TokensOf, DecimalValue, HrpToPico, Unit, Digits;
    NetworkIsLetters(network);
    PicoIs(LastLetter(tail));
    BehindLn(network, digits + tail);
    Grouped("ln" + network, digits, tail);
    TokensBack(network, digits, tail);
  }

  // ---------------------------------------------------------------------------
  // The whole invoice

  /**
   The words of an invoice: the timestamp in seven, the fields, the signature in 103 and its flag in one;
   and the signature is of the hash of the prefix as text and of the words before it as bytes, filled up
   with zeros.
  */
  lemma {:induction false} InvoiceIs(c: Crypto, v: Content, key: seq<nat>, t: seq<nat>, prefix: seq<nat>)
    requires Lawful(c) && AllTyped(v.fields)
    requires |t| == 7 && Numeral(t, v.timestamp)
    requires var s := "ln" + v.network + AmountOf(v.pico);
             |prefix| == |s| && forall i :: 0 <= i < |s| ==> prefix[i] == s[i] as nat
    ensures var data := t + EncodedAll(v.fields);
            var (signature, flag) := c.sign(c.sha256(prefix + WordsToBuffer(data, true).value), key);
            && |BufferToWords(signature, true).value| == 103
            && SignedWords(c, v, key) == data + BufferToWords(signature, true).value + [flag]
  {
    NumeralIs(t, v.timestamp);
    assert prefix == CodesOf(PrefixOf(v.network, v.pico));
    var data := t + EncodedAll(v.fields);
    assert data == ContentWords(v);
    var (signature, flag) := c.sign(HashOf(c, v), key);
    W.BytesTakeSize(signature);
    OneWord(flag);
    hide W.Written, EncodedAll, BufferToWords, WordsToBuffer, WellTyped, AmountOf, CodesOf;
    var s := BufferToWords(signature, true).value;
    assert data + (s + [flag]) == data + s + [flag];
  }

  /** Fields one after the other. */
  lemma {:induction false} FieldsFollow(fields: seq<Field>)
    requires AllTyped(fields)
    ensures EncodedAll([]) == []
    ensures fields != [] ==> EncodedAll(fields) == Encoded(fields[0]) + EncodedAll(fields[1..])
  {
    if fields != [] { EncodedFirst(fields); }
  }

  /**
   The words a signature covers: all but the last 104. Of fewer words the program takes as many off once
   more, because a negative end counts from the back.
  */
  function Covered(words: seq<nat>): seq<nat> {
    if |words| >= 104 then words[..|words| - 104]
    else if 2 * |words| >= 104 then words[..2 * |words| - 104]
    else []
  }

  /**
   Nothing is decoded that is not signed: for any text, the signature that is reported verifies, under the
   key that is reported, the hash of the text's own prefix and of the words that it covers; and that key is
   the payee's, where one is named, or the one recovered from the signature.
  */
  lemma {:induction false} DecodedIsSigned(c: Crypto, text: string, prefix: seq<nat>)
    requires var r := DecodedOf(c, text); r.Some?
    requires Bech32.DecodedOf(text).Decoded? ==>
               && |prefix| == |Bech32.DecodedOf(text).hrp|
               && forall i :: 0 <= i < |prefix| ==> prefix[i] == Bech32.DecodedOf(text).hrp[i] as nat
    ensures Bech32.DecodedOf(text).Decoded?
    ensures var d, words := DecodedOf(c, text).value, Bech32.DecodedOf(text).words;
            && d.hashData == c.sha256(prefix + WordsToBuffer(Covered(words), true).value)
            && c.verify(d.pubkey, d.hashData, d.r + d.s)
            && d.usedSigRecovery == (exists f :: f in d.fields && TypeOf(f) == 19)
            && ((forall f :: f in d.fields ==> TypeOf(f) != 19) ==>
                  c.recover(d.hashData, d.r + d.s, d.recoveryFlag) == Some(d.pubkey))
            && (d.usedSigRecovery ==> Data(19, d.pubkey) in d.fields)
  {
    hide Bech32.DecodedOf, Bech32.Encoded, ParsedOf, FieldsFrom, Checked, W.ReadOf, WordsToBuffer, CodesOf, FirstOf,
         W.Slice, TypeOf;
    Bech32.DecodeSound(text);
    var b := Bech32.DecodedOf(text);
    var words := b.words;
    assert prefix == CodesOf(b.hrp) by { CodesAre(b.hrp, prefix); }
    DecodedByParts(c, text, b.hrp, words, b.version);
    var f := FieldsFrom(words, 7).value;
    CheckedIsSigned(c, b.hrp, ParsedOf(b.hrp), words, W.ReadOf(W.Slice(words, 0, 7)), f);
    FirstIff(f.known, 19);
    PayeesAreData(words, 7);
    DataSlice(words);
  }

  lemma {:induction false} CodesAre(s: string, codes: seq<nat>)
    requires |codes| == |s| && forall i :: 0 <= i < |codes| ==> codes[i] == s[i] as nat
    ensures codes == CodesOf(s)
  {
  }

  lemma {:induction false} DataSlice(words: seq<nat>)
    ensures W.Slice(words, 0, |words| - 104) == Covered(words)
  {
  }

  lemma {:induction false} CheckedIsSigned(
      c: Crypto, hrp: string, p: Parsed, words: seq<nat>, timestamp: int, f: Fields)
    requires p.Parsed? && Checked(c, hrp, p, words, timestamp, f).Some?
    ensures var d := Checked(c, hrp, p, words, timestamp, f).value;
            && d.hashData == c.sha256(CodesOf(hrp) + WordsToBuffer(W.Slice(words, 0, |words| - 104), true).value)
            && c.verify(d.pubkey, d.hashData, d.r + d.s) && d.fields == f.known
            && d.usedSigRecovery == FirstOf(f.known, 19).Some?
            && (FirstOf(f.known, 19).None? ==> c.recover(d.hashData, d.r + d.s, d.recoveryFlag) == Some(d.pubkey))
            && var payee := FirstOf(f.known, 19);
               (payee.Some? && payee.value.Data? ==> payee.value == Data(19, d.pubkey))
  {
    hide W.ReadOf, WordsToBuffer, CodesOf, FirstOf, W.Slice;
    var d := Checked(c, hrp, p, words, timestamp, f).value;
    assert d.r + d.s == WordsToBuffer(W.Slice(words, f.next, f.next + 103), false).value;
  }

  /** A payee is read as bytes. */
  lemma {:induction false} PayeesAreData(ws: seq<nat>, pos: nat)
    requires Bech32.Symbols(ws)
    ensures FieldsFrom(ws, pos).Some? ==> forall f :: f in FieldsFrom(ws, pos).value.known && KindOf(f) == 19 ==> f.Data?
    decreases |ws| - pos
  {
    if |ws| - pos > SIGNATURE_WORDS && !FieldAt(ws, pos).Throws? {
      PayeesAreData(ws, FieldAt(ws, pos).next);
      PayeeIsRead(ws, pos);
      hide FieldAt;
    }
  }

  lemma {:induction false} PayeeIsRead(ws: seq<nat>, pos: nat)
    requires Bech32.Symbols(ws)
    ensures var r := FieldAt(ws, pos); r.Known? && KindOf(r.field) == 19 ==> r.field.Data?
  {
    hide W.ReadOf, W.Slice, WordsToBuffer, HopsOf;
  }

  lemma {:induction false} FirstIff(fields: seq<Field>, kind: nat)
    ensures FirstOf(fields, kind).Some? <==> exists f :: f in fields && TypeOf(f) == kind
  {
    if fields != [] && TypeOf(fields[0]) != kind {
      FirstIff(fields[1..], kind);
      assert forall f :: f in fields <==> f == fields[0] || f in fields[1..];
    }
  }
}
