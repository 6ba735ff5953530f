/**
 Invoices (BOLT #11) as text: the encoder, the decoder and what the second makes of the first.
*/
module Invoice {
  import opened Common
  import opened WordConversion
  import opened InvoiceAmount
  import opened InvoiceFields
  import Bech32
  import W = WordCursor

  type Bytes = seq<nat>

  /** SHA-256 and ECDSA on secp256k1; an exception of the recovery is None. */
  datatype Crypto = Crypto(
    sha256: Bytes -> Bytes,
    sign: (Bytes, Bytes) -> (Bytes, nat),
    recover: (Bytes, Bytes, int) -> Option<Bytes>,
    verify: (Bytes, Bytes, Bytes) -> bool,
    publicKey: Bytes -> Bytes)

  /** A signature is 64 bytes and a flag of one word; the signer's public key verifies it and is recovered from it. */
  ghost predicate Lawful(c: Crypto) {
    && (forall h, k :: |c.sign(h, k).0| == 64 && Fits(c.sign(h, k).0, 8) && c.sign(h, k).1 < 32)
    && (forall h, k :: c.verify(c.publicKey(k), h, c.sign(h, k).0))
    && (forall h, k :: c.recover(h, c.sign(h, k).0, c.sign(h, k).1) == Some(c.publicKey(k)))
  }

  datatype Content = Content(network: string, pico: Option<nat>, timestamp: nat, fields: seq<Field>)

  datatype Decoded = Decoded(
    network: string, pico: Option<nat>, timestamp: int, fields: seq<Field>, unknownFields: seq<Field>,
    r: Bytes, s: Bytes, recoveryFlag: int, pubkey: Bytes, hashData: Bytes, usedSigRecovery: bool)

  /** The bytes of an ASCII string. */
  function CodesOf(s: string): Bytes {
    seq(|s|, i requires 0 <= i < |s| => s[i] as nat)
  }

  // ---------------------------------------------------------------------------
  // Encoding

  function ContentWords(v: Content): seq<nat>
    requires AllTyped(v.fields)
  {
    W.Written(v.timestamp, 7) + EncodedAll(v.fields)
  }

  /** The bytes that are hashed and signed. */
  function Preimage(prefix: string, words: seq<nat>): Bytes {
    CodesOf(prefix) + WordsToBuffer(words, true).value
  }

  function HashOf(c: Crypto, v: Content): Bytes
    requires AllTyped(v.fields)
  {
    c.sha256(Preimage(PrefixOf(v.network, v.pico), ContentWords(v)))
  }

  function SignatureWords(signature: (Bytes, nat)): seq<nat> {
    BufferToWords(signature.0, true).value + W.Written(signature.1, 1)
  }

  function SignedWords(c: Crypto, v: Content, key: Bytes): seq<nat>
    requires AllTyped(v.fields)
  {
    ContentWords(v) + SignatureWords(c.sign(HashOf(c, v), key))
  }

  lemma {:induction false} PaddedIsSome(words: seq<nat>)
    ensures WordsToBuffer(words, true).Some? && BufferToWords(words, true).Some?
  {
  }

  method WriteContent(v: Content) returns (writer: W.WordCursor)
    requires AllTyped(v.fields)
    ensures fresh(writer) && writer.words == ContentWords(v) && Bech32.Symbols(writer.words)
  {
    ContentSymbols(v);
    hide W.Written, EncodedAll, WellTyped;
    writer := new W.WordCursor([]);
    var _ := writer.WriteUIntBE(v.timestamp, 7);
    EncodeData(writer, v.fields);
    assert writer.words == ContentWords(v);
    hide *;
  }

  lemma {:induction false} ContentSymbols(v: Content)
    requires AllTyped(v.fields)
    ensures Bech32.Symbols(ContentWords(v)) && [] + W.Written(v.timestamp, 7) == W.Written(v.timestamp, 7)
  {
    AllSymbols(v.fields);
    hide W.Written, EncodedAll, WellTyped;
  }

  lemma {:induction false} SignatureSymbols(signature: (Bytes, nat))
    requires Fits(signature.0, 8)
    ensures Bech32.Symbols(SignatureWords(signature))
  {
    hide W.Written, BufferToWords, WordsToBuffer;
    W.BytesTakeSize(signature.0);
  }

  method WriteSignature(writer: W.WordCursor, signature: Bytes, recovery: nat)
    requires Fits(signature, 8) && Bech32.Symbols(writer.words)
    modifies writer`words
    ensures writer.words == old(writer.words) + SignatureWords((signature, recovery)) && Bech32.Symbols(writer.words)
  {
    SignatureSymbols((signature, recovery));
    ghost var before := writer.words;
    hide W.Written, BufferToWords, Fits;
    writer.WriteBytes(signature);
    var _ := writer.WriteUIntBE(recovery, 1);
    assert writer.words == before + SignatureWords((signature, recovery));
  }

  method Encode(c: Crypto, v: Content, key: Bytes) returns (text: string)
    requires Lawful(c) && AllTyped(v.fields)
    ensures Bech32.Symbols(SignedWords(c, v, key))
    ensures text == Bech32.Encoded(PrefixOf(v.network, v.pico), SignedWords(c, v, key), Bech32.BECH32)
  {
    hide ContentWords, WordsToBuffer, BufferToWords, WellTyped, SignatureWords, Bech32.Encoded;
    var amount := EncodePico(v.pico);
    var prefix := "ln" + v.network + amount;
    var writer := WriteContent(v);
    W.Width();
    PaddedIsSome(writer.words);
    var bytes := ConvertWords(writer.words, 5, 8, true);
    IsWordsToBuffer(writer.words);
    var hash := c.sha256(CodesOf(prefix) + bytes.value);
    var (signature, recovery) := c.sign(hash, key);
    WriteSignature(writer, signature, recovery);
    text := Bech32.Encode(prefix, writer.words, Bech32.BECH32);
  }

  lemma IsWordsToBuffer(words: seq<nat>)
    ensures WordsToBuffer(words, true) == Converted(words, 5, 8, true)
  {
  }

  // ---------------------------------------------------------------------------
  // Decoding

  /** The first field of a type. */
  function FirstOf(fields: seq<Field>, kind: nat): (r: Option<Field>)
    ensures r.Some? ==> r.value in fields && KindOf(r.value) == kind
  {
    if fields == [] then None
    else if KindOf(fields[0]) == kind then Some(fields[0])
    else FirstOf(fields[1..], kind)
  }

  /** The payee's key: given in a field, or recovered from the signature. */
  function PubkeyOf(c: Crypto, known: seq<Field>, hash: Bytes, signature: Bytes, flag: int): Option<Bytes> {
    var payee := FirstOf(known, PAYEE_NODE);
    if payee.Some? && payee.value.Data? then Some(payee.value.bytes) else c.recover(hash, signature, flag)
  }

  function Checked(
      c: Crypto, hrp: string, p: Parsed, words: seq<nat>, timestamp: int, f: Fields): Option<Decoded>
    requires p.Parsed?
  {
    var signature := WordsToBuffer(W.Slice(words, f.next, f.next + 103), false);
    if signature.None? then None else
    var flag := W.ReadOf(W.Slice(words, f.next + 103, f.next + 104));
    var hash := c.sha256(Preimage(hrp, W.Slice(words, 0, |words| - SIGNATURE_WORDS)));
    var pubkey := PubkeyOf(c, f.known, hash, signature.value, flag);
    if pubkey.None? || !c.verify(pubkey.value, hash, signature.value) then None
    else
      var n := if |signature.value| < 32 then |signature.value| else 32;
      Some(Decoded(
        p.network, p.pico, timestamp, f.known, f.unknown, signature.value[..n], signature.value[n..], flag,
        pubkey.value, hash, FirstOf(f.known, PAYEE_NODE).Some?))
  }

  /** None is an exception. */
  function DecodedOf(c: Crypto, text: string): Option<Decoded> {
    var d := Bech32.DecodedOf(text);
    if !d.Decoded? then None else
    Bech32.DecodeSound(text);
    var p := ParsedOf(d.hrp);
    if p.Invalid? then None else
    var f := FieldsFrom(d.words, 7);
    if f.None? then None
    else Checked(c, d.hrp, p, d.words, W.ReadOf(W.Slice(d.words, 0, 7)), f.value)
  }

  /** The second half of `decode`: signature, hash and key. */
  method Check(c: Crypto, hrp: string, p: Parsed, cursor: W.WordCursor, timestamp: int, f: Fields)
    returns (r: Option<Decoded>)
    requires p.Parsed? && cursor.position == f.next && Bech32.Symbols(cursor.words)
    modifies cursor`position
    ensures r == Checked(c, hrp, p, cursor.words, timestamp, f)
  {
    hide WordsToBuffer, W.ReadOf, W.Slice, FirstOf, CodesOf;
    var signature := cursor.ReadBytes(103, false);
    if signature.None? { return None; }
    var flag := cursor.ReadUIntBE(1);
    cursor.position := 0;
    var data := cursor.ReadBytes(|cursor.words| - SIGNATURE_WORDS, true);
    PaddedIsSome(W.Slice(cursor.words, 0, |cursor.words| - SIGNATURE_WORDS));
    var hash := c.sha256(CodesOf(hrp) + data.value);
    var payee := FirstOf(f.known, PAYEE_NODE);
    var pubkey := if payee.Some? && payee.value.Data? then Some(payee.value.bytes)
                  else c.recover(hash, signature.value, flag);
    if pubkey.None? || !c.verify(pubkey.value, hash, signature.value) { return None; }
    var n := if |signature.value| < 32 then |signature.value| else 32;
    return Some(Decoded(
      p.network, p.pico, timestamp, f.known, f.unknown, signature.value[..n], signature.value[n..], flag,
      pubkey.value, hash, payee.Some?));
  }

  method Decode(c: Crypto, text: string) returns (r: Option<Decoded>)
    ensures r == DecodedOf(c, text)
  {
    hide Bech32.DecodedOf, ParsedOf, FieldsFrom, W.ReadOf, W.Slice, Checked;
    var d := Bech32.Decode(text);
    if !d.Decoded? { return None; }
    Bech32.DecodeSound(text);
    var p := ParsePrefix(d.hrp);
    if p.Invalid? { return None; }
    var cursor := new W.WordCursor(d.words);
    var timestamp := cursor.ReadUIntBE(7);
    var f := DecodeFields(cursor);
    if f.None? { return None; }
    r := Check(c, d.hrp, p, cursor, timestamp, f.value);
  }

  // ---------------------------------------------------------------------------
  // Round trip

  lemma {:induction false} PrefixIsLegal(network: string, pico: Option<nat>)
    requires ValidNetwork(network)
    ensures Bech32.LegalHrp(PrefixOf(network, pico))
  {
    NetworkIsLetters(network);
    AmountIsText(pico);
    hide ValidNetwork, AmountOf;
    assert forall c: char :: Letter(c) || Digit(c) ==> 33 <= c as nat <= 126 && !Bech32.IsUpper(c);
  }

  lemma {:induction false} AmountIsText(pico: Option<nat>)
    ensures forall i :: 0 <= i < |AmountOf(pico)| ==> Letter(AmountOf(pico)[i]) || Digit(AmountOf(pico)[i])
  {
    if pico.Some? && pico.value > 0 {
      MultiplierIsLetter(TrailingZeros(Decimal(pico.value)));
      MultiplierIsKnown(TrailingZeros(Decimal(pico.value)));
      hide MinimumMultiplier, HrpToPico, TrailingZeros;
    }
  }

  lemma {:induction false} SignatureBack(pre: seq<nat>, signature: (Bytes, nat))
    requires |signature.0| == 64 && Fits(signature.0, 8) && signature.1 < 32
    ensures |SignatureWords(signature)| == SIGNATURE_WORDS
    ensures var ws := pre + SignatureWords(signature);
            && WordsToBuffer(W.Slice(ws, |pre|, |pre| + 103), false) == Some(signature.0)
            && W.ReadOf(W.Slice(ws, |pre| + 103, |pre| + 104)) == signature.1
            && W.Slice(ws, 0, |ws| - SIGNATURE_WORDS) == pre
  {
    W.BytesTakeSize(signature.0);
    assert W.Pow32(1) == 32;
    NumberBack(signature.1, 1);
    hide WordsToBuffer, BufferToWords, W.ReadOf, W.Written;
    var s, f := BufferToWords(signature.0, true).value, W.Written(signature.1, 1);
    var ws := pre + SignatureWords(signature);
    assert |s| == 103;
    assert ws == pre + s + f && ws == (pre + s) + f + [];
    assert W.Slice(ws, |pre|, |pre| + 103) == s;
    assert W.Slice(ws, |pre| + 103, |pre| + 104) == f;
    assert W.Slice(ws, 0, |ws| - SIGNATURE_WORDS) == pre;
  }

  /** What the decoder makes of an encoded invoice, before the signature is checked. */
  ghost function Expected(c: Crypto, v: Content, key: Bytes): Option<Decoded>
    requires Lawful(c) && AllTyped(v.fields)
  {
    var hash := HashOf(c, v);
    var (signature, flag) := c.sign(hash, key);
    var known, unknown := Sorted(v.fields, true), Sorted(v.fields, false);
    var pubkey := PubkeyOf(c, known, hash, signature, flag);
    if !c.verify(pubkey.value, hash, signature) then None
    else Some(Decoded(
      v.network, v.pico, v.timestamp, known, unknown, signature[..32], signature[32..], flag, pubkey.value, hash,
      FirstOf(known, PAYEE_NODE).Some?))
  }

  lemma {:induction false} WordsBack(c: Crypto, v: Content, key: Bytes)
    requires Lawful(c) && AllTyped(v.fields) && AllWritable(v.fields) && v.timestamp < 0x8000_0000
    ensures var ws := SignedWords(c, v, key);
            && Bech32.Symbols(ws)
            && W.ReadOf(W.Slice(ws, 0, 7)) == v.timestamp
            && FieldsFrom(ws, 7) ==
               Some(Fields(Sorted(v.fields, true), Sorted(v.fields, false), |ContentWords(v)|))
  {
    var signature := c.sign(HashOf(c, v), key);
    SignatureSymbols(signature);
    SignatureBack(ContentWords(v), signature);
    W.Pow32Grows(7);
    NumberBack(v.timestamp, 7);
    hide HashOf, Lawful, W.ReadOf, W.Written, FieldsFrom, EncodedAll, SignatureWords, Sorted, Writable, WellTyped, W.Pow32;
    var t, e, s := W.Written(v.timestamp, 7), EncodedAll(v.fields), SignatureWords(signature);
    FieldsBack(t, v.fields, s);
    assert SignedWords(c, v, key) == t + e + s;
    assert W.Slice(t + e + s, 0, 7) == t;
  }

  lemma {:induction false} CheckedIsExpected(c: Crypto, v: Content, key: Bytes)
    requires Lawful(c) && AllTyped(v.fields)
    ensures Bech32.Symbols(SignedWords(c, v, key)) ==>
            Checked(c, PrefixOf(v.network, v.pico), Parsed(v.network, v.pico), SignedWords(c, v, key), v.timestamp,
                    Fields(Sorted(v.fields, true), Sorted(v.fields, false), |ContentWords(v)|)) == Expected(c, v, key)
  {
    SignatureBack(ContentWords(v), c.sign(HashOf(c, v), key));
    hide W.ReadOf, WordsToBuffer, Sorted, FirstOf, PrefixOf, W.Slice, ContentWords, SignatureWords, CodesOf, PubkeyOf, WellTyped;
  }

  lemma {:induction false} DecodedIsExpected(c: Crypto, v: Content, key: Bytes)
    requires Lawful(c) && ValidNetwork(v.network) && v.pico != Some(0)
    requires AllTyped(v.fields) && AllWritable(v.fields) && v.timestamp < 0x8000_0000
    ensures Bech32.Symbols(SignedWords(c, v, key))
    ensures DecodedOf(c, Bech32.Encoded(PrefixOf(v.network, v.pico), SignedWords(c, v, key), Bech32.BECH32)) ==
            Expected(c, v, key)
  {
    var ws, hrp := SignedWords(c, v, key), PrefixOf(v.network, v.pico);
    WordsBack(c, v, key);
    PrefixIsLegal(v.network, v.pico);
    PrefixRoundTripIff(v.network, v.pico);
    CheckedIsExpected(c, v, key);
    hide *;
    Bech32.RoundTripIffLegal(hrp, ws, Bech32.BECH32);
    DecodedByParts(c, Bech32.Encoded(hrp, ws, Bech32.BECH32), hrp, ws, Bech32.BECH32);
  }

  /** The payee that an invoice names: the first such field of standard form. */
  function PayeeOf(v: Content): Option<Bytes>
    requires AllTyped(v.fields)
  {
    var payee := FirstOf(Sorted(v.fields, true), PAYEE_NODE);
    if payee.Some? && payee.value.Data? then Some(payee.value.bytes) else None
  }

  lemma {:induction false} SortedIsTyped(fields: seq<Field>, standard: bool)
    requires AllTyped(fields)
    ensures forall f :: f in Sorted(fields, standard) ==> WellTyped(f)
    decreases |fields|
  {
    hide WellTyped, Standard, LengthOf;
    if fields != [] {
      SortedIsTyped(fields[1..], standard);
    }
  }

  lemma {:induction false} PayeeIsData(v: Content)
    requires AllTyped(v.fields)
    ensures var payee := FirstOf(Sorted(v.fields, true), PAYEE_NODE);
            && PayeeOf(v).Some? == payee.Some?
            && (payee.Some? ==> payee.value.Data? && PayeeOf(v) == Some(payee.value.bytes))
  {
    SortedIsTyped(v.fields, true);
    hide Sorted, FirstOf;
  }

  lemma {:induction false} ExpectedIs(c: Crypto, v: Content, key: Bytes)
    requires Lawful(c) && AllTyped(v.fields)
    ensures var hash, payee := HashOf(c, v), PayeeOf(v);
            var (signature, flag) := c.sign(hash, key);
            && (Expected(c, v, key).Some? <==> payee.None? || c.verify(payee.value, hash, signature))
            && |signature| == 64
            && (payee.None? || payee.value == c.publicKey(key) ==>
                  Expected(c, v, key) == Some(Decoded(
                    v.network, v.pico, v.timestamp, Sorted(v.fields, true), Sorted(v.fields, false),
                    signature[..32], signature[32..], flag, c.publicKey(key), hash, payee.Some?)))
  {
    PayeeIsData(v);
    hide Sorted, FirstOf, HashOf, WellTyped, PayeeOf;
  }

  /**
   An invoice with a known network, an amount that is absent or positive, a timestamp and numbers under
   2^31 and fields under 1024 words is decoded if and only if it names no payee or one whose key verifies
   the signature. Where it names none, or its signer, that gives exactly what was encoded, the fields of
   standard form apart from the others, over the same hash and with the signer's public key.
  */
  lemma {:induction false} InvoiceRoundTrip(c: Crypto, v: Content, key: Bytes)
    requires Lawful(c) && ValidNetwork(v.network) && v.pico != Some(0)
    requires AllTyped(v.fields) && AllWritable(v.fields) && v.timestamp < 0x8000_0000
    ensures Bech32.Symbols(SignedWords(c, v, key))
    ensures var text := Bech32.Encoded(PrefixOf(v.network, v.pico), SignedWords(c, v, key), Bech32.BECH32);
            var hash, payee := HashOf(c, v), PayeeOf(v);
            var (signature, flag) := c.sign(hash, key);
            && (DecodedOf(c, text).Some? <==> payee.None? || c.verify(payee.value, hash, signature))
            && |signature| == 64
            && (payee.None? || payee.value == c.publicKey(key) ==>
                  DecodedOf(c, text) == Some(Decoded(
                    v.network, v.pico, v.timestamp, Sorted(v.fields, true), Sorted(v.fields, false),
                    signature[..32], signature[32..], flag, c.publicKey(key), hash, payee.Some?)))
  {
    hide *;
    DecodedIsExpected(c, v, key);
    ExpectedIs(c, v, key);
  }

  lemma {:induction false} DecodedByParts(c: Crypto, text: string, hrp: string, words: seq<nat>, version: nat)
    requires Bech32.DecodedOf(text) == Bech32.Decoded(hrp, words, version) && Bech32.Symbols(words)
    ensures DecodedOf(c, text) ==
            if ParsedOf(hrp).Invalid? || FieldsFrom(words, 7).None? then None
            else Checked(c, hrp, ParsedOf(hrp), words, W.ReadOf(W.Slice(words, 0, 7)), FieldsFrom(words, 7).value)
  {
    hide Bech32.DecodedOf, ParsedOf, FieldsFrom, Checked, W.ReadOf, W.Slice;
  }
}
