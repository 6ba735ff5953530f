/**
 The tagged fields of an invoice (BOLT #11): what the encoder writes for each, and what the decoder's
 field loop makes of any words.
*/
module InvoiceFields {
  import opened Common
  import opened WordConversion
  import Bech32
  import W = WordCursor

  const PAYMENT_HASH := 1
  const ROUTE := 3
  const EXPIRY := 6
  const FALLBACK_ADDRESS := 9
  const SHORT_DESC := 13
  const PAYEE_NODE := 19
  const HASH_DESC := 23
  const MIN_FINAL_CLTV_EXPIRY := 24

  /** The words of a signature and its recovery flag. */
  const SIGNATURE_WORDS := 104

  datatype Hop = Hop(pubkey: seq<nat>, shortChannelId: seq<nat>, feeBase: nat, feeRate: nat, delta: nat)

  /** A field by the form of its value: bytes, routes, a number, or an address with its version. */
  datatype Field =
    | Data(kind: nat, bytes: seq<nat>)
    | Routes(hops: seq<Hop>)
    | Number(kind: nat, value: int)
    | Fallback(version: int, address: seq<nat>)

  function KindOf(f: Field): nat {
    match f
    case Data(kind, _) => kind
    case Routes(_) => ROUTE
    case Number(kind, _) => kind
    case Fallback(_, _) => FALLBACK_ADDRESS
  }

  predicate IsHop(h: Hop) {
    && |h.pubkey| == 33 && Fits(h.pubkey, 8) && |h.shortChannelId| == 8 && Fits(h.shortChannelId, 8)
    && h.feeBase < 0x1_0000_0000 && h.feeRate < 0x1_0000_0000 && h.delta < 0x1_0000
  }

  /** The value has the form its type stands for, so that the encoder throws nothing. */
  predicate WellTyped(f: Field) {
    match f
    case Data(kind, bytes) =>
      kind !in {ROUTE, EXPIRY, FALLBACK_ADDRESS, MIN_FINAL_CLTV_EXPIRY} && Fits(bytes, 8)
    case Routes(hops) => forall i :: 0 <= i < |hops| ==> IsHop(hops[i])
    case Number(kind, value) => kind in {EXPIRY, MIN_FINAL_CLTV_EXPIRY} && value >= 0
    case Fallback(version, address) => version >= 0 && Fits(address, 8)
  }

  // ---------------------------------------------------------------------------
  // Routes

  function BigEndian2(n: nat): (b: seq<nat>)
    requires n < 0x1_0000
    ensures |b| == 2 && forall i :: 0 <= i < 2 ==> b[i] < 256
  {
    [n / 256, n % 256]
  }

  function BigEndian4(n: nat): (b: seq<nat>)
    requires n < 0x1_0000_0000
    ensures |b| == 4 && forall i :: 0 <= i < 4 ==> b[i] < 256
  {
    [n / 0x100_0000, n / 0x1_0000 % 256, n / 256 % 256, n % 256]
  }

  function Read2(b: seq<nat>): nat
    requires |b| == 2
  {
    256 * b[0] + b[1]
  }

  function Read4(b: seq<nat>): nat
    requires |b| == 4
  {
    0x100_0000 * b[0] + 0x1_0000 * b[1] + 256 * b[2] + b[3]
  }

  lemma {:induction false} Reads(m: nat, n: nat)
    requires m < 0x1_0000 && n < 0x1_0000_0000
    ensures Read2(BigEndian2(m)) == m && Read4(BigEndian4(n)) == n
  {
    var a, b := n / 256, n / 256 / 256;
    assert n == 256 * a + n % 256 && a == 256 * b + a % 256;
    assert b == n / 0x1_0000 && b / 256 == n / 0x100_0000;
  }

  function HopBytes(h: Hop): (b: seq<nat>)
    requires IsHop(h)
    ensures |b| == 51
  {
    h.pubkey + h.shortChannelId + BigEndian4(h.feeBase) + BigEndian4(h.feeRate) + BigEndian2(h.delta)
  }

  function RouteBytes(hops: seq<Hop>): (b: seq<nat>)
    requires forall i :: 0 <= i < |hops| ==> IsHop(hops[i])
    ensures |b| == 51 * |hops|
  {
    if hops == [] then [] else HopBytes(hops[0]) + RouteBytes(hops[1..])
  }

  function HopAt(b: seq<nat>): Hop
    requires |b| >= 51
  {
    Hop(b[..33], b[33..41], Read4(b[41..45]), Read4(b[45..49]), Read2(b[49..51]))
  }

  /** Hop by hop to the end; a read past it is an exception. */
  function HopsOf(b: seq<nat>): Option<seq<Hop>>
    decreases |b|
  {
    if b == [] then Some([])
    else if |b| < 51 then None
    else
      var rest := HopsOf(b[51..]);
      if rest.None? then None else Some([HopAt(b)] + rest.value)
  }

  function After(hops: seq<Hop>, rest: Option<seq<Hop>>): Option<seq<Hop>> {
    if rest.None? then None else Some(hops + rest.value)
  }

  lemma {:induction false} AfterOne(hops: seq<Hop>, b: seq<nat>)
    ensures |b| >= 51 ==> After(hops, HopsOf(b)) == After(hops + [HopAt(b)], HopsOf(b[51..]))
    ensures 0 < |b| < 51 ==> After(hops, HopsOf(b)) == None
    ensures After(hops, HopsOf([])) == Some(hops)
  {
    hide HopAt;
    assert hops + [] == hops;
    if |b| >= 51 && HopsOf(b[51..]).Some? {
      assert hops + ([HopAt(b)] + HopsOf(b[51..]).value) == hops + [HopAt(b)] + HopsOf(b[51..]).value;
    }
  }

  lemma {:induction false} AfterNone(rest: Option<seq<Hop>>)
    ensures After([], rest) == rest
  {
    if rest.Some? {
      assert [] + rest.value == rest.value;
    }
  }

  method ReadHops(b: seq<nat>) returns (r: Option<seq<Hop>>)
    ensures r == HopsOf(b)
  {
    hide HopAt, HopsOf, After;
    var hops: seq<Hop> := [];
    var position := 0;
    assert b[0..] == b;
    AfterNone(HopsOf(b));
    while position != |b|
      invariant 0 <= position <= |b|
      invariant HopsOf(b) == After(hops, HopsOf(b[position..]))
      decreases |b| - position
    {
      ghost var here := b[position..];
      AfterOne(hops, here);
      if position + 51 > |b| { return None; }
      assert here[51..] == b[position + 51..];
      var hop := HopAt(b[position..position + 51]);
      SameHop(here, b[position..position + 51]);
      hops := hops + [hop];
      position := position + 51;
    }
    AfterOne(hops, []);
    assert b[position..] == [];
    return Some(hops);
  }

  lemma {:induction false} SameHop(a: seq<nat>, b: seq<nat>)
    requires |a| >= 51 && b == a[..51]
    ensures HopAt(a) == HopAt(b)
  {
    assert a[..33] == b[..33] && a[33..41] == b[33..41] && a[41..45] == b[41..45];
    assert a[45..49] == b[45..49] && a[49..51] == b[49..51];
  }

  lemma {:induction false} HopBack(h: Hop, rest: seq<nat>)
    requires IsHop(h)
    ensures HopAt(HopBytes(h) + rest) == h && (HopBytes(h) + rest)[51..] == rest
  {
    hide Fits;
    Reads(h.delta, h.feeBase);
    Reads(h.delta, h.feeRate);
    hide BigEndian2, BigEndian4, Read2, Read4;
    var b := HopBytes(h) + rest;
    assert b[..33] == h.pubkey && b[33..41] == h.shortChannelId;
    assert b[41..45] == BigEndian4(h.feeBase) && b[45..49] == BigEndian4(h.feeRate) && b[49..51] == BigEndian2(h.delta);
  }

  /** Routes come back from their bytes. */
  lemma {:induction false} RoutesBack(hops: seq<Hop>)
    requires forall i :: 0 <= i < |hops| ==> IsHop(hops[i])
    ensures HopsOf(RouteBytes(hops)) == Some(hops)
  {
    hide HopAt, HopBytes, IsHop;
    if hops != [] {
      HopBack(hops[0], RouteBytes(hops[1..]));
      RoutesBack(hops[1..]);
      assert hops == [hops[0]] + hops[1..];
    }
  }

  lemma {:induction false} HopBytesFit(h: Hop)
    requires IsHop(h)
    ensures Fits(HopBytes(h), 8)
  {
    W.Width();
  }

  lemma {:induction false} RouteBytesFit(hops: seq<Hop>)
    requires forall i :: 0 <= i < |hops| ==> IsHop(hops[i])
    ensures Fits(RouteBytes(hops), 8)
  {
    hide HopBytes, IsHop;
    if hops != [] {
      HopBytesFit(hops[0]);
      RouteBytesFit(hops[1..]);
    }
  }

  // ---------------------------------------------------------------------------
  // Writing a field

  /** The length that is written: words of payload. */
  function LengthOf(f: Field): nat
    requires WellTyped(f)
  {
    match f
    case Data(_, bytes) => W.SizeOfBytes(|bytes|)
    case Routes(hops) => W.SizeOfBytes(51 * |hops|)
    case Number(_, value) => W.SizeOfNumber(value)
    case Fallback(_, address) => W.SizeOfBytes(|address|) + 1
  }

  function BytesWords(bytes: seq<nat>): seq<nat> {
    BufferToWords(bytes, true).value
  }

  function Payload(f: Field): seq<nat>
    requires WellTyped(f)
  {
    match f
    case Data(_, bytes) => BytesWords(bytes)
    case Routes(hops) => BytesWords(RouteBytes(hops))
    case Number(_, value) => W.Written(value, W.SizeOfNumber(value))
    case Fallback(version, address) => W.Written(version, 1) + BytesWords(address)
  }

  function Encoded(f: Field): seq<nat>
    requires WellTyped(f)
  {
    W.Written(KindOf(f), 1) + W.Written(LengthOf(f), 2) + Payload(f)
  }

  predicate AllTyped(fields: seq<Field>) {
    forall i :: 0 <= i < |fields| ==> WellTyped(fields[i])
  }

  function EncodedAll(fields: seq<Field>): seq<nat>
    requires AllTyped(fields)
    decreases |fields|
  {
    if fields == [] then [] else EncodedAll(fields[..|fields| - 1]) + Encoded(fields[|fields| - 1])
  }

  method WritePayload(writer: W.WordCursor, f: Field)
    requires WellTyped(f)
    modifies writer`words
    ensures writer.words == old(writer.words) + Payload(f)
  {
    hide W.Written, Fits, BufferToWords, RouteBytes, IsHop;
    match f {
      case Data(_, bytes) => writer.WriteBytes(bytes);
      case Routes(hops) =>
        RouteBytesFit(hops);
        writer.WriteBytes(RouteBytes(hops));
      case Number(_, value) => var _ := writer.WriteUIntBE(value, W.SizeOfNumber(value));
      case Fallback(version, address) =>
        var _ := writer.WriteUIntBE(version, 1);
        writer.WriteBytes(address);
    }
  }

  method WriteField(writer: W.WordCursor, f: Field)
    requires WellTyped(f)
    modifies writer`words
    ensures writer.words == old(writer.words) + Encoded(f)
  {
    hide WellTyped, Payload, LengthOf, W.Written, KindOf;
    ghost var start := writer.words;
    var _ := writer.WriteUIntBE(KindOf(f), 1);
    var _ := writer.WriteUIntBE(LengthOf(f), 2);
    WritePayload(writer, f);
    assert writer.words == start + (W.Written(KindOf(f), 1) + W.Written(LengthOf(f), 2) + Payload(f));
  }

  lemma {:induction false} EncodedStep(fields: seq<Field>, i: nat, before: seq<nat>)
    requires AllTyped(fields) && i < |fields|
    ensures before + EncodedAll(fields[..i + 1]) == before + EncodedAll(fields[..i]) + Encoded(fields[i])
  {
    hide Encoded;
    assert fields[..i + 1][..i] == fields[..i];
    Associate(before, EncodedAll(fields[..i]), Encoded(fields[i]));
  }

  lemma {:induction false} Associate(a: seq<nat>, b: seq<nat>, c: seq<nat>)
    ensures (a + b) + c == a + (b + c)
  {
  }

  method EncodeData(writer: W.WordCursor, fields: seq<Field>)
    requires AllTyped(fields)
    modifies writer`words
    ensures writer.words == old(writer.words) + EncodedAll(fields)
  {
    ghost var before := writer.words;
    assert before + EncodedAll(fields[..0]) == before;
    hide Encoded, WellTyped, EncodedAll;
    for i := 0 to |fields|
      invariant writer.words == before + EncodedAll(fields[..i])
    {
      WriteField(writer, fields[i]);
      EncodedStep(fields, i, before);
    }
    assert fields[..|fields|] == fields;
  }

  // ---------------------------------------------------------------------------
  // Reading a field

  datatype Reading = Padding(next: nat) | Known(field: Field, next: nat) | Unknown(field: Field, next: nat) | Throws

  /** Fields of another length than theirs, or with a version or type that is not known, are kept apart. */
  predicate Standard(f: Field, length: int) {
    match f
    case Data(kind, _) =>
      if kind == PAYMENT_HASH || kind == HASH_DESC then length == 52
      else if kind == PAYEE_NODE then length == 53
      else kind == SHORT_DESC
    case Routes(_) => true
    case Number(_, _) => true
    case Fallback(version, _) => version == 0 || version == 17 || version == 18
  }

  function Kept(f: Field, length: int, next: nat): Reading {
    if Standard(f, length) then Known(f, next) else Unknown(f, next)
  }

  function WordsAt(ws: seq<nat>, pos: nat, n: int): seq<nat> {
    W.Slice(ws, pos, pos + n)
  }

  /** The value of a field of a type and length. */
  function ValueAt(ws: seq<nat>, kind: nat, length: nat, pos: nat): (r: Reading)
    requires kind > 0
    ensures !r.Throws? ==> r.next == pos + length
  {
    if kind == EXPIRY || kind == MIN_FINAL_CLTV_EXPIRY then
      Known(Number(kind, W.ReadOf(WordsAt(ws, pos, length))), pos + length)
    else if kind == FALLBACK_ADDRESS then
      var version, address := W.ReadOf(WordsAt(ws, pos, 1)), WordsToBuffer(WordsAt(ws, pos + 1, length - 1), false);
      if address.None? then Throws else Kept(Fallback(version, address.value), length, pos + length)
    else
      var bytes := WordsToBuffer(WordsAt(ws, pos, length), false);
      if bytes.None? then Throws
      else if kind == ROUTE then
        var hops := HopsOf(bytes.value);
        if hops.None? then Throws else Kept(Routes(hops.value), length, pos + length)
      else Kept(Data(kind, bytes.value), length, pos + length)
  }

  /** Type 0 is padding: its length is read, its words are not skipped. */
  function FieldAt(ws: seq<nat>, pos: nat): (r: Reading)
    requires Bech32.Symbols(ws)
    ensures !r.Throws? ==> r.next >= pos + 3
  {
    HeaderReads(ws, pos);
    var kind, length := W.ReadOf(WordsAt(ws, pos, 1)), W.ReadOf(WordsAt(ws, pos + 1, 2));
    if kind == 0 then Padding(pos + 3) else ValueAt(ws, kind, length, pos + 3)
  }

  lemma {:induction false} HeaderReads(ws: seq<nat>, pos: nat)
    requires Bech32.Symbols(ws)
    ensures 0 <= W.ReadOf(WordsAt(ws, pos, 1)) < 32
    ensures 0 <= W.ReadOf(WordsAt(ws, pos + 1, 2)) < 1024
  {
    hide W.ReadOf, W.Slice;
    SliceLength(ws, pos, 1);
    SliceLength(ws, pos + 1, 2);
    ShortReads(WordsAt(ws, pos, 1));
    ShortReads(WordsAt(ws, pos + 1, 2));
  }

  lemma SliceLength(ws: seq<nat>, pos: nat, n: nat)
    ensures |WordsAt(ws, pos, n)| <= n
    ensures pos + n <= |ws| ==> WordsAt(ws, pos, n) == ws[pos..pos + n]
  {
  }

  lemma {:induction false} ShortReads(words: seq<nat>)
    requires Bech32.Symbols(words) && |words| <= 2
    ensures 0 <= W.ReadOf(words) < 1024 && (|words| <= 1 ==> W.ReadOf(words) < 32)
  {
    W.ReadIsNumber(words);
    assert W.Pow32(1) == 32 && W.Pow32(2) == 1024;
    hide W.ReadOf;
  }

  datatype Fields = Fields(known: seq<Field>, unknown: seq<Field>, next: nat)

  /** The field loop: as long as more is left than the signature. None is an exception. */
  function FieldsFrom(ws: seq<nat>, pos: nat): Option<Fields>
    requires Bech32.Symbols(ws)
    decreases |ws| - pos
  {
    if |ws| - pos <= SIGNATURE_WORDS then Some(Fields([], [], pos)) else
    match FieldAt(ws, pos)
    case Throws => None
    case Padding(next) => FieldsFrom(ws, next)
    case Known(f, next) =>
      var rest := FieldsFrom(ws, next);
      if rest.None? then None else Some(rest.value.(known := [f] + rest.value.known))
    case Unknown(f, next) =>
      var rest := FieldsFrom(ws, next);
      if rest.None? then None else Some(rest.value.(unknown := [f] + rest.value.unknown))
  }

  method ReadValue(cursor: W.WordCursor, kind: nat, length: nat) returns (r: Reading)
    requires kind > 0 && cursor.position >= 0 && Bech32.Symbols(cursor.words)
    modifies cursor`position
    ensures r == ValueAt(cursor.words, kind, length, old(cursor.position))
    ensures !r.Throws? ==> cursor.position == r.next
  {
    hide W.ReadOf, WordsToBuffer, HopsOf;
    if kind == EXPIRY || kind == MIN_FINAL_CLTV_EXPIRY {
      var value := cursor.ReadUIntBE(length);
      return Known(Number(kind, value), cursor.position);
    }
    if kind == FALLBACK_ADDRESS {
      var version := cursor.ReadUIntBE(1);
      var address := cursor.ReadBytes(length - 1, false);
      if address.None? { return Throws; }
      return Kept(Fallback(version, address.value), length, cursor.position);
    }
    var bytes := cursor.ReadBytes(length, false);
    if bytes.None? { return Throws; }
    if kind == ROUTE {
      var hops := ReadHops(bytes.value);
      if hops.None? { return Throws; }
      return Kept(Routes(hops.value), length, cursor.position);
    }
    return Kept(Data(kind, bytes.value), length, cursor.position);
  }

  method ReadField(cursor: W.WordCursor) returns (r: Reading)
    requires cursor.position >= 0 && Bech32.Symbols(cursor.words)
    modifies cursor`position
    ensures r == FieldAt(cursor.words, old(cursor.position))
    ensures !r.Throws? ==> cursor.position == r.next
  {
    hide W.ReadOf, ValueAt, W.Slice;
    HeaderReads(cursor.words, cursor.position);
    var kind := cursor.ReadUIntBE(1);
    var length := cursor.ReadUIntBE(2);
    if kind == 0 { return Padding(cursor.position); }
    r := ReadValue(cursor, kind, length);
  }

  function Joined(known: seq<Field>, unknown: seq<Field>, rest: Option<Fields>): Option<Fields> {
    if rest.None? then None
    else Some(Fields(known + rest.value.known, unknown + rest.value.unknown, rest.value.next))
  }

  lemma {:induction false} JoinedNothing(rest: Option<Fields>)
    ensures Joined([], [], rest) == rest
  {
    if rest.Some? {
      assert [] + rest.value.known == rest.value.known && [] + rest.value.unknown == rest.value.unknown;
    }
  }

  lemma {:induction false} JoinedStep(ws: seq<nat>, pos: nat, known: seq<Field>, unknown: seq<Field>)
    requires Bech32.Symbols(ws) && |ws| - pos > SIGNATURE_WORDS
    ensures var r := FieldAt(ws, pos); var all := Joined(known, unknown, FieldsFrom(ws, pos));
            && (r.Throws? ==> all == None)
            && (r.Padding? ==> all == Joined(known, unknown, FieldsFrom(ws, r.next)))
            && (r.Known? ==> all == Joined(known + [r.field], unknown, FieldsFrom(ws, r.next)))
            && (r.Unknown? ==> all == Joined(known, unknown + [r.field], FieldsFrom(ws, r.next)))
  {
    hide FieldAt;
    var r := FieldAt(ws, pos);
    if !r.Throws? && FieldsFrom(ws, r.next).Some? {
      var rest := FieldsFrom(ws, r.next).value;
      if r.Known? { assert known + ([r.field] + rest.known) == known + [r.field] + rest.known; }
      if r.Unknown? { assert unknown + ([r.field] + rest.unknown) == unknown + [r.field] + rest.unknown; }
    }
  }

  /** The field loop of `decode`; each turn moves on by three words at least, so it ends. */
  method DecodeFields(cursor: W.WordCursor) returns (r: Option<Fields>)
    requires cursor.position >= 0 && Bech32.Symbols(cursor.words)
    modifies cursor`position
    ensures r == FieldsFrom(cursor.words, old(cursor.position))
    ensures r.Some? ==> cursor.position == r.value.next
  {
    hide FieldAt, FieldsFrom, Joined;
    var fields, unknownFields: seq<Field> := [], [];
    JoinedNothing(FieldsFrom(cursor.words, cursor.position));
    while cursor.WordsRemaining() > SIGNATURE_WORDS
      invariant cursor.position >= 0
      invariant FieldsFrom(cursor.words, old(cursor.position)) ==
                Joined(fields, unknownFields, FieldsFrom(cursor.words, cursor.position))
      decreases cursor.WordsRemaining()
    {
      JoinedStep(cursor.words, cursor.position, fields, unknownFields);
      var f := ReadField(cursor);
      match f {
        case Throws => return None;
        case Padding(_) =>
        case Known(field, _) => fields := fields + [field];
        case Unknown(field, _) => unknownFields := unknownFields + [field];
      }
    }
    FieldsEnd(cursor.words, cursor.position, fields, unknownFields);
    return Some(Fields(fields, unknownFields, cursor.position));
  }

  lemma {:induction false} FieldsEnd(ws: seq<nat>, pos: nat, known: seq<Field>, unknown: seq<Field>)
    requires Bech32.Symbols(ws) && |ws| - pos <= SIGNATURE_WORDS
    ensures Joined(known, unknown, FieldsFrom(ws, pos)) == Some(Fields(known, unknown, pos))
  {
    assert known + [] == known && unknown + [] == unknown;
  }

  // ---------------------------------------------------------------------------
  // Round trip

  /** A field that fits its header and a signed 32-bit number. */
  predicate Writable(f: Field)
  {
    && WellTyped(f) && 0 < KindOf(f) < 32 && LengthOf(f) < 1024
    && (f.Number? ==> f.value < 0x8000_0000)
    && (f.Fallback? ==> f.version < 32)
  }

  lemma {:induction false} WordsAtMiddle(pre: seq<nat>, mid: seq<nat>, post: seq<nat>)
    ensures WordsAt(pre + mid + post, |pre|, |mid|) == mid
  {
  }

  lemma {:induction false} PayloadLength(f: Field)
    requires WellTyped(f)
    ensures |Payload(f)| == LengthOf(f) && Bech32.Symbols(Payload(f))
  {
    hide W.SizeOfNumber, W.SizeOfBytes, BufferToWords, RouteBytes, IsHop, Fits;
    match f
    case Data(_, bytes) => W.BytesTakeSize(bytes);
    case Routes(hops) =>
      RouteBytesFit(hops);
      W.BytesTakeSize(RouteBytes(hops));
    case Number(_, _) =>
    case Fallback(_, address) => W.BytesTakeSize(address);
  }

  lemma {:induction false} NumberBack(value: nat, n: nat)
    requires value < 0x8000_0000 && value < W.Pow32(n)
    ensures W.ReadOf(W.Written(value, n)) == value
  {
    W.NumberRoundTripIff(value, n);
  }

  lemma {:induction false} FallbackBack(pre: seq<nat>, version: nat, address: seq<nat>, post: seq<nat>)
    requires version < 32 && Fits(address, 8)
    ensures var ws := pre + (W.Written(version, 1) + BytesWords(address)) + post;
            && W.ReadOf(WordsAt(ws, |pre|, 1)) == version
            && WordsToBuffer(WordsAt(ws, |pre| + 1, W.SizeOfBytes(|address|)), false) == Some(address)
  {
    assert W.Pow32(1) == 32;
    NumberBack(version, 1);
    W.BytesTakeSize(address);
    hide W.SizeOfBytes, WordsToBuffer, Fits, W.Written, W.ReadOf, WordsAt, BytesWords;
    var v, a := W.Written(version, 1), BytesWords(address);
    Splits(pre, v, a, post);
    WordsAtMiddle(pre, v, a + post);
    WordsAtMiddle(pre + v, a, post);
    BytesWordsIs(address);
  }

  lemma BytesWordsIs(bytes: seq<nat>)
    ensures BytesWords(bytes) == BufferToWords(bytes, true).value
  {
  }

  lemma {:induction false} Splits(pre: seq<nat>, a: seq<nat>, b: seq<nat>, post: seq<nat>)
    ensures pre + (a + b) + post == pre + a + (b + post) == (pre + a) + b + post
  {
  }

  /** What a field written between any words is read as. */
  lemma {:induction false} ValueBack(pre: seq<nat>, f: Field, post: seq<nat>)
    requires Writable(f)
    ensures ValueAt(pre + Payload(f) + post, KindOf(f), LengthOf(f), |pre|) == Kept(f, LengthOf(f), |pre| + LengthOf(f))
  {
    PayloadLength(f);
    WordsAtMiddle(pre, Payload(f), post);
    if f.Fallback? {
      FallbackBack(pre, f.version, f.address, post);
      hide W.SizeOfBytes, WordsToBuffer, Fits, W.Written, W.ReadOf, WordsAt, BytesWords, Kept;
    } else {
      hide W.SizeOfNumber, W.SizeOfBytes, BufferToWords, WordsToBuffer, RouteBytes, IsHop, Fits, HopsOf;
      hide WordsAt, W.Written, W.ReadOf, Kept;
      match f
      case Data(_, bytes) => W.BytesTakeSize(bytes);
      case Routes(hops) =>
        RouteBytesFit(hops);
        W.BytesTakeSize(RouteBytes(hops));
        RoutesBack(hops);
      case Number(_, value) => NumberBack(value, W.SizeOfNumber(value));
    }
  }

  lemma {:induction false} HeaderBack(pre: seq<nat>, f: Field, post: seq<nat>)
    requires Writable(f)
    ensures W.ReadOf(WordsAt(pre + Encoded(f) + post, |pre|, 1)) == KindOf(f)
    ensures W.ReadOf(WordsAt(pre + Encoded(f) + post, |pre| + 1, 2)) == LengthOf(f)
    ensures pre + Encoded(f) + post == (pre + W.Written(KindOf(f), 1) + W.Written(LengthOf(f), 2)) + Payload(f) + post
  {
    assert W.Pow32(1) == 32 && W.Pow32(2) == 1024;
    NumberBack(KindOf(f), 1);
    NumberBack(LengthOf(f), 2);
    var k, l, v := W.Written(KindOf(f), 1), W.Written(LengthOf(f), 2), Payload(f);
    hide W.Written, W.ReadOf, Payload, LengthOf, KindOf, WellTyped, WordsAt;
    Associate(k, l, v);
    Splits(pre, k, l + v, post);
    Splits(pre + k, l, v, post);
    WordsAtMiddle(pre, k, (l + v) + post);
    WordsAtMiddle(pre + k, l, v + post);
  }

  lemma {:induction false} EncodedSymbols(f: Field)
    requires WellTyped(f)
    ensures |Encoded(f)| == 3 + LengthOf(f) && Bech32.Symbols(Encoded(f))
  {
    PayloadLength(f);
    hide Payload, LengthOf, KindOf, WellTyped, W.Written;
  }

  lemma {:induction false} FieldBack(pre: seq<nat>, f: Field, post: seq<nat>)
    requires Writable(f) && Bech32.Symbols(pre + Encoded(f) + post)
    ensures FieldAt(pre + Encoded(f) + post, |pre|) == Kept(f, LengthOf(f), |pre| + |Encoded(f)|)
  {
    EncodedSymbols(f);
    HeaderBack(pre, f, post);
    var head := pre + W.Written(KindOf(f), 1) + W.Written(LengthOf(f), 2);
    ValueBack(head, f, post);
    hide Encoded, Payload, LengthOf, KindOf, WellTyped, Kept, ValueAt, WordsAt, W.Written, W.ReadOf;
  }

  // ---------------------------------------------------------------------------
  // All fields

  predicate AllWritable(fields: seq<Field>) {
    forall i :: 0 <= i < |fields| ==> Writable(fields[i])
  }

  /** The fields with their own length and a known type and version, or the others. */
  function Sorted(fields: seq<Field>, standard: bool): seq<Field>
    requires AllTyped(fields)
  {
    if fields == [] then []
    else if Standard(fields[0], LengthOf(fields[0])) == standard then [fields[0]] + Sorted(fields[1..], standard)
    else Sorted(fields[1..], standard)
  }

  /** The encoding from the front. */
  lemma {:induction false} EncodedFirst(fields: seq<Field>)
    requires AllTyped(fields) && fields != []
    ensures EncodedAll(fields) == Encoded(fields[0]) + EncodedAll(fields[1..])
    decreases |fields|
  {
    hide Encoded, WellTyped;
    if |fields| == 1 {
      assert fields[..0] == [] && fields[1..] == [];
      assert EncodedAll(fields[..0]) == [];
    } else {
      var last := |fields| - 1;
      EncodedFirst(fields[..last]);
      assert fields[..last][1..] == fields[1..][..last - 1] && fields[1..][last - 1] == fields[last];
      Associate(Encoded(fields[0]), EncodedAll(fields[1..][..last - 1]), Encoded(fields[last]));
    }
  }

  lemma {:induction false} AllSymbols(fields: seq<Field>)
    requires AllTyped(fields)
    ensures Bech32.Symbols(EncodedAll(fields))
    decreases |fields|
  {
    hide Encoded, WellTyped;
    if fields != [] {
      AllSymbols(fields[..|fields| - 1]);
      EncodedSymbols(fields[|fields| - 1]);
    }
  }

  lemma {:induction false} SymbolsOfThree(a: seq<nat>, b: seq<nat>, c: seq<nat>)
    requires Bech32.Symbols(a) && Bech32.Symbols(b) && Bech32.Symbols(c)
    ensures Bech32.Symbols(a + b + c)
  {
  }

  /** The field loop gets back every list of writable fields, and stops exactly at the signature. */
  lemma {:induction false} FieldsBack(pre: seq<nat>, fields: seq<Field>, signature: seq<nat>)
    requires AllTyped(fields) && AllWritable(fields)
    requires Bech32.Symbols(pre) && Bech32.Symbols(signature) && |signature| == SIGNATURE_WORDS
    ensures Bech32.Symbols(pre + EncodedAll(fields) + signature)
    ensures FieldsFrom(pre + EncodedAll(fields) + signature, |pre|) ==
            Some(Fields(Sorted(fields, true), Sorted(fields, false), |pre| + |EncodedAll(fields)|))
    decreases |fields|
  {
    hide Encoded, Writable, WellTyped, LengthOf, Standard, FieldAt, Bech32.Symbols;
    AllSymbols(fields);
    SymbolsOfThree(pre, EncodedAll(fields), signature);
    if fields == [] {
      assert pre + [] + signature == pre + signature;
    } else {
      var f, rest := fields[0], fields[1..];
      var e := Encoded(f);
      EncodedSymbols(f);
      EncodedFirst(fields);
      AllSymbols(rest);
      hide EncodedAll;
      Splits(pre, e, EncodedAll(rest), signature);
      SymbolsOfBoth(pre, e);
      FieldsBack(pre + e, rest, signature);
      FieldBack(pre, f, EncodedAll(rest) + signature);
    }
  }

  lemma {:induction false} SymbolsOfBoth(a: seq<nat>, b: seq<nat>)
    requires Bech32.Symbols(a) && Bech32.Symbols(b)
    ensures Bech32.Symbols(a + b)
  {
  }
}
