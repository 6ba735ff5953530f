/**
 The Noise_XK handshake of BOLT #8 and the message encryption that follows it.
 Hashing, key derivation, AEAD and ECDH are parameters; `Lawful` lists the only laws relied on.
*/
module NoiseState {
  import opened Common

  datatype Crypto = Crypto(
    sha256: Bytes -> Bytes,
    hkdf: (Bytes, Bytes) -> Bytes,                        // (key material, salt), 64 bytes out
    encrypt: (Bytes, Bytes, Bytes, Bytes) -> Bytes,       // key, nonce, associated data, plaintext
    decrypt: (Bytes, Bytes, Bytes, Bytes) -> Option<Bytes>, // None where the tag does not verify
    publicKey: Bytes -> Bytes,
    ecdh: (Bytes, Bytes) -> Bytes)                        // public key, private key

  ghost predicate Lawful(c: Crypto) {
    && (forall k, n, ad, m :: c.decrypt(k, n, ad, c.encrypt(k, n, ad, m)) == Some(m))
    && (forall k, n, ad, m :: |c.encrypt(k, n, ad, m)| == |m| + 16)
    && (forall ikm, salt :: |c.hkdf(ikm, salt)| == 64)
    && (forall a :: |c.publicKey(a)| == 33)
    && (forall a, b :: c.ecdh(c.publicKey(a), b) == c.ecdh(c.publicKey(b), a))
  }

  /** Key derivation that returns fewer than 64 bytes would be cut short by `slice`. */
  function FirstHalf(b: Bytes): Bytes {
    if |b| < 32 then b else b[..32]
  }

  function SecondHalf(b: Bytes): Bytes {
    if |b| < 32 then [] else b[32..]
  }

  function Zeros(n: nat): (b: Bytes)
    ensures |b| == n
  {
    seq(n, _ => 0)
  }

  function Ascii(s: string): Bytes {
    seq(|s|, i requires 0 <= i < |s| => (s[i] as nat % 256) as Byte)
  }

  const PROTOCOL_NAME := "Noise_XK_secp256k1_ChaChaPoly_SHA256"
  const PROLOGUE := "lightning"

  // ---------------------------------------------------------------------------
  // Nonces: a 12-byte buffer holding a 16-bit little-endian counter at offset 4

  function ReadCounter(nonce: Bytes): nat
    requires |nonce| == 12
  {
    nonce[4] as int + 256 * nonce[5] as int
  }

  function WriteCounter(nonce: Bytes, n: nat): (r: Bytes)
    requires |nonce| == 12 && n < 0x10000
    ensures |r| == 12
  {
    nonce[4 := (n % 256) as Byte][5 := (n / 256) as Byte]
  }

  function Nonce(n: nat): (r: Bytes)
    requires n < 0x10000
    ensures |r| == 12
  {
    WriteCounter(Zeros(12), n)
  }

  lemma NonceCounts(n: nat)
    requires n < 0xffff
    ensures ReadCounter(Nonce(n)) == n
    ensures WriteCounter(Nonce(n), n + 1) == Nonce(n + 1)
    ensures Nonce(0) == Zeros(12)
  {
  }

  /** The literal buffer act 3 encrypts the static key under. */
  function ThirdActNonce(): (r: Bytes)
    ensures r == Nonce(1)
  {
    [0, 0, 0, 0, 1, 0, 0, 0, 0, 0, 0, 0]
  }

  // ---------------------------------------------------------------------------
  // The state and the acts as functions

  datatype State = State(
    ls: Bytes, lpk: Bytes, es: Bytes, epk: Bytes, rpk: Bytes, repk: Bytes,
    h: Bytes, ck: Bytes, rk: Bytes, sk: Bytes, sn: Bytes, rn: Bytes,
    tempK1: Bytes, tempK2: Bytes, tempK3: Bytes)

  datatype Error = NoError | ReadFailed | BadVersion | DecryptFailed

  function Created(c: Crypto, ls: Bytes, es: Bytes): State {
    State(ls, c.publicKey(ls), es, c.publicKey(es), [], [], [], [], [], [], [], [], [], [], [])
  }

  /** Mixes key material into the chaining key: the new chaining key and a fresh key. */
  function Mix(c: Crypto, ck: Bytes, ikm: Bytes): (Bytes, Bytes) {
    (FirstHalf(c.hkdf(ikm, ck)), SecondHalf(c.hkdf(ikm, ck)))
  }

  function Initialized(c: Crypto, s: State, pubkey: Bytes): (r: State)
    ensures r == s.(ck := r.ck, h := r.h)
  {
    var ck := c.sha256(Ascii(PROTOCOL_NAME));
    s.(ck := ck, h := c.sha256(c.sha256(ck + Ascii(PROLOGUE)) + pubkey))
  }

  /** The new handshake hash. */
  function MixHash(c: Crypto, h: Bytes, b: Bytes): Bytes {
    c.sha256(h + b)
  }

  function SharedSecret(c: Crypto, pk: Bytes, sk: Bytes): Bytes {
    c.ecdh(pk, sk)
  }

  function InitiatorAct1(c: Crypto, s: State, rpk: Bytes): (State, Bytes) {
    var s0 := Initialized(c, s.(rpk := rpk), rpk);
    var h1 := MixHash(c, s0.h, s.epk);
    var (ck, k) := Mix(c, s0.ck, SharedSecret(c, rpk, s.es));
    var t := c.encrypt(k, Zeros(12), h1, []);
    (s0.(ck := ck, tempK1 := k, h := MixHash(c, h1, t)), [0] + s.epk + t)
  }

  function ReceiveAct1(c: Crypto, s: State, m: Bytes): (State, Error) {
    var s0 := Initialized(c, s, s.lpk);
    if |m| != 50 then (s0, ReadFailed) else
    var re, t := m[1..34], m[34..];
    var s1 := s0.(repk := re);
    if m[0] != 0 then (s1, BadVersion) else
    var h1 := MixHash(c, s1.h, re);
    var (ck, k) := Mix(c, s1.ck, SharedSecret(c, re, s1.ls));
    var s2 := s1.(h := h1, ck := ck, tempK1 := k);
    if c.decrypt(k, Zeros(12), h1, t).None? then (s2, DecryptFailed)
    else (s2.(h := MixHash(c, h1, t)), NoError)
  }

  function ReceiverAct2(c: Crypto, s: State): (State, Bytes) {
    var h1 := MixHash(c, s.h, s.epk);
    var (ck, k) := Mix(c, s.ck, SharedSecret(c, s.repk, s.es));
    var t := c.encrypt(k, Zeros(12), h1, []);
    (s.(ck := ck, tempK2 := k, h := MixHash(c, h1, t)), [0] + s.epk + t)
  }

  function InitiatorAct2(c: Crypto, s: State, m: Bytes): (State, Error) {
    if |m| != 50 then (s, ReadFailed) else
    var re, t := m[1..34], m[34..];
    var s1 := s.(repk := re);
    if m[0] != 0 then (s1, BadVersion) else
    var h1 := MixHash(c, s1.h, re);
    var (ck, k) := Mix(c, s1.ck, SharedSecret(c, re, s1.es));
    var s2 := s1.(h := h1, ck := ck, tempK2 := k);
    if c.decrypt(k, Zeros(12), h1, t).None? then (s2, DecryptFailed)
    else (s2.(h := MixHash(c, h1, t)), NoError)
  }

  /** The keys messages start under: the initiator's sending key is the responder's receiving key. */
  function WithMessageKeys(c: Crypto, s: State, initiator: bool): State {
    var keys := c.hkdf([], s.ck);
    var (first, second) := (FirstHalf(keys), SecondHalf(keys));
    s.(sk := if initiator then first else second, rk := if initiator then second else first,
       sn := Zeros(12), rn := Zeros(12))
  }

  function InitiatorAct3(c: Crypto, s: State): (State, Bytes) {
    var e := c.encrypt(s.tempK2, Nonce(1), s.h, s.lpk);
    var h1 := MixHash(c, s.h, e);
    var (ck, k) := Mix(c, s.ck, SharedSecret(c, s.repk, s.ls));
    var t := c.encrypt(k, Zeros(12), h1, []);
    (WithMessageKeys(c, s.(h := h1, ck := ck, tempK3 := k), true), [0] + e + t)
  }

  function ReceiveAct3(c: Crypto, s: State, m: Bytes): (State, Error) {
    if |m| != 66 then (s, ReadFailed) else
    var e, t := m[1..50], m[50..];
    if m[0] != 0 then (s, BadVersion) else
    var rs := c.decrypt(s.tempK2, Nonce(1), s.h, e);
    if rs.None? then (s, DecryptFailed) else
    var h1 := MixHash(c, s.h, e);
    var (ck, k) := Mix(c, s.ck, SharedSecret(c, rs.value, s.es));
    var s1 := s.(rpk := rs.value, h := h1, ck := ck, tempK3 := k);
    if c.decrypt(k, Zeros(12), h1, t).None? then (s1, DecryptFailed) else
    (WithMessageKeys(c, s1, false), NoError)
  }

  // ---------------------------------------------------------------------------
  // Messages

  /** What one direction of traffic reads and writes: its key, its nonce and the shared chaining key. */
  datatype Channel = Channel(key: Bytes, nonce: Bytes, ck: Bytes)

  const ROTATE_AT: nat := 1000

  /** The nonce is incremented; at 1000 the key is replaced. */
  function Advance(c: Crypto, k: Channel): (r: Channel)
    requires |k.nonce| == 12 && ReadCounter(k.nonce) < 0xffff
    ensures |r.nonce| == 12
  {
    var n := ReadCounter(k.nonce) + 1;
    if n >= ROTATE_AT then Rotated(c, k) else k.(nonce := WriteCounter(k.nonce, n))
  }

  function Rotated(c: Crypto, k: Channel): (r: Channel)
    ensures |r.nonce| == 12
  {
    var result := c.hkdf(k.key, k.ck);
    Channel(SecondHalf(result), Zeros(12), FirstHalf(result))
  }

  predicate CounterInRange(nonce: Bytes) {
    |nonce| == 12 && ReadCounter(nonce) < ROTATE_AT
  }

  lemma AdvanceKeepsRange(c: Crypto, k: Channel)
    requires CounterInRange(k.nonce)
    ensures CounterInRange(Advance(c, k).nonce)
  {
  }

  function Sending(s: State): Channel {
    Channel(s.sk, s.sn, s.ck)
  }

  function Receiving(s: State): Channel {
    Channel(s.rk, s.rn, s.ck)
  }

  function WithSending(s: State, k: Channel): State {
    s.(sk := k.key, sn := k.nonce, ck := k.ck)
  }

  function WithReceiving(s: State, k: Channel): State {
    s.(rk := k.key, rn := k.nonce, ck := k.ck)
  }

  function UInt16BE(n: nat): (b: Bytes)
    requires n < 0x10000
    ensures |b| == 2
  {
    [(n / 256) as Byte, (n % 256) as Byte]
  }

  function ReadUInt16BE(b: Bytes): nat
    requires |b| >= 2
  {
    256 * b[0] as int + b[1] as int
  }

  /** Encrypts under the channel's current key and nonce. */
  function Seal(c: Crypto, k: Channel, m: Bytes): Bytes {
    c.encrypt(k.key, k.nonce, [], m)
  }

  function Open(c: Crypto, k: Channel, ct: Bytes): Option<Bytes> {
    c.decrypt(k.key, k.nonce, [], ct)
  }

  /** The bytes `encryptMessage` returns. */
  function Frame(c: Crypto, k: Channel, m: Bytes): Bytes
    requires CounterInRange(k.nonce) && |m| < 0x10000
  {
    AdvanceKeepsRange(c, k);
    Seal(c, k, UInt16BE(|m|)) + Seal(c, Advance(c, k), m)
  }

  function AfterFrame(c: Crypto, k: Channel): (r: Channel)
    requires CounterInRange(k.nonce)
    ensures CounterInRange(r.nonce)
  {
    AdvanceKeepsRange(c, k);
    AdvanceKeepsRange(c, Advance(c, k));
    Advance(c, Advance(c, k))
  }

  // ---------------------------------------------------------------------------
  // The class

  class NoiseState {
    const crypto: Crypto
    const ls: Bytes
    const lpk: Bytes
    const es: Bytes
    const epk: Bytes
    var rpk: Bytes
    var repk: Bytes
    var h: Bytes
    var ck: Bytes
    var rk: Bytes
    var sk: Bytes
    var sn: Bytes
    var rn: Bytes
    var tempK1: Bytes
    var tempK2: Bytes
    var tempK3: Bytes

    function View(): State
      reads this
    {
      State(ls, lpk, es, epk, rpk, repk, h, ck, rk, sk, sn, rn, tempK1, tempK2, tempK3)
    }

    constructor (crypto: Crypto, ls: Bytes, es: Bytes)
      ensures this.crypto == crypto && View() == Created(crypto, ls, es)
    {
      this.crypto := crypto;
      this.ls := ls;
      lpk := crypto.publicKey(ls);
      this.es := es;
      epk := crypto.publicKey(es);
      rpk, repk, h, ck, rk, sk, sn, rn := [], [], [], [], [], [], [], [];
      tempK1, tempK2, tempK3 := [], [], [];
    }

    method Initialize(pubkey: Bytes)
      modifies this`h, this`ck
      ensures View() == Initialized(crypto, old(View()), pubkey)
    {
      h := crypto.sha256(Ascii(PROTOCOL_NAME));
      ck := h;
      h := crypto.sha256(h + Ascii(PROLOGUE));
      h := MixHash(crypto, h, pubkey);
    }

    /** `hkdf` and its two halves, the first of which is the new chaining key. */
    method MixKey(ss: Bytes) returns (key: Bytes)
      modifies this`ck
      ensures (ck, key) == Mix(crypto, old(ck), ss)
    {
      var tempK := crypto.hkdf(ss, ck);
      ck := FirstHalf(tempK);
      key := SecondHalf(tempK);
    }

    method InitiatorFirstAct(rpk: Bytes) returns (m: Bytes)
      modifies this`rpk, this`h, this`ck, this`tempK1
      ensures (View(), m) == InitiatorAct1(crypto, old(View()), rpk)
    {
      hide Mix, MixHash, SharedSecret, Zeros, Initialized;
      this.rpk := rpk;
      Initialize(this.rpk);
      h := MixHash(crypto, h, epk);
      var ss := SharedSecret(crypto, this.rpk, es);
      tempK1 := MixKey(ss);
      var t := crypto.encrypt(tempK1, Zeros(12), h, []);
      h := MixHash(crypto, h, t);
      m := [0] + epk + t;
    }

    method ReceiveFirstAct(m: Bytes) returns (error: Error)
      modifies this
      ensures (View(), error) == ReceiveAct1(crypto, old(View()), m)
    {
      hide Mix, MixHash, SharedSecret, Zeros, Initialized;
      Initialize(lpk);
      if |m| != 50 { return ReadFailed; }
      var v, re, t := m[0], m[1..34], m[34..];
      repk := re;
      if v != 0 { return BadVersion; }
      h := MixHash(crypto, h, re);
      var ss := SharedSecret(crypto, re, ls);
      tempK1 := MixKey(ss);
      if crypto.decrypt(tempK1, Zeros(12), h, t).None? { return DecryptFailed; }
      h := MixHash(crypto, h, t);
      return NoError;
    }

    method ReceiverSecondAct() returns (m: Bytes)
      modifies this
      ensures View() == ReceiverAct2(crypto, old(View())).0 && m == ReceiverAct2(crypto, old(View())).1
    {
      hide Mix, Zeros;
      h := MixHash(crypto, h, epk);
      var ss := SharedSecret(crypto, repk, es);
      tempK2 := MixKey(ss);
      var t := crypto.encrypt(tempK2, Zeros(12), h, []);
      h := MixHash(crypto, h, t);
      m := [0] + epk + t;
    }

    method InitiatorSecondAct(m: Bytes) returns (error: Error)
      modifies this
      ensures (View(), error) == InitiatorAct2(crypto, old(View()), m)
    {
      hide Mix, Zeros;
      if |m| != 50 { return ReadFailed; }
      var v, re, t := m[0], m[1..34], m[34..];
      repk := re;
      if v != 0 { return BadVersion; }
      h := MixHash(crypto, h, repk);
      var ss := SharedSecret(crypto, repk, es);
      tempK2 := MixKey(ss);
      if crypto.decrypt(tempK2, Zeros(12), h, t).None? { return DecryptFailed; }
      h := MixHash(crypto, h, t);
      return NoError;
    }

    method InitiatorThirdAct() returns (m: Bytes)
      modifies this
      ensures View() == InitiatorAct3(crypto, old(View())).0 && m == InitiatorAct3(crypto, old(View())).1
    {
      hide Mix, Nonce, ThirdActNonce, Zeros, WithMessageKeys;
      var nonce := ThirdActNonce();
      var e := crypto.encrypt(tempK2, nonce, h, lpk);
      h := MixHash(crypto, h, e);
      var ss := SharedSecret(crypto, repk, ls);
      tempK3 := MixKey(ss);
      var t := crypto.encrypt(tempK3, Zeros(12), h, []);
      DeriveMessageKeys(true);
      m := [0] + e + t;
    }

    /** The last two steps of act 3, at either end. */
    method DeriveMessageKeys(initiator: bool)
      modifies this`sk, this`rk, this`sn, this`rn
      ensures View() == WithMessageKeys(crypto, old(View()), initiator)
    {
      var keys := crypto.hkdf([], ck);
      sk := if initiator then FirstHalf(keys) else SecondHalf(keys);
      rk := if initiator then SecondHalf(keys) else FirstHalf(keys);
      sn, rn := Zeros(12), Zeros(12);
    }

    method ReceiveThirdAct(m: Bytes) returns (error: Error)
      modifies this
      ensures (View(), error) == ReceiveAct3(crypto, old(View()), m)
    {
      if |m| != 66 { return ReadFailed; }
      var v, e, t := m[0], m[1..50], m[50..];
      if v != 0 { return BadVersion; }
      hide Mix, Nonce, ThirdActNonce, Zeros, WithMessageKeys;
      var nonce := ThirdActNonce();
      var rs := crypto.decrypt(tempK2, nonce, h, e);
      if rs.None? { return DecryptFailed; }
      rpk := rs.value;
      h := MixHash(crypto, h, e);
      var ss := SharedSecret(crypto, rpk, es);
      tempK3 := MixKey(ss);
      if crypto.decrypt(tempK3, Zeros(12), h, t).None? { return DecryptFailed; }
      DeriveMessageKeys(false);
      return NoError;
    }

    method IncrementSendingNonce() returns (newValue: nat)
      requires CounterInRange(sn)
      modifies this`sn
      ensures newValue == ReadCounter(old(sn)) + 1 && sn == WriteCounter(old(sn), newValue)
    {
      newValue := ReadCounter(sn) + 1;
      sn := WriteCounter(sn, newValue);
    }

    method IncrementReceivingNonce() returns (newValue: nat)
      requires CounterInRange(rn)
      modifies this`rn
      ensures newValue == ReadCounter(old(rn)) + 1 && rn == WriteCounter(old(rn), newValue)
    {
      newValue := ReadCounter(rn) + 1;
      rn := WriteCounter(rn, newValue);
    }

    method RotateSendingKeys()
      modifies this`sk, this`ck, this`sn
      ensures Sending(View()) == Rotated(crypto, old(Sending(View())))
    {
      var result := crypto.hkdf(sk, ck);
      sk := SecondHalf(result);
      ck := FirstHalf(result);
      sn := Zeros(12);
    }

    method RotateReceivingKeys()
      modifies this`rk, this`ck, this`rn
      ensures Receiving(View()) == Rotated(crypto, old(Receiving(View())))
    {
      var result := crypto.hkdf(rk, ck);
      rk := SecondHalf(result);
      ck := FirstHalf(result);
      rn := Zeros(12);
    }

    method AdvanceSending()
      requires CounterInRange(sn)
      modifies this`sk, this`ck, this`sn
      ensures View() == WithSending(old(View()), Advance(crypto, old(Sending(View()))))
    {
      var n := IncrementSendingNonce();
      if n >= 1000 { RotateSendingKeys(); }
    }

    method AdvanceReceiving()
      requires CounterInRange(rn)
      modifies this`rk, this`ck, this`rn
      ensures View() == WithReceiving(old(View()), Advance(crypto, old(Receiving(View()))))
    {
      var n := IncrementReceivingNonce();
      if n >= 1000 { RotateReceivingKeys(); }
    }

    /** None, with nothing changed, where the source's `writeUInt16BE` throws: the length does not fit. */
    method EncryptMessage(m: Bytes) returns (r: Option<Bytes>)
      requires CounterInRange(sn)
      modifies this`sk, this`ck, this`sn
      ensures r == if |m| < 0x10000 then Some(Frame(crypto, old(Sending(View())), m)) else None
      ensures View() == if |m| < 0x10000 then WithSending(old(View()), AfterFrame(crypto, old(Sending(View())))) else old(View())
    {
      if |m| >= 0x10000 { return None; }
      var l := UInt16BE(|m|);
      var lc := crypto.encrypt(sk, sn, [], l);
      AdvanceKeepsRange(crypto, Sending(View()));
      AdvanceSending();
      var ct := crypto.encrypt(sk, sn, [], m);
      AdvanceSending();
      return Some(lc + ct);
    }

    /** None, with nothing changed, where decryption throws or the plaintext has no two bytes. */
    method DecryptLength(lc: Bytes) returns (r: Option<nat>)
      requires CounterInRange(rn)
      modifies this`rk, this`ck, this`rn
      ensures var l := Open(crypto, old(Receiving(View())), lc);
        && (l.None? ==> r == None && View() == old(View()))
        && (l.Some? ==> View() == WithReceiving(old(View()), Advance(crypto, old(Receiving(View())))))
        && (l.Some? ==> r == if |l.value| >= 2 then Some(ReadUInt16BE(l.value)) else None)
    {
      var l := crypto.decrypt(rk, rn, [], lc);
      if l.None? { return None; }
      AdvanceReceiving();
      if |l.value| < 2 { return None; }
      return Some(ReadUInt16BE(l.value));
    }

    method DecryptMessage(ct: Bytes) returns (r: Option<Bytes>)
      requires CounterInRange(rn)
      modifies this`rk, this`ck, this`rn
      ensures r == Open(crypto, old(Receiving(View())), ct)
      ensures View() == if r.None? then old(View())
                        else WithReceiving(old(View()), Advance(crypto, old(Receiving(View()))))
    {
      r := crypto.decrypt(rk, rn, [], ct);
      if r.None? { return; }
      AdvanceReceiving();
    }
  }

  // ---------------------------------------------------------------------------
  // The handshake

  /** Where both ends stand after act 1, act 2 and act 3. */
  ghost predicate SameTranscript(i: State, r: State) {
    i.h == r.h && i.ck == r.ck
  }

  lemma {:induction false} Act1Agrees(c: Crypto, i: State, r: State)
    requires Lawful(c) && i.epk == c.publicKey(i.es) && r.lpk == c.publicKey(r.ls)
    ensures var (i1, m1) := InitiatorAct1(c, i, r.lpk); var (r1, e1) := ReceiveAct1(c, r, m1);
      |m1| == 50 && e1 == NoError && SameTranscript(i1, r1) && r1.repk == i.epk
      && i1 == i.(rpk := r.lpk, h := i1.h, ck := i1.ck, tempK1 := i1.tempK1)
      && r1 == r.(repk := i.epk, h := r1.h, ck := r1.ck, tempK1 := r1.tempK1)
  {
    var (i1, m1) := InitiatorAct1(c, i, r.lpk);
    assert m1[1..34] == i.epk;
    assert c.ecdh(r.lpk, i.es) == c.ecdh(i.epk, r.ls);
  }

  lemma {:induction false} Act2Agrees(c: Crypto, i: State, r: State)
    requires Lawful(c) && SameTranscript(i, r)
    requires i.epk == c.publicKey(i.es) && r.epk == c.publicKey(r.es) && r.repk == i.epk
    ensures var (r2, m2) := ReceiverAct2(c, r); var (i2, e2) := InitiatorAct2(c, i, m2);
      |m2| == 50 && e2 == NoError && SameTranscript(i2, r2) && i2.tempK2 == r2.tempK2
      && i2 == i.(repk := r.epk, h := i2.h, ck := i2.ck, tempK2 := i2.tempK2)
      && r2 == r.(h := r2.h, ck := r2.ck, tempK2 := r2.tempK2)
  {
    var (r2, m2) := ReceiverAct2(c, r);
    assert m2[1..34] == r.epk;
    assert c.ecdh(i.epk, r.es) == c.ecdh(r.epk, i.es);
  }

  lemma {:induction false} Act3Agrees(c: Crypto, i: State, r: State)
    requires Lawful(c) && SameTranscript(i, r) && i.tempK2 == r.tempK2
    requires i.lpk == c.publicKey(i.ls) && r.epk == c.publicKey(r.es) && i.repk == r.epk
    ensures var (i3, m3) := InitiatorAct3(c, i); var (r3, e3) := ReceiveAct3(c, r, m3);
      |m3| == 66 && e3 == NoError && Mirrored(i3, r3) && r3.rpk == i.lpk
  {
    var (i3, m3) := InitiatorAct3(c, i);
    assert m3[1..50] == c.encrypt(i.tempK2, Nonce(1), i.h, i.lpk);
    assert c.ecdh(r.epk, i.ls) == c.ecdh(i.lpk, r.es);
  }

  /** What each end sends under, the other receives under. */
  ghost predicate Mirrored(i: State, r: State) {
    && SameTranscript(i, r)
    && Sending(i) == Receiving(r)
    && Sending(r) == Receiving(i)
    && i.sn == i.rn == Zeros(12)
  }

  /** The three acts of two honest ends, the initiator knowing the responder's static key. */
  ghost function Handshake(c: Crypto, i: State, r: State): (State, State, Bytes, Bytes, Bytes) {
    var (i1, m1) := InitiatorAct1(c, i, r.lpk);
    var (r1, _) := ReceiveAct1(c, r, m1);
    var (r2, m2) := ReceiverAct2(c, r1);
    var (i2, _) := InitiatorAct2(c, i1, m2);
    var (i3, m3) := InitiatorAct3(c, i2);
    var (r3, _) := ReceiveAct3(c, r2, m3);
    (i3, r3, m1, m2, m3)
  }

  /** No act fails, both ends hold mirrored keys and the responder has learnt who is calling. */
  lemma {:induction false} HandshakeMirrors(c: Crypto, ils: Bytes, ies: Bytes, rls: Bytes, res: Bytes)
    requires Lawful(c)
    ensures var i, r := Created(c, ils, ies), Created(c, rls, res);
      var (i3, r3, m1, m2, m3) := Handshake(c, i, r);
      && |m1| == 50 && |m2| == 50 && |m3| == 66
      && ReceiveAct1(c, r, m1).1 == NoError
      && InitiatorAct2(c, InitiatorAct1(c, i, r.lpk).0, m2).1 == NoError
      && ReceiveAct3(c, ReceiverAct2(c, ReceiveAct1(c, r, m1).0).0, m3).1 == NoError
      && Mirrored(i3, r3) && r3.rpk == c.publicKey(ils)
  {
    var i, r := Created(c, ils, ies), Created(c, rls, res);
    hide InitiatorAct1, ReceiveAct1, ReceiverAct2, InitiatorAct2, InitiatorAct3, ReceiveAct3;
    Act1Agrees(c, i, r);
    var (i1, m1) := InitiatorAct1(c, i, r.lpk);
    var (r1, _) := ReceiveAct1(c, r, m1);
    Act2Agrees(c, i1, r1);
    var (r2, m2) := ReceiverAct2(c, r1);
    var (i2, _) := InitiatorAct2(c, i1, m2);
    Act3Agrees(c, i2, r2);
  }
}
