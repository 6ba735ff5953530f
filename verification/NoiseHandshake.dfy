/**
 The handshake in the terms of BOLT #8: what the three acts of an honest pair say and leave behind,
 spelled with the hash, the derivation, the key agreement and the cipher alone, and exactly which acts
 an end accepts.
*/
module NoiseHandshake {
  import opened Common
  import opened NoiseState

  /** A text as ASCII. */
  predicate Spells(b: Bytes, s: string) {
    |b| == |s| && forall i :: 0 <= i < |s| ==> b[i] as int == s[i] as int
  }

  const NAME := "Noise_XK_secp256k1_ChaChaPoly_SHA256"

  const LIGHTNING := "lightning"

  /** The 96-bit nonce: four zero bytes and a 64-bit little-endian counter. */
  predicate Counts(nonce: Bytes, n: nat) {
    && |nonce| == 12
    && nonce[4] as int + 256 * nonce[5] as int == n
    && forall i :: 0 <= i < 12 && i != 4 && i != 5 ==> nonce[i] == 0
  }

  lemma {:induction false} AsciiSpells(b: Bytes, s: string)
    requires Spells(b, s) && forall i :: 0 <= i < |s| ==> s[i] as int < 256
    ensures b == Ascii(s)
  {
  }

  lemma {:induction false} TheNames(name: Bytes, prologue: Bytes)
    requires Spells(name, NAME) && Spells(prologue, LIGHTNING)
    ensures name == Ascii(PROTOCOL_NAME) && prologue == Ascii(PROLOGUE)
  {
    hide Ascii;
    AsciiSpells(name, NAME);
    AsciiSpells(prologue, LIGHTNING);
  }

  lemma {:induction false} CountsIsNonce(nonce: Bytes, n: nat)
    requires Counts(nonce, n)
    ensures n < 0x10000 && nonce == Nonce(n) && (n == 0 ==> nonce == Zeros(12))
  {
  }

  // ---------------------------------------------------------------------------
  // The acts of an honest pair

  /** The chaining key and the temporary key that mixing a shared secret in gives. */
  datatype Mixed = Mixed(ck: Bytes, temp: Bytes)

  ghost predicate MixedIn(c: Crypto, secret: Bytes, ck: Bytes, r: Mixed) {
    r.ck + r.temp == c.hkdf(secret, ck) && |r.ck| == 32
  }

  lemma {:induction false} MixedIs(c: Crypto, secret: Bytes, ck: Bytes, r: Mixed)
    requires MixedIn(c, secret, ck, r)
    ensures Mix(c, ck, secret) == (r.ck, r.temp)
    ensures FirstHalf(c.hkdf(secret, ck)) == r.ck && SecondHalf(c.hkdf(secret, ck)) == r.temp
  {
    assert c.hkdf(secret, ck)[..32] == r.ck && c.hkdf(secret, ck)[32..] == r.temp;
  }

  /**
   What an honest handshake is. The chaining key goes through es, ee and se; the hash takes in, one after
   the other, the prologue, the responder's static key and all that is sent; each act ends in a tag over
   the hash so far; and the message keys are the two halves of a last derivation.
  */
  lemma {:induction false} HandshakeIs(
    c: Crypto, ils: Bytes, ies: Bytes, rls: Bytes, res: Bytes, name: Bytes, prologue: Bytes, zero: Bytes, one: Bytes,
    a: Mixed, b: Mixed, d: Mixed, keys: Mixed)
    requires Lawful(c) && Spells(name, NAME) && Spells(prologue, LIGHTNING) && Counts(zero, 0) && Counts(one, 1)
    requires MixedIn(c, c.ecdh(c.publicKey(rls), ies), c.sha256(name), a)
    requires MixedIn(c, c.ecdh(c.publicKey(res), ies), a.ck, b)
    requires MixedIn(c, c.ecdh(c.publicKey(res), ils), b.ck, d)
    requires MixedIn(c, [], d.ck, keys)
    ensures var (i, r, m1, m2, m3) := Handshake(c, Created(c, ils, ies), Created(c, rls, res));
            var h0 := c.sha256(c.sha256(c.sha256(name) + prologue) + c.publicKey(rls));
            var h1 := c.sha256(h0 + c.publicKey(ies));
            var t1 := c.encrypt(a.temp, zero, h1, []);
            var h2 := c.sha256(c.sha256(h1 + t1) + c.publicKey(res));
            var t2 := c.encrypt(b.temp, zero, h2, []);
            var h3 := c.sha256(h2 + t2);
            var e := c.encrypt(b.temp, one, h3, c.publicKey(ils));
            var h4 := c.sha256(h3 + e);
            && m1 == [0] + c.publicKey(ies) + t1
            && m2 == [0] + c.publicKey(res) + t2
            && m3 == [0] + e + c.encrypt(d.temp, zero, h4, [])
            && i.ck == r.ck == d.ck && i.h == r.h == h4
            && i.sk == r.rk == keys.ck && i.rk == r.sk == keys.temp
            && i.sn == i.rn == r.sn == r.rn == zero
  {
    TheNames(name, prologue);
    CountsIsNonce(zero, 0);
    CountsIsNonce(one, 1);
    MixedIs(c, c.ecdh(c.publicKey(rls), ies), c.sha256(name), a);
    MixedIs(c, c.ecdh(c.publicKey(res), ies), a.ck, b);
    MixedIs(c, c.ecdh(c.publicKey(res), ils), b.ck, d);
    MixedIs(c, [], d.ck, keys);
  }

  // ---------------------------------------------------------------------------
  // What an end makes of any bytes

  /** An act has its length, the version 0 and a tag that opens; which of these fails tells the error. */
  ghost predicate Judged(error: Error, m: Bytes, length: nat, opens: bool)
    requires length > 0
  {
    && (error == ReadFailed <==> |m| != length)
    && (error == BadVersion <==> |m| == length && m[0] != 0)
    && (error == DecryptFailed <==> |m| == length && m[0] == 0 && !opens)
    && (error == NoError <==> |m| == length && m[0] == 0 && opens)
  }

  /** Act 1: a responder takes 50 bytes from someone who knows its static key. */
  lemma {:induction false} Act1Judged(
    c: Crypto, rls: Bytes, res: Bytes, m: Bytes, name: Bytes, prologue: Bytes, zero: Bytes, a: Mixed)
    requires Spells(name, NAME) && Spells(prologue, LIGHTNING) && Counts(zero, 0)
    requires |m| == 50 ==> MixedIn(c, c.ecdh(m[1..34], rls), c.sha256(name), a)
    ensures var (s, error) := ReceiveAct1(c, Created(c, rls, res), m);
            var h0 := c.sha256(c.sha256(c.sha256(name) + prologue) + c.publicKey(rls));
            && Judged(error, m, 50, |m| == 50 && c.decrypt(a.temp, zero, c.sha256(h0 + m[1..34]), m[34..]).Some?)
            && (error == NoError ==>
                  s.repk == m[1..34] && s.ck == a.ck && s.h == c.sha256(c.sha256(h0 + m[1..34]) + m[34..]))
  {
    TheNames(name, prologue);
    CountsIsNonce(zero, 0);
    if |m| == 50 {
      MixedIs(c, c.ecdh(m[1..34], rls), c.sha256(name), a);
    }
  }

  /** Act 2: an initiator takes 50 bytes that open under the key its ephemeral key and theirs agree on. */
  lemma {:induction false} Act2Judged(c: Crypto, s: State, m: Bytes, zero: Bytes, b: Mixed)
    requires Counts(zero, 0) && (|m| == 50 ==> MixedIn(c, c.ecdh(m[1..34], s.es), s.ck, b))
    ensures var (s', error) := InitiatorAct2(c, s, m);
            && Judged(error, m, 50, |m| == 50 && c.decrypt(b.temp, zero, c.sha256(s.h + m[1..34]), m[34..]).Some?)
            && (error == NoError ==> s' == s.(repk := m[1..34], ck := b.ck, tempK2 := b.temp,
                                              h := c.sha256(c.sha256(s.h + m[1..34]) + m[34..])))
  {
    CountsIsNonce(zero, 0);
    if |m| == 50 {
      MixedIs(c, c.ecdh(m[1..34], s.es), s.ck, b);
    }
  }

  /** Act 3: a responder takes 66 bytes that name a static key and a tag under the key it agrees on with it. */
  lemma {:induction false} Act3Judged(
    c: Crypto, s: State, m: Bytes, zero: Bytes, one: Bytes, rs: Option<Bytes>, d: Mixed, keys: Mixed)
    requires Counts(zero, 0) && Counts(one, 1)
    requires |m| == 66 ==> rs == c.decrypt(s.tempK2, one, s.h, m[1..50])
    requires rs.Some? ==> MixedIn(c, c.ecdh(rs.value, s.es), s.ck, d) && MixedIn(c, [], d.ck, keys)
    ensures var (s', error) := ReceiveAct3(c, s, m);
            && Judged(error, m, 66,
                      |m| == 66 && rs.Some? && c.decrypt(d.temp, zero, c.sha256(s.h + m[1..50]), m[50..]).Some?)
            && (error == NoError ==> s' == s.(rpk := rs.value, h := c.sha256(s.h + m[1..50]), ck := d.ck, tempK3 := d.temp,
                                              rk := keys.ck, sk := keys.temp, sn := zero, rn := zero))
  {
    CountsIsNonce(zero, 0);
    CountsIsNonce(one, 1);
    if rs.Some? {
      MixedIs(c, c.ecdh(rs.value, s.es), s.ck, d);
      MixedIs(c, [], d.ck, keys);
    }
  }
}
