/**
 Messages on the wire, in the terms of BOLT #8: the bytes of the n-th message of a direction, and what a
 socket makes of any bytes at all, honest or not.
*/
module NoiseWire {
  import opened Common
  import opened NoiseState
  import opened NoiseSocket
  import opened NoiseStream
  import opened NoiseHandshake

  // ---------------------------------------------------------------------------
  // The n-th message

  /** The keys of a direction, one every 500 messages: each is derived from the one before and its chaining key. */
  ghost predicate KeyChain(c: Crypto, k: Channel, chain: seq<Mixed>) {
    && chain != [] && chain[0] == Mixed(k.ck, k.key)
    && forall i :: 0 < i < |chain| ==> MixedIn(c, chain[i - 1].temp, chain[i - 1].ck, chain[i])
  }

  lemma {:induction false} EpochIs(c: Crypto, k: Channel, chain: seq<Mixed>, e: nat)
    requires |k.nonce| == 12 && KeyChain(c, k, chain) && e < |chain|
    ensures Epoch(c, k, e).key == chain[e].temp && Epoch(c, k, e).ck == chain[e].ck
  {
    if e > 0 {
      EpochIs(c, k, chain, e - 1);
      MixedIs(c, chain[e - 1].temp, chain[e - 1].ck, chain[e]);
    }
  }

  /** A length in two bytes, the higher first. */
  predicate IsLength(l: Bytes, n: nat) {
    |l| == 2 && 256 * l[0] as int + l[1] as int == n
  }

  lemma {:induction false} LengthIs(l: Bytes, n: nat)
    requires IsLength(l, n)
    ensures n < 0x10000 && l == UInt16BE(n)
  {
  }

  /**
   The n-th message is its length and then itself, each sealed under the key of its five hundred, with
   no associated data and with nonces that count both from the last rotation on.
  */
  lemma {:induction false} MessageIs(
    c: Crypto, k: Channel, n: nat, m: Bytes, chain: seq<Mixed>, length: Bytes, even: Bytes, odd: Bytes)
    requires Counts(k.nonce, 0) && |m| < 0x10000 && KeyChain(c, k, chain) && |chain| == n / 500 + 1
    requires IsLength(length, |m|) && Counts(even, 2 * (n % 500)) && Counts(odd, 2 * (n % 500) + 1)
    ensures CounterInRange(k.nonce)
    ensures var key := chain[n / 500].temp;
            Frame(c, AfterFrames(c, k, n), m) == c.encrypt(key, even, [], length) + c.encrypt(key, odd, [], m)
    ensures AfterFrames(c, k, n).ck == chain[n / 500].ck
  {
    CountsIsNonce(k.nonce, 0);
    CountsIsNonce(even, 2 * (n % 500));
    CountsIsNonce(odd, 2 * (n % 500) + 1);
    LengthIs(length, |m|);
    RotationSchedule(c, k, n);
    EpochIs(c, k, chain, n / 500);
    hide Advance, Epoch, Nonce, AfterFrames;
  }

  // ---------------------------------------------------------------------------
  // Any bytes after the handshake

  /** The messages in a stretch of bytes up to where it ends or something in it does not open. */
  datatype Reading = Reading(messages: seq<Bytes>, failed: bool)

  /** 18 bytes that open to a length at least, as many bytes and 16 more that open to a message, and so on. */
  ghost function ReadFrames(c: Crypto, k: Channel, b: Bytes): Reading
    requires CounterInRange(k.nonce)
    decreases |b|, 1
  {
    if |b| < 18 then Reading([], false) else
    var length := c.decrypt(k.key, k.nonce, [], b[..18]);
    if length.None? || |length.value| < 2 then Reading([], true) else
    AdvanceKeepsRange(c, k);
    ReadBody(c, Advance(c, k), 256 * length.value[0] as int + length.value[1] as int, b[18..])
  }

  ghost function ReadBody(c: Crypto, k: Channel, length: nat, b: Bytes): Reading
    requires CounterInRange(k.nonce)
    decreases |b|, 0
  {
    if |b| < length + 16 then Reading([], false) else
    var m := c.decrypt(k.key, k.nonce, [], b[..length + 16]);
    if m.None? then Reading([], true) else
    AdvanceKeepsRange(c, k);
    var rest := ReadFrames(c, Advance(c, k), b[length + 16..]);
    Reading([m.value] + rest.messages, rest.failed)
  }

  /** What a socket would still read of its buffer and the bytes to come. */
  ghost function Rest(c: Crypto, s: Sock, b: Bytes): Reading
    requires SockValid(s) && s.handshake == Ready
  {
    if s.destroyed then Reading([], true)
    else if s.read == ReadyForBody then ReadBody(c, Receiving(s.noise), s.l.value, s.inbuf + b)
    else ReadFrames(c, Receiving(s.noise), s.inbuf + b)
  }

  /** What a socket has read, and would still read. */
  ghost function Total(c: Crypto, s: Sock, b: Bytes): Reading
    requires SockValid(s) && s.handshake == Ready
  {
    var rest := Rest(c, s, b);
    Reading(s.pushed + rest.messages, rest.failed)
  }

  lemma {:induction false} Divided(a: Bytes, b: Bytes, n: nat)
    requires n <= |a|
    ensures (a + b)[..n] == a[..n] && (a + b)[n..] == a[n..] + b
  {
  }

  lemma {:induction false} LengthReads(c: Crypto, s: Sock, b: Bytes)
    requires SockValid(s) && s.handshake == Ready && !s.destroyed && s.read == ReadyForLen
    ensures var s' := TakeLength(c, s).0;
            SockValid(s') && s'.handshake == Ready && Total(c, s', b) == Total(c, s, b)
  {
    hide Advance, ReadBody;
    if |s.inbuf| >= 18 {
      AdvanceKeepsRange(c, Receiving(s.noise));
      Divided(s.inbuf, b, 18);
    }
  }

  lemma {:induction false} BodyReads(c: Crypto, s: Sock, b: Bytes, accept: Schedule)
    requires SockValid(s) && s.handshake == Ready && !s.destroyed && s.read == ReadyForBody
    ensures var s' := TakeBody(c, s, accept).0;
            SockValid(s') && s'.handshake == Ready && Total(c, s', b) == Total(c, s, b)
  {
    hide Advance, ReadFrames;
    var size := s.l.value + 16;
    if |s.inbuf| >= size {
      AdvanceKeepsRange(c, Receiving(s.noise));
      Divided(s.inbuf, b, size);
      var m := c.decrypt(s.noise.rk, s.noise.rn, [], s.inbuf[..size]);
      if m.Some? {
        var rest := ReadFrames(c, Advance(c, Receiving(s.noise)), s.inbuf[size..] + b);
        assert s.pushed + ([m.value] + rest.messages) == (s.pushed + [m.value]) + rest.messages;
      }
    }
  }

  lemma {:induction false} TurnReads(c: Crypto, s: Sock, b: Bytes, accept: Schedule)
    requires SockValid(s) && s.handshake == Ready && !s.destroyed
    ensures var s' := Iteration(c, s, accept).0;
            SockValid(s') && s'.handshake == Ready && Total(c, s', b) == Total(c, s, b)
  {
    hide TakeLength, TakeBody, Total;
    if s.read == ReadyForLen {
      LengthReads(c, s, b);
    } else if s.read == ReadyForBody {
      BodyReads(c, s, b, accept);
    }
  }

  lemma {:induction false} OnDataReads(c: Crypto, s: Sock, b: Bytes, accept: Schedule)
    requires SockValid(s) && s.handshake == Ready
    ensures var s' := OnDataOf(c, s, accept);
            SockValid(s') && s'.handshake == Ready && Total(c, s', b) == Total(c, s, b)
    decreases |s.inbuf|
  {
    hide Iteration, SockValid, Total;
    if !s.destroyed {
      IterationKeepsValid(c, s, accept);
      TurnReads(c, s, b, accept);
      if Iteration(c, s, accept).1 { OnDataReads(c, Iteration(c, s, accept).0, b, accept); }
    }
  }

  lemma {:induction false} ArrivalReads(c: Crypto, s: Sock, chunk: Bytes, b: Bytes)
    requires SockValid(s) && s.handshake == Ready
    ensures var s' := s.(inbuf := s.inbuf + chunk); SockValid(s') && Total(c, s', b) == Total(c, s, chunk + b)
  {
    assert (s.inbuf + chunk) + b == s.inbuf + (chunk + b);
  }

  lemma {:induction false} WriteReads(c: Crypto, s: Sock, data: Bytes, b: Bytes, n: nat)
    requires SockValid(s) && s.handshake == Ready && SentAtMost(s, n) && n < 998
    ensures var s' := WriteOf(c, s, data);
            SockValid(s') && s'.handshake == Ready && Total(c, s', b) == Total(c, s, b)
  {
    WriteKeepsValid(c, s, data);
    WriteMovesNonce(c, s, data, n);
    hide WriteOf, ReadFrames, ReadBody;
  }

  lemma {:induction false} DemandReads(c: Crypto, s: Sock, b: Bytes)
    requires SockValid(s) && s.handshake == Ready
    ensures SockValid(DemandOf(s)) && DemandOf(s).handshake == Ready && Total(c, DemandOf(s), b) == Total(c, s, b)
  {
  }

  /** Whatever the bytes, however they are cut: what is read, now and later, is what is in them. */
  lemma {:induction false} RunReads(c: Crypto, s: Sock, events: seq<Event>, b: Bytes, accept: Schedule)
    requires SockValid(s) && s.handshake == Ready && SentAtMost(s, 0) && Writes(events) < 500
    ensures Run(c, s, events, accept).handshake == Ready
    ensures Total(c, Run(c, s, events, accept), b) == Total(c, s, Arrived(events) + b)
    decreases |events|
  {
    hide SockValid, Total, SentAtMost;
    if events == [] {
      assert Arrived(events) + b == b;
    } else {
      var before, e := events[..|events| - 1], events[|events| - 1];
      RunReads(c, s, before, Brought(e) + b, accept);
      ArrivedStep(events, b);
      WritesCounted(c, s, before, accept);
      var r := Run(c, s, before, accept);
      assert !e.Arrive? ==> Brought(e) + b == b;
      hide Run;
      match e {
        case Arrive(chunk) => ArrivalReads(c, r, chunk, b);
        case Data => OnDataReads(c, r, b, accept);
        case Demand => DemandReads(c, r, b);
        case Write(data) => WriteReads(c, r, data, b, 2 * Writes(before));
      }
    }
  }

  /** A socket whose handshake is done and that has neither read nor written anything since. */
  ghost predicate JustReady(s: Sock) {
    && SockValid(s) && s.handshake == Ready && s.read == ReadyForLen && !s.destroyed
    && s.inbuf == [] && s.pushed == [] && Counts(s.noise.sn, 0)
  }

  /**
   From any peer, honest or not: what a socket pushes is a beginning of the messages in the bytes that
   have arrived; it is destroyed only after the last of them, by bytes that do not open, and pushes
   nothing then. Once the bytes are processed and the consumer does not hold it back, it has pushed all
   of them, and is destroyed if and only if bytes after them do not open.
  */
  lemma {:induction false} AnyBytesRead(c: Crypto, s: Sock, events: seq<Event>, accept: Schedule)
    requires JustReady(s) && Writes(events) < 500
    ensures var r := Run(c, s, events, accept);
            var all := ReadFrames(c, Receiving(s.noise), Arrived(events));
            && r.pushed <= all.messages
            && (r.destroyed ==> all.failed && r.pushed == all.messages)
            && (events != [] && events[|events| - 1] == Data && r.read != Blocked ==>
                  r.pushed == all.messages && r.destroyed == all.failed)
  {
    hide SockValid, Run, SentAtMost, Settled;
    var r := Run(c, s, events, accept);
    JustReadyTotal(c, s, Arrived(events));
    assert Arrived(events) + [] == Arrived(events);
    RunReads(c, s, events, [], accept);
    TotalMeans(c, r);
    if events != [] && events[|events| - 1] == Data && r.read != Blocked && !r.destroyed {
      EndsSettled(c, s, events, accept);
      SettledReadsNoMore(c, r, accept);
    }
  }

  lemma {:induction false} EndsSettled(c: Crypto, s: Sock, events: seq<Event>, accept: Schedule)
    requires SockValid(s) && events != [] && events[|events| - 1] == Data && !Run(c, s, events, accept).destroyed
    ensures Settled(c, Run(c, s, events, accept), accept)
  {
    hide Settled, SockValid;
    OnDataSettles(c, Run(c, s, events[..|events| - 1], accept), accept);
  }

  lemma {:induction false} JustReadyTotal(c: Crypto, s: Sock, b: Bytes)
    requires JustReady(s)
    ensures SentAtMost(s, 0) && Total(c, s, b) == ReadFrames(c, Receiving(s.noise), b)
  {
    assert s.inbuf + b == b;
    hide ReadFrames;
  }

  lemma {:induction false} TotalMeans(c: Crypto, s: Sock)
    requires SockValid(s) && s.handshake == Ready
    ensures s.pushed <= Total(c, s, []).messages && (s.destroyed ==> Total(c, s, []) == Reading(s.pushed, true))
    ensures Rest(c, s, []) == Reading([], false) ==> Total(c, s, []) == Reading(s.pushed, false)
  {
    hide ReadFrames, ReadBody;
    assert s.pushed + [] == s.pushed;
  }

  lemma {:induction false} SettledReadsNoMore(c: Crypto, s: Sock, accept: Schedule)
    requires SockValid(s) && s.handshake == Ready && !s.destroyed && s.read != Blocked && Settled(c, s, accept)
    ensures Rest(c, s, []) == Reading([], false)
  {
    hide Advance;
    assert s.inbuf + [] == s.inbuf;
  }

  // ---------------------------------------------------------------------------
  // Any bytes during the handshake

  /** A destroyed socket stays so, and pushes and sends nothing from what still arrives. */
  lemma {:induction false} DestroyedForever(c: Crypto, s: Sock, events: seq<Event>, accept: Schedule)
    requires SockValid(s) && s.destroyed && Writes(events) == 0
    ensures var r := Run(c, s, events, accept); r.destroyed && r.pushed == s.pushed && r.outbuf == s.outbuf
    decreases |events|
  {
    if events != [] {
      DestroyedForever(c, s, events[..|events| - 1], accept);
    }
  }

  /** What an act in the buffer brings: too few bytes wait; a refused act destroys the socket with nothing sent. */
  ghost predicate ActTaken(s: Sock, s': Sock, more: bool, size: nat, error: Error, reply: Bytes, next: HandshakeState) {
    if |s.inbuf| < size then s' == s && !more
    else
      && s'.inbuf == s.inbuf[size..] && s'.pushed == s.pushed
      && (error != NoError ==> s'.destroyed && !more && s'.handshake == s.handshake && s'.outbuf == s.outbuf)
      && (error == NoError ==>
            s'.destroyed == s.destroyed && more && s'.handshake == next && s'.outbuf == s.outbuf + reply)
  }

  /** A responder answers act 1, and is ready after act 3, each only when it is accepted; an initiator likewise. */
  lemma {:induction false} ActsTaken(c: Crypto, s: Sock, accept: Schedule)
    requires SockValid(s)
    ensures var (s', more) := Iteration(c, s, accept); var b := s.inbuf;
            && (s.handshake == AwaitingInitiator ==>
                  var (n, error) := ReceiveAct1(c, s.noise, if |b| < 50 then b else b[..50]);
                  ActTaken(s, s', more, 50, error, ReceiverAct2(c, n).1, AwaitingInitiatorReply))
            && (s.handshake == AwaitingInitiatorReply ==>
                  var (_, error) := ReceiveAct3(c, s.noise, if |b| < 66 then b else b[..66]);
                  ActTaken(s, s', more, 66, error, [], Ready))
            && (s.handshake == AwaitingResponderReply ==>
                  var (n, error) := InitiatorAct2(c, s.noise, if |b| < 50 then b else b[..50]);
                  ActTaken(s, s', more, 50, error, InitiatorAct3(c, n).1, Ready))
  {
    hide ReceiveAct1, ReceiveAct3, InitiatorAct2, ReceiverAct2, InitiatorAct3;
    assert s.outbuf + [] == s.outbuf;
  }
}
