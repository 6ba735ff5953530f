/**
 Whole runs of a Noise socket: whatever way an honest peer's bytes are cut up, and however the
 consumer pushes back, the messages come out as they went in, and keys rotate every 500 of them.

 The invariant of a run says, for every state of the socket, what it has still to be sent: the rest of
 an act, the rest of a frame, or the frames of the messages that have not been pushed yet.
*/
module NoiseStream {
  import opened Common
  import opened N = NoiseState
  import opened NoiseSocket

  // ---------------------------------------------------------------------------
  // What an honest sender writes

  predicate Sendable(ms: seq<Bytes>) {
    forall i :: 0 <= i < |ms| ==> |ms[i]| < 0x10000
  }

  /** The channel after n messages; what they said does not matter. */
  function AfterFrames(c: Crypto, k: Channel, n: nat): (r: Channel)
    requires CounterInRange(k.nonce)
    ensures CounterInRange(r.nonce)
    decreases n, k
  {
    if n == 0 then k else AfterFrame(c, AfterFrames(c, k, n - 1))
  }

  /** The bytes of a message sequence under one channel. */
  function Frames(c: Crypto, k: Channel, ms: seq<Bytes>): Bytes
    requires CounterInRange(k.nonce) && Sendable(ms)
    decreases |ms|
  {
    if ms == [] then [] else Frame(c, k, ms[0]) + Frames(c, AfterFrame(c, k), ms[1..])
  }

  // ---------------------------------------------------------------------------
  // Runs of the receiving socket

  datatype Event =
    | Arrive(chunk: Bytes)   // bytes reach the TCP socket's buffer
    | Data                   // a "readable" event, or the `setImmediate` of `_read`
    | Demand                 // the consumer asks for more: `_read`
    | Write(data: Bytes)     // the socket's own message to its peer: `_write`

  ghost function Apply(c: Crypto, s: Sock, e: Event, accept: Schedule): (r: Sock)
    requires SockValid(s)
    ensures SockValid(r)
  {
    match e
    case Arrive(chunk) => s.(inbuf := s.inbuf + chunk)
    case Data => OnDataKeepsValid(c, s, accept); OnDataOf(c, s, accept)
    case Demand => DemandOf(s)
    case Write(data) => WriteKeepsValid(c, s, data); WriteOf(c, s, data)
  }

  lemma WriteKeepsValid(c: Crypto, s: Sock, data: Bytes)
    requires SockValid(s)
    ensures SockValid(WriteOf(c, s, data))
  {
    hide AfterFrame, Frame, CounterInRange;
  }

  lemma {:induction false} OnDataKeepsValid(c: Crypto, s: Sock, accept: Schedule)
    requires SockValid(s)
    ensures SockValid(OnDataOf(c, s, accept))
    decreases |s.inbuf|
  {
    hide Iteration, SockValid;
    if !s.destroyed {
      IterationKeepsValid(c, s, accept);
      if Iteration(c, s, accept).1 { OnDataKeepsValid(c, Iteration(c, s, accept).0, accept); }
    }
  }

  ghost function Run(c: Crypto, s: Sock, events: seq<Event>, accept: Schedule): (r: Sock)
    requires SockValid(s)
    ensures SockValid(r)
    decreases |events|
  {
    if events == [] then s
    else Apply(c, Run(c, s, events[..|events| - 1], accept), events[|events| - 1], accept)
  }

  function Arrived(events: seq<Event>): Bytes
    decreases |events|
  {
    if events == [] then []
    else
      var before := Arrived(events[..|events| - 1]);
      match events[|events| - 1]
      case Arrive(chunk) => before + chunk
      case _ => before
  }

  function Writes(events: seq<Event>): nat
    decreases |events|
  {
    if events == [] then 0
    else Writes(events[..|events| - 1]) + if events[|events| - 1].Write? then 1 else 0
  }

  // ---------------------------------------------------------------------------
  // The socket's own messages

  /** At most so many uses of the sending key since it was made. */
  predicate SentAtMost(s: Sock, n: nat) {
    s.handshake == Ready ==> |s.noise.sn| == 12 && ReadCounter(s.noise.sn) <= n
  }

  lemma {:induction false} TurnSendsNothing(c: Crypto, s: Sock, accept: Schedule, n: nat)
    requires SockValid(s) && SentAtMost(s, n)
    ensures SentAtMost(Iteration(c, s, accept).0, n)
  {
    NonceCounts(0);
    hide Advance, ReadCounter;
  }

  lemma {:induction false} OnDataSendsNothing(c: Crypto, s: Sock, accept: Schedule, n: nat)
    requires SockValid(s) && SentAtMost(s, n)
    ensures SentAtMost(OnDataOf(c, s, accept), n)
    decreases |s.inbuf|
  {
    hide Iteration, SockValid, SentAtMost;
    if !s.destroyed {
      IterationKeepsValid(c, s, accept);
      TurnSendsNothing(c, s, accept, n);
      if Iteration(c, s, accept).1 { OnDataSendsNothing(c, Iteration(c, s, accept).0, accept, n); }
    }
  }

  /** Short of a rotation a message moves the sending nonce by two, and no key. */
  lemma {:induction false} WriteMovesNonce(c: Crypto, s: Sock, data: Bytes, n: nat)
    requires SockValid(s) && SentAtMost(s, n) && n < 998
    ensures SentAtMost(WriteOf(c, s, data), n + 2)
    ensures WriteOf(c, s, data) == s.(noise := s.noise.(sn := WriteOf(c, s, data).noise.sn), outbuf := WriteOf(c, s, data).outbuf)
  {
    hide Frame;
  }

  /** Run so far, with so many writes. */
  lemma {:induction false} WritesCounted(c: Crypto, s: Sock, events: seq<Event>, accept: Schedule)
    requires SockValid(s) && SentAtMost(s, 0) && Writes(events) < 500
    ensures SentAtMost(Run(c, s, events, accept), 2 * Writes(events))
    decreases |events|
  {
    if events != [] {
      var before, e := events[..|events| - 1], events[|events| - 1];
      WritesCounted(c, s, before, accept);
      var r := Run(c, s, before, accept);
      var n := 2 * Writes(before);
      hide Run, WriteOf, OnDataOf, SockValid;
      match e {
        case Arrive(_) =>
        case Data => OnDataSendsNothing(c, r, accept, n);
        case Demand =>
        case Write(data) => WriteMovesNonce(c, r, data, n);
      }
    }
  }

  // ---------------------------------------------------------------------------
  // In transport: between, or inside, two frames of the sender

  /** What the peer has still to be read for, given where the reader stands. */
  ghost function Remaining(c: Crypto, s: Sock, ms: seq<Bytes>): Bytes
    requires SockValid(s) && s.handshake == Ready && Sendable(ms) && |s.pushed| <= |ms|
  {
    var k, n := Receiving(s.noise), |s.pushed|;
    AdvanceKeepsRange(c, k);
    if s.read == ReadyForBody && n < |ms|
    then Seal(c, k, ms[n]) + Frames(c, Advance(c, k), ms[n + 1..])
    else Frames(c, k, ms[n..])
  }

  /** The receiver's key, nonce and chaining key are the sender's own at the same point of the stream. */
  ghost predicate InStep(c: Crypto, s: Sock, k0: Channel)
    requires CounterInRange(k0.nonce)
  {
    var k := AfterFrames(c, k0, |s.pushed|);
    Receiving(s.noise) == if s.read == ReadyForBody then Advance(c, k) else k
  }

  ghost predicate Transporting(c: Crypto, s: Sock, k0: Channel, ms: seq<Bytes>, future: Bytes) {
    && SockValid(s) && s.handshake == Ready && !s.destroyed
    && Sendable(ms) && CounterInRange(k0.nonce)
    && s.pushed <= ms
    && s.received == |s.pushed|
    && (s.read == ReadyForBody ==> |s.pushed| < |ms| && s.l == Some(|ms[|s.pushed|]|))
    && InStep(c, s, k0)
    && s.inbuf + future == Remaining(c, s, ms)
  }

  lemma UInt16RoundTrip(n: nat)
    requires n < 0x10000
    ensures ReadUInt16BE(UInt16BE(n)) == n
  {
  }

  lemma PrefixOfConcat(a: Bytes, b: Bytes, x: Bytes, y: Bytes)
    requires a + b == x + y && |x| <= |a|
    ensures a[..|x|] == x && a[|x|..] + b == y
  {
    assert x == (x + y)[..|x|] == (a + b)[..|x|] == a[..|x|];
    assert y == (x + y)[|x|..] == (a + b)[|x|..] == a[|x|..] + b;
  }

  /** Reading the length of the next message. */
  lemma {:induction false} LengthTurn(c: Crypto, s: Sock, k0: Channel, ms: seq<Bytes>, future: Bytes)
    requires Lawful(c) && Transporting(c, s, k0, ms, future)
    requires s.read == ReadyForLen && |s.inbuf| >= LEN_BYTES
    ensures Transporting(c, TakeLength(c, s).0, k0, ms, future) && TakeLength(c, s).1
    ensures |s.pushed| < |ms| && TakeLength(c, s).0.pushed == s.pushed
  {
    hide ReadCounter, AfterFrames, ReadUInt16BE, UInt16BE, Advance;
    var n, k := |s.pushed|, Receiving(s.noise);
    AdvanceKeepsRange(c, k);
    var m := ms[n..][0];
    assert ms[n..][1..] == ms[n + 1..];
    UInt16RoundTrip(|m|);
    var head, body := Seal(c, k, UInt16BE(|m|)), Seal(c, Advance(c, k), m);
    var tail := Frames(c, AfterFrame(c, k), ms[n + 1..]);
    assert s.inbuf + future == head + (body + tail);
    PrefixOfConcat(s.inbuf, future, head, body + tail);
  }

  lemma {:induction false} BodyOpens(c: Crypto, s: Sock, m: Bytes, future: Bytes, tail: Bytes, accept: Schedule)
    requires Lawful(c) && CounterInRange(s.noise.rn) && s.l == Some(|m|) && |s.inbuf| >= |m| + MAC_BYTES
    requires s.inbuf + future == Seal(c, Receiving(s.noise), m) + tail
    ensures var s' := TakeBody(c, s, accept).0;
      && s' == s.(noise := WithReceiving(s.noise, Advance(c, Receiving(s.noise))), l := None,
                  received := s.received + 1, pushed := s.pushed + [m], inbuf := s'.inbuf,
                  read := if accept(|s.pushed|) then ReadyForLen else Blocked)
      && s'.inbuf + future == tail
  {
    hide Advance, ReadCounter;
    PrefixOfConcat(s.inbuf, future, Seal(c, Receiving(s.noise), m), tail);
  }

  /** Where the reader stands once a message is pushed. */
  lemma {:induction false} BodyLands(c: Crypto, s: Sock, s': Sock, k0: Channel, ms: seq<Bytes>, future: Bytes)
    requires Transporting(c, s, k0, ms, future) && s.read == ReadyForBody && s'.read != ReadyForBody
    requires s' == s.(noise := WithReceiving(s.noise, Advance(c, Receiving(s.noise))), l := None, inbuf := s'.inbuf,
                      received := s.received + 1, pushed := s.pushed + [ms[|s.pushed|]], read := s'.read)
    requires CounterInRange(Advance(c, Receiving(s.noise)).nonce)
    requires s'.inbuf + future == Frames(c, Advance(c, Receiving(s.noise)), ms[|s.pushed| + 1..])
    ensures Transporting(c, s', k0, ms, future)
  {
    hide ReadCounter, AfterFrames, Advance, Frames;
    AfterOneMore(c, k0, |s.pushed|);
    assert s'.pushed <= ms;
  }

  /** Reading the message itself. */
  lemma {:induction false} BodyTurn(c: Crypto, s: Sock, k0: Channel, ms: seq<Bytes>, future: Bytes, accept: Schedule)
    requires Lawful(c) && Transporting(c, s, k0, ms, future)
    requires s.read == ReadyForBody && |s.inbuf| >= s.l.value + MAC_BYTES
    ensures Transporting(c, TakeBody(c, s, accept).0, k0, ms, future)
  {
    hide ReadCounter, AfterFrames, Advance, Frames;
    var n, k := |s.pushed|, Receiving(s.noise);
    AdvanceKeepsRange(c, k);
    BodyOpens(c, s, ms[n], future, Frames(c, Advance(c, k), ms[n + 1..]), accept);
    hide TakeBody, Lawful, Transporting, CounterInRange, Seal;
    BodyLands(c, s, TakeBody(c, s, accept).0, k0, ms, future);
  }

  lemma AfterOneMore(c: Crypto, k: Channel, n: nat)
    requires CounterInRange(k.nonce)
    ensures AfterFrames(c, k, n + 1) == AfterFrame(c, AfterFrames(c, k, n))
  {
  }

  lemma {:induction false} TurnTransports(c: Crypto, s: Sock, k0: Channel, ms: seq<Bytes>, future: Bytes, accept: Schedule)
    requires Lawful(c) && Transporting(c, s, k0, ms, future)
    ensures Transporting(c, Iteration(c, s, accept).0, k0, ms, future)
  {
    hide AfterFrames, Frames;
    if s.read == ReadyForLen && |s.inbuf| >= LEN_BYTES {
      LengthTurn(c, s, k0, ms, future);
    } else if s.read == ReadyForBody && |s.inbuf| >= s.l.value + MAC_BYTES {
      BodyTurn(c, s, k0, ms, future, accept);
    }
  }

  // ---------------------------------------------------------------------------
  // The handshake read off the same byte stream

  /** The honest pair a socket is one end of. */
  datatype Pair = Pair(ils: Bytes, ies: Bytes, rls: Bytes, res: Bytes)

  ghost function Initiator0(c: Crypto, p: Pair): State { Created(c, p.ils, p.ies) }

  ghost function Responder0(c: Crypto, p: Pair): State { Created(c, p.rls, p.res) }

  /** What the three acts of an honest pair are: the states of both ends after each, and the messages. */
  datatype Transcript = Transcript(
    i1: State, i2: State, i3: State, r1: State, r2: State, r3: State, m1: Bytes, m2: Bytes, m3: Bytes)

  /** The channel the initiator sends under, and the one the responder sends under. */
  function InitiatorChannel(h: Transcript): Channel { Sending(h.i3) }

  function ResponderChannel(h: Transcript): Channel { Sending(h.r3) }

  predicate InRange(h: Transcript) {
    CounterInRange(InitiatorChannel(h).nonce) && CounterInRange(ResponderChannel(h).nonce)
  }

  ghost predicate Plays(c: Crypto, p: Pair, h: Transcript) {
    && InitiatorAct1(c, Initiator0(c, p), Responder0(c, p).lpk) == (h.i1, h.m1)
    && ReceiveAct1(c, Responder0(c, p), h.m1).0 == h.r1
    && ReceiverAct2(c, h.r1) == (h.r2, h.m2)
    && InitiatorAct2(c, h.i1, h.m2).0 == h.i2
    && InitiatorAct3(c, h.i2) == (h.i3, h.m3)
    && ReceiveAct3(c, h.r2, h.m3).0 == h.r3
    && InRange(h)
  }

  /** Every honest pair has its transcript. */
  lemma {:induction false} HonestPairPlays(c: Crypto, p: Pair) returns (h: Transcript)
    requires Lawful(c)
    ensures Plays(c, p, h)
  {
    hide InitiatorAct1, ReceiveAct1, ReceiverAct2, InitiatorAct2, InitiatorAct3, ReceiveAct3;
    var (i1, m1) := InitiatorAct1(c, Initiator0(c, p), Responder0(c, p).lpk);
    var r1 := ReceiveAct1(c, Responder0(c, p), m1).0;
    var (r2, m2) := ReceiverAct2(c, r1);
    var i2 := InitiatorAct2(c, i1, m2).0;
    var (i3, m3) := InitiatorAct3(c, i2);
    var r3 := ReceiveAct3(c, r2, m3).0;
    h := Transcript(i1, i2, i3, r1, r2, r3, m1, m2, m3);
    HandshakeMirrors(c, p.ils, p.ies, p.rls, p.res);
    ZeroCounter();
  }

  /** Its acts all succeed, and its ends mirror each other. */
  lemma {:induction false} TranscriptMirrors(c: Crypto, p: Pair, h: Transcript)
    requires Lawful(c) && Plays(c, p, h)
    ensures |h.m1| == 50 && |h.m2| == 50 && |h.m3| == 66
    ensures ReceiveAct1(c, Responder0(c, p), h.m1) == (h.r1, NoError)
    ensures InitiatorAct2(c, h.i1, h.m2) == (h.i2, NoError)
    ensures ReceiveAct3(c, h.r2, h.m3) == (h.r3, NoError)
    ensures Mirrored(h.i3, h.r3) && h.r3.rpk == c.publicKey(p.ils)
  {
    hide InitiatorAct1, ReceiveAct1, ReceiverAct2, InitiatorAct2, InitiatorAct3, ReceiveAct3;
    HandshakeMirrors(c, p.ils, p.ies, p.rls, p.res);
  }

  /** Everything an honest initiator writes to the responder: act 1, act 3 and its messages. */
  ghost function ToResponder(c: Crypto, h: Transcript, ms: seq<Bytes>): Bytes
    requires InRange(h) && Sendable(ms)
  {
    h.m1 + (h.m3 + Frames(c, InitiatorChannel(h), ms))
  }

  /** Everything an honest responder writes to the initiator: act 2 and its messages. */
  ghost function ToInitiator(c: Crypto, h: Transcript, ms: seq<Bytes>): Bytes
    requires InRange(h) && Sendable(ms)
  {
    h.m2 + Frames(c, ResponderChannel(h), ms)
  }

  ghost function ResponderSocket(c: Crypto, p: Pair): (s: Sock)
    ensures SockValid(s)
  {
    Sock(Responder0(c, p), AwaitingInitiator, ReadyForLen, None, 0, [], [], [], false)
  }

  /** The initiator's socket once `_initiateHandshake` has run. */
  ghost function InitiatorSocket(c: Crypto, p: Pair): (s: Sock)
    ensures SockValid(s)
  {
    var (i1, m1) := InitiatorAct1(c, Initiator0(c, p), Responder0(c, p).lpk);
    Sock(i1, AwaitingResponderReply, ReadyForLen, None, 0, [], m1, [], false)
  }

  ghost predicate Untouched(s: Sock) {
    !s.destroyed && s.read == ReadyForLen && s.received == 0 && s.pushed == []
  }

  /** Every state the responder's socket can be in, and what it has still to be sent. */
  ghost predicate ResponderInv(c: Crypto, p: Pair, h: Transcript, s: Sock, ms: seq<Bytes>, future: Bytes)
    requires InRange(h)
  {
    && SockValid(s) && Sendable(ms)
    && match s.handshake
       case AwaitingInitiator =>
         && Untouched(s) && s.outbuf == []
         && s.noise == Responder0(c, p) && s.inbuf + future == ToResponder(c, h, ms)
       case AwaitingInitiatorReply =>
         && Untouched(s) && s.outbuf == h.m2
         && s.noise == h.r2 && s.inbuf + future == h.m3 + Frames(c, InitiatorChannel(h), ms)
       case Ready => Transporting(c, s, InitiatorChannel(h), ms, future) && s.noise.rpk == c.publicKey(p.ils)
       case _ => false
  }

  ghost predicate InitiatorInv(c: Crypto, p: Pair, h: Transcript, s: Sock, ms: seq<Bytes>, future: Bytes)
    requires InRange(h)
  {
    && SockValid(s) && Sendable(ms)
    && match s.handshake
       case AwaitingResponderReply =>
         Untouched(s) && s.noise == h.i1 && s.inbuf + future == ToInitiator(c, h, ms)
       case Ready => Transporting(c, s, ResponderChannel(h), ms, future)
       case _ => false
  }

  lemma {:induction false} StartTransport(c: Crypto, s: Sock, k0: Channel, ms: seq<Bytes>, future: Bytes)
    requires SockValid(s) && s.handshake == Ready && Untouched(s) && Sendable(ms) && CounterInRange(k0.nonce)
    requires Receiving(s.noise) == k0 && s.inbuf + future == Frames(c, k0, ms)
    ensures Transporting(c, s, k0, ms, future)
  {
    assert ms[0..] == ms;
  }

  /** In transport nothing but the receiving channel and the read state moves. */
  lemma TurnKeepsReady(c: Crypto, s: Sock, accept: Schedule)
    requires SockValid(s) && s.handshake == Ready
    ensures Iteration(c, s, accept).0.handshake == Ready && Iteration(c, s, accept).0.noise.rpk == s.noise.rpk
  {
  }

  lemma {:induction false} ResponderTakesAct1(c: Crypto, p: Pair, h: Transcript, s: Sock, ms: seq<Bytes>, future: Bytes)
    requires Lawful(c) && Plays(c, p, h) && ResponderInv(c, p, h, s, ms, future) && s.handshake == AwaitingInitiator
    ensures ResponderInv(c, p, h, TakeAct1(c, s).0, ms, future)
  {
    hide ReceiveAct1, ReceiverAct2, ReceiveAct3, InitiatorAct1, InitiatorAct2, InitiatorAct3, Frames, Transporting;
    TranscriptMirrors(c, p, h);
    if |s.inbuf| >= 50 {
      PrefixOfConcat(s.inbuf, future, h.m1, h.m3 + Frames(c, InitiatorChannel(h), ms));
    }
  }

  lemma {:induction false} ResponderTakesAct3(c: Crypto, p: Pair, h: Transcript, s: Sock, ms: seq<Bytes>, future: Bytes)
    requires Lawful(c) && Plays(c, p, h) && ResponderInv(c, p, h, s, ms, future) && s.handshake == AwaitingInitiatorReply
    ensures ResponderInv(c, p, h, TakeAct3(c, s).0, ms, future)
  {
    hide ReceiveAct1, ReceiverAct2, ReceiveAct3, InitiatorAct1, InitiatorAct2, InitiatorAct3, Frames, Transporting;
    TranscriptMirrors(c, p, h);
    ZeroCounter();
    if |s.inbuf| >= 66 {
      PrefixOfConcat(s.inbuf, future, h.m3, Frames(c, InitiatorChannel(h), ms));
      StartTransport(c, TakeAct3(c, s).0, InitiatorChannel(h), ms, future);
    }
  }

  lemma {:induction false} ResponderTurn(c: Crypto, p: Pair, h: Transcript, s: Sock, ms: seq<Bytes>, future: Bytes, accept: Schedule)
    requires Lawful(c) && Plays(c, p, h) && ResponderInv(c, p, h, s, ms, future)
    ensures ResponderInv(c, p, h, Iteration(c, s, accept).0, ms, future)
  {
    hide TakeAct1, TakeAct2, TakeAct3, TakeLength, TakeBody, Transporting;
    match s.handshake {
      case AwaitingInitiator => ResponderTakesAct1(c, p, h, s, ms, future);
      case AwaitingInitiatorReply => ResponderTakesAct3(c, p, h, s, ms, future);
      case Ready =>
        TurnKeepsReady(c, s, accept);
        TurnTransports(c, s, InitiatorChannel(h), ms, future, accept);
        IterationKeepsValid(c, s, accept);
    }
  }

  lemma {:induction false} InitiatorTakesAct2(c: Crypto, p: Pair, h: Transcript, s: Sock, ms: seq<Bytes>, future: Bytes)
    requires Lawful(c) && Plays(c, p, h) && InitiatorInv(c, p, h, s, ms, future) && s.handshake == AwaitingResponderReply
    ensures InitiatorInv(c, p, h, TakeAct2(c, s).0, ms, future)
  {
    hide ReceiveAct1, ReceiverAct2, ReceiveAct3, InitiatorAct1, InitiatorAct2, InitiatorAct3, Frames, Transporting;
    TranscriptMirrors(c, p, h);
    ZeroCounter();
    if |s.inbuf| >= 50 {
      PrefixOfConcat(s.inbuf, future, h.m2, Frames(c, ResponderChannel(h), ms));
      StartTransport(c, TakeAct2(c, s).0, ResponderChannel(h), ms, future);
    }
  }

  lemma {:induction false} InitiatorTurn(c: Crypto, p: Pair, h: Transcript, s: Sock, ms: seq<Bytes>, future: Bytes, accept: Schedule)
    requires Lawful(c) && Plays(c, p, h) && InitiatorInv(c, p, h, s, ms, future)
    ensures InitiatorInv(c, p, h, Iteration(c, s, accept).0, ms, future)
  {
    hide TakeAct1, TakeAct2, TakeAct3, TakeLength, TakeBody, Transporting;
    match s.handshake {
      case AwaitingResponderReply => InitiatorTakesAct2(c, p, h, s, ms, future);
      case Ready =>
        TurnKeepsReady(c, s, accept);
        TurnTransports(c, s, ResponderChannel(h), ms, future, accept);
        IterationKeepsValid(c, s, accept);
    }
  }

  // ---------------------------------------------------------------------------
  // Runs

  /** Which end of the pair a socket is. */
  datatype End = InitiatorEnd | ResponderEnd

  ghost function Fresh(c: Crypto, p: Pair, end: End): (s: Sock)
    ensures SockValid(s)
  {
    if end == ResponderEnd then ResponderSocket(c, p) else InitiatorSocket(c, p)
  }

  /** What the honest peer writes to this end, in full. */
  ghost function Stream(c: Crypto, h: Transcript, end: End, ms: seq<Bytes>): Bytes
    requires InRange(h) && Sendable(ms)
  {
    if end == ResponderEnd then ToResponder(c, h, ms) else ToInitiator(c, h, ms)
  }

  function PeerChannel(h: Transcript, end: End): Channel {
    if end == ResponderEnd then InitiatorChannel(h) else ResponderChannel(h)
  }

  ghost predicate Inv(c: Crypto, p: Pair, h: Transcript, end: End, s: Sock, ms: seq<Bytes>, future: Bytes)
    requires InRange(h)
  {
    if end == ResponderEnd then ResponderInv(c, p, h, s, ms, future) else InitiatorInv(c, p, h, s, ms, future)
  }

  lemma {:induction false} OnDataKeepsInv(c: Crypto, p: Pair, h: Transcript, end: End, s: Sock, ms: seq<Bytes>, future: Bytes, accept: Schedule)
    requires Lawful(c) && Plays(c, p, h) && Inv(c, p, h, end, s, ms, future)
    ensures SockValid(s)
    ensures Inv(c, p, h, end, OnDataOf(c, s, accept), ms, future)
    decreases |s.inbuf|
  {
    hide Iteration, ResponderInv, InitiatorInv;
    InvIsValid(c, p, h, end, s, ms, future);
    if !s.destroyed {
      IterationKeepsValid(c, s, accept);
      if end == ResponderEnd { ResponderTurn(c, p, h, s, ms, future, accept); }
      else { InitiatorTurn(c, p, h, s, ms, future, accept); }
      if Iteration(c, s, accept).1 {
        OnDataKeepsInv(c, p, h, end, Iteration(c, s, accept).0, ms, future, accept);
      }
    }
  }

  lemma InvIsValid(c: Crypto, p: Pair, h: Transcript, end: End, s: Sock, ms: seq<Bytes>, future: Bytes)
    requires InRange(h) && Inv(c, p, h, end, s, ms, future)
    ensures SockValid(s) && Sendable(ms)
  {
  }

  lemma {:induction false} ArriveKeepsInv(c: Crypto, p: Pair, h: Transcript, end: End, s: Sock, ms: seq<Bytes>, chunk: Bytes, future: Bytes)
    requires InRange(h) && Inv(c, p, h, end, s, ms, chunk + future)
    ensures Inv(c, p, h, end, s.(inbuf := s.inbuf + chunk), ms, future)
  {
    hide Frames, Advance, AfterFrames, InitiatorAct1, ReceiveAct1, ReceiverAct2;
    assert (s.inbuf + chunk) + future == s.inbuf + (chunk + future);
  }

  lemma {:induction false} DemandKeepsInv(c: Crypto, p: Pair, h: Transcript, end: End, s: Sock, ms: seq<Bytes>, future: Bytes)
    requires InRange(h) && Inv(c, p, h, end, s, ms, future)
    ensures Inv(c, p, h, end, DemandOf(s), ms, future)
  {
    hide Frames, Advance, AfterFrames, InitiatorAct1, ReceiveAct1, ReceiverAct2;
  }

  lemma {:induction false} WriteKeepsInv(c: Crypto, p: Pair, h: Transcript, end: End, s: Sock, ms: seq<Bytes>, data: Bytes, future: Bytes)
    requires InRange(h) && Inv(c, p, h, end, s, ms, future) && SentAtMost(s, 997)
    ensures SockValid(s) && Inv(c, p, h, end, WriteOf(c, s, data), ms, future)
  {
    InvIsValid(c, p, h, end, s, ms, future);
    WriteMovesNonce(c, s, data, 997);
    WriteKeepsValid(c, s, data);
    hide Frames, Advance, AfterFrames, InitiatorAct1, ReceiveAct1, ReceiverAct2, WriteOf, CounterInRange;
  }

  lemma {:induction false} FreshInv(c: Crypto, p: Pair, h: Transcript, end: End, ms: seq<Bytes>)
    requires Lawful(c) && Plays(c, p, h) && Sendable(ms)
    ensures Inv(c, p, h, end, Fresh(c, p, end), ms, Stream(c, h, end, ms))
  {
    hide Frames, InitiatorAct1, ReceiveAct1, ReceiverAct2, Transporting;
    assert [] + Stream(c, h, end, ms) == Stream(c, h, end, ms);
  }

  /** The bytes an event brings. */
  function Brought(e: Event): Bytes {
    if e.Arrive? then e.chunk else []
  }

  lemma {:induction false} ApplyKeepsInv(c: Crypto, p: Pair, h: Transcript, end: End, s: Sock, e: Event, ms: seq<Bytes>, future: Bytes, accept: Schedule)
    requires Lawful(c) && Plays(c, p, h) && Inv(c, p, h, end, s, ms, Brought(e) + future)
    requires e.Write? ==> SentAtMost(s, 997)
    ensures SockValid(s) && Inv(c, p, h, end, Apply(c, s, e, accept), ms, future)
  {
    InvIsValid(c, p, h, end, s, ms, Brought(e) + future);
    hide Inv, Plays, Lawful, SockValid, OnDataOf, DemandOf, WriteOf, SentAtMost;
    match e {
      case Arrive(chunk) => ArriveKeepsInv(c, p, h, end, s, ms, chunk, future);
      case Data =>
        assert Brought(e) + future == future;
        OnDataKeepsInv(c, p, h, end, s, ms, future, accept);
      case Demand =>
        assert Brought(e) + future == future;
        DemandKeepsInv(c, p, h, end, s, ms, future);
      case Write(data) =>
        assert Brought(e) + future == future;
        WriteKeepsInv(c, p, h, end, s, ms, data, future);
    }
  }

  lemma {:induction false} Associates(a: Bytes, b: Bytes, c: Bytes)
    ensures (a + b) + c == a + (b + c) && a + [] == a
  {
  }

  lemma {:induction false} ArrivedStep(events: seq<Event>, future: Bytes)
    requires events != []
    ensures Arrived(events) + future == Arrived(events[..|events| - 1]) + (Brought(events[|events| - 1]) + future)
  {
    var before, e := events[..|events| - 1], events[|events| - 1];
    Associates(Arrived(before), Brought(e), future);
    assert Arrived(events) == Arrived(before) + Brought(e);
    hide *;
  }

  lemma {:induction false} RunKeepsInv(c: Crypto, p: Pair, h: Transcript, end: End, events: seq<Event>, ms: seq<Bytes>, future: Bytes, accept: Schedule)
    requires Lawful(c) && Plays(c, p, h) && Sendable(ms) && Arrived(events) + future == Stream(c, h, end, ms)
    requires Writes(events) < 500
    ensures Inv(c, p, h, end, Run(c, Fresh(c, p, end), events, accept), ms, future)
    decreases |events|
  {
    assert Fresh(c, p, end).handshake != Ready;
    hide Inv, Stream, Plays, Lawful, SockValid, Fresh, Apply;
    if events == [] {
      FreshInv(c, p, h, end, ms);
      assert Arrived(events) + future == future;
    } else {
      var before, e := events[..|events| - 1], events[|events| - 1];
      ArrivedStep(events, future);
      RunKeepsInv(c, p, h, end, before, ms, Brought(e) + future, accept);
      WritesCounted(c, Fresh(c, p, end), before, accept);
      ApplyKeepsInv(c, p, h, end, Run(c, Fresh(c, p, end), before, accept), e, ms, future, accept);
    }
  }

  /** Another turn of the loop would change nothing and stop. */
  ghost predicate Settled(c: Crypto, s: Sock, accept: Schedule)
    requires SockValid(s)
  {
    Iteration(c, s, accept) == (s, false)
  }

  /** After `_onData` the loop has nothing more it could do. */
  lemma {:induction false} OnDataSettles(c: Crypto, s: Sock, accept: Schedule)
    requires SockValid(s)
    ensures SockValid(OnDataOf(c, s, accept))
    ensures !OnDataOf(c, s, accept).destroyed ==> Settled(c, OnDataOf(c, s, accept), accept)
    decreases |s.inbuf|
  {
    OnDataKeepsValid(c, s, accept);
    if !s.destroyed {
      IterationKeepsValid(c, s, accept);
      if Iteration(c, s, accept).1 {
        OnDataSettles(c, Iteration(c, s, accept).0, accept);
      } else {
        StoppedIterationIsStuck(c, s, accept);
      }
    }
  }

  lemma {:induction false} StoppedIterationIsStuck(c: Crypto, s: Sock, accept: Schedule)
    requires SockValid(s) && !Iteration(c, s, accept).1
    ensures SockValid(Iteration(c, s, accept).0)
    ensures !Iteration(c, s, accept).0.destroyed ==> Settled(c, Iteration(c, s, accept).0, accept)
  {
    hide ReceiveAct1, ReceiverAct2, ReceiveAct3, InitiatorAct2, InitiatorAct3, Advance;
    IterationKeepsValid(c, s, accept);
  }

  /** A settled reader that has the whole stream, and is not held back, has read every message. */
  lemma {:induction false} SettledHasAll(c: Crypto, p: Pair, h: Transcript, end: End, s: Sock, ms: seq<Bytes>, accept: Schedule)
    requires Lawful(c) && Plays(c, p, h) && Inv(c, p, h, end, s, ms, [])
    requires SockValid(s) && Settled(c, s, accept) && s.read != Blocked
    ensures s.handshake == Ready && s.pushed == ms
  {
    TranscriptMirrors(c, p, h);
    if s.handshake == Ready {
      TransportedAll(c, s, PeerChannel(h, end), ms, accept);
    } else {
      HandshakeWouldProceed(c, p, h, end, s, ms, accept);
    }
  }

  lemma {:induction false} HandshakeWouldProceed(c: Crypto, p: Pair, h: Transcript, end: End, s: Sock, ms: seq<Bytes>, accept: Schedule)
    requires Lawful(c) && Plays(c, p, h) && Inv(c, p, h, end, s, ms, []) && SockValid(s) && s.handshake != Ready
    ensures Iteration(c, s, accept).1
  {
    hide ReceiveAct1, ReceiverAct2, ReceiveAct3, InitiatorAct1, InitiatorAct2, InitiatorAct3, Frames, Transporting;
    TranscriptMirrors(c, p, h);
    assert s.inbuf + [] == s.inbuf;
    match s.handshake {
      case AwaitingInitiator =>
        PrefixOfConcat(s.inbuf, [], h.m1, h.m3 + Frames(c, InitiatorChannel(h), ms));
      case AwaitingInitiatorReply =>
        PrefixOfConcat(s.inbuf, [], h.m3, Frames(c, InitiatorChannel(h), ms));
      case AwaitingResponderReply =>
        PrefixOfConcat(s.inbuf, [], h.m2, Frames(c, ResponderChannel(h), ms));
      case _ =>
    }
  }

  lemma {:induction false} TransportedAll(c: Crypto, s: Sock, k0: Channel, ms: seq<Bytes>, accept: Schedule)
    requires Lawful(c) && Transporting(c, s, k0, ms, []) && Settled(c, s, accept) && s.read != Blocked
    ensures s.pushed == ms
  {
    hide AfterFrames, Advance;
    assert s.inbuf + [] == s.inbuf;
    if |s.pushed| < |ms| {
      assert ms[|s.pushed|..] != [];
      if s.read == ReadyForLen {
        LengthTurn(c, s, k0, ms, []);
      } else {
        BodyStalls(c, s, k0, ms, accept);
      }
    }
  }

  /** With the whole message buffered, it is pushed. */
  lemma {:induction false} BodyStalls(c: Crypto, s: Sock, k0: Channel, ms: seq<Bytes>, accept: Schedule)
    requires Lawful(c) && Transporting(c, s, k0, ms, []) && s.read == ReadyForBody
    ensures TakeBody(c, s, accept).0 != s
  {
    hide AfterFrames, Advance;
    assert s.inbuf + [] == s.inbuf;
    BodyTurn(c, s, k0, ms, [], accept);
  }

  // ---------------------------------------------------------------------------
  // Main results

  /**
   However the bytes of an honest peer are cut into chunks, and however pushes are answered: the
   socket never fails, what it has pushed is a prefix of what was sent, and once in transport its
   key, nonce and chaining key are the sender's at that point. When all bytes have arrived and been
   processed, and the consumer is not holding the reader back, everything has been pushed. Meanwhile the
   socket may write up to 499 messages of its own; from the 500th on keys rotate in both directions, which
   is what `KeyRotation` is about.
  */
  lemma {:induction false} StreamDelivered(c: Crypto, p: Pair, h: Transcript, end: End, events: seq<Event>, ms: seq<Bytes>, future: Bytes, accept: Schedule)
    requires Lawful(c) && Plays(c, p, h) && Sendable(ms) && Arrived(events) + future == Stream(c, h, end, ms)
    requires Writes(events) < 500
    ensures CounterInRange(PeerChannel(h, end).nonce)
    ensures var s := Run(c, Fresh(c, p, end), events, accept);
      && !s.destroyed && s.pushed <= ms && s.received == |s.pushed|
      && (s.handshake == Ready ==> InStep(c, s, PeerChannel(h, end)))
      && (s.handshake == Ready && end == ResponderEnd ==> s.noise.rpk == c.publicKey(p.ils))
      && (future == [] && events != [] && events[|events| - 1] == Data && s.read != Blocked ==>
            s.handshake == Ready && s.pushed == ms)
  {
    hide Iteration, OnDataOf, Frames, Advance, AfterFrames, InitiatorAct1, ReceiveAct1, ReceiverAct2, Stream;
    var s := Run(c, Fresh(c, p, end), events, accept);
    RunKeepsInv(c, p, h, end, events, ms, future, accept);
    if future == [] && events != [] && events[|events| - 1] == Data && s.read != Blocked {
      OnDataSettles(c, Run(c, Fresh(c, p, end), events[..|events| - 1], accept), accept);
      SettledHasAll(c, p, h, end, s, ms, accept);
    }
  }

  /** The channel after e rotations, before the next message. */
  function Epoch(c: Crypto, k: Channel, e: nat): (r: Channel)
    requires |k.nonce| == 12
    ensures |r.nonce| == 12
    decreases e, k
  {
    if e == 0 then k else Rotated(c, Epoch(c, k, e - 1))
  }

  /**
   Keys rotate between messages, every 500, and never between a length and its message: after n
   messages n / 500 rotations have happened and the nonce counts the two uses of each message since.
  */
  lemma {:induction false} RotationSchedule(c: Crypto, k: Channel, n: nat)
    requires k.nonce == Zeros(12)
    ensures CounterInRange(k.nonce)
    ensures AfterFrames(c, k, n) == Epoch(c, k, n / 500).(nonce := Nonce(2 * (n % 500)))
    ensures Advance(c, AfterFrames(c, k, n)) == Epoch(c, k, n / 500).(nonce := Nonce(2 * (n % 500) + 1))
  {
    hide ReadCounter, WriteCounter, Nonce, Rotated;
    ZeroCounter();
    NonceCounts(0);
    if n == 0 {
      AdvanceAt(c, k, 0);
    } else {
      RotationSchedule(c, k, n - 1);
      var e, r := (n - 1) / 500, (n - 1) % 500;
      var half := Epoch(c, k, e).(nonce := Nonce(2 * r + 1));
      AdvanceAt(c, half, 2 * r + 1);
      RotatedIgnoresNonce(c, Epoch(c, k, e), Nonce(2 * r + 1));
      if r == 499 {
        assert n / 500 == e + 1 && n % 500 == 0;
      } else {
        assert n / 500 == e && n % 500 == r + 1;
      }
      AdvanceAt(c, AfterFrames(c, k, n), 2 * (n % 500));
    }
  }

  lemma AdvanceAt(c: Crypto, k: Channel, n: nat)
    requires n < 1000 && k.nonce == Nonce(n)
    ensures Advance(c, k) == if n == 999 then Rotated(c, k) else k.(nonce := Nonce(n + 1))
  {
    hide ReadCounter, WriteCounter, Nonce;
    NonceCounts(n);
  }

  lemma RotatedIgnoresNonce(c: Crypto, k: Channel, nonce: Bytes)
    ensures Rotated(c, k.(nonce := nonce)) == Rotated(c, k) == Rotated(c, k).(nonce := Nonce(0))
  {
    NonceCounts(0);
  }
}
