/**
 The socket of the Noise transport: a read state machine that completes the handshake and puts
 messages back together from bytes that arrive in arbitrary pieces, under backpressure. Each method of
 the class is equal to a function of the socket's state, its buffers and the consumer's answers, which
 is what the results about whole runs are about.
*/
module NoiseSocket {
  import opened Common
  import opened N = NoiseState

  datatype HandshakeState =
    | InitiatorInitiating
    | AwaitingInitiator
    | AwaitingInitiatorReply
    | AwaitingResponderReply
    | Ready

  datatype ReadState = ReadyForLen | ReadyForBody | Blocked

  /** `inbuf` holds the bytes the TCP socket has and nobody has read; `pushed` what the consumer was given. */
  datatype Sock = Sock(
    noise: State, handshake: HandshakeState, read: ReadState, l: Option<nat>,
    received: nat, inbuf: Bytes, outbuf: Bytes, pushed: seq<Bytes>, destroyed: bool)

  /** Whether the n-th push is answered with room for more; any backpressure schedule is allowed. */
  type Schedule = nat -> bool

  ghost predicate SockValid(s: Sock) {
    && (s.handshake == Ready ==> CounterInRange(s.noise.rn) && CounterInRange(s.noise.sn))
    && (s.read == ReadyForBody ==> s.l.Some?)
  }

  const LEN_BYTES: nat := 18
  const MAC_BYTES: nat := 16

  lemma ZeroCounter()
    ensures CounterInRange(Zeros(12))
  {
  }

  // ---------------------------------------------------------------------------
  // One turn of the `do ... while (readMore)` loop: the new state, and whether to go on

  function TakeAct1(c: Crypto, s: Sock): (Sock, bool) {
    if |s.inbuf| < 50 then (s, false) else
    var (n1, error) := ReceiveAct1(c, s.noise, s.inbuf[..50]);
    var s1 := s.(inbuf := s.inbuf[50..], noise := n1);
    if error != NoError then (s1.(destroyed := true), false) else
    var (n2, m) := ReceiverAct2(c, n1);
    (s1.(noise := n2, outbuf := s.outbuf + m, handshake := AwaitingInitiatorReply), true)
  }

  function TakeAct3(c: Crypto, s: Sock): (Sock, bool) {
    if |s.inbuf| < 66 then (s, false) else
    var (n1, error) := ReceiveAct3(c, s.noise, s.inbuf[..66]);
    var s1 := s.(inbuf := s.inbuf[66..], noise := n1);
    if error != NoError then (s1.(destroyed := true), false)
    else (s1.(handshake := Ready), true)
  }

  function TakeAct2(c: Crypto, s: Sock): (Sock, bool) {
    if |s.inbuf| < 50 then (s, false) else
    var (n1, error) := InitiatorAct2(c, s.noise, s.inbuf[..50]);
    var s1 := s.(inbuf := s.inbuf[50..], noise := n1);
    if error != NoError then (s1.(destroyed := true), false) else
    var (n2, m) := InitiatorAct3(c, n1);
    (s1.(noise := n2, outbuf := s.outbuf + m, handshake := Ready), true)
  }

  function TakeLength(c: Crypto, s: Sock): (Sock, bool)
    requires CounterInRange(s.noise.rn)
  {
    if |s.inbuf| < LEN_BYTES then (s, false) else
    var k := Receiving(s.noise);
    var plain := Open(c, k, s.inbuf[..LEN_BYTES]);
    var s1 := s.(inbuf := s.inbuf[LEN_BYTES..]);
    if plain.None? then (s1.(destroyed := true), false) else
    var s2 := s1.(noise := WithReceiving(s.noise, Advance(c, k)));
    if |plain.value| < 2 then (s2.(destroyed := true), false)
    else (s2.(l := Some(ReadUInt16BE(plain.value)), read := ReadyForBody), true)
  }

  function TakeBody(c: Crypto, s: Sock, accept: Schedule): (Sock, bool)
    requires CounterInRange(s.noise.rn) && s.l.Some?
  {
    var size := s.l.value + MAC_BYTES;
    if |s.inbuf| < size then (s, false) else
    var k := Receiving(s.noise);
    var plain := Open(c, k, s.inbuf[..size]);
    var s1 := s.(inbuf := s.inbuf[size..]);
    if plain.None? then (s1.(destroyed := true), false) else
    var ok := accept(|s.pushed|);
    (s1.(noise := WithReceiving(s.noise, Advance(c, k)), l := None, received := s.received + 1,
         pushed := s.pushed + [plain.value], read := if ok then ReadyForLen else Blocked), ok)
  }

  function Iteration(c: Crypto, s: Sock, accept: Schedule): (Sock, bool)
    requires SockValid(s)
  {
    match s.handshake
    case InitiatorInitiating => (s.(destroyed := true), false)
    case AwaitingInitiator => TakeAct1(c, s)
    case AwaitingInitiatorReply => TakeAct3(c, s)
    case AwaitingResponderReply => TakeAct2(c, s)
    case Ready =>
      match s.read
      case ReadyForLen => TakeLength(c, s)
      case ReadyForBody => TakeBody(c, s, accept)
      case Blocked => (s, false)
  }

  lemma IterationKeepsValid(c: Crypto, s: Sock, accept: Schedule)
    requires SockValid(s)
    ensures SockValid(Iteration(c, s, accept).0)
    ensures Iteration(c, s, accept).1 ==> |Iteration(c, s, accept).0.inbuf| < |s.inbuf|
  {
    ZeroCounter();
    if s.handshake == Ready {
      AdvanceKeepsRange(c, Receiving(s.noise));
    }
  }

  /** `_onData`; a destroyed socket has no more "readable" events. */
  function OnDataOf(c: Crypto, s: Sock, accept: Schedule): Sock
    requires SockValid(s)
    decreases |s.inbuf|
  {
    if s.destroyed then s else
    IterationKeepsValid(c, s, accept);
    var (s', more) := Iteration(c, s, accept);
    if more then OnDataOf(c, s', accept) else s'
  }

  /** `_read`, up to the `setImmediate` that runs `_onData` later. */
  function DemandOf(s: Sock): Sock {
    if s.handshake == Ready && s.read == Blocked then s.(read := ReadyForLen) else s
  }

  /** `_write`: before the handshake is done there is no key, and too long a message is refused. */
  function WriteOf(c: Crypto, s: Sock, data: Bytes): Sock
    requires SockValid(s)
  {
    if s.handshake == Ready && |data| < 0x10000
    then s.(noise := WithSending(s.noise, AfterFrame(c, Sending(s.noise))), outbuf := s.outbuf + Frame(c, Sending(s.noise), data))
    else s
  }

  // ---------------------------------------------------------------------------
  // The class

  class NoiseSocket {
    const noise: NoiseState
    var handshakeState: HandshakeState
    var readState: ReadState
    var l: Option<nat>
    var messagesReceived: nat
    var inbuf: Bytes
    var outbuf: Bytes
    var pushed: seq<Bytes>
    var destroyed: bool

    function View(): Sock
      reads this, noise
    {
      Sock(noise.View(), handshakeState, readState, l, messagesReceived, inbuf, outbuf, pushed, destroyed)
    }

    constructor (noise: NoiseState, initiator: bool)
      ensures this.noise == noise
      ensures View() == Sock(noise.View(), if initiator then InitiatorInitiating else AwaitingInitiator,
                             ReadyForLen, None, 0, [], [], [], false)
    {
      this.noise := noise;
      handshakeState := if initiator then InitiatorInitiating else AwaitingInitiator;
      readState, l, messagesReceived := ReadyForLen, None, 0;
      inbuf, outbuf, pushed, destroyed := [], [], [], false;
    }

    /** `_initiateHandshake` */
    method InitiateHandshake(rpk: Bytes)
      modifies this, noise
      ensures View() == old(View()).(noise := InitiatorAct1(noise.crypto, old(noise.View()), rpk).0,
                                     outbuf := old(outbuf) + InitiatorAct1(noise.crypto, old(noise.View()), rpk).1,
                                     handshake := AwaitingResponderReply)
    {
      hide N.InitiatorAct1;
      var m := noise.InitiatorFirstAct(rpk);
      outbuf := outbuf + m;
      handshakeState := AwaitingResponderReply;
    }

    method ProcessInitiator() returns (more: bool)
      modifies this, noise
      ensures (View(), more) == TakeAct1(noise.crypto, old(View()))
    {
      hide N.ReceiveAct1, N.ReceiverAct2;
      if |inbuf| < 50 { return false; }
      var m := inbuf[..50];
      inbuf := inbuf[50..];
      var error := noise.ReceiveFirstAct(m);
      if error != NoError { destroyed := true; return false; }
      var reply := noise.ReceiverSecondAct();
      outbuf := outbuf + reply;
      handshakeState := AwaitingInitiatorReply;
      return true;
    }

    method ProcessInitiatorReply() returns (more: bool)
      modifies this, noise
      ensures (View(), more) == TakeAct3(noise.crypto, old(View()))
    {
      hide N.ReceiveAct3;
      if |inbuf| < 66 { return false; }
      var m := inbuf[..66];
      inbuf := inbuf[66..];
      var error := noise.ReceiveThirdAct(m);
      if error != NoError { destroyed := true; return false; }
      handshakeState := Ready;
      return true;
    }

    method ProcessResponderReply() returns (more: bool)
      modifies this, noise
      ensures (View(), more) == TakeAct2(noise.crypto, old(View()))
    {
      hide N.InitiatorAct2, N.InitiatorAct3;
      if |inbuf| < 50 { return false; }
      var m := inbuf[..50];
      inbuf := inbuf[50..];
      var error := noise.InitiatorSecondAct(m);
      if error != NoError { destroyed := true; return false; }
      var reply := noise.InitiatorThirdAct();
      outbuf := outbuf + reply;
      handshakeState := Ready;
      return true;
    }

    method ProcessPacketLength() returns (more: bool)
      requires CounterInRange(noise.rn)
      modifies this, noise
      ensures (View(), more) == TakeLength(noise.crypto, old(View()))
    {
      hide N.Advance;
      if |inbuf| < LEN_BYTES { return false; }
      var lc := inbuf[..LEN_BYTES];
      inbuf := inbuf[LEN_BYTES..];
      var size := noise.DecryptLength(lc);
      if size.None? { destroyed := true; return false; }
      l := size;
      readState := ReadyForBody;
      return true;
    }

    method ProcessPacketBody(accept: Schedule) returns (more: bool)
      requires CounterInRange(noise.rn) && l.Some?
      modifies this, noise
      ensures (View(), more) == TakeBody(noise.crypto, old(View()), accept)
    {
      hide N.Advance;
      var size := l.value + MAC_BYTES;
      if |inbuf| < size { return false; }
      var ct := inbuf[..size];
      inbuf := inbuf[size..];
      var m := noise.DecryptMessage(ct);
      if m.None? { destroyed := true; return false; }
      l := None;
      messagesReceived := messagesReceived + 1;
      var pushOk := accept(|pushed|);
      pushed := pushed + [m.value];
      readState := if pushOk then ReadyForLen else Blocked;
      return pushOk;
    }

    method Turn(accept: Schedule) returns (more: bool)
      requires SockValid(View())
      modifies this, noise
      ensures (View(), more) == Iteration(noise.crypto, old(View()), accept)
    {
      hide TakeAct1, TakeAct2, TakeAct3, TakeLength, TakeBody;
      match handshakeState {
        case InitiatorInitiating => destroyed := true; return false;
        case AwaitingInitiator => more := ProcessInitiator();
        case AwaitingInitiatorReply => more := ProcessInitiatorReply();
        case AwaitingResponderReply => more := ProcessResponderReply();
        case Ready =>
          match readState {
            case ReadyForLen => more := ProcessPacketLength();
            case ReadyForBody => more := ProcessPacketBody(accept);
            case Blocked => return false;
          }
      }
    }

    method OnData(accept: Schedule)
      requires SockValid(View()) && !destroyed
      modifies this, noise
      ensures View() == OnDataOf(noise.crypto, old(View()), accept)
    {
      hide Iteration;
      var readMore := true;
      while readMore
        invariant SockValid(View())
        invariant OnDataOf(noise.crypto, old(View()), accept)
               == if readMore then OnDataOf(noise.crypto, View(), accept) else View()
        invariant readMore ==> !destroyed
        decreases readMore, |inbuf|
      {
        IterationKeepsValid(noise.crypto, View(), accept);
        StoppedOnlyAtEnd(noise.crypto, View(), accept);
        readMore := Turn(accept);
      }
    }

    method Read()
      modifies this
      ensures View() == DemandOf(old(View()))
    {
      if handshakeState != Ready { return; }
      if readState == Blocked {
        readState := ReadyForLen;
      }
    }

    /** `_write`; false, with nothing changed, where encryption throws. */
    method Write(data: Bytes) returns (ok: bool)
      requires handshakeState == Ready && SockValid(View())
      modifies this`outbuf, noise
      ensures ok <==> |data| < 0x10000
      ensures View() == WriteOf(noise.crypto, old(View()), data)
    {
      hide N.Frame, N.AfterFrame;
      var ct := noise.EncryptMessage(data);
      if ct.None? { return false; }
      outbuf := outbuf + ct.value;
      return true;
    }
  }

  lemma StoppedOnlyAtEnd(c: Crypto, s: Sock, accept: Schedule)
    requires SockValid(s) && !s.destroyed
    ensures Iteration(c, s, accept).1 ==> !Iteration(c, s, accept).0.destroyed
  {
  }
}
