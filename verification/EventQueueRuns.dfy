/**
 Runs of the event queue: nothing is lost, repeated or overtaken, and the queue runs dry.
*/
module EventQueueRuns {
  import opened Common
  import opened EventQueue

  ghost function Run(steps: seq<Step>): Q {
    if steps == [] then EMPTY else Stepped(Run(steps[..|steps| - 1]), steps[|steps| - 1])
  }

  // ---------------------------------------------------------------------------
  // What each part of the history holds

  /** Everything ever put on the queue: what was taken off it and then what is still on it. */
  function Line(q: Q): seq<Event> {
    q.shifted + q.queue
  }

  function Others(s: seq<Event>): seq<Event> {
    if s == [] then []
    else if s[0].Other? then [s[0]] + Others(s[1..])
    else Others(s[1..])
  }

  function Directs(s: seq<Handling>): seq<Event> {
    if s == [] then []
    else if s[0].Direct? then [s[0].event] + Directs(s[1..])
    else Directs(s[1..])
  }

  function OfPeer(s: seq<Arrival>, p: Peer): seq<Arrival> {
    if s == [] then []
    else if s[0].peer == p then [s[0]] + OfPeer(s[1..], p)
    else OfPeer(s[1..], p)
  }

  function ReadFrom(s: seq<Handling>, p: Peer): seq<Arrival> {
    if s == [] then []
    else if s[0].FromStream? && s[0].arrival.peer == p then [s[0].arrival] + ReadFrom(s[1..], p)
    else ReadFrom(s[1..], p)
  }

  lemma {:induction false} OthersOfBoth(a: seq<Event>, b: seq<Event>)
    ensures Others(a + b) == Others(a) + Others(b)
  {
    if a == [] {
      assert a + b == b;
    } else {
      assert (a + b)[1..] == a[1..] + b;
      OthersOfBoth(a[1..], b);
    }
  }

  lemma {:induction false} DirectsOfBoth(a: seq<Handling>, b: seq<Handling>)
    ensures Directs(a + b) == Directs(a) + Directs(b)
  {
    if a == [] {
      assert a + b == b;
    } else {
      assert (a + b)[1..] == a[1..] + b;
      DirectsOfBoth(a[1..], b);
    }
  }

  lemma {:induction false} OfPeerOfBoth(a: seq<Arrival>, b: seq<Arrival>, p: Peer)
    ensures OfPeer(a + b, p) == OfPeer(a, p) + OfPeer(b, p)
  {
    if a == [] {
      assert a + b == b;
    } else {
      assert (a + b)[1..] == a[1..] + b;
      OfPeerOfBoth(a[1..], b, p);
    }
  }

  lemma {:induction false} ReadFromBoth(a: seq<Handling>, b: seq<Handling>, p: Peer)
    ensures ReadFrom(a + b, p) == ReadFrom(a, p) + ReadFrom(b, p)
  {
    if a == [] {
      assert a + b == b;
    } else {
      assert (a + b)[1..] == a[1..] + b;
      ReadFromBoth(a[1..], b, p);
    }
  }

  // ---------------------------------------------------------------------------
  // What taking events off the queue keeps

  /** A peer whose stream is read again, as long as there is something in it. */
  predicate Watched(q: Q, p: Peer) {
    PeerReadable(p) in q.queue || OfPeer(q.streams, p) == []
  }

  function Running(q: Q): nat {
    if q.current.Some? then 1 else 0
  }

  /** The handlers still to be started, if nothing more comes. */
  function Work(q: Q): nat {
    |q.streams| + |Others(q.queue)|
  }

  /** One queue step: a readable event whose stream is empty goes, anything else starts a handler. */
  ghost predicate Kept(q: Q, r: Q) {
    && Line(q) <= Line(r)
    && q.handled <= r.handled
    && (r.current.Some? && r.handled != q.handled ==> r.handled[|r.handled| - 1] == r.current.value)
    && Directs(r.handled) + Others(r.queue) == Directs(q.handled) + Others(q.queue)
    && (forall p :: ReadFrom(r.handled, p) + OfPeer(r.streams, p) == ReadFrom(q.handled, p) + OfPeer(q.streams, p))
    && (forall p :: Watched(q, p) ==> Watched(r, p))
    && Work(r) + |r.handled| == Work(q) + |q.handled|
    && |r.handled| + Running(q) == |q.handled| + Running(r)
  }

  lemma {:induction false} OldestIsFirst(streams: seq<Arrival>, p: Peer, other: Peer, i: nat)
    requires Oldest(streams, p) == Some(i)
    ensures OfPeer(streams, other) == (if other == p then [streams[i]] else []) + OfPeer(Without(streams, i), other)
  {
    assert streams == streams[..i] + ([streams[i]] + streams[i + 1..]);
    OfPeerOfBoth(streams[..i], [streams[i]] + streams[i + 1..], other);
    OfPeerOfBoth([streams[i]], streams[i + 1..], other);
    OfPeerOfBoth(streams[..i], streams[i + 1..], other);
    if other == p {
      NoneOfPeer(streams[..i], p);
    }
  }

  lemma {:induction false} NoneOfPeer(s: seq<Arrival>, p: Peer)
    requires forall a :: a in s ==> a.peer != p
    ensures OfPeer(s, p) == []
  {
    if s != [] {
      NoneOfPeer(s[1..], p);
    }
  }

  lemma {:induction false} ReadKeeps(q: Q, i: nat)
    requires q.current.None? && q.queue != [] && q.queue[0].PeerReadable?
    requires Oldest(q.streams, q.queue[0].peer) == Some(i)
    ensures Kept(q, Processed(q)) && Processed(q).current.Some?
  {
    var event, h := q.queue[0], FromStream(q.streams[i]);
    var r := Processed(q);
    assert r == Started(q.(queue := q.queue[1..] + [event], shifted := q.shifted + [event],
                           streams := Without(q.streams, i)), h);
    assert Line(r) == Line(q) + [event];
    OthersOfBoth(q.queue[1..], [event]);
    OthersOfBoth([event], q.queue[1..]);
    assert q.queue == [event] + q.queue[1..];
    DirectsOfBoth(q.handled, [h]);
    assert Directs([h]) == [] && Others([event]) == [];
    forall p ensures ReadFrom(r.handled, p) + OfPeer(r.streams, p) == ReadFrom(q.handled, p) + OfPeer(q.streams, p) {
      ReadStreams(q.handled, q.streams, event.peer, p, i);
    }
    forall p ensures Watched(q, p) ==> Watched(r, p) {
      OldestIsFirst(q.streams, event.peer, p, i);
    }
  }

  /** A message that moves from a stream to the handled keeps its place among those of every peer. */
  lemma {:induction false} ReadStreams(handled: seq<Handling>, streams: seq<Arrival>, from: Peer, p: Peer, i: nat)
    requires Oldest(streams, from) == Some(i)
    ensures ReadFrom(handled + [FromStream(streams[i])], p) + OfPeer(Without(streams, i), p)
            == ReadFrom(handled, p) + OfPeer(streams, p)
  {
    var h := FromStream(streams[i]);
    OldestIsFirst(streams, from, p, i);
    ReadFromBoth(handled, [h], p);
    assert ReadFrom([h], p) == if p == from then [streams[i]] else [];
  }

  lemma {:induction false} DirectKeeps(q: Q)
    requires q.current.None? && q.queue != [] && q.queue[0].Other?
    ensures Kept(q, Processed(q)) && Processed(q).current.Some?
  {
    var event := q.queue[0];
    var r, h := Processed(q), Direct(event);
    assert Line(r) == Line(q);
    assert q.queue == [event] + q.queue[1..];
    OthersOfBoth([event], q.queue[1..]);
    DirectsOfBoth(q.handled, [h]);
    assert Directs([h]) == [event] && Others([event]) == [event];
    forall p ensures ReadFrom(r.handled, p) == ReadFrom(q.handled, p) {
      ReadFromBoth(q.handled, [h], p);
    }
  }

  lemma {:induction false} DropKeeps(q: Q, q1: Q)
    requires q.current.None? && q.queue != [] && q.queue[0].PeerReadable? && Oldest(q.streams, q.queue[0].peer).None?
    requires q1 == q.(queue := q.queue[1..], shifted := q.shifted + [q.queue[0]])
    ensures Kept(q, q1)
  {
    var event := q.queue[0];
    assert Line(q1) == Line(q);
    assert q.queue == [event] + q.queue[1..];
    OthersOfBoth([event], q.queue[1..]);
    NoneOfPeer(q.streams, event.peer);
  }

  lemma {:induction false} KeptBoth(q: Q, r: Q, t: Q)
    requires Kept(q, r) && Kept(r, t) && q.current.None? && r.current.None?
    ensures Kept(q, t)
  {
  }

  /** Nothing is lost, reordered or handled twice, and the queue only rests when it is empty. */
  lemma {:induction false} ProcessedKeeps(q: Q)
    ensures Kept(q, Processed(q))
    ensures Processed(q).current.None? ==> Processed(q).queue == []
    decreases |q.queue|
  {
    if q.current.None? && q.queue != [] {
      if q.queue[0].Other? {
        DirectKeeps(q);
      } else if Oldest(q.streams, q.queue[0].peer).Some? {
        ReadKeeps(q, Oldest(q.streams, q.queue[0].peer).value);
      } else {
        var q1 := q.(queue := q.queue[1..], shifted := q.shifted + [q.queue[0]]);
        DropKeeps(q, q1);
        ProcessedKeeps(q1);
        hide Kept;
        KeptBoth(q, q1, Processed(q1));
      }
    }
  }

  lemma {:induction false} ProcessedFlushes(q: Q)
    ensures Processed(q).flushes == q.flushes + 1 - Running(Processed(q))
    decreases |q.queue|
  {
    if q.current.None? && q.queue != [] && q.queue[0].PeerReadable? && Oldest(q.streams, q.queue[0].peer).None? {
      ProcessedFlushes(q.(queue := q.queue[1..], shifted := q.shifted + [q.queue[0]]));
    }
  }

  /** The queue reports that it is flushed whenever a push or a finished handler leaves it at rest, and only then. */
  lemma {:induction false} FlushedWhenAtRest(q: Q, s: Step)
    ensures var q1 := Stepped(q, s);
      q1.flushes == q.flushes
        + if q1.current.None? && (s.Push? || (s.Finish? && q.current.Some?)) then 1 else 0
  {
    hide Processed;
    match s
    case Push(event) => ProcessedFlushes(q.(queue := q.queue + [event]));
    case Arrive(_) =>
    case Finish => ProcessedFlushes(q.(current := None));
  }

  // ---------------------------------------------------------------------------
  // Every run

  ghost function Pushed(steps: seq<Step>): seq<Event> {
    if steps == [] then [] else
    var s := steps[|steps| - 1];
    Pushed(steps[..|steps| - 1]) + if s.Push? then [s.event] else []
  }

  ghost function Arrived(steps: seq<Step>): seq<Arrival> {
    if steps == [] then [] else
    var s := steps[|steps| - 1];
    Arrived(steps[..|steps| - 1]) + if s.Arrive? then [s.arrival] else []
  }

  /** How many handlers have finished. */
  ghost function Finishes(steps: seq<Step>): nat {
    if steps == [] then 0 else
    var pre := steps[..|steps| - 1];
    Finishes(pre) + if steps[|steps| - 1].Finish? then Running(Run(pre)) else 0
  }

  /** The state says what came in. */
  ghost predicate Tally(q: Q, pushed: seq<Event>, arrived: seq<Arrival>, finishes: nat) {
    && Others(pushed) == Directs(q.handled) + Others(q.queue)
    && (forall p :: OfPeer(arrived, p) == ReadFrom(q.handled, p) + OfPeer(q.streams, p))
    && |q.handled| == finishes + Running(q)
    && (q.current.None? ==> q.queue == [])
  }

  lemma {:induction false} PushTally(q: Q, pushed: seq<Event>, arrived: seq<Arrival>, finishes: nat, event: Event)
    requires Tally(q, pushed, arrived, finishes)
    ensures Tally(Stepped(q, Push(event)), pushed + [event], arrived, finishes)
  {
    hide Processed;
    var q1 := q.(queue := q.queue + [event]);
    OthersOfBoth(q.queue, [event]);
    OthersOfBoth(pushed, [event]);
    ProcessedKeeps(q1);
  }

  lemma {:induction false} ArriveTally(q: Q, pushed: seq<Event>, arrived: seq<Arrival>, finishes: nat, a: Arrival)
    requires Tally(q, pushed, arrived, finishes)
    ensures Tally(Stepped(q, Arrive(a)), pushed, arrived + [a], finishes)
  {
    forall p
      ensures OfPeer(arrived + [a], p) == ReadFrom(q.handled, p) + OfPeer(q.streams + [a], p)
    {
      OfPeerOfBoth(arrived, [a], p);
      OfPeerOfBoth(q.streams, [a], p);
    }
  }

  lemma {:induction false} FinishTally(q: Q, pushed: seq<Event>, arrived: seq<Arrival>, finishes: nat)
    requires Tally(q, pushed, arrived, finishes)
    ensures Tally(Stepped(q, Finish), pushed, arrived, finishes + Running(q))
  {
    hide Processed;
    if q.current.Some? {
      ProcessedKeeps(q.(current := None));
    }
  }

  /**
   In every run: each event that was pushed and is not a stream's is handled once, in the order of the
   pushes; each peer's messages in the order they arrived; one handler at a time; and the queue rests
   only when it is empty.
  */
  lemma {:induction false} RunTally(steps: seq<Step>)
    ensures Tally(Run(steps), Pushed(steps), Arrived(steps), Finishes(steps))
  {
    if steps != [] {
      var pre, s := steps[..|steps| - 1], steps[|steps| - 1];
      RunTally(pre);
      hide Stepped, Tally;
      var pushed, arrived := Pushed(pre), Arrived(pre);
      assert s.Push? || Pushed(steps) == pushed;
      assert s.Arrive? || Arrived(steps) == arrived;
      match s
      case Push(event) => PushTally(Run(pre), pushed, arrived, Finishes(pre), event);
      case Arrive(a) => ArriveTally(Run(pre), pushed, arrived, Finishes(pre), a);
      case Finish => FinishTally(Run(pre), pushed, arrived, Finishes(pre));
    }
  }

  lemma {:induction false} StepLine(q: Q, s: Step)
    ensures Line(q) <= Line(Stepped(q, s))
  {
    hide Processed;
    match s
    case Push(event) =>
      var q1 := q.(queue := q.queue + [event]);
      assert Line(q1) == Line(q) + [event];
      ProcessedKeeps(q1);
    case Arrive(a) =>
    case Finish => if q.current.Some? { ProcessedKeeps(q.(current := None)); }
  }

  lemma {:induction false} LineGrows(steps: seq<Step>, k: nat)
    requires k <= |steps|
    ensures Line(Run(steps[..k])) <= Line(Run(steps))
    decreases |steps|
  {
    if k == |steps| {
      assert steps[..k] == steps;
    } else {
      var pre := steps[..|steps| - 1];
      assert pre[..k] == steps[..k];
      LineGrows(pre, k);
      StepLine(Run(pre), steps[|steps| - 1]);
    }
  }

  /**
   An event at position i of the queue is, whatever else is pushed, read again or finished, the event
   that is taken off after exactly i others.
  */
  lemma {:induction false} ReachedInTurn(steps: seq<Step>, k: nat, i: nat)
    requires k <= |steps| && i < |Run(steps[..k]).queue|
    ensures var early, late := Run(steps[..k]), Run(steps);
            && (|late.shifted| > |early.shifted| + i ==> late.shifted[|early.shifted| + i] == early.queue[i])
            && (|late.shifted| <= |early.shifted| + i ==>
                  && |early.shifted| + i - |late.shifted| < |late.queue|
                  && late.queue[|early.shifted| + i - |late.shifted|] == early.queue[i])
  {
    LineGrows(steps, k);
    hide Run;
    var early, late := Run(steps[..k]), Run(steps);
    assert Line(early)[|early.shifted| + i] == early.queue[i];
    assert Line(late)[|early.shifted| + i] == early.queue[i];
  }

  // ---------------------------------------------------------------------------
  // Handlers that finish empty the queue

  /** The running handler finishes, and the next, and so on. */
  ghost function Drained(q: Q, n: nat): Q
    decreases n
  {
    if n == 0 then q else Drained(Stepped(q, Finish), n - 1)
  }

  /** When nothing more comes in, as many finishes as there is work leave nothing to handle. */
  lemma {:induction false} Drains(q: Q, n: nat)
    requires q.current.None? ==> q.queue == []
    requires q.current.Some? ==> n > Work(q)
    ensures var r := Drained(q, n);
            && r.current.None? && r.queue == []
            && Directs(r.handled) == Directs(q.handled) + Others(q.queue)
            && (forall p :: Watched(q, p) ==>
                  OfPeer(r.streams, p) == [] && ReadFrom(r.handled, p) == ReadFrom(q.handled, p) + OfPeer(q.streams, p))
    decreases n
  {
    hide Processed;
    if n > 0 {
      if q.current.Some? {
        ProcessedKeeps(q.(current := None));
      }
      Drains(Stepped(q, Finish), n - 1);
      assert forall p :: Watched(q, p) ==> Watched(Stepped(q, Finish), p);
    }
    if n == 0 || q.current.None? {
      assert Others(q.queue) == [] && forall p :: Watched(q, p) ==> OfPeer(q.streams, p) == [];
    }
  }

  // ---------------------------------------------------------------------------
  // The class goes through the same runs

  /** A queue on which the steps have been performed one after the other is where the run of those steps leads. */
  method Play(steps: seq<Step>) returns (q: LightningEventQueue)
    ensures fresh(q) && q.Valid() && q.View() == Run(steps)
  {
    q := new LightningEventQueue();
    for i := 0 to |steps|
      invariant fresh(q) && q.Valid() && q.View() == Run(steps[..i])
    {
      assert steps[..i + 1][..i] == steps[..i];
      match steps[i] {
        case Push(event) => q.PushEvent(event);
        case Arrive(a) => q.Receive(a);
        case Finish => q.FinishHandler();
      }
    }
    assert steps[..|steps|] == steps;
  }
}
