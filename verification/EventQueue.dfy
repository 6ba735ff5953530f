/**
 The queue that serialises everything that happens to a node, as steps: an event is pushed, a message
 arrives in a peer's stream, the running handler finishes.
*/
module EventQueue {
  import opened Common

  type Peer = nat

  datatype Event = PeerReadable(peer: Peer) | Other(kind: nat, data: nat)

  /** A message that waits in a peer's stream. */
  datatype Arrival = Arrival(peer: Peer, message: nat)

  /** One call of the handler: for an event of the queue, or for a message read from a stream. */
  datatype Handling = Direct(event: Event) | FromStream(arrival: Arrival)

  /** The queue; its streams; and its history: the handlers started, the events taken off the queue. */
  datatype Q = Q(
    queue: seq<Event>, current: Option<Handling>, streams: seq<Arrival>,
    handled: seq<Handling>, shifted: seq<Event>, flushes: nat)

  const EMPTY := Q([], None, [], [], [], 0)

  /** Where the oldest message of a peer is. */
  function Oldest(streams: seq<Arrival>, p: Peer): (r: Option<nat>)
    ensures r.Some? ==> r.value < |streams| && streams[r.value].peer == p
    ensures r.Some? ==> forall i :: 0 <= i < r.value ==> streams[i].peer != p
    ensures r.None? ==> forall a :: a in streams ==> a.peer != p
  {
    if streams == [] then None
    else if streams[0].peer == p then Some(0)
    else
      var rest := Oldest(streams[1..], p);
      if rest.None? then None else Some(rest.value + 1)
  }

  function Without(streams: seq<Arrival>, i: nat): seq<Arrival>
    requires i < |streams|
  {
    streams[..i] + streams[i + 1..]
  }

  function Started(q: Q, h: Handling): Q {
    q.(current := Some(h), handled := q.handled + [h])
  }

  /** Takes events off the queue until one has something to handle, or there are none. */
  function Processed(q: Q): Q
    decreases |q.queue|
  {
    if q.current.Some? then q
    else if q.queue == [] then q.(flushes := q.flushes + 1)
    else
      var event := q.queue[0];
      var q1 := q.(queue := q.queue[1..], shifted := q.shifted + [event]);
      match event
      case PeerReadable(p) =>
        var i := Oldest(q.streams, p);
        if i.None? then Processed(q1)
        else
          Started(q1.(queue := q1.queue + [event], streams := Without(q.streams, i.value)),
                  FromStream(q.streams[i.value]))
      case Other(_, _) => Started(q1, Direct(event))
  }

  datatype Step = Push(event: Event) | Arrive(arrival: Arrival) | Finish

  function Stepped(q: Q, s: Step): Q {
    match s
    case Push(event) => Processed(q.(queue := q.queue + [event]))
    case Arrive(a) => q.(streams := q.streams + [a])
    case Finish => if q.current.None? then q else Processed(q.(current := None))
  }

  // ---------------------------------------------------------------------------
  // The class

  class LightningEventQueue {
    var queue: seq<Event>
    var processing: bool
    var streams: seq<Arrival>
    // the handler that runs, and the history
    var current: Option<Handling>
    var handled: seq<Handling>
    var shifted: seq<Event>
    var flushes: nat

    function View(): Q
      reads this
    {
      Q(queue, current, streams, handled, shifted, flushes)
    }

    /** The flag is up exactly while a handler runs. */
    ghost predicate Valid()
      reads this
    {
      processing == current.Some?
    }

    constructor ()
      ensures Valid() && View() == EMPTY
    {
      queue, processing, streams, current, handled, shifted, flushes := [], false, [], None, [], [], 0;
    }

    method PushEvent(event: Event)
      requires Valid()
      modifies this
      ensures Valid() && View() == Stepped(old(View()), Push(event))
    {
      queue := queue + [event];
      Process();
    }

    method Receive(a: Arrival)
      requires Valid()
      modifies this
      ensures Valid() && View() == Stepped(old(View()), Arrive(a))
    {
      streams := streams + [a];
    }

    /** The running handler completes: the flag goes down and the next item is tried. */
    method FinishHandler()
      requires Valid()
      modifies this
      ensures Valid() && View() == Stepped(old(View()), Finish)
    {
      if current.None? { return; }
      current := None;
      processing := false;
      Process();
    }

    method Read(p: Peer) returns (message: Option<Arrival>)
      requires current.None?
      modifies this`streams
      ensures var i := Oldest(old(streams), p);
              if i.None? then message.None? && streams == old(streams)
              else message == Some(old(streams)[i.value]) && streams == Without(old(streams), i.value)
    {
      var i := Oldest(streams, p);
      if i.None? { return None; }
      message := Some(streams[i.value]);
      streams := streams[..i.value] + streams[i.value + 1..];
    }

    method Process()
      requires Valid()
      modifies this
      ensures Valid() && View() == Processed(old(View()))
      decreases |queue|
    {
      if processing { return; }
      if |queue| == 0 {
        flushes := flushes + 1;
        return;
      }
      processing := true;
      var event := queue[0];
      queue := queue[1..];
      shifted := shifted + [event];
      match event {
        case PeerReadable(p) =>
          var message := Read(p);
          if message.Some? {
            queue := queue + [event];
            current := Some(FromStream(message.value));
            handled := handled + [current.value];
            return;
          }
        case Other(_, _) =>
          current := Some(Direct(event));
          handled := handled + [current.value];
          return;
      }
      processing := false;
      Process();
    }
  }
}
