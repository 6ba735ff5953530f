/**
 What holds in every run of the gossip relay: the indices, the keys in the queue, and what each peer
 is and is not sent.
*/
module RelayRuns {
  import opened GossipFilter
  import opened GossipRelay

  ghost function Run(es: seq<Event>, maxLength: nat): Relay {
    if es == [] then NewRelay(maxLength)
    else Step(Run(es[..|es| - 1], maxLength), es[|es| - 1])
  }

  predicate RisingNumbers(s: seq<Entry>) {
    forall i, j :: 0 <= i < j < |s| ==> s[i].number < s[j].number
  }

  predicate Below(s: seq<Entry>, n: nat) {
    forall e :: e in s ==> e.number < n
  }

  /** At most one entry a channel, a direction of a channel and a node. */
  predicate OneAKey(queue: seq<Entry>) {
    && (forall e :: e in queue ==> RelayKeyOf(e.message).Some?)
    && (forall i, j :: 0 <= i < j < |queue| ==> RelayKeyOf(queue[i].message) != RelayKeyOf(queue[j].message))
  }

  /** A peer is sent numbers in rising order, and has yet to be sent only higher ones. */
  ghost predicate InOrder(r: Relay, p: Peer) {
    && RisingNumbers(Log(r, p)) && Below(Log(r, p), r.next)
    && (p in r.peers ==> RisingNumbers(Log(r, p) + Pending(r, p)))
  }

  ghost predicate Inv(r: Relay) {
    && Safe(r) && OneAKey(r.queue) && RisingNumbers(r.queue) && Below(r.queue, r.next)
    && (forall p :: InOrder(r, p))
  }

  // ---------------------------------------------------------------------------
  // Sequences of entries

  lemma {:induction false} Part(s: seq<Entry>, i: nat, j: nat, n: nat)
    requires i <= j <= |s| && RisingNumbers(s) && Below(s, n)
    ensures RisingNumbers(s[i..j]) && Below(s[i..j], n)
  {
  }

  lemma {:induction false} Extend(s: seq<Entry>, e: Entry)
    requires RisingNumbers(s) && Below(s, e.number)
    ensures RisingNumbers(s + [e]) && Below(s + [e], e.number + 1)
  {
    assert forall i :: 0 <= i < |s| ==> s[i] in s;
  }

  lemma {:induction false} Cut(s: seq<Entry>, i: nat, n: nat)
    requires i < |s| && RisingNumbers(s) && Below(s, n)
    ensures RisingNumbers(s[..i] + s[i + 1..]) && Below(s[..i] + s[i + 1..], n)
  {
  }

  lemma {:induction false} BelowBoth(a: seq<Entry>, b: seq<Entry>, n: nat)
    requires Below(a, n) && Below(b, n)
    ensures Below(a + b, n)
  {
  }

  // ---------------------------------------------------------------------------
  // Every step keeps the invariant

  lemma {:induction false} PositionIsKey(queue: seq<Entry>, e: Entry, i: nat)
    requires OneAKey(queue) && i < |queue| && RelayKeyOf(e.message) == RelayKeyOf(queue[i].message)
    ensures OneAKey(queue[..i] + queue[i + 1..] + [e])
  {
  }

  lemma {:induction false} EnqueueKeepsKeys(r: Relay, m: Message)
    requires OneAKey(r.queue)
    ensures OneAKey(Enqueued(r, m).queue)
  {
    var verdict := Judge(r, m);
    if verdict.Replaced? {
      PositionIsKey(r.queue, Entry(m, r.next), verdict.position);
    }
  }

  lemma {:induction false} TailOfCut(q: seq<Entry>, i: nat, k: nat, e: Entry)
    requires i < |q| && k <= |q|
    ensures var tail := (q[..i] + q[i + 1..] + [e])[k..];
            && (k <= i ==> tail == q[k..][..i - k] + q[k..][i - k + 1..] + [e])
            && (k > i ==> tail == (q[k..] + [e])[1..])
  {
  }

  /** How replacing an entry changes what a peer has yet to be sent. */
  lemma {:induction false} PendingReplaced(r: Relay, m: Message, p: Peer)
    requires Judge(r, m).Replaced? && p in r.peers && r.peers[p] <= |r.queue|
    ensures var i, k, old_, new_ := Judge(r, m).position, r.peers[p], Pending(r, p), Pending(Enqueued(r, m), p);
            && (k <= i ==> new_ == old_[..i - k] + old_[i - k + 1..] + [Entry(m, r.next)])
            && (k > i ==> new_ == (old_ + [Entry(m, r.next)])[1..])
  {
    hide Judge;
    TailOfCut(r.queue, Judge(r, m).position, r.peers[p], Entry(m, r.next));
  }

  lemma {:induction false} EnqueueKeepsOrder(r: Relay, m: Message, p: Peer)
    requires Inv(r)
    ensures InOrder(Enqueued(r, m), p)
  {
    assert InOrder(r, p);
    if Judge(r, m) != Ignored {
      BelowMore(Log(r, p), r.next);
      if p in r.peers {
        EnqueueKeepsRising(r, m, p);
      }
    }
  }

  lemma {:induction false} BelowMore(s: seq<Entry>, n: nat)
    requires Below(s, n)
    ensures Below(s, n + 1)
  {
  }

  lemma {:induction false} CutLater(log: seq<Entry>, rest: seq<Entry>, i: nat, n: nat)
    requires i < |rest| && RisingNumbers(log + rest) && Below(log + rest, n)
    ensures RisingNumbers(log + (rest[..i] + rest[i + 1..]))
  {
    Cut(log + rest, |log| + i, n);
    hide RisingNumbers, Below;
    var all := log + rest;
    assert all[..|log| + i] == log + rest[..i] && all[|log| + i + 1..] == rest[i + 1..];
    assert log + (rest[..i] + rest[i + 1..]) == all[..|log| + i] + all[|log| + i + 1..];
  }

  lemma {:induction false} EnqueueKeepsRising(r: Relay, m: Message, p: Peer)
    requires Inv(r) && p in r.peers && Judge(r, m) != Ignored
    ensures RisingNumbers(Log(r, p) + Pending(Enqueued(r, m), p))
  {
    hide OneAKey, Position, RisingNumbers, Below, Judge;
    assert InOrder(r, p);
    var verdict, e, r' := Judge(r, m), Entry(m, r.next), Enqueued(r, m);
    var log, old_ := Log(r, p), Pending(r, p);
    Part(r.queue, r.peers[p], |r.queue|, r.next);
    BelowBoth(log, old_, r.next);
    Extend(log + old_, e);
    assert log + old_ + [e] == log + (old_ + [e]);
    if verdict.Appended? {
      assert Pending(r', p) == old_ + [e];
    } else {
      PendingReplaced(r, m, p);
      var i, k, rest := verdict.position, r.peers[p], old_ + [e];
      var j := if k <= i then i - k else 0;
      hide Pending, Enqueued, Log, Inv, InOrder;
      assert rest[..j] + rest[j + 1..] == Pending(r', p);
      CutLater(log, rest, j, r.next + 1);
    }
  }

  lemma {:induction false} EnqueueKeepsQueue(r: Relay, m: Message)
    requires RisingNumbers(r.queue) && Below(r.queue, r.next)
    ensures RisingNumbers(Enqueued(r, m).queue) && Below(Enqueued(r, m).queue, Enqueued(r, m).next)
  {
    hide RisingNumbers, Below, Judge;
    Extend(r.queue, Entry(m, r.next));
    if Judge(r, m).Replaced? {
      var i := Judge(r, m).position;
      Cut(r.queue, i, r.next);
      Extend(r.queue[..i] + r.queue[i + 1..], Entry(m, r.next));
    }
  }

  lemma {:induction false} EnqueueKeeps(r: Relay, m: Message)
    requires Inv(r)
    ensures Inv(Enqueued(r, m))
  {
    hide OneAKey, Judge, InOrder, RisingNumbers, Below;
    EnqueueKeepsKeys(r, m);
    EnqueueKeepsQueue(r, m);
    forall p ensures InOrder(Enqueued(r, m), p) {
      EnqueueKeepsOrder(r, m, p);
    }
  }

  lemma {:induction false} TickKeeps(r: Relay)
    requires Inv(r)
    ensures Inv(Ticked(r)) && |Ticked(r).queue| <= r.maxLength && Ticked(r).peers.Keys == r.peers.Keys
    ensures forall p :: p in r.peers ==> Pending(Ticked(r), p) == []
  {
    var r' := Ticked(r);
    Part(r.queue, Excess(r), |r.queue|, r.next);
    forall p ensures InOrder(r', p) {
      assert InOrder(r, p);
      if p in r.peers {
        Part(r.queue, r.peers[p], |r.queue|, r.next);
        BelowBoth(Log(r, p), Pending(r, p), r.next);
        assert Log(r', p) + Pending(r', p) == Log(r, p) + Pending(r, p);
      } else if p in r.sent {
        assert Log(r', p) == Log(r, p);
      }
    }
  }

  /** A step that touches neither the queue, nor a log, nor a peer's index keeps its order. */
  lemma {:induction false} SameOrder(r: Relay, r': Relay, p: Peer)
    requires InOrder(r, p) && r'.queue == r.queue && r'.next == r.next && Log(r', p) == Log(r, p)
    requires p in r'.peers ==> (p in r.peers && r.peers[p] == r'.peers[p]) || r'.peers[p] == |r.queue|
    ensures InOrder(r', p)
  {
    hide RisingNumbers, Below;
    if p in r'.peers && r'.peers[p] == |r.queue| {
      assert Log(r', p) + Pending(r', p) == Log(r, p);
    }
  }

  lemma {:induction false} StepKeeps(r: Relay, e: Event)
    requires Inv(r)
    ensures Inv(Step(r, e))
  {
    hide OneAKey, RisingNumbers, Below, InOrder, Enqueued, Ticked;
    match e
    case Enqueue(m) => EnqueueKeeps(r, m);
    case Tick => TickKeeps(r);
    case _ =>
      forall p ensures InOrder(Step(r, e), p) {
        SameOrder(r, Step(r, e), p);
      }
  }

  /** In every run: indices inside the queue, one entry a key, and numbers that rise. */
  lemma {:induction false} RunIsSafe(es: seq<Event>, maxLength: nat)
    ensures Inv(Run(es, maxLength))
  {
    if es == [] {
      assert forall p :: InOrder(NewRelay(maxLength), p);
    } else {
      RunIsSafe(es[..|es| - 1], maxLength);
      StepKeeps(Run(es[..|es| - 1], maxLength), es[|es| - 1]);
    }
  }

  lemma {:induction false} NeverSentTwice(es: seq<Event>, maxLength: nat, p: Peer, i: nat, j: nat)
    requires i < |Log(Run(es, maxLength), p)| && j < |Log(Run(es, maxLength), p)| && i != j
    ensures Log(Run(es, maxLength), p)[i].number != Log(Run(es, maxLength), p)[j].number
  {
    RunIsSafe(es, maxLength);
    hide Run;
    assert InOrder(Run(es, maxLength), p);
  }

  // ---------------------------------------------------------------------------
  // What a peer should be sent

  /** What a peer has been sent since it was last added. */
  function Delivered(r: Relay, p: Peer): seq<Entry> {
    if p in r.start && r.start[p] <= |Log(r, p)| then Log(r, p)[r.start[p]..] else []
  }

  function Without(s: seq<Entry>, e: Entry): seq<Entry> {
    if s == [] then [] else if s[0] == e then s[1..] else [s[0]] + Without(s[1..], e)
  }

  /**
   What the relay owes a peer: all that was accepted since the peer was added, in order, less what was
   replaced before the peer was sent it.
  */
  ghost function Owed(es: seq<Event>, maxLength: nat, p: Peer): seq<Entry> {
    if es == [] then [] else
    var pre, e := es[..|es| - 1], es[|es| - 1];
    var r, before := Run(pre, maxLength), Owed(pre, maxLength, p);
    match e
    case Add(q) => if q == p then [] else before
    case Enqueue(m) => OwedAfter(r, before, m, p)
    case _ => before
  }

  function OwedAfter(r: Relay, before: seq<Entry>, m: Message, p: Peer): seq<Entry> {
    match Judge(r, m)
    case Ignored => before
    case Appended => before + [Entry(m, r.next)]
    case Replaced(i) => (if r.queue[i] in Delivered(r, p) then before else Without(before, r.queue[i])) + [Entry(m, r.next)]
  }

  /** A replacement at a place in the queue that is before the peer's index. */
  predicate Behind(r: Relay, m: Message, p: Peer) {
    Judge(r, m).Replaced? && p in r.peers && Judge(r, m).position < r.peers[p]
  }

  /** Since the peer was added something behind its index was replaced. */
  ghost predicate Skipped(es: seq<Event>, maxLength: nat, p: Peer) {
    if es == [] then false else
    var pre, e := es[..|es| - 1], es[|es| - 1];
    match e
    case Add(q) => q != p && Skipped(pre, maxLength, p)
    case Enqueue(m) => Skipped(pre, maxLength, p) || Behind(Run(pre, maxLength), m, p)
    case _ => Skipped(pre, maxLength, p)
  }

  function Got(r: Relay, p: Peer): seq<Entry> {
    Delivered(r, p) + Pending(r, p)
  }

  // ---------------------------------------------------------------------------
  // Exactly when a peer gets all of it

  lemma {:induction false} WithoutAt(s: seq<Entry>, i: nat)
    requires i < |s| && s[i] !in s[..i]
    ensures Without(s, s[i]) == s[..i] + s[i + 1..]
  {
    if i > 0 {
      assert s[0] in s[..i];
      assert s[1..][i - 1] == s[i] && s[1..][..i - 1] == s[..i][1..] && s[1..][i..] == s[i + 1..];
      WithoutAt(s[1..], i - 1);
      assert [s[0]] + s[..i][1..] == s[..i];
    }
  }

  lemma {:induction false} WithoutNothing(s: seq<Entry>, e: Entry)
    requires e !in s
    ensures Without(s, e) == s
  {
    if s != [] {
      WithoutNothing(s[1..], e);
    }
  }

  /** In a rising sequence an entry is taken out wholly, and nothing else is. */
  lemma {:induction false} WithoutIsCut(s: seq<Entry>, e: Entry, n: nat)
    requires RisingNumbers(s) && Below(s, n)
    ensures var w := Without(s, e);
            && RisingNumbers(w) && Below(w, n)
            && |w| == (if e in s then |s| - 1 else |s|)
            && (forall x :: x in w <==> x in s && x != e)
  {
    hide Without;
    if e in s {
      var i :| 0 <= i < |s| && s[i] == e;
      Once(s, i);
      hide RisingNumbers, Below;
      WithoutAt(s, i);
      Cut(s, i, n);
      assert s == s[..i] + [s[i]] + s[i + 1..];
    } else {
      WithoutNothing(s, e);
    }
  }

  lemma {:induction false} Once(s: seq<Entry>, i: nat)
    requires RisingNumbers(s) && i < |s|
    ensures s[i] !in s[..i] && s[i] !in s[i + 1..]
  {
  }

  /** All that was got is owed; something owed is missing if and only if something was skipped. */
  predicate Balanced(owed: seq<Entry>, got: seq<Entry>, skipped: bool) {
    && (forall x :: x in got ==> x in owed)
    && (if skipped then |got| < |owed| else got == owed)
  }

  ghost predicate Ledger(r: Relay, owed: seq<Entry>, skipped: bool, p: Peer) {
    && RisingNumbers(owed) && Below(owed, r.next)
    && (p in r.peers ==> Balanced(owed, Got(r, p), skipped))
  }

  lemma {:induction false} BalancedAhead(owed: seq<Entry>, got: seq<Entry>, skipped: bool, j: nat, e: Entry)
    requires Balanced(owed, got, skipped) && RisingNumbers(got) && j < |got|
    requires RisingNumbers(owed) && Below(owed, e.number)
    ensures Balanced(Without(owed, got[j]) + [e], got[..j] + got[j + 1..] + [e], skipped)
  {
    Once(got, j);
    WithoutIsCut(owed, got[j], e.number);
    WithoutAt(got, j);
    hide RisingNumbers, Below, Without;
    var rest := got[..j] + got[j + 1..];
    assert forall y :: y in rest ==> y in got && y != got[j];
  }

  lemma {:induction false} BalancedBehind(
      owed: seq<Entry>, d: seq<Entry>, pending: seq<Entry>, skipped: bool, x: Entry, e: Entry)
    requires Balanced(owed, d + pending, skipped) && x !in pending
    requires RisingNumbers(owed) && Below(owed, e.number)
    ensures Balanced((if x in d then owed else Without(owed, x)) + [e], d + (pending + [e])[1..], true)
  {
    WithoutIsCut(owed, x, e.number);
    hide RisingNumbers, Below, Without;
    var got' := d + (pending + [e])[1..];
    assert |got'| == |d + pending|;
    assert forall y :: y in got' ==> y in d + pending || y == e;
    assert forall y :: y in got' && y == x && x !in d ==> y == e;
    if !skipped && x !in d {
      assert x !in d + pending;
    }
  }

  lemma {:induction false} IndexInside(r: Relay, p: Peer)
    requires Inv(r) && p in r.peers
    ensures r.peers[p] <= |r.queue|
  {
  }

  lemma {:induction false} GotRises(r: Relay, p: Peer)
    requires Inv(r) && p in r.peers
    ensures RisingNumbers(Got(r, p))
  {
    assert InOrder(r, p);
    var all := Log(r, p) + Pending(r, p);
    assert Got(r, p) == all[r.start[p]..];
  }

  lemma {:induction false} OwedRises(r: Relay, owed: seq<Entry>, p: Peer, m: Message)
    requires RisingNumbers(owed) && Below(owed, r.next)
    ensures RisingNumbers(OwedAfter(r, owed, m, p)) && Below(OwedAfter(r, owed, m, p), Enqueued(r, m).next)
  {
    hide RisingNumbers, Below, Without;
    var e := Entry(m, r.next);
    Extend(owed, e);
    if Judge(r, m).Replaced? {
      var x := r.queue[Judge(r, m).position];
      WithoutIsCut(owed, x, r.next);
      Extend(Without(owed, x), e);
    }
  }

  lemma {:induction false} CutAfter(d: seq<Entry>, pending: seq<Entry>, i: nat, e: Entry)
    requires i < |pending| && RisingNumbers(d + pending)
    ensures pending[i] !in d
    ensures var got, j := d + pending, |d| + i;
            got[j] == pending[i] && d + (pending[..i] + pending[i + 1..] + [e]) == got[..j] + got[j + 1..] + [e]
  {
    var got, j := d + pending, |d| + i;
    Once(got, j);
    hide RisingNumbers;
    assert d == got[..j][..|d|];
    assert got[..j] == d + pending[..i];
    assert got[j + 1..] == pending[i + 1..];
  }

  lemma {:induction false} EnqueueKeepsDelivered(r: Relay, m: Message, p: Peer)
    ensures Delivered(Enqueued(r, m), p) == Delivered(r, p)
  {
    hide Judge;
    assert Log(Enqueued(r, m), p) == Log(r, p);
  }

  /** A replacement at or after the peer's index takes the entry out of what was got. */
  lemma {:induction false} GotReplaced(r: Relay, p: Peer, m: Message, i: nat, j: nat)
    requires p in r.peers && r.peers[p] <= |r.queue| && RisingNumbers(Got(r, p))
    requires Judge(r, m) == Replaced(i) && r.peers[p] <= i && j == |Delivered(r, p)| + i - r.peers[p]
    ensures j < |Got(r, p)| && Got(r, p)[j] == r.queue[i] && r.queue[i] !in Delivered(r, p)
    ensures Got(Enqueued(r, m), p) == Got(r, p)[..j] + Got(r, p)[j + 1..] + [Entry(m, r.next)]
  {
    hide Judge, RisingNumbers, Enqueued, Delivered, Log;
    var k, d, pending := r.peers[p], Delivered(r, p), Pending(r, p);
    assert |pending| == |r.queue| - k && pending[i - k] == r.queue[i];
    EnqueueKeepsDelivered(r, m, p);
    PendingReplaced(r, m, p);
    hide Pending;
    CutAfter(d, pending, i - k, Entry(m, r.next));
  }

  /** It keeps the ledger as it was. */
  lemma {:induction false} ReplacedAhead(r: Relay, owed: seq<Entry>, skipped: bool, p: Peer, m: Message)
    requires Inv(r) && Ledger(r, owed, skipped, p) && p in r.peers
    requires Judge(r, m).Replaced? && r.peers[p] <= Judge(r, m).position
    ensures Balanced(OwedAfter(r, owed, m, p), Got(Enqueued(r, m), p), skipped)
  {
    hide Judge, RisingNumbers, Below, Without, Inv, Balanced, Got, Delivered, Enqueued, RelayKeyOf, Pending;
    GotRises(r, p);
    assert r.peers[p] <= |r.queue| by { IndexInside(r, p); }
    var i, got, e := Judge(r, m).position, Got(r, p), Entry(m, r.next);
    var j := |Delivered(r, p)| + i - r.peers[p];
    GotReplaced(r, p, m, i, j);
    assert OwedAfter(r, owed, m, p) == Without(owed, got[j]) + [e];
    hide OwedAfter;
    BalancedAhead(owed, got, skipped, j, e);
  }

  /** A replacement behind the peer's index makes it skip an entry. */
  lemma {:induction false} ReplacedBehind(r: Relay, owed: seq<Entry>, skipped: bool, p: Peer, m: Message)
    requires Inv(r) && Ledger(r, owed, skipped, p) && Behind(r, m, p)
    ensures Balanced(OwedAfter(r, owed, m, p), Got(Enqueued(r, m), p), true)
  {
    hide Judge, OneAKey, RisingNumbers, Below, Without, InOrder, Balanced;
    var i, k, e := Judge(r, m).position, r.peers[p], Entry(m, r.next);
    var x, d, pending := r.queue[i], Delivered(r, p), Pending(r, p);
    Once(r.queue, i);
    assert x !in pending by {
      assert pending == r.queue[i + 1..][k - i - 1..];
    }
    PendingReplaced(r, m, p);
    assert Got(Enqueued(r, m), p) == d + (pending + [e])[1..];
    BalancedBehind(owed, d, pending, skipped, x, e);
  }

  /** An entry at the end of the queue is owed and got. */
  lemma {:induction false} AppendedLedger(r: Relay, owed: seq<Entry>, skipped: bool, p: Peer, m: Message)
    requires Inv(r) && Ledger(r, owed, skipped, p) && p in r.peers && Judge(r, m).Appended?
    ensures Balanced(OwedAfter(r, owed, m, p), Got(Enqueued(r, m), p), skipped)
  {
    hide Judge, OneAKey, RisingNumbers, Below, Without, InOrder;
    assert Pending(Enqueued(r, m), p) == Pending(r, p) + [Entry(m, r.next)];
    assert Got(Enqueued(r, m), p) == Got(r, p) + [Entry(m, r.next)];
  }

  lemma {:induction false} EnqueueLedger(r: Relay, owed: seq<Entry>, skipped: bool, p: Peer, m: Message)
    requires Inv(r) && Ledger(r, owed, skipped, p)
    ensures Ledger(Enqueued(r, m), OwedAfter(r, owed, m, p), skipped || Behind(r, m, p), p)
  {
    OwedRises(r, owed, p, m);
    hide OneAKey, RisingNumbers, Below, Without, InOrder, Balanced, RelayKeyOf, Position;
    if p in r.peers {
      match Judge(r, m)
      case Ignored =>
      case Appended => AppendedLedger(r, owed, skipped, p, m);
      case Replaced(i) =>
        if r.peers[p] <= i {
          ReplacedAhead(r, owed, skipped, p, m);
        } else {
          ReplacedBehind(r, owed, skipped, p, m);
        }
    }
  }

  /** Flushing and pruning lose nothing. */
  lemma {:induction false} TickLedger(r: Relay, p: Peer)
    requires Inv(r) && p in r.peers
    ensures Got(Ticked(r), p) == Got(r, p) == Delivered(Ticked(r), p)
  {
    hide OneAKey, RisingNumbers, Below, InOrder;
    var r' := Ticked(r);
    assert Log(r', p) == Log(r, p) + Pending(r, p);
    assert Delivered(r', p) == Delivered(r, p) + Pending(r, p);
    assert Pending(r', p) == [];
  }

  lemma {:induction false} StepLedger(r: Relay, e: Event, owed: seq<Entry>, skipped: bool, p: Peer)
    requires Inv(r) && Ledger(r, owed, skipped, p) && !e.Enqueue? && e != Add(p)
    ensures Ledger(Step(r, e), owed, skipped, p)
  {
    hide OneAKey, RisingNumbers, Below, InOrder, Balanced, Ticked;
    if e.Tick? {
      if r.active {
        TickKeeps(r);
        if p in r.peers { TickLedger(r, p); }
        TickNext(r);
      }
    } else if p in Step(r, e).peers {
      assert Got(Step(r, e), p) == Got(r, p);
    }
  }

  lemma {:induction false} TickNext(r: Relay)
    ensures Ticked(r).next == r.next
  {
  }

  lemma {:induction false} RunLedger(es: seq<Event>, maxLength: nat, p: Peer)
    ensures Ledger(Run(es, maxLength), Owed(es, maxLength, p), Skipped(es, maxLength, p), p)
  {
    if es == [] {
      assert Owed(es, maxLength, p) == [];
    } else {
      var pre, e := es[..|es| - 1], es[|es| - 1];
      var r, owed, skipped := Run(pre, maxLength), Owed(pre, maxLength, p), Skipped(pre, maxLength, p);
      RunLedger(pre, maxLength, p);
      RunIsSafe(pre, maxLength);
      hide Ledger, Inv, OwedAfter, Behind;
      if e.Enqueue? {
        EnqueueLedger(r, owed, skipped, p, e.message);
      } else if e == Add(p) {
        AddLedger(r, p);
      } else {
        StepLedger(r, e, owed, skipped, p);
      }
    }
  }

  lemma {:induction false} AddLedger(r: Relay, p: Peer)
    ensures Ledger(Added(r, p), [], false, p)
  {
    assert Got(Added(r, p), p) == [];
    Nothing(r.next);
  }

  lemma {:induction false} Nothing(n: nat)
    ensures RisingNumbers([]) && Below([], n)
  {
  }

  /**
   In every run a peer is sent only what it is owed; together with what is still pending that is all
   of it, in order, if and only if nothing behind its index was replaced since it was added.
  */
  lemma {:induction false} AllDeliveredIff(es: seq<Event>, maxLength: nat, p: Peer)
    requires p in Run(es, maxLength).peers
    ensures forall x :: x in Delivered(Run(es, maxLength), p) ==> x in Owed(es, maxLength, p)
    ensures Delivered(Run(es, maxLength), p) + Pending(Run(es, maxLength), p) == Owed(es, maxLength, p) <==>
            !Skipped(es, maxLength, p)
  {
    RunLedger(es, maxLength, p);
    hide Run, Owed, Skipped, Delivered, Pending, RisingNumbers, Below;
    var r := Run(es, maxLength);
    assert forall x :: x in Delivered(r, p) ==> x in Got(r, p);
  }

  /** A tick leaves nothing pending: then the log itself is what is owed. */
  lemma {:induction false} TickDelivers(es: seq<Event>, maxLength: nat, p: Peer)
    requires p in Run(es, maxLength).peers && Run(es, maxLength).active
    ensures var after := Run(es + [Tick], maxLength);
            && p in after.peers && |after.queue| <= maxLength
            && (Delivered(after, p) == Owed(es, maxLength, p) <==> !Skipped(es, maxLength, p))
  {
    hide Run, Owed, Skipped, Delivered, Pending, RisingNumbers, Below, Inv, Ticked;
    RunMore(es, Tick, maxLength);
    RunIsSafe(es, maxLength);
    TickLedger(Run(es, maxLength), p);
    AllDeliveredIff(es, maxLength, p);
    TickKeeps(Run(es, maxLength));
    SameMaximum(es, maxLength);
  }

  lemma {:induction false} SameMaximum(es: seq<Event>, maxLength: nat)
    ensures Run(es, maxLength).maxLength == maxLength
  {
    if es != [] {
      SameMaximum(es[..|es| - 1], maxLength);
    }
  }

  /** What replaces an entry is not pending for a peer that is up to date. */
  lemma {:induction false} UpToDateMissesReplacement(r: Relay, m: Message, p: Peer)
    requires p in r.peers && r.peers[p] == |r.queue| && Judge(r, m).Replaced?
    ensures Pending(Enqueued(r, m), p) == [] && Behind(r, m, p)
  {
  }

  /** The entry with a number is neither sent to a peer nor pending for it, and the number is used up. */
  ghost predicate Missed(r: Relay, p: Peer, n: nat) {
    && n < r.next
    && (forall e :: e in Log(r, p) ==> e.number != n)
    && (forall e :: e in Pending(r, p) ==> e.number > n)
  }

  lemma {:induction false} EnqueueStillMissed(r: Relay, m: Message, p: Peer, n: nat)
    requires Safe(r) && Missed(r, p, n)
    ensures Missed(Enqueued(r, m), p, n)
  {
    var r' := Enqueued(r, m);
    if Judge(r, m) != Ignored && p in r.peers {
      if Judge(r, m).Replaced? {
        PendingReplaced(r, m, p);
      }
      hide Judge, RelayKeyOf;
      forall e | e in Pending(r', p) ensures e in Pending(r, p) || e == Entry(m, r.next) {
      }
    }
  }

  lemma {:induction false} StepStillMissed(r: Relay, e: Event, p: Peer, n: nat)
    requires Safe(r) && Missed(r, p, n)
    ensures Missed(Step(r, e), p, n)
  {
    match e
    case Enqueue(m) => EnqueueStillMissed(r, m, p, n);
    case Tick =>
      if r.active && p in r.peers {
        var r' := Ticked(r);
        assert Log(r', p) == Log(r, p) + Pending(r, p) && Pending(r', p) == [];
      }
    case _ =>
  }

  /**
   In every run, what replaces an entry while a peer is up to date is never sent to that peer, whatever
   comes later.
  */
  lemma {:induction false} ReplacementNeverSent(
    es: seq<Event>, m: Message, more: seq<Event>, maxLength: nat, p: Peer)
    requires var r := Run(es, maxLength); p in r.peers && r.peers[p] == |r.queue| && Judge(r, m).Replaced?
    ensures Missed(Run(es + [Enqueue(m)] + more, maxLength), p, Run(es, maxLength).next)
    decreases |more|
  {
    hide Run, Missed, Judge, Inv, OneAKey, RisingNumbers;
    if more == [] {
      var r := Run(es, maxLength);
      assert es + [Enqueue(m)] + [] == es + [Enqueue(m)];
      RunMore(es, Enqueue(m), maxLength);
      UpToDateMissesReplacement(r, m, p);
      RunIsSafe(es, maxLength);
      ReplacedIsMissed(r, m, p);
    } else {
      var pre, e := more[..|more| - 1], more[|more| - 1];
      ReplacementNeverSent(es, m, pre, maxLength, p);
      assert es + [Enqueue(m)] + more == (es + [Enqueue(m)] + pre) + [e];
      RunMore(es + [Enqueue(m)] + pre, e, maxLength);
      RunIsSafe(es + [Enqueue(m)] + pre, maxLength);
      InvIsSafe(Run(es + [Enqueue(m)] + pre, maxLength));
      StepStillMissed(Run(es + [Enqueue(m)] + pre, maxLength), e, p, Run(es, maxLength).next);
    }
  }

  lemma {:induction false} InvIsSafe(r: Relay)
    requires Inv(r)
    ensures Safe(r)
  {
  }

  lemma {:induction false} ReplacedIsMissed(r: Relay, m: Message, p: Peer)
    requires Inv(r) && Judge(r, m).Replaced? && Pending(Enqueued(r, m), p) == []
    ensures Missed(Enqueued(r, m), p, r.next)
  {
    assert InOrder(r, p);
    hide Judge, OneAKey, RisingNumbers;
  }

  lemma {:induction false} RunMore(es: seq<Event>, e: Event, maxLength: nat)
    ensures Run(es + [e], maxLength) == Step(Run(es, maxLength), e)
  {
    assert (es + [e])[..|es|] == es;
  }

  /** The relay with one peer. */
  function Single(queue: seq<Entry>, p: Peer, index: nat, log: seq<Entry>, next: nat): Relay {
    Relay(true, queue, map[p := index], 9, map[p := log], map[p := 0], next)
  }

  lemma {:induction false} SingleTick(queue: seq<Entry>, p: Peer, index: nat, log: seq<Entry>, next: nat)
    requires index <= |queue| <= 9
    ensures Ticked(Single(queue, p, index, log, next)) == Single(queue, p, |queue|, log + queue[index..], next)
  {
    var r := Single(queue, p, index, log, next);
    assert Pending(r, p) == queue[index..];
    assert Ticked(r).sent == map[p := log + queue[index..]];
    assert Ticked(r).peers == map[p := |queue|];
  }

  lemma {:induction false} SingleReplaced(older: Entry, newer: Message, p: Peer)
    requires older.message.ChannelUpdate? && newer.ChannelUpdate?
    requires RelayKeyOf(older.message) == RelayKeyOf(newer) && older.message.timestamp < newer.timestamp
    ensures Enqueued(Single([older], p, 1, [older], 1), newer) == Single([Entry(newer, 1)], p, 1, [older], 2)
  {
    var r := Single([older], p, 1, [older], 1);
    assert Judge(r, newer) == Replaced(0);
    assert r.queue[..0] + r.queue[1..] == [];
  }

  lemma {:induction false} SingleFirst(m: Message, p: Peer)
    requires m.ChannelUpdate?
    ensures Enqueued(Single([], p, 0, [], 0), m) == Single([Entry(m, 0)], p, 0, [], 1)
  {
  }

  /** The events of the example: an update, the next tick, a newer update and another tick. */
  function Example(older: Message, newer: Message, p: Peer): seq<Event> {
    Sent(older, p) + [Enqueue(newer)] + [Tick]
  }

  function Sent(m: Message, p: Peer): seq<Event> {
    [Start] + [Add(p)] + [Enqueue(m)] + [Tick]
  }

  lemma {:induction false} RunSent(m: Message, p: Peer)
    requires m.ChannelUpdate?
    ensures Run(Sent(m, p), 9) == Single([Entry(m, 0)], p, 1, [Entry(m, 0)], 1)
  {
    hide Run, Single, Enqueued, Ticked, Inv;
    RunStart(p);
    RunMore([Start] + [Add(p)], Enqueue(m), 9);
    SingleFirst(m, p);
    RunMore([Start] + [Add(p)] + [Enqueue(m)], Tick, 9);
    SingleActive([Entry(m, 0)], p, 0, [], 1);
    SingleTick([Entry(m, 0)], p, 0, [], 1);
    assert [] + [Entry(m, 0)][0..] == [Entry(m, 0)];
  }

  /** For instance: a channel update that replaces one the peer has is skipped, and stays so. */
  lemma {:induction false} ReplacementSkips(older: Message, newer: Message, p: Peer, more: seq<Event>)
    requires older.ChannelUpdate? && newer.ChannelUpdate? && RelayKeyOf(older) == RelayKeyOf(newer)
    requires older.timestamp < newer.timestamp
    ensures Run(Example(older, newer, p), 9) == Single([Entry(newer, 1)], p, 1, [Entry(older, 0)], 2)
    ensures forall e :: e in Log(Run(Sent(older, p) + [Enqueue(newer)] + more, 9), p) ==> e.number != 1
  {
    var sent, unsent := Entry(older, 0), Entry(newer, 1);
    assert Judge(Single([sent], p, 1, [sent], 1), newer) == Replaced(0);
    hide Run, Enqueued, Ticked, Inv, Sent, Judge;
    RunSent(older, p);
    ReplacementNeverSent(Sent(older, p), newer, more, 9, p);
    hide Single;
    RunMore(Sent(older, p), Enqueue(newer), 9);
    SingleReplaced(sent, newer, p);
    RunMore(Sent(older, p) + [Enqueue(newer)], Tick, 9);
    SingleActive([unsent], p, 1, [sent], 2);
    SingleTick([unsent], p, 1, [sent], 2);
    assert [sent] + [unsent][1..] == [sent];
  }

  lemma {:induction false} SingleActive(queue: seq<Entry>, p: Peer, index: nat, log: seq<Entry>, next: nat)
    ensures Single(queue, p, index, log, next).active
  {
  }

  lemma {:induction false} RunStart(p: Peer)
    ensures Run([Start] + [Add(p)], 9) == Single([], p, 0, [], 0)
  {
    RunMore([], Start, 9);
    assert [] + [Start] == [Start];
    RunMore([Start], Add(p), 9);
  }

  // ---------------------------------------------------------------------------
  // The class goes through the same runs

  /** A relay on which the calls have been made one after the other is where the run of those events leads. */
  method Play(es: seq<Event>, maxLength: nat) returns (relay: GossipRelay)
    ensures fresh(relay) && relay.View() == Run(es, maxLength)
  {
    relay := new GossipRelay(maxLength);
    for i := 0 to |es|
      invariant fresh(relay) && relay.View() == Run(es[..i], maxLength)
    {
      assert es[..i + 1][..i] == es[..i];
      RunIsSafe(es[..i], maxLength);
      match es[i] {
        case Start => relay.StartRelay();
        case Stop => relay.StopRelay();
        case Add(peer) => relay.AddPeer(peer);
        case Remove(peer) => relay.RemovePeer(peer);
        case Enqueue(m) => relay.EnqueueMessage(m);
        case Tick => if relay.active { relay.OnTimer(); }
      }
    }
    assert es[..|es|] == es;
  }
}
