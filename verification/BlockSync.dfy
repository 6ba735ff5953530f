/**
 Following the best chain: the two-pointer `BlockDiffer` and the follow-the-tip `BlockWatcher`
 against one reference, the longest common prefix of two chains.
*/
module BlockSync {
  import opened Common

  type Hash = nat

  datatype Header = Header(hash: Hash, height: nat, previous: Option<Hash>)

  /** All headers bitcoind knows, on the best chain or off it. */
  type Blocks = map<Hash, Header>

  /** A tree of headers over one genesis block. */
  ghost predicate IsTree(t: Blocks) {
    && (forall h :: h in t ==> t[h].hash == h)
    && (forall h :: h in t ==> (t[h].previous.None? <==> t[h].height == 0))
    && (forall h :: h in t && t[h].previous.Some? ==>
          t[h].previous.value in t && t[t[h].previous.value].height + 1 == t[h].height)
    && (forall g, h :: g in t && h in t && t[g].height == 0 && t[h].height == 0 ==> g == h)
  }

  predicate InTree(t: Blocks, h: Header) {
    h.hash in t && t[h.hash] == h
  }

  /** The chain that ends in h, genesis first. */
  ghost function ChainOf(t: Blocks, h: Header): (c: seq<Header>)
    requires IsTree(t) && InTree(t, h)
    ensures |c| == h.height + 1 && c[h.height] == h
    decreases h.height
  {
    if h.previous.None? then [h] else ChainOf(t, t[h.previous.value]) + [h]
  }

  lemma {:induction false} ChainShape(t: Blocks, h: Header, k: nat)
    requires IsTree(t) && InTree(t, h) && k <= h.height
    ensures var c := ChainOf(t, h); InTree(t, c[k]) && c[k].height == k && ChainOf(t, c[k]) == c[..k + 1]
    decreases h.height
  {
    var c := ChainOf(t, h);
    if k == h.height {
      assert c[..k + 1] == c;
    } else {
      var p := t[h.previous.value];
      ChainShape(t, p, k);
      assert c[..k + 1] == ChainOf(t, p)[..k + 1];
    }
  }

  lemma Parent(t: Blocks, h: Header)
    requires IsTree(t) && InTree(t, h)
    ensures h.previous.None? <==> h.height == 0
    ensures h.previous.Some? ==>
      && h.previous.value in t && InTree(t, t[h.previous.value])
      && t[h.previous.value].height == h.height - 1
      && ChainOf(t, h) == ChainOf(t, t[h.previous.value]) + [h]
  {
  }

  // ---------------------------------------------------------------------------
  // The reference

  function Reverse<T>(s: seq<T>): (r: seq<T>)
    ensures |r| == |s|
  {
    if s == [] then [] else [s[|s| - 1]] + Reverse(s[..|s| - 1])
  }

  /** How many blocks two chains share from genesis on. */
  ghost function Shared(a: seq<Header>, b: seq<Header>): (n: nat)
    ensures n <= |a| && n <= |b|
    ensures a[..n] == b[..n]
    ensures n < |a| && n < |b| ==> a[n] != b[n]
    decreases |a|
  {
    if a == [] || b == [] || a[0] != b[0] then 0
    else
      var n := Shared(a[1..], b[1..]);
      assert a[..n + 1] == [a[0]] + a[1..][..n];
      assert b[..n + 1] == [b[0]] + b[1..][..n];
      n + 1
  }

  /** What has to be undone and done to get from the chain of `prior` to the chain of `current`. */
  datatype Difference = Difference(common: Header, disconnects: seq<Header>, connects: seq<Header>)

  ghost function Reference(t: Blocks, current: Header, prior: Header): Difference
    requires IsTree(t) && InTree(t, current) && InTree(t, prior)
  {
    var a, b := ChainOf(t, prior), ChainOf(t, current);
    SharedGenesis(t, prior, current);
    var n := Shared(a, b);
    Difference(a[n - 1], Reverse(a[n..]), b[n..])
  }

  /** Chains over one genesis block share at least that. */
  lemma {:induction false} SharedGenesis(t: Blocks, g: Header, h: Header)
    requires IsTree(t) && InTree(t, g) && InTree(t, h)
    ensures Shared(ChainOf(t, g), ChainOf(t, h)) >= 1
  {
    ChainShape(t, g, 0);
    ChainShape(t, h, 0);
  }

  lemma {:induction false} PrefixIsShared(a: seq<Header>, b: seq<Header>, m: nat)
    requires m <= |a| && m <= |b| && a[..m] == b[..m]
    ensures m <= Shared(a, b)
    decreases m
  {
    if m > 0 {
      assert a[0] == a[..m][0] == b[..m][0] == b[0];
      assert a[1..][..m - 1] == a[..m][1..] == b[..m][1..] == b[1..][..m - 1];
      PrefixIsShared(a[1..], b[1..], m - 1);
    }
  }

  /** Once two chains differ they never meet again. */
  lemma {:induction false} SharedMeansEqual(t: Blocks, g: Header, h: Header, k: nat)
    requires IsTree(t) && InTree(t, g) && InTree(t, h) && k <= g.height && k <= h.height
    ensures ChainOf(t, g)[k] == ChainOf(t, h)[k] <==> k < Shared(ChainOf(t, g), ChainOf(t, h))
  {
    hide IsTree, ChainOf, Shared;
    var a, b := ChainOf(t, g), ChainOf(t, h);
    var n := Shared(a, b);
    ChainShape(t, g, k);
    ChainShape(t, h, k);
    if a[k] == b[k] {
      PrefixIsShared(a, b, k + 1);
    }
    if k < n {
      assert a[k] == a[..n][k] == b[..n][k] == b[k];
    }
  }

  /** Undoing the disconnects and applying the connects turns one chain into the other, through their highest common ancestor. */
  lemma {:induction false} ReferenceIsRight(t: Blocks, current: Header, prior: Header)
    requires IsTree(t) && InTree(t, current) && InTree(t, prior)
    ensures var d := Reference(t, current, prior);
      && InTree(t, d.common)
      && ChainOf(t, prior) == ChainOf(t, d.common) + Reverse(d.disconnects)
      && ChainOf(t, current) == ChainOf(t, d.common) + d.connects
      && forall h :: h in ChainOf(t, prior) && h in ChainOf(t, current) ==> h in ChainOf(t, d.common)
  {
    hide IsTree, ChainOf, Shared, Reverse;
    var a, b := ChainOf(t, prior), ChainOf(t, current);
    var n := Shared(a, b);
    SharedGenesis(t, prior, current);
    ChainShape(t, prior, n - 1);
    ReverseTwice(a[n..]);
    assert a == a[..n] + a[n..] && b == b[..n] + b[n..];
    forall h | h in a && h in b
      ensures h in a[..n]
    {
      CommonIsShared(t, prior, current, h);
    }
  }

  lemma {:induction false} CommonIsShared(t: Blocks, g: Header, k: Header, h: Header)
    requires IsTree(t) && InTree(t, g) && InTree(t, k) && h in ChainOf(t, g) && h in ChainOf(t, k)
    ensures h in ChainOf(t, g)[..Shared(ChainOf(t, g), ChainOf(t, k))]
  {
    hide IsTree, ChainOf, Shared;
    var a, b := ChainOf(t, g), ChainOf(t, k);
    var i :| 0 <= i < |a| && a[i] == h;
    var j :| 0 <= j < |b| && b[j] == h;
    ChainShape(t, g, i);
    ChainShape(t, k, j);
    SharedMeansEqual(t, g, k, i);
    assert h == a[..Shared(a, b)][i];
  }

  lemma {:induction false} ReverseAppend<T>(s: seq<T>, x: T)
    ensures Reverse(s + [x]) == [x] + Reverse(s)
  {
    assert (s + [x])[..|s|] == s;
  }

  lemma {:induction false} ReversePrepend<T>(x: T, s: seq<T>)
    ensures Reverse([x] + s) == Reverse(s) + [x]
    decreases |s|
  {
    if s == [] {
      assert [x] + s == [] + [x];
    } else {
      var n := |s| - 1;
      assert [x] + s == ([x] + s[..n]) + [s[n]];
      ReverseAppend([x] + s[..n], s[n]);
      ReversePrepend(x, s[..n]);
    }
  }

  lemma {:induction false} ReverseTwice<T>(s: seq<T>)
    ensures Reverse(Reverse(s)) == s
    decreases |s|
  {
    if s != [] {
      var n := |s| - 1;
      ReversePrepend(s[n], Reverse(s[..n]));
      ReverseTwice(s[..n]);
      assert s == s[..n] + [s[n]];
    }
  }

  // ---------------------------------------------------------------------------
  // BlockDiffer

  /** How far the loop has come down from `top`: to `h`, having collected `path`. */
  ghost predicate CameDown(t: Blocks, top: Header, h: Header, path: seq<Header>)
    requires IsTree(t) && InTree(t, top)
  {
    InTree(t, h) && ChainOf(t, top) == ChainOf(t, h) + Reverse(path)
  }

  lemma {:induction false} StepDown(t: Blocks, top: Header, h: Header, path: seq<Header>)
    requires IsTree(t) && InTree(t, top) && CameDown(t, top, h, path)
    ensures h.previous.None? <==> h.height == 0
    ensures h.previous.Some? ==>
      && h.previous.value in t
      && t[h.previous.value].height == h.height - 1
      && CameDown(t, top, t[h.previous.value], path + [h])
  {
    hide IsTree, ChainOf, Reverse;
    Parent(t, h);
    ReverseAppend(path, h);
  }

  lemma StartDown(t: Blocks, top: Header)
    requires IsTree(t) && InTree(t, top)
    ensures CameDown(t, top, top, [])
  {
  }

  lemma {:induction false} MetAtShared(t: Blocks, current: Header, prior: Header, meet: Header, down: seq<Header>, up: seq<Header>)
    requires IsTree(t) && InTree(t, current) && InTree(t, prior)
    requires CameDown(t, prior, meet, down) && CameDown(t, current, meet, up)
    requires down == [] || (up != [] && down[|down| - 1] != up[|up| - 1])
    ensures Difference(meet, down, Reverse(up)) == Reference(t, current, prior)
  {
    var a, b, m := ChainOf(t, prior), ChainOf(t, current), ChainOf(t, meet);
    var n := Shared(a, b);
    SharedMeansEqual(t, prior, current, |m| - 1);
    assert a[|m| - 1] == m[|m| - 1] == b[|m| - 1];
    if down != [] {
      ReverseFirst(down);
      ReverseFirst(up);
      assert a[|m|] == Reverse(down)[0] && b[|m|] == Reverse(up)[0];
      SharedMeansEqual(t, prior, current, |m|);
    }
    assert n == |m|;
    assert a[n..] == Reverse(down) && b[n..] == Reverse(up);
    ReverseTwice(down);
  }

  lemma ReverseFirst<T>(s: seq<T>)
    requires s != []
    ensures Reverse(s)[0] == s[|s| - 1]
  {
  }

  /**
   `diff`; None where it throws, asking for the block before genesis. It does so exactly when the
   prior block is higher than the current one: both pointers then move and the gap never closes.
  */
  method Diff(t: Blocks, current: Header, prior: Header) returns (r: Option<Difference>)
    requires IsTree(t) && InTree(t, current) && InTree(t, prior)
    ensures r.Some? <==> prior.height <= current.height
    ensures r.Some? ==> r.value == Reference(t, current, prior)
  {
    hide IsTree, CameDown, Reference;
    var currentHeader, priorHeader := current, prior;
    var disconnects: seq<Header>, connects: seq<Header> := [], [];
    StartDown(t, current);
    StartDown(t, prior);
    while true
      invariant CameDown(t, prior, priorHeader, disconnects)
      invariant CameDown(t, current, currentHeader, connects)
      invariant priorHeader.height <= currentHeader.height <==> prior.height <= current.height
      invariant prior.height <= current.height && disconnects != [] ==>
        connects != [] && disconnects[|disconnects| - 1] != connects[|connects| - 1]
        && priorHeader.height == currentHeader.height
      decreases currentHeader.height + priorHeader.height
    {
      SameBlock(t, current, prior, currentHeader, priorHeader, connects, disconnects);
      if currentHeader.hash == priorHeader.hash { break; }
      if priorHeader.height >= currentHeader.height {
        StepDown(t, prior, priorHeader, disconnects);
        if priorHeader.previous.None? { return None; }
        disconnects := disconnects + [priorHeader];
        priorHeader := t[priorHeader.previous.value];
      }
      if currentHeader.height >= priorHeader.height {
        StepDown(t, current, currentHeader, connects);
        if currentHeader.previous.None? { return None; }
        connects := connects + [currentHeader];
        currentHeader := t[currentHeader.previous.value];
      }
    }
    MetAtShared(t, current, prior, currentHeader, disconnects, connects);
    return Some(Difference(currentHeader, disconnects, Reverse(connects)));
  }

  /** Hashes tell headers apart, and there is one genesis. */
  lemma SameBlock(t: Blocks, current: Header, prior: Header, c: Header, p: Header, up: seq<Header>, down: seq<Header>)
    requires IsTree(t) && InTree(t, current) && InTree(t, prior)
    requires CameDown(t, current, c, up) && CameDown(t, prior, p, down)
    ensures c.hash == p.hash <==> c == p
    ensures c.height == 0 && p.height == 0 ==> c == p
  {
    hide ChainOf, Reverse;
  }

  // ---------------------------------------------------------------------------
  // BlockWatcher

  datatype Event = Disconnected(block: Header) | Connected(block: Header)

  /** What one `_sync` sees of bitcoind: all headers, and the tip of a best chain that stays put meanwhile. */
  datatype View = View(blocks: Blocks, tip: Header)

  ghost predicate ValidView(v: View) {
    IsTree(v.blocks) && InTree(v.blocks, v.tip)
  }

  ghost function Best(v: View): seq<Header>
    requires ValidView(v)
  {
    ChainOf(v.blocks, v.tip)
  }

  ghost predicate OnBest(v: View, h: Header)
    requires ValidView(v)
  {
    h.height <= v.tip.height && Best(v)[h.height] == h
  }

  /** `confirmations < 0` and `nextblockhash`, answered by walking down from the tip. */
  method Lookup(v: View, h: Header) returns (confirmed: bool, next: Option<Header>)
    requires ValidView(v) && InTree(v.blocks, h)
    ensures confirmed <==> OnBest(v, h)
    ensures next == if confirmed && h.height < v.tip.height then Some(Best(v)[h.height + 1]) else None
  {
    hide IsTree, ChainOf;
    var b := v.tip;
    next := None;
    ChainShape(v.blocks, v.tip, v.tip.height);
    while b.height > h.height
      invariant b.height <= v.tip.height && Best(v)[b.height] == b && InTree(v.blocks, b)
      invariant b == v.tip || b.height >= h.height
      invariant next == if b.height < v.tip.height then Some(Best(v)[b.height + 1]) else None
      invariant next.Some? ==> b.height < v.tip.height
      decreases b.height
    {
      StepBack(v, b);
      next := Some(b);
      b := v.blocks[b.previous.value];
    }
    confirmed := b == h;
    if !confirmed { next := None; }
  }

  lemma {:induction false} StepBack(v: View, b: Header)
    requires ValidView(v) && 0 < b.height <= v.tip.height && Best(v)[b.height] == b && InTree(v.blocks, b)
    ensures b.previous.Some? && b.previous.value in v.blocks
    ensures InTree(v.blocks, v.blocks[b.previous.value])
    ensures v.blocks[b.previous.value].height == b.height - 1
    ensures Best(v)[b.height - 1] == v.blocks[b.previous.value]
  {
    hide IsTree, ChainOf;
    Parent(v.blocks, b);
    ChainShape(v.blocks, v.tip, b.height);
    assert Best(v)[b.height - 1] == ChainOf(v.blocks, b)[b.height - 1];
  }

  function Downs(blocks: seq<Header>): (r: seq<Event>)
    ensures |r| == |blocks|
  {
    seq(|blocks|, i requires 0 <= i < |blocks| => Disconnected(blocks[i]))
  }

  function Ups(blocks: seq<Header>): (r: seq<Event>)
    ensures |r| == |blocks|
  {
    seq(|blocks|, i requires 0 <= i < |blocks| => Connected(blocks[i]))
  }

  /** What still has to happen to get from a known block to the tip. */
  ghost function Pending(v: View, known: Header): seq<Event>
    requires ValidView(v) && InTree(v.blocks, known)
  {
    var d := Reference(v.blocks, v.tip, known);
    Downs(d.disconnects) + Ups(d.connects)
  }

  /** Off the best chain, the known block itself is undone first. */
  lemma {:induction false} UndoFirst(v: View, known: Header)
    requires ValidView(v) && InTree(v.blocks, known) && !OnBest(v, known)
    ensures known.previous.Some? && known.previous.value in v.blocks && InTree(v.blocks, v.blocks[known.previous.value])
    ensures v.blocks[known.previous.value].height < known.height
    ensures Pending(v, known) == [Disconnected(known)] + Pending(v, v.blocks[known.previous.value])
  {
    var t := v.blocks;
    hide IsTree, ChainOf, Shared;
    Parent(t, known);
    NotGenesis(v, known);
    var p := t[known.previous.value];
    var a, b, c := ChainOf(t, known), Best(v), ChainOf(t, p);
    SharedOfShorter(v, known, p);
    var n := Shared(a, b);
    SharedGenesis(t, p, v.tip);
    SharedGenesis(t, known, v.tip);
    assert a == c + [known];
    assert a[n..] == c[n..] + [known];
    ReverseAppend(c[n..], known);
    assert Downs([known] + Reverse(c[n..])) == [Disconnected(known)] + Downs(Reverse(c[n..]));
  }

  lemma {:induction false} NotGenesis(v: View, known: Header)
    requires ValidView(v) && InTree(v.blocks, known) && !OnBest(v, known)
    ensures known.height > 0
  {
    hide ChainOf;
    ChainShape(v.blocks, v.tip, 0);
  }

  lemma {:induction false} SharedOfShorter(v: View, known: Header, p: Header)
    requires ValidView(v) && InTree(v.blocks, known) && !OnBest(v, known) && InTree(v.blocks, p)
    requires ChainOf(v.blocks, known) == ChainOf(v.blocks, p) + [known]
    ensures Shared(ChainOf(v.blocks, known), Best(v)) == Shared(ChainOf(v.blocks, p), Best(v))
  {
    hide IsTree, ChainOf, Shared;
    var a, b, c := ChainOf(v.blocks, known), Best(v), ChainOf(v.blocks, p);
    var n, m := Shared(a, b), Shared(c, b);
    if known.height <= v.tip.height { SharedMeansEqual(v.blocks, known, v.tip, known.height); }
    assert n <= |c|;
    assert a[..n] == c[..n] && a[..m] == c[..m];
    PrefixIsShared(c, b, n);
    PrefixIsShared(a, b, m);
  }

  /** On the best chain below the tip, the next block is connected first. */
  lemma {:induction false} ConnectFirst(v: View, known: Header)
    requires ValidView(v) && InTree(v.blocks, known) && OnBest(v, known) && known != v.tip
    ensures known.height < v.tip.height
    ensures var next := Best(v)[known.height + 1]; InTree(v.blocks, next) && OnBest(v, next) && next.height == known.height + 1
    ensures Pending(v, known) == [Connected(Best(v)[known.height + 1])] + Pending(v, Best(v)[known.height + 1])
  {
    hide IsTree, ChainOf, Shared, Pending, Reference;
    ChainShape(v.blocks, v.tip, known.height + 1);
    OnBestPending(v, known);
    OnBestPending(v, Best(v)[known.height + 1]);
    var b, k := Best(v), known.height + 1;
    assert b[k..] == [b[k]] + b[k + 1..];
    assert Ups([b[k]] + b[k + 1..]) == [Connected(b[k])] + Ups(b[k + 1..]);
  }

  /** On the best chain there is nothing to undo. */
  lemma {:induction false} OnBestPending(v: View, h: Header)
    requires ValidView(v) && InTree(v.blocks, h) && OnBest(v, h)
    ensures Pending(v, h) == Ups(Best(v)[h.height + 1..])
  {
    hide IsTree, ChainOf, Shared;
    var a, b := ChainOf(v.blocks, h), Best(v);
    ChainShape(v.blocks, v.tip, h.height);
    assert a == b[..h.height + 1];
    PrefixIsShared(a, b, h.height + 1);
    assert a[..] == a;
    assert a[|a|..] == [];
    assert Reverse<Header>([]) == [];
  }

  class BlockWatcher {
    var knownHash: Option<Hash>
    var syncing: bool
    var events: seq<Event>   // what the two handlers were called with

    constructor (knownHash: Option<Hash>)
      ensures this.knownHash == knownHash && !syncing && events == []
    {
      this.knownHash := knownHash;
      syncing, events := false, [];
    }

    /**
     `_sync`; false where it throws, bitcoind not knowing the last known block. `syncing` then stays
     set, and every later call returns at once.
    */
    method Sync(v: View) returns (ok: bool)
      requires ValidView(v)
      modifies this
      ensures old(syncing) ==> ok && syncing && knownHash == old(knownHash) && events == old(events)
      ensures !old(syncing) && old(knownHash).None? ==>
        ok && !syncing && knownHash == Some(v.tip.hash) && events == old(events)
      ensures !old(syncing) && old(knownHash).Some? && old(knownHash).value !in v.blocks ==>
        !ok && syncing && knownHash == old(knownHash) && events == old(events)
      ensures !old(syncing) && old(knownHash).Some? && old(knownHash).value in v.blocks ==>
        ok && !syncing && knownHash == Some(v.tip.hash)
        && InTree(v.blocks, v.blocks[old(knownHash).value])
        && events == old(events) + Pending(v, v.blocks[old(knownHash).value])
    {
      if syncing { return true; }
      syncing := true;
      NothingPending(v);
      assert events + [] == events;
      if knownHash.None? { knownHash := Some(v.tip.hash); }
      if knownHash.value !in v.blocks { return false; }
      Follow(v);
      syncing := false;
      return true;
    }

    /** The loop of `_sync`. */
    method Follow(v: View)
      requires ValidView(v) && knownHash.Some? && knownHash.value in v.blocks
      modifies this`knownHash, this`events
      ensures InTree(v.blocks, v.blocks[old(knownHash).value])
      ensures knownHash == Some(v.tip.hash)
      ensures events == old(events) + Pending(v, v.blocks[old(knownHash).value])
    {
      hide IsTree, ChainOf, Pending, OnBest;
      TreeFacts(v, knownHash.value);
      ghost var goal := events + Pending(v, v.blocks[knownHash.value]);
      while true
        invariant knownHash.Some? && knownHash.value in v.blocks
        invariant InTree(v.blocks, v.blocks[knownHash.value]) && v.blocks[knownHash.value].hash == knownHash.value
        invariant events + Pending(v, v.blocks[knownHash.value]) == goal
        decreases Distance(v, v.blocks[knownHash.value])
      {
        if knownHash == Some(v.tip.hash) { break; }
        var knownHeader := v.blocks[knownHash.value];
        var confirmed, next := Lookup(v, knownHeader);
        if !confirmed {
          UndoFirst(v, knownHeader);
          TreeFacts(v, knownHeader.previous.value);
          events := events + [Disconnected(knownHeader)];
          knownHash := knownHeader.previous;
          continue;
        }
        ConnectFirst(v, knownHeader);
        if next.Some? {
          events := events + [Connected(next.value)];
          knownHash := Some(next.value.hash);
          continue;
        }
      }
      NothingPending(v);
      assert events + [] == events;
    }
  }

  /** How far a known block is from the tip, on the best chain or off it. */
  ghost function Distance(v: View, h: Header): nat
    requires ValidView(v) && InTree(v.blocks, h)
  {
    if OnBest(v, h) then v.tip.height - h.height else v.tip.height + 1 + h.height
  }

  lemma TreeFacts(v: View, h: Hash)
    requires ValidView(v) && h in v.blocks
    ensures v.blocks[h].hash == h && InTree(v.blocks, v.blocks[h])
  {
  }

  lemma {:induction false} NothingPending(v: View)
    requires ValidView(v)
    ensures Pending(v, v.tip) == []
  {
    hide IsTree, ChainOf;
    OnBestPending(v, v.tip);
  }

  // ---------------------------------------------------------------------------
  // Main result

  /**
   The two algorithms agree: whenever `diff` answers, the events `_sync` fires on a fixed best chain
   are its disconnects and then its connects. `_sync` also copes where `diff` does not, with a known
   block above the tip.
  */
  method BothAgree(v: View, known: Header) returns (difference: Option<Difference>, fired: seq<Event>)
    requires ValidView(v) && InTree(v.blocks, known)
    ensures difference.Some? <==> known.height <= v.tip.height
    ensures difference.Some? ==> fired == Downs(difference.value.disconnects) + Ups(difference.value.connects)
    ensures fired == Pending(v, known)
  {
    difference := Diff(v.blocks, v.tip, known);
    var w := new BlockWatcher(Some(known.hash));
    var _ := w.Sync(v);
    fired := w.events;
  }
}
