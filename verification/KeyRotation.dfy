/**
 Traffic in both directions under one chaining key: which keys an end holds after any use of its two
 channels, and when the two ends hold the same.
*/
module KeyRotation {
  import opened Common
  import opened NoiseState
  import opened NoiseSocket
  import opened NoiseStream

  // ---------------------------------------------------------------------------
  // An end of the connection

  datatype Direction = AtoB | BtoA

  /** The keys of the two directions and the one chaining key. */
  datatype Keys = Keys(ab: Bytes, ba: Bytes, ck: Bytes)

  /** End A sends what goes from A to B; for end B it is the other way round. */
  datatype Side = A | B

  predicate Sends(side: Side, d: Direction) {
    (side == A) == (d == AtoB)
  }

  function KeysOf(s: State, side: Side): Keys {
    if side == A then Keys(s.sk, s.rk, s.ck) else Keys(s.rk, s.sk, s.ck)
  }

  function KeyOf(k: Keys, d: Direction): Bytes {
    if d == AtoB then k.ab else k.ba
  }

  function ChannelOf(s: State, side: Side, d: Direction): Channel {
    if Sends(side, d) then Sending(s) else Receiving(s)
  }

  /** One use of a channel: half of a message sent, or half of one received. */
  function Used(c: Crypto, s: State, side: Side, d: Direction): State
    requires CounterInRange(ChannelOf(s, side, d).nonce)
  {
    var k := Advance(c, ChannelOf(s, side, d));
    if Sends(side, d) then WithSending(s, k) else WithReceiving(s, k)
  }

  predicate AtStart(s: State) {
    s.sn == Zeros(12) && s.rn == Zeros(12)
  }

  ghost predicate CountersInRange(s: State) {
    CounterInRange(s.sn) && CounterInRange(s.rn)
  }

  /** An end after using its channels in some order. */
  ghost function AfterUses(c: Crypto, s: State, side: Side, uses: seq<Direction>): (r: State)
    requires CountersInRange(s)
    ensures CountersInRange(r)
    decreases |uses|
  {
    if uses == [] then s
    else
      var before := AfterUses(c, s, side, uses[..|uses| - 1]);
      AdvanceKeepsRange(c, ChannelOf(before, side, uses[|uses| - 1]));
      Used(c, before, side, uses[|uses| - 1])
  }

  // ---------------------------------------------------------------------------
  // Rotations

  function Count(uses: seq<Direction>, d: Direction): nat
    decreases |uses|
  {
    if uses == [] then 0
    else Count(uses[..|uses| - 1], d) + if uses[|uses| - 1] == d then 1 else 0
  }

  /** The rotations that uses bring about: every 1000th use of a direction is one. */
  function Rotations(uses: seq<Direction>): seq<Direction>
    decreases |uses|
  {
    if uses == [] then []
    else
      var d := uses[|uses| - 1];
      Rotations(uses[..|uses| - 1]) + if Count(uses, d) % ROTATE_AT == 0 then [d] else []
  }

  /** Whether the use after so many rotates. */
  predicate Rotates(count: nat) {
    (count + 1) % ROTATE_AT == 0
  }

  /** The nonce after so many uses. */
  function NonceAfter(count: nat): Bytes {
    Nonce(count % ROTATE_AT)
  }

  /** What a rotation derives from: the key of its direction and the chaining key. */
  datatype Input = Input(key: Bytes, ck: Bytes)

  function NextKey(c: Crypto, x: Input): Bytes { SecondHalf(c.hkdf(x.key, x.ck)) }

  function NextChain(c: Crypto, x: Input): Bytes { FirstHalf(c.hkdf(x.key, x.ck)) }

  function Rotate(c: Crypto, k: Keys, d: Direction): Keys {
    var x := Input(KeyOf(k, d), k.ck);
    if d == AtoB then k.(ab := NextKey(c, x), ck := NextChain(c, x))
    else k.(ba := NextKey(c, x), ck := NextChain(c, x))
  }

  function RotateAll(c: Crypto, k: Keys, history: seq<Direction>): Keys
    decreases |history|
  {
    if history == [] then k
    else Rotate(c, RotateAll(c, k, history[..|history| - 1]), history[|history| - 1])
  }

  lemma {:induction false} LastRotation(c: Crypto, k: Keys, history: seq<Direction>, d: Direction)
    ensures RotateAll(c, k, history + [d]) == Rotate(c, RotateAll(c, k, history), d)
  {
    assert (history + [d])[..|history|] == history;
  }

  lemma {:induction false} UsedAt(c: Crypto, s: State, side: Side, d: Direction, n: nat)
    requires n < ROTATE_AT && ChannelOf(s, side, d).nonce == Nonce(n) && CounterInRange(ChannelOf(s, side, d).nonce)
    ensures var r := Used(c, s, side, d);
            && KeysOf(r, side) == (if n + 1 == ROTATE_AT then Rotate(c, KeysOf(s, side), d) else KeysOf(s, side))
            && ChannelOf(r, side, d).nonce == Nonce(if n + 1 == ROTATE_AT then 0 else n + 1)
            && ChannelOf(r, side, Other(d)).nonce == ChannelOf(s, side, Other(d)).nonce
  {
    hide Nonce, ReadCounter, WriteCounter, FirstHalf, SecondHalf;
    NonceCounts(0);
    AdvanceAt(c, ChannelOf(s, side, d), n);
  }

  lemma {:induction false} UsedRotates(c: Crypto, s: State, side: Side, d: Direction, count: nat)
    requires ChannelOf(s, side, d).nonce == NonceAfter(count) && CounterInRange(ChannelOf(s, side, d).nonce)
    ensures var r := Used(c, s, side, d);
            && KeysOf(r, side) == (if Rotates(count) then Rotate(c, KeysOf(s, side), d) else KeysOf(s, side))
            && ChannelOf(r, side, d).nonce == NonceAfter(count + 1)
            && ChannelOf(r, side, Other(d)).nonce == ChannelOf(s, side, Other(d)).nonce
  {
    CountsOn(count);
    UsedAt(c, s, side, d, count % ROTATE_AT);
    hide Used, ChannelOf, KeysOf, Rotate, Nonce, CounterInRange;
  }

  function Other(d: Direction): Direction {
    if d == AtoB then BtoA else AtoB
  }

  lemma {:induction false} NoUses(c: Crypto, s: State, side: Side, d: Direction)
    requires CountersInRange(s) && AtStart(s)
    ensures ChannelOf(AfterUses(c, s, side, []), side, d).nonce == NonceAfter(Count([], d))
    ensures KeysOf(AfterUses(c, s, side, []), side) == RotateAll(c, KeysOf(s, side), Rotations([]))
  {
    hide CounterInRange, Nonce;
    NonceCounts(0);
  }

  lemma EitherDirection(d: Direction, e: Direction)
    ensures d == e || d == Other(e)
  {
  }

  /** Each nonce counts the uses of its own direction since its last rotation. */
  lemma {:induction false} NonceIsCount(c: Crypto, s: State, side: Side, uses: seq<Direction>, d: Direction)
    requires CountersInRange(s) && AtStart(s)
    ensures ChannelOf(AfterUses(c, s, side, uses), side, d).nonce == NonceAfter(Count(uses, d))
    decreases |uses|
  {
    hide *;
    if uses == [] {
      NoUses(c, s, side, d);
    } else {
      var before, e := uses[..|uses| - 1], uses[|uses| - 1];
      LastUse(c, s, side, uses);
      EitherDirection(d, e);
      NonceIsCount(c, s, side, before, d);
      NonceIsCount(c, s, side, before, e);
      UsedRotates(c, AfterUses(c, s, side, before), side, e, Count(before, e));
    }
  }

  /** Whatever order an end uses its channels in, its keys are the starting ones rotated in the order of its rotations. */
  lemma {:induction false} EndIsRotated(c: Crypto, s: State, side: Side, uses: seq<Direction>)
    requires CountersInRange(s) && AtStart(s)
    ensures KeysOf(AfterUses(c, s, side, uses), side) == RotateAll(c, KeysOf(s, side), Rotations(uses))
    decreases |uses|
  {
    hide *;
    if uses == [] {
      NoUses(c, s, side, AtoB);
    } else {
      var before, d := uses[..|uses| - 1], uses[|uses| - 1];
      LastUse(c, s, side, uses);
      EndIsRotated(c, s, side, before);
      NonceIsCount(c, s, side, before, d);
      UsedRotates(c, AfterUses(c, s, side, before), side, d, Count(before, d));
    }
  }

  lemma {:induction false} LastUse(c: Crypto, s: State, side: Side, uses: seq<Direction>)
    requires uses != [] && CountersInRange(s)
    ensures var before, d := uses[..|uses| - 1], uses[|uses| - 1];
            && CounterInRange(ChannelOf(AfterUses(c, s, side, before), side, d).nonce)
            && AfterUses(c, s, side, uses) == Used(c, AfterUses(c, s, side, before), side, d)
            && Count(uses, d) == Count(before, d) + 1 && Count(uses, Other(d)) == Count(before, Other(d))
            && RotateAll(c, KeysOf(s, side), Rotations(uses)) ==
               (var k := RotateAll(c, KeysOf(s, side), Rotations(before));
                if Rotates(Count(before, d)) then Rotate(c, k, d) else k)
  {
    hide CounterInRange, Used, Rotate;
    var before, d := uses[..|uses| - 1], uses[|uses| - 1];
    LastRotation(c, KeysOf(s, side), Rotations(before), d);
    assert Rotations(before) + [] == Rotations(before);
  }

  lemma CountsOn(n: nat)
    ensures (n + 1) % ROTATE_AT == if n % ROTATE_AT + 1 == ROTATE_AT then 0 else n % ROTATE_AT + 1
  {
  }

  // ---------------------------------------------------------------------------
  // When two ends agree

  /** What the rotation after the first i derives from. */
  function InputAt(c: Crypto, k: Keys, history: seq<Direction>, i: nat): Input
    requires i < |history|
  {
    var before := RotateAll(c, k, history[..i]);
    Input(KeyOf(before, history[i]), before.ck)
  }

  ghost predicate NoClash(c: Crypto, x: Input, y: Input) {
    x != y ==> NextKey(c, x) != NextKey(c, y) && NextChain(c, x) != NextChain(c, y)
  }

  /** A derivation does not lead back to a starting value. */
  ghost predicate LeadsAway(c: Crypto, k: Keys, x: Input) {
    NextKey(c, x) != k.ab && NextKey(c, x) != k.ba && NextChain(c, x) != k.ck
  }

  /** Of the derivations that the two ends make, no two collide and none gives a starting value. */
  ghost predicate Apart(c: Crypto, k: Keys, g: seq<Direction>, h: seq<Direction>) {
    && k.ab != k.ba
    && (forall i :: 0 <= i < |g| ==> LeadsAway(c, k, InputAt(c, k, g, i)))
    && (forall j :: 0 <= j < |h| ==> LeadsAway(c, k, InputAt(c, k, h, j)))
    && (forall i, j :: 0 <= i < |g| && 0 <= j < |h| ==> NoClash(c, InputAt(c, k, g, i), InputAt(c, k, h, j)))
  }

  lemma {:induction false} InputOfPrefix(c: Crypto, k: Keys, g: seq<Direction>, n: nat, i: nat)
    requires i < n <= |g|
    ensures InputAt(c, k, g[..n], i) == InputAt(c, k, g, i)
  {
    assert g[..n][..i] == g[..i];
  }

  lemma {:induction false} ApartOfPrefixes(c: Crypto, k: Keys, g: seq<Direction>, h: seq<Direction>, m: nat, n: nat)
    requires Apart(c, k, g, h) && m <= |g| && n <= |h|
    ensures Apart(c, k, g[..m], h[..n])
  {
    hide InputAt, NoClash, LeadsAway;
    forall i | 0 <= i < m ensures InputAt(c, k, g[..m], i) == InputAt(c, k, g, i) {
      InputOfPrefix(c, k, g, m, i);
    }
    forall j | 0 <= j < n ensures InputAt(c, k, h[..n], j) == InputAt(c, k, h, j) {
      InputOfPrefix(c, k, h, n, j);
    }
  }

  /** A key of one direction is never a key of the other. */
  lemma {:induction false} DirectionsApart(c: Crypto, k: Keys, g: seq<Direction>, h: seq<Direction>)
    requires Apart(c, k, g, h)
    ensures RotateAll(c, k, g).ab != RotateAll(c, k, h).ba
    decreases |g| + |h|
  {
    hide NextKey, NextChain;
    var m, n := |g| - 1, |h| - 1;
    if g != [] && g[m] == BtoA {
      assert h[..|h|] == h;
      ApartOfPrefixes(c, k, g, h, m, |h|);
      DirectionsApart(c, k, g[..m], h);
    } else if h != [] && h[n] == AtoB {
      assert g[..|g|] == g;
      ApartOfPrefixes(c, k, g, h, |g|, n);
      DirectionsApart(c, k, g, h[..n]);
    } else {
      if g != [] {
        assert LeadsAway(c, k, InputAt(c, k, g, m));
      }
      if h != [] {
        assert LeadsAway(c, k, InputAt(c, k, h, n));
      }
      if g != [] && h != [] {
        ApartOfPrefixes(c, k, g, h, m, n);
        DirectionsApart(c, k, g[..m], h[..n]);
        assert NoClash(c, InputAt(c, k, g, m), InputAt(c, k, h, n));
      }
    }
  }

  lemma {:induction false} ApartEitherWay(c: Crypto, k: Keys, g: seq<Direction>, h: seq<Direction>)
    requires Apart(c, k, g, h)
    ensures Apart(c, k, h, g)
  {
    hide InputAt, NextKey, NextChain;
  }

  lemma {:induction false} OneMore(g: seq<Direction>)
    requires g != []
    ensures g == g[..|g| - 1] + [g[|g| - 1]]
  {
  }

  /** The chaining key remembers the whole order of rotations. */
  lemma {:induction false} ChainAgreesIff(c: Crypto, k: Keys, g: seq<Direction>, h: seq<Direction>)
    requires Apart(c, k, g, h)
    ensures RotateAll(c, k, g).ck == RotateAll(c, k, h).ck <==> g == h
    decreases |g|
  {
    hide NextKey, NextChain;
    if g != [] && h != [] {
      SameInputIff(c, k, g, h);
      assert NoClash(c, InputAt(c, k, g, |g| - 1), InputAt(c, k, h, |h| - 1));
    } else if g != [] {
      assert LeadsAway(c, k, InputAt(c, k, g, |g| - 1));
    } else if h != [] {
      assert LeadsAway(c, k, InputAt(c, k, h, |h| - 1));
    }
  }

  /** Two last rotations derive from the same only when everything before was the same. */
  lemma {:induction false} SameInputIff(c: Crypto, k: Keys, g: seq<Direction>, h: seq<Direction>)
    requires Apart(c, k, g, h) && g != [] && h != []
    ensures InputAt(c, k, g, |g| - 1) == InputAt(c, k, h, |h| - 1) <==> g == h
    decreases |g|, 0
  {
    hide NextKey, NextChain, Rotate;
    var m, n := |g| - 1, |h| - 1;
    OneMore(g);
    OneMore(h);
    ApartOfPrefixes(c, k, g, h, m, n);
    ChainAgreesIff(c, k, g[..m], h[..n]);
    ApartEitherWay(c, k, g[..m], h[..n]);
    DirectionsApart(c, k, g[..m], h[..n]);
    DirectionsApart(c, k, h[..n], g[..m]);
  }

  /** The rotations up to the last one of a direction. */
  function UpTo(history: seq<Direction>, d: Direction): (r: seq<Direction>)
    ensures r <= history && (r != [] ==> r[|r| - 1] == d)
    decreases |history|
  {
    if history == [] || history[|history| - 1] == d then history
    else UpTo(history[..|history| - 1], d)
  }

  lemma {:induction false} KeyIsUpTo(c: Crypto, k: Keys, g: seq<Direction>, d: Direction)
    ensures KeyOf(RotateAll(c, k, g), d) == KeyOf(RotateAll(c, k, UpTo(g, d)), d)
    decreases |g|
  {
    hide NextKey, NextChain;
    if g != [] && g[|g| - 1] != d {
      KeyIsUpTo(c, k, g[..|g| - 1], d);
    }
  }

  lemma {:induction false} ApartUpTo(c: Crypto, k: Keys, g: seq<Direction>, h: seq<Direction>, d: Direction)
    requires Apart(c, k, g, h)
    ensures Apart(c, k, UpTo(g, d), UpTo(h, d))
  {
    hide Apart;
    assert g[..|UpTo(g, d)|] == UpTo(g, d) && h[..|UpTo(h, d)|] == UpTo(h, d);
    ApartOfPrefixes(c, k, g, h, |UpTo(g, d)|, |UpTo(h, d)|);
  }

  /** The key of a direction is the same after two histories exactly when they agree up to its last rotation. */
  lemma {:induction false} KeyAgreesIff(c: Crypto, k: Keys, g: seq<Direction>, h: seq<Direction>, d: Direction)
    requires Apart(c, k, g, h)
    ensures KeyOf(RotateAll(c, k, g), d) == KeyOf(RotateAll(c, k, h), d) <==> UpTo(g, d) == UpTo(h, d)
  {
    var g', h' := UpTo(g, d), UpTo(h, d);
    KeyIsUpTo(c, k, g, d);
    KeyIsUpTo(c, k, h, d);
    ApartUpTo(c, k, g, h, d);
    hide NextKey, NextChain, UpTo;
    if g' != [] && h' != [] {
      SameInputIff(c, k, g', h');
      assert NoClash(c, InputAt(c, k, g', |g'| - 1), InputAt(c, k, h', |h'| - 1));
    } else if g' != [] {
      assert LeadsAway(c, k, InputAt(c, k, g', |g'| - 1));
    } else if h' != [] {
      assert LeadsAway(c, k, InputAt(c, k, h', |h'| - 1));
    }
  }

  // ---------------------------------------------------------------------------
  // Two ends of one connection

  /** A message sent, and a message received, is two uses of its direction. */
  lemma {:induction false} MessageIsTwoUses(c: Crypto, s: State, side: Side, d: Direction)
    requires CountersInRange(s)
    ensures AfterUses(c, s, side, [d, d]) ==
            if Sends(side, d) then WithSending(s, AfterFrame(c, Sending(s)))
            else WithReceiving(s, AfterFrame(c, Receiving(s)))
  {
    hide Advance, CounterInRange;
    AdvanceKeepsRange(c, ChannelOf(s, side, d));
    assert [d, d][..1] == [d] && [d][..0] == [];
    assert AfterUses(c, s, side, [d]) == Used(c, s, side, d);
    assert AfterUses(c, s, side, [d, d]) == Used(c, Used(c, s, side, d), side, d);
  }

  /**
   Two ends start with mirrored keys and use their channels in whatever order. They hold the same keys if
   and only if they rotated in the same order, and the sender's key of a direction is the receiver's if
   and only if their rotations up to the last one of that direction were the same.
  */
  lemma {:induction false} EndsAgreeIff(
    c: Crypto, a: State, b: State, usesA: seq<Direction>, usesB: seq<Direction>, d: Direction)
    requires Mirrored(a, b)
    requires Apart(c, KeysOf(a, A), Rotations(usesA), Rotations(usesB))
    ensures CountersInRange(a) && CountersInRange(b)
    ensures var a', b' := AfterUses(c, a, A, usesA), AfterUses(c, b, B, usesB);
            && (KeysOf(a', A) == KeysOf(b', B) <==> Rotations(usesA) == Rotations(usesB))
            && (ChannelOf(a', A, d).key == ChannelOf(b', B, d).key
                <==> UpTo(Rotations(usesA), d) == UpTo(Rotations(usesB), d))
  {
    ZeroCounter();
    EndIsRotated(c, a, A, usesA);
    EndIsRotated(c, b, B, usesB);
    var k, g, h := KeysOf(a, A), Rotations(usesA), Rotations(usesB);
    assert KeysOf(b, B) == k;
    ChainAgreesIff(c, k, g, h);
    KeyAgreesIff(c, k, g, h, d);
    hide Apart, Rotations, RotateAll, AfterUses, UpTo;
  }

  /** Uses of one direction only: a rotation every 1000, whatever the other direction did before. */
  lemma {:induction false} OneWay(before: seq<Direction>, d: Direction, n: nat)
    requires Count(before, d) == 0
    ensures Rotations(before + Repeat(d, n)) == Rotations(before) + Repeat(d, n / ROTATE_AT)
    ensures Count(before + Repeat(d, n), d) == n && Count(before + Repeat(d, n), Other(d)) == Count(before, Other(d))
    decreases n
  {
    if n == 0 {
      assert before + Repeat(d, 0) == before && Rotations(before) + [] == Rotations(before);
    } else {
      OneWay(before, d, n - 1);
      LastOfMany(before, d, n);
      TimesOn(Rotations(before), d, n);
      hide Rotations, Repeat, Count, Other;
    }
  }

  lemma {:induction false} LastOfMany(before: seq<Direction>, d: Direction, n: nat)
    requires n > 0
    ensures var all, pre := before + Repeat(d, n), before + Repeat(d, n - 1);
            && Count(all, d) == Count(pre, d) + 1 && Count(all, Other(d)) == Count(pre, Other(d))
            && Rotations(all) == Rotations(pre) + if Count(all, d) % ROTATE_AT == 0 then [d] else []
  {
    var all := before + Repeat(d, n);
    assert all[..|all| - 1] == before + Repeat(d, n - 1) && all[|all| - 1] == d;
  }

  lemma {:induction false} TimesOn(before: seq<Direction>, d: Direction, n: nat)
    requires n > 0
    ensures before + Repeat(d, n / ROTATE_AT)
            == (before + Repeat(d, (n - 1) / ROTATE_AT)) + (if n % ROTATE_AT == 0 then [d] else [])
  {
    if n % ROTATE_AT == 0 {
      assert n / ROTATE_AT == (n - 1) / ROTATE_AT + 1;
    } else {
      assert n / ROTATE_AT == (n - 1) / ROTATE_AT;
    }
  }

  // ---------------------------------------------------------------------------
  // Traffic both ways that is read

  lemma {:induction false} CountOfPrefix(g: seq<Direction>, h: seq<Direction>, d: Direction)
    requires g <= h
    ensures Count(g, d) <= Count(h, d)
    decreases |h|
  {
    if |g| == |h| {
      assert g == h;
    } else {
      CountOfPrefix(g, h[..|h| - 1], d);
    }
  }

  /** One history goes on from another without a rotation of this direction. */
  lemma {:induction false} UpToOfPrefix(g: seq<Direction>, h: seq<Direction>, d: Direction)
    requires g <= h && Count(g, d) == Count(h, d)
    ensures UpTo(g, d) == UpTo(h, d)
    decreases |h|
  {
    if |g| == |h| {
      assert g == h;
    } else {
      CountOfPrefix(g, h[..|h| - 1], d);
      UpToOfPrefix(g, h[..|h| - 1], d);
    }
  }

  /** Every 1000 uses of a direction have rotated it once. */
  lemma {:induction false} RotationsCounted(uses: seq<Direction>, d: Direction)
    ensures Count(Rotations(uses), d) == Count(uses, d) / ROTATE_AT
    decreases |uses|
  {
    if uses != [] {
      hide Rotations, Count;
      var pre := uses[..|uses| - 1];
      RotationsCounted(pre, d);
      QuotientOn(Count(pre, d));
      LastCounted(uses, d);
    }
  }

  lemma {:induction false} LastCounted(uses: seq<Direction>, d: Direction)
    requires uses != []
    ensures var pre, e := uses[..|uses| - 1], uses[|uses| - 1];
      && Count(uses, d) == Count(pre, d) + (if e == d then 1 else 0)
      && Count(Rotations(uses), d)
         == Count(Rotations(pre), d) + if e == d && Count(uses, d) % ROTATE_AT == 0 then 1 else 0
  {
    var pre, e := uses[..|uses| - 1], uses[|uses| - 1];
    var before := Rotations(pre);
    assert Rotations(uses) == if Count(uses, e) % ROTATE_AT == 0 then before + [e] else before;
    assert (before + [e])[..|before|] == before;
  }

  lemma QuotientOn(n: nat)
    ensures (n + 1) / ROTATE_AT == n / ROTATE_AT + if (n + 1) % ROTATE_AT == 0 then 1 else 0
  {
  }

  lemma {:induction false} RotationsOfPrefix(pre: seq<Direction>, uses: seq<Direction>)
    requires pre <= uses
    ensures Rotations(pre) <= Rotations(uses)
    decreases |uses|
  {
    if |pre| == |uses| {
      assert pre == uses;
    } else {
      RotationsOfPrefix(pre, uses[..|uses| - 1]);
    }
  }

  /** Both ends rotated in the same order, so far as both have. */
  predicate SameOrder(usesA: seq<Direction>, usesB: seq<Direction>) {
    Rotations(usesA) <= Rotations(usesB) || Rotations(usesB) <= Rotations(usesA)
  }

  lemma {:induction false} SameOrderSoFar(preA: seq<Direction>, preB: seq<Direction>, usesA: seq<Direction>, usesB: seq<Direction>)
    requires preA <= usesA && preB <= usesB && SameOrder(usesA, usesB)
    ensures SameOrder(preA, preB)
  {
    RotationsOfPrefix(preA, usesA);
    RotationsOfPrefix(preB, usesB);
    hide Rotations;
  }

  /**
   Traffic in both directions, in any order, that leaves both ends having rotated in the same order: what
   one end seals at some point of it, after so many uses of the direction, the other opens when it has
   used the direction as often.
  */
  lemma {:induction false} TwoWayDelivered(
    c: Crypto, a: State, b: State, usesA: seq<Direction>, usesB: seq<Direction>,
    preA: seq<Direction>, preB: seq<Direction>, d: Direction, m: Bytes)
    requires Lawful(c) && Mirrored(a, b) && SameOrder(usesA, usesB)
    requires preA <= usesA && preB <= usesB && Count(preA, d) == Count(preB, d)
    ensures CountersInRange(a) && CountersInRange(b)
    ensures var k, k' := ChannelOf(AfterUses(c, a, A, preA), A, d), ChannelOf(AfterUses(c, b, B, preB), B, d);
            && k.key == k'.key && k.nonce == k'.nonce
            && Open(c, k', Seal(c, k, m)) == Some(m) && Open(c, k, Seal(c, k', m)) == Some(m)
  {
    ZeroCounter();
    assert KeysOf(b, B) == KeysOf(a, A) && AtStart(a) && AtStart(b);
    SameKeyAt(c, a, b, usesA, usesB, preA, preB, d);
    var k, k' := ChannelOf(AfterUses(c, a, A, preA), A, d), ChannelOf(AfterUses(c, b, B, preB), B, d);
    hide AfterUses, ChannelOf, CounterInRange, Mirrored, SameOrder, Count;
    assert c.decrypt(k.key, k.nonce, [], c.encrypt(k.key, k.nonce, [], m)) == Some(m);
  }

  lemma {:induction false} SameKeyAt(
    c: Crypto, a: State, b: State, usesA: seq<Direction>, usesB: seq<Direction>,
    preA: seq<Direction>, preB: seq<Direction>, d: Direction)
    requires KeysOf(b, B) == KeysOf(a, A) && AtStart(a) && AtStart(b) && CountersInRange(a) && CountersInRange(b)
    requires SameOrder(usesA, usesB) && preA <= usesA && preB <= usesB && Count(preA, d) == Count(preB, d)
    ensures var k, k' := ChannelOf(AfterUses(c, a, A, preA), A, d), ChannelOf(AfterUses(c, b, B, preB), B, d);
            k.key == k'.key && k.nonce == k'.nonce
  {
    var start, g, h := KeysOf(a, A), Rotations(preA), Rotations(preB);
    SideKey(AfterUses(c, a, A, preA), A, d);
    SideKey(AfterUses(c, b, B, preB), B, d);
    hide AtStart, CountersInRange, Rotations, Count, UpTo, AfterUses, RotateAll, KeysOf, ChannelOf, KeyOf;
    NonceIsCount(c, a, A, preA, d);
    NonceIsCount(c, b, B, preB, d);
    EndIsRotated(c, a, A, preA);
    EndIsRotated(c, b, B, preB);
    SameOrderSoFar(preA, preB, usesA, usesB);
    RotationsCounted(preA, d);
    RotationsCounted(preB, d);
    if g <= h {
      UpToOfPrefix(g, h, d);
    } else {
      UpToOfPrefix(h, g, d);
    }
    KeyIsUpTo(c, start, g, d);
    KeyIsUpTo(c, start, h, d);
  }

  lemma SideKey(s: State, side: Side, d: Direction)
    ensures ChannelOf(s, side, d).key == KeyOf(KeysOf(s, side), d)
  {
  }

  // ---------------------------------------------------------------------------
  // Traffic both ways that is not

  lemma {:induction false} CrossingHistories(n: nat)
    requires n == ROTATE_AT
    ensures Rotations(Repeat(AtoB, n) + Repeat(BtoA, n)) == [AtoB, BtoA] && Rotations(Repeat(BtoA, n)) == [BtoA]
    ensures Count(Repeat(AtoB, n) + Repeat(BtoA, n), BtoA) == n && Count(Repeat(BtoA, n), BtoA) == n
  {
    NothingUsed(AtoB);
    NothingUsed(BtoA);
    hide Count, Rotations, Repeat;
    assert [] + Repeat(AtoB, n) == Repeat(AtoB, n) && [] + Repeat(BtoA, n) == Repeat(BtoA, n);
    OneWay([], AtoB, n);
    OneWay([], BtoA, n);
    OneWay(Repeat(AtoB, n), BtoA, n);
  }

  lemma NothingUsed(d: Direction)
    ensures Count([], d) == 0 && Rotations([]) == [] && Repeat(d, ROTATE_AT / ROTATE_AT) == [d]
  {
  }

  /**
   The smallest run that goes wrong: both ends send 500 messages, 1000 uses, before either reads, and then
   A reads those of B. The key that A goes on to read under is not the one that B goes on to write under.
  */
  lemma {:induction false} CrossedRotations(c: Crypto, a: State, b: State, n: nat)
    requires Mirrored(a, b) && n == ROTATE_AT
    requires Apart(c, KeysOf(a, A), [AtoB, BtoA], [BtoA])
    ensures CountersInRange(a) && CountersInRange(b)
    ensures var a' := AfterUses(c, a, A, Repeat(AtoB, n) + Repeat(BtoA, n));
            var b' := AfterUses(c, b, B, Repeat(BtoA, n));
            && Receiving(a').key != Sending(b').key && Receiving(a').ck != Sending(b').ck
            && Receiving(a').nonce == Sending(b').nonce
  {
    ZeroCounter();
    assert UpTo([AtoB, BtoA], BtoA) == [AtoB, BtoA] && UpTo([BtoA], BtoA) == [BtoA];
    hide Apart, Rotations, RotateAll, AfterUses, UpTo, Count, Repeat, CounterInRange, NonceAfter;
    CrossingHistories(n);
    var usesA, usesB := Repeat(AtoB, n) + Repeat(BtoA, n), Repeat(BtoA, n);
    EndsAgreeIff(c, a, b, usesA, usesB, BtoA);
    EndIsRotated(c, a, A, usesA);
    EndIsRotated(c, b, B, usesB);
    ChainAgreesIff(c, KeysOf(a, A), [AtoB, BtoA], [BtoA]);
    NonceIsCount(c, a, A, usesA, BtoA);
    NonceIsCount(c, b, B, usesB, BtoA);
  }

  /** Derivations of 64 bytes from keys of 32 can be apart as the crossing needs. */
  lemma {:induction false} CrossingCanBeApart(c: Crypto) returns (c': Crypto, k: Keys)
    ensures |k.ab| == |k.ba| == |k.ck| == 32
    ensures (forall x, ck :: |c'.hkdf(x, ck)| == 64) && c' == c.(hkdf := c'.hkdf)
    ensures Apart(c', k, [AtoB, BtoA], [BtoA])
  {
    k := Keys(seq(32, _ => 1), seq(32, _ => 2), seq(32, _ => 3));
    var ba, ck := k.ba, k.ck;
    c' := c.(hkdf := (x: Bytes, y: Bytes) =>
      if x != ba then seq(64, _ => 4) else if y == ck then seq(64, _ => 5) else seq(64, _ => 6));
    assert k.ab[0] == 1 && k.ba[0] == 2 && k.ck[0] == 3;
    assert Leads(c', k.ab, k.ck, 4) && Leads(c', k.ba, NextChain(c', Input(k.ab, k.ck)), 6) && Leads(c', k.ba, k.ck, 5);
    hide NextKey, NextChain;
    CrossingIsApart(c', k);
  }

  ghost predicate Leads(c: Crypto, key: Bytes, ck: Bytes, x: Byte) {
    var i := Input(key, ck);
    NextKey(c, i) != [] && NextChain(c, i) != [] && NextKey(c, i)[0] == x && NextChain(c, i)[0] == x
  }

  lemma {:induction false} CrossingIsApart(c: Crypto, k: Keys)
    requires k.ab != [] && k.ba != [] && k.ck != [] && k.ab[0] == 1 && k.ba[0] == 2 && k.ck[0] == 3
    requires Leads(c, k.ab, k.ck, 4) && Leads(c, k.ba, NextChain(c, Input(k.ab, k.ck)), 6) && Leads(c, k.ba, k.ck, 5)
    ensures Apart(c, k, [AtoB, BtoA], [BtoA])
  {
    TwoInputs(c, k);
    hide NextKey, NextChain, RotateAll, InputAt;
    forall i | 0 <= i < 2 ensures LeadsAway(c, k, InputAt(c, k, [AtoB, BtoA], i))
                            && NoClash(c, InputAt(c, k, [AtoB, BtoA], i), InputAt(c, k, [BtoA], 0)) {
      assert i == 0 || i == 1;
    }
  }

  lemma TwoInputs(c: Crypto, k: Keys)
    ensures InputAt(c, k, [AtoB, BtoA], 0) == Input(k.ab, k.ck) && InputAt(c, k, [BtoA], 0) == Input(k.ba, k.ck)
    ensures InputAt(c, k, [AtoB, BtoA], 1) == Input(k.ba, NextChain(c, Input(k.ab, k.ck)))
  {
    assert [AtoB, BtoA][..1] == [AtoB];
  }
}
