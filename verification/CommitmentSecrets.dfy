/**
 Per-commitment secrets of BOLT #3: the bit-flip-and-hash derivation and the 49-slot store that stands in
 for up to 2^48 secrets, for any hash function at all.
*/
module CommitmentSecrets {
  import opened Common
  import opened Bits

  type Bytes = seq<bv8>
  type Hash = Bytes -> Bytes

  const INDEX_BITS: nat := 48
  const ALL_ONES: nat := 0xffff_ffff_ffff
  const SLOTS: nat := 49

  lemma AllOnes()
    ensures Pow2(INDEX_BITS) == ALL_ONES + 1
  {
    assert Pow2(8) == 0x100;
    assert Pow2(16) == 0x1_0000;
    assert Pow2(24) == 0x100_0000;
    assert Pow2(32) == 0x1_0000_0000;
    assert Pow2(40) == 0x100_0000_0000;
  }

  // ---------------------------------------------------------------------------
  // Derivation

  /** Flips bit b of a buffer; a write past the end of a buffer is ignored. */
  function Flip(p: Bytes, b: nat): (r: Bytes)
    ensures |r| == |p|
  {
    if b / 8 < |p| then p[b / 8 := p[b / 8] ^ ((1 as bv8) << (b % 8))] else p
  }

  /** The effect on a secret of one set bit of the index. */
  function Child(sha: Hash, p: Bytes, b: nat): Bytes {
    sha(Flip(p, b))
  }

  /** The secret for index i reached from the prefix p by evaluating the lowest `bits` bits of i. */
  function DeriveFrom(sha: Hash, p: Bytes, i: nat, bits: nat): Bytes
    decreases bits
  {
    if bits == 0 then p
    else DeriveFrom(sha, if Bit(i, bits - 1) then Child(sha, p, bits - 1) else p, i, bits - 1)
  }

  method ToBuffer(s: Bytes) returns (a: array<bv8>)
    ensures fresh(a) && a[..] == s
  {
    a := new bv8[|s|](i requires 0 <= i < |s| => s[i]);
  }

  /** `CommitmentSecret.derive`: a working buffer is flipped in place and replaced by its hash. */
  method Derive(sha: Hash, seed: Bytes, i: nat, bits: nat) returns (r: Bytes)
    ensures r == DeriveFrom(sha, seed, i, bits)
  {
    var p := ToBuffer(seed);
    for b := bits downto 0
      invariant fresh(p)
      invariant DeriveFrom(sha, p[..], i, b) == DeriveFrom(sha, seed, i, bits)
    {
      if Bit(i, b) {
        ghost var before := p[..];
        if b / 8 < p.Length {
          p[b / 8] := p[b / 8] ^ ((1 as bv8) << (b % 8));
        }
        assert p[..] == Flip(before, b);
        p := ToBuffer(sha(p[..]));
      }
    }
    r := p[..];
  }

  /** A prefix is its own secret. */
  lemma {:induction false} DeriveZero(sha: Hash, p: Bytes, i: nat, bits: nat)
    requires Low(i, bits) == 0
    ensures DeriveFrom(sha, p, i, bits) == p
  {
    hide Low, Bit;
    if bits > 0 {
      LowStep(i, bits - 1);
      DeriveZero(sha, p, i, bits - 1);
    }
  }

  /** The first hash taken is the one for the highest set bit. */
  lemma {:induction false} DeriveFirstBit(sha: Hash, p: Bytes, i: nat, bits: nat, b: nat)
    requires b < bits
    requires Pow2(b) <= Low(i, bits) < Pow2(b + 1)
    ensures DeriveFrom(sha, p, i, bits) == DeriveFrom(sha, Child(sha, p, b), i, b)
  {
    hide Low, Bit;
    LowStep(i, bits - 1);
    if b < bits - 1 {
      Pow2Monotonic(b + 1, bits - 1);
      DeriveFirstBit(sha, p, i, bits - 1, b);
    }
  }

  /** A buffer that differs in exactly bit b, bytes counted from the left and bits from the lowest. */
  ghost predicate DiffersInBit(p: Bytes, q: Bytes, b: nat) {
    && |q| == |p|
    && (forall k :: 0 <= k < |p| && k != b / 8 ==> q[k] == p[k])
    && (b / 8 < |p| ==> q[b / 8] ^ p[b / 8] == (1 as bv8) << (b % 8))
  }

  /** What is hashed for one set bit of the index differs from the prefix in exactly that bit. */
  lemma {:induction false} HashedIsFlipped(sha: Hash, p: Bytes, q: Bytes, b: nat)
    requires DiffersInBit(p, q, b)
    ensures Child(sha, p, b) == sha(q)
  {
    hide DiffersInBit;
    OtherBytesStay(p, q, b);
    if b / 8 < |p| {
      OneByteTurns(p, q, b);
    }
  }

  lemma {:induction false} OtherBytesStay(p: Bytes, q: Bytes, b: nat)
    requires DiffersInBit(p, q, b)
    ensures |q| == |p| && q == if b / 8 < |p| then p[b / 8 := q[b / 8]] else p
  {
    if b / 8 < |p| {
      OneReplaced(p, q, b / 8);
    }
  }

  lemma {:induction false} OneByteTurns(p: Bytes, q: Bytes, b: nat)
    requires DiffersInBit(p, q, b) && b / 8 < |p|
    ensures p[b / 8] ^ ((1 as bv8) << (b % 8)) == q[b / 8]
  {
    FlippedByte(p[b / 8], q[b / 8], (1 as bv8) << (b % 8));
  }

  lemma {:induction false} OneReplaced<T>(p: seq<T>, q: seq<T>, at: nat)
    requires |q| == |p| && at < |p| && forall k :: 0 <= k < |p| && k != at ==> q[k] == p[k]
    ensures q == p[at := q[at]]
  {
  }

  lemma FlippedByte(x: bv8, y: bv8, mask: bv8)
    requires y ^ x == mask
    ensures x ^ mask == y
  {
  }

  /** An index whose highest set bit is b hashes first the prefix with that bit flipped, and then its lower bits. */
  lemma {:induction false} HighestBitIsFlipped(sha: Hash, p: Bytes, q: Bytes, i: nat, bits: nat, b: nat)
    requires b < bits && Pow2(b) <= Low(i, bits) < Pow2(b + 1) && DiffersInBit(p, q, b)
    ensures DeriveFrom(sha, p, i, bits) == DeriveFrom(sha, sha(q), i, b)
  {
    DeriveFirstBit(sha, p, i, bits, b);
    HashedIsFlipped(sha, p, q, b);
  }

  /** The secret for a power of two is one hash, of the seed with that bit flipped. */
  lemma {:induction false} OneBitIsOneHash(sha: Hash, p: Bytes, q: Bytes, b: nat, bits: nat)
    requires b < bits && DiffersInBit(p, q, b)
    ensures DeriveFrom(sha, p, Pow2(b), bits) == sha(q)
  {
    hide Low, DeriveFrom, DiffersInBit;
    Pow2Monotonic(b, bits);
    LowSmall(Pow2(b), bits);
    HighestBitIsFlipped(sha, p, q, Pow2(b), bits, b);
    LowOfPow2(b, b);
    DeriveZero(sha, sha(q), Pow2(b), b);
  }

  /**
   The prefix law: evaluating the high bits first and the low b bits afterwards is evaluating them all.
  */
  lemma {:induction false} PrefixLaw(sha: Hash, p: Bytes, i: nat, bits: nat, b: nat)
    requires b <= bits
    ensures DeriveFrom(sha, p, i, bits)
         == DeriveFrom(sha, DeriveFrom(sha, p, ClearLow(i, b), bits), i, b)
    decreases bits
  {
    hide Low, Bit, ClearLow;
    if b == bits {
      ClearLowHasNoLowBits(i, b);
      DeriveZero(sha, p, ClearLow(i, b), bits);
    } else {
      ClearLowKeepsBit(i, b, bits - 1);
      PrefixLaw(sha, if Bit(i, bits - 1) then Child(sha, p, bits - 1) else p, i, bits - 1, b);
    }
  }

  // ---------------------------------------------------------------------------
  // The lowest set bit of an index

  /** The position of the lowest set bit among the bits from b up; 48 when there is none. */
  function LowestBitFrom(i: nat, b: nat): (r: nat)
    requires b <= INDEX_BITS
    ensures b <= r <= INDEX_BITS
    decreases INDEX_BITS - b
  {
    if b == INDEX_BITS || Bit(i, b) then b else LowestBitFrom(i, b + 1)
  }

  function LowestBit(i: nat): (r: nat)
    ensures r <= INDEX_BITS
  {
    LowestBitFrom(i, 0)
  }

  /** `CommitmentSecretStore.calcIndex` */
  method CalcIndex(i: nat) returns (r: nat)
    ensures r == LowestBit(i)
  {
    for b := 0 to INDEX_BITS
      invariant LowestBitFrom(i, b) == LowestBit(i)
    {
      if Bit(i, b) { return b; }
    }
    return INDEX_BITS;
  }

  lemma {:induction false} LowestBitFromMeaning(i: nat, b: nat, c: nat)
    requires b <= c < INDEX_BITS
    ensures LowestBitFrom(i, b) > c <==> LowestBitFrom(i, b) >= c && !Bit(i, c)
    decreases c - b
  {
    hide Bit;
    if b < c && !Bit(i, b) { LowestBitFromMeaning(i, b + 1, c); }
  }

  lemma {:induction false} LowBitsClear(i: nat, b: nat)
    requires b <= INDEX_BITS
    ensures Low(i, b) == 0 <==> LowestBit(i) >= b
  {
    hide Low, Bit;
    if b > 0 {
      LowBitsClear(i, b - 1);
      LowStep(i, b - 1);
      LowestBitFromMeaning(i, 0, b - 1);
    } else {
      assert Low(i, 0) == 0;
    }
  }

  /** The lowest set bit, told by remainders. */
  lemma {:induction false} LowestBitMeaning(i: nat, b: nat)
    requires b < INDEX_BITS
    ensures LowestBit(i) == b <==> Low(i, b + 1) == Pow2(b)
  {
    hide Low, Bit, LowestBit;
    LowBitsClear(i, b);
    LowBitsClear(i, b + 1);
    LowStep(i, b);
  }

  lemma OnlyZeroHasNoBit(i: nat)
    requires i < Pow2(INDEX_BITS)
    ensures LowestBit(i) == INDEX_BITS <==> i == 0
  {
    hide Low, LowestBit;
    LowBitsClear(i, INDEX_BITS);
    LowSmall(i, INDEX_BITS);
  }

  lemma MultipleStaysBelow(i: nat, b: nat)
    requires b <= INDEX_BITS && i < Pow2(INDEX_BITS) && Low(i, b) == 0
    ensures i + Pow2(b) <= Pow2(INDEX_BITS)
  {
    hide Low;
    LowOfPow2(b, INDEX_BITS);
    Apart(i, Pow2(INDEX_BITS), b);
  }

  /** In the first 2^b places above a multiple of 2^(b+1), only the last has exactly b trailing zeros. */
  lemma NextWithTrailingZeros(i: nat, b: nat, j: nat)
    requires b < INDEX_BITS && Low(i, b + 1) == 0
    requires i < j <= i + Pow2(b)
    ensures LowestBit(j) == b <==> j == i + Pow2(b)
  {
    hide Low, LowestBit;
    LowestBitMeaning(j, b);
    LowOffset(i, j - i, b + 1);
  }

  // ---------------------------------------------------------------------------
  // The store

  datatype Item = Item(index: nat, secret: Option<Bytes>)

  /** The check made on insertion: the new secret derives what every lower slot holds. */
  predicate DerivesLower(sha: Hash, s: seq<Item>, secret: Bytes, top: nat)
    requires top <= |s|
  {
    forall b :: 0 <= b < top ==> s[b].secret == Some(DeriveFrom(sha, secret, s[b].index, top))
  }

  function Inserted(sha: Hash, s: seq<Item>, secret: Bytes, i: nat): Option<seq<Item>>
    requires |s| == SLOTS
  {
    var top := LowestBit(i);
    if DerivesLower(sha, s, secret, top) then Some(s[top := Item(i, Some(secret))]) else None
  }

  /** The slot's index is the prefix of i that its position stands for, and the slot is filled. */
  predicate Holds(slot: Item, i: nat, b: nat) {
    And(i, Shl(Shr(ALL_ONES, b), b)) == slot.index && slot.secret.Some?
  }

  function LookupFrom(sha: Hash, s: seq<Item>, i: nat, b: nat): Option<Bytes>
    requires b <= |s|
    decreases |s| - b
  {
    if b == |s| then None
    else if Holds(s[b], i, b) then Some(DeriveFrom(sha, s[b].secret.value, i, b))
    else LookupFrom(sha, s, i, b + 1)
  }

  function Lookup(sha: Hash, s: seq<Item>, i: nat): Option<Bytes> {
    LookupFrom(sha, s, i, 0)
  }

  class CommitmentSecretStore {
    const sha: Hash
    const secrets: array<Item>

    ghost predicate Valid() {
      secrets.Length == SLOTS
    }

    constructor (sha: Hash)
      ensures Valid() && fresh(secrets) && this.sha == sha
      ensures secrets[..] == EmptyStore()
    {
      this.sha := sha;
      secrets := new Item[SLOTS](_ => Item(0, None));
    }

    /** Returns false, leaving the store as it was, where the source throws. */
    method Insert(secret: Bytes, i: nat) returns (ok: bool)
      requires Valid()
      modifies secrets
      ensures ok == Inserted(sha, old(secrets[..]), secret, i).Some?
      ensures secrets[..] == if ok then Inserted(sha, old(secrets[..]), secret, i).value else old(secrets[..])
    {
      hide DeriveFrom, LowestBitFrom;
      var top := CalcIndex(i);
      for b := 0 to top
        invariant secrets[..] == old(secrets[..])
        invariant forall c :: 0 <= c < b ==>
          secrets[c].secret == Some(DeriveFrom(sha, secret, secrets[c].index, top))
      {
        var existing := secrets[b].secret;
        var derived := Derive(sha, secret, secrets[b].index, top);
        if existing != Some(derived) {
          assert !DerivesLower(sha, secrets[..], secret, top);
          return false;
        }
      }
      secrets[top] := Item(i, Some(secret));
      return true;
    }

    /** None where the source throws "Index I hasn't been received yet". */
    method Find(i: nat) returns (r: Option<Bytes>)
      requires Valid()
      ensures r == Lookup(sha, secrets[..], i)
    {
      for b := 0 to secrets.Length
        invariant LookupFrom(sha, secrets[..], i, b) == Lookup(sha, secrets[..], i)
      {
        var mask := Shl(Shr(ALL_ONES, b), b);
        if And(i, mask) == secrets[b].index && secrets[b].secret.Some? {
          var d := Derive(sha, secrets[b].secret.value, i, b);
          return Some(d);
        }
      }
      return None;
    }
  }

  // ---------------------------------------------------------------------------
  // Whole runs: secrets inserted from index 2^48 - 1 downwards

  function EmptyStore(): seq<Item> {
    seq(SLOTS, _ => Item(0, None))
  }

  /** The store after inserting log[n] at index 2^48 - 1 - n for every n, or None once one is refused. */
  ghost function Replay(sha: Hash, log: seq<Bytes>): (r: Option<seq<Item>>)
    requires |log| <= Pow2(INDEX_BITS)
    ensures r.Some? ==> |r.value| == SLOTS
  {
    if log == [] then Some(EmptyStore()) else
      var n := |log| - 1;
      match Replay(sha, log[..n])
      case None => None
      case Some(s) => Inserted(sha, s, log[n], Pow2(INDEX_BITS) - 1 - n)
  }

  /** The lowest index received so far. */
  ghost function Received(log: seq<Bytes>): int {
    Pow2(INDEX_BITS) - |log|
  }

  /** The secret received for index j. */
  ghost function SecretAt(log: seq<Bytes>, j: nat): Bytes
    requires Received(log) <= j < Pow2(INDEX_BITS)
  {
    log[Pow2(INDEX_BITS) - 1 - j]
  }

  /** Slot b is empty until an index with exactly b trailing zeros arrives, then it holds the smallest one. */
  ghost predicate SlotHoldsSmallest(log: seq<Bytes>, slot: Item, b: nat)
    requires |log| <= Pow2(INDEX_BITS)
  {
    var low, high := Received(log), Pow2(INDEX_BITS);
    if slot.secret.None? then
      forall j: nat | low <= j < high :: LowestBit(j) != b
    else
      && low <= slot.index < high
      && LowestBit(slot.index) == b
      && slot.secret == Some(SecretAt(log, slot.index))
      && forall j: nat | low <= j < slot.index :: LowestBit(j) != b
  }

  /** Every index below a filled slot's prefix is derived to the secret that was received for it. */
  ghost predicate SlotDerives(sha: Hash, log: seq<Bytes>, slot: Item, b: nat)
    requires |log| <= Pow2(INDEX_BITS)
  {
    slot.secret.Some? && Received(log) <= slot.index ==>
      forall j | slot.index <= j < slot.index + Pow2(b) && j < Pow2(INDEX_BITS) ::
        SecretAt(log, j) == DeriveFrom(sha, slot.secret.value, j, b)
  }

  ghost predicate StoreInv(sha: Hash, log: seq<Bytes>, s: seq<Item>) {
    && |log| <= Pow2(INDEX_BITS)
    && |s| == SLOTS
    && (forall b :: 0 <= b < SLOTS ==> SlotHoldsSmallest(log, s[b], b))
    && (forall b :: 0 <= b < SLOTS ==> SlotDerives(sha, log, s[b], b))
  }

  /** All secrets received under the prefix i derive from the secret received for i itself. */
  ghost predicate PrefixConsistent(sha: Hash, log: seq<Bytes>, i: nat)
    requires |log| <= Pow2(INDEX_BITS) && Received(log) <= i < Pow2(INDEX_BITS)
  {
    forall j | i <= j < i + Pow2(LowestBit(i)) && j < Pow2(INDEX_BITS) ::
      SecretAt(log, j) == DeriveFrom(sha, SecretAt(log, i), j, LowestBit(i))
  }

  /** Before i is inserted, each slot b below i's own holds exactly i + 2^b. */
  lemma {:induction false} LowerSlots(sha: Hash, log: seq<Bytes>, s: seq<Item>, i: nat, b: nat)
    requires StoreInv(sha, log, s) && Received(log) == i + 1 && b < LowestBit(i)
    ensures i + Pow2(b) < Pow2(INDEX_BITS)
    ensures s[b] == Item(i + Pow2(b), Some(SecretAt(log, i + Pow2(b))))
  {
    hide Low, LowestBit, DeriveFrom;
    var j := i + Pow2(b);
    LowBitsClear(i, b + 1);
    MultipleStaysBelow(i, b + 1);
    NextWithTrailingZeros(i, b, j);
    assert SlotHoldsSmallest(log, s[b], b);
    if s[b].index < j && s[b].secret.Some? {
      NextWithTrailingZeros(i, b, s[b].index);
    }
  }

  /** What the check on insertion means: the secrets already received under i all derive from the new one. */
  lemma CheckMeansPrefixConsistent(sha: Hash, log: seq<Bytes>, s: seq<Item>, secret: Bytes, i: nat)
    requires StoreInv(sha, log, s) && Received(log) == i + 1
    ensures |log + [secret]| <= Pow2(INDEX_BITS)
    ensures DerivesLower(sha, s, secret, LowestBit(i)) <==> PrefixConsistent(sha, log + [secret], i)
  {
    hide Low, LowestBit, DeriveFrom, Pow2;
    var log', top := log + [secret], LowestBit(i);
    LowBitsClear(i, top);
    MultipleStaysBelow(i, top);
    forall j: nat | i < j < Pow2(INDEX_BITS)
      ensures SecretAt(log', j) == SecretAt(log, j)
    {
    }
    DeriveZero(sha, secret, i, top);
    if DerivesLower(sha, s, secret, top) {
      forall j: nat | i < j < i + Pow2(top)
        ensures SecretAt(log', j) == DeriveFrom(sha, secret, j, top)
      {
        CheckCovers(sha, log, s, secret, i, j);
      }
    }
    if PrefixConsistent(sha, log', i) {
      forall b | 0 <= b < top
        ensures s[b].secret == Some(DeriveFrom(sha, secret, s[b].index, top))
      {
        LowerSlots(sha, log, s, i, b);
        Pow2Monotonic(b, top);
        assert SecretAt(log', i + Pow2(b)) == DeriveFrom(sha, secret, i + Pow2(b), top);
      }
    }
  }

  lemma CheckCovers(sha: Hash, log: seq<Bytes>, s: seq<Item>, secret: Bytes, i: nat, j: nat)
    requires StoreInv(sha, log, s) && Received(log) == i + 1
    requires DerivesLower(sha, s, secret, LowestBit(i))
    requires i < j < i + Pow2(LowestBit(i)) && j < Pow2(INDEX_BITS)
    ensures SecretAt(log, j) == DeriveFrom(sha, secret, j, LowestBit(i))
  {
    hide Low, LowestBit, DeriveFrom;
    var top := LowestBit(i);
    var b := TopBit(j - i, top);
    LowerSlots(sha, log, s, i, b);
    SlotHoldsChild(sha, s, secret, i, b);
    // j lies under slot b, whose secret is the first hash taken on the way from i to j
    assert SlotDerives(sha, log, s[b], b);
    LowBitsClear(i, top);
    FirstHash(sha, secret, i, j, top, b);
  }

  lemma SlotHoldsChild(sha: Hash, s: seq<Item>, secret: Bytes, i: nat, b: nat)
    requires b < LowestBit(i) <= |s| && s[b].index == i + Pow2(b)
    requires DerivesLower(sha, s, secret, LowestBit(i))
    ensures s[b].secret == Some(Child(sha, secret, b))
  {
    hide DeriveFrom, Low, LowestBit;
    LowBitsClear(i, LowestBit(i));
    LowBitsClear(i, b);
    ChildOfPrefix(sha, secret, i, LowestBit(i), b);
  }

  lemma ChildOfPrefix(sha: Hash, p: Bytes, i: nat, top: nat, b: nat)
    requires b < top && Low(i, top) == 0 && Low(i, b) == 0
    ensures DeriveFrom(sha, p, i + Pow2(b), top) == Child(sha, p, b)
  {
    hide Low, DeriveFrom;
    FirstHash(sha, p, i, i + Pow2(b), top, b);
    LowShift(i, Pow2(b), b);
    LowOfPow2(b, b);
    DeriveZero(sha, Child(sha, p, b), i + Pow2(b), b);
  }

  lemma FirstHash(sha: Hash, p: Bytes, i: nat, j: nat, top: nat, b: nat)
    requires b < top && Low(i, top) == 0 && i + Pow2(b) <= j < i + Pow2(b + 1)
    ensures DeriveFrom(sha, p, j, top) == DeriveFrom(sha, Child(sha, p, b), j, b)
  {
    hide Low, DeriveFrom;
    Pow2Monotonic(b + 1, top);
    LowOffset(i, j - i, top);
    DeriveFirstBit(sha, p, j, top, b);
  }

  /** The highest set bit of a positive number below 2^n. */
  ghost function TopBit(x: nat, n: nat): (b: nat)
    requires 0 < x < Pow2(n)
    ensures b < n && Pow2(b) <= x < Pow2(b + 1)
  {
    if Pow2(n - 1) <= x then n - 1 else TopBit(x, n - 1)
  }

  /** An accepted insertion keeps the slot invariant. */
  lemma {:induction false} InsertKeepsInv(sha: Hash, log: seq<Bytes>, s: seq<Item>, secret: Bytes, i: nat)
    requires StoreInv(sha, log, s) && Received(log) == i + 1
    requires DerivesLower(sha, s, secret, LowestBit(i))
    ensures StoreInv(sha, log + [secret], s[LowestBit(i) := Item(i, Some(secret))])
  {
    hide Low, LowestBit, DeriveFrom, Pow2;
    var log', top := log + [secret], LowestBit(i);
    var s' := s[top := Item(i, Some(secret))];
    CheckMeansPrefixConsistent(sha, log, s, secret, i);
    assert SecretAt(log', i) == secret;
    forall b | 0 <= b < SLOTS
      ensures SlotHoldsSmallest(log', s'[b], b) && SlotDerives(sha, log', s'[b], b)
    {
      assert SlotHoldsSmallest(log, s[b], b) && SlotDerives(sha, log, s[b], b);
      if b != top && s[b].secret.Some? {
        forall j | s[b].index <= j < s[b].index + Pow2(b) && j < Pow2(INDEX_BITS)
          ensures SecretAt(log', j) == DeriveFrom(sha, s[b].secret.value, j, b)
        {
          assert SecretAt(log, j) == DeriveFrom(sha, s[b].secret.value, j, b);
        }
      }
    }
  }

  lemma {:induction false} ReplayKeepsInv(sha: Hash, log: seq<Bytes>)
    requires |log| <= Pow2(INDEX_BITS) && Replay(sha, log).Some?
    ensures StoreInv(sha, log, Replay(sha, log).value)
  {
    hide Low, LowestBit, DeriveFrom, Pow2;
    if log == [] {
    } else {
      var n := |log| - 1;
      ReplayKeepsInv(sha, log[..n]);
      InsertKeepsInv(sha, log[..n], Replay(sha, log[..n]).value, log[n], Pow2(INDEX_BITS) - 1 - n);
      assert log[..n] + [log[n]] == log;
    }
  }

  // ---------------------------------------------------------------------------
  // Looking a secret up

  lemma MaskIsPrefix(i: nat, b: nat)
    requires i < Pow2(INDEX_BITS) && b <= INDEX_BITS
    ensures And(i, Shl(Shr(ALL_ONES, b), b)) == ClearLow(i, b)
  {
    AllOnes();
    hide And, ClearLow, Shl, Shr;
    MaskClearsLowBits(i, INDEX_BITS, b);
  }

  /** Whatever slot answers, the answer is the secret that was received. */
  lemma HolderAnswersRight(sha: Hash, log: seq<Bytes>, s: seq<Item>, i: nat, b: nat)
    requires StoreInv(sha, log, s) && b < SLOTS && i < Pow2(INDEX_BITS) && Holds(s[b], i, b)
    ensures Received(log) <= i
    ensures DeriveFrom(sha, s[b].secret.value, i, b) == SecretAt(log, i)
  {
    hide Low, LowestBit, DeriveFrom, Pow2;
    MaskIsPrefix(i, b);
    assert SlotHoldsSmallest(log, s[b], b) && SlotDerives(sha, log, s[b], b);
  }

  /** Every received index is under some filled slot, at position b or above once its prefix at b was received. */
  lemma {:induction false} SomeSlotHolds(sha: Hash, log: seq<Bytes>, s: seq<Item>, i: nat, b: nat) returns (c: nat)
    requires StoreInv(sha, log, s) && b < SLOTS
    requires i < Pow2(INDEX_BITS) && Received(log) <= ClearLow(i, b)
    ensures c < SLOTS && Holds(s[c], i, c)
    decreases SLOTS - b
  {
    hide Low, LowestBit, DeriveFrom, Pow2;
    MaskIsPrefix(i, b);
    assert SlotHoldsSmallest(log, s[b], b);
    ClearLowHasNoLowBits(i, b);
    if b == INDEX_BITS {
      LowSmall(i, b);
      OnlyZeroHasNoBit(0);
      if s[b].secret.Some? { OnlyZeroHasNoBit(s[b].index); }
      return b;
    }
    ClearLowStep(i, b);
    if Received(log) <= ClearLow(i, b + 1) {
      c := SomeSlotHolds(sha, log, s, i, b + 1);
      return;
    }
    var parent, prefix := ClearLow(i, b + 1), ClearLow(i, b);
    ClearLowHasNoLowBits(i, b + 1);
    NextWithTrailingZeros(parent, b, prefix);
    if s[b].secret.Some? && s[b].index < prefix {
      NextWithTrailingZeros(parent, b, s[b].index);
    }
    return b;
  }

  lemma {:induction false} LookupFindsHolder(sha: Hash, log: seq<Bytes>, s: seq<Item>, i: nat, b: nat, c: nat)
    requires StoreInv(sha, log, s) && b <= c < SLOTS && i < Pow2(INDEX_BITS) && Holds(s[c], i, c)
    ensures Received(log) <= i
    ensures LookupFrom(sha, s, i, b) == Some(SecretAt(log, i))
    decreases SLOTS - b
  {
    hide Low, LowestBit, DeriveFrom, Pow2;
    HolderAnswersRight(sha, log, s, i, c);
    if Holds(s[b], i, b) {
      HolderAnswersRight(sha, log, s, i, b);
    } else {
      LookupFindsHolder(sha, log, s, i, b + 1, c);
    }
  }

  lemma {:induction false} LookupFindsNothing(sha: Hash, log: seq<Bytes>, s: seq<Item>, i: nat, b: nat)
    requires StoreInv(sha, log, s) && b <= SLOTS && i < Received(log)
    ensures LookupFrom(sha, s, i, b) == None
    decreases SLOTS - b
  {
    hide Low, LowestBit, DeriveFrom, Pow2;
    if b < SLOTS {
      if Holds(s[b], i, b) { HolderAnswersRight(sha, log, s, i, b); }
      LookupFindsNothing(sha, log, s, i, b + 1);
    }
  }

  // ---------------------------------------------------------------------------
  // Main results

  /**
   Binding: whatever secrets were accepted, 49 slots answer for the whole log,
   and for nothing that has not been received.
  */
  lemma {:induction false} StoreAgreesWithLog(sha: Hash, log: seq<Bytes>, i: nat)
    requires |log| <= Pow2(INDEX_BITS) && Replay(sha, log).Some? && i < Pow2(INDEX_BITS)
    ensures Lookup(sha, Replay(sha, log).value, i)
         == if Received(log) <= i then Some(SecretAt(log, i)) else None
  {
    var s := Replay(sha, log).value;
    ReplayKeepsInv(sha, log);
    if Received(log) <= i {
      assert Low(i, 0) == 0;
      var c := SomeSlotHolds(sha, log, s, i, 0);
      LookupFindsHolder(sha, log, s, i, 0, c);
    } else {
      LookupFindsNothing(sha, log, s, i, 0);
    }
  }

  /** Every received secret is a prefix for all the earlier ones its position stands for. */
  ghost predicate Consistent(sha: Hash, log: seq<Bytes>)
    requires |log| <= Pow2(INDEX_BITS)
  {
    forall i: nat | Received(log) <= i < Pow2(INDEX_BITS) :: PrefixConsistent(sha, log, i)
  }

  /** Exactly the consistent logs are accepted. */
  lemma {:induction false} AcceptedIffConsistent(sha: Hash, log: seq<Bytes>)
    requires |log| <= Pow2(INDEX_BITS)
    ensures Replay(sha, log).Some? <==> Consistent(sha, log)
  {
    hide Pow2, Inserted, PrefixConsistent;
    if log == [] {
    } else {
      var n := |log| - 1;
      var i := Pow2(INDEX_BITS) - 1 - n;
      AcceptedIffConsistent(sha, log[..n]);
      ConsistentStep(sha, log[..n], log[n], i);
      if Replay(sha, log[..n]).Some? {
        AcceptedIffPrefixConsistent(sha, log[..n], log[n], i);
      }
      assert log[..n] + [log[n]] == log;
    }
  }

  lemma {:induction false} AcceptedIffPrefixConsistent(sha: Hash, log: seq<Bytes>, secret: Bytes, i: nat)
    requires |log| < Pow2(INDEX_BITS) && Received(log) == i + 1 && Replay(sha, log).Some?
    ensures Inserted(sha, Replay(sha, log).value, secret, i).Some? <==> PrefixConsistent(sha, log + [secret], i)
  {
    ReplayKeepsInv(sha, log);
    CheckMeansPrefixConsistent(sha, log, Replay(sha, log).value, secret, i);
  }

  lemma ConsistentStep(sha: Hash, log: seq<Bytes>, secret: Bytes, i: nat)
    requires |log| < Pow2(INDEX_BITS) && Received(log) == i + 1
    ensures Consistent(sha, log + [secret]) <==> Consistent(sha, log) && PrefixConsistent(sha, log + [secret], i)
  {
    forall k: nat | i < k < Pow2(INDEX_BITS)
      ensures PrefixConsistent(sha, log + [secret], k) <==> PrefixConsistent(sha, log, k)
    {
      PrefixConsistencyPersists(sha, log, secret, k);
    }
  }

  lemma PrefixConsistencyPersists(sha: Hash, log: seq<Bytes>, secret: Bytes, k: nat)
    requires |log| < Pow2(INDEX_BITS) && Received(log) <= k < Pow2(INDEX_BITS)
    ensures PrefixConsistent(sha, log + [secret], k) <==> PrefixConsistent(sha, log, k)
  {
    forall j: nat | k <= j < Pow2(INDEX_BITS)
      ensures SecretAt(log + [secret], j) == SecretAt(log, j)
    {
    }
  }

  /** Honest completeness: secrets generated from one seed and revealed in order are never refused. */
  lemma {:induction false} HonestSecretsAccepted(sha: Hash, seed: Bytes, log: seq<Bytes>)
    requires |log| <= Pow2(INDEX_BITS)
    requires forall n :: 0 <= n < |log| ==> log[n] == DeriveFrom(sha, seed, Pow2(INDEX_BITS) - 1 - n, INDEX_BITS)
    ensures Replay(sha, log).Some?
  {
    forall i: nat, j | Received(log) <= i < Pow2(INDEX_BITS) && i <= j < i + Pow2(LowestBit(i)) && j < Pow2(INDEX_BITS)
      ensures SecretAt(log, j) == DeriveFrom(sha, SecretAt(log, i), j, LowestBit(i))
    {
      SubtreeOfSeed(sha, seed, i, j);
    }
    AcceptedIffConsistent(sha, log);
  }

  lemma SubtreeOfSeed(sha: Hash, seed: Bytes, i: nat, j: nat)
    requires i <= j < i + Pow2(LowestBit(i))
    ensures DeriveFrom(sha, seed, j, INDEX_BITS)
         == DeriveFrom(sha, DeriveFrom(sha, seed, i, INDEX_BITS), j, LowestBit(i))
  {
    hide Low, ClearLow, DeriveFrom, LowestBit;
    var b := LowestBit(i);
    LowBitsClear(i, b);
    LowOffset(i, j - i, b);
    PrefixLaw(sha, seed, j, INDEX_BITS, b);
  }

  /** Once index 0 is accepted, its secret is the seed of everything received before it. */
  lemma {:induction false} LastSecretIsTheSeed(sha: Hash, log: seq<Bytes>, j: nat)
    requires |log| == Pow2(INDEX_BITS) && Replay(sha, log).Some? && j < Pow2(INDEX_BITS)
    ensures SecretAt(log, j) == DeriveFrom(sha, SecretAt(log, 0), j, INDEX_BITS)
  {
    AcceptedIffConsistent(sha, log);
    assert PrefixConsistent(sha, log, 0);
    OnlyZeroHasNoBit(0);
  }
}
