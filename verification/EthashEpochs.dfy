/** Epoch seeds, the remembered epoch search and the light cache of ethash.cpp. */
module EthashEpochs {
  import opened EthashWords
  import Fips202

  const ZERO_HASH: Hash256 := Fips202.Zeros(256)

  /** The seed of an epoch: the hash applied `epoch` times to zero. */
  function EpochSeed(epoch: nat): Hash256 {
    if epoch == 0 then ZERO_HASH else Keccak256(EpochSeed(epoch - 1))
  }

  method CalculateEpochSeed(epoch: int) returns (seed: Hash256)
    ensures seed == EpochSeed(if epoch < 0 then 0 else epoch)
  {
    hide Keccak256;
    seed := ZERO_HASH;
    var i := 0;
    while i < epoch
      invariant 0 <= i && (i <= epoch || i == 0) && seed == EpochSeed(i)
    {
      seed := Keccak256(seed);
      i := i + 1;
    }
  }

  const NUM_TRIES: nat := 30000

  /** The first word of an epoch's seed, all that the search compares. */
  function SeedPart(epoch: nat): U32 {
    Word32(EpochSeed(epoch), 0)
  }

  /** The first epoch from `i` up to, and not including, `n` whose seed starts with `part`, or -1. */
  function FirstEpoch(part: U32, i: nat, n: nat): (r: int)
    decreases n - i
  {
    if i >= n then -1 else if SeedPart(i) == part then i else FirstEpoch(part, i + 1, n)
  }

  /** What find_epoch_number answers when `cached` is the epoch it remembers. */
  function Answer(cached: nat, part: U32): int {
    if SeedPart(cached) == part then cached
    else if SeedPart(cached + 1) == part then cached + 1
    else FirstEpoch(part, 0, NUM_TRIES)
  }

  /** The epoch remembered afterwards. */
  function Remembered(cached: nat, part: U32): nat {
    if Answer(cached, part) < 0 then cached else Answer(cached, part)
  }

  class EpochFinder {
    var cachedEpoch: int
    var cachedSeed: Hash256

    ghost predicate Valid()
      reads this
    {
      cachedEpoch >= 0 && cachedSeed == EpochSeed(cachedEpoch)
    }

    constructor ()
      ensures Valid() && cachedEpoch == 0
    {
      cachedEpoch := 0;
      cachedSeed := ZERO_HASH;
    }

    method FindEpochNumber(seed: Hash256) returns (r: int)
      requires Valid()
      modifies this
      ensures Valid()
      ensures r == Answer(old(cachedEpoch), Word32(seed, 0))
      ensures cachedEpoch == Remembered(old(cachedEpoch), Word32(seed, 0))
    {
      hide Keccak256;
      var seedPart := Word32(seed, 0);
      var e := cachedEpoch;
      var s := cachedSeed;
      if Word32(s, 0) == seedPart {
        return e;
      }
      s := Keccak256(s);
      if Word32(s, 0) == seedPart {
        cachedSeed := s;
        cachedEpoch := e + 1;
        return e + 1;
      }
      s := ZERO_HASH;
      var i := 0;
      while i < NUM_TRIES
        invariant 0 <= i <= NUM_TRIES && s == EpochSeed(i)
        invariant FirstEpoch(seedPart, i, NUM_TRIES) == FirstEpoch(seedPart, 0, NUM_TRIES)
        invariant cachedEpoch == old(cachedEpoch) && cachedSeed == old(cachedSeed)
      {
        if Word32(s, 0) == seedPart {
          cachedSeed := s;
          cachedEpoch := i;
          return i;
        }
        s := Keccak256(s);
        i := i + 1;
      }
      return -1;
    }
  }

  lemma {:induction false} FirstEpochIs(part: U32, i: nat, n: nat)
    ensures var r := FirstEpoch(part, i, n);
            if r < 0 then r == -1 && forall k :: i <= k < n ==> SeedPart(k) != part
            else i <= r < n && SeedPart(r) == part && forall k :: i <= k < r ==> SeedPart(k) != part
    decreases n - i
  {
    hide SeedPart;
    if i >= n || SeedPart(i) == part {
    } else {
      FirstEpochIs(part, i + 1, n);
    }
  }

  /** Whatever is remembered: a non-negative answer names an epoch whose seed has the first word asked for, and -1 is
      answered only if no epoch below 30000 has. */
  lemma AnswerMatches(cached: nat, part: U32)
    ensures Answer(cached, part) >= 0 ==> SeedPart(Answer(cached, part)) == part
    ensures Answer(cached, part) < 0 ==> forall e :: 0 <= e < NUM_TRIES ==> SeedPart(e) != part
  {
    hide SeedPart, FirstEpoch;
    FirstEpochIs(part, 0, NUM_TRIES);
  }

  /** Below `n`, the first word of a seed tells which of the epochs below 30000 it belongs to. */
  ghost predicate Telling(n: nat) {
    forall c, e :: 0 <= c < n && 0 <= e < NUM_TRIES && SeedPart(c) == SeedPart(e) ==> c == e
  }

  /** For every remembered epoch below `n - 1`, every epoch below 30000 is found from its seed. */
  ghost predicate AlwaysFound(n: nat) {
    forall c, e :: 0 <= c < n - 1 && 0 <= e < NUM_TRIES ==> Answer(c, SeedPart(e)) == e
  }

  /** The search is right in every remembered state exactly when first words are telling. */
  lemma FoundIffTelling(n: nat)
    requires n > NUM_TRIES + 1
    ensures AlwaysFound(n) <==> Telling(n)
  {
    hide SeedPart, FirstEpoch, Answer;
    if Telling(n) {
      forall c, e | 0 <= c < n - 1 && 0 <= e < NUM_TRIES
        ensures Answer(c, SeedPart(e)) == e
      {
        FoundWhenTelling(n, c, e);
      }
    }
    if AlwaysFound(n) {
      forall c, e | 0 <= c < n && 0 <= e < NUM_TRIES && SeedPart(c) == SeedPart(e)
        ensures c == e
      {
        TellingWhenFound(n, c, e);
      }
    }
  }

  lemma FoundWhenTelling(n: nat, c: nat, e: nat)
    requires Telling(n) && c < n - 1 && e < NUM_TRIES && n > NUM_TRIES
    ensures Answer(c, SeedPart(e)) == e
  {
    hide SeedPart, FirstEpoch;
    FirstEpochIs(SeedPart(e), 0, NUM_TRIES);
  }

  lemma TellingWhenFound(n: nat, c: nat, e: nat)
    requires AlwaysFound(n) && c < n && e < NUM_TRIES && n > NUM_TRIES + 1 && SeedPart(c) == SeedPart(e)
    ensures c == e
  {
    hide SeedPart, FirstEpoch;
    if c < n - 1 {
      assert Answer(c, SeedPart(e)) == e;
    } else {
      assert Answer(n - 2, SeedPart(e)) == e;
    }
  }

  /** The epoch remembered after a history of calls with any seeds, given by their first words. */
  function After(calls: seq<U32>): nat {
    if calls == [] then 0 else Remembered(After(calls[..|calls| - 1]), calls[|calls| - 1])
  }

  lemma {:induction false} AfterBound(calls: seq<U32>)
    ensures After(calls) < NUM_TRIES + |calls|
  {
    hide SeedPart, FirstEpoch;
    if calls == [] {
    } else {
      AfterBound(calls[..|calls| - 1]);
      FirstEpochIs(calls[|calls| - 1], 0, NUM_TRIES);
    }
  }

  /** Epochs asked for one after the other are found without the search, even beyond the epochs it covers. */
  lemma SequentialAccess(calls: seq<U32>, e: nat)
    requires After(calls) == e && SeedPart(e) != SeedPart(e + 1)
    ensures Answer(After(calls), SeedPart(e + 1)) == e + 1 && After(calls + [SeedPart(e + 1)]) == e + 1
  {
    hide SeedPart, FirstEpoch;
    assert (calls + [SeedPart(e + 1)])[..|calls|] == calls;
  }

  /** For any call history: if first words are telling for as many epochs as the history can reach, the seed of
      every epoch below 30000 is answered with that epoch. */
  lemma FoundAfterAnyHistory(calls: seq<U32>, e: nat)
    requires e < NUM_TRIES && Telling(NUM_TRIES + |calls| + 1)
    ensures Answer(After(calls), SeedPart(e)) == e
  {
    hide SeedPart, FirstEpoch, Answer, After;
    AfterBound(calls);
    FoundWhenTelling(NUM_TRIES + |calls| + 1, After(calls), e);
  }

  // The light cache

  function Seeded(seed: Hash256, i: nat): Hash512 {
    if i == 0 then Keccak512(seed) else Keccak512(Seeded(seed, i - 1))
  }

  function XorHash(x: Hash512, y: Hash512): Hash512 {
    Fips202.XorBits(x, y)
  }

  /** One round of the in-place mixing, without the order of updates: item `i` of the new cache hashes an item picked
      by the old item `i` (already new if it lies before `i`) combined with its new predecessor; the predecessor of
      item 0 is the old last item. */
  ghost predicate Mixed(old': seq<Hash512>, new': seq<Hash512>, upTo: nat)
    requires |old'| == |new'| && upTo <= |new'|
  {
    forall i :: 0 <= i < upTo ==> new'[i] == MixedItem(old', new', i)
  }

  function MixedItem(old': seq<Hash512>, new': seq<Hash512>, i: nat): Hash512
    requires |old'| == |new'| && i < |new'|
  {
    var n := |new'|;
    var v := Value(Word32(old'[i], 0)) % n;
    var x := if v < i then new'[v] else old'[v];
    var p := if i == 0 then old'[n - 1] else new'[i - 1];
    Keccak512(XorHash(x, p))
  }

  lemma MixedItemStable(old': seq<Hash512>, a: seq<Hash512>, b: seq<Hash512>, i: nat)
    requires |old'| == |a| == |b| && i < |a| && forall j :: 0 <= j < i ==> a[j] == b[j]
    ensures MixedItem(old', a, i) == MixedItem(old', b, i)
  {
    hide Keccak512, XorHash, Value;
  }

  /** A round has exactly one outcome. */
  lemma {:induction false} MixedUnique(old': seq<Hash512>, a: seq<Hash512>, b: seq<Hash512>, k: nat)
    requires |old'| == |a| == |b| && k <= |a| && Mixed(old', a, k) && Mixed(old', b, k)
    ensures forall j :: 0 <= j < k ==> a[j] == b[j]
    decreases k
  {
    hide MixedItem;
    if k == 0 {
    } else {
      MixedUnique(old', a, b, k - 1);
      MixedItemStable(old', a, b, k - 1);
    }
  }

  /** What the in-place step computes while items from `i` on are still old. */
  lemma StepIsMixedItem(old': seq<Hash512>, c: seq<Hash512>, i: nat)
    requires |old'| == |c| && i < |c| && forall j :: i <= j < |c| ==> c[j] == old'[j]
    ensures var n := |c|;
            MixedItem(old', c, i) == Keccak512(XorHash(c[Value(Word32(c[i], 0)) % n], c[(n + (i - 1)) % n]))
  {
    hide Keccak512, XorHash, Value;
    Previous(|c|, i);
  }

  lemma Previous(n: nat, i: nat)
    requires i < n
    ensures (n + (i - 1)) % n == if i == 0 then n - 1 else i - 1
  {
    if i > 0 {
      assert n + (i - 1) == n * 1 + (i - 1);
    }
  }

  /** build_light_cache: the seed chain, then three rounds of mixing in place. */
  method BuildLightCache(cache: array<Hash512>, seed: Hash256) returns (ghost rounds: seq<seq<Hash512>>)
    requires 0 < cache.Length <= 0x4000_0000
    modifies cache
    ensures |rounds| == 4 && forall q :: 0 <= q < 4 ==> |rounds[q]| == cache.Length
    ensures forall i :: 0 <= i < cache.Length ==> rounds[0][i] == Seeded(seed, i)
    ensures forall q :: 0 <= q < 3 ==> Mixed(rounds[q], rounds[q + 1], cache.Length)
    ensures cache[..] == rounds[3]
  {
    hide Keccak512, XorHash, Value;
    var numItems := cache.Length;
    var item := Keccak512(seed);
    cache[0] := item;
    var i := 1;
    while i < numItems
      invariant 1 <= i <= numItems && item == Seeded(seed, i - 1)
      invariant forall j :: 0 <= j < i ==> cache[j] == Seeded(seed, j)
    {
      item := Keccak512(item);
      cache[i] := item;
      i := i + 1;
    }

    rounds := [cache[..]];
    var q := 0;
    while q < 3
      invariant 0 <= q <= 3 && |rounds| == q + 1 && rounds[q] == cache[..]
      invariant forall r :: 0 <= r <= q ==> |rounds[r]| == numItems
      invariant forall j :: 0 <= j < numItems ==> rounds[0][j] == Seeded(seed, j)
      invariant forall r :: 0 <= r < q ==> Mixed(rounds[r], rounds[r + 1], numItems)
    {
      MixRound(cache);
      rounds := rounds + [cache[..]];
      q := q + 1;
    }
  }

  method MixRound(cache: array<Hash512>)
    requires 0 < cache.Length <= 0x4000_0000
    modifies cache
    ensures Mixed(old(cache[..]), cache[..], cache.Length)
  {
    hide Keccak512, XorHash, Value, MixedItem;
    var numItems := cache.Length;
    ghost var before := cache[..];
    var i := 0;
    while i < numItems
      invariant 0 <= i <= numItems
      invariant forall j :: i <= j < numItems ==> cache[j] == before[j]
      invariant Mixed(before, cache[..], i)
    {
      var v := Value(Word32(cache[i], 0)) % numItems;
      var w := (numItems + (i - 1)) % numItems;
      ghost var c := cache[..];
      StepIsMixedItem(before, c, i);
      cache[i] := Keccak512(XorHash(cache[v], cache[w]));
      forall j | 0 <= j <= i
        ensures cache[..][j] == MixedItem(before, cache[..], j)
      {
        MixedItemStable(before, c, cache[..], j);
      }
      i := i + 1;
    }
  }
}
