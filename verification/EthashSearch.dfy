/** Comparison, verification and nonce search of ethash.cpp and ethash-internal.hpp. */
module EthashSearch {
  import CommonData
  import opened Prelude
  import opened EthashWords
  import opened EthashDataset

  // 256-bit big-endian numbers

  /** A byte string read as a big-endian number. */
  function BigEndian(s: seq<bool>): nat {
    if |s| < 8 then 0 else BigEndian(s[..|s| - 8]) * 256 + Value(s[|s| - 8..])
  }

  /** bswap64 and its kin: the bytes of a word in opposite order. */
  function ByteSwap(w: seq<bool>): (r: seq<bool>)
    requires |w| % 8 == 0
    ensures |r| == |w|
  {
    if |w| == 0 then [] else w[|w| - 8..] + ByteSwap(w[..|w| - 8])
  }

  lemma {:induction false} ByteSplit(b: seq<bool>, s: seq<bool>)
    requires |b| == 8
    ensures Value(b + s) == Value(b) + 256 * Value(s) && Value(b) < 256
  {
    ValueSplit(b, s);
    assert CommonData.Power(2, 8) == 256;
  }

  lemma {:induction false} ValueSplit(b: seq<bool>, s: seq<bool>)
    ensures Value(b + s) == Value(b) + CommonData.Power(2, |b|) * Value(s) && Value(b) < CommonData.Power(2, |b|)
    decreases |b|
  {
    if b == [] {
      assert b + s == s;
    } else {
      ValueSplit(b[1..], s);
      assert (b + s)[1..] == b[1..] + s;
      Twice(CommonData.Power(2, |b| - 1), Value(s));
    }
  }

  lemma Twice(p: nat, v: nat)
    ensures 2 * (p * v) == (2 * p) * v
  {
  }

  /** A byte-swapped word has the value its bytes spell in big-endian order. */
  lemma {:induction false} SwappedValue(w: seq<bool>)
    requires |w| % 8 == 0
    ensures Value(ByteSwap(w)) == BigEndian(w)
    decreases |w|
  {
    if |w| == 0 {
    } else {
      SwappedValue(w[..|w| - 8]);
      ByteSplit(w[|w| - 8..], ByteSwap(w[..|w| - 8]));
    }
  }

  lemma {:induction false} BigEndianSplit(s: seq<bool>, t: seq<bool>)
    requires |t| % 8 == 0
    ensures BigEndian(s + t) == BigEndian(s) * CommonData.Power(2, |t|) + BigEndian(t)
    ensures BigEndian(t) < CommonData.Power(2, |t|)
    decreases |t|
  {
    hide Value, CommonData.Power;
    if |t| == 0 {
      assert s + t == s && CommonData.Power(2, 0) == 1 by { PowZero(); }
    } else {
      var u, b := t[..|t| - 8], t[|t| - 8..];
      BigEndianSplit(s, u);
      ByteSplit(b, []);
      assert (s + t)[..|s + t| - 8] == s + u && (s + t)[|s + t| - 8..] == b;
      PowStep(|u|);
      Shift(BigEndian(s), CommonData.Power(2, |u|), BigEndian(u), Value(b));
    }
  }

  lemma Shift(x: nat, p: nat, y: nat, v: nat)
    requires y < p && v < 256
    ensures (x * p + y) * 256 + v == x * (256 * p) + (y * 256 + v)
    ensures y * 256 + v < 256 * p
  {
  }

  lemma PowZero()
    ensures CommonData.Power(2, 0) == 1
  {
  }

  lemma PowStep(k: nat)
    ensures CommonData.Power(2, k + 8) == 256 * CommonData.Power(2, k)
  {
    assert CommonData.Power(2, k + 2) == 4 * CommonData.Power(2, k);
    assert CommonData.Power(2, k + 4) == 4 * CommonData.Power(2, k + 2);
    assert CommonData.Power(2, k + 6) == 4 * CommonData.Power(2, k + 4);
  }

  /** The first word that differs decides the order of the whole numbers. */
  lemma FirstDifference(p: seq<bool>, q: seq<bool>, x: seq<bool>, y: seq<bool>, r: seq<bool>, s: seq<bool>)
    requires |x| == |y| && |x| % 8 == 0 && |r| == |s| && |r| % 8 == 0
    requires BigEndian(p) == BigEndian(q) && BigEndian(x) < BigEndian(y)
    ensures BigEndian(p + x + r) < BigEndian(q + y + s)
  {
    hide BigEndian;
    EqualPrefix(p, q, x, y);
    SmallerPrefix(p + x, q + y, r, s);
  }

  lemma EqualPrefix(p: seq<bool>, q: seq<bool>, x: seq<bool>, y: seq<bool>)
    requires |x| == |y| && |x| % 8 == 0
    requires BigEndian(p) == BigEndian(q) && BigEndian(x) < BigEndian(y)
    ensures BigEndian(p + x) < BigEndian(q + y)
  {
    hide BigEndian, CommonData.Power;
    var k, n := BigEndian(p), CommonData.Power(2, |x|);
    assert BigEndian(p + x) == k * n + BigEndian(x) by { BigEndianSplit(p, x); }
    assert BigEndian(q + y) == k * n + BigEndian(y) by { BigEndianSplit(q, y); }
  }

  lemma SmallerPrefix(u: seq<bool>, v: seq<bool>, r: seq<bool>, s: seq<bool>)
    requires |r| == |s| && |r| % 8 == 0
    requires BigEndian(u) < BigEndian(v)
    ensures BigEndian(u + r) < BigEndian(v + s)
  {
    hide BigEndian, CommonData.Power;
    BigEndianSplit(u, r);
    BigEndianSplit(v, s);
    Decide(BigEndian(u), BigEndian(v), CommonData.Power(2, |r|), BigEndian(r), BigEndian(s));
  }

  lemma Decide(x: nat, y: nat, p: nat, r: nat, s: nat)
    requires x < y && r < p
    ensures x * p + r < y * p + s
  {
    assert (x + 1) * p <= y * p;
  }

  /** is_less_or_equal compares the hashes as 256-bit big-endian numbers. */
  method IsLessOrEqual(a: Hash256, b: Hash256) returns (le: bool)
    ensures le <==> BigEndian(a) <= BigEndian(b)
  {
    hide BigEndian, ByteSwap, Value;
    var i := 0;
    while i < 4
      invariant 0 <= i <= 4
      invariant BigEndian(a[..64 * i]) == BigEndian(b[..64 * i])
    {
      var wa, wb := a[64 * i..64 * i + 64], b[64 * i..64 * i + 64];
      SwappedValue(wa);
      SwappedValue(wb);
      ghost var ra, rb := a[64 * i + 64..], b[64 * i + 64..];
      assert a == a[..64 * i] + wa + ra && b == b[..64 * i] + wb + rb;
      if Value(ByteSwap(wa)) > Value(ByteSwap(wb)) {
        FirstDifference(b[..64 * i], a[..64 * i], wb, wa, rb, ra);
        return false;
      }
      if Value(ByteSwap(wa)) < Value(ByteSwap(wb)) {
        FirstDifference(a[..64 * i], b[..64 * i], wa, wb, ra, rb);
        return true;
      }
      BigEndianSplit(a[..64 * i], wa);
      BigEndianSplit(b[..64 * i], wb);
      assert a[..64 * i] + wa == a[..64 * (i + 1)] && b[..64 * i] + wb == b[..64 * (i + 1)];
      i := i + 1;
    }
    assert a[..256] == a && b[..256] == b;
    return true;
  }

  // Hashing and verification

  /** ethash_hash, from the light cache. */
  method HashLight(c: EpochContext, header: Hash256, nonce: nat) returns (r: Result)
    ensures r == EthashResult(c, header, nonce)
  {
    hide HashSeed, HashFinal, MixHash;
    var seed := HashSeed(header, nonce);
    var mixHash := HashKernel(c, seed, Direct);
    r := Result(HashFinal(seed, mixHash), mixHash);
  }

  /** hash over a full context: whatever part of the dataset earlier calls have filled in, the light hash. */
  method HashFull(full: FullContext, header: Hash256, nonce: nat) returns (r: Result)
    requires full.Valid()
    modifies full.fullDataset
    ensures full.Valid() && r == EthashResult(full.context, header, nonce)
  {
    hide HashSeed, HashFinal, MixHash;
    var seed := HashSeed(header, nonce);
    var mixHash := HashKernel(full.context, seed, Lazy(full));
    r := Result(HashFinal(seed, mixHash), mixHash);
  }

  /** The final hash of a nonce is within the boundary. */
  predicate Solves(c: EpochContext, header: Hash256, boundary: Hash256, nonce: nat) {
    BigEndian(EthashResult(c, header, nonce).finalHash) <= BigEndian(boundary)
  }

  method VerifyFinalHash(header: Hash256, mixHash: Hash256, nonce: nat, boundary: Hash256) returns (ok: bool)
    ensures ok <==> BigEndian(HashFinal(HashSeed(header, nonce), mixHash)) <= BigEndian(boundary)
  {
    ok := IsLessOrEqual(HashFinal(HashSeed(header, nonce), mixHash), boundary);
  }

  /** A share: the mix of the nonce's own hash, and that hash within the boundary. */
  predicate Acceptable(c: EpochContext, header: Hash256, mixHash: Hash256, nonce: nat, boundary: Hash256) {
    mixHash == EthashResult(c, header, nonce).mixHash && Solves(c, header, boundary, nonce)
  }

  /** Whatever mix is claimed with it, a nonce that is accepted solves, with the one mix that belongs to it; and every
      nonce that solves is accepted with that mix. */
  lemma AcceptedIffSolves(c: EpochContext, header: Hash256, nonce: nat, boundary: Hash256, mixHash: Hash256)
    ensures Acceptable(c, header, mixHash, nonce, boundary)
            <==> Solves(c, header, boundary, nonce) && mixHash == MixHash(c, HashSeed(header, nonce))
  {
    hide HashSeed, HashFinal, MixHash, BigEndian;
  }

  /** ethash_verify, which tests the boundary on the claimed mix before it computes the real one. */
  method Verify(c: EpochContext, header: Hash256, mixHash: Hash256, nonce: nat, boundary: Hash256) returns (ok: bool)
    ensures ok <==> Acceptable(c, header, mixHash, nonce, boundary)
  {
    hide HashSeed, HashFinal, MixHash, BigEndian;
    var seed := HashSeed(header, nonce);
    var within := IsLessOrEqual(HashFinal(seed, mixHash), boundary);
    if !within {
      return false;
    }
    var expected := HashKernel(c, seed, Direct);
    return expected == mixHash;
  }

  // Search

  datatype SearchResult = NotFound | Found(nonce: nat, result: Result)

  /** The first solution among the nonces from `nonce` up to, and not including, `end`. */
  function FirstSolution(c: EpochContext, header: Hash256, boundary: Hash256, nonce: nat, end: nat): SearchResult
    decreases end - nonce
  {
    if nonce >= end then NotFound
    else if Solves(c, header, boundary, nonce) then Found(nonce, EthashResult(c, header, nonce))
    else FirstSolution(c, header, boundary, nonce + 1, end)
  }

  /** What a search returns; its end is computed in 64 bits. */
  function Searched(c: EpochContext, header: Hash256, boundary: Hash256, start: nat, iterations: nat): SearchResult {
    FirstSolution(c, header, boundary, start, (start + iterations) % TWO_64)
  }

  method SearchLight(c: EpochContext, header: Hash256, boundary: Hash256, startNonce: nat, iterations: nat)
    returns (r: SearchResult)
    requires startNonce < TWO_64 && iterations < TWO_64
    ensures r == Searched(c, header, boundary, startNonce, iterations)
  {
    hide EthashResult, BigEndian;
    var endNonce := (startNonce + iterations) % TWO_64;
    var nonce := startNonce;
    while nonce < endNonce
      invariant FirstSolution(c, header, boundary, nonce, endNonce)
             == FirstSolution(c, header, boundary, startNonce, endNonce)
    {
      var h := HashLight(c, header, nonce);
      var le := IsLessOrEqual(h.finalHash, boundary);
      if le {
        return Found(nonce, h);
      }
      nonce := nonce + 1;
    }
    return NotFound;
  }

  method SearchFull(full: FullContext, header: Hash256, boundary: Hash256, startNonce: nat, iterations: nat)
    returns (r: SearchResult)
    requires full.Valid() && startNonce < TWO_64 && iterations < TWO_64
    modifies full.fullDataset
    ensures full.Valid()
    ensures r == Searched(full.context, header, boundary, startNonce, iterations)
  {
    hide EthashResult, BigEndian;
    var endNonce := (startNonce + iterations) % TWO_64;
    var nonce := startNonce;
    while nonce < endNonce
      invariant full.Valid()
      invariant FirstSolution(full.context, header, boundary, nonce, endNonce)
             == FirstSolution(full.context, header, boundary, startNonce, endNonce)
    {
      var h := HashFull(full, header, nonce);
      var le := IsLessOrEqual(h.finalHash, boundary);
      if le {
        return Found(nonce, h);
      }
      nonce := nonce + 1;
    }
    return NotFound;
  }

  predicate IsLeast(c: EpochContext, header: Hash256, boundary: Hash256, start: nat, end: nat, s: SearchResult) {
    match s
    case Found(n, r) =>
      && start <= n < end && r == EthashResult(c, header, n) && Acceptable(c, header, r.mixHash, n, boundary)
      && (forall m :: start <= m < n ==> !Solves(c, header, boundary, m))
    case NotFound => forall m :: start <= m < end ==> !Solves(c, header, boundary, m)
  }

  /** What both searches return: the least solution of the range, in a form that verification accepts, and nothing
      only if the range holds none. */
  lemma {:induction false} SearchFindsLeast(c: EpochContext, header: Hash256, boundary: Hash256, nonce: nat, end: nat)
    ensures IsLeast(c, header, boundary, nonce, end, FirstSolution(c, header, boundary, nonce, end))
    decreases end - nonce
  {
    hide Solves, EthashResult;
    if nonce >= end || Solves(c, header, boundary, nonce) {
    } else {
      SearchFindsLeast(c, header, boundary, nonce + 1, end);
    }
  }

  /** The `k`-th nonce after `start`. */
  function Nth(start: nat, k: nat): nat {
    (start + k) % TWO_64
  }

  /** The promise of a search, for a range that may run over 2^64: the range has a solution iff one is found. */
  ghost predicate Complete(c: EpochContext, header: Hash256, boundary: Hash256, start: nat, iterations: nat) {
    Searched(c, header, boundary, start, iterations).Found?
    <==> exists k :: 0 <= k < iterations && Solves(c, header, boundary, Nth(start, k))
  }

  /** A search keeps that promise for every boundary exactly when its range does not run over 2^64; past that
      point the end of the range lies below its start and the search looks at no nonce at all. */
  lemma CompleteUnlessWrapped(c: EpochContext, header: Hash256, start: nat, iterations: nat)
    requires start < TWO_64 && iterations < TWO_64
    ensures (forall boundary: Hash256 :: Complete(c, header, boundary, start, iterations))
       <==> start + iterations < TWO_64
  {
    if start + iterations < TWO_64 {
      forall boundary: Hash256
        ensures Complete(c, header, boundary, start, iterations)
      {
        CompleteInRange(c, header, boundary, start, iterations);
      }
    } else {
      var all: Hash256 := EthashResult(c, header, start).finalHash;
      WrappedMisses(c, header, all, start, iterations);
    }
  }

  lemma CompleteInRange(c: EpochContext, header: Hash256, boundary: Hash256, start: nat, iterations: nat)
    requires start + iterations < TWO_64
    ensures Complete(c, header, boundary, start, iterations)
  {
    hide Solves, EthashResult;
    var end := start + iterations;
    SearchFindsLeast(c, header, boundary, start, end);
    var r := FirstSolution(c, header, boundary, start, end);
    if r.Found? {
      assert Nth(start, r.nonce - start) == r.nonce;
    } else {
      forall k | 0 <= k < iterations
        ensures !Solves(c, header, boundary, Nth(start, k))
      {
        assert Nth(start, k) == start + k;
      }
    }
  }

  lemma WrappedMisses(c: EpochContext, header: Hash256, boundary: Hash256, start: nat, iterations: nat)
    requires start < TWO_64 && iterations < TWO_64 && start + iterations >= TWO_64
    requires Solves(c, header, boundary, start)
    ensures !Complete(c, header, boundary, start, iterations)
  {
    hide Solves, EthashResult;
    assert (start + iterations) % TWO_64 < start;
    assert Nth(start, 0) == start;
  }
}
