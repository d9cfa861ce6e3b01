/** Ethash as its specification writes it: lists of 32-bit numbers, one 512-bit dataset item at a time. */
module EthashSpec {
  import opened Bits
  import opened EthashWords
  import opened EthashDataset
  import opened Prelude
  import CommonData
  import Fips202

  // Numbers

  /** Exclusive or of numbers. */
  function XorNumbers(a: nat, b: nat): nat
    decreases a + b
  {
    if a == 0 && b == 0 then 0 else (if a % 2 != b % 2 then 1 else 0) + 2 * XorNumbers(a / 2, b / 2)
  }

  const FNV_PRIME: nat := 0x0100_0193

  function Fnv(a: nat, b: nat): nat {
    XorNumbers(a * FNV_PRIME % TWO_32, b)
  }

  function MapFnv(a: seq<nat>, b: seq<nat>): seq<nat>
    requires |a| == |b|
  {
    seq(|a|, i requires 0 <= i < |a| => Fnv(a[i], b[i]))
  }

  // Lists of words and memory

  function Words(bits: seq<bool>): (w: seq<nat>)
    requires |bits| % 32 == 0
    ensures |w| == |bits| / 32
  {
    if |bits| == 0 then [] else [Value(bits[..32])] + Words(bits[32..])
  }

  function Serialized(words: seq<nat>): (bits: seq<bool>)
    ensures |bits| == 32 * |words|
  {
    if words == [] then [] else Binary(words[0], 32) + Serialized(words[1..])
  }

  function List512(h: Hash512): (w: seq<nat>)
    ensures |w| == 16
  {
    Words(h)
  }

  function List1024(h: Hash1024): (w: seq<nat>)
    ensures |w| == 32
  {
    Words(h)
  }

  function Sha512(words: seq<nat>): (w: seq<nat>)
    ensures |w| == 16
  {
    List512(Keccak512(Serialized(words)))
  }

  // The algorithms

  type Cache = c: seq<seq<nat>> | 0 < |c| && forall i :: 0 <= i < |c| ==> |c[i]| == 16
    witness [[0, 0, 0, 0, 0, 0, 0, 0, 0, 0, 0, 0, 0, 0, 0, 0]]

  /** calc_dataset_item, after some of its parents. */
  function Parents(cache: Cache, i: nat, rounds: nat): (mix: seq<nat>)
    ensures |mix| == 16
  {
    var n := |cache|;
    if rounds == 0 then
      var mix := cache[i % n];
      Sha512(mix[0 := XorNumbers(mix[0], i)])
    else
      var j := rounds - 1;
      var mix := Parents(cache, i, j);
      MapFnv(mix, cache[Fnv(XorNumbers(i, j), mix[j % 16]) % n])
  }

  function DatasetItem(cache: Cache, i: nat): (item: seq<nat>)
    ensures |item| == 16
  {
    Sha512(Parents(cache, i, 256))
  }

  /** The loop of hashimoto over a dataset of `size` items of 512 bits. */
  function Mixing(cache: Cache, size: nat, s: seq<nat>, accesses: nat): (mix: seq<nat>)
    requires |s| == 16 && size >= 2
    ensures |mix| == 32
  {
    if accesses == 0 then s + s
    else
      var i := accesses - 1;
      var mix := Mixing(cache, size, s, i);
      var p := Fnv(XorNumbers(i, s[0]), mix[i % 32]) % (size / 2) * 2;
      MapFnv(mix, DatasetItem(cache, p) + DatasetItem(cache, p + 1))
  }

  function Compressed(mix: seq<nat>): (cmix: seq<nat>)
    requires |mix| == 32
    ensures |cmix| == 8
  {
    seq(8, k requires 0 <= k < 8 => Fnv(Fnv(Fnv(mix[4 * k], mix[4 * k + 1]), mix[4 * k + 2]), mix[4 * k + 3]))
  }

  // Bits and numbers

  lemma {:induction false} ValueBinary(n: nat, k: nat)
    ensures Value(Binary(n, k)) == n % CommonData.Power(2, k)
    decreases k
  {
    if k == 0 {
    } else {
      ValueBinary(n / 2, k - 1);
      assert Binary(n, k)[1..] == Binary(n / 2, k - 1);
      HalfRemainder(n, CommonData.Power(2, k - 1));
    }
  }

  lemma HalfRemainder(n: nat, p: nat)
    requires p > 0
    ensures n % 2 + 2 * (n / 2 % p) == n % (2 * p)
  {
    var h, b := n / 2, n % 2;
    var q, r := h / p, h % p;
    Regroup(p, q, r, b);
    assert n == 2 * (p * q + r) + b;
    CommonData.Remainder(q, 2 * p, b + 2 * r);
  }

  lemma Regroup(p: nat, q: nat, r: nat, b: nat)
    ensures 2 * (p * q + r) + b == q * (2 * p) + (b + 2 * r)
  {
    CommonData.Reassociate(2, p, q);
    CommonData.Distribute(2, p * q, r);
  }

  lemma {:induction false} ValueBound(b: seq<bool>)
    ensures Value(b) < CommonData.Power(2, |b|)
    decreases |b|
  {
    if b == [] {
    } else {
      ValueBound(b[1..]);
    }
  }

  lemma {:induction false} BinaryValue(b: seq<bool>)
    ensures Binary(Value(b), |b|) == b
    decreases |b|
  {
    if b == [] {
    } else {
      BinaryValue(b[1..]);
      assert b == [b[0]] + b[1..];
    }
  }

  lemma {:induction false} ValueXor(u: seq<bool>, v: seq<bool>)
    requires |u| == |v|
    ensures Value(Fips202.XorBits(u, v)) == XorNumbers(Value(u), Value(v))
    decreases |u|
  {
    if u == [] {
    } else {
      ValueXor(u[1..], v[1..]);
      assert Fips202.XorBits(u, v)[1..] == Fips202.XorBits(u[1..], v[1..]);
      assert Value(u) / 2 == Value(u[1..]) && Value(v) / 2 == Value(v[1..]);
    }
  }

  lemma {:induction false} ZeroValue(b: seq<bool>)
    ensures Value(b) == 0 <==> forall k :: 0 <= k < |b| ==> !b[k]
    decreases |b|
  {
    if b == [] {
    } else {
      ZeroValue(b[1..]);
      assert forall k :: 0 <= k < |b| ==> b[k] == if k == 0 then b[0] else b[1..][k - 1];
    }
  }

  /** A slot counts as empty exactly when its first 64-bit word is zero. */
  lemma UnsetIs(item: Hash1024)
    ensures Unset(item) <==> Value(item[..64]) == 0
  {
    ZeroValue(item[..64]);
  }

  lemma ThirtyTwo()
    ensures CommonData.Power(2, 32) == TWO_32
  {
    assert CommonData.Power(2, 8) == 256;
    CommonData.PowerAdd(2, 8, 8);
    CommonData.PowerAdd(2, 16, 16);
  }

  /** A number of 32 bits as a word, and back. */
  lemma Word(n: nat)
    ensures Value(Binary(n, 32)) == n % TWO_32
  {
    hide CommonData.Power, Binary, Value;
    ValueBinary(n, 32);
    ThirtyTwo();
  }

  /** FNV-1 multiplies by the prime, then adds its second argument bit by bit. */
  lemma FnvIs(u: U32, v: U32)
    ensures Value(Fnv1(u, v)) == Fnv(Value(u), Value(v))
  {
    hide Binary, Value, XorNumbers;
    ValueXor(Binary(Value(u) * FNV_PRIME, 32), v);
    Word(Value(u) * FNV_PRIME);
  }

  // Memory and lists

  lemma {:induction false} WordAt(bits: seq<bool>, i: nat)
    requires |bits| % 32 == 0 && 32 * i + 32 <= |bits|
    ensures Words(bits)[i] == Value(Word32(bits, i))
    decreases i
  {
    hide Value;
    if i == 0 {
    } else {
      WordAt(bits[32..], i - 1);
      assert Word32(bits[32..], i - 1) == Word32(bits, i);
    }
  }

  lemma {:induction false} SerializedWords(bits: seq<bool>)
    requires |bits| % 32 == 0
    ensures Serialized(Words(bits)) == bits
    decreases |bits|
  {
    hide Value, Binary;
    if |bits| == 0 {
    } else {
      BinaryValue(bits[..32]);
      SerializedWords(bits[32..]);
      assert bits == bits[..32] + bits[32..];
      assert Words(bits)[1..] == Words(bits[32..]);
    }
  }

  lemma {:induction false} WordsAppend(a: seq<bool>, b: seq<bool>)
    requires |a| % 32 == 0 && |b| % 32 == 0
    ensures (|a| + |b|) % 32 == 0 && Words(a + b) == Words(a) + Words(b)
    decreases |a|
  {
    hide Value;
    if |a| == 0 {
      assert a + b == b;
    } else {
      WordsAppend(a[32..], b);
      assert (a + b)[..32] == a[..32] && (a + b)[32..] == a[32..] + b;
    }
  }

  lemma {:induction false} WordsFnv(u: seq<bool>, v: seq<bool>)
    requires |u| == |v| && |u| % 32 == 0
    ensures Words(FnvWords(u, v)) == MapFnv(Words(u), Words(v))
    decreases |u|
  {
    hide Value, Fnv1, Fnv;
    if |u| == 0 {
    } else {
      var r := FnvWords(u, v);
      FnvIs(u[..32], v[..32]);
      WordsFnv(u[32..], v[32..]);
      assert r[..32] == Fnv1(u[..32], v[..32]) && r[32..] == FnvWords(u[32..], v[32..]);
    }
  }

  lemma WordsSet(h: seq<bool>, w: U32)
    requires |h| % 32 == 0 && |h| >= 32
    ensures Words(SetWord32(h, 0, w)) == Words(h)[0 := Value(w)]
  {
    hide Value;
    var r := SetWord32(h, 0, w);
    assert r[..32] == w && r[32..] == h[32..];
  }

  /** The hash of memory is the hash of the list it holds. */
  lemma ShaIs(h: seq<bool>)
    requires |h| % 32 == 0
    ensures List512(Keccak512(h)) == Sha512(Words(h))
  {
    hide Words, Serialized, Keccak512;
    SerializedWords(h);
  }

  // The model computes the specification

  function CacheOf(c: EpochContext): Cache {
    seq(|c.lightCache|, i requires 0 <= i < |c.lightCache| => List512(c.lightCache[i]))
  }

  lemma {:induction false} ItemMixIs(c: EpochContext, index: nat, rounds: nat)
    requires index < TWO_32 && rounds <= 256
    ensures List512(ItemMix(c, index, rounds)) == Parents(CacheOf(c), index, rounds)
    decreases rounds
  {
    hide Words, Keccak512, Binary, Value, Fnv1, FnvWords, Sha512, SetWord32, Word32, XorNumbers, Xor32, Fnv;
    if rounds == 0 {
      StartIs(c, index);
    } else {
      ItemMixIs(c, index, rounds - 1);
      UpdateIs(c, index, ItemMix(c, index, rounds - 1), rounds - 1);
    }
  }

  lemma StartIs(c: EpochContext, index: nat)
    requires index < TWO_32
    ensures List512(ItemStart(c, index)) == Parents(CacheOf(c), index, 0)
  {
    hide Words, Keccak512, Binary, Value, Sha512, SetWord32, Word32, XorNumbers;
    var mix := c.lightCache[index % |c.lightCache|];
    var w := Xor32(Word32(mix, 0), Binary(index, 32));
    WordAt(mix, 0);
    ValueXor(Word32(mix, 0), Binary(index, 32));
    Word(index);
    WordsSet(mix, w);
    ShaIs(SetWord32(mix, 0, w));
  }

  lemma ParentIs(index: nat, mix: Hash512, round: nat)
    requires index < TWO_32 && round < 256
    ensures Value(Fnv1(Xor32(Binary(index, 32), Binary(round, 32)), Word32(mix, round % 16)))
         == Fnv(XorNumbers(index, round), List512(mix)[round % 16])
  {
    hide Words, Binary, Value, Fnv1, Word32, XorNumbers, Fnv;
    Word(index);
    Word(round);
    ValueXor(Binary(index, 32), Binary(round, 32));
    WordAt(mix, round % 16);
    FnvIs(Xor32(Binary(index, 32), Binary(round, 32)), Word32(mix, round % 16));
  }

  lemma UpdateIs(c: EpochContext, index: nat, mix: Hash512, round: nat)
    requires index < TWO_32 && round < 256
    ensures var words := List512(mix);
            List512(ItemUpdate(c, Binary(index, 32), mix, round))
              == MapFnv(words, CacheOf(c)[Fnv(XorNumbers(index, round), words[round % 16]) % |c.lightCache|])
  {
    hide Words, Binary, Value, Fnv1, FnvWords, Word32, Xor32, XorNumbers, Fnv, MapFnv;
    var t := Fnv1(Xor32(Binary(index, 32), Binary(round, 32)), Word32(mix, round % 16));
    ParentIs(index, mix, round);
    WordsFnv(mix, c.lightCache[Value(t) % |c.lightCache|]);
  }

  /** A dataset item of the model is the specification's. */
  lemma ItemIs(c: EpochContext, index: nat)
    requires index < TWO_32
    ensures List512(Item512(c, index)) == DatasetItem(CacheOf(c), index)
  {
    hide Words, Keccak512, ItemMix, Parents, Sha512, CacheOf;
    ItemMixIs(c, index, ITEM_PARENTS);
    ShaIs(ItemMix(c, index, ITEM_PARENTS));
  }

  lemma {:induction false} MixingIs(c: EpochContext, seed: Hash512, n: nat)
    requires n <= 64
    ensures List1024(KernelMix(c, seed, n)) == Mixing(CacheOf(c), 2 * c.fullNumItems, List512(seed), n)
    decreases n
  {
    hide Words, Keccak512, KernelNext, XorNumbers, Fnv, MapFnv, CacheOf, DatasetItem;
    if n == 0 {
      var s: seq<bool> := seed;
      WordsAppend(s, s);
    } else {
      MixingIs(c, seed, n - 1);
      KernelNextIs(c, seed, KernelMix(c, seed, n - 1), n - 1);
    }
  }

  lemma AccessIs(c: EpochContext, seed: Hash512, mix: Hash1024, i: nat)
    requires i < 64
    ensures Access(c, seed, mix, i) == Fnv(XorNumbers(i, List512(seed)[0]), List1024(mix)[i % 32]) % c.fullNumItems
  {
    hide Words, Binary, Value, Fnv1, Word32, XorNumbers, Fnv;
    var j, s := Binary(i, 32), Word32(seed, 0);
    Word(i);
    ValueXor(j, s);
    WordAt(seed, 0);
    WordAt(mix, i % 32);
    FnvIs(Xor32(j, s), Word32(mix, i % 32));
  }

  lemma Item1024Is(c: EpochContext, p: nat)
    requires 2 * p + 1 < TWO_32
    ensures List1024(Item1024(c, p)) == DatasetItem(CacheOf(c), 2 * p) + DatasetItem(CacheOf(c), 2 * p + 1)
  {
    hide Words, Item512, DatasetItem, CacheOf;
    var a: seq<bool> := Item512(c, 2 * p);
    var b: seq<bool> := Item512(c, 2 * p + 1);
    WordsAppend(a, b);
    ItemIs(c, 2 * p);
    ItemIs(c, 2 * p + 1);
  }

  lemma KernelNextIs(c: EpochContext, seed: Hash512, mix: Hash1024, i: nat)
    requires i < 64
    ensures var s, m := List512(seed), List1024(mix);
            var p := Fnv(XorNumbers(i, s[0]), m[i % 32]) % c.fullNumItems * 2;
            List1024(KernelNext(c, seed, mix, i))
              == MapFnv(m, DatasetItem(CacheOf(c), p) + DatasetItem(CacheOf(c), p + 1))
  {
    hide Words, FnvWords, XorNumbers, Fnv, MapFnv, Access, Item1024, CacheOf, DatasetItem;
    var p := Access(c, seed, mix, i);
    AccessIs(c, seed, mix, i);
    Item1024Is(c, p);
    WordsFnv(mix, Item1024(c, p));
  }

  lemma FoldIs(mix: Hash1024, k: nat)
    requires k < 8
    ensures Value(Fold(mix, k)) == Compressed(List1024(mix))[k]
  {
    hide Words, Value, Fnv1, Word32, Fnv;
    var a, b, d, e := Word32(mix, 4 * k), Word32(mix, 4 * k + 1), Word32(mix, 4 * k + 2), Word32(mix, 4 * k + 3);
    WordAt(mix, 4 * k);
    WordAt(mix, 4 * k + 1);
    WordAt(mix, 4 * k + 2);
    WordAt(mix, 4 * k + 3);
    FnvIs(a, b);
    FnvIs(Fnv1(a, b), d);
    FnvIs(Fnv1(Fnv1(a, b), d), e);
  }

  lemma {:induction false} SerializedAppend(a: seq<nat>, b: seq<nat>)
    ensures Serialized(a + b) == Serialized(a) + Serialized(b)
    decreases |a|
  {
    hide Binary;
    if a == [] {
      assert a + b == b;
    } else {
      assert (a + b)[1..] == a[1..] + b;
      SerializedAppend(a[1..], b);
    }
  }

  lemma SerializedOne(w: U32)
    ensures Serialized([Value(w)]) == w
  {
    hide Binary, Value;
    BinaryValue(w);
    assert [Value(w)][1..] == [];
  }

  lemma {:induction false} FoldedIs(mix: Hash1024, k: nat)
    requires k <= 8
    ensures Folded(mix, k) == Serialized(Compressed(List1024(mix))[..k])
  {
    hide Value, Fold, List1024, Compressed, Serialized;
    var cmix := Compressed(List1024(mix));
    if k == 0 {
      assert cmix[..0] == [];
      SerializedNothing();
    } else {
      FoldedIs(mix, k - 1);
      FoldIs(mix, k - 1);
      SerializedOne(Fold(mix, k - 1));
      SerializedAppend(cmix[..k - 1], [cmix[k - 1]]);
      assert cmix[..k] == cmix[..k - 1] + [cmix[k - 1]];
    }
  }

  lemma SerializedNothing()
    ensures Serialized([]) == []
  {
  }

  /** hashimoto: the mix digest and the result, as memory. */
  function Hashimoto(cache: Cache, size: nat, header: Hash256, nonce: nat): (seq<bool>, seq<bool>)
    requires size >= 2
  {
    var h: seq<bool> := header;
    var s := List512(Keccak512(h + Binary(nonce, 64)));
    var cmix := Compressed(Mixing(cache, size, s, 64));
    (Serialized(cmix), Keccak256(Serialized(s + cmix)))
  }

  /** The Ethash of the model, whose dataset has items of 1024 bits, is the specification's hashimoto over items of 512
      bits. */
  lemma HashIs(c: EpochContext, header: Hash256, nonce: nat)
    ensures var r := EthashResult(c, header, nonce);
            Hashimoto(CacheOf(c), 2 * c.fullNumItems, header, nonce) == (r.mixHash, r.finalHash)
  {
    hide Words, Serialized, Keccak512, Keccak256, Binary, KernelMix, Folded, CacheOf, Mixing, Compressed;
    var h: seq<bool> := header;
    var seed := Keccak512(h + Binary(nonce, 64));
    var mix := KernelMix(c, seed, DATASET_ACCESSES);
    MixingIs(c, seed, 64);
    FoldedIs(mix, 8);
    var digest: seq<bool> := Folded(mix, 8);
    var cmix := Compressed(List1024(mix));
    assert cmix[..8] == cmix;
    var s: seq<bool> := seed;
    SerializedWords(s);
    SerializedAppend(List512(seed), cmix);
    assert seed == HashSeed(header, nonce) && digest == MixHash(c, seed);
    assert Keccak256(s + digest) == HashFinal(seed, digest);
  }
}
