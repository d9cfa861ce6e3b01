/** The light cache, dataset items, hash kernel and the lazily filled dataset of ethash.cpp. */
module EthashDataset {
  import opened Bits
  import opened EthashWords

  /** The part of an epoch context that hashing reads. */
  datatype Context = Context(lightCache: seq<Hash512>, fullNumItems: nat)

  type EpochContext = c: Context | 0 < |c.lightCache| && 0 < c.fullNumItems <= 0x7fff_ffff
    witness Context([seq(512, _ => false)], 1)

  const ITEM_PARENTS: nat := 256
  const DATASET_ACCESSES: nat := 64

  // Dataset items

  function ItemStart(c: EpochContext, index: nat): Hash512 {
    var mix := c.lightCache[index % |c.lightCache|];
    Keccak512(SetWord32(mix, 0, Xor32(Word32(mix, 0), Binary(index, 32))))
  }

  function ItemUpdate(c: EpochContext, seed: U32, mix: Hash512, round: nat): Hash512 {
    var t := Fnv1(Xor32(seed, Binary(round, 32)), Word32(mix, round % 16));
    FnvWords(mix, c.lightCache[Value(t) % |c.lightCache|])
  }

  /** The mix of item `index` after `rounds` parents. */
  function ItemMix(c: EpochContext, index: nat, rounds: nat): Hash512 {
    if rounds == 0 then ItemStart(c, index)
    else ItemUpdate(c, Binary(index, 32), ItemMix(c, index, rounds - 1), rounds - 1)
  }

  function Item512(c: EpochContext, index: nat): Hash512 {
    Keccak512(ItemMix(c, index, ITEM_PARENTS))
  }

  function Item1024(c: EpochContext, index: nat): Hash1024 {
    Item512(c, 2 * index) + Item512(c, 2 * index + 1)
  }

  /** item_state */
  class ItemState {
    const context: EpochContext
    const seed: U32
    ghost const index: nat
    var mix: Hash512

    constructor (c: EpochContext, index: nat)
      ensures this.context == c && this.index == index && seed == Binary(index, 32) && mix == ItemMix(c, index, 0)
    {
      this.context := c;
      this.index := index;
      this.seed := Binary(index, 32);
      var m := c.lightCache[index % |c.lightCache|];
      m := SetWord32(m, 0, Xor32(Word32(m, 0), Binary(index, 32)));
      mix := Keccak512(m);
    }

    method Update(round: nat)
      requires seed == Binary(index, 32) && mix == ItemMix(context, index, round)
      modifies this
      ensures mix == ItemMix(context, index, round + 1)
    {
      hide Xor32, Fnv1, FnvWords;
      var t := Fnv1(Xor32(seed, Binary(round, 32)), Word32(mix, round % 16));
      var parentIndex := Value(t) % |context.lightCache|;
      mix := FnvUnions(mix, context.lightCache[parentIndex]);
    }

    method Final() returns (h: Hash512)
      ensures h == Keccak512(mix)
    {
      h := Keccak512(mix);
    }
  }

  method CalculateItem512(c: EpochContext, index: nat) returns (h: Hash512)
    ensures h == Item512(c, index)
  {
    hide Keccak512, ItemMix, Binary;
    var item0 := new ItemState(c, index);
    for j := 0 to ITEM_PARENTS
      invariant item0.mix == ItemMix(c, index, j)
    {
      item0.Update(j);
    }
    h := item0.Final();
  }

  /** Two items computed in one interleaved loop. */
  method CalculateItem1024(c: EpochContext, index: nat) returns (h: Hash1024)
    ensures h == Item1024(c, index)
  {
    hide Keccak512, ItemMix, Binary;
    var item0 := new ItemState(c, 2 * index);
    var item1 := new ItemState(c, 2 * index + 1);
    for j := 0 to ITEM_PARENTS
      invariant item0.mix == ItemMix(c, 2 * index, j) && item1.mix == ItemMix(c, 2 * index + 1, j)
    {
      item0.Update(j);
      item1.Update(j);
    }
    var h0: seq<bool> := item0.Final();
    var h1: seq<bool> := item1.Final();
    h := h0 + h1;
  }

  // The hash kernel

  function HashSeed(header: Hash256, nonce: nat): Hash512 {
    var h: seq<bool> := header;
    Keccak512(h + Binary(nonce, 64))
  }

  function HashFinal(seed: Hash512, mixHash: Hash256): Hash256 {
    var s: seq<bool> := seed;
    Keccak256(s + mixHash)
  }

  /** The dataset index of access `i`. */
  function Access(c: EpochContext, seed: Hash512, mix: Hash1024, i: nat): (p: nat)
    ensures p < c.fullNumItems
  {
    Value(Fnv1(Xor32(Binary(i, 32), Word32(seed, 0)), Word32(mix, i % 32))) % c.fullNumItems
  }

  function KernelNext(c: EpochContext, seed: Hash512, mix: Hash1024, i: nat): Hash1024 {
    FnvWords(mix, Item1024(c, Access(c, seed, mix, i)))
  }

  /** The mix after `n` dataset accesses. */
  function KernelMix(c: EpochContext, seed: Hash512, n: nat): Hash1024 {
    if n == 0 then (var s: seq<bool> := seed; s + s) else KernelNext(c, seed, KernelMix(c, seed, n - 1), n - 1)
  }

  /** Four words of the mix folded into one word of the mix hash. */
  function Fold(mix: Hash1024, k: nat): U32
    requires k < 8
  {
    Fnv1(Fnv1(Fnv1(Word32(mix, 4 * k), Word32(mix, 4 * k + 1)), Word32(mix, 4 * k + 2)), Word32(mix, 4 * k + 3))
  }

  function Folded(mix: Hash1024, k: nat): (r: seq<bool>)
    requires k <= 8
    ensures |r| == 32 * k
  {
    if k == 0 then [] else Folded(mix, k - 1) + Fold(mix, k - 1)
  }

  function MixHash(c: EpochContext, seed: Hash512): Hash256 {
    Folded(KernelMix(c, seed, DATASET_ACCESSES), 8)
  }

  datatype Result = Result(finalHash: Hash256, mixHash: Hash256)

  /** The Ethash of a header and a nonce, from the light cache alone. */
  function EthashResult(c: EpochContext, header: Hash256, nonce: nat): Result {
    var seed := HashSeed(header, nonce);
    Result(HashFinal(seed, MixHash(c, seed)), MixHash(c, seed))
  }

  /** word64s[0] == 0 */
  predicate Unset(item: Hash1024) {
    forall k :: 0 <= k < 64 ==> !item[k]
  }

  /** epoch_context_full: items of the dataset are generated when first hit. */
  class FullContext {
    const context: EpochContext
    const fullDataset: array<Hash1024>

    ghost predicate Valid()
      reads fullDataset
    {
      && fullDataset.Length == context.fullNumItems
      && forall i :: 0 <= i < fullDataset.Length ==>
           Unset(fullDataset[i]) || fullDataset[i] == Item1024(context, i)
    }

    constructor (c: EpochContext)
      ensures context == c && Valid() && fresh(fullDataset)
    {
      hide Item1024;
      context := c;
      fullDataset := new Hash1024[c.fullNumItems](_ => seq(1024, _ => false));
    }

    method LazyLookup(index: nat) returns (item: Hash1024)
      requires Valid() && index < fullDataset.Length
      modifies fullDataset
      ensures Valid() && item == Item1024(context, index)
    {
      hide Item1024;
      if Unset(fullDataset[index]) {
        var h := CalculateItem1024(context, index);
        fullDataset[index] := h;
      }
      item := fullDataset[index];
    }
  }

  /** The function pointer handed to the kernel. */
  datatype Lookup = Direct | Lazy(full: FullContext)

  method HashKernel(c: EpochContext, seed: Hash512, lookup: Lookup) returns (mixHash: Hash256)
    requires lookup.Lazy? ==> lookup.full.Valid() && lookup.full.context == c
    modifies if lookup.Lazy? then {lookup.full.fullDataset} else {}
    ensures lookup.Lazy? ==> lookup.full.Valid()
    ensures mixHash == MixHash(c, seed)
  {
    hide Item1024, Fnv1, FnvWords, Xor32, KernelMix, Fold, Binary;
    var s: seq<bool> := seed;
    var mix: Hash1024 := s + s;
    KernelStart(c, seed);
    for i := 0 to DATASET_ACCESSES
      invariant lookup.Lazy? ==> lookup.full.Valid()
      invariant mix == KernelMix(c, seed, i)
    {
      var p := Value(Fnv1(Xor32(Binary(i, 32), Word32(seed, 0)), Word32(mix, i % 32))) % c.fullNumItems;
      var newdata;
      match lookup {
        case Direct => newdata := CalculateItem1024(c, p);
        case Lazy(full) => newdata := full.LazyLookup(p);
      }
      mix := FnvUnions(mix, newdata);
      KernelStep(c, seed, i);
    }

    var r: seq<bool> := [];
    var i := 0;
    while i < 32
      modifies {}
      invariant 0 <= i <= 32 && i % 4 == 0 && r == Folded(mix, i / 4)
    {
      var h1 := Fnv1(Word32(mix, i), Word32(mix, i + 1));
      var h2 := Fnv1(h1, Word32(mix, i + 2));
      var h3 := Fnv1(h2, Word32(mix, i + 3));
      FoldAt(mix, i / 4);
      r := r + h3;
      i := i + 4;
    }
    mixHash := r;
  }

  lemma KernelStart(c: EpochContext, seed: Hash512)
    ensures var s: seq<bool> := seed; KernelMix(c, seed, 0) == s + s
  {
  }

  lemma KernelStep(c: EpochContext, seed: Hash512, i: nat)
    ensures KernelMix(c, seed, i + 1) == KernelNext(c, seed, KernelMix(c, seed, i), i)
  {
    hide KernelNext;
  }

  lemma FoldAt(mix: Hash1024, k: nat)
    requires k < 8
    ensures Folded(mix, k + 1) == Folded(mix, k)
            + Fnv1(Fnv1(Fnv1(Word32(mix, 4 * k), Word32(mix, 4 * k + 1)), Word32(mix, 4 * k + 2)), Word32(mix, 4 * k + 3))
  {
    hide Fnv1;
  }
}
