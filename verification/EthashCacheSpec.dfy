/** The light cache as the Ethash specification writes it, on lists of 32-bit numbers, one list update after another. */
module EthashCacheSpec {
  import opened EthashWords
  import opened EthashSpec
  import Epochs = EthashEpochs
  import Fips202

  function MapXor(a: seq<nat>, b: seq<nat>): seq<nat>
    requires |a| == |b|
  {
    seq(|a|, i requires 0 <= i < |a| => XorNumbers(a[i], b[i]))
  }

  /** The hash of the seed, hashed again and again. */
  function Chain(seed: seq<nat>, n: nat): (o: seq<seq<nat>>)
    ensures |o| == n && forall i :: 0 <= i < n ==> |o[i]| == 16
  {
    if n == 0 then [] else
      var o := Chain(seed, n - 1);
      o + [Sha512(if n == 1 then seed else o[n - 2])]
  }

  /** One pass of memory-hard hashing, from item i on. */
  function Pass(o: Cache, i: nat): (r: Cache)
    requires i <= |o|
    ensures |r| == |o|
    decreases |o| - i
  {
    var n := |o|;
    if i == n then o
    else Pass(o[i := Sha512(MapXor(o[(i + n - 1) % n], o[o[i][0] % n]))], i + 1)
  }

  function MakeCache(seed: seq<nat>, n: nat): Cache
    requires n > 0
  {
    Pass(Pass(Pass(Chain(seed, n), 0), 0), 0)
  }

  function Lists(cache: seq<Hash512>): (o: seq<seq<nat>>)
    ensures |o| == |cache| && forall i :: 0 <= i < |o| ==> |o[i]| == 16
  {
    seq(|cache|, i requires 0 <= i < |cache| => List512(cache[i]))
  }

  lemma {:induction false} XorCommutes(a: nat, b: nat)
    ensures XorNumbers(a, b) == XorNumbers(b, a)
    decreases a + b
  {
    if a == 0 && b == 0 {
    } else {
      XorCommutes(a / 2, b / 2);
    }
  }

  lemma XorHashIs(x: Hash512, y: Hash512)
    ensures List512(Epochs.XorHash(x, y)) == MapXor(List512(y), List512(x))
  {
    hide Words, Value, XorNumbers;
    var z := Epochs.XorHash(x, y);
    forall i | 0 <= i < 16
      ensures List512(z)[i] == MapXor(List512(y), List512(x))[i]
    {
      WordAt(x, i);
      WordAt(y, i);
      WordAt(z, i);
      assert Word32(z, i) == Fips202.XorBits(Word32(x, i), Word32(y, i));
      ValueXor(Word32(x, i), Word32(y, i));
      XorCommutes(Value(Word32(x, i)), Value(Word32(y, i)));
    }
  }

  /** One step in place is one list update. */
  lemma StepIs(old': seq<Hash512>, c: seq<Hash512>, i: nat)
    requires |old'| == |c| && i < |c| && forall j :: i <= j < |c| ==> c[j] == old'[j]
    ensures var o, n := Lists(c), |c|;
            List512(Epochs.MixedItem(old', c, i)) == Sha512(MapXor(o[(i + n - 1) % n], o[o[i][0] % n]))
  {
    hide Words, Value, Keccak512, Sha512, MapXor, Epochs.MixedItem, Epochs.XorHash, Word32;
    var n := |c|;
    var v, w := Value(Word32(c[i], 0)) % n, (n + (i - 1)) % n;
    Epochs.StepIsMixedItem(old', c, i);
    WordAt(c[i], 0);
    XorHashIs(c[v], c[w]);
    ShaIs(Epochs.XorHash(c[v], c[w]));
  }

  lemma PassStep(o: Cache, i: nat)
    requires i < |o|
    ensures var n := |o|; Pass(o, i) == Pass(o[i := Sha512(MapXor(o[(i + n - 1) % n], o[o[i][0] % n]))], i + 1)
  {
    hide Sha512, MapXor;
  }

  lemma PassEnd(o: Cache)
    ensures Pass(o, |o|) == o
  {
  }

  lemma {:induction false} PassFrom(old': seq<Hash512>, new': seq<Hash512>, i: nat)
    requires |old'| == |new'| > 0 && i <= |new'| && Epochs.Mixed(old', new', |new'|)
    ensures Pass(Lists(new'[..i] + old'[i..]), i) == Lists(new')
    decreases |new'| - i
  {
    hide Words, Pass, Sha512, MapXor, Epochs.MixedItem, List512;
    var n := |new'|;
    var c := new'[..i] + old'[i..];
    if i == n {
      assert c == new';
      PassEnd(Lists(c));
    } else {
      PassStep(Lists(c), i);
      StepIs(old', c, i);
      Epochs.MixedItemStable(old', c, new', i);
      assert new'[i] == Epochs.MixedItem(old', new', i);
      assert new'[..i + 1] + old'[i + 1..] == c[i := new'[i]];
      assert Lists(c[i := new'[i]]) == Lists(c)[i := List512(new'[i])];
      PassFrom(old', new', i + 1);
    }
  }

  lemma {:induction false} ChainIs(seed: Hash256, n: nat, i: nat)
    requires i < n
    ensures List512(Epochs.Seeded(seed, i)) == Chain(Words(seed), n)[i]
    decreases n
  {
    hide Words, Keccak512, Sha512;
    if i < n - 1 {
      ChainIs(seed, n - 1, i);
    } else if i == 0 {
      ShaIs(seed);
    } else {
      ChainIs(seed, n - 1, i - 1);
      ShaIs(Epochs.Seeded(seed, i - 1));
    }
  }

  /** What the construction in place leaves, given by its states between the passes, is the specification's cache. */
  lemma CacheIs(rounds: seq<seq<Hash512>>, seed: Hash256, n: nat)
    requires n > 0 && |rounds| == 4 && forall q :: 0 <= q < 4 ==> |rounds[q]| == n
    requires forall i :: 0 <= i < n ==> rounds[0][i] == Epochs.Seeded(seed, i)
    requires forall q :: 0 <= q < 3 ==> Epochs.Mixed(rounds[q], rounds[q + 1], n)
    ensures Lists(rounds[3]) == MakeCache(Words(seed), n)
  {
    hide Words, Pass, Chain, Epochs.Mixed, Epochs.Seeded, List512;
    forall i | 0 <= i < n
      ensures Lists(rounds[0])[i] == Chain(Words(seed), n)[i]
    {
      ChainIs(seed, n, i);
    }
    assert Lists(rounds[0]) == Chain(Words(seed), n);
    OnePass(rounds[0], rounds[1]);
    OnePass(rounds[1], rounds[2]);
    OnePass(rounds[2], rounds[3]);
  }

  lemma OnePass(old': seq<Hash512>, new': seq<Hash512>)
    requires |old'| == |new'| > 0 && Epochs.Mixed(old', new', |new'|)
    ensures Pass(Lists(old'), 0) == Lists(new')
  {
    hide Pass, Lists, Epochs.Mixed;
    PassFrom(old', new', 0);
    assert new'[..0] + old'[0..] == old';
  }
}
