/** The streaming hash of keccak.c, and that it computes the sponge of FIPS 202. */
module KeccakSponge {
  import opened Bits
  import opened Fips202
  import opened KeccakPermutation

  /** A `uint8_t`, least significant bit first. */
  type Octet = s: seq<bool> | |s| == 8 witness seq(8, _ => false)

  const ZERO_OCTET: Octet := Zeros(8)

  /** The pad byte 0x01. */
  const ONE_OCTET: Octet := [true] + Zeros(7)

  /** 0x8000000000000000 */
  const TOP_BIT: Lane := Word(Zeros(63) + [true])

  /** The bit string of a byte string, section B.1 of FIPS 202. */
  function MessageBits(data: seq<Octet>): (s: seq<bool>)
    ensures |s| == 8 * |data|
  {
    seq(8 * |data|, k requires 0 <= k < 8 * |data| => data[k / 8][k % 8])
  }

  /** A little-endian load of eight bytes. */
  function LoadLe(data: seq<Octet>): Lane
    requires |data| == 8
  {
    Word(MessageBits(data))
  }

  // Absorbing lane by lane is absorbing bit by bit

  lemma FlattenBit(a: seq<Lane>, l: nat, z: nat)
    requires l < |a| && z < 64
    ensures Flatten(a)[64 * l + z] == a[l].bits[z]
  {
    assert (64 * l + z) / 64 == l && (64 * l + z) % 64 == z;
  }

  /** Lanes that differ from `a` by the bits of `m`, on the first |m| bits only. */
  predicate Absorbed(a: State, e: State, m: seq<bool>)
    requires |m| <= 1600
  {
    forall l, z :: 0 <= l < 25 && 0 <= z < 64 ==>
      e[l].bits[z] == (a[l].bits[z] != (64 * l + z < |m| && m[64 * l + z]))
  }

  lemma AbsorbedFlat(a: State, e: State, m: seq<bool>)
    requires |m| <= 1600 && Absorbed(a, e, m)
    ensures Flatten(e) == XorBits(Flatten(a), m + Zeros(1600 - |m|))
  {
    hide Flatten;
    var x := XorBits(Flatten(a), m + Zeros(1600 - |m|));
    forall k | 0 <= k < 1600
      ensures Flatten(e)[k] == x[k]
    {
      FlattenBit(e, k / 64, k % 64);
      FlattenBit(a, k / 64, k % 64);
    }
  }

  lemma {:induction false} UnflattenFlatten(a: State)
    ensures Unflatten(Flatten(a)) == a
  {
    forall l | 0 <= l < 25
      ensures Unflatten(Flatten(a))[l] == a[l]
    {
      forall z | 0 <= z < 64
        ensures Unflatten(Flatten(a))[l].bits[z] == a[l].bits[z]
      {
        FlattenBit(a, l, z);
      }
    }
  }

  /** The loop over the words of a full block. */
  method AbsorbBlock(state: array<Lane>, data: seq<Octet>, pos: nat, words: nat)
    requires state.Length == 25 && words <= 25 && pos + 8 * words <= |data|
    modifies state
    ensures Absorbed(old(state[..]), state[..], MessageBits(data[pos..pos + 8 * words]))
  {
    var i, p := 0, pos;
    while i < words
      invariant 0 <= i <= words && p == pos + 8 * i
      invariant forall l :: 0 <= l < 25 ==>
        state[l] == if l < i then Xor(old(state[l]), LoadLe(data[pos + 8 * l..pos + 8 * l + 8])) else old(state[l])
    {
      state[i] := Xor(state[i], LoadLe(data[p..p + 8]));
      p := p + 8;
      i := i + 1;
    }
    var block := data[pos..pos + 8 * words];
    forall l | 0 <= l < words
      ensures block[8 * l..8 * l + 8] == data[pos + 8 * l..pos + 8 * l + 8]
    {
      Slice(data, pos, 8 * words, 8 * l);
    }
    BlockBits(old(state[..]), state[..], block);
  }

  lemma Slice(data: seq<Octet>, pos: nat, n: nat, k: nat)
    requires pos + n <= |data| && k + 8 <= n
    ensures data[pos..pos + n][k..k + 8] == data[pos + k..pos + k + 8]
  {
    var a, b := data[pos..pos + n][k..k + 8], data[pos + k..pos + k + 8];
    assert |a| == |b| && forall i :: 0 <= i < 8 ==> a[i] == b[i];
  }

  lemma BlockBits(a: State, e: State, block: seq<Octet>)
    requires |block| % 8 == 0 && |block| <= 200
    requires forall l :: 0 <= l < 25 ==>
      e[l] == if 8 * l < |block| then Xor(a[l], LoadLe(block[8 * l..8 * l + 8])) else a[l]
    ensures Absorbed(a, e, MessageBits(block))
  {
  }

  /** The last block of the padded message: what is left of the message, then pad10*1 up to `words` lanes. */
  function TailBits(rest: seq<Octet>, words: nat): (s: seq<bool>)
    requires |rest| < 8 * words
    ensures |s| == 64 * words
  {
    MessageBits(rest) + [true] + Zeros(64 * words - 8 * |rest| - 2) + [true]
  }

  /** The memory of `last_word` once the leftover bytes and the pad byte are in it. */
  function LastWord(rest: seq<Octet>): (w: seq<Octet>)
    requires |rest| < 8
    ensures |w| == 8
  {
    rest + [ONE_OCTET] + seq(7 - |rest|, _ => ZERO_OCTET)
  }

  /** The loops over leftover words and bytes, and the padding written in place. */
  method AbsorbTail(state: array<Lane>, rest: seq<Octet>, words: nat)
    requires state.Length == 25 && words <= 25 && |rest| < 8 * words
    modifies state
    ensures Absorbed(old(state[..]), state[..], TailBits(rest, words))
  {
    hide Xor, LoadLe, TailBits, Absorbed, Zeros;
    var lastWord := new Octet[8](_ => ZERO_OCTET);
    var k, p, size := 0, 0, |rest|;
    while size >= 8
      modifies state
      invariant 0 <= k && 0 <= size && p == 8 * k && p + size == |rest|
      invariant forall l :: 0 <= l < 25 ==>
        state[l] == if l < k then Xor(old(state[l]), LoadLe(rest[8 * l..8 * l + 8])) else old(state[l])
    {
      state[k] := Xor(state[k], LoadLe(rest[p..p + 8]));
      k := k + 1;
      p := p + 8;
      size := size - 8;
    }

    var b := 0;
    while size > 0
      modifies lastWord
      invariant 0 <= b && 0 <= size && p == 8 * k + b && p + size == |rest| && b + size < 8
      invariant forall j :: 0 <= j < 8 ==> lastWord[j] == if j < b then rest[8 * k + j] else ZERO_OCTET
    {
      lastWord[b] := rest[p];
      b := b + 1;
      p := p + 1;
      size := size - 1;
    }
    lastWord[b] := ONE_OCTET;
    assert k == |rest| / 8 && lastWord[..] == LastWord(rest[8 * k..]);
    ghost var a := old(state[..]);
    state[k] := Xor(state[k], LoadLe(lastWord[..]));
    assert forall l :: 0 <= l < 25 ==> state[l] == LeftoverLane(a, rest, l);
    state[words - 1] := Xor(state[words - 1], TOP_BIT);
    TailIs(a, state[..], rest, words);
  }

  /** Lane `l` after the leftover words and bytes and the pad byte. */
  function LeftoverLane(a: State, rest: seq<Octet>, l: nat): Lane
    requires l < 25
  {
    if l < |rest| / 8 then Xor(a[l], LoadLe(rest[8 * l..8 * l + 8]))
    else if l == |rest| / 8 then Xor(a[l], LoadLe(LastWord(rest[8 * l..])))
    else a[l]
  }

  function TailLane(a: State, rest: seq<Octet>, words: nat, l: nat): Lane
    requires l < 25
  {
    if l == words - 1 then Xor(LeftoverLane(a, rest, l), TOP_BIT) else LeftoverLane(a, rest, l)
  }

  lemma TailIs(a: State, e: State, rest: seq<Octet>, words: nat)
    requires words <= 25 && |rest| < 8 * words
    requires forall l :: 0 <= l < 25 ==> e[l] == TailLane(a, rest, words, l)
    ensures Absorbed(a, e, TailBits(rest, words))
  {
    forall l, z | 0 <= l < 25 && 0 <= z < 64
      ensures e[l].bits[z]
           == (a[l].bits[z] != (64 * l + z < 64 * words && TailBits(rest, words)[64 * l + z]))
    {
      TailBit(a, rest, words, l, z);
    }
  }

  lemma TailBit(a: State, rest: seq<Octet>, words: nat, l: nat, z: nat)
    requires words <= 25 && |rest| < 8 * words && l < 25 && z < 64
    ensures TailLane(a, rest, words, l).bits[z]
         == (a[l].bits[z] != (64 * l + z < 64 * words && TailBits(rest, words)[64 * l + z]))
  {
  }

  method Keccak(bits: nat, data: seq<Octet>) returns (out: seq<Lane>)
    requires bits == 256 || bits == 512
    ensures Flatten(out) == Fips202.Keccak(2 * bits, MessageBits(data), bits)
  {
    hide Padded, Flatten, Absorb, Squeeze, Zeros, Pad, MessageBits, Absorbed, TailBits, KeccakF, Fips202.Keccak;
    var wordSize := 8;
    var hashSize := bits / 8;
    var blockSize := (1600 - bits * 2) / 8;
    var state := new Lane[25](_ => ZERO);
    var pos, size := 0, |data|;
    assert Sizes(bits, blockSize);
    ghost var padded, r := Padded(data, bits), 8 * blockSize;
    ghost var goal := Absorb(Zeros(1600), padded, r);
    ZeroState(state[..]);
    assert padded[0..] == padded;

    while size >= blockSize
      invariant 0 <= size && pos + size == |data| && pos % blockSize == 0
      invariant Absorb(Flatten(state[..]), padded[8 * pos..], r) == goal
    {
      ghost var a := state[..];
      AbsorbBlock(state, data, pos, blockSize / wordSize);
      ghost var e := state[..];
      Permute(state);
      BlockStep(a, e, data, pos, bits, blockSize);
      pos := pos + blockSize;
      size := size - blockSize;
    }
    ghost var a := state[..];
    AbsorbTail(state, data[pos..], blockSize / wordSize);
    ghost var e := state[..];
    Permute(state);
    TailStep(a, e, data, pos, bits, blockSize);
    out := state[..hashSize / wordSize];
    SqueezeLanes(state[..], bits);
    HashIs(data, bits);
  }

  /** The message with pad10*1 for the rate that belongs to a digest of `bits` bits. */
  function Padded(data: seq<Octet>, bits: nat): (s: seq<bool>)
    requires 0 < bits < 800
    ensures |s| >= 8 * |data|
  {
    MessageBits(data) + Pad(1600 - 2 * bits, 8 * |data|)
  }

  /** The digest sizes keccak.c is called with, and their block sizes in bytes. */
  predicate Sizes(bits: nat, blockSize: nat) {
    (bits == 256 && blockSize == 136) || (bits == 512 && blockSize == 72)
  }

  /** One full block of the padded message goes through the sponge. */
  lemma BlockStep(a: State, e: State, data: seq<Octet>, pos: nat, bits: nat, size: nat)
    requires Sizes(bits, size) && pos + size <= |data|
    requires Absorbed(a, e, MessageBits(data[pos..pos + size]))
    ensures Absorb(Flatten(a), Padded(data, bits)[8 * pos..], 8 * size)
         == Absorb(Flatten(KeccakF(e)), Padded(data, bits)[8 * (pos + size)..], 8 * size)
  {
    hide Flatten, KeccakF, XorBits, Zeros, Pad, Absorbed;
    var padded, r := Padded(data, bits), 8 * size;
    var block := MessageBits(data[pos..pos + size]);
    AbsorbedFlat(a, e, block);
    UnflattenFlatten(e);
    assert padded[8 * pos..][..r] == block;
    assert padded[8 * pos..][r..] == padded[8 * (pos + size)..];
  }

  /** What is left is less than a block, and padding makes it the last one. */
  lemma TailStep(a: State, e: State, data: seq<Octet>, pos: nat, bits: nat, size: nat)
    requires Sizes(bits, size) && pos <= |data| < pos + size && pos % size == 0
    requires Absorbed(a, e, TailBits(data[pos..], size / 8))
    ensures Absorb(Flatten(a), Padded(data, bits)[8 * pos..], 8 * size) == Flatten(KeccakF(e))
  {
    hide Flatten, KeccakF, XorBits, Absorbed;
    var padded, r := Padded(data, bits), 8 * size;
    var tail := TailBits(data[pos..], size / 8);
    PadLength(|data|, pos, size);
    assert padded[8 * pos..] == tail;
    AbsorbedFlat(a, e, tail);
    UnflattenFlatten(e);
    assert tail[..r] == tail && tail[r..] == [];
  }

  lemma PadLength(n: nat, pos: nat, size: nat)
    requires size == 136 || size == 72
    requires pos <= n < pos + size && pos % size == 0
    ensures (-(8 * n) - 2) % (8 * size) == 8 * size - 8 * (n - pos) - 2
  {
    if size == 136 {
      PadLength136(n, pos / 136);
    } else {
      PadLength72(n, pos / 72);
    }
  }

  lemma PadLength136(n: nat, q: int)
    requires 136 * q <= n < 136 * q + 136
    ensures (-(8 * n) - 2) % 1088 == 1088 - 8 * (n - 136 * q) - 2
  {
    assert -(8 * n) - 2 == 1088 * (-q - 1) + (1088 - 8 * (n - 136 * q) - 2);
  }

  lemma PadLength72(n: nat, q: int)
    requires 72 * q <= n < 72 * q + 72
    ensures (-(8 * n) - 2) % 576 == 576 - 8 * (n - 72 * q) - 2
  {
    assert -(8 * n) - 2 == 576 * (-q - 1) + (576 - 8 * (n - 72 * q) - 2);
  }

  lemma HashIs(data: seq<Octet>, bits: nat)
    requires 0 < bits < 800
    ensures var r := 1600 - 2 * bits;
            Fips202.Keccak(2 * bits, MessageBits(data), bits) == Squeeze(Absorb(Zeros(1600), Padded(data, bits), r), bits, r)
  {
    hide Absorb, Squeeze, Zeros, Pad, MessageBits;
  }

  lemma SqueezeLanes(a: State, bits: nat)
    requires bits == 256 || bits == 512
    ensures Flatten(a[..bits / 64]) == Squeeze(Flatten(a), bits, 1600 - 2 * bits)
  {
  }

  lemma ZeroState(a: State)
    requires forall l :: 0 <= l < 25 ==> a[l] == ZERO
    ensures Flatten(a) == Zeros(1600)
  {
  }
}
