/** The hash unions of hash_types.h as memory: strings of bits, sliced into bytes and words. */
module EthashWords {
  import opened Bits
  import Fips202

  type Hash256 = s: seq<bool> | |s| == 256 witness seq(256, _ => false)
  type Hash512 = s: seq<bool> | |s| == 512 witness seq(512, _ => false)
  type Hash1024 = s: seq<bool> | |s| == 1024 witness seq(1024, _ => false)
  type U32 = s: seq<bool> | |s| == 32 witness seq(32, _ => false)

  function Keccak256(data: seq<bool>): (h: Hash256) {
    Fips202.Keccak(512, data, 256)
  }

  function Keccak512(data: seq<bool>): (h: Hash512) {
    Fips202.Keccak(1024, data, 512)
  }

  /** The value of an unsigned word. */
  function Value(b: seq<bool>): nat {
    if b == [] then 0 else (if b[0] then 1 else 0) + 2 * Value(b[1..])
  }

  /** word32s[i] */
  function Word32(h: seq<bool>, i: nat): U32
    requires 32 * i + 32 <= |h|
  {
    h[32 * i..32 * i + 32]
  }

  /** h with word32s[i] = w */
  function SetWord32(h: seq<bool>, i: nat, w: U32): (r: seq<bool>)
    requires 32 * i + 32 <= |h|
    ensures |r| == |h|
  {
    h[..32 * i] + w + h[32 * i + 32..]
  }

  function Xor32(u: U32, v: U32): U32 {
    Fips202.XorBits(u, v)
  }

  /** FNV-1 on 32-bit words, the product reduced modulo 2^32. */
  function Fnv1(u: U32, v: U32): U32 {
    Xor32(Binary(Value(u) * 0x0100_0193, 32), v)
  }

  /** FNV-1 word by word. */
  function FnvWords(u: seq<bool>, v: seq<bool>): (r: seq<bool>)
    requires |u| == |v| && |u| % 32 == 0
    ensures |r| == |u|
  {
    if |u| == 0 then [] else Fnv1(u[..32], v[..32]) + FnvWords(u[32..], v[32..])
  }

  lemma {:induction false} FnvWordsAppend(u: seq<bool>, v: seq<bool>, x: seq<bool>, y: seq<bool>)
    requires |u| == |v| && |u| % 32 == 0 && |x| == |y| && |x| % 32 == 0
    ensures FnvWords(u + x, v + y) == FnvWords(u, v) + FnvWords(x, y)
    decreases |u|
  {
    hide Fnv1;
    if |u| == 0 {
      assert u + x == x && v + y == y;
    } else {
      assert (u + x)[..32] == u[..32] && (v + y)[..32] == v[..32];
      assert (u + x)[32..] == u[32..] + x && (v + y)[32..] == v[32..] + y;
      FnvWordsAppend(u[32..], v[32..], x, y);
    }
  }

  /** The loop that combines two unions word by word. */
  method FnvUnions(u: seq<bool>, v: seq<bool>) returns (r: seq<bool>)
    requires |u| == |v| && |u| % 32 == 0
    ensures r == FnvWords(u, v)
  {
    hide Fnv1, FnvWords;
    r := u;
    var j := 0;
    assert FnvWords(u[..0], v[..0]) == [] by { NoWords(u[..0], v[..0]); }
    while j < |u| / 32
      invariant 0 <= j <= |u| / 32
      invariant r == FnvWords(u[..32 * j], v[..32 * j]) + u[32 * j..]
    {
      assert u[..32 * j + 32] == u[..32 * j] + Word32(u, j) && v[..32 * j + 32] == v[..32 * j] + Word32(v, j);
      FnvWordsAppend(u[..32 * j], v[..32 * j], Word32(u, j), Word32(v, j));
      OneWord(Word32(u, j), Word32(v, j));
      assert Word32(r, j) == Word32(u, j);
      r := SetWord32(r, j, Fnv1(Word32(r, j), Word32(v, j)));
      j := j + 1;
    }
    assert u[..32 * j] == u && v[..32 * j] == v;
  }

  lemma NoWords(u: seq<bool>, v: seq<bool>)
    requires u == v == []
    ensures FnvWords(u, v) == []
  {
  }

  lemma OneWord(u: U32, v: U32)
    ensures FnvWords(u, v) == Fnv1(u, v)
  {
    hide Fnv1;
    assert u[..32] == u && v[..32] == v;
  }
}
