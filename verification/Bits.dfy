/** Machine words as bit vectors, least significant bit first, with the shift and
    logic operators of C spelled out bit by bit. */
module Bits {

  /** A `uint64_t`: bit `z` has weight 2^z. */
  datatype Word = Word(bits: seq<bool>)

  type Lane = w: Word | |w.bits| == 64 witness Word(seq(64, _ => false))

  const ZERO: Lane := Word(seq(64, _ => false))

  function Xor(x: Lane, y: Lane): Lane {
    Word(seq(64, z requires 0 <= z < 64 => x.bits[z] != y.bits[z]))
  }

  function And(x: Lane, y: Lane): Lane {
    Word(seq(64, z requires 0 <= z < 64 => x.bits[z] && y.bits[z]))
  }

  function Or(x: Lane, y: Lane): Lane {
    Word(seq(64, z requires 0 <= z < 64 => x.bits[z] || y.bits[z]))
  }

  function Not(x: Lane): Lane {
    Word(seq(64, z requires 0 <= z < 64 => !x.bits[z]))
  }

  function Shl(x: Lane, s: nat): Lane {
    Word(seq(64, z requires 0 <= z < 64 => z >= s && x.bits[z - s]))
  }

  function Shr(x: Lane, s: nat): Lane {
    Word(seq(64, z requires 0 <= z < 64 => z + s < 64 && x.bits[z + s]))
  }

  /** The `k` low bits of a number, least significant first. */
  function Binary(n: nat, k: nat): (b: seq<bool>)
    ensures |b| == k
    decreases k
  {
    if k == 0 then [] else [n % 2 == 1] + Binary(n / 2, k - 1)
  }
}
