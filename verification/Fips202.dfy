/** Keccak-f[1600] and the sponge construction as FIPS 202 states them, over bits. */
module Fips202 {
  import opened Bits

  /** The 5-by-5-by-64 state array; lane (x, y) is `s[5y + x]`. */
  type State = s: seq<Lane> | |s| == 25 witness seq(25, _ => ZERO)

  /** A[x, y, z], every coordinate taken modulo its range as in section 3.1. */
  function At(a: State, x: int, y: int, z: int): bool {
    a[5 * (y % 5) + x % 5].bits[z % 64]
  }

  function Make(f: (int, int, int) -> bool): State {
    seq(25, i requires 0 <= i < 25 => Word(seq(64, z requires 0 <= z < 64 => f(i % 5, i / 5, z))))
  }

  // Section 3.2.1

  function C(a: State, x: int, z: int): bool {
    (((At(a, x, 0, z) != At(a, x, 1, z)) != At(a, x, 2, z)) != At(a, x, 3, z)) != At(a, x, 4, z)
  }

  function D(a: State, x: int, z: int): bool {
    C(a, x - 1, z) != C(a, x + 1, z - 1)
  }

  function Theta(a: State): State {
    Make((x, y, z) => At(a, x, y, z) != D(a, x, z))
  }

  // Section 3.2.2

  /** The rotation offset of lane (x, y), 0 <= x, y < 5: Table 2, modulo the lane width. */
  function Offset(x: int, y: int): (o: nat)
    ensures o < 64
  {
    if y == 0 then (if x == 0 then 0 else if x == 1 then 1 else if x == 2 then 190 else if x == 3 then 28 else 91) % 64
    else if y == 1 then
      (if x == 0 then 36 else if x == 1 then 300 else if x == 2 then 6 else if x == 3 then 55 else 276) % 64
    else if y == 2 then
      (if x == 0 then 3 else if x == 1 then 10 else if x == 2 then 171 else if x == 3 then 153 else 231) % 64
    else if y == 3 then
      (if x == 0 then 105 else if x == 1 then 45 else if x == 2 then 15 else if x == 3 then 21 else 136) % 64
    else (if x == 0 then 210 else if x == 1 then 66 else if x == 2 then 253 else if x == 3 then 120 else 78) % 64
  }

  /** The lanes in the order of Algorithm 2, which gives lane t the rotation (t + 1)(t + 2) / 2. */
  function Walk(t: nat): (int, int) {
    if t == 0 then (1, 0) else (Walk(t - 1).1, (2 * Walk(t - 1).0 + 3 * Walk(t - 1).1) % 5)
  }

  function Steps(): (w: seq<(int, int)>)
    ensures |w| == 24
  {
    [(1, 0), (0, 2), (2, 1), (1, 2), (2, 3), (3, 3), (3, 0), (0, 1), (1, 3), (3, 1), (1, 4), (4, 4),
       (4, 0), (0, 3), (3, 4), (4, 3), (3, 2), (2, 2), (2, 0), (0, 4), (4, 2), (2, 4), (4, 1), (1, 1)]
  }

  lemma {:induction false} WalkSteps(t: nat)
    requires t < 24
    ensures Walk(t) == Steps()[t]
  {
    if t == 0 {
    } else {
      WalkSteps(t - 1);
      StepAt(t);
    }
  }

  lemma StepAt(t: nat)
    requires 0 < t < 24
    ensures Steps()[t] == (Steps()[t - 1].1, (2 * Steps()[t - 1].0 + 3 * Steps()[t - 1].1) % 5)
  {
  }

  /** Table 2 is what Algorithm 2 computes. */
  lemma OffsetTable(t: nat)
    requires t < 24
    ensures Offset(Walk(t).0, Walk(t).1) == (t + 1) * (t + 2) / 2 % 64
  {
    hide Walk;
    WalkSteps(t);
    OffsetAt(t);
  }

  lemma OffsetAt(t: nat)
    requires t < 24
    ensures Offset(Steps()[t].0, Steps()[t].1) == (t + 1) * (t + 2) / 2 % 64
  {
    hide *;
    if t < 6 {
      OffsetFrom0(t);
    } else if t < 12 {
      OffsetFrom6(t);
    } else if t < 18 {
      OffsetFrom12(t);
    } else {
      OffsetFrom18(t);
    }
  }

  lemma OffsetFrom0(t: nat)
    requires 0 <= t < 6
    ensures Offset(Steps()[t].0, Steps()[t].1) == (t + 1) * (t + 2) / 2 % 64
  {
  }

  lemma OffsetFrom6(t: nat)
    requires 6 <= t < 12
    ensures Offset(Steps()[t].0, Steps()[t].1) == (t + 1) * (t + 2) / 2 % 64
  {
  }

  lemma OffsetFrom12(t: nat)
    requires 12 <= t < 18
    ensures Offset(Steps()[t].0, Steps()[t].1) == (t + 1) * (t + 2) / 2 % 64
  {
  }

  lemma OffsetFrom18(t: nat)
    requires 18 <= t < 24
    ensures Offset(Steps()[t].0, Steps()[t].1) == (t + 1) * (t + 2) / 2 % 64
  {
  }

  function Rho(a: State): State {
    Make((x, y, z) => At(a, x, y, z - Offset(x, y)))
  }

  // Section 3.2.3

  function Pi(a: State): State {
    Make((x, y, z) => At(a, x + 3 * y, x, z))
  }

  // Section 3.2.4

  function Chi(a: State): State {
    Make((x, y, z) => At(a, x, y, z) != (!At(a, x + 1, y, z) && At(a, x + 2, y, z)))
  }

  // Section 3.2.5

  /** The eight-bit register of Algorithm 5. */
  datatype Lfsr = Lfsr(b0: bool, b1: bool, b2: bool, b3: bool, b4: bool, b5: bool, b6: bool, b7: bool)

  function Clock(r: Lfsr): Lfsr {
    Lfsr(r.b7, r.b0, r.b1, r.b2, r.b3 != r.b7, r.b4 != r.b7, r.b5 != r.b7, r.b6)
  }

  function Register(t: nat): Lfsr {
    if t == 0 then Lfsr(true, false, false, false, false, false, false, false) else Clock(Register(t - 1))
  }

  function Rc(t: nat): bool {
    Register(t % 255).b0
  }

  function Weigh(b: bool, w: nat): nat {
    if b then w else 0
  }

  /** RC of Algorithm 6 as a number: bit 2^j - 1 is rc(j + 7 ir), all other bits are zero. */
  function RoundConstant(ir: nat): nat {
    Weigh(Rc(7 * ir), 1) + Weigh(Rc(7 * ir + 1), 2) + Weigh(Rc(7 * ir + 2), 8) + Weigh(Rc(7 * ir + 3), 0x80)
    + Weigh(Rc(7 * ir + 4), 0x8000) + Weigh(Rc(7 * ir + 5), 0x8000_0000)
    + Weigh(Rc(7 * ir + 6), 0x8000_0000_0000_0000)
  }

  function Iota(a: State, ir: nat): State {
    a[0 := Xor(a[0], Word(Binary(RoundConstant(ir), 64)))]
  }

  // Section 3.3

  function Rnd(a: State, ir: nat): State {
    Iota(Chi(Pi(Rho(Theta(a)))), ir)
  }

  /** The first `n` rounds. */
  function Rounds(a: State, n: nat): State {
    if n == 0 then a else Rnd(Rounds(a, n - 1), n - 1)
  }

  function KeccakF(a: State): State {
    Rounds(a, 24)
  }

  // Section 3.1: strings and state arrays

  /** The bits of a sequence of lanes, in order. */
  function Flatten(a: seq<Lane>): (s: seq<bool>)
    ensures |s| == 64 * |a|
  {
    seq(64 * |a|, k requires 0 <= k < 64 * |a| => a[k / 64].bits[k % 64])
  }

  function Unflatten(s: seq<bool>): State
    requires |s| == 1600
  {
    seq(25, i requires 0 <= i < 25 => Word(s[64 * i..64 * i + 64]))
  }

  /** The permutation on strings of 1600 bits. */
  function F(s: seq<bool>): (t: seq<bool>)
    requires |s| == 1600
    ensures |t| == 1600
  {
    Flatten(KeccakF(Unflatten(s)))
  }

  // Section 4

  function Zeros(n: nat): (s: seq<bool>)
    ensures |s| == n
  {
    seq(n, _ => false)
  }

  function XorBits(s: seq<bool>, t: seq<bool>): (u: seq<bool>)
    requires |s| == |t|
    ensures |u| == |s|
  {
    seq(|s|, k requires 0 <= k < |s| => s[k] != t[k])
  }

  function Absorb(s: seq<bool>, p: seq<bool>, r: nat): (t: seq<bool>)
    requires |s| == 1600 && 0 < r < 1600
    ensures |t| == 1600
    decreases |p|
  {
    if |p| < r then s else Absorb(F(XorBits(s, p[..r] + Zeros(1600 - r))), p[r..], r)
  }

  function Squeeze(s: seq<bool>, d: nat, r: nat): (z: seq<bool>)
    requires |s| == 1600 && 0 < r < 1600
    ensures |z| == d
    decreases d
  {
    if d <= r then s[..d] else s[..r] + Squeeze(F(s), d - r, r)
  }

  // Section 5.1

  /** pad10*1: a one, as few zeros as fill up a block of `x` bits after `m` bits of message, a one. */
  function Pad(x: nat, m: nat): seq<bool>
    requires x > 0
  {
    [true] + Zeros((-(m as int) - 2) % x) + [true]
  }

  /** KECCAK[c](N, d): the sponge of section 4 with no domain separation bits. */
  function Keccak(c: nat, n: seq<bool>, d: nat): (z: seq<bool>)
    requires 0 < c < 1600
    ensures |z| == d
  {
    var r := 1600 - c;
    Squeeze(Absorb(Zeros(1600), n + Pad(r, |n|), r), d, r)
  }
}
