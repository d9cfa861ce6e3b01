/** Facts that turn the bit-level definition of a Keccak round into lane operations:
    closed forms of the rotation offsets and round constants, and one equation per lane. */
module KeccakLanes {
  import opened Bits
  import opened Fips202

  /** Rotates the bits of `x` left by `s`, with the two shifts of keccak.c. */
  function Rol(x: Lane, s: nat): Lane
    requires 0 < s < 64
  {
    Or(Shl(x, s), Shr(x, 64 - s))
  }

  /** Rotation moves bit `z - s` to position `z`, modulo the lane width. */
  lemma RolBits(x: Lane, s: nat, z: int)
    requires 0 < s < 64
    ensures Rol(x, s).bits[z % 64] == x.bits[(z - s) % 64]
  {
    var i := z % 64;
    assert (z - s) % 64 == if i >= s then i - s else i - s + 64;
  }

  // Round constants

  const ROUND_CONSTANTS: seq<nat> := [
    0x0000000000000001, 0x0000000000008082, 0x800000000000808a, 0x8000000080008000,
    0x000000000000808b, 0x0000000080000001, 0x8000000080008081, 0x8000000000008009,
    0x000000000000008a, 0x0000000000000088, 0x0000000080008009, 0x000000008000000a,
    0x000000008000808b, 0x800000000000008b, 0x8000000000008089, 0x8000000000008003,
    0x8000000000008002, 0x8000000000000080, 0x000000000000800a, 0x800000008000000a,
    0x8000000080008081, 0x8000000000008080, 0x0000000080000001, 0x8000000080008008]

  /** Seven clock ticks of the generator at once. */
  function Advance(r: Lfsr): Lfsr {
    Lfsr((r.b1 != r.b3) != r.b4, (r.b2 != r.b4) != r.b5, (r.b3 != r.b5) != r.b6, (r.b4 != r.b6) != r.b7,
         (((r.b1 != r.b3) != r.b4) != r.b5) != r.b7, (((r.b1 != r.b2) != r.b3) != r.b5) != r.b6,
         ((r.b1 != r.b2) != r.b6) != r.b7, ((r.b0 != r.b2) != r.b3) != r.b7)
  }

  /** The constant of the round that starts with register `r`. */
  function Constant(r: Lfsr): nat {
    Weigh(r.b0, 1) + Weigh(r.b7, 2) + Weigh(r.b6, 8) + Weigh(r.b5 != r.b7, 0x80)
    + Weigh((r.b4 != r.b6) != r.b7, 0x8000) + Weigh((r.b3 != r.b5) != r.b6, 0x8000_0000)
    + Weigh((r.b2 != r.b4) != r.b5, 0x8000_0000_0000_0000)
  }

  lemma Tick(t: nat, r: Lfsr)
    requires t < 255 && Register(t) == r
    ensures Rc(t) == r.b0 && Register(t + 1) == Clock(r)
  {
    assert t % 255 == t;
  }

  lemma Ticks(t: nat, r: Lfsr)
    requires t + 6 < 255 && Register(t) == r
    ensures Rc(t) == r.b0 && Rc(t + 1) == r.b7 && Rc(t + 2) == r.b6 && Rc(t + 3) == (r.b5 != r.b7)
    ensures Rc(t + 4) == ((r.b4 != r.b6) != r.b7)
    ensures Rc(t + 5) == ((r.b3 != r.b5) != r.b6)
    ensures Rc(t + 6) == ((r.b2 != r.b4) != r.b5)
    ensures Register(t + 7) == Advance(r)
  {
    hide Register, Rc;
    var r1 := Clock(r); var r2 := Clock(r1); var r3 := Clock(r2);
    var r4 := Clock(r3); var r5 := Clock(r4); var r6 := Clock(r5);
    Tick(t, r); Tick(t + 1, r1); Tick(t + 2, r2); Tick(t + 3, r3); Tick(t + 4, r4); Tick(t + 5, r5); Tick(t + 6, r6);
  }

  /** From round `ir` with register `r` on, the table agrees with the generator. */
  predicate Spelled(r: Lfsr, ir: nat)
    decreases 24 - ir
  {
    ir >= 24 || (ROUND_CONSTANTS[ir] == Constant(r) && Spelled(Advance(r), ir + 1))
  }

  lemma SpelledStep(r: Lfsr, ir: nat)
    requires ir < 24 && ROUND_CONSTANTS[ir] == Constant(r) && Spelled(Advance(r), ir + 1)
    ensures Spelled(r, ir)
  {
  }

  lemma SpelledFrom12(n: nat)
    requires n == 24
    ensures Spelled(Lfsr(true, false, true, false, true, false, true, true), n - 12)
  {
    SpelledStep(Lfsr(false, false, true, false, false, false, true, false), n - 1);
    SpelledStep(Lfsr(true, true, false, true, false, false, false, false), n - 2);
    SpelledStep(Lfsr(false, true, true, true, true, true, false, false), n - 3);
    SpelledStep(Lfsr(true, true, true, false, true, true, false, false), n - 4);
    SpelledStep(Lfsr(false, false, false, true, false, true, true, true), n - 5);
    SpelledStep(Lfsr(false, true, false, false, true, true, true, true), n - 6);
    SpelledStep(Lfsr(false, true, false, true, false, true, false, false), n - 7);
    SpelledStep(Lfsr(false, true, false, true, false, true, false, true), n - 8);
    SpelledStep(Lfsr(true, true, false, true, false, true, false, true), n - 9);
    SpelledStep(Lfsr(true, true, false, false, false, true, true, false), n - 10);
    SpelledStep(Lfsr(true, false, true, true, false, false, true, true), n - 11);
    SpelledStep(Lfsr(true, false, true, false, true, false, true, true), n - 12);
  }

  lemma SpelledFrom6(n: nat)
    requires n == 24
    ensures Spelled(Lfsr(true, false, true, false, true, true, false, false), n - 18)
  {
    SpelledFrom12(n);
    SpelledStep(Lfsr(false, false, true, true, false, true, true, true), n - 13);
    SpelledStep(Lfsr(true, false, false, false, false, false, true, false), n - 14);
    SpelledStep(Lfsr(false, false, false, false, true, true, true, false), n - 15);
    SpelledStep(Lfsr(false, true, false, true, false, false, true, true), n - 16);
    SpelledStep(Lfsr(true, true, true, true, false, false, true, false), n - 17);
    SpelledStep(Lfsr(true, false, true, false, true, true, false, false), n - 18);
  }

  lemma SpelledFromStart(n: nat)
    requires n == 24
    ensures Spelled(Lfsr(true, false, false, false, false, false, false, false), n - 24)
  {
    SpelledFrom6(n);
    SpelledStep(Lfsr(true, false, false, true, false, false, false, false), n - 19);
    SpelledStep(Lfsr(true, true, true, true, true, false, true, true), n - 20);
    SpelledStep(Lfsr(false, true, false, true, true, false, false, false), n - 21);
    SpelledStep(Lfsr(false, false, false, true, true, false, true, true), n - 22);
    SpelledStep(Lfsr(false, false, false, false, false, false, false, true), n - 23);
    SpelledStep(Lfsr(true, false, false, false, false, false, false, false), n - 24);
  }

  lemma {:induction false} SpelledAt(ir: nat)
    requires ir < 24
    ensures Spelled(Register(7 * ir), ir)
  {
    if ir == 0 {
      SpelledFromStart(24);
    } else {
      SpelledAt(ir - 1);
      Ticks(7 * (ir - 1), Register(7 * (ir - 1)));
    }
  }

  /** The table of keccak.c holds the round constants of section 3.2.5. */
  lemma ConstantTable(ir: nat)
    requires ir < 24
    ensures ROUND_CONSTANTS[ir] == RoundConstant(ir)
  {
    hide Register, Rc, Weigh;
    SpelledAt(ir);
    Ticks(7 * ir, Register(7 * ir));
  }


  // One equation per lane

  /** The parity of a column of lanes. */
  function Column(a: State, x: nat): Lane
    requires x < 5
  {
    Xor(Xor(Xor(Xor(a[x], a[5 + x]), a[10 + x]), a[15 + x]), a[20 + x])
  }

  function Effect(a: State, x: nat): Lane
    requires x < 5
  {
    Xor(Column(a, (x + 4) % 5), Rol(Column(a, (x + 1) % 5), 1))
  }

  lemma MakeBit(f: (int, int, int) -> bool, x: nat, y: nat, z: nat)
    requires x < 5 && y < 5 && z < 64
    ensures Make(f)[5 * y + x].bits[z] == f(x, y, z)
  {
    assert (5 * y + x) % 5 == x && (5 * y + x) / 5 == y;
  }

  lemma ColumnBit(a: State, x: int, z: int)
    ensures C(a, x, z) == Column(a, x % 5).bits[z % 64]
  {
  }

  lemma EffectBit(a: State, x: nat, z: nat)
    requires x < 5 && z < 64
    ensures D(a, x, z) == Effect(a, x).bits[z]
  {
    hide Column, Rol, C;
    assert (x - 1) % 5 == (x + 4) % 5;
    ColumnBit(a, x - 1, z);
    ColumnBit(a, x + 1, z - 1);
    RolBits(Column(a, (x + 1) % 5), 1, z);
  }

  lemma ThetaBit(a: State, x: nat, y: nat, z: nat)
    requires x < 5 && y < 5 && z < 64
    ensures Theta(a)[5 * y + x].bits[z] == (a[5 * y + x].bits[z] != Effect(a, x).bits[z])
  {
    hide Make, D, Effect;
    MakeBit((x, y, z) => At(a, x, y, z) != D(a, x, z), x, y, z);
    EffectBit(a, x, z);
  }

  lemma ThetaLane(a: State, x: nat, y: nat)
    requires x < 5 && y < 5
    ensures Theta(a)[5 * y + x] == Xor(a[5 * y + x], Effect(a, x))
  {
    hide Theta, Effect;
    var l := Theta(a)[5 * y + x];
    forall z | 0 <= z < 64
      ensures l.bits[z] == (a[5 * y + x].bits[z] != Effect(a, x).bits[z])
    {
      ThetaBit(a, x, y, z);
    }
  }

  function Turn(x: Lane, s: nat): Lane
    requires s < 64
  {
    if s == 0 then x else Rol(x, s)
  }

  lemma RhoBit(a: State, x: nat, y: nat, z: nat)
    requires x < 5 && y < 5 && z < 64
    ensures Rho(a)[5 * y + x].bits[z] == Turn(a[5 * y + x], Offset(x, y)).bits[z]
  {
    hide Make, Offset, Rol;
    MakeBit((x, y, z) => At(a, x, y, z - Offset(x, y)), x, y, z);
    if Offset(x, y) > 0 {
      RolBits(a[5 * y + x], Offset(x, y), z);
    }
  }

  lemma RhoLane(a: State, x: nat, y: nat)
    requires x < 5 && y < 5
    ensures Rho(a)[5 * y + x] == Turn(a[5 * y + x], Offset(x, y))
  {
    hide Rho, Turn, Offset;
    var l, m := Rho(a)[5 * y + x], Turn(a[5 * y + x], Offset(x, y));
    forall z | 0 <= z < 64
      ensures l.bits[z] == m.bits[z]
    {
      RhoBit(a, x, y, z);
    }
  }

  lemma PiLane(a: State, x: nat, y: nat)
    requires x < 5 && y < 5
    ensures Pi(a)[5 * y + x] == a[5 * x + (x + 3 * y) % 5]
  {
    hide Make;
    var l, m := Pi(a)[5 * y + x], a[5 * x + (x + 3 * y) % 5];
    forall z | 0 <= z < 64
      ensures l.bits[z] == m.bits[z]
    {
      MakeBit((x, y, z) => At(a, x + 3 * y, x, z), x, y, z);
    }
  }

  lemma ChiBit(a: State, x: nat, y: nat, z: nat)
    requires x < 5 && y < 5 && z < 64
    ensures Chi(a)[5 * y + x].bits[z]
         == (a[5 * y + x].bits[z] != (!a[5 * y + (x + 1) % 5].bits[z] && a[5 * y + (x + 2) % 5].bits[z]))
  {
    hide Make;
    MakeBit((x, y, z) => At(a, x, y, z) != (!At(a, x + 1, y, z) && At(a, x + 2, y, z)), x, y, z);
  }

  lemma ChiLane(a: State, x: nat, y: nat)
    requires x < 5 && y < 5
    ensures Chi(a)[5 * y + x] == Xor(a[5 * y + x], And(Not(a[5 * y + (x + 1) % 5]), a[5 * y + (x + 2) % 5]))
  {
    hide Chi;
    var u, v := a[5 * y + (x + 1) % 5], a[5 * y + (x + 2) % 5];
    var l, m := Chi(a)[5 * y + x], Xor(a[5 * y + x], And(Not(u), v));
    forall z | 0 <= z < 64
      ensures l.bits[z] == m.bits[z]
    {
      ChiBit(a, x, y, z);
    }
  }

  /** Lane (x, y) after theta, rho and pi. */
  function Moved(a: State, x: nat, y: nat): Lane
    requires x < 5 && y < 5
  {
    var w := (x + 3 * y) % 5;
    Turn(Xor(a[5 * x + w], Effect(a, w)), Offset(w, x))
  }

  lemma MovedLane(a: State, x: nat, y: nat)
    requires x < 5 && y < 5
    ensures Pi(Rho(Theta(a)))[5 * y + x] == Moved(a, x, y)
  {
    hide Theta, Rho, Pi, Effect, Turn, Offset, Xor;
    var w := (x + 3 * y) % 5;
    PiLane(Rho(Theta(a)), x, y);
    RhoLane(Theta(a), w, x);
    ThetaLane(a, w, x);
  }

  function Mixed(a: State, x: nat, y: nat): Lane
    requires x < 5 && y < 5
  {
    Xor(Moved(a, x, y), And(Not(Moved(a, (x + 1) % 5, y)), Moved(a, (x + 2) % 5, y)))
  }

  /** One round, lane by lane. */
  lemma RoundLane(a: State, ir: nat, x: nat, y: nat)
    requires x < 5 && y < 5 && ir < 24
    ensures Rnd(a, ir)[5 * y + x]
         == if x == 0 && y == 0 then Xor(Mixed(a, 0, 0), Word(Binary(ROUND_CONSTANTS[ir], 64))) else Mixed(a, x, y)
  {
    hide Theta, Rho, Pi, Chi, Moved, Xor, And, Not, Binary, RoundConstant;
    MovedLane(a, x, y);
    MovedLane(a, (x + 1) % 5, y);
    MovedLane(a, (x + 2) % 5, y);
    ChiLane(Pi(Rho(Theta(a))), x, y);
    ConstantTable(ir);
  }
}
