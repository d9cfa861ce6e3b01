/** The optimised Keccak-f[1600] of keccak.c over 25 named lanes, two rounds per pass. */
module KeccakPermutation {
  import opened Bits
  import opened Fips202
  import opened KeccakLanes

  function Row(a: Lane, e: Lane, i: Lane, o: Lane, u: Lane): (s: seq<Lane>)
    ensures |s| == 5 && s[0] == a && s[1] == e && s[2] == i && s[3] == o && s[4] == u
  {
    [a, e, i, o, u]
  }

  /** The state held in the 25 lane variables of keccak.c, in the order they are loaded and stored. */
  function Pack(ba: Lane, be: Lane, bi: Lane, bo: Lane, bu: Lane,
                ga: Lane, ge: Lane, gi: Lane, go: Lane, gu: Lane,
                ka: Lane, ke: Lane, ki: Lane, ko: Lane, ku: Lane,
                ma: Lane, me: Lane, mi: Lane, mo: Lane, mu: Lane,
                sa: Lane, se: Lane, si: Lane, so: Lane, su: Lane)
    : (s: State)
    ensures s[0] == ba && s[1] == be && s[2] == bi && s[3] == bo && s[4] == bu
    ensures s[5] == ga && s[6] == ge && s[7] == gi && s[8] == go && s[9] == gu
    ensures s[10] == ka && s[11] == ke && s[12] == ki && s[13] == ko && s[14] == ku
    ensures s[15] == ma && s[16] == me && s[17] == mi && s[18] == mo && s[19] == mu
    ensures s[20] == sa && s[21] == se && s[22] == si && s[23] == so && s[24] == su
  {
    hide Row;
    Row(ba, be, bi, bo, bu) + Row(ga, ge, gi, go, gu) + Row(ka, ke, ki, ko, ku)
    + Row(ma, me, mi, mo, mu) + Row(sa, se, si, so, su)
  }

  lemma EffectLanes(a: State, da: Lane, de: Lane, di: Lane, d': Lane, du: Lane)
    requires da == Xor(Column(a, 4), Rol(Column(a, 1), 1)) && de == Xor(Column(a, 0), Rol(Column(a, 2), 1))
    requires di == Xor(Column(a, 1), Rol(Column(a, 3), 1)) && d' == Xor(Column(a, 2), Rol(Column(a, 4), 1))
    requires du == Xor(Column(a, 3), Rol(Column(a, 0), 1))
    ensures da == Effect(a, 0) && de == Effect(a, 1) && di == Effect(a, 2) && d' == Effect(a, 3) && du == Effect(a, 4)
  {
    hide Xor, Rol, Column;
  }

  lemma MovedRow0(a: State)
    ensures Moved(a, 0, 0) == Xor(a[0], Effect(a, 0))
    ensures Moved(a, 1, 0) == Rol(Xor(a[6], Effect(a, 1)), 44)
    ensures Moved(a, 2, 0) == Rol(Xor(a[12], Effect(a, 2)), 43)
    ensures Moved(a, 3, 0) == Rol(Xor(a[18], Effect(a, 3)), 21)
    ensures Moved(a, 4, 0) == Rol(Xor(a[24], Effect(a, 4)), 14)
  {
    hide Xor, Rol, Effect;
  }

  lemma MovedRow1(a: State)
    ensures Moved(a, 0, 1) == Rol(Xor(a[3], Effect(a, 3)), 28)
    ensures Moved(a, 1, 1) == Rol(Xor(a[9], Effect(a, 4)), 20)
    ensures Moved(a, 2, 1) == Rol(Xor(a[10], Effect(a, 0)), 3)
    ensures Moved(a, 3, 1) == Rol(Xor(a[16], Effect(a, 1)), 45)
    ensures Moved(a, 4, 1) == Rol(Xor(a[22], Effect(a, 2)), 61)
  {
    hide Xor, Rol, Effect;
  }

  lemma MovedRow2(a: State)
    ensures Moved(a, 0, 2) == Rol(Xor(a[1], Effect(a, 1)), 1)
    ensures Moved(a, 1, 2) == Rol(Xor(a[7], Effect(a, 2)), 6)
    ensures Moved(a, 2, 2) == Rol(Xor(a[13], Effect(a, 3)), 25)
    ensures Moved(a, 3, 2) == Rol(Xor(a[19], Effect(a, 4)), 8)
    ensures Moved(a, 4, 2) == Rol(Xor(a[20], Effect(a, 0)), 18)
  {
    hide Xor, Rol, Effect;
  }

  lemma MovedRow3(a: State)
    ensures Moved(a, 0, 3) == Rol(Xor(a[4], Effect(a, 4)), 27)
    ensures Moved(a, 1, 3) == Rol(Xor(a[5], Effect(a, 0)), 36)
    ensures Moved(a, 2, 3) == Rol(Xor(a[11], Effect(a, 1)), 10)
    ensures Moved(a, 3, 3) == Rol(Xor(a[17], Effect(a, 2)), 15)
    ensures Moved(a, 4, 3) == Rol(Xor(a[23], Effect(a, 3)), 56)
  {
    hide Xor, Rol, Effect;
  }

  lemma MovedRow4(a: State)
    ensures Moved(a, 0, 4) == Rol(Xor(a[2], Effect(a, 2)), 62)
    ensures Moved(a, 1, 4) == Rol(Xor(a[8], Effect(a, 3)), 55)
    ensures Moved(a, 2, 4) == Rol(Xor(a[14], Effect(a, 4)), 39)
    ensures Moved(a, 3, 4) == Rol(Xor(a[15], Effect(a, 0)), 41)
    ensures Moved(a, 4, 4) == Rol(Xor(a[21], Effect(a, 1)), 2)
  {
    hide Xor, Rol, Effect;
  }

  lemma MixedRow(a: State, y: nat)
    requires y < 5
    ensures Mixed(a, 0, y) == Xor(Moved(a, 0, y), And(Not(Moved(a, 1, y)), Moved(a, 2, y)))
    ensures Mixed(a, 1, y) == Xor(Moved(a, 1, y), And(Not(Moved(a, 2, y)), Moved(a, 3, y)))
    ensures Mixed(a, 2, y) == Xor(Moved(a, 2, y), And(Not(Moved(a, 3, y)), Moved(a, 4, y)))
    ensures Mixed(a, 3, y) == Xor(Moved(a, 3, y), And(Not(Moved(a, 4, y)), Moved(a, 0, y)))
    ensures Mixed(a, 4, y) == Xor(Moved(a, 4, y), And(Not(Moved(a, 0, y)), Moved(a, 1, y)))
  {
    hide Xor, And, Not, Moved;
  }

  lemma RoundIs(a: State, n: nat, e: State)
    requires n < 24
    requires e[0] == Xor(Mixed(a, 0, 0), RoundWord(n))
    requires forall y :: 1 <= y < 5 ==> e[5 * y] == Mixed(a, 0, y)
    requires forall y :: 0 <= y < 5 ==> e[5 * y + 1] == Mixed(a, 1, y) && e[5 * y + 2] == Mixed(a, 2, y)
    requires forall y :: 0 <= y < 5 ==> e[5 * y + 3] == Mixed(a, 3, y) && e[5 * y + 4] == Mixed(a, 4, y)
    ensures Rnd(a, n) == e
  {
    hide Xor, Binary, Mixed, Rnd;
    forall i | 0 <= i < 25
      ensures Rnd(a, n)[i] == e[i]
    {
      RoundLane(a, n, i % 5, i / 5);
      assert i == 5 * (i / 5) + i % 5;
    }
  }

  function RoundWord(n: nat): Lane
    requires n < 24
  {
    Word(Binary(ROUND_CONSTANTS[n], 64))
  }

  /** One half of the loop body. Both halves of keccak.c are these statements, with the letters A and E exchanged
      in the second. */
  method Round(ghost n: nat, rc: Lane,
               Aba: Lane, Abe: Lane, Abi: Lane, Abo: Lane, Abu: Lane,
               Aga: Lane, Age: Lane, Agi: Lane, Ago: Lane, Agu: Lane,
               Aka: Lane, Ake: Lane, Aki: Lane, Ako: Lane, Aku: Lane,
               Ama: Lane, Ame: Lane, Ami: Lane, Amo: Lane, Amu: Lane,
               Asa: Lane, Ase: Lane, Asi: Lane, Aso: Lane, Asu: Lane)
    returns (Eba: Lane, Ebe: Lane, Ebi: Lane, Ebo: Lane, Ebu: Lane,
             Ega: Lane, Ege: Lane, Egi: Lane, Ego: Lane, Egu: Lane,
             Eka: Lane, Eke: Lane, Eki: Lane, Eko: Lane, Eku: Lane,
             Ema: Lane, Eme: Lane, Emi: Lane, Emo: Lane, Emu: Lane,
             Esa: Lane, Ese: Lane, Esi: Lane, Eso: Lane, Esu: Lane)
    requires n < 24 && rc == RoundWord(n)
    ensures Pack(Eba, Ebe, Ebi, Ebo, Ebu,
                 Ega, Ege, Egi, Ego, Egu,
                 Eka, Eke, Eki, Eko, Eku,
                 Ema, Eme, Emi, Emo, Emu,
                 Esa, Ese, Esi, Eso, Esu)
         == Rnd(Pack(Aba, Abe, Abi, Abo, Abu,
                     Aga, Age, Agi, Ago, Agu,
                     Aka, Ake, Aki, Ako, Aku,
                     Ama, Ame, Ami, Amo, Amu,
                     Asa, Ase, Asi, Aso, Asu), n)
  {
    hide Xor, And, Not, Rol, Effect, Moved, Mixed, Rnd, Pack, Binary, RoundWord;
    ghost var a := Pack(Aba, Abe, Abi, Abo, Abu,
                        Aga, Age, Agi, Ago, Agu,
                        Aka, Ake, Aki, Ako, Aku,
                        Ama, Ame, Ami, Amo, Amu,
                        Asa, Ase, Asi, Aso, Asu);
    var Ba := Xor(Xor(Xor(Xor(Aba, Aga), Aka), Ama), Asa);
    var Be := Xor(Xor(Xor(Xor(Abe, Age), Ake), Ame), Ase);
    var Bi := Xor(Xor(Xor(Xor(Abi, Agi), Aki), Ami), Asi);
    var Bo := Xor(Xor(Xor(Xor(Abo, Ago), Ako), Amo), Aso);
    var Bu := Xor(Xor(Xor(Xor(Abu, Agu), Aku), Amu), Asu);
    var Da := Xor(Bu, Rol(Be, 1));
    var De := Xor(Ba, Rol(Bi, 1));
    var Di := Xor(Be, Rol(Bo, 1));
    var Do := Xor(Bi, Rol(Bu, 1));
    var Du := Xor(Bo, Rol(Ba, 1));
    EffectLanes(a, Da, De, Di, Do, Du);

    Ba := Xor(Aba, Da);
    Be := Rol(Xor(Age, De), 44);
    Bi := Rol(Xor(Aki, Di), 43);
    Bo := Rol(Xor(Amo, Do), 21);
    Bu := Rol(Xor(Asu, Du), 14);
    Eba := Xor(Xor(Ba, And(Not(Be), Bi)), rc);
    Ebe := Xor(Be, And(Not(Bi), Bo));
    Ebi := Xor(Bi, And(Not(Bo), Bu));
    Ebo := Xor(Bo, And(Not(Bu), Ba));
    Ebu := Xor(Bu, And(Not(Ba), Be));
    MovedRow0(a);
    MixedRow(a, 0);

    Ba := Rol(Xor(Abo, Do), 28);
    Be := Rol(Xor(Agu, Du), 20);
    Bi := Rol(Xor(Aka, Da), 3);
    Bo := Rol(Xor(Ame, De), 45);
    Bu := Rol(Xor(Asi, Di), 61);
    Ega := Xor(Ba, And(Not(Be), Bi));
    Ege := Xor(Be, And(Not(Bi), Bo));
    Egi := Xor(Bi, And(Not(Bo), Bu));
    Ego := Xor(Bo, And(Not(Bu), Ba));
    Egu := Xor(Bu, And(Not(Ba), Be));
    MovedRow1(a);
    MixedRow(a, 1);

    Ba := Rol(Xor(Abe, De), 1);
    Be := Rol(Xor(Agi, Di), 6);
    Bi := Rol(Xor(Ako, Do), 25);
    Bo := Rol(Xor(Amu, Du), 8);
    Bu := Rol(Xor(Asa, Da), 18);
    Eka := Xor(Ba, And(Not(Be), Bi));
    Eke := Xor(Be, And(Not(Bi), Bo));
    Eki := Xor(Bi, And(Not(Bo), Bu));
    Eko := Xor(Bo, And(Not(Bu), Ba));
    Eku := Xor(Bu, And(Not(Ba), Be));
    MovedRow2(a);
    MixedRow(a, 2);

    Ba := Rol(Xor(Abu, Du), 27);
    Be := Rol(Xor(Aga, Da), 36);
    Bi := Rol(Xor(Ake, De), 10);
    Bo := Rol(Xor(Ami, Di), 15);
    Bu := Rol(Xor(Aso, Do), 56);
    Ema := Xor(Ba, And(Not(Be), Bi));
    Eme := Xor(Be, And(Not(Bi), Bo));
    Emi := Xor(Bi, And(Not(Bo), Bu));
    Emo := Xor(Bo, And(Not(Bu), Ba));
    Emu := Xor(Bu, And(Not(Ba), Be));
    MovedRow3(a);
    MixedRow(a, 3);

    Ba := Rol(Xor(Abi, Di), 62);
    Be := Rol(Xor(Ago, Do), 55);
    Bi := Rol(Xor(Aku, Du), 39);
    Bo := Rol(Xor(Ama, Da), 41);
    Bu := Rol(Xor(Ase, De), 2);
    Esa := Xor(Ba, And(Not(Be), Bi));
    Ese := Xor(Be, And(Not(Bi), Bo));
    Esi := Xor(Bi, And(Not(Bo), Bu));
    Eso := Xor(Bo, And(Not(Bu), Ba));
    Esu := Xor(Bu, And(Not(Ba), Be));
    MovedRow4(a);
    MixedRow(a, 4);

    RoundIs(a, n, Pack(Eba, Ebe, Ebi, Ebo, Ebu,
                       Ega, Ege, Egi, Ego, Egu,
                       Eka, Eke, Eki, Eko, Eku,
                       Ema, Eme, Emi, Emo, Emu,
                       Esa, Ese, Esi, Eso, Esu));
  }

  lemma PackRows(Aba: Lane, Abe: Lane, Abi: Lane, Abo: Lane, Abu: Lane,
                 Aga: Lane, Age: Lane, Agi: Lane, Ago: Lane, Agu: Lane,
                 Aka: Lane, Ake: Lane, Aki: Lane, Ako: Lane, Aku: Lane,
                 Ama: Lane, Ame: Lane, Ami: Lane, Amo: Lane, Amu: Lane,
                 Asa: Lane, Ase: Lane, Asi: Lane, Aso: Lane, Asu: Lane)
    ensures Pack(Aba, Abe, Abi, Abo, Abu,
                 Aga, Age, Agi, Ago, Agu,
                 Aka, Ake, Aki, Ako, Aku,
                 Ama, Ame, Ami, Amo, Amu,
                 Asa, Ase, Asi, Aso, Asu)
         == Row(Aba, Abe, Abi, Abo, Abu) + Row(Aga, Age, Agi, Ago, Agu) + Row(Aka, Ake, Aki, Ako, Aku)
            + Row(Ama, Ame, Ami, Amo, Amu) + Row(Asa, Ase, Asi, Aso, Asu)
  {
    hide Row;
  }

  lemma PackOf(s: State)
    ensures Pack(s[0], s[1], s[2], s[3], s[4],
                 s[5], s[6], s[7], s[8], s[9],
                 s[10], s[11], s[12], s[13], s[14],
                 s[15], s[16], s[17], s[18], s[19],
                 s[20], s[21], s[22], s[23], s[24]) == s
  {
    hide Pack;
    var p := Pack(s[0], s[1], s[2], s[3], s[4],
                  s[5], s[6], s[7], s[8], s[9],
                  s[10], s[11], s[12], s[13], s[14],
                  s[15], s[16], s[17], s[18], s[19],
                  s[20], s[21], s[22], s[23], s[24]);
    forall i | 0 <= i < 25
      ensures p[i] == s[i]
    {
    }
  }

  lemma TwoRounds(s: State, n: nat)
    ensures Rounds(s, n + 2) == Rnd(Rnd(Rounds(s, n), n), n + 1)
  {
    hide Rnd;
  }

  lemma AllRounds(s: State, n: nat)
    ensures Rounds(s, 0) == s
    ensures n == 24 ==> KeccakF(s) == Rounds(s, n)
  {
    hide Rnd;
  }

  method StoreRow(state: array<Lane>, y: nat, a: Lane, e: Lane, i: Lane, o: Lane, u: Lane)
    requires state.Length == 25 && y < 5
    modifies state
    ensures state[..] == old(state[..5 * y]) + Row(a, e, i, o, u) + old(state[5 * y + 5..])
  {
    state[5 * y] := a;
    state[5 * y + 1] := e;
    state[5 * y + 2] := i;
    state[5 * y + 3] := o;
    state[5 * y + 4] := u;
  }

  method Store(state: array<Lane>,
               Aba: Lane, Abe: Lane, Abi: Lane, Abo: Lane, Abu: Lane,
               Aga: Lane, Age: Lane, Agi: Lane, Ago: Lane, Agu: Lane,
               Aka: Lane, Ake: Lane, Aki: Lane, Ako: Lane, Aku: Lane,
               Ama: Lane, Ame: Lane, Ami: Lane, Amo: Lane, Amu: Lane,
               Asa: Lane, Ase: Lane, Asi: Lane, Aso: Lane, Asu: Lane)
    requires state.Length == 25
    modifies state
    ensures state[..] == Pack(Aba, Abe, Abi, Abo, Abu,
                              Aga, Age, Agi, Ago, Agu,
                              Aka, Ake, Aki, Ako, Aku,
                              Ama, Ame, Ami, Amo, Amu,
                              Asa, Ase, Asi, Aso, Asu)
  {
    hide *;
    StoreRow(state, 0, Aba, Abe, Abi, Abo, Abu);
    StoreRow(state, 1, Aga, Age, Agi, Ago, Agu);
    StoreRow(state, 2, Aka, Ake, Aki, Ako, Aku);
    StoreRow(state, 3, Ama, Ame, Ami, Amo, Amu);
    StoreRow(state, 4, Asa, Ase, Asi, Aso, Asu);
    PackRows(Aba, Abe, Abi, Abo, Abu,
             Aga, Age, Agi, Ago, Agu,
             Aka, Ake, Aki, Ako, Aku,
             Ama, Ame, Ami, Amo, Amu,
             Asa, Ase, Asi, Aso, Asu);
  }

  method Permute(state: array<Lane>)
    requires state.Length == 25
    modifies state
    ensures state[..] == KeccakF(old(state[..]))
  {
    hide *;
    var Aba := state[0]; var Abe := state[1]; var Abi := state[2]; var Abo := state[3]; var Abu := state[4];
    var Aga := state[5]; var Age := state[6]; var Agi := state[7]; var Ago := state[8]; var Agu := state[9];
    var Aka := state[10]; var Ake := state[11]; var Aki := state[12]; var Ako := state[13]; var Aku := state[14];
    var Ama := state[15]; var Ame := state[16]; var Ami := state[17]; var Amo := state[18]; var Amu := state[19];
    var Asa := state[20]; var Ase := state[21]; var Asi := state[22]; var Aso := state[23]; var Asu := state[24];
    ghost var s := state[..];
    PackOf(s);
    AllRounds(s, 24);

    var n := 0;
    while n < 24
      invariant n % 2 == 0 && 0 <= n <= 24
      invariant Rounds(s, n)
             == Pack(Aba, Abe, Abi, Abo, Abu,
                     Aga, Age, Agi, Ago, Agu,
                     Aka, Ake, Aki, Ako, Aku,
                     Ama, Ame, Ami, Amo, Amu,
                     Asa, Ase, Asi, Aso, Asu)
      invariant state[..] == s
    {
      var Eba, Ebe, Ebi, Ebo, Ebu,
          Ega, Ege, Egi, Ego, Egu,
          Eka, Eke, Eki, Eko, Eku,
          Ema, Eme, Emi, Emo, Emu,
          Esa, Ese, Esi, Eso, Esu :=
        Round(n, RoundWord(n),
              Aba, Abe, Abi, Abo, Abu,
              Aga, Age, Agi, Ago, Agu,
              Aka, Ake, Aki, Ako, Aku,
              Ama, Ame, Ami, Amo, Amu,
              Asa, Ase, Asi, Aso, Asu);
      Aba, Abe, Abi, Abo, Abu,
      Aga, Age, Agi, Ago, Agu,
      Aka, Ake, Aki, Ako, Aku,
      Ama, Ame, Ami, Amo, Amu,
      Asa, Ase, Asi, Aso, Asu :=
        Round(n + 1, RoundWord(n + 1),
              Eba, Ebe, Ebi, Ebo, Ebu,
              Ega, Ege, Egi, Ego, Egu,
              Eka, Eke, Eki, Eko, Eku,
              Ema, Eme, Emi, Emo, Emu,
              Esa, Ese, Esi, Eso, Esu);
      TwoRounds(s, n);
      n := n + 2;
    }

    Store(state, Aba, Abe, Abi, Abo, Abu,
          Aga, Age, Agi, Ago, Agu,
          Aka, Ake, Aki, Ako, Aku,
          Ama, Ame, Ami, Amo, Amu,
          Asa, Ase, Asi, Aso, Asu);
  }
}
