/** How the nonces are divided: Farm::setWork among the miners, the pool by the extranonce (processExtranonce), and how
    a solution is handed back without it (submitSolution). */
module NonceSegments {
  import opened CommonData

  // The arithmetic of the division

  /** The number of bits that tell n miners apart, ceil(log2(n)). */
  function CeilLog2(n: nat): (k: nat)
    requires n > 0
    ensures n <= Power(2, k) && (k > 0 ==> Power(2, k - 1) < n)
  {
    if n == 1 then 0 else 1 + CeilLog2((n + 1) / 2)
  }

  /** Miners, and leading hexadecimal digits that are taken, for which bits are left. */
  predicate Divides(n: nat, digits: nat) {
    n > 0 && 4 * digits + CeilLog2(n) <= 64
  }

  function SegmentBits(n: nat, digits: nat): nat
    requires Divides(n, digits)
  {
    64 - CeilLog2(n) - 4 * digits
  }

  /** The nonce at offset o in miner i's segment. */
  function Nonce(base: nat, n: nat, digits: nat, i: nat, o: nat): nat
    requires Divides(n, digits)
  {
    (base + i * Power(2, SegmentBits(n, digits)) + o) % Power(2, 64)
  }

  lemma {:induction false} PowerOf16(n: nat)
    ensures Power(2, 4 * n) == Power(16, n)
  {
    if n == 0 {
    } else {
      PowerOf16(n - 1);
      PowerAdd(2, 4, 4 * (n - 1));
      assert Power(2, 4) == 16 by {
        assert Power(2, 2) == 4;
        PowerAdd(2, 2, 2);
      }
    }
  }

  /** The segments of all miners fit behind the digits. */
  lemma Room(n: nat, digits: nat, i: nat, o: nat)
    requires Divides(n, digits) && i < n && o < Power(2, SegmentBits(n, digits))
    ensures i * Power(2, SegmentBits(n, digits)) + o < Power(16, 16 - digits)
    ensures Power(16, 16 - digits) * Power(16, digits) == Power(2, 64)
  {
    hide Power;
    var k, p := CeilLog2(n), Power(2, SegmentBits(n, digits));
    Grow(p, i + 1, n);
    Distribute(p, i, 1);
    Grow(p, n, Power(2, k));
    PowerAdd(2, SegmentBits(n, digits), k);
    PowerOf16(16 - digits);
    PowerAdd(16, 16 - digits, digits);
    PowerOf16(16);
  }

  lemma PowerOrder(a: nat, b: nat)
    ensures Power(2, a) <= Power(2, b) <==> a <= b
  {
    if a <= b {
      PowerAdd(2, a, b - a);
      AtMost(Power(2, a), Power(2, b - a));
    } else {
      PowerAdd(2, b + 1, a - b - 1);
      AtMost(Power(2, b + 1), Power(2, a - b - 1));
    }
  }

  /** Bits are left for the miners exactly when there are as many nonces behind the digits as miners. */
  lemma DividesIff(n: nat, digits: nat)
    requires n > 0
    ensures Divides(n, digits) <==> n * Power(16, digits) <= Power(2, 64)
  {
    hide Power;
    var k, d := CeilLog2(n), Power(2, 4 * digits);
    PowerOf16(digits);
    if 4 * digits + k <= 64 {
      PowerAdd(2, k, 4 * digits);
      PowerOrder(k + 4 * digits, 64);
      Fewer(n, Power(2, k), d, Power(2, 64));
    } else if k == 0 {
      PowerZero();
      PowerOrder(4 * digits, 64);
      AtMost(d, n);
    } else {
      PowerAdd(2, k - 1, 4 * digits);
      PowerOrder(64, k - 1 + 4 * digits);
      More(n, Power(2, k - 1), d, Power(2, 64));
    }
  }

  lemma Fewer(n: nat, p: nat, d: nat, m: nat)
    requires n <= p && p * d <= m
    ensures n * d <= m
  {
    Grow(d, n, p);
  }

  lemma More(n: nat, p: nat, d: nat, m: nat)
    requires p < n && d > 0 && p * d >= m
    ensures n * d > m
  {
    Grow(d, p + 1, n);
    Distribute(d, p, 1);
  }

  lemma PowerZero()
    ensures Power(2, 0) == 1
  {
  }

  lemma Wrap(base: nat, a: nat, b: nat, m: nat)
    requires a < m && b < m && (base + a) % m == (base + b) % m
    ensures a == b
  {
    var x, y := (base + a) / m, (base + b) / m;
    assert base + a == m * x + (base + a) % m && base + b == m * y + (base + b) % m;
    if x < y {
      Grow(m, x + 1, y);
    } else if y < x {
      Grow(m, y + 1, x);
    }
  }

  lemma AtMost(a: nat, b: nat)
    requires b > 0
    ensures a <= a * b
  {
    Grow(a, 1, b);
  }

  /** Whatever the base, user prefix, extranonce or random with wrap-around, no nonce belongs to two miners, or twice
      to one. */
  lemma Disjoint(base: nat, n: nat, digits: nat, i: nat, o: nat, j: nat, q: nat)
    requires Divides(n, digits) && i < n && j < n
    requires o < Power(2, SegmentBits(n, digits)) && q < Power(2, SegmentBits(n, digits))
    ensures Nonce(base, n, digits, i, o) == Nonce(base, n, digits, j, q) ==> i == j && o == q
  {
    hide Power;
    var p := Power(2, SegmentBits(n, digits));
    Room(n, digits, i, o);
    Room(n, digits, j, q);
    AtMost(Power(16, 16 - digits), Power(16, digits));
    if Nonce(base, n, digits, i, o) == Nonce(base, n, digits, j, q) {
      DisjointAt(base, p, Power(2, 64), i, o, j, q);
    }
  }

  lemma DisjointAt(base: nat, p: nat, m: nat, i: nat, o: nat, j: nat, q: nat)
    requires o < p && q < p && i * p + o < m && j * p + q < m
    requires (base + i * p + o) % m == (base + j * p + q) % m
    ensures i == j && o == q
  {
    Wrap(base, i * p + o, j * p + q, m);
    SameDigit(p, i, o, j, q);
  }

  /** When the base is the digits followed by zeros, no segment leaves the range of those digits. */
  lemma WithinPrefix(prefix: nat, n: nat, digits: nat, i: nat, o: nat)
    requires Divides(n, digits) && i < n && o < Power(2, SegmentBits(n, digits)) && prefix < Power(16, digits)
    ensures var nonce := Nonce(prefix * Power(16, 16 - digits), n, digits, i, o);
            nonce < Power(2, 64) && nonce / Power(16, 16 - digits) == prefix
  {
    hide Power;
    var low, unit := i * Power(2, SegmentBits(n, digits)) + o, Power(16, 16 - digits);
    Room(n, digits, i, o);
    Grow(unit, prefix + 1, Power(16, digits));
    Distribute(unit, prefix, 1);
    Remainder(0, Power(2, 64), prefix * unit + low);
    Remainder(prefix, unit, low);
  }

  // Handing out the work

  datatype WorkPackage = WorkPackage(job: string, startNonce: nat, exSizeBytes: nat)

  /** The leading digits that are taken: the user's, or else the pool's. */
  function TakenDigits(settings: string, wp: WorkPackage): nat {
    if |settings| > 0 then |settings| else wp.exSizeBytes
  }

  /** Where the first segment starts. */
  function StartNonce(settings: string, wp: WorkPackage, random: nat): nat
    requires AllHex(settings) && |settings| <= 16
  {
    if |settings| > 0 then ParseHex(settings) * Power(16, 16 - |settings|)
    else if wp.exSizeBytes > 0 then wp.startNonce
    else random
  }

  /** Without leading digits from user or pool, the first miner starts at the number drawn. */
  lemma RandomStart(n: nat, wp: WorkPackage, random: nat)
    requires n > 0 && Divides(n, 0) && wp.exSizeBytes == 0 && random < Power(2, 64)
    ensures Nonce(StartNonce("", wp, random), n, TakenDigits("", wp), 0, 0) == random
  {
    hide Power;
    First(random, n, 0);
  }

  class Farm {
    /** The --nonce option. */
    const nonce: string
    /** What each miner was last given. */
    const miners: array<WorkPackage>
    var current: WorkPackage

    constructor (nonce: string, miners: array<WorkPackage>)
      ensures this.nonce == nonce && this.miners == miners
    {
      this.nonce, this.miners := nonce, miners;
      current := WorkPackage("", 0, 0);
    }

    /** Every miner gets the package with the start of its own segment. `random` is the number drawn when neither the
        user nor the pool fixes leading digits. */
    method SetWork(wp: WorkPackage, random: nat)
      requires AllHex(nonce) && wp.startNonce < Power(2, 64) && random < Power(2, 64)
      requires Divides(miners.Length, TakenDigits(nonce, wp))
      modifies this, miners
      ensures forall i :: 0 <= i < miners.Length ==>
        miners[i] == wp.(startNonce := Nonce(StartNonce(nonce, wp, random), miners.Length, TakenDigits(nonce, wp), i, 0))
      ensures current.job == wp.job && current.exSizeBytes == wp.exSizeBytes
    {
      hide Power, Nonce, ParseHex;
      current := wp;
      var segmentBits := 64 - CeilLog2(miners.Length);
      if |nonce| > 0 {
        segmentBits := segmentBits - 4 * |nonce|;
        PrefixFits(nonce);
        current := current.(startNonce := ParseHex(nonce) * Power(2, 64 - 4 * |nonce|));
      } else if current.exSizeBytes > 0 {
        segmentBits := segmentBits - current.exSizeBytes * 4;
      } else {
        current := current.(startNonce := random);
      }
      ghost var n, digits, base := miners.Length, TakenDigits(nonce, wp), current.startNonce;
      First(base, n, digits);
      for i := 0 to miners.Length
        invariant current == wp.(startNonce := Nonce(base, n, digits, i, 0))
        invariant forall j :: 0 <= j < i ==> miners[j] == wp.(startNonce := Nonce(base, n, digits, j, 0))
      {
        miners[i] := current;
        Following(base, n, digits, i);
        current := current.(startNonce := (current.startNonce + Power(2, segmentBits)) % Power(2, 64));
      }
    }
  }

  /** The user's digits can be shifted to the front without loss. */
  lemma PrefixFits(nonce: string)
    requires AllHex(nonce) && 4 * |nonce| <= 64
    ensures ParseHex(nonce) * Power(2, 64 - 4 * |nonce|) == ParseHex(nonce) * Power(16, 16 - |nonce|) < Power(2, 64)
  {
    hide Power, ParseHex;
    PowerOf16(16 - |nonce|);
    ParseAppend("", nonce);
    assert "" + nonce == nonce;
    Below(Power(16, 16 - |nonce|), ParseHex(nonce), Power(16, |nonce|));
    PowerAdd(16, 16 - |nonce|, |nonce|);
    PowerOf16(16);
  }

  lemma Below(unit: nat, a: nat, b: nat)
    requires a < b && unit > 0
    ensures a * unit < unit * b
  {
    Grow(unit, a + 1, b);
    Distribute(unit, a, 1);
  }

  lemma First(base: nat, n: nat, digits: nat)
    requires Divides(n, digits) && base < Power(2, 64)
    ensures Nonce(base, n, digits, 0, 0) == base
  {
    hide Power;
    Remainder(0, Power(2, 64), base);
  }

  lemma Following(base: nat, n: nat, digits: nat, i: nat)
    requires Divides(n, digits)
    ensures (Nonce(base, n, digits, i, 0) + Power(2, SegmentBits(n, digits))) % Power(2, 64)
         == Nonce(base, n, digits, i + 1, 0)
  {
    hide Power;
    var p, m := Power(2, SegmentBits(n, digits)), Power(2, 64);
    var x := base + i * p;
    Distribute(p, i, 1);
    assert x == m * (x / m) + x % m;
    Congruent(x % m + p, x / m, m);
  }

  // The pool's extranonce

  /** What the session keeps of an extranonce: its number of digits, and the nonce it begins. */
  datatype Extranonce = Extranonce(sizeBytes: nat, value: nat)

  function ProcessExtranonce(enonce: string): Extranonce
    requires AllHex(enonce) && |enonce| <= 16
  {
    Extranonce(|enonce|, ParseHex(enonce + Zeros(16 - |enonce|)))
  }

  /** The part of a nonce that is submitted. */
  function Submitted(nonce: nat, exSizeBytes: nat): string
    requires nonce < Power(16, 16) && exSizeBytes <= 16
  {
    HexRoundTrip(nonce);
    ToHex(nonce)[exSizeBytes..]
  }

  /** What the pool makes of a submission. */
  function Rebuilt(enonce: string, submitted: string): nat
    requires AllHex(enonce) && AllHex(submitted)
  {
    ParseHex(enonce + submitted)
  }

  lemma Split(nonce: nat, e: nat)
    requires nonce < Power(16, 16) && e <= 16
    ensures var h := ToHex(nonce);
            |h| == 16 && ParseHex(h[..e]) == nonce / Power(16, 16 - e) && ParseHex(h[e..]) == nonce % Power(16, 16 - e)
  {
    hide Power, ParseHex, ToHex;
    HexRoundTrip(nonce);
    var h := ToHex(nonce);
    ParseAppend(h[..e], h[e..]);
    assert h[..e] + h[e..] == h;
    Remainder(ParseHex(h[..e]), Power(16, 16 - e), ParseHex(h[e..]));
  }

  /** The pool rebuilds a nonce from its submission exactly when the nonce starts with the extranonce's digits. */
  lemma RebuiltExactly(enonce: string, nonce: nat)
    requires AllHex(enonce) && |enonce| <= 16 && nonce < Power(16, 16)
    ensures Rebuilt(enonce, Submitted(nonce, |enonce|)) == nonce
            <==> nonce / Power(16, 16 - |enonce|) == ParseHex(enonce)
  {
    hide Power, ParseHex, ToHex;
    var m := Power(16, 16 - |enonce|);
    HexRoundTrip(nonce);
    Split(nonce, |enonce|);
    ParseAppend(enonce, ToHex(nonce)[|enonce|..]);
    PlaceValue(ParseHex(enonce), m, nonce);
  }

  lemma PlaceValue(a: nat, m: nat, x: nat)
    requires m > 0
    ensures a * m + x % m == x <==> x / m == a
  {
    Remainder(a, m, x % m);
  }

  lemma SameDigits(s: string, t: string)
    requires AllHex(s) && AllHex(t) && |s| == |t| && ParseHex(s) == ParseHex(t)
    ensures forall i :: 0 <= i < |s| ==> DigitOf(s[i]) == DigitOf(t[i])
  {
    hide DigitOf;
    ValueInjective(16, DigitsOf(s), DigitsOf(t));
    forall i | 0 <= i < |s|
      ensures DigitOf(s[i]) == DigitOf(t[i])
    {
      assert DigitsOf(s)[i] == DigitsOf(t)[i];
    }
  }

  /** With an extranonce and without --nonce: every nonce of every segment starts with the extranonce, digit by digit,
      and its submission, put after the extranonce, is that nonce again. */
  lemma ExtranonceKept(enonce: string, n: nat, i: nat, o: nat, random: nat)
    requires AllHex(enonce) && 1 <= |enonce| <= 16
    requires Divides(n, |enonce|) && i < n && o < Power(2, SegmentBits(n, |enonce|))
    ensures var x := ProcessExtranonce(enonce);
            var wp := WorkPackage("", x.value, x.sizeBytes);
            var nonce := Nonce(StartNonce("", wp, random), n, TakenDigits("", wp), i, o);
            && nonce < Power(16, 16) && |ToHex(nonce)| == 16
            && (forall k :: 0 <= k < |enonce| ==> DigitOf(ToHex(nonce)[k]) == DigitOf(enonce[k]))
            && Rebuilt(enonce, Submitted(nonce, x.sizeBytes)) == nonce
  {
    hide Power, ParseHex, ToHex, Nonce, DigitOf;
    var e := |enonce|;
    var prefix := ParseHex(enonce);
    ParseAppend("", enonce);
    assert "" + enonce == enonce;
    ParseAppend(enonce, Zeros(16 - e));
    ParseZeros(16 - e);
    WithinPrefix(prefix, n, e, i, o);
    PowerOf16(16);
    var nonce := Nonce(prefix * Power(16, 16 - e), n, e, i, o);
    RebuiltExactly(enonce, nonce);
    Split(nonce, e);
    SameDigits(ToHex(nonce)[..e], enonce);
  }

  lemma DivideTwice(x: nat, a: nat, b: nat)
    requires a > 0 && b > 0
    ensures a * b > 0 && x / a / b == x / (a * b)
  {
    var u, r := x / a, x % a;
    NestedRest(a, b, u, r);
    assert x == a * u + r;
  }

  lemma NestedRest(a: nat, b: nat, u: nat, r: nat)
    requires r < a && b > 0
    ensures a * b > 0 && (a * u + r) / (a * b) == u / b
  {
    Nested(a, b, u / b, u % b, r);
    assert u == b * (u / b) + u % b;
  }

  lemma Nested(a: nat, b: nat, q: nat, s: nat, r: nat)
    requires r < a && s < b
    ensures a * b > 0 && (a * (b * q + s) + r) / (a * b) == q
  {
    NestedProduct(a, b, q, s);
    Below(a, s, b);
    Grow(a, s + 1, b);
    Distribute(a, s, 1);
    Quotient(a * (b * q + s) + r, a * b, q, a * s + r);
  }

  lemma NestedProduct(a: nat, b: nat, q: nat, s: nat)
    ensures a * (b * q + s) == (a * b) * q + a * s
  {
    Distribute(a, b * q, s);
    Reassociate(a, b, q);
  }

  lemma Quotient(x: nat, m: nat, q: nat, r: nat)
    requires r < m && x == m * q + r
    ensures x / m == q
  {
    SameDigit(m, x / m, x % m, q, r);
  }

  /** The user's --nonce overrides the extranonce but the submission still drops the extranonce's digits. With at least
      as many digits as the extranonce, it is harmless exactly when it begins with the extranonce; otherwise no nonce
      of any miner is rebuilt. */
  lemma UserPrefix(prefix: string, enonce: string, n: nat, i: nat, o: nat)
    requires AllHex(prefix) && AllHex(enonce) && 1 <= |enonce| <= |prefix| <= 16
    requires Divides(n, |prefix|) && i < n && o < Power(2, SegmentBits(n, |prefix|))
    ensures var x := ProcessExtranonce(enonce);
            var wp := WorkPackage("", x.value, x.sizeBytes);
            var nonce := Nonce(StartNonce(prefix, wp, 0), n, TakenDigits(prefix, wp), i, o);
            && nonce < Power(16, 16)
            && (Rebuilt(enonce, Submitted(nonce, x.sizeBytes)) == nonce
                <==> ParseHex(prefix[..|enonce|]) == ParseHex(enonce))
  {
    hide Power, ParseHex, ToHex, Nonce;
    var e, p := |enonce|, |prefix|;
    ParseAppend("", prefix);
    assert "" + prefix == prefix;
    WithinPrefix(ParseHex(prefix), n, p, i, o);
    PowerOf16(16);
    var nonce := Nonce(ParseHex(prefix) * Power(16, 16 - p), n, p, i, o);
    ParseAppend(prefix[..e], prefix[e..]);
    assert prefix[..e] + prefix[e..] == prefix;
    Remainder(ParseHex(prefix[..e]), Power(16, p - e), ParseHex(prefix[e..]));
    PowerAdd(16, 16 - p, p - e);
    DivideTwice(nonce, Power(16, 16 - p), Power(16, p - e));
    RebuiltExactly(enonce, nonce);
  }

  /** With --nonce 0, the extranonce 1 and a single miner, the pool rebuilds another nonce than the first one tried. */
  lemma PrefixBreaks()
    ensures Divides(1, 1)
    ensures var x := ProcessExtranonce("1");
            var wp := WorkPackage("", x.value, x.sizeBytes);
            var nonce := Nonce(StartNonce("0", wp, 0), 1, TakenDigits("0", wp), 0, 0);
            nonce < Power(16, 16) && Rebuilt("1", Submitted(nonce, x.sizeBytes)) != nonce
  {
    hide Power, ParseHex, ToHex, Nonce;
    UserPrefix("0", "1", 1, 0, 0);
    ParseOne('0');
    ParseOne('1');
    assert "0"[..1] == "0";
  }
}
