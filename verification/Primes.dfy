/** Trial division and the descending search of primes.c, and the item counts of ethash.cpp built on them. */
module Primes {

  const INT_MAX := 0x7fff_ffff

  predicate IsPrime(n: int) {
    n >= 2 && forall d :: 1 < d < n ==> n % d != 0
  }

  lemma {:induction false} MultipleRemainder(d: int, k: nat)
    requires d > 0
    ensures (d * k) % d == 0
    decreases k
  {
    if k == 0 {
    } else {
      MultipleRemainder(d, k - 1);
      assert d * k == d * (k - 1) + d;
      AddModulus(d * (k - 1), d);
    }
  }

  lemma AddModulus(m: int, d: int)
    requires d > 0
    ensures (m + d) % d == m % d
  {
    var k := (m + d) / d - m / d - 1;
    assert d * k == m % d - (m + d) % d;
    NoMultipleBetween(d, k);
  }

  lemma NoMultipleBetween(d: int, k: int)
    requires d > 0 && -d < d * k < d
    ensures k == 0
  {
    assert k < 1 by { Monotone(d, 1, k); }
    assert k > -1 by { Monotone(d, k, -1); }
  }

  lemma Monotone(d: int, a: int, b: int)
    requires d > 0
    ensures a <= b ==> d * a <= d * b
  {
  }

  lemma OddFactor(d: int, k: int)
    ensures (d * k) % 2 == 1 ==> d % 2 == 1
  {
    var h := d / 2 * k;
    assert d % 2 == 0 ==> d * k == 2 * h;
  }

  /** The square-root argument: an odd number with a proper divisor has an odd one whose square does not exceed it. */
  lemma SmallDivisor(n: int, d: int) returns (e: int)
    requires n % 2 == 1 && 1 < d < n && n % d == 0
    ensures 3 <= e && e % 2 == 1 && e * e <= n && n % e == 0
  {
    var k := n / d;
    assert n == d * k;
    Monotone(d, k, 1);
    OddFactor(d, k);
    OddFactor(k, d);
    MultipleRemainder(k, d);
    Monotone(d, d, k);
    Monotone(k, k, d);
    e := if d <= k then d else k;
  }

  lemma NoSmallDivisor(n: int, d: int)
    requires n > 2 && n % 2 == 1 && 0 < d && n < d * d
    requires NoOddDivisorBelow(n, d)
    ensures IsPrime(n)
  {
    forall e | 1 < e < n
      ensures n % e != 0
    {
      if n % e == 0 {
        var f := SmallDivisor(n, e);
        Monotone(d, d, f);
        Monotone(f, d, f);
        assert false;
      }
    }
  }

  predicate NoOddDivisorBelow(n: int, d: int) {
    forall e :: 1 < e < d && e % 2 == 1 ==> n % e != 0
  }

  /** is_odd_prime, for the odd numbers above 2 it asks for. The candidate `d` stays within `int`. */
  method IsOddPrime(number: int) returns (prime: bool)
    requires 2 < number <= INT_MAX && number % 2 == 1
    ensures prime <==> IsPrime(number)
  {
    hide NoOddDivisorBelow, IsPrime;
    var d := 3;
    NextCandidate(number, 1);
    while d * d <= number
      invariant 3 <= d <= number && d % 2 == 1
      invariant NoOddDivisorBelow(number, d)
      decreases number - d
    {
      Monotone(d, 3, d);
      if number % d == 0 {
        HasDivisor(number, d);
        return false;
      }
      NextCandidate(number, d);
      d := d + 2;
    }
    NoSmallDivisor(number, d);
    return true;
  }

  lemma NextCandidate(n: int, d: int)
    requires d % 2 == 1 && 1 <= d && NoOddDivisorBelow(n, d) && (d == 1 || n % d != 0)
    ensures NoOddDivisorBelow(n, d + 2)
  {
  }

  lemma HasDivisor(n: int, d: int)
    requires 1 < d < n && n % d == 0
    ensures !IsPrime(n)
  {
  }

  lemma ThreeIsPrime()
    ensures IsPrime(2) && IsPrime(3)
  {
  }

  /** An even number above 2 is not prime. */
  lemma EvenIsComposite(n: nat)
    requires n > 2 && n % 2 == 0
    ensures !IsPrime(n)
  {
    assert 1 < 2 < n;
  }

  /** `p` is the greatest prime not above `bound`, or 0 when there is none. */
  ghost predicate LargestPrime(bound: int, p: int) {
    && (p == 0 || (IsPrime(p) && p <= bound))
    && (forall q :: p < q <= bound ==> !IsPrime(q))
  }

  lemma LargestPrimeExists(bound: int, p: int)
    requires bound >= 2 && LargestPrime(bound, p)
    ensures IsPrime(p)
  {
    assert IsPrime(2);
  }

  /** ethash_find_largest_prime */
  method FindLargestPrime(upperBound: int) returns (p: int)
    requires upperBound <= INT_MAX
    ensures LargestPrime(upperBound, p)
  {
    hide IsPrime;
    NoPrimeBelowTwo();
    var n := upperBound;
    if n < 2 {
      return 0;
    }
    ThreeIsPrime();
    if n == 2 {
      return 2;
    }
    if n % 2 == 0 {
      EvenIsComposite(n);
      n := n - 1;
    }
    var prime := IsOddPrime(n);
    while !prime
      invariant 3 <= n <= upperBound && n % 2 == 1 && (prime <==> IsPrime(n))
      invariant forall q :: n < q <= upperBound ==> !IsPrime(q)
      decreases n, !prime
    {
      EvenIsComposite(n - 1);
      n := n - 2;
      prime := IsOddPrime(n);
    }
    return n;
  }

  lemma NoPrimeBelowTwo()
    ensures forall q :: q < 2 ==> !IsPrime(q)
  {
  }

  // Item counts

  /** The upper bounds handed to the prime search, in items. */
  function LightBound(epoch: int): int {
    0x100_0000 / 64 + epoch * (0x2_0000 / 64)
  }

  function FullBound(epoch: int): int {
    0x4000_0000 / 128 + epoch * (0x80_0000 / 128)
  }

  /** The bounds in bytes: 16 MiB and 128 KiB more per epoch in items of 64 bytes, 1 GiB and 8 MiB more per epoch in
      items of 128 bytes. */
  lemma BoundsInBytes(epoch: int)
    ensures 64 * LightBound(epoch) == 0x100_0000 + epoch * 0x2_0000
    ensures 128 * FullBound(epoch) == 0x4000_0000 + epoch * 0x80_0000
  {
  }

  /** Exactly up to epoch 32639 the arithmetic of both counts stays within `int`. */
  lemma CountsFit(epoch: nat)
    ensures LightBound(epoch) <= INT_MAX && FullBound(epoch) <= INT_MAX <==> epoch <= 32639
  {
  }

  method LightCacheNumItems(epoch: int) returns (n: int)
    requires -0x10_0000 <= epoch && LightBound(epoch) <= INT_MAX
    ensures LargestPrime(LightBound(epoch), n)
  {
    var numItemsInit, numItemsGrowth := 0x100_0000 / 64, 0x2_0000 / 64;
    n := FindLargestPrime(numItemsInit + epoch * numItemsGrowth);
  }

  method FullDatasetNumItems(epoch: int) returns (n: int)
    requires -0x8000 <= epoch && FullBound(epoch) <= INT_MAX
    ensures LargestPrime(FullBound(epoch), n)
  {
    var numItemsInit, numItemsGrowth := 0x4000_0000 / 128, 0x80_0000 / 128;
    n := FindLargestPrime(numItemsInit + epoch * numItemsGrowth);
  }

  /** Both counts never decrease in the epoch, and are primes from epoch 0 on. */
  lemma CountsGrow(e: int, f: int, ne: int, nf: int)
    requires e <= f
    ensures LargestPrime(LightBound(e), ne) && LargestPrime(LightBound(f), nf) ==> ne <= nf && (e >= 0 ==> IsPrime(ne))
    ensures LargestPrime(FullBound(e), ne) && LargestPrime(FullBound(f), nf) ==> ne <= nf && (e >= 0 ==> IsPrime(ne))
  {
    hide IsPrime, LargestPrime;
    if LargestPrime(LightBound(e), ne) && LargestPrime(LightBound(f), nf) {
      Grows(LightBound(e), LightBound(f), ne, nf);
    }
    if LargestPrime(FullBound(e), ne) && LargestPrime(FullBound(f), nf) {
      Grows(FullBound(e), FullBound(f), ne, nf);
    }
  }

  lemma Grows(b: int, c: int, p: int, q: int)
    requires b <= c && LargestPrime(b, p) && LargestPrime(c, q)
    ensures p <= q && (b >= 2 ==> IsPrime(p))
  {
    hide IsPrime;
    if b >= 2 {
      LargestPrimeExists(b, p);
    }
    NoPrimeBelowTwo();
    assert p > 0 ==> IsPrime(p) && p <= c;
    assert q == 0 || IsPrime(q);
  }
}
