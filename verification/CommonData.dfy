/** The conversions of CommonData.h: big-endian byte strings, and 64-bit words in hexadecimal. */
module CommonData {

  // Products, one law at a time

  lemma Distribute(a: int, b: int, c: int)
    ensures a * (b + c) == a * b + a * c
  {
  }

  lemma Reassociate(a: int, b: int, c: int)
    ensures a * (b * c) == (a * b) * c == b * (a * c)
  {
  }

  lemma Grow(c: nat, a: int, b: int)
    requires a <= b
    ensures c * a <= c * b
  {
  }

  /** Quotient and remainder are what they are written as. */
  lemma Remainder(q: nat, m: nat, r: nat)
    requires r < m
    ensures (q * m + r) % m == r && (q * m + r) / m == q
  {
    var x := q * m + r;
    SameDigit(m, x / m, x % m, q, r);
  }

  lemma SameDigit(b: nat, x: nat, r: nat, y: nat, q: nat)
    requires r < b && q < b && b * x + r == b * y + q
    ensures x == y && r == q
  {
    if x < y {
      Grow(b, x + 1, y);
    } else if y < x {
      Grow(b, y + 1, x);
    }
  }

  lemma Congruent(a: nat, q: nat, m: nat)
    requires m > 0
    ensures (a + q * m) % m == a % m
  {
    Distribute(m, a / m, q);
    Remainder(a / m + q, m, a % m);
  }

  function Power(b: nat, n: nat): (p: nat)
    ensures b > 0 ==> p > 0
  {
    if n == 0 then 1 else b * Power(b, n - 1)
  }

  lemma {:induction false} PowerAdd(b: nat, m: nat, n: nat)
    ensures Power(b, m + n) == Power(b, m) * Power(b, n)
  {
    if m == 0 {
    } else {
      PowerAdd(b, m - 1, n);
      Reassociate(b, Power(b, m - 1), Power(b, n));
    }
  }

  // Positional notation: the value of digits in base b, most significant first

  predicate Digits(b: nat, s: seq<nat>) {
    forall i :: 0 <= i < |s| ==> s[i] < b
  }

  function Value(b: nat, s: seq<nat>): nat {
    if s == [] then 0 else b * Value(b, s[..|s| - 1]) + s[|s| - 1]
  }

  lemma {:induction false} ValueBound(b: nat, s: seq<nat>)
    requires Digits(b, s)
    ensures Value(b, s) < Power(b, |s|)
    decreases |s|
  {
    if s == [] {
    } else {
      var t := s[..|s| - 1];
      ValueBound(b, t);
      Grow(b, Value(b, t) + 1, Power(b, |t|));
      Distribute(b, Value(b, t), 1);
    }
  }

  lemma {:induction false} ValueAppend(b: nat, s: seq<nat>, t: seq<nat>)
    ensures Value(b, s + t) == Value(b, s) * Power(b, |t|) + Value(b, t)
    decreases |t|
  {
    if t == [] {
      assert s + t == s;
    } else {
      var u := t[..|t| - 1];
      assert (s + t)[..|s + t| - 1] == s + u;
      ValueAppend(b, s, u);
      Distribute(b, Value(b, s) * Power(b, |u|), Value(b, u));
      Reassociate(b, Value(b, s), Power(b, |u|));
    }
  }

  lemma {:induction false} ValueInjective(b: nat, s: seq<nat>, t: seq<nat>)
    requires Digits(b, s) && Digits(b, t) && |s| == |t| && Value(b, s) == Value(b, t)
    ensures s == t
    decreases |s|
  {
    if s == [] {
    } else {
      var n := |s| - 1;
      SameDigit(b, Value(b, s[..n]), s[n], Value(b, t[..n]), t[n]);
      ValueInjective(b, s[..n], t[..n]);
      assert s == s[..n] + [s[n]] && t == t[..n] + [t[n]];
    }
  }

  lemma {:induction false} ZeroValue(b: nat, n: nat)
    ensures Value(b, seq(n, _ => 0)) == 0
  {
    if n == 0 {
    } else {
      assert seq(n, _ => 0)[..n - 1] == seq(n - 1, _ => 0);
      ZeroValue(b, n - 1);
    }
  }

  // Big-endian bytes

  /** Fills the buffer, from its last byte back, with the low bytes of the value. */
  method ToBigEndian(val: nat, out: array<nat>)
    modifies out
    ensures Digits(256, out[..])
    ensures Value(256, out[..]) == val % Power(256, out.Length)
  {
    var v, i := val, out.Length;
    assert out[i..] == [];
    while i != 0
      invariant 0 <= i <= out.Length && v >= 0
      invariant Digits(256, out[i..])
      invariant val == v * Power(256, out.Length - i) + Value(256, out[i..])
    {
      out[i - 1] := v % 256;
      ghost var rest := out[i..];
      assert out[i - 1..] == [v % 256] + rest;
      LeadingByte(v, rest);
      v := v / 256;
      i := i - 1;
    }
    assert out[0..] == out[..];
    ValueBound(256, out[..]);
    Remainder(v, Power(256, out.Length), Value(256, out[..]));
  }

  lemma LeadingByte(v: nat, rest: seq<nat>)
    ensures v * Power(256, |rest|) + Value(256, rest)
         == v / 256 * Power(256, |rest| + 1) + Value(256, [v % 256] + rest)
  {
    ValueAppend(256, [v % 256], rest);
    assert Value(256, [v % 256]) == v % 256;
    assert Power(256, |rest| + 1) == 256 * Power(256, |rest|);
    CarryByte(v, Power(256, |rest|));
  }

  lemma CarryByte(v: nat, p: nat)
    ensures v * p == v / 256 * (256 * p) + v % 256 * p
  {
    var q, r := v / 256, v % 256;
    assert v == 256 * q + r;
    Distribute(p, 256 * q, r);
    Reassociate(p, 256, q);
    Reassociate(q, 256, p);
  }

  /** Accumulates the bytes in a word of the given number of bytes. */
  method FromBigEndian(bytes: seq<nat>, width: nat) returns (ret: nat)
    requires Digits(256, bytes)
    ensures ret == Value(256, bytes) % Power(256, width)
  {
    ret := 0;
    for i := 0 to |bytes|
      invariant ret == Value(256, bytes[..i]) % Power(256, width)
    {
      assert bytes[..i + 1][..i] == bytes[..i];
      Accumulate(Value(256, bytes[..i]), bytes[i], Power(256, width));
      ret := (256 * ret + bytes[i]) % Power(256, width);
    }
    assert bytes[..|bytes|] == bytes;
  }

  lemma Accumulate(x: nat, d: nat, m: nat)
    requires m > 0
    ensures (256 * (x % m) + d) % m == (256 * x + d) % m
  {
    var q := x / m;
    Reassociate(256, q, m);
    Congruent(256 * (x % m) + d, 256 * q, m);
  }

  /** Writing a value into a buffer and reading it back into a word gives the value exactly when it fits both. */
  method RoundTrip(val: nat, size: nat, width: nat) returns (back: nat)
    ensures back == val <==> val < Power(256, size) && val < Power(256, width)
  {
    var out := new nat[size];
    ToBigEndian(val, out);
    ValueBound(256, out[..]);
    back := FromBigEndian(out[..], width);
    Fits(val, Power(256, size), Power(256, width));
  }

  lemma Fits(v: nat, m: nat, n: nat)
    requires m > 0 && n > 0
    ensures v % m % n == v <==> v < m && v < n
  {
    if v < m {
      Remainder(0, m, v);
      if v < n {
        Remainder(0, n, v);
      }
    }
  }

  // Hexadecimal

  predicate IsHex(c: char) {
    '0' <= c <= '9' || 'a' <= c <= 'f' || 'A' <= c <= 'F'
  }

  predicate AllHex(s: string) {
    forall i :: 0 <= i < |s| ==> IsHex(s[i])
  }

  function DigitOf(c: char): (d: nat)
    requires IsHex(c)
    ensures d < 16
  {
    if c <= '9' then (c - '0') as nat else if c <= 'F' then (c - 'A') as nat + 10 else (c - 'a') as nat + 10
  }

  /** The value of a digit is its place in the list of digits, in either case. */
  lemma DigitTable(d: nat)
    requires d < 16
    ensures var lower, upper := "0123456789abcdef", "0123456789ABCDEF";
            IsHex(lower[d]) && IsHex(upper[d]) && DigitOf(lower[d]) == DigitOf(upper[d]) == d
  {
  }

  function DigitsOf(s: string): (d: seq<nat>)
    requires AllHex(s)
    ensures |d| == |s| && Digits(16, d)
    ensures forall i :: 0 <= i < |s| ==> d[i] == DigitOf(s[i])
  {
    seq(|s|, i requires 0 <= i < |s| => DigitOf(s[i]))
  }

  /** strtoull and stoull in base 16, on digits alone and without overflow. */
  function ParseHex(s: string): nat
    requires AllHex(s)
  {
    Value(16, DigitsOf(s))
  }

  function HexChar(d: nat): (c: char)
    requires d < 16
    ensures IsHex(c) && DigitOf(c) == d
  {
    if d < 10 then '0' + d as char else 'a' + (d - 10) as char
  }

  /** A number as a stream prints it in base 16. */
  function Printed(n: nat): (s: string)
    ensures AllHex(s) && |s| > 0
  {
    if n < 16 then [HexChar(n)] else Printed(n / 16) + [HexChar(n % 16)]
  }

  function Zeros(n: nat): (s: string)
    ensures |s| == n && AllHex(s)
  {
    seq(n, _ => '0')
  }

  /** Fill with zeros on the left up to the width. */
  function ToHex(n: nat): (s: string)
    ensures AllHex(s)
  {
    var p := Printed(n);
    if |p| < 16 then Zeros(16 - |p|) + p else p
  }

  lemma DigitsOfAppend(s: string, t: string)
    requires AllHex(s) && AllHex(t)
    ensures AllHex(s + t) && DigitsOf(s + t) == DigitsOf(s) + DigitsOf(t)
  {
  }

  lemma ParseAppend(s: string, t: string)
    requires AllHex(s) && AllHex(t)
    ensures AllHex(s + t) && ParseHex(s + t) == ParseHex(s) * Power(16, |t|) + ParseHex(t)
    ensures ParseHex(t) < Power(16, |t|)
  {
    DigitsOfAppend(s, t);
    ValueAppend(16, DigitsOf(s), DigitsOf(t));
    ValueBound(16, DigitsOf(t));
  }

  lemma ParseOne(c: char)
    requires IsHex(c)
    ensures ParseHex([c]) == DigitOf(c)
  {
    var d := DigitsOf([c]);
    assert d == [DigitOf(c)];
    assert d[..0] == [] && Value(16, d[..0]) == 0;
  }

  lemma ParseZeros(n: nat)
    ensures ParseHex(Zeros(n)) == 0
  {
    assert DigitsOf(Zeros(n)) == seq(n, _ => 0);
    ZeroValue(16, n);
  }

  /** Printing is undone by parsing, and is as short as it can be. */
  lemma {:induction false} PrintedParses(n: nat, width: nat)
    requires n < Power(16, width) && width > 0
    ensures ParseHex(Printed(n)) == n && |Printed(n)| <= width
    decreases n
  {
    if n < 16 {
      ParseOne(HexChar(n));
    } else {
      assert width > 1 by { assert Power(16, 1) == 16; }
      PrintedParses(n / 16, width - 1);
      ParseAppend(Printed(n / 16), [HexChar(n % 16)]);
      ParseOne(HexChar(n % 16));
      assert Power(16, 1) == 16;
    }
  }

  /** A 64-bit word has 16 digits that parse to it. */
  lemma HexRoundTrip(n: nat)
    requires n < Power(16, 16)
    ensures |ToHex(n)| == 16 && ParseHex(ToHex(n)) == n
  {
    hide Power;
    PrintedParses(n, 16);
    var pad := 16 - |Printed(n)|;
    if pad > 0 {
      ParseAppend(Zeros(pad), Printed(n));
      ParseZeros(pad);
    }
  }
}
