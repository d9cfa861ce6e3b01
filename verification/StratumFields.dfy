/** The fields of a stratum message as text, and the conversions that may throw on them. */
module StratumFields {
  import opened CommonData
  import opened Prelude
  import Characters = StratumLines

  /** A JSON value that asString turns into text, or one that makes it throw. */
  datatype Field = Text(text: string) | NotText

  /** A member of the message: absent, not an array, or an array. */
  datatype Json = Missing | Scalar | Array(fields: seq<Field>)

  /** get(k, ""): elements that are not there read as empty text. */
  function FieldAt(fields: seq<Field>, k: nat): Field {
    if k < |fields| then fields[k] else Text("")
  }

  // Hashes

  /** The digits after an optional 0x. */
  function Stripped(s: string): string {
    if |s| >= 2 && s[0] == '0' && s[1] == 'x' then s[2..] else s
  }

  /** fromHex does not throw. */
  predicate IsHash(s: string) {
    AllHex(Stripped(s))
  }

  /** The hash that a text stands for: zero unless it spells exactly 32 bytes. */
  function HashOf(s: string): nat
    requires IsHash(s)
  {
    var digits := Stripped(s);
    if |digits| == 63 || |digits| == 64 then ParseHex(digits) else 0
  }

  /** The bytes spell the first n digits. */
  predicate Spells(bytes: seq<nat>, digits: string, n: nat)
    requires n <= |digits|
  {
    && AllHex(digits[..n]) && |bytes| == (n + 1) / 2 && Digits(256, bytes)
    && Value(256, bytes) == ParseHex(digits[..n])
  }

  lemma SpellsNothing(digits: string)
    ensures Spells([], digits, 0)
  {
    assert digits[..0] == "";
    NothingRead();
  }

  lemma SpellsOne(digits: string)
    requires digits != "" && IsHex(digits[0])
    ensures Spells([DigitOf(digits[0])], digits, 1)
  {
    hide ParseHex, Value;
    assert digits[..1] == [digits[0]];
    OneDigit(digits[0]);
  }

  lemma SpellsTwo(bytes: seq<nat>, digits: string, n: nat)
    requires n + 2 <= |digits| && Spells(bytes, digits, n) && IsHex(digits[n]) && IsHex(digits[n + 1])
    ensures Spells(bytes + [16 * DigitOf(digits[n]) + DigitOf(digits[n + 1])], digits, n + 2)
  {
    hide ParseHex, Value, DigitOf;
    assert digits[..n + 2] == digits[..n] + [digits[n], digits[n + 1]];
    TwoDigits(digits[..n], digits[n], digits[n + 1], bytes);
  }

  /** fromHex, which takes an odd first digit as a byte of its own and the rest in pairs. */
  method FromHex(s: string) returns (r: Option<seq<nat>>)
    ensures r.Some? <==> IsHash(s)
    ensures r.Some? ==> |r.value| == (|Stripped(s)| + 1) / 2 && Digits(256, r.value)
    ensures r.Some? ==> Value(256, r.value) == ParseHex(Stripped(s))
  {
    hide ParseHex, Value, Spells, DigitOf, IsHex;
    var digits := Stripped(s);
    var bytes: seq<nat> := [];
    SpellsNothing(digits);
    if |digits| % 2 == 1 {
      if !IsHex(digits[0]) {
        return None;
      }
      SpellsOne(digits);
      bytes := [DigitOf(digits[0])];
    }
    r := Pairs(digits, bytes, |digits| % 2);
    if r.Some? {
      SpellsAll(r.value, digits);
    }
  }

  /** The loop over pairs of digits. */
  method Pairs(digits: string, start: seq<nat>, from: nat) returns (r: Option<seq<nat>>)
    requires from <= |digits| && (|digits| - from) % 2 == 0 && Spells(start, digits, from)
    ensures r.None? ==> !AllHex(digits)
    ensures r.Some? ==> Spells(r.value, digits, |digits|)
  {
    hide ParseHex, Value, Spells, DigitOf, IsHex;
    var bytes: seq<nat> := start;
    var i := from;
    while i < |digits|
      invariant from <= i <= |digits| && (|digits| - i) % 2 == 0
      invariant Spells(bytes, digits, i)
    {
      if !IsHex(digits[i]) || !IsHex(digits[i + 1]) {
        return None;
      }
      SpellsTwo(bytes, digits, i);
      bytes := bytes + [16 * DigitOf(digits[i]) + DigitOf(digits[i + 1])];
      i := i + 2;
    }
    return Some(bytes);
  }

  lemma SpellsAll(bytes: seq<nat>, digits: string)
    requires Spells(bytes, digits, |digits|)
    ensures AllHex(digits) && |bytes| == (|digits| + 1) / 2 && Digits(256, bytes)
    ensures Value(256, bytes) == ParseHex(digits)
  {
    hide ParseHex, Value;
    assert digits[..|digits|] == digits;
  }

  lemma NothingRead()
    ensures Value(256, []) == 0 == ParseHex("")
  {
    assert DigitsOf("") == [];
  }

  lemma OneDigit(c: char)
    requires IsHex(c)
    ensures Value(256, [DigitOf(c)]) == ParseHex([c])
  {
    ParseOne(c);
    assert [DigitOf(c)][..0] == [];
  }

  lemma TwoDigits(read: string, high: char, low: char, bytes: seq<nat>)
    requires AllHex(read) && IsHex(high) && IsHex(low) && Value(256, bytes) == ParseHex(read)
    ensures AllHex(read + [high, low])
    ensures Value(256, bytes + [16 * DigitOf(high) + DigitOf(low)]) == ParseHex(read + [high, low])
  {
    hide ParseHex, DigitOf;
    var b := 16 * DigitOf(high) + DigitOf(low);
    assert (bytes + [b])[..|bytes|] == bytes;
    ParseAppend(read, [high]);
    ParseAppend(read + [high], [low]);
    ParseOne(high);
    ParseOne(low);
    assert Power(16, 1) == 16;
    assert read + [high, low] == (read + [high]) + [low];
  }

  /** The constructor of a 256-bit hash from text: throws, or gives the hash. */
  method ToHash(s: string) returns (r: Option<nat>)
    ensures r == if IsHash(s) then Some(HashOf(s)) else None
  {
    var bytes := FromHex(s);
    if bytes.None? {
      return None;
    }
    if |bytes.value| == 32 {
      r := Some(Value(256, bytes.value));
    } else {
      r := Some(0);
    }
  }

  // Numbers

  function SkipSpace(s: string): string {
    if s != "" && Characters.IsSpace(s[0]) then SkipSpace(s[1..]) else s
  }

  /** The longest prefix of hexadecimal digits. */
  function HexPrefix(s: string): (t: string)
    ensures AllHex(t) && t <= s && (|t| < |s| ==> !IsHex(s[|t|]))
  {
    if s == "" || !IsHex(s[0]) then "" else [s[0]] + HexPrefix(s[1..])
  }

  predicate Negative(s: string) {
    var t := SkipSpace(s);
    t != "" && t[0] == '-'
  }

  /** The number after space, sign and 0x, as the C library reads it in base 16; None without a digit. */
  function Magnitude(s: string): Option<nat> {
    var t := SkipSpace(s);
    var u := if t != "" && (t[0] == '-' || t[0] == '+') then t[1..] else t;
    var v := if |u| > 2 && u[0] == '0' && (u[1] == 'x' || u[1] == 'X') && IsHex(u[2]) then u[2..] else u;
    var digits := HexPrefix(v);
    if digits == "" then None else Some(ParseHex(digits))
  }

  /** stoul and stoull with 64-bit results; None where they throw. */
  function Stoul(s: string): Option<nat> {
    var m := Magnitude(s);
    if m.None? || m.value >= TWO_64 then None
    else Some(if Negative(s) then (TWO_64 - m.value) % TWO_64 else m.value)
  }

  /** stoi does not throw. */
  predicate IsInt(s: string) {
    var m := Magnitude(s);
    m.Some? && m.value <= if Negative(s) then 0x8000_0000 else 0x7fff_ffff
  }

  /** Conversion to a 32-bit int. */
  function ToInt(v: nat): int {
    var w := v % TWO_32;
    if w < 0x8000_0000 then w else w - TWO_32
  }

  lemma {:induction false} AllPrefix(s: string)
    requires AllHex(s)
    ensures HexPrefix(s) == s
    decreases |s|
  {
    if s == "" {
    } else {
      AllPrefix(s[1..]);
    }
  }

  /** On digits alone the library reads what ParseHex says. */
  lemma StoulDigits(s: string)
    requires AllHex(s) && 0 < |s| <= 16
    ensures Stoul(s) == Some(ParseHex(s))
  {
    hide ParseHex, Magnitude, Negative;
    MagnitudeDigits(s);
    ParseAppend("", s);
    assert "" + s == s;
    SixteenDigits(|s|);
  }

  lemma MagnitudeDigits(s: string)
    requires AllHex(s) && s != ""
    ensures Magnitude(s) == Some(ParseHex(s)) && !Negative(s)
  {
    hide ParseHex, HexPrefix;
    assert IsHex(s[0]) && !Characters.IsSpace(s[0]);
    assert |s| > 1 ==> IsHex(s[1]);
    AllPrefix(s);
  }

  /** Any number of digits: a number within the range of the type, or none. */
  lemma Ranges(s: string)
    requires AllHex(s) && s != ""
    ensures Stoul(s) == if ParseHex(s) < TWO_64 then Some(ParseHex(s)) else None
    ensures IsInt(s) <==> ParseHex(s) <= 0x7fff_ffff
    ensures IsInt("-" + s) <==> ParseHex(s) <= 0x8000_0000
  {
    hide ParseHex, Magnitude, Negative;
    MagnitudeDigits(s);
    Signed(s, '-');
  }

  /** No digits at all are a hash, of value zero. */
  lemma EmptyHash()
    ensures IsHash("") && IsHash("0x") && HashOf("") == HashOf("0x") == 0
  {
  }

  /** Leading space is skipped, 0x or 0X before digits changes nothing, and a minus sign negates modulo 2^64. */
  lemma StoulDecorated(digits: string)
    requires AllHex(digits) && 0 < |digits| <= 16
    ensures Stoul("0x" + digits) == Stoul("0X" + digits) == Stoul("+" + digits) == Some(ParseHex(digits))
    ensures Stoul("-" + digits) == Some((TWO_64 - ParseHex(digits)) % TWO_64)
  {
    hide ParseHex, Magnitude, Negative;
    StoulDigits(digits);
    ParseAppend("", digits);
    assert "" + digits == digits;
    SixteenDigits(|digits|);
    Prefixed(digits, 'x');
    Prefixed(digits, 'X');
    Signed(digits, '+');
    Signed(digits, '-');
  }

  lemma Prefixed(digits: string, x: char)
    requires AllHex(digits) && digits != "" && (x == 'x' || x == 'X')
    ensures Magnitude(['0', x] + digits) == Some(ParseHex(digits)) && !Negative(['0', x] + digits)
  {
    hide ParseHex, HexPrefix;
    var s := ['0', x] + digits;
    assert SkipSpace(s) == s && s[2..] == digits && IsHex(s[2]);
    AllPrefix(digits);
  }

  lemma Signed(digits: string, c: char)
    requires AllHex(digits) && digits != "" && (c == '+' || c == '-')
    ensures Magnitude([c] + digits) == Some(ParseHex(digits)) && (Negative([c] + digits) <==> c == '-')
  {
    hide ParseHex, HexPrefix;
    var s := [c] + digits;
    assert SkipSpace(s) == s && s[1..] == digits;
    assert |digits| > 1 ==> IsHex(digits[1]);
    AllPrefix(digits);
  }

  lemma SpaceSkipped(c: char, s: string)
    requires Characters.IsSpace(c)
    ensures Stoul([c] + s) == Stoul(s) && (IsInt([c] + s) <==> IsInt(s))
  {
    hide ParseHex, HexPrefix;
    assert ([c] + s)[1..] == s;
  }

  /** Text that does not begin with a number is none. */
  lemma NoNumber(s: string)
    requires s == "" || !(IsHex(s[0]) || Characters.IsSpace(s[0]) || s[0] == '+' || s[0] == '-')
    ensures Stoul(s).None? && !IsInt(s)
  {
  }

  /** Conversion to int keeps the value modulo 2^32. */
  lemma ToIntIs(v: nat)
    ensures -0x8000_0000 <= ToInt(v) < 0x8000_0000 && (v - ToInt(v)) % TWO_32 == 0
  {
  }

  lemma SixteenDigits(n: nat)
    requires n <= 16
    ensures Power(16, n) <= TWO_64
  {
    hide Power;
    PowerAdd(16, n, 16 - n);
    Grow(Power(16, n), 1, Power(16, 16 - n));
    Sixteen();
  }

  lemma Sixteen()
    ensures Power(16, 16) == TWO_64
  {
    assert Power(16, 4) == 0x1_0000;
    PowerAdd(16, 4, 4);
    PowerAdd(16, 8, 8);
  }
}
