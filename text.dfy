/**
 * The pieces of java.lang.String and java.lang.Integer behaviour that the inspector
 * server's output depends on: decimal rendering of an int (string concatenation),
 * Integer.toHexString, String.indexOf(char), String.contains and
 * String.equalsIgnoreCase. Each rendering comes with a parser that undoes it, so that
 * the round trip states that nothing is lost.
 */
module Text {
  import opened Wrappers

  /** A Java `int`. */
  type int32 = x: int | -0x8000_0000 <= x < 0x8000_0000

  const TWO_32: nat := 0x1_0000_0000

  // ---------------------------------------------------------------------------
  // Digits in base 2..16, lower-case letters, no leading zeros.

  function DigitChar(d: nat): (c: char)
    requires d < 16
  {
    if d < 10 then ('0' as int + d) as char else ('a' as int + d - 10) as char
  }

  /** The value of a lower-case hexadecimal digit, or -1 for any other character. */
  function DigitValue(c: char): int {
    if '0' <= c <= '9' then c as int - '0' as int
    else if 'a' <= c <= 'f' then c as int - 'a' as int + 10
    else -1
  }

  ghost predicate AllDigits(s: string, base: nat) {
    forall i :: 0 <= i < |s| ==> 0 <= DigitValue(s[i]) < base
  }

  /** `n` written in `base` with the most significant digit first and no leading zero. */
  function ToBase(n: nat, base: nat): (r: string)
    requires 2 <= base <= 16
    ensures |r| >= 1 && AllDigits(r, base)
    ensures r[0] == '0' ==> n == 0 && r == "0"
    decreases n
  {
    if n < base then [DigitChar(n)]
    else
      DivMod(n, base);
      ToBase(n / base, base) + [DigitChar(n % base)]
  }

  lemma DivMod(n: nat, base: nat)
    requires 2 <= base <= n
    ensures 0 < n / base < n && n % base < base
  {
    var q, r := n / base, n % base;
    assert q * base + r == n && r < base;
    AtLeastDouble(q, base);
  }

  lemma {:induction false} AtLeastDouble(q: nat, base: nat)
    requires base >= 2
    ensures q * base >= 2 * q
  {
    if q > 0 {
      AtLeastDouble(q - 1, base);
      assert q * base == (q - 1) * base + base;
    }
  }

  /** The value of a string of digits in `base`. */
  function FromBase(s: string, base: nat): nat
    requires AllDigits(s, base)
  {
    if s == [] then 0 else FromBase(s[..|s| - 1], base) * base + DigitValue(s[|s| - 1])
  }

  lemma {:induction false} FromBaseToBase(n: nat, base: nat)
    requires 2 <= base <= 16
    ensures FromBase(ToBase(n, base), base) == n
    decreases n
  {
    var r := ToBase(n, base);
    if n >= base {
      DivMod(n, base);
      var q, d := n / base, n % base;
      FromBaseToBase(q, base);
      var front := ToBase(q, base);
      assert r == front + [DigitChar(d)];
      FromBaseSnoc(front, d, base);
      Recombine(n, base);
    } else {
      assert DigitValue(DigitChar(n)) == n;
    }
  }

  lemma Recombine(n: nat, base: nat)
    requires base > 0
    ensures (n / base) * base + n % base == n
  {}

  lemma FromBaseSnoc(front: string, d: nat, base: nat)
    requires 2 <= base <= 16 && d < base && AllDigits(front, base)
    ensures AllDigits(front + [DigitChar(d)], base)
    ensures FromBase(front + [DigitChar(d)], base) == FromBase(front, base) * base + d
  {
    var r := front + [DigitChar(d)];
    assert r[..|r| - 1] == front;
  }

  /** Below `base^k`, the rendering takes at most `k` digits. */
  lemma {:induction false} ToBaseLength(n: nat, base: nat, k: nat)
    requires 2 <= base <= 16 && k >= 1
    requires n < Power(base, k)
    ensures |ToBase(n, base)| <= k
    decreases k
  {
    if n >= base {
      assert k > 0;
      DivMod(n, base);
      DivBelow(n, base, Power(base, k - 1));
      ToBaseLength(n / base, base, k - 1);
    }
  }

  lemma DivBelow(n: nat, base: nat, p: nat)
    requires 2 <= base && n < base * p
    ensures n / base < p
  {
    var q := n / base;
    assert q * base <= n;
    MulMonotone(p, q, base);
  }

  lemma MulMonotone(p: nat, q: nat, m: nat)
    ensures p <= q ==> p * m <= q * m
  {}

  function Power(b: nat, k: nat): nat {
    if k == 0 then 1 else b * Power(b, k - 1)
  }

  // ---------------------------------------------------------------------------
  // Integer.toString and Integer.toHexString

  /** Java's decimal rendering of an int, as string concatenation produces it. */
  function IntToString(n: int): (r: string)
    ensures |r| >= 1
    ensures n < 0 <==> r[0] == '-'
    ensures forall i :: 0 <= i < |r| ==> r[i] == '-' || '0' <= r[i] <= '9'
    ensures forall i :: 1 <= i < |r| ==> '0' <= r[i] <= '9'
    ensures r[0] == '0' ==> r == "0"
    ensures |r| >= 2 && r[0] == '-' ==> r[1] != '0'
  {
    if n < 0 then "-" + ToBase(-n, 10) else ToBase(n, 10)
  }

  /** Reads back an optionally negative decimal numeral; the partner of IntToString. */
  function ParseInt(s: string): Option<int> {
    if |s| >= 2 && s[0] == '-' && AllDigitsFn(s[1..], 10) then
      var magnitude: int := FromBase(s[1..], 10); Some(-magnitude)
    else if |s| >= 1 && AllDigitsFn(s, 10) then Some(FromBase(s, 10))
    else None
  }

  predicate AllDigitsFn(s: string, base: nat)
    ensures AllDigitsFn(s, base) <==> AllDigits(s, base)
  {
    forall i | 0 <= i < |s| :: 0 <= DigitValue(s[i]) < base
  }

  lemma IntToStringRoundTrip(n: int)
    ensures ParseInt(IntToString(n)) == Some(n)
  {
    if n < 0 {
      NegativeRoundTrip(-n);
    } else {
      var digits := ToBase(n, 10);
      assert AllDigitsFn(digits, 10);
      FromBaseToBase(n, 10);
    }
  }

  lemma NegativeRoundTrip(m: nat)
    requires m > 0
    ensures ParseInt("-" + ToBase(m, 10)) == Some(-(m as int))
  {
    var digits := ToBase(m, 10);
    var s := "-" + digits;
    assert s[1..] == digits;
    assert AllDigitsFn(digits, 10);
    FromBaseToBase(m, 10);
  }

  /** The unsigned reading of a Java int's 32 bits. */
  function Unsigned(n: int32): (u: nat)
    ensures u < TWO_32
    ensures n >= 0 ==> u == n
    ensures n < 0 ==> u == n + TWO_32
  {
    n % TWO_32
  }

  /** Integer.toHexString: the unsigned value of the 32 bits, lower case, no padding. */
  function HexString(n: int32): (r: string)
    ensures 1 <= |r| <= 8
    ensures AllDigits(r, 16)
    ensures r[0] == '0' ==> r == "0" && n == 0
  {
    ToBaseLength(Unsigned(n), 16, 8);
    ToBase(Unsigned(n), 16)
  }

  /** Reads back a hexadecimal string of at most eight digits as the Java int it came from. */
  function ParseHex(s: string): Option<int32> {
    if 1 <= |s| <= 8 && AllDigitsFn(s, 16) then
      var u := FromBase(s, 16);
      if u < TWO_32 then Some(if u >= 0x8000_0000 then u - TWO_32 else u) else None
    else None
  }

  lemma HexStringRoundTrip(n: int32)
    ensures ParseHex(HexString(n)) == Some(n)
  {
    FromBaseToBase(Unsigned(n), 16);
  }

  // ---------------------------------------------------------------------------
  // String.indexOf(char), String.contains

  /** String.indexOf(char): the first index of `c` in `s`, or -1. */
  function IndexOf(s: string, c: char): (r: int)
    ensures r == -1 <==> c !in s
    ensures r != -1 ==> 0 <= r < |s| && s[r] == c && c !in s[..r]
  {
    if s == [] then -1
    else if s[0] == c then 0
    else
      var k := IndexOf(s[1..], c);
      if k == -1 then -1
      else
        assert s[..k + 1] == [s[0]] + s[1..][..k];
        k + 1
  }

  /** String.contains, written as a scan from the left. */
  predicate Contains(s: string, sub: string)
    decreases |s|
  {
    |sub| <= |s| && (s[..|sub|] == sub || Contains(s[1..], sub))
  }

  lemma {:induction false} ContainsIffOccurs(s: string, sub: string)
    ensures Contains(s, sub) <==> exists i :: OccursAt(s, sub, i)
    decreases |s|
  {
    if |sub| <= |s| {
      if s[..|sub|] == sub {
        assert OccursAt(s, sub, 0);
      } else {
        ContainsIffOccurs(s[1..], sub);
        if exists i :: OccursAt(s, sub, i) {
          var i :| OccursAt(s, sub, i);
          assert i != 0;
          assert s[1..][i - 1..i - 1 + |sub|] == s[i..i + |sub|];
          assert OccursAt(s[1..], sub, i - 1);
        }
        if Contains(s[1..], sub) {
          var j :| OccursAt(s[1..], sub, j);
          assert s[1..][j..j + |sub|] == s[j + 1..j + 1 + |sub|];
          assert OccursAt(s, sub, j + 1);
        }
      }
    }
  }

  /** `sub` occurs in `s` starting at index `i`. */
  ghost predicate OccursAt(s: string, sub: string, i: int) {
    0 <= i <= |s| - |sub| && s[i..i + |sub|] == sub
  }

  // ---------------------------------------------------------------------------
  // String.equalsIgnoreCase

  /**
   * Character.toUpperCase for the characters whose upper case is an ASCII letter:
   * ASCII lower case, dotless i (U+0131) and long s (U+017F). Every other character
   * is left as it is.
   */
  function ToUpper(c: char): char {
    if 'a' <= c <= 'z' then (c as int - 32) as char
    else if c == '\U{0131}' then 'I'
    else if c == '\U{017F}' then 'S'
    else c
  }

  /**
   * Character.toLowerCase for the characters whose lower case is an ASCII letter:
   * ASCII upper case, dotted capital I (U+0130) and the Kelvin sign (U+212A).
   */
  function ToLower(c: char): char {
    if 'A' <= c <= 'Z' then (c as int + 32) as char
    else if c == '\U{0130}' then 'i'
    else if c == '\U{212A}' then 'k'
    else c
  }

  /** The per-character test of String.regionMatches with ignoreCase set. */
  predicate CharEqualsIgnoreCase(a: char, b: char) {
    a == b || ToUpper(a) == ToUpper(b) || ToLower(ToUpper(a)) == ToLower(ToUpper(b))
  }

  /** String.equalsIgnoreCase against a non-null argument. */
  predicate EqualsIgnoreCase(a: string, b: string) {
    |a| == |b| && forall i | 0 <= i < |a| :: CharEqualsIgnoreCase(a[i], b[i])
  }
}
