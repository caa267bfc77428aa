/**
 * The two number conversions of the JavaScript runtime that the client relies
 * on: the global `parseInt` with no radix (section 19.2.5 of ECMA-262) and the
 * decimal text of an integer Number, as template literals write it.
 * NaN is `None`; integers are unbounded.
 */
module JsNumber {
  import opened Wrappers

  predicate IsDecimalDigit(c: char) {
    '0' <= c <= '9'
  }

  predicate IsHexDigit(c: char) {
    IsDecimalDigit(c) || 'a' <= c <= 'f' || 'A' <= c <= 'F'
  }

  predicate IsRadixDigit(c: char, hex: bool) {
    IsDecimalDigit(c) || (hex && ('a' <= c <= 'f' || 'A' <= c <= 'F'))
  }

  function DigitValue(c: char): (v: nat)
    requires IsHexDigit(c)
    ensures v < 16
    ensures IsDecimalDigit(c) ==> v < 10
  {
    if IsDecimalDigit(c) then c as int - '0' as int
    else if 'a' <= c <= 'f' then c as int - 'a' as int + 10
    else c as int - 'A' as int + 10
  }

  /** The WhiteSpace and LineTerminator code points that `parseInt` skips. */
  predicate IsJsWhitespace(c: char) {
    var n := c as int;
    n == 0x09 || n == 0x0A || n == 0x0B || n == 0x0C || n == 0x0D || n == 0x20
    || n == 0xA0 || n == 0x1680 || (0x2000 <= n <= 0x200A) || n == 0x2028
    || n == 0x2029 || n == 0x202F || n == 0x205F || n == 0x3000 || n == 0xFEFF
  }

  function TrimStart(s: string): (r: string)
    ensures |r| <= |s|
    ensures r == [] || !IsJsWhitespace(r[0])
  {
    if s != [] && IsJsWhitespace(s[0]) then TrimStart(s[1..]) else s
  }

  /** TrimStart only removes characters from the front, and only white space. */
  lemma {:induction false} TrimStartIsSuffix(s: string)
    ensures var r := TrimStart(s);
      r == s[|s| - |r|..] && forall i :: 0 <= i < |s| - |r| ==> IsJsWhitespace(s[i])
  {
    if s != [] && IsJsWhitespace(s[0]) {
      TrimStartIsSuffix(s[1..]);
    }
  }

  /** The length of the longest prefix of `s` made of digits of the radix. */
  function DigitPrefixLength(s: string, hex: bool): (n: nat)
    ensures n <= |s|
    ensures forall i :: 0 <= i < n ==> IsRadixDigit(s[i], hex)
    ensures n < |s| ==> !IsRadixDigit(s[n], hex)
  {
    if s != [] && IsRadixDigit(s[0], hex) then 1 + DigitPrefixLength(s[1..], hex) else 0
  }

  /** The value of a string of digits, most significant first. */
  function DigitsValue(s: string, hex: bool): nat
    requires forall i :: 0 <= i < |s| ==> IsRadixDigit(s[i], hex)
  {
    if s == [] then 0
    else
      var last := s[|s| - 1];
      assert IsRadixDigit(last, hex);
      DigitsValue(s[..|s| - 1], hex) * (if hex then 16 else 10) + DigitValue(last)
  }

  /**
   * `parseInt(input)`: skip leading white space, read an optional sign, then
   * (after an optional `0x`/`0X`, which switches to base 16) the longest run of
   * digits; anything after it is ignored. No digit at all gives NaN.
   */
  function ParseInt(input: string): Option<int> {
    ParseSigned(TrimStart(input))
  }

  /** The optional sign and the digits after it. */
  function ParseSigned(s: string): Option<int> {
    if s != [] && s[0] == '-' then
      match ParseUnsigned(s[1..])
      case None => None
      case Some(magnitude) => Some(0 - magnitude)
    else if s != [] && s[0] == '+' then ParseUnsigned(s[1..])
    else ParseUnsigned(s)
  }

  /** The digits after the sign: hexadecimal after `0x` or `0X`, decimal otherwise. */
  function ParseUnsigned(u: string): Option<nat> {
    if |u| >= 2 && u[0] == '0' && (u[1] == 'x' || u[1] == 'X') then LeadingDigits(u[2..], true)
    else LeadingDigits(u, false)
  }

  /** The value of the longest run of digits at the start of `s`; `None` when there is none. */
  function LeadingDigits(s: string, hex: bool): Option<nat> {
    var n := DigitPrefixLength(s, hex);
    if n == 0 then None
    else
      assert forall i :: 0 <= i < n ==> s[..n][i] == s[i];
      Some(DigitsValue(s[..n], hex))
  }

  function DecimalDigit(d: nat): (c: char)
    requires d < 10
    ensures IsDecimalDigit(c) && DigitValue(c) == d
  {
    ('0' as int + d) as char
  }

  /** The lower-case base-16 digit of `d`. */
  function HexDigit(d: nat): (c: char)
    requires d < 16
    ensures IsHexDigit(c) && DigitValue(c) == d
  {
    if d < 10 then DecimalDigit(d) else ('a' as int + d - 10) as char
  }

  /** The decimal text of a natural number, without leading zeros. */
  function NatToString(n: nat): (s: string)
    ensures |s| >= 1
    ensures forall i :: 0 <= i < |s| ==> IsDecimalDigit(s[i])
    ensures s[0] == '0' ==> n == 0 && |s| == 1
  {
    if n < 10 then [DecimalDigit(n)] else NatToString(n / 10) + [DecimalDigit(n % 10)]
  }

  /** The text `${n}` produces for an integer Number `n`. */
  function IntToString(n: int): (s: string)
    ensures |s| >= 1
    ensures forall i :: 0 <= i < |s| ==> IsDecimalDigit(s[i]) || s[i] == '-'
  {
    if n < 0 then "-" + NatToString(-n) else NatToString(n)
  }

  /** Decimal text read back strictly: an optional '-' and at least one digit, nothing else. */
  function ParseDecimal(s: string): Option<int> {
    var negative := s != [] && s[0] == '-';
    var digits := if negative then s[1..] else s;
    if digits != [] && forall i :: 0 <= i < |digits| ==> IsDecimalDigit(digits[i]) then
      var v: int := DigitsValue(digits, false);
      Some(if negative then 0 - v else v)
    else None
  }

  lemma {:induction false} NatToStringValue(n: nat)
    ensures DigitsValue(NatToString(n), false) == n
  {
    var s := NatToString(n);
    if n >= 10 {
      NatToStringValue(n / 10);
      assert s[..|s| - 1] == NatToString(n / 10);
    }
  }

  /** The printed decimal reads back as the same integer. */
  lemma IntToStringRoundTrip(n: int)
    ensures ParseDecimal(IntToString(n)) == Some(n)
  {
    var s := IntToString(n);
    if n < 0 {
      NatToStringValue(-n);
      assert s[1..] == NatToString(-n);
    } else {
      NatToStringValue(n);
    }
  }

  lemma {:induction false} DigitPrefixOfDigits(d: string, t: string, hex: bool)
    requires forall i :: 0 <= i < |d| ==> IsRadixDigit(d[i], hex)
    requires t == [] || !IsRadixDigit(t[0], hex)
    ensures DigitPrefixLength(d + t, hex) == |d|
  {
    if d != [] {
      assert (d + t)[1..] == d[1..] + t;
      DigitPrefixOfDigits(d[1..], t, hex);
    }
  }

  /**
   * `parseInt` reads back the decimal text of any integer, whatever follows
   * it, provided what follows does not continue the number (a digit) or turn
   * a leading "0" into a hexadecimal prefix.
   */
  lemma ParseIntOfIntToString(n: int, t: string)
    requires t == [] || !(IsDecimalDigit(t[0]) || t[0] == 'x' || t[0] == 'X')
    ensures ParseInt(IntToString(n) + t) == Some(n)
  {
    if n < 0 {
      ParseIntOfNegative(n, t);
    } else {
      UnsignedOfNatToString(n, t);
      ParseIntUnsigned(NatToString(n) + t);
    }
  }

  lemma ParseIntOfNegative(n: int, t: string)
    requires n < 0
    requires t == [] || !(IsDecimalDigit(t[0]) || t[0] == 'x' || t[0] == 'X')
    ensures ParseInt(IntToString(n) + t) == Some(n)
  {
    var u := NatToString(-n) + t;
    UnsignedOfNatToString(-n, t);
    NegativeText(n, t);
    ParseIntNegative(u, -n);
  }

  lemma NegativeText(n: int, t: string)
    requires n < 0
    ensures IntToString(n) + t == ['-'] + (NatToString(-n) + t)
  {
    assert IntToString(n) == ['-'] + NatToString(-n);
  }

  lemma NoLeadingSpace(x: string)
    requires x != [] && (IsDecimalDigit(x[0]) || x[0] == '-')
    ensures TrimStart(x) == x
  {
    assert !IsJsWhitespace(x[0]);
  }

  lemma ParseIntUnsigned(u: string)
    requires u != [] && IsDecimalDigit(u[0])
    ensures ParseInt(u) == ParseUnsigned(u)
  {
    NoLeadingSpace(u);
  }

  lemma ParseIntNegative(u: string, v: nat)
    requires ParseUnsigned(u) == Some(v)
    ensures ParseInt(['-'] + u) == Some(0 - v)
  {
    var x := ['-'] + u;
    NoLeadingSpace(x);
    assert ParseSigned(x) == Some(0 - v) by {
      assert x[1..] == u;
    }
  }

  /** After the sign: no hexadecimal prefix, and the digits have value `m`. */
  lemma UnsignedOfNatToString(m: nat, t: string)
    requires t == [] || !(IsDecimalDigit(t[0]) || t[0] == 'x' || t[0] == 'X')
    ensures ParseUnsigned(NatToString(m) + t) == Some(m)
  {
    var d := NatToString(m);
    var u := d + t;
    assert |u| >= 2 && u[0] == '0' ==> u[1] == t[0];
    DigitPrefixOfDigits(d, t, false);
    assert u[..|d|] == d;
    NatToStringValue(m);
  }
}
