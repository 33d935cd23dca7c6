/** JavaScript's global `parseInt(string)` with no radix argument (section 19.2.5 of the
    ECMAScript 2024 language specification), on integer values: leading white space is
    skipped, one sign is read, a `0x`/`0X` prefix selects radix 16 and otherwise the radix is
    10, and the longest prefix of digits of that radix is read. No digits at all gives NaN. */
module JsParseInt {

  /** A JavaScript number as far as parseInt produces one. */
  datatype Number = NaN | Num(value: int)

  /** The StrWhiteSpaceChar code points: TAB, VT, FF, ZWNBSP, the line terminators and the
      space separators of Unicode category Zs. */
  predicate IsWhitespace(c: char) {
    c == '\t' || c == '\n' || c == '\U{000B}' || c == '\U{000C}' || c == '\r' || c == ' '
    || c == '\U{00A0}' || c == '\U{1680}' || ('\U{2000}' <= c <= '\U{200A}')
    || c == '\U{2028}' || c == '\U{2029}' || c == '\U{202F}' || c == '\U{205F}'
    || c == '\U{3000}' || c == '\U{FEFF}'
  }

  /** `s` with its leading white space removed. */
  function TrimStart(s: string): (r: string)
    ensures |r| <= |s| && r == s[|s| - |r|..]
    ensures r == [] || !IsWhitespace(r[0])
    ensures forall i :: 0 <= i < |s| - |r| ==> IsWhitespace(s[i])
  {
    if |s| > 0 && IsWhitespace(s[0]) then TrimStart(s[1..]) else s
  }

  /** The value of `c` as a digit in any radix up to 36, or 36 if it is no digit at all. */
  function DigitValue(c: char): (d: nat)
    ensures d <= 36
    ensures d < 10 <==> '0' <= c <= '9'
  {
    if '0' <= c <= '9' then c as int - '0' as int
    else if 'a' <= c <= 'z' then c as int - 'a' as int + 10
    else if 'A' <= c <= 'Z' then c as int - 'A' as int + 10
    else 36
  }

  /** The length of the longest prefix of `s` made of digits of `radix`. */
  function DigitRunLength(s: string, radix: nat): (n: nat)
    ensures n <= |s|
    ensures forall i :: 0 <= i < n ==> DigitValue(s[i]) < radix
    ensures n < |s| ==> DigitValue(s[n]) >= radix
  {
    if |s| == 0 || DigitValue(s[0]) >= radix then 0 else 1 + DigitRunLength(s[1..], radix)
  }

  /** `b` to the power `e`. */
  function Pow(b: nat, e: nat): nat {
    if e == 0 then 1 else Pow(b, e - 1) * b
  }

  /** Every character of `z` is a digit of `radix`. */
  predicate AllDigits(z: string, radix: nat) {
    forall i :: 0 <= i < |z| ==> DigitValue(z[i]) < radix
  }

  lemma AllDigitsPrefix(z: string, radix: nat)
    requires |z| > 0 && AllDigits(z, radix)
    ensures AllDigits(z[..|z| - 1], radix) && DigitValue(z[|z| - 1]) < radix
  {
    assert forall i :: 0 <= i < |z| - 1 ==> z[..|z| - 1][i] == z[i];
  }

  /** Appending a digit of radix `b` to a value of `e` digits gives a value of `e + 1` digits. */
  lemma NextDigitBound(w: nat, d: nat, b: nat, e: nat)
    requires w < Pow(b, e) && d < b
    ensures w * b + d < Pow(b, e + 1)
  {
    assert w * b <= (Pow(b, e) - 1) * b;
  }

  /** The value of a string of digits in `radix`, most significant digit first. */
  function DigitsValue(z: string, radix: nat): nat
    decreases |z|
  {
    if |z| == 0 then 0 else DigitsValue(z[..|z| - 1], radix) * radix + DigitValue(z[|z| - 1])
  }

  /** `n` digits of a radix have a value below radix^n. */
  lemma {:induction false} DigitsValueBound(z: string, radix: nat)
    requires AllDigits(z, radix)
    ensures DigitsValue(z, radix) < Pow(radix, |z|)
    decreases |z|
  {
    if |z| > 0 {
      var p := z[..|z| - 1];
      AllDigitsPrefix(z, radix);
      DigitsValueBound(p, radix);
      NextDigitBound(DigitsValue(p, radix), DigitValue(z[|z| - 1]), radix, |p|);
    }
  }

  /** No white space character is a digit or a sign, so the trimming, the sign and the digit
      run of parseInt never compete for the same character. */
  lemma WhitespaceIsNoDigitOrSign(c: char)
    requires IsWhitespace(c)
    ensures DigitValue(c) == 36 && c != '+' && c != '-'
  {
  }

  /** Leading zeros do not change the value of a digit string, so `parseInt('007')` is 7. */
  lemma {:induction false} LeadingZeroIgnored(z: string, radix: nat)
    ensures DigitsValue("0" + z, radix) == DigitsValue(z, radix)
    decreases |z|
  {
    if |z| > 0 {
      assert ("0" + z)[..|z|] == "0" + z[..|z| - 1];
      LeadingZeroIgnored(z[..|z| - 1], radix);
    }
  }

  /** A `0x` or `0X` at the start of the string after the sign. */
  predicate HasHexPrefix(s: string) {
    |s| >= 2 && s[0] == '0' && (s[1] == 'x' || s[1] == 'X')
  }

  /** Read in radix 10, a string with a hexadecimal prefix would stop after its 0, which is
      why the prefix must be tested before the digits are read. */
  lemma HexPrefixStopsDecimal(s: string)
    requires HasHexPrefix(s)
    ensures DigitRunLength(s, 10) == 1
  {
  }

  /** Steps 6 to 14 of parseInt, after the sign: a `0x`/`0X` prefix selects radix 16, the
      longest run of digits of the radix is read, no digits gives NaN, and the run's value. */
  function ParseMagnitude(u: string): (r: Number)
    ensures r.Num? ==> r.value >= 0
  {
    var radix := if HasHexPrefix(u) then 16 else 10;
    var v := if HasHexPrefix(u) then u[2..] else u;
    var n := DigitRunLength(v, radix);
    if n == 0 then NaN else Num(DigitsValue(v[..n], radix))
  }

  /** `parseInt(s)`. A result of -0 is written 0, which JavaScript's `===` does not tell apart. */
  function ParseInt(s: string): (r: Number)
  {
    ParseSigned(TrimStart(s))
  }

  /** Steps 3 to 16 of parseInt on the trimmed string: one sign, then the magnitude. */
  function ParseSigned(t: string): (r: Number)
  {
    var sign := if |t| > 0 && t[0] == '-' then -1 else 1;
    var u := if |t| > 0 && (t[0] == '-' || t[0] == '+') then t[1..] else t;
    match ParseMagnitude(u)
    case NaN => NaN
    case Num(m) => Num(sign * m)
  }

  /** The decimal numeral of a natural number: decimal digits, no leading zero. This is how
      `String(n)` writes n below 10^21; from 10^21 on it uses exponent notation. */
  function DecimalString(n: nat): (s: string)
    ensures |s| > 0
    ensures forall i :: 0 <= i < |s| ==> '0' <= s[i] <= '9'
    ensures s[0] == '0' ==> n == 0
  {
    if n < 10 then [('0' as int + n) as char]
    else DecimalString(n / 10) + [('0' as int + n % 10) as char]
  }

  lemma {:induction false} DecimalValue(n: nat)
    ensures DigitsValue(DecimalString(n), 10) == n
  {
    if n >= 10 {
      DecimalValue(n / 10);
      var s := DecimalString(n);
      assert s[..|s| - 1] == DecimalString(n / 10);
    }
  }

  lemma {:induction false} DigitRunOfDigits(d: string, rest: string, radix: nat)
    requires forall i :: 0 <= i < |d| ==> DigitValue(d[i]) < radix
    requires rest == [] || DigitValue(rest[0]) >= radix
    ensures DigitRunLength(d + rest, radix) == |d|
  {
    if |d| > 0 {
      assert (d + rest)[1..] == d[1..] + rest;
      DigitRunOfDigits(d[1..], rest, radix);
    }
  }

  /** A string that starts with a decimal digit and has no hexadecimal prefix is read as
      its leading run of decimal digits. */
  lemma ParseUnsignedDecimal(s: string, k: nat)
    requires |s| > 0 && '0' <= s[0] <= '9' && !HasHexPrefix(s)
    requires k == DigitRunLength(s, 10)
    ensures ParseInt(s) == Num(DigitsValue(s[..k], 10))
  {
    assert !IsWhitespace(s[0]);
    assert TrimStart(s) == s;
    assert ParseMagnitude(s) == Num(DigitsValue(s[..k], 10));
  }

  lemma DecimalHasNoHexPrefix(n: nat, rest: string)
    requires n == 0 ==> rest == [] || (rest[0] != 'x' && rest[0] != 'X')
    ensures !HasHexPrefix(DecimalString(n) + rest)
  {
    var d := DecimalString(n);
    if n == 0 {
      assert d == "0";
      if |rest| > 0 { assert (d + rest)[1] == rest[0]; }
    } else {
      assert (d + rest)[0] == d[0];
    }
  }

  /** parseInt reads back the decimal numeral of n, and stops at the first non-digit after it,
      unless that is the `x` of a `0x` prefix. */
  lemma ParseDecimalPrefix(n: nat, rest: string)
    requires rest == [] || DigitValue(rest[0]) >= 10
    requires n == 0 ==> rest == [] || (rest[0] != 'x' && rest[0] != 'X')
    ensures ParseInt(DecimalString(n) + rest) == Num(n)
  {
    var d := DecimalString(n);
    var s := d + rest;
    assert forall i :: 0 <= i < |d| ==> DigitValue(d[i]) < 10;
    DigitRunOfDigits(d, rest, 10);
    DecimalHasNoHexPrefix(n, rest);
    assert s[0] == d[0];
    assert s[..|d|] == d;
    DecimalValue(n);
    ParseUnsignedDecimal(s, |d|);
  }

  lemma ParseDecimal(n: nat)
    ensures ParseInt(DecimalString(n)) == Num(n)
  {
    ParseDecimalPrefix(n, []);
    assert DecimalString(n) + [] == DecimalString(n);
  }

  /** parseInt("0"), which is what a missing route id stands for. */
  lemma ParseZero()
    ensures ParseInt("0") == Num(0)
  {
    ParseDecimal(0);
    assert DecimalString(0) == "0";
  }

  /** Leading white space is skipped as a whole: white space in front of a string leaves what
      is trimmed from it, and so its parse, unchanged. */
  lemma {:induction false} TrimStartSkipsWhitespace(w: string, s: string)
    requires forall i :: 0 <= i < |w| ==> IsWhitespace(w[i])
    ensures TrimStart(w + s) == TrimStart(s)
  {
    if |w| > 0 {
      assert (w + s)[0] == w[0];
      assert (w + s)[1..] == w[1..] + s;
      TrimStartSkipsWhitespace(w[1..], s);
    } else {
      assert w + s == s;
    }
  }

  lemma WhitespacePrefixIgnored(w: string, s: string)
    requires forall i :: 0 <= i < |w| ==> IsWhitespace(w[i])
    ensures ParseInt(w + s) == ParseInt(s)
  {
    TrimStartSkipsWhitespace(w, s);
  }

  /** A string that starts with something other than white space, a sign or a decimal
      digit has no number in front, and parses to NaN; so does the empty string. */
  lemma NoLeadingDigitIsNaN(s: string)
    requires s == [] || (!IsWhitespace(s[0]) && s[0] != '+' && s[0] != '-' && DigitValue(s[0]) >= 10)
    ensures ParseInt(s) == NaN
  {
  }
}
