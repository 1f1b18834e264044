/**
 The JavaScript global `parseInt(string)` with no radix argument, which the
 handlers apply to the `id` route parameter. `None` stands for NaN, which
 is not `===` to any number and so matches no stored id.
 */
module JsParseInt {
  import opened Json

  /** StrWhiteSpaceChar of ECMAScript: its WhiteSpace (tab, vertical tab, form
      feed, ZWNBSP and every space separator) and its LineTerminator. */
  predicate IsStrWhiteSpace(c: char) {
    || c == '\t' || c == '\U{B}' || c == '\U{C}' || c == '\U{FEFF}'
    || c == ' ' || c == '\U{A0}' || c == '\U{1680}' || '\U{2000}' <= c <= '\U{200A}'
    || c == '\U{202F}' || c == '\U{205F}' || c == '\U{3000}'
    || c == '\n' || c == '\r' || c == '\U{2028}' || c == '\U{2029}'
  }

  /** The value of `c` as a digit of radix 16 or less (either letter case). */
  function DigitValue(c: char): Option<nat> {
    if '0' <= c <= '9' then Some(c as int - '0' as int)
    else if 'a' <= c <= 'f' then Some(c as int - 'a' as int + 10)
    else if 'A' <= c <= 'F' then Some(c as int - 'A' as int + 10)
    else None
  }

  predicate IsDigit(c: char, radix: nat) {
    DigitValue(c).Some? && DigitValue(c).value < radix
  }

  predicate AllDigits(s: string, radix: nat) {
    forall i :: 0 <= i < |s| ==> IsDigit(s[i], radix)
  }

  /** The string with its leading white space removed. */
  function TrimStart(s: string): (r: string)
    ensures |r| <= |s| && r == s[|s| - |r|..]
    ensures forall i :: 0 <= i < |s| - |r| ==> IsStrWhiteSpace(s[i])
    ensures r == [] || !IsStrWhiteSpace(r[0])
  {
    if |s| > 0 && IsStrWhiteSpace(s[0]) then TrimStart(s[1..]) else s
  }

  /** The length of the longest prefix of `s` made of radix digits. */
  function DigitPrefixLength(s: string, radix: nat): (n: nat)
    ensures n <= |s|
    ensures AllDigits(s[..n], radix)
    ensures n < |s| ==> !IsDigit(s[n], radix)
  {
    if s == [] || !IsDigit(s[0], radix) then 0
    else
      var n := 1 + DigitPrefixLength(s[1..], radix);
      assert s[..n] == [s[0]] + s[1..][..n - 1];
      n
  }

  /** The number a digit string denotes in the given radix. */
  function DigitsValue(s: string, radix: nat): nat
    requires AllDigits(s, radix)
  {
    if s == [] then 0
    else DigitsValue(s[..|s| - 1], radix) * radix + DigitValue(s[|s| - 1]).value
  }

  /** An optional leading sign: whether it is a minus, and what follows it. */
  function StripSign(s: string): (bool, string) {
    if |s| > 0 && s[0] == '-' then (true, s[1..])
    else if |s| > 0 && s[0] == '+' then (false, s[1..])
    else (false, s)
  }

  /** A `0x`/`0X` prefix selects radix 16, otherwise radix 10. */
  function StripRadixPrefix(s: string): (nat, string) {
    if |s| >= 2 && s[0] == '0' && (s[1] == 'x' || s[1] == 'X') then (16, s[2..]) else (10, s)
  }

  /** The value of the longest leading run of digits; `None` if there is none. */
  function LeadingValue(s: string, radix: nat): Option<nat> {
    var n := DigitPrefixLength(s, radix);
    if n == 0 then None else Some(DigitsValue(s[..n], radix))
  }

  /** `parseInt(input)`: skip leading white space, take an optional sign, take
      a `0x`/`0X` prefix as radix 16 (radix 10 otherwise), then read the
      longest run of digits; no digits at all gives NaN. */
  function ParseInt(input: string): Option<int> {
    ParseSigned(TrimStart(input))
  }

  /** The stages after white space: the sign, then the unsigned numeral. */
  function ParseSigned(s: string): Option<int> {
    var (negative, unsigned) := StripSign(s);
    match ParseUnsigned(unsigned)
    case None => None
    case Some(v) => Some(if negative then -(v as int) else v)
  }

  function ParseUnsigned(s: string): Option<nat> {
    var (radix, body) := StripRadixPrefix(s);
    LeadingValue(body, radix)
  }

  /** The decimal numeral of `n`, as `String(n)` writes it: no sign, no
      leading zero. */
  function DecimalString(n: nat): (s: string)
    ensures |s| > 0 && AllDigits(s, 10)
    ensures s[0] == '0' ==> n == 0
  {
    var last := ['0' + (n % 10) as char];
    if n < 10 then last else DecimalString(n / 10) + last
  }

  lemma {:induction false} DecimalStringValue(n: nat)
    ensures DigitsValue(DecimalString(n), 10) == n
  {
    var s := DecimalString(n);
    if n >= 10 {
      assert s[..|s| - 1] == DecimalString(n / 10);
      DecimalStringValue(n / 10);
    }
  }

  lemma {:induction false} DigitPrefixOfConcat(s: string, rest: string, radix: nat)
    requires AllDigits(s, radix)
    requires rest == [] || !IsDigit(rest[0], radix)
    ensures DigitPrefixLength(s + rest, radix) == |s|
  {
    if s != [] {
      assert (s + rest)[1..] == s[1..] + rest;
      DigitPrefixOfConcat(s[1..], rest, radix);
    }
  }

  lemma LeadingValueOfConcat(s: string, rest: string, radix: nat)
    requires s != [] && AllDigits(s, radix)
    requires rest == [] || !IsDigit(rest[0], radix)
    ensures LeadingValue(s + rest, radix) == Some(DigitsValue(s, radix))
  {
    DigitPrefixOfConcat(s, rest, radix);
    assert (s + rest)[..|s|] == s;
  }

  lemma TrimStartOfDigit(s: string)
    requires s != [] && IsDigit(s[0], 10)
    ensures TrimStart(s) == s && StripSign(s) == (false, s)
  {
  }

  /** Only "0" followed by `x` or `X` is a radix prefix, so a digit run that
      is followed by anything else is read in radix 10. */
  lemma NoRadixPrefix(d: string, rest: string)
    requires d != [] && AllDigits(d, 10)
    requires rest == [] || (!IsDigit(rest[0], 10) && (d != "0" || (rest[0] != 'x' && rest[0] != 'X')))
    ensures StripRadixPrefix(d + rest) == (10, d + rest)
  {
    var s := d + rest;
    assert s[0] == d[0];
    if |d| >= 2 {
      assert s[1] == d[1] && IsDigit(d[1], 10);
    } else if |s| >= 2 {
      assert s[1] == rest[0];
      if d[0] == '0' {
        assert d == "0";
      }
    }
  }

  /** A decimal digit run followed by anything that does not continue it
      is read in radix 10 as the run's value. */
  lemma UnsignedDigits(d: string, rest: string)
    requires d != [] && AllDigits(d, 10)
    requires rest == [] || (!IsDigit(rest[0], 10) && (d != "0" || (rest[0] != 'x' && rest[0] != 'X')))
    ensures ParseUnsigned(d + rest) == Some(DigitsValue(d, 10))
  {
    NoRadixPrefix(d, rest);
    LeadingValueOfConcat(d, rest, 10);
  }

  /** A run of decimal digits, leading zeros allowed, followed by anything
      that does not continue it is read as the run's value: `"007abc"` is 7
      and `"01"` is 1. */
  lemma ParseIntDigits(d: string, rest: string)
    requires d != [] && AllDigits(d, 10)
    requires rest == [] || (!IsDigit(rest[0], 10) && (d != "0" || (rest[0] != 'x' && rest[0] != 'X')))
    ensures ParseInt(d + rest) == Some(DigitsValue(d, 10))
  {
    var s := d + rest;
    assert s[0] == d[0];
    TrimStartOfDigit(s);
    UnsignedDigits(d, rest);
  }

  /** The general shape `parseInt` reads: white space, at most one sign, a
      decimal digit run, then anything that does not continue the run. */
  lemma ParseIntSignedDigits(ws: string, sign: string, d: string, rest: string)
    requires forall i :: 0 <= i < |ws| ==> IsStrWhiteSpace(ws[i])
    requires sign == "" || sign == "+" || sign == "-"
    requires d != [] && AllDigits(d, 10)
    requires rest == [] || (!IsDigit(rest[0], 10) && (d != "0" || (rest[0] != 'x' && rest[0] != 'X')))
    ensures ParseInt(ws + (sign + (d + rest)))
         == Some(if sign == "-" then -(DigitsValue(d, 10) as int) else DigitsValue(d, 10))
  {
    var u := d + rest;
    assert u[0] == d[0];
    SignStep(sign, u, d[0]);
    TrimAfterWhiteSpace(ws, sign + u);
    ParseIntOfTrimmed(ws + (sign + u), sign + u);
    ParseSignedDigits(sign, d, rest);
  }

  lemma ParseIntOfTrimmed(s: string, t: string)
    requires TrimStart(s) == t
    ensures ParseInt(s) == ParseSigned(t)
  {
  }

  lemma ParseSignedDigits(sign: string, d: string, rest: string)
    requires sign == "" || sign == "+" || sign == "-"
    requires d != [] && AllDigits(d, 10)
    requires rest == [] || (!IsDigit(rest[0], 10) && (d != "0" || (rest[0] != 'x' && rest[0] != 'X')))
    ensures ParseSigned(sign + (d + rest))
         == Some(if sign == "-" then -(DigitsValue(d, 10) as int) else DigitsValue(d, 10))
  {
    var u := d + rest;
    assert u[0] == d[0];
    SignStep(sign, u, d[0]);
    UnsignedDigits(d, rest);
  }

  lemma SignStep(sign: string, u: string, c: char)
    requires sign == "" || sign == "+" || sign == "-"
    requires u != [] && u[0] == c && IsDigit(c, 10)
    ensures var m := sign + u; m != [] && !IsStrWhiteSpace(m[0]) && StripSign(m) == (sign == "-", u)
  {
    var m := sign + u;
    if sign == "" {
      assert m == u;
    } else {
      assert m[0] == sign[0] && m[1..] == u;
    }
  }

  /** A decimal numeral followed by anything that does not start with a digit
      parses to its own value: trailing characters truncate. Only "0" followed
      by `x` or `X` would switch to radix 16. */
  lemma ParseIntTruncates(n: nat, rest: string)
    requires rest == [] || (!IsDigit(rest[0], 10) && (n != 0 || (rest[0] != 'x' && rest[0] != 'X')))
    ensures ParseInt(DecimalString(n) + rest) == Some(n)
  {
    var d := DecimalString(n);
    if n != 0 {
      assert d[0] != '0';
    }
    ParseIntDigits(d, rest);
    DecimalStringValue(n);
  }

  /** The round trip the handlers rely on: the decimal numeral of an id
      parses back to that id. */
  lemma ParseIntDecimal(n: nat)
    ensures ParseInt(DecimalString(n)) == Some(n)
  {
    ParseIntTruncates(n, []);
    assert DecimalString(n) + [] == DecimalString(n);
  }

  /** Leading white space is skipped; a minus sign negates. */
  lemma ParseIntNegative(n: nat, ws: string)
    requires forall i :: 0 <= i < |ws| ==> IsStrWhiteSpace(ws[i])
    ensures ParseInt(ws + ("-" + DecimalString(n))) == Some(-(n as int))
  {
    var d := DecimalString(n);
    ParseIntSignedDigits(ws, "-", d, []);
    assert d + [] == d;
    DecimalStringValue(n);
  }

  lemma {:induction false} TrimAfterWhiteSpace(ws: string, s: string)
    requires forall i :: 0 <= i < |ws| ==> IsStrWhiteSpace(ws[i])
    requires s == [] || !IsStrWhiteSpace(s[0])
    ensures TrimStart(ws + s) == s
  {
    if ws != [] {
      assert (ws + s)[1..] == ws[1..] + s;
      TrimAfterWhiteSpace(ws[1..], s);
    }
  }

  /** A string that starts with neither white space, a sign nor a decimal
      digit is NaN: in particular `parseInt(undefined)`, which reads the
      string "undefined". */
  lemma ParseIntNaN(s: string)
    requires s == [] || (!IsStrWhiteSpace(s[0]) && s[0] != '+' && s[0] != '-' && !IsDigit(s[0], 10))
    ensures ParseInt(s) == None
  {
    assert TrimStart(s) == s;
    ParseIntOfTrimmed(s, s);
    assert StripSign(s) == (false, s);
    assert StripRadixPrefix(s) == (10, s);
    assert DigitPrefixLength(s, 10) == 0;
  }

  /** `parseInt("0x1f")` reads a hexadecimal numeral. */
  lemma ParseIntHexExample()
    ensures ParseInt("0x1f") == Some(31)
  {
    TrimStartOfDigit("0x1f");
    assert StripRadixPrefix("0x1f") == (16, "1f");
    LeadingValueOfConcat("1f", [], 16);
    assert "1f" + [] == "1f";
    assert "1f"[..1] == "1";
    assert DigitsValue("1f", 16) == 31;
  }

  /** `parseInt("12abc")` stops at the first non-digit. */
  lemma ParseIntTruncateExample()
    ensures ParseInt("12abc") == Some(12)
  {
    TrimStartOfDigit("12abc");
    assert StripRadixPrefix("12abc") == (10, "12abc");
    LeadingValueOfConcat("12", "abc", 10);
    assert "12" + "abc" == "12abc";
    assert "12"[..1] == "1";
    assert DigitsValue("12", 10) == 12;
  }
}
