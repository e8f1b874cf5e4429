/** Integer rendering and the global parseInt of ECMAScript, restricted to
    integers: Number.prototype.toString for an integer, and parseInt called
    without a radix (section 19.2.5 of ECMA-262). */
module JsNumber {
  import opened Results
  import JsText

  predicate IsDecimalDigit(c: char) {
    '0' <= c <= '9'
  }

  function DigitChar(d: nat): (c: char)
    requires d < 10
    ensures IsDecimalDigit(c) && DigitValue(c) == d
  {
    "0123456789"[d]
  }

  /** The value of c as a digit in radix 36: 0-9, then a-z or A-Z for 10-35,
      and 36 for any other character (a digit in no radix). */
  function DigitValue(c: char): (d: nat)
    ensures d <= 36
    ensures IsDecimalDigit(c) <==> d < 10
  {
    if '0' <= c <= '9' then (c as int - '0' as int)
    else if 'a' <= c <= 'z' then (c as int - 'a' as int) + 10
    else if 'A' <= c <= 'Z' then (c as int - 'A' as int) + 10
    else 36
  }

  predicate IsRadixDigit(c: char, radix: nat) {
    DigitValue(c) < radix
  }

  /** Decimal digits of n, most significant first, without leading zeros. */
  function NatToDecimal(n: nat): (r: string)
    ensures |r| >= 1
    ensures forall i :: 0 <= i < |r| ==> IsDecimalDigit(r[i])
    ensures r[0] == '0' ==> n == 0
  {
    if n < 10 then [DigitChar(n)] else NatToDecimal(n / 10) + [DigitChar(n % 10)]
  }

  /** The string form of an integral Number: a minus sign for negatives. */
  function IntToString(n: int): string {
    if n < 0 then "-" + NatToDecimal(-n) else NatToDecimal(n)
  }

  /** The longest prefix of s made of digits of the radix. */
  function LeadingDigits(s: string, radix: nat): (z: string)
    ensures |z| <= |s| && z == s[..|z|]
    ensures forall i :: 0 <= i < |z| ==> IsRadixDigit(z[i], radix)
    ensures |z| < |s| ==> !IsRadixDigit(s[|z|], radix)
  {
    if s != [] && IsRadixDigit(s[0], radix) then [s[0]] + LeadingDigits(s[1..], radix) else ""
  }

  /** The value of a digit string in the radix, most significant digit first. */
  function DigitsValue(z: string, radix: nat): nat {
    if z == [] then 0
    else DigitsValue(z[..|z| - 1], radix) * radix + DigitValue(z[|z| - 1])
  }

  /** The sign a leading '-' or '+' gives. */
  function SignOf(s: string): int {
    if |s| > 0 && s[0] == '-' then -1 else 1
  }

  /** s without one leading '-' or '+'. */
  function DropSign(s: string): string {
    if |s| > 0 && (s[0] == '-' || s[0] == '+') then s[1..] else s
  }

  predicate HasHexPrefix(u: string) {
    |u| >= 2 && u[0] == '0' && (u[1] == 'x' || u[1] == 'X')
  }

  /** The unsigned part: a "0x"/"0X" prefix selects radix 16, otherwise the
      radix is 10; the longest run of digits is read and the rest ignored. */
  function ParseUnsigned(u: string): Option<nat> {
    var radix := if HasHexPrefix(u) then 16 else 10;
    var z := LeadingDigits(if HasHexPrefix(u) then u[2..] else u, radix);
    if z == [] then None else Some(DigitsValue(z, radix))
  }

  /** parseInt(input) with no radix argument; None stands for NaN. Leading
      whitespace is skipped and one sign is accepted before the digits.
      A -0 result is the integer 0. */
  function ParseInt(input: string): (r: Option<int>)
  {
    var s := JsText.TrimStart(input);
    match ParseUnsigned(DropSign(s))
    case None => None
    case Some(v) => Some(SignOf(s) * v)
  }

  lemma {:induction false} DecimalValue(n: nat)
    ensures DigitsValue(NatToDecimal(n), 10) == n
  {
    if n >= 10 {
      var prefix := NatToDecimal(n / 10);
      var z := prefix + [DigitChar(n % 10)];
      assert z[..|z| - 1] == prefix;
      DecimalValue(n / 10);
    }
  }

  /** The decimal form of n reads back as n when it is the unsigned part. */
  lemma {:induction false} DecimalParsesBack(n: nat)
    ensures ParseUnsigned(NatToDecimal(n)) == Some(n)
  {
    var d := NatToDecimal(n);
    assert |LeadingDigits(d, 10)| == |d|;
    assert LeadingDigits(d, 10) == d;
    assert |NatToDecimal(0)| == 1;
    DecimalValue(n);
  }

  /** parseInt reads back every integer it is given in string form. */
  lemma {:induction false} ParseIntOfIntToString(n: int)
    ensures ParseInt(IntToString(n)) == Some(n)
  {
    if n < 0 {
      ParseIntOfNegative(n);
    } else {
      ParseIntOfNatural(n);
    }
  }

  lemma {:induction false} ParseIntOfNatural(n: int)
    requires n >= 0
    ensures ParseInt(IntToString(n)) == Some(n)
  {
    var d := NatToDecimal(n);
    DecimalParsesBack(n);
    ParseIntOfDigits(IntToString(n), n);
  }

  lemma {:induction false} ParseIntOfNegative(n: int)
    requires n < 0
    ensures ParseInt(IntToString(n)) == Some(n)
  {
    var m: nat := -n;
    var d := NatToDecimal(m);
    assert IntToString(n) == "-" + d;
    assert IsDecimalDigit(d[0]);
    DecimalParsesBack(m);
    ParseIntOfMinusDigits(IntToString(n), d, m);
  }

  /** A string starting with a digit is read as its unsigned part. */
  lemma {:induction false} ParseIntOfDigits(d: string, v: nat)
    requires d != [] && IsDecimalDigit(d[0]) && ParseUnsigned(d) == Some(v)
    ensures ParseInt(d) == Some(v)
  {
    assert !JsText.IsJsWhitespace(d[0]);
    var t := JsText.TrimStart(d);
    assert t == d;
    assert DropSign(t) == d;
    assert SignOf(t) == 1;
  }

  /** A minus sign before a digit negates the unsigned part. */
  lemma {:induction false} ParseIntOfMinusDigits(s: string, d: string, v: nat)
    requires s == "-" + d
    requires d != [] && IsDecimalDigit(d[0]) && ParseUnsigned(d) == Some(v)
    ensures ParseInt(s) == Some(-(v as int))
  {
    assert JsText.TrimStart(s) == s;
    assert s[1..] == d;
    assert DropSign(s) == d && SignOf(s) == -1;
  }

  /** A negative result needs a minus sign right after the leading whitespace. */
  lemma {:induction false} ParseIntNegativeOnlyAfterMinus(input: string)
    ensures ParseInt(input).Some? && ParseInt(input).value < 0 ==>
      var s := JsText.TrimStart(input);
      |s| > 0 && s[0] == '-'
  {
  }

  /** Only the leading integer counts: "25abc" reads as 25. */
  lemma {:induction false} ParseIntStopsAtFirstNonDigit()
    ensures ParseInt("25abc") == Some(25)
  {
    var s := "25abc";
    assert !JsText.IsJsWhitespace(s[0]);
    assert JsText.TrimStart(s) == s;
    assert DropSign(s) == s;
    assert !HasHexPrefix(s);
    assert LeadingDigits(s[2..], 10) == "";
    assert LeadingDigits(s[1..], 10) == "5";
    assert LeadingDigits(s, 10) == "25";
    assert DigitsValue("2", 10) == 2 by { assert "2"[..0] == ""; }
    assert DigitsValue("25", 10) == 25 by { assert "25"[..1] == "2"; }
  }

  /** Without a leading digit the result is NaN: "abc" and "" do not parse. */
  lemma {:induction false} ParseIntWithoutDigits()
    ensures ParseInt("abc") == None
    ensures ParseInt("") == None
  {
    var s := "abc";
    assert !JsText.IsJsWhitespace(s[0]);
    assert JsText.TrimStart(s) == s;
    assert DropSign(s) == s;
    assert LeadingDigits(s, 10) == "";
  }

  /** Without a radix, a "0x" prefix switches to hexadecimal: "0x1A" reads as 26. */
  lemma {:induction false} ParseIntHexPrefix()
    ensures ParseInt("0x1A") == Some(26)
  {
    var s := "0x1A";
    assert !JsText.IsJsWhitespace(s[0]);
    assert JsText.TrimStart(s) == s;
    assert DropSign(s) == s;
    assert HasHexPrefix(s);
    assert s[2..] == "1A";
    assert LeadingDigits("1A"[1..], 16) == "A";
    assert LeadingDigits("1A", 16) == "1A";
    assert DigitsValue("1", 16) == 1 by { assert "1"[..0] == ""; }
    assert DigitsValue("1A", 16) == 26 by { assert "1A"[..1] == "1"; }
  }
}
