/** The pieces of JavaScript's text and number built-ins that the widget relies
    on: `parseInt` without a radix, and the decimal text of an integer. */
module JsText {
  import opened Wrappers

  predicate IsDigit(c: char) {
    '0' <= c <= '9'
  }

  predicate IsHexDigit(c: char) {
    IsDigit(c) || 'a' <= c <= 'f' || 'A' <= c <= 'F'
  }

  predicate AllDigits(s: string) {
    forall i :: 0 <= i < |s| ==> IsDigit(s[i])
  }

  /** A digit of the given kind: hexadecimal when `hex`, decimal otherwise. */
  predicate IsRadixDigit(c: char, hex: bool) {
    if hex then IsHexDigit(c) else IsDigit(c)
  }

  function HexDigitValue(c: char): (d: nat)
    requires IsHexDigit(c)
    ensures d < 16
    ensures IsDigit(c) <==> d < 10
  {
    if IsDigit(c) then c as int - '0' as int
    else if 'a' <= c <= 'f' then c as int - 'a' as int + 10
    else c as int - 'A' as int + 10
  }

  /** The characters `parseInt` skips before the number: ECMAScript's white
      space (tab, vertical tab, form feed, the Zs space separators, the byte
      order mark) and its line terminators. */
  predicate IsJsSpace(c: char) {
    || c == '\t' || c == '\U{000B}' || c == '\U{000C}' || c == '\U{FEFF}'
    || c == '\n' || c == '\r' || c == '\U{2028}' || c == '\U{2029}'
    || c == ' ' || c == '\U{00A0}' || c == '\U{1680}' || '\U{2000}' <= c <= '\U{200A}'
    || c == '\U{202F}' || c == '\U{205F}' || c == '\U{3000}'
  }

  /** `s` without its leading white space. */
  function TrimStart(s: string): string {
    if |s| > 0 && IsJsSpace(s[0]) then TrimStart(s[1..]) else s
  }

  /** The longest prefix of `s` made of digits of the given kind. */
  function DigitRun(s: string, hex: bool): (r: string)
    ensures r <= s
    ensures forall i :: 0 <= i < |r| ==> IsRadixDigit(r[i], hex)
    ensures |r| < |s| ==> !IsRadixDigit(s[|r|], hex)
  {
    if |s| > 0 && IsRadixDigit(s[0], hex) then [s[0]] + DigitRun(s[1..], hex) else []
  }

  /** The value of a digit string read in the given radix, most significant digit first. */
  function DigitsValue(ds: string, radix: nat): nat
    requires forall i :: 0 <= i < |ds| ==> IsHexDigit(ds[i])
  {
    if ds == [] then 0
    else DigitsValue(ds[..|ds| - 1], radix) * radix + HexDigitValue(ds[|ds| - 1])
  }

  /** The unsigned part of `parseInt`: hexadecimal after a `0x`/`0X` prefix,
      decimal otherwise, up to the first character that is not a digit.
      `None` means no digit was found. */
  function ParseMagnitude(u: string): (r: Option<int>)
    ensures r.Some? ==> r.value >= 0
  {
    if |u| >= 2 && u[0] == '0' && (u[1] == 'x' || u[1] == 'X') then
      var ds := DigitRun(u[2..], true);
      if ds == [] then None else Some(DigitsValue(ds, 16))
    else
      var ds := DigitRun(u, false);
      if ds == [] then None else Some(DigitsValue(ds, 10))
  }

  function Negated(m: Option<int>): Option<int> {
    match m
    case None => None
    case Some(v) => Some(-v)
  }

  /** `parseInt(s)` with no radix argument: skip white space, take an optional
      sign, then read the magnitude. `None` is NaN. */
  function ParseInt(s: string): Option<int> {
    var t := TrimStart(s);
    if |t| > 0 && t[0] == '-' then Negated(ParseMagnitude(t[1..]))
    else if |t| > 0 && t[0] == '+' then ParseMagnitude(t[1..])
    else ParseMagnitude(t)
  }

  function DigitChar(d: nat): (c: char)
    requires d < 10
    ensures IsDigit(c) && HexDigitValue(c) == d
  {
    ('0' as int + d) as char
  }

  /** The decimal text of a natural number, without leading zeros. */
  function NatToString(n: nat): (s: string)
    ensures s != [] && AllDigits(s)
    ensures |s| > 1 ==> s[0] != '0'
  {
    if n < 10 then [DigitChar(n)] else NatToString(n / 10) + [DigitChar(n % 10)]
  }

  /** `String(n)` for an integer `n`: a minus sign before the digits of a negative number. */
  function IntToString(n: int): (r: string)
    ensures r != [] && (r[0] == '-' <==> n < 0)
  {
    if n < 0 then "-" + NatToString(-n) else NatToString(n)
  }

  /** Reading back the digits of `NatToString(n)` gives `n`. */
  lemma {:induction false} NatToStringValue(n: nat)
    ensures DigitsValue(NatToString(n), 10) == n
  {
    if n >= 10 {
      var s := NatToString(n);
      assert s[..|s| - 1] == NatToString(n / 10);
      NatToStringValue(n / 10);
    }
  }

  /** The decimal digit run of a string that starts with the digits `ds` and
      continues with a non-digit is exactly `ds`. */
  lemma {:induction false} DigitRunOfDigits(ds: string, rest: string)
    requires AllDigits(ds)
    requires rest == [] || !IsDigit(rest[0])
    ensures DigitRun(ds + rest, false) == ds
  {
    if ds != [] {
      assert (ds + rest)[1..] == ds[1..] + rest;
      DigitRunOfDigits(ds[1..], rest);
    }
  }

  /** The magnitude of a run of decimal digits followed by a character that
      neither continues the number nor turns it hexadecimal. */
  lemma ParseMagnitudeOfDigits(ds: string, rest: string)
    requires ds != [] && AllDigits(ds)
    requires rest == [] || (!IsDigit(rest[0]) && rest[0] != 'x' && rest[0] != 'X')
    ensures ParseMagnitude(ds + rest) == Some(DigitsValue(ds, 10))
  {
    var u := ds + rest;
    assert |u| >= 2 ==> u[1] == if |ds| >= 2 then ds[1] else rest[0];
    DigitRunOfDigits(ds, rest);
  }

  /** A string that does not start with white space is its own trimmed form. */
  lemma TrimStartNoSpace(s: string)
    requires s != [] && !IsJsSpace(s[0])
    ensures TrimStart(s) == s
  {
  }

  /** `parseInt` of text that starts with a minus sign followed by text of
      magnitude `v` is `-v`. */
  lemma ParseIntOfMinus(s: string, v: int)
    requires s != [] && s[0] == '-' && ParseMagnitude(s[1..]) == Some(v)
    ensures ParseInt(s) == Some(-v)
  {
    TrimStartNoSpace(s);
  }

  /** `parseInt` of text starting with a digit is its magnitude. */
  lemma ParseIntOfDigitFirst(s: string)
    requires s != [] && IsDigit(s[0])
    ensures ParseInt(s) == ParseMagnitude(s)
  {
    TrimStartNoSpace(s);
  }

  /** `parseInt` of a run of decimal digits. */
  lemma ParseIntOfDigits(ds: string, rest: string)
    requires ds != [] && AllDigits(ds)
    requires rest == [] || (!IsDigit(rest[0]) && rest[0] != 'x' && rest[0] != 'X')
    ensures ParseInt(ds + rest) == Some(DigitsValue(ds, 10))
  {
    ParseMagnitudeOfDigits(ds, rest);
    assert (ds + rest)[0] == ds[0];
    ParseIntOfDigitFirst(ds + rest);
  }

  /** `parseInt` of a text made only of decimal digits. */
  lemma ParseIntOfDigitText(ds: string)
    requires ds != [] && AllDigits(ds)
    ensures ParseInt(ds) == Some(DigitsValue(ds, 10))
  {
    ParseIntOfDigits(ds, []);
    assert ds + [] == ds;
  }

  /** `parseInt` reads back the text of a negative integer. */
  lemma ParseIntOfNegative(n: int, rest: string)
    requires n < 0
    requires rest == [] || (!IsDigit(rest[0]) && rest[0] != 'x' && rest[0] != 'X')
    ensures ParseInt(IntToString(n) + rest) == Some(n)
  {
    NatToStringValue(-n);
    var ds := NatToString(-n);
    var s := IntToString(n) + rest;
    NegativeText(n, rest);
    ParseMagnitudeOfDigits(ds, rest);
    ParseIntOfMinus(s, -n);
  }

  /** The text of a negative integer is a minus sign before the digits of its magnitude. */
  lemma NegativeText(n: int, rest: string)
    requires n < 0
    ensures var s := IntToString(n) + rest;
            s != [] && s[0] == '-' && s[1..] == NatToString(-n) + rest
  {
    var s := IntToString(n) + rest;
    assert s == ['-'] + (NatToString(-n) + rest);
  }

  /** `parseInt` reads back the text of an integer, whatever non-numeric text follows it. */
  lemma ParseIntOfIntToString(n: int, rest: string)
    requires rest == [] || (!IsDigit(rest[0]) && rest[0] != 'x' && rest[0] != 'X')
    ensures ParseInt(IntToString(n) + rest) == Some(n)
  {
    if n < 0 {
      ParseIntOfNegative(n, rest);
    } else {
      NatToStringValue(n);
      ParseIntOfDigits(NatToString(n), rest);
    }
  }
}
