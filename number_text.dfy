/**
 * Conversions between text and numbers used by the limit control and the
 * query string: JavaScript's `parseInt(s)` (no radix argument) and
 * `String(n)` for the integers and NaN that `parseInt` produces.
 * NaN is represented by None.
 */
module NumberText {
  import opened Wrappers

  /** The white space and line terminator characters that `parseInt` skips
      before the number. */
  predicate IsSpace(c: char)
  {
    || '\U{9}' <= c <= '\U{D}'           // tab, line feed, vertical tab, form feed, carriage return
    || c == ' ' || c == '\U{A0}' || c == '\U{1680}'
    || '\U{2000}' <= c <= '\U{200A}'
    || c == '\U{2028}' || c == '\U{2029}' || c == '\U{202F}' || c == '\U{205F}'
    || c == '\U{3000}' || c == '\U{FEFF}'
  }

  /** `s` with its leading white space removed. */
  function TrimStart(s: string): (r: string)
    ensures |r| <= |s| && r == s[|s| - |r|..]
    ensures r == [] || !IsSpace(r[0])
  {
    if s != [] && IsSpace(s[0]) then TrimStart(s[1..]) else s
  }

  predicate IsDecimalDigit(c: char)
  {
    '0' <= c <= '9'
  }

  /** The value of a digit character in base 16 (letters in either case); 16
      or more for characters that are not hexadecimal digits. */
  function DigitValue(c: char): nat
  {
    if IsDecimalDigit(c) then c as nat - '0' as nat
    else if 'a' <= c <= 'f' then c as nat - 'a' as nat + 10
    else if 'A' <= c <= 'F' then c as nat - 'A' as nat + 10
    else 16
  }

  predicate IsDigit(c: char, radix: nat)
  {
    DigitValue(c) < radix
  }

  /** The longest prefix of `s` made of digits of base `radix`. */
  function LeadingDigits(s: string, radix: nat): (r: string)
    ensures r <= s
    ensures forall i :: 0 <= i < |r| ==> IsDigit(r[i], radix)
    ensures |r| < |s| ==> !IsDigit(s[|r|], radix)
  {
    if s == [] || !IsDigit(s[0], radix) then [] else [s[0]] + LeadingDigits(s[1..], radix)
  }

  /** The number that the digit string `s` denotes in base `radix`. */
  function DigitsValue(s: string, radix: nat): nat
  {
    if s == [] then 0
    else DigitsValue(s[..|s| - 1], radix) * radix + Min(DigitValue(s[|s| - 1]), radix)
  }

  /** Reads the digits of an unsigned number: base 16 after a "0x" or "0X"
      prefix, base 10 otherwise; None when there is no digit to read. */
  function ParseUnsigned(u: string): Option<nat>
  {
    var hex := |u| >= 2 && u[0] == '0' && (u[1] == 'x' || u[1] == 'X');
    var radix := if hex then 16 else 10;
    var digits := LeadingDigits(if hex then u[2..] else u, radix);
    if digits == [] then None else Some(DigitsValue(digits, radix))
  }

  /** `t` without its leading sign character, if it has one. */
  function StripSign(t: string): string
  {
    if t != [] && (t[0] == '-' || t[0] == '+') then t[1..] else t
  }

  /** `parseInt(s)`: skip leading white space, read an optional sign, then
      the digits; NaN (None) when there is no digit. */
  function ParseInt(s: string): Option<int>
  {
    var t := TrimStart(s);
    match ParseUnsigned(StripSign(t))
    case None => None
    case Some(v) => if t != [] && t[0] == '-' then Some(-(v as int)) else Some(v)
  }

  function DigitChar(d: nat): (c: char)
    requires d < 10
    ensures IsDecimalDigit(c) && DigitValue(c) == d
  {
    ('0' as nat + d) as char
  }

  /** The decimal digits of `k`, without leading zeros. */
  function Decimal(k: nat): (r: string)
    ensures r != []
    ensures forall i :: 0 <= i < |r| ==> IsDecimalDigit(r[i])
  {
    if k < 10 then [DigitChar(k)] else Decimal(k / 10) + [DigitChar(k % 10)]
  }

  /** `String(x)` for a number that `parseInt` produced. */
  function NumberToString(x: Option<int>): string
  {
    match x
    case None => "NaN"
    case Some(k) => if k < 0 then "-" + Decimal(-k) else Decimal(k)
  }

  lemma {:induction false} DecimalValue(k: nat)
    ensures DigitsValue(Decimal(k), 10) == k
  {
    if k >= 10 {
      var s := Decimal(k);
      DecimalValue(k / 10);
      assert s[..|s| - 1] == Decimal(k / 10);
    }
  }

  /** A string of digits is its own longest digit prefix. */
  lemma AllDigitsAreLeading(s: string, radix: nat)
    requires forall i :: 0 <= i < |s| ==> IsDigit(s[i], radix)
    ensures LeadingDigits(s, radix) == s
  {
  }

  /** The unsigned reading of a decimal numeral is its value. */
  lemma ParseDecimal(k: nat)
    ensures ParseUnsigned(Decimal(k)) == Some(k)
  {
    var d := Decimal(k);
    DecimalValue(k);
    AllDigitsAreLeading(d, 10);
    var hex := |d| >= 2 && d[0] == '0' && (d[1] == 'x' || d[1] == 'X');
    assert !hex by {
      if |d| >= 2 {
        assert IsDecimalDigit(d[1]);
      }
    }
    assert LeadingDigits(d, 10) == d;
  }

  /** A decimal numeral, with or without a minus sign, parses to its value. */
  lemma ParseNumeral(s: string, negative: bool, k: nat)
    requires s == (if negative then "-" else "") + Decimal(k)
    ensures ParseInt(s) == Some(if negative then -(k as int) else k)
  {
    assert IsDecimalDigit(Decimal(k)[0]);
    assert !IsSpace(s[0]);
    assert TrimStart(s) == s;
    assert StripSign(s) == Decimal(k);
    ParseDecimal(k);
  }

  /** Reading back what `String` wrote gives the same number, NaN included:
      a limit written to the query string survives a reload. */
  lemma ParseIntInvertsNumberToString(x: Option<int>)
    ensures ParseInt(NumberToString(x)) == x
  {
    match x
    case None =>
      NoLeadingDigitIsNaN("NaN");
    case Some(k) =>
      ParseNumeral(NumberToString(x), k < 0, if k < 0 then -k else k);
  }

  /** When no decimal digit follows the white space and the sign, the
      text parses as NaN. */
  lemma NoLeadingDigitIsNaN(s: string)
    requires var u := StripSign(TrimStart(s)); u == [] || !IsDecimalDigit(u[0])
    ensures ParseInt(s) == None
  {
  }

  /** Text without any decimal digit parses as NaN: a malformed limit is
      ignored rather than read as a number. */
  lemma NoDigitIsNaN(s: string)
    requires forall i :: 0 <= i < |s| ==> !IsDecimalDigit(s[i])
    ensures ParseInt(s) == None
  {
  }
}
