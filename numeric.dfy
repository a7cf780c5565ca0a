/** JavaScript number primitives used by every view: `Math.round`, `Math.min`/`Math.max`,
    `parseFloat`, `parseInt`, and the indicator-number normaliser `parseNumber` that strips
    currency signs, percent signs and thousands separators before parsing. Numbers are exact
    reals, so IEEE-754 rounding artefacts are not part of this model. */
module Numeric {
  import opened Wrappers

  // ---------------------------------------------------------------- Math

  /** `Math.round`: the nearest integer, halves rounded up (towards +infinity). */
  function Round(x: real): (r: int)
    ensures r as real <= x + 0.5 < r as real + 1.0
  {
    (x + 0.5).Floor
  }

  function Min(a: real, b: real): (r: real)
    ensures r <= a && r <= b && (r == a || r == b)
  {
    if a <= b then a else b
  }

  function Max(a: real, b: real): (r: real)
    ensures r >= a && r >= b && (r == a || r == b)
  {
    if a >= b then a else b
  }

  /** `Math.max(lo, Math.min(hi, x))`. */
  function Clamp(x: real, lo: real, hi: real): (r: real)
    requires lo <= hi
    ensures lo <= r <= hi
    ensures lo <= x <= hi ==> r == x
    ensures x < lo ==> r == lo
    ensures x > hi ==> r == hi
  {
    Max(lo, Min(hi, x))
  }

  lemma RoundOfInteger(n: int)
    ensures Round(n as real) == n
  {
  }

  /** Rounding is monotone, so a bound on a value carries over to its rounding. */
  lemma RoundMonotone(x: real, y: real)
    requires x <= y
    ensures Round(x) <= Round(y)
  {
  }

  // ---------------------------------------------------------------- decimal text

  predicate IsDigit(c: char) { '0' <= c <= '9' }

  function DigitValue(c: char): (d: nat)
    requires IsDigit(c)
    ensures d < 10
  {
    (c as int) - ('0' as int)
  }

  function DigitChar(d: nat): (c: char)
    requires d < 10
    ensures IsDigit(c) && DigitValue(c) == d
  {
    (('0' as int) + d) as char
  }

  predicate AllDigits(s: string) { forall i :: 0 <= i < |s| ==> IsDigit(s[i]) }

  /** Length of the longest run of digits at the start of `s`. */
  function DigitRun(s: string): (n: nat)
    ensures n <= |s|
    ensures AllDigits(s[..n])
    ensures n < |s| ==> !IsDigit(s[n])
  {
    if s == [] || !IsDigit(s[0]) then 0 else 1 + DigitRun(s[1..])
  }

  /** The value of a run of decimal digits, most significant first. */
  function NatValue(ds: string): nat
    requires AllDigits(ds)
  {
    if ds == [] then 0 else NatValue(ds[..|ds| - 1]) * 10 + DigitValue(ds[|ds| - 1])
  }

  /** The value of the digits after a decimal point: "25" is 0.25. */
  function FracValue(ds: string): (r: real)
    requires AllDigits(ds)
    ensures 0.0 <= r <= 1.0
  {
    if ds == [] then 0.0 else (DigitValue(ds[0]) as real + FracValue(ds[1..])) / 10.0
  }

  /** Decimal text of a natural number, without separators: the inverse of `NatValue`. */
  function NatToString(n: nat): (s: string)
    ensures |s| > 0 && AllDigits(s)
  {
    if n < 10 then [DigitChar(n)] else NatToString(n / 10) + [DigitChar(n % 10)]
  }

  lemma {:induction false} NatValueOfNatToString(n: nat)
    ensures NatValue(NatToString(n)) == n
  {
    if n >= 10 {
      var s := NatToString(n);
      assert s[..|s| - 1] == NatToString(n / 10);
      NatValueOfNatToString(n / 10);
    }
  }

  lemma {:induction false} DigitRunOfDigits(s: string, rest: string)
    requires AllDigits(s)
    requires rest == [] || !IsDigit(rest[0])
    ensures DigitRun(s + rest) == |s|
  {
    if s != [] {
      assert (s + rest)[1..] == s[1..] + rest;
      DigitRunOfDigits(s[1..], rest);
    }
  }

  // ---------------------------------------------------------------- parseFloat / parseInt

  predicate IsSpace(c: char) { c == ' ' || c == '\t' || c == '\n' || c == '\r' }

  function TrimStart(s: string): (r: string)
    ensures r == [] || !IsSpace(r[0])
    ensures |r| <= |s| && r == s[|s| - |r|..]
  {
    if s != [] && IsSpace(s[0]) then TrimStart(s[1..]) else s
  }

  /** An unsigned decimal prefix: digits, optionally a point and more digits; at least one digit. */
  function ParseUnsigned(s: string): Option<real>
  {
    var n := DigitRun(s);
    var whole := NatValue(s[..n]) as real;
    if n < |s| && s[n] == '.' then
      var m := DigitRun(s[n + 1..]);
      if n + m == 0 then None else Some(whole + FracValue(s[n + 1..][..m]))
    else if n == 0 then None
    else Some(whole)
  }

  /** `parseFloat`: leading blanks skipped, an optional sign, then the longest decimal prefix;
      `None` stands for NaN. */
  function ParseFloat(s: string): Option<real>
  {
    var t := TrimStart(s);
    if t != [] && t[0] == '-' then
      match ParseUnsigned(t[1..])
      case Some(x) => Some(-x)
      case None => None
    else if t != [] && t[0] == '+' then ParseUnsigned(t[1..])
    else ParseUnsigned(t)
  }

  /** `parseInt(s, 10)`: blanks, an optional sign, then the leading digits; `None` stands for NaN. */
  function ParseInt(s: string): Option<int>
  {
    var t := TrimStart(s);
    var neg := t != [] && t[0] == '-';
    var u := if t != [] && (t[0] == '-' || t[0] == '+') then t[1..] else t;
    var n := DigitRun(u);
    if n == 0 then None
    else Some(if neg then -(NatValue(u[..n]) as int) else NatValue(u[..n]))
  }

  /** `parseFloat(x) || 0`: NaN (and zero) become zero. */
  function ParseFloatOrZero(s: string): real
  {
    ParseFloat(s).GetOr(0.0)
  }

  lemma {:induction false} ParseFloatOfNatToString(n: nat)
    ensures ParseFloat(NatToString(n)) == Some(n as real)
  {
    var s := NatToString(n);
    assert IsDigit(s[0]);
    assert !IsSpace(s[0]) && s[0] != '-' && s[0] != '+';
    assert TrimStart(s) == s;
    assert ParseFloat(s) == ParseUnsigned(s);
    ParseUnsignedOfNatToString(n);
  }

  lemma {:induction false} ParseUnsignedOfNatToString(n: nat)
    ensures ParseUnsigned(NatToString(n)) == Some(n as real)
  {
    var s := NatToString(n);
    DigitRunOfDigits(s, []);
    assert s + [] == s;
    assert s[..|s|] == s;
    NatValueOfNatToString(n);
  }

  lemma {:induction false} ParseFloatOfNegative(n: nat)
    ensures ParseFloat("-" + NatToString(n)) == Some(-(n as real))
  {
    var s := NatToString(n);
    var t := "-" + s;
    assert t[0] == '-' && t[1..] == s;
    assert TrimStart(t) == t;
    ParseUnsignedOfNatToString(n);
  }

  lemma {:induction false} ParseIntOfNatToString(n: nat)
    ensures ParseInt(NatToString(n)) == Some(n as int)
  {
    var s := NatToString(n);
    assert IsDigit(s[0]);
    assert !IsSpace(s[0]) && s[0] != '-' && s[0] != '+';
    assert TrimStart(s) == s;
    DigitRunOfDigits(s, []);
    assert s + [] == s;
    assert s[..|s|] == s;
    NatValueOfNatToString(n);
  }

  /** Text that does not start (after blanks and a sign) with a digit or a point-digit is NaN. */
  lemma ParseFloatOfNonNumeric(s: string)
    requires s != [] && !IsDigit(s[0]) && !IsSpace(s[0]) && s[0] !in {'-', '+', '.'}
    ensures ParseFloat(s) == None
  {
  }

  // ---------------------------------------------------------------- parseNumber

  /** A logframe number field: JSON gives either a number or formatted text such as "$12,345". */
  datatype Value = Num(n: real) | Str(s: string)

  predicate IsSeparator(c: char) { c == '$' || c == ',' || c == '%' }

  /** `value.replace(/[$,%]/g, '').replace(/,/g, '')`. */
  function Strip(s: string): (r: string)
    ensures |r| <= |s|
    ensures forall i :: 0 <= i < |r| ==> !IsSeparator(r[i])
  {
    if s == [] then []
    else if IsSeparator(s[0]) then Strip(s[1..])
    else [s[0]] + Strip(s[1..])
  }

  lemma {:induction false} StripConcat(a: string, b: string)
    ensures Strip(a + b) == Strip(a) + Strip(b)
  {
    if a == [] {
      assert a + b == b;
    } else {
      assert (a + b)[1..] == a[1..] + b;
      StripConcat(a[1..], b);
    }
  }

  lemma {:induction false} StripIdempotent(s: string)
    requires forall i :: 0 <= i < |s| ==> !IsSeparator(s[i])
    ensures Strip(s) == s
  {
    if s != [] {
      StripIdempotent(s[1..]);
    }
  }

  /** `parseNumber`, shared by every progress view: a number is returned unchanged; text
      is stripped of `$`, `%` and `,` and parsed as a leading decimal, with 0 when that fails. */
  function ParseNumber(v: Value): real
  {
    match v
    case Num(x) => x
    case Str(s) => ParseFloatOrZero(Strip(s))
  }

  lemma ParseNumberOfNumber(x: real)
    ensures ParseNumber(Num(x)) == x
  {
  }

  /** The normaliser is idempotent: normalising its own result changes nothing. */
  lemma ParseNumberIdempotent(v: Value)
    ensures ParseNumber(Num(ParseNumber(v))) == ParseNumber(v)
  {
  }

  /** A `$`, `%` or `,` anywhere in the text does not change the parsed number. */
  lemma {:induction false} ParseNumberIgnoresSeparator(a: string, c: char, b: string)
    requires IsSeparator(c)
    ensures ParseNumber(Str(a + [c] + b)) == ParseNumber(Str(a + b))
  {
    StripConcat(a + [c], b);
    StripConcat(a, [c]);
    StripConcat(a, b);
    assert Strip([c]) == [];
    assert Strip(a) + [] == Strip(a);
  }

  /** Plain decimal text of a whole number parses back to that number. */
  lemma {:induction false} ParseNumberOfDecimalText(n: nat)
    ensures ParseNumber(Str(NatToString(n))) == n as real
  {
    var s := NatToString(n);
    assert forall i :: 0 <= i < |s| ==> !IsSeparator(s[i]);
    StripIdempotent(s);
    ParseFloatOfNatToString(n);
  }

  lemma {:induction false} ParseNumberOfCurrency()
    ensures ParseNumber(Str("$12,345")) == 12345.0
  {
    StripOfCurrency();
    NatToStringOfFiveDigits();
    ParseFloatOfNatToString(12345);
  }

  lemma StripOfCurrency()
    ensures Strip("$12,345") == "12345"
  {
    assert Strip("5") == "5" by { assert "5"[1..] == []; }
    assert Strip("45") == "45" by { assert "45"[1..] == "5"; }
    assert Strip("345") == "345" by { assert "345"[1..] == "45"; }
    assert Strip(",345") == "345" by { assert ",345"[1..] == "345"; }
    assert Strip("2,345") == "2345" by { assert "2,345"[1..] == ",345"; }
    assert Strip("12,345") == "12345" by { assert "12,345"[1..] == "2,345"; }
    assert "$12,345"[1..] == "12,345";
  }

  lemma NatToStringOfFiveDigits()
    ensures NatToString(12345) == "12345"
  {
    assert NatToString(1) == "1";
    assert NatToString(12) == "12";
    assert NatToString(123) == "123";
    assert NatToString(1234) == "1234";
  }

  lemma {:induction false} ParseNumberOfPercent()
    ensures ParseNumber(Str("45%")) == 45.0
  {
    assert Strip("45%") == "45";
    assert NatToString(45) == "45";
    ParseFloatOfNatToString(45);
  }

  lemma ParseNumberOfUnparsable()
    ensures ParseNumber(Str("")) == 0.0
    ensures ParseNumber(Str("n/a")) == 0.0
  {
    assert Strip("n/a") == "n/a";
    ParseFloatOfNonNumeric("n/a");
  }
}
