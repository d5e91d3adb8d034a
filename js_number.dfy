/**
 * JavaScript's `Number(string)`: the StringNumericLiteral grammar of section
 * 7.1.4.1.1 of ECMA-262.  Surrounding white space is ignored, the empty
 * string is 0, decimal literals may carry a sign, a fraction and an
 * exponent, `0x`, `0o` and `0b` prefixes read hexadecimal, octal and binary
 * digits, `Infinity` may be signed, and everything else is NaN.  Values are
 * exact rationals; rounding to the nearest double is not modelled.
 */
module JsNumber {
  import opened Wrappers

  datatype Number = NaN | Finite(value: real) | Infinity(negative: bool)

  /** `===` on numbers: NaN equals nothing, not even itself; -0 and 0 are the same real. */
  predicate SameNumber(a: Number, b: Number)
    ensures SameNumber(a, b) ==> !a.NaN? && !b.NaN? && a == b
  {
    !a.NaN? && a == b
  }

  /** StrWhiteSpaceChar: the WhiteSpace and LineTerminator code points. */
  predicate IsWhite(c: char) {
    c == '\t' || c == '\n' || c == '\U{B}' || c == '\U{C}' || c == '\r' || c == ' ' ||
    c == '\U{A0}' || c == '\U{1680}' || ('\U{2000}' <= c <= '\U{200A}') ||
    c == '\U{2028}' || c == '\U{2029}' || c == '\U{202F}' || c == '\U{205F}' ||
    c == '\U{3000}' || c == '\U{FEFF}'
  }

  function TrimStart(s: string): (r: string)
    ensures |r| <= |s| && r == s[|s| - |r|..]
    ensures forall i :: 0 <= i < |s| - |r| ==> IsWhite(s[i])
    ensures r != [] ==> !IsWhite(r[0])
  {
    if s != [] && IsWhite(s[0]) then
      var r := TrimStart(s[1..]);
      assert s[1..][|s| - 1 - |r|..] == s[|s| - |r|..];
      assert forall i :: 1 <= i < |s| - |r| ==> s[i] == s[1..][i - 1];
      r
    else s
  }

  function TrimEnd(s: string): (r: string)
    ensures |r| <= |s| && r == s[..|r|]
    ensures forall i :: |r| <= i < |s| ==> IsWhite(s[i])
    ensures r != [] ==> !IsWhite(r[|r| - 1])
  {
    if s != [] && IsWhite(s[|s| - 1]) then
      var r := TrimEnd(s[..|s| - 1]);
      assert s[..|s| - 1][..|r|] == s[..|r|];
      assert forall i :: |r| <= i < |s| - 1 ==> s[i] == s[..|s| - 1][i];
      r
    else s
  }

  /** The literal between the white space: a slice of the input with no white space at either end. */
  function Trim(s: string): (r: string)
    ensures exists i, j :: 0 <= i <= j <= |s| && r == s[i..j]
    ensures r != [] ==> !IsWhite(r[0]) && !IsWhite(r[|r| - 1])
  {
    var t := TrimStart(s);
    var r := TrimEnd(t);
    assert t == s[|s| - |t|..] && r == t[..|r|];
    assert r == s[|s| - |t|..|s| - |t| + |r|];
    r
  }

  predicate IsDigit(c: char, base: nat) {
    if base == 16 then '0' <= c <= '9' || 'a' <= c <= 'f' || 'A' <= c <= 'F'
    else '0' <= c <= '9' && (c as int - '0' as int) < base
  }

  function DigitValue(c: char): (d: nat)
    ensures IsDigit(c, 16) ==> d < 16
    ensures '0' <= c <= '9' ==> d == c as int - '0' as int
  {
    if '0' <= c <= '9' then c as int - '0' as int
    else if 'a' <= c <= 'f' then c as int - 'a' as int + 10
    else if 'A' <= c <= 'F' then c as int - 'A' as int + 10
    else 0
  }

  predicate AllDigits(s: string, base: nat) {
    forall i :: 0 <= i < |s| ==> IsDigit(s[i], base)
  }

  /** The value of a digit string in the given base, most significant digit first. */
  function DigitsValue(s: string, base: nat): nat {
    if s == [] then 0 else DigitsValue(s[..|s| - 1], base) * base + DigitValue(s[|s| - 1])
  }

  function Pow10(k: nat): (r: nat)
    ensures r >= 1
  {
    if k == 0 then 1 else 10 * Pow10(k - 1)
  }

  /** Multiplication by ten to the power k, for a positive or negative k. */
  function Scale(k: int): (r: real)
    ensures r > 0.0
  {
    if k >= 0 then Pow10(k) as real else 1.0 / (Pow10(-k) as real)
  }

  /** The index of the first occurrence of c or d, or the length when there is none. */
  function IndexOf(s: string, c: char, d: char): (i: nat)
    ensures i <= |s|
    ensures forall k :: 0 <= k < i ==> s[k] != c && s[k] != d
    ensures i < |s| ==> s[i] == c || s[i] == d
  {
    if s == [] then 0
    else if s[0] == c || s[0] == d then 0
    else 1 + IndexOf(s[1..], c, d)
  }

  /** ExponentPart after the `e`: an optional sign, then at least one decimal digit. */
  function ParseExponent(x: string): (r: Option<int>)
    ensures r.Some? && x != [] && x[0] != '+' && x[0] != '-' ==> r.value == DigitsValue(x, 10)
  {
    var neg := x != [] && x[0] == '-';
    var digits := if x != [] && (x[0] == '+' || x[0] == '-') then x[1..] else x;
    if digits != [] && AllDigits(digits, 10) then
      Some(if neg then -(DigitsValue(digits, 10) as int) else DigitsValue(digits, 10) as int)
    else None
  }

  /**
   * The digits of a decimal literal before its exponent: an optional point
   * with at least one digit on one side of it.
   */
  function ParseMantissa(m: string): (r: Option<real>)
    ensures r.Some? ==> r.value >= 0.0
  {
    var dot := IndexOf(m, '.', '.');
    var whole := m[..dot];
    var frac := if dot < |m| then m[dot + 1..] else "";
    if AllDigits(whole, 10) && AllDigits(frac, 10) && (whole != [] || frac != []) then
      Some((DigitsValue(whole, 10) as real) + (DigitsValue(frac, 10) as real) / (Pow10(|frac|) as real))
    else None
  }

  /** StrUnsignedDecimalLiteral other than Infinity: a mantissa, optionally followed by an exponent. */
  function ParseUnsignedDecimal(b: string): (r: Option<real>) {
    var e := IndexOf(b, 'e', 'E');
    var exp := if e < |b| then ParseExponent(b[e + 1..]) else Some(0);
    match ParseMantissa(b[..e])
    case None => None
    case Some(v) => if exp.Some? then Some(v * Scale(exp.value)) else None
  }

  /** StrDecimalLiteral: an optional sign, then Infinity or an unsigned decimal literal. */
  function ParseDecimal(t: string): (r: Number) {
    var neg := t != [] && t[0] == '-';
    var rest := if t != [] && (t[0] == '+' || t[0] == '-') then t[1..] else t;
    if rest == "Infinity" then Infinity(neg)
    else
      match ParseUnsignedDecimal(rest)
      case None => NaN
      case Some(v) => Finite(if neg then -v else v)
  }

  /** A `0x`/`0o`/`0b` literal: the prefix, then at least one digit of the base. */
  function ParsePrefixed(rest: string, base: nat): (r: Number) {
    if rest != [] && AllDigits(rest, base) then Finite(DigitsValue(rest, base) as real) else NaN
  }

  /** Number(s) for a string s. */
  function ToNumber(s: string): (r: Number) {
    var t := Trim(s);
    if t == [] then Finite(0.0)
    else if |t| >= 2 && t[0] == '0' && (t[1] == 'x' || t[1] == 'X') then ParsePrefixed(t[2..], 16)
    else if |t| >= 2 && t[0] == '0' && (t[1] == 'o' || t[1] == 'O') then ParsePrefixed(t[2..], 8)
    else if |t| >= 2 && t[0] == '0' && (t[1] == 'b' || t[1] == 'B') then ParsePrefixed(t[2..], 2)
    else ParseDecimal(t)
  }

  predicate NoDigit(s: string) {
    forall i :: 0 <= i < |s| ==> !IsDigit(s[i], 10)
  }

  /** A mantissa needs a digit before or after its point. */
  lemma MantissaNeedsDigit(m: string)
    requires NoDigit(m)
    ensures ParseMantissa(m).None?
  {
    var dot := IndexOf(m, '.', '.');
    var whole := m[..dot];
    var frac := if dot < |m| then m[dot + 1..] else "";
    if whole != [] {
      assert whole[0] == m[0];
    } else if frac != [] {
      assert frac[0] == m[dot + 1];
    }
  }

  lemma UnsignedNeedsDigit(b: string)
    requires NoDigit(b)
    ensures ParseUnsignedDecimal(b).None?
  {
    var e := IndexOf(b, 'e', 'E');
    assert forall k :: 0 <= k < e ==> b[..e][k] == b[k];
    MantissaNeedsDigit(b[..e]);
  }

  lemma DecimalNeedsDigit(t: string)
    requires NoDigit(t) && t !in {"Infinity", "+Infinity", "-Infinity"}
    ensures ParseDecimal(t).NaN?
  {
    var rest := if t != [] && (t[0] == '+' || t[0] == '-') then t[1..] else t;
    if t != [] && (t[0] == '+' || t[0] == '-') {
      assert t == [t[0]] + rest;
      assert [t[0]] + "Infinity" == "+Infinity" || [t[0]] + "Infinity" == "-Infinity";
    }
    assert rest != "Infinity";
    assert forall k :: 0 <= k < |rest| ==> rest[k] == t[|t| - |rest| + k];
    UnsignedNeedsDigit(rest);
  }

  /**
   * A string with no decimal digit in it is NaN, unless it is blank (0) or
   * a signed or unsigned Infinity.
   */
  lemma NoDigitIsNaN(s: string)
    requires NoDigit(s)
    requires Trim(s) !in {"", "Infinity", "+Infinity", "-Infinity"}
    ensures ToNumber(s).NaN?
  {
    TrimNoDigit(s);
    DecimalRoute(s);
    DecimalNeedsDigit(Trim(s));
  }

  lemma TrimNoDigit(s: string)
    requires NoDigit(s)
    ensures NoDigit(Trim(s))
  {
    var i, j :| 0 <= i <= j <= |s| && Trim(s) == s[i..j];
    SliceNoDigit(s, i, j);
  }

  lemma SliceNoDigit(s: string, i: nat, j: nat)
    requires NoDigit(s) && i <= j <= |s|
    ensures NoDigit(s[i..j])
  {
    assert forall k :: 0 <= k < j - i ==> s[i..j][k] == s[i + k];
  }

  lemma NumeralIsTrimmed(s: string)
    requires s != [] && AllDigits(s, 10)
    ensures Trim(s) == s
  {
    assert !IsWhite(s[0]) && !IsWhite(s[|s| - 1]);
    assert TrimStart(s) == s;
    assert TrimEnd(s) == s;
  }

  lemma NumeralMantissa(s: string)
    requires s != [] && AllDigits(s, 10)
    ensures ParseMantissa(s) == Some(DigitsValue(s, 10) as real)
  {
    var dot := IndexOf(s, '.', '.');
    assert forall k :: 0 <= k < |s| ==> s[k] != '.';
    assert s[..dot] == s;
    assert DigitsValue("", 10) == 0;
  }

  lemma NumeralUnsigned(s: string)
    requires s != [] && AllDigits(s, 10)
    ensures ParseUnsignedDecimal(s) == Some(DigitsValue(s, 10) as real)
  {
    var e := IndexOf(s, 'e', 'E');
    assert forall k :: 0 <= k < |s| ==> s[k] != 'e' && s[k] != 'E';
    assert s[..e] == s;
    NumeralMantissa(s);
  }

  lemma NumeralDecimal(s: string)
    requires s != [] && AllDigits(s, 10)
    ensures ParseDecimal(s) == Finite(DigitsValue(s, 10) as real)
  {
    assert IsDigit(s[0], 10);
    assert s[0] != "Infinity"[0];
    NumeralUnsigned(s);
  }

  /** A plain numeral, such as a server-assigned id, is its own value. */
  lemma NumeralValue(s: string)
    requires s != [] && AllDigits(s, 10)
    ensures ToNumber(s) == Finite(DigitsValue(s, 10) as real)
  {
    NumeralIsTrimmed(s);
    assert |s| >= 2 ==> IsDigit(s[1], 10);
    DecimalRoute(s);
    NumeralDecimal(s);
  }

  /** A literal that does not start with `0x`, `0o` or `0b` (in either case) is read by the decimal grammar. */
  lemma DecimalRoute(s: string)
    requires Trim(s) != [] && (|Trim(s)| >= 2 && Trim(s)[0] == '0' ==> IsDigit(Trim(s)[1], 10))
    ensures ToNumber(s) == ParseDecimal(Trim(s))
  {
    var t := Trim(s);
    assert !(|t| >= 2 && t[0] == '0' && (t[1] == 'x' || t[1] == 'X' || t[1] == 'o' || t[1] == 'O' || t[1] == 'b' || t[1] == 'B'));
  }

  lemma {:induction false} LeadingZeroValue(s: string)
    ensures DigitsValue("0" + s, 10) == DigitsValue(s, 10)
  {
    if s != [] {
      assert ("0" + s)[..|s|] == "0" + s[..|s| - 1];
      LeadingZeroValue(s[..|s| - 1]);
    } else {
      assert DigitsValue("0", 10) == DigitsValue("", 10) * 10 + DigitValue('0');
    }
  }

  /** Ids that differ only by leading zeros name the same number. */
  lemma LeadingZeroAlias(s: string)
    requires s != [] && AllDigits(s, 10)
    ensures SameNumber(ToNumber("0" + s), ToNumber(s))
  {
    assert AllDigits("0" + s, 10) by {
      assert forall k :: 1 <= k < |s| + 1 ==> ("0" + s)[k] == s[k - 1];
    }
    NumeralValue(s);
    NumeralValue("0" + s);
    LeadingZeroValue(s);
  }

  /** White space around a literal does not change its value. */
  lemma TrimIgnored(s: string)
    ensures ToNumber(Trim(s)) == ToNumber(s)
  {
    var t := Trim(s);
    if t != [] {
      assert TrimStart(t) == t;
      assert TrimEnd(t) == t;
    }
  }
}
