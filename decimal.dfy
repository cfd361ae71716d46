/** A simplified model of Python's `float(text)`: surrounding whitespace, an
    optional sign, and a decimal numeral with an optional fractional part
    ("12", "12.5", "12.", ".5"). Parsing failure, Python's `ValueError`, is `None`. */
module Decimal {
  import opened Wrappers
  import opened Text

  predicate AllDigits(s: string) {
    forall k :: 0 <= k < |s| ==> IsDigit(s[k])
  }

  function DigitValue(c: char): nat
    requires IsDigit(c)
  {
    c as int - '0' as int
  }

  /** The natural number a digit string denotes, most significant digit first. */
  function DigitsValue(s: string): nat
    requires AllDigits(s)
  {
    if s == [] then 0 else DigitsValue(s[..|s| - 1]) * 10 + DigitValue(s[|s| - 1])
  }

  function Pow10(n: nat): (p: nat)
    ensures p >= 1
  {
    if n == 0 then 1 else 10 * Pow10(n - 1)
  }

  /** A numeral without sign: digits, or digits '.' digits with at least one digit in all. */
  function UnsignedValue(s: string): Option<real> {
    var parts := SplitOn(s, '.');
    if |parts| == 1 then
      if s != [] && AllDigits(s) then Some(DigitsValue(s) as real) else None
    else if |parts| == 2 then
      var whole, frac := parts[0], parts[1];
      if AllDigits(whole) && AllDigits(frac) && (whole != [] || frac != []) then
        Some(FractionValue(whole, frac))
      else None
    else None
  }

  /** The value of the numeral "whole.frac". */
  function FractionValue(whole: string, frac: string): real
    requires AllDigits(whole) && AllDigits(frac)
  {
    DigitsValue(whole) as real + DigitsValue(frac) as real / Pow10(|frac|) as real
  }

  /** `float(s)` on the simplified grammar. */
  function ParseFloat(s: string): (r: Option<real>)
  {
    var t := Strip(s);
    var negative := t != [] && t[0] == '-';
    var unsigned := if t != [] && (t[0] == '-' || t[0] == '+') then t[1..] else t;
    match UnsignedValue(unsigned)
    case Some(v) => Some(if negative then -v else v)
    case None => None
  }

  function DigitChar(d: nat): (c: char)
    requires d < 10
    ensures IsDigit(c) && DigitValue(c) == d
  {
    ('0' as int + d) as char
  }

  /** The decimal numeral of `n`, as Python's `str(n)` writes it. */
  function Numeral(n: nat): (s: string)
    ensures s != [] && AllDigits(s)
  {
    if n < 10 then [DigitChar(n)] else Numeral(n / 10) + [DigitChar(n % 10)]
  }

  lemma {:induction false} NumeralValue(n: nat)
    ensures DigitsValue(Numeral(n)) == n
  {
    if n >= 10 {
      NumeralValue(n / 10);
      var s := Numeral(n);
      assert s[..|s| - 1] == Numeral(n / 10);
    }
  }

  lemma DigitsFree(s: string, c: char)
    requires AllDigits(s) && !IsDigit(c)
    ensures c !in s
  {
  }

  lemma UnsignedDigits(s: string)
    requires s != [] && AllDigits(s)
    ensures UnsignedValue(s) == Some(DigitsValue(s) as real)
  {
    DigitsFree(s, '.');
    SplitOnWithout(s, '.');
  }

  lemma SplitFraction(whole: string, frac: string)
    requires AllDigits(whole) && AllDigits(frac)
    ensures SplitOn(whole + "." + frac, '.') == [whole, frac]
  {
    assert whole + "." + frac == whole + ['.'] + frac;
    DigitsFree(whole, '.');
    DigitsFree(frac, '.');
    SplitOnFirst(whole, frac, '.');
    SplitOnWithout(frac, '.');
  }

  lemma UnsignedFraction(whole: string, frac: string)
    requires AllDigits(whole) && AllDigits(frac) && (whole != [] || frac != [])
    ensures UnsignedValue(whole + "." + frac) == Some(FractionValue(whole, frac))
  {
    SplitFraction(whole, frac);
    UnsignedOfSplit(whole + "." + frac, whole, frac);
  }

  lemma UnsignedOfSplit(s: string, whole: string, frac: string)
    requires AllDigits(whole) && AllDigits(frac) && (whole != [] || frac != [])
    requires SplitOn(s, '.') == [whole, frac]
    ensures UnsignedValue(s) == Some(FractionValue(whole, frac))
  {
  }

  /** A string that starts with a digit and has no surrounding blanks is parsed as it stands. */
  lemma ParseFloatUnsigned(s: string)
    requires s != [] && IsDigit(s[0]) && !IsSpace(s[|s| - 1])
    ensures ParseFloat(s) == UnsignedValue(s)
  {
    StripStripped(s);
  }

  /** A plain digit string parses to the number it denotes. */
  lemma ParseFloatDigits(s: string)
    requires s != [] && AllDigits(s)
    ensures ParseFloat(s) == Some(DigitsValue(s) as real)
  {
    ParseFloatUnsigned(s);
    UnsignedDigits(s);
  }

  /** `float(str(n)) == n`: the parser reads back every numeral. */
  lemma ParseFloatNumeral(n: nat)
    ensures ParseFloat(Numeral(n)) == Some(n as real)
  {
    ParseFloatDigits(Numeral(n));
    NumeralValue(n);
  }

  lemma StripSigned(d: string)
    requires d != [] && AllDigits(d)
    ensures Strip("-" + d) == "-" + d
  {
    var s := "-" + d;
    assert s[|s| - 1] == d[|d| - 1];
    StripStripped(s);
  }

  /** `float(str(-n)) == -n`. */
  lemma ParseFloatNegativeNumeral(n: nat)
    ensures ParseFloat("-" + Numeral(n)) == Some(-(n as real))
  {
    var d := Numeral(n);
    StripSigned(d);
    assert ("-" + d)[1..] == d;
    UnsignedDigits(d);
    NumeralValue(n);
    ParseFloatMinus("-" + d, n as real);
  }

  lemma ParseFloatMinus(s: string, v: real)
    requires Strip(s) == s && s != [] && s[0] == '-' && UnsignedValue(s[1..]) == Some(v)
    ensures ParseFloat(s) == Some(-v)
  {
    assert ParseFloat(s).Some?;
    assert ParseFloat(s).value == -v;
  }

  /** `float("w.f")` is the whole part plus the fraction's digits over a power of ten. */
  lemma ParseFloatFraction(whole: string, frac: string)
    requires whole != [] && AllDigits(whole) && AllDigits(frac)
    ensures ParseFloat(whole + "." + frac) == Some(FractionValue(whole, frac))
  {
    var s := whole + "." + frac;
    assert s[0] == whole[0];
    assert s[|s| - 1] == if frac == [] then '.' else frac[|frac| - 1];
    ParseFloatUnsigned(s);
    UnsignedFraction(whole, frac);
  }

  /** An unsigned numeral the parser accepts is made of digits and at most one point. */
  lemma UnsignedShape(u: string)
    requires UnsignedValue(u).Some?
    ensures u != []
    ensures forall k :: 0 <= k < |u| ==> IsDigit(u[k]) || u[k] == '.'
    ensures Count(u, '.') <= 1
  {
    var parts := SplitOn(u, '.');
    SplitOnPieces(u, '.');
    JoinSplitOn(u, '.');
    if |parts| == 2 {
      assert Join(parts[1..], '.') == parts[1];
      assert u == parts[0] + ['.'] + parts[1];
      forall k | 0 <= k < |u|
        ensures IsDigit(u[k]) || u[k] == '.'
      {
        if k < |parts[0]| {
          assert u[k] == parts[0][k];
        } else if k > |parts[0]| {
          assert u[k] == parts[1][k - |parts[0]| - 1];
        }
      }
    }
  }

  /** `float(s)` succeeds only on an optional sign followed by such a numeral,
      once surrounding whitespace is stripped; in particular it rejects the
      blank string and any text with a letter in it. */
  lemma ParseFloatShape(s: string)
    requires ParseFloat(s).Some?
    ensures var t := Strip(s);
            && t != []
            && (forall k :: 0 <= k < |t| ==>
                  IsDigit(t[k]) || t[k] == '.' || (k == 0 && (t[0] == '-' || t[0] == '+')))
  {
    var t := Strip(s);
    var unsigned := if t != [] && (t[0] == '-' || t[0] == '+') then t[1..] else t;
    UnsignedShape(unsigned);
    if t != [] && (t[0] == '-' || t[0] == '+') {
      assert forall k :: 1 <= k < |t| ==> t[k] == unsigned[k - 1];
    }
  }
}
