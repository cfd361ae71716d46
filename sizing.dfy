/** The two size-string estimators: billet mass from a cross-section
    "WxH" (app.py:42-51) and cutting waste from an inch-size token
    (app.py:53-68). */
module Sizing {
  import opened Wrappers
  import opened Text
  import opened Decimal

  /** The reference billet: a 20-foot bar of 100 x 100 mm weighs 482 kg (app.py:10-13). */
  const RefWidthMm: real := 100.0
  const RefHeightMm: real := 100.0
  const RefMassKg: real := 482.0

  /** The reference mass scaled by the ratio of a `w` x `h` section to the
      reference section, or `None` when the reference section is degenerate. */
  function AreaMass(w: real, h: real): Option<real> {
    if RefWidthMm == 0.0 || RefHeightMm == 0.0 then None
    else Some(w * h * RefMassKg / (RefWidthMm * RefHeightMm))
  }

  /** The mass for the pieces of a section split at its `x`. */
  function MassOfParts(parts: seq<string>): Option<real> {
    if |parts| != 2 then None
    else
      var w, h := ParseFloat(parts[0]), ParseFloat(parts[1]);
      if w.Some? && h.Some? then AreaMass(w.value, h.value) else None
  }

  /** `calculate_billet_weight_from_section`: `None` for an empty section or
      one without an `x` (either case); otherwise the mass of its two sides. */
  function BilletMass(section: string): Option<real> {
    var lowered := Lower(section);
    if section == [] || 'x' !in lowered then None
    else MassOfParts(SplitOn(lowered, 'x'))
  }

  /** The reference section is not degenerate: every pair of sides has a mass,
      482 kg per 100 x 100 mm. */
  lemma AreaMassValue(w: real, h: real)
    ensures AreaMass(w, h).Some? && AreaMass(w, h).value == w * h * 482.0 / 10000.0
  {
    var p := w * h * RefMassKg;
    assert RefWidthMm * RefHeightMm == 10000.0;
    assert p / (RefWidthMm * RefHeightMm) == p / 10000.0;
    assert AreaMass(w, h) == Some(p / (RefWidthMm * RefHeightMm));
    assert p == w * h * 482.0;
  }

  lemma MassOfPartsSome(parts: seq<string>)
    requires MassOfParts(parts).Some?
    ensures |parts| == 2 && ParseFloat(parts[0]).Some? && ParseFloat(parts[1]).Some?
    ensures MassOfParts(parts).value == ParseFloat(parts[0]).value * ParseFloat(parts[1]).value * 482.0 / 10000.0
  {
    var w, h := ParseFloat(parts[0]), ParseFloat(parts[1]);
    assert w.Some? && h.Some?;
    assert MassOfParts(parts) == AreaMass(w.value, h.value);
    AreaMassValue(w.value, h.value);
  }

  /** Whenever a mass comes out, the lower-cased section had exactly one `x`
      and both sides of it were numbers, and the mass is their scaled product. */
  lemma BilletMassNeedsTwoParts(section: string)
    requires BilletMass(section).Some?
    ensures Count(Lower(section), 'x') == 1
    ensures var parts := SplitOn(Lower(section), 'x');
            |parts| == 2 && ParseFloat(parts[0]).Some? && ParseFloat(parts[1]).Some?
  {
    var parts := SplitOn(Lower(section), 'x');
    BilletMassOfParts(section);
    SplitOnPieces(Lower(section), 'x');
    MassOfPartsSome(parts);
  }

  lemma BilletMassOfParts(section: string)
    requires BilletMass(section).Some?
    ensures MassOfParts(SplitOn(Lower(section), 'x')).Some?
    ensures BilletMass(section).value == MassOfParts(SplitOn(Lower(section), 'x')).value
  {
  }


  lemma LowerSection(a: string, b: string, sep: char)
    requires AllDigits(a) && AllDigits(b)
    requires sep == 'x' || sep == 'X'
    ensures Lower(a + [sep] + b) == a + ['x'] + b
  {
    var s := a + [sep] + b;
    var t := a + ['x'] + b;
    assert forall k :: 0 <= k < |s| ==> Lower(s)[k] == t[k] by {
      forall k | 0 <= k < |s|
        ensures Lower(s)[k] == t[k]
      {
        if k < |a| {
          assert s[k] == a[k] && t[k] == a[k];
        } else if k == |a| {
          assert s[k] == sep && t[k] == 'x';
        } else {
          assert s[k] == b[k - |a| - 1] && t[k] == b[k - |a| - 1];
        }
      }
    }
  }

  lemma SplitSides(a: string, b: string)
    requires AllDigits(a) && AllDigits(b)
    ensures SplitOn(a + ['x'] + b, 'x') == [a, b]
  {
    DigitsFree(a, 'x');
    DigitsFree(b, 'x');
    SplitOnFirst(a, b, 'x');
    SplitOnWithout(b, 'x');
  }

  lemma MassOfNumerals(w: nat, h: nat)
    ensures MassOfParts([Numeral(w), Numeral(h)]).Some?
    ensures MassOfParts([Numeral(w), Numeral(h)]).value == (w as real) * (h as real) * 482.0 / 10000.0
  {
    ParseFloatNumeral(w);
    ParseFloatNumeral(h);
    MassOfPartsValue([Numeral(w), Numeral(h)], w as real, h as real);
  }

  lemma MassOfPartsValue(parts: seq<string>, w: real, h: real)
    requires |parts| == 2 && ParseFloat(parts[0]) == Some(w) && ParseFloat(parts[1]) == Some(h)
    ensures MassOfParts(parts).Some? && MassOfParts(parts).value == w * h * 482.0 / 10000.0
  {
    AreaMassValue(w, h);
  }

  /** For a section written "WxH" or "WXH" with whole millimetre sides the mass is
      W * H * 482 / (100 * 100). */
  lemma BilletMassOfSizes(w: nat, h: nat, sep: char)
    requires sep == 'x' || sep == 'X'
    ensures BilletMass(Numeral(w) + [sep] + Numeral(h)).Some?
    ensures BilletMass(Numeral(w) + [sep] + Numeral(h)).value == (w as real) * (h as real) * 482.0 / 10000.0
  {
    var a, b := Numeral(w), Numeral(h);
    LowerSection(a, b, sep);
    assert (a + ['x'] + b)[|a|] == 'x';
    SplitSides(a, b);
    MassOfNumerals(w, h);
  }

  /** A section without any `x`, in either case, has no mass. */
  lemma BilletMassWithoutSeparator(section: string)
    requires 'x' !in Lower(section)
    ensures BilletMass(section) == None
  {
  }

  /** A 50 x 100 mm section weighs half the reference billet. */
  lemma BilletMassExample()
    ensures BilletMass("50x100").Some? && BilletMass("50x100").value == 241.0
  {
    BilletMassOfSizes(50, 100, 'x');
    assert Numeral(5) == "5";
    assert Numeral(50) == "50";
    assert Numeral(10) == "10";
    assert Numeral(100) == "100";
    assert Numeral(50) + ['x'] + Numeral(100) == "50x100";
  }

  /** The reasons an inch size cannot be turned into a number without raising. */
  datatype WasteError = DivisionByZero

  /** The numeric inch value of a size token (app.py:55-63): "_inch" removed,
      surrounding whitespace stripped, then read from its '_'-separated parts. */
  function InchValue(size: string): Result<real, WasteError> {
    InchOfParts(SplitOn(Strip(RemoveAll(size, "_inch")), '_'))
  }

  /** One part is a number, two a fraction, three a mixed number, more than
      three the first part; a part that does not parse gives 0. A zero
      denominator raises `ZeroDivisionError`, which the `except` does not catch. */
  function InchOfParts(parts: seq<string>): Result<real, WasteError>
    requires |parts| >= 1
  {
    var a := ParseFloat(parts[0]);
    if |parts| == 2 then
      var b := ParseFloat(parts[1]);
      if a.None? || b.None? then Success(0.0)
      else if b.value == 0.0 then Failure(DivisionByZero)
      else Success(a.value / b.value)
    else if |parts| == 3 then
      var b, c := ParseFloat(parts[1]), ParseFloat(parts[2]);
      if a.None? || b.None? || c.None? then Success(0.0)
      else if c.value == 0.0 then Failure(DivisionByZero)
      else Success(a.value + b.value / c.value)
    else Success(a.GetOr(0.0))
  }

  /** The only error is a zero denominator among numeric parts. */
  lemma InchOfPartsFails(parts: seq<string>)
    requires |parts| >= 1
    ensures InchOfParts(parts).Failure? <==>
            (|parts| == 2 || |parts| == 3) &&
            (forall k :: 0 <= k < |parts| ==> ParseFloat(parts[k]).Some?) &&
            ParseFloat(parts[|parts| - 1]) == Some(0.0)
  {
  }

  lemma InchOfPartsWhole(parts: seq<string>, a: real)
    requires |parts| == 1 && ParseFloat(parts[0]) == Some(a)
    ensures InchOfParts(parts) == Success(a)
  {
  }

  lemma InchOfPartsFraction(parts: seq<string>, a: real, b: real)
    requires |parts| == 2 && ParseFloat(parts[0]) == Some(a) && ParseFloat(parts[1]) == Some(b)
    ensures InchOfParts(parts) == if b == 0.0 then Failure(DivisionByZero) else Success(a / b)
  {
  }

  lemma InchOfPartsMixed(parts: seq<string>, a: real, b: real, c: real)
    requires |parts| == 3
    requires ParseFloat(parts[0]) == Some(a) && ParseFloat(parts[1]) == Some(b) && ParseFloat(parts[2]) == Some(c)
    ensures InchOfParts(parts) == if c == 0.0 then Failure(DivisionByZero) else Success(a + b / c)
  {
  }

  /** Among one to three parts, any part that does not parse makes the value 0. */
  lemma InchOfPartsUnreadable(parts: seq<string>, k: nat)
    requires k < |parts| <= 3 && ParseFloat(parts[k]).None?
    ensures InchOfParts(parts) == Success(0.0)
  {
  }

  /** With more than three parts only the first is read, as 0 when it does not parse. */
  lemma InchOfPartsMany(parts: seq<string>)
    requires |parts| > 3
    ensures InchOfParts(parts) == Success(ParseFloat(parts[0]).GetOr(0.0))
  {
  }

  /** The waste allowance per piece for an inch value (app.py:64-68). */
  function WasteBand(v: real): (kg: real)
    ensures kg == 0.2 <==> v <= 4.0
    ensures kg == 0.5 <==> 4.0 < v <= 8.0
    ensures kg == 1.0 <==> 8.0 < v
  {
    if v <= 0.0 then 0.2
    else if v <= 4.0 then 0.2
    else if v <= 8.0 then 0.5
    else if v <= 12.0 then 1.0
    else 1.0
  }

  /** A larger pipe never gets a smaller allowance. */
  lemma WasteBandMonotone(v: real, u: real)
    requires v <= u
    ensures WasteBand(v) <= WasteBand(u)
  {
  }

  /** `get_cutting_waste_kg` as written: an empty size gives 0.2 kg, and a zero
      denominator is an uncaught error. */
  function CuttingWasteAsWritten(size: string): Result<real, WasteError> {
    if size == [] then Success(0.2)
    else
      match InchValue(size)
      case Success(v) => Success(WasteBand(v))
      case Failure(e) => Failure(e)
  }

  /** `get_cutting_waste_kg` with a zero denominator treated like the other
      unreadable sizes, as the `except` clause intends: value 0, hence 0.2 kg. */
  function CuttingWaste(size: string): (kg: real)
    ensures kg == 0.2 || kg == 0.5 || kg == 1.0
  {
    if size == [] then 0.2
    else
      match InchValue(size)
      case Success(v) => WasteBand(v)
      case Failure(_) => WasteBand(0.0)
  }

  /** The corrected estimator agrees with the source wherever the source returns,
      and gives the default 0.2 kg where the source raises. */
  lemma CuttingWasteAgrees(size: string)
    ensures CuttingWasteAsWritten(size).Success? ==> CuttingWaste(size) == CuttingWasteAsWritten(size).value
    ensures CuttingWasteAsWritten(size).Failure? ==> CuttingWaste(size) == 0.2
  {
  }

  lemma NoInchIn(s: string)
    requires 'i' !in s
    ensures RemoveAll(s, "_inch") == s
    decreases |s|
  {
    if |s| >= 5 {
      assert s[..5] != "_inch" by {
        assert s[1] != "_inch"[1];
      }
      NoInchIn(s[1..]);
      assert [s[0]] + s[1..] == s;
    }
  }

  lemma {:induction false} InchSuffix(s: string)
    requires 'i' !in s
    ensures RemoveAll(s + "_inch", "_inch") == s
    decreases |s|
  {
    var t := s + "_inch";
    if s == [] {
      assert t == "_inch" && t[..5] == "_inch" && t[5..] == [];
    } else {
      assert t[..5] != "_inch" by {
        assert t[1] == if |s| > 1 then s[1] else '_';
      }
      assert t[1..] == s[1..] + "_inch";
      InchSuffix(s[1..]);
      assert [s[0]] + s[1..] == s;
    }
  }

  /** A size with no 'i' and no surrounding whitespace is read as it stands. */
  lemma CleanedAsIs(s: string, suffix: bool)
    requires 'i' !in s && IsStripped(s)
    ensures Strip(RemoveAll(s + (if suffix then "_inch" else ""), "_inch")) == s
  {
    if suffix { InchSuffix(s); } else { assert s + "" == s; NoInchIn(s); }
    StripStripped(s);
  }

  /** Digits joined by underscores have no 'i' and no surrounding whitespace. */
  lemma JoinedDigits(x: string, y: string)
    requires x != [] && y != [] && !IsSpace(x[0]) && !IsSpace(y[|y| - 1])
    requires 'i' !in x && 'i' !in y
    ensures 'i' !in x + ['_'] + y && IsStripped(x + ['_'] + y)
  {
    var s := x + ['_'] + y;
    assert s[0] == x[0];
    assert s[|s| - 1] == y[|y| - 1];
  }

  /** A whole number of inches, with or without the "_inch" suffix, is that number. */
  lemma InchValueWhole(n: nat, suffix: bool)
    ensures InchValue(Numeral(n) + (if suffix then "_inch" else "")) == Success(n as real)
  {
    var d := Numeral(n);
    DigitsFree(d, 'i');
    CleanedAsIs(d, suffix);
    DigitsFree(d, '_');
    SplitOnWithout(d, '_');
    ParseFloatNumeral(n);
    InchOfPartsWhole([d], n as real);
  }

  /** "a_b" is the fraction a / b. */
  lemma InchValueFraction(a: nat, b: nat)
    ensures InchValue(Numeral(a) + "_" + Numeral(b)) ==
            if b == 0 then Failure(DivisionByZero) else Success(a as real / b as real)
  {
    var x, y := Numeral(a), Numeral(b);
    var s := x + ['_'] + y;
    assert x + "_" + y == s;
    DigitsFree(x, 'i');
    DigitsFree(y, 'i');
    JoinedDigits(x, y);
    CleanedAsIs(s, false);
    assert s + "" == s;
    DigitsFree(x, '_');
    DigitsFree(y, '_');
    SplitOnFirst(x, y, '_');
    SplitOnWithout(y, '_');
    ParseFloatNumeral(a);
    ParseFloatNumeral(b);
    InchOfPartsFraction([x, y], a as real, b as real);
  }

  lemma SplitThree(x: string, y: string, z: string)
    requires '_' !in x && '_' !in y && '_' !in z
    ensures SplitOn(x + ['_'] + (y + ['_'] + z), '_') == [x, y, z]
  {
    SplitOnFirst(x, y + ['_'] + z, '_');
    SplitOnFirst(y, z, '_');
    SplitOnWithout(z, '_');
  }

  /** Reading a cleaned size is reading its '_'-separated parts. */
  lemma InchValueOfParts(s: string, parts: seq<string>)
    requires 'i' !in s && IsStripped(s) && SplitOn(s, '_') == parts
    ensures |parts| >= 1 && InchValue(s) == InchOfParts(parts)
  {
    CleanedAsIs(s, false);
    assert s + "" == s;
  }

  lemma MixedText(x: string, y: string, z: string)
    requires AllDigits(x) && AllDigits(y) && AllDigits(z) && x != [] && y != [] && z != []
    ensures InchValue(x + "_" + y + "_" + z) == InchOfParts([x, y, z])
  {
    var tail := y + ['_'] + z;
    var s := x + ['_'] + tail;
    assert x + "_" + y + "_" + z == s;
    DigitsFree(x, 'i');
    DigitsFree(y, 'i');
    DigitsFree(z, 'i');
    JoinedDigits(y, z);
    JoinedDigits(x, tail);
    DigitsFree(x, '_');
    DigitsFree(y, '_');
    DigitsFree(z, '_');
    SplitThree(x, y, z);
    InchValueOfParts(s, [x, y, z]);
  }

  lemma MixedValue(x: string, y: string, z: string, a: real, b: real, c: real)
    requires AllDigits(x) && AllDigits(y) && AllDigits(z) && x != [] && y != [] && z != []
    requires ParseFloat(x) == Some(a) && ParseFloat(y) == Some(b) && ParseFloat(z) == Some(c)
    ensures InchValue(x + "_" + y + "_" + z) == if c == 0.0 then Failure(DivisionByZero) else Success(a + b / c)
  {
    MixedText(x, y, z);
    InchOfPartsMixed([x, y, z], a, b, c);
  }

  /** "a_b_c" is the mixed number a + b / c. */
  lemma InchValueMixed(a: nat, b: nat, c: nat)
    ensures InchValue(Numeral(a) + "_" + Numeral(b) + "_" + Numeral(c)) ==
            if c == 0 then Failure(DivisionByZero) else Success(a as real + b as real / c as real)
  {
    ParseFloatNumeral(a);
    ParseFloatNumeral(b);
    ParseFloatNumeral(c);
    MixedValue(Numeral(a), Numeral(b), Numeral(c), a as real, b as real, c as real);
  }

  /** "1_0" makes the source raise `ZeroDivisionError`. */
  lemma CuttingWasteRaisesOnZeroDenominator()
    ensures CuttingWasteAsWritten("1_0") == Failure(DivisionByZero)
    ensures CuttingWaste("1_0") == 0.2
  {
    InchValueFraction(1, 0);
    assert Numeral(1) + "_" + Numeral(0) == "1_0";
  }

  lemma CuttingWasteOf(size: string, v: real)
    requires size != [] && InchValue(size) == Success(v)
    ensures CuttingWaste(size) == WasteBand(v)
  {
  }

  /** A size with an unreadable part (among at most three) gets the smallest
      allowance, and the source returns it too. */
  lemma CuttingWasteUnreadable(size: string, k: nat)
    requires var parts := SplitOn(Strip(RemoveAll(size, "_inch")), '_');
             k < |parts| <= 3 && ParseFloat(parts[k]).None?
    ensures CuttingWasteAsWritten(size) == Success(0.2)
    ensures CuttingWaste(size) == 0.2
  {
    InchOfPartsUnreadable(SplitOn(Strip(RemoveAll(size, "_inch")), '_'), k);
  }

  /** A size of more than three parts is banded by its first part alone. */
  lemma CuttingWasteMany(size: string)
    requires size != []
    requires |SplitOn(Strip(RemoveAll(size, "_inch")), '_')| > 3
    ensures var first := SplitOn(Strip(RemoveAll(size, "_inch")), '_')[0];
            CuttingWaste(size) == WasteBand(ParseFloat(first).GetOr(0.0))
  {
    InchOfPartsMany(SplitOn(Strip(RemoveAll(size, "_inch")), '_'));
  }

  /** A size written in words is not a number: the smallest allowance. */
  lemma CuttingWasteWords()
    ensures CuttingWaste("abc") == 0.2
  {
    NoInchIn("abc");
    StripStripped("abc");
    SplitOnWithout("abc", '_');
    if ParseFloat("abc").Some? {
      ParseFloatShape("abc");
      assert false;
    }
    CuttingWasteUnreadable("abc", 0);
  }

  /** Half an inch is in the smallest band. */
  lemma CuttingWasteHalfInch()
    ensures CuttingWaste("1_2") == 0.2
  {
    InchValueFraction(1, 2);
    assert Numeral(1) + "_" + Numeral(2) == "1_2";
    CuttingWasteOf("1_2", 0.5);
  }

  /** One and a half inches is in the smallest band. */
  lemma CuttingWasteMixedInch()
    ensures CuttingWaste("1_1_2") == 0.2
  {
    var size := Numeral(1) + "_" + Numeral(1) + "_" + Numeral(2);
    InchValueMixed(1, 1, 2);
    assert InchValue(size) == Success(1.5);
    assert Numeral(1) == "1" && Numeral(2) == "2";
    assert size == "1_1_2";
    CuttingWasteOf(size, 1.5);
  }

  /** Six inches, written with the suffix, is in the middle band. */
  lemma CuttingWasteSixInch()
    ensures CuttingWaste("6_inch") == 0.5
  {
    InchValueWhole(6, true);
    assert Numeral(6) + "_inch" == "6_inch";
    CuttingWasteOf("6_inch", 6.0);
  }

  /** Ten inches is in the largest band. */
  lemma CuttingWasteTenInch()
    ensures CuttingWaste("10") == 1.0
  {
    InchValueWhole(10, false);
    assert Numeral(10) + "" == "10";
    CuttingWasteOf("10", 10.0);
  }
}
