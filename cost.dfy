/** The cost computation run by "Calculate Costs" (app.py:266-346): material,
    labour, transport, scrap credit, extra-flange income, profit, GST and the
    order total, all per piece. */
module Cost {
  import opened Wrappers
  import opened Catalog
  import opened Text
  import opened Sizing

  /** Goods and services tax on the price with profit (app.py:14). */
  const GstRate: real := 0.19
  /** Share of the gross scrap that can be sold (app.py:307). */
  const ScrapLossFactor: real := 0.90

  /** The seven costing inputs of the sidebar (app.py:212-218). */
  datatype Inputs = Inputs(
    steelPerKg: real,
    scrapPerKg: real,
    machiningPerKg: real,
    forgingPerKg: real,
    transportPerKg: real,
    marginPercent: real,
    pieces: int)

  /** The values the inputs start with (app.py:111-115). */
  const DefaultInputs: Inputs := Inputs(100.0, 20.0, 10.0, 15.0, 5.0, 10.0, 1)

  /** The ranges the number inputs enforce (app.py:212-218). */
  predicate InRange(inputs: Inputs) {
    && inputs.steelPerKg >= 0.01
    && inputs.scrapPerKg >= 0.0
    && inputs.machiningPerKg >= 0.0
    && inputs.forgingPerKg >= 0.0
    && inputs.transportPerKg >= 0.0
    && 0.0 <= inputs.marginPercent <= 200.0
    && inputs.pieces >= 1
  }

  lemma DefaultsInRange()
    ensures InRange(DefaultInputs)
  {
  }

  /** Scrap credit for one piece: not calculated when no usable FT is known. */
  datatype Scrap = NotCalculated | Calculated(gross: real, recoverable: real, value: real)

  /** The scrap of one piece (app.py:307-313): the forged weight less the finished
      weight, clamped at zero, 90 % of it sold at the scrap rate. */
  function ScrapOf(fw: real, ft: Option<real>, scrapPerKg: real): (s: Scrap)
    ensures s.NotCalculated? <==> ft.None?
    ensures s.Calculated? ==> s.gross >= 0.0 && s.gross >= fw - ft.value
    ensures s.Calculated? ==> (s.gross == fw - ft.value <==> fw >= ft.value)
    ensures s.Calculated? ==> (s.gross == 0.0 <==> fw <= ft.value)
  {
    match ft
    case None => NotCalculated
    case Some(t) =>
      var gross := if fw < t then 0.0 else fw - t;
      var recoverable := gross * ScrapLossFactor;
      Calculated(gross, recoverable, recoverable * scrapPerKg)
  }

  /** The amount the scrap takes off the cost; zero when it was not calculated. */
  function ScrapCredit(s: Scrap): real {
    if s.Calculated? then s.value else 0.0
  }

  /** The scrap credit is 0.9 times the clamped gross scrap times the rate, and never
      negative at a non-negative rate. */
  lemma ScrapCreditValue(fw: real, ft: Option<real>, scrapPerKg: real)
    ensures ScrapCredit(ScrapOf(fw, ft, scrapPerKg)) ==
            if ft.None? || fw < ft.value then 0.0 else (fw - ft.value) * 0.9 * scrapPerKg
    ensures scrapPerKg >= 0.0 ==> ScrapCredit(ScrapOf(fw, ft, scrapPerKg)) >= 0.0
  {
    if ft.Some? && fw >= ft.value {
      var g := fw - ft.value;
      assert g >= 0.0;
      if scrapPerKg >= 0.0 {
        NonNegProduct(g * 0.9, scrapPerKg);
      }
    }
  }

  lemma NonNegProduct(a: real, b: real)
    requires a >= 0.0 && b >= 0.0
    ensures a * b >= 0.0
  {
  }

  /** The price entered for one extra flange; an extra without an entry sells for 0. */
  function PriceOf(prices: map<string, real>, desc: string): real {
    if desc in prices then prices[desc] else 0.0
  }

  /** The prices of the extras, one term per list entry, so a duplicate counts twice. */
  function SumPrices(prices: map<string, real>, extras: seq<string>): real
    decreases |extras|
  {
    if extras == [] then 0.0
    else SumPrices(prices, extras[..|extras| - 1]) + PriceOf(prices, extras[|extras| - 1])
  }

  /** The extra-flange income of app.py:320-325, guarded by the truthiness of both
      the price map and the list of extras. */
  function ExtrasCredit(prices: map<string, real>, extras: seq<string>): real {
    if prices == map[] || extras == [] then 0.0 else SumPrices(prices, extras)
  }

  lemma {:induction false} SumPricesAppend(prices: map<string, real>, a: seq<string>, b: seq<string>)
    ensures SumPrices(prices, a + b) == SumPrices(prices, a) + SumPrices(prices, b)
    decreases |b|
  {
    if b == [] {
      assert a + b == a;
    } else {
      var b' := b[..|b| - 1];
      assert (a + b)[..|a + b| - 1] == a + b';
      assert (a + b)[|a + b| - 1] == b[|b| - 1];
      SumPricesAppend(prices, a, b');
    }
  }

  lemma {:induction false} SumPricesWithoutPrices(extras: seq<string>)
    ensures SumPrices(map[], extras) == 0.0
    decreases |extras|
  {
    if extras != [] {
      SumPricesWithoutPrices(extras[..|extras| - 1]);
    }
  }

  /** The truthiness guard changes nothing: the credit is always the plain sum. */
  lemma ExtrasCreditIsSum(prices: map<string, real>, extras: seq<string>)
    ensures ExtrasCredit(prices, extras) == SumPrices(prices, extras)
  {
    if prices == map[] {
      SumPricesWithoutPrices(extras);
    }
  }

  /** With no negative price entered, the income is not negative. */
  lemma {:induction false} SumPricesNonNeg(prices: map<string, real>, extras: seq<string>)
    requires forall d :: d in prices ==> prices[d] >= 0.0
    ensures SumPrices(prices, extras) >= 0.0
    decreases |extras|
  {
    if extras != [] {
      SumPricesNonNeg(prices, extras[..|extras| - 1]);
    }
  }

  /** An extra listed twice is paid twice. */
  lemma SumPricesDuplicate(prices: map<string, real>, desc: string)
    ensures SumPrices(prices, [desc, desc]) == 2.0 * PriceOf(prices, desc)
  {
    assert [desc, desc][..1] == [desc];
    assert [desc][..0] == [];
    assert SumPrices(prices, [desc]) == PriceOf(prices, desc);
  }

  /** The loop of app.py:322-325 adding up the extra-flange prices. */
  method ExtrasTotal(prices: map<string, real>, extras: seq<string>) returns (total: real)
    ensures total == ExtrasCredit(prices, extras)
  {
    total := 0.0;
    if prices != map[] && extras != [] {
      var i := 0;
      while i < |extras|
        invariant 0 <= i <= |extras|
        invariant total == SumPrices(prices, extras[..i])
      {
        var price := PriceOf(prices, extras[i]);
        assert extras[..i + 1][..i] == extras[..i];
        total := total + price;
        i := i + 1;
      }
      assert extras[..i] == extras;
    }
  }

  /** Python truthiness of the billet mass: a mass of 0.0 counts as unknown (app.py:280, 284). */
  function KnownMass(mass: Option<real>): (r: Option<real>)
    ensures r.Some? <==> mass.Some? && mass.value != 0.0
    ensures r.Some? ==> r == mass
  {
    if mass.Some? && mass.value != 0.0 then mass else None
  }

  /** Everything the results section shows for one flange. */
  datatype Breakdown = Breakdown(
    billetMass: Option<real>,
    cuttingWaste: real,
    materialPerPiece: real,
    piecesPerBillet: Option<int>,
    steel: real,
    machining: real,
    forging: real,
    transportOnFt: bool,
    transportBasis: real,
    transport: real,
    scrap: Scrap,
    extrasCredit: real,
    totalBeforeProfit: real,
    profit: real,
    costWithProfit: real,
    gst: real,
    finalUnitPrice: real,
    orderValue: real)

  /** The straight-line chain of app.py:278-346 for the weights `cw`, `fw`, the usable
      finished weight `ft`, the billet mass, the cutting waste and the extras income. */
  function CostChain(cw: real, fw: real, ft: Option<real>, mass: Option<real>, waste: real,
                     inputs: Inputs, credit: real): Breakdown
  {
    var known := KnownMass(mass);
    var material := cw + waste;
    var pieces := if known.Some? && material > 0.0 then Some((known.value / material).Floor) else None;
    var steel := cw * inputs.steelPerKg;
    var machining := inputs.machiningPerKg * cw;
    var forging := inputs.forgingPerKg * cw;
    var basis := if ft.Some? then ft.value else cw;
    var transport := inputs.transportPerKg * basis;
    var scrap := ScrapOf(fw, ft, inputs.scrapPerKg);
    var total := steel + machining + forging + transport - ScrapCredit(scrap) - credit;
    var profit := total * (inputs.marginPercent / 100.0);
    var withProfit := total + profit;
    var gst := withProfit * GstRate;
    var final := withProfit + gst;
    Breakdown(known, waste, material, pieces, steel, machining, forging, ft.Some?, basis,
              transport, scrap, credit, total, profit, withProfit, gst, final,
              final * inputs.pieces as real)
  }

  /** The cost before profit gathers the CW-based rates, the transport on its basis,
      and subtracts the scrap and the extras income, unclamped. */
  lemma TotalBeforeProfitValue(cw: real, fw: real, ft: Option<real>, mass: Option<real>, waste: real,
                               inputs: Inputs, credit: real)
    ensures var b := CostChain(cw, fw, ft, mass, waste, inputs, credit);
            b.totalBeforeProfit ==
              cw * (inputs.steelPerKg + inputs.machiningPerKg + inputs.forgingPerKg)
              + inputs.transportPerKg * (if ft.Some? then ft.value else cw)
              - ScrapCredit(ScrapOf(fw, ft, inputs.scrapPerKg)) - credit
  {
    var b := CostChain(cw, fw, ft, mass, waste, inputs, credit);
    assert b.steel + b.machining + b.forging ==
           cw * (inputs.steelPerKg + inputs.machiningPerKg + inputs.forgingPerKg);
  }

  lemma MarkupClosedForm(total: real, m: real)
    ensures var profit := total * (m / 100.0);
            var withProfit := total + profit;
            withProfit + withProfit * GstRate == total * (1.0 + m / 100.0) * (1.0 + GstRate)
  {
  }

  /** The unit price is the cost marked up by the margin and then by GST, and the order
      value is the unit price times the number of pieces. */
  lemma FinalPriceClosedForm(cw: real, fw: real, ft: Option<real>, mass: Option<real>, waste: real,
                             inputs: Inputs, credit: real)
    ensures var b := CostChain(cw, fw, ft, mass, waste, inputs, credit);
            && b.finalUnitPrice == b.totalBeforeProfit * (1.0 + inputs.marginPercent / 100.0) * 1.19
            && b.orderValue == b.finalUnitPrice * inputs.pieces as real
  {
    var b := CostChain(cw, fw, ft, mass, waste, inputs, credit);
    MarkupClosedForm(b.totalBeforeProfit, inputs.marginPercent);
  }

  lemma MarkupSign(total: real, m: real, price: real)
    requires m > -100.0 && price == total * (1.0 + m / 100.0) * 1.19
    ensures price > 0.0 <==> total > 0.0
    ensures price < 0.0 <==> total < 0.0
  {
    var f := (1.0 + m / 100.0) * 1.19;
    assert f > 0.0;
    assert total * (1.0 + m / 100.0) * 1.19 == total * f;
    if total > 0.0 {
      assert total * f > 0.0;
    } else if total < 0.0 {
      assert total * f < 0.0;
    }
  }

  /** Nothing clamps the price: with a margin above -100 % the unit price has the sign
      of the cost before profit, so a large enough credit makes it negative. */
  lemma PriceHasSignOfCost(cw: real, fw: real, ft: Option<real>, mass: Option<real>, waste: real,
                           inputs: Inputs, credit: real)
    requires inputs.marginPercent > -100.0
    ensures var b := CostChain(cw, fw, ft, mass, waste, inputs, credit);
            && (b.finalUnitPrice > 0.0 <==> b.totalBeforeProfit > 0.0)
            && (b.finalUnitPrice < 0.0 <==> b.totalBeforeProfit < 0.0)
  {
    FinalPriceClosedForm(cw, fw, ft, mass, waste, inputs, credit);
    var b := CostChain(cw, fw, ft, mass, waste, inputs, credit);
    MarkupSign(b.totalBeforeProfit, inputs.marginPercent, b.finalUnitPrice);
  }

  /** Within the ranges the number inputs enforce, the order value too has the sign
      of the cost before profit. */
  lemma OrderValueHasSignOfCost(cw: real, fw: real, ft: Option<real>, mass: Option<real>, waste: real,
                                inputs: Inputs, credit: real)
    requires InRange(inputs)
    ensures var b := CostChain(cw, fw, ft, mass, waste, inputs, credit);
            && (b.orderValue > 0.0 <==> b.totalBeforeProfit > 0.0)
            && (b.orderValue < 0.0 <==> b.totalBeforeProfit < 0.0)
  {
    PriceHasSignOfCost(cw, fw, ft, mass, waste, inputs, credit);
    FinalPriceClosedForm(cw, fw, ft, mass, waste, inputs, credit);
    var b := CostChain(cw, fw, ft, mass, waste, inputs, credit);
    var n := inputs.pieces as real;
    assert n >= 1.0;
    if b.finalUnitPrice > 0.0 {
      assert b.orderValue > 0.0;
    } else if b.finalUnitPrice < 0.0 {
      assert b.orderValue < 0.0;
    }
  }

  /** Each unit of extras income lowers the unit price by the full markup factor. */
  lemma CreditLowersPrice(cw: real, fw: real, ft: Option<real>, mass: Option<real>, waste: real,
                          inputs: Inputs, credit: real, more: real)
    ensures var b := CostChain(cw, fw, ft, mass, waste, inputs, credit);
            var c := CostChain(cw, fw, ft, mass, waste, inputs, credit + more);
            && c.totalBeforeProfit == b.totalBeforeProfit - more
            && c.finalUnitPrice == b.finalUnitPrice - more * (1.0 + inputs.marginPercent / 100.0) * 1.19
  {
    var b := CostChain(cw, fw, ft, mass, waste, inputs, credit);
    var c := CostChain(cw, fw, ft, mass, waste, inputs, credit + more);
    FinalPriceClosedForm(cw, fw, ft, mass, waste, inputs, credit);
    FinalPriceClosedForm(cw, fw, ft, mass, waste, inputs, credit + more);
    var k := (1.0 + inputs.marginPercent / 100.0) * 1.19;
    assert c.totalBeforeProfit == b.totalBeforeProfit - more;
    assert c.totalBeforeProfit * (1.0 + inputs.marginPercent / 100.0) * 1.19 == c.totalBeforeProfit * k;
    assert b.totalBeforeProfit * (1.0 + inputs.marginPercent / 100.0) * 1.19 == b.totalBeforeProfit * k;
    assert more * (1.0 + inputs.marginPercent / 100.0) * 1.19 == more * k;
  }

  /** Transport uses FT when one is known and CW otherwise. */
  lemma TransportBasis(cw: real, fw: real, ft: Option<real>, mass: Option<real>, waste: real,
                       inputs: Inputs, credit: real)
    ensures var b := CostChain(cw, fw, ft, mass, waste, inputs, credit);
            && (b.transportOnFt <==> ft.Some?)
            && b.transportBasis == (if ft.Some? then ft.value else cw)
            && b.transport == inputs.transportPerKg * b.transportBasis
            && (b.scrap.NotCalculated? <==> !b.transportOnFt)
  {
  }

  /** A billet mass of 0.0 is treated exactly like an unknown one. */
  lemma ZeroMassIsUnknown(cw: real, fw: real, ft: Option<real>, waste: real, inputs: Inputs, credit: real)
    ensures CostChain(cw, fw, ft, Some(0.0), waste, inputs, credit) == CostChain(cw, fw, ft, None, waste, inputs, credit)
    ensures CostChain(cw, fw, ft, None, waste, inputs, credit).piecesPerBillet.None?
  {
  }

  /** Pieces from a billet are counted only for a known mass and a positive
      material use, and are then the whole number of pieces the mass covers. */
  lemma PiecesPerBillet(cw: real, fw: real, ft: Option<real>, mass: Option<real>, waste: real,
                        inputs: Inputs, credit: real)
    ensures var b := CostChain(cw, fw, ft, mass, waste, inputs, credit);
            && (b.piecesPerBillet.Some? <==> mass.Some? && mass.value != 0.0 && cw + waste > 0.0)
            && (b.piecesPerBillet.Some? ==>
                  b.piecesPerBillet.value as real * (cw + waste) <= mass.value
                  && mass.value < (b.piecesPerBillet.value + 1) as real * (cw + waste))
  {
    var b := CostChain(cw, fw, ft, mass, waste, inputs, credit);
    if b.piecesPerBillet.Some? {
      var q := mass.value / (cw + waste);
      var n := b.piecesPerBillet.value;
      assert n == q.Floor;
      assert n as real <= q < (n + 1) as real;
      DivMul(mass.value, cw + waste);
      MulLeq(n as real, q, cw + waste);
      MulLt(q, (n + 1) as real, cw + waste);
      assert (n + 1) as real * (cw + waste) > mass.value;
    }
  }

  lemma DivMul(a: real, c: real)
    requires c > 0.0
    ensures a / c * c == a
  {
  }

  lemma MulLeq(a: real, b: real, c: real)
    requires a <= b && c > 0.0
    ensures a * c <= b * c
  {
  }

  lemma MulLt(a: real, b: real, c: real)
    requires a < b && c > 0.0
    ensures a * c < b * c
  {
  }

  /** CW 50 kg, FW 40 kg, FT 30 kg and 1 kg of cutting waste, at the default rates:
      5000 + 500 + 750 + 150 - 180 = 6220 before profit, 6220 * 1.1 * 1.19 after. */
  lemma DefaultsExample()
    ensures var b := CostChain(50.0, 40.0, Some(30.0), None, 1.0, DefaultInputs, 0.0);
            && b.totalBeforeProfit == 6220.0
            && b.finalUnitPrice == 8141.98
            && b.orderValue == 8141.98
  {
  }

  /** Extras income above the cost gives a negative selling price. */
  lemma NegativePriceExample()
    ensures CostChain(1.0, 1.0, None, None, 0.2, DefaultInputs, 200.0).finalUnitPrice == -91.63
  {
  }

  /** Why a calculation cannot complete. */
  datatype CalcError =
    | MissingWeight        // CW or FW is JSON null (app.py:248-249)
    | NonNumericWeight     // CW or FW is not a number: formatting them raises (app.py:275)
    | SectionNotText       // SECTION is truthy but not a string: `.lower()` raises (app.py:43)

  /** `selected_flange_data.get(key)`, with JSON null for an absent key. */
  function Field(leaf: Json, key: string): Json
    requires leaf.JObj?
  {
    if key in leaf.fields then leaf.fields[key] else JNull
  }

  /** The FT used (app.py:252-262): the catalog value when it is numeric, otherwise
      the manual entry, which is `None` when the checkbox is off. */
  function EffectiveFt(leaf: Json, manualFt: Option<real>): (ft: Option<real>)
    requires leaf.JObj?
    ensures NumericValue(Field(leaf, "FT")).Some? ==> ft == NumericValue(Field(leaf, "FT"))
    ensures NumericValue(Field(leaf, "FT")).None? ==> ft == manualFt
  {
    var data := NumericValue(Field(leaf, "FT"));
    if data.Some? then data else manualFt
  }

  /** The billet mass for the leaf's SECTION (app.py:245, 278): "N/A" when absent. */
  function SectionMass(leaf: Json): (r: Result<Option<real>, CalcError>)
    requires leaf.JObj?
    ensures r.Failure? <==> "SECTION" in leaf.fields && !leaf.fields["SECTION"].JStr? && Truthy(leaf.fields["SECTION"])
  {
    if "SECTION" !in leaf.fields then Success(BilletMass("N/A"))
    else
      match leaf.fields["SECTION"]
      case JStr(s) => Success(BilletMass(s))
      case v => if Truthy(v) then Failure(SectionNotText) else Success(None)
  }

  /** A leaf without a SECTION has no billet mass. */
  lemma SectionMassAbsent(leaf: Json)
    requires leaf.JObj? && "SECTION" !in leaf.fields
    ensures SectionMass(leaf) == Success(None)
  {
    assert 'x' !in Lower("N/A");
    BilletMassWithoutSeparator("N/A");
  }

  /** The inch size is the second active selection, or "" (app.py:246). */
  function InchSize(path: seq<string>): string {
    if |path| > 1 then path[1] else ""
  }

  /** Pressing "Calculate Costs" for a selected leaf, with the prices of the extras and
      the manual FT (if any). It fails exactly for a null weight, a non-numeric
      weight, or a SECTION that is truthy but not text, reporting the first. */
  function Calculate(leaf: Json, path: seq<string>, inputs: Inputs, manualFt: Option<real>,
                     prices: map<string, real>, extras: seq<string>): (r: Result<Breakdown, CalcError>)
    requires IsLeaf(leaf)
    ensures r == Failure(MissingWeight) <==> leaf.fields["CW"].JNull? || leaf.fields["FW"].JNull?
    ensures r == Failure(NonNumericWeight) <==>
              && !leaf.fields["CW"].JNull? && !leaf.fields["FW"].JNull?
              && (NumericValue(leaf.fields["CW"]).None? || NumericValue(leaf.fields["FW"]).None?)
    ensures r == Failure(SectionNotText) <==>
              && NumericValue(leaf.fields["CW"]).Some? && NumericValue(leaf.fields["FW"]).Some?
              && SectionMass(leaf).Failure?
    ensures r.Success? <==>
              NumericValue(leaf.fields["CW"]).Some? && NumericValue(leaf.fields["FW"]).Some? && SectionMass(leaf).Success?
  {
    var cw, fw := leaf.fields["CW"], leaf.fields["FW"];
    if cw.JNull? || fw.JNull? then Failure(MissingWeight)
    else if NumericValue(cw).None? || NumericValue(fw).None? then Failure(NonNumericWeight)
    else
      match SectionMass(leaf)
      case Failure(e) => Failure(e)
      case Success(mass) =>
        Success(CostChain(NumericValue(cw).value, NumericValue(fw).value, EffectiveFt(leaf, manualFt),
                          mass, CuttingWaste(InchSize(path)), inputs, ExtrasCredit(prices, extras)))
  }

  /** A successful calculation is the cost chain on the leaf's CW and FW, the
      effective FT, the section's billet mass, the cutting waste of the selected
      inch size and the extras income. */
  lemma CalculateIsChain(leaf: Json, path: seq<string>, inputs: Inputs, manualFt: Option<real>,
                         prices: map<string, real>, extras: seq<string>)
    requires IsLeaf(leaf)
    requires Calculate(leaf, path, inputs, manualFt, prices, extras).Success?
    ensures Calculate(leaf, path, inputs, manualFt, prices, extras).value ==
            CostChain(NumericValue(leaf.fields["CW"]).value, NumericValue(leaf.fields["FW"]).value,
                      EffectiveFt(leaf, manualFt), SectionMass(leaf).value, CuttingWaste(InchSize(path)),
                      inputs, SumPrices(prices, extras))
  {
    ExtrasCreditIsSum(prices, extras);
  }

  /** A numeric FT in the catalog wins: the manual entry then changes nothing (app.py:252-256). */
  lemma CalculateCatalogFtWins(leaf: Json, path: seq<string>, inputs: Inputs,
                               manualFt: Option<real>, otherFt: Option<real>,
                               prices: map<string, real>, extras: seq<string>)
    requires IsLeaf(leaf) && NumericValue(Field(leaf, "FT")).Some?
    ensures Calculate(leaf, path, inputs, manualFt, prices, extras) ==
            Calculate(leaf, path, inputs, otherFt, prices, extras)
  {
  }

  /** Without a numeric catalog FT, transport and scrap use the manual FT when one was
      entered and CW otherwise (app.py:257-262, 299-313). */
  lemma CalculateManualFt(leaf: Json, path: seq<string>, inputs: Inputs, manualFt: Option<real>,
                          prices: map<string, real>, extras: seq<string>)
    requires IsLeaf(leaf) && NumericValue(Field(leaf, "FT")).None?
    requires Calculate(leaf, path, inputs, manualFt, prices, extras).Success?
    ensures var b := Calculate(leaf, path, inputs, manualFt, prices, extras).value;
            && (b.transportOnFt <==> manualFt.Some?)
            && b.transportBasis == (if manualFt.Some? then manualFt.value else NumericValue(leaf.fields["CW"]).value)
            && (b.scrap.NotCalculated? <==> manualFt.None?)
  {
    var cw, fw := NumericValue(leaf.fields["CW"]).value, NumericValue(leaf.fields["FW"]).value;
    CalculateIsChain(leaf, path, inputs, manualFt, prices, extras);
    TransportBasis(cw, fw, manualFt, SectionMass(leaf).value, CuttingWaste(InchSize(path)),
                   inputs, SumPrices(prices, extras));
  }

  /** A leaf with numeric weights and no SECTION is costed without a billet mass and
      without a pieces-per-billet count (app.py:245, 278-287). */
  lemma CalculateWithoutSection(leaf: Json, path: seq<string>, inputs: Inputs, manualFt: Option<real>,
                                prices: map<string, real>, extras: seq<string>)
    requires IsLeaf(leaf) && "SECTION" !in leaf.fields
    requires NumericValue(leaf.fields["CW"]).Some? && NumericValue(leaf.fields["FW"]).Some?
    ensures var r := Calculate(leaf, path, inputs, manualFt, prices, extras);
            && r.Success?
            && r.value.billetMass.None?
            && r.value.piecesPerBillet.None?
  {
    SectionMassAbsent(leaf);
  }
}
