# Flange cost calculator: a Dafny model of its logic

The flange cost calculator is a Streamlit page (`app.py`). It has four parts:

- **Catalog lookup.** A JSON catalog of flanges is walked by seven dropdowns: flange type, inch size, class rating and so on. The walk stops at a costable leaf, which is an object holding both an `FW` and a `CW` key.
- **Compound labels.** The last label on the path may name extra flanges made from the same billet, as in `"TypeA + TypeB"`. Each extra gets a selling-price slot in the session.
- **Size estimates.** The billet mass is estimated from the leaf's `SECTION` ("WxH" in mm). The cutting waste is estimated from the inch size.
- **Costing.** Pressing "Calculate Costs" works out steel, labour, transport, scrap credit, extra-flange income, profit, GST, the unit price and the order value.

The model has one module per concern:

- `Wrappers`: `Option` and `Result`.
- `Text`: Python's `lower`, `strip`, `split` and `replace` on strings.
- `Decimal`: `float()` on a decimal grammar.
- `Catalog`: the JSON tree and `get_nested_value`.
- `Navigator`: the behaviour of the seven dropdown levels, as functions.
- `Labels`: `create_safe_key`, price keys and the compound-label split.
- `Sizing`: billet mass and cutting waste.
- `Cost`: the cost chain.
- `AppSession`: a `Session` class that holds the state the page keeps across reruns:
  - the selections array;
  - the `price_extra_*` slots;
  - `extra_flange_prices`.

  Its methods are the page's in-place updates. Each method's contract states its new state through the `Navigator` or `AppSession` function that specifies it.

Python's dynamic values appear as follows:

- JSON null is `JNull`.
- `isinstance(v, (int, float))` holds for numbers and booleans (`NumericValue`).
- Truthiness is `Truthy`.
- An exception that the page does not catch is a `Failure` of a `Result`.

## Model

| member | source | states |
|---|---|---|
| Catalog.GetNestedValue | app.py:33-40 | `get_nested_value`: the loop returns exactly `Resolve(data, path)`: the node reached key by key, `None` at the first missing key or non-object |
| Catalog.ResolveFailsAt | app.py:33-40 | the walk `Resolve` fails iff some step, from a prefix that resolved, meets a missing key or a non-object |
| Catalog.ResolveAppend | app.py:33-40 | walking `p + q` is walking `p` and then `q`; a failed walk stays failed |
| Catalog.ResolvePrefixSome | app.py:33-40 | every prefix of a successful walk succeeds |
| Navigator.OptionsExtendPath | app.py:155-157 | a non-blank choice is offered at a level (`Options` of `PrefixNode`) iff the earlier selections followed by it still resolve in the catalog |
| Navigator.OptionsOfFailedPrefix | app.py:142-157 | when the earlier selections do not resolve, the level's node is the empty object and only `""` is offered |
| Navigator.Settle | app.py:141-165 | the dropdown loop keeps the length of the selections, and the number of levels it renders is between the start level and 7 |
| Navigator.SettleShape | app.py:141-165 | the loop never touches earlier levels or levels it does not render, and changes a stored selection only to `""` |
| Navigator.SettleValid | app.py:141-165 | each rendered level is below a non-leaf; afterwards its selection is among its options, and it was kept iff it already was one |
| Navigator.SettleStops | app.py:151-153 | when fewer than all levels are rendered, the prefix at the first unrendered level is a leaf |
| Navigator.SettleFixed | app.py:141-165 | consistent selections are left unchanged |
| Navigator.SettleIdempotent | app.py:141-165 | a second rerun of the dropdown loop changes nothing |
| Navigator.AfterChange | app.py:123-127 | after a change at level i: level i holds the value, earlier levels are unchanged, later levels are blank, the length is kept |
| Navigator.ActivePath | app.py:182 | the active path has no blank entries and is no longer than the selections |
| Navigator.ActivePathAppend | app.py:182 | the active path of a concatenation is the concatenation of the active paths |
| Navigator.ActivePathSingle | app.py:182 | one selection is on the active path iff it is not blank |
| Navigator.ActivePathOfPrefix | app.py:182 | filled levels followed by blanks form exactly the active path |
| Navigator.SettledPathSelectsLeaf | app.py:182-187 | once the loop has stopped, with every level above the stop filled and every level below it blank: an early stop is at a leaf (`IsLeaf`), and `SelectedLeaf` returns the node the path reaches iff it is a leaf, `None` otherwise; this covers a stop at any level, including after all seven |
| AppSession.Session.constructor | app.py:106-121 | a new session has seven blank selections, no price slots and no extra prices |
| AppSession.Session.OnSelectionChange | app.py:123-127 | the array afterwards is `AfterChange` of the array before |
| AppSession.Session.RenderDropdowns | app.py:140-179 | the new selections and the number of rendered levels are `Settle` of the old selections from level 0 |
| AppSession.ActivePathOf | app.py:182 | the list comprehension returns `ActivePath` of the selections |
| AppSession.Session.DeriveSelection | app.py:182-208 | the leaf is `SelectedLeaf`; with a leaf, the label is parsed and the price slots and price map are resynced; without one, both are untouched and the label is empty |
| AppSession.Session.SyncExtraPrices | app.py:202-208 | new slots are `SeededSlots` of the old ones; the price map is rebuilt from the new slots |
| AppSession.Session.EnterExtraPrice | app.py:220-226 | a typed price goes into both the slot and the price map |
| AppSession.SeededSlotsKeep | app.py:204-206 | `SeededSlots`: an existing slot is never overwritten, a created slot starts at 0.0, and every listed extra has a slot |
| AppSession.SeededSlotsOnly | app.py:204-206 | only keys of listed extras are created |
| AppSession.SeededSlotsIdempotent | app.py:202-208 | resyncing the same extras creates nothing new |
| AppSession.PricesForAgree | app.py:207 | `PricesFor` depends only on the slots of the listed extras |
| AppSession.EnteredPriceSurvives | app.py:202-208 | a price entered for an extra is what the next resync puts in the price map |
| AppSession.NewExtraIsFree | app.py:205-207 | an extra without a slot gets the price 0.0 |
| Labels.SafeKey | app.py:70-71 | the key has only word characters and is no longer than the description |
| Labels.SafeKeyCollapsesRun | app.py:70-71 | a maximal run of non-word characters between a word and the rest becomes one `_`, and the rest is keyed on its own |
| Labels.SafeKeyFixed | app.py:70-71 | the key equals the description iff the description has only word characters |
| Labels.SafeKeyIdempotent | app.py:70-71 | applying the key function twice equals applying it once |
| Labels.SafeKeyKeepsAlnums | app.py:70-71 | the letters and digits of the description survive in order |
| Labels.PriceKeyShared | app.py:204 | `PriceKey`: two descriptions share a price slot iff their safe keys are equal |
| Labels.ParseLabelExtras | app.py:194-198 | `ParseLabel`: every extra is non-blank, stripped and has no `+` |
| Labels.ParseLabelSingle | app.py:194-196 | a label without `+` is its stripped self with no extras |
| Labels.ParseLabelJoin | app.py:194-198 | parsing a primary item and clean extras joined by `+` returns them, in order |
| Labels.ParseLabelExample | app.py:194-198 | `"TypeA + TypeB"` gives primary `"TypeA"` and extras `["TypeB"]` |
| Text.SplitOnPieces | app.py:45 | `split(c)` gives one more piece than there are `c`s, and no piece contains `c` |
| Text.JoinSplitOn | app.py:45 | joining the pieces of a split gives back the string |
| Text.SplitOnJoin | app.py:194 | splitting pieces that are free of the separator, after joining them, gives them back |
| Text.StripShape | app.py:57 | `strip()` leaves no surrounding whitespace and never lengthens |
| Text.StripSlice | app.py:57 | `strip()` returns one contiguous piece of its input, and everything it drops around that piece is whitespace |
| Decimal.ParseFloatShape | app.py:47 | `float` (`ParseFloat`) succeeds only on a non-blank stripped text of digits and points with an optional leading sign |
| Decimal.ParseFloatNumeral | app.py:47 | `float` of a decimal numeral is its value |
| Decimal.ParseFloatNegativeNumeral | app.py:47 | `float` of a minus sign and a numeral is the negated value |
| Decimal.ParseFloatFraction | app.py:47 | `float("w.f")` is the whole part plus the fraction |
| Sizing.BilletMassNeedsTwoParts | app.py:42-51 | `BilletMass`: a mass comes out only when the lower-cased section has exactly one `x` and both sides parse |
| Sizing.MassOfPartsValue | app.py:47-50 | two numeric sides W and H give W·H·482/(100·100) |
| Sizing.BilletMassOfSizes | app.py:42-51 | "WxH" or "WXH" with whole sides gives W·H·482/10000 |
| Sizing.BilletMassWithoutSeparator | app.py:43 | a section without `x` in either case has no mass |
| Sizing.BilletMassExample | app.py:42-51 | `"50x100"` weighs 241 kg |
| Sizing.InchOfPartsFails | app.py:57-63 | `InchOfParts`: an error occurs iff there are two or three parts, all numeric, and the last is 0 |
| Sizing.InchOfPartsFraction | app.py:60 | two numeric parts give a/b, or a division error when b is 0 |
| Sizing.InchOfPartsMixed | app.py:61 | three numeric parts give a + b/c, or a division error when c is 0 |
| Sizing.InchOfPartsUnreadable | app.py:59-63 | among one to three parts, any part that does not parse makes the value 0 |
| Sizing.InchOfPartsMany | app.py:62-63 | with more than three parts only the first is read, 0 when it does not parse |
| Sizing.InchValueWhole | app.py:55-59 | a whole number, with or without `_inch`, is itself |
| Sizing.InchValueFraction | app.py:55-60 | `"a_b"` is a/b |
| Sizing.InchValueMixed | app.py:55-61 | `"a_b_c"` is a + b/c |
| Sizing.WasteBand | app.py:64-68 | 0.2 iff the value is ≤ 4, 0.5 iff it is in (4, 8], 1.0 iff it is > 8 |
| Sizing.WasteBandMonotone | app.py:64-68 | a larger size never gets a smaller allowance |
| Sizing.CuttingWaste | app.py:53-68 | the allowance is always 0.2, 0.5 or 1.0 |
| Sizing.CuttingWasteAgrees | app.py:53-68 | the corrected estimator `CuttingWaste` equals the source's wherever the source returns, and is 0.2 where the source raises |
| Sizing.CuttingWasteRaisesOnZeroDenominator | app.py:59-63 | `CuttingWasteAsWritten`: `"1_0"` raises in the source; the corrected estimator gives 0.2 |
| Sizing.CuttingWasteUnreadable | app.py:53-68 | a size with an unreadable part, among at most three, gets 0.2 in the source and in the corrected estimator |
| Sizing.CuttingWasteMany | app.py:53-68 | a size of more than three parts is banded by its first part alone |
| Sizing.CuttingWasteWords | app.py:53-68 | `"abc"` gives 0.2 |
| Sizing.CuttingWasteHalfInch | app.py:53-68 | `"1_2"` gives 0.2 |
| Sizing.CuttingWasteMixedInch | app.py:53-68 | `"1_1_2"` gives 0.2 |
| Sizing.CuttingWasteSixInch | app.py:53-68 | `"6_inch"` gives 0.5 |
| Sizing.CuttingWasteTenInch | app.py:53-68 | `"10"` gives 1.0 |
| Cost.ScrapOf | app.py:307-313 | no scrap is calculated iff no FT is usable; otherwise the gross is ≥ 0 and ≥ FW−FT, equal to FW−FT iff FW ≥ FT, and 0 iff FW ≤ FT |
| Cost.ScrapCreditValue | app.py:307-313 | the credit is (FW−FT)·0.9·rate when FW ≥ FT and 0 otherwise, and never negative at a non-negative rate |
| Cost.ExtrasTotal | app.py:319-325 | the loop returns `ExtrasCredit` of the prices and the extras |
| Cost.ExtrasCreditIsSum | app.py:320 | `ExtrasCredit`: the truthiness guard makes no difference: the income is the sum over the extras |
| Cost.SumPricesAppend | app.py:322-325 | `SumPrices`: the income of two lists of extras is the sum of their incomes |
| Cost.SumPricesNonNeg | app.py:322-325 | without negative prices the income is not negative |
| Cost.SumPricesDuplicate | app.py:322-325 | an extra listed twice is counted twice |
| Cost.ZeroMassIsUnknown | app.py:280-289 | a billet mass of 0.0 gives exactly the breakdown of an unknown mass |
| Cost.PiecesPerBillet | app.py:284-289 | pieces per billet are counted iff the mass is known and the material is positive, and are then the floor of mass/material |
| Cost.TotalBeforeProfitValue | app.py:292-331 | `CostChain`: cost before profit = CW·(steel+machining+forging) + transport rate·basis − scrap credit − income, with no clamping |
| Cost.FinalPriceClosedForm | app.py:335-345 | unit price = total·(1+m/100)·1.19; order value = unit price·pieces |
| Cost.PriceHasSignOfCost | app.py:329-341 | with a margin above −100 % the unit price has the sign of the cost before profit |
| Cost.OrderValueHasSignOfCost | app.py:329-346 | with the inputs in their widget ranges (`InRange`), the order value has the sign of the cost before profit |
| Cost.CreditLowersPrice | app.py:329-341 | each unit of income lowers the unit price by (1+m/100)·1.19 |
| Cost.TransportBasis | app.py:299-304 | transport is on FT iff an FT is usable, otherwise on CW; scrap is not calculated iff transport is on CW |
| Cost.DefaultsExample | app.py:278-346 | a worked case at the default rates: 6220 before profit, 8141.98 per piece |
| Cost.NegativePriceExample | app.py:329-341 | income above the cost gives a negative price (−91.63) |
| Cost.DefaultsInRange | app.py:111-115 | the default inputs lie within the ranges the inputs allow |
| Cost.SectionMassAbsent | app.py:245 | a missing SECTION reads as "N/A", which has no mass |
| Cost.Calculate | app.py:242-346 | it fails with MissingWeight iff CW or FW is null, with NonNumericWeight iff one of them is not numeric, and with SectionNotText iff the section is truthy non-text; otherwise it succeeds |
| Cost.CalculateIsChain | app.py:242-346 | a successful calculation is the cost chain on the leaf's weights, the effective FT, the section mass, the cutting waste of the second active selection (`InchSize`) and the extras income |
| Cost.CalculateCatalogFtWins | app.py:252-262 | with a numeric FT in the catalog the manual FT entry changes nothing |
| Cost.CalculateManualFt | app.py:252-313 | without a numeric catalog FT, transport and scrap use the manual FT when one was entered, otherwise transport uses CW and no scrap is calculated |
| Cost.CalculateWithoutSection | app.py:245-289 | a leaf with numeric weights and no SECTION is costed, with no billet mass and no pieces-per-billet count |

## Left out

- The Streamlit rendering: widgets, metrics, warnings and the `:.2f` formatting. The one exception is formatting raising on non-numeric weights, which is kept as `NonNumericWeight`.
- The display path of app.py:229-234, which is presentation only.
- `load_data` (app.py:17-31). It is file I/O, JSON decoding and a cache, so the catalog is a given `Json` value.
- `check_password` (app.py:73-93). It is a UI comparison against a fixed secret.
- Dictionary key order. Options are a set, `{""}` plus the keys, because key order only affects how the options are displayed.
- Python floats. Numbers are exact `real`s, so there is no rounding and no `inf` or `nan`.
- Decimal.ParseFloat: accepts only the form of optional ASCII whitespace, an optional sign, then digits with an optional fraction, or a fraction alone. Exponents, underscores, `inf`/`nan` and Unicode whitespace or digits are not modelled.
- Text.Lower and Labels.IsWordChar: ASCII only. Python's Unicode case mapping and Unicode `\w` are not modelled.
- The regular expressions. `re.sub(r'\W+', '_', s)` is the explicit recursive `SafeKey`. `re.split(r'\s*\+\s*', s)` followed by `strip()` is a split on `+` followed by `strip()`: these agree, because the whitespace the pattern absorbs is whitespace `strip` removes.
- Cost.Calculate: requires a costable leaf, because the page only reaches the calculation with one. The manual FT is a parameter; it is `None` when the checkbox is off. It uses the corrected `Sizing.CuttingWaste`, so a zero denominator in the inch size gives 0.2 kg where the source raises `ZeroDivisionError` (see Findings).
- The cost inputs are parameters. Their widget ranges are the predicate `Cost.InRange`; the cost chain does not require it, and `Cost.OrderValueHasSignOfCost` assumes it.
- Which rerun calls which method, and Streamlit's own reset of widget state, are not modelled. The `Session` methods are the separate steps of a rerun.
- Sizing.CuttingWaste: the corrected member, which `Cost.Calculate` uses. Where the source raises `ZeroDivisionError`, it returns 0.2 (see Findings). `Sizing.CuttingWasteAsWritten` keeps the source's behaviour.
- Two behaviours of the code are kept as written:
  - The leaf test at app.py:151-153 and app.py:186 checks only that both `FW` and `CW` keys are present, not that their values are numbers; a null or non-numeric weight is caught later, as `MissingWeight` or `NonNumericWeight`.
  - A SECTION that is truthy but not a string makes `.lower()` at app.py:43 raise, outside the `try` of app.py:44-51, so the calculation does not complete; the model reports this as `SectionNotText`.

## Findings

| source | as written | input that shows it | evidently intended | confidence | as-written member | corrected member |
|---|---|---|---|---|---|---|
| app.py:59-63 | `get_cutting_waste_kg` divides by the parsed denominator, and its `except` catches only `ValueError`, `IndexError` and `TypeError`, so a zero denominator raises `ZeroDivisionError` out of the button handler | `"1_0"` (also `"1_1_0"`) | an unreadable size falls back to the value 0 and the 0.2 kg allowance, like every other parse failure | not executed | Sizing.CuttingWasteRaisesOnZeroDenominator | Sizing.CuttingWasteAgrees |
