/** The page's session state across reruns: the seven stored selections, the
    per-extra price slots and the extra-flange price map, with the callbacks and
    loops of app.py that update them in place. */
module AppSession {
  import opened Wrappers
  import opened Catalog
  import opened Navigator
  import opened Labels

  /** A price slot, or 0.0 when the session has none under that key. */
  function SlotValue(slots: map<string, real>, key: string): real {
    if key in slots then slots[key] else 0.0
  }

  /** One step of app.py:204-206: create the slot at 0.0 unless it exists. */
  function Seed(slots: map<string, real>, key: string): map<string, real> {
    if key in slots then slots else slots[key := 0.0]
  }

  /** The price slots after visiting `extras` in order. */
  function SeededSlots(slots: map<string, real>, extras: seq<string>): map<string, real>
    decreases |extras|
  {
    if extras == [] then slots
    else Seed(SeededSlots(slots, extras[..|extras| - 1]), PriceKey(extras[|extras| - 1]))
  }

  /** The price map rebuilt from the slots: each extra to the value of its slot (app.py:207-208). */
  function PricesFor(slots: map<string, real>, extras: seq<string>): map<string, real> {
    map d | d in extras :: SlotValue(slots, PriceKey(d))
  }

  /** Seeding never overwrites: existing slots keep their values, a slot is added
      exactly for the key of a listed extra that had none, and it starts at 0.0. */
  lemma {:induction false} SeededSlotsKeep(slots: map<string, real>, extras: seq<string>)
    ensures var r := SeededSlots(slots, extras);
            && (forall k :: k in slots ==> k in r && r[k] == slots[k])
            && (forall k :: k in r && k !in slots ==> r[k] == 0.0)
            && (forall k :: 0 <= k < |extras| ==> PriceKey(extras[k]) in r)
    decreases |extras|
  {
    if extras != [] {
      var init := extras[..|extras| - 1];
      SeededSlotsKeep(slots, init);
      forall k | 0 <= k < |extras| - 1
        ensures PriceKey(extras[k]) in SeededSlots(slots, extras)
      {
        assert extras[k] == init[k];
      }
    }
  }

  /** Nothing but the listed extras' keys is added. */
  lemma {:induction false} SeededSlotsOnly(slots: map<string, real>, extras: seq<string>, key: string)
    requires key in SeededSlots(slots, extras) && key !in slots
    ensures exists k :: 0 <= k < |extras| && PriceKey(extras[k]) == key
    decreases |extras|
  {
    var init := extras[..|extras| - 1];
    if key in SeededSlots(slots, init) {
      SeededSlotsOnly(slots, init, key);
      var k :| 0 <= k < |init| && PriceKey(init[k]) == key;
      assert extras[k] == init[k];
    } else {
      assert PriceKey(extras[|extras| - 1]) == key;
    }
  }

  /** Seeding twice adds nothing the first pass did not. */
  lemma SeededSlotsIdempotent(slots: map<string, real>, extras: seq<string>)
    ensures SeededSlots(SeededSlots(slots, extras), extras) == SeededSlots(slots, extras)
  {
    var r := SeededSlots(slots, extras);
    SeededSlotsKeep(slots, extras);
    SeededSlotsKeep(r, extras);
    var r2 := SeededSlots(r, extras);
    forall key | key in r2
      ensures key in r
    {
      if key !in r {
        SeededSlotsOnly(r, extras, key);
      }
    }
  }

  /** Slots that agree on the keys of `extras` give the same price map. */
  lemma PricesForAgree(a: map<string, real>, b: map<string, real>, extras: seq<string>)
    requires forall k :: 0 <= k < |extras| ==> SlotValue(a, PriceKey(extras[k])) == SlotValue(b, PriceKey(extras[k]))
    ensures PricesFor(a, extras) == PricesFor(b, extras)
  {
    forall d | d in extras
      ensures SlotValue(a, PriceKey(d)) == SlotValue(b, PriceKey(d))
    {
      var k :| 0 <= k < |extras| && extras[k] == d;
    }
  }

  /** The page state that lives across reruns (`st.session_state`). */
  class Session {
    /** `st.session_state.selections`, one entry per level. */
    var selections: array<string>
    /** The `price_extra_<key>` entries of the session state. */
    var priceSlots: map<string, real>
    /** `st.session_state.extra_flange_prices`. */
    var extraPrices: map<string, real>

    predicate Valid()
      reads this
    {
      selections.Length == Levels
    }

    /** The first run: all levels blank, no prices (app.py:107-121). */
    constructor ()
      ensures Valid() && fresh(selections)
      ensures forall k :: 0 <= k < selections.Length ==> selections[k] == ""
      ensures priceSlots == map[] && extraPrices == map[]
    {
      selections := new string[Levels](_ => "");
      priceSlots := map[];
      extraPrices := map[];
    }

    /** `selection_on_change_callback`: store the widget's value at `levelIdx`
        and clear every deeper level (app.py:123-127). */
    method OnSelectionChange(levelIdx: nat, value: string)
      requires Valid() && levelIdx < selections.Length
      modifies selections
      ensures Valid()
      ensures selections[..] == AfterChange(old(selections[..]), levelIdx, value)
    {
      selections[levelIdx] := value;
      var k := levelIdx + 1;
      while k < selections.Length
        invariant levelIdx + 1 <= k <= selections.Length
        invariant selections[levelIdx] == value
        invariant forall j :: 0 <= j < levelIdx ==> selections[j] == old(selections[j])
        invariant forall j :: levelIdx < j < k ==> selections[j] == ""
      {
        selections[k] := "";
        k := k + 1;
      }
      assert selections[..] == AfterChange(old(selections[..]), levelIdx, value) by {
        var r := AfterChange(old(selections[..]), levelIdx, value);
        assert forall j :: 0 <= j < selections.Length ==> selections[j] == r[j];
      }
    }

    /** The dropdown rendering loop (app.py:140-179): for each level, walk the
        earlier selections, stop at a leaf, and reset a stored selection that the
        level no longer offers. Returns how many levels were rendered. */
    method RenderDropdowns(root: Json) returns (rendered: nat)
      requires Valid()
      modifies selections
      ensures Valid()
      ensures (selections[..], rendered) == Settle(root, old(selections[..]), 0)
    {
      var i := 0;
      while i < selections.Length
        invariant 0 <= i <= selections.Length
        invariant Settle(root, selections[..], i) == Settle(root, old(selections[..]), 0)
        decreases selections.Length - i
      {
        var prefix := GetNestedValue(root, selections[..i]);
        var node := if prefix.Some? then prefix.value else JObj(map[]);
        assert node == PrefixNode(root, selections[..i]);
        if IsLeaf(node) {
          rendered := i;
          return;
        }
        if selections[i] !in Options(node) {
          selections[i] := "";
        }
        i := i + 1;
      }
      rendered := i;
      assert selections[..] == selections[..][..i];
    }

    /** The extra-price block (app.py:202-208): give every extra a slot, created at
        0.0 only when absent, and rebuild the price map from the slots. */
    method SyncExtraPrices(extras: seq<string>)
      modifies this`priceSlots, this`extraPrices
      ensures priceSlots == SeededSlots(old(priceSlots), extras)
      ensures extraPrices == PricesFor(priceSlots, extras)
    {
      var rebuilt := map[];
      var i := 0;
      while i < |extras|
        invariant 0 <= i <= |extras|
        invariant priceSlots == SeededSlots(old(priceSlots), extras[..i])
        invariant rebuilt == PricesFor(priceSlots, extras[..i])
      {
        var desc := extras[i];
        var key := PriceKey(desc);
        assert extras[..i + 1][..i] == extras[..i];
        var before := priceSlots;
        if key !in priceSlots {
          priceSlots := priceSlots[key := 0.0];
        }
        SeededSlotsKeep(old(priceSlots), extras[..i]);
        PricesForAgree(before, priceSlots, extras[..i]);
        rebuilt := rebuilt[desc := priceSlots[key]];
        assert rebuilt == PricesFor(priceSlots, extras[..i + 1]);
        i := i + 1;
      }
      assert extras[..i] == extras;
      extraPrices := rebuilt;
    }

    /** A price typed into an extra's sidebar field (app.py:220-226): the slot and
        the map entry both take the value. */
    method EnterExtraPrice(desc: string, price: real)
      requires price >= 0.0
      modifies this`priceSlots, this`extraPrices
      ensures priceSlots == old(priceSlots)[PriceKey(desc) := price]
      ensures extraPrices == old(extraPrices)[desc := price]
    {
      priceSlots := priceSlots[PriceKey(desc) := price];
      extraPrices := extraPrices[desc := price];
    }

    /** The derivation after the dropdowns (app.py:182-208): the selected leaf, the
        primary item and extras of its label, and, for a selected leaf, the price
        slots and price map for those extras. */
    method DeriveSelection(root: Json) returns (leaf: Option<Json>, item: CompoundLabel)
      requires Valid()
      modifies this`priceSlots, this`extraPrices
      ensures leaf == SelectedLeaf(root, selections[..])
      ensures leaf.Some? ==> item == ParseLabel(Last(ActivePath(selections[..])))
      ensures leaf.None? ==> item == CompoundLabel("", [])
      ensures leaf.Some? ==> && priceSlots == SeededSlots(old(priceSlots), item.extras)
                             && extraPrices == PricesFor(priceSlots, item.extras)
      ensures leaf.None? ==> priceSlots == old(priceSlots) && extraPrices == old(extraPrices)
    {
      var path := ActivePathOf(selections);
      leaf := None;
      if path != [] {
        var candidate := GetNestedValue(root, path);
        if candidate.Some? && IsLeaf(candidate.value) {
          leaf := candidate;
        }
      }
      item := CompoundLabel("", []);
      if leaf.Some? {
        item := ParseLabel(path[|path| - 1]);
        SyncExtraPrices(item.extras);
      }
    }
  }

  /** The last element of a non-empty path, and "" otherwise. */
  function Last(path: seq<string>): string {
    if path == [] then "" else path[|path| - 1]
  }

  /** The comprehension `[s for s in selections if s]` (app.py:182). */
  method ActivePathOf(selections: array<string>) returns (path: seq<string>)
    ensures path == ActivePath(selections[..])
  {
    path := [];
    var i := selections.Length;
    while i > 0
      invariant 0 <= i <= selections.Length
      invariant path == ActivePath(selections[i..])
    {
      i := i - 1;
      assert selections[i..][1..] == selections[i + 1..];
      if selections[i] != "" {
        path := [selections[i]] + path;
      }
    }
    assert selections[0..] == selections[..];
  }

  /** A price entered for an extra survives the next rerun's resync. */
  lemma EnteredPriceSurvives(slots: map<string, real>, extras: seq<string>, desc: string, price: real)
    requires desc in extras
    ensures var s := SeededSlots(slots[PriceKey(desc) := price], extras);
            PricesFor(s, extras)[desc] == price
  {
    SeededSlotsKeep(slots[PriceKey(desc) := price], extras);
  }

  /** A new extra starts at 0.0 and so adds nothing to the income. */
  lemma NewExtraIsFree(slots: map<string, real>, extras: seq<string>, desc: string)
    requires desc in extras && PriceKey(desc) !in slots
    ensures PricesFor(SeededSlots(slots, extras), extras)[desc] == 0.0
  {
    SeededSlotsKeep(slots, extras);
    var k :| 0 <= k < |extras| && extras[k] == desc;
  }
}
