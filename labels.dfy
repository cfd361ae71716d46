/** Compound leaf labels and the session keys of extra-flange prices
    (app.py:70-71, app.py:189-204). */
module Labels {
  import opened Text

  /** A character of Python's `\w` class, ASCII part. */
  predicate IsWordChar(c: char) {
    'a' <= c <= 'z' || 'A' <= c <= 'Z' || '0' <= c <= '9' || c == '_'
  }

  predicate AllWord(s: string) {
    forall k :: 0 <= k < |s| ==> IsWordChar(s[k])
  }

  /** Drops the run of non-word characters at the front of `s`. */
  function SkipNonWord(s: string): (r: string)
    ensures |r| <= |s|
    ensures r == [] || IsWordChar(r[0])
  {
    if s != [] && !IsWordChar(s[0]) then SkipNonWord(s[1..]) else s
  }

  /** `create_safe_key`: `re.sub(r'\W+', '_', s)`, every maximal run of
      non-word characters replaced by one underscore. */
  function SafeKey(s: string): (r: string)
    ensures AllWord(r)
    ensures |r| <= |s|
    decreases |s|
  {
    if s == [] then []
    else if IsWordChar(s[0]) then [s[0]] + SafeKey(s[1..])
    else "_" + SafeKey(SkipNonWord(s[1..]))
  }

  /** Skipping a run of non-word characters lands on what follows the run. */
  lemma {:induction false} SkipNonWordRun(sep: string, rest: string)
    requires forall k :: 0 <= k < |sep| ==> !IsWordChar(sep[k])
    requires rest == [] || IsWordChar(rest[0])
    ensures SkipNonWord(sep + rest) == rest
  {
    if sep != [] {
      assert (sep + rest)[1..] == sep[1..] + rest;
      SkipNonWordRun(sep[1..], rest);
    }
  }

  /** A maximal run of non-word characters after a word becomes one underscore,
      and the rest of the description is keyed on its own. */
  lemma {:induction false} SafeKeyCollapsesRun(w: string, sep: string, rest: string)
    requires AllWord(w)
    requires sep != [] && forall k :: 0 <= k < |sep| ==> !IsWordChar(sep[k])
    requires rest == [] || IsWordChar(rest[0])
    ensures SafeKey(w + sep + rest) == w + "_" + SafeKey(rest)
    decreases |w|
  {
    if w == [] {
      assert w + sep + rest == sep + rest;
      assert (sep + rest)[1..] == sep[1..] + rest;
      SkipNonWordRun(sep[1..], rest);
    } else {
      assert (w + sep + rest)[1..] == w[1..] + sep + rest;
      SafeKeyCollapsesRun(w[1..], sep, rest);
      assert w + "_" + SafeKey(rest) == [w[0]] + (w[1..] + "_" + SafeKey(rest));
    }
  }

  /** A string of word characters is its own key, and only such a string is. */
  lemma {:induction false} SafeKeyFixed(s: string)
    ensures SafeKey(s) == s <==> AllWord(s)
  {
    if AllWord(s) && s != [] {
      assert AllWord(s[1..]);
      SafeKeyFixed(s[1..]);
    }
  }

  /** Making a key safe twice is making it safe once. */
  lemma SafeKeyIdempotent(s: string)
    ensures SafeKey(SafeKey(s)) == SafeKey(s)
  {
    SafeKeyFixed(SafeKey(s));
  }

  predicate IsAlnum(c: char) {
    IsWordChar(c) && c != '_'
  }

  /** The letters and digits of `s`, in order. */
  function Alnums(s: string): string {
    if s == [] then [] else (if IsAlnum(s[0]) then [s[0]] else []) + Alnums(s[1..])
  }

  lemma {:induction false} AlnumsSkip(s: string)
    ensures Alnums(SkipNonWord(s)) == Alnums(s)
  {
    if s != [] && !IsWordChar(s[0]) {
      AlnumsSkip(s[1..]);
    }
  }

  /** The key keeps every letter and digit of the description, in order. */
  lemma {:induction false} SafeKeyKeepsAlnums(s: string)
    ensures Alnums(SafeKey(s)) == Alnums(s)
    decreases |s|
  {
    if s != [] {
      if IsWordChar(s[0]) {
        SafeKeyKeepsAlnums(s[1..]);
        assert (([s[0]] + SafeKey(s[1..]))[1..]) == SafeKey(s[1..]);
      } else {
        SafeKeyKeepsAlnums(SkipNonWord(s[1..]));
        AlnumsSkip(s[1..]);
        assert ("_" + SafeKey(SkipNonWord(s[1..])))[1..] == SafeKey(SkipNonWord(s[1..]));
      }
    }
  }

  const PricePrefix: string := "price_extra_"

  /** The session key of an extra flange's selling price (app.py:204). */
  function PriceKey(desc: string): string {
    PricePrefix + SafeKey(desc)
  }

  /** Two descriptions share a price slot exactly when their safe keys agree. */
  lemma PriceKeyShared(a: string, b: string)
    ensures PriceKey(a) == PriceKey(b) <==> SafeKey(a) == SafeKey(b)
  {
    if PriceKey(a) == PriceKey(b) {
      assert PriceKey(a)[|PricePrefix|..] == SafeKey(a);
      assert PriceKey(b)[|PricePrefix|..] == SafeKey(b);
    }
  }

  /** A terminal path label read as one primary item and the extra flanges made with it. */
  datatype CompoundLabel = CompoundLabel(primary: string, extras: seq<string>)

  /** The stripped, non-blank pieces, in order (app.py:198). */
  function NonBlankStripped(parts: seq<string>): (r: seq<string>)
    ensures |r| <= |parts|
  {
    if parts == [] then []
    else (if Strip(parts[0]) != "" then [Strip(parts[0])] else []) + NonBlankStripped(parts[1..])
  }

  /** The label split at each plus sign with the whitespace around it, the
      first piece stripped as the primary item and the other non-blank
      stripped pieces as the extras (app.py:194-198). The whitespace the
      pattern absorbs around each plus sign is whitespace `strip()` removes
      anyway, so the pieces are taken between the plus signs and stripped. */
  function ParseLabel(name: string): CompoundLabel {
    var parts := SplitOn(name, '+');
    CompoundLabel(Strip(parts[0]), NonBlankStripped(parts[1..]))
  }

  lemma {:induction false} NonBlankStrippedShape(parts: seq<string>)
    requires forall k :: 0 <= k < |parts| ==> '+' !in parts[k]
    ensures forall k :: 0 <= k < |NonBlankStripped(parts)| ==>
              var e := NonBlankStripped(parts)[k]; e != "" && IsStripped(e) && '+' !in e
  {
    if parts != [] {
      NonBlankStrippedShape(parts[1..]);
      StripShape(parts[0]);
      StripInside(parts[0], '+');
    }
  }

  /** Every extra is non-blank, has no surrounding whitespace and no `+`. */
  lemma ParseLabelExtras(name: string)
    ensures forall k :: 0 <= k < |ParseLabel(name).extras| ==>
              var e := ParseLabel(name).extras[k]; e != "" && IsStripped(e) && '+' !in e
  {
    var parts := SplitOn(name, '+');
    SplitOnPieces(name, '+');
    NonBlankStrippedShape(parts[1..]);
  }

  /** A label without `+` is a single item: its stripped self, with no extras. */
  lemma ParseLabelSingle(name: string)
    requires '+' !in name
    ensures ParseLabel(name) == CompoundLabel(Strip(name), [])
  {
    SplitOnWithout(name, '+');
  }

  lemma {:induction false} NonBlankStrippedOfClean(parts: seq<string>)
    requires forall k :: 0 <= k < |parts| ==> parts[k] != "" && IsStripped(parts[k])
    ensures NonBlankStripped(parts) == parts
  {
    if parts != [] {
      StripStripped(parts[0]);
      NonBlankStrippedOfClean(parts[1..]);
    }
  }

  /** Writing a primary item and its extras joined by `+` and parsing the label gives them back. */
  lemma ParseLabelJoin(primary: string, extras: seq<string>)
    requires IsStripped(primary) && '+' !in primary
    requires forall k :: 0 <= k < |extras| ==> extras[k] != "" && IsStripped(extras[k]) && '+' !in extras[k]
    ensures ParseLabel(Join([primary] + extras, '+')) == CompoundLabel(primary, extras)
  {
    var parts := [primary] + extras;
    SplitOnJoin(parts, '+');
    StripStripped(primary);
    assert parts[1..] == extras;
    NonBlankStrippedOfClean(extras);
  }

  /** "TypeA + TypeB" is the primary item "TypeA" with the one extra "TypeB". */
  lemma ParseLabelExample()
    ensures ParseLabel("TypeA + TypeB") == CompoundLabel("TypeA", ["TypeB"])
  {
    assert "TypeA + TypeB" == "TypeA " + ['+'] + " TypeB";
    SplitOnFirst("TypeA ", " TypeB", '+');
    SplitOnWithout(" TypeB", '+');
    assert TrimLeft(" TypeB") == "TypeB" by {
      assert " TypeB"[1..] == "TypeB";
    }
    assert TrimRight("TypeA ") == "TypeA" by {
      assert "TypeA "[..5] == "TypeA";
    }
    assert NonBlankStripped([" TypeB"]) == ["TypeB"];
  }
}
