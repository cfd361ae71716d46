/** Catalog navigation: the seven dropdown levels, what each offers, how a
    stored selection path is checked against the tree and cleared, and the
    leaf the path selects (app.py:123-187). */
module Navigator {
  import opened Wrappers
  import opened Catalog

  /** One dropdown per entry of `level_names` (app.py:103-104). */
  const Levels: nat := 7

  /** The node the dropdown loop reaches by the earlier selections: an empty
      object when the walk fails (app.py:142-149). */
  function PrefixNode(root: Json, prefix: seq<string>): Json {
    match Resolve(root, prefix)
    case Some(n) => n
    case None => JObj(map[])
  }

  /** The choices offered for a level: the blank choice and the keys of the node (app.py:155-157). */
  function Options(node: Json): (opts: set<string>)
    ensures "" in opts
    ensures forall k :: k in opts <==> k == "" || (node.JObj? && k in node.fields)
  {
    {""} + (if node.JObj? then node.fields.Keys else {})
  }

  /** A non-blank choice is offered for a level exactly when the earlier selections
      followed by it still name a node of the catalog (app.py:155-157). */
  lemma OptionsExtendPath(root: Json, p: seq<string>, k: string)
    ensures k in Options(PrefixNode(root, p)) <==> k == "" || Resolve(root, p + [k]).Some?
  {
    ResolveSnoc(root, p, k);
  }

  /** When the earlier selections lead nowhere, only the blank choice is offered
      (app.py:149, app.py:155-157). */
  lemma OptionsOfFailedPrefix(root: Json, p: seq<string>)
    requires Resolve(root, p).None?
    ensures Options(PrefixNode(root, p)) == {""}
  {
  }

  /** The dropdown loop from level `i` on: stop at a level whose prefix node is a
      leaf, otherwise reset a stored selection that is not among the options.
      Returns the new selections and the number of levels rendered. */
  function Settle(root: Json, s: seq<string>, i: nat): (res: (seq<string>, nat))
    requires i <= |s|
    ensures |res.0| == |s| && i <= res.1 <= |s|
    decreases |s| - i
  {
    if i == |s| then (s, i)
    else
      var node := PrefixNode(root, s[..i]);
      if IsLeaf(node) then (s, i)
      else
        var s' := if s[i] in Options(node) then s else s[i := ""];
        Settle(root, s', i + 1)
  }

  /** The rendering loop changes nothing below level `i`, changes a stored
      selection only to blank, and leaves the levels it does not render alone. */
  lemma {:induction false} SettleShape(root: Json, s: seq<string>, i: nat)
    requires i <= |s|
    ensures var (r, n) := Settle(root, s, i);
            && r[..i] == s[..i]
            && (forall k :: n <= k < |s| ==> r[k] == s[k])
            && (forall k :: 0 <= k < |s| ==> r[k] == s[k] || r[k] == "")
    decreases |s| - i
  {
    if i < |s| {
      var node := PrefixNode(root, s[..i]);
      if !IsLeaf(node) {
        var s' := if s[i] in Options(node) then s else s[i := ""];
        SettleShape(root, s', i + 1);
        var (r, n) := Settle(root, s', i + 1);
        assert r[..i] == r[..i + 1][..i];
        assert s'[..i] == s[..i];
      }
    }
  }

  /** Every level the loop renders is an internal node's, and afterwards its stored
      selection is one of its options; it was kept exactly when it already was one. */
  lemma {:induction false} SettleValid(root: Json, s: seq<string>, i: nat)
    requires i <= |s|
    ensures var (r, n) := Settle(root, s, i);
            forall k :: i <= k < n ==>
              && !IsLeaf(PrefixNode(root, r[..k]))
              && r[k] in Options(PrefixNode(root, r[..k]))
              && (r[k] == s[k] <==> s[k] in Options(PrefixNode(root, r[..k])))
    decreases |s| - i
  {
    if i < |s| {
      var node := PrefixNode(root, s[..i]);
      if !IsLeaf(node) {
        var s' := if s[i] in Options(node) then s else s[i := ""];
        SettleValid(root, s', i + 1);
        SettleShape(root, s', i + 1);
        var (r, n) := Settle(root, s', i + 1);
        assert r[..i + 1] == s'[..i + 1];
        assert r[..i] == s[..i] by {
          assert r[..i] == r[..i + 1][..i];
          assert s'[..i] == s[..i];
        }
        assert r[i] == s'[i];
        forall k | i + 1 <= k < n
          ensures r[k] == s[k] <==> s[k] in Options(PrefixNode(root, r[..k]))
        {
          assert s'[k] == s[k];
        }
      }
    }
  }

  /** When the loop stops before the last level, that level's prefix reached a leaf. */
  lemma {:induction false} SettleStops(root: Json, s: seq<string>, i: nat)
    requires i <= |s|
    ensures var (r, n) := Settle(root, s, i);
            n < |s| ==> IsLeaf(PrefixNode(root, r[..n]))
    decreases |s| - i
  {
    if i < |s| {
      var node := PrefixNode(root, s[..i]);
      if !IsLeaf(node) {
        var s' := if s[i] in Options(node) then s else s[i := ""];
        SettleStops(root, s', i + 1);
      }
    }
  }

  /** A path that is already consistent from level `i` to `n` is left as it is. */
  lemma {:induction false} SettleFixed(root: Json, t: seq<string>, i: nat, n: nat)
    requires i <= n <= |t|
    requires forall k :: i <= k < n ==>
               !IsLeaf(PrefixNode(root, t[..k])) && t[k] in Options(PrefixNode(root, t[..k]))
    requires n == |t| || IsLeaf(PrefixNode(root, t[..n]))
    ensures Settle(root, t, i) == (t, n)
    decreases n - i
  {
    if i < n {
      SettleFixed(root, t, i + 1, n);
    }
  }

  /** Rendering the dropdowns a second time changes nothing more. */
  lemma SettleIdempotent(root: Json, s: seq<string>)
    ensures var (r, n) := Settle(root, s, 0);
            Settle(root, r, 0) == (r, n)
  {
    SettleShape(root, s, 0);
    SettleValid(root, s, 0);
    SettleStops(root, s, 0);
    var (r, n) := Settle(root, s, 0);
    SettleFixed(root, r, 0, n);
  }

  /** `selection_on_change_callback`: level `i` takes the new value and every
      deeper level is cleared (app.py:123-127). */
  function AfterChange(s: seq<string>, i: nat, v: string): (r: seq<string>)
    requires i < |s|
    ensures |r| == |s|
    ensures r[i] == v
    ensures forall k :: 0 <= k < i ==> r[k] == s[k]
    ensures forall k :: i < k < |r| ==> r[k] == ""
  {
    s[..i] + [v] + seq(|s| - i - 1, _ => "")
  }

  /** The non-blank selections, in order (app.py:182). */
  function ActivePath(s: seq<string>): (p: seq<string>)
    ensures |p| <= |s|
    ensures forall k :: 0 <= k < |p| ==> p[k] != ""
  {
    if s == [] then []
    else if s[0] == "" then ActivePath(s[1..])
    else [s[0]] + ActivePath(s[1..])
  }

  /** The active path of a concatenation is the concatenation of the active paths. */
  lemma {:induction false} ActivePathAppend(a: seq<string>, b: seq<string>)
    ensures ActivePath(a + b) == ActivePath(a) + ActivePath(b)
  {
    if a != [] {
      assert (a + b)[0] == a[0];
      assert (a + b)[1..] == a[1..] + b;
      ActivePathAppend(a[1..], b);
      if a[0] != "" {
        assert ActivePath(a + b) == [a[0]] + ActivePath(a[1..] + b);
        assert ActivePath(a) == [a[0]] + ActivePath(a[1..]);
      }
    } else {
      assert a + b == b;
    }
  }

  /** One selection is on the active path exactly when it is not blank. */
  lemma ActivePathSingle(x: string)
    ensures ActivePath([x]) == if x == "" then [] else [x]
  {
    assert [x][1..] == [];
  }

  /** A path without blanks is its own active path; blanks after it drop out. */
  lemma {:induction false} ActivePathOfPrefix(s: seq<string>, n: nat)
    requires n <= |s|
    requires forall k :: 0 <= k < n ==> s[k] != ""
    requires forall k :: n <= k < |s| ==> s[k] == ""
    ensures ActivePath(s) == s[..n]
  {
    if s != [] {
      ActivePathOfPrefix(s[1..], if n == 0 then 0 else n - 1);
      if n > 0 {
        assert s[..n] == [s[0]] + s[1..][..n - 1];
      }
    }
  }

  /** The costable leaf the selections lead to, if any (app.py:182-187). */
  function SelectedLeaf(root: Json, s: seq<string>): Option<Json> {
    var path := ActivePath(s);
    if path == [] then None
    else
      match Resolve(root, path)
      case Some(n) => if IsLeaf(n) then Some(n) else None
      case None => None
  }

  /** Once the dropdown loop has stopped, with the levels above the stop chosen and the
      levels below it blank, the stored path selects the node it reaches exactly when
      that node is a costable leaf. Stopping early means a leaf was reached; running
      through all levels leads to a leaf only if the last node is one. */
  lemma SettledPathSelectsLeaf(root: Json, s: seq<string>)
    requires var (r, n) := Settle(root, s, 0);
             && 0 < n <= |s|
             && (forall k :: 0 <= k < n ==> r[k] != "")
             && (forall k :: n <= k < |s| ==> r[k] == "")
    ensures var (r, n) := Settle(root, s, 0);
            && (n < |s| ==> IsLeaf(PrefixNode(root, r[..n])))
            && SelectedLeaf(root, r) ==
                 if IsLeaf(PrefixNode(root, r[..n])) then Some(PrefixNode(root, r[..n])) else None
  {
    SettleShape(root, s, 0);
    SettleStops(root, s, 0);
    var (r, n) := Settle(root, s, 0);
    ActivePathOfPrefix(r, n);
    assert !IsLeaf(JObj(map[]));
  }
}
