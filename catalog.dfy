/** The flange catalog: a JSON tree whose objects map labels to sub-trees,
    walked by a list of keys (app.py `get_nested_value`). */
module Catalog {
  import opened Wrappers

  /** A decoded JSON value, as `json.load` returns it. */
  datatype Json =
    | JObj(fields: map<string, Json>)
    | JArr(items: seq<Json>)
    | JStr(text: string)
    | JNum(num: real)
    | JBool(flag: bool)
    | JNull

  /** The node reached from `node` by following `path`; `None` as soon as a key
      is missing or the current value is not an object. */
  function Resolve(node: Json, path: seq<string>): Option<Json>
    decreases |path|
  {
    if path == [] then Some(node)
    else if node.JObj? && path[0] in node.fields then Resolve(node.fields[path[0]], path[1..])
    else None
  }

  /** One step of the walk: descend into `key` if the current value is an object holding it. */
  function Step(current: Option<Json>, key: string): Option<Json> {
    match current
    case Some(n) => if n.JObj? && key in n.fields then Some(n.fields[key]) else None
    case None => None
  }

  /** A costable leaf, recognised by shape alone: an object with both "FW" and "CW". */
  predicate IsLeaf(node: Json) {
    node.JObj? && "FW" in node.fields && "CW" in node.fields
  }

  /** Python's `isinstance(v, (int, float))`, with `bool` counted as the int it is. */
  function NumericValue(v: Json): (r: Option<real>)
    ensures r.Some? <==> v.JNum? || v.JBool?
  {
    match v
    case JNum(n) => Some(n)
    case JBool(b) => Some(if b then 1.0 else 0.0)
    case _ => None
  }

  /** Python truthiness of a JSON value. */
  predicate Truthy(v: Json) {
    match v
    case JObj(m) => m != map[]
    case JArr(a) => a != []
    case JStr(s) => s != ""
    case JNum(n) => n != 0.0
    case JBool(b) => b
    case JNull => false
  }

  /** Following `p` then `q` is following `p + q`; a failed walk stays failed. */
  lemma {:induction false} ResolveAppend(node: Json, p: seq<string>, q: seq<string>)
    ensures Resolve(node, p + q) == match Resolve(node, p)
                                    case Some(n) => Resolve(n, q)
                                    case None => None
    decreases |p|
  {
    if p == [] {
      assert p + q == q;
    } else {
      assert (p + q)[0] == p[0] && (p + q)[1..] == p[1..] + q;
      if node.JObj? && p[0] in node.fields {
        ResolveAppend(node.fields[p[0]], p[1..], q);
      }
    }
  }

  /** Extending a path by one key is one more step of the walk. */
  lemma ResolveSnoc(node: Json, p: seq<string>, key: string)
    ensures Resolve(node, p + [key]) == Step(Resolve(node, p), key)
  {
    ResolveAppend(node, p, [key]);
    match Resolve(node, p)
    case Some(n) =>
      assert Resolve(n, [key]) == Step(Some(n), key) by {
        if n.JObj? && key in n.fields {
          assert Resolve(n.fields[key], []) == Some(n.fields[key]);
        }
      }
    case None =>
  }

  /** A walk fails exactly when some step of it meets a missing key or a non-object. */
  lemma {:induction false} ResolveFailsAt(node: Json, path: seq<string>)
    ensures Resolve(node, path).None? <==>
            exists i :: 0 <= i < |path| && Resolve(node, path[..i]).Some? &&
                        Step(Resolve(node, path[..i]), path[i]).None?
    decreases |path|
  {
    if path != [] {
      var last := |path| - 1;
      var p := path[..last];
      assert path == p + [path[last]];
      ResolveSnoc(node, p, path[last]);
      ResolveFailsAt(node, p);
      if Resolve(node, path).None? {
        if Resolve(node, p).Some? {
          assert path[..last] == p;
        } else {
          var i :| 0 <= i < |p| && Resolve(node, p[..i]).Some? && Step(Resolve(node, p[..i]), p[i]).None?;
          assert path[..i] == p[..i] && path[i] == p[i];
        }
      } else {
        forall i | 0 <= i < |path| && Resolve(node, path[..i]).Some?
          ensures Step(Resolve(node, path[..i]), path[i]).Some?
        {
          assert path[..i + 1] == path[..i] + [path[i]];
          ResolveSnoc(node, path[..i], path[i]);
          ResolvePrefixSome(node, path, i + 1);
        }
      }
    }
  }

  /** Every prefix of a walk that succeeds succeeds too. */
  lemma ResolvePrefixSome(node: Json, path: seq<string>, i: nat)
    requires i <= |path| && Resolve(node, path).Some?
    ensures Resolve(node, path[..i]).Some?
  {
    assert path == path[..i] + path[i..];
    ResolveAppend(node, path[..i], path[i..]);
  }

  /** `get_nested_value`: walks the catalog key by key (app.py:33-40). */
  method GetNestedValue(data: Json, pathList: seq<string>) returns (r: Option<Json>)
    ensures r == Resolve(data, pathList)
  {
    var current := data;
    var i := 0;
    while i < |pathList|
      invariant 0 <= i <= |pathList|
      invariant Resolve(data, pathList[..i]) == Some(current)
    {
      var key := pathList[i];
      assert pathList[..i + 1] == pathList[..i] + [key];
      ResolveSnoc(data, pathList[..i], key);
      if current.JObj? && key in current.fields {
        current := current.fields[key];
      } else {
        assert pathList == pathList[..i + 1] + pathList[i + 1..];
        ResolveAppend(data, pathList[..i + 1], pathList[i + 1..]);
        return None;
      }
      i := i + 1;
    }
    assert pathList[..i] == pathList;
    return Some(current);
  }
}
