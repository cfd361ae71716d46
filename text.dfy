/** The few Python string operations the calculator relies on: `strip`,
    `lower`, `split` on one character and `replace` with an empty
    replacement. Whitespace and case are ASCII only. */
module Text {

  /** The ASCII characters Python's `str.isspace` accepts: space, tab,
      line feed, vertical tab, form feed, carriage return and the four
      separators 0x1C-0x1F. */
  predicate IsSpace(c: char) {
    c == ' ' || c == '\t' || c == '\n' || c == '\r' || c == '\U{000B}' || c == '\U{000C}'
    || '\U{001C}' <= c <= '\U{001F}'
  }

  predicate IsDigit(c: char) {
    '0' <= c <= '9'
  }

  function ToLower(c: char): char {
    if 'A' <= c <= 'Z' then (c as int - 'A' as int + 'a' as int) as char else c
  }

  /** `str.lower()` on ASCII letters. */
  function Lower(s: string): (r: string)
    ensures |r| == |s|
    ensures forall k :: 0 <= k < |s| ==> r[k] == ToLower(s[k])
  {
    if s == [] then [] else [ToLower(s[0])] + Lower(s[1..])
  }

  /** Number of occurrences of `c` in `s`. */
  function Count(s: string, c: char): nat {
    if s == [] then 0 else (if s[0] == c then 1 else 0) + Count(s[1..], c)
  }

  function TrimLeft(s: string): string {
    if s != [] && IsSpace(s[0]) then TrimLeft(s[1..]) else s
  }

  function TrimRight(s: string): string {
    if s != [] && IsSpace(s[|s| - 1]) then TrimRight(s[..|s| - 1]) else s
  }

  /** No leading and no trailing whitespace. */
  predicate IsStripped(s: string) {
    s == [] || (!IsSpace(s[0]) && !IsSpace(s[|s| - 1]))
  }

  /** `str.strip()`: drops leading and trailing whitespace. */
  function Strip(s: string): string {
    TrimRight(TrimLeft(s))
  }

  lemma {:induction false} TrimLeftShape(s: string)
    ensures |TrimLeft(s)| <= |s| && TrimLeft(s) == s[|s| - |TrimLeft(s)|..]
    ensures TrimLeft(s) == [] || !IsSpace(TrimLeft(s)[0])
  {
    if s != [] && IsSpace(s[0]) {
      TrimLeftShape(s[1..]);
    }
  }

  lemma {:induction false} TrimRightShape(s: string)
    ensures |TrimRight(s)| <= |s| && TrimRight(s) == s[..|TrimRight(s)|]
    ensures TrimRight(s) == [] || !IsSpace(TrimRight(s)[|TrimRight(s)| - 1])
  {
    if s != [] && IsSpace(s[|s| - 1]) {
      TrimRightShape(s[..|s| - 1]);
    }
  }

  /** What `strip` returns has no surrounding whitespace and is no longer than its input. */
  lemma StripShape(s: string)
    ensures IsStripped(Strip(s)) && |Strip(s)| <= |s|
  {
    var t := TrimLeft(s);
    TrimLeftShape(s);
    TrimRightShape(t);
    var u := TrimRight(t);
    if u != [] {
      assert u[0] == t[0];
    }
  }

  lemma {:induction false} TrimLeftDropsSpaces(s: string)
    ensures |TrimLeft(s)| <= |s|
    ensures forall k :: 0 <= k < |s| - |TrimLeft(s)| ==> IsSpace(s[k])
  {
    if s != [] && IsSpace(s[0]) {
      TrimLeftDropsSpaces(s[1..]);
      assert forall k :: 1 <= k < |s| - |TrimLeft(s)| ==> s[k] == s[1..][k - 1];
    }
  }

  lemma {:induction false} TrimRightDropsSpaces(s: string)
    ensures |TrimRight(s)| <= |s|
    ensures forall k :: |TrimRight(s)| <= k < |s| ==> IsSpace(s[k])
  {
    if s != [] && IsSpace(s[|s| - 1]) {
      TrimRightDropsSpaces(s[..|s| - 1]);
      assert forall k :: |TrimRight(s)| <= k < |s| - 1 ==> s[k] == s[..|s| - 1][k];
    }
  }

  /** `strip` keeps one contiguous piece of its input and drops only whitespace around it. */
  lemma StripSlice(s: string)
    ensures exists i, j ::
              0 <= i <= j <= |s| && Strip(s) == s[i..j]
              && (forall k :: 0 <= k < i || j <= k < |s| ==> IsSpace(s[k]))
  {
    var t := TrimLeft(s);
    TrimLeftShape(s);
    TrimLeftDropsSpaces(s);
    TrimRightShape(t);
    TrimRightDropsSpaces(t);
    var i := |s| - |t|;
    var j := i + |TrimRight(t)|;
    assert t == s[i..];
    assert Strip(s) == s[i..j];
    assert forall k :: j <= k < |s| ==> s[k] == t[k - i];
  }

  /** What `strip` keeps is a piece of its input, so a character absent from the input is absent from it. */
  lemma StripInside(s: string, c: char)
    requires c !in s
    ensures c !in Strip(s)
  {
    TrimLeftShape(s);
    TrimRightShape(TrimLeft(s));
  }

  lemma StripStripped(s: string)
    requires IsStripped(s)
    ensures Strip(s) == s
  {
  }

  /** `s.split(c)`: the pieces between the occurrences of `c`, always at least one. */
  function SplitOn(s: string, c: char): (parts: seq<string>)
    ensures |parts| >= 1
  {
    SplitFrom(s, c, "")
  }

  /** The split of `s` when `piece` has already been read as the start of the first piece. */
  function SplitFrom(s: string, c: char, piece: string): (parts: seq<string>)
    ensures |parts| >= 1
  {
    if s == [] then [piece]
    else if s[0] == c then [piece] + SplitFrom(s[1..], c, "")
    else SplitFrom(s[1..], c, piece + [s[0]])
  }

  /** `c.join(parts)`, the inverse of SplitOn. */
  function Join(parts: seq<string>, c: char): string
    requires |parts| >= 1
  {
    if |parts| == 1 then parts[0] else parts[0] + [c] + Join(parts[1..], c)
  }

  lemma {:induction false} SplitFromPieces(s: string, c: char, piece: string)
    requires c !in piece
    ensures |SplitFrom(s, c, piece)| == Count(s, c) + 1
    ensures forall k :: 0 <= k < |SplitFrom(s, c, piece)| ==> c !in SplitFrom(s, c, piece)[k]
  {
    if s != [] {
      if s[0] == c {
        SplitFromPieces(s[1..], c, "");
      } else {
        SplitFromPieces(s[1..], c, piece + [s[0]]);
      }
    }
  }

  /** No piece of a split contains the separator, and there is one piece more than separators. */
  lemma SplitOnPieces(s: string, c: char)
    ensures |SplitOn(s, c)| == Count(s, c) + 1
    ensures forall k :: 0 <= k < |SplitOn(s, c)| ==> c !in SplitOn(s, c)[k]
  {
    SplitFromPieces(s, c, "");
  }

  lemma {:induction false} JoinSplitFrom(s: string, c: char, piece: string)
    ensures Join(SplitFrom(s, c, piece), c) == piece + s
  {
    if s != [] {
      if s[0] == c {
        JoinSplitFrom(s[1..], c, "");
        assert piece + [c] + s[1..] == piece + s;
      } else {
        JoinSplitFrom(s[1..], c, piece + [s[0]]);
        assert piece + [s[0]] + s[1..] == piece + s;
      }
    }
  }

  /** Joining the pieces of a split gives back the string. */
  lemma JoinSplitOn(s: string, c: char)
    ensures Join(SplitOn(s, c), c) == s
  {
    JoinSplitFrom(s, c, "");
  }

  lemma {:induction false} SplitFromWithout(a: string, rest: string, c: char, piece: string)
    requires c !in a
    ensures SplitFrom(a + rest, c, piece) == SplitFrom(rest, c, piece + a)
  {
    if a == [] {
      assert a + rest == rest && piece + a == piece;
    } else {
      assert (a + rest)[0] == a[0] && (a + rest)[1..] == a[1..] + rest;
      SplitFromWithout(a[1..], rest, c, piece + [a[0]]);
      assert piece + [a[0]] + a[1..] == piece + a;
    }
  }

  lemma SplitOnWithout(s: string, c: char)
    requires c !in s
    ensures SplitOn(s, c) == [s]
  {
    SplitFromWithout(s, [], c, "");
    assert s + [] == s && "" + s == s;
  }

  /** A separator-free first piece is split off whole. */
  lemma SplitOnFirst(a: string, b: string, c: char)
    requires c !in a
    ensures SplitOn(a + [c] + b, c) == [a] + SplitOn(b, c)
  {
    SplitFromWithout(a, [c] + b, c, "");
    assert a + [c] + b == a + ([c] + b);
    assert "" + a == a;
    assert ([c] + b)[0] == c && ([c] + b)[1..] == b;
  }

  /** Splitting a join of separator-free pieces gives back the pieces. */
  lemma {:induction false} SplitOnJoin(parts: seq<string>, c: char)
    requires |parts| >= 1
    requires forall k :: 0 <= k < |parts| ==> c !in parts[k]
    ensures SplitOn(Join(parts, c), c) == parts
  {
    if |parts| == 1 {
      SplitOnWithout(parts[0], c);
    } else {
      SplitOnJoin(parts[1..], c);
      SplitOnFirst(parts[0], Join(parts[1..], c), c);
    }
  }

  /** `s.replace(pat, "")`: removes the non-overlapping occurrences of `pat`, left to right. */
  function RemoveAll(s: string, pat: string): (r: string)
    requires pat != []
    ensures |r| <= |s|
    decreases |s|
  {
    if |s| < |pat| then s
    else if s[..|pat|] == pat then RemoveAll(s[|pat|..], pat)
    else [s[0]] + RemoveAll(s[1..], pat)
  }
}
