/**
 * The two Python string built-ins the validator relies on: `str.strip()`, used as
 * "non-blank" on the text fields (app.py:147-152), and the code-point ordering
 * behind `sorted(set(erros))` (app.py:194).
 */
module Text {

  /** Python's `str.isspace()`: ASCII whitespace, the ASCII separators 0x1C-0x1F and the Unicode spaces. */
  predicate IsSpace(c: char) {
    c == ' ' || ('\t' <= c <= '\r') || ('\U{1C}' <= c <= '\U{1F}')
    || c == '\U{85}' || c == '\U{A0}' || c == '\U{1680}'
    || ('\U{2000}' <= c <= '\U{200A}') || c == '\U{2028}' || c == '\U{2029}'
    || c == '\U{202F}' || c == '\U{205F}' || c == '\U{3000}'
  }

  /** `s` with its leading whitespace removed. */
  function TrimStart(s: string): (r: string)
    ensures |r| <= |s| && r == s[|s| - |r|..]
    ensures forall i :: 0 <= i < |s| - |r| ==> IsSpace(s[i])
    ensures r != [] ==> !IsSpace(r[0])
  {
    if s != [] && IsSpace(s[0]) then TrimStart(s[1..]) else s
  }

  /** `s` with its trailing whitespace removed. */
  function TrimEnd(s: string): (r: string)
    ensures |r| <= |s| && r == s[..|r|]
    ensures forall i :: |r| <= i < |s| ==> IsSpace(s[i])
    ensures r != [] ==> !IsSpace(r[|r| - 1])
  {
    if s != [] && IsSpace(s[|s| - 1]) then TrimEnd(s[..|s| - 1]) else s
  }

  /** `s.strip()`: `TrimStart` then `TrimEnd`. */
  function Strip(s: string): string {
    TrimEnd(TrimStart(s))
  }

  /** `bool(s.strip())`: the string has a character that is not whitespace. */
  function HasText(s: string): (b: bool)
    ensures b <==> exists i :: 0 <= i < |s| && !IsSpace(s[i])
  {
    var t := TrimStart(s);
    assert forall i :: 0 <= i < |t| ==> t[i] == s[|s| - |t| + i];
    Strip(s) != []
  }

  // ---------------------------------------------------------------------------
  // Python's ordering of `str`: lexicographic on code points.

  predicate Less(a: string, b: string)
    decreases |a|
  {
    if a == [] then b != []
    else if b == [] then false
    else if a[0] == b[0] then Less(a[1..], b[1..])
    else a[0] < b[0]
  }

  lemma {:induction false} LessIrreflexive(a: string)
    ensures !Less(a, a)
  {
    if a != [] {
      LessIrreflexive(a[1..]);
    }
  }

  lemma {:induction false} LessTransitive(a: string, b: string, c: string)
    requires Less(a, b) && Less(b, c)
    ensures Less(a, c)
    decreases |a|
  {
    if a != [] && b != [] && c != [] && a[0] == b[0] && b[0] == c[0] {
      LessTransitive(a[1..], b[1..], c[1..]);
    }
  }

  lemma {:induction false} LessTotal(a: string, b: string)
    ensures a == b || Less(a, b) || Less(b, a)
    decreases |a|
  {
    if a != [] && b != [] && a[0] == b[0] {
      LessTotal(a[1..], b[1..]);
      if a[1..] == b[1..] {
        assert a == [a[0]] + a[1..] && b == [b[0]] + b[1..];
      }
    }
  }

  lemma LessAsymmetric(a: string, b: string)
    requires Less(a, b)
    ensures !Less(b, a)
  {
    if Less(b, a) {
      LessTransitive(a, b, a);
      LessIrreflexive(a);
    }
  }

  /** Strictly increasing, hence free of duplicates. */
  predicate StrictlySorted(s: seq<string>) {
    forall i, j :: 0 <= i < j < |s| ==> Less(s[i], s[j])
  }

  /** Adds `x` to a strictly sorted list, unless it is already there. */
  function Insert(x: string, s: seq<string>): (r: seq<string>)
    requires StrictlySorted(s)
    ensures StrictlySorted(r)
    ensures forall y :: y in r <==> y == x || y in s
  {
    if s == [] then [x]
    else if x == s[0] then s
    else if Less(x, s[0]) then
      assert forall y :: y in s ==> Less(x, y) by {
        forall y | y in s ensures Less(x, y) {
          if y != s[0] {
            LessTransitive(x, s[0], y);
          }
        }
      }
      [x] + s
    else
      LessTotal(x, s[0]);
      var t := Insert(x, s[1..]);
      assert forall y :: y in t ==> Less(s[0], y);
      [s[0]] + t
  }

  /** `sorted(set(xs))`: the distinct elements of `xs`, in increasing order. */
  function SortedDistinct(xs: seq<string>): (r: seq<string>)
    ensures StrictlySorted(r)
    ensures forall y :: y in r <==> y in xs
  {
    if xs == [] then []
    else
      var r := Insert(xs[|xs| - 1], SortedDistinct(xs[..|xs| - 1]));
      assert xs == xs[..|xs| - 1] + [xs[|xs| - 1]];
      r
  }

  /** A strictly sorted list holds each element once. */
  lemma StrictlySortedDistinct(s: seq<string>, i: int, j: int)
    requires StrictlySorted(s) && 0 <= i < j < |s|
    ensures s[i] != s[j]
  {
    LessIrreflexive(s[i]);
  }

  /** A set has only one strictly sorted listing. */
  lemma {:induction false} StrictlySortedUnique(a: seq<string>, b: seq<string>)
    requires StrictlySorted(a) && StrictlySorted(b)
    requires forall y :: y in a <==> y in b
    ensures a == b
  {
    if a != [] {
      assert a[0] in b;
    }
    if b != [] {
      assert b[0] in a;
    }
    if a != [] && b != [] {
      assert a[0] == b[0] by {
        assert b[0] in b && a[0] in a;
        var k :| 0 <= k < |a| && a[k] == b[0];
        var m :| 0 <= m < |b| && b[m] == a[0];
        if k > 0 && m > 0 {
          LessAsymmetric(a[0], b[0]);
        }
      }
      assert a == [a[0]] + a[1..] && b == [b[0]] + b[1..];
      forall y ensures y in a[1..] <==> y in b[1..] {
        if y in a[1..] {
          var k :| 0 <= k < |a| - 1 && a[1..][k] == y;
          assert Less(a[0], a[k + 1]);
          LessIrreflexive(a[0]);
          assert y in a && y in b && y != b[0];
        }
        if y in b[1..] {
          var k :| 0 <= k < |b| - 1 && b[1..][k] == y;
          assert Less(b[0], b[k + 1]);
          LessIrreflexive(b[0]);
          assert y in b && y in a && y != a[0];
        }
      }
      StrictlySortedUnique(a[1..], b[1..]);
      assert a == [a[0]] + a[1..] && b == [b[0]] + b[1..];
    }
  }

  /** The displayed list depends only on which messages occur, not on their order or repetition. */
  lemma SortedDistinctDependsOnlyOnSet(xs: seq<string>, ys: seq<string>)
    requires forall y :: y in xs <==> y in ys
    ensures SortedDistinct(xs) == SortedDistinct(ys)
  {
    StrictlySortedUnique(SortedDistinct(xs), SortedDistinct(ys));
  }

  /** Sorting an already sorted, duplicate-free list changes nothing. */
  lemma SortedDistinctOfSorted(s: seq<string>)
    requires StrictlySorted(s)
    ensures SortedDistinct(s) == s
  {
    StrictlySortedUnique(SortedDistinct(s), s);
  }
}
