/**
 * The CPF normaliser `apenas_digitos` (app.py:99-100): `re.sub(r"\D", "", s or "")`,
 * which deletes every character that is not a decimal digit. Digits are the ASCII
 * digits '0'..'9' here.
 */
module Normalizer {
  import opened Wrappers

  predicate IsDigit(c: char) {
    '0' <= c <= '9'
  }

  predicate AllDigits(s: string) {
    forall i :: 0 <= i < |s| ==> IsDigit(s[i])
  }

  /** The digits of `s`, in the order in which they occur. */
  function KeepDigits(s: string): (r: string)
    ensures AllDigits(r)
    ensures |r| <= |s|
  {
    if s == [] then []
    else (if IsDigit(s[0]) then [s[0]] else []) + KeepDigits(s[1..])
  }

  /** `apenas_digitos(s)`: an absent string reads as the empty one (`s or ""`). */
  function Normalize(s: Option<string>): (r: string)
    ensures AllDigits(r)
    ensures |r| <= |s.GetOr("")|
    ensures s == None || s == Some("") ==> r == ""
  {
    KeepDigits(s.GetOr(""))
  }

  /** `r` is `s` with some characters deleted (order kept). */
  ghost predicate IsSubsequence(r: string, s: string)
    decreases |s|
  {
    if r == [] then true
    else if s == [] then false
    else (r[0] == s[0] && IsSubsequence(r[1..], s[1..])) || IsSubsequence(r, s[1..])
  }

  /** The result keeps the input's order: it is a subsequence of it. */
  lemma {:induction false} KeepDigitsIsSubsequence(s: string)
    ensures IsSubsequence(KeepDigits(s), s)
  {
    if s != [] {
      KeepDigitsIsSubsequence(s[1..]);
      var t := KeepDigits(s[1..]);
      if IsDigit(s[0]) {
        assert KeepDigits(s) == [s[0]] + t;
        assert ([s[0]] + t)[1..] == t;
      } else {
        assert KeepDigits(s) == t;
        if t != [] {
          assert IsSubsequence(t, s[1..]);
        }
      }
    }
  }

  /** Every digit is kept as often as it occurs, and nothing else is kept. */
  lemma {:induction false} KeepDigitsCount(s: string, c: char)
    ensures multiset(KeepDigits(s))[c] == if IsDigit(c) then multiset(s)[c] else 0
  {
    if s != [] {
      KeepDigitsCount(s[1..], c);
      assert s == [s[0]] + s[1..];
      assert multiset(s) == multiset([s[0]]) + multiset(s[1..]);
    }
  }

  /** Normalising distributes over concatenation. */
  lemma {:induction false} KeepDigitsAppend(a: string, b: string)
    ensures KeepDigits(a + b) == KeepDigits(a) + KeepDigits(b)
  {
    if a == [] {
      assert a + b == b;
    } else {
      assert (a + b)[0] == a[0];
      assert (a + b)[1..] == a[1..] + b;
      KeepDigitsAppend(a[1..], b);
    }
  }

  /** A string of digits is its own normal form. */
  lemma {:induction false} KeepDigitsOfDigits(s: string)
    requires AllDigits(s)
    ensures KeepDigits(s) == s
  {
    if s != [] {
      KeepDigitsOfDigits(s[1..]);
    }
  }

  /** Normalising twice is normalising once. */
  lemma KeepDigitsIdempotent(s: string)
    ensures KeepDigits(KeepDigits(s)) == KeepDigits(s)
  {
    KeepDigitsOfDigits(KeepDigits(s));
  }

  /** Deleting one non-digit between two pieces. */
  lemma DropSeparator(a: string, c: char, b: string)
    requires !IsDigit(c)
    ensures KeepDigits(a + [c] + b) == KeepDigits(a) + KeepDigits(b)
  {
    KeepDigitsAppend(a + [c], b);
    KeepDigitsAppend(a, [c]);
  }

  /**
   * CPF punctuation does not matter: "ddd.ddd.ddd-dd" and "ddddddddd-dd" both
   * normalise to the bare digits (as "123.456.789-00" and "123456789-00" do).
   */
  lemma FormattedCpf(a: string, b: string, c: string, d: string)
    requires AllDigits(a) && AllDigits(b) && AllDigits(c) && AllDigits(d)
    ensures KeepDigits(a + "." + b + "." + c + "-" + d) == a + b + c + d
    ensures KeepDigits(a + b + c + "-" + d) == a + b + c + d
  {
    KeepDigitsOfDigits(a);
    KeepDigitsOfDigits(b);
    KeepDigitsOfDigits(c);
    KeepDigitsOfDigits(d);
    DropSeparator(a, '.', b);
    DropSeparator(a + "." + b, '.', c);
    DropSeparator(a + "." + b + "." + c, '-', d);
    KeepDigitsAppend(a, b);
    KeepDigitsAppend(a + b, c);
    DropSeparator(a + b + c, '-', d);
  }
}
