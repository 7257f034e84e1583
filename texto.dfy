/** Normalisation of coupon codes: Python's `str.strip()` followed by
    `str.upper()`, restricted to ASCII characters. */
module Texto {

  /** Python's `str.isspace` on ASCII: tab, line feed, vertical tab, form
      feed, carriage return (9-13), the four information separators (28-31)
      and the space (32). */
  predicate IsSpace(c: char) {
    var n := c as int;
    n == 32 || 9 <= n <= 13 || 28 <= n <= 31
  }

  predicate AllSpace(s: string) {
    forall k :: 0 <= k < |s| ==> IsSpace(s[k])
  }

  predicate IsLower(c: char) {
    'a' <= c <= 'z'
  }

  /** The index of the first non-space character of `s` at or after `i`,
      or `|s|` when there is none: where `strip` starts the result. */
  function StartOf(s: string, i: nat): (a: nat)
    requires i <= |s|
    ensures i <= a <= |s|
    ensures forall k :: i <= k < a ==> IsSpace(s[k])
    ensures a == |s| || !IsSpace(s[a])
    decreases |s| - i
  {
    if i == |s| || !IsSpace(s[i]) then i else StartOf(s, i + 1)
  }

  /** One past the index of the last non-space character of `s` before
      `j`, or 0 when there is none: where `strip` ends the result. */
  function EndOf(s: string, j: nat): (b: nat)
    requires j <= |s|
    ensures b <= j
    ensures forall k :: b <= k < j ==> IsSpace(s[k])
    ensures b == 0 || !IsSpace(s[b - 1])
  {
    if j == 0 || !IsSpace(s[j - 1]) then j else EndOf(s, j - 1)
  }

  /** Python's `str.strip()` with no argument: the slice between the first
      and the last non-space character, empty when there is none. */
  function Strip(s: string): (r: string)
    ensures |r| <= |s|
    ensures r == [] || (!IsSpace(r[0]) && !IsSpace(r[|r| - 1]))
  {
    var a, b := StartOf(s, 0), EndOf(s, |s|);
    if a < b then s[a..b] else []
  }

  /** Strip returns the slice `s[i..j]` whenever everything outside it is
      whitespace and the slice is empty or has no whitespace at either end;
      so it is the one slice with those properties. */
  lemma StripUnique(s: string, i: nat, j: nat)
    requires i <= j <= |s|
    requires forall k :: 0 <= k < i ==> IsSpace(s[k])
    requires forall k :: j <= k < |s| ==> IsSpace(s[k])
    requires i < j ==> !IsSpace(s[i]) && !IsSpace(s[j - 1])
    ensures Strip(s) == s[i..j]
  {
    var a, b := StartOf(s, 0), EndOf(s, |s|);
    if i < j {
      assert a == i by {
        assert a <= i;
        assert !(a < i) by { assert a < |s| ==> !IsSpace(s[a]); }
      }
      assert b == j by {
        assert j <= b;
        assert !(j < b) by { assert b > 0 ==> !IsSpace(s[b - 1]); }
      }
    } else {
      assert a == |s|;
    }
  }

  /** The result of Strip is a slice of its input with only whitespace
      around it. */
  lemma StripIsSlice(s: string) returns (i: nat, j: nat)
    ensures i <= j <= |s| && Strip(s) == s[i..j]
    ensures forall k :: 0 <= k < i ==> IsSpace(s[k])
    ensures forall k :: j <= k < |s| ==> IsSpace(s[k])
    ensures i < j ==> !IsSpace(s[i]) && !IsSpace(s[j - 1])
  {
    var a, b := StartOf(s, 0), EndOf(s, |s|);
    if a < b {
      i, j := a, b;
    } else {
      i, j := a, a;
    }
  }

  /** Where the characters of `s` sit once `w1` and `w2` are added around
      it: a space before `s[i]` or after `s[j - 1]` is still a space. */
  lemma PaddedSpaces(w1: string, s: string, w2: string, i: nat, j: nat)
    requires AllSpace(w1) && AllSpace(w2) && i <= j <= |s|
    requires forall k :: 0 <= k < i ==> IsSpace(s[k])
    requires forall k :: j <= k < |s| ==> IsSpace(s[k])
    ensures forall k :: 0 <= k < |w1| + i ==> IsSpace((w1 + s + w2)[k])
    ensures forall k :: |w1| + j <= k < |w1 + s + w2| ==> IsSpace((w1 + s + w2)[k])
  {
    var p, n := w1 + s + w2, |w1|;
    forall k | 0 <= k < n + i ensures IsSpace(p[k]) {
      if k >= n { assert p[k] == s[k - n]; }
    }
    forall k | n + j <= k < |p| ensures IsSpace(p[k]) {
      if k < n + |s| { assert p[k] == s[k - n]; } else { assert p[k] == w2[k - n - |s|]; }
    }
  }

  /** The slice `s[i..j]` sits unchanged in `w1 + s + w2`, shifted by
      `|w1|`. */
  lemma PaddedSlice(w1: string, s: string, w2: string, i: nat, j: nat)
    requires i <= j <= |s|
    ensures (w1 + s + w2)[|w1| + i..|w1| + j] == s[i..j]
  {
    var p, n := w1 + s + w2, |w1|;
    forall k | 0 <= k < j - i ensures p[n + i..n + j][k] == s[i..j][k] {
      assert p[n + i + k] == s[i + k];
    }
  }

  /** Whitespace added around a code does not change what Strip returns. */
  lemma StripIgnoresPadding(w1: string, s: string, w2: string)
    requires AllSpace(w1) && AllSpace(w2)
    ensures Strip(w1 + s + w2) == Strip(s)
  {
    var i, j := StripIsSlice(s);
    var p, n := w1 + s + w2, |w1|;
    PaddedSpaces(w1, s, w2, i, j);
    PaddedSlice(w1, s, w2, i, j);
    assert i < j ==> p[n + i] == s[i] && p[n + j - 1] == s[j - 1];
    StripUnique(p, n + i, n + j);
  }

  /** Stripping a stripped code changes nothing. */
  lemma StripIdempotent(s: string)
    ensures Strip(Strip(s)) == Strip(s)
  {
    var r := Strip(s);
    StripUnique(r, 0, |r|);
    assert r[0..|r|] == r;
  }

  /** Python's `str.upper()` on one ASCII character: a lower-case letter
      becomes its capital, every other character is left as it is. */
  function UpperChar(c: char): (u: char)
    ensures !IsLower(u)
    ensures IsSpace(u) <==> IsSpace(c)
    ensures IsLower(c) ==> u as int == c as int - 32 && 'A' <= u <= 'Z'
    ensures !IsLower(c) ==> u == c
  {
    if IsLower(c) then (c as int - 32) as char else c
  }

  /** Python's `str.upper()`, character by character. */
  function Upper(s: string): (r: string)
    ensures |r| == |s|
  {
    seq(|s|, i requires 0 <= i < |s| => UpperChar(s[i]))
  }

  /** Upper-casing leaves no lower-case letter and changes only the
      lower-case letters. */
  lemma UpperSpec(s: string)
    ensures forall i :: 0 <= i < |s| ==> !IsLower(Upper(s)[i])
    ensures forall i :: 0 <= i < |s| && !IsLower(s[i]) ==> Upper(s)[i] == s[i]
  {
  }

  /** Upper-casing an upper-cased code changes nothing. */
  lemma UpperIdempotent(s: string)
    ensures Upper(Upper(s)) == Upper(s)
  {
  }

  /** Upper-casing a slice is slicing the upper-cased code, and it keeps
      every space where it was. */
  lemma UpperSlice(s: string, i: nat, j: nat)
    requires i <= j <= |s|
    ensures Upper(s)[i..j] == Upper(s[i..j])
    ensures forall k :: 0 <= k < |s| ==> (IsSpace(Upper(s)[k]) <==> IsSpace(s[k]))
  {
    var u := Upper(s);
    forall k | 0 <= k < j - i ensures u[i..j][k] == Upper(s[i..j])[k] {
      assert u[i + k] == UpperChar(s[i + k]);
    }
  }

  /** Stripping and upper-casing can be done in either order. */
  lemma StripUpperCommute(s: string)
    ensures Strip(Upper(s)) == Upper(Strip(s))
  {
    var i, j := StripIsSlice(s);
    UpperSlice(s, i, j);
    StripUnique(Upper(s), i, j);
  }

  /** The key the source looks up: `strip().upper()` of the coupon. */
  function Normalize(s: string): (r: string)
    ensures |r| <= |s|
  {
    Upper(Strip(s))
  }

  /** A code in canonical form: no surrounding whitespace and no lower-case
      letter. The table keys are in this form. */
  predicate IsNormal(s: string) {
    && (s == [] || (!IsSpace(s[0]) && !IsSpace(s[|s| - 1])))
    && forall i :: 0 <= i < |s| ==> !IsLower(s[i])
  }

  /** Normalize always yields a code in canonical form. */
  lemma NormalizeIsNormal(s: string)
    ensures IsNormal(Normalize(s))
  {
    var t := Strip(s);
    var u := Upper(t);
    UpperSpec(t);
    if t != [] {
      assert u[0] == UpperChar(t[0]) && u[|u| - 1] == UpperChar(t[|t| - 1]);
    }
  }

  /** A code already in canonical form is its own normalisation. */
  lemma NormalizeFixesNormal(s: string)
    requires IsNormal(s)
    ensures Normalize(s) == s
  {
    StripUnique(s, 0, |s|);
    assert s[0..|s|] == s;
    UpperSpec(s);
  }

  /** Normalising a normalised code changes nothing. */
  lemma NormalizeIdempotent(s: string)
    ensures Normalize(Normalize(s)) == Normalize(s)
  {
    NormalizeIsNormal(s);
    NormalizeFixesNormal(Normalize(s));
  }

  /** Normalisation ignores letter case: codes that agree after
      upper-casing normalise to the same key. */
  lemma NormalizeIgnoresCase(s: string, t: string)
    requires Upper(s) == Upper(t)
    ensures Normalize(s) == Normalize(t)
  {
    StripUpperCommute(s);
    StripUpperCommute(t);
  }

  /** Normalisation ignores surrounding whitespace. */
  lemma NormalizeIgnoresPadding(w1: string, s: string, w2: string)
    requires AllSpace(w1) && AllSpace(w2)
    ensures Normalize(w1 + s + w2) == Normalize(s)
  {
    StripIgnoresPadding(w1, s, w2);
  }
}
