/**
 String helpers the query pipeline relies on: case folding, whitespace trimming and
 substring search. Python's `str.lower()` and `str.strip()` work on all of Unicode;
 here they are approximated on ASCII (see README).
 */
module Text {

  /** Characters Python's `str.isspace()` accepts in the ASCII range. */
  predicate IsSpace(c: char)
  {
    c == ' ' || c == '\t' || c == '\n' || c == '\r' || c == '\U{B}' || c == '\U{C}'
    || ('\U{1C}' <= c <= '\U{1F}')
  }

  predicate AllSpace(s: string)
  {
    forall i :: 0 <= i < |s| ==> IsSpace(s[i])
  }

  predicate IsUpper(c: char)
  {
    'A' <= c <= 'Z'
  }

  /** ASCII case folding of one character. */
  function LowerChar(c: char): char
  {
    if IsUpper(c) then (c as int + 32) as char else c
  }

  /** Two strings that differ at most in the case of their letters. */
  predicate SameUpToCase(a: string, b: string)
  {
    |a| == |b| && forall i :: 0 <= i < |a| ==> LowerChar(a[i]) == LowerChar(b[i])
  }

  /** ASCII approximation of `str.lower()`: the one string with no upper-case letter
      that differs from `s` only in letter case. */
  function Lower(s: string): (r: string)
    ensures SameUpToCase(s, r)
    ensures forall i :: 0 <= i < |r| ==> !IsUpper(r[i])
  {
    seq(|s|, i requires 0 <= i < |s| => LowerChar(s[i]))
  }

  /** Index of the first non-space character of `s` at or after `i` (or `|s|`). */
  function SkipSpaces(s: string, i: nat): (r: nat)
    requires i <= |s|
    ensures i <= r <= |s|
    ensures forall k :: i <= k < r ==> IsSpace(s[k])
    ensures r == |s| || !IsSpace(s[r])
    decreases |s| - i
  {
    if i < |s| && IsSpace(s[i]) then SkipSpaces(s, i + 1) else i
  }

  /** End of `s[lo..j]` once its trailing whitespace is dropped. */
  function SkipSpacesBack(s: string, lo: nat, j: nat): (r: nat)
    requires lo <= j <= |s|
    ensures lo <= r <= j
    ensures forall k :: r <= k < j ==> IsSpace(s[k])
    ensures r == lo || !IsSpace(s[r - 1])
    decreases j
  {
    if lo < j && IsSpace(s[j - 1]) then SkipSpacesBack(s, lo, j - 1) else j
  }

  /** ASCII approximation of `str.strip()`: the infix of `s` left once the whitespace
      runs at both ends are removed; it neither starts nor ends with whitespace. */
  function Strip(s: string): (r: string)
    ensures exists i: nat :: Trimmed(s, r, i)
    ensures r == [] || (!IsSpace(r[0]) && !IsSpace(r[|r| - 1]))
  {
    var i := SkipSpaces(s, 0);
    var j := SkipSpacesBack(s, i, |s|);
    assert Trimmed(s, s[i..j], i);
    s[i..j]
  }

  /** `s` is whitespace, then `core` starting at index `i`, then whitespace. */
  predicate Trimmed(s: string, core: string, i: nat)
  {
    i + |core| <= |s| && s[i..i + |core|] == core
    && AllSpace(s[..i]) && AllSpace(s[i + |core|..])
  }

  /** `sub` occurs in `s` starting at index `i`. */
  predicate OccursAt(s: string, sub: string, i: nat)
  {
    i + |sub| <= |s| && s[i..i + |sub|] == sub
  }

  /** Python's `sub in s`. */
  function Contains(s: string, sub: string): (r: bool)
    ensures r <==> exists i: nat :: OccursAt(s, sub, i)
  {
    if sub <= s then
      assert OccursAt(s, sub, 0);
      true
    else if |s| == 0 then
      false
    else
      var r := Contains(s[1..], sub);
      assert forall i: nat :: OccursAt(s[1..], sub, i) <==> OccursAt(s, sub, i + 1);
      assert !OccursAt(s, sub, 0);
      assert forall i: nat :: OccursAt(s, sub, i) ==> i == 0 || OccursAt(s[1..], sub, i - 1);
      r
  }

  // ---------------------------------------------------------------------------
  // Properties

  /** The strip of a string is unique: any way of writing `s` as whitespace, a core
      without whitespace at its ends, and whitespace, has `Strip(s)` as its core. */
  lemma StripUnique(s: string, a: string, core: string, b: string)
    requires s == a + core + b
    requires AllSpace(a) && AllSpace(b)
    requires core == [] || (!IsSpace(core[0]) && !IsSpace(core[|core| - 1]))
    ensures Strip(s) == core
  {
    var e := |a| + |core|;
    assert forall k :: 0 <= k < |a| ==> s[k] == a[k];
    assert forall k :: e <= k < |s| ==> s[k] == b[k - e];
    var i := SkipSpaces(s, 0);
    var j := SkipSpacesBack(s, i, |s|);
    if core == [] {
      if i < |s| {
        assert false;
      }
    } else {
      assert s[|a|] == core[0];
      assert s[e - 1] == core[|core| - 1];
      assert i == |a|;
      assert j == e;
      assert s[i..j] == core;
    }
  }

  lemma AllSpaceConcat(u: string, v: string)
    requires AllSpace(u) && AllSpace(v)
    ensures AllSpace(u + v)
  {
  }

  lemma Regroup(p: string, x: string, q: string, xa: string, core: string, xb: string)
    requires x == xa + core + xb
    ensures p + x + q == (p + xa) + core + (xb + q)
  {
  }

  /** Splits `x` into its leading whitespace, its strip and its trailing whitespace. */
  lemma StripSplit(x: string) returns (xa: string, xb: string)
    ensures x == xa + Strip(x) + xb
    ensures AllSpace(xa) && AllSpace(xb)
  {
    var core := Strip(x);
    var i: nat :| Trimmed(x, core, i);
    xa, xb := x[..i], x[i + |core|..];
    assert x == x[..i] + x[i..i + |core|] + x[i + |core|..];
  }

  /** Whitespace added around a string does not change its strip. */
  lemma StripIgnoresPadding(x: string, p: string, q: string)
    requires AllSpace(p) && AllSpace(q)
    ensures Strip(p + x + q) == Strip(x)
  {
    var xa, xb := StripSplit(x);
    var core := Strip(x);
    AllSpaceConcat(p, xa);
    AllSpaceConcat(xb, q);
    Regroup(p, x, q, xa, core, xb);
    StripUnique(p + x + q, p + xa, core, xb + q);
  }

  /** Case folding is idempotent. */
  lemma LowerIdempotent(s: string)
    ensures Lower(Lower(s)) == Lower(s)
  {
  }

  /** Case folding agrees on strings that differ only in letter case. */
  lemma LowerSameUpToCase(a: string, b: string)
    requires SameUpToCase(a, b)
    ensures Lower(a) == Lower(b)
  {
  }

  /** Case folding keeps whitespace and distributes over concatenation. */
  lemma LowerConcat(a: string, b: string)
    ensures Lower(a + b) == Lower(a) + Lower(b)
  {
  }

  lemma LowerKeepsSpace(s: string)
    requires AllSpace(s)
    ensures Lower(s) == s
  {
  }

  /** A string contains each of the pieces it is built from. */
  lemma ContainsInfix(a: string, b: string, c: string)
    ensures Contains(a + b + c, b)
  {
    assert OccursAt(a + b + c, b, |a|);
  }
}
