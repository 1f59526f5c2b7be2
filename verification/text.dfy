/**
 * The few string operations the handlers apply to form input: Python's
 * `str.strip()`, `str.lower()` (on ASCII letters) and substring containment.
 */
module Text {

  /**
   * The characters for which Python's `str.isspace()` holds, hence those
   * `str.strip()` removes: tab to carriage return, the four ASCII separators,
   * space, NEL, no-break space and the Unicode space separators.
   */
  predicate IsSpace(c: char) {
    || c == ' '
    || '\t' <= c <= '\r'
    || '\U{1C}' <= c <= '\U{1F}'
    || c == '\U{85}' || c == '\U{A0}' || c == '\U{1680}'
    || '\U{2000}' <= c <= '\U{200A}'
    || c == '\U{2028}' || c == '\U{2029}' || c == '\U{202F}' || c == '\U{205F}' || c == '\U{3000}'
  }

  /** `r` occurs in `s` starting at index `lo`. */
  predicate OccursAt(r: string, s: string, lo: int) {
    0 <= lo <= |s| - |r| && s[lo..lo + |r|] == r
  }

  /** True when `s` holds at least one character that `strip()` keeps. */
  predicate HasVisibleChar(s: string) {
    exists i :: 0 <= i < |s| && !IsSpace(s[i])
  }

  /** The index of the first character at or after `i` that `strip()` keeps, or `|s|`. */
  function SkipSpaces(s: string, i: nat): (k: nat)
    requires i <= |s|
    ensures i <= k <= |s|
    ensures k == |s| || !IsSpace(s[k])
    ensures forall m :: i <= m < k ==> IsSpace(s[m])
    decreases |s| - i
  {
    if i == |s| || !IsSpace(s[i]) then i else SkipSpaces(s, i + 1)
  }

  /** Walking back from `j` towards `lo`, the end of the last character `strip()` keeps, or `lo`. */
  function SkipSpacesBack(s: string, lo: nat, j: nat): (k: nat)
    requires lo <= j <= |s|
    ensures lo <= k <= j
    ensures k == lo || !IsSpace(s[k - 1])
    ensures forall m :: k <= m < j ==> IsSpace(s[m])
    decreases j
  {
    if j == lo || !IsSpace(s[j - 1]) then j else SkipSpacesBack(s, lo, j - 1)
  }

  /**
   * Python's `s.strip()`: the infix of `s` between its first and its last
   * non-whitespace character; empty when there is none.
   */
  function Strip(s: string): (r: string)
    ensures exists lo :: && OccursAt(r, s, lo)
                         && (forall m :: 0 <= m < lo ==> IsSpace(s[m]))
                         && (forall m :: lo + |r| <= m < |s| ==> IsSpace(s[m]))
    ensures r == [] || (!IsSpace(r[0]) && !IsSpace(r[|r| - 1]))
    ensures r == [] <==> !HasVisibleChar(s)
  {
    var lo := SkipSpaces(s, 0);
    var hi := SkipSpacesBack(s, lo, |s|);
    assert OccursAt(s[lo..hi], s, lo);
    assert hi == lo ==> !HasVisibleChar(s) by {
      if hi == lo {
        forall m | 0 <= m < |s|
          ensures IsSpace(s[m])
        {
        }
      }
    }
    s[lo..hi]
  }

  /** A string that neither starts nor ends with whitespace is its own strip. */
  lemma StripKeepsTrimmed(s: string)
    requires s == [] || (!IsSpace(s[0]) && !IsSpace(s[|s| - 1]))
    ensures Strip(s) == s
  {
    assert SkipSpaces(s, 0) == 0;
    assert SkipSpacesBack(s, 0, |s|) == |s|;
  }

  /** Stripping twice is stripping once. */
  lemma StripIdempotent(s: string)
    ensures Strip(Strip(s)) == Strip(s)
  {
    StripKeepsTrimmed(Strip(s));
  }

  predicate IsAsciiUpper(c: char) {
    'A' <= c <= 'Z'
  }

  /** Python's `c.lower()` restricted to ASCII: A-Z become a-z, every other character is kept. */
  function LowerChar(c: char): (r: char)
    ensures !IsAsciiUpper(r)
    ensures IsAsciiUpper(c) ==> r as int == c as int + 32
    ensures !IsAsciiUpper(c) ==> r == c
  {
    if IsAsciiUpper(c) then (c as int + 32) as char else c
  }

  /** Python's `s.lower()` on ASCII letters. */
  function Lower(s: string): (r: string)
    ensures |r| == |s|
    ensures forall i :: 0 <= i < |r| ==> !IsAsciiUpper(r[i])
    ensures forall i :: 0 <= i < |s| ==> r[i] == LowerChar(s[i])
  {
    if s == [] then [] else [LowerChar(s[0])] + Lower(s[1..])
  }

  /** Lower-casing never turns a character into whitespace or whitespace into something else. */
  lemma LowerKeepsSpaces(s: string)
    ensures forall i :: 0 <= i < |s| ==> (IsSpace(Lower(s)[i]) <==> IsSpace(s[i]))
  {
  }

  /** Lower-casing is idempotent. */
  lemma LowerIdempotent(s: string)
    ensures Lower(Lower(s)) == Lower(s)
  {
  }

  /** Skipping whitespace finds the same index before and after lower-casing. */
  lemma {:induction false} SkipSpacesLower(s: string, i: nat)
    requires i <= |s|
    ensures SkipSpaces(Lower(s), i) == SkipSpaces(s, i)
    decreases |s| - i
  {
    LowerKeepsSpaces(s);
    if i < |s| && IsSpace(s[i]) {
      SkipSpacesLower(s, i + 1);
    }
  }

  lemma {:induction false} SkipSpacesBackLower(s: string, lo: nat, j: nat)
    requires lo <= j <= |s|
    ensures SkipSpacesBack(Lower(s), lo, j) == SkipSpacesBack(s, lo, j)
    decreases j
  {
    LowerKeepsSpaces(s);
    if j > lo && IsSpace(s[j - 1]) {
      SkipSpacesBackLower(s, lo, j - 1);
    }
  }

  /** Lower-casing and stripping commute: `s.lower().strip() == s.strip().lower()`. */
  lemma StripLower(s: string)
    ensures Strip(Lower(s)) == Lower(Strip(s))
  {
    SkipSpacesLower(s, 0);
    SkipSpacesBackLower(s, SkipSpaces(s, 0), |s|);
    var lo := SkipSpaces(s, 0);
    var hi := SkipSpacesBack(s, lo, |s|);
    var lowered := Lower(s);
    var a := lowered[lo..hi];
    var b := Lower(s[lo..hi]);
    forall i | 0 <= i < |a|
      ensures a[i] == b[i]
    {
      assert a[i] == lowered[lo + i] == LowerChar(s[lo + i]);
      assert s[lo..hi][i] == s[lo + i];
    }
    assert a == b;
  }

  /** SQL `LIKE '%sub%'` without wildcard characters in `sub`: `sub` occurs in `s`. */
  predicate Contains(s: string, sub: string) {
    exists i :: 0 <= i <= |s| && OccursAt(sub, s, i)
  }
}
