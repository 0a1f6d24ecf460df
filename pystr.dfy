/** The Python `str` operations the scraper relies on. */
module PyStr {

  /** The characters for which Python's `str.isspace()` holds; `str.strip()` removes exactly these. */
  predicate IsSpace(c: char) {
    || c == ' ' || '\t' <= c <= '\r' || '\U{1c}' <= c <= '\U{1f}'
    || c == '\U{85}' || c == '\U{a0}' || c == '\U{1680}'
    || '\U{2000}' <= c <= '\U{200a}' || c == '\U{2028}' || c == '\U{2029}'
    || c == '\U{202f}' || c == '\U{205f}' || c == '\U{3000}'
  }

  /** The first position at or after `i` that does not hold whitespace, or `|s|`. */
  function SkipSpace(s: string, i: nat): (j: nat)
    requires i <= |s|
    ensures i <= j <= |s|
    ensures forall k | i <= k < j :: IsSpace(s[k])
    ensures j == |s| || !IsSpace(s[j])
    decreases |s| - i
  {
    if i < |s| && IsSpace(s[i]) then SkipSpace(s, i + 1) else i
  }

  /** The end of `s[lo..j]` once its trailing whitespace is dropped. */
  function SkipSpaceBack(s: string, lo: nat, j: nat): (e: nat)
    requires lo <= j <= |s|
    ensures lo <= e <= j
    ensures forall k | e <= k < j :: IsSpace(s[k])
    ensures e == lo || !IsSpace(s[e - 1])
  {
    if j > lo && IsSpace(s[j - 1]) then SkipSpaceBack(s, lo, j - 1) else j
  }

  /** `r` occurs in `s` at offset `i` with nothing but whitespace around it. */
  predicate Padded(s: string, r: string, i: int) {
    && 0 <= i <= |s| - |r|
    && s[i..i + |r|] == r
    && (forall k | 0 <= k < i :: IsSpace(s[k]))
    && (forall k | i + |r| <= k < |s| :: IsSpace(s[k]))
  }

  /**
    * `s.strip()`: the slice of `s` left after removing its leading and trailing
    * whitespace. The result neither starts nor ends with whitespace, and what
    * was removed on either side is all whitespace; these two facts determine it.
    */
  function Strip(s: string): (r: string)
    ensures r == [] || (!IsSpace(r[0]) && !IsSpace(r[|r| - 1]))
    ensures exists i :: Padded(s, r, i)
  {
    var i := SkipSpace(s, 0);
    var e := SkipSpaceBack(s, i, |s|);
    var r := s[i..e];
    assert Padded(s, r, i);
    r
  }

  /**
    * A slice of `s` with only whitespace around it, that neither starts nor
    * ends with whitespace, is `s.strip()`.
    */
  lemma StripPadded(s: string, r: string, i: int)
    requires Padded(s, r, i)
    requires r == [] || (!IsSpace(r[0]) && !IsSpace(r[|r| - 1]))
    ensures Strip(s) == r
  {
    var q := Strip(s);
    var j :| Padded(s, q, j);
    PaddedAt(s, r, i);
    PaddedAt(s, q, j);
    if r != [] {
      assert s[i] == r[0] && s[i + |r| - 1] == r[|r| - 1];
    }
    if q != [] {
      assert s[j] == q[0] && s[j + |q| - 1] == q[|q| - 1];
    }
    assert |q| == |r|;
    assert q == s[i..i + |r|];
  }

  /** Position by position, `r` is `s` from offset `i`. */
  lemma PaddedAt(s: string, r: string, i: int)
    requires Padded(s, r, i)
    ensures forall k | 0 <= k < |r| :: s[i + k] == r[k]
  {
    forall k | 0 <= k < |r| ensures s[i + k] == r[k] {
      assert s[i..i + |r|][k] == s[i + k];
    }
  }

  predicate IsUpper(c: char) {
    'A' <= c <= 'Z'
  }

  /** The ASCII lower-case letters, in alphabetical order. */
  const LowerLetters: string := "abcdefghijklmnopqrstuvwxyz"

  /**
    * ASCII lower-casing of one character: an upper-case letter becomes the
    * lower-case letter at the same place in the alphabet; anything else stays.
    */
  function LowerChar(c: char): (d: char)
    ensures !IsUpper(d)
    ensures IsUpper(c) ==> d == LowerLetters[c as int - 'A' as int]
    ensures !IsUpper(c) ==> d == c
  {
    if IsUpper(c) then (c as int + 32) as char else c
  }

  /** `s.lower()`, restricted to ASCII letters. */
  function Lower(s: string): (r: string)
    ensures |r| == |s|
    ensures forall i | 0 <= i < |s| :: r[i] == LowerChar(s[i])
  {
    seq(|s|, i requires 0 <= i < |s| => LowerChar(s[i]))
  }

  /** `s.replace(' ', '_')`. */
  function SpacesToUnderscores(s: string): (r: string)
    ensures |r| == |s|
    ensures forall i | 0 <= i < |s| :: r[i] == if s[i] == ' ' then '_' else s[i]
  {
    seq(|s|, i requires 0 <= i < |s| => if s[i] == ' ' then '_' else s[i])
  }

  /** `s.endswith(suffix)`. */
  predicate EndsWith(s: string, suffix: string)
    ensures EndsWith(s, suffix) <==>
      |suffix| <= |s| && forall k | 0 <= k < |suffix| :: s[|s| - |suffix| + k] == suffix[k]
  {
    |suffix| <= |s| && s[|s| - |suffix|..] == suffix
  }
}
