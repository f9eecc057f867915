/**
 * Character-level helpers standing in for the Python string and regular
 * expression primitives the fallback parser relies on.
 */
module Text {
  import opened Wrappers

  /** The characters Python's `str.strip()` removes (`str.isspace`). */
  predicate IsSpace(c: char) {
    ('\t' <= c <= '\r') || ('\U{1C}' <= c <= '\U{1F}') || c == ' ' || c == '\U{85}' || c == '\U{A0}'
    || c == '\U{1680}' || ('\U{2000}' <= c <= '\U{200A}') || c == '\U{2028}' || c == '\U{2029}'
    || c == '\U{202F}' || c == '\U{205F}' || c == '\U{3000}'
  }

  /** Every character of `s[lo..hi]` is whitespace. */
  predicate AllSpace(s: string, lo: int, hi: int) {
    forall k :: lo <= k < hi && 0 <= k < |s| ==> IsSpace(s[k])
  }

  /** The first index at or after `i` that does not hold whitespace (or `|s|`). */
  function SkipSpace(s: string, i: nat): (j: nat)
    requires i <= |s|
    decreases |s| - i
    ensures i <= j <= |s| && AllSpace(s, i, j)
    ensures j == |s| || !IsSpace(s[j])
  {
    if i < |s| && IsSpace(s[i]) then SkipSpace(s, i + 1) else i
  }

  /** The end of `s[lo..hi]` once the whitespace at its end is dropped. */
  function TrimEnd(s: string, lo: nat, hi: nat): (k: nat)
    requires lo <= hi <= |s|
    decreases hi
    ensures lo <= k <= hi && AllSpace(s, k, hi)
    ensures k == lo || !IsSpace(s[k - 1])
  {
    if lo < hi && IsSpace(s[hi - 1]) then TrimEnd(s, lo, hi - 1) else hi
  }

  /** Python's `str.strip()`: removes the whitespace at both ends. */
  function Strip(s: string): (r: string)
    ensures r == [] || (!IsSpace(r[0]) && !IsSpace(r[|r| - 1]))
    ensures |r| <= |s|
  {
    var i := SkipSpace(s, 0);
    s[i..TrimEnd(s, i, |s|)]
  }

  /**
   * What `Strip` leaves is one slice `s[i..i + |r|]` of its input that
   * neither starts nor ends with whitespace, and everything before and after
   * that slice is whitespace: this pins the result down.
   */
  lemma StripIsTrim(s: string)
    ensures var r, i := Strip(s), SkipSpace(s, 0);
            && (r == [] || (!IsSpace(r[0]) && !IsSpace(r[|r| - 1])))
            && i + |r| <= |s| && r == s[i..i + |r|]
            && AllSpace(s, 0, i) && AllSpace(s, i + |r|, |s|)
  {
  }

  /** Stripping a string of whitespace leaves nothing. */
  lemma StripAllSpace(s: string)
    requires forall i :: 0 <= i < |s| ==> IsSpace(s[i])
    ensures Strip(s) == []
  {
  }

  /** Stripping a string without whitespace at either end leaves it as it is. */
  lemma StripNoSpace(s: string)
    requires s == [] || (!IsSpace(s[0]) && !IsSpace(s[|s| - 1]))
    ensures Strip(s) == s
  {
  }

  predicate IsDigit(c: char) {
    '0' <= c <= '9'
  }

  predicate AllDigits(s: string) {
    forall i :: 0 <= i < |s| ==> IsDigit(s[i])
  }

  /** The decimal value of a string of ASCII digits. */
  function DigitsValue(s: string): (n: nat)
    requires AllDigits(s)
    ensures n < Pow10(|s|)
  {
    if s == [] then 0 else DigitsValue(s[..|s| - 1]) * 10 + (s[|s| - 1] as int - '0' as int)
  }

  function Pow10(k: nat): (p: nat)
    ensures p >= 1
  {
    if k == 0 then 1 else 10 * Pow10(k - 1)
  }

  /**
   * Whether `c` matches the pattern character `p` under Python's
   * `re.IGNORECASE` on text: an ASCII letter matches both of its cases and
   * every character whose simple lower-case form is that letter (dotted
   * capital I, Kelvin sign), plus the equivalences `re` adds (dotless i,
   * long s).
   */
  predicate CharMatchesIgnoreCase(c: char, p: char) {
    var u := UpperAscii(p);
    if 'A' <= u <= 'Z' then
      c == u || c as int == u as int + 32
      || (u == 'I' && (c == '\U{130}' || c == '\U{131}'))
      || (u == 'K' && c == '\U{212A}')
      || (u == 'S' && c == '\U{17F}')
    else
      c == p
  }

  function UpperAscii(c: char): char {
    if 'a' <= c <= 'z' then (c as int - 32) as char else c
  }

  /** `t` is `pat` up to letter case. */
  predicate EqualsIgnoreCase(t: string, pat: string) {
    |t| == |pat| && forall k :: 0 <= k < |t| ==> CharMatchesIgnoreCase(t[k], pat[k])
  }

  predicate MatchesAtIgnoreCase(s: string, i: nat, pat: string) {
    i + |pat| <= |s| && EqualsIgnoreCase(s[i..i + |pat|], pat)
  }

  /** The first position at or after `from` where `pat` occurs, ignoring case. */
  function FindIgnoreCase(s: string, from: nat, pat: string): (r: Option<nat>)
    decreases |s| - from
    ensures r.Some? ==> from <= r.value && MatchesAtIgnoreCase(s, r.value, pat)
    ensures r.Some? ==> forall i :: from <= i < r.value ==> !MatchesAtIgnoreCase(s, i, pat)
    ensures r.None? ==> forall i :: from <= i ==> !MatchesAtIgnoreCase(s, i, pat)
  {
    if from + |pat| > |s| then None
    else if MatchesAtIgnoreCase(s, from, pat) then Some(from)
    else FindIgnoreCase(s, from + 1, pat)
  }

  /** The first index at or after `from` holding `c`. */
  function IndexOf(s: string, from: nat, c: char): (r: Option<nat>)
    decreases |s| - from
    ensures r.Some? ==> from <= r.value < |s| && s[r.value] == c
    ensures r.Some? ==> forall i :: from <= i < r.value ==> s[i] != c
    ensures r.None? ==> forall i :: from <= i < |s| ==> s[i] != c
  {
    if from >= |s| then None
    else if s[from] == c then Some(from)
    else IndexOf(s, from + 1, c)
  }

  /** The end of the run starting at `from` that contains no `c`. */
  function RunEnd(s: string, from: nat, c: char): (e: nat)
    requires from <= |s|
    ensures from <= e <= |s|
    ensures forall i :: from <= i < e ==> s[i] != c
    ensures e == |s| || s[e] == c
  {
    match IndexOf(s, from, c)
    case Some(e) => e
    case None => |s|
  }

}
