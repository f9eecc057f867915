/**
 * The regular expressions `_fallback_parse` applies to calendar text
 * (RFC 5545), written out as first-match searches over the whole string.
 * Lines are not unfolded (section 3.1 of RFC 5545): a continuation line is
 * just another line.
 */
module Ics {
  import opened Wrappers
  import opened Text

  const BeginMarker: string := "BEGIN:VEVENT"
  const EndMarker: string := "END:VEVENT"

  /**
   * `re.findall(r"BEGIN:VEVENT(.*?)END:VEVENT", text, re.DOTALL | re.IGNORECASE)`:
   * the text between each begin marker and the first end marker after it,
   * scanning on after that end marker. Once a begin marker has no end marker
   * after it, no later one has either, so the scan stops.
   */
  function VEventBlocks(text: string): seq<string>
    decreases |text|
  {
    var next := NextBlock(text);
    if next.None? then []
    else [text[next.value.0..next.value.1]] + VEventBlocks(text[next.value.1 + |EndMarker|..])
  }

  /**
   * The bounds `(lo, q)` of the body of the first block: `lo` just after the
   * first begin marker, `q` at the first end marker from there. `None` when
   * no begin marker is followed by an end marker.
   */
  function NextBlock(text: string): (r: Option<(nat, nat)>)
    ensures r.Some? ==> r.value.0 <= r.value.1 && r.value.1 + |EndMarker| <= |text|
    ensures r.Some? ==> r.value.0 >= |BeginMarker| && FindIgnoreCase(text, 0, BeginMarker) == Some(r.value.0 - |BeginMarker|)
    ensures r.Some? ==> FindIgnoreCase(text, r.value.0, EndMarker) == Some(r.value.1)
    ensures r.None? ==> forall i: nat, j: nat :: MatchesAtIgnoreCase(text, i, BeginMarker) && i + |BeginMarker| <= j
                                                 ==> !MatchesAtIgnoreCase(text, j, EndMarker)
  {
    match FindIgnoreCase(text, 0, BeginMarker)
    case None => None
    case Some(p) =>
      match FindIgnoreCase(text, p + |BeginMarker|, EndMarker)
      case None => None
      case Some(q) => Some((p + |BeginMarker|, q))
  }

  lemma MatchInSlice(s: string, lo: nat, hi: nat, i: nat, pat: string)
    requires lo <= hi <= |s|
    requires MatchesAtIgnoreCase(s[lo..hi], i, pat)
    ensures MatchesAtIgnoreCase(s, lo + i, pat) && lo + i + |pat| <= hi
  {
    assert i + |pat| <= hi - lo;
    var window := s[lo..hi][i..i + |pat|];
    forall k | 0 <= k < |pat| ensures window[k] == s[lo + i + k] {
    }
    assert s[lo..hi][i..i + |pat|] == s[lo + i..lo + i + |pat|];
  }

  /** No end marker, in any letter case, starts anywhere in `b`. */
  ghost predicate HoldsNoEndMarker(b: string) {
    forall i :: !MatchesAtIgnoreCase(b, i, EndMarker)
  }

  /**
   * The lazy `(.*?)` makes every block the shortest possible: no block holds
   * an end marker in any letter case.
   */
  lemma {:induction false} BlocksHoldNoEndMarker(text: string)
    ensures forall j :: 0 <= j < |VEventBlocks(text)| ==> HoldsNoEndMarker(VEventBlocks(text)[j])
    decreases |text|
  {
    var next := NextBlock(text);
    if next.Some? {
      var lo, q := next.value.0, next.value.1;
      var rest := text[q + |EndMarker|..];
      var first := text[lo..q];
      var bs := VEventBlocks(text);
      var tail := VEventBlocks(rest);
      assert bs == [first] + tail;
      BlocksHoldNoEndMarker(rest);
      FirstBlockHoldsNoEndMarker(text, lo, q);
      forall j | 0 <= j < |bs| ensures HoldsNoEndMarker(bs[j]) {
        if j > 0 {
          assert bs[j] == tail[j - 1];
        }
      }
    }
  }

  lemma FirstBlockHoldsNoEndMarker(text: string, lo: nat, q: nat)
    requires FindIgnoreCase(text, lo, EndMarker) == Some(q)
    ensures HoldsNoEndMarker(text[lo..q])
  {
    forall i | MatchesAtIgnoreCase(text[lo..q], i, EndMarker) ensures false {
      MatchInSlice(text, lo, q, i, EndMarker);
    }
  }

  /** `^` under `re.MULTILINE`: the start of the string or just after a line feed. */
  predicate AtLineStart(s: string, p: nat) {
    p == 0 || (p <= |s| && s[p - 1] == '\n')
  }

  /** What a property regex captures: the parameter text (`''` when absent) and the raw value. */
  datatype Property = Property(params: string, value: string)

  /**
   * `v` is the whole rest of the line from `i`: non-empty, free of line
   * feeds, and followed by a line feed or the end of `s`.
   */
  predicate IsLineRest(s: string, i: nat, v: string) {
    && |v| > 0 && i + |v| <= |s| && s[i..i + |v|] == v && '\n' !in v
    && (i + |v| == |s| || s[i + |v|] == '\n')
  }

  /**
   * `(.+)$` from index `i`, with `re.MULTILINE` and without `re.DOTALL`: the
   * rest of the line, which must not be empty.
   */
  function LineValue(s: string, i: nat): (r: Option<string>)
    requires i <= |s|
    ensures r.None? <==> i == |s| || s[i] == '\n'
    ensures r.Some? ==> IsLineRest(s, i, r.value)
  {
    var e := RunEnd(s, i, '\n');
    if e == i then None
    else
      assert forall k :: 0 <= k < e - i ==> s[i..e][k] == s[i + k];
      Some(s[i..e])
  }

  /**
   * Whether `^NAME(?:;([^:]+))?:(.+)$` (with `allowParams`) or `^NAME:(.+)$`
   * (without) matches at `p`. The parameter group runs to the first colon,
   * across line feeds if need be, and must not be empty.
   */
  function PropertyAt(s: string, p: nat, name: string, allowParams: bool): (r: Option<Property>)
    ensures r.Some? ==> AtLineStart(s, p) && p + |name| < |s| && s[p..p + |name|] == name
    ensures r.Some? ==> |r.value.value| > 0 && '\n' !in r.value.value && ':' !in r.value.params
    ensures r.Some? && !allowParams ==> r.value.params == []
    ensures r.Some? && r.value.params == [] ==> s[p + |name|] == ':' && IsLineRest(s, p + |name| + 1, r.value.value)
    ensures r.Some? && r.value.params != [] ==> allowParams && s[p + |name|] == ';' && r == ParamsAndValue(s, p + |name|)
  {
    if !(AtLineStart(s, p) && p + |name| < |s| && s[p..p + |name|] == name) then None
    else
      var k := p + |name|;
      if s[k] == ':' then
        match LineValue(s, k + 1)
        case Some(v) => Some(Property([], v))
        case None => None
      else if allowParams && s[k] == ';' then ParamsAndValue(s, k)
      else None
  }

  /**
   * `;([^:]+):(.+)$` from the semicolon at `k`: the parameter text runs to
   * the first colon after it and must not be empty, and the value is the
   * rest of the line after that colon.
   */
  function ParamsAndValue(s: string, k: nat): (r: Option<Property>)
    requires k < |s|
    ensures r.Some? ==>
              var ps := r.value.params;
              && ps != [] && ':' !in ps && k + 1 + |ps| < |s|
              && s[k + 1..k + 1 + |ps|] == ps && s[k + 1 + |ps|] == ':'
              && IsLineRest(s, k + 2 + |ps|, r.value.value)
  {
    match IndexOf(s, k + 1, ':')
    case None => None
    case Some(c) =>
      if c == k + 1 then None
      else
        match LineValue(s, c + 1)
        case Some(v) =>
          Some(Property(s[k + 1..c], v))
        case None => None
  }

  /** A `NAME:` line with a non-empty rest matches at its start, capturing no parameters. */
  lemma PropertyAtPlain(s: string, p: nat, name: string, allowParams: bool)
    requires AtLineStart(s, p) && p + |name| + 1 < |s| && s[p..p + |name|] == name
    requires s[p + |name|] == ':' && s[p + |name| + 1] != '\n'
    ensures PropertyAt(s, p, name, allowParams).Some?
    ensures PropertyAt(s, p, name, allowParams).value.params == []
  {
  }

  /**
   * A `NAME;params:` line matches at its start when the parameter text up to
   * the first colon is not empty and the value after that colon is not empty;
   * the parameters captured are that text.
   */
  lemma PropertyAtWithParams(s: string, p: nat, name: string, c: nat)
    requires AtLineStart(s, p) && p + |name| + 1 < c && c + 1 < |s| && s[p..p + |name|] == name
    requires s[p + |name|] == ';' && s[c] == ':' && s[c + 1] != '\n'
    requires forall j :: p + |name| < j < c ==> s[j] != ':'
    ensures PropertyAt(s, p, name, true).Some?
    ensures PropertyAt(s, p, name, true).value.params == s[p + |name| + 1..c]
  {
    assert IndexOf(s, p + |name| + 1, ':') == Some(c);
  }

  /** The first position at or after `from` where the property regex matches. */
  function FirstPropertyAt(s: string, name: string, allowParams: bool, from: nat): (r: Option<nat>)
    decreases |s| - from
    ensures r.Some? ==> from <= r.value && PropertyAt(s, r.value, name, allowParams).Some?
    ensures r.Some? ==> forall p :: from <= p < r.value ==> PropertyAt(s, p, name, allowParams).None?
    ensures r.None? ==> forall p :: from <= p ==> PropertyAt(s, p, name, allowParams).None?
  {
    if from >= |s| then None
    else if PropertyAt(s, from, name, allowParams).Some? then Some(from)
    else FirstPropertyAt(s, name, allowParams, from + 1)
  }

  /** `re.search` of the property regex over a block, with `re.MULTILINE`. */
  function FindProperty(s: string, name: string, allowParams: bool): (r: Option<Property>)
    ensures r.Some? ==> |r.value.value| > 0 && '\n' !in r.value.value
  {
    match FirstPropertyAt(s, name, allowParams, 0)
    case Some(p) => PropertyAt(s, p, name, allowParams)
    case None => None
  }

  /** The search fails exactly when the regex matches at no position. */
  lemma FindPropertyNone(s: string, name: string, allowParams: bool)
    ensures FindProperty(s, name, allowParams).None? <==> forall p :: PropertyAt(s, p, name, allowParams).None?
  {
    match FirstPropertyAt(s, name, allowParams, 0)
    case Some(p) =>
    case None =>
  }

  /** The search returns the match at the first position where the regex matches. */
  lemma FindPropertyFirst(s: string, name: string, allowParams: bool, p: nat)
    requires PropertyAt(s, p, name, allowParams).Some?
    requires forall q: nat :: q < p ==> PropertyAt(s, q, name, allowParams).None?
    ensures FindProperty(s, name, allowParams) == PropertyAt(s, p, name, allowParams)
  {
    FindPropertyNone(s, name, allowParams);
  }

  /** `_grab(name)`: the stripped value of the first parameterless `NAME:` line. */
  function Grab(block: string, name: string): (r: Option<string>)
    ensures r.Some? ==> r.value == [] || (!IsSpace(r.value[0]) && !IsSpace(r.value[|r.value| - 1]))
  {
    match FindProperty(block, name, false)
    case Some(prop) => Some(Strip(prop.value))
    case None => None
  }

  /** `_grab` gives `None` exactly when no `NAME:` line with a non-empty value exists. */
  lemma GrabNone(block: string, name: string)
    ensures Grab(block, name).None? <==> forall p :: PropertyAt(block, p, name, false).None?
  {
    FindPropertyNone(block, name, false);
  }

  /** `_grab` strips the value of the first `NAME:` line that matches. */
  lemma GrabFirst(block: string, name: string, p: nat)
    requires PropertyAt(block, p, name, false).Some?
    requires forall q: nat :: q < p ==> PropertyAt(block, q, name, false).None?
    ensures Grab(block, name) == Some(Strip(PropertyAt(block, p, name, false).value.value))
  {
    FindPropertyFirst(block, name, false, p);
  }

  /** Where `re.search(r"TZID=([^;]+)", params)` can match: `TZID=` and at least one character other than `;`. */
  predicate TzidAt(params: string, i: nat) {
    i + 5 < |params| && params[i..i + 5] == "TZID=" && params[i + 5] != ';'
  }

  function FirstTzidAt(params: string, from: nat): (r: Option<nat>)
    decreases |params| - from
    ensures r.Some? ==> from <= r.value && TzidAt(params, r.value)
    ensures r.Some? ==> forall i :: from <= i < r.value ==> !TzidAt(params, i)
    ensures r.None? ==> forall i :: from <= i ==> !TzidAt(params, i)
  {
    if from + 5 >= |params| then None
    else if TzidAt(params, from) then Some(from)
    else FirstTzidAt(params, from + 1)
  }

  /**
   * The zone name of the DTSTART parameters: the text after the first
   * `TZID=` that is followed by something other than `;`, up to the next `;`.
   */
  function TzidParam(params: string): (r: Option<string>)
    ensures r.Some? ==> |r.value| > 0 && ';' !in r.value
  {
    match FirstTzidAt(params, 0)
    case None => None
    case Some(i) => Some(params[i + 5..RunEnd(params, i + 5, ';')])
  }

  /** There is a zone name exactly when some position starts a `TZID=` match. */
  lemma TzidParamNone(params: string)
    ensures TzidParam(params).None? <==> forall i :: !TzidAt(params, i)
  {
    match FirstTzidAt(params, 0)
    case None =>
    case Some(i) =>
  }

  /** The zone name is the run after the first `TZID=` match, up to the next `;` or the end. */
  lemma TzidParamFirst(params: string, i: nat)
    requires TzidAt(params, i)
    requires forall j: nat :: j < i ==> !TzidAt(params, j)
    ensures TzidParam(params) == Some(params[i + 5..RunEnd(params, i + 5, ';')])
  {
    assert FirstTzidAt(params, 0) == Some(i);
  }

}
