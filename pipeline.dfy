/**
 * `get_events` and `fetch_raw_events`: the request pipeline from calendar
 * text to the list the widget endpoint serialises.
 *
 * The HTTP download, the `icalevents` parser and the clocks are outside the
 * model: the downloaded text is a parameter, the primary parser is the
 * fallible function `primary` (`None` where it raises), and `now` and the
 * local offset `off` are parameters.
 */
module Pipeline {
  import opened Wrappers
  import opened Civil
  import opened Events
  import opened Tokens
  import opened Ics
  import opened Fallback
  import opened Enrich
  import opened SortLimit

  /** A record without the internal `start_dt`/`end_dt` entries. */
  function Public(e: EnrichedEvent): EnrichedEvent {
    e.(startDt := None, endDt := None)
  }

  /** The raw records: the primary parser's over the window, or the fallback extractor's when it fails. */
  function RawEvents(text: string, primary: (string, int, int) -> Option<seq<RawEvent>>, windowStart: int, windowEnd: int,
                     zones: map<string, int>, ext: ExternalParsers): seq<RawEvent> {
    match primary(text, windowStart, windowEnd)
    case Some(events) => events
    case None => Extracted(VEventBlocks(text), zones, ext)
  }

  /** What `get_events` returns for the raw records `raw`, before the internal entries are removed. */
  function Selected(raw: seq<RawEvent>, now: int, off: int, includeEnded: bool, limit: Option<int>): seq<EnrichedEvent> {
    Truncated(InsertionSort(EnrichedAll(raw, now, off, includeEnded)), limit)
  }

  /** `fetch_raw_events(url, start, end, ...)` once the text is downloaded. */
  method FetchRawEvents(text: string, primary: (string, int, int) -> Option<seq<RawEvent>>, windowStart: int, windowEnd: int,
                        zones: map<string, int>, ext: ExternalParsers) returns (raw: seq<RawEvent>)
    ensures raw == RawEvents(text, primary, windowStart, windowEnd, zones, ext)
  {
    var parsed := primary(text, windowStart, windowEnd);
    if parsed.Some? {
      return parsed.value;
    }
    raw := FallbackParse(text, zones, ext);
  }

  /** The loop that pops `start_dt` and `end_dt` from every returned record. */
  method StripInternal(a: array<EnrichedEvent>)
    modifies a
    ensures forall i :: 0 <= i < a.Length ==> a[i] == Public(old(a[i]))
    ensures forall i :: 0 <= i < a.Length ==> a[i].startDt.None? && a[i].endDt.None?
  {
    for i := 0 to a.Length
      invariant forall k :: 0 <= k < i ==> a[k] == Public(old(a[k]))
      invariant forall k :: i <= k < a.Length ==> a[k] == old(a[k])
    {
      a[i] := a[i].(startDt := None);
      a[i] := a[i].(endDt := None);
    }
  }

  /** The records as `get_events` returns them. */
  function PublicAll(s: seq<EnrichedEvent>): (r: seq<EnrichedEvent>)
    ensures |r| == |s| && forall i :: 0 <= i < |s| ==> r[i].startDt.None? && r[i].endDt.None?
    ensures forall i :: 0 <= i < |s| ==> r[i].(startDt := s[i].startDt, endDt := s[i].endDt) == s[i]
  {
    seq(|s|, i requires 0 <= i < |s| => Public(s[i]))
  }

  /** `get_events(url, lookback_days, horizon_days, limit, ..., include_ended)`. */
  method GetEvents(text: string, primary: (string, int, int) -> Option<seq<RawEvent>>, now: int, off: int,
                   lookbackDays: int, horizonDays: int, limit: Option<int>, includeEnded: bool,
                   zones: map<string, int>, ext: ExternalParsers) returns (events: seq<EnrichedEvent>)
    ensures var raw := RawEvents(text, primary, now - lookbackDays * SecondsPerDay, now + horizonDays * SecondsPerDay, zones, ext);
            events == PublicAll(Selected(raw, now, off, includeEnded, limit))
  {
    var windowStart := now - lookbackDays * SecondsPerDay;
    var windowEnd := now + horizonDays * SecondsPerDay;
    var raw := FetchRawEvents(text, primary, windowStart, windowEnd, zones, ext);
    assert raw == RawEvents(text, primary, now - lookbackDays * SecondsPerDay, now + horizonDays * SecondsPerDay, zones, ext);
    events := Present(raw, now, off, includeEnded, limit);
  }

  /** The part of `get_events` after `fetch_raw_events`: enrich, sort, limit, and strip the internal entries. */
  method Present(raw: seq<RawEvent>, now: int, off: int, includeEnded: bool, limit: Option<int>) returns (events: seq<EnrichedEvent>)
    ensures events == PublicAll(Selected(raw, now, off, includeEnded, limit))
  {
    var enriched := EnrichAndFilter(raw, now, off, includeEnded);
    EnrichedHaveStarts(raw, now, off, includeEnded);
    var sorting := new EnrichedEvent[|enriched|](i requires 0 <= i < |enriched| => enriched[i]);
    assert sorting[..] == enriched;
    var final := SortAndLimit(sorting, limit);
    events := RemoveInternal(final);
  }

  /** The records of `final` after the loop that pops their internal entries. */
  method RemoveInternal(final: seq<EnrichedEvent>) returns (events: seq<EnrichedEvent>)
    ensures events == PublicAll(final)
  {
    var out := new EnrichedEvent[|final|](i requires 0 <= i < |final| => final[i]);
    assert out[..] == final;
    StripInternal(out);
    events := out[..];
    assert forall i :: 0 <= i < |events| ==> events[i] == Public(final[i]);
  }

  /** Every enriched record carries its start as `start_dt`, as the sort key needs. */
  lemma EnrichedHaveStarts(raw: seq<RawEvent>, now: int, off: int, includeEnded: bool)
    ensures HasStarts(EnrichedAll(raw, now, off, includeEnded))
  {
    KeptRecordsComeFromInput(raw, now, off, includeEnded);
    var s := EnrichedAll(raw, now, off, includeEnded);
    forall i | 0 <= i < |s| ensures s[i].startDt.Some? {
      assert s[i] in s;
    }
  }

  /**
   * What the endpoint returns: at most `limit` records (for a limit `>= 0`),
   * none that has ended unless ended records are asked for, ongoing records
   * before the others and, within each group, starts in order.
   */
  lemma {:induction false} SelectedProperties(raw: seq<RawEvent>, now: int, off: int, includeEnded: bool, limit: Option<int>)
    ensures var r := Selected(raw, now, off, includeEnded, limit);
            && |r| <= |raw|
            && (limit.Some? && limit.value >= 0 ==> |r| <= limit.value)
            && (!includeEnded ==> forall i :: 0 <= i < |r| ==> r[i].end > now)
            && (forall i, j :: 0 <= i < j < |r| ==>
                  (r[i].ongoing || !r[j].ongoing) && (r[i].ongoing == r[j].ongoing ==> r[i].start <= r[j].start))
  {
    var enriched := EnrichedAll(raw, now, off, includeEnded);
    var sorted := InsertionSort(enriched);
    var r := Selected(raw, now, off, includeEnded, limit);
    KeptRecordsComeFromInput(raw, now, off, includeEnded);
    KeptRecordsHaveNotEnded(raw, now, off);
    InsertionSortPermutes(enriched);
    InsertionSortSorted(enriched);
    assert r == sorted[..|r|];
    forall i | 0 <= i < |r| ensures r[i] in enriched && r[i].startDt == Some(r[i].start) {
      assert r[i] == sorted[i];
      assert sorted[i] in multiset(enriched);
    }
  }

}
