/**
 * `enrich_and_filter`: converts raw records to the local zone, stretches
 * single-day all-day records to the next local midnight, drops records that
 * have ended (unless asked to keep them) and computes the relative fields.
 *
 * The local zone is the fixed offset `off` (seconds east of UTC) that
 * `datetime.now().astimezone().tzinfo` yields; `now` is the current instant.
 */
module Enrich {
  import opened Wrappers
  import opened Civil
  import opened Events
  import opened Seqs

  /** Whether the all-day fixup applies: an all-day record whose start and end fall on the same local date. */
  predicate NeedsDayFixup(e: RawEvent, off: int) {
    e.allDay && LocalDay(e.start, off) == LocalDay(e.end, off)
  }

  /** `end_local` after the all-day fixup. */
  function LocalEnd(e: RawEvent, off: int): (r: int)
    ensures NeedsDayFixup(e, off) ==>
              && e.start < r <= e.start + SecondsPerDay
              && LocalDay(r, off) == LocalDay(e.start, off) + 1
              && (r + off) % SecondsPerDay == 0
    ensures !NeedsDayFixup(e, off) ==> r == e.end
  {
    if NeedsDayFixup(e, off) then NextLocalMidnight(e.start, off) else e.end
  }

  /** `days_remaining` of an all-day record. */
  function DaysRemaining(start: int, end: int, now: int, off: int): (r: int)
    ensures r >= 0
    ensures start <= now < end ==> r == LocalDay(end, off) - LocalDay(now, off)
    ensures !(start <= now < end) ==>
              r == if LocalDay(end, off) - LocalDay(now, off) - 1 < 0 then 0 else LocalDay(end, off) - LocalDay(now, off) - 1
    ensures end <= now ==> r == 0
  {
    assert start <= now < end ==> LocalDay(now, off) <= LocalDay(end, off) by {
      if start <= now < end {
        LocalDayMonotonic(now, end, off);
      }
    }
    assert end <= now ==> LocalDay(end, off) <= LocalDay(now, off) by {
      if end <= now {
        LocalDayMonotonic(end, now, off);
      }
    }
    var dateDiff := LocalDay(end, off) - LocalDay(now, off);
    var ongoing := start <= now < end;
    var d := dateDiff - (if ongoing then 0 else 1);
    if d < 0 then 0 else d
  }

  /** The enriched dictionary of one record, whether or not it is kept. */
  function Enriched(e: RawEvent, now: int, off: int): (r: EnrichedEvent)
    ensures r.start == e.start && r.end == LocalEnd(e, off) && r.utcOffset == off
    ensures r.startDt == Some(r.start) && r.endDt == Some(r.end)
    ensures r.ongoing <==> r.start <= now < r.end
    ensures r.durationSeconds == r.secondsUntilEnd - r.secondsUntilStart
    ensures r.secondsUntilStart == r.start - now && r.secondsUntilEnd == r.end - now
    ensures r.daysRemaining.Some? <==> e.allDay
    ensures r.daysRemaining.Some? ==> r.daysRemaining.value >= 0
    ensures e.allDay ==> r.daysRemaining == Some(DaysRemaining(r.start, r.end, now, off))
    ensures r.allDay == e.allDay && r.source == e.source
    ensures r.name == e.summary && r.uid == e.uid && r.url == e.url
    ensures r.description == e.description && r.location == e.location && r.status == e.status
    ensures r.created == e.created && r.lastModified == e.lastModified && r.recurrenceId == e.recurrenceId
  {
    var startLocal := e.start;
    var endLocal := LocalEnd(e, off);
    EnrichedEvent(
      name := e.summary,
      uid := e.uid,
      startDt := Some(startLocal),
      endDt := Some(endLocal),
      start := startLocal,
      end := endLocal,
      utcOffset := off,
      allDay := e.allDay,
      secondsUntilStart := startLocal - now,
      secondsUntilEnd := endLocal - now,
      durationSeconds := endLocal - startLocal,
      daysRemaining := if e.allDay then Some(DaysRemaining(startLocal, endLocal, now, off)) else None,
      ongoing := startLocal <= now < endLocal,
      url := e.url,
      description := e.description,
      location := e.location,
      status := e.status,
      created := e.created,
      lastModified := e.lastModified,
      recurrenceId := e.recurrenceId,
      source := e.source)
  }

  /** What one record contributes: nothing when it has ended and ended records are not wanted. */
  function KeepOrDrop(now: int, off: int, includeEnded: bool): RawEvent -> Option<EnrichedEvent> {
    e => if !includeEnded && LocalEnd(e, off) <= now then None else Some(Enriched(e, now, off))
  }

  /** The list `enrich_and_filter` returns. */
  function EnrichedAll(raw: seq<RawEvent>, now: int, off: int, includeEnded: bool): seq<EnrichedEvent> {
    FilterMap(raw, KeepOrDrop(now, off, includeEnded))
  }

  /** `enrich_and_filter(raw_events, now_local, local_tz, include_ended)`. */
  method EnrichAndFilter(rawEvents: seq<RawEvent>, now: int, off: int, includeEnded: bool) returns (enriched: seq<EnrichedEvent>)
    ensures enriched == EnrichedAll(rawEvents, now, off, includeEnded)
  {
    enriched := [];
    for n := 0 to |rawEvents|
      invariant enriched == EnrichedAll(rawEvents[..n], now, off, includeEnded)
    {
      FilterMapPrefix(rawEvents, n, KeepOrDrop(now, off, includeEnded));
      var record := EnrichOne(rawEvents[n], now, off, includeEnded);
      if record.None? {
        continue;
      }
      enriched := enriched + [record.value];
    }
    assert rawEvents[..|rawEvents|] == rawEvents;
  }

  /** The body of the loop in `enrich_and_filter`; `None` where the source executes `continue`. */
  method EnrichOne(e: RawEvent, now: int, off: int, includeEnded: bool) returns (record: Option<EnrichedEvent>)
    ensures record == KeepOrDrop(now, off, includeEnded)(e)
  {
    var startLocal := e.start;
    var endLocal := e.end;
    if e.allDay && LocalDay(startLocal, off) == LocalDay(endLocal, off) {
      endLocal := NextLocalMidnight(startLocal, off);
    }
    assert endLocal == LocalEnd(e, off);
    if !includeEnded && endLocal <= now {
      return None;
    }
    var ongoing := startLocal <= now < endLocal;
    var secondsUntilStart := startLocal - now;
    var secondsUntilEnd := endLocal - now;
    var durationSeconds := endLocal - startLocal;
    var daysRemaining: Option<int> := None;
    if e.allDay {
      var d := LocalDay(endLocal, off) - LocalDay(now, off) - (if ongoing then 0 else 1);
      daysRemaining := Some(if d < 0 then 0 else d);
    }
    record := Some(EnrichedEvent(e.summary, e.uid, Some(startLocal), Some(endLocal), startLocal, endLocal, off,
                                 e.allDay, secondsUntilStart, secondsUntilEnd, durationSeconds, daysRemaining,
                                 ongoing, e.url, e.description, e.location, e.status, e.created, e.lastModified,
                                 e.recurrenceId, e.source));
  }

  /** Without `include_ended`, every record returned ends after `now`. */
  lemma KeptRecordsHaveNotEnded(raw: seq<RawEvent>, now: int, off: int)
    ensures forall r :: r in EnrichedAll(raw, now, off, false) ==> r.end > now
  {
    FilterMapSound(raw, KeepOrDrop(now, off, false));
  }

  /** Every record returned is the enrichment of one of the inputs. */
  lemma KeptRecordsComeFromInput(raw: seq<RawEvent>, now: int, off: int, includeEnded: bool)
    ensures |EnrichedAll(raw, now, off, includeEnded)| <= |raw|
    ensures forall r :: r in EnrichedAll(raw, now, off, includeEnded) ==> exists e :: e in raw && r == Enriched(e, now, off)
  {
    FilterMapSound(raw, KeepOrDrop(now, off, includeEnded));
  }

  /** A record that has not ended is never dropped. */
  lemma LiveRecordIsKept(raw: seq<RawEvent>, j: nat, now: int, off: int, includeEnded: bool)
    requires j < |raw| && LocalEnd(raw[j], off) > now
    ensures Enriched(raw[j], now, off) in EnrichedAll(raw, now, off, includeEnded)
  {
    FilterMapComplete(raw, j, KeepOrDrop(now, off, includeEnded));
  }

  /** With `include_ended`, every input is enriched, one for one and in order. */
  lemma IncludeEndedKeepsAll(raw: seq<RawEvent>, now: int, off: int)
    ensures |EnrichedAll(raw, now, off, true)| == |raw|
    ensures forall i :: 0 <= i < |raw| ==> EnrichedAll(raw, now, off, true)[i] == Enriched(raw[i], now, off)
  {
    FilterMapTotal(raw, KeepOrDrop(now, off, true));
  }

  /** Filtering keeps the input order: the records of a concatenation are the concatenation of the records. */
  lemma EnrichedKeepsOrder(a: seq<RawEvent>, b: seq<RawEvent>, now: int, off: int, includeEnded: bool)
    ensures EnrichedAll(a + b, now, off, includeEnded) == EnrichedAll(a, now, off, includeEnded) + EnrichedAll(b, now, off, includeEnded)
  {
    FilterMapConcat(a, b, KeepOrDrop(now, off, includeEnded));
  }

  /** A record ending exactly now is not ongoing (the interval is half-open) and is dropped without `include_ended`. */
  lemma EndingNowIsOver(e: RawEvent, now: int, off: int)
    requires LocalEnd(e, off) == now
    ensures !Enriched(e, now, off).ongoing
    ensures KeepOrDrop(now, off, false)(e) == None
  {
  }

  /** A single-day all-day record spans more than nothing and at most one day. */
  lemma AllDaySpanIsAtMostOneDay(e: RawEvent, now: int, off: int)
    requires NeedsDayFixup(e, off)
    ensures 0 < Enriched(e, now, off).durationSeconds <= SecondsPerDay
    ensures LocalDay(Enriched(e, now, off).end, off) == LocalDay(e.start, off) + 1
  {
  }

  /**
   * For an ongoing all-day record `daysRemaining` counts the local dates from
   * today to the end date; for one that has not started yet it is one less;
   * for one that has ended it is 0.
   */
  lemma {:induction false} DaysRemainingCountsDates(e: RawEvent, now: int, off: int)
    requires e.allDay
    ensures var r := Enriched(e, now, off);
            r.ongoing ==> r.daysRemaining == Some(LocalDay(r.end, off) - LocalDay(now, off))
    ensures var r := Enriched(e, now, off);
            now < r.start <= r.end ==> r.daysRemaining == Some(LocalDay(r.end, off) - LocalDay(now, off) - 1)
    ensures var r := Enriched(e, now, off);
            r.end <= now ==> r.daysRemaining == Some(0)
  {
    var r := Enriched(e, now, off);
    if r.ongoing {
      LocalDayMonotonic(now, r.end, off);
    }
    if now < r.start <= r.end {
      LocalDayMonotonic(now, r.start, off);
      LocalDayMonotonic(r.start, r.end, off);
    }
  }

  /**
   * 1 June 2024 as an all-day record in UTC with no end of its own, seen at
   * noon that day: it is ongoing until the next midnight, twelve hours away,
   * and since that midnight falls on 2 June one day remains.
   */
  lemma AllDayExample()
    ensures var e := RawEvent(None, None, 1717200000, 1717200000, None, None, None, true, None, None, None, None, Fallback);
            var r := Enriched(e, 1717243200, 0);
            r.ongoing && r.end == 1717286400 && r.secondsUntilEnd == 43200 && r.daysRemaining == Some(1)
  {
    assert LocalDay(1717200000, 0) == 19875;
    assert LocalDay(1717243200, 0) == 19875;
    assert LocalDay(1717286400, 0) == 19876;
  }

}
