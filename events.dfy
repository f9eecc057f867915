/**
 * The two record kinds the pipeline passes between its stages. In the source
 * both are dictionaries (`ParsedEvent`); here they are immutable values.
 * Instants are whole seconds since the Unix epoch.
 */
module Events {
  import opened Wrappers

  /** Which parser produced a raw record: the `icalevents` library or the fallback extractor. */
  datatype Source = Primary | Fallback

  /** A record as `fetch_raw_events` returns it; `start` and `end` are timezone-aware instants. */
  datatype RawEvent = RawEvent(
    summary: Option<string>,
    uid: Option<string>,
    start: int,
    end: int,
    description: Option<string>,
    location: Option<string>,
    status: Option<string>,
    allDay: bool,
    created: Option<int>,
    lastModified: Option<int>,
    url: Option<string>,
    recurrenceId: Option<string>,
    source: Source)

  /**
   * A record as `enrich_and_filter` builds it. `startDt`/`endDt` are the
   * internal `start_dt`/`end_dt` entries that `get_events` removes before
   * returning; `start`/`end` with `utcOffset` determine the ISO-8601 text the
   * source stores under `start`/`end`.
   */
  datatype EnrichedEvent = EnrichedEvent(
    name: Option<string>,
    uid: Option<string>,
    startDt: Option<int>,
    endDt: Option<int>,
    start: int,
    end: int,
    utcOffset: int,
    allDay: bool,
    secondsUntilStart: int,
    secondsUntilEnd: int,
    durationSeconds: int,
    daysRemaining: Option<int>,
    ongoing: bool,
    url: Option<string>,
    description: Option<string>,
    location: Option<string>,
    status: Option<string>,
    created: Option<int>,
    lastModified: Option<int>,
    recurrenceId: Option<string>,
    source: Source)

}
