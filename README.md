# Glance iCal Events: the event pipeline in Dafny

The service behind a Glance dashboard widget downloads an iCalendar feed and
turns it into a short list of upcoming events. This project models that
pipeline and proves properties about it. Everything modelled is in
`service.py`:

- `clamp_int` bounds the numeric query parameters.
- `fetch_raw_events` tries the `icalevents` parser first. If that parser
  raises, it falls back to `_fallback_parse`, a small regex-based extractor of
  `VEVENT` blocks (section 3.6.1 of RFC 5545).
- `enrich_and_filter` converts every record to the local zone and stretches
  single-day all-day records to the next local midnight. It drops records
  that have ended and computes the relative fields: `ongoing`, the second
  counts and `daysRemaining`.
- `sort_and_limit` sorts stably, ongoing records first and then by start, and
  keeps the first `limit` records.
- `get_events` wires these steps together and strips the internal
  `start_dt`/`end_dt` entries.

Instants are whole seconds since the Unix epoch. The local zone is the fixed
UTC offset that `datetime.now().astimezone()` yields. Named zones (`TZID`) are
looked up in a table of fixed offsets, and a name missing from the table
behaves like a name `pytz` does not know.

Modules:

- `Text`: `str.strip`, case-insensitive matching and digit strings.
- `Ics`: the block and property regular expressions.
- `Civil`: proleptic Gregorian dates and local days.
- `Tokens`: `_parse_dt` and zone resolution.
- `Fallback`: `_fallback_parse`.
- `Enrich`: `enrich_and_filter`.
- `SortLimit`: `sort_and_limit`.
- `Clamp`: `clamp_int`.
- `Pipeline`: `fetch_raw_events` and `get_events`.
- `Seqs`: the walk-and-append loop shape that `_fallback_parse` and
  `enrich_and_filter` share.

Each list-building loop is a `method` proved equal to a function on its input:

- `FallbackParse` is proved equal to `Extracted`.
- `EnrichAndFilter` is proved equal to `EnrichedAll`.
- The in-place sort `SortInPlace` is proved equal to `InsertionSort`.

The lemmas state the source's promises about those functions.

Two consequences of the code are easy to miss, and the model keeps both:

- **A DTEND that does not parse.** Both tokens are parsed inside one `try`
  (`service.py:69-73`), so a DTEND that fails to parse skips the whole block.
  The end does not fall back to the start. `BlockRecord` returns `None` in
  that case.
- **A one-day all-day event seen during that day.** The end becomes the next
  local midnight, which lies on the following date. `daysRemaining` is that
  date minus today's date, so it is 1, not 0 (`service.py:150-163`).
  `Enrich.AllDayExample` states this value.

## Model

| member | source | states |
|---|---|---|
| Clamp.ClampInt | service.py:16-27 | An absent value gives the default. A present value within the bounds is kept. A value below the minimum becomes the minimum, and one above the maximum becomes the maximum. When the bounds cross, the result is the maximum. |
| Text.Strip | service.py:41 | The result neither starts nor ends with a Python whitespace character, and it is no longer than the input. |
| Text.StripAllSpace | service.py:41 | A value made only of whitespace strips to the empty string, which the parser treats as an absent DTEND. |
| Text.StripIsTrim | service.py:41 | `str.strip` removes exactly the leading and trailing whitespace: the result is the slice of the input after a whitespace-only prefix and before a whitespace-only suffix, and it neither starts nor ends with whitespace. |
| Text.StripNoSpace | service.py:41 | A value with no whitespace at either end is unchanged by stripping. |
| Text.FindIgnoreCase | service.py:34 | Case-insensitive search, Python `re.IGNORECASE` rules included: the result is the first matching position at or after `from`, and `None` means there is no match at any later position. |
| Text.IndexOf | service.py:57 | The first index of a character at or after a position, or `None` exactly when it does not occur there. |
| Text.RunEnd | service.py:37 | The end of the run of characters up to a delimiter: none of the characters is the delimiter, and the run stops at one or at the end. |
| Text.DigitsValue | service.py:64-65 | The decimal value of an ASCII digit string is below 10 to the power of its length. |
| Ics.NextBlock | service.py:34 | The lazy `BEGIN:VEVENT(.*?)END:VEVENT` match: the block starts right after the first `BEGIN:VEVENT` (any letter case) and ends at the first `END:VEVENT` after it. There is no match exactly when no `BEGIN:VEVENT` is followed by an `END:VEVENT`. |
| Ics.BlocksHoldNoEndMarker | service.py:34 | No extracted block contains `END:VEVENT` in any letter case, because the match is lazy. |
| Ics.FirstBlockHoldsNoEndMarker | service.py:34 | The text before the first end marker contains no end marker. |
| Ics.MatchInSlice | service.py:34 | A match inside a slice of the text is a match in the text at the shifted position. |
| Ics.LineValue | service.py:37 | `(.+)$` fails exactly at the end of the text or at a line feed. Otherwise it captures the whole rest of the line: non-empty, no line feed, ending at a line feed or at the end. |
| Ics.PropertyAt | service.py:37 | A property regex matches only at the start of a line, with the name in place. Without parameters, a `:` follows the name and the value is the rest of the line. With parameters, a `;` follows the name, the parameters run to the first `:`, and the value is the rest of the line after it. |
| Ics.ParamsAndValue | service.py:37 | `;([^:]+):(.+)$`: the parameters are non-empty, contain no colon and end at the first colon; the value is the rest of the line after that colon. |
| Ics.PropertyAtPlain | service.py:37 | Conversely, `NAME:` at a line start followed by a non-empty line is a match, with no parameters. |
| Ics.PropertyAtWithParams | service.py:37 | Conversely, `NAME;` at a line start, then colon-free parameters, a colon and a non-empty line, is a match capturing exactly those parameters. |
| Ics.FirstPropertyAt | service.py:37 | The first position at or after `from` where the property regex matches, with no match before it; `None` means no match anywhere after `from`. |
| Ics.FindProperty | service.py:37 | A property that is found has a non-empty value without a line feed. |
| Ics.FindPropertyNone | service.py:37-39 | The DTSTART/DTEND search fails exactly when the regex matches at no position of the block. |
| Ics.FindPropertyFirst | service.py:37 | The search returns the match at the earliest matching position. |
| Ics.Grab | service.py:45-47 | `_grab` returns a value stripped at both ends. |
| Ics.GrabNone | service.py:45-47 | `_grab` gives `None` exactly when the `NAME:(.+)$` regex matches at no position of the block. |
| Ics.GrabFirst | service.py:45-47 | `_grab` gives the stripped value of the first matching line. |
| Ics.TzidParam | service.py:55-59 | A zone name is non-empty and contains no `;`. |
| Ics.TzidParamFirst | service.py:55-59 | The zone name is the text after the first `TZID=` match, up to the next `;` or the end of the parameters. |
| Ics.TzidParamNone | service.py:55-59 | There is no zone name exactly when `TZID=` followed by a character other than `;` occurs nowhere in the parameters. |
| Civil.DaysInMonth | service.py:65 | Months have 28 to 31 days, and February has 29 exactly in leap years. |
| Civil.YearLength | service.py:65 | The day count before consecutive years differs by 366 in leap years and 365 otherwise. |
| Civil.MonthsFillYear | service.py:65 | The months of a year add up to the year's length. |
| Civil.NextDateIsNextDay | service.py:65-66 | The calendar date after a valid date is valid and is exactly one epoch day later. |
| Civil.NextLocalMidnight | service.py:152 | `(start + 1 day).replace(hour=0, …)` lies after the start and at most one day later. It is a local midnight on the next local date. |
| Civil.LocalDayMonotonic | service.py:163 | A later instant never has an earlier local date. |
| Tokens.DateTokenWall | service.py:64-66 | `strptime('%Y%m%d')` accepts an eight-digit token exactly when it names an existing date, and then gives midnight of that date. |
| Tokens.BasicDateTimeWall | service.py:61-67 | A compact `YYYYMMDDTHHMMSS` token has a reading exactly when the date exists, the hour is at most 23 and the minute and second at most 59; the reading is that wall-clock time. |
| Tokens.ParseToken | service.py:61-67 | `_parse_dt` in order of precedence: a trailing `Z` gives an aware time (the compact reading, or `isoparse`); otherwise eight digits give a naive midnight exactly when the date exists; otherwise the general parser decides, compact date-times read directly. |
| Tokens.Resolve | service.py:75-90 | An aware time keeps its instant. A naive one is localised in the TZID zone when it is known, and read as UTC when the zone is absent or unknown. |
| Tokens.ResolveToken | service.py:61-90 | A token resolves exactly when it parses, to its instant when aware and to its reading minus the zone's offset when naive. |
| Tokens.UtcTokenIgnoresZone | service.py:61-90 | A `Z` token resolves to the same instant whatever the TZID and the zone table. A compact `Z` token resolves to its own reading. |
| Tokens.DateTokenIsZonedMidnight | service.py:61-82 | An eight-digit token resolves exactly when its date exists, and then to midnight of that date in the TZID zone, or in UTC when the zone is absent or unknown. |
| Tokens.NaiveTokenIsLocalised | service.py:61-82 | A naive compact date-time is localised: its reading minus the zone's offset, or the reading itself as UTC when the zone is unknown. |
| Fallback.FallbackParse | service.py:30-108 | The loop returns `Extracted(VEventBlocks(text))`: one record per block that yields one, in block order. |
| Fallback.ParseBlock | service.py:37-107 | The loop body returns exactly `BlockRecord(block)`, with `None` where the source executes `continue`. |
| Fallback.RecordFromStartFacts | service.py:40-95 | A record takes its start from the resolved DTSTART token and its all-day flag from the token's shape. |
| Fallback.SkippedBlockIsInvisible | service.py:36-73 | A block that yields nothing leaves the records of the blocks before and after it exactly as they would be without it. |
| Fallback.ExtractedShape | service.py:36-107 | There are no more records than blocks. Every record is the record of some block and is tagged `fallback`. |
| Fallback.ExtractedComplete | service.py:36-107 | Every block that yields a record contributes it to the result. |
| Fallback.MissingStartSkipsBlock | service.py:37-39 | A block without a DTSTART line yields no record. |
| Fallback.BlockKept | service.py:37-107 | A block yields a record exactly when it has a DTSTART line, its stripped token parses and the DTEND token (if non-blank) parses. The record's start and end are those tokens resolved with DTSTART's TZID; all-day is the eight-digit shape; summary, UID, description, location and status are `_grab`'s values; the other fields are absent and the source is `fallback`. |
| Fallback.MissingEndIsStart | service.py:42-71 | Without a DTEND line, the record's end is its start. |
| Fallback.AllDayIsDateToken | service.py:61-95 | A record is all-day exactly when its stripped DTSTART value is eight digits. Its start is then midnight of that date in the TZID zone, or in UTC. |
| Fallback.SameTokenSameInstant | service.py:69-90 | The end is the DTEND token resolved with DTSTART's TZID. A missing or blank DTEND gives the start, and a DTEND equal to the DTSTART token gives the same instant. |
| Fallback.UtcStartIgnoresTzid | service.py:61-82 | A `Z` DTSTART starts the record at the token's own instant, with no zone shift. |
| Enrich.LocalEnd | service.py:150-152 | For a single-day all-day record, the end moves to the next local midnight: after the start, at most one day later, on the next local date. Every other end is kept. |
| Enrich.DaysRemaining | service.py:161-163 | `daysRemaining` is never negative. While the record is ongoing, it is the number of local dates from today to the end date. Otherwise it is that number minus one, floored at 0, so a record that has ended gets 0. |
| Enrich.Enriched | service.py:146-186 | The start is kept. `ongoing` holds exactly when start ≤ now < end. The second counts are measured from now, and the duration is their difference. `daysRemaining` is present exactly for all-day records, where it is `DaysRemaining` of the local start and end. The internal entries hold the start and end. The title is the raw summary, and uid, url, description, location, status, created, last-modified and recurrence id are copied unchanged. |
| Enrich.EnrichAndFilter | service.py:143-187 | The loop returns `EnrichedAll(raw)`: each record enriched, ended ones dropped unless asked for, in input order. |
| Enrich.EnrichOne | service.py:145-186 | The loop body returns the enriched record, or `None` where the source executes `continue`. |
| Enrich.KeptRecordsHaveNotEnded | service.py:154-155 | Without `include_ended`, every returned record ends after now. |
| Enrich.KeptRecordsComeFromInput | service.py:143-187 | There are no more results than inputs, and each result is the enrichment of an input. |
| Enrich.LiveRecordIsKept | service.py:154-155 | A record whose end is after now is always returned. |
| Enrich.IncludeEndedKeepsAll | service.py:154-155 | With `include_ended`, the i-th result is the enrichment of the i-th input, for every input. |
| Enrich.EnrichedKeepsOrder | service.py:144-187 | The results for a concatenation are the concatenated results, so input order is kept. |
| Enrich.EndingNowIsOver | service.py:154-157 | A record ending exactly now is not ongoing, because the interval is half-open. Without `include_ended` it is dropped. |
| Enrich.AllDaySpanIsAtMostOneDay | service.py:150-160 | A single-day all-day record lasts more than zero seconds and at most one day, and ends on the next local date. |
| Enrich.DaysRemainingCountsDates | service.py:162-163 | For an ongoing all-day record, `daysRemaining` is the end date minus today. For one that has not started, it is one less. For one that has ended, it is 0. |
| Enrich.AllDayExample | service.py:146-163 | 1 June 2024 as an all-day UTC record, seen at noon that day, is ongoing until midnight (43200 s away) with `daysRemaining` 1. |
| SortLimit.Insert | service.py:191 | Inserting adds exactly one element. |
| SortLimit.InsertAt | service.py:191 | Where the inner loop stops, the element goes between the keys not above it and the keys above it. |
| SortLimit.InsertPermutes | service.py:191 | Inserting adds exactly the inserted record to the multiset. |
| SortLimit.InsertMembers | service.py:191 | After inserting, every element is the inserted record or an element that was already there. |
| SortLimit.InsertSorted | service.py:191 | Inserting into a sorted list keeps it sorted. |
| SortLimit.InsertionSort | service.py:191 | The sorted list has the input's length. |
| SortLimit.InsertionSortSorted | service.py:191 | The result is ordered by the key `(not ongoing, start_dt)`. |
| SortLimit.InsertionSortPermutes | service.py:191 | The result is a permutation of the input. |
| SortLimit.InsertStable | service.py:191 | Inserting appends to the records that share the inserted record's key and leaves the other keys' records unchanged. |
| SortLimit.InsertionSortStable | service.py:191 | Records with equal keys keep their input order: the sort is stable. |
| SortLimit.SortedOrder | service.py:191 | Ongoing records come before all others, and within each group starts never decrease. |
| SortLimit.SortInPlace | service.py:191 | The array ends up holding `InsertionSort` of its old contents. |
| SortLimit.InsertInto | service.py:191 | One pass moves `a[i]` into the sorted prefix and leaves the rest of the array untouched. |
| SortLimit.Truncated | service.py:192-194 | `[:limit]` is a prefix. No limit keeps everything. A limit k ≥ 0 keeps min(k, N) records, and a negative one keeps max(0, N + k). |
| SortLimit.SortAndLimit | service.py:190-194 | The array is sorted in place, and the first `limit` records of the sorted list are returned. |
| Pipeline.FetchRawEvents | service.py:111-140 | Returns the primary parser's records, or the fallback extractor's records when the primary parser fails. |
| Pipeline.StripInternal | service.py:206-209 | Every record loses `start_dt` and `end_dt`, and nothing else changes. |
| Pipeline.PublicAll | service.py:206-209 | No returned record keeps an internal entry, the length is unchanged, and every other field of every record is kept. |
| Pipeline.RemoveInternal | service.py:206-209 | Popping the internal entries in place over the final list gives `PublicAll` of it. |
| Pipeline.GetEvents | service.py:197-210 | The result is the enriched, sorted and limited records of the fetched window, without internal entries. |
| Pipeline.Present | service.py:204-210 | The same composition, starting from the raw records. |
| Pipeline.EnrichedHaveStarts | service.py:165-191 | Every enriched record has the `start_dt` the sort key reads. |
| Pipeline.SelectedProperties | service.py:154-194 | The returned list has at most N records, and at most `limit` when a limit ≥ 0 is given. Without `include_ended`, none has ended. Ongoing records come first, and starts are in order within each group. |

## Left out

- The HTTP download, basic authentication and UTF-8 decoding (`service.py:113-115`) are not modelled: the downloaded text is a parameter.
- The `icalevents` library is not modelled (`service.py:117-136`). This includes its mapping of library events, and `ev.end or ev.start`. The primary parser is the fallible function parameter `primary`, with `None` where it raises.
- The clocks (`service.py:198`, `service.py:201-202`) are not modelled: `now` and the local offset are parameters.
- The `pytz` zone database is reduced to a table of fixed offsets, so daylight-saving transitions are not modelled. This covers ambiguous or missing local times and an offset that changes between start and end.
- `dateutil` is modelled concretely only for the compact forms `YYYYMMDD`, `YYYYMMDDTHHMMSS` and `YYYYMMDDTHHMMSSZ` with fields in range. Every other form goes to the opaque parameters `ExternalParsers.isoParse` and `generalParse`. These include separators, fractions, hour 24 and offsets.
- The regex `\d` and `strptime` accept every Unicode decimal digit; the model accepts ASCII `0`–`9` only.
- The ISO-8601 text of `start`, `end`, `created` and `last_modified` is not produced. The model keeps the instants and the local offset they would be rendered with.
- `total_seconds()` returns a float and datetimes carry microseconds; the model counts whole seconds.
- The dictionaries in `final` are shared with the list `enrich_and_filter` built. The model does not capture that popping `start_dt`/`end_dt` is visible through both lists.
- Clamp.ClampInt: the `int(value)` failure path (`service.py:19-22`) is not modelled, because the value is typed as an optional integer.
- SortLimit.SortAndLimit: requires every record to carry `start_dt`, where the source would raise `KeyError`. Every record `enrich_and_filter` builds has one.
- SortLimit.InsertionSort: Python's sort is Timsort. The model sorts by insertion and proves that the result is sorted, a permutation and stable. It does not prove that every stable sort gives this same list.
- Enrich.LocalEnd: Python's `datetime` range (years 1 to 9999) is not modelled. For an all-day record on 9999-12-31, `start_local + timedelta(days=1)` (`service.py:152`) raises `OverflowError`, and `astimezone` (`service.py:146-147`) raises for instants whose local reading leaves the range. `get_events` then fails, while the model returns a record.
- Tokens.Resolve: `pytz` `localize` (`service.py:78`, `service.py:86`) can fail at the edges of the `datetime` range, and the source then reads the time as UTC. The model subtracts the zone's fixed offset whatever the reading.
- A negative `limit` follows Python's slice rule and drops records from the end. The model keeps this behaviour rather than rejecting it.
