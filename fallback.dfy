/**
 * `_fallback_parse`: extracts one raw record per well-formed VEVENT block
 * (section 3.6.1 of RFC 5545) of calendar text that the primary parser
 * rejected.
 */
module Fallback {
  import opened Wrappers
  import opened Text
  import opened Civil
  import opened Events
  import opened Tokens
  import opened Ics
  import opened Seqs

  /** The stripped DTEND value, when the block has a DTEND line. */
  function EndToken(block: string): Option<string> {
    match FindProperty(block, "DTEND", true)
    case Some(prop) => Some(Strip(prop.value))
    case None => None
  }

  /**
   * The record one block yields, or `None` when the block is skipped: it has
   * no DTSTART line, or its start or end token does not parse.
   */
  function BlockRecord(block: string, zones: map<string, int>, ext: ExternalParsers): Option<RawEvent> {
    match FindProperty(block, "DTSTART", true)
    case None => None
    case Some(startProp) => RecordFromStart(block, startProp, zones, ext)
  }

  /**
   * The rest of `BlockRecord` once the DTSTART line is found. A DTEND that is
   * missing or strips to nothing makes the end equal the start; the TZID of
   * the DTSTART line applies to both.
   */
  function RecordFromStart(block: string, startProp: Property, zones: map<string, int>, ext: ExternalParsers): Option<RawEvent> {
    var startRaw := Strip(startProp.value);
    var tzid := TzidParam(startProp.params);
    match ParseToken(startRaw, ext)
    case None => None
    case Some(st) =>
      match EndTime(EndToken(block), st, ext)
      case None => None
      case Some(et) => Some(BlockFields(block, Resolve(st, tzid, zones), Resolve(et, tzid, zones), IsDateToken(startRaw)))
  }

  /** `_parse_dt(dtend_raw) if dtend_raw else start_dt`. */
  function EndTime(endRaw: Option<string>, start: ParsedTime, ext: ExternalParsers): Option<ParsedTime> {
    if endRaw.Some? && endRaw.value != [] then ParseToken(endRaw.value, ext) else Some(start)
  }

  /** The dictionary `_fallback_parse` appends, given the resolved instants. */
  function BlockFields(block: string, start: int, end: int, allDay: bool): RawEvent {
    RawEvent(
      summary := Grab(block, "SUMMARY"),
      uid := Grab(block, "UID"),
      start := start,
      end := end,
      description := Grab(block, "DESCRIPTION"),
      location := Grab(block, "LOCATION"),
      status := Grab(block, "STATUS"),
      allDay := allDay,
      created := None,
      lastModified := None,
      url := None,
      recurrenceId := None,
      source := Fallback)
  }

  /** `BlockRecord` with the zone table and the external parsers fixed. */
  function RecordOf(zones: map<string, int>, ext: ExternalParsers): string -> Option<RawEvent> {
    block => BlockRecord(block, zones, ext)
  }

  /** The records of a sequence of blocks, in block order, skipped blocks left out. */
  function Extracted(blocks: seq<string>, zones: map<string, int>, ext: ExternalParsers): seq<RawEvent> {
    FilterMap(blocks, RecordOf(zones, ext))
  }

  /** What a record built from a DTSTART line takes from that line: its start instant and its all-day flag. */
  lemma RecordFromStartFacts(block: string, startProp: Property, zones: map<string, int>, ext: ExternalParsers)
    requires RecordFromStart(block, startProp, zones, ext).Some?
    ensures var raw := Strip(startProp.value);
            var r := RecordFromStart(block, startProp, zones, ext).value;
            && ParseToken(raw, ext).Some?
            && r.start == Resolve(ParseToken(raw, ext).value, TzidParam(startProp.params), zones)
            && r.allDay == IsDateToken(raw)
  {
  }

  /** `_fallback_parse(text)`. */
  method FallbackParse(text: string, zones: map<string, int>, ext: ExternalParsers) returns (results: seq<RawEvent>)
    ensures results == Extracted(VEventBlocks(text), zones, ext)
  {
    var vevents := VEventBlocks(text);
    results := [];
    for n := 0 to |vevents|
      invariant results == Extracted(vevents[..n], zones, ext)
    {
      var block := vevents[n];
      FilterMapPrefix(vevents, n, RecordOf(zones, ext));
      var record := ParseBlock(block, zones, ext);
      if record.None? {
        continue;
      }
      results := results + [record.value];
    }
    assert vevents[..|vevents|] == vevents;
  }

  /** The body of the loop over blocks in `_fallback_parse`; `None` where the source executes `continue`. */
  method ParseBlock(block: string, zones: map<string, int>, ext: ExternalParsers) returns (record: Option<RawEvent>)
    ensures record == BlockRecord(block, zones, ext)
  {
    var m := FindProperty(block, "DTSTART", true);
    if m.None? {
      return None;
    }
    var params := m.value.params;
    var dtstartRaw := Strip(m.value.value);
    var m2 := FindProperty(block, "DTEND", true);
    var dtendRaw := if m2.Some? then Some(Strip(m2.value.value)) else None;
    assert dtendRaw == EndToken(block);
    var summary := Grab(block, "SUMMARY");
    var uid := Grab(block, "UID");
    var description := Grab(block, "DESCRIPTION");
    var location := Grab(block, "LOCATION");
    var status := Grab(block, "STATUS");
    var tzname: Option<string> := None;
    if TzidParam(params).Some? {
      tzname := TzidParam(params);
    }
    var startDt := ParseToken(dtstartRaw, ext);
    if startDt.None? {
      return None;
    }
    var endDt := EndTime(dtendRaw, startDt.value, ext);
    if endDt.None? {
      return None;
    }
    var startAt := Resolve(startDt.value, tzname, zones);
    var endAt := Resolve(endDt.value, tzname, zones);
    var allDay := false;
    if IsDateToken(dtstartRaw) {
      allDay := true;
    }
    var fields := RawEvent(summary, uid, startAt, endAt, description, location, status,
                           allDay, None, None, None, None, Fallback);
    assert fields == BlockFields(block, startAt, endAt, allDay);
    record := Some(fields);
  }

  /**
   * Blocks are independent: a block that yields no record leaves the records
   * of the blocks around it exactly as they would be without it.
   */
  lemma SkippedBlockIsInvisible(before: seq<string>, block: string, after: seq<string>,
                                zones: map<string, int>, ext: ExternalParsers)
    requires BlockRecord(block, zones, ext).None?
    ensures Extracted(before + [block] + after, zones, ext) == Extracted(before, zones, ext) + Extracted(after, zones, ext)
  {
    assert RecordOf(zones, ext)(block).None?;
    FilterMapSkip(before, block, after, RecordOf(zones, ext));
  }

  /**
   * At most one record per block, each the record of one of the blocks, and
   * every record is tagged as coming from the fallback parser.
   */
  lemma ExtractedShape(blocks: seq<string>, zones: map<string, int>, ext: ExternalParsers)
    ensures |Extracted(blocks, zones, ext)| <= |blocks|
    ensures forall r :: r in Extracted(blocks, zones, ext) ==>
              r.source == Fallback && exists b :: b in blocks && BlockRecord(b, zones, ext) == Some(r)
  {
    FilterMapSound(blocks, RecordOf(zones, ext));
  }

  /** Every block that yields a record contributes it. */
  lemma ExtractedComplete(blocks: seq<string>, j: nat, zones: map<string, int>, ext: ExternalParsers)
    requires j < |blocks| && BlockRecord(blocks[j], zones, ext).Some?
    ensures BlockRecord(blocks[j], zones, ext).value in Extracted(blocks, zones, ext)
  {
    FilterMapComplete(blocks, j, RecordOf(zones, ext));
  }

  /** A block without a DTSTART line yields nothing. */
  lemma MissingStartSkipsBlock(block: string, zones: map<string, int>, ext: ExternalParsers)
    requires forall p :: PropertyAt(block, p, "DTSTART", true).None?
    ensures BlockRecord(block, zones, ext).None?
  {
    FindPropertyNone(block, "DTSTART", true);
  }

  /** Without a DTEND line the record's end is its start. */
  lemma MissingEndIsStart(block: string, zones: map<string, int>, ext: ExternalParsers)
    requires forall p :: PropertyAt(block, p, "DTEND", true).None?
    requires BlockRecord(block, zones, ext).Some?
    ensures BlockRecord(block, zones, ext).value.end == BlockRecord(block, zones, ext).value.start
  {
    FindPropertyNone(block, "DTEND", true);
  }

  /**
   * A record is all-day exactly when its stripped DTSTART value is eight
   * digits, and then its start is midnight of that date in the TZID zone
   * (UTC when the zone is absent or unknown).
   */
  lemma AllDayIsDateToken(block: string, zones: map<string, int>, ext: ExternalParsers)
    requires BlockRecord(block, zones, ext).Some?
    ensures var r := BlockRecord(block, zones, ext).value;
            var prop := FindProperty(block, "DTSTART", true).value;
            var raw := Strip(prop.value);
            && (r.allDay <==> IsDateToken(raw))
            && (IsDateToken(raw) ==>
                  var y, m, d := DigitsValue(raw[..4]), DigitsValue(raw[4..6]), DigitsValue(raw[6..]);
                  ValidDate(y, m, d)
                  && r.start == EpochDay(y, m, d) * SecondsPerDay - ZoneOffset(TzidParam(prop.params), zones))
  {
    var prop := FindProperty(block, "DTSTART", true).value;
    var raw := Strip(prop.value);
    assert BlockRecord(block, zones, ext) == RecordFromStart(block, prop, zones, ext);
    RecordFromStartFacts(block, prop, zones, ext);
    if IsDateToken(raw) {
      DateTokenIsZonedMidnight(raw, TzidParam(prop.params), zones, ext);
    }
  }

  /**
   * Start and end share the DTSTART line's TZID: a DTEND value is resolved
   * with that zone (the DTEND line's own parameters play no part), a missing
   * or blank DTEND gives the start, and the same token as the DTSTART value
   * gives the same instant.
   */
  lemma SameTokenSameInstant(block: string, zones: map<string, int>, ext: ExternalParsers)
    requires BlockRecord(block, zones, ext).Some?
    ensures var sp := FindProperty(block, "DTSTART", true).value;
            var r := BlockRecord(block, zones, ext).value;
            && (EndToken(block).Some? && EndToken(block).value != [] ==>
                  ResolveToken(EndToken(block).value, TzidParam(sp.params), zones, ext) == Some(r.end))
            && (EndToken(block).None? || EndToken(block).value == [] ==> r.end == r.start)
            && (EndToken(block) == Some(Strip(sp.value)) ==> r.end == r.start)
  {
    var sp := FindProperty(block, "DTSTART", true).value;
    assert BlockRecord(block, zones, ext) == RecordFromStart(block, sp, zones, ext);
  }

  /**
   * When a block is kept, and what its record holds: a block yields a record
   * exactly when it has a DTSTART line whose value parses and its DTEND value
   * is missing, blank or parses. The record's start and end are those values
   * resolved with the DTSTART line's TZID, its text fields are what `_grab`
   * finds, and it is tagged as a fallback record.
   */
  lemma BlockKept(block: string, zones: map<string, int>, ext: ExternalParsers)
    ensures BlockRecord(block, zones, ext).Some? <==>
              && FindProperty(block, "DTSTART", true).Some?
              && ParseToken(Strip(FindProperty(block, "DTSTART", true).value.value), ext).Some?
              && EndTime(EndToken(block), ParseToken(Strip(FindProperty(block, "DTSTART", true).value.value), ext).value, ext).Some?
    ensures BlockRecord(block, zones, ext).Some? ==>
              var sp := FindProperty(block, "DTSTART", true).value;
              var st := ParseToken(Strip(sp.value), ext).value;
              var et := EndTime(EndToken(block), st, ext).value;
              var r := BlockRecord(block, zones, ext).value;
              && r.start == Resolve(st, TzidParam(sp.params), zones)
              && r.end == Resolve(et, TzidParam(sp.params), zones)
              && r.allDay == IsDateToken(Strip(sp.value))
              && r.summary == Grab(block, "SUMMARY") && r.uid == Grab(block, "UID")
              && r.description == Grab(block, "DESCRIPTION") && r.location == Grab(block, "LOCATION")
              && r.status == Grab(block, "STATUS")
              && r.created.None? && r.lastModified.None? && r.url.None? && r.recurrenceId.None?
              && r.source == Fallback
  {
  }

  /**
   * A `Z`-suffixed DTSTART is UTC: the record starts at the token's own
   * instant, with no shift for the TZID parameter or the zone table.
   */
  lemma UtcStartIgnoresTzid(block: string, zones: map<string, int>, ext: ExternalParsers)
    requires BlockRecord(block, zones, ext).Some?
    requires EndsWithZ(Strip(FindProperty(block, "DTSTART", true).value.value))
    ensures ParseToken(Strip(FindProperty(block, "DTSTART", true).value.value), ext)
              == Some(Aware(BlockRecord(block, zones, ext).value.start))
  {
    var prop := FindProperty(block, "DTSTART", true).value;
    assert BlockRecord(block, zones, ext) == RecordFromStart(block, prop, zones, ext);
    RecordFromStartFacts(block, prop, zones, ext);
    assert ParseToken(Strip(prop.value), ext).value.Aware?;
  }

}
