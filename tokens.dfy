/**
 * `_parse_dt` and the zone resolution that follows it in `_fallback_parse`:
 * one DTSTART/DTEND value becomes a timezone-aware instant.
 *
 * Only the compact forms `YYYYMMDD`, `YYYYMMDDTHHMMSS` and
 * `YYYYMMDDTHHMMSSZ` are decoded here. Every other token is handed to
 * `dateutil` (`isoparse` for a `Z` suffix, `parser.parse` otherwise), which
 * is not part of this model: those two are the fallible function parameters
 * of `ExternalParsers`.
 */
module Tokens {
  import opened Wrappers
  import opened Text
  import opened Civil

  /** A parsed date-time: naive (a wall-clock reading, in seconds as if it were UTC) or aware (an instant). */
  datatype ParsedTime = Naive(wall: int) | Aware(instant: int)

  /** `dateutil.parser.isoparse` on a `Z`-suffixed token (always UTC) and the free-form `dateutil.parser.parse`. */
  datatype ExternalParsers = ExternalParsers(
    isoParse: string -> Option<int>,
    generalParse: string -> Option<ParsedTime>)

  /** `re.match(r"^\d{8}$", raw)` on a stripped token (ASCII digits). */
  predicate IsDateToken(raw: string) {
    |raw| == 8 && AllDigits(raw)
  }

  predicate EndsWithZ(raw: string) {
    |raw| > 0 && raw[|raw| - 1] == 'Z'
  }

  /**
   * `datetime.strptime(raw, '%Y%m%d')`: the year is the first four digits,
   * month and day exactly two digits each, and the date must exist.
   */
  function DateTokenWall(raw: string): (r: Option<int>)
    requires IsDateToken(raw)
    ensures r.Some? <==> ValidDate(DigitsValue(raw[..4]), DigitsValue(raw[4..6]), DigitsValue(raw[6..]))
    ensures r.Some? ==> r.value % SecondsPerDay == 0
    ensures r.Some? ==> r.value / SecondsPerDay == EpochDay(DigitsValue(raw[..4]), DigitsValue(raw[4..6]), DigitsValue(raw[6..]))
  {
    var y, m, d := DigitsValue(raw[..4]), DigitsValue(raw[4..6]), DigitsValue(raw[6..]);
    if ValidDate(y, m, d) then Some(WallSeconds(y, m, d, 0, 0, 0)) else None
  }

  /** The shape `YYYYMMDDTHHMMSS`. */
  predicate IsBasicDateTime(raw: string) {
    |raw| == 15 && raw[8] == 'T' && forall i :: 0 <= i < 15 && i != 8 ==> IsDigit(raw[i])
  }

  /** The wall-clock seconds of a `YYYYMMDDTHHMMSS` token whose fields are all in range. */
  function BasicDateTimeWall(raw: string): (r: Option<int>)
    ensures r.Some? <==> IsBasicDateTime(raw)
                         && ValidDate(DigitsValue(raw[..4]), DigitsValue(raw[4..6]), DigitsValue(raw[6..8]))
                         && DigitsValue(raw[9..11]) <= 23 && DigitsValue(raw[11..13]) <= 59 && DigitsValue(raw[13..]) <= 59
    ensures r.Some? ==> var y, m, d := DigitsValue(raw[..4]), DigitsValue(raw[4..6]), DigitsValue(raw[6..8]);
      ValidDate(y, m, d) && EpochDay(y, m, d) == r.value / SecondsPerDay
      && r.value % SecondsPerDay == DigitsValue(raw[9..11]) * 3600 + DigitsValue(raw[11..13]) * 60 + DigitsValue(raw[13..])
  {
    if !IsBasicDateTime(raw) then None
    else
      var y, mo, d := DigitsValue(raw[..4]), DigitsValue(raw[4..6]), DigitsValue(raw[6..8]);
      var h, mi, s := DigitsValue(raw[9..11]), DigitsValue(raw[11..13]), DigitsValue(raw[13..]);
      if ValidDate(y, mo, d) && h <= 23 && mi <= 59 && s <= 59 then Some(WallSeconds(y, mo, d, h, mi, s))
      else None
  }

  /**
   * `_parse_dt`: `None` stands for the exception that makes the caller skip
   * the block. The tests come in the source's order: a `Z` suffix first (an
   * aware UTC time), then exactly eight digits (a naive midnight), then the
   * general parser.
   */
  function ParseToken(raw: string, ext: ExternalParsers): (r: Option<ParsedTime>)
    ensures EndsWithZ(raw) ==> r.None? || r.value.Aware?
    ensures EndsWithZ(raw) && BasicDateTimeWall(raw[..|raw| - 1]).Some? ==> r == Some(Aware(BasicDateTimeWall(raw[..|raw| - 1]).value))
    ensures EndsWithZ(raw) && BasicDateTimeWall(raw[..|raw| - 1]).None? ==>
              r == (if ext.isoParse(raw).Some? then Some(Aware(ext.isoParse(raw).value)) else None)
    ensures IsDateToken(raw) ==> !EndsWithZ(raw) && (r.Some? <==> DateTokenWall(raw).Some?)
    ensures IsDateToken(raw) && r.Some? ==> r.value == Naive(DateTokenWall(raw).value)
    ensures !EndsWithZ(raw) && !IsDateToken(raw) && BasicDateTimeWall(raw).None? ==> r == ext.generalParse(raw)
    ensures !EndsWithZ(raw) && !IsDateToken(raw) && BasicDateTimeWall(raw).Some? ==> r == Some(Naive(BasicDateTimeWall(raw).value))
  {
    if EndsWithZ(raw) then
      match BasicDateTimeWall(raw[..|raw| - 1])
      case Some(w) => Some(Aware(w))
      case None =>
        match ext.isoParse(raw)
        case Some(t) => Some(Aware(t))
        case None => None
    else if IsDateToken(raw) then
      match DateTokenWall(raw)
      case Some(w) => Some(Naive(w))
      case None => None
    else
      match BasicDateTimeWall(raw)
      case Some(w) => Some(Naive(w))
      case None => ext.generalParse(raw)
  }

  /**
   * Makes a parsed time aware: an aware value is kept; a naive one is
   * localised into the named zone when `pytz` knows it (`zones`, fixed
   * offsets in seconds east of UTC) and read as UTC otherwise.
   */
  function Resolve(p: ParsedTime, tzid: Option<string>, zones: map<string, int>): (r: int)
    ensures p.Aware? ==> r == p.instant
    ensures p.Naive? && tzid.Some? && tzid.value in zones ==> r == p.wall - zones[tzid.value]
    ensures p.Naive? && (tzid.None? || tzid.value !in zones) ==> r == p.wall
  {
    match p
    case Aware(t) => t
    case Naive(w) => w - ZoneOffset(tzid, zones)
  }

  /** `_parse_dt` followed by zone resolution, `None` when the token does not parse. */
  function ResolveToken(raw: string, tzid: Option<string>, zones: map<string, int>, ext: ExternalParsers): (r: Option<int>)
    ensures r.Some? <==> ParseToken(raw, ext).Some?
    ensures r.Some? && ParseToken(raw, ext).value.Aware? ==> r.value == ParseToken(raw, ext).value.instant
    ensures r.Some? && ParseToken(raw, ext).value.Naive? ==> r.value == ParseToken(raw, ext).value.wall - ZoneOffset(tzid, zones)
  {
    match ParseToken(raw, ext)
    case Some(p) => Some(Resolve(p, tzid, zones))
    case None => None
  }

  /** The offset a naive reading is shifted by: the zone's offset if it is known, 0 (UTC) otherwise. */
  function ZoneOffset(tzid: Option<string>, zones: map<string, int>): int {
    if tzid.Some? && tzid.value in zones then zones[tzid.value] else 0
  }

  /** A `Z`-suffixed token is UTC: its instant does not depend on the TZID or the zone table. */
  lemma UtcTokenIgnoresZone(raw: string, tz1: Option<string>, tz2: Option<string>,
                            zones1: map<string, int>, zones2: map<string, int>, ext: ExternalParsers)
    requires EndsWithZ(raw)
    ensures ResolveToken(raw, tz1, zones1, ext) == ResolveToken(raw, tz2, zones2, ext)
    ensures BasicDateTimeWall(raw[..|raw| - 1]).Some? ==> ResolveToken(raw, tz1, zones1, ext) == BasicDateTimeWall(raw[..|raw| - 1])
  {
  }

  /**
   * An 8-digit token names a date: when it parses, it resolves to midnight
   * of that date in the TZID zone (UTC when the zone is absent or unknown),
   * and it parses exactly when the date exists.
   */
  lemma DateTokenIsZonedMidnight(raw: string, tzid: Option<string>, zones: map<string, int>, ext: ExternalParsers)
    requires IsDateToken(raw)
    ensures var y, m, d := DigitsValue(raw[..4]), DigitsValue(raw[4..6]), DigitsValue(raw[6..]);
      && (ResolveToken(raw, tzid, zones, ext).Some? <==> ValidDate(y, m, d))
      && (ValidDate(y, m, d) ==>
           ResolveToken(raw, tzid, zones, ext) == Some(EpochDay(y, m, d) * SecondsPerDay - ZoneOffset(tzid, zones)))
  {
    assert !EndsWithZ(raw);
  }

  /** A naive compact date-time is localised: it resolves to its wall-clock reading minus the zone offset. */
  lemma NaiveTokenIsLocalised(raw: string, tzid: Option<string>, zones: map<string, int>, ext: ExternalParsers)
    requires IsBasicDateTime(raw) && BasicDateTimeWall(raw).Some?
    ensures ResolveToken(raw, tzid, zones, ext) == Some(BasicDateTimeWall(raw).value - ZoneOffset(tzid, zones))
  {
    assert !EndsWithZ(raw) && !IsDateToken(raw);
  }

}
