/**
 * Proleptic Gregorian calendar arithmetic, as Python's `datetime` does it,
 * and instants as whole seconds since 1970-01-01T00:00:00Z. A local zone is a
 * fixed offset in seconds east of UTC, so the local calendar day of an
 * instant `t` is `(t + offset) / 86400` (floor division).
 */
module Civil {

  const SecondsPerDay: int := 86400

  /** `date(1970, 1, 1).toordinal()` in Python. */
  const UnixEpochOrdinal: int := 719163

  predicate IsLeapYear(y: int) {
    y % 4 == 0 && (y % 100 != 0 || y % 400 == 0)
  }

  function DaysInMonth(y: int, m: int): (n: int)
    requires 1 <= m <= 12
    ensures 28 <= n <= 31
    ensures m == 2 ==> (n == 29 <==> IsLeapYear(y))
  {
    if m == 2 then (if IsLeapYear(y) then 29 else 28)
    else if m == 4 || m == 6 || m == 9 || m == 11 then 30
    else 31
  }

  /** The dates Python's `datetime.date` accepts. */
  predicate ValidDate(y: int, m: int, d: int) {
    1 <= y <= 9999 && 1 <= m <= 12 && 1 <= d <= DaysInMonth(y, m)
  }

  function DaysBeforeMonth(y: int, m: int): int
    requires 1 <= m <= 13
  {
    if m == 1 then 0 else DaysBeforeMonth(y, m - 1) + DaysInMonth(y, m - 1)
  }

  function DaysBeforeYear(y: int): int {
    365 * (y - 1) + (y - 1) / 4 - (y - 1) / 100 + (y - 1) / 400
  }

  /** Days since 1970-01-01 of a valid date (`toordinal() - 719163`). */
  function EpochDay(y: int, m: int, d: int): int
    requires ValidDate(y, m, d)
  {
    DaysBeforeYear(y) + DaysBeforeMonth(y, m) + d - UnixEpochOrdinal
  }

  /** The calendar date that follows a valid date. */
  function NextDate(y: int, m: int, d: int): (r: (int, int, int))
    requires ValidDate(y, m, d)
  {
    if d < DaysInMonth(y, m) then (y, m, d + 1)
    else if m < 12 then (y, m + 1, 1)
    else (y + 1, 1, 1)
  }

  lemma YearLength(y: int)
    requires y >= 1
    ensures DaysBeforeYear(y + 1) - DaysBeforeYear(y) == if IsLeapYear(y) then 366 else 365
  {
    Step4(y);
    Step100(y);
    Step400(y);
    assert DaysBeforeYear(y + 1) - DaysBeforeYear(y)
        == 365 + (y / 4 - (y - 1) / 4) - (y / 100 - (y - 1) / 100) + (y / 400 - (y - 1) / 400);
    if y % 400 == 0 {
      CenturyOf400(y);
    } else if y % 100 == 0 {
      LeapOf100(y);
    }
  }

  lemma CenturyOf400(y: int)
    requires y % 400 == 0
    ensures y % 100 == 0 && y % 4 == 0
  {
    var q := y / 400;
    assert y == 100 * (4 * q) && y == 4 * (100 * q);
  }

  lemma LeapOf100(y: int)
    requires y % 100 == 0
    ensures y % 4 == 0
  {
    var q := y / 100;
    assert y == 4 * (25 * q);
  }

  lemma Step4(y: int)
    ensures y / 4 - (y - 1) / 4 == if y % 4 == 0 then 1 else 0
  {
  }

  lemma Step100(y: int)
    ensures y / 100 - (y - 1) / 100 == if y % 100 == 0 then 1 else 0
  {
  }

  lemma Step400(y: int)
    ensures y / 400 - (y - 1) / 400 == if y % 400 == 0 then 1 else 0
  {
  }

  lemma {:induction false} MonthsFillYear(y: int)
    ensures DaysBeforeMonth(y, 13) == if IsLeapYear(y) then 366 else 365
  {
    var feb := DaysInMonth(y, 2);
    assert DaysBeforeMonth(y, 2) == 31;
    assert DaysBeforeMonth(y, 3) == 31 + feb;
    assert DaysBeforeMonth(y, 4) == 62 + feb;
    assert DaysBeforeMonth(y, 5) == 92 + feb;
    assert DaysBeforeMonth(y, 6) == 123 + feb;
    assert DaysBeforeMonth(y, 7) == 153 + feb;
    assert DaysBeforeMonth(y, 8) == 184 + feb;
    assert DaysBeforeMonth(y, 9) == 215 + feb;
    assert DaysBeforeMonth(y, 10) == 245 + feb;
    assert DaysBeforeMonth(y, 11) == 276 + feb;
    assert DaysBeforeMonth(y, 12) == 306 + feb;
  }

  /** Consecutive calendar dates are consecutive epoch days: the day count has no gaps or repeats. */
  lemma NextDateIsNextDay(y: int, m: int, d: int)
    requires ValidDate(y, m, d) && y < 9999
    ensures ValidDate(NextDate(y, m, d).0, NextDate(y, m, d).1, NextDate(y, m, d).2)
    ensures EpochDay(NextDate(y, m, d).0, NextDate(y, m, d).1, NextDate(y, m, d).2) == EpochDay(y, m, d) + 1
  {
    if d == DaysInMonth(y, m) && m == 12 {
      YearLength(y);
      MonthsFillYear(y);
    }
  }

  /** Seconds since the epoch of a wall-clock time read as UTC. */
  function WallSeconds(y: int, mo: int, d: int, h: int, mi: int, s: int): int
    requires ValidDate(y, mo, d)
  {
    EpochDay(y, mo, d) * SecondsPerDay + h * 3600 + mi * 60 + s
  }

  /** The local calendar day (days since 1970-01-01) of instant `t` at offset `off`: `dt.astimezone(tz).date()`. */
  function LocalDay(t: int, off: int): int {
    (t + off) / SecondsPerDay
  }

  /**
   * `(t.astimezone(tz) + timedelta(days=1)).replace(hour=0, minute=0, second=0)`:
   * the first local midnight strictly after `t`.
   */
  function NextLocalMidnight(t: int, off: int): (r: int)
    ensures t < r <= t + SecondsPerDay
    ensures LocalDay(r, off) == LocalDay(t, off) + 1
    ensures (r + off) % SecondsPerDay == 0
  {
    (LocalDay(t, off) + 1) * SecondsPerDay - off
  }

  /** Local days never run backwards: a later instant is on the same or a later local day. */
  lemma LocalDayMonotonic(t: int, u: int, off: int)
    requires t <= u
    ensures LocalDay(t, off) <= LocalDay(u, off)
  {
    var a, b := t + off, u + off;
    assert a / SecondsPerDay * SecondsPerDay <= a;
    assert b < (b / SecondsPerDay + 1) * SecondsPerDay;
  }

}
