/** Civil-calendar arithmetic in the proleptic Gregorian calendar, as the
    chrono crate provides it: dates are valid between the years -262144 and
    262143, and a UTC date-time is a count of seconds since 1970-01-01
    00:00:00. Timestamps and durations are whole seconds throughout. */
module Calendar {

  /** chrono's `NaiveDate` year range. */
  const MinYear: int := -262144
  const MaxYear: int := 262143

  const SecondsPerMinute: int := 60
  const SecondsPerHour: int := 3600
  const SecondsPerDay: int := 86400

  predicate IsLeapYear(y: int)
  {
    y % 4 == 0 && (y % 100 != 0 || y % 400 == 0)
  }

  function DaysInMonth(y: int, m: int): (n: int)
    requires 1 <= m <= 12
    ensures 28 <= n <= 31
  {
    if m == 2 then (if IsLeapYear(y) then 29 else 28)
    else if m == 4 || m == 6 || m == 9 || m == 11 then 30
    else 31
  }

  /** `NaiveDate::from_ymd_opt(y, m, d)` succeeds. */
  predicate ValidDate(y: int, m: int, d: int)
  {
    MinYear <= y <= MaxYear && 1 <= m <= 12 && 1 <= d <= DaysInMonth(y, m)
  }

  /** Days from 1970-01-01 to the given civil date. Years are counted from
      March so that the leap day is the last day of the counted year; eras
      are the 400-year cycles of 146097 days. Dafny's `/` rounds towards
      negative infinity for a positive divisor, which is what the
      computation needs for years before 0. */
  function DaysFromCivil(y: int, m: int, d: int): int
    requires 1 <= m <= 12
  {
    var y' := if m <= 2 then y - 1 else y;
    var era := y' / 400;
    var yoe := y' - era * 400;
    var mp := (m + 9) % 12;
    var doy := (153 * mp + 2) / 5 + d - 1;
    var doe := yoe * 365 + yoe / 4 - yoe / 100 + doy;
    era * 146097 + doe - 719468
  }

  /** Seconds since the epoch of the given UTC date and time of day. */
  function UtcSeconds(y: int, m: int, d: int, hh: int, mm: int, ss: int): int
    requires 1 <= m <= 12
  {
    DaysFromCivil(y, m, d) * SecondsPerDay + hh * SecondsPerHour + mm * SecondsPerMinute + ss
  }

  /** The epoch is day zero. */
  lemma EpochIsDayZero()
    ensures DaysFromCivil(1970, 1, 1) == 0
  {
  }

  /** Consecutive days of one month are one day apart. */
  lemma NextDayInMonth(y: int, m: int, d: int)
    requires 1 <= m <= 12
    ensures DaysFromCivil(y, m, d + 1) == DaysFromCivil(y, m, d) + 1
  {
  }

  /** The last day of a month and the first day of the next month are one
      day apart (for the months from March to December, which the count of
      each year starts with). */
  lemma NextMonth(y: int, m: int)
    requires 3 <= m <= 11
    ensures DaysFromCivil(y, m + 1, 1) == DaysFromCivil(y, m, DaysInMonth(y, m)) + 1
  {
  }

  /** December 31 is followed by January 1 of the next year. */
  lemma NewYear(y: int)
    ensures DaysFromCivil(y + 1, 1, 1) == DaysFromCivil(y, 12, 31) + 1
  {
  }

  /** Timestamps chrono can represent: `DateTime::<Utc>::timestamp_opt`
      yields a single value exactly when the day of the timestamp lies
      between January 1 of the first and December 31 of the last year. */
  predicate TimestampInRange(secs: int)
  {
    DaysFromCivil(MinYear, 1, 1) <= secs / SecondsPerDay <= DaysFromCivil(MaxYear, 12, 31)
  }
}
