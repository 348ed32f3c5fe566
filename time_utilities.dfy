/** `TimeUtilities` and `calculateTimeBeforeExpire`. A JavaScript `Date` is
    seen through its getters: a date cell through its local calendar fields,
    the clock reading through its epoch milliseconds and its native
    weekday. */
module TimeUtilities {

  /** What `Date.prototype.getDay` returns: 0 is Sunday, 6 is Saturday. */
  type NativeDay = d: int | 0 <= d <= 6

  /** The local fields of a `Date`; `month` counts from 0 as in JavaScript. */
  datatype DateTime = DateTime(
    year: int, month: int, day: int,
    hours: int, minutes: int, seconds: int, millis: int)

  /** The reading `TimeUtilities.now()` returns (already shifted by its
      fixed +3 hours), through the two getters `findWriteOffs` uses on it:
      `getTime()` and `getDay()`. The calendar fields `normalizeDate` reads
      come from its own clock readings, the `today` parameter. */
  datatype Instant = Instant(epochMillis: int, nativeDay: NativeDay)

  /** `getWeekdayFromDate`: Monday is 1 ... Saturday is 6, and Sunday,
      natively 0, becomes 7. */
  function GetWeekdayFromDate(date: Instant): (weekday: int)
    ensures 1 <= weekday <= 7
    ensures weekday % 7 == date.nativeDay
  {
    if date.nativeDay == 0 then 7 else date.nativeDay
  }

  /** Two dates fall on the same calendar day. */
  predicate SameCalendarDay(a: DateTime, b: DateTime)
  {
    a.year == b.year && a.month == b.month && a.day == b.day
  }

  /** Two dates show the same time of day, to the second. */
  predicate SameTimeOfDay(a: DateTime, b: DateTime)
  {
    a.hours == b.hours && a.minutes == b.minutes && a.seconds == b.seconds
  }

  /** `normalizeDate`: the time of day of `date` on the calendar day of
      `today`, the day of the clock reading `normalizeDate` takes itself.
      The `Date` constructor it calls is given no milliseconds, so they
      are 0. */
  function NormalizeDate(date: DateTime, today: DateTime): (r: DateTime)
    ensures SameCalendarDay(r, today)
    ensures SameTimeOfDay(r, date)
    ensures r.millis == 0
  {
    DateTime(today.year, today.month, today.day, date.hours, date.minutes, date.seconds, 0)
  }

  /** Normalizing twice against the same day is normalizing once. */
  lemma NormalizeDateIdempotent(date: DateTime, today: DateTime)
    ensures NormalizeDate(NormalizeDate(date, today), today) == NormalizeDate(date, today)
  {
  }

  /** Normalization forgets the calendar day and the milliseconds of the
      cell: two cells normalize to the same date exactly when they show the
      same time of day. */
  lemma NormalizeDateKeepsOnlyTimeOfDay(a: DateTime, b: DateTime, today: DateTime)
    ensures NormalizeDate(a, today) == NormalizeDate(b, today) <==> SameTimeOfDay(a, b)
  {
  }

  /** `calculateTimeBeforeExpire`: seconds from `nowMillis` to `dueMillis`,
      exact, negative once the due time has passed. */
  function CalculateTimeBeforeExpire(dueMillis: int, nowMillis: int): (seconds: real)
    ensures nowMillis as real + seconds * 1000.0 == dueMillis as real
    ensures seconds < 0.0 <==> dueMillis < nowMillis
    ensures seconds == 0.0 <==> dueMillis == nowMillis
  {
    (dueMillis - nowMillis) as real / 1000.0
  }
}
