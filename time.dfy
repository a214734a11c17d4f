/** The part of java.time.OffsetDateTime the core uses: a calendar date and a
    time of day, and plusYears. The zone offset and the nanoseconds are not
    modelled; the clock itself is an input of every operation that reads it. */
module Time {

  /** A timestamp: proleptic Gregorian date and the second within the day. */
  datatype Instant = Instant(year: int, month: int, day: int, secondOfDay: int)

  predicate IsLeapYear(y: int) {
    y % 4 == 0 && (y % 100 != 0 || y % 400 == 0)
  }

  function DaysInMonth(y: int, m: int): (n: int)
    requires 1 <= m <= 12
    ensures 28 <= n <= 31
  {
    if m == 2 then (if IsLeapYear(y) then 29 else 28)
    else if m == 4 || m == 6 || m == 9 || m == 11 then 30
    else 31
  }

  /** The timestamps a clock can produce. */
  predicate IsValid(t: Instant) {
    && 1 <= t.month <= 12
    && 1 <= t.day <= DaysInMonth(t.year, t.month)
    && 0 <= t.secondOfDay < 86400
  }

  /** Strict chronological order. */
  predicate Before(a: Instant, b: Instant) {
    || a.year < b.year
    || (a.year == b.year && a.month < b.month)
    || (a.year == b.year && a.month == b.month && a.day < b.day)
    || (a.year == b.year && a.month == b.month && a.day == b.day && a.secondOfDay < b.secondOfDay)
  }

  /** OffsetDateTime.plusYears: the year moves by n, the month and the time of
      day stay, and a day that does not exist in the new year (29 February
      in a common year) becomes the last valid day of the month. */
  function PlusYears(t: Instant, n: int): (r: Instant)
    requires IsValid(t)
    ensures IsValid(r)
    ensures r.year == t.year + n && r.month == t.month && r.secondOfDay == t.secondOfDay
    ensures r.day == t.day || (t.month == 2 && t.day == 29 && r.day == 28 && !IsLeapYear(t.year + n))
    ensures n > 0 ==> Before(t, r)
  {
    var last := DaysInMonth(t.year + n, t.month);
    t.(year := t.year + n, day := if t.day <= last then t.day else last)
  }
}
