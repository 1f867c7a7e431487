/** Naive (zone-less) date-times as Python's `datetime` holds them, the
    proleptic Gregorian calendar, and the two pieces of calendar arithmetic
    `convert_time_to_format` performs: adding the ten-second lead and
    shifting an Asia/Shanghai wall-clock reading back by eight hours.

    Every date-time is measured by its `Instant`: microseconds since
    0000-01-01T00:00:00. The arithmetic is stated against it. */
module Calendar {

  datatype DateTime = DateTime(
    year: int, month: int, day: int,
    hour: int, minute: int, second: int, microsecond: int)

  /** Python's `datetime.MINYEAR` and `datetime.MAXYEAR`. */
  const MinYear := 1
  const MaxYear := 9999

  const MicrosPerSecond := 1000000
  const MicrosPerHour := 3600 * MicrosPerSecond

  predicate IsLeapYear(y: int) {
    y % 4 == 0 && (y % 100 != 0 || y % 400 == 0)
  }

  function DaysInYear(y: int): int {
    if IsLeapYear(y) then 366 else 365
  }

  /** The length of month `m` of year `y`. */
  function DaysInMonth(y: int, m: int): int
    requires 1 <= m <= 12
  {
    if m == 2 then (if IsLeapYear(y) then 29 else 28)
    else if m == 4 || m == 6 || m == 9 || m == 11 then 30
    else 31
  }

  /** Days in the months of year `y` before month `m`. */
  function DaysBeforeMonth(y: int, m: int): int
    requires 1 <= m <= 12
  {
    [0, 31, 59, 90, 120, 151, 181, 212, 243, 273, 304, 334][m - 1]
    + (if m > 2 && IsLeapYear(y) then 1 else 0)
  }

  /** Days in the years before year `y`, counting from year 0. */
  function DaysBeforeYear(y: nat): nat {
    if y == 0 then 0 else DaysBeforeYear(y - 1) + DaysInYear(y - 1)
  }

  /** A reading of the calendar and the clock, whatever its year. */
  predicate WellFormed(d: DateTime) {
    && d.year >= 0
    && 1 <= d.month <= 12
    && 1 <= d.day <= DaysInMonth(d.year, d.month)
    && 0 <= d.hour < 24
    && 0 <= d.minute < 60
    && 0 <= d.second < 60
    && 0 <= d.microsecond < MicrosPerSecond
  }

  /** What Python's `datetime` constructor accepts. */
  predicate Valid(d: DateTime) {
    WellFormed(d) && MinYear <= d.year <= MaxYear
  }

  function DayNumber(d: DateTime): nat
    requires WellFormed(d)
  {
    DaysBeforeYear(d.year) + DaysBeforeMonth(d.year, d.month) + d.day - 1
  }

  function SecondOfDay(d: DateTime): int {
    (d.hour * 60 + d.minute) * 60 + d.second
  }

  /** Microseconds since 0000-01-01T00:00:00. */
  function Instant(d: DateTime): int
    requires WellFormed(d)
  {
    (DayNumber(d) * 86400 + SecondOfDay(d)) * MicrosPerSecond + d.microsecond
  }

  /** `a` comes strictly before `b`, field by field from the year down. */
  predicate Precedes(a: DateTime, b: DateTime) {
    || a.year < b.year
    || (a.year == b.year && a.month < b.month)
    || (a.year == b.year && a.month == b.month && a.day < b.day)
    || (a.year == b.year && a.month == b.month && a.day == b.day && a.hour < b.hour)
    || (a.year == b.year && a.month == b.month && a.day == b.day && a.hour == b.hour
        && a.minute < b.minute)
    || (a.year == b.year && a.month == b.month && a.day == b.day && a.hour == b.hour
        && a.minute == b.minute && a.second < b.second)
    || (a.year == b.year && a.month == b.month && a.day == b.day && a.hour == b.hour
        && a.minute == b.minute && a.second == b.second && a.microsecond < b.microsecond)
  }

  // ---------------------------------------------------------------------
  // Day counting

  lemma {:induction false} YearsAccumulate(y1: nat, y2: nat)
    requires y1 < y2
    ensures DaysBeforeYear(y1) + DaysInYear(y1) <= DaysBeforeYear(y2)
    decreases y2
  {
    if y1 + 1 < y2 {
      YearsAccumulate(y1, y2 - 1);
    }
  }

  lemma MonthsAccumulate(y: int, m1: int, m2: int)
    requires 1 <= m1 < m2 <= 12
    ensures DaysBeforeMonth(y, m1) + DaysInMonth(y, m1) <= DaysBeforeMonth(y, m2)
  {
  }

  lemma MonthsFillYear(y: int, m: int)
    requires 1 <= m <= 12
    ensures DaysBeforeMonth(y, m) + DaysInMonth(y, m) <= DaysInYear(y)
    ensures m == 12 ==> DaysBeforeMonth(y, m) + DaysInMonth(y, m) == DaysInYear(y)
  {
  }

  /** The day number orders dates as the calendar does. */
  lemma DayNumberOrder(a: DateTime, b: DateTime)
    requires WellFormed(a) && WellFormed(b)
    requires a.year < b.year
          || (a.year == b.year && a.month < b.month)
          || (a.year == b.year && a.month == b.month && a.day < b.day)
    ensures DayNumber(a) < DayNumber(b)
  {
    if a.year < b.year {
      MonthsFillYear(a.year, a.month);
      YearsAccumulate(a.year, b.year);
    } else if a.month < b.month {
      MonthsAccumulate(a.year, a.month, b.month);
    }
  }

  /** Field order is instant order. */
  lemma PrecedesEarlier(a: DateTime, b: DateTime)
    requires WellFormed(a) && WellFormed(b) && Precedes(a, b)
    ensures Instant(a) < Instant(b)
  {
    if a.year < b.year
      || (a.year == b.year && a.month < b.month)
      || (a.year == b.year && a.month == b.month && a.day < b.day)
    {
      DayNumberOrder(a, b);
      assert DayNumber(a) + 1 <= DayNumber(b);
      assert SecondOfDay(a) < 86400;
    } else {
      assert DayNumber(a) == DayNumber(b);
    }
  }

  /** Comparing instants is comparing date-times field by field; in
      particular two well-formed date-times at one instant are equal. */
  lemma InstantOrder(a: DateTime, b: DateTime)
    requires WellFormed(a) && WellFormed(b)
    ensures Instant(a) <= Instant(b) <==> (a == b || Precedes(a, b))
    ensures Instant(a) == Instant(b) <==> a == b
  {
    if Precedes(a, b) {
      PrecedesEarlier(a, b);
    } else if a != b {
      assert Precedes(b, a);
      PrecedesEarlier(b, a);
    }
  }

  // ---------------------------------------------------------------------
  // Carrying forward: `datetime + timedelta(seconds=n)`

  /** The next calendar day, carrying into the month and the year. */
  function NextDay(d: DateTime): (r: DateTime)
    requires WellFormed(d)
    ensures WellFormed(r) && DayNumber(r) == DayNumber(d) + 1
    ensures SecondOfDay(r) == SecondOfDay(d) && r.microsecond == d.microsecond
  {
    if d.day < DaysInMonth(d.year, d.month) then d.(day := d.day + 1)
    else if d.month < 12 then d.(month := d.month + 1, day := 1)
    else
      MonthsFillYear(d.year, 12);
      d.(year := d.year + 1, month := 1, day := 1)
  }

  /** Adds `n` whole seconds (less than a minute), carrying into minutes,
      hours, days, months and years. */
  function AddSeconds(d: DateTime, n: int): (r: DateTime)
    requires WellFormed(d) && 0 <= n < 60
    ensures WellFormed(r)
    ensures Instant(r) == Instant(d) + n * MicrosPerSecond
  {
    var s := d.second + n;
    if s < 60 then d.(second := s)
    else if d.minute < 59 then d.(minute := d.minute + 1, second := s - 60)
    else if d.hour < 23 then d.(hour := d.hour + 1, minute := 0, second := s - 60)
    else NextDay(d).(hour := 0, minute := 0, second := s - 60)
  }

  // ---------------------------------------------------------------------
  // Borrowing backward: a fixed-offset time zone to UTC

  /** The previous calendar day, borrowing from the month and the year. */
  function PreviousDay(d: DateTime): (r: DateTime)
    requires WellFormed(d) && d.year >= 1
    ensures WellFormed(r) && DayNumber(r) + 1 == DayNumber(d)
    ensures SecondOfDay(r) == SecondOfDay(d) && r.microsecond == d.microsecond
  {
    if d.day > 1 then d.(day := d.day - 1)
    else if d.month > 1 then
      d.(month := d.month - 1, day := DaysInMonth(d.year, d.month - 1))
    else
      MonthsFillYear(d.year - 1, 12);
      d.(year := d.year - 1, month := 12, day := 31)
  }

  /** Takes `h` hours (less than a day) off a wall-clock reading, borrowing
      across day, month and year. */
  function SubtractHours(d: DateTime, h: int): (r: DateTime)
    requires WellFormed(d) && d.year >= 1 && 0 <= h < 24
    ensures WellFormed(r)
    ensures Instant(r) == Instant(d) - h * MicrosPerHour
  {
    if d.hour >= h then
      var r := d.(hour := d.hour - h);
      HoursBack(d, r, h);
      r
    else
      var p := PreviousDay(d);
      var r := p.(hour := d.hour + 24 - h);
      assert DayNumber(r) == DayNumber(p);
      HoursBack(d, r, h);
      r
  }

  /** Taking hours off moves the year back by at most one, and only from
      the first of January. */
  lemma SubtractHoursYear(d: DateTime, h: int)
    requires WellFormed(d) && d.year >= 1 && 0 <= h < 24
    ensures var r := SubtractHours(d, h);
      r.year == d.year || (r.year == d.year - 1 && d.month == 1 && d.day == 1)
  {
  }

  /** Two date-times `h` hours apart on the hour count, with the same
      minute, second and microsecond, lie `h` hours apart as instants. */
  lemma HoursBack(a: DateTime, b: DateTime, h: int)
    requires WellFormed(a) && WellFormed(b)
    requires b.minute == a.minute && b.second == a.second && b.microsecond == a.microsecond
    requires DayNumber(b) * 24 + b.hour == DayNumber(a) * 24 + a.hour - h
    ensures Instant(b) == Instant(a) - h * MicrosPerHour
  {
  }
}
