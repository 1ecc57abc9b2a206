/**
 * The date facility the interval routine leans on: instants given by the
 * fields of an RFC 3339 date-time (section 5.6 of RFC 3339), the proleptic
 * Gregorian calendar behind them, their position in seconds relative to the
 * Unix epoch 1970-01-01T00:00:00Z, and the whole-day distance that PHP's
 * DateTime::diff reports in DateInterval::days.
 */
module Calendar {

  /** Largest magnitude of a time-offset (+23:59 or -23:59), in minutes. */
  const MaxOffsetMinutes := 23 * 60 + 59

  /** A full-date of RFC 3339 in the proleptic Gregorian calendar. */
  datatype Date = Date(year: int, month: int, day: int)

  /** Leap years, as in Appendix C of RFC 3339. */
  predicate IsLeapYear(y: int) {
    y % 4 == 0 && (y % 100 != 0 || y % 400 == 0)
  }

  function DaysInYear(y: int): int {
    if IsLeapYear(y) then 366 else 365
  }

  /** Month lengths, as in section 5.7 of RFC 3339. */
  function DaysInMonth(y: int, m: int): (n: int)
    requires 1 <= m <= 12
    ensures 28 <= n <= 31
    ensures n == 29 <==> m == 2 && IsLeapYear(y)
    ensures n == 28 <==> m == 2 && !IsLeapYear(y)
  {
    if m == 2 then (if IsLeapYear(y) then 29 else 28)
    else if m == 4 || m == 6 || m == 9 || m == 11 then 30
    else 31
  }

  predicate ValidDate(d: Date) {
    1 <= d.month <= 12 && 1 <= d.day <= DaysInMonth(d.year, d.month)
  }

  /** Strict chronological order of calendar dates: by year, then month, then day. */
  predicate DateBefore(a: Date, b: Date) {
    a.year < b.year
    || (a.year == b.year && a.month < b.month)
    || (a.year == b.year && a.month == b.month && a.day < b.day)
  }

  // ---------------------------------------------------------------------------
  // Reference definition of the day number: count the days year by year and
  // month by month.

  /** Days from 1970-01-01 to January 1st of year y (negative before 1970). */
  function DaysBeforeYear(y: int): int
    decreases if y < 1970 then 1970 - y else y - 1970
  {
    if y == 1970 then 0
    else if y > 1970 then DaysBeforeYear(y - 1) + DaysInYear(y - 1)
    else DaysBeforeYear(y + 1) - DaysInYear(y)
  }

  /** Days of year y that lie before the first day of month m. */
  function DaysBeforeMonth(y: int, m: int): int
    requires 1 <= m <= 12
  {
    if m == 1 then 0 else DaysBeforeMonth(y, m - 1) + DaysInMonth(y, m - 1)
  }

  /** Days from 1970-01-01 to d, by counting. */
  function DayNumber(d: Date): int
    requires ValidDate(d)
  {
    DaysBeforeYear(d.year) + DaysBeforeMonth(d.year, d.month) + d.day - 1
  }

  // ---------------------------------------------------------------------------
  // Closed form of the day number, the way a date library computes it.

  /** Leap years among the years before y, counted from year 0 (so negative for y < 1). */
  function LeapYearsBefore(y: int): int {
    (y - 1) / 4 - (y - 1) / 100 + (y - 1) / 400
  }

  function YearStart(y: int): int {
    365 * (y - 1970) + LeapYearsBefore(y) - LeapYearsBefore(1970)
  }

  const CumulativeMonthDays: seq<int> := [0, 31, 59, 90, 120, 151, 181, 212, 243, 273, 304, 334]

  function MonthStart(y: int, m: int): int
    requires 1 <= m <= 12
  {
    CumulativeMonthDays[m - 1] + (if m > 2 && IsLeapYear(y) then 1 else 0)
  }

  /** Days from 1970-01-01 to d, in closed form. */
  function EpochDay(d: Date): int
    requires ValidDate(d)
  {
    YearStart(d.year) + MonthStart(d.year, d.month) + d.day - 1
  }

  /** The day after d in the calendar. */
  function NextDay(d: Date): (n: Date)
    requires ValidDate(d)
    ensures ValidDate(n) && DateBefore(d, n)
  {
    if d.day < DaysInMonth(d.year, d.month) then Date(d.year, d.month, d.day + 1)
    else if d.month < 12 then Date(d.year, d.month + 1, 1)
    else Date(d.year + 1, 1, 1)
  }

  // ---------------------------------------------------------------------------
  // Properties of the day number.

  /** Multiples of 4, of 100 and of 400 below y, counted from y - 1 instead of y. */
  lemma MultiplesBelowStep(y: int)
    ensures (y - 1) / 4 == if y % 4 == 0 then y / 4 - 1 else y / 4
    ensures (y - 1) / 100 == if y % 100 == 0 then y / 100 - 1 else y / 100
    ensures (y - 1) / 400 == if y % 400 == 0 then y / 400 - 1 else y / 400
  {
  }

  /** Every multiple of 400 is a multiple of 100, and every multiple of 100 a multiple of 4. */
  lemma MultiplesNest(y: int)
    ensures y % 400 == 0 ==> y % 100 == 0
    ensures y % 100 == 0 ==> y % 4 == 0
  {
    var q400, q100 := y / 400, y / 100;
    assert y == 400 * q400 + y % 400;
    assert y == 100 * q100 + y % 100;
  }

  /** One more year counted brings in exactly one more leap year when that year is leap. */
  lemma LeapYearsBeforeStep(y: int)
    ensures LeapYearsBefore(y + 1) == LeapYearsBefore(y) + (if IsLeapYear(y) then 1 else 0)
  {
    MultiplesBelowStep(y);
    MultiplesNest(y);
    assert LeapYearsBefore(y + 1) == y / 4 - y / 100 + y / 400;
  }

  lemma YearStartStep(y: int)
    ensures YearStart(y + 1) == YearStart(y) + DaysInYear(y)
  {
    LeapYearsBeforeStep(y);
  }

  lemma {:induction false} YearStartMatchesReference(y: int)
    ensures YearStart(y) == DaysBeforeYear(y)
    decreases if y < 1970 then 1970 - y else y - 1970
  {
    if y > 1970 {
      YearStartMatchesReference(y - 1);
      YearStartStep(y - 1);
    } else if y < 1970 {
      YearStartMatchesReference(y + 1);
      YearStartStep(y);
    }
  }

  lemma MonthStartStep(y: int, m: int)
    requires 1 <= m < 12
    ensures MonthStart(y, m + 1) == MonthStart(y, m) + DaysInMonth(y, m)
  {
  }

  lemma {:induction false} MonthStartMatchesReference(y: int, m: int)
    requires 1 <= m <= 12
    ensures MonthStart(y, m) == DaysBeforeMonth(y, m)
  {
    if m > 1 {
      MonthStartMatchesReference(y, m - 1);
      MonthStartStep(y, m - 1);
    }
  }

  /** The closed form agrees with counting the days one by one. */
  lemma EpochDayMatchesReference(d: Date)
    requires ValidDate(d)
    ensures EpochDay(d) == DayNumber(d)
  {
    YearStartMatchesReference(d.year);
    MonthStartMatchesReference(d.year, d.month);
  }

  /** Every date lies inside its year: its offset from January 1st is below the year's length. */
  lemma DayOfYearBounds(d: Date)
    requires ValidDate(d)
    ensures YearStart(d.year) <= EpochDay(d) < YearStart(d.year) + DaysInYear(d.year)
  {
  }

  lemma {:induction false} YearStartIncreasing(y1: int, y2: int)
    requires y1 < y2
    ensures YearStart(y1) + DaysInYear(y1) <= YearStart(y2)
    decreases y2 - y1
  {
    YearStartStep(y1);
    if y1 + 1 < y2 {
      YearStartIncreasing(y1 + 1, y2);
    }
  }

  lemma {:induction false} MonthStartIncreasing(y: int, m1: int, m2: int)
    requires 1 <= m1 < m2 <= 12
    ensures MonthStart(y, m1) + DaysInMonth(y, m1) <= MonthStart(y, m2)
    decreases m2 - m1
  {
    MonthStartStep(y, m1);
    if m1 + 1 < m2 {
      MonthStartIncreasing(y, m1 + 1, m2);
    }
  }

  /** A later calendar date has a larger day number. */
  lemma EpochDayStrictlyIncreasing(a: Date, b: Date)
    requires ValidDate(a) && ValidDate(b) && DateBefore(a, b)
    ensures EpochDay(a) < EpochDay(b)
  {
    if a.year < b.year {
      DayOfYearBounds(a);
      YearStartIncreasing(a.year, b.year);
    } else if a.month < b.month {
      MonthStartIncreasing(a.year, a.month, b.month);
    }
  }

  /** Distinct calendar dates have distinct day numbers. */
  lemma EpochDayInjective(a: Date, b: Date)
    requires ValidDate(a) && ValidDate(b)
    ensures EpochDay(a) == EpochDay(b) <==> a == b
  {
    if DateBefore(a, b) {
      EpochDayStrictlyIncreasing(a, b);
    } else if DateBefore(b, a) {
      EpochDayStrictlyIncreasing(b, a);
    }
  }

  /** The day number is zero exactly on 1970-01-01 and negative exactly before 1970. */
  lemma EpochDaySign(d: Date)
    requires ValidDate(d)
    ensures EpochDay(d) >= 0 <==> d.year >= 1970
    ensures EpochDay(d) == 0 <==> d == Date(1970, 1, 1)
  {
    var epoch := Date(1970, 1, 1);
    assert EpochDay(epoch) == 0;
    EpochDayInjective(d, epoch);
    if DateBefore(d, epoch) {
      EpochDayStrictlyIncreasing(d, epoch);
    } else if DateBefore(epoch, d) {
      EpochDayStrictlyIncreasing(epoch, d);
    }
  }

  /** Consecutive calendar dates are exactly one day apart, across month ends, February 29th and year ends. */
  lemma NextDayIsOneDayLater(d: Date)
    requires ValidDate(d)
    ensures EpochDay(NextDay(d)) == EpochDay(d) + 1
  {
    if d.day == DaysInMonth(d.year, d.month) {
      if d.month < 12 {
        MonthStartStep(d.year, d.month);
      } else {
        YearStartStep(d.year);
      }
    }
  }

  /** Two dates of the same month are as many days apart as their day fields. */
  lemma SameMonthGap(a: Date, b: Date)
    requires ValidDate(a) && ValidDate(b) && a.year == b.year && a.month == b.month
    ensures EpochDay(b) - EpochDay(a) == b.day - a.day
  {
  }

  // ---------------------------------------------------------------------------
  // Instants.

  /** The fields of an RFC 3339 date-time with a numeric time-offset, in minutes east of UTC. */
  datatype DateTime = DateTime(date: Date, hour: int, minute: int, second: int, offsetMinutes: int)

  predicate WellFormed(t: DateTime) {
    && ValidDate(t.date)
    && 0 <= t.hour <= 23
    && 0 <= t.minute <= 59
    && 0 <= t.second <= 59
    && -MaxOffsetMinutes <= t.offsetMinutes <= MaxOffsetMinutes
  }

  /** A well-formed date-time: what PHP's DateTime holds for an input with a fixed offset. */
  type Instant = t: DateTime | WellFormed(t)
    witness DateTime(Date(1970, 1, 1), 0, 0, 0, 0)

  const UnixEpoch: Instant := DateTime(Date(1970, 1, 1), 0, 0, 0, 0)

  function SecondOfDay(t: Instant): int {
    t.hour * 3600 + t.minute * 60 + t.second
  }

  /** Seconds from 1970-01-01T00:00:00Z to t: the Unix timestamp of t. */
  function EpochSeconds(t: Instant): int {
    EpochDay(t.date) * 86400 + SecondOfDay(t) - t.offsetMinutes * 60
  }

  function Abs(x: int): nat {
    if x < 0 then -x else x
  }

  /** Seconds elapsed between two instants, whichever comes first. */
  function Distance(a: Instant, b: Instant): nat {
    Abs(EpochSeconds(b) - EpochSeconds(a))
  }

  /** The two fields of PHP's DateInterval that matter here: the sign and the unsigned count of whole days. */
  datatype DateInterval = DateInterval(invert: bool, days: nat)

  /** `$start->diff($end)`: `days` counts the whole days between the instants, `invert` says end is earlier. */
  function Diff(start: Instant, end: Instant): (interval: DateInterval)
    ensures interval.invert <==> EpochSeconds(end) < EpochSeconds(start)
    ensures interval.days * 86400 <= Distance(start, end) < (interval.days + 1) * 86400
  {
    var elapsed := EpochSeconds(end) - EpochSeconds(start);
    DateInterval(elapsed < 0, Abs(elapsed) / 86400)
  }

  /** A UTC instant lies after the epoch exactly when it is in 1970 or later and is not the epoch itself. */
  lemma UtcEpochPositiveIff(t: Instant)
    requires t.offsetMinutes == 0
    ensures EpochSeconds(t) > 0 <==> t.date.year >= 1970 && t != UnixEpoch
    ensures EpochSeconds(t) == 0 <==> t == UnixEpoch
  {
    EpochDaySign(t.date);
  }

  /** Two instants at the same clock time and offset are as many days apart as their dates. */
  lemma DiffSameClockTime(a: Instant, b: Instant)
    requires a.hour == b.hour && a.minute == b.minute && a.second == b.second
    requires a.offsetMinutes == b.offsetMinutes
    ensures Diff(a, b).days == Abs(EpochDay(b.date) - EpochDay(a.date))
    ensures Diff(a, b).days == 0 <==> a.date == b.date
  {
    EpochDayInjective(a.date, b.date);
    var n := EpochDay(b.date) - EpochDay(a.date);
    assert EpochSeconds(b) - EpochSeconds(a) == n * 86400;
  }

  /** An instant and the same clock time on the next calendar day are one whole day apart. */
  lemma DiffToNextDay(a: Instant, b: Instant)
    requires b.date == NextDay(a.date)
    requires a.hour == b.hour && a.minute == b.minute && a.second == b.second
    requires a.offsetMinutes == b.offsetMinutes
    ensures Diff(a, b) == DateInterval(false, 1)
  {
    NextDayIsOneDayLater(a.date);
    DiffSameClockTime(a, b);
  }
}
