/**
 * The interval routine of the date-time module: `calculate` validates the two
 * date strings, builds two DateTime values and reports the whole days between
 * them, turning any exception thrown after validation into an error entry.
 *
 * PHP's parsers are not modelled: `strtotime` and `new DateTime` are given as
 * partial functions from strings, carried in a DateParsers value.
 */
module DiffCalculator {
  import opened Calendar

  /** What `strtotime` returns: a Unix timestamp, or `false` when it cannot parse. */
  datatype Timestamp = False | Seconds(value: int)

  /** What `new DateTime($s)` does: produce an instant, or throw an Exception with a message. */
  datatype Construction = Built(instant: Instant) | Threw(message: string)

  /** PHP's two date parsers, as given functions of the input string. */
  datatype DateParsers = DateParsers(strtotime: string -> Timestamp, newDateTime: string -> Construction)

  /**
   * The two parsers read the string `s` the same way: when `new DateTime` builds
   * an instant from it, `strtotime` returns that instant's Unix timestamp. PHP's
   * parsers do not agree on every string (on the empty string `strtotime`
   * fails while `new DateTime` builds the current time), so this is stated per
   * string, for the strings a call is given.
   */
  ghost predicate CoherentOn(p: DateParsers, s: string) {
    p.newDateTime(s).Built? ==> p.strtotime(s) == Seconds(EpochSeconds(p.newDateTime(s).instant))
  }

  datatype ValidationException = ValidationException(message: string)

  /** A value stored in the PHP array that `calculate` returns. */
  datatype Value = Int(n: int) | Str(s: string)

  /** How a call to `calculate` ends: it returns an array, or it throws a ValidationException. */
  datatype Outcome = Returned(entries: map<string, Value>) | Thrown(exception: ValidationException)

  const InvalidStartMessage := "Invalid start date format. Use a valid datetime format (e.g., \"2023-01-01T00:00:00+00:00\")."
  const InvalidEndMessage := "Invalid end date format. Use a valid datetime format (e.g., \"2023-01-01T00:00:00+00:00\")."
  const UnexpectedErrorPrefix := "An unexpected error occurred: "

  /**
   * PHP's `$a > 0` when `$a` is int|false: two ints compare as numbers; `false`
   * against an int compares as booleans, with the int read as `0 != 0`, and
   * `false > x` holds for no boolean x.
   */
  function GreaterThanZero(a: Timestamp): bool {
    match a
    case False => BoolGreater(false, 0 != 0)
    case Seconds(n) => n > 0
  }

  /** PHP's `>` between two booleans, where false < true. */
  function BoolGreater(x: bool, y: bool): bool {
    x && !y
  }

  /** `isValidDateTime`: the string is accepted exactly when strtotime yields a timestamp after the epoch. */
  function IsValidDateTime(p: DateParsers, dateTime: string): (valid: bool)
    ensures valid <==> p.strtotime(dateTime).Seconds? && p.strtotime(dateTime).value > 0
    ensures p.strtotime(dateTime) == False ==> !valid
  {
    GreaterThanZero(p.strtotime(dateTime))
  }

  /** How `validateInputs` ends: it returns, or it throws a ValidationException. */
  datatype Validation = Passed | Failed(exception: ValidationException)

  /** `validateInputs`: the start string is checked first, then the end string. */
  function ValidateInputs(p: DateParsers, startDate: string, endDate: string): (v: Validation)
    ensures v.Passed? <==> IsValidDateTime(p, startDate) && IsValidDateTime(p, endDate)
    ensures !IsValidDateTime(p, startDate) ==> v == Failed(ValidationException(InvalidStartMessage))
    ensures IsValidDateTime(p, startDate) && !IsValidDateTime(p, endDate) ==>
              v == Failed(ValidationException(InvalidEndMessage))
  {
    if !IsValidDateTime(p, startDate) then Failed(ValidationException(InvalidStartMessage))
    else if !IsValidDateTime(p, endDate) then Failed(ValidationException(InvalidEndMessage))
    else Passed
  }

  /** `['result' => $n]` */
  predicate IsResultArray(a: map<string, Value>) {
    a.Keys == {"result"} && a["result"].Int?
  }

  /** `['error' => $message]` */
  predicate IsErrorArray(a: map<string, Value>) {
    a.Keys == {"error"} && a["error"].Str?
  }

  /** `calculate`: validation first; then, inside the try block, construction and diff; `$calculationType` is never read. */
  function Calculate(p: DateParsers, startDate: string, endDate: string, calculationType: string): (r: Outcome)
    // Validation precedence: the start string is judged first, whatever the end string is.
    ensures !IsValidDateTime(p, startDate) ==> r == Thrown(ValidationException(InvalidStartMessage))
    ensures IsValidDateTime(p, startDate) && !IsValidDateTime(p, endDate) ==>
              r == Thrown(ValidationException(InvalidEndMessage))
    ensures r.Thrown? <==> !IsValidDateTime(p, startDate) || !IsValidDateTime(p, endDate)
    // Past validation nothing is thrown: the array holds either a result or an error.
    ensures r.Returned? ==> IsResultArray(r.entries) || IsErrorArray(r.entries)
    // A result is the unsigned count of whole days between the two constructed instants.
    ensures r.Returned? && IsResultArray(r.entries) ==>
              && p.newDateTime(startDate).Built? && p.newDateTime(endDate).Built?
              && var n := r.entries["result"].n;
                 var d := Distance(p.newDateTime(startDate).instant, p.newDateTime(endDate).instant);
                 n >= 0 && n * 86400 <= d < (n + 1) * 86400
    // An error entry carries the message of the first constructor that threw.
    ensures r.Returned? && p.newDateTime(startDate).Threw? ==>
              r.entries == map["error" := Str(UnexpectedErrorPrefix + p.newDateTime(startDate).message)]
    ensures r.Returned? && p.newDateTime(startDate).Built? && p.newDateTime(endDate).Threw? ==>
              r.entries == map["error" := Str(UnexpectedErrorPrefix + p.newDateTime(endDate).message)]
    ensures r.Returned? ==>
              (IsErrorArray(r.entries) <==> p.newDateTime(startDate).Threw? || p.newDateTime(endDate).Threw?)
  {
    match ValidateInputs(p, startDate, endDate)
    case Failed(e) => Thrown(e)
    case Passed =>
      match p.newDateTime(startDate)
      case Threw(message) => Returned(map["error" := Str(UnexpectedErrorPrefix + message)])
      case Built(start) =>
        match p.newDateTime(endDate)
        case Threw(message) => Returned(map["error" := Str(UnexpectedErrorPrefix + message)])
        case Built(end) => Returned(map["result" := Int(Diff(start, end).days)])
  }

  // ---------------------------------------------------------------------------
  // Properties of calculate.

  /** The calculation type has no effect on the outcome. */
  lemma CalculationTypeIgnored(p: DateParsers, startDate: string, endDate: string, type1: string, type2: string)
    ensures Calculate(p, startDate, endDate, type1) == Calculate(p, startDate, endDate, type2)
  {
  }

  /** Once both strings are valid and both instants built, swapping start and end changes nothing: days is unsigned and order is never checked. */
  lemma SwappedDatesSameResult(p: DateParsers, startDate: string, endDate: string, calculationType: string)
    requires IsValidDateTime(p, startDate) && IsValidDateTime(p, endDate)
    requires p.newDateTime(startDate).Built? && p.newDateTime(endDate).Built?
    ensures Calculate(p, startDate, endDate, calculationType) == Calculate(p, endDate, startDate, calculationType)
  {
  }

  /** When the parsers read `s` alike, it is accepted exactly when the instant it denotes lies after the epoch. */
  lemma ValidIffAfterEpoch(p: DateParsers, s: string)
    requires CoherentOn(p, s) && p.newDateTime(s).Built?
    ensures IsValidDateTime(p, s) <==> EpochSeconds(p.newDateTime(s).instant) > 0
  {
  }

  /**
   * When the parsers read the start string alike, a start string naming a UTC instant on or before the
   * epoch (1970-01-01T00:00:00Z itself, or any date before 1970) is rejected as
   * an invalid start, whatever the end string is.
   */
  lemma PreEpochStartRejected(p: DateParsers, startDate: string, endDate: string, calculationType: string)
    requires CoherentOn(p, startDate) && p.newDateTime(startDate).Built?
    requires p.newDateTime(startDate).instant.offsetMinutes == 0
    requires p.newDateTime(startDate).instant.date.year < 1970 || p.newDateTime(startDate).instant == UnixEpoch
    ensures Calculate(p, startDate, endDate, calculationType) == Thrown(ValidationException(InvalidStartMessage))
  {
    UtcEpochPositiveIff(p.newDateTime(startDate).instant);
  }

  /** When the parsers read both strings alike, a result is the whole days between the two strtotime timestamps, both after the epoch. */
  lemma ResultMatchesTimestamps(p: DateParsers, startDate: string, endDate: string, calculationType: string)
    requires CoherentOn(p, startDate) && CoherentOn(p, endDate)
    requires Calculate(p, startDate, endDate, calculationType).Returned?
    requires IsResultArray(Calculate(p, startDate, endDate, calculationType).entries)
    ensures p.strtotime(startDate).Seconds? && p.strtotime(startDate).value > 0
    ensures p.strtotime(endDate).Seconds? && p.strtotime(endDate).value > 0
    ensures Calculate(p, startDate, endDate, calculationType).entries["result"].n
              == Abs(p.strtotime(endDate).value - p.strtotime(startDate).value) / 86400
  {
    var r := Calculate(p, startDate, endDate, calculationType);
    var n := r.entries["result"].n;
    var d := Abs(p.strtotime(endDate).value - p.strtotime(startDate).value);
    assert n * 86400 <= d < (n + 1) * 86400;
  }

  /** Two strings that denote the same instant, even at different offsets, are zero days apart. */
  lemma EqualInstantsGiveZero(p: DateParsers, startDate: string, endDate: string, calculationType: string)
    requires IsValidDateTime(p, startDate) && IsValidDateTime(p, endDate)
    requires p.newDateTime(startDate).Built? && p.newDateTime(endDate).Built?
    requires EpochSeconds(p.newDateTime(startDate).instant) == EpochSeconds(p.newDateTime(endDate).instant)
    ensures Calculate(p, startDate, endDate, calculationType) == Returned(map["result" := Int(0)])
  {
  }

  /** Two strings that denote consecutive calendar dates at the same clock time and offset are one day apart. */
  lemma ConsecutiveDatesGiveOne(p: DateParsers, startDate: string, endDate: string, calculationType: string)
    requires IsValidDateTime(p, startDate) && IsValidDateTime(p, endDate)
    requires p.newDateTime(startDate).Built? && p.newDateTime(endDate).Built?
    requires var a, b := p.newDateTime(startDate).instant, p.newDateTime(endDate).instant;
             && b.date == NextDay(a.date)
             && a.hour == b.hour && a.minute == b.minute && a.second == b.second
             && a.offsetMinutes == b.offsetMinutes
    ensures Calculate(p, startDate, endDate, calculationType) == Returned(map["result" := Int(1)])
  {
    DiffToNextDay(p.newDateTime(startDate).instant, p.newDateTime(endDate).instant);
  }

  // ---------------------------------------------------------------------------
  // Inputs of the module's tests, with the answers the code gives, stated for
  // any parsers that accept both strings and read them as the RFC 3339 fields
  // they spell. Some of these answers differ from what the tests expect.

  /** `new DateTime` builds, from the string s, the instant with these RFC 3339 fields. */
  predicate BuildsInstant(p: DateParsers, s: string, date: Date, hour: int, minute: int, second: int, offsetMinutes: int) {
    && p.newDateTime(s).Built?
    && var t := p.newDateTime(s).instant;
       t.date == date && t.hour == hour && t.minute == minute && t.second == second && t.offsetMinutes == offsetMinutes
  }

  /**
   * Two accepted strings that build instants from these fields, on dates gap
   * days apart, give n when the instants lie between n and n + 1 whole days
   * apart.
   */
  lemma ResultFromFields(p: DateParsers, startDate: string, endDate: string, calculationType: string,
                         date1: Date, hour1: int, minute1: int, second1: int, offset1: int,
                         date2: Date, hour2: int, minute2: int, second2: int, offset2: int, gap: int, n: nat)
    requires IsValidDateTime(p, startDate) && IsValidDateTime(p, endDate)
    requires BuildsInstant(p, startDate, date1, hour1, minute1, second1, offset1)
    requires BuildsInstant(p, endDate, date2, hour2, minute2, second2, offset2)
    requires ValidDate(date1) && ValidDate(date2) && EpochDay(date2) - EpochDay(date1) == gap
    requires var elapsed := gap * 86400 + (hour2 * 3600 + minute2 * 60 + second2) - (hour1 * 3600 + minute1 * 60 + second1)
                            - (offset2 - offset1) * 60;
             n * 86400 <= Abs(elapsed) < (n + 1) * 86400
    ensures Calculate(p, startDate, endDate, calculationType) == Returned(map["result" := Int(n)])
  {
    var a, b := p.newDateTime(startDate).instant, p.newDateTime(endDate).instant;
    assert Distance(a, b) == Abs(gap * 86400 + (hour2 * 3600 + minute2 * 60 + second2) - (hour1 * 3600 + minute1 * 60 + second1)
                                 - (offset2 - offset1) * 60);
  }

  /** 2024-02-28T00:00:00+00:00 to 2024-03-01T00:00:00+00:00: February 29th is counted, 2 days. */
  lemma LeapDayCounted(p: DateParsers, calculationType: string)
    requires IsValidDateTime(p, "2024-02-28T00:00:00+00:00") && IsValidDateTime(p, "2024-03-01T00:00:00+00:00")
    requires BuildsInstant(p, "2024-02-28T00:00:00+00:00", Date(2024, 2, 28), 0, 0, 0, 0)
    requires BuildsInstant(p, "2024-03-01T00:00:00+00:00", Date(2024, 3, 1), 0, 0, 0, 0)
    ensures Calculate(p, "2024-02-28T00:00:00+00:00", "2024-03-01T00:00:00+00:00", calculationType)
            == Returned(map["result" := Int(2)])
  {
    NextDayIsOneDayLater(Date(2024, 2, 28));
    NextDayIsOneDayLater(Date(2024, 2, 29));
    ResultFromFields(p, "2024-02-28T00:00:00+00:00", "2024-03-01T00:00:00+00:00", calculationType,
                     Date(2024, 2, 28), 0, 0, 0, 0,
                     Date(2024, 3, 1), 0, 0, 0, 0, 2, 2);
  }

  /** 2024-01-01T00:00:00+00:00 to 2024-01-03T00:00:00+00:00: 2 days. */
  lemma TwoDaysInJanuary(p: DateParsers, calculationType: string)
    requires IsValidDateTime(p, "2024-01-01T00:00:00+00:00") && IsValidDateTime(p, "2024-01-03T00:00:00+00:00")
    requires BuildsInstant(p, "2024-01-01T00:00:00+00:00", Date(2024, 1, 1), 0, 0, 0, 0)
    requires BuildsInstant(p, "2024-01-03T00:00:00+00:00", Date(2024, 1, 3), 0, 0, 0, 0)
    ensures Calculate(p, "2024-01-01T00:00:00+00:00", "2024-01-03T00:00:00+00:00", calculationType)
            == Returned(map["result" := Int(2)])
  {
    SameMonthGap(Date(2024, 1, 1), Date(2024, 1, 3));
    ResultFromFields(p, "2024-01-01T00:00:00+00:00", "2024-01-03T00:00:00+00:00", calculationType,
                     Date(2024, 1, 1), 0, 0, 0, 0,
                     Date(2024, 1, 3), 0, 0, 0, 0, 2, 2);
  }

  /**
   * 2024-01-01T00:00:00+00:00 to 2024-01-02T02:00:00+02:00 is 24 hours across
   * two offsets: the code gives 1 day, whatever unit the calculation type names
   * (the test asks for hours and expects 24).
   */
  lemma OffsetsAreNormalised(p: DateParsers, calculationType: string)
    requires IsValidDateTime(p, "2024-01-01T00:00:00+00:00") && IsValidDateTime(p, "2024-01-02T02:00:00+02:00")
    requires BuildsInstant(p, "2024-01-01T00:00:00+00:00", Date(2024, 1, 1), 0, 0, 0, 0)
    requires BuildsInstant(p, "2024-01-02T02:00:00+02:00", Date(2024, 1, 2), 2, 0, 0, 120)
    ensures Calculate(p, "2024-01-01T00:00:00+00:00", "2024-01-02T02:00:00+02:00", calculationType)
            == Returned(map["result" := Int(1)])
  {
    SameMonthGap(Date(2024, 1, 1), Date(2024, 1, 2));
    ResultFromFields(p, "2024-01-01T00:00:00+00:00", "2024-01-02T02:00:00+02:00", calculationType,
                     Date(2024, 1, 1), 0, 0, 0, 0,
                     Date(2024, 1, 2), 2, 0, 0, 120, 1, 1);
  }

  /**
   * 2024-01-02T00:00:00+00:00 to 2024-01-01T00:00:00+00:00: the end is before
   * the start, and the code returns 1 day rather than an ordering error.
   */
  lemma EndBeforeStartNotRejected(p: DateParsers, calculationType: string)
    requires IsValidDateTime(p, "2024-01-02T00:00:00+00:00") && IsValidDateTime(p, "2024-01-01T00:00:00+00:00")
    requires BuildsInstant(p, "2024-01-02T00:00:00+00:00", Date(2024, 1, 2), 0, 0, 0, 0)
    requires BuildsInstant(p, "2024-01-01T00:00:00+00:00", Date(2024, 1, 1), 0, 0, 0, 0)
    ensures Calculate(p, "2024-01-02T00:00:00+00:00", "2024-01-01T00:00:00+00:00", calculationType)
            == Returned(map["result" := Int(1)])
  {
    SameMonthGap(Date(2024, 1, 2), Date(2024, 1, 1));
    ResultFromFields(p, "2024-01-02T00:00:00+00:00", "2024-01-01T00:00:00+00:00", calculationType,
                     Date(2024, 1, 2), 0, 0, 0, 0,
                     Date(2024, 1, 1), 0, 0, 0, 0, -1, 1);
  }

  /**
   * 2024-01-01T00:00:00+00:00 to 2024-01-01T00:00:00+02:00: the end is two
   * hours before the start, and the code returns 0 days rather than an
   * ordering error.
   */
  lemma EarlierOffsetNotRejected(p: DateParsers, calculationType: string)
    requires IsValidDateTime(p, "2024-01-01T00:00:00+00:00") && IsValidDateTime(p, "2024-01-01T00:00:00+02:00")
    requires BuildsInstant(p, "2024-01-01T00:00:00+00:00", Date(2024, 1, 1), 0, 0, 0, 0)
    requires BuildsInstant(p, "2024-01-01T00:00:00+02:00", Date(2024, 1, 1), 0, 0, 0, 120)
    ensures Calculate(p, "2024-01-01T00:00:00+00:00", "2024-01-01T00:00:00+02:00", calculationType)
            == Returned(map["result" := Int(0)])
  {
    SameMonthGap(Date(2024, 1, 1), Date(2024, 1, 1));
    ResultFromFields(p, "2024-01-01T00:00:00+00:00", "2024-01-01T00:00:00+02:00", calculationType,
                     Date(2024, 1, 1), 0, 0, 0, 0,
                     Date(2024, 1, 1), 0, 0, 0, 120, 0, 0);
  }
}
