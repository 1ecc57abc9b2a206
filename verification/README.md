# Date difference calculator — Dafny model

This project models the interval routine of the `Aligent_DateTime` Magento
module: `DiffCalculator::calculate($startDate, $endDate, $calculationType)`
and its two helpers `validateInputs` and `isValidDateTime`
(`Model/DiffCalculator.php`). The routine:

1. validates the start string, then the end string: a string is accepted only
   when `strtotime` returns a timestamp strictly greater than 0, so a parse
   failure (`false`), the epoch 1970-01-01T00:00:00Z and every earlier instant
   are rejected; each rejection throws a `ValidationException` with its own
   fixed message;
2. inside a `try` block, builds `new DateTime` for both strings, takes
   `$start->diff($end)` and returns `['result' => $interval->days]`;
3. turns any exception thrown in that block into
   `['error' => 'An unexpected error occurred: ' . $message]`.

`$calculationType` is never read.

Two modules make up the model.

- `calendar.dfy`, module `Calendar`: the date facility the routine relies on.
  An instant is the set of fields of an RFC 3339 `date-time` (section 5.6 of
  RFC 3339) with a numeric offset. Month lengths follow section 5.7 of RFC 3339.
  Leap years follow Appendix C of RFC 3339. Days are counted from 1970-01-01
  in the proleptic Gregorian calendar.
  - There are two day-number definitions: a closed form, `EpochDay`, and a
    reference that sums month and year lengths, `DayNumber`. A lemma proves
    they agree.
  - Further lemmas prove that the day number is strictly increasing and
    injective, that it is zero exactly at 1970-01-01, and that consecutive
    dates are one day apart, including across February 29th.
  - `Diff` models `DateTime::diff`. `days` is the floor of the absolute
    distance in seconds divided by 86400. `invert` says that the end comes
    first.
- `diff_calculator.dfy`, module `DiffCalculator`: the routine itself.
  - The parsers `strtotime` and `new DateTime` are given functions, carried
    in a `DateParsers` value.
  - `strtotime`'s `int|false` result is compared with `0` under PHP's rules,
    where `false > 0` is false.
  - `calculate` returns either the PHP array, as a map from keys to values,
    or a thrown `ValidationException`.
  - `CoherentOn` states that the two parsers read one given string alike:
    when `new DateTime` builds an instant from it, `strtotime` returns that
    instant's Unix timestamp. Lemmas that link validity to the calendar assume
    it for the strings passed to `calculate`, and for no other string. PHP's
    parsers do not agree on every string: on the empty string `strtotime`
    returns `false`, while `new DateTime` builds the current time.

The module's tests expect behaviour the code does not have. They expect
dispatch on `calculationType` (weeks, hours, minutes, seconds, years,
weekdays), rejection of an unknown type, and an "End date must be greater than
or equal to start date." error. The model follows the code:

- the outcome is the same for every calculation type;
- an end before the start yields the unsigned day count;
- the example lemmas state, for inputs taken from the tests, the answer the
  code gives.

`LeapDayCounted` and `TwoDaysInJanuary` give the answers their tests expect.
Three example lemmas state an answer that differs from their test:

- `OffsetsAreNormalised`: the code returns 1 (days), while the test asks for
  hours and expects 24;
- `EndBeforeStartNotRejected` and `EarlierOffsetNotRejected`: the code returns
  a day count, while the tests expect the ordering error.

The interface `Api/DiffCalculatorInterface.php` declares `calculate(...): int`
(line 18), while `Model/DiffCalculator.php` implements it with
`calculate(...): array` (line 27). PHP rejects that return type as
incompatible with the interface when the class is declared, so the class as
written cannot be loaded. The model follows the body of the implementation.

The example lemmas taken from the tests do not derive validity from the
parsers. Each assumes that the parsers accept both strings and read them as
the fields they spell.

## Model

| member | source | states |
|---|---|---|
| `Calendar.DaysInMonth` | Model/DiffCalculator.php:33-34 | month lengths of RFC 3339 section 5.7: 28 to 31 days, 29 exactly for February of a leap year and 28 exactly for February of a common year |
| `Calendar.NextDay` | Model/DiffCalculator.php:37-39 | the calendar successor of a valid date is a valid date and comes strictly later |
| `Calendar.YearStartMatchesReference` | Model/DiffCalculator.php:37-39 | the closed-form count of days before January 1st (365 per year plus the leap years of Appendix C) equals the year-by-year sum, for every integer year, before and after 1970 |
| `Calendar.MonthStartMatchesReference` | Model/DiffCalculator.php:37-39 | the cumulative month table plus the leap-year day after February equals the month-by-month sum of month lengths |
| `Calendar.EpochDayMatchesReference` | Model/DiffCalculator.php:37-39 | the closed-form day number of every valid date equals the day number obtained by counting year and month lengths |
| `Calendar.EpochDayStrictlyIncreasing` | Model/DiffCalculator.php:37-39 | a chronologically later valid date has a strictly larger day number |
| `Calendar.EpochDayInjective` | Model/DiffCalculator.php:37-39 | two valid dates have the same day number if and only if they are the same date |
| `Calendar.EpochDaySign` | Model/DiffCalculator.php:66-69 | the day number is non-negative exactly for years from 1970 on and zero exactly on 1970-01-01 |
| `Calendar.NextDayIsOneDayLater` | Model/DiffCalculator.php:37-39 | consecutive calendar dates are exactly one day apart, across month ends, February 29th of leap years and year ends |
| `Calendar.Diff` | Model/DiffCalculator.php:37-39 | `invert` holds exactly when the end instant is earlier; `days` is the number of whole 86400-second days in the absolute distance: days·86400 ≤ distance < (days+1)·86400 |
| `Calendar.UtcEpochPositiveIff` | Model/DiffCalculator.php:66-69 | a UTC instant has a positive Unix timestamp exactly when it is in 1970 or later and is not 1970-01-01T00:00:00Z; its timestamp is zero exactly at that instant |
| `Calendar.DiffSameClockTime` | Model/DiffCalculator.php:37-39 | two instants with the same clock time and offset are as many days apart as their dates' day numbers differ, and zero days apart exactly when the dates are equal |
| `Calendar.DiffToNextDay` | Model/DiffCalculator.php:37-39 | the same clock time and offset on the next calendar day gives a diff of exactly one day, not inverted |
| `DiffCalculator.IsValidDateTime` | Model/DiffCalculator.php:66-69 | a string is valid exactly when `strtotime` returns a timestamp and that timestamp is greater than 0; a `false` result is never valid under PHP's comparison of `false` with `0` |
| `DiffCalculator.ValidateInputs` | Model/DiffCalculator.php:53-64 | passes exactly when both strings are valid; an invalid start throws the start message whatever the end is; a valid start and an invalid end throws the end message |
| `DiffCalculator.Calculate` | Model/DiffCalculator.php:23-45 | the start check takes precedence over the end check; a ValidationException is thrown exactly when a string is invalid; past validation the array has the single key `result` or the single key `error`; a result is a non-negative whole-day count with n·86400 ≤ distance < (n+1)·86400 between the two built instants; an error entry carries the prefix and the message of the first constructor that threw, and appears exactly when a constructor threw |
| `DiffCalculator.CalculationTypeIgnored` | Model/DiffCalculator.php:23-45 | the outcome is the same for any two calculation types |
| `DiffCalculator.SwappedDatesSameResult` | Model/DiffCalculator.php:37-41 | once both strings are valid and both instants are built, swapping start and end gives the same outcome (no ordering check, unsigned days) |
| `DiffCalculator.ValidIffAfterEpoch` | Model/DiffCalculator.php:66-69 | when the two parsers read that one string alike, a string that builds an instant is valid exactly when that instant's Unix timestamp is positive |
| `DiffCalculator.PreEpochStartRejected` | Model/DiffCalculator.php:57-59 | when the two parsers read the start string alike, a start string that denotes 1970-01-01T00:00:00Z or any UTC instant before 1970 throws the invalid-start exception, whatever the end string |
| `DiffCalculator.ResultMatchesTimestamps` | Model/DiffCalculator.php:29-41 | when the two parsers read each of the two strings alike, a result implies both `strtotime` timestamps are positive, and the result equals their absolute difference divided by 86400, rounded down |
| `DiffCalculator.EqualInstantsGiveZero` | Test/Api/AligentDateTimeWebApiTest.php:150-169 | two valid strings that denote the same instant, even at different offsets, give `['result' => 0]` |
| `DiffCalculator.ConsecutiveDatesGiveOne` | Model/DiffCalculator.php:33-41 | two valid strings that denote consecutive dates at the same clock time and offset give `['result' => 1]` |
| `DiffCalculator.LeapDayCounted` | Test/Api/AligentDateTimeWebApiTest.php:171-190 | 2024-02-28T00:00:00+00:00 to 2024-03-01T00:00:00+00:00 gives `['result' => 2]` |
| `DiffCalculator.TwoDaysInJanuary` | Test/Unit/Model/DiffCalculatorTest.php:90 | 2024-01-01T00:00:00+00:00 to 2024-01-03T00:00:00+00:00 gives `['result' => 2]` |
| `DiffCalculator.OffsetsAreNormalised` | Test/Api/AligentDateTimeWebApiTest.php:192-211 | 2024-01-01T00:00:00+00:00 to 2024-01-02T02:00:00+02:00 (24 hours apart) gives `['result' => 1]` whatever the calculation type, where the test asks for hours and expects 24 |
| `DiffCalculator.EndBeforeStartNotRejected` | Test/Unit/Model/DiffCalculatorTest.php:150 | 2024-01-02T00:00:00+00:00 to 2024-01-01T00:00:00+00:00 gives `['result' => 1]`, not an ordering error |
| `DiffCalculator.EarlierOffsetNotRejected` | Test/Unit/Model/DiffCalculatorTest.php:151 | 2024-01-01T00:00:00+00:00 to 2024-01-01T00:00:00+02:00 (the end two hours earlier) gives `['result' => 0]`, not an ordering error |

## Left out

- String parsing: `strtotime` and the `DateTime` constructor are foreign library calls. They are given functions here. The formats they accept, and the default time zone they apply to strings without an offset, are not modelled.
- Day overflow: PHP's parser reads a string such as `2023-02-30` as 2023-03-02. That normalisation happens inside the parser, and the instants it hands over here already have in-range fields.
- Named time zones such as `Asia/Dubai`, and daylight-saving transitions: instants carry a fixed UTC offset only.
- Fractional seconds: PHP's `DateTime` keeps microseconds, and an instant here has whole seconds.
- Leap seconds: `second` ranges over 0–59, so RFC 3339's `60` is not accepted.
- Year range: RFC 3339 limits the year to four digits. The calendar here covers every integer year, as PHP's `DateTime` accepts years outside that range.
- Integer width: PHP's 64-bit integers are unbounded integers here. Timestamps of the years that can be written in four digits fit in 64 bits.
- The `y`, `m`, `d`, `h`, `i`, `s` and `f` fields of `DateInterval`: `calculate` reads only `days`.
- Relative strings such as `now` or `tomorrow`: `strtotime` and `new DateTime` each read the clock, so a second may pass between the two calls and the two parsers may disagree on such a string. The lemmas that assume `CoherentOn` say nothing about such a call.
- Message translation: the `__()` wrapper is taken to return the English message unchanged.
- Unit dispatch on `calculationType`, the "Invalid calculation type." check and the "End date must be greater than or equal to start date." check: the tests expect them, but the implementation does not contain them.
- `Model/Resolver/DiffCalculatorQuery.php`, which extracts the GraphQL arguments, lower-cases the type and maps exceptions, is not part of this model.
- `Model/Result.php` and `Api/Data/ResultInterface.php`, a key-value result object that `calculate` never uses, are not part of this model.
