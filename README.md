# holidayskr: the holiday-resolution engine, in Dafny

This project models the core of `holidayskr`, a Python package that answers
"is this date a South Korean public holiday?" and "which days of this year are
public holidays?". For a Gregorian year, `holidayskr/core.py` merges three
hard-coded tables into one collection of calendar dates:

- eight fixed solar days (`MM-DD`, the same every year);
- three lunar holidays (Seollal 1/1, Buddha's Birthday 4/8, Chuseok 8/15).
  Each is converted to a solar date for the year. Seollal and Chuseok (lunar
  months 1 and 8) also add the day before and the day after;
- substitute days registered for particular years (2024, 2025, 2026).

`is_holiday(date_str)` parses a `YYYY-MM-DD` string and tests membership in
that year's set. `year_holidays(year_str)` parses a decimal year and returns
`sorted(set(...))` of the same collection. Both raise `ValueError` on bad
input (one exception is listed under "## Left out"). The model returns
`Err(...)` in those cases instead.

Layout, one module per file:

- `dates.dfy` (`Dates`): dates, the Gregorian leap rule, month lengths. It has a
  day ordinal (0001-01-01 is day 1, as in Python's `date.toordinal`) and
  `Next`, `Prev` and `AddDays` for `date + timedelta(days=k)`.
- `sorting.dfy` (`Sorting`): `sorted(set(xs))` on dates, as `SortedSet`. It
  also proves that a strictly ascending list is fixed by its set of elements.
- `parsing.dfy` (`Parsing`): strict `YYYY-MM-DD` and decimal-year parsing,
  with round trips against formatting.
- `holidays.dfy` (`Holidays`): the three tables, the lunar-conversion wrapper,
  `get_fixed_and_specific_holidays`, `get_lunar_holidays` (a method with a
  loop, as in the source), `is_holiday` and `year_holidays`.
- `scenarios.dfy` (`Scenarios`): concrete queries, most of them from the
  package's tests. They are proved for every lunar converter, or for a
  converter that places the 2024 lunar holidays on 2024-02-10, 2024-05-15
  and 2024-09-17.

The lunar calendar library (`korean_lunar_calendar`) is not part of this
model. Its conversion is a parameter `conv: (int, int, int) -> CalendarDate`.
The only thing assumed about it is that it returns an existing calendar date.
`ConvertLunarToSolar(conv, y, m, d, adjust)` is that date moved by `adjust`
calendar days.

Three things `core.py` does that are easy to miss:

- It returns bare dates with duplicates removed (`sorted(set(...))`). It does
  not return (date, name) pairs, and it does not keep two holidays that fall
  on the same date.
- It checks no year range of its own. `datetime` refuses years outside 1 to
  9999, and the lunar library refuses years outside its own table. The model
  uses the range `datetime` accepts, 1 to 9999. Because the converter is a
  total parameter, the library's narrower range is not modelled (see
  "## Left out").
- It has no load-time integrity check. The model proves instead that the
  tables have no duplicate entries and that every entry exists in the year it
  is dated in (`TablesHaveNoDuplicates`, `TablesAreValid`).

The package's tests also expect `2024-05-01` and `2024-04-10` to be holidays.
Neither date is in the tables of `core.py`. `LabourDay2024` and
`ElectionDay2024` show that the code calls them holidays only when a lunar
date lands on them. `Holidays2024` gives the full 2024 list for a converter
that places the lunar holidays on 2024-02-10, 2024-05-15 and 2024-09-17. That
list contains neither date.

## Model

| member | source | states |
|---|---|---|
| `Dates.DaysInMonth` | holidayskr/core.py:51-52 | a month has 28 to 31 days; 29 exactly for February of a leap year and 28 exactly for February otherwise (the calendar check `datetime` makes on every date) |
| `Dates.Next` | holidayskr/core.py:47 | the next calendar day is a valid date whose ordinal is one more |
| `Dates.Prev` | holidayskr/core.py:47 | the previous calendar day is a valid date whose ordinal is one less |
| `Dates.AddDays` | holidayskr/core.py:47 | `d + timedelta(days=k)` is a valid date exactly `k` days after `d` (before it when `k < 0`) |
| `Dates.DaysBeforeYearStep` | holidayskr/core.py:47 | the first day of year y+1 is 366 days after that of y in a leap year, 365 otherwise |
| `Dates.BeforeIsOrdinalOrder` | holidayskr/core.py:92 | comparing dates by (year, month, day) is the same as comparing their day ordinals: the order `sorted` uses is calendar order |
| `Dates.OrdinalInjective` | holidayskr/core.py:47 | two valid dates with the same ordinal are the same date |
| `Dates.AddDaysCompose` | holidayskr/core.py:47 | shifting by j and then by k days is shifting by j + k days |
| `Dates.NextIsImmediate` | holidayskr/core.py:47 | `Next(d)` is after `d` and no valid date lies strictly between them |
| `Dates.NextPrevInverse` | holidayskr/core.py:47 | one day forward then back, or back then forward, returns the same date |
| `Sorting.Insert` | holidayskr/core.py:92 | inserting into a strictly ascending list keeps it strictly ascending; the elements become the old ones plus x; the length grows only if x was absent |
| `Sorting.SortedSet` | holidayskr/core.py:92 | `sorted(set(xs))` is strictly ascending, holds exactly the elements of xs and is no longer than xs |
| `Sorting.AscendingIsDistinct` | holidayskr/core.py:92 | a strictly ascending list has no repeated date |
| `Sorting.AscendingCardinality` | holidayskr/core.py:92 | a strictly ascending list is as long as its set of elements |
| `Sorting.AscendingConcat` | holidayskr/core.py:92 | two strictly ascending lists, the first ending before the second starts, join into a strictly ascending list (the order is transitive) |
| `Sorting.AscendingUnique` | holidayskr/core.py:92 | two strictly ascending lists with the same elements are equal, so the sorted set is determined by the set |
| `Parsing.ParseYear` | holidayskr/core.py:87-90 | a year string is accepted exactly when it is a non-empty string of decimal digits, and gives a non-negative value |
| `Parsing.ParseYearRoundTrip` | holidayskr/core.py:87-88 | the decimal form of every natural number is read back as that number |
| `Parsing.ParseDate` | holidayskr/core.py:69-72 | an accepted `YYYY-MM-DD` string has the shape DDDD-DD-DD and gives a valid date in years 1..9999 |
| `Parsing.ParseFormatRoundTrip` | holidayskr/core.py:69-72 | every valid date in years 1..9999 is read back from its own `YYYY-MM-DD` form (nothing valid is refused) |
| `Parsing.FormatParseRoundTrip` | holidayskr/core.py:69-72 | a string that parses is exactly the `YYYY-MM-DD` form of its date (no other spelling is accepted) |
| `Parsing.ParseDateYearField` | holidayskr/core.py:74 | the year of a parsed date is the year its first four characters give when read on their own |
| `Holidays.ConvertLunarToSolar` | holidayskr/core.py:42-47 | the wrapper's result is a valid date exactly `adjust` days from the library's date for the same lunar date |
| `Holidays.ConvertAdjustIsShift` | holidayskr/core.py:45-47 | with offset 0 the wrapper returns the library's date; offset j + k is offset j moved k more days, so the offset never changes the lunar reading |
| `Holidays.TablesAreValid` | holidayskr/core.py:5-40 | every fixed entry exists in every year; every year-specific entry exists in the year it is registered under |
| `Holidays.TablesHaveNoDuplicates` | holidayskr/core.py:5-40 | no table lists the same month and day twice |
| `Holidays.FixedAndSpecificHolidays` | holidayskr/core.py:49-53 | succeeds exactly for years 1..9999; has 8 + \|specific(year)\| entries, all valid and dated in the year: the fixed days in table order, then the year's specific days |
| `Holidays.RuleDates` | holidayskr/core.py:58-64 | a lunar rule gives its converted date first; for months 1 and 8 it gives three dates, the day before and the day after being one ordinal below and above |
| `Holidays.GetLunarHolidays` | holidayskr/core.py:55-65 | the loop appends each rule's dates in table order, giving the rule-by-rule concatenation |
| `Holidays.RuleDatesShape` | holidayskr/core.py:58-64 | a lunar rule's dates are exactly its converted date, followed for months 1 and 8 by that date moved one day back and one day forward |
| `Holidays.LunarTableDates` | holidayskr/core.py:17-21 | the lunar part is Seollal, its day before and its day after, then Buddha's Birthday, then Chuseok and its two neighbours: seven dates |
| `Holidays.AllHolidays` | holidayskr/core.py:75 | the merged list exists exactly for years 1..9999, has 8 + \|specific\| + 7 entries, holds only valid dates, and its dates are exactly those of the fixed/specific part and of the lunar part |
| `Holidays.IsHoliday` | holidayskr/core.py:67-77 | fails with an invalid-date-format error exactly when the string does not parse; otherwise true iff the date is in the fixed/specific part or the lunar part of its year |
| `Holidays.YearHolidays` | holidayskr/core.py:85-93 | a non-decimal year fails with an invalid-year-format error, a year outside 1..9999 with an out-of-range error; otherwise the list is strictly ascending, holds only valid dates and holds exactly the union of both parts |
| `Holidays.IsHolidayAgreesWithYearHolidays` | holidayskr/core.py:75-77 | for a parsable date string, `is_holiday` is true iff its date is in `year_holidays` of its year field |
| `Holidays.IsHolidayIffListed` | holidayskr/core.py:92 | for every valid date in years 1..9999, `is_holiday` of its `date.isoformat()` form is true iff the date is in `year_holidays(str(year))` |
| `Holidays.YearHolidaysIsSortedSet` | holidayskr/core.py:92 | the year list has no duplicates, strictly increasing ordinals, length equal to its number of distinct dates, and is the only ascending arrangement of its set |
| `Holidays.FixedHolidayEveryYear` | holidayskr/core.py:51 | every fixed solar day, dated in the year, is in the year list of every year 1..9999 |
| `Holidays.SpecificHolidayInItsYear` | holidayskr/core.py:52 | every year-specific day is in the year list of the year it is registered under |
| `Holidays.UnlistedYearHasOnlyFixedDays` | holidayskr/core.py:52-53 | a year without a table entry gets exactly the eight fixed days from the solar tables |
| `Holidays.LunarDatesListed` | holidayskr/core.py:92 | every lunar date of a supported year is in its year list |
| `Holidays.FestivalWindows` | holidayskr/core.py:60-64 | Seollal and Chuseok, each with its day before and day after, and Buddha's Birthday are in the year list |
| `Scenarios.NewYearsDay2024` | tests/test_core.py:26 | `is_holiday("2024-01-01")` is true for every converter |
| `Scenarios.MemorialDay2024` | tests/test_core.py:30 | `is_holiday("2024-06-06")` is true for every converter |
| `Scenarios.Christmas2024` | tests/test_core.py:29 | `is_holiday("2024-12-25")` is true for every converter |
| `Scenarios.SeollalSubstitute2024` | tests/test_core.py:53 | `is_holiday("2024-02-12")` is true for every converter |
| `Scenarios.IndependenceSubstitute2025` | tests/test_core.py:55 | `is_holiday("2025-03-03")` is true for every converter |
| `Scenarios.BuddhaSubstitute2026` | tests/test_core.py:56 | `is_holiday("2026-05-25")` is true for every converter |
| `Scenarios.April22nd2024` | tests/test_core.py:32 | 2024-04-22 is a holiday iff a lunar date of 2024 lands on it |
| `Scenarios.LabourDay2024` | tests/test_core.py:28 | 2024-05-01 is a holiday iff a lunar date of 2024 lands on it; it is not in the tables |
| `Scenarios.ElectionDay2024` | tests/test_core.py:31 | 2024-04-10 is a holiday iff a lunar date of 2024 lands on it; it is not in the tables |
| `Scenarios.NotHoliday2024` | holidayskr/core.py:75-77 | under the three 2024 conversions, a `YYYY-MM-DD` string of 2024 whose date is not one of the seventeen of `Expected2024` is not a holiday |
| `Scenarios.April22nd2024NotHoliday` | tests/test_core.py:32 | under the three 2024 conversions, `is_holiday("2024-04-22")` is false, as the test expects |
| `Scenarios.January2nd2024NotHoliday` | tests/test_core.py:88 | under the three 2024 conversions, `is_holiday("2024-01-02")` is false, as the test expects |
| `Scenarios.July1st2024NotHoliday` | tests/test_core.py:89 | under the three 2024 conversions, `is_holiday("2024-07-01")` is false, as the test expects |
| `Scenarios.February30Refused` | tests/test_core.py:77-79 | `is_holiday("2024-02-30")` fails with an invalid-date-format error |
| `Scenarios.LettersInYearRefused` | tests/test_core.py:81-83 | `year_holidays("20XX")` fails with an invalid-year-format error |
| `Scenarios.YearZeroRefused` | holidayskr/core.py:51 | `year_holidays("0")` fails with an out-of-range error, where `datetime(0, ...)` raises |
| `Scenarios.FixedAndSpecific2024` | holidayskr/core.py:49-53 | the solar part of 2024 is the eight fixed days then 2024-02-12 and 2024-05-06 |
| `Scenarios.Lunar2024` | tests/test_core.py:64-67 | with Seollal on 2024-02-10, Buddha's Birthday on 2024-05-15 and Chuseok on 2024-09-17, the lunar part is exactly 02-10, 02-09, 02-11, 05-15, 09-17, 09-16, 09-18, in that order (the tests name Seollal and Chuseok; the Buddha's Birthday date is an assumption of this lemma) |
| `Scenarios.Holidays2024` | holidayskr/core.py:85-93 | for such a converter, `year_holidays("2024")` is exactly seventeen dates in calendar order |

## Left out

- `today_is_holiday` (core.py:79-83) reads the wall clock (UTC now plus nine hours). A clock is not deterministic, so it is not modelled.
- The internals of `korean_lunar_calendar` are not part of this model. The converter is a total function parameter that returns a valid date. The library's refusal of years outside its table, or of invalid lunar dates, is not modelled.
- `download_holiday_data` and `get_holidays`, imported by the tests, are not defined in core.py. They are not modelled.
- Holiday names. core.py returns bare dates, so the tests' `holiday[1]` name lookups have nothing to refer to.
- Python's leniencies are not modelled. `strptime` accepts single-digit month and day fields and a space-padded day (`"2024-01- 1"`). `int()` accepts surrounding whitespace, a sign and underscores. Both accept non-ASCII decimal digits (`"２０２４"`). The model accepts only the strict forms `YYYY-MM-DD` and plain ASCII digits.
- `Parsing.ParseYear`: a signed year such as `"-5"` is refused as an invalid year format. In Python, `int` accepts it and `datetime` then raises: `ValueError` down to -2147483648, `OverflowError` below that.
- `Dates.AddDays`: the model's dates are unbounded. Python raises `OverflowError` when `date + timedelta` leaves years 1..9999, and the model does not. This can only happen for lunar dates next to 0001-01-01 or 9999-12-31, which the converter never returns.
- `Holidays.IsHoliday` and `Holidays.YearHolidays` tell the causes of failure apart. Python raises `ValueError` in almost every case; the exception, a year outside the range of a C `int`, is on the next line.
- `Holidays.YearHolidays`: a year outside the range of a C `int` makes `datetime(year, 1, 1)` at core.py:51 raise `OverflowError`, not `ValueError`. A year of 2147483648 or more is reported by the model as `YearOutOfRange`, as for any other year outside 1..9999; one of -2147483649 or less is refused as `InvalidYearFormat`, as for every signed year.
- `Holidays.YearHolidays`: Python 3.11 and later refuse, in `int()` at core.py:88, a decimal string of more than 4300 digits, so core.py:89-90 reports an invalid year format. The model has no such digit limit: it reads the string as a (huge) year and returns `Err(YearOutOfRange)`.
- `Holidays.FixedAndSpecificHolidays` also has an error path for a table entry that does not exist in the year. Python's `datetime` would raise there. `TablesAreValid` proves the current tables never reach it.
