/** Concrete queries against the tables, for any lunar converter. */
module Scenarios {
  import opened Dates
  import opened Parsing
  import opened Sorting
  import opened Holidays

  /** The calendar fields of a `DDDD-DD-DD` string, before any date check. */
  lemma DateFields(s: string)
    requires IsDateShaped(s)
    ensures DecimalValue(s[..4])
         == 1000 * DigitValue(s[0]) + 100 * DigitValue(s[1]) + 10 * DigitValue(s[2]) + DigitValue(s[3])
    ensures DecimalValue(s[5..7]) == 10 * DigitValue(s[5]) + DigitValue(s[6])
    ensures DecimalValue(s[8..]) == 10 * DigitValue(s[8]) + DigitValue(s[9])
  {
    DecimalValueOfFour(s[..4]);
    DecimalValueOfTwo(s[5..7]);
    DecimalValueOfTwo(s[8..]);
  }

  /** A `YYYY-MM-DD` string reads as the date it spells. */
  lemma ReadsAs(s: string, d: Date)
    requires IsDateShaped(s) && IsValidDate(d) && MinYear <= d.year
    requires d.year == 1000 * DigitValue(s[0]) + 100 * DigitValue(s[1]) + 10 * DigitValue(s[2]) + DigitValue(s[3])
    requires d.month == 10 * DigitValue(s[5]) + DigitValue(s[6])
    requires d.day == 10 * DigitValue(s[8]) + DigitValue(s[9])
    ensures ParseDate(s) == Some(d)
  {
    DateFields(s);
  }

  /** A fixed solar day, written out, is a holiday whatever the lunar conversion says. */
  lemma FixedDayIsHoliday(conv: LunarConverter, s: string, year: int, i: int)
    requires MinYear <= year <= MaxYear && 0 <= i < |FixedSolarTable|
    requires ParseDate(s) == Some(Date(year, FixedSolarTable[i].month, FixedSolarTable[i].day))
    ensures IsHoliday(conv, s) == Ok(true)
  {
    assert AllHolidays(conv, year).value[i] == ParseDate(s).value;
  }

  /** A year-specific day, written out, is a holiday whatever the lunar conversion says. */
  lemma SpecificDayIsHoliday(conv: LunarConverter, s: string, year: int, j: int)
    requires MinYear <= year <= MaxYear && 0 <= j < |SpecificFor(year)|
    requires ParseDate(s) == Some(Date(year, SpecificFor(year)[j].month, SpecificFor(year)[j].day))
    ensures IsHoliday(conv, s) == Ok(true)
  {
    assert AllHolidays(conv, year).value[|FixedSolarTable| + j] == ParseDate(s).value;
  }

  lemma NewYearsDay2024(conv: LunarConverter)
    ensures IsHoliday(conv, "2024-01-01") == Ok(true)
  {
    ReadsAs("2024-01-01", Date(2024, 1, 1));
    FixedDayIsHoliday(conv, "2024-01-01", 2024, 0);
  }

  lemma MemorialDay2024(conv: LunarConverter)
    ensures IsHoliday(conv, "2024-06-06") == Ok(true)
  {
    ReadsAs("2024-06-06", Date(2024, 6, 6));
    FixedDayIsHoliday(conv, "2024-06-06", 2024, 3);
  }

  lemma Christmas2024(conv: LunarConverter)
    ensures IsHoliday(conv, "2024-12-25") == Ok(true)
  {
    ReadsAs("2024-12-25", Date(2024, 12, 25));
    FixedDayIsHoliday(conv, "2024-12-25", 2024, 7);
  }

  lemma SeollalSubstitute2024(conv: LunarConverter)
    ensures IsHoliday(conv, "2024-02-12") == Ok(true)
  {
    ReadsAs("2024-02-12", Date(2024, 2, 12));
    SpecificDayIsHoliday(conv, "2024-02-12", 2024, 0);
  }

  lemma IndependenceSubstitute2025(conv: LunarConverter)
    ensures IsHoliday(conv, "2025-03-03") == Ok(true)
  {
    ReadsAs("2025-03-03", Date(2025, 3, 3));
    SpecificDayIsHoliday(conv, "2025-03-03", 2025, 0);
  }

  lemma BuddhaSubstitute2026(conv: LunarConverter)
    ensures IsHoliday(conv, "2026-05-25") == Ok(true)
  {
    ReadsAs("2026-05-25", Date(2026, 5, 25));
    SpecificDayIsHoliday(conv, "2026-05-25", 2026, 1);
  }

  /** A date of 2024 that no solar table lists is a holiday only if a lunar date
      lands on it. */
  lemma UnlistedDay2024(conv: LunarConverter, s: string, d: Date)
    requires ParseDate(s) == Some(d) && d.year == 2024
    requires forall i :: 0 <= i < |FixedSolarTable| ==> d != Date(2024, FixedSolarTable[i].month, FixedSolarTable[i].day)
    requires d != Date(2024, 2, 12) && d != Date(2024, 5, 6)
    ensures IsHoliday(conv, s) == Ok(d in LunarDates(conv, 2024, LunarTable))
  {
    var fixed := FixedAndSpecificHolidays(2024).value;
    assert SpecificFor(2024) == [MonthDay(2, 12), MonthDay(5, 6)];
    assert d !in fixed;
  }

  lemma April22nd2024(conv: LunarConverter)
    ensures IsHoliday(conv, "2024-04-22") == Ok(Date(2024, 4, 22) in LunarDates(conv, 2024, LunarTable))
  {
    ReadsAs("2024-04-22", Date(2024, 4, 22));
    UnlistedDay2024(conv, "2024-04-22", Date(2024, 4, 22));
  }

  lemma LabourDay2024(conv: LunarConverter)
    ensures IsHoliday(conv, "2024-05-01") == Ok(Date(2024, 5, 1) in LunarDates(conv, 2024, LunarTable))
  {
    ReadsAs("2024-05-01", Date(2024, 5, 1));
    UnlistedDay2024(conv, "2024-05-01", Date(2024, 5, 1));
  }

  lemma ElectionDay2024(conv: LunarConverter)
    ensures IsHoliday(conv, "2024-04-10") == Ok(Date(2024, 4, 10) in LunarDates(conv, 2024, LunarTable))
  {
    ReadsAs("2024-04-10", Date(2024, 4, 10));
    UnlistedDay2024(conv, "2024-04-10", Date(2024, 4, 10));
  }

  /** February 30 does not exist, so the string is refused. */
  lemma February30Refused(conv: LunarConverter)
    ensures IsHoliday(conv, "2024-02-30") == Err(InvalidDateFormat)
  {
    DateFields("2024-02-30");
  }

  /** A year string with letters in it is refused. */
  lemma LettersInYearRefused(conv: LunarConverter)
    ensures YearHolidays(conv, "20XX") == Err(InvalidYearFormat)
  {
    assert "20XX"[2] == 'X';
  }

  /** Year 0 is below what `datetime` accepts. */
  lemma YearZeroRefused(conv: LunarConverter)
    ensures YearHolidays(conv, "0") == Err(YearOutOfRange)
  {
    assert "0"[..0] == [];
  }

  /** The dates the fixed and year-specific tables give 2024, in table order. */
  lemma FixedAndSpecific2024()
    ensures FixedAndSpecificHolidays(2024) == Ok([
      Date(2024, 1, 1), Date(2024, 3, 1), Date(2024, 5, 5), Date(2024, 6, 6),
      Date(2024, 8, 15), Date(2024, 10, 3), Date(2024, 10, 9), Date(2024, 12, 25),
      Date(2024, 2, 12), Date(2024, 5, 6)])
  {
    assert SpecificFor(2024) == [MonthDay(2, 12), MonthDay(5, 6)];
    var fixed := InYear(2024, FixedSolarTable);
    var specific := InYear(2024, SpecificFor(2024));
    assert fixed == [
      Date(2024, 1, 1), Date(2024, 3, 1), Date(2024, 5, 5), Date(2024, 6, 6),
      Date(2024, 8, 15), Date(2024, 10, 3), Date(2024, 10, 9), Date(2024, 12, 25)];
    assert specific == [Date(2024, 2, 12), Date(2024, 5, 6)];
    TablesAreValid(2024);
    assert AllValid(fixed + specific);
    assert FixedAndSpecificHolidays(2024) == Ok(fixed + specific);
    assert fixed + specific == [
      Date(2024, 1, 1), Date(2024, 3, 1), Date(2024, 5, 5), Date(2024, 6, 6),
      Date(2024, 8, 15), Date(2024, 10, 3), Date(2024, 10, 9), Date(2024, 12, 25),
      Date(2024, 2, 12), Date(2024, 5, 6)];
  }

  /** The lunar part of 2024 for a converter that places Seollal on February 10,
      Buddha's Birthday on May 15 and Chuseok on September 17. */
  lemma Lunar2024(conv: LunarConverter)
    requires conv(2024, 1, 1) == Date(2024, 2, 10)
    requires conv(2024, 4, 8) == Date(2024, 5, 15)
    requires conv(2024, 8, 15) == Date(2024, 9, 17)
    ensures LunarDates(conv, 2024, LunarTable) == [
      Date(2024, 2, 10), Date(2024, 2, 9), Date(2024, 2, 11), Date(2024, 5, 15),
      Date(2024, 9, 17), Date(2024, 9, 16), Date(2024, 9, 18)]
  {
    LunarTableDates(conv, 2024);
    assert AddDays(Date(2024, 2, 10), -1) == Date(2024, 2, 9);
    assert AddDays(Date(2024, 2, 10), 1) == Date(2024, 2, 11);
    assert AddDays(Date(2024, 9, 17), -1) == Date(2024, 9, 16);
    assert AddDays(Date(2024, 9, 17), 1) == Date(2024, 9, 18);
  }

  /** The 2024 holidays in calendar order, in three stretches of the year. */
  const Winter2024: seq<Date> :=
    [Date(2024, 1, 1), Date(2024, 2, 9), Date(2024, 2, 10), Date(2024, 2, 11), Date(2024, 2, 12)]
  const Spring2024: seq<Date> :=
    [Date(2024, 3, 1), Date(2024, 5, 5), Date(2024, 5, 6), Date(2024, 5, 15), Date(2024, 6, 6)]
  const Autumn2024: seq<Date> :=
    [Date(2024, 8, 15), Date(2024, 9, 16), Date(2024, 9, 17), Date(2024, 9, 18),
     Date(2024, 10, 3), Date(2024, 10, 9), Date(2024, 12, 25)]
  const Expected2024: seq<Date> := Winter2024 + Spring2024 + Autumn2024

  lemma Winter2024Ascending()
    ensures StrictlyAscending(Winter2024)
  {
  }

  lemma Spring2024Ascending()
    ensures StrictlyAscending(Spring2024)
  {
  }

  lemma Autumn2024Ascending()
    ensures StrictlyAscending(Autumn2024)
  {
  }

  lemma Expected2024Ascending()
    ensures StrictlyAscending(Expected2024)
  {
    Winter2024Ascending();
    Spring2024Ascending();
    Autumn2024Ascending();
    AscendingConcat(Winter2024, Spring2024);
    AscendingConcat(Winter2024 + Spring2024, Autumn2024);
  }

  lemma Expected2024Elements()
    ensures Elements(Expected2024) == Elements([
      Date(2024, 1, 1), Date(2024, 3, 1), Date(2024, 5, 5), Date(2024, 6, 6),
      Date(2024, 8, 15), Date(2024, 10, 3), Date(2024, 10, 9), Date(2024, 12, 25),
      Date(2024, 2, 12), Date(2024, 5, 6)]) + Elements([
      Date(2024, 2, 10), Date(2024, 2, 9), Date(2024, 2, 11), Date(2024, 5, 15),
      Date(2024, 9, 17), Date(2024, 9, 16), Date(2024, 9, 18)])
  {
  }

  /** The whole 2024 list for such a converter: seventeen distinct dates in
      calendar order, the substitute day February 12 right after Seollal's window. */
  lemma Holidays2024(conv: LunarConverter)
    requires conv(2024, 1, 1) == Date(2024, 2, 10)
    requires conv(2024, 4, 8) == Date(2024, 5, 15)
    requires conv(2024, 8, 15) == Date(2024, 9, 17)
    ensures YearHolidays(conv, "2024") == Ok(Expected2024)
  {
    DecimalValueOfFour("2024");
    assert ParseYear("2024") == Some(2024);
    FixedAndSpecific2024();
    Lunar2024(conv);
    Expected2024Ascending();
    Expected2024Elements();
    AscendingUnique(Expected2024, YearHolidays(conv, "2024").value);
  }
  /** With the 2024 lunar dates, a 2024 date outside the seventeen of `Expected2024`
      is not a holiday. */
  lemma NotHoliday2024(conv: LunarConverter, s: string)
    requires conv(2024, 1, 1) == Date(2024, 2, 10)
    requires conv(2024, 4, 8) == Date(2024, 5, 15)
    requires conv(2024, 8, 15) == Date(2024, 9, 17)
    requires ParseDate(s).Some? && s[..4] == "2024"
    requires ParseDate(s).value !in Expected2024
    ensures IsHoliday(conv, s) == Ok(false)
  {
    IsHolidayAgreesWithYearHolidays(conv, s);
    Holidays2024(conv);
  }

  lemma April22nd2024NotHoliday(conv: LunarConverter)
    requires conv(2024, 1, 1) == Date(2024, 2, 10)
    requires conv(2024, 4, 8) == Date(2024, 5, 15)
    requires conv(2024, 8, 15) == Date(2024, 9, 17)
    ensures IsHoliday(conv, "2024-04-22") == Ok(false)
  {
    ReadsAs("2024-04-22", Date(2024, 4, 22));
    NotHoliday2024(conv, "2024-04-22");
  }

  /** The day after New Year's Day is not a holiday. */
  lemma January2nd2024NotHoliday(conv: LunarConverter)
    requires conv(2024, 1, 1) == Date(2024, 2, 10)
    requires conv(2024, 4, 8) == Date(2024, 5, 15)
    requires conv(2024, 8, 15) == Date(2024, 9, 17)
    ensures IsHoliday(conv, "2024-01-02") == Ok(false)
  {
    ReadsAs("2024-01-02", Date(2024, 1, 2));
    NotHoliday2024(conv, "2024-01-02");
  }

  /** A weekday in July is not a holiday. */
  lemma July1st2024NotHoliday(conv: LunarConverter)
    requires conv(2024, 1, 1) == Date(2024, 2, 10)
    requires conv(2024, 4, 8) == Date(2024, 5, 15)
    requires conv(2024, 8, 15) == Date(2024, 9, 17)
    ensures IsHoliday(conv, "2024-07-01") == Ok(false)
  {
    ReadsAs("2024-07-01", Date(2024, 7, 1));
    NotHoliday2024(conv, "2024-07-01");
  }
}
