/** The holiday-resolution engine of `holidayskr/core.py`: three hard-coded
    tables (fixed solar days, lunar holidays, year-specific substitute and
    election days) merged per Gregorian year into one set of dates, with the
    membership query `is_holiday` and the sorted, deduplicated `year_holidays`. */
module Holidays {
  import opened Dates
  import opened Parsing
  import opened Sorting

  /** The exceptions the queries raise, told apart by cause. All are `ValueError`,
      except that a year outside the range of a C `int` makes `datetime` raise
      `OverflowError`: a year of 2147483648 or more is reported here as
      `YearOutOfRange`, one of -2147483649 or less as `InvalidYearFormat`. */
  datatype Error =
    | InvalidDateFormat    // `is_holiday`: the string is not a real `YYYY-MM-DD` date
    | InvalidYearFormat    // `year_holidays`: the string is not a decimal integer
    | YearOutOfRange       // `datetime(year, ...)` outside years 1..9999
    | InvalidCalendarDate  // a table entry that does not exist in the year

  datatype Result<+T> = Ok(value: T) | Err(error: Error)

  /** A `MM-DD` table entry. */
  datatype MonthDay = MonthDay(month: int, day: int)

  /** `FIXED_HOLIDAYS`: New Year's Day, Independence Movement Day, Children's Day,
      Memorial Day, Liberation Day, National Foundation Day, Hangul Day, Christmas. */
  const FixedSolarTable: seq<MonthDay> := [
    MonthDay(1, 1), MonthDay(3, 1), MonthDay(5, 5), MonthDay(6, 6),
    MonthDay(8, 15), MonthDay(10, 3), MonthDay(10, 9), MonthDay(12, 25)
  ]

  /** `LUNAR_HOLIDAYS`, in lunar (month, day): Seollal, Buddha's Birthday, Chuseok. */
  const LunarTable: seq<MonthDay> := [MonthDay(1, 1), MonthDay(4, 8), MonthDay(8, 15)]

  /** The lunar months whose holiday also closes the day before and the day after. */
  const FestivalMonths: set<int> := {1, 8}

  /** `YEAR_SPECIFIC_HOLIDAYS`: substitute holidays per year. */
  const YearSpecificTable: map<int, seq<MonthDay>> := map[
    2024 := [MonthDay(2, 12), MonthDay(5, 6)],
    2025 := [MonthDay(3, 3), MonthDay(5, 6)],
    2026 := [MonthDay(3, 2), MonthDay(5, 25), MonthDay(6, 8), MonthDay(8, 17), MonthDay(10, 5)]
  ]

  /** The lunisolar conversion of the `korean_lunar_calendar` library: the solar
      date of lunar (year, month, day). It is supplied by the caller. */
  type LunarConverter = (int, int, int) -> CalendarDate

  /** `YEAR_SPECIFIC_HOLIDAYS.get(year, [])`. */
  function SpecificFor(year: int): seq<MonthDay>
  {
    if year in YearSpecificTable then YearSpecificTable[year] else []
  }

  /** `convert_lunar_to_solar(year, month, day, adjust)`: the converted date moved by
      `adjust` calendar days; the offset never changes which lunar date is read. */
  function ConvertLunarToSolar(conv: LunarConverter, year: int, month: int, day: int, adjust: int)
    : (r: CalendarDate)
    ensures Ordinal(r) == Ordinal(conv(year, month, day)) + adjust
  {
    AddDays(conv(year, month, day), adjust)
  }

  /** With no offset the wrapper returns the library's date, and an offset of `j + k`
      is the date for offset `j` moved by `k` more days. */
  lemma ConvertAdjustIsShift(conv: LunarConverter, year: int, month: int, day: int, j: int, k: int)
    ensures ConvertLunarToSolar(conv, year, month, day, 0) == conv(year, month, day)
    ensures ConvertLunarToSolar(conv, year, month, day, j + k)
         == AddDays(ConvertLunarToSolar(conv, year, month, day, j), k)
  {
    AddDaysCompose(conv(year, month, day), j, k);
  }

  /** The table entries dated in `year`. */
  function InYear(year: int, mds: seq<MonthDay>): seq<Date>
  {
    seq(|mds|, i requires 0 <= i < |mds| => Date(year, mds[i].month, mds[i].day))
  }

  predicate AllValid(ds: seq<Date>)
  {
    forall i :: 0 <= i < |ds| ==> IsValidDate(ds[i])
  }

  /** Every table entry exists in every supported year: none of them is February 29. */
  lemma TablesAreValid(year: int)
    ensures AllValid(InYear(year, FixedSolarTable))
    ensures AllValid(InYear(year, SpecificFor(year)))
  {
  }

  /** No table lists the same entry twice. */
  lemma TablesHaveNoDuplicates(year: int)
    ensures forall i, j :: 0 <= i < j < |FixedSolarTable| ==> FixedSolarTable[i] != FixedSolarTable[j]
    ensures forall i, j :: 0 <= i < j < |LunarTable| ==> LunarTable[i] != LunarTable[j]
    ensures forall i, j :: 0 <= i < j < |SpecificFor(year)| ==> SpecificFor(year)[i] != SpecificFor(year)[j]
  {
  }

  /** `get_fixed_and_specific_holidays(year)`: the eight fixed days, then that year's
      specific days, all dated in `year`. */
  function FixedAndSpecificHolidays(year: int): (r: Result<seq<Date>>)
    ensures r.Ok? <==> MinYear <= year <= MaxYear
    ensures r.Err? ==> r.error == YearOutOfRange
    ensures r.Ok? ==> |r.value| == |FixedSolarTable| + |SpecificFor(year)|
    ensures r.Ok? ==> forall i :: 0 <= i < |r.value| ==> r.value[i].year == year && IsValidDate(r.value[i])
    ensures r.Ok? ==> forall i :: 0 <= i < |FixedSolarTable| ==>
      r.value[i] == Date(year, FixedSolarTable[i].month, FixedSolarTable[i].day)
    ensures r.Ok? ==> forall j :: 0 <= j < |SpecificFor(year)| ==>
      r.value[|FixedSolarTable| + j] == Date(year, SpecificFor(year)[j].month, SpecificFor(year)[j].day)
  {
    if !(MinYear <= year <= MaxYear) then Err(YearOutOfRange)
    else
      var dates := InYear(year, FixedSolarTable) + InYear(year, SpecificFor(year));
      TablesAreValid(year);
      if AllValid(dates) then Ok(dates) else Err(InvalidCalendarDate)
  }

  /** The dates one lunar rule contributes: the converted date and, for a festival
      month, the day before and the day after, in that order. */
  function RuleDates(conv: LunarConverter, year: int, rule: MonthDay): (r: seq<CalendarDate>)
    ensures |r| == if rule.month in FestivalMonths then 3 else 1
    ensures r[0] == conv(year, rule.month, rule.day)
    ensures |r| == 3 ==> Ordinal(r[1]) + 1 == Ordinal(r[0]) && Ordinal(r[2]) == Ordinal(r[0]) + 1
  {
    var base := ConvertLunarToSolar(conv, year, rule.month, rule.day, 0);
    if rule.month in FestivalMonths then
      [base,
       ConvertLunarToSolar(conv, year, rule.month, rule.day, -1),
       ConvertLunarToSolar(conv, year, rule.month, rule.day, 1)]
    else [base]
  }

  /** The dates a list of lunar rules contributes, rule after rule. */
  function LunarDates(conv: LunarConverter, year: int, rules: seq<MonthDay>): seq<CalendarDate>
  {
    if rules == [] then []
    else LunarDates(conv, year, rules[..|rules| - 1]) + RuleDates(conv, year, rules[|rules| - 1])
  }

  /** `get_lunar_holidays(year)`: appends each lunar rule's dates in table order. */
  method GetLunarHolidays(conv: LunarConverter, year: int) returns (holidays: seq<CalendarDate>)
    ensures holidays == LunarDates(conv, year, LunarTable)
  {
    holidays := [];
    for i := 0 to |LunarTable|
      invariant holidays == LunarDates(conv, year, LunarTable[..i])
    {
      var rule := LunarTable[i];
      assert LunarTable[..i + 1][..i] == LunarTable[..i];
      assert LunarDates(conv, year, LunarTable[..i + 1]) == holidays + RuleDates(conv, year, rule);
      holidays := holidays + [ConvertLunarToSolar(conv, year, rule.month, rule.day, 0)];
      if rule.month in FestivalMonths {
        holidays := holidays + [
          ConvertLunarToSolar(conv, year, rule.month, rule.day, -1),
          ConvertLunarToSolar(conv, year, rule.month, rule.day, 1)
        ];
      }
    }
    assert LunarTable[..|LunarTable|] == LunarTable;
  }

  /** A lunar rule's dates, spelled out: the converted date, then for a festival
      month the day before and the day after it. */
  lemma RuleDatesShape(conv: LunarConverter, year: int, rule: MonthDay)
    ensures var c := conv(year, rule.month, rule.day);
      RuleDates(conv, year, rule)
      == if rule.month in FestivalMonths then [c, AddDays(c, -1), AddDays(c, 1)] else [c]
  {
    var c := conv(year, rule.month, rule.day);
    assert AddDays(c, 0) == c;
  }

  /** The lunar part for the table: Seollal and its two neighbours, Buddha's Birthday
      alone, Chuseok and its two neighbours: always seven dates. */
  lemma LunarTableDates(conv: LunarConverter, year: int)
    ensures var seollal, buddha, chuseok := conv(year, 1, 1), conv(year, 4, 8), conv(year, 8, 15);
      LunarDates(conv, year, LunarTable)
      == [seollal, AddDays(seollal, -1), AddDays(seollal, 1),
          buddha,
          chuseok, AddDays(chuseok, -1), AddDays(chuseok, 1)]
    ensures |LunarDates(conv, year, LunarTable)| == 7
  {
    RuleDatesShape(conv, year, LunarTable[0]);
    RuleDatesShape(conv, year, LunarTable[1]);
    RuleDatesShape(conv, year, LunarTable[2]);
    var r0 := RuleDates(conv, year, LunarTable[0]);
    var r1 := RuleDates(conv, year, LunarTable[1]);
    var r2 := RuleDates(conv, year, LunarTable[2]);
    var t1, t2 := LunarTable[..1], LunarTable[..2];
    assert t1[..0] == [] && t2[..1] == t1 && LunarTable[..2] == t2;
    assert LunarDates(conv, year, t1) == r0;
    assert LunarDates(conv, year, t2) == r0 + r1;
    assert LunarDates(conv, year, LunarTable) == r0 + r1 + r2;
  }

  /** `get_fixed_and_specific_holidays(year) + get_lunar_holidays(year)`. */
  function AllHolidays(conv: LunarConverter, year: int): (r: Result<seq<Date>>)
    ensures r.Ok? <==> MinYear <= year <= MaxYear
    ensures r.Err? ==> r.error == YearOutOfRange
    ensures r.Ok? ==> |r.value| == |FixedSolarTable| + |SpecificFor(year)| + 7
    ensures r.Ok? ==> AllValid(r.value)
    ensures r.Ok? ==>
      Elements(r.value)
      == Elements(FixedAndSpecificHolidays(year).value) + Elements(LunarDates(conv, year, LunarTable))
  {
    match FixedAndSpecificHolidays(year)
    case Err(e) => Err(e)
    case Ok(fixed) =>
      LunarTableDates(conv, year);
      Ok(fixed + LunarDates(conv, year, LunarTable))
  }

  /** `is_holiday(date_str)`: whether the parsed date is among its year's holidays. */
  function IsHoliday(conv: LunarConverter, s: string): (r: Result<bool>)
    ensures r.Err? <==> ParseDate(s).None?
    ensures r.Err? ==> r.error == InvalidDateFormat
    ensures r.Ok? ==> var d := ParseDate(s).value;
      (r.value <==> d in FixedAndSpecificHolidays(d.year).value || d in LunarDates(conv, d.year, LunarTable))
  {
    match ParseDate(s)
    case None => Err(InvalidDateFormat)
    case Some(d) =>
      match AllHolidays(conv, d.year)
      case Err(e) => Err(e)
      case Ok(all) => Ok(d in Elements(all))
  }

  /** `year_holidays(year_str)`: `sorted(set(...))` of the year's holidays. */
  function YearHolidays(conv: LunarConverter, s: string): (r: Result<seq<Date>>)
    ensures ParseYear(s).None? ==> r == Err(InvalidYearFormat)
    ensures ParseYear(s).Some? ==> (r.Ok? <==> MinYear <= ParseYear(s).value <= MaxYear)
    ensures ParseYear(s).Some? && r.Err? ==> r.error == YearOutOfRange
    ensures r.Ok? ==> StrictlyAscending(r.value) && AllValid(r.value)
    ensures r.Ok? ==> var year := ParseYear(s).value;
      Elements(r.value)
      == Elements(FixedAndSpecificHolidays(year).value) + Elements(LunarDates(conv, year, LunarTable))
  {
    match ParseYear(s)
    case None => Err(InvalidYearFormat)
    case Some(year) =>
      match AllHolidays(conv, year)
      case Err(e) => Err(e)
      case Ok(all) =>
        var sorted := SortedSet(all);
        assert forall i :: 0 <= i < |sorted| ==> sorted[i] in Elements(all);
        Ok(sorted)
  }

  /** A `YYYY-MM-DD` string is a holiday exactly when its date is in the list
      `year_holidays` returns for its own year field. */
  lemma IsHolidayAgreesWithYearHolidays(conv: LunarConverter, s: string)
    requires ParseDate(s).Some?
    ensures YearHolidays(conv, s[..4]).Ok?
    ensures IsHoliday(conv, s) == Ok(ParseDate(s).value in YearHolidays(conv, s[..4]).value)
  {
    ParseDateYearField(s);
  }

  /** The same, stated on dates: `is_holiday(d.isoformat())` is true iff
      `d in year_holidays(str(d.year))`. */
  lemma IsHolidayIffListed(conv: LunarConverter, d: CalendarDate)
    requires MinYear <= d.year <= MaxYear
    ensures YearHolidays(conv, DecimalString(d.year)).Ok?
    ensures IsHoliday(conv, FormatDate(d)) == Ok(d in YearHolidays(conv, DecimalString(d.year)).value)
  {
    ParseFormatRoundTrip(d);
    ParseYearRoundTrip(d.year);
  }

  /** `year_holidays` lists each date once, in strictly increasing calendar order,
      and the list is the only such arrangement of the year's holiday set. */
  lemma YearHolidaysIsSortedSet(conv: LunarConverter, s: string, other: seq<Date>)
    requires YearHolidays(conv, s).Ok?
    requires StrictlyAscending(other) && Elements(other) == Elements(YearHolidays(conv, s).value)
    ensures var hs := YearHolidays(conv, s).value;
      && (forall i, j :: 0 <= i < j < |hs| ==> hs[i] != hs[j] && Ordinal(hs[i]) < Ordinal(hs[j]))
      && |hs| == |Elements(hs)|
      && other == hs
  {
    var hs := YearHolidays(conv, s).value;
    AscendingIsDistinct(hs);
    AscendingCardinality(hs);
    AscendingUnique(other, hs);
    forall i, j | 0 <= i < j < |hs|
      ensures Ordinal(hs[i]) < Ordinal(hs[j])
    {
      BeforeIsOrdinalOrder(hs[i], hs[j]);
    }
  }

  /** Every fixed solar day is a holiday of every supported year. */
  lemma FixedHolidayEveryYear(conv: LunarConverter, s: string, i: int)
    requires ParseYear(s).Some? && MinYear <= ParseYear(s).value <= MaxYear
    requires 0 <= i < |FixedSolarTable|
    ensures YearHolidays(conv, s).Ok?
    ensures Date(ParseYear(s).value, FixedSolarTable[i].month, FixedSolarTable[i].day)
            in YearHolidays(conv, s).value
  {
    var year := ParseYear(s).value;
    assert FixedAndSpecificHolidays(year).value[i] in Elements(FixedAndSpecificHolidays(year).value);
  }

  /** Every year-specific day is a holiday of the year it is registered under. */
  lemma SpecificHolidayInItsYear(conv: LunarConverter, s: string, j: int)
    requires ParseYear(s).Some? && MinYear <= ParseYear(s).value <= MaxYear
    requires 0 <= j < |SpecificFor(ParseYear(s).value)|
    ensures YearHolidays(conv, s).Ok?
    ensures var md := SpecificFor(ParseYear(s).value)[j];
      Date(ParseYear(s).value, md.month, md.day) in YearHolidays(conv, s).value
  {
    var year := ParseYear(s).value;
    var fixed := FixedAndSpecificHolidays(year).value;
    assert fixed[|FixedSolarTable| + j] in Elements(fixed);
  }

  /** A year without a table entry has only the eight fixed solar days besides the
      lunar ones. */
  lemma UnlistedYearHasOnlyFixedDays(year: int)
    requires MinYear <= year <= MaxYear && year !in YearSpecificTable
    ensures FixedAndSpecificHolidays(year) == Ok(InYear(year, FixedSolarTable))
    ensures |FixedAndSpecificHolidays(year).value| == 8
  {
    assert InYear(year, SpecificFor(year)) == [];
    assert InYear(year, FixedSolarTable) + [] == InYear(year, FixedSolarTable);
  }

  /** Every lunar date of a supported year is in its year list. */
  lemma LunarDatesListed(conv: LunarConverter, s: string)
    requires ParseYear(s).Some? && MinYear <= ParseYear(s).value <= MaxYear
    ensures YearHolidays(conv, s).Ok?
    ensures var lunar := LunarDates(conv, ParseYear(s).value, LunarTable);
      forall k :: 0 <= k < |lunar| ==> lunar[k] in YearHolidays(conv, s).value
  {
    var lunar := LunarDates(conv, ParseYear(s).value, LunarTable);
    var hs := YearHolidays(conv, s).value;
    assert Elements(lunar) <= Elements(hs);
    forall k | 0 <= k < |lunar|
      ensures lunar[k] in hs
    {
      assert lunar[k] in Elements(lunar);
    }
  }

  /** Seollal and Chuseok each close three consecutive calendar days of the year
      list, and Buddha's Birthday closes its converted date. */
  lemma FestivalWindows(conv: LunarConverter, s: string)
    requires ParseYear(s).Some? && MinYear <= ParseYear(s).value <= MaxYear
    ensures YearHolidays(conv, s).Ok?
    ensures var year, hs := ParseYear(s).value, YearHolidays(conv, s).value;
      var seollal, buddha, chuseok := conv(year, 1, 1), conv(year, 4, 8), conv(year, 8, 15);
      && AddDays(seollal, -1) in hs && seollal in hs && AddDays(seollal, 1) in hs
      && buddha in hs
      && AddDays(chuseok, -1) in hs && chuseok in hs && AddDays(chuseok, 1) in hs
  {
    var year := ParseYear(s).value;
    var lunar := LunarDates(conv, year, LunarTable);
    LunarDatesListed(conv, s);
    LunarTableDates(conv, year);
    var hs := YearHolidays(conv, s).value;
    assert lunar[0] in hs && lunar[1] in hs && lunar[2] in hs && lunar[3] in hs;
    assert lunar[4] in hs && lunar[5] in hs && lunar[6] in hs;
  }
}
