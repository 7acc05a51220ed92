/** The two string forms the queries accept: a strict `YYYY-MM-DD` calendar date
    (`datetime.strptime(s, '%Y-%m-%d')`) and a plain decimal year (`int(s)`).
    Both return `None` where the source raises `ValueError`. */
module Parsing {
  import opened Dates

  datatype Option<+T> = None | Some(value: T)

  predicate IsDigit(c: char)
  {
    '0' <= c <= '9'
  }

  predicate AllDigits(s: string)
  {
    forall i :: 0 <= i < |s| ==> IsDigit(s[i])
  }

  function DigitValue(c: char): (n: nat)
    requires IsDigit(c)
    ensures n < 10
  {
    c as int - '0' as int
  }

  function DigitChar(n: nat): (c: char)
    requires n < 10
    ensures IsDigit(c) && DigitValue(c) == n
  {
    ('0' as int + n) as char
  }

  function Pow10(w: nat): (p: nat)
    ensures p >= 1
  {
    if w == 0 then 1 else 10 * Pow10(w - 1)
  }

  /** The number a string of decimal digits denotes; leading zeros are allowed. */
  function DecimalValue(s: string): (n: nat)
    requires AllDigits(s)
    ensures n < Pow10(|s|)
  {
    if s == [] then 0
    else 10 * DecimalValue(s[..|s| - 1]) + DigitValue(s[|s| - 1])
  }

  /** `n` written with exactly `width` digits, zero-padded on the left. */
  function PaddedDecimal(n: nat, width: nat): (s: string)
    requires n < Pow10(width)
    ensures |s| == width && AllDigits(s)
  {
    if width == 0 then []
    else PaddedDecimal(n / 10, width - 1) + [DigitChar(n % 10)]
  }

  /** `n` in decimal with no leading zeros (`str(n)`). */
  function DecimalString(n: nat): (s: string)
    ensures |s| >= 1 && AllDigits(s)
  {
    if n < 10 then [DigitChar(n)]
    else DecimalString(n / 10) + [DigitChar(n % 10)]
  }

  lemma {:induction false} PaddedDecimalValue(n: nat, width: nat)
    requires n < Pow10(width)
    ensures DecimalValue(PaddedDecimal(n, width)) == n
  {
    if width > 0 {
      var s := PaddedDecimal(n, width);
      PaddedDecimalValue(n / 10, width - 1);
      assert s[..|s| - 1] == PaddedDecimal(n / 10, width - 1);
    }
  }

  lemma {:induction false} PaddedDecimalOfValue(s: string)
    requires AllDigits(s)
    ensures PaddedDecimal(DecimalValue(s), |s|) == s
  {
    if s != [] {
      var init := s[..|s| - 1];
      PaddedDecimalOfValue(init);
      var last := s[|s| - 1];
      var n, a, b := DecimalValue(s), DecimalValue(init), DigitValue(last);
      assert n == 10 * a + b;
      DivUnique(n, 10, a, b);
      assert DigitChar(b) == last;
      assert PaddedDecimal(n, |s|) == PaddedDecimal(a, |init|) + [DigitChar(b)];
      assert s == init + [last];
    }
  }

  lemma {:induction false} DecimalStringValue(n: nat)
    ensures DecimalValue(DecimalString(n)) == n
  {
    if n >= 10 {
      var s := DecimalString(n);
      DecimalStringValue(n / 10);
      assert s[..|s| - 1] == DecimalString(n / 10);
    }
  }

  /** The value of a two-digit field. */
  lemma DecimalValueOfTwo(s: string)
    requires |s| == 2 && AllDigits(s)
    ensures DecimalValue(s) == 10 * DigitValue(s[0]) + DigitValue(s[1])
  {
    assert s[..1][..0] == [];
  }

  /** The value of a four-digit field. */
  lemma DecimalValueOfFour(s: string)
    requires |s| == 4 && AllDigits(s)
    ensures DecimalValue(s) == 1000 * DigitValue(s[0]) + 100 * DigitValue(s[1]) + 10 * DigitValue(s[2]) + DigitValue(s[3])
  {
    var t := s[..2];
    DecimalValueOfTwo(t);
    assert s[..3][..2] == t;
  }

  /** `int(s)` restricted to plain decimal digits. */
  function ParseYear(s: string): (r: Option<int>)
    ensures r.Some? <==> |s| >= 1 && AllDigits(s)
    ensures r.Some? ==> r.value >= 0
  {
    if |s| >= 1 && AllDigits(s) then Some(DecimalValue(s)) else None
  }

  /** The decimal form of every year is read back as that year. */
  lemma ParseYearRoundTrip(n: nat)
    ensures ParseYear(DecimalString(n)) == Some(n)
  {
    DecimalStringValue(n);
  }

  /** `date.isoformat()`, for years that fit four digits. */
  function FormatDate(d: Date): (s: string)
    requires 0 <= d.year < 10000 && 0 <= d.month < 100 && 0 <= d.day < 100
    ensures |s| == 10 && s[4] == '-' && s[7] == '-'
  {
    PaddedDecimal(d.year, 4) + "-" + PaddedDecimal(d.month, 2) + "-" + PaddedDecimal(d.day, 2)
  }

  /** The shape `DDDD-DD-DD`. */
  predicate IsDateShaped(s: string)
  {
    |s| == 10 && s[4] == '-' && s[7] == '-'
    && AllDigits(s[..4]) && AllDigits(s[5..7]) && AllDigits(s[8..])
  }

  /** `datetime.strptime(s, '%Y-%m-%d').date()`: a four-digit year of at least 1,
      a two-digit month and a two-digit day that together name a real date. */
  function ParseDate(s: string): (r: Option<Date>)
    ensures r.Some? ==> IsValidDate(r.value) && MinYear <= r.value.year <= MaxYear
    ensures r.Some? ==> IsDateShaped(s)
  {
    if IsDateShaped(s) then
      var d := Date(DecimalValue(s[..4]), DecimalValue(s[5..7]), DecimalValue(s[8..]));
      if MinYear <= d.year && IsValidDate(d) then Some(d) else None
    else None
  }

  /** Every date in `datetime`'s range is read back from its own `YYYY-MM-DD` form. */
  lemma ParseFormatRoundTrip(d: Date)
    requires IsValidDate(d) && MinYear <= d.year <= MaxYear
    ensures ParseDate(FormatDate(d)) == Some(d)
  {
    var y, m, dd := PaddedDecimal(d.year, 4), PaddedDecimal(d.month, 2), PaddedDecimal(d.day, 2);
    var s := FormatDate(d);
    assert s == y + "-" + m + "-" + dd;
    assert s[..4] == y;
    assert s[5..7] == m;
    assert s[8..] == dd;
    PaddedDecimalValue(d.year, 4);
    PaddedDecimalValue(d.month, 2);
    PaddedDecimalValue(d.day, 2);
    assert IsDateShaped(s);
  }

  /** A string that parses is exactly the `YYYY-MM-DD` form of its date: the parser
      accepts no other spelling. */
  lemma FormatParseRoundTrip(s: string)
    requires ParseDate(s).Some?
    ensures FormatDate(ParseDate(s).value) == s
  {
    PaddedDecimalOfValue(s[..4]);
    PaddedDecimalOfValue(s[5..7]);
    PaddedDecimalOfValue(s[8..]);
    assert s == s[..4] + "-" + s[5..7] + "-" + s[8..];
  }

  /** The year field of a parsed date, read on its own as a year, is that date's year. */
  lemma ParseDateYearField(s: string)
    requires ParseDate(s).Some?
    ensures ParseYear(s[..4]) == Some(ParseDate(s).value.year)
  {
  }
}
