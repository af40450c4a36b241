/** Instants, the proleptic Gregorian calendar and the "2006-01-02" layout
    of Go's `time` package. An instant is a count of nanoseconds since
    1970-01-01T00:00:00Z; a time zone is a fixed offset in seconds east of
    UTC. */
module Times {
  import opened Wrappers
  import opened Text

  const NanosPerSecond: int := 1_000_000_000
  const NanosPerMilli: int := 1_000_000
  const SecondsPerDay: int := 86400
  const NanosPerDay: int := SecondsPerDay * NanosPerSecond

  /** A `time.Time`, as the instant it denotes. */
  datatype Time = Time(unixNano: int)

  /** The zero `time.Time`: January 1, year 1, 00:00:00 UTC. */
  const ZeroTime: Time := Time(-62135596800 * NanosPerSecond)

  predicate IsZero(t: Time) { t == ZeroTime }

  /** `t.Unix()`: whole seconds, rounded toward negative infinity. */
  function UnixSeconds(t: Time): (s: int)
    ensures s * NanosPerSecond <= t.unixNano < (s + 1) * NanosPerSecond
  {
    t.unixNano / NanosPerSecond
  }

  /** `t.UnixMilli()`: whole milliseconds, rounded toward negative infinity. */
  function UnixMilli(t: Time): (ms: int)
    ensures ms * NanosPerMilli <= t.unixNano < (ms + 1) * NanosPerMilli
  {
    t.unixNano / NanosPerMilli
  }

  /** `time.UnixMilli(ms)`. */
  function FromUnixMilli(ms: int): Time
  {
    Time(ms * NanosPerMilli)
  }

  predicate AtMilliPrecision(t: Time) { t.unixNano % NanosPerMilli == 0 }

  lemma UnixMilliOfFromUnixMilli(ms: int)
    ensures UnixMilli(FromUnixMilli(ms)) == ms
    ensures AtMilliPrecision(FromUnixMilli(ms))
  {
  }

  /** Reading back the millisecond count gives the instant exactly when the
      instant has no sub-millisecond part. */
  lemma FromUnixMilliOfUnixMilli(t: Time)
    ensures FromUnixMilli(UnixMilli(t)) == t <==> AtMilliPrecision(t)
  {
  }

  /** `t.Sub(u)` as nanoseconds (the int64 saturation of Go's Duration is not modelled). */
  function Sub(t: Time, u: Time): int
  {
    t.unixNano - u.unixNano
  }

  // ---------------------------------------------------------------- calendar

  datatype Date = Date(year: int, month: int, day: int)

  predicate IsLeap(y: int) { y % 4 == 0 && (y % 100 != 0 || y % 400 == 0) }

  function YearDays(y: int): (n: int)
    ensures n == 365 || n == 366
  {
    if IsLeap(y) then 366 else 365
  }

  function DaysIn(m: int, y: int): (n: int)
    requires 1 <= m <= 12
    ensures 28 <= n <= 31
  {
    if m == 2 then (if IsLeap(y) then 29 else 28)
    else if m == 4 || m == 6 || m == 9 || m == 11 then 30
    else 31
  }

  predicate ValidDate(d: Date)
  {
    1 <= d.month <= 12 && 1 <= d.day <= DaysIn(d.month, d.year)
  }

  /** Days of year y that lie in the months before month m. */
  function DaysBefore(y: int, m: int): int
    requires 1 <= m <= 13
  {
    if m == 1 then 0 else DaysBefore(y, m - 1) + DaysIn(m - 1, y)
  }

  lemma DaysBeforeYearEnd(y: int)
    ensures DaysBefore(y, 13) == YearDays(y)
  {
    assert DaysBefore(y, 2) == 31;
    assert DaysBefore(y, 3) == 31 + DaysIn(2, y);
    assert DaysBefore(y, 4) == DaysBefore(y, 3) + 31;
    assert DaysBefore(y, 5) == DaysBefore(y, 3) + 61;
    assert DaysBefore(y, 6) == DaysBefore(y, 3) + 92;
    assert DaysBefore(y, 7) == DaysBefore(y, 3) + 122;
    assert DaysBefore(y, 8) == DaysBefore(y, 3) + 153;
    assert DaysBefore(y, 9) == DaysBefore(y, 3) + 184;
    assert DaysBefore(y, 10) == DaysBefore(y, 3) + 214;
    assert DaysBefore(y, 11) == DaysBefore(y, 3) + 245;
    assert DaysBefore(y, 12) == DaysBefore(y, 3) + 275;
  }

  lemma {:induction false} DaysBeforeGrows(y: int, j: int, m: int)
    requires 1 <= j < m <= 13
    ensures DaysBefore(y, m) >= DaysBefore(y, j) + DaysIn(j, y)
    decreases m - j
  {
    if j + 1 < m {
      DaysBeforeGrows(y, j + 1, m);
    }
  }

  /** The date n days after the first day of month m of year y, n within the year. */
  function MonthDay(y: int, m: int, n: int): (d: Date)
    requires 1 <= m <= 12 && 0 <= n < DaysBefore(y, 13) - DaysBefore(y, m)
    ensures ValidDate(d) && d.year == y
    ensures DaysBefore(y, d.month) + d.day - 1 == DaysBefore(y, m) + n
    decreases 12 - m
  {
    if n < DaysIn(m, y) then Date(y, m, n + 1) else MonthDay(y, m + 1, n - DaysIn(m, y))
  }

  /** The date n days after January 1 of year y (n may be negative or
      exceed the year). */
  function CivilFrom(y: int, n: int): (d: Date)
    ensures ValidDate(d)
    decreases if n < 0 then 366 - n else n
  {
    if n < 0 then CivilFrom(y - 1, n + YearDays(y - 1))
    else if n >= YearDays(y) then CivilFrom(y + 1, n - YearDays(y))
    else DaysBeforeYearEnd(y); MonthDay(y, 1, n)
  }

  /** The calendar date of day number n, counting 1970-01-01 as day 0. */
  function CivilFromDays(n: int): Date
  {
    CivilFrom(1970, n)
  }

  /** Day number of January 1 of year y. */
  function YearStart(y: int): int
    decreases if y >= 1970 then y - 1970 else 1970 - y
  {
    if y == 1970 then 0
    else if y > 1970 then YearStart(y - 1) + YearDays(y - 1)
    else YearStart(y + 1) - YearDays(y)
  }

  /** Day number of a date whose month is in range; the day may run past
      the month's end, which is how `time.Date` normalises it. */
  function DaysFromCivil(d: Date): int
    requires 1 <= d.month <= 12
  {
    YearStart(d.year) + DaysBefore(d.year, d.month) + d.day - 1
  }

  lemma YearStartStep(y: int)
    ensures YearStart(y + 1) == YearStart(y) + YearDays(y)
  {
  }

  lemma CivilFromShift(y: int, n: int)
    ensures CivilFrom(y + 1, n - YearDays(y)) == CivilFrom(y, n)
  {
  }

  lemma {:induction false} CivilFromYearStart(y: int, k: int)
    ensures CivilFrom(1970, YearStart(y) + k) == CivilFrom(y, k)
    decreases if y >= 1970 then y - 1970 else 1970 - y
  {
    if y > 1970 {
      CivilFromYearStart(y - 1, k + YearDays(y - 1));
      CivilFromShift(y - 1, k + YearDays(y - 1));
    } else if y < 1970 {
      YearStartStep(y);
      CivilFromYearStart(y + 1, k - YearDays(y));
      CivilFromShift(y, k);
    }
  }

  /** Day d of month m lies in the year. */
  lemma DayInYear(y: int, m: int, d: int)
    requires 1 <= m <= 12 && 1 <= d <= DaysIn(m, y)
    ensures 0 <= DaysBefore(y, m) + d - 1 < DaysBefore(y, 13)
  {
    if m < 12 {
      DaysBeforeGrows(y, m, 13);
    }
    if 1 < m {
      DaysBeforeGrows(y, 1, m);
    }
  }

  /** A later month starts after every day of an earlier one. */
  lemma DaysBeforeOrdered(y: int, j: int, m: int)
    requires 1 <= j <= 12 && 1 <= m <= 12
    ensures j < m ==> DaysBefore(y, m) >= DaysBefore(y, j) + DaysIn(j, y)
  {
    if j < m {
      DaysBeforeGrows(y, j, m);
    }
  }

  /** Two valid dates of one year at the same day of the year are the same date. */
  lemma SameDayOfYear(a: Date, b: Date)
    requires ValidDate(a) && ValidDate(b) && a.year == b.year
    requires DaysBefore(a.year, a.month) + a.day == DaysBefore(b.year, b.month) + b.day
    ensures a == b
  {
    DaysBeforeOrdered(a.year, a.month, b.month);
    DaysBeforeOrdered(a.year, b.month, a.month);
  }

  lemma {:induction false} DaysFromCivilFrom(y: int, n: int)
    ensures DaysFromCivil(CivilFrom(y, n)) == YearStart(y) + n
    decreases if n < 0 then 366 - n else n
  {
    if n < 0 {
      DaysFromCivilFrom(y - 1, n + YearDays(y - 1));
      YearStartStep(y - 1);
    } else if n >= YearDays(y) {
      DaysFromCivilFrom(y + 1, n - YearDays(y));
      YearStartStep(y);
    } else {
      DaysBeforeYearEnd(y);
    }
  }

  /** Day numbers and valid calendar dates are in one-to-one correspondence. */
  lemma DaysFromCivilFromDays(n: int)
    ensures ValidDate(CivilFromDays(n))
    ensures DaysFromCivil(CivilFromDays(n)) == n
  {
    DaysFromCivilFrom(1970, n);
  }

  lemma CivilFromDaysFromCivil(d: Date)
    requires ValidDate(d)
    ensures CivilFromDays(DaysFromCivil(d)) == d
  {
    var k := DaysBefore(d.year, d.month) + d.day - 1;
    DayInYear(d.year, d.month, d.day);
    SameDayOfYear(MonthDay(d.year, 1, k), d);
    DaysBeforeYearEnd(d.year);
    CivilFromYearStart(d.year, k);
  }

  /** The calendar date of instant t in the zone `offset` seconds east of UTC. */
  function LocalDate(t: Time, offset: int): (d: Date)
    ensures ValidDate(d)
  {
    CivilFromDays((UnixSeconds(t) + offset) / SecondsPerDay)
  }

  /** `time.Date(y, m, d, 0, 0, 0, 0, loc)` for a month in range, loc being
      `offset` seconds east of UTC; a day past the month's end rolls over. */
  function MidnightOf(y: int, m: int, d: int, offset: int): Time
    requires 1 <= m <= 12
  {
    Time((DaysFromCivil(Date(y, m, d)) * SecondsPerDay - offset) * NanosPerSecond)
  }

  /** `time.Date(y, m, d, 0, 0, 0, 0, time.UTC)` for a valid date. */
  function MidnightUtc(d: Date): Time
    requires 1 <= d.month <= 12
  {
    MidnightOf(d.year, d.month, d.day, 0)
  }

  // ------------------------------------------------------- the layout 2006-01-02

  /** n in exactly w decimal digits, with leading zeros. */
  function Fixed(n: nat, w: nat): (s: string)
    ensures |s| == w && AllDigits(s)
  {
    if w == 0 then [] else Fixed(n / 10, w - 1) + [DigitChar(n % 10)]
  }

  lemma {:induction false} FixedValue(n: nat, w: nat)
    requires n < Pow10(w)
    ensures DigitsValue(Fixed(n, w)) == n
  {
    if w > 0 {
      var s := Fixed(n, w);
      assert s[..|s| - 1] == Fixed(n / 10, w - 1);
      FixedValue(n / 10, w - 1);
    }
  }

  lemma {:induction false} FixedOfDigits(s: string)
    requires AllDigits(s)
    ensures DigitsValue(s) >= 0
    ensures Fixed(DigitsValue(s), |s|) == s
  {
    DigitsValueNonNegative(s);
    if |s| > 0 {
      var p := s[..|s| - 1];
      FixedOfDigits(p);
      assert s == p + [s[|s| - 1]];
    }
  }

  /** Go's `appendInt(b, x, width)`: a minus sign for a negative x, then |x|
      in `width` digits when it fits, in as many digits as it needs otherwise. */
  function AppendInt(x: int, width: nat): string
  {
    var u := if x < 0 then -x else x;
    (if x < 0 then "-" else "") + (if u < Pow10(width) then Fixed(u, width) else NatToDecimal(u))
  }

  /** `t.Format("2006-01-02")` of a calendar date. */
  function FormatDate(d: Date): (s: string)
    requires ValidDate(d)
    ensures 0 <= d.year <= 9999 ==> |s| == 10
  {
    AppendInt(d.year, 4) + "-" + Fixed(d.month, 2) + "-" + Fixed(d.day, 2)
  }

  /** `time.Parse("2006-01-02", s)`: four year digits, '-', two month digits
      in 1..12, '-', two day digits within that month, and nothing after;
      the result is midnight UTC of that date. */
  function ParseDate(s: string): (r: Option<Date>)
    ensures r.Some? ==> ValidDate(r.value) && 0 <= r.value.year <= 9999
  {
    if |s| < 4 || !AllDigits(s[..4]) then None
    else if |s| < 5 || s[4] != '-' then None
    else if |s| < 7 || !AllDigits(s[5..7]) then None
    else
      var year := DigitsValue(s[..4]);
      var month := DigitsValue(s[5..7]);
      if month < 1 || month > 12 then None
      else if |s| < 8 || s[7] != '-' then None
      else if |s| < 10 || !AllDigits(s[8..10]) then None
      else if |s| > 10 then None
      else
        var day := DigitsValue(s[8..10]);
        DigitsValueNonNegative(s[..4]);
        if day < 1 || day > DaysIn(month, year) then None
        else Some(Date(year, month, day))
  }

  /** Formatting a date of a four-digit year and parsing it back gives the date. */
  lemma ParseFormatDate(d: Date)
    requires ValidDate(d) && 0 <= d.year <= 9999
    ensures ParseDate(FormatDate(d)) == Some(d)
  {
    var s := FormatDate(d);
    assert s[..4] == Fixed(d.year, 4);
    assert s[5..7] == Fixed(d.month, 2);
    assert s[8..10] == Fixed(d.day, 2);
    FixedValue(d.year, 4);
    FixedValue(d.month, 2);
    FixedValue(d.day, 2);
  }

  /** Whatever ParseDate accepts is exactly the formatted form of what it returns. */
  lemma FormatParseDate(s: string)
    requires ParseDate(s).Some?
    ensures FormatDate(ParseDate(s).value) == s
  {
    var d := ParseDate(s).value;
    FixedOfDigits(s[..4]);
    FixedOfDigits(s[5..7]);
    FixedOfDigits(s[8..10]);
    assert s == s[..4] + "-" + s[5..7] + "-" + s[8..10];
  }
}
