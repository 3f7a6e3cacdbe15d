/** Date-and-time values as the database stores them (DATETIME), with the
    chronological order that ORDER BY and `<=` use and SQL Server's
    DATEADD(MONTH, n, d). */
module Calendar {
  import opened Text

  /** A point in time: calendar date plus the second of that day. */
  datatype DateTime = DateTime(year: int, month: int, day: int, second: int)

  predicate IsLeapYear(y: int) {
    (y % 4 == 0 && y % 100 != 0) || y % 400 == 0
  }

  function DaysInMonth(y: int, m: int): (n: int)
    requires 1 <= m <= 12
    ensures 28 <= n <= 31
  {
    if m == 2 then (if IsLeapYear(y) then 29 else 28)
    else if m == 4 || m == 6 || m == 9 || m == 11 then 30
    else 31
  }

  /** The range of values a DATETIME column accepts (years 1753 to 9999). */
  predicate Valid(d: DateTime) {
    1753 <= d.year <= 9999 && 1 <= d.month <= 12 &&
    1 <= d.day <= DaysInMonth(d.year, d.month) && 0 <= d.second < 86400
  }

  /** Months since the start of year 0. */
  function MonthIndex(d: DateTime): int {
    d.year * 12 + (d.month - 1)
  }

  /** A number that orders valid date-times chronologically. */
  function Key(d: DateTime): int {
    ((MonthIndex(d) * 32) + d.day) * 86400 + d.second
  }

  /** `a <= b` between two DATETIME values. */
  predicate NotAfter(a: DateTime, b: DateTime) {
    Key(a) <= Key(b)
  }

  /** DATEADD(MONTH, n, d): move n months, keep the time of day, and clamp
      the day to the last day of the month reached. */
  function AddMonths(d: DateTime, n: int): (r: DateTime)
    ensures MonthIndex(r) == MonthIndex(d) + n
    ensures 1 <= r.month <= 12 && r.second == d.second
    ensures r.day == if d.day <= DaysInMonth(r.year, r.month) then d.day else DaysInMonth(r.year, r.month)
  {
    var index := MonthIndex(d) + n;
    var year := index / 12;
    var month := index % 12 + 1;
    var last := DaysInMonth(year, month);
    DateTime(year, month, if d.day <= last then d.day else last, d.second)
  }

  /** On valid values, Key's order is the calendar order: year first, then
      month, day and time of day. */
  lemma KeyIsChronological(a: DateTime, b: DateTime)
    requires Valid(a) && Valid(b)
    ensures Key(a) < Key(b) <==>
      (a.year < b.year) ||
      (a.year == b.year && a.month < b.month) ||
      (a.year == b.year && a.month == b.month && a.day < b.day) ||
      (a.year == b.year && a.month == b.month && a.day == b.day && a.second < b.second)
  {
  }

  /** DATEADD keeps a valid date valid whenever the year it reaches is in range. */
  lemma AddMonthsValid(d: DateTime, n: int)
    requires Valid(d)
    requires 1753 <= AddMonths(d, n).year <= 9999
    ensures Valid(AddMonths(d, n))
  {
  }

  /** Adding zero months changes nothing. */
  lemma AddZeroMonths(d: DateTime)
    requires Valid(d)
    ensures AddMonths(d, 0) == d
  {
  }

  function Hour(d: DateTime): int { d.second / 3600 }
  function Minute(d: DateTime): int { d.second % 3600 / 60 }
  function Second(d: DateTime): int { d.second % 60 }

  /** DateTime.ToString("MMddHHmm"). */
  function StampMMddHHmm(d: DateTime): string {
    FormatD(d.month, 2) + FormatD(d.day, 2) + FormatD(Hour(d), 2) + FormatD(Minute(d), 2)
  }

  /** DateTime.ToString("yyyyMMddHHmmss"). */
  function StampYyyyMMddHHmmss(d: DateTime): string {
    FormatD(d.year, 4) + FormatD(d.month, 2) + FormatD(d.day, 2) +
    FormatD(Hour(d), 2) + FormatD(Minute(d), 2) + FormatD(Second(d), 2)
  }

  /** A field that fits its width is written with exactly that many digits. */
  lemma FieldWidth(i: int, width: nat)
    requires width >= 1 && 0 <= i < Pow10(width)
    ensures |FormatD(i, width)| == width && AllDigits(FormatD(i, width))
  {
    DigitsLengthBound(i, width);
  }

  lemma AllDigitsConcat(a: string, b: string)
    requires AllDigits(a) && AllDigits(b)
    ensures AllDigits(a + b)
  {
    forall i | 0 <= i < |a + b| ensures IsDigit((a + b)[i]) {
      if i >= |a| {
        assert (a + b)[i] == b[i - |a|];
      }
    }
  }

  lemma Pow10Small()
    ensures Pow10(2) == 100 && Pow10(4) == 10000
  {
    assert Pow10(1) == 10;
    assert Pow10(3) == 1000;
  }

  /** The four two-digit fields month, day, hour and minute. */
  lemma StampShort(d: DateTime)
    requires Valid(d)
    ensures |StampMMddHHmm(d)| == 8 && AllDigits(StampMMddHHmm(d))
  {
    Pow10Small();
    FieldWidth(d.month, 2);
    FieldWidth(d.day, 2);
    FieldWidth(Hour(d), 2);
    FieldWidth(Minute(d), 2);
    var a, b, c, e := FormatD(d.month, 2), FormatD(d.day, 2), FormatD(Hour(d), 2), FormatD(Minute(d), 2);
    AllDigitsConcat(a, b);
    AllDigitsConcat(a + b, c);
    AllDigitsConcat(a + b + c, e);
  }

  /** The two stamps of a valid date-time are 8 and 14 decimal digits long. */
  lemma StampLengths(d: DateTime)
    requires Valid(d)
    ensures |StampMMddHHmm(d)| == 8 && AllDigits(StampMMddHHmm(d))
    ensures |StampYyyyMMddHHmmss(d)| == 14 && AllDigits(StampYyyyMMddHHmmss(d))
  {
    StampShort(d);
    Pow10Small();
    FieldWidth(d.year, 4);
    FieldWidth(Second(d), 2);
    var y, m, t := FormatD(d.year, 4), StampMMddHHmm(d), FormatD(Second(d), 2);
    assert StampYyyyMMddHHmmss(d) == y + m + t;
    AllDigitsConcat(y, m);
    AllDigitsConcat(y + m, t);
  }
}
