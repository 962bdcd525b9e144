/** Gap filling for daily charts (`frontend/src/utils/timeSeries.ts`), over the proleptic
    Gregorian calendar (`days_in_month` and `is_leap_year` in `backend/src/util/user_input.cpp`). */
module DailyBuckets {
  import opened Text

  // ---------------------------------------------------------------------------------
  // Calendar
  // ---------------------------------------------------------------------------------

  predicate IsLeapYear(year: int) {
    (year % 4 == 0 && year % 100 != 0) || year % 400 == 0
  }

  function DaysInMonth(year: int, month: int): int {
    if month < 1 || month > 12 then 0
    else if month == 2 && IsLeapYear(year) then 29
    else [31, 28, 31, 30, 31, 30, 31, 31, 30, 31, 30, 31][month - 1]
  }

  datatype Date = Date(year: nat, month: nat, day: nat)

  predicate IsDate(d: Date) {
    1 <= d.month <= 12 && 1 <= d.day <= DaysInMonth(d.year, d.month)
  }

  /** Advancing the day of the month by one, with the carry into month and year. */
  function NextDay(d: Date): Date {
    if d.day < DaysInMonth(d.year, d.month) then Date(d.year, d.month, d.day + 1)
    else if d.month < 12 then Date(d.year, d.month + 1, 1)
    else Date(d.year + 1, 1, 1)
  }

  function DaysBeforeMonth(year: nat, month: nat): nat
    requires 1 <= month <= 13
  {
    if month == 1 then 0 else DaysBeforeMonth(year, month - 1) + DaysInMonth(year, month - 1)
  }

  function DaysBeforeYear(year: nat): nat {
    if year == 0 then 0 else DaysBeforeYear(year - 1) + DaysBeforeMonth(year - 1, 13)
  }

  /** Days since the first day of year 0; a time at midnight is this many whole days. */
  function DayNumber(d: Date): nat
    requires IsDate(d)
  {
    DaysBeforeYear(d.year) + DaysBeforeMonth(d.year, d.month) + d.day - 1
  }

  lemma NextDayIsNext(d: Date)
    requires IsDate(d)
    ensures IsDate(NextDay(d)) && DayNumber(NextDay(d)) == DayNumber(d) + 1
  {
    assert DaysBeforeMonth(d.year, d.month + 1) == DaysBeforeMonth(d.year, d.month) + DaysInMonth(d.year, d.month);
  }

  lemma {:induction false} MonthsMonotone(year: nat, a: nat, b: nat)
    requires 1 <= a <= b <= 13
    ensures DaysBeforeMonth(year, a) <= DaysBeforeMonth(year, b)
    ensures a < b ==> DaysBeforeMonth(year, a) + DaysInMonth(year, a) <= DaysBeforeMonth(year, b)
    decreases b - a
  {
    if a < b {
      MonthsMonotone(year, a, b - 1);
    }
  }

  lemma {:induction false} YearsMonotone(a: nat, b: nat)
    requires a < b
    ensures DaysBeforeYear(a) + DaysBeforeMonth(a, 13) <= DaysBeforeYear(b)
    decreases b - a
  {
    if a + 1 < b {
      YearsMonotone(a, b - 1);
    }
  }

  lemma EarlierYear(a: Date, b: Date)
    requires IsDate(a) && IsDate(b) && a.year < b.year
    ensures DayNumber(a) < DayNumber(b)
  {
    YearsMonotone(a.year, b.year);
    MonthsMonotone(a.year, a.month, 13);
  }

  lemma EarlierMonth(a: Date, b: Date)
    requires IsDate(a) && IsDate(b) && a.year == b.year && a.month < b.month
    ensures DayNumber(a) < DayNumber(b)
  {
    MonthsMonotone(a.year, a.month, b.month);
  }

  /** A day number names one date. */
  lemma DayNumberInjective(a: Date, b: Date)
    requires IsDate(a) && IsDate(b) && DayNumber(a) == DayNumber(b)
    ensures a == b
  {
    if a.year < b.year {
      EarlierYear(a, b);
    } else if b.year < a.year {
      EarlierYear(b, a);
    } else if a.month < b.month {
      EarlierMonth(a, b);
    } else if b.month < a.month {
      EarlierMonth(b, a);
    }
  }

  /** The day number in closed form: 365 days a year, one more for each fourth, one less for each
      hundredth, one more for each four-hundredth year before; then 367/12 days a month, less one or
      two after February. */
  lemma DayNumberClosed(d: Date)
    requires IsDate(d)
    ensures
      var y, m := d.year, d.month;
      var leap := y % 400 == 0 || (y % 4 == 0 && y % 100 != 0);
      DayNumber(d) ==
        365 * y + (y + 3) / 4 - (y + 99) / 100 + (y + 399) / 400 +
        (367 * m - 362) / 12 - (if m <= 2 then 0 else if leap then 1 else 2) + d.day - 1
  {
    hide DaysBeforeYear, DaysBeforeMonth;
    YearsClosed(d.year);
    MonthsClosed(d.year, d.month);
  }

  lemma {:induction false} MonthsClosed(year: nat, month: nat)
    requires 1 <= month <= 13
    ensures DaysBeforeMonth(year, month) ==
              (367 * month - 362) / 12 -
              (if month <= 2 then 0 else if year % 400 == 0 || (year % 4 == 0 && year % 100 != 0) then 1 else 2)
  {
    if month > 1 {
      MonthsClosed(year, month - 1);
    }
  }

  /** The leap days of the years before. */
  function LeapDays(year: nat): int {
    (year + 3) / 4 - (year + 99) / 100 + (year + 399) / 400
  }

  lemma {:induction false} YearsClosed(year: nat)
    ensures DaysBeforeYear(year) == 365 * year + LeapDays(year)
  {
    hide LeapDays, DaysBeforeMonth;
    if year > 0 {
      YearsClosed(year - 1);
      MonthsClosed(year - 1, 13);
      LeapDaysStep(year - 1);
    } else {
      assert LeapDays(0) == 0 by {
        NoLeapDays();
      }
    }
  }

  lemma NoLeapDays()
    ensures LeapDays(0) == 0
  {
  }

  lemma LeapDaysStep(y: nat)
    ensures LeapDays(y + 1) == LeapDays(y) + (if y % 400 == 0 || (y % 4 == 0 && y % 100 != 0) then 1 else 0)
  {
    Quotients(y, 4);
    Quotients(y, 100);
    Quotients(y, 400);
    Hundredths(y);
  }

  lemma Hundredths(y: nat)
    ensures y % 400 == 0 ==> y % 100 == 0
    ensures y % 100 == 0 ==> y % 4 == 0
  {
    if y % 100 == 0 {
      Fourth(y / 100);
    }
    if y % 400 == 0 {
      Hundredth(y / 400);
    }
  }

  lemma Fourth(c: nat)
    ensures 100 * c % 4 == 0
  {
  }

  lemma Hundredth(c: nat)
    ensures 400 * c % 100 == 0
  {
  }

  lemma Quotients(y: nat, n: nat)
    requires n == 4 || n == 100 || n == 400
    ensures (y + n) / n == (y + n - 1) / n + (if y % n == 0 then 1 else 0)
  {
  }

  function AddDays(d: Date, n: nat): Date {
    if n == 0 then d else NextDay(AddDays(d, n - 1))
  }

  lemma {:induction false} AddDaysNumber(d: Date, n: nat)
    requires IsDate(d)
    ensures IsDate(AddDays(d, n)) && DayNumber(AddDays(d, n)) == DayNumber(d) + n
  {
    hide DayNumber, NextDay, IsDate;
    if n > 0 {
      AddDaysNumber(d, n - 1);
      NextDayIsNext(AddDays(d, n - 1));
    }
  }

  // ---------------------------------------------------------------------------------
  // Labels
  // ---------------------------------------------------------------------------------

  function DigitChar(n: nat): char {
    ('0' as int + n % 10) as char
  }

  /** `toISOString().slice(0, 10)` for years up to 9999. */
  function DayLabel(d: Date): string {
    [DigitChar(d.year / 1000), DigitChar(d.year / 100), DigitChar(d.year / 10), DigitChar(d.year), '-',
     DigitChar(d.month / 10), DigitChar(d.month), '-', DigitChar(d.day / 10), DigitChar(d.day)]
  }

  lemma DigitCharInjective(a: nat, b: nat)
    requires DigitChar(a) == DigitChar(b)
    ensures a % 10 == b % 10
  {
  }

  lemma TwoDigits(a: nat, b: nat)
    requires a < 100 && b < 100 && DigitChar(a / 10) == DigitChar(b / 10) && DigitChar(a) == DigitChar(b)
    ensures a == b
  {
  }

  lemma FourDigits(a: nat, b: nat)
    requires a < 10000 && b < 10000
    requires DigitChar(a / 1000) == DigitChar(b / 1000) && DigitChar(a / 100) == DigitChar(b / 100)
    requires DigitChar(a / 10) == DigitChar(b / 10) && DigitChar(a) == DigitChar(b)
    ensures a == b
  {
    assert a / 100 / 10 == a / 1000 && b / 100 / 10 == b / 1000;
    TwoDigits(a / 100, b / 100);
    assert a / 10 / 10 == a / 100 && b / 10 / 10 == b / 100;
    DigitCharInjective(a / 10, b / 10);
    DigitCharInjective(a, b);
  }

  /** Different days have different labels. */
  lemma DayLabelInjective(a: Date, b: Date)
    requires IsDate(a) && IsDate(b) && a.year < 10000 && b.year < 10000 && DayLabel(a) == DayLabel(b)
    ensures a == b
  {
    hide DigitChar;
    var s, t := DayLabel(a), DayLabel(b);
    assert s[0] == t[0] && s[1] == t[1] && s[2] == t[2] && s[3] == t[3];
    assert s[5] == t[5] && s[6] == t[6] && s[8] == t[8] && s[9] == t[9];
    FourDigits(a.year, b.year);
    TwoDigits(a.month, b.month);
    TwoDigits(a.day, b.day);
  }

  function DigitValue(c: char): nat
    requires IsDigit(c)
  {
    c as int - '0' as int
  }

  /** `null`, a date object without a time value, or a day. */
  datatype Parsed = NoMatch | InvalidDate | Day(date: Date)

  predicate LooksLikeDate(v: string) {
    && |v| == 10 && v[4] == '-' && v[7] == '-'
    && IsDigit(v[0]) && IsDigit(v[1]) && IsDigit(v[2]) && IsDigit(v[3])
    && IsDigit(v[5]) && IsDigit(v[6]) && IsDigit(v[8]) && IsDigit(v[9])
  }

  function ParseDateOnlyUTC(raw: string): Parsed {
    var v := Trim(raw);
    if !LooksLikeDate(v) then NoMatch
    else
      var d := Date(
        DigitValue(v[0]) * 1000 + DigitValue(v[1]) * 100 + DigitValue(v[2]) * 10 + DigitValue(v[3]),
        DigitValue(v[5]) * 10 + DigitValue(v[6]),
        DigitValue(v[8]) * 10 + DigitValue(v[9]));
      if IsDate(d) then Day(d) else InvalidDate
  }

  lemma DigitRoundTrip(n: nat)
    ensures IsDigit(DigitChar(n)) && DigitValue(DigitChar(n)) == n % 10
  {
  }

  lemma FourDigitValue(n: nat)
    requires n < 10000
    ensures n == n / 1000 % 10 * 1000 + n / 100 % 10 * 100 + n / 10 % 10 * 10 + n % 10
  {
    assert n / 10 / 10 == n / 100 && n / 100 / 10 == n / 1000;
    assert n == n / 10 * 10 + n % 10;
    assert n / 10 == n / 100 * 10 + n / 10 % 10;
    assert n / 100 == n / 1000 * 10 + n / 100 % 10;
  }

  /** Reading a label gives the day back. */
  lemma ParseLabel(d: Date)
    requires IsDate(d) && d.year < 10000
    ensures ParseDateOnlyUTC(DayLabel(d)) == Day(d)
  {
    MonthAndDaySmall(d);
    hide Trim, DigitChar, DigitValue, IsDigit, IsDate, DayLabel;
    LabelTrimmed(d);
    LabelDigits(d);
  }

  lemma MonthAndDaySmall(d: Date)
    requires IsDate(d)
    ensures d.month < 100 && d.day < 100
  {
  }

  lemma TwoDigitValue(n: nat)
    requires n < 100
    ensures n == n / 10 % 10 * 10 + n % 10
  {
  }

  lemma LabelDigits(d: Date)
    requires d.month < 100 && d.day < 100 && d.year < 10000
    ensures var v := DayLabel(d);
            && LooksLikeDate(v)
            && DigitValue(v[0]) * 1000 + DigitValue(v[1]) * 100 + DigitValue(v[2]) * 10 + DigitValue(v[3]) == d.year
            && DigitValue(v[5]) * 10 + DigitValue(v[6]) == d.month
            && DigitValue(v[8]) * 10 + DigitValue(v[9]) == d.day
  {
    hide DigitChar, DigitValue, IsDigit;
    DigitRoundTrip(d.year / 1000);
    DigitRoundTrip(d.year / 100);
    DigitRoundTrip(d.year / 10);
    DigitRoundTrip(d.year);
    DigitRoundTrip(d.month / 10);
    DigitRoundTrip(d.month);
    DigitRoundTrip(d.day / 10);
    DigitRoundTrip(d.day);
    FourDigitValue(d.year);
    TwoDigitValue(d.month);
    TwoDigitValue(d.day);
  }

  lemma LabelTrimmed(d: Date)
    ensures Trim(DayLabel(d)) == DayLabel(d)
  {
    TrimFixed(DayLabel(d));
  }

  /** A text is read as a day exactly if it is, up to space around it, the label of that day. */
  lemma ParseExactly(raw: string, d: Date)
    ensures ParseDateOnlyUTC(raw) == Day(d) <==> IsDate(d) && d.year < 10000 && Trim(raw) == DayLabel(d)
  {
    hide Trim, IsDate, DayLabel, DigitValue, IsDigit;
    if IsDate(d) && d.year < 10000 {
      MonthAndDaySmall(d);
      LabelDigits(d);
    }
    if LooksLikeDate(Trim(raw)) {
      LabelOfDigits(Trim(raw));
    }
  }

  lemma LabelOfDigits(v: string)
    requires LooksLikeDate(v)
    ensures var year := DigitValue(v[0]) * 1000 + DigitValue(v[1]) * 100 + DigitValue(v[2]) * 10 + DigitValue(v[3]);
            && year < 10000
            && DayLabel(Date(year, DigitValue(v[5]) * 10 + DigitValue(v[6]), DigitValue(v[8]) * 10 + DigitValue(v[9]))) == v
  {
    FourDigitChars(v[0], v[1], v[2], v[3]);
    FourDigitChars('0', '0', v[5], v[6]);
    FourDigitChars('0', '0', v[8], v[9]);
  }

  lemma FourDigitChars(a: char, b: char, c: char, d: char)
    requires IsDigit(a) && IsDigit(b) && IsDigit(c) && IsDigit(d)
    ensures var n := DigitValue(a) * 1000 + DigitValue(b) * 100 + DigitValue(c) * 10 + DigitValue(d);
            && n < 10000
            && DigitChar(n / 1000) == a && DigitChar(n / 100) == b && DigitChar(n / 10) == c && DigitChar(n) == d
  {
    hide DigitChar, DigitValue, IsDigit;
    LastDigitChar(0, a);
    LastDigitChar(DigitValue(a), b);
    LastDigitChar(DigitValue(a) * 10 + DigitValue(b), c);
    LastDigitChar(DigitValue(a) * 100 + DigitValue(b) * 10 + DigitValue(c), d);
    Shift(DigitValue(a), DigitValue(b), DigitValue(c), DigitValue(d));
  }

  lemma Shift(a: nat, b: nat, c: nat, d: nat)
    requires a < 10 && b < 10 && c < 10 && d < 10
    ensures var n := a * 1000 + b * 100 + c * 10 + d;
            n < 10000 && n / 1000 == a && n / 100 == a * 10 + b && n / 10 == a * 100 + b * 10 + c
  {
  }

  lemma LastDigitChar(tens: nat, c: char)
    requires IsDigit(c)
    ensures DigitValue(c) < 10 && DigitChar(tens * 10 + DigitValue(c)) == c
  {
    assert (tens * 10 + DigitValue(c)) % 10 == DigitValue(c);
  }

  /** The leap day of 2024, the same day of 2023, and a day that is not written out. */
  lemma ParseExamples()
    ensures DayLabel(Date(2024, 2, 29)) == "2024-02-29"
    ensures ParseDateOnlyUTC("2024-02-29") == Day(Date(2024, 2, 29))
    ensures ParseDateOnlyUTC("2023-02-29") == InvalidDate && ParseDateOnlyUTC("2024-2-9") == NoMatch
  {
    LeapDayLabel();
    hide Trim, DayLabel, DaysInMonth;
    ParseLabel(Date(2024, 2, 29));
    TrimFixed("2023-02-29");
    TrimFixed("2024-2-9");
    LabelOfDigits("2023-02-29");
  }

  lemma LeapDayLabel()
    ensures DayLabel(Date(2024, 2, 29)) == "2024-02-29"
    ensures IsDate(Date(2024, 2, 29)) && !IsDate(Date(2023, 2, 29))
  {
    assert 2024 / 1000 == 2 && 2024 / 100 == 20 && 2024 / 10 == 202;
  }

  // ---------------------------------------------------------------------------------
  // Filling
  // ---------------------------------------------------------------------------------

  datatype Point<T> = Point(bucket: string, rest: T)

  function NormalizeDailyBucketLabel(bucket: string): string {
    var t := Trim(bucket);
    if |t| > 10 then t[..10] else t
  }

  function Normalized<T>(points: seq<Point<T>>): seq<Point<T>> {
    seq(|points|, i requires 0 <= i < |points| =>
      points[i].(bucket := NormalizeDailyBucketLabel(points[i].bucket)))
  }

  /** The last of the points filed under a label. */
  function LastFor<T>(points: seq<Point<T>>, day: string): Option<Point<T>> {
    if points == [] then None
    else if NormalizeDailyBucketLabel(points[|points| - 1].bucket) == day then Some(points[|points| - 1])
    else LastFor(points[..|points| - 1], day)
  }

  function PointFor<T>(points: seq<Point<T>>, day: string, zeroPoint: string -> Point<T>): Point<T> {
    match LastFor(points, day)
    case Some(p) => p
    case None => zeroPoint(day)
  }

  /** One point per day from start to end. */
  function Filled<T>(points: seq<Point<T>>, start: Date, days: nat, zeroPoint: string -> Point<T>): seq<Point<T>> {
    seq(days, k requires 0 <= k < days => PointFor(points, DayLabel(AddDays(start, k)), zeroPoint))
  }

  lemma ParsedIsDate(raw: string)
    ensures ParseDateOnlyUTC(raw).Day? ==> IsDate(ParseDateOnlyUTC(raw).date)
  {
  }

  method FillDailyBuckets<T>(points: seq<Point<T>>, start: string, end: string, zeroPoint: string -> Point<T>)
    returns (out: seq<Point<T>>)
    ensures
      var normalized := Normalized(points);
      match (ParseDateOnlyUTC(start), ParseDateOnlyUTC(end))
      case (Day(first), Day(last)) =>
        if DayNumber(first) > DayNumber(last) then out == normalized
        else out == Filled(normalized, first, DayNumber(last) - DayNumber(first) + 1, zeroPoint)
      case (NoMatch, _) => out == normalized
      case (_, NoMatch) => out == normalized
      case _ => out == [] // a date object without a time value compares false with everything
  {
    hide Normalized, ParseDateOnlyUTC, DayLabel, NextDay, IsDate, DayNumber, LastFor;
    ParsedIsDate(start);
    ParsedIsDate(end);
    var normalized := Normalized(points);
    var startDate, endDate := ParseDateOnlyUTC(start), ParseDateOnlyUTC(end);
    if startDate.NoMatch? || endDate.NoMatch? {
      return normalized;
    }
    if startDate.InvalidDate? || endDate.InvalidDate? {
      return [];
    }
    if DayNumber(startDate.date) > DayNumber(endDate.date) {
      return normalized;
    }
    var byDay := IndexByDay(normalized);
    out := [];
    var cursor := startDate.date;
    ghost var n: nat := 0;
    while DayNumber(cursor) <= DayNumber(endDate.date)
      invariant IsDate(cursor) && cursor == AddDays(startDate.date, n)
      invariant DayNumber(cursor) == DayNumber(startDate.date) + n <= DayNumber(endDate.date) + 1
      invariant out == Filled(normalized, startDate.date, n, zeroPoint)
      decreases DayNumber(endDate.date) + 1 - DayNumber(cursor)
    {
      var key := DayLabel(cursor);
      LabelNotEmpty(cursor);
      out := out + [if key in byDay then byDay[key] else zeroPoint(key)];
      NextDayIsNext(cursor);
      cursor := NextDay(cursor);
      n := n + 1;
    }
  }

  lemma LabelNotEmpty(d: Date)
    ensures DayLabel(d) != ""
  {
  }

  method IndexByDay<T>(points: seq<Point<T>>) returns (byDay: map<string, Point<T>>)
    ensures forall day | day != "" ::
              (day in byDay <==> LastFor(points, day).Some?) &&
              (day in byDay ==> Some(byDay[day]) == LastFor(points, day))
  {
    hide NormalizeDailyBucketLabel;
    byDay := map[];
    for i := 0 to |points|
      invariant forall day | day != "" ::
                  (day in byDay <==> LastFor(points[..i], day).Some?) &&
                  (day in byDay ==> Some(byDay[day]) == LastFor(points[..i], day))
    {
      assert points[..i + 1][..i] == points[..i];
      var key := NormalizeDailyBucketLabel(points[i].bucket);
      if key != "" {
        byDay := byDay[key := points[i]];
      }
    }
    assert points[..|points|] == points;
  }

  // ---------------------------------------------------------------------------------
  // What the chart gets
  // ---------------------------------------------------------------------------------

  lemma {:induction false} LastForLabel<T>(points: seq<Point<T>>, d: Date)
    ensures var r := LastFor(Normalized(points), DayLabel(d));
            r.Some? ==> r.value.bucket == DayLabel(d) && r.value in Normalized(points)
  {
    hide Trim;
    if points != [] {
      var init := points[..|points| - 1];
      assert Normalized(points)[..|points| - 1] == Normalized(init);
      LastForLabel(init, d);
      TrimNoLonger(NormalizeDailyBucketLabel(points[|points| - 1].bucket));
    }
  }

  lemma TrimNoLonger(s: string)
    ensures |Trim(s)| <= |s| && (|Trim(s)| == |s| ==> Trim(s) == s)
  {
    LeftNoLonger(s);
    RightNoLonger(TrimLeft(s));
  }

  lemma {:induction false} LeftNoLonger(s: string)
    ensures |TrimLeft(s)| <= |s| && (|TrimLeft(s)| == |s| ==> TrimLeft(s) == s)
  {
    if s != "" {
      LeftNoLonger(s[1..]);
    }
  }

  lemma {:induction false} RightNoLonger(s: string)
    ensures |TrimRight(s)| <= |s| && (|TrimRight(s)| == |s| ==> TrimRight(s) == s)
  {
    if s != "" {
      RightNoLonger(s[..|s| - 1]);
    }
  }

  /** Point `i` is the last one filed under the day: its trimmed bucket starts with the label. */
  ghost predicate IsLastOf<T>(points: seq<Point<T>>, i: nat, day: string) {
    && i < |points| && day <= Trim(points[i].bucket)
    && forall j | i < j < |points| :: !(day <= Trim(points[j].bucket))
  }

  /** The point a day should get: the last one filed under it, relabelled, or the zero point. */
  ghost predicate IsPointOf<T>(points: seq<Point<T>>, day: string, p: Point<T>, zeroPoint: string -> Point<T>) {
    if exists i: nat :: IsLastOf(points, i, day) then
      exists i: nat :: IsLastOf(points, i, day) && p == points[i].(bucket := day)
    else p == zeroPoint(day)
  }

  lemma {:induction false} PointForDay<T>(points: seq<Point<T>>, d: Date, zeroPoint: string -> Point<T>)
    ensures IsPointOf(points, DayLabel(d), PointFor(Normalized(points), DayLabel(d), zeroPoint), zeroPoint)
  {
    hide Trim, DayLabel, NormalizeDailyBucketLabel, IsPointOf;
    var day := DayLabel(d);
    if points == [] {
      NoPoint(points, day, zeroPoint);
    } else {
      var init, last := points[..|points| - 1], points[|points| - 1];
      assert Normalized(points)[..|points| - 1] == Normalized(init);
      NormalizedTwice(last.bucket, d);
      PointForDay(init, d, zeroPoint);
      OnePointMore(points, day, PointFor(Normalized(init), day, zeroPoint), zeroPoint);
    }
  }

  lemma NoPoint<T>(points: seq<Point<T>>, day: string, zeroPoint: string -> Point<T>)
    requires points == []
    ensures IsPointOf(points, day, zeroPoint(day), zeroPoint)
  {
  }

  lemma OnePointMore<T>(points: seq<Point<T>>, day: string, p: Point<T>, zeroPoint: string -> Point<T>)
    requires points != [] && IsPointOf(points[..|points| - 1], day, p, zeroPoint)
    ensures var last := points[|points| - 1];
            IsPointOf(points, day, if day <= Trim(last.bucket) then last.(bucket := day) else p, zeroPoint)
  {
    hide Trim;
    var init, last := points[..|points| - 1], points[|points| - 1];
    if day <= Trim(last.bucket) {
      assert IsLastOf(points, |points| - 1, day);
    } else {
      assert forall i | 0 <= i < |init| :: init[i] == points[i];
      assert forall i: nat :: IsLastOf(init, i, day) <==> IsLastOf(points, i, day);
    }
  }

  lemma NormalizedTwice(bucket: string, d: Date)
    ensures var once := NormalizeDailyBucketLabel(bucket);
            && (NormalizeDailyBucketLabel(once) == DayLabel(d) <==> DayLabel(d) <= Trim(bucket))
            && (DayLabel(d) <= Trim(bucket) ==> once == DayLabel(d))
  {
    hide Trim, DayLabel;
    LabelTrimmed(d);
    assert |DayLabel(d)| == 10 by {
      TenLong(d);
    }
    var t, once := Trim(bucket), NormalizeDailyBucketLabel(bucket);
    assert once == DayLabel(d) <==> DayLabel(d) <= t;
    TrimNoLonger(once);
  }

  lemma TenLong(d: Date)
    ensures |DayLabel(d)| == 10
  {
  }

  /** The filled series carries the consecutive days from start to end, in order and each once,
      under their own labels, each with the last point filed under it or the zero point; it starts at the start day and ends at the end day. */
  lemma FilledIsConsecutive<T>(points: seq<Point<T>>, start: Date, end: Date, zeroPoint: string -> Point<T>)
    requires IsDate(start) && IsDate(end) && DayNumber(start) <= DayNumber(end) && end.year < 10000
    requires forall day :: zeroPoint(day).bucket == day
    ensures
      var days := DayNumber(end) - DayNumber(start) + 1;
      var out := Filled(Normalized(points), start, days, zeroPoint);
      && |out| == days
      && (forall k | 0 <= k < days ::
            && out[k].bucket == DayLabel(AddDays(start, k)) && IsDate(AddDays(start, k))
            && DayNumber(AddDays(start, k)) == DayNumber(start) + k)
      && (forall k | 0 <= k < days :: IsPointOf(points, out[k].bucket, out[k], zeroPoint))
      && out[0].bucket == DayLabel(start) && out[days - 1].bucket == DayLabel(end)
      && (forall i, j | 0 <= i < j < days :: out[i].bucket != out[j].bucket)
  {
    hide Filled, DayLabel, DayNumber, IsDate, AddDays, IsPointOf;
    var days := DayNumber(end) - DayNumber(start) + 1;
    var out := Filled(Normalized(points), start, days, zeroPoint);
    forall k | 0 <= k < days
      ensures |out| == days && out[k].bucket == DayLabel(AddDays(start, k)) && IsDate(AddDays(start, k))
      ensures DayNumber(AddDays(start, k)) == DayNumber(start) + k && AddDays(start, k).year < 10000
      ensures IsPointOf(points, out[k].bucket, out[k], zeroPoint) {
      FilledAt(points, start, end, zeroPoint, k);
    }
    FilledAt(points, start, end, zeroPoint, 0);
    DayNumberInjective(AddDays(start, 0), start);
    DayNumberInjective(AddDays(start, days - 1), end);
    forall i, j | 0 <= i < j < days ensures out[i].bucket != out[j].bucket {
      if out[i].bucket == out[j].bucket {
        DayLabelInjective(AddDays(start, i), AddDays(start, j));
      }
    }
  }

  lemma FilledAt<T>(points: seq<Point<T>>, start: Date, end: Date, zeroPoint: string -> Point<T>, k: nat)
    requires IsDate(start) && IsDate(end) && DayNumber(start) + k <= DayNumber(end) && end.year < 10000
    requires forall day :: zeroPoint(day).bucket == day
    ensures var out := Filled(Normalized(points), start, DayNumber(end) - DayNumber(start) + 1, zeroPoint);
            && |out| == DayNumber(end) - DayNumber(start) + 1
            && out[k].bucket == DayLabel(AddDays(start, k)) && IsDate(AddDays(start, k))
            && DayNumber(AddDays(start, k)) == DayNumber(start) + k && AddDays(start, k).year < 10000
            && IsPointOf(points, out[k].bucket, out[k], zeroPoint)
  {
    hide DayLabel, DayNumber, IsDate, AddDays, Normalized, LastFor, IsPointOf;
    PointForDay(points, AddDays(start, k), zeroPoint);
    AddDaysNumber(start, k);
    LastForLabel(points, AddDays(start, k));
    NotLater(AddDays(start, k), end);
  }

  lemma NotLater(a: Date, b: Date)
    requires IsDate(a) && IsDate(b) && DayNumber(a) <= DayNumber(b)
    ensures a.year <= b.year
  {
    if b.year < a.year {
      EarlierYear(b, a);
    }
  }
}
