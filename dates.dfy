/**
 * Calendar dates as Python's `datetime.date` treats them: the proleptic
 * Gregorian calendar for years 1..9999, the day number `toordinal()`
 * (1 for 0001-01-01), comparison, `str(date)`, `strptime(s, "%Y-%m-%d")`
 * and `isocalendar()` (the week date of section 4.1.4 of ISO 8601:2004).
 */
module Dates {
  import opened Options
  import opened Text

  datatype Date = Date(year: int, month: int, day: int)

  predicate IsLeap(y: int) {
    y % 4 == 0 && (y % 100 != 0 || y % 400 == 0)
  }

  function DaysInMonth(y: int, m: int): int
    requires 1 <= m <= 12
  {
    if m == 2 then (if IsLeap(y) then 29 else 28)
    else if m == 4 || m == 6 || m == 9 || m == 11 then 30
    else 31
  }

  function DaysInYear(y: int): int {
    if IsLeap(y) then 366 else 365
  }

  /** The dates `datetime.date(year, month, day)` accepts (MINYEAR 1, MAXYEAR 9999). */
  predicate Valid(d: Date) {
    1 <= d.year <= 9999 && 1 <= d.month <= 12 && 1 <= d.day <= DaysInMonth(d.year, d.month)
  }

  type CalDate = d: Date | Valid(d) witness Date(1, 1, 1)

  /** Days before January 1 of year `y` (Python's `_days_before_year`; floor division). */
  function DaysBeforeYear(y: int): int {
    var n := y - 1;
    n * 365 + n / 4 - n / 100 + n / 400
  }

  /** Days in year `y` before the first of month `m` (Python's `_days_before_month`). */
  function DaysBeforeMonth(y: int, m: int): int
    requires 1 <= m <= 12
  {
    var common :=
      if m == 1 then 0 else if m == 2 then 31 else if m == 3 then 59 else if m == 4 then 90
      else if m == 5 then 120 else if m == 6 then 151 else if m == 7 then 181 else if m == 8 then 212
      else if m == 9 then 243 else if m == 10 then 273 else if m == 11 then 304 else 334;
    common + (if m > 2 && IsLeap(y) then 1 else 0)
  }

  /** `d.toordinal()`. */
  function Ordinal(d: CalDate): int {
    DaysBeforeYear(d.year) + DaysBeforeMonth(d.year, d.month) + d.day
  }

  /** `a < b` on dates: Python compares the (year, month, day) triples. */
  predicate Before(a: Date, b: Date) {
    a.year < b.year || (a.year == b.year && (a.month < b.month || (a.month == b.month && a.day < b.day)))
  }

  // ---------------------------------------------------------------- the day count

  /** Floor division by `k` steps up by one exactly at the multiples of `k`. */
  lemma DivStep(y: int, k: int)
    requires k > 0
    ensures y / k - (y - 1) / k == if y % k == 0 then 1 else 0
  {
    var q, r := y / k, y % k;
    if r == 0 {
      DivUnique(y - 1, k, q - 1, k - 1);
    } else {
      DivUnique(y - 1, k, q, r - 1);
    }
  }

  /** The quotient and remainder of Euclidean division are the only ones. */
  lemma DivUnique(a: int, k: int, q: int, r: int)
    requires k > 0 && 0 <= r < k && a == k * q + r
    ensures a / k == q
  {
    var q', r' := a / k, a % k;
    assert k * (q' - q) == r - r' by {
      assert k * q' + r' == k * q + r;
      assert k * (q' - q) == k * q' - k * q;
    }
    MulSign(k, q' - q);
  }

  /** A positive factor keeps a non-zero whole number at least that far from zero. */
  lemma {:induction false} MulSign(k: int, d: int)
    requires k > 0
    ensures d >= 1 ==> k * d >= k
    ensures d <= -1 ==> k * d <= -k
    decreases if d < 0 then -d else d
  {
    if d > 1 {
      MulSign(k, d - 1);
      assert k * d == k * (d - 1) + k;
    } else if d < -1 {
      MulSign(k, d + 1);
      assert k * d == k * (d + 1) - k;
    }
  }

  lemma YearLength(y: int)
    ensures DaysBeforeYear(y + 1) == DaysBeforeYear(y) + DaysInYear(y)
  {
    DivStep(y, 4);
    DivStep(y, 100);
    DivStep(y, 400);
  }

  /** Each year adds at least 365 days to the count. */
  lemma {:induction false} DaysBeforeYearGrows(y1: int, y2: int)
    requires y1 <= y2
    ensures DaysBeforeYear(y1) + 365 * (y2 - y1) <= DaysBeforeYear(y2)
    decreases y2 - y1
  {
    if y1 < y2 {
      DaysBeforeYearGrows(y1, y2 - 1);
      YearLength(y2 - 1);
    }
  }

  lemma MonthsFitYear(y: int, m1: int, m2: int)
    requires 1 <= m1 < m2 <= 12
    ensures DaysBeforeMonth(y, m1) + DaysInMonth(y, m1) <= DaysBeforeMonth(y, m2)
    ensures DaysBeforeMonth(y, m2) + DaysInMonth(y, m2) <= DaysInYear(y)
  {
  }

  lemma DayOfYearBounds(d: CalDate)
    ensures DaysBeforeYear(d.year) < Ordinal(d) <= DaysBeforeYear(d.year + 1)
  {
    YearLength(d.year);
    if d.month < 12 {
      MonthsFitYear(d.year, d.month, 12);
    }
  }

  /**
   * The day count orders dates exactly as Python's comparison of dates
   * does, and tells distinct dates apart, so `<`, `==` and "at most 7
   * days after" (`date + timedelta(days=7)` is the date whose count is
   * 7 more) can be decided on counts.
   */
  lemma OrdinalOrder(a: CalDate, b: CalDate)
    ensures Before(a, b) <==> Ordinal(a) < Ordinal(b)
    ensures a == b <==> Ordinal(a) == Ordinal(b)
  {
    if Before(a, b) {
      BeforeOrdinal(a, b);
    }
    if Before(b, a) {
      BeforeOrdinal(b, a);
    }
  }

  lemma BeforeOrdinal(a: CalDate, b: CalDate)
    requires Before(a, b)
    ensures Ordinal(a) < Ordinal(b)
  {
    if a.year < b.year {
      DayOfYearBounds(a);
      DayOfYearBounds(b);
      DaysBeforeYearGrows(a.year + 1, b.year);
    } else if a.month < b.month {
      MonthsFitYear(a.year, a.month, b.month);
    }
  }

  // ---------------------------------------------------------------- str and strptime

  /** `str(d)` (`d.isoformat()`): YYYY-MM-DD, zero-padded. */
  function FormatIso(d: CalDate): string {
    Pad4(d.year) + "-" + Pad2(d.month) + "-" + Pad2(d.day)
  }

  /** What `%m` in `strptime` accepts: `1[0-2]|0[1-9]|[1-9]`. */
  predicate IsMonthField(t: string) {
    (|t| == 2 && t[0] == '1' && '0' <= t[1] <= '2')
    || (|t| == 2 && t[0] == '0' && '1' <= t[1] <= '9')
    || (|t| == 1 && '1' <= t[0] <= '9')
  }

  /**
   * What `%d` at the end of the format accepts as the whole rest of the
   * string: `3[01]|[12]\d|0[1-9]|[1-9]| [1-9]` (tried in that order, so
   * "32" matches only "3" and leaves unconverted data).
   */
  predicate IsDayField(t: string) {
    (|t| == 2 && t[0] == '3' && '0' <= t[1] <= '1')
    || (|t| == 2 && '1' <= t[0] <= '2' && IsDigit(t[1]))
    || (|t| == 2 && t[0] == '0' && '1' <= t[1] <= '9')
    || (|t| == 1 && '1' <= t[0] <= '9')
    || (|t| == 2 && t[0] == ' ' && '1' <= t[1] <= '9')
  }

  /** `int(t)` of a month or day field (`int` skips the leading blank of " 5"). */
  function FieldValue(t: string): nat
    requires IsMonthField(t) || IsDayField(t)
  {
    if t[0] == ' ' then DigitValue(t[1]) else DigitsToNat(t)
  }

  /**
   * `datetime.strptime(s, "%Y-%m-%d").date()`, with None where it raises
   * ValueError: four digits, '-', a month field, '-', a day field and
   * nothing more, naming a day that exists.
   */
  function ParseIsoDate(s: string): (r: Option<CalDate>)
    ensures r.Some? ==> |s| >= 8 && s[4] == '-'
  {
    if |s| < 5 || !AllDigits(s[..4]) || s[4] != '-' then None
    else
      var rest := s[5..];
      match IndexOf(rest, "-")
      case None => None
      case Some(i) =>
        var monthText := rest[..i];
        var dayText := rest[i + 1..];
        if !IsMonthField(monthText) || !IsDayField(dayText) then None
        else
          var d := Date(DigitsToNat(s[..4]), FieldValue(monthText), FieldValue(dayText));
          if Valid(d) then var c: CalDate := d; Some(c) else None
  }

  /** A zero-padded month is a month field that reads back as the month. */
  lemma MonthFieldOfPad2(n: nat)
    requires 1 <= n <= 12
    ensures IsMonthField(Pad2(n)) && FieldValue(Pad2(n)) == n
  {
    var t := Pad2(n);
    assert t[0] == DigitChar(n / 10) && t[1] == DigitChar(n % 10);
  }

  /** A zero-padded day is a day field that reads back as the day. */
  lemma DayFieldOfPad2(n: nat)
    requires 1 <= n <= 31
    ensures IsDayField(Pad2(n)) && FieldValue(Pad2(n)) == n
  {
    var t := Pad2(n);
    assert t[0] == DigitChar(n / 10) && t[1] == DigitChar(n % 10);
  }

  /** A month field holds no '-', so the first '-' after it is the separator. */
  lemma MonthFieldNoDash(m: string)
    requires IsMonthField(m)
    ensures forall k :: 0 <= k < |m| ==> m[k] != '-'
  {
  }

  /** `strptime` accepts a year, a month field and a day field that together name a day. */
  lemma ParseFields(y: string, m: string, dd: string)
    requires |y| == 4 && AllDigits(y) && IsMonthField(m) && IsDayField(dd)
    requires Valid(Date(DigitsToNat(y), FieldValue(m), FieldValue(dd)))
    ensures ParseIsoDate(y + "-" + m + "-" + dd) == Some(Date(DigitsToNat(y), FieldValue(m), FieldValue(dd)))
  {
    var s := y + "-" + m + "-" + dd;
    assert s[..4] == y && s[4] == '-';
    var rest := s[5..];
    assert rest == m + "-" + dd;
    MonthFieldNoDash(m);
    forall k | 0 <= k < |m| ensures !At(rest, "-", k) {
      assert rest[k..k + 1][0] == m[k];
    }
    assert rest[|m|..|m| + 1] == "-";
    IndexOfFirst(rest, "-", |m|);
    assert rest[..|m|] == m && rest[|m| + 1..] == dd;
  }

  /**
   * The converse of `ParseFields`: a string `strptime` accepts is four
   * digits, '-', a month field, '-' and a day field, and the date is what
   * those fields read.
   */
  lemma ParseSound(s: string, d: CalDate)
    requires ParseIsoDate(s) == Some(d)
    ensures |s| >= 5 && AllDigits(s[..4]) && DigitsToNat(s[..4]) == d.year
    ensures exists m, dd :: IsMonthField(m) && IsDayField(dd) && s == s[..4] + "-" + m + "-" + dd
                            && FieldValue(m) == d.month && FieldValue(dd) == d.day
  {
    var rest := s[5..];
    var i := IndexOf(rest, "-").value;
    var m, dd := rest[..i], rest[i + 1..];
    assert rest[i..i + 1] == "-";
    assert rest == m + "-" + dd;
    assert s == s[..4] + "-" + rest;
  }

  /** `strptime` reads back what `str(date)` writes. */
  lemma ParseFormatRoundTrip(d: CalDate)
    ensures ParseIsoDate(FormatIso(d)) == Some(d)
  {
    MonthFieldOfPad2(d.month);
    DayFieldOfPad2(d.day);
    ParseFields(Pad4(d.year), Pad2(d.month), Pad2(d.day));
  }

  // ---------------------------------------------------------------- ISO week dates

  /** `date.weekday()` of a day count: Monday is 0 (0001-01-01 was a Monday). */
  function Weekday(o: int): int {
    (o + 6) % 7
  }

  /**
   * The day count of the Monday of ISO week 1 of the year that begins
   * after day `before` (Python's `_isoweek1monday`): the Monday of the
   * week that holds the year's first Thursday.
   */
  function Week1MondayAfter(before: int): (r: int)
    ensures before - 2 <= r <= before + 4
    ensures Weekday(r) == 0
  {
    var firstDay := before + 1;
    var firstWeekday := (firstDay + 6) % 7;
    if firstWeekday > 3 then firstDay - firstWeekday + 7 else firstDay - firstWeekday
  }

  function Week1Monday(y: int): int {
    Week1MondayAfter(DaysBeforeYear(y))
  }

  datatype IsoDate = IsoDate(year: int, week: int, weekday: int)

  /**
   * Python's steps for day `o` of year `y`, given the week-1 Mondays
   * `w0`, `w1`, `w2` of years y-1, y and y+1: count weeks from `w1`;
   * before it the day belongs to y-1, and from week 53 on it belongs to
   * week 1 of y+1 once `w2` is reached.
   */
  function IsoOfDay(o: int, y: int, w0: int, w1: int, w2: int): IsoDate {
    var week, day := (o - w1) / 7, (o - w1) % 7;
    if week < 0 then IsoDate(y - 1, (o - w0) / 7 + 1, (o - w0) % 7 + 1)
    else if week >= 52 && o >= w2 then IsoDate(y + 1, 1, day + 1)
    else IsoDate(y, week + 1, day + 1)
  }

  /** `d.isocalendar()`. */
  function IsoCalendar(d: CalDate): IsoDate {
    IsoOfYearDay(Ordinal(d), d.year)
  }

  /** Python's steps for day `o` of year `y`, with the week-1 Mondays of years y-1, y and y+1. */
  function IsoOfYearDay(o: int, y: int): IsoDate {
    IsoOfDay(o, y, Week1Monday(y - 1), Week1Monday(y), Week1Monday(y + 1))
  }

  /**
   * The ISO 8601 week date of day `o`, by definition: weeks start on
   * Monday, a week belongs to the year its Thursday falls in, and its
   * number counts the weeks of that year up to that Thursday.
   */
  ghost predicate IsIsoWeekDate(o: int, iso: IsoDate) {
    1 <= iso.weekday <= 7 && Weekday(o) == iso.weekday - 1 &&
    var thursday := o - iso.weekday + 4;
    DaysBeforeYear(iso.year) < thursday <= DaysBeforeYear(iso.year + 1) &&
    iso.week == (thursday - DaysBeforeYear(iso.year) - 1) / 7 + 1
  }

  /** A day has one ISO week date at most. */
  lemma IsoWeekDateUnique(o: int, a: IsoDate, b: IsoDate)
    requires IsIsoWeekDate(o, a) && IsIsoWeekDate(o, b)
    ensures a == b
  {
    if a.year < b.year {
      DaysBeforeYearGrows(a.year + 1, b.year);
    } else if b.year < a.year {
      DaysBeforeYearGrows(b.year + 1, a.year);
    }
  }

  /** Two Mondays are a whole number of weeks apart. */
  lemma MondayGap(m1: int, m2: int)
    requires Weekday(m1) == 0 && Weekday(m2) == 0 && m1 < m2
    ensures m1 + 7 <= m2
  {
  }

  lemma WeekdayAfterMonday(m: int, k: int, d: int)
    requires Weekday(m) == 0 && 0 <= d < 7
    ensures Weekday(m + 7 * k + d) == d
  {
  }

  lemma WeeksFrom(c: int, k: int)
    requires 0 <= c < 7
    ensures (c + 7 * k) / 7 == k
  {
  }

  /** The facts each case of `IsoOfDay` needs: the day's Thursday and its week number. */
  predicate ThursdayIn(o: int, iso: IsoDate, before: int, after: int) {
    var t := o - iso.weekday + 4;
    1 <= iso.weekday <= 7 && Weekday(o) == iso.weekday - 1 &&
    before < t <= after && iso.week == (t - before - 1) / 7 + 1
  }

  /** Days before the first week-1 Monday `w1` belong to the previous year. */
  lemma IsoOfDayPreviousYear(o: int, w0: int, w1: int, b0: int, b1: int)
    requires w0 == Week1MondayAfter(b0) && w1 == Week1MondayAfter(b1)
    requires 365 <= b1 - b0 && b1 < o < w1
    ensures ThursdayIn(o, IsoDate(0, (o - w0) / 7 + 1, (o - w0) % 7 + 1), b0, b1)
  {
    var week, day := (o - w0) / 7, (o - w0) % 7;
    assert o == w0 + 7 * week + day && 0 <= day < 7 && week >= 0;
    WeekdayAfterMonday(w0, week, day);
    MondayGap(w0 + 7 * week, w1);
    WeeksFrom(w0 - b0 + 2, week);
  }

  /** Days from the next year's week-1 Monday `w2` on belong to week 1 of the next year. */
  lemma IsoOfDayNextYear(o: int, w1: int, w2: int, b1: int, b2: int, b3: int)
    requires w1 == Week1MondayAfter(b1) && w2 == Week1MondayAfter(b2)
    requires 365 <= b3 - b2 && w1 <= o <= b2 && w2 <= o
    ensures ThursdayIn(o, IsoDate(0, 1, (o - w1) % 7 + 1), b2, b3)
  {
    var week, day := (o - w1) / 7, (o - w1) % 7;
    assert o == w1 + 7 * week + day && 0 <= day < 7;
    assert o == w2 + (o - w2) && 0 <= o - w2 < 7;
    WeekdayAfterMonday(w1, week, day);
    WeekdayAfterMonday(w2, 0, o - w2);
  }

  /** Otherwise the day belongs to its own year, in the week counted from `w1`. */
  lemma IsoOfDaySameYear(o: int, w1: int, w2: int, b1: int, b2: int)
    requires w1 == Week1MondayAfter(b1) && w2 == Week1MondayAfter(b2)
    requires 365 <= b2 - b1 && w1 <= o && o <= b2
    requires (o - w1) / 7 >= 52 ==> o < w2
    ensures ThursdayIn(o, IsoDate(0, (o - w1) / 7 + 1, (o - w1) % 7 + 1), b1, b2)
  {
    var week, day := (o - w1) / 7, (o - w1) % 7;
    assert o == w1 + 7 * week + day && 0 <= day < 7 && week >= 0;
    WeekdayAfterMonday(w1, week, day);
    if week >= 52 {
      MondayGap(w1 + 7 * week, w2);
    }
    WeeksFrom(w1 - b1 + 2, week);
  }

  /**
   * Python's steps land in the year whose span (`b0`..`b3` are the day
   * counts before years y-1 .. y+2) holds the day's Thursday, at the
   * week that Thursday falls in.
   */
  lemma IsoOfDayThursday(o: int, y: int, b0: int, b1: int, b2: int, b3: int)
    requires 365 <= b1 - b0 && 365 <= b2 - b1 && 365 <= b3 - b2
    requires b1 < o <= b2
    ensures var iso := IsoOfDay(o, y, Week1MondayAfter(b0), Week1MondayAfter(b1), Week1MondayAfter(b2));
      (iso.year == y - 1 && ThursdayIn(o, iso, b0, b1) && o < Week1MondayAfter(b1)) ||
      (iso.year == y && ThursdayIn(o, iso, b1, b2)) ||
      (iso.year == y + 1 && ThursdayIn(o, iso, b2, b3))
  {
    var w0, w1, w2 := Week1MondayAfter(b0), Week1MondayAfter(b1), Week1MondayAfter(b2);
    var iso := IsoOfDay(o, y, w0, w1, w2);
    if o < w1 {
      assert (o - w1) / 7 < 0;
      IsoOfDayPreviousYear(o, w0, w1, b0, b1);
    } else if (o - w1) / 7 >= 52 && o >= w2 {
      IsoOfDayNextYear(o, w1, w2, b1, b2, b3);
    } else {
      IsoOfDaySameYear(o, w1, w2, b1, b2);
    }
  }

  /** Python's steps give the ISO week date of any day `o` of year `y`. */
  lemma IsoOfDayCorrect(o: int, y: int)
    requires DaysBeforeYear(y) < o <= DaysBeforeYear(y + 1)
    ensures var iso := IsoOfYearDay(o, y);
      IsIsoWeekDate(o, iso) && 1 <= iso.week <= 53 && y - 1 <= iso.year <= y + 1 && (y >= 1 ==> iso.year >= 1)
  {
    IsoOfDayWeekDate(o, y);
    IsoOfDayYear(o, y);
    WeekRange(o, IsoOfYearDay(o, y));
  }

  lemma IsoOfDayWeekDate(o: int, y: int)
    requires DaysBeforeYear(y) < o <= DaysBeforeYear(y + 1)
    ensures IsIsoWeekDate(o, IsoOfYearDay(o, y))
  {
    var b0, b1, b2, b3 := DaysBeforeYear(y - 1), DaysBeforeYear(y), DaysBeforeYear(y + 1), DaysBeforeYear(y + 2);
    YearLength(y - 1);
    YearLength(y);
    YearLength(y + 1);
    IsoOfDayThursday(o, y, b0, b1, b2, b3);
    var iso := IsoOfYearDay(o, y);
    if iso.year == y - 1 {
      ThursdayInYear(o, iso, b0, b1);
    } else if iso.year == y {
      ThursdayInYear(o, iso, b1, b2);
    } else {
      ThursdayInYear(o, iso, b2, b3);
    }
  }

  lemma ThursdayInYear(o: int, iso: IsoDate, before: int, after: int)
    requires before == DaysBeforeYear(iso.year) && after == DaysBeforeYear(iso.year + 1)
    requires ThursdayIn(o, iso, before, after)
    ensures IsIsoWeekDate(o, iso)
  {
  }

  lemma IsoOfDayYear(o: int, y: int)
    requires DaysBeforeYear(y) < o <= DaysBeforeYear(y + 1)
    ensures var iso := IsoOfYearDay(o, y);
      y - 1 <= iso.year <= y + 1 && (y >= 1 ==> iso.year >= 1)
  {
    assert y == 1 ==> DaysBeforeYear(y) == 0 && Week1Monday(y) == 1;
  }

  /** `isocalendar()` computes the ISO week date, with weeks 1..53 and a year of at least 1. */
  lemma IsoCalendarCorrect(d: CalDate)
    ensures IsIsoWeekDate(Ordinal(d), IsoCalendar(d))
    ensures 1 <= IsoCalendar(d).week <= 53 && IsoCalendar(d).year >= 1
    ensures d.year - 1 <= IsoCalendar(d).year <= d.year + 1
  {
    DayOfYearBounds(d);
    IsoOfDayCorrect(Ordinal(d), d.year);
  }

  /** A year holds at most 53 ISO weeks. */
  lemma WeekRange(o: int, iso: IsoDate)
    requires IsIsoWeekDate(o, iso)
    ensures 1 <= iso.week <= 53
  {
    YearLength(iso.year);
    WeekOfThursday(o - iso.weekday + 4, DaysBeforeYear(iso.year), DaysBeforeYear(iso.year + 1));
  }

  lemma WeekOfThursday(t: int, before: int, after: int)
    requires before < t <= after && after - before <= 366
    ensures 1 <= (t - before - 1) / 7 + 1 <= 53
  {
  }

  // ---------------------------------------------------------------- examples

  lemma Year2024()
    ensures DigitsToNat("2024") == 2024
  {
    assert "2024"[..3] == "202" && "202"[..2] == "20" && "20"[..1] == "2" && "2"[..0] == "";
  }

  /** Unpadded months and days are accepted. */
  lemma ParseUnpadded()
    ensures ParseIsoDate("2024-6-1") == Some(Date(2024, 6, 1))
  {
    Year2024();
    assert "6"[..0] == "" && "1"[..0] == "";
    ParseFields("2024", "6", "1");
    assert "2024" + "-" + "6" + "-" + "1" == "2024-6-1";
  }

  /** A blank before a one-digit day is accepted. */
  lemma ParseBlankDay()
    ensures ParseIsoDate("2024-06- 5") == Some(Date(2024, 6, 5))
  {
    Year2024();
    assert "06"[..1] == "0" && "0"[..0] == "";
    assert IsMonthField("06") && IsDayField(" 5");
    assert FieldValue("06") == 6 && FieldValue(" 5") == 5;
    ParseFields("2024", "06", " 5");
    assert "2024" + "-" + "06" + "-" + " 5" == "2024-06- 5";
  }

  /** A day the month does not have is refused. */
  lemma ParseNoSuchDay()
    ensures ParseIsoDate("2024-02-30") == None
  {
  }

  /** ISO years differ from calendar years around New Year: 2024-12-30 is in week 1 of 2025. */
  lemma IsoYearEnd()
    ensures IsoCalendar(Date(2024, 12, 30)) == IsoDate(2025, 1, 1)
  {
    assert DaysBeforeYear(2023) == 738520 && DaysBeforeYear(2024) == 738885 && DaysBeforeYear(2025) == 739251;
    assert Ordinal(Date(2024, 12, 30)) == 739250;
    assert Week1Monday(2023) == 738522 && Week1Monday(2024) == 738886 && Week1Monday(2025) == 739250;
  }

  /** 2021-01-03 is the Sunday of week 53 of 2020. */
  lemma IsoYearStart()
    ensures IsoCalendar(Date(2021, 1, 3)) == IsoDate(2020, 53, 7)
  {
    assert DaysBeforeYear(2020) == 737424 && DaysBeforeYear(2021) == 737790 && DaysBeforeYear(2022) == 738155;
    assert Ordinal(Date(2021, 1, 3)) == 737793;
    assert Week1Monday(2020) == 737423 && Week1Monday(2021) == 737794 && Week1Monday(2022) == 738158;
  }
}
