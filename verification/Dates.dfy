/** The parts of Python's datetime.date the pipeline uses, over the proleptic
    Gregorian ordinal (0001-01-01 is day 1, as date.toordinal() counts):
    construction from year, month and day, weekday(), the calendar year,
    isocalendar() and strptime(text, "%Y-%m-%d").date(). ISO week dates are
    those of section 4.1.4 of ISO 8601:2004: a week starts on Monday and week 1
    of a year is the week that holds its first Thursday. */
module Dates {
  import opened Text

  /** A calendar date as its ordinal. */
  type Date = nat

  /** date.weekday(): Monday is 0, Sunday is 6. */
  function Weekday(d: Date): (w: int)
    ensures 0 <= w < 7
  {
    (d + 6) % 7
  }

  predicate IsLeap(y: int) {
    y % 4 == 0 && (y % 100 != 0 || y % 400 == 0)
  }

  /** Number of days in the years before year y. */
  function DaysBeforeYear(y: int): int {
    var p := y - 1;
    p * 365 + p / 4 - p / 100 + p / 400
  }

  function DaysInYear(y: int): int {
    if IsLeap(y) then 366 else 365
  }

  /** Consecutive year starts are one year length apart. */
  lemma YearLength(y: int)
    ensures DaysBeforeYear(y + 1) - DaysBeforeYear(y) == DaysInYear(y)
  {
    assert y / 4 - (y - 1) / 4 == if y % 4 == 0 then 1 else 0;
    assert y / 100 - (y - 1) / 100 == if y % 100 == 0 then 1 else 0;
    assert y / 400 - (y - 1) / 400 == if y % 400 == 0 then 1 else 0;
    assert y % 100 == 0 ==> y % 4 == 0;
    assert y % 400 == 0 ==> y % 100 == 0;
  }

  lemma {:induction false} DaysBeforeYearGrows(a: int, b: int)
    requires a <= b
    ensures DaysBeforeYear(b) - DaysBeforeYear(a) >= 365 * (b - a)
    ensures DaysBeforeYear(b) - DaysBeforeYear(a) <= 366 * (b - a)
    decreases b - a
  {
    if a < b {
      DaysBeforeYearGrows(a, b - 1);
      YearLength(b - 1);
    }
  }

  function DaysInMonth(y: int, m: int): (n: int)
    requires 1 <= m <= 12
    ensures 28 <= n <= 31
  {
    if m == 2 then (if IsLeap(y) then 29 else 28)
    else if m == 4 || m == 6 || m == 9 || m == 11 then 30
    else 31
  }

  /** Number of days in the months of year y before month m. */
  function DaysBeforeMonth(y: int, m: int): (n: int)
    requires 1 <= m <= 12
    ensures m == 1 ==> n == 0
    ensures m > 1 ==> n == DaysBeforeMonth(y, m - 1) + DaysInMonth(y, m - 1)
  {
    var table := [0, 31, 59, 90, 120, 151, 181, 212, 243, 273, 304, 334];
    table[m - 1] + (if m > 2 && IsLeap(y) then 1 else 0)
  }

  lemma MonthsFitYear(y: int, m: int)
    requires 1 <= m <= 12
    ensures DaysBeforeMonth(y, m) + DaysInMonth(y, m) <= DaysInYear(y)
  {
  }

  predicate IsCalendarDate(y: int, m: int, d: int) {
    y >= 1 && 1 <= m <= 12 && 1 <= d <= DaysInMonth(y, m)
  }

  /** date(y, m, d).toordinal() */
  function FromYmd(y: int, m: int, d: int): Date
    requires IsCalendarDate(y, m, d)
  {
    DaysBeforeYear(y) + DaysBeforeMonth(y, m) + d
  }

  /** Search upward for the year holding ordinal d, starting from a year that
      begins before it. */
  function YearFrom(d: Date, y: int): (r: int)
    requires DaysBeforeYear(y) < d
    ensures r >= y
    ensures DaysBeforeYear(r) < d <= DaysBeforeYear(r + 1)
    decreases d - DaysBeforeYear(y)
  {
    YearLength(y);
    if d <= DaysBeforeYear(y + 1) then y else YearFrom(d, y + 1)
  }

  lemma FirstGuess(d: Date)
    ensures DaysBeforeYear(d / 366) < d
  {
    var y := d / 366;
    if y >= 1 {
      DaysBeforeYearGrows(1, y);
    } else {
      assert DaysBeforeYear(0) == -366;
    }
  }

  /** date.year: the year whose days include ordinal d. */
  function YearOf(d: Date): (y: int)
    ensures DaysBeforeYear(y) < d <= DaysBeforeYear(y + 1)
    ensures d >= 1 ==> y >= 1
  {
    FirstGuess(d);
    var y := YearFrom(d, d / 366);
    YearOfPositive(d, y);
    y
  }

  lemma YearOfPositive(d: int, y: int)
    requires DaysBeforeYear(y) < d <= DaysBeforeYear(y + 1)
    ensures d >= 1 ==> y >= 1
  {
    if d >= 1 && y < 1 {
      DaysBeforeYearGrows(y + 1, 1);
    }
  }

  /** Only one year holds a given ordinal. */
  lemma YearUnique(d: int, a: int, b: int)
    requires DaysBeforeYear(a) < d <= DaysBeforeYear(a + 1)
    requires DaysBeforeYear(b) < d <= DaysBeforeYear(b + 1)
    ensures a == b
  {
    if a < b {
      DaysBeforeYearGrows(a + 1, b);
    } else if b < a {
      DaysBeforeYearGrows(b + 1, a);
    }
  }

  /** date(y, m, d).year == y */
  lemma YearOfFromYmd(y: int, m: int, d: int)
    requires IsCalendarDate(y, m, d)
    ensures YearOf(FromYmd(y, m, d)) == y
  {
    YearLength(y);
    MonthsFitYear(y, m);
    YearUnique(FromYmd(y, m, d), YearOf(FromYmd(y, m, d)), y);
  }

  /** _isoweek1monday(y): the ordinal of the Monday that starts ISO week 1 of
      year y. */
  function IsoWeek1Monday(y: int): int {
    MondayNear(DaysBeforeYear(y) + 1)
  }

  /** The Monday of the week that holds the Thursday nearest to day x: the
      Monday on or before x when x falls on Monday to Thursday, the next one
      otherwise. */
  function MondayNear(x: int): int {
    var weekday := (x + 6) % 7;
    var monday := x - weekday;
    if weekday > 3 then monday + 7 else monday
  }

  lemma MondayNearFacts(x: int)
    ensures MondayNear(x) + 6 == 7 * ((MondayNear(x) + 6) / 7)
    ensures x - 3 <= MondayNear(x) <= x + 3
  {
    var q := (x + 6) / 7;
    var r := (x + 6) % 7;
    assert x + 6 == 7 * q + r;
    var m := MondayNear(x);
    if r > 3 {
      assert m + 6 == 7 * (q + 1);
      assert (m + 6) / 7 == q + 1;
    } else {
      assert m + 6 == 7 * q;
      assert (m + 6) / 7 == q;
    }
  }

  /** Week 1 starts on a Monday at most three days away from January 1. */
  lemma Week1MondayFacts(y: int)
    ensures IsoWeek1Monday(y) + 6 == 7 * ((IsoWeek1Monday(y) + 6) / 7)
    ensures DaysBeforeYear(y) - 2 <= IsoWeek1Monday(y) <= DaysBeforeYear(y) + 4
  {
    MondayNearFacts(DaysBeforeYear(y) + 1);
  }

  /** Week 1 of consecutive years starts 52 or 53 weeks apart. */
  lemma Week1MondayStep(y: int)
    ensures IsoWeek1Monday(y + 1) - IsoWeek1Monday(y) == 364
         || IsoWeek1Monday(y + 1) - IsoWeek1Monday(y) == 371
  {
    Week1MondayFacts(y);
    Week1MondayFacts(y + 1);
    YearLength(y);
    var a := IsoWeek1Monday(y);
    var b := IsoWeek1Monday(y + 1);
    MondayGap(a, b, DaysBeforeYear(y), DaysBeforeYear(y + 1), (a + 6) / 7, (b + 6) / 7);
  }

  /** Two Mondays near the starts of consecutive years lie 52 or 53 weeks
      apart. */
  lemma MondayGap(a: int, b: int, da: int, db: int, qa: int, qb: int)
    requires a + 6 == 7 * qa && b + 6 == 7 * qb
    requires da - 2 <= a <= da + 4 && db - 2 <= b <= db + 4
    requires db - da == 365 || db - da == 366
    ensures b - a == 364 || b - a == 371
  {
    assert b - a == 7 * (qb - qa);
  }

  /** date.isocalendar()[:2]: the ISO year and the ISO week number, computed
      as CPython does from the calendar year and the week-1 Mondays of that
      year and its neighbours. */
  function IsoCalendar(d: Date): (int, int) {
    var year := YearOf(d);
    IsoPick(d, year, IsoWeek1Monday(year - 1), IsoWeek1Monday(year), IsoWeek1Monday(year + 1))
  }

  /** The case analysis of date.isocalendar(): days before this year's week-1
      Monday belong to the last week of the previous ISO year, days from next
      year's week-1 Monday on to week 1 of the next ISO year. */
  function IsoPick(d: int, year: int, previous: int, current: int, next: int): (int, int) {
    var week := (d - current) / 7;
    if week < 0 then
      (year - 1, (d - previous) / 7 + 1)
    else if week >= 52 && d >= next then
      (year + 1, 1)
    else
      (year, week + 1)
  }

  /** date.isocalendar()[1] */
  function IsoWeek(d: Date): int {
    IsoCalendar(d).1
  }

  lemma IsoPickSpec(d: int, year: int, previous: int, current: int, next: int, afterNext: int)
    requires current - previous == 364 || current - previous == 371
    requires next - current == 364 || next - current == 371
    requires previous < d < afterNext
    requires d < current ==> d >= previous
    requires d >= next ==> d - next < 7 && d < afterNext
    ensures var pick := IsoPick(d, year, previous, current, next);
      && (pick.0 == year - 1 || pick.0 == year || pick.0 == year + 1)
      && 1 <= pick.1 <= 53
    ensures var pick := IsoPick(d, year, previous, current, next);
      pick.0 == year - 1 ==> previous <= d < current && pick.1 == (d - previous) / 7 + 1
    ensures var pick := IsoPick(d, year, previous, current, next);
      pick.0 == year ==> current <= d < next && pick.1 == (d - current) / 7 + 1
    ensures var pick := IsoPick(d, year, previous, current, next);
      pick.0 == year + 1 ==> next <= d < afterNext && pick.1 == (d - next) / 7 + 1
  {
  }

  /** The neighbouring week-1 Mondays around a date, as IsoPickSpec needs
      them. */
  lemma IsoPickPremises(d: Date, year: int, previous: int, current: int, next: int, afterNext: int)
    requires year == YearOf(d)
    requires previous == IsoWeek1Monday(year - 1) && current == IsoWeek1Monday(year)
    requires next == IsoWeek1Monday(year + 1) && afterNext == IsoWeek1Monday(year + 2)
    ensures current - previous == 364 || current - previous == 371
    ensures next - current == 364 || next - current == 371
    ensures previous < d < afterNext
    ensures d < current ==> d >= previous
    ensures d >= next ==> d - next < 7 && d < afterNext
  {
    YearLength(year - 1);
    YearLength(year);
    YearLength(year + 1);
    Week1MondayFacts(year - 1);
    Week1MondayFacts(year);
    Week1MondayFacts(year + 1);
    Week1MondayFacts(year + 2);
    Week1MondayStep(year - 1);
    Week1MondayStep(year);
  }

  /** The three cases of date.isocalendar(), each with the week-1 Monday it
      counts from. */
  lemma IsoCalendarCases(d: Date, year: int, previous: int, current: int, next: int, afterNext: int)
    requires year == YearOf(d)
    requires previous == IsoWeek1Monday(year - 1) && current == IsoWeek1Monday(year)
    requires next == IsoWeek1Monday(year + 1) && afterNext == IsoWeek1Monday(year + 2)
    ensures var iso := IsoCalendar(d);
      && (iso.0 == year - 1 || iso.0 == year || iso.0 == year + 1)
      && 1 <= iso.1 <= 53
      && (iso.0 == year - 1 ==> previous <= d < current && iso.1 == (d - previous) / 7 + 1)
      && (iso.0 == year ==> current <= d < next && iso.1 == (d - current) / 7 + 1)
      && (iso.0 == year + 1 ==> next <= d < afterNext && iso.1 == (d - next) / 7 + 1)
  {
    IsoCalendarPick(d, year, previous, current, next);
    IsoPickPremises(d, year, previous, current, next, afterNext);
    IsoPickSpec(d, year, previous, current, next, afterNext);
  }

  lemma IsoCalendarPick(d: Date, year: int, previous: int, current: int, next: int)
    requires year == YearOf(d)
    requires previous == IsoWeek1Monday(year - 1) && current == IsoWeek1Monday(year)
    requires next == IsoWeek1Monday(year + 1)
    ensures IsoCalendar(d) == IsoPick(d, year, previous, current, next)
  {
  }

  /** The ISO calendar agrees with the definition of week dates: the date lies
      in its ISO year, counted from that year's week-1 Monday, and the week
      number is the number of whole weeks since then plus one, from 1 to 53. */
  lemma IsoCalendarSpec(d: Date)
    ensures IsoWeek1Monday(IsoCalendar(d).0) <= d < IsoWeek1Monday(IsoCalendar(d).0 + 1)
    ensures IsoCalendar(d).1 == (d - IsoWeek1Monday(IsoCalendar(d).0)) / 7 + 1
    ensures 1 <= IsoCalendar(d).1 <= 53
  {
    var year := YearOf(d);
    var previous, current := IsoWeek1Monday(year - 1), IsoWeek1Monday(year);
    var next, afterNext := IsoWeek1Monday(year + 1), IsoWeek1Monday(year + 2);
    IsoCalendarCases(d, year, previous, current, next, afterNext);
    var iso := IsoCalendar(d);
    if iso.0 == year - 1 {
      InIsoYear(d, iso, year - 1, previous, current);
    } else if iso.0 == year {
      InIsoYear(d, iso, year, current, next);
    } else {
      InIsoYear(d, iso, year + 1, next, afterNext);
    }
  }

  lemma InIsoYear(d: Date, iso: (int, int), y: int, first: int, following: int)
    requires iso.0 == y && first == IsoWeek1Monday(y) && following == IsoWeek1Monday(y + 1)
    requires first <= d < following && iso.1 == (d - first) / 7 + 1 && 1 <= iso.1 <= 53
    ensures IsoWeek1Monday(iso.0) <= d < IsoWeek1Monday(iso.0 + 1)
    ensures iso.1 == (d - IsoWeek1Monday(iso.0)) / 7 + 1 && 1 <= iso.1 <= 53
  {
    MondaysOf(iso.0, y, first, following);
  }

  lemma MondaysOf(x: int, y: int, first: int, following: int)
    requires x == y && first == IsoWeek1Monday(y) && following == IsoWeek1Monday(y + 1)
    ensures IsoWeek1Monday(x) == first && IsoWeek1Monday(x + 1) == following
  {
  }

  /** Week 1 of a later year starts later. */
  lemma {:induction false} Week1MondayGrows(a: int, b: int)
    requires a < b
    ensures IsoWeek1Monday(a) < IsoWeek1Monday(b)
    decreases b - a
  {
    Week1MondayStep(a);
    if a + 1 < b {
      Week1MondayGrows(a + 1, b);
    }
  }

  /** A date between the week-1 Mondays of year y and year y + 1 lies in ISO
      year y, and its ISO week is the number of whole weeks since the first
      of those Mondays, plus one. */
  lemma IsoWeekOf(d: Date, y: int, first: int, following: int)
    requires IsoWeek1Monday(y) == first && IsoWeek1Monday(y + 1) == following
    requires first <= d < following
    ensures IsoCalendar(d).0 == y
    ensures IsoWeek(d) == (d - first) / 7 + 1
  {
    IsoCalendarSpec(d);
    Week1Unique(d, y, IsoCalendar(d).0);
  }

  /** Only one ISO year holds a given date. */
  lemma Week1Unique(d: int, a: int, b: int)
    requires IsoWeek1Monday(a) <= d < IsoWeek1Monday(a + 1)
    requires IsoWeek1Monday(b) <= d < IsoWeek1Monday(b + 1)
    ensures a == b
  {
    if a < b {
      NoOverlap(d, a, b);
    } else if b < a {
      NoOverlap(d, b, a);
    }
  }

  /** A date before week 1 of year a + 1 is before week 1 of any later year. */
  lemma NoOverlap(d: int, a: int, b: int)
    requires a < b && d < IsoWeek1Monday(a + 1)
    ensures d < IsoWeek1Monday(b)
  {
    Week1MondayOrder(a + 1, b);
  }

  /** Week 1 of a year starts no earlier than week 1 of any earlier year. */
  lemma Week1MondayOrder(a: int, b: int)
    requires a <= b
    ensures IsoWeek1Monday(a) <= IsoWeek1Monday(b)
  {
    if a < b {
      Week1MondayGrows(a, b);
    }
  }

  lemma IsoWeekRange(d: Date)
    ensures 1 <= IsoWeek(d) <= 53
  {
    IsoCalendarSpec(d);
  }

  // strptime(text, "%Y-%m-%d"): %Y is four digits, %m one of 1..9, 01..09,
  // 10..12, %d one of 1..9, 01..09, 10..29, 30, 31 or a space and 1..9; the
  // whole text must be used and the date must exist.

  predicate IsMonthText(t: string) {
    || (|t| == 1 && '1' <= t[0] <= '9')
    || (|t| == 2 && t[0] == '0' && '1' <= t[1] <= '9')
    || (|t| == 2 && t[0] == '1' && '0' <= t[1] <= '2')
  }

  predicate IsDayText(t: string) {
    || (|t| == 1 && '1' <= t[0] <= '9')
    || (|t| == 2 && t[0] == '0' && '1' <= t[1] <= '9')
    || (|t| == 2 && (t[0] == '1' || t[0] == '2') && IsDigit(t[1]))
    || (|t| == 2 && t[0] == '3' && (t[1] == '0' || t[1] == '1'))
    || (|t| == 2 && t[0] == ' ' && '1' <= t[1] <= '9')
  }

  /** The number a %m or %d field denotes (a leading space or zero counts for
      nothing). */
  function FieldValue(t: string): (v: nat)
    requires IsMonthText(t) || IsDayText(t)
  {
    if |t| == 1 then DigitValue(t[0])
    else (if t[0] == ' ' then 0 else 10 * DigitValue(t[0])) + DigitValue(t[1])
  }

  lemma FieldRanges(t: string)
    ensures IsMonthText(t) ==> 1 <= FieldValue(t) <= 12
    ensures IsDayText(t) ==> 1 <= FieldValue(t) <= 31
  {
  }

  /** Index of the first '-' in s, or |s| if there is none. */
  function FirstDash(s: string): (k: nat)
    ensures k <= |s|
    ensures forall i :: 0 <= i < k ==> s[i] != '-'
    ensures k < |s| ==> s[k] == '-'
  {
    if s == [] || s[0] == '-' then 0 else 1 + FirstDash(s[1..])
  }

  /** dt.datetime.strptime(text, "%Y-%m-%d").date(), None where strptime
      raises ValueError. Only ASCII digits are modelled. */
  function ParseDate(text: string): (r: Option<Date>)
    ensures r.Some? ==> |text| >= 5 && AllDigits(text[..4])
    ensures r.Some? ==> YearOf(r.value) == DigitsValue(text[..4])
  {
    if |text| < 5 || !AllDigits(text[..4]) || text[4] != '-' then None
    else
      var rest := text[5..];
      var k := FirstDash(rest);
      if k == |rest| then None
      else
        var month := rest[..k];
        var day := rest[k + 1..];
        if !IsMonthText(month) || !IsDayText(day) then None
        else
          var y := DigitsValue(text[..4]);
          FieldRanges(month);
          FieldRanges(day);
          var m := FieldValue(month);
          var d := FieldValue(day);
          if IsCalendarDate(y, m, d) then
            YearOfFromYmd(y, m, d);
            Some(FromYmd(y, m, d))
          else None
  }

  /** The text is `yt-mt-dt` with a four-digit year, a month field and a day
      field that name an existing date, and x is that date. */
  predicate Spells(text: string, yt: string, mt: string, dt: string, x: Date) {
    && text == yt + "-" + mt + "-" + dt
    && |yt| == 4 && AllDigits(yt) && IsMonthText(mt) && IsDayText(dt)
    && IsCalendarDate(DigitsValue(yt), FieldValue(mt), FieldValue(dt))
    && x == FromYmd(DigitsValue(yt), FieldValue(mt), FieldValue(dt))
  }

  /** strptime(text, "%Y-%m-%d") returns x exactly when the whole text spells
      x as four year digits, a dash, a month field, a dash and a day field;
      every other text is rejected. */
  lemma ParseDateSpec(text: string, x: Date)
    ensures ParseDate(text) == Some(x) <==> exists yt, mt, dt :: Spells(text, yt, mt, dt, x)
  {
    if ParseDate(text) == Some(x) {
      var rest := text[5..];
      var k := FirstDash(rest);
      var yt, mt, dt := text[..4], rest[..k], rest[k + 1..];
      assert rest == mt + "-" + dt;
      assert text == yt + "-" + rest;
      assert Spells(text, yt, mt, dt, x);
    }
    if exists yt, mt, dt :: Spells(text, yt, mt, dt, x) {
      var yt, mt, dt :| Spells(text, yt, mt, dt, x);
      SpelledDateParses(text, yt, mt, dt, x);
    }
  }

  lemma SpelledDateParses(text: string, yt: string, mt: string, dt: string, x: Date)
    requires Spells(text, yt, mt, dt, x)
    ensures ParseDate(text) == Some(x)
  {
    var rest := text[5..];
    assert text[..4] == yt && text[4] == '-';
    assert rest == mt + "-" + dt;
    MonthFieldEnds(mt, dt, rest);
    assert rest[..|mt|] == mt && rest[|mt| + 1..] == dt;
  }

  /** The first dash after the year ends the month field. */
  lemma MonthFieldEnds(mt: string, dt: string, rest: string)
    requires IsMonthText(mt) && rest == mt + "-" + dt
    ensures FirstDash(rest) == |mt|
  {
    var k := FirstDash(rest);
    assert rest[|mt|] == '-';
  }

  /** The value of four decimal digits. */
  lemma FourDigits(s: string)
    requires |s| == 4 && AllDigits(s)
    ensures DigitsValue(s) == 1000 * DigitValue(s[0]) + 100 * DigitValue(s[1])
      + 10 * DigitValue(s[2]) + DigitValue(s[3])
  {
    var a, b, c := s[..1], s[..2], s[..3];
    assert DigitsValue(a) == DigitValue(s[0]) by { assert a[..0] == []; }
    assert DigitsValue(b) == 10 * DigitsValue(a) + DigitValue(s[1]) by { assert b[..1] == a; }
    assert DigitsValue(c) == 10 * DigitsValue(b) + DigitValue(s[2]) by { assert c[..2] == b; }
    assert DigitsValue(s) == 10 * DigitsValue(c) + DigitValue(s[3]) by { assert s[..3] == c; }
  }

  /** strptime on a ten-character text of the shape YYYY-MM-DD whose month
      and day fields are well formed: the date when it exists, an error
      otherwise. */
  lemma ParseTenCharacters(text: string)
    requires |text| == 10 && AllDigits(text[..4]) && text[4] == '-' && text[7] == '-'
    requires IsMonthText(text[5..7]) && IsDayText(text[8..10])
    ensures var y, m, d := DigitsValue(text[..4]), FieldValue(text[5..7]), FieldValue(text[8..10]);
      ParseDate(text) == if IsCalendarDate(y, m, d) then Some(FromYmd(y, m, d)) else None
  {
    var rest := text[5..];
    DashAfterMonth(text, rest);
    assert rest[..2] == text[5..7];
    assert rest[3..] == text[8..10];
  }

  lemma DashAfterMonth(text: string, rest: string)
    requires |text| == 10 && text[7] == '-' && IsMonthText(text[5..7]) && rest == text[5..]
    ensures FirstDash(rest) == 2
  {
    assert rest[0] == text[5] && rest[1] == text[6] && rest[2] == '-';
    assert text[5..7][0] == text[5] && text[5..7][1] == text[6];
    assert rest[1..][1..] == rest[2..];
    assert FirstDash(rest[2..]) == 0;
  }
}
