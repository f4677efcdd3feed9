/** Date helpers: the half-open range of dates with some weekdays left out,
    and the inclusive range of ISO week numbers between two dates. */
module Utils {
  import opened Dates

  /** The dates start, start + 1, ..., start + span - 1 whose weekday is not
      in `excluded`, in that order. */
  function Workdays(start: Date, span: int, excluded: seq<int>): seq<Date>
    decreases span
  {
    if span <= 0 then []
    else
      var day := start + span - 1;
      Workdays(start, span - 1, excluded) + (if Weekday(day) in excluded then [] else [day])
  }

  /** What the retained dates are: inside the half-open range, on a weekday
      that is not excluded, strictly ascending, and every such date of the
      range is there. */
  lemma WorkdaysSpec(start: Date, span: int, excluded: seq<int>)
    ensures var days := Workdays(start, span, excluded);
      && (forall k :: 0 <= k < |days| ==> start <= days[k] < start + span && Weekday(days[k]) !in excluded)
      && (forall j, k :: 0 <= j < k < |days| ==> days[j] < days[k])
      && (forall d: Date :: start <= d < start + span && Weekday(d) !in excluded ==> d in days)
      && (excluded == [] ==> |days| == if span > 0 then span else 0)
      && (span <= 0 ==> days == [])
  {
    WorkdaysInRange(start, span, excluded);
    WorkdaysComplete(start, span, excluded);
    WorkdaysCount(start, span, excluded);
  }

  /** Every date lies in [start, start + span) on a weekday that is not
      excluded, and the dates strictly ascend. */
  predicate AscendingWorkdays(days: seq<Date>, start: Date, span: int, excluded: seq<int>) {
    && (forall k :: 0 <= k < |days| ==> start <= days[k] < start + span && Weekday(days[k]) !in excluded)
    && (forall j, k :: 0 <= j < k < |days| ==> days[j] < days[k])
  }

  lemma {:induction false} WorkdaysInRange(start: Date, span: int, excluded: seq<int>)
    ensures AscendingWorkdays(Workdays(start, span, excluded), start, span, excluded)
    decreases span
  {
    if span > 0 {
      WorkdaysInRange(start, span - 1, excluded);
      var prev := Workdays(start, span - 1, excluded);
      var day := start + span - 1;
      if Weekday(day) !in excluded {
        var days := prev + [day];
        assert days == Workdays(start, span, excluded);
        forall k | 0 <= k < |days|
          ensures start <= days[k] < start + span && Weekday(days[k]) !in excluded
        {
          if k < |prev| {
            assert days[k] == prev[k];
          }
        }
      } else {
        assert prev == Workdays(start, span, excluded);
      }
    }
  }

  lemma {:induction false} WorkdaysComplete(start: Date, span: int, excluded: seq<int>)
    ensures forall d: Date :: start <= d < start + span && Weekday(d) !in excluded ==>
      d in Workdays(start, span, excluded)
    decreases span
  {
    if span > 0 {
      WorkdaysComplete(start, span - 1, excluded);
      var prev := Workdays(start, span - 1, excluded);
      var days := Workdays(start, span, excluded);
      forall d: Date | start <= d < start + span && Weekday(d) !in excluded
        ensures d in days
      {
        if d < start + span - 1 {
          assert d in prev;
        } else {
          assert days[|days| - 1] == d;
        }
      }
    }
  }

  lemma {:induction false} WorkdaysCount(start: Date, span: int, excluded: seq<int>)
    ensures excluded == [] ==> |Workdays(start, span, excluded)| == if span > 0 then span else 0
    decreases span
  {
    if span > 0 {
      WorkdaysCount(start, span - 1, excluded);
    }
  }

  /** daterange(start, end, excluded): the dates from start (inclusive) to end
      (exclusive) whose weekday is not excluded; an empty exclusion list
      filters nothing. */
  method DateRange(start: Date, end: Date, excluded: seq<int>) returns (days: seq<Date>)
    ensures days == Workdays(start, end - start, excluded)
    ensures forall k :: 0 <= k < |days| ==> start <= days[k] < end && Weekday(days[k]) !in excluded
    ensures forall j, k :: 0 <= j < k < |days| ==> days[j] < days[k]
    ensures forall d: Date :: start <= d < end && Weekday(d) !in excluded ==> d in days
    ensures excluded == [] ==> |days| == if end > start then end - start else 0
    ensures end <= start ==> days == []
  {
    var span := end - start;
    days := [];
    var n := 0;
    while n < span
      invariant 0 <= n && (n == 0 || n <= span)
      invariant days == Workdays(start, n, excluded)
    {
      var day := start + n;
      n := n + 1;
      if |excluded| > 0 && Weekday(day) in excluded {
        continue;
      }
      days := days + [day];
    }
    WorkdaysSpec(start, span, excluded);
  }

  /** range(lo, hi) */
  function IntRange(lo: int, hi: int): (r: seq<int>)
    ensures |r| == if hi > lo then hi - lo else 0
    ensures forall k :: 0 <= k < |r| ==> r[k] == lo + k
    decreases hi - lo
  {
    if hi <= lo then [] else [lo] + IntRange(lo + 1, hi)
  }

  /** get_week_range(start, end): the ISO week numbers from the week of start
      to the week of end, both included. */
  function WeekRange(start: Date, end: Date): seq<int> {
    IntRange(IsoWeek(start), IsoWeek(end) + 1)
  }

  /** A week number is in the range exactly when it lies between the week of
      start and the week of end; the range is empty when the week of end comes
      first, as it does across a year boundary. */
  lemma WeekRangeSpec(start: Date, end: Date, w: int)
    ensures w in WeekRange(start, end) <==> IsoWeek(start) <= w <= IsoWeek(end)
    ensures WeekRange(start, end) == [] <==> IsoWeek(end) < IsoWeek(start)
    ensures forall k :: 0 < k < |WeekRange(start, end)| ==>
      WeekRange(start, end)[k] == WeekRange(start, end)[k - 1] + 1
  {
    var r := WeekRange(start, end);
    if IsoWeek(start) <= w <= IsoWeek(end) {
      assert r[w - IsoWeek(start)] == w;
    }
  }

  lemma Week1Mondays()
    ensures IsoWeek1Monday(2024) == 738886
    ensures IsoWeek1Monday(2025) == 739250
    ensures IsoWeek1Monday(2026) == 739614
  {
    assert DaysBeforeYear(2024) == 738885;
    assert DaysBeforeYear(2025) == 739251;
    assert DaysBeforeYear(2026) == 739616;
  }

  lemma IsoWeekExample(d: Date, y: int, week: int)
    requires (d == 739317 && week == 10) || (d == 739327 && week == 12)
      || (d == 739243 && week == 52) || (d == 739257 && week == 2)
    ensures IsoWeek(d) == week
  {
    Week1Mondays();
    if d == 739243 {
      IsoWeekIn(d, 2024, 738886, 739250, week);
    } else {
      IsoWeekIn(d, 2025, 739250, 739614, week);
    }
  }

  /** A date in the given week of its ISO year has that week number. */
  lemma IsoWeekIn(d: Date, y: int, first: int, following: int, week: int)
    requires IsoWeek1Monday(y) == first && IsoWeek1Monday(y + 1) == following
    requires first <= d < following
    requires first + 7 * (week - 1) <= d < first + 7 * week
    ensures IsoWeek(d) == week
  {
    IsoWeekOf(d, y, first, following);
  }

  lemma TenToTwelve()
    ensures IntRange(10, 13) == [10, 11, 12]
  {
    assert IntRange(13, 13) == [];
    assert IntRange(12, 13) == [12];
    assert IntRange(11, 13) == [11, 12];
  }

  /** 2025-03-07 (a Friday) to 2025-03-17 (a Monday) covers weeks 10 to 12. */
  lemma WeekRangeExample(start: Date, end: Date)
    requires start == FromYmd(2025, 3, 7) && end == FromYmd(2025, 3, 17)
    ensures Weekday(start) == 4 && Weekday(end) == 0
    ensures WeekRange(start, end) == [10, 11, 12]
  {
    assert DaysBeforeYear(2025) == 739251;
    assert start == 739317 && end == 739327;
    IsoWeekExample(start, 2025, 10);
    IsoWeekExample(end, 2025, 12);
    TenToTwelve();
  }

  /** 2024-12-23 lies in week 52 and 2025-01-06 in week 2: across the year
      boundary the week range is empty. */
  lemma WeekRangeAcrossYears(start: Date, end: Date)
    requires start == FromYmd(2024, 12, 23) && end == FromYmd(2025, 1, 6)
    ensures IsoWeek(start) == 52 && IsoWeek(end) == 2
    ensures WeekRange(start, end) == []
  {
    assert DaysBeforeYear(2024) == 738885 && DaysBeforeYear(2025) == 739251;
    assert start == 739243 && end == 739257;
    IsoWeekExample(start, 2024, 52);
    IsoWeekExample(end, 2025, 2);
  }
}
