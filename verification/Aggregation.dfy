/** The statistics of the work logic: minutes per retained day with a running
    balance against a daily quota, and minutes per (calendar year, ISO week)
    bucket with missing report weeks filled in, a running balance in bucket
    order, and a stable sort by week number. */
module Aggregation {
  import opened Dates
  import opened Models
  import opened Utils

  // ---------------------------------------------------------------------
  // Buckets: a dict of int that every unit adds its minutes to

  /** The key of the daily buckets. */
  function DateKey(u: WorkUnit): Date {
    u.date
  }

  /** The key of the weekly buckets: the calendar year of the date (not its
      ISO year) and its ISO week number. */
  function WeekKey(u: WorkUnit): (int, int) {
    (YearOf(u.date), IsoWeek(u.date))
  }

  /** The minutes of the units whose key is k: what `bucket[key(u)] +=
      u.minutes` over all units leaves under k. */
  function MinutesWhere<K(==)>(units: seq<WorkUnit>, key: WorkUnit -> K, k: K): int
    decreases |units|
  {
    if units == [] then 0
    else
      var last := units[|units| - 1];
      MinutesWhere(units[..|units| - 1], key, k) + (if key(last) == k then last.minutes else 0)
  }

  /** The minutes of all units. */
  function TotalMinutes(units: seq<WorkUnit>): int
    decreases |units|
  {
    if units == [] then 0 else TotalMinutes(units[..|units| - 1]) + units[|units| - 1].minutes
  }

  predicate Distinct<K(==)>(ks: seq<K>) {
    forall i, j :: 0 <= i < j < |ks| ==> ks[i] != ks[j]
  }

  /** The keys of the buckets in the order the dict first sees them. */
  function FirstSeen<K(==)>(units: seq<WorkUnit>, key: WorkUnit -> K): seq<K>
    decreases |units|
  {
    if units == [] then []
    else
      var prev := FirstSeen(units[..|units| - 1], key);
      var k := key(units[|units| - 1]);
      if k in prev then prev else prev + [k]
  }

  /** The dict holds each key once, every unit's key, and no key without a
      unit. */
  lemma {:induction false} FirstSeenSpec<K>(units: seq<WorkUnit>, key: WorkUnit -> K)
    ensures Distinct(FirstSeen(units, key))
    ensures forall j :: 0 <= j < |units| ==> key(units[j]) in FirstSeen(units, key)
    ensures forall k :: k in FirstSeen(units, key) ==> exists j :: 0 <= j < |units| && key(units[j]) == k
    decreases |units|
  {
    if units != [] {
      var prefix := units[..|units| - 1];
      FirstSeenSpec(prefix, key);
      assert forall j :: 0 <= j < |prefix| ==> prefix[j] == units[j];
    }
  }

  /** A key the first i units do not have collects nothing from them. */
  lemma UnseenCollectsNothing<K>(units: seq<WorkUnit>, key: WorkUnit -> K, k: K)
    requires k !in FirstSeen(units, key)
    ensures MinutesWhere(units, key, k) == 0
  {
    FirstSeenSpec(units, key);
    MinutesWhereAbsent(units, key, k);
  }

  /** A key no unit has collects no minutes. */
  lemma {:induction false} MinutesWhereAbsent<K>(units: seq<WorkUnit>, key: WorkUnit -> K, k: K)
    requires forall j :: 0 <= j < |units| ==> key(units[j]) != k
    ensures MinutesWhere(units, key, k) == 0
    decreases |units|
  {
    if units != [] {
      var prefix := units[..|units| - 1];
      assert forall j :: 0 <= j < |prefix| ==> prefix[j] == units[j];
      MinutesWhereAbsent(prefix, key, k);
    }
  }

  /** The minutes of the buckets ks together. */
  function BucketSum<K(==)>(units: seq<WorkUnit>, key: WorkUnit -> K, ks: seq<K>): int
    decreases |ks|
  {
    if ks == [] then 0 else BucketSum(units, key, ks[..|ks| - 1]) + MinutesWhere(units, key, ks[|ks| - 1])
  }

  /** One more unit adds its minutes to the sum of distinct buckets exactly
      when its key is one of them. */
  lemma {:induction false} BucketSumSnoc<K>(units: seq<WorkUnit>, u: WorkUnit, key: WorkUnit -> K, ks: seq<K>)
    requires Distinct(ks)
    ensures BucketSum(units + [u], key, ks) == BucketSum(units, key, ks) + (if key(u) in ks then u.minutes else 0)
    decreases |ks|
  {
    if ks != [] {
      var prefix := ks[..|ks| - 1];
      assert (units + [u])[..|units|] == units;
      assert forall i :: 0 <= i < |prefix| ==> prefix[i] == ks[i];
      BucketSumSnoc(units, u, key, prefix);
      assert key(u) in ks <==> key(u) in prefix || key(u) == ks[|ks| - 1];
    }
  }

  /** A bucket that collects nothing leaves a sum unchanged. */
  lemma BucketSumEmptyLast<K>(units: seq<WorkUnit>, key: WorkUnit -> K, ks: seq<K>, k: K)
    requires MinutesWhere(units, key, k) == 0
    ensures BucketSum(units, key, ks + [k]) == BucketSum(units, key, ks)
  {
    assert (ks + [k])[..|ks|] == ks;
  }

  /** Summed over the buckets a dict ends up with, the minutes are those of
      all units: bucketing loses and invents nothing. */
  lemma {:induction false} FirstSeenTotal<K>(units: seq<WorkUnit>, key: WorkUnit -> K)
    ensures BucketSum(units, key, FirstSeen(units, key)) == TotalMinutes(units)
    decreases |units|
  {
    if units != [] {
      var prefix := units[..|units| - 1];
      var u := units[|units| - 1];
      assert prefix + [u] == units;
      var prev := FirstSeen(prefix, key);
      FirstSeenTotal(prefix, key);
      FirstSeenSpec(prefix, key);
      FirstSeenSpec(units, key);
      if key(u) in prev {
        BucketSumSnoc(prefix, u, key, prev);
      } else {
        BucketSumSnoc(prefix, u, key, prev + [key(u)]);
        UnseenCollectsNothing(prefix, key, key(u));
        BucketSumEmptyLast(prefix, key, prev, key(u));
      }
    }
  }

  /** The running balance over the buckets ks: the sum of each bucket's
      minutes less the quota. */
  function Balance<K(==)>(units: seq<WorkUnit>, key: WorkUnit -> K, ks: seq<K>, quota: int): int
    decreases |ks|
  {
    if ks == [] then 0 else Balance(units, key, ks[..|ks| - 1], quota) + MinutesWhere(units, key, ks[|ks| - 1]) - quota
  }

  /** The balance is the bucketed minutes less one quota per bucket. */
  lemma {:induction false} BalanceIsSurplus<K>(units: seq<WorkUnit>, key: WorkUnit -> K, ks: seq<K>, quota: int)
    ensures Balance(units, key, ks, quota) == BucketSum(units, key, ks) - |ks| * quota
    decreases |ks|
  {
    if ks != [] {
      BalanceIsSurplus(units, key, ks[..|ks| - 1], quota);
    }
  }

  /** One more unit: its key joins the keys if it is new. */
  lemma FirstSeenStep<K>(units: seq<WorkUnit>, key: WorkUnit -> K, i: nat)
    requires i < |units|
    ensures var prev := FirstSeen(units[..i], key);
      FirstSeen(units[..i + 1], key) == if key(units[i]) in prev then prev else prev + [key(units[i])]
  {
    assert units[..i + 1][..i] == units[..i];
  }

  /** One more unit: its minutes join its own bucket and no other. */
  lemma MinutesWhereStep<K>(units: seq<WorkUnit>, key: WorkUnit -> K, i: nat, k: K)
    requires i < |units|
    ensures MinutesWhere(units[..i + 1], key, k) ==
      MinutesWhere(units[..i], key, k) + if key(units[i]) == k then units[i].minutes else 0
  {
    assert units[..i + 1][..i] == units[..i];
  }

  /** The balance over one more bucket adds that bucket's minutes less the
      quota. */
  lemma BalanceStep<K>(units: seq<WorkUnit>, key: WorkUnit -> K, ks: seq<K>, i: nat, quota: int)
    requires i < |ks|
    ensures Balance(units, key, ks[..i + 1], quota)
      == (if i == 0 then 0 else Balance(units, key, ks[..i], quota)) + MinutesWhere(units, key, ks[i]) - quota
  {
    assert ks[..i + 1][..i] == ks[..i];
  }

  /** defaultdict(int) filled with `bucket[key(u)] += u.minutes` for every
      unit: the keys in insertion order and the value under each. */
  method Tally<K(==)>(units: seq<WorkUnit>, key: WorkUnit -> K) returns (keys: seq<K>, totals: map<K, int>)
    ensures keys == FirstSeen(units, key)
    ensures forall k :: k in totals <==> k in keys
    ensures forall k :: k in totals ==> totals[k] == MinutesWhere(units, key, k)
  {
    keys, totals := [], map[];
    for i := 0 to |units|
      invariant keys == FirstSeen(units[..i], key)
      invariant forall k :: k in totals <==> k in keys
      invariant forall k :: k in totals ==> totals[k] == MinutesWhere(units[..i], key, k)
    {
      var u := units[i];
      ghost var before := totals;
      FirstSeenStep(units, key, i);
      if key(u) in totals {
        totals := totals[key(u) := totals[key(u)] + u.minutes];
      } else {
        UnseenCollectsNothing(units[..i], key, key(u));
        keys := keys + [key(u)];
        totals := totals[key(u) := u.minutes];
      }
      forall k | k in totals
        ensures totals[k] == MinutesWhere(units[..i + 1], key, k)
      {
        MinutesWhereStep(units, key, i, k);
        if k != key(u) {
          assert totals[k] == before[k];
        }
      }
    }
    assert units[..|units|] == units;
  }

  // ---------------------------------------------------------------------
  // get_daily_stats

  /** Rows for the dates of days, in that order: the minutes of the units on
      each date (none: 0), their difference from the quota, and a carryover
      that starts at the first row's difference and adds the difference of
      each later row. */
  predicate DayRows(units: seq<WorkUnit>, days: seq<Date>, quota: int, stats: seq<DayStat>) {
    && |stats| == |days|
    && (forall k :: 0 <= k < |stats| ==> stats[k].date == days[k])
    && (forall k :: 0 <= k < |stats| ==> stats[k].minutes == MinutesWhere(units, DateKey, stats[k].date))
    && (forall k :: 0 <= k < |stats| ==> stats[k].diff == stats[k].minutes - quota)
    && (|stats| > 0 ==> stats[0].carryover == stats[0].diff)
    && (forall k :: 0 < k < |stats| ==> stats[k].carryover == stats[k - 1].carryover + stats[k].diff)
  }

  /** What get_daily_stats returns: the rows of the retained dates of
      [start, end). */
  predicate IsDailyStats(units: seq<WorkUnit>, start: Date, end: Date, quota: int, excluded: seq<int>, stats: seq<DayStat>) {
    DayRows(units, Workdays(start, end - start, excluded), quota, stats)
  }

  /** get_daily_stats(units, start, end, minutes_per_day, excluded): the
      minutes are bucketed per date, then every date of the range gets a row. */
  method DailyStats(units: seq<WorkUnit>, start: Date, end: Date, minutesPerDay: int, excluded: seq<int>)
    returns (stats: seq<DayStat>)
    ensures IsDailyStats(units, start, end, minutesPerDay, excluded, stats)
  {
    var seen, perDay := Tally(units, DateKey);
    forall d | d !in perDay
      ensures MinutesWhere(units, DateKey, d) == 0
    {
      UnseenCollectsNothing(units, DateKey, d);
    }
    var days := DateRange(start, end, excluded);
    stats := RowsPerDay(units, perDay, days, start, minutesPerDay);
  }

  /** The second loop of get_daily_stats: one row per date of days, the
      minutes looked up with a default of 0; the carryover restarts on the
      start date itself and otherwise runs on. Since the dates ascend from
      start, the restart can only happen on the first row. */
  method RowsPerDay(units: seq<WorkUnit>, perDay: map<Date, int>, days: seq<Date>, start: Date, minutesPerDay: int)
    returns (stats: seq<DayStat>)
    requires forall d :: d in perDay ==> perDay[d] == MinutesWhere(units, DateKey, d)
    requires forall d :: d !in perDay ==> MinutesWhere(units, DateKey, d) == 0
    requires forall k :: 0 <= k < |days| ==> start <= days[k]
    requires forall j, k :: 0 <= j < k < |days| ==> days[j] < days[k]
    ensures DayRows(units, days, minutesPerDay, stats)
  {
    stats := [];
    var carryover := 0;
    for k := 0 to |days|
      invariant |stats| == k
      invariant forall j :: 0 <= j < k ==> stats[j].date == days[j]
      invariant forall j :: 0 <= j < k ==> stats[j].minutes == MinutesWhere(units, DateKey, stats[j].date)
      invariant forall j :: 0 <= j < k ==> stats[j].diff == stats[j].minutes - minutesPerDay
      invariant k > 0 ==> stats[0].carryover == stats[0].diff
      invariant forall j :: 0 < j < k ==> stats[j].carryover == stats[j - 1].carryover + stats[j].diff
      invariant carryover == if k == 0 then 0 else stats[k - 1].carryover
    {
      var date := days[k];
      var minutes := if date in perDay then perDay[date] else 0;
      if date == start {
        var diff := minutes - minutesPerDay;
        carryover := diff;
        stats := stats + [DayStat(date, minutes, diff, diff)];
      } else {
        carryover := minutes + carryover - minutesPerDay;
        var diff := minutes - minutesPerDay;
        stats := stats + [DayStat(date, minutes, diff, carryover)];
      }
    }
  }

  /** The rows cover exactly the retained dates: each lies in [start, end) on
      a weekday that is not excluded, they ascend, and no such date is
      missing, whether or not it saw any work. */
  lemma DailyStatsDates(units: seq<WorkUnit>, start: Date, end: Date, quota: int, excluded: seq<int>, stats: seq<DayStat>)
    requires IsDailyStats(units, start, end, quota, excluded, stats)
    ensures forall k :: 0 <= k < |stats| ==> start <= stats[k].date < end && Weekday(stats[k].date) !in excluded
    ensures forall j, k :: 0 <= j < k < |stats| ==> stats[j].date < stats[k].date
    ensures forall d: Date :: start <= d < end && Weekday(d) !in excluded ==> exists k :: 0 <= k < |stats| && stats[k].date == d
  {
    var days := Workdays(start, end - start, excluded);
    WorkdaysSpec(start, end - start, excluded);
    RowsFollowDays(stats, days, start, end, excluded);
  }

  lemma RowsFollowDays(stats: seq<DayStat>, days: seq<Date>, start: Date, end: Date, excluded: seq<int>)
    requires |stats| == |days| && forall k :: 0 <= k < |stats| ==> stats[k].date == days[k]
    requires forall k :: 0 <= k < |days| ==> start <= days[k] < end && Weekday(days[k]) !in excluded
    requires forall j, k :: 0 <= j < k < |days| ==> days[j] < days[k]
    requires forall d: Date :: start <= d < end && Weekday(d) !in excluded ==> d in days
    ensures forall k :: 0 <= k < |stats| ==> start <= stats[k].date < end && Weekday(stats[k].date) !in excluded
    ensures forall j, k :: 0 <= j < k < |stats| ==> stats[j].date < stats[k].date
    ensures forall d: Date :: start <= d < end && Weekday(d) !in excluded ==> exists k :: 0 <= k < |stats| && stats[k].date == d
  {
    forall d: Date | start <= d < end && Weekday(d) !in excluded
      ensures exists k :: 0 <= k < |stats| && stats[k].date == d
    {
      var k :| 0 <= k < |days| && days[k] == d;
      assert stats[k].date == d;
    }
  }

  /** The carryover of a row is the running balance: the minutes of the
      dates up to it less one quota per date. */
  lemma {:induction false} DailyCarryover(units: seq<WorkUnit>, days: seq<Date>, quota: int, stats: seq<DayStat>, k: nat)
    requires DayRows(units, days, quota, stats)
    requires k < |stats|
    ensures stats[k].carryover == Balance(units, DateKey, days[..k + 1], quota)
  {
    assert days[..k + 1][..k] == days[..k];
    if k > 0 {
      DailyCarryover(units, days, quota, stats, k - 1);
    }
  }

  /** The rows leave no choice: two results for the same dates are equal. */
  lemma DayRowsUnique(units: seq<WorkUnit>, days: seq<Date>, quota: int, a: seq<DayStat>, b: seq<DayStat>)
    requires DayRows(units, days, quota, a)
    requires DayRows(units, days, quota, b)
    ensures a == b
  {
    forall k | 0 <= k < |a|
      ensures a[k] == b[k]
    {
      DailyCarryover(units, days, quota, a, k);
      DailyCarryover(units, days, quota, b, k);
    }
  }

  /** One unit of 1 minute on 2025-01-10, the range 2025-01-10 to 2025-01-11
      and a quota of 1 minute a day: one row, 1 minute, no difference. */
  lemma DailyExample(units: seq<WorkUnit>, start: Date, stats: seq<DayStat>)
    requires start == FromYmd(2025, 1, 10)
    requires units == [WorkUnit(start, "client", 1, "description")]
    requires IsDailyStats(units, start, start + 1, 1, [], stats)
    ensures stats == [DayStat(start, 1, 0, 0)]
  {
    assert Workdays(start, 1, []) == [start];
    assert MinutesWhere(units, DateKey, start) == 1;
  }

  // ---------------------------------------------------------------------
  // get_weekly_stats

  /** The week numbers of the bucket keys: `[key[1] for key in keys]`. */
  function WeeksOf(keys: seq<(int, int)>): (weeks: seq<int>)
    ensures |weeks| == |keys| && forall i :: 0 <= i < |keys| ==> weeks[i] == keys[i].1
  {
    seq(|keys|, i requires 0 <= i < |keys| => keys[i].1)
  }

  /** The gap keys: (year, w) for each report week w that no bucket has, in
      report order. */
  function Gaps(report: seq<int>, year: int, weeks: seq<int>): seq<(int, int)>
    decreases |report|
  {
    if report == [] then []
    else
      var w := report[|report| - 1];
      Gaps(report[..|report| - 1], year, weeks) + if w in weeks then [] else [(year, w)]
  }

  /** A gap key carries the given year and a report week that no bucket has;
      every such week has one. */
  lemma {:induction false} GapsSpec(report: seq<int>, year: int, weeks: seq<int>)
    ensures forall g :: g in Gaps(report, year, weeks) <==> g.0 == year && g.1 in report && g.1 !in weeks
    decreases |report|
  {
    if report != [] {
      var prefix := report[..|report| - 1];
      GapsSpec(prefix, year, weeks);
      assert report == prefix + [report[|report| - 1]];
    }
  }

  /** The keys of work_per_week after the gap fill, in dict order: the keys
      of the units' buckets as first seen, then the gap keys of the report
      weeks under the given year. */
  function WeekKeys(units: seq<WorkUnit>, report: seq<int>, year: int): seq<(int, int)> {
    var seen := FirstSeen(units, WeekKey);
    seen + Gaps(report, year, WeeksOf(seen))
  }

  /** The row of the i-th key, with the running balance over the keys up to
      it. */
  function WeekRow(units: seq<WorkUnit>, keys: seq<(int, int)>, i: nat, quota: int): WeekStat
    requires i < |keys|
  {
    var minutes := MinutesWhere(units, WeekKey, keys[i]);
    WeekStat(keys[i].0, keys[i].1, minutes, minutes - quota, Balance(units, WeekKey, keys[..i + 1], quota))
  }

  /** The rows in dict order, before the sort. */
  function WeekRows(units: seq<WorkUnit>, keys: seq<(int, int)>, quota: int): seq<WeekStat> {
    seq(|keys|, i requires 0 <= i < |keys| => WeekRow(units, keys, i, quota))
  }

  /** Before the sort, the carryover starts at the first row's difference
      and adds the difference of each later row. */
  lemma WeekRowsCarry(units: seq<WorkUnit>, keys: seq<(int, int)>, quota: int)
    ensures var rows := WeekRows(units, keys, quota);
      && (|rows| > 0 ==> rows[0].carryover == rows[0].diff)
      && (forall i :: 0 < i < |rows| ==> rows[i].carryover == rows[i - 1].carryover + rows[i].diff)
  {
    var rows := WeekRows(units, keys, quota);
    if |rows| > 0 {
      BalanceStep(units, WeekKey, keys, 0, quota);
    }
    forall i | 0 < i < |rows|
      ensures rows[i].carryover == rows[i - 1].carryover + rows[i].diff
    {
      BalanceStep(units, WeekKey, keys, i, quota);
    }
  }

  /** sorted(rows, key=week): each row in turn is placed after every earlier
      row whose week is not larger, so rows of equal week keep their order. */
  function InsertByWeek(x: WeekStat, sorted: seq<WeekStat>): seq<WeekStat>
    decreases |sorted|
  {
    if sorted == [] then [x]
    else if x.week < sorted[0].week then [x] + sorted
    else [sorted[0]] + InsertByWeek(x, sorted[1..])
  }

  function SortByWeek(rows: seq<WeekStat>): seq<WeekStat>
    decreases |rows|
  {
    if rows == [] then [] else InsertByWeek(rows[|rows| - 1], SortByWeek(rows[..|rows| - 1]))
  }

  predicate SortedByWeek(s: seq<WeekStat>) {
    forall i, j :: 0 <= i < j < |s| ==> s[i].week <= s[j].week
  }

  /** The rows of week w, in their order. */
  function OfWeek(s: seq<WeekStat>, w: int): seq<WeekStat>
    decreases |s|
  {
    if s == [] then [] else (if s[0].week == w then [s[0]] else []) + OfWeek(s[1..], w)
  }

  lemma {:induction false} OfWeekConcat(a: seq<WeekStat>, b: seq<WeekStat>, w: int)
    ensures OfWeek(a + b, w) == OfWeek(a, w) + OfWeek(b, w)
    decreases |a|
  {
    if a == [] {
      assert a + b == b;
    } else {
      var head := if a[0].week == w then [a[0]] else [];
      assert [a[0]] + a[1..] == a && [a[0]] + (a[1..] + b) == a + b;
      OfWeekCons(a[0], a[1..], w);
      OfWeekCons(a[0], a[1..] + b, w);
      OfWeekConcat(a[1..], b, w);
      assert head + (OfWeek(a[1..], w) + OfWeek(b, w)) == (head + OfWeek(a[1..], w)) + OfWeek(b, w);
    }
  }

  lemma {:induction false} OfWeekNone(s: seq<WeekStat>, w: int)
    requires forall i :: 0 <= i < |s| ==> s[i].week != w
    ensures OfWeek(s, w) == []
    decreases |s|
  {
    if s != [] {
      OfWeekNone(s[1..], w);
    }
  }

  /** Inserting adds exactly the row. */
  lemma {:induction false} InsertByWeekAdds(x: WeekStat, s: seq<WeekStat>)
    ensures multiset(InsertByWeek(x, s)) == multiset(s) + multiset{x}
    decreases |s|
  {
    if s != [] && x.week >= s[0].week {
      InsertByWeekAdds(x, s[1..]);
      assert s == [s[0]] + s[1..];
    }
  }

  /** Inserting into sorted rows keeps them sorted. */
  lemma {:induction false} InsertByWeekSorted(x: WeekStat, s: seq<WeekStat>)
    requires SortedByWeek(s)
    ensures SortedByWeek(InsertByWeek(x, s))
    decreases |s|
  {
    if s != [] && x.week >= s[0].week {
      var rest := InsertByWeek(x, s[1..]);
      InsertByWeekSorted(x, s[1..]);
      InsertByWeekAbove(x, s[1..], s[0].week);
      SortedCons(s[0], rest);
    }
  }

  /** A lower bound of the row and of the rows it goes into bounds the
      result. */
  lemma {:induction false} InsertByWeekAbove(x: WeekStat, s: seq<WeekStat>, b: int)
    requires b <= x.week && forall i :: 0 <= i < |s| ==> b <= s[i].week
    ensures forall i :: 0 <= i < |InsertByWeek(x, s)| ==> b <= InsertByWeek(x, s)[i].week
    decreases |s|
  {
    if s != [] && x.week >= s[0].week {
      InsertByWeekAbove(x, s[1..], b);
    }
  }

  lemma SortedCons(a: WeekStat, t: seq<WeekStat>)
    requires SortedByWeek(t)
    requires forall i :: 0 <= i < |t| ==> a.week <= t[i].week
    ensures SortedByWeek([a] + t)
  {
    var r := [a] + t;
    forall i, j | 0 <= i < j < |r|
      ensures r[i].week <= r[j].week
    {
      assert r[j] == t[j - 1];
      if i > 0 {
        assert r[i] == t[i - 1];
      }
    }
  }

  /** Inserting into sorted rows puts the row after the rows of its week. */
  lemma {:induction false} InsertByWeekOfWeek(x: WeekStat, s: seq<WeekStat>, w: int)
    requires SortedByWeek(s)
    ensures OfWeek(InsertByWeek(x, s), w) == OfWeek(s, w) + if x.week == w then [x] else []
    decreases |s|
  {
    if s == [] {
    } else if x.week < s[0].week {
      OfWeekCons(x, s, w);
      if x.week == w {
        OfWeekNone(s, w);
      }
    } else {
      var rest := InsertByWeek(x, s[1..]);
      InsertByWeekOfWeek(x, s[1..], w);
      OfWeekCons(s[0], rest, w);
      OfWeekCons(s[0], s[1..], w);
      assert [s[0]] + s[1..] == s;
    }
  }

  lemma OfWeekCons(a: WeekStat, t: seq<WeekStat>, w: int)
    ensures OfWeek([a] + t, w) == (if a.week == w then [a] else []) + OfWeek(t, w)
  {
    assert ([a] + t)[0] == a && ([a] + t)[1..] == t;
  }

  /** The sort yields the rows ordered by week, the same rows, and, week by
      week, the rows in their first order: it is stable. */
  lemma {:induction false} SortByWeekSpec(rows: seq<WeekStat>)
    ensures SortedByWeek(SortByWeek(rows))
    ensures multiset(SortByWeek(rows)) == multiset(rows)
    ensures forall w :: OfWeek(SortByWeek(rows), w) == OfWeek(rows, w)
    decreases |rows|
  {
    if rows != [] {
      var prefix, x := rows[..|rows| - 1], rows[|rows| - 1];
      assert rows == prefix + [x];
      SortByWeekSpec(prefix);
      InsertByWeekSorted(x, SortByWeek(prefix));
      InsertByWeekAdds(x, SortByWeek(prefix));
      forall w
        ensures OfWeek(SortByWeek(rows), w) == OfWeek(rows, w)
      {
        InsertByWeekOfWeek(x, SortByWeek(prefix), w);
        OfWeekConcat(prefix, [x], w);
      }
    }
  }

  /** get_weekly_stats(units, start, end, minutes_per_week): the minutes are
      bucketed per (calendar year, ISO week); each report week no bucket has
      gets an empty bucket under the year of start; the rows with their
      running balance are built in bucket order and then sorted by week. */
  method WeeklyStats(units: seq<WorkUnit>, start: Date, end: Date, minutesPerWeek: int)
    returns (stats: seq<WeekStat>)
    ensures stats == SortByWeek(WeekRows(units, WeekKeys(units, WeekRange(start, end), YearOf(start)), minutesPerWeek))
  {
    var report := WeekRange(start, end);
    var keys, perWeek := Tally(units, WeekKey);
    keys, perWeek := FillGaps(units, keys, perWeek, report, YearOf(start));
    var rows := RowsPerWeek(units, keys, perWeek, minutesPerWeek);
    stats := SortByWeek(rows);
  }

  /** The gap fill of get_weekly_stats: `work_per_week[(year, week)] = 0` for
      each report week that is not the week of some bucket, where the weeks
      of the buckets are taken once, before the fill. */
  method FillGaps(units: seq<WorkUnit>, seen: seq<(int, int)>, totals: map<(int, int), int>, report: seq<int>, year: int)
    returns (keys: seq<(int, int)>, perWeek: map<(int, int), int>)
    requires seen == FirstSeen(units, WeekKey)
    requires forall k :: k in totals <==> k in seen
    requires forall k :: k in totals ==> totals[k] == MinutesWhere(units, WeekKey, k)
    requires Distinct(report)
    ensures keys == seen + Gaps(report, year, WeeksOf(seen))
    ensures forall k :: k in perWeek <==> k in keys
    ensures forall k :: k in perWeek ==> perWeek[k] == MinutesWhere(units, WeekKey, k)
  {
    keys, perWeek := seen, totals;
    var weeks := WeeksOf(seen);
    for j := 0 to |report|
      invariant keys == seen + Gaps(report[..j], year, weeks)
      invariant forall k :: k in perWeek <==> k in keys
      invariant forall k :: k in perWeek ==> perWeek[k] == MinutesWhere(units, WeekKey, k)
    {
      var week := report[j];
      GapsStep(report, year, weeks, j);
      if week !in weeks {
        GapIsNew(seen, report, year, j);
        GapCollectsNothing(units, year, week);
        if (year, week) !in perWeek {
          keys := keys + [(year, week)];
        }
        perWeek := perWeek[(year, week) := 0];
      }
    }
    assert report[..|report|] == report;
  }

  /** The row loop of get_weekly_stats: one row per key in dict order; the
      carryover starts at the first row's difference and then runs on. */
  method RowsPerWeek(units: seq<WorkUnit>, keys: seq<(int, int)>, perWeek: map<(int, int), int>, minutesPerWeek: int)
    returns (rows: seq<WeekStat>)
    requires forall k :: k in keys ==> k in perWeek && perWeek[k] == MinutesWhere(units, WeekKey, k)
    ensures rows == WeekRows(units, keys, minutesPerWeek)
  {
    rows := [];
    var carryover := 0;
    for index := 0 to |keys|
      invariant |rows| == index
      invariant forall i :: 0 <= i < index ==> rows[i] == WeekRow(units, keys, i, minutesPerWeek)
      invariant carryover == if index == 0 then 0 else Balance(units, WeekKey, keys[..index], minutesPerWeek)
    {
      var (year, week) := keys[index];
      var minutes := perWeek[keys[index]];
      BalanceStep(units, WeekKey, keys, index, minutesPerWeek);
      if index == 0 {
        var diff := minutes - minutesPerWeek;
        carryover := diff;
        var row := WeekStat(year, week, minutes, diff, diff);
        assert row == WeekRow(units, keys, index, minutesPerWeek);
        WeekRowsSnoc(units, keys, rows, index, minutesPerWeek);
        rows := rows + [row];
      } else {
        carryover := minutes + carryover - minutesPerWeek;
        var diff := minutes - minutesPerWeek;
        var row := WeekStat(year, week, minutes, diff, carryover);
        assert row == WeekRow(units, keys, index, minutesPerWeek);
        WeekRowsSnoc(units, keys, rows, index, minutesPerWeek);
        rows := rows + [row];
      }
    }
  }

  lemma WeekRowsSnoc(units: seq<WorkUnit>, keys: seq<(int, int)>, rows: seq<WeekStat>, index: nat, quota: int)
    requires index < |keys| && |rows| == index
    requires forall i :: 0 <= i < index ==> rows[i] == WeekRow(units, keys, i, quota)
    ensures forall i :: 0 <= i < index + 1 ==>
      (rows + [WeekRow(units, keys, index, quota)])[i] == WeekRow(units, keys, i, quota)
  {
  }

  lemma GapsStep(report: seq<int>, year: int, weeks: seq<int>, j: nat)
    requires j < |report|
    ensures Gaps(report[..j + 1], year, weeks)
      == Gaps(report[..j], year, weeks) + if report[j] in weeks then [] else [(year, report[j])]
  {
    assert report[..j + 1][..j] == report[..j];
  }

  /** A report week no bucket has is not a key yet: the report weeks are
      distinct. */
  lemma GapIsNew(seen: seq<(int, int)>, report: seq<int>, year: int, j: nat)
    requires j < |report| && Distinct(report)
    requires report[j] !in WeeksOf(seen)
    ensures (year, report[j]) !in seen + Gaps(report[..j], year, WeeksOf(seen))
  {
    GapsSpec(report[..j], year, WeeksOf(seen));
    forall i | 0 <= i < |seen|
      ensures seen[i] != (year, report[j])
    {
      assert WeeksOf(seen)[i] == seen[i].1;
    }
  }

  /** No unit lies in a week no bucket has. */
  lemma GapCollectsNothing(units: seq<WorkUnit>, year: int, week: int)
    requires week !in WeeksOf(FirstSeen(units, WeekKey))
    ensures MinutesWhere(units, WeekKey, (year, week)) == 0
  {
    var seen := FirstSeen(units, WeekKey);
    forall i | 0 <= i < |seen|
      ensures seen[i] != (year, week)
    {
      assert WeeksOf(seen)[i] == seen[i].1;
    }
    UnseenCollectsNothing(units, WeekKey, (year, week));
  }

  // ---------------------------------------------------------------------
  // What the weekly statistics hold

  /** The minutes of a list of rows. */
  function WeekMinutes(s: seq<WeekStat>): int
    decreases |s|
  {
    if s == [] then 0 else WeekMinutes(s[..|s| - 1]) + s[|s| - 1].minutes
  }

  lemma {:induction false} WeekMinutesConcat(a: seq<WeekStat>, b: seq<WeekStat>)
    ensures WeekMinutes(a + b) == WeekMinutes(a) + WeekMinutes(b)
    decreases |b|
  {
    if b == [] {
      assert a + b == a;
    } else {
      assert (a + b)[..|a + b| - 1] == a + b[..|b| - 1];
      WeekMinutesConcat(a, b[..|b| - 1]);
    }
  }

  lemma WeekMinutesSingle(x: WeekStat)
    ensures WeekMinutes([x]) == x.minutes
  {
    assert [x][..0] == [];
  }

  lemma {:induction false} InsertByWeekMinutes(x: WeekStat, s: seq<WeekStat>)
    ensures WeekMinutes(InsertByWeek(x, s)) == WeekMinutes(s) + x.minutes
    decreases |s|
  {
    WeekMinutesSingle(x);
    if s == [] {
    } else if x.week < s[0].week {
      WeekMinutesConcat([x], s);
    } else {
      InsertByWeekMinutes(x, s[1..]);
      WeekMinutesSingle(s[0]);
      WeekMinutesConcat([s[0]], InsertByWeek(x, s[1..]));
      WeekMinutesConcat([s[0]], s[1..]);
      assert [s[0]] + s[1..] == s;
    }
  }

  /** Sorting neither adds nor drops minutes. */
  lemma {:induction false} SortByWeekMinutes(rows: seq<WeekStat>)
    ensures WeekMinutes(SortByWeek(rows)) == WeekMinutes(rows)
    decreases |rows|
  {
    if rows != [] {
      var prefix := rows[..|rows| - 1];
      SortByWeekMinutes(prefix);
      InsertByWeekMinutes(rows[|rows| - 1], SortByWeek(prefix));
    }
  }

  /** Rows that carry the minutes of their buckets add up to the buckets. */
  lemma {:induction false} RowsMinutes<K>(rows: seq<WeekStat>, units: seq<WorkUnit>, key: WorkUnit -> K, ks: seq<K>)
    requires |rows| == |ks|
    requires forall i :: 0 <= i < |rows| ==> rows[i].minutes == MinutesWhere(units, key, ks[i])
    ensures WeekMinutes(rows) == BucketSum(units, key, ks)
    decreases |ks|
  {
    if ks != [] {
      var n := |ks| - 1;
      RowsMinutes(rows[..n], units, key, ks[..n]);
    }
  }

  /** Buckets that collect nothing add nothing. */
  lemma {:induction false} BucketSumNothingMore<K>(units: seq<WorkUnit>, key: WorkUnit -> K, ks: seq<K>, extra: seq<K>)
    requires forall i :: 0 <= i < |extra| ==> MinutesWhere(units, key, extra[i]) == 0
    ensures BucketSum(units, key, ks + extra) == BucketSum(units, key, ks)
    decreases |extra|
  {
    if extra == [] {
      assert ks + extra == ks;
    } else {
      var n := |extra| - 1;
      assert (ks + extra)[..|ks| + n] == ks + extra[..n];
      BucketSumNothingMore(units, key, ks, extra[..n]);
    }
  }

  /** A gap key collects nothing. */
  lemma GapsCollectNothing(units: seq<WorkUnit>, report: seq<int>, year: int, gaps: seq<(int, int)>)
    requires gaps == Gaps(report, year, WeeksOf(FirstSeen(units, WeekKey)))
    ensures forall i :: 0 <= i < |gaps| ==> MinutesWhere(units, WeekKey, gaps[i]) == 0
  {
    GapsSpec(report, year, WeeksOf(FirstSeen(units, WeekKey)));
    forall i | 0 <= i < |gaps|
      ensures MinutesWhere(units, WeekKey, gaps[i]) == 0
    {
      assert gaps[i] in gaps;
      GapCollectsNothing(units, year, gaps[i].1);
    }
  }

  /** The rows in dict order carry their keys and the minutes of their
      buckets. */
  lemma WeekRowsShape(units: seq<WorkUnit>, keys: seq<(int, int)>, quota: int)
    ensures var rows := WeekRows(units, keys, quota);
      && |rows| == |keys|
      && forall i :: 0 <= i < |rows| ==>
        && (rows[i].year, rows[i].week) == keys[i]
        && rows[i].minutes == MinutesWhere(units, WeekKey, keys[i])
        && rows[i].diff == rows[i].minutes - quota
  {
  }

  lemma RowsTotal(units: seq<WorkUnit>, seen: seq<(int, int)>, gaps: seq<(int, int)>, quota: int)
    requires forall i :: 0 <= i < |gaps| ==> MinutesWhere(units, WeekKey, gaps[i]) == 0
    ensures WeekMinutes(SortByWeek(WeekRows(units, seen + gaps, quota))) == BucketSum(units, WeekKey, seen)
  {
    var rows := WeekRows(units, seen + gaps, quota);
    WeekRowsShape(units, seen + gaps, quota);
    SortByWeekMinutes(rows);
    RowsMinutes(rows, units, WeekKey, seen + gaps);
    BucketSumNothingMore(units, WeekKey, seen, gaps);
  }

  /** The weekly statistics lose and invent no minutes: over all rows they
      add up to the minutes of all units. */
  lemma WeeklyTotal(units: seq<WorkUnit>, report: seq<int>, year: int, quota: int)
    ensures WeekMinutes(SortByWeek(WeekRows(units, WeekKeys(units, report, year), quota))) == TotalMinutes(units)
  {
    var seen := FirstSeen(units, WeekKey);
    var gaps := Gaps(report, year, WeeksOf(seen));
    GapsCollectNothing(units, report, year, gaps);
    RowsTotal(units, seen, gaps, quota);
    FirstSeenTotal(units, WeekKey);
  }

  /** Every key has its row after the sort. */
  lemma KeyHasRow(units: seq<WorkUnit>, keys: seq<(int, int)>, quota: int, i: nat)
    requires i < |keys|
    ensures var stats := SortByWeek(WeekRows(units, keys, quota));
      exists n :: 0 <= n < |stats| && (stats[n].year, stats[n].week) == keys[i]
  {
    var rows := WeekRows(units, keys, quota);
    WeekRowsShape(units, keys, quota);
    SortByWeekSpec(rows);
    assert rows[i] in multiset(SortByWeek(rows));
  }

  /** Every row after the sort is a row of the dict order. */
  lemma RowBeforeSort(units: seq<WorkUnit>, keys: seq<(int, int)>, quota: int, n: nat)
    requires n < |SortByWeek(WeekRows(units, keys, quota))|
    ensures exists i :: 0 <= i < |keys| && SortByWeek(WeekRows(units, keys, quota))[n] == WeekRows(units, keys, quota)[i]
  {
    var rows := WeekRows(units, keys, quota);
    WeekRowsShape(units, keys, quota);
    SortByWeekSpec(rows);
    assert SortByWeek(rows)[n] in multiset(rows);
  }

  /** Every report week has a row, and so has the bucket of every unit. */
  lemma WeeklyCovers(units: seq<WorkUnit>, report: seq<int>, year: int, quota: int)
    ensures var stats := SortByWeek(WeekRows(units, WeekKeys(units, report, year), quota));
      && (forall w :: w in report ==> exists n :: 0 <= n < |stats| && stats[n].week == w)
      && (forall j :: 0 <= j < |units| ==> exists n :: 0 <= n < |stats| && (stats[n].year, stats[n].week) == WeekKey(units[j]))
  {
    var stats := SortByWeek(WeekRows(units, WeekKeys(units, report, year), quota));
    forall w | w in report
      ensures exists n :: 0 <= n < |stats| && stats[n].week == w
    {
      ReportWeekHasRow(units, report, year, quota, w);
    }
    forall j | 0 <= j < |units|
      ensures exists n :: 0 <= n < |stats| && (stats[n].year, stats[n].week) == WeekKey(units[j])
    {
      UnitHasRow(units, report, year, quota, j);
    }
  }

  lemma ReportWeekHasRow(units: seq<WorkUnit>, report: seq<int>, year: int, quota: int, w: int)
    requires w in report
    ensures var stats := SortByWeek(WeekRows(units, WeekKeys(units, report, year), quota));
      exists n :: 0 <= n < |stats| && stats[n].week == w
  {
    var seen := FirstSeen(units, WeekKey);
    var gaps := Gaps(report, year, WeeksOf(seen));
    var keys := seen + gaps;
    if w in WeeksOf(seen) {
      var i :| 0 <= i < |seen| && WeeksOf(seen)[i] == w;
      assert keys[i].1 == w;
      KeyHasRow(units, keys, quota, i);
    } else {
      GapsSpec(report, year, WeeksOf(seen));
      assert (year, w) in gaps;
      var i :| 0 <= i < |gaps| && gaps[i] == (year, w);
      assert keys[|seen| + i].1 == w;
      KeyHasRow(units, keys, quota, |seen| + i);
    }
  }

  lemma UnitHasRow(units: seq<WorkUnit>, report: seq<int>, year: int, quota: int, j: nat)
    requires j < |units|
    ensures var stats := SortByWeek(WeekRows(units, WeekKeys(units, report, year), quota));
      exists n :: 0 <= n < |stats| && (stats[n].year, stats[n].week) == WeekKey(units[j])
  {
    var seen := FirstSeen(units, WeekKey);
    var keys := seen + Gaps(report, year, WeeksOf(seen));
    FirstSeenSpec(units, WeekKey);
    var i :| 0 <= i < |seen| && seen[i] == WeekKey(units[j]);
    assert keys[i] == WeekKey(units[j]);
    KeyHasRow(units, keys, quota, i);
  }

  /** With distinct report weeks, the gap keys are distinct. */
  lemma {:induction false} GapsDistinct(report: seq<int>, year: int, weeks: seq<int>)
    requires Distinct(report)
    ensures Distinct(Gaps(report, year, weeks))
    decreases |report|
  {
    if report != [] {
      var prefix := report[..|report| - 1];
      var w := report[|report| - 1];
      GapsDistinct(prefix, year, weeks);
      GapsSpec(prefix, year, weeks);
      forall i | 0 <= i < |prefix|
        ensures prefix[i] != w
      {
        assert prefix[i] == report[i];
      }
    }
  }

  /** Each key of work_per_week is there once: a gap key never repeats a
      bucket key, whose week it would share. */
  lemma WeekKeysDistinct(units: seq<WorkUnit>, report: seq<int>, year: int)
    requires Distinct(report)
    ensures Distinct(WeekKeys(units, report, year))
  {
    var seen := FirstSeen(units, WeekKey);
    FirstSeenSpec(units, WeekKey);
    GapsDistinct(report, year, WeeksOf(seen));
    GapsMissBuckets(seen, Gaps(report, year, WeeksOf(seen)), report, year);
    DistinctConcat(seen, Gaps(report, year, WeeksOf(seen)));
  }

  lemma GapsMissBuckets(seen: seq<(int, int)>, gaps: seq<(int, int)>, report: seq<int>, year: int)
    requires gaps == Gaps(report, year, WeeksOf(seen))
    ensures forall i, j :: 0 <= i < |seen| && 0 <= j < |gaps| ==> seen[i] != gaps[j]
  {
    GapsSpec(report, year, WeeksOf(seen));
    forall i, j | 0 <= i < |seen| && 0 <= j < |gaps|
      ensures seen[i] != gaps[j]
    {
      assert WeeksOf(seen)[i] == seen[i].1;
      assert gaps[j] in gaps;
    }
  }

  lemma DistinctConcat<K>(a: seq<K>, b: seq<K>)
    requires Distinct(a) && Distinct(b)
    requires forall i, j :: 0 <= i < |a| && 0 <= j < |b| ==> a[i] != b[j]
    ensures Distinct(a + b)
  {
    var c := a + b;
    forall i, j | 0 <= i < j < |c|
      ensures c[i] != c[j]
    {
      if j < |a| {
        assert c[i] == a[i] && c[j] == a[j];
      } else if i < |a| {
        assert c[i] == a[i] && c[j] == b[j - |a|];
      } else {
        assert c[i] == b[i - |a|] && c[j] == b[j - |a|];
      }
    }
  }

  /** A weekly row holds the minutes of its bucket and their difference
      from the quota; it is the bucket of some unit, or a gap row: a report
      week in which no unit lies, under the given year, with no minutes. */
  predicate BucketOrGap(units: seq<WorkUnit>, report: seq<int>, year: int, quota: int, r: WeekStat) {
    && r.minutes == MinutesWhere(units, WeekKey, (r.year, r.week))
    && r.diff == r.minutes - quota
    && ((exists j :: 0 <= j < |units| && WeekKey(units[j]) == (r.year, r.week))
        || (&& r.year == year && r.week in report && r.minutes == 0
            && forall j :: 0 <= j < |units| ==> WeekKey(units[j]).1 != r.week))
  }

  /** Every row of the weekly statistics is a bucket or a gap row. */
  lemma WeeklyRowsAre(units: seq<WorkUnit>, report: seq<int>, year: int, quota: int)
    ensures var stats := SortByWeek(WeekRows(units, WeekKeys(units, report, year), quota));
      forall n :: 0 <= n < |stats| ==> BucketOrGap(units, report, year, quota, stats[n])
  {
    var stats := SortByWeek(WeekRows(units, WeekKeys(units, report, year), quota));
    forall n | 0 <= n < |stats|
      ensures BucketOrGap(units, report, year, quota, stats[n])
    {
      RowIsBucketOrGap(units, report, year, quota, n);
    }
  }

  lemma RowIsBucketOrGap(units: seq<WorkUnit>, report: seq<int>, year: int, quota: int, n: nat)
    requires n < |SortByWeek(WeekRows(units, WeekKeys(units, report, year), quota))|
    ensures BucketOrGap(units, report, year, quota, SortByWeek(WeekRows(units, WeekKeys(units, report, year), quota))[n])
  {
    var seen := FirstSeen(units, WeekKey);
    var gaps := Gaps(report, year, WeeksOf(seen));
    var keys := seen + gaps;
    var rows := WeekRows(units, keys, quota);
    WeekRowsShape(units, keys, quota);
    RowBeforeSort(units, keys, quota, n);
    var i :| 0 <= i < |keys| && SortByWeek(rows)[n] == rows[i];
    var r := rows[i];
    assert (r.year, r.week) == keys[i];
    if i < |seen| {
      FirstSeenSpec(units, WeekKey);
      assert keys[i] in seen;
      var j :| 0 <= j < |units| && WeekKey(units[j]) == keys[i];
      BucketRow(units, report, year, quota, r, j);
    } else {
      GapRow(units, report, year, gaps, i - |seen|);
      GapRowIs(units, report, year, quota, r);
    }
  }

  lemma BucketRow(units: seq<WorkUnit>, report: seq<int>, year: int, quota: int, r: WeekStat, j: nat)
    requires j < |units| && WeekKey(units[j]) == (r.year, r.week)
    requires r.minutes == MinutesWhere(units, WeekKey, (r.year, r.week)) && r.diff == r.minutes - quota
    ensures BucketOrGap(units, report, year, quota, r)
  {
  }

  lemma GapRowIs(units: seq<WorkUnit>, report: seq<int>, year: int, quota: int, r: WeekStat)
    requires r.minutes == MinutesWhere(units, WeekKey, (r.year, r.week)) && r.diff == r.minutes - quota
    requires r.year == year && r.week in report && r.minutes == 0
    requires forall j :: 0 <= j < |units| ==> WeekKey(units[j]).1 != r.week
    ensures BucketOrGap(units, report, year, quota, r)
  {
  }

  /** A gap key: the given year, a report week in which no unit lies, and no
      minutes. */
  lemma GapRow(units: seq<WorkUnit>, report: seq<int>, year: int, gaps: seq<(int, int)>, i: nat)
    requires gaps == Gaps(report, year, WeeksOf(FirstSeen(units, WeekKey)))
    requires i < |gaps|
    ensures gaps[i].0 == year && gaps[i].1 in report
    ensures MinutesWhere(units, WeekKey, gaps[i]) == 0
    ensures forall j :: 0 <= j < |units| ==> WeekKey(units[j]).1 != gaps[i].1
  {
    var seen := FirstSeen(units, WeekKey);
    GapsSpec(report, year, WeeksOf(seen));
    assert gaps[i] in gaps;
    GapCollectsNothing(units, year, gaps[i].1);
    FirstSeenSpec(units, WeekKey);
    forall j | 0 <= j < |units|
      ensures WeekKey(units[j]).1 != gaps[i].1
    {
      var k :| 0 <= k < |seen| && seen[k] == WeekKey(units[j]);
      assert WeeksOf(seen)[k] == WeekKey(units[j]).1;
    }
  }
}
