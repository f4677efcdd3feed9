/** What the report shows of a statistics row: the load bar of a day or a
    week against its quota, and the elapsed, balance and carryover texts in
    hours or in minutes. */
module Output {
  import opened Text
  import opened Models

  // ---------------------------------------------------------------------
  // The load bar

  /** ''.join(parts) */
  function Join(parts: seq<string>): string
    decreases |parts|
  {
    if parts == [] then "" else Join(parts[..|parts| - 1]) + parts[|parts| - 1]
  }

  /** The bar of a total against a quota, one cell per full `step` minutes:
      first a '#' for every step of the smaller of the two, then a '+' for
      every step worked beyond the quota, or a '-' for every step of the
      quota not reached. */
  function BarOf(minutes: int, quota: int, step: int): string
    requires step > 0
  {
    var over := minutes >= quota;
    var filled := (if over then quota else minutes) / step;
    var rest := if over then (minutes - quota) / step else quota / step - minutes / step;
    Repeat('#', filled) + Repeat(if over then '+' else '-', rest)
  }

  /** The shared body of get_day_balance (steps of 10 minutes) and
      get_week_balance (steps of 60 minutes): the bar built part by part,
      and the balance against the quota. */
  method LoadBar(minutes: int, quota: int, step: int) returns (bar: string, balance: int)
    requires step > 0
    ensures bar == BarOf(minutes, quota, step)
    ensures balance == minutes - quota
    ensures forall i :: 0 <= i < |bar| ==> bar[i] == '#' || bar[i] == '+' || bar[i] == '-'
    ensures !('+' in bar && '-' in bar)
  {
    var parts: seq<string> := [];
    var perQuota := quota / step;
    if minutes >= quota {
      var filled := Repeat('#', quota / step);
      parts := parts + [filled];
      var exceed := (minutes - quota) / step;
      if exceed != 0 {
        parts := parts + [Repeat('+', exceed)];
        assert parts == [filled, Repeat('+', exceed)];
        JoinTwo(filled, Repeat('+', exceed));
      } else {
        assert parts == [filled];
        JoinOne(filled);
        assert BarOf(minutes, quota, step) == filled + "";
      }
    } else {
      var done := minutes / step;
      var filled := Repeat('#', done);
      parts := parts + [filled];
      if done < perQuota {
        parts := parts + [Repeat('-', perQuota - done)];
        assert parts == [filled, Repeat('-', perQuota - done)];
        JoinTwo(filled, Repeat('-', perQuota - done));
      } else {
        assert parts == [filled];
        JoinOne(filled);
        assert BarOf(minutes, quota, step) == filled + "";
      }
    }
    balance := minutes - quota;
    bar := Join(parts);
    BarMarks(minutes, quota, step);
  }

  lemma JoinOne(a: string)
    ensures Join([a]) == a
  {
    assert [a][..0] == [];
  }

  lemma JoinTwo(a: string, b: string)
    ensures Join([a, b]) == a + b
  {
    assert [a, b][..1] == [a];
    JoinOne(a);
  }

  /** get_day_balance(day_stat, minutes_per_day) */
  method DayBalance(stat: DayStat, minutesPerDay: int) returns (bar: string, balance: int)
    ensures bar == BarOf(stat.minutes, minutesPerDay, 10)
    ensures balance == stat.minutes - minutesPerDay
  {
    bar, balance := LoadBar(stat.minutes, minutesPerDay, 10);
  }

  /** get_week_balance(week_stat, minutes_per_week) */
  method WeekBalance(stat: WeekStat, minutesPerWeek: int) returns (bar: string, balance: int)
    ensures bar == BarOf(stat.minutes, minutesPerWeek, 60)
    ensures balance == stat.minutes - minutesPerWeek
  {
    bar, balance := LoadBar(stat.minutes, minutesPerWeek, 60);
  }

  /** A bar holds only '#', '+' and '-', never both a '+' and a '-', and its
      '#' cells come first. */
  lemma BarMarks(minutes: int, quota: int, step: int)
    requires step > 0
    ensures var bar := BarOf(minutes, quota, step);
      && (forall i :: 0 <= i < |bar| ==> bar[i] == '#' || bar[i] == '+' || bar[i] == '-')
      && !('+' in bar && '-' in bar)
      && (forall i, j :: 0 <= i < j < |bar| && bar[j] == '#' ==> bar[i] == '#')
  {
    var over := minutes >= quota;
    var filled := Repeat('#', (if over then quota else minutes) / step);
    var rest := Repeat(if over then '+' else '-',
                       if over then (minutes - quota) / step else quota / step - minutes / step);
    var bar := filled + rest;
    assert forall i :: 0 <= i < |bar| ==> bar[i] == if i < |filled| then '#' else rest[i - |filled|];
  }

  /** Under the quota, and for a total that is not negative, the bar is as
      long as the quota has steps: a '#' per step done and a '-' per step
      missing. */
  lemma BarUnderQuota(minutes: int, quota: int, step: int)
    requires step > 0 && 0 <= minutes < quota
    ensures var bar := BarOf(minutes, quota, step);
      && |bar| == quota / step
      && (forall i :: 0 <= i < |bar| ==> (bar[i] == '#' <==> i < minutes / step))
      && '+' !in bar
  {
    DivMonotone(minutes, quota, step);
    BarMarks(minutes, quota, step);
  }

  /** At or over the quota the bar has a '#' per step of the quota, then a
      '+' per full step of overtime, and no '-'. */
  lemma BarOverQuota(minutes: int, quota: int, step: int)
    requires step > 0 && 0 <= quota <= minutes
    ensures var bar := BarOf(minutes, quota, step);
      && |bar| == quota / step + (minutes - quota) / step
      && (forall i :: 0 <= i < |bar| ==> (bar[i] == '#' <==> i < quota / step))
      && '-' !in bar
  {
    BarMarks(minutes, quota, step);
  }

  /** A negative total draws a bar longer than the quota: no '#', and a '-'
      for more steps than the quota has. The current scanner cannot produce a
      negative duration, since its duration patterns put a digit right after
      the indentation; only the older reader, which reads the text after the
      last ':', can. */
  lemma BarNegativeTotal(minutes: int, quota: int, step: int)
    requires step > 0 && minutes < 0 <= quota
    ensures |BarOf(minutes, quota, step)| > quota / step
    ensures '#' !in BarOf(minutes, quota, step)
  {
    assert minutes / step < 0;
  }

  lemma DivMonotone(a: int, b: int, step: int)
    requires step > 0 && a <= b
    ensures a / step <= b / step
  {
    var qa, qb := a / step, b / step;
    if qa > qb {
      MulMonotone(qb + 1, qa, step);
      assert false;
    }
  }

  lemma {:induction false} MulMonotone(x: int, y: int, step: int)
    requires x <= y && step > 0
    ensures x * step <= y * step
    decreases y - x
  {
    if x < y {
      MulMonotone(x + 1, y, step);
      assert (x + 1) * step == x * step + step;
    }
  }

  /** 75 minutes against a 60-minute day: six '#' and one '+'; 25 minutes:
      two '#' and four '-'; 200 minutes against a 120-minute week: two '#'
      and one '+'. */
  lemma BarExamples()
    ensures BarOf(75, 60, 10) == "######+"
    ensures BarOf(25, 60, 10) == "##----"
    ensures BarOf(200, 120, 60) == "##+"
  {
    assert Repeat('#', 6) == "######";
    assert Repeat('-', 4) == "----";
    assert Repeat('+', 1) == "+";
    assert Repeat('#', 2) == "##";
  }

  // ---------------------------------------------------------------------
  // format_stat_unit

  /** f'{v // 60}:{(v % 60):02d}': the hours rounded down and the minutes
      left over, so that a negative value shows negative hours and positive
      minutes. */
  function Clock(v: int): string {
    IntToString(v / 60) + ":" + TwoDigits(v % 60)
  }

  /** The sign written in front of a positive balance or carryover. */
  function PlusSign(v: int): string {
    if v > 0 then "+" else ""
  }

  /** format_stat_unit(stat_unit, unit_minutes, balance, display_hours, csv)
      for a statistics row with the given minutes and carryover: the elapsed
      text, the balance text and the carryover text. */
  function FormatStatUnit(minutes: int, carryover: int, unitMinutes: int, balance: int, displayHours: bool, csv: bool)
    : (r: (string, string, string))
    ensures |r.1| > 0 && (r.1[0] == '+' <==> balance > 0) && (r.1[0] == '-' <==> balance < 0)
    ensures |r.2| > 0 && (r.2[0] == '+' <==> carryover > 0) && (r.2[0] == '-' <==> carryover < 0)
  {
    if displayHours then
      var elapsed := Clock(minutes) + if csv then "" else " from " + Clock(unitMinutes);
      (elapsed, PlusSign(balance) + Clock(balance), PlusSign(carryover) + Clock(carryover))
    else
      (" " + IntToString(minutes) + " from " + IntToString(unitMinutes),
       PlusSign(balance) + IntToString(balance),
       PlusSign(carryover) + IntToString(carryover))
  }

  /** Reads back an hours text: int() of what comes before the ':', times
      sixty, plus the two digits after it. */
  function ReadClock(s: string): Option<int> {
    if |s| < 3 || s[|s| - 3] != ':' then None
    else ReadHoursMinutes(s[..|s| - 3], s[|s| - 2..])
  }

  function ReadHoursMinutes(hours: string, mm: string): Option<int> {
    if !AllDigits(mm) then None
    else
      match PyInt(hours)
      case None => None
      case Some(h) => Some(60 * h + DigitsValue(mm))
  }

  /** An hours text, with or without its '+', reads back as the value it
      shows. */
  lemma ClockRoundTrip(v: int)
    ensures ReadClock(Clock(v)) == Some(v)
    ensures ReadClock(PlusSign(v) + Clock(v)) == Some(v)
  {
    var h := v / 60;
    var mm := TwoDigits(v % 60);
    IntToStringRoundTrip(h);
    PlusRoundTrip(v, h);
    ClockSplitUnsigned(IntToString(h), mm);
    ClockSplit(PlusSign(v), IntToString(h), mm);
    HoursMinutes(IntToString(h), v);
    HoursMinutes(PlusSign(v) + IntToString(h), v);
  }

  lemma HoursMinutes(hours: string, v: int)
    requires PyInt(hours) == Some(v / 60)
    ensures ReadHoursMinutes(hours, TwoDigits(v % 60)) == Some(v)
  {
  }

  /** Cutting a signed hours text at its ':' gives back the two halves. */
  lemma ClockSplit(sign: string, hours: string, mm: string)
    requires |mm| == 2
    ensures ReadClock(sign + (hours + ":" + mm)) == ReadHoursMinutes(sign + hours, mm)
  {
    var s := sign + (hours + ":" + mm);
    assert s[|s| - 3] == ':';
    assert ReadClock(s) == ReadHoursMinutes(s[..|s| - 3], s[|s| - 2..]);
    assert s[..|s| - 3] == sign + hours;
    assert s[|s| - 2..] == mm;
  }

  lemma ClockSplitUnsigned(hours: string, mm: string)
    requires |mm| == 2
    ensures ReadClock(hours + ":" + mm) == ReadHoursMinutes(hours, mm)
  {
    var s := hours + ":" + mm;
    assert s[|s| - 3] == ':';
    assert ReadClock(s) == ReadHoursMinutes(s[..|s| - 3], s[|s| - 2..]);
    assert s[..|s| - 3] == hours;
    assert s[|s| - 2..] == mm;
  }

  /** A '+' in front of a positive number is accepted by int(). */
  lemma PlusRoundTrip(v: int, n: int)
    requires v > 0 ==> n >= 0
    ensures PyInt(PlusSign(v) + IntToString(n)) == Some(n)
  {
    if v > 0 {
      PlusNat(n);
    } else {
      IntToStringRoundTrip(n);
      assert PlusSign(v) + IntToString(n) == IntToString(n);
    }
  }

  lemma PlusNat(n: nat)
    ensures PyInt("+" + NatToString(n)) == Some(n)
  {
    var s := "+" + NatToString(n);
    assert s[1..] == NatToString(n);
    NatToStringRoundTrip(n);
    PlusSigned(s, n);
    assert !IsSpace(s[0]) && !IsSpace(s[|s| - 1]);
    StripTrimmed(s);
  }

  lemma PlusSigned(s: string, n: nat)
    requires |s| > 0 && s[0] == '+' && UnsignedValue(s[1..]) == Some(n)
    ensures SignedValue(s) == Some(n)
  {
  }

  /** In hours the balance and the carryover read back as their values, and
      the elapsed text is the hours worked, followed by ' from ' and the
      hours due only when the output is not CSV. */
  lemma FormatHours(minutes: int, carryover: int, unitMinutes: int, balance: int, csv: bool)
    ensures var r := FormatStatUnit(minutes, carryover, unitMinutes, balance, true, csv);
      && ReadClock(r.1) == Some(balance)
      && ReadClock(r.2) == Some(carryover)
      && ReadClock(Clock(minutes)) == Some(minutes)
      && r.0 == Clock(minutes) + (if csv then "" else " from " + Clock(unitMinutes))
  {
    ClockRoundTrip(balance);
    ClockRoundTrip(carryover);
    ClockRoundTrip(minutes);
  }

  /** In minutes the balance and the carryover read back with int(), and the
      elapsed text names the minutes worked and the minutes due. */
  lemma FormatMinutes(minutes: int, carryover: int, unitMinutes: int, balance: int, csv: bool)
    ensures var r := FormatStatUnit(minutes, carryover, unitMinutes, balance, false, csv);
      && PyInt(r.1) == Some(balance)
      && PyInt(r.2) == Some(carryover)
      && r.0 == " " + IntToString(minutes) + " from " + IntToString(unitMinutes)
  {
    PlusRoundTrip(balance, balance);
    PlusRoundTrip(carryover, carryover);
  }

  /** -30 minutes show as -1:30, 90 as +1:30 for a balance, 5 as 0:05. */
  lemma ClockExamples()
    ensures Clock(-30) == "-1:30"
    ensures PlusSign(90) + Clock(90) == "+1:30"
    ensures Clock(5) == "0:05"
  {
    assert IntToString(-1) == "-1";
    assert IntToString(1) == "1";
    assert IntToString(0) == "0";
    assert TwoDigits(30) == "30";
    assert TwoDigits(5) == "05";
  }
}
