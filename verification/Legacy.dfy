/** The older reader and statistics of the work log: the client is taken
    from the one-tab lines, every deeper line under an in-range date is a
    unit whose minutes follow its last ':', and the weekly buckets are keyed
    by ISO week number alone. */
module Legacy {
  import opened Text
  import opened Dates
  import opened Models
  import opened Conf
  import Aggregation

  /** The variables of the older scan loop: the date of the last date line,
      whether it lies outside the range, and the client of the last one-tab
      line. */
  datatype LegacyScanner = LegacyScanner(date: Option<Date>, notInRange: bool, client: Option<string>)

  const NothingRead := LegacyScanner(None, false, None)

  predicate StartsWithTab(line: string) {
    |line| > 0 && line[0] == '\t'
  }

  /** A line with exactly one leading tab. */
  predicate IsClientLine(line: string) {
    StartsWithTab(line) && !(|line| > 1 && line[1] == '\t')
  }

  /** line.rsplit(':', 1)[1]: the text after the last ':', or None where
      there is no ':' and the index raises IndexError. */
  function AfterLastColon(line: string): (r: Option<string>)
    ensures r.Some? <==> ':' in line
    ensures r.Some? ==> && |r.value| < |line|
                        && line[|line| - |r.value| - 1] == ':'
                        && line[|line| - |r.value|..] == r.value
                        && ':' !in r.value
    decreases |line|
  {
    if line == [] then None
    else
      var prev := line[..|line| - 1];
      var last := line[|line| - 1];
      assert line == prev + [last];
      if last == ':' then Some("")
      else
        match AfterLastColon(prev)
        case None => None
        case Some(t) =>
          assert line[|line| - |t| - 1..] == prev[|prev| - |t|..] + [last];
          Some(t + [last])
  }

  /** One turn of the older scan loop. A line without a leading tab is a
      date line, parsed by strptime, which decides the range flag; a one-tab
      line names the client; any other line under an in-range date yields a
      unit. */
  function LegacyStep(st: LegacyScanner, line: string, start: Date, end: Date): Result<(LegacyScanner, seq<WorkUnit>)> {
    if !StartsWithTab(line) then
      match ParseDate(Strip(line))
      case None => Err(DateParse(line))
      case Some(d) => Ok((LegacyScanner(Some(d), d < start || d > end, st.client), []))
    else if IsClientLine(line) then
      Ok((st.(client := Some(Strip(line))), []))
    else if !st.notInRange then
      match AfterLastColon(line)
      case None => Err(NoColon(line))
      case Some(tail) =>
        match PyInt(tail)
        case None => Err(IntParse(line))
        case Some(minutes) =>
          match st.date
          case None => Err(UnboundDate)
          case Some(d) =>
            match st.client
            case None => Err(UnboundClient)
            case Some(c) => Ok((st, [WorkUnit(d, c, minutes, "")]))
    else
      Ok((st, []))
  }

  /** The scan so far followed by one more line: an error stays, otherwise
      the line is stepped over and its units appended. */
  function StepAfter(sofar: Result<(LegacyScanner, seq<WorkUnit>)>, line: string, start: Date, end: Date)
    : Result<(LegacyScanner, seq<WorkUnit>)>
  {
    match sofar
    case Err(e) => Err(e)
    case Ok((st, units)) =>
      match LegacyStep(st, line, start, end)
      case Err(e) => Err(e)
      case Ok((next, emitted)) => Ok((next, units + emitted))
  }

  /** The older scan of a sequence of lines: the loop variables after the
      last line and every unit yielded, or the first error. */
  function LegacyScan(lines: seq<string>, start: Date, end: Date): Result<(LegacyScanner, seq<WorkUnit>)>
    decreases |lines|
  {
    if lines == [] then Ok((NothingRead, []))
    else StepAfter(LegacyScan(lines[..|lines| - 1], start, end), lines[|lines| - 1], start, end)
  }

  function LegacyUnits(lines: seq<string>, start: Date, end: Date): Result<seq<WorkUnit>> {
    match LegacyScan(lines, start, end)
    case Err(e) => Err(e)
    case Ok((_, units)) => Ok(units)
  }

  lemma LegacyScanNext(lines: seq<string>, i: nat, start: Date, end: Date)
    requires i < |lines|
    ensures LegacyScan(lines[..i + 1], start, end) == StepAfter(LegacyScan(lines[..i], start, end), lines[i], start, end)
  {
    assert lines[..i + 1][..i] == lines[..i];
  }

  /** Once a prefix of the lines fails, the whole scan fails the same way. */
  lemma {:induction false} LegacyErrorPersists(lines: seq<string>, k: nat, start: Date, end: Date)
    requires k <= |lines| && LegacyScan(lines[..k], start, end).Err?
    ensures LegacyScan(lines, start, end) == LegacyScan(lines[..k], start, end)
    decreases |lines|
  {
    if k < |lines| {
      var prev := lines[..|lines| - 1];
      assert prev[..k] == lines[..k];
      LegacyErrorPersists(prev, k, start, end);
    } else {
      assert lines[..k] == lines;
    }
  }

  /** Scanning one more line that steps without an error. */
  lemma LegacyStepOk(lines: seq<string>, i: nat, start: Date, end: Date, st: LegacyScanner, units: seq<WorkUnit>,
                     next: LegacyScanner, emitted: seq<WorkUnit>)
    requires i < |lines| && LegacyScan(lines[..i], start, end) == Ok((st, units))
    requires LegacyStep(st, lines[i], start, end) == Ok((next, emitted))
    ensures LegacyScan(lines[..i + 1], start, end) == Ok((next, units + emitted))
  {
    LegacyScanNext(lines, i, start, end);
  }

  lemma LegacyStepQuiet(lines: seq<string>, i: nat, start: Date, end: Date, st: LegacyScanner, units: seq<WorkUnit>,
                        next: LegacyScanner)
    requires i < |lines| && LegacyScan(lines[..i], start, end) == Ok((st, units))
    requires LegacyStep(st, lines[i], start, end) == Ok((next, []))
    ensures LegacyScan(lines[..i + 1], start, end) == Ok((next, units))
  {
    LegacyScanNext(lines, i, start, end);
    assert units + [] == units;
  }

  /** Scanning stops at a line whose step fails. */
  lemma LegacyStopsAt(lines: seq<string>, i: nat, start: Date, end: Date, st: LegacyScanner, units: seq<WorkUnit>, e: ScanError)
    requires i < |lines| && LegacyScan(lines[..i], start, end) == Ok((st, units))
    requires LegacyStep(st, lines[i], start, end) == Err(e)
    ensures LegacyUnits(lines, start, end) == Err(e)
  {
    LegacyScanNext(lines, i, start, end);
    LegacyErrorPersists(lines, i + 1, start, end);
  }

  lemma StepDate(st: LegacyScanner, line: string, start: Date, end: Date, d: Date)
    requires !StartsWithTab(line) && ParseDate(Strip(line)) == Some(d)
    ensures LegacyStep(st, line, start, end) == Ok((LegacyScanner(Some(d), d < start || d > end, st.client), []))
  {
  }

  lemma StepClient(st: LegacyScanner, line: string, start: Date, end: Date)
    requires IsClientLine(line)
    ensures LegacyStep(st, line, start, end) == Ok((st.(client := Some(Strip(line))), []))
  {
  }

  lemma StepUnit(st: LegacyScanner, line: string, start: Date, end: Date, minutes: int)
    requires StartsWithTab(line)
    requires !IsClientLine(line)
    requires !st.notInRange
    requires AfterLastColon(line).Some?
    requires PyInt(AfterLastColon(line).value) == Some(minutes)
    requires st.date.Some?
    requires st.client.Some?
    ensures LegacyStep(st, line, start, end) == Ok((st, [WorkUnit(st.date.value, st.client.value, minutes, "")]))
  {
  }

  lemma StepSkip(st: LegacyScanner, line: string, start: Date, end: Date)
    requires StartsWithTab(line) && !IsClientLine(line) && st.notInRange
    ensures LegacyStep(st, line, start, end) == Ok((st, []))
  {
  }

  /** The errors of the older scan, in the order Python meets them on a
      counting work line: no ':', then int(), then the unbound date, then the
      unbound client; and a line without a tab that strptime rejects. */
  lemma StepFails(st: LegacyScanner, line: string, start: Date, end: Date, e: ScanError)
    requires
      || (!StartsWithTab(line) && ParseDate(Strip(line)).None? && e == DateParse(line))
      || (&& StartsWithTab(line) && !IsClientLine(line) && !st.notInRange
          && (|| (AfterLastColon(line).None? && e == NoColon(line))
              || (&& AfterLastColon(line).Some? && PyInt(AfterLastColon(line).value).None?
                  && e == IntParse(line))
              || (&& AfterLastColon(line).Some? && PyInt(AfterLastColon(line).value).Some?
                  && st.date.None? && e == UnboundDate)
              || (&& AfterLastColon(line).Some? && PyInt(AfterLastColon(line).value).Some?
                  && st.date.Some? && st.client.None? && e == UnboundClient)))
    ensures LegacyStep(st, line, start, end) == Err(e)
  {
  }

  /** get_work_units(lines, start_date, end_date) of the older module: every
      unit of the in-range dates in the order of the log, or the error that
      stops the scan. */
  method GetWorkUnits(lines: seq<string>, start: Date, end: Date) returns (r: Result<seq<WorkUnit>>)
    ensures r == LegacyUnits(lines, start, end)
  {
    var notInRange := false;
    var date: Option<Date> := None;
    var client: Option<string> := None;
    var units: seq<WorkUnit> := [];
    for i := 0 to |lines|
      invariant LegacyScan(lines[..i], start, end) == Ok((LegacyScanner(date, notInRange, client), units))
    {
      var line := lines[i];
      ghost var st := LegacyScanner(date, notInRange, client);
      if !StartsWithTab(line) {
        var parsed := ParseDate(Strip(line));
        if parsed.None? {
          StepFails(st, line, start, end, DateParse(line));
          LegacyStopsAt(lines, i, start, end, st, units, DateParse(line));
          return Err(DateParse(line));
        }
        date := Some(parsed.value);
        notInRange := parsed.value < start || parsed.value > end;
        StepDate(st, line, start, end, parsed.value);
        LegacyStepQuiet(lines, i, start, end, st, units, LegacyScanner(date, notInRange, client));
        continue;
      }
      if IsClientLine(line) {
        client := Some(Strip(line));
        StepClient(st, line, start, end);
        LegacyStepQuiet(lines, i, start, end, st, units, LegacyScanner(date, notInRange, client));
        continue;
      }
      if notInRange == false {
        var read := ReadUnit(date, client, line, start, end);
        if read.Err? {
          LegacyStopsAt(lines, i, start, end, st, units, read.error);
          return Err(read.error);
        }
        LegacyStepOk(lines, i, start, end, st, units, st, [read.value]);
        units := units + [read.value];
      } else {
        StepSkip(st, line, start, end);
        LegacyStepQuiet(lines, i, start, end, st, units, st);
      }
    }
    assert lines[..|lines|] == lines;
    return Ok(units);
  }

  /** The body of the older loop for a line with two or more tabs under an
      in-range date: the minutes after the last ':' make one unit for the
      current date and client, and each missing piece is an error. */
  method ReadUnit(date: Option<Date>, client: Option<string>, line: string, start: Date, end: Date)
    returns (r: Result<WorkUnit>)
    requires StartsWithTab(line) && !IsClientLine(line)
    ensures r.Err? ==> LegacyStep(LegacyScanner(date, false, client), line, start, end) == Err(r.error)
    ensures r.Ok? ==> LegacyStep(LegacyScanner(date, false, client), line, start, end)
                      == Ok((LegacyScanner(date, false, client), [r.value]))
    ensures r.Ok? ==> r.value.date == date.value && r.value.client == client.value && r.value.description == ""
  {
    ghost var st := LegacyScanner(date, false, client);
    var tail := AfterLastColon(line);
    if tail.None? {
      StepFails(st, line, start, end, NoColon(line));
      return Err(NoColon(line));
    }
    var minutes := PyInt(tail.value);
    if minutes.None? {
      StepFails(st, line, start, end, IntParse(line));
      return Err(IntParse(line));
    }
    if date.None? {
      StepFails(st, line, start, end, UnboundDate);
      return Err(UnboundDate);
    }
    if client.None? {
      StepFails(st, line, start, end, UnboundClient);
      return Err(UnboundClient);
    }
    StepUnit(st, line, start, end, minutes.value);
    return Ok(WorkUnit(date.value, client.value, minutes.value, ""));
  }

  // ---------------------------------------------------------------------
  // What the older scan computes, stated line by line

  /** The date of the last line of p without a leading tab, if any. */
  function LastDate(p: seq<string>): Option<Date>
    decreases |p|
  {
    if p == [] then None
    else if !StartsWithTab(p[|p| - 1]) then ParseDate(Strip(p[|p| - 1]))
    else LastDate(p[..|p| - 1])
  }

  /** The stripped text of the last one-tab line of p, if any. */
  function LastClient(p: seq<string>): Option<string>
    decreases |p|
  {
    if p == [] then None
    else if IsClientLine(p[|p| - 1]) then Some(Strip(p[|p| - 1]))
    else LastClient(p[..|p| - 1])
  }

  /** After the lines p, entries count: no date line yet, or the last one
      names a date inside [start, end]. */
  predicate Counting(p: seq<string>, start: Date, end: Date) {
    match LastDate(p)
    case None => true
    case Some(d) => start <= d <= end
  }

  /** The line after p is a work line that yields a unit. */
  predicate IsWorkLine(p: seq<string>, line: string, start: Date, end: Date) {
    StartsWithTab(line) && !IsClientLine(line) && Counting(p, start, end)
  }

  /** One unit per counting work line, dated by the last date line, for the
      last client line, with the minutes after the last ':'. */
  function LegacyExpected(p: seq<string>, start: Date, end: Date): seq<WorkUnit>
    decreases |p|
  {
    if p == [] then []
    else
      var prev := p[..|p| - 1];
      var line := p[|p| - 1];
      LegacyExpected(prev, start, end) +
        (if && IsWorkLine(prev, line, start, end) && LastDate(prev).Some? && LastClient(prev).Some?
            && AfterLastColon(line).Some? && PyInt(AfterLastColon(line).value).Some?
         then [WorkUnit(LastDate(prev).value, LastClient(prev).value, PyInt(AfterLastColon(line).value).value, "")]
         else [])
  }

  predicate LegacyMatches(p: seq<string>, start: Date, end: Date, st: LegacyScanner, units: seq<WorkUnit>) {
    && st.date == LastDate(p)
    && st.notInRange == !Counting(p, start, end)
    && st.client == LastClient(p)
    && units == LegacyExpected(p, start, end)
  }

  /** The older scan does what the line-by-line description says: its date
      is the last date, its client the last client line, and it yields one
      unit per counting work line. */
  lemma {:induction false} LegacyMatchesReference(lines: seq<string>, start: Date, end: Date)
    requires LegacyScan(lines, start, end).Ok?
    ensures LegacyMatches(lines, start, end, LegacyScan(lines, start, end).value.0, LegacyScan(lines, start, end).value.1)
    decreases |lines|
  {
    if lines != [] {
      var prev := lines[..|lines| - 1];
      LegacyMatchesReference(prev, start, end);
      var (st, units) := LegacyScan(prev, start, end).value;
      LegacyStepMatches(lines, start, end, st, units);
    }
  }

  lemma LegacyStepMatches(lines: seq<string>, start: Date, end: Date, st: LegacyScanner, units: seq<WorkUnit>)
    requires lines != [] && LegacyMatches(lines[..|lines| - 1], start, end, st, units)
    requires LegacyStep(st, lines[|lines| - 1], start, end).Ok?
    ensures LegacyMatches(lines, start, end, LegacyStep(st, lines[|lines| - 1], start, end).value.0,
                          units + LegacyStep(st, lines[|lines| - 1], start, end).value.1)
  {
    var line := lines[|lines| - 1];
    var prev := lines[..|lines| - 1];
    var r := LegacyStep(st, line, start, end).value;
    if !StartsWithTab(line) {
      assert r.1 == [] && LastDate(lines) == r.0.date;
    } else if IsClientLine(line) {
      assert r.1 == [] && LastClient(lines) == r.0.client;
    } else {
      StepMatchesWork(lines, start, end, st, units);
    }
    assert units + [] == units;
  }

  /** A work line leaves the date and the client as they were and yields the
      unit the description expects. */
  lemma StepMatchesWork(lines: seq<string>, start: Date, end: Date, st: LegacyScanner, units: seq<WorkUnit>)
    requires lines != [] && LegacyMatches(lines[..|lines| - 1], start, end, st, units)
    requires StartsWithTab(lines[|lines| - 1]) && !IsClientLine(lines[|lines| - 1])
    requires LegacyStep(st, lines[|lines| - 1], start, end).Ok?
    ensures LegacyStep(st, lines[|lines| - 1], start, end).value.0 == st
    ensures LegacyExpected(lines, start, end) == units + LegacyStep(st, lines[|lines| - 1], start, end).value.1
    ensures LastDate(lines) == st.date && LastClient(lines) == st.client
    ensures Counting(lines, start, end) == Counting(lines[..|lines| - 1], start, end)
  {
    assert units + [] == units;
  }

  /** Every unit of the older scan lies inside [start, end]. */
  lemma {:induction false} LegacyExpectedInRange(p: seq<string>, start: Date, end: Date)
    ensures forall u :: u in LegacyExpected(p, start, end) ==> start <= u.date <= end && u.description == ""
    decreases |p|
  {
    if p != [] {
      LegacyExpectedInRange(p[..|p| - 1], start, end);
    }
  }

  /** The log `2025-03-01`, `\tAcme`, `\t\tcoding: 30` read over that day
      yields one unit of 30 minutes for Acme. */
  lemma LegacyExample(lines: seq<string>, d: Date)
    requires lines == ["2025-03-01", "\tAcme", "\t\tcoding: 30"]
    requires d == FromYmd(2025, 3, 1)
    ensures LegacyUnits(lines, d, d) == Ok([WorkUnit(d, "Acme", 30, "")])
  {
    ExampleDate(lines, d);
    ExampleClient(lines, d);
    ExampleUnit(lines, d);
    LegacyWhole(lines, d, d, LegacyScanner(Some(d), false, Some("Acme")), [WorkUnit(d, "Acme", 30, "")]);
  }

  /** The date line opens the range and reads no unit. */
  lemma ExampleDate(lines: seq<string>, d: Date)
    requires |lines| == 3 && lines[0] == "2025-03-01" && d == FromYmd(2025, 3, 1)
    ensures LegacyScan(lines[..1], d, d) == Ok((LegacyScanner(Some(d), false, None), []))
  {
    var st1 := LegacyScanner(Some(d), false, None);
    LegacyDateLine(lines[0], d);
    StepDate(NothingRead, lines[0], d, d, d);
    LegacyFirstLine(lines, d, d, st1);
  }

  /** The client line names the client and reads no unit. */
  lemma ExampleClient(lines: seq<string>, d: Date)
    requires |lines| == 3 && lines[1] == "\tAcme"
    requires LegacyScan(lines[..1], d, d) == Ok((LegacyScanner(Some(d), false, None), []))
    ensures LegacyScan(lines[..2], d, d) == Ok((LegacyScanner(Some(d), false, Some("Acme")), []))
  {
    var none: seq<WorkUnit> := [];
    var st1 := LegacyScanner(Some(d), false, None);
    var st2 := LegacyScanner(Some(d), false, Some("Acme"));
    TabStrip(lines[1]);
    StepClient(st1, lines[1], d, d);
    LegacyStepOk(lines, 1, d, d, st1, none, st2, none);
    assert none + none == none;
  }

  /** The work line reads one unit of 30 minutes. */
  lemma ExampleUnit(lines: seq<string>, d: Date)
    requires |lines| == 3 && lines[2] == "\t\tcoding: 30"
    requires LegacyScan(lines[..2], d, d) == Ok((LegacyScanner(Some(d), false, Some("Acme")), []))
    ensures LegacyScan(lines[..3], d, d) == Ok((LegacyScanner(Some(d), false, Some("Acme")), [WorkUnit(d, "Acme", 30, "")]))
  {
    var none: seq<WorkUnit> := [];
    var unit := WorkUnit(d, "Acme", 30, "");
    var st2 := LegacyScanner(Some(d), false, Some("Acme"));
    UnitLine(st2, lines[2], d);
    LegacyStepOk(lines, 2, d, d, st2, none, st2, [unit]);
    assert none + [unit] == [unit];
  }

  lemma UnitLine(st: LegacyScanner, line: string, d: Date)
    requires line == "\t\tcoding: 30" && st == LegacyScanner(Some(d), false, Some("Acme"))
    ensures LegacyStep(st, line, d, d) == Ok((st, [WorkUnit(d, "Acme", 30, "")]))
  {
    ColonTail(line);
    StepUnit(st, line, d, d, 30);
  }

  lemma LegacyFirstLine(lines: seq<string>, start: Date, end: Date, st: LegacyScanner)
    requires |lines| > 0 && LegacyStep(NothingRead, lines[0], start, end) == Ok((st, []))
    ensures LegacyScan(lines[..1], start, end) == Ok((st, []))
  {
    var none: seq<WorkUnit> := [];
    assert lines[..0] == [];
    LegacyStepOk(lines, 0, start, end, NothingRead, none, st, none);
    assert none + none == none;
  }

  lemma LegacyWhole(lines: seq<string>, start: Date, end: Date, st: LegacyScanner, units: seq<WorkUnit>)
    requires LegacyScan(lines[..|lines|], start, end) == Ok((st, units))
    ensures LegacyUnits(lines, start, end) == Ok(units)
  {
    assert lines[..|lines|] == lines;
  }

  lemma LegacyDateLine(line: string, d: Date)
    requires line == "2025-03-01" && d == FromYmd(2025, 3, 1)
    ensures ParseDate(Strip(line)) == Some(d)
  {
    assert IsDateLine(line);
    assert LineYear(line) == 2025 && LineMonth(line) == 3 && LineDay(line) == 1;
    DateLineParses(line);
  }

  lemma TabStrip(line: string)
    requires line == "\tAcme"
    ensures IsClientLine(line) && Strip(line) == "Acme"
  {
    assert line[0] == '\t' && line[1] == 'A';
    StripFramed("\t", "Acme", "");
    assert "\t" + "Acme" + "" == line;
  }

  lemma ColonTail(line: string)
    requires line == "\t\tcoding: 30"
    ensures StartsWithTab(line) && !IsClientLine(line)
    ensures AfterLastColon(line).Some? && PyInt(AfterLastColon(line).value) == Some(30)
  {
    assert line[0] == '\t' && line[1] == '\t';
    ThirtyMinutes();
    assert line == "\t\tcoding" + ":" + " 30";
    AfterColonOf("\t\tcoding", " 30");
  }

  /** The text after a ':' that is followed by no other ':' is what
      rsplit(':', 1)[1] gives. */
  lemma {:induction false} AfterColonOf(head: string, tail: string)
    requires ':' !in tail
    ensures AfterLastColon(head + ":" + tail) == Some(tail)
    decreases |tail|
  {
    var line := head + ":" + tail;
    if tail == [] {
      assert line[|line| - 1] == ':';
    } else {
      var t0 := tail[..|tail| - 1];
      assert ':' !in t0 by {
        forall i | 0 <= i < |t0| ensures t0[i] != ':' { assert t0[i] == tail[i]; }
      }
      AfterColonOf(head, t0);
      assert line[..|line| - 1] == head + ":" + t0;
      assert line[|line| - 1] == tail[|tail| - 1];
      assert t0 + [tail[|tail| - 1]] == tail;
    }
  }

  lemma ThirtyMinutes()
    ensures PyInt(" 30") == Some(30)
  {
    StripThirty();
    SignedThirty();
  }

  lemma StripThirty()
    ensures Strip(" 30") == "30"
  {
    StripFramed(" ", "30", "");
    assert " " + "30" + "" == " 30";
  }

  lemma SignedThirty()
    ensures SignedValue("30") == Some(30)
  {
    SignedRoundTrip(30);
    assert IntToString(30) == "30";
  }

  // ---------------------------------------------------------------------
  // get_daily_stats and get_weekly_stats of the older module

  /** get_daily_stats of the older module is the same computation as the
      newer one, against the module's daily quota. */
  method DailyStats(units: seq<WorkUnit>, start: Date, end: Date, excluded: seq<int>, minutesPerDay: int)
    returns (stats: seq<DayStat>)
    ensures Aggregation.IsDailyStats(units, start, end, minutesPerDay, excluded, stats)
  {
    stats := Aggregation.DailyStats(units, start, end, minutesPerDay, excluded);
  }

  /** The weekly bucket key of the older module: the ISO week number alone. */
  function WeekNumber(u: WorkUnit): int {
    IsoWeek(u.date)
  }

  /** The row of the i-th week in first-seen order, with the running
      balance over the weeks up to it. */
  function LegacyWeekRow(units: seq<WorkUnit>, weeks: seq<int>, i: nat, quota: int): LegacyWeekStat
    requires i < |weeks|
  {
    var minutes := Aggregation.MinutesWhere(units, WeekNumber, weeks[i]);
    LegacyWeekStat(weeks[i], minutes, minutes - quota, Aggregation.Balance(units, WeekNumber, weeks[..i + 1], quota))
  }

  /** The rows of the given weeks, in their order. */
  function RowsOver(units: seq<WorkUnit>, weeks: seq<int>, quota: int): seq<LegacyWeekStat> {
    seq(|weeks|, i requires 0 <= i < |weeks| => LegacyWeekRow(units, weeks, i, quota))
  }

  /** The rows of the week numbers in the order the units first meet them. */
  function LegacyWeekRows(units: seq<WorkUnit>, quota: int): seq<LegacyWeekStat> {
    RowsOver(units, Aggregation.FirstSeen(units, WeekNumber), quota)
  }

  /** get_weekly_stats(work_units, start_date, end_date) of the older module:
      one row per ISO week number in the order the weeks are first met, with
      no gap fill and no sort; the dates of the range play no part. */
  method WeeklyStats(units: seq<WorkUnit>, start: Date, end: Date, minutesPerWeek: int)
    returns (stats: seq<LegacyWeekStat>)
    ensures stats == LegacyWeekRows(units, minutesPerWeek)
  {
    var weeks, perWeek := Aggregation.Tally(units, WeekNumber);
    stats := LegacyRows(units, weeks, perWeek, minutesPerWeek);
  }

  /** The row loop of the older get_weekly_stats: the carryover starts at
      the first row's difference and then runs on. */
  method LegacyRows(units: seq<WorkUnit>, weeks: seq<int>, perWeek: map<int, int>, minutesPerWeek: int)
    returns (stats: seq<LegacyWeekStat>)
    requires forall k :: k in weeks ==> k in perWeek && perWeek[k] == Aggregation.MinutesWhere(units, WeekNumber, k)
    ensures stats == RowsOver(units, weeks, minutesPerWeek)
  {
    stats := [];
    var carryover := 0;
    for index := 0 to |weeks|
      invariant |stats| == index
      invariant forall i :: 0 <= i < index ==> stats[i] == LegacyWeekRow(units, weeks, i, minutesPerWeek)
      invariant carryover == if index == 0 then 0 else Aggregation.Balance(units, WeekNumber, weeks[..index], minutesPerWeek)
    {
      var week := weeks[index];
      var minutes := perWeek[week];
      Aggregation.BalanceStep(units, WeekNumber, weeks, index, minutesPerWeek);
      if index == 0 {
        var diff := minutes - minutesPerWeek;
        carryover := diff;
        var row := LegacyWeekStat(week, minutes, diff, diff);
        assert row == LegacyWeekRow(units, weeks, index, minutesPerWeek);
        RowsSnoc(units, weeks, stats, index, minutesPerWeek);
        stats := stats + [row];
      } else {
        carryover := minutes + carryover - minutesPerWeek;
        var diff := minutes - minutesPerWeek;
        var row := LegacyWeekStat(week, minutes, diff, carryover);
        assert row == LegacyWeekRow(units, weeks, index, minutesPerWeek);
        RowsSnoc(units, weeks, stats, index, minutesPerWeek);
        stats := stats + [row];
      }
    }
  }

  lemma RowsSnoc(units: seq<WorkUnit>, weeks: seq<int>, stats: seq<LegacyWeekStat>, index: nat, quota: int)
    requires index < |weeks| && |stats| == index
    requires forall i :: 0 <= i < index ==> stats[i] == LegacyWeekRow(units, weeks, i, quota)
    ensures forall i :: 0 <= i < index + 1 ==>
      (stats + [LegacyWeekRow(units, weeks, index, quota)])[i] == LegacyWeekRow(units, weeks, i, quota)
  {
  }

  /** Each week number has one row, and the rows hold the minutes of their
      week number, whatever the calendar year of the units. */
  lemma LegacyWeeksSpec(units: seq<WorkUnit>, quota: int)
    ensures var rows := LegacyWeekRows(units, quota);
      && (forall i, j :: 0 <= i < j < |rows| ==> rows[i].week != rows[j].week)
      && (forall i :: 0 <= i < |rows| ==>
            rows[i].minutes == Aggregation.MinutesWhere(units, WeekNumber, rows[i].week)
            && rows[i].diff == rows[i].minutes - quota)
  {
    var weeks := Aggregation.FirstSeen(units, WeekNumber);
    Aggregation.FirstSeenSpec(units, WeekNumber);
    var rows := RowsOver(units, weeks, quota);
    assert forall i :: 0 <= i < |rows| ==> rows[i].week == weeks[i];
  }

  /** The week of every unit has a row. */
  lemma LegacyWeeksCover(units: seq<WorkUnit>, quota: int, j: nat)
    requires j < |units|
    ensures var rows := LegacyWeekRows(units, quota);
      exists i :: 0 <= i < |rows| && rows[i].week == WeekNumber(units[j])
  {
    var weeks := Aggregation.FirstSeen(units, WeekNumber);
    Aggregation.FirstSeenSpec(units, WeekNumber);
    var rows := LegacyWeekRows(units, quota);
    assert WeekNumber(units[j]) in weeks;
    var i :| 0 <= i < |weeks| && weeks[i] == WeekNumber(units[j]);
    assert rows[i] == LegacyWeekRow(units, weeks, i, quota);
  }

  /** In first-seen order the carryover starts at the first row's
      difference and adds the difference of each later row. */
  lemma LegacyWeeksCarry(units: seq<WorkUnit>, quota: int)
    ensures var rows := LegacyWeekRows(units, quota);
      && (|rows| > 0 ==> rows[0].carryover == rows[0].diff)
      && (forall i :: 0 < i < |rows| ==> rows[i].carryover == rows[i - 1].carryover + rows[i].diff)
  {
    var weeks := Aggregation.FirstSeen(units, WeekNumber);
    var rows := LegacyWeekRows(units, quota);
    if |rows| > 0 {
      Aggregation.BalanceStep(units, WeekNumber, weeks, 0, quota);
    }
    forall i | 0 < i < |rows|
      ensures rows[i].carryover == rows[i - 1].carryover + rows[i].diff
    {
      Aggregation.BalanceStep(units, WeekNumber, weeks, i, quota);
    }
  }

  /** The minutes of the rows add up to the minutes of all units. */
  function LegacyMinutes(rows: seq<LegacyWeekStat>): int
    decreases |rows|
  {
    if rows == [] then 0 else LegacyMinutes(rows[..|rows| - 1]) + rows[|rows| - 1].minutes
  }

  lemma LegacyWeeklyTotal(units: seq<WorkUnit>, quota: int)
    ensures LegacyMinutes(LegacyWeekRows(units, quota)) == Aggregation.TotalMinutes(units)
  {
    var weeks := Aggregation.FirstSeen(units, WeekNumber);
    LegacyRowsMinutes(units, weeks, quota, |weeks|);
    Aggregation.FirstSeenTotal(units, WeekNumber);
    assert weeks[..|weeks|] == weeks;
    assert LegacyWeekRows(units, quota)[..|weeks|] == LegacyWeekRows(units, quota);
  }

  lemma {:induction false} LegacyRowsMinutes(units: seq<WorkUnit>, weeks: seq<int>, quota: int, n: nat)
    requires weeks == Aggregation.FirstSeen(units, WeekNumber) && n <= |weeks|
    ensures LegacyMinutes(LegacyWeekRows(units, quota)[..n]) == Aggregation.BucketSum(units, WeekNumber, weeks[..n])
  {
    var rows := LegacyWeekRows(units, quota);
    if n > 0 {
      LegacyRowsMinutes(units, weeks, quota, n - 1);
      assert rows[..n][..n - 1] == rows[..n - 1];
      assert weeks[..n][..n - 1] == weeks[..n - 1];
    }
  }
}
