/** The work-unit scanner: reading work units out of the lines of a log,
    one line at a time, with a date line opening each day, description lines
    gathered into the description and duration lines closing a unit. */
module Logic {
  import opened Text
  import opened Dates
  import opened Conf
  import opened Models
  import opened Utils

  /** What a scan looks for: whose work, which dates (both ends included),
      and which indentation the log uses. */
  datatype Query = Query(client: string, start: Date, end: Date, style: Style)

  /** The variables of the scan loop: the date of the last date line, whether
      that date lies outside the range, and the description gathered since the
      last consumed duration. */
  datatype Scanner = Scanner(date: Option<Date>, notInRange: bool, description: string)

  const Initial := Scanner(None, false, "")

  // ---------------------------------------------------------------------
  // The scan, one line at a time

  /** One turn of the scan loop: the new variables and the units yielded. A
      date line is parsed and decides the range flag; a description line in
      range extends the description; a duration line in range yields a unit
      and clears the description; any other line changes nothing. */
  function Step(st: Scanner, line: string, q: Query): Result<(Scanner, seq<WorkUnit>)> {
    if IsDateLine(line) then
      match ParseDate(Strip(line))
      case None => Err(DateParse(line))
      case Some(d) => Ok((Scanner(Some(d), d < q.start || d > q.end, st.description), []))
    else if IsDescription(q.style, line) && !st.notInRange then
      Ok((st.(description := st.description + " " + Strip(line)), []))
    else if IsDuration(q.style, line) && !st.notInRange then
      match PyInt(Strip(line))
      case None => Err(IntParse(line))
      case Some(minutes) =>
        match st.date
        case None => Err(UnboundDate)
        case Some(d) =>
          var unit := WorkUnit(d, q.client, minutes, st.description);
          Ok((st.(description := ""), if Lower(unit.client) == Lower(q.client) then [unit] else []))
    else
      Ok((st, []))
  }

  /** The scan of a sequence of lines: the loop variables after the last line
      and every unit yielded, or the first error. */
  function Scan(lines: seq<string>, q: Query): Result<(Scanner, seq<WorkUnit>)>
    decreases |lines|
  {
    if lines == [] then Ok((Initial, []))
    else
      match Scan(lines[..|lines| - 1], q)
      case Err(e) => Err(e)
      case Ok((st, units)) =>
        match Step(st, lines[|lines| - 1], q)
        case Err(e) => Err(e)
        case Ok((next, emitted)) => Ok((next, units + emitted))
  }

  /** The units of a scan, or its error. */
  function ScanUnits(lines: seq<string>, q: Query): Result<seq<WorkUnit>> {
    match Scan(lines, q)
    case Err(e) => Err(e)
    case Ok((_, units)) => Ok(units)
  }

  /** Once a prefix of the lines fails, the whole scan fails the same way. */
  lemma {:induction false} ScanErrorPersists(lines: seq<string>, k: nat, q: Query)
    requires k <= |lines| && Scan(lines[..k], q).Err?
    ensures Scan(lines, q) == Scan(lines[..k], q)
    decreases |lines|
  {
    if k < |lines| {
      var prev := lines[..|lines| - 1];
      assert prev[..k] == lines[..k];
      ScanErrorPersists(prev, k, q);
    } else {
      assert lines[..k] == lines;
    }
  }

  /** Scanning one more line is one more Step. */
  lemma ScanOneMore(lines: seq<string>, i: nat, q: Query, st: Scanner, units: seq<WorkUnit>,
                    next: Scanner, emitted: seq<WorkUnit>)
    requires i < |lines| && Scan(lines[..i], q) == Ok((st, units))
    requires Step(st, lines[i], q) == Ok((next, emitted))
    ensures Scan(lines[..i + 1], q) == Ok((next, units + emitted))
  {
    assert lines[..i + 1][..i] == lines[..i];
  }

  /** Scanning one more line that yields nothing. */
  lemma ScanOneQuiet(lines: seq<string>, i: nat, q: Query, st: Scanner, units: seq<WorkUnit>, next: Scanner)
    requires i < |lines| && Scan(lines[..i], q) == Ok((st, units))
    requires Step(st, lines[i], q) == Ok((next, []))
    ensures Scan(lines[..i + 1], q) == Ok((next, units))
  {
    ScanOneMore(lines, i, q, st, units, next, []);
    assert units + [] == units;
  }

  /** Scanning stops at a line whose Step fails. */
  lemma ScanStopsAt(lines: seq<string>, i: nat, q: Query, st: Scanner, units: seq<WorkUnit>, e: ScanError)
    requires i < |lines| && Scan(lines[..i], q) == Ok((st, units))
    requires Step(st, lines[i], q) == Err(e)
    ensures ScanUnits(lines, q) == Err(e)
  {
    assert lines[..i + 1][..i] == lines[..i];
    ScanErrorPersists(lines, i + 1, q);
  }

  /** A date line that parses moves the scan to its date. */
  lemma ScanDate(lines: seq<string>, i: nat, q: Query, st: Scanner, units: seq<WorkUnit>, d: Date)
    requires i < |lines| && Scan(lines[..i], q) == Ok((st, units))
    requires IsDateLine(lines[i]) && ParseDate(Strip(lines[i])) == Some(d)
    ensures Scan(lines[..i + 1], q) == Ok((Scanner(Some(d), d < q.start || d > q.end, st.description), units))
  {
    ScanOneQuiet(lines, i, q, st, units, Scanner(Some(d), d < q.start || d > q.end, st.description));
  }

  /** A counting description line extends the description. */
  lemma ScanNote(lines: seq<string>, i: nat, q: Query, st: Scanner, units: seq<WorkUnit>)
    requires i < |lines| && Scan(lines[..i], q) == Ok((st, units))
    requires !IsDateLine(lines[i]) && IsDescription(q.style, lines[i]) && !st.notInRange
    ensures Scan(lines[..i + 1], q) == Ok((st.(description := st.description + " " + Strip(lines[i])), units))
  {
    ScanOneQuiet(lines, i, q, st, units, st.(description := st.description + " " + Strip(lines[i])));
  }

  /** A counting duration line under a date yields its unit (when the client
      matches) and clears the description. */
  lemma ScanDuration(lines: seq<string>, i: nat, q: Query, st: Scanner, units: seq<WorkUnit>, minutes: int, d: Date)
    requires i < |lines| && Scan(lines[..i], q) == Ok((st, units))
    requires !IsDateLine(lines[i]) && !IsDescription(q.style, lines[i]) && IsDuration(q.style, lines[i])
    requires !st.notInRange && PyInt(Strip(lines[i])) == Some(minutes) && st.date == Some(d)
    ensures var unit := WorkUnit(d, q.client, minutes, st.description);
      Scan(lines[..i + 1], q) ==
        Ok((st.(description := ""), units + if Lower(unit.client) == Lower(q.client) then [unit] else []))
  {
    var unit := WorkUnit(d, q.client, minutes, st.description);
    ScanOneMore(lines, i, q, st, units, st.(description := ""), if Lower(unit.client) == Lower(q.client) then [unit] else []);
  }

  /** Any other line changes nothing. */
  lemma ScanOther(lines: seq<string>, i: nat, q: Query, st: Scanner, units: seq<WorkUnit>)
    requires i < |lines| && Scan(lines[..i], q) == Ok((st, units))
    requires !IsDateLine(lines[i])
    requires !(IsDescription(q.style, lines[i]) && !st.notInRange)
    requires !(IsDuration(q.style, lines[i]) && !st.notInRange)
    ensures Scan(lines[..i + 1], q) == Ok((st, units))
  {
    ScanOneQuiet(lines, i, q, st, units, st);
  }

  /** The errors: a date line strptime rejects, a counting duration int()
      rejects, or one that comes before any date. */
  lemma ScanFails(lines: seq<string>, i: nat, q: Query, st: Scanner, units: seq<WorkUnit>, e: ScanError)
    requires i < |lines| && Scan(lines[..i], q) == Ok((st, units))
    requires
      || (IsDateLine(lines[i]) && ParseDate(Strip(lines[i])).None? && e == DateParse(lines[i]))
      || (&& !IsDateLine(lines[i]) && !(IsDescription(q.style, lines[i]) && !st.notInRange)
          && IsDuration(q.style, lines[i]) && !st.notInRange
          && ((PyInt(Strip(lines[i])).None? && e == IntParse(lines[i]))
              || (PyInt(Strip(lines[i])).Some? && st.date.None? && e == UnboundDate)))
    ensures ScanUnits(lines, q) == Err(e)
  {
    ScanStopsAt(lines, i, q, st, units, e);
  }

  /** get_work_units(lines, client, start, end, patterns): every work unit the
      log holds for the client within the date range, in the order of the
      log, or the error that stops the scan. */
  method GetWorkUnits(lines: seq<string>, q: Query) returns (r: Result<seq<WorkUnit>>)
    ensures r == ScanUnits(lines, q)
  {
    var notInRange := false;
    var description := "";
    var date: Option<Date> := None;
    var units: seq<WorkUnit> := [];
    var i := 0;
    while i < |lines|
      invariant 0 <= i <= |lines|
      invariant Scan(lines[..i], q) == Ok((Scanner(date, notInRange, description), units))
    {
      var line := lines[i];
      ghost var before := Scanner(date, notInRange, description);
      ghost var unitsBefore := units;
      if IsDateLine(line) {
        var parsed := ParseDate(Strip(line));
        if parsed.None? {
          ScanFails(lines, i, q, before, units, DateParse(line));
          return Err(DateParse(line));
        }
        date := Some(parsed.value);
        notInRange := if parsed.value < q.start || parsed.value > q.end then true else false;
        ScanDate(lines, i, q, before, unitsBefore, parsed.value);
      } else if IsDescription(q.style, line) && notInRange == false {
        description := description + " " + Strip(line);
        ScanNote(lines, i, q, before, unitsBefore);
      } else if IsDuration(q.style, line) && notInRange == false {
        var minutes := PyInt(Strip(line));
        if minutes.None? {
          ScanFails(lines, i, q, before, units, IntParse(line));
          return Err(IntParse(line));
        }
        if date.None? {
          ScanFails(lines, i, q, before, units, UnboundDate);
          return Err(UnboundDate);
        }
        var unit := WorkUnit(date.value, q.client, minutes.value, description);
        description := "";
        ScanDuration(lines, i, q, before, unitsBefore, minutes.value, date.value);
        if Lower(unit.client) == Lower(q.client) {
          units := units + [unit];
        }
      } else {
        ScanOther(lines, i, q, before, unitsBefore);
      }
      assert Scan(lines[..i + 1], q) == Ok((Scanner(date, notInRange, description), units));
      i := i + 1;
    }
    assert lines[..i] == lines;
    return Ok(units);
  }

  // ---------------------------------------------------------------------
  // What the scan computes, stated line by line

  /** The date named by the last date line of p, if there is one. */
  function GoverningDate(p: seq<string>): Option<Date>
    decreases |p|
  {
    if p == [] then None
    else if IsDateLine(p[|p| - 1]) then ParseDate(Strip(p[|p| - 1]))
    else GoverningDate(p[..|p| - 1])
  }

  /** After the lines p, entries count: no date line yet, or the last one
      names a date inside [start, end]. */
  predicate InRange(p: seq<string>, q: Query) {
    match GoverningDate(p)
    case None => true
    case Some(d) => q.start <= d <= q.end
  }

  /** The line after p is a description that counts. */
  predicate IsNote(p: seq<string>, line: string, q: Query) {
    !IsDateLine(line) && IsDescription(q.style, line) && InRange(p, q)
  }

  /** The line after p is a duration that counts and yields a unit. */
  predicate IsConsumed(p: seq<string>, line: string, q: Query) {
    !IsDateLine(line) && !IsDescription(q.style, line) && IsDuration(q.style, line) && InRange(p, q)
  }

  /** The number of lines of p up to and including its last consumed duration
      (0 when there is none). */
  function LastConsumed(p: seq<string>, q: Query): (n: nat)
    ensures n <= |p|
    decreases |p|
  {
    if p == [] then 0
    else if IsConsumed(p[..|p| - 1], p[|p| - 1], q) then |p|
    else LastConsumed(p[..|p| - 1], q)
  }

  /** ' ' + strip(line) for each counting description among the lines of p
      from index `from` on, concatenated in order. */
  function Notes(p: seq<string>, from: nat, q: Query): string
    decreases |p|
  {
    if |p| <= from then ""
    else
      var prev := p[..|p| - 1];
      Notes(prev, from, q) + (if IsNote(prev, p[|p| - 1], q) then " " + Strip(p[|p| - 1]) else "")
  }

  /** The description the next unit would carry. */
  function Pending(p: seq<string>, q: Query): string {
    Notes(p, LastConsumed(p, q), q)
  }

  /** The units of p: one per consumed duration, in order, dated by the date
      line governing it, for the queried client, carrying the minutes of the
      duration and the notes gathered since the previous consumed duration. */
  function Expected(p: seq<string>, q: Query): seq<WorkUnit>
    decreases |p|
  {
    if p == [] then []
    else
      var prev := p[..|p| - 1];
      var line := p[|p| - 1];
      Expected(prev, q) +
        (if IsConsumed(prev, line, q) && GoverningDate(prev).Some? && PyInt(Strip(line)).Some? then
           [WorkUnit(GoverningDate(prev).value, q.client, PyInt(Strip(line)).value, Pending(prev, q))]
         else [])
  }

  /** The loop variables and the units yielded agree with the line-by-line
      description of the lines p. */
  predicate Matches(p: seq<string>, q: Query, st: Scanner, units: seq<WorkUnit>) {
    && st.date == GoverningDate(p)
    && st.notInRange == !InRange(p, q)
    && st.description == Pending(p, q)
    && units == Expected(p, q)
  }

  /** The scan does what the line-by-line description says: its date is the
      governing date, its range flag is the negation of InRange, its
      description is the pending notes, and it yields exactly the expected
      units. */
  lemma {:induction false} ScanMatchesReference(lines: seq<string>, q: Query)
    requires Scan(lines, q).Ok?
    ensures Matches(lines, q, Scan(lines, q).value.0, Scan(lines, q).value.1)
    decreases |lines|
  {
    if lines != [] {
      var prev := lines[..|lines| - 1];
      var line := lines[|lines| - 1];
      ScanMatchesReference(prev, q);
      var (st, units) := Scan(prev, q).value;
      StepMatches(lines, q, st, units);
    }
  }

  /** One Step keeps the scan in agreement with the description. */
  lemma StepMatches(lines: seq<string>, q: Query, st: Scanner, units: seq<WorkUnit>)
    requires lines != [] && Matches(lines[..|lines| - 1], q, st, units)
    requires Step(st, lines[|lines| - 1], q).Ok?
    ensures Matches(lines, q, Step(st, lines[|lines| - 1], q).value.0,
                    units + Step(st, lines[|lines| - 1], q).value.1)
  {
    var prev, line := lines[..|lines| - 1], lines[|lines| - 1];
    NotesExtend(lines, LastConsumed(prev, q), q);
    if IsDateLine(line) {
      StepMatchesDate(lines, q, st, units);
    } else if IsDescription(q.style, line) && !st.notInRange {
      StepMatchesNote(lines, q, st, units);
    } else if IsDuration(q.style, line) && !st.notInRange {
      StepMatchesDuration(lines, q, st, units);
    } else {
      StepMatchesOther(lines, q, st, units);
    }
  }

  lemma StepMatchesDate(lines: seq<string>, q: Query, st: Scanner, units: seq<WorkUnit>)
    requires lines != [] && Matches(lines[..|lines| - 1], q, st, units)
    requires IsDateLine(lines[|lines| - 1]) && Step(st, lines[|lines| - 1], q).Ok?
    ensures Matches(lines, q, Step(st, lines[|lines| - 1], q).value.0,
                    units + Step(st, lines[|lines| - 1], q).value.1)
  {
    var prev, line := lines[..|lines| - 1], lines[|lines| - 1];
    NotesExtend(lines, LastConsumed(prev, q), q);
    assert units + [] == units;
  }

  lemma StepMatchesNote(lines: seq<string>, q: Query, st: Scanner, units: seq<WorkUnit>)
    requires lines != [] && Matches(lines[..|lines| - 1], q, st, units)
    requires !IsDateLine(lines[|lines| - 1]) && IsDescription(q.style, lines[|lines| - 1]) && !st.notInRange
    ensures Matches(lines, q, Step(st, lines[|lines| - 1], q).value.0,
                    units + Step(st, lines[|lines| - 1], q).value.1)
  {
    var prev, line := lines[..|lines| - 1], lines[|lines| - 1];
    NotesExtend(lines, LastConsumed(prev, q), q);
    assert st.description + " " + Strip(line) == st.description + (" " + Strip(line));
    assert units + [] == units;
  }

  lemma StepMatchesDuration(lines: seq<string>, q: Query, st: Scanner, units: seq<WorkUnit>)
    requires lines != [] && Matches(lines[..|lines| - 1], q, st, units)
    requires !IsDateLine(lines[|lines| - 1]) && !(IsDescription(q.style, lines[|lines| - 1]) && !st.notInRange)
    requires IsDuration(q.style, lines[|lines| - 1]) && !st.notInRange
    requires Step(st, lines[|lines| - 1], q).Ok?
    ensures Matches(lines, q, Step(st, lines[|lines| - 1], q).value.0,
                    units + Step(st, lines[|lines| - 1], q).value.1)
  {
    var prev := lines[..|lines| - 1];
    assert IsConsumed(prev, lines[|lines| - 1], q);
    assert Notes(lines, |lines|, q) == "";
  }

  lemma StepMatchesOther(lines: seq<string>, q: Query, st: Scanner, units: seq<WorkUnit>)
    requires lines != [] && Matches(lines[..|lines| - 1], q, st, units)
    requires !IsDateLine(lines[|lines| - 1]) && !(IsDescription(q.style, lines[|lines| - 1]) && !st.notInRange)
    requires !(IsDuration(q.style, lines[|lines| - 1]) && !st.notInRange)
    ensures Matches(lines, q, Step(st, lines[|lines| - 1], q).value.0,
                    units + Step(st, lines[|lines| - 1], q).value.1)
  {
    var prev, line := lines[..|lines| - 1], lines[|lines| - 1];
    NotesExtend(lines, LastConsumed(prev, q), q);
    assert !IsConsumed(prev, line, q) && !IsNote(prev, line, q);
    assert units + [] == units;
  }

  lemma NotesExtend(p: seq<string>, from: nat, q: Query)
    requires p != [] && from <= |p| - 1
    ensures Notes(p, from, q) == Notes(p[..|p| - 1], from, q) +
      (if IsNote(p[..|p| - 1], p[|p| - 1], q) then " " + Strip(p[|p| - 1]) else "")
  {
  }

  /** Whether the line after p can be taken by the scan: a date line must
      parse, and a consumed duration must be an integer under a date. */
  predicate LineOk(p: seq<string>, line: string, q: Query) {
    && (IsDateLine(line) ==> ParseDate(Strip(line)).Some?)
    && (IsConsumed(p, line, q) ==> PyInt(Strip(line)).Some? && GoverningDate(p).Some?)
  }

  /** Every line can be taken after the lines before it. */
  predicate AllLinesOk(lines: seq<string>, q: Query) {
    forall i :: 0 <= i < |lines| ==> LineOk(lines[..i], lines[i], q)
  }

  lemma AllLinesOkExtend(lines: seq<string>, q: Query)
    requires lines != []
    ensures AllLinesOk(lines, q) <==>
      AllLinesOk(lines[..|lines| - 1], q) && LineOk(lines[..|lines| - 1], lines[|lines| - 1], q)
  {
    if AllLinesOk(lines, q) {
      AllLinesOkPrefix(lines, q);
    }
    if AllLinesOk(lines[..|lines| - 1], q) && LineOk(lines[..|lines| - 1], lines[|lines| - 1], q) {
      AllLinesOkSnoc(lines, q);
    }
  }

  lemma AllLinesOkPrefix(lines: seq<string>, q: Query)
    requires lines != [] && AllLinesOk(lines, q)
    ensures AllLinesOk(lines[..|lines| - 1], q)
  {
    var prev := lines[..|lines| - 1];
    forall i | 0 <= i < |prev|
      ensures LineOk(prev[..i], prev[i], q)
    {
      assert prev[..i] == lines[..i];
    }
  }

  lemma AllLinesOkSnoc(lines: seq<string>, q: Query)
    requires lines != [] && AllLinesOk(lines[..|lines| - 1], q)
    requires LineOk(lines[..|lines| - 1], lines[|lines| - 1], q)
    ensures AllLinesOk(lines, q)
  {
    var prev := lines[..|lines| - 1];
    forall i | 0 <= i < |lines|
      ensures LineOk(lines[..i], lines[i], q)
    {
      if i < |prev| {
        assert prev[..i] == lines[..i];
        assert LineOk(prev[..i], prev[i], q);
      }
    }
  }

  /** After a successful scan of p, one more line succeeds exactly when it
      can be taken. */
  lemma StepSucceeds(p: seq<string>, line: string, q: Query)
    requires Scan(p, q).Ok?
    ensures Step(Scan(p, q).value.0, line, q).Ok? <==> LineOk(p, line, q)
  {
    ScanMatchesReference(p, q);
  }

  /** The scan succeeds exactly when every line can be taken. */
  lemma {:induction false} ScanSucceeds(lines: seq<string>, q: Query)
    ensures Scan(lines, q).Ok? <==> AllLinesOk(lines, q)
    decreases |lines|
  {
    if lines != [] {
      var n := |lines| - 1;
      var prev := lines[..n];
      ScanSucceeds(prev, q);
      AllLinesOkExtend(lines, q);
      if Scan(prev, q).Ok? {
        StepSucceeds(prev, lines[n], q);
      }
    }
  }

  /** Every unit the scan yields lies inside the queried range and belongs
      to the queried client, so the client filter never drops a unit. */
  lemma {:induction false} ExpectedInRange(p: seq<string>, q: Query)
    ensures forall u :: u in Expected(p, q) ==> q.start <= u.date <= q.end && u.client == q.client
    decreases |p|
  {
    if p != [] {
      ExpectedInRange(p[..|p| - 1], q);
    }
  }

  /** A date line leaves the gathered description as it was. */
  lemma DateLineKeepsDescription(p: seq<string>, line: string, q: Query)
    requires IsDateLine(line) && Scan(p + [line], q).Ok?
    ensures Scan(p, q).Ok? && Scan(p + [line], q).value.0.description == Scan(p, q).value.0.description
  {
    assert (p + [line])[..|p|] == p;
  }

  /** A consumed duration yields exactly one unit and clears the description. */
  lemma DurationYieldsOne(p: seq<string>, line: string, q: Query)
    requires IsConsumed(p, line, q) && Scan(p + [line], q).Ok?
    ensures Scan(p, q).Ok?
    ensures |Scan(p + [line], q).value.1| == |Scan(p, q).value.1| + 1
    ensures Scan(p + [line], q).value.0.description == ""
  {
    assert (p + [line])[..|p|] == p;
    ScanMatchesReference(p, q);
  }

  /** Lines i, i + 1 and i + 2 form an entry: a date line strptime reads as
      d, a description line, and a duration line int() reads as minutes. */
  predicate EntryAt(lines: seq<string>, i: nat, q: Query, d: Date, minutes: int) {
    && i + 3 <= |lines|
    && IsDateLine(lines[i]) && ParseDate(Strip(lines[i])) == Some(d)
    && !IsDateLine(lines[i + 1]) && IsDescription(q.style, lines[i + 1])
    && !IsDateLine(lines[i + 2]) && !IsDescription(q.style, lines[i + 2]) && IsDuration(q.style, lines[i + 2])
    && PyInt(Strip(lines[i + 2])) == Some(minutes)
  }

  /** An entry as it is written: a date line, a description line and a
      duration line, starting at line i. Under an in-range date the entry
      yields one unit, dated by its date line and carrying the description
      gathered so far plus its own, and clears the description. */
  lemma ScanEntryCounted(lines: seq<string>, i: nat, q: Query, st: Scanner, units: seq<WorkUnit>, d: Date, minutes: int)
    requires EntryAt(lines, i, q, d, minutes) && q.start <= d <= q.end
    requires Scan(lines[..i], q) == Ok((st, units))
    ensures Scan(lines[..i + 3], q) ==
      Ok((Scanner(Some(d), false, ""), units + [WorkUnit(d, q.client, minutes, st.description + " " + Strip(lines[i + 1]))]))
  {
    ScanDate(lines, i, q, st, units, d);
    var dated := Scanner(Some(d), false, st.description);
    ScanNote(lines, i + 1, q, dated, units);
    ScanDuration(lines, i + 2, q, dated.(description := st.description + " " + Strip(lines[i + 1])), units, minutes, d);
  }

  /** Under an out-of-range date the entry yields nothing and leaves the
      description as it was. */
  lemma ScanEntrySkipped(lines: seq<string>, i: nat, q: Query, st: Scanner, units: seq<WorkUnit>, d: Date)
    requires i + 3 <= |lines| && Scan(lines[..i], q) == Ok((st, units))
    requires IsDateLine(lines[i]) && ParseDate(Strip(lines[i])) == Some(d) && !(q.start <= d <= q.end)
    requires !IsDateLine(lines[i + 1]) && !IsDateLine(lines[i + 2])
    ensures Scan(lines[..i + 3], q) == Ok((Scanner(Some(d), true, st.description), units))
  {
    ScanDate(lines, i, q, st, units, d);
    var dated := Scanner(Some(d), true, st.description);
    ScanOther(lines, i + 1, q, dated, units);
    ScanOther(lines, i + 2, q, dated, units);
  }

  /** A tab-indented description line: `\t`, a description text and an optional
      newline. */
  lemma TabNoteLine(task: string, noteEnd: string, note: string)
    requires task != [] && task[0] != '\t' && !IsSpace(task[0]) && !IsSpace(task[|task| - 1])
    requires (noteEnd == "" || noteEnd == "\n") && note == "\t" + task + noteEnd
    ensures !IsDateLine(note) && IsDescription(Tabs, note) && Strip(note) == task
  {
    assert note[0] == '\t' && note[1] == task[0];
    StripFramed("\t", task, noteEnd);
  }

  /** A tab-indented duration line: `\t\t`, the minutes and an optional
      newline. */
  lemma TabDurationLine(minutes: nat, durationEnd: string, duration: string)
    requires (durationEnd == "" || durationEnd == "\n")
    requires duration == "\t\t" + IntToString(minutes) + durationEnd
    ensures !IsDateLine(duration) && !IsDescription(Tabs, duration) && IsDuration(Tabs, duration)
    ensures PyInt(Strip(duration)) == Some(minutes)
  {
    var digits := IntToString(minutes);
    assert duration[0] == '\t' && duration[1] == '\t' && duration[2] == digits[0];
    assert !IsSpace(digits[0]) && !IsSpace(digits[|digits| - 1]);
    StripFramed("\t\t", digits, durationEnd);
    IntToStringRoundTrip(minutes);
    StripTrimmed(digits);
  }

  /** The scan of all the lines is the scan of the prefix as long as they
      are; the scan of the empty prefix finds nothing. */
  lemma ScanWhole(lines: seq<string>, all: nat, q: Query)
    requires all == |lines|
    ensures Scan(lines[..all], q) == Scan(lines, q)
  {
    assert lines[..all] == lines;
  }

  lemma ScanNone(lines: seq<string>, none: nat, q: Query)
    requires none == 0
    ensures Scan(lines[..none], q) == Ok((Initial, []))
  {
  }

  /** A log holding one in-range entry yields exactly its one unit. */
  lemma SingleEntry(lines: seq<string>, first: nat, q: Query, d: Date, minutes: int)
    requires first == 0 && |lines| == first + 3
    requires EntryAt(lines, first, q, d, minutes) && q.start <= d <= q.end
    ensures ScanUnits(lines, q) == Ok([WorkUnit(d, q.client, minutes, " " + Strip(lines[first + 1]))])
  {
    SingleEntryScan(lines, first, q, d, minutes);
    OneUnit(lines, q, Scanner(Some(d), false, ""), d, minutes, Strip(lines[first + 1]));
  }

  lemma SingleEntryScan(lines: seq<string>, first: nat, q: Query, d: Date, minutes: int)
    requires first == 0 && |lines| == first + 3
    requires EntryAt(lines, first, q, d, minutes) && q.start <= d <= q.end
    ensures Scan(lines, q) ==
      Ok((Scanner(Some(d), false, ""), [] + [WorkUnit(d, q.client, minutes, Initial.description + " " + Strip(lines[first + 1]))]))
  {
    ScanNone(lines, first, q);
    ScanWhole(lines, first + 3, q);
    ScanEntryCounted(lines, first, q, Initial, [], d, minutes);
  }

  /** Normal form of the units of a scan whose first unit was appended to an
      empty list and whose description was started from the empty one. */
  lemma OneUnit(lines: seq<string>, q: Query, st: Scanner, d: Date, minutes: int, note: string)
    requires Scan(lines, q) == Ok((st, [] + [WorkUnit(d, q.client, minutes, Initial.description + " " + note)]))
    ensures ScanUnits(lines, q) == Ok([WorkUnit(d, q.client, minutes, " " + note)])
  {
    EmptyDescription(" ");
    var u := WorkUnit(d, q.client, minutes, " " + note);
    assert [] + [u] == [u];
  }

  lemma EmptyDescription(note: string)
    ensures Initial.description + note == note
  {
  }

  /** The same for two units. */
  lemma TwoUnits(lines: seq<string>, q: Query, st: Scanner, d1: Date, m1: int, note1: string, d2: Date, m2: int, note2: string)
    requires Scan(lines, q) == Ok((st, [] + [WorkUnit(d1, q.client, m1, Initial.description + " " + note1)]
                                          + [WorkUnit(d2, q.client, m2, "" + " " + note2)]))
    ensures ScanUnits(lines, q) == Ok([WorkUnit(d1, q.client, m1, " " + note1), WorkUnit(d2, q.client, m2, " " + note2)])
  {
    EmptyDescription(" ");
    assert "" + " " == " ";
    var u1 := WorkUnit(d1, q.client, m1, " " + note1);
    var u2 := WorkUnit(d2, q.client, m2, " " + note2);
    assert [] + [u1] + [u2] == [u1, u2];
  }

  /** Four entries, the first and the last under dates outside the range and
      the middle two inside it: only the middle two yield units, each with
      only its own description. */
  lemma FourEntries(lines: seq<string>, first: nat, q: Query, d: seq<Date>, m: seq<int>)
    requires first == 0 && |lines| == first + 12 && |d| == 4 && |m| == 4
    requires EntryAt(lines, first, q, d[0], m[0]) && EntryAt(lines, first + 3, q, d[1], m[1])
    requires EntryAt(lines, first + 6, q, d[2], m[2]) && EntryAt(lines, first + 9, q, d[3], m[3])
    requires !(q.start <= d[0] <= q.end) && q.start <= d[1] <= q.end
    requires q.start <= d[2] <= q.end && !(q.start <= d[3] <= q.end)
    ensures ScanUnits(lines, q) == Ok([
      WorkUnit(d[1], q.client, m[1], " " + Strip(lines[first + 4])),
      WorkUnit(d[2], q.client, m[2], " " + Strip(lines[first + 7]))])
  {
    FourEntriesScan(lines, first, q, d, m);
    TwoUnits(lines, q, Scanner(Some(d[3]), true, ""),
      d[1], m[1], Strip(lines[first + 4]), d[2], m[2], Strip(lines[first + 7]));
  }

  lemma FourEntriesScan(lines: seq<string>, first: nat, q: Query, d: seq<Date>, m: seq<int>)
    requires first == 0 && |lines| == first + 12 && |d| == 4 && |m| == 4
    requires EntryAt(lines, first, q, d[0], m[0]) && EntryAt(lines, first + 3, q, d[1], m[1])
    requires EntryAt(lines, first + 6, q, d[2], m[2]) && EntryAt(lines, first + 9, q, d[3], m[3])
    requires !(q.start <= d[0] <= q.end) && q.start <= d[1] <= q.end
    requires q.start <= d[2] <= q.end && !(q.start <= d[3] <= q.end)
    ensures Scan(lines, q) == Ok((Scanner(Some(d[3]), true, ""),
      [] + [WorkUnit(d[1], q.client, m[1], Initial.description + " " + Strip(lines[first + 4]))]
         + [WorkUnit(d[2], q.client, m[2], "" + " " + Strip(lines[first + 7]))]))
  {
    var u1 := WorkUnit(d[1], q.client, m[1], Initial.description + " " + Strip(lines[first + 4]));
    var u2 := WorkUnit(d[2], q.client, m[2], "" + " " + Strip(lines[first + 7]));
    ScanNone(lines, first, q);
    ScanEntrySkipped(lines, first, q, Initial, [], d[0]);
    ScanEntryCounted(lines, first + 3, q, Scanner(Some(d[0]), true, ""), [], d[1], m[1]);
    ScanEntryCounted(lines, first + 6, q, Scanner(Some(d[1]), false, ""), [] + [u1], d[2], m[2]);
    ScanEntrySkipped(lines, first + 9, q, Scanner(Some(d[2]), false, ""), [] + [u1] + [u2], d[3]);
    ScanWhole(lines, first + 12, q);
  }

  /** The date lines of the examples. */
  lemma March2025Line(line: string, day: nat)
    requires || (day == 1 && line == "2025-03-01\n") || (day == 5 && line == "2025-03-05\n")
             || (day == 10 && line == "2025-03-10\n") || (day == 15 && line == "2025-03-15\n")
    ensures IsDateLine(line) && ParseDate(Strip(line)) == Some(FromYmd(2025, 3, day))
  {
    assert IsDateLine(line);
    assert LineYear(line) == 2025 && LineMonth(line) == 3 && LineDay(line) == day;
    DateLineParses(line);
  }

  /** The description lines of the examples. */
  lemma TaskLine(line: string, task: string)
    requires || (line == "\tTask 1\n" && task == "Task 1") || (line == "\tTask 2\n" && task == "Task 2")
             || (line == "\tTask 3\n" && task == "Task 3") || (line == "\tTask 4\n" && task == "Task 4")
    ensures !IsDateLine(line) && IsDescription(Tabs, line) && Strip(line) == task
  {
    assert line == "\t" + task + "\n";
    TabNoteLine(task, "\n", line);
  }

  /** The duration lines of the examples. */
  lemma MinutesLine(line: string, minutes: nat)
    requires || (line == "\t\t5" && minutes == 5) || (line == "\t\t5\n" && minutes == 5)
             || (line == "\t\t10\n" && minutes == 10) || (line == "\t\t20\n" && minutes == 20)
             || (line == "\t\t30" && minutes == 30)
    ensures !IsDateLine(line) && !IsDescription(Tabs, line) && IsDuration(Tabs, line)
    ensures PyInt(Strip(line)) == Some(minutes)
  {
    var end := if line[|line| - 1] == '\n' then "\n" else "";
    assert IntToString(minutes) == if minutes == 5 then "5" else if minutes == 10 then "10" else if minutes == 20 then "20" else "30";
    assert line == "\t\t" + IntToString(minutes) + end;
    TabDurationLine(minutes, end, line);
  }

  /** The spaced descriptions of the examples. */
  lemma SpacedTask(task: string, spaced: string)
    requires || (task == "Task 1" && spaced == " Task 1") || (task == "Task 2" && spaced == " Task 2")
             || (task == "Task 3" && spaced == " Task 3")
    ensures " " + task == spaced
  {
  }

  /** The one-entry log `2025-03-01`, `\tTask 1`, `\t\t5` read from 2025-03-01
      on yields exactly one unit, dated 2025-03-01. */
  lemma OneEntryExample(lines: seq<string>, q: Query)
    requires |lines| == 3 && lines[0] == "2025-03-01\n" && lines[1] == "\tTask 1\n" && lines[2] == "\t\t5"
    requires q.style == Tabs && q.start == FromYmd(2025, 3, 1) <= q.end
    ensures ScanUnits(lines, q) == Ok([WorkUnit(FromYmd(2025, 3, 1), q.client, 5, " Task 1")])
  {
    March2025Line(lines[0], 1);
    TaskLine(lines[1], "Task 1");
    MinutesLine(lines[2], 5);
    SingleEntry(lines, 0, q, FromYmd(2025, 3, 1), 5);
    SpacedTask(Strip(lines[1]), " Task 1");
  }

  /** The four-entry log dated 2025-03-01, 2025-03-05, 2025-03-10 and
      2025-03-15, read from 2025-03-02 to 2025-03-14: the first and the last
      entries fall outside the range, and the two units are those of the
      middle entries, in order. */
  lemma FourDaysExample(lines: seq<string>, q: Query)
    requires |lines| == 12
    requires lines[0] == "2025-03-01\n" && lines[1] == "\tTask 1\n" && lines[2] == "\t\t5\n"
    requires lines[3] == "2025-03-05\n" && lines[4] == "\tTask 2\n" && lines[5] == "\t\t10\n"
    requires lines[6] == "2025-03-10\n" && lines[7] == "\tTask 3\n" && lines[8] == "\t\t20\n"
    requires lines[9] == "2025-03-15\n" && lines[10] == "\tTask 4\n" && lines[11] == "\t\t30"
    requires q.style == Tabs && q.start == FromYmd(2025, 3, 2) && q.end == FromYmd(2025, 3, 14)
    ensures ScanUnits(lines, q) == Ok([
      WorkUnit(FromYmd(2025, 3, 5), q.client, 10, " Task 2"),
      WorkUnit(FromYmd(2025, 3, 10), q.client, 20, " Task 3")])
  {
    var d := [FromYmd(2025, 3, 1), FromYmd(2025, 3, 5), FromYmd(2025, 3, 10), FromYmd(2025, 3, 15)];
    var m := [5, 10, 20, 30];
    ExampleEntry(lines, 0, q, 1, "Task 1", 5);
    ExampleEntry(lines, 3, q, 5, "Task 2", 10);
    ExampleEntry(lines, 6, q, 10, "Task 3", 20);
    ExampleEntry(lines, 9, q, 15, "Task 4", 30);
    FourEntries(lines, 0, q, d, m);
    SpacedTask("Task 2", " Task 2");
    SpacedTask("Task 3", " Task 3");
  }

  /** One entry of the example logs: a date line of March 2025, a task line
      and a duration line. */
  lemma ExampleEntry(lines: seq<string>, i: nat, q: Query, day: nat, task: string, minutes: nat)
    requires i + 3 <= |lines| && q.style == Tabs
    requires || (day == 1 && lines[i] == "2025-03-01\n") || (day == 5 && lines[i] == "2025-03-05\n")
             || (day == 10 && lines[i] == "2025-03-10\n") || (day == 15 && lines[i] == "2025-03-15\n")
    requires || (lines[i + 1] == "\tTask 1\n" && task == "Task 1") || (lines[i + 1] == "\tTask 2\n" && task == "Task 2")
             || (lines[i + 1] == "\tTask 3\n" && task == "Task 3") || (lines[i + 1] == "\tTask 4\n" && task == "Task 4")
    requires || (lines[i + 2] == "\t\t5" && minutes == 5) || (lines[i + 2] == "\t\t5\n" && minutes == 5)
             || (lines[i + 2] == "\t\t10\n" && minutes == 10) || (lines[i + 2] == "\t\t20\n" && minutes == 20)
             || (lines[i + 2] == "\t\t30" && minutes == 30)
    ensures 1 <= day <= 31 && EntryAt(lines, i, q, FromYmd(2025, 3, day), minutes) && Strip(lines[i + 1]) == task
  {
    March2025Line(lines[i], day);
    TaskLine(lines[i + 1], task);
    MinutesLine(lines[i + 2], minutes);
  }

  /** An empty log yields no units. */
  lemma EmptyLog(q: Query)
    ensures ScanUnits([], q) == Ok([])
  {
  }
}
