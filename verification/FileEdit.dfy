/** The file-backed work repository: it reads the log file, drops the blank
    lines, runs the format check on what is left and then scans the lines as
    the work-unit scanner does; adding a unit is not supported. The file's
    contents arrive as a sequence of lines, each with its line break. */
module FileEdit {
  import opened Text
  import opened Models
  import Logic
  import Conf
  import Dates

  // ---------------------------------------------------------------------
  // get_lines

  /** `line.strip()` is false: the line holds whitespace only. */
  predicate Blank(line: string) {
    Strip(line) == ""
  }

  /** The lines of the file whose stripped text is not empty, unchanged and
      in their order. */
  function NonBlankOf(lines: seq<string>): seq<string>
    decreases |lines|
  {
    if lines == [] then []
    else NonBlankOf(lines[..|lines| - 1]) + (if Blank(lines[|lines| - 1]) then [] else [lines[|lines| - 1]])
  }

  /** get_lines(path): the loop over the lines of the file that passes on
      every line with text. */
  method GetLines(lines: seq<string>) returns (kept: seq<string>)
    ensures kept == NonBlankOf(lines)
    ensures forall x :: x in kept <==> x in lines && !Blank(x)
  {
    kept := [];
    for i := 0 to |lines|
      invariant kept == NonBlankOf(lines[..i])
    {
      assert lines[..i + 1][..i] == lines[..i];
      if Strip(lines[i]) != "" {
        kept := kept + [lines[i]];
      }
    }
    assert lines[..|lines|] == lines;
    NonBlankMember(lines);
  }

  /** A line is kept exactly when it is in the file and not blank. */
  lemma {:induction false} NonBlankMember(lines: seq<string>)
    ensures forall x :: x in NonBlankOf(lines) <==> x in lines && !Blank(x)
    decreases |lines|
  {
    if lines != [] {
      var prev := lines[..|lines| - 1];
      NonBlankMember(prev);
      assert lines == prev + [lines[|lines| - 1]];
    }
  }

  /** What the filter keeps of one line. */
  function KeptOf(line: string): seq<string> {
    if Blank(line) then [] else [line]
  }

  lemma NonBlankSnoc(lines: seq<string>, line: string)
    ensures NonBlankOf(lines + [line]) == NonBlankOf(lines) + KeptOf(line)
  {
    assert (lines + [line])[..|lines|] == lines;
  }

  /** Filtering a file is filtering its two halves and joining the results:
      the kept lines keep their order. */
  lemma {:induction false} NonBlankConcat(a: seq<string>, b: seq<string>)
    ensures NonBlankOf(a + b) == NonBlankOf(a) + NonBlankOf(b)
    decreases |b|
  {
    if b == [] {
      assert a + b == a;
    } else {
      var b0 := b[..|b| - 1];
      var x := b[|b| - 1];
      NonBlankConcat(a, b0);
      SplitLast(b);
      SnocAssoc(a, b0, x);
      NonBlankSnoc(a + b0, x);
      NonBlankSnoc(b0, x);
    }
  }

  lemma SplitLast<T>(s: seq<T>)
    requires s != []
    ensures s == s[..|s| - 1] + [s[|s| - 1]]
  {
  }

  lemma SnocAssoc<T>(a: seq<T>, b: seq<T>, x: T)
    ensures a + (b + [x]) == (a + b) + [x]
  {
  }

  /** A file without blank lines passes through unchanged. */
  lemma {:induction false} NonBlankKeepsAll(lines: seq<string>)
    requires forall i :: 0 <= i < |lines| ==> !Blank(lines[i])
    ensures NonBlankOf(lines) == lines
    decreases |lines|
  {
    if lines != [] {
      var prev := lines[..|lines| - 1];
      assert forall i :: 0 <= i < |prev| ==> prev[i] == lines[i];
      NonBlankKeepsAll(prev);
      SplitLast(lines);
      SnocKept(prev, prev, lines[|lines| - 1]);
    }
  }

  /** Filtering twice is filtering once. */
  lemma NonBlankIdempotent(lines: seq<string>)
    ensures NonBlankOf(NonBlankOf(lines)) == NonBlankOf(lines)
  {
    var kept := NonBlankOf(lines);
    NonBlankMember(lines);
    assert forall i :: 0 <= i < |kept| ==> kept[i] in kept;
    NonBlankKeepsAll(kept);
  }

  /** A blank line anywhere in the file changes nothing. */
  lemma BlankLineDropped(a: seq<string>, line: string, b: seq<string>)
    requires Blank(line)
    ensures NonBlankOf(a + [line] + b) == NonBlankOf(a + b)
  {
    NonBlankConcat(a + [line], b);
    NonBlankSnoc(a, line);
    NonBlankConcat(a, b);
  }

  // ---------------------------------------------------------------------
  // FileEditRepository

  /** What the format check says about the non-blank lines: nothing when it
      passes, the message of the exception it raises otherwise. The check
      itself is not part of this model. */
  type FormatCheck = seq<string> -> Option<string>

  /** get_work_units(params): the format check on the non-blank lines fails
      the whole read before any unit; otherwise the scan runs on those lines
      with the client, the range and the indentation of the query. */
  function FileUnits(lines: seq<string>, q: Logic.Query, check: FormatCheck): Result<seq<WorkUnit>> {
    var kept := NonBlankOf(lines);
    match check(kept)
    case Some(message) => Err(Format(message))
    case None => Logic.ScanUnits(kept, q)
  }

  /** FileEditRepository.get_work_units: read the lines with text, run the
      format check, then the scan loop. */
  method GetWorkUnits(lines: seq<string>, q: Logic.Query, check: FormatCheck) returns (r: Result<seq<WorkUnit>>)
    ensures r == FileUnits(lines, q, check)
    ensures check(NonBlankOf(lines)).Some? ==> r == Err(Format(check(NonBlankOf(lines)).value))
    ensures check(NonBlankOf(lines)).None? ==> r == Logic.ScanUnits(NonBlankOf(lines), q)
  {
    var kept := GetLines(lines);
    var verdict := check(kept);
    if verdict.Some? {
      return Err(Format(verdict.value));
    }
    r := Logic.GetWorkUnits(kept, q);
  }

  /** Every unit read from the file lies in the queried range, inclusive at
      both ends, and carries the queried client. */
  lemma FileUnitsInRange(lines: seq<string>, q: Logic.Query, check: FormatCheck)
    requires FileUnits(lines, q, check).Ok?
    ensures forall u :: u in FileUnits(lines, q, check).value ==>
      q.start <= u.date <= q.end && u.client == q.client
  {
    var kept := NonBlankOf(lines);
    Logic.ScanMatchesReference(kept, q);
    Logic.ExpectedInRange(kept, q);
  }

  /** Blank lines make no difference to what is read, provided the format
      check sees only the non-blank lines. */
  lemma FileUnitsIgnoreBlank(a: seq<string>, line: string, b: seq<string>, q: Logic.Query, check: FormatCheck)
    requires Blank(line)
    ensures FileUnits(a + [line] + b, q, check) == FileUnits(a + b, q, check)
  {
    BlankLineDropped(a, line, b);
  }

  /** An empty data file yields no work units. */
  lemma EmptyFile(q: Logic.Query, check: FormatCheck)
    requires check([]) == None
    ensures FileUnits([], q, check) == Ok([])
  {
    Logic.EmptyLog(q);
  }

  /** The entry `2025-03-01` / `\tTask 1` / `\t\t5`, with blank lines around
      it, yields exactly one unit dated 2025-03-01. */
  lemma OneEntryFile(lines: seq<string>, q: Logic.Query, check: FormatCheck)
    requires lines == ["\n", "2025-03-01\n", "\tTask 1\n", " \n", "\t\t5"]
    requires q.style == Conf.Tabs && q.start == Dates.FromYmd(2025, 3, 1) <= q.end
    requires check(["2025-03-01\n", "\tTask 1\n", "\t\t5"]) == None
    ensures FileUnits(lines, q, check) == Ok([WorkUnit(Dates.FromYmd(2025, 3, 1), q.client, 5, " Task 1")])
  {
    var entry := ["2025-03-01\n", "\tTask 1\n", "\t\t5"];
    BlankNewline(lines[0]);
    BlankNewline(lines[3]);
    NotBlank(lines[1], 0);
    NotBlank(lines[2], 1);
    NotBlank(lines[4], 2);
    BlanksAround(lines, lines[0], lines[1], lines[2], lines[3], lines[4]);
    Logic.OneEntryExample(entry, q);
  }

  /** Five lines, the first and fourth blank: the filter keeps the other three. */
  lemma BlanksAround(lines: seq<string>, b1: string, x: string, y: string, b2: string, z: string)
    requires lines == [b1, x, y, b2, z]
    requires Blank(b1) && Blank(b2) && !Blank(x) && !Blank(y) && !Blank(z)
    ensures NonBlankOf(lines) == [x, y, z]
  {
    var p0: seq<string> := [];
    var p1 := p0 + [b1];
    var p2 := p1 + [x];
    var p3 := p2 + [y];
    var p4 := p3 + [b2];
    var p5 := p4 + [z];
    SnocDropped(p0, [], b1);
    SnocKept(p1, [], x);
    SnocKept(p2, [] + [x], y);
    SnocDropped(p3, [] + [x] + [y], b2);
    SnocKept(p4, [] + [x] + [y], z);
    assert p5 == lines;

  }

  lemma SnocKept(p: seq<string>, r: seq<string>, line: string)
    requires NonBlankOf(p) == r && !Blank(line)
    ensures NonBlankOf(p + [line]) == r + [line]
  {
    NonBlankSnoc(p, line);
  }

  lemma SnocDropped(p: seq<string>, r: seq<string>, line: string)
    requires NonBlankOf(p) == r && Blank(line)
    ensures NonBlankOf(p + [line]) == r
  {
    NonBlankSnoc(p, line);
  }

  lemma BlankNewline(line: string)
    requires line == "\n" || line == " \n"
    ensures Blank(line)
  {
    assert AllSpace(line) by {
      assert forall i :: 0 <= i < |line| ==> IsSpace(line[i]);
    }
    StripSpec(line);
  }

  /** A line with a character that is not whitespace is kept. */
  lemma NotBlank(line: string, k: nat)
    requires k < |line| && !IsSpace(line[k])
    ensures !Blank(line)
  {
    assert !AllSpace(line);
    StripSpec(line);
  }

  // ---------------------------------------------------------------------
  // add_work_unit

  /** FileEditRepository.add_work_unit: always refused, telling the user to
      edit the data file by hand; nothing is written. */
  function AddWorkUnit(unit: WorkUnit, path: string): (r: Result<()>)
    ensures r.Err? && r.error.NotImplemented?
    ensures var m := r.error.message;
      |m| == |path| + 21 && m[..12] == "Go and edit " && m[12..12 + |path|] == path
  {
    Err(NotImplemented("Go and edit " + path + " by hand."))
  }
}
