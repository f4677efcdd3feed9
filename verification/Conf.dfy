/** The line classifier of the work log: the date pattern, and the description
    and duration patterns for tab-indented logs or for logs indented with a
    configured number of spaces. Every pattern is anchored at the start of the
    line (re.match); the date pattern also at its end, where Python's `$`
    admits one final newline. */
module Conf {
  import opened Text
  import opened Dates

  /** How entries are indented: with tabs, or with `width` spaces per level. */
  datatype Style = Tabs | Spaces(width: int)

  /** The choice made when the command line starts: a configured number of
      spaces selects the space patterns, none (or 0) the tab patterns. */
  function StyleFor(spaces: int): (s: Style)
    ensures s.Tabs? <==> spaces == 0
    ensures s.Spaces? ==> s.width == spaces
  {
    if spaces != 0 then Spaces(spaces) else Tabs
  }

  predicate IsMonthPair(a: char, b: char) {
    (a == '0' && '1' <= b <= '9') || (a == '1' && '0' <= b <= '2')
  }

  predicate IsDayPair(a: char, b: char) {
    || (a == '0' && '1' <= b <= '9')
    || ((a == '1' || a == '2') && IsDigit(b))
    || (a == '3' && (b == '0' || b == '1'))
  }

  /** date_pattern: `20`, `2` or `3`, a digit, `-`, a month 01..12, `-`, a
      day 01..31, then the end of the line or a final newline. */
  predicate IsDateLine(line: string) {
    && (|line| == 10 || (|line| == 11 && line[10] == '\n'))
    && line[0] == '2' && line[1] == '0' && (line[2] == '2' || line[2] == '3')
    && IsDigit(line[3]) && line[4] == '-'
    && IsMonthPair(line[5], line[6]) && line[7] == '-'
    && IsDayPair(line[8], line[9])
  }

  /** The description pattern of a style: one level of indentation followed
      by a character that is not itself indentation. */
  predicate IsDescription(style: Style, line: string) {
    match style
    case Tabs => |line| >= 2 && line[0] == '\t' && line[1] != '\t'
    case Spaces(n) =>
      var indent := Repeat(' ', n);
      |line| > |indent| && line[..|indent|] == indent && line[|indent|] != ' '
  }

  /** The duration pattern of a style: two levels of indentation followed by
      a digit. */
  predicate IsDuration(style: Style, line: string) {
    match style
    case Tabs => |line| >= 3 && line[0] == '\t' && line[1] == '\t' && IsDigit(line[2])
    case Spaces(n) =>
      var indent := Repeat(' ', n * 2);
      |line| > |indent| && line[..|indent|] == indent && IsDigit(line[|indent|])
  }

  /** A year as four decimal digits. */
  function YearText(y: nat): (s: string)
    requires y < 10000
    ensures |s| == 4 && AllDigits(s) && DigitsValue(s) == y
  {
    var s := [DigitChar(y / 1000), DigitChar(y / 100 % 10), DigitChar(y / 10 % 10), DigitChar(y % 10)];
    FourDigits(s);
    YearDigits(y);
    s
  }

  lemma YearDigits(y: nat)
    requires y < 10000
    ensures 1000 * (y / 1000) + 100 * (y / 100 % 10) + 10 * (y / 10 % 10) + y % 10 == y
  {
    assert y / 100 == 10 * (y / 1000) + y / 100 % 10;
    assert y / 10 == 10 * (y / 100) + y / 10 % 10;
  }

  /** The canonical text of a date: four-digit year, two-digit month and day. */
  function DateText(y: nat, m: nat, d: nat): (t: string)
    requires y < 10000 && m < 100 && d < 100
    ensures |t| == 10 && t[4] == '-' && t[7] == '-'
    ensures AllDigits(t[..4]) && DigitsValue(t[..4]) == y
  {
    var year := YearText(y);
    var t := year + ("-" + TwoDigits(m) + "-" + TwoDigits(d));
    assert t[..4] == year;
    t
  }

  /** The year, month and day a date line names. */
  function LineYear(line: string): nat
    requires IsDateLine(line)
  {
    2000 + 10 * DigitValue(line[2]) + DigitValue(line[3])
  }

  function LineMonth(line: string): nat
    requires IsDateLine(line)
  {
    10 * DigitValue(line[5]) + DigitValue(line[6])
  }

  function LineDay(line: string): nat
    requires IsDateLine(line)
  {
    10 * DigitValue(line[8]) + DigitValue(line[9])
  }

  lemma DateLineFields(line: string)
    requires IsDateLine(line)
    ensures 2020 <= LineYear(line) <= 2039 && 1 <= LineMonth(line) <= 12 && 1 <= LineDay(line) <= 31
    ensures line[..10] == DateText(LineYear(line), LineMonth(line), LineDay(line))
  {
    var y, m, d := LineYear(line), LineMonth(line), LineDay(line);
    var t := DateText(y, m, d);
    DateTextChars(y, m, d);
    YearSplit(DigitValue(line[2]), DigitValue(line[3]));
    PairSplit(DigitValue(line[5]), DigitValue(line[6]));
    PairSplit(DigitValue(line[8]), DigitValue(line[9]));
    CharOfDigit(line[2]);
    CharOfDigit(line[3]);
    CharOfDigit(line[5]);
    CharOfDigit(line[6]);
    CharOfDigit(line[8]);
    CharOfDigit(line[9]);
    SameTen(line[..10], t);
  }

  /** The ten characters of a date text. */
  lemma DateTextChars(y: nat, m: nat, d: nat)
    requires y < 10000 && m < 100 && d < 100
    ensures var t := DateText(y, m, d);
      && t[0] == DigitChar(y / 1000) && t[1] == DigitChar(y / 100 % 10)
      && t[2] == DigitChar(y / 10 % 10) && t[3] == DigitChar(y % 10) && t[4] == '-'
      && t[5] == DigitChar(m / 10) && t[6] == DigitChar(m % 10) && t[7] == '-'
      && t[8] == DigitChar(d / 10) && t[9] == DigitChar(d % 10)
  {
    var t := DateText(y, m, d);
    var rest := "-" + TwoDigits(m) + "-" + TwoDigits(d);
    assert t == YearText(y) + rest;
    assert t[5] == rest[1] && t[6] == rest[2] && t[8] == rest[4] && t[9] == rest[5];
  }

  lemma YearSplit(a: nat, b: nat)
    requires a < 10 && b < 10
    ensures var y := 2000 + 10 * a + b;
      y / 1000 == 2 && y / 100 % 10 == 0 && y / 10 % 10 == a && y % 10 == b
  {
  }

  lemma PairSplit(a: nat, b: nat)
    requires a < 10 && b < 10
    ensures (10 * a + b) / 10 == a && (10 * a + b) % 10 == b
  {
  }

  lemma CharOfDigit(c: char)
    requires IsDigit(c)
    ensures DigitChar(DigitValue(c)) == c
  {
  }

  lemma SameTen(a: string, b: string)
    requires |a| == 10 && |b| == 10
    requires a[0] == b[0] && a[1] == b[1] && a[2] == b[2] && a[3] == b[3] && a[4] == b[4]
    requires a[5] == b[5] && a[6] == b[6] && a[7] == b[7] && a[8] == b[8] && a[9] == b[9]
    ensures a == b
  {
  }

  lemma DateTextIsDateLine(y: nat, m: nat, d: nat)
    requires 2020 <= y <= 2039 && 1 <= m <= 12 && 1 <= d <= 31
    ensures IsDateLine(DateText(y, m, d)) && IsDateLine(DateText(y, m, d) + "\n")
  {
    var t := DateText(y, m, d);
    DateTextChars(y, m, d);
    YearChars(y);
    MonthChars(m);
    DayChars(d);
    WithNewline(t);
  }

  lemma YearChars(y: nat)
    requires 2020 <= y <= 2039
    ensures DigitChar(y / 1000) == '2' && DigitChar(y / 100 % 10) == '0'
    ensures DigitChar(y / 10 % 10) == '2' || DigitChar(y / 10 % 10) == '3'
  {
  }

  lemma MonthChars(m: nat)
    requires 1 <= m <= 12
    ensures IsMonthPair(DigitChar(m / 10), DigitChar(m % 10))
  {
  }

  lemma DayChars(d: nat)
    requires 1 <= d <= 31
    ensures IsDayPair(DigitChar(d / 10), DigitChar(d % 10))
  {
  }

  lemma WithNewline(t: string)
    requires |t| == 10 && IsDateLine(t)
    ensures IsDateLine(t + "\n")
  {
    assert (t + "\n")[..10] == t;
  }

  /** The date pattern accepts exactly the canonical texts of the years
      2020-2039, months 1-12 and days 1-31, each optionally followed by one
      newline; the day does not depend on the month. */
  lemma DateLineExactly(line: string)
    ensures IsDateLine(line) <==>
      exists y: nat, m: nat, d: nat ::
        && 2020 <= y <= 2039 && 1 <= m <= 12 && 1 <= d <= 31
        && (line == DateText(y, m, d) || line == DateText(y, m, d) + "\n")
  {
    if IsDateLine(line) {
      DateLineFields(line);
      var y, m, d := LineYear(line), LineMonth(line), LineDay(line);
      if |line| == 10 {
        assert line == line[..10];
      } else {
        assert line == line[..10] + "\n";
      }
    }
    if exists y: nat, m: nat, d: nat ::
        && 2020 <= y <= 2039 && 1 <= m <= 12 && 1 <= d <= 31
        && (line == DateText(y, m, d) || line == DateText(y, m, d) + "\n")
    {
      var y: nat, m: nat, d: nat :|
        && 2020 <= y <= 2039 && 1 <= m <= 12 && 1 <= d <= 31
        && (line == DateText(y, m, d) || line == DateText(y, m, d) + "\n");
      DateTextIsDateLine(y, m, d);
    }
  }

  lemma DateLineExamples()
    ensures IsDateLine("2025-01-01\n")
    ensures !IsDateLine("2025-13-01\n") && !IsDateLine("205-12-01\n")
    ensures !IsDateLine("2025-00-01") && !IsDateLine("2025-1-01") && !IsDateLine("2025-s1-01")
    ensures IsDateLine("2025-02-31")
  {
  }

  /** What strptime("%Y-%m-%d") makes of a line the date pattern accepted: the
      stripped line is the date it names when the day exists in that month,
      and a parse error otherwise. */
  lemma DateLineParses(line: string)
    requires IsDateLine(line)
    ensures ParseDate(Strip(line)).Some? <==> LineDay(line) <= DaysInMonth(LineYear(line), LineMonth(line))
    ensures ParseDate(Strip(line)).Some? ==>
      ParseDate(Strip(line)).value == FromYmd(LineYear(line), LineMonth(line), LineDay(line))
  {
    var text := line[..10];
    StripDateLine(line);
    DateLineFields(line);
    var y, m, d := LineYear(line), LineMonth(line), LineDay(line);
    assert text[5..7] == [line[5], line[6]] && text[8..10] == [line[8], line[9]];
    assert IsMonthText(text[5..7]) && FieldValue(text[5..7]) == m;
    assert IsDayText(text[8..10]) && FieldValue(text[8..10]) == d;
    ParseTenCharacters(text);
  }

  lemma StripDateLine(line: string)
    requires IsDateLine(line)
    ensures Strip(line) == line[..10]
  {
    var post := line[10..];
    assert forall i :: 0 <= i < |post| ==> post[i] == '\n';
    assert IsSpace('\n') && AllSpace(post);
    assert line[..10][0] == '2' && line[..10][9] == line[9] && IsDigit(line[9]);
    assert line == [] + line[..10] + post;
    StripFramed([], line[..10], post);
  }

  /** The canonical text of a calendar date of the years 2020-2039, with or
      without a final newline, is a date line that strptime reads back as
      that date. */
  lemma DateTextReadsBack(y: nat, m: nat, d: nat, nl: string, line: string)
    requires 2020 <= y <= 2039 && IsCalendarDate(y, m, d)
    requires (nl == "" || nl == "\n") && line == DateText(y, m, d) + nl
    ensures IsDateLine(line) && ParseDate(Strip(line)) == Some(FromYmd(y, m, d))
  {
    var t := DateText(y, m, d);
    DateTextIsDateLine(y, m, d);
    if nl == "" {
      assert line == t;
    }
    assert line[..10] == t;
    assert t[2] == DigitChar(y / 10 % 10) && t[3] == DigitChar(y % 10);
    assert t[5] == DigitChar(m / 10) && t[6] == DigitChar(m % 10);
    assert t[8] == DigitChar(d / 10) && t[9] == DigitChar(d % 10);
    assert LineYear(line) == y && LineMonth(line) == m && LineDay(line) == d;
    DateLineParses(line);
  }

  /** February 31st passes the date pattern but not strptime. */
  lemma ImpossibleDayAccepted(line: string)
    requires line == "2025-02-31"
    ensures IsDateLine(line) && ParseDate(Strip(line)).None?
  {
    assert IsDateLine(line);
    assert LineYear(line) == 2025 && LineMonth(line) == 2 && LineDay(line) == 31;
    assert !IsLeap(2025);
    DateLineParses(line);
  }

  /** With tabs, the three patterns never match the same line. */
  lemma TabPatternsDisjoint(line: string)
    ensures !(IsDateLine(line) && IsDescription(Tabs, line))
    ensures !(IsDateLine(line) && IsDuration(Tabs, line))
    ensures !(IsDescription(Tabs, line) && IsDuration(Tabs, line))
  {
  }

  /** With one or more spaces per level, the three patterns never match the
      same line either. */
  lemma SpacePatternsDisjoint(n: int, line: string)
    requires n >= 1
    ensures !(IsDateLine(line) && IsDescription(Spaces(n), line))
    ensures !(IsDateLine(line) && IsDuration(Spaces(n), line))
    ensures !(IsDescription(Spaces(n), line) && IsDuration(Spaces(n), line))
  {
  }

  /** The space patterns read as: a description line is `n` spaces and then
      a character other than a space; a duration line is `2n` spaces and then
      a digit. */
  lemma SpacePatternsShape(n: nat, line: string)
    ensures IsDescription(Spaces(n), line) <==>
      |line| > n && (forall i :: 0 <= i < n ==> line[i] == ' ') && line[n] != ' '
    ensures IsDuration(Spaces(n), line) <==>
      |line| > 2 * n && (forall i :: 0 <= i < 2 * n ==> line[i] == ' ') && IsDigit(line[2 * n])
  {
    var one := Repeat(' ', n);
    var two := Repeat(' ', n * 2);
    if |line| > n && (forall i :: 0 <= i < n ==> line[i] == ' ') {
      assert line[..n] == one;
    }
    if |line| > 2 * n && (forall i :: 0 <= i < 2 * n ==> line[i] == ' ') {
      assert line[..2 * n] == two;
    }
    if IsDescription(Spaces(n), line) {
      forall i | 0 <= i < n ensures line[i] == ' ' {
        assert line[i] == line[..n][i];
      }
    }
    if IsDuration(Spaces(n), line) {
      forall i | 0 <= i < 2 * n ensures line[i] == ' ' {
        assert line[i] == line[..2 * n][i];
      }
    }
  }

  lemma PatternExamples()
    ensures IsDescription(Tabs, "\tTask 1") && !IsDuration(Tabs, "\tTask 1")
    ensures IsDuration(Tabs, "\t\t5") && !IsDescription(Tabs, "\t\t5")
    ensures IsDuration(Tabs, "\t\t5 minutes") && !IsDuration(Tabs, "\t\tfive")
    ensures IsDescription(Spaces(2), "  Task 1") && IsDuration(Spaces(2), "    15")
  {
    assert Repeat(' ', 2) == "  ";
    assert Repeat(' ', 4) == "    ";
  }
}
