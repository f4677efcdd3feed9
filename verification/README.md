# trackie work log, modelled in Dafny

trackie keeps a plain-text work log. A date line (`2025-03-01`) opens a day. Indented description lines follow it. Doubly indented duration lines (`\t\t30`) close a work unit of that many minutes. The program reads the log and keeps the units whose date falls in a range. It sums the minutes per day and per ISO week against a quota, with a running carryover. It draws a load bar (`######+`) and formats hours and balances.

This project models that line-oriented pipeline:

- `Text`: Python's `str.strip` over the `isspace` set, `int()` on text and `str()` of an integer.
- `Dates`: proleptic Gregorian ordinals. 0001-01-01 is day 1 and a Monday. The module gives the weekday, the calendar year, the ISO calendar (week dates, section 4.1.4 of ISO 8601:2004) and `strptime("%Y-%m-%d")` as a partial parser.
- `Conf`: the date pattern and the tab and space description and duration patterns, written as predicates.
- `Logic`: the work-unit scanner and a reference definition that it is proved to agree with.
- `FileEdit`: the file-backed repository, its blank-line filter and `add_work_unit`.
- `Utils`: the half-open date range with excluded weekdays, and the inclusive week-number range.
- `Aggregation`: daily and weekly statistics, including gap-filling and the stable sort by week.
- `Output`: the day and week load bars and the formatting of a statistics row.
- `Legacy`: the older scanner and statistics of `stats.py`.
- `Models`: the records `WorkUnit`, `DayStat` and `WeekStat`, and the error results.

The loops of the source are methods. Each method is proved equal to a specification function. The properties are then proved about those functions.

## Model

| member | source | states |
|---|---|---|
| Conf.StyleFor | src/trackie/cli.py:128-135 | a configured number of spaces selects the space patterns of that width; none (0) selects the tab patterns |
| Conf.DateLineExactly | src/trackie/conf.py:10-14 | a line is a date line iff it is `YYYY-MM-DD` with year 2020–2039, month 01–12 and day 01–31, optionally followed by one newline |
| Conf.DateLineFields | src/trackie/conf.py:10-14 | the year, month and day read off a date line lie in those ranges, and the line's first ten characters are exactly their text |
| Conf.DateLineExamples | tests/test_regexes.py:4-25 | `2025-01-01\n` matches; month 13, month 00, a one-digit month, a letter in the month and a three-digit year are rejected |
| Conf.ImpossibleDayAccepted | src/trackie/conf.py:13 | `2025-02-31` is a date line, yet the date parser rejects it |
| Conf.DateLineParses | src/trackie/work/logic.py:54-56 | the stripped date line parses iff its day exists in its month, and it then parses to that calendar date |
| Conf.StripDateLine | src/trackie/work/logic.py:55 | stripping a date line leaves its ten date characters |
| Conf.DateTextReadsBack | src/trackie/work/logic.py:54-56 | every real calendar date of 2020–2039, written as `YYYY-MM-DD` with or without a newline, is a date line that parses back to that date |
| Conf.TabPatternsDisjoint | src/trackie/conf.py:10-17 | no line is more than one of date, tab description and tab duration |
| Conf.SpacePatternsDisjoint | src/trackie/conf.py:19-20 | for N ≥ 1 spaces, no line is more than one of date, description and duration |
| Conf.SpacePatternsShape | src/trackie/conf.py:19-20 | a description is N spaces then a non-space; a duration is 2N spaces then a digit |
| Conf.PatternExamples | src/trackie/conf.py:16-20 | `\tTask 1` is a description and not a duration; `\t\t5` and `\t\t5 minutes` are durations; `\t\tfive` is not; the two-space variants behave alike |
| Text.StripSpec | src/trackie/work/logic.py:31 | the stripped text is empty iff the line is all whitespace; otherwise it is the slice between the leading and trailing whitespace and has no whitespace at either end |
| Text.IntToStringRoundTrip | src/trackie/work/logic.py:63 | `int()` reads back every integer that `str()` writes |
| Dates.Weekday | src/trackie/utils.py:30 | the weekday lies in 0..6 (Monday is 0) |
| Dates.YearOf | src/trackie/work/logic.py:122 | the calendar year of a day is the one whose days contain it |
| Dates.YearOfFromYmd | src/trackie/work/logic.py:124 | the year of the date built from (y, m, d) is y |
| Dates.IsoCalendarSpec | src/trackie/work/logic.py:121 | a day lies between the Monday of week 1 of its ISO year and that of the next ISO year; its week number counts the weeks since that Monday from 1, and lies in 1..53 |
| Dates.IsoWeekRange | src/trackie/work/logic.py:121 | an ISO week number lies in 1..53 |
| Dates.IsoWeekOf | src/trackie/utils.py:56 | a day between the week-1 Mondays of year y and y + 1 has ISO year y and week (d − Monday) / 7 + 1 |
| Dates.ParseDate | src/trackie/work/logic.py:56 | a successful parse reads four leading digits, and the parsed date lies in the year they spell |
| Dates.ParseDateSpec | src/trackie/work/stats.py:36-37 | `strptime(text, "%Y-%m-%d")` gives x iff the whole text is four year digits, a dash, a month field (1–9, 01–12), a dash and a day field (1–9, 01–31, or a space and 1–9) naming an existing date, and x is that date; every other text is rejected |
| Utils.DateRange | src/trackie/utils.py:12-32 | the dates from start (inclusive) to end (exclusive) whose weekday is not excluded, strictly ascending; every such date is present; with no exclusions there are end − start dates; the result is empty when end ≤ start |
| Utils.WorkdaysSpec | src/trackie/utils.py:26-32 | the recursive definition of the range retains exactly the non-excluded dates of the range, in ascending order |
| Utils.IntRange | src/trackie/utils.py:56 | `range(lo, hi)` has hi − lo elements, lo + k at position k |
| Utils.WeekRangeSpec | src/trackie/utils.py:52-56 | a week number is in the range iff it lies between the ISO weeks of start and end inclusive; consecutive elements differ by one; the range is empty iff the week of end comes first |
| Utils.WeekRangeExample | tests/test_utils.py:6-14 | 2025-03-07 is a Friday, 2025-03-17 a Monday, and their week range is [10, 11, 12] |
| Utils.WeekRangeAcrossYears | src/trackie/utils.py:56 | 2024-12-23 (week 52) to 2025-01-06 (week 2) gives an empty range |
| Logic.GetWorkUnits | src/trackie/work/logic.py:35-67 | the scan loop over the lines returns exactly what the line-by-line scan specification gives, including its first error |
| Logic.ScanMatchesReference | src/trackie/work/logic.py:53-67 | after any successful scan, the state is the last date line's date, the range flag of that date and the pending description; the units are one per duration line under an in-range date, in file order, each carrying the governing date, the queried client, its minutes and the descriptions gathered since the previous unit |
| Logic.ScanSucceeds | src/trackie/work/logic.py:54-64 | the scan succeeds iff every date line parses, and every consumed duration line holds an integer and follows some date line |
| Logic.ScanErrorPersists | src/trackie/work/logic.py:53-67 | the first error ends the scan: the lines after it change nothing |
| Logic.ExpectedInRange | src/trackie/work/logic.py:57-67 | every unit read has a date in [start, end], both ends included, and the queried client |
| Logic.DateLineKeepsDescription | src/trackie/work/logic.py:54-58 | a date line leaves the pending description as it was |
| Logic.DurationYieldsOne | src/trackie/work/logic.py:62-67 | a consumed duration line adds exactly one unit and empties the pending description |
| Logic.ScanEntryCounted | src/trackie/work/logic.py:53-67 | a date, description and duration entry under an in-range date adds one unit with that date, those minutes and the description extended by that line |
| Logic.ScanEntrySkipped | src/trackie/work/logic.py:57-62 | an entry under an out-of-range date adds nothing and leaves the description alone |
| Logic.ScanFails | src/trackie/work/logic.py:56-64 | a date that does not parse, a duration that is not an integer, or a duration before any date line ends the scan with that error |
| Logic.TabNoteLine | src/trackie/work/logic.py:59-60 | a tab, a description text and an optional newline form a description line whose stripped text is that text |
| Logic.TabDurationLine | src/trackie/work/logic.py:62-63 | two tabs, the decimal text of a number and an optional newline form a duration line that reads back as that number |
| Logic.OneEntryExample | tests/work/test_file_edit_repository.py:54-69 | the log `2025-03-01` / `\tTask 1` / `\t\t5` read from 2025-03-01 yields exactly one unit, dated 2025-03-01, of 5 minutes |
| Logic.FourDaysExample | tests/work/test_vim_otl_stats.py:43-71 | entries on March 1, 5, 10 and 15 read from March 2 to March 14 yield the units of March 5 and March 10, in that order |
| Logic.EmptyLog | tests/work/test_vim_otl_stats.py:22-25 | an empty log yields no units |
| FileEdit.GetLines | src/trackie/repositories/file_edit.py:15-21 | the kept lines are the non-blank lines of the file, unchanged and in order; a line is kept iff it is in the file and not blank |
| FileEdit.NonBlankConcat | src/trackie/repositories/file_edit.py:15-21 | filtering a file is filtering its two halves and joining the results |
| FileEdit.NonBlankIdempotent | src/trackie/repositories/file_edit.py:15-21 | filtering twice is filtering once |
| FileEdit.BlankLineDropped | src/trackie/repositories/file_edit.py:20 | a blank line anywhere in the file changes nothing |
| FileEdit.GetWorkUnits | src/trackie/repositories/file_edit.py:26-63 | a failed format check on the non-blank lines fails the whole read with its message and yields no unit; otherwise the result is the scan of the non-blank lines |
| FileEdit.FileUnitsInRange | src/trackie/repositories/file_edit.py:46-63 | every unit read from the file has a date in [start, end] and the queried client |
| FileEdit.FileUnitsIgnoreBlank | src/trackie/repositories/file_edit.py:28 | inserting a blank line into the file changes nothing that is read |
| FileEdit.EmptyFile | tests/work/test_file_edit_repository.py:41-51 | an empty data file yields no units |
| FileEdit.OneEntryFile | tests/work/test_file_edit_repository.py:54-69 | the one-entry file, with blank lines around it, yields exactly one unit dated 2025-03-01 |
| FileEdit.AddWorkUnit | src/trackie/repositories/file_edit.py:65-67 | adding a unit always fails with a not-implemented error whose message names the data file |
| Aggregation.FirstSeenSpec | src/trackie/work/logic.py:118-122 | the keys of the buckets are distinct; every unit's key is among them; each came from some unit |
| Aggregation.FirstSeenTotal | src/trackie/work/logic.py:83-85 | the bucket sums over the first-seen keys add up to the minutes of all units |
| Aggregation.BalanceIsSurplus | src/trackie/work/logic.py:92-100 | the running carryover after k buckets is their minutes minus k quotas |
| Aggregation.Tally | src/trackie/work/logic.py:83-85 | the bucket loop yields the keys in first-seen order and, for each key, the sum of the minutes of its units |
| Aggregation.DailyStats | src/trackie/work/logic.py:70-101 | one row per retained date of the range with that date's minutes (0 if none), diff = minutes − quota, and a carryover that starts at the first diff and then adds each diff |
| Aggregation.RowsPerDay | src/trackie/work/logic.py:87-100 | the row loop over the retained dates gives each date its minutes from the buckets (0 when absent), its diff and the running carryover |
| Aggregation.DailyStatsDates | src/trackie/work/logic.py:89-91 | the rows are exactly the non-excluded dates of [start, end), ascending, with no gap for days without work |
| Aggregation.DailyCarryover | src/trackie/work/logic.py:92-100 | each row's carryover is the total surplus of the days up to and including it |
| Aggregation.DayRowsUnique | src/trackie/work/logic.py:87-100 | the rows are determined by the units, the dates and the quota |
| Aggregation.DailyExample | tests/work/test_vim_otl_stats.py:6-19 | one minute of work on 2025-01-10 against a one-minute quota gives a single row with 1 minute and diff 0 |
| Aggregation.WeeklyStats | src/trackie/work/logic.py:104-142 | the rows are the (year, ISO week) buckets in first-seen order followed by the gap weeks, with the carryover computed in that order, then stable-sorted by week |
| Aggregation.FillGaps | src/trackie/work/logic.py:124-128 | each reported week whose number no bucket has is added under the start year with 0 minutes |
| Aggregation.GapsSpec | src/trackie/work/logic.py:124-128 | a gap key is (start year, w) for a reported week w whose number no bucket carries |
| Aggregation.RowsPerWeek | src/trackie/work/logic.py:130-141 | the row loop gives each key its minutes, diff and carryover |
| Aggregation.WeekRowsCarry | src/trackie/work/logic.py:130-141 | before the sort, the first carryover is the first diff and each later one adds its diff to the previous |
| Aggregation.SortByWeekSpec | src/trackie/work/logic.py:142 | the sorted rows ascend by week, are a permutation of the rows, and keep the relative order of rows of the same week (stability) |
| Aggregation.WeeklyCovers | src/trackie/work/logic.py:115-128 | every week number of the reported range has a row, and every unit's (year, week) has a row |
| Aggregation.WeeklyRowsAre | src/trackie/work/logic.py:118-141 | every row is either a bucket of some unit, or a gap week of the start year, in the range, with 0 minutes |
| Aggregation.WeekKeysDistinct | src/trackie/work/logic.py:118-128 | no key appears twice in the weekly rows |
| Aggregation.WeeklyTotal | src/trackie/work/logic.py:118-142 | the minutes over all weekly rows add up to the minutes of all units |
| Output.LoadBar | src/trackie/output.py:25-39 | the bar is made only of `#`, `+` and `-` and never holds both `+` and `-`; the balance is minutes − quota |
| Output.DayBalance | src/trackie/output.py:25-39 | the day bar uses 10-minute marks against the daily quota |
| Output.WeekBalance | src/trackie/output.py:144-158 | the week bar uses 60-minute marks against the weekly quota |
| Output.BarMarks | src/trackie/output.py:28-37 | only `#`, `+` and `-`, never `+` with `-`, and every `#` comes before every other mark |
| Output.BarUnderQuota | src/trackie/output.py:33-37 | under the quota, the bar is quota/step long and its first minutes/step marks are `#` and the rest `-` |
| Output.BarOverQuota | src/trackie/output.py:28-32 | at or over the quota, the bar is quota/step `#` followed by (minutes − quota)/step `+` |
| Output.BarNegativeTotal | src/trackie/output.py:33-37 | negative minutes give a bar with no `#` that is longer than quota/step |
| Output.BarExamples | src/trackie/output.py:25-39 | 75 against 60 gives `######+`, 25 against 60 gives `##----`, 200 against 120 by hours gives `##+` |
| Output.FormatStatUnit | src/trackie/output.py:42-70 | the balance and carryover texts start with `+` iff the value is positive and with `-` iff it is negative |
| Output.ClockRoundTrip | src/trackie/output.py:51-62 | an `H:MM` text, with or without its `+`, reads back as the minutes it shows |
| Output.FormatHours | src/trackie/output.py:49-62 | in hours mode, the elapsed, balance and carryover texts read back as their values, and ` from H:MM` is appended only when not writing CSV |
| Output.FormatMinutes | src/trackie/output.py:63-69 | in minutes mode, elapsed is ` {minutes} from {unit}`, and the balance and carryover texts read back as their values |
| Output.ClockExamples | src/trackie/output.py:51-62 | −30 shows as `-1:30`, +90 as `+1:30`, 5 as `0:05` |
| Legacy.AfterLastColon | src/trackie/work/stats.py:51 | there is a tail iff the line holds a `:`; the tail is what follows the last `:` and holds no `:` |
| Legacy.AfterColonOf | src/trackie/work/stats.py:51 | the tail after `head:tail` is `tail` whenever `tail` has no `:` |
| Legacy.GetWorkUnits | src/trackie/work/stats.py:22-53 | the legacy scan loop returns exactly what the line-by-line legacy scan gives, including its first error |
| Legacy.ReadUnit | src/trackie/work/stats.py:50-53 | a work line under an in-range date gives the unit or the error that the legacy step gives |
| Legacy.StepDate | src/trackie/work/stats.py:35-46 | a line without a leading tab is parsed as a date and recomputes the range flag as start ≤ date ≤ end |
| Legacy.StepClient | src/trackie/work/stats.py:47-49 | a line with exactly one leading tab sets the client to its stripped text and yields nothing |
| Legacy.StepUnit | src/trackie/work/stats.py:50-53 | any other line under an in-range date yields one unit with the integer after its last `:` |
| Legacy.StepSkip | src/trackie/work/stats.py:50 | under an out-of-range date such a line yields nothing |
| Legacy.StepFails | src/trackie/work/stats.py:35-53 | an unparsable date, a missing `:`, a non-integer after it, no date yet or no client yet is an error |
| Legacy.LegacyErrorPersists | src/trackie/work/stats.py:34-53 | the first error ends the legacy scan |
| Legacy.LegacyMatchesReference | src/trackie/work/stats.py:34-53 | after any successful legacy scan, the state is the last date, its range flag and the last client; the units are one per work line under an in-range date, in order |
| Legacy.LegacyExpectedInRange | src/trackie/work/stats.py:38-53 | every legacy unit has a date in [start, end] and an empty description |
| Legacy.LegacyExample | src/trackie/work/stats.py:34-53 | `2025-03-01` / `\tAcme` / `\t\tcoding: 30` yields one unit of 30 minutes for Acme |
| Legacy.DailyStats | src/trackie/work/stats.py:56-85 | the legacy daily statistics satisfy the same specification as the current ones, with the quota as a parameter |
| Legacy.WeeklyStats | src/trackie/work/stats.py:88-116 | one row per ISO week number in first-seen order, with no gap fill and no sort; the range dates play no part |
| Legacy.LegacyRows | src/trackie/work/stats.py:104-116 | the row loop gives each week its minutes, diff and carryover |
| Legacy.LegacyWeeksSpec | src/trackie/work/stats.py:97-116 | week numbers are distinct across rows, whatever the year; each row holds that week's minutes and diff = minutes − quota |
| Legacy.LegacyWeeksCover | src/trackie/work/stats.py:97-102 | every unit's week number has a row |
| Legacy.LegacyWeeksCarry | src/trackie/work/stats.py:104-116 | the first carryover is the first diff and each later one adds its diff to the previous |
| Legacy.LegacyWeeklyTotal | src/trackie/work/stats.py:97-116 | the minutes over all legacy weekly rows add up to the minutes of all units |

## Left out

- File reading: the log arrives as a sequence of lines, each with its line break, in place of `open()` and iteration over the file.
- The format check of `trackie.utils.check_format` is not part of this model. `FileEdit` takes it as a function parameter that returns nothing or a message. A message becomes a `Format` error, standing for the exit that the error handler causes.
- Clock-based defaults: `dt.date.today()` for a missing end date, and `build_output_path`. The end date is always an explicit parameter.
- `FileEdit.GetWorkUnits` reads the end date from the query. The repository's `Params` record has no end-date field, so `params.end_date` would fail there.
- Exceptions become error results: a date `strptime` rejects, a duration `int()` rejects, a missing `:`, and the unbound `date` or `client` of a unit line before any date or client line.
- The command line, configuration loading, `handle_command`, the rich tables, CSV output, wage cost and `daterange_from_week` are terminal, file or display code.
- The generators of the source are modelled as functions returning the whole sequence. Laziness and partial consumption are not captured. An error means no units, even where the source would already have yielded some.
- `get_lines` appears identically in `work/logic.py:26-32`, `work/stats.py:14-19` and `repositories/file_edit.py:15-21`. It is modelled once, by `FileEdit.GetLines`.
- Legacy.GetWorkUnits: `stats.py:52` builds `WorkUnit(date, client, minutes)`. `description` is a required field of `WorkUnit` (`models.py:5-10`), so as written this call raises TypeError on the first counted work line. The model follows the evident intent and gives such units an empty description.
- Legacy.WeeklyStats: `stats.py:109,114` build `WeekStat(week, minutes, diff, carryover)`. `WeekStat` has five required fields (`models.py:24-30`), so as written this call raises TypeError on the first row. The model follows the evident intent and returns rows of a four-field `LegacyWeekStat`.
- Legacy.DailyStats: the module quota constants become parameters. The loop is the same as the current one and reuses its specification.
- Output.FormatStatUnit: it takes the row's minutes and carryover, not the row object. Its ensures states only the signs; the texts themselves are characterised by `Output.FormatHours` and `Output.FormatMinutes`.
- Output.LoadBar: the step must be positive, as in the source's uses (10 and 60).
- Integers are unbounded, as in Python. The floor division and modulo of `format_stat_unit` equal Dafny's `/` and `%` for the positive divisor 60. Python's `int()` raises ValueError on a text of more than 4300 digits; the model reads any length.
- Strings are sequences of characters, and only ASCII digits count as digits. Python's `\d` also matches other Unicode decimal digits, in the date pattern (`conf.py:11`), in the tab and space duration patterns (`conf.py:17,20`) and in the `%Y`, `%m` and `%d` fields of `strptime`; `int()` accepts them too. So a line such as `202٣-01-01` is a date line that parses in Python, while `Conf.IsDateLine`, `Conf.IsDuration`, `Dates.ParseDate` and `Text.PyInt` reject it.
- Dates: `Date` is any natural number. Ordinal 0 is no Python date, and dates after 9999-12-31 do not exist in Python, where stepping past that date in `daterange` raises OverflowError. The model has no lower or upper date bound.
