# HumanEval coverage harness — a Dafny model

This project models the core of a harness that runs HumanEval benchmark tests against
language-model solutions and measures their coverage. It covers four scripts.

- **run_humaneval_openai.py.** Each solution file is matched to its problem by the
  id in its name. Its `check(candidate)` test runs with every assertion rewritten
  into a recording call, so a failing assertion does not stop the test. The
  assertion outcomes are counted, and the files are tallied into tested, passed and
  failed.
- **humaneval_coverage_summary.py.** The same batch loop, plus a row of coverage
  figures per file from `coverage.json`. The figures are: statements, missed,
  branches, partial branches, line and branch percentage, and the missing lines
  compressed into ranges. Each row also gets a heuristic note. The rows are printed
  as one aligned table.
- **generate_summary.py.** The same table, built offline from a statistics file
  and `coverage.json`. It differs in the coverage lookup, the branch percentage and
  the placeholder for files without branches.
- **convergence.py.** The feedback loop for one problem. Each of three rounds shows
  the model the earlier rounds' tests, cut to a character budget, and a hint taken
  from the last coverage report. It then writes the reply as a numbered test file,
  reads the percentages from the coverage XML, and records them in a results line.

Modules:

| file | module | what it holds |
|---|---|---|
| wrappers.dfy | `Wrappers` | `Option`, for Python's `None` |
| text.dfy | `Text` | The Python string operations the scripts use: `strip`, `split`, `endswith`, `int()`, `str()`, `ljust`/`rjust`, `join` |
| pyast.dfy | `PyAst` | The part of Python's `ast` that the rewriter visits |
| instrument.dfy | `Instrument` | `_AssertRecorder`, `_CheckOnly` and `_instrument_test_code` |
| assertcount.dfy | `AssertCount` | `run_check_and_count_asserts` |
| batchrunner.dfy | `BatchRunner` | The per-file loop and the PASS/FAIL tally |
| coveragereport.dfy | `CoverageReport` | coverage.json entries, `interpret_result`, `compress_line_ranges`, the first-match search |
| covsummary.dfy | `CoverageSummary` | What is specific to humaneval_coverage_summary.py |
| gensummary.dfy | `GenerateSummary` | What is specific to generate_summary.py |
| summarytable.dfy | `SummaryTable` | The combined table both summary scripts print |
| convergence.dfy | `Convergence` | convergence.py |

The rewriter and `run_check_and_count_asserts` appear in both
humaneval_coverage_summary.py and run_humaneval_openai.py in identical form. They
are modelled once, and the table cites one of the two copies.

Executing Python is not modelled. Running `check(candidate)` is given as the
sequence of events it produces: `__rec` calls, possibly ended by one exception.
Importing a solution is given as its outcome. External inputs are parameters:

- the model's replies;
- the coverage XML's root attributes;
- the text of `coverage report -m`;
- the parsed JSON files.

Float formatting (`:.1f`, `:.2f`) is also a parameter, `fmt`. The tests directory
is a list of files that the feedback loop itself extends.

**Where the code is followed over the design description:**

- **The runtime-error record is counted.** When `check` raises, the record it
  appends has `ok == False`, which is a `bool`. `isinstance(ok, bool)` therefore
  counts it in `total` as well as in `failed`.
- **A missing entry point is a failure, not a skip.** It adds to `grand_fail`, and
  in humaneval_coverage_summary.py it also gets a row.
- **A missing coverage XML ends the loop.** It raises, and no further rounds run.
- **A coverage XML whose figures cannot be read ends nothing.** The round records a
  "(parse failed)" line. The next hint still comes from that round's text report,
  not from a fixed "None".

## Model

| member | source | states |
|---|---|---|
| `AssertCount.RunCheckAndCountAsserts` | humaneval_coverage_summary.py:111-150 | The result is the fold of the records. An import error gives `(0, 0, 1, [import-error record])`. A missing `check` gives `(0, 0, 1, [missing-check record])`. Otherwise `passed + failed == total` and there is one failure entry per failed record. |
| `AssertCount.PassedPlusFailed` | humaneval_coverage_summary.py:146-149 | Every record counts as exactly one of passed and failed. `failures_detail` has `failed` entries. |
| `AssertCount.FailuresAreTheFalseRecords` | humaneval_coverage_summary.py:149 | `failures_detail` holds exactly the records with `ok` false: each entry is one, and every one is in it. |
| `AssertCount.FailuresOfConcat` | humaneval_coverage_summary.py:149 | The failures keep execution order. The failures of `a + b` are those of `a`, then those of `b`. |
| `AssertCount.EachRecCallAppendsOne` | humaneval_coverage_summary.py:118-120 | If `check` raises nothing, each `__rec` call appends exactly one record, in call order, whatever the asserted value. |
| `AssertCount.RuntimeErrorAppendsOne` | humaneval_coverage_summary.py:139-144 | An `Exception` raised after some `__rec` calls keeps their records and appends one failing line-0 record. Later events never happen, and the exception is not propagated. |
| `AssertCount.CountFailedConcat` | humaneval_coverage_summary.py:148 | The failed count of a concatenation is the sum of the parts' failed counts. |
| `AssertCount.InstrumentedCheckCountsEveryAssert` | humaneval_coverage_summary.py:81-101 | An instrumented `check` made of `k` assertions whose tests and messages evaluate reports `total == k`, with `failed` equal to the number of false tests. There is no early stop, however many are false. |
| `AssertCount.RunRecordedAsserts` | humaneval_coverage_summary.py:81-90 | When every test and message evaluates, running the rewritten body yields one `__rec` event per assertion, carrying its truth value and line number, with none raised. |
| `AssertCount.EagerMessageStopsCheck` | humaneval_coverage_summary.py:83-89 | The rewrite evaluates each message as a call argument, even when the test holds. So the first assertion whose message raises ends `check`: the assertions before it are counted as usual, it adds one failure, and nothing after it is counted. |
| `AssertCount.UninstrumentedCheckStopsAtFirstFailure` | humaneval_coverage_summary.py:139-150 | Without the rewrite, the first false assertion raises. The result is a single runtime-error failure, and no later assertion is counted. |
| `Instrument.RecordStmtCounts` | humaneval_coverage_summary.py:81-90 | After `_AssertRecorder`, no assertion is left in a statement. The number of `__rec` calls grows by the number of assertions. |
| `Instrument.RecordSeqCounts` | humaneval_coverage_summary.py:81-90 | The same for a statement list. |
| `Instrument.RecordBlocksCounts` | humaneval_coverage_summary.py:81-90 | The same for the blocks of a compound statement. |
| `Instrument.InstrumentCounts` | humaneval_coverage_summary.py:104-108 | `_instrument_test_code` removes exactly the assertions inside matching `check` definitions and turns each into one `__rec` call. All other assertions stay. |
| `Instrument.CheckStmtCounts` | humaneval_coverage_summary.py:93-101 | `_CheckOnly` on one statement rewrites exactly the assertions of the matching `check` definitions it reaches. |
| `Instrument.CheckSeqCounts` | humaneval_coverage_summary.py:93-101 | The same for a statement list. |
| `Instrument.CheckBlocksCounts` | humaneval_coverage_summary.py:93-101 | The same for blocks. |
| `Instrument.CheckFunctionInstrumented` | humaneval_coverage_summary.py:94-100 | A `def check` with a positional parameter `candidate` comes back with no assertion. It has one more `__rec` call per assertion it had. |
| `Instrument.InstrumentWithoutCheckIsIdentity` | humaneval_coverage_summary.py:104-108 | A module in which `_CheckOnly` meets no matching `check` comes back unchanged, assertions included. |
| `Instrument.CheckStmtIdentity` | humaneval_coverage_summary.py:94-101 | A statement containing no matching `check` is left unchanged. This includes any function definition not named `check` or without a `candidate` parameter, whatever its body holds, since `_CheckOnly` does not look inside it. |
| `Instrument.CheckSeqIdentity` | humaneval_coverage_summary.py:93-101 | The same for a statement list. |
| `Instrument.CheckBlocksIdentity` | humaneval_coverage_summary.py:93-101 | The same for blocks. |
| `Instrument.UnrecordRecordSeq` | humaneval_coverage_summary.py:82-90 | Round trip: reading the `__rec` calls back as assertions restores the statement list exactly. This holds for code without its own `__rec` calls or `assert x, None`. |
| `Instrument.UnrecordRecordStmt` | humaneval_coverage_summary.py:82-90 | The same round trip for one statement. |
| `Instrument.UnrecordRecordBlocks` | humaneval_coverage_summary.py:82-90 | The same round trip for blocks. |
| `Instrument.RecordAssertShape` | humaneval_coverage_summary.py:82-90 | `assert test, msg` at line `n` becomes the expression statement `__rec(test, msg or Constant(None), Constant(n))`. |
| `BatchRunner.Status` | run_humaneval_openai.py:159 | The status is "PASS" exactly when `failed == 0 and total > 0`, and "FAIL" otherwise. |
| `BatchRunner.RunAll` | run_humaneval_openai.py:126-164 | The three counters are the number of files whose verdict is tested, passed and failed, respectively. |
| `BatchRunner.ClassifyFile` | run_humaneval_openai.py:130-161 | The checks for one file, in source order: bad name, then not in the dataset (both skip), then import error, then missing entry point (both fail), then the test run. |
| `BatchRunner.Tally` | run_humaneval_openai.py:149-164 | One verdict adds 1 to each counter it belongs to. A skipped file adds nothing. |
| `BatchRunner.TallyPartition` | run_humaneval_openai.py:130-164 | Every file is exactly one of skipped, passed and failed. `grand_pass <= grand_total <= grand_pass + grand_fail`. |
| `BatchRunner.SkippedFileChangesNothing` | run_humaneval_openai.py:131-140 | A file with no id, or with an id outside the dataset, leaves all three counters unchanged. |
| `BatchRunner.LoadOrEntryFailureCountsAsFail` | run_humaneval_openai.py:145-155 | An import error or a missing entry point adds one to `grand_fail` and nothing to `grand_total` or `grand_pass`. |
| `BatchRunner.SetupFailureIsFail` | run_humaneval_openai.py:90-94 | A test module that fails to import, or that has no `check`, always gives FAIL. |
| `BatchRunner.ProblemIdOfSolutionName` | run_humaneval_openai.py:132 | `int(name.split("_")[1])` of `humaneval_<id>_openai_attempt_001_base.py` gives back `id`. |
| `CoverageReport.PercentBounds` | humaneval_coverage_summary.py:215-218 | A covered count within its total gives a percentage in [0, 100]. It is 100 exactly when everything is covered. |
| `CoverageReport.Insert` | humaneval_coverage_summary.py:208 | Insertion keeps a list sorted and adds exactly one element, as a multiset. |
| `CoverageReport.SortInts` | humaneval_coverage_summary.py:208 | `sorted(...)` returns an ascending permutation of its input. |
| `CoverageReport.InterpretResult` | humaneval_coverage_summary.py:254-296 | The note is always one of the eight fixed notes. |
| `CoverageReport.NotesDistinct` | humaneval_coverage_summary.py:265-296 | The eight notes are pairwise different. |
| `CoverageReport.InterpretResultTable` | humaneval_coverage_summary.py:265-296 | For each of the eight notes, in both directions: it is returned exactly when the conditions of its branch hold. |
| `CoverageReport.Runs` | humaneval_coverage_summary.py:233-249 | There are no runs exactly when there are no lines. |
| `CoverageReport.RunsSnoc` | humaneval_coverage_summary.py:236-244 | A line one above `prev` extends the open run. Any other line closes it and opens a new one. |
| `CoverageReport.RunTexts` | humaneval_coverage_summary.py:240-249 | Each run is written as `"a"` when it has one line and as `"a-b"` otherwise. |
| `CoverageReport.CompressLineRanges` | humaneval_coverage_summary.py:223-251 | The loop returns the run texts joined by `", "`. An empty list gives `""`. |
| `CoverageReport.RunsExpandToInput` | humaneval_coverage_summary.py:223-251 | Nothing is lost: the runs expand back to exactly the input lines, in order. |
| `CoverageReport.RunsAreMaximal` | humaneval_coverage_summary.py:236-244 | Every run is non-empty, and no run continues the one before it. |
| `CoverageReport.CompressExample` | humaneval_coverage_summary.py:228 | `[2, 3, 4, 7, 8, 10]` gives `"2-4, 7-8, 10"`. |
| `CoverageReport.FirstMatch` | humaneval_coverage_summary.py:182-189 | The index found is the first that satisfies the test. With no such index, none is found. |
| `CoverageSummary.FindFileEntry` | humaneval_coverage_summary.py:166-189 | The loop returns the first matching `(path, entry)`, or `("", {})`. What it returns is one of the entries, or that default. |
| `CoverageSummary.DirectoryTargetRedundant` | humaneval_coverage_summary.py:176-184 | A path matches the solution exactly when its slash-normalised form ends with the file name. The `openai_solutions/<name>` alternative never decides the match. |
| `CoverageSummary.Summarize` | humaneval_coverage_summary.py:192-220 | An empty entry gives all zeros. Otherwise `miss >= 0`, and the missing lines are the entry's lines, sorted. |
| `CoverageSummary.SummarizeConsistent` | humaneval_coverage_summary.py:203-218 | For consistent counts, `miss` is the uncovered statements. Both percentages lie in [0, 100], and each is 100 exactly when everything is covered. |
| `CoverageSummary.BuildCoverageRow` | humaneval_coverage_summary.py:388-413 | The row comes from the coverage lookup, its summary and compressed ranges. Without counts (missing entry point) the Tests cell is `0/0` with the fixed note. With counts it is `passed/total` with `interpret_result`'s note. |
| `CoverageSummary.BuildSolutionRow` | humaneval_coverage_summary.py:339-460 | A file gets a row exactly when it is not skipped. A load error gives the zero row named by the solution's path. |
| `CoverageSummary.RunAndSummarize` | humaneval_coverage_summary.py:330-515 | The counters are those of the batch runner, and the rows are one per non-skipped file, in order. With no rows there is no table. Otherwise the table is the header, a rule and one line per row, padded to the measured widths. |
| `CoverageSummary.RowsAreTheCountedFiles` | humaneval_coverage_summary.py:339-460 | The table has `grand_pass + grand_fail` rows. |
| `CoverageSummary.TestedRowReportsCounts` | humaneval_coverage_summary.py:416-460 | A tested file's row shows `passed/total` and `interpret_result`'s note for its counts and coverage. The note is "No HumanEval test cases executed." exactly when `total == 0`. |
| `CoverageSummary.UncoveredSolutionRow` | humaneval_coverage_summary.py:428-449 | A solution without a coverage entry gets a zero row named by its own path. |
| `GenerateSummary.LoadTestStats` | generate_summary.py:32-43 | The dict is built by the loop over the stats entries: keys that `int()` rejects are dropped, absent fields read as 0, and a later equal id replaces an earlier one. |
| `GenerateSummary.ParsedStatsKeys` | generate_summary.py:33-38 | An id is a key of the result exactly when some entry's key reads as that id. |
| `GenerateSummary.ParsedStatsLastWins` | generate_summary.py:38-42 | A kept id holds the stats of the last entry whose key reads as it. |
| `GenerateSummary.FindFileEntry` | generate_summary.py:56-62 | The loop returns the first `(path, entry)` whose normalised path ends with the normalised suffix, or `("", {})`. |
| `GenerateSummary.FoundFirst` | generate_summary.py:59-61 | The first matching entry is the one returned. |
| `GenerateSummary.NoneFound` | generate_summary.py:62 | With no match the result is `("", {})`. |
| `GenerateSummary.LookupsAgree` | generate_summary.py:56-62 | For a solution file name, this lookup finds the same entry as humaneval_coverage_summary.py's. |
| `GenerateSummary.Summarize` | generate_summary.py:65-98 | An empty entry gives all zeros. Otherwise `miss >= 0` and the missing lines are sorted. |
| `GenerateSummary.SummariesAgree` | generate_summary.py:86-96 | The two scripts' summaries agree except for the branch percentage. That also agrees exactly when the covered-branch count equals branches minus missing arcs. |
| `GenerateSummary.BranchPercentBounds` | generate_summary.py:92-96 | With no more missing arcs than branches, the branch percentage lies in [0, 100]. It is 100 exactly when no arc is missing. |
| `GenerateSummary.InsertId` | generate_summary.py:156 | Insertion keeps the ids strictly ascending and adds exactly `x`. |
| `GenerateSummary.SortedIds` | generate_summary.py:156 | `sorted(test_stats.keys())` is strictly ascending and holds exactly the dict's keys. |
| `GenerateSummary.BuildRow` | generate_summary.py:160-198 | The loop body gives the row of problem `pid`: looked up under the conventional file name, summarised, and annotated. |
| `GenerateSummary.ProblemRowsAt` | generate_summary.py:159-198 | Row `i` is the row of the `i`-th sorted id. |
| `GenerateSummary.BuildRows` | generate_summary.py:159-198 | The loop gives one row per id, in order. |
| `GenerateSummary.GenerateTable` | generate_summary.py:152-245 | The ids are the sorted keys, and the rows are one per id. With no rows there is no table. Otherwise the table is the header and rule, then one line per row with `"0%"` for files without branches. |
| `SummaryTable.TestsTextRoundTrip` | humaneval_coverage_summary.py:457 | The Tests cell `f"{passed}/{total}"` splits on `/` into two parts that read back as `passed` and `total`. |
| `SummaryTable.DisplayedCells` | humaneval_coverage_summary.py:500-502 | The printed cells equal the measured ones except the two percentages. Branch% shows the placeholder exactly when there are no branches, and Line% shows `"0%"` exactly when there are no statements. |
| `SummaryTable.ColumnWidth` | humaneval_coverage_summary.py:475-483 | A width is the maximum of the header's and the cells' lengths: at least each of them, and equal to one of them. |
| `SummaryTable.Widths` | humaneval_coverage_summary.py:475-483 | Every measured cell of every row fits its column's width, and so does every header. |
| `SummaryTable.Pad` | humaneval_coverage_summary.py:486-494 | `ljust`/`rjust` of a text that fits gives exactly the width. A longer text is kept unchanged. |
| `SummaryTable.PadFill` | humaneval_coverage_summary.py:486-494 | A left-aligned cell is the text followed only by spaces. A right-aligned cell is only spaces followed by the text. |
| `SummaryTable.RowLines` | humaneval_coverage_summary.py:499-515 | The loop yields one line per row, in order. |
| `SummaryTable.TableLines` | humaneval_coverage_summary.py:470-515 | No rows, no table. Otherwise the header, a rule of dashes as long as the header, and the row lines. |
| `SummaryTable.PaddedLength` | humaneval_coverage_summary.py:485-496 | When every cell fits, the padded part of a line is exactly the width of the note column. |
| `SummaryTable.DisplayFits` | humaneval_coverage_summary.py:500-512 | With a placeholder no longer than "Br%", every printed cell fits its width. |
| `SummaryTable.TableAligned` | humaneval_coverage_summary.py:485-515 | The header's note and every row's note start at the same column, and each line ends with its note. |
| `Text.LStrip` | convergence.py:104 | `lstrip()` removes exactly a whitespace prefix, leaving a result that does not start with whitespace. |
| `Text.RStrip` | convergence.py:124 | `rstrip()` removes exactly a whitespace suffix, leaving a result that does not end with whitespace. |
| `Text.Strip` | convergence.py:104 | `strip()` leaves neither leading nor trailing whitespace. |
| `Text.StripTrimmed` | convergence.py:107 | Stripping trimmed text changes nothing. |
| `Text.ReplaceBackslash` | generate_summary.py:58 | `replace("\\", "/")` changes every backslash to a slash and nothing else. |
| `Text.Split` | run_humaneval_openai.py:132 | `split("_")` yields at least one piece, none containing the separator, and joining them back gives the input. |
| `Text.NatToString` | generate_summary.py:164 | `str(n)` is the digits of `n`, without a leading zero. |
| `Text.ParseIntToString` | run_humaneval_openai.py:132 | `int(str(n)) == n` for every integer. |
| `Text.TwoDigits` | convergence.py:123 | `f"{n:02d}"` has at least two digits and reads back as `n`. Below 100 it has exactly two digits. From 10 on it is `str(n)`. |
| `Text.LJust` | humaneval_coverage_summary.py:486 | `ljust(w)` has length `max(len, w)`. It starts with the text, and everything after the text is a space. |
| `Text.RJust` | humaneval_coverage_summary.py:487 | `rjust(w)` has length `max(len, w)`. It ends with the text, and everything before the text is a space. |
| `Text.LowerAsciiStringAt` | convergence.py:105 | The case-insensitive comparison lowers each character independently. |
| `Convergence.TestFileContentParts` | convergence.py:121-125 | The written file is the right-trimmed preamble, a blank line, the trimmed tests and a final newline, so the tests can be cut back out. |
| `Convergence.TestFileNameMatchesGlob` | convergence.py:205 | Every round's file matches the glob the later rounds list. |
| `Convergence.OnlyOwnRoundSkipped` | convergence.py:210 | For rounds below 100, the `endswith(f"{current:02d}.py")` test skips exactly the current round's own file. |
| `Convergence.ListingContents` | convergence.py:205 | The glob lists exactly the directory's files whose names match the pattern. |
| `Convergence.NameLeTotal` | convergence.py:205 | Name order is total. |
| `Convergence.InsertByNameSorted` | convergence.py:205 | Insertion into a name-sorted list keeps it sorted and adds exactly the one file. |
| `Convergence.SortByNameSorted` | convergence.py:205 | `sorted(...)` of the listing is sorted by name and is a permutation of it. |
| `Convergence.PriorParts` | convergence.py:206-220 | The collected texts never exceed the budget by more than the truncation mark. |
| `Convergence.ShownMembers` | convergence.py:208-211 | The files shown are exactly the listed files the round does not skip. |
| `Convergence.FitCountFirstOverflow` | convergence.py:212-220 | `FitCount` is the first overflow. The whole texts of the first `m` shown files fit in the budget together. The next file's text, if there is one, does not fit after them. |
| `Convergence.PriorPartsClosedForm` | convergence.py:206-220 | Closed form of the loop. With `m` the first overflow, the parts are the whole texts of the first `m` shown files, in listing order. If a file overflows and more than 200 characters of the budget remain, that file's text follows, cut to the remainder and marked as truncated. |
| `Convergence.PriorPartsSkipsFirst` | convergence.py:208-211 | Skipping files during the walk gives the same parts as removing them from the listing first. |
| `Convergence.ReadText` | convergence.py:212 | A text-mode read never yields a carriage return, and it never lengthens the text: `"\r\n"` and a lone `"\r"` each read as `"\n"`. |
| `Convergence.ReadTextPlain` | convergence.py:212 | A file written without carriage returns reads back exactly as written. |
| `Convergence.ReadTextIdempotent` | convergence.py:212 | Reading an already-read text changes nothing more. |
| `Convergence.CollectPriorTestsText` | convergence.py:203-223 | The result is the texts collected from the name-sorted listing, joined by a blank line, or `"None"` when nothing was collected. Each text is the header line and the file's contents as a text-mode read returns them, and its newline-normalised length is what counts against the budget. |
| `Convergence.CollectParts` | convergence.py:208-220 | The loop collects exactly the parts the specification function describes. |
| `Convergence.CollectStep` | convergence.py:209-220 | One pass either skips the file, takes its text whole, or cuts it (adding the mark if more than 200 characters remain) and stops. The budget is never exceeded by the running total. |
| `Convergence.PriorPartsAreFileTexts` | convergence.py:208-219 | Every part but the last is the header and contents of a listed, non-skipped file. The last is that, or such a text cut after more than 200 characters and marked as truncated. |
| `Convergence.NoneExactlyWhenNothingCollected` | convergence.py:221-223 | The text is `"None"` exactly when nothing was collected. |
| `Convergence.AllSkippedGivesNone` | convergence.py:208-211 | If every listed file is skipped, nothing is collected. |
| `Convergence.StripFence` | convergence.py:104-108 | The returned text is always trimmed. |
| `Convergence.FencedReplyRecovered` | convergence.py:104-108 | Round trip for any fenced reply. The whitespace around the block goes. So do an optional `python` tag in any case and the whitespace inside the fences. Trimmed code then comes back exactly. The one exception is untagged code that starts with `python` right after the fence: the pattern reads those six letters as the tag. |
| `Convergence.TaggedBlock` | convergence.py:105 | Six characters spelling `python` in any case right after the opening fence are taken as the tag. The group is what follows them. |
| `Convergence.UntaggedBlock` | convergence.py:105 | A block whose interior does not start with `python` in some case has no tag. The group is the whole interior. |
| `Convergence.UnfencedKept` | convergence.py:104-108 | A reply without a surrounding fence is returned trimmed and otherwise unchanged. |
| `Convergence.StripAround` | convergence.py:107 | `strip()` removes surrounding whitespace of any kind and nothing else. |
| `Convergence.FencedCodeRecovered` | convergence.py:104-108 | Round trip: trimmed code wrapped in a python fence comes back exactly. |
| `Convergence.PythonFenceShape` | convergence.py:105 | A block opened with three backticks and `python` and closed with three backticks is fenced and tagged, and it encloses what lies between. |
| `Convergence.ParseDecimalOfNat` | convergence.py:180 | The decimal text of a natural number reads back as that number. |
| `Convergence.ParseCoverageXml` | convergence.py:165-194 | A missing or empty report gives `(None, None)`. |
| `Convergence.CoverageFallback` | convergence.py:170-193 | A readable rate attribute wins. Otherwise the counts decide. Lines and branches follow the same rule. |
| `Convergence.NoValidCountNoFigure` | convergence.py:180-191 | Without a positive `valid` count, an absent one included, the figure stays `None` and is never 0. |
| `Convergence.BareRootGivesNothing` | convergence.py:170-194 | A root without attributes gives `(None, None)`. |
| `Convergence.CountRatioBounds` | convergence.py:182-183 | Consistent counts give a figure in [0, 100]. It is 100 exactly when all are covered. |
| `Convergence.ResultsNote` | convergence.py:281-287 | The note is the test file name, with " (parse failed)" added exactly when neither figure was read. |
| `Convergence.LineEnd` | convergence.py:299 | The index of the first line break, or the length. |
| `Convergence.SplitLines` | convergence.py:299 | No line from `splitlines()` contains a line break. There are no lines exactly when the text is empty. |
| `Convergence.SplitLinesFirstLine` | convergence.py:299 | A break-free run ended by one whole line break is the first line, and the lines of the rest follow it. `\r\n` counts as one break. A `\r` followed by `\n` is never a break of its own. |
| `Convergence.SplitLinesLastLine` | convergence.py:299 | A non-empty text without a line break is one line, with no empty line after it. With `SplitLinesFirstLine` this fixes `splitlines()` on every text: the lines are the maximal break-free pieces, in order. |
| `Convergence.MissingLines` | convergence.py:298-301 | A report that never says "Missing" contributes no line. |
| `Convergence.MentioningExactly` | convergence.py:299-301 | A line is kept exactly when it is a report line that contains the solution's name. |
| `Convergence.MissingLinesExactly` | convergence.py:298-301 | The hint's lines are exactly the report lines naming the solution file, provided the report says "Missing" somewhere. |
| `Convergence.NextHint` | convergence.py:298-305 | The loop and formatting produce exactly the specified hint. |
| `Convergence.CollectMissing` | convergence.py:298-301 | The loop keeps the report lines naming the solution file, in order, when the report qualifies, and none otherwise. |
| `Convergence.HintNoneIffNoLines` | convergence.py:302-305 | The hint is `"None"` exactly when no line qualifies. Otherwise it starts with the fixed prefix. |
| `Convergence.NoMissingNoHint` | convergence.py:300-302 | A report that never says "Missing" gives the hint `"None"`, whatever it lists. |
| `Convergence.WithoutContents` | convergence.py:124 | Removing the old file of a name removes exactly the files with that name. |
| `Convergence.WriteFileContents` | convergence.py:121-125 | After `write_text` the file holds the new contents, whatever it held before, and no other file changes. |
| `Convergence.RoundFiles` | convergence.py:249-265 | There is one file per round. |
| `Convergence.RoundFilesNamed` | convergence.py:123 | Round `k + 1`'s file carries that round's numbered name. |
| `Convergence.PlayRound` | convergence.py:251-305 | One round gives the specified outcome. It writes that round's file, and the next hint comes from its report. |
| `Convergence.PlayedRounds` | convergence.py:249-305 | `n` rounds give `n` outcomes. |
| `Convergence.FeedbackLoop` | convergence.py:244-305 | The loop plays each round from the directory the earlier rounds left and with the hint of the previous report. A missing XML ends the loop after that round's file is written. Otherwise all three rounds run. |
| `Convergence.PlayRounds` | convergence.py:249-305 | The same loop, over the files the rounds write. |
| `Convergence.LoopStep` | convergence.py:251-305 | One pass of the loop moves from the state after round `i - 1` to the state after round `i`. |
| `Convergence.PlayedRoundAt` | convergence.py:249-305 | Round `k + 1` ran in the directory rounds `1..k` left. Its hint is that of round `k`'s report, or `"None"` for the first round. |
| `Convergence.DistinctRoundNames` | convergence.py:123 | Different rounds below 100 write different files. |
| `Convergence.RoundFilesKept` | convergence.py:249-265 | After `n` rounds the directory holds each round's file as that round wrote it. |
| `Convergence.OtherFilesKept` | convergence.py:249-265 | After `n` rounds, every earlier file that is no round's file is still there. |
| `Convergence.EarlierRoundsListed` | convergence.py:203-211 | Round `i` is shown each earlier round's file: it is listed, and not skipped. |

## Left out

- Running Python is not modelled: `compile`, `exec`, calling `check`, `runpy`/`load_module` and `quiet_io`. Their outcomes are inputs: a `Setup` and the `Event` sequence of one `check` call, and a `LoadOutcome` per file.
- Only two statement forms are executed: assertions and `__rec` calls. Other statements inside `check` are not, so `RunBody` is used only for bodies made of assertions.
- `ast.parse` failures arrive as the import-error setup. `ast.fix_missing_locations` is not modelled, since it only fills in position data.
- `discover_solution_files`, `read_problems`, `load_coverage` and the JSON and XML parsing are not modelled. Their results are parameters, because they are file-system and library I/O.
- An XML file that exists but is malformed makes the source raise. The model has no input for that case.
- `wait_for_file` is modelled by its result only: whether the XML appeared. Timing and the file system are not modelled.
- The model's call, `coverage run`/`coverage xml`/`coverage report` and `subprocess`: the reply, the XML root attributes and the report text are per-round parameters.
- The pre-flight checks of convergence.py `main` (solution file, `ENTRY_POINT`, API key, `coverage` import) are not modelled. They only abort before round 1.
- `get_humaneval_spec`, `build_test_preamble` and the prompt template are not modelled. The prompt is only text sent to the model; the preamble is a parameter.
- Console output, the per-round log files and writing the table to its output file are not modelled. Only the table lines and the results line are modelled.
- `Convergence.ResultsLine`: `:.2f` formatting of a figure is left to the `fmt` parameter, because floating point is not modelled. A missing figure (NaN) is written as the literal `nan` by the model itself, as `f"{float('nan'):.2f}"` gives.
- `SummaryTable.Widths`: `:.1f` formatting is the `fmt` parameter, and percentages are exact reals rather than floats.
- `Convergence.ParseDecimal` accepts only plain decimal text: an optional sign, digits and at most one point. Exponents, `inf`, `nan` and underscores, which `float()` also accepts, read as not a number.
- `Text.ParseInt` accepts ASCII digits only. Other Unicode decimal digits, and underscores between digits, which `int()` also accepts, read as not a number.
- `Text.LowerAsciiString`: `re.IGNORECASE` is modelled for ASCII letters only. Non-ASCII case folding is not modelled.
- `Convergence.WriteFile` stores the text exactly as given, as `write_text` does on POSIX. On Windows each `"\n"` would be written as `"\r\n"`, which the text-mode read folds back. Newline normalisation happens on the read side, in `ReadText`.
- `Convergence.SortByName` orders names by code point, as Python compares strings and as path order does on POSIX (on Windows paths compare case-folded), and only names are compared. Ties between equal names cannot occur in one directory.
- `AssertCount.RunCheckAndCountAsserts`: `Setup.ImportFailed`, `Event.Raised` and `BatchRunner.LoadError` stand for `Exception` subclasses only, which `except Exception` catches. A `BaseException` that is not an `Exception`, such as `SystemExit`, `KeyboardInterrupt` or `GeneratorExit`, escapes those handlers and aborts the whole run. That case is not modelled.
- `Convergence.OnlyOwnRoundSkipped` is stated for round numbers below 100. With three rounds the source never reaches 100, where the three-digit name would break the suffix test.
- The `(parse failed)` excerpt file and the printed warnings of a round are not modelled.
- coverage.json fields hold integers, so `int(...)` on them is the identity. An ill-typed field that makes `int()` raise is not modelled.
- `GenerateSummary.RawStats`: the `total`, `passed` and `failed` values of humaneval_test_stats.json are taken as integers already. `int(...)` truncating a float, and raising `TypeError` on a JSON `null` (which ends the script), are not modelled.
- `AssertCount.RunBody`: a test's evaluation and its `bool(...)` form one `Outcome`, and the message's evaluation and its `str(...)` one `Message`. A `__rec` call whose test raises reports the test's exception. In the source, a test that evaluates but whose `bool(...)` raises loses to a raising message, which is evaluated first. Only the runtime-error record's text differs; the counts are the same. For a plain `assert`, a message whose `str(...)` raises would raise only while the runtime-error record is formatted, escaping the handler; that case is not modelled.
