/**
 * humaneval_coverage_summary.py: the batch runner of BatchRunner, extended
 * with one coverage row per solution that was not skipped. The coverage
 * entry is looked up in coverage.json by file-name suffix, summarised in
 * pytest-cov's columns and annotated with `interpret_result`; the rows end
 * up in the combined table of SummaryTable with `"N/A"` for files without
 * branches.
 *
 * coverage.json arrives as the list of its `files` entries; a missing file
 * (the source then carries on with no coverage data) is the empty list.
 */
module CoverageSummary {
  import opened Wrappers
  import opened Text
  import opened AssertCount
  import opened BatchRunner
  import opened CoverageReport
  import opened SummaryTable

  const DefaultDir: string := "openai_solutions"

  /** Branch percentage shown for a file without branches. */
  const NoBranchCell: string := "N/A"

  /**
   * A coverage path belongs to the solution named `name` when, with
   * backslashes turned into slashes, it ends with `openai_solutions/<name>`
   * or with `<name>`.
   */
  predicate MatchesSolution(path: string, name: string) {
    var p := ReplaceBackslash(path);
    EndsWith(p, ReplaceBackslash(DefaultDir + "/" + name)) || EndsWith(p, ReplaceBackslash(name))
  }

  /** The first matching `(path, entry)`, or `("", {})`. */
  function FindEntry(files: seq<(string, FileEntry)>, name: string): (string, FileEntry) {
    match FirstMatch(Paths(files), path => MatchesSolution(path, name))
    case None => ("", EmptyEntry)
    case Some(k) => files[k]
  }

  /** `find_file_entry`: scans the entries in order and stops at the first match. */
  method FindFileEntry(files: seq<(string, FileEntry)>, name: string) returns (path: string, entry: FileEntry)
    ensures (path, entry) == FindEntry(files, name)
    ensures (path == "" && entry == EmptyEntry) || exists k :: 0 <= k < |files| && files[k] == (path, entry)
  {
    var target1 := ReplaceBackslash(name);
    var target2 := ReplaceBackslash(DefaultDir + "/" + name);
    path, entry := "", EmptyEntry;
    var i := 0;
    while i < |files|
      invariant 0 <= i <= |files|
      invariant forall k :: 0 <= k < i ==> !MatchesSolution(files[k].0, name)
      invariant path == "" && entry == EmptyEntry
    {
      var normPath := ReplaceBackslash(files[i].0);
      if EndsWith(normPath, target2) || EndsWith(normPath, target1) {
        path, entry := files[i].0, files[i].1;
        break;
      }
      i := i + 1;
    }
    var p := (q: string) => MatchesSolution(q, name);
    var ps := Paths(files);
    if i < |files| {
      assert p(ps[i]) && forall k :: 0 <= k < i ==> !p(ps[k]);
      FirstMatchIsFirst(ps, p, i);
    } else {
      assert forall k :: 0 <= k < |ps| ==> !p(ps[k]);
    }
  }

  /** The first index satisfying `p` is what `FirstMatch` finds. */
  lemma FirstMatchIsFirst(paths: seq<string>, p: string -> bool, i: nat)
    requires i < |paths| && p(paths[i]) && forall k :: 0 <= k < i ==> !p(paths[k])
    ensures FirstMatch(paths, p) == Some(i)
  {
  }

  lemma ReplaceBackslashConcat(a: string, b: string)
    ensures ReplaceBackslash(a + b) == ReplaceBackslash(a) + ReplaceBackslash(b)
  {
    var l, r := ReplaceBackslash(a + b), ReplaceBackslash(a) + ReplaceBackslash(b);
    assert |l| == |r|;
    forall k | 0 <= k < |l| ensures l[k] == r[k] {
      if k < |a| {
        assert (a + b)[k] == a[k];
      } else {
        assert (a + b)[k] == b[k - |a|];
      }
    }
  }

  /**
   * The `openai_solutions/<name>` alternative adds nothing: a path ending
   * with it also ends with `<name>`, so the match is exactly "ends with the
   * file name".
   */
  lemma DirectoryTargetRedundant(path: string, name: string)
    ensures MatchesSolution(path, name) <==> EndsWith(ReplaceBackslash(path), ReplaceBackslash(name))
  {
    var p := ReplaceBackslash(path);
    ReplaceBackslashConcat(DefaultDir + "/", name);
    if EndsWith(p, ReplaceBackslash(DefaultDir + "/" + name)) {
      EndsWithConcat(p, ReplaceBackslash(DefaultDir + "/"), ReplaceBackslash(name));
    }
  }

  /**
   * `summarize_pytest_cov_style`: an empty entry gives all zeros; otherwise
   * absent summary counts read as 0, `miss` is never negative, the missing
   * lines are sorted, `brpart` counts the missing arcs (none for `null`),
   * and both percentages come from coverage.py's own covered counts.
   */
  function Summarize(e: FileEntry): (s: Summary)
    ensures e.EmptyEntry? ==> s == EmptySummary
    ensures s.miss >= 0 && Sorted(s.missingLines)
    ensures e.FileEntry? ==> multiset(s.missingLines) == multiset(e.missingLines)
  {
    match e
    case EmptyEntry => EmptySummary
    case FileEntry(summary, missingLines, missingBranches) =>
      var stmts := summary.numStatements.GetOr(0);
      var coveredLines := summary.coveredLines.GetOr(0);
      var numBranches := summary.numBranches.GetOr(0);
      var coveredBranches := summary.coveredBranches.GetOr(0);
      Summary(
        stmts,
        if stmts - coveredLines > 0 then stmts - coveredLines else 0,
        numBranches,
        if missingBranches.Some? then |missingBranches.value| else 0,
        Percent(coveredLines, stmts),
        Percent(coveredBranches, numBranches),
        SortInts(missingLines))
  }

  /**
   * For a consistent entry (covered counts within their totals) the row's
   * numbers mean what their headers say: `miss` is the uncovered statements,
   * both percentages lie in [0, 100] and a percentage is 100 exactly when
   * everything is covered.
   */
  lemma SummarizeConsistent(e: FileEntry)
    requires e.FileEntry?
    requires 0 <= e.summary.coveredLines.GetOr(0) <= e.summary.numStatements.GetOr(0)
    requires 0 <= e.summary.coveredBranches.GetOr(0) <= e.summary.numBranches.GetOr(0)
    ensures var s := Summarize(e);
      && s.miss == s.stmts - e.summary.coveredLines.GetOr(0)
      && 0.0 <= s.linePct <= 100.0 && 0.0 <= s.branchPct <= 100.0
      && (s.stmts > 0 ==> (s.linePct == 100.0 <==> s.miss == 0))
      && (s.branch > 0 ==> (s.branchPct == 100.0 <==> e.summary.coveredBranches.GetOr(0) == s.branch))
  {
    PercentBounds(e.summary.coveredLines.GetOr(0), e.summary.numStatements.GetOr(0));
    PercentBounds(e.summary.coveredBranches.GetOr(0), e.summary.numBranches.GetOr(0));
  }

  const MissingEntryNote: string := "Missing required entry_point function in solution."

  /**
   * A row built from a coverage lookup: the path found (or the solution
   * path) and its summary; with no counts (entry point missing) the Tests
   * cell is `0/0` and the note says so, otherwise the counts and
   * `interpret_result`'s note.
   */
  function CoverageRow(sol: SolutionFile, covFiles: seq<(string, FileEntry)>, counts: Option<Counts>): Row {
    var (path, entry) := FindEntry(covFiles, sol.name);
    var s := Summarize(entry);
    Row(if path != "" then path else sol.path, s.stmts, s.miss, s.branch, s.brpart, s.linePct, s.branchPct,
        CompressedText(s.missingLines),
        if counts.None? then "0/0" else TestsText(counts.value.passed, counts.value.total),
        if counts.None? then MissingEntryNote
        else InterpretResult(counts.value.passed, counts.value.total, s.linePct, s.branch, s.brpart))
  }

  /** The row `main` appends for one file, if any. */
  function SolutionRow(sol: SolutionFile, v: Verdict, covFiles: seq<(string, FileEntry)>): Option<Row> {
    match v
    case SkipBadName => None
    case SkipNotInDataset(_) => None
    case LoadFailed(_, kind) =>
      Some(Row(sol.path, 0, 0, 0, 0, 0.0, 0.0, "", "0/0", "Module import error: " + kind))
    case MissingEntry(_, _) =>
      Some(CoverageRow(sol, covFiles, None))
    case Tested(_, c) =>
      Some(CoverageRow(sol, covFiles, Some(c)))
  }

  /** All rows, in file order. */
  function ExpectedRows(files: seq<SolutionFile>, problems: map<int, Problem>, covFiles: seq<(string, FileEntry)>): seq<Row> {
    if files == [] then []
    else
      var last := files[|files| - 1];
      var init := ExpectedRows(files[..|files| - 1], problems, covFiles);
      match SolutionRow(last, Classify(last, problems), covFiles)
      case None => init
      case Some(r) => init + [r]
  }

  /** The coverage lookup and summary behind a row, as `main` does them. */
  method BuildCoverageRow(sol: SolutionFile, covFiles: seq<(string, FileEntry)>, counts: Option<Counts>) returns (row: Row)
    ensures row == CoverageRow(sol, covFiles, counts)
  {
    var covPath, covEntry := FindFileEntry(covFiles, sol.name);
    var s := Summarize(covEntry);
    var missing := CompressLineRanges(s.missingLines);
    var tests := if counts.None? then "0/0" else TestsText(counts.value.passed, counts.value.total);
    var note := if counts.None? then MissingEntryNote
                else InterpretResult(counts.value.passed, counts.value.total, s.linePct, s.branch, s.brpart);
    row := Row(if covPath != "" then covPath else sol.path, s.stmts, s.miss, s.branch, s.brpart,
               s.linePct, s.branchPct, missing, tests, note);
  }

  /** The row `main` appends for a file with verdict `v`: none for a skipped file. */
  method BuildSolutionRow(sol: SolutionFile, v: Verdict, covFiles: seq<(string, FileEntry)>) returns (row: Option<Row>)
    ensures row == SolutionRow(sol, v, covFiles)
    ensures row.None? <==> IsSkip(v)
  {
    match v
    case SkipBadName =>
      row := None;
    case SkipNotInDataset(_) =>
      row := None;
    case LoadFailed(_, kind) =>
      row := Some(Row(sol.path, 0, 0, 0, 0, 0.0, 0.0, "", "0/0", "Module import error: " + kind));
    case MissingEntry(_, _) =>
      var r := BuildCoverageRow(sol, covFiles, None);
      row := Some(r);
    case Tested(_, c) =>
      var r := BuildCoverageRow(sol, covFiles, Some(c));
      row := Some(r);
  }

  /**
   * `main`: the batch loop of BatchRunner that also collects the coverage
   * rows, followed by the combined table. The counters are those of
   * `RunAll`, the rows are `ExpectedRows`, and the table is that of
   * SummaryTable with `"N/A"` for files without branches.
   */
  method RunAndSummarize(files: seq<SolutionFile>, problems: map<int, Problem>, covFiles: seq<(string, FileEntry)>, fmt: real -> string)
    returns (grandTotal: nat, grandPass: nat, grandFail: nat, rows: seq<Row>, lines: seq<string>)
    ensures grandTotal == CountVerdicts(files, problems, IsTested)
    ensures grandPass == CountVerdicts(files, problems, IsPass)
    ensures grandFail == CountVerdicts(files, problems, IsFail)
    ensures rows == ExpectedRows(files, problems, covFiles)
    ensures rows == [] ==> lines == []
    ensures rows != [] ==> |lines| == |rows| + 2 && lines[0] == HeaderLine(Widths(rows, fmt)) && lines[1] == Repeat('-', |lines[0]|)
    ensures forall i :: 0 <= i < |rows| && rows != [] ==> lines[i + 2] == RowLine(rows[i], Widths(rows, fmt), fmt, NoBranchCell)
  {
    grandTotal, grandPass, grandFail := 0, 0, 0;
    rows := [];
    for i := 0 to |files|
      invariant grandTotal == CountVerdicts(files[..i], problems, IsTested)
      invariant grandPass == CountVerdicts(files[..i], problems, IsPass)
      invariant grandFail == CountVerdicts(files[..i], problems, IsFail)
      invariant rows == ExpectedRows(files[..i], problems, covFiles)
    {
      var v := ClassifyFile(files[i], problems);
      var tested, passed, failed := Tally(v);
      var row := BuildSolutionRow(files[i], v, covFiles);
      CountStep(files, i, problems, IsTested);
      assert CountVerdicts(files[..i + 1], problems, IsTested) == grandTotal + tested;
      CountStep(files, i, problems, IsPass);
      assert CountVerdicts(files[..i + 1], problems, IsPass) == grandPass + passed;
      CountStep(files, i, problems, IsFail);
      assert CountVerdicts(files[..i + 1], problems, IsFail) == grandFail + failed;
      RowsStep(files, i, problems, covFiles);
      grandTotal := grandTotal + tested;
      grandPass := grandPass + passed;
      grandFail := grandFail + failed;
      if row.Some? {
        rows := rows + [row.value];
      }
    }
    assert files[..|files|] == files;
    lines := TableLines(rows, fmt, NoBranchCell);
  }

  /** Extending the processed prefix by one file appends that file's row, if it has one. */
  lemma RowsStep(files: seq<SolutionFile>, i: nat, problems: map<int, Problem>, covFiles: seq<(string, FileEntry)>)
    requires i < |files|
    ensures ExpectedRows(files[..i + 1], problems, covFiles)
      == ExpectedRows(files[..i], problems, covFiles)
         + (match SolutionRow(files[i], Classify(files[i], problems), covFiles)
            case None => []
            case Some(r) => [r])
  {
    assert files[..i + 1][..i] == files[..i];
  }

  /**
   * Exactly the files that were not skipped get a row: the table has
   * `grand_pass + grand_fail` rows.
   */
  lemma {:induction false} RowsAreTheCountedFiles(files: seq<SolutionFile>, problems: map<int, Problem>, covFiles: seq<(string, FileEntry)>)
    ensures |ExpectedRows(files, problems, covFiles)|
      == CountVerdicts(files, problems, IsPass) + CountVerdicts(files, problems, IsFail)
  {
    if files != [] {
      RowsAreTheCountedFiles(files[..|files| - 1], problems, covFiles);
    }
  }

  /**
   * A tested file's row reports its assertion counts in the Tests cell and
   * the note `interpret_result` gives for them and its coverage; the note is
   * the "no cases" one exactly when no assertion ran.
   */
  lemma TestedRowReportsCounts(sol: SolutionFile, problems: map<int, Problem>, covFiles: seq<(string, FileEntry)>)
    requires Classify(sol, problems).Tested?
    ensures var c := Classify(sol, problems).counts;
      var r := SolutionRow(sol, Classify(sol, problems), covFiles);
      var s := Summarize(FindEntry(covFiles, sol.name).1);
      && r.Some?
      && r.value.tests == TestsText(c.passed, c.total)
      && r.value.note == InterpretResult(c.passed, c.total, s.linePct, s.branch, s.brpart)
      && (c.total == 0 <==> r.value.note == NoCases)
  {
    var v := Classify(sol, problems);
    var c := v.counts;
    var s := Summarize(FindEntry(covFiles, sol.name).1);
    assert SolutionRow(sol, v, covFiles) == Some(CoverageRow(sol, covFiles, Some(c)));
    InterpretResultTable(c.passed, c.total, s.linePct, s.branch, s.brpart);
  }

  /** A solution with no coverage entry gets a zero row named by its own path. */
  lemma UncoveredSolutionRow(sol: SolutionFile, covFiles: seq<(string, FileEntry)>, counts: Option<Counts>)
    requires forall k :: 0 <= k < |covFiles| ==> !EndsWith(ReplaceBackslash(covFiles[k].0), ReplaceBackslash(sol.name))
    ensures var r := CoverageRow(sol, covFiles, counts);
      r.name == sol.path && r.stmts == 0 && r.miss == 0 && r.branch == 0 && r.brpart == 0 && r.missing == ""
  {
    var ps := Paths(covFiles);
    forall k | 0 <= k < |ps| ensures !MatchesSolution(ps[k], sol.name) {
      DirectoryTargetRedundant(ps[k], sol.name);
    }
    assert FirstMatch(ps, path => MatchesSolution(path, sol.name)).None?;
  }
}
