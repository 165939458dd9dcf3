/**
 * generate_summary.py: the per-problem table built offline from two JSON
 * files, the per-problem assertion counts the pytest hook wrote and
 * coverage.json. Its coverage lookup takes a single file-name suffix, and it
 * derives branch coverage from the missing arcs instead of coverage.py's
 * covered-branch count; a file without branches shows `"0%"`.
 *
 * Both files arrive already parsed: the stats file as its list of
 * `(key, stats)` pairs in file order, coverage.json as its list of `files`
 * entries. Reading them, and the missing-file errors, are outside the model.
 */
module GenerateSummary {
  import opened Wrappers
  import opened Text
  import opened CoverageReport
  import opened SummaryTable
  import CoverageSummary

  /** One value of humaneval_test_stats.json; an absent key is `None` (read as 0). */
  datatype RawStats = RawStats(total: Option<int>, passed: Option<int>, failed: Option<int>)

  datatype Stats = Stats(total: int, passed: int, failed: int)

  function ToStats(r: RawStats): Stats {
    Stats(r.total.GetOr(0), r.passed.GetOr(0), r.failed.GetOr(0))
  }

  /**
   * The dict the loop of `load_test_stats` builds when keys are read with
   * `key`: every key that `key` accepts maps to its stats with absent fields
   * as 0; other keys are dropped, and a later key with the same id replaces
   * an earlier one.
   */
  function ParsedStatsBy(raw: seq<(string, RawStats)>, key: string -> Option<int>): map<int, Stats> {
    if raw == [] then map[]
    else
      var init := ParsedStatsBy(raw[..|raw| - 1], key);
      var (k, stats) := raw[|raw| - 1];
      match key(k)
      case None => init
      case Some(pid) => init[pid := ToStats(stats)]
  }

  /** The dict `load_test_stats` returns: keys read with `int()`. */
  function ParsedStats(raw: seq<(string, RawStats)>): map<int, Stats> {
    ParsedStatsBy(raw, ParseInt)
  }

  /** `load_test_stats`, after reading the file. */
  method LoadTestStats(raw: seq<(string, RawStats)>) returns (parsed: map<int, Stats>)
    ensures parsed == ParsedStats(raw)
  {
    parsed := map[];
    for i := 0 to |raw|
      invariant parsed == ParsedStatsBy(raw[..i], ParseInt)
    {
      assert raw[..i + 1][..i] == raw[..i];
      var (pidStr, stats) := raw[i];
      var pid := ParseInt(pidStr);
      if pid.None? {
        continue;
      }
      parsed := parsed[pid.value := ToStats(stats)];
    }
    assert raw[..|raw|] == raw;
  }

  /**
   * Which problems are kept: an id is a key of the dict exactly when some
   * entry's key reads as that id (for `ParsedStats`, `int()` of the key).
   */
  lemma {:induction false} ParsedStatsKeys(raw: seq<(string, RawStats)>, key: string -> Option<int>, pid: int)
    ensures pid in ParsedStatsBy(raw, key) <==> exists i :: 0 <= i < |raw| && key(raw[i].0) == Some(pid)
  {
    if raw != [] {
      var init := raw[..|raw| - 1];
      var last := |raw| - 1;
      ParsedStatsKeys(init, key, pid);
      if pid in ParsedStatsBy(raw, key) {
        if key(raw[last].0) != Some(pid) {
          assert pid in ParsedStatsBy(init, key);
          var i :| 0 <= i < |init| && key(init[i].0) == Some(pid);
          assert init[i] == raw[i];
        }
      } else {
        forall i | 0 <= i < |raw| ensures key(raw[i].0) != Some(pid) {
          if i < last {
            assert init[i] == raw[i];
          }
        }
      }
    }
  }

  /** A kept problem has the stats of the last entry whose key reads as its id. */
  lemma {:induction false} ParsedStatsLastWins(raw: seq<(string, RawStats)>, key: string -> Option<int>, pid: int, i: nat)
    requires i < |raw| && key(raw[i].0) == Some(pid)
    requires forall j :: i < j < |raw| ==> key(raw[j].0) != Some(pid)
    ensures pid in ParsedStatsBy(raw, key) && ParsedStatsBy(raw, key)[pid] == ToStats(raw[i].1)
  {
    var init := raw[..|raw| - 1];
    if i < |raw| - 1 {
      assert init[i] == raw[i];
      ParsedStatsLastWins(init, key, pid, i);
      assert key(raw[|raw| - 1].0) != Some(pid);
    }
  }

  /** The slash-normalised path ends with the slash-normalised suffix. */
  predicate MatchesSuffix(path: string, suffix: string) {
    EndsWith(ReplaceBackslash(path), ReplaceBackslash(suffix))
  }

  /** The first `(path, entry)` whose path matches the suffix, or `("", {})`. */
  function FindEntry(files: seq<(string, FileEntry)>, suffix: string): (string, FileEntry) {
    match FirstMatch(Paths(files), path => MatchesSuffix(path, suffix))
    case None => ("", EmptyEntry)
    case Some(k) => files[k]
  }

  /** `find_file_entry`: returns at the first path ending with the normalised suffix. */
  method FindFileEntry(files: seq<(string, FileEntry)>, suffix: string) returns (path: string, entry: FileEntry)
    ensures (path, entry) == FindEntry(files, suffix)
    ensures (path == "" && entry == EmptyEntry) || exists k :: 0 <= k < |files| && files[k] == (path, entry)
  {
    var normSuffix := ReplaceBackslash(suffix);
    for i := 0 to |files|
      invariant forall k :: 0 <= k < i ==> !MatchesSuffix(files[k].0, suffix)
    {
      if EndsWith(ReplaceBackslash(files[i].0), normSuffix) {
        FoundFirst(files, suffix, i);
        return files[i].0, files[i].1;
      }
    }
    NoneFound(files, suffix);
    return "", EmptyEntry;
  }

  lemma FoundFirst(files: seq<(string, FileEntry)>, suffix: string, i: nat)
    requires i < |files| && MatchesSuffix(files[i].0, suffix)
    requires forall k :: 0 <= k < i ==> !MatchesSuffix(files[k].0, suffix)
    ensures FindEntry(files, suffix) == files[i]
  {
    var p := (q: string) => MatchesSuffix(q, suffix);
    var ps := Paths(files);
    assert p(ps[i]);
    assert forall k :: 0 <= k < i ==> !p(ps[k]);
    CoverageSummary.FirstMatchIsFirst(ps, p, i);
  }

  lemma NoneFound(files: seq<(string, FileEntry)>, suffix: string)
    requires forall k :: 0 <= k < |files| ==> !MatchesSuffix(files[k].0, suffix)
    ensures FindEntry(files, suffix) == ("", EmptyEntry)
  {
    var p := (q: string) => MatchesSuffix(q, suffix);
    var ps := Paths(files);
    assert forall k :: 0 <= k < |ps| ==> !p(ps[k]);
  }

  /**
   * The two lookups agree: for a solution file name, the directory-or-name
   * match of humaneval_coverage_summary.py finds the same entry as this
   * single-suffix match.
   */
  lemma LookupsAgree(files: seq<(string, FileEntry)>, name: string)
    ensures FindEntry(files, name) == CoverageSummary.FindEntry(files, name)
  {
    var p := (q: string) => MatchesSuffix(q, name);
    var p2 := (q: string) => CoverageSummary.MatchesSolution(q, name);
    var ps := Paths(files);
    forall k | 0 <= k < |ps| ensures p(ps[k]) == p2(ps[k]) {
      CoverageSummary.DirectoryTargetRedundant(ps[k], name);
    }
    SameFirstMatch(ps, p, p2);
  }

  lemma {:induction false} SameFirstMatch(paths: seq<string>, p: string -> bool, q: string -> bool)
    requires forall k :: 0 <= k < |paths| ==> p(paths[k]) == q(paths[k])
    ensures FirstMatch(paths, p) == FirstMatch(paths, q)
  {
    if paths != [] {
      assert p(paths[0]) == q(paths[0]);
      SameFirstMatch(paths[1..], p, q);
    }
  }

  /**
   * `summarize_pytest_cov_style` of this file: as in
   * humaneval_coverage_summary.py, except that a `null` list of missing arcs
   * counts as none and the branch percentage is `(branches - brpart) /
   * branches`.
   */
  function Summarize(e: FileEntry): (s: Summary)
    ensures e.EmptyEntry? ==> s == EmptySummary
    ensures s.miss >= 0 && Sorted(s.missingLines)
    ensures e.FileEntry? ==> multiset(s.missingLines) == multiset(e.missingLines)
  {
    match e
    case EmptyEntry => EmptySummary
    case FileEntry(summary, missingLines, missingBranches) =>
      var stmts := summary.numStatements.GetOr(0);
      var coveredLines := summary.coveredLines.GetOr(0);
      var numBranches := summary.numBranches.GetOr(0);
      var brpart := |missingBranches.GetOr([])|;
      Summary(
        stmts,
        if stmts - coveredLines > 0 then stmts - coveredLines else 0,
        numBranches,
        brpart,
        Percent(coveredLines, stmts),
        Percent(numBranches - brpart, numBranches),
        SortInts(missingLines))
  }

  /**
   * The two summaries agree on everything but the branch percentage, and on
   * that too exactly when coverage.py's covered-branch count equals the
   * number of branches minus the missing arcs.
   */
  lemma SummariesAgree(e: FileEntry)
    ensures var s, t := Summarize(e), CoverageSummary.Summarize(e);
      && s.(branchPct := 0.0) == t.(branchPct := 0.0)
      && (e.FileEntry? && e.summary.numBranches.GetOr(0) > 0 ==>
            (s.branchPct == t.branchPct
             <==> e.summary.coveredBranches.GetOr(0) == e.summary.numBranches.GetOr(0) - s.brpart))
  {
    if e.FileEntry? && e.summary.numBranches.GetOr(0) > 0 {
      var nb := e.summary.numBranches.GetOr(0) as real;
      var a := (e.summary.numBranches.GetOr(0) - Summarize(e).brpart) as real;
      var b := e.summary.coveredBranches.GetOr(0) as real;
      assert a / nb * 100.0 == b / nb * 100.0 <==> a == b by {
        if a / nb * 100.0 == b / nb * 100.0 {
          assert a / nb == b / nb;
          assert a == a / nb * nb && b == b / nb * nb;
        }
      }
    }
  }

  /** With at most as many missing arcs as branches, the branch percentage lies in [0, 100] and is 100 exactly when no arc is missing. */
  lemma BranchPercentBounds(e: FileEntry)
    requires e.FileEntry? && Summarize(e).brpart <= e.summary.numBranches.GetOr(0)
    ensures var s := Summarize(e);
      && 0.0 <= s.branchPct <= 100.0
      && (s.branch > 0 ==> (s.branchPct == 100.0 <==> s.brpart == 0))
  {
    var s := Summarize(e);
    PercentBounds(s.branch - s.brpart, s.branch);
  }

  /** Branch percentage shown for a file without branches. */
  const NoBranchCell: string := "0%"

  /** `f"humaneval_{pid}_openai_attempt_001_base.py"` */
  function SolutionFileName(pid: int): string {
    "humaneval_" + IntToString(pid) + "_openai_attempt_001_base.py"
  }

  /** The row `main` appends for problem `pid`. */
  function ProblemRow(pid: int, stats: Stats, covFiles: seq<(string, FileEntry)>): Row {
    var fname := SolutionFileName(pid);
    var (path, entry) := FindEntry(covFiles, fname);
    var s := Summarize(entry);
    Row(if path != "" then path else fname, s.stmts, s.miss, s.branch, s.brpart, s.linePct, s.branchPct,
        CompressedText(s.missingLines), TestsText(stats.passed, stats.total),
        InterpretResult(stats.passed, stats.total, s.linePct, s.branch, s.brpart))
  }

  predicate StrictlySorted(s: seq<int>) {
    forall i, j :: 0 <= i < j < |s| ==> s[i] < s[j]
  }

  /** `x` added to an ascending list of distinct ids, unless already there. */
  function InsertId(x: int, s: seq<int>): (r: seq<int>)
    requires StrictlySorted(s)
    ensures StrictlySorted(r) && forall y :: y in r <==> y in s || y == x
  {
    if s == [] then [x]
    else if x < s[0] then [x] + s
    else if x == s[0] then s
    else
      var rest := InsertId(x, s[1..]);
      assert forall y :: y in s <==> y == s[0] || y in s[1..];
      assert forall k :: 0 <= k < |rest| ==> s[0] < rest[k] by {
        forall k | 0 <= k < |rest| ensures s[0] < rest[k] {
          assert rest[k] in rest;
          if rest[k] != x {
            var j :| 0 <= j < |s[1..]| && s[1..][j] == rest[k];
            assert s[j + 1] == rest[k];
          }
        }
      }
      [s[0]] + rest
  }

  /**
   * `sorted(test_stats.keys())`: the problem ids of the stats file in
   * ascending order, each once. The ids are gathered from the entries whose
   * key `int()` accepts, which are exactly the keys of the parsed dict.
   */
  method SortedIds(raw: seq<(string, RawStats)>) returns (ids: seq<int>)
    ensures StrictlySorted(ids)
    ensures forall pid :: pid in ids <==> pid in ParsedStats(raw)
  {
    ids := [];
    for i := 0 to |raw|
      invariant StrictlySorted(ids)
      invariant forall pid :: pid in ids <==> pid in ParsedStatsBy(raw[..i], ParseInt)
    {
      assert raw[..i + 1][..i] == raw[..i];
      var pid := ParseInt(raw[i].0);
      if pid.Some? {
        ids := InsertId(pid.value, ids);
      }
    }
    assert raw[..|raw|] == raw;
  }

  /** The body of `main`'s loop: look up, summarise and annotate problem `pid`. */
  method BuildRow(pid: int, st: Stats, covFiles: seq<(string, FileEntry)>) returns (row: Row)
    ensures row == ProblemRow(pid, st, covFiles)
  {
    var fname := SolutionFileName(pid);
    var path, entry := FindFileEntry(covFiles, fname);
    var s := Summarize(entry);
    var missing := CompressLineRanges(s.missingLines);
    var note := InterpretResult(st.passed, st.total, s.linePct, s.branch, s.brpart);
    row := Row(if path != "" then path else fname, s.stmts, s.miss, s.branch, s.brpart,
               s.linePct, s.branchPct, missing, TestsText(st.passed, st.total), note);
  }

  /** The rows of the problems `ids`, in that order. */
  function ProblemRows(ids: seq<int>, stats: map<int, Stats>, covFiles: seq<(string, FileEntry)>): (rows: seq<Row>)
    requires forall pid :: pid in ids ==> pid in stats
    ensures |rows| == |ids|
  {
    if ids == [] then []
    else ProblemRows(ids[..|ids| - 1], stats, covFiles) + [ProblemRow(ids[|ids| - 1], stats[ids[|ids| - 1]], covFiles)]
  }

  /** Row `i` of `ProblemRows` is the row of problem `ids[i]`. */
  lemma {:induction false} ProblemRowsAt(ids: seq<int>, stats: map<int, Stats>, covFiles: seq<(string, FileEntry)>, i: nat)
    requires forall pid :: pid in ids ==> pid in stats
    requires i < |ids|
    ensures ProblemRows(ids, stats, covFiles)[i] == ProblemRow(ids[i], stats[ids[i]], covFiles)
  {
    if i < |ids| - 1 {
      ProblemRowsAt(ids[..|ids| - 1], stats, covFiles, i);
    }
  }

  /**
   * `main`: one row per problem of the stats file, in ascending id order,
   * then the table of SummaryTable with `"0%"` for files without branches.
   */
  method GenerateTable(raw: seq<(string, RawStats)>, covFiles: seq<(string, FileEntry)>, fmt: real -> string)
    returns (ids: seq<int>, rows: seq<Row>, lines: seq<string>)
    ensures StrictlySorted(ids) && (forall pid :: pid in ParsedStats(raw) <==> pid in ids)
    ensures rows == ProblemRows(ids, ParsedStats(raw), covFiles)
    ensures rows == [] ==> lines == []
    ensures rows != [] ==> |lines| == |rows| + 2 && lines[0] == HeaderLine(Widths(rows, fmt)) && lines[1] == Repeat('-', |lines[0]|)
    ensures forall i :: 0 <= i < |rows| && rows != [] ==> lines[i + 2] == RowLine(rows[i], Widths(rows, fmt), fmt, NoBranchCell)
  {
    var stats := LoadTestStats(raw);
    ids := SortedIds(raw);
    rows := BuildRows(ids, stats, covFiles);
    lines := TableLines(rows, fmt, NoBranchCell);
  }

  /** `main`'s loop over the sorted ids: one row each, in order. */
  method BuildRows(ids: seq<int>, stats: map<int, Stats>, covFiles: seq<(string, FileEntry)>) returns (rows: seq<Row>)
    requires forall pid :: pid in ids ==> pid in stats
    ensures rows == ProblemRows(ids, stats, covFiles)
  {
    rows := [];
    for i := 0 to |ids|
      invariant rows == ProblemRows(ids[..i], stats, covFiles)
    {
      var row := BuildRow(ids[i], stats[ids[i]], covFiles);
      ProblemRowsStep(ids, stats, covFiles, i);
      rows := rows + [row];
    }
    assert ids[..|ids|] == ids;
  }

  lemma ProblemRowsStep(ids: seq<int>, stats: map<int, Stats>, covFiles: seq<(string, FileEntry)>, i: nat)
    requires forall pid :: pid in ids ==> pid in stats
    requires i < |ids|
    ensures ProblemRows(ids[..i + 1], stats, covFiles) == ProblemRows(ids[..i], stats, covFiles) + [ProblemRow(ids[i], stats[ids[i]], covFiles)]
  {
    assert ids[..i + 1][..i] == ids[..i];
  }
}
