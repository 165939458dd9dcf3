/**
 * What humaneval_coverage_summary.py and generate_summary.py share: the
 * shape of a coverage.json file entry, the seven-way note of
 * `interpret_result`, `compress_line_ranges` and the first-match search of
 * `find_file_entry`. The two files hold identical copies of
 * `interpret_result` and `compress_line_ranges`; the parts in which they
 * differ live in CoverageSummary and GenerateSummary.
 */
module CoverageReport {
  import opened Wrappers
  import opened Text

  // ---------- coverage.json ----------

  /** The `summary` object of a file entry; an absent key is `None` (the source reads it as 0). */
  datatype Totals = Totals(
    numStatements: Option<int>,
    coveredLines: Option<int>,
    numBranches: Option<int>,
    coveredBranches: Option<int>)

  /** A missing branch arc `[from, to]`. */
  datatype Arc = Arc(source: int, target: int)

  /**
   * One value of coverage.json's `files` object. The empty dict `{}` (also
   * what `find_file_entry` returns when nothing matches) is `EmptyEntry`.
   * An absent `summary` is all-`None` totals, an absent `missing_lines` the
   * empty list; `missingBranches` is `None` for a JSON `null` and `Some([])`
   * when the key is absent.
   */
  datatype FileEntry =
    | EmptyEntry
    | FileEntry(summary: Totals, missingLines: seq<int>, missingBranches: Option<seq<Arc>>)

  /** `(stmts, miss, branch, brpart, line_percent, branch_percent, missing_lines)`, percentages as exact reals. */
  datatype Summary = Summary(
    stmts: int,
    miss: int,
    branch: int,
    brpart: nat,
    linePct: real,
    branchPct: real,
    missingLines: seq<int>)

  const EmptySummary: Summary := Summary(0, 0, 0, 0, 0.0, 0.0, [])

  /** `covered / total * 100.0 if total > 0 else 0.0` */
  function Percent(covered: int, total: int): real {
    if total > 0 then (covered as real) / (total as real) * 100.0 else 0.0
  }

  /** A percentage of a covered count within its total lies in [0, 100], and is 100 exactly when all is covered. */
  lemma PercentBounds(covered: int, total: int)
    requires 0 <= covered <= total
    ensures 0.0 <= Percent(covered, total) <= 100.0
    ensures total > 0 ==> (Percent(covered, total) == 100.0 <==> covered == total)
  {
    if total > 0 {
      var c, t := covered as real, total as real;
      assert c / t <= 1.0 by {
        assert c <= t;
      }
      if c / t * 100.0 == 100.0 {
        assert c / t == 1.0;
        assert c == t;
      }
    }
  }

  // ---------- sorted(...) ----------

  predicate Sorted(s: seq<int>) {
    forall i, j :: 0 <= i < j < |s| ==> s[i] <= s[j]
  }

  function Insert(x: int, s: seq<int>): (r: seq<int>)
    requires Sorted(s)
    ensures |r| == |s| + 1 && (r[0] == x || (s != [] && r[0] == s[0]))
    ensures Sorted(r) && multiset(r) == multiset(s) + multiset{x}
  {
    if s == [] || x <= s[0] then [x] + s
    else
      var rest := Insert(x, s[1..]);
      assert s == [s[0]] + s[1..];
      assert s[0] <= rest[0];
      [s[0]] + rest
  }

  /** `sorted(s)`: the same elements, in ascending order. */
  function SortInts(s: seq<int>): (r: seq<int>)
    ensures Sorted(r) && multiset(r) == multiset(s)
  {
    if s == [] then []
    else
      assert s == [s[0]] + s[1..];
      Insert(s[0], SortInts(s[1..]))
  }

  // ---------- interpret_result ----------

  const NoCases: string := "No HumanEval test cases executed."
  const FailingLowCoverage: string := "Many HumanEval cases failing with low line coverage \U{2013} implementation likely incomplete."
  const FailingDecentCoverage: string := "Some HumanEval cases failing despite decent coverage \U{2013} check edge cases and logic."
  const PassedHighLinesNoBranches: string := "All HumanEval cases passed with high line coverage (no branch data)."
  const PassedUntestedLinesNoBranches: string := "All HumanEval cases passed but some lines remain untested (no branch data)."
  const PassedHighLinesPartialBranches: string := "All HumanEval cases passed with high line coverage, but some branches are only partially tested."
  const PassedPartialBranches: string := "All HumanEval cases passed; consider more tests to improve branch coverage."
  const PassedStrong: string := "All HumanEval cases passed with strong line and branch coverage."

  const Notes: seq<string> := [
    NoCases, FailingLowCoverage, FailingDecentCoverage, PassedHighLinesNoBranches,
    PassedUntestedLinesNoBranches, PassedHighLinesPartialBranches, PassedPartialBranches, PassedStrong]

  /** `interpret_result`: the heuristic one-line note for a problem. */
  function InterpretResult(testsPassed: int, testsTotal: int, linePct: real, branchCount: int, brpart: int): (note: string)
    ensures note in Notes
  {
    if testsTotal == 0 then NoCases
    else if testsPassed < testsTotal then
      (if linePct < 50.0 then FailingLowCoverage else FailingDecentCoverage)
    else if branchCount == 0 then
      (if linePct >= 90.0 then PassedHighLinesNoBranches else PassedUntestedLinesNoBranches)
    else if brpart > 0 && linePct >= 90.0 then PassedHighLinesPartialBranches
    else if brpart > 0 then PassedPartialBranches
    else PassedStrong
  }

  /** The eight notes are pairwise different, so each one names exactly one row of the table. */
  lemma NotesDistinct()
    ensures forall i, j :: 0 <= i < j < |Notes| ==> Notes[i] != Notes[j]
  {
    assert |NoCases| == 33;
    assert |FailingLowCoverage| == 87;
    assert |FailingDecentCoverage| == 82;
    assert |PassedHighLinesNoBranches| == 68;
    assert |PassedUntestedLinesNoBranches| == 75 && PassedUntestedLinesNoBranches[74 - 1] == ')';
    assert |PassedHighLinesPartialBranches| == 96;
    assert |PassedPartialBranches| == 75 && PassedPartialBranches[74 - 1] == 'e';
    assert |PassedStrong| == 64;
  }

  /**
   * The decision table, in both directions: each note is returned exactly
   * when its row's conditions hold. The "no cases" note takes precedence over
   * everything else.
   */
  lemma InterpretResultTable(testsPassed: int, testsTotal: int, linePct: real, branchCount: int, brpart: int)
    ensures var n := InterpretResult(testsPassed, testsTotal, linePct, branchCount, brpart);
      && (n == NoCases <==> testsTotal == 0)
      && (n == FailingLowCoverage <==> testsTotal != 0 && testsPassed < testsTotal && linePct < 50.0)
      && (n == FailingDecentCoverage <==> testsTotal != 0 && testsPassed < testsTotal && linePct >= 50.0)
      && (n == PassedHighLinesNoBranches <==> testsTotal != 0 && testsPassed >= testsTotal && branchCount == 0 && linePct >= 90.0)
      && (n == PassedUntestedLinesNoBranches <==> testsTotal != 0 && testsPassed >= testsTotal && branchCount == 0 && linePct < 90.0)
      && (n == PassedHighLinesPartialBranches <==> testsTotal != 0 && testsPassed >= testsTotal && branchCount != 0 && brpart > 0 && linePct >= 90.0)
      && (n == PassedPartialBranches <==> testsTotal != 0 && testsPassed >= testsTotal && branchCount != 0 && brpart > 0 && linePct < 90.0)
      && (n == PassedStrong <==> testsTotal != 0 && testsPassed >= testsTotal && branchCount != 0 && brpart <= 0)
  {
    NotesDistinct();
    assert Notes[0] == NoCases && Notes[1] == FailingLowCoverage && Notes[2] == FailingDecentCoverage;
    assert Notes[3] == PassedHighLinesNoBranches && Notes[4] == PassedUntestedLinesNoBranches;
    assert Notes[5] == PassedHighLinesPartialBranches && Notes[6] == PassedPartialBranches && Notes[7] == PassedStrong;
  }

  // ---------- compress_line_ranges ----------

  /** A maximal run `lo..hi` of consecutive line numbers. */
  datatype Run = Run(lo: int, hi: int)

  /**
   * The runs of `lines` in input order: a line one above the previous one
   * extends the current run, any other line starts a new one.
   */
  function Runs(lines: seq<int>): (rs: seq<Run>)
    ensures |rs| == 0 <==> |lines| == 0
  {
    if |lines| == 0 then []
    else
      var prev := Runs(lines[..|lines| - 1]);
      var x := lines[|lines| - 1];
      if |prev| > 0 && x == prev[|prev| - 1].hi + 1 then prev[..|prev| - 1] + [Run(prev[|prev| - 1].lo, x)]
      else prev + [Run(x, x)]
  }

  /** One more line either extends the last run or opens a new one. */
  lemma RunsSnoc(pre: seq<int>, x: int, closed: seq<Run>, start: int, prev: int)
    requires Runs(pre) == closed + [Run(start, prev)]
    ensures x == prev + 1 ==> Runs(pre + [x]) == closed + [Run(start, x)]
    ensures x != prev + 1 ==> Runs(pre + [x]) == closed + [Run(start, prev), Run(x, x)]
  {
    assert (pre + [x])[..|pre|] == pre;
    var rs := Runs(pre);
    assert rs[..|rs| - 1] == closed;
  }

  /** `"a"` for a single line, `"a-b"` for a longer run. */
  function RunText(r: Run): string {
    if r.lo == r.hi then IntToString(r.lo) else IntToString(r.lo) + "-" + IntToString(r.hi)
  }

  function RunTexts(rs: seq<Run>): (ts: seq<string>)
    ensures |ts| == |rs| && forall k :: 0 <= k < |rs| ==> ts[k] == RunText(rs[k])
  {
    seq(|rs|, k requires 0 <= k < |rs| => RunText(rs[k]))
  }

  /** The text `compress_line_ranges` returns: the run texts joined by `", "`. */
  function CompressedText(lines: seq<int>): string {
    Join(RunTexts(Runs(lines)), ", ")
  }

  lemma RunTextsSnoc(rs: seq<Run>, r: Run)
    ensures RunTexts(rs + [r]) == RunTexts(rs) + [RunText(r)]
  {
  }

  /**
   * `compress_line_ranges`: walks the list keeping the current run in
   * `start`/`prev`, closing it into `ranges` when the next line does not
   * continue it, and joins the texts with `", "`.
   */
  method CompressLineRanges(lines: seq<int>) returns (s: string)
    ensures s == CompressedText(lines)
    ensures lines == [] ==> s == ""
  {
    if |lines| == 0 {
      return "";
    }
    var ranges: seq<string> := [];
    ghost var closed: seq<Run> := [];
    var start := lines[0];
    var prev := lines[0];
    assert lines[..1][..0] == [];
    assert Runs(lines[..1]) == [] + [Run(start, prev)];
    for i := 1 to |lines|
      invariant ranges == RunTexts(closed)
      invariant Runs(lines[..i]) == closed + [Run(start, prev)]
    {
      var ln := lines[i];
      assert lines[..i + 1] == lines[..i] + [ln];
      RunsSnoc(lines[..i], ln, closed, start, prev);
      if ln == prev + 1 {
        prev := ln;
      } else {
        RunTextsSnoc(closed, Run(start, prev));
        ranges := ranges + [RunText(Run(start, prev))];
        closed := closed + [Run(start, prev)];
        start, prev := ln, ln;
      }
    }
    RunTextsSnoc(closed, Run(start, prev));
    ranges := ranges + [RunText(Run(start, prev))];
    closed := closed + [Run(start, prev)];
    assert lines[..|lines|] == lines;
    s := Join(ranges, ", ");
  }

  /** The lines `lo, lo + 1, ..., hi`. */
  function Range(lo: int, hi: int): seq<int>
    decreases if hi < lo then 0 else hi - lo + 1
  {
    if hi < lo then [] else Range(lo, hi - 1) + [hi]
  }

  /** The lines the runs stand for, in order. */
  function Expand(rs: seq<Run>): seq<int> {
    if rs == [] then [] else Expand(rs[..|rs| - 1]) + Range(rs[|rs| - 1].lo, rs[|rs| - 1].hi)
  }

  lemma ExpandSnoc(rs: seq<Run>, r: Run)
    ensures Expand(rs + [r]) == Expand(rs) + Range(r.lo, r.hi)
  {
    assert (rs + [r])[..|rs|] == rs;
  }

  /** Every run is non-empty (`lo <= hi`), and no run continues the one before it. */
  predicate MaximalRuns(rs: seq<Run>) {
    && (forall k :: 0 <= k < |rs| ==> rs[k].lo <= rs[k].hi)
    && (forall k :: 0 < k < |rs| ==> rs[k].lo != rs[k - 1].hi + 1)
  }

  /** The compressed text loses nothing: the runs expand back to exactly the input lines. */
  lemma {:induction false} RunsExpandToInput(lines: seq<int>)
    ensures Expand(Runs(lines)) == lines
  {
    if |lines| > 0 {
      var init := lines[..|lines| - 1];
      var x := lines[|lines| - 1];
      assert lines == init + [x];
      RunsExpandToInput(init);
      var prev := Runs(init);
      if |prev| == 0 {
        RunsSnoc0(init, x);
        ExpandSnoc([], Run(x, x));
        RangeSnoc(x, x);
      } else {
        var closed := prev[..|prev| - 1];
        var last := prev[|prev| - 1];
        assert prev == closed + [last];
        RunsSnoc(init, x, closed, last.lo, last.hi);
        ExpandSnoc(closed, last);
        if x == last.hi + 1 {
          RunsAreMaximal(init);
          assert last.lo <= last.hi;
          ExpandSnoc(closed, Run(last.lo, x));
          RangeSnoc(last.lo, x);
          assert Expand(Runs(lines)) == Expand(closed) + (Range(last.lo, last.hi) + [x]);
        } else {
          ExpandSnoc(prev, Run(x, x));
          RangeSnoc(x, x);
        }
      }
    }
  }

  /** The first line opens the first run. */
  lemma RunsSnoc0(pre: seq<int>, x: int)
    requires Runs(pre) == []
    ensures Runs(pre + [x]) == [Run(x, x)]
  {
    assert (pre + [x])[..|pre|] == pre;
  }

  lemma RangeSnoc(lo: int, hi: int)
    requires lo <= hi
    ensures Range(lo, hi) == Range(lo, hi - 1) + [hi]
  {
  }

  /** The runs are as long as they can be: each is non-empty and none continues the one before. */
  lemma {:induction false} RunsAreMaximal(lines: seq<int>)
    ensures MaximalRuns(Runs(lines))
  {
    if |lines| > 0 {
      var init := lines[..|lines| - 1];
      var x := lines[|lines| - 1];
      assert lines == init + [x];
      RunsAreMaximal(init);
      var prev := Runs(init);
      if |prev| == 0 {
        RunsSnoc0(init, x);
      } else {
        var closed := prev[..|prev| - 1];
        var last := prev[|prev| - 1];
        assert prev == closed + [last];
        RunsSnoc(init, x, closed, last.lo, last.hi);
        if x == last.hi + 1 {
          MaximalExtend(closed, last, x);
        } else {
          MaximalOpen(prev, x);
        }
      }
    }
  }

  /** Extending the last run upwards keeps the runs maximal. */
  lemma MaximalExtend(closed: seq<Run>, last: Run, x: int)
    requires MaximalRuns(closed + [last]) && x == last.hi + 1
    ensures MaximalRuns(closed + [Run(last.lo, x)])
  {
    var rs := closed + [last];
    var rs' := closed + [Run(last.lo, x)];
    forall k | 0 <= k < |rs'|
      ensures rs'[k].lo <= rs'[k].hi
    {
      assert rs[k].lo <= rs[k].hi;
    }
    forall k | 0 < k < |rs'|
      ensures rs'[k].lo != rs'[k - 1].hi + 1
    {
      assert rs[k].lo != rs[k - 1].hi + 1;
    }
  }

  /** A line that does not continue the last run opens a new one, and the runs stay maximal. */
  lemma MaximalOpen(rs: seq<Run>, x: int)
    requires MaximalRuns(rs) && |rs| > 0 && x != rs[|rs| - 1].hi + 1
    ensures MaximalRuns(rs + [Run(x, x)])
  {
    var rs' := rs + [Run(x, x)];
    forall k | 0 <= k < |rs'|
      ensures rs'[k].lo <= rs'[k].hi
    {
      if k < |rs| {
        assert rs'[k] == rs[k];
      }
    }
    forall k | 0 < k < |rs'|
      ensures rs'[k].lo != rs'[k - 1].hi + 1
    {
      if k < |rs| {
        assert rs'[k] == rs[k] && rs'[k - 1] == rs[k - 1];
      }
    }
  }

  /** The worked example of the docstring: `[2, 3, 4, 7, 8, 10]` becomes `"2-4, 7-8, 10"`. */
  lemma CompressExample()
    ensures CompressedText([2, 3, 4, 7, 8, 10]) == "2-4, 7-8, 10"
  {
    var rs := [Run(2, 4), Run(7, 8), Run(10, 10)];
    ExampleRuns();
    ExampleTexts();
    var ts := RunTexts(rs);
    assert ts[1..] == ["7-8", "10"] && ["7-8", "10"][1..] == ["10"];
    assert Join(["10"], ", ") == "10";
    assert Join(["7-8", "10"], ", ") == "7-8, 10";
    assert Join(ts, ", ") == "2-4" + ", " + "7-8, 10";
    assert CompressedText([2, 3, 4, 7, 8, 10]) == Join(ts, ", ");
  }

  /** The texts of the example's runs. */
  lemma ExampleTexts()
    ensures RunTexts([Run(2, 4), Run(7, 8), Run(10, 10)]) == ["2-4", "7-8", "10"]
  {
    assert IntToString(2) == "2" && IntToString(4) == "4" && IntToString(7) == "7" && IntToString(8) == "8";
    assert IntToString(10) == "10" by {
      assert NatToString(10) == NatToString(1) + [DigitChar(0)];
    }
    assert RunText(Run(2, 4)) == "2" + "-" + "4" == "2-4";
    assert RunText(Run(7, 8)) == "7" + "-" + "8" == "7-8";
    assert RunText(Run(10, 10)) == "10";
  }

  /** The runs of the docstring's example. */
  lemma ExampleRuns()
    ensures Runs([2, 3, 4, 7, 8, 10]) == [Run(2, 4), Run(7, 8), Run(10, 10)]
  {
    assert [2][..0] == [];
    RunsSnoc([2], 3, [], 2, 2);
    assert [2] + [3] == [2, 3];
    RunsSnoc([2, 3], 4, [], 2, 3);
    assert [2, 3] + [4] == [2, 3, 4];
    RunsSnoc([2, 3, 4], 7, [], 2, 4);
    assert [2, 3, 4] + [7] == [2, 3, 4, 7];
    RunsSnoc([2, 3, 4, 7], 8, [Run(2, 4)], 7, 7);
    assert [2, 3, 4, 7] + [8] == [2, 3, 4, 7, 8];
    RunsSnoc([2, 3, 4, 7, 8], 10, [Run(2, 4)], 7, 8);
    assert [2, 3, 4, 7, 8] + [10] == [2, 3, 4, 7, 8, 10];
  }

  // ---------- first match ----------

  /** The index of the first path satisfying `p`, if any. */
  function FirstMatch(paths: seq<string>, p: string -> bool): (r: Option<nat>)
    ensures r.Some? ==> r.value < |paths| && p(paths[r.value]) && forall k :: 0 <= k < r.value ==> !p(paths[k])
    ensures r.None? ==> forall k :: 0 <= k < |paths| ==> !p(paths[k])
  {
    if paths == [] then None
    else if p(paths[0]) then Some(0)
    else match FirstMatch(paths[1..], p)
      case None => None
      case Some(i) => Some(i + 1)
  }

  /** The keys of a `files` object in its (JSON) order. */
  function Paths(files: seq<(string, FileEntry)>): (ps: seq<string>)
    ensures |ps| == |files| && forall k :: 0 <= k < |files| ==> ps[k] == files[k].0
  {
    seq(|files|, k requires 0 <= k < |files| => files[k].0)
  }
}
