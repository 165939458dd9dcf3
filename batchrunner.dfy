/**
 * The per-file loop of run_humaneval_openai.py's `main` (repeated in
 * humaneval_coverage_summary.py's `main`): derive the problem id from the
 * solution file name, skip unknown files, load the module, find the entry
 * point, run the official `check` on it and tally PASS/FAIL.
 *
 * Discovering the files, the dataset and importing a module are outside the
 * model: each solution file arrives with the outcome of importing it, and
 * the dataset is a map from problem id to entry-point name.
 */
module BatchRunner {
  import opened Wrappers
  import opened Text
  import opened AssertCount

  /** A dataset entry: the name of the function a solution must define. */
  datatype Problem = Problem(entryPoint: string)

  /**
   * What importing a solution file produced: an `Exception`, or the module's
   * attribute names together with how the official test behaves on it.
   */
  datatype LoadOutcome =
    | LoadError(kind: string)
    | Loaded(attributes: set<string>, setup: Setup, events: seq<Event>)

  datatype SolutionFile = SolutionFile(name: string, path: string, load: LoadOutcome)

  /** What `main` does with one file. */
  datatype Verdict =
    | SkipBadName
    | SkipNotInDataset(id: int)
    | LoadFailed(id: int, kind: string)
    | MissingEntry(id: int, entry: string)
    | Tested(id: int, counts: Counts)

  /** `int(name.split("_")[1])`, `None` where Python raises `IndexError` or `ValueError`. */
  function ProblemId(name: string): Option<int> {
    var fields := Split(name, '_');
    if |fields| < 2 then None else ParseInt(fields[1])
  }

  /** `"PASS" if failed == 0 and total > 0 else "FAIL"` */
  function Status(c: Counts): (s: string)
    ensures s == "PASS" <==> c.failed == 0 && c.total > 0
    ensures s == "PASS" || s == "FAIL"
  {
    if c.failed == 0 && c.total > 0 then "PASS" else "FAIL"
  }

  function Classify(f: SolutionFile, problems: map<int, Problem>): Verdict {
    match ProblemId(f.name)
    case None => SkipBadName
    case Some(id) =>
      if id !in problems then SkipNotInDataset(id)
      else match f.load
        case LoadError(kind) => LoadFailed(id, kind)
        case Loaded(attributes, setup, events) =>
          if problems[id].entryPoint !in attributes then MissingEntry(id, problems[id].entryPoint)
          else Tested(id, ExpectedCounts(setup, events))
  }

  predicate IsTested(v: Verdict) { v.Tested? }
  predicate IsPass(v: Verdict) { v.Tested? && Status(v.counts) == "PASS" }
  predicate IsFail(v: Verdict) { v.LoadFailed? || v.MissingEntry? || (v.Tested? && Status(v.counts) == "FAIL") }
  predicate IsSkip(v: Verdict) { v.SkipBadName? || v.SkipNotInDataset? }

  /** How many files of `files` get a verdict satisfying `p`. */
  function CountVerdicts(files: seq<SolutionFile>, problems: map<int, Problem>, p: Verdict -> bool): nat {
    if files == [] then 0
    else CountVerdicts(files[..|files| - 1], problems, p) + (if p(Classify(files[|files| - 1], problems)) then 1 else 0)
  }

  /**
   * The loop of `main`: `grand_total` counts the files whose tests ran,
   * `grand_pass` those that passed, `grand_fail` those that failed, could
   * not be imported or lack the entry point; skipped files change nothing.
   */
  method RunAll(files: seq<SolutionFile>, problems: map<int, Problem>)
    returns (grandTotal: nat, grandPass: nat, grandFail: nat)
    ensures grandTotal == CountVerdicts(files, problems, IsTested)
    ensures grandPass == CountVerdicts(files, problems, IsPass)
    ensures grandFail == CountVerdicts(files, problems, IsFail)
  {
    grandTotal, grandPass, grandFail := 0, 0, 0;
    for i := 0 to |files|
      invariant grandTotal == CountVerdicts(files[..i], problems, IsTested)
      invariant grandPass == CountVerdicts(files[..i], problems, IsPass)
      invariant grandFail == CountVerdicts(files[..i], problems, IsFail)
    {
      var v := ClassifyFile(files[i], problems);
      var tested, passed, failed := Tally(v);
      CountStep(files, i, problems, IsTested);
      assert CountVerdicts(files[..i + 1], problems, IsTested) == grandTotal + tested;
      CountStep(files, i, problems, IsPass);
      assert CountVerdicts(files[..i + 1], problems, IsPass) == grandPass + passed;
      CountStep(files, i, problems, IsFail);
      assert CountVerdicts(files[..i + 1], problems, IsFail) == grandFail + failed;
      grandTotal := grandTotal + tested;
      grandPass := grandPass + passed;
      grandFail := grandFail + failed;
    }
    assert files[..|files|] == files;
  }

  /**
   * The checks `main` makes on one file, in order: a name without an id and
   * an id outside the dataset skip it, an import error or a missing entry
   * point fail it, and otherwise the official `check` runs on the entry point.
   */
  method ClassifyFile(sol: SolutionFile, problems: map<int, Problem>) returns (v: Verdict)
    ensures v == Classify(sol, problems)
  {
    var pid := ProblemId(sol.name);
    if pid.None? {
      return SkipBadName;
    }
    var problemId := pid.value;
    if problemId !in problems {
      return SkipNotInDataset(problemId);
    }
    var entry := problems[problemId].entryPoint;
    if sol.load.LoadError? {
      return LoadFailed(problemId, sol.load.kind);
    }
    if entry !in sol.load.attributes {
      return MissingEntry(problemId, entry);
    }
    var counts := RunCheckAndCountAsserts(sol.load.setup, sol.load.events);
    return Tested(problemId, counts);
  }

  /**
   * What one verdict adds to `grand_total`, `grand_pass` and `grand_fail`:
   * one for each count it belongs to, so a skipped file adds nothing.
   */
  method Tally(v: Verdict) returns (tested: nat, passed: nat, failed: nat)
    ensures tested == (if IsTested(v) then 1 else 0)
    ensures passed == (if IsPass(v) then 1 else 0)
    ensures failed == (if IsFail(v) then 1 else 0)
    ensures IsSkip(v) ==> tested == passed == failed == 0
  {
    tested, passed, failed := 0, 0, 0;
    if v.Tested? {
      var status := Status(v.counts);
      tested := 1;
      passed := if status == "PASS" then 1 else 0;
      failed := if status == "FAIL" then 1 else 0;
    } else if v.LoadFailed? || v.MissingEntry? {
      failed := 1;
    }
  }

  /** Extending the processed prefix by one file adds that file's verdict to each count. */
  lemma CountStep(files: seq<SolutionFile>, i: nat, problems: map<int, Problem>, p: Verdict -> bool)
    requires i < |files|
    ensures CountVerdicts(files[..i + 1], problems, p)
      == CountVerdicts(files[..i], problems, p) + (if p(Classify(files[i], problems)) then 1 else 0)
  {
    assert files[..i + 1][..i] == files[..i];
  }

  /**
   * Every file is exactly one of: skipped, passed, failed; and only tested
   * files reach `grand_total`, so `grand_pass <= grand_total`.
   */
  lemma {:induction false} TallyPartition(files: seq<SolutionFile>, problems: map<int, Problem>)
    ensures CountVerdicts(files, problems, IsSkip) + CountVerdicts(files, problems, IsPass)
      + CountVerdicts(files, problems, IsFail) == |files|
    ensures CountVerdicts(files, problems, IsPass) <= CountVerdicts(files, problems, IsTested)
    ensures CountVerdicts(files, problems, IsTested) <= CountVerdicts(files, problems, IsPass) + CountVerdicts(files, problems, IsFail)
  {
    if files != [] {
      TallyPartition(files[..|files| - 1], problems);
    }
  }

  /** A file whose name yields no id, or whose id is not in the dataset, leaves every counter as it was. */
  lemma SkippedFileChangesNothing(files: seq<SolutionFile>, f: SolutionFile, problems: map<int, Problem>)
    requires ProblemId(f.name).None? || ProblemId(f.name).value !in problems
    ensures CountVerdicts(files + [f], problems, IsTested) == CountVerdicts(files, problems, IsTested)
    ensures CountVerdicts(files + [f], problems, IsPass) == CountVerdicts(files, problems, IsPass)
    ensures CountVerdicts(files + [f], problems, IsFail) == CountVerdicts(files, problems, IsFail)
  {
    assert (files + [f])[..|files|] == files;
  }

  /** A load error or a missing entry point adds one to `grand_fail` and nothing to `grand_total`. */
  lemma LoadOrEntryFailureCountsAsFail(files: seq<SolutionFile>, f: SolutionFile, problems: map<int, Problem>)
    requires ProblemId(f.name).Some? && ProblemId(f.name).value in problems
    requires f.load.LoadError? || problems[ProblemId(f.name).value].entryPoint !in f.load.attributes
    ensures CountVerdicts(files + [f], problems, IsTested) == CountVerdicts(files, problems, IsTested)
    ensures CountVerdicts(files + [f], problems, IsPass) == CountVerdicts(files, problems, IsPass)
    ensures CountVerdicts(files + [f], problems, IsFail) == CountVerdicts(files, problems, IsFail) + 1
  {
    assert (files + [f])[..|files|] == files;
  }

  /** A test module that fails to import, or defines no `check`, always gives status FAIL. */
  lemma SetupFailureIsFail(setup: Setup, events: seq<Event>)
    requires !setup.CheckDefined?
    ensures Status(ExpectedCounts(setup, events)) == "FAIL"
  {
  }

  /** The conventional name `humaneval_<id>_openai_attempt_001_base.py` yields its id back. */
  lemma ProblemIdOfSolutionName(id: nat)
    ensures ProblemId("humaneval_" + NatToString(id) + "_openai_attempt_001_base.py") == Some(id)
  {
    var d := NatToString(id);
    var rest := "openai_attempt_001_base.py";
    var name := "humaneval_" + d + "_openai_attempt_001_base.py";
    assert name == "humaneval" + ['_'] + (d + ['_'] + rest);
    SplitAtFirst("humaneval", d + ['_'] + rest, '_');
    assert '_' !in d by {
      forall k | 0 <= k < |d| ensures d[k] != '_' { assert IsDigit(d[k]); }
    }
    SplitAtFirst(d, rest, '_');
    var fields := Split(name, '_');
    assert fields == ["humaneval"] + ([d] + Split(rest, '_'));
    assert fields[1] == d;
    assert IntToString(id) == d;
    ParseIntToString(id);
  }
}
