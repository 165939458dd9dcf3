/**
 * convergence.py: the test-generation feedback loop for one problem. Each
 * round shows the model the earlier rounds' test files (within a character
 * budget) and a hint taken from the previous coverage report, writes the
 * model's tests to a numbered file, reads line and branch percentages from
 * the coverage XML and records them.
 *
 * The model's replies, the coverage XML root attributes and the text of
 * `coverage report -m` are parameters; the tests directory is a list of
 * `(name, contents)` files that the loop itself extends.
 */
module Convergence {
  import opened Wrappers
  import opened Text

  const Iterations: nat := 3
  const PriorTestsCharBudget: nat := 6000

  /** The solution file the loop measures (`SOL_PATH.name`). */
  const SolutionFileName: string := "humaneval_106_openai_attempt_001_base.py"

  datatype TestFile = TestFile(name: string, contents: string)

  // ---------- test files ----------

  /** The part of a test file name before the round number. */
  const TestFilePrefix: string := "test_humaneval_106_llm_iter_"

  /** `f"test_humaneval_{PROBLEM_ID}_llm_iter_{i:02d}.py"` */
  function TestFileName(i: nat): string {
    TestFilePrefix + TwoDigits(i) + ".py"
  }

  /** `preamble.rstrip() + "\n\n" + tests.strip() + "\n"` */
  function TestFileContent(preamble: string, tests: string): string {
    RStrip(preamble) + "\n\n" + Strip(tests) + "\n"
  }

  /**
   * The written file keeps both halves apart: it is the right-trimmed
   * preamble, a blank line, the trimmed tests and a final newline, so the
   * tests can be cut back out.
   */
  lemma TestFileContentParts(preamble: string, tests: string)
    ensures var c, p, t := TestFileContent(preamble, tests), RStrip(preamble), Strip(tests);
      && |c| == |p| + |t| + 3
      && c[..|p|] == p
      && c[|p|..|p| + 2] == "\n\n"
      && c[|p| + 2..|c| - 1] == t
      && c[|c| - 1] == '\n'
  {
    var c, p, t := TestFileContent(preamble, tests), RStrip(preamble), Strip(tests);
    assert c == p + "\n\n" + t + "\n";
  }

  /** `TESTS_DIR.glob("test_humaneval_106_llm_iter_*.py")` on one name. */
  predicate MatchesTestGlob(name: string) {
    |name| >= |TestFilePrefix| + 3 && StartsWith(name, TestFilePrefix) && EndsWith(name, ".py")
  }

  /** Every round's file is found by the later rounds' listing. */
  lemma TestFileNameMatchesGlob(i: nat)
    ensures MatchesTestGlob(TestFileName(i))
  {
    var n := TestFileName(i);
    assert n == TestFilePrefix + (TwoDigits(i) + ".py");
    assert n[|n| - 3..] == ".py";
    assert n[..|TestFilePrefix|] == TestFilePrefix;
  }

  /** `name.endswith(f"{current_iter_idx:02d}.py")`: the file the current round is about to write. */
  predicate SkippedFor(name: string, current: nat) {
    EndsWith(name, TwoDigits(current) + ".py")
  }

  /**
   * For rounds below 100 the skip test singles out exactly the current
   * round's own file: every other round's file, earlier or later, is shown.
   */
  lemma OnlyOwnRoundSkipped(i: nat, current: nat)
    requires i < 100 && current < 100
    ensures SkippedFor(TestFileName(i), current) <==> i == current
  {
    var n := TestFileName(i);
    var d, e := TwoDigits(i), TwoDigits(current);
    assert n == TestFilePrefix + (d + ".py");
    if SkippedFor(n, current) {
      assert n[|n| - 5..] == e + ".py";
      assert n[|n| - 5..] == d + ".py";
      assert d == (d + ".py")[..2] == (e + ".py")[..2] == e;
    }
  }

  // ---------- sorted(...) of the listing ----------

  /** The files of the directory that the glob matches, in directory order. */
  function Listing(dir: seq<TestFile>): seq<TestFile> {
    if dir == [] then []
    else if MatchesTestGlob(dir[0].name) then [dir[0]] + Listing(dir[1..])
    else Listing(dir[1..])
  }

  /** The listing holds exactly the directory's files that the glob matches. */
  lemma {:induction false} ListingContents(dir: seq<TestFile>, f: TestFile)
    ensures f in Listing(dir) <==> f in dir && MatchesTestGlob(f.name)
  {
    if dir != [] {
      ListingContents(dir[1..], f);
      assert f in dir <==> f == dir[0] || f in dir[1..];
    }
  }

  /** Code-point order on names, as Python compares strings. */
  predicate NameLe(a: string, b: string) {
    if a == [] then true
    else if b == [] then false
    else if a[0] != b[0] then a[0] < b[0]
    else NameLe(a[1..], b[1..])
  }

  lemma {:induction false} NameLeTotal(a: string, b: string)
    ensures NameLe(a, b) || NameLe(b, a)
  {
    if a != [] && b != [] && a[0] == b[0] {
      NameLeTotal(a[1..], b[1..]);
    }
  }

  predicate SortedByName(fs: seq<TestFile>) {
    forall i, j :: 0 <= i < j < |fs| ==> NameLe(fs[i].name, fs[j].name)
  }

  /** Insertion of one file into a list, before the first file whose name it does not exceed. */
  function InsertByName(f: TestFile, fs: seq<TestFile>): seq<TestFile> {
    if fs == [] || NameLe(f.name, fs[0].name) then [f] + fs
    else [fs[0]] + InsertByName(f, fs[1..])
  }

  /** Into a sorted list, insertion keeps it sorted and adds exactly the one file. */
  lemma {:induction false} InsertByNameSorted(f: TestFile, fs: seq<TestFile>)
    requires SortedByName(fs)
    ensures var r := InsertByName(f, fs);
      && |r| == |fs| + 1 && (r[0] == f || (fs != [] && r[0] == fs[0]))
      && SortedByName(r) && multiset(r) == multiset(fs) + multiset{f}
  {
    if fs == [] || NameLe(f.name, fs[0].name) {
      assert forall k :: 0 <= k < |fs| ==> NameLe(f.name, fs[k].name) by {
        if fs != [] { LeTrans(f.name, fs[0].name, fs); }
      }
      SortedCons(f, fs);
    } else {
      var rest := InsertByName(f, fs[1..]);
      assert fs == [fs[0]] + fs[1..];
      InsertByNameSorted(f, fs[1..]);
      NameLeTotal(f.name, fs[0].name);
      assert NameLe(fs[0].name, rest[0].name);
      LeTrans(fs[0].name, rest[0].name, rest);
      SortedCons(fs[0], rest);
    }
  }

  /** A file no later than any file of a sorted list goes in front of it. */
  lemma SortedCons(g: TestFile, fs: seq<TestFile>)
    requires SortedByName(fs) && forall k :: 0 <= k < |fs| ==> NameLe(g.name, fs[k].name)
    ensures SortedByName([g] + fs)
  {
    var r := [g] + fs;
    forall i, j | 0 <= i < j < |r| ensures NameLe(r[i].name, r[j].name) {
      assert r[j] == fs[j - 1];
      if i > 0 {
        assert r[i] == fs[i - 1];
      }
    }
  }

  /** A name below the head of a sorted list is below all of it. */
  lemma LeTrans(a: string, b: string, fs: seq<TestFile>)
    requires SortedByName(fs) && fs != [] && b == fs[0].name && NameLe(a, b)
    ensures forall k :: 0 <= k < |fs| ==> NameLe(a, fs[k].name)
  {
    forall k | 0 <= k < |fs| ensures NameLe(a, fs[k].name) {
      if k > 0 {
        NameLeTransitive(a, b, fs[k].name);
      }
    }
  }

  lemma {:induction false} NameLeTransitive(a: string, b: string, c: string)
    requires NameLe(a, b) && NameLe(b, c)
    ensures NameLe(a, c)
  {
    if a != [] && b != [] && c != [] && a[0] == b[0] && b[0] == c[0] {
      NameLeTransitive(a[1..], b[1..], c[1..]);
    }
  }

  /** `sorted(files)`: insertion sort by name. */
  function SortByName(fs: seq<TestFile>): seq<TestFile> {
    if fs == [] then [] else InsertByName(fs[0], SortByName(fs[1..]))
  }

  /** The sorted listing is sorted by name and holds the same files. */
  lemma {:induction false} SortByNameSorted(fs: seq<TestFile>)
    ensures SortedByName(SortByName(fs)) && multiset(SortByName(fs)) == multiset(fs)
  {
    if fs != [] {
      SortByNameSorted(fs[1..]);
      InsertByNameSorted(fs[0], SortByName(fs[1..]));
      assert fs == [fs[0]] + fs[1..];
    }
  }

  // ---------- collect_prior_tests_text ----------

  const TruncationMark: string := "\n# ... (truncated)\n"
  const NoPriorTests: string := "None"

  /**
   * What a text-mode read gives back (universal newlines): every `"\r\n"`
   * and every other `'\r'` reads as one `'\n'`; all else is kept.
   */
  function ReadText(s: string): (r: string)
    ensures |r| <= |s|
    ensures '\r' !in r
  {
    if s == [] then []
    else if s[0] == '\r' then "\n" + ReadText(if |s| > 1 && s[1] == '\n' then s[2..] else s[1..])
    else [s[0]] + ReadText(s[1..])
  }

  /** Text without a carriage return reads back exactly as written. */
  lemma {:induction false} ReadTextPlain(s: string)
    requires '\r' !in s
    ensures ReadText(s) == s
  {
    if s != [] {
      assert '\r' !in s[1..] by {
        forall i | 0 <= i < |s[1..]| ensures s[1..][i] != '\r' {
          assert s[1..][i] == s[i + 1];
        }
      }
      ReadTextPlain(s[1..]);
    }
  }

  /** Reading a text that was read once changes nothing more. */
  lemma ReadTextIdempotent(s: string)
    ensures ReadText(ReadText(s)) == ReadText(s)
  {
    ReadTextPlain(ReadText(s));
  }

  /** `f"# {f.name}\n" + f.read_text()`: the contents come back newline-normalised. */
  function Header(f: TestFile): string {
    "# " + f.name + "\n" + ReadText(f.contents)
  }

  function SumLen(parts: seq<string>): nat {
    if parts == [] then 0 else |parts[0]| + SumLen(parts[1..])
  }

  /**
   * The texts the loop collects from `files` once `total` characters are
   * used: skipped files contribute nothing; a text that fits is taken whole;
   * the first that does not fit ends the walk, cut to the remaining budget
   * plus a truncation mark if more than 200 characters remain. Altogether
   * the texts never exceed the remaining budget by more than the mark.
   */
  function PriorParts(files: seq<TestFile>, current: nat, total: nat): (parts: seq<string>)
    requires total <= PriorTestsCharBudget
    ensures SumLen(parts) <= PriorTestsCharBudget - total + |TruncationMark|
  {
    if files == [] then []
    else if SkippedFor(files[0].name, current) then PriorParts(files[1..], current, total)
    else
      var t := Header(files[0]);
      if total + |t| > PriorTestsCharBudget then
        var remaining := PriorTestsCharBudget - total;
        if remaining > 200 then [t[..remaining] + TruncationMark] else []
      else [t] + PriorParts(files[1..], current, total + |t|)
  }

  /** The text of `collect_prior_tests_text` for an already sorted listing. */
  function PriorTestsText(files: seq<TestFile>, current: nat): string {
    var parts := PriorParts(files, current, 0);
    if parts == [] then NoPriorTests else Join(parts, "\n\n")
  }

  /**
   * `collect_prior_tests_text`: lists the test files by name and walks them,
   * accumulating texts and their total length, skipping the current round's
   * file and stopping at the first text over budget.
   */
  method CollectPriorTestsText(dir: seq<TestFile>, current: nat) returns (text: string)
    ensures text == PriorTestsText(SortByName(Listing(dir)), current)
  {
    var texts := CollectParts(SortByName(Listing(dir)), current);
    if texts == [] {
      return NoPriorTests;
    }
    return Join(texts, "\n\n");
  }

  /** The loop of `collect_prior_tests_text` over the sorted listing `files`. */
  method CollectParts(files: seq<TestFile>, current: nat) returns (texts: seq<string>)
    ensures texts == PriorParts(files, current, 0)
  {
    texts := [];
    var total: nat := 0;
    var i := 0;
    while i < |files|
      invariant 0 <= i <= |files| && total <= PriorTestsCharBudget
      invariant texts + PriorParts(files[i..], current, total) == PriorParts(files, current, 0)
    {
      var done;
      texts, total, done := CollectStep(files, current, i, texts, total);
      if done {
        return;
      }
      i := i + 1;
    }
    assert texts + [] == texts;
  }

  /**
   * One pass of the loop, on file `i`: skip it, take its whole text, or cut
   * it to the remaining budget and stop (`done`).
   */
  method CollectStep(files: seq<TestFile>, current: nat, i: nat, texts: seq<string>, total: nat)
    returns (texts': seq<string>, total': nat, done: bool)
    requires i < |files| && total <= PriorTestsCharBudget
    requires texts + PriorParts(files[i..], current, total) == PriorParts(files, current, 0)
    ensures total' <= PriorTestsCharBudget
    ensures done ==> texts' == PriorParts(files, current, 0)
    ensures !done ==> texts' + PriorParts(files[i + 1..], current, total') == PriorParts(files, current, 0)
  {
    var f := files[i];
    if SkippedFor(f.name, current) {
      PriorPartsSkip(files, i, current, total);
      return texts, total, false;
    }
    var t := Header(f);
    if total + |t| > PriorTestsCharBudget {
      var remaining := PriorTestsCharBudget - total;
      PriorPartsCut(files, i, current, total);
      if remaining > 200 {
        return texts + [t[..remaining] + TruncationMark], total, true;
      }
      assert texts + [] == texts;
      return texts, total, true;
    }
    PriorPartsTake(files, i, current, total);
    assert texts + ([t] + PriorParts(files[i + 1..], current, total + |t|))
        == (texts + [t]) + PriorParts(files[i + 1..], current, total + |t|);
    return texts + [t], total + |t|, false;
  }

  lemma PriorPartsSkip(files: seq<TestFile>, i: nat, current: nat, total: nat)
    requires i < |files| && total <= PriorTestsCharBudget && SkippedFor(files[i].name, current)
    ensures PriorParts(files[i..], current, total) == PriorParts(files[i + 1..], current, total)
  {
    assert files[i..][1..] == files[i + 1..];
  }

  lemma PriorPartsTake(files: seq<TestFile>, i: nat, current: nat, total: nat)
    requires i < |files| && !SkippedFor(files[i].name, current)
    requires total + |Header(files[i])| <= PriorTestsCharBudget
    ensures PriorParts(files[i..], current, total)
         == [Header(files[i])] + PriorParts(files[i + 1..], current, total + |Header(files[i])|)
  {
    assert files[i..][1..] == files[i + 1..];
  }

  lemma PriorPartsCut(files: seq<TestFile>, i: nat, current: nat, total: nat)
    requires i < |files| && total <= PriorTestsCharBudget && !SkippedFor(files[i].name, current)
    requires total + |Header(files[i])| > PriorTestsCharBudget
    ensures var remaining := PriorTestsCharBudget - total;
      PriorParts(files[i..], current, total)
      == if remaining > 200 then [Header(files[i])[..remaining] + TruncationMark] else []
  {
  }

  /** The listed files the round does not skip, in listing order. */
  function Shown(files: seq<TestFile>, current: nat): (ns: seq<TestFile>)
    ensures |ns| <= |files|
  {
    if files == [] then []
    else if SkippedFor(files[0].name, current) then Shown(files[1..], current)
    else [files[0]] + Shown(files[1..], current)
  }

  /** The files shown are exactly the listed files the round does not skip. */
  lemma {:induction false} ShownMembers(files: seq<TestFile>, current: nat)
    ensures forall f :: f in Shown(files, current) <==> f in files && !SkippedFor(f.name, current)
  {
    if files != [] {
      ShownMembers(files[1..], current);
      assert files == [files[0]] + files[1..];
    }
  }

  /** The whole texts of `ns`, in order. */
  function Texts(ns: seq<TestFile>): (ts: seq<string>)
    ensures |ts| == |ns|
  {
    if ns == [] then [] else [Header(ns[0])] + Texts(ns[1..])
  }

  /** The length of the whole texts of `ns` together. */
  function TextsLen(ns: seq<TestFile>): nat {
    if ns == [] then 0 else |Header(ns[0])| + TextsLen(ns[1..])
  }

  lemma TextsCons(ns: seq<TestFile>, k: nat)
    requires k < |ns|
    ensures Texts(ns[..k + 1]) == [Header(ns[0])] + Texts(ns[1..][..k])
    ensures TextsLen(ns[..k + 1]) == |Header(ns[0])| + TextsLen(ns[1..][..k])
  {
    assert ns[..k + 1][1..] == ns[1..][..k];
  }

  /** How many of `ns` are taken whole once `total` characters are used. */
  function FitCount(ns: seq<TestFile>, total: nat): (m: nat)
    ensures m <= |ns|
  {
    if ns == [] || total + |Header(ns[0])| > PriorTestsCharBudget then 0
    else FitCount(ns[1..], total + |Header(ns[0])|) + 1
  }

  /**
   * `FitCount` is the first overflow: the texts of the first `m` files fit
   * in the budget together, and the next one, if any, does not fit after
   * them. As lengths only add up, no other count has both properties.
   */
  lemma {:induction false} FitCountFirstOverflow(ns: seq<TestFile>, total: nat)
    requires total <= PriorTestsCharBudget
    ensures var m := FitCount(ns, total);
      && total + TextsLen(ns[..m]) <= PriorTestsCharBudget
      && (m < |ns| ==> total + TextsLen(ns[..m]) + |Header(ns[m])| > PriorTestsCharBudget)
  {
    if ns == [] || total + |Header(ns[0])| > PriorTestsCharBudget {
      assert ns[..0] == [];
    } else {
      var total' := total + |Header(ns[0])|;
      FitCountFirstOverflow(ns[1..], total');
      TextsCons(ns, FitCount(ns[1..], total'));
    }
  }

  /**
   * The parts in closed form, for the files `ns` the round does not skip:
   * with `m` the first of them whose text no longer fits, the whole texts of
   * `ns[..m]` in order, followed, when a file overflows and more than 200
   * characters of the budget remain, by that file's text cut to the
   * remainder and marked as truncated.
   */
  function ClosedParts(ns: seq<TestFile>, total: nat): seq<string>
    requires total <= PriorTestsCharBudget
  {
    FitCountFirstOverflow(ns, total);
    var m := FitCount(ns, total);
    var remaining := PriorTestsCharBudget - (total + TextsLen(ns[..m]));
    Texts(ns[..m]) + if m < |ns| && remaining > 200 then [Header(ns[m])[..remaining] + TruncationMark] else []
  }

  /** The loop's parts are the closed form over the files not skipped. */
  lemma PriorPartsClosedForm(files: seq<TestFile>, current: nat, total: nat)
    requires total <= PriorTestsCharBudget
    ensures PriorParts(files, current, total) == ClosedParts(Shown(files, current), total)
  {
    var ns := Shown(files, current);
    PriorPartsSkipsFirst(files, current, total);
    ShownMembers(files, current);
    assert forall j :: 0 <= j < |ns| ==> !SkippedFor(ns[j].name, current) by {
      forall j | 0 <= j < |ns| ensures !SkippedFor(ns[j].name, current) {
        assert ns[j] in ns;
      }
    }
    ClosedFormNoSkips(ns, current, total);
  }

  /** Skipping files during the walk is the same as leaving them out beforehand. */
  lemma {:induction false} PriorPartsSkipsFirst(files: seq<TestFile>, current: nat, total: nat)
    requires total <= PriorTestsCharBudget
    ensures PriorParts(files, current, total) == PriorParts(Shown(files, current), current, total)
  {
    if files != [] && !SkippedFor(files[0].name, current) {
      var f, rest := files[0], Shown(files[1..], current);
      var ns := [f] + rest;
      assert Shown(files, current) == ns;
      assert ns[0] == f && ns[1..] == rest;
      if total + |Header(f)| <= PriorTestsCharBudget {
        var total' := total + |Header(f)|;
        PriorPartsTake(files, 0, current, total);
        assert files[0..] == files;
        assert PriorParts(ns, current, total) == [Header(f)] + PriorParts(rest, current, total');
        PriorPartsSkipsFirst(files[1..], current, total');
        SameAfterSameHead(PriorParts(files, current, total), PriorParts(files[1..], current, total'),
          PriorParts(ns, current, total), PriorParts(rest, current, total'), Header(f));
      }
    } else if files != [] {
      PriorPartsSkipsFirst(files[1..], current, total);
    }
  }

  /** Over files none of which is skipped, the walk yields the closed form. */
  lemma {:induction false} ClosedFormNoSkips(ns: seq<TestFile>, current: nat, total: nat)
    requires total <= PriorTestsCharBudget
    requires forall j :: 0 <= j < |ns| ==> !SkippedFor(ns[j].name, current)
    ensures PriorParts(ns, current, total) == ClosedParts(ns, total)
  {
    if ns == [] {
      assert Texts([][..0]) == [];
    } else {
      var f, rest := ns[0], ns[1..];
      assert ns == [f] + rest;
      if total + |Header(f)| > PriorTestsCharBudget {
        ClosedPartsOverflow(f, rest, total);
      } else {
        ClosedFormNoSkips(rest, current, total + |Header(f)|);
        ClosedFormTake(f, rest, ns, current, total);
      }
    }
  }

  /** A first file that is not skipped and fits adds its whole text in front. */
  lemma ClosedFormTake(f: TestFile, rest: seq<TestFile>, ns: seq<TestFile>, current: nat, total: nat)
    requires ns == [f] + rest && !SkippedFor(f.name, current)
    requires total + |Header(f)| <= PriorTestsCharBudget
    requires PriorParts(rest, current, total + |Header(f)|) == ClosedParts(rest, total + |Header(f)|)
    ensures PriorParts(ns, current, total) == ClosedParts(ns, total)
  {
    var total' := total + |Header(f)|;
    assert ns[0] == f && ns[1..] == rest;
    assert PriorParts(ns, current, total) == [Header(f)] + PriorParts(rest, current, total');
    ClosedPartsFit(f, rest, ns, total);
    SameAfterSameHead(PriorParts(ns, current, total), PriorParts(rest, current, total'),
      ClosedParts(ns, total), ClosedParts(rest, total'), Header(f));
  }

  lemma SameAfterSameHead(p: seq<string>, p': seq<string>, c: seq<string>, c': seq<string>, h: string)
    requires p == [h] + p' && c == [h] + c' && p' == c'
    ensures p == c
  {
  }

  lemma ClosedPartsOverflow(f: TestFile, rest: seq<TestFile>, total: nat)
    requires total <= PriorTestsCharBudget < total + |Header(f)|
    ensures var remaining := PriorTestsCharBudget - total;
      ClosedParts([f] + rest, total) == if remaining > 200 then [Header(f)[..remaining] + TruncationMark] else []
  {
    assert ([f] + rest)[..0] == [];
  }

  lemma ClosedPartsFit(f: TestFile, rest: seq<TestFile>, ns: seq<TestFile>, total: nat)
    requires ns == [f] + rest && total + |Header(f)| <= PriorTestsCharBudget
    ensures ClosedParts(ns, total) == [Header(f)] + ClosedParts(rest, total + |Header(f)|)
  {
    var t := Header(f);
    var total' := total + |t|;
    assert ns[1..] == rest;
    var m' := FitCount(rest, total');
    assert FitCount(ns, total) == m' + 1;
    assert m' < |rest| ==> ns[m' + 1] == rest[m'];
    FitCountFirstOverflow(rest, total');
    var remaining := PriorTestsCharBudget - (total' + TextsLen(rest[..m']));
    var tail := if m' < |rest| && remaining > 200 then [Header(rest[m'])[..remaining] + TruncationMark] else [];
    assert ClosedParts(rest, total') == Texts(rest[..m']) + tail;
    TextsCons(ns, m');
    assert ClosedParts(ns, total) == ([t] + Texts(rest[..m'])) + tail;
    HeadThenRest(ClosedParts(ns, total), ClosedParts(rest, total'), t, Texts(rest[..m']), tail);
  }

  lemma HeadThenRest(c: seq<string>, c': seq<string>, h: string, a: seq<string>, tl: seq<string>)
    requires c == ([h] + a) + tl && c' == a + tl
    ensures c == [h] + c'
  {
    assert ([h] + a) + tl == [h] + (a + tl);
  }

  /** A whole file text: its header line and contents. */
  predicate WholeText(p: string, f: TestFile) {
    p == Header(f)
  }

  /** A file text cut after more than 200 characters and marked as truncated. */
  predicate CutText(p: string, f: TestFile) {
    var n := |p| - |TruncationMark|;
    200 < n < |Header(f)| && p == Header(f)[..n] + TruncationMark
  }

  /** Part `k` of `parts` comes from file `f`, which the round does not skip. */
  predicate PartFrom(parts: seq<string>, k: nat, f: TestFile, current: nat)
    requires k < |parts|
  {
    !SkippedFor(f.name, current) && (WholeText(parts[k], f) || (k == |parts| - 1 && CutText(parts[k], f)))
  }

  /** Part `k` of `parts` comes from some file of `files`. */
  predicate FromListedFile(parts: seq<string>, k: nat, files: seq<TestFile>, current: nat)
    requires k < |parts|
  {
    exists f :: f in files && PartFrom(parts, k, f, current)
  }

  /**
   * What the parts are made of: every part but the last is the header and
   * contents of a listed file that is not skipped, and the last is either
   * that or such a text cut after more than 200 characters and marked as
   * truncated.
   */
  lemma {:induction false} PriorPartsAreFileTexts(files: seq<TestFile>, current: nat, total: nat)
    requires total <= PriorTestsCharBudget
    ensures forall k :: 0 <= k < |PriorParts(files, current, total)| ==>
      FromListedFile(PriorParts(files, current, total), k, files, current)
  {
    if files != [] {
      var parts := PriorParts(files, current, total);
      var f := files[0];
      if SkippedFor(f.name, current) {
        PriorPartsAreFileTexts(files[1..], current, total);
        assert parts == PriorParts(files[1..], current, total);
        forall k | 0 <= k < |parts| ensures FromListedFile(parts, k, files, current) {
          assert FromListedFile(parts, k, files[1..], current);
          var g :| g in files[1..] && PartFrom(parts, k, g, current);
          assert g in files;
        }
      } else {
        var t := Header(f);
        if total + |t| > PriorTestsCharBudget {
          var remaining := PriorTestsCharBudget - total;
          if remaining > 200 {
            assert parts == [t[..remaining] + TruncationMark];
            assert CutText(parts[0], f);
            assert PartFrom(parts, 0, f, current);
          }
        } else {
          PriorPartsAreFileTexts(files[1..], current, total + |t|);
          var rest := PriorParts(files[1..], current, total + |t|);
          assert parts == [t] + rest;
          assert PartFrom(parts, 0, f, current);
          forall k | 0 < k < |parts| ensures FromListedFile(parts, k, files, current) {
            assert parts[k] == rest[k - 1];
            assert FromListedFile(rest, k - 1, files[1..], current);
            var g :| g in files[1..] && PartFrom(rest, k - 1, g, current);
            assert g in files;
            assert PartFrom(parts, k, g, current);
          }
        }
      }
    }
  }

  /** With nothing collected the text is the placeholder `"None"`, and only then. */
  lemma NoneExactlyWhenNothingCollected(files: seq<TestFile>, current: nat)
    ensures PriorTestsText(files, current) == NoPriorTests <==> PriorParts(files, current, 0) == []
  {
    var parts := PriorParts(files, current, 0);
    if parts != [] {
      PriorPartsAreFileTexts(files, current, 0);
      assert FromListedFile(parts, 0, files, current);
      var f :| f in files && PartFrom(parts, 0, f, current);
      assert Header(f)[0] == '#';
      assert parts[0][0] == '#';
      JoinFirst(parts, "\n\n");
    }
  }

  /** A join starts with its first part. */
  lemma JoinFirst(parts: seq<string>, sep: string)
    requires parts != [] && parts[0] != []
    ensures |Join(parts, sep)| > 0 && Join(parts, sep)[0] == parts[0][0]
  {
  }

  /** A listing whose files are all skipped, or empty, gives nothing. */
  lemma {:induction false} AllSkippedGivesNone(files: seq<TestFile>, current: nat, total: nat)
    requires total <= PriorTestsCharBudget
    requires forall k :: 0 <= k < |files| ==> SkippedFor(files[k].name, current)
    ensures PriorParts(files, current, total) == []
  {
    if files != [] {
      AllSkippedGivesNone(files[1..], current, total);
    }
  }

  // ---------- call_chatgpt: fence stripping ----------

  const Fence: string := "```"

  /**
   * `re.match(r"^```(?:python)?\s*([\s\S]*?)\s*```$", content, re.IGNORECASE)`
   * on the trimmed content: it matches when the content opens and closes
   * with a fence that do not overlap. The optional language tag is taken
   * when the six characters after the opening fence spell `python` in any
   * case and a closing fence still fits after them.
   */
  predicate IsFenced(c: string) {
    |c| >= 6 && c[..3] == Fence && c[|c| - 3..] == Fence
  }

  predicate HasPythonTag(c: string) {
    |c| >= 12 && LowerAsciiString(c[3..9]) == "python"
  }

  /** What the fences enclose, after the optional tag; the group is this without surrounding whitespace. */
  function FenceInterior(c: string): string
    requires IsFenced(c)
  {
    if HasPythonTag(c) then c[9..|c| - 3] else c[3..|c| - 3]
  }

  /** The text `call_chatgpt` returns for the reply's content (`None` read as empty). */
  function StripFence(content: Option<string>): (r: string)
    ensures Trimmed(r)
  {
    var c := Strip(content.GetOr(""));
    StripTrimmed(c);
    if IsFenced(c) then
      var g := Strip(FenceInterior(c));
      StripTrimmed(g);
      g
    else c
  }

  /** A reply without a surrounding fence is returned trimmed and otherwise as is. */
  lemma UnfencedKept(content: string)
    requires !IsFenced(Strip(content))
    ensures StripFence(Some(content)) == Strip(content)
  {
  }

  /** Surrounding whitespace of any kind is removed by `Strip` and nothing else is. */
  lemma StripAround(a: string, t: string, b: string)
    requires forall k :: 0 <= k < |a| ==> IsSpace(a[k])
    requires forall k :: 0 <= k < |b| ==> IsSpace(b[k])
    requires Trimmed(t) && t != []
    ensures Strip(a + t + b) == t
  {
    var s := a + t + b;
    assert s == a + (t + b);
    assert (t + b)[0] == t[0];
    LStripPrefix(a, t + b);
    assert LStrip(s) == t + b;
    RStripSuffix(t, b);
    assert Strip(s) == RStrip(t + b);
  }

  lemma {:induction false} LStripPrefix(a: string, u: string)
    requires forall k :: 0 <= k < |a| ==> IsSpace(a[k])
    requires u != [] && !IsSpace(u[0])
    ensures LStrip(a + u) == u
  {
    if a != [] {
      assert (a + u)[1..] == a[1..] + u;
      LStripPrefix(a[1..], u);
    } else {
      assert a + u == u;
    }
  }

  lemma {:induction false} RStripSuffix(t: string, b: string)
    requires forall k :: 0 <= k < |b| ==> IsSpace(b[k])
    requires t != [] && !IsSpace(t[|t| - 1])
    ensures RStrip(t + b) == t
  {
    if b != [] {
      var s := t + b;
      assert s[..|s| - 1] == t + b[..|b| - 1];
      RStripSuffix(t, b[..|b| - 1]);
    } else {
      assert t + b == t;
    }
  }

  /**
   * Round trip: non-empty trimmed code wrapped as a ```python block, with a
   * newline after the tag and before the closing fence, comes back exactly.
   */
  lemma FencedCodeRecovered(code: string)
    requires Trimmed(code) && code != []
    ensures StripFence(Some("```python\n" + code + "\n```")) == code
  {
    var c := "```python\n" + code + "\n```";
    var mid := "\n" + code + "\n";
    PythonFenceShape(mid);
    assert c == "```python" + mid + "```";
    StripTrimmed(c);
    assert IsSpace('\n');
    StripAround("\n", code, "\n");
  }

  predicate AllSpace(w: string) {
    forall k :: 0 <= k < |w| ==> IsSpace(w[k])
  }

  /**
   * Round trip for any fenced reply: whitespace around the block, an optional
   * `python` tag in any case, whitespace after the tag and before the closing
   * fence all go, and trimmed code comes back exactly. The one exclusion is
   * the reply the pattern itself reads differently: no tag and no whitespace
   * before code that starts with `python`, whose first six letters are then
   * taken as the tag.
   */
  lemma FencedReplyRecovered(a: string, t: string, w1: string, code: string, w2: string, b: string)
    requires AllSpace(a) && AllSpace(w1) && AllSpace(w2) && AllSpace(b)
    requires t == "" || LowerAsciiString(t) == "python"
    requires Trimmed(code)
    requires t == "" && w1 == "" && |code| >= 6 ==> LowerAsciiString(code[..6]) != "python"
    ensures StripFence(Some(a + Fence + t + w1 + code + w2 + Fence + b)) == code
  {
    var mid := w1 + code + w2;
    var x := Fence + t + mid + Fence;
    Regroup(a, t, w1, code, w2, b);
    assert IsFenced(x) && FenceInterior(x) == mid by {
      if t == "" {
        SpacedCodeUntagged(w1, code, w2);
        UntaggedBlock(mid);
        assert x == Fence + mid + Fence;
      } else {
        TaggedBlock(t, mid);
      }
    }
    FenceBlock(t, mid);
    BlockStripped(a, x, b);
    SpacedCodeStripped(w1, code, w2);
  }

  /** Whitespace on both sides of trimmed code is stripped and the code is kept. */
  lemma SpacedCodeStripped(w1: string, code: string, w2: string)
    requires AllSpace(w1) && AllSpace(w2) && Trimmed(code)
    ensures Strip(w1 + code + w2) == code
  {
    if code == [] {
      assert w1 + code + w2 == w1 + w2;
      StripAllSpace(w1 + w2);
    } else {
      StripAround(w1, code, w2);
    }
  }

  lemma Regroup(a: string, t: string, w1: string, code: string, w2: string, b: string)
    ensures a + Fence + t + w1 + code + w2 + Fence + b == a + (Fence + t + (w1 + code + w2) + Fence) + b
  {
    var m := w1 + code + w2;
    assert a + Fence + t + w1 + code + w2 == a + Fence + t + m;
  }

  /** Whitespace around a fenced block goes, and the block yields its interior trimmed. */
  lemma BlockStripped(a: string, x: string, b: string)
    requires AllSpace(a) && AllSpace(b)
    requires Trimmed(x) && x != [] && IsFenced(x)
    ensures StripFence(Some(a + x + b)) == Strip(FenceInterior(x))
  {
    StripAround(a, x, b);
  }

  /** The first six characters spell `python` in some case. */
  predicate StartsWithPythonWord(m: string) {
    |m| >= 6 && LowerAsciiString(m[..6]) == "python"
  }

  /** A fenced block is trimmed and fenced, whatever it encloses. */
  lemma FenceBlock(t: string, mid: string)
    ensures var x := Fence + t + mid + Fence;
      Trimmed(x) && x != [] && IsFenced(x)
  {
    var x := Fence + t + mid + Fence;
    assert x[0] == '`' && x[|x| - 1] == '`';
    assert x[..3] == Fence && x[|x| - 3..] == Fence;
  }

  /** A `python` tag in any case after the opening fence is taken as the tag. */
  lemma TaggedBlock(t: string, mid: string)
    requires LowerAsciiString(t) == "python"
    ensures var x := Fence + t + mid + Fence;
      IsFenced(x) && HasPythonTag(x) && FenceInterior(x) == mid
  {
    FenceBlock(t, mid);
    var x := Fence + t + mid + Fence;
    assert x[3..9] == t;
  }

  /** Without a tag, the block is read untagged unless what it encloses starts with the word. */
  lemma UntaggedBlock(mid: string)
    requires !StartsWithPythonWord(mid)
    ensures var x := Fence + mid + Fence;
      IsFenced(x) && !HasPythonTag(x) && FenceInterior(x) == mid
  {
    FenceBlock("", mid);
    var x := Fence + mid + Fence;
    assert x == Fence + "" + mid + Fence;
    if |x| >= 12 {
      assert x[3..9] == mid[..6];
    }
  }

  /** Code preceded by whitespace, or not itself starting with the word, does not start with it once spaced. */
  lemma SpacedCodeUntagged(w1: string, code: string, w2: string)
    requires AllSpace(w1) && AllSpace(w2)
    requires w1 == "" && |code| >= 6 ==> LowerAsciiString(code[..6]) != "python"
    ensures !StartsWithPythonWord(w1 + code + w2)
  {
    var mid := w1 + code + w2;
    if |mid| >= 6 {
      var u := mid[..6];
      LowerAsciiStringAt(u);
      if w1 != [] {
        assert u[0] == w1[0];
        assert LowerAsciiString(u)[0] != 'p';
      } else if |code| >= 6 {
        assert u == code[..6];
      } else {
        var k := |code|;
        assert u[k] == w2[0];
        assert LowerAsciiString(u)[k] == u[k];
      }
    }
  }

  /** Text made only of whitespace strips to nothing. */
  lemma StripAllSpace(w: string)
    requires AllSpace(w)
    ensures Strip(w) == []
  {
  }

  /** A block opened with ```python and closed with ``` is fenced, tagged, and encloses what lies between. */
  lemma PythonFenceShape(mid: string)
    ensures var c := "```python" + mid + "```";
      Trimmed(c) && IsFenced(c) && HasPythonTag(c) && FenceInterior(c) == mid
  {
    var c := "```python" + mid + "```";
    assert c[0] == '`' && c[|c| - 1] == '`';
    assert c[..3] == Fence && c[|c| - 3..] == Fence;
    assert c[3..9] == "python";
    var low := LowerAsciiString("python");
    LowerAsciiStringAt("python");
    assert low[0] == 'p' && low[1] == 'y' && low[2] == 't' && low[3] == 'h' && low[4] == 'o' && low[5] == 'n';
    assert c[9..|c| - 3] == mid;
  }

  // ---------- parse_coverage_xml ----------

  /**
   * `float(s)` for plain decimal text: surrounding whitespace, an optional
   * sign, digits with at most one decimal point and at least one digit.
   */
  function ParseDecimal(s: string): Option<real> {
    var t := Strip(s);
    var neg := |t| > 0 && t[0] == '-';
    var body := if |t| > 0 && (t[0] == '-' || t[0] == '+') then t[1..] else t;
    var dot := DotIndex(body);
    var intPart := body[..dot];
    var fracPart := if dot < |body| then body[dot + 1..] else [];
    if |intPart| + |fracPart| > 0 && AllDigits(intPart) && AllDigits(fracPart) then
      var v := (DigitsValue(intPart) as real) + (DigitsValue(fracPart) as real) / (Pow10(|fracPart|) as real);
      Some(if neg then -v else v)
    else None
  }

  /** The index of the first `.`, or the length. */
  function DotIndex(s: string): (i: nat)
    ensures i <= |s| && (i < |s| ==> s[i] == '.') && forall k :: 0 <= k < i ==> s[k] != '.'
  {
    if s == [] then 0 else if s[0] == '.' then 0 else 1 + DotIndex(s[1..])
  }

  function Pow10(n: nat): (p: nat)
    ensures p >= 1
  {
    if n == 0 then 1 else 10 * Pow10(n - 1)
  }

  /** Decimal text of a natural number reads back as that number. */
  lemma ParseDecimalOfNat(n: nat)
    ensures ParseDecimal(NatToString(n)) == Some(n as real)
  {
    var s := NatToString(n);
    assert !IsSpace(s[0]) && !IsSpace(s[|s| - 1]);
    StripTrimmed(s);
    assert forall k :: 0 <= k < |s| ==> s[k] != '.' by {
      forall k | 0 <= k < |s| ensures s[k] != '.' { assert IsDigit(s[k]); }
    }
    assert s[0] != '-' && s[0] != '+' by { assert IsDigit(s[0]); }
    assert DotIndex(s) == |s|;
    assert s[..|s|] == s;
  }

  /** The attributes of the report's root element. */
  type Attributes = map<string, string>

  /** `to_pct`: an attribute's value times 100, `None` if absent or not a number. */
  function RatePercent(attrs: Attributes, name: string): Option<real> {
    if name !in attrs then None
    else match ParseDecimal(attrs[name])
      case None => None
      case Some(x) => Some(x * 100.0)
  }

  /** `float(attrs.get(name, "0"))` */
  function ReadCount(attrs: Attributes, name: string): Option<real> {
    ParseDecimal(if name in attrs then attrs[name] else "0")
  }

  /** `100 * covered / valid` when both counts read as numbers and `valid > 0`; `None` otherwise. */
  function CountRatio(valid: Option<real>, covered: Option<real>): Option<real> {
    if valid.Some? && covered.Some? && valid.value > 0.0 then Some(100.0 * (covered.value / valid.value))
    else None
  }

  /** The count fallback, absent counts reading as `"0"`. */
  function CountPercent(attrs: Attributes, validName: string, coveredName: string): Option<real> {
    CountRatio(ReadCount(attrs, validName), ReadCount(attrs, coveredName))
  }

  /**
   * `parse_coverage_xml`: a missing or empty report (`None`) gives no
   * figures; otherwise each percentage is the rate attribute when it reads,
   * and the count fallback when it does not.
   */
  function ParseCoverageXml(report: Option<Attributes>): (r: (Option<real>, Option<real>))
    ensures report.None? ==> r == (None, None)
  {
    match report
    case None => (None, None)
    case Some(attrs) =>
      var line := RatePercent(attrs, "line-rate");
      var branch := RatePercent(attrs, "branch-rate");
      (if line.None? then CountPercent(attrs, "lines-valid", "lines-covered") else line,
       if branch.None? then CountPercent(attrs, "branches-valid", "branches-covered") else branch)
  }

  /**
   * The layered fallback: a readable rate wins; otherwise the counts decide,
   * and without a positive `valid` count the figure stays `None`, never 0;
   * branches follow the same rules as lines.
   */
  lemma CoverageFallback(attrs: Attributes)
    ensures var (line, branch) := ParseCoverageXml(Some(attrs));
      && (RatePercent(attrs, "line-rate").Some? ==> line == RatePercent(attrs, "line-rate"))
      && (RatePercent(attrs, "line-rate").None? ==> line == CountPercent(attrs, "lines-valid", "lines-covered"))
      && (RatePercent(attrs, "branch-rate").Some? ==> branch == RatePercent(attrs, "branch-rate"))
      && (RatePercent(attrs, "branch-rate").None? ==> branch == CountPercent(attrs, "branches-valid", "branches-covered"))
  {
  }

  /** Without a positive `valid` count, an absent one included, the fallback yields nothing. */
  lemma NoValidCountNoFigure(attrs: Attributes, validName: string, coveredName: string)
    requires validName !in attrs || (ParseDecimal(attrs[validName]).Some? && ParseDecimal(attrs[validName]).value <= 0.0)
    ensures CountPercent(attrs, validName, coveredName).None?
  {
    if validName !in attrs {
      ParseDecimalOfNat(0);
      assert NatToString(0) == "0";
      assert ReadCount(attrs, validName) == Some(0.0);
    }
  }

  /** A root with no attributes at all gives `(None, None)`. */
  lemma BareRootGivesNothing()
    ensures ParseCoverageXml(Some(map[])) == (None, None)
  {
    NoValidCountNoFigure(map[], "lines-valid", "lines-covered");
    NoValidCountNoFigure(map[], "branches-valid", "branches-covered");
  }

  /** Consistent counts give a figure in [0, 100], 100 exactly when all are covered. */
  lemma CountRatioBounds(valid: real, covered: real)
    requires 0.0 < valid && 0.0 <= covered <= valid
    ensures var p := CountRatio(Some(valid), Some(covered));
      p.Some? && 0.0 <= p.value <= 100.0 && (p.value == 100.0 <==> covered == valid)
  {
    var q := covered / valid;
    assert q * valid == covered;
    if q > 1.0 {
      MulMonotone(q, 1.0, valid);
    }
    if q < 0.0 {
      MulMonotone(0.0, q, valid);
    }
  }

  lemma MulMonotone(a: real, b: real, v: real)
    requires a > b && v > 0.0
    ensures a * v > b * v
  {
    assert a * v - b * v == (a - b) * v;
  }

  // ---------- append_results_line ----------

  const ParseFailedSuffix: string := " (parse failed)"

  /** The note of a round: the test file name, marked when neither figure could be read. */
  function ResultsNote(testName: string, line: Option<real>, branch: Option<real>): (note: string)
    ensures note == testName || note == testName + ParseFailedSuffix
    ensures note == testName + ParseFailedSuffix <==> line.None? && branch.None?
  {
    if line.None? && branch.None? then testName + ParseFailedSuffix else testName
  }

  /**
   * `f"iter={i:02d}\tline%={lp:.2f}\tbranch%={bp:.2f}\t{note}\n"` with a
   * missing figure printed as NaN; `fmt` renders `:.2f`.
   */
  function ResultsLine(i: nat, line: Option<real>, branch: Option<real>, note: string, fmt: real -> string): string {
    var lp := if line.None? then "nan" else fmt(line.value);
    var bp := if branch.None? then "nan" else fmt(branch.value);
    "iter=" + TwoDigits(i) + "\tline%=" + lp + "\tbranch%=" + bp + "\t" + note + "\n"
  }

  // ---------- the hint for the next round ----------

  /** The characters `str.splitlines` breaks at. */
  predicate IsLineBreak(c: char) {
    c == '\n' || c == '\r' || c == '\U{B}' || c == '\U{C}' || c == '\U{1C}' || c == '\U{1D}'
    || c == '\U{1E}' || c == '\U{85}' || c == '\U{2028}' || c == '\U{2029}'
  }

  /** The index of the first line break, or the length. */
  function LineEnd(s: string): (i: nat)
    ensures i <= |s| && (i < |s| ==> IsLineBreak(s[i])) && forall k :: 0 <= k < i ==> !IsLineBreak(s[k])
  {
    if s == [] then 0 else if IsLineBreak(s[0]) then 0 else 1 + LineEnd(s[1..])
  }

  /** `s.splitlines()`: the lines without their breaks, `\r\n` counting as one break and no empty last line. */
  function SplitLines(s: string): (lines: seq<string>)
    ensures forall k, j :: 0 <= k < |lines| && 0 <= j < |lines[k]| ==> !IsLineBreak(lines[k][j])
    ensures lines == [] <==> s == []
    decreases |s|
  {
    if s == [] then []
    else
      var i := LineEnd(s);
      if i == |s| then [s]
      else
        var width := if s[i] == '\r' && i + 1 < |s| && s[i + 1] == '\n' then 2 else 1;
        [s[..i]] + SplitLines(s[i + width..])
  }

  predicate BreakFree(l: string) {
    forall k :: 0 <= k < |l| ==> !IsLineBreak(l[k])
  }

  /** `br` is one whole line break when `rest` follows it: `\r\n`, or one break character that is not a `\r` before `\n`. */
  predicate WholeBreak(br: string, rest: string) {
    br == "\r\n" || (|br| == 1 && IsLineBreak(br[0]) && !(br[0] == '\r' && rest != [] && rest[0] == '\n'))
  }

  /**
   * A break-free run ended by a whole break is the first line, and the lines
   * of the rest follow it. With SplitLinesLastLine and `SplitLines([]) == []`
   * this determines `SplitLines` on every string: the lines are the maximal
   * break-free pieces, in order, and the text between them is the breaks.
   */
  lemma SplitLinesFirstLine(l: string, br: string, rest: string)
    requires BreakFree(l) && WholeBreak(br, rest)
    ensures SplitLines(l + br + rest) == [l] + SplitLines(rest)
  {
    var s := l + br + rest;
    assert s[|l|] == br[0];
    assert forall k :: 0 <= k < |l| ==> s[k] == l[k];
    var i := LineEnd(s);
    assert i == |l|;
    assert s[..i] == l;
    if br == "\r\n" {
      assert s[i + 1] == '\n';
      assert s[i + 2..] == rest;
    } else {
      assert s[i + 1..] == rest;
    }
  }

  /** A non-empty break-free text is one line. */
  lemma SplitLinesLastLine(l: string)
    requires l != [] && BreakFree(l)
    ensures SplitLines(l) == [l]
  {
  }

  const HintPrefix: string := "From previous coverage report, Missing lines (subset):\n"
  const NoHint: string := "None"

  /** The report lines that mention the solution file, when the report says "Missing" anywhere. */
  function MissingLines(report: string, solutionName: string): (ls: seq<string>)
    ensures !Contains(report, "Missing") ==> ls == []
  {
    if Contains(report, "Missing") then Mentioning(SplitLines(report), solutionName) else []
  }

  /** The lines that contain `name`, in order. */
  function Mentioning(lines: seq<string>, name: string): (ls: seq<string>)
    ensures |ls| <= |lines|
  {
    if lines == [] then []
    else
      var rest := Mentioning(lines[1..], name);
      if Contains(lines[0], name) then [lines[0]] + rest else rest
  }

  /** A line is kept exactly when it is one of the lines and mentions `name`. */
  lemma {:induction false} MentioningExactly(lines: seq<string>, name: string, l: string)
    ensures l in Mentioning(lines, name) <==> l in lines && Contains(l, name)
  {
    if lines != [] {
      MentioningExactly(lines[1..], name, l);
      assert l in lines <==> l == lines[0] || l in lines[1..] by {
        assert lines == [lines[0]] + lines[1..];
      }
    }
  }

  /**
   * The hint's lines are exactly the report lines that name the solution
   * file, provided the report says "Missing" somewhere.
   */
  lemma MissingLinesExactly(report: string, solutionName: string, l: string)
    ensures l in MissingLines(report, solutionName)
        <==> Contains(report, "Missing") && l in SplitLines(report) && Contains(l, solutionName)
  {
    MentioningExactly(SplitLines(report), solutionName, l);
  }

  /** The hint the next round receives. */
  function HintText(report: string, solutionName: string): string {
    var ls := MissingLines(report, solutionName);
    if ls == [] then NoHint
    else HintPrefix + Join(ls[..if |ls| < 10 then |ls| else 10], "\n")
  }

  /**
   * The hint loop of `main`: collect the report lines naming the solution
   * file (only if the report mentions "Missing"), then keep the first ten
   * after the fixed prefix, or say `"None"`.
   */
  method NextHint(report: string, solutionName: string) returns (hint: string)
    ensures hint == HintText(report, solutionName)
  {
    var missing := CollectMissing(SplitLines(report), solutionName, Contains(report, "Missing"));
    hint := NoHint;
    if missing != [] {
      var snippet := Join(missing[..if |missing| < 10 then |missing| else 10], "\n");
      hint := HintPrefix + snippet;
    }
  }

  /** The loop over the report lines: those naming the solution file, if the report qualifies at all. */
  method CollectMissing(lines: seq<string>, solutionName: string, reportHasMissing: bool) returns (missing: seq<string>)
    ensures missing == (if reportHasMissing then Mentioning(lines, solutionName) else [])
  {
    missing := [];
    for i := 0 to |lines|
      invariant reportHasMissing ==> missing + Mentioning(lines[i..], solutionName) == Mentioning(lines, solutionName)
      invariant !reportHasMissing ==> missing == []
    {
      MentioningCons(lines[i..], solutionName);
      assert lines[i..][0] == lines[i] && lines[i..][1..] == lines[i + 1..];
      if Contains(lines[i], solutionName) && reportHasMissing {
        assert missing + [lines[i]] + Mentioning(lines[i + 1..], solutionName)
            == missing + ([lines[i]] + Mentioning(lines[i + 1..], solutionName));
        missing := missing + [lines[i]];
      }
    }
    assert lines[|lines|..] == [];
  }

  lemma MentioningCons(lines: seq<string>, name: string)
    requires lines != []
    ensures Mentioning(lines, name)
         == (if Contains(lines[0], name) then [lines[0]] else []) + Mentioning(lines[1..], name)
  {
  }

  /** The hint is `"None"` exactly when no report line qualifies; otherwise it starts with the fixed prefix. */
  lemma HintNoneIffNoLines(report: string, solutionName: string)
    ensures HintText(report, solutionName) == NoHint <==> MissingLines(report, solutionName) == []
    ensures MissingLines(report, solutionName) != [] ==> StartsWith(HintText(report, solutionName), HintPrefix)
  {
    var h := HintText(report, solutionName);
    if MissingLines(report, solutionName) != [] {
      assert |h| >= |HintPrefix| > |NoHint|;
      assert h[..|HintPrefix|] == HintPrefix;
    }
  }

  /** A report that never says "Missing" gives no hint, whatever it lists. */
  lemma NoMissingNoHint(report: string, solutionName: string)
    requires !Contains(report, "Missing")
    ensures HintText(report, solutionName) == NoHint
  {
  }

  // ---------- main ----------

  /** The directory without the file called `name`. */
  function Without(dir: seq<TestFile>, name: string): seq<TestFile> {
    if dir == [] then []
    else if dir[0].name == name then Without(dir[1..], name)
    else [dir[0]] + Without(dir[1..], name)
  }

  /** `write_text` on `name`: the directory without its old file of that name, then the new file. */
  function WriteFile(dir: seq<TestFile>, name: string, contents: string): seq<TestFile> {
    Without(dir, name) + [TestFile(name, contents)]
  }

  lemma {:induction false} WithoutContents(dir: seq<TestFile>, name: string, f: TestFile)
    ensures f in Without(dir, name) <==> f in dir && f.name != name
  {
    if dir != [] {
      WithoutContents(dir[1..], name, f);
      assert f in dir <==> f == dir[0] || f in dir[1..];
    }
  }

  /**
   * After the write the file holds `contents`, whatever it held before, and
   * no other file changes.
   */
  lemma WriteFileContents(dir: seq<TestFile>, name: string, contents: string, f: TestFile)
    ensures f in WriteFile(dir, name, contents) <==> f == TestFile(name, contents) || (f in dir && f.name != name)
  {
    WithoutContents(dir, name, f);
  }

  /** The file round i writes: its numbered name and the preamble with the reply's tests. */
  function RoundFile(preamble: string, reply: Option<string>, i: nat): TestFile {
    TestFile(TestFileName(i), TestFileContent(preamble, StripFence(reply)))
  }

  /** The files of all rounds, round k + 1's at index k. */
  function RoundFiles(preamble: string, replies: seq<Option<string>>): (fs: seq<TestFile>)
    ensures |fs| == |replies|
  {
    seq(|replies|, k requires 0 <= k < |replies| => RoundFile(preamble, replies[k], k + 1))
  }

  /** Every round's file carries that round's numbered name. */
  predicate RoundNamed(files: seq<TestFile>) {
    forall k :: 0 <= k < |files| ==> files[k].name == TestFileName(k + 1)
  }

  lemma RoundFilesNamed(preamble: string, replies: seq<Option<string>>)
    ensures RoundNamed(RoundFiles(preamble, replies))
  {
    var fs := RoundFiles(preamble, replies);
    forall k | 0 <= k < |fs|
      ensures fs[k].name == TestFileName(k + 1)
    {
      assert fs[k] == RoundFile(preamble, replies[k], k + 1);
    }
  }

  /** The tests directory once rounds 1..n have written their files `files[..n]`. */
  function DirAfter(dir0: seq<TestFile>, files: seq<TestFile>, n: nat): seq<TestFile>
    requires n <= |files|
  {
    if n == 0 then dir0
    else WriteFile(DirAfter(dir0, files, n - 1), files[n - 1].name, files[n - 1].contents)
  }

  /** `prior_hint` in a round: `"None"` in the first, else the hint of the previous round's report. */
  function HintFrom(previousReport: Option<string>): string {
    match previousReport
    case None => NoHint
    case Some(report) => HintText(report, SolutionFileName)
  }

  /** The text report of the round before round k + 1, if any. */
  function PreviousReport(reports: seq<string>, k: nat): Option<string>
    requires k <= |reports|
  {
    if k == 0 then None else Some(reports[k - 1])
  }

  /** The observable outcome of one round: what the prompt was given, the file written and the results line. */
  datatype Round = Round(priorTests: string, hint: string, testFile: TestFile, resultsLine: string)

  /** What a round starts from: the directory, the hint, its number, and its inputs. */
  datatype Setup = Setup(dir: seq<TestFile>, previousReport: Option<string>, i: nat, preamble: string,
                         reply: Option<string>, xml: Attributes, fmt: real -> string)

  /** What round `i` does, given the directory and the hint it starts with. */
  function RoundOf(s: Setup): Round {
    var name := TestFileName(s.i);
    var (line, branch) := ParseCoverageXml(Some(s.xml));
    Round(PriorTestsText(SortByName(Listing(s.dir)), s.i), HintFrom(s.previousReport),
          RoundFile(s.preamble, s.reply, s.i),
          ResultsLine(s.i, line, branch, ResultsNote(name, line, branch), s.fmt))
  }

  /**
   * `play` agrees with `RoundOf` on every setup. The equation is only
   * instantiated where `RoundOf` itself is mentioned, so the loop's proof
   * can speak of `play` without unfolding what a round computes.
   */
  ghost predicate Realizes(play: Setup -> Round) {
    forall s {:trigger RoundOf(s)} :: play(s) == RoundOf(s)
  }

  lemma RoundOfRealizes()
    ensures Realizes(RoundOf)
  {
  }

  /** One round of `main`'s loop. */
  method PlayRound(s: Setup, hint: string, report: string, ghost play: Setup -> Round)
    returns (round: Round, dir': seq<TestFile>, hint': string)
    requires Realizes(play) && hint == HintFrom(s.previousReport)
    ensures round == play(s)
    ensures dir' == WriteFile(s.dir, RoundFile(s.preamble, s.reply, s.i).name, RoundFile(s.preamble, s.reply, s.i).contents)
    ensures hint' == HintFrom(Some(report))
  {
    var priorTests := CollectPriorTestsText(s.dir, s.i);
    var tests := StripFence(s.reply);
    var name := TestFileName(s.i);
    var content := TestFileContent(s.preamble, tests);
    dir' := WriteFile(s.dir, name, content);
    var (line, branch) := ParseCoverageXml(Some(s.xml));
    var note := ResultsNote(name, line, branch);
    round := Round(priorTests, hint, TestFile(name, content), ResultsLine(s.i, line, branch, note, s.fmt));
    assert round == RoundOf(s);
    hint' := NextHint(report, SolutionFileName);
  }

  /** Rounds 1..n all found their coverage XML. */
  predicate AllFound(xmls: seq<Option<Attributes>>, n: nat) {
    n <= |xmls| && forall k :: 0 <= k < n ==> xmls[k].Some?
  }

  /** Round k + 1 starts from the directory the first k rounds left and from the report of round k. */
  function SetupAt(dir0: seq<TestFile>, files: seq<TestFile>, preamble: string, replies: seq<Option<string>>,
                   xmls: seq<Option<Attributes>>, reports: seq<string>, fmt: real -> string, k: nat): Setup
    requires k < |files| && k < |replies| && k < |xmls| && k < |reports| && xmls[k].Some?
  {
    Setup(DirAfter(dir0, files, k), PreviousReport(reports, k), k + 1, preamble, replies[k], xmls[k].value, fmt)
  }

  /** The first n rounds of `main`, each played by `play` from its setup. */
  function PlayedRounds(dir0: seq<TestFile>, files: seq<TestFile>, preamble: string, replies: seq<Option<string>>,
                        xmls: seq<Option<Attributes>>, reports: seq<string>, fmt: real -> string, n: nat,
                        play: Setup -> Round): (rs: seq<Round>)
    requires n <= |files| && n <= |replies| && n <= |reports| && AllFound(xmls, n)
    ensures |rs| == n
  {
    if n == 0 then []
    else PlayedRounds(dir0, files, preamble, replies, xmls, reports, fmt, n - 1, play)
         + [play(SetupAt(dir0, files, preamble, replies, xmls, reports, fmt, n - 1))]
  }

  /**
   * `main`'s loop over rounds 1..3. The replies, XML roots and text reports
   * are the per-round inputs; an XML file that never appears (`None`) makes
   * the source raise after the round's test file is written, which ends the
   * loop with the rounds played so far.
   */
  method FeedbackLoop(dir0: seq<TestFile>, preamble: string, replies: seq<Option<string>>,
                      xmls: seq<Option<Attributes>>, reports: seq<string>, fmt: real -> string)
    returns (rounds: seq<Round>, dir: seq<TestFile>)
    requires |replies| == |xmls| == |reports| == Iterations
    ensures |rounds| <= Iterations && AllFound(xmls, |rounds|)
    ensures rounds == PlayedRounds(dir0, RoundFiles(preamble, replies), preamble, replies, xmls, reports, fmt, |rounds|, RoundOf)
    ensures |rounds| < Iterations ==> xmls[|rounds|].None? && dir == DirAfter(dir0, RoundFiles(preamble, replies), |rounds| + 1)
    ensures |rounds| == Iterations ==> dir == DirAfter(dir0, RoundFiles(preamble, replies), Iterations)
  {
    RoundOfRealizes();
    RoundFilesWritten(preamble, replies);
    rounds, dir := PlayRounds(dir0, RoundFiles(preamble, replies), preamble, replies, xmls, reports, fmt, RoundOf);
  }

  /**
   * `files[k]` is the file round i = k + 1 writes. The equation is only
   * instantiated where that round's `RoundFile` is mentioned, so the loop
   * can speak of the directory without unfolding what each file holds.
   */
  ghost predicate WritesRoundFiles(files: seq<TestFile>, preamble: string, replies: seq<Option<string>>) {
    && |files| <= |replies|
    && forall k, i {:trigger RoundFile(preamble, replies[k], i)} ::
         0 <= k < |files| && i == k + 1 ==> files[k] == RoundFile(preamble, replies[k], i)
  }

  lemma RoundFilesWritten(preamble: string, replies: seq<Option<string>>)
    ensures WritesRoundFiles(RoundFiles(preamble, replies), preamble, replies)
  {
  }

  /** The loop of `FeedbackLoop`, over the test files the rounds write, with `play` standing for `RoundOf`. */
  method PlayRounds(dir0: seq<TestFile>, files: seq<TestFile>, preamble: string, replies: seq<Option<string>>,
                    xmls: seq<Option<Attributes>>, reports: seq<string>, fmt: real -> string, ghost play: Setup -> Round)
    returns (rounds: seq<Round>, dir: seq<TestFile>)
    requires Realizes(play)
    requires |files| == |replies| == |xmls| == |reports| == Iterations
    requires WritesRoundFiles(files, preamble, replies)
    ensures |rounds| <= Iterations && AllFound(xmls, |rounds|)
    ensures rounds == PlayedRounds(dir0, files, preamble, replies, xmls, reports, fmt, |rounds|, play)
    ensures |rounds| < Iterations ==> xmls[|rounds|].None? && dir == DirAfter(dir0, files, |rounds| + 1)
    ensures |rounds| == Iterations ==> dir == DirAfter(dir0, files, Iterations)
  {
    dir := dir0;
    rounds := [];
    var priorHint := NoHint;
    var i := 1;
    while i <= Iterations
      invariant 1 <= i <= Iterations + 1 && |rounds| == i - 1 && AllFound(xmls, i - 1)
      invariant dir == DirAfter(dir0, files, i - 1) && priorHint == HintFrom(PreviousReport(reports, i - 1))
      invariant rounds == PlayedRounds(dir0, files, preamble, replies, xmls, reports, fmt, i - 1, play)
    {
      if xmls[i - 1].None? {
        DirAfterStep(dir0, files, i);
        dir := WriteFile(dir, files[i - 1].name, files[i - 1].contents);
        return;
      }
      rounds, dir, priorHint := LoopStep(dir0, files, preamble, replies, xmls, reports, fmt, i, rounds, dir, priorHint, play);
      i := i + 1;
    }
  }

  /**
   * One pass of `main`'s loop once round i's XML has appeared: from the
   * state rounds 1..i - 1 left, play round i and move on to its directory
   * and its hint.
   */
  method LoopStep(dir0: seq<TestFile>, files: seq<TestFile>, preamble: string, replies: seq<Option<string>>,
                  xmls: seq<Option<Attributes>>, reports: seq<string>, fmt: real -> string,
                  i: nat, rounds: seq<Round>, dir: seq<TestFile>, priorHint: string, ghost play: Setup -> Round)
    returns (rounds': seq<Round>, dir': seq<TestFile>, priorHint': string)
    requires Realizes(play)
    requires 1 <= i <= |files| && i <= |replies| && i <= |reports| && i <= |xmls| && AllFound(xmls, i - 1) && xmls[i - 1].Some?
    requires WritesRoundFiles(files, preamble, replies)
    requires dir == DirAfter(dir0, files, i - 1) && priorHint == HintFrom(PreviousReport(reports, i - 1))
    requires rounds == PlayedRounds(dir0, files, preamble, replies, xmls, reports, fmt, i - 1, play)
    ensures AllFound(xmls, i)
    ensures dir' == DirAfter(dir0, files, i) && priorHint' == HintFrom(PreviousReport(reports, i))
    ensures rounds' == PlayedRounds(dir0, files, preamble, replies, xmls, reports, fmt, i, play)
  {
    var s := Setup(dir, PreviousReport(reports, i - 1), i, preamble, replies[i - 1], xmls[i - 1].value, fmt);
    assert files[i - 1] == RoundFile(preamble, replies[i - 1], i);
    SetupAtIs(dir0, files, preamble, replies, xmls, reports, fmt, i - 1);
    AllFoundStep(xmls, i);
    DirAfterStep(dir0, files, i);
    PlayedRoundsStep(dir0, files, preamble, replies, xmls, reports, fmt, i, play);
    assert PreviousReport(reports, i) == Some(reports[i - 1]);
    var round;
    round, dir', priorHint' := PlayRound(s, priorHint, reports[i - 1], play);
    rounds' := rounds + [round];
  }

  lemma AllFoundStep(xmls: seq<Option<Attributes>>, i: nat)
    requires 1 <= i <= |xmls| && AllFound(xmls, i - 1) && xmls[i - 1].Some?
    ensures AllFound(xmls, i)
  {
  }

  lemma DirAfterStep(dir0: seq<TestFile>, files: seq<TestFile>, i: nat)
    requires 1 <= i <= |files|
    ensures DirAfter(dir0, files, i) == WriteFile(DirAfter(dir0, files, i - 1), files[i - 1].name, files[i - 1].contents)
  {
  }

  lemma SetupAtIs(dir0: seq<TestFile>, files: seq<TestFile>, preamble: string, replies: seq<Option<string>>,
                  xmls: seq<Option<Attributes>>, reports: seq<string>, fmt: real -> string, k: nat)
    requires k < |files| && k < |replies| && k < |xmls| && k < |reports| && xmls[k].Some?
    ensures SetupAt(dir0, files, preamble, replies, xmls, reports, fmt, k)
         == Setup(DirAfter(dir0, files, k), PreviousReport(reports, k), k + 1, preamble, replies[k], xmls[k].value, fmt)
  {
  }

  lemma PlayedRoundsStep(dir0: seq<TestFile>, files: seq<TestFile>, preamble: string, replies: seq<Option<string>>,
                         xmls: seq<Option<Attributes>>, reports: seq<string>, fmt: real -> string, i: nat, play: Setup -> Round)
    requires 1 <= i <= |files| && i <= |replies| && i <= |reports| && AllFound(xmls, i)
    ensures PlayedRounds(dir0, files, preamble, replies, xmls, reports, fmt, i, play)
         == PlayedRounds(dir0, files, preamble, replies, xmls, reports, fmt, i - 1, play)
            + [play(SetupAt(dir0, files, preamble, replies, xmls, reports, fmt, i - 1))]
  {
  }

  /**
   * Round k + 1 of the played rounds, read off directly: it ran in the
   * directory rounds 1..k left, with the hint of round k's report (`"None"`
   * for the first round).
   */
  lemma {:induction false} PlayedRoundAt(dir0: seq<TestFile>, files: seq<TestFile>, preamble: string, replies: seq<Option<string>>,
                                         xmls: seq<Option<Attributes>>, reports: seq<string>, fmt: real -> string,
                                         n: nat, k: nat, play: Setup -> Round)
    requires n <= |files| && n <= |replies| && n <= |reports| && AllFound(xmls, n) && k < n
    ensures PlayedRounds(dir0, files, preamble, replies, xmls, reports, fmt, n, play)[k]
         == play(SetupAt(dir0, files, preamble, replies, xmls, reports, fmt, k))
  {
    var prev := PlayedRounds(dir0, files, preamble, replies, xmls, reports, fmt, n - 1, play);
    var last := play(SetupAt(dir0, files, preamble, replies, xmls, reports, fmt, n - 1));
    assert PlayedRounds(dir0, files, preamble, replies, xmls, reports, fmt, n, play) == prev + [last];
    if k < n - 1 {
      PlayedRoundAt(dir0, files, preamble, replies, xmls, reports, fmt, n - 1, k, play);
      assert (prev + [last])[k] == prev[k];
    }
  }

  /** Different rounds below 100 write different files. */
  lemma DistinctRoundNames(i: nat, j: nat)
    requires i < 100 && j < 100 && i != j
    ensures TestFileName(i) != TestFileName(j)
  {
    OnlyOwnRoundSkipped(i, j);
    OnlyOwnRoundSkipped(j, j);
  }

  /** After n rounds the directory holds each round's file, as that round wrote it. */
  lemma {:induction false} RoundFilesKept(dir0: seq<TestFile>, files: seq<TestFile>, n: nat, j: nat)
    requires n <= |files| && n < 100 && RoundNamed(files) && 1 <= j <= n
    ensures files[j - 1] in DirAfter(dir0, files, n)
  {
    var before := DirAfter(dir0, files, n - 1);
    assert DirAfter(dir0, files, n) == WriteFile(before, files[n - 1].name, files[n - 1].contents);
    WriteFileContents(before, files[n - 1].name, files[n - 1].contents, files[j - 1]);
    if j < n {
      RoundFilesKept(dir0, files, n - 1, j);
      DistinctRoundNames(j, n);
      assert files[j - 1].name == TestFileName(j) && files[n - 1].name == TestFileName(n);
    }
  }

  /** After n rounds every file that was there before and is no round's file is still there. */
  lemma {:induction false} OtherFilesKept(dir0: seq<TestFile>, files: seq<TestFile>, n: nat, f: TestFile)
    requires n <= |files| && RoundNamed(files) && f in dir0 && forall j :: 1 <= j <= n ==> f.name != TestFileName(j)
    ensures f in DirAfter(dir0, files, n)
  {
    if n > 0 {
      OtherFilesKept(dir0, files, n - 1, f);
      WriteFileContents(DirAfter(dir0, files, n - 1), files[n - 1].name, files[n - 1].contents, f);
    }
  }

  /**
   * Round i is shown every earlier round's file: each is in the listing it
   * sorts, and the skip test passes it over only for the round's own file.
   */
  lemma EarlierRoundsListed(dir0: seq<TestFile>, preamble: string, replies: seq<Option<string>>, i: nat, j: nat)
    requires 1 <= j < i <= |replies| && i < 100
    ensures var f := RoundFile(preamble, replies[j - 1], j);
      f in SortByName(Listing(DirAfter(dir0, RoundFiles(preamble, replies), i - 1))) && !SkippedFor(f.name, i)
  {
    var files := RoundFiles(preamble, replies);
    var f := files[j - 1];
    var dir := DirAfter(dir0, files, i - 1);
    RoundFilesNamed(preamble, replies);
    RoundFilesKept(dir0, files, i - 1, j);
    TestFileNameMatchesGlob(j);
    ListingContents(dir, f);
    SortByNameSorted(Listing(dir));
    assert f in multiset(SortByName(Listing(dir)));
    OnlyOwnRoundSkipped(j, i);
  }
}
