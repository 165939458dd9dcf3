/**
 * The combined coverage + test table that both humaneval_coverage_summary.py
 * and generate_summary.py print: nine padded columns, two spaces after each,
 * then the free-text note. Column widths are measured over every row using
 * the formatted percentages; the displayed percentage cells may instead show
 * a placeholder (`"N/A"` or `"0%"` for the branch column, `"0%"` for the line
 * column). Python's `f"{x:.1f}"` is the parameter `fmt`.
 */
module SummaryTable {
  import opened Wrappers
  import opened Text

  /** One row of `rows`: the keys of the dict the source appends. */
  datatype Row = Row(
    name: string,
    stmts: int,
    miss: int,
    branch: int,
    brpart: nat,
    linePct: real,
    branchPct: real,
    missing: string,
    tests: string,
    note: string)

  /** `f"{passed}/{total}"`, the Tests cell. */
  function TestsText(passed: int, total: int): string {
    IntToString(passed) + "/" + IntToString(total)
  }

  /** The Tests cell can be read back: it splits on `/` into the two counts. */
  lemma TestsTextRoundTrip(passed: int, total: int)
    ensures var parts := Split(TestsText(passed, total), '/');
      |parts| == 2 && ParseInt(parts[0]) == Some(passed) && ParseInt(parts[1]) == Some(total)
  {
    var p, t := IntToString(passed), IntToString(total);
    NoSlashInIntText(passed);
    NoSlashInIntText(total);
    assert TestsText(passed, total) == p + ['/'] + t;
    SplitAtFirst(p, t, '/');
    SplitNoSep(t, '/');
    ParseIntToString(passed);
    ParseIntToString(total);
  }

  lemma NoSlashInIntText(n: int)
    ensures '/' !in IntToString(n)
  {
    var d := NatToString(if n < 0 then -n else n);
    assert forall k :: 0 <= k < |d| ==> IsDigit(d[k]);
    if n < 0 {
      assert IntToString(n) == "-" + d;
    }
  }

  datatype Align = Left | Right

  const Headers: seq<string> := ["Name", "Stmts", "Miss", "Branch", "BrPart", "Br%", "Line%", "Missing", "Tests"]
  const Aligns: seq<Align> := [Left, Right, Right, Right, Right, Right, Right, Left, Right]
  const Columns: nat := 9

  /** `f"{p:.1f}%"` */
  function PctText(p: real, fmt: real -> string): string {
    fmt(p) + "%"
  }

  /** The texts whose lengths set the column widths. */
  function MeasuredCells(r: Row, fmt: real -> string): (cells: seq<string>)
    ensures |cells| == Columns
  {
    [r.name, IntToString(r.stmts), IntToString(r.miss), IntToString(r.branch), IntToString(r.brpart),
     PctText(r.branchPct, fmt), PctText(r.linePct, fmt), r.missing, r.tests]
  }

  /**
   * The texts printed in a row: the measured ones, except that the branch
   * percentage shows `noBranch` when the file has no branches and the line
   * percentage shows `"0%"` when it has no statements.
   */
  function DisplayCells(r: Row, fmt: real -> string, noBranch: string): (cells: seq<string>)
    ensures |cells| == Columns
  {
    var m := MeasuredCells(r, fmt);
    m[5 := if r.branch > 0 then m[5] else noBranch][6 := if r.stmts > 0 then m[6] else "0%"]
  }

  /** Only the two percentage cells can differ from what was measured, and only for a placeholder. */
  lemma DisplayedCells(r: Row, fmt: real -> string, noBranch: string)
    ensures var cells, m := DisplayCells(r, fmt, noBranch), MeasuredCells(r, fmt);
      && (forall k :: 0 <= k < Columns && k != 5 && k != 6 ==> cells[k] == m[k])
      && cells[5] == (if r.branch > 0 then m[5] else noBranch)
      && cells[6] == (if r.stmts > 0 then m[6] else "0%")
  {
  }

  /** `max(len(header), max(len(c) for c in cells))`, with the empty column giving the header's length. */
  function ColumnWidth(header: string, cells: seq<string>): (w: nat)
    ensures w >= |header| && forall i :: 0 <= i < |cells| ==> |cells[i]| <= w
    ensures w == |header| || exists i :: 0 <= i < |cells| && w == |cells[i]|
  {
    if cells == [] then |header|
    else
      var w0 := ColumnWidth(header, cells[..|cells| - 1]);
      var c := cells[|cells| - 1];
      assert forall i :: 0 <= i < |cells| - 1 ==> cells[i] == cells[..|cells| - 1][i];
      if |c| > w0 then |c| else w0
  }

  /** Column `k` of the measured cells of every row. */
  function Column(rows: seq<Row>, fmt: real -> string, k: nat): (col: seq<string>)
    requires k < Columns
    ensures |col| == |rows| && forall i :: 0 <= i < |rows| ==> col[i] == MeasuredCells(rows[i], fmt)[k]
  {
    seq(|rows|, i requires 0 <= i < |rows| => MeasuredCells(rows[i], fmt)[k])
  }

  /** `name_w, stmts_w, ..., tests_w` */
  function Widths(rows: seq<Row>, fmt: real -> string): (ws: seq<nat>)
    ensures |ws| == Columns
    ensures forall k :: 0 <= k < Columns ==> ws[k] >= |Headers[k]|
    ensures forall k, i :: 0 <= k < Columns && 0 <= i < |rows| ==> |MeasuredCells(rows[i], fmt)[k]| <= ws[k]
  {
    seq(Columns, k requires 0 <= k < Columns => ColumnWidth(Headers[k], Column(rows, fmt, k)))
  }

  /** `s.ljust(w)` or `s.rjust(w)`. */
  function Pad(s: string, w: nat, a: Align): (r: string)
    ensures |s| <= w ==> |r| == w
    ensures |s| > w ==> r == s
  {
    if a == Left then LJust(s, w) else RJust(s, w)
  }

  /** A padded cell holds the text at its side and spaces everywhere else. */
  lemma PadFill(s: string, w: nat, a: Align)
    ensures var r := Pad(s, w, a);
      && (a == Left ==> r[..|s|] == s && forall i :: |s| <= i < |r| ==> r[i] == ' ')
      && (a == Right ==> r[|r| - |s|..] == s && forall i :: 0 <= i < |r| - |s| ==> r[i] == ' ')
  {
  }

  /** Each cell padded to its width and followed by two spaces. */
  function Padded(cells: seq<string>, ws: seq<nat>, aligns: seq<Align>): string
    requires |cells| == |ws| == |aligns|
  {
    if cells == [] then ""
    else Pad(cells[0], ws[0], aligns[0]) + "  " + Padded(cells[1..], ws[1..], aligns[1..])
  }

  function Sum(ws: seq<nat>): nat {
    if ws == [] then 0 else ws[0] + Sum(ws[1..])
  }

  /** Where the note starts in every line of the table. */
  function NoteColumn(ws: seq<nat>): nat {
    Sum(ws) + 2 * |ws|
  }

  function HeaderLine(ws: seq<nat>): string
    requires |ws| == Columns
  {
    Padded(Headers, ws, Aligns) + "Note"
  }

  function RowLine(r: Row, ws: seq<nat>, fmt: real -> string, noBranch: string): string
    requires |ws| == Columns
  {
    Padded(DisplayCells(r, fmt, noBranch), ws, Aligns) + r.note
  }

  /** The loop over `rows`: one formatted line per row, in order. */
  method RowLines(rows: seq<Row>, ws: seq<nat>, fmt: real -> string, noBranch: string) returns (body: seq<string>)
    requires |ws| == Columns
    ensures |body| == |rows| && forall i :: 0 <= i < |rows| ==> body[i] == RowLine(rows[i], ws, fmt, noBranch)
  {
    body := [];
    for i := 0 to |rows|
      invariant |body| == i
      invariant forall j :: 0 <= j < i ==> body[j] == RowLine(rows[j], ws, fmt, noBranch)
    {
      var line := RowLine(rows[i], ws, fmt, noBranch);
      body := body + [line];
    }
  }

  /**
   * The table lines: header, a dash rule as long as the header, then one line
   * per row in order. No rows, no table (the source returns before measuring).
   */
  method TableLines(rows: seq<Row>, fmt: real -> string, noBranch: string) returns (lines: seq<string>)
    ensures rows == [] ==> lines == []
    ensures rows != [] ==> (
      && |lines| == |rows| + 2
      && lines[0] == HeaderLine(Widths(rows, fmt))
      && lines[1] == Repeat('-', |lines[0]|)
      && forall i :: 0 <= i < |rows| ==> lines[i + 2] == RowLine(rows[i], Widths(rows, fmt), fmt, noBranch))
  {
    if rows == [] {
      return [];
    }
    var ws := Widths(rows, fmt);
    var header := HeaderLine(ws);
    var body := RowLines(rows, ws, fmt, noBranch);
    lines := [header, Repeat('-', |header|)] + body;
  }

  /** When every cell fits its width, the padded part is exactly `NoteColumn(ws)` long. */
  lemma {:induction false} PaddedLength(cells: seq<string>, ws: seq<nat>, aligns: seq<Align>)
    requires |cells| == |ws| == |aligns|
    requires forall k :: 0 <= k < |cells| ==> |cells[k]| <= ws[k]
    ensures |Padded(cells, ws, aligns)| == NoteColumn(ws)
  {
    if cells != [] {
      PaddedLength(cells[1..], ws[1..], aligns[1..]);
    }
  }

  /** Every displayed cell fits its column, provided the branch placeholder is no longer than `"Br%"`. */
  lemma DisplayFits(rows: seq<Row>, fmt: real -> string, noBranch: string, i: nat)
    requires |noBranch| <= 3 && i < |rows|
    ensures forall k :: 0 <= k < Columns ==> |DisplayCells(rows[i], fmt, noBranch)[k]| <= Widths(rows, fmt)[k]
  {
    var ws := Widths(rows, fmt);
    DisplayedCells(rows[i], fmt, noBranch);
    assert |Headers[5]| == 3 && |Headers[6]| == 5;
    assert ws[5] >= 3 && ws[6] >= 5;
  }

  /**
   * The table is aligned: the note of the header and of every row starts at
   * the same column `NoteColumn`, and each line is its padded cells followed
   * by its note. This holds whenever the branch placeholder fits `"Br%"`.
   */
  lemma TableAligned(rows: seq<Row>, fmt: real -> string, noBranch: string)
    requires |noBranch| <= 3
    ensures var ws := Widths(rows, fmt);
      && |HeaderLine(ws)| == NoteColumn(ws) + 4
      && HeaderLine(ws)[NoteColumn(ws)..] == "Note"
      && forall i :: 0 <= i < |rows| ==>
           |RowLine(rows[i], ws, fmt, noBranch)| == NoteColumn(ws) + |rows[i].note|
           && RowLine(rows[i], ws, fmt, noBranch)[NoteColumn(ws)..] == rows[i].note
  {
    var ws := Widths(rows, fmt);
    PaddedLength(Headers, ws, Aligns);
    forall i | 0 <= i < |rows|
      ensures |RowLine(rows[i], ws, fmt, noBranch)| == NoteColumn(ws) + |rows[i].note|
      ensures RowLine(rows[i], ws, fmt, noBranch)[NoteColumn(ws)..] == rows[i].note
    {
      DisplayFits(rows, fmt, noBranch, i);
      PaddedLength(DisplayCells(rows[i], fmt, noBranch), ws, Aligns);
    }
  }
}
