/**
 * The assertion rewriter shared by humaneval_coverage_summary.py and
 * run_humaneval_openai.py (the two files hold identical copies):
 * `_AssertRecorder` turns every `assert test, msg` into
 * `__rec(test, msg or None, lineno)`, and `_CheckOnly` applies it only to a
 * `def check(...)` that has a positional parameter named `candidate`.
 */
module Instrument {
  import opened Wrappers
  import opened PyAst

  /** The statement `__rec(test, msg, lineno)` that replaces an assertion. */
  function RecCall(test: Expr, msg: Expr, lineno: int): Stmt {
    ExprStmt(Call(Name(RecHook), [test, msg, Const(IntConst(lineno))]))
  }

  // ---------- _AssertRecorder: every assertion at any depth ----------

  /** `_AssertRecorder().visit(s)`: rewrites every assertion inside `s`, nested functions included. */
  function RecordStmt(s: Stmt): Stmt
    decreases s
  {
    match s
    case Assert(test, msg, lineno) => RecCall(test, msg.GetOr(Const(NoneConst)), lineno)
    case FunctionDef(name, params, body) => FunctionDef(name, params, RecordSeq(body))
    case Compound(kind, header, blocks) => Compound(kind, header, RecordBlocks(blocks))
    case _ => s
  }

  function RecordSeq(ss: seq<Stmt>): (rs: seq<Stmt>)
    ensures |rs| == |ss|
    decreases ss
  {
    if ss == [] then [] else [RecordStmt(ss[0])] + RecordSeq(ss[1..])
  }

  function RecordBlocks(bs: seq<Block>): (rs: seq<Block>)
    ensures |rs| == |bs|
    decreases bs
  {
    if bs == [] then [] else [Block(RecordSeq(bs[0].stmts))] + RecordBlocks(bs[1..])
  }

  // ---------- _CheckOnly: only inside def check(..., candidate, ...) ----------

  /** The test of `_CheckOnly.visit_FunctionDef`: named `check`, with an ordinary positional parameter `candidate`. */
  predicate IsCheck(name: string, params: Arguments) {
    name == "check" && "candidate" in params.args
  }

  /**
   * `_CheckOnly().visit(s)`: a matching `check` has all its assertions
   * recorded; any other function definition is returned as it is, without
   * looking inside; other compound statements are searched for definitions.
   */
  function CheckStmt(s: Stmt): Stmt
    decreases s
  {
    match s
    case FunctionDef(name, params, body) =>
      if IsCheck(name, params) then FunctionDef(name, params, RecordSeq(body)) else s
    case Compound(kind, header, blocks) => Compound(kind, header, CheckBlocks(blocks))
    case _ => s
  }

  function CheckSeq(ss: seq<Stmt>): (rs: seq<Stmt>)
    ensures |rs| == |ss|
    decreases ss
  {
    if ss == [] then [] else [CheckStmt(ss[0])] + CheckSeq(ss[1..])
  }

  function CheckBlocks(bs: seq<Block>): (rs: seq<Block>)
    ensures |rs| == |bs|
    decreases bs
  {
    if bs == [] then [] else [Block(CheckSeq(bs[0].stmts))] + CheckBlocks(bs[1..])
  }

  /** `_instrument_test_code` after `ast.parse` has succeeded (parse errors are the caller's import-error path). */
  function InstrumentTestCode(tree: Module): Module {
    CheckSeq(tree)
  }

  // ---------- what the rewrite reaches ----------

  /** The number of assertions `_CheckOnly` hands to `_AssertRecorder`: those inside matching `check` definitions. */
  function CheckedAssertsStmt(s: Stmt): nat
    decreases s
  {
    match s
    case FunctionDef(name, params, body) =>
      if IsCheck(name, params) then CountSeq(body, IsAssert) else 0
    case Compound(_, _, blocks) => CheckedAssertsBlocks(blocks)
    case _ => 0
  }

  function CheckedAssertsSeq(ss: seq<Stmt>): nat
    decreases ss
  {
    if ss == [] then 0 else CheckedAssertsStmt(ss[0]) + CheckedAssertsSeq(ss[1..])
  }

  function CheckedAssertsBlocks(bs: seq<Block>): nat
    decreases bs
  {
    if bs == [] then 0 else CheckedAssertsSeq(bs[0].stmts) + CheckedAssertsBlocks(bs[1..])
  }

  /** Whether the traversal of `_CheckOnly` meets a matching `check` definition at all. */
  predicate HasCheckStmt(s: Stmt)
    decreases s
  {
    match s
    case FunctionDef(name, params, _) => IsCheck(name, params)
    case Compound(_, _, blocks) => HasCheckBlocks(blocks)
    case _ => false
  }

  predicate HasCheckSeq(ss: seq<Stmt>)
    decreases ss
  {
    ss != [] && (HasCheckStmt(ss[0]) || HasCheckSeq(ss[1..]))
  }

  predicate HasCheckBlocks(bs: seq<Block>)
    decreases bs
  {
    bs != [] && (HasCheckSeq(bs[0].stmts) || HasCheckBlocks(bs[1..]))
  }

  // ---------- counting lemmas for _AssertRecorder ----------

  /** After recording, no assertion is left and each one became exactly one more `__rec` call. */
  lemma {:induction false} RecordStmtCounts(s: Stmt)
    ensures CountStmt(RecordStmt(s), IsAssert) == 0
    ensures CountStmt(RecordStmt(s), IsRecCall) == CountStmt(s, IsRecCall) + CountStmt(s, IsAssert)
    decreases s
  {
    match s
    case Assert(_, _, _) =>
    case FunctionDef(_, _, body) => RecordSeqCounts(body);
    case Compound(_, _, blocks) => RecordBlocksCounts(blocks);
    case _ =>
  }

  /** Recording a statement list removes every assertion in it and adds one `__rec` call per assertion. */
  lemma {:induction false} RecordSeqCounts(ss: seq<Stmt>)
    ensures CountSeq(RecordSeq(ss), IsAssert) == 0
    ensures CountSeq(RecordSeq(ss), IsRecCall) == CountSeq(ss, IsRecCall) + CountSeq(ss, IsAssert)
    decreases ss
  {
    if ss != [] {
      RecordStmtCounts(ss[0]);
      RecordSeqCounts(ss[1..]);
      assert RecordSeq(ss)[0] == RecordStmt(ss[0]);
      assert RecordSeq(ss)[1..] == RecordSeq(ss[1..]);
    }
  }

  lemma {:induction false} RecordBlocksCounts(bs: seq<Block>)
    ensures CountBlocks(RecordBlocks(bs), IsAssert) == 0
    ensures CountBlocks(RecordBlocks(bs), IsRecCall) == CountBlocks(bs, IsRecCall) + CountBlocks(bs, IsAssert)
    decreases bs
  {
    if bs != [] {
      RecordSeqCounts(bs[0].stmts);
      RecordBlocksCounts(bs[1..]);
      assert RecordBlocks(bs)[0] == Block(RecordSeq(bs[0].stmts));
      assert RecordBlocks(bs)[1..] == RecordBlocks(bs[1..]);
    }
  }

  // ---------- counting lemmas for _CheckOnly ----------

  /**
   * Instrumenting a module removes exactly the assertions inside matching
   * `check` definitions and turns each into one `__rec` call; all other
   * assertions stay.
   */
  lemma {:induction false} InstrumentCounts(tree: Module)
    ensures CountSeq(InstrumentTestCode(tree), IsAssert) + CheckedAssertsSeq(tree) == CountSeq(tree, IsAssert)
    ensures CountSeq(InstrumentTestCode(tree), IsRecCall) == CountSeq(tree, IsRecCall) + CheckedAssertsSeq(tree)
  {
    CheckSeqCounts(tree);
  }

  lemma {:induction false} CheckStmtCounts(s: Stmt)
    ensures CountStmt(CheckStmt(s), IsAssert) + CheckedAssertsStmt(s) == CountStmt(s, IsAssert)
    ensures CountStmt(CheckStmt(s), IsRecCall) == CountStmt(s, IsRecCall) + CheckedAssertsStmt(s)
    decreases s
  {
    match s
    case FunctionDef(name, params, body) =>
      if IsCheck(name, params) { RecordSeqCounts(body); }
    case Compound(_, _, blocks) => CheckBlocksCounts(blocks);
    case _ =>
  }

  lemma {:induction false} CheckSeqCounts(ss: seq<Stmt>)
    ensures CountSeq(CheckSeq(ss), IsAssert) + CheckedAssertsSeq(ss) == CountSeq(ss, IsAssert)
    ensures CountSeq(CheckSeq(ss), IsRecCall) == CountSeq(ss, IsRecCall) + CheckedAssertsSeq(ss)
    decreases ss
  {
    if ss != [] {
      CheckStmtCounts(ss[0]);
      CheckSeqCounts(ss[1..]);
      assert CheckSeq(ss)[0] == CheckStmt(ss[0]);
      assert CheckSeq(ss)[1..] == CheckSeq(ss[1..]);
    }
  }

  lemma {:induction false} CheckBlocksCounts(bs: seq<Block>)
    ensures CountBlocks(CheckBlocks(bs), IsAssert) + CheckedAssertsBlocks(bs) == CountBlocks(bs, IsAssert)
    ensures CountBlocks(CheckBlocks(bs), IsRecCall) == CountBlocks(bs, IsRecCall) + CheckedAssertsBlocks(bs)
    decreases bs
  {
    if bs != [] {
      CheckSeqCounts(bs[0].stmts);
      CheckBlocksCounts(bs[1..]);
      assert CheckBlocks(bs)[0] == Block(CheckSeq(bs[0].stmts));
      assert CheckBlocks(bs)[1..] == CheckBlocks(bs[1..]);
    }
  }

  /**
   * The `check` function itself after instrumentation: no assertion left, and
   * as many `__rec` calls as it had assertions (plus any it already had).
   */
  lemma CheckFunctionInstrumented(name: string, params: Arguments, body: seq<Stmt>)
    requires IsCheck(name, params)
    ensures var r := CheckStmt(FunctionDef(name, params, body));
      && r.FunctionDef? && r.name == name && r.params == params
      && CountSeq(r.body, IsAssert) == 0
      && CountSeq(r.body, IsRecCall) == CountSeq(body, IsRecCall) + CountSeq(body, IsAssert)
  {
    RecordSeqCounts(body);
  }

  /** A module in which `_CheckOnly` meets no matching `check` comes back unchanged, assertions included. */
  lemma {:induction false} InstrumentWithoutCheckIsIdentity(tree: Module)
    requires !HasCheckSeq(tree)
    ensures InstrumentTestCode(tree) == tree
  {
    CheckSeqIdentity(tree);
  }

  lemma {:induction false} CheckStmtIdentity(s: Stmt)
    requires !HasCheckStmt(s)
    ensures CheckStmt(s) == s
    decreases s
  {
    match s
    case Compound(_, _, blocks) => CheckBlocksIdentity(blocks);
    case _ =>
  }

  lemma {:induction false} CheckSeqIdentity(ss: seq<Stmt>)
    requires !HasCheckSeq(ss)
    ensures CheckSeq(ss) == ss
    decreases ss
  {
    if ss != [] {
      CheckStmtIdentity(ss[0]);
      CheckSeqIdentity(ss[1..]);
      assert ss == [ss[0]] + ss[1..];
    }
  }

  lemma {:induction false} CheckBlocksIdentity(bs: seq<Block>)
    requires !HasCheckBlocks(bs)
    ensures CheckBlocks(bs) == bs
    decreases bs
  {
    if bs != [] {
      CheckSeqIdentity(bs[0].stmts);
      CheckBlocksIdentity(bs[1..]);
      assert bs == [bs[0]] + bs[1..];
    }
  }

  // ---------- the rewrite loses nothing: its inverse ----------

  /** Reads a `__rec(test, msg, lineno)` call back as the assertion it came from. */
  function UnrecordStmt(s: Stmt): Stmt
    decreases s
  {
    match s
    case ExprStmt(Call(Name(f), args)) =>
      if f == RecHook && |args| == 3 && args[2].Const? && args[2].value.IntConst? then
        Assert(args[0], if args[1] == Const(NoneConst) then None else Some(args[1]), args[2].value.i)
      else s
    case FunctionDef(name, params, body) => FunctionDef(name, params, UnrecordSeq(body))
    case Compound(kind, header, blocks) => Compound(kind, header, UnrecordBlocks(blocks))
    case _ => s
  }

  function UnrecordSeq(ss: seq<Stmt>): seq<Stmt>
    decreases ss
  {
    if ss == [] then [] else [UnrecordStmt(ss[0])] + UnrecordSeq(ss[1..])
  }

  function UnrecordBlocks(bs: seq<Block>): seq<Block>
    decreases bs
  {
    if bs == [] then [] else [Block(UnrecordSeq(bs[0].stmts))] + UnrecordBlocks(bs[1..])
  }

  /**
   * Round trip: every assertion's test, message and line number survive the
   * rewrite in place, and nothing else changes. It holds for code that calls
   * no `__rec` itself and never writes `assert x, None` (whose message the
   * rewrite cannot tell from an absent one).
   */
  lemma {:induction false} UnrecordRecordSeq(ss: seq<Stmt>)
    requires CountSeq(ss, IsRecCall) == 0 && CountSeq(ss, IsNoneMsgAssert) == 0
    ensures UnrecordSeq(RecordSeq(ss)) == ss
    decreases ss
  {
    if ss != [] {
      UnrecordRecordStmt(ss[0]);
      UnrecordRecordSeq(ss[1..]);
      assert RecordSeq(ss)[1..] == RecordSeq(ss[1..]);
      assert ss == [ss[0]] + ss[1..];
    }
  }

  lemma {:induction false} UnrecordRecordStmt(s: Stmt)
    requires CountStmt(s, IsRecCall) == 0 && CountStmt(s, IsNoneMsgAssert) == 0
    ensures UnrecordStmt(RecordStmt(s)) == s
    decreases s
  {
    match s
    case Assert(test, msg, lineno) =>
    case FunctionDef(_, _, body) => UnrecordRecordSeq(body);
    case Compound(_, _, blocks) => UnrecordRecordBlocks(blocks);
    case _ =>
  }

  lemma {:induction false} UnrecordRecordBlocks(bs: seq<Block>)
    requires CountBlocks(bs, IsRecCall) == 0 && CountBlocks(bs, IsNoneMsgAssert) == 0
    ensures UnrecordBlocks(RecordBlocks(bs)) == bs
    decreases bs
  {
    if bs != [] {
      UnrecordRecordSeq(bs[0].stmts);
      UnrecordRecordBlocks(bs[1..]);
      assert RecordBlocks(bs)[1..] == RecordBlocks(bs[1..]);
      assert bs == [bs[0]] + bs[1..];
    }
  }

  /** One assertion: the rewrite produces `__rec(test, msg or Constant(None), Constant(lineno))`. */
  lemma RecordAssertShape(test: Expr, msg: Option<Expr>, lineno: int)
    ensures var r := RecordStmt(Assert(test, msg, lineno));
      && IsRecCall(r) && r.value.args == [test, if msg.Some? then msg.value else Const(NoneConst), Const(IntConst(lineno))]
  {
  }
}
