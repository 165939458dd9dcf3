/**
 * The part of Python's abstract syntax tree (`ast` module) that the assertion
 * rewriter looks at. Statements that the rewriter treats specially have their
 * own constructors (`Assert`, `ExprStmt`, `FunctionDef`); every other
 * compound statement (`if`, `for`, `while`, `with`, `try`, `class`,
 * `async def`, `match`) is a `Compound` carrying its header expressions and
 * its statement blocks, and every other simple statement (`return`,
 * assignment, `import`, `pass`, ...) is a `Simple` one. Expressions never
 * contain statements, so only statement lists are walked.
 */
module PyAst {
  import opened Wrappers

  datatype Constant = NoneConst | IntConst(i: int) | StrConst(s: string) | BoolConst(b: bool)

  datatype Expr =
    | Name(id: string)
    | Const(value: Constant)
    | Call(func: Expr, args: seq<Expr>)
    | OtherExpr(source: string)

  /** `ast.arguments`: positional-only, ordinary positional and keyword-only parameter names. */
  datatype Arguments = Arguments(posonly: seq<string>, args: seq<string>, kwonly: seq<string>)

  datatype Stmt =
    | Assert(test: Expr, msg: Option<Expr>, lineno: int)
    | ExprStmt(value: Expr)
    | FunctionDef(name: string, params: Arguments, body: seq<Stmt>)
    | Compound(kind: string, header: seq<Expr>, blocks: seq<Block>)
    | Simple(kind: string, exprs: seq<Expr>)

  /** One statement list of a compound statement (a body, an `else`, a handler, ...). */
  datatype Block = Block(stmts: seq<Stmt>)

  /** `ast.Module`: the statements of a parsed test source. */
  type Module = seq<Stmt>

  /** The name of the recording hook that rewritten assertions call. */
  const RecHook: string := "__rec"

  predicate IsAssert(s: Stmt) { s.Assert? }

  /** An expression statement calling the recording hook, with any arguments. */
  predicate IsRecCall(s: Stmt) {
    s.ExprStmt? && s.value.Call? && s.value.func == Name(RecHook)
  }

  /** An `assert test, None` whose message is literally the constant `None`. */
  predicate IsNoneMsgAssert(s: Stmt) {
    s.Assert? && s.msg == Some(Const(NoneConst))
  }

  /** How many statements satisfying `p` occur in `s`, at any depth, `s` included. */
  function CountStmt(s: Stmt, p: Stmt -> bool): nat
    decreases s
  {
    (if p(s) then 1 else 0) +
    match s
    case FunctionDef(_, _, body) => CountSeq(body, p)
    case Compound(_, _, blocks) => CountBlocks(blocks, p)
    case _ => 0
  }

  function CountSeq(ss: seq<Stmt>, p: Stmt -> bool): nat
    decreases ss
  {
    if ss == [] then 0 else CountStmt(ss[0], p) + CountSeq(ss[1..], p)
  }

  function CountBlocks(bs: seq<Block>, p: Stmt -> bool): nat
    decreases bs
  {
    if bs == [] then 0 else CountSeq(bs[0].stmts, p) + CountBlocks(bs[1..], p)
  }
}
