/** The rewrite that guards console calls (ConsoleLogTransformer.ts), over a small language with
    closures. */
module ConsoleGuard {
  datatype Expr =
    | Undefined
    | Number(n: int)
    | Variable(name: string)
      /** `globalThis.runtime?.isLoggingEnabled` */
    | LoggingEnabled
    | Property(target: Expr, member: string)
    | Parenthesized(inner: Expr)
    | Call(callee: Expr, args: seq<Expr>)
    | Arrow(params: seq<string>, result: Expr)
    | Function(params: seq<string>, body: seq<Stmt>)

  datatype Stmt =
    | Expression(e: Expr)
    | Declare(declared: string, init: Expr)
    | If(condition: Expr, whenTrue: seq<Stmt>, whenFalse: seq<Stmt>)
    | Return(e: Expr)
    | Throw(e: Expr)

  // ----- the rewrite -----

  const CONSOLE_METHODS := {"log", "warn", "error", "info", "debug"}

  predicate IsConsoleCall(e: Expr) {
    && e.Call? && e.callee.Property?
    && e.callee.target == Variable("console") && e.callee.member in CONSOLE_METHODS
  }

  function Unwrap(e: Expr): Expr {
    if e.Parenthesized? then Unwrap(e.inner) else e
  }

  function Guarded(s: Stmt): Stmt {
    If(LoggingEnabled, [s], [])
  }

  method UnwrapParenthesizedExpression(node: Expr) returns (expr: Expr)
    ensures expr == Unwrap(node) && !expr.Parenthesized?
  {
    expr := node;
    while expr.Parenthesized?
      invariant Unwrap(expr) == Unwrap(node)
      decreases expr
    {
      expr := expr.inner;
    }
  }

  function RewriteArrow(params: seq<string>, result: Expr): Expr {
    if IsConsoleCall(Unwrap(result)) then Function(params, [Guarded(Expression(Unwrap(result)))]) else Arrow(params, result)
  }

  /** Children first, as the visitor does. */
  function Rewrite(e: Expr): Expr {
    match e
    case Property(target, member) => Property(Rewrite(target), member)
    case Parenthesized(inner) => Parenthesized(Rewrite(inner))
    case Call(callee, args) => Call(Rewrite(callee), RewriteEach(args))
    case Arrow(params, result) => RewriteArrow(params, Rewrite(result))
    case Function(params, body) => Function(params, RewriteStatements(body))
    case _ => e
  }

  function RewriteEach(es: seq<Expr>): seq<Expr> {
    if es == [] then [] else [Rewrite(es[0])] + RewriteEach(es[1..])
  }

  function RewriteStatement(s: Stmt): Stmt {
    match s
    case Expression(e) => if IsConsoleCall(Rewrite(e)) then Guarded(Expression(Rewrite(e))) else Expression(Rewrite(e))
    case Declare(x, init) => Declare(x, Rewrite(init))
    case If(condition, whenTrue, whenFalse) => If(Rewrite(condition), RewriteStatements(whenTrue), RewriteStatements(whenFalse))
    case Return(e) => Return(Rewrite(e))
    case Throw(e) => Throw(Rewrite(e))
  }

  function RewriteStatements(ss: seq<Stmt>): seq<Stmt> {
    if ss == [] then [] else [RewriteStatement(ss[0])] + RewriteStatements(ss[1..])
  }
}
