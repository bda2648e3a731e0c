/** What programs of the small language of `ConsoleGuard` do: their calls of things outside the
    program, and their results. The name `console` cannot be bound. */
module ConsoleRuntime {
  import opened Wrappers
  import opened ConsoleGuard

  datatype Body = Result(e: Expr) | Statements(ss: seq<Stmt>)

  /** `Host` is something outside the program, by the path that leads to it. */
  datatype Value =
    | Nothing
    | Amount(n: int)
    | Flag(b: bool)
    | Host(path: seq<string>)
    | Closure(params: seq<string>, body: Body, env: Env)

  type Env = seq<Binding>

  datatype Binding = Binding(name: string, value: Value)

  /** A call of something outside the program. */
  datatype Effect = Effect(path: seq<string>, args: seq<Value>)

  /** What host functions answer (nothing, or a number), whether logging is enabled, and whether
      console calls in statement or arrow-body position are left out, arguments and all. */
  datatype World = World(answers: seq<string> -> Option<int>, enabled: bool, skip: bool)

  datatype Outcome =
    | Gave(values: seq<Value>)
    | Went(env: Env)
    | Returned(value: Value)
    | Threw(value: Value)
    | OutOfFuel

  datatype Run = Run(trace: seq<Effect>, outcome: Outcome)

  // ----- logging -----

  predicate IsLogging(m: string) {
    m == "log" || m == "warn" || m == "error" || m == "info" || m == "debug"
  }

  /** `console.log(…)`, or one of the other four. */
  predicate Logs(e: Expr) {
    && e.Call? && e.callee.Property?
    && e.callee.target.Variable? && e.callee.target.name == "console" && IsLogging(e.callee.member)
  }

  /** The same in any number of parentheses. */
  predicate LogsInside(e: Expr) {
    if e.Parenthesized? then LogsInside(e.inner) else Logs(e)
  }

  // ----- running -----

  function Lookup(env: Env, x: string): Value {
    if env == [] || x == "console" then Host([x])
    else if env[|env| - 1].name == x then env[|env| - 1].value
    else Lookup(env[..|env| - 1], x)
  }

  predicate Truthy(v: Value) {
    match v
    case Nothing => false
    case Amount(n) => n != 0
    case Flag(b) => b
    case _ => true
  }

  function MemberOf(v: Value, member: string): Value {
    if v.Host? then Host(v.path + [member]) else Nothing
  }

  /** Missing arguments are `undefined`. */
  function FirstOf(args: seq<Value>): Value {
    if args == [] then Nothing else args[0]
  }

  function RestOf(args: seq<Value>): seq<Value> {
    if args == [] then [] else args[1..]
  }

  function Bind(env: Env, params: seq<string>, args: seq<Value>): Env
    decreases params
  {
    if params == [] then env else Bind(env + [Binding(params[0], FirstOf(args))], params[1..], RestOf(args))
  }

  function Gives(v: Value): Run {
    Run([], Gave([v]))
  }

  function After(trace: seq<Effect>, r: Run): Run {
    Run(trace + r.trace, r.outcome)
  }

  predicate IsEvaluation(r: Run, count: nat) {
    match r.outcome
    case Gave(values) => |values| == count
    case Went(_) => false
    case Returned(_) => false
    case _ => true
  }

  /** `fuel` bounds how deep calls of closures nest. */
  function Eval(fuel: nat, e: Expr, env: Env, w: World): (r: Run)
    ensures IsEvaluation(r, 1)
    decreases fuel, 1, e, 0
  {
    match e
    case Undefined => Gives(Nothing)
    case Number(n) => Gives(Amount(n))
    case Variable(x) => Gives(Lookup(env, x))
    case LoggingEnabled => Gives(Flag(w.enabled))
    case Property(target, member) =>
      var t := Eval(fuel, target, env, w);
      if t.outcome.Gave? then Run(t.trace, Gave([MemberOf(t.outcome.values[0], member)])) else t
    case Parenthesized(inner) => Eval(fuel, inner, env, w)
    case Call(callee, args) =>
      var f := Eval(fuel, callee, env, w);
      if !f.outcome.Gave? then f
      else
        var a := EvalEach(fuel, args, env, w);
        if !a.outcome.Gave? then After(f.trace, a)
        else After(f.trace, After(a.trace, Apply(fuel, f.outcome.values[0], a.outcome.values, w)))
    case Arrow(params, result) => Gives(Closure(params, Result(result), env))
    case Function(params, body) => Gives(Closure(params, Statements(body), env))
  }

  function EvalEach(fuel: nat, es: seq<Expr>, env: Env, w: World): (r: Run)
    ensures IsEvaluation(r, |es|)
    decreases fuel, 1, es, 0
  {
    if es == [] then Run([], Gave([]))
    else
      var first := Eval(fuel, es[0], env, w);
      if !first.outcome.Gave? then first
      else
        var rest := EvalEach(fuel, es[1..], env, w);
        Run(first.trace + rest.trace,
            if rest.outcome.Gave? then Gave(first.outcome.values + rest.outcome.values) else rest.outcome)
  }

  function Apply(fuel: nat, f: Value, args: seq<Value>, w: World): (r: Run)
    ensures IsEvaluation(r, 1)
    decreases fuel, 0
  {
    match f
    case Host(path) =>
      var answer := w.answers(path);
      Run([Effect(path, args)], Gave([if answer.Some? then Amount(answer.value) else Nothing]))
    case Closure(params, body, env) =>
      if fuel == 0 then Run([], OutOfFuel) else RunBody(fuel - 1, body, Bind(env, params, args), w)
    case _ => Run([], Threw(Nothing))
  }

  function RunBody(fuel: nat, body: Body, env: Env, w: World): (r: Run)
    ensures IsEvaluation(r, 1)
    decreases fuel, 2
  {
    match body
    case Result(e) => if w.skip && LogsInside(e) then Gives(Nothing) else Eval(fuel, e, env, w)
    case Statements(ss) => Finish(ExecAll(fuel, ss, env, w))
  }

  /** A function that returns nothing returns `undefined`. */
  function Finish(r: Run): Run {
    match r.outcome
    case Went(_) => Run(r.trace, Gave([Nothing]))
    case Returned(v) => Run(r.trace, Gave([v]))
    case _ => r
  }

  function Exec(fuel: nat, s: Stmt, env: Env, w: World): (r: Run)
    ensures !r.outcome.Gave?
    decreases fuel, 1, s, 1
  {
    match s
    case Expression(e) =>
      if w.skip && Logs(e) then Run([], Went(env))
      else
        var r := Eval(fuel, e, env, w);
        if r.outcome.Gave? then Run(r.trace, Went(env)) else r
    case Declare(x, init) =>
      var r := Eval(fuel, init, env, w);
      if r.outcome.Gave? then Run(r.trace, Went(Bind(env, [x], r.outcome.values))) else r
    case If(condition, whenTrue, whenFalse) =>
      var r := Eval(fuel, condition, env, w);
      if !r.outcome.Gave? then r
      else
        var branch := ExecAll(fuel, if Truthy(r.outcome.values[0]) then whenTrue else whenFalse, env, w);
        Run(r.trace + branch.trace, if branch.outcome.Went? then Went(env) else branch.outcome)
    case Return(e) =>
      var r := Eval(fuel, e, env, w);
      if r.outcome.Gave? then Run(r.trace, Returned(r.outcome.values[0])) else r
    case Throw(e) =>
      var r := Eval(fuel, e, env, w);
      if r.outcome.Gave? then Run(r.trace, Threw(r.outcome.values[0])) else r
  }

  function ExecAll(fuel: nat, ss: seq<Stmt>, env: Env, w: World): (r: Run)
    ensures !r.outcome.Gave?
    decreases fuel, 1, ss, 0
  {
    if ss == [] then Run([], Went(env))
    else
      var first := Exec(fuel, ss[0], env, w);
      if first.outcome.Went? then After(first.trace, ExecAll(fuel, ss[1..], first.outcome.env, w)) else first
  }
}
