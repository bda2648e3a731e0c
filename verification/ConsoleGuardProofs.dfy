/** The guarded program does what the original does, less the guarded calls when logging is off. */
module ConsoleGuardProofs {
  import opened Wrappers
  import opened ConsoleGuard
  import opened ConsoleRuntime

  // ----- what the guarded program computes with -----

  function RewriteBody(body: Body): Body {
    match body
    case Statements(ss) => Statements(RewriteStatements(ss))
    case Result(e) =>
      if IsConsoleCall(Unwrap(Rewrite(e))) then Statements([Guarded(Expression(Unwrap(Rewrite(e))))]) else Result(Rewrite(e))
  }

  /** A value of the original as the guarded program has it: closures carry guarded code. */
  function RewriteValue(v: Value): Value
    decreases v
  {
    match v
    case Closure(params, body, env) => Closure(params, RewriteBody(body), RewriteEnv(env))
    case _ => v
  }

  function RewriteEnv(env: Env): (r: Env)
    ensures |r| == |env|
    ensures forall i :: 0 <= i < |env| ==> r[i] == Binding(env[i].name, RewriteValue(env[i].value))
    decreases env
  {
    if env == [] then []
    else RewriteEnv(env[..|env| - 1]) + [Binding(env[|env| - 1].name, RewriteValue(env[|env| - 1].value))]
  }

  function RewriteValues(vs: seq<Value>): seq<Value> {
    seq(|vs|, i requires 0 <= i < |vs| => RewriteValue(vs[i]))
  }

  function RewriteTrace(trace: seq<Effect>): seq<Effect> {
    seq(|trace|, i requires 0 <= i < |trace| => Effect(trace[i].path, RewriteValues(trace[i].args)))
  }

  function RewriteRun(r: Run): Run {
    Run(RewriteTrace(r.trace),
        match r.outcome
        case Gave(values) => Gave(RewriteValues(values))
        case Went(env) => Went(RewriteEnv(env))
        case Returned(v) => Returned(RewriteValue(v))
        case Threw(v) => Threw(RewriteValue(v))
        case OutOfFuel => OutOfFuel)
  }

  // ----- the rewrite does not make or break console calls -----

  /** What the rewrite takes for a console call is a call that logs. */
  lemma ConsoleCallsLog(e: Expr)
    ensures IsConsoleCall(e) <==> Logs(e)
    ensures IsConsoleCall(Unwrap(e)) <==> LogsInside(e)
    decreases e
  {
    if e.Parenthesized? { ConsoleCallsLog(e.inner); }
  }

  lemma {:induction false} RewriteKeepsConsoleCalls(e: Expr)
    ensures IsConsoleCall(Rewrite(e)) == IsConsoleCall(e)
    ensures Unwrap(Rewrite(e)) == Rewrite(Unwrap(e))
  {
    match e
    case Parenthesized(inner) => RewriteKeepsConsoleCalls(inner);
    case Call(callee, args) =>
      if callee.Property? { assert Rewrite(callee) == Property(Rewrite(callee.target), callee.member); }
    case _ =>
  }

  lemma {:induction false} EvalUnwraps(fuel: nat, e: Expr, env: Env, w: World)
    ensures Eval(fuel, Unwrap(e), env, w) == Eval(fuel, e, env, w)
    decreases e
  {
    if e.Parenthesized? { EvalUnwraps(fuel, e.inner, env, w); }
  }

  // ----- environments -----

  lemma {:induction false} LookupRewrites(env: Env, x: string)
    ensures Lookup(RewriteEnv(env), x) == RewriteValue(Lookup(env, x))
  {
    if env != [] {
      assert RewriteEnv(env)[..|env| - 1] == RewriteEnv(env[..|env| - 1]);
      LookupRewrites(env[..|env| - 1], x);
    }
  }

  lemma EnvGrows(env: Env, b: Binding)
    ensures RewriteEnv(env + [b]) == RewriteEnv(env) + [Binding(b.name, RewriteValue(b.value))]
  {
    assert (env + [b])[..|env|] == env;
  }

  lemma ArgumentsRewrite(args: seq<Value>)
    ensures FirstOf(RewriteValues(args)) == RewriteValue(FirstOf(args))
    ensures RestOf(RewriteValues(args)) == RewriteValues(RestOf(args))
  {
  }

  lemma {:induction false} BindRewrites(env: Env, params: seq<string>, args: seq<Value>)
    ensures Bind(RewriteEnv(env), params, RewriteValues(args)) == RewriteEnv(Bind(env, params, args))
    decreases params
  {
    if params != [] {
      var b := Binding(params[0], FirstOf(args));
      EnvGrows(env, b);
      ArgumentsRewrite(args);
      BindRewrites(env + [b], params[1..], RestOf(args));
    }
  }

  lemma TracesJoin(a: seq<Effect>, b: seq<Effect>)
    ensures RewriteTrace(a + b) == RewriteTrace(a) + RewriteTrace(b)
  {
  }

  // ----- the simulation -----

  /** `console.log` and its like answer nothing. */
  ghost predicate ConsoleIsSilent(w: World) {
    forall m :: IsLogging(m) ==> w.answers(["console", m]).None?
  }

  /** The world of the guarded program, in which nothing is left out. */
  function Plain(w: World): World {
    w.(skip := false)
  }

  /** The reference leaves guarded calls out exactly when logging is off. */
  ghost predicate IsReference(w: World) {
    ConsoleIsSilent(w) && w.skip == !w.enabled
  }

  lemma ConsoleCallsGiveNothing(fuel: nat, e: Expr, env: Env, w: World)
    requires IsConsoleCall(e) && ConsoleIsSilent(w)
    ensures Eval(fuel, e, env, w).outcome.Gave? ==> Eval(fuel, e, env, w).outcome.values == [Nothing]
  {
    assert Eval(fuel, e.callee.target, env, w) == Gives(Host(["console"]));
    assert ["console"] + [e.callee.member] == ["console", e.callee.member];
    assert Eval(fuel, e.callee, env, w) == Gives(Host(["console", e.callee.member]));
  }

  lemma {:induction false} EvalSimulates(fuel: nat, e: Expr, env: Env, w: World)
    requires IsReference(w)
    ensures Eval(fuel, Rewrite(e), RewriteEnv(env), Plain(w)) == RewriteRun(Eval(fuel, e, env, w))
    decreases fuel, 1, e, 1
  {
    match e
    case Variable(x) => LookupRewrites(env, x);
    case Property(target, member) => EvalSimulates(fuel, target, env, w);
    case Parenthesized(inner) => EvalSimulates(fuel, inner, env, w);
    case Call(callee, args) => CallSimulates(fuel, e, env, w);
    case Arrow(params, result) =>
    case Function(params, body) =>
    case _ =>
  }

  lemma {:induction false} CallSimulates(fuel: nat, e: Expr, env: Env, w: World)
    requires IsReference(w) && e.Call?
    ensures Eval(fuel, Rewrite(e), RewriteEnv(env), Plain(w)) == RewriteRun(Eval(fuel, e, env, w))
    decreases fuel, 1, e, 0
  {
    var callee, args := e.callee, e.args;
    var f := Eval(fuel, callee, env, w);
    EvalSimulates(fuel, callee, env, w);
    if f.outcome.Gave? {
      var a := EvalEach(fuel, args, env, w);
      EachSimulates(fuel, args, env, w);
      TracesJoin(f.trace, a.trace);
      if a.outcome.Gave? {
        var r := Apply(fuel, f.outcome.values[0], a.outcome.values, w);
        ApplySimulates(fuel, f.outcome.values[0], a.outcome.values, w);
        TracesJoin(a.trace, r.trace);
        TracesJoin(f.trace, a.trace + r.trace);
      }
    }
  }

  /** The results of a first expression and of the rest, put together. */
  function Joined(first: Run, rest: Run): Run
    requires first.outcome.Gave?
  {
    Run(first.trace + rest.trace,
        if rest.outcome.Gave? then Gave(first.outcome.values + rest.outcome.values) else rest.outcome)
  }

  lemma JoinedRewrites(first: Run, rest: Run)
    requires first.outcome.Gave?
    ensures RewriteRun(Joined(first, rest)) == Joined(RewriteRun(first), RewriteRun(rest))
  {
    TracesJoin(first.trace, rest.trace);
    if rest.outcome.Gave? {
      assert RewriteValues(first.outcome.values + rest.outcome.values)
          == RewriteValues(first.outcome.values) + RewriteValues(rest.outcome.values);
    }
  }

  lemma EachJoins(fuel: nat, e: Expr, es: seq<Expr>, env: Env, w: World)
    ensures EvalEach(fuel, [e] + es, env, w)
         == if Eval(fuel, e, env, w).outcome.Gave? then Joined(Eval(fuel, e, env, w), EvalEach(fuel, es, env, w))
            else Eval(fuel, e, env, w)
  {
    assert ([e] + es)[1..] == es;
  }

  lemma {:induction false} EachSimulates(fuel: nat, es: seq<Expr>, env: Env, w: World)
    requires IsReference(w)
    ensures EvalEach(fuel, RewriteEach(es), RewriteEnv(env), Plain(w)) == RewriteRun(EvalEach(fuel, es, env, w))
    decreases fuel, 1, es, 0
  {
    if es != [] {
      EvalSimulates(fuel, es[0], env, w);
      EachSimulates(fuel, es[1..], env, w);
      assert es == [es[0]] + es[1..];
      EachJoins(fuel, es[0], es[1..], env, w);
      EachJoins(fuel, Rewrite(es[0]), RewriteEach(es[1..]), RewriteEnv(env), Plain(w));
      if Eval(fuel, es[0], env, w).outcome.Gave? {
        JoinedRewrites(Eval(fuel, es[0], env, w), EvalEach(fuel, es[1..], env, w));
      }
    }
  }

  lemma {:induction false} ApplySimulates(fuel: nat, f: Value, args: seq<Value>, w: World)
    requires IsReference(w)
    ensures Apply(fuel, RewriteValue(f), RewriteValues(args), Plain(w)) == RewriteRun(Apply(fuel, f, args, w))
    decreases fuel, 0
  {
    if f.Closure? && fuel > 0 {
      BindRewrites(f.env, f.params, args);
      BodySimulates(fuel - 1, f.body, Bind(f.env, f.params, args), w);
    }
  }

  lemma {:induction false} BodySimulates(fuel: nat, body: Body, env: Env, w: World)
    requires IsReference(w)
    ensures RunBody(fuel, RewriteBody(body), RewriteEnv(env), Plain(w)) == RewriteRun(RunBody(fuel, body, env, w))
    decreases fuel, 2
  {
    match body
    case Result(e) => ArrowSimulates(fuel, e, env, w);
    case Statements(ss) =>
      AllSimulates(fuel, ss, env, w);
      FinishRewrites(ExecAll(fuel, ss, env, w));
  }

  lemma FinishRewrites(r: Run)
    ensures Finish(RewriteRun(r)) == RewriteRun(Finish(r))
  {
    match r.outcome
    case Went(_) => assert RewriteValues([Nothing]) == [Nothing];
    case Returned(v) => assert RewriteValues([v]) == [RewriteValue(v)];
    case _ =>
  }

  /** An arrow whose body is a console call becomes a function with a guarded statement. */
  lemma {:induction false} ArrowSimulates(fuel: nat, e: Expr, env: Env, w: World)
    requires IsReference(w)
    ensures RunBody(fuel, RewriteBody(Result(e)), RewriteEnv(env), Plain(w)) == RewriteRun(RunBody(fuel, Result(e), env, w))
    decreases fuel, 1, e, 2
  {
    RewriteKeepsConsoleCalls(e);
    RewriteKeepsConsoleCalls(Unwrap(e));
    ConsoleCallsLog(e);
    EvalSimulates(fuel, e, env, w);
    if IsConsoleCall(Unwrap(e)) {
      var call := Unwrap(Rewrite(e));
      EvalUnwraps(fuel, Rewrite(e), RewriteEnv(env), Plain(w));
      ConsoleCallsGiveNothing(fuel, call, RewriteEnv(env), Plain(w));
      GuardedRuns(fuel, Expression(call), RewriteEnv(env), Plain(w));
    }
  }

  lemma GuardedRuns(fuel: nat, s: Stmt, env: Env, w: World)
    requires s.Expression?
    ensures Exec(fuel, Guarded(s), env, w) == if w.enabled then Exec(fuel, s, env, w) else Run([], Went(env))
    ensures ExecAll(fuel, [Guarded(s)], env, w) == Exec(fuel, Guarded(s), env, w)
  {
    assert ExecAll(fuel, [s], env, w) == Exec(fuel, s, env, w) by {
      assert [s][1..] == [];
    }
    assert [Guarded(s)][1..] == [];
    assert ExecAll(fuel, [], env, w) == Run([], Went(env));
  }

  lemma {:induction false} ExecSimulates(fuel: nat, s: Stmt, env: Env, w: World)
    requires IsReference(w)
    ensures Exec(fuel, RewriteStatement(s), RewriteEnv(env), Plain(w)) == RewriteRun(Exec(fuel, s, env, w))
    decreases fuel, 1, s, 1
  {
    match s
    case Expression(e) =>
      RewriteKeepsConsoleCalls(e);
      ConsoleCallsLog(e);
      EvalSimulates(fuel, e, env, w);
      if IsConsoleCall(e) { GuardedRuns(fuel, Expression(Rewrite(e)), RewriteEnv(env), Plain(w)); }
    case Declare(x, init) =>
      EvalSimulates(fuel, init, env, w);
      var r := Eval(fuel, init, env, w);
      if r.outcome.Gave? { BindRewrites(env, [x], r.outcome.values); }
    case If(condition, whenTrue, whenFalse) => IfSimulates(fuel, s, env, w);
    case Return(e) => EvalSimulates(fuel, e, env, w);
    case Throw(e) => EvalSimulates(fuel, e, env, w);
  }

  lemma {:induction false} IfSimulates(fuel: nat, s: Stmt, env: Env, w: World)
    requires IsReference(w) && s.If?
    ensures Exec(fuel, RewriteStatement(s), RewriteEnv(env), Plain(w)) == RewriteRun(Exec(fuel, s, env, w))
    decreases fuel, 1, s, 0
  {
    var r := Eval(fuel, s.condition, env, w);
    EvalSimulates(fuel, s.condition, env, w);
    if r.outcome.Gave? {
      var branch := if Truthy(r.outcome.values[0]) then s.whenTrue else s.whenFalse;
      AllSimulates(fuel, branch, env, w);
      TracesJoin(r.trace, ExecAll(fuel, branch, env, w).trace);
    }
  }

  lemma {:induction false} AllSimulates(fuel: nat, ss: seq<Stmt>, env: Env, w: World)
    requires IsReference(w)
    ensures ExecAll(fuel, RewriteStatements(ss), RewriteEnv(env), Plain(w)) == RewriteRun(ExecAll(fuel, ss, env, w))
    decreases fuel, 1, ss, 0
  {
    if ss != [] {
      var first := Exec(fuel, ss[0], env, w);
      ExecSimulates(fuel, ss[0], env, w);
      assert RewriteStatements(ss)[1..] == RewriteStatements(ss[1..]);
      if first.outcome.Went? {
        AllSimulates(fuel, ss[1..], first.outcome.env, w);
        TracesJoin(first.trace, ExecAll(fuel, ss[1..], first.outcome.env, w).trace);
      }
    }
  }

  // ----- the results -----

  /** Whatever the program and however deep its calls nest: with logging on the guarded program has
      the trace and the result of the original; with logging off, those of the original with
      statement and arrow-body console calls left out. */
  ghost predicate GuardingIsSafe(answers: seq<string> -> Option<int>) {
    forall fuel: nat, program: seq<Stmt>, enabled: bool ::
      ExecAll(fuel, RewriteStatements(program), [], World(answers, enabled, false))
      == RewriteRun(ExecAll(fuel, program, [], World(answers, enabled, !enabled)))
  }

  /** That holds exactly when the console methods answer nothing. */
  lemma GuardingIsSafeIffConsoleIsSilent(answers: seq<string> -> Option<int>)
    ensures GuardingIsSafe(answers) <==> ConsoleIsSilent(World(answers, true, false))
  {
    if ConsoleIsSilent(World(answers, true, false)) {
      forall fuel: nat, program: seq<Stmt>, enabled: bool
        ensures ExecAll(fuel, RewriteStatements(program), [], World(answers, enabled, false))
             == RewriteRun(ExecAll(fuel, program, [], World(answers, enabled, !enabled)))
      {
        AllSimulates(fuel, program, [], World(answers, enabled, !enabled));
      }
    } else {
      var m :| IsLogging(m) && answers(["console", m]).Some?;
      TalkingConsoleIsUnsafe(answers, m);
    }
  }

  /** `return (() => console.m())()` shows a method that answers something. */
  lemma TalkingConsoleIsUnsafe(answers: seq<string> -> Option<int>, m: string)
    requires IsLogging(m) && answers(["console", m]).Some?
    ensures !GuardingIsSafe(answers)
  {
    var call := Call(Property(Variable("console"), m), []);
    var w := World(answers, true, false);
    OriginalAnswers(call, m, w);
    GuardedAnswersNothing(call, w);
    var program := [Return(Call(Arrow([], call), []))];
    assert RewriteStatements(program) == [Return(Call(Function([], [Guarded(Expression(call))]), []))] by {
      assert Rewrite(call) == call && Unwrap(call) == call;
      assert Rewrite(program[0].e) == Call(Rewrite(Arrow([], call)), []);
      assert program[1..] == [];
    }
  }

  lemma OneReturn(fuel: nat, e: Expr, v: Value, w: World)
    requires Eval(fuel, e, [], w).outcome == Gave([v])
    ensures ExecAll(fuel, [Return(e)], [], w).outcome == Returned(v)
  {
  }

  lemma OriginalAnswers(call: Expr, m: string, w: World)
    requires call == Call(Property(Variable("console"), m), []) && w.answers(["console", m]).Some? && !w.skip
    ensures ExecAll(1, [Return(Call(Arrow([], call), []))], [], w).outcome == Returned(Amount(w.answers(["console", m]).value))
  {
    var v := Amount(w.answers(["console", m]).value);
    assert Eval(0, call.callee.target, [], w) == Gives(Host(["console"]));
    assert ["console"] + [m] == ["console", m];
    assert Eval(0, call.callee, [], w) == Gives(Host(["console", m]));
    assert Eval(0, call, [], w).outcome == Gave([v]);
    assert Apply(1, Closure([], Result(call), []), [], w).outcome == Gave([v]);
    assert Eval(1, Call(Arrow([], call), []), [], w).outcome == Gave([v]);
    OneReturn(1, Call(Arrow([], call), []), v, w);
  }

  lemma GuardedAnswersNothing(call: Expr, w: World)
    requires IsConsoleCall(call) && call.args == [] && w.enabled && !w.skip
    ensures ExecAll(1, [Return(Call(Function([], [Guarded(Expression(call))]), []))], [], w).outcome == Returned(Nothing)
  {
    var ss := [Guarded(Expression(call))];
    GuardedRuns(0, Expression(call), [], w);
    assert Eval(0, call.callee.target, [], w) == Gives(Host(["console"]));
    assert Eval(0, call, [], w).outcome.Gave?;
    assert ExecAll(0, ss, [], w).outcome == Went([]);
    assert Apply(1, Closure([], Statements(ss), []), [], w).outcome == Gave([Nothing]);
    assert Eval(1, Call(Function([], ss), []), [], w).outcome == Gave([Nothing]);
    OneReturn(1, Call(Function([], ss), []), Nothing, w);
  }
}
