/** The version-guard analysis is sound for everything it visits. */
module VersionSafety {
  import opened Wrappers
  import opened VersionGuards
  import opened VersionRuntime
  import opened VersionProofs
  import opened VersionReach

  /** Can evaluating it at version `r` reach an unsupported use, or define a function with one? */
  predicate Harms(n: Node, r: nat, mode: Mode)
    decreases n, 0
  {
    match n
    case Paren(e) => Harms(e, r, mode)
    case Not(e) => Harms(e, r, mode)
    case And(a, b) => Harms(a, r, mode) || (CanBe(a, true, r) && Harms(b, r, mode))
    case Or(a, b) => Harms(a, r, mode) || (CanBe(a, false, r) && Harms(b, r, mode))
    case Conditional(c, t, f) =>
      Harms(c, r, mode) || (CanBe(c, true, r) && Harms(t, r, mode)) || (CanBe(c, false, r) && Harms(f, r, mode))
    case AtLeast(_) => false
    case BadAtLeast(_, args) => HarmsAll(args, r, mode)
    case Use(_, required, parts) => HarmsAll(parts, r, mode) || (CanFinish(parts, r) && !Satisfies(r, required))
    case Function(name, d) =>
      HarmsAll(name, r, mode) || (CanFinish(name, r) && !IsSafeToCall(d.declared, d.parameters, d.body, r, mode))
    case _ => false
  }

  predicate HarmsAll(ns: seq<Node>, r: nat, mode: Mode)
    decreases ns, 0
  {
    ns != [] && (Harms(ns[0], r, mode) || (CanFinish([ns[0]], r) && HarmsAll(ns[1..], r, mode)))
  }

  predicate ParametersAreExpressions(ps: seq<Parameter>) {
    forall p <- ps :: AreExpressions(p.default) && AreExpressions(p.pattern)
  }

  /** The call may or may not give each argument. */
  predicate HarmsParameters(ps: seq<Parameter>, r: nat, mode: Mode)
    decreases ps, 0
  {
    ps != [] && (
      || HarmsAll(ps[0].default, r, mode)
      || HarmsAll(ps[0].pattern, r, mode)
      || (CanFinish(ps[0].pattern, r) && HarmsParameters(ps[1..], r, mode)))
  }

  /** Parameters visit cleanly, or what is written there cannot harm for another reason. */
  predicate ParametersAreFine(ps: seq<Parameter>, r: nat, mode: Mode)
    decreases ps, 1
  {
    VisitParameters(ps, Some(r), mode) == [] || (ParametersAreExpressions(ps) && !HarmsParameters(ps, r, mode))
  }

  /** Whoever may call this function can run it at version `r` without reaching an unsupported use. */
  predicate IsSafeToCall(declared: Version, parameters: seq<Parameter>, body: seq<Node>, r: nat, mode: Mode)
    decreases parameters, 2
  {
    Satisfies(r, declared) ==> ParametersAreFine(parameters, r, mode) && VisitStatements(body, Some(r), mode) == []
  }

  predicate ClosureIsSafe(c: Closure, r: nat, mode: Mode) {
    IsSafeToCall(c.declared, c.parameters, c.body, r, mode)
  }

  predicate StateIsSafe(st: State, r: nat, mode: Mode) {
    forall c <- st.closures :: ClosureIsSafe(c, r, mode)
  }

  predicate IsSafe(o: Outcome, r: nat, mode: Mode) {
    !o.completion.Unsupported? && StateIsSafe(o.state, r, mode)
  }

  // ----- early exits -----

  lemma {:induction false} TerminatingNeverNormal(n: Node, w: World, st: State, fuel: nat)
    requires AlwaysTerminates(n)
    ensures !Run(n, w, st, fuel).completion.Normal?
    decreases n
  {
    match n
    case Block(ss) => SomeTerminates(ss, w, st, fuel);
    case If(c, t, Some(e)) =>
      var o := Run(c, w, st, fuel);
      TerminatingNeverNormal(t, w, o.state, fuel);
      TerminatingNeverNormal(e, w, o.state, fuel);
    case _ =>
  }

  lemma {:induction false} SomeTerminates(ns: seq<Node>, w: World, st: State, fuel: nat)
    requires exists i :: 0 <= i < |ns| && AlwaysTerminates(ns[i])
    ensures !RunAll(ns, w, st, fuel).completion.Normal?
    decreases ns
  {
    var i :| 0 <= i < |ns| && AlwaysTerminates(ns[i]);
    if i == 0 {
      TerminatingNeverNormal(ns[0], w, st, fuel);
    } else if Run(ns[0], w, st, fuel).completion.Normal? {
      assert ns[1..][i - 1] == ns[i];
      SomeTerminates(ns[1..], w, Run(ns[0], w, st, fuel).state, fuel);
    }
  }

  /** Code after an early-exit guard runs only at versions that the guard leaves over. */
  lemma BoundAfterStatementHolds(s: Node, w: World, st: State, fuel: nat)
    requires Run(s, w, st, fuel).completion.Normal?
    ensures VersionAfter(s, Some(w.version)) == Some(w.version)
  {
    if s.If? {
      BoundsHold(s.condition, w, st, fuel);
      var o := Run(s.condition, w, st, fuel);
      if AlwaysTerminates(s.thenStatement) {
        TerminatingNeverNormal(s.thenStatement, w, o.state, fuel);
      }
      if s.elseStatement.Some? && AlwaysTerminates(s.elseStatement.value) {
        TerminatingNeverNormal(s.elseStatement.value, w, o.state, fuel);
      }
    }
  }

  // ----- the functions a run leaves behind -----

  /** No diagnostics under a context that holds means none under the runtime's own version. */
  lemma StatementsAtRuntimeVersion(ns: seq<Node>, v: Version, r: nat, mode: Mode)
    requires Satisfies(r, v) && VisitStatements(ns, v, mode) == []
    ensures VisitStatements(ns, Some(r), mode) == []
  {
    StatementsMonotone(ns, v, Some(r), mode, mode);
  }

  lemma NewClosureIsSafe(d: Declaration, declared: Version, current: Version, r: nat, mode: Mode)
    requires Satisfies(r, declared) ==> Satisfies(r, current)
    requires VisitFunction(d, declared, current, mode) == []
    ensures ClosureIsSafe(ClosureOf(d, declared), r, mode)
  {
    if Satisfies(r, declared) {
      ParametersMonotone(d.parameters, Merge(current, declared), Some(r), mode, mode);
      StatementsAtRuntimeVersion(d.body, BodyVersion(current, declared, mode.minimum), r, mode);
    }
  }

  lemma MemberClosuresAreSafe(m: Member, declared: Version, r: nat, mode: Mode)
    requires VisitMember(m, declared, Some(r), mode) == []
    ensures forall c <- MemberClosures(m, declared) :: ClosureIsSafe(c, r, mode)
  {
    var container := Merge(Some(r), declared);
    match m
    case StaticMember(_, _) =>
    case InstanceField(_, init) =>
      assert VisitStatements([init], container, mode) == Visit(init, container, mode) by { assert [init][1..] == []; }
      if Satisfies(r, declared) { assert container == Some(r); }
    case Method(_, d) => NewClosureIsSafe(d, Merge(d.declared, declared), container, r, mode);
  }

  lemma DefiningIsSafe(st: State, cs: seq<Closure>, r: nat, mode: Mode)
    requires StateIsSafe(st, r, mode) && forall c <- cs :: ClosureIsSafe(c, r, mode)
    ensures StateIsSafe(st.(closures := st.closures + cs), r, mode)
  {
  }

  // ----- runs -----

  /** A tree whose thorough visit at the runtime's version finds nothing never reaches an
      unsupported use. */
  lemma {:induction false} RunIsSafe(n: Node, w: World, st: State, fuel: nat, mode: Mode)
    requires mode.thorough && Visit(n, Some(w.version), mode) == []
    requires StateIsSafe(st, w.version, mode)
    ensures IsSafe(Run(n, w, st, fuel), w.version, mode)
    decreases fuel, n, if ShortCircuits(n) then 2 else 1
  {
    match n
    case And(_, _) => ConditionIsSafe(n, w, st, fuel, mode);
    case Or(_, _) => ConditionIsSafe(n, w, st, fuel, mode);
    case Paren(e) => RunIsSafe(e, w, st, fuel, mode);
    case Not(e) => RunIsSafe(e, w, st, fuel, mode);
    case Conditional(_, _, _) => GuardedIsSafe(n, w, st, fuel, mode);
    case Use(_, required, parts) =>
      AllAreSafe(parts, w, st, fuel, mode);
      var o := RunAll(parts, w, st, fuel);
      if o.completion.Normal? && fuel > 0 {
        CallbacksAreSafe(required, w, o.state, fuel - 1, mode);
      }
    case Function(_, _) => DefinitionIsSafe(n, w, st, fuel, mode);
    case Class(_, _, _, _) => DefinitionIsSafe(n, w, st, fuel, mode);
    case Block(ss) => StatementsAreSafe(ss, w, st, fuel, mode);
    case If(_, _, _) => GuardedIsSafe(n, w, st, fuel, mode);
    case While(c, body) =>
      RunIsSafe(c, w, st, fuel, mode);
      var o := Run(c, w, st, fuel);
      if Truthy(o) {
        RunIsSafe(body, w, o.state, fuel, mode);
        if fuel > 0 { RunIsSafe(n, w, Run(body, w, o.state, fuel).state, fuel - 1, mode); }
      }
    case Try(body, handler) =>
      RunIsSafe(body, w, st, fuel, mode);
      RunIsSafe(handler, w, Run(body, w, st, fuel).state, fuel, mode);
    case Return(vs) => AllAreSafe(vs, w, st, fuel, mode);
    case Throw(vs) => AllAreSafe(vs, w, st, fuel, mode);
    case _ =>
  }

  /** `?:` and `if`: an arm runs only at versions that its bound admits. */
  lemma {:induction false} GuardedIsSafe(n: Node, w: World, st: State, fuel: nat, mode: Mode)
    requires n.Conditional? || n.If?
    requires mode.thorough && Visit(n, Some(w.version), mode) == []
    requires StateIsSafe(st, w.version, mode)
    ensures IsSafe(Run(n, w, st, fuel), w.version, mode)
    decreases fuel, n, 0
  {
    var c := n.condition;
    ConditionIsSafe(c, w, st, fuel, mode);
    ConditionReturnsTrueBound(c, Some(w.version), mode);
    BoundsHold(c, w, st, fuel);
    var o := Run(c, w, st, fuel);
    if Truthy(o) {
      RunIsSafe(if n.Conditional? then n.whenTrue else n.thenStatement, w, o.state, fuel, mode);
    } else if Falsy(o) && (n.Conditional? || n.elseStatement.Some?) {
      RunIsSafe(if n.Conditional? then n.whenFalse else n.elseStatement.value, w, o.state, fuel, mode);
    }
  }

  lemma {:induction false} DefinitionIsSafe(n: Node, w: World, st: State, fuel: nat, mode: Mode)
    requires n.Function? || n.Class?
    requires mode.thorough && Visit(n, Some(w.version), mode) == []
    requires StateIsSafe(st, w.version, mode)
    ensures IsSafe(Run(n, w, st, fuel), w.version, mode)
    decreases fuel, n, 0
  {
    match n
    case Function(name, d) =>
      AllAreSafe(name, w, st, fuel, mode);
      NewClosureIsSafe(d, d.declared, Some(w.version), w.version, mode);
      DefiningIsSafe(RunAll(name, w, st, fuel).state, [ClosureOf(d, d.declared)], w.version, mode);
    case Class(declared, _, heritage, ms) =>
      AllAreSafe(heritage, w, st, fuel, mode);
      var o := RunAll(heritage, w, st, fuel);
      if o.completion.Normal? {
        MembersDefineSafely(ms, declared, w, o.state, fuel, mode);
        StaticsAreSafe(ms, declared, w, DefineMembers(ms, declared, w, o.state, fuel).state, fuel, mode);
      }
  }

  lemma {:induction false} ConditionIsSafe(n: Node, w: World, st: State, fuel: nat, mode: Mode)
    requires mode.thorough && VisitCondition(n, Some(w.version), mode).diagnostics == []
    requires StateIsSafe(st, w.version, mode)
    ensures IsSafe(Run(n, w, st, fuel), w.version, mode)
    decreases fuel, n, if ShortCircuits(n) then 1 else 2
  {
    match n
    case Paren(e) => ConditionIsSafe(e, w, st, fuel, mode);
    case Not(e) => ConditionIsSafe(e, w, st, fuel, mode);
    case And(l, r) =>
      ConditionIsSafe(l, w, st, fuel, mode);
      ConditionReturnsTrueBound(l, Some(w.version), mode);
      BoundsHold(l, w, st, fuel);
      var o := Run(l, w, st, fuel);
      if Truthy(o) { ConditionIsSafe(r, w, o.state, fuel, mode); }
    case Or(l, r) =>
      ConditionIsSafe(l, w, st, fuel, mode);
      BoundsHold(l, w, st, fuel);
      var o := Run(l, w, st, fuel);
      if Falsy(o) { ConditionIsSafe(r, w, o.state, fuel, mode); }
    case _ => RunIsSafe(n, w, st, fuel, mode);
  }

  lemma {:induction false} AllAreSafe(ns: seq<Node>, w: World, st: State, fuel: nat, mode: Mode)
    requires mode.thorough && VisitAll(ns, Some(w.version), mode) == []
    requires StateIsSafe(st, w.version, mode)
    ensures IsSafe(RunAll(ns, w, st, fuel), w.version, mode)
    decreases fuel, ns
  {
    if ns != [] {
      RunIsSafe(ns[0], w, st, fuel, mode);
      AllAreSafe(ns[1..], w, Run(ns[0], w, st, fuel).state, fuel, mode);
    }
  }

  lemma {:induction false} StatementsAreSafe(ns: seq<Node>, w: World, st: State, fuel: nat, mode: Mode)
    requires mode.thorough && VisitStatements(ns, Some(w.version), mode) == []
    requires StateIsSafe(st, w.version, mode)
    ensures IsSafe(RunAll(ns, w, st, fuel), w.version, mode)
    decreases fuel, ns
  {
    if ns != [] {
      RunIsSafe(ns[0], w, st, fuel, mode);
      var o := Run(ns[0], w, st, fuel);
      if o.completion.Normal? {
        BoundAfterStatementHolds(ns[0], w, st, fuel);
        StatementsAreSafe(ns[1..], w, o.state, fuel, mode);
      }
    }
  }

  lemma {:induction false} MembersDefineSafely(
      ms: seq<Member>, declared: Version, w: World, st: State, fuel: nat, mode: Mode)
    requires mode.thorough && VisitMembers(ms, declared, Some(w.version), mode) == []
    requires StateIsSafe(st, w.version, mode)
    ensures IsSafe(DefineMembers(ms, declared, w, st, fuel), w.version, mode)
    decreases fuel, ms
  {
    if ms != [] {
      AllAreSafe(ms[0].name, w, st, fuel, mode);
      var o := RunAll(ms[0].name, w, st, fuel);
      if o.completion.Normal? {
        MemberClosuresAreSafe(ms[0], declared, w.version, mode);
        DefiningIsSafe(o.state, MemberClosures(ms[0], declared), w.version, mode);
        var defined := o.state.(closures := o.state.closures + MemberClosures(ms[0], declared));
        MembersDefineSafely(ms[1..], declared, w, defined, fuel, mode);
      }
    }
  }

  lemma {:induction false} StaticsAreSafe(
      ms: seq<Member>, declared: Version, w: World, st: State, fuel: nat, mode: Mode)
    requires mode.thorough && VisitMembers(ms, declared, Some(w.version), mode) == []
    requires StateIsSafe(st, w.version, mode)
    ensures IsSafe(InitStatics(ms, w, st, fuel), w.version, mode)
    decreases fuel, ms
  {
    if ms != [] {
      if ms[0].StaticMember? {
        RunIsSafe(ms[0].init, w, st, fuel, mode);
        StaticsAreSafe(ms[1..], declared, w, Run(ms[0].init, w, st, fuel).state, fuel, mode);
      } else {
        StaticsAreSafe(ms[1..], declared, w, st, fuel, mode);
      }
    }
  }

  lemma {:induction false} CallbacksAreSafe(required: Version, w: World, st: State, fuel: nat, mode: Mode)
    requires mode.thorough && Satisfies(w.version, required)
    requires StateIsSafe(st, w.version, mode)
    ensures IsSafe(RunCallbacks(required, w, st, fuel), w.version, mode)
    decreases fuel
  {
    var choice := Ask(w, st);
    if fuel > 0 && choice < |st.closures| && MayCall(required, st.closures[choice].declared) {
      var c := st.closures[choice];
      assert c in st.closures;
      ClosureCallIsSafe(c, w, Ticked(st), fuel - 1, mode);
      CallbacksAreSafe(required, w, RunClosure(c, w, Ticked(st), fuel - 1).state, fuel - 1, mode);
    }
  }

  lemma {:induction false} ParametersAreSafe(ps: seq<Parameter>, w: World, st: State, fuel: nat, mode: Mode)
    requires mode.thorough && VisitParameters(ps, Some(w.version), mode) == []
    requires StateIsSafe(st, w.version, mode)
    ensures IsSafe(RunParameters(ps, w, st, fuel), w.version, mode)
    decreases fuel, ps
  {
    if ps != [] {
      var p := ps[0];
      if IsMissing(w, st) {
        AllAreSafe(p.default, w, Ticked(st), fuel, mode);
      }
      var given := if IsMissing(w, st) then RunAll(p.default, w, Ticked(st), fuel) else Outcome(Normal(true), Ticked(st));
      if given.completion.Normal? {
        AllAreSafe(p.pattern, w, given.state, fuel, mode);
        ParametersAreSafe(ps[1..], w, RunAll(p.pattern, w, given.state, fuel).state, fuel, mode);
      }
    }
  }

  lemma {:induction false} HarmlessIsSafe(n: Node, w: World, st: State, fuel: nat, mode: Mode)
    requires IsExpression(n) && !Harms(n, w.version, mode)
    requires mode.thorough && StateIsSafe(st, w.version, mode)
    ensures IsSafe(Run(n, w, st, fuel), w.version, mode)
    decreases fuel, n
  {
    match n
    case Paren(e) => HarmlessIsSafe(e, w, st, fuel, mode);
    case Not(e) => HarmlessIsSafe(e, w, st, fuel, mode);
    case And(a, b) =>
      HarmlessIsSafe(a, w, st, fuel, mode);
      if Truthy(Run(a, w, st, fuel)) {
        OnlyWhatItCanBe(a, w, st, fuel);
        HarmlessIsSafe(b, w, Run(a, w, st, fuel).state, fuel, mode);
      }
    case Or(a, b) =>
      HarmlessIsSafe(a, w, st, fuel, mode);
      if Falsy(Run(a, w, st, fuel)) {
        OnlyWhatItCanBe(a, w, st, fuel);
        HarmlessIsSafe(b, w, Run(a, w, st, fuel).state, fuel, mode);
      }
    case Conditional(c, t, f) =>
      HarmlessIsSafe(c, w, st, fuel, mode);
      var o := Run(c, w, st, fuel);
      if o.completion.Normal? {
        OnlyWhatItCanBe(c, w, st, fuel);
        HarmlessIsSafe(if Truthy(o) then t else f, w, o.state, fuel, mode);
      }
    case AtLeast(_) =>
    case BadAtLeast(_, args) => HarmlessAreSafe(args, w, st, fuel, mode);
    case Use(_, required, parts) =>
      HarmlessAreSafe(parts, w, st, fuel, mode);
      var o := RunAll(parts, w, st, fuel);
      if o.completion.Normal? {
        OnlyIfItCanFinish(parts, w, st, fuel);
        if fuel > 0 { CallbacksAreSafe(required, w, o.state, fuel - 1, mode); }
      }
    case Function(name, d) =>
      HarmlessAreSafe(name, w, st, fuel, mode);
      var o := RunAll(name, w, st, fuel);
      if o.completion.Normal? {
        OnlyIfItCanFinish(name, w, st, fuel);
        DefiningIsSafe(o.state, [ClosureOf(d, d.declared)], w.version, mode);
      }
  }

  lemma {:induction false} HarmlessAreSafe(ns: seq<Node>, w: World, st: State, fuel: nat, mode: Mode)
    requires AreExpressions(ns) && !HarmsAll(ns, w.version, mode)
    requires mode.thorough && StateIsSafe(st, w.version, mode)
    ensures IsSafe(RunAll(ns, w, st, fuel), w.version, mode)
    decreases fuel, ns
  {
    if ns != [] {
      HarmlessIsSafe(ns[0], w, st, fuel, mode);
      var o := Run(ns[0], w, st, fuel);
      if o.completion.Normal? {
        OnlyWhatItCanBe(ns[0], w, st, fuel);
        HarmlessAreSafe(ns[1..], w, o.state, fuel, mode);
      }
    }
  }

  lemma {:induction false} HarmlessParametersAreSafe(ps: seq<Parameter>, w: World, st: State, fuel: nat, mode: Mode)
    requires ParametersAreExpressions(ps) && !HarmsParameters(ps, w.version, mode)
    requires mode.thorough && StateIsSafe(st, w.version, mode)
    ensures IsSafe(RunParameters(ps, w, st, fuel), w.version, mode)
    decreases fuel, ps
  {
    if ps != [] {
      var p := ps[0];
      HarmlessAreSafe(p.default, w, Ticked(st), fuel, mode);
      var given := if IsMissing(w, st) then RunAll(p.default, w, Ticked(st), fuel) else Outcome(Normal(true), Ticked(st));
      HarmlessAreSafe(p.pattern, w, given.state, fuel, mode);
      var bound := RunAll(p.pattern, w, given.state, fuel);
      if given.completion.Normal? && bound.completion.Normal? {
        OnlyIfItCanFinish(p.pattern, w, given.state, fuel);
        HarmlessParametersAreSafe(ps[1..], w, bound.state, fuel, mode);
      }
    }
  }

  lemma {:induction false} ClosureCallIsSafe(c: Closure, w: World, st: State, fuel: nat, mode: Mode)
    requires mode.thorough && Satisfies(w.version, c.declared) && ClosureIsSafe(c, w.version, mode)
    requires StateIsSafe(st, w.version, mode)
    ensures IsSafe(RunClosure(c, w, st, fuel), w.version, mode)
    decreases fuel
  {
    assert ParametersAreFine(c.parameters, w.version, mode);
    if VisitParameters(c.parameters, Some(w.version), mode) == [] {
      ParametersAreSafe(c.parameters, w, st, fuel, mode);
    } else {
      HarmlessParametersAreSafe(c.parameters, w, st, fuel, mode);
    }
    StatementsAreSafe(c.body, w, RunParameters(c.parameters, w, st, fuel).state, fuel, mode);
  }

  // ----- whole programs -----

  /** A program whose thorough visit finds nothing reaches no unsupported use, neither when it runs nor
      when its functions are called afterwards, in any run of any length on any runtime that meets
      the minimum. */
  lemma ThoroughlyCleanProgramsAreSafe(program: seq<Node>, minimum: Version, w: World, fuel: nat)
    requires Validate(program, Mode(minimum, true)) == []
    requires Satisfies(w.version, minimum)
    ensures !RunModule(program, w, fuel).completion.Unsupported?
  {
    var mode := Mode(minimum, true);
    StatementsAtRuntimeVersion(program, minimum, w.version, mode);
    StatementsAreSafe(program, w, State([], 0), fuel, mode);
    var o := RunAll(program, w, State([], 0), fuel);
    if o.completion.Normal? { CallbacksAreSafe(Some(w.version), w, o.state, fuel, mode); }
  }

  /** What the code reports is among what the thorough visit reports, in the same order. */
  lemma ThoroughReportsMore(program: seq<Node>, minimum: Version)
    ensures Subsequence(Validate(program, Mode(minimum, false)), Validate(program, Mode(minimum, true)))
  {
    StatementsMonotone(program, minimum, minimum, Mode(minimum, true), Mode(minimum, false));
  }

  // ----- programs with nothing to skip -----

  /** No default values, no computed names of functions, and no `extends` expression, decorator or
      computed field name in a class that declares a version. */
  predicate SkipsNothing(n: Node) {
    match n
    case Paren(e) => SkipsNothing(e)
    case Not(e) => SkipsNothing(e)
    case And(l, r) => SkipsNothing(l) && SkipsNothing(r)
    case Or(l, r) => SkipsNothing(l) && SkipsNothing(r)
    case Conditional(c, t, f) => SkipsNothing(c) && SkipsNothing(t) && SkipsNothing(f)
    case AtLeast(_) => true
    case BadAtLeast(_, args) => forall k <- args :: SkipsNothing(k)
    case Use(_, _, parts) => forall k <- parts :: SkipsNothing(k)
    case Function(name, decl) => name == [] && FunctionSkipsNothing(decl)
    case Class(declared, _, heritage, ms) =>
      && (declared.None? || heritage == [])
      && (forall k <- heritage :: SkipsNothing(k))
      && (forall m <- ms :: MemberSkipsNothing(m, declared))
    case Block(ss) => forall k <- ss :: SkipsNothing(k)
    case If(c, t, None) => SkipsNothing(c) && SkipsNothing(t)
    case If(c, t, Some(e)) => SkipsNothing(c) && SkipsNothing(t) && SkipsNothing(e)
    case While(c, body) => SkipsNothing(c) && SkipsNothing(body)
    case Try(body, handler) => SkipsNothing(body) && SkipsNothing(handler)
    case Return(vs) => forall k <- vs :: SkipsNothing(k)
    case Throw(vs) => forall k <- vs :: SkipsNothing(k)
    case _ => true
  }

  predicate FunctionSkipsNothing(d: Declaration) {
    (forall p <- d.parameters :: ParameterSkipsNothing(p)) && (forall k <- d.body :: SkipsNothing(k))
  }

  predicate ParameterSkipsNothing(p: Parameter) {
    p.default == [] && forall k <- p.pattern :: SkipsNothing(k)
  }

  predicate MemberSkipsNothing(m: Member, declared: Version) {
    match m
    case StaticMember(name, init) => (forall k <- name :: SkipsNothing(k)) && SkipsNothing(init)
    case InstanceField(name, init) =>
      (declared.None? || name == []) && (forall k <- name :: SkipsNothing(k)) && SkipsNothing(init)
    case Method(name, decl) => name == [] && FunctionSkipsNothing(decl)
  }

  /** Then the thorough visit finds something only if the code does. */
  lemma {:induction false} NothingSkipped(n: Node, current: Version, minimum: Version)
    requires SkipsNothing(n) && Visit(n, current, Mode(minimum, false)) == []
    ensures Visit(n, current, Mode(minimum, true)) == []
    decreases n, if ShortCircuits(n) then 2 else 1
  {
    match n
    case And(_, _) => ConditionSkipsNothing(n, current, minimum);
    case Or(_, _) => ConditionSkipsNothing(n, current, minimum);
    case Paren(e) => NothingSkipped(e, current, minimum);
    case Not(e) => NothingSkipped(e, current, minimum);
    case Conditional(c, _, _) => GuardedSkipsNothing(n, current, minimum);
    case Use(_, _, parts) => AllSkipNothing(parts, current, minimum);
    case Function(_, d) => NothingSkippedInFunction(d, d.declared, current, minimum);
    case Class(declared, _, heritage, ms) =>
      AllSkipNothing(heritage, Merge(current, declared), minimum);
      MembersSkipNothing(ms, declared, current, minimum);
    case Block(ss) => StatementsSkipNothing(ss, current, minimum);
    case If(_, _, _) => GuardedSkipsNothing(n, current, minimum);
    case While(c, body) => NothingSkipped(c, current, minimum); NothingSkipped(body, current, minimum);
    case Try(body, handler) => NothingSkipped(body, current, minimum); NothingSkipped(handler, current, minimum);
    case Return(vs) => AllSkipNothing(vs, current, minimum);
    case Throw(vs) => AllSkipNothing(vs, current, minimum);
    case _ =>
  }

  lemma {:induction false} GuardedSkipsNothing(n: Node, current: Version, minimum: Version)
    requires n.Conditional? || n.If?
    requires SkipsNothing(n) && Visit(n, current, Mode(minimum, false)) == []
    ensures Visit(n, current, Mode(minimum, true)) == []
    decreases n, 0
  {
    var c := n.condition;
    var thenVersion, elseVersion := Merge(current, BoundWhenTrue(c)), Merge(current, BoundWhenFalse(c));
    ConditionBounds(c, current, current, Mode(minimum, true), Mode(minimum, false));
    ConditionSkipsNothing(c, current, minimum);
    NothingSkipped(if n.Conditional? then n.whenTrue else n.thenStatement, thenVersion, minimum);
    if n.Conditional? || n.elseStatement.Some? {
      NothingSkipped(if n.Conditional? then n.whenFalse else n.elseStatement.value, elseVersion, minimum);
    }
  }

  lemma {:induction false} ConditionSkipsNothing(n: Node, current: Version, minimum: Version)
    requires SkipsNothing(n) && VisitCondition(n, current, Mode(minimum, false)).diagnostics == []
    ensures VisitCondition(n, current, Mode(minimum, true)).diagnostics == []
    decreases n, if ShortCircuits(n) then 1 else 2
  {
    match n
    case Paren(e) => ConditionSkipsNothing(e, current, minimum);
    case Not(e) => ConditionSkipsNothing(e, current, minimum);
    case And(l, r) => OperandsSkipNothing(n, l, r, BoundWhenTrue(l), current, minimum);
    case Or(l, r) => OperandsSkipNothing(n, l, r, BoundWhenFalse(l), current, minimum);
    case _ => NothingSkipped(n, current, minimum);
  }

  lemma {:induction false} OperandsSkipNothing(
      n: Node, l: Node, r: Node, proved: Version, current: Version, minimum: Version)
    requires (n == And(l, r) && proved == BoundWhenTrue(l)) || (n == Or(l, r) && proved == BoundWhenFalse(l))
    requires SkipsNothing(n) && VisitCondition(n, current, Mode(minimum, false)).diagnostics == []
    ensures VisitCondition(n, current, Mode(minimum, true)).diagnostics == []
    decreases n, 0
  {
    ConditionBounds(l, current, current, Mode(minimum, true), Mode(minimum, false));
    ConditionSkipsNothing(l, current, minimum);
    ConditionSkipsNothing(r, Merge(current, proved), minimum);
  }

  lemma {:induction false} AllSkipNothing(ns: seq<Node>, current: Version, minimum: Version)
    requires forall k <- ns :: SkipsNothing(k)
    requires VisitAll(ns, current, Mode(minimum, false)) == []
    ensures VisitAll(ns, current, Mode(minimum, true)) == []
    decreases ns
  {
    if ns != [] {
      NothingSkipped(ns[0], current, minimum);
      AllSkipNothing(ns[1..], current, minimum);
    }
  }

  lemma {:induction false} StatementsSkipNothing(ns: seq<Node>, current: Version, minimum: Version)
    requires forall k <- ns :: SkipsNothing(k)
    requires VisitStatements(ns, current, Mode(minimum, false)) == []
    ensures VisitStatements(ns, current, Mode(minimum, true)) == []
    decreases ns
  {
    if ns != [] {
      NothingSkipped(ns[0], current, minimum);
      StatementsSkipNothing(ns[1..], VersionAfter(ns[0], current), minimum);
    }
  }

  lemma {:induction false} ParametersSkipNothing(ps: seq<Parameter>, current: Version, minimum: Version)
    requires forall p <- ps :: ParameterSkipsNothing(p)
    requires VisitParameters(ps, current, Mode(minimum, false)) == []
    ensures VisitParameters(ps, current, Mode(minimum, true)) == []
    decreases ps
  {
    if ps != [] {
      assert ParameterSkipsNothing(ps[0]);
      AllSkipNothing(ps[0].pattern, current, minimum);
      ParametersSkipNothing(ps[1..], current, minimum);
      assert VisitParameter(ps[0], current, Mode(minimum, true)) == [];
    }
  }

  lemma {:induction false} NothingSkippedInFunction(
      d: Declaration, declared: Version, current: Version, minimum: Version)
    requires FunctionSkipsNothing(d) && VisitFunction(d, declared, current, Mode(minimum, false)) == []
    ensures VisitFunction(d, declared, current, Mode(minimum, true)) == []
    decreases d
  {
    ParametersSkipNothing(d.parameters, Merge(current, declared), minimum);
    StatementsSkipNothing(d.body, BodyVersion(current, declared, minimum), minimum);
  }

  lemma {:induction false} MembersSkipNothing(ms: seq<Member>, declared: Version, current: Version, minimum: Version)
    requires forall m <- ms :: MemberSkipsNothing(m, declared)
    requires VisitMembers(ms, declared, current, Mode(minimum, false)) == []
    ensures VisitMembers(ms, declared, current, Mode(minimum, true)) == []
    decreases ms
  {
    if ms != [] {
      NothingSkippedInMember(ms[0], declared, current, minimum);
      MembersSkipNothing(ms[1..], declared, current, minimum);
    }
  }

  lemma {:induction false} NothingSkippedInMember(m: Member, declared: Version, current: Version, minimum: Version)
    requires MemberSkipsNothing(m, declared) && VisitMember(m, declared, current, Mode(minimum, false)) == []
    ensures VisitMember(m, declared, current, Mode(minimum, true)) == []
    decreases m
  {
    var container := Merge(current, declared);
    match m
    case StaticMember(name, init) =>
      AllSkipNothing(name, current, minimum);
      NothingSkipped(init, current, minimum);
    case InstanceField(name, init) =>
      AllSkipNothing(name, container, minimum);
      NothingSkipped(init, container, minimum);
    case Method(_, d) => NothingSkippedInFunction(d, Merge(d.declared, declared), container, minimum);
  }

  /** For such programs the code's own verdict is sound: no diagnostics, no unsupported use. */
  lemma ValidatedProgramsAreSafe(program: seq<Node>, minimum: Version, w: World, fuel: nat)
    requires forall k <- program :: SkipsNothing(k)
    requires Validate(program, Mode(minimum, false)) == []
    requires Satisfies(w.version, minimum)
    ensures !RunModule(program, w, fuel).completion.Unsupported?
  {
    StatementsSkipNothing(program, minimum, minimum);
    ThoroughlyCleanProgramsAreSafe(program, minimum, w, fuel);
  }
}
