/** Exactly when the parts that the validator skips are safe, and exactly when its bounds are the
    greatest that hold. */
module VersionExactness {
  import opened Wrappers
  import opened VersionGuards
  import opened VersionRuntime
  import opened VersionProofs
  import opened VersionSafety
  import opened VersionReach

  // ----- functions are never forgotten -----

  predicate Keeps(st: State, o: Outcome) {
    forall c <- st.closures :: c in o.state.closures
  }

  lemma {:induction false} RunKeeps(n: Node, w: World, st: State, fuel: nat)
    ensures Keeps(st, Run(n, w, st, fuel))
    decreases fuel, n, 2
  {
    match n
    case Paren(e) => RunKeeps(e, w, st, fuel);
    case Not(e) => RunKeeps(e, w, st, fuel);
    case BadAtLeast(_, args) => AllKeep(args, w, st, fuel);
    case Use(_, _, _) => UseKeeps(n, w, st, fuel);
    case Function(name, _) => AllKeep(name, w, st, fuel);
    case Class(_, _, _, _) => ClassKeeps(n, w, st, fuel);
    case Block(ss) => AllKeep(ss, w, st, fuel);
    case Return(vs) => AllKeep(vs, w, st, fuel);
    case Throw(vs) => AllKeep(vs, w, st, fuel);
    case While(_, _) => FlowKeeps(n, w, st, fuel);
    case Try(_, _) => FlowKeeps(n, w, st, fuel);
    case If(_, _, _) => FlowKeeps(n, w, st, fuel);
    case And(a, b) => TwoKeep(n, a, b, w, st, fuel);
    case Or(a, b) => TwoKeep(n, a, b, w, st, fuel);
    case Conditional(c, t, f) => TwoKeep(n, c, t, w, st, fuel); TwoKeep(n, c, f, w, st, fuel);
    case _ =>
  }

  lemma {:induction false} FlowKeeps(n: Node, w: World, st: State, fuel: nat)
    requires n.While? || n.Try? || n.If?
    ensures Keeps(st, Run(n, w, st, fuel))
    decreases fuel, n, 1
  {
    match n
    case While(c, body) =>
      TwoKeep(n, c, body, w, st, fuel);
      if fuel > 0 { RunKeeps(n, w, Run(body, w, Run(c, w, st, fuel).state, fuel).state, fuel - 1); }
    case Try(body, handler) => TwoKeep(n, body, handler, w, st, fuel);
    case If(c, t, e) =>
      TwoKeep(n, c, t, w, st, fuel);
      if e.Some? { TwoKeep(n, c, e.value, w, st, fuel); }
  }

  lemma {:induction false} UseKeeps(n: Node, w: World, st: State, fuel: nat)
    requires n.Use?
    ensures Keeps(st, Run(n, w, st, fuel))
    decreases fuel, n, 0
  {
    AllKeep(n.parts, w, st, fuel);
    if fuel > 0 { CallbacksKeep(n.required, w, RunAll(n.parts, w, st, fuel).state, fuel - 1); }
  }

  lemma {:induction false} ClassKeeps(n: Node, w: World, st: State, fuel: nat)
    requires n.Class?
    ensures Keeps(st, Run(n, w, st, fuel))
    decreases fuel, n, 0
  {
    AllKeep(n.heritage, w, st, fuel);
    var o := RunAll(n.heritage, w, st, fuel);
    DefinitionsKeep(n.members, n.declared, w, o.state, fuel);
    StaticsKeep(n.members, w, DefineMembers(n.members, n.declared, w, o.state, fuel).state, fuel);
  }

  lemma {:induction false} TwoKeep(n: Node, a: Node, b: Node, w: World, st: State, fuel: nat)
    requires a < n && b < n
    ensures Keeps(st, Run(a, w, st, fuel)) && Keeps(st, Run(b, w, Run(a, w, st, fuel).state, fuel))
    decreases fuel, n, 0
  {
    RunKeeps(a, w, st, fuel);
    RunKeeps(b, w, Run(a, w, st, fuel).state, fuel);
  }

  lemma {:induction false} AllKeep(ns: seq<Node>, w: World, st: State, fuel: nat)
    ensures Keeps(st, RunAll(ns, w, st, fuel))
    decreases fuel, ns
  {
    if ns != [] {
      RunKeeps(ns[0], w, st, fuel);
      AllKeep(ns[1..], w, Run(ns[0], w, st, fuel).state, fuel);
    }
  }

  lemma {:induction false} DefinitionsKeep(ms: seq<Member>, declared: Version, w: World, st: State, fuel: nat)
    ensures Keeps(st, DefineMembers(ms, declared, w, st, fuel))
    decreases fuel, ms
  {
    if ms != [] {
      AllKeep(ms[0].name, w, st, fuel);
      var o := RunAll(ms[0].name, w, st, fuel);
      var defined := o.state.(closures := o.state.closures + MemberClosures(ms[0], declared));
      DefinitionsKeep(ms[1..], declared, w, defined, fuel);
    }
  }

  lemma {:induction false} StaticsKeep(ms: seq<Member>, w: World, st: State, fuel: nat)
    ensures Keeps(st, InitStatics(ms, w, st, fuel))
    decreases fuel, ms
  {
    if ms != [] {
      if ms[0].StaticMember? {
        RunKeeps(ms[0].init, w, st, fuel);
        StaticsKeep(ms[1..], w, Run(ms[0].init, w, st, fuel).state, fuel);
      } else {
        StaticsKeep(ms[1..], w, st, fuel);
      }
    }
  }

  lemma {:induction false} CallbacksKeep(required: Version, w: World, st: State, fuel: nat)
    ensures Keeps(st, RunCallbacks(required, w, st, fuel))
    decreases fuel
  {
    var choice := Ask(w, st);
    if fuel > 0 && choice < |st.closures| {
      var c := st.closures[choice];
      ClosureKeeps(c, w, Ticked(st), fuel - 1);
      CallbacksKeep(required, w, RunClosure(c, w, Ticked(st), fuel - 1).state, fuel - 1);
    }
  }

  lemma {:induction false} ParametersKeep(ps: seq<Parameter>, w: World, st: State, fuel: nat)
    ensures Keeps(st, RunParameters(ps, w, st, fuel))
    decreases fuel, ps
  {
    if ps != [] {
      AllKeep(ps[0].default, w, Ticked(st), fuel);
      var given := if IsMissing(w, st) then RunAll(ps[0].default, w, Ticked(st), fuel) else Outcome(Normal(true), Ticked(st));
      AllKeep(ps[0].pattern, w, given.state, fuel);
      ParametersKeep(ps[1..], w, RunAll(ps[0].pattern, w, given.state, fuel).state, fuel);
    }
  }

  lemma {:induction false} ClosureKeeps(c: Closure, w: World, st: State, fuel: nat)
    ensures Keeps(st, RunClosure(c, w, st, fuel))
    decreases fuel
  {
    ParametersKeep(c.parameters, w, st, fuel);
    AllKeep(c.body, w, RunParameters(c.parameters, w, st, fuel).state, fuel);
  }

  /** What harm a run has done, the rest of it does not undo. */
  lemma HarmStays(st: State, o: Outcome, r: nat, mode: Mode)
    requires Keeps(st, o) && !StateIsSafe(st, r, mode)
    ensures !IsSafe(o, r, mode)
  {
    var c :| c in st.closures && !ClosureIsSafe(c, r, mode);
    assert c in o.state.closures;
  }

  // ----- harm is reached under some answers -----

  /** Defines no function of its own. */
  predicate IsFirstOrder(n: Node) {
    match n
    case Paren(e) => IsFirstOrder(e)
    case Not(e) => IsFirstOrder(e)
    case And(a, b) => IsFirstOrder(a) && IsFirstOrder(b)
    case Or(a, b) => IsFirstOrder(a) && IsFirstOrder(b)
    case Conditional(c, t, f) => IsFirstOrder(c) && IsFirstOrder(t) && IsFirstOrder(f)
    case BadAtLeast(_, args) => forall k <- args :: IsFirstOrder(k)
    case Use(_, _, parts) => forall k <- parts :: IsFirstOrder(k)
    case _ => n.AtLeast?
  }

  predicate AreFirstOrder(ns: seq<Node>) {
    forall k <- ns :: IsFirstOrder(k)
  }

  /** Without functions of its own, harm is an unsupported use at once. */
  predicate Fails(o: Outcome, r: nat, mode: Mode, firstOrder: bool) {
    !IsSafe(o, r, mode) && (firstOrder ==> o.completion.Unsupported?)
  }

  ghost predicate LeadsToHarm(n: Node, r: nat, st: State, fuel: nat, answers: seq<nat>, mode: Mode) {
    forall w: World :: w.version == r && Follows(w, st.tick, answers) ==> Fails(Run(n, w, st, fuel), r, mode, IsFirstOrder(n))
  }

  ghost predicate AllLeadToHarm(ns: seq<Node>, r: nat, st: State, fuel: nat, answers: seq<nat>, mode: Mode) {
    forall w: World :: w.version == r && Follows(w, st.tick, answers) ==>
      Fails(RunAll(ns, w, st, fuel), r, mode, AreFirstOrder(ns))
  }

  lemma {:induction false} HarmIsReached(n: Node, r: nat, st: State, fuel: nat, mode: Mode) returns (answers: seq<nat>)
    requires IsExpression(n) && Harms(n, r, mode) && fuel > 0
    ensures LeadsToHarm(n, r, st, fuel, answers, mode)
    decreases n, 1
  {
    match n
    case Paren(e) => answers := HarmIsReached(e, r, st, fuel, mode);
    case Not(e) => answers := HarmIsReached(e, r, st, fuel, mode);
    case And(a, b) =>
      if Harms(a, r, mode) { answers := FirstHarms(n, a, r, st, fuel, mode); }
      else { answers := SecondHarms(n, a, true, b, r, st, fuel, mode); }
    case Or(a, b) =>
      if Harms(a, r, mode) { answers := FirstHarms(n, a, r, st, fuel, mode); }
      else { answers := SecondHarms(n, a, false, b, r, st, fuel, mode); }
    case Conditional(c, t, f) =>
      if Harms(c, r, mode) { answers := FirstHarms(n, c, r, st, fuel, mode); }
      else if CanBe(c, true, r) && Harms(t, r, mode) { answers := SecondHarms(n, c, true, t, r, st, fuel, mode); }
      else { answers := SecondHarms(n, c, false, f, r, st, fuel, mode); }
    case BadAtLeast(_, args) => answers := PartHarms(n, args, r, st, fuel, mode);
    case Use(_, _, parts) =>
      if HarmsAll(parts, r, mode) { answers := PartHarms(n, parts, r, st, fuel, mode); }
      else { var end; answers, end := FinishReached(parts, r, st, fuel); }
    case Function(name, d) =>
      if HarmsAll(name, r, mode) { answers := PartHarms(n, name, r, st, fuel, mode); }
      else { answers := DefinitionHarms(n, r, st, fuel, mode); }
  }

  lemma {:induction false} FirstHarms(n: Node, a: Node, r: nat, st: State, fuel: nat, mode: Mode)
      returns (answers: seq<nat>)
    requires (n.And? && n.left == a) || (n.Or? && n.left == a) || (n.Conditional? && n.condition == a)
    requires IsExpression(a) && Harms(a, r, mode) && fuel > 0
    ensures LeadsToHarm(n, r, st, fuel, answers, mode)
    decreases n, 0
  {
    answers := HarmIsReached(a, r, st, fuel, mode);
    forall w: World | w.version == r && Follows(w, st.tick, answers) ensures Fails(Run(n, w, st, fuel), r, mode, IsFirstOrder(n)) {
      var o := Run(a, w, st, fuel);
      if o.completion.Normal? && Run(n, w, st, fuel) != o {
        var b := if !n.Conditional? then n.right else if Truthy(o) then n.whenTrue else n.whenFalse;
        RunKeeps(b, w, o.state, fuel);
        HarmStays(o.state, Run(b, w, o.state, fuel), r, mode);
      }
    }
  }

  lemma {:induction false} SecondHarms(n: Node, a: Node, first: bool, b: Node, r: nat, st: State, fuel: nat, mode: Mode)
      returns (answers: seq<nat>)
    requires (n == And(a, b) && first) || (n == Or(a, b) && !first)
          || (n.Conditional? && n.condition == a && b == if first then n.whenTrue else n.whenFalse)
    requires IsExpression(a) && IsExpression(b) && CanBe(a, first, r) && Harms(b, r, mode) && fuel > 0
    ensures LeadsToHarm(n, r, st, fuel, answers, mode)
    decreases n, 0
  {
    var one, mid := CanBeReached(a, first, r, st, fuel);
    var two := HarmIsReached(b, r, mid, fuel, mode);
    answers := one + two;
    forall w: World | w.version == r && Follows(w, st.tick, answers) ensures Fails(Run(n, w, st, fuel), r, mode, IsFirstOrder(n)) {
      FollowsBoth(w, st.tick, one, two);
      HarmInSecond(n, a, first, b, w, st, fuel, mid, mode);
    }
  }

  lemma HarmInSecond(n: Node, a: Node, first: bool, b: Node, w: World, st: State, fuel: nat, mid: State, mode: Mode)
    requires (n == And(a, b) && first) || (n == Or(a, b) && !first)
          || (n.Conditional? && n.condition == a && b == if first then n.whenTrue else n.whenFalse)
    requires Run(a, w, st, fuel) == Outcome(Normal(first), mid)
    requires Fails(Run(b, w, mid, fuel), w.version, mode, IsFirstOrder(b))
    ensures Fails(Run(n, w, st, fuel), w.version, mode, IsFirstOrder(n))
  {
  }

  lemma {:induction false} PartHarms(n: Node, parts: seq<Node>, r: nat, st: State, fuel: nat, mode: Mode)
      returns (answers: seq<nat>)
    requires (n.BadAtLeast? && n.arguments == parts) || (n.Use? && n.parts == parts) || (n.Function? && n.name == parts)
    requires AreExpressions(parts) && HarmsAll(parts, r, mode) && fuel > 0
    ensures LeadsToHarm(n, r, st, fuel, answers, mode)
    decreases n, 0
  {
    answers := OneHarms(parts, r, st, fuel, mode);
    forall w: World | w.version == r && Follows(w, st.tick, answers) ensures Fails(Run(n, w, st, fuel), r, mode, IsFirstOrder(n)) {
      var o := RunAll(parts, w, st, fuel);
      if o.completion.Normal? {
        if n.Use? { CallbacksKeep(n.required, w, o.state, fuel - 1); }
        assert Keeps(o.state, Run(n, w, st, fuel));
        HarmStays(o.state, Run(n, w, st, fuel), r, mode);
      }
    }
  }

  lemma {:induction false} DefinitionHarms(n: Node, r: nat, st: State, fuel: nat, mode: Mode) returns (answers: seq<nat>)
    requires n.Function? && AreExpressions(n.name) && CanFinish(n.name, r) && fuel > 0
    requires !ClosureIsSafe(ClosureOf(n.decl, n.decl.declared), r, mode)
    ensures LeadsToHarm(n, r, st, fuel, answers, mode)
  {
    var c := ClosureOf(n.decl, n.decl.declared);
    var end;
    answers, end := FinishReached(n.name, r, st, fuel);
    forall w: World | w.version == r && Follows(w, st.tick, answers) ensures Fails(Run(n, w, st, fuel), r, mode, IsFirstOrder(n)) {
      assert Run(n, w, st, fuel) == Outcome(Normal(true), Defined(end, c));
      assert Defined(end, c).closures[|end.closures|] == c;
    }
  }

  lemma {:induction false} OneHarms(ns: seq<Node>, r: nat, st: State, fuel: nat, mode: Mode) returns (answers: seq<nat>)
    requires AreExpressions(ns) && HarmsAll(ns, r, mode) && fuel > 0
    ensures AllLeadToHarm(ns, r, st, fuel, answers, mode)
    decreases ns
  {
    if Harms(ns[0], r, mode) {
      answers := HarmIsReached(ns[0], r, st, fuel, mode);
      forall w: World | w.version == r && Follows(w, st.tick, answers) ensures Fails(RunAll(ns, w, st, fuel), r, mode, AreFirstOrder(ns)) {
        var o := Run(ns[0], w, st, fuel);
        if o.completion.Normal? {
          AllKeep(ns[1..], w, o.state, fuel);
          HarmStays(o.state, RunAll(ns[1..], w, o.state, fuel), r, mode);
        }
      }
    } else {
      var one, mid := FinishReached([ns[0]], r, st, fuel);
      var two := OneHarms(ns[1..], r, mid, fuel, mode);
      answers := one + two;
      forall w: World | w.version == r && Follows(w, st.tick, answers) ensures Fails(RunAll(ns, w, st, fuel), r, mode, AreFirstOrder(ns)) {
        FollowsBoth(w, st.tick, one, two);
        assert RunAll([ns[0]], w, st, fuel) == Outcome(Normal(true), mid);
        FirstAlone(ns, w, st, fuel, mid);
      }
    }
  }

  lemma FirstAlone(ns: seq<Node>, w: World, st: State, fuel: nat, mid: State)
    requires ns != [] && RunAll([ns[0]], w, st, fuel) == Outcome(Normal(true), mid)
    ensures RunAll(ns, w, st, fuel) == RunAll(ns[1..], w, mid, fuel)
  {
    assert [ns[0]][1..] == [];
    var o := Run(ns[0], w, st, fuel);
    assert RunAll([], w, o.state, fuel) == Outcome(Normal(true), o.state);
  }

  // ----- parameters and class parts -----

  predicate ParametersAreFirstOrder(ps: seq<Parameter>) {
    forall p <- ps :: AreFirstOrder(p.default) && AreFirstOrder(p.pattern)
  }

  ghost predicate ParametersLeadToHarm(
      ps: seq<Parameter>, r: nat, st: State, fuel: nat, answers: seq<nat>, mode: Mode)
  {
    forall w: World :: w.version == r && Follows(w, st.tick, answers) ==>
      Fails(RunParameters(ps, w, st, fuel), r, mode, ParametersAreFirstOrder(ps))
  }

  lemma {:induction false} ParameterHarms(ps: seq<Parameter>, r: nat, st: State, fuel: nat, mode: Mode)
      returns (answers: seq<nat>)
    requires ParametersAreExpressions(ps) && HarmsParameters(ps, r, mode) && fuel > 0
    ensures ParametersLeadToHarm(ps, r, st, fuel, answers, mode)
    decreases ps
  {
    var p := ps[0];
    if HarmsAll(p.default, r, mode) || HarmsAll(p.pattern, r, mode) {
      var missing := HarmsAll(p.default, r, mode);
      var part := if missing then p.default else p.pattern;
      var rest := OneHarms(part, r, Ticked(st), fuel, mode);
      answers := [if missing then 1 else 0] + rest;
      forall w: World | w.version == r && Follows(w, st.tick, answers) ensures Fails(RunParameters(ps, w, st, fuel), r, mode, ParametersAreFirstOrder(ps)) {
        FollowsBoth(w, st.tick, [answers[0]], rest);
        assert w.answers(st.tick + 0) == answers[0];
        assert Fails(RunAll(part, w, Ticked(st), fuel), r, mode, AreFirstOrder(part));
        HarmInFirstParameter(ps, missing, w, st, fuel, mode);
      }
    } else {
      var one, mid := FinishReached(p.pattern, r, Ticked(st), fuel);
      var two := ParameterHarms(ps[1..], r, mid, fuel, mode);
      answers := [0] + (one + two);
      forall w: World | w.version == r && Follows(w, st.tick, answers) ensures Fails(RunParameters(ps, w, st, fuel), r, mode, ParametersAreFirstOrder(ps)) {
        FollowsBoth(w, st.tick, [0], one + two);
        FollowsBoth(w, st.tick + 1, one, two);
        assert w.answers(st.tick + 0) == answers[0];
        assert RunAll(p.pattern, w, Ticked(st), fuel) == Outcome(Normal(true), mid);
      }
    }
  }

  lemma HarmInFirstParameter(ps: seq<Parameter>, missing: bool, w: World, st: State, fuel: nat, mode: Mode)
    requires ps != [] && missing == IsMissing(w, st)
    requires var part := if missing then ps[0].default else ps[0].pattern;
             Fails(RunAll(part, w, Ticked(st), fuel), w.version, mode, AreFirstOrder(part))
    ensures Fails(RunParameters(ps, w, st, fuel), w.version, mode, ParametersAreFirstOrder(ps))
  {
    var given := if missing then RunAll(ps[0].default, w, Ticked(st), fuel) else Outcome(Normal(true), Ticked(st));
    var bound := RunAll(ps[0].pattern, w, given.state, fuel);
    if given.completion.Normal? {
      if missing {
        AllKeep(ps[0].pattern, w, given.state, fuel);
        HarmStays(given.state, bound, w.version, mode);
      }
      if bound.completion.Normal? {
        ParametersKeep(ps[1..], w, bound.state, fuel);
        HarmStays(bound.state, RunParameters(ps[1..], w, bound.state, fuel), w.version, mode);
      }
    }
  }

  /** Names of members run in order, each before its function exists. */
  predicate HarmsMembers(ms: seq<Member>, declared: Version, r: nat, mode: Mode) {
    ms != [] && (
      || HarmsAll(ms[0].name, r, mode)
      || (CanFinish(ms[0].name, r) && (
            || !(forall c <- MemberClosures(ms[0], declared) :: ClosureIsSafe(c, r, mode))
            || HarmsMembers(ms[1..], declared, r, mode))))
  }

  predicate NamesAreExpressions(ms: seq<Member>) {
    forall m <- ms :: AreExpressions(m.name)
  }

  lemma {:induction false} HarmlessMembersAreSafe(
      ms: seq<Member>, declared: Version, w: World, st: State, fuel: nat, mode: Mode)
    requires NamesAreExpressions(ms) && !HarmsMembers(ms, declared, w.version, mode)
    requires mode.thorough && StateIsSafe(st, w.version, mode)
    ensures IsSafe(DefineMembers(ms, declared, w, st, fuel), w.version, mode)
    decreases ms
  {
    if ms != [] {
      HarmlessAreSafe(ms[0].name, w, st, fuel, mode);
      var o := RunAll(ms[0].name, w, st, fuel);
      if o.completion.Normal? {
        OnlyIfItCanFinish(ms[0].name, w, st, fuel);
        DefiningIsSafe(o.state, MemberClosures(ms[0], declared), w.version, mode);
        var defined := o.state.(closures := o.state.closures + MemberClosures(ms[0], declared));
        HarmlessMembersAreSafe(ms[1..], declared, w, defined, fuel, mode);
      }
    }
  }

  ghost predicate MembersLeadToHarm(
      ms: seq<Member>, declared: Version, r: nat, st: State, fuel: nat, answers: seq<nat>, mode: Mode)
  {
    forall w: World :: w.version == r && Follows(w, st.tick, answers) ==>
      !IsSafe(DefineMembers(ms, declared, w, st, fuel), r, mode)
  }

  lemma {:induction false} MemberHarms(ms: seq<Member>, declared: Version, r: nat, st: State, fuel: nat, mode: Mode)
      returns (answers: seq<nat>)
    requires NamesAreExpressions(ms) && HarmsMembers(ms, declared, r, mode) && fuel > 0
    ensures MembersLeadToHarm(ms, declared, r, st, fuel, answers, mode)
    decreases ms
  {
    var cs := MemberClosures(ms[0], declared);
    if HarmsAll(ms[0].name, r, mode) {
      answers := OneHarms(ms[0].name, r, st, fuel, mode);
      forall w: World | w.version == r && Follows(w, st.tick, answers)
        ensures !IsSafe(DefineMembers(ms, declared, w, st, fuel), r, mode)
      {
        DefinedHarmStays(ms, declared, w, st, fuel, mode);
      }
    } else {
      var one, mid := FinishReached(ms[0].name, r, st, fuel);
      var defined := mid.(closures := mid.closures + cs);
      if exists c :: c in cs && !ClosureIsSafe(c, r, mode) {
        answers := one;
        var c :| c in cs && !ClosureIsSafe(c, r, mode);
        assert c in defined.closures;
        forall w: World | w.version == r && Follows(w, st.tick, answers)
          ensures !IsSafe(DefineMembers(ms, declared, w, st, fuel), r, mode)
        {
          assert RunAll(ms[0].name, w, st, fuel) == Outcome(Normal(true), mid);
          DefinitionsKeep(ms[1..], declared, w, defined, fuel);
          HarmStays(defined, DefineMembers(ms[1..], declared, w, defined, fuel), r, mode);
        }
      } else {
        var two := MemberHarms(ms[1..], declared, r, defined, fuel, mode);
        answers := one + two;
        forall w: World | w.version == r && Follows(w, st.tick, answers)
          ensures !IsSafe(DefineMembers(ms, declared, w, st, fuel), r, mode)
        {
          FollowsBoth(w, st.tick, one, two);
          assert RunAll(ms[0].name, w, st, fuel) == Outcome(Normal(true), mid);
        }
      }
    }
  }

  lemma DefinedHarmStays(ms: seq<Member>, declared: Version, w: World, st: State, fuel: nat, mode: Mode)
    requires ms != [] && !IsSafe(RunAll(ms[0].name, w, st, fuel), w.version, mode)
    ensures !IsSafe(DefineMembers(ms, declared, w, st, fuel), w.version, mode)
  {
    var o := RunAll(ms[0].name, w, st, fuel);
    if o.completion.Normal? {
      var defined := o.state.(closures := o.state.closures + MemberClosures(ms[0], declared));
      DefinitionsKeep(ms[1..], declared, w, defined, fuel);
      var rest := DefineMembers(ms[1..], declared, w, defined, fuel);
      assert Keeps(o.state, rest) by {
        forall c | c in o.state.closures ensures c in rest.state.closures { assert c in defined.closures; }
      }
      HarmStays(o.state, rest, w.version, mode);
    }
  }

  // ----- exactly when what the validator skips is safe -----

  ghost predicate CallIsSafe(c: Closure, r: nat, st: State, mode: Mode) {
    forall w: World, fuel: nat :: w.version == r ==> IsSafe(RunClosure(c, w, st, fuel), r, mode)
  }

  /** A function with a clean body can be called at version `r`, with and without arguments, iff
      its default values and patterns cannot harm. */
  lemma CallIsSafeIff(c: Closure, r: nat, st: State, mode: Mode)
    requires mode.thorough && StateIsSafe(st, r, mode)
    requires ParametersAreExpressions(c.parameters) && VisitStatements(c.body, Some(r), mode) == []
    ensures CallIsSafe(c, r, st, mode) <==> !HarmsParameters(c.parameters, r, mode)
  {
    if HarmsParameters(c.parameters, r, mode) {
      var answers := ParameterHarms(c.parameters, r, st, 1, mode);
      var w := Answering(r, st.tick, answers);
      var o := RunParameters(c.parameters, w, st, 1);
      assert !IsSafe(o, r, mode);
      if o.completion.Normal? {
        AllKeep(c.body, w, o.state, 1);
        HarmStays(o.state, RunAll(c.body, w, o.state, 1), r, mode);
      }
      assert !IsSafe(RunClosure(c, w, st, 1), r, mode);
    } else {
      forall w: World, fuel: nat | w.version == r ensures IsSafe(RunClosure(c, w, st, fuel), r, mode) {
        HarmlessParametersAreSafe(c.parameters, w, st, fuel, mode);
        StatementsAreSafe(c.body, w, RunParameters(c.parameters, w, st, fuel).state, fuel, mode);
      }
    }
  }

  ghost predicate RunsAreSafe(n: Node, r: nat, st: State, mode: Mode) {
    forall w: World, fuel: nat :: w.version == r ==> IsSafe(Run(n, w, st, fuel), r, mode)
  }

  predicate StaticsAreClean(ms: seq<Member>, r: nat, mode: Mode) {
    forall m <- ms :: m.StaticMember? ==> Visit(m.init, Some(r), mode) == []
  }

  predicate HarmsClass(n: Node, r: nat, mode: Mode)
    requires n.Class?
  {
    HarmsAll(n.heritage, r, mode) || (CanFinish(n.heritage, r) && HarmsMembers(n.members, n.declared, r, mode))
  }

  /** A class with clean static initialisers can be declared at version `r` iff neither its
      `extends` expression nor the names of its members can harm. */
  lemma ClassIsSafeIff(n: Node, r: nat, st: State, mode: Mode)
    requires n.Class? && mode.thorough && StateIsSafe(st, r, mode)
    requires AreExpressions(n.heritage) && NamesAreExpressions(n.members) && StaticsAreClean(n.members, r, mode)
    ensures RunsAreSafe(n, r, st, mode) <==> !HarmsClass(n, r, mode)
  {
    if HarmsClass(n, r, mode) {
      var w := HarmfulClass(n, r, st, mode);
    } else {
      forall w: World, fuel: nat | w.version == r ensures IsSafe(Run(n, w, st, fuel), r, mode) {
        HarmlessAreSafe(n.heritage, w, st, fuel, mode);
        var o := RunAll(n.heritage, w, st, fuel);
        if o.completion.Normal? {
          OnlyIfItCanFinish(n.heritage, w, st, fuel);
          HarmlessMembersAreSafe(n.members, n.declared, w, o.state, fuel, mode);
          CleanStatics(n.members, w, DefineMembers(n.members, n.declared, w, o.state, fuel).state, fuel, mode);
        }
      }
    }
  }

  lemma {:induction false} CleanStatics(ms: seq<Member>, w: World, st: State, fuel: nat, mode: Mode)
    requires mode.thorough && StaticsAreClean(ms, w.version, mode) && StateIsSafe(st, w.version, mode)
    ensures IsSafe(InitStatics(ms, w, st, fuel), w.version, mode)
    decreases ms
  {
    if ms != [] {
      if ms[0].StaticMember? {
        RunIsSafe(ms[0].init, w, st, fuel, mode);
        CleanStatics(ms[1..], w, Run(ms[0].init, w, st, fuel).state, fuel, mode);
      } else {
        CleanStatics(ms[1..], w, st, fuel, mode);
      }
    }
  }

  lemma HarmfulClass(n: Node, r: nat, st: State, mode: Mode) returns (w: World)
    requires n.Class? && AreExpressions(n.heritage) && NamesAreExpressions(n.members) && HarmsClass(n, r, mode)
    ensures w.version == r && !IsSafe(Run(n, w, st, 1), r, mode)
  {
    if HarmsAll(n.heritage, r, mode) {
      var answers := OneHarms(n.heritage, r, st, 1, mode);
      w := Answering(r, st.tick, answers);
      HarmInHeritage(n, w, st, mode);
    } else {
      var mid;
      w, mid := HarmfulNames(n.heritage, n.members, n.declared, r, st, mode);
      HarmInMembers(n, w, st, mode);
    }
  }

  lemma HarmfulNames(heritage: seq<Node>, ms: seq<Member>, declared: Version, r: nat, st: State, mode: Mode)
      returns (w: World, mid: State)
    requires AreExpressions(heritage) && CanFinish(heritage, r)
    requires NamesAreExpressions(ms) && HarmsMembers(ms, declared, r, mode)
    ensures w.version == r && RunAll(heritage, w, st, 1) == Outcome(Normal(true), mid)
    ensures !IsSafe(DefineMembers(ms, declared, w, mid, 1), r, mode)
  {
    var one;
    one, mid := FinishReached(heritage, r, st, 1);
    var two := MemberHarms(ms, declared, r, mid, 1, mode);
    assert MembersLeadToHarm(ms, declared, r, mid, 1, two, mode);
    w := Answering(r, st.tick, one + two);
    FollowsBoth(w, st.tick, one, two);
    assert Follows(w, st.tick, one) && Follows(w, mid.tick, two);
  }

  lemma HarmInHeritage(n: Node, w: World, st: State, mode: Mode)
    requires n.Class? && !IsSafe(RunAll(n.heritage, w, st, 1), w.version, mode)
    ensures !IsSafe(Run(n, w, st, 1), w.version, mode)
  {
    var o := RunAll(n.heritage, w, st, 1);
    if o.completion.Normal? {
      DefinitionsKeep(n.members, n.declared, w, o.state, 1);
      HarmStays(o.state, DefineMembers(n.members, n.declared, w, o.state, 1), w.version, mode);
      HarmInMembers(n, w, st, mode);
    }
  }

  lemma HarmInMembers(n: Node, w: World, st: State, mode: Mode)
    requires n.Class? && RunAll(n.heritage, w, st, 1).completion.Normal?
    requires !IsSafe(DefineMembers(n.members, n.declared, w, RunAll(n.heritage, w, st, 1).state, 1), w.version, mode)
    ensures !IsSafe(Run(n, w, st, 1), w.version, mode)
  {
    var defined := DefineMembers(n.members, n.declared, w, RunAll(n.heritage, w, st, 1).state, 1);
    if defined.completion.Normal? {
      StaticsKeep(n.members, w, defined.state, 1);
      HarmStays(defined.state, InitStatics(n.members, w, defined.state, 1), w.version, mode);
    }
  }

  // ----- the condition on the text -----

  /** A part that visits cleanly in the context where it runs cannot harm. */
  lemma CleanIsHarmless(n: Node, r: nat, mode: Mode)
    requires mode.thorough && IsExpression(n) && Visit(n, Some(r), mode) == []
    ensures !Harms(n, r, mode)
  {
    if Harms(n, r, mode) {
      var answers := HarmIsReached(n, r, State([], 0), 1, mode);
      var w := Answering(r, 0, answers);
      RunIsSafe(n, w, State([], 0), 1, mode);
      assert false;
    }
  }

  lemma CleanParametersAreHarmless(ps: seq<Parameter>, r: nat, mode: Mode)
    requires mode.thorough && ParametersAreExpressions(ps) && VisitParameters(ps, Some(r), mode) == []
    ensures !HarmsParameters(ps, r, mode)
  {
    if HarmsParameters(ps, r, mode) {
      var answers := ParameterHarms(ps, r, State([], 0), 1, mode);
      var w := Answering(r, 0, answers);
      ParametersAreSafe(ps, w, State([], 0), 1, mode);
      assert false;
    }
  }

  /** No guard, no short circuit, and no function of its own. */
  predicate IsStraight(n: Node) {
    match n
    case Paren(e) => IsStraight(e)
    case Not(e) => IsStraight(e)
    case AtLeast(_) => true
    case Use(_, _, parts) => forall k <- parts :: IsStraight(k)
    case _ => false
  }

  predicate AreStraight(ns: seq<Node>) {
    forall k <- ns :: IsStraight(k)
  }

  predicate ParameterIsStraight(p: Parameter) {
    AreStraight(p.default) && AreStraight(p.pattern)
  }

  lemma {:induction false} StraightIsExpression(n: Node)
    requires IsStraight(n)
    ensures IsExpression(n)
  {
    match n
    case Paren(e) => StraightIsExpression(e);
    case Not(e) => StraightIsExpression(e);
    case Use(_, _, parts) => forall k | k in parts ensures IsExpression(k) { StraightIsExpression(k); }
    case _ =>
  }

  lemma {:induction false} HarmlessIsClean(n: Node, r: nat, mode: Mode)
    requires IsStraight(n) && !Harms(n, r, mode)
    ensures Visit(n, Some(r), mode) == [] && CanFinish([n], r)
    decreases n
  {
    match n
    case Paren(e) => HarmlessIsClean(e, r, mode); assert e in [e];
    case Not(e) => HarmlessIsClean(e, r, mode); assert e in [e];
    case Use(_, _, parts) => HarmlessAreClean(parts, r, mode);
    case _ =>
  }

  lemma {:induction false} HarmlessAreClean(ns: seq<Node>, r: nat, mode: Mode)
    requires AreStraight(ns) && !HarmsAll(ns, r, mode)
    ensures VisitAll(ns, Some(r), mode) == [] && CanFinish(ns, r)
    decreases ns
  {
    if ns != [] {
      HarmlessIsClean(ns[0], r, mode);
      HarmlessAreClean(ns[1..], r, mode);
      assert ns[0] in [ns[0]];
    }
  }

  lemma {:induction false} HarmlessParametersAreClean(ps: seq<Parameter>, r: nat, mode: Mode)
    requires (forall p <- ps :: ParameterIsStraight(p)) && !HarmsParameters(ps, r, mode)
    ensures VisitParameters(ps, Some(r), mode) == []
    decreases ps
  {
    if ps != [] {
      assert ParameterIsStraight(ps[0]);
      HarmlessAreClean(ps[0].default, r, mode);
      HarmlessAreClean(ps[0].pattern, r, mode);
      HarmlessParametersAreClean(ps[1..], r, mode);
      assert VisitParameter(ps[0], Some(r), mode) == [];
    }
  }

  /** Without guards in the parameters the condition is the analysis's own: a call is safe iff all
      defaults and patterns visit cleanly where they run. */
  lemma StraightCallIsSafeIffClean(c: Closure, r: nat, st: State, mode: Mode)
    requires mode.thorough && StateIsSafe(st, r, mode)
    requires (forall p <- c.parameters :: ParameterIsStraight(p)) && VisitStatements(c.body, Some(r), mode) == []
    ensures CallIsSafe(c, r, st, mode) <==> VisitParameters(c.parameters, Some(r), mode) == []
  {
    forall p | p in c.parameters ensures AreExpressions(p.default) && AreExpressions(p.pattern) {
      assert ParameterIsStraight(p);
      forall k | k in p.default || k in p.pattern ensures IsExpression(k) { StraightIsExpression(k); }
    }
    CallIsSafeIff(c, r, st, mode);
    if VisitParameters(c.parameters, Some(r), mode) == [] {
      CleanParametersAreHarmless(c.parameters, r, mode);
    } else if !HarmsParameters(c.parameters, r, mode) {
      HarmlessParametersAreClean(c.parameters, r, mode);
    }
  }

  // ----- programs that validate and are not safe -----

  /** `function f(a = newApi()) {}`, then a call of it; `newApi` needs version 5. */
  const DEFAULT_VALUE: seq<Node> :=
    [Function([], Declaration(None, [], [Parameter([Use(1, Some(5), [])], [])], [])), Use(2, None, [])]

  /** A class of version 5 that extends `ns.NewBase`, which needs version 5. */
  const VERSIONED_HERITAGE: seq<Node> := [Class(Some(5), [], [Use(1, Some(5), [])], [])]

  /** An object literal with a method named `[newApi()]`. */
  const COMPUTED_NAME: seq<Node> := [Function([Use(1, Some(5), [])], Declaration(None, [], [], []))]

  ghost predicate CanFailAt(program: seq<Node>, r: nat) {
    exists w: World, fuel: nat :: w.version == r && RunAll(program, w, State([], 0), fuel).completion.Unsupported?
  }

  lemma SkippedPartsCanFail()
    ensures Validate(DEFAULT_VALUE, Mode(None, false)) == [] && CanFailAt(DEFAULT_VALUE, 3)
    ensures Validate(VERSIONED_HERITAGE, Mode(None, false)) == [] && CanFailAt(VERSIONED_HERITAGE, 3)
    ensures Validate(COMPUTED_NAME, Mode(None, false)) == [] && CanFailAt(COMPUTED_NAME, 3)
  {
    DefaultValueCanFail();
    HeritageCanFail();
    ComputedNameCanFail();
  }

  lemma NewApiFails(w: World, st: State, fuel: nat)
    requires w.version == 3
    ensures RunAll([Use(1, Some(5), [])], w, st, fuel) == Outcome(Unsupported(1), st)
  {
    assert RunAll([], w, st, fuel) == Outcome(Normal(true), st);
  }

  lemma DefaultValueCanFail()
    ensures Validate(DEFAULT_VALUE, Mode(None, false)) == [] && CanFailAt(DEFAULT_VALUE, 3)
  {
    DefaultValueIsClean(DEFAULT_VALUE[0].decl, Mode(None, false));
    var w := World(3, t => if t == 1 then 1 else 0);
    var defined := State([Closure(None, DEFAULT_VALUE[0].decl.parameters, [])], 0);
    assert RunAll([], w, State([], 0), 3) == Outcome(Normal(true), State([], 0));
    assert Run(DEFAULT_VALUE[0], w, State([], 0), 3) == Outcome(Normal(true), defined);
    CallWithoutArgument(DEFAULT_VALUE[0].decl.parameters, w, defined);
    assert RunAll(DEFAULT_VALUE, w, State([], 0), 3) == RunAll(DEFAULT_VALUE[1..], w, defined, 3);
    assert DEFAULT_VALUE[1..][0] == Use(2, None, []);
    assert RunAll(DEFAULT_VALUE, w, State([], 0), 3).completion.Unsupported?;
  }

  lemma DefaultValueIsClean(d: Declaration, plain: Mode)
    requires d == DEFAULT_VALUE[0].decl && plain == Mode(None, false)
    ensures Validate(DEFAULT_VALUE, plain) == []
  {
    assert VisitParameters(d.parameters, None, plain)
        == VisitParameter(d.parameters[0], None, plain) + VisitParameters([], None, plain);
    assert Visit(DEFAULT_VALUE[0], None, plain) == [];
    var call := Use(2, None, []);
    assert DEFAULT_VALUE[1..] == [call];
    assert VisitStatements([call], None, plain) == Visit(call, None, plain) + VisitStatements([], None, plain);
  }

  lemma CallWithoutArgument(ps: seq<Parameter>, w: World, defined: State)
    requires ps == [Parameter([Use(1, Some(5), [])], [])] && defined == State([Closure(None, ps, [])], 0)
    requires w.version == 3 && w.answers(0) == 0 && w.answers(1) == 1
    ensures Run(Use(2, None, []), w, defined, 3).completion == Unsupported(1)
  {
    var called := Ticked(defined);
    NewApiFails(w, Ticked(called), 1);
    assert RunParameters(ps, w, called, 1).completion == Unsupported(1);
    assert RunClosure(defined.closures[0], w, called, 1).completion == Unsupported(1);
    assert RunCallbacks(None, w, defined, 2).completion == Unsupported(1);
    assert RunAll([], w, defined, 3) == Outcome(Normal(true), defined);
  }

  lemma HeritageCanFail()
    ensures Validate(VERSIONED_HERITAGE, Mode(None, false)) == [] && CanFailAt(VERSIONED_HERITAGE, 3)
  {
    var plain := Mode(None, false);
    var use := Use(1, Some(5), []);
    assert VisitAll([use], Some(5), plain) == Visit(use, Some(5), plain) + VisitAll([], Some(5), plain);
    assert Visit(VERSIONED_HERITAGE[0], None, plain) == [];
    var w := World(3, _ => 0);
    NewApiFails(w, State([], 0), 0);
    assert RunAll(VERSIONED_HERITAGE, w, State([], 0), 0).completion.Unsupported?;
  }

  lemma ComputedNameCanFail()
    ensures Validate(COMPUTED_NAME, Mode(None, false)) == [] && CanFailAt(COMPUTED_NAME, 3)
  {
    assert Visit(COMPUTED_NAME[0], None, Mode(None, false)) == [];
    var w := World(3, _ => 0);
    NewApiFails(w, State([], 0), 0);
    assert RunAll(COMPUTED_NAME, w, State([], 0), 0).completion.Unsupported?;
  }

  // ----- exactly when a bound is the greatest -----

  /** Whenever the condition comes out as `truth`, the runtime version is at least `bound`. */
  ghost predicate HoldsWhenever(n: Node, truth: bool, bound: nat) {
    forall w: World, st: State, fuel: nat :: Run(n, w, st, fuel).completion == Normal(truth) ==> w.version >= bound
  }

  function Floor(bound: Version): nat {
    if bound.None? then 0 else bound.value
  }

  function Bound(n: Node, truth: bool): nat {
    Floor(if truth then BoundWhenTrue(n) else BoundWhenFalse(n))
  }

  /** The bound that the analysis learns always holds, and no greater one does iff the condition can
      come out that way at the bound itself. */
  lemma BoundIsGreatestIff(n: Node, truth: bool)
    requires IsExpression(n)
    ensures HoldsWhenever(n, truth, Bound(n, truth))
    ensures (forall b: nat :: HoldsWhenever(n, truth, b) ==> b <= Bound(n, truth)) <==> CanBe(n, truth, Bound(n, truth))
  {
    var bound := Bound(n, truth);
    forall w: World, st: State, fuel: nat | Run(n, w, st, fuel).completion == Normal(truth) ensures w.version >= bound {
      BoundsHold(n, w, st, fuel);
    }
    if CanBe(n, truth, bound) {
      ReachedBound(n, truth, bound);
    } else {
      GreaterBoundHolds(n, truth);
    }
  }

  lemma ReachedBound(n: Node, truth: bool, r: nat)
    requires IsExpression(n) && CanBe(n, truth, r)
    ensures forall b: nat :: HoldsWhenever(n, truth, b) ==> b <= r
  {
    var answers, end := CanBeReached(n, truth, r, State([], 0), 1);
    var w := Answering(r, 0, answers);
    assert Run(n, w, State([], 0), 1).completion == Normal(truth);
  }

  lemma GreaterBoundHolds(n: Node, truth: bool)
    requires IsExpression(n) && !CanBe(n, truth, Bound(n, truth))
    ensures HoldsWhenever(n, truth, Bound(n, truth) + 1)
  {
    forall w: World, st: State, fuel: nat | Run(n, w, st, fuel).completion == Normal(truth)
      ensures w.version >= Bound(n, truth) + 1
    {
      BoundsHold(n, w, st, fuel);
      OnlyWhatItCanBe(n, w, st, fuel);
    }
  }

  lemma {:induction false} ExactGuardsAreExpressions(n: Node)
    requires ExactWhenTrue(n) || ExactWhenFalse(n)
    ensures IsExpression(n)
  {
    match n
    case Paren(e) => ExactGuardsAreExpressions(e);
    case Not(e) => ExactGuardsAreExpressions(e);
    case And(a, b) => ExactGuardsAreExpressions(a); ExactGuardsAreExpressions(b);
    case Or(a, b) => ExactGuardsAreExpressions(a); ExactGuardsAreExpressions(b);
    case _ =>
  }

  /** The guards of `ExactGuards` have the greatest bounds. */
  lemma ExactGuardsHaveGreatestBounds(n: Node, truth: bool)
    requires if truth then ExactWhenTrue(n) else ExactWhenFalse(n)
    ensures forall b: nat :: HoldsWhenever(n, truth, b) ==> b <= Bound(n, truth)
  {
    ExactGuardsAreExpressions(n);
    var w := World(Bound(n, truth), _ => 0);
    ExactGuards(n, w, State([], 0), 0);
    OnlyWhatItCanBe(n, w, State([], 0), 0);
    BoundIsGreatestIff(n, truth);
  }

  /** `!(!a && !b)` means `a || b`, from which the analysis learns the lower of the two versions; from
      the first spelling it learns nothing. */
  lemma NegatedConjunctionLosesItsBound(a: nat, b: nat)
    ensures var guard := Not(And(Not(AtLeast(a)), Not(AtLeast(b))));
            var plainly := Or(AtLeast(a), AtLeast(b));
            var least := if a < b then a else b;
            && (forall r: nat, truth: bool :: CanBe(guard, truth, r) == CanBe(plainly, truth, r))
            && BoundWhenTrue(plainly) == Some(least) && BoundWhenTrue(guard) == None
            && HoldsWhenever(guard, true, least)
            && (CanBe(guard, true, Bound(guard, true)) <==> least == 0)
  {
    var guard := Not(And(Not(AtLeast(a)), Not(AtLeast(b))));
    var plainly := Or(AtLeast(a), AtLeast(b));
    assert IsExpression(AtLeast(a)) && IsExpression(AtLeast(b));
    assert IsExpression(guard.operand.left) && IsExpression(guard.operand.right);
    assert IsExpression(guard.operand);
    forall r: nat, truth: bool
      ensures CanBe(guard, truth, r) == CanBe(plainly, truth, r) == ((r >= a || r >= b) == truth)
    {
      forall v: nat, t: bool ensures CanBe(AtLeast(v), t, r) == ((r >= v) == t) {}
      forall v: nat, t: bool ensures CanBe(Not(AtLeast(v)), t, r) == ((r < v) == t) {}
      assert CanBe(guard.operand, true, r) == (r < a && r < b);
      assert CanBe(guard.operand, false, r) == (r >= a || r >= b);
    }
    forall w: World, st: State, fuel: nat | Run(guard, w, st, fuel).completion == Normal(true)
      ensures w.version >= a || w.version >= b
    {
      OnlyWhatItCanBe(guard, w, st, fuel);
    }
    assert BoundWhenTrue(guard) == BoundWhenFalse(guard.operand);
  }
}
