/** Properties of the version-guard analysis: its bounds, and its monotonicity. */
module VersionProofs {
  import opened Wrappers
  import opened VersionGuards
  import opened VersionRuntime

  /** `undefined` is the lowest context. */
  predicate AtMost(v: Version, u: Version) {
    v.None? || (u.Some? && v.value <= u.value)
  }

  // ----- bounds -----

  /** The bound that visiting a condition returns does not depend on the context. */
  lemma {:induction false} ConditionReturnsTrueBound(n: Node, current: Version, mode: Mode)
    ensures VisitCondition(n, current, mode).bound == BoundWhenTrue(n)
  {
    match n
    case Paren(e) => ConditionReturnsTrueBound(e, current, mode);
    case And(l, r) =>
      ConditionReturnsTrueBound(l, current, mode);
      ConditionReturnsTrueBound(r, Merge(current, BoundWhenTrue(l)), mode);
    case Or(l, r) =>
      ConditionReturnsTrueBound(l, current, mode);
      ConditionReturnsTrueBound(r, Merge(current, BoundWhenFalse(l)), mode);
    case _ =>
  }

  /** A condition that came out true (false) proves its true (false) bound. */
  lemma {:induction false} BoundsHold(n: Node, w: World, st: State, fuel: nat)
    ensures Truthy(Run(n, w, st, fuel)) ==> Satisfies(w.version, BoundWhenTrue(n))
    ensures Falsy(Run(n, w, st, fuel)) ==> Satisfies(w.version, BoundWhenFalse(n))
  {
    match n
    case Paren(e) => BoundsHold(e, w, st, fuel);
    case Not(e) => BoundsHold(e, w, st, fuel);
    case And(l, r) =>
      BoundsHold(l, w, st, fuel);
      BoundsHold(r, w, Run(l, w, st, fuel).state, fuel);
    case Or(l, r) =>
      BoundsHold(l, w, st, fuel);
      BoundsHold(r, w, Run(l, w, st, fuel).state, fuel);
    case _ =>
  }

  /** Guards whose truth is decided by the version alone and captured by the bound: every
      atom is a well-formed version test that counts positively, and no `&&` counts negatively. */
  predicate ExactWhenTrue(n: Node) {
    match n
    case Paren(e) => ExactWhenTrue(e)
    case Not(e) => ExactWhenFalse(e)
    case AtLeast(_) => true
    case And(l, r) => ExactWhenTrue(l) && ExactWhenTrue(r)
    case Or(l, r) => ExactWhenTrue(l) && ExactWhenTrue(r)
    case _ => false
  }

  predicate ExactWhenFalse(n: Node) {
    match n
    case Paren(e) => ExactWhenFalse(e)
    case Not(e) => ExactWhenTrue(e)
    case Or(l, r) => ExactWhenFalse(l) && ExactWhenFalse(r)
    case _ => false
  }

  lemma {:induction false} ExactGuards(n: Node, w: World, st: State, fuel: nat)
    ensures ExactWhenTrue(n) ==>
              && BoundWhenTrue(n).Some?
              && Run(n, w, st, fuel) == Outcome(Normal(w.version >= BoundWhenTrue(n).value), st)
    ensures ExactWhenFalse(n) ==>
              && BoundWhenFalse(n).Some?
              && Run(n, w, st, fuel) == Outcome(Normal(w.version < BoundWhenFalse(n).value), st)
  {
    match n
    case Paren(e) => ExactGuards(e, w, st, fuel);
    case Not(e) => ExactGuards(e, w, st, fuel);
    case And(l, r) => ExactGuards(l, w, st, fuel); ExactGuards(r, w, st, fuel);
    case Or(l, r) => ExactGuards(l, w, st, fuel); ExactGuards(r, w, st, fuel);
    case _ =>
  }

  lemma {:induction false} ExactGuardsAreClean(n: Node, current: Version, mode: Mode)
    requires ExactWhenTrue(n) || ExactWhenFalse(n)
    ensures VisitCondition(n, current, mode).diagnostics == []
  {
    match n
    case Paren(e) => ExactGuardsAreClean(e, current, mode);
    case Not(e) => ExactGuardsAreClean(e, current, mode);
    case And(l, r) =>
      ExactGuardsAreClean(l, current, mode);
      ExactGuardsAreClean(r, Merge(current, VisitCondition(l, current, mode).bound), mode);
    case Or(l, r) =>
      ExactGuardsAreClean(l, current, mode);
      ExactGuardsAreClean(r, Merge(current, BoundWhenFalse(l)), mode);
    case _ =>
  }

  predicate ReachesUnsupported(n: Node, w: World, st: State, fuel: nat) {
    Run(n, w, st, fuel).completion.Unsupported?
  }

  /** Under such a guard the analysis is precise: a use is reported iff some runtime version
      reaches it without supporting it. */
  lemma GuardedUseReportedIffReachable(guard: Node, pos: nat, required: nat, st: State, fuel: nat, mode: Mode)
    requires ExactWhenTrue(guard) && st.closures == []
    ensures var guarded := If(guard, Use(pos, Some(required), []), None);
            Visit(guarded, None, mode) != [] <==> exists w :: ReachesUnsupported(guarded, w, st, fuel)
  {
    var use := Use(pos, Some(required), []);
    var guarded := If(guard, use, None);
    ExactGuardsAreClean(guard, None, mode);
    ConditionReturnsTrueBound(guard, None, mode);
    var lowest := World(0, _ => 0);
    ExactGuards(guard, lowest, st, fuel);
    lowest := World(BoundWhenTrue(guard).value, _ => 0);
    ExactGuards(guard, lowest, st, fuel);
    assert RunAll([], lowest, st, fuel) == Outcome(Normal(true), st);
    assert VisitAll([], BoundWhenTrue(guard), mode) == [];
    assert Visit(use, BoundWhenTrue(guard), mode) == CheckUse(pos, BoundWhenTrue(guard), Some(required));
    if lowest.version < required {
      assert ReachesUnsupported(guarded, lowest, st, fuel);
      assert Visit(guarded, None, mode) == [] + CheckUse(pos, BoundWhenTrue(guard), Some(required));
    } else {
      forall w: World ensures !ReachesUnsupported(guarded, w, st, fuel) {
        ExactGuards(guard, w, st, fuel);
        assert RunAll([], w, st, fuel) == Outcome(Normal(true), st);
        assert Run(use, w, st, fuel).completion.Unsupported? <==> w.version < required;
      }
    }
  }

  // ----- monotonicity -----

  /** `fewer` looks at no more parts than `mode` does. */
  predicate LooksAtMore(mode: Mode, fewer: Mode) {
    mode.minimum == fewer.minimum && (fewer.thorough ==> mode.thorough)
  }

  function Skipped(ns: seq<Node>, v: Version, mode: Mode): seq<Diagnostic> {
    if mode.thorough then VisitAll(ns, v, mode) else []
  }

  lemma {:induction false} TypesMonotone(types: seq<TypeUse>, v: Version, u: Version)
    requires AtMost(v, u)
    ensures Subsequence(CheckTypes(types, u), CheckTypes(types, v))
  {
    if types != [] {
      TypesMonotone(types[1..], v, u);
      var t := types[0];
      var a := if IsVersionSatisfied(u, t.required) then [] else [TypeNeeds(t.pos, t.required)];
      var b := if IsVersionSatisfied(v, t.required) then [] else [TypeNeeds(t.pos, t.required)];
      SubsequenceAppend(a, b, CheckTypes(types[1..], u), CheckTypes(types[1..], v));
    }
  }

  /** Raising the context, or looking at fewer parts, never adds a diagnostic: what is left is a
      subsequence. */
  lemma {:induction false} VisitMonotone(n: Node, v: Version, u: Version, mode: Mode, fewer: Mode)
    requires AtMost(v, u) && LooksAtMore(mode, fewer)
    ensures Subsequence(Visit(n, u, fewer), Visit(n, v, mode))
    decreases n, if ShortCircuits(n) then 2 else 1
  {
    match n
    case And(_, _) => ConditionMonotone(n, v, u, mode, fewer);
    case Or(_, _) => ConditionMonotone(n, v, u, mode, fewer);
    case Paren(e) => VisitMonotone(e, v, u, mode, fewer);
    case Not(e) => VisitMonotone(e, v, u, mode, fewer);
    case BadAtLeast(_, args) =>
      AllMonotone(args, v, u, mode, fewer);
      UseMonotone(n, args, v, u, mode, fewer);
    case Use(_, _, parts) =>
      AllMonotone(parts, v, u, mode, fewer);
      UseMonotone(n, parts, v, u, mode, fewer);
    case Function(_, _) => DefinitionMonotone(n, v, u, mode, fewer);
    case Class(_, _, _, _) => ClassMonotone(n, v, u, mode, fewer);
    case Conditional(_, _, _) => GuardedMonotone(n, v, u, mode, fewer);
    case If(_, _, _) => GuardedMonotone(n, v, u, mode, fewer);
    case While(a, b) => PairMonotone(n, a, b, v, u, mode, fewer);
    case Try(a, b) => PairMonotone(n, a, b, v, u, mode, fewer);
    case Block(ss) => StatementsMonotone(ss, v, u, mode, fewer);
    case Return(vs) => AllMonotone(vs, v, u, mode, fewer);
    case Throw(vs) => AllMonotone(vs, v, u, mode, fewer);
    case _ =>
  }

  /** `?:`, and `if` with or without `else`. */
  lemma {:induction false} GuardedMonotone(n: Node, v: Version, u: Version, mode: Mode, fewer: Mode)
    requires AtMost(v, u) && LooksAtMore(mode, fewer)
    requires n.Conditional? || n.If?
    ensures Subsequence(Visit(n, u, fewer), Visit(n, v, mode))
    decreases n, 0
  {
    var c := n.condition;
    var t := if n.Conditional? then n.whenTrue else n.thenStatement;
    ConditionMonotone(c, v, u, mode, fewer);
    VisitMonotone(t, Merge(v, BoundWhenTrue(c)), Merge(u, BoundWhenTrue(c)), mode, fewer);
    if n.If? && n.elseStatement.None? {
      OneArmMonotone(n, c, t, v, u, mode, fewer);
    } else {
      var f := if n.Conditional? then n.whenFalse else n.elseStatement.value;
      VisitMonotone(f, Merge(v, BoundWhenFalse(c)), Merge(u, BoundWhenFalse(c)), mode, fewer);
      BranchesMonotone(n, c, t, f, v, u, mode, fewer);
    }
  }

  lemma {:induction false} PairMonotone(n: Node, a: Node, b: Node, v: Version, u: Version, mode: Mode, fewer: Mode)
    requires AtMost(v, u) && LooksAtMore(mode, fewer)
    requires n == While(a, b) || n == Try(a, b)
    ensures Subsequence(Visit(n, u, fewer), Visit(n, v, mode))
    decreases n, 0
  {
    VisitMonotone(a, v, u, mode, fewer);
    VisitMonotone(b, v, u, mode, fewer);
    SubsequenceAppend(Visit(a, u, fewer), Visit(a, v, mode), Visit(b, u, fewer), Visit(b, v, mode));
  }

  lemma {:induction false} DefinitionMonotone(n: Node, v: Version, u: Version, mode: Mode, fewer: Mode)
    requires AtMost(v, u) && LooksAtMore(mode, fewer)
    requires n.Function?
    ensures Subsequence(Visit(n, u, fewer), Visit(n, v, mode))
    decreases n, 0
  {
    AllMonotone(n.name, v, u, mode, fewer);
    FunctionMonotone(n.decl, n.decl.declared, v, u, mode, fewer);
    SubsequenceAppend(Skipped(n.name, u, fewer), Skipped(n.name, v, mode),
                      VisitFunction(n.decl, n.decl.declared, u, fewer), VisitFunction(n.decl, n.decl.declared, v, mode));
  }

  lemma {:induction false} ClassMonotone(n: Node, v: Version, u: Version, mode: Mode, fewer: Mode)
    requires AtMost(v, u) && LooksAtMore(mode, fewer)
    requires n.Class?
    ensures Subsequence(Visit(n, u, fewer), Visit(n, v, mode))
    decreases n, 0
  {
    AllMonotone(n.heritage, v, u, mode, fewer);
    AllMonotone(n.heritage, Merge(v, n.declared), Merge(u, n.declared), mode, fewer);
    MembersMonotone(n.members, n.declared, v, u, mode, fewer);
    var hu, hv := VisitAll(n.heritage, Merge(u, n.declared), fewer), VisitAll(n.heritage, Merge(v, n.declared), mode);
    var mu, mv := VisitMembers(n.members, n.declared, u, fewer), VisitMembers(n.members, n.declared, v, mode);
    var su, sv := Skipped(n.heritage, u, fewer), Skipped(n.heritage, v, mode);
    var contract := CheckContract(n.contract, mode.minimum);
    SubsequenceAppend(hu, hv, mu, mv);
    SubsequenceAppend(su, sv, hu + mu, hv + mv);
    SubsequenceReflexive(contract);
    SubsequenceAppend(contract, contract, su + (hu + mu), sv + (hv + mv));
  }

  lemma ConditionBounds(c: Node, v: Version, u: Version, mode: Mode, fewer: Mode)
    ensures VisitCondition(c, v, mode).bound == VisitCondition(c, u, fewer).bound == BoundWhenTrue(c)
  {
    ConditionReturnsTrueBound(c, v, mode);
    ConditionReturnsTrueBound(c, u, fewer);
  }

  lemma UseMonotone(n: Node, parts: seq<Node>, v: Version, u: Version, mode: Mode, fewer: Mode)
    requires AtMost(v, u)
    requires (n.Use? && n.parts == parts) || (n.BadAtLeast? && n.arguments == parts)
    requires Subsequence(VisitAll(parts, u, fewer), VisitAll(parts, v, mode))
    ensures Subsequence(Visit(n, u, fewer), Visit(n, v, mode))
  {
    var a := if n.Use? then CheckUse(n.pos, u, n.required) else [BadIntrinsicArgument(n.pos)];
    var b := if n.Use? then CheckUse(n.pos, v, n.required) else [BadIntrinsicArgument(n.pos)];
    SubsequenceAppend(a, b, VisitAll(parts, u, fewer), VisitAll(parts, v, mode));
  }

  lemma OneArmMonotone(n: Node, c: Node, t: Node, v: Version, u: Version, mode: Mode, fewer: Mode)
    requires n == If(c, t, None)
    requires Subsequence(VisitCondition(c, u, fewer).diagnostics, VisitCondition(c, v, mode).diagnostics)
    requires Subsequence(Visit(t, Merge(u, BoundWhenTrue(c)), fewer), Visit(t, Merge(v, BoundWhenTrue(c)), mode))
    ensures Subsequence(Visit(n, u, fewer), Visit(n, v, mode))
  {
    ConditionBounds(c, v, u, mode, fewer);
    SubsequenceAppend(VisitCondition(c, u, fewer).diagnostics, VisitCondition(c, v, mode).diagnostics,
                      Visit(t, Merge(u, BoundWhenTrue(c)), fewer), Visit(t, Merge(v, BoundWhenTrue(c)), mode));
  }

  /** The two-armed branch of `VisitMonotone`, for `?:` and `if`/`else` alike. */
  lemma BranchesMonotone(n: Node, c: Node, t: Node, f: Node, v: Version, u: Version, mode: Mode, fewer: Mode)
    requires n == Conditional(c, t, f) || n == If(c, t, Some(f))
    requires Subsequence(VisitCondition(c, u, fewer).diagnostics, VisitCondition(c, v, mode).diagnostics)
    requires Subsequence(Visit(t, Merge(u, BoundWhenTrue(c)), fewer), Visit(t, Merge(v, BoundWhenTrue(c)), mode))
    requires Subsequence(Visit(f, Merge(u, BoundWhenFalse(c)), fewer), Visit(f, Merge(v, BoundWhenFalse(c)), mode))
    ensures Subsequence(Visit(n, u, fewer), Visit(n, v, mode))
  {
    ConditionBounds(c, v, u, mode, fewer);
    var cu, cv := VisitCondition(c, u, fewer).diagnostics, VisitCondition(c, v, mode).diagnostics;
    var tu, tv := Visit(t, Merge(u, BoundWhenTrue(c)), fewer), Visit(t, Merge(v, BoundWhenTrue(c)), mode);
    var fu, fv := Visit(f, Merge(u, BoundWhenFalse(c)), fewer), Visit(f, Merge(v, BoundWhenFalse(c)), mode);
    SubsequenceAppend(cu, cv, tu, tv);
    SubsequenceAppend(cu + tu, cv + tv, fu, fv);
  }

  lemma {:induction false} ConditionMonotone(n: Node, v: Version, u: Version, mode: Mode, fewer: Mode)
    requires AtMost(v, u) && LooksAtMore(mode, fewer)
    ensures Subsequence(VisitCondition(n, u, fewer).diagnostics, VisitCondition(n, v, mode).diagnostics)
    decreases n, if ShortCircuits(n) then 1 else 2
  {
    match n
    case Paren(e) => ConditionMonotone(e, v, u, mode, fewer);
    case Not(e) => ConditionMonotone(e, v, u, mode, fewer);
    case And(l, r) => OperandsMonotone(n, l, r, BoundWhenTrue(l), v, u, mode, fewer);
    case Or(l, r) => OperandsMonotone(n, l, r, BoundWhenFalse(l), v, u, mode, fewer);
    case _ => VisitMonotone(n, v, u, mode, fewer);
  }

  /** The right operand is visited under what the left one being true (false) proves. */
  lemma {:induction false} OperandsMonotone(
      n: Node, l: Node, r: Node, proved: Version, v: Version, u: Version, mode: Mode, fewer: Mode)
    requires AtMost(v, u) && LooksAtMore(mode, fewer)
    requires (n == And(l, r) && proved == BoundWhenTrue(l)) || (n == Or(l, r) && proved == BoundWhenFalse(l))
    ensures Subsequence(VisitCondition(n, u, fewer).diagnostics, VisitCondition(n, v, mode).diagnostics)
    decreases n, 0
  {
    ConditionMonotone(l, v, u, mode, fewer);
    ConditionMonotone(r, Merge(v, proved), Merge(u, proved), mode, fewer);
    ConditionBounds(l, v, u, mode, fewer);
    SubsequenceAppend(VisitCondition(l, u, fewer).diagnostics, VisitCondition(l, v, mode).diagnostics,
                      VisitCondition(r, Merge(u, proved), fewer).diagnostics,
                      VisitCondition(r, Merge(v, proved), mode).diagnostics);
  }

  lemma {:induction false} AllMonotone(ns: seq<Node>, v: Version, u: Version, mode: Mode, fewer: Mode)
    requires AtMost(v, u) && LooksAtMore(mode, fewer)
    ensures Subsequence(VisitAll(ns, u, fewer), VisitAll(ns, v, mode))
    decreases ns
  {
    if ns != [] {
      VisitMonotone(ns[0], v, u, mode, fewer);
      AllMonotone(ns[1..], v, u, mode, fewer);
      SubsequenceAppend(Visit(ns[0], u, fewer), Visit(ns[0], v, mode),
                        VisitAll(ns[1..], u, fewer), VisitAll(ns[1..], v, mode));
    }
  }

  lemma {:induction false} StatementsMonotone(ns: seq<Node>, v: Version, u: Version, mode: Mode, fewer: Mode)
    requires AtMost(v, u) && LooksAtMore(mode, fewer)
    ensures Subsequence(VisitStatements(ns, u, fewer), VisitStatements(ns, v, mode))
    decreases ns
  {
    if ns != [] {
      VisitMonotone(ns[0], v, u, mode, fewer);
      var v', u' := VersionAfter(ns[0], v), VersionAfter(ns[0], u);
      StatementsMonotone(ns[1..], v', u', mode, fewer);
      SubsequenceAppend(Visit(ns[0], u, fewer), Visit(ns[0], v, mode),
                        VisitStatements(ns[1..], u', fewer), VisitStatements(ns[1..], v', mode));
    }
  }

  lemma {:induction false} ParametersMonotone(ps: seq<Parameter>, v: Version, u: Version, mode: Mode, fewer: Mode)
    requires AtMost(v, u) && LooksAtMore(mode, fewer)
    ensures Subsequence(VisitParameters(ps, u, fewer), VisitParameters(ps, v, mode))
    decreases ps
  {
    if ps != [] {
      ParameterMonotone(ps[0], v, u, mode, fewer);
      ParametersMonotone(ps[1..], v, u, mode, fewer);
      SubsequenceAppend(VisitParameter(ps[0], u, fewer), VisitParameter(ps[0], v, mode),
                        VisitParameters(ps[1..], u, fewer), VisitParameters(ps[1..], v, mode));
    }
  }

  lemma {:induction false} ParameterMonotone(p: Parameter, v: Version, u: Version, mode: Mode, fewer: Mode)
    requires AtMost(v, u) && LooksAtMore(mode, fewer)
    ensures Subsequence(VisitParameter(p, u, fewer), VisitParameter(p, v, mode))
    decreases p
  {
    AllMonotone(p.default, v, u, mode, fewer);
    AllMonotone(p.pattern, v, u, mode, fewer);
    SubsequenceAppend(Skipped(p.default, u, fewer), Skipped(p.default, v, mode),
                      VisitAll(p.pattern, u, fewer), VisitAll(p.pattern, v, mode));
  }

  lemma {:induction false} FunctionMonotone(
      d: Declaration, declared: Version, v: Version, u: Version, mode: Mode, fewer: Mode)
    requires AtMost(v, u) && LooksAtMore(mode, fewer)
    ensures Subsequence(VisitFunction(d, declared, u, fewer), VisitFunction(d, declared, v, mode))
    decreases d
  {
    var v', u' := Merge(v, declared), Merge(u, declared);
    TypesMonotone(d.types, v', u');
    ParametersMonotone(d.parameters, v', u', mode, fewer);
    var v'', u'' := BodyVersion(v, declared, mode.minimum), BodyVersion(u, declared, mode.minimum);
    StatementsMonotone(d.body, v'', u'', mode, fewer);
    var pu, pv := VisitParameters(d.parameters, u', fewer), VisitParameters(d.parameters, v', mode);
    var su, sv := VisitStatements(d.body, u'', fewer), VisitStatements(d.body, v'', mode);
    SubsequenceAppend(pu, pv, su, sv);
    SubsequenceAppend(CheckTypes(d.types, u'), CheckTypes(d.types, v'), pu + su, pv + sv);
  }

  lemma {:induction false} MembersMonotone(
      ms: seq<Member>, declared: Version, v: Version, u: Version, mode: Mode, fewer: Mode)
    requires AtMost(v, u) && LooksAtMore(mode, fewer)
    ensures Subsequence(VisitMembers(ms, declared, u, fewer), VisitMembers(ms, declared, v, mode))
    decreases ms
  {
    if ms != [] {
      MemberMonotone(ms[0], declared, v, u, mode, fewer);
      MembersMonotone(ms[1..], declared, v, u, mode, fewer);
      SubsequenceAppend(VisitMember(ms[0], declared, u, fewer), VisitMember(ms[0], declared, v, mode),
                        VisitMembers(ms[1..], declared, u, fewer), VisitMembers(ms[1..], declared, v, mode));
    }
  }

  lemma {:induction false} MemberMonotone(
      m: Member, declared: Version, v: Version, u: Version, mode: Mode, fewer: Mode)
    requires AtMost(v, u) && LooksAtMore(mode, fewer)
    ensures Subsequence(VisitMember(m, declared, u, fewer), VisitMember(m, declared, v, mode))
    decreases m
  {
    var v', u' := Merge(v, declared), Merge(u, declared);
    match m
    case StaticMember(name, init) =>
      AllMonotone(name, v, u, mode, fewer);
      VisitMonotone(init, v, u, mode, fewer);
      SubsequenceAppend(VisitAll(name, u, fewer), VisitAll(name, v, mode), Visit(init, u, fewer), Visit(init, v, mode));
    case InstanceField(name, init) =>
      AllMonotone(name, v, u, mode, fewer);
      AllMonotone(name, v', u', mode, fewer);
      VisitMonotone(init, v', u', mode, fewer);
      FieldMonotone(name, init, v, u, v', u', mode, fewer);
    case Method(name, d) =>
      AllMonotone(name, v, u, mode, fewer);
      FunctionMonotone(d, Merge(d.declared, declared), v', u', mode, fewer);
      SubsequenceAppend(Skipped(name, u, fewer), Skipped(name, v, mode),
                        VisitFunction(d, Merge(d.declared, declared), u', fewer),
                        VisitFunction(d, Merge(d.declared, declared), v', mode));
  }

  lemma FieldMonotone(
      name: seq<Node>, init: Node, v: Version, u: Version, v': Version, u': Version, mode: Mode, fewer: Mode)
    requires LooksAtMore(mode, fewer)
    requires Subsequence(VisitAll(name, u, fewer), VisitAll(name, v, mode))
    requires Subsequence(VisitAll(name, u', fewer), VisitAll(name, v', mode))
    requires Subsequence(Visit(init, u', fewer), Visit(init, v', mode))
    ensures Subsequence(Skipped(name, u, fewer) + (VisitAll(name, u', fewer) + Visit(init, u', fewer)),
                        Skipped(name, v, mode) + (VisitAll(name, v', mode) + Visit(init, v', mode)))
  {
    var nu, nv := VisitAll(name, u', fewer), VisitAll(name, v', mode);
    SubsequenceAppend(nu, nv, Visit(init, u', fewer), Visit(init, v', mode));
    SubsequenceAppend(Skipped(name, u, fewer), Skipped(name, v, mode),
                      nu + Visit(init, u', fewer), nv + Visit(init, v', mode));
  }
}
