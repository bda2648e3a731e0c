/** The validator itself: a visitor that pushes onto its list of diagnostics. It is not thorough:
    default values, computed names of functions and methods, and so on, are never visited. */
module VersionValidator {
  import opened Wrappers
  import opened VersionGuards

  class VersioningValidator {
    const mode: Mode
    var diagnostics: seq<Diagnostic>

    constructor (nativeApiMinVersion: Version)
      ensures mode == Mode(nativeApiMinVersion, false) && diagnostics == []
    {
      mode := Mode(nativeApiMinVersion, false);
      diagnostics := [];
    }

    method RunValidation(program: seq<Node>) returns (reported: seq<Diagnostic>)
      requires !mode.thorough
      modifies this
      ensures diagnostics == old(diagnostics) + Validate(program, mode)
      ensures reported == diagnostics
    {
      VisitStatementList(program, mode.minimum);
      reported := diagnostics;
    }

    /** Silent exactly when there is a context and all runtime versions that satisfy it support the use. */
    method ValidateVersionedUse(pos: nat, current: Version, required: Version)
      modifies this
      ensures diagnostics == old(diagnostics) <==>
                required.None? || (current.Some? && forall r: nat :: Satisfies(r, current) ==> Satisfies(r, required))
      ensures diagnostics == old(diagnostics) + CheckUse(pos, current, required)
    {
      assert current.Some? ==> Satisfies(current.value, current);
      if required.Some? && !IsVersionSatisfied(current, required.value) {
        diagnostics := diagnostics + [UseNeeds(pos, required.value)];
      }
    }

    method ValidateSignature(types: seq<TypeUse>, current: Version)
      modifies this
      ensures diagnostics == old(diagnostics) + CheckTypes(types, current)
    {
      for i := 0 to |types|
        invariant diagnostics + CheckTypes(types[i..], current) == old(diagnostics) + CheckTypes(types, current)
      {
        assert types[i..][1..] == types[i + 1..];
        if !IsVersionSatisfied(current, types[i].required) {
          diagnostics := diagnostics + [TypeNeeds(types[i].pos, types[i].required)];
        }
      }
    }

    method VisitNode(n: Node, current: Version)
      requires !mode.thorough
      modifies this
      ensures diagnostics == old(diagnostics) + Visit(n, current, mode)
      decreases n, if ShortCircuits(n) then 2 else 1
    {
      match n
      case And(_, _) => var _ := VisitVersionCondition(n, current);
      case Or(_, _) => var _ := VisitVersionCondition(n, current);
      case Conditional(_, _, _) => VisitConditionalExpression(n, current);
      case AtLeast(_) =>
      case Use(_, _, _) => VisitUse(n, current);
      case Function(_, decl) => VisitFunctionLike(decl, decl.declared, current);
      case Class(_, _, _, _) => VisitClassDeclaration(n, current);
      case Block(ss) => VisitStatementList(ss, current);
      case If(_, _, _) => VisitIfStatement(n, current);
      case _ => VisitChildren(n, current);
    }

    method VisitUse(n: Node, current: Version)
      requires n.Use? && !mode.thorough
      modifies this
      ensures diagnostics == old(diagnostics) + Visit(n, current, mode)
      decreases n, 0
    {
      ValidateVersionedUse(n.pos, current, n.required);
      VisitEach(n.parts, current);
    }

    /** Nodes that are not looked at themselves, or whose own check reports at most a bad argument. */
    method VisitChildren(n: Node, current: Version)
      requires n.Paren? || n.Not? || n.BadAtLeast? || n.While? || n.Try? || n.Return? || n.Throw? || n.Break? || n.Continue?
      requires !mode.thorough
      modifies this
      ensures diagnostics == old(diagnostics) + Visit(n, current, mode)
      decreases n, 0
    {
      match n
      case Paren(e) => VisitNode(e, current);
      case Not(e) => VisitNode(e, current);
      case BadAtLeast(pos, args) =>
        diagnostics := diagnostics + [BadIntrinsicArgument(pos)];
        VisitEach(args, current);
      case While(c, body) => VisitNode(c, current); VisitNode(body, current);
      case Try(body, handler) => VisitNode(body, current); VisitNode(handler, current);
      case Return(vs) => VisitEach(vs, current);
      case Throw(vs) => VisitEach(vs, current);
      case Break =>
      case Continue =>
    }

    method VisitIfStatement(n: Node, current: Version)
      requires n.If?
      requires !mode.thorough
      modifies this
      ensures diagnostics == old(diagnostics) + Visit(n, current, mode)
      decreases n, 0
    {
      var bound := VisitVersionCondition(n.condition, current);
      VisitNode(n.thenStatement, Merge(current, bound));
      if n.elseStatement.Some? {
        VisitNode(n.elseStatement.value, Merge(current, BoundWhenFalse(n.condition)));
      }
    }

    method VisitConditionalExpression(n: Node, current: Version)
      requires n.Conditional?
      requires !mode.thorough
      modifies this
      ensures diagnostics == old(diagnostics) + Visit(n, current, mode)
      decreases n, 0
    {
      var bound := VisitVersionCondition(n.condition, current);
      VisitNode(n.whenTrue, Merge(current, bound));
      VisitNode(n.whenFalse, Merge(current, BoundWhenFalse(n.condition)));
    }

    method VisitVersionCondition(n: Node, current: Version) returns (bound: Version)
      requires !mode.thorough
      modifies this
      ensures diagnostics == old(diagnostics) + VisitCondition(n, current, mode).diagnostics
      ensures bound == VisitCondition(n, current, mode).bound
      decreases n, if ShortCircuits(n) then 1 else 2
    {
      match n
      case Paren(e) => bound := VisitVersionCondition(e, current);
      case Not(e) =>
        var _ := VisitVersionCondition(e, current);
        bound := BoundWhenFalse(e);
      case AtLeast(v) =>
        VisitNode(n, current);
        bound := Some(v);
      case And(l, r) =>
        var left := VisitVersionCondition(l, current);
        var right := VisitVersionCondition(r, Merge(current, left));
        bound := Merge(left, right);
      case Or(l, r) =>
        var left := VisitVersionCondition(l, current);
        var right := VisitVersionCondition(r, Merge(current, BoundWhenFalse(l)));
        bound := Weaker(left, right);
      case _ =>
        VisitNode(n, current);
        bound := None;
    }

    method VisitEach(ns: seq<Node>, current: Version)
      requires !mode.thorough
      modifies this
      ensures diagnostics == old(diagnostics) + VisitAll(ns, current, mode)
      decreases ns
    {
      for i := 0 to |ns|
        invariant diagnostics + VisitAll(ns[i..], current, mode) == old(diagnostics) + VisitAll(ns, current, mode)
      {
        assert ns[i..][1..] == ns[i + 1..];
        VisitNode(ns[i], current);
      }
    }

    method VisitStatementList(ns: seq<Node>, current: Version)
      requires !mode.thorough
      modifies this
      ensures diagnostics == old(diagnostics) + VisitStatements(ns, current, mode)
      decreases ns
    {
      var statementVersion := current;
      for i := 0 to |ns|
        invariant diagnostics + VisitStatements(ns[i..], statementVersion, mode)
               == old(diagnostics) + VisitStatements(ns, current, mode)
      {
        assert ns[i..][1..] == ns[i + 1..];
        VisitNode(ns[i], statementVersion);
        statementVersion := VersionAfter(ns[i], statementVersion);
      }
    }

    method VisitFunctionLike(decl: Declaration, declared: Version, current: Version)
      requires !mode.thorough
      modifies this
      ensures diagnostics == old(diagnostics) + VisitFunction(decl, declared, current, mode)
      decreases decl
    {
      var effective := Merge(current, declared);
      ValidateSignature(decl.types, effective);
      VisitBindingPatterns(decl.parameters, effective);
      VisitStatementList(decl.body, BodyVersion(current, declared, mode.minimum));
    }

    method VisitBindingPatterns(ps: seq<Parameter>, current: Version)
      requires !mode.thorough
      modifies this
      ensures diagnostics == old(diagnostics) + VisitParameters(ps, current, mode)
      decreases ps
    {
      for i := 0 to |ps|
        invariant diagnostics + VisitParameters(ps[i..], current, mode)
               == old(diagnostics) + VisitParameters(ps, current, mode)
      {
        assert ps[i..][1..] == ps[i + 1..];
        VisitEach(ps[i].pattern, current);
      }
    }

    method ValidateContainerDeclaration(contract: seq<ContractType>)
      modifies this
      ensures diagnostics == old(diagnostics) + CheckContract(contract, mode.minimum)
    {
      for i := 0 to |contract|
        invariant diagnostics + CheckContract(contract[i..], mode.minimum)
               == old(diagnostics) + CheckContract(contract, mode.minimum)
      {
        assert contract[i..][1..] == contract[i + 1..];
        ValidateSignature([contract[i].mentioned], Merge(mode.minimum, contract[i].declared));
      }
    }

    method VisitClassDeclaration(n: Node, current: Version)
      requires n.Class?
      requires !mode.thorough
      modifies this
      ensures diagnostics == old(diagnostics) + Visit(n, current, mode)
      decreases n, 0
    {
      ValidateContainerDeclaration(n.contract);
      VisitEach(n.heritage, Merge(current, n.declared));
      VisitClassMembers(n.members, n.declared, current);
    }

    method VisitClassMembers(ms: seq<Member>, declared: Version, current: Version)
      requires !mode.thorough
      modifies this
      ensures diagnostics == old(diagnostics) + VisitMembers(ms, declared, current, mode)
      decreases ms
    {
      for i := 0 to |ms|
        invariant diagnostics + VisitMembers(ms[i..], declared, current, mode)
               == old(diagnostics) + VisitMembers(ms, declared, current, mode)
      {
        assert ms[i..][1..] == ms[i + 1..];
        VisitClassMember(ms[i], declared, current);
      }
    }

    method VisitClassMember(m: Member, declared: Version, current: Version)
      requires !mode.thorough
      modifies this
      ensures diagnostics == old(diagnostics) + VisitMember(m, declared, current, mode)
      decreases m
    {
      var container := Merge(current, declared);
      match m
      case StaticMember(name, init) =>
        VisitEach(name, current);
        VisitNode(init, current);
      case InstanceField(name, init) =>
        VisitEach(name, container);
        VisitNode(init, container);
      case Method(_, decl) => VisitFunctionLike(decl, Merge(decl.declared, declared), container);
    }
  }
}
