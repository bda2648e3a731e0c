/** The version-guard analysis: which runtime version is known at each point of a program, and
    which uses need more (VersioningValidator.ts). A tree node carries what symbol resolution
    would say about it: the versions that its uses require and that its declarations declare. */
module VersionGuards {
  import opened Wrappers

  /** A lower bound on the runtime version; `None` is the source's `undefined`. */
  type Version = Option<nat>

  /** A type mentioned in a signature, with the version its declaration needs. */
  datatype TypeUse = TypeUse(pos: nat, required: nat)

  /** A parameter's default value and its binding pattern: each nothing or one node. */
  datatype Parameter = Parameter(default: seq<Node>, pattern: seq<Node>)

  datatype Declaration =
    Declaration(declared: Version, types: seq<TypeUse>, parameters: seq<Parameter>, body: seq<Node>)

  /** A type in the contract of a class or interface (what it extends, an annotated property),
      with the version declared for that place. */
  datatype ContractType = ContractType(declared: Version, mentioned: TypeUse)

  /** `name` holds the computed name and the decorators of a member: they run where the class
      is declared, like everything static. */
  datatype Member =
    | StaticMember(name: seq<Node>, init: Node)
    | InstanceField(name: seq<Node>, init: Node)
    | Method(name: seq<Node>, decl: Declaration)

  datatype Node =
    | Paren(inner: Node)
    | Not(operand: Node)
    | And(left: Node, right: Node)
    | Or(left: Node, right: Node)
    | Conditional(condition: Node, whenTrue: Node, whenFalse: Node)
      /** `isVersionAtLeast(n)` with one numeric literal or `__PLACEHOLDER__`. */
    | AtLeast(atLeast: nat)
      /** `isVersionAtLeast` called in any other way. */
    | BadAtLeast(pos: nat, arguments: seq<Node>)
      /** Every other expression or declaration: its parts, and the version it needs itself. */
    | Use(pos: nat, required: Version, parts: seq<Node>)
      /** `name` is the computed name of a method of an object literal; it runs with the definition. */
    | Function(name: seq<Node>, decl: Declaration)
      /** `heritage` holds the `extends` expression and the decorators. */
    | Class(declared: Version, contract: seq<ContractType>, heritage: seq<Node>, members: seq<Member>)
    | Block(statements: seq<Node>)
    | If(condition: Node, thenStatement: Node, elseStatement: Option<Node>)
    | While(condition: Node, loopBody: Node)
    | Try(tryBlock: Node, handler: Node)
    | Return(values: seq<Node>)
    | Throw(values: seq<Node>)
    | Break
    | Continue

  datatype Diagnostic =
    | UseNeeds(pos: nat, required: nat)
    | TypeNeeds(pos: nat, required: nat)
    | BadIntrinsicArgument(pos: nat)

  // ----- bounds -----

  function Merge(left: Version, right: Version): Version {
    if left.None? then right
    else if right.None? then left
    else Some(if left.value < right.value then right.value else left.value)
  }

  /** Both alternatives of a disjunction must give a bound; then the weaker one holds. */
  function Weaker(left: Version, right: Version): Version {
    if left.None? || right.None? then None
    else Some(if left.value < right.value then left.value else right.value)
  }

  /** What a bound says of a runtime version. */
  predicate Satisfies(version: nat, bound: Version) {
    bound.None? || version >= bound.value
  }

  predicate IsVersionSatisfied(current: Version, required: nat) {
    current.Some? && current.value >= required
  }

  function BoundWhenTrue(n: Node): Version {
    match n
    case Paren(e) => BoundWhenTrue(e)
    case Not(e) => BoundWhenFalse(e)
    case AtLeast(v) => Some(v)
    case And(l, r) => Merge(BoundWhenTrue(l), BoundWhenTrue(r))
    case Or(l, r) => Weaker(BoundWhenTrue(l), BoundWhenTrue(r))
    case _ => None
  }

  function BoundWhenFalse(n: Node): Version {
    match n
    case Paren(e) => BoundWhenFalse(e)
    case Not(e) => BoundWhenTrue(e)
    case Or(l, r) => Merge(BoundWhenFalse(l), BoundWhenFalse(r))
    case _ => None
  }

  // ----- early exits -----

  predicate AlwaysTerminates(n: Node) {
    match n
    case Return(_) => true
    case Throw(_) => true
    case Block(ss) => exists i :: 0 <= i < |ss| && AlwaysTerminates(ss[i])
    case If(_, t, Some(e)) => AlwaysTerminates(t) && AlwaysTerminates(e)
    case _ => false
  }

  function VersionAfter(s: Node, current: Version): Version {
    if !s.If? then current
    else
      var thenTerminates := AlwaysTerminates(s.thenStatement);
      var elseTerminates := s.elseStatement.Some? && AlwaysTerminates(s.elseStatement.value);
      if thenTerminates && !elseTerminates then Merge(current, BoundWhenFalse(s.condition))
      else if elseTerminates && !thenTerminates then Merge(current, BoundWhenTrue(s.condition))
      else current
  }

  // ----- the diagnostics of a tree -----

  function CheckUse(pos: nat, current: Version, required: Version): seq<Diagnostic> {
    if required.None? || IsVersionSatisfied(current, required.value) then []
    else [UseNeeds(pos, required.value)]
  }

  function CheckTypes(types: seq<TypeUse>, current: Version): seq<Diagnostic> {
    if types == [] then []
    else
      (if IsVersionSatisfied(current, types[0].required) then [] else [TypeNeeds(types[0].pos, types[0].required)])
      + CheckTypes(types[1..], current)
  }

  /** Contracts are checked under the workspace minimum and their own version, wherever they stand. */
  function CheckContract(contract: seq<ContractType>, minimum: Version): seq<Diagnostic> {
    if contract == [] then []
    else CheckTypes([contract[0].mentioned], Merge(minimum, contract[0].declared)) + CheckContract(contract[1..], minimum)
  }

  /** The context of a function body: without a workspace minimum a declared version replaces
      the enclosing one; with a minimum the two are merged. */
  function BodyVersion(current: Version, declared: Version, minimum: Version): Version {
    if minimum.None? then (if declared.Some? then declared else current)
    else Merge(current, declared)
  }

  /** The workspace minimum, and whether to look at the parts that the validator skips. The code
      is the mode that is not thorough. It never visits default values of parameters and computed
      names of functions and methods, and it visits `extends` expressions and the names of fields
      under the version of their class although they run where the class is declared. The
      thorough mode visits these parts as well, each in the context where it runs. */
  datatype Mode = Mode(minimum: Version, thorough: bool)

  /** What visiting a condition reports, and the bound it hands back. */
  datatype Visited = Visited(diagnostics: seq<Diagnostic>, bound: Version)

  predicate ShortCircuits(n: Node) {
    n.And? || n.Or?
  }

  function Visit(n: Node, current: Version, mode: Mode): seq<Diagnostic>
    decreases n, if ShortCircuits(n) then 1 else 0
  {
    match n
    case And(_, _) => VisitCondition(n, current, mode).diagnostics
    case Or(_, _) => VisitCondition(n, current, mode).diagnostics
    case Paren(e) => Visit(e, current, mode)
    case Not(e) => Visit(e, current, mode)
    case Conditional(c, t, f) =>
      var v := VisitCondition(c, current, mode);
      v.diagnostics
      + Visit(t, Merge(current, v.bound), mode)
      + Visit(f, Merge(current, BoundWhenFalse(c)), mode)
    case AtLeast(_) => []
    case BadAtLeast(pos, args) => [BadIntrinsicArgument(pos)] + VisitAll(args, current, mode)
    case Use(pos, required, parts) => CheckUse(pos, current, required) + VisitAll(parts, current, mode)
    case Function(name, decl) =>
      (if mode.thorough then VisitAll(name, current, mode) else []) + VisitFunction(decl, decl.declared, current, mode)
    case Class(declared, contract, heritage, members) =>
      CheckContract(contract, mode.minimum)
      + ((if mode.thorough then VisitAll(heritage, current, mode) else [])
         + (VisitAll(heritage, Merge(current, declared), mode) + VisitMembers(members, declared, current, mode)))
    case Block(ss) => VisitStatements(ss, current, mode)
    case If(c, t, None) =>
      var v := VisitCondition(c, current, mode);
      v.diagnostics + Visit(t, Merge(current, v.bound), mode)
    case If(c, t, Some(e)) =>
      var v := VisitCondition(c, current, mode);
      v.diagnostics
      + Visit(t, Merge(current, v.bound), mode)
      + Visit(e, Merge(current, BoundWhenFalse(c)), mode)
    case While(c, body) => Visit(c, current, mode) + Visit(body, current, mode)
    case Try(body, handler) => Visit(body, current, mode) + Visit(handler, current, mode)
    case Return(vs) => VisitAll(vs, current, mode)
    case Throw(vs) => VisitAll(vs, current, mode)
    case Break => []
    case Continue => []
  }

  function VisitCondition(n: Node, current: Version, mode: Mode): Visited
    decreases n, if ShortCircuits(n) then 0 else 1
  {
    match n
    case Paren(e) => VisitCondition(e, current, mode)
    case Not(e) => Visited(VisitCondition(e, current, mode).diagnostics, BoundWhenFalse(e))
    case AtLeast(v) => Visited(Visit(n, current, mode), Some(v))
    case And(l, r) =>
      var left := VisitCondition(l, current, mode);
      var right := VisitCondition(r, Merge(current, left.bound), mode);
      Visited(left.diagnostics + right.diagnostics, Merge(left.bound, right.bound))
    case Or(l, r) =>
      var left := VisitCondition(l, current, mode);
      var right := VisitCondition(r, Merge(current, BoundWhenFalse(l)), mode);
      Visited(left.diagnostics + right.diagnostics, Weaker(left.bound, right.bound))
    case _ => Visited(Visit(n, current, mode), None)
  }

  function VisitAll(ns: seq<Node>, current: Version, mode: Mode): seq<Diagnostic>
    decreases ns
  {
    if ns == [] then [] else Visit(ns[0], current, mode) + VisitAll(ns[1..], current, mode)
  }

  function VisitStatements(ns: seq<Node>, current: Version, mode: Mode): seq<Diagnostic>
    decreases ns
  {
    if ns == [] then []
    else Visit(ns[0], current, mode) + VisitStatements(ns[1..], VersionAfter(ns[0], current), mode)
  }

  /** Only the binding pattern of a parameter is visited. */
  function VisitParameter(p: Parameter, current: Version, mode: Mode): seq<Diagnostic>
    decreases p
  {
    (if mode.thorough then VisitAll(p.default, current, mode) else []) + VisitAll(p.pattern, current, mode)
  }

  function VisitParameters(ps: seq<Parameter>, current: Version, mode: Mode): seq<Diagnostic>
    decreases ps
  {
    if ps == [] then [] else VisitParameter(ps[0], current, mode) + VisitParameters(ps[1..], current, mode)
  }

  function VisitFunction(decl: Declaration, declared: Version, current: Version, mode: Mode): seq<Diagnostic>
    decreases decl
  {
    var effective := Merge(current, declared);
    CheckTypes(decl.types, effective)
    + (VisitParameters(decl.parameters, effective, mode)
       + VisitStatements(decl.body, BodyVersion(current, declared, mode.minimum), mode))
  }

  /** A class member inherits the version of its class, except that static members run where
      the class is declared. */
  function VisitMember(m: Member, declared: Version, current: Version, mode: Mode): seq<Diagnostic>
    decreases m
  {
    var container := Merge(current, declared);
    match m
    case StaticMember(name, init) => VisitAll(name, current, mode) + Visit(init, current, mode)
    case InstanceField(name, init) =>
      (if mode.thorough then VisitAll(name, current, mode) else [])
      + (VisitAll(name, container, mode) + Visit(init, container, mode))
    case Method(name, decl) =>
      (if mode.thorough then VisitAll(name, current, mode) else [])
      + VisitFunction(decl, Merge(decl.declared, declared), container, mode)
  }

  function VisitMembers(ms: seq<Member>, declared: Version, current: Version, mode: Mode): seq<Diagnostic>
    decreases ms
  {
    if ms == [] then []
    else VisitMember(ms[0], declared, current, mode) + VisitMembers(ms[1..], declared, current, mode)
  }

  function Validate(program: seq<Node>, mode: Mode): seq<Diagnostic> {
    VisitStatements(program, mode.minimum, mode)
  }
}
