/** The version-guard analysis is precise: in every nest of constructs whose guards are exact, a use
    is reported iff some runtime version reaches it without supporting it. */
module VersionPrecision {
  import opened Wrappers
  import opened VersionGuards
  import opened VersionRuntime
  import opened VersionProofs
  import opened VersionSafety
  import opened VersionReach

  // ----- nests of constructs -----

  /** Where a construct with a guard has the next one inside it. */
  datatype Place = InThen | InThenOfTwo | InElse | BehindThenExit | BehindElseExit | InTrueArm | InFalseArm | RightOfAnd | RightOfOr

  /** Where one that adds nothing does. */
  datatype Spot =
    | InParen | InNot | InBlock | BehindStatement | InArgument | InIfTest | InTest | LeftOfAnd | LeftOfOr
    | InLoop | InLoopTest | InTry | InHandler | InReturn | InThrow

  datatype Layer = Guarded(place: Place, guard: Node, exit: Node) | Plain(spot: Spot)

  const ALWAYS: Node := AtLeast(0)

  function AroundGuarded(p: Place, guard: Node, exit: Node, inner: Node): Node {
    match p
    case InThen => If(guard, inner, None)
    case InThenOfTwo => If(guard, inner, Some(Block([])))
    case InElse => If(guard, Block([]), Some(inner))
    case BehindThenExit => Block([If(guard, exit, None), inner])
    case BehindElseExit => Block([If(guard, Block([]), Some(exit)), inner])
    case InTrueArm => Conditional(guard, inner, ALWAYS)
    case InFalseArm => Conditional(guard, ALWAYS, inner)
    case RightOfAnd => And(guard, inner)
    case RightOfOr => Or(guard, inner)
  }

  function AroundPlain(p: Spot, inner: Node): Node {
    match p
    case InParen => Paren(inner)
    case InNot => Not(inner)
    case InBlock => Block([inner])
    case BehindStatement => Block([If(ALWAYS, Block([]), None), inner])
    case InArgument => Use(0, None, [inner])
    case InIfTest => If(inner, Block([]), None)
    case InTest => Conditional(inner, ALWAYS, ALWAYS)
    case LeftOfAnd => And(inner, ALWAYS)
    case LeftOfOr => Or(inner, ALWAYS)
    case InLoop => While(ALWAYS, inner)
    case InLoopTest => While(inner, Block([]))
    case InTry => Try(inner, Block([]))
    case InHandler => Try(Throw([]), inner)
    case InReturn => Return([inner])
    case InThrow => Throw([inner])
  }

  function Around(l: Layer, inner: Node): Node {
    match l
    case Guarded(p, guard, exit) => AroundGuarded(p, guard, exit, inner)
    case Plain(p) => AroundPlain(p, inner)
  }

  /** The outermost construct comes first. */
  function Wrap(layers: seq<Layer>, inner: Node): Node {
    if layers == [] then inner else Around(layers[0], Wrap(layers[1..], inner))
  }

  /** What the guard has to be to get there. */
  predicate NeedsTrue(p: Place) {
    p.InThen? || p.InThenOfTwo? || p.BehindElseExit? || p.InTrueArm? || p.RightOfAnd?
  }

  predicate HasExit(p: Place) {
    p.BehindThenExit? || p.BehindElseExit?
  }

  predicate IsExit(n: Node) {
    match n
    case Return(vs) => vs == []
    case Throw(vs) => vs == []
    case Block(ss) => |ss| == 1 && IsExit(ss[0])
    case If(c, t, Some(e)) => c.AtLeast? && IsExit(t) && IsExit(e)
    case _ => false
  }

  predicate GuardOk(p: Place, guard: Node, exit: Node) {
    && (if NeedsTrue(p) then ExactWhenTrue(guard) else ExactWhenFalse(guard))
    && (HasExit(p) ==> IsExit(exit))
  }

  predicate LayerOk(l: Layer) {
    l.Guarded? ==> GuardOk(l.place, l.guard, l.exit)
  }

  // ----- what the analysis knows inside -----

  function GuardBound(p: Place, guard: Node): Version {
    if NeedsTrue(p) then BoundWhenTrue(guard) else BoundWhenFalse(guard)
  }

  function LayerBound(l: Layer): Version {
    if l.Guarded? then GuardBound(l.place, l.guard) else None
  }

  function Known(current: Version, layers: seq<Layer>): Version
    decreases |layers|
  {
    if layers == [] then current else Known(Merge(current, LayerBound(layers[0])), layers[1..])
  }

  /** Visiting something as a condition reports what visiting it reports. */
  lemma {:induction false} ConditionReportsTheSame(n: Node, current: Version, mode: Mode)
    ensures VisitCondition(n, current, mode).diagnostics == Visit(n, current, mode)
  {
    match n
    case Paren(e) => ConditionReportsTheSame(e, current, mode);
    case Not(e) => ConditionReportsTheSame(e, current, mode);
    case _ =>
  }

  lemma {:induction false} ExitTerminates(n: Node, current: Version, mode: Mode)
    requires IsExit(n)
    ensures AlwaysTerminates(n) && SkipsNothing(n) && Visit(n, current, mode) == []
    decreases n
  {
    match n
    case Return(_) =>
    case Throw(_) =>
    case Block(ss) =>
      ExitTerminates(ss[0], current, mode);
      OneStatement(ss[0], current, mode);
      assert ss == [ss[0]];
    case If(c, t, Some(e)) =>
      ExitTerminates(t, Merge(current, Some(c.atLeast)), mode);
      ExitTerminates(e, Merge(current, BoundWhenFalse(c)), mode);
      assert VisitCondition(c, current, mode) == Visited([], Some(c.atLeast));
  }

  lemma OneStatement(n: Node, current: Version, mode: Mode)
    ensures VisitStatements([n], current, mode) == Visit(n, current, mode) == VisitAll([n], current, mode)
  {
    assert [n][1..] == [];
  }

  lemma TwoStatements(a: Node, b: Node, current: Version, mode: Mode)
    ensures VisitStatements([a, b], current, mode) == Visit(a, current, mode) + Visit(b, VersionAfter(a, current), mode)
  {
    assert [a, b][1..] == [b];
    OneStatement(b, VersionAfter(a, current), mode);
  }

  lemma GuardIsClean(p: Place, guard: Node, exit: Node, current: Version, mode: Mode)
    requires GuardOk(p, guard, exit)
    ensures VisitCondition(guard, current, mode) == Visited([], BoundWhenTrue(guard))
  {
    ExactGuardsAreClean(guard, current, mode);
    ConditionReturnsTrueBound(guard, current, mode);
  }

  lemma NothingAdded(ds: seq<Diagnostic>)
    ensures [] + ds == ds && ds + [] == ds
  {
  }

  /** The statement in front of the code behind an early exit. */
  function Exiting(p: Place, guard: Node, exit: Node): Node {
    if p.BehindThenExit? then If(guard, exit, None) else If(guard, Block([]), Some(exit))
  }

  lemma ExitReportsNothing(p: Place, guard: Node, exit: Node, current: Version, mode: Mode)
    requires GuardOk(p, guard, exit) && HasExit(p)
    ensures Visit(Exiting(p, guard, exit), current, mode) == []
    ensures VersionAfter(Exiting(p, guard, exit), current) == Merge(current, GuardBound(p, guard))
  {
    GuardIsClean(p, guard, exit, current, mode);
    ExitTerminates(exit, Merge(current, if p.BehindThenExit? then BoundWhenTrue(guard) else BoundWhenFalse(guard)), mode);
  }

  lemma BehindExit(p: Place, guard: Node, exit: Node, inner: Node, current: Version, mode: Mode)
    requires GuardOk(p, guard, exit) && HasExit(p)
    ensures Visit(Block([Exiting(p, guard, exit), inner]), current, mode) == Visit(inner, Merge(current, GuardBound(p, guard)), mode)
  {
    ExitReportsNothing(p, guard, exit, current, mode);
    TwoStatements(Exiting(p, guard, exit), inner, current, mode);
    NothingAdded(Visit(inner, Merge(current, GuardBound(p, guard)), mode));
  }

  lemma InBranch(p: Place, guard: Node, exit: Node, inner: Node, current: Version, mode: Mode)
    requires GuardOk(p, guard, exit) && (p.InThen? || p.InThenOfTwo? || p.InElse?)
    ensures Visit(AroundGuarded(p, guard, exit, inner), current, mode) == Visit(inner, Merge(current, GuardBound(p, guard)), mode)
  {
    GuardIsClean(p, guard, exit, current, mode);
    NothingAdded(Visit(inner, Merge(current, GuardBound(p, guard)), mode));
  }

  lemma InExpression(p: Place, guard: Node, exit: Node, inner: Node, current: Version, mode: Mode)
    requires GuardOk(p, guard, exit) && (p.InTrueArm? || p.InFalseArm? || p.RightOfAnd? || p.RightOfOr?)
    ensures Visit(AroundGuarded(p, guard, exit, inner), current, mode) == Visit(inner, Merge(current, GuardBound(p, guard)), mode)
  {
    GuardIsClean(p, guard, exit, current, mode);
    ConditionReportsTheSame(inner, Merge(current, GuardBound(p, guard)), mode);
    NothingAdded(Visit(inner, Merge(current, GuardBound(p, guard)), mode));
  }

  lemma InSameContext(p: Spot, inner: Node, current: Version, mode: Mode)
    requires p.InParen? || p.InNot? || p.InBlock? || p.InArgument? || p.InReturn? || p.InThrow?
    ensures Visit(AroundPlain(p, inner), current, mode) == Visit(inner, current, mode)
  {
    OneStatement(inner, current, mode);
    NothingAdded(Visit(inner, current, mode));
  }

  lemma InLoops(inner: Node, current: Version, mode: Mode)
    ensures Visit(While(ALWAYS, inner), current, mode) == Visit(inner, current, mode)
    ensures Visit(While(inner, Block([])), current, mode) == Visit(inner, current, mode)
  {
    NothingAdded(Visit(inner, current, mode));
  }

  lemma InTries(inner: Node, current: Version, mode: Mode)
    ensures Visit(Try(inner, Block([])), current, mode) == Visit(inner, current, mode)
    ensures Visit(Try(Throw([]), inner), current, mode) == Visit(inner, current, mode)
  {
    NothingAdded(Visit(inner, current, mode));
  }

  lemma InIfTests(inner: Node, current: Version, mode: Mode)
    ensures Visit(If(inner, Block([]), None), current, mode) == Visit(inner, current, mode)
    ensures Visit(Conditional(inner, ALWAYS, ALWAYS), current, mode) == Visit(inner, current, mode)
  {
    ConditionReportsTheSame(inner, current, mode);
    var ds := Visit(inner, current, mode);
    NothingAdded(ds);
    assert Visit(Conditional(inner, ALWAYS, ALWAYS), current, mode) == (ds + []) + [];
  }

  lemma OnLeft(inner: Node, current: Version, mode: Mode)
    ensures Visit(And(inner, ALWAYS), current, mode) == Visit(inner, current, mode)
    ensures Visit(Or(inner, ALWAYS), current, mode) == Visit(inner, current, mode)
  {
    ConditionReportsTheSame(inner, current, mode);
    NothingAdded(Visit(inner, current, mode));
    AlwaysIsClean(Merge(current, VisitCondition(inner, current, mode).bound), mode);
    AlwaysIsClean(Merge(current, BoundWhenFalse(inner)), mode);
  }

  lemma AlwaysIsClean(current: Version, mode: Mode)
    ensures VisitCondition(ALWAYS, current, mode).diagnostics == []
  {
  }

  lemma InSequence(inner: Node, current: Version, mode: Mode)
    ensures Visit(Block([If(ALWAYS, Block([]), None), inner]), current, mode) == Visit(inner, current, mode)
  {
    var first := If(ALWAYS, Block([]), None);
    assert Visit(first, current, mode) == [];
    TwoStatements(first, inner, current, mode);
    NothingAdded(Visit(inner, current, mode));
  }

  lemma VisitPlain(p: Spot, inner: Node, current: Version, mode: Mode)
    ensures Visit(AroundPlain(p, inner), current, mode) == Visit(inner, current, mode)
  {
    match p
    case BehindStatement => InSequence(inner, current, mode);
    case InIfTest => InIfTests(inner, current, mode);
    case InTest => InIfTests(inner, current, mode);
    case LeftOfAnd => OnLeft(inner, current, mode);
    case LeftOfOr => OnLeft(inner, current, mode);
    case InLoop => InLoops(inner, current, mode);
    case InLoopTest => InLoops(inner, current, mode);
    case InTry => InTries(inner, current, mode);
    case InHandler => InTries(inner, current, mode);
    case _ => InSameContext(p, inner, current, mode);
  }

  lemma VisitAround(l: Layer, inner: Node, current: Version, mode: Mode)
    requires LayerOk(l)
    ensures Visit(Around(l, inner), current, mode) == Visit(inner, Merge(current, LayerBound(l)), mode)
  {
    match l
    case Plain(p) => VisitPlain(p, inner, current, mode);
    case Guarded(p, guard, exit) =>
      if HasExit(p) {
        BehindExit(p, guard, exit, inner, current, mode);
      } else if p.InThen? || p.InThenOfTwo? || p.InElse? {
        InBranch(p, guard, exit, inner, current, mode);
      } else {
        InExpression(p, guard, exit, inner, current, mode);
      }
  }

  lemma {:induction false} VisitWrap(layers: seq<Layer>, inner: Node, current: Version, mode: Mode)
    requires forall l <- layers :: LayerOk(l)
    ensures Visit(Wrap(layers, inner), current, mode) == Visit(inner, Known(current, layers), mode)
    decreases |layers|
  {
    if layers != [] {
      VisitAround(layers[0], Wrap(layers[1..], inner), current, mode);
      VisitWrap(layers[1..], inner, Merge(current, LayerBound(layers[0])), mode);
    }
  }

  // ----- a version that meets all guards gets there -----

  ghost predicate FailsEverywhere(n: Node, w: World, pos: nat) {
    forall st: State, fuel: nat :: Run(n, w, st, fuel) == Outcome(Unsupported(pos), st)
  }

  lemma RunOne(n: Node, w: World, st: State, fuel: nat)
    ensures RunAll([n], w, st, fuel) ==
            if Run(n, w, st, fuel).completion.Normal? then Outcome(Normal(true), Run(n, w, st, fuel).state) else Run(n, w, st, fuel)
  {
    assert [n][1..] == [];
  }

  lemma RunTwo(a: Node, b: Node, w: World, st: State, fuel: nat)
    requires Run(a, w, st, fuel).completion.Normal? && Run(a, w, st, fuel).state == st && !Run(b, w, st, fuel).completion.Normal?
    ensures RunAll([a, b], w, st, fuel) == Run(b, w, st, fuel)
  {
    assert [a, b][1..] == [b];
    RunOne(b, w, st, fuel);
  }

  lemma FailsBehindExit(p: Place, guard: Node, exit: Node, inner: Node, w: World, pos: nat, st: State, fuel: nat)
    requires GuardOk(p, guard, exit) && HasExit(p) && Run(inner, w, st, fuel) == Outcome(Unsupported(pos), st)
    requires Satisfies(w.version, GuardBound(p, guard))
    ensures Run(Block([Exiting(p, guard, exit), inner]), w, st, fuel) == Outcome(Unsupported(pos), st)
  {
    ExactGuards(guard, w, st, fuel);
    assert RunAll([], w, st, fuel) == Outcome(Normal(true), st);
    assert Run(Exiting(p, guard, exit), w, st, fuel) == Outcome(Normal(p.BehindElseExit?), st);
    RunTwo(Exiting(p, guard, exit), inner, w, st, fuel);
  }

  lemma FailsGuarded(p: Place, guard: Node, exit: Node, inner: Node, w: World, pos: nat, st: State, fuel: nat)
    requires GuardOk(p, guard, exit) && !HasExit(p) && Run(inner, w, st, fuel) == Outcome(Unsupported(pos), st)
    requires Satisfies(w.version, GuardBound(p, guard))
    ensures Run(AroundGuarded(p, guard, exit, inner), w, st, fuel) == Outcome(Unsupported(pos), st)
  {
    ExactGuards(guard, w, st, fuel);
    assert Run(guard, w, st, fuel) == Outcome(Normal(NeedsTrue(p)), st);
  }

  lemma FailsInStatement(p: Spot, inner: Node, w: World, pos: nat, st: State, fuel: nat)
    requires p.InBlock? || p.InIfTest? || p.InLoop? || p.InLoopTest? || p.InTry? || p.InReturn? || p.InThrow?
    requires Run(inner, w, st, fuel) == Outcome(Unsupported(pos), st)
    ensures Run(AroundPlain(p, inner), w, st, fuel) == Outcome(Unsupported(pos), st)
  {
    RunOne(inner, w, st, fuel);
    assert Run(ALWAYS, w, st, fuel) == Outcome(Normal(true), st);
  }

  lemma FailsInOperand(p: Spot, inner: Node, w: World, pos: nat, st: State, fuel: nat)
    requires p.InParen? || p.InNot? || p.InArgument? || p.InTest? || p.LeftOfAnd? || p.LeftOfOr?
    requires Run(inner, w, st, fuel) == Outcome(Unsupported(pos), st)
    ensures Run(AroundPlain(p, inner), w, st, fuel) == Outcome(Unsupported(pos), st)
  {
    RunOne(inner, w, st, fuel);
  }

  lemma FailsPlain(p: Spot, inner: Node, w: World, pos: nat, st: State, fuel: nat)
    requires Run(inner, w, st, fuel) == Outcome(Unsupported(pos), st)
    ensures Run(AroundPlain(p, inner), w, st, fuel) == Outcome(Unsupported(pos), st)
  {
    assert RunAll([], w, st, fuel) == Outcome(Normal(true), st);
    if p.BehindStatement? {
      RunTwo(If(ALWAYS, Block([]), None), inner, w, st, fuel);
    } else if p.InHandler? {
      assert Run(Throw([]), w, st, fuel) == Outcome(Threw, st);
    } else if p.InParen? || p.InNot? || p.InArgument? || p.InTest? || p.LeftOfAnd? || p.LeftOfOr? {
      FailsInOperand(p, inner, w, pos, st, fuel);
    } else {
      FailsInStatement(p, inner, w, pos, st, fuel);
    }
  }

  lemma FailsAround(l: Layer, inner: Node, w: World, pos: nat)
    requires LayerOk(l) && FailsEverywhere(inner, w, pos) && Satisfies(w.version, LayerBound(l))
    ensures FailsEverywhere(Around(l, inner), w, pos)
  {
    forall st: State, fuel: nat ensures Run(Around(l, inner), w, st, fuel) == Outcome(Unsupported(pos), st) {
      assert Run(inner, w, st, fuel) == Outcome(Unsupported(pos), st);
      match l
      case Plain(p) => FailsPlain(p, inner, w, pos, st, fuel);
      case Guarded(p, guard, exit) =>
        if HasExit(p) {
          FailsBehindExit(p, guard, exit, inner, w, pos, st, fuel);
        } else {
          FailsGuarded(p, guard, exit, inner, w, pos, st, fuel);
        }
    }
  }

  lemma {:induction false} FailsInside(layers: seq<Layer>, inner: Node, current: Version, w: World, pos: nat)
    requires (forall l <- layers :: LayerOk(l)) && FailsEverywhere(inner, w, pos)
    requires Satisfies(w.version, Known(current, layers))
    ensures FailsEverywhere(Wrap(layers, inner), w, pos) && Satisfies(w.version, current)
    decreases |layers|
  {
    if layers != [] {
      FailsInside(layers[1..], inner, Merge(current, LayerBound(layers[0])), w, pos);
      FailsAround(layers[0], Wrap(layers[1..], inner), w, pos);
    }
  }

  // ----- where the nest stands in a program -----

  /** `own` is the version declared for a function or method, `of` that of its class. */
  datatype Holder =
    | TopLevel
    | BodyOf(own: Version) | PatternOf(own: Version)
    | MethodBody(own: Version, of: Version) | MethodPattern(own: Version, of: Version)
    | FieldInit(of: Version) | StaticInit(of: Version) | StaticName(of: Version) | Extends

  function Program(h: Holder, inner: Node): seq<Node> {
    match h
    case TopLevel => [inner]
    case BodyOf(own) => [Function([], Declaration(own, [], [], [inner]))]
    case PatternOf(own) => [Function([], Declaration(own, [], [Parameter([], [inner])], []))]
    case MethodBody(own, of) => [Class(of, [], [], [Method([], Declaration(own, [], [], [inner]))])]
    case MethodPattern(own, of) => [Class(of, [], [], [Method([], Declaration(own, [], [Parameter([], [inner])], []))])]
    case FieldInit(of) => [Class(of, [], [], [InstanceField([], inner)])]
    case StaticInit(of) => [Class(of, [], [], [StaticMember([], inner)])]
    case StaticName(of) => [Class(of, [], [], [StaticMember([inner], ALWAYS)])]
    case Extends => [Class(None, [], [inner], [])]
  }

  /** The version that whoever gets there has checked for. */
  function Declared(h: Holder): Version {
    match h
    case BodyOf(own) => own
    case PatternOf(own) => own
    case MethodBody(own, of) => Merge(own, of)
    case MethodPattern(own, of) => Merge(own, of)
    case FieldInit(of) => of
    case _ => None
  }

  lemma OneParameter(inner: Node, current: Version, mode: Mode)
    requires !mode.thorough
    ensures VisitParameters([Parameter([], [inner])], current, mode) == Visit(inner, current, mode)
  {
    var p := Parameter([], [inner]);
    assert [p][1..] == [];
    OneStatement(inner, current, mode);
    assert VisitParameter(p, current, mode) == Visit(inner, current, mode);
  }

  lemma VisitHeldFunction(own: Version, of: Version, isBody: bool, inner: Node, minimum: Version)
    ensures var d := if isBody then Declaration(own, [], [], [inner]) else Declaration(own, [], [Parameter([], [inner])], []);
            VisitFunction(d, Merge(own, of), Merge(minimum, of), Mode(minimum, false))
            == Visit(inner, Merge(minimum, Merge(own, of)), Mode(minimum, false))
  {
    var mode, known := Mode(minimum, false), Merge(minimum, Merge(own, of));
    NothingAdded(Visit(inner, known, mode));
    assert Merge(Merge(minimum, of), Merge(own, of)) == known;
    assert BodyVersion(Merge(minimum, of), Merge(own, of), minimum) == known;
    if isBody { OneStatement(inner, known, mode); } else { OneParameter(inner, known, mode); }
  }

  lemma VisitClassOf(m: Member, heritage: seq<Node>, of: Version, minimum: Version)
    ensures var mode := Mode(minimum, false);
            Visit(Class(of, [], heritage, [m]), minimum, mode)
            == VisitAll(heritage, Merge(minimum, of), mode) + VisitMember(m, of, minimum, mode)
  {
    var mode := Mode(minimum, false);
    assert [m][1..] == [];
    NothingAdded(VisitMember(m, of, minimum, mode));
    NothingAdded(VisitAll(heritage, Merge(minimum, of), mode) + VisitMembers([m], of, minimum, mode));
    assert VisitMembers([m], of, minimum, mode) == VisitMember(m, of, minimum, mode);
  }

  /** What the code reports of a program with one nest in it is what it reports of the nest. */
  lemma VisitProgram(h: Holder, inner: Node, minimum: Version)
    ensures Validate(Program(h, inner), Mode(minimum, false)) == Visit(inner, Merge(minimum, Declared(h)), Mode(minimum, false))
  {
    var mode := Mode(minimum, false);
    OneStatement(Program(h, inner)[0], minimum, mode);
    match h
    case TopLevel =>
    case BodyOf(own) => VisitFreeFunction(own, true, inner, minimum);
    case PatternOf(own) => VisitFreeFunction(own, false, inner, minimum);
    case Extends =>
      OneStatement(inner, minimum, mode);
      NothingAdded(Visit(inner, minimum, mode));
    case _ => VisitMemberProgram(h, inner, minimum);
  }

  lemma VisitFreeFunction(own: Version, isBody: bool, inner: Node, minimum: Version)
    ensures var d := if isBody then Declaration(own, [], [], [inner]) else Declaration(own, [], [Parameter([], [inner])], []);
            Visit(Function([], d), minimum, Mode(minimum, false)) == Visit(inner, Merge(minimum, own), Mode(minimum, false))
  {
    VisitHeldFunction(own, None, isBody, inner, minimum);
    NothingAdded(Visit(inner, Merge(minimum, own), Mode(minimum, false)));
  }

  lemma VisitMemberProgram(h: Holder, inner: Node, minimum: Version)
    requires h.MethodBody? || h.MethodPattern? || h.FieldInit? || h.StaticInit? || h.StaticName?
    ensures Visit(Program(h, inner)[0], minimum, Mode(minimum, false))
         == Visit(inner, Merge(minimum, Declared(h)), Mode(minimum, false))
  {
    var n, mode := Program(h, inner)[0], Mode(minimum, false);
    VisitClassOf(n.members[0], [], n.declared, minimum);
    NothingAdded(VisitMember(n.members[0], n.declared, minimum, mode));
    NothingAdded(Visit(inner, Merge(minimum, Declared(h)), mode));
    if h.MethodBody? || h.MethodPattern? { VisitHeldFunction(h.own, h.of, h.MethodBody?, inner, minimum); }
    if h.StaticName? { OneStatement(inner, minimum, mode); }
  }

  // ----- loading such a program, and calling what it defines -----

  /** The function that the program leaves behind. */
  function HeldClosure(h: Holder, inner: Node): Closure {
    match h
    case PatternOf(_) => Closure(Declared(h), [Parameter([], [inner])], [])
    case MethodPattern(_, _) => Closure(Declared(h), [Parameter([], [inner])], [])
    case _ => Closure(Declared(h), [], [inner])
  }

  predicate RunsAtOnce(h: Holder) {
    h.TopLevel? || h.StaticInit? || h.StaticName? || h.Extends?
  }

  lemma FailsAtOnce(h: Holder, inner: Node, w: World, pos: nat)
    requires RunsAtOnce(h) && FailsEverywhere(inner, w, pos)
    ensures RunModule(Program(h, inner), w, 2).completion.Unsupported?
  {
    var st := State([], 0);
    var n := Program(h, inner)[0];
    assert Run(inner, w, st, 2) == Outcome(Unsupported(pos), st);
    RunOne(inner, w, st, 2);
    assert RunAll([], w, st, 2) == Outcome(Normal(true), st);
    if h.StaticInit? {
      assert n.members[1..] == [];
      assert st.(closures := st.closures + []) == st;
      assert DefineMembers(n.members, n.declared, w, st, 2) == Outcome(Normal(true), st);
      assert InitStatics(n.members, w, st, 2) == Outcome(Unsupported(pos), st);
    }
    assert Run(n, w, st, 2).completion == Unsupported(pos);
    RunOne(n, w, st, 2);
  }

  lemma FailsWhenCalled(h: Holder, inner: Node, w: World, pos: nat)
    requires !RunsAtOnce(h) && FailsEverywhere(inner, w, pos) && Satisfies(w.version, Declared(h)) && w.answers(0) == 0
    ensures RunModule(Program(h, inner), w, 2).completion.Unsupported?
  {
    var c := HeldClosure(h, inner);
    var loaded := State([c], 0);
    LoadsOne(h, inner, w);
    CallFails(c, inner, w, pos, Ticked(loaded));
    assert MayCall(Some(w.version), c.declared);
    assert RunCallbacks(Some(w.version), w, loaded, 2).completion.Unsupported?;
  }

  lemma LoadsOne(h: Holder, inner: Node, w: World)
    requires !RunsAtOnce(h)
    ensures RunAll(Program(h, inner), w, State([], 0), 2) == Outcome(Normal(true), State([HeldClosure(h, inner)], 0))
  {
    var st, n := State([], 0), Program(h, inner)[0];
    assert RunAll([], w, st, 2) == Outcome(Normal(true), st);
    if n.Class? {
      assert n.members[1..] == [];
      var loaded := State([] + [HeldClosure(h, inner)], 0);
      assert MemberClosures(n.members[0], n.declared) == [HeldClosure(h, inner)];
      assert DefineMembers(n.members, n.declared, w, st, 2) == Outcome(Normal(true), loaded);
      assert InitStatics(n.members, w, loaded, 2) == Outcome(Normal(true), loaded);
    }
    assert [] + [HeldClosure(h, inner)] == [HeldClosure(h, inner)];
    RunOne(n, w, st, 2);
  }

  lemma CallFails(c: Closure, inner: Node, w: World, pos: nat, st: State)
    requires FailsEverywhere(inner, w, pos)
    requires (c.parameters == [] && c.body == [inner]) || c.parameters == [Parameter([], [inner])]
    ensures RunClosure(c, w, st, 1).completion.Unsupported?
  {
    assert Run(inner, w, st, 1) == Outcome(Unsupported(pos), st);
    RunOne(inner, w, st, 1);
    assert Run(inner, w, Ticked(st), 1) == Outcome(Unsupported(pos), Ticked(st));
    RunOne(inner, w, Ticked(st), 1);
    assert RunAll([], w, Ticked(st), 1) == Outcome(Normal(true), Ticked(st));
  }

  // ----- nothing is skipped, so silence is safe -----

  lemma {:induction false} ExactGuardsSkipNothing(n: Node)
    requires ExactWhenTrue(n) || ExactWhenFalse(n)
    ensures SkipsNothing(n)
  {
    match n
    case Paren(e) => ExactGuardsSkipNothing(e);
    case Not(e) => ExactGuardsSkipNothing(e);
    case And(a, b) => ExactGuardsSkipNothing(a); ExactGuardsSkipNothing(b);
    case Or(a, b) => ExactGuardsSkipNothing(a); ExactGuardsSkipNothing(b);
    case _ =>
  }

  lemma SkipsOne(a: Node)
    requires SkipsNothing(a)
    ensures SkipsNothing(Block([a])) && SkipsNothing(Use(0, None, [a])) && SkipsNothing(Return([a])) && SkipsNothing(Throw([a]))
  {
  }

  lemma SkipsBoth(a: Node, b: Node)
    requires SkipsNothing(a) && SkipsNothing(b)
    ensures SkipsNothing(Block([a, b]))
  {
  }

  lemma SkipsIf(c: Node, t: Node, e: Node)
    requires SkipsNothing(c) && SkipsNothing(t) && SkipsNothing(e)
    ensures SkipsNothing(If(c, t, None)) && SkipsNothing(If(c, t, Some(e))) && SkipsNothing(Conditional(c, t, e))
  {
  }

  lemma SkipsPair(a: Node, b: Node)
    requires SkipsNothing(a) && SkipsNothing(b)
    ensures SkipsNothing(And(a, b)) && SkipsNothing(Or(a, b)) && SkipsNothing(While(a, b)) && SkipsNothing(Try(a, b))
  {
  }

  lemma EmptySkips()
    ensures SkipsNothing(Block([])) && SkipsNothing(ALWAYS) && SkipsNothing(Throw([]))
  {
  }

  lemma ExitSkips(guard: Node, exit: Node, inner: Node)
    requires SkipsNothing(guard) && SkipsNothing(inner) && IsExit(exit)
    ensures SkipsNothing(Block([If(guard, exit, None), inner]))
    ensures SkipsNothing(Block([If(guard, Block([]), Some(exit)), inner]))
  {
    EmptySkips();
    ExitTerminates(exit, None, Mode(None, false));
    SkipsIf(guard, exit, ALWAYS);
    SkipsIf(guard, Block([]), exit);
    SkipsBoth(If(guard, exit, None), inner);
    SkipsBoth(If(guard, Block([]), Some(exit)), inner);
  }

  lemma BranchSkips(guard: Node, inner: Node)
    requires SkipsNothing(guard) && SkipsNothing(inner)
    ensures SkipsNothing(If(guard, inner, None)) && SkipsNothing(If(guard, inner, Some(Block([]))))
    ensures SkipsNothing(If(guard, Block([]), Some(inner)))
  {
    EmptySkips();
    SkipsIf(guard, inner, Block([]));
    SkipsIf(guard, Block([]), inner);
  }

  lemma OperandSkips(guard: Node, inner: Node)
    requires SkipsNothing(guard) && SkipsNothing(inner)
    ensures SkipsNothing(Conditional(guard, inner, ALWAYS)) && SkipsNothing(Conditional(guard, ALWAYS, inner))
    ensures SkipsNothing(And(guard, inner)) && SkipsNothing(Or(guard, inner))
  {
    EmptySkips();
    SkipsIf(guard, inner, ALWAYS);
    SkipsIf(guard, ALWAYS, inner);
    SkipsPair(guard, inner);
  }

  lemma SkipsExit(p: Place, guard: Node, exit: Node, inner: Node)
    requires GuardOk(p, guard, exit) && HasExit(p) && SkipsNothing(inner)
    ensures SkipsNothing(AroundGuarded(p, guard, exit, inner))
  {
    ExactGuardsSkipNothing(guard);
    ExitSkips(guard, exit, inner);
  }

  lemma SkipsBranch(p: Place, guard: Node, exit: Node, inner: Node)
    requires GuardOk(p, guard, exit) && (p.InThen? || p.InThenOfTwo? || p.InElse?) && SkipsNothing(inner)
    ensures SkipsNothing(AroundGuarded(p, guard, exit, inner))
  {
    ExactGuardsSkipNothing(guard);
    BranchSkips(guard, inner);
  }

  lemma SkipsOperand(p: Place, guard: Node, exit: Node, inner: Node)
    requires GuardOk(p, guard, exit) && (p.InTrueArm? || p.InFalseArm? || p.RightOfAnd? || p.RightOfOr?) && SkipsNothing(inner)
    ensures SkipsNothing(AroundGuarded(p, guard, exit, inner))
  {
    ExactGuardsSkipNothing(guard);
    OperandSkips(guard, inner);
  }

  lemma StatementSkips(inner: Node)
    requires SkipsNothing(inner)
    ensures SkipsNothing(Block([If(ALWAYS, Block([]), None), inner])) && SkipsNothing(If(inner, Block([]), None))
  {
    EmptySkips();
    BranchSkips(ALWAYS, Block([]));
    SkipsIf(inner, Block([]), ALWAYS);
    SkipsBoth(If(ALWAYS, Block([]), None), inner);
  }

  lemma TestSkips(inner: Node)
    requires SkipsNothing(inner)
    ensures SkipsNothing(Conditional(inner, ALWAYS, ALWAYS)) && SkipsNothing(And(inner, ALWAYS)) && SkipsNothing(Or(inner, ALWAYS))
  {
    EmptySkips();
    SkipsIf(inner, ALWAYS, ALWAYS);
    SkipsPair(inner, ALWAYS);
  }

  lemma BodySkips(inner: Node)
    requires SkipsNothing(inner)
    ensures SkipsNothing(While(ALWAYS, inner)) && SkipsNothing(While(inner, Block([])))
    ensures SkipsNothing(Try(inner, Block([]))) && SkipsNothing(Try(Throw([]), inner))
  {
    EmptySkips();
    SkipsPair(ALWAYS, inner);
    SkipsPair(inner, Block([]));
    SkipsPair(Throw([]), inner);
  }

  lemma SkipsPlain(p: Spot, inner: Node)
    requires SkipsNothing(inner)
    ensures SkipsNothing(AroundPlain(p, inner))
  {
    match p
    case BehindStatement => StatementSkips(inner);
    case InIfTest => StatementSkips(inner);
    case InTest => TestSkips(inner);
    case LeftOfAnd => TestSkips(inner);
    case LeftOfOr => TestSkips(inner);
    case InLoop => BodySkips(inner);
    case InLoopTest => BodySkips(inner);
    case InTry => BodySkips(inner);
    case InHandler => BodySkips(inner);
    case InParen =>
    case InNot =>
    case _ => SkipsOne(inner);
  }

  lemma SkipsAround(l: Layer, inner: Node)
    requires LayerOk(l) && SkipsNothing(inner)
    ensures SkipsNothing(Around(l, inner))
  {
    match l
    case Plain(p) => SkipsPlain(p, inner);
    case Guarded(p, guard, exit) =>
      if HasExit(p) {
        SkipsExit(p, guard, exit, inner);
      } else if p.InThen? || p.InThenOfTwo? || p.InElse? {
        SkipsBranch(p, guard, exit, inner);
      } else {
        SkipsOperand(p, guard, exit, inner);
      }
  }

  lemma {:induction false} SkipsWrap(layers: seq<Layer>, inner: Node)
    requires (forall l <- layers :: LayerOk(l)) && SkipsNothing(inner)
    ensures SkipsNothing(Wrap(layers, inner))
    decreases |layers|
  {
    if layers != [] {
      SkipsWrap(layers[1..], inner);
      SkipsAround(layers[0], Wrap(layers[1..], inner));
    }
  }

  lemma SkipsParameter(inner: Node)
    requires SkipsNothing(inner)
    ensures forall p <- [Parameter([], [inner])] :: ParameterSkipsNothing(p)
  {
    assert ParameterSkipsNothing(Parameter([], [inner]));
  }

  lemma SkipsHeld(own: Version, isBody: bool, inner: Node)
    requires SkipsNothing(inner)
    ensures FunctionSkipsNothing(
              if isBody then Declaration(own, [], [], [inner]) else Declaration(own, [], [Parameter([], [inner])], []))
  {
    SkipsParameter(inner);
  }

  lemma SkipsClass(of: Version, m: Member)
    requires MemberSkipsNothing(m, of)
    ensures SkipsNothing(Class(of, [], [], [m]))
  {
  }

  lemma SkipsProgram(h: Holder, inner: Node)
    requires SkipsNothing(inner)
    ensures SkipsNothing(Program(h, inner)[0])
  {
    match h
    case BodyOf(own) => SkipsHeld(own, true, inner);
    case PatternOf(own) => SkipsHeld(own, false, inner);
    case MethodBody(own, of) =>
      SkipsHeld(own, true, inner);
      SkipsClass(of, Method([], Declaration(own, [], [], [inner])));
    case MethodPattern(own, of) =>
      SkipsHeld(own, false, inner);
      SkipsClass(of, Method([], Declaration(own, [], [Parameter([], [inner])], [])));
    case FieldInit(of) => SkipsClass(of, InstanceField([], inner));
    case StaticInit(of) => SkipsClass(of, StaticMember([], inner));
    case StaticName(of) => SkipsClass(of, StaticMember([inner], ALWAYS));
    case _ =>
  }

  // ----- the theorem -----

  ghost predicate CanFailLater(program: seq<Node>, minimum: Version) {
    exists w: World, fuel: nat :: Satisfies(w.version, minimum) && RunModule(program, w, fuel).completion.Unsupported?
  }

  /** Nothing anywhere says anything about the version. */
  predicate NoVersionIsKnown(minimum: Version, h: Holder, layers: seq<Layer>) {
    minimum.None? && Declared(h).None? && forall l <- layers :: l.Plain?
  }

  lemma {:induction false} KnownIsNone(current: Version, layers: seq<Layer>)
    requires forall l <- layers :: LayerOk(l)
    ensures Known(current, layers).None? <==> current.None? && forall l <- layers :: l.Plain?
    decreases |layers|
  {
    if layers != [] {
      var l := layers[0];
      assert l in layers;
      if l.Guarded? { ExactGuards(l.guard, World(0, _ => 0), State([], 0), 0); }
      KnownIsNone(Merge(current, LayerBound(l)), layers[1..]);
    }
  }

  /** In any nest of any constructs whose guards are exact, wherever it stands, the code reports a use
      iff some runtime version from the minimum up reaches it without supporting it. (With no version
      known at all it also reports uses that need only version 0.) */
  lemma UseReportedIffReachable(h: Holder, layers: seq<Layer>, pos: nat, required: nat, minimum: Version)
    requires forall l <- layers :: LayerOk(l)
    ensures var program := Program(h, Wrap(layers, Use(pos, Some(required), [])));
            Validate(program, Mode(minimum, false)) != []
            <==> CanFailLater(program, minimum) || (required == 0 && NoVersionIsKnown(minimum, h, layers))
  {
    var use := Use(pos, Some(required), []);
    var nest, mode := Wrap(layers, use), Mode(minimum, false);
    var context := Merge(minimum, Declared(h));
    var known := Known(context, layers);
    VisitProgram(h, nest, minimum);
    VisitWrap(layers, use, context, mode);
    KnownIsNone(context, layers);
    assert Visit(use, known, mode) == CheckUse(pos, known, Some(required)) by { NothingAdded(CheckUse(pos, known, Some(required))); }
    if CheckUse(pos, known, Some(required)) == [] {
      SkipsWrap(layers, use);
      NotReportedIsSafe(h, nest, minimum);
    } else if required > 0 || known.Some? {
      ReportedCanFail(h, layers, pos, required, minimum);
    } else {
      assert NoVersionIsKnown(minimum, h, layers);
    }
    if NoVersionIsKnown(minimum, h, layers) { assert known.None?; }
  }

  lemma NotReportedIsSafe(h: Holder, nest: Node, minimum: Version)
    requires SkipsNothing(nest) && Validate(Program(h, nest), Mode(minimum, false)) == []
    ensures !CanFailLater(Program(h, nest), minimum)
  {
    SkipsProgram(h, nest);
    assert Program(h, nest) == [Program(h, nest)[0]];
    SilentIsSafe(Program(h, nest), minimum);
  }

  /** At the very version that is known the use is reached, and not supported. */
  lemma ReportedCanFail(h: Holder, layers: seq<Layer>, pos: nat, required: nat, minimum: Version)
    requires forall l <- layers :: LayerOk(l)
    requires var known := Known(Merge(minimum, Declared(h)), layers);
             if known.Some? then known.value < required else required > 0
    ensures CanFailLater(Program(h, Wrap(layers, Use(pos, Some(required), []))), minimum)
  {
    var use, context := Use(pos, Some(required), []), Merge(minimum, Declared(h));
    var known := Known(context, layers);
    var w := World(if known.Some? then known.value else 0, _ => 0);
    UnsupportedFails(pos, required, w);
    FailsInside(layers, use, context, w, pos);
    if RunsAtOnce(h) {
      FailsAtOnce(h, Wrap(layers, use), w, pos);
    } else {
      FailsWhenCalled(h, Wrap(layers, use), w, pos);
    }
    assert RunModule(Program(h, Wrap(layers, use)), w, 2).completion.Unsupported?;
  }

  /** A call of `isVersionAtLeast` with a bad argument is reported wherever it stands. */
  lemma BadArgumentsAreReported(h: Holder, layers: seq<Layer>, pos: nat, minimum: Version)
    requires forall l <- layers :: LayerOk(l)
    ensures Validate(Program(h, Wrap(layers, BadAtLeast(pos, []))), Mode(minimum, false)) == [BadIntrinsicArgument(pos)]
  {
    var bad, mode := BadAtLeast(pos, []), Mode(minimum, false);
    VisitProgram(h, Wrap(layers, bad), minimum);
    VisitWrap(layers, bad, Merge(minimum, Declared(h)), mode);
    NothingAdded([BadIntrinsicArgument(pos)]);
  }

  // ----- a function behind a guard -----

  function Enclosed(guard: Node, own: Version, inner: Node): seq<Node> {
    [If(guard, Function([], Declaration(own, [], [], [inner])), None)]
  }

  lemma VisitEnclosed(guard: Node, own: Version, inner: Node, minimum: Version)
    requires ExactWhenTrue(guard)
    ensures Validate(Enclosed(guard, own, inner), Mode(minimum, false))
         == Visit(inner, BodyVersion(Merge(minimum, BoundWhenTrue(guard)), own, minimum), Mode(minimum, false))
  {
    var f, mode := Function([], Declaration(own, [], [], [inner])), Mode(minimum, false);
    var known := BodyVersion(Merge(minimum, BoundWhenTrue(guard)), own, minimum);
    OneStatement(If(guard, f, None), minimum, mode);
    GuardIsClean(InThen, guard, ALWAYS, minimum, mode);
    OneStatement(inner, known, mode);
    NothingAdded(Visit(inner, known, mode));
    assert VisitFunction(f.decl, own, Merge(minimum, BoundWhenTrue(guard)), mode) == Visit(inner, known, mode);
  }

  lemma EnclosedFails(guard: Node, own: Version, inner: Node, w: World, pos: nat)
    requires ExactWhenTrue(guard) && Satisfies(w.version, BoundWhenTrue(guard)) && Satisfies(w.version, own)
    requires FailsEverywhere(inner, w, pos) && w.answers(0) == 0
    ensures RunModule(Enclosed(guard, own, inner), w, 2).completion.Unsupported?
  {
    var n, st, c := Enclosed(guard, own, inner)[0], State([], 0), Closure(own, [], [inner]);
    ExactGuards(guard, w, st, 2);
    assert RunAll([], w, st, 2) == Outcome(Normal(true), st);
    assert [] + [c] == [c];
    assert Run(n.thenStatement, w, st, 2) == Outcome(Normal(true), State([c], 0));
    RunOne(n, w, st, 2);
    CallFails(c, inner, w, pos, Ticked(State([c], 0)));
    assert MayCall(Some(w.version), own);
    assert RunCallbacks(Some(w.version), w, State([c], 0), 2).completion.Unsupported?;
  }

  lemma EnclosedSkipsNothing(guard: Node, own: Version, inner: Node)
    requires ExactWhenTrue(guard) && SkipsNothing(inner)
    ensures SkipsNothing(Enclosed(guard, own, inner)[0])
  {
    ExactGuardsSkipNothing(guard);
    SkipsHeld(own, true, inner);
    BranchSkips(guard, Function([], Declaration(own, [], [], [inner])));
  }

  /** With a workspace minimum, or without a version of its own, a function keeps what is known where it
      is defined: its uses are reported iff some version reaches them unsupported. */
  lemma EnclosedUseReportedIff(guard: Node, own: Version, layers: seq<Layer>, pos: nat, required: nat, minimum: Version)
    requires ExactWhenTrue(guard) && (forall l <- layers :: LayerOk(l)) && (minimum.Some? || own.None?)
    ensures var program := Enclosed(guard, own, Wrap(layers, Use(pos, Some(required), [])));
            Validate(program, Mode(minimum, false)) != [] <==> CanFailLater(program, minimum)
  {
    var use, mode := Use(pos, Some(required), []), Mode(minimum, false);
    var nest, context := Wrap(layers, use), Merge(Merge(minimum, BoundWhenTrue(guard)), own);
    var known, program := Known(context, layers), Enclosed(guard, own, nest);
    VisitEnclosed(guard, own, nest, minimum);
    VisitWrap(layers, use, context, mode);
    KnownIsNone(context, layers);
    ExactGuards(guard, World(0, _ => 0), State([], 0), 0);
    NothingAdded(CheckUse(pos, known, Some(required)));
    assert Visit(use, known, mode) == CheckUse(pos, known, Some(required));
    if CheckUse(pos, known, Some(required)) == [] {
      SkipsWrap(layers, use);
      EnclosedSkipsNothing(guard, own, nest);
      SilentIsSafe(program, minimum);
    } else {
      var w := World(known.value, _ => 0);
      UnsupportedFails(pos, required, w);
      FailsInside(layers, use, context, w, pos);
      EnclosedFails(guard, own, nest, w, pos);
    }
  }

  lemma UnsupportedFails(pos: nat, required: nat, w: World)
    requires w.version < required
    ensures FailsEverywhere(Use(pos, Some(required), []), w, pos)
  {
    forall st: State, fuel: nat ensures Run(Use(pos, Some(required), []), w, st, fuel) == Outcome(Unsupported(pos), st) {
      assert RunAll([], w, st, fuel) == Outcome(Normal(true), st);
    }
  }

  lemma SilentIsSafe(program: seq<Node>, minimum: Version)
    requires (forall k <- program :: SkipsNothing(k)) && Validate(program, Mode(minimum, false)) == []
    ensures !CanFailLater(program, minimum)
  {
    forall w: World, fuel: nat | Satisfies(w.version, minimum) ensures !RunModule(program, w, fuel).completion.Unsupported? {
      ValidatedProgramsAreSafe(program, minimum, w, fuel);
    }
  }

  /** Otherwise its own version replaces what is known, so that a use which is never reached unsupported
      is reported: `if (isVersionAtLeast(outer)) function f() { use }`, f of an earlier version. */
  lemma OwnVersionReplacesTheGuard(outer: nat, own: nat, required: nat, pos: nat)
    requires own < required <= outer
    ensures var program := Enclosed(AtLeast(outer), Some(own), Use(pos, Some(required), []));
            Validate(program, Mode(None, false)) == [UseNeeds(pos, required)] && !CanFailLater(program, None)
  {
    var use := Use(pos, Some(required), []);
    VisitEnclosed(AtLeast(outer), Some(own), use, None);
    NothingAdded([UseNeeds(pos, required)]);
    assert Visit(use, Some(own), Mode(None, false)) == [UseNeeds(pos, required)];
    var program := Enclosed(AtLeast(outer), Some(own), use);
    forall w: World, fuel: nat ensures !RunModule(program, w, fuel).completion.Unsupported? {
      EnclosedRunsQuietly(outer, own, required, pos, w, fuel);
    }
  }

  lemma EnclosedRunsQuietly(outer: nat, own: nat, required: nat, pos: nat, w: World, fuel: nat)
    requires required <= outer
    ensures !RunModule(Enclosed(AtLeast(outer), Some(own), Use(pos, Some(required), [])), w, fuel).completion.Unsupported?
  {
    var use := Use(pos, Some(required), []);
    var n, st, c := Enclosed(AtLeast(outer), Some(own), use)[0], State([], 0), Closure(Some(own), [], [use]);
    RunOne(n, w, st, fuel);
    assert RunAll([], w, st, fuel) == Outcome(Normal(true), st);
    assert [] + [c] == [c];
    if w.version >= outer {
      assert RunAll([n], w, st, fuel) == Outcome(Normal(true), State([c], 0));
      QuietCallbacks(Some(w.version), c, w, State([c], 0), fuel);
    } else {
      QuietCallbacks(Some(w.version), c, w, st, fuel);
    }
  }

  /** Where every function is one supported use, nothing that is called fails. */
  lemma {:induction false} QuietCallbacks(required: Version, c: Closure, w: World, st: State, fuel: nat)
    requires c.parameters == [] && |c.body| == 1 && c.body[0].Use? && c.body[0].parts == []
    requires st.closures == [] || (st.closures == [c] && Satisfies(w.version, c.body[0].required))
    ensures var o := RunCallbacks(required, w, st, fuel);
            !o.completion.Unsupported? && o.state.closures == st.closures
    decreases fuel
  {
    var choice := Ask(w, st);
    if choice < |st.closures| && MayCall(required, c.declared) && fuel > 0 {
      var use, t := c.body[0], Ticked(st);
      assert c.body == [use];
      RunOne(use, w, t, fuel - 1);
      assert RunAll([], w, t, fuel - 1) == Outcome(Normal(true), t);
      if fuel > 1 { QuietCallbacks(use.required, c, w, t, fuel - 2); }
      var o := RunClosure(c, w, t, fuel - 1);
      assert RunParameters([], w, t, fuel - 1) == Outcome(Normal(true), t);
      assert o == RunAll(c.body, w, t, fuel - 1);
      assert !o.completion.Unsupported? && o.state.closures == st.closures;
      QuietCallbacks(required, c, w, o.state, fuel - 1);
    }
  }

  // ----- which statements never let the code behind them run -----

  /** At version `r` every branch can be taken and every expression can be got past. */
  predicate IsOpen(n: Node, r: nat) {
    match n
    case Return(_) => true
    case Throw(_) => true
    case Block(ss) => forall k <- ss :: IsOpen(k, r)
    case If(c, t, None) => IsUndecided(c, r) && IsOpen(t, r)
    case If(c, t, Some(e)) => IsUndecided(c, r) && IsOpen(t, r) && IsOpen(e, r)
    case _ => IsExpression(n) && (CanBe(n, true, r) || CanBe(n, false, r))
  }

  predicate IsUndecided(c: Node, r: nat) {
    IsExpression(c) && CanBe(c, true, r) && CanBe(c, false, r)
  }

  ghost predicate NeverGoesOn(n: Node, r: nat) {
    forall w: World, st: State, fuel: nat :: w.version == r ==> !Run(n, w, st, fuel).completion.Normal?
  }

  /** A statement is taken for an early exit iff no run gets past it. */
  lemma TerminatesIffNeverGoesOn(n: Node, r: nat)
    requires IsOpen(n, r)
    ensures AlwaysTerminates(n) <==> NeverGoesOn(n, r)
  {
    if AlwaysTerminates(n) {
      forall w: World, st: State, fuel: nat | w.version == r ensures !Run(n, w, st, fuel).completion.Normal? {
        TerminatingNeverNormal(n, w, st, fuel);
      }
    } else {
      var st := State([], 0);
      var answers, truth, end := GoesOn(n, r, st, 1);
      var w := Answering(r, 0, answers);
      assert Run(n, w, st, 1) == Outcome(Normal(truth), end);
    }
  }

  lemma {:induction false} GoesOn(n: Node, r: nat, st: State, fuel: nat)
      returns (answers: seq<nat>, truth: bool, end: State)
    requires IsOpen(n, r) && !AlwaysTerminates(n) && fuel > 0
    ensures Leads(n, r, st, fuel, answers, truth, end)
    decreases n, 1
  {
    match n
    case Block(ss) =>
      answers, end := AllGoOn(ss, r, st, fuel);
      truth := true;
    case If(c, _, _) => answers, truth, end := BranchGoesOn(n, r, st, fuel);
    case _ =>
      truth := CanBe(n, true, r);
      answers, end := CanBeReached(n, truth, r, st, fuel);
  }

  lemma {:induction false} BranchGoesOn(n: Node, r: nat, st: State, fuel: nat)
      returns (answers: seq<nat>, truth: bool, end: State)
    requires n.If? && IsOpen(n, r) && !AlwaysTerminates(n) && fuel > 0
    ensures Leads(n, r, st, fuel, answers, truth, end)
    decreases n, 0
  {
    var c, t := n.condition, n.thenStatement;
    var test := !AlwaysTerminates(t);
    var one, mid := CanBeReached(c, test, r, st, fuel);
    var two: seq<nat>;
    if test {
      two, truth, end := GoesOn(t, r, mid, fuel);
    } else if n.elseStatement.Some? {
      two, truth, end := GoesOn(n.elseStatement.value, r, mid, fuel);
    } else {
      two, truth, end := [], false, mid;
    }
    answers := one + two;
    forall w: World | w.version == r && Follows(w, st.tick, answers)
      ensures Run(n, w, st, fuel) == Outcome(Normal(truth), end)
    {
      FollowsBoth(w, st.tick, one, two);
      assert Run(c, w, st, fuel) == Outcome(Normal(test), mid);
    }
  }

  lemma {:induction false} AllGoOn(ns: seq<Node>, r: nat, st: State, fuel: nat) returns (answers: seq<nat>, end: State)
    requires (forall k <- ns :: IsOpen(k, r) && !AlwaysTerminates(k)) && fuel > 0
    ensures AllLead(ns, r, st, fuel, answers, end)
    decreases ns
  {
    if ns == [] {
      answers, end := [], st;
    } else {
      var one, truth, mid := GoesOn(ns[0], r, st, fuel);
      var two;
      two, end := AllGoOn(ns[1..], r, mid, fuel);
      answers := one + two;
      forall w: World | w.version == r && Follows(w, st.tick, answers)
        ensures RunAll(ns, w, st, fuel) == Outcome(Normal(true), end)
      {
        FollowsBoth(w, st.tick, one, two);
        assert Run(ns[0], w, st, fuel) == Outcome(Normal(truth), mid);
      }
    }
  }

  // ----- which types are reported -----

  /** Some runtime version that the given bounds admit lacks what needs `required`, or nothing is known
      about the version. */
  ghost predicate IsLacking(required: nat, a: Version, b: Version, c: Version) {
    || (a.None? && b.None? && c.None?)
    || exists v: nat :: v < required && Satisfies(v, a) && Satisfies(v, b) && Satisfies(v, c)
  }

  lemma LackingIff(required: nat, a: Version, b: Version, c: Version)
    ensures IsLacking(required, a, b, c) <==> !IsVersionSatisfied(Merge(a, Merge(b, c)), required)
  {
    var known := Merge(a, Merge(b, c));
    if known.Some? {
      assert Satisfies(known.value, a) && Satisfies(known.value, b) && Satisfies(known.value, c);
    }
  }

  lemma {:induction false} TypeReportedIff(types: seq<TypeUse>, current: Version, t: TypeUse)
    ensures TypeNeeds(t.pos, t.required) in CheckTypes(types, current)
            <==> t in types && !IsVersionSatisfied(current, t.required)
    decreases |types|
  {
    if types != [] {
      TypeReportedIff(types[1..], current, t);
      assert t == TypeUse(t.pos, t.required);
    }
  }

  /** A type in the signature of a function is reported iff some version that satisfies the minimum and
      the function's own version lacks it. */
  lemma SignatureTypeReportedIff(own: Version, types: seq<TypeUse>, t: TypeUse, minimum: Version)
    ensures TypeNeeds(t.pos, t.required) in Validate([Function([], Declaration(own, types, [], []))], Mode(minimum, false))
            <==> t in types && IsLacking(t.required, minimum, own, None)
  {
    var d, mode := Declaration(own, types, [], []), Mode(minimum, false);
    OneStatement(Function([], d), minimum, mode);
    assert VisitFunction(d, own, minimum, mode) == CheckTypes(types, Merge(minimum, own)) + ([] + []);
    TypeReportedIff(types, Merge(minimum, own), t);
    LackingIff(t.required, minimum, own, None);
  }

  /** In the signature of a method the version of its class counts as well. */
  lemma MethodTypeReportedIff(own: Version, of: Version, types: seq<TypeUse>, t: TypeUse, minimum: Version)
    ensures TypeNeeds(t.pos, t.required)
            in Validate([Class(of, [], [], [Method([], Declaration(own, types, [], []))])], Mode(minimum, false))
            <==> t in types && IsLacking(t.required, minimum, own, of)
  {
    var d, mode := Declaration(own, types, [], []), Mode(minimum, false);
    var m, known := Method([], d), Merge(Merge(minimum, of), Merge(own, of));
    OneStatement(Class(of, [], [], [m]), minimum, mode);
    VisitClassOf(m, [], of, minimum);
    assert VisitFunction(d, Merge(own, of), Merge(minimum, of), mode) == CheckTypes(types, known) + ([] + []);
    TypeReportedIff(types, known, t);
    assert known == Merge(minimum, Merge(own, of));
    LackingIff(t.required, minimum, own, of);
  }

  lemma VisitContract(of: Version, own: Version, t: TypeUse, current: Version, mode: Mode)
    requires !mode.thorough
    ensures Visit(Class(of, [ContractType(own, t)], [], []), current, mode)
         == if IsVersionSatisfied(Merge(mode.minimum, own), t.required) then [] else [TypeNeeds(t.pos, t.required)]
  {
    var contract, ds := [ContractType(own, t)], CheckTypes([t], Merge(mode.minimum, own));
    assert contract[1..] == [] && [t][1..] == [];
    assert CheckTypes([], Merge(mode.minimum, own)) == [] && CheckContract([], mode.minimum) == [];
    assert CheckContract(contract, mode.minimum) == ds + [];
    NothingAdded(ds);
    assert Visit(Class(of, contract, [], []), current, mode) == CheckContract(contract, mode.minimum) + ([] + ([] + []));
    assert ds == (if IsVersionSatisfied(Merge(mode.minimum, own), t.required) then [] else [TypeNeeds(t.pos, t.required)]) + [];
  }

  /** A type in the contract of a class is reported iff some version that satisfies the minimum and the
      version declared for its place lacks it; the guards around the class do not count. */
  lemma ContractTypeReportedIff(
      h: Holder, layers: seq<Layer>, of: Version, own: Version, t: TypeUse, minimum: Version)
    requires forall l <- layers :: LayerOk(l)
    ensures Validate(Program(h, Wrap(layers, Class(of, [ContractType(own, t)], [], []))), Mode(minimum, false))
         == if IsLacking(t.required, minimum, own, None) then [TypeNeeds(t.pos, t.required)] else []
  {
    var c, mode := Class(of, [ContractType(own, t)], [], []), Mode(minimum, false);
    VisitProgram(h, Wrap(layers, c), minimum);
    VisitWrap(layers, c, Merge(minimum, Declared(h)), mode);
    VisitContract(of, own, t, Known(Merge(minimum, Declared(h)), layers), mode);
    LackingIff(t.required, minimum, own, None);
  }
}
