/** What a program does at one runtime version. */
module VersionRuntime {
  import opened Wrappers
  import opened VersionGuards

  /** A function value that exists at run time, with the version its declaration declares. */
  datatype Closure = Closure(declared: Version, parameters: seq<Parameter>, body: seq<Node>)

  /** `version` is the runtime's version; `answers` settles everything else a run depends on:
      opaque conditions, exceptions, which functions a use calls back and which arguments it omits. */
  datatype World = World(version: nat, answers: nat -> nat)

  datatype State = State(closures: seq<Closure>, tick: nat)

  datatype Completion =
    | Normal(truth: bool)
    | Returned
    | Threw
    | Broke
    | Continued
    | OutOfFuel
      /** A use was reached whose required version exceeds the runtime's version. */
    | Unsupported(pos: nat)

  datatype Outcome = Outcome(completion: Completion, state: State)

  function Ask(w: World, st: State): nat {
    w.answers(st.tick)
  }

  function Ticked(st: State): State {
    st.(tick := st.tick + 1)
  }

  function Defined(st: State, c: Closure): State {
    st.(closures := st.closures + [c])
  }

  /** A use may call any function that needs no version, or one its own requirement covers. */
  predicate MayCall(required: Version, declared: Version) {
    declared.None? || IsVersionSatisfied(required, declared.value)
  }

  predicate Truthy(o: Outcome) {
    o.completion == Normal(true)
  }

  predicate Falsy(o: Outcome) {
    o.completion == Normal(false)
  }

  /** Negates a finished condition; every other completion passes through. */
  function Negated(o: Outcome): Outcome {
    if o.completion.Normal? then o.(completion := Normal(!o.completion.truth)) else o
  }

  function ClosureOf(decl: Declaration, declared: Version): Closure {
    Closure(declared, decl.parameters, decl.body)
  }

  /** The function that a member leaves behind: a use of its class's version may call it. */
  function MemberClosures(m: Member, declared: Version): seq<Closure> {
    match m
    case StaticMember(_, _) => []
    case InstanceField(_, init) => [Closure(declared, [], [init])]
    case Method(_, decl) => [ClosureOf(decl, Merge(decl.declared, declared))]
  }

  function Run(n: Node, w: World, st: State, fuel: nat): Outcome
    decreases fuel, n, 0
  {
    match n
    case Paren(e) => Run(e, w, st, fuel)
    case Not(e) => Negated(Run(e, w, st, fuel))
    case And(l, r) => var o := Run(l, w, st, fuel); if Truthy(o) then Run(r, w, o.state, fuel) else o
    case Or(l, r) => var o := Run(l, w, st, fuel); if Falsy(o) then Run(r, w, o.state, fuel) else o
    case Conditional(c, t, f) =>
      var o := Run(c, w, st, fuel);
      if Truthy(o) then Run(t, w, o.state, fuel) else if Falsy(o) then Run(f, w, o.state, fuel) else o
    case AtLeast(v) => Outcome(Normal(w.version >= v), st)
    case BadAtLeast(_, args) =>
      var o := RunAll(args, w, st, fuel);
      if o.completion.Normal? then Outcome(Normal(Ask(w, o.state) % 2 == 1), Ticked(o.state)) else o
    case Use(pos, required, parts) =>
      var o := RunAll(parts, w, st, fuel);
      if !o.completion.Normal? then o
      else if required.Some? && w.version < required.value then Outcome(Unsupported(pos), o.state)
      else if fuel == 0 then Outcome(OutOfFuel, o.state)
      else
        var called := RunCallbacks(required, w, o.state, fuel - 1);
        if !called.completion.Normal? then called
        else if Ask(w, called.state) == 0 then Outcome(Threw, Ticked(called.state))
        else Outcome(Normal(Ask(w, called.state) % 2 == 1), Ticked(called.state))
    case Function(name, decl) =>
      var o := RunAll(name, w, st, fuel);
      if o.completion.Normal? then Outcome(Normal(true), Defined(o.state, ClosureOf(decl, decl.declared))) else o
    case Class(declared, _, heritage, members) =>
      var o := RunAll(heritage, w, st, fuel);
      if !o.completion.Normal? then o
      else
        var defined := DefineMembers(members, declared, w, o.state, fuel);
        if !defined.completion.Normal? then defined else InitStatics(members, w, defined.state, fuel)
    case Block(ss) => RunAll(ss, w, st, fuel)
    case If(c, t, None) =>
      var o := Run(c, w, st, fuel); if Truthy(o) then Run(t, w, o.state, fuel) else o
    case If(c, t, Some(e)) =>
      var o := Run(c, w, st, fuel);
      if Truthy(o) then Run(t, w, o.state, fuel) else if Falsy(o) then Run(e, w, o.state, fuel) else o
    case While(c, body) =>
      var o := Run(c, w, st, fuel);
      if !Truthy(o) then o
      else
        var b := Run(body, w, o.state, fuel);
        if b.completion == Broke then Outcome(Normal(true), b.state)
        else if !(b.completion.Normal? || b.completion == Continued) then b
        else if fuel == 0 then Outcome(OutOfFuel, b.state)
        else Run(n, w, b.state, fuel - 1)
    case Try(body, handler) =>
      var o := Run(body, w, st, fuel); if o.completion == Threw then Run(handler, w, o.state, fuel) else o
    case Return(vs) =>
      var o := RunAll(vs, w, st, fuel); if o.completion.Normal? then Outcome(Returned, o.state) else o
    case Throw(vs) =>
      var o := RunAll(vs, w, st, fuel); if o.completion.Normal? then Outcome(Threw, o.state) else o
    case Break => Outcome(Broke, st)
    case Continue => Outcome(Continued, st)
  }

  /** In order, up to the first that does not complete normally. */
  function RunAll(ns: seq<Node>, w: World, st: State, fuel: nat): Outcome
    decreases fuel, ns, 0
  {
    if ns == [] then Outcome(Normal(true), st)
    else
      var o := Run(ns[0], w, st, fuel);
      if o.completion.Normal? then RunAll(ns[1..], w, o.state, fuel) else o
  }

  /** Declaring a class runs the names of all its members in order, and defines their functions... */
  function DefineMembers(ms: seq<Member>, declared: Version, w: World, st: State, fuel: nat): Outcome
    decreases fuel, ms, 0
  {
    if ms == [] then Outcome(Normal(true), st)
    else
      var o := RunAll(ms[0].name, w, st, fuel);
      if !o.completion.Normal? then o
      else
        var defined := o.state.(closures := o.state.closures + MemberClosures(ms[0], declared));
        DefineMembers(ms[1..], declared, w, defined, fuel)
  }

  /** ... and then its static initialisers. */
  function InitStatics(ms: seq<Member>, w: World, st: State, fuel: nat): Outcome
    decreases fuel, ms, 0
  {
    if ms == [] then Outcome(Normal(true), st)
    else if !ms[0].StaticMember? then InitStatics(ms[1..], w, st, fuel)
    else
      var o := Run(ms[0].init, w, st, fuel);
      if o.completion.Normal? then InitStatics(ms[1..], w, o.state, fuel) else o
  }

  /** The functions a use calls, one after another, as `answers` chooses them. */
  function RunCallbacks(required: Version, w: World, st: State, fuel: nat): Outcome
    decreases fuel
  {
    var choice := Ask(w, st);
    if choice >= |st.closures| || !MayCall(required, st.closures[choice].declared) then Outcome(Normal(true), Ticked(st))
    else if fuel == 0 then Outcome(OutOfFuel, st)
    else
      var o := RunClosure(st.closures[choice], w, Ticked(st), fuel - 1);
      if o.completion.Threw? || o.completion.OutOfFuel? || o.completion.Unsupported? then o
      else RunCallbacks(required, w, o.state, fuel - 1)
  }

  /** A call binds the parameters in order, a missing argument running its default value. */
  function RunParameters(ps: seq<Parameter>, w: World, st: State, fuel: nat): Outcome
    decreases fuel, ps, 0
  {
    if ps == [] then Outcome(Normal(true), st)
    else
      var given := if IsMissing(w, st) then RunAll(ps[0].default, w, Ticked(st), fuel) else Outcome(Normal(true), Ticked(st));
      if !given.completion.Normal? then given
      else
        var bound := RunAll(ps[0].pattern, w, given.state, fuel);
        if bound.completion.Normal? then RunParameters(ps[1..], w, bound.state, fuel) else bound
  }

  predicate IsMissing(w: World, st: State) {
    Ask(w, st) % 2 == 1
  }

  function RunClosure(c: Closure, w: World, st: State, fuel: nat): Outcome
    decreases fuel
  {
    var o := RunParameters(c.parameters, w, st, fuel);
    if o.completion.Normal? then RunAll(c.body, w, o.state, fuel) else o
  }

  /** A module is loaded, and then others call the functions that it leaves behind, as often as they
      like, wherever the version they run at permits the call. */
  function RunModule(program: seq<Node>, w: World, fuel: nat): Outcome {
    var o := RunAll(program, w, State([], 0), fuel);
    if o.completion.Normal? then RunCallbacks(Some(w.version), w, o.state, fuel) else o
  }
}
