/** Whole modules of functions: exactly when one that validates is safe. */
module VersionModules {
  import opened Wrappers
  import opened VersionGuards
  import opened VersionRuntime
  import opened VersionReach
  import opened VersionSafety
  import opened VersionExactness

  function Functions(ds: seq<Declaration>): seq<Node> {
    if ds == [] then [] else [Function([], ds[0])] + Functions(ds[1..])
  }

  function Closures(ds: seq<Declaration>): (cs: seq<Closure>)
    ensures |cs| == |ds| && forall i :: 0 <= i < |ds| ==> cs[i] == ClosureOf(ds[i], ds[i].declared)
  {
    if ds == [] then [] else [ClosureOf(ds[0], ds[0].declared)] + Closures(ds[1..])
  }

  lemma Associate<T>(a: seq<T>, b: seq<T>, c: seq<T>)
    ensures (a + b) + c == a + (b + c)
  {
  }

  lemma FunctionFirst(d: Declaration, rest: seq<Node>, w: World, st: State, fuel: nat)
    ensures RunAll([Function([], d)] + rest, w, st, fuel) == RunAll(rest, w, Defined(st, ClosureOf(d, d.declared)), fuel)
  {
    assert ([Function([], d)] + rest)[1..] == rest;
    assert RunAll([], w, st, fuel) == Outcome(Normal(true), st);
  }

  lemma {:induction false} Loading(ds: seq<Declaration>, w: World, st: State, fuel: nat)
    ensures RunAll(Functions(ds), w, st, fuel) == Outcome(Normal(true), st.(closures := st.closures + Closures(ds)))
    decreases |ds|
  {
    if ds == [] {
      assert st.closures + [] == st.closures;
    } else {
      var c := ClosureOf(ds[0], ds[0].declared);
      FunctionFirst(ds[0], Functions(ds[1..]), w, st, fuel);
      Loading(ds[1..], w, Defined(st, c), fuel);
      Associate(st.closures, [c], Closures(ds[1..]));
    }
  }

  lemma LoadingFromScratch(ds: seq<Declaration>, w: World, fuel: nat)
    ensures RunAll(Functions(ds), w, State([], 0), fuel) == Outcome(Normal(true), State(Closures(ds), 0))
  {
    Loading(ds, w, State([], 0), fuel);
    assert [] + Closures(ds) == Closures(ds);
  }

  lemma {:induction false} EachValidates(ds: seq<Declaration>, current: Version, mode: Mode, d: Declaration)
    requires !mode.thorough && VisitStatements(Functions(ds), current, mode) == [] && d in ds
    ensures VisitFunction(d, d.declared, current, mode) == []
    decreases |ds|
  {
    assert Functions(ds)[1..] == Functions(ds[1..]);
    if d != ds[0] { EachValidates(ds[1..], current, mode, d); }
  }

  /** A body that skips nothing and validates is clean at every version its function may be called at. */
  lemma BodyIsClean(d: Declaration, minimum: Version, r: nat)
    requires VisitFunction(d, d.declared, minimum, Mode(minimum, false)) == []
    requires (forall k <- d.body :: SkipsNothing(k)) && Satisfies(r, minimum) && Satisfies(r, d.declared)
    ensures VisitStatements(d.body, Some(r), Mode(minimum, true)) == []
  {
    var body := BodyVersion(minimum, d.declared, minimum);
    StatementsSkipNothing(d.body, body, minimum);
    StatementsAtRuntimeVersion(d.body, body, r, Mode(minimum, true));
  }

  /** All but the parameters of its functions is visited, and what stands there is evaluated directly. */
  predicate IsPlainFunction(d: Declaration) {
    && (forall k <- d.body :: SkipsNothing(k))
    && ParametersAreExpressions(d.parameters) && ParametersAreFirstOrder(d.parameters)
  }

  ghost predicate ModuleIsSafe(program: seq<Node>, r: nat) {
    forall w: World, fuel: nat :: w.version == r ==> !RunModule(program, w, fuel).completion.Unsupported?
  }

  /** For modules of functions whose bodies skip nothing, the verdict of the code holds at a runtime
      version iff no default value or pattern of a function that can be called there harms. */
  lemma ModuleIsSafeIff(ds: seq<Declaration>, minimum: Version, r: nat)
    requires Validate(Functions(ds), Mode(minimum, false)) == [] && Satisfies(r, minimum)
    requires forall d <- ds :: IsPlainFunction(d)
    ensures ModuleIsSafe(Functions(ds), r) <==>
              forall d <- ds :: Satisfies(r, d.declared) ==> !HarmsParameters(d.parameters, r, Mode(minimum, true))
  {
    if d :| d in ds && Satisfies(r, d.declared) && HarmsParameters(d.parameters, r, Mode(minimum, true)) {
      var w := CallingHarms(ds, d, minimum, r);
      assert RunModule(Functions(ds), w, 2).completion.Unsupported?;
    } else {
      forall w: World, fuel: nat | w.version == r ensures !RunModule(Functions(ds), w, fuel).completion.Unsupported? {
        HarmlessModule(ds, minimum, w, fuel);
      }
    }
  }

  lemma HarmlessModule(ds: seq<Declaration>, minimum: Version, w: World, fuel: nat)
    requires Validate(Functions(ds), Mode(minimum, false)) == [] && Satisfies(w.version, minimum)
    requires forall d <- ds :: IsPlainFunction(d)
    requires forall d <- ds :: Satisfies(w.version, d.declared) ==> !HarmsParameters(d.parameters, w.version, Mode(minimum, true))
    ensures !RunModule(Functions(ds), w, fuel).completion.Unsupported?
  {
    var mode, loaded := Mode(minimum, true), State(Closures(ds), 0);
    LoadingFromScratch(ds, w, fuel);
    forall c | c in loaded.closures ensures ClosureIsSafe(c, w.version, mode) {
      var i :| 0 <= i < |ds| && c == ClosureOf(ds[i], ds[i].declared);
      assert ds[i] in ds && IsPlainFunction(ds[i]);
      EachValidates(ds, minimum, Mode(minimum, false), ds[i]);
      if Satisfies(w.version, c.declared) {
        BodyIsClean(ds[i], minimum, w.version);
        assert ParametersAreFine(c.parameters, w.version, mode);
      }
    }
    CallbacksAreSafe(Some(w.version), w, loaded, fuel, mode);
  }

  /** The world that calls the function without the argument that harms. */
  lemma CallingHarms(ds: seq<Declaration>, d: Declaration, minimum: Version, r: nat) returns (w: World)
    requires d in ds && IsPlainFunction(d) && Satisfies(r, d.declared)
    requires HarmsParameters(d.parameters, r, Mode(minimum, true))
    ensures w.version == r && RunModule(Functions(ds), w, 2).completion.Unsupported?
  {
    var i: nat :| i < |ds| && ds[i] == d;
    var loaded := State(Closures(ds), 0);
    var called := Ticked(loaded);
    var answers := ParameterHarms(d.parameters, r, called, 1, Mode(minimum, true));
    w := Answering(r, 0, [i] + answers);
    FollowsBoth(w, 0, [i], answers);
    assert w.answers(0 + 0) == [i][0];
    LoadingFromScratch(ds, w, 2);
    assert RunParameters(d.parameters, w, called, 1).completion.Unsupported?;
    assert loaded.closures[i] == ClosureOf(d, d.declared);
    CalledFirst(loaded, w, i);
  }

  lemma CalledFirst(loaded: State, w: World, i: nat)
    requires i < |loaded.closures| && Ask(w, loaded) == i && Satisfies(w.version, loaded.closures[i].declared)
    requires RunParameters(loaded.closures[i].parameters, w, Ticked(loaded), 1).completion.Unsupported?
    ensures RunCallbacks(Some(w.version), w, loaded, 2).completion.Unsupported?
  {
    assert MayCall(Some(w.version), loaded.closures[i].declared);
    assert RunClosure(loaded.closures[i], w, Ticked(loaded), 1).completion.Unsupported?;
  }
}
