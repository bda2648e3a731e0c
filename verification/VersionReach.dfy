/** Which values an expression can have at one runtime version, read off its text: it has no others,
    and each of them under some answers. */
module VersionReach {
  import opened VersionGuards
  import opened VersionRuntime

  /** Guards, default values, computed names and `extends` clauses are expressions. */
  predicate IsExpression(n: Node) {
    match n
    case Paren(e) => IsExpression(e)
    case Not(e) => IsExpression(e)
    case And(l, r) => IsExpression(l) && IsExpression(r)
    case Or(l, r) => IsExpression(l) && IsExpression(r)
    case Conditional(c, t, f) => IsExpression(c) && IsExpression(t) && IsExpression(f)
    case AtLeast(_) => true
    case BadAtLeast(_, args) => forall k <- args :: IsExpression(k)
    case Use(_, _, parts) => forall k <- parts :: IsExpression(k)
    case Function(name, _) => forall k <- name :: IsExpression(k)
    case _ => false
  }

  predicate AreExpressions(ns: seq<Node>) {
    forall k <- ns :: IsExpression(k)
  }

  /** Can the expression evaluate to `truth` at version `r`? */
  predicate CanBe(n: Node, truth: bool, r: nat) {
    match n
    case Paren(e) => CanBe(e, truth, r)
    case Not(e) => CanBe(e, !truth, r)
    case And(a, b) =>
      if truth then CanBe(a, true, r) && CanBe(b, true, r) else CanBe(a, false, r) || (CanBe(a, true, r) && CanBe(b, false, r))
    case Or(a, b) =>
      if truth then CanBe(a, true, r) || (CanBe(a, false, r) && CanBe(b, true, r)) else CanBe(a, false, r) && CanBe(b, false, r)
    case Conditional(c, t, f) => (CanBe(c, true, r) && CanBe(t, truth, r)) || (CanBe(c, false, r) && CanBe(f, truth, r))
    case AtLeast(v) => (r >= v) == truth
    case BadAtLeast(_, args) => CanFinish(args, r)
    case Use(_, required, parts) => CanFinish(parts, r) && Satisfies(r, required)
    case Function(name, _) => truth && CanFinish(name, r)
    case _ => false
  }

  predicate CanFinish(ns: seq<Node>, r: nat) {
    forall k <- ns :: CanBe(k, true, r) || CanBe(k, false, r)
  }

  // ----- no other outcome is possible -----

  lemma {:induction false} OnlyWhatItCanBe(n: Node, w: World, st: State, fuel: nat)
    requires IsExpression(n) && Run(n, w, st, fuel).completion.Normal?
    ensures CanBe(n, Run(n, w, st, fuel).completion.truth, w.version)
  {
    match n
    case Paren(e) => OnlyWhatItCanBe(e, w, st, fuel);
    case Not(e) => OnlyWhatItCanBe(e, w, st, fuel);
    case And(a, b) =>
      OnlyWhatItCanBe(a, w, st, fuel);
      if Truthy(Run(a, w, st, fuel)) { OnlyWhatItCanBe(b, w, Run(a, w, st, fuel).state, fuel); }
    case Or(a, b) =>
      OnlyWhatItCanBe(a, w, st, fuel);
      if Falsy(Run(a, w, st, fuel)) { OnlyWhatItCanBe(b, w, Run(a, w, st, fuel).state, fuel); }
    case Conditional(c, t, f) =>
      OnlyWhatItCanBe(c, w, st, fuel);
      OnlyWhatItCanBe(if Truthy(Run(c, w, st, fuel)) then t else f, w, Run(c, w, st, fuel).state, fuel);
    case BadAtLeast(_, args) => OnlyIfItCanFinish(args, w, st, fuel);
    case Use(_, _, parts) => OnlyIfItCanFinish(parts, w, st, fuel);
    case Function(name, _) => OnlyIfItCanFinish(name, w, st, fuel);
    case _ =>
  }

  lemma {:induction false} OnlyIfItCanFinish(ns: seq<Node>, w: World, st: State, fuel: nat)
    requires AreExpressions(ns) && RunAll(ns, w, st, fuel).completion.Normal?
    ensures CanFinish(ns, w.version)
  {
    if ns != [] {
      OnlyWhatItCanBe(ns[0], w, st, fuel);
      OnlyIfItCanFinish(ns[1..], w, Run(ns[0], w, st, fuel).state, fuel);
    }
  }

  // ----- every outcome is reached under some answers -----

  predicate Follows(w: World, tick: nat, answers: seq<nat>) {
    forall i :: 0 <= i < |answers| ==> w.answers(tick + i) == answers[i]
  }

  lemma FollowsBoth(w: World, tick: nat, a: seq<nat>, b: seq<nat>)
    ensures Follows(w, tick, a + b) <==> Follows(w, tick, a) && Follows(w, tick + |a|, b)
  {
    if Follows(w, tick, a + b) {
      forall i | 0 <= i < |a| ensures w.answers(tick + i) == a[i] { assert (a + b)[i] == a[i]; }
      forall i | 0 <= i < |b| ensures w.answers(tick + |a| + i) == b[i] { assert (a + b)[|a| + i] == b[i]; }
    }
  }

  /** A world that gives these answers from `tick` on. */
  function Answering(r: nat, tick: nat, answers: seq<nat>): (w: World)
    ensures w.version == r && Follows(w, tick, answers)
  {
    World(r, t => if tick <= t < tick + |answers| then answers[t - tick] else 0)
  }

  ghost predicate Leads(n: Node, r: nat, st: State, fuel: nat, answers: seq<nat>, truth: bool, end: State) {
    && end.tick == st.tick + |answers|
    && forall w: World :: w.version == r && Follows(w, st.tick, answers) ==> Run(n, w, st, fuel) == Outcome(Normal(truth), end)
  }

  ghost predicate AllLead(ns: seq<Node>, r: nat, st: State, fuel: nat, answers: seq<nat>, end: State) {
    && end.tick == st.tick + |answers|
    && forall w: World :: w.version == r && Follows(w, st.tick, answers) ==> RunAll(ns, w, st, fuel) == Outcome(Normal(true), end)
  }

  lemma {:induction false} CanBeReached(n: Node, truth: bool, r: nat, st: State, fuel: nat)
      returns (answers: seq<nat>, end: State)
    requires IsExpression(n) && CanBe(n, truth, r) && fuel > 0
    ensures Leads(n, r, st, fuel, answers, truth, end)
    decreases n, 1
  {
    match n
    case Paren(e) => answers, end := CanBeReached(e, truth, r, st, fuel);
    case Not(e) => answers, end := CanBeReached(e, !truth, r, st, fuel);
    case And(a, b) =>
      if CanBe(a, false, r) && !truth {
        answers, end := CanBeReached(a, false, r, st, fuel);
      } else {
        answers, end := BothReached(n, a, true, b, truth, r, st, fuel);
      }
    case Or(a, b) =>
      if CanBe(a, true, r) && truth {
        answers, end := CanBeReached(a, true, r, st, fuel);
      } else {
        answers, end := BothReached(n, a, false, b, truth, r, st, fuel);
      }
    case Conditional(c, t, f) =>
      if CanBe(c, true, r) && CanBe(t, truth, r) {
        answers, end := BothReached(n, c, true, t, truth, r, st, fuel);
      } else {
        answers, end := BothReached(n, c, false, f, truth, r, st, fuel);
      }
    case AtLeast(_) => answers, end := [], st;
    case BadAtLeast(_, args) => answers, end := AnswerReached(n, args, truth, r, st, fuel);
    case Use(_, _, parts) => answers, end := AnswerReached(n, parts, truth, r, st, fuel);
    case Function(name, d) =>
      var mid;
      answers, mid := FinishReached(name, r, st, fuel);
      end := Defined(mid, ClosureOf(d, d.declared));
  }

  /** First one operand and then the other, whichever of the three forms it is. */
  lemma {:induction false} BothReached(
      n: Node, a: Node, first: bool, b: Node, truth: bool, r: nat, st: State, fuel: nat)
      returns (answers: seq<nat>, end: State)
    requires fuel > 0 && IsExpression(a) && IsExpression(b) && CanBe(a, first, r) && CanBe(b, truth, r)
    requires (n == And(a, b) && first) || (n == Or(a, b) && !first)
          || (n.Conditional? && n.condition == a && b == if first then n.whenTrue else n.whenFalse)
    ensures Leads(n, r, st, fuel, answers, truth, end)
    decreases n, 0
  {
    var one, mid := CanBeReached(a, first, r, st, fuel);
    var two;
    two, end := CanBeReached(b, truth, r, mid, fuel);
    answers := one + two;
    forall w: World | w.version == r && Follows(w, st.tick, answers)
      ensures Run(n, w, st, fuel) == Outcome(Normal(truth), end)
    {
      FollowsBoth(w, st.tick, one, two);
      assert Run(a, w, st, fuel) == Outcome(Normal(first), mid);
      assert Run(b, w, mid, fuel) == Outcome(Normal(truth), end);
    }
  }

  /** Opaque expressions: their parts, no callbacks, and the answer that is wanted. */
  lemma {:induction false} AnswerReached(n: Node, parts: seq<Node>, truth: bool, r: nat, st: State, fuel: nat)
      returns (answers: seq<nat>, end: State)
    requires fuel > 0 && AreExpressions(parts) && CanFinish(parts, r)
    requires (n.BadAtLeast? && n.arguments == parts) || (n.Use? && n.parts == parts && Satisfies(r, n.required))
    ensures Leads(n, r, st, fuel, answers, truth, end)
    decreases n, 0
  {
    var one, mid := FinishReached(parts, r, st, fuel);
    var last := if truth then 1 else 2;
    var two := if n.Use? then [|mid.closures|, last] else [last];
    answers := one + two;
    end := mid.(tick := mid.tick + |two|);
    forall w: World | w.version == r && Follows(w, st.tick, answers)
      ensures Run(n, w, st, fuel) == Outcome(Normal(truth), end)
    {
      FollowsBoth(w, st.tick, one, two);
      assert RunAll(parts, w, st, fuel) == Outcome(Normal(true), mid);
      assert w.answers(mid.tick + 0) == two[0];
      if n.Use? {
        assert w.answers(mid.tick + 1) == two[1];
        assert RunCallbacks(n.required, w, mid, fuel - 1) == Outcome(Normal(true), Ticked(mid));
      }
    }
  }

  lemma {:induction false} FinishReached(ns: seq<Node>, r: nat, st: State, fuel: nat)
      returns (answers: seq<nat>, end: State)
    requires fuel > 0 && AreExpressions(ns) && CanFinish(ns, r)
    ensures AllLead(ns, r, st, fuel, answers, end)
    decreases ns
  {
    if ns == [] {
      answers, end := [], st;
    } else {
      var truth := CanBe(ns[0], true, r);
      var one, mid := CanBeReached(ns[0], truth, r, st, fuel);
      var two;
      two, end := FinishReached(ns[1..], r, mid, fuel);
      answers := one + two;
      forall w: World | w.version == r && Follows(w, st.tick, answers)
        ensures RunAll(ns, w, st, fuel) == Outcome(Normal(true), end)
      {
        FollowsBoth(w, st.tick, one, two);
        assert Run(ns[0], w, st, fuel) == Outcome(Normal(truth), mid);
      }
    }
  }
}
