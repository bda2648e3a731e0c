/** The machine accepts exactly the token sequences of values within the limits. */
module JsonMachineProofs {
  import opened Wrappers
  import opened JsonGrammar
  import opened JsonMachine

  // ----- every value within the limits is read back -----

  lemma {:induction false} RunConcat(m: Machine, a: seq<Token>, b: seq<Token>)
    ensures Run(m, a + b) == (var r := Run(m, a); if r.Err? then r else Run(r.value, b))
    decreases a
  {
    if a == [] {
      assert a + b == b;
    } else {
      assert (a + b)[1..] == a[1..] + b;
      var next := Step(m, a[0]);
      if next.Ok? { RunConcat(next.value, a[1..], b); }
    }
  }

  lemma WithTopTwice(m: Machine, f: Frame, g: Frame)
    requires m.stack != []
    ensures WithTop(WithTop(m, f), g) == WithTop(m, g)
  {
  }

  /** A value may come next. */
  predicate ValueNext(m: Machine) {
    if m.stack == [] then !m.rootSet
    else
      var f := Top(m);
      && f.child.NoChild?
      && (if f.kind.ArrayKind? then (f.stage == InitialOrEnd || f.stage == ValueStage) && f.key.None?
          else f.stage == ValueStage && f.key.Some?)
  }

  lemma RunOne(m: Machine, t: Token)
    ensures Run(m, [t]) == Step(m, t)
  {
    assert [t][1..] == [];
  }

  lemma RunCons(m: Machine, t: Token, rest: seq<Token>)
    requires Step(m, t).Ok?
    ensures Run(m, [t] + rest) == Run(Step(m, t).value, rest)
  {
    RunOne(m, t);
    RunConcat(m, [t], rest);
  }

  /** A container that was just opened, after its entries. */
  function FilledWith(begun: Machine, es: seq<Entry>): Machine
    requires begun.stack != []
  {
    if es == [] then begun else WithTop(begun, Top(begun).(done := es, stage := CommaOrEnd))
  }

  /** `m` reads the tokens of `v`, wherever it may come, as one value set in its place. */
  lemma {:induction false} RunReadsValue(m: Machine, v: Json)
    requires ValueNext(m) && SetValue(m, Some(v)).Ok? && Fits(v, |m.stack|)
    ensures Run(m, Toks(v)) == SetValue(m, Some(v))
    decreases v, 2
  {
    if v.Container? {
      var begun := BeginContainer(m, v.kind).value;
      RunReadsEntries(begun, v, |v.entries|);
      assert v.entries[..|v.entries|] == v.entries;
      ContainerIsRead(m, v, begun);
    } else {
      RunOne(m, Toks(v)[0]);
    }
  }

  lemma ContainerIsRead(m: Machine, v: Json, begun: Machine)
    requires ValueNext(m) && SetValue(m, Some(v)).Ok? && v.Container? && BeginContainer(m, v.kind) == Ok(begun)
    requires Run(begun, EntriesToks(v.entries)) == Ok(FilledWith(begun, v.entries))
    ensures Run(m, Toks(v)) == SetValue(m, Some(v))
  {
    var filled := FilledWith(begun, v.entries);
    assert Step(m, Open(v.kind)) == Ok(begun);
    RunConcat(begun, EntriesToks(v.entries), [Close(v.kind)]);
    RunCons(m, Open(v.kind), EntriesToks(v.entries) + [Close(v.kind)]);
    assert Toks(v) == [Open(v.kind)] + (EntriesToks(v.entries) + [Close(v.kind)]);
    RunOne(filled, Close(v.kind));
    PopFills(m, v, begun, filled);
  }

  lemma PopFills(m: Machine, v: Json, begun: Machine, filled: Machine)
    requires ValueNext(m) && SetValue(m, Some(v)).Ok? && v.Container? && BeginContainer(m, v.kind) == Ok(begun)
    requires filled == FilledWith(begun, v.entries)
    ensures Step(filled, Close(v.kind)) == Ok(Pop(filled)) && Ok(Pop(filled)) == SetValue(m, Some(v))
  {
    var placed := SetValue(m, None).value;
    assert filled.stack[..|filled.stack| - 1] == placed.stack;
    assert Top(filled).kind == v.kind && Top(filled).done == v.entries;
    PopReturns(m, v, filled);
  }

  lemma PopReturns(m: Machine, v: Json, filled: Machine)
    requires SetValue(m, Some(v)).Ok? && SetValue(m, None).Ok? && v.Container? && filled.stack != []
    requires m.stack != [] ==> Top(m).child.NoChild?
    requires if m.stack == [] then filled.rootSet else filled.rootSet == m.rootSet && filled.root == m.root
    requires filled.stack[..|filled.stack| - 1] == SetValue(m, None).value.stack
    requires Top(filled).kind == v.kind && Top(filled).done == v.entries
    ensures Ok(Pop(filled)) == SetValue(m, Some(v))
  {
    if m.stack != [] {
      assert Pop(filled).stack == SetValue(m, Some(v)).value.stack;
    }
  }

  /** A container that was just opened reads the first `n` of its entries. */
  lemma {:induction false} RunReadsEntries(begun: Machine, v: Json, n: nat)
    requires v.Container? && n <= |v.entries| && begun.stack != []
    requires Top(begun) == Frame(v.kind, InitialOrEnd, None, [], NoChild)
    requires EntriesFit(v.kind, v.entries, |begun.stack|)
    ensures Run(begun, EntriesToks(v.entries[..n])) == Ok(FilledWith(begun, v.entries[..n]))
    decreases v, 1, n
  {
    var es := v.entries;
    if n == 1 {
      assert es[..1] == [es[0]];
      RunReadsEntry(begun, v, 0);
    } else if n > 1 {
      RunReadsEntries(begun, v, n - 1);
      var before := FilledWith(begun, es[..n - 1]);
      var ready := WithTop(begun, Top(begun).(done := es[..n - 1], stage := if v.kind.ArrayKind? then ValueStage else KeyStage));
      CommaReadies(begun, v.kind, es[..n - 1], ready);
      RunReadsEntry(ready, v, n - 1);
      WithTopTwice(begun, Top(ready), Top(begun).(done := es[..n], stage := CommaOrEnd));
      RunCons(before, Comma, EntryToks(es[n - 1]));
      RunConcat(begun, EntriesToks(es[..n - 1]), [Comma] + EntryToks(es[n - 1]));
      EntriesToksUpTo(es, n);
    }
  }

  lemma EntriesToksUpTo(es: seq<Entry>, n: nat)
    requires 1 < n <= |es|
    ensures EntriesToks(es[..n]) == EntriesToks(es[..n - 1]) + ([Comma] + EntryToks(es[n - 1]))
  {
    assert es[..n][..n - 1] == es[..n - 1] && es[..n][n - 1] == es[n - 1];
  }

  lemma CommaReadies(begun: Machine, kind: Kind, es: seq<Entry>, ready: Machine)
    requires begun.stack != [] && Top(begun) == Frame(kind, InitialOrEnd, None, [], NoChild) && es != []
    requires ready == WithTop(begun, Top(begun).(done := es, stage := if kind.ArrayKind? then ValueStage else KeyStage))
    ensures Step(FilledWith(begun, es), Comma) == Ok(ready)
  {
    WithTopTwice(begun, Top(FilledWith(begun, es)), Top(ready));
  }

  /** At the place of its `i`-th entry the machine reads that entry, key and value. */
  lemma {:induction false} RunReadsEntry(ready: Machine, v: Json, i: nat)
    requires v.Container? && i < |v.entries| && ready.stack != [] && EntriesFit(v.kind, v.entries, |ready.stack|)
    requires var f := Top(ready);
             && f.kind == v.kind && f.key.None? && f.done == v.entries[..i] && f.child.NoChild?
             && (f.stage == InitialOrEnd || f.stage == if v.kind.ArrayKind? then ValueStage else KeyStage)
    ensures Run(ready, EntryToks(v.entries[i]))
         == Ok(WithTop(ready, Top(ready).(done := v.entries[..i + 1], stage := CommaOrEnd)))
    decreases v, 1, 0
  {
    var e, f := v.entries[i], Top(ready);
    var atValue := if v.kind.ArrayKind? then ready else WithTop(ready, f.(key := e.key, stage := ValueStage));
    if v.kind.ObjectKind? {
      var atColon := WithTop(ready, f.(key := e.key, stage := ColonStage));
      WithTopTwice(ready, Top(atColon), Top(atValue));
      assert Step(ready, Str(e.key.value)) == Ok(atColon) && Step(atColon, Colon) == Ok(atValue);
      assert [Str(e.key.value), Colon][1..] == [Colon];
      assert Run(atColon, [Colon]) == Ok(atValue);
      RunConcat(ready, [Str(e.key.value), Colon], Toks(e.value));
    } else {
      assert EntryToks(e) == Toks(e.value);
    }
    assert v.entries[..i + 1] == v.entries[..i] + [e];
    WithTopTwice(ready, Top(atValue), f.(done := v.entries[..i + 1], stage := CommaOrEnd));
    assert EntryFits(v.kind, e, |ready.stack|);
    assert SetValue(atValue, Some(e.value)) == Ok(WithTop(ready, f.(done := v.entries[..i + 1], stage := CommaOrEnd)));
    RunReadsValue(atValue, e.value);
  }

  lemma ValuesWithinLimitsAreRead(v: Json)
    requires Fits(v, 0)
    ensures ParseTokens(Toks(v)) == Ok(v)
  {
    RunReadsValue(INITIAL, v);
  }

  // ----- nothing else is accepted -----

  /** The tokens that brought a frame to where it is. */
  function FrameToks(f: Frame): seq<Token> {
    [Open(f.kind)] + EntriesToks(f.done) +
    (if f.child.OpenChild? then Separator(f) + KeyToks(f.child.key)
     else match f.stage
          case InitialOrEnd => []
          case CommaOrEnd => []
          case KeyStage => [Comma]
          case ColonStage => Separator(f) + (if f.key.Some? then [Str(f.key.value)] else [])
          case ValueStage => Separator(f) + KeyToks(f.key))
  }

  function Separator(f: Frame): seq<Token> {
    if f.done == [] then [] else [Comma]
  }

  function StackToks(stack: seq<Frame>): seq<Token> {
    if stack == [] then [] else StackToks(stack[..|stack| - 1]) + FrameToks(stack[|stack| - 1])
  }

  function Consumed(m: Machine): seq<Token> {
    if m.stack != [] then StackToks(m.stack)
    else if m.root.Some? then Toks(m.root.value) else []
  }

  /** A frame at depth `depth` respects the limits and is in a stage its kind has. */
  predicate FrameValid(f: Frame, depth: nat) {
    && EntriesFit(f.kind, f.done, depth)
    && EntryCount(f) <= MAX_ENTRIES
    && (f.child.OpenChild? ==> KeyFits(f.kind, f.child.key)
                               && (f.kind.ObjectKind? ==> forall i :: 0 <= i < |f.done| ==> f.done[i].key != f.child.key))
    && (f.stage == InitialOrEnd ==> f.done == [])
    && (f.stage == CommaOrEnd && f.child.NoChild? ==> f.done != [])
    && (f.stage == KeyStage ==> f.done != [])
    && (f.kind.ArrayKind? ==> f.stage != KeyStage && f.stage != ColonStage && f.key.None? && (f.stage == ValueStage ==> f.done != []))
    && (f.kind.ObjectKind? ==> (f.key.Some? <==> f.stage == ColonStage || f.stage == ValueStage)
                               && (f.key.Some? ==> |f.key.value| <= MAX_KEY))
  }

  /** Frames below the top wait for the container that is open inside them. */
  predicate Waiting(stack: seq<Frame>) {
    stack != [] ==>
      var f := stack[|stack| - 1];
      && FrameValid(f, |stack|) && f.child.OpenChild? && f.stage == CommaOrEnd
      && Waiting(stack[..|stack| - 1])
  }

  predicate Valid(m: Machine) {
    && |m.stack| <= MAX_DEPTH
    && (if m.stack == [] then (m.rootSet <==> m.root.Some?) && (m.root.Some? ==> Fits(m.root.value, 0))
        else
          && m.rootSet && Top(m).child.NoChild?
          && FrameValid(Top(m), |m.stack|) && Waiting(m.stack[..|m.stack| - 1]))
  }

  lemma EntriesFitAppend(kind: Kind, es: seq<Entry>, e: Entry, depth: nat)
    requires EntriesFit(kind, es, depth) && |es| < MAX_ENTRIES && EntryFits(kind, e, depth)
    requires kind.ObjectKind? ==> forall i :: 0 <= i < |es| ==> es[i].key != e.key
    ensures EntriesFit(kind, es + [e], depth)
  {
  }

  lemma StackToksTop(stack: seq<Frame>, f: Frame)
    ensures StackToks(stack + [f]) == StackToks(stack) + FrameToks(f)
  {
    assert (stack + [f])[..|stack|] == stack;
  }

  lemma EntriesToksAppend(es: seq<Entry>, e: Entry)
    ensures EntriesToks(es + [e]) == EntriesToks(es) + (if es == [] then [] else [Comma]) + EntryToks(e)
  {
    assert (es + [e])[..|es|] == es;
  }

  /** Replacing the top frame by one that has read `t` as well. */
  lemma TopConsumes(m: Machine, f: Frame, t: Token)
    requires Valid(m) && m.stack != [] && FrameValid(f, |m.stack|) && f.child.NoChild?
    requires FrameToks(f) == FrameToks(Top(m)) + [t]
    ensures Valid(WithTop(m, f)) && Consumed(WithTop(m, f)) == Consumed(m) + [t]
  {
    assert WithTop(m, f).stack[..|m.stack| - 1] == m.stack[..|m.stack| - 1];
  }

  /** A frame that takes a value. */
  lemma FilledFrame(f: Frame, depth: nat, v: Json, filled: Frame)
    requires FrameValid(f, depth) && f.child.NoChild? && EntryCount(f) < MAX_ENTRIES && Fits(v, depth)
    requires f.kind.ArrayKind? ==> f.stage == InitialOrEnd || f.stage == ValueStage
    requires f.kind.ObjectKind? ==> f.stage == ValueStage && f.key.Some? && !HasKey(f, f.key)
    requires filled == f.(done := f.done + [Entry(f.key, v)], key := None, stage := CommaOrEnd)
    ensures FrameValid(filled, depth) && FrameToks(filled) == FrameToks(f) + Toks(v)
  {
    EntriesToksAppend(f.done, Entry(f.key, v));
    assert EntryFits(f.kind, Entry(f.key, v), depth);
    EntriesFitAppend(f.kind, f.done, Entry(f.key, v), depth);
    Regroup([Open(f.kind)], EntriesToks(f.done), Separator(f), KeyToks(f.key), Toks(v));
    assert FrameToks(filled) == [Open(f.kind)] + EntriesToks(f.done + [Entry(f.key, v)]) + [];
  }

  lemma SetValueConsumes(m: Machine, v: Json, t: Token)
    requires Valid(m) && SetValue(m, Some(v)).Ok? && Toks(v) == [t] && !v.Container?
    ensures Valid(SetValue(m, Some(v)).value) && Consumed(SetValue(m, Some(v)).value) == Consumed(m) + [t]
  {
    if m.stack != [] {
      var f := Top(m);
      var filled := f.(done := f.done + [Entry(f.key, v)], key := None, stage := CommaOrEnd);
      FilledFrame(f, |m.stack|, v, filled);
      TopConsumes(m, filled, t);
    }
  }

  /** The frame of a place that a container was opened in. */
  function Awaiting(f: Frame): Frame {
    f.(child := OpenChild(f.key), key := None, stage := CommaOrEnd)
  }

  lemma AwaitingSame(m: Machine)
    requires Valid(m) && m.stack != [] && SetValue(m, None).Ok?
    ensures SetValue(m, None).value == WithTop(m, Awaiting(Top(m)))
    ensures FrameValid(Awaiting(Top(m)), |m.stack|) && FrameToks(Awaiting(Top(m))) == FrameToks(Top(m))
  {
  }

  lemma FreshFrame(kind: Kind, depth: nat)
    ensures FrameValid(Frame(kind, InitialOrEnd, None, [], NoChild), depth)
    ensures FrameToks(Frame(kind, InitialOrEnd, None, [], NoChild)) == [Open(kind)]
  {
  }

  lemma ValidWithTop(stack: seq<Frame>, f: Frame, m: Machine)
    requires Waiting(stack) && |stack| < MAX_DEPTH && m.rootSet && m.stack == stack + [f]
    requires FrameValid(f, |stack| + 1) && f.child.NoChild?
    ensures Valid(m)
  {
    assert m.stack[..|m.stack| - 1] == stack;
  }

  /** The frames below stay put, and the place in `stack` is filled by a fresh container. */
  lemma PushConsumes(stack: seq<Frame>, kind: Kind, m: Machine)
    requires Waiting(stack) && |stack| < MAX_DEPTH && m.rootSet
    requires m.stack == stack + [Frame(kind, InitialOrEnd, None, [], NoChild)]
    ensures Valid(m) && Consumed(m) == StackToks(stack) + [Open(kind)]
  {
    var inner := Frame(kind, InitialOrEnd, None, [], NoChild);
    FreshFrame(kind, |m.stack|);
    ValidWithTop(stack, inner, m);
    StackToksTop(stack, inner);
  }

  lemma BeginConsumes(m: Machine, kind: Kind)
    requires Valid(m) && BeginContainer(m, kind).Ok?
    ensures Valid(BeginContainer(m, kind).value) && Consumed(BeginContainer(m, kind).value) == Consumed(m) + [Open(kind)]
  {
    var placed := SetValue(m, None).value;
    if m.stack != [] {
      AwaitingSame(m);
      WaitingOnTop(m);
    }
    PushConsumes(placed.stack, kind, BeginContainer(m, kind).value);
  }

  lemma WaitingOnTop(m: Machine)
    requires Valid(m) && m.stack != [] && FrameValid(Awaiting(Top(m)), |m.stack|)
    requires FrameToks(Awaiting(Top(m))) == FrameToks(Top(m))
    ensures Waiting(WithTop(m, Awaiting(Top(m))).stack) && StackToks(WithTop(m, Awaiting(Top(m))).stack) == StackToks(m.stack)
  {
    assert WithTop(m, Awaiting(Top(m))).stack[..|m.stack| - 1] == m.stack[..|m.stack| - 1];
  }

  lemma PopConsumes(m: Machine)
    requires Valid(m) && m.stack != [] && (Top(m).stage == InitialOrEnd || Top(m).stage == CommaOrEnd)
    ensures Valid(Pop(m)) && Consumed(Pop(m)) == Consumed(m) + [Close(Top(m).kind)]
  {
    var f := Top(m);
    var below, value := m.stack[..|m.stack| - 1], Container(f.kind, f.done);
    ClosedFrame(f, |m.stack|);
    assert Consumed(m) == StackToks(below) + FrameToks(f);
    if below == [] {
      assert StackToks(below) == [];
      NothingBefore(FrameToks(f));
    } else {
      InnerPopConsumes(m, below, value);
      Associate(StackToks(below), FrameToks(f), [Close(f.kind)]);
    }
  }

  /** A frame that may close has read its container but for the closing token. */
  lemma ClosedFrame(f: Frame, depth: nat)
    requires FrameValid(f, depth) && f.child.NoChild? && (f.stage == InitialOrEnd || f.stage == CommaOrEnd)
    ensures Toks(Container(f.kind, f.done)) == FrameToks(f) + [Close(f.kind)]
    ensures 0 < depth <= MAX_DEPTH ==> Fits(Container(f.kind, f.done), depth - 1)
  {
    NothingMore([Open(f.kind)] + EntriesToks(f.done));
  }

  lemma NothingBefore<T>(a: seq<T>)
    ensures [] + a == a
  {
  }

  lemma Associate<T>(a: seq<T>, b: seq<T>, c: seq<T>)
    ensures a + b + c == a + (b + c)
  {
  }

  lemma {:induction false} InnerPopConsumes(m: Machine, below: seq<Frame>, value: Json)
    requires Waiting(below) && below != [] && |below| < MAX_DEPTH && Fits(value, |below|)
    requires m.stack != [] && m.rootSet && below == m.stack[..|m.stack| - 1] && value == Container(Top(m).kind, Top(m).done)
    ensures Valid(Pop(m)) && Consumed(Pop(m)) == StackToks(below) + Toks(value)
  {
    var parent, rest := below[|below| - 1], below[..|below| - 1];
    var filled := parent.(done := parent.done + [Entry(parent.child.key, value)], child := NoChild);
    PoppedFrame(parent, |below|, value, filled);
    PopFillsParent(m, below, value, filled);
    assert below == rest + [parent];
    ParentConsumes(rest, parent, filled, Toks(value), Pop(m));
  }

  lemma ParentConsumes(rest: seq<Frame>, parent: Frame, filled: Frame, tokens: seq<Token>, m: Machine)
    requires Waiting(rest) && |rest| < MAX_DEPTH && m.rootSet && m.stack == rest + [filled]
    requires FrameValid(filled, |rest| + 1) && filled.child.NoChild? && FrameToks(filled) == FrameToks(parent) + tokens
    ensures Valid(m) && Consumed(m) == StackToks(rest + [parent]) + tokens
  {
    ValidWithTop(rest, filled, m);
    StackToksTop(rest, filled);
    StackToksTop(rest, parent);
    Associate(StackToks(rest), FrameToks(parent), tokens);
  }

  lemma PopFillsParent(m: Machine, below: seq<Frame>, value: Json, filled: Frame)
    requires m.stack != [] && below != [] && below == m.stack[..|m.stack| - 1] && value == Container(Top(m).kind, Top(m).done)
    requires var parent := below[|below| - 1];
             && parent.child.OpenChild?
             && filled == parent.(done := parent.done + [Entry(parent.child.key, value)], child := NoChild)
    ensures Pop(m) == m.(stack := below[..|below| - 1] + [filled])
  {
    assert Pop(m).stack == below[..|below| - 1] + [filled];
  }

  lemma {:induction false} PoppedFrame(parent: Frame, depth: nat, value: Json, filled: Frame)
    requires FrameValid(parent, depth) && parent.child.OpenChild? && parent.stage == CommaOrEnd && Fits(value, depth)
    requires filled == parent.(done := parent.done + [Entry(parent.child.key, value)], child := NoChild)
    ensures FrameValid(filled, depth) && FrameToks(filled) == FrameToks(parent) + Toks(value)
  {
    var e := Entry(parent.child.key, value);
    EntriesFitAppend(parent.kind, parent.done, e, depth);
    PoppedToks(parent, e, filled);
  }

  lemma PoppedToks(parent: Frame, e: Entry, filled: Frame)
    requires parent.child == OpenChild(e.key) && parent.stage == CommaOrEnd
    requires filled == parent.(done := parent.done + [e], child := NoChild)
    ensures FrameToks(filled) == FrameToks(parent) + Toks(e.value)
  {
    EntriesToksAppend(parent.done, e);
    Regroup([Open(parent.kind)], EntriesToks(parent.done), Separator(parent), KeyToks(e.key), Toks(e.value));
    assert FrameToks(filled) == [Open(parent.kind)] + EntriesToks(parent.done + [e]) + [];
  }

  lemma Regroup<T>(o: seq<T>, a: seq<T>, s: seq<T>, k: seq<T>, t: seq<T>)
    ensures o + (a + s + (k + t)) + [] == o + a + (s + k) + t
  {
  }

  /** A token that only moves the top frame to another stage. */
  lemma StageConsumes(m: Machine, t: Token)
    requires Valid(m) && m.stack != [] && Step(m, t).Ok?
    requires t == Comma || t == Colon || (t.Str? && Top(m).kind.ObjectKind? && Top(m).stage != ValueStage)
    ensures Valid(Step(m, t).value) && Consumed(Step(m, t).value) == Consumed(m) + [t]
  {
    var f := Top(Step(m, t).value);
    assert Step(m, t).value == WithTop(m, f);
    TopConsumes(m, f, t);
  }

  /** Where a value may come. */
  predicate AtValue(m: Machine) {
    m.stack == [] || Top(m).kind.ArrayKind? || Top(m).stage == ValueStage
  }

  /** What an accepted token does. */
  lemma StepIs(m: Machine, t: Token)
    requires Valid(m) && Step(m, t).Ok?
    ensures t.Literal? ==> Step(m, t) == SetValue(m, Some(t.value))
    ensures t.Open? ==> Step(m, t) == BeginContainer(m, t.kind)
    ensures t.Str? && AtValue(m) ==> Step(m, t) == SetValue(m, Some(String(t.units)))
    ensures t.Close? ==> && m.stack != [] && (Top(m).stage == InitialOrEnd || Top(m).stage == CommaOrEnd)
                         && t.kind == Top(m).kind && Step(m, t).value == Pop(m)
    ensures t == Comma || t == Colon || (t.Str? && !AtValue(m)) ==> m.stack != []
  {
  }

  /** Each token the machine accepts is accounted for. */
  lemma StepConsumes(m: Machine, t: Token)
    requires Valid(m) && Step(m, t).Ok?
    requires t.Literal? ==> !t.value.Container? && !t.value.String?
    ensures Valid(Step(m, t).value) && Consumed(Step(m, t).value) == Consumed(m) + [t]
  {
    StepIs(m, t);
    match t
    case Literal(v) => SetValueConsumes(m, v, t);
    case Open(kind) => BeginConsumes(m, kind);
    case Close(_) => PopConsumes(m);
    case Str(units) => if AtValue(m) { SetValueConsumes(m, String(units), t); } else { StageConsumes(m, t); }
    case _ => StageConsumes(m, t);
  }

  predicate ProperLiterals(tokens: seq<Token>) {
    forall t <- tokens :: t.Literal? ==> !t.value.Container? && !t.value.String?
  }

  lemma {:induction false} RunConsumes(m: Machine, tokens: seq<Token>, end: Machine)
    requires Valid(m) && Run(m, tokens) == Ok(end) && ProperLiterals(tokens)
    ensures Valid(end) && Consumed(end) == Consumed(m) + tokens
    decreases tokens
  {
    if tokens == [] {
      NothingMore(Consumed(m));
    } else {
      var next := Step(m, tokens[0]).value;
      StepConsumes(m, tokens[0]);
      RunConsumes(next, tokens[1..], end);
      FirstAndRest(Consumed(m), tokens);
    }
  }

  lemma NothingMore<T>(a: seq<T>)
    ensures a + [] == a
  {
  }

  lemma FirstAndRest<T>(a: seq<T>, b: seq<T>)
    requires b != []
    ensures a + [b[0]] + b[1..] == a + b
  {
  }

  /** The machine accepts a token sequence iff it is that of a value within the limits, and
      gives back that value. */
  lemma MachineIsTheGrammar(tokens: seq<Token>, v: Json)
    requires ProperLiterals(tokens)
    ensures ParseTokens(tokens) == Ok(v) <==> tokens == Toks(v) && Fits(v, 0)
  {
    if ParseTokens(tokens) == Ok(v) {
      RunConsumes(INITIAL, tokens, Run(INITIAL, tokens).value);
    }
    if Fits(v, 0) {
      ValuesWithinLimitsAreRead(v);
    }
  }
}
