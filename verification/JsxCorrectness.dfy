/** Running a compiled tree from any renderer stack leaves the stack as it was and appends
    exactly the tree's meaning. */
module JsxCorrectness {
  import opened Wrappers
  import opened Jsx
  import opened JsxRuntime
  import opened JsxProofs

  /** The machine after rendering something here. */
  function Shown(m: Machine, meant: Meant<seq<Rendered>>): Machine
    requires Accepts(m)
  {
    Append(m, meant.value).(tick := meant.tick)
  }

  lemma ShownTwice(m: Machine, a: Meant<seq<Rendered>>, b: Meant<seq<Rendered>>)
    requires Accepts(m)
    ensures Accepts(Shown(m, a)) && Shown(Shown(m, a), b) == Shown(m, Meant(a.value + b.value, b.tick))
  {
    if m.stack == [] {
      assert m.out + a.value + b.value == m.out + (a.value + b.value);
    } else {
      var top := Top(m);
      assert top.children + a.value + b.value == top.children + (a.value + b.value);
      assert Shown(Shown(m, a), b).stack == Shown(m, Meant(a.value + b.value, b.tick)).stack;
    }
  }

  lemma ShownNothing(m: Machine)
    requires Accepts(m)
    ensures Shown(m, Meant([], m.tick)) == m
  {
    if m.stack == [] {
      assert m.out + [] == m.out;
    } else {
      assert Top(m).children + [] == Top(m).children;
    }
  }

  /** The machine with `r` open on top. */
  function Inside(m: Machine, r: Rendered, tick: nat): Machine {
    Push(m, r).(tick := tick)
  }

  lemma InsideFacts(m: Machine, r: Rendered, tick: nat, r': Rendered)
    ensures Inside(m, r, tick).stack != [] && Top(Inside(m, r, tick)) == r
    ensures WithTop(Inside(m, r, tick), r') == Inside(m, r', tick)
    ensures Accepts(m) ==> Pop(Inside(m, r, tick)) == Some(Append(m, [r]).(tick := tick))
  {
    assert Inside(m, r, tick).stack[..|m.stack|] == m.stack;
    assert WithTop(Inside(m, r, tick), r').stack == m.stack + [r'];
  }

  lemma ShownInside(m: Machine, r: Rendered, tick: nat, meant: Meant<seq<Rendered>>)
    requires r.Element?
    ensures Shown(Inside(m, r, tick), meant) == Inside(m, r.(children := r.children + meant.value), meant.tick)
  {
    InsideFacts(m, r, tick, r.(children := r.children + meant.value));
  }

  /** Where compiled code runs: with every constant declared once, among those the code needs. */
  predicate Declares(protos: seq<Declaration>, output: Output) {
    NamesDistinct(protos) && output.declarations <= protos
  }

  // ----- elements -----

  lemma ElementBodyRuns(env: Env, protos: seq<Declaration>, n: Node, inner: seq<Stmt>, m: Machine, tick: nat, base: Attributes,
                        children: Meant<seq<Rendered>>)
    requires n.kind.ElementKind? && NodeValid(n) && Accepts(m)
    requires base == Apply(env, SplitOf(n).statics, map[])
    requires var key, ref := ValueOf(n.attributes, "key"), ValueOf(n.attributes, "ref");
             var attributes := Apply(env, SplitOf(n).dynamics, base);
             ExecAll(env, protos, inner, Inside(m, Element(n.tag, key, ref, attributes, []), tick))
             == Some(Shown(Inside(m, Element(n.tag, key, ref, attributes, []), tick), children))
    ensures var key, ref := ValueOf(n.attributes, "key"), ValueOf(n.attributes, "ref");
            var body := (if ref.Some? then [SetAttributeRef(ref.value)] else [])
                        + AttributeCalls(SplitOf(n).dynamics) + inner + [EndRender];
            ExecAll(env, protos, body, Inside(m, Element(n.tag, key, None, base, []), tick))
            == Some(Shown(m, Meant([Element(n.tag, key, ref, Apply(env, Ordinary(n.attributes, n.kind), map[]), children.value)],
                                   children.tick)))
  {
    var key, ref, dynamics := ValueOf(n.attributes, "key"), ValueOf(n.attributes, "ref"), SplitOf(n).dynamics;
    var ordinary := Ordinary(n.attributes, n.kind);
    OrdinaryAreSome(n.attributes, n.kind);
    HoistingKeepsAttributes(env, ordinary, n.kind);
    NothingInjectedOutsideComponents(ordinary, n.kind);
    var e0 := Element(n.tag, key, None, base, []);
    var e1 := e0.(ref := ref);
    var e2 := e1.(attributes := Apply(env, dynamics, base));
    var e3 := e2.(children := [] + children.value);
    assert [] + children.value == children.value;
    assert e3 == Element(n.tag, key, ref, Apply(env, ordinary, map[]), children.value);
    var refCall := if ref.Some? then [SetAttributeRef(ref.value)] else [];
    InsideFacts(m, e0, tick, e1);
    RefCallRuns(env, protos, ref, m, e0, tick);
    InsideFacts(m, e1, tick, e2);
    AttributeCallsRun(env, protos, dynamics, Inside(m, e1, tick));
    ShownInside(m, e2, tick, children);
    InsideFacts(m, e3, children.tick, e3);
    ExecOne(env, protos, EndRender, Inside(m, e3, children.tick));
    var calls := refCall + AttributeCalls(dynamics);
    ExecVia(env, protos, refCall, AttributeCalls(dynamics), Inside(m, e0, tick), Inside(m, e1, tick), Inside(m, e2, tick));
    ExecVia(env, protos, calls, inner, Inside(m, e0, tick), Inside(m, e2, tick), Inside(m, e3, children.tick));
    ExecVia(env, protos, calls + inner, [EndRender], Inside(m, e0, tick), Inside(m, e3, children.tick),
            Append(m, [e3]).(tick := children.tick));
  }

  lemma RefCallRuns(env: Env, protos: seq<Declaration>, ref: Option<Expr>, m: Machine, e: Rendered, tick: nat)
    requires e.Element? && e.ref.None?
    ensures ExecAll(env, protos, if ref.Some? then [SetAttributeRef(ref.value)] else [], Inside(m, e, tick))
         == Some(Inside(m, e.(ref := ref), tick))
  {
    InsideFacts(m, e, tick, e.(ref := ref));
    if ref.Some? { ExecOne(env, protos, SetAttributeRef(ref.value), Inside(m, e, tick)); }
  }

  /** An element of prototype `id` as it begins. */
  function BegunElement(env: Env, tag: string, key: Option<Expr>, statics: seq<Attribute>): Rendered {
    Element(tag, key, None, Apply(env, statics, map[]), [])
  }

  lemma EagerElementRuns(env: Env, protos: seq<Declaration>, id: string, tag: string, statics: seq<Attribute>, key: Option<Expr>,
                         body: seq<Stmt>, m: Machine)
    requires Lookup(protos, id) == Some(Prototype(Some(tag), statics))
    ensures ExecAll(env, protos, [BeginRender(id, key)] + body, m)
         == ExecAll(env, protos, body, Inside(m, BegunElement(env, tag, key, statics), m.tick))
  {
    ExecThen(env, protos, BeginRender(id, key), body, m);
    assert Push(m, BegunElement(env, tag, key, statics)) == Inside(m, BegunElement(env, tag, key, statics), m.tick);
  }

  lemma LazyElementRuns(env: Env, protos: seq<Declaration>, id: string, tag: string, statics: seq<Attribute>, key: Option<Expr>,
                        body: seq<Stmt>, m: Machine)
    requires Lookup(protos, id) == Some(Prototype(Some(tag), statics)) && Accepts(m)
    ensures ExecAll(env, protos, [IfBeginRenderNeeded(id, key, body)], m)
         == if env.needed(m.tick) then ExecAll(env, protos, body, Inside(m, BegunElement(env, tag, key, statics), m.tick + 1))
            else Some(Append(m, [Untouched(tag, key)]).(tick := m.tick + 1))
  {
    ExecOne(env, protos, IfBeginRenderNeeded(id, key, body), m);
  }

  /** The calls between begin and end of an element, its children's included. */
  function ElementBody(n: Node, inner: seq<Stmt>): seq<Stmt> {
    var ref := ValueOf(n.attributes, "ref");
    (if ref.Some? then [SetAttributeRef(ref.value)] else []) + AttributeCalls(SplitOf(n).dynamics) + inner + [EndRender]
  }

  /** The element as it is when its children were rendered from `tick` on. */
  function MeanElement(env: Env, n: Node, tick: nat): Meant<seq<Rendered>> {
    var children := MeanChildren(env, n.children, tick);
    Meant([Element(n.tag, ValueOf(n.attributes, "key"), ValueOf(n.attributes, "ref"),
                   Apply(env, Ordinary(n.attributes, n.kind), map[]), children.value)], children.tick)
  }

  lemma {:induction false} BegunElementRuns(
      env: Env, protos: seq<Declaration>, n: Node, o1: Output, m: Machine, tick: nat)
    requires n.kind.ElementKind? && NodeValid(n) && Accepts(m) && CompileChildren(n.children, o1).Ok?
    requires Declares(protos, CompileChildren(n.children, o1).value.output)
    ensures ExecAll(env, protos, ElementBody(n, CompileChildren(n.children, o1).value.code),
                    Inside(m, BegunElement(env, n.tag, ValueOf(n.attributes, "key"), SplitOf(n).statics), tick))
         == Some(Shown(m, MeanElement(env, n, tick)))
    decreases NodeSize(n), 0
  {
    var key, ref := ValueOf(n.attributes, "key"), ValueOf(n.attributes, "ref");
    var base := Apply(env, SplitOf(n).statics, map[]);
    var unfilled := Element(n.tag, key, ref, Apply(env, SplitOf(n).dynamics, base), []);
    InsideFacts(m, unfilled, tick, unfilled);
    ChildrenRun(env, protos, n.children, o1, Inside(m, unfilled, tick));
    ElementBodyRuns(env, protos, n, CompileChildren(n.children, o1).value.code, m, tick, base, MeanChildren(env, n.children, tick));
  }

  lemma {:induction false} EagerRuns(env: Env, protos: seq<Declaration>, n: Node, id: string, o1: Output, m: Machine)
    requires n.kind.ElementKind? && !IsLazy(n) && NodeValid(n) && Accepts(m) && CompileChildren(n.children, o1).Ok?
    requires Declares(protos, CompileChildren(n.children, o1).value.output)
    requires Lookup(protos, id) == Some(Prototype(Some(n.tag), SplitOf(n).statics))
    ensures ExecAll(env, protos, [BeginRender(id, ValueOf(n.attributes, "key"))]
                                 + ElementBody(n, CompileChildren(n.children, o1).value.code), m)
         == Some(Shown(m, MeanNode(env, n, m.tick)))
    decreases NodeSize(n), 1
  {
    var key, body := ValueOf(n.attributes, "key"), ElementBody(n, CompileChildren(n.children, o1).value.code);
    EagerElementRuns(env, protos, id, n.tag, SplitOf(n).statics, key, body, m);
    BegunElementRuns(env, protos, n, o1, m, m.tick);
  }

  lemma {:induction false} LazyRuns(env: Env, protos: seq<Declaration>, n: Node, id: string, o1: Output, m: Machine)
    requires n.kind.ElementKind? && IsLazy(n) && NodeValid(n) && Accepts(m) && CompileChildren(n.children, o1).Ok?
    requires Declares(protos, CompileChildren(n.children, o1).value.output)
    requires Lookup(protos, id) == Some(Prototype(Some(n.tag), SplitOf(n).statics))
    ensures ExecAll(env, protos, [IfBeginRenderNeeded(id, ValueOf(n.attributes, "key"),
                                                      ElementBody(n, CompileChildren(n.children, o1).value.code))], m)
         == Some(Shown(m, MeanNode(env, n, m.tick)))
    decreases NodeSize(n), 1
  {
    var key, body := ValueOf(n.attributes, "key"), ElementBody(n, CompileChildren(n.children, o1).value.code);
    LazyElementRuns(env, protos, id, n.tag, SplitOf(n).statics, key, body, m);
    if env.needed(m.tick) { BegunElementRuns(env, protos, n, o1, m, m.tick + 1); }
  }

  lemma {:induction false} ElementRuns(env: Env, protos: seq<Declaration>, n: Node, o: Output, m: Machine)
    requires n.kind.ElementKind? && CompileElement(n, o).Ok? && NodeValid(n) && Accepts(m)
    requires Declares(protos, CompileElement(n, o).value.output)
    ensures ExecAll(env, protos, CompileElement(n, o).value.code, m) == Some(Shown(m, MeanNode(env, n, m.tick)))
    decreases NodeSize(n), 2
  {
    var proto := Prototype(Some(n.tag), SplitOf(n).statics);
    var (id, o1) := Declare("__node", n.tag, proto, o);
    DeclaredIsFound("__node", n.tag, proto, o, protos);
    if IsLazy(n) {
      LazyRuns(env, protos, n, id, o1, m);
    } else {
      EagerRuns(env, protos, n, id, o1, m);
    }
  }

  // ----- components -----

  /** The slots that groups of children fill. */
  function MeanGroups(env: Env, groups: seq<Group>, tick: nat): Meant<Slots> {
    if groups == [] then Meant(NO_SLOTS, tick)
    else
      var before := MeanGroups(env, groups[..|groups| - 1], tick);
      var g := groups[|groups| - 1];
      var content := MeanChildren(env, g.children, before.tick);
      Meant(if g.name.Some? then before.value.(named := before.value.named[env.valueOf(g.name.value) := content.value])
            else before.value.(unnamed := Some(content.value)), content.tick)
  }

  lemma MeanGroupsAppend(env: Env, groups: seq<Group>, g: Group, tick: nat)
    ensures var before := MeanGroups(env, groups, tick);
            var content := MeanChildren(env, g.children, before.tick);
            MeanGroups(env, groups + [g], tick)
            == Meant(if g.name.Some? then before.value.(named := before.value.named[env.valueOf(g.name.value) := content.value])
                     else before.value.(unnamed := Some(content.value)), content.tick)
  {
    assert (groups + [g])[..|groups|] == groups;
  }

  lemma {:induction false} MeanChildrenConcat(env: Env, a: seq<Child>, b: seq<Child>, tick: nat)
    ensures var first := MeanChildren(env, a, tick);
            var rest := MeanChildren(env, b, first.tick);
            MeanChildren(env, a + b, tick) == Meant(first.value + rest.value, rest.tick)
    decreases |a|
  {
    if a == [] {
      assert a + b == b;
      var all := MeanChildren(env, b, tick);
      assert [] + all.value == all.value;
    } else {
      assert (a + b)[1..] == a[1..] + b;
      var head := MeanChild(env, a[0], tick);
      MeanChildrenConcat(env, a[1..], b, head.tick);
      var tail := MeanChildren(env, a[1..], head.tick);
      var rest := MeanChildren(env, b, tail.tick);
      assert head.value + (tail.value + rest.value) == (head.value + tail.value) + rest.value;
    }
  }

  lemma MeanOneChild(env: Env, c: Child, tick: nat)
    ensures MeanChildren(env, [c], tick) == MeanChild(env, c, tick)
  {
    assert [c][1..] == [];
    assert MeanChild(env, c, tick).value + [] == MeanChild(env, c, tick).value;
  }

  lemma {:induction false} FirstUnnamedSpec(groups: seq<Group>)
    ensures var at := FirstUnnamed(groups);
            && (at.None? ==> forall i :: 0 <= i < |groups| ==> groups[i].name.Some?)
            && (at.Some? ==> at.value < |groups| && groups[at.value].name.None?
                             && forall i :: 0 <= i < at.value ==> groups[i].name.Some?)
  {
    if groups != [] {
      FirstUnnamedSpec(groups[..|groups| - 1]);
    }
  }

  lemma {:induction false} NoUnnamedYet(env: Env, groups: seq<Group>, tick: nat)
    requires forall i :: 0 <= i < |groups| ==> groups[i].name.Some?
    ensures MeanGroups(env, groups, tick).value.unnamed.None?
  {
    if groups != [] {
      NoUnnamedYet(env, groups[..|groups| - 1], tick);
    }
  }

  /** Adding to the unnamed group adds to the unnamed slot. */
  lemma InsertedIsAdded(env: Env, groups: seq<Group>, children: seq<Child>, tick: nat)
    requires InsertUnnamed(groups, children).Ok?
    ensures var before := MeanGroups(env, groups, tick);
            MeanGroups(env, InsertUnnamed(groups, children).value, tick)
            == AddUnnamed(before.value, MeanChildren(env, children, before.tick))
  {
    FirstUnnamedSpec(groups);
    var at := FirstUnnamed(groups);
    if at.None? {
      NoUnnamedYet(env, groups, tick);
      MeanGroupsAppend(env, groups, Group(None, children), tick);
      var before := MeanGroups(env, groups, tick);
      assert [] + MeanChildren(env, children, before.tick).value == MeanChildren(env, children, before.tick).value;
    } else {
      var front, last := groups[..|groups| - 1], groups[|groups| - 1];
      assert groups == front + [last];
      assert InsertUnnamed(groups, children).value == front + [Group(None, last.children + children)];
      MeanGroupsAppend(env, front, last, tick);
      MeanGroupsAppend(env, front, Group(None, last.children + children), tick);
      MeanChildrenConcat(env, last.children, children, MeanGroups(env, front, tick).tick);
    }
  }

  /** Grouping a component's children by slot keeps what each slot means. */
  lemma {:induction false} GroupingKeepsSlots(env: Env, cs: seq<Child>, tick: nat)
    requires GroupSlots(cs).Ok?
    ensures MeanGroups(env, GroupSlots(cs).value.groups, tick) == MeanSlots(env, cs, tick)
    decreases |cs|
  {
    if cs != [] {
      var front, c := cs[..|cs| - 1], cs[|cs| - 1];
      GroupingKeepsSlots(env, front, tick);
      var g := GroupSlots(front).value;
      match c
      case EmptyExpression =>
      case Text(_) =>
      case Slotted(attributes, inner) =>
        var name := SlotName(attributes).value;
        SlotNameIsValue(attributes);
        if name.Some? { MeanGroupsAppend(env, g.groups, Group(name, inner), tick); }
        else { InsertedIsAdded(env, g.groups, inner, tick); }
      case _ =>
        InsertedIsAdded(env, g.groups, [c], tick);
        MeanOneChild(env, c, MeanGroups(env, g.groups, tick).tick);
    }
  }

  lemma SlotNameIsValue(attributes: seq<Attribute>)
    requires SlotName(attributes).Ok?
    ensures SlotName(attributes).value == ValueOf(attributes, "slot")
  {
  }

  lemma {:induction false} ComponentRuns(env: Env, protos: seq<Declaration>, n: Node, o: Output, m: Machine)
    requires n.kind.ComponentKind? && CompileComponent(n, o).Ok? && NodeValid(n) && Accepts(m)
    requires Declares(protos, CompileComponent(n, o).value.output)
    ensures ExecAll(env, protos, CompileComponent(n, o).value.code, m) == Some(Shown(m, MeanNode(env, n, m.tick)))
    decreases NodeSize(n), 0
  {
    var split := SplitOf(n);
    var proto := Prototype(None, split.statics);
    var (id, o1) := Declare("__component", n.tag, proto, o);
    var grouped := GroupSlots(n.children).value;
    GroupSlotsSize(n.children);
    EverywhereGrouped(HasValidAttributes, n.children);
    var slots := CompileGroups(grouped.groups, o1).value;
    DeclaredIsFound("__component", n.tag, proto, o, protos);
    GroupingKeepsSlots(env, n.children, m.tick);
    OpenComponentRuns(env, protos, n, id, m);
    GroupsRun(env, protos, grouped.groups, o1, m, OpenedComponent(env, n), m.tick);
    CloseComponent(env, protos, n, id, slots.code, m);
    assert CompileComponent(n, o).value.code == ComponentOpening(n, id) + slots.code + [EndComponent];
  }

  lemma CloseComponent(env: Env, protos: seq<Declaration>, n: Node, id: string, slots: seq<Stmt>, m: Machine)
    requires n.kind.ComponentKind? && Accepts(m)
    requires ExecAll(env, protos, ComponentOpening(n, id), m) == Some(Inside(m, OpenedComponent(env, n), m.tick))
    requires var meant := MeanSlots(env, n.children, m.tick);
             ExecAll(env, protos, slots, Inside(m, OpenedComponent(env, n), m.tick))
             == Some(Inside(m, OpenedComponent(env, n).(slots := meant.value), meant.tick))
    ensures ExecAll(env, protos, ComponentOpening(n, id) + slots + [EndComponent], m) == Some(Shown(m, MeanNode(env, n, m.tick)))
  {
    var meant := MeanSlots(env, n.children, m.tick);
    var c, done := OpenedComponent(env, n), OpenedComponent(env, n).(slots := meant.value);
    InsideFacts(m, done, meant.tick, done);
    ExecOne(env, protos, EndComponent, Inside(m, done, meant.tick));
    ExecVia(env, protos, ComponentOpening(n, id), slots, m, Inside(m, c, m.tick), Inside(m, done, meant.tick));
    ExecVia(env, protos, ComponentOpening(n, id) + slots, [EndComponent], m, Inside(m, done, meant.tick),
            Append(m, [done]).(tick := meant.tick));
  }

  /** The calls of a component before its slots. */
  function ComponentOpening(n: Node, id: string): seq<Stmt> {
    var split, context := SplitOf(n), ContextOf(n.attributes);
    [BeginComponent(n.tag, id, ValueOf(n.attributes, "key"), ValueOf(n.attributes, "ref"))]
    + (if context.Some? then [SetContextIfUnset(context.value)] else [])
    + ViewModelCalls(split.dynamics) + InjectedCalls(split.injected)
  }

  function OpenedComponent(env: Env, n: Node): Rendered {
    var ordinary := Ordinary(n.attributes, n.kind);
    Component(n.tag, ValueOf(n.attributes, "key"), ValueOf(n.attributes, "ref"), ContextOf(n.attributes),
              Apply(env, Uninjected(ordinary, n.kind), map[]), Apply(env, Injected(ordinary, n.kind), map[]), NO_SLOTS)
  }

  lemma OpenComponentRuns(env: Env, protos: seq<Declaration>, n: Node, id: string, m: Machine)
    requires NodeValid(n) && Lookup(protos, id) == Some(Prototype(None, SplitOf(n).statics))
    ensures ExecAll(env, protos, ComponentOpening(n, id), m) == Some(Inside(m, OpenedComponent(env, n), m.tick))
  {
    var split, context, ordinary := SplitOf(n), ContextOf(n.attributes), Ordinary(n.attributes, n.kind);
    var key, ref := ValueOf(n.attributes, "key"), ValueOf(n.attributes, "ref");
    OrdinaryAreSome(n.attributes, n.kind);
    HoistingKeepsAttributes(env, ordinary, n.kind);
    DynamicsAreSome(ordinary, n.kind);
    var base := Apply(env, split.statics, map[]);
    var c0 := Component(n.tag, key, ref, None, base, map[], NO_SLOTS);
    var c1 := c0.(context := context);
    var c2 := c1.(viewModel := Apply(env, split.dynamics, base));
    var c3 := c2.(injected := Apply(env, split.injected, map[]));
    var begin := BeginComponent(n.tag, id, key, ref);
    var contextCall := if context.Some? then [SetContextIfUnset(context.value)] else [];
    ExecOne(env, protos, begin, m);
    assert Push(m, c0) == Inside(m, c0, m.tick);
    InsideFacts(m, c0, m.tick, c1);
    assert ExecAll(env, protos, contextCall, Inside(m, c0, m.tick)) == Some(Inside(m, c1, m.tick)) by {
      if context.Some? { ExecOne(env, protos, SetContextIfUnset(context.value), Inside(m, c0, m.tick)); }
    }
    InsideFacts(m, c1, m.tick, c2);
    ViewModelCallsRun(env, protos, split.dynamics, Inside(m, c1, m.tick));
    InsideFacts(m, c2, m.tick, c3);
    InjectedCallsRun(env, protos, split.injected, Inside(m, c2, m.tick));
    ExecConcat(env, protos, [begin], contextCall, m);
    ExecConcat(env, protos, [begin] + contextCall, ViewModelCalls(split.dynamics), m);
    ExecConcat(env, protos, [begin] + contextCall + ViewModelCalls(split.dynamics), InjectedCalls(split.injected), m);
  }

  lemma {:induction false} VisibleMeansTheSame(env: Env, cs: seq<Child>, tick: nat)
    ensures MeanChildren(env, Visible(cs), tick) == MeanChildren(env, cs, tick)
    decreases |cs|
  {
    if cs != [] {
      var first := MeanChild(env, cs[0], tick);
      VisibleMeansTheSame(env, cs[1..], first.tick);
      if cs[0].EmptyExpression? || cs[0].Text? {
        var rest := MeanChildren(env, cs[1..], tick);
        assert [] + rest.value == rest.value;
      } else {
        assert ([cs[0]] + Visible(cs[1..]))[1..] == Visible(cs[1..]);
      }
    }
  }

  lemma {:induction false} TextMeansNothing(env: Env, cs: seq<Child>, tick: nat)
    ensures MeanChildren(env, WithoutText(cs), tick) == MeanChildren(env, cs, tick)
    decreases |cs|
  {
    if cs != [] {
      var first := MeanChild(env, cs[0], tick);
      TextMeansNothing(env, cs[1..], first.tick);
      if cs[0].Text? {
        var rest := MeanChildren(env, cs[1..], tick);
        assert [] + rest.value == rest.value;
      } else {
        assert ([cs[0]] + WithoutText(cs[1..]))[1..] == WithoutText(cs[1..]);
      }
    }
  }

  lemma {:induction false} GroupsRun(
      env: Env, protos: seq<Declaration>, groups: seq<Group>, o: Output, m: Machine, c: Rendered, tick: nat)
    requires CompileGroups(groups, o).Ok? && EverywhereInGroups(HasValidAttributes, groups) && c.Component? && c.slots == NO_SLOTS
    requires Declares(protos, CompileGroups(groups, o).value.output)
    ensures var meant := MeanGroups(env, groups, tick);
            ExecAll(env, protos, CompileGroups(groups, o).value.code, Inside(m, c, tick))
            == Some(Inside(m, c.(slots := meant.value), meant.tick))
    decreases GroupsSize(groups), 3, |groups|
  {
    if groups != [] {
      var front, g := groups[..|groups| - 1], groups[|groups| - 1];
      var before := CompileGroups(front, o).value;
      var meant := MeanGroups(env, front, tick);
      VisibleSize(g.children);
      var body := CompileChildren(Visible(g.children), before.output).value;
      GroupsRun(env, protos, front, o, m, c, tick);
      VisibleMeansTheSame(env, g.children, meant.tick);
      EverywhereKept(HasValidAttributes, g.children);
      ChildrenRun(env, protos, Visible(g.children), before.output, Machine([], [], meant.tick));
      GroupsStep(env, protos, groups, before.code, body.code, m, c, tick);
    }
  }

  /** The calls for all groups but the last, then the last one's. */
  lemma GroupsStep(env: Env, protos: seq<Declaration>, groups: seq<Group>, before: seq<Stmt>, body: seq<Stmt>, m: Machine,
                   c: Rendered, tick: nat)
    requires groups != [] && c.Component?
    requires var meant := MeanGroups(env, groups[..|groups| - 1], tick);
             var alone := Machine([], [], meant.tick);
             && ExecAll(env, protos, before, Inside(m, c, tick)) == Some(Inside(m, c.(slots := meant.value), meant.tick))
             && ExecAll(env, protos, body, alone)
                == Some(Shown(alone, MeanChildren(env, groups[|groups| - 1].children, meant.tick)))
    ensures var meant := MeanGroups(env, groups, tick);
            ExecAll(env, protos, before + [SlotCall(groups[|groups| - 1], body)], Inside(m, c, tick))
            == Some(Inside(m, c.(slots := meant.value), meant.tick))
  {
    var g, meant := groups[|groups| - 1], MeanGroups(env, groups[..|groups| - 1], tick);
    SlotCallRuns(env, protos, g, body, m, c, meant);
    ExecConcat(env, protos, before, [SlotCall(g, body)], Inside(m, c, tick));
  }

  function SlotCall(g: Group, body: seq<Stmt>): Stmt {
    if g.name.Some? then SetNamedSlot(g.name.value, BlockBody(body)) else SetUnnamedSlot(BlockBody(body))
  }

  /** Setting one slot, when its body renders the group's children. */
  lemma SlotCallRuns(env: Env, protos: seq<Declaration>, g: Group, body: seq<Stmt>, m: Machine, c: Rendered, before: Meant<Slots>)
    requires c.Component?
    requires var alone := Machine([], [], before.tick);
             ExecAll(env, protos, body, alone) == Some(Shown(alone, MeanChildren(env, g.children, before.tick)))
    ensures var content := MeanChildren(env, g.children, before.tick);
            var slots := if g.name.Some? then before.value.(named := before.value.named[env.valueOf(g.name.value) := content.value])
                         else before.value.(unnamed := Some(content.value));
            ExecAll(env, protos, [SlotCall(g, body)], Inside(m, c.(slots := before.value), before.tick))
            == Some(Inside(m, c.(slots := slots), content.tick))
  {
    var content := MeanChildren(env, g.children, before.tick);
    var slots := if g.name.Some? then before.value.(named := before.value.named[env.valueOf(g.name.value) := content.value])
                 else before.value.(unnamed := Some(content.value));
    BodyKeepsMeaning(env, protos, body, Machine([], [], before.tick));
    assert [] + content.value == content.value;
    InsideFacts(m, c.(slots := before.value), before.tick, c.(slots := slots));
    ExecOne(env, protos, SlotCall(g, body), Inside(m, c.(slots := before.value), before.tick));
  }

  // ----- function components and children -----

  lemma {:induction false} FunctionRuns(env: Env, protos: seq<Declaration>, n: Node, o: Output, m: Machine)
    requires n.kind.FunctionKind? && CompileFunction(n, o).Ok? && NodeValid(n) && Accepts(m)
    requires Declares(protos, CompileFunction(n, o).value.output)
    ensures ExecAll(env, protos, CompileFunction(n, o).value.code, m) == Some(Shown(m, MeanNode(env, n, m.tick)))
    decreases NodeSize(n), 0
  {
    VisibleSize(n.children);
    var visible := Visible(n.children);
    var nodes := TransformEach(visible, o).value;
    VisibleMeansTheSame(env, n.children, m.tick);
    EverywhereKept(HasValidAttributes, n.children);
    EachRuns(env, protos, visible, o, Machine([], [], m.tick));
    BodyKeepsMeaning(env, protos, nodes.code, Machine([], [], m.tick));
    TransformEachLength(visible, o);
    var meant := MeanChildren(env, n.children, m.tick);
    ShownAlone(m.tick, meant);
    FunctionCallRuns(env, protos, n.tag, Ordinary(n.attributes, n.kind), nodes.code != [], BlockBody(nodes.code), m, meant);
  }

  lemma ShownAlone(tick: nat, meant: Meant<seq<Rendered>>)
    ensures Shown(Machine([], [], tick), meant) == Machine([], meant.value, meant.tick)
  {
    assert [] + meant.value == meant.value;
  }

  lemma FunctionCallRuns(env: Env, protos: seq<Declaration>, tag: string, attributes: seq<Attribute>, hasChildren: bool,
                         body: seq<Stmt>, m: Machine, meant: Meant<seq<Rendered>>)
    requires Accepts(m) && ExecAll(env, protos, body, Machine([], [], m.tick)) == Some(Machine([], meant.value, meant.tick))
    ensures ExecAll(env, protos, [RenderFunction(tag, attributes, hasChildren, body)], m)
         == Some(Append(m, [FunctionCall(tag, Apply(env, attributes, map[]), if hasChildren then Some(meant.value) else None)])
                 .(tick := meant.tick))
  {
    ExecOne(env, protos, RenderFunction(tag, attributes, hasChildren, body), m);
  }

  lemma TransformEachLength(cs: seq<Child>, o: Output)
    requires TransformEach(cs, o).Ok?
    ensures |TransformEach(cs, o).value.code| == |cs|
  {
    if cs != [] {
      TransformEachLength(cs[1..], TransformChild(cs[0], o).value.output);
    }
  }

  /** The main theorem for one node. */
  lemma {:induction false} NodeRuns(env: Env, protos: seq<Declaration>, n: Node, o: Output, m: Machine)
    requires CompileNode(n, o).Ok? && NodeValid(n) && Accepts(m)
    requires Declares(protos, CompileNode(n, o).value.output)
    ensures ExecAll(env, protos, CompileNode(n, o).value.code, m) == Some(Shown(m, MeanNode(env, n, m.tick)))
    decreases NodeSize(n), 3
  {
    match n.kind
    case ElementKind => ElementRuns(env, protos, n, o, m);
    case ComponentKind => ComponentRuns(env, protos, n, o, m);
    case FunctionKind => FunctionRuns(env, protos, n, o, m);
    case SlotKind => ExecOne(env, protos, CompileNode(n, o).value.code[0], m);
  }

  lemma {:induction false} ChildRuns(env: Env, protos: seq<Declaration>, c: Child, o: Output, m: Machine)
    requires TransformChild(c, o).Ok? && EverywhereIn(HasValidAttributes, c) && Accepts(m)
    requires Declares(protos, TransformChild(c, o).value.output)
    ensures Exec(env, protos, TransformChild(c, o).value.code, m) == Some(Shown(m, MeanChild(env, c, m.tick)))
    decreases ChildSize(c), 0
  {
    if c.Nested? || c.Guarded? {
      NodeRuns(env, protos, c.node, o, m);
      NestedChildRuns(env, protos, c, o, m);
    } else {
      ShownNothing(m);
    }
  }

  lemma NestedChildRuns(env: Env, protos: seq<Declaration>, c: Child, o: Output, m: Machine)
    requires (c.Nested? || c.Guarded?) && CompileNode(c.node, o).Ok? && Accepts(m)
    requires ExecAll(env, protos, CompileNode(c.node, o).value.code, m) == Some(Shown(m, MeanNode(env, c.node, m.tick)))
    ensures Exec(env, protos, TransformChild(c, o).value.code, m) == Some(Shown(m, MeanChild(env, c, m.tick)))
  {
    var code := CompileNode(c.node, o).value.code;
    ShownNothing(m);
    MergingKeepsMeaning(env, protos, code, m);
    if c.Guarded? { TruthyCallRuns(env, protos, c.condition, code, m); }
  }

  lemma TruthyCallRuns(env: Env, protos: seq<Declaration>, condition: Expr, code: seq<Stmt>, m: Machine)
    ensures Exec(env, protos, IfTruthyCall(condition, BlockBody([MergeStatements(code)])), m)
         == if env.truthy(condition) then ExecAll(env, protos, code, m) else Some(m)
  {
    MergingKeepsMeaning(env, protos, code, m);
  }

  lemma {:induction false} EachRuns(env: Env, protos: seq<Declaration>, cs: seq<Child>, o: Output, m: Machine)
    requires TransformEach(cs, o).Ok? && EverywhereBelow(HasValidAttributes, cs) && Accepts(m)
    requires Declares(protos, TransformEach(cs, o).value.output)
    ensures ExecAll(env, protos, TransformEach(cs, o).value.code, m) == Some(Shown(m, MeanChildren(env, cs, m.tick)))
    decreases ChildrenSize(cs), 1
  {
    if cs == [] {
      ShownNothing(m);
    } else {
      var first := TransformChild(cs[0], o).value;
      var rest := TransformEach(cs[1..], first.output).value;
      var meant := MeanChild(env, cs[0], m.tick);
      ChildRuns(env, protos, cs[0], o, m);
      ShownTwice(m, meant, MeanChildren(env, cs[1..], meant.tick));
      EachRuns(env, protos, cs[1..], first.output, Shown(m, meant));
      ExecThen(env, protos, first.code, rest.code, m);
    }
  }

  lemma {:induction false} ChildrenRun(env: Env, protos: seq<Declaration>, cs: seq<Child>, o: Output, m: Machine)
    requires CompileChildren(cs, o).Ok? && EverywhereBelow(HasValidAttributes, cs) && Accepts(m)
    requires Declares(protos, CompileChildren(cs, o).value.output)
    ensures ExecAll(env, protos, CompileChildren(cs, o).value.code, m) == Some(Shown(m, MeanChildren(env, cs, m.tick)))
    decreases ChildrenSize(cs), 2
  {
    WithoutTextSize(cs);
    TextMeansNothing(env, cs, m.tick);
    EverywhereKept(HasValidAttributes, cs);
    var statements := TransformEach(WithoutText(cs), o).value;
    EachRuns(env, protos, WithoutText(cs), o, m);
    FlatteningKeepsMeaning(env, protos, NoBlocks(|statements.code|), statements.code, m);
  }
}
