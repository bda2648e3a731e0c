/** What JSX trees mean and what renderer calls do. The renderer is a stack machine: begin calls
    push a node, setters update the top, end calls pop it and attach it to what is below. */
module JsxRuntime {
  import opened Wrappers
  import opened Jsx

  type Value = int

  type Attributes = map<string, Value>

  /** `valueOf` and `spreadOf` give host expressions their values; `needed` answers the n-th
      question whether a lazy element has to be rendered again. */
  datatype Env = Env(valueOf: Expr -> Value, spreadOf: Expr -> Attributes, truthy: Expr -> bool, needed: nat -> bool)

  /** A slot is represented by what its function renders. */
  datatype Rendered =
    | Element(tag: string, key: Option<Expr>, ref: Option<Expr>, attributes: Attributes, children: seq<Rendered>)
    | Untouched(elementTag: string, elementKey: Option<Expr>)
    | Component(componentClass: string, componentKey: Option<Expr>, componentRef: Option<Expr>, context: Option<Expr>,
                viewModel: Attributes, injected: Attributes, slots: Slots)
    | SlotOutlet(slotName: Option<Expr>, slotRef: Option<Expr>, slotKey: Option<Expr>)
    | FunctionCall(renderFunction: string, properties: Attributes, content: Option<seq<Rendered>>)
    | Hosted(code: Expr)

  datatype Slots = Slots(named: map<Value, seq<Rendered>>, unnamed: Option<seq<Rendered>>)

  const NO_SLOTS := Slots(map[], None)

  // ----- the meaning of source trees -----

  datatype Meant<T> = Meant(value: T, tick: nat)

  /** Attributes from left to right; later ones win. */
  function Apply(env: Env, attributes: seq<Attribute>, base: Attributes): Attributes {
    if attributes == [] then base
    else
      var a := attributes[|attributes| - 1];
      var before := Apply(env, attributes[..|attributes| - 1], base);
      if a.name.Some? then before[a.name.value := env.valueOf(a.value)] else before + env.spreadOf(a.value)
  }

  function Uninjected(attributes: seq<Attribute>, kind: NodeKind): seq<Attribute> {
    if attributes == [] then []
    else
      var a := attributes[|attributes| - 1];
      var before := Uninjected(attributes[..|attributes| - 1], kind);
      if !a.kind.Spread? && IsInjected(a.name, kind) then before else before + [a]
  }

  function Injected(attributes: seq<Attribute>, kind: NodeKind): seq<Attribute> {
    if attributes == [] then []
    else
      var a := attributes[|attributes| - 1];
      var before := Injected(attributes[..|attributes| - 1], kind);
      if !a.kind.Spread? && IsInjected(a.name, kind) then before + [a] else before
  }

  function MeanNode(env: Env, n: Node, tick: nat): Meant<seq<Rendered>>
    decreases NodeSize(n), 1
  {
    var key, ref := ValueOf(n.attributes, "key"), ValueOf(n.attributes, "ref");
    var ordinary := Ordinary(n.attributes, n.kind);
    match n.kind
    case ElementKind =>
      if IsLazy(n) && !env.needed(tick) then Meant([Untouched(n.tag, key)], tick + 1)
      else
        var children := MeanChildren(env, n.children, if IsLazy(n) then tick + 1 else tick);
        Meant([Element(n.tag, key, ref, Apply(env, ordinary, map[]), children.value)], children.tick)
    case ComponentKind =>
      var slots := MeanSlots(env, n.children, tick);
      Meant([Component(n.tag, key, ref, ContextOf(n.attributes),
                       Apply(env, Uninjected(ordinary, n.kind), map[]), Apply(env, Injected(ordinary, n.kind), map[]), slots.value)],
            slots.tick)
    case FunctionKind =>
      var children := MeanChildren(env, n.children, tick);
      Meant([FunctionCall(n.tag, Apply(env, ordinary, map[]),
                          if Visible(n.children) == [] then None else Some(children.value))], children.tick)
    case SlotKind => Meant([SlotOutlet(ValueOf(n.attributes, "name"), ref, key)], tick)
  }

  function MeanChild(env: Env, c: Child, tick: nat): Meant<seq<Rendered>>
    decreases ChildSize(c), 0
  {
    match c
    case Nested(n) => MeanNode(env, n, tick)
    case Guarded(condition, n) => if env.truthy(condition) then MeanNode(env, n, tick) else Meant([], tick)
    case Code(code) => Meant([Hosted(code)], tick)
    case _ => Meant([], tick)
  }

  function MeanChildren(env: Env, cs: seq<Child>, tick: nat): Meant<seq<Rendered>>
    decreases ChildrenSize(cs), 1
  {
    if cs == [] then Meant([], tick)
    else
      var first := MeanChild(env, cs[0], tick);
      var rest := MeanChildren(env, cs[1..], first.tick);
      Meant(first.value + rest.value, rest.tick)
  }

  /** A component's children in source order: each fills the slot it names, and whatever names
      none is added to the unnamed slot. */
  function MeanSlots(env: Env, cs: seq<Child>, tick: nat): Meant<Slots>
    decreases ChildrenSize(cs), 2, |cs|
  {
    if cs == [] then Meant(NO_SLOTS, tick)
    else
      assert cs == cs[..|cs| - 1] + [cs[|cs| - 1]] && [cs[|cs| - 1]][1..] == [];
      ChildrenSizeConcat(cs[..|cs| - 1], [cs[|cs| - 1]]);
      var before := MeanSlots(env, cs[..|cs| - 1], tick);
      var c := cs[|cs| - 1];
      match c
      case EmptyExpression => before
      case Text(_) => before
      case Slotted(attributes, inner) =>
        var content := MeanChildren(env, inner, before.tick);
        if ValueOf(attributes, "slot").Some? then
          Meant(before.value.(named := before.value.named[env.valueOf(ValueOf(attributes, "slot").value) := content.value]), content.tick)
        else AddUnnamed(before.value, content)
      case _ => AddUnnamed(before.value, MeanChild(env, c, before.tick))
  }

  function AddUnnamed(slots: Slots, content: Meant<seq<Rendered>>): Meant<Slots> {
    Meant(slots.(unnamed := Some((if slots.unnamed.Some? then slots.unnamed.value else []) + content.value)), content.tick)
  }

  // ----- the renderer -----

  /** `stack` are the open nodes, outermost first; `out` is what is rendered outside them. */
  datatype Machine = Machine(stack: seq<Rendered>, out: seq<Rendered>, tick: nat)

  function Top(m: Machine): Rendered
    requires m.stack != []
  {
    m.stack[|m.stack| - 1]
  }

  function WithTop(m: Machine, r: Rendered): Machine
    requires m.stack != []
  {
    m.(stack := m.stack[|m.stack| - 1 := r])
  }

  function Push(m: Machine, r: Rendered): Machine {
    m.(stack := m.stack + [r])
  }

  /** Nodes may be rendered into an element or outside every open node, not into a component. */
  predicate Accepts(m: Machine) {
    m.stack != [] ==> Top(m).Element?
  }

  function Append(m: Machine, rs: seq<Rendered>): Machine
    requires Accepts(m)
  {
    if m.stack == [] then m.(out := m.out + rs) else WithTop(m, Top(m).(children := Top(m).children + rs))
  }

  /** Closes the top node. */
  function Pop(m: Machine): Option<Machine>
    requires m.stack != []
  {
    var below := m.(stack := m.stack[..|m.stack| - 1]);
    if Accepts(below) then Some(Append(below, [Top(m)])) else None
  }

  function Lookup(protos: seq<Declaration>, name: string): Option<Prototype> {
    if protos == [] then None
    else if protos[0].name == name then Some(protos[0].prototype) else Lookup(protos[1..], name)
  }

  /** Runs one call; `None` is a call that the renderer has no place for. */
  function Exec(env: Env, protos: seq<Declaration>, s: Stmt, m: Machine): Option<Machine>
    decreases s
  {
    match s
    case BeginRender(id, key) =>
      var proto := Lookup(protos, id);
      if proto.Some? && proto.value.tag.Some? then
        Some(Push(m, Element(proto.value.tag.value, key, None, Apply(env, proto.value.statics, map[]), [])))
      else None
    case IfBeginRenderNeeded(id, key, body) =>
      var proto := Lookup(protos, id);
      var asked := m.(tick := m.tick + 1);
      if proto.None? || proto.value.tag.None? then None
      else if env.needed(m.tick) then
        ExecAll(env, protos, body,
                Push(asked, Element(proto.value.tag.value, key, None, Apply(env, proto.value.statics, map[]), [])))
      else if Accepts(m) then Some(Append(asked, [Untouched(proto.value.tag.value, key)])) else None
    case EndRender => if m.stack != [] && Top(m).Element? then Pop(m) else None
    case SetAttributeRef(e) => if m.stack != [] && Top(m).Element? then Some(WithTop(m, Top(m).(ref := Some(e)))) else None
    case SetAttribute(name, e) =>
      if m.stack != [] && Top(m).Element? then
        Some(WithTop(m, Top(m).(attributes := Top(m).attributes[name := env.valueOf(e)])))
      else None
    case SetAttributes(e) =>
      if m.stack != [] && Top(m).Element? then
        Some(WithTop(m, Top(m).(attributes := Top(m).attributes + env.spreadOf(e))))
      else None
    case BeginComponent(tag, id, key, ref) =>
      var proto := Lookup(protos, id);
      if proto.Some? then
        Some(Push(m, Component(tag, key, ref, None, Apply(env, proto.value.statics, map[]), map[], NO_SLOTS)))
      else None
    case SetContextIfUnset(e) =>
      if m.stack != [] && Top(m).Component? then
        Some(if Top(m).context.None? then WithTop(m, Top(m).(context := Some(e))) else m)
      else None
    case SetViewModelProperty(name, e) =>
      if m.stack != [] && Top(m).Component? then
        Some(WithTop(m, Top(m).(viewModel := Top(m).viewModel[name := env.valueOf(e)])))
      else None
    case SetViewModelProperties(e) =>
      if m.stack != [] && Top(m).Component? then
        Some(WithTop(m, Top(m).(viewModel := Top(m).viewModel + env.spreadOf(e))))
      else None
    case SetInjectedAttribute(name, e) =>
      if m.stack != [] && Top(m).Component? then
        Some(WithTop(m, Top(m).(injected := Top(m).injected[name := env.valueOf(e)])))
      else None
    case SetNamedSlot(slot, body) =>
      if m.stack != [] && Top(m).Component? then
        var run := ExecAll(env, protos, body, Machine([], [], m.tick));
        if run.None? then None
        else
          var slots := Top(m).slots;
          Some(WithTop(m, Top(m).(slots := slots.(named := slots.named[env.valueOf(slot) := run.value.out])))
               .(tick := run.value.tick))
      else None
    case SetUnnamedSlot(body) =>
      if m.stack != [] && Top(m).Component? then
        var run := ExecAll(env, protos, body, Machine([], [], m.tick));
        if run.None? then None
        else
          Some(WithTop(m, Top(m).(slots := Top(m).slots.(unnamed := Some(run.value.out)))).(tick := run.value.tick))
      else None
    case EndComponent => if m.stack != [] && Top(m).Component? then Pop(m) else None
    case RenderSlot(slotName, ref, key) => if Accepts(m) then Some(Append(m, [SlotOutlet(slotName, ref, key)])) else None
    case RenderFunction(tag, attributes, hasChildren, body) =>
      var run := ExecAll(env, protos, body, Machine([], [], m.tick));
      if run.None? || !Accepts(m) then None
      else
        var content := if hasChildren then Some(run.value.out) else None;
        Some(Append(m, [FunctionCall(tag, Apply(env, attributes, map[]), content)]).(tick := run.value.tick))
    case RunCode(code) => if Accepts(m) then Some(Append(m, [Hosted(code)])) else None
    case IfTruthyCall(condition, body) => if env.truthy(condition) then ExecAll(env, protos, body, m) else Some(m)
    case EmptyStatement => Some(m)
    case Block(body) => ExecAll(env, protos, body, m)
  }

  function ExecAll(env: Env, protos: seq<Declaration>, ss: seq<Stmt>, m: Machine): Option<Machine>
    decreases ss
  {
    if ss == [] then Some(m)
    else
      var next := Exec(env, protos, ss[0], m);
      if next.None? then None else ExecAll(env, protos, ss[1..], next.value)
  }

  // ----- whole programs -----

  predicate NamesDistinct(protos: seq<Declaration>) {
    forall i, j :: 0 <= i < j < |protos| ==> protos[i].name != protos[j].name
  }

  /** The prototypes are constants at the head of the file: two with one name, and it does not load. */
  function RunFile(env: Env, compiled: Compiled<seq<Stmt>>, m: Machine): Option<Machine> {
    if NamesDistinct(compiled.output.declarations) then ExecAll(env, compiled.output.declarations, compiled.code, m) else None
  }
}
