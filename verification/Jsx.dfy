/** The compiler from JSX trees to renderer calls (JSXProcessor.ts). Expressions of the host
    program are opaque numbers; the kind of each tag is already resolved. */
module Jsx {
  import opened Wrappers

  type Expr = nat

  // ----- source -----

  /** `UndefinedValue` is the identifier `undefined`, which only a component's context looks for. */
  datatype AttributeKind = DynamicValue | StaticValue | Spread | UndefinedValue

  /** A spread has no name. */
  datatype Attribute = Attribute(name: Option<string>, kind: AttributeKind, value: Expr)

  datatype NodeKind = ElementKind | ComponentKind | FunctionKind | SlotKind

  datatype Node = Node(kind: NodeKind, tag: string, attributes: seq<Attribute>, children: seq<Child>)

  datatype Child =
    | Nested(node: Node)
    | Text(blank: bool)
    | EmptyExpression
      /** `{code}`: a statement of the host program. */
    | Code(code: Expr)
      /** `{condition && <node/>}` */
    | Guarded(condition: Expr, node: Node)
      /** `<slotted>`, which only components understand. */
    | Slotted(attributes: seq<Attribute>, children: seq<Child>)

  datatype Error =
    | TextNotSupported | SlotAttribute | SlottedOutsideComponent | SlottedAttributes | MixedSlots | ScatteredDefaultSlot
    | UnsupportedSlotAttribute | ChildrenInSlot | UnsupportedFunctionAttribute

  function NodeSize(n: Node): nat
    decreases n
  {
    1 + ChildrenSize(n.children)
  }

  function ChildSize(c: Child): nat
    decreases c
  {
    match c
    case Nested(n) => 1 + NodeSize(n)
    case Guarded(_, n) => 1 + NodeSize(n)
    case Slotted(_, cs) => 1 + ChildrenSize(cs)
    case _ => 1
  }

  function ChildrenSize(cs: seq<Child>): nat
    decreases cs
  {
    if cs == [] then 0 else ChildSize(cs[0]) + ChildrenSize(cs[1..])
  }

  lemma ChildrenSizeConcat(a: seq<Child>, b: seq<Child>)
    ensures ChildrenSize(a + b) == ChildrenSize(a) + ChildrenSize(b)
  {
    if a == [] {
      assert a + b == b;
    } else {
      assert (a + b)[1..] == a[1..] + b;
      ChildrenSizeConcat(a[1..], b);
    }
  }

  // ----- target -----

  /** What is declared once per node: its class, and the attributes that never change. */
  datatype Prototype = Prototype(tag: Option<string>, statics: seq<Attribute>)

  datatype Declaration = Declaration(name: string, prototype: Prototype)

  datatype Stmt =
    | BeginRender(prototype: string, key: Option<Expr>)
    | IfBeginRenderNeeded(prototype: string, key: Option<Expr>, body: seq<Stmt>)
    | EndRender
    | SetAttributeRef(value: Expr)
    | SetAttribute(name: string, value: Expr)
    | SetAttributes(value: Expr)
    | BeginComponent(tag: string, prototype: string, key: Option<Expr>, ref: Option<Expr>)
    | SetContextIfUnset(value: Expr)
    | SetViewModelProperty(name: string, value: Expr)
    | SetViewModelProperties(value: Expr)
    | SetInjectedAttribute(name: string, value: Expr)
    | SetNamedSlot(slot: Expr, body: seq<Stmt>)
    | SetUnnamedSlot(body: seq<Stmt>)
    | EndComponent
    | RenderSlot(slotName: Option<Expr>, ref: Option<Expr>, key: Option<Expr>)
      /** The view model's attributes in source order, and a function for the children, if any. */
    | RenderFunction(tag: string, attributes: seq<Attribute>, hasChildren: bool, children: seq<Stmt>)
    | RunCode(code: Expr)
    | IfTruthyCall(condition: Expr, body: seq<Stmt>)
    | EmptyStatement
    | Block(statements: seq<Stmt>)

  // ----- attributes -----

  /** The last value of an attribute name. */
  function ValueOf(attributes: seq<Attribute>, name: string): Option<Expr> {
    if attributes == [] then None
    else
      var last := attributes[|attributes| - 1];
      if last.name == Some(name) then Some(last.value) else ValueOf(attributes[..|attributes| - 1], name)
  }

  function ContextAttribute(attributes: seq<Attribute>): Option<Attribute> {
    if attributes == [] then None
    else
      var last := attributes[|attributes| - 1];
      if last.name == Some("context") then Some(last) else ContextAttribute(attributes[..|attributes| - 1])
  }

  /** The context a component is given; `context={undefined}` gives it none. */
  function ContextOf(attributes: seq<Attribute>): Option<Expr> {
    var context := ContextAttribute(attributes);
    if context.None? || context.value.kind.UndefinedValue? then None else Some(context.value.value)
  }

  /** Attributes that do not reach the attribute or view model calls. */
  predicate IsReserved(name: Option<string>, kind: NodeKind) {
    name == Some("slot") || name == Some("key") || name == Some("ref") || (name == Some("context") && kind.ComponentKind?)
  }

  predicate IsInjected(name: Option<string>, kind: NodeKind) {
    kind.ComponentKind? && name.Some? && |name.value| > 0 && name.value[0] == '$'
  }

  /** The attributes that reach the calls, in source order. */
  function Ordinary(attributes: seq<Attribute>, kind: NodeKind): seq<Attribute> {
    if attributes == [] then []
    else
      var a := attributes[|attributes| - 1];
      var before := Ordinary(attributes[..|attributes| - 1], kind);
      if IsReserved(a.name, kind) then before else before + [a]
  }

  datatype Split = Split(statics: seq<Attribute>, dynamics: seq<Attribute>, injected: seq<Attribute>, foundSpread: bool)

  /** Static attributes before the first spread go to the prototype; injected ones apart. */
  function Sorted(ordinary: seq<Attribute>, kind: NodeKind): Split {
    if ordinary == [] then Split([], [], [], false)
    else
      var s := Sorted(ordinary[..|ordinary| - 1], kind);
      var a := ordinary[|ordinary| - 1];
      if a.kind.Spread? then s.(dynamics := s.dynamics + [a], foundSpread := true)
      else if IsInjected(a.name, kind) then s.(injected := s.injected + [a])
      else if a.kind.StaticValue? && !s.foundSpread then s.(statics := s.statics + [a])
      else s.(dynamics := s.dynamics + [a])
  }

  function SplitOf(n: Node): Split {
    Sorted(Ordinary(n.attributes, n.kind), n.kind)
  }

  predicate IsLazy(n: Node) {
    exists i :: 0 <= i < |n.attributes| && n.attributes[i].name == Some("lazy")
  }

  function AttributeCalls(dynamics: seq<Attribute>): seq<Stmt> {
    if dynamics == [] then []
    else
      var a := dynamics[|dynamics| - 1];
      AttributeCalls(dynamics[..|dynamics| - 1])
      + [if a.name.None? then SetAttributes(a.value) else SetAttribute(a.name.value, a.value)]
  }

  function ViewModelCalls(dynamics: seq<Attribute>): seq<Stmt> {
    if dynamics == [] then []
    else
      var a := dynamics[|dynamics| - 1];
      ViewModelCalls(dynamics[..|dynamics| - 1])
      + [if a.name.None? then SetViewModelProperties(a.value) else SetViewModelProperty(a.name.value, a.value)]
  }

  function InjectedCalls(injected: seq<Attribute>): seq<Stmt> {
    if injected == [] then []
    else
      var a := injected[|injected| - 1];
      InjectedCalls(injected[..|injected| - 1])
      + if a.name.Some? then [SetInjectedAttribute(a.name.value, a.value)] else []
  }

  // ----- identifiers -----

  datatype Output = Output(declarations: seq<Declaration>, sequence: map<string, nat>)

  predicate IsAlphaNum(c: char) {
    '0' <= c <= '9' || 'A' <= c <= 'Z' || 'a' <= c <= 'z'
  }

  function OnlyAlphaNum(s: string): string {
    if s == "" then "" else (if IsAlphaNum(s[0]) then [s[0]] else "") + OnlyAlphaNum(s[1..])
  }

  function ToUpper(c: char): char {
    if 'a' <= c <= 'z' then c - 'a' + 'A' else c
  }

  function ToPascalCase(key: string): string {
    var s := OnlyAlphaNum(key);
    if s == "" then "" else [ToUpper(s[0])] + s[1..]
  }

  function Decimal(n: nat): string {
    if n < 10 then [('0' as int + n) as char] else Decimal(n / 10) + [('0' as int + n % 10) as char]
  }

  function Count(o: Output, prefix: string): nat {
    if prefix in o.sequence then o.sequence[prefix] else 0
  }

  function MakeIdentifier(prefix: string, tag: string, o: Output): (string, Output) {
    var readable := prefix + ToPascalCase(tag);
    var next := Count(o, readable) + 1;
    (readable + Decimal(next), o.(sequence := o.sequence[readable := next]))
  }

  /** A fresh constant for the prototype. */
  function Declare(prefix: string, tag: string, prototype: Prototype, o: Output): (string, Output) {
    var (name, o') := MakeIdentifier(prefix, tag, o);
    (name, o'.(declarations := o'.declarations + [Declaration(name, prototype)]))
  }

  // ----- statements -----

  function MergeStatements(statements: seq<Stmt>): Stmt {
    if statements == [] then EmptyStatement
    else if |statements| == 1 && statements[0].Block? then statements[0]
    else Block(statements)
  }

  /** Blocks that the compiler made are merged into the list; `wasBlock` are the source's own. */
  function FlattenBlocks(wasBlock: seq<bool>, statements: seq<Stmt>): seq<Stmt>
    requires |wasBlock| == |statements|
  {
    if statements == [] then []
    else
      var last := |statements| - 1;
      FlattenBlocks(wasBlock[..last], statements[..last])
      + if statements[last].Block? && !wasBlock[last] then statements[last].statements else [statements[last]]
  }

  function NoBlocks(n: nat): seq<bool> {
    seq(n, _ => false)
  }

  // ----- slots -----

  /** The children that go to one slot; `None` is the unnamed slot. */
  datatype Group = Group(name: Option<Expr>, children: seq<Child>)

  datatype Grouped = Grouped(groups: seq<Group>, hasExplicit: bool, hasImplicit: bool)

  function FirstUnnamed(groups: seq<Group>): Option<nat> {
    if groups == [] then None
    else
      var earlier := FirstUnnamed(groups[..|groups| - 1]);
      if earlier.Some? then earlier
      else if groups[|groups| - 1].name.None? then Some(|groups| - 1) else None
  }

  function InsertUnnamed(groups: seq<Group>, children: seq<Child>): Result<seq<Group>, Error> {
    var at := FirstUnnamed(groups);
    if at.None? then Ok(groups + [Group(None, children)])
    else if at.value >= |groups| || at.value != |groups| - 1 then Err(ScatteredDefaultSlot)
    else Ok(groups[at.value := Group(None, groups[at.value].children + children)])
  }

  function SlotName(attributes: seq<Attribute>): Result<Option<Expr>, Error> {
    if attributes == [] then Ok(None)
    else if |attributes| > 1 || attributes[0].name != Some("slot") then Err(SlottedAttributes)
    else Ok(Some(attributes[0].value))
  }

  /** One more child of a component. */
  function AddChild(g: Grouped, c: Child): Result<Grouped, Error> {
    match c
    case EmptyExpression => Ok(g)
    case Text(blank) => if blank then Ok(g) else Err(TextNotSupported)
    case Slotted(attributes, cs) =>
      var name :- SlotName(attributes);
      var groups :- if name.Some? then Ok(g.groups + [Group(name, cs)]) else InsertUnnamed(g.groups, cs);
      if g.hasImplicit then Err(MixedSlots) else Ok(Grouped(groups, true, false))
    case _ =>
      var groups :- InsertUnnamed(g.groups, [c]);
      if g.hasExplicit then Err(MixedSlots) else Ok(Grouped(groups, false, true))
  }

  function GroupSlots(children: seq<Child>): Result<Grouped, Error> {
    if children == [] then Ok(Grouped([], false, false))
    else
      var g :- GroupSlots(children[..|children| - 1]);
      AddChild(g, children[|children| - 1])
  }

  function GroupsSize(groups: seq<Group>): nat {
    if groups == [] then 0 else GroupsSize(groups[..|groups| - 1]) + ChildrenSize(groups[|groups| - 1].children)
  }

  lemma GroupsSizeAppend(groups: seq<Group>, g: Group)
    ensures GroupsSize(groups + [g]) == GroupsSize(groups) + ChildrenSize(g.children)
  {
    assert (groups + [g])[..|groups|] == groups;
  }

  lemma InsertUnnamedSize(groups: seq<Group>, children: seq<Child>)
    ensures InsertUnnamed(groups, children).Ok? ==>
              GroupsSize(InsertUnnamed(groups, children).value) == GroupsSize(groups) + ChildrenSize(children)
  {
    var at := FirstUnnamed(groups);
    if at.None? {
      GroupsSizeAppend(groups, Group(None, children));
    } else if at.value == |groups| - 1 {
      var front, last := groups[..|groups| - 1], groups[|groups| - 1];
      ChildrenSizeConcat(last.children, children);
      assert groups[at.value := Group(None, last.children + children)] == front + [Group(None, last.children + children)];
      assert groups == front + [last];
      GroupsSizeAppend(front, last);
      GroupsSizeAppend(front, Group(None, last.children + children));
    }
  }

  lemma AddChildSize(g: Grouped, c: Child)
    ensures AddChild(g, c).Ok? ==> GroupsSize(AddChild(g, c).value.groups) <= GroupsSize(g.groups) + ChildrenSize([c])
  {
    assert [c][1..] == [];
    match c
    case Slotted(_, cs) =>
      InsertUnnamedSize(g.groups, cs);
      if SlotName(c.attributes).Ok? { GroupsSizeAppend(g.groups, Group(SlotName(c.attributes).value, cs)); }
    case _ =>
      InsertUnnamedSize(g.groups, [c]);
  }

  lemma {:induction false} GroupSlotsSize(children: seq<Child>)
    ensures GroupSlots(children).Ok? ==> GroupsSize(GroupSlots(children).value.groups) <= ChildrenSize(children)
    decreases |children|
  {
    if children != [] {
      var front, c := children[..|children| - 1], children[|children| - 1];
      assert children == front + [c];
      ChildrenSizeConcat(front, [c]);
      GroupSlotsSize(front);
      if GroupSlots(front).Ok? { AddChildSize(GroupSlots(front).value, c); }
    }
  }

  /** What a slot's function renders: everything but white space and empty expressions. */
  function Visible(children: seq<Child>): seq<Child> {
    if children == [] then []
    else if children[0].EmptyExpression? || children[0].Text? then Visible(children[1..])
    else [children[0]] + Visible(children[1..])
  }

  lemma VisibleSize(children: seq<Child>)
    ensures ChildrenSize(Visible(children)) <= ChildrenSize(children)
  {
    if children != [] {
      VisibleSize(children[1..]);
      if !(children[0].EmptyExpression? || children[0].Text?) {
        assert Visible(children)[1..] == Visible(children[1..]);
      }
    }
  }

  predicate HasInk(children: seq<Child>) {
    exists i :: 0 <= i < |children| && children[i] == Text(false)
  }

  // ----- the compiler -----

  datatype Compiled<T> = Compiled(code: T, output: Output)

  function CompileNode(n: Node, o: Output): (r: Result<Compiled<seq<Stmt>>, Error>)
    ensures r.Ok? ==> o.declarations <= r.value.output.declarations
    decreases NodeSize(n), 1
  {
    if ValueOf(n.attributes, "slot").Some? then Err(SlotAttribute)
    else
      match n.kind
      case ElementKind => CompileElement(n, o)
      case ComponentKind => CompileComponent(n, o)
      case FunctionKind => CompileFunction(n, o)
      case SlotKind => CompileSlot(n, o)
  }

  function CompileElement(n: Node, o: Output): (r: Result<Compiled<seq<Stmt>>, Error>)
    ensures r.Ok? ==> o.declarations <= r.value.output.declarations
    decreases NodeSize(n), 0
  {
    var split, key, ref := SplitOf(n), ValueOf(n.attributes, "key"), ValueOf(n.attributes, "ref");
    var (id, o1) := Declare("__node", n.tag, Prototype(Some(n.tag), split.statics), o);
    var inner :- CompileChildren(n.children, o1);
    var body := (if ref.Some? then [SetAttributeRef(ref.value)] else [])
                + AttributeCalls(split.dynamics) + inner.code + [EndRender];
    Ok(Compiled(if IsLazy(n) then [IfBeginRenderNeeded(id, key, body)] else [BeginRender(id, key)] + body, inner.output))
  }

  function CompileComponent(n: Node, o: Output): (r: Result<Compiled<seq<Stmt>>, Error>)
    ensures r.Ok? ==> o.declarations <= r.value.output.declarations
    decreases NodeSize(n), 0
  {
    var split, context := SplitOf(n), ContextOf(n.attributes);
    var (id, o1) := Declare("__component", n.tag, Prototype(None, split.statics), o);
    var grouped :- GroupSlots(n.children);
    GroupSlotsSize(n.children);
    var slots :- CompileGroups(grouped.groups, o1);
    Ok(Compiled([BeginComponent(n.tag, id, ValueOf(n.attributes, "key"), ValueOf(n.attributes, "ref"))]
                + (if context.Some? then [SetContextIfUnset(context.value)] else [])
                + ViewModelCalls(split.dynamics) + InjectedCalls(split.injected) + slots.code + [EndComponent], slots.output))
  }

  function CompileFunction(n: Node, o: Output): (r: Result<Compiled<seq<Stmt>>, Error>)
    ensures r.Ok? ==> o.declarations <= r.value.output.declarations
    decreases NodeSize(n), 0
  {
    if ValueOf(n.attributes, "key").Some? || ValueOf(n.attributes, "ref").Some? || IsLazy(n) then Err(UnsupportedFunctionAttribute)
    else if HasInk(n.children) then Err(TextNotSupported)
    else
      VisibleSize(n.children);
      var nodes :- TransformEach(Visible(n.children), o);
      Ok(Compiled([RenderFunction(n.tag, Ordinary(n.attributes, n.kind), nodes.code != [], BlockBody(nodes.code))], nodes.output))
  }

  /** The statements of a function body; a single block is the body itself. */
  function BlockBody(statements: seq<Stmt>): seq<Stmt> {
    if |statements| == 1 && statements[0].Block? then statements[0].statements else statements
  }

  function CompileSlot(n: Node, o: Output): (r: Result<Compiled<seq<Stmt>>, Error>)
    ensures r.Ok? ==> o.declarations <= r.value.output.declarations
  {
    if exists i :: 0 <= i < |n.attributes| &&
                   n.attributes[i].name !in {Some("name"), Some("ref"), Some("key")} then Err(UnsupportedSlotAttribute)
    else if n.children != [] then Err(ChildrenInSlot)
    else
      Ok(Compiled([RenderSlot(ValueOf(n.attributes, "name"), ValueOf(n.attributes, "ref"), ValueOf(n.attributes, "key"))], o))
  }

  /** One child as one statement; text is dropped before. */
  function TransformChild(c: Child, o: Output): (r: Result<Compiled<Stmt>, Error>)
    ensures r.Ok? ==> o.declarations <= r.value.output.declarations
    decreases ChildSize(c), 0
  {
    match c
    case Nested(n) =>
      var node :- CompileNode(n, o);
      Ok(Compiled(MergeStatements(node.code), node.output))
    case Guarded(condition, n) =>
      var node :- CompileNode(n, o);
      Ok(Compiled(IfTruthyCall(condition, BlockBody([MergeStatements(node.code)])), node.output))
    case Code(code) => Ok(Compiled(RunCode(code), o))
    case EmptyExpression => Ok(Compiled(EmptyStatement, o))
    case Text(_) => Ok(Compiled(EmptyStatement, o))
    case Slotted(_, _) => Err(SlottedOutsideComponent)
  }

  function TransformEach(cs: seq<Child>, o: Output): (r: Result<Compiled<seq<Stmt>>, Error>)
    ensures r.Ok? ==> o.declarations <= r.value.output.declarations
    decreases ChildrenSize(cs), 1
  {
    if cs == [] then Ok(Compiled([], o))
    else
      var first :- TransformChild(cs[0], o);
      var rest :- TransformEach(cs[1..], first.output);
      Ok(Compiled([first.code] + rest.code, rest.output))
  }

  function WithoutText(cs: seq<Child>): seq<Child> {
    if cs == [] then [] else if cs[0].Text? then WithoutText(cs[1..]) else [cs[0]] + WithoutText(cs[1..])
  }

  lemma WithoutTextSize(children: seq<Child>)
    ensures ChildrenSize(WithoutText(children)) <= ChildrenSize(children)
  {
    if children != [] {
      WithoutTextSize(children[1..]);
      if !children[0].Text? {
        assert WithoutText(children)[1..] == WithoutText(children[1..]);
      }
    }
  }

  function CompileChildren(cs: seq<Child>, o: Output): (r: Result<Compiled<seq<Stmt>>, Error>)
    ensures r.Ok? ==> o.declarations <= r.value.output.declarations
    decreases ChildrenSize(cs), 2
  {
    if HasInk(cs) then Err(TextNotSupported)
    else
      WithoutTextSize(cs);
      var statements :- TransformEach(WithoutText(cs), o);
      Ok(Compiled(FlattenBlocks(NoBlocks(|statements.code|), statements.code), statements.output))
  }

  function CompileGroups(groups: seq<Group>, o: Output): (r: Result<Compiled<seq<Stmt>>, Error>)
    ensures r.Ok? ==> o.declarations <= r.value.output.declarations
    decreases GroupsSize(groups), 3, |groups|
  {
    if groups == [] then Ok(Compiled([], o))
    else
      var front :- CompileGroups(groups[..|groups| - 1], o);
      var g := groups[|groups| - 1];
      VisibleSize(g.children);
      if HasInk(g.children) then Err(TextNotSupported)
      else
        var body :- CompileChildren(Visible(g.children), front.output);
        Ok(Compiled(front.code + [if g.name.Some? then SetNamedSlot(g.name.value, BlockBody(body.code))
                                  else SetUnnamedSlot(BlockBody(body.code))], body.output))
  }
}
