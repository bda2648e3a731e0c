/** The processor object: it numbers and collects prototypes while it builds statement lists. */
module JsxProcessor {
  import opened Wrappers
  import opened Jsx
  import opened JsxIdentifiers
  import opened JsxProofs
  import opened JsxRuntime

  class JsxProcessor {
    var nodePrototypeDeclarations: seq<Declaration>
    var idSequence: map<string, nat>

    constructor ()
      ensures Current() == Output([], map[])
    {
      nodePrototypeDeclarations := [];
      idSequence := map[];
    }

    function Current(): Output
      reads this
    {
      Output(nodePrototypeDeclarations, idSequence)
    }

    /** The prefix gets its next number, no other prefix does, and every number up to the count stays
        declared once. The prototype is found under the name as long as no other identifier is spelled
        like it; and what was declared before stays declared. */
    method AppendInitializedVariable(prefix: string, tag: string, prototype: Prototype) returns (name: string)
      modifies this
      ensures (name, Current()) == Declare(prefix, tag, prototype, old(Current()))
      ensures name == NameOf(Origin(prefix + ToPascalCase(tag), Count(Current(), prefix + ToPascalCase(tag))))
      ensures forall q :: Count(Current(), q) == Count(old(Current()), q) + if q == prefix + ToPascalCase(tag) then 1 else 0
      ensures IsNumbered(old(Current())) ==> IsNumbered(Current())
      ensures NamesDistinct(nodePrototypeDeclarations) ==> Lookup(nodePrototypeDeclarations, name) == Some(prototype)
      ensures old(nodePrototypeDeclarations) <= nodePrototypeDeclarations
    {
      ghost var before := Current();
      if IsNumbered(before) { DeclareNumbers(prefix, tag, prototype, before); }
      var readable := prefix + ToPascalCase(tag);
      var currentSequence := (if readable in idSequence then idSequence[readable] else 0) + 1;
      idSequence := idSequence[readable := currentSequence];
      name := readable + Decimal(currentSequence);
      nodePrototypeDeclarations := nodePrototypeDeclarations + [Declaration(name, prototype)];
      if NamesDistinct(nodePrototypeDeclarations) {
        DeclaredIsFound(prefix, tag, prototype, before, nodePrototypeDeclarations);
      }
    }

    /** One pass over the attributes: the special ones are picked out, the rest are sorted. */
    method ResolveAttributes(attributes: seq<Attribute>, kind: NodeKind)
        returns (split: Split, ordinary: seq<Attribute>, key: Option<Expr>, ref: Option<Expr>, context: Option<Attribute>,
                 slot: Option<Expr>, lazy: bool)
      ensures ordinary == Ordinary(attributes, kind) && split == Sorted(ordinary, kind)
      ensures key == ValueOf(attributes, "key") && ref == ValueOf(attributes, "ref") && slot == ValueOf(attributes, "slot")
      ensures kind.ComponentKind? ==> context == ContextAttribute(attributes)
      ensures lazy <==> exists i :: 0 <= i < |attributes| && attributes[i].name == Some("lazy")
    {
      ordinary, split := [], Split([], [], [], false);
      key, ref, context, slot, lazy := None, None, None, None, false;
      for i := 0 to |attributes|
        invariant ordinary == Ordinary(attributes[..i], kind) && split == Sorted(ordinary, kind)
        invariant key == ValueOf(attributes[..i], "key") && ref == ValueOf(attributes[..i], "ref")
        invariant slot == ValueOf(attributes[..i], "slot")
        invariant kind.ComponentKind? ==> context == ContextAttribute(attributes[..i])
        invariant lazy <==> exists j :: 0 <= j < i && attributes[j].name == Some("lazy")
      {
        var a := attributes[i];
        assert attributes[..i + 1][..i] == attributes[..i];
        if a.name == Some("slot") {
          slot := Some(a.value);
        } else if a.name == Some("key") {
          key := Some(a.value);
        } else if a.name == Some("ref") {
          ref := Some(a.value);
        } else if a.name == Some("context") && kind.ComponentKind? {
          context := Some(a);
        } else {
          if a.name == Some("lazy") { lazy := true; }
          assert (ordinary + [a])[..|ordinary|] == ordinary;
          ordinary := ordinary + [a];
          if a.kind.Spread? {
            split := split.(dynamics := split.dynamics + [a], foundSpread := true);
          } else if IsInjected(a.name, kind) {
            split := split.(injected := split.injected + [a]);
          } else if a.kind.StaticValue? && !split.foundSpread {
            split := split.(statics := split.statics + [a]);
          } else {
            split := split.(dynamics := split.dynamics + [a]);
          }
        }
      }
      assert attributes[..|attributes|] == attributes;
    }

    method OutputNode(n: Node) returns (r: Result<seq<Stmt>, Error>)
      modifies this
      ensures var c := CompileNode(n, old(Current()));
              if c.Err? then r == Err(c.error) else r == Ok(c.value.code) && Current() == c.value.output
      decreases NodeSize(n), 1
    {
      var split, ordinary, key, ref, context, slot, lazy := ResolveAttributes(n.attributes, n.kind);
      if slot.Some? { return Err(SlotAttribute); }
      match n.kind
      case ElementKind => r := OutputJSXElement(n, split, key, ref, lazy);
      case ComponentKind => r := OutputJSXComponent(n, split, key, ref, context);
      case FunctionKind =>
        if key.Some? || ref.Some? || lazy { return Err(UnsupportedFunctionAttribute); }
        if HasInk(n.children) { return Err(TextNotSupported); }
        VisibleSize(n.children);
        var nodes := OutputEach(Visible(n.children));
        if nodes.Err? { return nodes; }
        r := Ok([RenderFunction(n.tag, ordinary, nodes.value != [], BlockBody(nodes.value))]);
      case SlotKind =>
        var c := CompileSlot(n, Current());
        r := if c.Err? then Err(c.error) else Ok(c.value.code);
    }

    method OutputJSXElement(n: Node, split: Split, key: Option<Expr>, ref: Option<Expr>, lazy: bool)
        returns (r: Result<seq<Stmt>, Error>)
      requires split == SplitOf(n) && key == ValueOf(n.attributes, "key") && ref == ValueOf(n.attributes, "ref")
      requires lazy == IsLazy(n)
      modifies this
      ensures var c := CompileElement(n, old(Current()));
              if c.Err? then r == Err(c.error) else r == Ok(c.value.code) && Current() == c.value.output
      decreases NodeSize(n), 0
    {
      var id := AppendInitializedVariable("__node", n.tag, Prototype(Some(n.tag), split.statics));
      var inner := OutputChildren(n.children);
      if inner.Err? { return inner; }
      var calls := OutputAttributeCalls(split.dynamics);
      var body := (if ref.Some? then [SetAttributeRef(ref.value)] else []) + calls + inner.value + [EndRender];
      r := Ok(if lazy then [IfBeginRenderNeeded(id, key, body)] else [BeginRender(id, key)] + body);
    }

    method OutputJSXComponent(n: Node, split: Split, key: Option<Expr>, ref: Option<Expr>, context: Option<Attribute>)
        returns (r: Result<seq<Stmt>, Error>)
      requires split == SplitOf(n) && key == ValueOf(n.attributes, "key") && ref == ValueOf(n.attributes, "ref")
      requires context == ContextAttribute(n.attributes)
      modifies this
      ensures var c := CompileComponent(n, old(Current()));
              if c.Err? then r == Err(c.error) else r == Ok(c.value.code) && Current() == c.value.output
      decreases NodeSize(n), 0
    {
      var id := AppendInitializedVariable("__component", n.tag, Prototype(None, split.statics));
      var slots := OutputComponentChildren(n.children);
      if slots.Err? { return slots; }
      var foundContext := context.Some? && !context.value.kind.UndefinedValue?;
      r := Ok([BeginComponent(n.tag, id, key, ref)]
              + (if foundContext then [SetContextIfUnset(context.value.value)] else [])
              + ViewModelCalls(split.dynamics) + InjectedCalls(split.injected) + slots.value + [EndComponent]);
    }

    method OutputAttributeCalls(dynamics: seq<Attribute>) returns (calls: seq<Stmt>)
      ensures calls == AttributeCalls(dynamics)
    {
      calls := [];
      for i := 0 to |dynamics|
        invariant calls == AttributeCalls(dynamics[..i])
      {
        var a := dynamics[i];
        assert dynamics[..i + 1][..i] == dynamics[..i];
        calls := calls + [if a.name.None? then SetAttributes(a.value) else SetAttribute(a.name.value, a.value)];
      }
      assert dynamics[..|dynamics|] == dynamics;
    }

    method TransformChildNode(c: Child) returns (r: Result<Stmt, Error>)
      modifies this
      ensures var t := TransformChild(c, old(Current()));
              if t.Err? then r == Err(t.error) else r == Ok(t.value.code) && Current() == t.value.output
      decreases ChildSize(c), 0
    {
      match c
      case Nested(n) =>
        var code := OutputNode(n);
        r := if code.Err? then Err(code.error) else Ok(MergeStatements(code.value));
      case Guarded(condition, n) =>
        var code := OutputNode(n);
        r := if code.Err? then Err(code.error) else Ok(IfTruthyCall(condition, BlockBody([MergeStatements(code.value)])));
      case Code(code) => r := Ok(RunCode(code));
      case EmptyExpression => r := Ok(EmptyStatement);
      case Text(_) => r := Ok(EmptyStatement);
      case Slotted(_, _) => r := Err(SlottedOutsideComponent);
    }

    method OutputEach(cs: seq<Child>) returns (r: Result<seq<Stmt>, Error>)
      modifies this
      ensures var t := TransformEach(cs, old(Current()));
              if t.Err? then r == Err(t.error) else r == Ok(t.value.code) && Current() == t.value.output
      decreases ChildrenSize(cs), 1
    {
      var statements: seq<Stmt> := [];
      assert cs[0..] == cs;
      ghost var whole := TransformEach(cs, Current());
      if whole.Ok? { assert statements + whole.value.code == whole.value.code; }
      for i := 0 to |cs|
        invariant ChildrenSize(cs[i..]) <= ChildrenSize(cs)
        invariant var all, rest := TransformEach(cs, old(Current())), TransformEach(cs[i..], Current());
                  if rest.Err? then all == Err(rest.error)
                  else all == Ok(Compiled(statements + rest.value.code, rest.value.output))
      {
        assert cs[i..][0] == cs[i] && cs[i..][1..] == cs[i + 1..];
        var statement := TransformChildNode(cs[i]);
        if statement.Err? { return Err(statement.error); }
        ghost var rest := TransformEach(cs[i + 1..], Current());
        if rest.Ok? {
          assert statements + ([statement.value] + rest.value.code) == (statements + [statement.value]) + rest.value.code;
        }
        statements := statements + [statement.value];
      }
      assert statements + [] == statements;
      r := Ok(statements);
    }

    method MergeCreatedBlocks(statements: seq<Stmt>) returns (out: seq<Stmt>)
      ensures out == FlattenBlocks(NoBlocks(|statements|), statements)
    {
      out := [];
      for i := 0 to |statements|
        invariant out == FlattenBlocks(NoBlocks(i), statements[..i])
      {
        assert statements[..i + 1][..i] == statements[..i] && NoBlocks(i + 1)[..i] == NoBlocks(i);
        if statements[i].Block? {
          out := out + statements[i].statements;
        } else {
          out := out + [statements[i]];
        }
      }
      assert statements[..|statements|] == statements;
    }

    method OutputChildren(cs: seq<Child>) returns (r: Result<seq<Stmt>, Error>)
      modifies this
      ensures var c := CompileChildren(cs, old(Current()));
              if c.Err? then r == Err(c.error) else r == Ok(c.value.code) && Current() == c.value.output
      decreases ChildrenSize(cs), 2
    {
      if HasInk(cs) { return Err(TextNotSupported); }
      WithoutTextSize(cs);
      var statements := OutputEach(WithoutText(cs));
      if statements.Err? { return statements; }
      var flat := MergeCreatedBlocks(statements.value);
      r := Ok(flat);
    }

    /** Children without a slot name go to the unnamed group, which must still be the last one. */
    method InsertChildrenToUnnamedSlot(children: seq<Child>, slotteds: seq<Group>) returns (r: Result<seq<Group>, Error>)
      ensures r == InsertUnnamed(slotteds, children)
    {
      for i := 0 to |slotteds|
        invariant FirstUnnamed(slotteds[..i]).None?
      {
        assert slotteds[..i + 1][..i] == slotteds[..i];
        if slotteds[i].name.None? {
          FirstUnnamedStays(slotteds, i + 1);
          if i != |slotteds| - 1 { return Err(ScatteredDefaultSlot); }
          return Ok(slotteds[i := Group(None, slotteds[i].children + children)]);
        }
      }
      assert slotteds[..|slotteds|] == slotteds;
      r := Ok(slotteds + [Group(None, children)]);
    }

    lemma FirstUnnamedStays(groups: seq<Group>, n: nat)
      requires n <= |groups| && FirstUnnamed(groups[..n]).Some?
      ensures FirstUnnamed(groups) == FirstUnnamed(groups[..n])
      decreases |groups| - n
    {
      if n < |groups| {
        assert groups[..n + 1][..n] == groups[..n];
        FirstUnnamedStays(groups, n + 1);
      } else {
        assert groups[..n] == groups;
      }
    }

    method CollectSlots(children: seq<Child>) returns (r: Result<seq<Group>, Error>)
      ensures r == (var g := GroupSlots(children); if g.Err? then Err(g.error) else Ok(g.value.groups))
    {
      var slotteds: seq<Group> := [];
      var hasExplicitSlotted, hasImplicitSlotted := false, false;
      for i := 0 to |children|
        invariant GroupSlots(children[..i]) == Ok(Grouped(slotteds, hasExplicitSlotted, hasImplicitSlotted))
      {
        var child := children[i];
        assert children[..i + 1][..i] == children[..i];
        GroupSlotsFails(children, i + 1);
        match child
        case EmptyExpression =>
        case Text(blank) =>
          if !blank { return Err(TextNotSupported); }
        case Slotted(attributes, inner) =>
          hasExplicitSlotted := true;
          var slotName := SlotName(attributes);
          if slotName.Err? { return Err(slotName.error); }
          if slotName.value.Some? {
            slotteds := slotteds + [Group(slotName.value, inner)];
          } else {
            var inserted := InsertChildrenToUnnamedSlot(inner, slotteds);
            if inserted.Err? { return inserted; }
            slotteds := inserted.value;
          }
          if hasImplicitSlotted { return Err(MixedSlots); }
        case _ =>
          hasImplicitSlotted := true;
          var inserted := InsertChildrenToUnnamedSlot([child], slotteds);
          if inserted.Err? { return inserted; }
          slotteds := inserted.value;
          if hasExplicitSlotted { return Err(MixedSlots); }
      }
      assert children[..|children|] == children;
      r := Ok(slotteds);
    }

    /** The first error ends the collection. */
    lemma GroupSlotsFails(children: seq<Child>, n: nat)
      requires n <= |children|
      ensures GroupSlots(children[..n]).Err? ==> GroupSlots(children) == GroupSlots(children[..n])
      decreases |children| - n
    {
      if n < |children| {
        assert children[..n + 1][..n] == children[..n];
        GroupSlotsFails(children, n + 1);
      } else {
        assert children[..n] == children;
      }
    }

    method OutputComponentChildren(children: seq<Child>) returns (r: Result<seq<Stmt>, Error>)
      modifies this
      ensures var g := GroupSlots(children);
              if g.Err? then r == Err(g.error)
              else
                var c := CompileGroups(g.value.groups, old(Current()));
                if c.Err? then r == Err(c.error) else r == Ok(c.value.code) && Current() == c.value.output
      decreases ChildrenSize(children), 4
    {
      var collected := CollectSlots(children);
      if collected.Err? { return Err(collected.error); }
      GroupSlotsSize(children);
      r := OutputSlots(collected.value);
    }

    method OutputSlots(slotteds: seq<Group>) returns (r: Result<seq<Stmt>, Error>)
      modifies this
      ensures var c := CompileGroups(slotteds, old(Current()));
              if c.Err? then r == Err(c.error) else r == Ok(c.value.code) && Current() == c.value.output
      decreases GroupsSize(slotteds), 3
    {
      var statements: seq<Stmt> := [];
      for i := 0 to |slotteds|
        invariant CompileGroups(slotteds[..i], old(Current())) == Ok(Compiled(statements, Current()))
      {
        var slotted := slotteds[i];
        assert slotteds[..i + 1][..i] == slotteds[..i];
        CompileGroupsFails(slotteds, old(Current()), i + 1);
        GroupIsSmaller(slotteds, i);
        VisibleSize(slotted.children);
        if HasInk(slotted.children) { return Err(TextNotSupported); }
        var body := OutputChildren(Visible(slotted.children));
        if body.Err? { return body; }
        statements := statements + [if slotted.name.Some? then SetNamedSlot(slotted.name.value, BlockBody(body.value))
                                    else SetUnnamedSlot(BlockBody(body.value))];
      }
      assert slotteds[..|slotteds|] == slotteds;
      r := Ok(statements);
    }

    lemma CompileGroupsFails(groups: seq<Group>, o: Output, n: nat)
      requires n <= |groups|
      ensures CompileGroups(groups[..n], o).Err? ==> CompileGroups(groups, o) == CompileGroups(groups[..n], o)
      decreases |groups| - n
    {
      if n < |groups| {
        assert groups[..n + 1][..n] == groups[..n];
        CompileGroupsFails(groups, o, n + 1);
      } else {
        assert groups[..n] == groups;
      }
    }

    lemma GroupIsSmaller(groups: seq<Group>, i: nat)
      requires i < |groups|
      ensures ChildrenSize(groups[i].children) <= GroupsSize(groups)
    {
      if i < |groups| - 1 {
        assert groups[..|groups| - 1][i] == groups[i];
        GroupIsSmaller(groups[..|groups| - 1], i);
      }
    }
  }
}
