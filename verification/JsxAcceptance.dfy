/** Which JSX trees the compiler accepts, told by the source tree alone, and which error the others get. */
module JsxAcceptance {
  import opened Wrappers
  import opened Jsx
  import opened JsxRuntime
  import opened JsxProofs
  import opened JsxCorrectness
  import opened JsxIdentifiers

  // ----- the trees -----

  predicate Names(attributes: seq<Attribute>, name: string) {
    exists a <- attributes :: a.name == Some(name)
  }

  predicate AcceptedNode(n: Node)
    decreases n, 0
  {
    && !Names(n.attributes, "slot")
    && match n.kind
       case ElementKind => AcceptedChildren(n.children)
       case ComponentKind => AcceptedContents(n.children) && AcceptedLayout(n.children)
       case FunctionKind =>
         && !Names(n.attributes, "key") && !Names(n.attributes, "ref") && !Names(n.attributes, "lazy")
         && AcceptedChildren(n.children)
       case SlotKind =>
         && (forall a <- n.attributes :: a.name == Some("name") || a.name == Some("ref") || a.name == Some("key"))
         && n.children == []
  }

  /** White space, code and accepted nodes: no other text, and no `<slotted>`. */
  predicate AcceptedChild(c: Child)
    decreases c, 1
  {
    match c
    case Nested(n) => AcceptedNode(n)
    case Guarded(_, n) => AcceptedNode(n)
    case Text(blank) => blank
    case Slotted(_, _) => false
    case Code(_) => true
    case EmptyExpression => true
  }

  predicate AcceptedChildren(cs: seq<Child>)
    decreases cs, 2
  {
    forall c <- cs :: AcceptedChild(c)
  }

  /** What stands in a component, in its `<slotted>` children or as its own children. */
  predicate AcceptedContents(cs: seq<Child>)
    decreases cs, 2
  {
    forall c <- cs :: if c.Slotted? then AcceptedChildren(c.children) else c.Text? || AcceptedChild(c)
  }

  // ----- how the children of a component may stand together -----

  /** A child that goes to the unnamed slot without saying so. */
  predicate IsLoose(c: Child) {
    c.Nested? || c.Guarded? || c.Code?
  }

  predicate IsDefault(c: Child) {
    IsLoose(c) || (c.Slotted? && c.attributes == [])
  }

  predicate IsNamed(c: Child) {
    c.Slotted? && c.attributes != []
  }

  predicate IsWellFormed(c: Child) {
    match c
    case Text(blank) => blank
    case Slotted(attributes, _) => attributes == [] || (|attributes| == 1 && attributes[0].name == Some("slot"))
    case _ => true
  }

  predicate HasSlotted(cs: seq<Child>) {
    exists c <- cs :: c.Slotted?
  }

  predicate HasLoose(cs: seq<Child>) {
    exists c <- cs :: IsLoose(c)
  }

  predicate HasDefault(cs: seq<Child>) {
    exists c <- cs :: IsDefault(c)
  }

  /** A named slot comes behind a child of the unnamed one, so that none may follow. */
  predicate IsClosed(cs: seq<Child>) {
    exists i, k :: 0 <= i < k < |cs| && IsDefault(cs[i]) && IsNamed(cs[k])
  }

  /** What fills the unnamed slot stands in one run. */
  predicate IsOneRun(cs: seq<Child>) {
    forall i, j, k :: 0 <= i < j < k < |cs| && IsDefault(cs[i]) && IsNamed(cs[j]) ==> !IsDefault(cs[k])
  }

  predicate AcceptedLayout(cs: seq<Child>) {
    && (forall c <- cs :: IsWellFormed(c))
    && !(HasSlotted(cs) && HasLoose(cs))
    && IsOneRun(cs)
  }

  // ----- grouping succeeds on these layouts only -----

  predicate Fits(front: seq<Child>, c: Child) {
    && IsWellFormed(c)
    && !(c.Slotted? && HasLoose(front))
    && !(IsLoose(c) && HasSlotted(front))
    && !(IsDefault(c) && IsClosed(front))
  }

  lemma AppendedIn(front: seq<Child>, c: Child)
    ensures forall x :: x in front + [c] <==> x in front || x == c
  {
  }

  lemma MixesWithOneMore(front: seq<Child>, c: Child)
    ensures HasSlotted(front + [c]) <==> HasSlotted(front) || c.Slotted?
    ensures HasLoose(front + [c]) <==> HasLoose(front) || IsLoose(c)
    ensures HasDefault(front + [c]) <==> HasDefault(front) || IsDefault(c)
    ensures (forall x <- front + [c] :: IsWellFormed(x)) <==> (forall x <- front :: IsWellFormed(x)) && IsWellFormed(c)
  {
    AppendedIn(front, c);
    assert c in front + [c];
  }

  lemma ClosedWithOneMore(front: seq<Child>, c: Child)
    ensures IsClosed(front + [c]) <==> IsClosed(front) || (IsNamed(c) && HasDefault(front))
  {
    var all := front + [c];
    if IsClosed(front) {
      var i, k :| 0 <= i < k < |front| && IsDefault(front[i]) && IsNamed(front[k]);
      assert IsDefault(all[i]) && IsNamed(all[k]);
    } else if IsNamed(c) && HasDefault(front) {
      var i :| 0 <= i < |front| && IsDefault(front[i]);
      assert IsDefault(all[i]) && IsNamed(all[|front|]);
    }
    if IsClosed(all) {
      var i, k :| 0 <= i < k < |all| && IsDefault(all[i]) && IsNamed(all[k]);
      assert all[i] == front[i] && front[i] in front;
      assert k < |front| ==> all[k] == front[k];
    }
  }

  lemma OneRunWithOneMore(front: seq<Child>, c: Child)
    ensures IsOneRun(front + [c]) <==> IsOneRun(front) && !(IsDefault(c) && IsClosed(front))
  {
    var all := front + [c];
    if !IsOneRun(front) {
      var i, j, k :| 0 <= i < j < k < |front| && IsDefault(front[i]) && IsNamed(front[j]) && IsDefault(front[k]);
      assert IsDefault(all[i]) && IsNamed(all[j]) && IsDefault(all[k]);
    } else if IsDefault(c) && IsClosed(front) {
      var i, j :| 0 <= i < j < |front| && IsDefault(front[i]) && IsNamed(front[j]);
      assert IsDefault(all[i]) && IsNamed(all[j]) && IsDefault(all[|front|]);
    } else {
      forall i, j, k | 0 <= i < j < k < |all| && IsDefault(all[i]) && IsNamed(all[j]) ensures !IsDefault(all[k]) {
        assert all[i] == front[i] && all[j] == front[j];
        assert k < |front| ==> all[k] == front[k];
      }
    }
  }

  lemma LayoutWithOneMore(front: seq<Child>, c: Child)
    ensures AcceptedLayout(front + [c]) <==> AcceptedLayout(front) && Fits(front, c)
  {
    MixesWithOneMore(front, c);
    OneRunWithOneMore(front, c);
  }

  /** What grouping keeps of the children it has seen. */
  ghost predicate Remembers(g: Grouped, cs: seq<Child>) {
    && (g.hasExplicit <==> HasSlotted(cs))
    && (g.hasImplicit <==> HasLoose(cs))
    && (FirstUnnamed(g.groups).Some? <==> HasDefault(cs))
    && (FirstUnnamed(g.groups).Some? ==> FirstUnnamed(g.groups).value < |g.groups|)
    && (IsClosed(cs) <==> FirstUnnamed(g.groups).Some? && FirstUnnamed(g.groups).value != |g.groups| - 1)
  }

  lemma {:induction false} FirstUnnamedIsUnnamed(groups: seq<Group>)
    ensures FirstUnnamed(groups).Some? ==> FirstUnnamed(groups).value < |groups| && groups[FirstUnnamed(groups).value].name.None?
    decreases |groups|
  {
    if groups != [] { FirstUnnamedIsUnnamed(groups[..|groups| - 1]); }
  }

  lemma NamedGroupAdded(groups: seq<Group>, g: Group)
    requires g.name.Some?
    ensures FirstUnnamed(groups + [g]) == FirstUnnamed(groups)
  {
    assert (groups + [g])[..|groups|] == groups;
  }

  lemma UnnamedInserted(groups: seq<Group>, children: seq<Child>)
    requires InsertUnnamed(groups, children).Ok?
    ensures var after := InsertUnnamed(groups, children).value; FirstUnnamed(after) == Some(|after| - 1) && after != []
  {
    var after, front := InsertUnnamed(groups, children).value, groups;
    if FirstUnnamed(groups).Some? {
      front := groups[..|groups| - 1];
      FirstUnnamedIsUnnamed(front);
      assert FirstUnnamed(front).None?;
    }
    assert after[..|after| - 1] == front;
  }

  lemma {:induction false} GroupingAccepts(cs: seq<Child>)
    ensures GroupSlots(cs).Ok? <==> AcceptedLayout(cs)
    ensures GroupSlots(cs).Ok? ==> Remembers(GroupSlots(cs).value, cs)
    decreases |cs|
  {
    if cs != [] {
      var front, c := cs[..|cs| - 1], cs[|cs| - 1];
      assert cs == front + [c];
      GroupingAccepts(front);
      LayoutWithOneMore(front, c);
      if GroupSlots(front).Ok? { AddingAccepts(GroupSlots(front).value, front, c); }
    }
  }

  lemma AddingAccepts(g: Grouped, front: seq<Child>, c: Child)
    requires Remembers(g, front)
    ensures AddChild(g, c).Ok? <==> Fits(front, c)
    ensures AddChild(g, c).Ok? ==> Remembers(AddChild(g, c).value, front + [c])
  {
    if c.Slotted? {
      if SlotName(c.attributes).Ok? && c.attributes != [] { AddingNamed(g, front, c); } else { AddingUnnamed(g, front, c); }
    } else if IsLoose(c) {
      AddingLoose(g, front, c);
    } else {
      MixesWithOneMore(front, c);
      ClosedWithOneMore(front, c);
    }
  }

  lemma AddingNamed(g: Grouped, front: seq<Child>, c: Child)
    requires Remembers(g, front) && c.Slotted? && c.attributes != [] && SlotName(c.attributes).Ok?
    ensures AddChild(g, c).Ok? <==> Fits(front, c)
    ensures AddChild(g, c).Ok? ==> Remembers(AddChild(g, c).value, front + [c])
  {
    MixesWithOneMore(front, c);
    ClosedWithOneMore(front, c);
    NamedGroupAdded(g.groups, Group(SlotName(c.attributes).value, c.children));
  }

  lemma AddingUnnamed(g: Grouped, front: seq<Child>, c: Child)
    requires Remembers(g, front) && c.Slotted? && (c.attributes == [] || SlotName(c.attributes).Err?)
    ensures AddChild(g, c).Ok? <==> Fits(front, c)
    ensures AddChild(g, c).Ok? ==> Remembers(AddChild(g, c).value, front + [c])
  {
    if c.attributes == [] {
      var inserted := InsertUnnamed(g.groups, c.children);
      assert AddChild(g, c) == if inserted.Err? then Err(inserted.error)
                               else if g.hasImplicit then Err(MixedSlots) else Ok(Grouped(inserted.value, true, false));
      InsertsIff(g, front, c.children);
      if inserted.Ok? && !g.hasImplicit { RemembersOneMore(front, c, Grouped(inserted.value, true, false)); }
    }
  }

  lemma InsertsIff(g: Grouped, front: seq<Child>, children: seq<Child>)
    requires Remembers(g, front)
    ensures InsertUnnamed(g.groups, children).Ok? <==> !IsClosed(front)
    ensures InsertUnnamed(g.groups, children).Ok? ==>
              FirstUnnamed(InsertUnnamed(g.groups, children).value) == Some(|InsertUnnamed(g.groups, children).value| - 1)
    ensures InsertUnnamed(g.groups, children).Ok? ==> InsertUnnamed(g.groups, children).value != []
  {
    if InsertUnnamed(g.groups, children).Ok? { UnnamedInserted(g.groups, children); }
  }

  lemma RemembersOneMore(front: seq<Child>, c: Child, g: Grouped)
    requires IsDefault(c) && !IsClosed(front) && g.groups != [] && FirstUnnamed(g.groups) == Some(|g.groups| - 1)
    requires (g.hasExplicit <==> HasSlotted(front) || c.Slotted?) && (g.hasImplicit <==> HasLoose(front) || IsLoose(c))
    ensures Remembers(g, front + [c])
  {
    MixesWithOneMore(front, c);
    ClosedWithOneMore(front, c);
  }

  lemma AddingLoose(g: Grouped, front: seq<Child>, c: Child)
    requires Remembers(g, front) && IsLoose(c)
    ensures AddChild(g, c).Ok? <==> Fits(front, c)
    ensures AddChild(g, c).Ok? ==> Remembers(AddChild(g, c).value, front + [c])
  {
    var inserted := InsertUnnamed(g.groups, [c]);
    assert AddChild(g, c) == if inserted.Err? then Err(inserted.error)
                             else if g.hasExplicit then Err(MixedSlots) else Ok(Grouped(inserted.value, false, true));
    InsertsIff(g, front, [c]);
    if inserted.Ok? && !g.hasExplicit { RemembersOneMore(front, c, Grouped(inserted.value, false, true)); }
  }

  // ----- what the groups hold -----

  predicate AcceptedGroups(groups: seq<Group>) {
    forall g <- groups :: AcceptedChildren(g.children)
  }

  lemma GroupsWithOneMore(groups: seq<Group>, g: Group)
    ensures AcceptedGroups(groups + [g]) <==> AcceptedGroups(groups) && AcceptedChildren(g.children)
  {
    assert g in groups + [g];
    assert forall x <- groups :: x in groups + [g];
  }

  lemma ChildrenOfBoth(a: seq<Child>, b: seq<Child>)
    ensures AcceptedChildren(a + b) <==> AcceptedChildren(a) && AcceptedChildren(b)
  {
    assert forall c :: c in a + b <==> c in a || c in b;
  }

  lemma InsertedContents(groups: seq<Group>, children: seq<Child>)
    requires InsertUnnamed(groups, children).Ok?
    ensures AcceptedGroups(InsertUnnamed(groups, children).value) <==> AcceptedGroups(groups) && AcceptedChildren(children)
  {
    if FirstUnnamed(groups).None? {
      GroupsWithOneMore(groups, Group(None, children));
    } else {
      var front, last := groups[..|groups| - 1], groups[|groups| - 1];
      assert groups == front + [last];
      assert InsertUnnamed(groups, children).value == front + [Group(None, last.children + children)];
      GroupsWithOneMore(front, last);
      GroupsWithOneMore(front, Group(None, last.children + children));
      ChildrenOfBoth(last.children, children);
    }
  }

  lemma ContentsWithOneMore(front: seq<Child>, c: Child)
    ensures AcceptedContents(front + [c]) <==>
            AcceptedContents(front) && if c.Slotted? then AcceptedChildren(c.children) else c.Text? || AcceptedChild(c)
  {
    AppendedIn(front, c);
    assert c in front + [c];
  }

  lemma {:induction false} GroupsHoldTheContents(cs: seq<Child>)
    requires GroupSlots(cs).Ok?
    ensures AcceptedGroups(GroupSlots(cs).value.groups) <==> AcceptedContents(cs)
    decreases |cs|
  {
    if cs != [] {
      var front, c := cs[..|cs| - 1], cs[|cs| - 1];
      assert cs == front + [c];
      GroupsHoldTheContents(front);
      ContentsWithOneMore(front, c);
      AddedContents(GroupSlots(front).value, c);
    }
  }

  lemma AddedContents(g: Grouped, c: Child)
    requires AddChild(g, c).Ok?
    ensures AcceptedGroups(AddChild(g, c).value.groups) <==>
            AcceptedGroups(g.groups) && if c.Slotted? then AcceptedChildren(c.children) else c.Text? || AcceptedChild(c)
  {
    if c.Slotted? {
      var name := SlotName(c.attributes);
      if name.value.Some? { GroupsWithOneMore(g.groups, Group(name.value, c.children)); } else { InsertedContents(g.groups, c.children); }
    } else if IsLoose(c) {
      InsertedContents(g.groups, [c]);
      assert AcceptedChildren([c]) <==> AcceptedChild(c) by { assert c in [c]; }
    }
  }

  // ----- compiling succeeds on accepted trees only -----

  lemma {:induction false} NamesIff(attributes: seq<Attribute>, name: string)
    ensures ValueOf(attributes, name).Some? <==> Names(attributes, name)
    decreases |attributes|
  {
    if attributes != [] {
      var front, a := attributes[..|attributes| - 1], attributes[|attributes| - 1];
      NamesIff(front, name);
      assert attributes == front + [a];
      assert forall x :: x in attributes <==> x in front || x == a;
    }
  }

  lemma LazyIff(n: Node)
    ensures IsLazy(n) <==> Names(n.attributes, "lazy")
  {
    if IsLazy(n) {
      var i :| 0 <= i < |n.attributes| && n.attributes[i].name == Some("lazy");
      assert n.attributes[i] in n.attributes;
    }
  }

  lemma {:induction false} VisibleAccepted(cs: seq<Child>)
    ensures AcceptedChildren(cs) <==> !HasInk(cs) && AcceptedChildren(Visible(cs))
    ensures !HasInk(Visible(cs)) && forall c <- Visible(cs) :: !c.Text?
    decreases |cs|
  {
    if cs != [] {
      var rest := cs[1..];
      VisibleAccepted(rest);
      assert cs == [cs[0]] + rest;
      ChildrenOfBoth([cs[0]], rest);
      ChildrenOfBoth([cs[0]], Visible(rest));
      InkOfFirst(cs);
      assert AcceptedChildren([cs[0]]) <==> AcceptedChild(cs[0]) by { assert cs[0] in [cs[0]]; }
    }
  }

  lemma InkOfFirst(cs: seq<Child>)
    requires cs != []
    ensures HasInk(cs) <==> cs[0] == Text(false) || HasInk(cs[1..])
  {
    if HasInk(cs[1..]) {
      var i :| 0 <= i < |cs[1..]| && cs[1..][i] == Text(false);
      assert cs[i + 1] == Text(false);
    }
    if HasInk(cs) {
      var i :| 0 <= i < |cs| && cs[i] == Text(false);
      assert i > 0 ==> cs[1..][i - 1] == Text(false);
    }
  }

  lemma {:induction false} WithoutTextAccepted(cs: seq<Child>)
    ensures AcceptedChildren(cs) <==> !HasInk(cs) && AcceptedChildren(WithoutText(cs))
    ensures forall c <- WithoutText(cs) :: !c.Text?
    decreases |cs|
  {
    if cs != [] {
      var rest := cs[1..];
      WithoutTextAccepted(rest);
      assert cs == [cs[0]] + rest;
      ChildrenOfBoth([cs[0]], rest);
      ChildrenOfBoth([cs[0]], WithoutText(rest));
      InkOfFirst(cs);
      assert AcceptedChildren([cs[0]]) <==> AcceptedChild(cs[0]) by { assert cs[0] in [cs[0]]; }
    }
  }

  lemma {:induction false} NodeCompilesIff(n: Node, o: Output)
    ensures CompileNode(n, o).Ok? <==> AcceptedNode(n)
    decreases NodeSize(n), 1
  {
    NamesIff(n.attributes, "slot");
    if !Names(n.attributes, "slot") {
      match n.kind
      case ElementKind => ElementCompilesIff(n, o);
      case ComponentKind => ComponentCompilesIff(n, o);
      case FunctionKind => FunctionCompilesIff(n, o);
      case SlotKind => SlotCompilesIff(n, o);
    }
  }

  lemma {:induction false} ElementCompilesIff(n: Node, o: Output)
    ensures CompileElement(n, o).Ok? <==> AcceptedChildren(n.children)
    decreases NodeSize(n), 0
  {
    ChildrenCompileIff(n.children, Declare("__node", n.tag, Prototype(Some(n.tag), SplitOf(n).statics), o).1);
  }

  lemma {:induction false} ComponentCompilesIff(n: Node, o: Output)
    ensures CompileComponent(n, o).Ok? <==> AcceptedContents(n.children) && AcceptedLayout(n.children)
    decreases NodeSize(n), 0
  {
    GroupingAccepts(n.children);
    if GroupSlots(n.children).Ok? {
      GroupSlotsSize(n.children);
      GroupsHoldTheContents(n.children);
      GroupsCompileIff(GroupSlots(n.children).value.groups,
                       Declare("__component", n.tag, Prototype(None, SplitOf(n).statics), o).1);
    }
  }

  lemma {:induction false} FunctionCompilesIff(n: Node, o: Output)
    ensures CompileFunction(n, o).Ok? <==>
            && !Names(n.attributes, "key") && !Names(n.attributes, "ref") && !Names(n.attributes, "lazy")
            && AcceptedChildren(n.children)
    decreases NodeSize(n), 0
  {
    NamesIff(n.attributes, "key");
    NamesIff(n.attributes, "ref");
    LazyIff(n);
    VisibleSize(n.children);
    VisibleAccepted(n.children);
    EachCompilesIff(Visible(n.children), o);
  }

  lemma SlotCompilesIff(n: Node, o: Output)
    ensures CompileSlot(n, o).Ok? <==>
            && (forall a <- n.attributes :: a.name == Some("name") || a.name == Some("ref") || a.name == Some("key"))
            && n.children == []
  {
    if i :| 0 <= i < |n.attributes| && n.attributes[i].name !in {Some("name"), Some("ref"), Some("key")} {
      assert n.attributes[i] in n.attributes;
    }
  }

  lemma {:induction false} ChildCompilesIff(c: Child, o: Output)
    ensures TransformChild(c, o).Ok? <==> c.Text? || AcceptedChild(c)
    decreases ChildSize(c), 0
  {
    match c
    case Nested(n) => NodeCompilesIff(n, o);
    case Guarded(_, n) => NodeCompilesIff(n, o);
    case _ =>
  }

  lemma {:induction false} EachCompilesIff(cs: seq<Child>, o: Output)
    requires forall c <- cs :: !c.Text?
    ensures TransformEach(cs, o).Ok? <==> AcceptedChildren(cs)
    decreases ChildrenSize(cs), 1
  {
    if cs != [] {
      ChildCompilesIff(cs[0], o);
      assert cs == [cs[0]] + cs[1..];
      ChildrenOfBoth([cs[0]], cs[1..]);
      assert AcceptedChildren([cs[0]]) <==> AcceptedChild(cs[0]) by { assert cs[0] in [cs[0]]; }
      if TransformChild(cs[0], o).Ok? { EachCompilesIff(cs[1..], TransformChild(cs[0], o).value.output); }
    }
  }

  /** The compiler accepts exactly the accepted children. */
  lemma {:induction false} ChildrenCompileIff(cs: seq<Child>, o: Output)
    ensures CompileChildren(cs, o).Ok? <==> AcceptedChildren(cs)
    decreases ChildrenSize(cs), 2
  {
    WithoutTextSize(cs);
    WithoutTextAccepted(cs);
    EachCompilesIff(WithoutText(cs), o);
  }

  lemma {:induction false} GroupsCompileIff(groups: seq<Group>, o: Output)
    ensures CompileGroups(groups, o).Ok? <==> AcceptedGroups(groups)
    decreases GroupsSize(groups), 3, |groups|
  {
    if groups != [] {
      var front, g := groups[..|groups| - 1], groups[|groups| - 1];
      assert groups == front + [g];
      GroupsWithOneMore(front, g);
      GroupsCompileIff(front, o);
      VisibleSize(g.children);
      VisibleAccepted(g.children);
      if CompileGroups(front, o).Ok? { ChildrenCompileIff(Visible(g.children), CompileGroups(front, o).value.output); }
    }
  }

  /** The main theorem once more, for source trees: the compiler accepts exactly the accepted ones, and
      what it makes of one loads and renders what the tree means iff its identifiers do not collide. */
  lemma AcceptedTreesRender(env: Env, children: seq<Child>, m: Machine)
    requires Accepts(m) && EverywhereBelow(HasValidAttributes, children)
    ensures CompileChildren(children, NO_OUTPUT).Ok? <==> AcceptedChildren(children)
    ensures AcceptedChildren(children) ==>
              (RunFile(env, CompileChildren(children, NO_OUTPUT).value, m) == Some(Shown(m, MeanChildren(env, children, m.tick)))
               <==> !Collides(children))
  {
    ChildrenCompileIff(children, NO_OUTPUT);
    if AcceptedChildren(children) { CompilationPreservesTheTree(env, children, m); }
  }

  // ----- which error -----

  /** Text is found before anything else in a list of children. */
  lemma InkIsNotSupported(cs: seq<Child>, o: Output)
    requires Text(false) in cs
    ensures CompileChildren(cs, o) == Err(TextNotSupported)
  {
    var i :| 0 <= i < |cs| && cs[i] == Text(false);
    assert HasInk(cs);
  }

  lemma {:induction false} WithoutTextSplits(a: seq<Child>, b: seq<Child>)
    ensures WithoutText(a + b) == WithoutText(a) + WithoutText(b)
    decreases |a|
  {
    if a == [] {
      assert a + b == b;
    } else {
      assert (a + b)[1..] == a[1..] + b;
      WithoutTextSplits(a[1..], b);
    }
  }

  /** What a child that is not accepted says of itself, its node compiled from `mid`. */
  ghost predicate IsErrorOf(e: Error, c: Child, mid: Output) {
    if c.Nested? || c.Guarded? then CompileNode(c.node, mid).Err? && e == CompileNode(c.node, mid).error
    else e == SlottedOutsideComponent
  }

  lemma {:induction false} FirstFailure(front: seq<Child>, c: Child, back: seq<Child>, o: Output) returns (mid: Output)
    requires AcceptedChildren(front) && (forall x <- front :: !x.Text?) && !c.Text? && !AcceptedChild(c)
    ensures var r := TransformEach(front + ([c] + back), o); r.Err? && IsErrorOf(r.error, c, mid)
    decreases |front|
  {
    var cs := front + ([c] + back);
    if front == [] {
      assert cs == [c] + back;
      mid := o;
      ChildCompilesIff(c, o);
    } else {
      assert cs[1..] == front[1..] + ([c] + back);
      assert front[0] in front && forall x <- front[1..] :: x in front;
      ChildCompilesIff(front[0], o);
      mid := FirstFailure(front[1..], c, back, TransformChild(front[0], o).value.output);
    }
  }

  /** Without text the first child that is not accepted gives the error: a node its own, and
      `<slotted>` that it stands outside a component. */
  lemma FirstRejectedChild(front: seq<Child>, c: Child, back: seq<Child>, o: Output) returns (mid: Output)
    requires AcceptedChildren(front) && !AcceptedChild(c) && Text(false) !in [c] + back
    ensures var r := CompileChildren(front + ([c] + back), o); r.Err? && IsErrorOf(r.error, c, mid)
  {
    var cs := front + ([c] + back);
    NoInk(front, [c] + back);
    assert !c.Text? by { assert c in [c] + back; }
    WithoutTextSize(cs);
    WithoutTextSplits(front, [c] + back);
    assert ([c] + back)[1..] == back;
    WithoutTextAccepted(front);
    mid := FirstFailure(WithoutText(front), c, WithoutText(back), o);
  }

  lemma NoInk(front: seq<Child>, back: seq<Child>)
    requires AcceptedChildren(front) && Text(false) !in back
    ensures !HasInk(front + back)
  {
    forall i | 0 <= i < |front + back| ensures (front + back)[i] != Text(false) {
      if i < |front| { assert front[i] in front; } else { assert back[i - |front|] in back; }
    }
  }

  /** Attributes and children that the kind of the node forbids. */
  lemma ForbiddenInNode(n: Node, o: Output)
    ensures Names(n.attributes, "slot") ==> CompileNode(n, o) == Err(SlotAttribute)
    ensures !Names(n.attributes, "slot") && n.kind.FunctionKind?
            && (Names(n.attributes, "key") || Names(n.attributes, "ref") || Names(n.attributes, "lazy")) ==>
              CompileNode(n, o) == Err(UnsupportedFunctionAttribute)
    ensures !Names(n.attributes, "slot") && n.kind.SlotKind?
            && (exists a <- n.attributes :: a.name != Some("name") && a.name != Some("ref") && a.name != Some("key")) ==>
              CompileNode(n, o) == Err(UnsupportedSlotAttribute)
    ensures n.kind.SlotKind? && n.children != []
            && (forall a <- n.attributes :: a.name == Some("name") || a.name == Some("ref") || a.name == Some("key")) ==>
              CompileNode(n, o) == Err(ChildrenInSlot)
  {
    NamesIff(n.attributes, "slot");
    NamesIff(n.attributes, "key");
    NamesIff(n.attributes, "ref");
    LazyIff(n);
    if a :| a in n.attributes && a.name != Some("name") && a.name != Some("ref") && a.name != Some("key") {
      var i :| 0 <= i < |n.attributes| && n.attributes[i] == a;
      assert n.attributes[i].name !in {Some("name"), Some("ref"), Some("key")};
    }
  }

  /** The error of the first child that does not fit among those of a component. */
  function MisfitError(front: seq<Child>, c: Child): Error {
    if c == Text(false) then TextNotSupported
    else if !IsWellFormed(c) then SlottedAttributes
    else if IsDefault(c) && IsClosed(front) then ScatteredDefaultSlot
    else MixedSlots
  }

  lemma MisfitRejected(g: Grouped, front: seq<Child>, c: Child)
    requires Remembers(g, front) && !Fits(front, c)
    ensures AddChild(g, c) == Err(MisfitError(front, c))
  {
    if c.Slotted? {
      var name := SlotName(c.attributes);
      assert name.Ok? <==> IsWellFormed(c);
    }
  }

  lemma {:induction false} ErrorsStay(front: seq<Child>, back: seq<Child>)
    requires GroupSlots(front).Err?
    ensures GroupSlots(front + back) == GroupSlots(front)
    decreases |back|
  {
    if back == [] {
      assert front + back == front;
    } else {
      assert (front + back)[..|front + back| - 1] == front + back[..|back| - 1];
      ErrorsStay(front, back[..|back| - 1]);
    }
  }

  lemma FirstMisfit(n: Node, front: seq<Child>, c: Child, back: seq<Child>, o: Output)
    requires n.kind.ComponentKind? && !Names(n.attributes, "slot") && n.children == front + [c] + back
    requires AcceptedLayout(front) && !Fits(front, c)
    ensures CompileNode(n, o) == Err(MisfitError(front, c))
  {
    NamesIff(n.attributes, "slot");
    GroupingAccepts(front);
    MisfitRejected(GroupSlots(front).value, front, c);
    assert (front + [c])[..|front|] == front;
    assert GroupSlots(front + [c]) == Err(MisfitError(front, c));
    ErrorsStay(front + [c], back);
  }

  lemma InkInSlotted(n: Node, attributes: seq<Attribute>, inner: seq<Child>, o: Output)
    requires n.kind.ComponentKind? && !Names(n.attributes, "slot") && n.children == [Slotted(attributes, inner)]
    requires IsWellFormed(n.children[0]) && Text(false) in inner
    ensures CompileNode(n, o) == Err(TextNotSupported)
  {
    NamesIff(n.attributes, "slot");
    OneSlot(n.children[0]);
    var o1 := Declare("__component", n.tag, Prototype(None, SplitOf(n).statics), o).1;
    InkInGroup(Group(SlotName(attributes).value, inner), o1);
  }

  lemma OneSlot(c: Child)
    requires c.Slotted? && IsWellFormed(c)
    ensures GroupSlots([c]).Ok? && GroupSlots([c]).value.groups == [Group(SlotName(c.attributes).value, c.children)]
  {
    var g := Group(SlotName(c.attributes).value, c.children);
    assert [c][..0] == [] && [] + [g] == [g];
    assert GroupSlots([]) == Ok(Grouped([], false, false));
  }

  lemma InkInGroup(g: Group, o: Output)
    requires Text(false) in g.children
    ensures CompileGroups([g], o) == Err(TextNotSupported)
  {
    var i :| 0 <= i < |g.children| && g.children[i] == Text(false);
    assert HasInk(g.children);
    assert [g][..0] == [];
    assert CompileGroups([], o) == Ok(Compiled([], o));
  }
}
