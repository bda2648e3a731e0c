/** The identifiers that connect renderer calls to their prototypes: which ones a tree declares, and
    exactly when two of them are the same. */
module JsxIdentifiers {
  import opened Wrappers
  import opened Jsx
  import opened JsxRuntime
  import opened JsxProofs
  import opened JsxCorrectness

  // ----- how often a tree uses a prefix -----

  /** The part of a node's identifier before its number. */
  function Readable(n: Node): Option<string> {
    match n.kind
    case ElementKind => Some("__node" + ToPascalCase(n.tag))
    case ComponentKind => Some("__component" + ToPascalCase(n.tag))
    case _ => None
  }

  function Uses(n: Node, q: string): nat
    decreases n
  {
    (if Readable(n) == Some(q) then 1 else 0) + UsesBelow(n.children, q)
  }

  function UsesIn(c: Child, q: string): nat
    decreases c
  {
    match c
    case Nested(n) => Uses(n, q)
    case Guarded(_, n) => Uses(n, q)
    case Slotted(_, cs) => UsesBelow(cs, q)
    case _ => 0
  }

  function UsesBelow(cs: seq<Child>, q: string): nat
    decreases cs
  {
    if cs == [] then 0 else UsesIn(cs[0], q) + UsesBelow(cs[1..], q)
  }

  /** A prefix with a number before its own is also used, and often enough to get there: the eleventh
      `view` and the first `view1`. */
  ghost predicate Collides(cs: seq<Child>) {
    exists p: string, d: nat :: UsesBothWays(cs, p, d)
  }

  predicate UsesBothWays(cs: seq<Child>, p: string, d: nat) {
    d >= 1 && UsesBelow(cs, p) >= 10 * d + 1 && UsesBelow(cs, p + Decimal(d)) >= 1
  }

  lemma {:induction false} UsesConcat(a: seq<Child>, b: seq<Child>, q: string)
    ensures UsesBelow(a + b, q) == UsesBelow(a, q) + UsesBelow(b, q)
    decreases |a|
  {
    if a == [] {
      assert a + b == b;
    } else {
      assert (a + b)[1..] == a[1..] + b;
      UsesConcat(a[1..], b, q);
    }
  }

  lemma {:induction false} UsesKept(cs: seq<Child>, q: string)
    ensures UsesBelow(Visible(cs), q) == UsesBelow(cs, q) == UsesBelow(WithoutText(cs), q)
    decreases |cs|
  {
    if cs != [] {
      UsesKept(cs[1..], q);
      assert ([cs[0]] + Visible(cs[1..]))[1..] == Visible(cs[1..]);
      assert ([cs[0]] + WithoutText(cs[1..]))[1..] == WithoutText(cs[1..]);
    }
  }

  function UsesInGroups(groups: seq<Group>, q: string): nat {
    if groups == [] then 0 else UsesInGroups(groups[..|groups| - 1], q) + UsesBelow(groups[|groups| - 1].children, q)
  }

  lemma UsesInMoreGroups(groups: seq<Group>, g: Group, q: string)
    ensures UsesInGroups(groups + [g], q) == UsesInGroups(groups, q) + UsesBelow(g.children, q)
  {
    assert (groups + [g])[..|groups|] == groups;
  }

  lemma UsesInserted(groups: seq<Group>, children: seq<Child>, q: string)
    requires InsertUnnamed(groups, children).Ok?
    ensures UsesInGroups(InsertUnnamed(groups, children).value, q) == UsesInGroups(groups, q) + UsesBelow(children, q)
  {
    var at := FirstUnnamed(groups);
    if at.None? {
      UsesInMoreGroups(groups, Group(None, children), q);
    } else {
      var front, last := groups[..|groups| - 1], groups[|groups| - 1];
      UsesConcat(last.children, children, q);
      assert groups[at.value := Group(None, last.children + children)] == front + [Group(None, last.children + children)];
      assert groups == front + [last];
      UsesInMoreGroups(front, last, q);
      UsesInMoreGroups(front, Group(None, last.children + children), q);
    }
  }

  lemma {:induction false} UsesGrouped(cs: seq<Child>, q: string)
    requires GroupSlots(cs).Ok?
    ensures UsesInGroups(GroupSlots(cs).value.groups, q) == UsesBelow(cs, q)
    decreases |cs|
  {
    if cs != [] {
      var front, c := cs[..|cs| - 1], cs[|cs| - 1];
      assert cs == front + [c] && [c][1..] == [];
      UsesConcat(front, [c], q);
      UsesGrouped(front, q);
      var g := GroupSlots(front).value;
      if c.Slotted? {
        var name := SlotName(c.attributes).value;
        if name.Some? { UsesInMoreGroups(g.groups, Group(name, c.children), q); }
        else { UsesInserted(g.groups, c.children, q); }
      } else if !c.EmptyExpression? && !c.Text? {
        UsesInserted(g.groups, [c], q);
      }
    }
  }

  // ----- compiling counts them -----

  lemma DeclareCounts(prefix: string, tag: string, prototype: Prototype, o: Output, q: string)
    ensures Count(Declare(prefix, tag, prototype, o).1, q)
         == Count(o, q) + if prefix + ToPascalCase(tag) == q then 1 else 0
  {
  }

  lemma {:induction false} NodeCounts(n: Node, o: Output, q: string)
    requires CompileNode(n, o).Ok?
    ensures Count(CompileNode(n, o).value.output, q) == Count(o, q) + Uses(n, q)
    decreases NodeSize(n), 1
  {
    var statics := SplitOf(n).statics;
    match n.kind
    case ElementKind =>
      DeclareCounts("__node", n.tag, Prototype(Some(n.tag), statics), o, q);
      ChildrenCount(n.children, Declare("__node", n.tag, Prototype(Some(n.tag), statics), o).1, q);
    case ComponentKind =>
      DeclareCounts("__component", n.tag, Prototype(None, statics), o, q);
      GroupSlotsSize(n.children);
      UsesGrouped(n.children, q);
      GroupsCount(GroupSlots(n.children).value.groups, Declare("__component", n.tag, Prototype(None, statics), o).1, q);
    case FunctionKind =>
      VisibleSize(n.children);
      UsesKept(n.children, q);
      EachCounts(Visible(n.children), o, q);
    case SlotKind =>
  }

  lemma {:induction false} EachCounts(cs: seq<Child>, o: Output, q: string)
    requires TransformEach(cs, o).Ok?
    ensures Count(TransformEach(cs, o).value.output, q) == Count(o, q) + UsesBelow(cs, q)
    decreases ChildrenSize(cs), 1
  {
    if cs != [] {
      assert ChildrenSize(cs) == ChildSize(cs[0]) + ChildrenSize(cs[1..]);
      if cs[0].Nested? || cs[0].Guarded? { NodeCounts(cs[0].node, o, q); }
      EachCounts(cs[1..], TransformChild(cs[0], o).value.output, q);
    }
  }

  /** Compiling advances the counter of each prefix by the number of nodes that use it. */
  lemma {:induction false} ChildrenCount(cs: seq<Child>, o: Output, q: string)
    requires CompileChildren(cs, o).Ok?
    ensures Count(CompileChildren(cs, o).value.output, q) == Count(o, q) + UsesBelow(cs, q)
    decreases ChildrenSize(cs), 2
  {
    WithoutTextSize(cs);
    UsesKept(cs, q);
    EachCounts(WithoutText(cs), o, q);
  }

  lemma {:induction false} GroupsCount(groups: seq<Group>, o: Output, q: string)
    requires CompileGroups(groups, o).Ok?
    ensures Count(CompileGroups(groups, o).value.output, q) == Count(o, q) + UsesInGroups(groups, q)
    decreases GroupsSize(groups), 3, |groups|
  {
    if groups != [] {
      var front, g := groups[..|groups| - 1], groups[|groups| - 1];
      GroupsCount(front, o, q);
      VisibleSize(g.children);
      UsesKept(g.children, q);
      ChildrenCount(Visible(g.children), CompileGroups(front, o).value.output, q);
    }
  }

  // ----- every number up to the count is declared, once -----

  /** Where a declared name comes from. */
  datatype Origin = Origin(prefix: string, number: nat)

  function NameOf(origin: Origin): string {
    origin.prefix + Decimal(origin.number)
  }

  /** The declarations are those of `origins`: each prefix with each number up to its count, once. */
  ghost predicate IsNumberedBy(o: Output, origins: seq<Origin>) {
    && |origins| == |o.declarations|
    && (forall i :: 0 <= i < |origins| ==> o.declarations[i].name == NameOf(origins[i]))
    && (forall i, j :: 0 <= i < j < |origins| ==> origins[i] != origins[j])
    && (forall origin: Origin :: origin in origins <==> 1 <= origin.number <= Count(o, origin.prefix))
  }

  ghost predicate IsNumbered(o: Output) {
    exists origins: seq<Origin> :: IsNumberedBy(o, origins)
  }

  lemma DeclareNumbers(prefix: string, tag: string, prototype: Prototype, o: Output)
    requires IsNumbered(o)
    ensures IsNumbered(Declare(prefix, tag, prototype, o).1)
  {
    var origins: seq<Origin> :| IsNumberedBy(o, origins);
    var readable := prefix + ToPascalCase(tag);
    var added := Origin(readable, Count(o, readable) + 1);
    var o' := Declare(prefix, tag, prototype, o).1;
    var origins' := origins + [added];
    assert added !in origins;
    forall origin: Origin ensures origin in origins' <==> 1 <= origin.number <= Count(o', origin.prefix) {
      assert origin in origins' <==> origin in origins || origin == added;
      DeclareCounts(prefix, tag, prototype, o, origin.prefix);
    }
    forall i | 0 <= i < |origins'| ensures o'.declarations[i].name == NameOf(origins'[i]) {
      if i < |origins| { assert o'.declarations[i] == o.declarations[i]; }
    }
    assert IsNumberedBy(o', origins');
  }

  lemma {:induction false} NodeNumbers(n: Node, o: Output)
    requires CompileNode(n, o).Ok? && IsNumbered(o)
    ensures IsNumbered(CompileNode(n, o).value.output)
    decreases NodeSize(n), 1
  {
    var statics := SplitOf(n).statics;
    match n.kind
    case ElementKind =>
      DeclareNumbers("__node", n.tag, Prototype(Some(n.tag), statics), o);
      ChildrenNumber(n.children, Declare("__node", n.tag, Prototype(Some(n.tag), statics), o).1);
    case ComponentKind =>
      DeclareNumbers("__component", n.tag, Prototype(None, statics), o);
      GroupSlotsSize(n.children);
      GroupsNumber(GroupSlots(n.children).value.groups, Declare("__component", n.tag, Prototype(None, statics), o).1);
    case FunctionKind =>
      VisibleSize(n.children);
      EachNumbers(Visible(n.children), o);
    case SlotKind =>
  }

  lemma {:induction false} EachNumbers(cs: seq<Child>, o: Output)
    requires TransformEach(cs, o).Ok? && IsNumbered(o)
    ensures IsNumbered(TransformEach(cs, o).value.output)
    decreases ChildrenSize(cs), 1
  {
    if cs != [] {
      assert ChildrenSize(cs) == ChildSize(cs[0]) + ChildrenSize(cs[1..]);
      if cs[0].Nested? || cs[0].Guarded? { NodeNumbers(cs[0].node, o); }
      EachNumbers(cs[1..], TransformChild(cs[0], o).value.output);
    }
  }

  lemma {:induction false} ChildrenNumber(cs: seq<Child>, o: Output)
    requires CompileChildren(cs, o).Ok? && IsNumbered(o)
    ensures IsNumbered(CompileChildren(cs, o).value.output)
    decreases ChildrenSize(cs), 2
  {
    WithoutTextSize(cs);
    EachNumbers(WithoutText(cs), o);
  }

  lemma {:induction false} GroupsNumber(groups: seq<Group>, o: Output)
    requires CompileGroups(groups, o).Ok? && IsNumbered(o)
    ensures IsNumbered(CompileGroups(groups, o).value.output)
    decreases GroupsSize(groups), 3, |groups|
  {
    if groups != [] {
      var front, g := groups[..|groups| - 1], groups[|groups| - 1];
      GroupsNumber(front, o);
      VisibleSize(g.children);
      ChildrenNumber(Visible(g.children), CompileGroups(front, o).value.output);
    }
  }

  // ----- decimal numerals -----

  predicate IsDigit(c: char) {
    '0' <= c <= '9'
  }

  lemma {:induction false} DecimalIsDigits(n: nat)
    ensures Decimal(n) != "" && forall i :: 0 <= i < |Decimal(n)| ==> IsDigit(Decimal(n)[i])
  {
    if n >= 10 { DecimalIsDigits(n / 10); }
  }

  lemma DecimalSplits(n: nat)
    ensures var d := Decimal(n);
            && d != "" && d[|d| - 1] as int == '0' as int + n % 10
            && d[..|d| - 1] == (if n < 10 then "" else Decimal(n / 10)) && (|d| == 1 <==> n < 10)
  {
    if n >= 10 { DecimalIsDigits(n / 10); }
  }

  lemma {:induction false} DecimalInjective(i: nat, j: nat)
    requires Decimal(i) == Decimal(j)
    ensures i == j
  {
    DecimalSplits(i);
    DecimalSplits(j);
    if i >= 10 { DecimalInjective(i / 10, j / 10); }
  }

  lemma DropLast(s: string, d: string)
    requires d != ""
    ensures (s + d)[..|s + d| - 1] == s + d[..|d| - 1] && (s + d)[|s + d| - 1] == d[|d| - 1]
  {
  }

  /** What is before the numeral of `k >= 1` at the end of a numeral is itself one, and of a much
      smaller number. */
  lemma {:induction false} NumeralBefore(j: nat, s: string, k: nat) returns (d: nat)
    requires Decimal(j) == s + Decimal(k) && s != "" && k >= 1
    ensures d >= 1 && s == Decimal(d) && j >= 10 * d + 1
    decreases k
  {
    DecimalSplits(j);
    DecimalSplits(k);
    DropLast(s, Decimal(k));
    assert j >= 10;
    if k < 10 {
      assert s + "" == s;
      d := j / 10;
    } else {
      d := NumeralBefore(j / 10, s, k / 10);
    }
  }

  /** Two names are the same only if the prefix of one is that of the other and a numeral. */
  lemma SameName(a: Origin, b: Origin) returns (d: nat)
    requires NameOf(a) == NameOf(b) && a != b && |a.prefix| <= |b.prefix| && a.number >= 1 && b.number >= 1
    ensures d >= 1 && b.prefix == a.prefix + Decimal(d) && a.number >= 10 * d + 1
  {
    var name, s := NameOf(a), b.prefix[|a.prefix|..];
    assert a.prefix == name[..|a.prefix|] && b.prefix == name[..|b.prefix|];
    assert b.prefix == a.prefix + s;
    assert Decimal(a.number) == name[|a.prefix|..] && Decimal(b.number) == name[|b.prefix|..];
    assert Decimal(a.number) == s + Decimal(b.number);
    if s == "" {
      assert Decimal(a.number) == Decimal(b.number) && a.prefix == b.prefix;
      DecimalInjective(a.number, b.number);
      assert false;
    }
    d := NumeralBefore(a.number, s, b.number);
  }

  // ----- exactly when names repeat -----

  lemma OneMoreDigit(d: nat)
    requires d >= 1
    ensures Decimal(10 * d + 1) == Decimal(d) + Decimal(1)
  {
    var n := 10 * d + 1;
    assert n / 10 == d && n % 10 == 1;
    assert Decimal(1) == ['1'];
  }

  lemma NameRepeats(p: string, d: nat)
    requires d >= 1
    ensures NameOf(Origin(p, 10 * d + 1)) == NameOf(Origin(p + Decimal(d), 1))
  {
    OneMoreDigit(d);
    Regroup(p, Decimal(d), Decimal(1));
  }

  lemma Regroup(a: string, b: string, c: string)
    ensures a + (b + c) == (a + b) + c
  {
  }

  lemma CollisionRepeats(cs: seq<Child>, o: Output, origins: seq<Origin>, p: string, d: nat)
    requires IsNumberedBy(o, origins) && forall q: string :: Count(o, q) == UsesBelow(cs, q)
    requires UsesBothWays(cs, p, d)
    ensures !NamesDistinct(o.declarations)
  {
    var a, b := Origin(p, 10 * d + 1), Origin(p + Decimal(d), 1);
    NameRepeats(p, d);
    assert a in origins && b in origins;
    var i :| 0 <= i < |origins| && origins[i] == a;
    var j :| 0 <= j < |origins| && origins[j] == b;
    assert o.declarations[i].name == o.declarations[j].name;
  }

  lemma RepetitionCollides(cs: seq<Child>, o: Output, origins: seq<Origin>)
    requires IsNumberedBy(o, origins) && forall q: string :: Count(o, q) == UsesBelow(cs, q)
    requires !NamesDistinct(o.declarations)
    ensures Collides(cs)
  {
    var i, j :| 0 <= i < j < |o.declarations| && o.declarations[i].name == o.declarations[j].name;
    var a, b := if |origins[i].prefix| <= |origins[j].prefix| then origins[i] else origins[j],
                if |origins[i].prefix| <= |origins[j].prefix| then origins[j] else origins[i];
    assert origins[i] in origins && origins[j] in origins;
    var d := SameName(a, b);
    assert UsesBothWays(cs, a.prefix, d);
  }

  const NO_OUTPUT := Output([], map[])

  /** The constants that a compiled tree declares have distinct names iff no prefix that it uses is
      another one with a number that the other one's counter also passes. */
  lemma NamesDistinctIff(cs: seq<Child>)
    requires CompileChildren(cs, NO_OUTPUT).Ok?
    ensures NamesDistinct(CompileChildren(cs, NO_OUTPUT).value.output.declarations) <==> !Collides(cs)
  {
    var o := CompileChildren(cs, NO_OUTPUT).value.output;
    assert IsNumberedBy(NO_OUTPUT, []);
    ChildrenNumber(cs, NO_OUTPUT);
    var origins: seq<Origin> :| IsNumberedBy(o, origins);
    forall q: string ensures Count(o, q) == UsesBelow(cs, q) {
      ChildrenCount(cs, NO_OUTPUT, q);
    }
    if Collides(cs) {
      var p: string, d: nat :| UsesBothWays(cs, p, d);
      CollisionRepeats(cs, o, origins, p, d);
    } else if !NamesDistinct(o.declarations) {
      RepetitionCollides(cs, o, origins);
    }
  }

  /** The main theorem: from any renderer stack, the compiled file loads, leaves the stack as it was and
      appends exactly what the source means, iff the identifiers of the source do not collide. */
  lemma CompilationPreservesTheTree(env: Env, children: seq<Child>, m: Machine)
    requires CompileChildren(children, NO_OUTPUT).Ok? && Accepts(m)
    requires EverywhereBelow(HasValidAttributes, children)
    ensures RunFile(env, CompileChildren(children, NO_OUTPUT).value, m) == Some(Shown(m, MeanChildren(env, children, m.tick)))
            <==> !Collides(children)
  {
    NamesDistinctIff(children);
    if !Collides(children) {
      ChildrenRun(env, CompileChildren(children, NO_OUTPUT).value.output.declarations, children, NO_OUTPUT, m);
    }
  }

  // ----- trees that cannot collide, and one that does -----

  predicate EndsInDigit(s: string) {
    s != "" && IsDigit(s[|s| - 1])
  }

  predicate TagEndsWithoutDigit(n: Node) {
    !EndsInDigit(ToPascalCase(n.tag))
  }

  lemma ReadableEndsWithoutDigit(n: Node)
    requires TagEndsWithoutDigit(n) && Readable(n).Some?
    ensures !EndsInDigit(Readable(n).value)
  {
    var tag, q := ToPascalCase(n.tag), Readable(n).value;
    if tag == "" {
      assert q[|q| - 1] == if n.kind.ElementKind? then 'e' else 't';
    } else {
      assert q[|q| - 1] == tag[|tag| - 1];
    }
  }

  lemma {:induction false} NodeUsesNoDigit(n: Node, q: string)
    requires Everywhere(TagEndsWithoutDigit, n) && EndsInDigit(q)
    ensures Uses(n, q) == 0
    decreases n
  {
    if Readable(n).Some? { ReadableEndsWithoutDigit(n); }
    ChildrenUseNoDigit(n.children, q);
  }

  lemma {:induction false} ChildUsesNoDigit(c: Child, q: string)
    requires EverywhereIn(TagEndsWithoutDigit, c) && EndsInDigit(q)
    ensures UsesIn(c, q) == 0
    decreases c
  {
    match c
    case Nested(n) => NodeUsesNoDigit(n, q);
    case Guarded(_, n) => NodeUsesNoDigit(n, q);
    case Slotted(_, inner) => ChildrenUseNoDigit(inner, q);
    case _ =>
  }

  lemma {:induction false} ChildrenUseNoDigit(cs: seq<Child>, q: string)
    requires EverywhereBelow(TagEndsWithoutDigit, cs) && EndsInDigit(q)
    ensures UsesBelow(cs, q) == 0
    decreases cs
  {
    if cs != [] {
      ChildUsesNoDigit(cs[0], q);
      ChildrenUseNoDigit(cs[1..], q);
    }
  }

  /** Tags without a number at the end never collide. */
  lemma PlainTagsNeverCollide(cs: seq<Child>)
    requires EverywhereBelow(TagEndsWithoutDigit, cs)
    ensures !Collides(cs)
  {
    if Collides(cs) {
      var p: string, d: nat :| UsesBothWays(cs, p, d);
      DecimalIsDigits(d);
      ChildrenUseNoDigit(cs, p + Decimal(d));
      assert false;
    }
  }

  function Leaf(tag: string): Child {
    Nested(Node(ElementKind, tag, [], []))
  }

  function Leaves(n: nat, tag: string): seq<Child> {
    if n == 0 then [] else [Leaf(tag)] + Leaves(n - 1, tag)
  }

  predicate AreLeaves(cs: seq<Child>) {
    forall c <- cs :: c.Nested? && c.node.kind.ElementKind? && c.node.attributes == [] && c.node.children == []
  }

  lemma {:induction false} LeavesCompile(cs: seq<Child>, o: Output)
    requires AreLeaves(cs)
    ensures TransformEach(cs, o).Ok? && CompileChildren(cs, o).Ok?
    decreases |cs|
  {
    assert WithoutText(cs) == cs by { NoText(cs); }
    if cs != [] {
      assert cs[0] in cs;
      LeavesCompile([], Declare("__node", cs[0].node.tag, Prototype(Some(cs[0].node.tag), SplitOf(cs[0].node).statics), o).1);
      assert CompileNode(cs[0].node, o).Ok?;
      LeavesCompile(cs[1..], TransformChild(cs[0], o).value.output);
    }
  }

  lemma {:induction false} NoText(cs: seq<Child>)
    requires AreLeaves(cs)
    ensures WithoutText(cs) == cs
    decreases |cs|
  {
    if cs != [] {
      assert cs[0] in cs;
      NoText(cs[1..]);
    }
  }

  lemma {:induction false} LeavesUse(n: nat, tag: string)
    ensures AreLeaves(Leaves(n, tag)) && UsesBelow(Leaves(n, tag), "__node" + ToPascalCase(tag)) == n
  {
    if n > 0 {
      var q, leaf, rest := "__node" + ToPascalCase(tag), Leaf(tag), Leaves(n - 1, tag);
      LeavesUse(n - 1, tag);
      assert Leaves(n, tag) == [leaf] + rest && ([leaf] + rest)[1..] == rest;
      assert Readable(leaf.node) == Some(q) && UsesBelow([], q) == 0;
      assert UsesIn(leaf, q) == 1;
    }
  }

  lemma View1IsViewAndOne()
    ensures ToPascalCase("view1") == ToPascalCase("view") + Decimal(1)
  {
    assert "view"[1..] == "iew" && "iew"[1..] == "ew" && "ew"[1..] == "w" && "w"[1..] == "";
    assert "view1"[1..] == "iew1" && "iew1"[1..] == "ew1" && "ew1"[1..] == "w1" && "w1"[1..] == "1" && "1"[1..] == "";
    assert OnlyAlphaNum("view") == "view" && OnlyAlphaNum("view1") == "view1";
  }

  /** A tree that the compiler accepts and whose output does not load: eleven or more times `<view/>`,
      and then `<view1/>`, declare `__nodeView11` twice. */
  lemma ElevenViewsCollide(n: nat, env: Env, m: Machine)
    requires n >= 11
    ensures var tree := Leaves(n, "view") + [Leaf("view1")];
            CompileChildren(tree, NO_OUTPUT).Ok? && RunFile(env, CompileChildren(tree, NO_OUTPUT).value, m) == None
  {
    var views, last, tree := Leaves(n, "view"), [Leaf("view1")], Leaves(n, "view") + [Leaf("view1")];
    var p, q := "__node" + ToPascalCase("view"), "__node" + ToPascalCase("view1");
    LeavesUse(n, "view");
    OneLeafUses("view1");
    View1IsViewAndOne();
    Regroup("__node", ToPascalCase("view"), Decimal(1));
    UsesConcat(views, last, p);
    UsesConcat(views, last, q);
    assert UsesBothWays(tree, p, 1);
    LeavesCompile(tree, NO_OUTPUT);
    NamesDistinctIff(tree);
  }

  lemma OneLeafUses(tag: string)
    ensures AreLeaves([Leaf(tag)]) && UsesBelow([Leaf(tag)], "__node" + ToPascalCase(tag)) == 1
  {
    LeavesUse(1, tag);
    assert Leaves(1, tag) == [Leaf(tag)] + Leaves(0, tag);
    assert Leaves(1, tag) == [Leaf(tag)];
  }
}
