/** What the parts of a rendered node are, told by its attributes and children alone: which attributes
    reach which map, which one wins, and what becomes of `key`, `ref`, `context` and `lazy`. */
module JsxMeaning {
  import opened Wrappers
  import opened Jsx
  import opened JsxRuntime

  predicate OnlySpreadsAreUnnamed(attributes: seq<Attribute>) {
    forall a <- attributes :: a.kind.Spread? <==> a.name.None?
  }

  /** The last attribute of the name, if there is one. */
  predicate IsLast(attributes: seq<Attribute>, name: string, v: Option<Attribute>) {
    if v.None? then forall a <- attributes :: a.name != Some(name)
    else exists i :: 0 <= i < |attributes| && attributes[i] == v.value && v.value.name == Some(name)
                     && forall a <- attributes[i + 1..] :: a.name != Some(name)
  }

  ghost predicate IsLastValue(attributes: seq<Attribute>, name: string, v: Option<Expr>) {
    exists a: Option<Attribute> :: IsLast(attributes, name, a) && v == if a.Some? then Some(a.value.value) else None
  }

  // ----- which names go where -----

  predicate IsPlainName(x: string) {
    x != "slot" && x != "key" && x != "ref"
  }

  predicate IsInjectedName(x: string) {
    |x| > 0 && x[0] == '$'
  }

  predicate IsViewModelName(x: string) {
    IsPlainName(x) && x != "context" && !IsInjectedName(x)
  }

  /** The maps that attributes can reach; spreads reach the first two. */
  datatype Target = OfElement | OfViewModel | OfInjected

  predicate Keeps(t: Target, x: string) {
    match t
    case OfElement => IsPlainName(x)
    case OfViewModel => IsViewModelName(x)
    case OfInjected => IsInjectedName(x)
  }

  predicate Gives(env: Env, t: Target, a: Attribute, x: string) {
    if a.name.Some? then a.name.value == x && Keeps(t, x) else !t.OfInjected? && x in env.spreadOf(a.value)
  }

  function Given(env: Env, t: Target, a: Attribute, x: string): Value
    requires Gives(env, t, a, x)
  {
    if a.name.Some? then env.valueOf(a.value) else env.spreadOf(a.value)[x]
  }

  /** `x` has the value that the last attribute giving it gives. */
  ghost predicate IsGivenLast(env: Env, t: Target, attributes: seq<Attribute>, x: string, v: Value) {
    exists i :: 0 <= i < |attributes| && Gives(env, t, attributes[i], x) && Given(env, t, attributes[i], x) == v
                && forall a <- attributes[i + 1..] :: !Gives(env, t, a, x)
  }

  ghost predicate IsGiven(env: Env, t: Target, attributes: seq<Attribute>, x: string) {
    exists a <- attributes :: Gives(env, t, a, x)
  }

  ghost predicate HoldsAt(env: Env, t: Target, attributes: seq<Attribute>, x: string, m: Attributes) {
    (x in m <==> IsGiven(env, t, attributes, x)) && (x in m ==> IsGivenLast(env, t, attributes, x, m[x]))
  }

  ghost predicate Holds(env: Env, t: Target, attributes: seq<Attribute>, m: Attributes) {
    forall x: string :: HoldsAt(env, t, attributes, x, m)
  }

  lemma GivenByOneMore(env: Env, t: Target, front: seq<Attribute>, a: Attribute, x: string, m: Attributes)
    requires Gives(env, t, a, x) && x in m && m[x] == Given(env, t, a, x)
    ensures HoldsAt(env, t, front + [a], x, m)
  {
    var all := front + [a];
    assert all[|front|] == a && all[|front| + 1..] == [];
    assert a in all;
  }

  lemma NotGivenByOneMore(env: Env, t: Target, front: seq<Attribute>, a: Attribute, x: string, m: Attributes, m': Attributes)
    requires HoldsAt(env, t, front, x, m) && !Gives(env, t, a, x)
    requires (x in m' <==> x in m) && (x in m ==> m'[x] == m[x])
    ensures HoldsAt(env, t, front + [a], x, m')
  {
    var all := front + [a];
    assert forall b :: b in all <==> b in front || b == a;
    if x in m {
      var i :| 0 <= i < |front| && Gives(env, t, front[i], x) && Given(env, t, front[i], x) == m[x]
               && forall b <- front[i + 1..] :: !Gives(env, t, b, x);
      assert all[i] == front[i] && all[i + 1..] == front[i + 1..] + [a];
      assert IsGivenLast(env, t, all, x, m[x]);
    }
  }

  /** Setting one attribute more. */
  function Set(env: Env, a: Attribute, m: Attributes): Attributes {
    if a.name.Some? then m[a.name.value := env.valueOf(a.value)] else m + env.spreadOf(a.value)
  }

  lemma ApplyOneMore(env: Env, before: seq<Attribute>, a: Attribute)
    ensures Apply(env, before + [a], map[]) == Set(env, a, Apply(env, before, map[]))
  {
    assert (before + [a])[..|before|] == before;
  }

  lemma SetHolds(env: Env, t: Target, front: seq<Attribute>, a: Attribute, x: string, m: Attributes)
    requires HoldsAt(env, t, front, x, m)
    requires if a.name.Some? then Keeps(t, a.name.value) else !t.OfInjected?
    ensures HoldsAt(env, t, front + [a], x, Set(env, a, m))
  {
    if Gives(env, t, a, x) {
      GivenByOneMore(env, t, front, a, x, Set(env, a, m));
    } else {
      NotGivenByOneMore(env, t, front, a, x, m, Set(env, a, m));
    }
  }

  lemma SkippedHolds(env: Env, t: Target, front: seq<Attribute>, a: Attribute, x: string, m: Attributes)
    requires HoldsAt(env, t, front, x, m)
    requires if a.name.Some? then !Keeps(t, a.name.value) else t.OfInjected?
    ensures HoldsAt(env, t, front + [a], x, m)
  {
    NotGivenByOneMore(env, t, front, a, x, m, m);
  }

  /** The attributes that the compiler sends to a target. */
  function Sent(t: Target, attributes: seq<Attribute>, kind: NodeKind): seq<Attribute> {
    match t
    case OfElement => Ordinary(attributes, kind)
    case OfViewModel => Uninjected(Ordinary(attributes, kind), kind)
    case OfInjected => Injected(Ordinary(attributes, kind), kind)
  }

  lemma SentOneMore(t: Target, front: seq<Attribute>, a: Attribute, kind: NodeKind)
    requires (a.kind.Spread? <==> a.name.None?) && (kind.ComponentKind? <==> !t.OfElement?)
    ensures Sent(t, front + [a], kind) == Sent(t, front, kind)
            + if (if a.name.Some? then Keeps(t, a.name.value) else !t.OfInjected?) then [a] else []
  {
    assert (front + [a])[..|front|] == front;
    var before := Ordinary(front, kind);
    assert Ordinary(front + [a], kind) == if IsReserved(a.name, kind) then before else before + [a];
    assert (before + [a])[..|before|] == before;
    assert Sent(t, front, kind) + [] == Sent(t, front, kind);
  }

  lemma {:induction false} AttributeHolds(env: Env, t: Target, attributes: seq<Attribute>, kind: NodeKind, x: string)
    requires OnlySpreadsAreUnnamed(attributes) && (kind.ComponentKind? <==> !t.OfElement?)
    ensures HoldsAt(env, t, attributes, x, Apply(env, Sent(t, attributes, kind), map[]))
    decreases |attributes|
  {
    if attributes != [] {
      var front, a := attributes[..|attributes| - 1], attributes[|attributes| - 1];
      var before := Sent(t, front, kind);
      assert attributes == front + [a] && a in attributes;
      AttributeHolds(env, t, front, kind, x);
      SentOneMore(t, front, a, kind);
      if (if a.name.Some? then Keeps(t, a.name.value) else !t.OfInjected?) {
        ApplyOneMore(env, before, a);
        SetHolds(env, t, front, a, x, Apply(env, before, map[]));
      } else {
        assert before + [] == before;
        SkippedHolds(env, t, front, a, x, Apply(env, before, map[]));
      }
    }
  }

  /** Every target holds what the attributes that it keeps give it, the last one winning. */
  lemma AttributesHold(env: Env, t: Target, attributes: seq<Attribute>, kind: NodeKind)
    requires OnlySpreadsAreUnnamed(attributes) && (kind.ComponentKind? <==> !t.OfElement?)
    ensures Holds(env, t, attributes, Apply(env, Sent(t, attributes, kind), map[]))
  {
    forall x: string ensures HoldsAt(env, t, attributes, x, Apply(env, Sent(t, attributes, kind), map[])) {
      AttributeHolds(env, t, attributes, kind, x);
    }
  }

  lemma LastWithOneMore(front: seq<Attribute>, a: Attribute, name: string, v: Option<Attribute>)
    requires a.name == Some(name) || IsLast(front, name, v)
    ensures IsLast(front + [a], name, if a.name == Some(name) then Some(a) else v)
  {
    var all := front + [a];
    if a.name == Some(name) {
      assert all[|front|] == a && all[|front| + 1..] == [];
    } else if v.Some? {
      var i :| 0 <= i < |front| && front[i] == v.value && v.value.name == Some(name)
               && forall b <- front[i + 1..] :: b.name != Some(name);
      assert all[i] == front[i] && all[i + 1..] == front[i + 1..] + [a];
    }
  }

  lemma {:induction false} LastValue(attributes: seq<Attribute>, name: string) returns (a: Option<Attribute>)
    ensures IsLast(attributes, name, a) && ValueOf(attributes, name) == if a.Some? then Some(a.value.value) else None
    ensures name == "context" ==> ContextAttribute(attributes) == a
    decreases |attributes|
  {
    if attributes == [] {
      a := None;
    } else {
      var front, last := attributes[..|attributes| - 1], attributes[|attributes| - 1];
      assert attributes == front + [last];
      a := LastValue(front, name);
      LastWithOneMore(front, last, name, a);
      if last.name == Some(name) { a := Some(last); }
    }
  }

  // ----- nodes -----

  /** The node's `key` and `ref` are the last ones. */
  lemma KeyAndRef(attributes: seq<Attribute>)
    ensures IsLastValue(attributes, "key", ValueOf(attributes, "key"))
    ensures IsLastValue(attributes, "ref", ValueOf(attributes, "ref"))
    ensures IsLastValue(attributes, "name", ValueOf(attributes, "name"))
  {
    var key := LastValue(attributes, "key");
    var ref := LastValue(attributes, "ref");
    var name := LastValue(attributes, "name");
  }

  /** An element has its tag, its children in order and every attribute but `slot`, `key` and `ref`. Only
      one with an attribute `lazy` is asked for, and left as it is when the answer is no. */
  lemma ElementMeans(env: Env, n: Node, tick: nat)
    requires n.kind.ElementKind? && OnlySpreadsAreUnnamed(n.attributes)
    ensures var asks := exists a <- n.attributes :: a.name == Some("lazy");
            var meant := MeanNode(env, n, tick);
            if asks && !env.needed(tick) then
              |meant.value| == 1 && meant.value[0].Untouched? && meant.value[0].elementTag == n.tag && meant.tick == tick + 1
              && IsLastValue(n.attributes, "key", meant.value[0].elementKey)
            else
              var r := meant.value[0];
              && |meant.value| == 1 && r.Element? && r.tag == n.tag
              && IsLastValue(n.attributes, "key", r.key) && IsLastValue(n.attributes, "ref", r.ref)
              && Holds(env, OfElement, n.attributes, r.attributes)
              && Meant(r.children, meant.tick) == MeanChildren(env, n.children, if asks then tick + 1 else tick)
  {
    KeyAndRef(n.attributes);
    AttributesHold(env, OfElement, n.attributes, n.kind);
    if IsLazy(n) {
      var i :| 0 <= i < |n.attributes| && n.attributes[i].name == Some("lazy");
      assert n.attributes[i] in n.attributes;
    }
  }

  /** A component's attributes go to its view model, those with a `$` are injected, and `context` is the
      last one of that name, unless it is `undefined`. */
  lemma ComponentMeans(env: Env, n: Node, tick: nat)
    requires n.kind.ComponentKind? && OnlySpreadsAreUnnamed(n.attributes)
    ensures var meant := MeanNode(env, n, tick); var r := meant.value[0];
            && |meant.value| == 1 && r.Component? && r.componentClass == n.tag
            && IsLastValue(n.attributes, "key", r.componentKey) && IsLastValue(n.attributes, "ref", r.componentRef)
            && Holds(env, OfViewModel, n.attributes, r.viewModel) && Holds(env, OfInjected, n.attributes, r.injected)
            && Meant(r.slots, meant.tick) == MeanSlots(env, n.children, tick)
    ensures exists a: Option<Attribute> :: IsLast(n.attributes, "context", a)
              && MeanNode(env, n, tick).value[0].context == if a.None? || a.value.kind.UndefinedValue? then None else Some(a.value.value)
  {
    KeyAndRef(n.attributes);
    AttributesHold(env, OfViewModel, n.attributes, n.kind);
    AttributesHold(env, OfInjected, n.attributes, n.kind);
    var a := LastValue(n.attributes, "context");
  }

  lemma {:induction false} VisibleIff(cs: seq<Child>)
    ensures Visible(cs) == [] <==> forall c <- cs :: c.Text? || c.EmptyExpression?
    decreases |cs|
  {
    if cs != [] {
      VisibleIff(cs[1..]);
      assert cs == [cs[0]] + cs[1..];
    }
  }

  /** A function gets its attributes as properties, and a function for its children iff it has some
      besides text and empty expressions. */
  lemma FunctionMeans(env: Env, n: Node, tick: nat)
    requires n.kind.FunctionKind? && OnlySpreadsAreUnnamed(n.attributes)
    ensures var meant := MeanNode(env, n, tick); var r := meant.value[0]; var children := MeanChildren(env, n.children, tick);
            && |meant.value| == 1 && r.FunctionCall? && r.renderFunction == n.tag && meant.tick == children.tick
            && Holds(env, OfElement, n.attributes, r.properties)
            && r.content == if forall c <- n.children :: c.Text? || c.EmptyExpression? then None else Some(children.value)
  {
    AttributesHold(env, OfElement, n.attributes, n.kind);
    VisibleIff(n.children);
  }

  lemma SlotMeans(env: Env, n: Node, tick: nat)
    requires n.kind.SlotKind?
    ensures var meant := MeanNode(env, n, tick); var r := meant.value[0];
            && |meant.value| == 1 && r.SlotOutlet? && meant.tick == tick
            && IsLastValue(n.attributes, "name", r.slotName) && IsLastValue(n.attributes, "ref", r.slotRef)
            && IsLastValue(n.attributes, "key", r.slotKey)
  {
    KeyAndRef(n.attributes);
  }
}
