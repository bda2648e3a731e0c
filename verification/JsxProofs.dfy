/** Compiled trees render what they mean: hoisted attributes, slots, lazy elements, flattened
    blocks, and the identifiers that connect calls to prototypes. */
module JsxProofs {
  import opened Wrappers
  import opened Jsx
  import opened JsxRuntime

  // ----- what the source guarantees about its trees -----

  /** Exactly the spreads have no name, and no name is given twice. */
  predicate AttributesValid(attributes: seq<Attribute>) {
    && (forall i :: 0 <= i < |attributes| ==> (attributes[i].kind.Spread? <==> attributes[i].name.None?))
    && (forall i, j :: 0 <= i < j < |attributes| && attributes[i].name.Some? ==> attributes[i].name != attributes[j].name)
  }

  predicate HasValidAttributes(n: Node) {
    AttributesValid(n.attributes)
  }

  /** `p` holds of a node and of every node inside it. */
  predicate Everywhere(p: Node -> bool, n: Node)
    decreases n
  {
    p(n) && EverywhereBelow(p, n.children)
  }

  predicate EverywhereIn(p: Node -> bool, c: Child)
    decreases c
  {
    match c
    case Nested(n) => Everywhere(p, n)
    case Guarded(_, n) => Everywhere(p, n)
    case Slotted(_, cs) => EverywhereBelow(p, cs)
    case _ => true
  }

  predicate EverywhereBelow(p: Node -> bool, cs: seq<Child>)
    decreases cs
  {
    cs != [] ==> EverywhereIn(p, cs[0]) && EverywhereBelow(p, cs[1..])
  }

  predicate NodeValid(n: Node) {
    Everywhere(HasValidAttributes, n)
  }

  lemma {:induction false} EverywhereConcat(p: Node -> bool, a: seq<Child>, b: seq<Child>)
    ensures EverywhereBelow(p, a + b) <==> EverywhereBelow(p, a) && EverywhereBelow(p, b)
    decreases |a|
  {
    if a == [] {
      assert a + b == b;
    } else {
      assert (a + b)[1..] == a[1..] + b;
      EverywhereConcat(p, a[1..], b);
    }
  }

  predicate EverywhereInGroups(p: Node -> bool, groups: seq<Group>) {
    forall i :: 0 <= i < |groups| ==> EverywhereBelow(p, groups[i].children)
  }

  lemma {:induction false} EverywhereGrouped(p: Node -> bool, cs: seq<Child>)
    requires EverywhereBelow(p, cs) && GroupSlots(cs).Ok?
    ensures EverywhereInGroups(p, GroupSlots(cs).value.groups)
    decreases |cs|
  {
    if cs != [] {
      var front, c := cs[..|cs| - 1], cs[|cs| - 1];
      assert cs == front + [c] && [c][1..] == [];
      EverywhereConcat(p, front, [c]);
      EverywhereGrouped(p, front);
      var g := GroupSlots(front).value;
      if c.Slotted? {
        if SlotName(c.attributes).value.None? { EverywhereInserted(p, g.groups, c.children); }
      } else if !c.EmptyExpression? && !c.Text? {
        EverywhereInserted(p, g.groups, [c]);
      }
    }
  }

  lemma EverywhereInserted(p: Node -> bool, groups: seq<Group>, children: seq<Child>)
    requires EverywhereInGroups(p, groups) && EverywhereBelow(p, children) && InsertUnnamed(groups, children).Ok?
    ensures EverywhereInGroups(p, InsertUnnamed(groups, children).value)
  {
    if groups != [] {
      EverywhereConcat(p, groups[|groups| - 1].children, children);
    }
  }

  lemma {:induction false} EverywhereKept(p: Node -> bool, cs: seq<Child>)
    requires EverywhereBelow(p, cs)
    ensures EverywhereBelow(p, Visible(cs)) && EverywhereBelow(p, WithoutText(cs))
    decreases |cs|
  {
    if cs != [] {
      EverywhereKept(p, cs[1..]);
      assert ([cs[0]] + Visible(cs[1..]))[1..] == Visible(cs[1..]);
      assert ([cs[0]] + WithoutText(cs[1..]))[1..] == WithoutText(cs[1..]);
    }
  }

  // ----- hoisting -----

  lemma {:induction false} OrdinaryAreSome(attributes: seq<Attribute>, kind: NodeKind)
    requires AttributesValid(attributes)
    ensures AttributesValid(Ordinary(attributes, kind))
    ensures forall a <- Ordinary(attributes, kind) :: a in attributes
  {
    if attributes != [] {
      var front, a := attributes[..|attributes| - 1], attributes[|attributes| - 1];
      OrdinaryAreSome(front, kind);
      var before := Ordinary(front, kind);
      forall i | 0 <= i < |before| && a.name.Some? ensures before[i].name != a.name {
        assert before[i] in before;
        var j :| 0 <= j < |front| && front[j] == before[i];
        assert attributes[j] == before[i];
      }
    }
  }

  /** Setting a name that a spread-free list does not set can be done before or after the list. */
  lemma {:induction false} SetCommutes(env: Env, attributes: seq<Attribute>, base: Attributes, name: string, v: Value)
    requires forall a <- attributes :: a.name.Some? && a.name != Some(name)
    ensures Apply(env, attributes, base[name := v]) == Apply(env, attributes, base)[name := v]
  {
    if attributes != [] {
      var front, a := attributes[..|attributes| - 1], attributes[|attributes| - 1];
      assert a in attributes;
      SetCommutes(env, front, base, name, v);
      var before := Apply(env, front, base);
      assert before[name := v][a.name.value := env.valueOf(a.value)] == before[a.name.value := env.valueOf(a.value)][name := v];
    }
  }

  lemma ApplyAppend(env: Env, attributes: seq<Attribute>, a: Attribute, base: Attributes)
    ensures var before := Apply(env, attributes, base);
            Apply(env, attributes + [a], base)
            == if a.name.Some? then before[a.name.value := env.valueOf(a.value)] else before + env.spreadOf(a.value)
  {
    assert (attributes + [a])[..|attributes|] == attributes;
  }

  lemma {:induction false} DynamicsAreSome(attributes: seq<Attribute>, kind: NodeKind)
    requires AttributesValid(attributes)
    ensures var s := Sorted(attributes, kind);
            && (forall a <- s.dynamics :: a in attributes && (!s.foundSpread ==> a.name.Some?))
            && (forall a <- s.injected :: a.name.Some?)
  {
    if attributes != [] {
      DynamicsAreSome(attributes[..|attributes| - 1], kind);
    }
  }

  /** A static attribute may be applied before dynamic ones that no spread has entered yet. */
  lemma StaticCommutes(env: Env, attributes: seq<Attribute>, kind: NodeKind, a: Attribute, base: Attributes)
    requires a.name.Some? && AttributesValid(attributes + [a]) && a.kind.StaticValue? && !Sorted(attributes, kind).foundSpread
    ensures var s := Sorted(attributes, kind);
            Apply(env, s.dynamics, base[a.name.value := env.valueOf(a.value)])
            == Apply(env, s.dynamics, base)[a.name.value := env.valueOf(a.value)]
  {
    var all, s := attributes + [a], Sorted(attributes, kind);
    assert attributes == all[..|attributes|];
    assert all[|attributes|] == a;
    assert AttributesValid(attributes);
    DynamicsAreSome(attributes, kind);
    forall b | b in s.dynamics ensures b.name.Some? && b.name != a.name {
      var i :| 0 <= i < |attributes| && attributes[i] == b;
      assert all[i] == b;
    }
    SetCommutes(env, s.dynamics, base, a.name.value, env.valueOf(a.value));
  }

  /** The hoisted statics, then the dynamic calls, give every attribute the value it has when
      all of them are applied from left to right; injected attributes likewise. */
  lemma {:induction false} HoistingKeepsAttributes(env: Env, attributes: seq<Attribute>, kind: NodeKind)
    requires AttributesValid(attributes)
    ensures var s := Sorted(attributes, kind);
            && Apply(env, s.dynamics, Apply(env, s.statics, map[])) == Apply(env, Uninjected(attributes, kind), map[])
            && s.injected == Injected(attributes, kind)
  {
    if attributes != [] {
      var front, a := attributes[..|attributes| - 1], attributes[|attributes| - 1];
      assert front + [a] == attributes;
      HoistingKeepsAttributes(env, front, kind);
      ApplyAppend(env, Sorted(front, kind).dynamics, a, Apply(env, Sorted(front, kind).statics, map[]));
      ApplyAppend(env, Uninjected(front, kind), a, map[]);
      if a.kind.StaticValue? && !Sorted(front, kind).foundSpread && !IsInjected(a.name, kind) {
        StaticHoists(env, front, kind, a);
      }
    }
  }

  /** One more static attribute joins the prototype instead of the calls. */
  lemma StaticHoists(env: Env, front: seq<Attribute>, kind: NodeKind, a: Attribute)
    requires AttributesValid(front + [a]) && a.name.Some? && a.kind.StaticValue? && !Sorted(front, kind).foundSpread
    ensures var s := Sorted(front, kind);
            Apply(env, s.dynamics, Apply(env, s.statics + [a], map[]))
            == Apply(env, s.dynamics, Apply(env, s.statics, map[]))[a.name.value := env.valueOf(a.value)]
  {
    var s := Sorted(front, kind);
    ApplyAppend(env, s.statics, a, map[]);
    StaticCommutes(env, front, kind, a, Apply(env, s.statics, map[]));
  }

  lemma NothingInjectedOutsideComponents(attributes: seq<Attribute>, kind: NodeKind)
    requires !kind.ComponentKind?
    ensures Uninjected(attributes, kind) == attributes
  {
    if attributes != [] {
      NothingInjectedOutsideComponents(attributes[..|attributes| - 1], kind);
    }
  }

  // ----- running lists of calls -----

  lemma {:induction false} ExecConcat(env: Env, protos: seq<Declaration>, a: seq<Stmt>, b: seq<Stmt>, m: Machine)
    ensures ExecAll(env, protos, a + b, m) ==
            (var r := ExecAll(env, protos, a, m); if r.None? then None else ExecAll(env, protos, b, r.value))
    decreases a
  {
    if a == [] {
      assert a + b == b;
    } else {
      assert (a + b)[1..] == a[1..] + b;
      var next := Exec(env, protos, a[0], m);
      if next.Some? { ExecConcat(env, protos, a[1..], b, next.value); }
    }
  }

  lemma ExecOne(env: Env, protos: seq<Declaration>, s: Stmt, m: Machine)
    ensures ExecAll(env, protos, [s], m) == Exec(env, protos, s, m)
  {
    assert [s][1..] == [];
  }

  lemma ExecThen(env: Env, protos: seq<Declaration>, s: Stmt, rest: seq<Stmt>, m: Machine)
    ensures ExecAll(env, protos, [s] + rest, m) ==
            (var r := Exec(env, protos, s, m); if r.None? then None else ExecAll(env, protos, rest, r.value))
  {
    ExecOne(env, protos, s, m);
    ExecConcat(env, protos, [s], rest, m);
  }

  lemma ExecVia(env: Env, protos: seq<Declaration>, a: seq<Stmt>, b: seq<Stmt>, m: Machine, mid: Machine, end: Machine)
    requires ExecAll(env, protos, a, m) == Some(mid) && ExecAll(env, protos, b, mid) == Some(end)
    ensures ExecAll(env, protos, a + b, m) == Some(end)
  {
    ExecConcat(env, protos, a, b, m);
  }

  /** Merging the blocks that the compiler made into the list changes nothing. */
  lemma {:induction false} FlatteningKeepsMeaning(
      env: Env, protos: seq<Declaration>, wasBlock: seq<bool>, ss: seq<Stmt>, m: Machine)
    requires |wasBlock| == |ss|
    ensures ExecAll(env, protos, FlattenBlocks(wasBlock, ss), m) == ExecAll(env, protos, ss, m)
    decreases |ss|
  {
    if ss != [] {
      var last := |ss| - 1;
      FlatteningKeepsMeaning(env, protos, wasBlock[..last], ss[..last], m);
      assert ss == ss[..last] + [ss[last]];
      ExecConcat(env, protos, ss[..last], [ss[last]], m);
      var flat := FlattenBlocks(wasBlock[..last], ss[..last]);
      var tail := if ss[last].Block? && !wasBlock[last] then ss[last].statements else [ss[last]];
      ExecConcat(env, protos, flat, tail, m);
      var r := ExecAll(env, protos, ss[..last], m);
      if r.Some? { UnwrappingKeepsMeaning(env, protos, wasBlock[last], ss[last], r.value); }
    }
  }

  lemma UnwrappingKeepsMeaning(env: Env, protos: seq<Declaration>, wasBlock: bool, s: Stmt, m: Machine)
    ensures ExecAll(env, protos, if s.Block? && !wasBlock then s.statements else [s], m) == ExecAll(env, protos, [s], m)
  {
    ExecOne(env, protos, s, m);
  }

  lemma MergingKeepsMeaning(env: Env, protos: seq<Declaration>, ss: seq<Stmt>, m: Machine)
    ensures Exec(env, protos, MergeStatements(ss), m) == ExecAll(env, protos, ss, m)
    ensures ExecAll(env, protos, BlockBody([MergeStatements(ss)]), m) == ExecAll(env, protos, ss, m)
  {
    if |ss| == 1 {
      assert ss == [ss[0]];
      ExecOne(env, protos, ss[0], m);
    }
    ExecOne(env, protos, MergeStatements(ss), m);
  }

  lemma BodyKeepsMeaning(env: Env, protos: seq<Declaration>, ss: seq<Stmt>, m: Machine)
    ensures ExecAll(env, protos, BlockBody(ss), m) == ExecAll(env, protos, ss, m)
  {
    if |ss| == 1 {
      assert ss == [ss[0]];
      ExecOne(env, protos, ss[0], m);
    }
  }

  lemma WithTopTwice(m: Machine, a: Rendered, b: Rendered)
    requires m.stack != []
    ensures WithTop(WithTop(m, a), b) == WithTop(m, b)
  {
  }

  lemma {:induction false} AttributeCallsRun(env: Env, protos: seq<Declaration>, dynamics: seq<Attribute>, m: Machine)
    requires m.stack != [] && Top(m).Element?
    ensures ExecAll(env, protos, AttributeCalls(dynamics), m)
         == Some(WithTop(m, Top(m).(attributes := Apply(env, dynamics, Top(m).attributes))))
  {
    if dynamics == [] {
      assert WithTop(m, Top(m)) == m;
    } else {
      var front, a := dynamics[..|dynamics| - 1], dynamics[|dynamics| - 1];
      AttributeCallsRun(env, protos, front, m);
      var call := if a.name.None? then SetAttributes(a.value) else SetAttribute(a.name.value, a.value);
      var r := WithTop(m, Top(m).(attributes := Apply(env, front, Top(m).attributes)));
      ExecConcat(env, protos, AttributeCalls(front), [call], m);
      ExecOne(env, protos, call, r);
      WithTopTwice(m, Top(r), Top(m).(attributes := Apply(env, dynamics, Top(m).attributes)));
    }
  }

  lemma {:induction false} ViewModelCallsRun(env: Env, protos: seq<Declaration>, dynamics: seq<Attribute>, m: Machine)
    requires m.stack != [] && Top(m).Component?
    ensures ExecAll(env, protos, ViewModelCalls(dynamics), m)
         == Some(WithTop(m, Top(m).(viewModel := Apply(env, dynamics, Top(m).viewModel))))
  {
    if dynamics == [] {
      assert WithTop(m, Top(m)) == m;
    } else {
      var front, a := dynamics[..|dynamics| - 1], dynamics[|dynamics| - 1];
      ViewModelCallsRun(env, protos, front, m);
      var call := if a.name.None? then SetViewModelProperties(a.value) else SetViewModelProperty(a.name.value, a.value);
      var r := WithTop(m, Top(m).(viewModel := Apply(env, front, Top(m).viewModel)));
      ExecConcat(env, protos, ViewModelCalls(front), [call], m);
      ExecOne(env, protos, call, r);
      WithTopTwice(m, Top(r), Top(m).(viewModel := Apply(env, dynamics, Top(m).viewModel)));
    }
  }

  lemma {:induction false} InjectedCallsRun(env: Env, protos: seq<Declaration>, injected: seq<Attribute>, m: Machine)
    requires m.stack != [] && Top(m).Component? && forall a <- injected :: a.name.Some?
    ensures ExecAll(env, protos, InjectedCalls(injected), m)
         == Some(WithTop(m, Top(m).(injected := Apply(env, injected, Top(m).injected))))
  {
    if injected == [] {
      assert WithTop(m, Top(m)) == m;
    } else {
      var front, a := injected[..|injected| - 1], injected[|injected| - 1];
      assert a in injected && forall b <- front :: b in injected;
      InjectedCallsRun(env, protos, front, m);
      var call := SetInjectedAttribute(a.name.value, a.value);
      var r := WithTop(m, Top(m).(injected := Apply(env, front, Top(m).injected)));
      ExecConcat(env, protos, InjectedCalls(front), [call], m);
      ExecOne(env, protos, call, r);
      WithTopTwice(m, Top(r), Top(m).(injected := Apply(env, injected, Top(m).injected)));
    }
  }

  // ----- prototypes -----

  lemma LookupFinds(protos: seq<Declaration>, i: nat)
    requires NamesDistinct(protos) && i < |protos|
    ensures Lookup(protos, protos[i].name) == Some(protos[i].prototype)
  {
    if i > 0 {
      assert protos[1..][i - 1] == protos[i];
      LookupFinds(protos[1..], i - 1);
    }
  }

  lemma DeclaredIsFound(prefix: string, tag: string, prototype: Prototype, o: Output, protos: seq<Declaration>)
    requires NamesDistinct(protos) && Declare(prefix, tag, prototype, o).1.declarations <= protos
    ensures Lookup(protos, Declare(prefix, tag, prototype, o).0) == Some(prototype)
  {
    var (name, o') := Declare(prefix, tag, prototype, o);
    assert protos[|o.declarations|] == o'.declarations[|o.declarations|] == Declaration(name, prototype);
    LookupFinds(protos, |o.declarations|);
  }
}
