/** When a walk must answer `true`, what a read of a child list holds, and the order of siblings. */
module TreeWalkCompleteness {
  import opened Wrappers
  import opened TreeWalk
  import opened TreeWalkProofs

  // ----- child lists -----

  /** No children, or an array with all its elements readable. */
  predicate IsOrdinary(c: Children) {
    match c
    case Missing => true
    case NotAnArray => true
    case Elements(length, slots) => length == Some(|slots|) && forall s <- slots :: s.enumerable && s.readable
    case Unreadable => false
    case Accessor => false
  }

  predicate IsSmall(c: Children) {
    c.Elements? ==> |c.slots| <= 25_000
  }

  lemma {:induction false} NoMoreThanSlots(slots: seq<Slot>)
    ensures |PlainEntries(slots)| <= |slots|
    decreases |slots|
  {
    if slots != [] { NoMoreThanSlots(slots[..|slots| - 1]); }
  }

  /** Child lists of up to 25,000 elements are read completely iff they are ordinary. */
  lemma ReadsCompletelyIff(c: Children)
    ensures ReadsCompletely(c) ==> IsOrdinary(c)
    ensures IsSmall(c) ==> (ReadsCompletely(c) <==> IsOrdinary(c))
  {
    if c.Elements? && c.slots != [] { NoMoreThanSlots(c.slots[..|c.slots| - 1]); }
  }

  predicate HasAscendingSlots(c: Children) {
    c.Elements? ==> forall i, j :: 0 <= i < j < |c.slots| ==> c.slots[i].index < c.slots[j].index
  }

  predicate AreAscending(entries: seq<ChildEntry>) {
    forall i, j :: 0 <= i < j < |entries| ==> entries[i].index < entries[j].index
  }

  lemma {:induction false} PlainEntriesAscend(slots: seq<Slot>)
    requires forall i, j :: 0 <= i < j < |slots| ==> slots[i].index < slots[j].index
    ensures AreAscending(PlainEntries(slots))
    decreases |slots|
  {
    if slots != [] {
      var front := slots[..|slots| - 1];
      PlainEntriesAscend(front);
      forall e | e in PlainEntries(front) ensures e.index < slots[|slots| - 1].index { PlainEntriesAreSlots(front, e); }
    }
  }

  /** What is read of a small child list are the elements that hold something, in order. */
  lemma EntriesAreTheElements(c: Children)
    requires c.Elements? && IsSmall(c) && HasAscendingSlots(c)
    ensures AreAscending(ReadEntries(c))
    ensures forall index: nat, node: Id :: ChildEntry(index, node) in ReadEntries(c) <==>
              exists s <- c.slots :: s.enumerable && s.readable && s.index == index && s.value == Some(node)
  {
    NoMoreThanSlots(c.slots);
    PlainEntriesAscend(c.slots);
    forall index: nat, node: Id
      ensures ChildEntry(index, node) in ReadEntries(c) <==>
                exists s <- c.slots :: s.enumerable && s.readable && s.index == index && s.value == Some(node)
    {
      PlainEntriesAreSlots(c.slots, ChildEntry(index, node));
    }
  }

  lemma ReadEntriesAscend(c: Children)
    requires HasAscendingSlots(c)
    ensures AreAscending(ReadEntries(c))
  {
    if c.Elements? { PlainEntriesAscend(c.slots); }
  }

  // ----- when the walk answers true -----

  ghost predicate IsClosed(g: Graph, nodes: set<Id>) {
    forall a, b :: a in nodes && IsChild(g, a, b) ==> b in nodes
  }

  /** The walk so far has met nothing that would make it answer `false`. */
  ghost predicate GoesWell(s: Progress, nodes: set<Id>) {
    && s.complete && !s.stopped && s.seen <= nodes && |s.visits| == |s.seen|
  }

  ghost predicate IsGentle(plan: Plan, nodes: set<Id>) {
    && |nodes| <= 25_000 && IsClosed(plan.graph, nodes)
    && (forall v :: !plan.stops(v))
    && forall n <- nodes :: ReadsCompletely(plan.graph(n))
  }

  lemma RoomLeft(seen: set<Id>, nodes: set<Id>, node: Id)
    requires seen <= nodes && node in nodes && node !in seen
    ensures |seen + {node}| == |seen| + 1 <= |nodes|
  {
    assert nodes == (seen + {node}) + (nodes - (seen + {node}));
  }

  lemma {:induction false} EnterGoesWell(
      plan: Plan, node: Id, path: seq<Id>, depth: int, source: Option<nat>, s: Progress, nodes: set<Id>)
    requires |s.visits| <= MAX_TREE_NODES && IsGentle(plan, nodes) && GoesWell(s, nodes) && node in nodes && node !in s.seen
    ensures GoesWell(Enter(plan, node, path, depth, source, s), nodes)
    decreases MAX_TREE_NODES - |s.visits|, 0
  {
    RoomLeft(s.seen, nodes, node);
    var entered := s.(visits := s.visits + [Visit(node, path, depth, source)], seen := s.seen + {node});
    if plan.descends(node, depth) {
      forall e | e in ReadEntries(plan.graph(node)) ensures e.node in nodes { EntriesAreChildren(plan.graph, node, e); }
      DescendGoesWell(plan, ReadEntries(plan.graph(node)), path + [node], depth + 1, entered, nodes);
      assert entered == entered.(complete := s.complete && ReadsCompletely(plan.graph(node)));
    }
  }

  lemma {:induction false} DescendGoesWell(
      plan: Plan, entries: seq<ChildEntry>, path: seq<Id>, depth: int, s: Progress, nodes: set<Id>)
    requires |s.visits| <= MAX_TREE_NODES && IsGentle(plan, nodes) && GoesWell(s, nodes) && forall e <- entries :: e.node in nodes
    ensures GoesWell(Descend(plan, entries, path, depth, s), nodes)
    decreases MAX_TREE_NODES - |s.visits|, 1 + |entries|
  {
    if entries != [] {
      assert entries[0] in entries && forall e <- entries[1..] :: e in entries;
      if entries[0].node in s.seen {
        DescendGoesWell(plan, entries[1..], path, depth, s, nodes);
      } else {
        EnterGoesWell(plan, entries[0].node, path, depth, Some(entries[0].index), s, nodes);
        DescendGoesWell(plan, entries[1..], path, depth,
                        Enter(plan, entries[0].node, path, depth, Some(entries[0].index), s), nodes);
      }
    }
  }

  lemma {:induction false} AtMostAsManyNodes(visits: seq<Visit>)
    ensures |Nodes(visits)| <= |visits|
    decreases |visits|
  {
    if visits != [] {
      var front, v := visits[..|visits| - 1], visits[|visits| - 1];
      AtMostAsManyNodes(front);
      assert visits == front + [v];
      assert Nodes(visits) == Nodes(front) + {v.node};
    }
  }

  lemma CompleteWalksAreOrdinary(plan: Plan, root: Id, depth: int, nodes: set<Id>)
    requires (forall n, d :: plan.descends(n, d)) && forall b :: b in nodes <==> Reachable(plan.graph, root, b)
    requires var r := WalkFrom(plan, Some(root), [], depth); r.complete && !r.stopped
    ensures |nodes| <= 25_000 && forall n <- nodes :: IsOrdinary(plan.graph(n))
  {
    var r := WalkFrom(plan, Some(root), [], depth);
    CompleteWalkVisitsExactlyReachable(plan, root, depth);
    assert nodes == Nodes(r.visits);
    AtMostAsManyNodes(r.visits);
    EnterCloses(plan, root, [], depth, None, Start([]));
    forall n | n in nodes ensures IsOrdinary(plan.graph(n)) {
      var j :| 0 <= j < |r.visits| && r.visits[j].node == n;
      assert plan.descends(r.visits[j].node, r.visits[j].depth);
      ReadsCompletelyIff(plan.graph(n));
    }
  }

  /** A walk that descends everywhere, whose visitor stops nowhere and whose child lists are small answers
      `true` iff it reaches at most 25,000 nodes and all of them have ordinary children or none. */
  lemma WalkIsCompleteIff(plan: Plan, root: Id, depth: int, nodes: set<Id>)
    requires (forall n, d :: plan.descends(n, d)) && forall v :: !plan.stops(v)
    requires (forall b :: b in nodes <==> Reachable(plan.graph, root, b)) && forall n <- nodes :: IsSmall(plan.graph(n))
    ensures var r := WalkFrom(plan, Some(root), [], depth);
            r.complete && !r.stopped <==> |nodes| <= 25_000 && forall n <- nodes :: IsOrdinary(plan.graph(n))
  {
    var r := WalkFrom(plan, Some(root), [], depth);
    if r.complete && !r.stopped { CompleteWalksAreOrdinary(plan, root, depth, nodes); }
    if |nodes| <= 25_000 && forall n <- nodes :: IsOrdinary(plan.graph(n)) {
      forall n | n in nodes ensures ReadsCompletely(plan.graph(n)) { ReadsCompletelyIff(plan.graph(n)); }
      ReachableIsClosed(plan.graph, root, nodes);
      EnterGoesWell(plan, root, [], depth, None, Start([]), nodes);
    }
  }

  lemma ReachableIsClosed(g: Graph, root: Id, nodes: set<Id>)
    requires forall b :: b in nodes <==> Reachable(g, root, b)
    ensures root in nodes && IsClosed(g, nodes)
  {
    assert IsPath(g, [root]) && [root][0] == root && Last([root]) == root;
    forall a, b | a in nodes && IsChild(g, a, b) ensures b in nodes {
      var p: seq<Id> :| IsPath(g, p) && p[0] == root && Last(p) == a;
      PathLonger(g, p, b);
      assert IsPath(g, p + [b]) && (p + [b])[0] == root && Last(p + [b]) == b;
    }
  }

  lemma PathLonger(g: Graph, p: seq<Id>, b: Id)
    requires IsPath(g, p) && IsChild(g, Last(p), b)
    ensures IsPath(g, p + [b])
  {
    var q := p + [b];
    forall i | 0 <= i < |q| - 1 ensures IsChild(g, q[i], q[i + 1]) {
      if i < |p| - 1 { assert IsChild(g, p[i], p[i + 1]); }
    }
  }

  // ----- siblings in order -----

  predicate SiblingsAscend(visits: seq<Visit>, lo: nat) {
    forall j, k :: lo <= j < k < |visits| && visits[j].ancestors == visits[k].ancestors ==>
      visits[j].source.Some? && visits[k].source.Some? && visits[j].source.value < visits[k].source.value
  }

  /** One visit made for an entry at `path`, or below a node that was not seen before. */
  predicate IsBelow(v: Visit, path: seq<Id>, seen: set<Id>, entries: seq<ChildEntry>) {
    && path <= v.ancestors
    && if v.ancestors == path then exists e <- entries :: v.source == Some(e.index)
       else v.ancestors[|path|] !in seen
  }

  predicate AllBelow(visits: seq<Visit>, lo: nat, path: seq<Id>, seen: set<Id>, entries: seq<ChildEntry>) {
    forall j :: lo <= j < |visits| ==> IsBelow(visits[j], path, seen, entries)
  }

  ghost predicate AllAscend(g: Graph) {
    forall n :: HasAscendingSlots(g(n))
  }

  lemma {:induction false} EnterInOrder(plan: Plan, node: Id, path: seq<Id>, depth: int, source: Option<nat>, s: Progress)
    requires |s.visits| <= MAX_TREE_NODES && AllAscend(plan.graph)
    ensures var r := Enter(plan, node, path, depth, source, s);
            && SiblingsAscend(r.visits, |s.visits|)
            && (|r.visits| > |s.visits| ==> r.visits[|s.visits|] == Visit(node, path, depth, source))
            && forall j :: |s.visits| < j < |r.visits| ==> path + [node] <= r.visits[j].ancestors
    decreases MAX_TREE_NODES - |s.visits|, 0
  {
    if !s.stopped && |s.visits| < MAX_TREE_NODES {
      var visit := Visit(node, path, depth, source);
      var entered := s.(visits := s.visits + [visit], seen := s.seen + {node});
      if !plan.stops(visit) && plan.descends(node, depth) {
        var c := plan.graph(node);
        ReadEntriesAscend(c);
        DescendInOrder(plan, ReadEntries(c), path + [node], depth + 1,
                       entered.(complete := s.complete && ReadsCompletely(c)));
        var r := Enter(plan, node, path, depth, source, s);
        assert AllBelow(r.visits, |s.visits| + 1, path + [node], entered.seen, ReadEntries(c));
        assert entered.visits <= r.visits;
      }
    }
  }

  lemma {:induction false} DescendInOrder(plan: Plan, entries: seq<ChildEntry>, path: seq<Id>, depth: int, s: Progress)
    requires |s.visits| <= MAX_TREE_NODES && AllAscend(plan.graph) && AreAscending(entries)
    ensures var r := Descend(plan, entries, path, depth, s);
            SiblingsAscend(r.visits, |s.visits|) && AllBelow(r.visits, |s.visits|, path, s.seen, entries)
    decreases MAX_TREE_NODES - |s.visits|, 1 + |entries|
  {
    if !s.stopped && entries != [] {
      var first, rest := entries[0], entries[1..];
      assert entries == [first] + rest;
      if first.node in s.seen {
        DescendInOrder(plan, rest, path, depth, s);
        BelowMore(Descend(plan, rest, path, depth, s).visits, |s.visits|, path, s.seen, s.seen, first, rest);
      } else {
        EnterInOrder(plan, first.node, path, depth, Some(first.index), s);
        EnterCloses(plan, first.node, path, depth, Some(first.index), s);
        var mid := Enter(plan, first.node, path, depth, Some(first.index), s);
        DescendInOrder(plan, rest, path, depth, mid);
        var r := Descend(plan, rest, path, depth, mid);
        BelowMore(r.visits, |mid.visits|, path, mid.seen, s.seen, first, rest);
        if !mid.stopped {
          InOrderTogether(mid.visits, r.visits, |s.visits|, path, mid.seen, first, rest);
        }
        FirstIsBelow(mid.visits, r.visits, |s.visits|, path, s.seen, first, entries);
      }
    }
  }

  lemma BelowMore(visits: seq<Visit>, lo: nat, path: seq<Id>, seen: set<Id>, seen': set<Id>, first: ChildEntry, rest: seq<ChildEntry>)
    requires AllBelow(visits, lo, path, seen, rest) && seen' <= seen
    ensures AllBelow(visits, lo, path, seen', [first] + rest)
  {
    forall j | lo <= j < |visits| ensures IsBelow(visits[j], path, seen', [first] + rest) {
      assert IsBelow(visits[j], path, seen, rest);
    }
  }

  lemma FirstIsBelow(mid: seq<Visit>, visits: seq<Visit>, lo: nat, path: seq<Id>, seen: set<Id>,
                     first: ChildEntry, entries: seq<ChildEntry>)
    requires lo <= |mid| && mid <= visits && first in entries && first.node !in seen
    requires |mid| > lo ==> mid[lo].ancestors == path && mid[lo].source == Some(first.index)
    requires forall j :: lo < j < |mid| ==> path + [first.node] <= mid[j].ancestors
    requires AllBelow(visits, |mid|, path, seen, entries)
    ensures AllBelow(visits, lo, path, seen, entries)
  {
    forall j | lo <= j < |visits| ensures IsBelow(visits[j], path, seen, entries) {
      if j < |mid| {
        assert visits[j] == mid[j];
        if j > lo { assert mid[j].ancestors[|path|] == (path + [first.node])[|path|]; }
      }
    }
  }

  lemma InOrderTogether(mid: seq<Visit>, visits: seq<Visit>, lo: nat, path: seq<Id>, seen: set<Id>,
                        first: ChildEntry, rest: seq<ChildEntry>)
    requires lo <= |mid| && mid <= visits && SiblingsAscend(mid, lo) && SiblingsAscend(visits, |mid|)
    requires |mid| > lo ==> mid[lo].ancestors == path && mid[lo].source == Some(first.index)
    requires forall j :: lo < j < |mid| ==> path + [first.node] <= mid[j].ancestors
    requires AllBelow(visits, |mid|, path, seen, rest) && first.node in seen && AreAscending([first] + rest)
    ensures SiblingsAscend(visits, lo)
  {
    forall e | e in rest ensures first.index < e.index {
      var i :| 0 <= i < |rest| && rest[i] == e;
      assert ([first] + rest)[i + 1] == e && ([first] + rest)[0] == first;
    }
    forall j, k | lo <= j < k < |visits| && visits[j].ancestors == visits[k].ancestors
      ensures visits[j].source.Some? && visits[k].source.Some? && visits[j].source.value < visits[k].source.value
    {
      if k < |mid| {
        assert visits[j] == mid[j] && visits[k] == mid[k];
      } else if j < |mid| {
        assert visits[j] == mid[j] && IsBelow(visits[k], path, seen, rest);
        if j > lo { NotSiblings(mid[j], visits[k], path, first.node, seen, rest); }
      }
    }
  }

  lemma NotSiblings(a: Visit, b: Visit, path: seq<Id>, node: Id, seen: set<Id>, entries: seq<ChildEntry>)
    requires path + [node] <= a.ancestors && IsBelow(b, path, seen, entries) && node in seen
    ensures a.ancestors != b.ancestors
  {
    assert a.ancestors[|path|] == (path + [node])[|path|] == node;
  }

  /** Nodes with one line of ancestors are visited in the order of their slots. */
  lemma SiblingsAreVisitedInOrder(plan: Plan, root: Id, ancestors: seq<Id>, depth: int, j: nat, k: nat)
    requires root !in ancestors && AllAscend(plan.graph)
    requires j < k < |WalkFrom(plan, Some(root), ancestors, depth).visits|
    ensures var visits := WalkFrom(plan, Some(root), ancestors, depth).visits;
            visits[j].ancestors == visits[k].ancestors ==>
              visits[j].source.Some? && visits[k].source.Some? && visits[j].source.value < visits[k].source.value
  {
    EnterInOrder(plan, root, ancestors, depth, None, Start(ancestors));
  }
}
