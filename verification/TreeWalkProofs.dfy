/** What the depth-first walk visits: preorder structure, real paths, and exactly the reachable nodes. */
module TreeWalkProofs {
  import opened Wrappers
  import opened TreeWalk

  function Last<T>(s: seq<T>): T
    requires s != []
  {
    s[|s| - 1]
  }

  function Nodes(visits: seq<Visit>): set<Id> {
    set v <- visits :: v.node
  }

  // ----- reachability in the graph itself -----

  predicate IsChild(g: Graph, a: Id, b: Id) {
    g(a).Elements? && exists s <- g(a).slots :: s.readable && s.value == Some(b)
  }

  predicate IsPath(g: Graph, p: seq<Id>) {
    p != [] && forall i :: 0 <= i < |p| - 1 ==> IsChild(g, p[i], p[i + 1])
  }

  ghost predicate Reachable(g: Graph, a: Id, b: Id) {
    exists p: seq<Id> :: IsPath(g, p) && p[0] == a && Last(p) == b
  }

  lemma {:induction false} PlainEntriesAreSlots(slots: seq<Slot>, e: ChildEntry)
    ensures e in PlainEntries(slots) <==> exists s <- slots :: IsPlain(s) && s.index == e.index && s.value == Some(e.node)
  {
    if slots != [] {
      var front, s := slots[..|slots| - 1], slots[|slots| - 1];
      PlainEntriesAreSlots(front, e);
      assert slots == front + [s];
    }
  }

  lemma EntriesAreChildren(g: Graph, a: Id, e: ChildEntry)
    requires e in ReadEntries(g(a))
    ensures IsChild(g, a, e.node)
  {
    PlainEntriesAreSlots(g(a).slots, e);
  }

  lemma CompleteReadsFindAllChildren(g: Graph, a: Id, b: Id)
    requires ReadsCompletely(g(a)) && IsChild(g, a, b)
    ensures exists e <- ReadEntries(g(a)) :: e.node == b
  {
    var slots := g(a).slots;
    var s :| s in slots && s.readable && s.value == Some(b);
    PlainEntriesAreSlots(slots, ChildEntry(s.index, b));
    assert |PlainEntries(slots)| <= |PlainEntries(slots[..|slots| - 1])| + 1;
    assert ChildEntry(s.index, b) in ReadEntries(g(a));
  }

  lemma ClosedSetsHoldReachable(g: Graph, closed: set<Id>, p: seq<Id>, i: nat)
    requires IsPath(g, p) && p[0] in closed && i < |p|
    requires forall a, b :: a in closed && IsChild(g, a, b) ==> b in closed
    ensures p[i] in closed
  {
    if i > 0 {
      ClosedSetsHoldReachable(g, closed, p, i - 1);
      assert IsChild(g, p[i - 1], p[i]);
    }
  }

  // ----- what one call adds -----

  /** `seen` is the given base and the visited nodes, each visited once and none in the base. */
  predicate Accounted(base: set<Id>, s: Progress) {
    && s.seen == base + Nodes(s.visits)
    && base !! Nodes(s.visits)
    && forall i, j :: 0 <= i < j < |s.visits| ==> s.visits[i].node != s.visits[j].node
  }

  lemma {:induction false} EnterAccounts(
      plan: Plan, node: Id, path: seq<Id>, depth: int, source: Option<nat>, s: Progress, base: set<Id>)
    requires |s.visits| <= MAX_TREE_NODES && Accounted(base, s) && node !in s.seen
    ensures Accounted(base, Enter(plan, node, path, depth, source, s))
    decreases MAX_TREE_NODES - |s.visits|, 0
  {
    if !s.stopped && |s.visits| < MAX_TREE_NODES {
      var visit := Visit(node, path, depth, source);
      var entered := s.(visits := s.visits + [visit], seen := s.seen + {node});
      assert Nodes(entered.visits) == Nodes(s.visits) + {node};
      assert forall i :: 0 <= i < |s.visits| ==> s.visits[i].node in Nodes(s.visits);
      if !plan.stops(visit) && plan.descends(node, depth) {
        var c := plan.graph(node);
        DescendAccounts(plan, ReadEntries(c), path + [node], depth + 1,
                        entered.(complete := s.complete && ReadsCompletely(c)), base);
      }
    }
  }

  lemma {:induction false} DescendAccounts(
      plan: Plan, entries: seq<ChildEntry>, path: seq<Id>, depth: int, s: Progress, base: set<Id>)
    requires |s.visits| <= MAX_TREE_NODES && Accounted(base, s)
    ensures Accounted(base, Descend(plan, entries, path, depth, s))
    decreases MAX_TREE_NODES - |s.visits|, 1 + |entries|
  {
    if !s.stopped && entries != [] {
      if entries[0].node in s.seen {
        DescendAccounts(plan, entries[1..], path, depth, s, base);
      } else {
        EnterAccounts(plan, entries[0].node, path, depth, Some(entries[0].index), s, base);
        var after := Enter(plan, entries[0].node, path, depth, Some(entries[0].index), s);
        DescendAccounts(plan, entries[1..], path, depth, after, base);
      }
    }
  }

  /** The visit was made from its last ancestor's child entry. */
  predicate Linked(g: Graph, v: Visit) {
    && v.ancestors != [] && v.source.Some?
    && ChildEntry(v.source.value, v.node) in ReadEntries(g(Last(v.ancestors)))
  }

  /** Preorder: each visit's ancestors extend `path`, and are a prefix of the previous visit's
      ancestors and node. The first one's are `path` itself. */
  predicate Chain(g: Graph, visits: seq<Visit>, lo: nat, path: seq<Id>, depth: int) {
    forall j :: lo <= j < |visits| ==> ChainedAt(g, visits, lo, path, depth, j)
  }

  predicate ChainedAt(g: Graph, visits: seq<Visit>, lo: nat, path: seq<Id>, depth: int, j: nat)
    requires j < |visits|
  {
    var v := visits[j];
    && path <= v.ancestors
    && v.depth == depth + |v.ancestors| - |path|
    && Linked(g, v)
    && (j == lo ==> v.ancestors == path)
    && (j > lo ==> v.ancestors <= visits[j - 1].ancestors + [visits[j - 1].node])
  }

  lemma {:induction false} EnterChains(plan: Plan, node: Id, path: seq<Id>, depth: int, source: Option<nat>, s: Progress)
    requires |s.visits| <= MAX_TREE_NODES
    ensures var r := Enter(plan, node, path, depth, source, s);
            r.visits == s.visits ||
            (&& |r.visits| > |s.visits| && r.visits[|s.visits|] == Visit(node, path, depth, source)
             && Chain(plan.graph, r.visits, |s.visits| + 1, path + [node], depth + 1))
    decreases MAX_TREE_NODES - |s.visits|, 0
  {
    if !s.stopped && |s.visits| < MAX_TREE_NODES {
      var visit := Visit(node, path, depth, source);
      var entered := s.(visits := s.visits + [visit], seen := s.seen + {node});
      if !plan.stops(visit) && plan.descends(node, depth) {
        var c := plan.graph(node);
        DescendChains(plan, ReadEntries(c), path + [node], depth + 1,
                      entered.(complete := s.complete && ReadsCompletely(c)));
      }
    }
  }

  lemma {:induction false} DescendChains(plan: Plan, entries: seq<ChildEntry>, path: seq<Id>, depth: int, s: Progress)
    requires |s.visits| <= MAX_TREE_NODES
    requires path != [] && forall e <- entries :: e in ReadEntries(plan.graph(Last(path)))
    ensures Chain(plan.graph, Descend(plan, entries, path, depth, s).visits, |s.visits|, path, depth)
    decreases MAX_TREE_NODES - |s.visits|, 1 + |entries|
  {
    if !s.stopped && entries != [] {
      if entries[0].node in s.seen {
        DescendChains(plan, entries[1..], path, depth, s);
      } else {
        var after := Enter(plan, entries[0].node, path, depth, Some(entries[0].index), s);
        EnterChains(plan, entries[0].node, path, depth, Some(entries[0].index), s);
        DescendChains(plan, entries[1..], path, depth, after);
        ChainsJoin(plan, entries[0], path, depth, s, after, Descend(plan, entries[1..], path, depth, after));
      }
    }
  }

  /** One child's subtree followed by its later siblings'. */
  lemma ChainsJoin(plan: Plan, e: ChildEntry, path: seq<Id>, depth: int, s: Progress, mid: Progress, r: Progress)
    requires path != [] && e in ReadEntries(plan.graph(Last(path)))
    requires s.visits <= mid.visits <= r.visits
    requires mid.visits == s.visits ||
             (&& |mid.visits| > |s.visits| && mid.visits[|s.visits|] == Visit(e.node, path, depth, Some(e.index))
              && Chain(plan.graph, mid.visits, |s.visits| + 1, path + [e.node], depth + 1))
    requires Chain(plan.graph, r.visits, |mid.visits|, path, depth)
    ensures Chain(plan.graph, r.visits, |s.visits|, path, depth)
  {
    var g, lo := plan.graph, |s.visits|;
    forall j | lo <= j < |r.visits| ensures ChainedAt(g, r.visits, lo, path, depth, j) {
      if j == lo < |mid.visits| {
        assert r.visits[j] == mid.visits[j];
      } else if j < |mid.visits| {
        assert r.visits[j] == mid.visits[j] && r.visits[j - 1] == mid.visits[j - 1];
        assert ChainedAt(g, mid.visits, lo + 1, path + [e.node], depth + 1, j);
        assert path <= path + [e.node] <= mid.visits[j].ancestors;
      } else {
        assert ChainedAt(g, r.visits, |mid.visits|, path, depth, j);
        if lo < j == |mid.visits| {
          assert r.visits[j - 1] == mid.visits[j - 1];
          if j - 1 > lo {
            assert ChainedAt(g, mid.visits, lo + 1, path + [e.node], depth + 1, j - 1);
            assert path <= path + [e.node] <= mid.visits[j - 1].ancestors;
          }
          assert path <= r.visits[j - 1].ancestors;
        }
      }
    }
  }

  /** Visited and expanded nodes have all the children that were read among the seen ones. */
  predicate Closed(plan: Plan, visits: seq<Visit>, lo: nat, seen: set<Id>) {
    forall j :: lo <= j < |visits| && plan.descends(visits[j].node, visits[j].depth) ==>
      forall e <- ReadEntries(plan.graph(visits[j].node)) :: e.node in seen
  }

  predicate AllReadCompletely(plan: Plan, visits: seq<Visit>, lo: nat) {
    forall j :: lo <= j < |visits| && plan.descends(visits[j].node, visits[j].depth) ==>
      ReadsCompletely(plan.graph(visits[j].node))
  }

  lemma {:induction false} EnterCloses(plan: Plan, node: Id, path: seq<Id>, depth: int, source: Option<nat>, s: Progress)
    requires |s.visits| <= MAX_TREE_NODES
    ensures var r := Enter(plan, node, path, depth, source, s);
            && s.seen <= r.seen
            && (!r.stopped ==> node in r.seen && Closed(plan, r.visits, |s.visits|, r.seen))
            && (!r.stopped && r.complete ==> s.complete && AllReadCompletely(plan, r.visits, |s.visits|))
    decreases MAX_TREE_NODES - |s.visits|, 0
  {
    if !s.stopped && |s.visits| < MAX_TREE_NODES {
      var visit := Visit(node, path, depth, source);
      var entered := s.(visits := s.visits + [visit], seen := s.seen + {node});
      if !plan.stops(visit) && plan.descends(node, depth) {
        var c := plan.graph(node);
        DescendCloses(plan, ReadEntries(c), path + [node], depth + 1,
                      entered.(complete := s.complete && ReadsCompletely(c)));
      }
    }
  }

  lemma {:induction false} DescendCloses(plan: Plan, entries: seq<ChildEntry>, path: seq<Id>, depth: int, s: Progress)
    requires |s.visits| <= MAX_TREE_NODES
    ensures var r := Descend(plan, entries, path, depth, s);
            && s.seen <= r.seen
            && (!r.stopped ==> (forall e <- entries :: e.node in r.seen) && Closed(plan, r.visits, |s.visits|, r.seen))
            && (!r.stopped && r.complete ==> s.complete && AllReadCompletely(plan, r.visits, |s.visits|))
    decreases MAX_TREE_NODES - |s.visits|, 1 + |entries|
  {
    if !s.stopped && entries != [] {
      assert entries == [entries[0]] + entries[1..];
      if entries[0].node in s.seen {
        DescendCloses(plan, entries[1..], path, depth, s);
      } else {
        EnterCloses(plan, entries[0].node, path, depth, Some(entries[0].index), s);
        var after := Enter(plan, entries[0].node, path, depth, Some(entries[0].index), s);
        DescendCloses(plan, entries[1..], path, depth, after);
        var r := Descend(plan, entries[1..], path, depth, after);
        assert forall j :: |s.visits| <= j < |after.visits| ==> r.visits[j] == after.visits[j];
        if after.stopped {
          assert r == after;
        }
      }
    }
  }

  // ----- the whole walk -----

  /** A walk that starts outside every ancestor is a preorder of distinct nodes. */
  lemma WalkIsPreorder(plan: Plan, root: Id, ancestors: seq<Id>, depth: int)
    requires root !in ancestors
    ensures var visits := WalkFrom(plan, Some(root), ancestors, depth).visits;
            && visits != [] && visits[0] == Visit(root, ancestors, depth, None)
            && Chain(plan.graph, visits, 1, ancestors + [root], depth + 1)
            && (forall i, j :: 0 <= i < j < |visits| ==> visits[i].node != visits[j].node)
            && (forall v <- visits :: v.node !in ancestors)
  {
    var s := Start(ancestors);
    EnterChains(plan, root, ancestors, depth, None, s);
    assert Nodes([]) == {};
    EnterAccounts(plan, root, ancestors, depth, None, s, s.seen);
    var r := WalkFrom(plan, Some(root), ancestors, depth);
    assert r == Enter(plan, root, ancestors, depth, None, s);
    forall v <- r.visits ensures v.node !in ancestors {
      assert v.node in Nodes(r.visits);
    }
  }

  /** The ancestors a visitor is handed, followed by the node, are a path of the graph. */
  lemma {:induction false} AncestorsAreAPath(plan: Plan, root: Id, visits: seq<Visit>, depth: int, j: nat)
    requires visits != [] && visits[0] == Visit(root, [], depth, None)
    requires Chain(plan.graph, visits, 1, [root], depth + 1) && j < |visits|
    ensures IsPath(plan.graph, visits[j].ancestors + [visits[j].node])
    ensures (visits[j].ancestors + [visits[j].node])[0] == root
  {
    if j > 0 {
      AncestorsAreAPath(plan, root, visits, depth, j - 1);
      var v, before := visits[j], visits[j - 1].ancestors + [visits[j - 1].node];
      assert ChainedAt(plan.graph, visits, 1, [root], depth + 1, j);
      EntriesAreChildren(plan.graph, Last(v.ancestors), ChildEntry(v.source.value, v.node));
      var p := v.ancestors + [v.node];
      assert [root] <= v.ancestors <= before || (j == 1 && v.ancestors == [root]);
      forall i | 0 <= i < |p| - 1 ensures IsChild(plan.graph, p[i], p[i + 1]) {
        if i < |v.ancestors| - 1 {
          assert p[i] == v.ancestors[i] == before[i] && p[i + 1] == v.ancestors[i + 1] == before[i + 1];
        } else {
          assert p[i] == Last(v.ancestors) && p[i + 1] == v.node;
        }
      }
    }
  }

  lemma VisitedNodesAreReachable(plan: Plan, root: Id, depth: int, b: Id)
    requires b in Nodes(WalkFrom(plan, Some(root), [], depth).visits)
    ensures Reachable(plan.graph, root, b)
  {
    var visits := WalkFrom(plan, Some(root), [], depth).visits;
    WalkIsPreorder(plan, root, [], depth);
    assert [] + [root] == [root];
    var j :| 0 <= j < |visits| && visits[j].node == b;
    AncestorsAreAPath(plan, root, visits, depth, j);
    var p := visits[j].ancestors + [b];
    assert IsPath(plan.graph, p) && p[0] == root && Last(p) == b;
  }

  lemma CompleteWalkIsClosed(plan: Plan, root: Id, depth: int, a: Id, b: Id)
    requires forall n, d :: plan.descends(n, d)
    requires var r := WalkFrom(plan, Some(root), [], depth);
             r.complete && !r.stopped && a in Nodes(r.visits) && IsChild(plan.graph, a, b)
    ensures b in Nodes(WalkFrom(plan, Some(root), [], depth).visits)
  {
    var r := WalkFrom(plan, Some(root), [], depth);
    EnterCloses(plan, root, [], depth, None, Start([]));
    assert Nodes([]) == {};
    EnterAccounts(plan, root, [], depth, None, Start([]), {});
    var j :| 0 <= j < |r.visits| && r.visits[j].node == a;
    assert plan.descends(r.visits[j].node, r.visits[j].depth);
    CompleteReadsFindAllChildren(plan.graph, a, b);
  }

  /** A walk that descends everywhere, is not stopped by its visitor and answers `true` has
      visited exactly the nodes reachable from the root, each once. */
  lemma CompleteWalkVisitsExactlyReachable(plan: Plan, root: Id, depth: int)
    requires forall n, d :: plan.descends(n, d)
    requires var r := WalkFrom(plan, Some(root), [], depth); r.complete && !r.stopped
    ensures var visits := WalkFrom(plan, Some(root), [], depth).visits;
            && (forall b :: b in Nodes(visits) <==> Reachable(plan.graph, root, b))
            && (forall i, j :: 0 <= i < j < |visits| ==> visits[i].node != visits[j].node)
  {
    var visited := Nodes(WalkFrom(plan, Some(root), [], depth).visits);
    WalkIsPreorder(plan, root, [], depth);
    assert root in visited;
    forall a, b | a in visited && IsChild(plan.graph, a, b) ensures b in visited {
      CompleteWalkIsClosed(plan, root, depth, a, b);
    }
    forall b ensures b in visited <==> Reachable(plan.graph, root, b) {
      if b in visited { VisitedNodesAreReachable(plan, root, depth, b); }
      if Reachable(plan.graph, root, b) {
        var p: seq<Id> :| IsPath(plan.graph, p) && p[0] == root && Last(p) == b;
        ClosedSetsHoldReachable(plan.graph, visited, p, |p| - 1);
      }
    }
  }

  // ----- looking a node up -----

  /** A stopped walk ends at the first visit that stops it, or at the budget. */
  predicate StopsAtFirst(plan: Plan, r: Progress) {
    && (forall j :: 0 <= j < |r.visits| - 1 ==> !plan.stops(r.visits[j]))
    && (r.visits != [] && plan.stops(Last(r.visits)) ==> r.stopped)
    && (r.stopped ==> (r.visits != [] && plan.stops(Last(r.visits))) || |r.visits| == MAX_TREE_NODES)
  }

  lemma {:induction false} EnterStopsAtFirst(plan: Plan, node: Id, path: seq<Id>, depth: int, source: Option<nat>, s: Progress)
    requires |s.visits| <= MAX_TREE_NODES && StopsAtFirst(plan, s)
    ensures StopsAtFirst(plan, Enter(plan, node, path, depth, source, s))
    decreases MAX_TREE_NODES - |s.visits|, 0
  {
    if !s.stopped && |s.visits| < MAX_TREE_NODES {
      var visit := Visit(node, path, depth, source);
      var entered := s.(visits := s.visits + [visit], seen := s.seen + {node});
      forall j | 0 <= j < |entered.visits| - 1 ensures !plan.stops(entered.visits[j]) {
        assert entered.visits[j] == s.visits[j];
        if j == |s.visits| - 1 { assert s.visits[j] == Last(s.visits); }
      }
      if !plan.stops(visit) && plan.descends(node, depth) {
        var c := plan.graph(node);
        DescendStopsAtFirst(plan, ReadEntries(c), path + [node], depth + 1,
                            entered.(complete := s.complete && ReadsCompletely(c)));
      }
    }
  }

  lemma {:induction false} DescendStopsAtFirst(plan: Plan, entries: seq<ChildEntry>, path: seq<Id>, depth: int, s: Progress)
    requires |s.visits| <= MAX_TREE_NODES && StopsAtFirst(plan, s)
    ensures StopsAtFirst(plan, Descend(plan, entries, path, depth, s))
    decreases MAX_TREE_NODES - |s.visits|, 1 + |entries|
  {
    if !s.stopped && entries != [] {
      if entries[0].node in s.seen {
        DescendStopsAtFirst(plan, entries[1..], path, depth, s);
      } else {
        EnterStopsAtFirst(plan, entries[0].node, path, depth, Some(entries[0].index), s);
        DescendStopsAtFirst(plan, entries[1..], path, depth,
                            Enter(plan, entries[0].node, path, depth, Some(entries[0].index), s));
      }
    }
  }

  /** `pathToNode`: the path from the root to the first node in preorder with the wanted id.
      An empty answer after a complete walk means that no reachable node has it. */
  method PathToNode(graph: Graph, idOf: Id -> string, root: Option<Id>, id: string) returns (path: seq<Id>, complete: bool)
    ensures path != [] ==> root.Some? && IsPath(graph, path) && path[0] == root.value && idOf(Last(path)) == id
    ensures path == [] && root.Some? && complete ==> forall b :: Reachable(graph, root.value, b) ==> idOf(b) != id
  {
    var plan := Plan(graph, (v: Visit) => idOf(v.node) == id, (n, d) => true);
    var visits;
    complete, visits := WalkDebuggerTree(plan, root, [], 0);
    path := [];
    if visits != [] && idOf(Last(visits).node) == id {
      path := Last(visits).ancestors + [Last(visits).node];
    }
    if root.Some? {
      WalkIsPreorder(plan, root.value, [], 0);
      assert [] + [root.value] == [root.value];
      AncestorsAreAPath(plan, root.value, visits, 0, |visits| - 1);
      EnterStopsAtFirst(plan, root.value, [], 0, None, Start([]));
      if path == [] && complete {
        CompleteWalkVisitsExactlyReachable(plan, root.value, 0);
        forall b | Reachable(graph, root.value, b) ensures idOf(b) != id {
          var j :| 0 <= j < |visits| && visits[j].node == b;
          assert !plan.stops(visits[j]);
        }
      }
    }
  }
}
