/** Flat trees are preorder numberings, and restoring one and projecting it again changes nothing. */
module FlatTreeProofs {
  import opened Wrappers
  import opened TreeWalk
  import opened TreeWalkProofs
  import opened FlatTree

  // ----- projected trees are well formed -----

  /** The walks of whole trees: a preorder of distinct nodes from the root down. */
  predicate IsWalk(g: Graph, visits: seq<Visit>) {
    && visits != [] && visits[0].ancestors == [] && visits[0].depth == 0
    && Chain(g, visits, 1, [visits[0].node], 1)
    && forall i, j :: 0 <= i < j < |visits| ==> visits[i].node != visits[j].node
  }

  lemma {:induction false} IndexInFinds(visits: seq<Visit>, q: nat)
    requires q < |visits| && forall i, j :: 0 <= i < j < |visits| ==> visits[i].node != visits[j].node
    ensures IndexIn(visits, visits[q].node) == Some(q)
  {
    if q < |visits| - 1 {
      var front := visits[..|visits| - 1];
      assert front[q] == visits[q];
      IndexInFinds(front, q);
    }
  }

  /** Each prefix of a visit's line of descent ends in an enclosing node, and is that node's line. */
  lemma {:induction false} LineOfDescent(g: Graph, visits: seq<Visit>, k: nat, n: nat) returns (q: nat)
    requires IsWalk(g, visits) && k < |visits| && 0 < n <= |visits[k].ancestors| + 1
    ensures q <= k && visits[q].node == (visits[k].ancestors + [visits[k].node])[n - 1]
    ensures visits[q].ancestors == (visits[k].ancestors + [visits[k].node])[..n - 1]
    ensures Encloses(VisitParents(visits), q, k)
    ensures 0 < k ==> ParentOf(visits, k).Some? && ParentOf(visits, k).value < k
    decreases k, n
  {
    var v := visits[k];
    if k == 0 {
      return 0;
    }
    assert ChainedAt(g, visits, 1, [visits[0].node], 1, k);
    var p := LineOfDescent(g, visits, k - 1, |v.ancestors|);
    ParentOnLine(visits, k, p);
    if n == |v.ancestors| + 1 {
      return k;
    }
    q := LineOfDescent(g, visits, p, n);
    PrefixOfLine(v.ancestors, v.node, n);
  }

  /** The node that ends the line of descent above `k` is its parent. */
  lemma ParentOnLine(visits: seq<Visit>, k: nat, p: nat)
    requires 0 < k < |visits| && p < k && forall i, j :: 0 <= i < j < |visits| ==> visits[i].node != visits[j].node
    requires var before, above := visits[k - 1].ancestors + [visits[k - 1].node], visits[k].ancestors;
             && above != [] && above <= before
             && visits[p].node == before[|above| - 1] && visits[p].ancestors == before[..|above| - 1]
    ensures visits[p].ancestors + [visits[p].node] == visits[k].ancestors
    ensures ParentOf(visits, k) == VisitParents(visits)[k] == Some(p)
  {
    var before, above := visits[k - 1].ancestors + [visits[k - 1].node], visits[k].ancestors;
    assert above[..|above| - 1] == before[..|above| - 1];
    assert above == above[..|above| - 1] + [Last(above)];
    assert visits[..k][p] == visits[p];
    IndexInFinds(visits[..k], p);
  }

  lemma PrefixOfLine(line: seq<Id>, node: Id, n: nat)
    requires 0 < n <= |line|
    ensures (line + [node])[n - 1] == line[n - 1] && (line + [node])[..n - 1] == line[..n - 1]
  {
  }

  lemma RecordsAreWellFormed<D>(source: Source<D>, visits: seq<Visit>)
    requires IsWalk(source.graph, visits)
    ensures WellFormed(Records(source, visits))
  {
    var nodes := Records(source, visits);
    var parents := ParentsOf(nodes);
    assert parents == VisitParents(visits);
    forall i | 0 < i < |visits|
      ensures parents[i].Some? && parents[i].value < i && Encloses(parents, parents[i].value, i - 1)
      ensures nodes[i].depth == nodes[parents[i].value].depth + 1
    {
      ParentEncloses(source.graph, visits, i);
    }
  }

  /** A visit's parent encloses the visit before it, and is one level up. */
  lemma ParentEncloses(g: Graph, visits: seq<Visit>, i: nat)
    requires IsWalk(g, visits) && 0 < i < |visits|
    ensures var p := ParentOf(visits, i);
            && p.Some? && p.value < i && Encloses(VisitParents(visits), p.value, i - 1)
            && visits[i].depth == visits[p.value].depth + 1
  {
    var v := visits[i];
    assert ChainedAt(g, visits, 1, [visits[0].node], 1, i);
    var p := LineOfDescent(g, visits, i - 1, |v.ancestors|);
    assert visits[..i][p] == visits[p];
    IndexInFinds(visits[..i], p);
    if p > 0 { assert ChainedAt(g, visits, 1, [visits[0].node], 1, p); }
  }

  lemma ProjectionIsWalk(g: Graph, root: Id)
    ensures IsWalk(g, WalkFrom(EveryNode(g), Some(root), [], 0).visits)
  {
    WalkIsPreorder(EveryNode(g), root, [], 0);
    assert [] + [root] == [root];
  }

  /** Every projected tree is a preorder numbering whose links agree with each other. */
  lemma ProjectionIsWellFormed<D>(source: Source<D>, root: Option<Id>)
    ensures WellFormed(Project(source, root).nodes)
    ensures root.Some? ==> Project(source, root).nodes != [] && |Project(source, root).nodes| <= MAX_TREE_NODES
  {
    if root.Some? {
      ProjectionIsWalk(source.graph, root.value);
      RecordsAreWellFormed(source, WalkFrom(EveryNode(source.graph), root, [], 0).visits);
    }
  }

  /** A visited node is, at the place its visit says, among the child entries of its parent. */
  predicate IsEntryOfParent(g: Graph, visits: seq<Visit>, i: nat)
    requires i < |visits|
  {
    var p := ParentOf(visits, i);
    && p.Some? && p.value < i && visits[i].source.Some?
    && ChildEntry(visits[i].source.value, visits[i].node) in ReadEntries(g(visits[p.value].node))
  }

  lemma ParentHasEntry(g: Graph, visits: seq<Visit>, i: nat)
    requires IsWalk(g, visits) && 0 < i < |visits|
    ensures IsEntryOfParent(g, visits, i)
  {
    assert ChainedAt(g, visits, 1, [visits[0].node], 1, i);
    var q := LineOfDescent(g, visits, i - 1, |visits[i].ancestors|);
    assert visits[..i][q] == visits[q];
    IndexInFinds(visits[..i], q);
  }

  /** A complete projection holds each reachable node exactly once, and each link in it is a
      child entry of the tree it was taken from. */
  lemma ProjectionKeepsTheTree<D>(source: Source<D>, root: Id)
    ensures var visits := WalkFrom(EveryNode(source.graph), Some(root), [], 0).visits;
            var flat := Project(source, Some(root));
            && |flat.nodes| == |visits| && visits[0].node == root
            && (flat.complete ==> forall b :: b in Nodes(visits) <==> Reachable(source.graph, root, b))
            && (forall i, j :: 0 <= i < j < |visits| ==> visits[i].node != visits[j].node)
            && (forall i :: 0 <= i < |visits| ==> flat.nodes[i].data == source.dataOf(visits[i].node))
            && (forall i :: 0 < i < |visits| ==>
                  && IsEntryOfParent(source.graph, visits, i)
                  && flat.nodes[i].parentIndex == ParentOf(visits, i) && flat.nodes[i].source == visits[i].source)
  {
    var plan := EveryNode(source.graph);
    var r := WalkFrom(plan, Some(root), [], 0);
    WalkIsPreorder(plan, root, [], 0);
    ProjectionIsWalk(source.graph, root);
    if r.complete && !r.stopped { CompleteWalkVisitsExactlyReachable(plan, root, 0); }
    forall i | 0 < i < |r.visits| ensures IsEntryOfParent(source.graph, r.visits, i) {
      ParentHasEntry(source.graph, r.visits, i);
    }
  }

  // ----- walking a restored tree -----

  /** The end of the subtree of `k`: the first later node that hangs off something before `k`. */
  function SubtreeEnd(parents: Parents, k: nat, j: nat): nat
    decreases |parents| - j
  {
    if j < |parents| && parents[j].Some? && parents[j].value >= k then SubtreeEnd(parents, k, j + 1) else j
  }

  lemma SubtreeEndSpec(parents: Parents, k: nat, j: nat)
    requires Preordered(parents) && k < j <= |parents|
    ensures j <= SubtreeEnd(parents, k, j) <= |parents|
    ensures forall i :: j <= i < SubtreeEnd(parents, k, j) ==> parents[i].Some? && parents[i].value >= k
    ensures var e := SubtreeEnd(parents, k, j); e < |parents| ==> parents[e].value < k
    decreases |parents| - j
  {
    if j < |parents| && parents[j].value >= k {
      SubtreeEndSpec(parents, k, j + 1);
    }
  }

  lemma {:induction false} EnclosedOutside(parents: Parents, a: nat, b: nat, k: nat, e: nat)
    requires Preordered(parents) && k < e <= b < |parents| && parents[e].value < k
    requires Encloses(parents, a, b)
    ensures a < k || a >= e
    decreases b, 1
  {
    if a != b {
      var p := parents[b].value;
      if p >= e {
        EnclosedOutside(parents, a, p, k, e);
      } else {
        LaterParentsOutside(parents, k, e, b);
        EnclosesIsBelow(parents, a, p);
      }
    }
  }

  lemma EnclosesIsBelow(parents: Parents, a: nat, b: nat)
    requires Encloses(parents, a, b)
    ensures a <= b
  {
  }

  /** Nothing after a subtree hangs off a node inside it. */
  lemma {:induction false} LaterParentsOutside(parents: Parents, k: nat, e: nat, j: nat)
    requires Preordered(parents) && k < e <= j < |parents| && parents[e].value < k
    ensures parents[j].value < k || parents[j].value >= e
    decreases j, 0
  {
    if j > e {
      EnclosedOutside(parents, parents[j].value, j - 1, k, e);
    }
  }

  lemma ChildrenFromSkips(parents: Parents, p: nat, lo: nat, hi: nat)
    requires lo <= hi <= |parents| && forall j :: lo <= j < hi ==> parents[j] != Some(p)
    ensures ChildrenFrom(parents, p, lo) == ChildrenFrom(parents, p, hi)
    decreases hi - lo
  {
    if lo < hi {
      ChildrenFromSkips(parents, p, lo + 1, hi);
    }
  }

  /** No child of `k` comes at or after the end of its subtree. */
  lemma NoChildrenAfter(parents: Parents, k: nat, e: nat)
    requires Preordered(parents) && k < e <= |parents| && (e < |parents| ==> parents[e].value < k)
    ensures ChildrenFrom(parents, k, e) == []
  {
    if ChildrenFrom(parents, k, e) != [] {
      var j := ChildrenFrom(parents, k, e)[0];
      ChildrenFromExact(parents, k, e, j);
      LaterParentsOutside(parents, k, e, j);
    }
  }

  /** A graph in which every node has, in order, exactly its children of the flat tree. */
  predicate Mirrors(g: Graph, parents: Parents) {
    |parents| <= MAX_TREE_NODES &&
    forall i :: 0 <= i < |parents| ==>
      ReadsCompletely(g(i)) && NodesOf(ReadEntries(g(i))) == ChildrenFrom(parents, i, 0)
  }

  function NodesOf(entries: seq<ChildEntry>): seq<int> {
    seq(|entries|, i requires 0 <= i < |entries| => entries[i].node)
  }

  /** The walk has visited exactly the nodes below `m`, in order, with the flat tree's links. */
  predicate VisitedUpTo(parents: Parents, s: Progress, m: nat) {
    && |s.visits| == m <= |parents| && !s.stopped && s.complete
    && s.seen == Nodes(s.visits)
    && (forall j :: 0 <= j < m ==> s.visits[j].node == j)
    && (forall j :: 0 < j < m ==> s.visits[j].ancestors != [] && parents[j] == Some(Last(s.visits[j].ancestors)))
  }

  lemma NotSeenYet(parents: Parents, s: Progress, m: nat)
    requires VisitedUpTo(parents, s, m)
    ensures m !in s.seen
  {
  }

  lemma VisitOneMore(parents: Parents, s: Progress, visit: Visit, complete: bool)
    requires VisitedUpTo(parents, s, visit.node) && visit.node < |parents| && complete
    requires visit.node > 0 ==> visit.ancestors != [] && parents[visit.node] == Some(Last(visit.ancestors))
    ensures VisitedUpTo(parents, Progress(s.visits + [visit], s.seen + {visit.node}, complete, false), visit.node + 1)
  {
    assert Nodes(s.visits + [visit]) == Nodes(s.visits) + {visit.node};
  }

  lemma {:induction false} EnterMirrored(
      g: Graph, parents: Parents, k: nat, path: seq<Id>, depth: int, source: Option<nat>, s: Progress)
    requires Preordered(parents) && Mirrors(g, parents) && k < |parents| && VisitedUpTo(parents, s, k)
    requires k > 0 ==> path != [] && parents[k] == Some(Last(path))
    ensures VisitedUpTo(parents, Enter(EveryNode(g), k, path, depth, source, s), SubtreeEnd(parents, k, k + 1))
    decreases |parents| - k, 0, 0
  {
    var entered := EnteredAt(g, k, path, depth, source, s);
    VisitOneMore(parents, s, Visit(k, path, depth, source), entered.complete);
    ChildrenFromSkips(parents, k, 0, k + 1);
    SubtreeEndSpec(parents, k, k + 1);
    assert Last(path + [k]) == k;
    DescendMirrored(g, parents, k, k + 1, ReadEntries(g(k)), path + [k], depth + 1, entered);
  }

  /** What has been visited when the walk turns to the children of `k`. */
  function EnteredAt(g: Graph, k: nat, path: seq<Id>, depth: int, source: Option<nat>, s: Progress): (entered: Progress)
    requires |s.visits| < MAX_TREE_NODES && !s.stopped
    ensures entered == Progress(s.visits + [Visit(k, path, depth, source)], s.seen + {k},
                                s.complete && ReadsCompletely(g(k)), false)
    ensures Enter(EveryNode(g), k, path, depth, source, s)
         == Descend(EveryNode(g), ReadEntries(g(k)), path + [k], depth + 1, entered)
  {
    s.(visits := s.visits + [Visit(k, path, depth, source)], seen := s.seen + {k}, complete := s.complete && ReadsCompletely(g(k)))
  }

  lemma {:induction false} DescendMirrored(
      g: Graph, parents: Parents, k: nat, m: nat, entries: seq<ChildEntry>, path: seq<Id>, depth: int, s: Progress)
    requires Preordered(parents) && Mirrors(g, parents) && path != [] && Last(path) == k < m
    requires VisitedUpTo(parents, s, m) && NodesOf(entries) == ChildrenFrom(parents, k, m)
    requires m <= SubtreeEnd(parents, k, k + 1)
    requires m < SubtreeEnd(parents, k, k + 1) ==> m < |parents| && parents[m] == Some(k)
    ensures VisitedUpTo(parents, Descend(EveryNode(g), entries, path, depth, s), SubtreeEnd(parents, k, k + 1))
    decreases |parents| - m, 1, |entries|
  {
    SubtreeEndSpec(parents, k, k + 1);
    if m == SubtreeEnd(parents, k, k + 1) {
      NoChildrenAfter(parents, k, m);
      assert |NodesOf(entries)| == |entries| == 0;
    } else {
      var next := SubtreeEnd(parents, m, m + 1);
      FirstChildSubtree(parents, k, m);
      var source := HeadIs(entries, m);
      EnterMirrored(g, parents, m, path, depth, source, s);
      NotSeenYet(parents, s, m);
      var after := Enter(EveryNode(g), m, path, depth, source, s);
      DescendMirrored(g, parents, k, next, entries[1..], path, depth, after);
    }
  }

  lemma HeadIs(entries: seq<ChildEntry>, m: nat) returns (source: Option<nat>)
    requires NodesOf(entries) != [] && NodesOf(entries)[0] == m
    ensures entries != [] && entries[0].node == m && source == Some(entries[0].index)
    ensures NodesOf(entries[1..]) == NodesOf(entries)[1..]
  {
    assert |NodesOf(entries)| == |entries|;
    source := Some(entries[0].index);
  }

  lemma FirstChildSubtree(parents: Parents, k: nat, m: nat)
    requires Preordered(parents) && k < m < SubtreeEnd(parents, k, k + 1)
    requires m < |parents| && parents[m] == Some(k)
    ensures var next, e := SubtreeEnd(parents, m, m + 1), SubtreeEnd(parents, k, k + 1);
            && m < next <= e <= |parents| && (next < e ==> parents[next] == Some(k))
            && ChildrenFrom(parents, k, m) == [m] + ChildrenFrom(parents, k, next)
  {
    var next, e := SubtreeEnd(parents, m, m + 1), SubtreeEnd(parents, k, k + 1);
    SubtreeEndSpec(parents, k, k + 1);
    SubtreeEndSpec(parents, m, m + 1);
    SiblingFollows(parents, k, m, next, e);
    ChildrenFromSkips(parents, k, m + 1, next);
  }

  /** After a child's subtree comes the parent's next child, or the end of the parent's subtree. */
  lemma SiblingFollows(parents: Parents, k: nat, m: nat, next: nat, e: nat)
    requires Preordered(parents) && k < m < next <= |parents| && e <= |parents| && m < e
    requires forall i :: m < i < next ==> parents[i].Some? && parents[i].value >= m
    requires next < |parents| ==> parents[next].value < m
    requires parents[m] == Some(k)
    requires forall i :: k < i < e ==> parents[i].Some? && parents[i].value >= k
    requires e < |parents| ==> parents[e].value < k
    ensures next <= e && (next < e ==> parents[next] == Some(k))
  {
    if next < e {
      // The predecessor of `next` lies in the subtree of `m`; its enclosing nodes below `m` start with `k`.
      OnlyParentAbove(parents, k, m, next, next - 1, parents[next].value);
    }
  }

  lemma {:induction false} OnlyParentAbove(parents: Parents, k: nat, m: nat, next: nat, b: nat, a: nat)
    requires Preordered(parents) && k < m <= b < next <= |parents| && parents[m] == Some(k)
    requires forall i :: m < i < next ==> parents[i].Some? && parents[i].value >= m
    requires Encloses(parents, a, b) && k <= a < m
    ensures a == k
    decreases b
  {
    if b == m {
      if a != k { EnclosesIsBelow(parents, a, k); }
    } else {
      OnlyParentAbove(parents, k, m, next, parents[b].value, a);
    }
  }

  lemma {:induction false} PlainDense(slots: seq<Slot>, children: seq<nat>)
    requires slots == DenseSlots(children)
    ensures |PlainEntries(slots)| == |children|
    ensures forall i :: 0 <= i < |children| ==> PlainEntries(slots)[i] == ChildEntry(i, children[i])
  {
    if children != [] {
      var front := children[..|children| - 1];
      assert slots[..|slots| - 1] == DenseSlots(front);
      PlainDense(slots[..|slots| - 1], front);
    }
  }

  lemma DenseReads(children: seq<nat>)
    requires |children| <= MAX_TREE_NODES
    ensures var c := Elements(Some(|children|), DenseSlots(children));
            ReadsCompletely(c) && NodesOf(ReadEntries(c)) == children
  {
    var slots := DenseSlots(children);
    PlainDense(slots, children);
    if children != [] {
      var front := children[..|children| - 1];
      assert slots[..|slots| - 1] == DenseSlots(front);
      PlainDense(slots[..|slots| - 1], front);
    }
  }

  lemma ValidIndexesKeepsAll(indexes: seq<int>, count: nat)
    requires forall i :: 0 <= i < |indexes| ==> 0 <= indexes[i] < count
    ensures ValidIndexes(indexes, count) == indexes
  {
    if indexes != [] {
      ValidIndexesKeepsAll(indexes[1..], count);
    }
  }

  lemma ChildrenFromShort(parents: Parents, p: nat, lo: nat)
    ensures |ChildrenFrom(parents, p, lo)| <= if lo <= |parents| then |parents| - lo else 0
    decreases |parents| - lo
  {
  }

  /** The tree that a well-formed flat tree restores to, for any data outside the tree. */
  ghost predicate Restores<D>(flat: Flat<D>, tree: Source<D>) {
    forall i :: 0 <= i < |flat.nodes| ==>
      && tree.dataOf(i) == flat.nodes[i].data
      && var children := ValidIndexes(flat.nodes[i].childIndexes, |flat.nodes|);
         tree.graph(i) == Elements(Some(|children|), DenseSlots(children))
  }

  lemma RestoredMirrors<D>(flat: Flat<D>, tree: Source<D>)
    requires WellFormed(flat.nodes) && |flat.nodes| <= MAX_TREE_NODES && Restores(flat, tree)
    ensures Mirrors(tree.graph, ParentsOf(flat.nodes))
  {
    var parents := ParentsOf(flat.nodes);
    forall i | 0 <= i < |parents|
      ensures ReadsCompletely(tree.graph(i)) && NodesOf(ReadEntries(tree.graph(i))) == ChildrenFrom(parents, i, 0)
    {
      var children := ChildrenFrom(parents, i, 0);
      forall j | 0 <= j < |children| ensures 0 <= children[j] < |parents| { ChildrenFromExact(parents, i, 0, children[j]); }
      ValidIndexesKeepsAll(children, |parents|);
      ChildrenFromShort(parents, i, 0);
      DenseReads(ValidIndexes(children, |parents|));
    }
  }

  /** Everything but where a child stood in its parent's original array. */
  ghost predicate SameNode<D>(a: Record<D>, b: Record<D>) {
    a.(source := None) == b.(source := None)
  }

  lemma DepthsAgree<D>(nodes: seq<Record<D>>, g: Graph, visits: seq<Visit>, j: nat)
    requires WellFormed(nodes) && IsWalk(g, visits) && |visits| == |nodes| && j < |nodes|
    requires VisitParents(visits) == ParentsOf(nodes)
    ensures visits[j].depth == nodes[j].depth
    decreases j
  {
    if j > 0 {
      var source := Source(g, (id: Id) => 0);
      RecordsAreWellFormed(source, visits);
      var records := Records(source, visits);
      var p := ParentsOf(nodes)[j].value;
      assert ParentsOf(records) == VisitParents(visits);
      DepthsAgree(nodes, g, visits, p);
      assert records[j].depth == records[p].depth + 1;
    }
  }

  /** The round trip on the flat form: restoring any well-formed flat tree and projecting it
      again completes, and gives back the same indexes, depths, links and data. */
  lemma RestoredProjectsBack<D>(flat: Flat<D>, tree: Source<D>)
    requires WellFormed(flat.nodes) && 0 < |flat.nodes| <= MAX_TREE_NODES && Restores(flat, tree)
    ensures var again := Project(tree, Some(0));
            && again.complete && again.rootIndex == Some(0)
            && |again.nodes| == |flat.nodes|
            && forall i :: 0 <= i < |flat.nodes| ==> SameNode(again.nodes[i], flat.nodes[i])
  {
    var parents := ParentsOf(flat.nodes);
    RestoredMirrors(flat, tree);
    MirrorIsWalkedInOrder(tree.graph, parents);
    var r := WalkFrom(EveryNode(tree.graph), Some(0), [], 0);
    ProjectionIsWalk(tree.graph, 0);
    forall i | 0 <= i < |flat.nodes| ensures SameNode(Project(tree, Some(0)).nodes[i], flat.nodes[i]) {
      DepthsAgree(flat.nodes, tree.graph, r.visits, i);
    }
  }

  lemma MirrorIsWalkedInOrder(g: Graph, parents: Parents)
    requires Preordered(parents) && Mirrors(g, parents) && parents != []
    ensures var r := WalkFrom(EveryNode(g), Some(0), [], 0);
            VisitedUpTo(parents, r, |parents|) && VisitParents(r.visits) == parents
  {
    assert Nodes([]) == {};
    EnterMirrored(g, parents, 0, [], 0, None, Start([]));
    SubtreeEndSpec(parents, 0, 1);
    var r := WalkFrom(EveryNode(g), Some(0), [], 0);
    ProjectionIsWalk(g, 0);
    forall j | 0 <= j < |parents| ensures ParentOf(r.visits, j) == parents[j] {
      if j > 0 {
        var p := parents[j].value;
        assert r.visits[..j][p] == r.visits[p];
        IndexInFinds(r.visits[..j], p);
      }
    }
  }

  /** The round trip on trees: what is restored from a projected tree projects to the same flat
      tree, whether or not the first projection was complete. */
  lemma ProjectRestoreProject<D>(source: Source<D>, root: Id, restored: Source<D>)
    requires Restores(Project(source, Some(root)), restored)
    ensures var flat, again := Project(source, Some(root)), Project(restored, Some(0));
            && again.complete && |again.nodes| == |flat.nodes|
            && forall i :: 0 <= i < |flat.nodes| ==> SameNode(again.nodes[i], flat.nodes[i])
  {
    ProjectionIsWellFormed(source, Some(root));
    RestoredProjectsBack(Project(source, Some(root)), restored);
  }

  /** A restored record keeps just those of its child indexes that name a node. */
  lemma {:induction false} ValidIndexesExact(indexes: seq<int>, count: nat, j: nat)
    ensures j in ValidIndexes(indexes, count) <==> j in indexes && j < count
    decreases |indexes|
  {
    if indexes != [] {
      ValidIndexesExact(indexes[1..], count, j);
      assert indexes == [indexes[0]] + indexes[1..];
    }
  }
}
