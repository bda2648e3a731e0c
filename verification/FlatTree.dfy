/** The flat, serialisable form of a walked tree, and the tree that is restored from it
    (debugger-tree-model.js). `D` is a node's own projected data. */
module FlatTree {
  import opened Wrappers
  import opened TreeWalk
  import opened TreeWalkProofs

  datatype Record<D> = Record(
    childIndexes: seq<int>, data: D, depth: int, index: nat, parentIndex: Option<nat>, source: Option<nat>)

  datatype Flat<D> = Flat(complete: bool, nodes: seq<Record<D>>, rootIndex: Option<nat>)

  /** A tree as the rest of the debugger sees it. */
  datatype Source<!D> = Source(graph: Graph, dataOf: Id -> D)

  function EveryNode(graph: Graph): Plan {
    Plan(graph, (v: Visit) => false, (n, d) => true)
  }

  // ----- the links of a flat tree -----

  type Parents = seq<Option<nat>>

  function ParentsOf<D>(nodes: seq<Record<D>>): Parents {
    seq(|nodes|, i requires 0 <= i < |nodes| => nodes[i].parentIndex)
  }

  /** The indexes from `lo` on whose parent is `p`, ascending. */
  function ChildrenFrom(parents: Parents, p: nat, lo: nat): seq<int>
    decreases |parents| - lo
  {
    if lo >= |parents| then []
    else (if parents[lo] == Some(p) then [lo] else []) + ChildrenFrom(parents, p, lo + 1)
  }

  lemma ChildrenFromAppend(parents: Parents, x: Option<nat>, p: nat, lo: nat)
    requires lo <= |parents|
    ensures ChildrenFrom(parents + [x], p, lo)
         == ChildrenFrom(parents, p, lo) + (if x == Some(p) then [|parents|] else [])
    decreases |parents| - lo
  {
    if lo < |parents| {
      ChildrenFromAppend(parents, x, p, lo + 1);
    }
  }

  lemma ChildrenFromExact(parents: Parents, p: nat, lo: nat, j: int)
    ensures j in ChildrenFrom(parents, p, lo) <==> lo <= j < |parents| && parents[j] == Some(p)
    decreases |parents| - lo
  {
    if lo < |parents| {
      ChildrenFromExact(parents, p, lo + 1, j);
    }
  }

  /** `a` is `b` or one of its ancestors. */
  predicate Encloses(parents: Parents, a: nat, b: nat) {
    a == b || (b < |parents| && parents[b].Some? && parents[b].value < b && Encloses(parents, a, parents[b].value))
  }

  /** Parents number the tree in preorder: each node hangs off its predecessor or off one of
      its predecessor's ancestors. */
  predicate Preordered(parents: Parents) {
    && (parents != [] ==> parents[0] == None)
    && forall i :: 0 < i < |parents| ==>
         parents[i].Some? && parents[i].value < i && Encloses(parents, parents[i].value, i - 1)
  }

  predicate WellFormed<D>(nodes: seq<Record<D>>) {
    var parents := ParentsOf(nodes);
    && Preordered(parents)
    && (nodes != [] ==> nodes[0].depth == 0)
    && (forall i :: 0 <= i < |nodes| ==> nodes[i].index == i && nodes[i].childIndexes == ChildrenFrom(parents, i, 0))
    && (forall i :: 0 < i < |nodes| ==> nodes[i].depth == nodes[parents[i].value].depth + 1)
  }

  // ----- projecting -----

  /** The position at which a node was visited. */
  function IndexIn(visits: seq<Visit>, node: Id): Option<nat> {
    if visits == [] then None
    else if visits[|visits| - 1].node == node then Some(|visits| - 1)
    else IndexIn(visits[..|visits| - 1], node)
  }

  function ParentOf(visits: seq<Visit>, j: nat): Option<nat>
    requires j < |visits|
  {
    if visits[j].ancestors == [] then None else IndexIn(visits[..j], Last(visits[j].ancestors))
  }

  function VisitParents(visits: seq<Visit>): Parents {
    seq(|visits|, j requires 0 <= j < |visits| => ParentOf(visits, j))
  }

  function RecordOf<D>(source: Source<D>, visits: seq<Visit>, j: nat): Record<D>
    requires j < |visits|
  {
    Record(ChildrenFrom(VisitParents(visits), j, 0), source.dataOf(visits[j].node), visits[j].depth, j,
           ParentOf(visits, j), visits[j].source)
  }

  function Records<D>(source: Source<D>, visits: seq<Visit>): seq<Record<D>> {
    seq(|visits|, j requires 0 <= j < |visits| => RecordOf(source, visits, j))
  }

  function Project<D>(source: Source<D>, root: Option<Id>): Flat<D> {
    if root.None? then Flat(true, [], None)
    else
      var r := WalkFrom(EveryNode(source.graph), root, [], 0);
      Flat(r.complete && !r.stopped, Records(source, r.visits), Some(0))
  }

  lemma IndexInPrefix(visits: seq<Visit>, v: Visit, node: Id)
    ensures IndexIn(visits + [v], node) == if v.node == node then Some(|visits|) else IndexIn(visits, node)
  {
    assert (visits + [v])[..|visits|] == visits;
  }

  lemma ParentsExtend(visits: seq<Visit>, v: Visit)
    ensures VisitParents(visits + [v])
         == VisitParents(visits) + [if v.ancestors == [] then None else IndexIn(visits, Last(v.ancestors))]
  {
    forall j | 0 <= j < |visits| ensures ParentOf(visits + [v], j) == ParentOf(visits, j) {
      assert (visits + [v])[..j] == visits[..j];
    }
    assert (visits + [v])[..|visits|] == visits;
  }

  method ProjectTree<D>(source: Source<D>, root: Option<Id>) returns (flat: Flat<D>)
    ensures flat == Project(source, root)
  {
    if root.None? { return Flat(true, [], None); }
    var traversalComplete, visits := WalkDebuggerTree(EveryNode(source.graph), root, [], 0);
    var nodes: seq<Record<D>> := [];
    var nodeIndexes: map<Id, nat> := map[];
    for i := 0 to |visits|
      invariant nodes == Records(source, visits[..i])
      invariant forall n :: n in nodeIndexes <==> IndexIn(visits[..i], n).Some?
      invariant forall n :: n in nodeIndexes ==> IndexIn(visits[..i], n) == Some(nodeIndexes[n])
      invariant forall n :: n in nodeIndexes ==> nodeIndexes[n] < i
    {
      var visit := visits[i];
      ghost var before := visits[..i];
      assert visits[..i + 1] == before + [visit];
      forall n ensures IndexIn(visits[..i + 1], n) == if visit.node == n then Some(i) else IndexIn(before, n) {
        IndexInPrefix(before, visit, n);
      }
      var index := |nodes|;
      var parentIndex := None;
      if visit.ancestors != [] && Last(visit.ancestors) in nodeIndexes {
        parentIndex := Some(nodeIndexes[Last(visit.ancestors)]);
      }
      nodeIndexes := nodeIndexes[visit.node := index];
      nodes := nodes + [Record([], source.dataOf(visit.node), visit.depth, index, parentIndex, visit.source)];
      if parentIndex.Some? {
        var p := parentIndex.value;
        nodes := nodes[p := nodes[p].(childIndexes := nodes[p].childIndexes + [index])];
      }
      RecordsExtend(source, before, visit, nodes, parentIndex);
    }
    assert visits[..|visits|] == visits;
    flat := Flat(traversalComplete, nodes, Some(0));
  }

  lemma RecordsExtend<D>(source: Source<D>, before: seq<Visit>, v: Visit, nodes: seq<Record<D>>, parent: Option<nat>)
    requires parent == if v.ancestors == [] then None else IndexIn(before, Last(v.ancestors))
    requires parent.Some? ==> parent.value < |before|
    requires var pushed := Records(source, before) + [Record([], source.dataOf(v.node), v.depth, |before|, parent, v.source)];
             nodes == if parent.None? then pushed
                      else pushed[parent.value := pushed[parent.value].(childIndexes := pushed[parent.value].childIndexes + [|before|])]
    ensures nodes == Records(source, before + [v])
  {
    var after := before + [v];
    ParentsExtend(before, v);
    forall j | 0 <= j < |after| ensures nodes[j] == RecordOf(source, after, j) {
      ChildrenFromAppend(VisitParents(before), parent, j, 0);
      assert VisitParents(after)[j] == ParentOf(after, j);
      if j < |before| {
        assert VisitParents(before)[j] == ParentOf(before, j);
      } else {
        NoChildrenYet(before, j);
      }
    }
  }

  lemma IndexInBounded(visits: seq<Visit>, node: Id)
    ensures IndexIn(visits, node).Some? ==> IndexIn(visits, node).value < |visits|
  {
  }

  lemma NoChildrenYet(visits: seq<Visit>, p: nat)
    requires |visits| <= p
    ensures ChildrenFrom(VisitParents(visits), p, 0) == []
  {
    var parents := VisitParents(visits);
    if ChildrenFrom(parents, p, 0) != [] {
      var j := ChildrenFrom(parents, p, 0)[0];
      ChildrenFromExact(parents, p, 0, j);
      IndexInBounded(visits[..j], Last(visits[j].ancestors));
    }
  }

  // ----- restoring -----

  datatype Restoration<!D> = Unchanged | Restored(tree: Source<D>, root: Option<Id>)

  /** The indexes that name a node of the tree. */
  function ValidIndexes(indexes: seq<int>, count: nat): seq<nat> {
    if indexes == [] then []
    else (if 0 <= indexes[0] < count then [indexes[0]] else []) + ValidIndexes(indexes[1..], count)
  }

  function DenseSlots(children: seq<nat>): seq<Slot> {
    seq(|children|, k requires 0 <= k < |children| => Slot(k, true, true, Some(children[k])))
  }

  function RestoredGraph(children: seq<seq<nat>>): Graph {
    (id: Id) => if id < |children| then Elements(Some(|children[id]|), DenseSlots(children[id])) else Missing
  }

  /** Rebuilds the node objects and links each to the children its record names. */
  method RestoreTree<D>(flat: Flat<D>, noData: D) returns (r: Restoration<D>)
    ensures r.Unchanged? <==> flat.rootIndex.None?
    ensures r.Restored? ==>
              && r.root == (if flat.rootIndex.value < |flat.nodes| then flat.rootIndex else None)
              && (forall i :: 0 <= i < |flat.nodes| ==>
                    && r.tree.dataOf(i) == flat.nodes[i].data
                    && var children := ValidIndexes(flat.nodes[i].childIndexes, |flat.nodes|);
                       r.tree.graph(i) == Elements(Some(|children|), DenseSlots(children)))
  {
    if flat.rootIndex.None? { return Unchanged; }
    var nodes := flat.nodes;
    var data := seq(|nodes|, i requires 0 <= i < |nodes| => nodes[i].data);
    var children: seq<seq<nat>> := [];
    for index := 0 to |nodes|
      invariant |children| == index
      invariant forall i :: 0 <= i < index ==> children[i] == ValidIndexes(nodes[i].childIndexes, |nodes|)
    {
      children := children + [ValidIndexes(nodes[index].childIndexes, |nodes|)];
    }
    r := Restored(Source(RestoredGraph(children), (id: Id) => if id < |data| then data[id] else noData),
                  if flat.rootIndex.value < |nodes| then flat.rootIndex else None);
  }
}
