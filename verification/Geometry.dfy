/** Where nodes are on the screen (debugger-model.js). `computeGeometry` goes twice over the walked
    nodes; the definition it must agree with is recursive. */
module Geometry {
  import opened Wrappers
  import opened TreeWalk
  import opened FlatTree
  import opened FlatTreeProofs

  datatype Point = Point(px: real, py: real)

  datatype Box = Box(x: real, y: real, width: real, height: real)

  datatype Node = Node(id: nat, frame: Option<Box>, bounds: Option<Box>, isComponent: bool, translation: Point, scroll: Point)

  /** The nodes in the order of the walk, each with the position of its parent. */
  datatype Scene = Scene(nodes: seq<Node>, parents: Parents)

  ghost predicate Valid(t: Scene) {
    && |t.nodes| == |t.parents|
    && (t.parents != [] ==> t.parents[0] == None)
    && forall i :: 0 < i < |t.parents| ==> t.parents[i].Some? && t.parents[i].value < i
  }

  /** What the walk of a graph of nodes records. */
  function SceneOf(source: Source<Node>, root: Id): Scene {
    var visits := WalkFrom(EveryNode(source.graph), Some(root), [], 0).visits;
    Scene(seq(|visits|, i requires 0 <= i < |visits| => source.dataOf(visits[i].node)), VisitParents(visits))
  }

  lemma WalksAreScenes(source: Source<Node>, root: Id)
    ensures Valid(SceneOf(source, root))
  {
    ProjectionIsWellFormed(source, Some(root));
    var nodes := Project(source, Some(root)).nodes;
    assert ParentsOf(nodes) == SceneOf(source, root).parents;
  }

  // ----- boxes -----

  function Max(a: real, b: real): real { if a >= b then a else b }

  function Min(a: real, b: real): real { if a <= b then a else b }

  function NormalizeBounds(b: Box): Box {
    Box(b.x, b.y, Max(0.0, b.width), Max(0.0, b.height))
  }

  function Join(a: Box, b: Box): Box {
    var x, y := Min(a.x, b.x), Min(a.y, b.y);
    Box(x, y, Max(a.x + a.width, b.x + b.width) - x, Max(a.y + a.height, b.y + b.height) - y)
  }

  function UnionBounds(boxes: seq<Box>): Option<Box> {
    if boxes == [] then None
    else
      var rest := UnionBounds(boxes[..|boxes| - 1]);
      Some(if rest.None? then boxes[|boxes| - 1] else Join(rest.value, boxes[|boxes| - 1]))
  }

  predicate Contains(outer: Box, inner: Box) {
    && outer.x <= inner.x && inner.x + inner.width <= outer.x + outer.width
    && outer.y <= inner.y && inner.y + inner.height <= outer.y + outer.height
  }

  lemma JoinIsLeast(a: Box, b: Box, other: Box)
    ensures Contains(Join(a, b), a) && Contains(Join(a, b), b)
    ensures Contains(other, a) && Contains(other, b) ==> Contains(other, Join(a, b))
  {
  }

  /** The union is the least rectangle that encloses all. */
  lemma {:induction false} UnionEncloses(boxes: seq<Box>, i: nat)
    requires i < |boxes|
    ensures UnionBounds(boxes).Some? && Contains(UnionBounds(boxes).value, boxes[i])
    decreases |boxes|
  {
    var rest, last := boxes[..|boxes| - 1], boxes[|boxes| - 1];
    if rest != [] {
      UnionEncloses(rest, if i < |rest| then i else 0);
      JoinIsLeast(UnionBounds(rest).value, last, last);
    }
  }

  lemma {:induction false} UnionIsLeast(boxes: seq<Box>, other: Box)
    requires boxes != [] && forall i :: 0 <= i < |boxes| ==> Contains(other, boxes[i])
    ensures UnionBounds(boxes).Some? && Contains(other, UnionBounds(boxes).value)
    decreases |boxes|
  {
    var rest, last := boxes[..|boxes| - 1], boxes[|boxes| - 1];
    if rest != [] {
      UnionIsLeast(rest, other);
      JoinIsLeast(UnionBounds(rest).value, last, other);
    }
  }

  // ----- the recursive definition -----

  const ORIGIN := Point(0.0, 0.0)

  function HasLocalFrames(nodes: seq<Node>): bool {
    exists n :: n in nodes && n.frame.Some?
  }

  function PlaceFrame(n: Node, offset: Point): Box
    requires n.frame.Some?
  {
    var frame := NormalizeBounds(n.frame.value);
    Box(offset.px + frame.x + n.translation.px, offset.py + frame.y + n.translation.py, frame.width, frame.height)
  }

  function OffsetBelow(n: Node, offset: Point): Point {
    if n.frame.Some? then
      var placed := PlaceFrame(n, offset);
      Point(placed.x - n.scroll.px, placed.y - n.scroll.py)
    else offset
  }

  /** The origin that node `i` gives its children, from that of its parent. */
  function ChildOffset(t: Scene, i: nat): Point
    requires Valid(t) && i < |t.nodes|
    decreases i, 1
  {
    OffsetBelow(t.nodes[i], Offset(t, i))
  }

  function Offset(t: Scene, i: nat): Point
    requires Valid(t) && i < |t.nodes|
    decreases i, 0
  {
    if t.parents[i].None? then ORIGIN else ChildOffset(t, t.parents[i].value)
  }

  function OwnBox(n: Node, localFrames: bool, offset: Point): Option<Box> {
    if n.frame.Some? then Some(PlaceFrame(n, offset))
    else if !localFrames && n.bounds.Some? then Some(NormalizeBounds(n.bounds.value))
    else None
  }

  function Present<T>(items: seq<Option<T>>): seq<T> {
    if items == [] then []
    else
      var rest := Present(items[..|items| - 1]);
      if items[|items| - 1].Some? then rest + [items[|items| - 1].value] else rest
  }

  /** Components, and nodes without a box of their own, take the box around their children. */
  function Enclose(n: Node, own: Option<Box>, children: seq<Box>): Option<Box> {
    if (own.None? || n.isComponent) && children != [] then UnionBounds(children) else own
  }

  function ChildIndexes(t: Scene, i: nat): (js: seq<int>)
    requires Valid(t)
    ensures forall k :: 0 <= k < |js| ==> i < js[k] < |t.nodes| && t.parents[js[k]] == Some(i)
  {
    var js := ChildrenFrom(t.parents, i, 0);
    ChildrenAreLater(t, i, js);
    js
  }

  lemma ChildrenAreLater(t: Scene, i: nat, js: seq<int>)
    requires Valid(t) && js == ChildrenFrom(t.parents, i, 0)
    ensures forall k :: 0 <= k < |js| ==> i < js[k] < |t.nodes| && t.parents[js[k]] == Some(i)
  {
    forall k | 0 <= k < |js| ensures i < js[k] < |t.nodes| && t.parents[js[k]] == Some(i) {
      assert js[k] in js;
      ChildrenFromExact(t.parents, i, 0, js[k]);
    }
  }

  /** The absolute box of node `i`, if it has one. */
  function Absolute(t: Scene, i: nat): Option<Box>
    requires Valid(t) && i < |t.nodes|
    decreases |t.nodes| - i, 1, 0
  {
    Enclose(t.nodes[i], OwnBox(t.nodes[i], HasLocalFrames(t.nodes), Offset(t, i)), Present(Absolutes(t, i, ChildIndexes(t, i))))
  }

  function Absolutes(t: Scene, i: nat, js: seq<int>): seq<Option<Box>>
    requires Valid(t) && i < |t.nodes| && forall k :: 0 <= k < |js| ==> i < js[k] < |t.nodes|
    decreases |t.nodes| - i, 0, |js|
  {
    if js == [] then []
    else Absolutes(t, i, js[..|js| - 1]) + [Absolute(t, js[|js| - 1])]
  }

  // ----- the two passes -----

  /** `local` and `absolute` of the first node, in the order of the walk, that has the id and a box. */
  datatype Placement = Placement(localBox: Option<Box>, absoluteBox: Box)

  datatype Geometry = Geometry(localFrames: bool, placements: map<nat, Placement>, viewport: Box)

  function PlacementOf(t: Scene, i: nat): Option<Placement>
    requires Valid(t) && i < |t.nodes|
  {
    var n := t.nodes[i];
    match Absolute(t, i)
    case None => None
    case Some(box) =>
      Some(Placement(if n.bounds.Some? then Some(NormalizeBounds(n.bounds.value))
                     else if n.frame.Some? then Some(NormalizeBounds(n.frame.value))
                     else None, box))
  }

  /** What is found under `id` among the nodes from `lo` on. */
  function Find(t: Scene, id: nat, lo: nat): Option<Placement>
    requires Valid(t) && lo <= |t.nodes|
    decreases |t.nodes| - lo
  {
    if lo == |t.nodes| then None
    else if t.nodes[lo].id == id && PlacementOf(t, lo).Some? then PlacementOf(t, lo)
    else Find(t, id, lo + 1)
  }

  predicate HasArea(n: Node) {
    n.frame.Some? && NormalizeBounds(n.frame.value).width > 0.0 && NormalizeBounds(n.frame.value).height > 0.0
  }

  function FirstWithArea(nodes: seq<Node>, lo: nat): Option<nat>
    requires lo <= |nodes|
    decreases |nodes| - lo
  {
    if lo == |nodes| then None else if HasArea(nodes[lo]) then Some(lo) else FirstWithArea(nodes, lo + 1)
  }

  const DEFAULT_VIEWPORT := Box(0.0, 0.0, 390.0, 760.0)

  /** The first element with an area, or the root; failing that, whatever surrounds the root. */
  function Viewport(t: Scene): Box
    requires Valid(t) && t.nodes != []
  {
    var chosen := if HasLocalFrames(t.nodes) then FirstWithArea(t.nodes, 0) else Some(0);
    var placed := if chosen.Some? && chosen.value < |t.nodes| then Find(t, t.nodes[chosen.value].id, 0) else None;
    if placed.Some? then placed.value.absoluteBox
    else if Absolute(t, 0).Some? then Absolute(t, 0).value
    else DEFAULT_VIEWPORT
  }

  method FindLocalFrames(nodes: seq<Node>) returns (found: bool)
    ensures found == HasLocalFrames(nodes)
  {
    for i := 0 to |nodes|
      invariant forall j :: 0 <= j < i ==> nodes[j].frame.None?
    {
      if nodes[i].frame.Some? {
        return true;
      }
    }
    found := false;
  }

  method FirstElementWithFrame(nodes: seq<Node>) returns (found: Option<nat>)
    ensures found == FirstWithArea(nodes, 0)
    ensures found.Some? ==> found.value < |nodes|
  {
    for i := 0 to |nodes|
      invariant FirstWithArea(nodes, 0) == FirstWithArea(nodes, i)
    {
      if HasArea(nodes[i]) {
        return Some(i);
      }
    }
    found := None;
  }

  /** The forward pass: origins and own boxes from parents to children, and the lists of children. */
  method PlaceForward(t: Scene, localFrames: bool) returns (records: seq<Option<Box>>, childrenByNode: seq<seq<int>>)
    requires Valid(t) && localFrames == HasLocalFrames(t.nodes)
    ensures |records| == |childrenByNode| == |t.nodes|
    ensures forall i :: 0 <= i < |t.nodes| ==> records[i] == OwnBox(t.nodes[i], localFrames, Offset(t, i))
    ensures forall i :: 0 <= i < |t.nodes| ==> childrenByNode[i] == ChildIndexes(t, i)
  {
    records, childrenByNode := [], [];
    var childOffsets: seq<Point> := [];
    for i := 0 to |t.nodes|
      invariant |records| == |childOffsets| == i
      invariant forall j :: 0 <= j < i ==> childOffsets[j] == ChildOffset(t, j)
      invariant forall j :: 0 <= j < i ==> records[j] == OwnBox(t.nodes[j], localFrames, Offset(t, j))
      invariant ChildrenSoFar(t, i, childrenByNode)
    {
      var parent := t.parents[i];
      var offset := if parent.Some? then childOffsets[parent.value] else ORIGIN;
      ChildrenGrow(t, i, childrenByNode);
      if parent.Some? {
        childrenByNode := childrenByNode[parent.value := childrenByNode[parent.value] + [i]];
      }
      childrenByNode := childrenByNode + [[]];
      childOffsets := childOffsets + [OffsetBelow(t.nodes[i], offset)];
      records := records + [OwnBox(t.nodes[i], localFrames, offset)];
    }
    assert t.parents[..|t.nodes|] == t.parents;
  }

  /** The lists of children when the walk has come to node `i`. */
  ghost predicate ChildrenSoFar(t: Scene, i: nat, lists: seq<seq<int>>)
    requires Valid(t) && i <= |t.nodes|
  {
    |lists| == i && forall j :: 0 <= j < i ==> lists[j] == ChildrenFrom(t.parents[..i], j, 0)
  }

  lemma ChildrenGrow(t: Scene, i: nat, lists: seq<seq<int>>)
    requires Valid(t) && i < |t.nodes| && ChildrenSoFar(t, i, lists)
    ensures var parent := t.parents[i];
            var longer := if parent.Some? then lists[parent.value := lists[parent.value] + [i]] else lists;
            ChildrenSoFar(t, i + 1, longer + [[]])
  {
    var parent := t.parents[i];
    assert t.parents[..i + 1] == t.parents[..i] + [parent];
    forall j | 0 <= j <= i
      ensures ChildrenFrom(t.parents[..i + 1], j, 0)
           == ChildrenFrom(t.parents[..i], j, 0) + (if parent == Some(j) then [i] else [])
    {
      ChildrenFromAppend(t.parents[..i], parent, j, 0);
    }
    NoChildrenYet(t.parents[..i], i, 0);
  }

  lemma NoChildrenYet(parents: Parents, i: nat, lo: nat)
    requires forall j :: 0 <= j < |parents| ==> parents[j] != Some(i)
    ensures ChildrenFrom(parents, i, lo) == []
    decreases |parents| - lo
  {
    if lo < |parents| { NoChildrenYet(parents, i, lo + 1); }
  }

  method BoxesOf(absoluteByNode: map<int, Box>, children: seq<int>, ghost t: Scene, ghost i: nat) returns (boxes: seq<Box>)
    requires Valid(t) && i < |t.nodes| && forall k :: 0 <= k < |children| ==> i < children[k] < |t.nodes|
    requires forall j :: i < j < |t.nodes| ==> Holds(absoluteByNode, j, Absolute(t, j))
    ensures boxes == Present(Absolutes(t, i, children))
  {
    boxes := [];
    for k := 0 to |children|
      invariant boxes == Present(Absolutes(t, i, children[..k]))
    {
      assert children[..k + 1][..k] == children[..k];
      var all := Absolutes(t, i, children[..k + 1]);
      assert all[..|all| - 1] == Absolutes(t, i, children[..k]);
      assert Holds(absoluteByNode, children[k], Absolute(t, children[k]));
      if children[k] in absoluteByNode {
        boxes := boxes + [absoluteByNode[children[k]]];
      }
    }
    assert children[..|children|] == children;
  }

  ghost predicate Holds<K, T>(m: map<K, T>, key: K, value: Option<T>) {
    if value.Some? then key in m && m[key] == value.value else key !in m
  }

  /** The backward pass, when it has come down to node `index`. */
  ghost predicate PlacedFrom(t: Scene, index: nat, absoluteByNode: map<int, Box>, placements: map<nat, Placement>)
    requires Valid(t) && index <= |t.nodes|
  {
    && (forall j :: j in absoluteByNode ==> index <= j)
    && (forall j :: index <= j < |t.nodes| ==> Holds(absoluteByNode, j, Absolute(t, j)))
    && (forall id :: Holds(placements, id, Find(t, id, index)))
  }

  lemma PlaceOneMore(t: Scene, index: nat, absoluteByNode: map<int, Box>, placements: map<nat, Placement>)
    requires Valid(t) && index < |t.nodes| && PlacedFrom(t, index + 1, absoluteByNode, placements)
    ensures match PlacementOf(t, index)
            case None => PlacedFrom(t, index, absoluteByNode, placements)
            case Some(p) => PlacedFrom(t, index, absoluteByNode[index := p.absoluteBox], placements[t.nodes[index].id := p])
  {
    var n := t.nodes[index];
    forall id | id != n.id ensures Find(t, id, index) == Find(t, id, index + 1) {
    }
    assert PlacementOf(t, index).None? ==> Find(t, n.id, index) == Find(t, n.id, index + 1);
  }

  method PlaceBackward(t: Scene, records: seq<Option<Box>>, childrenByNode: seq<seq<int>>)
    returns (absoluteByNode: map<int, Box>, placements: map<nat, Placement>)
    requires Valid(t) && |records| == |childrenByNode| == |t.nodes|
    requires forall i :: 0 <= i < |t.nodes| ==> records[i] == OwnBox(t.nodes[i], HasLocalFrames(t.nodes), Offset(t, i))
    requires forall i :: 0 <= i < |t.nodes| ==> childrenByNode[i] == ChildIndexes(t, i)
    ensures PlacedFrom(t, 0, absoluteByNode, placements)
  {
    absoluteByNode, placements := map[], map[];
    var index: nat := |t.nodes|;
    while index > 0
      invariant index <= |t.nodes| && PlacedFrom(t, index, absoluteByNode, placements)
    {
      PlaceOneMore(t, index - 1, absoluteByNode, placements);
      index := index - 1;
      var n := t.nodes[index];
      var childBounds := BoxesOf(absoluteByNode, childrenByNode[index], t, index);
      var absolute := Enclose(n, records[index], childBounds);
      if absolute.Some? {
        var localBox := if n.bounds.Some? then Some(NormalizeBounds(n.bounds.value))
                        else if n.frame.Some? then Some(NormalizeBounds(n.frame.value))
                        else None;
        absoluteByNode := absoluteByNode[index := absolute.value];
        placements := placements[n.id := Placement(localBox, absolute.value)];
      }
    }
  }

  method ComputeGeometry(t: Scene) returns (g: Geometry)
    requires Valid(t) && t.nodes != []
    ensures g.localFrames == HasLocalFrames(t.nodes)
    ensures forall id :: Holds(g.placements, id, Find(t, id, 0))
    ensures var v := Viewport(t); g.viewport == Box(v.x, v.y, Max(1.0, v.width), Max(1.0, v.height))
  {
    var localFrames := FindLocalFrames(t.nodes);
    var records, childrenByNode := PlaceForward(t, localFrames);
    var absoluteByNode, placements := PlaceBackward(t, records, childrenByNode);
    var viewportNode: Option<nat> := Some(0);
    if localFrames {
      viewportNode := FirstElementWithFrame(t.nodes);
    }
    assert Holds(absoluteByNode, 0, Absolute(t, 0));
    var viewport := if 0 in absoluteByNode then absoluteByNode[0] else DEFAULT_VIEWPORT;
    if viewportNode.Some? {
      var id := t.nodes[viewportNode.value].id;
      assert Holds(placements, id, Find(t, id, 0));
      if id in placements {
        viewport := placements[id].absoluteBox;
      }
    }
    g := Geometry(localFrames, placements, Box(viewport.x, viewport.y, Max(1.0, viewport.width), Max(1.0, viewport.height)));
  }
}
