/** What the recursive definition of positions means, and that the whole screen moves as one. */
module GeometryProofs {
  import opened Wrappers
  import opened FlatTree
  import opened Geometry

  // ----- components fit their children -----

  lemma {:induction false} PresentHas<T>(items: seq<Option<T>>, k: nat)
    requires k < |items| && items[k].Some?
    ensures items[k].value in Present(items)
    decreases |items|
  {
    if k < |items| - 1 { PresentHas(items[..|items| - 1], k); }
  }

  lemma {:induction false} PresentFrom<T>(items: seq<Option<T>>, value: T) returns (k: nat)
    requires value in Present(items)
    ensures k < |items| && items[k] == Some(value)
    decreases |items|
  {
    var rest := items[..|items| - 1];
    if items[|items| - 1] == Some(value) { k := |items| - 1; } else { k := PresentFrom(rest, value); }
  }

  lemma {:induction false} AbsolutesAt(t: Scene, i: nat, js: seq<int>, k: nat)
    requires Valid(t) && i < |t.nodes| && k < |js| && forall m :: 0 <= m < |js| ==> i < js[m] < |t.nodes|
    ensures |Absolutes(t, i, js)| == |js| && Absolutes(t, i, js)[k] == Absolute(t, js[k])
    decreases |js|
  {
    if |js| > 1 { AbsolutesAt(t, i, js[..|js| - 1], if k < |js| - 1 then k else 0); }
  }

  /** Nodes that have no box of their own, and components. */
  predicate FitsChildren(t: Scene, i: nat)
    requires Valid(t) && i < |t.nodes|
  {
    t.nodes[i].isComponent || OwnBox(t.nodes[i], HasLocalFrames(t.nodes), Offset(t, i)).None?
  }

  /** The box of such a node encloses the box of each child that has one. */
  lemma ComponentEnclosesChild(t: Scene, i: nat, j: nat)
    requires Valid(t) && i < |t.nodes| && j < |t.nodes| && t.parents[j] == Some(i)
    requires FitsChildren(t, i) && Absolute(t, j).Some?
    ensures Absolute(t, i).Some? && Contains(Absolute(t, i).value, Absolute(t, j).value)
  {
    var js := ChildIndexes(t, i);
    ChildrenFromExact(t.parents, i, 0, j);
    var k: nat :| k < |js| && js[k] == j;
    var all := Absolutes(t, i, js);
    AbsolutesAt(t, i, js, k);
    PresentHas(all, k);
    var m :| 0 <= m < |Present(all)| && Present(all)[m] == Absolute(t, j).value;
    UnionEncloses(Present(all), m);
  }

  /** And it is the least such box: any box around all the children's boxes is around it. */
  lemma ComponentFitsTightly(t: Scene, i: nat, other: Box)
    requires Valid(t) && i < |t.nodes| && FitsChildren(t, i)
    requires exists j :: 0 <= j < |t.nodes| && t.parents[j] == Some(i) && Absolute(t, j).Some?
    requires forall j :: 0 <= j < |t.nodes| && t.parents[j] == Some(i) && Absolute(t, j).Some?
                         ==> Contains(other, Absolute(t, j).value)
    ensures Absolute(t, i).Some? && Contains(other, Absolute(t, i).value)
  {
    var j: nat :| j < |t.nodes| && t.parents[j] == Some(i) && Absolute(t, j).Some?;
    ComponentEnclosesChild(t, i, j);
    var js := ChildIndexes(t, i);
    var boxes := Present(Absolutes(t, i, js));
    forall m | 0 <= m < |boxes| ensures Contains(other, boxes[m]) {
      var k := PresentFrom(Absolutes(t, i, js), boxes[m]);
      AbsolutesLength(t, i, js);
      AbsolutesAt(t, i, js, k);
    }
    assert boxes != [] by {
      ChildrenFromExact(t.parents, i, 0, j);
      var k: nat :| k < |js| && js[k] == j;
      AbsolutesAt(t, i, js, k);
      PresentHas(Absolutes(t, i, js), k);
    }
    UnionIsLeast(boxes, other);
  }

  lemma {:induction false} AbsolutesLength(t: Scene, i: nat, js: seq<int>)
    requires Valid(t) && i < |t.nodes| && forall m :: 0 <= m < |js| ==> i < js[m] < |t.nodes|
    ensures |Absolutes(t, i, js)| == |js|
    decreases |js|
  {
    if js != [] { AbsolutesLength(t, i, js[..|js| - 1]); }
  }

  // ----- moving the root -----

  function MoveBox(b: Box, step: Point): Box {
    Box(b.x + step.px, b.y + step.py, b.width, b.height)
  }

  function MovePoint(p: Point, step: Point): Point {
    Point(p.px + step.px, p.py + step.py)
  }

  function MoveOption(b: Option<Box>, step: Point): Option<Box> {
    if b.None? then None else Some(MoveBox(b.value, step))
  }

  /** The scene with the frame of its root moved. */
  function MoveRoot(t: Scene, step: Point): Scene
    requires t.nodes != [] && t.nodes[0].frame.Some?
  {
    t.(nodes := t.nodes[0 := t.nodes[0].(frame := Some(MoveBox(t.nodes[0].frame.value, step)))])
  }

  lemma {:induction false} OffsetsMove(t: Scene, step: Point, i: nat)
    requires Valid(t) && i < |t.nodes| && t.nodes[0].frame.Some?
    ensures ChildOffset(MoveRoot(t, step), i) == MovePoint(ChildOffset(t, i), step)
    ensures i > 0 ==> Offset(MoveRoot(t, step), i) == MovePoint(Offset(t, i), step)
  {
    var t' := MoveRoot(t, step);
    if i > 0 {
      OffsetsMove(t, step, t.parents[i].value);
      OffsetBelowMoves(t.nodes[i], Offset(t, i), step);
    } else {
      RootMoves(t.nodes[0], step);
    }
  }

  lemma OffsetBelowMoves(n: Node, offset: Point, step: Point)
    ensures OffsetBelow(n, MovePoint(offset, step)) == MovePoint(OffsetBelow(n, offset), step)
  {
  }

  lemma RootMoves(n: Node, step: Point)
    requires n.frame.Some?
    ensures OffsetBelow(n.(frame := Some(MoveBox(n.frame.value, step))), ORIGIN) == MovePoint(OffsetBelow(n, ORIGIN), step)
  {
  }

  lemma OwnBoxesMove(t: Scene, step: Point, i: nat)
    requires Valid(t) && i < |t.nodes| && t.nodes[0].frame.Some?
    ensures OwnBox(MoveRoot(t, step).nodes[i], true, Offset(MoveRoot(t, step), i))
         == MoveOption(OwnBox(t.nodes[i], true, Offset(t, i)), step)
  {
    OffsetsMove(t, step, i);
  }

  lemma {:induction false} UnionsMove(a: seq<Box>, b: seq<Box>, step: Point)
    requires |a| == |b| && forall k :: 0 <= k < |a| ==> b[k] == MoveBox(a[k], step)
    ensures UnionBounds(b) == MoveOption(UnionBounds(a), step)
  {
    if a != [] { UnionsMove(a[..|a| - 1], b[..|b| - 1], step); }
  }

  lemma {:induction false} PresentMoves(a: seq<Option<Box>>, b: seq<Option<Box>>, step: Point)
    requires |a| == |b| && forall k :: 0 <= k < |a| ==> b[k] == MoveOption(a[k], step)
    ensures |Present(a)| == |Present(b)|
    ensures forall k :: 0 <= k < |Present(a)| ==> Present(b)[k] == MoveBox(Present(a)[k], step)
  {
    if a != [] { PresentMoves(a[..|a| - 1], b[..|b| - 1], step); }
  }

  lemma FramesStay(t: Scene, step: Point)
    requires Valid(t) && t.nodes != [] && t.nodes[0].frame.Some?
    ensures HasLocalFrames(t.nodes) && HasLocalFrames(MoveRoot(t, step).nodes)
  {
    assert t.nodes[0] in t.nodes && MoveRoot(t, step).nodes[0] in MoveRoot(t, step).nodes;
  }

  /** Moving the root's frame moves every box on the screen by as much, frames and the boxes
      around children alike, and gives no node a box nor takes one away. */
  lemma {:induction false} EverythingMoves(t: Scene, step: Point, i: nat)
    requires Valid(t) && i < |t.nodes| && t.nodes[0].frame.Some?
    ensures Absolute(MoveRoot(t, step), i) == MoveOption(Absolute(t, i), step)
    decreases |t.nodes| - i, 1, 0
  {
    var t' := MoveRoot(t, step);
    var js := ChildIndexes(t, i);
    assert ChildIndexes(t', i) == js;
    FramesStay(t, step);
    OwnBoxesMove(t, step, i);
    ChildrenMove(t, step, i, js);
    var a, b := Absolutes(t, i, js), Absolutes(t', i, js);
    PresentMoves(a, b, step);
    UnionsMove(Present(a), Present(b), step);
  }

  lemma {:induction false} ChildrenMove(t: Scene, step: Point, i: nat, js: seq<int>)
    requires Valid(t) && i < |t.nodes| && t.nodes[0].frame.Some?
    requires forall k :: 0 <= k < |js| ==> i < js[k] < |t.nodes|
    ensures |Absolutes(t, i, js)| == |Absolutes(MoveRoot(t, step), i, js)|
    ensures forall k :: 0 <= k < |Absolutes(t, i, js)|
                        ==> Absolutes(MoveRoot(t, step), i, js)[k] == MoveOption(Absolutes(t, i, js)[k], step)
    decreases |t.nodes| - i, 0, |js|
  {
    if js != [] {
      ChildrenMove(t, step, i, js[..|js| - 1]);
      EverythingMoves(t, step, js[|js| - 1]);
    }
  }

  // ----- where an element stands, and what moves it -----

  /** Nodes with a frame that do not take the box of their children. */
  predicate IsElement(n: Node) {
    n.frame.Some? && !n.isComponent
  }

  lemma ElementsKeepTheirBox(t: Scene, i: nat)
    requires Valid(t) && i < |t.nodes| && IsElement(t.nodes[i])
    ensures Absolute(t, i) == Some(PlaceFrame(t.nodes[i], Offset(t, i)))
  {
  }

  /** The nearest node above that has a frame. */
  function FramedAbove(t: Scene, i: nat): (above: Option<nat>)
    requires Valid(t) && i < |t.nodes|
    ensures above.Some? ==> above.value < i
  {
    if t.parents[i].None? then None
    else if t.nodes[t.parents[i].value].frame.Some? then t.parents[i]
    else FramedAbove(t, t.parents[i].value)
  }

  lemma {:induction false} OffsetIsFromAbove(t: Scene, i: nat)
    requires Valid(t) && i < |t.nodes|
    ensures FramedAbove(t, i).None? ==> Offset(t, i) == Point(0.0, 0.0)
    ensures FramedAbove(t, i).Some? ==>
              var p := FramedAbove(t, i).value;
              && p < i && t.nodes[p].frame.Some?
              && var box := PlaceFrame(t.nodes[p], Offset(t, p));
                 Offset(t, i) == Point(box.x - t.nodes[p].scroll.px, box.y - t.nodes[p].scroll.py)
    decreases i
  {
    if t.parents[i].Some? && t.nodes[t.parents[i].value].frame.None? { OffsetIsFromAbove(t, t.parents[i].value); }
  }

  /** An element stands in the nearest element above it at its own frame and translation, less what that one is
      scrolled; without one above it stands so on the screen. It is as large as its frame. */
  lemma ElementStandsInTheOneAbove(t: Scene, i: nat)
    requires Valid(t) && i < |t.nodes| && IsElement(t.nodes[i])
    requires FramedAbove(t, i).Some? ==> IsElement(t.nodes[FramedAbove(t, i).value])
    ensures Absolute(t, i).Some? && (FramedAbove(t, i).Some? ==> Absolute(t, FramedAbove(t, i).value).Some?)
    ensures var n, box := t.nodes[i], Absolute(t, i).value;
            var frame := n.frame.value;
            && box.width == (if frame.width > 0.0 then frame.width else 0.0)
            && box.height == (if frame.height > 0.0 then frame.height else 0.0)
            && if FramedAbove(t, i).None? then
                 box.x == frame.x + n.translation.px && box.y == frame.y + n.translation.py
               else
                 var above, outer := t.nodes[FramedAbove(t, i).value], Absolute(t, FramedAbove(t, i).value).value;
                 && box.x == outer.x - above.scroll.px + frame.x + n.translation.px
                 && box.y == outer.y - above.scroll.py + frame.y + n.translation.py
  {
    OffsetIsFromAbove(t, i);
    ElementsKeepTheirBox(t, i);
    if FramedAbove(t, i).Some? { ElementsKeepTheirBox(t, FramedAbove(t, i).value); }
  }

  /** `k` is above `i`. */
  predicate IsAbove(t: Scene, k: nat, i: nat)
    requires Valid(t) && i < |t.nodes|
  {
    t.parents[i].Some? && (t.parents[i].value == k || IsAbove(t, k, t.parents[i].value))
  }

  /** The scene with node `k` translated and scrolled further. */
  function Changed(t: Scene, k: nat, translated: Point, scrolled: Point): Scene
    requires k < |t.nodes|
  {
    var n := t.nodes[k];
    t.(nodes := t.nodes[k := n.(translation := MovePoint(n.translation, translated), scroll := MovePoint(n.scroll, scrolled))])
  }

  lemma {:induction false} AboveIsEarlier(t: Scene, k: nat, i: nat)
    requires Valid(t) && i < |t.nodes| && IsAbove(t, k, i)
    ensures k < i
    decreases i
  {
    if t.parents[i].value != k { AboveIsEarlier(t, k, t.parents[i].value); }
  }

  function Net(translated: Point, scrolled: Point): Point {
    Point(translated.px - scrolled.px, translated.py - scrolled.py)
  }

  /** The origin that a node is given moves iff the node is below `k`. */
  lemma {:induction false} OffsetsChange(t: Scene, k: nat, translated: Point, scrolled: Point, i: nat)
    requires Valid(t) && i < |t.nodes| && k < |t.nodes| && t.nodes[k].frame.Some?
    ensures Offset(Changed(t, k, translated, scrolled), i)
         == MovePoint(Offset(t, i), if IsAbove(t, k, i) then Net(translated, scrolled) else ORIGIN)
    decreases i
  {
    if t.parents[i].Some? {
      var p := t.parents[i].value;
      OffsetsChange(t, k, translated, scrolled, p);
      if p == k {
        if IsAbove(t, k, k) { AboveIsEarlier(t, k, k); }
        NothingMoves(Offset(t, k));
        ScrolledBelow(t.nodes[k], Offset(t, k), translated, scrolled);
      } else {
        OffsetBelowMoves(t.nodes[p], Offset(t, p), if IsAbove(t, k, p) then Net(translated, scrolled) else ORIGIN);
      }
    }
  }

  lemma NothingMoves(p: Point)
    ensures MovePoint(p, ORIGIN) == p
  {
  }

  lemma ScrolledBelow(n: Node, offset: Point, translated: Point, scrolled: Point)
    requires n.frame.Some?
    ensures OffsetBelow(n.(translation := MovePoint(n.translation, translated), scroll := MovePoint(n.scroll, scrolled)), offset)
         == MovePoint(OffsetBelow(n, offset), Net(translated, scrolled))
  {
  }

  /** Translating a node moves its element and all below by as much; scrolling it moves all below back by as
      much, and not itself. Nothing else moves. */
  lemma TranslatingAndScrollingMove(t: Scene, k: nat, translated: Point, scrolled: Point, i: nat)
    requires Valid(t) && i < |t.nodes| && k < |t.nodes| && t.nodes[k].frame.Some? && IsElement(t.nodes[i])
    ensures Absolute(Changed(t, k, translated, scrolled), i)
         == MoveOption(Absolute(t, i),
                       if i == k then translated
                       else if IsAbove(t, k, i) then Point(translated.px - scrolled.px, translated.py - scrolled.py)
                       else Point(0.0, 0.0))
  {
    var t' := Changed(t, k, translated, scrolled);
    OffsetsChange(t, k, translated, scrolled, i);
    ElementsKeepTheirBox(t, i);
    ElementsKeepTheirBox(t', i);
    if i == k {
      if IsAbove(t, k, k) { AboveIsEarlier(t, k, k); }
      NothingMoves(Offset(t, k));
      FrameTranslates(t.nodes[k], Offset(t, k), translated, scrolled);
    } else {
      FrameFollows(t.nodes[i], Offset(t, i), if IsAbove(t, k, i) then Net(translated, scrolled) else ORIGIN);
    }
  }

  lemma FrameTranslates(n: Node, offset: Point, translated: Point, scrolled: Point)
    requires n.frame.Some?
    ensures PlaceFrame(n.(translation := MovePoint(n.translation, translated), scroll := MovePoint(n.scroll, scrolled)), offset)
         == MoveBox(PlaceFrame(n, offset), translated)
  {
  }

  lemma FrameFollows(n: Node, offset: Point, step: Point)
    requires n.frame.Some?
    ensures PlaceFrame(n, MovePoint(offset, step)) == MoveBox(PlaceFrame(n, offset), step)
  {
  }

  // ----- what is found under an id, and the viewport -----

  predicate HasDistinctIds(t: Scene) {
    forall i, j :: 0 <= i < j < |t.nodes| ==> t.nodes[i].id != t.nodes[j].id
  }

  predicate IsVisible(n: Node) {
    n.frame.Some? && n.frame.value.width > 0.0 && n.frame.value.height > 0.0
  }

  /** Where ids are distinct every node's box is found under its own. */
  lemma {:induction false} FoundUnderItsId(t: Scene, k: nat, lo: nat)
    requires Valid(t) && HasDistinctIds(t) && lo <= k < |t.nodes|
    ensures Absolute(t, k).Some? ==>
              Find(t, t.nodes[k].id, lo).Some? && Find(t, t.nodes[k].id, lo).value.absoluteBox == Absolute(t, k).value
    decreases k - lo
  {
    if lo < k {
      assert t.nodes[lo].id != t.nodes[k].id;
      FoundUnderItsId(t, k, lo + 1);
    }
  }

  lemma {:induction false} FirstVisible(nodes: seq<Node>, k: nat, lo: nat)
    requires lo <= k < |nodes| && IsVisible(nodes[k]) && forall j :: lo <= j < k ==> !IsVisible(nodes[j])
    ensures FirstWithArea(nodes, lo) == Some(k)
    decreases k - lo
  {
    if lo < k { FirstVisible(nodes, k, lo + 1); }
  }

  lemma {:induction false} NoneVisible(nodes: seq<Node>, lo: nat)
    requires lo <= |nodes| && forall j :: lo <= j < |nodes| ==> !IsVisible(nodes[j])
    ensures FirstWithArea(nodes, lo) == None
    decreases |nodes| - lo
  {
    if lo < |nodes| { NoneVisible(nodes, lo + 1); }
  }

  /** The viewport is the box of the first node whose frame has an area. */
  lemma ViewportIsFirstVisible(t: Scene, k: nat)
    requires Valid(t) && HasDistinctIds(t) && k < |t.nodes| && IsVisible(t.nodes[k])
    requires forall j :: 0 <= j < k ==> !IsVisible(t.nodes[j])
    ensures Absolute(t, k).Some? && Viewport(t) == Absolute(t, k).value
  {
    assert t.nodes[k] in t.nodes;
    FirstVisible(t.nodes, k, 0);
    FoundUnderItsId(t, k, 0);
  }

  /** Without one it is the root's, or 390 by 760. */
  lemma ViewportWithoutVisible(t: Scene)
    requires Valid(t) && HasDistinctIds(t) && t.nodes != [] && forall j :: 0 <= j < |t.nodes| ==> !IsVisible(t.nodes[j])
    ensures Viewport(t) == if Absolute(t, 0).Some? then Absolute(t, 0).value else Box(0.0, 0.0, 390.0, 760.0)
  {
    NoneVisible(t.nodes, 0);
    FoundUnderItsId(t, 0, 0);
    if Absolute(t, 0).None? { NotFoundWithoutBox(t, 0); }
  }

  lemma {:induction false} NotFoundWithoutBox(t: Scene, lo: nat)
    requires Valid(t) && HasDistinctIds(t) && t.nodes != [] && Absolute(t, 0).None? && lo <= |t.nodes|
    ensures Find(t, t.nodes[0].id, lo).None?
    decreases |t.nodes| - lo
  {
    if lo < |t.nodes| { NotFoundWithoutBox(t, lo + 1); }
  }
}
