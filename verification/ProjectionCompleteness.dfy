/** When a projection is complete, told by the object graph alone. */
module ProjectionCompleteness {
  import opened Wrappers
  import opened Projection
  import opened Projector
  import opened ProjectionProofs

  // ----- the graph -----

  /** The object shows all its properties, each with a value, and an array has exactly its elements. */
  predicate IsPlainObject(o: Inspection) {
    match o
    case Unavailable => false
    case Record(ps) => forall p <- ps :: p.Data?
    case Array(ps, length) => length == Some(|ps|) && forall i :: 0 <= i < |ps| ==> ps[i].Data? && ps[i].key == Index(i)
  }

  predicate IsShort(v: Value) {
    v.Prim? && v.prim.Text? ==> |v.prim.text| <= 50_000
  }

  predicate HasShortTexts(o: Inspection) {
    forall p <- AllProperties(o) :: p.Data? ==> IsShort(p.value)
  }

  ghost predicate PointsTo(heap: Heap, a: ObjectId, b: ObjectId) {
    exists p <- AllProperties(heap(a)) :: p.Data? && p.value == Obj(b)
  }

  ghost predicate IsClosed(heap: Heap, objects: seq<ObjectId>) {
    forall a, b :: a in objects && PointsTo(heap, a, b) ==> b in objects
  }

  predicate AreDistinct(objects: seq<ObjectId>) {
    forall i, j :: 0 <= i < j < |objects| ==> objects[i] != objects[j]
  }

  /** A path of the graph from `root` that visits no object twice. */
  ghost predicate IsSimplePath(heap: Heap, root: ObjectId, path: seq<ObjectId>) {
    && path != [] && path[0] == root && AreDistinct(path)
    && forall i :: 0 <= i < |path| - 1 ==> PointsTo(heap, path[i], path[i + 1])
  }

  function Total(heap: Heap, objects: seq<ObjectId>): nat {
    if objects == [] then 0 else |AllProperties(heap(objects[0]))| + Total(heap, objects[1..])
  }

  /** `objects` are the root and everything that is reached from it, once each. */
  ghost predicate IsGraph(heap: Heap, root: ObjectId, objects: seq<ObjectId>) {
    AreDistinct(objects) && root in objects && IsClosed(heap, objects)
  }

  ghost predicate IsReached(heap: Heap, root: ObjectId, o: ObjectId) {
    exists keys: Path :: FollowSource(heap, Obj(root), keys) == Some(Obj(o))
  }

  ghost predicate IsWithinLimits(heap: Heap, objects: seq<ObjectId>) {
    && (forall o <- objects :: IsPlainObject(heap(o)) && HasShortTexts(heap(o)))
    && 1 + Total(heap, objects) <= 250_000
  }

  // ----- sums over objects -----

  lemma {:induction false} TotalConcat(heap: Heap, a: seq<ObjectId>, b: seq<ObjectId>)
    ensures Total(heap, a + b) == Total(heap, a) + Total(heap, b)
    decreases |a|
  {
    if a == [] {
      assert a + b == b;
    } else {
      assert (a + b)[1..] == a[1..] + b;
      TotalConcat(heap, a[1..], b);
    }
  }

  lemma TotalOne(heap: Heap, o: ObjectId)
    ensures Total(heap, [o]) == |AllProperties(heap(o))|
  {
    assert [o][1..] == [];
  }

  lemma {:induction false} TotalOfSome(heap: Heap, xs: seq<ObjectId>, ys: seq<ObjectId>)
    requires AreDistinct(xs) && forall x <- xs :: x in ys
    ensures Total(heap, xs) <= Total(heap, ys)
    decreases |xs|
  {
    if xs != [] {
      var x := xs[0];
      assert x in ys;
      var i :| 0 <= i < |ys| && ys[i] == x;
      var before, after := ys[..i], ys[i + 1..];
      assert ys == before + ([x] + after);
      forall y | y in xs[1..] ensures y in before + after {
        var j :| 0 <= j < |xs[1..]| && xs[1..][j] == y;
        assert xs[j + 1] == y && y != x;
        assert y in ys;
      }
      assert AreDistinct(xs[1..]);
      TotalOfSome(heap, xs[1..], before + after);
      TotalConcat(heap, before, [x] + after);
      TotalConcat(heap, [x], after);
      TotalConcat(heap, before, after);
      TotalOne(heap, x);
    }
  }

  function Sources(origins: seq<Origin>): seq<ObjectId> {
    seq(|origins|, i requires 0 <= i < |origins| => origins[i].source)
  }

  lemma SourcesAre(origins: seq<Origin>, seen: Seen)
    requires SeenOk(origins, seen)
    ensures AreDistinct(Sources(origins)) && |Sources(origins)| == |origins|
    ensures forall o :: o in Sources(origins) <==> exists t :: 0 <= t < |origins| && origins[t].source == o
  {
    forall t | 0 <= t < |origins| ensures origins[t].source in Sources(origins) {
      assert Sources(origins)[t] == origins[t].source;
    }
  }

  /** The entries written are at most the properties that there are; a container that lacks some lowers the sum. */
  lemma {:induction false} CountBound(heap: Heap, store: seq<Target>, origins: seq<Origin>)
    requires |store| == |origins|
    requires forall t :: 0 <= t < |store| ==> |store[t].entries| <= |AllProperties(heap(origins[t].source))|
    ensures CountEntries(store) <= Total(heap, Sources(origins))
    ensures (exists t :: 0 <= t < |store| && |store[t].entries| < |AllProperties(heap(origins[t].source))|) ==>
              CountEntries(store) < Total(heap, Sources(origins))
    decreases |store|
  {
    if store != [] {
      var last := |store| - 1;
      CountBound(heap, store[..last], origins[..last]);
      assert Sources(origins) == Sources(origins[..last]) + [origins[last].source];
      TotalConcat(heap, Sources(origins[..last]), [origins[last].source]);
      TotalOne(heap, origins[last].source);
      if t :| 0 <= t < |store| && |store[t].entries| < |AllProperties(heap(origins[t].source))| {
        if t < last { assert store[..last][t] == store[t] && origins[..last][t] == origins[t]; }
      }
    }
  }

  // ----- containers stand on simple paths -----

  ghost predicate AreContainersUpTo(origins: seq<Origin>, t: nat, path: seq<ObjectId>) {
    forall o <- path :: exists u :: 0 <= u <= t && u < |origins| && origins[u].source == o
  }

  /** The object of a container is what the property it is written for points to. */
  lemma ParentPoints(heap: Heap, root: ObjectId, p: Projected, origins: seq<Origin>, seen: Seen, t: nat)
    requires ProjectionOk(heap, root, p, origins, seen) && 0 < t < |origins|
    ensures origins[t].parent < t && PointsTo(heap, origins[origins[t].parent].source, origins[t].source)
    ensures |origins[t].path| == |origins[origins[t].parent].path| + 1
  {
    var from := origins[t];
    assert NestedOk(p.store, origins, t);
    assert TargetOk(heap, p.store, origins, seen, from.parent);
    var ps := OwnEntries(heap(origins[from.parent].source));
    assert EntryOk(origins, seen, from.parent, from.slot, ps[from.slot], p.store[from.parent].entries[from.slot]);
    assert ps[from.slot] in AllProperties(heap(origins[from.parent].source));
  }

  lemma {:induction false} PathTo(heap: Heap, root: ObjectId, p: Projected, origins: seq<Origin>, seen: Seen, t: nat)
      returns (path: seq<ObjectId>)
    requires ProjectionOk(heap, root, p, origins, seen) && t < |origins|
    ensures IsSimplePath(heap, root, path) && |path| == |origins[t].path| + 1 && path[|path| - 1] == origins[t].source
    ensures AreContainersUpTo(origins, t, path)
    decreases t
  {
    if t == 0 {
      path := [root];
      assert origins[0].source == root;
    } else {
      ParentPoints(heap, root, p, origins, seen, t);
      var before := PathTo(heap, root, p, origins, seen, origins[t].parent);
      path := before + [origins[t].source];
      PathGrows(heap, root, before, origins[t].source, origins, origins[t].parent, t);
    }
  }

  lemma PathGrows(heap: Heap, root: ObjectId, before: seq<ObjectId>, o: ObjectId, origins: seq<Origin>, parent: nat, t: nat)
    requires IsSimplePath(heap, root, before) && AreContainersUpTo(origins, parent, before) && parent < t < |origins|
    requires PointsTo(heap, before[|before| - 1], o) && origins[t].source == o
    requires forall u :: 0 <= u < t ==> origins[u].source != o
    ensures IsSimplePath(heap, root, before + [o]) && AreContainersUpTo(origins, t, before + [o])
  {
    ExtendedPath(heap, root, before, o, origins, parent);
  }

  lemma ExtendedPath(heap: Heap, root: ObjectId, before: seq<ObjectId>, o: ObjectId, origins: seq<Origin>, parent: nat)
    requires IsSimplePath(heap, root, before) && AreContainersUpTo(origins, parent, before)
    requires PointsTo(heap, before[|before| - 1], o)
    requires forall u :: 0 <= u <= parent && u < |origins| ==> origins[u].source != o
    ensures IsSimplePath(heap, root, before + [o])
  {
    var path := before + [o];
    assert o !in before;
    forall i | 0 <= i < |path| - 1 ensures PointsTo(heap, path[i], path[i + 1]) {
      if i < |before| - 1 { assert PointsTo(heap, before[i], before[i + 1]); }
    }
  }

  lemma {:induction false} SourcesInGraph(heap: Heap, root: ObjectId, p: Projected, origins: seq<Origin>, seen: Seen,
                                          objects: seq<ObjectId>, t: nat)
    requires ProjectionOk(heap, root, p, origins, seen) && IsGraph(heap, root, objects) && t < |origins|
    ensures origins[t].source in objects
    decreases t
  {
    if t > 0 {
      ParentPoints(heap, root, p, origins, seen, t);
      SourcesInGraph(heap, root, p, origins, seen, objects, origins[t].parent);
    }
  }

  // ----- within the limits nothing is cut off -----

  lemma NothingTooDeep(heap: Heap, root: ObjectId, p: Projected, origins: seq<Origin>, seen: Seen, t: nat, j: nat)
    requires ProjectionOk(heap, root, p, origins, seen) && t < |origins| && j < |p.store[t].entries|
    requires forall path :: IsSimplePath(heap, root, path) ==> |path| <= 64
    requires IsPlainObject(heap(origins[t].source))
    ensures !p.store[t].entries[j].output.Truncated?
  {
    assert TargetOk(heap, p.store, origins, seen, t);
    var ps, e := OwnEntries(heap(origins[t].source)), p.store[t].entries[j];
    assert EntryOk(origins, seen, t, j, ps[j], e);
    assert ps[j] in AllProperties(heap(origins[t].source));
    if e.output.Truncated? {
      var o := ps[j].value.id;
      var path := PathTo(heap, root, p, origins, seen, t);
      assert IsTooDeep(origins, t, o, origins[t].path + [ps[j].key]);
      assert PointsTo(heap, origins[t].source, o);
      ExtendedPath(heap, root, path, o, origins, t);
      assert false;
    }
  }

  lemma NothingMarked(heap: Heap, root: ObjectId, p: Projected, origins: seq<Origin>, seen: Seen, objects: seq<ObjectId>, t: nat)
    requires ProjectionOk(heap, root, p, origins, seen) && IsGraph(heap, root, objects) && t < |origins|
    requires 1 + Total(heap, objects) <= 250_000
    ensures !p.store[t].marked
  {
    if p.store[t].marked {
      assert |p.store[t].entries| < |AllProperties(heap(origins[t].source))|;
      EntriesAreProperties(heap, root, p, origins, seen);
      CountBound(heap, p.store, origins);
      SourcesAddUp(heap, root, p, origins, seen, objects);
      assert false;
    }
  }

  lemma SourcesAddUp(heap: Heap, root: ObjectId, p: Projected, origins: seq<Origin>, seen: Seen, objects: seq<ObjectId>)
    requires ProjectionOk(heap, root, p, origins, seen) && IsGraph(heap, root, objects)
    ensures Total(heap, Sources(origins)) <= Total(heap, objects)
  {
    SourcesAre(origins, seen);
    forall o | o in Sources(origins) ensures o in objects {
      var u :| 0 <= u < |origins| && origins[u].source == o;
      SourcesInGraph(heap, root, p, origins, seen, objects, u);
    }
    TotalOfSome(heap, Sources(origins), objects);
  }

  lemma EntriesAreProperties(heap: Heap, root: ObjectId, p: Projected, origins: seq<Origin>, seen: Seen)
    requires ProjectionOk(heap, root, p, origins, seen)
    ensures forall t :: 0 <= t < |p.store| ==> |p.store[t].entries| <= |AllProperties(heap(origins[t].source))|
  {
    forall t | 0 <= t < |p.store| ensures |p.store[t].entries| <= |AllProperties(heap(origins[t].source))| {
      assert TargetOk(heap, p.store, origins, seen, t);
    }
  }

  lemma {:induction false} OneOfThem(heap: Heap, objects: seq<ObjectId>, o: ObjectId)
    requires o in objects
    ensures |AllProperties(heap(o))| <= Total(heap, objects)
    decreases |objects|
  {
    if objects[0] != o {
      OneOfThem(heap, objects[1..], o);
    }
  }

  /** A graph of plain objects with short texts and fewer than 250,000 properties, in which no simple path
      from the root is longer than 64 objects, is projected whole. */
  lemma GraphsWithinLimitsAreProjectedWhole(
      heap: Heap, root: ObjectId, p: Projected, origins: seq<Origin>, seen: Seen, objects: seq<ObjectId>)
    requires ProjectionOk(heap, root, p, origins, seen) && IsGraph(heap, root, objects) && IsWithinLimits(heap, objects)
    requires forall path :: IsSimplePath(heap, root, path) ==> |path| <= 64
    ensures p.complete
  {
    forall t | 0 <= t < |p.store| ensures TargetWhole(heap, p.store, origins, t) {
      var o := origins[t].source;
      SourcesInGraph(heap, root, p, origins, seen, objects, t);
      OneOfThem(heap, objects, o);
      NothingMarked(heap, root, p, origins, seen, objects, t);
      PlainInspectsWholly(heap(o));
      forall j | 0 <= j < |p.store[t].entries| && j < |AllProperties(heap(o))|
        ensures !p.store[t].entries[j].output.Truncated?
        ensures var q := AllProperties(heap(o))[j]; q.Data? && q.value.Prim? ==> KeptWhole(q.value.prim)
      {
        NothingTooDeep(heap, root, p, origins, seen, t, j);
        assert AllProperties(heap(o))[j] in AllProperties(heap(o));
      }
    }
  }

  lemma PlainInspectsWholly(o: Inspection)
    ensures InspectsWholly(o) <==> IsPlainObject(o) && |AllProperties(o)| <= 250_000
  {
    if !o.Unavailable? {
      forall i | 0 <= i < |o.properties| ensures o.properties[i] in o.properties {}
    }
  }

  // ----- and what is complete was within the limits -----

  lemma ReachedIsWhole(heap: Heap, root: ObjectId, p: Projected, origins: seq<Origin>, seen: Seen, o: ObjectId)
    requires HeapValid(heap) && ProjectionOk(heap, root, p, origins, seen) && p.complete && IsReached(heap, root, o)
    ensures IsPlainObject(heap(o)) && HasShortTexts(heap(o)) && o in Sources(origins)
  {
    var keys: Path :| FollowSource(heap, Obj(root), keys) == Some(Obj(o));
    CompleteProjectionIsFaithful(heap, root, p, origins, seen, keys);
    var t := Deref(p.store, FollowOutput(p.store, p.root, keys).value).value;
    assert TargetWhole(heap, p.store, origins, t);
    CompleteContainers(heap, root, p, origins, seen, t);
    PlainInspectsWholly(heap(o));
    assert Sources(origins)[t] == o;
    forall q | q in AllProperties(heap(o)) && q.Data? ensures IsShort(q.value) {
      var j :| 0 <= j < |AllProperties(heap(o))| && AllProperties(heap(o))[j] == q;
    }
  }

  lemma {:induction false} CompleteCount(heap: Heap, store: seq<Target>, origins: seq<Origin>)
    requires |store| == |origins|
    requires forall t :: 0 <= t < |store| ==> |store[t].entries| == |AllProperties(heap(origins[t].source))|
    ensures CountEntries(store) == Total(heap, Sources(origins))
    decreases |store|
  {
    if store != [] {
      var last := |store| - 1;
      CompleteCount(heap, store[..last], origins[..last]);
      assert Sources(origins) == Sources(origins[..last]) + [origins[last].source];
      TotalConcat(heap, Sources(origins[..last]), [origins[last].source]);
      TotalOne(heap, origins[last].source);
    }
  }

  lemma CompleteProjectionsAreWithinLimits(
      heap: Heap, root: ObjectId, p: Projected, origins: seq<Origin>, seen: Seen, objects: seq<ObjectId>)
    requires HeapValid(heap) && ProjectionOk(heap, root, p, origins, seen) && p.complete
    requires AreDistinct(objects) && forall o <- objects :: IsReached(heap, root, o)
    ensures IsWithinLimits(heap, objects)
  {
    forall o | o in objects ensures IsPlainObject(heap(o)) && HasShortTexts(heap(o)) && o in Sources(origins) {
      ReachedIsWhole(heap, root, p, origins, seen, o);
    }
    forall t | 0 <= t < |p.store| ensures |p.store[t].entries| == |AllProperties(heap(origins[t].source))| {
      CompleteContainers(heap, root, p, origins, seen, t);
    }
    CompleteCount(heap, p.store, origins);
    TotalOfSome(heap, objects, Sources(origins));
  }

  /** Where no simple path is too long, a projection is complete iff the graph of the root is within the limits. */
  lemma CompleteIffWithinLimits(
      heap: Heap, root: ObjectId, p: Projected, origins: seq<Origin>, seen: Seen, objects: seq<ObjectId>)
    requires HeapValid(heap) && ProjectionOk(heap, root, p, origins, seen)
    requires IsGraph(heap, root, objects) && forall o <- objects :: IsReached(heap, root, o)
    requires forall path :: IsSimplePath(heap, root, path) ==> |path| <= 64
    ensures p.complete <==> IsWithinLimits(heap, objects)
  {
    if p.complete { CompleteProjectionsAreWithinLimits(heap, root, p, origins, seen, objects); }
    if IsWithinLimits(heap, objects) { GraphsWithinLimitsAreProjectedWhole(heap, root, p, origins, seen, objects); }
  }

  // ----- primitives -----

  /** Kept values and texts of up to 50,000 characters come back as they are; a longer text keeps its
      beginning and ends in a remark, 50,000 characters in all. */
  lemma PrimitivesComeBack(v: Primitive)
    ensures v.Kept? ==> Encode(v) == LeafKept(v.code)
    ensures v.Described? ==> Encode(v) == LeafText(v.description)
    ensures v.Text? && |v.text| <= 50_000 ==> Encode(v) == LeafText(v.text)
    ensures v.Text? && |v.text| > 50_000 ==>
              && Encode(v).LeafText? && |Encode(v).text| == 50_000 && Encode(v).text[..49_988] == v.text[..49_988]
              && Encode(v).text[49_988..] == "\U{2026}[truncated]"
  {
    if v.Text? && |v.text| > 50_000 {
      assert |SUFFIX| == 12;
      assert Encode(v).text == v.text[..49_988] + SUFFIX;
    }
  }

  /** Two texts or kept values that are written alike are the same, unless they were cut off. */
  lemma PrimitivesStayDistinct(a: Primitive, b: Primitive)
    requires !a.Described? && !b.Described? && IsShort(Prim(a)) && IsShort(Prim(b))
    ensures Encode(a) == Encode(b) <==> a == b
  {
  }

  // ----- shapes -----

  /** What a container is written as, complete or not. */
  lemma ContainersHaveTheirShape(heap: Heap, root: ObjectId, p: Projected, origins: seq<Origin>, seen: Seen, t: nat)
    requires ProjectionOk(heap, root, p, origins, seen) && t < |origins|
    ensures var shape := p.store[t].shape;
            match heap(origins[t].source)
            case Unavailable => shape == UnavailableShape(origins[t].path) && p.store[t].entries == []
            case Record(_) => shape == RecordShape
            case Array(ps, length) =>
              if length == Some(|ps|) && forall i :: 0 <= i < |ps| ==> ps[i].Data? && ps[i].key == Index(i)
              then shape == ArrayShape else shape == SparseShape(length)
  {
    assert TargetOk(heap, p.store, origins, seen, t);
  }
}
