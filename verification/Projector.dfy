/** The projector's loop: containers being filled in place, on an explicit stack of frames
    (debugger-tree-model.js), and the invariant that ties them to the objects they came from. */
module Projector {
  import opened Wrappers
  import opened Projection

  // ----- reading an object -----

  /** The enumerable entries of an object, up to the limit. */
  method DebuggerOwnEntries(o: Inspection) returns (entries: seq<Property>, complete: bool)
    ensures entries == OwnEntries(o)
    ensures complete <==>
              && !o.Unavailable? && |o.properties| <= MAX_VALUES
              && forall i :: 0 <= i < |o.properties| ==> o.properties[i].Data?
  {
    if o.Unavailable? { return [], false; }
    entries, complete := [], true;
    for i := 0 to |o.properties|
      invariant i <= MAX_VALUES && entries == o.properties[..i]
      invariant complete <==> forall j :: 0 <= j < i ==> o.properties[j].Data?
    {
      if |entries| >= MAX_VALUES {
        complete := false;
        return;
      }
      if o.properties[i].Accessor? {
        complete := false;
      }
      entries := entries + [o.properties[i]];
      assert o.properties[..i + 1] == o.properties[..i] + [o.properties[i]];
    }
    assert o.properties[..|o.properties|] == o.properties;
  }

  method DebuggerProjectionFrame(o: Inspection, path: Path) returns (entries: seq<Property>, shape: Shape, complete: bool)
    ensures entries == OwnEntries(o) && shape == ShapeOf(o, path)
    ensures complete <==> InspectsWholly(o)
  {
    entries, complete := DebuggerOwnEntries(o);
    if o.Unavailable? { return entries, UnavailableShape(path), false; }
    if o.Record? { return entries, RecordShape, complete; }
    var expectedIndex := 0;
    while expectedIndex < |o.properties| && o.properties[expectedIndex].Data? && o.properties[expectedIndex].key == Index(expectedIndex)
      invariant 0 <= expectedIndex <= |o.properties|
      invariant forall i :: 0 <= i < expectedIndex ==> o.properties[i].Data? && o.properties[i].key == Index(i)
    {
      expectedIndex := expectedIndex + 1;
    }
    var dense := expectedIndex == |o.properties| && o.length == Some(expectedIndex);
    shape := if dense then ArrayShape else SparseShape(o.length);
    complete := complete && dense;
  }

  // ----- what a projection must satisfy -----

  /** Where a container came from: its object, its path, and the entry that it is written out in. */
  datatype Origin = Origin(source: ObjectId, path: Path, parent: nat, slot: nat)

  type Seen = map<ObjectId, Path>

  /** The `slot`-th entry of container `t` stands for the property it was made from. */
  ghost predicate EntryOk(origins: seq<Origin>, seen: Seen, t: nat, slot: nat, p: Property, e: Entry)
    requires t < |origins|
  {
    && e.key == p.key
    && var at := origins[t].path + [p.key];
    match p
    case Accessor(_) => e.output == Truncated(AccessorSkipped, at)
    case Data(_, Prim(v)) => e.output == OutLeaf(Encode(v))
    case Data(_, Obj(o)) =>
      || (&& e.output.Nested? && t < e.output.target < |origins|
          && origins[e.output.target] == Origin(o, at, t, slot))
      || (e.output.Ref? && o in seen && e.output.path == seen[o])
      || (e.output == Truncated(DepthLimit, at) && IsTooDeep(origins, t, o, at))
  }

  /** The object would stand below 64 containers, and no container up to this one is its own. */
  ghost predicate IsTooDeep(origins: seq<Origin>, t: nat, o: ObjectId, at: Path)
    requires t < |origins|
  {
    |at| >= 64 && forall u :: 0 <= u <= t ==> origins[u].source != o
  }

  ghost predicate TargetOk(heap: Heap, store: seq<Target>, origins: seq<Origin>, seen: Seen, t: nat)
    requires t < |store| == |origins|
  {
    var o := heap(origins[t].source);
    var ps := OwnEntries(o);
    && store[t].shape == ShapeOf(o, origins[t].path)
    && |store[t].entries| <= |ps|
    && forall j :: 0 <= j < |store[t].entries| ==> EntryOk(origins, seen, t, j, ps[j], store[t].entries[j])
  }

  /** Nothing about this container was cut off. */
  ghost predicate TargetWhole(heap: Heap, store: seq<Target>, origins: seq<Origin>, t: nat)
    requires t < |store| == |origins|
  {
    var ps := AllProperties(heap(origins[t].source));
    && InspectsWholly(heap(origins[t].source)) && !store[t].marked
    && forall j :: 0 <= j < |store[t].entries| && j < |ps| ==>
         !store[t].entries[j].output.Truncated? && (ps[j].Data? && ps[j].value.Prim? ==> KeptWhole(ps[j].value.prim))
  }

  /** Containers and the objects seen correspond one to one. */
  ghost predicate SeenOk(origins: seq<Origin>, seen: Seen) {
    && (origins != [] ==> origins[0].path == [])
    && (forall t :: 0 <= t < |origins| ==> origins[t].source in seen && seen[origins[t].source] == origins[t].path)
    && (forall t, u :: 0 <= t < u < |origins| ==> origins[t].source != origins[u].source)
    && (forall o :: o in seen ==> exists t :: 0 <= t < |origins| && origins[t].source == o)
    && (forall t :: 0 <= t < |origins| ==> |origins[t].path| < 64)
  }

  /** Container `t` is written out in an entry of an earlier container. */
  ghost predicate NestedOk(store: seq<Target>, origins: seq<Origin>, t: nat)
    requires t < |store| == |origins|
  {
    var from := origins[t];
    && from.parent < t && from.slot < |store[from.parent].entries|
    && store[from.parent].entries[from.slot].output == Nested(t)
    && from.path == origins[from.parent].path + [store[from.parent].entries[from.slot].key]
  }

  function CountEntries(store: seq<Target>): nat {
    if store == [] then 0 else CountEntries(store[..|store| - 1]) + |store[|store| - 1].entries|
  }

  lemma CountUpdate(store: seq<Target>, t: nat, target: Target)
    requires t < |store|
    ensures CountEntries(store[t := target]) == CountEntries(store) - |store[t].entries| + |target.entries|
  {
    var last := |store| - 1;
    if t < last {
      assert store[t := target][..last] == store[..last][t := target];
      CountUpdate(store[..last], t, target);
    } else {
      assert store[t := target][..last] == store[..last];
    }
  }

  lemma CountAppend(store: seq<Target>, target: Target)
    ensures CountEntries(store + [target]) == CountEntries(store) + |target.entries|
  {
    assert (store + [target])[..|store|] == store;
  }

  // ----- the projection loop -----

  datatype Frame = Frame(entries: seq<Property>, target: nat, depth: nat, index: nat, path: Path)

  datatype State = State(store: seq<Target>, seen: Seen, stack: seq<Frame>, valueCount: nat, complete: bool)

  /** Frames are the containers still being filled, outermost first. */
  ghost predicate StackOk(heap: Heap, s: State, origins: seq<Origin>)
    requires |s.store| == |origins|
  {
    && |s.stack| <= MAX_DEPTH
    && (forall i :: 0 <= i < |s.stack| ==>
          var f := s.stack[i];
          && f.target < |s.store| && f.depth == i && |f.path| == i && f.path == origins[f.target].path
          && f.entries == OwnEntries(heap(origins[f.target].source))
          && f.index == |s.store[f.target].entries| <= |f.entries|
          && !s.store[f.target].marked)
    && (forall i, j :: 0 <= i < j < |s.stack| ==> s.stack[i].target < s.stack[j].target)
  }

  predicate OnStack(stack: seq<Frame>, t: nat) {
    exists i :: 0 <= i < |stack| && stack[i].target == t
  }

  ghost predicate Filled(heap: Heap, store: seq<Target>, origins: seq<Origin>, t: nat)
    requires t < |store| == |origins|
  {
    store[t].marked || |store[t].entries| == |OwnEntries(heap(origins[t].source))|
  }

  ghost predicate NestingOk(store: seq<Target>, origins: seq<Origin>)
    requires |store| == |origins|
  {
    forall t :: 0 < t < |origins| ==> NestedOk(store, origins, t)
  }

  ghost predicate TargetsOk(heap: Heap, store: seq<Target>, origins: seq<Origin>, seen: Seen)
    requires |store| == |origins|
  {
    forall t :: 0 <= t < |store| ==> TargetOk(heap, store, origins, seen, t)
  }

  ghost predicate AllFilled(heap: Heap, s: State, origins: seq<Origin>)
    requires |s.store| == |origins|
  {
    forall t :: 0 <= t < |s.store| && !OnStack(s.stack, t) ==> Filled(heap, s.store, origins, t)
  }

  ghost predicate AllWhole(heap: Heap, store: seq<Target>, origins: seq<Origin>)
    requires |store| == |origins|
  {
    forall t :: 0 <= t < |store| ==> TargetWhole(heap, store, origins, t)
  }

  /** Containers are cut off only when the values are used up, and while they have some left. */
  ghost predicate MarkedOk(heap: Heap, store: seq<Target>, origins: seq<Origin>, valueCount: nat)
    requires |store| == |origins|
  {
    forall t :: 0 <= t < |store| && store[t].marked ==>
      valueCount == 250_000 && |store[t].entries| < |OwnEntries(heap(origins[t].source))|
  }

  ghost predicate Inv(heap: Heap, s: State, origins: seq<Origin>) {
    && |s.store| == |origins| > 0
    && SeenOk(origins, s.seen)
    && NestingOk(s.store, origins)
    && TargetsOk(heap, s.store, origins, s.seen)
    && StackOk(heap, s, origins)
    && AllFilled(heap, s, origins)
    && MarkedOk(heap, s.store, origins, s.valueCount)
    && s.valueCount == 1 + CountEntries(s.store) <= MAX_VALUES
    && (s.complete <==> AllWhole(heap, s.store, origins))
  }

  function Top(s: State): Frame
    requires s.stack != []
  {
    s.stack[|s.stack| - 1]
  }

  function Pop(s: State): State
    requires s.stack != []
  {
    s.(stack := s.stack[..|s.stack| - 1])
  }

  /** The top frame's next property is written as `out`. */
  function Emit(s: State, out: Output, whole: bool): State
    requires s.stack != [] && Top(s).index < |Top(s).entries| && Top(s).target < |s.store|
  {
    var f := Top(s);
    var target := s.store[f.target];
    State(s.store[f.target := target.(entries := target.entries + [Entry(f.entries[f.index].key, out)])],
          s.seen, s.stack[|s.stack| - 1 := f.(index := f.index + 1)], s.valueCount + 1, s.complete && whole)
  }

  lemma PopStep(heap: Heap, s: State, origins: seq<Origin>)
    requires Inv(heap, s, origins) && s.stack != [] && Top(s).index >= |Top(s).entries|
    ensures Inv(heap, Pop(s), origins)
  {
    PopKeepsStack(heap, s, origins);
    PopKeepsFilled(heap, s, origins);
  }

  lemma PopKeepsStack(heap: Heap, s: State, origins: seq<Origin>)
    requires |s.store| == |origins| && StackOk(heap, s, origins) && s.stack != []
    ensures StackOk(heap, Pop(s), origins)
  {
  }

  lemma PopKeepsFilled(heap: Heap, s: State, origins: seq<Origin>)
    requires |s.store| == |origins| && AllFilled(heap, s, origins)
    requires s.stack != [] && Top(s).target < |s.store| && Filled(heap, s.store, origins, Top(s).target)
    ensures AllFilled(heap, Pop(s), origins)
  {
    forall t | 0 <= t < |s.store| && !OnStack(Pop(s).stack, t) ensures Filled(heap, s.store, origins, t) {
      if t != Top(s).target {
        assert !OnStack(s.stack, t);
      }
    }
  }

  // A step rewrites one container, keeping the entries it already has.

  ghost predicate Rewrites(store: seq<Target>, store': seq<Target>, top: nat) {
    && |store'| == |store| && top < |store|
    && (forall t :: 0 <= t < |store| && t != top ==> store'[t] == store[t])
    && store'[top].shape == store[top].shape && store[top].entries <= store'[top].entries
  }

  lemma RewriteKeepsNesting(store: seq<Target>, store': seq<Target>, top: nat, origins: seq<Origin>)
    requires |store| == |origins| && Rewrites(store, store', top) && NestingOk(store, origins)
    ensures NestingOk(store', origins)
  {
    forall t | 0 < t < |origins| ensures NestedOk(store', origins, t) {
      assert NestedOk(store, origins, t);
    }
  }

  /** What was cut off stays cut off. */
  lemma WholeAfterIsWholeBefore(
      heap: Heap, store: seq<Target>, store': seq<Target>, origins: seq<Origin>, origins': seq<Origin>)
    requires |store| == |origins| <= |origins'| == |store'| && origins <= origins'
    requires forall t :: 0 <= t < |store| ==>
               store[t].entries <= store'[t].entries && (store[t].marked ==> store'[t].marked)
    requires AllWhole(heap, store', origins')
    ensures AllWhole(heap, store, origins)
  {
    forall t | 0 <= t < |store| ensures TargetWhole(heap, store, origins, t) {
      assert TargetWhole(heap, store', origins', t);
    }
  }

  /** Out of values: the container is marked as cut off and left. */
  function Mark(s: State): State
    requires s.stack != [] && Top(s).target < |s.store|
  {
    var top := Top(s).target;
    Pop(s).(store := s.store[top := s.store[top].(marked := true)], complete := false)
  }

  lemma MarkStep(heap: Heap, s: State, origins: seq<Origin>)
    requires Inv(heap, s, origins) && s.stack != [] && Top(s).index < |Top(s).entries| && s.valueCount >= MAX_VALUES
    ensures Inv(heap, Mark(s), origins)
  {
    var top, s' := Top(s).target, Mark(s);
    CountUpdate(s.store, top, s'.store[top]);
    RewriteKeepsNesting(s.store, s'.store, top, origins);
    forall t | 0 <= t < |s.store| ensures TargetOk(heap, s'.store, origins, s.seen, t) {
      assert TargetOk(heap, s.store, origins, s.seen, t);
    }
    MarkKeepsStack(heap, s, origins);
    MarkKeepsFilled(heap, s, origins);
    assert !TargetWhole(heap, s'.store, origins, top);
  }

  lemma MarkKeepsStack(heap: Heap, s: State, origins: seq<Origin>)
    requires |s.store| == |origins| && StackOk(heap, s, origins) && s.stack != []
    ensures StackOk(heap, Mark(s), origins)
  {
  }

  lemma MarkKeepsFilled(heap: Heap, s: State, origins: seq<Origin>)
    requires |s.store| == |origins| && StackOk(heap, s, origins) && AllFilled(heap, s, origins) && s.stack != []
    ensures AllFilled(heap, Mark(s), origins)
  {
    forall t | 0 <= t < |s.store| && !OnStack(Mark(s).stack, t) ensures Filled(heap, Mark(s).store, origins, t) {
      if t != Top(s).target {
        assert !OnStack(s.stack, t);
      }
    }
  }

  // ----- writing one entry -----

  lemma EmitStep(heap: Heap, s: State, origins: seq<Origin>, out: Output, whole: bool)
    requires Inv(heap, s, origins) && s.stack != [] && s.valueCount < MAX_VALUES && Top(s).index < |Top(s).entries|
    requires var p := Top(s).entries[Top(s).index];
             && EntryOk(origins, s.seen, Top(s).target, Top(s).index, p, Entry(p.key, out))
             && (whole <==> !out.Truncated? && (p.Data? && p.value.Prim? ==> KeptWhole(p.value.prim)))
    ensures Inv(heap, Emit(s, out, whole), origins)
  {
    var top, s' := Top(s).target, Emit(s, out, whole);
    CountUpdate(s.store, top, s'.store[top]);
    RewriteKeepsNesting(s.store, s'.store, top, origins);
    EmitKeepsTargets(heap, s, origins, out, whole);
    EmitKeepsStack(heap, s, origins, out, whole);
    EmitKeepsFilled(heap, s, origins, out, whole);
    if s'.complete { EmitKeepsWhole(heap, s, origins, out, whole); }
    if AllWhole(heap, s'.store, origins) {
      WholeAfterIsWholeBefore(heap, s.store, s'.store, origins, origins);
      WholeEntry(heap, s, origins, out, whole);
    }
  }

  lemma EmitKeepsTargets(heap: Heap, s: State, origins: seq<Origin>, out: Output, whole: bool)
    requires |s.store| == |origins| && TargetsOk(heap, s.store, origins, s.seen) && StackOk(heap, s, origins)
    requires s.stack != [] && Top(s).index < |Top(s).entries|
    requires var p := Top(s).entries[Top(s).index];
             EntryOk(origins, s.seen, Top(s).target, Top(s).index, p, Entry(p.key, out))
    ensures TargetsOk(heap, Emit(s, out, whole).store, origins, s.seen)
  {
    var s' := Emit(s, out, whole);
    forall t | 0 <= t < |s.store| ensures TargetOk(heap, s'.store, origins, s.seen, t) {
      assert TargetOk(heap, s.store, origins, s.seen, t);
    }
  }

  lemma EmitKeepsStack(heap: Heap, s: State, origins: seq<Origin>, out: Output, whole: bool)
    requires |s.store| == |origins| && StackOk(heap, s, origins)
    requires s.stack != [] && Top(s).index < |Top(s).entries|
    ensures StackOk(heap, Emit(s, out, whole), origins)
  {
  }

  lemma EmitKeepsFilled(heap: Heap, s: State, origins: seq<Origin>, out: Output, whole: bool)
    requires |s.store| == |origins| && StackOk(heap, s, origins) && AllFilled(heap, s, origins)
    requires s.stack != [] && Top(s).index < |Top(s).entries|
    ensures AllFilled(heap, Emit(s, out, whole), origins)
  {
    var s' := Emit(s, out, whole);
    forall t | 0 <= t < |s.store| && !OnStack(s'.stack, t) ensures Filled(heap, s'.store, origins, t) {
      assert s'.stack[|s.stack| - 1].target == Top(s).target;
      forall i | 0 <= i < |s.stack| ensures s.stack[i].target != t {
        assert s'.stack[i].target == s.stack[i].target;
      }
      assert !OnStack(s.stack, t);
    }
  }

  lemma EmitKeepsWhole(heap: Heap, s: State, origins: seq<Origin>, out: Output, whole: bool)
    requires |s.store| == |origins| && AllWhole(heap, s.store, origins) && StackOk(heap, s, origins)
    requires s.stack != [] && Top(s).index < |Top(s).entries|
    requires var p := Top(s).entries[Top(s).index];
             !out.Truncated? && (p.Data? && p.value.Prim? ==> KeptWhole(p.value.prim))
    ensures AllWhole(heap, Emit(s, out, whole).store, origins)
  {
    var s' := Emit(s, out, whole);
    forall t | 0 <= t < |s.store| ensures TargetWhole(heap, s'.store, origins, t) {
      assert TargetWhole(heap, s.store, origins, t);
    }
  }

  lemma WholeEntry(heap: Heap, s: State, origins: seq<Origin>, out: Output, whole: bool)
    requires |s.store| == |origins| && StackOk(heap, s, origins)
    requires s.stack != [] && Top(s).index < |Top(s).entries|
    requires AllWhole(heap, Emit(s, out, whole).store, origins)
    ensures var p := Top(s).entries[Top(s).index];
            !out.Truncated? && (p.Data? && p.value.Prim? ==> KeptWhole(p.value.prim))
  {
    assert TargetWhole(heap, Emit(s, out, whole).store, origins, Top(s).target);
  }

  // ----- opening a container -----

  /** An empty container for a new object. */
  function Extend(s: State, id: ObjectId, at: Path, shape: Shape, whole: bool): State {
    s.(store := s.store + [Target(shape, [], false)], seen := s.seen[id := at], complete := s.complete && whole)
  }

  function Push(s: State, f: Frame): State {
    s.(stack := s.stack + [f])
  }

  lemma ExtendKeepsSeen(origins: seq<Origin>, seen: Seen, from: Origin)
    requires origins != [] && SeenOk(origins, seen) && from.source !in seen && |from.path| < MAX_DEPTH
    ensures SeenOk(origins + [from], seen[from.source := from.path])
  {
    var origins' := origins + [from];
    forall o: ObjectId | o == from.source || o in seen ensures exists t :: 0 <= t < |origins'| && origins'[t].source == o {
      if o == from.source {
        assert origins'[|origins|].source == o;
      } else {
        var t :| 0 <= t < |origins| && origins[t].source == o;
        assert origins'[t].source == o;
      }
    }
  }

  lemma ExtendKeepsTarget(heap: Heap, s: State, origins: seq<Origin>, from: Origin, shape: Shape, t: nat)
    requires |s.store| == |origins| && t < |origins| && from.source !in s.seen
    requires TargetOk(heap, s.store, origins, s.seen, t)
    ensures TargetOk(heap, s.store + [Target(shape, [], false)], origins + [from], s.seen[from.source := from.path], t)
  {
    var ps := OwnEntries(heap(origins[t].source));
    forall j | 0 <= j < |s.store[t].entries|
      ensures EntryOk(origins + [from], s.seen[from.source := from.path], t, j, ps[j], s.store[t].entries[j])
    {
      assert EntryOk(origins, s.seen, t, j, ps[j], s.store[t].entries[j]);
    }
  }

  lemma ExtendKeepsWhole(heap: Heap, s: State, origins: seq<Origin>, from: Origin, shape: Shape)
    requires |s.store| == |origins| && AllWhole(heap, s.store, origins) && InspectsWholly(heap(from.source))
    ensures AllWhole(heap, s.store + [Target(shape, [], false)], origins + [from])
  {
    var store' := s.store + [Target(shape, [], false)];
    forall t | 0 <= t < |store'| ensures TargetWhole(heap, store', origins + [from], t) {
      if t < |s.store| { assert TargetWhole(heap, s.store, origins, t); }
    }
  }

  /** The top frame's next property is a new object: its container opens inside this one. */
  function Open(s: State, o: Inspection, id: ObjectId): State
    requires s.stack != [] && Top(s).index < |Top(s).entries| && Top(s).target < |s.store|
  {
    var f := Top(s);
    var at := f.path + [f.entries[f.index].key];
    Push(Emit(Extend(s, id, at, ShapeOf(o, at), InspectsWholly(o)), Nested(|s.store|), true),
         Frame(OwnEntries(o), |s.store|, f.depth + 1, 0, at))
  }

  /** Where the new container will have come from. */
  function NewOrigin(s: State, id: ObjectId): Origin
    requires s.stack != [] && Top(s).index < |Top(s).entries|
  {
    var f := Top(s);
    Origin(id, f.path + [f.entries[f.index].key], f.target, f.index)
  }

  lemma OpenStep(heap: Heap, s: State, origins: seq<Origin>, id: ObjectId)
    requires Inv(heap, s, origins) && s.stack != [] && s.valueCount < MAX_VALUES && Top(s).index < |Top(s).entries|
    requires var p := Top(s).entries[Top(s).index]; p.Data? && p.value == Obj(id)
    requires id !in s.seen && Top(s).depth + 1 < MAX_DEPTH
    ensures Inv(heap, Open(s, heap(id), id), origins + [NewOrigin(s, id)])
  {
    OpenKeepsShape(heap, s, origins, id, Open(s, heap(id), id));
    OpenKeepsCount(heap, s, origins, id, Open(s, heap(id), id));
    OpenIsWholeIff(heap, s, origins, id);
  }

  lemma OpenKeepsShape(heap: Heap, s: State, origins: seq<Origin>, id: ObjectId, after: State)
    requires Inv(heap, s, origins) && s.stack != [] && Top(s).index < |Top(s).entries| && after == Open(s, heap(id), id)
    requires var p := Top(s).entries[Top(s).index]; p.Data? && p.value == Obj(id)
    requires id !in s.seen && Top(s).depth + 1 < MAX_DEPTH
    ensures var origins' := origins + [NewOrigin(s, id)];
            && |after.store| == |origins'| && SeenOk(origins', after.seen) && NestingOk(after.store, origins')
            && TargetsOk(heap, after.store, origins', after.seen) && StackOk(heap, after, origins')
            && AllFilled(heap, after, origins')
  {
    ExtendKeepsSeen(origins, s.seen, NewOrigin(s, id));
    OpenKeepsTargets(heap, s, origins, id);
    OpenKeepsStack(heap, s, origins, id);
    OpenKeepsLinks(heap, s, origins, id, after);
  }

  lemma OpenKeepsCount(heap: Heap, s: State, origins: seq<Origin>, id: ObjectId, after: State)
    requires |s.store| == |origins| && MarkedOk(heap, s.store, origins, s.valueCount)
    requires s.stack != [] && s.valueCount == 1 + CountEntries(s.store) < MAX_VALUES && Top(s).index < |Top(s).entries|
    requires Top(s).target < |s.store| && after == Open(s, heap(id), id)
    ensures |after.store| == |origins| + 1 && after.valueCount == 1 + CountEntries(after.store) <= MAX_VALUES
    ensures MarkedOk(heap, after.store, origins + [NewOrigin(s, id)], after.valueCount)
  {
    OpenCounts(heap, s, id);
    forall t | 0 <= t < |after.store| ensures !after.store[t].marked {
      if t < |s.store| { assert !s.store[t].marked; }
    }
  }

  lemma OpenKeepsLinks(heap: Heap, s: State, origins: seq<Origin>, id: ObjectId, after: State)
    requires |s.store| == |origins| && NestingOk(s.store, origins) && AllFilled(heap, s, origins) && StackOk(heap, s, origins)
    requires s.stack != [] && Top(s).index < |Top(s).entries| && Top(s).target < |s.store| && after == Open(s, heap(id), id)
    ensures NestingOk(after.store, origins + [NewOrigin(s, id)]) && AllFilled(heap, after, origins + [NewOrigin(s, id)])
  {
    var f := Top(s);
    OpenKeepsNesting(s, origins, NewOrigin(s, id), after.store, f.entries[f.index].key);
    OpenKeepsFilled(heap, s, origins, NewOrigin(s, id), after);
  }

  lemma OpenIsWholeIff(heap: Heap, s: State, origins: seq<Origin>, id: ObjectId)
    requires |s.store| == |origins| && StackOk(heap, s, origins) && (s.complete <==> AllWhole(heap, s.store, origins))
    requires s.stack != [] && Top(s).index < |Top(s).entries|
    requires var p := Top(s).entries[Top(s).index]; p.Data? && p.value == Obj(id)
    ensures Open(s, heap(id), id).complete <==> AllWhole(heap, Open(s, heap(id), id).store, origins + [NewOrigin(s, id)])
  {
    var after, origins' := Open(s, heap(id), id), origins + [NewOrigin(s, id)];
    if after.complete { OpenKeepsWhole(heap, s, origins, id); }
    if AllWhole(heap, after.store, origins') {
      WholeAfterIsWholeBefore(heap, s.store, after.store, origins, origins');
      assert TargetWhole(heap, after.store, origins', |s.store|);
    }
  }

  lemma OpenKeepsTargets(heap: Heap, s: State, origins: seq<Origin>, id: ObjectId)
    requires |s.store| == |origins| && TargetsOk(heap, s.store, origins, s.seen) && StackOk(heap, s, origins)
    requires s.stack != [] && Top(s).index < |Top(s).entries| && id !in s.seen
    requires var p := Top(s).entries[Top(s).index]; p.Data? && p.value == Obj(id)
    ensures TargetsOk(heap, Open(s, heap(id), id).store, origins + [NewOrigin(s, id)], Open(s, heap(id), id).seen)
  {
    var from := NewOrigin(s, id);
    var origins', shape := origins + [from], ShapeOf(heap(id), from.path);
    var extended := Extend(s, id, from.path, shape, InspectsWholly(heap(id)));
    forall t | 0 <= t < |origins'| ensures TargetOk(heap, extended.store, origins', extended.seen, t) {
      if t < |s.store| { ExtendKeepsTarget(heap, s, origins, from, shape, t); }
    }
    ExtendKeepsStack(heap, s, origins, from, extended);
    EmitKeepsTargets(heap, extended, origins', Nested(|s.store|), true);
  }

  lemma OpenKeepsStack(heap: Heap, s: State, origins: seq<Origin>, id: ObjectId)
    requires |s.store| == |origins| && StackOk(heap, s, origins)
    requires s.stack != [] && Top(s).index < |Top(s).entries| && Top(s).depth + 1 < MAX_DEPTH
    ensures StackOk(heap, Open(s, heap(id), id), origins + [NewOrigin(s, id)])
  {
    var from := NewOrigin(s, id);
    var extended := Extend(s, id, from.path, ShapeOf(heap(id), from.path), InspectsWholly(heap(id)));
    ExtendKeepsStack(heap, s, origins, from, extended);
    EmitKeepsStack(heap, extended, origins + [from], Nested(|s.store|), true);
    PushKeepsStack(heap, Emit(extended, Nested(|s.store|), true), origins + [from],
                   Frame(OwnEntries(heap(id)), |s.store|, Top(s).depth + 1, 0, from.path));
  }

  lemma OpenKeepsWhole(heap: Heap, s: State, origins: seq<Origin>, id: ObjectId)
    requires |s.store| == |origins| && StackOk(heap, s, origins) && AllWhole(heap, s.store, origins)
    requires s.stack != [] && Top(s).index < |Top(s).entries| && InspectsWholly(heap(id))
    requires var p := Top(s).entries[Top(s).index]; p.Data? && p.value == Obj(id)
    ensures AllWhole(heap, Open(s, heap(id), id).store, origins + [NewOrigin(s, id)])
  {
    var from := NewOrigin(s, id);
    var extended := Extend(s, id, from.path, ShapeOf(heap(id), from.path), true);
    ExtendKeepsWhole(heap, s, origins, from, ShapeOf(heap(id), from.path));
    ExtendKeepsStack(heap, s, origins, from, extended);
    EmitKeepsWhole(heap, extended, origins + [from], Nested(|s.store|), true);
  }

  lemma OpenCounts(heap: Heap, s: State, id: ObjectId)
    requires s.stack != [] && Top(s).index < |Top(s).entries| && Top(s).target < |s.store|
    ensures CountEntries(Open(s, heap(id), id).store) == CountEntries(s.store) + 1
  {
    var from, f := NewOrigin(s, id), Top(s);
    var shape := ShapeOf(heap(id), from.path);
    var extended := s.store + [Target(shape, [], false)];
    CountAppend(s.store, Target(shape, [], false));
    CountUpdate(extended, f.target, Open(s, heap(id), id).store[f.target]);
  }

  lemma ExtendKeepsStack(heap: Heap, s: State, origins: seq<Origin>, from: Origin, extended: State)
    requires |s.store| == |origins| && StackOk(heap, s, origins)
    requires extended.stack == s.stack && |extended.store| == |s.store| + 1 && s.store <= extended.store
    ensures StackOk(heap, extended, origins + [from])
  {
  }

  lemma PushKeepsStack(heap: Heap, s: State, origins: seq<Origin>, f: Frame)
    requires |s.store| == |origins| > 0 && StackOk(heap, s, origins) && |s.stack| < MAX_DEPTH
    requires f.target == |s.store| - 1 && f.depth == |f.path| == |s.stack| && f.path == origins[f.target].path
    requires f.entries == OwnEntries(heap(origins[f.target].source))
    requires f.index == 0 && s.store[f.target].entries == [] && !s.store[f.target].marked
    requires forall i :: 0 <= i < |s.stack| ==> s.stack[i].target < f.target
    ensures StackOk(heap, Push(s, f), origins)
  {
  }

  lemma OpenKeepsNesting(s: State, origins: seq<Origin>, from: Origin, store': seq<Target>, key: Key)
    requires |s.store| == |origins| && NestingOk(s.store, origins) && from.parent < |origins|
    requires |store'| == |origins| + 1
    requires forall t :: 0 <= t < |origins| && t != from.parent ==> store'[t] == s.store[t]
    requires store'[from.parent].entries == s.store[from.parent].entries + [Entry(key, Nested(|origins|))]
    requires from.slot == |s.store[from.parent].entries| && from.path == origins[from.parent].path + [key]
    ensures NestingOk(store', origins + [from])
  {
    forall t | 0 < t < |origins| + 1 ensures NestedOk(store', origins + [from], t) {
      if t < |origins| { assert NestedOk(s.store, origins, t); }
    }
  }

  lemma OpenKeepsFilled(heap: Heap, s: State, origins: seq<Origin>, from: Origin, after: State)
    requires |s.store| == |origins| && AllFilled(heap, s, origins) && s.stack != []
    requires |after.store| == |origins| + 1 && |after.stack| == |s.stack| + 1
    requires forall t :: 0 <= t < |origins| && t != Top(s).target ==> after.store[t] == s.store[t]
    requires forall i :: 0 <= i < |s.stack| ==> after.stack[i].target == s.stack[i].target
    requires after.stack[|s.stack|].target == |origins|
    ensures AllFilled(heap, after, origins + [from])
  {
    forall t | 0 <= t < |after.store| && !OnStack(after.stack, t)
      ensures Filled(heap, after.store, origins + [from], t)
    {
      forall i | 0 <= i < |s.stack| ensures s.stack[i].target != t {
        assert after.stack[i].target == s.stack[i].target;
      }
      assert !OnStack(s.stack, t);
    }
  }

  // ----- one step of the loop -----

  predicate CanStep(s: State) {
    s.stack != [] && s.valueCount < MAX_VALUES && Top(s).index < |Top(s).entries| && Top(s).target < |s.store|
  }

  function Next(s: State): Property
    requires CanStep(s)
  {
    Top(s).entries[Top(s).index]
  }

  /** The next property holds an object that gets a container of its own. */
  predicate Opens(s: State)
    requires CanStep(s)
  {
    Next(s).Data? && Next(s).value.Obj? && Next(s).value.id !in s.seen && Top(s).depth + 1 < MAX_DEPTH
  }

  /** What is written for any other property. */
  function NextOutput(s: State): Output
    requires CanStep(s) && !Opens(s)
  {
    var at := Top(s).path + [Next(s).key];
    match Next(s)
    case Accessor(_) => Truncated(AccessorSkipped, at)
    case Data(_, Prim(v)) => OutLeaf(Encode(v))
    case Data(_, Obj(o)) => if o in s.seen then Ref(s.seen[o]) else Truncated(DepthLimit, at)
  }

  predicate NextIsWhole(s: State)
    requires CanStep(s) && !Opens(s)
  {
    !NextOutput(s).Truncated? && (Next(s).Data? && Next(s).value.Prim? ==> KeptWhole(Next(s).value.prim))
  }

  function Step(heap: Heap, s: State): State
    requires CanStep(s)
  {
    if Opens(s) then Open(s, heap(Next(s).value.id), Next(s).value.id) else Emit(s, NextOutput(s), NextIsWhole(s))
  }

  lemma NextOutputOk(heap: Heap, s: State, origins: seq<Origin>)
    requires |s.store| == |origins| && SeenOk(origins, s.seen) && StackOk(heap, s, origins) && CanStep(s) && !Opens(s)
    ensures EntryOk(origins, s.seen, Top(s).target, Top(s).index, Next(s), Entry(Next(s).key, NextOutput(s)))
  {
    assert Top(s).path == origins[Top(s).target].path;
  }

  lemma StepKeepsInv(heap: Heap, s: State, origins: seq<Origin>)
    requires Inv(heap, s, origins) && CanStep(s)
    ensures Inv(heap, Step(heap, s), if Opens(s) then origins + [NewOrigin(s, Next(s).value.id)] else origins)
  {
    if Opens(s) {
      OpenStep(heap, s, origins, Next(s).value.id);
    } else {
      NextOutputOk(heap, s, origins);
      EmitStep(heap, s, origins, NextOutput(s), NextIsWhole(s));
    }
  }

  /** What the entry just written stands for, and where: the next property of the container on top. */
  ghost predicate WroteNext(s: State, s': State, origins': seq<Origin>)
    requires CanStep(s)
  {
    var t, slot := Top(s).target, Top(s).index;
    && t < |s'.store| == |origins'| && slot < |s'.store[t].entries|
    && EntryOk(origins', s'.seen, t, slot, Next(s), s'.store[t].entries[slot])
  }

  lemma StepWrites(heap: Heap, s: State, origins: seq<Origin>, origins': seq<Origin>)
    requires Inv(heap, s, origins) && CanStep(s)
    requires origins' == if Opens(s) then origins + [NewOrigin(s, Next(s).value.id)] else origins
    ensures WroteNext(s, Step(heap, s), origins')
  {
    StepKeepsInv(heap, s, origins);
    var s', t := Step(heap, s), Top(s).target;
    assert s.stack[|s.stack| - 1].index == |s.store[t].entries|;
    assert TargetOk(heap, s'.store, origins', s'.seen, t);
    assert TargetOk(heap, s.store, origins, s.seen, t);
  }

  /** One turn of the loop keeps the invariant and writes exactly one value: the entry that stands for the
      next property. A container is opened iff the property holds an object that has none yet and there
      is room below; then, and only then, the object joins those seen. */
  method ProjectNextEntry(heap: Heap, s: State, ghost origins: seq<Origin>) returns (s': State, ghost origins': seq<Origin>)
    requires Inv(heap, s, origins) && CanStep(s)
    ensures s' == Step(heap, s)
    ensures Inv(heap, s', origins') && origins <= origins' && WroteNext(s, s', origins')
    ensures s'.valueCount == s.valueCount + 1
    ensures |s'.store| == |s.store| + if Opens(s) then 1 else 0
    ensures s'.seen.Keys == s.seen.Keys + if Opens(s) then {Next(s).value.id} else {}
  {
    origins' := StepMeans(heap, s, origins);
    s' := WriteNextEntry(heap, s);
  }

  lemma StepMeans(heap: Heap, s: State, origins: seq<Origin>) returns (origins': seq<Origin>)
    requires Inv(heap, s, origins) && CanStep(s)
    ensures Inv(heap, Step(heap, s), origins') && origins <= origins' && WroteNext(s, Step(heap, s), origins')
    ensures Step(heap, s).valueCount == s.valueCount + 1
    ensures |Step(heap, s).store| == |s.store| + if Opens(s) then 1 else 0
    ensures Step(heap, s).seen.Keys == s.seen.Keys + if Opens(s) then {Next(s).value.id} else {}
  {
    origins' := if Opens(s) then origins + [NewOrigin(s, Next(s).value.id)] else origins;
    StepKeepsInv(heap, s, origins);
    StepWrites(heap, s, origins, origins');
    StepCounts(heap, s);
  }

  lemma StepCounts(heap: Heap, s: State)
    requires CanStep(s)
    ensures Step(heap, s).valueCount == s.valueCount + 1
    ensures |Step(heap, s).store| == |s.store| + if Opens(s) then 1 else 0
    ensures Step(heap, s).seen.Keys == s.seen.Keys + if Opens(s) then {Next(s).value.id} else {}
  {
  }

  method WriteNextEntry(heap: Heap, s: State) returns (s': State)
    requires CanStep(s)
    ensures s' == Step(heap, s)
  {
    var frame := Top(s);
    var entry := frame.entries[frame.index];
    var childPath := frame.path + [entry.key];
    if entry.Accessor? {
      s' := Emit(s, Truncated(AccessorSkipped, childPath), false);
    } else if entry.value.Prim? {
      s' := Emit(s, OutLeaf(Encode(entry.value.prim)), KeptWhole(entry.value.prim));
    } else if entry.value.id in s.seen {
      s' := Emit(s, Ref(s.seen[entry.value.id]), true);
    } else if frame.depth + 1 >= MAX_DEPTH {
      s' := Emit(s, Truncated(DepthLimit, childPath), false);
    } else {
      var entries, shape, whole := DebuggerProjectionFrame(heap(entry.value.id), childPath);
      s' := Push(Emit(Extend(s, entry.value.id, childPath, shape, whole), Nested(|s.store|), true),
                 Frame(entries, |s.store|, frame.depth + 1, 0, childPath));
    }
  }

  // ----- the method -----

  /** Everything a finished projection of the object `root` satisfies; `origins` says which
      object each container came from. */
  ghost predicate ProjectionOk(heap: Heap, root: ObjectId, p: Projected, origins: seq<Origin>, seen: Seen) {
    && p.root == Nested(0) && |p.store| == |origins| > 0 && origins[0].source == root
    && SeenOk(origins, seen) && NestingOk(p.store, origins) && TargetsOk(heap, p.store, origins, seen)
    && (forall t :: 0 <= t < |p.store| ==> Filled(heap, p.store, origins, t))
    && 1 + CountEntries(p.store) <= 250_000 && MarkedOk(heap, p.store, origins, 1 + CountEntries(p.store))
    && (p.complete <==> AllWhole(heap, p.store, origins))
  }

  /** The root's container, before anything is written. */
  function Start(heap: Heap, id: ObjectId): State {
    State([Target(ShapeOf(heap(id), []), [], false)], map[id := []], [Frame(OwnEntries(heap(id)), 0, 0, 0, [])], 1,
          InspectsWholly(heap(id)))
  }

  lemma StartKeepsInv(heap: Heap, id: ObjectId)
    ensures Inv(heap, Start(heap, id), [Origin(id, [], 0, 0)])
  {
    var s, origins := Start(heap, id), [Origin(id, [], 0, 0)];
    assert CountEntries(s.store) == 0;
    assert s.stack[0].target == 0;
    assert TargetWhole(heap, s.store, origins, 0) <==> s.complete;
  }

  lemma EndIsOk(heap: Heap, root: ObjectId, s: State, origins: seq<Origin>)
    requires Inv(heap, s, origins) && s.stack == [] && origins[0].source == root
    ensures ProjectionOk(heap, root, Projected(s.complete, Nested(0), s.store), origins, s.seen)
  {
    assert forall t :: 0 <= t < |s.store| ==> !OnStack(s.stack, t);
  }

  method ProjectValue(heap: Heap, value: Value) returns (p: Projected, ghost origins: seq<Origin>, ghost seen: Seen)
    ensures value.Prim? ==> p == Projected(KeptWhole(value.prim), OutLeaf(Encode(value.prim)), [])
    ensures value.Obj? ==> ProjectionOk(heap, value.id, p, origins, seen)
  {
    if value.Prim? {
      return Projected(KeptWhole(value.prim), OutLeaf(Encode(value.prim)), []), [], map[];
    }
    var rootEntries, rootShape, rootComplete := DebuggerProjectionFrame(heap(value.id), []);
    var s := State([Target(rootShape, [], false)], map[value.id := []], [Frame(rootEntries, 0, 0, 0, [])], 1, rootComplete);
    origins := [Origin(value.id, [], 0, 0)];
    StartKeepsInv(heap, value.id);
    while s.stack != []
      invariant Inv(heap, s, origins)
      invariant origins[0].source == value.id
      decreases MAX_VALUES - s.valueCount, |s.stack|
    {
      if Top(s).index >= |Top(s).entries| {
        PopStep(heap, s, origins);
        s := Pop(s);
      } else if s.valueCount >= MAX_VALUES {
        MarkStep(heap, s, origins);
        s := Mark(s);
      } else {
        s, origins := ProjectNextEntry(heap, s, origins);
      }
    }
    EndIsOk(heap, value.id, s, origins);
    seen := s.seen;
    p := Projected(s.complete, Nested(0), s.store);
  }
}
