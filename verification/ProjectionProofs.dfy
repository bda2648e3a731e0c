/** A finished projection is bounded, its references lead where they should, and a complete one
    is the same graph as its source, sharing and cycles included. */
module ProjectionProofs {
  import opened Wrappers
  import opened Projection
  import opened Projector

  // ----- reading the output back -----

  /** The first entry with this key. */
  function EntryAt(entries: seq<Entry>, key: Key): Option<nat> {
    if entries == [] then None
    else
      var earlier := EntryAt(entries[..|entries| - 1], key);
      if earlier.Some? then earlier
      else if entries[|entries| - 1].key == key then Some(|entries| - 1) else None
  }

  /** Where a path leads in the written document, from the root down through nested containers. */
  function Resolve(store: seq<Target>, path: Path): Option<nat> {
    if path == [] then (if store == [] then None else Some(0))
    else
      var outer := Resolve(store, path[..|path| - 1]);
      if outer.None? || outer.value >= |store| then None
      else
        var at := EntryAt(store[outer.value].entries, path[|path| - 1]);
        if at.Some? && at.value < |store[outer.value].entries| && store[outer.value].entries[at.value].output.Nested?
        then Some(store[outer.value].entries[at.value].output.target) else None
  }

  /** The container that an output denotes: itself, or what its reference leads to. */
  function Deref(store: seq<Target>, out: Output): Option<nat> {
    match out
    case Nested(t) => Some(t)
    case Ref(path) => Resolve(store, path)
    case _ => None
  }

  /** Reading along keys, following references. */
  function FollowOutput(store: seq<Target>, root: Output, keys: Path): Option<Output> {
    if keys == [] then Some(root)
    else
      var before := FollowOutput(store, root, keys[..|keys| - 1]);
      if before.None? then None
      else
        var t := Deref(store, before.value);
        if t.None? || t.value >= |store| then None
        else
          var at := EntryAt(store[t.value].entries, keys[|keys| - 1]);
          if at.Some? && at.value < |store[t.value].entries| then Some(store[t.value].entries[at.value].output) else None
  }

  /** Reading along keys in the source. */
  function PropertyAt(properties: seq<Property>, key: Key): Option<nat> {
    if properties == [] then None
    else
      var earlier := PropertyAt(properties[..|properties| - 1], key);
      if earlier.Some? then earlier
      else if properties[|properties| - 1].key == key then Some(|properties| - 1) else None
  }

  function FollowSource(heap: Heap, root: Value, keys: Path): Option<Value> {
    if keys == [] then Some(root)
    else
      var before := FollowSource(heap, root, keys[..|keys| - 1]);
      if before.None? || before.value.Prim? then None
      else
        var ps := AllProperties(heap(before.value.id));
        var at := PropertyAt(ps, keys[|keys| - 1]);
        if at.Some? && at.value < |ps| && ps[at.value].Data? then Some(ps[at.value].value) else None
  }

  lemma {:induction false} EntryAtSpec(entries: seq<Entry>, key: Key)
    ensures var at := EntryAt(entries, key);
            && (at.None? ==> forall j :: 0 <= j < |entries| ==> entries[j].key != key)
            && (at.Some? ==> at.value < |entries| && entries[at.value].key == key
                             && forall j :: 0 <= j < at.value ==> entries[j].key != key)
  {
    if entries != [] {
      EntryAtSpec(entries[..|entries| - 1], key);
    }
  }

  /** Equal key sequences give equal positions. */
  lemma {:induction false} SameKeysSamePosition(properties: seq<Property>, entries: seq<Entry>, key: Key)
    requires |entries| == |properties| && forall j :: 0 <= j < |entries| ==> entries[j].key == properties[j].key
    ensures EntryAt(entries, key) == PropertyAt(properties, key)
    ensures EntryAt(entries, key).Some? ==> EntryAt(entries, key).value < |entries|
  {
    if entries != [] {
      SameKeysSamePosition(properties[..|properties| - 1], entries[..|entries| - 1], key);
    }
  }

  // ----- references -----

  lemma {:induction false} PathResolves(
      heap: Heap, root: ObjectId, p: Projected, origins: seq<Origin>, seen: Seen, t: nat)
    requires HeapValid(heap) && ProjectionOk(heap, root, p, origins, seen) && t < |origins|
    ensures Resolve(p.store, origins[t].path) == Some(t)
  {
    if t > 0 {
      var from := origins[t];
      assert NestedOk(p.store, origins, t);
      PathResolves(heap, root, p, origins, seen, from.parent);
      var outer := p.store[from.parent];
      var key := outer.entries[from.slot].key;
      assert from.path[..|from.path| - 1] == origins[from.parent].path;
      KeysAreDistinct(heap, p.store, origins, seen, from.parent, from.slot);
    }
  }

  lemma KeysAreDistinct(heap: Heap, store: seq<Target>, origins: seq<Origin>, seen: Seen, t: nat, slot: nat)
    requires HeapValid(heap) && t < |store| == |origins| && TargetOk(heap, store, origins, seen, t) && slot < |store[t].entries|
    ensures EntryAt(store[t].entries, store[t].entries[slot].key) == Some(slot)
  {
    var es, ps := store[t].entries, OwnEntries(heap(origins[t].source));
    EntryAtSpec(es, es[slot].key);
    var at := EntryAt(es, es[slot].key).value;
    assert EntryOk(origins, seen, t, at, ps[at], es[at]) && EntryOk(origins, seen, t, slot, ps[slot], es[slot]);
    assert ps[at].key == ps[slot].key;
  }

  /** Every reference that was written leads to the one container of the object it stands for. */
  lemma ReferencesLeadToTheirObject(
      heap: Heap, root: ObjectId, p: Projected, origins: seq<Origin>, seen: Seen, t: nat, j: nat)
    requires HeapValid(heap) && ProjectionOk(heap, root, p, origins, seen)
    requires t < |p.store| && j < |p.store[t].entries| && p.store[t].entries[j].output.Ref?
    ensures j < |OwnEntries(heap(origins[t].source))|
    ensures var property := OwnEntries(heap(origins[t].source))[j];
            && property.Data? && property.value.Obj?
            && var u := Resolve(p.store, p.store[t].entries[j].output.path);
               u.Some? && u.value < |origins| && origins[u.value].source == property.value.id
  {
    assert TargetOk(heap, p.store, origins, seen, t);
    var ps := OwnEntries(heap(origins[t].source));
    assert EntryOk(origins, seen, t, j, ps[j], p.store[t].entries[j]);
    var o := ps[j].value.id;
    var u :| 0 <= u < |origins| && origins[u].source == o;
    PathResolves(heap, root, p, origins, seen, u);
  }

  // ----- faithfulness -----

  /** In a complete projection a container has exactly its object's properties, in order. */
  lemma CompleteContainers(heap: Heap, root: ObjectId, p: Projected, origins: seq<Origin>, seen: Seen, t: nat)
    requires ProjectionOk(heap, root, p, origins, seen) && p.complete && t < |origins|
    ensures var ps, es := AllProperties(heap(origins[t].source)), p.store[t].entries;
            && |es| == |ps| && InspectsWholly(heap(origins[t].source))
            && forall j :: 0 <= j < |ps| ==>
                 && es[j].key == ps[j].key && ps[j].Data? && !es[j].output.Truncated?
                 && EntryOk(origins, seen, t, j, ps[j], es[j])
  {
    assert TargetOk(heap, p.store, origins, seen, t);
    assert TargetWhole(heap, p.store, origins, t);
    assert Filled(heap, p.store, origins, t);
  }

  /** Reading along the same keys finds the same thing in the source and in a complete
      projection: the encoding of the same primitive, the container of the same object, or nothing. */
  lemma {:induction false} CompleteProjectionIsFaithful(
      heap: Heap, root: ObjectId, p: Projected, origins: seq<Origin>, seen: Seen, keys: Path)
    requires HeapValid(heap) && ProjectionOk(heap, root, p, origins, seen) && p.complete
    ensures match FollowSource(heap, Obj(root), keys)
            case None => FollowOutput(p.store, p.root, keys) == None
            case Some(Prim(v)) => FollowOutput(p.store, p.root, keys) == Some(OutLeaf(Encode(v)))
            case Some(Obj(o)) =>
              && FollowOutput(p.store, p.root, keys).Some?
              && var t := Deref(p.store, FollowOutput(p.store, p.root, keys).value);
                 t.Some? && t.value < |origins| && origins[t.value].source == o
    decreases |keys|
  {
    if keys != [] {
      var front, key := keys[..|keys| - 1], keys[|keys| - 1];
      CompleteProjectionIsFaithful(heap, root, p, origins, seen, front);
      var before := FollowSource(heap, Obj(root), front);
      if before.Some? && before.value.Obj? {
        var t := Deref(p.store, FollowOutput(p.store, p.root, front).value).value;
        CompleteContainers(heap, root, p, origins, seen, t);
        var ps, es := AllProperties(heap(origins[t].source)), p.store[t].entries;
        SameKeysSamePosition(ps, es, key);
        var at := PropertyAt(ps, key);
        if at.Some? {
          var j := at.value;
          assert EntryOk(origins, seen, t, j, ps[j], es[j]);
          if ps[j].value.Obj? && es[j].output.Ref? {
            ReferencesLeadToTheirObject(heap, root, p, origins, seen, t, j);
          }
        }
      }
    }
  }

  /** Two key sequences that lead to objects lead to one object in the source iff they lead to
      one container in a complete projection. */
  lemma SharingIsPreserved(
      heap: Heap, root: ObjectId, p: Projected, origins: seq<Origin>, seen: Seen, keys: Path, keys': Path, a: ObjectId, b: ObjectId)
    requires HeapValid(heap) && ProjectionOk(heap, root, p, origins, seen) && p.complete
    requires FollowSource(heap, Obj(root), keys) == Some(Obj(a)) && FollowSource(heap, Obj(root), keys') == Some(Obj(b))
    ensures FollowOutput(p.store, p.root, keys).Some? && FollowOutput(p.store, p.root, keys').Some?
    ensures var t, u := Deref(p.store, FollowOutput(p.store, p.root, keys).value),
                        Deref(p.store, FollowOutput(p.store, p.root, keys').value);
            t == u <==> a == b
  {
    CompleteProjectionIsFaithful(heap, root, p, origins, seen, keys);
    CompleteProjectionIsFaithful(heap, root, p, origins, seen, keys');
  }

  /** The container that a key sequence leads to has its object's kind and keys. */
  lemma ShapesArePreserved(
      heap: Heap, root: ObjectId, p: Projected, origins: seq<Origin>, seen: Seen, keys: Path, o: ObjectId)
    requires HeapValid(heap) && ProjectionOk(heap, root, p, origins, seen) && p.complete
    requires FollowSource(heap, Obj(root), keys) == Some(Obj(o))
    ensures FollowOutput(p.store, p.root, keys).Some?
    ensures var t := Deref(p.store, FollowOutput(p.store, p.root, keys).value);
            && t.Some? && t.value < |p.store|
            && p.store[t.value].shape == (if heap(o).Array? then ArrayShape else RecordShape)
            && |p.store[t.value].entries| == |AllProperties(heap(o))|
            && forall j :: 0 <= j < |AllProperties(heap(o))| ==>
                 p.store[t.value].entries[j].key == AllProperties(heap(o))[j].key
  {
    CompleteProjectionIsFaithful(heap, root, p, origins, seen, keys);
    var t := Deref(p.store, FollowOutput(p.store, p.root, keys).value).value;
    CompleteContainers(heap, root, p, origins, seen, t);
    assert TargetOk(heap, p.store, origins, seen, t);
  }
}
