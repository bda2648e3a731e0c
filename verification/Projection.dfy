/** The bounded projection of an object graph to JSON, with back references for sharing and
    cycles (debugger-tree-model.js). Objects are identities, paths are sequences of keys. */
module Projection {
  import opened Wrappers

  const MAX_VALUES: nat := 250_000
  const MAX_DEPTH: nat := 64
  const MAX_TEXT: nat := 50_000
  const SUFFIX := "\U{2026}[truncated]"

  // ----- what is projected -----

  type ObjectId = nat

  datatype Key = Index(index: nat) | Name(name: string)

  type Path = seq<Key>

  /** Strings; values that JSON keeps (null, booleans, finite numbers); and values that are
      replaced by a description (bigints, functions, symbols, undefined, non-finite numbers). */
  datatype Primitive = Text(text: string) | Kept(code: int) | Described(description: string)

  datatype Value = Prim(prim: Primitive) | Obj(id: ObjectId)

  datatype Property = Data(key: Key, value: Value) | Accessor(key: Key)

  /** The enumerable own properties of an object, in order. */
  datatype Inspection =
    | Unavailable
    | Record(properties: seq<Property>)
    | Array(properties: seq<Property>, length: Option<nat>)

  type Heap = ObjectId -> Inspection

  /** No object has two properties with one key. */
  ghost predicate HeapValid(heap: Heap) {
    forall o :: !heap(o).Unavailable? ==>
      forall i, j :: 0 <= i < j < |heap(o).properties| ==> heap(o).properties[i].key != heap(o).properties[j].key
  }

  // ----- what comes out -----

  datatype Reason = ValueLimit | DepthLimit | AccessorSkipped | UnavailableProperties

  datatype Leaf = LeafText(text: string) | LeafKept(code: int)

  /** `Nested` is the container of that number, written out in this place. */
  datatype Output = OutLeaf(leaf: Leaf) | Ref(path: Path) | Truncated(reason: Reason, path: Path) | Nested(target: nat)

  datatype Shape = RecordShape | ArrayShape | SparseShape(length: Option<nat>) | UnavailableShape(path: Path)

  datatype Entry = Entry(key: Key, output: Output)

  datatype Target = Target(shape: Shape, entries: seq<Entry>, marked: bool)

  datatype Projected = Projected(complete: bool, root: Output, store: seq<Target>)

  function Encode(p: Primitive): Leaf {
    match p
    case Text(s) => LeafText(if |s| <= MAX_TEXT then s else s[..MAX_TEXT - |SUFFIX|] + SUFFIX)
    case Kept(c) => LeafKept(c)
    case Described(d) => LeafText(d)
  }

  predicate KeptWhole(p: Primitive) {
    p.Text? ==> |p.text| <= MAX_TEXT
  }

  // ----- inspecting one object -----

  function AllProperties(o: Inspection): seq<Property> {
    if o.Unavailable? then [] else o.properties
  }

  /** The properties that are looked at. */
  function OwnEntries(o: Inspection): seq<Property> {
    var all := AllProperties(o);
    if |all| <= MAX_VALUES then all else all[..MAX_VALUES]
  }

  predicate IsDense(properties: seq<Property>, length: Option<nat>) {
    && length == Some(|properties|)
    && forall i :: 0 <= i < |properties| ==> properties[i].Data? && properties[i].key == Index(i)
  }

  function ShapeOf(o: Inspection, path: Path): Shape {
    match o
    case Unavailable => UnavailableShape(path)
    case Record(_) => RecordShape
    case Array(ps, length) => if IsDense(ps, length) then ArrayShape else SparseShape(length)
  }

  predicate InspectsWholly(o: Inspection) {
    && !o.Unavailable?
    && |o.properties| <= MAX_VALUES
    && (forall i :: 0 <= i < |o.properties| ==> o.properties[i].Data?)
    && (o.Array? ==> IsDense(o.properties, o.length))
  }
}
