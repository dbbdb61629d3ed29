/** Nested audit data as it sits on the heap (Go maps and slices, which are references)
    and the values such a heap represents. */
module DataTree {

  /** A map key: text, or a `time.Time` used as a key. */
  datatype MapKey = Text(text: string) | Stamp(instant: int)

  /** A value that is neither a map nor a slice the walker descends into. */
  datatype Scalar =
    | Str(text: string)
    | Time(instant: int)
    | Bytes(content: string)
    | Number(n: int)
    | Marshaler(id: int)
    | Opaque(id: int)

  datatype Value = Leaf(scalar: Scalar) | Ref(c: Container)

  /** `ofAny` tells a `map[string]interface{}` from a map of another type, `ofStrings` a `[]string` from a
      `[]interface{}`. */
  datatype Body =
    | MapBody(ofAny: bool, entries: map<MapKey, Value>)
    | SliceBody(ofStrings: bool, elems: seq<Value>)

  /** A map or slice on the heap. */
  class Container {
    var body: Body

    constructor (body: Body)
      ensures this.body == body
    {
      this.body := body;
    }
  }

  /** What a piece of the heap represents, without object identities. */
  datatype Tree =
    | LeafTree(scalar: Scalar)
    | MapTree(ofAny: bool, kids: map<MapKey, Tree>)
    | SliceTree(ofStrings: bool, items: seq<Tree>)

  /** A tree together with the containers that hold it; `region` bounds the containers at and below one. */
  datatype Shape =
    | LeafShape(scalar: Scalar)
    | MapShape(c: Container, ofAny: bool, kids: map<MapKey, Shape>, region: set<Container>)
    | SliceShape(c: Container, ofStrings: bool, items: seq<Shape>, region: set<Container>)

  function Val(sh: Shape): Value {
    if sh.LeafShape? then Leaf(sh.scalar) else Ref(sh.c)
  }

  ghost function Foot(sh: Shape): set<Container> {
    if sh.LeafShape? then {} else sh.region
  }

  /** No container is reachable along two paths, and regions nest as the containers do. */
  ghost predicate Unshared(sh: Shape) {
    match sh
    case LeafShape(_) => true
    case MapShape(c, _, kids, region) =>
      && c in region
      && (forall k :: k in kids ==> Unshared(kids[k]) && Foot(kids[k]) <= region - {c})
      && (forall j, k :: j in kids && k in kids && j != k ==> Foot(kids[j]) !! Foot(kids[k]))
    case SliceShape(c, _, items, region) =>
      && c in region
      && (forall i :: 0 <= i < |items| ==> Unshared(items[i]) && Foot(items[i]) <= region - {c})
      && (forall i, j :: 0 <= i < j < |items| ==> Foot(items[i]) !! Foot(items[j]))
  }

  /** The heap currently holds exactly this shape. */
  ghost predicate Holds(sh: Shape)
    requires Unshared(sh)
    reads Foot(sh)
    decreases sh
  {
    match sh
    case LeafShape(_) => true
    case MapShape(c, ofAny, kids, _) =>
      && c.body.MapBody? && c.body.ofAny == ofAny && c.body.entries.Keys == kids.Keys
      && (forall k :: k in kids ==> c.body.entries[k] == Val(kids[k]) && Holds(kids[k]))
    case SliceShape(c, ofStrings, items, _) =>
      && c.body.SliceBody? && c.body.ofStrings == ofStrings && |c.body.elems| == |items|
      && (forall i :: 0 <= i < |items| ==> c.body.elems[i] == Val(items[i]) && Holds(items[i]))
  }

  ghost function Abs(sh: Shape): Tree {
    match sh
    case LeafShape(x) => LeafTree(x)
    case MapShape(_, ofAny, kids, _) => MapTree(ofAny, map k | k in kids :: Abs(kids[k]))
    case SliceShape(_, ofStrings, items, _) =>
      SliceTree(ofStrings, seq(|items|, i requires 0 <= i < |items| => Abs(items[i])))
  }
}
