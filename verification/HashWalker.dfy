/** The in-place hashing walk over audit data (audit/hashstructure.go). */
module HashWalker {
  import opened Basics
  import opened DataTree

  datatype Hasher = Hasher(callback: Option<string -> string>, ignored: seq<string>, format: int -> string)

  // ---- The recursive specification ----

  function KeyName(k: MapKey): string {
    match k
    case Text(t) => t
    case Stamp(_) => "<time.Time Value>"
  }

  function HashScalar(h: Hasher, key: Option<string>, x: Scalar): Scalar {
    match x
    case Str(s) =>
      if h.callback.None? || (key.Some? && key.value in h.ignored) then x else Str(h.callback.value(s))
    case Time(t) => Str(h.format(t))
    case _ => x
  }

  /** `key` is the nearest enclosing map key, looking through slices. */
  function HashTree(h: Hasher, key: Option<string>, t: Tree): Tree
    decreases t
  {
    match t
    case LeafTree(x) => LeafTree(HashScalar(h, key, x))
    case MapTree(b, kids) => MapTree(b, map k | k in kids :: HashTree(h, Some(KeyName(k)), kids[k]))
    case SliceTree(b, items) =>
      SliceTree(b, seq(|items|, i requires 0 <= i < |items| => HashTree(h, key, items[i])))
  }

  datatype Slot = KeySlot(k: MapKey) | IndexSlot(i: nat)

  /** The subtree reached by following slots from the root, if there is one. */
  function At(t: Tree, path: seq<Slot>): Option<Tree>
    decreases |path|
  {
    if path == [] then Some(t)
    else match (t, path[0])
      case (MapTree(_, kids), KeySlot(k)) => if k in kids then At(kids[k], path[1..]) else None
      case (SliceTree(_, items), IndexSlot(i)) => if i < |items| then At(items[i], path[1..]) else None
      case _ => None
  }

  /** The last map key on a path, or `key` if there is none. */
  function KeyAlong(key: Option<string>, path: seq<Slot>): Option<string> {
    if path == [] then key
    else if path[|path| - 1].KeySlot? then Some(KeyName(path[|path| - 1].k))
    else KeyAlong(key, path[..|path| - 1])
  }

  lemma {:induction false} KeyAlongFirst(key: Option<string>, path: seq<Slot>)
    requires path != []
    ensures KeyAlong(key, path) == KeyAlong(if path[0].KeySlot? then Some(KeyName(path[0].k)) else key, path[1..])
  {
    if |path| > 1 {
      var n := |path| - 1;
      assert path[1..][n - 1] == path[n] && path[1..][..n - 1] == path[..n][1..];
      if path[n].IndexSlot? { KeyAlongFirst(key, path[..n]); }
    }
  }

  /** Place by place: hashing keeps every path, key and length, and at each place it does exactly what the
      nearest map key on the way there asks for. */
  lemma {:induction false} HashTreeAt(h: Hasher, key: Option<string>, t: Tree, path: seq<Slot>)
    ensures At(HashTree(h, key, t), path) ==
      match At(t, path)
      case None => None
      case Some(u) => Some(HashTree(h, KeyAlong(key, path), u))
    decreases |path|
  {
    if path != [] {
      KeyAlongFirst(key, path);
      match (t, path[0])
      case (MapTree(_, kids), KeySlot(k)) =>
        if k in kids { HashTreeAt(h, Some(KeyName(k)), kids[k], path[1..]); }
      case (SliceTree(_, items), IndexSlot(i)) =>
        if i < |items| { HashTreeAt(h, key, items[i], path[1..]); }
      case _ =>
    }
  }

  /** Slot `i` is the last map key on the path. */
  predicate LastKey(path: seq<Slot>, i: nat) {
    i < |path| && path[i].KeySlot? && forall j :: i < j < |path| ==> path[j].IndexSlot?
  }

  lemma {:induction false} KeyAlongLast(key: Option<string>, path: seq<Slot>, i: nat)
    requires LastKey(path, i)
    ensures path[i].k.Text? ==> KeyAlong(key, path) == Some(path[i].k.text)
    ensures path[i].k.Stamp? ==> KeyAlong(key, path) == Some("<time.Time Value>")
  {
    if i < |path| - 1 {
      KeyAlongLast(key, path[..|path| - 1], i);
    }
  }

  lemma {:induction false} HasLastKey(path: seq<Slot>) returns (i: nat)
    requires path != [] && path[0].KeySlot?
    ensures LastKey(path, i)
  {
    var n := |path| - 1;
    if path[n].KeySlot? {
      i := n;
    } else {
      i := HasLastKey(path[..n]);
      assert forall j :: i < j < n ==> path[..n][j] == path[j];
    }
  }

  /** What hashing makes of each leaf of a map: a string under the nearest text key, looking through slices, is hashed
      unless that key is exempt, a time becomes its formatted text, and nothing else changes. */
  lemma HashedLeaf(h: Hasher, t: Tree, path: seq<Slot>) returns (i: nat)
    requires t.MapTree? && At(t, path).Some? && At(t, path).value.LeafTree?
    ensures LastKey(path, i)
    ensures var x := At(t, path).value.scalar;
      At(HashTree(h, None, t), path) == Some(LeafTree(
        match x
        case Str(s) =>
          var name := match path[i].k { case Text(text) => text case Stamp(_) => "<time.Time Value>" };
          if h.callback.None? || name in h.ignored then Str(s) else Str(h.callback.value(s))
        case Time(instant) => Str(h.format(instant))
        case _ => x))
  {
    i := HasLastKey(path);
    HashTreeAt(h, None, t, path);
    KeyAlongLast(None, path, i);
  }

  /** Hashing keeps the kind of every container, the keys of every map and the length of every slice. */
  lemma HashedContainer(h: Hasher, t: Tree, path: seq<Slot>)
    ensures At(HashTree(h, None, t), path).Some? <==> At(t, path).Some?
    ensures var a, b := At(t, path), At(HashTree(h, None, t), path);
      && (a.Some? && a.value.MapTree? ==> b.value.MapTree? && b.value.ofAny == a.value.ofAny && b.value.kids.Keys == a.value.kids.Keys)
      && (a.Some? && a.value.SliceTree? ==>
           b.value.SliceTree? && b.value.ofStrings == a.value.ofStrings && |b.value.items| == |a.value.items|)
  {
    HashTreeAt(h, None, t, path);
  }

  /** Nothing below is changed by hashing: no time, and each string is exempt or its own hash. */
  ghost predicate Settled(h: Hasher, key: Option<string>, t: Tree)
    decreases t
  {
    match t
    case LeafTree(x) =>
      && !x.Time?
      && (x.Str? && h.callback.Some? && !(key.Some? && key.value in h.ignored) ==> h.callback.value(x.text) == x.text)
    case MapTree(_, kids) => forall k :: k in kids ==> Settled(h, Some(KeyName(k)), kids[k])
    case SliceTree(_, items) => forall i :: 0 <= i < |items| ==> Settled(h, key, items[i])
  }

  lemma {:induction false} HashTreeFixed(h: Hasher, key: Option<string>, t: Tree)
    ensures HashTree(h, key, t) == t <==> Settled(h, key, t)
    decreases t
  {
    match t
    case LeafTree(_) =>
    case MapTree(_, kids) =>
      var r := HashTree(h, key, t).kids;
      forall k | k in kids ensures r[k] == kids[k] <==> Settled(h, Some(KeyName(k)), kids[k]) {
        HashTreeFixed(h, Some(KeyName(k)), kids[k]);
      }
      assert r == kids <==> forall k :: k in kids ==> r[k] == kids[k];
    case SliceTree(_, items) =>
      var r := HashTree(h, key, t).items;
      forall i | 0 <= i < |items| ensures r[i] == items[i] <==> Settled(h, key, items[i]) {
        HashTreeFixed(h, key, items[i]);
      }
      assert r == items <==> forall i :: 0 <= i < |items| ==> r[i] == items[i];
  }

  ghost function HashShape(h: Hasher, key: Option<string>, sh: Shape): Shape
    decreases sh
  {
    match sh
    case LeafShape(x) => LeafShape(HashScalar(h, key, x))
    case MapShape(c, b, kids, r) => MapShape(c, b, map k | k in kids :: HashShape(h, Some(KeyName(k)), kids[k]), r)
    case SliceShape(c, b, items, r) =>
      SliceShape(c, b, seq(|items|, i requires 0 <= i < |items| => HashShape(h, key, items[i])), r)
  }

  lemma {:induction false} HashShapeAbs(h: Hasher, key: Option<string>, sh: Shape)
    ensures Abs(HashShape(h, key, sh)) == HashTree(h, key, Abs(sh))
    decreases sh
  {
    match sh
    case LeafShape(_) =>
    case MapShape(_, _, kids, _) =>
      forall k | k in kids ensures Abs(HashShape(h, Some(KeyName(k)), kids[k])) == HashTree(h, Some(KeyName(k)), Abs(kids[k])) {
        HashShapeAbs(h, Some(KeyName(k)), kids[k]);
      }
    case SliceShape(_, _, items, _) =>
      forall i | 0 <= i < |items| ensures Abs(HashShape(h, key, items[i])) == HashTree(h, key, Abs(items[i])) {
        HashShapeAbs(h, key, items[i]);
      }
  }

  lemma {:induction false} HashShapeUnshared(h: Hasher, key: Option<string>, sh: Shape)
    requires Unshared(sh)
    ensures Unshared(HashShape(h, key, sh)) && Foot(HashShape(h, key, sh)) == Foot(sh)
    decreases sh
  {
    match sh
    case LeafShape(_) =>
    case MapShape(_, _, kids, _) =>
      forall k | k in kids
        ensures Unshared(HashShape(h, Some(KeyName(k)), kids[k]))
        ensures Foot(HashShape(h, Some(KeyName(k)), kids[k])) == Foot(kids[k])
      {
        HashShapeUnshared(h, Some(KeyName(k)), kids[k]);
      }
    case SliceShape(_, _, items, _) =>
      forall i | 0 <= i < |items|
        ensures Unshared(HashShape(h, key, items[i])) && Foot(HashShape(h, key, items[i])) == Foot(items[i])
      {
        HashShapeUnshared(h, key, items[i]);
      }
  }

  /** A map whose keys outside `todo` have been hashed. */
  ghost function HashPart(h: Hasher, sh: Shape, todo: set<MapKey>): Shape
    requires sh.MapShape?
  {
    sh.(kids := map k | k in sh.kids :: if k in todo then sh.kids[k] else HashShape(h, Some(KeyName(k)), sh.kids[k]))
  }

  lemma HashPartUnshared(h: Hasher, sh: Shape, todo: set<MapKey>)
    requires sh.MapShape? && Unshared(sh)
    ensures Unshared(HashPart(h, sh, todo))
  {
    forall k | k in sh.kids
      ensures Unshared(HashShape(h, Some(KeyName(k)), sh.kids[k]))
      ensures Foot(HashShape(h, Some(KeyName(k)), sh.kids[k])) == Foot(sh.kids[k])
    {
      HashShapeUnshared(h, Some(KeyName(k)), sh.kids[k]);
    }
  }

  lemma HashPartEnds(h: Hasher, key: Option<string>, sh: Shape)
    requires sh.MapShape?
    ensures HashPart(h, sh, sh.kids.Keys) == sh && HashPart(h, sh, {}) == HashShape(h, key, sh)
  {
  }

  lemma HashPartStep(h: Hasher, sh: Shape, todo: set<MapKey>, k: MapKey)
    requires sh.MapShape? && Unshared(sh) && k in todo && k in sh.kids
    ensures var kid := HashShape(h, Some(KeyName(k)), sh.kids[k]);
      && Unshared(kid) && Foot(kid) == Foot(sh.kids[k])
      && var part := HashPart(h, sh, todo);
         part.(kids := part.kids[k := kid]) == HashPart(h, sh, todo - {k}) && Unshared(HashPart(h, sh, todo - {k}))
  {
    HashShapeUnshared(h, Some(KeyName(k)), sh.kids[k]);
    HashPartUnshared(h, sh, todo - {k});
    assert HashPart(h, sh, todo).kids[k := HashShape(h, Some(KeyName(k)), sh.kids[k])] == HashPart(h, sh, todo - {k}).kids;
  }

  /** A slice whose first `n` elements have been hashed. */
  ghost function HashPrefix(h: Hasher, key: Option<string>, sh: Shape, n: nat): Shape
    requires sh.SliceShape?
  {
    sh.(items := seq(|sh.items|, i requires 0 <= i < |sh.items| =>
      if i < n then HashShape(h, key, sh.items[i]) else sh.items[i]))
  }

  lemma HashPrefixUnshared(h: Hasher, key: Option<string>, sh: Shape, n: nat)
    requires sh.SliceShape? && Unshared(sh)
    ensures Unshared(HashPrefix(h, key, sh, n))
  {
    forall i | 0 <= i < |sh.items|
      ensures Unshared(HashShape(h, key, sh.items[i])) && Foot(HashShape(h, key, sh.items[i])) == Foot(sh.items[i])
    {
      HashShapeUnshared(h, key, sh.items[i]);
    }
  }

  lemma HashPrefixEnds(h: Hasher, key: Option<string>, sh: Shape)
    requires sh.SliceShape?
    ensures HashPrefix(h, key, sh, 0) == sh && HashPrefix(h, key, sh, |sh.items|) == HashShape(h, key, sh)
  {
  }

  lemma HashPrefixShape(h: Hasher, key: Option<string>, sh: Shape, n: nat)
    requires sh.SliceShape?
    ensures var part := HashPrefix(h, key, sh, n);
      && part.SliceShape? && part.c == sh.c && |part.items| == |sh.items| && Foot(part) == Foot(sh)
      && (n < |sh.items| ==> part.items[n] == sh.items[n])
  {
  }

  lemma SliceHolds(sh: Shape)
    requires sh.SliceShape? && Unshared(sh) && Holds(sh)
    ensures sh.c.body.SliceBody? && |sh.c.body.elems| == |sh.items|
  {
  }

  lemma HashPrefixStep(h: Hasher, key: Option<string>, sh: Shape, n: nat)
    requires sh.SliceShape? && Unshared(sh) && n < |sh.items|
    ensures var item := HashShape(h, key, sh.items[n]);
      && Unshared(item) && Foot(item) == Foot(sh.items[n])
      && var part := HashPrefix(h, key, sh, n);
         part.(items := part.items[n := item]) == HashPrefix(h, key, sh, n + 1) && Unshared(HashPrefix(h, key, sh, n + 1))
  {
    HashShapeUnshared(h, key, sh.items[n]);
    HashPrefixUnshared(h, key, sh, n + 1);
    assert HashPrefix(h, key, sh, n).items[n := HashShape(h, key, sh.items[n])] == HashPrefix(h, key, sh, n + 1).items;
  }

  /** No string sits outside every map: the walk can name a key for each string it hashes. */
  ghost predicate EveryStringKeyed(sh: Shape) {
    match sh
    case LeafShape(x) => !x.Str?
    case MapShape(_, _, _, _) => true
    case SliceShape(_, _, items, _) => forall i :: 0 <= i < |items| ==> EveryStringKeyed(items[i])
  }

  // ---- Positions and the stacks that name them ----

  datatype Location = WalkLoc | Map | MapKeyLoc | MapValue | Slice | SliceElem | Struct

  /** The position of a value: the container slots that lead to it. */
  datatype Path =
    | Root
    | InMap(up: Path, m: Container, k: MapKey)
    | InSlice(up: Path, s: Container, i: nat)

  datatype Stacks = Stacks(loc: seq<Location>, cs: seq<Container>, csKey: seq<Slot>, key: seq<string>)

  /** The stacks while the value at `at` is being visited. */
  ghost function StacksAt(at: Path): Stacks {
    match at
    case Root => Stacks([WalkLoc], [], [], [])
    case InMap(up, m, k) =>
      var b := StacksAt(up);
      Stacks(b.loc + [Map, MapValue], b.cs + [m], b.csKey + [KeySlot(k)], b.key + [KeyName(k)])
    case InSlice(up, s, i) =>
      var b := StacksAt(up);
      Stacks(b.loc + [Slice, SliceElem], b.cs + [s], b.csKey + [IndexSlot(i)], b.key)
  }

  /** The stacks while a map key, rather than the value under it, is being visited. */
  ghost function StacksAtKey(at: Path): Stacks
    requires at.InMap?
  {
    StacksAt(at).(loc := StacksAt(at.up).loc + [Map, MapKeyLoc])
  }

  /** The nearest enclosing map key, looking through slices. */
  ghost function NearestKey(at: Path): Option<string> {
    match at
    case Root => None
    case InMap(_, _, k) => Some(KeyName(k))
    case InSlice(up, _, _) => NearestKey(up)
  }

  ghost function MapDepth(at: Path): nat {
    match at
    case Root => 0
    case InMap(up, _, _) => 1 + MapDepth(up)
    case InSlice(up, _, _) => MapDepth(up)
  }

  lemma PairAt(loc: seq<Location>, pair: seq<Location>, n: nat, i: nat)
    requires |loc| == 1 + 2 * n && |pair| == 2 && i <= n
    ensures (loc + pair)[2 * i + 1 .. 2 * i + 3] == if i < n then loc[2 * i + 1 .. 2 * i + 3] else pair
  {
  }

  /** While a value is visited the stacks are aligned: one slot per container, one key per enclosing map,
      and their tops name the slot being visited and its nearest map key. */
  lemma {:induction false} StacksAligned(at: Path)
    ensures var b := StacksAt(at);
      && |b.csKey| == |b.cs| && |b.loc| == 1 + 2 * |b.cs| && |b.key| == MapDepth(at)
      && (forall i :: 0 <= i < |b.cs| ==>
           b.loc[2 * i + 1 .. 2 * i + 3] == if b.csKey[i].KeySlot? then [Map, MapValue] else [Slice, SliceElem])
      && NearestKey(at) == (if b.key == [] then None else Some(b.key[|b.key| - 1]))
  {
    if !at.Root? {
      StacksAligned(at.up);
      var b, b' := StacksAt(at.up), StacksAt(at);
      var pair := if at.InMap? then [Map, MapValue] else [Slice, SliceElem];
      assert b'.loc == b.loc + pair;
      forall i | 0 <= i < |b'.cs|
        ensures b'.loc[2 * i + 1 .. 2 * i + 3] == if b'.csKey[i].KeySlot? then [Map, MapValue] else [Slice, SliceElem]
      {
        PairAt(b.loc, pair, |b.cs|, i);
      }
    }
  }

  /** The container a position is a slot of. */
  ghost function Holder(at: Path): set<Container> {
    match at
    case Root => {}
    case InMap(_, m, _) => {m}
    case InSlice(_, s, _) => {s}
  }

  /** The slot at `at` holds `v`. */
  ghost predicate SlotHolds(at: Path, v: Value)
    reads Holder(at)
  {
    match at
    case Root => true
    case InMap(_, m, k) => m.body.MapBody? && k in m.body.entries && m.body.entries[k] == v
    case InSlice(_, s, i) => s.body.SliceBody? && i < |s.body.elems| && s.body.elems[i] == v
  }

  /** The slot at `at` has been set to `v` and the rest of its container left alone. */
  twostate predicate SlotSet(at: Path, v: Value)
    reads Holder(at)
  {
    match at
    case Root => true
    case InMap(_, m, k) => old(m.body).MapBody? && m.body == old(m.body).(entries := old(m.body.entries)[k := v])
    case InSlice(_, s, i) =>
      && old(s.body).SliceBody? && i < |old(s.body.elems)|
      && s.body == old(s.body).(elems := old(s.body.elems)[i := v])
  }

  /** Whether the walk of a value at `at` runs to its end. */
  ghost predicate Completes(h: Hasher, at: Path, sh: Shape) {
    && (NearestKey(at).None? && h.callback.Some? ==> EveryStringKeyed(sh))
    && (at.Root? ==> !(sh.LeafShape? && sh.scalar.Time?))
  }

  lemma AtRoot(v: Value)
    ensures StacksAt(Root) == Stacks([WalkLoc], [], [], []) && NearestKey(Root) == None
    ensures Holder(Root) == {} && SlotHolds(Root, v)
  {
  }

  lemma FootAllocated(sh: Shape)
    ensures forall o :: o in Foot(sh) ==> allocated(o)
  {
  }

  lemma CompletesSlice(h: Hasher, at: Path, sh: Shape)
    requires sh.SliceShape?
    ensures Completes(h, at, sh) <==> forall j :: 0 <= j < |sh.items| ==> Completes(h, InSlice(at, sh.c, j), sh.items[j])
  {
  }

  // ---- The walker ----

  datatype Outcome = Done | SkipEntry | Failed(error: string) | Panicked

  class Walker {
    const h: Hasher
    var key: seq<string>
    var loc: seq<Location>
    var cs: seq<Container>
    var csKey: seq<Slot>

    constructor (h: Hasher)
      ensures this.h == h && St() == Stacks([], [], [], [])
    {
      this.h := h;
      key, loc, cs, csKey := [], [], [], [];
    }

    ghost function St(): Stacks
      reads this
    {
      Stacks(loc, cs, csKey, key)
    }

    lemma StacksAre()
      ensures St() == Stacks(loc, cs, csKey, key)
    {
    }

    method Enter(l: Location)
      modifies this
      ensures St() == old(St()).(loc := old(loc) + [l])
    {
      loc := loc + [l];
    }

    method Exit(l: Location)
      requires |loc| > 0
      requires l in {Map, Slice} ==> |cs| > 0
      requires l == MapValue ==> |key| > 0
      requires l in {MapValue, SliceElem} ==> |csKey| > 0
      modifies this
      ensures St() == Stacks(
        old(loc)[..|old(loc)| - 1],
        if l in {Map, Slice} then old(cs)[..|old(cs)| - 1] else old(cs),
        if l in {MapValue, SliceElem} then old(csKey)[..|old(csKey)| - 1] else old(csKey),
        if l == MapValue then old(key)[..|old(key)| - 1] else old(key))
    {
      loc := loc[..|loc| - 1];
      match l
      case Map => cs := cs[..|cs| - 1];
      case MapValue =>
        key := key[..|key| - 1];
        csKey := csKey[..|csKey| - 1];
      case Slice => cs := cs[..|cs| - 1];
      case SliceElem => csKey := csKey[..|csKey| - 1];
      case _ =>
    }

    method MapStart(m: Container)
      modifies this
      ensures St() == old(St()).(cs := old(cs) + [m])
    {
      cs := cs + [m];
    }

    method MapElem(k: MapKey)
      modifies this
      ensures St() == old(St()).(csKey := old(csKey) + [KeySlot(k)], key := old(key) + [KeyName(k)])
    {
      csKey := csKey + [KeySlot(k)];
      key := key + [KeyName(k)];
    }

    method SliceStart(s: Container)
      modifies this
      ensures St() == old(St()).(cs := old(cs) + [s])
    {
      cs := cs + [s];
    }

    method SliceElemStart(i: nat)
      modifies this
      ensures St() == old(St()).(csKey := old(csKey) + [IndexSlot(i)])
    {
      csKey := csKey + [IndexSlot(i)];
    }

    /** Overwrites the slot named by the tops of `cs` and `csKey`; `l` is the location of that slot. */
    method SetTop(l: Location, v: Value, ghost at: Path)
      requires cs == StacksAt(at).cs && csKey == StacksAt(at).csKey
      requires (l == MapValue && at.InMap?) || (l == SliceElem && at.InSlice?)
      requires exists u :: SlotHolds(at, u)
      modifies Holder(at)
      ensures SlotSet(at, v)
    {
      StacksAligned(at);
      var c := cs[|cs| - 1];
      if l == MapValue {
        c.body := c.body.(entries := c.body.entries[csKey[|cs| - 1].k := v]);
      } else {
        c.body := c.body.(elems := c.body.elems[csKey[|cs| - 1].i := v]);
      }
    }

    /** Called on a time.Time, after Enter(Struct). */
    method StructTime(t: int, ghost at: Path, ghost inKey: bool) returns (o: Outcome)
      requires inKey ==> at.InMap?
      requires var b := if inKey then StacksAtKey(at) else StacksAt(at); St() == b.(loc := b.loc + [Struct])
      requires !inKey ==> SlotHolds(at, Leaf(Time(t)))
      modifies if inKey then {} else Holder(at)
      ensures o == if at.Root? then Failed("structs as direct inputs not supported") else SkipEntry
      ensures !at.Root? && !inKey ==> SlotSet(at, Leaf(Str(h.format(t))))
    {
      StacksAligned(at);
      if |loc| < 3 {
        return Failed("structs as direct inputs not supported");
      }
      if loc[|loc| - 2] in {MapValue, SliceElem} {
        SetTop(loc[|loc| - 2], Leaf(Str(h.format(t))), at);
      }
      return SkipEntry;
    }

    /** Called on every other scalar, map keys included. */
    method Primitive(x: Scalar, ghost at: Path, ghost inKey: bool) returns (o: Outcome)
      requires inKey ==> at.InMap?
      requires St() == if inKey then StacksAtKey(at) else StacksAt(at)
      requires !inKey ==> !x.Time? && SlotHolds(at, Leaf(x))
      modifies if inKey then {} else Holder(at)
      ensures o == if !inKey && x.Str? && h.callback.Some? && NearestKey(at).None? then Panicked else Done
      ensures !inKey && o.Done? ==> SlotSet(at, Leaf(HashScalar(h, NearestKey(at), x)))
    {
      StacksAligned(at);
      if h.callback.None? {
        return Done;
      }
      if loc[|loc| - 1] == MapKeyLoc {
        return Done;
      }
      if !x.Str? {
        return Done;
      }
      if |key| == 0 {
        // The index len(w.key)-1 is out of range.
        return Panicked;
      }
      if key[|key| - 1] in h.ignored {
        return Done;
      }
      SetTop(loc[|loc| - 1], Leaf(Str(h.callback.value(x.text))), at);
      return Done;
    }

    // ---- The order in which reflectwalk drives the callbacks ----

    method WalkKey(k: MapKey, ghost at: Path)
      requires at.InMap? && St() == StacksAtKey(at)
      modifies this
      ensures St() == old(St())
    {
      match k
      case Text(t) =>
        var o := Primitive(Str(t), at, true);
      case Stamp(t) =>
        Enter(Struct);
        var o := StructTime(t, at, true);
        Exit(Struct);
    }

    method WalkLeaf(x: Scalar, ghost at: Path) returns (o: Outcome)
      requires St() == StacksAt(at) && SlotHolds(at, Leaf(x))
      modifies this, Holder(at)
      ensures o == Done <==> Completes(h, at, LeafShape(x))
      ensures o == Done ==> St() == old(St()) && SlotSet(at, Leaf(HashScalar(h, NearestKey(at), x)))
    {
      if x.Time? {
        Enter(Struct);
        o := StructTime(x.instant, at, false);
        if o != SkipEntry {
          return;
        }
        Exit(Struct);
        o := Done;
      } else {
        o := Primitive(x, at, false);
      }
    }

    method WalkValue(v: Value, ghost at: Path, ghost sh: Shape, ghost sh': Shape) returns (o: Outcome)
      requires St() == StacksAt(at) && SlotHolds(at, v) && Holder(at) !! Foot(sh)
      requires Val(sh) == v && Unshared(sh) && Holds(sh)
      requires sh' == HashShape(h, NearestKey(at), sh) && Unshared(sh') && Foot(sh') == Foot(sh)
      modifies this, Holder(at), Foot(sh)
      ensures o == Done <==> Completes(h, at, sh)
      ensures o == Done ==> St() == old(St()) && SlotSet(at, Val(sh')) && Holds(sh')
      decreases sh, 2
    {
      match v
      case Leaf(x) =>
        o := WalkLeaf(x, at);
      case Ref(c) =>
        if c.body.MapBody? {
          WalkMap(c, at, sh, sh');
          o := Done;
        } else {
          o := WalkSlice(c, at, sh, sh');
        }
    }

    method OpenMapElem(k: MapKey, ghost at: Path)
      requires at.InMap? && at.k == k
      requires var b := StacksAt(at.up); St() == Stacks(b.loc + [Map], b.cs + [at.m], b.csKey, b.key)
      modifies this
      ensures St() == StacksAt(at)
    {
      MapElem(k);
      Enter(MapKeyLoc);
      WalkKey(k, at);
      Exit(MapKeyLoc);
      Enter(MapValue);
    }

    /** One round of the map loop: key `k`, then its value. */
    method WalkMapElem(m: Container, k: MapKey, ghost at: Path, ghost kid: Shape, ghost kid': Shape)
      requires at.InMap? && at.m == m && at.k == k
      requires var b := StacksAt(at.up); St() == Stacks(b.loc + [Map], b.cs + [m], b.csKey, b.key)
      requires SlotHolds(at, Val(kid)) && Unshared(kid) && Holds(kid) && m !in Foot(kid)
      requires kid' == HashShape(h, Some(KeyName(k)), kid) && Unshared(kid') && Foot(kid') == Foot(kid)
      modifies this, m, Foot(kid)
      ensures St() == old(St()) && SlotSet(at, Val(kid')) && Holds(kid')
      decreases kid, 3
    {
      OpenMapElem(k, at);
      var o := WalkValue(m.body.entries[k], at, kid, kid');
      Exit(MapValue);
    }

    /** The same round, seen from the whole map. */
    method WalkMapRound(m: Container, k: MapKey, ghost at: Path, ghost cur: Shape, ghost kid': Shape)
      requires cur.MapShape? && cur.c == m && Unshared(cur) && Holds(cur) && k in cur.kids
      requires var b := StacksAt(at); St() == Stacks(b.loc + [Map], b.cs + [m], b.csKey, b.key)
      requires kid' == HashShape(h, Some(KeyName(k)), cur.kids[k]) && Unshared(kid') && Foot(kid') == Foot(cur.kids[k])
      requires Unshared(cur.(kids := cur.kids[k := kid']))
      modifies this, Foot(cur)
      ensures St() == old(St()) && Holds(cur.(kids := cur.kids[k := kid']))
      decreases cur.kids[k], 4
    {
      WalkMapElem(m, k, InMap(at, m, k), cur.kids[k], kid');
    }

    method WalkMapElems(m: Container, ghost at: Path, ghost sh: Shape)
      requires var b := StacksAt(at); St() == Stacks(b.loc + [Map], b.cs + [m], b.csKey, b.key)
      requires sh.MapShape? && sh.c == m && Unshared(sh) && Holds(sh)
      modifies this, Foot(sh)
      ensures var r := HashShape(h, NearestKey(at), sh); St() == old(St()) && Unshared(r) && Holds(r)
      decreases sh, 0
    {
      var todo := m.body.entries.Keys;
      HashPartEnds(h, NearestKey(at), sh);
      while todo != {}
        invariant todo <= sh.kids.Keys
        invariant St() == old(St())
        invariant Unshared(HashPart(h, sh, todo)) && Holds(HashPart(h, sh, todo))
      {
        var k :| k in todo;
        HashPartStep(h, sh, todo, k);
        WalkMapRound(m, k, at, HashPart(h, sh, todo), HashShape(h, Some(KeyName(k)), sh.kids[k]));
        todo := todo - {k};
      }
    }

    method WalkMap(m: Container, ghost at: Path, ghost sh: Shape, ghost sh': Shape)
      requires St() == StacksAt(at)
      requires sh.MapShape? && sh.c == m && Unshared(sh) && Holds(sh)
      requires sh' == HashShape(h, NearestKey(at), sh)
      modifies this, Foot(sh)
      ensures St() == old(St()) && Unshared(sh') && Holds(sh')
      decreases sh, 1
    {
      hide *;
      StacksAre();
      FootAllocated(sh);
      Enter(Map);
      StacksAre();
      MapStart(m);
      WalkMapElems(m, at, sh);
      StacksAre();
      FootAllocated(sh');
      Exit(Map);
      assert St().loc == StacksAt(at).loc && St().cs == StacksAt(at).cs;
    }

    method OpenSliceElem(i: nat, ghost at: Path)
      requires at.InSlice? && at.i == i
      requires var b := StacksAt(at.up); St() == Stacks(b.loc + [Slice], b.cs + [at.s], b.csKey, b.key)
      modifies this
      ensures St() == StacksAt(at)
    {
      SliceElemStart(i);
      Enter(SliceElem);
    }

    /** One round of the slice loop. */
    method WalkSliceElem(s: Container, i: nat, ghost at: Path, ghost item: Shape, ghost item': Shape) returns (o: Outcome)
      requires at.InSlice? && at.s == s && at.i == i
      requires var b := StacksAt(at.up); St() == Stacks(b.loc + [Slice], b.cs + [s], b.csKey, b.key)
      requires SlotHolds(at, Val(item)) && Unshared(item) && Holds(item) && s !in Foot(item)
      requires item' == HashShape(h, NearestKey(at), item) && Unshared(item') && Foot(item') == Foot(item)
      modifies this, s, Foot(item)
      ensures o == Done <==> Completes(h, at, item)
      ensures o == Done ==> St() == old(St()) && SlotSet(at, Val(item')) && Holds(item')
      decreases item, 3
    {
      OpenSliceElem(i, at);
      o := WalkValue(s.body.elems[i], at, item, item');
      if o != Done {
        return;
      }
      Exit(SliceElem);
    }

    /** The same round, seen from the whole slice. */
    method WalkSliceRound(s: Container, i: nat, ghost at: Path, ghost cur: Shape, ghost item': Shape) returns (o: Outcome)
      requires cur.SliceShape? && cur.c == s && Unshared(cur) && Holds(cur) && i < |cur.items|
      requires var b := StacksAt(at); St() == Stacks(b.loc + [Slice], b.cs + [s], b.csKey, b.key)
      requires item' == HashShape(h, NearestKey(at), cur.items[i]) && Unshared(item') && Foot(item') == Foot(cur.items[i])
      requires Unshared(cur.(items := cur.items[i := item']))
      modifies this, Foot(cur)
      ensures o == Done <==> Completes(h, InSlice(at, s, i), cur.items[i])
      ensures o == Done ==> St() == old(St()) && Holds(cur.(items := cur.items[i := item']))
      decreases cur.items[i], 4
    {
      o := WalkSliceElem(s, i, InSlice(at, s, i), cur.items[i], item');
    }

    method WalkSliceElems(s: Container, ghost at: Path, ghost sh: Shape) returns (o: Outcome)
      requires var b := StacksAt(at); St() == Stacks(b.loc + [Slice], b.cs + [s], b.csKey, b.key)
      requires sh.SliceShape? && sh.c == s && Unshared(sh) && Holds(sh)
      modifies this, Foot(sh)
      ensures o == Done <==> Completes(h, at, sh)
      ensures var r := HashShape(h, NearestKey(at), sh); o == Done ==> St() == old(St()) && Unshared(r) && Holds(r)
      decreases sh, 0
    {
      hide *;
      ghost var key := NearestKey(at);
      HashPrefixEnds(h, key, sh);
      SliceHolds(sh);
      CompletesSlice(h, at, sh);
      var i := 0;
      while i < |s.body.elems|
        invariant s.body.SliceBody? && 0 <= i <= |s.body.elems| == |sh.items|
        invariant St() == old(St())
        invariant Unshared(HashPrefix(h, key, sh, i)) && Holds(HashPrefix(h, key, sh, i))
        invariant forall j :: 0 <= j < i ==> Completes(h, InSlice(at, s, j), sh.items[j])
      {
        HashPrefixShape(h, key, sh, i);
        HashPrefixShape(h, key, sh, i + 1);
        HashPrefixStep(h, key, sh, i);
        o := WalkSliceRound(s, i, at, HashPrefix(h, key, sh, i), HashShape(h, key, sh.items[i]));
        if o != Done {
          return;
        }
        SliceHolds(HashPrefix(h, key, sh, i + 1));
        i := i + 1;
      }
      o := Done;
    }

    method WalkSlice(s: Container, ghost at: Path, ghost sh: Shape, ghost sh': Shape) returns (o: Outcome)
      requires St() == StacksAt(at)
      requires sh.SliceShape? && sh.c == s && Unshared(sh) && Holds(sh)
      requires sh' == HashShape(h, NearestKey(at), sh)
      modifies this, Foot(sh)
      ensures o == Done <==> Completes(h, at, sh)
      ensures o == Done ==> St() == old(St()) && Unshared(sh') && Holds(sh')
      decreases sh, 1
    {
      Enter(Slice);
      SliceStart(s);
      o := WalkSliceElems(s, at, sh);
      if o != Done {
        return;
      }
      Exit(Slice);
    }

    /** reflectwalk.Walk: the whole walk inside its outer location. */
    method Walk(v: Value, ghost sh: Shape, ghost sh': Shape) returns (o: Outcome)
      requires St() == Stacks([], [], [], [])
      requires Val(sh) == v && Unshared(sh) && Holds(sh)
      requires sh' == HashShape(h, None, sh) && Unshared(sh') && Foot(sh') == Foot(sh)
      modifies this, Foot(sh)
      ensures o == Done <==> Completes(h, Root, sh)
      ensures o == Done ==> St() == old(St()) && Holds(sh')
    {
      hide *;
      AtRoot(v);
      StacksAre();
      FootAllocated(sh);
      Enter(WalkLoc);
      o := WalkValue(v, Root, sh, sh');
      if o != Done {
        return;
      }
      StacksAre();
      Exit(WalkLoc);
    }
  }

  /** Hashes the structure in place. It runs to its end exactly when the input is not a bare time and,
      unless there is no callback, no string lies outside every map; then the heap holds the hashed tree. */
  method HashStructure(v: Value, h: Hasher, ghost sh: Shape) returns (o: Outcome, ghost sh': Shape)
    requires Val(sh) == v && Unshared(sh) && Holds(sh)
    modifies Foot(sh)
    ensures o == Done <==> !(sh.LeafShape? && sh.scalar.Time?) && (h.callback.Some? ==> EveryStringKeyed(sh))
    ensures sh.MapShape? ==> o == Done
    ensures Unshared(sh') && Foot(sh') == Foot(sh) && sh' == HashShape(h, None, sh)
    ensures o == Done ==> Holds(sh') && Abs(sh') == HashTree(h, None, Abs(sh))
  {
    HashShapeUnshared(h, None, sh);
    HashShapeAbs(h, None, sh);
    sh' := HashShape(h, None, sh);
    var w := new Walker(h);
    o := w.Walk(v, sh, sh');
  }
}
