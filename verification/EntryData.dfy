/** The data maps of an audit entry: copied, elided and prepared from the caller's (audit/entry_formatter.go). */
module EntryData {
  import opened Basics
  import opened DataTree
  import opened CloneData
  import opened HashData

  // ---- Data maps, which may be absent ----

  ghost function FootOf(s: Option<Shape>): set<Container> {
    if s.Some? then Foot(s.value) else {}
  }

  ghost predicate Good(s: Option<Shape>) {
    s.Some? ==> s.value.MapShape? && Unshared(s.value)
  }

  /** The map `m` is absent, or the heap holds shape `s` under it. */
  ghost predicate Attached(m: Container?, s: Option<Shape>)
    reads FootOf(s)
  {
    && (m == null <==> s.None?)
    && Good(s)
    && (s.Some? ==> s.value.c == m && Holds(s.value))
  }

  lemma FeetAllocated(s: Option<Shape>)
    ensures forall o :: o in FootOf(s) ==> allocated(o)
  {
  }

  ghost function TreeOf(s: Option<Shape>): Option<Tree> {
    if s.Some? then Some(Abs(s.value)) else None
  }

  method CloneOptional(m: Container?, ghost s: Option<Shape>) returns (m': Container?, ghost s': Option<Shape>)
    requires Attached(m, s)
    ensures Attached(m', s') && fresh(FootOf(s')) && TreeOf(s') == TreeOf(s)
  {
    m', s' := null, None;
    if m != null {
      ghost var sh;
      m', sh := CloneMap(m, s.value);
      s' := Some(sh);
    }
  }

  /** The clone of one response entry, or its size when it is elided. */
  method CloneOrElide(k: MapKey, v: Value, ghost sh: Shape) returns (v': Value, ghost sh': Shape)
    requires Val(sh) == v && Unshared(sh) && Holds(sh)
    ensures Val(sh') == v' && Unshared(sh') && Holds(sh') && Abs(sh') == ElideKid(k, Abs(sh)) && fresh(Foot(sh'))
  {
    if k == Text("keys") && v.Ref? && v.c.body.SliceBody? && v.c.body.ofStrings {
      v' := Leaf(Number(|v.c.body.elems|));
      sh' := LeafShape(v'.scalar);
    } else if k == Text("key_info") && v.Ref? && v.c.body.MapBody? && v.c.body.ofAny {
      v' := Leaf(Number(|v.c.body.entries|));
      assert |v.c.body.entries| == |v.c.body.entries.Keys| && |Abs(sh).kids| == |Abs(sh).kids.Keys|;
      assert Abs(sh).kids.Keys == v.c.body.entries.Keys;
      sh' := LeafShape(v'.scalar);
    } else {
      v', sh' := Clone(v, sh);
    }
  }

  method ElideEntries(m: Container, ghost sh: Shape)
    returns (entries: map<MapKey, Value>, ghost kids: map<MapKey, Shape>, ghost region: set<Container>)
    requires sh.MapShape? && sh.c == m && Unshared(sh) && Holds(sh)
    ensures entries.Keys == kids.Keys == sh.kids.Keys && fresh(region) && Apart(kids, region)
    ensures forall k :: k in kids ==> Holds(kids[k])
    ensures forall k :: k in kids ==> entries[k] == Val(kids[k]) && Abs(kids[k]) == ElideKid(k, Abs(sh.kids[k]))
  {
    var todo := m.body.entries.Keys;
    entries, kids, region := map[], map[], {};
    while todo != {}
      invariant todo <= sh.kids.Keys
      invariant entries.Keys == kids.Keys == sh.kids.Keys - todo && fresh(region) && Apart(kids, region)
      invariant forall k :: k in kids ==> Holds(kids[k])
      invariant forall k :: k in kids ==> entries[k] == Val(kids[k]) && Abs(kids[k]) == ElideKid(k, Abs(sh.kids[k]))
    {
      var k :| k in todo;
      var v, kid := CloneOrElide(k, m.body.entries[k], sh.kids[k]);
      AddApart(kids, region, k, kid);
      entries, kids, region := entries[k := v], kids[k := kid], region + Foot(kid);
      todo := todo - {k};
    }
  }

  lemma ElidedShape(a: Shape, b: Shape)
    requires a.MapShape? && b.MapShape? && a.ofAny == b.ofAny && a.kids.Keys == b.kids.Keys
    requires forall k :: k in a.kids ==> Abs(b.kids[k]) == ElideKid(k, Abs(a.kids[k]))
    ensures Abs(b) == Elide(Abs(a))
  {
  }

  /** The response data of an entry: a fresh copy, elided if required. */
  method CloneResponseData(m: Container?, elide: bool, ghost s: Option<Shape>) returns (m': Container?, ghost s': Option<Shape>)
    requires Attached(m, s)
    ensures Attached(m', s') && fresh(FootOf(s'))
    ensures TreeOf(s') == if s.None? then None else Some(if elide then Elide(Abs(s.value)) else Abs(s.value))
  {
    if m == null || !elide {
      m', s' := CloneOptional(m, s);
      return;
    }
    var entries, kids, region := ElideEntries(m, s.value);
    // make(map[string]any): the caller's Data is itself a map[string]any.
    m' := new Container(MapBody(m.body.ofAny, entries));
    s' := Some(MapShape(m', m.body.ofAny, kids, region + {m'}));
    ElidedShape(s.value, s'.value);
  }

  /** maps.Clone: a new map whose nested containers are still the caller's. */
  method ShallowCopy(m: Container, ghost sh: Shape) returns (m': Container, ghost sh': Shape)
    requires sh.MapShape? && sh.c == m && Unshared(sh) && Holds(sh)
    ensures fresh(m') && sh' == MapShape(m', sh.ofAny, sh.kids, sh.region - {m} + {m'}) && Unshared(sh') && Holds(sh')
    ensures Abs(sh') == Abs(sh)
  {
    m' := new Container(m.body);
    sh' := MapShape(m', sh.ofAny, sh.kids, sh.region - {m} + {m'});
    SameKidsSameTree(sh, sh');
  }

  ghost function RawBodyShape(sh: Shape, text: string): Shape
    requires sh.MapShape?
  {
    sh.(kids := sh.kids[HTTP_RAW_BODY := LeafShape(Str(text))])
  }

  lemma RawBodyShapeProps(sh: Shape, text: string)
    requires sh.MapShape? && Unshared(sh) && HTTP_RAW_BODY in sh.kids && sh.kids[HTTP_RAW_BODY] == LeafShape(Bytes(text))
    ensures Unshared(RawBodyShape(sh, text)) && Abs(RawBodyShape(sh, text)) == RawBodyAsText(Abs(sh))
  {
    assert Abs(RawBodyShape(sh, text)).kids == RawBodyAsText(Abs(sh)).kids;
  }

  lemma NoRawBody(sh: Shape)
    requires sh.MapShape?
    requires !(HTTP_RAW_BODY in sh.kids && sh.kids[HTTP_RAW_BODY].LeafShape? && sh.kids[HTTP_RAW_BODY].scalar.Bytes?)
    ensures RawBodyAsText(Abs(sh)) == Abs(sh)
  {
  }

  /** string(b) for a raw HTTP body held as bytes. */
  method TextualRawBody(m: Container, ghost sh: Shape) returns (ghost sh': Shape)
    requires sh.MapShape? && sh.c == m && Unshared(sh) && Holds(sh)
    modifies m
    ensures sh'.MapShape? && sh'.c == m && Foot(sh') == Foot(sh) && Unshared(sh') && Holds(sh')
    ensures Abs(sh') == RawBodyAsText(Abs(sh))
  {
    hide Abs;
    sh' := sh;
    var entries := m.body.entries;
    if HTTP_RAW_BODY in entries && entries[HTTP_RAW_BODY].Leaf? && entries[HTTP_RAW_BODY].scalar.Bytes? {
      var text := entries[HTTP_RAW_BODY].scalar.content;
      RawBodyShapeProps(sh, text);
      m.body := m.body.(entries := entries[HTTP_RAW_BODY := Leaf(Str(text))]);
      sh' := RawBodyShape(sh, text);
      assert forall k :: k in sh.kids ==> Holds(sh.kids[k]);
    } else {
      NoRawBody(sh);
    }
  }
}
