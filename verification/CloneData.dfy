/** Deep copies of audit data (the generic `clone` of audit/entry_formatter.go). */
module CloneData {
  import opened DataTree

  /** The copy shares no container with anything that existed before and represents the same tree. */
  method Clone(v: Value, ghost sh: Shape) returns (v': Value, ghost sh': Shape)
    requires Val(sh) == v && Unshared(sh) && Holds(sh)
    ensures Val(sh') == v' && Unshared(sh') && Holds(sh') && Abs(sh') == Abs(sh) && fresh(Foot(sh'))
    decreases sh, 2
  {
    match v
    case Leaf(x) =>
      v', sh' := v, sh;
    case Ref(c) =>
      var c';
      if c.body.MapBody? {
        c', sh' := CloneMap(c, sh);
      } else {
        c', sh' := CloneSlice(c, sh);
      }
      v' := Ref(c');
  }

  /** Unshared subtrees inside `region`, pairwise disjoint. */
  ghost predicate Apart(kids: map<MapKey, Shape>, region: set<Container>) {
    && (forall k :: k in kids ==> Unshared(kids[k]) && Foot(kids[k]) <= region)
    && (forall j, k :: j in kids && k in kids && j != k ==> Foot(kids[j]) !! Foot(kids[k]))
  }

  lemma AddApart(kids: map<MapKey, Shape>, region: set<Container>, k: MapKey, kid: Shape)
    requires Apart(kids, region) && k !in kids && Unshared(kid) && Foot(kid) !! region
    ensures Apart(kids[k := kid], region + Foot(kid))
  {
  }

  lemma SameKidsSameTree(a: Shape, b: Shape)
    requires a.MapShape? && b.MapShape? && a.ofAny == b.ofAny
    requires a.kids.Keys == b.kids.Keys && forall k :: k in a.kids ==> Abs(a.kids[k]) == Abs(b.kids[k])
    ensures Abs(a) == Abs(b)
  {
  }

  method CloneEntries(c: Container, ghost sh: Shape)
    returns (entries: map<MapKey, Value>, ghost kids: map<MapKey, Shape>, ghost region: set<Container>)
    requires sh.MapShape? && sh.c == c && Unshared(sh) && Holds(sh)
    ensures entries.Keys == kids.Keys == sh.kids.Keys && fresh(region) && Apart(kids, region)
    ensures forall k :: k in kids ==> Holds(kids[k])
    ensures forall k :: k in kids ==> entries[k] == Val(kids[k]) && Abs(kids[k]) == Abs(sh.kids[k])
    decreases sh, 0
  {
    var todo := c.body.entries.Keys;
    entries, kids, region := map[], map[], {};
    while todo != {}
      invariant todo <= sh.kids.Keys
      invariant entries.Keys == kids.Keys == sh.kids.Keys - todo && fresh(region) && Apart(kids, region)
      invariant forall k :: k in kids ==> Holds(kids[k])
      invariant forall k :: k in kids ==> entries[k] == Val(kids[k]) && Abs(kids[k]) == Abs(sh.kids[k])
    {
      var k :| k in todo;
      var v, kid := Clone(c.body.entries[k], sh.kids[k]);
      AddApart(kids, region, k, kid);
      entries, kids, region := entries[k := v], kids[k := kid], region + Foot(kid);
      todo := todo - {k};
    }
  }

  method CloneMap(c: Container, ghost sh: Shape) returns (c': Container, ghost sh': Shape)
    requires sh.MapShape? && sh.c == c && Unshared(sh) && Holds(sh)
    ensures sh'.MapShape? && sh'.c == c' && Unshared(sh') && Holds(sh') && Abs(sh') == Abs(sh) && fresh(Foot(sh'))
    decreases sh, 1
  {
    var entries, kids, region := CloneEntries(c, sh);
    c' := new Container(MapBody(c.body.ofAny, entries));
    sh' := MapShape(c', c.body.ofAny, kids, region + {c'});
    SameKidsSameTree(sh, sh');
  }

  method CloneSlice(c: Container, ghost sh: Shape) returns (c': Container, ghost sh': Shape)
    requires sh.SliceShape? && sh.c == c && Unshared(sh) && Holds(sh)
    ensures sh'.SliceShape? && sh'.c == c' && Unshared(sh') && Holds(sh') && Abs(sh') == Abs(sh) && fresh(Foot(sh'))
    decreases sh, 0
  {
    var elems: seq<Value> := [];
    ghost var items: seq<Shape>, region: set<Container> := [], {};
    while |elems| < |c.body.elems|
      invariant |elems| == |items| <= |sh.items|
      invariant fresh(region)
      invariant forall i :: 0 <= i < |items| ==> Unshared(items[i]) && Foot(items[i]) <= region
      invariant forall i :: 0 <= i < |items| ==> Holds(items[i]) && elems[i] == Val(items[i]) && Abs(items[i]) == Abs(sh.items[i])
      invariant forall i, j :: 0 <= i < j < |items| ==> Foot(items[i]) !! Foot(items[j])
    {
      var v, item := Clone(c.body.elems[|elems|], sh.items[|elems|]);
      elems, items, region := elems + [v], items + [item], region + Foot(item);
    }
    c' := new Container(SliceBody(c.body.ofStrings, elems));
    sh' := SliceShape(c', c.body.ofStrings, items, region + {c'});
  }
}
