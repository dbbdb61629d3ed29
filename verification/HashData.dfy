/** Hashing of the `Data` maps of an audit entry (hashMap and its use in hashResponse). */
module HashData {
  import opened Basics
  import opened DataTree
  import opened HashWalker

  /** How a salt hashes text, marshals values that know how to hash themselves, and how times are written. */
  datatype Salt = Salt(hmac: string -> string, marshal: int -> Option<string>, format: int -> string)

  function HasherOf(salt: Salt, ignored: seq<string>): Hasher {
    Hasher(Some(salt.hmac), ignored, salt.format)
  }

  // ---- Specification on trees ----

  function MarshalScalar(salt: Salt, x: Scalar): Scalar {
    if x.Marshaler? && salt.marshal(x.id).Some? then Bytes(salt.marshal(x.id).value) else x
  }

  function MarshalTree(salt: Salt, t: Tree): Tree
    requires t.MapTree?
  {
    t.(kids := map k | k in t.kids ::
      if t.kids[k].LeafTree? then LeafTree(MarshalScalar(salt, t.kids[k].scalar)) else t.kids[k])
  }

  ghost predicate Marshals(salt: Salt, t: Tree)
    requires t.MapTree?
  {
    forall k :: k in t.kids && t.kids[k].LeafTree? && t.kids[k].scalar.Marshaler? ==>
      salt.marshal(t.kids[k].scalar.id).Some?
  }

  /** What a data map becomes: top-level marshalers replaced by their bytes, then every leaf hashed. */
  function HashedData(salt: Salt, ignored: seq<string>, t: Tree): Tree
    requires t.MapTree?
  {
    HashTree(HasherOf(salt, ignored), None, MarshalTree(salt, t))
  }

  ghost predicate SettledData(salt: Salt, ignored: seq<string>, t: Tree)
    requires t.MapTree?
  {
    && Settled(HasherOf(salt, ignored), None, t)
    && forall k :: k in t.kids && t.kids[k].LeafTree? ==> MarshalScalar(salt, t.kids[k].scalar) == t.kids[k].scalar
  }

  /** Hashing leaves a data map as it is exactly when there is nothing in it to hash. */
  lemma HashedDataFixed(salt: Salt, ignored: seq<string>, t: Tree)
    requires t.MapTree?
    ensures HashedData(salt, ignored, t) == t <==> SettledData(salt, ignored, t)
  {
    var h, m := HasherOf(salt, ignored), MarshalTree(salt, t);
    if forall k :: k in t.kids && t.kids[k].LeafTree? ==> MarshalScalar(salt, t.kids[k].scalar) == t.kids[k].scalar {
      assert m.kids == t.kids;
      HashTreeFixed(h, None, t);
    } else {
      var k :| k in t.kids && t.kids[k].LeafTree? && MarshalScalar(salt, t.kids[k].scalar) != t.kids[k].scalar;
      assert HashedData(salt, ignored, t).kids[k] == HashTree(h, Some(KeyName(k)), m.kids[k]);
    }
  }

  /** What becomes of each leaf of a data map: a value of the map itself that can marshal itself is replaced by its bytes;
      otherwise a string is hashed by the salt unless its nearest key is exempt, and a time becomes text. */
  lemma HashedDataLeaf(salt: Salt, ignored: seq<string>, t: Tree, path: seq<Slot>) returns (i: nat)
    requires t.MapTree? && At(t, path).Some? && At(t, path).value.LeafTree?
    ensures LastKey(path, i)
    ensures var x := At(t, path).value.scalar;
      At(HashedData(salt, ignored, t), path) == Some(LeafTree(
        match x
        case Str(s) =>
          var name := match path[i].k { case Text(text) => text case Stamp(_) => "<time.Time Value>" };
          if name in ignored then Str(s) else Str(salt.hmac(s))
        case Time(instant) => Str(salt.format(instant))
        case Marshaler(id) => if |path| == 1 && salt.marshal(id).Some? then Bytes(salt.marshal(id).value) else x
        case _ => x))
  {
    var m := MarshalTree(salt, t);
    assert path[0].KeySlot? && path[0].k in t.kids;
    if |path| > 1 {
      assert At(m, path) == At(t, path);
    } else {
      assert path == [path[0]] && path[1..] == [];
    }
    i := HashedLeaf(HasherOf(salt, ignored), m, path);
  }

  // ---- The same on shapes ----

  ghost function MarshalShape(salt: Salt, sh: Shape): Shape
    requires sh.MapShape?
  {
    sh.(kids := map k | k in sh.kids ::
      if sh.kids[k].LeafShape? then LeafShape(MarshalScalar(salt, sh.kids[k].scalar)) else sh.kids[k])
  }

  lemma MarshalShapeUnshared(salt: Salt, sh: Shape)
    requires sh.MapShape? && Unshared(sh)
    ensures Unshared(MarshalShape(salt, sh)) && Foot(MarshalShape(salt, sh)) == Foot(sh)
  {
  }

  lemma MarshalShapeAbs(salt: Salt, sh: Shape)
    requires sh.MapShape?
    ensures Abs(MarshalShape(salt, sh)) == MarshalTree(salt, Abs(sh))
  {
  }

  ghost function HashedShape(salt: Salt, ignored: seq<string>, sh: Shape): Shape
    requires sh.MapShape?
  {
    HashShape(HasherOf(salt, ignored), None, MarshalShape(salt, sh))
  }

  lemma HashedShapeProps(salt: Salt, ignored: seq<string>, sh: Shape)
    requires sh.MapShape? && Unshared(sh)
    ensures var r := HashedShape(salt, ignored, sh);
      r.MapShape? && r.c == sh.c && Unshared(r) && Foot(r) == Foot(sh) && Abs(r) == HashedData(salt, ignored, Abs(sh))
  {
    MarshalShapeUnshared(salt, sh);
    MarshalShapeAbs(salt, sh);
    HashShapeUnshared(HasherOf(salt, ignored), None, MarshalShape(salt, sh));
    HashShapeAbs(HasherOf(salt, ignored), None, MarshalShape(salt, sh));
  }

  // ---- The operations ----

  function MarshalValue(salt: Salt, v: Value): Value {
    if v.Leaf? then Leaf(MarshalScalar(salt, v.scalar)) else v
  }

  predicate ValueMarshals(salt: Salt, v: Value) {
    v.Leaf? && v.scalar.Marshaler? ==> salt.marshal(v.scalar.id).Some?
  }

  /** Replaces the values that marshal themselves, in any order. */
  method MarshalAll(salt: Salt, data: Container) returns (ok: bool)
    requires data.body.MapBody?
    modifies data
    ensures var was := old(data.body);
      && (ok <==> forall k :: k in was.entries ==> ValueMarshals(salt, was.entries[k]))
      && (ok ==> data.body == was.(entries := map k | k in was.entries :: MarshalValue(salt, was.entries[k])))
  {
    ghost var was := data.body;
    var todo := data.body.entries.Keys;
    while todo != {}
      invariant data.body.MapBody? && data.body.ofAny == was.ofAny && data.body.entries.Keys == was.entries.Keys
      invariant todo <= was.entries.Keys
      invariant forall k :: k in was.entries ==>
        data.body.entries[k] == if k in todo then was.entries[k] else MarshalValue(salt, was.entries[k])
      invariant forall k :: k in was.entries && k !in todo ==> ValueMarshals(salt, was.entries[k])
    {
      var k :| k in todo;
      var v := data.body.entries[k];
      if v.Leaf? && v.scalar.Marshaler? {
        var b := salt.marshal(v.scalar.id);
        if b.None? {
          return false;
        }
        data.body := data.body.(entries := data.body.entries[k := Leaf(Bytes(b.value))]);
      }
      todo := todo - {k};
    }
    ok := true;
  }

  lemma MarshalsAbs(salt: Salt, sh: Shape)
    requires sh.MapShape?
    ensures Marshals(salt, Abs(sh)) <==> forall k :: k in sh.kids ==> ValueMarshals(salt, Val(sh.kids[k]))
  {
    assert forall k :: k in sh.kids ==> Abs(sh).kids[k] == Abs(sh.kids[k]);
  }

  method MarshalData(salt: Salt, data: Container, ghost sh: Shape) returns (ok: bool)
    requires sh.MapShape? && sh.c == data && Unshared(sh) && Holds(sh) && Unshared(MarshalShape(salt, sh))
    modifies data
    ensures ok <==> Marshals(salt, Abs(sh))
    ensures ok ==> Holds(MarshalShape(salt, sh))
  {
    MarshalsAbs(salt, sh);
    ok := MarshalAll(salt, data);
    assert forall k :: k in sh.kids ==> Holds(sh.kids[k]);
  }

  /** hashMap: it succeeds exactly when every top-level marshaler does, and then the heap holds the hashed data. */
  method HashMap(salt: Salt, data: Container, ignored: seq<string>, ghost sh: Shape) returns (r: Result<()>)
    requires sh.MapShape? && sh.c == data && Unshared(sh) && Holds(sh)
    modifies Foot(sh)
    ensures Unshared(HashedShape(salt, ignored, sh))
    ensures r.Ok? <==> Marshals(salt, Abs(sh))
    ensures r.Ok? ==> Holds(HashedShape(salt, ignored, sh))
  {
    MarshalShapeUnshared(salt, sh);
    HashedShapeProps(salt, ignored, sh);
    var ok := MarshalData(salt, data, sh);
    if !ok {
      return Err("cannot marshal");
    }
    var o, sh' := HashStructure(Ref(data), HasherOf(salt, ignored), MarshalShape(salt, sh));
    r := Ok(());
  }

  // ---- Response data: raw bodies and elision ----

  const HTTP_RAW_BODY := Text("http_raw_body")

  /** A raw HTTP body held as bytes is turned into text before hashing. */
  function RawBodyAsText(t: Tree): Tree
    requires t.MapTree?
  {
    if HTTP_RAW_BODY in t.kids && t.kids[HTTP_RAW_BODY].LeafTree? && t.kids[HTTP_RAW_BODY].scalar.Bytes?
    then t.(kids := t.kids[HTTP_RAW_BODY := LeafTree(Str(t.kids[HTTP_RAW_BODY].scalar.content))])
    else t
  }

  function HashedResponseData(salt: Salt, ignored: seq<string>, t: Tree): Tree
    requires t.MapTree?
  {
    HashedData(salt, ignored, RawBodyAsText(t))
  }

  /** What one entry of a list response becomes when list responses are elided. */
  function ElideKid(k: MapKey, t: Tree): Tree {
    if k == Text("keys") && t.SliceTree? && t.ofStrings then LeafTree(Number(|t.items|))
    else if k == Text("key_info") && t.MapTree? && t.ofAny then LeafTree(Number(|t.kids|))
    else t
  }

  function Elide(t: Tree): Tree
    requires t.MapTree?
  {
    t.(kids := map k | k in t.kids :: ElideKid(k, t.kids[k]))
  }

  /** A list of keys and a map of key infos become their sizes, under these names and of these types only; every other
      entry stays. */
  lemma ElideMeans(t: Tree, k: MapKey)
    requires t.MapTree? && k in t.kids
    ensures Elide(t).MapTree? && Elide(t).ofAny == t.ofAny && Elide(t).kids.Keys == t.kids.Keys
    ensures var a, b := t.kids[k], Elide(t).kids[k];
      if k == Text("keys") && a.SliceTree? && a.ofStrings then b == LeafTree(Number(|a.items|))
      else if k == Text("key_info") && a.MapTree? && a.ofAny then b == LeafTree(Number(|a.kids|))
      else b == a
  {
  }

  /** A raw HTTP body held as bytes is hashed as text, unless its name is exempt; the rest of a response is hashed as any
      data is. */
  lemma RawBodyHashed(salt: Salt, ignored: seq<string>, t: Tree, body: string)
    requires t.MapTree?
    ensures Text("http_raw_body") in t.kids && t.kids[Text("http_raw_body")] == LeafTree(Bytes(body)) ==>
      && HashedResponseData(salt, ignored, t) == HashedData(salt, ignored, t.(kids := t.kids[Text("http_raw_body") := LeafTree(Str(body))]))
      && HashedResponseData(salt, ignored, t).kids[Text("http_raw_body")] ==
           LeafTree(Str(if "http_raw_body" in ignored then body else salt.hmac(body)))
    ensures (forall b :: Text("http_raw_body") in t.kids ==> t.kids[Text("http_raw_body")] != LeafTree(Bytes(b))) ==>
      HashedResponseData(salt, ignored, t) == HashedData(salt, ignored, t)
  {
    var k := Text("http_raw_body");
    if k in t.kids && t.kids[k] == LeafTree(Bytes(body)) {
      var u := t.(kids := t.kids[k := LeafTree(Str(body))]);
      var path := [KeySlot(k)];
      assert path[1..] == [] && At(u, path) == Some(LeafTree(Str(body)));
      var i := HashedDataLeaf(salt, ignored, u, path);
    }
    if k in t.kids && t.kids[k].LeafTree? && t.kids[k].scalar.Bytes? {
      assert t.kids[k] == LeafTree(Bytes(t.kids[k].scalar.content));
    }
  }

  lemma ElideRawBody(t: Tree)
    requires t.MapTree?
    ensures RawBodyAsText(Elide(t)) == Elide(RawBodyAsText(t))
  {
  }

  lemma ElideMarshal(salt: Salt, t: Tree)
    requires t.MapTree?
    ensures MarshalTree(salt, Elide(t)) == Elide(MarshalTree(salt, t))
  {
  }

  lemma ElideKidHash(h: Hasher, k: MapKey, t: Tree)
    ensures ElideKid(k, HashTree(h, Some(KeyName(k)), t)) == HashTree(h, Some(KeyName(k)), ElideKid(k, t))
  {
    if t.MapTree? {
      var r := HashTree(h, Some(KeyName(k)), t);
      assert r.kids.Keys == t.kids.Keys;
      assert |r.kids| == |r.kids.Keys| && |t.kids| == |t.kids.Keys|;
    }
  }

  lemma ElideHash(h: Hasher, t: Tree)
    requires t.MapTree?
    ensures HashTree(h, None, Elide(t)) == Elide(HashTree(h, None, t))
  {
    var a, b := HashTree(h, None, Elide(t)), Elide(HashTree(h, None, t));
    forall k | k in t.kids ensures a.kids[k] == b.kids[k] {
      ElideKidHash(h, k, t.kids[k]);
    }
    assert a.kids == b.kids;
  }

  /** Eliding before hashing, as the code does, gives what hashing the full response and then replacing
      `keys` and `key_info` by their sizes would. */
  lemma ElideBeforeHashing(salt: Salt, ignored: seq<string>, t: Tree)
    requires t.MapTree?
    ensures HashedResponseData(salt, ignored, Elide(t)) == Elide(HashedResponseData(salt, ignored, t))
  {
    ElideRawBody(t);
    ElideMarshal(salt, RawBodyAsText(t));
    ElideHash(HasherOf(salt, ignored), MarshalTree(salt, RawBodyAsText(t)));
  }
}
