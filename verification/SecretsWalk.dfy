/** The depth-first walk over a secrets tree (walkSecretsTree in command/kv_helpers.go). */
module SecretsWalk {
  import opened Basics
  import opened Strings

  // ---- The tree and the order of its nodes ----

  datatype RawKey = Text(key: string) | NotText

  /** What listing a path answers: an error (also for a missing or malformed list), or keys and the lists of the
      directories among them. */
  datatype Listing = Unlisted(error: string) | Keys(raw: seq<RawKey>, dirs: map<string, Listing>)

  predicate IsDir(key: string) {
    key != "" && key[|key| - 1] == '/'
  }

  /** A directory is a key that ends with a slash. */
  lemma IsDirMeans(key: string)
    ensures IsDir(key) <==> exists p: string :: key == p + "/"
  {
    if IsDir(key) {
      assert key == key[..|key| - 1] + "/";
    }
  }

  function Texts(raw: seq<RawKey>): seq<string>
    requires forall i :: 0 <= i < |raw| ==> raw[i].Text?
  {
    seq(|raw|, i requires 0 <= i < |raw| => raw[i].key)
  }

  predicate AllText(t: Listing) {
    t.Keys? && forall i :: 0 <= i < |t.raw| ==> t.raw[i].Text?
  }

  function Place(x: string, s: seq<string>): seq<string> {
    if s == [] || !Less(s[0], x) then [x] + s else [s[0]] + Place(x, s[1..])
  }

  /** sort.Strings */
  function Sorted(s: seq<string>): seq<string> {
    if s == [] then [] else Place(s[|s| - 1], Sorted(s[..|s| - 1]))
  }

  predicate NotDescending(s: seq<string>) {
    forall i, j :: 0 <= i < j < |s| ==> !Less(s[j], s[i])
  }

  lemma NotLessTransitive(a: string, b: string, c: string)
    requires !Less(b, a) && !Less(c, b)
    ensures !Less(c, a)
  {
  }

  lemma {:induction false} PlaceAdds(x: string, s: seq<string>)
    ensures multiset(Place(x, s)) == multiset(s) + multiset{x}
  {
    hide Less;
    if s != [] && Less(s[0], x) {
      PlaceAdds(x, s[1..]);
      assert s == [s[0]] + s[1..];
    }
  }

  lemma {:induction false} PlaceInOrder(x: string, s: seq<string>)
    requires NotDescending(s)
    ensures NotDescending(Place(x, s))
  {
    hide Less;
    if s == [] {
    } else if !Less(s[0], x) {
      forall j | 0 < j < |s| ensures !Less(s[j], x) {
        NotLessTransitive(x, s[0], s[j]);
      }
    } else {
      PlaceInOrder(x, s[1..]);
      var rest := Place(x, s[1..]);
      PlaceAdds(x, s[1..]);
      LessTotal(s[0], x);
      forall j | 0 <= j < |rest| ensures !Less(rest[j], s[0]) {
        assert rest[j] in multiset(rest);
      }
    }
  }

  /** The same strings, in ascending order. */
  lemma {:induction false} SortedMeans(s: seq<string>)
    ensures NotDescending(Sorted(s)) && multiset(Sorted(s)) == multiset(s)
  {
    if s != [] {
      SortedMeans(s[..|s| - 1]);
      PlaceAdds(s[|s| - 1], Sorted(s[..|s| - 1]));
      PlaceInOrder(s[|s| - 1], Sorted(s[..|s| - 1]));
      assert s == s[..|s| - 1] + [s[|s| - 1]];
    }
  }

  predicate Distinct(s: seq<string>) {
    forall x :: x in s ==> multiset(s)[x] == 1
  }

  lemma TwiceCounted(s: seq<string>, i: nat, j: nat)
    requires i < j < |s| && s[i] == s[j]
    ensures multiset(s)[s[i]] >= 2
  {
    assert s == s[..j] + s[j..];
    assert s[..j][i] in multiset(s[..j]) && s[j..][0] in multiset(s[j..]);
  }

  lemma DistinctSorted(s: seq<string>)
    requires Distinct(s)
    ensures Ascending(Sorted(s)) && forall x :: x in Sorted(s) <==> x in s
  {
    SortedMeans(s);
    var r := Sorted(s);
    assert forall x :: x in r <==> x in multiset(r);
    assert forall x :: x in s <==> x in multiset(s);
    forall i, j | 0 <= i < j < |r| ensures Less(r[i], r[j]) {
      LessTotal(r[i], r[j]);
      if r[i] == r[j] {
        TwiceCounted(r, i, j);
      }
    }
  }

  // ---- Preorder ----

  /** A node is named by the keys that lead to it. */
  type Name = seq<string>

  function Under(key: string, names: seq<Name>): seq<Name> {
    seq(|names|, i requires 0 <= i < |names| => [key] + names[i])
  }

  /** The names of all nodes, each directory before its contents and siblings sorted. */
  function Order(t: Listing): seq<Name>
    decreases t, 1, 0
  {
    if AllText(t) then OrderOf(t, Sorted(Texts(t.raw))) else []
  }

  function OrderOf(t: Listing, keys: seq<string>): seq<Name>
    requires t.Keys?
    decreases t, 0, |keys|
  {
    if keys == [] then []
    else
      var key := keys[0];
      [[key]] + (if IsDir(key) && key in t.dirs then Under(key, Order(t.dirs[key])) else []) + OrderOf(t, keys[1..])
  }

  /** A parent comes before its descendants, and siblings and what is under them in the order of their keys. */
  predicate Before(p: Name, q: Name) {
    q != [] && (p == [] || Less(p[0], q[0]) || (p[0] == q[0] && Before(p[1..], q[1..])))
  }

  ghost predicate IsNode(t: Listing, name: Name)
    decreases name
  {
    && name != [] && AllText(t) && name[0] in Texts(t.raw)
    && (|name| == 1 || (IsDir(name[0]) && name[0] in t.dirs && IsNode(t.dirs[name[0]], name[1..])))
  }

  ghost predicate DistinctKeys(t: Listing)
    decreases t
  {
    t.Keys? ==> (AllText(t) ==> Distinct(Texts(t.raw))) && forall k :: k in t.dirs ==> DistinctKeys(t.dirs[k])
  }

  ghost predicate InOrder(names: seq<Name>) {
    forall i, j :: 0 <= i < j < |names| ==> Before(names[i], names[j])
  }

  /** The name is a node under one of these keys. */
  ghost predicate NodeUnder(t: Listing, keys: seq<string>, name: Name)
    requires t.Keys?
  {
    && name != [] && name[0] in keys
    && (|name| == 1 || (IsDir(name[0]) && name[0] in t.dirs && IsNode(t.dirs[name[0]], name[1..])))
  }

  lemma BlockInOrder(key: string, inner: seq<Name>, rest: seq<Name>)
    requires InOrder(inner) && InOrder(rest)
    requires forall n :: n in inner ==> n != []
    requires forall n :: n in rest ==> n != [] && Less(key, n[0])
    ensures InOrder([[key]] + Under(key, inner) + rest)
  {
    var block := [[key]] + Under(key, inner);
    forall i, j | 0 <= i < j < |block| ensures Before(block[i], block[j]) {
      assert inner[j - 1] in inner;
      assert block[j][1..] == inner[j - 1];
      if i > 0 {
        assert block[i][1..] == inner[i - 1];
      }
    }
    forall i, j | 0 <= i < |block| && 0 <= j < |rest| ensures Before(block[i], rest[j]) {
      assert rest[j] in rest;
    }
  }

  /** Every node is named exactly once, in preorder with siblings sorted. */
  lemma {:induction false} OrderMeans(t: Listing)
    requires DistinctKeys(t)
    ensures InOrder(Order(t)) && forall n :: n in Order(t) <==> IsNode(t, n)
    decreases t, 1, 0
  {
    if AllText(t) {
      DistinctSorted(Texts(t.raw));
      OrderOfMeans(t, Sorted(Texts(t.raw)));
    }
  }

  lemma {:induction false} OrderOfMeans(t: Listing, keys: seq<string>)
    requires t.Keys? && DistinctKeys(t) && Ascending(keys)
    ensures InOrder(OrderOf(t, keys)) && forall n :: n in OrderOf(t, keys) <==> NodeUnder(t, keys, n)
    decreases t, 0, |keys|
  {
    if keys != [] {
      var key := keys[0];
      var inner := if IsDir(key) && key in t.dirs then Order(t.dirs[key]) else [];
      if IsDir(key) && key in t.dirs {
        OrderMeans(t.dirs[key]);
      }
      OrderOfMeans(t, keys[1..]);
      var rest := OrderOf(t, keys[1..]);
      BlockInOrder(key, inner, rest);
      assert OrderOf(t, keys) == [[key]] + Under(key, inner) + rest;
      UnderMembers(key, inner);
      forall n ensures n in OrderOf(t, keys) <==> NodeUnder(t, keys, n) {
        assert n in OrderOf(t, keys) <==> n == [key] || n in Under(key, inner) || n in rest;
      }
    }
  }

  lemma UnderMembers(key: string, inner: seq<Name>)
    ensures forall n :: n in Under(key, inner) <==> n != [] && n[0] == key && n[1..] in inner
  {
    forall n ensures n in Under(key, inner) <==> n != [] && n[0] == key && n[1..] in inner {
      if n in Under(key, inner) {
        var i :| 0 <= i < |inner| && n == [key] + inner[i];
        assert n[1..] == inner[i];
      }
      if n != [] && n[0] == key && n[1..] in inner {
        var i :| 0 <= i < |inner| && n[1..] == inner[i];
        assert Under(key, inner)[i] == n;
      }
    }
  }

  // ---- The walk ----

  datatype Visit = Visit(path: string, directory: bool)

  /** Combines a path with a key relative to it. */
  type Joiner = (string, string) -> string

  /** The error of a visit, if any; it may depend on the calls before it. */
  type Visitor = (seq<Visit>, Visit) -> Option<string>

  /** What the walk comes to next: a visit, or a list it cannot go through. */
  datatype Item = Call(visit: Visit) | Stop(error: string)

  const BAD_KEY := "unexpected key type"
  const NO_VALUE := "no value found"

  /** Everything the walk would come to if no visit failed. */
  function Plan(t: Listing, path: string, join: Joiner): seq<Item>
    decreases t, 1, 0
  {
    if t.Unlisted? then [Stop(t.error)]
    else if !AllText(t) then [Stop(BAD_KEY)]
    else PlanOf(t, Sorted(Texts(t.raw)), path, join)
  }

  function PlanKey(t: Listing, key: string, path: string, join: Joiner): seq<Item>
    requires t.Keys?
    decreases t, 0, 0
  {
    var child := join(path, key);
    if !IsDir(key) then [Call(Visit(child, false))]
    else [Call(Visit(child, true))] + if key in t.dirs then Plan(t.dirs[key], child, join) else [Stop(NO_VALUE)]
  }

  function PlanOf(t: Listing, keys: seq<string>, path: string, join: Joiner): seq<Item>
    requires t.Keys?
    decreases t, 0, 1 + |keys|
  {
    if keys == [] then [] else PlanKey(t, keys[0], path, join) + PlanOf(t, keys[1..], path, join)
  }

  /** The calls made, and the error returned if any. */
  datatype Walked = Walked(calls: seq<Visit>, err: Option<string>)

  /** Each item is taken in turn until one fails. */
  function Cut(plan: seq<Item>, before: seq<Visit>, visit: Visitor): Walked {
    if plan == [] then Walked([], None)
    else match plan[0]
      case Stop(e) => Walked([], Some(e))
      case Call(v) =>
        var err := visit(before, v);
        if err.Some? then Walked([v], err)
        else
          var rest := Cut(plan[1..], before + [v], visit);
          Walked([v] + rest.calls, rest.err)
  }

  lemma {:induction false} CutAppend(a: seq<Item>, b: seq<Item>, before: seq<Visit>, visit: Visitor)
    ensures var first := Cut(a, before, visit);
      var second := Cut(b, before + first.calls, visit);
      Cut(a + b, before, visit) == if first.err.Some? then first else Walked(first.calls + second.calls, second.err)
  {
    if a == [] {
      assert a + b == b && before + [] == before;
    } else {
      assert (a + b)[1..] == a[1..] + b;
      if a[0].Call? && visit(before, a[0].visit).None? {
        var v := a[0].visit;
        CutAppend(a[1..], b, before + [v], visit);
        var calls := Cut(a[1..], before + [v], visit).calls;
        assert before + ([v] + calls) == before + [v] + calls;
        var more := Cut(b, before + [v] + calls, visit).calls;
        assert [v] + (calls + more) == [v] + calls + more;
      }
    }
  }

  lemma CutOne(item: Item, before: seq<Visit>, visit: Visitor)
    ensures Cut([], before, visit) == Walked([], None)
    ensures item.Stop? ==> Cut([item], before, visit) == Walked([], Some(item.error))
    ensures item.Call? ==> Cut([item], before, visit) == Walked([item.visit], visit(before, item.visit))
  {
  }

  method CollectKeys(raw: seq<RawKey>) returns (keys: Option<seq<string>>)
    ensures keys.Some? <==> forall i :: 0 <= i < |raw| ==> raw[i].Text?
    ensures keys.Some? ==> keys.value == Texts(raw)
  {
    var found := [];
    for i := 0 to |raw|
      invariant |found| == i && forall j :: 0 <= j < i ==> raw[j].Text? && found[j] == raw[j].key
    {
      if raw[i].NotText? {
        return None;
      }
      found := found + [raw[i].key];
    }
    keys := Some(found);
  }

  /** The walk makes exactly the calls of the plan, in its order, up to the first failure, and returns that. */
  method WalkSecretsTree(t: Listing, path: string, join: Joiner, visit: Visitor,
                         before: seq<Visit>) returns (r: Walked)
    ensures r == Cut(Plan(t, path, join), before, visit)
    decreases t, 1
  {
    hide Cut, PlanKey, Sorted;
    if t.Unlisted? {
      CutOne(Stop(t.error), before, visit);
      return Walked([], Some(t.error));
    }
    var found := CollectKeys(t.raw);
    if found.None? {
      CutOne(Stop(BAD_KEY), before, visit);
      return Walked([], Some(BAD_KEY));
    }
    var keys, calls := Sorted(found.value), [];
    ghost var whole := Cut(PlanOf(t, keys, path, join), before, visit);
    assert keys[0..] == keys && before + [] == before;
    for i := 0 to |keys|
      invariant var rest := Cut(PlanOf(t, keys[i..], path, join), before + calls, visit);
        whole == Walked(calls + rest.calls, rest.err)
    {
      var one := WalkKey(t, keys[i], path, join, visit, before + calls);
      CutAppend(PlanKey(t, keys[i], path, join), PlanOf(t, keys[i..][1..], path, join), before + calls, visit);
      assert keys[i..][1..] == keys[i + 1..];
      assert before + (calls + one.calls) == before + calls + one.calls;
      ghost var rest := Cut(PlanOf(t, keys[i + 1..], path, join), before + calls + one.calls, visit);
      assert calls + (one.calls + rest.calls) == calls + one.calls + rest.calls;
      calls := calls + one.calls;
      if one.err.Some? {
        return Walked(calls, one.err);
      }
    }
    CutOne(Stop(""), before + calls, visit);
    r := Walked(calls, None);
  }

  /** One key: visit it, and go deeper if it is a directory. */
  method WalkKey(t: Listing, key: string, path: string, join: Joiner, visit: Visitor,
                 before: seq<Visit>) returns (r: Walked)
    requires t.Keys?
    ensures r == Cut(PlanKey(t, key, path, join), before, visit)
    decreases t, 0
  {
    hide Plan, Cut;
    var v := Visit(join(path, key), IsDir(key));
    CutOne(Call(v), before, visit);
    r := Walked([v], visit(before, v));
    if v.directory {
      if r.err.Some? {
        CutAppend([Call(v)], if key in t.dirs then Plan(t.dirs[key], v.path, join) else [Stop(NO_VALUE)], before, visit);
      } else if key in t.dirs {
        var more := WalkSecretsTree(t.dirs[key], v.path, join, visit, before + [v]);
        CutAppend([Call(v)], Plan(t.dirs[key], v.path, join), before, visit);
        r := Walked([v] + more.calls, more.err);
      } else {
        CutAppend([Call(v)], [Stop(NO_VALUE)], before, visit);
        CutOne(Stop(NO_VALUE), before + [v], visit);
        r := Walked([v], Some(NO_VALUE));
      }
    }
  }

  // ---- What the calls are ----

  function Visits(plan: seq<Item>): seq<Visit> {
    if plan == [] then []
    else (if plan[0].Call? then [plan[0].visit] else []) + Visits(plan[1..])
  }

  function JoinAll(path: string, name: Name, join: Joiner): string
    decreases |name|
  {
    if name == [] then path else JoinAll(join(path, name[0]), name[1..], join)
  }

  function VisitOf(path: string, name: Name, join: Joiner): Visit
    requires name != []
  {
    Visit(JoinAll(path, name, join), IsDir(name[|name| - 1]))
  }

  function VisitsOf(path: string, names: seq<Name>, join: Joiner): seq<Visit>
    requires forall i :: 0 <= i < |names| ==> names[i] != []
  {
    seq(|names|, i requires 0 <= i < |names| => VisitOf(path, names[i], join))
  }

  lemma {:induction false} VisitsAppend(a: seq<Item>, b: seq<Item>)
    ensures Visits(a + b) == Visits(a) + Visits(b)
  {
    if a == [] {
      assert a + b == b;
    } else {
      var first := if a[0].Call? then [a[0].visit] else [];
      calc {
        Visits(a + b);
        { assert (a + b)[1..] == a[1..] + b; }
        first + Visits(a[1..] + b);
        { VisitsAppend(a[1..], b); }
        first + (Visits(a[1..]) + Visits(b));
        first + Visits(a[1..]) + Visits(b);
        Visits(a) + Visits(b);
      }
    }
  }

  lemma {:induction false} OrderNonempty(t: Listing)
    ensures forall i :: 0 <= i < |Order(t)| ==> Order(t)[i] != []
    decreases t, 1, 0
  {
    if AllText(t) {
      OrderOfNonempty(t, Sorted(Texts(t.raw)));
    }
  }

  lemma {:induction false} OrderOfNonempty(t: Listing, keys: seq<string>)
    requires t.Keys?
    ensures forall i :: 0 <= i < |OrderOf(t, keys)| ==> OrderOf(t, keys)[i] != []
    decreases t, 0, |keys|
  {
    if keys != [] {
      OrderOfNonempty(t, keys[1..]);
    }
  }

  lemma UnderVisits(key: string, names: seq<Name>, path: string, join: Joiner)
    requires forall i :: 0 <= i < |names| ==> names[i] != []
    ensures VisitsOf(path, Under(key, names), join) == VisitsOf(join(path, key), names, join)
  {
  }

  lemma OneVisit(key: string, path: string, join: Joiner)
    ensures VisitsOf(path, [[key]], join) == [Visit(join(path, key), IsDir(key))]
  {
    assert [key][1..] == [];
    assert JoinAll(path, [key], join) == join(path, key);
    assert [[key]][0] == [key] && VisitOf(path, [key], join) == Visit(join(path, key), IsDir(key));
  }

  lemma VisitsOfAppend(a: seq<Name>, b: seq<Name>, path: string, join: Joiner)
    requires (forall i :: 0 <= i < |a| ==> a[i] != []) && (forall i :: 0 <= i < |b| ==> b[i] != [])
    ensures VisitsOf(path, a + b, join) == VisitsOf(path, a, join) + VisitsOf(path, b, join)
  {
  }

  /** The calls of a walk that nothing stops are the nodes of the tree in preorder. */
  lemma {:induction false} PlanVisits(t: Listing, path: string, join: Joiner)
    ensures forall i :: 0 <= i < |Order(t)| ==> Order(t)[i] != []
    ensures Visits(Plan(t, path, join)) == VisitsOf(path, Order(t), join)
    decreases t, 1, 0
  {
    OrderNonempty(t);
    if AllText(t) {
      PlanOfVisits(t, Sorted(Texts(t.raw)), path, join);
    }
  }

  lemma {:induction false} DirVisits(t: Listing, key: string, path: string, join: Joiner)
    requires t.Keys? && IsDir(key) && key in t.dirs
    ensures var names := [[key]] + Under(key, Order(t.dirs[key]));
      && (forall i :: 0 <= i < |names| ==> names[i] != [])
      && Visits(PlanKey(t, key, path, join)) == VisitsOf(path, names, join)
    decreases t, 0, 0
  {
    hide VisitsOf, Plan, Order;
    var child, inner := join(path, key), Order(t.dirs[key]);
    PlanVisits(t.dirs[key], child, join);
    UnderVisits(key, inner, path, join);
    OneVisit(key, path, join);
    VisitsOfAppend([[key]], Under(key, inner), path, join);
    VisitsAppend([Call(Visit(child, true))], Plan(t.dirs[key], child, join));
  }

  lemma {:induction false} PlanKeyVisits(t: Listing, key: string, path: string, join: Joiner)
    requires t.Keys?
    ensures var names := [[key]] + if IsDir(key) && key in t.dirs then Under(key, Order(t.dirs[key])) else [];
      && (forall i :: 0 <= i < |names| ==> names[i] != [])
      && Visits(PlanKey(t, key, path, join)) == VisitsOf(path, names, join)
    decreases t, 0, 1
  {
    hide VisitsOf;
    if IsDir(key) && key in t.dirs {
      DirVisits(t, key, path, join);
    } else {
      OneVisit(key, path, join);
      assert [[key]] + [] == [[key]];
      VisitsAppend([Call(Visit(join(path, key), IsDir(key)))], [Stop(NO_VALUE)]);
    }
  }

  lemma {:induction false} PlanOfVisits(t: Listing, keys: seq<string>, path: string, join: Joiner)
    requires t.Keys?
    ensures forall i :: 0 <= i < |OrderOf(t, keys)| ==> OrderOf(t, keys)[i] != []
    ensures Visits(PlanOf(t, keys, path, join)) == VisitsOf(path, OrderOf(t, keys), join)
    decreases t, 0, 2 + |keys|
  {
    hide PlanKey, Order;
    OrderOfNonempty(t, keys);
    if keys != [] {
      PlanKeyVisits(t, keys[0], path, join);
      PlanOfVisits(t, keys[1..], path, join);
      VisitsAppend(PlanKey(t, keys[0], path, join), PlanOf(t, keys[1..], path, join));
      var names := [[keys[0]]] + if IsDir(keys[0]) && keys[0] in t.dirs then Under(keys[0], Order(t.dirs[keys[0]])) else [];
      assert OrderOf(t, keys) == names + OrderOf(t, keys[1..]);
      VisitsOfAppend(names, OrderOf(t, keys[1..]), path, join);
    }
  }

  /** The calls made are a beginning of that order: all of it when no error is returned. */
  lemma {:induction false} CutPrefix(plan: seq<Item>, before: seq<Visit>, visit: Visitor)
    ensures var r := Cut(plan, before, visit); r.calls <= Visits(plan) && (r.err.None? ==> r.calls == Visits(plan))
  {
    if plan != [] && plan[0].Call? && visit(before, plan[0].visit).None? {
      CutPrefix(plan[1..], before + [plan[0].visit], visit);
    }
  }

  /** What call `i` of these, made after `before`, returns. */
  function Answer(calls: seq<Visit>, before: seq<Visit>, visit: Visitor, i: nat): Option<string>
    requires i < |calls|
  {
    visit(before + calls[..i], calls[i])
  }

  lemma AnswerShifts(v: Visit, rest: seq<Visit>, before: seq<Visit>, visit: Visitor)
    ensures Answer([v] + rest, before, visit, 0) == visit(before, v)
    ensures forall i :: 0 <= i < |rest| ==> Answer([v] + rest, before, visit, i + 1) == Answer(rest, before + [v], visit, i)
  {
    assert before + ([v] + rest)[..0] == before;
    forall i | 0 <= i < |rest| ensures Answer([v] + rest, before, visit, i + 1) == Answer(rest, before + [v], visit, i) {
      assert before + ([v] + rest)[..i + 1] == before + [v] + rest[..i];
    }
  }

  /** An error returned is that of the last call made, or of the list that comes after the calls in the plan; the calls
      before the last return none, and if the last fails then its error is the one returned. */
  lemma {:induction false} CutError(plan: seq<Item>, before: seq<Visit>, visit: Visitor)
    ensures var r := Cut(plan, before, visit); var n := |r.calls|;
      && n <= |plan| && (forall i :: 0 <= i < n - 1 ==> Answer(r.calls, before, visit, i).None?)
      && (r.err.Some? ==>
        || (n > 0 && Answer(r.calls, before, visit, n - 1) == r.err)
        || (n < |plan| && plan[n] == Stop(r.err.value)))
      && (n > 0 && Answer(r.calls, before, visit, n - 1).Some? ==> r.err == Answer(r.calls, before, visit, n - 1))
  {
    hide Answer;
    if plan != [] && plan[0].Call? {
      var v, r := plan[0].visit, Cut(plan, before, visit);
      if visit(before, v).Some? {
        AnswerShifts(v, [], before, visit);
        assert r.calls == [v] + [];
      } else {
        var rest := Cut(plan[1..], before + [v], visit);
        CutError(plan[1..], before + [v], visit);
        AnswerShifts(v, rest.calls, before, visit);
        assert r.calls == [v] + rest.calls;
        assert forall i :: 0 < i < |r.calls| ==> Answer(r.calls, before, visit, i) == Answer(rest.calls, before + [v], visit, i - 1);
      }
    }
  }

  /** Over every finite tree: the calls are the nodes in preorder with siblings sorted, each node once when the keys of
      each list are distinct, cut off at the first failure. */
  lemma WalkMeans(t: Listing, path: string, join: Joiner, visit: Visitor)
    requires DistinctKeys(t)
    ensures var r, names := Cut(Plan(t, path, join), [], visit), Order(t);
      && InOrder(names) && (forall n :: n in names <==> IsNode(t, n))
      && |r.calls| <= |names|
      && (forall i :: 0 <= i < |names| ==> names[i] != [])
      && (forall i :: 0 <= i < |r.calls| ==> r.calls[i] == VisitOf(path, names[i], join))
      && (r.err.None? ==> |r.calls| == |names|)
  {
    hide Cut, Plan, Order;
    OrderMeans(t);
    PlanVisits(t, path, join);
    CutPrefix(Plan(t, path, join), [], visit);
  }

  // ---- When the walk gets through ----

  /** Every list in the tree can be gone through, and every directory has one. */
  ghost predicate Listable(t: Listing)
    decreases t
  {
    AllText(t) && forall k :: k in Texts(t.raw) && IsDir(k) ==> k in t.dirs && Listable(t.dirs[k])
  }

  predicate NoStop(plan: seq<Item>) {
    forall i :: 0 <= i < |plan| ==> plan[i].Call?
  }

  lemma {:induction false} PlanNoStop(t: Listing, path: string, join: Joiner)
    ensures NoStop(Plan(t, path, join)) <==> Listable(t)
    decreases t, 1, 0
  {
    if t.Unlisted? || !AllText(t) {
      assert Plan(t, path, join)[0].Stop?;
    } else {
      var keys := Sorted(Texts(t.raw));
      PlanOfNoStop(t, keys, path, join);
      SortedMeans(Texts(t.raw));
      assert forall k :: k in keys <==> k in multiset(keys);
      assert forall k :: k in Texts(t.raw) <==> k in multiset(Texts(t.raw));
    }
  }

  lemma {:induction false} PlanOfNoStop(t: Listing, keys: seq<string>, path: string, join: Joiner)
    requires t.Keys?
    ensures NoStop(PlanOf(t, keys, path, join)) <==>
      forall k :: k in keys && IsDir(k) ==> k in t.dirs && Listable(t.dirs[k])
    decreases t, 0, |keys|
  {
    hide Plan, Listable;
    if keys != [] {
      var key, rest := keys[0], keys[1..];
      var first, more := PlanKey(t, key, path, join), PlanOf(t, rest, path, join);
      PlanOfNoStop(t, rest, path, join);
      if IsDir(key) && key in t.dirs {
        PlanNoStop(t.dirs[key], join(path, key), join);
        NoStopAppend([Call(Visit(join(path, key), true))], Plan(t.dirs[key], join(path, key), join));
      } else if IsDir(key) {
        assert first[1].Stop?;
      }
      NoStopAppend(first, more);
      assert keys == [key] + rest;
    }
  }

  lemma NoStopAppend(a: seq<Item>, b: seq<Item>)
    ensures NoStop(a + b) <==> NoStop(a) && NoStop(b)
  {
    assert (forall i :: 0 <= i < |a| ==> (a + b)[i] == a[i]) && (forall i :: 0 <= i < |b| ==> (a + b)[|a| + i] == b[i]);
  }

  ghost predicate NeverFails(visit: Visitor) {
    forall before, v :: visit(before, v).None?
  }

  lemma {:induction false} CutNoStop(plan: seq<Item>, before: seq<Visit>, visit: Visitor)
    requires NeverFails(visit)
    ensures Cut(plan, before, visit).err.None? <==> NoStop(plan)
  {
    if plan != [] && plan[0].Call? {
      CutNoStop(plan[1..], before + [plan[0].visit], visit);
      NoStopAppend([plan[0]], plan[1..]);
      assert plan == [plan[0]] + plan[1..];
    }
  }

  /** A walk whose visits do not fail returns no error exactly when every list can be gone through, and then it has
      visited every node. */
  lemma WalkFinishes(t: Listing, path: string, join: Joiner, visit: Visitor)
    requires NeverFails(visit)
    ensures var r := Cut(Plan(t, path, join), [], visit);
      && (r.err.None? <==> Listable(t))
      && (Listable(t) ==> |r.calls| == |Order(t)|)
  {
    hide Cut, Plan, Order, Listable, NeverFails;
    PlanNoStop(t, path, join);
    CutNoStop(Plan(t, path, join), [], visit);
    PlanVisits(t, path, join);
    CutPrefix(Plan(t, path, join), [], visit);
  }

  /** What is wrong with the list under a directory, or with the first one if the name is empty. */
  ghost function ListError(t: Listing, name: Name): Option<string>
    decreases |name|
  {
    if name == [] then
      if t.Unlisted? then Some(t.error) else if !AllText(t) then Some(BAD_KEY) else None
    else if !AllText(t) || name[0] !in Texts(t.raw) || !IsDir(name[0]) then None
    else if name[0] in t.dirs then ListError(t.dirs[name[0]], name[1..])
    else if |name| == 1 then Some(NO_VALUE)
    else None
  }

  /** Where the plan stops, the directory visited just before has a list with that error; or it stops at once, and the
      first list has it. */
  ghost predicate StopsFor(t: Listing, plan: seq<Item>, i: nat, path: string, join: Joiner, name: Name)
    requires i < |plan| && plan[i].Stop?
  {
    && ListError(t, name) == Some(plan[i].error)
    && (name == [] ==> i == 0)
    && (name != [] ==> i > 0 && plan[i - 1] == Call(VisitOf(path, name, join)))
  }

  lemma {:induction false} StopMeans(t: Listing, path: string, join: Joiner, i: nat) returns (name: Name)
    requires i < |Plan(t, path, join)| && Plan(t, path, join)[i].Stop?
    ensures StopsFor(t, Plan(t, path, join), i, path, join, name)
    decreases t, 1, 0
  {
    name := [];
    if AllText(t) {
      var keys := Sorted(Texts(t.raw));
      name := StopOfMeans(t, keys, path, join, i);
      SortedMeans(Texts(t.raw));
      assert name[0] in multiset(keys) && name[0] in multiset(Texts(t.raw));
      ListErrorOf(t, name);
    }
  }

  /** What is wrong with the list under a directory below these keys. */
  ghost function ErrorUnder(t: Listing, name: Name): Option<string>
    requires t.Keys? && name != []
  {
    if !IsDir(name[0]) then None
    else if name[0] in t.dirs then ListError(t.dirs[name[0]], name[1..])
    else if |name| == 1 then Some(NO_VALUE)
    else None
  }

  lemma ListErrorOf(t: Listing, name: Name)
    requires AllText(t) && name != [] && name[0] in Texts(t.raw)
    ensures ListError(t, name) == ErrorUnder(t, name)
  {
  }

  lemma {:induction false} StopOfMeans(t: Listing, keys: seq<string>, path: string, join: Joiner, i: nat) returns (name: Name)
    requires t.Keys? && i < |PlanOf(t, keys, path, join)| && PlanOf(t, keys, path, join)[i].Stop?
    ensures name != [] && name[0] in keys && i > 0 && ErrorUnder(t, name) == Some(PlanOf(t, keys, path, join)[i].error)
    ensures PlanOf(t, keys, path, join)[i - 1] == Call(VisitOf(path, name, join))
    decreases t, 0, |keys|
  {
    hide Plan, ListError, VisitOf;
    var key := keys[0];
    var first, more := PlanKey(t, key, path, join), PlanOf(t, keys[1..], path, join);
    if i >= |first| {
      name := StopOfMeans(t, keys[1..], path, join, i - |first|);
    } else if key in t.dirs {
      var child := join(path, key);
      assert first[i] == Plan(t.dirs[key], child, join)[i - 1];
      var inner := StopMeans(t.dirs[key], child, join, i - 1);
      name := [key] + inner;
      VisitUnder(key, inner, path, join);
      assert name[1..] == inner;
    } else {
      name := [key];
      VisitUnder(key, [], path, join);
      assert [key] + [] == [key];
    }
  }

  lemma VisitUnder(key: string, inner: Name, path: string, join: Joiner)
    ensures var name := [key] + inner;
      name[1..] == inner && VisitOf(path, name, join) ==
        if inner == [] then Visit(join(path, key), IsDir(key)) else VisitOf(join(path, key), inner, join)
  {
    var name := [key] + inner;
    assert name[1..] == inner && JoinAll(path, name, join) == JoinAll(join(path, key), inner, join);
    if inner != [] {
      assert name[|name| - 1] == inner[|inner| - 1];
    }
  }
}
