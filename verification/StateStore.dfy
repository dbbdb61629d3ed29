/** The read-your-writes store of replication states (api/client.go). */
module StateStore {
  import opened Basics
  import opened Strings
  import opened StateText

  // ---- Comparing and merging ----

  /** How a state is read from its text, if it can be. */
  type Reader = string -> Option<WalState>

  /** What a store relies on: white space around a state does not matter, and a blank text is no state. */
  ghost predicate IgnoresSpace(read: Reader) {
    forall s {:trigger Trim(s)} :: read(s).Some? ==> Trim(s) != "" && read(Trim(s)) == read(s)
  }

  /** ParseReplicationState without a key reads like that, given that base64 decodes the empty string to itself and
      ignores white space around what it decodes. */
  lemma ParseIgnoresSpace(c: Codec)
    requires c.base64("") == Some("") && forall s :: c.base64(s).Some? ==> c.base64(Trim(s)) == c.base64(s)
    ensures IgnoresSpace(s => Parse(c, s, ""))
  {
    hide Trim;
    assert LastIndexOf("", ':').None?;
  }

  predicate Parses(read: Reader, s: string) {
    read(s).Some?
  }

  predicate SameCluster(read: Reader, a: string, b: string) {
    Parses(read, a) && Parses(read, b) && read(a).value.cluster == read(b).value.cluster
  }

  /** `a` is at least as new as `b` in both indices. */
  predicate Dominates(read: Reader, a: string, b: string) {
    && SameCluster(read, a, b)
    && read(a).value.local >= read(b).value.local
    && read(a).value.replicated >= read(b).value.replicated
  }

  predicate Incomparable(read: Reader, a: string, b: string) {
    SameCluster(read, a, b) && !Dominates(read, a, b) && !Dominates(read, b, a)
  }

  /** compareReplicationStates: 1 newer or identical, -1 older, 0 neither; an error unless both parse to one cluster. */
  function Compare(read: Reader, s1: string, s2: string): (r: Result<int>)
    ensures r.Ok? <==> SameCluster(read, s1, s2)
    ensures r.Ok? ==> -1 <= r.value <= 1
    ensures r == Ok(1) <==> Dominates(read, s1, s2)
    ensures r == Ok(-1) <==> Dominates(read, s2, s1) && !Dominates(read, s1, s2)
    ensures r == Ok(0) <==> Incomparable(read, s1, s2)
  {
    var w1 := read(s1);
    if w1.None? then Err("invalid state")
    else
      var w2 := read(s2);
      if w2.None? then Err("invalid state")
      else if w1.value.cluster != w2.value.cluster then Err("can't compare replication states with different ClusterIDs")
      else if w1.value.local >= w2.value.local && w1.value.replicated >= w2.value.replicated then Ok(1)
      else if w1.value.local <= w2.value.local && w1.value.replicated <= w2.value.replicated then Ok(-1)
      else Ok(0)
  }

  /** The new state takes the place of the whole store. */
  predicate Replaces(read: Reader, old_: seq<string>, new_: string) {
    |old_| == 0 || |old_| > 2 || exists i :: 0 <= i < |old_| && !SameCluster(read, old_[i], new_)
  }

  function Pick(read: Reader, o: string, new_: string): seq<string> {
    if Dominates(read, o, new_) then [o] else if Dominates(read, new_, o) then [new_] else [o, new_]
  }

  function Picks(read: Reader, old_: seq<string>, new_: string): seq<string> {
    if old_ == [] then [] else Picks(read, old_[..|old_| - 1], new_) + Pick(read, old_[|old_| - 1], new_)
  }

  function Merge(read: Reader, old_: seq<string>, new_: string): seq<string> {
    if Replaces(read, old_, new_) then [new_] else RemoveDuplicates(Picks(read, old_, new_))
  }

  lemma ComparePick(read: Reader, o: string, new_: string)
    ensures Compare(read, o, new_).Ok? <==> SameCluster(read, o, new_)
    ensures Compare(read, o, new_) == Ok(1) ==> Pick(read, o, new_) == [o]
    ensures Compare(read, o, new_) == Ok(-1) ==> Pick(read, o, new_) == [new_]
    ensures Compare(read, o, new_) == Ok(0) ==> Pick(read, o, new_) == [o, new_]
  {
  }

  lemma PicksNext(read: Reader, old_: seq<string>, new_: string, i: nat)
    requires i < |old_|
    ensures Picks(read, old_[..i + 1], new_) == Picks(read, old_[..i], new_) + Pick(read, old_[i], new_)
  {
    hide Pick;
    assert old_[..i + 1][..i] == old_[..i];
  }

  lemma MergeCases(read: Reader, old_: seq<string>, new_: string)
    ensures Picks(read, old_[..0], new_) == []
    ensures |old_| == 0 || |old_| > 2 ==> Merge(read, old_, new_) == [new_]
    ensures forall i :: 0 <= i < |old_| && !SameCluster(read, old_[i], new_) ==> Merge(read, old_, new_) == [new_]
    ensures 1 <= |old_| <= 2 && (forall i :: 0 <= i < |old_| ==> SameCluster(read, old_[i], new_)) ==>
      Merge(read, old_, new_) == RemoveDuplicates(Picks(read, old_[..|old_|], new_))
  {
    hide Pick, SameCluster, RemoveDuplicates;
    assert old_[..|old_|] == old_;
  }

  method MergeReplicationStates(read: Reader, old_: seq<string>, new_: string) returns (r: seq<string>)
    ensures r == Merge(read, old_, new_)
  {
    hide *;
    MergeCases(read, old_, new_);
    if |old_| == 0 || |old_| > 2 {
      return [new_];
    }
    var ret := [];
    for i := 0 to |old_|
      invariant ret == Picks(read, old_[..i], new_)
      invariant forall j :: 0 <= j < i ==> SameCluster(read, old_[j], new_)
    {
      var o := old_[i];
      var cmp := Compare(read, o, new_);
      ComparePick(read, o, new_);
      if cmp.Err? {
        return [new_];
      }
      PicksNext(read, old_, new_, i);
      match cmp.value {
        case 1 => ret := ret + [o];
        case -1 => ret := ret + [new_];
        case _ => ret := ret + [o, new_];
      }
    }
    r := RemoveDuplicates(ret);
  }

  // ---- What a store looks like ----

  lemma {:induction false} PicksFrom(read: Reader, old_: seq<string>, new_: string)
    ensures forall x :: x in Picks(read, old_, new_) ==> x == new_ || x in old_
  {
    hide Dominates;
    if old_ != [] {
      PicksFrom(read, old_[..|old_| - 1], new_);
    }
  }

  lemma PicksParse(read: Reader, old_: seq<string>, new_: string)
    requires !Replaces(read, old_, new_)
    ensures Merge(read, old_, new_) == RemoveDuplicates(Picks(read, old_, new_))
    ensures forall x :: x in Picks(read, old_, new_) ==> Parses(read, x)
  {
    hide Picks, RemoveDuplicates;
    PicksFrom(read, old_, new_);
    assert SameCluster(read, old_[0], new_);
  }

  lemma PicksMembers(read: Reader, old_: seq<string>, new_: string)
    requires IgnoresSpace(read) && !Replaces(read, old_, new_)
    ensures Ascending(Merge(read, old_, new_))
    ensures forall x :: x in Picks(read, old_, new_) ==> Trim(x) in Merge(read, old_, new_)
    ensures forall y :: y in Merge(read, old_, new_) ==> exists x :: x in Picks(read, old_, new_) && y == Trim(x)
  {
    hide Trim, Merge, Picks, RemoveDuplicates, Replaces, Ascending;
    PicksParse(read, old_, new_);
    RemoveDuplicatesMeans(Picks(read, old_, new_));
  }

  lemma AscendingDistinct(s: seq<string>)
    requires Ascending(s)
    ensures forall i, j :: 0 <= i < j < |s| ==> s[i] != s[j]
  {
    forall i, j | 0 <= i < j < |s| ensures s[i] != s[j] {
      LessTotal(s[i], s[i]);
    }
  }

  /** Distinct strings drawn from a list are no more than the list. */
  lemma {:induction false} AtMost(s: seq<string>, from: seq<string>)
    requires (forall i, j :: 0 <= i < j < |s| ==> s[i] != s[j]) && forall t :: t in s ==> t in from
    ensures |s| <= |from|
  {
    if s != [] {
      var n := |s| - 1;
      assert s[n] in from;
      var k :| 0 <= k < |from| && from[k] == s[n];
      forall t | t in s[..n] ensures t in from[..k] + from[k + 1..] {
        assert t in s;
        var j :| 0 <= j < |from| && from[j] == t;
      }
      AtMost(s[..n], from[..k] + from[k + 1..]);
    }
  }

  lemma TrimKeeps(read: Reader, a: string, b: string)
    requires IgnoresSpace(read) && Parses(read, a) && Parses(read, b)
    ensures Dominates(read, Trim(a), b) <==> Dominates(read, a, b)
    ensures Dominates(read, Trim(a), Trim(b)) <==> Dominates(read, a, b)
    ensures SameCluster(read, Trim(a), Trim(b)) <==> SameCluster(read, a, b)
    ensures Incomparable(read, Trim(a), Trim(b)) <==> Incomparable(read, a, b)
    ensures Incomparable(read, Trim(a), b) <==> Incomparable(read, a, b)
  {
    hide Trim;
  }

  ghost predicate HasIncomparable(read: Reader, s: seq<string>) {
    exists i, j :: 0 <= i < |s| && 0 <= j < |s| && Incomparable(read, s[i], s[j])
  }

  /** At most three states; two are incomparable; three are of one cluster, two of them incomparable. */
  ghost predicate Shape(read: Reader, s: seq<string>) {
    && |s| <= 3
    && (|s| == 2 ==> Incomparable(read, s[0], s[1]))
    && (|s| == 3 ==> HasIncomparable(read, s) && forall i, j :: 0 <= i < |s| && 0 <= j < |s| ==> SameCluster(read, s[i], s[j]))
  }

  lemma MergeIntoOne(read: Reader, o: string, n: string)
    requires IgnoresSpace(read) && !Replaces(read, [o], n)
    ensures Shape(read, Merge(read, [o], n))
  {
    hide Trim, Dominates, Merge, Parses;
    var m := Merge(read, [o], n);
    PicksMembers(read, [o], n);
    AscendingDistinct(m);
    assert SameCluster(read, [o][0], n);
    assert Picks(read, [o], n) == Pick(read, o, n);
    TrimKeeps(read, o, n);
    TrimKeeps(read, n, o);
    AtMost(m, if Dominates(read, o, n) then [Trim(o)] else if Dominates(read, n, o) then [Trim(n)] else [Trim(o), Trim(n)]);
    assert |m| == 2 ==> m[0] in m && m[1] in m;
  }

  lemma Relations(read: Reader, a: string, b: string)
    ensures Incomparable(read, a, b) == Incomparable(read, b, a) && SameCluster(read, a, b) == SameCluster(read, b, a)
    ensures SameCluster(read, a, b) ==> SameCluster(read, a, a)
  {
  }

  lemma OneCluster(read: Reader, m: seq<string>, x: string)
    requires forall t :: t in m ==> SameCluster(read, x, t)
    ensures forall i, j :: 0 <= i < |m| && 0 <= j < |m| ==> SameCluster(read, m[i], m[j])
  {
    forall i, j | 0 <= i < |m| && 0 <= j < |m| ensures SameCluster(read, m[i], m[j]) {
      assert m[i] in m && m[j] in m;
    }
  }

  /** The stored state is kept when the new one is merged. */
  predicate Stays(read: Reader, o: string, n: string) {
    Dominates(read, o, n) || !Dominates(read, n, o)
  }

  lemma PickedBy(read: Reader, o: string, n: string)
    ensures forall x :: x in Pick(read, o, n) ==> x == n || (x == o && Stays(read, o, n))
    ensures Stays(read, o, n) ==> o in Pick(read, o, n)
    ensures !Dominates(read, o, n) ==> n in Pick(read, o, n)
  {
  }

  lemma PicksOfTwo(read: Reader, a: string, b: string, n: string)
    ensures Picks(read, [a, b], n) == Pick(read, a, n) + Pick(read, b, n)
    ensures !Replaces(read, [a, b], n) ==> SameCluster(read, a, n) && SameCluster(read, b, n)
  {
    hide Pick, SameCluster;
    var old_ := [a, b];
    assert old_[..1] == [a] && [a][..0] == [];
    assert Picks(read, [a], n) == Pick(read, a, n);
    assert old_[0] == a && old_[1] == b;
  }

  lemma TwoMembers(read: Reader, a: string, b: string, n: string)
    requires IgnoresSpace(read) && !Replaces(read, [a, b], n)
    ensures var m := Merge(read, [a, b], n);
      && Ascending(m) && SameCluster(read, a, n) && SameCluster(read, b, n)
      && (Stays(read, a, n) ==> Trim(a) in m) && (Stays(read, b, n) ==> Trim(b) in m)
      && (!Dominates(read, a, n) ==> Trim(n) in m)
      && forall y :: y in m ==> y == Trim(n) || (y == Trim(a) && Stays(read, a, n)) || (y == Trim(b) && Stays(read, b, n))
  {
    hide *;
    PicksMembers(read, [a, b], n);
    PicksOfTwo(read, a, b, n);
    PickedBy(read, a, n);
    PickedBy(read, b, n);
  }

  /** One of two stored states gives way to the new one. */
  lemma MergeGivesWay(read: Reader, a: string, b: string, n: string, m: seq<string>)
    requires IgnoresSpace(read) && Incomparable(read, a, b)
    requires SameCluster(read, a, n) && SameCluster(read, b, n) && !Stays(read, a, n)
    requires Ascending(m) && forall y :: y in m ==> y == Trim(n) || (y == Trim(b) && Stays(read, b, n))
    ensures Shape(read, m)
  {
    hide Trim;
    AscendingDistinct(m);
    assert !Dominates(read, b, n);
    TrimKeeps(read, b, n);
    AtMost(m, [Trim(b), Trim(n)]);
    assert |m| == 2 ==> m[0] in m && m[1] in m;
  }

  lemma NotIncomparable(read: Reader, a: string)
    ensures !Incomparable(read, a, a)
  {
  }

  /** Both stored states stay. */
  lemma MergeStays(read: Reader, a: string, b: string, n: string, m: seq<string>)
    requires IgnoresSpace(read) && Incomparable(read, a, b) && SameCluster(read, a, b) && SameCluster(read, a, n)
    requires Parses(read, a) && Parses(read, b) && Parses(read, n)
    requires Ascending(m) && Trim(a) in m && Trim(b) in m
    requires forall y :: y in m ==> y == Trim(a) || y == Trim(b) || y == Trim(n)
    ensures Shape(read, m)
  {
    hide Trim, Parses, Dominates, SameCluster, Incomparable;
    AscendingDistinct(m);
    TrimKeeps(read, a, b);
    TrimKeeps(read, a, n);
    Relations(read, Trim(a), Trim(b));
    OneCluster(read, m, Trim(a));
    AtMost(m, [Trim(a), Trim(b), Trim(n)]);
    var i :| 0 <= i < |m| && m[i] == Trim(a);
    var j :| 0 <= j < |m| && m[j] == Trim(b);
    assert Incomparable(read, m[i], m[j]) && Incomparable(read, m[j], m[i]);
    NotIncomparable(read, Trim(a));
  }

  lemma MergeIntoTwo(read: Reader, a: string, b: string, n: string)
    requires IgnoresSpace(read) && Incomparable(read, a, b) && !Replaces(read, [a, b], n)
    ensures Shape(read, Merge(read, [a, b], n))
  {
    hide Trim, Merge, Shape, Replaces, Stays, Ascending, Dominates;
    var m := Merge(read, [a, b], n);
    TwoMembers(read, a, b, n);
    Relations(read, a, b);
    if !Stays(read, a, n) {
      MergeGivesWay(read, a, b, n, m);
    } else if !Stays(read, b, n) {
      MergeGivesWay(read, b, a, n, m);
    } else {
      MergeStays(read, a, b, n, m);
    }
  }

  lemma MergeShape(read: Reader, store: seq<string>, n: string)
    requires IgnoresSpace(read) && Shape(read, store)
    ensures Shape(read, Merge(read, store, n))
  {
    hide Trim, Dominates, Incomparable, SameCluster;
    if !Replaces(read, store, n) {
      if |store| == 1 {
        assert store == [store[0]];
        MergeIntoOne(read, store[0], n);
      } else {
        assert store == [store[0], store[1]];
        MergeIntoTwo(read, store[0], store[1], n);
      }
    }
  }

  /** What a merge that does not replace the store holds: each stored state, unless the new one is newer, and the new one,
      unless every stored state is at least as new. */
  lemma MergeExact(read: Reader, old_: seq<string>, n: string, y: string)
    requires IgnoresSpace(read) && !Replaces(read, old_, n)
    ensures y in Merge(read, old_, n) <==>
      || (exists o :: o in old_ && y == Trim(o) && (Dominates(read, o, n) || !Dominates(read, n, o)))
      || (y == Trim(n) && exists o :: o in old_ && !Dominates(read, o, n))
  {
    hide Trim, Merge, Dominates, Replaces;
    PicksMembers(read, old_, n);
    PicksExact(read, old_, n);
  }

  lemma {:induction false} PicksExact(read: Reader, old_: seq<string>, n: string)
    ensures forall x :: x in Picks(read, old_, n) <==>
      || (x in old_ && (Dominates(read, x, n) || !Dominates(read, n, x)))
      || (x == n && exists o :: o in old_ && !Dominates(read, o, n))
  {
    hide Dominates;
    if old_ != [] {
      var last := old_[|old_| - 1];
      PicksExact(read, old_[..|old_| - 1], n);
      assert old_ == old_[..|old_| - 1] + [last];
      assert forall x :: x in Pick(read, last, n) <==>
        (x == last && (Dominates(read, x, n) || !Dominates(read, n, x))) || (x == n && !Dominates(read, last, n));
      assert (exists o :: o in old_ && !Dominates(read, o, n)) <==>
        !Dominates(read, last, n) || exists o :: o in old_[..|old_| - 1] && !Dominates(read, o, n);
    }
  }

  // ---- What a store covers ----

  /** Requiring `t` is enough for `s`. */
  predicate Covers(read: Reader, t: string, s: string) {
    t == s || Dominates(read, t, s)
  }

  ghost predicate Covered(read: Reader, store: seq<string>, s: string) {
    exists i :: 0 <= i < |store| && Covers(read, store[i], s)
  }

  lemma CoversTransitive(read: Reader, a: string, b: string, s: string)
    requires Covers(read, a, b) && Covers(read, b, s)
    ensures Covers(read, a, s)
  {
  }

  lemma {:induction false} PicksDominate(read: Reader, old_: seq<string>, n: string, k: nat)
    requires k < |old_| && SameCluster(read, old_[k], n)
    ensures exists x :: x in Picks(read, old_, n) && Dominates(read, x, old_[k])
    ensures exists x :: x in Picks(read, old_, n) && Dominates(read, x, n)
  {
    var last := |old_| - 1;
    if k < last {
      PicksDominate(read, old_[..last], n, k);
    } else {
      var o := old_[k];
      var x := if Dominates(read, o, n) || !Dominates(read, n, o) then o else n;
      assert x in Pick(read, o, n) && Dominates(read, x, o);
      var y := if Dominates(read, o, n) then o else n;
      assert y in Pick(read, o, n) && Dominates(read, y, n);
    }
  }

  /** Merging without replacement covers the new state and all that was covered. */
  lemma MergeCovers(read: Reader, store: seq<string>, n: string, s: string)
    requires IgnoresSpace(read) && !Replaces(read, store, n) && (s == n || Covered(read, store, s))
    ensures Covered(read, Merge(read, store, n), s)
  {
    hide Trim, Merge, Pick, Picks, Ascending;
    PicksMembers(read, store, n);
    var k: nat :| k < |store| && (s == n || Covers(read, store[k], s));
    PicksDominate(read, store, n, k);
    var target := if s == n then n else store[k];
    var x :| x in Picks(read, store, n) && Dominates(read, x, target);
    TrimKeeps(read, x, target);
    CoversTransitive(read, Trim(x), target, s);
    assert Trim(x) in Merge(read, store, n);
  }

  /** Recording a state loses no coverage exactly when the store is not replaced, or what replaces it covers all of it. */
  lemma CoverageKeptIff(read: Reader, store: seq<string>, n: string)
    requires IgnoresSpace(read)
    ensures (forall s :: Covered(read, store, s) ==> Covered(read, Merge(read, store, n), s)) <==>
      !Replaces(read, store, n) || forall i :: 0 <= i < |store| ==> Covers(read, n, store[i])
  {
    hide Trim, Dominates, RemoveDuplicates, Picks, SameCluster;
    if !Replaces(read, store, n) {
      forall s | Covered(read, store, s) ensures Covered(read, Merge(read, store, n), s) {
        MergeCovers(read, store, n, s);
      }
    } else {
      assert Merge(read, store, n) == [n];
      forall s | Covered(read, store, s) && forall i :: 0 <= i < |store| ==> Covers(read, n, store[i])
        ensures Covered(read, [n], s)
      {
        var i :| 0 <= i < |store| && Covers(read, store[i], s);
        assert Covers(read, n, store[i]);
        CoversTransitive(read, n, store[i], s);
        assert Covers(read, [n][0], s);
      }
      forall i | 0 <= i < |store| && Covered(read, [n], store[i]) ensures Covers(read, n, store[i]) {
      }
      assert forall i :: 0 <= i < |store| ==> Covers(read, store[i], store[i]);
    }
  }

  /** A state of another cluster drops what the store covered. */
  lemma CoverageLost(read: Reader, a: string, b: string)
    requires Parses(read, a) && Parses(read, b) && read(a).value.cluster != read(b).value.cluster
    ensures Covered(read, [a], a) && Merge(read, [a], b) == [b] && !Covered(read, [b], a)
  {
    assert !SameCluster(read, [a][0], b) && Covers(read, [a][0], a);
  }

  // ---- Runs ----

  /** A store, and the states recorded since it was last replaced outright, the replacing one first. */
  datatype Log = Log(store: seq<string>, since: seq<string>)

  function Record(read: Reader, log: Log, header: string): Log {
    if header == "" then log
    else if Replaces(read, log.store, header) then Log([header], [header])
    else Log(Merge(read, log.store, header), log.since + [header])
  }

  function RunOf(read: Reader, headers: seq<string>): Log {
    if headers == [] then Log([], []) else Record(read, RunOf(read, headers[..|headers| - 1]), headers[|headers| - 1])
  }

  /** `t` is a recorded state, or one that parses with its surrounding white space removed. */
  predicate Recorded(read: Reader, t: string, s: string) {
    t == s || (Parses(read, s) && t == Trim(s))
  }

  ghost predicate LogInv(read: Reader, log: Log) {
    && Shape(read, log.store)
    && (forall s :: s in log.since ==> Covered(read, log.store, s))
    && (forall t :: t in log.store ==> exists s :: s in log.since && Recorded(read, t, s))
  }

  lemma PicksRecorded(read: Reader, store: seq<string>, n: string, y: string)
    requires IgnoresSpace(read) && !Replaces(read, store, n) && y in Merge(read, store, n)
    ensures exists x :: (x == n || x in store) && Parses(read, x) && y == Trim(x)
  {
    hide Trim, Dominates;
    PicksMembers(read, store, n);
    PicksFrom(read, store, n);
  }

  lemma StepInv(read: Reader, log: Log, header: string)
    requires IgnoresSpace(read) && LogInv(read, log)
    ensures LogInv(read, Record(read, log, header))
  {
    hide Trim, Dominates, SameCluster, RemoveDuplicates, Picks;
    var next := Record(read, log, header);
    if header == "" {
    } else if Replaces(read, log.store, header) {
      assert Covers(read, next.store[0], header);
    } else {
      MergeShape(read, log.store, header);
      forall s | s in next.since ensures Covered(read, next.store, s) {
        MergeCovers(read, log.store, header, s);
      }
      forall t | t in next.store ensures exists s :: s in next.since && Recorded(read, t, s) {
        PicksRecorded(read, log.store, header, t);
        var x :| (x == header || x in log.store) && Parses(read, x) && t == Trim(x);
        if x == header {
          assert header in next.since && Recorded(read, t, header);
        } else {
          var s :| s in log.since && Recorded(read, x, s);
          TrimTwice(s);
          assert s in next.since && Recorded(read, t, s);
        }
      }
    }
  }

  /** The new state takes the place of whatever was stored: nothing was, three states were, or one of them cannot be read
      together with it as states of one cluster. */
  ghost predicate TakesOver(read: Reader, store: seq<string>, h: string) {
    || |store| == 0 || |store| > 2
    || exists t :: t in store && !(read(t).Some? && read(h).Some? && read(t).value.cluster == read(h).value.cluster)
  }

  /** What a response does to the store, whatever it held. */
  lemma RecordMeans(read: Reader, log: Log, h: string)
    requires IgnoresSpace(read)
    ensures h == "" ==> Record(read, log, h) == log
    ensures h != "" ==> Record(read, log, h).since != [] && Record(read, log, h).since[|Record(read, log, h).since| - 1] == h
    ensures h != "" ==> Covered(read, Record(read, log, h).store, h)
    ensures h != "" && TakesOver(read, log.store, h) ==> Record(read, log, h) == Log([h], [h])
    ensures h != "" && !TakesOver(read, log.store, h) ==> Record(read, log, h).since == log.since + [h]
    ensures h != "" && !TakesOver(read, log.store, h) ==>
      forall s :: Covered(read, log.store, s) ==> Covered(read, Record(read, log, h).store, s)
  {
    hide Merge, Trim;
    var next := Record(read, log, h);
    assert Replaces(read, log.store, h) <==> TakesOver(read, log.store, h);
    if h == "" {
    } else if Replaces(read, log.store, h) {
      assert Covers(read, next.store[0], h);
    } else {
      MergeCovers(read, log.store, h, h);
      forall s | Covered(read, log.store, s) ensures Covered(read, next.store, s) {
        MergeCovers(read, log.store, h, s);
      }
    }
  }

  /** The same at the end of every sequence of responses. */
  lemma RunRecords(read: Reader, headers: seq<string>, h: string)
    requires IgnoresSpace(read) && h != ""
    ensures var was, now := RunOf(read, headers), RunOf(read, headers + [h]);
      && now.since != [] && now.since[|now.since| - 1] == h && Covered(read, now.store, h)
      && (TakesOver(read, was.store, h) ==> now.store == [h])
      && (!TakesOver(read, was.store, h) ==> forall s :: Covered(read, was.store, s) ==> Covered(read, now.store, s))
  {
    hide Record, TakesOver, Covered;
    assert (headers + [h])[..|headers|] == headers;
    RecordMeans(read, RunOf(read, headers), h);
  }

  /** After every sequence of responses: at most three stored states, of the shapes above, and every state recorded
      since the last outright replacement is covered by a stored one. */
  lemma {:induction false} RunInv(read: Reader, headers: seq<string>)
    requires IgnoresSpace(read)
    ensures LogInv(read, RunOf(read, headers))
  {
    if headers != [] {
      RunInv(read, headers[..|headers| - 1]);
      StepInv(read, RunOf(read, headers[..|headers| - 1]), headers[|headers| - 1]);
    }
  }

  /** The record after three states leaves one. */
  lemma ThreeCollapse(read: Reader, headers: seq<string>, header: string)
    requires |RunOf(read, headers).store| == 3 && header != ""
    ensures RunOf(read, headers + [header]) == Log([header], [header])
  {
  }

  /** A state that is incomparable to the only one stored joins it. */
  lemma SecondJoins(read: Reader, a: string, b: string)
    requires IgnoresSpace(read) && Incomparable(read, a, b)
    ensures !Replaces(read, [a], b)
    ensures var m := Merge(read, [a], b); m == [Trim(a), Trim(b)] || m == [Trim(b), Trim(a)]
  {
    hide Trim, Merge, Dominates, RemoveDuplicates;
    var m, pair := Merge(read, [a], b), [Trim(a), Trim(b)];
    assert [a][..0] == [] && Picks(read, [a], b) == [a, b];
    PicksMembers(read, [a], b);
    AscendingDistinct(m);
    TrimKeeps(read, a, b);
    NotIncomparable(read, Trim(a));
    AtMost(pair, m);
    AtMost(m, pair);
    assert m[0] in m && m[1] in m;
  }

  /** A state that is incomparable to both of the two stored joins them. */
  lemma ThirdJoins(read: Reader, a: string, b: string, n: string)
    requires IgnoresSpace(read) && Incomparable(read, a, b) && Incomparable(read, a, n) && Incomparable(read, b, n)
    ensures !Replaces(read, [a, b], n) && |Merge(read, [a, b], n)| == 3
  {
    hide Trim, Merge;
    var m := Merge(read, [a, b], n);
    TwoMembers(read, a, b, n);
    MergeIntoTwo(read, a, b, n);
    TrimKeeps(read, a, b);
    TrimKeeps(read, a, n);
    TrimKeeps(read, b, n);
    NotIncomparable(read, Trim(a));
    NotIncomparable(read, Trim(b));
    AtMost([Trim(a), Trim(b), Trim(n)], m);
  }

  /** Three mutually incomparable states fill the store, whatever they are; the next state, whatever it is, takes their
      place, and covers only what it dominates. */
  lemma ThreeReached(read: Reader, a: string, b: string, c: string, d: string)
    requires IgnoresSpace(read) && Incomparable(read, a, b) && Incomparable(read, a, c) && Incomparable(read, b, c) && d != ""
    ensures |RunOf(read, [a, b, c]).store| == 3 && RunOf(read, [a, b, c]).since == [a, b, c]
    ensures RunOf(read, [a, b, c, d]) == Log([d], [d])
    ensures forall s :: Covered(read, [d], s) <==> Covers(read, d, s)
  {
    hide Merge, Dominates, IsSpace;
    var headers := [a, b, c, d];
    assert headers[..3] == [a, b, c] && headers[..3][..2] == [a, b] && [a, b][..1] == [a] && [a][..0] == [];
    assert a != "" && b != "" && c != "" by {
      BlankIsNoState(read);
    }
    assert RunOf(read, [a]) == Log([a], [a]);
    SecondJoins(read, a, b);
    var two := Merge(read, [a], b);
    assert RunOf(read, [a, b]) == Log(two, [a, b]);
    TrimKeeps(read, a, b);
    TrimKeeps(read, a, c);
    TrimKeeps(read, b, c);
    Relations(read, Trim(a), Trim(b));
    ThirdJoins(read, two[0], two[1], c);
    assert RunOf(read, [a, b, c]) == Log(Merge(read, two, c), [a, b, c]);
    assert forall s :: Covers(read, [d][0], s) == Covers(read, d, s);
  }

  lemma BlankIsNoState(read: Reader)
    requires IgnoresSpace(read)
    ensures read("").None?
  {
    assert Trim("") == "";
  }

  /** So (1, 3), (2, 2) and (3, 1) of one cluster are all dropped by (2, 1) of the same cluster, which is older than two
      of them. */
  lemma LostWithinCluster(read: Reader, k: string, a: string, b: string, c: string, d: string)
    requires IgnoresSpace(read) && read(a) == Some(WalState(k, 1, 3)) && read(b) == Some(WalState(k, 2, 2))
    requires read(c) == Some(WalState(k, 3, 1)) && read(d) == Some(WalState(k, 2, 1))
    ensures forall s :: s in [a, b, c] ==> Covered(read, RunOf(read, [a, b, c]).store, s)
    ensures RunOf(read, [a, b, c, d]).store == [d] && forall s :: s in [a, b, c] ==> !Covered(read, [d], s)
  {
    hide Record, Trim;
    BlankIsNoState(read);
    ThreeReached(read, a, b, c, d);
    RunInv(read, [a, b, c]);
  }

  ghost predicate Chain(read: Reader, states: seq<string>) {
    forall i, j :: 0 <= i < |states| && 0 <= j < |states| && i != j ==>
      Dominates(read, states[i], states[j]) || Dominates(read, states[j], states[i])
  }

  lemma RecordedIncomparable(read: Reader, x: string, y: string, a: string, b: string)
    requires IgnoresSpace(read) && Incomparable(read, x, y) && Recorded(read, x, a) && Recorded(read, y, b)
    ensures Incomparable(read, a, b) && a != b
  {
    hide Trim;
  }

  /** While the states recorded since the last replacement form a chain, the store is its one maximum. */
  lemma RunChain(read: Reader, headers: seq<string>)
    requires IgnoresSpace(read)
    ensures var log := RunOf(read, headers);
      log.since != [] && Chain(read, log.since) ==>
        && |log.store| == 1
        && (forall s :: s in log.since ==> Covers(read, log.store[0], s))
        && (exists s :: s in log.since && Recorded(read, log.store[0], s))
  {
    hide Trim, Dominates, Incomparable, SameCluster, Record;
    RunInv(read, headers);
    var log := RunOf(read, headers);
    if log.since != [] && Chain(read, log.since) {
      assert log.since[0] in log.since;
      if |log.store| >= 2 {
        var i, j :| 0 <= i < |log.store| && 0 <= j < |log.store| && Incomparable(read, log.store[i], log.store[j]);
        ChainComparable(read, log, i, j);
        assert false;
      }
      assert log.store[0] in log.store;
    }
  }

  lemma ChainComparable(read: Reader, log: Log, i: int, j: int)
    requires IgnoresSpace(read) && LogInv(read, log) && Chain(read, log.since) && 0 <= i < |log.store| && 0 <= j < |log.store|
    ensures !Incomparable(read, log.store[i], log.store[j])
  {
    hide Trim, Shape, Covered;
    if Incomparable(read, log.store[i], log.store[j]) {
      assert log.store[i] in log.store && log.store[j] in log.store;
      var a :| a in log.since && Recorded(read, log.store[i], a);
      var b :| b in log.since && Recorded(read, log.store[j], b);
      RecordedIncomparable(read, log.store[i], log.store[j], a, b);
    }
  }

  // ---- The store ----

  class ReplicationStateStore {
    const read: Reader
    var store: seq<string>
    ghost var since: seq<string>

    ghost predicate Valid()
      reads this
    {
      IgnoresSpace(read) && LogInv(read, Log(store, since))
    }

    constructor (read: Reader)
      requires IgnoresSpace(read)
      ensures Valid() && this.read == read && Log(store, since) == RunOf(read, [])
    {
      this.read, store, since := read, [], [];
    }

    /** recordState, given the index header of a response ("" when it has none). */
    method RecordState(newState: string)
      requires Valid()
      modifies this
      ensures Valid() && Log(store, since) == Record(read, old(Log(store, since)), newState)
      ensures newState == "" ==> store == old(store)
      ensures newState != "" ==> since != [] && since[|since| - 1] == newState && Covered(read, store, newState)
      ensures newState != "" && TakesOver(read, old(store), newState) ==> store == [newState]
      ensures newState != "" && !TakesOver(read, old(store), newState) ==>
        forall s :: Covered(read, old(store), s) ==> Covered(read, store, s)
    {
      hide Shape, Covered, Recorded, IgnoresSpace, RemoveDuplicates, Picks, TakesOver;
      RecordMeans(read, Log(store, since), newState);
      StepInv(read, Log(store, since), newState);
      if newState != "" {
        since := Record(read, Log(store, since), newState).since;
        store := MergeReplicationStates(read, store, newState);
      }
    }

    /** requireState: every stored state is required, after whatever the request requires already. */
    method RequireState(headers: seq<string>) returns (r: seq<string>)
      ensures r == headers + store
    {
      r := headers;
      for i := 0 to |store|
        invariant r == headers + store[..i]
      {
        r := r + [store[i]];
      }
      assert store[..|store|] == store;
    }
  }
}
