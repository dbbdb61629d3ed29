/** Any number of formatter nodes over one event (audit/entry_formatter.go, Process and createEntry). */
module FormatterNodes {
  import opened Basics
  import opened DataTree
  import opened HashWalker
  import opened HashData
  import opened EntryData
  import opened AuditRecords
  import opened EntryFormatter
  import AuditHeaders

  /** A formatter node with its own configuration, audited headers and salt. */
  datatype Node = Node(cfg: Config, config: AuditHeaders.HeadersConfig, salt: Option<Salt>, jwt: string -> Option<string>)

  /** The two sides of an entry, and all that a node formats: these and the request's headers. */
  datatype Sides = Sides(request: ReqView, response: Option<RespView>)
  datatype View = View(sides: Sides, headers: map<string, seq<string>>)

  // ---- What is left of the event after some nodes ----

  lemma AfterGood(n: Node, ev: Event, s: Shapes)
    requires Good(s.suppReq) && Good(s.suppResp)
    ensures var t := EventAfter(n.cfg, n.salt, ev, s);
      && Good(t.suppReq) && Good(t.suppResp)
      && FootOf(t.suppReq) == FootOf(s.suppReq) && FootOf(t.suppResp) == FootOf(s.suppResp)
      && t.reqData == s.reqData && t.respData == s.respData && SharedWithCaller(t) == SharedWithCaller(s)
  {
    if n.salt.Some? {
      if s.suppReq.Some? {
        NestedUnshared(n.salt.value, ev.nonHMACReqDataKeys, s.suppReq.value);
      }
      if s.suppResp.Some? {
        HashedShapeProps(n.salt.value, ev.nonHMACRespDataKeys, s.suppResp.value);
      }
    }
  }

  /** What the event holds once every node of `nodes` has created its entry, in that order. */
  ghost function AfterAll(nodes: seq<Node>, ev: Event, s: Shapes): (t: Shapes)
    requires Good(s.suppReq) && Good(s.suppResp)
    ensures Good(t.suppReq) && Good(t.suppResp)
    ensures t.reqData == s.reqData && t.respData == s.respData && SharedWithCaller(t) == SharedWithCaller(s)
  {
    if nodes == [] then s
    else
      var n, before := nodes[|nodes| - 1], AfterAll(nodes[..|nodes| - 1], ev, s);
      AfterGood(n, ev, before);
      EventAfter(n.cfg, n.salt, ev, before)
  }

  lemma AfterNone(nodes: seq<Node>, ev: Event, s: Shapes)
    requires Good(s.suppReq) && Good(s.suppResp)
    ensures AfterAll(nodes[..0], ev, s) == s && nodes[..|nodes|] == nodes
  {
  }

  lemma AfterNext(nodes: seq<Node>, i: nat, ev: Event, s: Shapes)
    requires i < |nodes| && Good(s.suppReq) && Good(s.suppResp)
    ensures AfterAll(nodes[..i + 1], ev, s) == EventAfter(nodes[i].cfg, nodes[i].salt, ev, AfterAll(nodes[..i], ev, s))
    ensures EventApart(s) ==> EventApart(AfterAll(nodes[..i + 1], ev, s))
  {
    hide EventAfter, Good;
    assert nodes[..i + 1][..i] == nodes[..i];
  }

  // ---- When a node leaves the event as it was ----

  lemma {:induction false} HashShapeSettled(h: Hasher, key: Option<string>, sh: Shape)
    requires Settled(h, key, Abs(sh))
    ensures HashShape(h, key, sh) == sh
    decreases sh
  {
    match sh
    case LeafShape(_) =>
    case MapShape(_, _, kids, _) =>
      forall k | k in kids ensures HashShape(h, Some(KeyName(k)), kids[k]) == kids[k] {
        assert Abs(sh).kids[k] == Abs(kids[k]);
        HashShapeSettled(h, Some(KeyName(k)), kids[k]);
      }
      assert HashShape(h, key, sh).kids == kids;
    case SliceShape(_, _, items, _) =>
      forall i | 0 <= i < |items| ensures HashShape(h, key, items[i]) == items[i] {
        assert Abs(sh).items[i] == Abs(items[i]);
        HashShapeSettled(h, key, items[i]);
      }
      assert HashShape(h, key, sh).items == items;
  }

  lemma HashShapeFixed(h: Hasher, key: Option<string>, sh: Shape)
    ensures HashShape(h, key, sh) == sh <==> Settled(h, key, Abs(sh))
  {
    HashShapeAbs(h, key, sh);
    HashTreeFixed(h, key, Abs(sh));
    if Settled(h, key, Abs(sh)) {
      HashShapeSettled(h, key, sh);
    }
  }

  /** Everything nested in the map is already its own hash. */
  ghost predicate NestedSettled(salt: Salt, ignored: seq<string>, t: Tree)
    requires t.MapTree?
  {
    forall k :: k in t.kids && !t.kids[k].LeafTree? ==> Settled(HasherOf(salt, ignored), Some(KeyName(k)), t.kids[k])
  }

  lemma NestedFixed(salt: Salt, ignored: seq<string>, sh: Shape)
    requires sh.MapShape?
    ensures NestedHashed(salt, ignored, sh) == sh <==> NestedSettled(salt, ignored, Abs(sh))
  {
    var h, r, t := HasherOf(salt, ignored), NestedHashed(salt, ignored, sh).kids, Abs(sh).kids;
    forall k | k in sh.kids ensures r[k] == sh.kids[k] <==> t[k].LeafTree? || Settled(h, Some(KeyName(k)), t[k]) {
      HashShapeFixed(h, Some(KeyName(k)), sh.kids[k]);
    }
    assert r == sh.kids <==> forall k :: k in sh.kids ==> r[k] == sh.kids[k];
  }

  lemma HashedShapeFixed(salt: Salt, ignored: seq<string>, sh: Shape)
    requires sh.MapShape? && Unshared(sh)
    ensures HashedShape(salt, ignored, sh) == sh <==> SettledData(salt, ignored, Abs(sh))
  {
    HashedShapeProps(salt, ignored, sh);
    HashedDataFixed(salt, ignored, Abs(sh));
    if SettledData(salt, ignored, Abs(sh)) {
      forall k | k in sh.kids ensures MarshalShape(salt, sh).kids[k] == sh.kids[k] {
        assert Abs(sh).kids[k] == Abs(sh.kids[k]);
      }
      assert MarshalShape(salt, sh).kids == sh.kids;
      HashShapeFixed(HasherOf(salt, ignored), None, sh);
    }
  }

  /** The node has nothing to hash in the supplemental data it shares with the caller. */
  ghost predicate EventSettled(n: Node, ev: Event, s: Shapes)
    requires Good(s.suppReq) && Good(s.suppResp)
  {
    n.cfg.raw || !ev.isResponse || n.salt.None? ||
    (&& (s.suppReq.Some? ==> NestedSettled(n.salt.value, ev.nonHMACReqDataKeys, Abs(s.suppReq.value)))
     && (s.suppResp.Some? ==> SettledData(n.salt.value, ev.nonHMACRespDataKeys, Abs(s.suppResp.value))))
  }

  /** A node leaves the caller's event as it was exactly when it has nothing to hash in the shared data. */
  lemma EventUnchanged(n: Node, ev: Event, s: Shapes)
    requires Good(s.suppReq) && Good(s.suppResp)
    ensures EventAfter(n.cfg, n.salt, ev, s) == s <==> EventSettled(n, ev, s)
  {
    if n.salt.Some? {
      if s.suppReq.Some? {
        NestedFixed(n.salt.value, ev.nonHMACReqDataKeys, s.suppReq.value);
      }
      if s.suppResp.Some? {
        HashedShapeFixed(n.salt.value, ev.nonHMACRespDataKeys, s.suppResp.value);
      }
    }
  }

  lemma {:induction false} AllUnchanged(nodes: seq<Node>, ev: Event, s: Shapes)
    requires Good(s.suppReq) && Good(s.suppResp)
    requires forall i :: 0 <= i < |nodes| ==> EventSettled(nodes[i], ev, s)
    ensures AfterAll(nodes, ev, s) == s
  {
    if nodes != [] {
      AllUnchanged(nodes[..|nodes| - 1], ev, s);
      EventUnchanged(nodes[|nodes| - 1], ev, s);
    }
  }

  /** An event whose supplemental data holds no shared container is settled for every node. */
  lemma NothingShared(n: Node, ev: Event, s: Shapes)
    requires Good(s.suppReq) && Good(s.suppResp) && SharedWithCaller(s) == {}
    ensures EventSettled(n, ev, s)
  {
    if s.suppReq.Some? {
      var kids := s.suppReq.value.kids;
      assert forall k :: k in kids ==> Unshared(kids[k]) && Foot(kids[k]) <= SharedWithCaller(s);
      assert forall k :: k in kids && !kids[k].LeafShape? ==> kids[k].c in Foot(kids[k]);
    }
  }

  /** No container is shared with the caller, or none that any of the nodes would change. */
  ghost predicate Undisturbed(nodes: seq<Node>, ev: Event, s: Shapes)
    requires Good(s.suppReq) && Good(s.suppResp)
  {
    SharedWithCaller(s) == {} || forall i :: 0 <= i < |nodes| ==> EventSettled(nodes[i], ev, s)
  }

  /** Then every node finds the event as the first one did. */
  lemma SameRawValues(nodes: seq<Node>, ev: Event, s: Shapes)
    requires Good(s.suppReq) && Good(s.suppResp) && Undisturbed(nodes, ev, s)
    ensures forall i :: 0 <= i <= |nodes| ==> AfterAll(nodes[..i], ev, s) == s
  {
    forall i | 0 <= i <= |nodes| ensures AfterAll(nodes[..i], ev, s) == s {
      forall j | 0 <= j < i && SharedWithCaller(s) == {} ensures EventSettled(nodes[j], ev, s) {
        NothingShared(nodes[j], ev, s);
      }
      AllUnchanged(nodes[..i], ev, s);
    }
  }

  // ---- The nodes ----

  /** What the event says besides its data maps. */
  datatype Given = Given(
    request: Result<ReqView>, isList: bool, response: Option<Result<Option<AuthView>>>, wrapInfo: Option<WrapInfo>,
    headers: map<string, seq<string>>)

  ghost function HeadersIn(ev: Event): AuditHeaders.HeaderMap?
    reads ev.request
  {
    if ev.request == null then null else ev.request.headers
  }

  ghost function GivenOf(ev: Event): Given
    reads ev.request, ev.auth, if ev.auth == null then null else ev.auth.metadata
    reads ev.response, if ev.response == null then null else ev.response.auth
    reads if ev.response == null || ev.response.auth == null then null else ev.response.auth.metadata
    reads HeadersIn(ev), AuditHeaders.EntriesOf(HeadersIn(ev)).Values
  {
    Given(RawReq(ev, Shapes(None, None, None, None)),
          ev.request != null && ev.request.isList,
          if !ev.isResponse || ev.response == null || ev.request == null then None
          else Some(AuthMerged(ev.response.auth, ev.request.clientTokenRemainingUses, ev.request.enterprise)),
          if ev.response == null then None else ev.response.wrapInfo,
          AuditHeaders.LinesOf(HeadersIn(ev)))
  }

  ghost function ReqFrom(g: Given, ev: Event, s: Shapes): Result<ReqView> {
    if g.request.Err? then g.request
    else Ok(g.request.value.(data := TreeOf(s.reqData), supplemental := if ev.isResponse then TreeOf(s.suppReq) else None))
  }

  ghost function RespFrom(n: Node, g: Given, s: Shapes): Result<Option<RespView>> {
    if g.response.None? then Ok(None)
    else if g.response.value.Err? then Err(g.response.value.error)
    else Ok(Some(RespView(g.response.value.value, ElidedTree(n.cfg.elideListResponses && g.isList, TreeOf(s.respData)),
                          Unwrapped(n.jwt, g.wrapInfo), TreeOf(s.suppResp))))
  }

  lemma RawFrom(n: Node, ev: Event, s: Shapes)
    ensures RawReq(ev, s) == ReqFrom(GivenOf(ev), ev, s)
    ensures RawRespOpt(n.cfg, n.jwt, ev, s) == RespFrom(n, GivenOf(ev), s)
  {
  }

  /** What a node's entry says of request and response, from an event that holds `s`. */
  ghost function Seen(n: Node, g: Given, ev: Event, s: Shapes): Result<Sides> {
    var req, resp := ReqFrom(g, ev, s), RespFrom(n, g, s);
    if req.Err? then Err(req.error)
    else if resp.Err? then Err(resp.error)
    else Ok(Sides(FinalReq(n.cfg, n.salt, ev, req.value), FinalResp(n.cfg, n.salt, ev, resp.value)))
  }

  /** The node, with these header settings, formats that and the headers so configured. */
  ghost predicate Shows(n: Node, settings: AuditHeaders.Settings, g: Given, ev: Event, s: Shapes, view: Result<View>) {
    && view.Ok? && Seen(n, g, ev, s) == Ok(view.value.sides)
    && AuditHeaders.Applied(settings, g.headers, HmacOf(n.salt), view.value.headers)
  }

  /** A node with a salt can format an event that holds `s`. */
  ghost predicate Formats(n: Node, g: Given, ev: Event, s: Shapes)
    requires n.salt.Some?
  {
    var req, resp := ReqFrom(g, ev, s), RespFrom(n, g, s);
    req.Ok? && resp.Ok? && (n.cfg.raw || ViewsMarshal(n.salt.value, req.value, resp.value))
  }

  lemma GivenHeaders(n: Node, ev: Event, to: AuditHeaders.HeaderMap?)
    requires ev.request != null && HeadersApplied(n.config, n.salt, ev.request.headers, to)
    ensures AuditHeaders.Applied(n.config.headerSettings, GivenOf(ev).headers, HmacOf(n.salt), AuditHeaders.LinesOf(to))
  {
  }

  /** The records of an entry, with data of these shapes, say that. */
  ghost predicate Records(e: Entry, out: Shapes, view: Result<View>)
    reads e.auth, if e.auth == null then null else e.auth.metadata
    reads e.request, e.request.headers, AuditHeaders.EntriesOf(e.request.headers).Values
    reads e.response, if e.response == null then null else e.response.auth
    reads if e.response == null || e.response.auth == null then null else e.response.auth.metadata
  {
    view == Ok(View(Sides(EntryReq(e, out), EntryResp(e, out)), AuditHeaders.LinesOf(e.request.headers)))
  }

  lemma EntryAllocated(e: Entry, out: Shapes)
    ensures forall o :: o in AllFeet(out) ==> allocated(o)
    ensures forall o :: o in AuditHeaders.EntriesOf(e.request.headers).Values ==> allocated(o)
  {
    HeadersAllocated(e.request.headers);
  }

  /** One node: the entry says what the event held, and the event then holds EventAfter. Whether or not it succeeds, the
      caller's data and headers stay as they were, and so does everything when nothing may be written. */
  method Format(n: Node, ev: Event, ghost s: Shapes) returns (r: Result<Entry>, ghost view: Result<View>, ghost out: Shapes)
    requires EventHolds(ev, s)
    modifies Written(n.cfg, ev, s)
    ensures GivenOf(ev) == old(GivenOf(ev))
    ensures n.salt.Some? ==> (r.Ok? <==> Formats(n, GivenOf(ev), ev, s))
    ensures r.Ok? ==> Shows(n, n.config.headerSettings, GivenOf(ev), ev, s, view)
    ensures r.Ok? ==> Records(r.value, out, view) && DataHolds(r.value, out)
    ensures r.Ok? && EventApart(s) ==> Good(s.suppReq) && Good(s.suppResp) && EventHolds(ev, EventAfter(n.cfg, n.salt, ev, s))
    ensures Written(n.cfg, ev, s) == {} ==> EventHolds(ev, s)
    ensures EventApart(s) && ev.request != null && ev.response != null ==> OwnHolds(ev, s)
  {
    hide Holds, Unshared, Abs, RawReq, RawRespOpt, AuthMerged, AuditHeaders.Applied, CopyOfSupplemental, Attached, HeadersApplied,
      EntryReq, EntryResp, PartsApart, ReqHashed, RespOptHashed, EventHolds, OwnHolds, FinalReq, FinalResp, ViewsMarshal,
      GivenOf, ReqFrom, RespFrom;
    EventFeet(ev, s);
    RawFrom(n, ev, s);
    HeadersAllocated(HeadersIn(ev));
    ghost var copy;
    r, out, copy := FormEntry(n.cfg, n.config, n.salt, n.jwt, ev, s);
    if r.Ok? {
      GivenHeaders(n, ev, r.value.request.headers);
      view := Ok(View(Sides(EntryReq(r.value, out), EntryResp(r.value, out)), AuditHeaders.LinesOf(r.value.request.headers)));
      if EventApart(s) && !n.cfg.raw && ev.isResponse && ev.response != null {
        CallerAfter(n.cfg, n.salt.value, ev, s, copy, r.value.request.supplemental);
      }
    } else {
      view := Err(r.error);
    }
  }

  /** The formatter nodes of all pipelines over an event that none of them may write to, in any order and whichever of
      them fail: each formats the same raw values, and the event holds at the end what it held at the beginning. */
  method FormatEach(nodes: seq<Node>, ev: Event, ghost s: Shapes)
    returns (results: seq<Result<Entry>>, ghost views: seq<Result<View>>, ghost outs: seq<Shapes>)
    requires EventHolds(ev, s) && forall i :: 0 <= i < |nodes| ==> Written(nodes[i].cfg, ev, s) == {}
    ensures |results| == |views| == |outs| == |nodes|
    ensures forall i :: 0 <= i < |nodes| && nodes[i].salt.Some? ==> (results[i].Ok? <==> Formats(nodes[i], GivenOf(ev), ev, s))
    ensures forall i :: 0 <= i < |nodes| && results[i].Ok? ==> Shows(nodes[i], nodes[i].config.headerSettings, GivenOf(ev), ev, s, views[i])
    ensures forall i :: 0 <= i < |nodes| && results[i].Ok? ==>
      Records(results[i].value, outs[i], views[i]) && DataHolds(results[i].value, outs[i])
    ensures EventHolds(ev, s) && GivenOf(ev) == old(GivenOf(ev))
  {
    hide *;
    ghost var g := GivenOf(ev);
    results, views, outs := [], [], [];
    for i := 0 to |nodes|
      invariant |results| == |views| == |outs| == i && GivenOf(ev) == g && EventHolds(ev, s)
      invariant forall j :: 0 <= j < i && nodes[j].salt.Some? ==> (results[j].Ok? <==> Formats(nodes[j], g, ev, s))
      invariant forall j :: 0 <= j < i && results[j].Ok? ==> Shows(nodes[j], nodes[j].config.headerSettings, g, ev, s, views[j])
      invariant forall j :: 0 <= j < i && results[j].Ok? ==>
        Records(results[j].value, outs[j], views[j]) && DataHolds(results[j].value, outs[j])
    {
      forall j | 0 <= j < i && results[j].Ok?
        ensures forall o :: o in AllFeet(outs[j]) ==> allocated(o)
        ensures forall o :: o in AuditHeaders.EntriesOf(results[j].value.request.headers).Values ==> allocated(o)
      {
        EntryAllocated(results[j].value, outs[j]);
      }
      var r, view, out := Format(nodes[i], ev, s);
      results, views, outs := results + [r], views + [view], outs + [out];
    }
  }

  /** Over shared data the nodes one after another, up to the first that fails: each formats what the ones before it left. */
  method FormatAll(nodes: seq<Node>, ev: Event, ghost s: Shapes)
    returns (entries: seq<Entry>, ghost views: seq<Result<View>>, ghost outs: seq<Shapes>)
    requires EventHolds(ev, s) && EventApart(s) && Good(s.suppReq) && Good(s.suppResp)
    modifies SharedWithCaller(s)
    ensures |entries| == |views| == |outs| <= |nodes| && GivenOf(ev) == old(GivenOf(ev))
    ensures forall i :: 0 <= i < |views| ==> Records(entries[i], outs[i], views[i])
    ensures forall i :: 0 <= i < |views| ==> Shows(nodes[i], nodes[i].config.headerSettings, GivenOf(ev), ev, AfterAll(nodes[..i], ev, s), views[i])
    ensures Undisturbed(nodes, ev, s) ==> forall i :: 0 <= i < |views| ==> Shows(nodes[i], nodes[i].config.headerSettings, GivenOf(ev), ev, s, views[i])
    ensures |views| == |nodes| ==> EventHolds(ev, AfterAll(nodes, ev, s))
    ensures var k := |views|;
      k < |nodes| && nodes[k].salt.Some? ==> !Formats(nodes[k], GivenOf(ev), ev, AfterAll(nodes[..k], ev, s))
  {
    hide *;
    ghost var g := GivenOf(ev);
    entries, views, outs := [], [], [];
    ghost var cur := s;
    AfterNone(nodes, ev, s);
    if Undisturbed(nodes, ev, s) {
      SameRawValues(nodes, ev, s);
    }
    for i := 0 to |nodes|
      invariant |entries| == |views| == |outs| == i && GivenOf(ev) == g
      invariant forall j :: 0 <= j < i ==> Records(entries[j], outs[j], views[j])
      invariant forall j :: 0 <= j < |nodes| ==> nodes[j].config.headerSettings == old(nodes[j].config.headerSettings)
      invariant cur == AfterAll(nodes[..i], ev, s) && EventHolds(ev, cur) && EventApart(cur)
      invariant forall j :: 0 <= j < i ==> Shows(nodes[j], nodes[j].config.headerSettings, g, ev, AfterAll(nodes[..j], ev, s), views[j])
    {
      WrittenShared(nodes[i].cfg, ev, cur);
      forall j | 0 <= j < i
        ensures forall o :: o in AuditHeaders.EntriesOf(entries[j].request.headers).Values ==> allocated(o)
      {
        EntryAllocated(entries[j], outs[j]);
      }
      var r, view, out := Format(nodes[i], ev, cur);
      if r.Err? {
        return;
      }
      AfterNext(nodes, i, ev, s);
      cur := EventAfter(nodes[i].cfg, nodes[i].salt, ev, cur);
      entries, views, outs := entries + [r.value], views + [view], outs + [out];
    }
    assert nodes[..|nodes|] == nodes;
  }

  lemma WrittenShared(cfg: Config, ev: Event, s: Shapes)
    ensures Written(cfg, ev, s) <= SharedWithCaller(s)
  {
  }

  /** Supplemental response data with one string in it. */
  ghost function OneText(c: Container, x: string): Shape {
    MapShape(c, true, map[Text("k") := LeafShape(Str(x))], {c})
  }

  ghost function OnlySupplemental(sh: Shape): Shapes {
    Shapes(None, None, None, Some(sh))
  }

  lemma OneTextHashed(salt: Salt, c: Container, x: string)
    ensures HashedShape(salt, [], OneText(c, x)) == OneText(c, salt.hmac(x))
  {
    assert MarshalShape(salt, OneText(c, x)).kids == OneText(c, x).kids;
    assert MarshalShape(salt, OneText(c, x)) == OneText(c, x);
    var h := HasherOf(salt, []);
    assert HashShape(h, Some("k"), LeafShape(Str(x))) == LeafShape(Str(salt.hmac(x)));
    assert HashShape(h, None, OneText(c, x)).kids == map[Text("k") := LeafShape(Str(salt.hmac(x)))];
  }

  /** Two nodes over the same supplemental response data: the second formats the first one's hash, hashed again. */
  lemma SecondNodeHashesHash(c: Container, ev: Event, n: Node, x: string)
    requires ev.isResponse && ev.nonHMACRespDataKeys == [] && !n.cfg.raw && n.salt.Some?
    ensures Good(OnlySupplemental(OneText(c, x)).suppResp)
    ensures var s, h := OnlySupplemental(OneText(c, x)), n.salt.value.hmac;
      && AfterAll([n], ev, s) == OnlySupplemental(OneText(c, h(x)))
      && AfterAll([n, n], ev, s) == OnlySupplemental(OneText(c, h(h(x))))
    ensures EventSettled(n, ev, OnlySupplemental(OneText(c, x))) <==> n.salt.value.hmac(x) == x
  {
    var salt := n.salt.value;
    OneTextHashed(salt, c, x);
    OneTextHashed(salt, c, salt.hmac(x));
    assert [n, n][..1] == [n] && [n][..0] == [];
    var s := OnlySupplemental(OneText(c, x));
    EventUnchanged(n, ev, s);
    assert AfterAll([n], ev, s) == EventAfter(n.cfg, n.salt, ev, AfterAll([], ev, s));
    assert OneText(c, salt.hmac(x)).kids[Text("k")] == LeafShape(Str(salt.hmac(x)));
    assert OneText(c, x).kids[Text("k")] == LeafShape(Str(x));
  }
}
