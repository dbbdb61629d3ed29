/** Building an audit entry from an event (createEntry in audit/entry_formatter.go). */
module EntryFormatter {
  import opened Basics
  import opened DataTree
  import opened HashWalker
  import opened HashData
  import opened EntryData
  import opened AuditRecords
  import opened EntryContents
  import AuditHeaders

  // ---- The two sides of an entry, as values ----

  datatype Config = Config(raw: bool, elideListResponses: bool, hmacAccessor: bool)

  datatype ReqView = ReqView(auth: Option<AuthView>, clientToken: string, clientTokenAccessor: string, path: string,
                             data: Option<Tree>, supplemental: Option<Tree>)

  datatype RespView = RespView(auth: Option<AuthView>, data: Option<Tree>, wrapInfo: Option<WrapInfo>, supplemental: Option<Tree>)

  ghost function HashedTree(salt: Salt, ignored: seq<string>, t: Option<Tree>): Option<Tree> {
    if t.Some? && t.value.MapTree? then Some(HashedData(salt, ignored, t.value)) else t
  }

  /** What hashing makes of the request side: a function of its values alone. */
  ghost function ReqHashed(salt: Salt, hmacAccessor: bool, ignored: seq<string>, v: ReqView): ReqView {
    ReqView(AuthOptHashed(salt, hmacAccessor, v.auth),
            HashUnlessEmpty(salt, v.clientToken), HashAccessor(salt, hmacAccessor, v.clientTokenAccessor), v.path,
            HashedTree(salt, ignored, v.data), HashedTree(salt, ignored, v.supplemental))
  }

  ghost function RespHashed(salt: Salt, hmacAccessor: bool, ignored: seq<string>, v: RespView): RespView {
    RespView(AuthOptHashed(salt, hmacAccessor, v.auth), HashedRespTree(salt, ignored, v.data),
             WrapHashed(salt, hmacAccessor, v.wrapInfo), HashedTree(salt, ignored, v.supplemental))
  }

  ghost function ReqViewOf(auth: Auth?, req: Request, data: Option<Shape>, supp: Option<Shape>): ReqView
    reads auth, if auth == null then null else auth.metadata
    reads req
  {
    ReqView(ViewOf(auth), req.clientToken, req.clientTokenAccessor, req.path, TreeOf(data), TreeOf(supp))
  }

  ghost function RespViewOf(resp: Response, data: Option<Shape>, supp: Option<Shape>): RespView
    reads resp, resp.auth, if resp.auth == null then null else resp.auth.metadata
  {
    RespView(ViewOf(resp.auth), TreeOf(data), resp.wrapInfo, TreeOf(supp))
  }

  lemma TreeOfHashed(salt: Salt, ignored: seq<string>, s: Option<Shape>)
    requires Good(s)
    ensures Good(HashedOpt(salt, ignored, s)) && FootOf(HashedOpt(salt, ignored, s)) == FootOf(s)
    ensures TreeOf(HashedOpt(salt, ignored, s)) == HashedTree(salt, ignored, TreeOf(s))
  {
    if s.Some? {
      HashedShapeProps(salt, ignored, s.value);
    }
  }

  method HashRequestSide(salt: Option<Salt>, hmacAccessor: bool, ignored: seq<string>, auth: Auth?, req: Request,
                         ghost data: Option<Shape>, ghost supp: Option<Shape>)
    returns (r: Result<()>, ghost data': Option<Shape>, ghost supp': Option<Shape>)
    requires Attached(req.data, data) && Attached(req.supplemental, supp) && FootOf(data) !! FootOf(supp)
    modifies auth, req`clientToken, req`clientTokenAccessor, FootOf(data), FootOf(supp)
    ensures FootOf(data') == FootOf(data) && FootOf(supp') == FootOf(supp)
    ensures r.Ok? <==> salt.Some? && TreeMarshals(salt.value, TreeOf(data)) && TreeMarshals(salt.value, TreeOf(supp))
    ensures r.Ok? ==> Attached(req.data, data') && Attached(req.supplemental, supp')
    ensures var before := old(ReqViewOf(auth, req, data, supp));
      r.Ok? ==> ReqViewOf(auth, req, data', supp') == ReqHashed(salt.value, hmacAccessor, ignored, before)
    ensures r.Ok? ==> supp' == HashedOpt(salt.value, ignored, supp)
  {
    data', supp' := data, supp;
    r := HashAuth(salt, auth, hmacAccessor);
    if r.Err? {
      return;
    }
    r := HashRequest(salt, req, hmacAccessor, ignored, data, supp);
    if r.Err? {
      return;
    }
    TreeOfHashed(salt.value, ignored, data);
    TreeOfHashed(salt.value, ignored, supp);
    data', supp' := HashedOpt(salt.value, ignored, data), HashedOpt(salt.value, ignored, supp);
  }

  method HashResponseSide(salt: Option<Salt>, hmacAccessor: bool, ignored: seq<string>, resp: Response,
                          ghost data: Option<Shape>, ghost supp: Option<Shape>)
    returns (r: Result<()>, ghost data': Option<Shape>, ghost supp': Option<Shape>)
    requires Attached(resp.data, data) && Attached(resp.supplemental, supp) && FootOf(data) !! FootOf(supp)
    modifies resp`wrapInfo, resp.auth, FootOf(data), FootOf(supp)
    ensures FootOf(data') == FootOf(data) && FootOf(supp') == FootOf(supp)
    ensures r.Ok? <==> salt.Some? && TreeMarshals(salt.value, TreeOf(data)) && TreeMarshals(salt.value, TreeOf(supp))
    ensures r.Ok? ==> Attached(resp.data, data') && Attached(resp.supplemental, supp')
    ensures var before := old(RespViewOf(resp, data, supp));
      r.Ok? ==> RespViewOf(resp, data', supp') == RespHashed(salt.value, hmacAccessor, ignored, before)
    ensures r.Ok? ==> supp' == HashedOpt(salt.value, ignored, supp)
  {
    supp' := supp;
    r, data' := HashResponse(salt, resp, hmacAccessor, ignored, data, supp);
    if r.Err? {
      return;
    }
    TreeOfHashed(salt.value, ignored, supp);
    supp' := HashedOpt(salt.value, ignored, supp);
  }

  // ---- The event ----

  datatype Event = Event(isResponse: bool, auth: LogicalAuth?, request: LogicalRequest?, response: LogicalResponse?,
                         nonHMACReqDataKeys: seq<string>, nonHMACRespDataKeys: seq<string>)

  /** The shapes of the data maps of an event, or of an entry. */
  datatype Shapes = Shapes(reqData: Option<Shape>, respData: Option<Shape>, suppReq: Option<Shape>, suppResp: Option<Shape>)

  ghost function AllFeet(s: Shapes): set<Container> {
    FootOf(s.reqData) + FootOf(s.respData) + FootOf(s.suppReq) + FootOf(s.suppResp)
  }

  /** The heap holds the event's data maps, and its two supplemental maps share no container. */
  ghost predicate EventHolds(ev: Event, s: Shapes)
    reads ev.request, ev.response, AllFeet(s)
  {
    && (if ev.request == null then s.reqData == None else Attached(ev.request.data, s.reqData))
    && (if ev.response == null then s.respData == s.suppReq == s.suppResp == None
        else && Attached(ev.response.data, s.respData)
             && Attached(ev.response.supplementalRequest, s.suppReq)
             && Attached(ev.response.supplementalResponse, s.suppResp))
    && FootOf(s.suppReq) !! FootOf(s.suppResp)
  }

  // ---- The request side before hashing ----

  /** The request side before hashing, if it can be built. */
  ghost function RawReq(ev: Event, s: Shapes): Result<ReqView>
    reads ev.request, ev.auth, if ev.auth == null then null else ev.auth.metadata
  {
    if ev.request == null then Err("request cannot be nil")
    else
      var a := AuthMerged(ev.auth, ev.request.clientTokenRemainingUses, ev.request.enterprise);
      if a.Err? then Err(a.error)
      else Ok(ReqView(WithToken(a.value, ev.request.inboundSSCToken), ev.request.clientToken, ev.request.clientTokenAccessor,
                      ev.request.path, TreeOf(s.reqData), if ev.isResponse then TreeOf(s.suppReq) else None))
  }

  /** The supplemental map of an entry's request: absent, or a new map over the caller's nested containers. */
  ghost predicate CopyOfSupplemental(ev: Event, s: Shapes, supp: Option<Shape>) {
    && (supp.Some? <==> ev.isResponse && s.suppReq.Some?)
    && Good(s.suppReq) && Good(supp)
    && (supp.Some? ==>
      && supp.value.kids == s.suppReq.value.kids
      && FootOf(supp) == FootOf(s.suppReq) - {s.suppReq.value.c} + {supp.value.c})
  }

  /** maps.Clone of the supplemental request data of a response event. */
  method SupplementalCopy(ev: Event, ghost s: Shapes) returns (m: Container?, ghost supp: Option<Shape>)
    requires EventHolds(ev, s)
    ensures Attached(m, supp) && CopyOfSupplemental(ev, s, supp) && (m != null ==> fresh(m))
    ensures TreeOf(supp) == if ev.isResponse then TreeOf(s.suppReq) else None
  {
    m, supp := null, None;
    if ev.isResponse && ev.response != null && ev.response.supplementalRequest != null {
      ghost var sh;
      m, sh := ShallowCopy(ev.response.supplementalRequest, s.suppReq.value);
      supp := Some(sh);
    }
  }

  /** The auth of an entry before hashing: merged, with the inbound consistency token if there is one. */
  method EntryAuth(ev: Event) returns (r: Result<Auth?>)
    requires ev.request != null
    ensures var spec := AuthMerged(ev.auth, ev.request.clientTokenRemainingUses, ev.request.enterprise);
      (r.Ok? <==> spec.Ok?) && (r.Ok? ==> ViewOf(r.value) == WithToken(spec.value, ev.request.inboundSSCToken))
    ensures r.Ok? && r.value != null ==> fresh(r.value) && (r.value.metadata != null ==> fresh(r.value.metadata))
  {
    r := MergedAuth(ev.auth, ev.request.clientTokenRemainingUses, ev.request.enterprise);
    if r.Ok? && ev.request.inboundSSCToken != "" && r.value != null {
      r.value.clientToken := ev.request.inboundSSCToken;
    }
  }

  method AssembleRequest(ev: Event, headers: AuditHeaders.HeaderMap, ghost s: Shapes)
    returns (r: Request, ghost data: Option<Shape>, ghost supp: Option<Shape>)
    requires EventHolds(ev, s) && ev.request != null
    ensures fresh(r) && Attached(r.data, data) && Attached(r.supplemental, supp) && r.headers == headers
    ensures fresh(FootOf(data)) && FootOf(data) !! FootOf(supp)
    ensures CopyOfSupplemental(ev, s, supp) && (supp.Some? ==> fresh(supp.value.c))
    ensures r.clientToken == ev.request.clientToken && r.clientTokenAccessor == ev.request.clientTokenAccessor
    ensures r.path == ev.request.path
    ensures TreeOf(data) == TreeOf(s.reqData) && TreeOf(supp) == if ev.isResponse then TreeOf(s.suppReq) else None
  {
    hide Holds, Unshared, Abs;
    FeetAllocated(s.reqData);
    var d, m;
    m, supp := SupplementalCopy(ev, s);
    FeetAllocated(supp);
    d, data := CloneOptional(ev.request.data, s.reqData);
    FeetAllocated(data);
    r := new Request(ev.request, d, headers, m);
  }

  datatype ReqSide = ReqSide(auth: Auth?, request: Request)

  /** Everything about the request side that precedes hashing; nothing of the caller's is changed. */
  method BuildRequestSide(config: AuditHeaders.HeadersConfig, salt: Option<Salt>, ev: Event, ghost s: Shapes)
    returns (r: Result<ReqSide>, ghost data: Option<Shape>, ghost supp: Option<Shape>)
    requires EventHolds(ev, s)
    ensures salt.Some? ==> (r.Ok? <==> RawReq(ev, s).Ok?)
    ensures r.Ok? ==> ev.request != null && RawReq(ev, s).Ok?
    ensures r.Ok? ==> ReqViewOf(r.value.auth, r.value.request, data, supp) == RawReq(ev, s).value
    ensures r.Ok? ==> Attached(r.value.request.data, data) && Attached(r.value.request.supplemental, supp)
    ensures r.Ok? ==> fresh(FootOf(data)) && FootOf(data) !! FootOf(supp)
    ensures r.Ok? ==> CopyOfSupplemental(ev, s, supp) && (supp.Some? ==> fresh(supp.value.c))
    ensures r.Ok? ==> HeadersApplied(config, salt, ev.request.headers, r.value.request.headers)
    ensures r.Ok? ==> fresh(r.value.request) && (r.value.auth != null ==> fresh(r.value.auth))
  {
    hide Holds, Unshared, Abs, AuthMerged, WithToken, HeadersApplied, CopyOfSupplemental;
    data, supp := None, None;
    if ev.request == null {
      return Err("request cannot be nil"), data, supp;
    }
    var auth := EntryAuth(ev);
    if auth.Err? {
      return Err(auth.error), data, supp;
    }
    FeetAllocated(s.reqData);
    FeetAllocated(s.respData);
    FeetAllocated(s.suppReq);
    FeetAllocated(s.suppResp);
    var headers := RequestHeaders(config, salt, ev.request.headers);
    if headers.Err? {
      return Err(headers.error), data, supp;
    }
    HeadersAllocated(ev.request.headers);
    HeadersAllocated(headers.value);
    var req;
    req, data, supp := AssembleRequest(ev, headers.value, s);
    r := Ok(ReqSide(auth.value, req));
  }

  // ---- The response side before hashing ----

  ghost function ElidedTree(elide: bool, t: Option<Tree>): Option<Tree> {
    if elide && t.Some? && t.value.MapTree? then Some(Elide(t.value)) else t
  }

  /** The response side before hashing, if it can be built. */
  ghost function RawResp(cfg: Config, jwt: string -> Option<string>, ev: Event, s: Shapes): Result<RespView>
    requires ev.request != null && ev.response != null
    reads ev.request, ev.response, ev.response.auth, if ev.response.auth == null then null else ev.response.auth.metadata
  {
    var a := AuthMerged(ev.response.auth, ev.request.clientTokenRemainingUses, ev.request.enterprise);
    if a.Err? then Err(a.error)
    else Ok(RespView(a.value, ElidedTree(cfg.elideListResponses && ev.request.isList, TreeOf(s.respData)),
                     Unwrapped(jwt, ev.response.wrapInfo), TreeOf(s.suppResp)))
  }

  /** newResponse; the supplemental data is the caller's own map, not a copy. */
  method BuildResponse(cfg: Config, jwt: string -> Option<string>, ev: Event, ghost s: Shapes)
    returns (r: Result<Response>, ghost data: Option<Shape>)
    requires ev.request != null && ev.response != null
    requires Attached(ev.response.data, s.respData) && Attached(ev.response.supplementalResponse, s.suppResp)
    ensures r.Ok? ==> fresh(r.value) && Attached(r.value.data, data) && fresh(FootOf(data))
    ensures r.Ok? ==> r.value.supplemental == ev.response.supplementalResponse
    ensures r.Ok? <==> RawResp(cfg, jwt, ev, s).Ok?
    ensures r.Ok? ==> RespViewOf(r.value, data, s.suppResp) == RawResp(cfg, jwt, ev, s).value
    ensures r.Ok? && r.value.auth != null ==> fresh(r.value.auth)
  {
    hide Holds, Unshared, AuthMerged, Elide;
    var a := MergedAuth(ev.response.auth, ev.request.clientTokenRemainingUses, ev.request.enterprise);
    if a.Err? {
      return Err(a.error), None;
    }
    FeetAllocated(s.respData);
    var d;
    d, data := CloneResponseData(ev.response.data, cfg.elideListResponses && ev.request.isList, s.respData);
    FeetAllocated(data);
    var resp := new Response(a.value, d, Unwrapped(jwt, ev.response.wrapInfo), ev.response.supplementalResponse);
    r := Ok(resp);
  }

  // ---- The entry ----

  datatype Entry = Entry(auth: Auth?, request: Request, response: Response?)

  ghost predicate DataHolds(e: Entry, s: Shapes)
    reads e.request, e.response, AllFeet(s)
  {
    && Attached(e.request.data, s.reqData) && Attached(e.request.supplemental, s.suppReq)
    && (e.response != null ==> Attached(e.response.data, s.respData) && Attached(e.response.supplemental, s.suppResp))
  }

  /** The entry's parts do not overlap. */
  ghost predicate PartsApart(e: Entry, s: Shapes)
    reads e.response
  {
    && FootOf(s.reqData) !! FootOf(s.suppReq)
    && (e.response != null ==>
      && FootOf(s.respData) !! FootOf(s.suppResp)
      && FootOf(s.reqData) + FootOf(s.suppReq) !! FootOf(s.respData) + FootOf(s.suppResp)
      && (e.auth != null ==> e.auth != e.response.auth))
  }

  ghost function EntryReq(e: Entry, s: Shapes): ReqView
    reads e.auth, if e.auth == null then null else e.auth.metadata
    reads e.request
  {
    ReqViewOf(e.auth, e.request, s.reqData, s.suppReq)
  }

  ghost function EntryResp(e: Entry, s: Shapes): Option<RespView>
    reads e.response, if e.response == null then null else e.response.auth
    reads if e.response == null || e.response.auth == null then null else e.response.auth.metadata
  {
    if e.response == null then None else Some(RespViewOf(e.response, s.respData, s.suppResp))
  }

  /** What the entry says of the response before hashing, if it can be built; a request event has none. */
  ghost function RawRespOpt(cfg: Config, jwt: string -> Option<string>, ev: Event, s: Shapes): Result<Option<RespView>>
    reads ev.request, ev.response, if ev.response == null then null else ev.response.auth
    reads if ev.response == null || ev.response.auth == null then null else ev.response.auth.metadata
  {
    if !ev.isResponse || ev.response == null || ev.request == null then Ok(None)
    else
      var v := RawResp(cfg, jwt, ev, s);
      if v.Ok? then Ok(Some(v.value)) else Err(v.error)
  }

  /** The entry before hashing: new records and copies, except that nested supplemental containers are the caller's. */
  method BuildEntry(cfg: Config, config: AuditHeaders.HeadersConfig, salt: Option<Salt>, jwt: string -> Option<string>,
                    ev: Event, ghost s: Shapes) returns (r: Result<Entry>, ghost out: Shapes)
    requires EventHolds(ev, s)
    ensures r.Ok? ==> DataHolds(r.value, out) && PartsApart(r.value, out)
    ensures salt.Some? ==> (r.Ok? <==> RawReq(ev, s).Ok? && RawRespOpt(cfg, jwt, ev, s).Ok?)
    ensures r.Ok? ==> ev.request != null && RawReq(ev, s).Ok? && EntryReq(r.value, out) == RawReq(ev, s).value
    ensures r.Ok? ==> RawRespOpt(cfg, jwt, ev, s) == Ok(EntryResp(r.value, out))
    ensures r.Ok? ==> HeadersApplied(config, salt, ev.request.headers, r.value.request.headers)
    ensures r.Ok? ==> fresh(FootOf(out.reqData)) && fresh(FootOf(out.respData))
    ensures r.Ok? ==> CopyOfSupplemental(ev, s, out.suppReq) && (out.suppReq.Some? ==> fresh(out.suppReq.value.c))
    ensures r.Ok? ==> (r.value.response != null <==> ev.isResponse && ev.response != null)
    ensures r.Ok? && r.value.response != null ==> out.suppResp == s.suppResp
    ensures r.Ok? && r.value.response != null ==> r.value.response.supplemental == ev.response.supplementalResponse
    ensures r.Ok? ==> fresh(r.value.request) && (r.value.auth != null ==> fresh(r.value.auth))
    ensures r.Ok? && r.value.response != null ==> fresh(r.value.response)
    ensures r.Ok? && r.value.response != null && r.value.response.auth != null ==> fresh(r.value.response.auth)
  {
    hide Holds, Unshared, Abs, RawReq, AuthMerged, HeadersApplied;
    FeetAllocated(s.respData);
    FeetAllocated(s.suppReq);
    FeetAllocated(s.suppResp);
    out := Shapes(None, None, None, None);
    ghost var data, supp, respData := None, None, None;
    var side;
    side, data, supp := BuildRequestSide(config, salt, ev, s);
    if side.Err? {
      return Err(side.error), out;
    }
    FeetAllocated(data);
    FeetAllocated(supp);
    HeadersAllocated(ev.request.headers);
    HeadersAllocated(side.value.request.headers);
    var resp: Response? := null;
    if ev.isResponse && ev.response != null {
      var built;
      built, respData := BuildResponse(cfg, jwt, ev, s);
      if built.Err? {
        return Err(built.error), out;
      }
      resp := built.value;
    }
    out := Shapes(data, respData, supp, if resp == null then None else s.suppResp);
    r := Ok(Entry(side.value.auth, side.value.request, resp));
  }

  /** Hashes the request side; the response side stays as it was. */
  method HashEntryRequest(salt: Option<Salt>, cfg: Config, ev: Event, e: Entry, ghost s: Shapes)
    returns (r: Result<()>, ghost s': Shapes)
    requires DataHolds(e, s) && PartsApart(e, s)
    modifies e.auth, e.request`clientToken, e.request`clientTokenAccessor, FootOf(s.reqData), FootOf(s.suppReq)
    ensures s'.respData == s.respData && s'.suppResp == s.suppResp
    ensures r.Ok? <==> salt.Some? && TreeMarshals(salt.value, TreeOf(s.reqData)) && TreeMarshals(salt.value, TreeOf(s.suppReq))
    ensures r.Ok? ==> DataHolds(e, s') && PartsApart(e, s')
    ensures r.Ok? ==> s'.suppReq == HashedOpt(salt.value, ev.nonHMACReqDataKeys, s.suppReq)
    ensures var before := old(EntryReq(e, s));
      r.Ok? ==> EntryReq(e, s') == ReqHashed(salt.value, cfg.hmacAccessor, ev.nonHMACReqDataKeys, before)
    ensures EntryResp(e, s) == old(EntryResp(e, s))
  {
    hide Holds, Unshared, Abs;
    FeetAllocated(s.respData);
    FeetAllocated(s.suppResp);
    ghost var d, p;
    r, d, p := HashRequestSide(salt, cfg.hmacAccessor, ev.nonHMACReqDataKeys, e.auth, e.request, s.reqData, s.suppReq);
    s' := s.(reqData := d, suppReq := p);
  }

  /** Hashes the response side; the request side stays as it was. */
  method HashEntryResponse(salt: Option<Salt>, cfg: Config, ev: Event, e: Entry, ghost s: Shapes)
    returns (r: Result<()>, ghost s': Shapes)
    requires DataHolds(e, s) && PartsApart(e, s) && e.response != null
    modifies e.response`wrapInfo, e.response.auth, FootOf(s.respData), FootOf(s.suppResp)
    ensures s'.reqData == s.reqData && s'.suppReq == s.suppReq
    ensures r.Ok? <==> salt.Some? && TreeMarshals(salt.value, TreeOf(s.respData)) && TreeMarshals(salt.value, TreeOf(s.suppResp))
    ensures r.Ok? ==> DataHolds(e, s')
    ensures r.Ok? ==> s'.suppResp == HashedOpt(salt.value, ev.nonHMACRespDataKeys, s.suppResp)
    ensures var before := old(EntryResp(e, s));
      r.Ok? ==> EntryResp(e, s') == Some(RespHashed(salt.value, cfg.hmacAccessor, ev.nonHMACRespDataKeys, before.value))
    ensures EntryReq(e, s) == old(EntryReq(e, s))
  {
    hide Holds, Unshared, Abs;
    FeetAllocated(s.reqData);
    FeetAllocated(s.suppReq);
    ghost var d, p;
    r, d, p := HashResponseSide(salt, cfg.hmacAccessor, ev.nonHMACRespDataKeys, e.response, s.respData, s.suppResp);
    s' := s.(respData := d, suppResp := p);
  }

  /** What an entry holds can be marshaled where it must be, so that its hashing succeeds. */
  ghost predicate ViewsMarshal(salt: Salt, req: ReqView, resp: Option<RespView>) {
    && TreeMarshals(salt, req.data) && TreeMarshals(salt, req.supplemental)
    && (resp.Some? ==> TreeMarshals(salt, resp.value.data) && TreeMarshals(salt, resp.value.supplemental))
  }

  ghost function RespOptHashed(salt: Salt, cfg: Config, ev: Event, v: Option<RespView>): Option<RespView> {
    if v.None? then None else Some(RespHashed(salt, cfg.hmacAccessor, ev.nonHMACRespDataKeys, v.value))
  }

  method HashBothSides(salt: Option<Salt>, cfg: Config, ev: Event, e: Entry, ghost s: Shapes)
    returns (r: Result<()>, ghost s': Shapes)
    requires DataHolds(e, s) && PartsApart(e, s)
    modifies e.auth, e.request`clientToken, e.request`clientTokenAccessor, FootOf(s.reqData), FootOf(s.suppReq)
    modifies e.response, if e.response == null then null else e.response.auth
    modifies if e.response == null then {} else FootOf(s.respData) + FootOf(s.suppResp)
    ensures r.Ok? <==> salt.Some? && ViewsMarshal(salt.value, old(EntryReq(e, s)), old(EntryResp(e, s)))
    ensures r.Ok? ==> DataHolds(e, s')
    ensures r.Ok? ==> s'.suppReq == HashedOpt(salt.value, ev.nonHMACReqDataKeys, s.suppReq)
    ensures r.Ok? && e.response != null ==> s'.suppResp == HashedOpt(salt.value, ev.nonHMACRespDataKeys, s.suppResp)
    ensures var before := old(EntryReq(e, s));
      r.Ok? ==> EntryReq(e, s') == ReqHashed(salt.value, cfg.hmacAccessor, ev.nonHMACReqDataKeys, before)
    ensures var before := old(EntryResp(e, s)); r.Ok? ==> EntryResp(e, s') == RespOptHashed(salt.value, cfg, ev, before)
    ensures e.response != null ==> e.response.supplemental == old(e.response.supplemental)
  {
    hide Holds, Unshared, Abs;
    r, s' := HashEntryRequest(salt, cfg, ev, e, s);
    if r.Ok? && e.response != null {
      r, s' := HashEntryResponse(salt, cfg, ev, e, s');
    }
  }

  lemma HeadersAllocated(h: AuditHeaders.HeaderMap?)
    ensures forall a :: a in AuditHeaders.EntriesOf(h).Values ==> allocated(a)
  {
  }

  // ---- createEntry ----

  /** The caller's containers that an entry still shares: the supplemental response data, and everything
      nested in the supplemental request data. */
  ghost function SharedWithCaller(s: Shapes): set<Container> {
    FootOf(s.suppResp) + if s.suppReq.Some? && s.suppReq.value.MapShape? then FootOf(s.suppReq) - {s.suppReq.value.c} else {}
  }

  /** A map after the hashing of a shallow copy of it: its own entries stay, its nested containers are hashed. */
  ghost function NestedHashed(salt: Salt, ignored: seq<string>, sh: Shape): Shape
    requires sh.MapShape?
  {
    sh.(kids := map k | k in sh.kids ::
      if sh.kids[k].LeafShape? then sh.kids[k] else HashShape(HasherOf(salt, ignored), Some(KeyName(k)), sh.kids[k]))
  }

  /** The map's own entries are those of the shape, whatever its nested containers hold. */
  ghost predicate TopHolds(sh: Shape)
    requires sh.MapShape?
    reads sh.c
  {
    && sh.c.body.MapBody? && sh.c.body.ofAny == sh.ofAny && sh.c.body.entries.Keys == sh.kids.Keys
    && forall k :: k in sh.kids ==> sh.c.body.entries[k] == Val(sh.kids[k])
  }

  lemma NestedUnshared(salt: Salt, ignored: seq<string>, sh: Shape)
    requires sh.MapShape? && Unshared(sh)
    ensures Unshared(NestedHashed(salt, ignored, sh)) && Foot(NestedHashed(salt, ignored, sh)) == Foot(sh)
  {
    forall k | k in sh.kids
      ensures Unshared(HashShape(HasherOf(salt, ignored), Some(KeyName(k)), sh.kids[k]))
      ensures Foot(HashShape(HasherOf(salt, ignored), Some(KeyName(k)), sh.kids[k])) == Foot(sh.kids[k])
    {
      HashShapeUnshared(HasherOf(salt, ignored), Some(KeyName(k)), sh.kids[k]);
    }
  }

  lemma NestedKid(salt: Salt, ignored: seq<string>, copy: Shape, k: MapKey)
    requires copy.MapShape? && Unshared(copy) && k in copy.kids && !copy.kids[k].LeafShape?
    requires Unshared(HashedShape(salt, ignored, copy)) && Holds(HashedShape(salt, ignored, copy))
    ensures var kid := HashShape(HasherOf(salt, ignored), Some(KeyName(k)), copy.kids[k]);
      Unshared(kid) && Holds(kid) && Val(kid) == Val(copy.kids[k])
  {
  }

  /** Hashing a shallow copy reaches the original's nested containers. */
  lemma NestedHolds(salt: Salt, ignored: seq<string>, sh: Shape, copy: Shape)
    requires sh.MapShape? && copy.MapShape? && Unshared(sh) && Unshared(copy) && copy.kids == sh.kids
    requires Unshared(HashedShape(salt, ignored, copy)) && Holds(HashedShape(salt, ignored, copy))
    requires TopHolds(sh)
    ensures Unshared(NestedHashed(salt, ignored, sh)) && Holds(NestedHashed(salt, ignored, sh))
  {
    hide HashShape, HashedShape;
    NestedUnshared(salt, ignored, sh);
    var nested := NestedHashed(salt, ignored, sh);
    forall k | k in sh.kids ensures nested.c.body.entries[k] == Val(nested.kids[k]) && Holds(nested.kids[k]) {
      if !sh.kids[k].LeafShape? {
        NestedKid(salt, ignored, copy, k);
      }
    }
  }

  /** The containers of the caller that creating an entry may write to. */
  ghost function Written(cfg: Config, ev: Event, s: Shapes): set<Container> {
    if cfg.raw || !ev.isResponse then {} else SharedWithCaller(s)
  }

  lemma CopyWithin(cfg: Config, ev: Event, s: Shapes, supp: Option<Shape>)
    requires CopyOfSupplemental(ev, s, supp) && !cfg.raw && supp.Some?
    ensures FootOf(supp) <= Written(cfg, ev, s) + {supp.value.c}
  {
  }

  /** What the entry must say of the request, given what the event holds. */
  ghost function FinalReq(cfg: Config, salt: Option<Salt>, ev: Event, v: ReqView): ReqView {
    if cfg.raw || salt.None? then v else ReqHashed(salt.value, cfg.hmacAccessor, ev.nonHMACReqDataKeys, v)
  }

  ghost function FinalResp(cfg: Config, salt: Option<Salt>, ev: Event, v: Option<RespView>): Option<RespView> {
    if cfg.raw || salt.None? then v else RespOptHashed(salt.value, cfg, ev, v)
  }

  /** The event's data is apart from what its entry may write to. */
  ghost predicate EventApart(s: Shapes) {
    FootOf(s.reqData) + FootOf(s.respData) !! SharedWithCaller(s)
  }

  /** What the caller's event holds once an entry has been created from it. */
  ghost function EventAfter(cfg: Config, salt: Option<Salt>, ev: Event, s: Shapes): Shapes
    requires Good(s.suppReq) && Good(s.suppResp)
  {
    if cfg.raw || !ev.isResponse || salt.None? then s
    else s.(suppReq := if s.suppReq.Some? then Some(NestedHashed(salt.value, ev.nonHMACReqDataKeys, s.suppReq.value)) else None,
            suppResp := HashedOpt(salt.value, ev.nonHMACRespDataKeys, s.suppResp))
  }

  ghost function TopFoot(s: Option<Shape>): set<Container> {
    if s.Some? && s.value.MapShape? then {s.value.c} else {}
  }

  /** The heap holds the part of the event's data that no entry shares. */
  ghost predicate OwnHolds(ev: Event, s: Shapes)
    reads ev.request, ev.response, FootOf(s.reqData), FootOf(s.respData), TopFoot(s.suppReq)
  {
    && ev.request != null && ev.response != null
    && Attached(ev.request.data, s.reqData) && Attached(ev.response.data, s.respData)
    && Good(s.suppReq) && Good(s.suppResp) && FootOf(s.suppReq) !! FootOf(s.suppResp)
    && (ev.response.supplementalRequest == null <==> s.suppReq.None?)
    && (s.suppReq.Some? ==> s.suppReq.value.c == ev.response.supplementalRequest && TopHolds(s.suppReq.value))
  }

  /** Hashing an entry made from an event leaves the event holding EventAfter. */
  lemma CallerAfter(cfg: Config, salt: Salt, ev: Event, s: Shapes, copy: Option<Shape>, m: Container?)
    requires OwnHolds(ev, s) && Good(s.suppResp) && ev.isResponse && !cfg.raw
    requires CopyOfSupplemental(ev, s, copy) && Attached(m, HashedOpt(salt, ev.nonHMACReqDataKeys, copy))
    requires Attached(ev.response.supplementalResponse, HashedOpt(salt, ev.nonHMACRespDataKeys, s.suppResp))
    ensures EventHolds(ev, EventAfter(cfg, Some(salt), ev, s))
  {
    hide Holds, Unshared, Abs;
    if s.suppReq.Some? {
      NestedHolds(salt, ev.nonHMACReqDataKeys, s.suppReq.value, copy.value);
      NestedUnshared(salt, ev.nonHMACReqDataKeys, s.suppReq.value);
    }
    if s.suppResp.Some? {
      HashedShapeProps(salt, ev.nonHMACRespDataKeys, s.suppResp.value);
    }
  }

  lemma EventFeet(ev: Event, s: Shapes)
    requires EventHolds(ev, s)
    ensures forall o :: o in AllFeet(s) ==> allocated(o)
    ensures Good(s.suppReq) && Good(s.suppResp) && FootOf(s.suppReq) !! FootOf(s.suppResp)
    ensures TopFoot(s.suppReq) <= FootOf(s.suppReq)
    ensures ev.request != null && ev.response != null ==> OwnHolds(ev, s)
    ensures ev.response == null ==> s.suppReq.None? && s.suppResp.None?
  {
    FeetAllocated(s.reqData);
    FeetAllocated(s.respData);
    FeetAllocated(s.suppReq);
    FeetAllocated(s.suppResp);
  }

  /** Hashes both sides; the headers, formatted already, stay as they are. */
  method HashEntry(salt: Option<Salt>, cfg: Config, ev: Event, e: Entry, ghost s: Shapes,
                   ghost config: AuditHeaders.HeadersConfig, ghost from: AuditHeaders.HeaderMap?)
    returns (r: Result<()>, ghost s': Shapes)
    requires DataHolds(e, s) && PartsApart(e, s) && HeadersApplied(config, salt, from, e.request.headers)
    modifies e.auth, e.request`clientToken, e.request`clientTokenAccessor, FootOf(s.reqData), FootOf(s.suppReq)
    modifies e.response, if e.response == null then null else e.response.auth
    modifies if e.response == null then {} else FootOf(s.respData) + FootOf(s.suppResp)
    ensures r.Ok? <==> salt.Some? && ViewsMarshal(salt.value, old(EntryReq(e, s)), old(EntryResp(e, s)))
    ensures r.Ok? ==> DataHolds(e, s')
    ensures r.Ok? ==> s'.suppReq == HashedOpt(salt.value, ev.nonHMACReqDataKeys, s.suppReq)
    ensures r.Ok? && e.response != null ==> s'.suppResp == HashedOpt(salt.value, ev.nonHMACRespDataKeys, s.suppResp)
    ensures var before := old(EntryReq(e, s));
      r.Ok? ==> EntryReq(e, s') == ReqHashed(salt.value, cfg.hmacAccessor, ev.nonHMACReqDataKeys, before)
    ensures var before := old(EntryResp(e, s)); r.Ok? ==> EntryResp(e, s') == RespOptHashed(salt.value, cfg, ev, before)
    ensures e.response != null ==> e.response.supplemental == old(e.response.supplemental)
    ensures HeadersApplied(config, salt, from, e.request.headers)
  {
    hide Holds, Unshared, Abs, HeadersApplied, DataHolds, EntryReq, EntryResp, PartsApart, ReqHashed, RespOptHashed,
      ViewsMarshal, Attached;
    HeadersAllocated(from);
    HeadersAllocated(e.request.headers);
    r, s' := HashBothSides(salt, cfg, ev, e, s);
  }

  /** What a hashed entry shares with the event it came from; `copy` is the entry's supplemental request map before hashing. */
  ghost predicate SharesHashed(salt: Salt, ev: Event, s: Shapes, copy: Option<Shape>, e: Entry, out: Shapes)
    reads e.response, ev.response
  {
    && CopyOfSupplemental(ev, s, copy) && out.suppReq == HashedOpt(salt, ev.nonHMACReqDataKeys, copy)
    && (e.response != null <==> ev.isResponse && ev.response != null)
    && (e.response != null ==>
      && e.response.supplemental == ev.response.supplementalResponse
      && (Good(s.suppResp) ==> out.suppResp == HashedOpt(salt, ev.nonHMACRespDataKeys, s.suppResp)))
  }

  /** Builds an entry and hashes it. Only containers it shares with the caller may change, and none for a request event or
      a raw entry. */
  method FormEntry(cfg: Config, config: AuditHeaders.HeadersConfig, salt: Option<Salt>, jwt: string -> Option<string>,
                   ev: Event, ghost s: Shapes) returns (r: Result<Entry>, ghost out: Shapes, ghost copy: Option<Shape>)
    requires EventHolds(ev, s)
    modifies Written(cfg, ev, s)
    ensures r.Ok? ==> DataHolds(r.value, out)
    ensures r.Ok? ==> ev.request != null && old(RawReq(ev, s)).Ok? && (salt.None? ==> cfg.raw)
    ensures var req, resp := old(RawReq(ev, s)), old(RawRespOpt(cfg, jwt, ev, s));
      salt.Some? ==> (r.Ok? <==> req.Ok? && resp.Ok? && (cfg.raw || ViewsMarshal(salt.value, req.value, resp.value)))
    ensures var before := old(RawReq(ev, s)); r.Ok? ==> EntryReq(r.value, out) == FinalReq(cfg, salt, ev, before.value)
    ensures var before := old(RawRespOpt(cfg, jwt, ev, s));
      r.Ok? ==> before.Ok? && EntryResp(r.value, out) == FinalResp(cfg, salt, ev, before.value)
    ensures r.Ok? ==> HeadersApplied(config, salt, ev.request.headers, r.value.request.headers)
    ensures r.Ok? && !cfg.raw ==> SharesHashed(salt.value, ev, s, copy, r.value, out)
  {
    hide Holds, Unshared, Abs, RawReq, RawRespOpt, AuthMerged, AuditHeaders.Applied, CopyOfSupplemental, Attached, HeadersApplied,
      DataHolds, EntryReq, EntryResp, PartsApart, ReqHashed, RespOptHashed, EventHolds, ViewsMarshal, OwnHolds, Good;
    r, out := BuildEntry(cfg, config, salt, jwt, ev, s);
    copy := out.suppReq;
    if r.Ok? && !cfg.raw {
      if copy.Some? {
        CopyWithin(cfg, ev, s, copy);
      }
      var h;
      h, out := HashEntry(salt, cfg, ev, r.value, out, config, ev.request.headers);
      if h.Err? {
        r := Err(h.error);
      }
    }
  }

  // ---- What an entry says ----

  /** The salt an entry is hashed with; a raw entry has none. */
  function SaltFor(cfg: Config, salt: Option<Salt>): Option<Salt> {
    if cfg.raw then None else salt
  }

  /** The request side of an entry against the event, field by field. */
  ghost predicate RequestSays(cfg: Config, salt: Option<Salt>, ev: Event, s: Shapes, e: Entry, out: Shapes)
    requires ev.request != null
    reads ev.request, ev.auth, if ev.auth == null then null else ev.auth.metadata
    reads e.request, e.auth, if e.auth == null then null else e.auth.metadata
  {
    && e.request.clientToken == (if salt.Some? && ev.request.clientToken != "" then salt.value.hmac(ev.request.clientToken)
                                 else ev.request.clientToken)
    && e.request.clientTokenAccessor ==
         (if salt.Some? && cfg.hmacAccessor && ev.request.clientTokenAccessor != ""
          then salt.value.hmac(ev.request.clientTokenAccessor) else ev.request.clientTokenAccessor)
    && e.request.path == ev.request.path
    && (e.auth == null <==> ev.auth == null)
    && (ev.auth != null ==>
      && AuthSays(salt, cfg.hmacAccessor, ev.auth, ev.request.inboundSSCToken, ev.request.clientTokenRemainingUses, e.auth)
      && MetadataSays(ev.auth, ev.request.enterprise, e.auth))
    && DataSays(salt, ev.nonHMACReqDataKeys, TreeOf(s.reqData), TreeOf(out.reqData))
    && DataSays(salt, ev.nonHMACReqDataKeys, if ev.isResponse then TreeOf(s.suppReq) else None, TreeOf(out.suppReq))
  }

  /** The response side; only an event of a response has one. */
  ghost predicate ResponseSays(cfg: Config, salt: Option<Salt>, jwt: string -> Option<string>, ev: Event, s: Shapes, e: Entry, out: Shapes)
    requires ev.request != null
    reads ev.request, ev.response, if ev.response == null then null else ev.response.auth
    reads if ev.response == null || ev.response.auth == null then null else ev.response.auth.metadata
    reads e.response, if e.response == null then null else e.response.auth
    reads if e.response == null || e.response.auth == null then null else e.response.auth.metadata
  {
    && (e.response != null <==> ev.isResponse && ev.response != null)
    && (e.response != null ==>
      && (e.response.auth == null <==> ev.response.auth == null)
      && (ev.response.auth != null ==>
        && AuthSays(salt, cfg.hmacAccessor, ev.response.auth, "", ev.request.clientTokenRemainingUses, e.response.auth)
        && MetadataSays(ev.response.auth, ev.request.enterprise, e.response.auth))
      && (e.response.wrapInfo.None? <==> ev.response.wrapInfo.None?)
      && (ev.response.wrapInfo.Some? ==> WrapSays(salt, cfg.hmacAccessor, jwt, ev.response.wrapInfo.value, e.response.wrapInfo.value))
      && ResponseDataSays(salt, ev.nonHMACRespDataKeys, cfg.elideListResponses && ev.request.isList, TreeOf(s.respData), TreeOf(out.respData))
      && DataSays(salt, ev.nonHMACRespDataKeys, TreeOf(s.suppResp), TreeOf(out.suppResp)))
  }

  lemma AuthOptMeans(salt: Option<Salt>, hmacAccessor: bool, from: LogicalAuth?, token: string, uses: int, ent: EnterpriseToken, a: Auth?)
    requires AuthMerged(from, uses, ent).Ok?
    requires var v := WithToken(AuthMerged(from, uses, ent).value, token);
      ViewOf(a) == if salt.Some? then AuthOptHashed(salt.value, hmacAccessor, v) else v
    ensures a == null <==> from == null
    ensures from != null ==> AuthSays(salt, hmacAccessor, from, token, uses, a) && MetadataSays(from, ent, a)
  {
    hide AuthMerged, MetadataSays, AuthSays;
    MergedMeans(from, uses, ent);
    if from != null {
      if salt.Some? {
        AuthMeans(salt.value, hmacAccessor, from, token, uses, ent, a);
      } else {
        RawAuthMeans(hmacAccessor, from, token, uses, ent, a);
      }
    }
  }

  lemma RequestMeans(cfg: Config, salt: Option<Salt>, ev: Event, s: Shapes, e: Entry, out: Shapes)
    requires ev.request != null && RawReq(ev, s).Ok? && (salt.None? ==> cfg.raw)
    requires EntryReq(e, out) == FinalReq(cfg, salt, ev, RawReq(ev, s).value)
    ensures RequestSays(cfg, SaltFor(cfg, salt), ev, s, e, out)
  {
    hide AuthMerged, MetadataSays, AuthSays, HashedData, TreeOf;
    AuthOptMeans(SaltFor(cfg, salt), cfg.hmacAccessor, ev.auth, ev.request.inboundSSCToken, ev.request.clientTokenRemainingUses,
                 ev.request.enterprise, e.auth);
  }

  lemma ResponseMeans(cfg: Config, salt: Option<Salt>, jwt: string -> Option<string>, ev: Event, s: Shapes, e: Entry, out: Shapes)
    requires ev.request != null && RawRespOpt(cfg, jwt, ev, s).Ok? && (salt.None? ==> cfg.raw)
    requires EntryResp(e, out) == FinalResp(cfg, salt, ev, RawRespOpt(cfg, jwt, ev, s).value)
    ensures ResponseSays(cfg, SaltFor(cfg, salt), jwt, ev, s, e, out)
  {
    hide AuthMerged, MetadataSays, AuthSays, HashedData, HashedResponseData, ElideKid, TreeOf;
    if e.response != null {
      AuthOptMeans(SaltFor(cfg, salt), cfg.hmacAccessor, ev.response.auth, "", ev.request.clientTokenRemainingUses,
                   ev.request.enterprise, e.response.auth);
    }
  }

  lemma ElideMarshals(salt: Salt, t: Tree)
    requires t.MapTree?
    ensures Marshals(salt, Elide(t)) <==> Marshals(salt, t)
  {
    var u := Elide(t);
    assert forall k :: k in t.kids && t.kids[k].LeafTree? ==> u.kids[k] == t.kids[k];
    assert forall k :: k in t.kids && !t.kids[k].LeafTree? ==> !(u.kids[k].LeafTree? && u.kids[k].scalar.Marshaler?);
  }

  /** An entry can be created from the event: there is a request, the auths can be merged, and what must be marshaled can
      be. */
  ghost predicate Creatable(cfg: Config, salt: Salt, ev: Event, s: Shapes)
    reads ev.request, ev.response
  {
    var resp := ev.isResponse && ev.response != null;
    && ev.request != null && Mergeable(ev.auth, ev.request.enterprise)
    && (resp ==> Mergeable(ev.response.auth, ev.request.enterprise))
    && (cfg.raw ||
      (&& TreeMarshals(salt, TreeOf(s.reqData)) && (ev.isResponse ==> TreeMarshals(salt, TreeOf(s.suppReq)))
       && (resp ==> TreeMarshals(salt, TreeOf(s.respData)) && TreeMarshals(salt, TreeOf(s.suppResp)))))
  }

  lemma CreatableMeans(cfg: Config, salt: Salt, jwt: string -> Option<string>, ev: Event, s: Shapes)
    ensures var req, resp := RawReq(ev, s), RawRespOpt(cfg, jwt, ev, s);
      Creatable(cfg, salt, ev, s) <==> req.Ok? && resp.Ok? && (cfg.raw || ViewsMarshal(salt, req.value, resp.value))
  {
    hide AuthMerged, Mergeable, Marshals, TreeOf;
    if ev.request != null {
      MergedMeans(ev.auth, ev.request.clientTokenRemainingUses, ev.request.enterprise);
      if ev.response != null {
        MergedMeans(ev.response.auth, ev.request.clientTokenRemainingUses, ev.request.enterprise);
        var data := TreeOf(s.respData);
        if data.Some? && data.value.MapTree? {
          ElideMarshals(salt, data.value);
        }
      }
    }
  }

  /** createEntry: what the entry says of the event, field by field, and when there is one. Only containers the entry
      shares with the caller may change, and none for a request event or a raw entry. */
  method CreateEntry(cfg: Config, config: AuditHeaders.HeadersConfig, salt: Option<Salt>, jwt: string -> Option<string>,
                     ev: Event, ghost s: Shapes) returns (r: Result<Entry>, ghost out: Shapes)
    requires EventHolds(ev, s)
    modifies Written(cfg, ev, s)
    ensures salt.Some? ==> (r.Ok? <==> Creatable(cfg, salt.value, ev, s))
    ensures r.Ok? ==> ev.request != null && DataHolds(r.value, out) && (salt.None? ==> cfg.raw)
    ensures r.Ok? ==> RequestSays(cfg, SaltFor(cfg, salt), ev, s, r.value, out)
    ensures r.Ok? ==> ResponseSays(cfg, SaltFor(cfg, salt), jwt, ev, s, r.value, out)
    ensures r.Ok? ==> HeadersApplied(config, salt, ev.request.headers, r.value.request.headers)
  {
    hide *;
    ghost var copy;
    CreatableWhen(cfg, salt, jwt, ev, s);
    r, out, copy := FormEntry(cfg, config, salt, jwt, ev, s);
    if r.Ok? {
      RequestMeans(cfg, salt, ev, s, r.value, out);
      ResponseMeans(cfg, salt, jwt, ev, s, r.value, out);
    }
  }

  lemma CreatableWhen(cfg: Config, salt: Option<Salt>, jwt: string -> Option<string>, ev: Event, s: Shapes)
    ensures var req, resp := RawReq(ev, s), RawRespOpt(cfg, jwt, ev, s);
      salt.Some? ==> (Creatable(cfg, salt.value, ev, s) <==>
                      req.Ok? && resp.Ok? && (cfg.raw || ViewsMarshal(salt.value, req.value, resp.value)))
  {
    if salt.Some? {
      CreatableMeans(cfg, salt.value, jwt, ev, s);
    }
  }
}
