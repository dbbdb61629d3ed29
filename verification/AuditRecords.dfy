/** The records of an audit entry, how they are made from the caller's and how they are hashed
    (audit/entry_formatter.go, audit/types.go, audit/hashstructure.go). */
module AuditRecords {
  import opened Basics
  import opened DataTree
  import opened CloneData
  import opened EntryData
  import opened HashData
  import AuditHeaders

  // ---- What the caller hands over ----

  class StrMap {
    var entries: map<string, string>

    constructor (entries: map<string, string>)
      ensures this.entries == entries
    {
      this.entries := entries;
    }

    method PutText(k: string, v: string)
      modifies this
      ensures entries == PutUnlessEmpty(old(entries), k, v)
    {
      if v != "" {
        entries := entries[k := v];
      }
    }

    method PutJson(k: string, v: Option<Result<string>>) returns (ok: bool)
      modifies this
      ensures var r := PutMarshaled(Ok(old(entries)), k, v); ok == r.Ok? && (ok ==> entries == r.value)
    {
      if v.Some? {
        if v.value.Err? {
          return false;
        }
        entries := entries[k := v.value.value];
      }
      ok := true;
    }
  }

  class LogicalAuth {
    var clientToken: string
    var accessor: string
    var displayName: string
    var actorEntityId: string
    var actorEntityName: string
    var metadata: StrMap?
  }

  /** Enterprise token fields; the lists are given as the outcome of marshaling them, absent when empty. */
  datatype EnterpriseToken = EnterpriseToken(
    metadata: string, issuer: string, transaction: string,
    audience: Option<Result<string>>, authorizationDetails: Option<Result<string>>)

  class LogicalRequest {
    var clientToken: string
    var clientTokenAccessor: string
    var clientTokenRemainingUses: int
    var inboundSSCToken: string
    var isList: bool
    var path: string
    var enterprise: EnterpriseToken
    var data: Container?
    var headers: AuditHeaders.HeaderMap?
  }

  datatype WrapInfo = WrapInfo(token: string, accessor: string, wrappedAccessor: string, creationPath: string)

  class LogicalResponse {
    var auth: LogicalAuth?
    var data: Container?
    var wrapInfo: Option<WrapInfo>
    var supplementalRequest: Container?
    var supplementalResponse: Container?
  }

  // ---- The audit auth ----

  datatype AuthView = AuthView(clientToken: string, accessor: string, displayName: string, remainingUses: int,
                               metadata: Option<map<string, string>>)

  class Auth {
    var clientToken: string
    var accessor: string
    var displayName: string
    var remainingUses: int
    var metadata: StrMap?

    constructor (clientToken: string, accessor: string, displayName: string, remainingUses: int, metadata: StrMap?)
      ensures this.metadata == metadata
      ensures this.clientToken == clientToken && this.accessor == accessor
      ensures this.displayName == displayName && this.remainingUses == remainingUses
    {
      this.clientToken, this.accessor, this.displayName := clientToken, accessor, displayName;
      this.remainingUses, this.metadata := remainingUses, metadata;
    }

    function View(): AuthView
      reads this, metadata
    {
      AuthView(clientToken, accessor, displayName, remainingUses, Entries(metadata))
    }
  }

  function Entries(m: StrMap?): Option<map<string, string>>
    reads m
  {
    if m == null then None else Some(m.entries)
  }

  function OrEmpty(m: Option<map<string, string>>): map<string, string> {
    if m.Some? then m.value else map[]
  }

  function PutUnlessEmpty(m: map<string, string>, k: string, v: string): map<string, string> {
    if v == "" then m else m[k := v]
  }

  function WithActor(m: Option<map<string, string>>, id: string, name: string): Option<map<string, string>> {
    if id == "" && name == "" then m
    else Some(PutUnlessEmpty(PutUnlessEmpty(OrEmpty(m), "actor_entity_id", id), "actor_entity_name", name))
  }

  function AuthSpec(a: LogicalAuth, uses: int): AuthView
    reads a, a.metadata
  {
    AuthView(a.clientToken, a.accessor, a.displayName, uses,
             WithActor(Entries(a.metadata), a.actorEntityId, a.actorEntityName))
  }

  /** The audit auth is new through and through: neither it nor its metadata map is the caller's. */
  method NewAuth(input: LogicalAuth?, uses: int) returns (a: Auth?)
    ensures a == null <==> input == null
    ensures a != null ==> fresh(a) && (a.metadata != null ==> fresh(a.metadata)) && a.View() == AuthSpec(input, uses)
  {
    if input == null {
      return null;
    }
    var metadata: StrMap? := null;
    if input.metadata != null {
      metadata := new StrMap(input.metadata.entries);
    }
    if input.actorEntityId != "" || input.actorEntityName != "" {
      if metadata == null {
        metadata := new StrMap(map[]);
      }
      if input.actorEntityId != "" {
        metadata.entries := metadata.entries["actor_entity_id" := input.actorEntityId];
      }
      if input.actorEntityName != "" {
        metadata.entries := metadata.entries["actor_entity_name" := input.actorEntityName];
      }
    }
    a := new Auth(input.clientToken, input.accessor, input.displayName, uses, metadata);
  }

  function PutMarshaled(m: Result<map<string, string>>, k: string, v: Option<Result<string>>): Result<map<string, string>> {
    if m.Err? || v.None? then m
    else if v.value.Err? then Err(v.value.error)
    else Ok(m.value[k := v.value.value])
  }

  predicate NoEnterprise(e: EnterpriseToken) {
    e.metadata == "" && e.issuer == "" && e.transaction == "" && e.audience.None? && e.authorizationDetails.None?
  }

  function Merged(m: Option<map<string, string>>, e: EnterpriseToken): Result<Option<map<string, string>>> {
    if NoEnterprise(e) then Ok(m)
    else
      var plain := PutUnlessEmpty(PutUnlessEmpty(PutUnlessEmpty(OrEmpty(m),
        "enterprise_token_metadata", e.metadata), "enterprise_token_issuer", e.issuer),
        "enterprise_token_transaction", e.transaction);
      var all := PutMarshaled(PutMarshaled(Ok(plain), "enterprise_token_audience", e.audience),
        "enterprise_token_authorization_details", e.authorizationDetails);
      if all.Err? then Err(all.error) else Ok(Some(all.value))
  }

  method MergeEnterpriseTokenMetadata(a: Auth?, e: EnterpriseToken) returns (r: Result<()>)
    modifies a, if a == null then null else a.metadata
    ensures a != null ==> (r.Ok? <==> Merged(Entries(old(a.metadata)), e).Ok?)
    ensures a != null && r.Ok? ==> a.View() == old(a.View()).(metadata := old(Merged(Entries(a.metadata), e).value))
    ensures a == null ==> r.Ok?
    ensures a != null ==> a.metadata == old(a.metadata) || fresh(a.metadata)
  {
    if a == null || NoEnterprise(e) {
      return Ok(());
    }
    if a.metadata == null {
      a.metadata := new StrMap(map[]);
    }
    var m := a.metadata;
    m.PutText("enterprise_token_metadata", e.metadata);
    m.PutText("enterprise_token_issuer", e.issuer);
    m.PutText("enterprise_token_transaction", e.transaction);
    var ok := m.PutJson("enterprise_token_audience", e.audience);
    if !ok {
      return Err("unable to marshal enterprise token audience for audit");
    }
    ok := m.PutJson("enterprise_token_authorization_details", e.authorizationDetails);
    if !ok {
      return Err("unable to marshal enterprise token authorization details for audit");
    }
    return Ok(());
  }

  function HashUnlessEmpty(salt: Salt, s: string): string {
    if s == "" then s else salt.hmac(s)
  }

  function AuthHashed(salt: Salt, hmacAccessor: bool, v: AuthView): AuthView {
    v.(clientToken := HashUnlessEmpty(salt, v.clientToken),
       accessor := HashAccessor(salt, hmacAccessor, v.accessor))
  }

  function ViewOf(a: Auth?): Option<AuthView>
    reads a, if a == null then null else a.metadata
  {
    if a == null then None else Some(a.View())
  }

  function AuthOptHashed(salt: Salt, hmacAccessor: bool, v: Option<AuthView>): Option<AuthView> {
    if v.None? then v else Some(AuthHashed(salt, hmacAccessor, v.value))
  }

  method HashAuth(salt: Option<Salt>, a: Auth?, hmacAccessor: bool) returns (r: Result<()>)
    modifies a
    ensures r.Ok? <==> a == null || salt.Some?
    ensures a != null ==> a.metadata == old(a.metadata)
    ensures a != null && r.Ok? ==> a.View() == AuthHashed(salt.value, hmacAccessor, old(a.View()))
  {
    if a == null {
      return Ok(());
    }
    if salt.None? {
      return Err("no salt");
    }
    if a.clientToken != "" {
      a.clientToken := salt.value.hmac(a.clientToken);
    }
    if hmacAccessor && a.accessor != "" {
      a.accessor := salt.value.hmac(a.accessor);
    }
    return Ok(());
  }

  // ---- Auths as an entry first has them ----

  function AuthMerged(a: LogicalAuth?, uses: int, e: EnterpriseToken): Result<Option<AuthView>>
    reads a, if a == null then null else a.metadata
  {
    if a == null then Ok(None)
    else
      var m := Merged(AuthSpec(a, uses).metadata, e);
      if m.Err? then Err(m.error) else Ok(Some(AuthSpec(a, uses).(metadata := m.value)))
  }

  function WithToken(v: Option<AuthView>, token: string): Option<AuthView> {
    if v.Some? && token != "" then Some(v.value.(clientToken := token)) else v
  }

  method MergedAuth(input: LogicalAuth?, uses: int, e: EnterpriseToken) returns (r: Result<Auth?>)
    ensures r.Ok? <==> AuthMerged(input, uses, e).Ok?
    ensures r.Ok? ==> ViewOf(r.value) == AuthMerged(input, uses, e).value
    ensures r.Ok? && r.value != null ==> fresh(r.value) && (r.value.metadata != null ==> fresh(r.value.metadata))
  {
    var a := NewAuth(input, uses);
    var m := MergeEnterpriseTokenMetadata(a, e);
    if m.Err? {
      return Err(m.error);
    }
    return Ok(a);
  }

  // ---- Headers ----

  method CloneHeaders(h: AuditHeaders.HeaderMap?) returns (h': AuditHeaders.HeaderMap?)
    ensures h' == null <==> h == null
    ensures h' != null ==> fresh(h') && forall k :: k in h'.entries ==> fresh(h'.entries[k])
    ensures AuditHeaders.LinesOf(h') == AuditHeaders.LinesOf(h)
  {
    if h == null {
      return null;
    }
    var todo, entries: map<string, array<string>> := h.entries.Keys, map[];
    while todo != {}
      invariant todo <= h.entries.Keys && entries.Keys == h.entries.Keys - todo
      invariant forall k :: k in entries ==> fresh(entries[k]) && entries[k][..] == h.entries[k][..]
    {
      var k :| k in todo;
      var ok, vals := AuditHeaders.FormatValues(h.entries[k], false, None);
      entries := entries[k := vals];
      todo := todo - {k};
    }
    h' := new AuditHeaders.HeaderMap(entries);
  }

  function HmacOf(salt: Option<Salt>): Option<string -> string> {
    if salt.Some? then Some(salt.value.hmac) else None
  }

  ghost predicate HeadersApplied(config: AuditHeaders.HeadersConfig, salt: Option<Salt>, from: AuditHeaders.HeaderMap?,
                                 to: AuditHeaders.HeaderMap?)
    reads config, from, to, AuditHeaders.EntriesOf(from).Values, AuditHeaders.EntriesOf(to).Values
  {
    AuditHeaders.Applied(config.headerSettings, AuditHeaders.LinesOf(from), HmacOf(salt), AuditHeaders.LinesOf(to))
  }

  method RequestHeaders(config: AuditHeaders.HeadersConfig, salt: Option<Salt>, h: AuditHeaders.HeaderMap?)
    returns (r: Result<AuditHeaders.HeaderMap>)
    ensures r.Ok? ==> fresh(r.value) && HeadersApplied(config, salt, h, r.value)
    ensures r.Err? ==> salt.None?
  {
    var copy := CloneHeaders(h);
    r := config.ApplyConfig(copy, HmacOf(salt));
  }

  // ---- The audit request ----

  class Request {
    var clientToken: string
    var clientTokenAccessor: string
    var path: string
    var isList: bool
    var data: Container?
    var headers: AuditHeaders.HeaderMap?
    var supplemental: Container?

    constructor (req: LogicalRequest, data: Container?, headers: AuditHeaders.HeaderMap?, supplemental: Container?)
      ensures clientToken == req.clientToken && clientTokenAccessor == req.clientTokenAccessor
      ensures path == req.path && isList == req.isList
      ensures this.data == data && this.headers == headers && this.supplemental == supplemental
    {
      clientToken, clientTokenAccessor := req.clientToken, req.clientTokenAccessor;
      path, isList := req.path, req.isList;
      this.data, this.headers, this.supplemental := data, headers, supplemental;
    }
  }

  /** What hashing makes of a data map that may be absent. */
  ghost function HashedOpt(salt: Salt, ignored: seq<string>, s: Option<Shape>): Option<Shape>
    requires Good(s)
  {
    if s.None? then None else Some(HashedShape(salt, ignored, s.value))
  }

  method HashOptional(salt: Salt, m: Container?, ignored: seq<string>, ghost s: Option<Shape>) returns (r: Result<()>)
    requires Attached(m, s)
    modifies FootOf(s)
    ensures Good(HashedOpt(salt, ignored, s)) && FootOf(HashedOpt(salt, ignored, s)) == FootOf(s)
    ensures r.Ok? <==> TreeMarshals(salt, TreeOf(s))
    ensures r.Ok? ==> Attached(m, HashedOpt(salt, ignored, s))
  {
    r := Ok(());
    if m != null {
      HashedShapeProps(salt, ignored, s.value);
      r := HashMap(salt, m, ignored, s.value);
    }
  }

  function HashAccessor(salt: Salt, hmacAccessor: bool, s: string): string {
    if hmacAccessor then HashUnlessEmpty(salt, s) else s
  }

  method HashRequest(salt: Option<Salt>, req: Request, hmacAccessor: bool, ignored: seq<string>,
                     ghost data: Option<Shape>, ghost supp: Option<Shape>) returns (r: Result<()>)
    requires Attached(req.data, data) && Attached(req.supplemental, supp) && FootOf(data) !! FootOf(supp)
    modifies req`clientToken, req`clientTokenAccessor, FootOf(data), FootOf(supp)
    ensures r.Ok? <==> salt.Some? && TreeMarshals(salt.value, TreeOf(data)) && TreeMarshals(salt.value, TreeOf(supp))
    ensures r.Ok? ==> req.clientToken == HashUnlessEmpty(salt.value, old(req.clientToken))
    ensures r.Ok? ==> req.clientTokenAccessor == HashAccessor(salt.value, hmacAccessor, old(req.clientTokenAccessor))
    ensures r.Ok? ==> Attached(req.data, HashedOpt(salt.value, ignored, data))
    ensures r.Ok? ==> Attached(req.supplemental, HashedOpt(salt.value, ignored, supp))
  {
    if salt.None? {
      return Err("no salt");
    }
    if req.clientToken != "" {
      req.clientToken := salt.value.hmac(req.clientToken);
    }
    if hmacAccessor && req.clientTokenAccessor != "" {
      req.clientTokenAccessor := salt.value.hmac(req.clientTokenAccessor);
    }
    r := HashOptional(salt.value, req.data, ignored, data);
    if r.Err? {
      return;
    }
    r := HashOptional(salt.value, req.supplemental, ignored, supp);
  }

  // ---- The audit response ----

  class Response {
    var auth: Auth?
    var data: Container?
    var wrapInfo: Option<WrapInfo>
    var supplemental: Container?

    constructor (auth: Auth?, data: Container?, wrapInfo: Option<WrapInfo>, supplemental: Container?)
      ensures this.auth == auth && this.data == data && this.wrapInfo == wrapInfo && this.supplemental == supplemental
    {
      this.auth, this.data, this.wrapInfo, this.supplemental := auth, data, wrapInfo, supplemental;
    }
  }

  /** The token inside a JWT, if the wrapping token is one. */
  function Unwrapped(jwt: string -> Option<string>, w: Option<WrapInfo>): Option<WrapInfo> {
    if w.Some? && jwt(w.value.token).Some? then Some(w.value.(token := jwt(w.value.token).value)) else w
  }

  function WrapHashed(salt: Salt, hmacAccessor: bool, w: Option<WrapInfo>): Option<WrapInfo> {
    if w.None? then w
    else Some(w.value.(
      token := salt.hmac(w.value.token),
      accessor := if hmacAccessor then salt.hmac(w.value.accessor) else w.value.accessor,
      wrappedAccessor := HashAccessor(salt, hmacAccessor, w.value.wrappedAccessor)))
  }

  ghost function HashedRespTree(salt: Salt, ignored: seq<string>, t: Option<Tree>): Option<Tree> {
    if t.Some? && t.value.MapTree? then Some(HashedResponseData(salt, ignored, t.value)) else t
  }

  lemma MapShapeFacts(sh: Shape)
    requires sh.MapShape? && Unshared(sh)
    ensures sh.c in Foot(sh) && Abs(sh).MapTree?
  {
  }

  /** Every value of an absent or present data map that must be marshaled can be. */
  ghost predicate TreeMarshals(salt: Salt, t: Option<Tree>) {
    t.Some? && t.value.MapTree? ==> Marshals(salt, t.value)
  }

  lemma RawBodyMarshals(salt: Salt, t: Tree)
    requires t.MapTree?
    ensures Marshals(salt, RawBodyAsText(t)) <==> Marshals(salt, t)
  {
    var t' := RawBodyAsText(t);
    if t' != t {
      assert forall k :: k in t.kids && k != HTTP_RAW_BODY ==> t'.kids[k] == t.kids[k];
    }
  }

  method HashResponseData(salt: Salt, m: Container?, ignored: seq<string>, ghost s: Option<Shape>)
    returns (r: Result<()>, ghost s': Option<Shape>)
    requires Attached(m, s)
    modifies FootOf(s)
    ensures FootOf(s') == FootOf(s)
    ensures r.Ok? <==> TreeMarshals(salt, TreeOf(s))
    ensures r.Ok? ==> Attached(m, s') && TreeOf(s') == HashedRespTree(salt, ignored, TreeOf(s))
  {
    hide Holds, Unshared, Abs;
    r, s' := Ok(()), s;
    if m != null {
      MapShapeFacts(s.value);
      RawBodyMarshals(salt, Abs(s.value));
      var raw := TextualRawBody(m, s.value);
      HashedShapeProps(salt, ignored, raw);
      r := HashMap(salt, m, ignored, raw);
      s' := Some(HashedShape(salt, ignored, raw));
    }
  }

  method HashResponse(salt: Option<Salt>, resp: Response, hmacAccessor: bool, ignored: seq<string>,
                      ghost data: Option<Shape>, ghost supp: Option<Shape>)
    returns (r: Result<()>, ghost data': Option<Shape>)
    requires Attached(resp.data, data) && Attached(resp.supplemental, supp) && FootOf(data) !! FootOf(supp)
    modifies resp`wrapInfo, resp.auth, FootOf(data), FootOf(supp)
    ensures FootOf(data') == FootOf(data)
    ensures r.Ok? <==> salt.Some? && TreeMarshals(salt.value, TreeOf(data)) && TreeMarshals(salt.value, TreeOf(supp))
    ensures r.Ok? ==> ViewOf(resp.auth) == AuthOptHashed(salt.value, hmacAccessor, old(ViewOf(resp.auth)))
    ensures r.Ok? ==> resp.wrapInfo == WrapHashed(salt.value, hmacAccessor, old(resp.wrapInfo))
    ensures r.Ok? ==> Attached(resp.data, data') && TreeOf(data') == HashedRespTree(salt.value, ignored, TreeOf(data))
    ensures r.Ok? ==> Attached(resp.supplemental, HashedOpt(salt.value, ignored, supp))
  {
    hide Holds, Unshared, Abs;
    FeetAllocated(data);
    FeetAllocated(supp);
    data' := data;
    if salt.None? {
      return Err("no salt"), data';
    }
    r := HashAuth(salt, resp.auth, hmacAccessor);
    r, data' := HashResponseData(salt.value, resp.data, ignored, data);
    if r.Err? {
      return;
    }
    r := HashOptional(salt.value, resp.supplemental, ignored, supp);
    if r.Err? {
      return;
    }
    resp.wrapInfo := WrapHashed(salt.value, hmacAccessor, resp.wrapInfo);
  }
}
