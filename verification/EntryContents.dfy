/** What an audit entry says, field by field: its records against the caller's, with nothing in between
    (audit/entry_formatter.go, audit/hashstructure.go). */
module EntryContents {
  import opened Basics
  import opened DataTree
  import opened HashData
  import opened EntryData
  import opened AuditRecords

  // ---- Auth ----

  function MetaAt(m: StrMap?, k: string): Option<string>
    reads m
  {
    if m != null && k in m.entries then Some(m.entries[k]) else None
  }

  /** Token and accessor as the entry shows them; without a salt (a raw entry) as they are. An inbound consistency token
      takes the place of the client token. */
  ghost predicate AuthSays(salt: Option<Salt>, hmacAccessor: bool, from: LogicalAuth, token: string, uses: int, a: Auth)
    reads from, a
  {
    var shown := if token != "" then token else from.clientToken;
    && a.clientToken == (if salt.Some? && shown != "" then salt.value.hmac(shown) else shown)
    && a.accessor == (if salt.Some? && hmacAccessor && from.accessor != "" then salt.value.hmac(from.accessor) else from.accessor)
    && a.displayName == from.displayName && a.remainingUses == uses
  }

  /** What the entry's metadata has under a key: the actor or enterprise field of that name if it is present, and what
      the caller's metadata has otherwise. */
  function MetaShown(actorId: string, actorName: string, e: EnterpriseToken, k: string, own: Option<string>): Option<string> {
    if k == "actor_entity_id" && actorId != "" then Some(actorId)
    else if k == "actor_entity_name" && actorName != "" then Some(actorName)
    else if k == "enterprise_token_metadata" && e.metadata != "" then Some(e.metadata)
    else if k == "enterprise_token_issuer" && e.issuer != "" then Some(e.issuer)
    else if k == "enterprise_token_transaction" && e.transaction != "" then Some(e.transaction)
    else if k == "enterprise_token_audience" && e.audience.Some? && e.audience.value.Ok? then Some(e.audience.value.value)
    else if k == "enterprise_token_authorization_details" && e.authorizationDetails.Some? && e.authorizationDetails.value.Ok?
    then Some(e.authorizationDetails.value.value)
    else own
  }

  ghost predicate MetadataSays(from: LogicalAuth, e: EnterpriseToken, a: Auth)
    reads from, from.metadata, a, a.metadata
  {
    forall k :: MetaAt(a.metadata, k) ==
      MetaShown(from.actorEntityId, from.actorEntityName, e, k, MetaAt(from.metadata, k))
  }

  /** An auth can be merged unless a list of the enterprise token cannot be marshaled. */
  predicate Mergeable(a: LogicalAuth?, e: EnterpriseToken) {
    a == null || (!(e.audience.Some? && e.audience.value.Err?) && !(e.authorizationDetails.Some? && e.authorizationDetails.value.Err?))
  }

  lemma MergedMeans(a: LogicalAuth?, uses: int, e: EnterpriseToken)
    ensures AuthMerged(a, uses, e).Ok? <==> Mergeable(a, e)
    ensures AuthMerged(a, uses, e).Ok? ==> (AuthMerged(a, uses, e).value == None <==> a == null)
  {
  }

  function Look(m: Option<map<string, string>>, k: string): Option<string> {
    if m.Some? && k in m.value then Some(m.value[k]) else None
  }

  lemma LookActor(m: Option<map<string, string>>, id: string, name: string, k: string)
    ensures Look(WithActor(m, id, name), k) ==
      if k == "actor_entity_name" && name != "" then Some(name)
      else if k == "actor_entity_id" && id != "" then Some(id)
      else Look(m, k)
  {
  }

  lemma LookMerged(m: Option<map<string, string>>, e: EnterpriseToken, k: string)
    requires Merged(m, e).Ok?
    ensures Look(Merged(m, e).value, k) ==
      if k == "enterprise_token_authorization_details" && e.authorizationDetails.Some? && e.authorizationDetails.value.Ok?
      then Some(e.authorizationDetails.value.value)
      else if k == "enterprise_token_audience" && e.audience.Some? && e.audience.value.Ok? then Some(e.audience.value.value)
      else if k == "enterprise_token_transaction" && e.transaction != "" then Some(e.transaction)
      else if k == "enterprise_token_issuer" && e.issuer != "" then Some(e.issuer)
      else if k == "enterprise_token_metadata" && e.metadata != "" then Some(e.metadata)
      else Look(m, k)
  {
  }

  /** The keys are told apart by their lengths, but for two. */
  lemma KeysDiffer()
    ensures |"actor_entity_id"| == 15 && |"actor_entity_name"| == 17 && |"enterprise_token_issuer"| == 23
    ensures |"enterprise_token_metadata"| == |"enterprise_token_audience"| == 25
    ensures "enterprise_token_metadata" != "enterprise_token_audience"
    ensures |"enterprise_token_transaction"| == 28 && |"enterprise_token_authorization_details"| == 38
  {
    assert "enterprise_token_metadata"[17] != "enterprise_token_audience"[17];
  }

  lemma LookShown(m: Option<map<string, string>>, actorId: string, actorName: string, e: EnterpriseToken, k: string)
    requires Merged(WithActor(m, actorId, actorName), e).Ok?
    ensures Look(Merged(WithActor(m, actorId, actorName), e).value, k) == MetaShown(actorId, actorName, e, k, Look(m, k))
  {
    hide WithActor, Merged;
    KeysDiffer();
    LookActor(m, actorId, actorName, k);
    LookMerged(WithActor(m, actorId, actorName), e, k);
  }

  lemma MetadataMeans(from: LogicalAuth, uses: int, e: EnterpriseToken, a: Auth)
    requires AuthMerged(from, uses, e).Ok? && Entries(a.metadata) == AuthMerged(from, uses, e).value.value.metadata
    ensures MetadataSays(from, e, a)
  {
    hide WithActor, Merged, MetaShown;
    forall k ensures MetaAt(a.metadata, k) == MetaShown(from.actorEntityId, from.actorEntityName, e, k, MetaAt(from.metadata, k)) {
      LookShown(Entries(from.metadata), from.actorEntityId, from.actorEntityName, e, k);
    }
  }

  /** An auth with the hashed view of the merged auth says that. */
  lemma AuthMeans(salt: Salt, hmacAccessor: bool, from: LogicalAuth, token: string, uses: int, e: EnterpriseToken, a: Auth)
    requires AuthMerged(from, uses, e).Ok?
    requires ViewOf(a) == AuthOptHashed(salt, hmacAccessor, WithToken(AuthMerged(from, uses, e).value, token))
    ensures AuthSays(Some(salt), hmacAccessor, from, token, uses, a) && MetadataSays(from, e, a)
  {
    MergedMeans(from, uses, e);
    MetadataMeans(from, uses, e, a);
  }

  lemma RawAuthMeans(hmacAccessor: bool, from: LogicalAuth, token: string, uses: int, e: EnterpriseToken, a: Auth)
    requires AuthMerged(from, uses, e).Ok?
    requires ViewOf(a) == WithToken(AuthMerged(from, uses, e).value, token)
    ensures AuthSays(None, hmacAccessor, from, token, uses, a) && MetadataSays(from, e, a)
  {
    MergedMeans(from, uses, e);
    MetadataMeans(from, uses, e, a);
  }

  // ---- Data and wrapping info ----

  /** A data map of the entry against the caller's: as it was, or hashed with these keys exempt. */
  ghost predicate DataSays(salt: Option<Salt>, ignored: seq<string>, from: Option<Tree>, to: Option<Tree>) {
    && (to.None? <==> from.None?)
    && (from.Some? && from.value.MapTree? ==> to == Some(if salt.Some? then HashedData(salt.value, ignored, from.value) else from.value))
  }

  /** Response data is elided first if it has to be. */
  ghost predicate ResponseDataSays(salt: Option<Salt>, ignored: seq<string>, elide: bool, from: Option<Tree>, to: Option<Tree>) {
    && (to.None? <==> from.None?)
    && (from.Some? && from.value.MapTree? ==>
      var t := if elide then Elide(from.value) else from.value;
      to == Some(if salt.Some? then HashedResponseData(salt.value, ignored, t) else t))
  }

  /** The wrapping token, taken out of a JWT if it is one, and the two accessors. */
  ghost predicate WrapSays(salt: Option<Salt>, hmacAccessor: bool, jwt: string -> Option<string>, from: WrapInfo, to: WrapInfo) {
    var token := if jwt(from.token).Some? then jwt(from.token).value else from.token;
    && to.token == (if salt.Some? then salt.value.hmac(token) else token)
    && to.accessor == (if salt.Some? && hmacAccessor then salt.value.hmac(from.accessor) else from.accessor)
    && to.wrappedAccessor == (if salt.Some? && hmacAccessor && from.wrappedAccessor != ""
                              then salt.value.hmac(from.wrappedAccessor) else from.wrappedAccessor)
    && to.creationPath == from.creationPath
  }
}
