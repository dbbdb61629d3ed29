/** Read-then-write patches and rollbacks of a versioned secret (api/kv_v2.go), any number of clients against one server.

    The server keeps the versions of one secret, numbered from 1, and admits a checked write only at the version it
    names. A client's call is a sequence of requests; other clients' requests come in between. */
module KvVersions {
  import opened Basics

  type Data = map<string, int>

  /** Who wrote a version, and in which epoch its client read the version named in the write or fetched the target. */
  datatype Origin =
    | Plain
    | ByPatch(client: nat, newData: Data, readEpoch: nat)
    | ByRollback(client: nat, target: nat, readEpoch: nat, fetchEpoch: nat)

  /** `content` is what was written; it can be read unless the version is deleted or destroyed. */
  datatype Version = Version(content: Data, deleted: bool, destroyed: bool, origin: Origin)

  /** Deleting the metadata removes every version and begins a new epoch; `past` keeps what the earlier epochs held. */
  datatype Server = Server(versions: seq<Version>, past: seq<seq<Version>>)

  function Epoch(s: Server): nat {
    |s.past|
  }

  /** All versions there ever were, by epoch; the present epoch comes last. */
  function History(s: Server): seq<seq<Version>> {
    s.past + [s.versions]
  }

  // ---- The server's side ----

  datatype Metadata = Metadata(version: nat, deleted: bool, destroyed: bool)
  datatype Secret = Secret(data: Option<Data>, metadata: Option<Metadata>)

  /** What a read of a version returns: the data of a deleted or destroyed version is absent, its metadata is not. */
  function Read(s: Server, v: int): Option<Secret> {
    var n := if v == 0 then |s.versions| else v;
    if 1 <= n <= |s.versions| then
      var x := s.versions[n - 1];
      Some(Secret(if x.deleted || x.destroyed then None else Some(x.content), Some(Metadata(n, x.deleted, x.destroyed))))
    else None
  }

  function Append(s: Server, content: Data, origin: Origin): Server {
    s.(versions := s.versions + [Version(content, false, false, origin)])
  }

  /** A write with check-and-set is admitted when the current version is the one it names, 0 if there is no secret. */
  predicate Admits(s: Server, cas: nat) {
    |s.versions| == cas
  }

  datatype Request =
    | Put(data: Data)
    | Delete(which: set<nat>)
    | Undelete(which: set<nat>)
    | Destroy(which: set<nat>)
    | DeleteMetadata

  function Marked(x: Version, v: nat, r: Request): Version {
    match r
    case Delete(which) => if v in which then x.(deleted := true) else x
    case Undelete(which) => if v in which then x.(deleted := false) else x
    case Destroy(which) => if v in which then x.(destroyed := true) else x
    case _ => x
  }

  function Serve(s: Server, r: Request): Server {
    match r
    case Put(data) => Append(s, data, Plain)
    case DeleteMetadata => Server([], History(s))
    case _ => s.(versions := seq(|s.versions|, i requires 0 <= i < |s.versions| => Marked(s.versions[i], i + 1, r)))
  }

  /** What each request does to the versions, one by one: a write adds one that can be read, a mark changes only the
      versions it names and never their content, and deleting the metadata leaves none. */
  lemma ServeMeans(s: Server, r: Request, n: nat)
    requires 1 <= n <= |Serve(s, r).versions|
    ensures var v, v' := s.versions, Serve(s, r).versions;
      && !r.DeleteMetadata? && |v'| == (if r.Put? then |v| + 1 else |v|)
      && (n > |v| ==> v'[n - 1].content == r.data && Read(Serve(s, r), 0).value.data == Some(r.data))
      && (n <= |v| ==> v'[n - 1].content == v[n - 1].content && v'[n - 1].origin == v[n - 1].origin)
      && (n <= |v| ==> (v'[n - 1].deleted <==>
        (r.Delete? && n in r.which) || (v[n - 1].deleted && !(r.Undelete? && n in r.which))))
      && (n <= |v| ==> (v'[n - 1].destroyed <==> (r.Destroy? && n in r.which) || v[n - 1].destroyed))
  {
  }

  /** What can be read of a version: its content exactly when it is neither deleted nor destroyed. */
  lemma ReadMeans(s: Server, v: int)
    ensures Read(s, 0) == Read(s, |s.versions|)
    ensures Read(s, v).Some? <==> 1 <= v <= |s.versions| || (v == 0 && s.versions != [])
    ensures 1 <= v <= |s.versions| ==>
      && Read(s, v).value.metadata == Some(Metadata(v, s.versions[v - 1].deleted, s.versions[v - 1].destroyed))
      && (Read(s, v).value.data.Some? <==> !s.versions[v - 1].deleted && !s.versions[v - 1].destroyed)
      && (Read(s, v).value.data.Some? ==> Read(s, v).value.data.value == s.versions[v - 1].content)
  {
  }

  // ---- The client's side ----

  /** validateRollbackVersion */
  function ValidateRollbackVersion(x: Option<Secret>): Result<()> {
    if x.None? || x.value.data.None? then Err("no secret found")
    else if x.value.metadata.None? then Err("no version metadata found; rollback only works on existing data")
    else if x.value.metadata.value.deleted then Err("cannot roll back to a version that has been deleted")
    else if x.value.metadata.value.destroyed then Err("cannot roll back to a version that has been destroyed")
    else Ok(())
  }

  /** A version is accepted for rollback exactly when it exists and is neither deleted nor destroyed. */
  lemma RollbackAccepts(s: Server, v: int)
    ensures var n := if v == 0 then |s.versions| else v;
      ValidateRollbackVersion(Read(s, v)).Ok? <==>
      1 <= n <= |s.versions| && !s.versions[n - 1].deleted && !s.versions[n - 1].destroyed
  {
  }

  /** The new data copied key by key over the data that was read. */
  method Combine(existing: Data, newData: Data) returns (combined: Data)
    ensures combined == existing + newData
  {
    combined := existing;
    var todo := newData.Keys;
    while todo != {}
      invariant todo <= newData.Keys
      invariant combined == existing + map k | k in newData && k !in todo :: newData[k]
    {
      var k :| k in todo;
      combined := combined[k := newData[k]];
      todo := todo - {k};
    }
  }

  datatype Job = Patch(newData: Data) | Rollback(toVersion: int)

  /** Where a client's call is. `epoch`, `fetched` and `wrote` are the server's epochs when the client read the version
      that its write names, when it fetched the target of a rollback, and when the write was admitted. */
  datatype Client =
    | Idle
    | Called(job: Job)
    | Fetching(toVersion: int, cas: nat, epoch: nat)
    | Writing(job: Job, combined: Data, cas: nat, epoch: nat, target: nat, fetched: nat)
    | Replying(job: Job, version: nat, wrote: nat)
    | Succeeded(job: Job, version: nat, wrote: nat)
    | Failed

  datatype State = State(server: Server, clients: map<nat, Client>)

  function ClientOf(s: State, c: nat): Client {
    if c in s.clients then s.clients[c] else Idle
  }

  function OriginOf(c: nat, w: Client): Origin
    requires w.Writing?
  {
    match w.job
    case Patch(newData) => ByPatch(c, newData, w.epoch)
    case Rollback(_) => ByRollback(c, w.target, w.epoch, w.fetched)
  }

  /** The client's next request and what it does with the answer. */
  function Advance(s: Server, c: nat, x: Client): (Server, Client) {
    match x
    case Called(Patch(newData)) =>
      var existing := Read(s, 0);
      if existing.None? || existing.value.data.None? || existing.value.metadata.None? then (s, Failed)
      else (s, Writing(x.job, existing.value.data.value + newData, existing.value.metadata.value.version, Epoch(s), 0, 0))
    case Called(Rollback(to)) =>
      var latest := Read(s, 0);
      if latest.None? || latest.value.metadata.None? then (s, Failed)
      else (s, Fetching(to, latest.value.metadata.value.version, Epoch(s)))
    case Fetching(to, cas, epoch) =>
      var old_ := Read(s, to);
      if ValidateRollbackVersion(old_).Err? then (s, Failed)
      else (s, Writing(Rollback(to), old_.value.data.value, cas, epoch, old_.value.metadata.value.version, Epoch(s)))
    case Writing(job, combined, cas, _, _, _) =>
      if Admits(s, cas) then (Append(s, combined, OriginOf(c, x)), Replying(job, cas + 1, Epoch(s))) else (s, Failed)
    case Replying(job, v, e) => (s, Succeeded(job, v, e))
    case _ => (s, x)
  }

  predicate Active(x: Client) {
    !x.Idle? && !x.Succeeded? && !x.Failed?
  }

  /** A client begins a call, takes its next step, or loses a request or reply; any other client's request is served. */
  datatype Event =
    | Begin(client: nat, job: Job)
    | Step(client: nat)
    | Lose(client: nat)
    | Other(request: Request)

  function Next(s: State, e: Event): State {
    match e
    case Begin(c, job) => if Active(ClientOf(s, c)) then s else s.(clients := s.clients[c := Called(job)])
    case Step(c) =>
      var (server, x) := Advance(s.server, c, ClientOf(s, c));
      State(server, s.clients[c := x])
    case Lose(c) => s.(clients := s.clients[c := Failed])
    case Other(r) => s.(server := Serve(s.server, r))
  }

  const START := State(Server([], []), map[])

  function RunOf(events: seq<Event>): State {
    if events == [] then START else Next(RunOf(events[..|events| - 1]), events[|events| - 1])
  }

  // ---- What every step keeps ----

  /** Epoch `e` has, or had, a version `n`. */
  predicate Has(h: seq<seq<Version>>, e: nat, n: nat) {
    e < |h| && 1 <= n <= |h[e]|
  }

  /** What was written as version `n` of epoch `e`. */
  function ContentAt(h: seq<seq<Version>>, e: nat, n: nat): Data
    requires Has(h, e, n)
  {
    h[e][n - 1].content
  }

  function OriginAt(h: seq<seq<Version>>, e: nat, n: nat): Origin
    requires Has(h, e, n)
  {
    h[e][n - 1].origin
  }

  /** A patch wrote the version of that number in the epoch it read in, overlaid with its new data; a rollback wrote its
      target as it was in the epoch it fetched it in. */
  predicate VersionOk(h: seq<seq<Version>>, e: nat, n: nat)
    requires Has(h, e, n)
  {
    match OriginAt(h, e, n)
    case Plain => true
    case ByPatch(_, newData, readEpoch) =>
      readEpoch <= e && n > 1 && Has(h, readEpoch, n - 1) && ContentAt(h, e, n) == ContentAt(h, readEpoch, n - 1) + newData
    case ByRollback(_, target, readEpoch, fetchEpoch) =>
      && readEpoch <= fetchEpoch <= e && n > 1 && Has(h, readEpoch, n - 1)
      && Has(h, fetchEpoch, target) && ContentAt(h, e, n) == ContentAt(h, fetchEpoch, target)
      && (fetchEpoch == e ==> target < n)
  }

  predicate Wrote(o: Origin, c: nat, job: Job) {
    match job
    case Patch(newData) => o.ByPatch? && o.client == c && o.newData == newData
    case Rollback(to) => o.ByRollback? && o.client == c && (to != 0 ==> o.target == to)
  }

  /** Version `v` of the epoch of its write was written by this call. */
  predicate Created(s: Server, c: nat, job: Job, v: nat, wrote: nat) {
    Has(History(s), wrote, v) && Wrote(OriginAt(History(s), wrote, v), c, job)
  }

  /** What a client knows of the server. */
  predicate ClientOk(s: Server, c: nat, x: Client) {
    var h := History(s);
    match x
    case Fetching(_, cas, e) => Has(h, e, cas)
    case Writing(Patch(newData), combined, cas, e, _, _) => Has(h, e, cas) && combined == ContentAt(h, e, cas) + newData
    case Writing(Rollback(to), combined, cas, e, target, fetched) =>
      && Has(h, e, cas) && (to != 0 ==> target == to)
      && e <= fetched && Has(h, fetched, target) && combined == ContentAt(h, fetched, target)
    case Replying(job, v, e) => Created(s, c, job, v, e)
    case Succeeded(job, v, e) => Created(s, c, job, v, e)
    case _ => true
  }

  ghost predicate VersionsOk(s: Server) {
    forall e: nat, n: nat :: Has(History(s), e, n) ==> VersionOk(History(s), e, n)
  }

  ghost predicate Inv(s: State) {
    && VersionsOk(s.server)
    && (forall c :: c in s.clients ==> ClientOk(s.server, c, s.clients[c]))
  }

  /** Every version of `s` is still in the history, whatever was deleted or added since. */
  ghost predicate Extends(s: Server, s': Server) {
    var h, h' := History(s), History(s');
    forall e: nat, n: nat :: Has(h, e, n) ==>
      Has(h', e, n) && ContentAt(h', e, n) == ContentAt(h, e, n) && OriginAt(h', e, n) == OriginAt(h, e, n)
  }

  lemma VersionStays(s: Server, s': Server, e: nat, n: nat)
    requires Extends(s, s') && Has(History(s), e, n) && VersionOk(History(s), e, n)
    ensures VersionOk(History(s'), e, n)
  {
  }

  lemma ServeKeeps(s: Server, r: Request)
    requires VersionsOk(s)
    ensures VersionsOk(Serve(s, r)) && Extends(s, Serve(s, r))
  {
    hide VersionOk;
    var s' := Serve(s, r);
    assert Extends(s, s');
    forall e: nat, n: nat | Has(History(s'), e, n) ensures VersionOk(History(s'), e, n) {
      if Has(History(s), e, n) {
        VersionStays(s, s', e, n);
      } else {
        assert r.Put? && e == Epoch(s);
        PlainOk(History(s'), e, n);
      }
    }
  }

  lemma PlainOk(h: seq<seq<Version>>, e: nat, n: nat)
    requires Has(h, e, n) && OriginAt(h, e, n).Plain?
    ensures VersionOk(h, e, n)
  {
  }

  lemma AppendExtends(s: Server, content: Data, origin: Origin)
    ensures Extends(s, Append(s, content, origin)) && Epoch(Append(s, content, origin)) == Epoch(s)
  {
  }

  /** An admitted write is what its client promises it to be. */
  lemma WriteOk(s: Server, c: nat, x: Client)
    requires VersionsOk(s) && ClientOk(s, c, x) && x.Writing? && Admits(s, x.cas)
    ensures var s' := Append(s, x.combined, OriginOf(c, x));
      VersionsOk(s') && Extends(s, s') && ClientOk(s', c, Replying(x.job, x.cas + 1, Epoch(s)))
  {
    var s' := Append(s, x.combined, OriginOf(c, x));
    AppendExtends(s, x.combined, OriginOf(c, x));
    forall e: nat, n: nat | Has(History(s'), e, n) ensures VersionOk(History(s'), e, n) {
      if Has(History(s), e, n) {
        VersionStays(s, s', e, n);
      }
    }
  }

  lemma AdvanceKeeps(s: Server, c: nat, x: Client)
    requires VersionsOk(s) && ClientOk(s, c, x)
    ensures var (s', x') := Advance(s, c, x); VersionsOk(s') && Extends(s, s') && ClientOk(s', c, x')
  {
    if x.Writing? && Admits(s, x.cas) {
      WriteOk(s, c, x);
    }
  }

  lemma OthersKeep(s: Server, s': Server, c: nat, x: Client)
    requires Extends(s, s') && ClientOk(s, c, x)
    ensures ClientOk(s', c, x)
  {
  }

  lemma StepKeeps(s: State, e: Event)
    requires Inv(s)
    ensures Inv(Next(s, e))
  {
    hide VersionsOk, ClientOk, Extends, Advance, Serve;
    var s' := Next(s, e);
    match e
    case Begin(_, _) =>
      CalledOk(s);
    case Lose(_) =>
      CalledOk(s);
    case Step(c) =>
      CalledOk(s);
      AdvanceKeeps(s.server, c, ClientOf(s, c));
      forall d | d in s'.clients && d != c ensures ClientOk(s'.server, d, s'.clients[d]) {
        OthersKeep(s.server, s'.server, d, s.clients[d]);
      }
    case Other(r) =>
      ServeKeeps(s.server, r);
      forall d | d in s'.clients ensures ClientOk(s'.server, d, s'.clients[d]) {
        OthersKeep(s.server, s'.server, d, s.clients[d]);
      }
  }

  lemma CalledOk(s: State)
    ensures forall c, job :: ClientOk(s.server, c, Called(job))
    ensures forall c :: ClientOk(s.server, c, Failed) && ClientOk(s.server, c, Idle)
  {
  }

  lemma {:induction false} RunKeeps(events: seq<Event>)
    ensures Inv(RunOf(events))
  {
    hide Next;
    if events != [] {
      RunKeeps(events[..|events| - 1]);
      StepKeeps(RunOf(events[..|events| - 1]), events[|events| - 1]);
    }
  }

  // ---- No update is lost ----

  lemma OverlaysAgree(a: Data, b: Data, newData: Data)
    ensures a + newData == b + newData <==> a - newData.Keys == b - newData.Keys
  {
    if a + newData == b + newData {
      assert a - newData.Keys == (a + newData) - newData.Keys == b - newData.Keys;
    } else {
      assert a - newData.Keys == b - newData.Keys ==> a + newData == (a - newData.Keys) + newData == b + newData;
    }
  }

  /** In every run, for every version ever written, in whatever epoch: a patch keeps the version before it, overlaid with
      its new data, exactly when no metadata was deleted between its read and its write, or else the version it read and
      the one it was written after agree on all other keys; a rollback equals its target exactly when none was deleted
      between its fetch and its write, or else the target is there and is the same in both epochs. */
  lemma UpdatesExact(events: seq<Event>, e: nat, n: nat)
    requires Has(History(RunOf(events).server), e, n)
    ensures var h := History(RunOf(events).server); var o := OriginAt(h, e, n);
      o.ByPatch? ==>
        && o.readEpoch <= e && Has(h, o.readEpoch, n - 1) && Has(h, e, n - 1)
        && (ContentAt(h, e, n) == ContentAt(h, e, n - 1) + o.newData <==>
            || o.readEpoch == e
            || ContentAt(h, o.readEpoch, n - 1) - o.newData.Keys == ContentAt(h, e, n - 1) - o.newData.Keys)
    ensures var h := History(RunOf(events).server); var o := OriginAt(h, e, n);
      o.ByRollback? ==>
        && o.readEpoch <= o.fetchEpoch <= e && Has(h, o.readEpoch, n - 1) && Has(h, o.fetchEpoch, o.target)
        && (o.target < n && ContentAt(h, e, n) == ContentAt(h, e, o.target) <==>
            || o.fetchEpoch == e
            || (o.target < n && ContentAt(h, o.fetchEpoch, o.target) == ContentAt(h, e, o.target)))
  {
    hide RunOf;
    RunKeeps(events);
    var h := History(RunOf(events).server);
    assert VersionOk(h, e, n);
    var o := OriginAt(h, e, n);
    if o.ByPatch? {
      OverlaysAgree(ContentAt(h, o.readEpoch, n - 1), ContentAt(h, e, n - 1), o.newData);
    }
  }

  function Deletions(events: seq<Event>): nat {
    if events == [] then 0
    else Deletions(events[..|events| - 1]) + if events[|events| - 1] == Other(DeleteMetadata) then 1 else 0
  }

  /** An epoch is the number of times the metadata has been deleted. */
  lemma {:induction false} EpochIsDeletions(events: seq<Event>)
    ensures Epoch(RunOf(events).server) == Deletions(events)
  {
    if events != [] {
      EpochIsDeletions(events[..|events| - 1]);
    }
  }

  /** So where it is never deleted, however the clients interleave: a patch creates the version before it overlaid with
      its new data, and a rollback creates a version equal to its target. */
  lemma UpdatesKept(events: seq<Event>, n: nat)
    requires Deletions(events) == 0 && 1 <= n <= |RunOf(events).server.versions|
    ensures var v := RunOf(events).server.versions; var o := v[n - 1].origin;
      && (o.ByPatch? ==> n > 1 && v[n - 1].content == v[n - 2].content + o.newData)
      && (o.ByRollback? ==> 1 <= o.target < n && v[n - 1].content == v[o.target - 1].content)
  {
    hide RunOf;
    EpochIsDeletions(events);
    UpdatesExact(events, 0, n);
  }

  /** A call that succeeds reports the version it created, in the epoch it was written in. */
  lemma SuccessReported(events: seq<Event>, c: nat)
    requires ClientOf(RunOf(events), c).Succeeded?
    ensures var h, x := History(RunOf(events).server), ClientOf(RunOf(events), c);
      Has(h, x.wrote, x.version) && Wrote(OriginAt(h, x.wrote, x.version), c, x.job)
  {
    hide RunOf;
    RunKeeps(events);
    assert ClientOk(RunOf(events).server, c, ClientOf(RunOf(events), c));
  }

  /** Versions first + 1 to last of epoch `e` are patches whose clients read in that epoch. */
  ghost predicate PatchedInEpoch(h: seq<seq<Version>>, e: nat, first: nat, last: nat) {
    && Has(h, e, first) && Has(h, e, last) && first <= last
    && forall n: nat :: first < n <= last ==> OriginAt(h, e, n).ByPatch? && OriginAt(h, e, n).readEpoch == e
  }

  /** Those patches applied in order. */
  ghost function Overlaid(h: seq<seq<Version>>, e: nat, first: nat, last: nat): Data
    requires PatchedInEpoch(h, e, first, last)
    decreases last
  {
    if first == last then ContentAt(h, e, first) else Overlaid(h, e, first, last - 1) + OriginAt(h, e, last).newData
  }

  /** Any number of concurrent patches in a row leave the effect of each of them, in the order of their versions. */
  lemma {:induction false} PatchesAccumulate(events: seq<Event>, e: nat, first: nat, last: nat)
    requires PatchedInEpoch(History(RunOf(events).server), e, first, last)
    ensures var h := History(RunOf(events).server); ContentAt(h, e, last) == Overlaid(h, e, first, last)
    decreases last
  {
    hide RunOf;
    if first < last {
      PatchesAccumulate(events, e, first, last - 1);
      UpdatesExact(events, e, last);
    }
  }

  // ---- What a call comes to ----

  /** A version that can be read. */
  predicate Readable(s: Server, n: int) {
    1 <= n <= |s.versions| && !s.versions[n - 1].deleted && !s.versions[n - 1].destroyed
  }

  /** `s'` has one version more, with this content. */
  predicate OneMore(s: Server, s': Server, content: Data) {
    && |s'.versions| == |s.versions| + 1 && s'.versions[..|s.versions|] == s.versions && s'.past == s.past
    && s'.versions[|s.versions|].content == content && Readable(s', |s'.versions|)
  }

  /** A patch that nothing comes between succeeds exactly when the latest version can be read, and writes that version
      overlaid with its data; else it changes nothing. */
  lemma PatchAlone(s: State, c: nat, newData: Data)
    requires !Active(ClientOf(s, c))
    ensures var s' := Next(Next(Next(Next(s, Begin(c, Patch(newData))), Step(c)), Step(c)), Step(c));
      var n := |s.server.versions|;
      if Readable(s.server, n) then
        && OneMore(s.server, s'.server, s.server.versions[n - 1].content + newData)
        && ClientOf(s', c) == Succeeded(Patch(newData), n + 1, Epoch(s.server))
      else s'.server == s.server && ClientOf(s', c) == Failed
  {
    var s2 := Next(Next(s, Begin(c, Patch(newData))), Step(c));
    assert s2.server == s.server;
    if Readable(s.server, |s.server.versions|) {
      assert ClientOf(s2, c).Writing? && ClientOf(s2, c).cas == |s.server.versions|;
    } else {
      assert ClientOf(s2, c) == Failed;
    }
  }

  /** A rollback that nothing comes between succeeds exactly when its target can be read (the latest version, for 0), and
      writes it again; else it changes nothing. */
  lemma RollbackAlone(s: State, c: nat, to: int)
    requires !Active(ClientOf(s, c))
    ensures var s' := Next(Next(Next(Next(Next(s, Begin(c, Rollback(to))), Step(c)), Step(c)), Step(c)), Step(c));
      var n, target := |s.server.versions|, if to == 0 then |s.server.versions| else to;
      if Readable(s.server, target) then
        && OneMore(s.server, s'.server, s.server.versions[target - 1].content)
        && ClientOf(s', c) == Succeeded(Rollback(to), n + 1, Epoch(s.server))
      else s'.server == s.server && ClientOf(s', c) == Failed
  {
    var target := if to == 0 then |s.server.versions| else to;
    var s2 := Next(Next(s, Begin(c, Rollback(to))), Step(c));
    var s3 := Next(s2, Step(c));
    assert s2.server == s.server && s3.server == s.server;
    if Readable(s.server, target) {
      assert ClientOf(s2, c).Fetching?;
      assert ClientOf(s3, c).Writing? && ClientOf(s3, c).cas == |s.server.versions|;
    } else {
      assert ClientOf(s3, c) == Failed;
    }
  }

  /** A write is admitted exactly when the server is at the version it names. An admitted one is reported as a success,
      whatever other clients do before the reply; a refused one changes nothing. */
  lemma WriteDecides(s: State, c: nat, others: seq<Request>)
    requires ClientOf(s, c).Writing?
    ensures var w, s' := ClientOf(s, c), Next(s, Step(c));
      if |s.server.versions| == w.cas then
        && OneMore(s.server, s'.server, w.combined)
        && ClientOf(Next(Served(s', others), Step(c)), c) == Succeeded(w.job, w.cas + 1, Epoch(s.server))
      else s'.server == s.server && ClientOf(s', c) == Failed
  {
    ServedKeepsClients(Next(s, Step(c)), others);
  }

  function Served(s: State, others: seq<Request>): State {
    if others == [] then s else Next(Served(s, others[..|others| - 1]), Other(others[|others| - 1]))
  }

  lemma {:induction false} ServedKeepsClients(s: State, others: seq<Request>)
    ensures Served(s, others).clients == s.clients
  {
    if others != [] {
      ServedKeepsClients(s, others[..|others| - 1]);
    }
  }

  // ---- Deleting the metadata in between ----

  lemma RunUnfolds(events: seq<Event>)
    ensures forall i :: 0 <= i < |events| ==> RunOf(events[..i + 1]) == Next(RunOf(events[..i]), events[i])
    ensures RunOf(events[..0]) == START && events[..|events|] == events
  {
    forall i | 0 <= i < |events| ensures RunOf(events[..i + 1]) == Next(RunOf(events[..i]), events[i]) {
      assert events[..i + 1][..i] == events[..i];
    }
  }

  lemma PatchReads(d: Data, newData: Data)
    ensures var s := Next(Next(Next(START, Other(Put(d))), Begin(0, Patch(newData))), Step(0));
      Epoch(s.server) == 0 && ClientOf(s, 0) == Writing(Patch(newData), d + newData, 1, 0, 0, 0)
  {
  }

  lemma RollbackReads(d: Data)
    ensures var s := Next(Next(Next(Next(START, Other(Put(d))), Begin(0, Rollback(1))), Step(0)), Step(0));
      Epoch(s.server) == 0 && ClientOf(s, 0) == Writing(Rollback(1), d, 1, 0, 1, 0)
  {
  }

  lemma WritesStale(s: State, after: Data)
    requires ClientOf(s, 0).Writing? && ClientOf(s, 0).cas == 1
    ensures Next(Next(Next(s, Other(DeleteMetadata)), Other(Put(after))), Step(0)).server.versions ==
      [Version(after, false, false, Plain), Version(ClientOf(s, 0).combined, false, false, OriginOf(0, ClientOf(s, 0)))]
  {
  }

  /** Deleting the metadata restarts the numbers, so a write can be admitted over a version its client never read: the
      patch then drops what that version held, unless it happens to agree with what was read. */
  lemma StalePatch(before: Data, after: Data, newData: Data)
    ensures
      var events := [Other(Put(before)), Begin(0, Patch(newData)), Step(0), Other(DeleteMetadata), Other(Put(after)), Step(0)];
      var v := RunOf(events).server.versions;
      && |v| == 2 && v[0].content == after && v[1].origin == ByPatch(0, newData, 0)
      && (v[1].content == v[0].content + newData <==> before - newData.Keys == after - newData.Keys)
  {
    hide Next, RunOf;
    var e := [Other(Put(before)), Begin(0, Patch(newData)), Step(0), Other(DeleteMetadata), Other(Put(after)), Step(0)];
    RunUnfolds(e);
    PatchReads(before, newData);
    var s3 := RunOf(e[..3]);
    assert s3 == Next(RunOf(e[..2]), e[2]);
    assert RunOf(e[..2]) == Next(RunOf(e[..1]), e[1]) && RunOf(e[..1]) == Next(START, e[0]);
    WritesStale(s3, after);
    assert RunOf(e[..6]) == Next(RunOf(e[..5]), e[5]) && RunOf(e[..5]) == Next(RunOf(e[..4]), e[4]);
    assert RunOf(e[..4]) == Next(s3, e[3]);
    OverlaysAgree(before, after, newData);
  }

  /** A rollback likewise writes what its target was before, which is not what it is now. */
  lemma StaleRollback(before: Data, after: Data)
    ensures
      var events := [Other(Put(before)), Begin(0, Rollback(1)), Step(0), Step(0), Other(DeleteMetadata), Other(Put(after)), Step(0)];
      var v := RunOf(events).server.versions;
      && |v| == 2 && v[0].content == after && v[1].origin == ByRollback(0, 1, 0, 0)
      && (v[1].content == v[0].content <==> before == after)
  {
    hide Next, RunOf;
    var e := [Other(Put(before)), Begin(0, Rollback(1)), Step(0), Step(0), Other(DeleteMetadata), Other(Put(after)), Step(0)];
    RunUnfolds(e);
    RollbackReads(before);
    var s3, s4 := RunOf(e[..3]), RunOf(e[..4]);
    assert s4 == Next(s3, e[3]) && s3 == Next(RunOf(e[..2]), e[2]);
    assert RunOf(e[..2]) == Next(RunOf(e[..1]), e[1]) && RunOf(e[..1]) == Next(START, e[0]);
    WritesStale(s4, after);
    assert RunOf(e[..7]) == Next(RunOf(e[..6]), e[6]) && RunOf(e[..6]) == Next(RunOf(e[..5]), e[5]);
    assert RunOf(e[..5]) == Next(s4, e[4]);
  }
}
