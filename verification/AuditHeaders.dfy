/** The audited-headers configuration, a cache over storage (audit/headers.go). */
module AuditHeaders {
  import opened Basics

  type Settings = map<string, bool>

  // ---- Lower case ----

  function LowerChar(c: char): char {
    if 'A' <= c <= 'Z' then (c as int + 32) as char else c
  }

  function ToLower(s: string): string {
    seq(|s|, i requires 0 <= i < |s| => LowerChar(s[i]))
  }

  lemma ToLowerTwice(s: string)
    ensures ToLower(ToLower(s)) == ToLower(s)
  {
  }

  /** Each capital letter becomes its small letter and nothing else changes. */
  lemma ToLowerMeans(s: string, i: nat, letter: nat)
    requires i < |s| && letter < 26
    ensures |ToLower(s)| == |s|
    ensures s[i] == "ABCDEFGHIJKLMNOPQRSTUVWXYZ"[letter] ==> ToLower(s)[i] == "abcdefghijklmnopqrstuvwxyz"[letter]
    ensures !('A' <= s[i] <= 'Z') ==> ToLower(s)[i] == s[i]
  {
  }

  ghost predicate AllLower(m: Settings) {
    forall k :: k in m ==> ToLower(k) == k
  }

  // ---- What a reload may produce ----

  const DEFAULTS: Settings := map["correlation-id" := false, "x-correlation-id" := false, "user-agent" := false]

  lemma DefaultsLower()
    ensures AllLower(DEFAULTS)
  {
    assert ToLower("correlation-id") == "correlation-id";
    assert ToLower("x-correlation-id") == "x-correlation-id";
    assert ToLower("user-agent") == "user-agent";
  }

  /** Some stored name that lowers to `k` carries setting `v`. */
  ghost predicate StoredAs(stored: Settings, k: string, v: bool) {
    exists j :: j in stored && ToLower(j) == k && stored[j] == v
  }

  ghost predicate StoredName(stored: Settings, k: string) {
    exists j :: j in stored && ToLower(j) == k
  }

  /** `cfg` is a possible outcome of reloading `stored`: the order in which stored names that differ only
      in case are met decides which of their settings survives. */
  ghost predicate Reloaded(stored: Settings, cfg: Settings) {
    && (forall k :: k in cfg <==> StoredName(stored, k) || k in DEFAULTS)
    && (forall k :: k in cfg ==>
         if StoredName(stored, k) then StoredAs(stored, k, cfg[k]) else k in DEFAULTS && cfg[k] == DEFAULTS[k])
  }

  /** Reloading can only give `cfg` back. */
  ghost predicate Synced(stored: Settings, cfg: Settings) {
    Reloaded(stored, cfg) && forall c :: Reloaded(stored, c) ==> c == cfg
  }

  lemma ReloadedLower(stored: Settings, cfg: Settings)
    requires Reloaded(stored, cfg)
    ensures AllLower(cfg)
  {
    DefaultsLower();
    forall k | k in cfg ensures ToLower(k) == k {
      if StoredName(stored, k) {
        var j :| j in stored && ToLower(j) == k;
        ToLowerTwice(j);
      }
    }
  }

  /** Stored names that agree ignoring case agree on their setting. */
  ghost predicate Consistent(stored: Settings) {
    forall j, k :: j in stored && k in stored && ToLower(j) == ToLower(k) ==> stored[j] == stored[k]
  }

  lemma ReloadUnique(stored: Settings, c: Settings, d: Settings)
    requires Consistent(stored) && Reloaded(stored, c) && Reloaded(stored, d)
    ensures c == d
  {
  }

  /** A reload is determined by what is stored exactly when names that agree ignoring case agree on their setting. */
  lemma ReloadDetermined(stored: Settings, cfg: Settings)
    requires Reloaded(stored, cfg)
    ensures Synced(stored, cfg) <==> Consistent(stored)
  {
    if Consistent(stored) {
      forall c | Reloaded(stored, c) ensures c == cfg { ReloadUnique(stored, c, cfg); }
    } else {
      var j, k :| j in stored && k in stored && ToLower(j) == ToLower(k) && stored[j] != stored[k];
      var name := ToLower(j);
      assert StoredAs(stored, name, stored[j]) && StoredAs(stored, name, stored[k]);
      assert StoredName(stored, name);
      assert StoredAs(stored, name, !cfg[name]);
      var other := cfg[name := !cfg[name]];
      assert Reloaded(stored, other);
      assert other[name] != cfg[name];
    }
  }

  // ---- Runs of the configuration ----

  datatype State = State(cfg: Settings, stored: Settings)

  /** `putOk` and `readOk` say whether storage took the write or gave a readable entry. */
  datatype Op =
    | Add(header: string, hmac: bool, putOk: bool)
    | Remove(header: string, putOk: bool)
    | Invalidate(readOk: bool)

  ghost predicate Step(s: State, op: Op, t: State) {
    match op
    case Add(header, hmac, putOk) =>
      if header == "" then t == s
      else
        var cfg := s.cfg[ToLower(header) := hmac];
        t == State(cfg, if putOk then cfg else s.stored)
    case Remove(header, putOk) =>
      if header == "" || s.cfg == map[] then t == s
      else
        var cfg := s.cfg - {ToLower(header)};
        t == State(cfg, if putOk then cfg else s.stored)
    case Invalidate(readOk) =>
      if readOk then t.stored == s.stored && Reloaded(s.stored, t.cfg) else t == s
  }

  /** What the two edits do, name by name. */
  lemma EditsMean(s: State, op: Op, t: State, name: string)
    requires Step(s, op, t) && !op.Invalidate? && op.header != ""
    ensures op.Add? && name == ToLower(op.header) ==> name in t.cfg && t.cfg[name] == op.hmac
    ensures op.Remove? && name == ToLower(op.header) ==> name !in t.cfg
    ensures name != ToLower(op.header) ==> (name in t.cfg <==> name in s.cfg) && (name in s.cfg ==> t.cfg[name] == s.cfg[name])
    ensures !op.putOk ==> t.stored == s.stored
    ensures op.putOk && (op.Add? || s.cfg != map[]) ==> t.stored == t.cfg
  {
  }

  /** What a reload does: every stored name is there in lower case, with its setting unless another that agrees ignoring
      case differs; the three defaults are there; and there is nothing else. */
  lemma ReloadMeans(s: State, t: State, j: string, k: string)
    requires Step(s, Invalidate(true), t)
    ensures t.stored == s.stored
    ensures j in s.stored ==> ToLower(j) in t.cfg
    ensures j in s.stored && (forall i :: i in s.stored && ToLower(i) == ToLower(j) ==> s.stored[i] == s.stored[j]) ==>
      t.cfg[ToLower(j)] == s.stored[j]
    ensures k == "correlation-id" || k == "x-correlation-id" || k == "user-agent" ==> k in t.cfg
    ensures k in t.cfg && (forall i :: i in s.stored ==> ToLower(i) != k) ==>
      !t.cfg[k] && (k == "correlation-id" || k == "x-correlation-id" || k == "user-agent")
  {
    hide ToLower;
    if j in s.stored {
      assert StoredName(s.stored, ToLower(j));
    }
  }

  /** The guard under which an operation leaves cache and storage in step. */
  ghost predicate Keeps(s: State, op: Op) {
    match op
    case Add(header, hmac, putOk) =>
      header == "" || putOk || (ToLower(header) in s.cfg && s.cfg[ToLower(header)] == hmac)
    case Remove(header, putOk) =>
      header == "" || ToLower(header) !in s.cfg || (putOk && ToLower(header) !in DEFAULTS)
    case Invalidate(_) => true
  }

  /** A written-through cache that is all lower case and still has the defaults is what a reload gives back. */
  lemma WrittenThrough(cfg: Settings)
    requires AllLower(cfg) && DEFAULTS.Keys <= cfg.Keys
    ensures Synced(cfg, cfg)
  {
  }

  /** From a state in step with storage, an operation stays in step exactly when its guard holds. */
  lemma StepSynced(s: State, op: Op, t: State)
    requires Synced(s.stored, s.cfg) && Step(s, op, t)
    ensures Synced(t.stored, t.cfg) <==> Keeps(s, op)
  {
    ReloadedLower(s.stored, s.cfg);
    match op
    case Add(header, hmac, putOk) =>
      ToLowerTwice(header);
      if header != "" && putOk {
        WrittenThrough(t.cfg);
      } else if header != "" && Keeps(s, op) {
        assert t.cfg == s.cfg;
      } else if header != "" {
        assert t.cfg[ToLower(header)] == hmac;
      }
    case Remove(header, putOk) =>
      if header != "" && ToLower(header) !in s.cfg {
        assert t.cfg == s.cfg;
        WrittenThrough(s.cfg);
      } else if header != "" && putOk && ToLower(header) !in DEFAULTS {
        WrittenThrough(t.cfg);
      } else if header != "" {
        assert ToLower(header) !in t.cfg && ToLower(header) in s.cfg;
      }
    case Invalidate(_) =>
  }

  ghost predicate Run(states: seq<State>, ops: seq<Op>) {
    |states| == |ops| + 1 && forall i :: 0 <= i < |ops| ==> Step(states[i], ops[i], states[i + 1])
  }

  /** Over every run whose operations keep their guards, the cache is all lower case and a fixed point of reloading. */
  lemma {:induction false} RunSynced(states: seq<State>, ops: seq<Op>)
    requires Run(states, ops) && Synced(states[0].stored, states[0].cfg)
    requires forall i :: 0 <= i < |ops| ==> Keeps(states[i], ops[i])
    ensures forall i :: 0 <= i < |states| ==> Synced(states[i].stored, states[i].cfg) && AllLower(states[i].cfg)
  {
    if |ops| == 0 {
      ReloadedLower(states[0].stored, states[0].cfg);
    } else {
      var n := |ops|;
      RunSynced(states[..n], ops[..n - 1]);
      assert states[..n][n - 1] == states[n - 1];
      StepSynced(states[n - 1], ops[n - 1], states[n]);
      ReloadedLower(states[n].stored, states[n].cfg);
      forall i | 0 <= i < |states| ensures Synced(states[i].stored, states[i].cfg) && AllLower(states[i].cfg) {
        if i < n { assert states[..n][i] == states[i]; }
      }
    }
  }

  /** A header put to storage in the wrong moment: the write fails, the cache keeps it, a reload drops it. */
  lemma FailedPutDiverges()
    ensures var s := State(DEFAULTS, DEFAULTS);
      var op := Add("X-Trace", true, false);
      Synced(s.stored, s.cfg) && forall t :: Step(s, op, t) ==> !Synced(t.stored, t.cfg)
  {
    DefaultsLower();
    WrittenThrough(DEFAULTS);
    var s, op := State(DEFAULTS, DEFAULTS), Add("X-Trace", true, false);
    assert ToLower("X-Trace")[0] == 'x' && ToLower("X-Trace")[2] == 't';
    assert ToLower("X-Trace") !in DEFAULTS;
    forall t | Step(s, op, t) ensures !Synced(t.stored, t.cfg) {
      StepSynced(s, op, t);
    }
  }

  // ---- The configuration object ----

  class HeaderMap {
    var entries: map<string, array<string>>

    constructor (entries: map<string, array<string>>)
      ensures this.entries == entries
    {
      this.entries := entries;
    }
  }

  class HeadersConfig {
    var headerSettings: Settings
    var stored: Settings

    constructor (stored: Settings)
      ensures headerSettings == map[] && this.stored == stored
    {
      headerSettings := map[];
      this.stored := stored;
    }

    function St(): State
      reads this
    {
      State(headerSettings, stored)
    }

    method AddHeader(header: string, hmac: bool, putOk: bool) returns (r: Result<()>)
      modifies this
      ensures Step(old(St()), Add(header, hmac, putOk), St())
      ensures r.Ok? <==> header != "" && putOk
    {
      if header == "" {
        return Err("header value cannot be empty");
      }
      headerSettings := headerSettings[ToLower(header) := hmac];
      if !putOk {
        return Err("failed to persist audited headers config");
      }
      stored := headerSettings;
      return Ok(());
    }

    method RemoveHeader(header: string, putOk: bool) returns (r: Result<()>)
      modifies this
      ensures Step(old(St()), Remove(header, putOk), St())
      ensures r.Ok? <==> header != "" && (old(headerSettings) == map[] || putOk)
    {
      if header == "" {
        return Err("header value cannot be empty");
      }
      if |headerSettings| == 0 {
        return Ok(());
      }
      headerSettings := headerSettings - {ToLower(header)};
      if !putOk {
        return Err("failed to persist audited headers config");
      }
      stored := headerSettings;
      return Ok(());
    }

    method InvalidateHeaders(readOk: bool) returns (r: Result<()>)
      modifies this
      ensures Step(old(St()), Invalidate(readOk), St())
      ensures r.Ok? <==> readOk
    {
      if !readOk {
        return Err("failed to read config");
      }
      var todo, lower: Settings := stored.Keys, map[];
      while todo != {}
        invariant todo <= stored.Keys && St() == old(St())
        invariant forall k :: k in stored && k !in todo ==> ToLower(k) in lower
        invariant forall k :: k in lower ==> StoredAs(stored, k, lower[k])
      {
        var k :| k in todo;
        lower := lower[ToLower(k) := stored[k]];
        todo := todo - {k};
      }
      ghost var fromStore := lower;
      todo := DEFAULTS.Keys;
      while todo != {}
        invariant todo <= DEFAULTS.Keys && St() == old(St())
        invariant lower.Keys == fromStore.Keys + (DEFAULTS.Keys - todo)
        invariant forall k :: k in lower ==> lower[k] == if k in fromStore then fromStore[k] else DEFAULTS[k]
      {
        var k :| k in todo;
        if k !in lower {
          lower := lower[k := DEFAULTS[k]];
        }
        todo := todo - {k};
      }
      headerSettings := lower;
      return Ok(());
    }

    /** Returns exactly the configured headers that are present ignoring case, each with the values of one such
        header in order, hashed exactly when configured so; the headers passed in are left alone. */
    method ApplyConfig(headers: HeaderMap?, salt: Option<string -> string>) returns (r: Result<HeaderMap>)
      ensures r.Ok? ==> fresh(r.value) && Applied(headerSettings, LinesOf(headers), salt, LinesOf(r.value))
      ensures r.Ok? ==> forall k :: k in r.value.entries ==> fresh(r.value.entries[k])
      ensures r.Err? ==> salt.None? && exists j :: j in EntriesOf(headers) && MustHash(headerSettings, EntriesOf(headers), j)
    {
      if headers == null || |headers.entries| < 1 {
        var none := new HeaderMap(map[]);
        return Ok(none);
      }
      var todo, lower: map<string, array<string>> := headers.entries.Keys, map[];
      while todo != {}
        invariant todo <= headers.entries.Keys
        invariant forall j :: j in headers.entries && j !in todo ==> ToLower(j) in lower
        invariant forall k :: k in lower ==> exists j :: j in headers.entries && ToLower(j) == k && headers.entries[j] == lower[k]
      {
        var j :| j in todo;
        lower := lower[ToLower(j) := headers.entries[j]];
        todo := todo - {j};
      }
      var result: map<string, array<string>> := map[];
      todo := headerSettings.Keys;
      while todo != {}
        invariant todo <= headerSettings.Keys
        invariant forall k :: k in result <==> k in headerSettings && k !in todo && k in lower
        invariant forall k :: k in result ==>
          && fresh(result[k])
          && (headerSettings[k] && lower[k].Length > 0 ==> salt.Some?)
          && result[k][..] == Formatted(headerSettings[k], salt, lower[k][..])
      {
        var k :| k in todo;
        if k in lower {
          var ok, vals := FormatValues(lower[k], headerSettings[k], salt);
          if !ok {
            var j :| j in headers.entries && ToLower(j) == k && headers.entries[j] == lower[k];
            assert MustHash(headerSettings, EntriesOf(headers), j);
            return Err("failed to obtain salt");
          }
          result := result[k := vals];
        }
        todo := todo - {k};
      }
      var out := new HeaderMap(result);
      ghost var from := LinesOf(headers);
      forall k | k in result ensures AppliedTo(headerSettings[k], from, salt, k, LinesOf(out)[k]) {
        var j :| j in headers.entries && ToLower(j) == k && headers.entries[j] == lower[k];
        assert from[j] == lower[k][..];
      }
      return Ok(out);
    }
  }

  function EntriesOf(headers: HeaderMap?): map<string, array<string>>
    reads headers
  {
    if headers == null then map[] else headers.entries
  }

  /** A header whose value the configuration wants hashed, and which has a value to hash. */
  ghost predicate MustHash(cfg: Settings, headers: map<string, array<string>>, j: string)
    requires j in headers
  {
    ToLower(j) in cfg && cfg[ToLower(j)] && headers[j].Length > 0
  }

  function Formatted(hmac: bool, salt: Option<string -> string>, vals: seq<string>): seq<string> {
    if hmac && salt.Some? then seq(|vals|, i requires 0 <= i < |vals| => salt.value(vals[i])) else vals
  }

  /** Headers as values. */
  ghost function LinesOf(h: HeaderMap?): map<string, seq<string>>
    reads h, EntriesOf(h).Values
  {
    map k | k in EntriesOf(h) :: EntriesOf(h)[k][..]
  }

  /** `line` is what the configuration makes of some header that is `k` ignoring case. */
  ghost predicate AppliedTo(hmac: bool, from: map<string, seq<string>>, salt: Option<string -> string>, k: string, line: seq<string>) {
    exists j :: j in from && ToLower(j) == k && (hmac && from[j] != [] ==> salt.Some?) && line == Formatted(hmac, salt, from[j])
  }

  /** `to` has exactly the configured headers that `from` has ignoring case, each with the values of one such header in
      order, hashed exactly when configured so. */
  ghost predicate Applied(cfg: Settings, from: map<string, seq<string>>, salt: Option<string -> string>, to: map<string, seq<string>>) {
    && (forall k :: k in to <==> k in cfg && exists j :: j in from && ToLower(j) == k)
    && (forall k :: k in to ==> AppliedTo(cfg[k], from, salt, k, to[k]))
  }

  /** Every header of the request that is configured is shown. */
  lemma AppliedShows(cfg: Settings, from: map<string, seq<string>>, salt: Option<string -> string>, to: map<string, seq<string>>, j: string)
    requires Applied(cfg, from, salt, to) && j in from
    ensures ToLower(j) in to <==> ToLower(j) in cfg
  {
  }

  /** Value by value: a header configured for hashing is hashed, any other is copied. */
  lemma AppliedMeans(cfg: Settings, from: map<string, seq<string>>, hmac: string -> string, to: map<string, seq<string>>, k: string)
    returns (j: string)
    requires Applied(cfg, from, Some(hmac), to) && k in to
    ensures k in cfg && j in from && ToLower(j) == k && |to[k]| == |from[j]|
    ensures forall i :: 0 <= i < |to[k]| ==> to[k][i] == if cfg[k] then hmac(from[j][i]) else from[j][i]
  {
    assert AppliedTo(cfg[k], from, Some(hmac), k, to[k]);
    j :| j in from && ToLower(j) == k && (cfg[k] && from[j] != [] ==> Some(hmac).Some?) && to[k] == Formatted(cfg[k], Some(hmac), from[j]);
  }

  method FormatValues(vals: array<string>, hmac: bool, salt: Option<string -> string>) returns (ok: bool, r: array<string>)
    ensures fresh(r)
    ensures ok <==> (hmac && vals.Length > 0 ==> salt.Some?)
    ensures ok ==> r[..] == Formatted(hmac, salt, vals[..])
  {
    r := new string[vals.Length];
    for i := 0 to vals.Length
      invariant forall j :: 0 <= j < i ==> r[j] == vals[j]
    {
      r[i] := vals[i];
    }
    if hmac {
      for i := 0 to r.Length
        invariant i > 0 ==> salt.Some?
        invariant forall j :: 0 <= j < i ==> r[j] == salt.value(vals[j])
        invariant forall j :: i <= j < r.Length ==> r[j] == vals[j]
      {
        if salt.None? {
          return false, r;
        }
        r[i] := salt.value(r[i]);
      }
    }
    ok := true;
  }
}
