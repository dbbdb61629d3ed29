/** Registration of audit devices and the success threshold (audit/broker.go, audit/broker_ce.go), with any call to the
    event broker allowed to fail. */
module AuditBroker {
  import opened Basics
  import opened Strings

  /** A device: whether it filters, whether it is local, and the nodes of its pipeline. */
  datatype Device = Device(filtered: bool, local: bool, nodes: set<nat>)

  /** The registered devices, and the event broker's pipelines and success threshold. */
  datatype State = State(backends: map<string, Device>, pipelines: set<string>, threshold: nat)

  /** Which calls to the event broker fail. */
  datatype Faults = Faults(nodes: set<nat>, pipeline: bool, threshold: bool, removal: Removal)
  datatype Removal = Removed | Refused | Partly

  // ---- Specification ----

  function Required(s: State): nat {
    if s.backends != map[] then 1 else 0
  }

  function Registered(s: State, name: string, d: Device, f: Faults): (State, bool) {
    if name in s.backends || d.nodes * f.nodes != {} || f.pipeline then (s, false)
    else
      var piped := s.(pipelines := s.pipelines + {name});
      if f.threshold then (piped, false)
      else (piped.(threshold := if d.filtered then Required(s) else 1, backends := s.backends[name := d]), true)
  }

  function Deregistered(s: State, name: string, f: Faults): (State, bool) {
    var trimmed := Trim(name);
    if trimmed == "" then (s, false)
    else if trimmed !in s.backends then (s, true)
    else
      var gone := s.(backends := s.backends - {trimmed});
      if f.threshold then (gone, false)
      else
        var set_ := gone.(threshold := Required(gone));
        match f.removal
        case Refused => (set_, false)
        case Removed => (set_.(pipelines := s.pipelines - {trimmed}), true)
        case Partly => (set_.(pipelines := s.pipelines - {trimmed}), false)
  }

  datatype Op = Register(name: string, device: Device, faults: Faults) | Deregister(name: string, faults: Faults)

  function Step(s: State, op: Op): State {
    match op
    case Register(name, d, f) => Registered(s, name, d, f).0
    case Deregister(name, f) => Deregistered(s, name, f).0
  }

  const START := State(map[], {}, 0)

  function RunOf(ops: seq<Op>): State {
    if ops == [] then START else Step(RunOf(ops[..|ops| - 1]), ops[|ops| - 1])
  }

  // ---- Every device counts ----

  ghost predicate Piped(s: State) {
    forall name :: name in s.backends ==> name in s.pipelines
  }

  /** Present devices are owed at least one success. */
  predicate Enforced(s: State) {
    s.backends != map[] ==> s.threshold == 1
  }

  /** At most one device is present, and it filters. */
  ghost predicate OnlyOneFilter(m: map<string, Device>) {
    && (forall n :: n in m ==> m[n].filtered)
    && (forall n, n' :: n in m && n' in m ==> n == n')
  }

  /** Present devices are owed at least one success, except a single device that filters. */
  ghost predicate EnforcedButForOneFilter(s: State) {
    s.threshold <= 1 && (s.threshold == 0 ==> OnlyOneFilter(s.backends))
  }

  lemma StepPiped(s: State, op: Op)
    requires Piped(s)
    ensures Piped(Step(s, op))
  {
  }

  lemma StepEnforcedButForOneFilter(s: State, op: Op)
    requires EnforcedButForOneFilter(s)
    ensures EnforcedButForOneFilter(Step(s, op))
  {
  }

  /** Registration that succeeds keeps the threshold owed exactly when the device does not filter or is not the first. */
  lemma RegisterEnforcedIff(s: State, name: string, d: Device, f: Faults)
    requires Enforced(s) && Registered(s, name, d, f).1
    ensures Enforced(Registered(s, name, d, f).0) <==> !d.filtered || s.backends != map[]
  {
  }

  lemma DeregisterEnforced(s: State, name: string, f: Faults)
    requires Enforced(s)
    ensures Enforced(Deregistered(s, name, f).0)
  {
  }

  predicate Unfiltered(op: Op) {
    op.Register? ==> !op.device.filtered
  }

  /** In every run, whatever fails: each device has a pipeline, and a threshold of 0 leaves at most one, filtering, device. */
  lemma {:induction false} RunPiped(ops: seq<Op>)
    ensures Piped(RunOf(ops)) && EnforcedButForOneFilter(RunOf(ops))
  {
    if ops != [] {
      var n := |ops| - 1;
      RunPiped(ops[..n]);
      StepPiped(RunOf(ops[..n]), ops[n]);
      StepEnforcedButForOneFilter(RunOf(ops[..n]), ops[n]);
    }
  }

  /** In every run of devices that do not filter, whatever fails, present devices are owed a success. */
  lemma {:induction false} RunEnforced(ops: seq<Op>)
    requires forall i :: 0 <= i < |ops| ==> Unfiltered(ops[i])
    ensures Enforced(RunOf(ops))
  {
    if ops != [] {
      var n := |ops| - 1;
      RunEnforced(ops[..n]);
      var s := RunOf(ops[..n]);
      match ops[n]
      case Register(name, d, f) =>
        if Registered(s, name, d, f).1 {
          RegisterEnforcedIff(s, name, d, f);
        }
      case Deregister(name, f) => DeregisterEnforced(s, name, f);
    }
  }

  // ---- Which devices there are ----

  /** A registration under this name with which nothing fails. */
  predicate Registers(op: Op, name: string) {
    && op.Register? && op.name == name
    && op.device.nodes * op.faults.nodes == {} && !op.faults.pipeline && !op.faults.threshold
  }

  /** A deregistration of this name, even one that fails. */
  predicate Deregisters(op: Op, name: string) {
    op.Deregister? && name != "" && Trim(op.name) == name
  }

  /** Operation `i` registered the device that is there under this name: nothing deregistered it since, and there was
      none before it. */
  ghost predicate RegisteredBy(ops: seq<Op>, i: nat, name: string) {
    && i < |ops| && Registers(ops[i], name)
    && (forall j :: i < j < |ops| ==> !Deregisters(ops[j], name))
    && (forall k :: 0 <= k < i && Registers(ops[k], name) ==> exists j :: k < j < i && Deregisters(ops[j], name))
  }

  lemma StepDevices(s: State, op: Op, name: string)
    ensures Registers(op, name) && name !in s.backends ==>
      name in Step(s, op).backends && Step(s, op).backends[name] == op.device
    ensures Deregisters(op, name) ==> name !in Step(s, op).backends
    ensures !Deregisters(op, name) && (name in s.backends || !Registers(op, name)) ==>
      && (name in Step(s, op).backends <==> name in s.backends)
      && (name in s.backends ==> Step(s, op).backends[name] == s.backends[name])
  {
  }

  lemma RegisteredStays(ops: seq<Op>, n: nat, i: nat, name: string)
    requires n == |ops| - 1 && i < n && !Deregisters(ops[n], name)
    ensures RegisteredBy(ops, i, name) <==> RegisteredBy(ops[..n], i, name)
  {
    hide Registers, Deregisters;
    if RegisteredBy(ops[..n], i, name) {
      forall k | 0 <= k < i && Registers(ops[k], name) ensures exists j :: k < j < i && Deregisters(ops[j], name) {
        assert ops[..n][k] == ops[k];
        var j :| k < j < i && Deregisters(ops[..n][j], name);
        assert Deregisters(ops[j], name);
      }
    }
    if RegisteredBy(ops, i, name) {
      forall k | 0 <= k < i && Registers(ops[..n][k], name)
        ensures exists j :: k < j < i && Deregisters(ops[..n][j], name)
      {
        var j :| k < j < i && Deregisters(ops[j], name);
        assert Deregisters(ops[..n][j], name);
      }
    }
  }

  /** Without a device under this name, each registration of it has been undone. */
  ghost predicate AllUndone(ops: seq<Op>, name: string) {
    forall k :: 0 <= k < |ops| && Registers(ops[k], name) ==> exists j :: k < j < |ops| && Deregisters(ops[j], name)
  }

  lemma UndoneNow(ops: seq<Op>, n: nat, name: string)
    requires n == |ops| - 1 && Deregisters(ops[n], name)
    ensures AllUndone(ops, name) && forall i: nat :: !RegisteredBy(ops, i, name)
  {
  }

  lemma UndoneBefore(ops: seq<Op>, n: nat, name: string)
    requires n == |ops| - 1 && AllUndone(ops[..n], name)
    ensures Registers(ops[n], name) ==> RegisteredBy(ops, n, name)
    ensures !Registers(ops[n], name) ==> AllUndone(ops, name) && !RegisteredBy(ops, n, name)
  {
    hide Registers, Deregisters;
    forall k | 0 <= k < n && Registers(ops[k], name) ensures exists j :: k < j < n && Deregisters(ops[j], name) {
      assert ops[..n][k] == ops[k];
      var j :| k < j < n && Deregisters(ops[..n][j], name);
      assert Deregisters(ops[j], name);
    }
  }

  lemma NotAgain(ops: seq<Op>, i: nat, name: string)
    requires i < |ops| - 1 && RegisteredBy(ops, i, name)
    ensures !RegisteredBy(ops, |ops| - 1, name)
  {
  }

  lemma RegisteredWithin(ops: seq<Op>, name: string)
    ensures forall i: nat :: RegisteredBy(ops, i, name) ==> i < |ops| && ops[i].Register?
  {
  }

  /** In every run, whatever fails, the devices there are follow from the calls alone: one is there under a name exactly
      when a registration of it went through that nothing has undone, not even a deregistration that failed, and it is the
      device of the first such registration. */
  lemma {:induction false} DevicesExact(ops: seq<Op>, name: string)
    ensures forall i: nat :: RegisteredBy(ops, i, name) ==>
      i < |ops| && ops[i].Register? && name in RunOf(ops).backends && RunOf(ops).backends[name] == ops[i].device
    ensures name in RunOf(ops).backends ==> exists i: nat :: RegisteredBy(ops, i, name)
    ensures name !in RunOf(ops).backends ==> AllUndone(ops, name)
  {
    hide Step, Registers, Deregisters, RegisteredBy, AllUndone;
    RegisteredWithin(ops, name);
    if ops == [] {
      NothingToUndo(name);
    } else {
      var n := |ops| - 1;
      DevicesExact(ops[..n], name);
      RegisteredWithin(ops[..n], name);
      var s := RunOf(ops[..n]);
      StepDevices(s, ops[n], name);
      if Deregisters(ops[n], name) {
        UndoneNow(ops, n, name);
      } else {
        forall i: nat | i < n ensures RegisteredBy(ops, i, name) <==> RegisteredBy(ops[..n], i, name) {
          RegisteredStays(ops, n, i, name);
        }
        if name in s.backends {
          var i: nat :| RegisteredBy(ops[..n], i, name);
          NotAgain(ops, i, name);
        } else {
          UndoneBefore(ops, n, name);
        }
      }
    }
  }

  lemma NothingToUndo(name: string)
    ensures AllUndone([], name)
  {
  }

  // ---- Logging ----

  /** What the event broker answers to Send: an error, or the number of sinks completed and of warnings. */
  datatype Status = Status(error: Option<string>, completeSinks: nat, warnings: nat)

  /** Send reports an error when fewer sinks than the threshold complete. */
  predicate HonoursThreshold(s: State, status: Status) {
    status.error.None? ==> status.completeSinks >= s.threshold
  }

  /** Logging returns no error; `prepared` is the error of creating the event or its context, if any. */
  predicate LogsOk(s: State, prepared: Option<string>, status: Status) {
    s.backends == map[] ||
    (prepared.None? &&
     (s.pipelines == {} || (status.error.None? && (status.completeSinks > 0 || status.warnings == 0))))
  }

  /** In every reachable state: without devices a call to log returns no error; with devices, exactly when the event was
      prepared, sending it returned none, and it reached a sink or nothing warned. */
  lemma LogExact(ops: seq<Op>, prepared: Option<string>, status: Status)
    ensures var s := RunOf(ops);
      LogsOk(s, prepared, status) <==>
        || s.backends == map[]
        || (prepared.None? && status.error.None? && !(status.completeSinks == 0 && status.warnings > 0))
  {
    RunPiped(ops);
    var s := RunOf(ops);
    if s.backends != map[] {
      var name :| name in s.backends;
      assert name in s.pipelines;
    }
  }

  /** In every run of unfiltered devices, whatever fails: with devices present, a log call without error has reached a sink. */
  lemma LoggedSomewhere(ops: seq<Op>, prepared: Option<string>, status: Status)
    requires forall i :: 0 <= i < |ops| ==> Unfiltered(ops[i])
    requires var s := RunOf(ops); s.backends != map[] && HonoursThreshold(s, status) && LogsOk(s, prepared, status)
    ensures status.completeSinks > 0
  {
    RunEnforced(ops);
    RunPiped(ops);
    var name :| name in RunOf(ops).backends;
    assert name in RunOf(ops).pipelines;
  }

  /** With filtering devices, only a single such device can go without. */
  lemma UnloggedOnlyIfOneFilter(ops: seq<Op>, prepared: Option<string>, status: Status)
    requires var s := RunOf(ops); s.backends != map[] && HonoursThreshold(s, status) && LogsOk(s, prepared, status)
    ensures status.completeSinks > 0 || OnlyOneFilter(RunOf(ops).backends)
  {
    RunPiped(ops);
    var name :| name in RunOf(ops).backends;
    assert name in RunOf(ops).pipelines;
  }

  /** In every reachable state with devices, an event can go unlogged without an error exactly when the threshold is 0. */
  lemma UnloggedIffThresholdZero(ops: seq<Op>)
    requires RunOf(ops).backends != map[]
    ensures var s := RunOf(ops);
      s.threshold == 0 <==> exists status :: HonoursThreshold(s, status) && LogsOk(s, None, status) && status.completeSinks == 0
  {
    RunPiped(ops);
    var s := RunOf(ops);
    var name :| name in s.backends;
    assert name in s.pipelines;
    assert s.threshold == 0 ==> HonoursThreshold(s, Status(None, 0, 0)) && LogsOk(s, None, Status(None, 0, 0));
  }

  /** One filtering device, registered first, may go unlogged without an error. */
  lemma FirstFilterMayGoUnlogged(name: string)
    ensures var s := RunOf([Register(name, Device(true, false, {}), Faults({}, false, false, Removed))]);
      var status := Status(None, 0, 0);
      name in s.backends && HonoursThreshold(s, status) && LogsOk(s, None, status)
  {
  }

  /** A name with white space around it is never deregistered, because Deregister trims its argument. */
  lemma UntrimmedStays(s: State, op: Op, name: string)
    requires name in s.backends && Trim(name) != name
    ensures name in Step(s, op).backends
  {
  }

  // ---- The brokers ----

  /** The event broker: its nodes, pipelines and threshold. A call given `fails` changes nothing. */
  class EventBroker {
    var nodes: set<nat>
    var pipelines: set<string>
    var threshold: nat

    constructor ()
      ensures pipelines == {} && threshold == 0
    {
      nodes, pipelines, threshold := {}, {}, 0;
    }

    method RegisterNode(id: nat, fails: bool) returns (err: Option<string>)
      modifies `nodes
      ensures err.Some? <==> fails
    {
      if fails {
        return Some("node");
      }
      nodes := nodes + {id};
      err := None;
    }

    method RegisterPipeline(name: string, fails: bool) returns (err: Option<string>)
      modifies `pipelines
      ensures err.Some? <==> fails
      ensures pipelines == if fails then old(pipelines) else old(pipelines) + {name}
    {
      if fails {
        return Some("pipeline");
      }
      pipelines := pipelines + {name};
      err := None;
    }

    method SetSuccessThresholdSinks(n: nat, fails: bool) returns (err: Option<string>)
      modifies `threshold
      ensures err.Some? <==> fails
      ensures threshold == if fails then old(threshold) else n
    {
      if fails {
        return Some("threshold");
      }
      threshold := n;
      err := None;
    }

    /** Removal may be refused, or fail once the pipeline is gone. */
    method RemovePipelineAndNodes(name: string, removal: Removal) returns (err: Option<string>)
      modifies `pipelines
      ensures err.None? <==> removal.Removed?
      ensures pipelines == if removal.Refused? then old(pipelines) else old(pipelines) - {name}
    {
      if !removal.Refused? {
        pipelines := pipelines - {name};
      }
      err := if removal.Removed? then None else Some("removal");
    }
  }

  class Broker {
    const events: EventBroker
    var backends: map<string, Device>

    ghost function St(): State
      reads this, events
    {
      State(backends, events.pipelines, events.threshold)
    }

    constructor ()
      ensures St() == START && fresh(events)
    {
      backends := map[];
      events := new EventBroker();
    }

    method RequiredSuccessThresholdSinks() returns (n: nat)
      ensures n == Required(St())
    {
      if |backends| > 0 {
        return 1;
      }
      return 0;
    }

    method RegisterNodesAndPipeline(name: string, d: Device, f: Faults) returns (err: Option<string>)
      modifies events`nodes, events`pipelines
      ensures err.Some? <==> d.nodes * f.nodes != {} || f.pipeline
      ensures events.pipelines == if err.None? then old(events.pipelines) + {name} else old(events.pipelines)
    {
      var todo := d.nodes;
      while todo != {}
        invariant todo <= d.nodes && (d.nodes - todo) * f.nodes == {}
        invariant events.pipelines == old(events.pipelines)
      {
        var id :| id in todo;
        err := events.RegisterNode(id, id in f.nodes);
        if err.Some? {
          assert id in d.nodes * f.nodes;
          return;
        }
        todo := todo - {id};
      }
      err := events.RegisterPipeline(name, f.pipeline);
    }

    method Register(name: string, d: Device, f: Faults) returns (err: Option<string>)
      modifies this, events
      ensures var (s, ok) := Registered(old(St()), name, d, f); St() == s && (err.None? <==> ok)
      ensures err.None? <==> name !in old(backends) && d.nodes * f.nodes == {} && !f.pipeline && !f.threshold
      ensures backends == if err.None? then old(backends)[name := d] else old(backends)
      ensures err.None? ==> events.pipelines == old(events.pipelines) + {name}
      ensures err.None? ==> events.threshold == if d.filtered && old(backends) == map[] then 0 else 1
    {
      if name in backends {
        return Some("backend already registered");
      }
      err := RegisterNodesAndPipeline(name, d, f);
      if err.Some? {
        return;
      }
      var threshold := 1;
      if d.filtered {
        threshold := RequiredSuccessThresholdSinks();
      }
      err := events.SetSuccessThresholdSinks(threshold, f.threshold);
      if err.Some? {
        return;
      }
      backends := backends[name := d];
    }

    method Deregister(name: string, f: Faults) returns (err: Option<string>)
      modifies this, events
      ensures var (s, ok) := Deregistered(old(St()), name, f); St() == s && (err.None? <==> ok)
      ensures Trim(name) != "" ==> backends == old(backends) - {Trim(name)}
      ensures err.None? && Trim(name) in old(backends) ==>
        events.pipelines == old(events.pipelines) - {Trim(name)} && events.threshold == if backends == map[] then 0 else 1
    {
      var trimmed := Trim(name);
      if trimmed == "" {
        return Some("name is required");
      }
      if trimmed !in backends {
        return None;
      }
      backends := backends - {trimmed};
      var threshold := RequiredSuccessThresholdSinks();
      err := events.SetSuccessThresholdSinks(threshold, f.threshold);
      if err.Some? {
        return;
      }
      err := events.RemovePipelineAndNodes(trimmed, f.removal);
    }

    /** LogRequest and LogResponse, which differ only in the kind of event they send. */
    method Log(prepared: Option<string>, send: Status) returns (err: Option<string>)
      ensures err.None? <==> LogsOk(St(), prepared, send)
    {
      if |backends| < 1 {
        return None;
      }
      if prepared.Some? {
        return prepared;
      }
      var status := Status(None, 0, 0);
      if events.pipelines != {} {
        status := send;
        if status.error.Some? {
          return status.error;
        }
      }
      if status.completeSinks > 0 {
        return None;
      }
      if status.warnings > 0 {
        return Some("error during audit pipeline processing");
      }
      return None;
    }
  }
}
