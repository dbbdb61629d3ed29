/** The salt cell of an audit backend (audit/backend.go, Salt and Invalidate): any number of threads over one atomic
    cell, read first without and then under a lock. One step is one atomic action of one thread. */
module SaltCell {
  import opened Basics

  // ---- The sequential object: get or create, and clear ----

  datatype Outcome = Got(salt: int) | Failed | Cleared

  /** What an operation does to the cell at the instant it takes effect. */
  datatype Op = Hit(thread: nat, salt: int) | Create(thread: nat, salt: int) | Fail(thread: nat) | Clear(thread: nat)

  function OutcomeOf(op: Op): Outcome {
    match op
    case Hit(_, v) => Got(v)
    case Create(_, v) => Got(v)
    case Fail(_) => Failed
    case Clear(_) => Cleared
  }

  function CellAfter(h: seq<Op>): Option<int> {
    if h == [] then None
    else match h[|h| - 1]
      case Hit(_, _) => CellAfter(h[..|h| - 1])
      case Create(_, v) => Some(v)
      case Fail(_) => None
      case Clear(_) => None
  }

  /** Each hit returns the salt in the cell, and creation is tried only on an empty cell. */
  predicate Legal(h: seq<Op>) {
    h == [] ||
    var front, op := h[..|h| - 1], h[|h| - 1];
    && Legal(front)
    && (op.Hit? ==> CellAfter(front) == Some(op.salt))
    && (op.Create? || op.Fail? ==> CellAfter(front) == None)
  }

  function Creations(h: seq<Op>): nat {
    if h == [] then 0 else Creations(h[..|h| - 1]) + if h[|h| - 1].Create? then 1 else 0
  }

  function Clearings(h: seq<Op>): nat {
    if h == [] then 0 else Clearings(h[..|h| - 1]) + if h[|h| - 1].Clear? then 1 else 0
  }

  lemma {:induction false} CreationsBounded(h: seq<Op>)
    requires Legal(h)
    ensures Creations(h) <= Clearings(h) + if CellAfter(h).Some? then 1 else 0
  {
    if h != [] {
      CreationsBounded(h[..|h| - 1]);
    }
  }

  lemma {:induction false} LegalPrefix(h: seq<Op>, n: nat)
    requires Legal(h) && n <= |h|
    ensures Legal(h[..n])
  {
    if n < |h| {
      LegalPrefix(h[..|h| - 1], n);
      assert h[..|h| - 1][..n] == h[..n];
    } else {
      assert h[..n] == h;
    }
  }

  /** The cell holds what an operation returns at the instant it takes effect. */
  lemma InCellWhenReturned(h: seq<Op>, k: nat)
    requires Legal(h) && k < |h| && OutcomeOf(h[k]).Got?
    ensures CellAfter(h[..k + 1]) == Some(OutcomeOf(h[k]).salt)
  {
    LegalPrefix(h, k + 1);
  }

  /** Between two clearings every salt returned is the same. */
  lemma SameBetweenClearings(h: seq<Op>, i: nat, j: nat)
    requires Legal(h) && i <= j < |h| && OutcomeOf(h[i]).Got? && OutcomeOf(h[j]).Got?
    requires forall k :: i <= k <= j ==> !h[k].Clear?
    ensures OutcomeOf(h[i]) == OutcomeOf(h[j]) && forall k :: i < k <= j ==> h[k].Hit?
  {
    InCellWhenReturned(h, i);
    InCellWhenReturned(h, j);
    StaysInCell(h, i, j);
  }

  lemma {:induction false} StaysInCell(h: seq<Op>, i: nat, j: nat)
    requires Legal(h) && i <= j < |h| && CellAfter(h[..i + 1]).Some?
    requires forall k :: i < k <= j ==> !h[k].Clear?
    ensures CellAfter(h[..j + 1]) == CellAfter(h[..i + 1]) && forall k :: i < k <= j ==> h[k].Hit?
  {
    if i < j {
      StaysInCell(h, i, j - 1);
      LegalPrefix(h, j + 1);
      assert h[..j + 1][..j] == h[..j];
    }
  }

  // ---- The threads ----

  /** Where a thread is; `began` and `at` are the lengths of the history when its call began and took effect. */
  datatype Pc =
    | Idle
    | Loading(began: nat)
    | Waiting(began: nat)
    | Locked(began: nat)
    | Creating(began: nat)
    | Made(began: nat, made: Option<int>)
    | ClearWaiting(began: nat)
    | ClearLocked(began: nat)
    | Leaving(began: nat, at: nat, outcome: Outcome)
    | Returning(began: nat, at: nat, outcome: Outcome)

  datatype Operation = SaltCall | InvalidateCall

  datatype Call = Call(thread: nat, op: Operation, began: nat, at: nat, ended: nat, outcome: Outcome)

  /** `called` has the operation each thread called last. */
  datatype State = State(
    cell: Option<int>, holder: Option<nat>, pcs: map<nat, Pc>, called: map<nat, Operation>, hist: seq<Op>, calls: seq<Call>)

  function CalledBy(s: State, t: nat): Operation {
    if t in s.called then s.called[t] else SaltCall
  }

  function PcOf(s: State, t: nat): Pc {
    if t in s.pcs then s.pcs[t] else Idle
  }

  function Goto(s: State, t: nat, pc: Pc): State {
    s.(pcs := s.pcs[t := pc])
  }

  /** The operation takes effect now. */
  function Effect(s: State, t: nat, pc: Pc, op: Op): State {
    Goto(s.(hist := s.hist + [op]), t, pc)
  }

  datatype Action = CallSalt | CallInvalidate | Advance | NewSalt(made: Option<int>)

  /** The next action of thread `t`; nothing happens when it has to wait for the lock or `a` is not its next action. */
  function Next(s: State, t: nat, a: Action): State {
    var now := |s.hist|;
    match PcOf(s, t)
    case Idle =>
      if a.CallSalt? then Goto(s.(called := s.called[t := SaltCall]), t, Loading(now))
      else if a.CallInvalidate? then Goto(s.(called := s.called[t := InvalidateCall]), t, ClearWaiting(now))
      else s
    case Loading(b) =>
      if !a.Advance? then s
      else if s.cell.Some? then Effect(s, t, Returning(b, now, Got(s.cell.value)), Hit(t, s.cell.value))
      else Goto(s, t, Waiting(b))
    case Waiting(b) =>
      if !a.Advance? || s.holder.Some? then s else Goto(s.(holder := Some(t)), t, Locked(b))
    case Locked(b) =>
      if !a.Advance? then s
      else if s.cell.Some? then Effect(s, t, Leaving(b, now, Got(s.cell.value)), Hit(t, s.cell.value))
      else Goto(s, t, Creating(b))
    case Creating(b) =>
      if a.NewSalt? then Goto(s, t, Made(b, a.made)) else s
    case Made(b, made) =>
      if !a.Advance? then s
      else if made.Some? then Effect(s.(cell := made), t, Leaving(b, now, Got(made.value)), Create(t, made.value))
      else Effect(s.(cell := None), t, Leaving(b, now, Failed), Fail(t))
    case ClearWaiting(b) =>
      if !a.Advance? || s.holder.Some? then s else Goto(s.(holder := Some(t)), t, ClearLocked(b))
    case ClearLocked(b) =>
      if !a.Advance? then s else Effect(s.(cell := None), t, Leaving(b, now, Cleared), Clear(t))
    case Leaving(b, at, o) =>
      if !a.Advance? then s else Goto(s.(holder := None), t, Returning(b, at, o))
    case Returning(b, at, o) =>
      if !a.Advance? then s else Goto(s.(calls := s.calls + [Call(t, CalledBy(s, t), b, at, now, o)]), t, Idle)
  }

  const START := State(None, None, map[], map[], [], [])

  function RunOf(steps: seq<(nat, Action)>): State {
    if steps == [] then START
    else
      var n := |steps| - 1;
      Next(RunOf(steps[..n]), steps[n].0, steps[n].1)
  }

  // ---- What every step keeps ----

  predicate HoldsLock(pc: Pc) {
    pc.Locked? || pc.Creating? || pc.Made? || pc.ClearLocked? || pc.Leaving?
  }

  predicate TookEffect(pc: Pc) {
    pc.Leaving? || pc.Returning?
  }

  /** The call took effect after it began, as the operation of its thread that has its outcome. */
  predicate Explains(h: seq<Op>, t: nat, began: nat, at: nat, o: Outcome) {
    began <= at < |h| && h[at].thread == t && OutcomeOf(h[at]) == o
  }

  /** The lock has one holder, and the cell is empty while a salt is being created. */
  ghost predicate LockInv(s: State) {
    && (forall t :: t in s.pcs ==> (HoldsLock(s.pcs[t]) <==> s.holder == Some(t)))
    && (s.holder.Some? ==> s.holder.value in s.pcs)
    && (forall t :: t in s.pcs && (s.pcs[t].Creating? || s.pcs[t].Made?) ==> s.cell == None)
  }

  ghost predicate HistInv(s: State) {
    Legal(s.hist) && CellAfter(s.hist) == s.cell
  }

  /** Each call, finished or not, is explained by the history. */
  ghost predicate CallInv(s: State) {
    && (forall t :: t in s.pcs && !s.pcs[t].Idle? ==> s.pcs[t].began <= |s.hist|)
    && (forall t :: t in s.pcs && TookEffect(s.pcs[t]) ==> Explains(s.hist, t, s.pcs[t].began, s.pcs[t].at, s.pcs[t].outcome))
    && (forall i :: 0 <= i < |s.calls| ==>
      var c := s.calls[i]; Explains(s.hist, c.thread, c.began, c.at, c.outcome) && c.at < c.ended <= |s.hist|)
  }

  /** The calls of one thread follow one another. */
  ghost predicate OrderInv(s: State) {
    && (forall i, j :: 0 <= i < j < |s.calls| && s.calls[i].thread == s.calls[j].thread ==> s.calls[i].ended <= s.calls[j].began)
    && (forall i :: 0 <= i < |s.calls| ==> s.calls[i].thread in s.pcs)
    && (forall i :: 0 <= i < |s.calls| && !s.pcs[s.calls[i].thread].Idle? ==> s.calls[i].ended <= s.pcs[s.calls[i].thread].began)
  }

  /** Operation `k` of the history belongs to a call. */
  ghost predicate Owned(s: State, k: nat) {
    (exists i :: 0 <= i < |s.calls| && s.calls[i].at == k) || exists t :: t in s.pcs && TookEffect(s.pcs[t]) && s.pcs[t].at == k
  }

  ghost predicate OwnedInv(s: State) {
    forall k: nat :: k < |s.hist| ==> Owned(s, k)
  }

  lemma LockKept(s: State, t: nat, a: Action)
    requires LockInv(s)
    ensures LockInv(Next(s, t, a))
  {
  }

  lemma HistKept(s: State, t: nat, a: Action)
    requires LockInv(s) && HistInv(s)
    ensures HistInv(Next(s, t, a))
  {
  }

  /** What a step does to the calls: thread `t` alone moves on, and takes effect or returns at most once. */
  ghost predicate Moves(s: State, s': State, t: nat) {
    var p, p' := PcOf(s, t), PcOf(s', t);
    && s'.pcs == s.pcs[t := p']
    && (p.Idle? ==> s'.hist == s.hist && s'.calls == s.calls && !TookEffect(p') && !p'.Idle? && p'.began == |s.hist|)
    && (!p.Idle? && !TookEffect(p) ==> s'.calls == s.calls && !p'.Idle? && p'.began == p.began)
    && (!p.Idle? && !TookEffect(p) && !TookEffect(p') ==> s'.hist == s.hist)
    && (!p.Idle? && !TookEffect(p) && TookEffect(p') ==>
      |s'.hist| == |s.hist| + 1 && s.hist <= s'.hist && p'.at == |s.hist| && Explains(s'.hist, t, p.began, p'.at, p'.outcome))
    && (TookEffect(p) ==> s'.hist == s.hist)
    && (TookEffect(p) && !p'.Idle? ==>
      s'.calls == s.calls && TookEffect(p') && p'.began == p.began && p'.at == p.at && p'.outcome == p.outcome)
    && (TookEffect(p) && p'.Idle? ==> s'.calls == s.calls + [Call(t, CalledBy(s, t), p.began, p.at, |s.hist|, p.outcome)])
  }

  lemma EffectMoves(s: State, t: nat, a: Action)
    requires !PcOf(s, t).Idle? && !TookEffect(PcOf(s, t)) && PcOf(s, t).began <= |s.hist|
    ensures Next(s, t, a) == s || Moves(s, Next(s, t, a), t)
  {
  }

  lemma NextMoves(s: State, t: nat, a: Action)
    requires PcOf(s, t).Idle? || PcOf(s, t).began <= |s.hist|
    ensures Next(s, t, a) == s || Moves(s, Next(s, t, a), t)
  {
    if !PcOf(s, t).Idle? && !TookEffect(PcOf(s, t)) {
      EffectMoves(s, t, a);
    }
  }

  lemma CallKept(s: State, s': State, t: nat)
    requires CallInv(s) && Moves(s, s', t)
    ensures CallInv(s')
  {
  }

  lemma OrderKept(s: State, s': State, t: nat)
    requires CallInv(s) && OrderInv(s) && Moves(s, s', t)
    ensures OrderInv(s')
  {
  }

  lemma OwnedKept(s: State, s': State, t: nat)
    requires OwnedInv(s) && CallInv(s) && Moves(s, s', t)
    ensures OwnedInv(s')
  {
    forall k: nat | k < |s'.hist| ensures Owned(s', k) {
      if k == |s.hist| {
        assert t in s'.pcs && TookEffect(s'.pcs[t]) && s'.pcs[t].at == k;
      } else if i :| 0 <= i < |s.calls| && s.calls[i].at == k {
        assert s'.calls[i].at == k;
      } else {
        assert Owned(s, k);
        var u :| u in s.pcs && TookEffect(s.pcs[u]) && s.pcs[u].at == k;
        if u == t && PcOf(s', t).Idle? {
          assert s'.calls[|s.calls|].at == k;
        } else {
          assert u in s'.pcs && TookEffect(s'.pcs[u]) && s'.pcs[u].at == k;
        }
      }
    }
  }

  /** Where a thread can be in an operation, and what it can come to. */
  predicate Within(op: Operation, pc: Pc) {
    match pc
    case Idle => true
    case ClearWaiting(_) => op == InvalidateCall
    case ClearLocked(_) => op == InvalidateCall
    case Leaving(_, _, o) => o.Cleared? <==> op == InvalidateCall
    case Returning(_, _, o) => o.Cleared? <==> op == InvalidateCall
    case _ => op == SaltCall
  }

  /** Every thread is in the operation it called, and every call came to an outcome of its operation. */
  ghost predicate OpInv(s: State) {
    && (forall t :: t in s.pcs ==> Within(CalledBy(s, t), s.pcs[t]))
    && (forall i :: 0 <= i < |s.calls| ==> (s.calls[i].outcome.Cleared? <==> s.calls[i].op == InvalidateCall))
  }

  lemma OpKept(s: State, t: nat, a: Action)
    requires OpInv(s)
    ensures OpInv(Next(s, t, a))
  {
  }

  ghost predicate Inv(s: State) {
    LockInv(s) && HistInv(s) && CallInv(s) && OrderInv(s) && OwnedInv(s) && OpInv(s)
  }

  lemma StepKeeps(s: State, t: nat, a: Action)
    requires Inv(s)
    ensures Inv(Next(s, t, a))
  {
    hide Next, LockInv, HistInv, OrderInv, OwnedInv, OpInv, Moves;
    var s' := Next(s, t, a);
    LockKept(s, t, a);
    OpKept(s, t, a);
    HistKept(s, t, a);
    NextMoves(s, t, a);
    if s' != s {
      CallKept(s, s', t);
      OrderKept(s, s', t);
      OwnedKept(s, s', t);
    }
  }

  lemma {:induction false} RunKeeps(steps: seq<(nat, Action)>)
    ensures Inv(RunOf(steps))
  {
    hide Next;
    if steps != [] {
      var n := |steps| - 1;
      RunKeeps(steps[..n]);
      StepKeeps(RunOf(steps[..n]), steps[n].0, steps[n].1);
    }
  }

  // ---- Linearizability ----

  /** Every run is explained by one legal sequential history: each finished call takes effect once, as an operation of
      its own between its beginning and its end: a Salt call as a hit, a creation or a failed one, and what it returns is in
      the cell at that instant; an Invalidate call as a clearing, and the cell is empty at that instant. The history holds
      nothing that is not the operation of a call. */
  lemma Linearizable(steps: seq<(nat, Action)>)
    ensures var s := RunOf(steps);
      && Legal(s.hist) && CellAfter(s.hist) == s.cell
      && (forall i :: 0 <= i < |s.calls| ==>
        var c := s.calls[i];
        && c.began <= c.at < c.ended <= |s.hist| && s.hist[c.at].thread == c.thread && OutcomeOf(s.hist[c.at]) == c.outcome
        && (c.outcome.Got? ==> CellAfter(s.hist[..c.at + 1]) == Some(c.outcome.salt))
        && (c.op == SaltCall ==> !s.hist[c.at].Clear? && !c.outcome.Cleared?)
        && (c.op == InvalidateCall ==> s.hist[c.at].Clear? && c.outcome.Cleared? && CellAfter(s.hist[..c.at + 1]) == None))
      && (forall i, j :: 0 <= i < j < |s.calls| ==> s.calls[i].at != s.calls[j].at)
      && (forall k: nat :: k < |s.hist| ==> Owned(s, k))
  {
    hide Next, LockInv, Owned;
    RunKeeps(steps);
    var s := RunOf(steps);
    forall i | 0 <= i < |s.calls| && s.calls[i].outcome.Got?
      ensures CellAfter(s.hist[..s.calls[i].at + 1]) == Some(s.calls[i].outcome.salt)
    {
      InCellWhenReturned(s.hist, s.calls[i].at);
    }
  }

  /** However the threads interleave, salts are created at most once more than the cell is cleared. */
  lemma CreatedAtMostOncePerClearing(steps: seq<(nat, Action)>)
    ensures Creations(RunOf(steps).hist) <= Clearings(RunOf(steps).hist) + 1
  {
    RunKeeps(steps);
    CreationsBounded(RunOf(steps).hist);
  }

  /** Only one thread at a time creates a salt. */
  lemma OneCreator(steps: seq<(nat, Action)>, t: nat, u: nat)
    requires var s := RunOf(steps);
      && t in s.pcs && (s.pcs[t].Creating? || s.pcs[t].Made?)
      && u in s.pcs && (s.pcs[u].Creating? || s.pcs[u].Made?)
    ensures t == u
  {
    RunKeeps(steps);
  }

  // ---- What each call does ----

  /** A thread that is not in a call begins the one it asks for. */
  lemma CallsBegin(s: State, t: nat)
    requires PcOf(s, t).Idle?
    ensures CalledBy(Next(s, t, CallSalt), t) == SaltCall && !PcOf(Next(s, t, CallSalt), t).Idle?
    ensures CalledBy(Next(s, t, CallInvalidate), t) == InvalidateCall && !PcOf(Next(s, t, CallInvalidate), t).Idle?
  {
  }

  /** What creating a salt came to, if the operation is that. */
  function ResultOf(op: Op): seq<Option<int>> {
    if op.Create? then [Some(op.salt)] else if op.Fail? then [None] else []
  }

  /** What creating a salt came to for thread `t`, each time it did. */
  function Results(h: seq<Op>, t: nat): seq<Option<int>> {
    if h == [] then []
    else
      Results(h[..|h| - 1], t) + if h[|h| - 1].thread == t then ResultOf(h[|h| - 1]) else []
  }

  /** What has been handed to a thread that has not stored it yet. */
  function Pending(pc: Pc): seq<Option<int>> {
    if pc.Made? then [pc.made] else []
  }

  /** What has been handed to thread `t` each time it was creating a salt. */
  function Handed(steps: seq<(nat, Action)>, t: nat): seq<Option<int>> {
    if steps == [] then []
    else
      var n := |steps| - 1;
      Handed(steps[..n], t) +
      if steps[n].0 == t && steps[n].1.NewSalt? && PcOf(RunOf(steps[..n]), t).Creating? then [steps[n].1.made] else []
  }

  lemma StepStores(s: State, t: nat, a: Action)
    ensures var s', handed := Next(s, t, a), if a.NewSalt? && PcOf(s, t).Creating? then [a.made] else [];
      && (forall u: nat :: u != t ==> PcOf(s', u) == PcOf(s, u))
      && (s'.hist == s.hist ==> Pending(PcOf(s', t)) == Pending(PcOf(s, t)) + handed)
      && (s'.hist != s.hist ==>
        && |s'.hist| == |s.hist| + 1 && s'.hist[..|s.hist|] == s.hist && s'.hist[|s.hist|].thread == t
        && Pending(PcOf(s, t)) == ResultOf(s'.hist[|s.hist|]) && Pending(PcOf(s', t)) == [] && handed == [])
  {
  }

  lemma StepHands(s: State, t: nat, a: Action, u: nat)
    ensures var s' := Next(s, t, a);
      Results(s'.hist, u) + Pending(PcOf(s', u)) ==
      Results(s.hist, u) + Pending(PcOf(s, u)) + if u == t && a.NewSalt? && PcOf(s, t).Creating? then [a.made] else []
  {
    hide Next, Pending;
    StepStores(s, t, a);
  }

  /** In every run, each thread's creations and failures are, in order, exactly what it was handed: a salt is created
      when one was handed to it, that one, and a creation fails when none was. */
  lemma {:induction false} CreatedAsHanded(steps: seq<(nat, Action)>, t: nat)
    ensures Results(RunOf(steps).hist, t) + Pending(PcOf(RunOf(steps), t)) == Handed(steps, t)
  {
    hide Next, Results, Pending;
    if steps == [] {
      HandedNothing(t);
    } else {
      var n := |steps| - 1;
      CreatedAsHanded(steps[..n], t);
      StepHands(RunOf(steps[..n]), steps[n].0, steps[n].1, t);
    }
  }

  lemma HandedNothing(t: nat)
    ensures Results(START.hist, t) + Pending(PcOf(START, t)) == []
  {
  }

  /** Salt on a full cell returns what is in it, at once and without the lock. */
  lemma SaltHits(s: State, t: nat)
    requires PcOf(s, t).Idle? && s.cell.Some?
    ensures var s' := Next(Next(Next(s, t, CallSalt), t, Advance), t, Advance);
      && s'.cell == s.cell && s'.holder == s.holder && PcOf(s', t).Idle?
      && |s'.calls| == |s.calls| + 1 && s'.calls[|s.calls|].op == SaltCall && s'.calls[|s.calls|].outcome == Got(s.cell.value)
  {
  }

  /** A salt that appears while a thread waits for the lock is what its call returns. */
  lemma SaltRechecks(s: State, t: nat)
    requires PcOf(s, t).Waiting? && s.holder.None? && s.cell.Some?
    ensures var s' := Next(Next(Next(Next(s, t, Advance), t, Advance), t, Advance), t, Advance);
      && s'.cell == s.cell && s'.holder.None? && PcOf(s', t).Idle?
      && |s'.calls| == |s.calls| + 1 && s'.calls[|s.calls|].thread == t && s'.calls[|s.calls|].outcome == Got(s.cell.value)
  {
    var s2 := Next(Next(s, t, Advance), t, Advance);
    assert PcOf(s2, t).Leaving? && s2.cell == s.cell && s2.calls == s.calls && PcOf(s2, t).outcome == Got(s.cell.value);
  }

  lemma SaltLocks(s: State, t: nat)
    requires PcOf(s, t).Idle? && s.cell.None? && s.holder.None?
    ensures var locked := Next(Next(Next(Next(s, t, CallSalt), t, Advance), t, Advance), t, Advance);
      PcOf(locked, t).Creating? && locked.cell.None? && locked.holder == Some(t) && locked.calls == s.calls &&
      CalledBy(locked, t) == SaltCall
  {
  }

  lemma SaltStores(s: State, t: nat, made: Option<int>)
    requires PcOf(s, t).Creating? && s.cell.None? && s.holder == Some(t) && CalledBy(s, t) == SaltCall
    ensures var s' := Next(Next(Next(Next(s, t, NewSalt(made)), t, Advance), t, Advance), t, Advance);
      && s'.cell == made && s'.holder.None? && PcOf(s', t).Idle?
      && |s'.calls| == |s.calls| + 1 && s'.calls[|s.calls|].op == SaltCall
      && s'.calls[|s.calls|].outcome == (if made.Some? then Got(made.value) else Failed)
  {
    var stored := Next(Next(s, t, NewSalt(made)), t, Advance);
    assert PcOf(stored, t).Leaving? && stored.cell == made && stored.calls == s.calls && CalledBy(stored, t) == SaltCall;
  }

  /** Salt on an empty cell with the lock free loads a new salt, stores it and returns it, or returns the failure. */
  lemma SaltCreates(s: State, t: nat, made: Option<int>)
    requires PcOf(s, t).Idle? && s.cell.None? && s.holder.None?
    ensures var locked := Next(Next(Next(Next(s, t, CallSalt), t, Advance), t, Advance), t, Advance);
      var s' := Next(Next(Next(Next(locked, t, NewSalt(made)), t, Advance), t, Advance), t, Advance);
      && PcOf(locked, t).Creating? && s'.cell == made && s'.holder.None? && PcOf(s', t).Idle?
      && |s'.calls| == |s.calls| + 1 && s'.calls[|s.calls|].op == SaltCall
      && s'.calls[|s.calls|].outcome == (if made.Some? then Got(made.value) else Failed)
  {
    hide Next;
    SaltLocks(s, t);
    SaltStores(Next(Next(Next(Next(s, t, CallSalt), t, Advance), t, Advance), t, Advance), t, made);
  }

  /** Invalidate with the lock free empties the cell, whatever was in it. */
  lemma InvalidateClears(s: State, t: nat)
    requires PcOf(s, t).Idle? && s.holder.None?
    ensures var s' := Next(Next(Next(Next(Next(s, t, CallInvalidate), t, Advance), t, Advance), t, Advance), t, Advance);
      && s'.cell.None? && s'.holder.None? && PcOf(s', t).Idle?
      && |s'.calls| == |s.calls| + 1 && s'.calls[|s.calls|].op == InvalidateCall && s'.calls[|s.calls|].outcome == Cleared
  {
    var s2 := Next(Next(s, t, CallInvalidate), t, Advance);
    assert PcOf(s2, t).ClearLocked? && CalledBy(s2, t) == InvalidateCall && s2.calls == s.calls;
  }
}
