/** The lease lifetime watcher (api/lifetime_watcher.go): one loop that renews, backs off and sleeps.

    Times and durations are whole nanoseconds; the clock moves only while renewing and while sleeping. What the
    server, the random source, the backoff and the timers do is a script with one `Tick` for each round of the loop. */
module LifetimeWatcher {
  import opened Basics

  const SECOND := 1_000_000_000

  datatype Behavior = IgnoreErrors | RenewDisabled | ErrorOnErrors

  datatype AuthInfo = AuthInfo(leaseDuration: int, renewable: bool)
  datatype Answer =
    | Denied
    | Failed(error: string)
    | NoSecret
    | Granted(leaseDuration: int, renewable: bool, auth: Option<AuthInfo>)

  type Positive = x: int | 0 < x witness 1

  datatype Wake = Stopped | Fired(late: nat)

  /** One round: whether a stop was requested, the answer to a renewal and the time it took, the next random number,
      the next backoff (None: give up), and how the sleep ends. */
  datatype Tick = Tick(stopped: bool, answer: Answer, took: nat, random: nat, backoff: Option<Positive>, wake: Wake)

  /** Every backoff lasts at least `least`. */
  predicate BackoffsAtLeast(least: int, ticks: seq<Tick>) {
    forall i :: 0 <= i < |ticks| && ticks[i].backoff.Some? ==> ticks[i].backoff.value >= least
  }

  datatype Ending = Clean | NotRenewable | NoSecretData | RenewError(error: string)

  datatype Settings = Settings(tokenMode: bool, increment: int, behavior: Behavior)

  /** The loop's variables. */
  datatype Watch = Watch(
    now: int, initialTime: int, prior: int, lease: int, nonRenewable: bool, backingOff: bool, grace: int)

  /** A sleep: when it starts, how long it is scheduled for, and the lease expiry and grace period it must respect. */
  datatype Nap = Nap(start: int, duration: int, expiry: int, grace: int)

  // ---- Durations ----

  /** The smaller of the two, where an increment that is not positive does not count. */
  function Min(lease: int, increment: int): (d: int)
    ensures d <= lease && (d == lease || d == increment > 0) && (increment > 0 ==> d <= increment)
  {
    if lease > increment > 0 then increment else lease
  }

  /** The grace period for a minimum duration. The source divides by a tenth of a positive duration. */
  function GraceFor(d: int, random: nat): (g: int)
    requires d <= 0 || d >= 10
    ensures d <= 0 ==> g == 0
    ensures d > 0 ==> d / 10 <= g && 5 * g < d
  {
    if d <= 0 then 0 else d / 10 + random % (d / 10)
  }

  /** The jitter spreads the grace period over all of that range. */
  lemma GraceReaches(d: int, g: int)
    requires d >= 10 && d / 10 <= g < d / 10 + d / 10
    ensures GraceFor(d, g - d / 10) == g
  {
  }

  /** Leases and increments are whole seconds, so the grace period of the smaller is within a tenth and a fifth of it. */
  lemma GraceOfSeconds(lease: int, increment: int, random: nat)
    ensures var d := Min(lease * SECOND, increment * SECOND);
      && (d <= 0 || d >= SECOND)
      && (d > 0 ==> d <= 10 * GraceFor(d, random) && 5 * GraceFor(d, random) < d)
  {
    hide GraceFor;
  }

  /** Integer division that truncates, as a conversion from floating point does. */
  function Truncated(a: int, b: int): int
    requires b > 0
  {
    if a >= 0 then a / b else -(-a / b)
  }

  function SleepFor(remaining: int, grace: int): int {
    Truncated(2 * remaining + grace, 3)
  }

  /** Without backoff, the watcher goes to sleep exactly when four grace periods do not reach the remaining lease. */
  lemma SleepsIffBeyondFourGraces(remaining: int, grace: int)
    requires grace >= 0
    ensures remaining > grace && remaining - SleepFor(remaining, grace) > grace <==> remaining > 4 * grace
  {
  }

  // ---- One round ----

  /** What holds at the head of every round. */
  predicate Inv(w: Watch) {
    && w.initialTime <= w.now
    && w.prior <= w.lease * SECOND
    && w.grace >= 0
    && (w.lease > 0 ==> 10 * w.grace >= SECOND)
  }

  datatype Phase = Ended(ending: Ending) | Retry(w: Watch) | Go(w: Watch, remaining: int, error: Ending)

  function Refused(s: Settings, w: Watch, error: Ending): Phase {
    if s.behavior == ErrorOnErrors then Ended(if error == Clean then NoSecretData else error)
    else Go(w.(backingOff := true), w.initialTime + w.lease * SECOND - w.now, error)
  }

  function Renewed(s: Settings, w: Watch, lease: int, renewable: bool): Phase {
    if !renewable && s.behavior == ErrorOnErrors then Ended(NotRenewable)
    else Go(w.(backingOff := false, initialTime := w.now, lease := lease), lease * SECOND, Clean)
  }

  /** The first half of a round: the remaining lease duration, after a renewal where one is attempted. */
  function Renewal(s: Settings, w: Watch, t: Tick): Phase {
    if w.nonRenewable || s.behavior == RenewDisabled then Go(w, w.initialTime + w.prior - w.now, Clean)
    else
      var after := w.(now := w.now + t.took);
      match t.answer
      case Denied => Retry(after.(nonRenewable := true))
      case Failed(e) => Refused(s, after, RenewError(e))
      case NoSecret => Refused(s, after, Clean)
      case Granted(lease, renewable, auth) =>
        if s.tokenMode && auth.None? then Refused(s, after, Clean)
        else if s.tokenMode then Renewed(s, after, auth.value.leaseDuration, auth.value.renewable)
        else Renewed(s, after, lease, renewable)
  }

  lemma RenewalGrace(s: Settings, w: Watch, t: Tick)
    ensures var p := Renewal(s, w, t); !p.Ended? ==> p.w.grace == w.grace
  {
  }

  /** A round's sleep, if it came to one, and the ending or the next round's variables. */
  datatype Round = Round(nap: Option<Nap>, ending: Option<Ending>, next: Watch)

  /** Whether the grace period is computed anew from the remaining duration. */
  predicate Extends(p: Phase)
    requires p.Go?
  {
    !p.w.backingOff && p.remaining > p.w.prior
  }

  /** Whenever it is computed anew, the duration is non-positive or at least a second. */
  lemma GraceArgument(s: Settings, w: Watch, t: Tick)
    requires Inv(w)
    ensures var p := Renewal(s, w, t);
      p.Go? && Extends(p) ==> var d := Min(p.remaining, s.increment * SECOND); d <= 0 || d >= SECOND
  {
  }

  function Rest(s: Settings, p: Phase, t: Tick): Round
    requires p.Go?
    requires Extends(p) ==> var d := Min(p.remaining, s.increment * SECOND); d <= 0 || d >= 10
  {
    var w := if Extends(p) then p.w.(grace := GraceFor(Min(p.remaining, s.increment * SECOND), t.random)) else p.w;
    if w.backingOff && t.backoff.None? then Round(None, Some(p.error), w)
    else
      var sleep := if w.backingOff then t.backoff.value else SleepFor(p.remaining, w.grace);
      if p.remaining <= w.grace || p.remaining - sleep <= w.grace then Round(None, Some(Clean), w.(prior := p.remaining))
      else
        var nap := Nap(w.now, sleep, w.initialTime + w.lease * SECOND, w.grace);
        match t.wake
        case Stopped => Round(Some(nap), Some(Clean), w.(prior := p.remaining))
        case Fired(late) => Round(Some(nap), None, w.(prior := p.remaining, now := w.now + sleep + late))
  }

  function OneRound(s: Settings, w: Watch, t: Tick): Round
    requires Inv(w)
  {
    if t.stopped then Round(None, Some(Clean), w)
    else
      var p := Renewal(s, w, t);
      match p
      case Ended(e) => Round(None, Some(e), w)
      case Retry(w') => Round(None, None, w')
      case Go(_, _, _) =>
        GraceArgument(s, w, t);
        Rest(s, p, t)
  }

  /** A scheduled wake-up leaves more than the grace period before the latest known expiry. */
  predicate Safe(nap: Nap) {
    && nap.start + nap.duration + nap.grace < nap.expiry
    && 10 * nap.grace >= SECOND
  }

  /** What the first half of a round establishes for the second. */
  predicate Ready(s: Settings, w: Watch, p: Phase)
    requires p.Go?
  {
    && w.now <= p.w.now && p.w.initialTime <= p.w.now
    && p.w.grace == w.grace >= 0 && p.w.nonRenewable == w.nonRenewable
    && p.remaining <= p.w.initialTime + p.w.lease * SECOND - p.w.now
    && (p.remaining > 0 ==> Extends(p) || 10 * p.w.grace >= SECOND)
    && (Extends(p) ==> var d := Min(p.remaining, s.increment * SECOND); d <= 0 || d >= SECOND)
  }

  lemma RenewalReady(s: Settings, w: Watch, t: Tick)
    requires Inv(w)
    ensures Renewal(s, w, t).Go? ==> Ready(s, w, Renewal(s, w, t))
  {
  }

  /** The second half of a round sleeps safely, no shorter than a backoff or 0.3 seconds, and keeps the invariant. */
  lemma RestKeeps(s: Settings, w: Watch, p: Phase, t: Tick, least: int)
    requires p.Go? && Ready(s, w, p)
    requires 0 < least && 10 * least <= 3 * SECOND && (t.backoff.Some? ==> t.backoff.value >= least)
    ensures var r := Rest(s, p, t);
      && (r.ending.None? ==> r.nap.Some? && Inv(r.next) && r.next.now >= r.nap.value.start + r.nap.value.duration)
      && (r.ending.None? ==> r.next.nonRenewable == w.nonRenewable)
      && (r.nap.Some? ==> Safe(r.nap.value) && r.nap.value.duration >= least && r.nap.value.start >= w.now)
  {
  }

  /** Each round keeps the invariant and sleeps safely; it goes on without a sleep only once, when permission is denied. */
  lemma RoundKeeps(s: Settings, w: Watch, t: Tick, least: int)
    requires Inv(w) && 0 < least && 10 * least <= 3 * SECOND && (t.backoff.Some? ==> t.backoff.value >= least)
    ensures var r := OneRound(s, w, t);
      && (r.ending.None? ==> Inv(r.next))
      && (r.nap.Some? ==> Safe(r.nap.value) && r.nap.value.duration >= least && r.nap.value.start >= w.now)
      && (r.ending.None? && r.nap.None? ==> !w.nonRenewable && r.next.nonRenewable && r.next.now >= w.now)
      && (r.ending.None? && r.nap.Some? ==>
           r.next.now >= r.nap.value.start + r.nap.value.duration && r.next.nonRenewable == w.nonRenewable)
  {
    RenewalReady(s, w, t);
    var p := Renewal(s, w, t);
    if p.Go? {
      RestKeeps(s, w, p, t, least);
    }
  }

  /** Without backoff a round sleeps exactly when the remaining lease exceeds four grace periods. */
  lemma RoundSleepsIff(s: Settings, w: Watch, t: Tick)
    requires Inv(w) && !t.stopped
    ensures var p, r := Renewal(s, w, t), OneRound(s, w, t);
      p.Go? && !p.w.backingOff ==> (r.nap.Some? <==> p.remaining > 4 * r.next.grace) && (r.nap.None? ==> r.ending == Some(Clean))
  {
  }

  /** The lease that an answer grants, in the mode the watcher runs in. */
  function GrantedLease(s: Settings, a: Answer): Option<int> {
    if !a.Granted? then None
    else if !s.tokenMode then Some(a.leaseDuration)
    else if a.auth.Some? then Some(a.auth.value.leaseDuration)
    else None
  }

  /** The expiry known after a round: that of a lease granted in it, counted from the arrival of the answer,
      or the one known before. */
  function LatestExpiry(s: Settings, w: Watch, t: Tick): int {
    if w.nonRenewable || s.behavior == RenewDisabled || GrantedLease(s, t.answer).None? then w.initialTime + w.lease * SECOND
    else w.now + t.took + GrantedLease(s, t.answer).value * SECOND
  }

  /** The expiry each sleep is measured against is that of the latest known lease. */
  lemma ExpiryTracked(s: Settings, w: Watch, t: Tick)
    requires Inv(w)
    ensures var r := OneRound(s, w, t);
      && (r.nap.Some? ==> r.nap.value.expiry == LatestExpiry(s, w, t))
      && (r.ending.None? ==> r.next.initialTime + r.next.lease * SECOND == LatestExpiry(s, w, t))
  {
    hide GraceFor, SleepFor, Inv;
    RenewalReady(s, w, t);
  }

  /** A round that goes on is non-renewable once permission has been denied, and backs off exactly when the latest
      attempt to renew brought no lease. */
  lemma FlagsTracked(s: Settings, w: Watch, t: Tick)
    requires Inv(w) && OneRound(s, w, t).ending.None?
    ensures var next := OneRound(s, w, t).next;
      var attempted := !w.nonRenewable && s.behavior != RenewDisabled;
      && next.nonRenewable == (w.nonRenewable || (attempted && t.answer.Denied?))
      && next.backingOff == if attempted && !t.answer.Denied? then GrantedLease(s, t.answer).None? else w.backingOff
  {
    hide GraceFor, SleepFor, Inv;
    RenewalReady(s, w, t);
  }

  /** Without renewals, the remaining lease falls from each round to the next to at most a third of what exceeds the
      grace period, rounded up. */
  lemma RemainingShrinks(s: Settings, w: Watch, t: Tick, t': Tick)
    requires Inv(w) && !w.backingOff && (w.nonRenewable || s.behavior == RenewDisabled) && !t.stopped
    requires OneRound(s, w, t).ending.None?
    ensures var remaining, next := Renewal(s, w, t).remaining, OneRound(s, w, t).next;
      3 * Renewal(s, next, t').remaining <= remaining - w.grace + 2
  {
  }

  // ---- Rounds, case by case ----

  /** A renewal is attempted in this round. */
  predicate Attempts(s: Settings, w: Watch, t: Tick) {
    !t.stopped && !w.nonRenewable && s.behavior != RenewDisabled
  }

  /** How a round that settled on sleeping goes on: it ends if it is stopped, and else wakes up late by so much. */
  predicate GoesOn(r: Round, wake: Wake, remaining: int, initialTime: int, lease: int) {
    r.nap.Some? ==>
      match wake
      case Stopped => r.ending == Some(Clean)
      case Fired(late) =>
        && r.ending.None? && r.next.now == r.nap.value.start + r.nap.value.duration + late
        && r.next.prior == remaining && r.next.initialTime == initialTime && r.next.lease == lease
  }

  /** A lease is granted: it counts from the arrival of the answer, grace is computed anew exactly if it is longer than
      what was known before, and it is slept on for two thirds of it and a third of grace if it exceeds four graces. */
  lemma GrantRound(s: Settings, w: Watch, t: Tick, lease: int, renewable: bool)
    requires Inv(w) && Attempts(s, w, t) && t.answer.Granted?
    requires if s.tokenMode then t.answer.auth == Some(AuthInfo(lease, renewable))
             else lease == t.answer.leaseDuration && renewable == t.answer.renewable
    requires renewable || s.behavior != ErrorOnErrors
    ensures var r := OneRound(s, w, t); var at, left, g := w.now + t.took, lease * SECOND, r.next.grace;
      && (left <= w.prior ==> g == w.grace)
      && (left > w.prior ==> g == GraceFor(Min(left, s.increment * SECOND), t.random))
      && (left > 4 * g ==> r.nap == Some(Nap(at, (2 * left + g) / 3, at + left, g)))
      && (left <= 4 * g ==> r.nap.None? && r.ending == Some(Clean))
      && !r.next.backingOff && GoesOn(r, t.wake, left, at, lease)
  {
    hide GraceFor, Min;
    RenewalReady(s, w, t);
    SleepsIffBeyondFourGraces(lease * SECOND, OneRound(s, w, t).next.grace);
  }

  /** An attempt brings no lease and errors are ignored: the watcher backs off, measured against the lease it has. */
  lemma RefusedRound(s: Settings, w: Watch, t: Tick)
    requires Inv(w) && Attempts(s, w, t) && s.behavior == IgnoreErrors && !t.answer.Denied?
    requires t.answer.Granted? ==> s.tokenMode && t.answer.auth.None?
    ensures var r := OneRound(s, w, t); var at, expiry := w.now + t.took, w.initialTime + w.lease * SECOND;
      && (t.backoff.None? ==> r.nap.None? && r.ending == Some(if t.answer.Failed? then RenewError(t.answer.error) else Clean))
      && (t.backoff.Some? ==>
        var d := t.backoff.value;
        if expiry - at > w.grace && expiry - at - d > w.grace
        then r.nap == Some(Nap(at, d, expiry, w.grace)) && r.next.backingOff && GoesOn(r, t.wake, expiry - at, w.initialTime, w.lease)
        else r.nap.None? && r.ending == Some(Clean))
  {
  }

  /** No attempt is made: what is left of the duration known before is slept on, or the backoff goes on. */
  lemma UnattemptedRound(s: Settings, w: Watch, t: Tick)
    requires Inv(w) && !t.stopped && (w.nonRenewable || s.behavior == RenewDisabled)
    ensures var r := OneRound(s, w, t); var left, expiry := w.initialTime + w.prior - w.now, w.initialTime + w.lease * SECOND;
      && (w.backingOff && t.backoff.None? ==> r.nap.None? && r.ending == Some(Clean))
      && (!(w.backingOff && t.backoff.None?) ==>
        var d := if w.backingOff then t.backoff.value else (2 * left + w.grace) / 3;
        if (if w.backingOff then left > w.grace && left - d > w.grace else left > 4 * w.grace)
        then r.nap == Some(Nap(w.now, d, expiry, w.grace)) && GoesOn(r, t.wake, left, w.initialTime, w.lease)
        else r.nap.None? && r.ending == Some(Clean))
  {
    SleepsIffBeyondFourGraces(w.initialTime + w.prior - w.now, w.grace);
  }

  /** Permission is denied: the round starts over at once, without renewals from then on. */
  lemma DeniedRound(s: Settings, w: Watch, t: Tick)
    requires Inv(w) && Attempts(s, w, t) && t.answer.Denied?
    ensures OneRound(s, w, t) == Round(None, None, w.(now := w.now + t.took, nonRenewable := true))
  {
  }

  /** The error that an attempted renewal ends the watcher with, if any: where errors are errors, anything but a denial or
      a renewable lease; where they are ignored, a failure after which the backoff gives up. */
  function FatalError(s: Settings, t: Tick): Option<Ending> {
    var a := t.answer;
    if s.behavior == ErrorOnErrors then
      match a
      case Denied => None
      case Failed(e) => Some(RenewError(e))
      case NoSecret => Some(NoSecretData)
      case Granted(_, renewable, auth) =>
        if s.tokenMode && auth.None? then Some(NoSecretData)
        else if (if s.tokenMode then auth.value.renewable else renewable) then None
        else Some(NotRenewable)
    else if a.Failed? && t.backoff.None? then Some(RenewError(a.error))
    else None
  }

  /** A round returns an error exactly when it attempts a renewal that is fatal; a stop is always clean. */
  lemma RoundError(s: Settings, w: Watch, t: Tick)
    requires Inv(w)
    ensures var e := OneRound(s, w, t).ending;
      && (Attempts(s, w, t) && FatalError(s, t).Some? ==> e == FatalError(s, t))
      && (!(Attempts(s, w, t) && FatalError(s, t).Some?) ==> e.None? || e == Some(Clean))
      && (t.stopped ==> e == Some(Clean) && OneRound(s, w, t).nap.None?)
  {
  }

  // ---- Runs ----

  datatype Trace = Trace(naps: seq<Nap>, ending: Option<Ending>, final: Watch)

  /** A trace after some earlier sleeps. */
  function After(naps: seq<Nap>, t: Trace): Trace {
    t.(naps := naps + t.naps)
  }

  lemma AfterAfter(a: seq<Nap>, b: seq<Nap>, t: Trace)
    ensures After(a, After(b, t)) == After(a + b, t)
  {
  }

  /** The loop over a script; no ending means that the script ran out first. */
  function Run(s: Settings, w: Watch, ticks: seq<Tick>): Trace
    requires Inv(w)
    decreases |ticks|
  {
    if ticks == [] then Trace([], None, w)
    else
      var r := OneRound(s, w, ticks[0]);
      if r.ending.Some? then Trace(NapsOf(r), r.ending, r.next)
      else
        RoundKeeps(s, w, ticks[0], 1);
        After(NapsOf(r), Run(s, r.next, ticks[1..]))
  }

  function NapsOf(r: Round): seq<Nap> {
    if r.nap.Some? then [r.nap.value] else []
  }

  lemma RunNothing(s: Settings, w: Watch)
    requires Inv(w)
    ensures Run(s, w, []) == Trace([], None, w)
  {
  }

  lemma RunNext(s: Settings, w: Watch, ticks: seq<Tick>, i: nat)
    requires Inv(w) && i < |ticks|
    ensures var r := OneRound(s, w, ticks[i]); r.ending.Some? ==> Run(s, w, ticks[i..]) == Trace(NapsOf(r), r.ending, r.next)
    ensures var r := OneRound(s, w, ticks[i]); r.ending.None? ==> Inv(r.next)
    ensures var r := OneRound(s, w, ticks[i]);
      r.ending.None? ==> Run(s, w, ticks[i..]) == After(NapsOf(r), Run(s, r.next, ticks[i + 1..]))
  {
    hide OneRound, Inv;
    RoundKeeps(s, w, ticks[i], 1);
    assert ticks[i..][1..] == ticks[i + 1..];
  }

  /** The sleeps follow one another, none before `from`. */
  predicate InOrder(from: int, naps: seq<Nap>) {
    && (forall i :: 0 <= i < |naps| ==> from <= naps[i].start)
    && (forall i, j :: 0 <= i < j < |naps| ==> naps[i].start + naps[i].duration <= naps[j].start)
  }

  /** Every sleep of every run wakes more than a grace period, itself at least 0.1 seconds, before the latest known expiry. */
  lemma {:induction false} RunSafe(s: Settings, w: Watch, ticks: seq<Tick>)
    requires Inv(w)
    ensures InOrder(w.now, Run(s, w, ticks).naps)
    ensures forall nap :: nap in Run(s, w, ticks).naps ==> Safe(nap)
    decreases |ticks|
  {
    hide OneRound, Inv, Safe;
    if ticks != [] {
      RoundKeeps(s, w, ticks[0], 1);
      var r := OneRound(s, w, ticks[0]);
      if r.ending.None? {
        RunSafe(s, r.next, ticks[1..]);
        var rest := Run(s, r.next, ticks[1..]).naps;
        assert Run(s, w, ticks).naps == NapsOf(r) + rest;
      }
    }
  }

  /** No lease known in the run reaches past `limit`. */
  predicate LeasesBy(limit: int, s: Settings, w: Watch, ticks: seq<Tick>)
    requires Inv(w)
    decreases |ticks|
  {
    if ticks == [] then true
    else
      RoundKeeps(s, w, ticks[0], 1);
      var r := OneRound(s, w, ticks[0]);
      LatestExpiry(s, w, ticks[0]) <= limit && (r.ending.None? ==> LeasesBy(limit, s, r.next, ticks[1..]))
  }

  function Later(limit: int, now: int): nat {
    if now < limit then limit - now else 0
  }

  /** The loop ends: a run that is still going after n rounds has used up n sleeps' worth of time before the last expiry,
      counting one round more while renewal has not been denied. */
  lemma {:induction false} RunEnds(limit: int, least: int, s: Settings, w: Watch, ticks: seq<Tick>)
    requires Inv(w) && LeasesBy(limit, s, w, ticks)
    requires 0 < least && 10 * least <= 3 * SECOND && BackoffsAtLeast(least, ticks)
    ensures Run(s, w, ticks).ending.None? ==> least * |ticks| <= Later(limit, w.now) + if w.nonRenewable then 0 else least
    decreases |ticks|
  {
    hide OneRound, Inv, LatestExpiry;
    if ticks != [] {
      RoundKeeps(s, w, ticks[0], 1);
      RoundKeeps(s, w, ticks[0], least);
      ExpiryTracked(s, w, ticks[0]);
      var r := OneRound(s, w, ticks[0]);
      if r.ending.None? {
        assert BackoffsAtLeast(least, ticks[1..]);
        RunEnds(limit, least, s, r.next, ticks[1..]);
        assert least * |ticks| == least * |ticks[1..]| + least;
      }
    }
  }

  predicate DeniedIn(ticks: seq<Tick>) {
    exists i :: 0 <= i < |ticks| && ticks[i].answer.Denied?
  }

  lemma DeniedFirst(ticks: seq<Tick>)
    requires ticks != []
    ensures DeniedIn(ticks) <==> ticks[0].answer.Denied? || DeniedIn(ticks[1..])
  {
    assert forall i :: 0 < i < |ticks| ==> ticks[i] == ticks[1..][i - 1];
    assert forall i :: 0 <= i < |ticks| - 1 ==> ticks[1..][i] == ticks[i + 1];
  }

  /** A run over a longer script is the run over its beginning, unless that is still going, and then over the rest. */
  lemma {:induction false} RunSplit(s: Settings, w: Watch, ticks: seq<Tick>, k: nat)
    requires Inv(w) && k <= |ticks|
    ensures var a := Run(s, w, ticks[..k]);
      && (a.ending.Some? ==> Run(s, w, ticks) == a)
      && (a.ending.None? ==> Inv(a.final) && Run(s, w, ticks) == After(a.naps, Run(s, a.final, ticks[k..])))
    decreases k
  {
    hide OneRound, Inv;
    if k == 0 {
      assert ticks[..0] == [] && ticks[0..] == ticks;
    } else {
      RoundKeeps(s, w, ticks[0], 1);
      var r := OneRound(s, w, ticks[0]);
      assert ticks[..k][0] == ticks[0] && ticks[..k][1..] == ticks[1..][..k - 1] && ticks[1..][k - 1..] == ticks[k..];
      if r.ending.None? {
        RunSplit(s, r.next, ticks[1..], k - 1);
        var b := Run(s, r.next, ticks[1..][..k - 1]);
        if b.ending.None? {
          AfterAfter(NapsOf(r), b.naps, Run(s, b.final, ticks[k..]));
        }
      }
    }
  }

  /** A watcher that is still going is non-renewable exactly if it was so or permission was denied on the way. */
  lemma {:induction false} RenewableUntilDenied(s: Settings, w: Watch, ticks: seq<Tick>)
    requires Inv(w) && Run(s, w, ticks).ending.None?
    ensures Run(s, w, ticks).final.nonRenewable == (w.nonRenewable || (s.behavior != RenewDisabled && DeniedIn(ticks)))
    decreases |ticks|
  {
    hide OneRound, Inv;
    if ticks != [] {
      RoundKeeps(s, w, ticks[0], 1);
      FlagsTracked(s, w, ticks[0]);
      DeniedFirst(ticks);
      RenewableUntilDenied(s, OneRound(s, w, ticks[0]).next, ticks[1..]);
    }
  }

  /** Round `k` is reached and attempts a renewal: the watcher is still going after the rounds before, is not stopped, may
      renew, and has not been denied permission. */
  predicate AttemptedAt(s: Settings, w: Watch, ticks: seq<Tick>, k: nat)
    requires Inv(w) && k < |ticks|
  {
    && Run(s, w, ticks[..k]).ending.None? && !ticks[k].stopped
    && !w.nonRenewable && s.behavior != RenewDisabled && !DeniedIn(ticks[..k])
  }

  lemma FatalEnds(s: Settings, w: Watch, ticks: seq<Tick>, k: nat)
    requires Inv(w) && k < |ticks| && AttemptedAt(s, w, ticks, k) && FatalError(s, ticks[k]).Some?
    ensures Run(s, w, ticks).ending == FatalError(s, ticks[k])
  {
    hide OneRound, Inv, FatalError;
    RunSplit(s, w, ticks, k);
    RenewableUntilDenied(s, w, ticks[..k]);
    var f := Run(s, w, ticks[..k]).final;
    RoundError(s, f, ticks[k]);
    assert ticks[k..][0] == ticks[k];
  }

  lemma {:induction false} ErrorFound(s: Settings, w: Watch, ticks: seq<Tick>) returns (k: nat)
    requires Inv(w) && Run(s, w, ticks).ending.Some? && Run(s, w, ticks).ending != Some(Clean)
    ensures k < |ticks| && AttemptedAt(s, w, ticks, k) && FatalError(s, ticks[k]) == Run(s, w, ticks).ending
    decreases |ticks|
  {
    hide OneRound, Inv, FatalError;
    RoundKeeps(s, w, ticks[0], 1);
    RoundError(s, w, ticks[0]);
    var r := OneRound(s, w, ticks[0]);
    if r.ending.Some? {
      k := 0;
      assert ticks[..0] == [];
    } else {
      var j := ErrorFound(s, r.next, ticks[1..]);
      k := j + 1;
      FlagsTracked(s, w, ticks[0]);
      DeniedFirst(ticks[..k]);
      assert ticks[..k][0] == ticks[0] && ticks[..k][1..] == ticks[1..][..j] && ticks[1..][j] == ticks[k];
    }
  }

  /** In every run, for every behaviour: the watcher returns an error exactly when some round is reached that attempts a
      renewal with a fatal answer, and it is that round's error; otherwise it returns cleanly or is still going. */
  lemma ErrorsExact(s: Settings, w: Watch, ticks: seq<Tick>, e: Ending)
    requires Inv(w) && e != Clean
    ensures Run(s, w, ticks).ending == Some(e) <==>
      exists k :: 0 <= k < |ticks| && AttemptedAt(s, w, ticks, k) && FatalError(s, ticks[k]) == Some(e)
  {
    hide OneRound, Inv, FatalError;
    if Run(s, w, ticks).ending == Some(e) {
      var k := ErrorFound(s, w, ticks);
    }
    if k :| 0 <= k < |ticks| && AttemptedAt(s, w, ticks, k) && FatalError(s, ticks[k]) == Some(e) {
      FatalEnds(s, w, ticks, k);
    }
  }

  /** The loop's variables when it starts. */
  function Start(s: Settings, now: int, nonRenewable: bool, lease: int, random: nat): (w: Watch)
    ensures Inv(w) && w.now == w.initialTime == now && w.lease == lease && w.prior == lease * SECOND
    ensures w.nonRenewable == nonRenewable && !w.backingOff
    ensures w.grace == GraceFor(Min(lease * SECOND, s.increment * SECOND), random)
  {
    Watch(now, now, lease * SECOND, lease, nonRenewable, false, GraceFor(Min(lease * SECOND, s.increment * SECOND), random))
  }

  /** The first round on a lease that is not renewed. */
  lemma FirstRound(s: Settings, now: int, nonRenewable: bool, lease: int, random: nat, t: Tick)
    requires lease > 0 && (s.increment <= 0 || s.increment >= lease)
    requires (nonRenewable || s.behavior == RenewDisabled) && !t.stopped && t.wake.Fired?
    ensures var w := Start(s, now, nonRenewable, lease, random);
      var r := OneRound(s, w, t);
      && w.initialTime == w.now == now && w.nonRenewable == nonRenewable && !w.backingOff
      && r.nap.Some? && r.ending.None? && r.next == w.(prior := lease * SECOND, now := now + r.nap.value.duration + t.wake.late)
      && r.nap.value.duration == SleepFor(lease * SECOND, w.grace)
      && lease * SECOND <= 10 * w.grace && 5 * w.grace < lease * SECOND
  {
    hide GraceFor, Start;
    var w := Start(s, now, nonRenewable, lease, random);
    assert Min(lease * SECOND, s.increment * SECOND) == lease * SECOND;
    SleepsIffBeyondFourGraces(lease * SECOND, w.grace);
  }

  lemma LastRound(s: Settings, w: Watch, t: Tick)
    requires Inv(w) && !w.backingOff && (w.nonRenewable || s.behavior == RenewDisabled) && !t.stopped
    requires w.initialTime + w.prior - w.now <= 4 * w.grace
    ensures OneRound(s, w, t) == Round(None, Some(Clean), w.(prior := w.initialTime + w.prior - w.now))
  {
  }

  /** A sleep on a whole lease, given the bounds of its grace period. */
  lemma SleepShare(tenth: int, d: int, grace: int)
    requires d == 10 * tenth && tenth >= 1 && tenth <= grace && 5 * grace < d
    ensures var sleep := SleepFor(d, grace); 7 * d <= 10 * sleep && 1000 * sleep < 734 * d && d - sleep <= 4 * grace
  {
  }

  lemma TwoRounds(s: Settings, w: Watch, ticks: seq<Tick>)
    requires Inv(w) && |ticks| >= 2
    requires var r := OneRound(s, w, ticks[0]);
      r.nap.Some? && r.ending.None? && Inv(r.next) && OneRound(s, r.next, ticks[1]).ending == Some(Clean) &&
      OneRound(s, r.next, ticks[1]).nap.None?
    ensures var r := OneRound(s, w, ticks[0]);
      Run(s, w, ticks) == Trace([r.nap.value], Some(Clean), OneRound(s, r.next, ticks[1]).next)
  {
    hide OneRound, Inv;
    assert ticks[1..][0] == ticks[1];
  }

  /** A positive lease that is not renewed is slept on exactly once, for between 70 and 73.4 per cent of it. */
  lemma OneSleep(s: Settings, now: int, nonRenewable: bool, lease: int, random: nat, ticks: seq<Tick>)
    requires lease > 0 && (s.increment <= 0 || s.increment >= lease)
    requires nonRenewable || s.behavior == RenewDisabled
    requires |ticks| >= 2 && !ticks[0].stopped && !ticks[1].stopped && ticks[0].wake.Fired?
    ensures var r := Run(s, Start(s, now, nonRenewable, lease, random), ticks);
      && |r.naps| == 1 && r.ending == Some(Clean)
      && r.final.now == now + r.naps[0].duration + ticks[0].wake.late
      && 7 * lease * SECOND <= 10 * r.naps[0].duration
      && 1000 * r.naps[0].duration < 734 * lease * SECOND
  {
    hide Start, OneRound, Run, SleepFor, Inv, GraceFor;
    var w := Start(s, now, nonRenewable, lease, random);
    FirstRound(s, now, nonRenewable, lease, random, ticks[0]);
    var first := OneRound(s, w, ticks[0]);
    RoundKeeps(s, w, ticks[0], 1);
    SleepShare(lease * (SECOND / 10), lease * SECOND, w.grace);
    LastRound(s, first.next, ticks[1]);
    TwoRounds(s, w, ticks);
  }

  // ---- The watcher ----

  class Watcher {
    const increment: int
    const behavior: Behavior
    var grace: int

    constructor (increment: int, behavior: Behavior)
      ensures this.increment == increment && this.behavior == behavior
    {
      this.increment, this.behavior := increment, behavior;
      grace := 0;
    }

    method CalculateGrace(lease: int, increment: int, random: nat)
      requires var d := Min(lease, increment); d <= 0 || d >= 10
      modifies `grace
      ensures grace == GraceFor(Min(lease, increment), random)
    {
      var minDuration := lease;
      if minDuration > increment && increment > 0 {
        minDuration := increment;
      }
      if minDuration <= 0 {
        grace := 0;
        return;
      }
      var jitterMax := minDuration / 10;
      grace := jitterMax + random % jitterMax;
    }

    method CalculateSleepDuration(remaining: int, prior: int, random: nat) returns (sleep: int)
      requires remaining > prior ==> var d := Min(remaining, increment * SECOND); d <= 0 || d >= 10
      modifies `grace
      ensures grace == if remaining > prior then GraceFor(Min(remaining, increment * SECOND), random) else old(grace)
      ensures sleep == SleepFor(remaining, grace)
    {
      if remaining > prior {
        CalculateGrace(remaining, increment * SECOND, random);
      }
      sleep := Truncated(2 * remaining + grace, 3);
    }

    /** The first half of a round: renew, unless that cannot or should not be done. */
    method RenewOrReturn(tokenMode: bool, w: Watch, t: Tick) returns (p: Phase)
      ensures p == Renewal(Settings(tokenMode, increment, behavior), w, t)
    {
      if w.nonRenewable || behavior == RenewDisabled {
        return Go(w, w.initialTime + w.prior - w.now, Clean);
      }
      var now, renewal := w.now + t.took, t.answer;
      if renewal.Denied? {
        return Retry(w.(now := now, nonRenewable := true));
      }
      if !renewal.Granted? || (tokenMode && renewal.auth.None?) {
        var err := if renewal.Failed? then RenewError(renewal.error) else Clean;
        if behavior == ErrorOnErrors {
          return Ended(if renewal.Failed? then err else NoSecretData);
        }
        return Go(w.(now := now, backingOff := true), w.initialTime + w.lease * SECOND - now, err);
      }
      var renewable := if tokenMode then renewal.auth.value.renewable else renewal.renewable;
      if !renewable && behavior == ErrorOnErrors {
        return Ended(NotRenewable);
      }
      var lease := if tokenMode then renewal.auth.value.leaseDuration else renewal.leaseDuration;
      return Go(w.(now := now, backingOff := false, initialTime := now, lease := lease), lease * SECOND, Clean);
    }

    /** The second half of a round: settle on a sleep, stop if it would run into the grace period, or sleep. */
    method SleepOrReturn(p: Phase, t: Tick, ghost s: Settings) returns (r: Round)
      requires s.increment == increment && p.Go? && p.w.grace == grace
      requires Extends(p) ==> var d := Min(p.remaining, increment * SECOND); d <= 0 || d >= 10
      modifies `grace
      ensures r == Rest(s, p, t) && grace == r.next.grace
    {
      hide GraceFor, Truncated, Min;
      var w, remaining, sleepDuration := p.w, p.remaining, 0;
      if !w.backingOff {
        sleepDuration := CalculateSleepDuration(remaining, w.prior, t.random);
        w := w.(grace := grace);
      } else {
        if t.backoff.None? {
          return Round(None, Some(p.error), w);
        }
        sleepDuration := t.backoff.value;
      }
      w := w.(prior := remaining);
      if remaining <= grace || remaining - sleepDuration <= grace {
        return Round(None, Some(Clean), w);
      }
      var nap := Nap(w.now, sleepDuration, w.initialTime + w.lease * SECOND, grace);
      if t.wake.Stopped? {
        return Round(Some(nap), Some(Clean), w);
      }
      return Round(Some(nap), None, w.(now := w.now + sleepDuration + t.wake.late));
    }

    /** The loop does what `Run` says of the same script. */
    method RenewLoop(tokenMode: bool, start: Watch, ticks: seq<Tick>) returns (ending: Option<Ending>, naps: seq<Nap>)
      requires Inv(start) && start.grace == grace
      modifies `grace
      ensures var t := Run(Settings(tokenMode, increment, behavior), start, ticks);
        ending == t.ending && naps == t.naps && grace == t.final.grace
    {
      hide Inv, Rest, Renewal, Run, Extends;
      var w := start;
      naps := [];
      ghost var s := Settings(tokenMode, increment, behavior);
      assert ticks[0..] == ticks;
      for i := 0 to |ticks|
        invariant Inv(w) && w.grace == grace && Run(s, start, ticks) == After(naps, Run(s, w, ticks[i..]))
      {
        RunNext(s, w, ticks, i);
        GraceArgument(s, w, ticks[i]);
        RenewalGrace(s, w, ticks[i]);
        if ticks[i].stopped {
          return Some(Clean), naps;
        }
        var p := RenewOrReturn(tokenMode, w, ticks[i]);
        var r := Round(None, None, w);
        match p {
          case Ended(e) =>
            return Some(e), naps;
          case Retry(w') =>
            r := Round(None, None, w');
          case Go(_, _, _) =>
            r := SleepOrReturn(p, ticks[i], s);
        }
        if r.ending.Some? {
          return r.ending, naps + NapsOf(r);
        }
        AfterAfter(naps, NapsOf(r), Run(s, r.next, ticks[i + 1..]));
        naps := naps + NapsOf(r);
        w := r.next;
      }
      assert ticks[|ticks|..] == [];
      RunNothing(s, w);
      ending := None;
    }

    method DoRenewWithOptions(tokenMode: bool, nonRenewable: bool, initLeaseDuration: int, credString: string,
                              start: int, random: nat, ticks: seq<Tick>) returns (ending: Option<Ending>, naps: seq<Nap>)
      modifies `grace
      ensures credString == "" || (nonRenewable && behavior == ErrorOnErrors) ==> ending == Some(NotRenewable) && naps == []
      ensures var s := Settings(tokenMode, increment, behavior);
        var t := Run(s, Start(s, start, nonRenewable, initLeaseDuration, random), ticks);
        credString != "" && !(nonRenewable && behavior == ErrorOnErrors) ==>
          ending == t.ending && naps == t.naps && grace == t.final.grace
    {
      if credString == "" || (nonRenewable && behavior == ErrorOnErrors) {
        return Some(NotRenewable), [];
      }
      CalculateGrace(initLeaseDuration * SECOND, increment * SECOND, random);
      var w := Watch(start, start, initLeaseDuration * SECOND, initLeaseDuration, nonRenewable, false, grace);
      ending, naps := RenewLoop(tokenMode, w, ticks);
    }
  }
}
