/** The notification worker: a bounded queue, a rate limiter with storm alerts, retries and
    shutdown. Model of internal/notify/notifier.go. */
module NotifyWorker {
  import opened Common

  datatype Alert = Alert(ruleId: Str, containerName: Str)

  datatype Stats = Stats(sent: nat, failed: nat, dropped: nat, stormAlerts: nat)

  datatype Config = Config(queueSize: int, limit: int, stormFor: int, retries: seq<int>)

  predicate ValidConfig(c: Config) {
    c.queueSize > 0 && c.limit > 0 && c.stormFor >= 0 && forall i :: 0 <= i < |c.retries| ==> c.retries[i] >= 0
  }

  const SECOND := 1_000_000_000

  const DEFAULT_RETRIES := [SECOND, 2 * SECOND, 5 * SECOND, 10 * SECOND]

  const MINUTE := 60 * SECOND

  const STORM_RULE := Ascii("alert-storm")

  // ------------------------------------------------------------- rate limiter

  datatype Limiter = Limiter(recent: seq<int>, stormAt: int)

  datatype Verdict = Allowed | Dropped | DroppedRaisingStorm

  /** The decision of allow at time now. */
  function AllowStep(c: Config, l: Limiter, alert: Alert, now: int): (r: (Limiter, Verdict)) {
    var recent := AtLeast(l.recent, now - MINUTE);
    if |recent| < c.limit then (Limiter(recent + [now], l.stormAt), Allowed)
    else if alert.ruleId == STORM_RULE || (c.stormFor > 0 && now < l.stormAt + c.stormFor) then (Limiter(recent, l.stormAt), Dropped)
    else (Limiter(recent, now), DroppedRaisingStorm)
  }

  /** The first i of the times are filtered into the first index places; the rest is untouched. */
  ghost predicate Compacted(recent: seq<int>, times: seq<int>, cutoff: int, index: nat, i: nat) {
    && |recent| == |times| && index <= i <= |times|
    && recent[..index] == AtLeast(times[..i], cutoff) && recent[i..] == times[i..]
  }

  lemma CompactNext(recent: seq<int>, times: seq<int>, cutoff: int, index: nat, i: nat)
    requires Compacted(recent, times, cutoff, index, i) && i < |times|
    ensures recent[i] >= cutoff ==> Compacted(recent[index := recent[i]], times, cutoff, index + 1, i + 1)
    ensures recent[i] < cutoff ==> Compacted(recent, times, cutoff, index, i + 1)
  {
    var at := recent[i];
    assert at == recent[i..][0] == times[i] && recent[i + 1..] == recent[i..][1..] == times[i..][1..] == times[i + 1..];
    assert times[..i + 1] == times[..i] + [at];
    AtLeastConcat(times[..i], [at], cutoff);
    assert AtLeast([at], cutoff) == if at >= cutoff then [at] else [];
    var moved := recent[index := at];
    assert moved[..index + 1] == recent[..index] + [at] && moved[i + 1..] == recent[i + 1..];
  }

  function Drop(stats: Stats): Stats { stats.(dropped := stats.dropped + 1) }

  /** Whether a submitted alert finds room. */
  predicate HasRoom(c: Config, queue: seq<Alert>, closed: bool) { !closed && |queue| < c.queueSize }

  /** The part of the worker that its mutex guards. `queueClosed` is the channel itself. */
  class Worker {
    const config: Config
    var queue: seq<Alert>
    var queueClosed: bool
    var closed: bool
    var stats: Stats
    var recent: seq<int>
    var stormAt: int

    ghost predicate Valid() reads this {
      ValidConfig(config) && closed == queueClosed && |queue| <= config.queueSize
    }

    constructor (c: Config)
      requires ValidConfig(c)
      ensures Valid() && config == c && queue == [] && !closed && stats == Stats(0, 0, 0, 0) && recent == [] && stormAt == ZERO_TIME
    {
      config, queue, queueClosed, closed, stats, recent, stormAt := c, [], false, false, Stats(0, 0, 0, 0), [], ZERO_TIME;
    }

    /** A send on the channel, which panics when it is closed. */
    method Send(alert: Alert)
      requires !queueClosed
      modifies this`queue
      ensures queue == old(queue) + [alert]
    {
      queue := queue + [alert];
    }

    /** close(w.queue), which panics when the channel is closed already. */
    method CloseQueue()
      requires !queueClosed
      modifies this`queueClosed
      ensures queueClosed
    {
      queueClosed := true;
    }

    method Submit(alert: Alert) returns (accepted: bool)
      requires Valid()
      modifies this`queue, this`stats
      ensures Valid()
      ensures accepted <==> !closed && |old(queue)| < config.queueSize
      ensures queue == if accepted then old(queue) + [alert] else old(queue)
      ensures stats == if accepted then old(stats) else Drop(old(stats))
    {
      if closed {
        stats := Drop(stats);
        return false;
      }
      if |queue| < config.queueSize {
        Send(alert);
        return true;
      }
      stats := Drop(stats);
      accepted := false;
    }

    /** Close up to where it waits; a second call changes nothing. */
    method BeginClose()
      requires Valid()
      modifies this`closed, this`queueClosed
      ensures Valid() && closed
    {
      if !closed {
        closed := true;
        CloseQueue();
      }
    }

    /** Moves the entries not before cutoff to the front, over the ones being dropped. */
    method Compact(cutoff: int)
      modifies this`recent
      ensures recent == AtLeast(old(recent), cutoff)
    {
      var index := 0;
      var n := |recent|;
      for i := 0 to n
        invariant index <= i && Compacted(recent, old(recent), cutoff, index, i)
      {
        var at := recent[i];
        CompactNext(recent, old(recent), cutoff, index, i);
        if !(at < cutoff) {
          recent := recent[index := at];
          index := index + 1;
        }
      }
      assert old(recent)[..n] == old(recent);
      recent := recent[..index];
    }

    method Allow(alert: Alert, now: int) returns (verdict: Verdict)
      requires Valid()
      modifies this`recent, this`stormAt, this`stats
      ensures Valid()
      ensures (Limiter(recent, stormAt), verdict) == old(AllowStep(config, Limiter(recent, stormAt), alert, now))
      ensures stats == match verdict
                       case Allowed => old(stats)
                       case Dropped => Drop(old(stats))
                       case DroppedRaisingStorm => Drop(old(stats)).(stormAlerts := old(stats).stormAlerts + 1)
    {
      Compact(now - MINUTE);
      if |recent| < config.limit {
        recent := recent + [now];
        return Allowed;
      }
      stats := Drop(stats);
      if alert.ruleId == STORM_RULE || (config.stormFor > 0 && now < stormAt + config.stormFor) {
        return Dropped;
      }
      stormAt := now;
      stats := stats.(stormAlerts := stats.stormAlerts + 1);
      verdict := DroppedRaisingStorm;
    }
  }

  /** NewWorker; null stands for its error. */
  method NewWorker(hasNotifier: bool, c: Config) returns (w: Worker?)
    ensures w == null <==>
              || !hasNotifier || c.queueSize <= 0 || c.limit <= 0 || c.stormFor < 0
              || exists i :: 0 <= i < |c.retries| && c.retries[i] < 0
    ensures w != null ==> fresh(w) && w.Valid() && w.queue == [] && !w.closed
                          && w.config == c.(retries := if c.retries == [] then DEFAULT_RETRIES else c.retries)
  {
    if !hasNotifier || c.queueSize <= 0 || c.limit <= 0 || c.stormFor < 0 {
      return null;
    }
    var retries := if |c.retries| == 0 then DEFAULT_RETRIES else c.retries;
    for i := 0 to |retries|
      invariant forall j :: 0 <= j < i ==> retries[j] >= 0
    {
      if retries[i] < 0 {
        return null;
      }
    }
    w := new Worker(c.(retries := retries));
  }

  // ------------------------------------------------------------- step system

  /** Where the run goroutine is. */
  datatype Runner = Receiving | Received(alert: Alert) | Admitted(alert: Alert) | Sending(alert: Alert) | Draining | Exited

  /** `queueClosed` is the channel itself; `storms` counts storm sends under way; `submits`,
      `accepted`, `settled`, `allowedAt`, `stormsAt` and `clock` are history: how many alerts
      were submitted, which of them got into the queue, which of those the run goroutine is
      done with, when alerts and storms were allowed, and the latest time allow has seen. */
  datatype Sys = Sys(queue: seq<Alert>, queueClosed: bool, closed: bool, cancelled: bool, stats: Stats, limiter: Limiter,
                     runner: Runner, storms: nat, submits: nat, accepted: seq<Alert>, settled: seq<Alert>,
                     allowedAt: seq<int>, stormsAt: seq<int>, clock: int)

  datatype Step =
    | Submit(alert: Alert)
    | CloseCalled
    | CancelContext
    | Receive
    | CheckContext
    | Allow(now: int)
    | SendReturns(ok: bool)
    | StormReturns(ok: bool)
    | QueueDrained
    | AllDone

  function Initial(): Sys {
    Sys([], false, false, false, Stats(0, 0, 0, 0), Limiter([], ZERO_TIME), Receiving, 0, 0, [], [], [], [], ZERO_TIME)
  }

  predicate Enabled(s: Sys, step: Step) {
    match step
    case Submit(_) => true
    case CloseCalled => true
    case CancelContext => s.closed
    case Receive => s.runner.Receiving? && s.queue != []
    case CheckContext => s.runner.Received?
    case Allow(_) => s.runner.Admitted?
    case SendReturns(_) => s.runner.Sending?
    case StormReturns(_) => s.storms > 0
    case QueueDrained => s.runner.Receiving? && s.queue == [] && s.queueClosed
    case AllDone => s.runner.Draining? && s.storms == 0
  }

  function Counted(stats: Stats, ok: bool): Stats {
    if ok then stats.(sent := stats.sent + 1) else stats.(failed := stats.failed + 1)
  }

  /** The run goroutine is done with its alert and goes back to the queue. */
  function Settle(s: Sys, stats: Stats): Sys
    requires s.runner.Received? || s.runner.Admitted? || s.runner.Sending?
  {
    s.(runner := Receiving, settled := s.settled + [s.runner.alert], stats := stats)
  }

  function SubmitAlert(c: Config, s: Sys, alert: Alert): Sys {
    var s1 := s.(submits := s.submits + 1);
    if HasRoom(c, s.queue, s.closed) then s1.(queue := s.queue + [alert], accepted := s.accepted + [alert])
    else s1.(stats := Drop(s.stats))
  }

  function AllowAt(c: Config, s: Sys, now: int): Sys
    requires s.runner.Admitted?
  {
    var (l, verdict) := AllowStep(c, s.limiter, s.runner.alert, now);
    var s1 := s.(limiter := l, clock := now);
    match verdict
    case Allowed => s1.(runner := Sending(s.runner.alert), allowedAt := s.allowedAt + [now])
    case Dropped => Settle(s1, Drop(s.stats))
    case DroppedRaisingStorm =>
      Settle(s1.(storms := s.storms + 1, stormsAt := s.stormsAt + [now]), Drop(s.stats).(stormAlerts := s.stats.stormAlerts + 1))
  }

  function Perform(c: Config, s: Sys, step: Step): Sys
    requires Enabled(s, step)
  {
    match step
    case Submit(alert) => SubmitAlert(c, s, alert)
    case CloseCalled => if s.closed then s else s.(closed := true, queueClosed := true)
    case CancelContext => s.(cancelled := true)
    case Receive => s.(queue := s.queue[1..], runner := Received(s.queue[0]))
    case CheckContext => if s.cancelled then Settle(s, Drop(s.stats)) else s.(runner := Admitted(s.runner.alert))
    case Allow(now) => AllowAt(c, s, now)
    case SendReturns(ok) => Settle(s, Counted(s.stats, ok))
    case StormReturns(ok) => s.(storms := s.storms - 1, stats := Counted(s.stats, ok))
    case QueueDrained => s.(runner := Draining)
    case AllDone => s.(runner := Exited)
  }

  /** Runs; in a steady one the clock never goes back. */
  ghost predicate Reaches(c: Config, s: Sys, run: seq<Step>, s': Sys, steady: bool)
    decreases |run|
  {
    if run == [] then s == s'
    else
      && Enabled(s, run[0]) && (steady && run[0].Allow? ==> s.clock <= run[0].now)
      && Reaches(c, Perform(c, s, run[0]), run[1..], s', steady)
  }

  // ---------------------------------------------------------------- accounting

  function InFlight(r: Runner): (alerts: seq<Alert>)
    ensures |alerts| <= 1
  {
    if r.Received? || r.Admitted? || r.Sending? then [r.alert] else []
  }

  predicate Conserved(s: Sys) {
    s.submits + s.stats.stormAlerts == s.stats.sent + s.stats.failed + s.stats.dropped + |s.queue| + |InFlight(s.runner)| + s.storms
  }

  /** The queue is first in, first out: what was accepted is what is settled, then what is
      being handled, then what still waits, in this order. */
  predicate FirstInFirstOut(accepted: seq<Alert>, settled: seq<Alert>, inFlight: seq<Alert>, queue: seq<Alert>) {
    accepted == settled + inFlight + queue
  }

  predicate InOrder(s: Sys) { FirstInFirstOut(s.accepted, s.settled, InFlight(s.runner), s.queue) }

  predicate AccountInv(c: Config, s: Sys) {
    && Conserved(s)
    && s.closed == s.queueClosed && |s.queue| <= c.queueSize
    && (s.runner.Draining? || s.runner.Exited? ==> s.queue == [] && s.closed)
    && (s.runner.Exited? ==> s.storms == 0)
    && (s.cancelled ==> s.closed)
  }

  /** The step would send on the closed channel, or close it twice; either panics. */
  predicate Panics(c: Config, s: Sys, step: Step) {
    match step
    case Submit(_) => HasRoom(c, s.queue, s.closed) && s.queueClosed
    case CloseCalled => !s.closed && s.queueClosed
    case _ => false
  }

  lemma AllowKeepsAccounts(c: Config, s: Sys, now: int)
    requires AccountInv(c, s) && s.runner.Admitted?
    ensures AccountInv(c, AllowAt(c, s, now))
  {
  }

  lemma StepKeepsAccounts(c: Config, s: Sys, step: Step)
    requires AccountInv(c, s) && Enabled(s, step)
    ensures AccountInv(c, Perform(c, s, step))
  {
    match step
    case Allow(now) => AllowKeepsAccounts(c, s, now);
    case _ =>
  }

  /** The three ways in which alerts move along. */
  lemma AlertsMoveInOrder(accepted: seq<Alert>, settled: seq<Alert>, inFlight: seq<Alert>, queue: seq<Alert>, alert: Alert)
    requires FirstInFirstOut(accepted, settled, inFlight, queue)
    ensures FirstInFirstOut(accepted + [alert], settled, inFlight, queue + [alert])
    ensures |inFlight| == 1 ==> FirstInFirstOut(accepted, settled + [inFlight[0]], [], queue)
    ensures inFlight == [] && queue != [] ==> FirstInFirstOut(accepted, settled, [queue[0]], queue[1..])
  {
    Reassociate(settled + inFlight, queue, [alert]);
    if |inFlight| == 1 {
      assert inFlight == [inFlight[0]] && settled + [inFlight[0]] + [] == settled + inFlight;
    } else if queue != [] {
      assert queue == [queue[0]] + queue[1..];
      Reassociate(settled, [queue[0]], queue[1..]);
      assert inFlight == [] ==> settled + inFlight == settled;
    }
  }

  lemma StepKeepsOrder(c: Config, s: Sys, step: Step)
    requires InOrder(s) && Enabled(s, step)
    ensures InOrder(Perform(c, s, step))
  {
    var alert := if step.Submit? then step.alert else Alert([], []);
    AlertsMoveInOrder(s.accepted, s.settled, InFlight(s.runner), s.queue, alert);
  }

  lemma {:induction false} RunKeepsAccounts(c: Config, s: Sys, run: seq<Step>, s': Sys, steady: bool)
    requires AccountInv(c, s) && InOrder(s) && Reaches(c, s, run, s', steady)
    ensures AccountInv(c, s') && InOrder(s')
    decreases |run|
  {
    if run != [] {
      StepKeepsAccounts(c, s, run[0]);
      StepKeepsOrder(c, s, run[0]);
      RunKeepsAccounts(c, Perform(c, s, run[0]), run[1..], s', steady);
    }
  }

  /** In every interleaving each submitted alert and each storm alert is accounted for exactly
      once, accepted alerts are handled one by one in the order of their submission, and no
      step ever sends on the closed queue or closes it again; when Close has returned nothing
      is left in between. Callers are never kept waiting. */
  lemma AlertsAreConserved(c: Config, run: seq<Step>, s: Sys)
    requires ValidConfig(c) && Reaches(c, Initial(), run, s, false)
    ensures Conserved(s) && InOrder(s) && |s.queue| <= c.queueSize
    ensures s.runner.Exited? ==>
              s.submits + s.stats.stormAlerts == s.stats.sent + s.stats.failed + s.stats.dropped && s.settled == s.accepted
    ensures forall step :: Enabled(s, step) ==> !Panics(c, s, step)
    ensures Enabled(s, CloseCalled) && forall alert :: Enabled(s, Step.Submit(alert))
  {
    RunKeepsAccounts(c, Initial(), run, s, false);
  }

  /** How many sends of the run, storms included, ended with this outcome. */
  function Outcomes(run: seq<Step>, ok: bool): (n: nat) {
    if run == [] then 0
    else Outcomes(run[1..], ok) + (if run[0] == SendReturns(ok) || run[0] == StormReturns(ok) then 1 else 0)
  }

  lemma StepCounts(c: Config, s: Sys, step: Step)
    requires Enabled(s, step)
    ensures var t, t' := s.stats, Perform(c, s, step).stats;
            && t'.sent == t.sent + (if step == SendReturns(true) || step == StormReturns(true) then 1 else 0)
            && t'.failed == t.failed + (if step == SendReturns(false) || step == StormReturns(false) then 1 else 0)
            && t'.stormAlerts - t.stormAlerts == |Perform(c, s, step).stormsAt| - |s.stormsAt|
  {
  }

  /** The counters of sent and failed alerts are the outcomes of the sends, and the storm
      counter is the number of storms raised. */
  lemma {:induction false} StatsCountOutcomes(c: Config, s: Sys, run: seq<Step>, s': Sys, steady: bool)
    requires Reaches(c, s, run, s', steady)
    ensures s'.stats.sent == s.stats.sent + Outcomes(run, true)
    ensures s'.stats.failed == s.stats.failed + Outcomes(run, false)
    ensures s'.stats.stormAlerts - s.stats.stormAlerts == |s'.stormsAt| - |s.stormsAt|
    decreases |run|
  {
    if run != [] {
      StepCounts(c, s, run[0]);
      StatsCountOutcomes(c, Perform(c, s, run[0]), run[1..], s', steady);
    }
  }

  /** How many steps of the worker and of storm sends can still follow, once closed. */
  function Remaining(s: Sys): (n: nat) {
    4 * |s.queue| + s.storms + match s.runner
                               case Receiving => 2
                               case Received(_) => 5
                               case Admitted(_) => 4
                               case Sending(_) => 3
                               case Draining => 1
                               case Exited => 0
  }

  predicate IsWorkerStep(step: Step) { !step.Submit? && !step.CloseCalled? && !step.CancelContext? }

  /** Close terminates: after it was called the worker is never stuck before it exits, each
      of its steps brings the exit closer, and callers cannot push it away again. */
  lemma CloseTerminates(c: Config, run: seq<Step>, s: Sys, step: Step)
    requires ValidConfig(c) && Reaches(c, Initial(), run, s, false) && s.closed && Enabled(s, step)
    ensures !s.runner.Exited? ==> exists next :: IsWorkerStep(next) && Enabled(s, next)
    ensures Remaining(Perform(c, s, step)) <= Remaining(s)
    ensures IsWorkerStep(step) ==> Remaining(Perform(c, s, step)) < Remaining(s)
  {
    RunKeepsAccounts(c, Initial(), run, s, false);
    var next := match s.runner
                case Receiving => if s.queue == [] then QueueDrained else Receive
                case Received(_) => CheckContext
                case Admitted(_) => Step.Allow(s.clock)
                case Sending(_) => SendReturns(true)
                case _ => if s.storms > 0 then StormReturns(true) else AllDone;
    assert !s.runner.Exited? ==> IsWorkerStep(next) && Enabled(s, next);
  }

  // ------------------------------------------------------------------- rates

  /** How many of the times lie in the closed minute that starts at t. */
  function InMinute(s: seq<int>, t: int): (n: nat) {
    if s == [] then 0 else InMinute(s[..|s| - 1], t) + (if t <= s[|s| - 1] <= t + MINUTE then 1 else 0)
  }

  lemma {:induction false} InMinuteAtMostLater(s: seq<int>, t: int, bound: int)
    requires bound <= t
    ensures InMinute(s, t) <= |AtLeast(s, bound)|
  {
    if s != [] {
      var n := |s| - 1;
      InMinuteAtMostLater(s[..n], t, bound);
      assert s == s[..n] + [s[n]];
      AtLeastConcat(s[..n], [s[n]], bound);
    }
  }

  ghost predicate RateBounded(times: seq<int>, limit: int) {
    forall t :: InMinute(times, t) <= limit
  }

  ghost predicate Spaced(times: seq<int>, gap: int) {
    forall i :: 0 <= i < |times| - 1 ==> times[i + 1] - times[i] >= gap
  }

  predicate NoneLater(times: seq<int>, t: int) { forall i :: 0 <= i < |times| ==> times[i] <= t }

  ghost predicate RateInv(c: Config, limiter: Limiter, clock: int, allowedAt: seq<int>, stormsAt: seq<int>) {
    && RateBounded(allowedAt, c.limit) && Spaced(stormsAt, c.stormFor)
    && limiter.recent == AtLeast(allowedAt, clock - MINUTE) && NoneLater(allowedAt, clock)
    && (if stormsAt == [] then limiter.stormAt == ZERO_TIME else limiter.stormAt == stormsAt[|stormsAt| - 1] <= clock)
  }

  /** An alert allowed at `now` keeps every minute within the limit, because the minute that
      ends at `now` had room for it. */
  lemma AllowedFits(times: seq<int>, limit: int, now: int)
    requires RateBounded(times, limit) && |AtLeast(times, now - MINUTE)| < limit
    ensures RateBounded(times + [now], limit)
  {
    forall t ensures InMinute(times + [now], t) <= limit {
      assert (times + [now])[..|times|] == times;
      if t <= now <= t + MINUTE {
        InMinuteAtMostLater(times, t, now - MINUTE);
      }
    }
  }

  lemma SpacedAppend(times: seq<int>, gap: int, t: int)
    requires Spaced(times, gap) && (times != [] ==> t - times[|times| - 1] >= gap)
    ensures Spaced(times + [t], gap)
  {
  }

  /** What the limiter remembers is the last minute of the history. */
  lemma Remembered(times: seq<int>, clock: int, now: int)
    requires clock <= now
    ensures AtLeast(AtLeast(times, clock - MINUTE), now - MINUTE) == AtLeast(times, now - MINUTE)
    ensures AtLeast(times + [now], now - MINUTE) == AtLeast(times, now - MINUTE) + [now]
  {
    AtLeastTwice(times, clock - MINUTE, now - MINUTE);
    AtLeastConcat(times, [now], now - MINUTE);
  }

  ghost predicate SysRateInv(c: Config, s: Sys) { RateInv(c, s.limiter, s.clock, s.allowedAt, s.stormsAt) }

  /** The limiter's memory moves on to `now`, with the alert of now if it is allowed. */
  lemma AllowedKeepsRate(c: Config, l: Limiter, clock: int, allowedAt: seq<int>, stormsAt: seq<int>, now: int)
    requires RateInv(c, l, clock, allowedAt, stormsAt) && clock <= now && |AtLeast(l.recent, now - MINUTE)| < c.limit
    ensures RateInv(c, Limiter(AtLeast(l.recent, now - MINUTE) + [now], l.stormAt), now, allowedAt + [now], stormsAt)
  {
    Remembered(allowedAt, clock, now);
    AllowedFits(allowedAt, c.limit, now);
  }

  lemma RefusedKeepsRate(c: Config, l: Limiter, clock: int, allowedAt: seq<int>, stormsAt: seq<int>, now: int)
    requires RateInv(c, l, clock, allowedAt, stormsAt) && clock <= now
    ensures RateInv(c, Limiter(AtLeast(l.recent, now - MINUTE), l.stormAt), now, allowedAt, stormsAt)
    ensures (stormsAt != [] ==> now - l.stormAt >= c.stormFor) ==>
              RateInv(c, Limiter(AtLeast(l.recent, now - MINUTE), now), now, allowedAt, stormsAt + [now])
  {
    Remembered(allowedAt, clock, now);
    if stormsAt != [] ==> now - l.stormAt >= c.stormFor {
      SpacedAppend(stormsAt, c.stormFor, now);
    }
  }

  lemma AllowKeepsRate(c: Config, s: Sys, now: int)
    requires SysRateInv(c, s) && s.runner.Admitted? && s.clock <= now && c.stormFor >= 0
    ensures SysRateInv(c, AllowAt(c, s, now))
  {
    if AllowStep(c, s.limiter, s.runner.alert, now).1 == Allowed {
      AllowedKeepsRate(c, s.limiter, s.clock, s.allowedAt, s.stormsAt, now);
    } else {
      RefusedKeepsRate(c, s.limiter, s.clock, s.allowedAt, s.stormsAt, now);
    }
  }

  lemma OnlyAllowTouchesRate(c: Config, s: Sys, step: Step)
    requires Enabled(s, step) && !step.Allow?
    ensures var s' := Perform(c, s, step);
            s'.limiter == s.limiter && s'.clock == s.clock && s'.allowedAt == s.allowedAt && s'.stormsAt == s.stormsAt
  {
  }

  lemma {:induction false} RunKeepsRate(c: Config, s: Sys, run: seq<Step>, s': Sys)
    requires SysRateInv(c, s) && c.stormFor >= 0 && Reaches(c, s, run, s', true)
    ensures SysRateInv(c, s')
    decreases |run|
  {
    if run != [] {
      if run[0].Allow? {
        AllowKeepsRate(c, s, run[0].now);
      } else {
        OnlyAllowTouchesRate(c, s, run[0]);
      }
      RunKeepsRate(c, Perform(c, s, run[0]), run[1..], s');
    }
  }

  /** With a clock that never goes back, every closed interval of one minute, wherever it
      starts, contains at most `limit` allowed alerts, and consecutive storm alerts are at
      least the storm cooldown apart. */
  lemma RateIsBounded(c: Config, run: seq<Step>, s: Sys)
    requires ValidConfig(c) && Reaches(c, Initial(), run, s, true)
    ensures RateBounded(s.allowedAt, c.limit) && Spaced(s.stormsAt, c.stormFor)
  {
    RunKeepsRate(c, Initial(), run, s);
  }

  lemma {:induction false} LastMinute(times: seq<int>, now: int)
    requires NoneLater(times, now)
    ensures InMinute(times, now - MINUTE) == |AtLeast(times, now - MINUTE)|
  {
    if times != [] {
      var n := |times| - 1;
      LastMinute(times[..n], now);
      assert times == times[..n] + [times[n]];
      AtLeastConcat(times[..n], [times[n]], now - MINUTE);
    }
  }

  function LastStorm(s: Sys): int { if s.stormsAt == [] then ZERO_TIME else s.stormsAt[|s.stormsAt| - 1] }

  /** The limiter refuses no more than it must: at any moment of any run an alert is allowed
      exactly when the minute that ends now has room for it, and a refused alert that is not
      a storm itself raises one exactly when the storm cooldown is zero or at least that long
      ago the last storm was raised, or the zero time was if there was none yet. */
  lemma DecisionIff(c: Config, run: seq<Step>, s: Sys, now: int)
    requires ValidConfig(c) && Reaches(c, Initial(), run, s, true) && s.runner.Admitted? && s.clock <= now
    ensures var verdict := AllowStep(c, s.limiter, s.runner.alert, now).1;
            && (verdict == Allowed <==> InMinute(s.allowedAt, now - MINUTE) < c.limit)
            && (verdict != Allowed && s.runner.alert.ruleId != STORM_RULE ==>
                  (verdict == DroppedRaisingStorm <==> c.stormFor == 0 || now - LastStorm(s) >= c.stormFor))
            && (s.runner.alert.ruleId == STORM_RULE ==> verdict != DroppedRaisingStorm)
  {
    RunKeepsRate(c, Initial(), run, s);
    Remembered(s.allowedAt, s.clock, now);
    LastMinute(s.allowedAt, now);
  }

  /** So an admitted alert goes on to be sent exactly when there is room for it. */
  lemma SentIffRoom(c: Config, run: seq<Step>, s: Sys, now: int)
    requires ValidConfig(c) && Reaches(c, Initial(), run, s, true) && s.runner.Admitted? && s.clock <= now
    ensures var s' := Perform(c, s, Step.Allow(now));
            && (InMinute(s.allowedAt, now - MINUTE) < c.limit ==>
                  s'.runner == Sending(s.runner.alert) && s'.allowedAt == s.allowedAt + [now])
            && (InMinute(s.allowedAt, now - MINUTE) >= c.limit ==> s'.runner.Receiving? && s'.allowedAt == s.allowedAt)
  {
    DecisionIff(c, run, s, now);
  }

  // ----------------------------------------------------------------- retries

  /** One channel. accepts(i) and sleeps(i) are the outcomes of its i-th call and of the pause
      after it. A channel that has accepted is not called again; a failure means that the
      retries ran out or that the context ended during a pause. */
  method NotifyWithRetries(accepts: nat -> bool, sleeps: nat -> bool, retries: nat) returns (ok: bool, calls: nat)
    ensures 1 <= calls <= retries + 1
    ensures ok == accepts(calls - 1)
    ensures forall i :: 0 <= i < calls - 1 ==> !accepts(i) && sleeps(i)
    ensures !ok ==> calls == retries + 1 || !sleeps(calls - 1)
  {
    var attempt := 0;
    while true
      invariant 0 <= attempt <= retries
      invariant forall i :: 0 <= i < attempt ==> !accepts(i) && sleeps(i)
      decreases retries - attempt
    {
      if accepts(attempt) {
        return true, attempt + 1;
      }
      if attempt == retries {
        return false, attempt + 1;
      }
      if !sleeps(attempt) {
        return false, attempt + 1;
      }
      attempt := attempt + 1;
    }
  }

  /** The channel was called until it accepted, its retries ran out or a pause was cut short. */
  ghost predicate Tried(accepts: nat -> bool, sleeps: nat -> bool, retries: nat, calls: nat) {
    && 1 <= calls <= retries + 1
    && (forall i :: 0 <= i < calls - 1 ==> !accepts(i) && sleeps(i))
    && (accepts(calls - 1) || calls == retries + 1 || !sleeps(calls - 1))
  }

  /** All channels, each retried on its own; success only if every one accepted. */
  method NotifyAll(accepts: seq<nat -> bool>, sleeps: seq<nat -> bool>, retries: nat) returns (ok: bool, calls: seq<nat>)
    requires |sleeps| == |accepts|
    ensures |calls| == |accepts| && forall k :: 0 <= k < |calls| ==> Tried(accepts[k], sleeps[k], retries, calls[k])
    ensures ok <==> forall k :: 0 <= k < |calls| ==> calls[k] > 0 && accepts[k](calls[k] - 1)
  {
    ok, calls := true, [];
    for k := 0 to |accepts|
      invariant |calls| == k && forall j :: 0 <= j < k ==> Tried(accepts[j], sleeps[j], retries, calls[j])
      invariant ok <==> forall j :: 0 <= j < k ==> calls[j] > 0 && accepts[j](calls[j] - 1)
    {
      var delivered, n := NotifyWithRetries(accepts[k], sleeps[k], retries);
      calls := calls + [n];
      ok := ok && delivered;
    }
  }
}
