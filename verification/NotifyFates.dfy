/** What became of every alert given to the notification worker, told from the steps of a run:
    an alert is dropped because it was refused on submission, because its turn came after the
    context was cancelled, or because the rate limiter had no room, and for no other reason. */
module NotifyFates {
  import opened Common
  import opened NotifyWorker

  /** How the run goroutine got done with an alert. */
  datatype Fate = Late | Limited | Delivered(ok: bool)

  /** `cancelled` says whether the context has been cancelled before the step. */
  function FateAt(c: Config, s: Sys, step: Step, cancelled: bool): (fates: seq<Fate>) {
    match step
    case CheckContext => if cancelled then [Late] else []
    case Allow(now) => if |AtLeast(s.limiter.recent, now - MINUTE)| < c.limit then [] else [Limited]
    case SendReturns(ok) => [Delivered(ok)]
    case _ => []
  }

  /** The fates of the alerts that the run goroutine gets done with, in order. */
  function Fates(c: Config, s: Sys, run: seq<Step>, cancelled: bool): (fates: seq<Fate>)
    decreases |run|
  {
    if run == [] || !Enabled(s, run[0]) then []
    else FateAt(c, s, run[0], cancelled) + Fates(c, Perform(c, s, run[0]), run[1..], cancelled || run[0].CancelContext?)
  }

  /** The alerts refused on submission: after Close was called, or when the queue is full. */
  function Refusals(c: Config, s: Sys, run: seq<Step>, closing: bool): (n: nat)
    decreases |run|
  {
    if run == [] || !Enabled(s, run[0]) then 0
    else
      (if run[0].Submit? && (closing || |s.queue| >= c.queueSize) then 1 else 0)
      + Refusals(c, Perform(c, s, run[0]), run[1..], closing || run[0].CloseCalled?)
  }

  function Submissions(run: seq<Step>): (n: nat) {
    if run == [] then 0 else (if run[0].Submit? then 1 else 0) + Submissions(run[1..])
  }

  function Attempts(r: Runner): (n: nat) { if r.Sending? then 1 else 0 }

  /** One step's share of the accounts. */
  ghost predicate Counted(c: Config, s: Sys, step: Step, s': Sys) {
    var fates := FateAt(c, s, step, s.cancelled);
    var m, refused := multiset(fates), if step.Submit? && (s.closed || |s.queue| >= c.queueSize) then 1 else 0;
    && s'.stats.dropped == s.stats.dropped + refused + m[Late] + m[Limited]
    && |s'.settled| == |s.settled| + |fates|
    && |s'.accepted| + refused == |s.accepted| + (if step.Submit? then 1 else 0)
    && |s'.allowedAt| + Attempts(s.runner) == |s.allowedAt| + Attempts(s'.runner) + m[Delivered(true)] + m[Delivered(false)]
    && (s'.cancelled <==> s.cancelled || step.CancelContext?) && (s'.closed <==> s.closed || step.CloseCalled?)
  }

  lemma RoomDecides(c: Config, s: Sys, now: int)
    requires s.runner.Admitted?
    ensures var s', room := AllowAt(c, s, now), |AtLeast(s.limiter.recent, now - MINUTE)| < c.limit;
            && s'.accepted == s.accepted && s'.cancelled == s.cancelled && s'.closed == s.closed
            && s'.stats.dropped == s.stats.dropped + (if room then 0 else 1)
            && |s'.settled| == |s.settled| + (if room then 0 else 1)
            && |s'.allowedAt| == |s.allowedAt| + (if room then 1 else 0) && (s'.runner.Sending? <==> room)
  {
  }

  lemma AllowIsCounted(c: Config, s: Sys, now: int)
    requires s.runner.Admitted?
    ensures Counted(c, s, Step.Allow(now), AllowAt(c, s, now))
  {
    RoomDecides(c, s, now);
  }

  lemma SubmitIsCounted(c: Config, s: Sys, alert: Alert)
    ensures Counted(c, s, Step.Submit(alert), SubmitAlert(c, s, alert))
  {
  }

  lemma CheckIsCounted(c: Config, s: Sys)
    requires s.runner.Received?
    ensures Counted(c, s, CheckContext, if s.cancelled then Settle(s, Drop(s.stats)) else s.(runner := Admitted(s.runner.alert)))
  {
  }

  lemma SendIsCounted(c: Config, s: Sys, ok: bool)
    requires s.runner.Sending?
    ensures Counted(c, s, SendReturns(ok), Settle(s, NotifyWorker.Counted(s.stats, ok)))
  {
  }

  /** Any other step settles no alert. */
  lemma OtherIsCounted(c: Config, s: Sys, step: Step, s': Sys)
    requires !step.Submit? && !step.Allow? && !step.CheckContext? && !step.SendReturns?
    requires s'.stats.dropped == s.stats.dropped && s'.settled == s.settled && s'.accepted == s.accepted
    requires s'.allowedAt == s.allowedAt && !s.runner.Sending? == !s'.runner.Sending?
    requires (s'.cancelled <==> s.cancelled || step.CancelContext?) && (s'.closed <==> s.closed || step.CloseCalled?)
    ensures Counted(c, s, step, s')
  {
  }

  lemma StepIsCounted(c: Config, s: Sys, step: Step)
    requires Enabled(s, step)
    ensures Counted(c, s, step, Perform(c, s, step))
  {
    match step
    case Submit(alert) => SubmitIsCounted(c, s, alert);
    case Allow(now) => AllowIsCounted(c, s, now);
    case CheckContext => CheckIsCounted(c, s);
    case SendReturns(ok) => SendIsCounted(c, s, ok);
    case _ => OtherIsCounted(c, s, step, Perform(c, s, step));
  }

  lemma {:induction false} RunIsCounted(c: Config, s: Sys, run: seq<Step>, s': Sys, steady: bool)
    requires Reaches(c, s, run, s', steady)
    ensures var fates, refused := Fates(c, s, run, s.cancelled), Refusals(c, s, run, s.closed);
            var m := multiset(fates);
            && s'.stats.dropped == s.stats.dropped + refused + m[Late] + m[Limited]
            && |s'.settled| == |s.settled| + |fates|
            && |s'.accepted| + refused == |s.accepted| + Submissions(run)
            && |s'.allowedAt| + Attempts(s.runner) == |s.allowedAt| + Attempts(s'.runner) + m[Delivered(true)] + m[Delivered(false)]
    decreases |run|
  {
    if run != [] {
      StepIsCounted(c, s, run[0]);
      RunIsCounted(c, Perform(c, s, run[0]), run[1..], s', steady);
    }
  }

  lemma {:induction false} NoneIsLate(c: Config, s: Sys, run: seq<Step>, cancelled: bool)
    requires !cancelled && CancelContext !in run
    ensures Late !in Fates(c, s, run, cancelled)
    decreases |run|
  {
    if run != [] && Enabled(s, run[0]) {
      assert run[0] in run;
      NoneIsLate(c, Perform(c, s, run[0]), run[1..], cancelled);
    }
  }

  lemma {:induction false} FateKinds(fates: seq<Fate>)
    ensures var m := multiset(fates); |fates| == m[Late] + m[Limited] + m[Delivered(true)] + m[Delivered(false)]
  {
    if fates != [] {
      FateKinds(fates[1..]);
      assert fates[0].Delivered? ==> fates[0] == Delivered(true) || fates[0] == Delivered(false);
      assert fates == [fates[0]] + fates[1..];
    }
  }

  /** In every interleaving: each alert that the run goroutine is done with has one fate; the
      dropped alerts are the refused, the late and the limited ones; a submitted alert is
      refused or accepted; and each allowed alert is delivered or being sent. Without a
      cancelled context none is late. So once the worker has exited, every accepted alert was
      delivered, limited or, if the context was cancelled, late. */
  lemma EveryAlertHasAFate(c: Config, run: seq<Step>, s: Sys)
    requires ValidConfig(c) && Reaches(c, Initial(), run, s, false)
    ensures var fates, refused := Fates(c, Initial(), run, false), Refusals(c, Initial(), run, false);
            var m := multiset(fates);
            && |fates| == |s.settled| && s.stats.dropped == refused + m[Late] + m[Limited]
            && Submissions(run) == refused + |s.accepted|
            && |s.allowedAt| == m[Delivered(true)] + m[Delivered(false)] + Attempts(s.runner)
            && (CancelContext !in run ==> m[Late] == 0)
            && (s.runner.Exited? ==> |s.accepted| == m[Late] + m[Limited] + |s.allowedAt|)
  {
    RunIsCounted(c, Initial(), run, s, false);
    AlertsAreConserved(c, run, s);
    FateKinds(Fates(c, Initial(), run, false));
    if CancelContext !in run {
      NoneIsLate(c, Initial(), run, false);
    }
  }
}
