/** What callers of Record see: the alerting guarantees, stated of the results that a run of the
    aggregator has returned for a group since it was created. */
module AggregateResults {
  import opened Common
  import opened Aggregate
  import opened AggregateHistory

  /** The results returned for the group of fp since it was created, in order; none if there is
      no such group. */
  ghost function Results(c: Limits, ops: seq<Op>, fp: Str): (rs: seq<Result>) {
    if ops == [] then []
    else
      var init, op := ops[..|ops| - 1], ops[|ops| - 1];
      var groups := Run(c, init).groups;
      match op
      case Query(now) => if fp in Unexpired(groups, now, c.ttl) then Results(c, init, fp) else []
      case Record(e, now) =>
        if !Acceptable(e) then Results(c, init, fp)
        else
          var (groups', result) := RecordStep(groups, e, c.maxGroups, c.ttl, c.maxSamples, now);
          if e.fingerprint == fp then (if fp in Unexpired(groups, now, c.ttl) then Results(c, init, fp) else []) + [result]
          else if fp in groups' then Results(c, init, fp)
          else []
  }

  /** The i-th result is the one that the first i + 1 events determine. */
  ghost predicate AreNaive(rs: seq<Result>, fp: Str, h: History, rule: Rule, maxSamples: int) {
    |rs| == |h| && forall i :: 0 <= i < |rs| ==> rs[i] == NaiveResult(fp, h[..i + 1], rule, maxSamples)
  }

  lemma OneMoreResult(rs: seq<Result>, result: Result, fp: Str, h: History, e: Seen, rule: Rule, maxSamples: int)
    requires AreNaive(rs, fp, h, rule, maxSamples) && result == NaiveResult(fp, h + [e], rule, maxSamples)
    ensures AreNaive(rs + [result], fp, h + [e], rule, maxSamples)
  {
    var all, h' := rs + [result], h + [e];
    forall i | 0 <= i < |all| ensures all[i] == NaiveResult(fp, h'[..i + 1], rule, maxSamples) {
      if i < |rs| {
        assert h'[..i + 1] == h[..i + 1];
      } else {
        assert h'[..i + 1] == h';
      }
    }
  }

  /** The results match the group's own history, if there is a group. */
  ghost predicate ResultsMatch(c: Limits, ruleOf: Str -> Rule, t: Tracked, rs: seq<Result>, fp: Str) {
    if fp in t.groups && fp in t.seen then AreNaive(rs, fp, t.seen[fp], ruleOf(fp), c.maxSamples) else rs == []
  }

  lemma QueryResults(c: Limits, ruleOf: Str -> Rule, init: seq<Op>, now: int, fp: Str)
    requires RunInv(c, ruleOf, Run(c, init)) && ResultsMatch(c, ruleOf, Run(c, init), Results(c, init, fp), fp)
    ensures ResultsMatch(c, ruleOf, Apply(c, Run(c, init), Query(now)),
                         if fp in Unexpired(Run(c, init).groups, now, c.ttl) then Results(c, init, fp) else [], fp)
  {
  }

  lemma OtherResults(c: Limits, ruleOf: Str -> Rule, t: Tracked, rs: seq<Result>, e: Event, now: int, fp: Str)
    requires ValidLimits(c) && RunInv(c, ruleOf, t) && Acceptable(e) && fp != e.fingerprint && ResultsMatch(c, ruleOf, t, rs, fp)
    ensures var t' := Apply(c, t, Record(e, now)); ResultsMatch(c, ruleOf, t', if fp in t'.groups then rs else [], fp)
  {
    ApplyShape(c, t, e, now);
  }

  lemma OwnResults(c: Limits, ruleOf: Str -> Rule, t: Tracked, rs: seq<Result>, e: Event, now: int)
    requires ValidLimits(c) && RunInv(c, ruleOf, t) && Orderly(ruleOf, Record(e, now)) && Acceptable(e)
    requires ResultsMatch(c, ruleOf, t, rs, e.fingerprint)
    ensures var fp := e.fingerprint;
            var result := RecordStep(t.groups, e, c.maxGroups, c.ttl, c.maxSamples, now).1;
            var kept := if fp in Unexpired(t.groups, now, c.ttl) then rs else [];
            ResultsMatch(c, ruleOf, Apply(c, t, Record(e, now)), kept + [result], fp)
  {
    var fp := e.fingerprint;
    var before := Before(c, t, fp, now);
    var kept := if fp in Unexpired(t.groups, now, c.ttl) then rs else [];
    ApplyShape(c, t, e, now);
    OwnGroupMatches(c, t, e, now);
    assert AreNaive(kept, fp, before, e.rule, c.maxSamples);
    OneMoreResult(kept, RecordStep(t.groups, e, c.maxGroups, c.ttl, c.maxSamples, now).1, fp, before,
                  Seen(EventTime(e, now), SampleOf(e.raw, e.message)), e.rule, c.maxSamples);
  }

  /** Over every run the results returned for a group are, one by one, the naive ones of the
      events of its own fingerprint since it was created. */
  lemma {:induction false} ResultsAreNaive(c: Limits, ruleOf: Str -> Rule, ops: seq<Op>, fp: Str)
    requires ValidLimits(c) && forall i :: 0 <= i < |ops| ==> Orderly(ruleOf, ops[i])
    ensures RunInv(c, ruleOf, Run(c, ops)) && ResultsMatch(c, ruleOf, Run(c, ops), Results(c, ops, fp), fp)
  {
    RunMatchesHistory(c, ruleOf, ops);
    if ops != [] {
      var init, op := ops[..|ops| - 1], ops[|ops| - 1];
      var t, rs := Run(c, init), Results(c, init, fp);
      ResultsAreNaive(c, ruleOf, init, fp);
      match op
      case Query(now) => QueryResults(c, ruleOf, init, now, fp);
      case Record(e, now) =>
        if !Acceptable(e) {
          RejectedChangesNothing(c, t, e, now);
        } else if e.fingerprint == fp {
          OwnResults(c, ruleOf, t, rs, e, now);
        } else {
          OtherResults(c, ruleOf, t, rs, e, now, fp);
        }
    }
  }

  // ----------------------------------------------- guarantees about such results

  predicate NoAlert(rs: seq<Result>) { forall i :: 0 <= i < |rs| ==> !rs[i].alert }

  /** The event times of the alerting results. */
  function AlertTimesOf(rs: seq<Result>): (times: seq<int>) {
    if rs == [] then []
    else
      var r := rs[|rs| - 1];
      AlertTimesOf(rs[..|rs| - 1]) + (if r.alert then [r.state.lastAlertAt] else [])
  }

  /** The suppressed events that the alerts reported, in sum. */
  function ReportedBy(rs: seq<Result>): (n: nat) {
    if rs == [] then 0 else ReportedBy(rs[..|rs| - 1]) + rs[|rs| - 1].suppressedCount
  }

  function Suppressions(rs: seq<Result>): (n: nat) {
    if rs == [] then 0 else Suppressions(rs[..|rs| - 1]) + (if rs[|rs| - 1].suppressed then 1 else 0)
  }

  lemma InitIsNaive(rs: seq<Result>, fp: Str, h: History, rule: Rule, maxSamples: int)
    requires AreNaive(rs, fp, h, rule, maxSamples) && rs != []
    ensures AreNaive(rs[..|rs| - 1], fp, h[..|h| - 1], rule, maxSamples)
    ensures rs[|rs| - 1] == NaiveResult(fp, h, rule, maxSamples)
  {
    var n := |h| - 1;
    assert h[..n + 1] == h;
    forall i | 0 <= i < n ensures rs[..n][i] == NaiveResult(fp, h[..n][..i + 1], rule, maxSamples) {
      assert h[..n][..i + 1] == h[..i + 1];
    }
  }

  lemma {:induction false} NoAlertNoLast(rs: seq<Result>, fp: Str, h: History, rule: Rule, maxSamples: int)
    requires AreNaive(rs, fp, h, rule, maxSamples) && NoAlert(rs)
    ensures LastAlert(h, rule).None?
  {
    if rs != [] {
      InitIsNaive(rs, fp, h, rule, maxSamples);
      NoAlertNoLast(rs[..|rs| - 1], fp, h[..|h| - 1], rule, maxSamples);
    }
  }

  lemma {:induction false} AlertTimesAgree(rs: seq<Result>, fp: Str, h: History, rule: Rule, maxSamples: int)
    requires AreNaive(rs, fp, h, rule, maxSamples)
    ensures AlertTimesOf(rs) == AlertTimes(h, rule)
  {
    if rs != [] {
      InitIsNaive(rs, fp, h, rule, maxSamples);
      AlertTimesAgree(rs[..|rs| - 1], fp, h[..|h| - 1], rule, maxSamples);
    }
  }

  lemma {:induction false} CountsAgree(rs: seq<Result>, fp: Str, h: History, rule: Rule, maxSamples: int)
    requires AreNaive(rs, fp, h, rule, maxSamples)
    ensures ReportedBy(rs) == Reported(h, rule) && Suppressions(rs) == Count(h, rule, Suppressed)
  {
    if rs != [] {
      InitIsNaive(rs, fp, h, rule, maxSamples);
      CountsAgree(rs[..|rs| - 1], fp, h[..|h| - 1], rule, maxSamples);
    }
  }

  lemma PrefixIsNaive(rs: seq<Result>, fp: Str, h: History, rule: Rule, maxSamples: int, n: nat)
    requires AreNaive(rs, fp, h, rule, maxSamples) && n <= |rs|
    ensures AreNaive(rs[..n], fp, h[..n], rule, maxSamples)
  {
    forall i | 0 <= i < n ensures rs[..n][i] == NaiveResult(fp, h[..n][..i + 1], rule, maxSamples) {
      assert h[..n][..i + 1] == h[..i + 1];
    }
  }

  /** Until the first alert the count stays below the threshold, and the first alert has it. */
  lemma FirstAlertOf(rs: seq<Result>, fp: Str, h: History, rule: Rule, maxSamples: int, i: nat)
    requires AreNaive(rs, fp, h, rule, maxSamples) && i < |rs| && rule.threshold > 0 && rule.window > 0 && NoAlert(rs[..i])
    ensures if rs[i].alert then rs[i].state.windowCount == rule.threshold else rs[i].state.windowCount < rule.threshold
  {
    var g := h[..i + 1];
    assert g[..|g| - 1] == h[..i];
    PrefixIsNaive(rs, fp, h, rule, maxSamples, i);
    NoAlertNoLast(rs[..i], fp, h[..i], rule, maxSamples);
    if rs[i].alert {
      FirstAlertAtThreshold(g, rule);
    } else {
      BelowThresholdBeforeAlert(g, rule);
    }
  }

  /** Only events with sound aggregation settings get results. */
  lemma {:induction false} ResultsNeedRule(c: Limits, ruleOf: Str -> Rule, ops: seq<Op>, fp: Str)
    requires (forall i :: 0 <= i < |ops| ==> Orderly(ruleOf, ops[i])) && Results(c, ops, fp) != []
    ensures ruleOf(fp).threshold > 0 && ruleOf(fp).window > 0 && ruleOf(fp).cooldown >= 0
  {
    var init, op := ops[..|ops| - 1], ops[|ops| - 1];
    if !(op.Record? && Acceptable(op.event) && op.event.fingerprint == fp) {
      ResultsNeedRule(c, ruleOf, init, fp);
    }
  }

  /** Of the results that any run has returned for a group since it was created: until the
      first alert the window count is below the threshold, and the first alert has exactly the
      threshold; alerts n apart have event times at least n cooldowns apart; what the alerts
      reported and the last state still holds are together the suppressed results; and the
      last state counts all of them. */
  lemma ResultsKeepGuarantees(c: Limits, ruleOf: Str -> Rule, ops: seq<Op>, fp: Str)
    requires ValidLimits(c) && (forall i :: 0 <= i < |ops| ==> Orderly(ruleOf, ops[i])) && Results(c, ops, fp) != []
    ensures var rs, rule := Results(c, ops, fp), ruleOf(fp);
            var last, times := rs[|rs| - 1].state, AlertTimesOf(rs);
            && (forall i :: 0 <= i < |rs| && NoAlert(rs[..i]) ==>
                  if rs[i].alert then rs[i].state.windowCount == rule.threshold else rs[i].state.windowCount < rule.threshold)
            && (forall i, j :: 0 <= i <= j < |times| ==> times[j] - times[i] >= (j - i) * rule.cooldown)
            && ReportedBy(rs) + last.suppressedCount == Suppressions(rs)
            && last.totalCount == |rs|
  {
    var rs, rule := Results(c, ops, fp), ruleOf(fp);
    ResultsNeedRule(c, ruleOf, ops, fp);
    ResultsAreNaive(c, ruleOf, ops, fp);
    NaiveGuarantees(rs, fp, Run(c, ops).seen[fp], rule, c.maxSamples);
  }

  lemma NaiveGuarantees(rs: seq<Result>, fp: Str, h: History, rule: Rule, maxSamples: int)
    requires AreNaive(rs, fp, h, rule, maxSamples) && rs != []
    requires rule.threshold > 0 && rule.window > 0 && rule.cooldown >= 0
    ensures forall i :: 0 <= i < |rs| && NoAlert(rs[..i]) ==>
              if rs[i].alert then rs[i].state.windowCount == rule.threshold else rs[i].state.windowCount < rule.threshold
    ensures var times := AlertTimesOf(rs);
            forall i, j :: 0 <= i <= j < |times| ==> times[j] - times[i] >= (j - i) * rule.cooldown
    ensures ReportedBy(rs) + rs[|rs| - 1].state.suppressedCount == Suppressions(rs) && rs[|rs| - 1].state.totalCount == |rs|
  {
    forall i | 0 <= i < |rs| && NoAlert(rs[..i])
      ensures if rs[i].alert then rs[i].state.windowCount == rule.threshold else rs[i].state.windowCount < rule.threshold
    {
      FirstAlertOf(rs, fp, h, rule, maxSamples, i);
    }
    AlertTimesAgree(rs, fp, h, rule, maxSamples);
    var times := AlertTimesOf(rs);
    forall i, j | 0 <= i <= j < |times| ensures times[j] - times[i] >= (j - i) * rule.cooldown {
      AlertsAreSpaced(h, rule, i, j);
    }
    CountsAgree(rs, fp, h, rule, maxSamples);
    SuppressionIsConserved(h, rule);
    InitIsNaive(rs, fp, h, rule, maxSamples);
  }

  // -------------------------------------------------------- each single verdict

  /** How many of the events lie within the window of the newest one. */
  function WithinWindow(h: History, newest: int, window: int): (n: nat) {
    if h == [] then 0
    else WithinWindow(h[..|h| - 1], newest, window) + (if newest - h[|h| - 1].time <= window then 1 else 0)
  }

  lemma {:induction false} WindowCounts(h: History, newest: int, window: int)
    ensures |AtLeast(Times(h), newest - window)| == WithinWindow(h, newest, window)
  {
    if h != [] {
      var n := |h| - 1;
      WindowCounts(h[..n], newest, window);
      AtLeastConcat(Times(h[..n]), [h[n].time], newest - window);
    }
  }

  lemma {:induction false} NewestIsLatest(h: History)
    requires AfterZero(h)
    ensures forall i :: 0 <= i < |h| ==> h[i].time <= Newest(h)
    ensures h != [] ==> exists i :: 0 <= i < |h| && h[i].time == Newest(h)
  {
    if h != [] {
      var n := |h| - 1;
      NewestIsLatest(h[..n]);
      if Newest(h) == h[n].time {
      } else {
        assert h[..n] != [];
        var i :| 0 <= i < |h[..n]| && h[..n][i].time == Newest(h[..n]);
        assert h[i].time == Newest(h);
      }
    }
  }

  /** What one result says, from the events so far and the alerts before it. */
  ghost predicate Decided(r: Result, h: History, alerts: seq<int>, rule: Rule)
    requires h != []
  {
    && (r.suppressed <==> alerts != [] && h[|h| - 1].time < alerts[|alerts| - 1] + rule.cooldown)
    && (r.alert <==> !r.suppressed && r.state.windowCount >= rule.threshold)
    && r.state.windowCount == WithinWindow(h, r.state.lastSeen, rule.window)
    && (forall i :: 0 <= i < |h| ==> h[i].time <= r.state.lastSeen) && (exists i :: 0 <= i < |h| && h[i].time == r.state.lastSeen)
  }

  lemma JudgedIff(h: History, rule: Rule)
    requires h != []
    ensures var a, n := AlertTimes(h[..|h| - 1], rule), |InWindow(h, rule)|;
            && (Judge(h, rule) == Suppressed <==> a != [] && h[|h| - 1].time < a[|a| - 1] + rule.cooldown)
            && (Judge(h, rule) == Alerted <==> Judge(h, rule) != Suppressed && n >= rule.threshold)
  {
    LastAlertIsLast(h[..|h| - 1], rule);
  }

  lemma NaiveIsDecided(fp: Str, h: History, rule: Rule, maxSamples: int)
    requires h != [] && AfterZero(h)
    ensures Decided(NaiveResult(fp, h, rule, maxSamples), h, AlertTimes(h[..|h| - 1], rule), rule)
  {
    JudgedIff(h, rule);
    WindowCounts(h, Newest(h), rule.window);
    NewestIsLatest(h);
  }

  lemma VerdictIff(rs: seq<Result>, fp: Str, h: History, rule: Rule, maxSamples: int, i: nat)
    requires AreNaive(rs, fp, h, rule, maxSamples) && i < |rs| && AfterZero(h)
    ensures Decided(rs[i], h[..i + 1], AlertTimesOf(rs[..i]), rule)
  {
    var g := h[..i + 1];
    assert g[..|g| - 1] == h[..i];
    NaiveIsDecided(fp, g, rule, maxSamples);
    PrefixIsNaive(rs, fp, h, rule, maxSamples, i);
    AlertTimesAgree(rs[..i], fp, h[..i], rule, maxSamples);
  }

  /** Over every run each result that was returned for a group is decided by the events since the
      group was created: it is suppressed exactly when an alert came before and the event is
      earlier than its time plus the cooldown; it alerts exactly when it is not suppressed and
      the events within the window of the latest one reach the threshold. */
  lemma EveryResultIsDecided(c: Limits, ruleOf: Str -> Rule, ops: seq<Op>, fp: Str, i: nat)
    requires ValidLimits(c) && (forall k :: 0 <= k < |ops| ==> Orderly(ruleOf, ops[k])) && i < |Results(c, ops, fp)|
    ensures fp in Run(c, ops).seen && |Run(c, ops).seen[fp]| == |Results(c, ops, fp)|
    ensures var rs := Results(c, ops, fp); Decided(rs[i], Run(c, ops).seen[fp][..i + 1], AlertTimesOf(rs[..i]), ruleOf(fp))
  {
    ResultsAreNaive(c, ruleOf, ops, fp);
    var t := Run(c, ops);
    assert KeyInv(fp, t.groups[fp], t.seen[fp], ruleOf(fp), c.maxSamples);
    VerdictIff(Results(c, ops, fp), fp, t.seen[fp], ruleOf(fp), c.maxSamples, i);
  }
}
