/** The aggregator against its own history. A group is recomputed naively, by re-filtering
    everything its fingerprint has seen since the group was created, and the incremental
    group is shown to agree; the alerting guarantees are then facts about the history. */
module AggregateHistory {
  import opened Common
  import opened Aggregate

  /** One event of a fingerprint: its time and its sample. */
  datatype Seen = Seen(time: int, sample: Str)

  type History = seq<Seen>

  // ------------------------------------------------------ naive recomputation

  function Times(h: History): (r: seq<int>)
    ensures |r| == |h|
  {
    if h == [] then [] else Times(h[..|h| - 1]) + [h[|h| - 1].time]
  }

  /** The latest time seen; zero before the first event. */
  function Newest(h: History): int {
    if h == [] then ZERO_TIME
    else
      var m, t := Newest(h[..|h| - 1]), h[|h| - 1].time;
      if m < t then t else m
  }

  /** The earliest time seen; zero before the first event. */
  function Earliest(h: History): int {
    if h == [] then ZERO_TIME
    else
      var m, t := Earliest(h[..|h| - 1]), h[|h| - 1].time;
      if |h| == 1 || t < m then t else m
  }

  /** Re-filter the whole history: the times within the window of the newest one. */
  function InWindow(h: History, rule: Rule): (r: seq<int>) {
    AtLeast(Times(h), Newest(h) - rule.window)
  }

  /** The distinct samples, in order of first appearance. */
  function Distinct(h: History): (r: seq<Str>) {
    if h == [] then []
    else
      var d, x := Distinct(h[..|h| - 1]), h[|h| - 1].sample;
      if x in d then d else d + [x]
  }

  function Take<T>(s: seq<T>, n: int): (r: seq<T>) {
    if n <= 0 then [] else if |s| <= n then s else s[..n]
  }

  function FirstNonEmpty(h: History): (r: Str) {
    if h == [] then []
    else
      var f := FirstNonEmpty(h[..|h| - 1]);
      if f == [] then h[|h| - 1].sample else f
  }

  datatype Verdict = Silent | Alerted | Suppressed

  /** What the last event of h leads to, judged from the whole history. */
  function Judge(h: History, rule: Rule): (v: Verdict)
    requires h != []
    decreases |h|, 1
  {
    var last := LastAlert(h[..|h| - 1], rule);
    var t := h[|h| - 1].time;
    if last.Some? && t < h[last.value].time + rule.cooldown then Suppressed
    else if |InWindow(h, rule)| >= rule.threshold then Alerted
    else Silent
  }

  /** The position of the latest event that alerted. */
  function LastAlert(h: History, rule: Rule): (r: Option<nat>)
    ensures r.Some? ==> r.value < |h|
    decreases |h|, 2
  {
    if h == [] then None
    else if Judge(h, rule) == Alerted then Some(|h| - 1)
    else LastAlert(h[..|h| - 1], rule)
  }

  /** How many events were suppressed since the latest alert. */
  function HeldBack(h: History, rule: Rule): (n: nat) {
    if h == [] then 0
    else match Judge(h, rule)
      case Alerted => 0
      case Suppressed => HeldBack(h[..|h| - 1], rule) + 1
      case Silent => HeldBack(h[..|h| - 1], rule)
  }

  function NaiveState(fingerprint: Str, h: History, rule: Rule, maxSamples: int): EventState {
    var last := LastAlert(h, rule);
    EventState(fingerprint, Earliest(h), Newest(h), |InWindow(h, rule)|, |h|,
               if last.Some? then h[last.value].time else ZERO_TIME,
               if last.Some? then h[last.value].time + rule.cooldown else ZERO_TIME,
               HeldBack(h, rule),
               FirstNonEmpty(h), if h == [] then [] else h[|h| - 1].sample, Take(Distinct(h), maxSamples))
  }

  function NaiveResult(fingerprint: Str, h: History, rule: Rule, maxSamples: int): Result
    requires h != []
  {
    Result(Judge(h, rule) == Alerted, Judge(h, rule) == Suppressed,
           if Judge(h, rule) == Alerted then HeldBack(h[..|h| - 1], rule) else 0,
           NaiveState(fingerprint, h, rule, maxSamples))
  }

  // ------------------------------------------------- the window is the re-filter

  /** Filtering depends only on the multiset filtered. */
  lemma {:induction false} AtLeastMultiset(s: seq<int>, bound: int, x: int)
    ensures multiset(AtLeast(s, bound))[x] == if x >= bound then multiset(s)[x] else 0
  {
    if s != [] {
      AtLeastMultiset(s[1..], bound, x);
      assert s == [s[0]] + s[1..];
    }
  }

  lemma AtLeastRespectsMultiset(a: seq<int>, b: seq<int>, bound: int)
    requires multiset(a) == multiset(b)
    ensures multiset(AtLeast(a, bound)) == multiset(AtLeast(b, bound))
  {
    forall x ensures multiset(AtLeast(a, bound))[x] == multiset(AtLeast(b, bound))[x] {
      AtLeastMultiset(a, bound, x);
      AtLeastMultiset(b, bound, x);
    }
  }

  lemma {:induction false} InsertedMultiset(s: seq<int>, v: int)
    ensures multiset(Inserted(s, v)) == multiset(s) + multiset{v}
  {
    if s != [] && s[0] <= v {
      InsertedMultiset(s[1..], v);
      assert s == [s[0]] + s[1..];
    }
  }

  lemma SortedCons(x: int, s: seq<int>)
    requires Sorted(s) && forall y :: y in s ==> x <= y
    ensures Sorted([x] + s)
  {
    forall i, j | 0 <= i <= j < |[x] + s| ensures ([x] + s)[i] <= ([x] + s)[j] {
      assert j > 0 ==> ([x] + s)[j] == s[j - 1] && s[j - 1] in s;
    }
  }

  lemma {:induction false} AtLeastSorted(s: seq<int>, bound: int)
    requires Sorted(s)
    ensures Sorted(AtLeast(s, bound))
    ensures forall x :: x in AtLeast(s, bound) ==> x in s
  {
    if s != [] {
      AtLeastSorted(s[1..], bound);
      assert forall x :: x in s[1..] ==> s[0] <= x;
      SortedCons(s[0], AtLeast(s[1..], bound));
    }
  }

  lemma {:induction false} InsertedSorted(s: seq<int>, v: int)
    requires Sorted(s)
    ensures Sorted(Inserted(s, v))
    ensures forall x :: x in Inserted(s, v) ==> x == v || x in s
  {
    if s != [] && s[0] <= v {
      InsertedSorted(s[1..], v);
      assert forall x :: x in Inserted(s[1..], v) ==> s[0] <= x;
      SortedCons(s[0], Inserted(s[1..], v));
    } else {
      SortedCons(v, s);
    }
  }

  /** The timestamps held are the re-filtered history, sorted. */
  ghost predicate WindowMatches(timestamps: seq<int>, h: History, rule: Rule) {
    Sorted(timestamps) && multiset(timestamps) == multiset(InWindow(h, rule))
  }

  /** The next window, from the previous one and from the history alone. */
  lemma NextWindow(h: History, e: Seen, rule: Rule)
    requires rule.window > 0
    ensures var h' := h + [e];
            var cutoff := Newest(h') - rule.window;
            InWindow(h', rule) == AtLeast(InWindow(h, rule), cutoff) + (if e.time >= cutoff then [e.time] else [])
  {
    var h' := h + [e];
    assert h'[..|h'| - 1] == h;
    var cutoff := Newest(h') - rule.window;
    AtLeastConcat(Times(h), [e.time], cutoff);
    AtLeastTwice(Times(h), Newest(h) - rule.window, cutoff);
  }

  /** Discarding and inserting on the sorted copy w of v follow the same on v. */
  lemma SlideWindow(w: seq<int>, v: seq<int>, cutoff: int, t: int)
    requires Sorted(w) && multiset(w) == multiset(v)
    ensures var next := Slid(w, cutoff, t);
            var expected := AtLeast(v, cutoff) + (if t >= cutoff then [t] else []);
            Sorted(next) && multiset(next) == multiset(expected) && |next| == |expected|
  {
    var kept := AtLeast(w, cutoff);
    AtLeastRespectsMultiset(w, v, cutoff);
    AtLeastSorted(w, cutoff);
    InsertedMultiset(kept, t);
    InsertedSorted(kept, t);
    SameSize(kept, AtLeast(v, cutoff));
  }

  lemma SameSize(a: seq<int>, b: seq<int>)
    requires multiset(a) == multiset(b)
    ensures |a| == |b|
  {
    assert |multiset(a)| == |a| && |multiset(b)| == |b|;
  }

  /** SlideWindow, for a window known by its contents. */
  lemma SlideTo(timestamps: seq<int>, v: seq<int>, w: seq<int>, cutoff: int, t: int)
    requires Sorted(timestamps) && multiset(timestamps) == multiset(v)
    requires w == AtLeast(v, cutoff) + (if t >= cutoff then [t] else [])
    ensures Sorted(Slid(timestamps, cutoff, t)) && multiset(Slid(timestamps, cutoff, t)) == multiset(w)
    ensures |Slid(timestamps, cutoff, t)| == |w|
  {
    SlideWindow(timestamps, v, cutoff, t);
  }

  /** After one more event, with the watermark at its newest time, the window is the
      re-filtered longer history. */
  lemma WindowStep(timestamps: seq<int>, h: History, e: Seen, rule: Rule, watermark: int)
    requires rule.window > 0 && WindowMatches(timestamps, h, rule) && watermark == Newest(h + [e])
    ensures WindowMatches(Slid(timestamps, watermark - rule.window, e.time), h + [e], rule)
    ensures |Slid(timestamps, watermark - rule.window, e.time)| == |InWindow(h + [e], rule)|
  {
    NextWindow(h, e, rule);
    SlideTo(timestamps, InWindow(h, rule), InWindow(h + [e], rule), watermark - rule.window, e.time);
  }

  // ---------------------------------------------- the group is its history

  ghost predicate GroupMatches(g: Group, fingerprint: Str, h: History, rule: Rule, maxSamples: int) {
    && g.state == NaiveState(fingerprint, h, rule, maxSamples)
    && g.watermark == Newest(h)
    && WindowMatches(g.timestamps, h, rule)
  }

  ghost predicate AfterZero(h: History) {
    forall i :: 0 <= i < |h| ==> h[i].time > ZERO_TIME
  }

  lemma {:induction false} NewestAfterZero(h: History)
    requires AfterZero(h) && h != []
    ensures Newest(h) > ZERO_TIME && Earliest(h) > ZERO_TIME
  {
    if |h| > 1 {
      NewestAfterZero(h[..|h| - 1]);
    }
  }

  lemma SamplesStep(h: History, e: Seen, maxSamples: int)
    requires maxSamples > 0
    ensures var s, x := Take(Distinct(h), maxSamples), e.sample;
            Take(Distinct(h + [e]), maxSamples) == if x in s || |s| >= maxSamples then s else s + [x]
  {
    assert (h + [e])[..|h|] == h;
  }

  /** The state of a history whose last event is not yet judged. */
  function Unjudged(fingerprint: Str, h: History, e: Seen, rule: Rule, maxSamples: int): EventState {
    var before, h' := NaiveState(fingerprint, h, rule, maxSamples), h + [e];
    EventState(fingerprint, Earliest(h'), Newest(h'), |InWindow(h', rule)|, |h'|,
               before.lastAlertAt, before.cooldownUntil, before.suppressedCount,
               FirstNonEmpty(h'), e.sample, Take(Distinct(h'), maxSamples))
  }

  /** The extremes and the first sample after one more event. */
  lemma OneMore(h: History, e: Seen)
    ensures Newest(h + [e]) == if Newest(h) < e.time then e.time else Newest(h)
    ensures Earliest(h + [e]) == if h == [] || e.time < Earliest(h) then e.time else Earliest(h)
    ensures FirstNonEmpty(h + [e]) == if FirstNonEmpty(h) == [] then e.sample else FirstNonEmpty(h)
  {
    assert (h + [e])[..|h|] == h;
  }

  /** Counting the event leaves the state as the longer history has it, up to the verdict. */
  lemma CountedMatches(s: EventState, h: History, e: Seen, maxSamples: int, n: nat)
    requires maxSamples > 0 && AfterZero(h) && e.time > ZERO_TIME
    requires s.firstSeen == Earliest(h) && s.lastSeen == Newest(h) && s.totalCount == |h|
    requires s.firstSample == FirstNonEmpty(h) && s.samples == Take(Distinct(h), maxSamples)
    ensures Counted(s, e.time, n, e.sample, maxSamples)
         == EventState(s.fingerprint, Earliest(h + [e]), Newest(h + [e]), n, |h + [e]|, s.lastAlertAt, s.cooldownUntil,
                       s.suppressedCount, FirstNonEmpty(h + [e]), e.sample, Take(Distinct(h + [e]), maxSamples))
  {
    OneMore(h, e);
    if h != [] {
      NewestAfterZero(h);
    }
    SamplesStep(h, e, maxSamples);
  }

  lemma StateAbsorbs(fingerprint: Str, h: History, rule: Rule, maxSamples: int, e: Seen)
    requires maxSamples > 0 && AfterZero(h) && e.time > ZERO_TIME
    ensures Counted(NaiveState(fingerprint, h, rule, maxSamples), e.time, |InWindow(h + [e], rule)|, e.sample, maxSamples)
         == Unjudged(fingerprint, h, e, rule, maxSamples)
  {
    CountedMatches(NaiveState(fingerprint, h, rule, maxSamples), h, e, maxSamples, |InWindow(h + [e], rule)|);
  }

  lemma NewestMoves(g: Group, h: History, e: Seen)
    requires g.watermark == Newest(h)
    ensures Watermark(g, e.time) == Newest(h + [e])
  {
    OneMore(h, e);
  }

  lemma AbsorbMatchesHistory(g: Group, fingerprint: Str, h: History, rule: Rule, maxSamples: int, e: Seen, now: int)
    requires rule.window > 0 && maxSamples > 0
    requires AfterZero(h) && e.time > ZERO_TIME
    requires GroupMatches(g, fingerprint, h, rule, maxSamples)
    ensures var g' := Absorb(g, rule, e.time, e.sample, maxSamples, now);
            && g'.state == Unjudged(fingerprint, h, e, rule, maxSamples)
            && g'.watermark == Newest(h + [e]) && WindowMatches(g'.timestamps, h + [e], rule) && g'.updatedAt == now
  {
    NewestMoves(g, h, e);
    WindowStep(g.timestamps, h, e, rule, Watermark(g, e.time));
    StateAbsorbs(fingerprint, h, rule, maxSamples, e);
  }

  lemma DecideMatchesHistory(fingerprint: Str, h: History, rule: Rule, maxSamples: int, e: Seen)
    requires AfterZero(h) && e.time > ZERO_TIME
    ensures Decide(Unjudged(fingerprint, h, e, rule, maxSamples), rule, e.time) == NaiveResult(fingerprint, h + [e], rule, maxSamples)
  {
    var h' := h + [e];
    assert h'[..|h'| - 1] == h;
    var last := LastAlert(h, rule);
    assert last.Some? ==> h'[last.value] == h[last.value];
    assert Judge(h', rule) ==
      if last.Some? && e.time < h[last.value].time + rule.cooldown then Suppressed
      else if |InWindow(h', rule)| >= rule.threshold then Alerted else Silent;
    assert LastAlert(h', rule) == if Judge(h', rule) == Alerted then Some(|h|) else last;
  }

  /** Recording one event in a group that agrees with its history gives the naively computed
      result and a group that agrees with the longer history. */
  lemma RecordMatchesHistory(g: Group, fingerprint: Str, h: History, rule: Rule, maxSamples: int, e: Seen, now: int)
    requires rule.window > 0 && maxSamples > 0
    requires AfterZero(h) && e.time > ZERO_TIME
    requires GroupMatches(g, fingerprint, h, rule, maxSamples)
    ensures var (g', result) := RecordInGroup(g, rule, e.time, e.sample, maxSamples, now);
            && GroupMatches(g', fingerprint, h + [e], rule, maxSamples)
            && result == NaiveResult(fingerprint, h + [e], rule, maxSamples)
            && g'.updatedAt == now
  {
    AbsorbMatchesHistory(g, fingerprint, h, rule, maxSamples, e, now);
    DecideMatchesHistory(fingerprint, h, rule, maxSamples, e);
  }

  // ------------------------------------------------------- alerting guarantees

  /** One more event adds at most one to the window. */
  lemma {:induction false} WindowGrowsByOne(h: History, rule: Rule)
    requires h != [] && rule.window > 0
    ensures |InWindow(h, rule)| <= |InWindow(h[..|h| - 1], rule)| + 1
  {
    NextWindow(h[..|h| - 1], h[|h| - 1], rule);
    assert h[..|h| - 1] + [h[|h| - 1]] == h;
  }

  /** Until the first alert the window count stays below the threshold... */
  lemma {:induction false} BelowThresholdBeforeAlert(h: History, rule: Rule)
    requires rule.threshold > 0 && LastAlert(h, rule).None?
    ensures |InWindow(h, rule)| < rule.threshold
  {
    if h != [] {
      assert Judge(h, rule) == Silent;
    }
  }

  /** ...and the first alert fires exactly at the threshold. */
  lemma FirstAlertAtThreshold(h: History, rule: Rule)
    requires rule.threshold > 0 && rule.window > 0 && h != []
    requires LastAlert(h[..|h| - 1], rule).None? && Judge(h, rule) == Alerted
    ensures |InWindow(h, rule)| == rule.threshold
  {
    WindowGrowsByOne(h, rule);
    BelowThresholdBeforeAlert(h[..|h| - 1], rule);
  }

  /** The times of the alerting events, in order of arrival. */
  function AlertTimes(h: History, rule: Rule): (r: seq<int>) {
    if h == [] then []
    else AlertTimes(h[..|h| - 1], rule) + (if Judge(h, rule) == Alerted then [h[|h| - 1].time] else [])
  }

  lemma {:induction false} LastAlertIsLast(h: History, rule: Rule)
    ensures var a := AlertTimes(h, rule);
            match LastAlert(h, rule)
            case None => a == []
            case Some(i) => a != [] && a[|a| - 1] == h[i].time
  {
    if h != [] {
      LastAlertIsLast(h[..|h| - 1], rule);
    }
  }

  lemma AlertIsLate(h: History, rule: Rule)
    requires h != [] && Judge(h, rule) == Alerted
    ensures match LastAlert(h[..|h| - 1], rule)
            case None => true
            case Some(i) => h[|h| - 1].time >= h[i].time + rule.cooldown
  {
  }

  /** The next alert, if there is one, comes at least a cooldown after the latest. */
  lemma NextAlertIsLater(h: History, rule: Rule)
    requires h != [] && AlertTimes(h[..|h| - 1], rule) != [] && Judge(h, rule) == Alerted
    ensures var a := AlertTimes(h[..|h| - 1], rule);
            AlertTimes(h, rule) == a + [h[|h| - 1].time] && h[|h| - 1].time >= a[|a| - 1] + rule.cooldown
  {
    LastAlertIsLast(h[..|h| - 1], rule);
    AlertIsLate(h, rule);
  }

  lemma OneTimesMore(n: nat, c: int)
    ensures (n + 1) * c == n * c + c
  {
  }

  /** Any two alerts that are n alerts apart have event times at least n cooldowns apart. */
  lemma {:induction false} AlertsAreSpaced(h: History, rule: Rule, i: nat, j: nat)
    requires rule.cooldown >= 0 && i <= j < |AlertTimes(h, rule)|
    ensures AlertTimes(h, rule)[j] - AlertTimes(h, rule)[i] >= (j - i) * rule.cooldown
  {
    var h0 := h[..|h| - 1];
    if j < |AlertTimes(h0, rule)| {
      AlertsAreSpaced(h0, rule, i, j);
    } else if i < j {
      NextAlertIsLater(h, rule);
      AlertsAreSpaced(h0, rule, i, j - 1);
      OneTimesMore(j - 1 - i, rule.cooldown);
    }
  }

  /** How many events had verdict v. */
  function Count(h: History, rule: Rule, v: Verdict): (n: nat) {
    if h == [] then 0 else Count(h[..|h| - 1], rule, v) + (if Judge(h, rule) == v then 1 else 0)
  }

  /** The sum of the suppressed counts that the alerts reported. */
  function Reported(h: History, rule: Rule): (n: nat) {
    if h == [] then 0
    else Reported(h[..|h| - 1], rule) + (if Judge(h, rule) == Alerted then HeldBack(h[..|h| - 1], rule) else 0)
  }

  /** Suppression is conserved, and every event is an alert, suppressed or silent. */
  lemma {:induction false} SuppressionIsConserved(h: History, rule: Rule)
    ensures Reported(h, rule) + HeldBack(h, rule) == Count(h, rule, Suppressed)
    ensures |h| == Count(h, rule, Alerted) + Count(h, rule, Suppressed) + Count(h, rule, Silent)
  {
    if h != [] {
      SuppressionIsConserved(h[..|h| - 1], rule);
    }
  }

  // ----------------------------------------------------------- whole runs

  datatype Limits = Limits(maxGroups: nat, ttl: int, maxSamples: int)

  ghost predicate ValidLimits(c: Limits) { c.maxGroups > 0 && c.ttl > 0 && c.maxSamples > 0 }

  /** An operation of the aggregator at clock time now: Record, or Len and State, which only
      evict. */
  datatype Op = Record(event: Event, now: int) | Query(now: int)

  /** The groups, and for each the events of its own fingerprint since it was created. */
  datatype Tracked = Tracked(groups: Groups, seen: map<Str, History>)

  ghost function Apply(c: Limits, t: Tracked, op: Op): (t': Tracked)
    ensures t'.seen.Keys <= t'.groups.Keys
  {
    match op
    case Query(now) =>
      var groups := Unexpired(t.groups, now, c.ttl);
      Tracked(groups, map k | k in t.seen && k in groups :: t.seen[k])
    case Record(e, now) =>
      if !Acceptable(e) then Tracked(t.groups, map k | k in t.seen && k in t.groups :: t.seen[k])
      else
        var fp := e.fingerprint;
        var groups := RecordStep(t.groups, e, c.maxGroups, c.ttl, c.maxSamples, now).0;
        var survivors := map k | k in t.seen && k in groups && k in Unexpired(t.groups, now, c.ttl) :: t.seen[k];
        Tracked(groups, survivors[fp := (if fp in survivors then survivors[fp] else [])
                                        + [Seen(EventTime(e, now), SampleOf(e.raw, e.message))]])
  }

  ghost function Run(c: Limits, ops: seq<Op>): (t: Tracked) {
    if ops == [] then Tracked(map[], map[]) else Apply(c, Run(c, ops[..|ops| - 1]), ops[|ops| - 1])
  }

  /** Each fingerprint keeps one rule, and the clock and the event times are after the zero
      time (a zero event time means that the record carried none). */
  ghost predicate Orderly(ruleOf: Str -> Rule, op: Op) {
    op.now > ZERO_TIME && (op.Record? ==> op.event.timestamp >= ZERO_TIME && op.event.rule == ruleOf(op.event.fingerprint))
  }

  ghost predicate RunInv(c: Limits, ruleOf: Str -> Rule, t: Tracked) {
    && |t.groups| <= c.maxGroups && [] !in t.groups
    && t.seen.Keys == t.groups.Keys
    && forall k :: k in t.groups ==> KeyInv(k, t.groups[k], t.seen[k], ruleOf(k), c.maxSamples)
  }

  ghost predicate KeyInv(k: Str, g: Group, h: History, rule: Rule, maxSamples: int) {
    AfterZero(h) && GroupMatches(g, k, h, rule, maxSamples)
  }

  /** No surviving group is past its time to live. */
  ghost predicate AllFresh(c: Limits, groups: Groups, now: int) {
    forall k :: k in groups ==> now < groups[k].updatedAt + c.ttl
  }

  lemma EmptyMatches(fingerprint: Str, rule: Rule, maxSamples: int)
    ensures GroupMatches(EmptyGroup(fingerprint), fingerprint, [], rule, maxSamples)
  {
  }

  lemma MadeRoomSize(groups: Groups, maxGroups: nat)
    requires maxGroups > 0 && |groups| <= maxGroups
    ensures |MadeRoom(groups, maxGroups)| < maxGroups
    ensures forall k :: k in MadeRoom(groups, maxGroups) ==> k in groups && MadeRoom(groups, maxGroups)[k] == groups[k]
  {
    if !(|groups| < maxGroups || groups == map[]) {
      var k := Oldest(groups);
      assert (groups - {k}).Keys == groups.Keys - {k};
      assert |groups.Keys - {k}| == |groups.Keys| - 1;
    }
  }

  lemma AddOne(groups: Groups, fp: Str, g: Group)
    ensures |groups[fp := g]| <= |groups| + 1
  {
    assert groups[fp := g].Keys == groups.Keys + {fp};
    assert |groups.Keys + {fp}| <= |groups.Keys| + 1;
  }

  /** Preparing for an event only ever deletes other groups. */
  lemma PreparedFacts(c: Limits, groups: Groups, fp: Str, now: int)
    requires ValidLimits(c) && |groups| <= c.maxGroups
    ensures var ready := Prepared(groups, fp, c.maxGroups, c.ttl, now);
            && fp in ready && |ready| <= c.maxGroups
            && (forall k :: k in ready && k != fp ==> k in groups && ready[k] == groups[k] && now < groups[k].updatedAt + c.ttl)
            && ready[fp] == (if fp in Unexpired(groups, now, c.ttl) then groups[fp] else EmptyGroup(fp))
  {
    var live := Unexpired(groups, now, c.ttl);
    SubmapSize(live, groups);
    if fp !in live {
      MadeRoomSize(live, c.maxGroups);
      AddOne(MadeRoom(live, c.maxGroups), fp, EmptyGroup(fp));
    }
  }

  /** Other groups are only ever deleted, never altered. */
  lemma OthersUntouched(c: Limits, groups: Groups, e: Event, now: int, k: Str)
    requires ValidLimits(c) && |groups| <= c.maxGroups && k != e.fingerprint
    ensures var groups' := RecordStep(groups, e, c.maxGroups, c.ttl, c.maxSamples, now).0;
            k in groups' ==> k in groups && groups'[k] == groups[k]
  {
    PreparedFacts(c, groups, e.fingerprint, now);
  }

  /** The events of the group that e is recorded in, before e. */
  ghost function Before(c: Limits, t: Tracked, fp: Str, now: int): History {
    if fp in t.seen && fp in Unexpired(t.groups, now, c.ttl) then t.seen[fp] else []
  }

  lemma SeenKeys(c: Limits, t: Tracked, e: Event, now: int)
    requires ValidLimits(c) && |t.groups| <= c.maxGroups && t.seen.Keys == t.groups.Keys && Acceptable(e)
    ensures var t' := Apply(c, t, Record(e, now));
            t'.groups.Keys == t'.seen.Keys == Prepared(t.groups, e.fingerprint, c.maxGroups, c.ttl, now).Keys
  {
    var t' := Apply(c, t, Record(e, now));
    PreparedFacts(c, t.groups, e.fingerprint, now);
    forall k | k in t'.groups ensures k in t'.seen {
      assert k != e.fingerprint ==> k in t.seen && k in Unexpired(t.groups, now, c.ttl);
    }
    assert t'.groups.Keys == t'.seen.Keys;
  }

  lemma ApplyShape(c: Limits, t: Tracked, e: Event, now: int)
    requires ValidLimits(c) && |t.groups| <= c.maxGroups && t.seen.Keys == t.groups.Keys && Acceptable(e)
    ensures var t' := Apply(c, t, Record(e, now));
            && t'.groups.Keys == t'.seen.Keys == Prepared(t.groups, e.fingerprint, c.maxGroups, c.ttl, now).Keys
            && t'.seen[e.fingerprint] == Before(c, t, e.fingerprint, now) + [Seen(EventTime(e, now), SampleOf(e.raw, e.message))]
            && forall k :: k in t'.groups && k != e.fingerprint ==>
                 k in t.groups && t'.groups[k] == t.groups[k] && t'.seen[k] == t.seen[k] && now < t.groups[k].updatedAt + c.ttl
  {
    SeenKeys(c, t, e, now);
    PreparedFacts(c, t.groups, e.fingerprint, now);
  }

  lemma OwnGroupMatches(c: Limits, t: Tracked, e: Event, now: int)
    requires ValidLimits(c) && |t.groups| <= c.maxGroups && t.seen.Keys == t.groups.Keys && Acceptable(e)
    requires e.timestamp >= ZERO_TIME && now > ZERO_TIME
    requires e.fingerprint in t.groups ==>
               KeyInv(e.fingerprint, t.groups[e.fingerprint], t.seen[e.fingerprint], e.rule, c.maxSamples)
    ensures var fp := e.fingerprint;
            var h := Before(c, t, fp, now) + [Seen(EventTime(e, now), SampleOf(e.raw, e.message))];
            var (groups', result) := RecordStep(t.groups, e, c.maxGroups, c.ttl, c.maxSamples, now);
            && fp in groups' && groups'[fp].updatedAt == now
            && KeyInv(fp, groups'[fp], h, e.rule, c.maxSamples)
            && result == NaiveResult(fp, h, e.rule, c.maxSamples)
  {
    var fp, h := e.fingerprint, Before(c, t, e.fingerprint, now);
    var s := Seen(EventTime(e, now), SampleOf(e.raw, e.message));
    var g := Prepared(t.groups, fp, c.maxGroups, c.ttl, now)[fp];
    PreparedFacts(c, t.groups, fp, now);
    EmptyMatches(fp, e.rule, c.maxSamples);
    assert KeyInv(fp, g, h, e.rule, c.maxSamples);
    RecordMatchesHistory(g, fp, h, e.rule, c.maxSamples, s, now);
  }

  lemma OthersKeepInv(c: Limits, ruleOf: Str -> Rule, t: Tracked, t': Tracked, fp: Str, now: int)
    requires ValidLimits(c) && RunInv(c, ruleOf, t) && fp != []
    requires t'.seen.Keys == t'.groups.Keys && |t'.groups| <= c.maxGroups && fp in t'.groups
    requires KeyInv(fp, t'.groups[fp], t'.seen[fp], ruleOf(fp), c.maxSamples) && t'.groups[fp].updatedAt == now
    requires forall k :: k in t'.groups && k != fp ==>
               k in t.groups && t'.groups[k] == t.groups[k] && t'.seen[k] == t.seen[k] && now < t.groups[k].updatedAt + c.ttl
    ensures RunInv(c, ruleOf, t') && AllFresh(c, t'.groups, now)
  {
    forall k | k in t'.groups ensures KeyInv(k, t'.groups[k], t'.seen[k], ruleOf(k), c.maxSamples) {
      if k != fp {
        assert KeyInv(k, t.groups[k], t.seen[k], ruleOf(k), c.maxSamples);
      }
    }
  }

  lemma RecordKeepsInv(c: Limits, ruleOf: Str -> Rule, t: Tracked, e: Event, now: int)
    requires ValidLimits(c) && RunInv(c, ruleOf, t) && Orderly(ruleOf, Record(e, now)) && Acceptable(e)
    ensures RunInv(c, ruleOf, Apply(c, t, Record(e, now)))
    ensures AllFresh(c, Apply(c, t, Record(e, now)).groups, now)
    ensures RecordStep(t.groups, e, c.maxGroups, c.ttl, c.maxSamples, now).1
         == NaiveResult(e.fingerprint, Apply(c, t, Record(e, now)).seen[e.fingerprint], e.rule, c.maxSamples)
  {
    PreparedFacts(c, t.groups, e.fingerprint, now);
    ApplyShape(c, t, e, now);
    OwnGroupMatches(c, t, e, now);
    var t' := Apply(c, t, Record(e, now));
    var ready := Prepared(t.groups, e.fingerprint, c.maxGroups, c.ttl, now);
    assert |t'.groups| == |t'.groups.Keys| == |ready.Keys| == |ready|;
    OthersKeepInv(c, ruleOf, t, t', e.fingerprint, now);
  }

  lemma QueryKeepsInv(c: Limits, ruleOf: Str -> Rule, t: Tracked, now: int)
    requires RunInv(c, ruleOf, t)
    ensures var t' := Apply(c, t, Query(now)); RunInv(c, ruleOf, t') && AllFresh(c, t'.groups, now)
  {
    SubmapSize(Unexpired(t.groups, now, c.ttl), t.groups);
    assert Apply(c, t, Query(now)).seen.Keys == Unexpired(t.groups, now, c.ttl).Keys;
  }

  lemma RejectedChangesNothing(c: Limits, t: Tracked, e: Event, now: int)
    requires t.seen.Keys == t.groups.Keys && !Acceptable(e)
    ensures Apply(c, t, Record(e, now)) == t
  {
    assert Apply(c, t, Record(e, now)).seen == t.seen;
  }

  /** Over every run, each group is the naive recomputation from its own fingerprint's events
      since it was created, whatever happened to other groups; the group count respects its
      limit, no key is empty, and after the last operation no survivor is past its TTL. */
  lemma {:induction false} RunMatchesHistory(c: Limits, ruleOf: Str -> Rule, ops: seq<Op>)
    requires ValidLimits(c) && forall i :: 0 <= i < |ops| ==> Orderly(ruleOf, ops[i])
    ensures RunInv(c, ruleOf, Run(c, ops))
    ensures ops != [] && (ops[|ops| - 1].Record? ==> Acceptable(ops[|ops| - 1].event)) ==>
              AllFresh(c, Run(c, ops).groups, ops[|ops| - 1].now)
  {
    if ops != [] {
      var init, op := ops[..|ops| - 1], ops[|ops| - 1];
      RunMatchesHistory(c, ruleOf, init);
      var t := Run(c, init);
      match op
      case Query(now) => QueryKeepsInv(c, ruleOf, t, now);
      case Record(e, now) =>
        if Acceptable(e) {
          RecordKeepsInv(c, ruleOf, t, e, now);
        } else {
          RejectedChangesNothing(c, t, e, now);
        }
    }
  }

  /** The result of any Record at the end of any run is the naive one. */
  lemma RecordResultIsNaive(c: Limits, ruleOf: Str -> Rule, ops: seq<Op>, e: Event, now: int)
    requires ValidLimits(c) && (forall i :: 0 <= i < |ops| ==> Orderly(ruleOf, ops[i]))
    requires Orderly(ruleOf, Record(e, now)) && Acceptable(e)
    ensures var t := Run(c, ops);
            RecordStep(t.groups, e, c.maxGroups, c.ttl, c.maxSamples, now).1
            == NaiveResult(e.fingerprint, Apply(c, t, Record(e, now)).seen[e.fingerprint], e.rule, c.maxSamples)
  {
    RunMatchesHistory(c, ruleOf, ops);
    RecordKeepsInv(c, ruleOf, Run(c, ops), e, now);
  }
}
