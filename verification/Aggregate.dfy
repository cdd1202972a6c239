/** The incident aggregator: per-fingerprint sliding window, cooldown, suppression, TTL and
    capacity eviction. Model of internal/aggregate/aggregate.go; the clock is an argument. */
module Aggregate {
  import opened Common

  /** The aggregation settings of a rule. */
  datatype Rule = Rule(id: Str, threshold: int, window: int, cooldown: int)

  datatype Event = Event(rule: Rule, fingerprint: Str, timestamp: int, raw: Str, message: Str)

  datatype EventState = EventState(
    fingerprint: Str, firstSeen: int, lastSeen: int, windowCount: nat, totalCount: nat,
    lastAlertAt: int, cooldownUntil: int, suppressedCount: nat,
    firstSample: Str, latestSample: Str, samples: seq<Str>)

  datatype Result = Result(alert: bool, suppressed: bool, suppressedCount: nat, state: EventState)

  datatype Group = Group(state: EventState, timestamps: seq<int>, watermark: int, updatedAt: int)

  type Groups = map<Str, Group>

  // ------------------------------------------------------------- one group

  predicate Sorted(s: seq<int>) { forall i, j :: 0 <= i <= j < |s| ==> s[i] <= s[j] }

  /** v placed after every element that is not larger. */
  function Inserted(s: seq<int>, v: int): (r: seq<int>)
    ensures |r| == |s| + 1
  {
    if s == [] || s[0] > v then [v] + s else [s[0]] + Inserted(s[1..], v)
  }

  function SampleOf(raw: Str, message: Str): Str { if raw != [] then raw else message }

  function AddSample(state: EventState, value: Str, max: int): EventState {
    var s := state.(firstSample := if state.firstSample == [] then value else state.firstSample, latestSample := value);
    if value in s.samples || |s.samples| >= max then s else s.(samples := s.samples + [value])
  }

  function EmptyGroup(fingerprint: Str): Group {
    Group(EventState(fingerprint, 0, 0, 0, 0, 0, 0, 0, [], [], []), [], ZERO_TIME, ZERO_TIME)
  }

  /** The window after one event: expired times out, the event's own in if it is not too old. */
  function Slid(timestamps: seq<int>, cutoff: int, t: int): (r: seq<int>) {
    var kept := AtLeast(timestamps, cutoff);
    if t >= cutoff then Inserted(kept, t) else kept
  }

  function Watermark(g: Group, t: int): int { if g.watermark < t then t else g.watermark }

  /** The counters and samples after one event, before any alert decision. */
  function Counted(state: EventState, t: int, windowCount: nat, sample: Str, maxSamples: int): EventState {
    AddSample(state.(
                firstSeen := if state.firstSeen == ZERO_TIME || t < state.firstSeen then t else state.firstSeen,
                lastSeen := if state.lastSeen == ZERO_TIME || t > state.lastSeen then t else state.lastSeen,
                totalCount := state.totalCount + 1,
                windowCount := windowCount), sample, maxSamples)
  }

  function Absorb(g: Group, rule: Rule, t: int, sample: Str, maxSamples: int, now: int): Group {
    var watermark := Watermark(g, t);
    var timestamps := Slid(g.timestamps, watermark - rule.window, t);
    Group(Counted(g.state, t, |timestamps|, sample, maxSamples), timestamps, watermark, now)
  }

  function Raise(state: EventState, t: int, cooldown: int): Result {
    Result(true, false, state.suppressedCount, state.(lastAlertAt := t, cooldownUntil := t + cooldown, suppressedCount := 0))
  }

  /** The alert decision. */
  function Decide(state: EventState, rule: Rule, t: int): Result {
    var silent := Result(false, false, 0, state);
    if state.lastAlertAt == ZERO_TIME then
      if state.windowCount >= rule.threshold then Raise(state, t, rule.cooldown) else silent
    else if t < state.cooldownUntil then
      Result(false, true, 0, state.(suppressedCount := state.suppressedCount + 1))
    else if state.windowCount >= rule.threshold then Raise(state, t, rule.cooldown)
    else silent
  }

  function RecordInGroup(g: Group, rule: Rule, t: int, sample: Str, maxSamples: int, now: int): (r: (Group, Result)) {
    var g1 := Absorb(g, rule, t, sample, maxSamples, now);
    var result := Decide(g1.state, rule, t);
    (g1.(state := result.state), result)
  }

  // ------------------------------------------------------------- all groups

  function Unexpired(groups: Groups, now: int, ttl: int): (r: Groups) {
    map k | k in groups && now < groups[k].updatedAt + ttl :: groups[k]
  }

  predicate Older(groups: Groups, a: Str, b: Str)
    requires a in groups && b in groups
  {
    groups[a].updatedAt < groups[b].updatedAt || (groups[a].updatedAt == groups[b].updatedAt && Less(a, b))
  }

  /** k is the least recently updated group, fingerprints breaking ties. */
  ghost predicate IsOldest(groups: Groups, k: Str) {
    k in groups && forall m :: m in groups && m != k ==> Older(groups, k, m)
  }

  /** There is exactly one such group, so map iteration order cannot matter. */
  lemma OldestIsUnique(groups: Groups, a: Str, b: Str)
    requires IsOldest(groups, a) && IsOldest(groups, b)
    ensures a == b
  {
    LessTrichotomy(a, b);
  }

  lemma OlderTransitive(groups: Groups, a: Str, b: Str, c: Str)
    requires a in groups && b in groups && c in groups && Older(groups, a, b) && Older(groups, b, c)
    ensures Older(groups, a, c)
  {
    if groups[a].updatedAt == groups[b].updatedAt == groups[c].updatedAt {
      LessTransitive(a, b, c);
    }
  }

  lemma OldestExists(groups: Groups, keys: set<Str>) returns (k: Str)
    requires keys <= groups.Keys && keys != {}
    ensures k in keys && forall m :: m in keys && m != k ==> Older(groups, k, m)
  {
    var x :| x in keys;
    if keys == {x} {
      return x;
    }
    k := OldestExists(groups, keys - {x});
    LessTrichotomy(k, x);
    if Older(groups, x, k) {
      forall m | m in keys && m != x ensures Older(groups, x, m) {
        if m != k {
          OlderTransitive(groups, x, k, m);
        }
      }
      k := x;
    }
  }

  ghost function Oldest(groups: Groups): (k: Str)
    requires groups != map[]
    ensures IsOldest(groups, k)
  {
    assert exists k :: IsOldest(groups, k) by {
      assert groups.Keys != {};
      var k := OldestExists(groups, groups.Keys);
      assert IsOldest(groups, k);
    }
    var k :| IsOldest(groups, k);
    k
  }

  /** Room for one more group. */
  ghost function MadeRoom(groups: Groups, maxGroups: nat): (r: Groups) {
    if |groups| < maxGroups || groups == map[] then groups else groups - {Oldest(groups)}
  }

  predicate Acceptable(e: Event) {
    e.fingerprint != [] && e.rule.threshold > 0 && e.rule.window > 0 && e.rule.cooldown >= 0
  }

  function EventTime(e: Event, now: int): int { if e.timestamp == ZERO_TIME then now else e.timestamp }

  /** The groups among which an event of the given fingerprint is recorded. */
  ghost function Prepared(groups: Groups, fingerprint: Str, maxGroups: nat, ttl: int, now: int): (r: Groups) {
    var live := Unexpired(groups, now, ttl);
    if fingerprint in live then live else MadeRoom(live, maxGroups)[fingerprint := EmptyGroup(fingerprint)]
  }

  /** One accepted Record. */
  ghost function RecordStep(groups: Groups, e: Event, maxGroups: nat, ttl: int, maxSamples: int, now: int): (r: (Groups, Result)) {
    var ready := Prepared(groups, e.fingerprint, maxGroups, ttl, now);
    var (g, result) := RecordInGroup(ready[e.fingerprint], e.rule, EventTime(e, now), SampleOf(e.raw, e.message), maxSamples, now);
    (ready[e.fingerprint := g], result)
  }

  // ---------------------------------------------- binary search and the window

  /** sort.Search for the first element at least (or, if after, above) the pivot. */
  method Search(values: seq<int>, pivot: int, after: bool) returns (index: nat)
    requires Sorted(values)
    ensures index <= |values|
    ensures forall i :: 0 <= i < index ==> if after then values[i] <= pivot else values[i] < pivot
    ensures forall i :: index <= i < |values| ==> if after then values[i] > pivot else values[i] >= pivot
  {
    var low, high := 0, |values|;
    while low < high
      invariant 0 <= low <= high <= |values|
      invariant forall i :: 0 <= i < low ==> if after then values[i] <= pivot else values[i] < pivot
      invariant forall i :: high <= i < |values| ==> if after then values[i] > pivot else values[i] >= pivot
    {
      var mid := (low + high) / 2;
      if (if after then values[mid] > pivot else values[mid] >= pivot) {
        high := mid;
      } else {
        low := mid + 1;
      }
    }
    index := low;
  }

  lemma {:induction false} AtLeastIsSuffix(s: seq<int>, bound: int, index: nat)
    requires index <= |s|
    requires forall i :: 0 <= i < index ==> s[i] < bound
    requires forall i :: index <= i < |s| ==> s[i] >= bound
    ensures AtLeast(s, bound) == s[index..]
  {
    if s != [] {
      if index == 0 {
        AtLeastIsSuffix(s[1..], bound, 0);
        assert s == [s[0]] + s[1..];
      } else {
        AtLeastIsSuffix(s[1..], bound, index - 1);
        assert s[index..] == s[1..][index - 1..];
      }
    }
  }

  lemma {:induction false} InsertedIsSplit(s: seq<int>, v: int, index: nat)
    requires index <= |s|
    requires forall i :: 0 <= i < index ==> s[i] <= v
    requires index < |s| ==> s[index] > v
    ensures Inserted(s, v) == s[..index] + [v] + s[index..]
  {
    if index > 0 {
      InsertedIsSplit(s[1..], v, index - 1);
      assert s[..index] == [s[0]] + s[1..][..index - 1] && s[index..] == s[1..][index - 1..];
    } else if s != [] {
      assert s[..0] + [v] + s[0..] == [v] + s;
    }
  }

  // A Go slice is the first `length` elements of an array.

  method ToSlice(times: seq<int>) returns (values: array<int>)
    ensures fresh(values) && values.Length == |times| && values[..|times|] == times
  {
    values := new int[|times|](i requires 0 <= i < |times| => times[i]);
    assert values[..|times|] == times;
  }

  /** The window's slice: expired times out, the event's own in if it is not too old. */
  method SlideSlice(times: seq<int>, cutoff: int, eventTime: int) returns (timestamps: seq<int>)
    requires Sorted(times)
    ensures timestamps == Slid(times, cutoff, eventTime) && Sorted(timestamps)
  {
    var values := ToSlice(times);
    var length := DiscardBefore(values, |times|, cutoff);
    if !(eventTime < cutoff) {
      values := InsertTimestamp(values, length, eventTime);
      length := length + 1;
    }
    timestamps := values[..length];
  }

  /** Moves the times from the cutoff on to the front of the slice. */
  method DiscardBefore(values: array<int>, length: nat, cutoff: int) returns (kept: nat)
    requires length <= values.Length && Sorted(values[..length])
    modifies values
    ensures kept <= length && values[..kept] == AtLeast(old(values[..length]), cutoff) && Sorted(values[..kept])
  {
    ghost var s := values[..length];
    var index := Search(values[..length], cutoff, false);
    AtLeastIsSuffix(s, cutoff, index);
    kept := length - index;
    for i := 0 to kept
      invariant forall k :: 0 <= k < i ==> values[k] == s[index + k]
      invariant forall k :: i <= k < length ==> values[k] == s[k]
    {
      values[i] := values[index + i];
    }
    assert values[..kept] == s[index..];
  }

  /** The slice with room for one more element, in place if the capacity allows it. */
  method Grow(values: array<int>, length: nat) returns (r: array<int>)
    requires length <= values.Length
    modifies values
    ensures (r == values || fresh(r)) && length < r.Length && r[..length] == old(values[..length])
  {
    if length < values.Length {
      r := values;
    } else {
      r := new int[2 * length + 1];
      for i := 0 to length
        invariant forall k :: 0 <= k < i ==> r[k] == values[k]
        invariant values[..length] == old(values[..length])
      {
        r[i] := values[i];
      }
      assert r[..length] == values[..length];
    }
  }

  /** Moves the elements from index on by one place, last first, and fills the gap. */
  method ShiftIn(r: array<int>, length: nat, index: nat, value: int)
    requires index <= length < r.Length
    modifies r
    ensures r[..length + 1] == old(r[..index]) + [value] + old(r[index..length])
  {
    ghost var s := r[..length];
    var j := length;
    while j > index
      invariant index <= j <= length
      invariant forall k :: 0 <= k < j ==> r[k] == s[k]
      invariant forall k :: j < k <= length ==> r[k] == s[k - 1]
    {
      r[j] := r[j - 1];
      j := j - 1;
    }
    r[index] := value;
    assert r[..length + 1] == s[..index] + [value] + s[index..];
    assert s[..index] == old(r[..index]) && s[index..] == old(r[index..length]);
  }

  method InsertTimestamp(values: array<int>, length: nat, value: int) returns (r: array<int>)
    requires length <= values.Length && Sorted(values[..length])
    modifies values
    ensures (r == values || fresh(r)) && length < r.Length
    ensures r[..length + 1] == Inserted(old(values[..length]), value) && Sorted(r[..length + 1])
  {
    ghost var s := values[..length];
    var index := Search(values[..length], value, true);
    InsertedIsSplit(s, value, index);
    r := Grow(values, length);
    assert r[..index] == s[..index] && r[index..length] == s[index..];
    ShiftIn(r, length, index, value);
  }

  // ---------------------------------------------------------- the aggregator

  class Aggregator {
    const maxGroups: nat
    const groupTTL: int
    const maxSamples: int
    var groups: Groups

    ghost predicate Valid() reads this {
      && 0 < maxGroups && 0 < groupTTL && 0 < maxSamples
      && |groups| <= maxGroups && [] !in groups
      && forall k :: k in groups ==> Sorted(groups[k].timestamps)
    }

    constructor (maxGroups: nat, groupTTL: int, maxSamples: int)
      requires 0 < maxGroups && 0 < groupTTL && 0 < maxSamples
      ensures Valid() && groups == map[]
      ensures this.maxGroups == maxGroups && this.groupTTL == groupTTL && this.maxSamples == maxSamples
    {
      this.maxGroups, this.groupTTL, this.maxSamples := maxGroups, groupTTL, maxSamples;
      groups := map[];
    }

    method EvictExpired(now: int)
      requires Valid()
      modifies this
      ensures Valid() && groups == old(Unexpired(groups, now, groupTTL))
    {
      var keys := groups.Keys;
      var result := groups;
      while keys != {}
        invariant keys <= result.Keys <= groups.Keys
        invariant forall k :: k in groups ==> (k in result <==> k in keys || now < groups[k].updatedAt + groupTTL)
        invariant forall k :: k in result ==> result[k] == groups[k]
        decreases |keys|
      {
        var k :| k in keys;
        keys := keys - {k};
        if !(now < groups[k].updatedAt + groupTTL) {
          result := result - {k};
        }
      }
      SubmapSize(result, groups);
      groups := result;
    }

    /** The scan for the oldest group; any iteration order finds the same victim. */
    method FindOldest() returns (oldestKey: Str)
      requires Valid() && groups != map[]
      ensures IsOldest(groups, oldestKey)
    {
      var keys := groups.Keys;
      oldestKey := [];
      var oldestTime := ZERO_TIME;
      while keys != {}
        invariant keys <= groups.Keys
        invariant oldestKey == [] <==> keys == groups.Keys
        invariant oldestKey != [] ==> oldestKey in groups && oldestKey !in keys && oldestTime == groups[oldestKey].updatedAt
        invariant oldestKey != [] ==> forall m :: m in groups && m !in keys && m != oldestKey ==> Older(groups, oldestKey, m)
        decreases |keys|
      {
        var k :| k in keys;
        LessTrichotomy(k, oldestKey);
        if oldestKey == [] || groups[k].updatedAt < oldestTime || (groups[k].updatedAt == oldestTime && Less(k, oldestKey)) {
          if oldestKey != [] {
            forall m | m in groups && m !in keys && m != oldestKey ensures Older(groups, k, m) {
              OlderTransitive(groups, k, oldestKey, m);
            }
          }
          oldestKey, oldestTime := k, groups[k].updatedAt;
        }
        keys := keys - {k};
        assert k in groups.Keys && k !in keys;
      }
    }

    method EvictForInsert()
      requires Valid()
      modifies this
      ensures groups == old(MadeRoom(groups, maxGroups))
      ensures Valid() && |groups| < maxGroups
    {
      if |groups| < maxGroups {
        return;
      }
      var oldestKey := FindOldest();
      OldestIsUnique(groups, oldestKey, Oldest(groups));
      groups := groups - {oldestKey};
    }

    method SlideWindow(item: Group, window: int, eventTime: int) returns (timestamps: seq<int>, watermark: int)
      requires Sorted(item.timestamps)
      ensures watermark == Watermark(item, eventTime)
      ensures timestamps == Slid(item.timestamps, watermark - window, eventTime) && Sorted(timestamps)
    {
      watermark := item.watermark;
      if watermark < eventTime {
        watermark := eventTime;
      }
      var cutoff := watermark - window;
      timestamps := SlideSlice(item.timestamps, cutoff, eventTime);
    }

    method CountEvent(item: EventState, eventTime: int, windowCount: nat, sample: Str) returns (state: EventState)
      ensures state == Counted(item, eventTime, windowCount, sample, maxSamples)
    {
      state := item;
      if state.firstSeen == ZERO_TIME || eventTime < state.firstSeen {
        state := state.(firstSeen := eventTime);
      }
      if state.lastSeen == ZERO_TIME || eventTime > state.lastSeen {
        state := state.(lastSeen := eventTime);
      }
      state := state.(totalCount := state.totalCount + 1, windowCount := windowCount);
      state := AddSample(state, sample, maxSamples);
    }

    /** The part of Record that works on the group of the event. */
    method UpdateGroup(item: Group, rule: Rule, eventTime: int, sample: Str, now: int) returns (g: Group, result: Result)
      requires Sorted(item.timestamps)
      ensures (g, result) == RecordInGroup(item, rule, eventTime, sample, maxSamples, now)
      ensures Sorted(g.timestamps)
    {
      var timestamps, watermark := SlideWindow(item, rule.window, eventTime);
      var state := CountEvent(item.state, eventTime, |timestamps|, sample);
      result := Result(false, false, 0, state);
      if state.lastAlertAt == ZERO_TIME {
        if state.windowCount >= rule.threshold {
          result := Raise(state, eventTime, rule.cooldown);
        }
      } else if eventTime < state.cooldownUntil {
        result := Result(false, true, 0, state.(suppressedCount := state.suppressedCount + 1));
      } else if state.windowCount >= rule.threshold {
        result := Raise(state, eventTime, rule.cooldown);
      }
      g := Group(result.state, timestamps, watermark, now);
    }

    /** None when the event is rejected, which leaves everything as it was. */
    method Record(event: Event, now: int) returns (r: Option<Result>)
      requires Valid()
      modifies this
      ensures Valid()
      ensures r.None? <==> !Acceptable(event)
      ensures r.None? ==> groups == old(groups)
      ensures r.Some? ==> (groups, r.value) == old(RecordStep(groups, event, maxGroups, groupTTL, maxSamples, now))
    {
      if event.fingerprint == [] {
        return None;
      }
      if event.rule.threshold <= 0 || event.rule.window <= 0 || event.rule.cooldown < 0 {
        return None;
      }
      EvictExpired(now);
      if event.fingerprint !in groups {
        EvictForInsert();
        groups := groups[event.fingerprint := EmptyGroup(event.fingerprint)];
      }
      var eventTime := if event.timestamp == ZERO_TIME then now else event.timestamp;
      var item, result := UpdateGroup(groups[event.fingerprint], event.rule, eventTime,
                                      SampleOf(event.raw, event.message), now);
      groups := groups[event.fingerprint := item];
      r := Some(result);
    }

    method Len(now: int) returns (n: nat)
      requires Valid()
      modifies this
      ensures Valid() && groups == old(Unexpired(groups, now, groupTTL)) && n == |groups|
    {
      EvictExpired(now);
      n := |groups|;
    }
  }

  /** New; null stands for its error. */
  method NewAggregator(maxGroups: int, groupTTL: int, maxSamples: int) returns (a: Aggregator?)
    ensures a == null <==> maxGroups <= 0 || groupTTL <= 0 || maxSamples <= 0
    ensures a != null ==> fresh(a) && a.Valid() && a.groups == map[]
                          && a.maxGroups == maxGroups && a.groupTTL == groupTTL && a.maxSamples == maxSamples
  {
    if maxGroups <= 0 || groupTTL <= 0 || maxSamples <= 0 {
      return null;
    }
    a := new Aggregator(maxGroups, groupTTL, maxSamples);
  }

  lemma SubmapSize(a: Groups, b: Groups)
    requires a.Keys <= b.Keys
    ensures |a| <= |b|
  {
    SubsetSize(a.Keys, b.Keys);
    assert |a| == |a.Keys| && |b| == |b.Keys|;
  }

  lemma {:induction false} SubsetSize(a: set<Str>, b: set<Str>)
    requires a <= b
    ensures |a| <= |b|
  {
    assert b == a + (b - a);
  }
}
