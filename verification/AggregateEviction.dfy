/** Which groups a run of the aggregator holds, and what each of them has seen, told from the
    operations alone: a group goes when it is past its time to live or makes room, and not
    otherwise. */
module AggregateEviction {
  import opened Common
  import opened Aggregate
  import opened AggregateHistory

  /** Record takes the event: it has a fingerprint and sound aggregation settings. */
  predicate Takes(op: Op) {
    op.Record? && op.event.fingerprint != []
    && !(op.event.rule.threshold <= 0 || op.event.rule.window <= 0 || op.event.rule.cooldown < 0)
  }

  predicate Records(op: Op, k: Str) { Takes(op) && op.event.fingerprint == k }

  /** The clock at the last event taken for k. */
  function LastUpdate(ops: seq<Op>, k: Str): (now: int) {
    if ops == [] then ZERO_TIME
    else if Records(ops[|ops| - 1], k) then ops[|ops| - 1].now
    else LastUpdate(ops[..|ops| - 1], k)
  }

  ghost function Held(c: Limits, ops: seq<Op>): (keys: set<Str>) { Run(c, ops).groups.Keys }

  /** The groups held that are within their time to live at now. */
  ghost function Live(c: Limits, ops: seq<Op>, now: int): (keys: set<Str>) {
    set k | k in Held(c, ops) && now - LastUpdate(ops, k) < c.ttl
  }

  /** k is updated before m, or at the same time and comes first as a string. */
  ghost predicate Staler(ops: seq<Op>, k: Str, m: Str) {
    LastUpdate(ops, k) < LastUpdate(ops, m) || (LastUpdate(ops, k) == LastUpdate(ops, m) && exists i: nat :: DiffersAt(k, m, i))
  }

  /** k makes room: a new fingerprint arrives, the live groups are as many as there may be, and
      k is the stalest of them. */
  ghost predicate Victim(c: Limits, ops: seq<Op>, op: Op, k: Str) {
    var live := Live(c, ops, op.now);
    Takes(op) && op.event.fingerprint !in live && |live| == c.maxGroups
    && k in live && forall m :: m in live && m != k ==> Staler(ops, k, m)
  }

  // ------------------------------------------------------------ every run's groups

  ghost predicate Shape(c: Limits, ops: seq<Op>, t: Tracked) {
    && |t.groups| <= c.maxGroups && t.seen.Keys == t.groups.Keys
    && forall k :: k in t.groups ==> t.groups[k].updatedAt == LastUpdate(ops, k)
  }

  lemma RecordShape(c: Limits, ops: seq<Op>, t: Tracked, op: Op)
    requires ValidLimits(c) && Shape(c, ops, t) && Takes(op)
    ensures Shape(c, ops + [op], Apply(c, t, op))
  {
    var e, now, all := op.event, op.now, ops + [op];
    var t' := Apply(c, t, op);
    PreparedFacts(c, t.groups, e.fingerprint, now);
    ApplyShape(c, t, e, now);
    var ready := Prepared(t.groups, e.fingerprint, c.maxGroups, c.ttl, now);
    assert |t'.groups| == |t'.groups.Keys| == |ready.Keys| == |ready|;
    assert all[..|all| - 1] == ops;
    assert t'.groups[e.fingerprint].updatedAt == now;
  }

  lemma OtherShape(c: Limits, ops: seq<Op>, t: Tracked, op: Op)
    requires Shape(c, ops, t) && !Takes(op)
    ensures Shape(c, ops + [op], Apply(c, t, op))
  {
    var all := ops + [op];
    assert all[..|all| - 1] == ops;
    if op.Query? {
      SubmapSize(Unexpired(t.groups, op.now, c.ttl), t.groups);
      assert Apply(c, t, op).seen.Keys == Unexpired(t.groups, op.now, c.ttl).Keys;
    } else {
      RejectedChangesNothing(c, t, op.event, op.now);
    }
  }

  lemma {:induction false} RunShape(c: Limits, ops: seq<Op>)
    requires ValidLimits(c)
    ensures Shape(c, ops, Run(c, ops))
  {
    if ops != [] {
      var init, op := ops[..|ops| - 1], ops[|ops| - 1];
      RunShape(c, init);
      assert init + [op] == ops;
      if Takes(op) {
        RecordShape(c, init, Run(c, init), op);
      } else {
        OtherShape(c, init, Run(c, init), op);
      }
    }
  }

  lemma LiveIsUnexpired(c: Limits, ops: seq<Op>, now: int)
    requires ValidLimits(c)
    ensures Unexpired(Run(c, ops).groups, now, c.ttl).Keys == Live(c, ops, now)
  {
    RunShape(c, ops);
  }

  lemma OlderIsStaler(ops: seq<Op>, groups: Groups, k: Str, m: Str)
    requires k in groups && m in groups
    requires groups[k].updatedAt == LastUpdate(ops, k) && groups[m].updatedAt == LastUpdate(ops, m)
    ensures Older(groups, k, m) <==> Staler(ops, k, m)
  {
    LessIff(k, m);
  }

  /** The group that makes room is the one the operations tell. */
  lemma RoomIsVictim(c: Limits, ops: seq<Op>, op: Op, k: Str)
    requires ValidLimits(c) && Takes(op) && op.event.fingerprint !in Live(c, ops, op.now) && k in Live(c, ops, op.now)
    ensures k in MadeRoom(Unexpired(Run(c, ops).groups, op.now, c.ttl), c.maxGroups) <==> !Victim(c, ops, op, k)
  {
    RunShape(c, ops);
    LiveIsUnexpired(c, ops, op.now);
    var live := Unexpired(Run(c, ops).groups, op.now, c.ttl);
    SubmapSize(live, Run(c, ops).groups);
    assert |live| == |live.Keys|;
    forall m | m in live && m != k ensures Older(live, k, m) <==> Staler(ops, k, m) {
      OlderIsStaler(ops, live, k, m);
    }
    if |live| == c.maxGroups {
      if IsOldest(live, k) {
        OldestIsUnique(live, k, Oldest(live));
      }
      assert Victim(c, ops, op, k) <==> IsOldest(live, k);
    }
  }

  /** A group is there after an operation if and only if the operation recorded it, or it was
      there, is within its time to live and is not the one that made room. An operation that
      is refused leaves all groups. */
  lemma SurvivesIff(c: Limits, ops: seq<Op>, op: Op, k: Str)
    requires ValidLimits(c)
    ensures k in Held(c, ops + [op]) <==>
              || Records(op, k)
              || (k in Held(c, ops) && ((op.Record? && !Takes(op))
                                        || (op.now - LastUpdate(ops, k) < c.ttl && !Victim(c, ops, op, k))))
  {
    assert (ops + [op])[..|ops|] == ops;
    RunShape(c, ops);
    LiveIsUnexpired(c, ops, op.now);
    var t := Run(c, ops);
    if Takes(op) {
      ApplyShape(c, t, op.event, op.now);
      if op.event.fingerprint !in Live(c, ops, op.now) && k in Live(c, ops, op.now) {
        RoomIsVictim(c, ops, op, k);
      }
    } else if op.Record? {
      RejectedChangesNothing(c, t, op.event, op.now);
    }
  }

  // -------------------------------------------------------- what a group has seen

  /** The events taken for k since its group was created: each has the time of its record, or
      the clock's if the record has none, and its raw line, or its message if there is none. */
  ghost function Story(c: Limits, ops: seq<Op>, k: Str): (h: History) {
    if ops == [] then []
    else
      var init, op := ops[..|ops| - 1], ops[|ops| - 1];
      if !Records(op, k) then Story(c, init, k)
      else
        var e := op.event;
        (if k in Live(c, init, op.now) then Story(c, init, k) else [])
        + [Seen(if e.timestamp == ZERO_TIME then op.now else e.timestamp, if e.raw == [] then e.message else e.raw)]
  }

  /** Over every run the history of a group is that story. */
  lemma {:induction false} SeenIsStory(c: Limits, ops: seq<Op>, k: Str)
    requires ValidLimits(c) && k in Held(c, ops)
    ensures k in Run(c, ops).seen && Run(c, ops).seen[k] == Story(c, ops, k)
  {
    RunShape(c, ops);
    var init, op := ops[..|ops| - 1], ops[|ops| - 1];
    assert init + [op] == ops;
    RunShape(c, init);
    LiveIsUnexpired(c, init, op.now);
    if k in Held(c, init) {
      SeenIsStory(c, init, k);
    }
    if Takes(op) {
      ApplyShape(c, Run(c, init), op.event, op.now);
    }
  }

  /** The result of any Record at the end of any run is the naive one of the story so far and
      the event. */
  lemma RecordResultIsTold(c: Limits, ruleOf: Str -> Rule, ops: seq<Op>, op: Op)
    requires ValidLimits(c) && (forall i :: 0 <= i < |ops| ==> Orderly(ruleOf, ops[i]))
    requires Orderly(ruleOf, op) && Takes(op)
    ensures RecordStep(Run(c, ops).groups, op.event, c.maxGroups, c.ttl, c.maxSamples, op.now).1
         == NaiveResult(op.event.fingerprint, Story(c, ops + [op], op.event.fingerprint), op.event.rule, c.maxSamples)
  {
    var all := ops + [op];
    assert all[..|all| - 1] == ops;
    RecordResultIsNaive(c, ruleOf, ops, op.event, op.now);
    SurvivesIff(c, ops, op, op.event.fingerprint);
    SeenIsStory(c, all, op.event.fingerprint);
  }
}
