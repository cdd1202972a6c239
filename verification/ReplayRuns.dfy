/** Classes of runs of the replay protocol, the three ways in which a run can go wrong, and the
    moves from which such runs are built. */
module ReplayRuns {
  import opened Common
  import opened Replay
  import opened CheckpointStore
  import opened Observer
  import opened ReplayProtocol

  // ------------------------------------------------------------ classes of runs

  /** Which records log rotation may take: none; those older than the durable checkpoint; also
      those of the checkpoint's own time, read or not. */
  datatype Rotation = Never | Older | SameTime

  /** What the runs of a class may contain: log rotation; a replay-start load that fails while
      the store holds no checkpoint of the container; a watcher's clock that disagrees with
      the timestamps of the records. */
  datatype Allowed = Allowed(rotation: Rotation, failedStarts: bool, skewedClock: bool)

  predicate Timed(step: Step) { step.Emit? || step.ResolveStart? }

  function TimeOf(step: Step): int
    requires Timed(step)
  {
    if step.Emit? then step.record.timestamp else step.now
  }

  /** One clock serves the records and the watcher. */
  predicate Timely(run: seq<Step>) {
    forall i, j :: 0 <= i < j < |run| && Timed(run[i]) && Timed(run[j]) ==> TimeOf(run[i]) <= TimeOf(run[j])
  }

  predicate FailedStart(e: Env, s: Sys, step: Step) { step == StartLoad(false) && Unsaved(e, s.store) }

  /** No replay-start load of the run fails before the container's first checkpoint. */
  ghost predicate Careful(e: Env, s: Sys, run: seq<Step>)
    decreases |run|
  {
    run != [] ==> Enabled(e, s, run[0]) && !FailedStart(e, s, run[0]) && Careful(e, Perform(e, s, run[0]), run[1..])
  }

  predicate RotatesAs(e: Env, kind: Rotation, s: Sys, step: Step)
    requires Enabled(e, s, step)
  {
    step.Rotate? ==> match kind
                     case Never => false
                     case Older => step.upTo == 0 || s.log[step.upTo - 1].timestamp < s.store.durable[e.name].lastTimestamp
                     case SameTime => true
  }

  ghost predicate Rotating(e: Env, kind: Rotation, s: Sys, run: seq<Step>)
    decreases |run|
  {
    run != [] ==> Enabled(e, s, run[0]) && RotatesAs(e, kind, s, run[0]) && Rotating(e, kind, Perform(e, s, run[0]), run[1..])
  }

  ghost predicate Permitted(e: Env, a: Allowed, s: Sys, run: seq<Step>) {
    Rotating(e, a.rotation, s, run) && (a.failedStarts || Careful(e, s, run)) && (a.skewedClock || Timely(run))
  }

  /** A run of the class, from a database without this container, that ends in s with this log. */
  ghost predicate Leads(e: Env, log: seq<RawLog>, a: Allowed, others: Table, limit: nat, run: seq<Step>, s: Sys) {
    && e.name !in others && Reaches(e, Initial(others, limit), run, s) && Permitted(e, a, Initial(others, limit), run)
    && s.log == log
  }

  // ------------------------------------------------------------ what can go wrong

  /** No run of the class lets a stored checkpoint pass an unprocessed record. */
  ghost predicate NeverOvertakes(e: Env, log: seq<RawLog>, a: Allowed) {
    forall others: Table, limit: nat, run: seq<Step>, s: Sys :: Leads(e, log, a, others, limit, run, s) ==> !Overtaken(e, s)
  }

  /** No run of the class drains the stream with a record missing. */
  ghost predicate NeverMisses(e: Env, log: seq<RawLog>, a: Allowed) {
    forall others: Table, limit: nat, run: seq<Step>, s: Sys ::
      Leads(e, log, a, others, limit, run, s) && Drained(s) ==> AllProcessed(s)
  }

  /** Nothing of the container's record b is left anywhere: the log has been rotated past it, it
      is not on its way, and it is too old to be written again. */
  ghost predicate Gone(e: Env, s: Sys, b: RawLog) {
    && b.containerName == e.name && s.rotated <= |s.log| && b.timestamp < NewestTime(s.log)
    && (forall i :: s.rotated <= i < |s.log| ==> s.log[i] != b)
    && b !in s.queue && b !in s.inflight
    && forall n :: n in s.obs.gates ==> b !in s.obs.gates[n].buffered
  }

  /** Some record from the base on is gone without having been processed. */
  ghost predicate LostForGood(e: Env, s: Sys) {
    exists b :: b in s.log && s.base <= b.timestamp && b !in s.processed && Gone(e, s, b)
  }

  ghost predicate NeverLosesForGood(e: Env, log: seq<RawLog>, a: Allowed) {
    forall others: Table, limit: nat, run: seq<Step>, s: Sys :: Leads(e, log, a, others, limit, run, s) ==> !LostForGood(e, s)
  }

  predicate GenuineLog(e: Env, log: seq<RawLog>) {
    (forall i :: 0 <= i < |log| ==> Genuine(e, log[i])) && Chronological(log)
  }

  /** p separates the records before time t from those at or after it. */
  predicate Splits(log: seq<RawLog>, t: int, p: nat) {
    && p <= |log| && (forall j :: 0 <= j < p ==> log[j].timestamp < t) && (forall j :: p <= j < |log| ==> t <= log[j].timestamp)
  }

  lemma SeekSplits(log: seq<RawLog>, t: int)
    requires Chronological(log)
    ensures Splits(log, t, SeekTo(log, t))
  {
    var p := SeekTo(log, t);
    assert forall j :: p < j < |log| ==> log[p].timestamp <= log[j].timestamp;
  }

  // ------------------------------------------------------------------ moves

  predicate UpTo(run: seq<Step>, now: int) { forall i :: 0 <= i < |run| && Timed(run[i]) ==> TimeOf(run[i]) <= now }

  /** A fresh start: empty database, flush after ten saves. */
  function Fresh(): Sys { Initial(map[], 10) }

  /** A run of the class on one clock, not beyond `now`. */
  ghost predicate Witness(e: Env, a: Allowed, run: seq<Step>, s: Sys, now: int) {
    && Reaches(e, Fresh(), run, s) && Rotating(e, a.rotation, Fresh(), run) && (a.failedStarts || Careful(e, Fresh(), run))
    && Timely(run) && UpTo(run, now)
  }

  ghost predicate Reachable(e: Env, a: Allowed, s: Sys, now: int) { exists run :: Witness(e, a, run, s, now) }

  lemma {:induction false} ReachesAnd(e: Env, kind: Rotation, s: Sys, run: seq<Step>, s': Sys, step: Step)
    requires Reaches(e, s, run, s') && Enabled(e, s', step)
    ensures Reaches(e, s, run + [step], Perform(e, s', step))
    ensures Careful(e, s, run) && !FailedStart(e, s', step) ==> Careful(e, s, run + [step])
    ensures Rotating(e, kind, s, run) && RotatesAs(e, kind, s', step) ==> Rotating(e, kind, s, run + [step])
    decreases |run|
  {
    if run == [] {
      var s1 := Perform(e, s, step);
      assert Reaches(e, s1, [], s1) && Careful(e, s1, []) && Rotating(e, kind, s1, []);
      assert ([step])[1..] == [];
    } else {
      assert (run + [step])[1..] == run[1..] + [step];
      ReachesAnd(e, kind, Perform(e, s, run[0]), run[1..], s', step);
    }
  }

  function ClockAfter(step: Step, now: int): int { if Timed(step) then TimeOf(step) else now }

  lemma StepIsTimely(run: seq<Step>, step: Step, now: int)
    requires Timely(run) && UpTo(run, now) && (Timed(step) ==> now <= TimeOf(step))
    ensures Timely(run + [step]) && UpTo(run + [step], ClockAfter(step, now))
  {
  }

  lemma Do(e: Env, a: Allowed, s: Sys, now: int, step: Step) returns (s': Sys)
    requires Reachable(e, a, s, now) && Enabled(e, s, step) && RotatesAs(e, a.rotation, s, step)
    requires (Timed(step) ==> now <= TimeOf(step)) && (a.failedStarts || !FailedStart(e, s, step))
    ensures s' == Perform(e, s, step) && Reachable(e, a, s', ClockAfter(step, now))
  {
    s' := Perform(e, s, step);
    var run :| Witness(e, a, run, s, now);
    ReachesAnd(e, a.rotation, Fresh(), run, s, step);
    StepIsTimely(run, step, now);
    assert Witness(e, a, run + [step], s', ClockAfter(step, now));
  }

  lemma Start(e: Env, a: Allowed)
    ensures Reachable(e, a, Fresh(), ZERO_TIME)
  {
    assert Witness(e, a, [], Fresh(), ZERO_TIME);
  }

  /** A run without rotation belongs to every class with rotation, and so on. */
  predicate Within(a: Allowed, b: Allowed) {
    && (a.rotation.Never? || (a.rotation.Older? && !b.rotation.Never?) || b.rotation.SameTime?)
    && (a.failedStarts ==> b.failedStarts)
  }

  lemma {:induction false} RotatingWithin(e: Env, a: Allowed, b: Allowed, s: Sys, run: seq<Step>)
    requires Rotating(e, a.rotation, s, run) && Within(a, b)
    ensures Rotating(e, b.rotation, s, run)
    decreases |run|
  {
    if run != [] {
      RotatingWithin(e, a, b, Perform(e, s, run[0]), run[1..]);
    }
  }

  /** What is reached by a class of runs on one clock is reached by any wider class. */
  lemma Widen(e: Env, a: Allowed, s: Sys, now: int, b: Allowed) returns (run: seq<Step>)
    requires Reachable(e, a, s, now) && Within(a, b)
    ensures Leads(e, s.log, b, map[], 10, run, s)
  {
    run :| Witness(e, a, run, s, now);
    RotatingWithin(e, a, b, Fresh(), run);
  }

  /** Attaching to a container of which nothing is stored. */
  lemma AttachUnsaved(e: Env, a: Allowed, s: Sys, now: int) returns (s': Sys)
    requires Reachable(e, a, s, now) && s.producer.Detached? && Unsaved(e, s.store) && !s.store.closed
    ensures Reachable(e, a, s', now)
    ensures s' == s.(producer := Attached, obs := s'.obs) && s'.obs.gates == s.obs.gates - {e.name}
    ensures s'.obs.initialStarts == s.obs.initialStarts
  {
    s' := Do(e, a, s, now, AttachLoad(true));
    s' := Do(e, a, s', now, AttachGate);
  }

  lemma EmitOne(e: Env, a: Allowed, s: Sys, now: int, r: RawLog)
    requires Reachable(e, a, s, now) && Enabled(e, s, Emit(r)) && now <= r.timestamp
    ensures Reachable(e, a, s.(log := s.log + [r]), r.timestamp)
  {
    var s' := Do(e, a, s, now, Emit(r));
  }

  lemma InitIsGenuine(e: Env, log: seq<RawLog>)
    requires GenuineLog(e, log) && log != []
    ensures GenuineLog(e, log[..|log| - 1]) && log[..|log| - 1] + [log[|log| - 1]] == log
    ensures |log| > 1 ==> log[..|log| - 1][0] == log[0] && log[..|log| - 1][|log| - 2].timestamp <= log[|log| - 1].timestamp
  {
  }

  function NewestOr(log: seq<RawLog>, now: int): int { if log == [] then now else log[|log| - 1].timestamp }

  /** The log grows to its full length while the stream is open. */
  lemma {:induction false} EmitAll(e: Env, a: Allowed, s: Sys, now: int, log: seq<RawLog>)
    requires Reachable(e, a, s, now) && s.log == [] && GenuineLog(e, log) && (log != [] ==> now <= log[0].timestamp)
    ensures Reachable(e, a, s.(log := log), NewestOr(log, now))
  {
    if log == [] {
      assert s.(log := log) == s;
    } else {
      var init, r := log[..|log| - 1], log[|log| - 1];
      InitIsGenuine(e, log);
      EmitAll(e, a, s, now, init);
      EmitOne(e, a, s.(log := init), NewestOr(init, now), r);
    }
  }

  /** The checkpoint a restart or reconnect would find. */
  function Stored(e: Env, s: Sys): LoadResult { LoadStep(s.store, e.name, true) }

  lemma SavedIsStored(e: Env, store: StoreState, r: RawLog)
    requires Genuine(e, r) && !store.closing && !store.closed
    ensures var store' := SaveStep(store, CheckpointOf(e.hasher, r), true).0;
            LoadStep(store', e.name, true) == Found(CheckpointOf(e.hasher, r)) && !store'.closing && !store'.closed
  {
  }

  lemma StoredIsStored(e: Env, s: Sys)
    requires Stored(e, s).Found?
    ensures IsStored(e, s, Stored(e, s).checkpoint)
  {
  }

  /** A released record is processed and saved. */
  lemma ProcessAndSave(e: Env, a: Allowed, s: Sys, now: int, r: RawLog) returns (s': Sys)
    requires Reachable(e, a, s, now) && s.inflight == [r] && s.saving == None
    ensures Reachable(e, a, s', now)
    ensures s' == s.(inflight := [], processed := s.processed + {r}, store := SaveStep(s.store, CheckpointOf(e.hasher, r), true).0)
  {
    s' := Do(e, a, s, now, Process);
    s' := Do(e, a, s', now, SaveCheckpoint(true));
  }

  // ------------------------------------------------------- following the stream

  /** Nothing is on its way and the store is open. */
  predicate Idle(s: Sys) {
    s.queue == [] && s.inflight == [] && s.saving == None && !s.store.closing && !s.store.closed
  }

  /** No gate holds the container's records back. */
  predicate GateOpen(e: Env, s: Sys) { e.name in s.obs.gates ==> !s.obs.gates[e.name].looking }

  lemma OpenGateReleases(e: Env, obs: ObserverState, r: RawLog)
    requires r.containerName == e.name && (e.name in obs.gates ==> !obs.gates[e.name].looking)
    ensures FilterStep(e.hasher, obs, r) == (obs, [r])
  {
    if e.name in obs.gates {
      assert obs.gates[e.name := obs.gates[e.name]] == obs.gates;
    }
  }

  lemma ReleaseNext(e: Env, a: Allowed, s: Sys, now: int) returns (s': Sys)
    requires Reachable(e, a, s, now) && Idle(s) && GateOpen(e, s)
    requires s.producer.Streaming? && NextPosition(s) < |s.log| && s.log[NextPosition(s)].containerName == e.name
    ensures Reachable(e, a, s', now)
    ensures s' == s.(producer := Streaming(NextPosition(s) + 1), inflight := [s.log[NextPosition(s)]])
  {
    var r := s.log[NextPosition(s)];
    s' := Do(e, a, s, now, Deliver);
    assert s'.queue == [r];
    OpenGateReleases(e, s.obs, r);
    s' := Do(e, a, s', now, Consume);
    assert s'.queue == [];
  }

  /** The next record of the stream goes straight through. */
  lemma FollowNext(e: Env, a: Allowed, s: Sys, now: int) returns (s': Sys)
    requires Reachable(e, a, s, now) && Idle(s) && GateOpen(e, s)
    requires s.producer.Streaming? && NextPosition(s) < |s.log| && Genuine(e, s.log[NextPosition(s)])
    ensures Reachable(e, a, s', now) && Idle(s')
    ensures var r := s.log[NextPosition(s)];
            && s' == s.(producer := Streaming(NextPosition(s) + 1), processed := s.processed + {r}, store := s'.store)
            && Stored(e, s') == Found(CheckpointOf(e.hasher, r))
  {
    var r := s.log[NextPosition(s)];
    s' := ReleaseNext(e, a, s, now);
    SavedIsStored(e, s.store, r);
    s' := ProcessAndSave(e, a, s', now, r);
  }

  /** Every processed record was processed before or is among log[k..n]. */
  ghost predicate OnlyFrom(done': set<RawLog>, done: set<RawLog>, log: seq<RawLog>, k: nat, n: nat)
    requires k <= n <= |log|
  {
    done <= done' && forall x :: x in done' ==> x in done || x in log[k..n]
  }

  lemma OneFurther(done: set<RawLog>, done': set<RawLog>, log: seq<RawLog>, k: nat, n: nat)
    requires k < n <= |log| && OnlyFrom(done', done + {log[k]}, log, k + 1, n)
    ensures OnlyFrom(done', done, log, k, n)
  {
    assert log[k..n] == [log[k]] + log[k + 1..n];
  }

  /** The records up to position n go straight through, one by one. */
  lemma {:induction false} FollowTo(e: Env, a: Allowed, s: Sys, now: int, n: nat) returns (s': Sys)
    requires Reachable(e, a, s, now) && Idle(s) && GateOpen(e, s) && GenuineLog(e, s.log)
    requires s.producer.Streaming? && NextPosition(s) <= n <= |s.log|
    ensures Reachable(e, a, s', now) && Idle(s')
    ensures s' == s.(producer := s'.producer, processed := s'.processed, store := s'.store)
    ensures s'.producer.Streaming? && NextPosition(s') == n && OnlyFrom(s'.processed, s.processed, s.log, NextPosition(s), n)
    ensures if NextPosition(s) == n then s'.store == s.store else Stored(e, s') == Found(CheckpointOf(e.hasher, s.log[n - 1]))
    decreases n - (if s.producer.Streaming? then NextPosition(s) else 0)
  {
    var k := NextPosition(s);
    if k == n {
      s' := s;
    } else {
      var s1 := FollowNext(e, a, s, now);
      s' := FollowTo(e, a, s1, now, n);
      OneFurther(s.processed, s'.processed, s.log, k, n);
    }
  }

  /** The first stream is open before the log's first record. */
  lemma OpenFirst(e: Env, a: Allowed, t: int) returns (s: Sys)
    requires ZERO_TIME <= t
    ensures Reachable(e, a, s, t)
    ensures s == Fresh().(producer := Streaming(0), base := t - e.window, obs := s.obs) && e.name !in s.obs.gates
  {
    Start(e, a);
    s := AttachUnsaved(e, a, Fresh(), ZERO_TIME);
    s := Do(e, a, s, ZERO_TIME, StartLoad(true));
    s := Do(e, a, s, ZERO_TIME, ResolveStart(t));
    s := Do(e, a, s, t, Connect);
  }

  /** The first n records of the log, and only those, have been processed and saved. */
  lemma FollowLog(e: Env, a: Allowed, log: seq<RawLog>, n: nat) returns (s: Sys)
    requires GenuineLog(e, log) && 0 < n <= |log|
    ensures Reachable(e, a, s, NewestTime(log)) && Idle(s) && e.name !in s.obs.gates
    ensures s.log == log && s.base == log[0].timestamp - e.window && s.rotated == 0 && s.producer == Streaming(n)
    ensures (forall x :: x in s.processed ==> x in log[..n]) && Stored(e, s) == Found(CheckpointOf(e.hasher, log[n - 1]))
  {
    s := OpenFirst(e, a, log[0].timestamp);
    EmitAll(e, a, s, log[0].timestamp, log);
    s := FollowTo(e, a, s.(log := log), NewestTime(log), n);
    assert log[0..n] == log[..n];
  }
}
