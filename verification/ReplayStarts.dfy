/** Stale replay starts: what they cost, and what they need. replayStart loads the checkpoint
    and then, under another lock, remembers a start taken from the clock. If a checkpoint is
    saved in between and no start was remembered before, the stream starts after unprocessed
    records and saves checkpoints later than them. That takes a replay-start load that failed before the
    container's first checkpoint, because only such a load starts a stream without
    remembering its start. */
module ReplayStarts {
  import opened Common
  import opened Replay
  import opened CheckpointStore
  import opened Observer
  import opened ReplayProtocol
  import opened ReplayRuns
  import opened ReplayBounds

  // ------------------------------------------------ stale starts need a failed load

  predicate NoneOwn(e: Env, records: seq<RawLog>) {
    forall i :: 0 <= i < |records| ==> records[i].containerName != e.name
  }

  /** Nothing of this container is anywhere between its log and the store. */
  predicate Quiet(e: Env, s: Sys) {
    && NoneOwn(e, s.queue) && NoneOwn(e, s.inflight)
    && (s.saving.Some? ==> s.saving.value.containerName != e.name)
    && !s.producer.Requesting? && !s.producer.Streaming?
  }

  ghost predicate GatesKeepToThemselves(gates: map<Str, Gate>) {
    forall n :: n in gates ==> OwnRecords(n, gates[n])
  }

  /** A container that has neither a checkpoint nor a remembered start is quiet, and a load
      that found nothing is still up to date. */
  ghost predicate QuietInv(e: Env, s: Sys) {
    && GatesKeepToThemselves(s.obs.gates)
    && !s.store.closed && (e.name in s.store.durable ==> s.store.durable[e.name].containerName == e.name != [])
    && (e.name in s.store.pending ==> s.store.pending[e.name].containerName == e.name != [])
    && (e.name !in s.obs.initialStarts && Unsaved(e, s.store) ==> Quiet(e, s))
    && (s.producer.StartLoaded? && !s.producer.startLoad.Missing? ==> !Unsaved(e, s.store))
    && (s.producer.StartLoaded? && s.producer.startLoad.Missing? && e.name !in s.obs.initialStarts ==> Unsaved(e, s.store))
  }

  lemma SaveKeepsKeys(e: Env, store: StoreState, cp: Checkpoint, commits: bool)
    requires !store.closed && (e.name in store.durable ==> store.durable[e.name].containerName == e.name != [])
    requires e.name in store.pending ==> store.pending[e.name].containerName == e.name != []
    ensures var saved, flushed := SaveStep(store, cp, commits).0, FlushStep(store, commits).0;
            && !saved.closed && (e.name in saved.durable ==> saved.durable[e.name].containerName == e.name != [])
            && (e.name in saved.pending ==> saved.pending[e.name].containerName == e.name != [])
            && !flushed.closed && (e.name in flushed.durable ==> flushed.durable[e.name].containerName == e.name != [])
            && (e.name in flushed.pending ==> flushed.pending[e.name].containerName == e.name != [])
            && (Unsaved(e, store) && cp.containerName != e.name ==> Unsaved(e, saved) && Unsaved(e, flushed))
  {
  }

  lemma FilterKeepsToItself(e: Env, obs: ObserverState, x: RawLog)
    requires GatesKeepToThemselves(obs.gates)
    ensures var (obs', out) := FilterStep(e.hasher, obs, x);
            && GatesKeepToThemselves(obs'.gates) && obs'.initialStarts == obs.initialStarts
            && (x.containerName != e.name ==> NoneOwn(e, out))
  {
  }

  lemma ProducerKeepsQuiet(e: Env, s: Sys, step: Step)
    requires QuietInv(e, s) && Enabled(e, s, step) && IsProducerStep(step) && !FailedStart(e, s, step)
    ensures QuietInv(e, Perform(e, s, step)) && !StaleStep(e, s, step)
  {
  }

  lemma ConsumerKeepsQuiet(e: Env, s: Sys, step: Step)
    requires QuietInv(e, s) && Enabled(e, s, step) && IsConsumerStep(step)
    ensures QuietInv(e, Perform(e, s, step))
  {
    match step
    case Consume => FilterKeepsToItself(e, s.obs, s.queue[0]);
    case Process =>
    case SaveCheckpoint(commits) =>
      SaveKeepsKeys(e, s.store, CheckpointOf(e.hasher, s.saving.value), commits);
      StoreRemembers(e, s.store, CheckpointOf(e.hasher, s.saving.value), commits);
    case FlushStore(commits) =>
      SaveKeepsKeys(e, s.store, Checkpoint([], [], 0, []), commits);
      StoreRemembers(e, s.store, Checkpoint([], [], 0, []), commits);
  }

  lemma OutsideKeepsQuiet(e: Env, s: Sys, step: Step)
    requires QuietInv(e, s) && Enabled(e, s, step) && !IsProducerStep(step) && !IsConsumerStep(step)
    ensures QuietInv(e, Perform(e, s, step))
  {
  }

  lemma StepKeepsQuiet(e: Env, s: Sys, step: Step)
    requires QuietInv(e, s) && Enabled(e, s, step) && !FailedStart(e, s, step)
    ensures QuietInv(e, Perform(e, s, step)) && !StaleStep(e, s, step)
  {
    if IsProducerStep(step) {
      ProducerKeepsQuiet(e, s, step);
    } else if IsConsumerStep(step) {
      ConsumerKeepsQuiet(e, s, step);
    } else {
      OutsideKeepsQuiet(e, s, step);
    }
  }

  lemma {:induction false} CarefulFromQuiet(e: Env, s: Sys, run: seq<Step>)
    requires QuietInv(e, s) && Careful(e, s, run)
    ensures NoStaleStart(e, s, run)
    decreases |run|
  {
    if run != [] {
      StepKeepsQuiet(e, s, run[0]);
      CarefulFromQuiet(e, Perform(e, s, run[0]), run[1..]);
    }
  }

  /** In a run in which no replay-start load fails before the container's first checkpoint, no
      start is stale. */
  lemma StaleNeedsFailedLoad(e: Env, others: Table, limit: nat, run: seq<Step>)
    requires e.name !in others && Careful(e, Initial(others, limit), run)
    ensures NoStaleStart(e, Initial(others, limit), run)
  {
    CarefulFromQuiet(e, Initial(others, limit), run);
  }

  // ------------------------------------------------------ a failed load can lose

  const FAILING := Allowed(Never, true, false)

  /** A stream that a failed load has started from the very beginning. */
  lemma StreamAll(e: Env, t: int) returns (s: Sys)
    requires ZERO_TIME <= t
    ensures Reachable(e, FAILING, s, t)
    ensures s == Fresh().(producer := Streaming(0), obs := s.obs)
    ensures e.name !in s.obs.gates && e.name !in s.obs.initialStarts
  {
    Start(e, FAILING);
    s := AttachUnsaved(e, FAILING, Fresh(), ZERO_TIME);
    s := Do(e, FAILING, s, ZERO_TIME, StartLoad(false));
    s := Do(e, FAILING, s, ZERO_TIME, ResolveStart(t));
    s := Do(e, FAILING, s, t, Connect);
  }

  /** The first record is in the queue, the stream has ended and a new one finds nothing stored. */
  lemma LoadTooEarly(e: Env, log: seq<RawLog>) returns (s: Sys)
    requires GenuineLog(e, log) && log != []
    ensures Reachable(e, FAILING, s, NewestTime(log))
    ensures s == Fresh().(log := log, queue := [log[0]], producer := StartLoaded(Missing), obs := s.obs)
    ensures e.name !in s.obs.gates && e.name !in s.obs.initialStarts
  {
    var now := NewestTime(log);
    s := StreamAll(e, log[0].timestamp);
    EmitAll(e, FAILING, s, log[0].timestamp, log);
    s := Do(e, FAILING, s.(log := log), now, Deliver);
    assert s.queue == [log[0]];
    s := Do(e, FAILING, s, now, Disconnect);
    s := AttachUnsaved(e, FAILING, s, now);
    s := Do(e, FAILING, s, now, StartLoad(true));
  }

  /** The first record is processed and saved before the start is resolved. */
  lemma SaveInBetween(e: Env, log: seq<RawLog>) returns (s: Sys)
    requires GenuineLog(e, log) && log != []
    ensures Reachable(e, FAILING, s, NewestTime(log)) && Idle(s)
    ensures s == Fresh().(log := log, producer := StartLoaded(Missing), processed := {log[0]}, obs := s.obs, store := s.store)
    ensures e.name !in s.obs.gates && e.name !in s.obs.initialStarts && Stored(e, s) == Found(CheckpointOf(e.hasher, log[0]))
  {
    var now := NewestTime(log);
    s := LoadTooEarly(e, log);
    OpenGateReleases(e, s.obs, log[0]);
    s := Do(e, FAILING, s, now, Consume);
    assert s.queue == [] && s.inflight == [log[0]];
    SavedIsStored(e, s.store, log[0]);
    s := ProcessAndSave(e, FAILING, s, now, log[0]);
    assert {} + {log[0]} == {log[0]};
  }

  /** The stale start: the stream begins at time t, with only the first record processed. */
  lemma StaleStream(e: Env, log: seq<RawLog>, t: int) returns (s: Sys)
    requires GenuineLog(e, log) && log != [] && NewestTime(log) <= t
    ensures Reachable(e, FAILING, s, t + e.window) && Idle(s) && e.name !in s.obs.gates
    ensures Stored(e, s) == Found(CheckpointOf(e.hasher, log[0]))
    ensures s == Fresh().(log := log, producer := Streaming(SeekTo(log, t)), processed := {log[0]}, obs := s.obs, store := s.store)
  {
    s := SaveInBetween(e, log);
    s := Do(e, FAILING, s, NewestTime(log), ResolveStart(t + e.window));
    s := Do(e, FAILING, s, t + e.window, Connect);
  }

  /** Whatever the log: after one failed load a run without rotation, on one clock, ends drained
      with only the first record processed and the checkpoint still at it. */
  lemma StaleStartMisses(e: Env, log: seq<RawLog>) returns (s: Sys, now: int)
    requires GenuineLog(e, log) && log != []
    ensures Reachable(e, FAILING, s, now) && s.log == log && Drained(s)
    ensures s.base == ZERO_TIME && s.processed == {log[0]} && Stored(e, s) == Found(CheckpointOf(e.hasher, log[0]))
  {
    now := NewestTime(log) + 1 + e.window;
    s := StaleStream(e, log, NewestTime(log) + 1);
    assert forall i :: 0 <= i < |log| ==> log[i].timestamp <= NewestTime(log);
  }

  lemma NewestRecords(log: seq<RawLog>, k: nat, done: set<RawLog>)
    requires Chronological(log) && log != [] && Splits(log, NewestTime(log), k) && OnlyFrom(done, {log[0]}, log, k, |log|)
    ensures forall x :: x in done ==> x == log[0] || x.timestamp == NewestTime(log)
  {
    assert forall i :: 0 <= i < |log| ==> log[i].timestamp <= NewestTime(log);
  }

  /** Whatever the log: after one failed load a run without rotation, on one clock, ends with the
      checkpoint at the newest time and every older record unprocessed except the first. */
  lemma StaleStartOvertakes(e: Env, log: seq<RawLog>) returns (s: Sys, now: int)
    requires GenuineLog(e, log) && log != []
    ensures Reachable(e, FAILING, s, now) && Idle(s) && s.rotated == 0 && s.log == log && s.base == ZERO_TIME && Drained(s)
    ensures Stored(e, s) == Found(CheckpointOf(e.hasher, log[|log| - 1]))
    ensures forall x :: x in s.processed ==> x == log[0] || x.timestamp == NewestTime(log)
  {
    var t := NewestTime(log);
    now := t + e.window;
    var k := SeekTo(log, t);
    SeekSplits(log, t);
    var s0 := StaleStream(e, log, t);
    s := FollowTo(e, FAILING, s0, now, |log|);
    NewestRecords(log, k, s.processed);
  }

  // ------------------------------- if all older records are the same, nothing is lost

  /** The records before `until` are all the same. */
  predicate SameBelow(log: seq<RawLog>, until: int) {
    forall i :: 0 <= i < |log| && log[i].timestamp < until ==> log[i] == log[0]
  }

  /** The oldest record, if before `until`, has been processed. */
  predicate OldestDone(until: int, log: seq<RawLog>, done: set<RawLog>) {
    log != [] && (log[0].timestamp < until ==> log[0] in done)
  }

  predicate OldestBelow(log: seq<RawLog>, base: int) { log != [] && log[0].timestamp < base }

  /** Either no start has been stale since the last restart, or the oldest record is processed,
      or it does not count. */
  ghost predicate Settled(e: Env, until: int, s: Sys) {
    Inv(e, until, s) || OldestDone(until, s.log, s.processed) || OldestBelow(s.log, s.base)
  }

  /** At a stale start something is stored already, and it covers the oldest record. */
  lemma StaleIsSettled(e: Env, until: int, s: Sys, step: Step)
    requires Inv(e, until, s) && Enabled(e, s, step) && StaleStep(e, s, step)
    ensures var s' := Perform(e, s, step); OldestDone(until, s'.log, s'.processed) || OldestBelow(s'.log, s'.base)
  {
    var cp := if e.name in s.store.pending then s.store.pending[e.name] else s.store.durable[e.name];
    assert Safe(e, s.log, Span(s.base, until), s.processed, cp);
    assert s.log[0] in s.log;
  }

  /** A crash with nothing on disk leaves nothing to be claimed. */
  lemma RestartIsInv(e: Env, until: int, s: Sys)
    requires Bounds(e, s) && e.name !in s.store.durable && UnambiguousBelow(s.log, until)
    ensures Inv(e, until, Restarted(e, s))
  {
    assert Pipeline(Restarted(e, s)) == [];
  }

  lemma OldestStays(e: Env, until: int, s: Sys, step: Step)
    requires Enabled(e, s, step) && OldestDone(until, s.log, s.processed)
    ensures OldestDone(until, Perform(e, s, step).log, Perform(e, s, step).processed)
  {
    assert step.Emit? ==> (s.log + [step.record])[0] == s.log[0];
  }

  lemma BelowStays(e: Env, until: int, s: Sys, step: Step)
    requires Bounds(e, s) && Enabled(e, s, step) && OldestBelow(s.log, s.base) && UnambiguousBelow(s.log, until)
    ensures OldestBelow(Perform(e, s, step).log, Perform(e, s, step).base) || Inv(e, until, Perform(e, s, step))
  {
    assert Genuine(e, s.log[0]);
    StepKeepsUnsavedBase(e, s, step);
    if Perform(e, s, step).base != s.base {
      assert BaseMayMove(e, s, step);
      RestartIsInv(e, until, s);
    } else {
      assert step.Emit? ==> (s.log + [step.record])[0] == s.log[0];
    }
  }

  lemma StepKeepsSettled(e: Env, until: int, s: Sys, step: Step)
    requires Bounds(e, s) && Settled(e, until, s) && Enabled(e, s, step)
    requires UnambiguousBelow(s.log, until) && UnambiguousBelow(Perform(e, s, step).log, until)
    ensures Settled(e, until, Perform(e, s, step))
  {
    if OldestDone(until, s.log, s.processed) {
      OldestStays(e, until, s, step);
    } else if OldestBelow(s.log, s.base) {
      BelowStays(e, until, s, step);
    } else if StaleStep(e, s, step) {
      StaleIsSettled(e, until, s, step);
    } else {
      StepKeepsInv(e, until, s, step);
    }
  }

  lemma {:induction false} RunKeepsSettled(e: Env, until: int, s: Sys, run: seq<Step>, s': Sys)
    requires Bounds(e, s) && Settled(e, until, s) && Reaches(e, s, run, s') && UnambiguousBelow(s'.log, until)
    ensures Settled(e, until, s')
    decreases |run|
  {
    if run != [] {
      var s1 := Perform(e, s, run[0]);
      LogOnlyGrows(e, s, run, s');
      LogOnlyGrows(e, s1, run[1..], s');
      UnambiguousPrefix(s.log, s'.log, until);
      UnambiguousPrefix(s1.log, s'.log, until);
      StepKeepsBounds(e, s, run[0]);
      StepKeepsSettled(e, until, s, run[0]);
      RunKeepsSettled(e, until, s1, run[1..], s');
    }
  }

  /** In every run whatsoever, if all records before `until` are the same: none of them from the
      base on is unprocessed once a later checkpoint is stored, the stream is drained, or the
      log has been rotated past it. */
  lemma SameIsSafe(e: Env, others: Table, limit: nat, run: seq<Step>, s: Sys, until: int)
    requires e.name !in others && Reaches(e, Initial(others, limit), run, s) && SameBelow(s.log, until)
    ensures Bounds(e, s)
    ensures forall r :: r in s.log && s.base <= r.timestamp < until && r !in s.processed ==>
              && !Drained(s) && (forall cp :: IsStored(e, s, cp) ==> cp.lastTimestamp < r.timestamp)
              && !Gone(e, s, r)
  {
    InitialBounds(e, others, limit);
    RunKeepsBounds(e, Initial(others, limit), run, s);
    InitialInv(e, until, others, limit);
    RunKeepsSettled(e, until, Initial(others, limit), run, s);
    forall r | r in s.log && s.base <= r.timestamp < until && r !in s.processed
      ensures !Drained(s) && (forall cp :: IsStored(e, s, cp) ==> cp.lastTimestamp < r.timestamp) && !Gone(e, s, r)
    {
      assert r == s.log[0];
      UnprocessedUnderInv(e, until, s, r);
    }
  }

  lemma UnprocessedUnderInv(e: Env, until: int, s: Sys, r: RawLog)
    requires Inv(e, until, s) && r in s.log && s.base <= r.timestamp < until && r !in s.processed
    ensures !Drained(s) && (forall cp :: IsStored(e, s, cp) ==> cp.lastTimestamp < r.timestamp) && !Gone(e, s, r)
  {
    InvMeansProcessed(e, until, s);
  }
}
