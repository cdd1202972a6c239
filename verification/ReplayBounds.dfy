/** What holds in every run of the replay protocol, stale starts and ties included. */
module ReplayBounds {
  import opened Common
  import opened Replay
  import opened CheckpointStore
  import opened Observer
  import opened ReplayProtocol

  ghost predicate LogBounds(e: Env, s: Sys) {
    && Chronological(s.log) && (forall r :: r in s.log ==> Genuine(e, r))
    && s.rotated <= |s.log| && (s.rotated > 0 ==> e.name in s.store.durable)
  }

  /** The container's records among these are not beyond the newest record of the log. */
  predicate InTime(e: Env, log: seq<RawLog>, records: seq<RawLog>) {
    forall i :: 0 <= i < |records| && records[i].containerName == e.name ==> InLogTime(log, records[i].timestamp)
  }

  ghost predicate GatesInTime(e: Env, log: seq<RawLog>, gates: map<Str, Gate>) {
    && (forall n :: n in gates ==> OwnRecords(n, gates[n]))
    && (e.name in gates ==> InTime(e, log, gates[e.name].buffered))
  }

  predicate SavingInTime(e: Env, log: seq<RawLog>, saving: Option<RawLog>) {
    saving.Some? && saving.value.containerName == e.name ==> InLogTime(log, saving.value.timestamp)
  }

  predicate StoreInTime(e: Env, log: seq<RawLog>, store: StoreState) {
    && !store.closing && !store.closed
    && (e.name in store.pending ==> InLogTime(log, store.pending[e.name].lastTimestamp))
    && (e.name in store.durable ==> InLogTime(log, store.durable[e.name].lastTimestamp))
  }

  ghost predicate Bounds(e: Env, s: Sys) {
    && LogBounds(e, s) && InTime(e, s.log, s.queue) && InTime(e, s.log, s.inflight) && SavingInTime(e, s.log, s.saving)
    && GatesInTime(e, s.log, s.obs.gates) && StoreInTime(e, s.log, s.store)
    && UnsavedBase(e, s.store, s.obs.initialStarts, s.base) && FoundIsSaved(e, s.store, s.producer)
  }

  lemma InitialBounds(e: Env, others: Table, limit: nat)
    requires e.name !in others
    ensures Bounds(e, Initial(others, limit))
  {
  }

  lemma NotBeyondNewest(log: seq<RawLog>, i: nat)
    requires Chronological(log) && i < |log|
    ensures InLogTime(log, log[i].timestamp)
  {
  }

  lemma EmitKeepsBounds(e: Env, s: Sys, r: RawLog)
    requires Bounds(e, s) && Enabled(e, s, Emit(r))
    ensures Bounds(e, s.(log := s.log + [r]))
  {
    var log := s.log + [r];
    assert log[|log| - 1] == r;
    assert forall t :: InLogTime(s.log, t) ==> InLogTime(log, t);
  }

  lemma FilterKeepsTime(e: Env, log: seq<RawLog>, obs: ObserverState, x: RawLog)
    requires GatesInTime(e, log, obs.gates) && (x.containerName == e.name ==> InLogTime(log, x.timestamp))
    ensures var (obs', out) := FilterStep(e.hasher, obs, x);
            GatesInTime(e, log, obs'.gates) && InTime(e, log, out) && obs'.initialStarts == obs.initialStarts
  {
  }

  lemma StoreKeepsTime(e: Env, log: seq<RawLog>, store: StoreState, cp: Checkpoint, commits: bool)
    requires StoreInTime(e, log, store) && (cp.containerName == e.name && ValidCheckpoint(cp) ==> InLogTime(log, cp.lastTimestamp))
    ensures StoreInTime(e, log, SaveStep(store, cp, commits).0) && StoreInTime(e, log, FlushStep(store, commits).0)
  {
  }

  lemma ConsumerKeepsBounds(e: Env, s: Sys, step: Step)
    requires Bounds(e, s) && Enabled(e, s, step) && IsConsumerStep(step)
    ensures Bounds(e, Perform(e, s, step))
  {
    StepKeepsUnsavedBase(e, s, step);
    match step
    case Consume => FilterKeepsTime(e, s.log, s.obs, s.queue[0]);
    case Process =>
    case SaveCheckpoint(commits) =>
      StoreRemembers(e, s.store, CheckpointOf(e.hasher, s.saving.value), commits);
      StoreKeepsTime(e, s.log, s.store, CheckpointOf(e.hasher, s.saving.value), commits);
    case FlushStore(commits) =>
      StoreRemembers(e, s.store, Checkpoint([], [], 0, []), commits);
      StoreKeepsTime(e, s.log, s.store, Checkpoint([], [], 0, []), commits);
  }

  lemma ProducerKeepsBounds(e: Env, s: Sys, step: Step)
    requires Bounds(e, s) && Enabled(e, s, step) && IsProducerStep(step)
    ensures Bounds(e, Perform(e, s, step))
  {
    StepKeepsUnsavedBase(e, s, step);
    if step.Deliver? {
      NotBeyondNewest(s.log, NextPosition(s));
    }
  }

  lemma OutsideKeepsBounds(e: Env, s: Sys, step: Step)
    requires Bounds(e, s) && Enabled(e, s, step) && !IsProducerStep(step) && !IsConsumerStep(step)
    ensures Bounds(e, Perform(e, s, step))
  {
    StepKeepsUnsavedBase(e, s, step);
    if step.Emit? {
      EmitKeepsBounds(e, s, step.record);
    }
  }

  lemma StepKeepsBounds(e: Env, s: Sys, step: Step)
    requires Bounds(e, s) && Enabled(e, s, step)
    ensures Bounds(e, Perform(e, s, step))
  {
    if IsProducerStep(step) {
      ProducerKeepsBounds(e, s, step);
    } else if IsConsumerStep(step) {
      ConsumerKeepsBounds(e, s, step);
    } else {
      OutsideKeepsBounds(e, s, step);
    }
  }

  lemma {:induction false} RunKeepsBounds(e: Env, s: Sys, run: seq<Step>, s': Sys)
    requires Bounds(e, s) && Reaches(e, s, run, s')
    ensures Bounds(e, s')
    decreases |run|
  {
    if run != [] {
      StepKeepsBounds(e, s, run[0]);
      RunKeepsBounds(e, Perform(e, s, run[0]), run[1..], s');
    }
  }
}
