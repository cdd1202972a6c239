/** When a missed record is lost for good: once the log has been rotated past it, no continuation
    brings it back; and as soon as a stored checkpoint has passed it, a crash and a rotation of
    records older than the checkpoint are all that is needed. Until then a reconnect may still
    deliver it again. */
module ReplayForGood {
  import opened Common
  import opened Replay
  import opened CheckpointStore
  import opened Observer
  import opened ReplayProtocol
  import opened ReplayRuns

  lemma FilterKeepsGone(h: Hasher, obs: ObserverState, x: RawLog, b: RawLog)
    requires x != b && forall n :: n in obs.gates ==> b !in obs.gates[n].buffered
    ensures var (obs', out) := FilterStep(h, obs, x);
            b !in out && forall n :: n in obs'.gates ==> b !in obs'.gates[n].buffered
  {
  }

  lemma StepKeepsGone(e: Env, s: Sys, step: Step, b: RawLog)
    requires Gone(e, s, b) && Enabled(e, s, step)
    ensures Gone(e, Perform(e, s, step), b)
    ensures b in Perform(e, s, step).processed ==> b in s.processed
  {
    match step
    case Consume =>
      assert s.queue[0] in s.queue;
      FilterKeepsGone(e.hasher, s.obs, s.queue[0], b);
    case Process => assert s.inflight[0] in s.inflight;
    case Emit(r) => assert (s.log + [r])[|s.log|] == r;
    case _ =>
  }

  /** What is gone stays unprocessed in every continuation, whatever fails or is restarted. */
  lemma {:induction false} GoneForGood(e: Env, s: Sys, run: seq<Step>, s': Sys, b: RawLog)
    requires Gone(e, s, b) && b !in s.processed && Reaches(e, s, run, s')
    ensures Gone(e, s', b) && b !in s'.processed
    decreases |run|
  {
    if run != [] {
      StepKeepsGone(e, s, run[0], b);
      GoneForGood(e, Perform(e, s, run[0]), run[1..], s', b);
    }
  }

  /** The passing checkpoint is put on disk, if it is not there, and the process crashes. */
  lemma CrashAhead(e: Env, a: Allowed, s: Sys, now: int, cp: Checkpoint, b: RawLog) returns (s': Sys)
    requires Reachable(e, a, s, now) && IsStored(e, s, cp) && Passed(s, cp, b) && !s.store.closed
    ensures Reachable(e, a, s', now) && s' == Restarted(e, s.(store := s'.store)) && s'.base == s.base
    ensures e.name in s'.store.durable && s'.store.durable[e.name] == cp
  {
    if e.name in s.store.durable && s.store.durable[e.name] == cp {
      s' := Do(e, a, s, now, Crash);
    } else {
      s' := Do(e, a, s, now, FlushStore(true));
      s' := Do(e, a, s', now, Crash);
    }
  }

  lemma OlderThanCheckpoint(log: seq<RawLog>, t: int, b: RawLog)
    requires Chronological(log) && b.timestamp < t
    ensures forall i :: SeekTo(log, t) <= i < |log| ==> log[i] != b
  {
    SeekSplits(log, t);
  }

  /** The records older than the durable checkpoint are rotated away, if they are not already. */
  lemma RotateOlder(e: Env, a: Allowed, s: Sys, now: int) returns (s': Sys)
    requires Reachable(e, a, s, now) && e.name in s.store.durable && !a.rotation.Never? && s.rotated <= |s.log|
    ensures var k := SeekTo(s.log, s.store.durable[e.name].lastTimestamp);
            Reachable(e, a, s', now) && s' == s.(rotated := if s.rotated < k then k else s.rotated)
  {
    var k := SeekTo(s.log, s.store.durable[e.name].lastTimestamp);
    if s.rotated < k {
      s' := Do(e, a, s, now, Rotate(k));
    } else {
      s' := s;
    }
  }

  /** From any reachable state in which a stored checkpoint has passed record b, a crash and a
      rotation of records older than the checkpoint lead to a state in which b is gone. */
  lemma PassedCanBeLost(e: Env, a: Allowed, s: Sys, now: int, cp: Checkpoint, b: RawLog) returns (s': Sys)
    requires Reachable(e, a, s, now) && IsStored(e, s, cp) && Passed(s, cp, b) && !s.store.closed && !a.rotation.Never?
    requires b.containerName == e.name && s.rotated <= |s.log| && Chronological(s.log) && b.timestamp < NewestTime(s.log)
    ensures Reachable(e, a, s', now) && s'.log == s.log && s'.base == s.base && s'.processed == s.processed
    ensures Gone(e, s', b)
  {
    var s1 := CrashAhead(e, a, s, now, cp, b);
    s' := RotateOlder(e, a, s1, now);
    OlderThanCheckpoint(s.log, cp.lastTimestamp, b);
  }
}
