/** Ties: two different records with one timestamp. The gate treats "not later than the
    checkpoint" as "already processed", and a reconnect discards what the previous gate was
    holding back; the run built here uses both to let the checkpoint pass the second record of
    a tie that a later record follows. It is careful, on one clock, without rotation, and does
    what runContainer does: every attach is followed by a replay start before the next one. It
    needs room in the log channel for the records from the second one of the tie through the
    next later one. Rotation that may also take unread records of the checkpoint's own time
    skips the second record of any tie without more ado. */
module ReplayTies {
  import opened Common
  import opened Replay
  import opened CheckpointStore
  import opened Observer
  import opened ReplayProtocol
  import opened ReplayRuns

  const STRICT := Allowed(Never, false, false)
  const ROTATING := Allowed(SameTime, false, false)

  /** Position n holds a new record with the timestamp of the one before it; q is the position
      of the next later record. */
  predicate TieAt(log: seq<RawLog>, n: nat, q: nat) {
    && 0 < n < q < |log| && log[n] !in log[..n]
    && log[n - 1].timestamp == log[n].timestamp == log[q - 1].timestamp < log[q].timestamp
  }

  /** Some tie fits: the records from its second one through the next later one can wait in the
      log channel, one of them taken off it already. */
  ghost predicate RoomForTie(e: Env, log: seq<RawLog>) {
    exists n: nat, q: nat :: TieAt(log, n, q) && q - n <= e.channel
  }

  lemma TieTimes(log: seq<RawLog>, n: nat, q: nat)
    requires Chronological(log) && TieAt(log, n, q)
    ensures forall i :: n <= i < q ==> log[i].timestamp == log[n].timestamp
    ensures forall i :: 0 <= i < q ==> log[i].timestamp < log[q].timestamp
    ensures log[0].timestamp <= log[n].timestamp
  {
    assert forall i :: n < i < q ==> log[n].timestamp <= log[i].timestamp;
    assert forall i :: 0 <= i < q - 1 ==> log[i].timestamp <= log[q - 1].timestamp;
  }

  // -------------------------------------------------------------- the tie is queued

  /** The stream puts the next records, up to position n, into the channel. */
  lemma {:induction false} DeliverTo(e: Env, s: Sys, now: int, k: nat, n: nat) returns (s': Sys)
    requires Reachable(e, STRICT, s, now) && s.producer == Streaming(k) && k <= n <= |s.log| && s.rotated == 0
    requires s.inflight == [] && s.saving == None && |s.queue| + n - k <= e.channel + 1
    ensures Reachable(e, STRICT, s', now) && s' == s.(queue := s.queue + s.log[k..n], producer := Streaming(n))
    decreases n - k
  {
    if n == k {
      assert s.queue + s.log[k..n] == s.queue;
      s' := s;
    } else {
      var s1 := Do(e, STRICT, s, now, Deliver);
      s' := DeliverTo(e, s1, now, k + 1, n);
      assert s.log[k..n] == [s.log[k]] + s.log[k + 1..n];
      Reassociate(s.queue, [s.log[k]], s.log[k + 1..n]);
    }
  }

  /** Everything before the tie's second record is processed, and it waits with what follows it. */
  lemma QueueTie(e: Env, log: seq<RawLog>, n: nat, q: nat) returns (s: Sys)
    requires GenuineLog(e, log) && TieAt(log, n, q) && q - n <= e.channel
    ensures Reachable(e, STRICT, s, NewestTime(log)) && Waiting(e, s, log, n, n, q)
  {
    var s0 := FollowLog(e, STRICT, log, n);
    s := DeliverTo(e, s0, NewestTime(log), n, q + 1);
    assert [] + log[n..q + 1] == log[n..q + 1];
  }

  /** The records from position i through q wait; those before n are the only ones processed, and
      the stored checkpoint has the time of the tie. */
  ghost predicate Waiting(e: Env, s: Sys, log: seq<RawLog>, n: nat, i: nat, q: nat)
    requires TieAt(log, n, q)
  {
    && s.log == log && s.base == log[0].timestamp - e.window && s.rotated == 0
    && n <= i <= q && s.queue == log[i..q + 1] && s.inflight == [] && s.saving == None && !s.store.closing && !s.store.closed
    && (s.producer.Requesting? || s.producer.Streaming?)
    && (forall x :: x in s.processed ==> x in log[..n]) && Stored(e, s) == Found(CheckpointOf(e.hasher, log[n - 1]))
  }

  // ---------------------------------------------------------- the tie is passed over

  /** Any reconnect replaces the gate by a fresh one for the stored checkpoint. */
  lemma Reattach(e: Env, s: Sys, now: int) returns (s': Sys)
    requires Reachable(e, STRICT, s, now) && Stored(e, s).Found? && (s.producer.Requesting? || s.producer.Streaming?)
    ensures Reachable(e, STRICT, s', now)
    ensures s' == s.(producer := Requesting(ReplayStart(Stored(e, s).checkpoint, e.overlap)), obs := s'.obs)
    ensures s'.obs.gates == s.obs.gates[e.name := NewGate(Stored(e, s).checkpoint)]
  {
    s' := Do(e, STRICT, s, now, Disconnect);
    s' := Do(e, STRICT, s', now, AttachLoad(true));
    s' := Do(e, STRICT, s', now, AttachGate);
    s' := Do(e, STRICT, s', now, StartLoad(true));
    s' := Do(e, STRICT, s', now, ResolveStart(now));
  }

  lemma FreshGate(h: Hasher, cp: Checkpoint, x: RawLog)
    requires cp.containerId == x.containerId && ValidCheckpoint(cp)
    ensures AcceptStep(h, NewGate(cp), x).1 == if x.timestamp > cp.lastTimestamp then [x] else []
  {
    assert NewGate(cp).buffered + [x] == [x];
  }

  /** Reattaching before the next record is consumed: unless it is later than the checkpoint
      it is held back, and with it whatever the last gate held is gone. */
  lemma ConsumeBehindFreshGate(e: Env, s: Sys, now: int, last: RawLog) returns (s': Sys)
    requires Reachable(e, STRICT, s, now) && s.inflight == [] && s.saving == None && s.queue != [] && Genuine(e, s.queue[0])
    requires Genuine(e, last) && Stored(e, s) == Found(CheckpointOf(e.hasher, last))
    requires s.producer.Requesting? || s.producer.Streaming?
    ensures Reachable(e, STRICT, s', now) && s'.producer.Requesting?
    ensures s' == s.(producer := s'.producer, obs := s'.obs, queue := s.queue[1..],
                     inflight := if s.queue[0].timestamp > last.timestamp then [s.queue[0]] else [])
  {
    s' := Reattach(e, s, now);
    FreshGate(e.hasher, CheckpointOf(e.hasher, last), s.queue[0]);
    s' := Do(e, STRICT, s', now, Consume);
  }

  /** One by one the records of the tie are held back by a gate that the next reconnect drops. */
  lemma {:induction false} HoldBack(e: Env, s: Sys, now: int, log: seq<RawLog>, n: nat, i: nat, q: nat) returns (s': Sys)
    requires Reachable(e, STRICT, s, now) && GenuineLog(e, log) && TieAt(log, n, q) && Waiting(e, s, log, n, i, q)
    ensures Reachable(e, STRICT, s', now) && Waiting(e, s', log, n, q, q)
    decreases q - i
  {
    if i == q {
      s' := s;
    } else {
      TieTimes(log, n, q);
      s' := ConsumeBehindFreshGate(e, s, now, log[n - 1]);
      assert log[i..q + 1][1..] == log[i + 1..q + 1];
      s' := HoldBack(e, s', now, log, n, i + 1, q);
    }
  }

  /** The later record goes through alone and is saved. */
  lemma PassTie(e: Env, log: seq<RawLog>, n: nat, q: nat) returns (s: Sys)
    requires GenuineLog(e, log) && TieAt(log, n, q) && q - n <= e.channel
    ensures Reachable(e, STRICT, s, NewestTime(log)) && Idle(s) && (s.producer.Requesting? || s.producer.Streaming?)
    ensures s.log == log && s.base == log[0].timestamp - e.window && s.rotated == 0
    ensures forall x :: x in s.processed ==> x in log[..n] || x == log[q]
    ensures Stored(e, s) == Found(CheckpointOf(e.hasher, log[q]))
  {
    var now := NewestTime(log);
    s := QueueTie(e, log, n, q);
    s := HoldBack(e, s, now, log, n, n, q);
    s := ReleaseLater(e, s, now, log, n, q);
    SavedIsStored(e, s.store, log[q]);
    s := ProcessAndSave(e, STRICT, s, now, log[q]);
  }

  lemma ReleaseLater(e: Env, s: Sys, now: int, log: seq<RawLog>, n: nat, q: nat) returns (s': Sys)
    requires Reachable(e, STRICT, s, now) && GenuineLog(e, log) && TieAt(log, n, q) && Waiting(e, s, log, n, q, q)
    ensures Reachable(e, STRICT, s', now) && s'.producer.Requesting?
    ensures s' == s.(producer := s'.producer, obs := s'.obs, queue := [], inflight := [log[q]])
  {
    assert s.queue == [log[q]];
    s' := ConsumeBehindFreshGate(e, s, now, log[n - 1]);
  }

  // ------------------------------------------------------------ and the rest follows

  /** The stream has come to position i behind a gate that looks for the record at q, the first
      of its time. */
  ghost predicate Looking(e: Env, s: Sys, i: nat, q: nat) {
    && s.producer == Streaming(i) && i <= q < |s.log| && s.rotated == 0 && Idle(s)
    && (forall j :: 0 <= j < q ==> s.log[j].timestamp < s.log[q].timestamp)
    && e.name in s.obs.gates && s.obs.gates[e.name].looking
    && s.obs.gates[e.name].checkpoint == CheckpointOf(e.hasher, s.log[q])
  }

  /** Older records are held back, and dropped when the gate finds what it looks for. */
  lemma HoldNext(e: Env, s: Sys, now: int, i: nat, q: nat) returns (s': Sys)
    requires Reachable(e, STRICT, s, now) && Looking(e, s, i, q) && Genuine(e, s.log[i]) && Genuine(e, s.log[q])
    ensures Reachable(e, STRICT, s', now) && s' == s.(producer := Streaming(i + 1), obs := s'.obs)
    ensures if i < q then Looking(e, s', i + 1, q) else GateOpen(e, s')
  {
    s' := Do(e, STRICT, s, now, Deliver);
    assert s'.queue == [s.log[i]];
    s' := Do(e, STRICT, s', now, Consume);
    assert s'.queue == [];
  }

  lemma {:induction false} HoldUntilFound(e: Env, s: Sys, now: int, i: nat, q: nat) returns (s': Sys)
    requires Reachable(e, STRICT, s, now) && Looking(e, s, i, q) && GenuineLog(e, s.log)
    ensures Reachable(e, STRICT, s', now) && s' == s.(producer := Streaming(q + 1), obs := s'.obs) && GateOpen(e, s')
    decreases q - i
  {
    s' := HoldNext(e, s, now, i, q);
    if i < q {
      s' := HoldUntilFound(e, s', now, i + 1, q);
    }
  }

  lemma NotAfter(log: seq<RawLog>, t: int, q: nat)
    requires Chronological(log) && q < |log| && t <= log[q].timestamp
    ensures SeekTo(log, t) <= q
  {
    SeekSplits(log, t);
  }

  /** A new stream, behind a fresh gate for the stored record at q, starts at or before it. */
  lemma Restream(e: Env, s: Sys, now: int, q: nat) returns (s': Sys, i: nat)
    requires Reachable(e, STRICT, s, now) && (s.producer.Requesting? || s.producer.Streaming?)
    requires Chronological(s.log) && q < |s.log| && Genuine(e, s.log[q]) && Stored(e, s) == Found(CheckpointOf(e.hasher, s.log[q]))
    ensures Reachable(e, STRICT, s', now) && s' == s.(producer := Streaming(i), obs := s'.obs) && i <= q
    ensures e.name in s'.obs.gates && s'.obs.gates[e.name] == NewGate(CheckpointOf(e.hasher, s.log[q]))
  {
    s' := Reattach(e, s, now);
    i := SeekTo(s.log, s'.producer.start);
    NotAfter(s.log, s'.producer.start, q);
    s' := Do(e, STRICT, s', now, Connect);
  }

  /** A reconnect after the record at q, the first of its time, delivers nothing to the processor
      but what follows it. */
  lemma ResumeAfter(e: Env, s: Sys, now: int, q: nat) returns (s': Sys)
    requires Reachable(e, STRICT, s, now) && Idle(s) && (s.producer.Requesting? || s.producer.Streaming?) && s.rotated == 0
    requires GenuineLog(e, s.log) && q < |s.log| && Stored(e, s) == Found(CheckpointOf(e.hasher, s.log[q]))
    requires forall j :: 0 <= j < q ==> s.log[j].timestamp < s.log[q].timestamp
    ensures Reachable(e, STRICT, s', now) && s' == s.(producer := Streaming(q + 1), obs := s'.obs) && GateOpen(e, s')
  {
    var i;
    s', i := Restream(e, s, now, q);
    s' := HoldUntilFound(e, s', now, i, q);
  }

  /** A tie that fits, followed by a later record: a run without rotation or failed start loads
      and on one clock ends drained, with the tie's second record unprocessed and the stored
      checkpoint past it. */
  lemma TieIsOvertaken(e: Env, log: seq<RawLog>, n: nat, q: nat) returns (s: Sys)
    requires GenuineLog(e, log) && TieAt(log, n, q) && q - n <= e.channel
    ensures Reachable(e, STRICT, s, NewestTime(log)) && Idle(s) && Drained(s) && s.log == log && s.rotated == 0
    ensures s.base <= log[n].timestamp && log[n] !in s.processed
    ensures Stored(e, s).Found? && log[n].timestamp < Stored(e, s).checkpoint.lastTimestamp
  {
    var now := NewestTime(log);
    TieTimes(log, n, q);
    var s0 := PassTie(e, log, n, q);
    s := ResumeAfter(e, s0, now, q);
    s := FollowTo(e, STRICT, s, now, |log|);
    LaterThanTie(log, n, q);
  }

  lemma LaterThanTie(log: seq<RawLog>, n: nat, q: nat)
    requires Chronological(log) && TieAt(log, n, q)
    ensures log[n] !in log[q + 1..|log|] && log[n].timestamp < log[|log| - 1].timestamp
  {
    assert forall i :: q < i < |log| ==> log[q].timestamp <= log[i].timestamp;
  }

  // ---------------------------------------------------- ties and coarse rotation

  /** The tie is in the log: a is the first record of its time, b another one. */
  predicate Tie(log: seq<RawLog>, a: RawLog, b: RawLog) {
    && b in log && SeekTo(log, b.timestamp) < |log| && a == log[SeekTo(log, b.timestamp)]
    && a.timestamp == b.timestamp && a != b
  }

  /** Where the tie's time begins and ends, and where its second record is. */
  lemma TieIsAhead(log: seq<RawLog>, a: RawLog, b: RawLog, p: nat, q: nat)
    requires Chronological(log) && b in log && p < |log| && a == log[p] && a.timestamp == b.timestamp && a != b
    requires Splits(log, b.timestamp, p) && Splits(log, b.timestamp + 1, q)
    ensures p < q && log[q - 1].timestamp == b.timestamp && log[0].timestamp <= b.timestamp
    ensures b !in log[..p + 1] && b !in log[q..|log|]
    ensures b.timestamp < NewestTime(log) <==> q < |log|
  {
    assert log[q - 1].timestamp < b.timestamp + 1;
    forall i | 0 <= i < |log| && log[i] == b ensures p < i < q {
    }
  }

  lemma FlushAt(e: Env, log: seq<RawLog>, n: nat) returns (s: Sys)
    requires GenuineLog(e, log) && 0 < n <= |log|
    ensures Reachable(e, ROTATING, s, NewestTime(log)) && Idle(s) && e.name !in s.obs.gates
    ensures s.log == log && s.base == log[0].timestamp - e.window && s.rotated == 0 && s.producer == Streaming(n)
    ensures forall x :: x in s.processed ==> x in log[..n]
    ensures e.name in s.store.durable && s.store.durable[e.name] == CheckpointOf(e.hasher, log[n - 1])
  {
    s := FollowLog(e, ROTATING, log, n);
    s := Do(e, ROTATING, s, NewestTime(log), FlushStore(true));
  }

  /** a is processed and on disk, and the rest of its time is rotated away. */
  lemma RotateTie(e: Env, log: seq<RawLog>, a: RawLog, b: RawLog) returns (s: Sys)
    requires GenuineLog(e, log) && Tie(log, a, b)
    ensures Reachable(e, ROTATING, s, NewestTime(log)) && Idle(s) && e.name !in s.obs.gates && s.producer.Streaming?
    ensures s.log == log && s.base <= b.timestamp && NextPosition(s) == SeekTo(log, b.timestamp + 1)
    ensures b !in s.processed
  {
    SeekSplits(log, b.timestamp);
    SeekSplits(log, b.timestamp + 1);
    TieIsAhead(log, a, b, SeekTo(log, b.timestamp), SeekTo(log, b.timestamp + 1));
    s := FlushAt(e, log, SeekTo(log, b.timestamp) + 1);
    s := Do(e, ROTATING, s, NewestTime(log), Rotate(SeekTo(log, b.timestamp + 1)));
  }

  /** With rotation that may take unread records of the checkpoint's own time, any tie: a run
      ends drained with its second record unprocessed, and if a later record follows, with the
      stored checkpoint past it. */
  lemma TieIsRotatedAway(e: Env, log: seq<RawLog>, a: RawLog, b: RawLog) returns (s: Sys)
    requires GenuineLog(e, log) && Tie(log, a, b)
    ensures Reachable(e, ROTATING, s, NewestTime(log)) && Idle(s) && Drained(s) && s.log == log && s.rotated <= |log|
    ensures s.base <= b.timestamp && b !in s.processed
    ensures b.timestamp < NewestTime(log) ==> Stored(e, s).Found? && b.timestamp < Stored(e, s).checkpoint.lastTimestamp
  {
    SeekSplits(log, b.timestamp);
    SeekSplits(log, b.timestamp + 1);
    TieIsAhead(log, a, b, SeekTo(log, b.timestamp), SeekTo(log, b.timestamp + 1));
    var s0 := RotateTie(e, log, a, b);
    s := FollowTo(e, ROTATING, s0, NewestTime(log), |log|);
  }
}
