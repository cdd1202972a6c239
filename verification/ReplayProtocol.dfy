/** The replay protocol as a step system: one watched container's producer (attach, load,
    request a stream, deliver), the single consumer (filter, process, save), the batched
    store and crashes, interleaved arbitrarily at their lock boundaries, next to arbitrary
    traffic of other containers. The steps are the same functions that the classes of
    Replay, CheckpointStore and Observer are proved against. */
module ReplayProtocol {
  import opened Common
  import opened Replay
  import opened CheckpointStore
  import opened Observer

  /** The container under watch, the configured replay settings, and how many records the log
      channel holds. */
  datatype Env = Env(hasher: Hasher, name: Str, id: Str, overlap: nat, window: nat, channel: nat)

  /** Where runContainer and stream are in their sequence. */
  datatype Producer =
    | Detached
    | AttachLoaded(attachLoad: LoadResult)
    | Attached
    | StartLoaded(startLoad: LoadResult)
    | Requesting(start: int)
    | Streaming(cursor: nat)

  /** `log` and `rotated` are Docker's: all records so far, and how many of them are gone.
      `queue` is the log channel and the record taken off it last, until that is filtered;
      `inflight` what the filter released and is not yet
      processed; `saving` the record processed but not yet saved. `processed` and `base`
      are history: all records ever processed, and the replay start last resolved while the
      store held no checkpoint (zero if none was resolved since such a restart). */
  datatype Sys = Sys(log: seq<RawLog>, rotated: nat, store: StoreState, obs: ObserverState,
                     producer: Producer, queue: seq<RawLog>, inflight: seq<RawLog>, saving: Option<RawLog>,
                     processed: set<RawLog>, base: int)

  datatype Step =
    | Emit(record: RawLog)
    | Rotate(upTo: nat)
    | AttachLoad(readable: bool)
    | AttachGate
    | StartLoad(readable: bool)
    | ResolveStart(now: int)
    | Connect
    | Disconnect
    | Deliver
    | Consume
    | Process
    | SaveCheckpoint(commits: bool)
    | FlushStore(commits: bool)
    | Crash
    | OtherDeliver(foreign: RawLog)
    | OtherAttach(other: Str, otherLoad: LoadResult)

  /** A record as Docker timestamps it for this container. */
  predicate Genuine(e: Env, r: RawLog) {
    r.containerName == e.name && r.containerId == e.id && r.timestamp > ZERO_TIME
    && ValidCheckpoint(CheckpointOf(e.hasher, r))
  }

  function Initial(others: Table, limit: nat): (s: Sys) {
    Sys([], 0, Opened(others, limit), ObserverState(map[], map[], map[]), Detached, [], [], None, {}, ZERO_TIME)
  }

  /** The position of the first record at or after time t. */
  function SeekTo(log: seq<RawLog>, t: int): (i: nat)
    ensures i <= |log|
    ensures forall j :: 0 <= j < i ==> log[j].timestamp < t
    ensures i < |log| ==> log[i].timestamp >= t
  {
    if log == [] || log[0].timestamp >= t then 0 else 1 + SeekTo(log[1..], t)
  }

  /** The next record a stream delivers: Docker skips what has been rotated away. */
  function NextPosition(s: Sys): (i: nat)
    requires s.producer.Streaming?
  {
    if s.producer.cursor < s.rotated then s.rotated else s.producer.cursor
  }

  /** The store holds no checkpoint of this container. */
  predicate Unsaved(e: Env, store: StoreState) { e.name !in store.pending && e.name !in store.durable }

  /** A record can be put into the log channel. An idle consumer takes one off it. */
  predicate HasRoom(e: Env, s: Sys) {
    |s.queue| < e.channel + if s.inflight == [] && s.saving.None? then 1 else 0
  }

  predicate Enabled(e: Env, s: Sys, step: Step) {
    match step
    case Emit(r) => Genuine(e, r) && (s.log != [] ==> s.log[|s.log| - 1].timestamp <= r.timestamp)
    // Rotation takes no record with a time later than the durable checkpoint's.
    case Rotate(upTo) =>
      && s.rotated <= upTo <= |s.log|
      && e.name in s.store.durable
      && (upTo == 0 || s.log[upTo - 1].timestamp <= s.store.durable[e.name].lastTimestamp)
    case AttachLoad(_) => s.producer.Detached?
    case AttachGate => s.producer.AttachLoaded?
    case StartLoad(_) => s.producer.Attached?
    case ResolveStart(_) => s.producer.StartLoaded?
    case Connect => s.producer.Requesting?
    // runContainer attaches again only after stream has returned, hence after replayStart.
    case Disconnect => s.producer.Requesting? || s.producer.Streaming?
    case Deliver => s.producer.Streaming? && NextPosition(s) < |s.log| && HasRoom(e, s)
    case Consume => s.queue != [] && s.inflight == [] && s.saving.None?
    case Process => s.inflight != [] && s.saving.None?
    case SaveCheckpoint(_) => s.saving.Some?
    case FlushStore(_) => true
    case Crash => true
    case OtherDeliver(r) => r.containerName != e.name && HasRoom(e, s)
    case OtherAttach(name, _) => name != e.name
  }

  function AttachGateNow(e: Env, s: Sys): Sys
    requires s.producer.AttachLoaded?
  {
    s.(obs := AttachGateStep(AttachIdStep(s.obs, e.name, e.id).0, e.name, s.producer.attachLoad), producer := Attached)
  }

  function ResolveStartAt(e: Env, s: Sys, now: int): Sys
    requires s.producer.StartLoaded?
  {
    var (obs, start) := ResolveStartStep(s.obs, e.name, s.producer.startLoad, now, e.window, e.overlap);
    s.(obs := obs, producer := Requesting(start),
       base := if s.producer.startLoad.Missing? && Unsaved(e, s.store) then start else s.base)
  }

  function DeliverNext(s: Sys): Sys
    requires s.producer.Streaming? && NextPosition(s) < |s.log|
  {
    s.(queue := s.queue + [s.log[NextPosition(s)]], producer := Streaming(NextPosition(s) + 1))
  }

  function ConsumeNext(e: Env, s: Sys): Sys
    requires s.queue != []
  {
    var (obs, out) := FilterStep(e.hasher, s.obs, s.queue[0]);
    s.(obs := obs, queue := s.queue[1..], inflight := out)
  }

  function ProcessNext(s: Sys): Sys
    requires s.inflight != []
  {
    s.(processed := s.processed + {s.inflight[0]}, saving := Some(s.inflight[0]), inflight := s.inflight[1..])
  }

  function SaveNow(e: Env, s: Sys, commits: bool): Sys
    requires s.saving.Some?
  {
    s.(store := SaveStep(s.store, CheckpointOf(e.hasher, s.saving.value), commits).0, saving := None)
  }

  /** Everything in memory is gone; the base is given up if nothing is on disk. */
  function Restarted(e: Env, s: Sys): Sys {
    s.(store := Opened(s.store.durable, s.store.limit), obs := ObserverState(map[], map[], map[]), producer := Detached,
       queue := [], inflight := [], saving := None,
       base := if e.name in s.store.durable then s.base else ZERO_TIME)
  }

  function Perform(e: Env, s: Sys, step: Step): (s': Sys)
    requires Enabled(e, s, step)
  {
    match step
    case Emit(r) => s.(log := s.log + [r])
    case Rotate(upTo) => s.(rotated := upTo)
    case AttachLoad(readable) => s.(producer := AttachLoaded(LoadStep(s.store, e.name, readable)))
    case AttachGate => AttachGateNow(e, s)
    case StartLoad(readable) => s.(producer := StartLoaded(LoadStep(s.store, e.name, readable)))
    case ResolveStart(now) => ResolveStartAt(e, s, now)
    case Connect => s.(producer := Streaming(SeekTo(s.log, s.producer.start)))
    case Disconnect => s.(producer := Detached)
    case Deliver => DeliverNext(s)
    case Consume => ConsumeNext(e, s)
    case Process => ProcessNext(s)
    case SaveCheckpoint(commits) => SaveNow(e, s, commits)
    case FlushStore(commits) => s.(store := FlushStep(s.store, commits).0)
    case Crash => Restarted(e, s)
    case OtherDeliver(r) => s.(queue := s.queue + [r])
    case OtherAttach(name, loaded) => s.(obs := AttachGateStep(s.obs, name, loaded))
  }

  /** s' is reached from s by performing the steps of run, each enabled when performed. */
  ghost predicate Reaches(e: Env, s: Sys, run: seq<Step>, s': Sys)
    decreases |run|
  {
    if run == [] then s == s'
    else Enabled(e, s, run[0]) && Reaches(e, Perform(e, s, run[0]), run[1..], s')
  }

  /** A replay start is taken from the clock although the store holds a checkpoint by now: the
      load that missed it came first, and no earlier start is remembered. */
  predicate StaleStep(e: Env, s: Sys, step: Step) {
    && step.ResolveStart? && s.producer.StartLoaded? && s.producer.startLoad.Missing?
    && !Unsaved(e, s.store) && e.name !in s.obs.initialStarts
  }

  /** No start of the run is stale. */
  ghost predicate NoStaleStart(e: Env, s: Sys, run: seq<Step>)
    decreases |run|
  {
    run != [] ==> Enabled(e, s, run[0]) && !StaleStep(e, s, run[0]) && NoStaleStart(e, Perform(e, s, run[0]), run[1..])
  }

  // ------------------------------------------------------------------ the claims

  predicate Chronological(log: seq<RawLog>) { forall i, j :: 0 <= i < j < |log| ==> log[i].timestamp <= log[j].timestamp }

  /** Timestamps never go back, and no two different records share one earlier than `until`. */
  predicate UnambiguousBelow(log: seq<RawLog>, until: int) {
    Chronological(log)
    && forall i, j :: 0 <= i < j < |log| && log[i].timestamp == log[j].timestamp < until ==> log[i] == log[j]
  }

  /** The time of the newest record. */
  function NewestTime(log: seq<RawLog>): int { if log == [] then ZERO_TIME else log[|log| - 1].timestamp }

  /** No two different records share a timestamp. */
  predicate Unambiguous(log: seq<RawLog>) { UnambiguousBelow(log, NewestTime(log) + 1) }

  /** No two different records share a timestamp that a later record follows. */
  predicate NoBuriedTie(log: seq<RawLog>) { UnambiguousBelow(log, NewestTime(log)) }

  /** Every record from the base up to time t has been processed. */
  ghost predicate ProcessedUpTo(s: Sys, t: int) {
    forall r :: r in s.log && s.base <= r.timestamp <= t ==> r in s.processed
  }

  /** No stored checkpoint, in memory or on disk, is ahead of the processing. */
  ghost predicate CheckpointsAreSafe(e: Env, s: Sys) {
    && (e.name in s.store.pending ==> ProcessedUpTo(s, s.store.pending[e.name].lastTimestamp))
    && (e.name in s.store.durable ==> ProcessedUpTo(s, s.store.durable[e.name].lastTimestamp))
  }

  /** Record r is from the base on, unprocessed, and older than the checkpoint. */
  ghost predicate Passed(s: Sys, cp: Checkpoint, r: RawLog) {
    r in s.log && s.base <= r.timestamp < cp.lastTimestamp && r !in s.processed
  }

  /** What a restart or a reconnect could resume from: a checkpoint in memory or on disk. */
  predicate IsStored(e: Env, s: Sys, cp: Checkpoint) {
    || (e.name in s.store.pending && s.store.pending[e.name] == cp)
    || (e.name in s.store.durable && s.store.durable[e.name] == cp)
  }

  /** A stored checkpoint has passed an unprocessed record. */
  ghost predicate Overtaken(e: Env, s: Sys) { exists cp, r :: IsStored(e, s, cp) && Passed(s, cp, r) }

  /** Every record from the base on has been processed. */
  ghost predicate AllProcessed(s: Sys) {
    forall r :: r in s.log && s.base <= r.timestamp ==> r in s.processed
  }

  /** The stream has caught up and nothing is queued or in flight. */
  predicate Drained(s: Sys) {
    && s.producer.Streaming? && NextPosition(s) >= |s.log|
    && s.queue == [] && s.inflight == []
  }

  // --------------------------------------------------------------- the invariant
  // Its parts are predicates of just the components they speak about.

  /** What is on its way to the processor, in order. */
  function Pipeline(s: Sys): (w: seq<RawLog>) { s.inflight + s.queue }

  /** The times for which a claim is made. */
  datatype Span = Span(from: int, until: int)

  predicate Claimed(span: Span, t: int) { span.from <= t < span.until }

  ghost predicate Covered(log: seq<RawLog>, span: Span, done: set<RawLog>, t: int) {
    forall r :: r in log && Claimed(span, r.timestamp) && r.timestamp <= t ==> r in done
  }

  /** Everything older than t is processed or in the pipeline w. */
  ghost predicate Reached(log: seq<RawLog>, span: Span, done: set<RawLog>, w: seq<RawLog>, t: int) {
    forall r :: r in log && Claimed(span, r.timestamp) && r.timestamp < t ==> r in done || r in w
  }

  /** In front of each of the container's records in the pipeline, everything older is
      processed or comes earlier in it. */
  ghost predicate NoHoles(name: Str, log: seq<RawLog>, span: Span, done: set<RawLog>, w: seq<RawLog>) {
    forall k :: 0 <= k < |w| && w[k].containerName == name ==> Reached(log, span, done, w[..k], w[k].timestamp)
  }

  /** Time t is not beyond the newest record. */
  predicate InLogTime(log: seq<RawLog>, t: int) {
    log != [] && t <= log[|log| - 1].timestamp
  }

  /** A checkpoint of this container that is not ahead of the processing. */
  ghost predicate Safe(e: Env, log: seq<RawLog>, span: Span, done: set<RawLog>, cp: Checkpoint) {
    && cp.containerName == e.name && cp.containerId == e.id && ValidCheckpoint(cp)
    && InLogTime(log, cp.lastTimestamp) && log[0].timestamp <= cp.lastTimestamp && Covered(log, span, done, cp.lastTimestamp)
  }

  ghost predicate LogInv(e: Env, until: int, log: seq<RawLog>) {
    UnambiguousBelow(log, until) && forall r :: r in log ==> Genuine(e, r)
  }

  ghost predicate RotatedInv(log: seq<RawLog>, span: Span, done: set<RawLog>, rotated: nat, stored: bool) {
    && rotated <= |log| && (rotated > 0 ==> stored)
    && forall i :: 0 <= i < rotated && Claimed(span, log[i].timestamp) ==> log[i] in done
  }

  ghost predicate StoreInv(e: Env, log: seq<RawLog>, span: Span, done: set<RawLog>, store: StoreState) {
    && !store.closing && !store.closed
    && (e.name in store.pending ==> Safe(e, log, span, done, store.pending[e.name]))
    && (e.name in store.durable ==> Safe(e, log, span, done, store.durable[e.name]))
  }

  predicate BufferInv(log: seq<RawLog>, g: Gate) {
    forall i :: 0 <= i < |g.buffered| ==> g.buffered[i] in log && g.buffered[i].timestamp <= g.checkpoint.lastTimestamp
  }

  predicate OwnRecords(name: Str, g: Gate) {
    forall i :: 0 <= i < |g.buffered| ==> g.buffered[i].containerName == name
  }

  ghost predicate GateInv(e: Env, log: seq<RawLog>, span: Span, done: set<RawLog>, gates: map<Str, Gate>) {
    && (forall n :: n in gates ==> OwnRecords(n, gates[n]))
    && (e.name in gates ==> Safe(e, log, span, done, gates[e.name].checkpoint) && BufferInv(log, gates[e.name]))
  }

  ghost predicate ProducerInv(e: Env, log: seq<RawLog>, span: Span, done: set<RawLog>, w: seq<RawLog>, p: Producer) {
    match p
    case Detached => true
    case AttachLoaded(loaded) => loaded.Found? ==> Safe(e, log, span, done, loaded.checkpoint)
    case Attached => true
    case StartLoaded(loaded) => loaded.Found? ==> Safe(e, log, span, done, loaded.checkpoint)
    case Requesting(start) =>
      Reached(log, span, done, w, start) && (start <= span.from || start <= ZERO_TIME || InLogTime(log, start))
    case Streaming(cursor) =>
      cursor <= |log| && forall i :: 0 <= i < cursor && Claimed(span, log[i].timestamp) ==> log[i] in done || log[i] in w
  }

  ghost predicate PipelineInv(e: Env, log: seq<RawLog>, span: Span, done: set<RawLog>, w: seq<RawLog>) {
    && (forall k :: 0 <= k < |w| && w[k].containerName == e.name ==> w[k] in log)
    && NoHoles(e.name, log, span, done, w)
  }

  ghost predicate SavingInv(e: Env, log: seq<RawLog>, span: Span, done: set<RawLog>, saving: Option<RawLog>) {
    saving.Some? && saving.value.containerName == e.name ==>
      saving.value in log && Covered(log, span, done, saving.value.timestamp)
  }

  /** While no start has been fixed, the base is zero. */
  predicate BaseInv(e: Env, s: Sys) {
    && (e.name in s.obs.initialStarts ==> s.base == s.obs.initialStarts[e.name])
    && (e.name !in s.obs.initialStarts && Unsaved(e, s.store) ==> s.base == ZERO_TIME)
    && (s.producer.StartLoaded? && s.producer.startLoad.Found? ==> !Unsaved(e, s.store))
  }

  /** What every step keeps, about the records from the base on and before `until`. */
  ghost predicate Inv(e: Env, until: int, s: Sys) {
    && LogInv(e, until, s.log)
    && RotatedInv(s.log, Span(s.base, until), s.processed, s.rotated, e.name in s.store.durable)
    && StoreInv(e, s.log, Span(s.base, until), s.processed, s.store)
    && GateInv(e, s.log, Span(s.base, until), s.processed, s.obs.gates)
    && ProducerInv(e, s.log, Span(s.base, until), s.processed, Pipeline(s), s.producer)
    && PipelineInv(e, s.log, Span(s.base, until), s.processed, Pipeline(s))
    && SavingInv(e, s.log, Span(s.base, until), s.processed, s.saving)
    && BaseInv(e, s)
  }

  // ------------------------------------------------- records and pipelines move

  lemma SameTimeSameRecord(log: seq<RawLog>, until: int, r: RawLog, x: RawLog)
    requires UnambiguousBelow(log, until) && r in log && x in log && r.timestamp == x.timestamp < until
    ensures r == x
  {
    var i :| 0 <= i < |log| && log[i] == r;
    var j :| 0 <= j < |log| && log[j] == x;
  }

  lemma NewestIsLast(log: seq<RawLog>, until: int, r: RawLog)
    requires UnambiguousBelow(log, until) && r in log
    ensures InLogTime(log, r.timestamp) && log[0].timestamp <= r.timestamp
  {
    var i :| 0 <= i < |log| && log[i] == r;
  }

  lemma AppendToPipeline(e: Env, log: seq<RawLog>, span: Span, done: set<RawLog>, w: seq<RawLog>, x: RawLog)
    requires PipelineInv(e, log, span, done, w)
    requires x.containerName == e.name ==> x in log && Reached(log, span, done, w, x.timestamp)
    ensures PipelineInv(e, log, span, done, w + [x])
  {
    forall k | 0 <= k < |w + [x]| && (w + [x])[k].containerName == e.name
      ensures Reached(log, span, done, (w + [x])[..k], (w + [x])[k].timestamp)
    {
      assert (w + [x])[..k] == w[..k];
      if k == |w| { assert w[..k] == w; }
    }
  }

  /** Whatever was processed or on its way still is. */
  ghost predicate NoneLost(log: seq<RawLog>, span: Span, done: set<RawLog>, w: seq<RawLog>, done': set<RawLog>, w': seq<RawLog>) {
    done <= done' && forall r :: r in w && r in log && Claimed(span, r.timestamp) ==> r in done' || r in w'
  }

  lemma ProducerFollows(e: Env, log: seq<RawLog>, span: Span, done: set<RawLog>, w: seq<RawLog>,
                        done': set<RawLog>, w': seq<RawLog>, p: Producer)
    requires ProducerInv(e, log, span, done, w, p) && NoneLost(log, span, done, w, done', w')
    ensures ProducerInv(e, log, span, done', w', p)
  {
  }

  /** The head may leave the pipeline once it needs no more processing. */
  lemma DropHead(e: Env, log: seq<RawLog>, span: Span, done: set<RawLog>, w: seq<RawLog>)
    requires w != [] && PipelineInv(e, log, span, done, w)
    requires w[0] in done || w[0] !in log || !Claimed(span, w[0].timestamp)
    ensures PipelineInv(e, log, span, done, w[1..])
    ensures NoneLost(log, span, done, w, done, w[1..])
  {
    assert w == [w[0]] + w[1..];
    forall k | 0 <= k < |w[1..]| && w[1..][k].containerName == e.name
      ensures Reached(log, span, done, w[1..][..k], w[1..][k].timestamp)
    {
      assert w[k + 1] == w[1..][k];
      assert w[..k + 1] == [w[0]] + w[1..][..k];
    }
  }

  /** Records no later than a covered time may be put in front of the pipeline. */
  lemma Prepend(e: Env, log: seq<RawLog>, span: Span, done: set<RawLog>, front: seq<RawLog>, w: seq<RawLog>, t: int)
    requires PipelineInv(e, log, span, done, w) && Covered(log, span, done, t)
    requires forall i :: 0 <= i < |front| ==> front[i].containerName != e.name || (front[i] in log && front[i].timestamp <= t)
    ensures PipelineInv(e, log, span, done, front + w)
  {
    forall k | 0 <= k < |front + w| && (front + w)[k].containerName == e.name
      ensures Reached(log, span, done, (front + w)[..k], (front + w)[k].timestamp)
    {
      if k >= |front| {
        assert (front + w)[..k] == front + w[..k - |front|];
      }
    }
  }

  lemma MoreDone(e: Env, log: seq<RawLog>, span: Span, done: set<RawLog>, more: set<RawLog>, w: seq<RawLog>)
    requires done <= more && PipelineInv(e, log, span, done, w)
    ensures PipelineInv(e, log, span, more, w)
  {
    forall k | 0 <= k < |w| && w[k].containerName == e.name ensures Reached(log, span, more, w[..k], w[k].timestamp) {
      assert Reached(log, span, done, w[..k], w[k].timestamp);
    }
  }

  // ------------------------------------------------------- every step keeps it

  /** A new record r is not older than any other, and equal to those of its time if before `until`. */
  ghost predicate NotOlder(log: seq<RawLog>, until: int, r: RawLog) {
    forall x :: x in log ==> x.timestamp <= r.timestamp && (x.timestamp == r.timestamp < until ==> x == r)
  }

  lemma GrowLog(e: Env, until: int, log: seq<RawLog>, r: RawLog)
    requires LogInv(e, until, log) && Genuine(e, r) && UnambiguousBelow(log + [r], until)
    ensures LogInv(e, until, log + [r]) && NotOlder(log, until, r)
  {
    forall x | x in log ensures x.timestamp <= r.timestamp && (x.timestamp == r.timestamp < until ==> x == r) {
      var i :| 0 <= i < |log| && log[i] == x;
      assert (log + [r])[i] == x && (log + [r])[|log|] == r;
    }
  }

  /** A new record is not older than anything claimed so far. */
  lemma GrowClaims(e: Env, log: seq<RawLog>, span: Span, done: set<RawLog>, r: RawLog, t: int)
    requires NotOlder(log, span.until, r) && InLogTime(log, t)
    ensures InLogTime(log + [r], t) && (log + [r])[0] == log[0]
    ensures Covered(log, span, done, t) ==> Covered(log + [r], span, done, t)
  {
    assert log[|log| - 1] in log && (log + [r])[|log|] == r;
  }

  lemma GrowSafe(e: Env, log: seq<RawLog>, span: Span, done: set<RawLog>, r: RawLog, cp: Checkpoint)
    requires NotOlder(log, span.until, r)
    ensures Safe(e, log, span, done, cp) ==> Safe(e, log + [r], span, done, cp)
  {
    if InLogTime(log, cp.lastTimestamp) {
      GrowClaims(e, log, span, done, r, cp.lastTimestamp);
    }
  }

  lemma EmitKeepsSafe(e: Env, until: int, s: Sys, r: RawLog)
    requires NotOlder(s.log, until, r)
    requires StoreInv(e, s.log, Span(s.base, until), s.processed, s.store)
    requires GateInv(e, s.log, Span(s.base, until), s.processed, s.obs.gates)
    ensures StoreInv(e, s.log + [r], Span(s.base, until), s.processed, s.store)
    ensures GateInv(e, s.log + [r], Span(s.base, until), s.processed, s.obs.gates)
  {
    if e.name in s.store.pending {
      GrowSafe(e, s.log, Span(s.base, until), s.processed, r, s.store.pending[e.name]);
    }
    if e.name in s.store.durable {
      GrowSafe(e, s.log, Span(s.base, until), s.processed, r, s.store.durable[e.name]);
    }
    if e.name in s.obs.gates {
      GrowSafe(e, s.log, Span(s.base, until), s.processed, r, s.obs.gates[e.name].checkpoint);
    }
  }

  lemma EmitKeepsProducer(e: Env, log: seq<RawLog>, span: Span, done: set<RawLog>, w: seq<RawLog>, p: Producer, r: RawLog)
    requires ProducerInv(e, log, span, done, w, p) && Genuine(e, r) && NotOlder(log, span.until, r)
    ensures ProducerInv(e, log + [r], span, done, w, p)
  {
    match p
    case AttachLoaded(loaded) => if loaded.Found? { GrowSafe(e, log, span, done, r, loaded.checkpoint); }
    case StartLoaded(loaded) => if loaded.Found? { GrowSafe(e, log, span, done, r, loaded.checkpoint); }
    case Requesting(start) => if log != [] { assert log[|log| - 1] in log; }
    case _ =>
  }

  lemma EmitKeepsInv(e: Env, until: int, s: Sys, r: RawLog)
    requires Inv(e, until, s) && Enabled(e, s, Emit(r)) && UnambiguousBelow(s.log + [r], until)
    ensures Inv(e, until, s.(log := s.log + [r]))
  {
    var s' := s.(log := s.log + [r]);
    assert Pipeline(s') == Pipeline(s);
    GrowLog(e, until, s.log, r);
    EmitKeepsSafe(e, until, s, r);
    EmitKeepsProducer(e, s.log, Span(s.base, until), s.processed, Pipeline(s), s.producer, r);
    EmitKeepsPipeline(e, s.log, Span(s.base, until), s.processed, Pipeline(s), r);
    if s.saving.Some? && s.saving.value in s.log {
      NewestIsLast(s.log, until, s.saving.value);
      GrowClaims(e, s.log, Span(s.base, until), s.processed, r, s.saving.value.timestamp);
    }
  }

  lemma EmitKeepsPipeline(e: Env, log: seq<RawLog>, span: Span, done: set<RawLog>, w: seq<RawLog>, r: RawLog)
    requires PipelineInv(e, log, span, done, w) && NotOlder(log, span.until, r)
    ensures PipelineInv(e, log + [r], span, done, w)
  {
    forall k | 0 <= k < |w| && w[k].containerName == e.name ensures Reached(log + [r], span, done, w[..k], w[k].timestamp) {
      assert Reached(log, span, done, w[..k], w[k].timestamp);
    }
  }

  lemma RotateKeepsInv(e: Env, until: int, s: Sys, upTo: nat)
    requires Inv(e, until, s) && Enabled(e, s, Rotate(upTo))
    ensures Inv(e, until, Perform(e, s, Rotate(upTo)))
  {
    var t := s.store.durable[e.name].lastTimestamp;
    forall i | 0 <= i < upTo && Claimed(Span(s.base, until), s.log[i].timestamp) ensures s.log[i] in s.processed {
      assert s.log[i].timestamp <= s.log[upTo - 1].timestamp;
      assert s.log[i] in s.log && s.log[i].timestamp <= t;
    }
  }

  lemma LoadKeepsInv(e: Env, until: int, s: Sys, step: Step)
    requires step.AttachLoad? || step.StartLoad?
    requires Inv(e, until, s) && Enabled(e, s, step)
    ensures Inv(e, until, Perform(e, s, step))
  {
  }

  lemma AttachGateKeepsInv(e: Env, until: int, s: Sys)
    requires Inv(e, until, s) && Enabled(e, s, AttachGate)
    ensures Inv(e, until, AttachGateNow(e, s))
  {
  }

  lemma ResolveStartKeepsInv(e: Env, until: int, s: Sys, now: int)
    requires Inv(e, until, s) && Enabled(e, s, ResolveStart(now)) && !StaleStep(e, s, ResolveStart(now))
    ensures Inv(e, until, ResolveStartAt(e, s, now))
  {
    var s' := ResolveStartAt(e, s, now);
    if s.base != s'.base {
      LaterBase(e, until, s, s'.base);
    }
  }

  /** Raising the span from zero only weakens what is claimed. */
  lemma LaterBase(e: Env, until: int, s: Sys, from: int)
    requires Inv(e, until, s) && s.base == ZERO_TIME
    ensures var span := Span(from, until);
            && RotatedInv(s.log, span, s.processed, s.rotated, e.name in s.store.durable)
            && StoreInv(e, s.log, span, s.processed, s.store) && GateInv(e, s.log, span, s.processed, s.obs.gates)
            && PipelineInv(e, s.log, span, s.processed, Pipeline(s)) && SavingInv(e, s.log, span, s.processed, s.saving)
  {
    var w, span := Pipeline(s), Span(from, until);
    assert forall i :: 0 <= i < s.rotated ==> s.log[i] in s.log;
    forall k | 0 <= k < |w| && w[k].containerName == e.name ensures Reached(s.log, span, s.processed, w[..k], w[k].timestamp) {
      assert Reached(s.log, Span(s.base, until), s.processed, w[..k], w[k].timestamp);
    }
  }

  lemma ConnectKeepsInv(e: Env, until: int, s: Sys)
    requires Inv(e, until, s) && Enabled(e, s, Connect)
    ensures Inv(e, until, Perform(e, s, Connect))
  {
  }

  /** Behind what is rotated away or already read comes record i, and with it the cursor moves. */
  lemma CursorMoves(log: seq<RawLog>, until: int, span: Span, done: set<RawLog>, w: seq<RawLog>, i: nat)
    requires UnambiguousBelow(log, until) && i < |log|
    requires forall j :: 0 <= j < i && Claimed(span, log[j].timestamp) ==> log[j] in done || log[j] in w
    ensures Reached(log, span, done, w, log[i].timestamp)
    ensures forall j :: 0 <= j < i + 1 && Claimed(span, log[j].timestamp) ==> log[j] in done || log[j] in w + [log[i]]
  {
    forall r | r in log && Claimed(span, r.timestamp) && r.timestamp < log[i].timestamp ensures r in done || r in w {
      var j :| 0 <= j < |log| && log[j] == r;
      assert j < i;
    }
  }

  lemma DeliverKeepsInv(e: Env, until: int, s: Sys)
    requires Inv(e, until, s) && Enabled(e, s, Deliver)
    ensures Inv(e, until, DeliverNext(s))
  {
    var s', i, span := DeliverNext(s), NextPosition(s), Span(s.base, until);
    assert Pipeline(s') == Pipeline(s) + [s.log[i]];
    assert forall j :: 0 <= j < i && Claimed(span, s.log[j].timestamp) ==> s.log[j] in s.processed || s.log[j] in Pipeline(s);
    CursorMoves(s.log, until, span, s.processed, Pipeline(s), i);
    AppendToPipeline(e, s.log, span, s.processed, Pipeline(s), s.log[i]);
  }

  lemma OtherDeliverKeepsInv(e: Env, until: int, s: Sys, r: RawLog)
    requires Inv(e, until, s) && Enabled(e, s, OtherDeliver(r))
    ensures Inv(e, until, Perform(e, s, OtherDeliver(r)))
  {
    var s' := Perform(e, s, OtherDeliver(r));
    assert Pipeline(s') == Pipeline(s) + [r];
    AppendToPipeline(e, s.log, Span(s.base, until), s.processed, Pipeline(s), r);
    ProducerFollows(e, s.log, Span(s.base, until), s.processed, Pipeline(s), s.processed, Pipeline(s'), s.producer);
  }

  lemma OtherAttachKeepsInv(e: Env, until: int, s: Sys, name: Str, loaded: LoadResult)
    requires Inv(e, until, s) && Enabled(e, s, OtherAttach(name, loaded))
    ensures Inv(e, until, Perform(e, s, OtherAttach(name, loaded)))
  {
  }

  lemma ProcessKeepsInv(e: Env, until: int, s: Sys)
    requires Inv(e, until, s) && Enabled(e, s, Process)
    ensures Inv(e, until, ProcessNext(s))
  {
    var s' := ProcessNext(s);
    var w, x := Pipeline(s), s.inflight[0];
    assert w[0] == x && Pipeline(s') == w[1..];
    MoreDone(e, s.log, Span(s.base, until), s.processed, s'.processed, w);
    DropHead(e, s.log, Span(s.base, until), s'.processed, w);
    ProducerFollows(e, s.log, Span(s.base, until), s.processed, w, s'.processed, w[1..], s.producer);
    if x.containerName == e.name {
      assert w[0] in s.log && Reached(s.log, Span(s.base, until), s.processed, w[..0], x.timestamp);
      forall r | r in s.log && Claimed(Span(s.base, until), r.timestamp) && r.timestamp <= x.timestamp ensures r in s'.processed {
        if r.timestamp == x.timestamp {
          SameTimeSameRecord(s.log, until, r, x);
        }
      }
    }
  }

  /** Saves and flushes never forget a container, and store nothing that was not given them. */
  lemma StoreMoves(e: Env, log: seq<RawLog>, span: Span, done: set<RawLog>, store: StoreState, cp: Checkpoint, commits: bool)
    requires StoreInv(e, log, span, done, store)
    requires cp.containerName == e.name && ValidCheckpoint(cp) ==> Safe(e, log, span, done, cp)
    ensures var saved, flushed := SaveStep(store, cp, commits).0, FlushStep(store, commits).0;
            && StoreInv(e, log, span, done, saved) && StoreInv(e, log, span, done, flushed)
            && (e.name in store.durable ==> e.name in saved.durable && e.name in flushed.durable)
            && (Unsaved(e, saved) ==> Unsaved(e, store)) && (Unsaved(e, flushed) ==> Unsaved(e, store))
  {
  }

  lemma SaveKeepsInv(e: Env, until: int, s: Sys, commits: bool)
    requires Inv(e, until, s) && Enabled(e, s, SaveCheckpoint(commits))
    ensures Inv(e, until, SaveNow(e, s, commits))
  {
    var r := s.saving.value;
    if r.containerName == e.name {
      NewestIsLast(s.log, until, r);
      assert Genuine(e, r);
    }
    StoreMoves(e, s.log, Span(s.base, until), s.processed, s.store, CheckpointOf(e.hasher, r), commits);
  }

  lemma FlushKeepsInv(e: Env, until: int, s: Sys, commits: bool)
    requires Inv(e, until, s)
    ensures Inv(e, until, s.(store := FlushStep(s.store, commits).0))
  {
    StoreMoves(e, s.log, Span(s.base, until), s.processed, s.store, Checkpoint([], [], 0, []), commits);
  }

  lemma CrashKeepsInv(e: Env, until: int, s: Sys)
    requires Inv(e, until, s)
    ensures Inv(e, until, Restarted(e, s))
  {
  }

  /** Another container's record moves only that container's gate and releases only its own. */
  lemma ForeignGate(e: Env, log: seq<RawLog>, span: Span, done: set<RawLog>, obs: ObserverState, x: RawLog)
    requires GateInv(e, log, span, done, obs.gates) && x.containerName != e.name
    ensures var (obs', out) := FilterStep(e.hasher, obs, x);
            && GateInv(e, log, span, done, obs'.gates) && obs'.initialStarts == obs.initialStarts
            && forall i :: 0 <= i < |out| ==> out[i].containerName != e.name
  {
  }

  lemma ForeignPipeline(e: Env, log: seq<RawLog>, span: Span, done: set<RawLog>, w: seq<RawLog>, out: seq<RawLog>)
    requires PipelineInv(e, log, span, done, w) && w != [] && w[0] !in log
    requires forall i :: 0 <= i < |out| ==> out[i].containerName != e.name
    ensures PipelineInv(e, log, span, done, out + w[1..]) && NoneLost(log, span, done, w, done, out + w[1..])
  {
    DropHead(e, log, span, done, w);
    Prepend(e, log, span, done, out, w[1..], span.from - 1);
  }

  lemma ConsumeForeign(e: Env, until: int, s: Sys)
    requires Inv(e, until, s) && Enabled(e, s, Consume) && s.queue[0].containerName != e.name
    ensures Inv(e, until, ConsumeNext(e, s))
  {
    var s' := ConsumeNext(e, s);
    assert Pipeline(s) == s.queue && Pipeline(s') == s'.inflight + s.queue[1..];
    ForeignGate(e, s.log, Span(s.base, until), s.processed, s.obs, s.queue[0]);
    ForeignPipeline(e, s.log, Span(s.base, until), s.processed, s.queue, s'.inflight);
    ProducerFollows(e, s.log, Span(s.base, until), s.processed, s.queue, s.processed, Pipeline(s'), s.producer);
  }

  /** The gate lets a record of its container through, holds it back only if it is already
      covered, or releases it behind the covered records it was holding. */
  lemma OwnGate(e: Env, log: seq<RawLog>, span: Span, done: set<RawLog>, obs: ObserverState, x: RawLog)
    requires GateInv(e, log, span, done, obs.gates) && x in log && x.containerName == e.name
    ensures GateInv(e, log, span, done, FilterStep(e.hasher, obs, x).0.gates)
    ensures FilterStep(e.hasher, obs, x).0.initialStarts == obs.initialStarts
    ensures var out := FilterStep(e.hasher, obs, x).1;
            || out == [x]
            || (out == [] && (x in done || !Claimed(span, x.timestamp)))
            || (e.name in obs.gates && out == obs.gates[e.name].buffered + [x])
  {
  }

  /** What the gate released takes the place of the record it was given. */
  lemma OwnPipeline(e: Env, log: seq<RawLog>, span: Span, done: set<RawLog>, w: seq<RawLog>, gates: map<Str, Gate>, out: seq<RawLog>)
    requires PipelineInv(e, log, span, done, w) && w != [] && GateInv(e, log, span, done, gates)
    requires || out == [w[0]]
             || (out == [] && (w[0] in done || !Claimed(span, w[0].timestamp)))
             || (e.name in gates && out == gates[e.name].buffered + [w[0]])
    ensures PipelineInv(e, log, span, done, out + w[1..]) && NoneLost(log, span, done, w, done, out + w[1..])
  {
    assert w == [w[0]] + w[1..];
    if out == [] {
      DropHead(e, log, span, done, w);
      assert out + w[1..] == w[1..];
    } else if out != [w[0]] {
      var g := gates[e.name];
      Reassociate(g.buffered, [w[0]], w[1..]);
      Prepend(e, log, span, done, g.buffered, w, g.checkpoint.lastTimestamp);
    }
  }

  lemma ConsumeOwn(e: Env, until: int, s: Sys)
    requires Inv(e, until, s) && Enabled(e, s, Consume) && s.queue[0].containerName == e.name
    ensures Inv(e, until, ConsumeNext(e, s))
  {
    var s' := ConsumeNext(e, s);
    assert Pipeline(s) == s.queue && Pipeline(s') == s'.inflight + s.queue[1..];
    assert Pipeline(s)[0] in s.log;
    OwnGate(e, s.log, Span(s.base, until), s.processed, s.obs, s.queue[0]);
    OwnPipeline(e, s.log, Span(s.base, until), s.processed, s.queue, s.obs.gates, s'.inflight);
    ProducerFollows(e, s.log, Span(s.base, until), s.processed, s.queue, s.processed, Pipeline(s'), s.producer);
  }

  predicate IsProducerStep(step: Step) {
    step.AttachLoad? || step.AttachGate? || step.StartLoad? || step.ResolveStart? || step.Connect? || step.Deliver?
  }

  predicate IsConsumerStep(step: Step) { step.Consume? || step.Process? || step.SaveCheckpoint? || step.FlushStore? }

  lemma ProducerStepKeepsInv(e: Env, until: int, s: Sys, step: Step)
    requires IsProducerStep(step) && Inv(e, until, s) && Enabled(e, s, step) && !StaleStep(e, s, step)
    ensures Inv(e, until, Perform(e, s, step))
  {
    match step
    case AttachLoad(_) => LoadKeepsInv(e, until, s, step);
    case AttachGate => AttachGateKeepsInv(e, until, s);
    case StartLoad(_) => LoadKeepsInv(e, until, s, step);
    case ResolveStart(now) => ResolveStartKeepsInv(e, until, s, now);
    case Connect => ConnectKeepsInv(e, until, s);
    case Deliver => DeliverKeepsInv(e, until, s);
  }

  lemma ConsumerStepKeepsInv(e: Env, until: int, s: Sys, step: Step)
    requires IsConsumerStep(step) && Inv(e, until, s) && Enabled(e, s, step)
    ensures Inv(e, until, Perform(e, s, step))
  {
    match step
    case Consume => if s.queue[0].containerName == e.name { ConsumeOwn(e, until, s); } else { ConsumeForeign(e, until, s); }
    case Process => ProcessKeepsInv(e, until, s);
    case SaveCheckpoint(commits) => SaveKeepsInv(e, until, s, commits);
    case FlushStore(commits) => FlushKeepsInv(e, until, s, commits);
  }

  lemma DisconnectKeepsInv(e: Env, until: int, s: Sys)
    requires Inv(e, until, s)
    ensures Inv(e, until, s.(producer := Detached))
  {
  }

  lemma OutsideStepKeepsInv(e: Env, until: int, s: Sys, step: Step)
    requires !IsProducerStep(step) && !IsConsumerStep(step)
    requires Inv(e, until, s) && Enabled(e, s, step) && UnambiguousBelow(Perform(e, s, step).log, until)
    ensures Inv(e, until, Perform(e, s, step))
  {
    match step
    case Emit(r) => EmitKeepsInv(e, until, s, r);
    case Rotate(upTo) => RotateKeepsInv(e, until, s, upTo);
    case Disconnect => DisconnectKeepsInv(e, until, s);
    case Crash => CrashKeepsInv(e, until, s);
    case OtherDeliver(r) => OtherDeliverKeepsInv(e, until, s, r);
    case OtherAttach(name, loaded) => OtherAttachKeepsInv(e, until, s, name, loaded);
  }

  lemma StepKeepsInv(e: Env, until: int, s: Sys, step: Step)
    requires Inv(e, until, s) && Enabled(e, s, step) && !StaleStep(e, s, step) && UnambiguousBelow(Perform(e, s, step).log, until)
    ensures Inv(e, until, Perform(e, s, step))
  {
    if IsProducerStep(step) {
      ProducerStepKeepsInv(e, until, s, step);
    } else if IsConsumerStep(step) {
      ConsumerStepKeepsInv(e, until, s, step);
    } else {
      OutsideStepKeepsInv(e, until, s, step);
    }
  }

  lemma UnambiguousPrefix(log: seq<RawLog>, longer: seq<RawLog>, until: int)
    requires log <= longer && UnambiguousBelow(longer, until)
    ensures UnambiguousBelow(log, until)
  {
    assert forall i :: 0 <= i < |log| ==> log[i] == longer[i];
  }

  /** Docker only appends. */
  lemma {:induction false} LogOnlyGrows(e: Env, s: Sys, run: seq<Step>, s': Sys)
    requires Reaches(e, s, run, s')
    ensures s.log <= s'.log
    decreases |run|
  {
    if run != [] {
      LogOnlyGrows(e, Perform(e, s, run[0]), run[1..], s');
    }
  }

  lemma {:induction false} RunKeepsInv(e: Env, until: int, s: Sys, run: seq<Step>, s': Sys)
    requires Inv(e, until, s) && Reaches(e, s, run, s') && NoStaleStart(e, s, run) && UnambiguousBelow(s'.log, until)
    ensures Inv(e, until, s')
    decreases |run|
  {
    if run != [] {
      var s1 := Perform(e, s, run[0]);
      LogOnlyGrows(e, s1, run[1..], s');
      UnambiguousPrefix(s1.log, s'.log, until);
      StepKeepsInv(e, until, s, run[0]);
      RunKeepsInv(e, until, s1, run[1..], s');
    }
  }

  // ---------------------------------------------------------------- the theorems

  lemma InitialInv(e: Env, until: int, others: Table, limit: nat)
    requires e.name !in others
    ensures Inv(e, until, Initial(others, limit))
  {
  }

  lemma DrainedIsProcessed(e: Env, log: seq<RawLog>, span: Span, done: set<RawLog>, p: Producer, rotated: nat, stored: bool)
    requires p.Streaming? && ProducerInv(e, log, span, done, [], p) && RotatedInv(log, span, done, rotated, stored)
    requires (if p.cursor < rotated then rotated else p.cursor) >= |log|
    ensures forall r :: r in log && Claimed(span, r.timestamp) ==> r in done
  {
    forall r | r in log && Claimed(span, r.timestamp) ensures r in done {
      var i :| 0 <= i < |log| && log[i] == r;
    }
  }

  /** At least once, over every interleaving of attaching, loading, delivering, consuming,
      saving, flushing (or failing to), reconnecting and crashing, as long as no start is stale:
      of the records before any time up to which no two different ones share a timestamp, none
      from the base on up to a stored checkpoint is unprocessed, and none at all from the base
      on once the stream is drained. */
  lemma AtLeastOnceBelow(e: Env, others: Table, limit: nat, run: seq<Step>, s: Sys, until: int)
    requires e.name !in others
    requires Reaches(e, Initial(others, limit), run, s) && NoStaleStart(e, Initial(others, limit), run)
    requires UnambiguousBelow(s.log, until)
    ensures forall cp :: IsStored(e, s, cp) ==> InLogTime(s.log, cp.lastTimestamp)
    ensures forall cp, r :: IsStored(e, s, cp) && r in s.log && s.base <= r.timestamp <= cp.lastTimestamp && r.timestamp < until
              ==> r in s.processed
    ensures Drained(s) ==> forall r :: r in s.log && s.base <= r.timestamp < until ==> r in s.processed
  {
    InitialInv(e, until, others, limit);
    RunKeepsInv(e, until, Initial(others, limit), run, s);
    InvMeansProcessed(e, until, s);
  }

  lemma InvMeansProcessed(e: Env, until: int, s: Sys)
    requires Inv(e, until, s)
    ensures forall cp :: IsStored(e, s, cp) ==> InLogTime(s.log, cp.lastTimestamp)
    ensures forall cp, r :: IsStored(e, s, cp) && r in s.log && s.base <= r.timestamp <= cp.lastTimestamp && r.timestamp < until
              ==> r in s.processed
    ensures Drained(s) ==> forall r :: r in s.log && s.base <= r.timestamp < until ==> r in s.processed
  {
    var span := Span(s.base, until);
    if Drained(s) {
      DrainedIsProcessed(e, s.log, span, s.processed, s.producer, s.rotated, e.name in s.store.durable);
    }
    forall cp | IsStored(e, s, cp) ensures Safe(e, s.log, span, s.processed, cp) {
    }
  }

  /** If no two different records share a timestamp and no start is stale, no checkpoint that a
      restart or a reconnect could resume from is ahead of the processing, and once the stream
      is drained every record from the base on has been processed. */
  lemma AtLeastOnce(e: Env, others: Table, limit: nat, run: seq<Step>, s: Sys)
    requires e.name !in others
    requires Reaches(e, Initial(others, limit), run, s) && NoStaleStart(e, Initial(others, limit), run)
    requires Unambiguous(s.log)
    ensures CheckpointsAreSafe(e, s)
    ensures Drained(s) ==> AllProcessed(s)
  {
    AtLeastOnceBelow(e, others, limit, run, s, NewestTime(s.log) + 1);
    assert forall r :: r in s.log ==> r.timestamp <= NewestTime(s.log);
    if e.name in s.store.pending {
      assert IsStored(e, s, s.store.pending[e.name]);
    }
    if e.name in s.store.durable {
      assert IsStored(e, s, s.store.durable[e.name]);
    }
  }

  /** Ties at the newest timestamp cannot hurt: without a stale start no stored checkpoint ever
      passes an unprocessed record unless a tie is buried under a later record. */
  lemma NotOvertaken(e: Env, others: Table, limit: nat, run: seq<Step>, s: Sys)
    requires e.name !in others
    requires Reaches(e, Initial(others, limit), run, s) && NoStaleStart(e, Initial(others, limit), run)
    requires NoBuriedTie(s.log)
    ensures !Overtaken(e, s)
  {
    AtLeastOnceBelow(e, others, limit, run, s, NewestTime(s.log));
  }

  /** Where the next stream starts, by what the second load found. */
  function StartTime(e: Env, s: Sys, now: int): int
    requires s.producer.StartLoaded?
  {
    match s.producer.startLoad
    case Found(cp) => cp.lastTimestamp - e.overlap
    case Missing => if e.name in s.obs.initialStarts then s.obs.initialStarts[e.name] else now - e.window
    case LoadError => ZERO_TIME
  }

  /** A stream delivers from the first record that is within the overlap before the
      checkpoint, or not before the initial start; after a failed load it delivers all. */
  lemma OverlapIsReplayed(e: Env, s: Sys, now: int)
    requires Chronological(s.log) && (forall r :: r in s.log ==> Genuine(e, r)) && s.producer.StartLoaded?
    ensures var s' := Perform(e, ResolveStartAt(e, s, now), Connect);
            s'.producer.Streaming? && forall i :: 0 <= i < |s.log| ==>
              (s'.producer.cursor <= i <==> StartTime(e, s, now) <= s.log[i].timestamp)
  {
    var start := ResolveStartAt(e, s, now).producer.start;
    forall i | 0 <= i < |s.log| ensures SeekTo(s.log, start) <= i <==> StartTime(e, s, now) <= s.log[i].timestamp {
      assert s.log[i] in s.log;
    }
  }

  // -------------------------------------------------------------------- the base

  /** As long as nothing is stored, the base is the start remembered, or zero if there is none. */
  predicate UnsavedBase(e: Env, store: StoreState, initialStarts: map<Str, int>, base: int) {
    Unsaved(e, store) ==> base == if e.name in initialStarts then initialStarts[e.name] else ZERO_TIME
  }

  predicate FoundIsSaved(e: Env, store: StoreState, p: Producer) {
    p.StartLoaded? && p.startLoad.Found? ==> !Unsaved(e, store)
  }

  /** No save or flush makes the store forget a container. */
  lemma StoreRemembers(e: Env, store: StoreState, cp: Checkpoint, commits: bool)
    ensures var saved, flushed := SaveStep(store, cp, commits).0, FlushStep(store, commits).0;
            && (Unsaved(e, saved) || Unsaved(e, flushed) ==> Unsaved(e, store))
            && (e.name in store.durable ==> e.name in saved.durable && e.name in flushed.durable)
  {
  }

  /** The two steps that can move the base. */
  predicate BaseMayMove(e: Env, s: Sys, step: Step)
    requires Enabled(e, s, step)
  {
    || (step.ResolveStart? && s.base == ZERO_TIME && Unsaved(e, s.store)
        && s.producer.startLoad.Missing? && e.name !in s.obs.initialStarts)
    || (step.Crash? && e.name !in s.store.durable && Perform(e, s, step).base == ZERO_TIME)
  }

  lemma StepKeepsUnsavedBase(e: Env, s: Sys, step: Step)
    requires UnsavedBase(e, s.store, s.obs.initialStarts, s.base) && FoundIsSaved(e, s.store, s.producer) && Enabled(e, s, step)
    ensures var s' := Perform(e, s, step);
            UnsavedBase(e, s'.store, s'.obs.initialStarts, s'.base) && FoundIsSaved(e, s'.store, s'.producer)
    ensures Perform(e, s, step).base != s.base ==> BaseMayMove(e, s, step)
  {
    match step
    case SaveCheckpoint(commits) => StoreRemembers(e, s.store, CheckpointOf(e.hasher, s.saving.value), commits);
    case FlushStore(commits) => StoreRemembers(e, s.store, Checkpoint([], [], 0, []), commits);
    case _ =>
  }

  lemma {:induction false} RunKeepsUnsavedBase(e: Env, s: Sys, run: seq<Step>, s': Sys)
    requires UnsavedBase(e, s.store, s.obs.initialStarts, s.base) && FoundIsSaved(e, s.store, s.producer) && Reaches(e, s, run, s')
    ensures UnsavedBase(e, s'.store, s'.obs.initialStarts, s'.base) && FoundIsSaved(e, s'.store, s'.producer)
    decreases |run|
  {
    if run != [] {
      StepKeepsUnsavedBase(e, s, run[0]);
      RunKeepsUnsavedBase(e, Perform(e, s, run[0]), run[1..], s');
    }
  }

  /** In every run whatsoever the base moves only when a start is first fixed while nothing is
      stored, or when a crash finds nothing on disk; a reconnect never moves it again. */
  lemma BaseMovesOnlyWhen(e: Env, others: Table, limit: nat, run: seq<Step>, s: Sys, step: Step)
    requires e.name !in others && Reaches(e, Initial(others, limit), run, s) && Enabled(e, s, step)
    ensures Perform(e, s, step).base != s.base ==> BaseMayMove(e, s, step)
  {
    RunKeepsUnsavedBase(e, Initial(others, limit), run, s);
    StepKeepsUnsavedBase(e, s, step);
  }

  lemma StepFixesBase(e: Env, s: Sys, step: Step)
    requires e.name in s.store.durable && Enabled(e, s, step)
    ensures var s' := Perform(e, s, step); s'.base == s.base && e.name in s'.store.durable
  {
    match step
    case SaveCheckpoint(commits) => StoreRemembers(e, s.store, CheckpointOf(e.hasher, s.saving.value), commits);
    case FlushStore(commits) => StoreRemembers(e, s.store, Checkpoint([], [], 0, []), commits);
    case _ =>
  }

  /** Once a checkpoint is on disk it stays there and the base never moves again, in any run. */
  lemma {:induction false} BaseIsFixedOnceDurable(e: Env, s: Sys, more: seq<Step>, s': Sys)
    requires e.name in s.store.durable && Reaches(e, s, more, s')
    ensures s'.base == s.base && e.name in s'.store.durable
    decreases |more|
  {
    if more != [] {
      StepFixesBase(e, s, more[0]);
      BaseIsFixedOnceDurable(e, Perform(e, s, more[0]), more[1..], s');
    }
  }

  // ----------------------------------------------------------- the log channel

  /** The channel holds its capacity; one more record may be with a consumer that has not
      filtered it yet. */
  predicate ChannelFits(channel: nat, queue: seq<RawLog>, inflight: seq<RawLog>, saving: Option<RawLog>) {
    |queue| <= channel || (|queue| == channel + 1 && inflight == [] && saving.None?)
  }

  lemma StepKeepsChannel(e: Env, s: Sys, step: Step)
    requires Enabled(e, s, step) && ChannelFits(e.channel, s.queue, s.inflight, s.saving)
    ensures var s' := Perform(e, s, step); ChannelFits(e.channel, s'.queue, s'.inflight, s'.saving)
  {
    match step
    case AttachGate => assert AttachGateNow(e, s).queue == s.queue;
    case ResolveStart(now) => assert ResolveStartAt(e, s, now).queue == s.queue;
    case Deliver => assert |DeliverNext(s).queue| == |s.queue| + 1;
    case Consume => assert |ConsumeNext(e, s).queue| == |s.queue| - 1;
    case Process => assert ProcessNext(s).queue == s.queue;
    case SaveCheckpoint(commits) => assert SaveNow(e, s, commits).queue == s.queue;
    case Crash => assert Restarted(e, s).queue == [];
    case _ =>
  }

  lemma {:induction false} RunKeepsChannel(e: Env, s: Sys, run: seq<Step>, s': Sys)
    requires Reaches(e, s, run, s') && ChannelFits(e.channel, s.queue, s.inflight, s.saving)
    ensures ChannelFits(e.channel, s'.queue, s'.inflight, s'.saving)
    decreases |run|
  {
    if run != [] {
      StepKeepsChannel(e, s, run[0]);
      RunKeepsChannel(e, Perform(e, s, run[0]), run[1..], s');
    }
  }

  /** In every run the log channel, shared by all containers, stays within its capacity. */
  lemma ChannelIsBounded(e: Env, others: Table, limit: nat, run: seq<Step>, s: Sys)
    requires Reaches(e, Initial(others, limit), run, s)
    ensures ChannelFits(e.channel, s.queue, s.inflight, s.saving)
  {
    RunKeepsChannel(e, Initial(others, limit), run, s);
  }
}
