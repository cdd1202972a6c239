/** The processor's context capture and alert bookkeeping as a step system: one entry at a
    time under the processor's mutex, timers and waiting goroutines interleaved with it,
    removal of a recreated container, and shutdown. Model of internal/processor/processor.go
    with the collectors of AfterCollector. Which entries are kept and which alerts an entry
    raises are arbitrary. */
module Processor {
  import opened Common
  import opened ContextBuffer
  import opened AfterCollector
  import Capturing = Capture

  /** The context settings of the rule that raised an alert. */
  datatype Wanted = Wanted(before: int, after: int, maxBytes: int)

  /** A queued alert. Its trigger is entry number `pos` of the `epoch`-th life of `key`. */
  datatype Pending = Pending(key: Str, epoch: nat, pos: nat, wanted: Wanted, collector: Collector, discard: bool)

  /** An alert handed to the sink with its capture. */
  datatype Emission = Emission(id: nat, key: Str, epoch: nat, pos: nat, wanted: Wanted, capture: Capture)

  /** What the holder of the mutex is doing: nothing, or processing `entry` with collectors
      still to be fed, one collector to be finished, and alerts still to be queued. */
  datatype Activity = Idle | Working(entry: LogEntry, todo: set<nat>, finishing: Option<nat>, alerts: seq<Wanted>)

  type Kept = map<(Str, nat), seq<LogEntry>>

  /** `kept` is history: per container life, every entry kept as context. `queued` holds all
      alerts ever queued; `waiting` those whose goroutine has not returned. */
  datatype Sys = Sys(capacity: nat, buffers: map<Str, seq<LogEntry>>, pending: map<Str, set<nat>>, closed: bool,
                     activity: Activity, queued: map<nat, Pending>, waiting: set<nat>, emitted: seq<Emission>,
                     kept: Kept, epochs: map<Str, nat>, nextId: nat)

  datatype Step =
    | Begin(entry: LogEntry, keeps: bool, alerts: seq<Wanted>)
    | AddOne(id: nat)
    | FinishOne
    | QueueNext
    | EndProcess
    | Timer(id: nat)
    | Await(id: nat)
    | RemoveContainer(key: Str)
    | Close

  function EpochOf(epochs: map<Str, nat>, key: Str): nat { if key in epochs then epochs[key] else 0 }
  function KeptAt(kept: Kept, key: Str, epoch: nat): seq<LogEntry> { if (key, epoch) in kept then kept[(key, epoch)] else [] }
  function PendingAt(pending: map<Str, set<nat>>, key: Str): set<nat> { if key in pending then pending[key] else {} }
  function BufferAt(buffers: map<Str, seq<LogEntry>>, key: Str): seq<LogEntry> { if key in buffers then buffers[key] else [] }

  function CurrentKept(s: Sys, key: Str): seq<LogEntry> { KeptAt(s.kept, key, EpochOf(s.epochs, key)) }

  function Initial(capacity: nat): Sys {
    Sys.Sys(capacity, map[], map[], false, Idle, map[], {}, [], map[], map[], 0)
  }

  predicate Enabled(s: Sys, step: Step) {
    match step
    case Begin(_, keeps, alerts) => s.activity.Idle? && !s.closed && (alerts != [] ==> keeps)
    case AddOne(id) => s.activity.Working? && id in s.activity.todo && s.activity.finishing.None? && id in s.queued
    case FinishOne => s.activity.Working? && s.activity.finishing.Some? && s.activity.finishing.value in s.queued
    case QueueNext => s.activity.Working? && s.activity.todo == {} && s.activity.finishing.None? && s.activity.alerts != []
    case EndProcess => s.activity.Working? && s.activity.todo == {} && s.activity.finishing.None? && s.activity.alerts == []
    case Timer(id) => id in s.queued
    case Await(id) => s.activity.Idle? && id in s.waiting && id in s.queued && s.queued[id].collector.finished
    case RemoveContainer(_) => s.activity.Idle?
    case Close => s.activity.Idle? && !s.closed
  }

  function Stopped(p: Pending): Pending { p.(collector := FinishLocked(p.collector, true).0) }

  /** Process, for an entry that is kept: it is now the newest of its container's life. */
  function BeginEntry(s: Sys, entry: LogEntry, alerts: seq<Wanted>): Sys {
    var key := ContainerKey(entry);
    s.(kept := s.kept[(key, EpochOf(s.epochs, key)) := CurrentKept(s, key) + [entry]],
       activity := Working(entry, PendingAt(s.pending, key), None, alerts))
  }

  /** The locked half of Add for one pending collector. */
  function FeedCollector(s: Sys, id: nat): Sys
    requires s.activity.Working? && id in s.queued
  {
    var p := s.queued[id];
    var (c, full) := AddLocked(p.collector, s.activity.entry);
    s.(queued := s.queued[id := p.(collector := c)],
       activity := s.activity.(todo := s.activity.todo - {id}, finishing := if full then Some(id) else None))
  }

  /** The finishing half of Add. */
  function FinishCollector(s: Sys, id: nat): Sys
    requires s.activity.Working? && id in s.queued
  {
    var p := s.queued[id];
    s.(queued := s.queued[id := p.(collector := FinishLocked(p.collector, false).0)], activity := s.activity.(finishing := None))
  }

  /** The alert that is queued next; its trigger is the newest entry of its container. */
  function NextAlert(s: Sys): Pending
    requires s.activity.Working? && s.activity.alerts != []
  {
    var entry, wanted := s.activity.entry, s.activity.alerts[0];
    var key := ContainerKey(entry);
    var h := CurrentKept(s, key);
    Pending(key, EpochOf(s.epochs, key), if h == [] then 0 else |h| - 1, wanted,
            Started(Suffix(BufferAt(s.buffers, key), wanted.before), entry, wanted.after), false)
  }

  function EmissionOf(id: nat, p: Pending): Emission {
    Emission(id, p.key, p.epoch, p.pos, p.wanted, p.collector.capture)
  }

  /** One request and one id are used up. */
  function Advanced(s: Sys): Sys
    requires s.activity.Working? && s.activity.alerts != []
  {
    s.(activity := s.activity.(alerts := s.activity.alerts[1..]), nextId := s.nextId + 1)
  }

  function EmitNow(s: Sys, p: Pending): Sys
    requires s.activity.Working? && s.activity.alerts != []
  {
    Advanced(s).(emitted := s.emitted + [EmissionOf(s.nextId, p)])
  }

  function Enqueue(s: Sys, p: Pending): Sys
    requires s.activity.Working? && s.activity.alerts != []
  {
    Advanced(s).(queued := s.queued[s.nextId := p],
                 pending := s.pending[p.key := PendingAt(s.pending, p.key) + {s.nextId}],
                 waiting := s.waiting + {s.nextId})
  }

  /** queueAlert: without after-context the alert is emitted at once, otherwise it waits. */
  function QueueAlert(s: Sys): Sys
    requires s.activity.Working? && s.activity.alerts != []
  {
    var p := NextAlert(s);
    if p.wanted.after <= 0 then EmitNow(s, p) else Enqueue(s, p)
  }

  /** The end of Process: the entry goes into the context buffer. */
  function EndEntry(s: Sys): Sys
    requires s.activity.Working?
  {
    var key := ContainerKey(s.activity.entry);
    s.(buffers := s.buffers[key := Suffix(BufferAt(s.buffers, key) + [s.activity.entry], s.capacity)], activity := Idle)
  }

  function StopCollector(s: Sys, id: nat): Sys
    requires id in s.queued
  {
    s.(queued := s.queued[id := Stopped(s.queued[id])])
  }

  /** awaitContext after its collector has delivered. */
  function AwaitContext(s: Sys, id: nat): Sys
    requires id in s.queued
  {
    var p := s.queued[id];
    if p.discard then s.(waiting := s.waiting - {id})
    else
      var items := PendingAt(s.pending, p.key) - {id};
      s.(waiting := s.waiting - {id},
         pending := if items == {} then s.pending - {p.key} else s.pending[p.key := items],
         emitted := s.emitted + [EmissionOf(id, p)])
  }

  function Dropped(s: Sys, key: Str): Sys {
    var gone := PendingAt(s.pending, key);
    s.(queued := map id | id in s.queued :: if id in gone then Stopped(s.queued[id]).(discard := true) else s.queued[id],
       pending := s.pending - {key}, buffers := s.buffers - {key},
       epochs := s.epochs[key := EpochOf(s.epochs, key) + 1])
  }

  function Closing(s: Sys): Sys {
    s.(closed := true,
       queued := map id | id in s.queued ::
                   if exists key :: key in s.pending && id in s.pending[key] then Stopped(s.queued[id]) else s.queued[id])
  }

  function Perform(s: Sys, step: Step): Sys
    requires Enabled(s, step)
  {
    match step
    case Begin(entry, keeps, alerts) => if keeps then BeginEntry(s, entry, alerts) else s
    case AddOne(id) => FeedCollector(s, id)
    case FinishOne => FinishCollector(s, s.activity.finishing.value)
    case QueueNext => QueueAlert(s)
    case EndProcess => EndEntry(s)
    case Timer(id) => StopCollector(s, id)
    case Await(id) => AwaitContext(s, id)
    case RemoveContainer(key) => Dropped(s, key)
    case Close => Closing(s)
  }

  ghost predicate Reaches(s: Sys, run: seq<Step>, s': Sys)
    decreases |run|
  {
    if run == [] then s == s' else Enabled(s, run[0]) && Reaches(Perform(s, run[0]), run[1..], s')
  }

  // ------------------------------------------------------------------ claims

  function Reach(before: int, capacity: nat): int { if before < capacity then before else capacity }

  /** The capture is the run of h around position pos: the trigger, the last
      min(before, capacity, pos) entries before it, and what directly follows it. */
  predicate IsSlice(h: seq<LogEntry>, capacity: nat, pos: nat, wanted: Wanted, c: Capture) {
    && pos + 1 + |c.after| <= |h|
    && c.trigger == h[pos]
    && c.before == Suffix(h[..pos], Reach(wanted.before, capacity))
    && c.after == h[pos + 1..pos + 1 + |c.after|]
  }

  predicate AfterFits(wanted: Wanted, c: Capture) {
    && (wanted.after > 0 ==> |c.after| <= wanted.after && (!c.timedOut ==> |c.after| == wanted.after))
    && (wanted.after <= 0 ==> c.after == [])
  }

  predicate EmissionOk(kept: Kept, capacity: nat, e: Emission) {
    IsSlice(KeptAt(kept, e.key, e.epoch), capacity, e.pos, e.wanted, e.capture) && AfterFits(e.wanted, e.capture)
  }

  predicate WasEmitted(emitted: seq<Emission>, id: nat) {
    exists i :: 0 <= i < |emitted| && emitted[i].id == id
  }

  ghost predicate EmittedOnce(emitted: seq<Emission>) {
    forall i, j :: 0 <= i < j < |emitted| ==> emitted[i].id != emitted[j].id
  }

  /** The three fates of a queued alert exclude one another and cover everything. */
  ghost predicate ExactlyOneFate(s: Sys, id: nat)
    requires id in s.queued
  {
    var open := id in PendingAt(s.pending, s.queued[id].key);
    var sent := WasEmitted(s.emitted, id);
    var dropped := s.queued[id].discard;
    (open && !sent && !dropped) || (!open && sent && !dropped) || (!open && !sent && dropped)
  }

  // --------------------------------------------------------------- invariant

  /** The container whose entry is being processed. */
  function Busy(activity: Activity): Option<Str> {
    if activity.Working? then Some(ContainerKey(activity.entry)) else None
  }

  /** The part of the current life of key that is already in the buffers. */
  function Settled(kept: Kept, epochs: map<Str, nat>, busy: Option<Str>, key: Str): seq<LogEntry> {
    var h := KeptAt(kept, key, EpochOf(epochs, key));
    if busy == Some(key) && h != [] then h[..|h| - 1] else h
  }

  predicate CaptureInv(kept: Kept, capacity: nat, p: Pending) {
    && IsSlice(KeptAt(kept, p.key, p.epoch), capacity, p.pos, p.wanted, p.collector.capture)
    && p.wanted.after == p.collector.after > 0 && |p.collector.capture.after| <= p.wanted.after
    && (p.collector.finished ==> AfterFits(p.wanted, p.collector.capture))
  }

  /** An unfinished collector has been fed everything kept since its trigger, except possibly
      the entry being processed. */
  predicate FedInv(kept: Kept, epochs: map<Str, nat>, activity: Activity, id: nat, p: Pending) {
    !p.collector.finished ==>
      && p.epoch == EpochOf(epochs, p.key)
      && p.pos + 1 + |p.collector.capture.after| + (if activity.Working? && id in activity.todo then 1 else 0)
         == |KeptAt(kept, p.key, p.epoch)|
      && (|p.collector.capture.after| < p.wanted.after || (activity.Working? && activity.finishing == Some(id)))
  }

  predicate BookInv(pending: map<Str, set<nat>>, waiting: set<nat>, emitted: seq<Emission>, id: nat, p: Pending) {
    && (id in PendingAt(pending, p.key) <==> id in waiting && !p.discard)
    && (p.discard ==> p.collector.finished)
    && (WasEmitted(emitted, id) <==> id !in waiting && !p.discard)
    && (!p.collector.finished ==> id in PendingAt(pending, p.key))
  }

  ghost predicate PendingInv(pending: map<Str, set<nat>>, queued: map<nat, Pending>) {
    forall key, id :: key in pending && id in pending[key] ==> id in queued && queued[id].key == key
  }

  ghost predicate EmittedInv(kept: Kept, capacity: nat, emitted: seq<Emission>, nextId: nat) {
    && (forall i :: 0 <= i < |emitted| ==> EmissionOk(kept, capacity, emitted[i]) && emitted[i].id < nextId)
    && EmittedOnce(emitted)
  }

  ghost predicate BuffersInv(buffers: map<Str, seq<LogEntry>>, capacity: nat, kept: Kept, epochs: map<Str, nat>, busy: Option<Str>) {
    forall key :: BufferAt(buffers, key) == Suffix(Settled(kept, epochs, busy, key), capacity)
  }

  /** The entry being processed is the last one kept. */
  predicate EntryInv(kept: Kept, epochs: map<Str, nat>, current: Option<LogEntry>) {
    current.Some? ==>
      var key := ContainerKey(current.value);
      var h := KeptAt(kept, key, EpochOf(epochs, key));
      h != [] && h[|h| - 1] == current.value
  }

  function Current(activity: Activity): Option<LogEntry> {
    if activity.Working? then Some(activity.entry) else None
  }

  predicate TodoInv(pending: map<Str, set<nat>>, activity: Activity) {
    activity.Working? ==> activity.todo <= PendingAt(pending, ContainerKey(activity.entry))
  }

  predicate FinishingInv(queued: map<nat, Pending>, activity: Activity) {
    activity.Working? && activity.finishing.Some? ==>
      var id := activity.finishing.value;
      && id in queued && id !in activity.todo
      && (!queued[id].collector.finished ==> |queued[id].collector.capture.after| == queued[id].wanted.after)
  }

  ghost predicate QueuedInv(s: Sys) {
    && (forall id :: id in s.queued ==> id < s.nextId)
    && s.waiting <= s.queued.Keys
    && (forall id :: id in s.queued ==> CaptureInv(s.kept, s.capacity, s.queued[id]))
    && (forall id :: id in s.queued ==> FedInv(s.kept, s.epochs, s.activity, id, s.queued[id]))
    && (forall id :: id in s.queued ==> BookInv(s.pending, s.waiting, s.emitted, id, s.queued[id]))
  }

  ghost predicate ClosedInv(closed: bool, activity: Activity, waiting: set<nat>, queued: map<nat, Pending>) {
    closed ==> activity.Idle? && forall id :: id in waiting && id in queued ==> queued[id].collector.finished
  }

  /** Nothing is kept under a life that has not begun. */
  ghost predicate EpochInv(kept: Kept, epochs: map<Str, nat>) {
    forall key, epoch :: (key, epoch) in kept ==> epoch <= EpochOf(epochs, key)
  }

  ghost predicate Inv(s: Sys) {
    && 0 < s.capacity && EpochInv(s.kept, s.epochs)
    && QueuedInv(s) && PendingInv(s.pending, s.queued)
    && EmittedInv(s.kept, s.capacity, s.emitted, s.nextId)
    && BuffersInv(s.buffers, s.capacity, s.kept, s.epochs, Busy(s.activity))
    && EntryInv(s.kept, s.epochs, Current(s.activity)) && TodoInv(s.pending, s.activity) && FinishingInv(s.queued, s.activity)
    && ClosedInv(s.closed, s.activity, s.waiting, s.queued)
  }

  // ------------------------------------------------------- every step keeps it

  lemma SliceGrows(h: seq<LogEntry>, e: LogEntry, capacity: nat, pos: nat, wanted: Wanted, c: Capture)
    requires IsSlice(h, capacity, pos, wanted, c)
    ensures IsSlice(h + [e], capacity, pos, wanted, c)
  {
    assert (h + [e])[..pos] == h[..pos];
  }

  /** Keeping one more entry leaves every capture a slice. */
  lemma KeptGrows(kept: Kept, key: Str, epoch: nat, e: LogEntry, capacity: nat)
    ensures var kept' := kept[(key, epoch) := KeptAt(kept, key, epoch) + [e]];
            && (forall p: Pending :: CaptureInv(kept, capacity, p) ==> CaptureInv(kept', capacity, p))
            && (forall m: Emission :: EmissionOk(kept, capacity, m) ==> EmissionOk(kept', capacity, m))
  {
    var kept' := kept[(key, epoch) := KeptAt(kept, key, epoch) + [e]];
    forall p: Pending | CaptureInv(kept, capacity, p) ensures CaptureInv(kept', capacity, p) {
      SliceGrows(KeptAt(kept, p.key, p.epoch), e, capacity, p.pos, p.wanted, p.collector.capture);
    }
    forall m: Emission | EmissionOk(kept, capacity, m) ensures EmissionOk(kept', capacity, m) {
      SliceGrows(KeptAt(kept, m.key, m.epoch), e, capacity, m.pos, m.wanted, m.capture);
    }
  }

  lemma BeginKeepsBuffers(buffers: map<Str, seq<LogEntry>>, capacity: nat, kept: Kept, epochs: map<Str, nat>, e: LogEntry)
    requires BuffersInv(buffers, capacity, kept, epochs, None)
    ensures var key := ContainerKey(e);
            var kept' := kept[(key, EpochOf(epochs, key)) := KeptAt(kept, key, EpochOf(epochs, key)) + [e]];
            BuffersInv(buffers, capacity, kept', epochs, Some(key))
  {
    var key := ContainerKey(e);
    var kept' := kept[(key, EpochOf(epochs, key)) := KeptAt(kept, key, EpochOf(epochs, key)) + [e]];
    forall k ensures BufferAt(buffers, k) == Suffix(Settled(kept', epochs, Some(key), k), capacity) {
      assert Settled(kept', epochs, Some(key), k) == Settled(kept, epochs, None, k);
    }
  }

  /** Every collector still to be fed is on the list of the entry's container. */
  lemma BeginKeepsFed(s: Sys, entry: LogEntry, alerts: seq<Wanted>)
    requires QueuedInv(s) && PendingInv(s.pending, s.queued) && s.activity.Idle?
    ensures var s' := BeginEntry(s, entry, alerts);
            forall id :: id in s.queued ==> FedInv(s'.kept, s'.epochs, s'.activity, id, s.queued[id])
  {
    var s' := BeginEntry(s, entry, alerts);
    forall id | id in s.queued ensures FedInv(s'.kept, s'.epochs, s'.activity, id, s.queued[id]) {
      var p := s.queued[id];
      assert FedInv(s.kept, s.epochs, s.activity, id, p) && BookInv(s.pending, s.waiting, s.emitted, id, p);
    }
  }

  lemma BeginKeepsInv(s: Sys, entry: LogEntry, alerts: seq<Wanted>)
    requires Inv(s) && s.activity.Idle? && !s.closed
    ensures Inv(BeginEntry(s, entry, alerts))
  {
    var key := ContainerKey(entry);
    KeptGrows(s.kept, key, EpochOf(s.epochs, key), entry, s.capacity);
    BeginKeepsFed(s, entry, alerts);
    BeginKeepsBuffers(s.buffers, s.capacity, s.kept, s.epochs, entry);
  }

  /** Replacing one queued alert by one with the same place and fate. */
  predicate SameFate(p: Pending, q: Pending) {
    p.key == q.key && p.epoch == q.epoch && p.pos == q.pos && p.wanted == q.wanted && p.discard == q.discard
    && (p.collector.finished ==> q.collector.finished)
  }

  lemma SameFateSameBooks(pending: map<Str, set<nat>>, waiting: set<nat>, emitted: seq<Emission>, id: nat, p: Pending, q: Pending)
    requires BookInv(pending, waiting, emitted, id, p) && SameFate(p, q)
    ensures BookInv(pending, waiting, emitted, id, q)
  {
  }

  lemma ReplaceOne(s: Sys, s': Sys, id: nat, q: Pending)
    requires QueuedInv(s) && PendingInv(s.pending, s.queued) && id in s.queued && SameFate(s.queued[id], q)
    requires s' == s.(queued := s.queued[id := q], activity := s'.activity)
    requires CaptureInv(s.kept, s.capacity, q) && FedInv(s.kept, s.epochs, s'.activity, id, q)
    requires forall m :: m in s.queued && m != id ==> FedInv(s.kept, s.epochs, s'.activity, m, s.queued[m])
    ensures QueuedInv(s') && PendingInv(s'.pending, s'.queued)
  {
    SameFateSameBooks(s.pending, s.waiting, s.emitted, id, s.queued[id], q);
    forall m | m in s'.queued
      ensures CaptureInv(s.kept, s.capacity, s'.queued[m]) && BookInv(s.pending, s.waiting, s.emitted, m, s'.queued[m])
    {
      if m != id {
        assert CaptureInv(s.kept, s.capacity, s.queued[m]) && BookInv(s.pending, s.waiting, s.emitted, m, s.queued[m]);
      }
    }
  }

  /** Feeding the entry being processed to a collector that still has to get it. */
  lemma FeedOne(kept: Kept, capacity: nat, epochs: map<Str, nat>, activity: Activity, id: nat, p: Pending)
    requires CaptureInv(kept, capacity, p) && FedInv(kept, epochs, activity, id, p)
    requires EntryInv(kept, epochs, Current(activity))
    requires activity.Working? && id in activity.todo && activity.finishing.None? && p.key == ContainerKey(activity.entry)
    ensures var (c, full) := AddLocked(p.collector, activity.entry);
            var q := p.(collector := c);
            var activity' := activity.(todo := activity.todo - {id}, finishing := if full then Some(id) else None);
            && SameFate(p, q) && CaptureInv(kept, capacity, q) && FedInv(kept, epochs, activity', id, q)
            && (full ==> |c.capture.after| == q.wanted.after)
  {
    var h, n := KeptAt(kept, p.key, p.epoch), |p.collector.capture.after|;
    if !p.collector.finished {
      assert h[p.pos + 1..p.pos + 1 + n + 1] == h[p.pos + 1..p.pos + 1 + n] + [activity.entry];
    }
  }

  lemma FeedKeepsInv(s: Sys, id: nat)
    requires Inv(s) && Enabled(s, AddOne(id))
    ensures Inv(FeedCollector(s, id))
  {
    var s', p := FeedCollector(s, id), s.queued[id];
    assert CaptureInv(s.kept, s.capacity, p) && FedInv(s.kept, s.epochs, s.activity, id, p);
    FeedOne(s.kept, s.capacity, s.epochs, s.activity, id, p);
    forall m | m in s.queued && m != id ensures FedInv(s.kept, s.epochs, s'.activity, m, s.queued[m]) {
      assert FedInv(s.kept, s.epochs, s.activity, m, s.queued[m]);
    }
    ReplaceOne(s, s', id, s'.queued[id]);
  }

  lemma FinishKeepsInv(s: Sys, id: nat)
    requires Inv(s) && s.activity.Working? && s.activity.finishing == Some(id)
    ensures Inv(FinishCollector(s, id))
  {
    var s', p := FinishCollector(s, id), s.queued[id];
    assert CaptureInv(s.kept, s.capacity, p) && FedInv(s.kept, s.epochs, s.activity, id, p);
    forall m | m in s.queued && m != id ensures FedInv(s.kept, s.epochs, s'.activity, m, s.queued[m]) {
      assert FedInv(s.kept, s.epochs, s.activity, m, s.queued[m]);
    }
    ReplaceOne(s, s', id, s'.queued[id]);
  }

  lemma StopOne(kept: Kept, capacity: nat, epochs: map<Str, nat>, activity: Activity, id: nat, p: Pending)
    requires CaptureInv(kept, capacity, p) && FedInv(kept, epochs, activity, id, p)
    ensures SameFate(p, Stopped(p)) && CaptureInv(kept, capacity, Stopped(p)) && FedInv(kept, epochs, activity, id, Stopped(p))
    ensures Stopped(p).collector.finished
  {
  }

  lemma StopKeepsInv(s: Sys, id: nat)
    requires Inv(s) && id in s.queued
    ensures Inv(StopCollector(s, id))
  {
    StopOne(s.kept, s.capacity, s.epochs, s.activity, id, s.queued[id]);
    ReplaceOne(s, StopCollector(s, id), id, Stopped(s.queued[id]));
  }

  lemma SettleEntry(h: seq<LogEntry>, capacity: nat)
    requires 0 < capacity && h != []
    ensures Suffix(Suffix(h[..|h| - 1], capacity) + [h[|h| - 1]], capacity) == Suffix(h, capacity)
  {
    SuffixOfAppend(h[..|h| - 1], h[|h| - 1], capacity);
    assert h == h[..|h| - 1] + [h[|h| - 1]];
  }

  lemma EndKeepsBuffers(buffers: map<Str, seq<LogEntry>>, capacity: nat, kept: Kept, epochs: map<Str, nat>, e: LogEntry)
    requires 0 < capacity && EntryInv(kept, epochs, Some(e)) && BuffersInv(buffers, capacity, kept, epochs, Some(ContainerKey(e)))
    ensures var key := ContainerKey(e);
            BuffersInv(buffers[key := Suffix(BufferAt(buffers, key) + [e], capacity)], capacity, kept, epochs, None)
  {
    var key := ContainerKey(e);
    var h := KeptAt(kept, key, EpochOf(epochs, key));
    SettleEntry(h, capacity);
    assert BufferAt(buffers, key) == Suffix(h[..|h| - 1], capacity);
    var buffers' := buffers[key := Suffix(BufferAt(buffers, key) + [e], capacity)];
    forall k ensures BufferAt(buffers', k) == Suffix(Settled(kept, epochs, None, k), capacity) {
      if k != key {
        assert BufferAt(buffers', k) == BufferAt(buffers, k);
      }
    }
  }

  lemma EndKeepsQueued(s: Sys)
    requires QueuedInv(s) && Enabled(s, EndProcess)
    ensures QueuedInv(EndEntry(s))
  {
    var s' := EndEntry(s);
    forall id | id in s.queued ensures FedInv(s'.kept, s'.epochs, s'.activity, id, s.queued[id]) {
      assert FedInv(s.kept, s.epochs, s.activity, id, s.queued[id]);
    }
  }

  lemma EndKeepsInv(s: Sys)
    requires Inv(s) && Enabled(s, EndProcess)
    ensures Inv(EndEntry(s))
  {
    EndKeepsQueued(s);
    EndKeepsBuffers(s.buffers, s.capacity, s.kept, s.epochs, s.activity.entry);
  }

  // ----------------------------------------------------- queueing and resolving

  lemma StartedIsSlice(h: seq<LogEntry>, capacity: nat, wanted: Wanted)
    requires h != []
    ensures var buffer := Suffix(h[..|h| - 1], capacity);
            IsSlice(h, capacity, |h| - 1, wanted, Started(Suffix(buffer, wanted.before), h[|h| - 1], wanted.after).capture)
  {
    SuffixOfSuffix(h[..|h| - 1], capacity, wanted.before);
    assert h[|h|..|h|] == [];
  }

  /** A new alert's capture starts as the slice that ends with its trigger. */
  lemma NewCapture(s: Sys)
    requires 0 < s.capacity && BuffersInv(s.buffers, s.capacity, s.kept, s.epochs, Busy(s.activity))
    requires EntryInv(s.kept, s.epochs, Current(s.activity)) && Enabled(s, QueueNext)
    ensures var p := NextAlert(s);
            var h := KeptAt(s.kept, p.key, p.epoch);
            |h| == p.pos + 1 && IsSlice(h, s.capacity, p.pos, p.wanted, p.collector.capture)
  {
    var key := ContainerKey(s.activity.entry);
    var h := CurrentKept(s, key);
    assert BufferAt(s.buffers, key) == Suffix(Settled(s.kept, s.epochs, Busy(s.activity), key), s.capacity);
    assert Settled(s.kept, s.epochs, Busy(s.activity), key) == h[..|h| - 1];
    StartedIsSlice(h, s.capacity, s.activity.alerts[0]);
  }

  lemma AppendEmission(emitted: seq<Emission>, e: Emission, kept: Kept, capacity: nat, nextId: nat, nextId': nat)
    requires EmittedInv(kept, capacity, emitted, nextId) && nextId <= nextId' && e.id < nextId'
    requires EmissionOk(kept, capacity, e) && !WasEmitted(emitted, e.id)
    ensures EmittedInv(kept, capacity, emitted + [e], nextId')
    ensures forall id :: WasEmitted(emitted + [e], id) <==> WasEmitted(emitted, id) || id == e.id
  {
    forall id ensures WasEmitted(emitted + [e], id) <==> WasEmitted(emitted, id) || id == e.id {
      if id == e.id {
        assert (emitted + [e])[|emitted|].id == id;
      } else if WasEmitted(emitted, id) {
        var i :| 0 <= i < |emitted| && emitted[i].id == id;
        assert (emitted + [e])[i].id == id;
      }
    }
  }

  lemma NewIdIsUnused(s: Sys)
    requires QueuedInv(s) && EmittedInv(s.kept, s.capacity, s.emitted, s.nextId)
    ensures s.nextId !in s.queued && !WasEmitted(s.emitted, s.nextId)
  {
  }

  lemma EmitNowKeepsQueued(s: Sys, p: Pending)
    requires QueuedInv(s) && Enabled(s, QueueNext)
    requires forall id: nat :: id < s.nextId ==> (WasEmitted(EmitNow(s, p).emitted, id) <==> WasEmitted(s.emitted, id))
    ensures QueuedInv(EmitNow(s, p))
  {
    var s' := EmitNow(s, p);
    forall id | id in s.queued
      ensures BookInv(s'.pending, s'.waiting, s'.emitted, id, s.queued[id]) && FedInv(s'.kept, s'.epochs, s'.activity, id, s.queued[id])
    {
      assert BookInv(s.pending, s.waiting, s.emitted, id, s.queued[id]) && FedInv(s.kept, s.epochs, s.activity, id, s.queued[id]);
    }
  }

  lemma EmitNowKeepsInv(s: Sys)
    requires Inv(s) && Enabled(s, QueueNext) && s.activity.alerts[0].after <= 0
    ensures Inv(EmitNow(s, NextAlert(s)))
  {
    var p := NextAlert(s);
    NewCapture(s);
    NewIdIsUnused(s);
    AppendEmission(s.emitted, EmissionOf(s.nextId, p), s.kept, s.capacity, s.nextId, s.nextId + 1);
    EmitNowKeepsQueued(s, p);
  }

  /** A new id disturbs no alert queued before. */
  lemma OtherUndisturbed(pending: map<Str, set<nat>>, waiting: set<nat>, emitted: seq<Emission>,
                         id: nat, p: Pending, key: Str, newId: nat)
    requires id < newId && BookInv(pending, waiting, emitted, id, p)
    ensures BookInv(pending[key := PendingAt(pending, key) + {newId}], waiting + {newId}, emitted, id, p)
  {
  }

  lemma EnqueueKeepsQueued(s: Sys, p: Pending)
    requires QueuedInv(s) && Enabled(s, QueueNext) && s.nextId !in s.queued && !WasEmitted(s.emitted, s.nextId)
    requires CaptureInv(s.kept, s.capacity, p) && FedInv(s.kept, s.epochs, Advanced(s).activity, s.nextId, p)
    requires !p.discard && !p.collector.finished
    ensures QueuedInv(Enqueue(s, p))
  {
    var s' := Enqueue(s, p);
    assert BookInv(s'.pending, s'.waiting, s'.emitted, s.nextId, p);
    forall id | id in s.queued
      ensures BookInv(s'.pending, s'.waiting, s'.emitted, id, s.queued[id]) && FedInv(s'.kept, s'.epochs, s'.activity, id, s.queued[id])
    {
      OtherUndisturbed(s.pending, s.waiting, s.emitted, id, s.queued[id], p.key, s.nextId);
      assert FedInv(s.kept, s.epochs, s.activity, id, s.queued[id]);
    }
  }

  lemma EnqueueKeepsPending(pending: map<Str, set<nat>>, queued: map<nat, Pending>, id: nat, p: Pending)
    requires PendingInv(pending, queued) && id !in queued
    ensures PendingInv(pending[p.key := PendingAt(pending, p.key) + {id}], queued[id := p])
  {
  }

  lemma EnqueueKeepsInv(s: Sys)
    requires Inv(s) && Enabled(s, QueueNext) && s.activity.alerts[0].after > 0
    ensures Inv(Enqueue(s, NextAlert(s)))
  {
    var p := NextAlert(s);
    NewCapture(s);
    NewIdIsUnused(s);
    EnqueueKeepsQueued(s, p);
    EnqueueKeepsPending(s.pending, s.queued, s.nextId, p);
  }

  lemma DiscardedKeepsInv(s: Sys, id: nat)
    requires Inv(s) && Enabled(s, Await(id)) && s.queued[id].discard
    ensures Inv(AwaitContext(s, id))
  {
    var s' := AwaitContext(s, id);
    forall m | m in s.queued ensures BookInv(s'.pending, s'.waiting, s'.emitted, m, s.queued[m]) {
      assert BookInv(s.pending, s.waiting, s.emitted, m, s.queued[m]);
    }
  }

  /** Handing out one alert takes exactly its id out of the pending sets. */
  lemma TakeOut(pending: map<Str, set<nat>>, key: Str, id: nat)
    ensures var items := PendingAt(pending, key) - {id};
            var pending' := if items == {} then pending - {key} else pending[key := items];
            && PendingAt(pending', key) == items
            && forall k :: k != key ==> PendingAt(pending', k) == PendingAt(pending, k)
  {
  }

  lemma AwaitKeepsBooks(s: Sys, id: nat)
    requires QueuedInv(s) && Enabled(s, Await(id)) && !s.queued[id].discard
    requires forall m :: WasEmitted(AwaitContext(s, id).emitted, m) <==> WasEmitted(s.emitted, m) || m == id
    ensures var s' := AwaitContext(s, id);
            forall m :: m in s.queued ==> BookInv(s'.pending, s'.waiting, s'.emitted, m, s.queued[m])
  {
    var s', p := AwaitContext(s, id), s.queued[id];
    TakeOut(s.pending, p.key, id);
    forall m | m in s.queued ensures BookInv(s'.pending, s'.waiting, s'.emitted, m, s.queued[m]) {
      assert BookInv(s.pending, s.waiting, s.emitted, m, s.queued[m]);
    }
  }

  lemma AwaitKeepsInv(s: Sys, id: nat)
    requires Inv(s) && Enabled(s, Await(id)) && !s.queued[id].discard
    ensures Inv(AwaitContext(s, id))
  {
    var s', p := AwaitContext(s, id), s.queued[id];
    assert CaptureInv(s.kept, s.capacity, p) && BookInv(s.pending, s.waiting, s.emitted, id, p);
    AppendEmission(s.emitted, s'.emitted[|s.emitted|], s.kept, s.capacity, s.nextId, s'.nextId);
    AwaitKeepsBooks(s, id);
    AwaitKeepsPending(s, id);
  }

  lemma AwaitKeepsPending(s: Sys, id: nat)
    requires PendingInv(s.pending, s.queued) && id in s.queued && !s.queued[id].discard
    ensures PendingInv(AwaitContext(s, id).pending, s.queued)
  {
    TakeOut(s.pending, s.queued[id].key, id);
  }

  // ------------------------------------------------------- removal and shutdown

  /** A pending alert of the removed container is discarded; any other is not affected. */
  lemma DropOne(s: Sys, key: Str, id: nat, p: Pending)
    requires CaptureInv(s.kept, s.capacity, p) && FedInv(s.kept, s.epochs, Idle, id, p) && BookInv(s.pending, s.waiting, s.emitted, id, p)
    requires id in PendingAt(s.pending, key) ==> p.key == key
    ensures var q := if id in PendingAt(s.pending, key) then Stopped(p).(discard := true) else p;
            && CaptureInv(s.kept, s.capacity, q) && FedInv(s.kept, Dropped(s, key).epochs, Idle, id, q)
            && BookInv(s.pending - {key}, s.waiting, s.emitted, id, q)
  {
    StopOne(s.kept, s.capacity, s.epochs, Idle, id, p);
  }

  lemma DropKeepsQueued(s: Sys, key: Str)
    requires QueuedInv(s) && PendingInv(s.pending, s.queued) && s.activity.Idle?
    ensures QueuedInv(Dropped(s, key))
  {
    var s' := Dropped(s, key);
    forall id | id in s.queued ensures
      && CaptureInv(s'.kept, s'.capacity, s'.queued[id]) && FedInv(s'.kept, s'.epochs, s'.activity, id, s'.queued[id])
      && BookInv(s'.pending, s'.waiting, s'.emitted, id, s'.queued[id])
    {
      DropOne(s, key, id, s.queued[id]);
    }
  }

  lemma DropKeepsBuffers(s: Sys, key: Str)
    requires EpochInv(s.kept, s.epochs) && BuffersInv(s.buffers, s.capacity, s.kept, s.epochs, None)
    ensures var s' := Dropped(s, key);
            BuffersInv(s'.buffers, s'.capacity, s'.kept, s'.epochs, None) && EpochInv(s'.kept, s'.epochs)
  {
    var s' := Dropped(s, key);
    forall k ensures BufferAt(s'.buffers, k) == Suffix(Settled(s'.kept, s'.epochs, None, k), s'.capacity) {
      assert BufferAt(s.buffers, k) == Suffix(Settled(s.kept, s.epochs, None, k), s.capacity);
      if k == key {
        assert (k, EpochOf(s.epochs, k) + 1) !in s.kept;
      }
    }
  }

  lemma DropKeepsInv(s: Sys, key: Str)
    requires Inv(s) && s.activity.Idle?
    ensures Inv(Dropped(s, key))
  {
    DropKeepsQueued(s, key);
    DropKeepsBuffers(s, key);
  }

  lemma CloseKeepsQueued(s: Sys)
    requires QueuedInv(s) && s.activity.Idle?
    ensures QueuedInv(Closing(s)) && ClosedInv(true, Idle, s.waiting, Closing(s).queued)
  {
    var s' := Closing(s);
    forall id | id in s.queued ensures
      && CaptureInv(s'.kept, s'.capacity, s'.queued[id]) && FedInv(s'.kept, s'.epochs, s'.activity, id, s'.queued[id])
      && BookInv(s'.pending, s'.waiting, s'.emitted, id, s'.queued[id])
      && (id in s.waiting ==> s'.queued[id].collector.finished)
    {
      var p := s.queued[id];
      assert CaptureInv(s.kept, s.capacity, p) && FedInv(s.kept, s.epochs, s.activity, id, p);
      assert BookInv(s.pending, s.waiting, s.emitted, id, p);
      StopOne(s.kept, s.capacity, s.epochs, s.activity, id, p);
    }
  }

  lemma StopKeepsPending(pending: map<Str, set<nat>>, queued: map<nat, Pending>, queued': map<nat, Pending>)
    requires PendingInv(pending, queued)
    requires forall id :: id in queued ==> id in queued' && queued'[id].key == queued[id].key
    ensures PendingInv(pending, queued')
  {
  }

  lemma CloseKeepsInv(s: Sys)
    requires Inv(s) && s.activity.Idle?
    ensures Inv(Closing(s))
  {
    var s' := Closing(s);
    CloseKeepsQueued(s);
    StopKeepsPending(s.pending, s.queued, s'.queued);
    assert FinishingInv(s'.queued, s'.activity) && TodoInv(s'.pending, s'.activity);
  }

  lemma StepKeepsInv(s: Sys, step: Step)
    requires Inv(s) && Enabled(s, step)
    ensures Inv(Perform(s, step))
  {
    match step
    case Begin(entry, keeps, alerts) => if keeps { BeginKeepsInv(s, entry, alerts); }
    case AddOne(id) => FeedKeepsInv(s, id);
    case FinishOne => FinishKeepsInv(s, s.activity.finishing.value);
    case QueueNext => if s.activity.alerts[0].after > 0 { EnqueueKeepsInv(s); } else { EmitNowKeepsInv(s); }
    case EndProcess => EndKeepsInv(s);
    case Timer(id) => StopKeepsInv(s, id);
    case Await(id) => if s.queued[id].discard { DiscardedKeepsInv(s, id); } else { AwaitKeepsInv(s, id); }
    case RemoveContainer(key) => DropKeepsInv(s, key);
    case Close => CloseKeepsInv(s);
  }

  lemma {:induction false} RunKeepsInv(s: Sys, run: seq<Step>, s': Sys)
    requires Inv(s) && Reaches(s, run, s')
    ensures Inv(s')
    decreases |run|
  {
    if run != [] {
      StepKeepsInv(s, run[0]);
      RunKeepsInv(Perform(s, run[0]), run[1..], s');
    }
  }

  // ---------------------------------------------------------------- theorems

  lemma InitialInv(capacity: nat)
    requires 0 < capacity
    ensures Inv(Initial(capacity))
  {
  }

  lemma JoinParts<T>(h: seq<T>, lo: nat, pos: nat, hi: nat)
    requires lo <= pos < hi <= |h|
    ensures h[lo..pos] + [h[pos]] + h[pos + 1..hi] == h[lo..hi]
  {
    assert h[lo..pos + 1] == h[lo..pos] + [h[pos]];
    assert h[lo..hi] == h[lo..pos + 1] + h[pos + 1..hi];
  }

  lemma SliceIsContiguous(h: seq<LogEntry>, capacity: nat, pos: nat, wanted: Wanted, c: Capture)
    requires IsSlice(h, capacity, pos, wanted, c)
    ensures |c.before| <= pos && c.before + [c.trigger] + c.after == h[pos - |c.before|..pos + 1 + |c.after|]
  {
    var n := |c.before|;
    assert c.before == h[..pos][pos - n..] == h[pos - n..pos];
    JoinParts(h, pos - n, pos, pos + 1 + |c.after|);
  }

  /** In every run, every emitted capture is one contiguous slice of what its container kept
      since its last removal, around the trigger, with the longest before-context that the
      rule asks for and the buffer holds; and it never has more after-context than asked for,
      and has exactly that much unless it timed out or was cancelled. */
  lemma EmittedCapturesAreSlices(capacity: nat, run: seq<Step>, s: Sys, e: Emission)
    requires 0 < capacity && Reaches(Initial(capacity), run, s) && e in s.emitted
    ensures var h := KeptAt(s.kept, e.key, e.epoch);
            && IsSlice(h, capacity, e.pos, e.wanted, e.capture) && AfterFits(e.wanted, e.capture)
            && e.capture.before + [e.capture.trigger] + e.capture.after
               == h[e.pos - |e.capture.before|..e.pos + 1 + |e.capture.after|]
  {
    InitialInv(capacity);
    RunKeepsInv(Initial(capacity), run, s);
    CapacityIsFixed(Initial(capacity), run, s);
    assert EmissionOk(s.kept, s.capacity, e);
    SliceIsContiguous(KeptAt(s.kept, e.key, e.epoch), capacity, e.pos, e.wanted, e.capture);
  }

  lemma StepKeepsCapacity(s: Sys, step: Step)
    requires Enabled(s, step)
    ensures Perform(s, step).capacity == s.capacity
  {
    match step
    case Begin(entry, keeps, alerts) => assert BeginEntry(s, entry, alerts).capacity == s.capacity;
    case AddOne(id) => assert FeedCollector(s, id).capacity == s.capacity;
    case FinishOne => assert FinishCollector(s, s.activity.finishing.value).capacity == s.capacity;
    case QueueNext => assert QueueAlert(s).capacity == s.capacity;
    case EndProcess => assert EndEntry(s).capacity == s.capacity;
    case Timer(id) => assert StopCollector(s, id).capacity == s.capacity;
    case Await(id) => assert AwaitContext(s, id).capacity == s.capacity;
    case RemoveContainer(key) => assert Dropped(s, key).capacity == s.capacity;
    case Close => assert Closing(s).capacity == s.capacity;
  }

  lemma {:induction false} CapacityIsFixed(s: Sys, run: seq<Step>, s': Sys)
    requires Reaches(s, run, s')
    ensures s'.capacity == s.capacity
    decreases |run|
  {
    if run != [] {
      StepKeepsCapacity(s, run[0]);
      CapacityIsFixed(Perform(s, run[0]), run[1..], s');
    }
  }

  lemma MiddleOf<T>(front: seq<T>, t: T, back: seq<T>, x: nat, a: nat)
    requires x <= |front| && a <= |back|
    ensures front[x..] + [t] + back[..a] == (front + [t] + back)[x..|front| + 1 + a]
  {
    assert front + [t] + back == front + ([t] + back);
    assert (front + [t] + back)[..|front| + 1 + a] == front + [t] + back[..a];
    assert (front + [t] + back[..a])[x..] == front[x..] + [t] + back[..a];
  }

  /** A run around the trigger of a slice of h is a slice of h. */
  lemma AroundIsSlice(h: seq<LogEntry>, pos: nat, c: Capture, b: nat, a: nat)
    requires |c.before| <= pos && pos + 1 + |c.after| <= |h| && a <= |c.after|
    requires c.before + [c.trigger] + c.after == h[pos - |c.before|..pos + 1 + |c.after|]
    ensures Capturing.Around(c, b, a) == h[pos - |Suffix(c.before, b)|..pos + 1 + a]
  {
    var n := |Suffix(c.before, b)|;
    assert Suffix(c.before, b) == c.before[|c.before| - n..];
    MiddleOf(c.before, c.trigger, c.after, |c.before| - n, a);
    PartOfSlice(h, pos - |c.before|, pos + 1 + |c.after|, |c.before| - n, |c.before| + 1 + a);
  }

  /** Printable lines of a slice: nothing without a byte limit, the cut trigger alone if it
      fills the limit, and otherwise the lines of a run of kept entries with the trigger. */
  ghost predicate Contiguous(h: seq<LogEntry>, pos: nat, maxBytes: int, lines: seq<Str>)
    requires pos < |h|
  {
    var trigger := Capturing.LineFor(h[pos]);
    if maxBytes <= 0 then lines == []
    else if |trigger| >= maxBytes then lines == [Capturing.Cut(trigger, maxBytes)]
    else exists lo, hi :: 0 <= lo <= pos < hi <= |h| && lines == Capturing.LinesFor(h[lo..hi])
  }

  lemma BestLinesAreContiguous(h: seq<LogEntry>, pos: nat, c: Capture, maxBytes: int, lines: seq<Str>)
    requires |c.before| <= pos && pos + 1 + |c.after| <= |h| && c.trigger == h[pos]
    requires c.before + [c.trigger] + c.after == h[pos - |c.before|..pos + 1 + |c.after|]
    requires Capturing.BestLines(c, maxBytes, lines)
    ensures Contiguous(h, pos, maxBytes, lines)
  {
    var budget := maxBytes - |Capturing.LineFor(c.trigger)|;
    if 0 < maxBytes && 0 < budget {
      var b: nat, a: nat :| Capturing.BestRun(c, budget, b, a) && lines == Capturing.LinesFor(Capturing.Around(c, b, a));
      AroundIsSlice(h, pos, c, b, a);
    }
  }

  lemma SliceLinesAreContiguous(h: seq<LogEntry>, capacity: nat, pos: nat, wanted: Wanted, c: Capture, lines: seq<Str>)
    requires IsSlice(h, capacity, pos, wanted, c) && Capturing.BestLines(c, wanted.maxBytes, lines)
    ensures Contiguous(h, pos, wanted.maxBytes, lines)
  {
    SliceIsContiguous(h, capacity, pos, wanted, c);
    BestLinesAreContiguous(h, pos, c, wanted.maxBytes, lines);
  }

  /** What is printed is contiguous too, whatever the byte limit cuts off. */
  lemma PrintedLinesAreContiguous(capacity: nat, run: seq<Step>, s: Sys, e: Emission, lines: seq<Str>)
    requires 0 < capacity && Reaches(Initial(capacity), run, s) && e in s.emitted
    requires Capturing.BestLines(e.capture, e.wanted.maxBytes, lines)
    ensures e.pos < |KeptAt(s.kept, e.key, e.epoch)|
    ensures Contiguous(KeptAt(s.kept, e.key, e.epoch), e.pos, e.wanted.maxBytes, lines)
  {
    EmittedCapturesAreSlices(capacity, run, s, e);
    SliceLinesAreContiguous(KeptAt(s.kept, e.key, e.epoch), capacity, e.pos, e.wanted, e.capture, lines);
  }

  /** Every alert queued for after-context is, at any moment, exactly one of pending, emitted
      (once) or discarded. */
  lemma EveryAlertHasOneFate(capacity: nat, run: seq<Step>, s: Sys)
    requires 0 < capacity && Reaches(Initial(capacity), run, s)
    ensures EmittedOnce(s.emitted) && forall id :: id in s.queued ==> ExactlyOneFate(s, id)
  {
    InitialInv(capacity);
    RunKeepsInv(Initial(capacity), run, s);
    forall id | id in s.queued ensures ExactlyOneFate(s, id) {
      assert BookInv(s.pending, s.waiting, s.emitted, id, s.queued[id]);
    }
  }

  /** The alert's own container is removed at a moment when the alert is pending. */
  ghost predicate RemovedWhilePending(s: Sys, run: seq<Step>, id: nat)
    decreases |run|
  {
    && run != [] && Enabled(s, run[0]) && id in s.queued
    && ((run[0] == RemoveContainer(s.queued[id].key) && id in PendingAt(s.pending, s.queued[id].key))
        || RemovedWhilePending(Perform(s, run[0]), run[1..], id))
  }

  lemma StepDiscards(s: Sys, step: Step, id: nat)
    requires Enabled(s, step) && id in s.queued && s.nextId !in s.queued && PendingInv(s.pending, s.queued)
    ensures id in Perform(s, step).queued && Perform(s, step).queued[id].key == s.queued[id].key
    ensures Perform(s, step).queued[id].discard <==>
              s.queued[id].discard || (step == RemoveContainer(s.queued[id].key) && id in PendingAt(s.pending, s.queued[id].key))
  {
    if step.RemoveContainer? && id in PendingAt(s.pending, step.key) {
      assert s.queued[id].key == step.key;
    }
  }

  lemma {:induction false} RunDiscards(s: Sys, run: seq<Step>, s': Sys, id: nat)
    requires Inv(s) && Reaches(s, run, s') && id in s.queued
    ensures id in s'.queued && s'.queued[id].key == s.queued[id].key
    ensures s'.queued[id].discard <==> s.queued[id].discard || RemovedWhilePending(s, run, id)
    ensures RemovedWhilePending(s, run, id) ==> RemoveContainer(s.queued[id].key) in run
    decreases |run|
  {
    if run != [] {
      NewIdIsUnused(s);
      StepDiscards(s, run[0], id);
      StepKeepsInv(s, run[0]);
      RunDiscards(Perform(s, run[0]), run[1..], s', id);
    }
  }

  /** From any reachable state on, a queued alert becomes discarded if and only if its own
      container is removed while it is pending. */
  lemma DiscardedIffRemoved(capacity: nat, past: seq<Step>, s: Sys, run: seq<Step>, s': Sys, id: nat)
    requires 0 < capacity && Reaches(Initial(capacity), past, s) && Reaches(s, run, s') && id in s.queued
    ensures id in s'.queued && s'.queued[id].key == s.queued[id].key
    ensures s'.queued[id].discard <==> s.queued[id].discard || RemovedWhilePending(s, run, id)
    ensures RemovedWhilePending(s, run, id) ==> RemoveContainer(s.queued[id].key) in run
  {
    InitialInv(capacity);
    RunKeepsInv(Initial(capacity), past, s);
    RunDiscards(s, run, s', id);
  }

  lemma NothingWaitsNothingOpen(s: Sys)
    requires QueuedInv(s) && PendingInv(s.pending, s.queued) && s.waiting == {}
    ensures forall key :: PendingAt(s.pending, key) == {}
    ensures forall id :: id in s.queued ==> (WasEmitted(s.emitted, id) <==> !s.queued[id].discard)
  {
    forall key, id ensures id !in PendingAt(s.pending, key) {
      assert id in s.queued ==> BookInv(s.pending, s.waiting, s.emitted, id, s.queued[id]);
    }
    forall id | id in s.queued ensures WasEmitted(s.emitted, id) <==> !s.queued[id].discard {
      assert BookInv(s.pending, s.waiting, s.emitted, id, s.queued[id]);
    }
  }

  lemma ClosedCanProceed(s: Sys)
    requires QueuedInv(s) && ClosedInv(s.closed, s.activity, s.waiting, s.queued) && s.closed
    ensures forall id :: id in s.waiting ==> Enabled(s, Await(id))
  {
  }

  /** Shutdown: after Close has cancelled the collectors every waiting goroutine can proceed,
      and once they have all returned no alert is left unresolved. */
  lemma CloseResolvesAll(capacity: nat, run: seq<Step>, s: Sys)
    requires 0 < capacity && Reaches(Initial(capacity), run, s) && s.closed
    ensures forall id :: id in s.waiting ==> Enabled(s, Await(id))
    ensures s.waiting == {} ==> forall key :: PendingAt(s.pending, key) == {}
    ensures s.waiting == {} ==> forall id :: id in s.queued ==> (WasEmitted(s.emitted, id) <==> !s.queued[id].discard)
  {
    InitialInv(capacity);
    RunKeepsInv(Initial(capacity), run, s);
    ClosedCanProceed(s);
    if s.waiting == {} {
      NothingWaitsNothingOpen(s);
    }
  }
}
