/** The processor's runs told from their steps alone: what each life of a container has kept,
    whose entries a capture holds, what became of each alert that an entry raised, and why a
    capture ended early. */
module ProcessorRuns {
  import opened Common
  import opened ContextBuffer
  import Collecting = AfterCollector
  import opened Steps = Processor

  // --------------------------------------------------------- whose entry it is

  /** An entry belongs to the container that it names, or else to the one with its ID. */
  predicate OwnedBy(e: LogEntry, key: Str) {
    (e.containerName != [] && e.containerName == key) || (e.containerName == [] && e.containerId == key)
  }

  /** Both name the same container, or neither names one and the IDs agree, or the name of one
      is the ID of the other. */
  predicate SameOwner(a: LogEntry, b: LogEntry) {
    if a.containerName == [] && b.containerName == [] then a.containerId == b.containerId
    else if a.containerName == [] then a.containerId == b.containerName
    else if b.containerName == [] then a.containerName == b.containerId
    else a.containerName == b.containerName
  }

  lemma OwnersAgree(a: LogEntry, b: LogEntry, key: Str)
    requires OwnedBy(a, key) && OwnedBy(b, key)
    ensures SameOwner(a, b)
  {
  }

  // ------------------------------------------------------ what a step leaves alone

  /** An alert that an entry raised. */
  datatype Request = Request(entry: LogEntry, wanted: Wanted)

  function RequestsOf(entry: LogEntry, alerts: seq<Wanted>): (r: seq<Request>)
    ensures |r| == |alerts|
  {
    seq(|alerts|, i requires 0 <= i < |alerts| => Request(entry, alerts[i]))
  }

  function Raised(step: Step): (r: seq<Request>) {
    if step.Begin? then RequestsOf(step.entry, step.alerts) else []
  }

  /** The alerts raised in a run, in order. */
  function Requests(run: seq<Step>): (r: seq<Request>) {
    if run == [] then [] else Raised(run[0]) + Requests(run[1..])
  }

  /** The alerts of the entry being processed that are not yet taken up. */
  function ToQueue(activity: Activity): (r: seq<Request>) {
    if activity.Working? then RequestsOf(activity.entry, activity.alerts) else []
  }

  /** The same alerts with the same triggers and settings. */
  ghost predicate SameAlerts(queued: map<nat, Pending>, queued': map<nat, Pending>) {
    queued'.Keys == queued.Keys && forall id :: id in queued ==>
      queued'[id].collector.capture.trigger == queued[id].collector.capture.trigger && queued'[id].wanted == queued[id].wanted
  }

  ghost predicate Quiet(s: Sys, s': Sys) {
    && s'.kept == s.kept && s'.epochs == s.epochs && s'.nextId == s.nextId
    && ToQueue(s'.activity) == ToQueue(s.activity) && SameAlerts(s.queued, s'.queued)
  }

  lemma FeedIsQuiet(s: Sys, id: nat)
    requires s.activity.Working? && id in s.queued
    ensures Quiet(s, FeedCollector(s, id)) && FeedCollector(s, id).emitted == s.emitted
  {
  }

  lemma FinishIsQuiet(s: Sys, id: nat)
    requires s.activity.Working? && id in s.queued
    ensures Quiet(s, FinishCollector(s, id)) && FinishCollector(s, id).emitted == s.emitted
  {
  }

  lemma EndIsQuiet(s: Sys)
    requires s.activity.Working? && s.activity.alerts == []
    ensures Quiet(s, EndEntry(s)) && EndEntry(s).emitted == s.emitted
  {
  }

  lemma StopIsQuiet(s: Sys, id: nat)
    requires id in s.queued
    ensures Quiet(s, StopCollector(s, id)) && StopCollector(s, id).emitted == s.emitted
  {
  }

  lemma AwaitIsQuiet(s: Sys, id: nat)
    requires id in s.queued
    ensures Quiet(s, AwaitContext(s, id))
    ensures AwaitContext(s, id).emitted == s.emitted + if s.queued[id].discard then [] else [EmissionOf(id, s.queued[id])]
  {
    assert s.emitted + [] == s.emitted;
  }

  lemma CloseIsQuiet(s: Sys)
    ensures Quiet(s, Closing(s)) && Closing(s).emitted == s.emitted
  {
  }

  lemma DropIsQuiet(s: Sys, key: Str)
    ensures Quiet(s, Dropped(s, key).(epochs := s.epochs)) && Dropped(s, key).emitted == s.emitted
  {
  }

  /** A step that neither raises nor takes up an alert; a removal starts a new life. */
  lemma OtherIsQuiet(s: Sys, step: Step)
    requires Enabled(s, step) && !step.Begin? && !step.QueueNext?
    ensures var s' := Perform(s, step);
            && Quiet(s, if step.RemoveContainer? then s'.(epochs := s.epochs) else s')
            && s'.emitted == s.emitted + (if step.Await? && !s.queued[step.id].discard
                                          then [EmissionOf(step.id, s.queued[step.id])] else [])
  {
    assert s.emitted + [] == s.emitted;
    match step
    case AddOne(id) => FeedIsQuiet(s, id);
    case FinishOne => FinishIsQuiet(s, s.activity.finishing.value);
    case EndProcess => EndIsQuiet(s);
    case Timer(id) => StopIsQuiet(s, id);
    case Await(id) => AwaitIsQuiet(s, id);
    case RemoveContainer(key) => DropIsQuiet(s, key);
    case Close => CloseIsQuiet(s);
  }

  lemma NextAlertIs(s: Sys)
    requires s.activity.Working? && s.activity.alerts != []
    ensures var p := NextAlert(s);
            p.wanted == s.activity.alerts[0] && p.collector.capture.trigger == s.activity.entry && !p.collector.capture.timedOut
  {
  }

  lemma QueueEmits(s: Sys, p: Pending)
    requires s.activity.Working? && s.activity.alerts != []
    ensures var s' := EmitNow(s, p);
            && s'.kept == s.kept && s'.epochs == s.epochs && s'.nextId == s.nextId + 1 && s'.queued == s.queued
            && ToQueue(s'.activity) == RequestsOf(s.activity.entry, s.activity.alerts[1..])
            && s'.emitted == s.emitted + [EmissionOf(s.nextId, p)]
  {
  }

  lemma QueueWaits(s: Sys, p: Pending)
    requires s.activity.Working? && s.activity.alerts != []
    ensures var s' := Enqueue(s, p);
            && s'.kept == s.kept && s'.epochs == s.epochs && s'.nextId == s.nextId + 1 && s'.emitted == s.emitted
            && ToQueue(s'.activity) == RequestsOf(s.activity.entry, s.activity.alerts[1..])
            && s'.queued == s.queued[s.nextId := p]
  {
  }

  /** Taking up the next alert. */
  lemma QueueStep(s: Sys, s': Sys)
    requires Enabled(s, QueueNext) && s' == QueueAlert(s)
    ensures var w, p := s.activity.alerts[0], NextAlert(s);
            && s'.kept == s.kept && s'.epochs == s.epochs && s'.nextId == s.nextId + 1
            && ToQueue(s'.activity) == RequestsOf(s.activity.entry, s.activity.alerts[1..])
            && p.wanted == w && p.collector.capture.trigger == s.activity.entry && !p.collector.capture.timedOut
            && (if w.after > 0 then s'.queued == s.queued[s.nextId := p] && s'.emitted == s.emitted
                else s'.queued == s.queued && s'.emitted == s.emitted + [EmissionOf(s.nextId, p)])
  {
    NextAlertIs(s);
    QueueEmits(s, NextAlert(s));
    QueueWaits(s, NextAlert(s));
  }

  // ------------------------------------------------- the lives of a container

  type Lives = seq<seq<LogEntry>>

  /** A kept entry joins the current life of its container; removal starts a new life. */
  function NextLives(lives: Lives, step: Step, key: Str): (r: Lives)
    requires lives != []
    ensures r != []
  {
    var n := |lives| - 1;
    match step
    case Begin(entry, keeps, _) => if keeps && OwnedBy(entry, key) then lives[n := lives[n] + [entry]] else lives
    case RemoveContainer(k) => if k == key then lives + [[]] else lives
    case _ => lives
  }

  function LivesAfter(lives: Lives, run: seq<Step>, key: Str): (r: Lives)
    requires lives != []
    ensures r != []
    decreases |run|
  {
    if run == [] then lives else LivesAfter(NextLives(lives, run[0], key), run[1..], key)
  }

  /** What each life of key has kept after a run from the start. */
  function LivesOf(run: seq<Step>, key: Str): (r: Lives) { LivesAfter([[]], run, key) }

  ghost predicate LivesMatch(kept: Kept, epochs: map<Str, nat>, key: Str, lives: Lives) {
    |lives| == EpochOf(epochs, key) + 1 && forall i: nat :: i < |lives| ==> KeptAt(kept, key, i) == lives[i]
  }

  lemma BeginMatches(s: Sys, entry: LogEntry, alerts: seq<Wanted>, key: Str, lives: Lives)
    requires lives != [] && LivesMatch(s.kept, s.epochs, key, lives)
    ensures LivesMatch(BeginEntry(s, entry, alerts).kept, s.epochs, key, NextLives(lives, Begin(entry, true, alerts), key))
  {
    assert OwnedBy(entry, key) <==> ContainerKey(entry) == key;
  }

  lemma RemoveMatches(s: Sys, k: Str, key: Str, lives: Lives)
    requires EpochInv(s.kept, s.epochs) && lives != [] && LivesMatch(s.kept, s.epochs, key, lives)
    ensures LivesMatch(s.kept, Dropped(s, k).epochs, key, NextLives(lives, RemoveContainer(k), key))
  {
    assert (key, EpochOf(s.epochs, key) + 1) !in s.kept;
  }

  lemma StepMatches(s: Sys, step: Step, key: Str, lives: Lives)
    requires Enabled(s, step) && EpochInv(s.kept, s.epochs) && lives != [] && LivesMatch(s.kept, s.epochs, key, lives)
    ensures LivesMatch(Perform(s, step).kept, Perform(s, step).epochs, key, NextLives(lives, step, key))
  {
    match step
    case Begin(entry, keeps, alerts) => BeginMatches(s, entry, alerts, key, lives);
    case RemoveContainer(k) =>
      DropIsQuiet(s, k);
      RemoveMatches(s, k, key, lives);
    case QueueNext => QueueStep(s, QueueAlert(s));
    case _ => OtherIsQuiet(s, step);
  }

  lemma {:induction false} RunMatches(s: Sys, run: seq<Step>, s': Sys, key: Str, lives: Lives)
    requires Inv(s) && Reaches(s, run, s') && lives != [] && LivesMatch(s.kept, s.epochs, key, lives)
    ensures LivesMatch(s'.kept, s'.epochs, key, LivesAfter(lives, run, key))
    decreases |run|
  {
    if run != [] {
      StepMatches(s, run[0], key, lives);
      StepKeepsInv(s, run[0]);
      RunMatches(Perform(s, run[0]), run[1..], s', key, NextLives(lives, run[0], key));
    }
  }

  /** What is kept for a container is what the run's steps say. */
  lemma KeptIsLives(capacity: nat, run: seq<Step>, s: Sys, key: Str)
    requires 0 < capacity && Reaches(Initial(capacity), run, s)
    ensures LivesMatch(s.kept, s.epochs, key, LivesOf(run, key))
  {
    InitialInv(capacity);
    RunMatches(Initial(capacity), run, s, key, [[]]);
  }

  ghost predicate AllOwned(h: seq<LogEntry>, key: Str) { forall x :: x in h ==> OwnedBy(x, key) }

  ghost predicate LivesOwned(lives: Lives, key: Str) { forall i :: 0 <= i < |lives| ==> AllOwned(lives[i], key) }

  lemma NextIsOwned(lives: Lives, step: Step, key: Str)
    requires lives != [] && LivesOwned(lives, key)
    ensures LivesOwned(NextLives(lives, step, key), key)
  {
    var r := NextLives(lives, step, key);
    forall i | 0 <= i < |r| ensures AllOwned(r[i], key) {
      assert i < |lives| ==> AllOwned(lives[i], key);
    }
  }

  lemma {:induction false} LivesAreOwned(lives: Lives, run: seq<Step>, key: Str)
    requires lives != [] && LivesOwned(lives, key)
    ensures LivesOwned(LivesAfter(lives, run, key), key)
    decreases |run|
  {
    if run != [] {
      NextIsOwned(lives, run[0], key);
      LivesAreOwned(NextLives(lives, run[0], key), run[1..], key);
    }
  }

  lemma KeptIsOwned(capacity: nat, run: seq<Step>, s: Sys, key: Str, epoch: nat)
    requires 0 < capacity && Reaches(Initial(capacity), run, s)
    ensures AllOwned(KeptAt(s.kept, key, epoch), key)
    ensures KeptAt(s.kept, key, epoch) != [] ==> epoch < |LivesOf(run, key)| && KeptAt(s.kept, key, epoch) == LivesOf(run, key)[epoch]
  {
    KeptIsLives(capacity, run, s, key);
    LivesAreOwned([[]], run, key);
    InitialInv(capacity);
    RunKeepsInv(Initial(capacity), run, s);
  }

  ghost predicate SameOwners(c: Collecting.Capture) {
    forall x :: x in c.before + [c.trigger] + c.after ==> SameOwner(x, c.trigger)
  }

  lemma SliceIsOwned(h: seq<LogEntry>, capacity: nat, pos: nat, wanted: Wanted, c: Collecting.Capture, key: Str)
    requires AllOwned(h, key) && IsSlice(h, capacity, pos, wanted, c)
    ensures OwnedBy(c.trigger, key) && SameOwners(c)
  {
    SliceIsContiguous(h, capacity, pos, wanted, c);
    forall x | x in c.before + [c.trigger] + c.after ensures SameOwner(x, c.trigger) {
      assert x in h;
      OwnersAgree(x, c.trigger, key);
    }
  }

  /** In every run, an emitted capture is a slice of one life of the container that its trigger
      belongs to, as the run's steps tell it; so all its entries are of the trigger's container. */
  lemma CapturesKeepToOneContainer(capacity: nat, run: seq<Step>, s: Sys, e: Emission)
    requires 0 < capacity && Reaches(Initial(capacity), run, s) && e in s.emitted
    ensures OwnedBy(e.capture.trigger, e.key) && SameOwners(e.capture)
    ensures e.epoch < |LivesOf(run, e.key)| && IsSlice(LivesOf(run, e.key)[e.epoch], capacity, e.pos, e.wanted, e.capture)
  {
    EmittedCapturesAreSlices(capacity, run, s, e);
    KeptIsOwned(capacity, run, s, e.key, e.epoch);
    SliceIsOwned(KeptAt(s.kept, e.key, e.epoch), capacity, e.pos, e.wanted, e.capture, e.key);
  }

  /** From any reachable state on, an alert that is pending is discarded only by a step that
      removes the container of its trigger, and by the first such step unless it was emitted
      before. */
  lemma DiscardedByOwnContainer(capacity: nat, past: seq<Step>, s: Sys, run: seq<Step>, s': Sys, id: nat)
    requires 0 < capacity && Reaches(Initial(capacity), past, s) && Reaches(s, run, s')
    requires id in s.queued && !s.queued[id].discard
    ensures var trigger := s.queued[id].collector.capture.trigger;
            && id in s'.queued
            && (s'.queued[id].discard ==> exists key :: OwnedBy(trigger, key) && RemoveContainer(key) in run)
            && (run != [] && run[0].RemoveContainer? && OwnedBy(trigger, run[0].key) ==>
                  s'.queued[id].discard || WasEmitted(s.emitted, id))
  {
    InitialInv(capacity);
    RunKeepsInv(Initial(capacity), past, s);
    var p := s.queued[id];
    KeptIsOwned(capacity, past, s, p.key, p.epoch);
    SliceIsOwned(KeptAt(s.kept, p.key, p.epoch), s.capacity, p.pos, p.wanted, p.collector.capture, p.key);
    DiscardedIffRemoved(capacity, past, s, run, s', id);
    assert BookInv(s.pending, s.waiting, s.emitted, id, p);
  }

  // --------------------------------------------------- every alert is taken up

  ghost predicate RestMatches(rest: seq<Request>, nextId: nat, reqs: seq<Request>) {
    nextId <= |reqs| && reqs[nextId..] == rest
  }

  ghost predicate QueuedMatch(queued: map<nat, Pending>, reqs: seq<Request>) {
    forall id :: id in queued ==> id < |reqs| && reqs[id] == Request(queued[id].collector.capture.trigger, queued[id].wanted)
  }

  ghost predicate EmittedMatch(emitted: seq<Emission>, reqs: seq<Request>) {
    forall i :: 0 <= i < |emitted| ==>
      emitted[i].id < |reqs| && reqs[emitted[i].id] == Request(emitted[i].capture.trigger, emitted[i].wanted)
  }

  /** An alert without after-context is emitted, any other is queued. */
  ghost predicate TakenUp(queued: map<nat, Pending>, emitted: seq<Emission>, id: nat, request: Request) {
    if request.wanted.after > 0 then id in queued else WasEmitted(emitted, id)
  }

  ghost predicate AllTakenUp(queued: map<nat, Pending>, emitted: seq<Emission>, nextId: nat, reqs: seq<Request>) {
    forall id: nat :: id < nextId && id < |reqs| ==> TakenUp(queued, emitted, id, reqs[id])
  }

  ghost predicate Served(s: Sys, reqs: seq<Request>) {
    && RestMatches(ToQueue(s.activity), s.nextId, reqs) && QueuedMatch(s.queued, reqs) && EmittedMatch(s.emitted, reqs)
    && AllTakenUp(s.queued, s.emitted, s.nextId, reqs)
  }

  lemma BeginServes(s: Sys, entry: LogEntry, keeps: bool, alerts: seq<Wanted>, reqs: seq<Request>)
    requires Enabled(s, Begin(entry, keeps, alerts)) && Served(s, reqs)
    ensures Served(Perform(s, Begin(entry, keeps, alerts)), reqs + RequestsOf(entry, alerts))
  {
    var s', reqs' := Perform(s, Begin(entry, keeps, alerts)), reqs + RequestsOf(entry, alerts);
    assert s.nextId == |reqs| && reqs'[s.nextId..] == RequestsOf(entry, alerts);
    assert s'.queued == s.queued && s'.emitted == s.emitted && s'.nextId == s.nextId;
    forall id: nat | id < s.nextId && id < |reqs'| ensures TakenUp(s.queued, s.emitted, id, reqs'[id]) {
      assert reqs'[id] == reqs[id] && TakenUp(s.queued, s.emitted, id, reqs[id]);
    }
  }

  lemma EmittedGrows(emitted: seq<Emission>, e: Emission, id: nat)
    requires WasEmitted(emitted, id) || e.id == id
    ensures WasEmitted(emitted + [e], id)
  {
    var all := emitted + [e];
    if WasEmitted(emitted, id) {
      var i :| 0 <= i < |emitted| && emitted[i].id == id;
      assert all[i].id == id;
    } else {
      assert all[|emitted|].id == id;
    }
  }

  lemma SameAlertsServe(queued: map<nat, Pending>, queued': map<nat, Pending>, emitted: seq<Emission>, nextId: nat, reqs: seq<Request>)
    requires QueuedMatch(queued, reqs) && AllTakenUp(queued, emitted, nextId, reqs) && SameAlerts(queued, queued')
    ensures QueuedMatch(queued', reqs) && AllTakenUp(queued', emitted, nextId, reqs)
  {
    forall id: nat | id < nextId && id < |reqs| ensures TakenUp(queued', emitted, id, reqs[id]) {
      assert TakenUp(queued, emitted, id, reqs[id]);
    }
  }

  lemma EmissionServes(queued: map<nat, Pending>, emitted: seq<Emission>, id: nat, nextId: nat, reqs: seq<Request>)
    requires QueuedMatch(queued, reqs) && EmittedMatch(emitted, reqs) && AllTakenUp(queued, emitted, nextId, reqs) && id in queued
    ensures var emitted' := emitted + [EmissionOf(id, queued[id])];
            EmittedMatch(emitted', reqs) && AllTakenUp(queued, emitted', nextId, reqs)
  {
    var e := EmissionOf(id, queued[id]);
    forall i: nat | i < nextId && i < |reqs| ensures TakenUp(queued, emitted + [e], i, reqs[i]) {
      assert TakenUp(queued, emitted, i, reqs[i]);
      if WasEmitted(emitted, i) {
        EmittedGrows(emitted, e, i);
      }
    }
  }

  /** A step that leaves the alerts alone and emits `more` of them. */
  lemma QuietServes(s: Sys, s': Sys, more: seq<nat>, reqs: seq<Request>)
    requires Served(s, reqs) && |more| <= 1 && (forall id :: id in more ==> id in s.queued)
    requires ToQueue(s'.activity) == ToQueue(s.activity) && s'.nextId == s.nextId && SameAlerts(s.queued, s'.queued)
    requires s'.emitted == s.emitted + if more == [] then [] else [EmissionOf(more[0], s.queued[more[0]])]
    ensures Served(s', reqs)
  {
    if more == [] {
      assert s.emitted + [] == s.emitted;
    } else {
      EmissionServes(s.queued, s.emitted, more[0], s.nextId, reqs);
    }
    SameAlertsServe(s.queued, s'.queued, s'.emitted, s.nextId, reqs);
  }

  lemma NewIsTakenUp(queued: map<nat, Pending>, emitted: seq<Emission>, n: nat, p: Pending, reqs: seq<Request>)
    requires QueuedMatch(queued, reqs) && EmittedMatch(emitted, reqs) && AllTakenUp(queued, emitted, n, reqs)
    requires n < |reqs| && reqs[n] == Request(p.collector.capture.trigger, p.wanted)
    ensures p.wanted.after > 0 ==> QueuedMatch(queued[n := p], reqs) && AllTakenUp(queued[n := p], emitted, n + 1, reqs)
    ensures p.wanted.after <= 0 ==>
              EmittedMatch(emitted + [EmissionOf(n, p)], reqs) && AllTakenUp(queued, emitted + [EmissionOf(n, p)], n + 1, reqs)
  {
    forall id: nat | id < n + 1 && id < |reqs|
      ensures p.wanted.after > 0 ==> TakenUp(queued[n := p], emitted, id, reqs[id])
      ensures p.wanted.after <= 0 ==> TakenUp(queued, emitted + [EmissionOf(n, p)], id, reqs[id])
    {
      assert id < n ==> TakenUp(queued, emitted, id, reqs[id]);
      if WasEmitted(emitted, id) || id == n {
        EmittedGrows(emitted, EmissionOf(n, p), id);
      }
    }
  }

  lemma QueueServes(s: Sys, s': Sys, reqs: seq<Request>)
    requires Enabled(s, QueueNext) && Served(s, reqs) && s' == QueueAlert(s)
    ensures Served(s', reqs)
  {
    var n := s.nextId;
    QueueStep(s, s');
    assert reqs[n..][0] == reqs[n] == Request(s.activity.entry, s.activity.alerts[0]);
    assert reqs[n + 1..] == reqs[n..][1..] == RequestsOf(s.activity.entry, s.activity.alerts[1..]);
    NewIsTakenUp(s.queued, s.emitted, n, NextAlert(s), reqs);
  }

  lemma OtherServes(s: Sys, step: Step, reqs: seq<Request>)
    requires Enabled(s, step) && Served(s, reqs) && !step.Begin? && !step.QueueNext?
    ensures Served(Perform(s, step), reqs)
  {
    OtherIsQuiet(s, step);
    QuietServes(s, Perform(s, step), if step.Await? && !s.queued[step.id].discard then [step.id] else [], reqs);
  }

  lemma StepServes(s: Sys, step: Step, reqs: seq<Request>)
    requires Enabled(s, step) && Served(s, reqs)
    ensures Served(Perform(s, step), reqs + Raised(step))
  {
    assert reqs + [] == reqs;
    if step.Begin? {
      BeginServes(s, step.entry, step.keeps, step.alerts, reqs);
    } else if step.QueueNext? {
      QueueServes(s, QueueAlert(s), reqs);
    } else {
      OtherServes(s, step, reqs);
    }
  }

  lemma {:induction false} RunServes(s: Sys, run: seq<Step>, s': Sys, reqs: seq<Request>)
    requires Reaches(s, run, s') && Served(s, reqs)
    ensures Served(s', reqs + Requests(run))
    decreases |run|
  {
    if run == [] {
      assert reqs + [] == reqs;
    } else {
      StepServes(s, run[0], reqs);
      RunServes(Perform(s, run[0]), run[1..], s', reqs + Raised(run[0]));
      Reassociate(reqs, Raised(run[0]), Requests(run[1..]));
    }
  }

  lemma InitialServed(capacity: nat)
    ensures Served(Initial(capacity), [])
  {
  }

  /** In every run, the alerts raised so far are taken up in order, all but those of the entry
      being processed. The one raised as number id is queued as id if it wants after-context,
      and else emitted as id, with its entry as the trigger and with its own settings; and
      nothing else is ever queued or emitted. */
  lemma EveryRequestIsServed(capacity: nat, run: seq<Step>, s: Sys)
    requires 0 < capacity && Reaches(Initial(capacity), run, s)
    ensures var reqs := Requests(run);
            && s.nextId <= |reqs| && (s.activity.Idle? ==> s.nextId == |reqs|)
            && (forall id: nat :: id < s.nextId ==> TakenUp(s.queued, s.emitted, id, reqs[id]))
            && QueuedMatch(s.queued, reqs) && EmittedMatch(s.emitted, reqs)
  {
    InitialServed(capacity);
    RunServes(Initial(capacity), run, s, []);
    assert [] + Requests(run) == Requests(run);
  }

  // ---------------------------------------------------- why a capture ends early

  ghost predicate Hurried(past: seq<Step>, id: nat) { Timer(id) in past || Close in past }

  ghost predicate TimedMatch(queued: map<nat, Pending>, emitted: seq<Emission>, past: seq<Step>) {
    && (forall id :: id in queued && queued[id].collector.capture.timedOut ==> queued[id].discard || Hurried(past, id))
    && (forall i :: 0 <= i < |emitted| && emitted[i].capture.timedOut ==> Hurried(past, emitted[i].id))
  }

  /** Only its timer, Close or the removal of its container times a collector out... */
  lemma QueuedHurries(s: Sys, step: Step, id: nat)
    requires Enabled(s, step) && id in Perform(s, step).queued
    ensures var p := Perform(s, step).queued[id];
            p.collector.capture.timedOut ==>
              p.discard || step == Timer(id) || step == Close
              || (id in s.queued && s.queued[id].collector.capture.timedOut && !s.queued[id].discard)
  {
  }

  /** ...and what is emitted has timed out only if it was queued and not discarded. */
  lemma EmittedHurries(s: Sys, step: Step, s': Sys, i: nat)
    requires Enabled(s, step) && s' == Perform(s, step) && i < |s'.emitted| && s'.emitted[i].capture.timedOut
    ensures (i < |s.emitted| && s'.emitted[i] == s.emitted[i]) ||
            var id := s'.emitted[i].id; id in s.queued && s.queued[id].collector.capture.timedOut && !s.queued[id].discard
  {
    match step
    case Begin(entry, keeps, alerts) => assert s'.emitted == s.emitted;
    case QueueNext => QueueStep(s, s');
    case _ => OtherIsQuiet(s, step);
  }

  lemma StepHurries(s: Sys, step: Step, s': Sys, past: seq<Step>)
    requires Enabled(s, step) && TimedMatch(s.queued, s.emitted, past) && s' == Perform(s, step)
    ensures TimedMatch(s'.queued, s'.emitted, past + [step])
  {
    forall id | id in s'.queued && s'.queued[id].collector.capture.timedOut
      ensures s'.queued[id].discard || Hurried(past + [step], id)
    {
      QueuedHurries(s, step, id);
    }
    forall i | 0 <= i < |s'.emitted| && s'.emitted[i].capture.timedOut ensures Hurried(past + [step], s'.emitted[i].id) {
      EmittedHurries(s, step, s', i);
    }
  }

  lemma {:induction false} RunHurries(s: Sys, run: seq<Step>, s': Sys, past: seq<Step>)
    requires Reaches(s, run, s') && TimedMatch(s.queued, s.emitted, past)
    ensures TimedMatch(s'.queued, s'.emitted, past + run)
    decreases |run|
  {
    if run == [] {
      assert past + [] == past;
    } else {
      StepHurries(s, run[0], Perform(s, run[0]), past);
      RunHurries(Perform(s, run[0]), run[1..], s', past + [run[0]]);
      assert past + [run[0]] + run[1..] == past + run;
    }
  }

  /** An emitted capture lacks after-context only if its own timer fired or the processor was
      closed. */
  lemma ShortCapturesAreHurried(capacity: nat, run: seq<Step>, s: Sys, e: Emission)
    requires 0 < capacity && Reaches(Initial(capacity), run, s) && e in s.emitted
    ensures e.capture.timedOut ==> Hurried(run, e.id)
    ensures Hurried(run, e.id) || |e.capture.after| == if e.wanted.after > 0 then e.wanted.after else 0
  {
    assert TimedMatch(Initial(capacity).queued, Initial(capacity).emitted, []);
    RunHurries(Initial(capacity), run, s, []);
    assert [] + run == run;
    EmittedCapturesAreSlices(capacity, run, s, e);
  }

  // ------------------------------------------------------------------ shutdown

  lemma StepCloses(s: Sys, step: Step)
    requires Enabled(s, step)
    ensures Perform(s, step).closed <==> s.closed || step == Close
  {
    match step
    case Begin(entry, keeps, alerts) => assert BeginEntry(s, entry, alerts).closed == s.closed;
    case AddOne(id) => assert FeedCollector(s, id).closed == s.closed;
    case FinishOne => assert FinishCollector(s, s.activity.finishing.value).closed == s.closed;
    case QueueNext => assert QueueAlert(s).closed == s.closed;
    case EndProcess => assert EndEntry(s).closed == s.closed;
    case Timer(id) => assert StopCollector(s, id).closed == s.closed;
    case Await(id) => assert AwaitContext(s, id).closed == s.closed;
    case RemoveContainer(key) => assert Dropped(s, key).closed == s.closed;
    case Close =>
  }

  lemma {:induction false} RunCloses(s: Sys, run: seq<Step>, s': Sys)
    requires Reaches(s, run, s')
    ensures s'.closed <==> s.closed || Close in run
    decreases |run|
  {
    if run != [] {
      StepCloses(s, run[0]);
      RunCloses(Perform(s, run[0]), run[1..], s');
      assert run == [run[0]] + run[1..];
    }
  }

  /** No entry is processed after Close was called, and only then: between entries, an open
      processor takes any entry. */
  lemma TakesEntriesUntilClosed(capacity: nat, run: seq<Step>, s: Sys, entry: LogEntry, alerts: seq<Wanted>)
    requires Reaches(Initial(capacity), run, s)
    ensures Enabled(s, Begin(entry, true, alerts)) <==> s.activity.Idle? && Close !in run
  {
    RunCloses(Initial(capacity), run, s);
  }
}
