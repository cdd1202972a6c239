/** The processor as the program holds it: an object whose methods run whole locked sections.
    Process, which takes many steps under one lock, is a run of the step system of Processor,
    so everything proved about those runs holds for it; the other methods are single steps.
    Model of internal/processor/processor.go. Parsing, routing, matching and aggregating are
    replaced by their outcome: whether the entry is routed to context, and for each matched
    rule what the aggregator answered. */
module ProcessorClass {
  import opened Common
  import opened ContextBuffer
  import Collecting = AfterCollector
  import opened Steps = Processor
  import Runs = ProcessorRuns

  /** What recording the entry under one matched rule led to. */
  datatype Matched = RecordFailed | NoAlert | Raised(wanted: Wanted)

  /** The alerts to queue, in the order of the rules. */
  function AlertsOf(matches: seq<Matched>): (alerts: seq<Wanted>) {
    if matches == [] then []
    else if matches[0].Raised? then [matches[0].wanted] + AlertsOf(matches[1..])
    else AlertsOf(matches[1..])
  }

  lemma AlertsOfNext(matches: seq<Matched>, i: nat)
    requires i < |matches|
    ensures AlertsOf(matches[i..]) ==
              if matches[i].Raised? then [matches[i].wanted] + AlertsOf(matches[i + 1..]) else AlertsOf(matches[i + 1..])
    ensures RecordFailed !in matches[..i + 1] <==> RecordFailed !in matches[..i] && matches[i] != RecordFailed
  {
    assert matches[i..][0] == matches[i] && matches[i..][1..] == matches[i + 1..];
    assert matches[..i + 1] == matches[..i] + [matches[i]];
  }

  /** Each raised alert once, in order, and nothing else. */
  lemma {:induction false} AlertsOfConcat(a: seq<Matched>, b: seq<Matched>)
    ensures AlertsOf(a + b) == AlertsOf(a) + AlertsOf(b)
    ensures AlertsOf([RecordFailed]) == AlertsOf([NoAlert]) == [] && forall w :: AlertsOf([Raised(w)]) == [w]
  {
    if a == [] {
      assert a + b == b;
    } else {
      assert (a + b)[1..] == a[1..] + b;
      AlertsOfConcat(a[1..], b);
    }
  }

  /** A step within Process, after its beginning. */
  predicate Inner(step: Step) { step.AddOne? || step.FinishOne? || step.QueueNext? || step.EndProcess? }

  /** The other steps of a run. */
  function Outer(run: seq<Step>): (r: seq<Step>) {
    if run == [] then []
    else if Inner(run[|run| - 1]) then Outer(run[..|run| - 1])
    else Outer(run[..|run| - 1]) + [run[|run| - 1]]
  }

  lemma OuterAnd(run: seq<Step>, step: Step)
    requires Inner(step)
    ensures Outer(run + [step]) == Outer(run)
  {
    assert (run + [step])[..|run|] == run;
  }

  /** A pending alert after its collector's Add. */
  function Fed(p: Pending, e: LogEntry): Pending {
    var (c, full) := Collecting.AddLocked(p.collector, e);
    p.(collector := if full then Collecting.FinishLocked(c, false).0 else c)
  }

  /** The entry has reached the alerts of items, all but those still to do, and no other. */
  ghost predicate FedSoFar(before: map<nat, Pending>, after: map<nat, Pending>, items: set<nat>, todo: set<nat>, entry: LogEntry) {
    after.Keys == before.Keys && forall id :: id in after ==>
      after[id] == if id in items && id !in todo then Fed(before[id], entry) else before[id]
  }

  lemma FedNext(before: map<nat, Pending>, after: map<nat, Pending>, items: set<nat>, todo: set<nat>, entry: LogEntry, id: nat)
    requires FedSoFar(before, after, items, todo, entry) && id in after && id in todo && todo <= items
    ensures FedSoFar(before, after[id := Fed(after[id], entry)], items, todo - {id}, entry)
  {
  }

  /** The entry reached each alert pending for its container, and changed no other. */
  ghost predicate FedOnce(pending: map<Str, set<nat>>, before: map<nat, Pending>, after: map<nat, Pending>, entry: LogEntry) {
    forall id :: id in before ==>
      && id in after
      && after[id] == if id in PendingAt(pending, ContainerKey(entry)) then Fed(before[id], entry) else before[id]
  }

  /** A pending alert whose collector was cancelled, by Close or by the container's removal. */
  function Cancelled(p: Pending, discard: bool): Pending {
    if discard then Stopped(p).(discard := true) else Stopped(p)
  }

  lemma PendingIsQueued(s: Sys, key: Str)
    requires PendingInv(s.pending, s.queued)
    ensures PendingAt(s.pending, key) <= s.queued.Keys
  {
  }

  lemma {:induction false} ReachesAnd(s: Sys, run: seq<Step>, s': Sys, step: Step)
    requires Reaches(s, run, s') && Enabled(s', step)
    ensures Reaches(s, run + [step], Perform(s', step))
    decreases |run|
  {
    if run == [] {
      assert Reaches(Perform(s, step), [], Perform(s, step));
      assert ([step])[1..] == [];
    } else {
      assert (run + [step])[1..] == run[1..] + [step];
      ReachesAnd(Perform(s, run[0]), run[1..], s', step);
    }
  }

  /** `kept`, `epochs` and the positions inside `queued` are history. */
  class Processor {
    const capacity: nat
    var buffers: map<Str, seq<LogEntry>>
    var pending: map<Str, set<nat>>
    var closed: bool
    var queued: map<nat, Pending>
    var waiting: set<nat>
    var emitted: seq<Emission>
    var kept: Kept
    var epochs: map<Str, nat>
    var nextId: nat

    ghost function During(activity: Activity): Sys reads this {
      Sys.Sys(capacity, buffers, pending, closed, activity, queued, waiting, emitted, kept, epochs, nextId)
    }

    ghost function State(): Sys reads this { During(Idle) }

    ghost predicate Valid() reads this { Inv(State()) }

    constructor (capacity: nat)
      requires 0 < capacity
      ensures Valid() && State() == Initial(capacity)
    {
      this.capacity, buffers, pending, closed, queued := capacity, map[], map[], false, map[];
      waiting, emitted, kept, epochs, nextId := {}, [], map[], map[], 0;
      new;
      InitialInv(capacity);
    }

    /** One collector's Add, which may go on to finish. */
    method AddTo(id: nat, entry: LogEntry, ghost todo: set<nat>, ghost alerts: seq<Wanted>, ghost s0: Sys, ghost run0: seq<Step>)
      returns (ghost run: seq<Step>)
      requires id in queued && id in todo
      requires Reaches(s0, run0, During(Working(entry, todo, None, alerts)))
      modifies this`queued
      ensures queued == old(queued)[id := Fed(old(queued)[id], entry)]
      ensures Reaches(s0, run, During(Working(entry, todo - {id}, None, alerts))) && Outer(run) == Outer(run0)
    {
      ghost var s := During(Working(entry, todo, None, alerts));
      ReachesAnd(s0, run0, s, AddOne(id));
      var (c, full) := Collecting.AddLocked(queued[id].collector, entry);
      queued := queued[id := queued[id].(collector := c)];
      run := run0 + [AddOne(id)];
      OuterAnd(run0, AddOne(id));
      if full {
        s := During(Working(entry, todo - {id}, Some(id), alerts));
        ReachesAnd(s0, run, s, FinishOne);
        queued := queued[id := queued[id].(collector := Collecting.FinishLocked(c, false).0)];
        OuterAnd(run, FinishOne);
        run := run + [FinishOne];
      }
    }

    method AddAfterContext(entry: LogEntry, ghost alerts: seq<Wanted>, ghost s0: Sys, ghost run0: seq<Step>)
      returns (ghost run: seq<Step>)
      requires PendingAt(pending, ContainerKey(entry)) <= queued.Keys
      requires Reaches(s0, run0, During(Working(entry, PendingAt(pending, ContainerKey(entry)), None, alerts)))
      modifies this`queued
      ensures Reaches(s0, run, During(Working(entry, {}, None, alerts))) && Outer(run) == Outer(run0)
      ensures FedSoFar(old(queued), queued, PendingAt(pending, ContainerKey(entry)), {}, entry)
    {
      var items := PendingAt(pending, ContainerKey(entry));
      var todo := items;
      run := run0;
      while todo != {}
        invariant todo <= items && FedSoFar(old(queued), queued, items, todo, entry)
        invariant Reaches(s0, run, During(Working(entry, todo, None, alerts))) && Outer(run) == Outer(run0)
        decreases |todo|
      {
        var id :| id in todo;
        FedNext(old(queued), queued, items, todo, entry, id);
        run := AddTo(id, entry, todo, alerts, s0, run);
        todo := todo - {id};
      }
    }

    /** Without after-context the alert is handed out at once. */
    method EmitNow(alert: Pending, ghost entry: LogEntry, ghost alerts: seq<Wanted>)
      requires alerts != []
      modifies this`emitted, this`nextId
      ensures nextId == old(nextId) + 1
      ensures During(Working(entry, {}, None, alerts[1..])) == old(Steps.EmitNow(During(Working(entry, {}, None, alerts)), alert))
    {
      emitted := emitted + [EmissionOf(nextId, alert)];
      nextId := nextId + 1;
    }

    /** Otherwise it becomes pending and its goroutine waits. */
    method Enqueue(alert: Pending, ghost entry: LogEntry, ghost alerts: seq<Wanted>)
      requires alerts != []
      modifies this`queued, this`pending, this`waiting, this`nextId
      ensures nextId == old(nextId) + 1 && queued == old(queued)[old(nextId) := alert]
      ensures During(Working(entry, {}, None, alerts[1..])) == old(Steps.Enqueue(During(Working(entry, {}, None, alerts)), alert))
    {
      queued := queued[nextId := alert];
      pending := pending[alert.key := PendingAt(pending, alert.key) + {nextId}];
      waiting := waiting + {nextId};
      nextId := nextId + 1;
    }

    /** The alert with its before-context and its collector. */
    method NewAlert(entry: LogEntry, wanted: Wanted, ghost rest: seq<Wanted>) returns (alert: Pending)
      ensures alert == NextAlert(During(Working(entry, {}, None, [wanted] + rest)))
    {
      var key := ContainerKey(entry);
      var epoch := EpochOf(epochs, key);
      var h := KeptAt(kept, key, epoch);
      var before := Suffix(BufferAt(buffers, key), wanted.before);
      var collector := Collecting.Started(before, entry, wanted.after);
      alert := Pending(key, epoch, if h == [] then 0 else |h| - 1, wanted, collector, false);
    }

    method QueueAlert(entry: LogEntry, wanted: Wanted, ghost rest: seq<Wanted>, ghost s0: Sys, ghost run0: seq<Step>)
      returns (ghost run: seq<Step>)
      requires Reaches(s0, run0, During(Working(entry, {}, None, [wanted] + rest)))
      modifies this`queued, this`pending, this`waiting, this`emitted, this`nextId
      ensures Reaches(s0, run, During(Working(entry, {}, None, rest))) && Outer(run) == Outer(run0)
      ensures nextId == old(nextId) + 1
      ensures forall id :: id in old(queued) && id < old(nextId) ==> id in queued && queued[id] == old(queued)[id]
    {
      ReachesAnd(s0, run0, During(Working(entry, {}, None, [wanted] + rest)), QueueNext);
      run := run0 + [QueueNext];
      OuterAnd(run0, QueueNext);
      assert ([wanted] + rest)[1..] == rest;
      var alert := NewAlert(entry, wanted, rest);
      if wanted.after <= 0 {
        EmitNow(alert, entry, [wanted] + rest);
      } else {
        Enqueue(alert, entry, [wanted] + rest);
      }
    }

    /** The loop over the matched rules: a failed record is remembered and the loop goes on. */
    method QueueAlerts(entry: LogEntry, matches: seq<Matched>, ghost s0: Sys, ghost run0: seq<Step>)
      returns (ok: bool, ghost run: seq<Step>)
      requires Reaches(s0, run0, During(Working(entry, {}, None, AlertsOf(matches))))
      modifies this`queued, this`pending, this`waiting, this`emitted, this`nextId
      ensures Reaches(s0, run, During(Working(entry, {}, None, []))) && Outer(run) == Outer(run0)
      ensures ok <==> RecordFailed !in matches
      ensures nextId == old(nextId) + |AlertsOf(matches)|
      ensures forall id :: id in old(queued) && id < old(nextId) ==> id in queued && queued[id] == old(queued)[id]
    {
      ok, run := true, run0;
      ghost var rest := AlertsOf(matches);
      for i := 0 to |matches|
        invariant rest == AlertsOf(matches[i..])
        invariant Reaches(s0, run, During(Working(entry, {}, None, rest))) && Outer(run) == Outer(run0)
        invariant ok <==> RecordFailed !in matches[..i]
        invariant old(nextId) <= nextId == old(nextId) + |AlertsOf(matches)| - |rest|
        invariant forall id :: id in old(queued) && id < old(nextId) ==> id in queued && queued[id] == old(queued)[id]
      {
        AlertsOfNext(matches, i);
        rest := AlertsOf(matches[i + 1..]);
        if matches[i] == RecordFailed {
          ok := false;
        } else if matches[i].Raised? {
          run := QueueAlert(entry, matches[i].wanted, rest, s0, run);
        }
      }
    }

    /** The part of Process for an entry that is kept. */
    method ProcessKept(entry: LogEntry, matches: seq<Matched>) returns (ok: bool, ghost run: seq<Step>)
      requires !closed && PendingInv(pending, queued) && (forall id :: id in queued ==> id < nextId)
      modifies this`kept, this`queued, this`pending, this`waiting, this`emitted, this`nextId, this`buffers
      ensures Reaches(old(State()), run, State()) && Outer(run) == [Begin(entry, true, AlertsOf(matches))]
      ensures ok <==> RecordFailed !in matches
      ensures buffers == old(buffers)[ContainerKey(entry) := Suffix(BufferAt(old(buffers), ContainerKey(entry)) + [entry], capacity)]
      ensures nextId == old(nextId) + |AlertsOf(matches)|
      ensures FedOnce(old(pending), old(queued), queued, entry)
    {
      ghost var s0 := State();
      assert Reaches(s0, [], s0);
      var key := ContainerKey(entry);
      ReachesAnd(s0, [], s0, Begin(entry, true, AlertsOf(matches)));
      run := [] + [Begin(entry, true, AlertsOf(matches))];
      kept := kept[(key, EpochOf(epochs, key)) := KeptAt(kept, key, EpochOf(epochs, key)) + [entry]];
      PendingIsQueued(State(), key);
      run := AddAfterContext(entry, AlertsOf(matches), s0, run);
      ok, run := QueueAlerts(entry, matches, s0, run);
      ReachesAnd(s0, run, During(Working(entry, {}, None, [])), EndProcess);
      OuterAnd(run, EndProcess);
      run := run + [EndProcess];
      buffers := buffers[key := Suffix(BufferAt(buffers, key) + [entry], capacity)];
    }

    /** Process is a run of the step system. It reports an error exactly when closed or when
        recording failed for some matched rule, and only the former has no effect. A kept entry
        is fed once to each collector that was pending for its container, and only to those,
        before the entry's own alerts are queued, and then joins its container's buffer. */
    method Process(entry: LogEntry, routed: bool, matches: seq<Matched>) returns (ok: bool, ghost run: seq<Step>)
      requires Valid()
      modifies this
      ensures Valid() && Reaches(old(State()), run, State()) && closed == old(closed)
      ensures ok <==> !old(closed) && RecordFailed !in matches
      ensures old(closed) || (!routed && matches == []) ==> State() == old(State())
      ensures !old(closed) && (routed || matches != []) ==>
                && buffers == old(buffers)[ContainerKey(entry) := Suffix(BufferAt(old(buffers), ContainerKey(entry)) + [entry], capacity)]
                && nextId == old(nextId) + |AlertsOf(matches)|
                && FedOnce(old(pending), old(queued), queued, entry)
                && Outer(run) == [Begin(entry, true, AlertsOf(matches))]
    {
      ghost var s0 := State();
      assert Reaches(s0, [], s0);
      if closed {
        return false, [];
      }
      var keepsContext := routed || |matches| > 0;
      if !keepsContext {
        return true, [];
      }
      ok, run := ProcessKept(entry, matches);
      RunKeepsInv(s0, run, State());
    }

    /** Takes the alert out of the pending sets and hands it out with its capture. */
    method Resolve(id: nat)
      requires id in queued
      modifies this`waiting, this`pending, this`emitted
      ensures State() == old(Steps.AwaitContext(State(), id))
    {
      var p := queued[id];
      waiting := waiting - {id};
      if p.discard {
        return;
      }
      var items := PendingAt(pending, p.key) - {id};
      if items == {} {
        pending := pending - {p.key};
      } else {
        pending := pending[p.key := items];
      }
      emitted := emitted + [EmissionOf(id, p)];
    }

    /** awaitContext once its collector has delivered. */
    method AwaitContext(id: nat)
      requires Valid() && Enabled(State(), Await(id))
      modifies this`waiting, this`pending, this`emitted
      ensures Valid() && State() == old(Steps.AwaitContext(State(), id))
    {
      StepKeepsInv(State(), Await(id));
      Resolve(id);
    }

    /** Cancels the collectors of `items`, and marks them discarded if asked to. */
    method CancelAll(items: set<nat>, discard: bool)
      requires items <= queued.Keys
      modifies this`queued
      ensures queued.Keys == old(queued).Keys
      ensures forall id :: id in queued ==> queued[id] == if id in items then Cancelled(old(queued)[id], discard) else old(queued)[id]
    {
      var todo := items;
      while todo != {}
        invariant todo <= items && queued.Keys == old(queued).Keys
        invariant forall id :: id in queued ==>
          queued[id] == if id in items && id !in todo then Cancelled(old(queued)[id], discard) else old(queued)[id]
        decreases |todo|
      {
        var id :| id in todo;
        queued := queued[id := Cancelled(queued[id], discard)];
        todo := todo - {id};
      }
    }

    method DropContainer(container: Str)
      requires PendingAt(pending, container) <= queued.Keys
      modifies this`queued, this`pending, this`buffers, this`epochs
      ensures State() == old(Dropped(State(), container))
    {
      ghost var s0 := State();
      CancelAll(PendingAt(pending, container), true);
      assert queued == Dropped(s0, container).queued;
      pending := pending - {container};
      buffers := buffers - {container};
      epochs := epochs[container := EpochOf(epochs, container) + 1];
    }

    method RemoveContainer(container: Str)
      requires Valid()
      modifies this`queued, this`pending, this`buffers, this`epochs
      ensures Valid() && State() == old(Dropped(State(), container))
    {
      ghost var s0 := State();
      DropKeepsInv(s0, container);
      PendingIsQueued(s0, container);
      DropContainer(container);
    }

    method CancelPending()
      requires PendingInv(pending, queued)
      modifies this`queued
      ensures queued.Keys == old(queued).Keys
      ensures forall id :: id in queued ==>
                queued[id] == if exists k :: k in pending && id in pending[k] then Stopped(old(queued)[id]) else old(queued)[id]
    {
      var keys := pending.Keys;
      while keys != {}
        invariant keys <= pending.Keys && queued.Keys == old(queued).Keys
        invariant forall id :: id in queued ==>
          queued[id] == if old(queued)[id].key in pending.Keys - keys && id in pending[old(queued)[id].key]
                        then Stopped(old(queued)[id]) else old(queued)[id]
        decreases |keys|
      {
        var k :| k in keys;
        CancelAll(pending[k], false);
        keys := keys - {k};
      }
    }

    method CloseNow()
      requires PendingInv(pending, queued)
      modifies this`queued, this`closed
      ensures State() == old(Closing(State()))
    {
      ghost var s0 := State();
      closed := true;
      CancelPending();
      assert queued == Closing(s0).queued;
    }

    /** Close up to where it waits; a second call changes nothing. */
    method BeginClose()
      requires Valid()
      modifies this`queued, this`closed
      ensures Valid() && closed
      ensures State() == if old(closed) then old(State()) else old(Closing(State()))
    {
      if closed {
        return;
      }
      ghost var s0 := State();
      CloseKeepsInv(s0);
      CloseNow();
    }
  }

  // -------------------------------------------------- what a call adds to a run

  lemma {:induction false} RequestsConcat(a: seq<Step>, b: seq<Step>)
    ensures Runs.Requests(a + b) == Runs.Requests(a) + Runs.Requests(b)
  {
    if a == [] {
      assert a + b == b;
    } else {
      assert (a + b)[1..] == a[1..] + b;
      RequestsConcat(a[1..], b);
      Reassociate(Runs.Raised(a[0]), Runs.Requests(a[1..]), Runs.Requests(b));
    }
  }

  lemma {:induction false} LivesConcat(lives: Runs.Lives, a: seq<Step>, b: seq<Step>, key: Str)
    requires lives != []
    ensures Runs.LivesAfter(lives, a + b, key) == Runs.LivesAfter(Runs.LivesAfter(lives, a, key), b, key)
    decreases |a|
  {
    if a == [] {
      assert a + b == b;
    } else {
      assert (a + b)[1..] == a[1..] + b;
      LivesConcat(Runs.NextLives(lives, a[0], key), a[1..], b, key);
    }
  }

  lemma OneStep(lives: Runs.Lives, step: Step, key: Str)
    requires lives != []
    ensures Runs.Requests([step]) == Runs.Raised(step) && Runs.LivesAfter(lives, [step], key) == Runs.NextLives(lives, step, key)
  {
    assert [step][1..] == [];
    assert Runs.Raised(step) + [] == Runs.Raised(step);
  }

  lemma {:induction false} OuterDecides(run: seq<Step>, lives: Runs.Lives, key: Str)
    requires lives != []
    ensures Runs.Requests(run) == Runs.Requests(Outer(run))
    ensures Runs.LivesAfter(lives, run, key) == Runs.LivesAfter(lives, Outer(run), key)
    decreases |run|
  {
    if run != [] {
      var init, step := run[..|run| - 1], run[|run| - 1];
      OuterDecides(init, lives, key);
      assert init + [step] == run;
      RequestsConcat(init, [step]);
      RequestsConcat(Outer(init), [step]);
      LivesConcat(lives, init, [step], key);
      LivesConcat(lives, Outer(init), [step], key);
      OneStep(Runs.LivesAfter(lives, init, key), step, key);
      assert Inner(step) ==> Runs.Requests(init) + [] == Runs.Requests(init);
    }
  }

  /** The run that Process takes for an entry raises the matched rules' alerts and nothing else,
      and adds the entry, once, to the current life of its own container only. */
  lemma ProcessRunIs(run: seq<Step>, entry: LogEntry, alerts: seq<Wanted>, lives: Runs.Lives, key: Str)
    requires Outer(run) == [Begin(entry, true, alerts)] && lives != []
    ensures Runs.Requests(run) == Runs.RequestsOf(entry, alerts)
    ensures var n := |lives| - 1;
            Runs.LivesAfter(lives, run, key) == if Runs.OwnedBy(entry, key) then lives[n := lives[n] + [entry]] else lives
  {
    OuterDecides(run, lives, key);
    OneStep(lives, Begin(entry, true, alerts), key);
  }
}
