/** The runtime side of replay: per-container gates and replay starts, and the loop that
    processes a record and then saves its checkpoint. Model of internal/runtime/runtime.go. */
module Observer {
  import opened Common
  import opened Replay
  import opened CheckpointStore

  datatype ObserverState = ObserverState(gates: map<Str, Gate>, ids: map<Str, Str>, initialStarts: map<Str, int>)

  // ------------------------------------------------------------ locked sections

  /** The first locked section of ContainerAttached; true if the container was recreated. */
  function AttachIdStep(o: ObserverState, name: Str, id: Str): (r: (ObserverState, bool)) {
    var previous := if name in o.ids then o.ids[name] else [];
    (o.(ids := o.ids[name := id]), previous != [] && previous != id)
  }

  /** The second locked section of ContainerAttached, given what Load answered. */
  function AttachGateStep(o: ObserverState, name: Str, loaded: LoadResult): (o': ObserverState) {
    match loaded
    case LoadError => o
    case Found(cp) => o.(gates := o.gates[name := NewGate(cp)])
    case Missing => o.(gates := o.gates - {name})
  }

  /** replayStart after its Load: the start of the stream to request. */
  function ResolveStartStep(o: ObserverState, name: Str, loaded: LoadResult, now: int, window: int, overlap: int)
    : (r: (ObserverState, int))
  {
    match loaded
    case LoadError => (o, ZERO_TIME)
    case Missing =>
      if name in o.initialStarts then (o, o.initialStarts[name])
      else (o.(initialStarts := o.initialStarts[name := now - window]), now - window)
    case Found(cp) => (o.(initialStarts := o.initialStarts - {name}), ReplayStart(cp, overlap))
  }

  /** filter: the gate of the record's container, if any, decides what is released. */
  function FilterStep(h: Hasher, o: ObserverState, raw: RawLog): (r: (ObserverState, seq<RawLog>)) {
    if raw.containerName in o.gates then
      var (g, out) := AcceptStep(h, o.gates[raw.containerName], raw);
      (o.(gates := o.gates[raw.containerName := g]), out)
    else (o, [raw])
  }

  function CheckpointOf(h: Hasher, item: RawLog): (cp: Checkpoint) {
    Checkpoint(item.containerName, item.containerId, item.timestamp, EventHash(h, item))
  }

  class RuntimeObserver {
    const hasher: Hasher
    const overlap: int
    const initialReplayWindow: int
    var gates: map<Str, ReplayGate>
    var ids: map<Str, Str>
    var initialStarts: map<Str, int>

    /** No two containers share a gate. */
    ghost predicate Valid() reads this, gates.Values {
      && (forall n, m :: n in gates && m in gates && n != m ==> gates[n] != gates[m])
      && (forall n :: n in gates ==> gates[n].hasher == hasher)
    }

    ghost function State(): ObserverState reads this, gates.Values {
      ObserverState(map n | n in gates :: gates[n].State(), ids, initialStarts)
    }

    constructor (h: Hasher, overlap: int, window: int)
      ensures Valid() && State() == ObserverState(map[], map[], map[])
      ensures hasher == h && this.overlap == overlap && initialReplayWindow == window
    {
      hasher, this.overlap, initialReplayWindow := h, overlap, window;
      gates, ids, initialStarts := map[], map[], map[];
    }

    method AttachId(name: Str, id: Str) returns (recreated: bool)
      requires Valid()
      modifies this`ids
      ensures Valid() && (State(), recreated) == old(AttachIdStep(State(), name, id))
    {
      var previous := if name in ids then ids[name] else [];
      ids := ids[name := id];
      assert State().gates == old(State().gates);
      recreated := previous != [] && previous != id;
    }

    method InstallGate(name: Str, cp: Checkpoint)
      requires Valid()
      modifies this`gates
      ensures Valid() && State() == old(State()).(gates := old(State()).gates[name := NewGate(cp)])
    {
      var gate := new ReplayGate(hasher, cp);
      gates := gates[name := gate];
      assert State().gates == old(State().gates)[name := NewGate(cp)];
    }

    method AttachGate(name: Str, loaded: LoadResult)
      requires Valid()
      modifies this`gates
      ensures Valid() && State() == old(AttachGateStep(State(), name, loaded))
    {
      match loaded
      case LoadError =>
      case Found(cp) =>
        InstallGate(name, cp);
      case Missing =>
        gates := gates - {name};
        assert State().gates == old(State().gates) - {name};
    }

    method ResolveStart(name: Str, loaded: LoadResult, now: int) returns (start: int)
      requires Valid()
      modifies this`initialStarts
      ensures Valid()
      ensures (State(), start) == old(ResolveStartStep(State(), name, loaded, now, initialReplayWindow, overlap))
    {
      match loaded
      case LoadError =>
        start := ZERO_TIME;
        assert State() == old(State());
      case Missing =>
        if name in initialStarts {
          assert State() == old(State());
          return initialStarts[name];
        }
        start := now - initialReplayWindow;
        initialStarts := initialStarts[name := start];
        assert State().gates == old(State().gates);
      case Found(cp) =>
        initialStarts := initialStarts - {name};
        assert State().gates == old(State().gates);
        start := ReplayStart(cp, overlap);
    }

    method Filter(raw: RawLog) returns (out: seq<RawLog>)
      requires Valid()
      modifies gates.Values
      ensures Valid() && gates == old(gates)
      ensures (State(), out) == old(FilterStep(hasher, State(), raw))
    {
      if raw.containerName in gates {
        var gate := gates[raw.containerName];
        assert gate in gates.Values;
        out := gate.Accept(raw);
        assert State().gates == old(State().gates)[raw.containerName := gate.State()];
      } else {
        out := [raw];
      }
    }
  }

  // ----------------------------------------------------------- recreated containers

  /** The locked sections of the observer, in any order and for any containers. */
  datatype ObserverOp =
    | SeenAttached(name: Str, id: Str)
    | GateSet(name: Str, loaded: LoadResult)
    | StartResolved(name: Str, loaded: LoadResult, now: int)
    | Filtered(raw: RawLog)

  function Observed(h: Hasher, window: int, overlap: int, ops: seq<ObserverOp>): (o: ObserverState) {
    if ops == [] then ObserverState(map[], map[], map[])
    else
      var o := Observed(h, window, overlap, ops[..|ops| - 1]);
      match ops[|ops| - 1]
      case SeenAttached(name, id) => AttachIdStep(o, name, id).0
      case GateSet(name, loaded) => AttachGateStep(o, name, loaded)
      case StartResolved(name, loaded, now) => ResolveStartStep(o, name, loaded, now, window, overlap).0
      case Filtered(raw) => FilterStep(h, o, raw).0
  }

  /** The ID under which the container was attached last. */
  function LastAttached(ops: seq<ObserverOp>, name: Str): (id: Option<Str>) {
    if ops == [] then None
    else
      var op := ops[|ops| - 1];
      if op.SeenAttached? && op.name == name then Some(op.id) else LastAttached(ops[..|ops| - 1], name)
  }

  /** Whatever the observer did before, an attach reports a recreated container exactly when
      the last attach of that name was under another ID (an empty ID counts as none), and
      nothing but the remembered ID changes. */
  lemma {:induction false} RecreatedIffIdChanged(h: Hasher, window: int, overlap: int, ops: seq<ObserverOp>, name: Str, id: Str)
    ensures var o := Observed(h, window, overlap, ops);
            var last := LastAttached(ops, name);
            && (name in o.ids <==> last.Some?) && (last.Some? ==> o.ids[name] == last.value)
            && (AttachIdStep(o, name, id).1 <==> last.Some? && last.value != [] && last.value != id)
            && AttachIdStep(o, name, id).0.gates == o.gates && AttachIdStep(o, name, id).0.initialStarts == o.initialStarts
  {
    if ops != [] {
      RecreatedIffIdChanged(h, window, overlap, ops[..|ops| - 1], name, id);
    }
  }

  // ---------------------------------------------- gates and starts over whole runs

  /** The checkpoint of the container's last load that did not fail, and its records since. */
  function SinceLoad(ops: seq<ObserverOp>, name: Str): (r: (Option<Checkpoint>, seq<RawLog>)) {
    if ops == [] then (None, [])
    else
      var (loaded, records) := SinceLoad(ops[..|ops| - 1], name);
      var op := ops[|ops| - 1];
      if op.GateSet? && op.name == name && op.loaded.Found? then (Some(op.loaded.checkpoint), [])
      else if op.GateSet? && op.name == name && op.loaded.Missing? then (None, [])
      else if op.Filtered? && op.raw.containerName == name then (loaded, records + [op.raw])
      else (loaded, records)
  }

  lemma {:induction false} FeedAppend(h: Hasher, g: Gate, s: seq<RawLog>, r: RawLog)
    ensures var (g1, out) := AcceptStep(h, Feed(h, g, s).0, r);
            Feed(h, g, s + [r]) == (g1, Feed(h, g, s).1 + out)
    decreases |s|
  {
    if s == [] {
      assert [] + [r] == [r] && [r][1..] == [];
      var (g1, out) := AcceptStep(h, g, r);
      assert Feed(h, g1, []) == (g1, []) && out + [] == out && [] + out == out;
    } else {
      assert (s + [r])[0] == s[0] && (s + [r])[1..] == s[1..] + [r];
      var (g1, out) := AcceptStep(h, g, s[0]);
      FeedAppend(h, g1, s[1..], r);
      Reassociate(out, Feed(h, g1, s[1..]).1, AcceptStep(h, Feed(h, g1, s[1..]).0, r).1);
    }
  }

  /** Whatever the observer did before: a container has a gate exactly if its last load that did
      not fail found a checkpoint, and the gate is where that checkpoint and the container's own
      records since have brought it. */
  lemma {:induction false} GateIsFedSinceLoad(h: Hasher, window: int, overlap: int, ops: seq<ObserverOp>, name: Str)
    ensures var o := Observed(h, window, overlap, ops);
            var (loaded, records) := SinceLoad(ops, name);
            && (name in o.gates <==> loaded.Some?)
            && (loaded.Some? ==> o.gates[name] == Feed(h, NewGate(loaded.value), records).0)
  {
    if ops != [] {
      var init, op := ops[..|ops| - 1], ops[|ops| - 1];
      GateIsFedSinceLoad(h, window, overlap, init, name);
      var (loaded, records) := SinceLoad(init, name);
      if op.Filtered? && op.raw.containerName == name && loaded.Some? {
        FeedAppend(h, NewGate(loaded.value), records, op.raw);
      }
    }
  }

  /** filter releases what a gate fed with the container's records since the last load releases
      for this one; a container without a checkpoint has its records passed on. */
  lemma FilterIsFeed(h: Hasher, window: int, overlap: int, ops: seq<ObserverOp>, raw: RawLog)
    ensures var out := FilterStep(h, Observed(h, window, overlap, ops), raw).1;
            match SinceLoad(ops, raw.containerName)
            case (None, _) => out == [raw]
            case (Some(cp), records) => Feed(h, NewGate(cp), records + [raw]).1 == Feed(h, NewGate(cp), records).1 + out
  {
    GateIsFedSinceLoad(h, window, overlap, ops, raw.containerName);
    var (loaded, records) := SinceLoad(ops, raw.containerName);
    if loaded.Some? {
      FeedAppend(h, NewGate(loaded.value), records, raw);
    }
  }

  /** The clock at the first load without result since the last one that found a checkpoint. */
  function FirstMissing(ops: seq<ObserverOp>, name: Str): (now: Option<int>) {
    if ops == [] then None
    else
      var op, first := ops[|ops| - 1], FirstMissing(ops[..|ops| - 1], name);
      if op.StartResolved? && op.name == name && op.loaded.Found? then None
      else if op.StartResolved? && op.name == name && op.loaded.Missing? && first.None? then Some(op.now)
      else first
  }

  /** Whatever the observer did before: with a checkpoint the stream starts the overlap before it
      (a checkpoint without a time: at the beginning); after a failed load it starts at the
      beginning; without a checkpoint it starts the initial window before the first time this
      happened, and again there until a checkpoint is found. */
  lemma {:induction false} StartIsStable(h: Hasher, window: int, overlap: int, ops: seq<ObserverOp>,
                                         name: Str, loaded: LoadResult, now: int)
    ensures var o := Observed(h, window, overlap, ops);
            var first := FirstMissing(ops, name);
            && (name in o.initialStarts <==> first.Some?) && (first.Some? ==> o.initialStarts[name] == first.value - window)
            && ResolveStartStep(o, name, loaded, now, window, overlap).1 ==
                 match loaded
                 case Found(cp) => if cp.lastTimestamp == ZERO_TIME then ZERO_TIME else cp.lastTimestamp - overlap
                 case LoadError => ZERO_TIME
                 case Missing => (if first.Some? then first.value else now) - window
  {
    if ops != [] {
      StartIsStable(h, window, overlap, ops[..|ops| - 1], name, loaded, now);
    }
  }

  // --------------------------------------------------------------- process and save

  /** The store after the checkpoints of items have been saved in order, where commits[i]
      says whether a flush triggered by the i-th save would commit. */
  function SaveAll(h: Hasher, s: StoreState, items: seq<RawLog>, commits: nat -> bool): (s': StoreState) {
    if items == [] then s
    else
      var n := |items| - 1;
      SaveStep(SaveAll(h, s, items[..n], commits), CheckpointOf(h, items[n]), commits(n)).0
  }

  /** The last of the items that belongs to the container. */
  function LastOf(items: seq<RawLog>, name: Str): (r: Option<RawLog>) {
    if items == [] then None
    else if items[|items| - 1].containerName == name then Some(items[|items| - 1])
    else LastOf(items[..|items| - 1], name)
  }

  /** An open store whose checkpoints are kept under their own names. */
  ghost predicate InService(s: StoreState) { !s.closing && !s.closed && WellKeyed(s.durable) && WellKeyed(s.pending) }

  predicate Identified(h: Hasher, item: RawLog) {
    item.containerName != [] && item.containerId != [] && item.timestamp != ZERO_TIME && EventHash(h, item) != []
  }

  /** Whatever flushes fail, an open store answers afterwards with the name, ID, time and event
      hash of the container's last identified item, and as before for any other container. */
  lemma {:induction false} ItemsAreSaved(h: Hasher, s: StoreState, items: seq<RawLog>, commits: nat -> bool, name: Str)
    requires InService(s) && forall i :: 0 <= i < |items| ==> Identified(h, items[i])
    ensures var s' := SaveAll(h, s, items, commits);
            && InService(s')
            && LoadStep(s', name, true) ==
                 match LastOf(items, name)
                 case None => LoadStep(s, name, true)
                 case Some(r) => Found(Checkpoint(r.containerName, r.containerId, r.timestamp, EventHash(h, r)))
  {
    if items != [] {
      var n := |items| - 1;
      ItemsAreSaved(h, s, items[..n], commits, name);
      OneItemIsSaved(SaveAll(h, s, items[..n], commits), CheckpointOf(h, items[n]), commits(n), name);
    }
  }

  lemma OneItemIsSaved(s: StoreState, cp: Checkpoint, commits: bool, name: Str)
    requires InService(s)
    requires cp.containerName != [] && cp.containerId != [] && cp.lastTimestamp != ZERO_TIME && cp.lastEventHash != []
    ensures var s' := SaveStep(s, cp, commits).0;
            && InService(s')
            && LoadStep(s', name, true) == if name == cp.containerName then Found(cp) else LoadStep(s, name, true)
  {
  }

  /** The loop of processRaw without interference: every record is processed before its own
      checkpoint is saved, in order; at the first record that the processor rejects
      (index failAt) it stops, and neither that record nor a later one is saved. */
  method ProcessItems(h: Hasher, store: Store, items: seq<RawLog>, failAt: Option<nat>, commits: nat -> bool)
    returns (processed: seq<RawLog>, ok: bool)
    modifies store
    ensures ok == !(failAt.Some? && failAt.value < |items|)
    ensures processed == if ok then items else items[..failAt.value]
    ensures store.State() == SaveAll(h, old(store.State()), processed, commits)
  {
    processed := [];
    for i := 0 to |items|
      invariant failAt.Some? ==> i <= failAt.value
      invariant processed == items[..i]
      invariant store.State() == SaveAll(h, old(store.State()), processed, commits)
    {
      if failAt == Some(i) {
        return processed, false;
      }
      ghost var before := processed;
      processed := processed + [items[i]];
      assert processed[..i] == before;
      var saved := store.Save(CheckpointOf(h, items[i]), commits(i));
    }
    ok := true;
  }

  method ProcessRaw(o: RuntimeObserver, store: Store, raw: RawLog, failAt: Option<nat>, commits: nat -> bool)
    returns (processed: seq<RawLog>, ok: bool)
    requires o.Valid()
    modifies o.gates.Values, store
    ensures o.Valid() && o.gates == old(o.gates)
    ensures o.State() == old(FilterStep(o.hasher, o.State(), raw).0)
    ensures var out := old(FilterStep(o.hasher, o.State(), raw).1);
            && ok == !(failAt.Some? && failAt.value < |out|)
            && processed == (if ok then out else out[..failAt.value])
    ensures store.State() == SaveAll(o.hasher, old(store.State()), processed, commits)
  {
    var items := o.Filter(raw);
    processed, ok := ProcessItems(o.hasher, store, items, failAt, commits);
  }
}
