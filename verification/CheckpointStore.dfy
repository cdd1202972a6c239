/** The batched checkpoint store: accepted saves overlay the durable table until a flush
    commits them. Model of internal/checkpoint/store.go. A database transaction is one
    atomic map update that either commits or fails; whether it commits is an argument. */
module CheckpointStore {
  import opened Common
  import opened Replay

  type Table = map<Str, Checkpoint>

  datatype StoreState = StoreState(durable: Table, pending: Table, dirty: nat, limit: nat,
                                   lastErr: bool, closing: bool, closed: bool)

  datatype LoadResult = LoadError | Missing | Found(checkpoint: Checkpoint)

  predicate ValidCheckpoint(cp: Checkpoint) {
    cp.containerName != [] && cp.containerId != [] && cp.lastTimestamp != ZERO_TIME && cp.lastEventHash != []
  }

  /** A store that has just opened its database; also the state after a crash and restart. */
  function Opened(durable: Table, limit: nat): (s: StoreState) {
    StoreState(durable, map[], 0, limit, false, false, false)
  }

  // ------------------------------------------------------------ locked sections

  function LoadStep(s: StoreState, name: Str, readable: bool): (r: LoadResult) {
    if s.closed then LoadError
    else if name in s.pending then Found(s.pending[name])
    else if !readable then LoadError
    else if name in s.durable && s.durable[name].containerName != [] then Found(s.durable[name])
    else Missing
  }

  /** flushLocked: the state afterwards and whether it succeeded. */
  function FlushLocked(s: StoreState, commits: bool): (r: (StoreState, bool)) {
    if s.pending == map[] then (s, true)
    else if !commits then (s.(lastErr := true), false)
    else (s.(durable := s.durable + s.pending, pending := map[], dirty := 0, lastErr := false), true)
  }

  function SaveStep(s: StoreState, cp: Checkpoint, commits: bool): (r: (StoreState, bool)) {
    if !ValidCheckpoint(cp) || s.closing || s.closed then (s, false)
    else
      var s1 := s.(pending := s.pending[cp.containerName := cp], dirty := s.dirty + 1);
      if s1.dirty >= s1.limit then FlushLocked(s1, commits) else (s1, true)
  }

  function FlushStep(s: StoreState, commits: bool): (r: (StoreState, bool)) {
    if s.closed then (s, false) else FlushLocked(s, commits)
  }

  /** The first locked section of Close; the boolean says whether this caller goes on. */
  function BeginCloseStep(s: StoreState): (r: (StoreState, bool)) {
    if s.closed || s.closing then (s, false) else (s.(closing := true), true)
  }

  /** The last locked section of Close, reached once the flush loop has stopped. */
  function EndCloseStep(s: StoreState, commits: bool, closes: bool): (r: (StoreState, bool)) {
    var (s1, flushed) := FlushLocked(s, commits);
    (s1.(closed := true), flushed && closes)
  }

  class Store {
    const limit: nat
    var durable: Table
    var pending: Table
    var dirty: nat
    var lastErr: bool
    var closing: bool
    var closed: bool

    function State(): StoreState reads this {
      StoreState(durable, pending, dirty, limit, lastErr, closing, closed)
    }

    constructor (database: Table, flushEvents: nat)
      ensures State() == Opened(database, flushEvents)
    {
      limit := flushEvents;
      durable, pending, dirty := database, map[], 0;
      lastErr, closing, closed := false, false, false;
    }

    method Load(name: Str, readable: bool) returns (r: LoadResult)
      ensures r == LoadStep(State(), name, readable)
    {
      if closed {
        return LoadError;
      }
      if name in pending {
        return Found(pending[name]);
      }
      if !readable {
        return LoadError;
      }
      var item := Checkpoint([], [], ZERO_TIME, []);
      if name in durable {
        item := durable[name];
      }
      return if item.containerName != [] then Found(item) else Missing;
    }

    method FlushPending(commits: bool) returns (ok: bool)
      modifies this
      ensures (State(), ok) == old(FlushLocked(State(), commits))
    {
      if |pending| == 0 {
        return true;
      }
      if !commits {
        lastErr := true;
        return false;
      }
      durable := durable + pending;
      pending := map[];
      dirty := 0;
      lastErr := false;
      ok := true;
    }

    method Save(cp: Checkpoint, commits: bool) returns (ok: bool)
      modifies this
      ensures (State(), ok) == old(SaveStep(State(), cp, commits))
    {
      if !ValidCheckpoint(cp) {
        return false;
      }
      if closing || closed {
        return false;
      }
      pending := pending[cp.containerName := cp];
      dirty := dirty + 1;
      if dirty >= limit {
        ok := FlushPending(commits);
        return;
      }
      ok := true;
    }

    method Flush(commits: bool) returns (ok: bool)
      modifies this
      ensures (State(), ok) == old(FlushStep(State(), commits))
    {
      if closed {
        return false;
      }
      ok := FlushPending(commits);
    }

    method BeginClose() returns (proceed: bool)
      modifies this
      ensures (State(), proceed) == old(BeginCloseStep(State()))
    {
      if closed || closing {
        return false;
      }
      closing := true;
      proceed := true;
    }

    method EndClose(commits: bool, closes: bool) returns (ok: bool)
      modifies this
      ensures (State(), ok) == old(EndCloseStep(State(), commits, closes))
    {
      var flushed := FlushPending(commits);
      closed := true;
      ok := flushed && closes;
    }
  }

  // -------------------------------------------------------------- whole runs

  datatype Op =
    | Load(name: Str, readable: bool)
    | Save(cp: Checkpoint, commits: bool)
    | Flush(commits: bool)
    | BeginClose
    | EndClose(commits: bool, closes: bool)

  function Apply(s: StoreState, op: Op): (s': StoreState) {
    match op
    case Load(_, _) => s
    case Save(cp, commits) => SaveStep(s, cp, commits).0
    case Flush(commits) => FlushStep(s, commits).0
    case BeginClose => BeginCloseStep(s).0
    case EndClose(commits, closes) => if s.closing && !s.closed then EndCloseStep(s, commits, closes).0 else s
  }

  function Run(s: StoreState, ops: seq<Op>): (s': StoreState) {
    if ops == [] then s else Apply(Run(s, ops[..|ops| - 1]), ops[|ops| - 1])
  }

  /** The reference: a journal of accepted saves and how many of them are on disk. */
  datatype Journal = Journal(saves: seq<Checkpoint>, flushed: nat, closing: bool, closed: bool)

  function JournalApply(j: Journal, limit: nat, op: Op): (j': Journal)
    requires j.flushed <= |j.saves|
    ensures j'.flushed <= |j'.saves| && j.saves <= j'.saves
  {
    match op
    case Load(_, _) => j
    case Save(cp, commits) =>
      if !ValidCheckpoint(cp) || j.closing || j.closed then j
      else
        var saves := j.saves + [cp];
        j.(saves := saves, flushed := if commits && |saves| - j.flushed >= limit then |saves| else j.flushed)
    case Flush(commits) => if commits && !j.closed then j.(flushed := |j.saves|) else j
    case BeginClose => j.(closing := true)
    case EndClose(commits, _) =>
      if !j.closing || j.closed then j
      else j.(flushed := if commits then |j.saves| else j.flushed, closed := true)
  }

  function JournalRun(limit: nat, ops: seq<Op>): (j: Journal)
    ensures j.flushed <= |j.saves|
  {
    if ops == [] then Journal([], 0, false, false)
    else JournalApply(JournalRun(limit, ops[..|ops| - 1]), limit, ops[|ops| - 1])
  }

  /** The table that results from applying saves, in order, to t. */
  function Replayed(t: Table, saves: seq<Checkpoint>): (r: Table) {
    if saves == [] then t
    else
      var cp := saves[|saves| - 1];
      Replayed(t, saves[..|saves| - 1])[cp.containerName := cp]
  }

  lemma {:induction false} ReplayedConcat(t: Table, a: seq<Checkpoint>, b: seq<Checkpoint>)
    ensures Replayed(t, a + b) == Replayed(t, a) + Replayed(map[], b)
  {
    if b == [] {
      assert a + b == a;
    } else {
      assert (a + b)[..|a + b| - 1] == a + b[..|b| - 1];
      ReplayedConcat(t, a, b[..|b| - 1]);
    }
  }

  ghost predicate Refines(database: Table, s: StoreState, j: Journal)
    requires j.flushed <= |j.saves|
  {
    && s.durable == Replayed(database, j.saves[..j.flushed])
    && s.pending == Replayed(map[], j.saves[j.flushed..])
    && s.dirty == |j.saves| - j.flushed
    && s.closing == j.closing && s.closed == j.closed
    && (s.lastErr ==> s.pending != map[])
    && (s.closed ==> s.closing)
  }

  lemma PendingIffDirty(saves: seq<Checkpoint>)
    ensures Replayed(map[], saves) == map[] <==> saves == []
  {
    if saves != [] {
      var cp := saves[|saves| - 1];
      assert cp.containerName in Replayed(map[], saves);
    }
  }

  lemma FlushRefines(database: Table, s: StoreState, j: Journal, commits: bool)
    requires j.flushed <= |j.saves| && Refines(database, s, j)
    ensures Refines(database, FlushLocked(s, commits).0, if commits then j.(flushed := |j.saves|) else j)
    ensures FlushLocked(s, commits).1 ==> FlushLocked(s, commits).0.durable == Replayed(database, j.saves)
  {
    PendingIffDirty(j.saves[j.flushed..]);
    assert j.saves[..|j.saves|] == j.saves == j.saves[..j.flushed] + j.saves[j.flushed..];
    ReplayedConcat(database, j.saves[..j.flushed], j.saves[j.flushed..]);
  }

  lemma SaveRefines(database: Table, s: StoreState, j: Journal, cp: Checkpoint, commits: bool)
    requires j.flushed <= |j.saves| && Refines(database, s, j)
    ensures Refines(database, SaveStep(s, cp, commits).0, JournalApply(j, s.limit, Save(cp, commits)))
  {
    if ValidCheckpoint(cp) && !s.closing && !s.closed {
      var s1 := s.(pending := s.pending[cp.containerName := cp], dirty := s.dirty + 1);
      var j1 := j.(saves := j.saves + [cp]);
      var tail := j1.saves[j.flushed..];
      assert tail[..|tail| - 1] == j.saves[j.flushed..] && tail[|tail| - 1] == cp;
      assert j1.saves[..j.flushed] == j.saves[..j.flushed];
      assert cp.containerName in s1.pending;
      assert Refines(database, s1, j1);
      if s1.dirty >= s1.limit {
        FlushRefines(database, s1, j1, commits);
      }
    }
  }

  /** Every run of the store, with any mixture of failed and successful flushes, behaves as
      the journal: the durable table holds exactly the flushed prefix of the accepted saves,
      `dirty` counts the rest. */
  lemma {:induction false} StoreRefinesJournal(database: Table, limit: nat, ops: seq<Op>)
    ensures Refines(database, Run(Opened(database, limit), ops), JournalRun(limit, ops))
    ensures Run(Opened(database, limit), ops).limit == limit
  {
    if ops != [] {
      var init, op := ops[..|ops| - 1], ops[|ops| - 1];
      StoreRefinesJournal(database, limit, init);
      var s, j := Run(Opened(database, limit), init), JournalRun(limit, init);
      match op
      case Load(_, _) =>
      case Save(cp, commits) => SaveRefines(database, s, j, cp, commits);
      case Flush(commits) => FlushRefines(database, s, j, commits);
      case BeginClose =>
      case EndClose(commits, _) => FlushRefines(database, s, j, commits);
    }
  }

  // ------------------------------------------------------- what callers rely on

  /** The latest save for a name, or else what the database held at the start. */
  function Latest(database: Table, saves: seq<Checkpoint>, name: Str): (r: LoadResult) {
    if saves == [] then (if name in database then Found(database[name]) else Missing)
    else if saves[|saves| - 1].containerName == name then Found(saves[|saves| - 1])
    else Latest(database, saves[..|saves| - 1], name)
  }

  lemma {:induction false} LatestIsReplayed(database: Table, saves: seq<Checkpoint>, name: Str)
    ensures var t := Replayed(database, saves);
            Latest(database, saves, name) == if name in t then Found(t[name]) else Missing
  {
    if saves != [] {
      LatestIsReplayed(database, saves[..|saves| - 1], name);
    }
  }

  ghost predicate WellKeyed(t: Table) {
    forall name :: name in t ==> name != [] && t[name].containerName == name
  }

  lemma {:induction false} AcceptedSavesAreValid(limit: nat, ops: seq<Op>)
    ensures forall cp :: cp in JournalRun(limit, ops).saves ==> ValidCheckpoint(cp)
  {
    if ops != [] {
      AcceptedSavesAreValid(limit, ops[..|ops| - 1]);
    }
  }

  lemma {:induction false} ReplayedWellKeyed(t: Table, saves: seq<Checkpoint>)
    requires WellKeyed(t) && forall cp :: cp in saves ==> ValidCheckpoint(cp)
    ensures WellKeyed(Replayed(t, saves))
  {
    if saves != [] {
      assert saves[|saves| - 1] in saves;
      ReplayedWellKeyed(t, saves[..|saves| - 1]);
    }
  }

  /** Load always answers with the last accepted save of that name, whatever flushes
      succeeded or failed in between; a failed database read is the only other answer. */
  lemma LoadReturnsLastSave(database: Table, limit: nat, ops: seq<Op>, name: Str, readable: bool)
    requires WellKeyed(database)
    ensures var s := Run(Opened(database, limit), ops);
            var j := JournalRun(limit, ops);
            !s.closed ==>
              || LoadStep(s, name, readable) == Latest(database, j.saves, name)
              || (!readable && name !in s.pending && LoadStep(s, name, readable) == LoadError)
    ensures var s := Run(Opened(database, limit), ops);
            s.closed ==> LoadStep(s, name, readable) == LoadError
  {
    var s, j := Run(Opened(database, limit), ops), JournalRun(limit, ops);
    StoreRefinesJournal(database, limit, ops);
    AcceptedSavesAreValid(limit, ops);
    var flushed, waiting := j.saves[..j.flushed], j.saves[j.flushed..];
    assert j.saves == flushed + waiting;
    ReplayedConcat(database, flushed, waiting);
    ReplayedWellKeyed(database, flushed);
    LatestIsReplayed(database, j.saves, name);
    assert Replayed(database, j.saves) == s.durable + s.pending;
  }

  predicate AllCommit(ops: seq<Op>) {
    forall i :: 0 <= i < |ops| ==>
      match ops[i]
      case Save(_, commits) => commits
      case Flush(commits) => commits
      case EndClose(commits, _) => commits
      case _ => true
  }

  /** If no commit fails, a crash at any moment loses at most limit - 1 accepted saves: the
      durable table is the replay of all but the last dirty < limit of them. */
  lemma {:induction false} CrashLosesLessThanLimit(database: Table, limit: nat, ops: seq<Op>)
    requires 0 < limit && AllCommit(ops)
    ensures var s := Run(Opened(database, limit), ops);
            var saves := JournalRun(limit, ops).saves;
            s.dirty < limit && s.dirty <= |saves| && s.durable == Replayed(database, saves[..|saves| - s.dirty])
  {
    StoreRefinesJournal(database, limit, ops);
    JournalLag(limit, ops);
  }

  lemma {:induction false} JournalLag(limit: nat, ops: seq<Op>)
    requires 0 < limit && AllCommit(ops)
    ensures |JournalRun(limit, ops).saves| - JournalRun(limit, ops).flushed < limit
  {
    if ops != [] {
      assert AllCommit(ops[..|ops| - 1]);
      JournalLag(limit, ops[..|ops| - 1]);
    }
  }

  /** `dirty` is zero exactly when nothing is pending, and the last error is cleared only
      when nothing is left unsaved. */
  lemma DirtyCountsPending(database: Table, limit: nat, ops: seq<Op>)
    ensures var s := Run(Opened(database, limit), ops);
            && (s.dirty == 0 <==> s.pending == map[])
            && (s.lastErr ==> s.dirty > 0)
            && s.dirty == |JournalRun(limit, ops).saves| - JournalRun(limit, ops).flushed
  {
    StoreRefinesJournal(database, limit, ops);
    var j := JournalRun(limit, ops);
    PendingIffDirty(j.saves[j.flushed..]);
  }

  lemma ClosedStays(s: StoreState, op: Op)
    requires s.closed
    ensures Apply(s, op) == s
  {
  }

  lemma {:induction false} ClosedForGood(s: StoreState, ops: seq<Op>)
    requires s.closed
    ensures Run(s, ops) == s
  {
    if ops != [] {
      ClosedForGood(s, ops[..|ops| - 1]);
      ClosedStays(s, ops[|ops| - 1]);
    }
  }

  /** A Close that reports no error leaves every accepted save on disk, and no operations that
      follow, however many, change anything. */
  lemma ErrorFreeClose(database: Table, limit: nat, ops: seq<Op>, commits: bool, closes: bool, later: seq<Op>)
    requires Run(Opened(database, limit), ops).closing && !Run(Opened(database, limit), ops).closed
    requires EndCloseStep(Run(Opened(database, limit), ops), commits, closes).1
    ensures var s := EndCloseStep(Run(Opened(database, limit), ops), commits, closes).0;
            s.durable == Replayed(database, JournalRun(limit, ops).saves) && Run(s, later) == s
  {
    StoreRefinesJournal(database, limit, ops);
    FlushRefines(database, Run(Opened(database, limit), ops), JournalRun(limit, ops), commits);
    ClosedForGood(EndCloseStep(Run(Opened(database, limit), ops), commits, closes).0, later);
  }

  // --------------------------------------------------- what the operations answer

  /** The saves that are accepted: those with a name, an ID, a time and a hash, before Close. */
  function Accepted(ops: seq<Op>): (saves: seq<Checkpoint>) {
    if ops == [] then []
    else
      var init, op := ops[..|ops| - 1], ops[|ops| - 1];
      if op.Save? && op.cp.containerName != [] && op.cp.containerId != [] && op.cp.lastTimestamp != ZERO_TIME
         && op.cp.lastEventHash != [] && BeginClose !in init
      then Accepted(init) + [op.cp]
      else Accepted(init)
  }

  /** Close has run to its end. */
  predicate Ended(ops: seq<Op>) {
    ops != [] && (Ended(ops[..|ops| - 1]) || (ops[|ops| - 1].EndClose? && BeginClose in ops[..|ops| - 1]))
  }

  lemma {:induction false} JournalIsAccepted(limit: nat, ops: seq<Op>)
    ensures var j := JournalRun(limit, ops);
            && j.saves == Accepted(ops) && (j.closing <==> BeginClose in ops)
            && (j.closed <==> Ended(ops)) && (Ended(ops) ==> BeginClose in ops)
  {
    if ops != [] {
      var init, op := ops[..|ops| - 1], ops[|ops| - 1];
      JournalIsAccepted(limit, init);
      assert ops == init + [op];
    }
  }

  /** How many accepted saves are not on disk. */
  function Unwritten(limit: nat, ops: seq<Op>): (n: nat) { |JournalRun(limit, ops).saves| - JournalRun(limit, ops).flushed }

  /** Save succeeds if and only if the checkpoint is complete, Close has not begun, and either the
      batch is not full yet or it is committed. */
  lemma SaveSucceedsIff(database: Table, limit: nat, ops: seq<Op>, cp: Checkpoint, commits: bool)
    ensures SaveStep(Run(Opened(database, limit), ops), cp, commits).1 <==>
              && cp.containerName != [] && cp.containerId != [] && cp.lastTimestamp != ZERO_TIME && cp.lastEventHash != []
              && BeginClose !in ops && (Unwritten(limit, ops) + 1 < limit || commits)
  {
    StoreRefinesJournal(database, limit, ops);
    JournalIsAccepted(limit, ops);
    SaveAnswers(Run(Opened(database, limit), ops), cp, commits);
  }

  lemma SaveAnswers(s: StoreState, cp: Checkpoint, commits: bool)
    ensures var accepts := ValidCheckpoint(cp) && !s.closing && !s.closed;
            && (SaveStep(s, cp, commits).1 <==> accepts && (s.dirty + 1 < s.limit || commits))
            && SaveStep(s, cp, commits).0.lastErr == if accepts && s.dirty + 1 >= s.limit then !commits else s.lastErr
  {
    assert cp.containerName in s.pending[cp.containerName := cp];
  }

  /** Flush and the last part of Close succeed if and only if the store is not closed (for Flush),
      there is nothing to write or it is committed, and the database closes (for Close); only
      the first call of Close proceeds. */
  lemma FlushSucceedsIff(database: Table, limit: nat, ops: seq<Op>, commits: bool, closes: bool)
    ensures var s := Run(Opened(database, limit), ops);
            && (FlushStep(s, commits).1 <==> !Ended(ops) && (Unwritten(limit, ops) == 0 || commits))
            && (EndCloseStep(s, commits, closes).1 <==> (Unwritten(limit, ops) == 0 || commits) && closes)
            && (BeginCloseStep(s).1 <==> BeginClose !in ops)
  {
    StoreRefinesJournal(database, limit, ops);
    JournalIsAccepted(limit, ops);
    var j := JournalRun(limit, ops);
    PendingIffDirty(j.saves[j.flushed..]);
  }

  /** The last attempt to write anything failed. */
  predicate Failing(limit: nat, ops: seq<Op>) {
    ops != [] &&
    var init, op := ops[..|ops| - 1], ops[|ops| - 1];
    match op
    case Load(_, _) => Failing(limit, init)
    case BeginClose => Failing(limit, init)
    case Save(cp, commits) =>
      if Accepted(ops) != Accepted(init) && Unwritten(limit, init) + 1 >= limit then !commits else Failing(limit, init)
    case Flush(commits) => if !Ended(init) && Unwritten(limit, init) > 0 then !commits else Failing(limit, init)
    case EndClose(commits, _) =>
      if !Ended(init) && BeginClose in init && Unwritten(limit, init) > 0 then !commits else Failing(limit, init)
  }

  /** The store remembers an error exactly while the last attempt to write anything failed. */
  lemma {:induction false} ErrorIsRemembered(database: Table, limit: nat, ops: seq<Op>)
    ensures Run(Opened(database, limit), ops).lastErr <==> Failing(limit, ops)
  {
    if ops != [] {
      var init, op := ops[..|ops| - 1], ops[|ops| - 1];
      ErrorIsRemembered(database, limit, init);
      StoreRefinesJournal(database, limit, init);
      JournalIsAccepted(limit, init);
      JournalIsAccepted(limit, ops);
      var j := JournalRun(limit, init);
      PendingIffDirty(j.saves[j.flushed..]);
      if op.Save? {
        SaveAnswers(Run(Opened(database, limit), init), op.cp, op.commits);
      }
    }
  }

  predicate OnlySaves(ops: seq<Op>) { forall i :: 0 <= i < |ops| ==> ops[i].Save? || ops[i].Load? }

  /** Writes are batched: if only saves come and all commits succeed, the database lags behind by
      what the last full batch left over. */
  lemma {:induction false} BatchesAreFull(limit: nat, ops: seq<Op>)
    requires 0 < limit && AllCommit(ops) && OnlySaves(ops)
    ensures Unwritten(limit, ops) == |Accepted(ops)| % limit
  {
    if ops != [] {
      var init, op := ops[..|ops| - 1], ops[|ops| - 1];
      BatchesAreFull(limit, init);
      assert OnlySaves(init) && ops[|ops| - 1] in ops;
      JournalIsAccepted(limit, init);
      JournalIsAccepted(limit, ops);
      NextInBatch(|Accepted(init)|, limit);
      BatchStep(JournalRun(limit, init), limit, op);
    } else {
      assert 0 % limit == 0;
    }
  }

  lemma BatchStep(j: Journal, limit: nat, op: Op)
    requires j.flushed <= |j.saves| && |j.saves| - j.flushed < limit && (op.Load? || (op.Save? && op.commits))
    ensures var (j', n) := (JournalApply(j, limit, op), |j.saves| - j.flushed);
            && |j'.saves| - j'.flushed == (if |j'.saves| == |j.saves| then n else if n + 1 == limit then 0 else n + 1)
            && |j.saves| <= |j'.saves| <= |j.saves| + 1
  {
  }

  lemma NextInBatch(n: nat, limit: nat)
    requires 0 < limit
    ensures (n + 1) % limit == if n % limit + 1 == limit then 0 else n % limit + 1
  {
    var q, r := n / limit, n % limit;
    assert n + 1 == q * limit + (r + 1);
    if r + 1 == limit {
      assert n + 1 == (q + 1) * limit;
      ModUnique(n + 1, limit, q + 1, 0);
    } else {
      ModUnique(n + 1, limit, q, r + 1);
    }
  }

  lemma ModUnique(x: nat, limit: nat, q: nat, r: nat)
    requires 0 < limit && x == q * limit + r && r < limit
    ensures x % limit == r
  {
    var d := x / limit - q;
    assert x == x / limit * limit + x % limit;
    assert d * limit == r - x % limit;
    MulBound(d, limit);
  }

  lemma MulBound(d: int, limit: int)
    requires 0 < limit
    ensures d == 0 || d * limit >= limit || d * limit <= -limit
  {
  }

  /** Open; null stands for its error. `opens` says whether the database could be opened. */
  method OpenStore(path: Str, interval: int, flushEvents: int, database: Table, opens: bool) returns (store: Store?)
    ensures store == null <==> path == [] || interval <= 0 || flushEvents <= 0 || !opens
    ensures store != null ==> fresh(store) && store.State() == StoreState(database, map[], 0, flushEvents, false, false, false)
  {
    if path == [] || interval <= 0 || flushEvents <= 0 || !opens {
      return null;
    }
    store := new Store(database, flushEvents);
  }
}
