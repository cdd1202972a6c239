/** When the watcher loses nothing: the exact conditions, for every log and each class of runs. */
module ReplayExact {
  import opened Common
  import opened Replay
  import opened CheckpointStore
  import opened ReplayProtocol
  import opened ReplayRuns
  import opened ReplayBounds
  import opened ReplayForGood
  import opened ReplayStarts
  import opened ReplayTies

  /** The premise under which a buried tie can be passed: rotation may take unread records of the
      checkpoint's own time, or some tie has room in the log channel. */
  ghost predicate TiesCanPass(e: Env, log: seq<RawLog>, a: Allowed) {
    a.rotation.SameTime? || (!NoBuriedTie(log) ==> RoomForTie(e, log))
  }

  /** If no record of the log is an exact repetition of another, any channel is large enough. */
  lemma DistinctRecordsHaveRoom(e: Env, log: seq<RawLog>, a: Allowed)
    requires Chronological(log) && 0 < e.channel && forall i, j :: 0 <= i < j < |log| ==> log[i] != log[j]
    ensures TiesCanPass(e, log, a)
  {
    if !NoBuriedTie(log) {
      var i, j :| 0 <= i < j < |log| && log[i].timestamp == log[j].timestamp < NewestTime(log) && log[i] != log[j];
      var t := log[j].timestamp;
      var q := SeekTo(log, t + 1);
      SeekSplits(log, t + 1);
      assert t == log[i].timestamp <= log[q - 2].timestamp <= log[q - 1].timestamp <= t;
      assert TieAt(log, q - 1, q);
    }
  }

  // ------------------------------------------------------------------ safe logs

  /** Without failing start loads no start is stale, and the invariant holds. */
  lemma CarefulRunKeepsInv(e: Env, log: seq<RawLog>, a: Allowed, others: Table, limit: nat, run: seq<Step>, s: Sys, until: int)
    requires Leads(e, log, a, others, limit, run, s) && !a.failedStarts && UnambiguousBelow(log, until)
    ensures Inv(e, until, s)
  {
    StaleNeedsFailedLoad(e, others, limit, run);
    InitialInv(e, until, others, limit);
    RunKeepsInv(e, until, Initial(others, limit), run, s);
  }

  /** What the class must satisfy so that nothing before `until` is lost. */
  predicate Sound(a: Allowed, log: seq<RawLog>, until: int) {
    if a.failedStarts then SameBelow(log, until) else UnambiguousBelow(log, until)
  }

  /** An unprocessed record before `until` is not yet passed, missed or gone. */
  lemma SoundIsSafe(e: Env, log: seq<RawLog>, a: Allowed, others: Table, limit: nat, run: seq<Step>, s: Sys, until: int, r: RawLog)
    requires Leads(e, log, a, others, limit, run, s) && Sound(a, log, until)
    requires r in log && s.base <= r.timestamp < until && r !in s.processed
    ensures !Drained(s) && (forall cp :: IsStored(e, s, cp) ==> cp.lastTimestamp < r.timestamp) && !Gone(e, s, r)
  {
    if a.failedStarts {
      SameIsSafe(e, others, limit, run, s, until);
    } else {
      CarefulRunKeepsInv(e, log, a, others, limit, run, s, until);
      UnprocessedUnderInv(e, until, s, r);
    }
  }

  /** Nothing stored is beyond the newest record. */
  lemma StoredInTime(e: Env, log: seq<RawLog>, a: Allowed, others: Table, limit: nat, run: seq<Step>, s: Sys, cp: Checkpoint)
    requires Leads(e, log, a, others, limit, run, s) && IsStored(e, s, cp)
    ensures cp.lastTimestamp <= NewestTime(log)
  {
    InitialBounds(e, others, limit);
    RunKeepsBounds(e, Initial(others, limit), run, s);
  }

  lemma SafeFromOvertaking(e: Env, log: seq<RawLog>, a: Allowed)
    requires Sound(a, log, NewestTime(log))
    ensures NeverOvertakes(e, log, a)
  {
    forall others: Table, limit: nat, run: seq<Step>, s: Sys | Leads(e, log, a, others, limit, run, s) ensures !Overtaken(e, s) {
      forall cp, r | IsStored(e, s, cp) && r in s.log && s.base <= r.timestamp < cp.lastTimestamp ensures r in s.processed {
        StoredInTime(e, log, a, others, limit, run, s, cp);
        if r !in s.processed {
          SoundIsSafe(e, log, a, others, limit, run, s, NewestTime(log), r);
        }
      }
    }
  }

  lemma SafeFromLoss(e: Env, log: seq<RawLog>, a: Allowed)
    requires Sound(a, log, NewestTime(log))
    ensures NeverLosesForGood(e, log, a)
  {
    forall others: Table, limit: nat, run: seq<Step>, s: Sys | Leads(e, log, a, others, limit, run, s) ensures !LostForGood(e, s) {
      forall b | b in s.log && s.base <= b.timestamp && b !in s.processed ensures !Gone(e, s, b) {
        if b.timestamp < NewestTime(log) {
          SoundIsSafe(e, log, a, others, limit, run, s, NewestTime(log), b);
        }
      }
    }
  }

  lemma SafeFromMissing(e: Env, log: seq<RawLog>, a: Allowed)
    requires Chronological(log) && Sound(a, log, NewestTime(log) + 1)
    ensures NeverMisses(e, log, a)
  {
    forall others: Table, limit: nat, run: seq<Step>, s: Sys | Leads(e, log, a, others, limit, run, s) && Drained(s)
      ensures AllProcessed(s)
    {
      forall r | r in s.log && s.base <= r.timestamp ensures r in s.processed {
        assert r.timestamp <= NewestTime(log);
        if r !in s.processed {
          SoundIsSafe(e, log, a, others, limit, run, s, NewestTime(log) + 1, r);
        }
      }
    }
  }

  // --------------------------------------------------------------- unsafe logs

  /** A tie before `until`. */
  lemma FindTie(e: Env, log: seq<RawLog>, until: int) returns (a: RawLog, b: RawLog)
    requires GenuineLog(e, log) && !UnambiguousBelow(log, until)
    ensures Tie(log, a, b) && b.timestamp < until
  {
    var i, j :| 0 <= i < j < |log| && log[i].timestamp == log[j].timestamp < until && log[i] != log[j];
    a := log[SeekTo(log, log[i].timestamp)];
    b := if log[i] == a then log[j] else log[i];
  }

  /** A state of the class in which the stored checkpoint has passed an unprocessed record b. */
  ghost predicate Ahead(e: Env, log: seq<RawLog>, s: Sys, b: RawLog) {
    && Idle(s) && s.log == log && s.rotated <= |log| && Drained(s)
    && b in log && s.base <= b.timestamp < NewestTime(log) && b !in s.processed
    && Stored(e, s).Found? && b.timestamp < Stored(e, s).checkpoint.lastTimestamp
  }

  lemma PassBuriedTie(e: Env, log: seq<RawLog>, a: Allowed) returns (w: Allowed, s: Sys, now: int, b: RawLog)
    requires GenuineLog(e, log) && !NoBuriedTie(log) && TiesCanPass(e, log, a)
    ensures Within(w, a) && !w.skewedClock && Reachable(e, w, s, now) && Ahead(e, log, s, b)
  {
    now := NewestTime(log);
    if a.rotation.SameTime? {
      var x;
      x, b := FindTie(e, log, NewestTime(log));
      w := ROTATING;
      s := TieIsRotatedAway(e, log, x, b);
    } else {
      var n: nat, q: nat :| TieAt(log, n, q) && q - n <= e.channel;
      w, b := STRICT, log[n];
      s := TieIsOvertaken(e, log, n, q);
      LaterThanTie(log, n, q);
    }
  }

  lemma PassByStaleStart(e: Env, log: seq<RawLog>, a: Allowed) returns (w: Allowed, s: Sys, now: int, b: RawLog)
    requires GenuineLog(e, log) && !SameBelow(log, NewestTime(log)) && a.failedStarts
    ensures Within(w, a) && !w.skewedClock && Reachable(e, w, s, now) && Ahead(e, log, s, b)
  {
    var i :| 0 <= i < |log| && log[i].timestamp < NewestTime(log) && log[i] != log[0];
    w, b := FAILING, log[i];
    s, now := StaleStartOvertakes(e, log);
  }

  lemma PassUnsound(e: Env, log: seq<RawLog>, a: Allowed) returns (w: Allowed, s: Sys, now: int, b: RawLog)
    requires GenuineLog(e, log) && !Sound(a, log, NewestTime(log)) && (a.failedStarts || TiesCanPass(e, log, a))
    ensures Within(w, a) && !w.skewedClock && Reachable(e, w, s, now) && Ahead(e, log, s, b)
  {
    if a.failedStarts {
      w, s, now, b := PassByStaleStart(e, log, a);
    } else {
      w, s, now, b := PassBuriedTie(e, log, a);
    }
  }

  // ----------------------------------------------------------------- the theorems

  /** No run of the class lets a stored checkpoint pass an unprocessed record if and only if
      - without replay-start loads that fail before the first checkpoint: no two different
        records of the log share a timestamp that a later record follows;
      - with them: all records older than the newest timestamp are the same. */
  lemma NeverOvertakesIff(e: Env, log: seq<RawLog>, a: Allowed)
    requires GenuineLog(e, log) && (a.failedStarts || TiesCanPass(e, log, a))
    ensures NeverOvertakes(e, log, a) <==> if a.failedStarts then SameBelow(log, NewestTime(log)) else NoBuriedTie(log)
  {
    if Sound(a, log, NewestTime(log)) {
      SafeFromOvertaking(e, log, a);
    } else {
      var w, s, now, b := PassUnsound(e, log, a);
      var run := Widen(e, w, s, now, a);
      StoredIsStored(e, s);
      assert Passed(s, Stored(e, s).checkpoint, b);
    }
  }

  /** With log rotation the same conditions decide whether a record can be lost for good. */
  lemma NeverLosesForGoodIff(e: Env, log: seq<RawLog>, a: Allowed)
    requires GenuineLog(e, log) && !a.rotation.Never? && (a.failedStarts || TiesCanPass(e, log, a))
    ensures NeverLosesForGood(e, log, a) <==> if a.failedStarts then SameBelow(log, NewestTime(log)) else NoBuriedTie(log)
  {
    if Sound(a, log, NewestTime(log)) {
      SafeFromLoss(e, log, a);
    } else {
      var w, s, now, b := PassUnsound(e, log, a);
      LoseAhead(e, log, w, s, now, b, a);
    }
  }

  /** One more step of rotation at most is needed. */
  lemma LoseAhead(e: Env, log: seq<RawLog>, w: Allowed, s: Sys, now: int, b: RawLog, a: Allowed)
    requires GenuineLog(e, log) && Within(w, a) && Reachable(e, w, s, now) && Ahead(e, log, s, b) && !a.rotation.Never?
    ensures !NeverLosesForGood(e, log, a)
  {
    var w' := w.(rotation := if w.rotation.Never? then Older else w.rotation);
    WidenReachable(e, w, w', s, now);
    StoredIsStored(e, s);
    var s' := PassedCanBeLost(e, w', s, now, Stored(e, s).checkpoint, b);
    var run := Widen(e, w', s', now, a);
    assert LostForGood(e, s');
  }

  lemma WidenReachable(e: Env, w: Allowed, w': Allowed, s: Sys, now: int)
    requires Reachable(e, w, s, now) && Within(w, w') && w'.failedStarts == w.failedStarts
    ensures Reachable(e, w', s, now)
  {
    var run :| Witness(e, w, run, s, now);
    RotatingWithin(e, w, w', Fresh(), run);
    assert Witness(e, w', run, s, now);
  }

  /** If different records share the newest timestamp, others share an earlier one. */
  predicate NotOnlyNewestTies(log: seq<RawLog>) { Unambiguous(log) || !NoBuriedTie(log) }

  /** No run of the class drains the stream with a record missing if and only if no two different
      records of the log share a timestamp or, with failing start loads, all are the same. */
  lemma NeverMissesIff(e: Env, log: seq<RawLog>, a: Allowed)
    requires GenuineLog(e, log)
    requires a.failedStarts || a.rotation.SameTime? || (NotOnlyNewestTies(log) && TiesCanPass(e, log, a))
    ensures NeverMisses(e, log, a) <==> if a.failedStarts then SameBelow(log, NewestTime(log) + 1) else Unambiguous(log)
  {
    if Sound(a, log, NewestTime(log) + 1) {
      SafeFromMissing(e, log, a);
    } else if a.failedStarts {
      var i :| 0 <= i < |log| && log[i] != log[0];
      var s, now := StaleStartMisses(e, log);
      MissIsUnsafe(e, log, FAILING, s, now, log[i], a);
    } else if a.rotation.SameTime? {
      var x, b := FindTie(e, log, NewestTime(log) + 1);
      var s := TieIsRotatedAway(e, log, x, b);
      MissIsUnsafe(e, log, ROTATING, s, NewestTime(log), b, a);
    } else {
      var w, s, now, b := PassBuriedTie(e, log, a);
      MissIsUnsafe(e, log, w, s, now, b, a);
    }
  }

  lemma MissIsUnsafe(e: Env, log: seq<RawLog>, w: Allowed, s: Sys, now: int, b: RawLog, a: Allowed)
    requires Reachable(e, w, s, now) && Within(w, a) && s.log == log && Drained(s)
    requires b in log && s.base <= b.timestamp && b !in s.processed
    ensures !NeverMisses(e, log, a)
  {
    var run := Widen(e, w, s, now, a);
    assert !AllProcessed(s);
  }
}
