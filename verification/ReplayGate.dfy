/** The replay gate: on reconnect it searches the replayed overlap for the checkpointed
    record and suppresses everything up to it. Model of internal/checkpoint/replay.go. */
module Replay {
  import opened Common

  datatype RawLog = RawLog(containerId: Str, containerName: Str, timestamp: int, stream: Str, raw: Str)

  datatype Checkpoint = Checkpoint(containerName: Str, containerId: Str, lastTimestamp: int, lastEventHash: Str)

  /** SHA-256 (in hex) and the RFC 3339 rendering of a time are not modelled: every
      result below holds for whatever functions stand in their place. */
  datatype Hasher = Hasher(digest: Str -> Str, formatTime: int -> Str)

  // ---------------------------------------------------------------- EventHash

  /** Every part is preceded by a NUL byte. */
  function JoinNul(parts: seq<Str>): (r: Str) {
    if parts == [] then [] else JoinNul(parts[..|parts| - 1]) + [0] + parts[|parts| - 1]
  }

  function EventParts(h: Hasher, r: RawLog): (ps: seq<Str>) {
    [r.containerId, h.formatTime(r.timestamp), r.stream, r.raw]
  }

  function EventHash(h: Hasher, r: RawLog): Str {
    h.digest(JoinNul(EventParts(h, r)))
  }

  method ComputeEventHash(h: Hasher, r: RawLog) returns (hash: Str)
    ensures hash == EventHash(h, r)
  {
    var values := [r.containerId, h.formatTime(r.timestamp), r.stream, r.raw];
    var written: Str := [];
    for i := 0 to |values|
      invariant written == JoinNul(values[..i])
    {
      assert values[..i + 1][..i] == values[..i];
      written := written + [0];
      written := written + values[i];
    }
    assert values[..|values|] == values == EventParts(h, r);
    hash := h.digest(written);
  }

  predicate NulFree(s: Str) { 0 !in s }

  /** A NUL-free head is determined by the bytes up to the next NUL. */
  lemma {:induction false} CutAtNul(a: Str, x: Str, b: Str, y: Str)
    requires NulFree(a) && NulFree(b)
    requires a + [0] + x == b + [0] + y
    ensures a == b && x == y
  {
    var s := a + [0] + x;
    assert s[|a|] == 0 && s[|b|] == 0;
    assert forall i :: 0 <= i < |a| ==> s[i] == a[i];
    assert forall i :: 0 <= i < |b| ==> s[i] == b[i];
    assert |a| == |b|;
    assert s[..|a|] == a && s[..|a|] == b;
    assert s[|a| + 1..] == x && s[|a| + 1..] == y;
  }

  lemma EventBytes(h: Hasher, r: RawLog)
    ensures JoinNul(EventParts(h, r))
         == [0] + (r.containerId + [0] + (h.formatTime(r.timestamp) + [0] + (r.stream + [0] + r.raw)))
  {
    var ps := EventParts(h, r);
    assert ps[..3][..2] == ps[..2] && ps[..2][..1] == ps[..1] && ps[..1][..0] == [];
    assert JoinNul(ps[..1]) == [0] + ps[0];
    assert JoinNul(ps[..2]) == JoinNul(ps[..1]) + [0] + ps[1];
    assert JoinNul(ps[..3]) == JoinNul(ps[..2]) + [0] + ps[2];
    assert JoinNul(ps) == JoinNul(ps[..3]) + [0] + ps[3];
  }

  predicate EncodableHead(h: Hasher, r: RawLog) {
    NulFree(r.containerId) && NulFree(h.formatTime(r.timestamp)) && NulFree(r.stream)
  }

  /** Different times are rendered differently. */
  ghost predicate TellsTimesApart(h: Hasher) { forall t, u :: h.formatTime(t) == h.formatTime(u) ==> t == u }

  /** The bytes that are hashed determine all four parts, although the log line itself
      may contain NUL bytes; and with a faithful rendering of times, the record itself, up to
      the container's name. */
  lemma EventEncodingInjective(h: Hasher, r: RawLog, s: RawLog)
    requires EncodableHead(h, r) && EncodableHead(h, s)
    requires JoinNul(EventParts(h, r)) == JoinNul(EventParts(h, s))
    ensures EventParts(h, r) == EventParts(h, s)
    ensures TellsTimesApart(h) ==> r == s.(containerName := r.containerName)
  {
    EventBytes(h, r);
    EventBytes(h, s);
    assert JoinNul(EventParts(h, r))[1..] == r.containerId + [0] + (h.formatTime(r.timestamp) + [0] + (r.stream + [0] + r.raw));
    assert JoinNul(EventParts(h, s))[1..] == s.containerId + [0] + (h.formatTime(s.timestamp) + [0] + (s.stream + [0] + s.raw));
    CutAtNul(r.containerId, h.formatTime(r.timestamp) + [0] + (r.stream + [0] + r.raw),
             s.containerId, h.formatTime(s.timestamp) + [0] + (s.stream + [0] + s.raw));
    CutAtNul(h.formatTime(r.timestamp), r.stream + [0] + r.raw, h.formatTime(s.timestamp), s.stream + [0] + s.raw);
    CutAtNul(r.stream, r.raw, s.stream, s.raw);
  }

  // ----------------------------------------------------------------- the gate

  datatype Gate = Gate(checkpoint: Checkpoint, looking: bool, buffered: seq<RawLog>)

  function NewGate(cp: Checkpoint): (g: Gate) {
    Gate(cp, cp.containerId != [] && cp.lastTimestamp != ZERO_TIME && cp.lastEventHash != [], [])
  }

  predicate IsMarker(h: Hasher, cp: Checkpoint, r: RawLog) {
    r.timestamp == cp.lastTimestamp && EventHash(h, r) == cp.lastEventHash
  }

  /** One `Accept`: the gate afterwards and the records released. */
  function AcceptStep(h: Hasher, g: Gate, r: RawLog): (res: (Gate, seq<RawLog>)) {
    var off := g.(looking := false, buffered := []);
    if !g.looking then (g, [r])
    else if r.containerId != g.checkpoint.containerId then (off, [r])
    else if IsMarker(h, g.checkpoint, r) then (off, [])
    else if r.timestamp > g.checkpoint.lastTimestamp then (off, g.buffered + [r])
    else (g.(buffered := g.buffered + [r]), [])
  }

  /** One `Finish`. */
  function FinishStep(g: Gate): (res: (Gate, seq<RawLog>)) {
    if !g.looking then (g, []) else (g.(looking := false, buffered := []), g.buffered)
  }

  function ReplayStart(cp: Checkpoint, overlap: int): (start: int) {
    if cp.lastTimestamp == ZERO_TIME then ZERO_TIME else cp.lastTimestamp - overlap
  }

  /** The gate as the program holds it. */
  class ReplayGate {
    const hasher: Hasher
    const checkpoint: Checkpoint
    var looking: bool
    var buffered: seq<RawLog>

    function State(): Gate reads this { Gate(checkpoint, looking, buffered) }

    constructor (h: Hasher, cp: Checkpoint)
      ensures hasher == h && State() == NewGate(cp)
    {
      hasher := h;
      checkpoint := cp;
      looking := cp.containerId != [] && cp.lastTimestamp != ZERO_TIME && cp.lastEventHash != [];
      buffered := [];
    }

    method Accept(raw: RawLog) returns (out: seq<RawLog>)
      modifies this
      ensures (State(), out) == old(AcceptStep(hasher, State(), raw))
    {
      if !looking {
        return [raw];
      }
      if raw.containerId != checkpoint.containerId {
        looking := false;
        buffered := [];
        return [raw];
      }
      var hash := ComputeEventHash(hasher, raw);
      if raw.timestamp == checkpoint.lastTimestamp && hash == checkpoint.lastEventHash {
        looking := false;
        buffered := [];
        return [];
      }
      if raw.timestamp > checkpoint.lastTimestamp {
        looking := false;
        out := buffered + [raw];
        buffered := [];
        return;
      }
      buffered := buffered + [raw];
      out := [];
    }

    method Finish() returns (out: seq<RawLog>)
      modifies this
      ensures (State(), out) == old(FinishStep(State()))
    {
      if !looking {
        return [];
      }
      looking := false;
      out := buffered;
      buffered := [];
    }
  }

  // ------------------------------------------------- whole streams through a gate

  /** Everything released while the gate accepts the stream s, and the gate afterwards. */
  function Feed(h: Hasher, g: Gate, s: seq<RawLog>): (res: (Gate, seq<RawLog>))
    decreases |s|
  {
    if s == [] then (g, [])
    else
      var (g1, out) := AcceptStep(h, g, s[0]);
      var (g2, rest) := Feed(h, g1, s[1..]);
      (g2, out + rest)
  }

  predicate OneContainer(cp: Checkpoint, s: seq<RawLog>) {
    forall i :: 0 <= i < |s| ==> s[i].containerId == cp.containerId
  }

  predicate Nondecreasing(s: seq<RawLog>) {
    forall i, j :: 0 <= i <= j < |s| ==> s[i].timestamp <= s[j].timestamp
  }

  predicate NoMarker(h: Hasher, cp: Checkpoint, s: seq<RawLog>) {
    forall i :: 0 <= i < |s| ==> !IsMarker(h, cp, s[i])
  }

  lemma {:induction false} OpenGatePasses(h: Hasher, g: Gate, s: seq<RawLog>)
    requires !g.looking
    ensures Feed(h, g, s) == (g, s)
  {
    if s != [] {
      OpenGatePasses(h, g, s[1..]);
      assert s == [s[0]] + s[1..];
    }
  }

  /** The gate releases exactly what follows the first occurrence of the marker. */
  lemma {:induction false} MarkerFound(h: Hasher, g: Gate, s: seq<RawLog>, m: nat)
    requires g.looking && OneContainer(g.checkpoint, s) && Nondecreasing(s)
    requires m < |s| && IsMarker(h, g.checkpoint, s[m]) && NoMarker(h, g.checkpoint, s[..m])
    ensures Feed(h, g, s).1 == s[m + 1..]
    decreases |s|
  {
    var g1 := AcceptStep(h, g, s[0]).0;
    if m == 0 {
      OpenGatePasses(h, g1, s[1..]);
    } else {
      assert s[..m][0] == s[0];
      assert s[0].timestamp <= s[m].timestamp;
      assert s[1..][..m - 1] == s[..m][1..];
      MarkerFound(h, g1, s[1..], m - 1);
    }
  }

  /** Without the marker nothing is suppressed, whatever the order of timestamps. */
  lemma {:induction false} MarkerAbsent(h: Hasher, g: Gate, s: seq<RawLog>)
    requires g.looking && OneContainer(g.checkpoint, s) && NoMarker(h, g.checkpoint, s)
    ensures Feed(h, g, s).1 + FinishStep(Feed(h, g, s).0).1 == g.buffered + s
    decreases |s|
  {
    if s != [] {
      assert s == [s[0]] + s[1..];
      var g1 := AcceptStep(h, g, s[0]).0;
      if g1.looking {
        MarkerAbsent(h, g1, s[1..]);
        assert g.buffered + s == g1.buffered + s[1..];
      } else {
        OpenGatePasses(h, g1, s[1..]);
        assert g.buffered + s == g.buffered + [s[0]] + s[1..];
      }
    }
  }

  /** What a replay must release, computed from the whole stream at once. */
  function BatchReplay(h: Hasher, cp: Checkpoint, s: seq<RawLog>): (out: seq<RawLog>) {
    if !NewGate(cp).looking || NoMarker(h, cp, s) then s else s[FirstMarker(h, cp, s) + 1..]
  }

  function FirstMarker(h: Hasher, cp: Checkpoint, s: seq<RawLog>): (m: nat)
    requires !NoMarker(h, cp, s)
    ensures m < |s| && IsMarker(h, cp, s[m]) && NoMarker(h, cp, s[..m])
  {
    if IsMarker(h, cp, s[0]) then 0
    else
      assert s == [s[0]] + s[1..];
      var m := 1 + FirstMarker(h, cp, s[1..]);
      assert forall i :: 0 < i < m ==> s[..m][i] == s[1..][..m - 1][i - 1];
      m
  }

  /** Streaming equals batch: the released records, then `Finish`, are the batch replay. */
  lemma GateIsBatchReplay(h: Hasher, cp: Checkpoint, s: seq<RawLog>)
    requires OneContainer(cp, s) && Nondecreasing(s)
    ensures Feed(h, NewGate(cp), s).1 + FinishStep(Feed(h, NewGate(cp), s).0).1 == BatchReplay(h, cp, s)
    ensures NewGate(cp).looking && !NoMarker(h, cp, s) ==> Feed(h, NewGate(cp), s).1 == BatchReplay(h, cp, s)
  {
    var g := NewGate(cp);
    if !g.looking {
      OpenGatePasses(h, g, s);
    } else if NoMarker(h, cp, s) {
      MarkerAbsent(h, g, s);
    } else {
      var m := FirstMarker(h, cp, s);
      MarkerFound(h, g, s, m);
      FoundGateIsOpen(h, g, s, m);
    }
  }

  lemma {:induction false} FoundGateIsOpen(h: Hasher, g: Gate, s: seq<RawLog>, m: nat)
    requires OneContainer(g.checkpoint, s) && m < |s| && IsMarker(h, g.checkpoint, s[m])
    ensures !Feed(h, g, s).0.looking
    decreases |s|
  {
    var g1 := AcceptStep(h, g, s[0]).0;
    if !g1.looking {
      OpenGatePasses(h, g1, s[1..]);
    } else {
      FoundGateIsOpen(h, g1, s[1..], m - 1);
    }
  }

  /** The records strictly after time t, in order. */
  function After(s: seq<RawLog>, t: int): (r: seq<RawLog>) {
    if s == [] then [] else (if s[0].timestamp > t then [s[0]] else []) + After(s[1..], t)
  }

  lemma {:induction false} AfterConcat(a: seq<RawLog>, b: seq<RawLog>, t: int)
    ensures After(a + b, t) == After(a, t) + After(b, t)
  {
    if a == [] {
      assert a + b == b;
    } else {
      assert (a + b)[1..] == a[1..] + b;
      AfterConcat(a[1..], b, t);
      Reassociate(if a[0].timestamp > t then [a[0]] else [], After(a[1..], t), After(b, t));
    }
  }

  predicate AtOrBefore(s: seq<RawLog>, t: int) {
    forall i :: 0 <= i < |s| ==> s[i].timestamp <= t
  }

  lemma {:induction false} NoneAfter(s: seq<RawLog>, t: int)
    requires AtOrBefore(s, t)
    ensures After(s, t) == []
  {
    if s != [] {
      NoneAfter(s[1..], t);
    }
  }

  /** For any stream at all (other containers, any order), every record later than the
      checkpoint is released, once per occurrence and in order; so whatever a gate drops
      is at or before the checkpoint. */
  lemma {:induction false} NothingLateIsDropped(h: Hasher, g: Gate, s: seq<RawLog>)
    requires AtOrBefore(g.buffered, g.checkpoint.lastTimestamp)
    ensures After(Feed(h, g, s).1, g.checkpoint.lastTimestamp) == After(s, g.checkpoint.lastTimestamp)
    decreases |s|
  {
    var t := g.checkpoint.lastTimestamp;
    if s != [] {
      var (g1, out) := AcceptStep(h, g, s[0]);
      LateStep(h, g, s[0]);
      NothingLateIsDropped(h, g1, s[1..]);
      AfterConcat(out, Feed(h, g1, s[1..]).1, t);
    }
  }

  lemma LateStep(h: Hasher, g: Gate, r: RawLog)
    requires AtOrBefore(g.buffered, g.checkpoint.lastTimestamp)
    ensures After(AcceptStep(h, g, r).1, g.checkpoint.lastTimestamp) == if r.timestamp > g.checkpoint.lastTimestamp then [r] else []
    ensures AtOrBefore(AcceptStep(h, g, r).0.buffered, g.checkpoint.lastTimestamp)
  {
    NoneAfter(g.buffered, g.checkpoint.lastTimestamp);
    AfterConcat(g.buffered, [r], g.checkpoint.lastTimestamp);
  }

  lemma ChainBounds<T(!new)>(out: multiset<T>, mid: multiset<T>, held: multiset<T>, x: multiset<T>,
                       rest: multiset<T>, end: multiset<T>, tail: multiset<T>)
    requires out + mid <= held + x && rest + end <= mid + tail
    ensures (out + rest) + end <= held + (x + tail)
  {
    forall e ensures ((out + rest) + end)[e] <= (held + (x + tail))[e] {
      assert (out + mid)[e] <= (held + x)[e] && (rest + end)[e] <= (mid + tail)[e];
    }
  }

  /** Nothing is invented or duplicated: what is released or still held was supplied. */
  lemma {:induction false} NothingInvented(h: Hasher, g: Gate, s: seq<RawLog>)
    ensures multiset(Feed(h, g, s).1) + multiset(Feed(h, g, s).0.buffered) <= multiset(g.buffered) + multiset(s)
    decreases |s|
  {
    if s != [] {
      var (g1, out) := AcceptStep(h, g, s[0]);
      assert s == [s[0]] + s[1..];
      assert multiset(out) + multiset(g1.buffered) <= multiset(g.buffered) + multiset([s[0]]);
      NothingInvented(h, g1, s[1..]);
      var (g2, rest) := Feed(h, g1, s[1..]);
      assert Feed(h, g, s) == (g2, out + rest);
      assert multiset(out + rest) == multiset(out) + multiset(rest);
      assert multiset(s) == multiset([s[0]]) + multiset(s[1..]);
      ChainBounds(multiset(out), multiset(g1.buffered), multiset(g.buffered), multiset([s[0]]),
                  multiset(rest), multiset(g2.buffered), multiset(s[1..]));
    }
  }

  // ------------------------------------------------------ any stream, exactly

  /** Record r leaves a looking gate looking: it is of the checkpoint's container, not later than
      the checkpoint and not the checkpointed record. */
  predicate Undecided(h: Hasher, cp: Checkpoint, r: RawLog) {
    && r.containerId == cp.containerId && r.timestamp <= cp.lastTimestamp
    && !(r.timestamp == cp.lastTimestamp && EventHash(h, r) == cp.lastEventHash)
  }

  lemma HeldBack(h: Hasher, g: Gate, s: seq<RawLog>)
    requires g.looking && s != [] && Undecided(h, g.checkpoint, s[0])
    ensures Feed(h, g, s) == Feed(h, g.(buffered := g.buffered + [s[0]]), s[1..])
  {
    var g1 := g.(buffered := g.buffered + [s[0]]);
    assert AcceptStep(h, g, s[0]) == (g1, []);
    assert [] + Feed(h, g1, s[1..]).1 == Feed(h, g1, s[1..]).1;
  }

  /** What a looking gate does with any stream whatsoever, by the first record, at position k,
      that decides: a record of another container ID is let through with all that follows and
      what was held back is dropped; the checkpointed record is dropped as well; a later record
      is let through behind what was held back. Afterwards the gate is open and empty. If no
      record decides, everything is held back. */
  lemma {:induction false} FeedIsExact(h: Hasher, g: Gate, s: seq<RawLog>, k: nat)
    requires g.looking && k <= |s| && forall i :: 0 <= i < k ==> Undecided(h, g.checkpoint, s[i])
    ensures k == |s| ==> Feed(h, g, s) == (Gate(g.checkpoint, true, g.buffered + s), [])
    ensures k < |s| && s[k].containerId != g.checkpoint.containerId ==> Feed(h, g, s) == (Gate(g.checkpoint, false, []), s[k..])
    ensures k < |s| && s[k].containerId == g.checkpoint.containerId
            && s[k].timestamp == g.checkpoint.lastTimestamp && EventHash(h, s[k]) == g.checkpoint.lastEventHash
            ==> Feed(h, g, s) == (Gate(g.checkpoint, false, []), s[k + 1..])
    ensures k < |s| && s[k].containerId == g.checkpoint.containerId && s[k].timestamp > g.checkpoint.lastTimestamp
            ==> Feed(h, g, s) == (Gate(g.checkpoint, false, []), g.buffered + s)
    decreases |s|
  {
    if s == [] {
      assert g.buffered + s == g.buffered;
    } else if k == 0 {
      if !Undecided(h, g.checkpoint, s[0]) {
        OpenGatePasses(h, AcceptStep(h, g, s[0]).0, s[1..]);
        assert s == [s[0]] + s[1..] && [] + s[1..] == s[1..];
        Reassociate(g.buffered, [s[0]], s[1..]);
      }
    } else {
      HeldBack(h, g, s);
      assert forall i :: 0 <= i < k - 1 ==> s[1..][i] == s[i + 1];
      FeedIsExact(h, g.(buffered := g.buffered + [s[0]]), s[1..], k - 1);
      assert s == [s[0]] + s[1..];
      Reassociate(g.buffered, [s[0]], s[1..]);
      assert s[1..][k - 1..] == s[k..] && (k < |s| ==> s[1..][k..] == s[k + 1..]);
    }
  }

  /** A gate looks exactly when its checkpoint names a container, a time and an event; otherwise
      it lets every stream through. */
  lemma GateLooksIff(h: Hasher, cp: Checkpoint, s: seq<RawLog>)
    ensures NewGate(cp) == Gate(cp, cp.containerId != [] && cp.lastTimestamp != ZERO_TIME && cp.lastEventHash != [], [])
    ensures cp.containerId == [] || cp.lastTimestamp == ZERO_TIME || cp.lastEventHash == [] ==> Feed(h, NewGate(cp), s).1 == s
  {
    if !NewGate(cp).looking {
      OpenGatePasses(h, NewGate(cp), s);
    }
  }

  /** Finish hands out once what a looking gate holds back, and opens it. */
  lemma FinishOnce(g: Gate)
    ensures !FinishStep(g).0.looking && FinishStep(FinishStep(g).0).1 == []
    ensures FinishStep(g).1 == if g.looking then g.buffered else []
  {
  }

  // -------------------------------------------------------- the record itself

  /** No two byte strings have the same digest, and times are told apart. */
  ghost predicate Faithful(h: Hasher) {
    TellsTimesApart(h) && forall x, y :: h.digest(x) == h.digest(y) ==> x == y
  }

  /** The same record, whatever the container was called. */
  predicate SameRecord(r: RawLog, s: RawLog) {
    r.containerId == s.containerId && r.timestamp == s.timestamp && r.stream == s.stream && r.raw == s.raw
  }

  /** With a faithful hasher the event hash identifies the record. */
  lemma SameHashIff(h: Hasher, r: RawLog, s: RawLog)
    requires Faithful(h) && EncodableHead(h, r) && EncodableHead(h, s)
    ensures EventHash(h, r) == EventHash(h, s) <==> SameRecord(r, s)
  {
    if EventHash(h, r) == EventHash(h, s) {
      EventEncodingInjective(h, r, s);
    }
  }

  /** What a replay is for: with a faithful hasher, a stream of one container in order of time
      that contains the checkpointed record m, first at position i, is resumed right behind it. */
  lemma ReplayResumesBehind(h: Hasher, m: RawLog, s: seq<RawLog>, i: nat)
    requires Faithful(h) && EncodableHead(h, m) && forall j :: 0 <= j < |s| ==> EncodableHead(h, s[j])
    requires m.containerId != [] && m.timestamp != ZERO_TIME && EventHash(h, m) != []
    requires Nondecreasing(s) && forall j :: 0 <= j < |s| ==> s[j].containerId == m.containerId
    requires i < |s| && SameRecord(s[i], m) && forall j :: 0 <= j < i ==> !SameRecord(s[j], m)
    ensures Feed(h, NewGate(Checkpoint(m.containerName, m.containerId, m.timestamp, EventHash(h, m))), s).1 == s[i + 1..]
  {
    var cp := Checkpoint(m.containerName, m.containerId, m.timestamp, EventHash(h, m));
    SameHashIff(h, s[i], m);
    forall j | 0 <= j < i ensures Undecided(h, cp, s[j]) {
      SameHashIff(h, s[j], m);
    }
    FeedIsExact(h, NewGate(cp), s, i);
  }
}
