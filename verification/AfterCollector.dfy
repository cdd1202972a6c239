/** Collecting the entries after a trigger without blocking the producer. Model of
    AfterCollector in internal/context/capture.go: its two kinds of locked section, and
    every interleaving of adders, timer, cancellation and the unlocked delivery. */
module AfterCollector {
  import opened Common
  import opened ContextBuffer
  import Capturing = Capture

  type Capture = Capturing.Capture

  /** The fields guarded by the collector's mutex; `after` is the number of entries wanted. */
  datatype Collector = Collector(capture: Capture, after: int, finished: bool)

  // ------------------------------------------------------------ locked sections

  /** The locked part of Add; true if the caller must go on to finish. */
  function AddLocked(c: Collector, e: LogEntry): (r: (Collector, bool)) {
    if c.finished then (c, false)
    else
      var capture := c.capture.(after := c.capture.after + [e]);
      (c.(capture := capture), |capture.after| >= c.after)
  }

  /** The locked part of finish; the capture to deliver, if this caller is the first. */
  function FinishLocked(c: Collector, timedOut: bool): (r: (Collector, Option<Capture>)) {
    if c.finished then (c, None)
    else
      var capture := c.capture.(timedOut := timedOut);
      (c.(capture := capture, finished := true), Some(capture))
  }

  function Started(before: seq<LogEntry>, trigger: LogEntry, after: int): (c: Collector) {
    var c := Collector(Capturing.Capture(before, trigger, [], false), after, false);
    if after <= 0 then FinishLocked(c, false).0 else c
  }

  class AfterCollector {
    var capture: Capture
    var after: int
    var finished: bool
    /** Everything sent on the done channel (capacity one), and whether it is closed. */
    var sent: seq<Capture>
    var doneClosed: bool

    function State(): Collector reads this { Collector(capture, after, finished) }

    /** Between calls: nothing is sent before finishing, one result afterwards. */
    ghost predicate Valid() reads this {
      if finished then sent == [capture] && doneClosed else sent == [] && !doneClosed
    }

    constructor (before: seq<LogEntry>, trigger: LogEntry, after: int)
      ensures Valid() && State() == Started(before, trigger, after)
    {
      capture := Capturing.Capture(before, trigger, [], false);
      this.after, finished, sent, doneClosed := after, false, [], false;
      new;
      if after <= 0 {
        FinishOnce(false);
      }
    }

    method FinishOnce(timedOut: bool)
      requires Valid()
      modifies this
      ensures Valid() && State() == old(FinishLocked(State(), timedOut).0)
    {
      if finished {
        return;
      }
      finished := true;
      capture := capture.(timedOut := timedOut);
      var result := capture;
      sent := sent + [result];
      doneClosed := true;
    }

    method Add(entry: LogEntry)
      requires Valid()
      modifies this
      ensures Valid()
      ensures var (c, full) := old(AddLocked(State(), entry));
              State() == if full then FinishLocked(c, false).0 else c
    {
      if finished {
        return;
      }
      capture := capture.(after := capture.after + [entry]);
      var shouldFinish := |capture.after| >= after;
      if shouldFinish {
        FinishOnce(false);
      }
    }

    method Cancel()
      requires Valid()
      modifies this
      ensures Valid() && State() == old(FinishLocked(State(), true).0)
    {
      FinishOnce(true);
    }
  }

  // ------------------------------------------------------------ interleavings

  /** Where the delivery of the one result stands. */
  datatype Delivery = Waiting | ToSend(result: Capture) | ToClose | Done

  /** `finishing` adders have appended and are about to finish; `sent` and `closes` record
      the uses of the done channel; `supplied` the entries in the order Add was entered. */
  datatype Sys = Sys(c: Collector, finishing: nat, delivery: Delivery, sent: seq<Capture>, closes: nat, supplied: seq<LogEntry>)

  datatype Step = AddEntry(entry: LogEntry) | AddFinish | TimerFires | CancelCalled | SendResult | CloseDone

  predicate Enabled(s: Sys, step: Step) {
    match step
    case AddFinish => s.finishing > 0
    case SendResult => s.delivery.ToSend?
    case CloseDone => s.delivery.ToClose?
    case _ => true
  }

  function Finishing(s: Sys, timedOut: bool): Sys {
    var (c, result) := FinishLocked(s.c, timedOut);
    s.(c := c, delivery := if result.Some? then ToSend(result.value) else s.delivery)
  }

  function Perform(s: Sys, step: Step): Sys
    requires Enabled(s, step)
  {
    match step
    case AddEntry(e) =>
      var (c, full) := AddLocked(s.c, e);
      s.(c := c, finishing := s.finishing + (if full then 1 else 0), supplied := s.supplied + [e])
    case AddFinish => Finishing(s.(finishing := s.finishing - 1), false)
    case TimerFires => Finishing(s, true)
    case CancelCalled => Finishing(s, true)
    case SendResult => s.(sent := s.sent + [s.delivery.result], delivery := ToClose)
    case CloseDone => s.(closes := s.closes + 1, delivery := Done)
  }

  function Initial(before: seq<LogEntry>, trigger: LogEntry, after: int): Sys {
    var c := Started(before, trigger, after);
    Sys(c, 0, if c.finished then ToSend(c.capture) else Waiting, [], 0, [])
  }

  /** Runs; in a sequential one no Add is entered while another is still finishing. */
  ghost predicate Reaches(s: Sys, run: seq<Step>, s': Sys, sequential: bool)
    decreases |run|
  {
    if run == [] then s == s'
    else
      && Enabled(s, run[0]) && (sequential && run[0].AddEntry? ==> s.finishing == 0)
      && Reaches(Perform(s, run[0]), run[1..], s', sequential)
  }

  // ------------------------------------------------------------------ claims

  /** Sending never blocks on the capacity-one channel, and the channel is neither closed
      twice nor sent on after closing. */
  predicate ChannelIsUsedOnce(s: Sys) {
    && |s.sent| <= 1 && s.closes <= 1
    && (s.delivery.ToSend? ==> s.sent == [] && s.closes == 0)
    && (s.delivery.ToClose? ==> s.closes == 0)
  }

  predicate DeliversPrefix(s: Sys, before: seq<LogEntry>, trigger: LogEntry) {
    forall r :: r in s.sent ==> r.before == before && r.trigger == trigger && r.after <= s.supplied
  }

  ghost predicate Inv(s: Sys, before: seq<LogEntry>, trigger: LogEntry, after: int) {
    && s.c.after == after && s.c.capture.before == before && s.c.capture.trigger == trigger
    && s.c.capture.after <= s.supplied
    && (!s.c.finished ==> s.c.capture.after == s.supplied && s.delivery.Waiting?)
    && (match s.delivery
        case Waiting => !s.c.finished && s.sent == [] && s.closes == 0
        case ToSend(r) => s.c.finished && s.sent == [] && s.closes == 0 && r == s.c.capture
        case ToClose => s.c.finished && s.sent == [s.c.capture] && s.closes == 0
        case Done => s.c.finished && s.sent == [s.c.capture] && s.closes == 1)
    && (s.finishing > 0 ==> |s.c.capture.after| >= after)
    && (s.c.finished && !s.c.capture.timedOut ==> |s.c.capture.after| >= after)
  }

  /** With one adder at a time the wanted number is never exceeded. */
  ghost predicate SequentialInv(s: Sys) {
    && s.finishing <= 1
    && (s.c.after > 0 ==> |s.c.capture.after| <= s.c.after)
    && (s.c.after > 0 && !s.c.finished && s.finishing == 0 ==> |s.c.capture.after| < s.c.after)
  }

  lemma {:induction false} RunKeepsInv(s: Sys, run: seq<Step>, s': Sys, sequential: bool,
                                       before: seq<LogEntry>, trigger: LogEntry, after: int)
    requires Inv(s, before, trigger, after) && (sequential ==> SequentialInv(s))
    requires Reaches(s, run, s', sequential)
    ensures Inv(s', before, trigger, after) && (sequential ==> SequentialInv(s'))
    decreases |run|
  {
    if run != [] {
      RunKeepsInv(Perform(s, run[0]), run[1..], s', sequential, before, trigger, after);
    }
  }

  /** Whatever adders, timer and cancellation do, the collector sends at most one result,
      never blocks doing so, closes once, and delivers a prefix of what it was supplied. */
  lemma CollectorDeliversOnce(before: seq<LogEntry>, trigger: LogEntry, after: int, run: seq<Step>, s: Sys, sequential: bool)
    requires Reaches(Initial(before, trigger, after), run, s, sequential)
    ensures ChannelIsUsedOnce(s) && DeliversPrefix(s, before, trigger)
    ensures after > 0 ==> forall r :: r in s.sent && !r.timedOut ==> |r.after| >= after
    ensures after <= 0 ==> forall r :: r in s.sent ==> r.after == [] && !r.timedOut
  {
    RunKeepsInv(Initial(before, trigger, after), run, s, sequential, before, trigger, after);
    if after <= 0 {
      FinishedAtOnce(Initial(before, trigger, after), run, s, sequential);
    }
  }

  lemma {:induction false} FinishedAtOnce(s: Sys, run: seq<Step>, s': Sys, sequential: bool)
    requires s.c.finished && Reaches(s, run, s', sequential)
    ensures s'.c == s.c
    decreases |run|
  {
    if run != [] {
      FinishedAtOnce(Perform(s, run[0]), run[1..], s', sequential);
    }
  }

  /** With one adder at a time, at most `after` entries are delivered, and exactly that many
      unless the collector was stopped by its timer or cancelled. */
  lemma SequentialAddersAreExact(before: seq<LogEntry>, trigger: LogEntry, after: int, run: seq<Step>, s: Sys)
    requires 0 < after && Reaches(Initial(before, trigger, after), run, s, true)
    ensures forall r :: r in s.sent ==> |r.after| <= after && (!r.timedOut ==> |r.after| == after)
  {
    RunKeepsInv(Initial(before, trigger, after), run, s, true, before, trigger, after);
  }

  predicate Finishes(step: Step) { step.AddFinish? || step.TimerFires? || step.CancelCalled? }

  /** k is the first step of the run that finishes, or its length if there is none. */
  predicate FirstFinish(run: seq<Step>, k: nat) {
    k <= |run| && (forall i :: 0 <= i < k ==> !Finishes(run[i])) && (k < |run| ==> Finishes(run[k]))
  }

  /** The entries added in a run. */
  function Added(run: seq<Step>): (entries: seq<LogEntry>) {
    if run == [] then [] else (if run[0].AddEntry? then [run[0].entry] else []) + Added(run[1..])
  }

  lemma {:induction false} EndsAtFirst(s: Sys, run: seq<Step>, s': Sys, sequential: bool, k: nat)
    requires !s.c.finished && Reaches(s, run, s', sequential) && FirstFinish(run, k)
    ensures s'.c.capture.after == s.c.capture.after + Added(run[..k])
    ensures s'.c.finished <==> k < |run|
    ensures k < |run| ==> (s'.c.capture.timedOut <==> !run[k].AddFinish?)
    decreases |run|
  {
    if k == 0 {
      assert s.c.capture.after + [] == s.c.capture.after;
      if run != [] {
        FinishedAtOnce(Perform(s, run[0]), run[1..], s', sequential);
      }
    } else {
      assert run[..k][1..] == run[1..][..k - 1];
      EndsAtFirst(Perform(s, run[0]), run[1..], s', sequential, k - 1);
      Reassociate(s.c.capture.after, if run[0].AddEntry? then [run[0].entry] else [], Added(run[1..][..k - 1]));
      assert s.c.capture.after + [] == s.c.capture.after;
    }
  }

  /** The first finisher decides: the result has what was added before it, and has timed out
      unless the finisher was an adder. Once there is one, the result is sent and the channel
      closed as soon as nothing more can be done. */
  lemma FirstFinisherDecides(before: seq<LogEntry>, trigger: LogEntry, after: int, run: seq<Step>, s: Sys, sequential: bool, k: nat)
    requires 0 < after && Reaches(Initial(before, trigger, after), run, s, sequential) && FirstFinish(run, k)
    ensures if k == |run| then s.sent == [] && s.closes == 0 else
              && (forall r :: r in s.sent ==> r.after == Added(run[..k]) && (r.timedOut <==> !run[k].AddFinish?))
              && (!Enabled(s, SendResult) && !Enabled(s, CloseDone) ==> |s.sent| == 1 && s.closes == 1)
  {
    RunKeepsInv(Initial(before, trigger, after), run, s, sequential, before, trigger, after);
    EndsAtFirst(Initial(before, trigger, after), run, s, sequential, k);
    assert [] + Added(run[..k]) == Added(run[..k]);
  }

  /** Some Add is entered while another one that reached the wanted number has yet to finish. */
  ghost predicate Overlaps(s: Sys, run: seq<Step>)
    decreases |run|
  {
    && run != [] && Enabled(s, run[0])
    && ((run[0].AddEntry? && s.finishing > 0 && !s.c.finished) || Overlaps(Perform(s, run[0]), run[1..]))
  }

  /** While unfinished, the wanted number is reached exactly when someone is about to finish. */
  predicate ReachedIffFinishing(s: Sys) {
    !s.c.finished ==> (|s.c.capture.after| >= s.c.after <==> s.finishing > 0)
  }

  lemma {:induction false} ExceedsIffOverlaps(s: Sys, run: seq<Step>, s': Sys)
    requires ReachedIffFinishing(s) && Reaches(s, run, s', false)
    ensures |s'.c.capture.after| > s.c.after <==> |s.c.capture.after| > s.c.after || Overlaps(s, run)
    decreases |run|
  {
    if run != [] {
      ExceedsIffOverlaps(Perform(s, run[0]), run[1..], s');
    }
  }

  /** In any interleaving the delivered result has more entries than wanted if and only if
      two adders overlapped at the limit. */
  lemma MoreThanWantedIff(before: seq<LogEntry>, trigger: LogEntry, after: int, run: seq<Step>, s: Sys)
    requires 0 < after && Reaches(Initial(before, trigger, after), run, s, false)
    ensures forall r :: r in s.sent ==> (|r.after| > after <==> Overlaps(Initial(before, trigger, after), run))
  {
    RunKeepsInv(Initial(before, trigger, after), run, s, false, before, trigger, after);
    ExceedsIffOverlaps(Initial(before, trigger, after), run, s);
  }

  /** Two adders at once can deliver more than was wanted: one wanted, two delivered. */
  lemma ConcurrentAddersCanExceed(trigger: LogEntry, x: LogEntry, y: LogEntry) returns (run: seq<Step>, s: Sys)
    ensures Reaches(Initial([], trigger, 1), run, s, false)
    ensures |s.sent| == 1 && s.sent[0].after == [x, y] && !s.sent[0].timedOut
  {
    var s0 := Initial([], trigger, 1);
    var s1 := Perform(s0, AddEntry(x));
    var s2 := Perform(s1, AddEntry(y));
    var s3 := Perform(s2, AddFinish);
    s := Perform(s3, SendResult);
    run := [AddEntry(x), AddEntry(y), AddFinish, SendResult];
    assert Reaches(s, [], s, false);
    assert Reaches(s3, [SendResult], s, false) by { assert [SendResult][1..] == []; }
    assert Reaches(s2, [AddFinish, SendResult], s, false) by { assert [AddFinish, SendResult][1..] == [SendResult]; }
    assert Reaches(s1, [AddEntry(y), AddFinish, SendResult], s, false) by {
      assert [AddEntry(y), AddFinish, SendResult][1..] == [AddFinish, SendResult];
    }
    assert run[1..] == [AddEntry(y), AddFinish, SendResult];
  }
}
