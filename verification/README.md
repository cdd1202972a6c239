# graph-log-watcher, verified

A Dafny model of graph-log-watcher, the service that follows the Docker logs of graph-node
containers, aggregates matching entries into incidents, captures context around them and sends
notifications. The model covers the parts that carry state or bytes across calls: the replay
protocol that resumes a log stream after a crash, restart or reconnect; the batched checkpoint
store; the incident aggregator; the processor with its context capture; the notification
worker; the Docker stream decoder; and the byte encodings and field parser.

`dafny verify dfyconfig.toml` checks the whole project.

## Conventions

- A Go string is a sequence of bytes, a time is an integer number of nanoseconds, and 0 is Go's
  zero time. Clocks are arguments.
- SHA-256 and the time format of section 5.6 of RFC 3339 are uninterpreted functions passed in
  (`Hasher`), bbolt is a table that a commit updates completely or not at all, and a database
  read may fail.
- The program's stateful objects are classes; what they hold in turn is a value where
  "Left out" says so. Each method is proved against a function of the old state, and the step
  systems for concurrent behaviour perform exactly those functions, one per locked section, in
  every interleaving.
- Whether an entry is kept, which alerts it raises, whether a delivery succeeds and when timers
  fire are arbitrary.

## Main results

- **At least once.** Over every interleaving of attaching, loading, delivering through a bounded
  channel, consuming, processing, saving, flushing (or failing to), reconnecting and crashing,
  next to arbitrary traffic of other containers, no stored checkpoint is ahead of the
  processing, and a drained stream has left nothing from the base on unprocessed
  (`ReplayProtocol.AtLeastOnce`). The base is the replay start last resolved while the store
  held no checkpoint. In every run it moves only when it is first fixed or when a crash finds
  nothing on disk, and never again once a checkpoint is durable. The theorem has two premises:
  no two different records share a timestamp, and no start is stale, that is, taken from the
  clock although a first checkpoint was saved since its load (`replayStart` loads and remembers
  under different locks). A stale start needs a replay-start load that failed before the
  container's first checkpoint (`ReplayStarts.StaleNeedsFailedLoad`).
- **When it fails.** Three things can go wrong, and for each there is an exact condition, over
  every log and each class of runs (with or without log rotation, such failing loads, and clocks
  that disagree):
  - A stored checkpoint passes an unprocessed record (`ReplayExact.NeverOvertakesIff`). Without
    failing loads this cannot happen if and only if no two different records share a timestamp
    that a later record follows; with them, if and only if all records older than the newest
    timestamp are the same.
  - A record is lost for good: the log is rotated past it and no continuation whatsoever
    processes it (`ReplayForGood.GoneForGood`). With rotation the conditions are the same
    (`ReplayExact.NeverLosesForGoodIff`), because a crash and a rotation of records older than
    the checkpoint are all it takes once a checkpoint has passed a record. Until then a
    reconnect may still deliver it.
  - The stream is drained with a record missing (`ReplayExact.NeverMissesIff`): it cannot happen
    if and only if no two different records share any timestamp; with failing loads, if and only
    if all records are the same.

  The runs that fail are built for every such log, on one clock, from steps that `runContainer`
  takes. Passing a tie needs room in the log channel: the records from a new one of the tied
  time through the next later record, one of them already taken off the channel. If no record is
  an exact repetition of another, every channel has that room
  (`ReplayExact.DistinctRecordsHaveRoom`). No room is needed where rotation may also take unread
  records of the checkpoint's own time; that is a rule of the model's coarsest rotation, which
  goes by time, and the finer one takes only records older than the checkpoint.
- **The aggregator is its history.** Each group equals a naive recomputation from its own
  fingerprint's events, over whole runs with eviction; first alerts fire exactly at the
  threshold, n alerts span n-1 cooldowns, and suppression counts are conserved. Which groups
  there are, and what each has seen, is told from the operations alone
  (`AggregateEviction.SurvivesIff`, `AggregateEviction.SeenIsStory`).
- **Captures are slices.** Every emitted capture, and every list of lines printed from it under
  a byte limit, is one contiguous run of what its trigger's container kept. Every alert that an
  entry raises is taken up (`ProcessorRuns.EveryRequestIsServed`) and meets exactly one fate: it
  is discarded only with its own container, and short of after-context only if its timer fired
  or the processor was closed.
- **Alerts are conserved.** Every submitted and every storm alert is accounted for once,
  accepted alerts are handled first in, first out, and an alert is dropped only when refused on
  submission, out of turn after a cancelled context, or over the rate
  (`NotifyFates.EveryAlertHasAFate`). No closed minute anywhere in a run contains more than the
  configured number of allowed alerts, and the limiter refuses no more than that asks for.
- **Bytes.** Decoding does not depend on framing, the hashed encodings are uniquely decodable
  and group records exactly by what each mode names (`Fingerprint.SameFingerprintIff`), printing
  then parsing a message with fields gives it back, and what every other text parses to is told
  from its pieces (`FieldTexts.EveryTextIsTold`).

Premises of the end-to-end replay results: one container ID, records with a Docker timestamp
after the zero time, rotation of no record with a time later than the durable checkpoint's, a
processor that accepts every record, and at most one stream per container (`runContainer` waits
for the old one). The aggregator's results ask for one rule per fingerprint and times after the zero time; the rate
bound asks for a clock that does not go back.

Where a comment and the code differ the code is modelled: a second call of the processor's
`Close` returns at once instead of waiting for the alerts under way.

## Model

| member | source | states |
|---|---|---|
| `ReplayProtocol.AtLeastOnce` | internal/runtime/runtime.go:196-342 | in every run without a stale start, over a log in which no two different records share a timestamp, no pending or durable checkpoint is ahead of the processing, and when the stream is drained every record from the base on has been processed |
| `ReplayProtocol.AtLeastOnceBelow` | internal/runtime/runtime.go:196-342 | the same for the records before any time up to which no two different ones share a timestamp, whatever ties come later |
| `ReplayProtocol.NotOvertaken` | internal/runtime/runtime.go:196-342 | in every run without a stale start no stored checkpoint passes an unprocessed record, unless different records share a timestamp that a later record follows |
| `ReplayProtocol.StepKeepsInv` | internal/runtime/runtime.go:196-342 | each of the sixteen kinds of step, crash and reconnect included, keeps the invariant that everything older than a record in the pipeline is processed or ahead of it; the one exception is a stale start |
| `ReplayProtocol.OwnGate` | internal/runtime/runtime.go:335-342 | inside the protocol a gate lets its container's record through, withholds it only if it is already processed or before the base, or releases it behind what it held |
| `ReplayProtocol.OverlapIsReplayed` | internal/runtime/runtime.go:314-334 | the stream requested after a load delivers exactly the records from the checkpoint minus the overlap on, from the initial start on if there is no checkpoint, and all after a failed load |
| `ReplayProtocol.BaseMovesOnlyWhen` | internal/runtime/runtime.go:314-334 | in every run the base changes only where a start is first fixed while the store holds no checkpoint, or in a crash with nothing on disk |
| `ReplayProtocol.BaseIsFixedOnceDurable` | internal/runtime/runtime.go:314-334 | once a checkpoint is durable, no steps whatsoever move the base or lose the checkpoint |
| `ReplayProtocol.ChannelIsBounded` | internal/runtime/runtime.go:99 | in every run the log channel, shared by all containers, holds at most its capacity, with one record more only while an idle consumer has it in hand |
| `ReplayExact.NeverOvertakesIff` | internal/runtime/runtime.go:285-342 | for every log and class of runs: no run lets a stored checkpoint pass an unprocessed record if and only if no two different records share a timestamp that a later record follows, or, where a replay-start load may fail before the first checkpoint, if and only if all records older than the newest timestamp are the same; a buried tie needs room in the log channel, or rotation that takes unread records of the checkpoint's time |
| `ReplayExact.NeverLosesForGoodIff` | internal/runtime/runtime.go:285-342 | under the same premises, for every class with rotation: the same conditions decide whether a record can be lost for good |
| `ReplayExact.NeverMissesIff` | internal/runtime/runtime.go:285-342 | no run drains the stream with a record missing if and only if no two different records share a timestamp, or, with failing start loads, if and only if all are the same; without those and without rotation of the checkpoint's own time, for logs whose ties are not only at the newest timestamp and have room |
| `ReplayExact.DistinctRecordsHaveRoom` | internal/runtime/runtime.go:99 | if no record is an exact repetition of another, every log channel has the room that a buried tie needs |
| `ReplayForGood.GoneForGood` | internal/runtime/runtime.go:196-342 | a record that the log has been rotated past and that is not on its way stays unprocessed in every continuation, failures and restarts included |
| `ReplayForGood.PassedCanBeLost` | internal/runtime/runtime.go:285-342 | from any reachable state in which a stored checkpoint has passed a record, a crash and a rotation of older records lead to one in which it is gone |
| `ReplayStarts.StaleNeedsFailedLoad` | internal/runtime/runtime.go:314-334 | a run in which no replay-start load fails before the container's first checkpoint has no stale start |
| `ReplayStarts.StaleStartOvertakes` | internal/runtime/runtime.go:314-334 | for every log, after one failed load a run ends with the stored checkpoint at the newest time and only the first and the newest records processed |
| `ReplayStarts.StaleStartMisses` | internal/runtime/runtime.go:314-334 | for every log, after one failed load a run ends drained with only the first record processed and the checkpoint still at it |
| `ReplayStarts.SameIsSafe` | internal/runtime/runtime.go:196-342 | in every run whatsoever, if all records before some time are the same, none of them from the base on is unprocessed once a checkpoint has reached it, the stream is drained or the log is rotated past it |
| `ReplayTies.TieIsOvertaken` | internal/checkpoint/replay.go:48-74 | for every log with a tie that a later record follows and that has room in the log channel there is a run, without rotation or failed start loads and on one clock, that ends drained with the tie's second record unprocessed and the stored checkpoint past it |
| `ReplayTies.TieIsRotatedAway` | internal/checkpoint/replay.go:48-74 | for every log with a tie there is a run in which rotation takes the unread second record, of the checkpoint's own time, and the stream is drained without it; if a later record follows, the stored checkpoint is past it |
| `Replay.ReplayGate.Accept` | internal/checkpoint/replay.go:48-74 | the object moves as the gate function says and returns what it releases |
| `Replay.ReplayGate.Finish` | internal/checkpoint/replay.go:77-85 | the object releases what it held, once |
| `Replay.FeedIsExact` | internal/checkpoint/replay.go:48-74 | for any stream at all, by the first record that decides: one of another container ID is released with everything behind it, the checkpointed record is dropped and everything behind it released, a later record is released behind all that was held; the gate is then open and empty; if none decides, everything is held |
| `Replay.GateLooksIff` | internal/checkpoint/replay.go:41-43 | a gate looks exactly when its checkpoint has a container ID, a time and a hash; otherwise every stream passes |
| `Replay.ReplayResumesBehind` | internal/checkpoint/replay.go:22-74 | with a digest that tells byte strings apart, an ordered stream of one container is resumed right behind the first record with the ID, time, stream and line of the checkpointed one |
| `Replay.MarkerFound` | internal/checkpoint/replay.go:48-74 | on one container's nondecreasing stream the gate releases exactly what follows the first marker |
| `Replay.MarkerAbsent` | internal/checkpoint/replay.go:48-85 | without the marker everything held and supplied comes out once, in order, whatever the timestamps |
| `Replay.GateIsBatchReplay` | internal/checkpoint/replay.go:41-85 | gating record by record and finishing equals the batch replay of the whole stream |
| `Replay.NothingLateIsDropped` | internal/checkpoint/replay.go:48-74 | for any stream at all, the records later than the checkpoint are released, each once and in order |
| `Replay.NothingInvented` | internal/checkpoint/replay.go:48-74 | what is released or still held is, with multiplicity, part of what was supplied |
| `Replay.ComputeEventHash` | internal/checkpoint/replay.go:22-29 | the loop hashes the NUL-prefixed concatenation of the four parts |
| `Replay.EventEncodingInjective` | internal/checkpoint/replay.go:22-29 | equal hashed bytes force equal ID, rendered time, stream and line, although the line may contain NUL bytes, and equal times if the rendering tells times apart |
| `Replay.SameHashIff` | internal/checkpoint/replay.go:22-29 | with such a digest two records have the same event hash if and only if their IDs, times, streams and lines agree, whatever the container names |
| `Observer.RecreatedIffIdChanged` | internal/runtime/runtime.go:285-309 | after any operations of the observer an attach reports a recreated container exactly when the last attach of that name was under another ID, and changes nothing but the remembered ID |
| `Observer.RuntimeObserver.AttachGate` | internal/runtime/runtime.go:285-309 | installs a fresh gate, removes the gate, or on a failed load leaves it, without touching other containers |
| `Observer.RuntimeObserver.ResolveStart` | internal/runtime/runtime.go:314-334 | the requested start and the remembered initial starts for a found, missing or failed load |
| `Observer.RuntimeObserver.Filter` | internal/runtime/runtime.go:335-342 | only the record's own gate moves, and its release is returned; without a gate the record passes |
| `Observer.GateIsFedSinceLoad` | internal/runtime/runtime.go:285-342 | after any operations a container has a gate exactly if its last load that did not fail found a checkpoint, and the gate is where the records of that container since then have brought it |
| `Observer.FilterIsFeed` | internal/runtime/runtime.go:335-342 | after any operations, filtering releases what a fresh gate for that checkpoint would release for this record after the same records; without a checkpoint the record passes |
| `Observer.StartIsStable` | internal/runtime/runtime.go:314-334 | after any operations the stream starts the overlap before the checkpoint, at the beginning after a failed load, and without a checkpoint the initial window before the first load that missed since one was found |
| `Observer.ProcessItems` | internal/runtime/runtime.go:196-216 | records are processed in order, each before its own checkpoint is saved; at the first rejected record nothing from it on is saved |
| `Observer.ProcessRaw` | internal/runtime/runtime.go:196-216 | filter, then process and save exactly what was released, up to the first rejection |
| `Observer.ItemsAreSaved` | internal/runtime/runtime.go:196-216 | whatever flushes fail, an open store then answers with the ID, time and event hash of the container's last item, and as before for every other container |
| `CheckpointStore.Store.Load` | internal/checkpoint/store.go:91-112 | answers from pending, then from the database; fails when closed or unreadable |
| `CheckpointStore.Store.FlushPending` | internal/checkpoint/store.go:142-171 | a commit moves all of pending to the database and clears the error; a failure changes nothing but the error |
| `CheckpointStore.Store.Save` | internal/checkpoint/store.go:115-130 | an invalid checkpoint or a closing store is refused without effect; otherwise pending grows and a full batch is flushed |
| `CheckpointStore.Store.Flush` | internal/checkpoint/store.go:133-140 | flushes unless closed |
| `CheckpointStore.Store.BeginClose` | internal/checkpoint/store.go:181-204 | only the first caller goes on to close |
| `CheckpointStore.Store.EndClose` | internal/checkpoint/store.go:181-204 | flushes a last time, closes in any case and reports either failure |
| `CheckpointStore.OpenStore` | internal/checkpoint/store.go:60-87 | fails exactly on an empty path, a non-positive interval or batch size, or a database that cannot be opened; otherwise starts with nothing pending |
| `CheckpointStore.StoreRefinesJournal` | internal/checkpoint/store.go:91-225 | every run, with any mixture of failed and successful flushes, behaves as a journal whose flushed prefix is on disk and whose rest is pending and counted |
| `CheckpointStore.LoadReturnsLastSave` | internal/checkpoint/store.go:91-130 | Load answers with the last accepted save of the name whatever flushes happened, or an error if the database cannot be read |
| `CheckpointStore.JournalIsAccepted` | internal/checkpoint/store.go:115-130 | over every run the accepted saves are those with a name, an ID, a time and a hash before the first call of Close |
| `CheckpointStore.SaveSucceedsIff` | internal/checkpoint/store.go:115-130 | after any operations Save reports success if and only if the checkpoint is complete, Close has not been called, and the batch is not yet full or is committed |
| `CheckpointStore.FlushSucceedsIff` | internal/checkpoint/store.go:133-204 | after any operations Flush succeeds if and only if the store is not closed and there is nothing to write or it is committed; the end of Close likewise and if the database closes; only the first Close goes on |
| `CheckpointStore.ErrorIsRemembered` | internal/checkpoint/store.go:142-179 | after any operations the store remembers an error if and only if the last attempt to write anything failed |
| `CheckpointStore.BatchesAreFull` | internal/checkpoint/store.go:115-171 | if only saves and loads come and no commit fails, what is not on disk is the remainder of the accepted saves by the batch size |
| `CheckpointStore.CrashLosesLessThanLimit` | internal/checkpoint/store.go:115-171 | if no commit fails, a crash at any moment loses fewer than the configured number of accepted saves |
| `CheckpointStore.DirtyCountsPending` | internal/checkpoint/store.go:115-171 | the counter equals the accepted saves since the last flush, is zero exactly when nothing is pending, and an error remains only while something is unsaved |
| `CheckpointStore.ErrorFreeClose` | internal/checkpoint/store.go:181-204 | a Close without error leaves every accepted save on disk, and no sequence of later operations changes anything |
| `Aggregate.NewAggregator` | internal/aggregate/aggregate.go:80-100 | fails exactly on a non-positive limit; otherwise starts empty |
| `Aggregate.Search` | internal/aggregate/aggregate.go:215-226 | the binary search splits the sorted slice at the pivot, on the side asked for |
| `Aggregate.DiscardBefore` | internal/aggregate/aggregate.go:215-218 | moves within the slice, to its front, exactly the times not before the cutoff |
| `Aggregate.InsertTimestamp` | internal/aggregate/aggregate.go:220-226 | inserts behind all times that are not later by shifting within the slice, which is reallocated only when it is full, and stays sorted |
| `Aggregate.Aggregator.EvictExpired` | internal/aggregate/aggregate.go:193-199 | deletes exactly the groups past their time to live |
| `Aggregate.Aggregator.FindOldest` | internal/aggregate/aggregate.go:201-213 | the scan, in any map order, finds the group that is older than every other by (update time, fingerprint) |
| `Aggregate.OldestIsUnique` | internal/aggregate/aggregate.go:201-213 | there is only one such group |
| `Aggregate.Aggregator.EvictForInsert` | internal/aggregate/aggregate.go:201-213 | makes room for one group by deleting that victim, if the limit is reached |
| `Aggregate.Aggregator.SlideWindow` | internal/aggregate/aggregate.go:129-136 | watermark and sorted window after one event |
| `Aggregate.Aggregator.CountEvent` | internal/aggregate/aggregate.go:138-147 | first and last time, counters and samples after one event |
| `Aggregate.Aggregator.Record` | internal/aggregate/aggregate.go:105-163 | rejects exactly the unacceptable events without effect; otherwise groups and result are those of one recorded event |
| `Aggregate.Aggregator.Len` | internal/aggregate/aggregate.go:174-179 | evicts expired groups and counts the rest |
| `AggregateHistory.WindowStep` | internal/aggregate/aggregate.go:129-136 | the sorted window stays, as a multiset, the re-filtered history |
| `AggregateHistory.RecordMatchesHistory` | internal/aggregate/aggregate.go:105-171 | one event recorded in a group that agrees with its history yields the naively computed result and a group that agrees with the longer history |
| `AggregateHistory.RunMatchesHistory` | internal/aggregate/aggregate.go:105-213 | over every run each group is the naive recomputation from its own fingerprint's events since it was created; at most the allowed number of groups, no empty key, no survivor past its time to live |
| `AggregateHistory.RecordResultIsNaive` | internal/aggregate/aggregate.go:105-163 | the result of a Record after any run is the naive one |
| `AggregateHistory.OthersUntouched` | internal/aggregate/aggregate.go:105-163 | other groups are deleted or left, never altered |
| `AggregateEviction.SurvivesIff` | internal/aggregate/aggregate.go:105-213 | over every run, told from the operations alone: a group is there after an operation if and only if the operation recorded it, or it was there and the operation was refused, or its last event was taken less than the time to live ago and it did not make room; a group makes room only for a new fingerprint when the live groups are as many as allowed, and then the one with the oldest last event, by fingerprint if equal |
| `AggregateEviction.SeenIsStory` | internal/aggregate/aggregate.go:105-163 | over every run the history of a group is the events taken for its fingerprint since it was last absent or past its time to live, each with the record's time, or the clock's if it has none, and its raw line, or its message if it has none |
| `AggregateEviction.RecordResultIsTold` | internal/aggregate/aggregate.go:105-163 | the result of a Record after any run is the naive one of that story |
| `Common.LessIff` | internal/aggregate/aggregate.go:208 | one string is less than another if and only if, at the first difference, it has ended or has the smaller byte |
| `AggregateHistory.BelowThresholdBeforeAlert` | internal/aggregate/aggregate.go:129-171 | the window count stays below the threshold until the first alert |
| `AggregateHistory.FirstAlertAtThreshold` | internal/aggregate/aggregate.go:129-171 | the first alert fires with the count equal to the threshold |
| `AggregateHistory.AlertsAreSpaced` | internal/aggregate/aggregate.go:145-171 | any two alerts n apart have event times at least n cooldowns apart |
| `AggregateHistory.SuppressionIsConserved` | internal/aggregate/aggregate.go:145-171 | reported plus current suppressed counts equal the suppressed events, and every event is an alert, suppressed or silent |
| `AggregateResults.ResultsAreNaive` | internal/aggregate/aggregate.go:105-163 | over every run, the results returned for a group since its creation are one by one the naive ones |
| `AggregateResults.EveryResultIsDecided` | internal/aggregate/aggregate.go:129-171 | over every run each result is suppressed exactly when an alert came before it and its event is earlier than that alert's time plus the cooldown, and alerts exactly when it is not suppressed and the events within the window of the latest one, counted from the group's events, reach the threshold |
| `AggregateResults.ResultsKeepGuarantees` | internal/aggregate/aggregate.go:105-171 | of the results any run has returned for a group: window count below the threshold until the first alert and equal to it there, alerts n apart at least n cooldowns apart, suppression conserved, every event counted |
| `ContextBuffer.Buffer.constructor` | internal/context/buffer.go:20-28 | an empty ring of the given capacity |
| `ContextBuffer.Buffer.Append` | internal/context/buffer.go:31-47 | the ring remains the last entries of everything appended |
| `ContextBuffer.Buffer.Last` | internal/context/buffer.go:51-68 | the last min(limit, capacity) entries ever appended, none for a non-positive limit |
| `ContextBuffer.NewContextStore` | internal/context/store.go:17-22 | fails exactly on a non-positive capacity; otherwise starts empty |
| `ContextBuffer.ContextStore.Append` | internal/context/store.go:24-83 | extends the history of the container that the entry names, or of its container ID if it names none, creating its buffer on first use, and no other |
| `ContextBuffer.ContextStore.Last` | internal/context/store.go:46-55 | the container's last entries, none if unknown |
| `ContextBuffer.ContextStore.Remove` | internal/context/store.go:59-66 | forgets one container and leaves the others |
| `ContextBuffer.AppendThenRead` | internal/context/store.go:24-83 | what is appended is read back as the latest entry under its container's name, or its ID if it has no name, and what is read under any other key is unchanged |
| `Capture.MaskFindsTail` | internal/context/capture.go:195-200 | the bit mask recognises exactly the continuation bytes |
| `Capture.TruncateUTF8` | internal/context/capture.go:185-193 | the scan from the limit downwards cuts at the last character boundary |
| `Capture.CutIsLongest` | internal/context/capture.go:185-200 | for text that is well formed by section 3 of RFC 3629 the cut is whole characters, within the limit, and no longer such prefix fits |
| `Capture.CharLenOfUtf8` | internal/context/capture.go:185-200 | what counts as a character: the encoding of a Unicode scalar value by section 3 of RFC 3629 is read as one character of its length |
| `Capture.CharIsUtf8` | internal/context/capture.go:185-200 | and whatever is read as a character is such an encoding |
| `Capture.Utf8AllIsValid` | internal/context/capture.go:185-200 | every sequence of encoded scalar values counts as valid text |
| `Capture.ValidIsUtf8All` | internal/context/capture.go:185-200 | and all valid text is such a sequence |
| `Capture.ScanBefore` | internal/context/capture.go:41-75 | the backward scan takes the most before-entries that fit |
| `Capture.CollectAfter` | internal/context/capture.go:41-75 | the forward scan takes the most after-entries that fit in the rest |
| `Capture.Reversed` | internal/context/capture.go:41-75 | the two-index swap reverses the list |
| `Capture.Lines` | internal/context/capture.go:41-75 | nothing without a budget, the cut trigger if it fills it, else the trigger with the longest fitting before-run and then the longest fitting after-run; joined by newlines within the limit |
| `Capture.BestLinesUnique` | internal/context/capture.go:41-75 | that description determines the lines |
| `Capture.PrintedLinesAre` | internal/context/capture.go:41-75 | nothing is printed without a positive limit; otherwise the printed lines are, entry by entry, the raw texts of a run around the trigger, or the messages of entries without one, unless the trigger's own line fills the limit; then a prefix of it |
| `AfterCollector.AfterCollector.constructor` | internal/context/capture.go:89-113 | a collector that wants nothing finishes at once |
| `AfterCollector.AfterCollector.Add` | internal/context/capture.go:116-133 | appends unless finished, and finishes on reaching the wanted number |
| `AfterCollector.AfterCollector.FinishOnce` | internal/context/capture.go:147-168 | only the first finish sends and closes |
| `AfterCollector.AfterCollector.Cancel` | internal/context/capture.go:141-145 | finishes as timed out unless already finished |
| `AfterCollector.CollectorDeliversOnce` | internal/context/capture.go:89-168 | in every interleaving of adders, timer and cancel at most one result is sent, without blocking, the channel is closed once, and the result is a prefix of what was supplied |
| `AfterCollector.SequentialAddersAreExact` | internal/context/capture.go:116-168 | with one adder at a time at most the wanted number is delivered, and exactly that many unless timed out |
| `AfterCollector.FirstFinisherDecides` | internal/context/capture.go:89-168 | in every interleaving the result has what was added before the first finisher and is timed out unless that was an adder; once there is one, the result is sent and the channel closed when nothing more can be done |
| `AfterCollector.MoreThanWantedIff` | internal/context/capture.go:116-168 | in any interleaving more than the wanted number is delivered if and only if an Add was entered while another that had reached the number was yet to finish |
| `AfterCollector.ConcurrentAddersCanExceed` | internal/context/capture.go:116-168 | a run in which one entry is wanted and two are delivered |
| `Processor.EmittedCapturesAreSlices` | internal/processor/processor.go:125-243 | in every run an emitted capture is one contiguous slice of its container's kept entries since the last removal, with min(before, capacity, available) entries before the trigger and the wanted number after it unless timed out |
| `ProcessorRuns.KeptIsLives` | internal/processor/processor.go:125-177 | what a container has kept, life by life, is what the run's steps say: each kept entry joins the current life of the container it names, or of its ID if it names none, and a removal starts a new life |
| `ProcessorRuns.CapturesKeepToOneContainer` | internal/processor/processor.go:179-289 | in every run an emitted capture is a slice of one such life, so all its entries belong to the trigger's container: same name, same ID if neither has a name, or, which the program does not tell apart, the name of one is the ID of an unnamed other |
| `ProcessorRuns.ShortCapturesAreHurried` | internal/processor/processor.go:179-267 | in every run an emitted capture has exactly the wanted after-context unless its own timer fired or Close was called, and is marked timed out only then |
| `ProcessorRuns.EveryRequestIsServed` | internal/processor/processor.go:153-219 | in every run the alerts raised so far are taken up in order, all but those of the entry being processed; each is queued if it wants after-context and else emitted, with its own entry and settings, and nothing else is queued or emitted |
| `Processor.PrintedLinesAreContiguous` | internal/processor/processor.go:179-243 | the printed lines are nothing without a byte limit, the cut trigger if it fills the limit, and otherwise the lines of one run of kept entries around the trigger |
| `Processor.EveryAlertHasOneFate` | internal/processor/processor.go:204-282 | at any moment each queued alert is exactly one of pending, emitted (once) and discarded |
| `Processor.DiscardedIffRemoved` | internal/processor/processor.go:271-282 | from any reachable state on, over every run, a queued alert becomes discarded if and only if its own container is removed while it is pending |
| `ProcessorRuns.DiscardedByOwnContainer` | internal/processor/processor.go:271-289 | from any reachable state on, an alert is discarded only by removing the container that its trigger names, or its ID if it names none, and such a removal discards it unless it was emitted |
| `Processor.CloseResolvesAll` | internal/processor/processor.go:227-267 | after Close every waiting goroutine can proceed, and when they have returned nothing is pending and each alert was emitted unless discarded |
| `ProcessorRuns.TakesEntriesUntilClosed` | internal/processor/processor.go:125-267 | in every run an entry can be processed if and only if no other is under way and Close has not been called |
| `ProcessorClass.Processor.Process` | internal/processor/processor.go:125-177 | reports an error exactly when closed or when the aggregator rejected some matched rule's event; is a run of the step system; feeds a kept entry once to each collector pending for its container and to no other, queues the alerts after that, and ends with the entry in its container's buffer |
| `ProcessorClass.ProcessRunIs` | internal/processor/processor.go:125-177 | the run that Process takes raises the alerts of the matched rules and no other, and adds the entry once to the current life of its own container only |
| `ProcessorClass.AlertsOfConcat` | internal/processor/processor.go:153-172 | the alerts of the matched rules are the raised ones, each once and in order |
| `ProcessorClass.Processor.QueueAlerts` | internal/processor/processor.go:153-172 | the loop over matched rules queues the alerts in order, goes on past a rejected event and remembers it |
| `ProcessorClass.Processor.AddAfterContext` | internal/processor/processor.go:221-225 | in any iteration order every collector pending for the container gets the entry once |
| `ProcessorClass.Processor.QueueAlert` | internal/processor/processor.go:179-219 | is the queueing step and leaves the alerts queued before as they are |
| `ProcessorClass.Processor.AwaitContext` | internal/processor/processor.go:227-243 | is the resolving step: a discarded alert is dropped, any other leaves the pending sets and is emitted |
| `ProcessorClass.Processor.RemoveContainer` | internal/processor/processor.go:271-282 | cancels and discards exactly the container's pending alerts and forgets its context |
| `ProcessorClass.Processor.BeginClose` | internal/processor/processor.go:253-267 | the first call cancels exactly the pending collectors; a second changes nothing |
| `NotifyWorker.NewWorker` | internal/notify/notifier.go:120-148 | fails exactly on a missing notifier or an invalid setting; no retry delays means the default ones |
| `NotifyWorker.Worker.Submit` | internal/notify/notifier.go:155-174 | accepts exactly while open and not full, counts a refused alert as dropped, and never sends on the closed queue |
| `NotifyWorker.Worker.BeginClose` | internal/notify/notifier.go:178-193 | closes the queue once |
| `NotifyWorker.Worker.Compact` | internal/notify/notifier.go:242-249 | moving kept times to the front in place leaves exactly the times not before the cutoff, in order |
| `NotifyWorker.Worker.Allow` | internal/notify/notifier.go:238-268 | the limiter's decision, its memory and the counters |
| `NotifyWorker.AlertsAreConserved` | internal/notify/notifier.go:155-293 | in every interleaving submits plus storm alerts equal sent, failed, dropped, queued, in flight and unfinished storms; accepted alerts are handled in order of submission; nothing is sent on or closed twice; after Close nothing is left in between; submitting never blocks |
| `NotifyFates.EveryAlertHasAFate` | internal/notify/notifier.go:155-236 | in every interleaving, told from the steps: a submitted alert is refused, after Close or on a full queue, or accepted; each alert the worker is done with is delivered, limited or late; the dropped ones are the refused, the limited and the late; none is late unless the context was cancelled; each allowed alert is delivered or being sent; so after the exit the accepted alerts are the delivered, the limited and the late ones |
| `NotifyWorker.StatsCountOutcomes` | internal/notify/notifier.go:201-293 | over every run the sent and failed counters are the numbers of successful and failed sends, and the storm counter the number of storms raised |
| `NotifyWorker.CloseTerminates` | internal/notify/notifier.go:178-236 | once closed, the worker is never stuck before it exits, each of its steps brings the exit closer, and callers cannot push it away |
| `NotifyWorker.AllowedFits` | internal/notify/notifier.go:238-268 | an alert allowed now keeps every closed minute, wherever it starts, within the limit |
| `NotifyWorker.RateIsBounded` | internal/notify/notifier.go:238-268 | over every run every closed minute contains at most the limit of allowed alerts, and storms are at least the storm cooldown apart |
| `NotifyWorker.DecisionIff` | internal/notify/notifier.go:238-268 | at any moment of any run an alert is allowed exactly when the minute ending now has room; a refused one, unless itself a storm, raises a storm exactly when the cooldown is zero or has passed since the last storm (or the zero time) |
| `NotifyWorker.SentIffRoom` | internal/notify/notifier.go:201-268 | at any moment of any run the alert in turn goes on to be sent exactly when the minute ending now has room for it |
| `NotifyWorker.NotifyWithRetries` | internal/notify/notifier.go:51-62 | a channel is called until it accepts, the retries run out or a pause is cut short, and never again after accepting |
| `NotifyWorker.NotifyAll` | internal/notify/notifier.go:41-49 | each channel is called on its own until it accepts, its retries run out or a pause is cut short; success means that every channel accepted |
| `Demux.FramesRoundTrip` | internal/source/docker/source.go:331-371 | any sequence of frames, whatever the unused header bytes of each, is read back as written |
| `Demux.TextContinues` | internal/source/docker/source.go:331-371 | terminated lines and rest of a text that arrives in two pieces |
| `Demux.LinesComeBackIff` | internal/source/docker/source.go:331-390 | lines written with LF or CR LF come back, and what follows them, if and only if none that ends in LF alone has a carriage return of its own before it |
| `Demux.LengthIsValue` | internal/source/docker/source.go:331-371 | the frame length is the big-endian number in the last four header bytes |
| `Demux.DecodeMultiplexed` | internal/source/docker/source.go:331-371 | for every input each stream yields the terminated lines of its own content and, at a clean end, its rest unchanged; lines come in the order in which frames complete them, the rests last; other streams have no effect; success exactly on whole frames |
| `Demux.FramingDoesNotMatter` | internal/source/docker/source.go:331-371 | the outputs of decoding two frame sequences, however cut and interleaved, agree on every stream on which the frames carry the same content |
| `Demux.ReadLines` | internal/source/docker/source.go:373-390 | the plain decoder, which also strips a carriage return from the rest |
| `Demux.DecodersAgreeIff` | internal/source/docker/source.go:331-390 | the two decoders agree on a text exactly when its unfinished rest does not end in a carriage return |
| `Fingerprint.WritePart` | internal/rule/fingerprint.go:64-75 | the byte loop writes the eight-byte big-endian length and the value |
| `Fingerprint.BigEndianInjective` | internal/rule/fingerprint.go:64-75 | the length bytes determine the length |
| `Fingerprint.BigEndianValue` | internal/rule/fingerprint.go:64-75 | the length bytes denote the length, most significant first |
| `Fingerprint.EncodeInjective` | internal/rule/fingerprint.go:64-75 | length-prefixed part lists are uniquely decodable |
| `Fingerprint.FingerprintBytes` | internal/rule/fingerprint.go:12-40 | the bytes written are the encoding of the rule, container, mode and identity parts, of which SameFingerprintIff says what they tell apart |
| `Fingerprint.FingerprintDeterminesIdentity` | internal/rule/fingerprint.go:12-40 | equal bytes force equal rule, container, mode and identity |
| `Fingerprint.SameFingerprintIff` | internal/rule/fingerprint.go:12-62 | two fingerprints hash the same bytes if and only if rule ID, container name and mode agree and, by mode, the lines (raw, or message without raw) agree, the normalized messages agree, the same fields are configured and every one but rule and container reads the same in both records, missing as empty, or, in any other mode, nothing more |
| `Fingerprint.SameIncidentIff` | internal/rule/fingerprint.go:12-58 | in fields mode two entries encode equally exactly when the container names and the record's values of all configured fields agree, missing ones read as empty |
| `Fingerprint.FieldOrderDoesNotMatter` | internal/rule/fingerprint.go:12-40 | the configured order of fields does not change the bytes |
| `FieldParser.ParseMessageAndFields` | internal/parser/graphnode.go:55-84 | the loop computes the part-by-part parse, with no map when no field was found |
| `FieldParser.MatchRendered` | internal/parser/graphnode.go:10-13 | a rendered key and value match the field pattern and give key and value back |
| `FieldParser.RoundTrip` | internal/parser/graphnode.go:55-84 | a canonical message and canonical fields with distinct keys, rendered and parsed, come back exactly, commas in values included |
| `FieldParser.PlainMessageIff` | internal/parser/graphnode.go:55-84 | a text parses to itself without fields exactly when it is a canonical message |
| `FieldTexts.MatchesIff` | internal/parser/graphnode.go:10-13 | a text is a field if and only if it spells a key of the pattern's alphabet, a colon, blanks and a value that starts with no blank and has no line feed, and then with that key and value |
| `FieldTexts.TrimsBlanks` | internal/parser/graphnode.go:55-84 | trimming takes blanks off both ends, and all of them |
| `FieldTexts.PiecesAreSplit` | internal/parser/graphnode.go:55-84 | the pieces contain no comma, and joined by commas give the text back |
| `FieldTexts.JoinCons` | internal/parser/graphnode.go:55-84 | joining puts the separator between each two pieces |
| `FieldTexts.EveryTextIsTold` | internal/parser/graphnode.go:55-84 | for every text: the message is the trimmed pieces before the first field, joined; the keys are those of the pieces that are fields; the value of a key is that of its last field, continued by the pieces up to the next field; no map exactly when there is no field |

## Left out

- The Docker client, HTTP server, Prometheus metrics, DingTalk adapter, configuration, command line, router, rule matcher and redaction: input and output, foreign libraries or one-branch facts.
- SHA-256, timestamp parsing and formatting, bbolt and JSON: uninterpreted or replaced as said above; corrupt stored JSON appears only as a failed load.
- The regular expressions of rules and normalisation: arbitrary functions. The field parser covers ASCII text.
- Liveness by wall clock: timers, retry sleeps and the periodic flush are steps that may happen at any moment; cancelling a decoder through its context is not modelled.
- ReplayProtocol.AtLeastOnce: one container ID; records of a recreated container, partial lines at a stream cut, records without a timestamp and rotation past the durable checkpoint are outside it, and the processor accepts every record.
- ReplayExact.NeverOvertakesIff: where rotation takes no unread record and start loads do not fail, a log whose only buried ties contain exact repetitions that overflow the log channel is not decided; the same holds for ReplayExact.NeverLosesForGoodIff.
- ReplayExact.NeverMissesIff: in those classes a log whose only ties are at the newest timestamp is not decided either; whether such a tie is missed depends on how its records repeat.
- Replay.GateIsBatchReplay: asks for one container ID and nondecreasing timestamps, as Docker delivers them; the results for any stream are MarkerAbsent, NothingLateIsDropped and NothingInvented.
- Replay.ReplayResumesBehind: takes the digest to have no collisions; the results without that premise speak of the event hash instead of the record. The same holds for Replay.SameHashIff.
- Aggregate.Aggregator.Record: between calls, groups and their timestamps are values that the methods reassign; within a call the timestamps are an array worked on in place. 64-bit counters do not wrap.
- ProcessorClass.Processor.Process: collectors, pending alerts and the context buffers are values in its maps instead of objects, so aliasing is not captured; the buffers' own object form is ContextBuffer. Parsing, routing, matching and aggregation are replaced by their outcome.
- NotifyWorker.Worker.Allow: the storm send itself is a step of the step system, not a goroutine; the run goroutine has no class of its own.
- AfterCollector.AfterCollector.Add: as a method it runs without interference; interleavings are the step system beside it.
- Close of the store and of the processor are split at the point where they wait; the waiting itself is not modelled.
