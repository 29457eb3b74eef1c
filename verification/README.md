# Kookr verification

A Dafny model of the parts of Kookr whose correctness rests on an algorithm or a protocol rather than on
plumbing, with proofs of what those parts promise. `dafny verify dfyconfig.toml` checks the whole project.

| file | models |
|---|---|
| `ImportGraph`, `TarjanInvariant`, `FindCycles` | the import-cycle check: an iterative strongly-connected-components walk |
| `Utf8`, `StatusJson`, `StatusPaths`, `StatusEnvelope` | the byte-bounded JSON envelope of `kookr status --json` |
| `HookRecords`, `HookPrinter` | splitting a hook log into records, and the JSON printer it must undo |
| `DeliveryOwnership` | single-writer delivery ownership under any interleaving and restarts |
| `HookLog`, `HookLock` | the rotating append log with crashes, and its advisory lock |
| `CaptureRing` | the terminal capture ring, per-byte and block-copy forms |
| `SpawnReconcile`, `ProbeSweep` | launching at most once over a lossy network; finding a running server |
| `SignalSpool`, `SignalOutbox` | the durable signal outbox: its spool file, and any number of processes sharing it |
| `LineReader`, `ByteLines` | the prompt line reader over text chunks and over byte chunks |
| `PrometheusLabels` | label escaping of the relay's Prometheus exposition |
| `Wrappers` | the optional value used by the others |

Code that changes variables or fields step by step is modelled by methods with loops and by classes
(`StatusDocument`, `RingState`, `HookFiles`, `Reader`), each proved against a specification function. The
walk of the import graph keeps its variables in one record so that each part of the loop body is a method of
its own. Protocols between processes are state machines whose steps are the atomic file and network
operations; their theorems speak of every run and every reachable state.

How the model stands for the outside world:

- Network outcomes, clocks, deploy status and the order of processes are inputs or events, unrestricted unless
  a theorem names a condition.
- A spool, lease or log file is a value that one event reads or replaces as a whole; reading it and writing it back
  are separate events. In `DeliveryOwnership` the read-modify-write of `children.json` is one event.
- The server is a ledger that replays a known idempotency key or signal id and creates otherwise, in one step.
- Text is a sequence of Unicode scalar values. JSON objects are ordered lists of properties; the size of a
  document does not depend on their order.

Where the code does not keep a property for every input, the failure and the exact condition are proved:

- Signals can be lost by the outbox (`ConcurrentAppendsLoseOne`, `PruningDrainLosesYoung`). In a run nothing is lost if
  and only if every rewrite of the spool finds that no pending signal has reached the file since it read it and, where
  it applies the bounds, that every pending signal is young enough and has fewer than 199 (an append) or 200 (a drain)
  young ones behind it (`NoSignalIsLost`, with the condition `Safe`).
- One actor delivers a unit only if no restart leaves out the recorded owner of that unit or falls between a claim of
  it and its record. After any run that kept this so far, a restart keeps it if and only if no continuation has pull
  requests of two actors for the unit (`RestartConditionIsExact`).
- The lock excludes as long as no contender sees a marker older than the stale limit; the first time one does, three
  of its steps put two writers inside (`MutualExclusion`, `StaleMarkerLetsSecondIn`).
- A reader of m generations sees a gapless suffix at every moment of a run if and only if no call starts a rotation
  that keeps fewer than m while its oldest kept slot and some slot between that and m both hold records
  (`GaplessIffUncut`; `SmallerKeepLeavesGap` is a run with a gap).
- The line reader decodes each byte chunk on its own: the lines are right if and only if every chunk is whole code
  points (`ByteChunksReadRight`, `TornLetter`).
- A shortened status document can be larger than the full one (`FullCanBeSmaller`).

## Model

| member | source | states |
|---|---|---|
| `FindCycles.FindCycles` | scripts/check-import-cycles.ts:177-237 | for every graph whose successors are files: the reported lists are exactly the strongly connected components with a cycle, disjoint, and cover every file on a cycle; nothing is reported iff no file has a non-empty import chain back to itself; the closing order is a numbering no import increases, strictly decreasing when nothing is reported; the work loop takes exactly files + imports steps |
| `FindCycles.WalkFrom` | scripts/check-import-cycles.ts:189-234 | a walk from an unindexed file keeps the loop-head invariant, terminates and ends with an empty work stack and the file indexed |
| `FindCycles.EnterTop` | scripts/check-import-cycles.ts:192-201 | a frame at position 0 is indexed and put on the stack once, in no step of its own |
| `FindCycles.StepEdge` | scripts/check-import-cycles.ts:203-213 | one step over one import, for a new, an on-stack and a closed successor |
| `FindCycles.CloseTop` | scripts/check-import-cycles.ts:215-232 | closing a frame keeps the invariant in one step, whether or not it is the root of a component |
| `FindCycles.CloseComponent` | scripts/check-import-cycles.ts:216-226 | the popped files are a whole component and are reported iff they form a cycle |
| `FindCycles.PopComponent` | scripts/check-import-cycles.ts:217-223 | the pop loop removes exactly the stack from the node up, each file once |
| `FindCycles.ParentUnchanged` | scripts/check-import-cycles.ts:228-232 | the unconditional lowlink update of the parent changes nothing after a component was closed |
| `FindCycles.NoCycleOrder` | scripts/check-import-cycles.ts:172-176 | an empty report means no cycles and that every import leads to a file closed strictly earlier |
| `FindCycles.OnCycleIffReported` | scripts/check-import-cycles.ts:224-225 | a file lies on a cycle iff its component has several members or imports itself |
| `TarjanInvariant.EnterKeepsInv` | scripts/check-import-cycles.ts:195-201 | entering a file keeps the walk's invariant (explored edges, stack connectivity, sound and complete lowlinks) |
| `TarjanInvariant.AdvanceKeepsInv` | scripts/check-import-cycles.ts:203-213 | stepping over an edge keeps it, and a new successor may be entered next |
| `TarjanInvariant.FinishKeepsInv` | scripts/check-import-cycles.ts:228-232 | finishing a file whose lowlink is below its index keeps it, with its segment passed to the parent |
| `TarjanInvariant.CloseKeepsInv` | scripts/check-import-cycles.ts:216-226 | closing a component keeps it |
| `TarjanInvariant.SegmentIsConnected` | scripts/check-import-cycles.ts:216-223 | files popped together reach each other |
| `TarjanInvariant.SegmentIsClosed` | scripts/check-import-cycles.ts:216-223 | no import leads from a popped file to a file still on the stack |
| `StatusEnvelope.BoundStatusJson` | bin/kookr-status.js:1628-1693 | strings are cut; a fitting document is returned as is; otherwise `agents` and `summary.findings` are prefixes of the originals, under `truncation.agents` and `truncation.findings` there are `originalCount` and `returnedCount`, as decimal numbers, exactly for a shortened one, and every path outside these reads as before; the result fits whenever the document with both collections emptied fits; the kept counts are those of the two passes; findings end maximal for the final agents; the smaller collection stays whole if emptying the larger one suffices |
| `StatusEnvelope.PassesDetermine` | bin/kookr-status.js:1666-1691 | the two passes, largest collection first and then agents before findings, determine the kept counts |
| `StatusEnvelope.StatusDocument.Bound` | bin/kookr-status.js:1645-1692 | the same for the details, and the give-back pass shortens nothing that the first pass left |
| `StatusEnvelope.StatusDocument.ShrinkLargestFirst` | bin/kookr-status.js:1666-1683 | the first pass cuts the larger collection to its longest fitting prefix and the other one only if that is not enough; it fits if the emptied document fits, and leaves the smaller collection whole if emptying the larger one suffices |
| `StatusEnvelope.StatusDocument.GiveBack` | bin/kookr-status.js:1685-1691 | agents and then findings get as much as fits beside the other; a fitting document stays fitting, no collection gets shorter, findings end maximal |
| `StatusEnvelope.StatusDocument.ShrinkArrayToFit` | bin/kookr-status.js:1594-1609 | the binary search over the mutating probe returns the whole array if it fits, else the longest fitting proper prefix, else nothing |
| `StatusEnvelope.StatusDocument.Probe` | bin/kookr-status.js:1595-1601 | a probe's verdict depends only on the kept count, whatever was probed before |
| `StatusEnvelope.StatusDocument.Apply` | bin/kookr-status.js:1649-1664 | sets the collection and writes or deletes its metadata, and the metadata object with its last entry |
| `StatusEnvelope.StatusDocument.Announce` | bin/kookr-status.js:1680-1681 | the placeholder metadata is overwritten by the first probe |
| `StatusEnvelope.ApplyShows` | bin/kookr-status.js:1649-1664 | after a probe the document is the original shortened to the probed counts, in every part |
| `StatusEnvelope.SizeGrows` | bin/kookr-status.js:1594-1609 | among shortened documents, keeping more items never makes the document smaller |
| `StatusEnvelope.FullCanBeSmaller` | bin/kookr-status.js:1595-1597 | the full document can be smaller than a shortened one, so the separate first check is needed |
| `StatusEnvelope.ShowsSize` | bin/kookr-status.js:1546-1548 | the byte size of a shortened document as a function of the kept counts |
| `StatusEnvelope.RefitKeepsFit` | bin/kookr-status.js:1685-1691 | refitting one collection of a fitting document keeps it fitting and shortens nothing |
| `StatusEnvelope.PresentFacts` | bin/kookr-status.js:1666-1673 | exactly the non-empty collections are handled, the one with the larger text first, agents first when equal |
| `StatusEnvelope.BoundStringsCapped` | bin/kookr-status.js:1563-1575 | every string value ends within the cap |
| `StatusEnvelope.BoundStringsCuts` | bin/kookr-status.js:1563-1575 | every string value becomes its longest prefix of whole code points within the cap, and nothing else changes |
| `StatusEnvelope.UnshortenedIsCut` | bin/kookr-status.js:1631-1641 | the message is cut at the cap or 256 bytes, whichever is more; missing details become an empty object |
| `StatusEnvelope.ShowsElsewhere` | bin/kookr-status.js:1620-1623 | no path outside the two collections and the metadata changes |
| `StatusEnvelope.BoundKeepsCounts` | bin/kookr-status.js:1563-1575 | cutting strings changes no collection's length |
| `StatusPaths.GetSet` | bin/kookr-status.js:1577-1592 | reading a path just written gives the written value, whether or not its last key was there |
| `StatusPaths.SetCommutes` | bin/kookr-status.js:1586-1592 | writes to two paths of which neither leads through the other are independent, unless both add a property to the same object |
| `StatusPaths.GetSetOther` | bin/kookr-status.js:1577-1592 | a write changes no path that does not lead through the written one |
| `StatusPaths.StripSize` | bin/kookr-status.js:1546-1548 | the details' size splits into the untouched part, the two collections and the metadata |
| `StatusJson.SizeIsPrinted` | bin/kookr-status.js:1546-1548 | the size of a value is the number of UTF-8 bytes of its JSON text |
| `StatusJson.DigitsReadBack` | bin/kookr-status.js:1651-1655 | a count is written in decimal digits that read back as the count |
| `Utf8.TruncateUtf8` | bin/kookr-status.js:1554-1561 | the longest prefix of whole code points within the byte cap, for every text and cap |
| `Utf8.CutPoint` | bin/kookr-status.js:1558-1559 | stepping back over continuation bytes takes at most three steps and ends at the start of a code point |
| `Utf8.ContinuationBits` | bin/kookr-status.js:1559-1559 | the bytes stepped back over are exactly those with the high bits 10 |
| `Utf8.EncodeThenDecode` | bin/kookr-status.js:1556-1560 | decoding inverts encoding |
| `HookRecords.SplitJsonRecords` | scripts/capture-hooks.ts:142-200 | the scanner loop computes the records and the consumed length that the recursive splitter defines |
| `HookRecords.LineRecord` | scripts/capture-hooks.ts:152-158 | a record that is no object is the text up to the first newline, which is dropped; without a newline nothing is consumed |
| `HookRecords.SpaceIsListed` | scripts/capture-hooks.ts:148-148 | exactly which characters are white space |
| `HookRecords.ScanObject` | scripts/capture-hooks.ts:162-194 | the depth/string/escape loop finds the brace that closes the object, or that there is none |
| `HookRecords.SplitIsIncremental` | scripts/capture-hooks.ts:142-200 | splitting a and then the unconsumed rest of a with b is splitting a+b |
| `HookRecords.SplitIsLossless` | scripts/capture-hooks.ts:142-200 | the consumed text is the records in order with only white space between |
| `HookRecords.IncompleteIffLeftOver` | scripts/capture-hooks.ts:202-206 | a capture is refused iff the splitter left something over |
| `HookPrinter.SplitUndoesPrint` | scripts/capture-hooks.ts:142-200 | every list of JSON objects, printed with any insignificant white space and joined by any white space or none, splits into exactly the printed texts with all input consumed |
| `HookPrinter.ObjectCloses` | scripts/capture-hooks.ts:162-194 | the scan of a printed object ends at its own last brace, whatever its strings contain |
| `HookPrinter.PartialReadIsPrefix` | scripts/capture-hooks.ts:142-200 | a reader of a log being written sees a prefix of its records |
| `HookPrinter.CutRecordIsRefused` | scripts/capture-hooks.ts:202-206 | a log cut inside a record yields the records before it and is refused |
| `DeliveryOwnership.AlwaysInv` | scripts/delivery-ownership-rehearsal.ts:115-215 | for each unit, every state reached by steps that are safe for that unit keeps its ownership invariant, over all interleavings and whatever restarts do to other units |
| `DeliveryOwnership.AttemptsComeFromOwner` | scripts/delivery-ownership-rehearsal.ts:255-314 | every logged attempt for such a unit is by the actor that the durable record names |
| `DeliveryOwnership.OneActorPerUnit` | scripts/delivery-ownership-rehearsal.ts:176-215 | all attempts for the unit come from one actor |
| `DeliveryOwnership.AtMostOneAttempt` | scripts/delivery-ownership-rehearsal.ts:286-314 | at most one attempt for the unit if each actor runs once on it |
| `DeliveryOwnership.RecordedBeforeAttempt` | scripts/delivery-ownership-rehearsal.ts:207-212 | the record is durable before the attempt is logged |
| `DeliveryOwnership.RecordIsPermanent` | scripts/delivery-ownership-rehearsal.ts:115-130 | a recorded delivery never changes again, across restarts that are safe for the unit |
| `DeliveryOwnership.SomeoneWins` | scripts/delivery-ownership-rehearsal.ts:159-175 | once no claim of it is in progress, a listed unit that anyone tried to claim has an owner |
| `DeliveryOwnership.FirstRunCourse` | scripts/delivery-ownership-rehearsal.ts:176-215 | in every interleaving the run that finds a listed unit unclaimed stamps, records its own name and time, is let through and delivers, one phase per move |
| `DeliveryOwnership.LateRunCourse` | scripts/delivery-ownership-rehearsal.ts:186-193 | in every interleaving the phase of a run that starts after the record depends only on its number of moves and on whether it is the owner's |
| `DeliveryOwnership.LoserStandsDown` | scripts/delivery-ownership-rehearsal.ts:286-290 | a run of anyone but the owner stands down after three moves, reports owner and time of the record, and opens no pull request |
| `DeliveryOwnership.OwnerReenters` | scripts/delivery-ownership-rehearsal.ts:187-192 | a further run of the owner is let through and delivers |
| `DeliveryOwnership.GateReadsRecord` | scripts/delivery-ownership-rehearsal.ts:255-268 | in every run whatsoever the gate lets a run through iff the record names its actor at that moment, else it stands down with the record |
| `DeliveryOwnership.FiftyLooks` | scripts/delivery-ownership-rehearsal.ts:219-246 | a claim that is never stamped is looked at exactly fifty times and lost to an unknown owner |
| `DeliveryOwnership.UnlistedFails` | scripts/delivery-ownership-rehearsal.ts:208-210 | a run on a unit without a record in the file fails and records nothing |
| `DeliveryOwnership.OmittedOwnerLetsSecondIn` | scripts/delivery-ownership-rehearsal.ts:109-114 | after a restart without the recorded owner there is a continuation with pull requests of two actors |
| `DeliveryOwnership.RestartInsideClaimLetsTwoIn` | scripts/delivery-ownership-rehearsal.ts:197-214 | so there is after a restart between a claim, stamped or not, and its record |
| `DeliveryOwnership.RestartConditionIsExact` | scripts/delivery-ownership-rehearsal.ts:91-130 | from every state that a run safe for the unit reaches, a restart is safe for it iff no continuation has pull requests of two actors |
| `HookLog.HookFiles.Rotate` | bin/kookr-hook-writer.js:93-108 | the rotation performs its file operations in order and stops where the writer dies |
| `HookLog.HookFiles.AppendRecord` | bin/kookr-hook-writer.js:202-223 | the same for a whole append with its rotation test |
| `HookLog.RenameTargetVacant` | bin/kookr-hook-writer.js:98-107 | every rename targets a vacant slot, from any state |
| `HookLog.AppendEffect` | bin/kookr-hook-writer.js:202-223 | what any crash point leaves: only the oldest kept generation is ever dropped, the record is there iff the call completed |
| `HookLog.RoomyCall` | bin/kookr-hook-writer.js:206-222 | with rotation off, an empty active file, or room under the cap, a call only adds the record to the active file |
| `HookLog.FullCall` | bin/kookr-hook-writer.js:93-107 | otherwise a completed call leaves the record alone in the active file, the old active file as generation 1, each kept generation one slot up and the slots above untouched |
| `HookLog.SmallRunStays` | bin/kookr-hook-writer.js:206-215 | as long as all records fit under the cap, or with rotation off, they are all in the active file |
| `HookLog.GenerationsHoldSuffix` | bin/kookr-hook-writer.js:85-108 | over every run with crashes anywhere and any settings, a reader of no more generations than each call kept sees a gapless in-order suffix of all records |
| `HookLog.GaplessIffUncut` | bin/kookr-hook-writer.js:93-108 | for a reader of any depth, the view is gapless throughout a run of distinct records iff no call drops a non-empty slot below a non-empty one of that depth |
| `HookLog.CallGapless` | bin/kookr-hook-writer.js:93-108 | the same for one call from any files, dying anywhere |
| `HookLog.GenerationsAreBounded` | bin/kookr-hook-writer.js:206-215 | under a fixed positive cap each generation is within the cap or one oversized record |
| `HookLog.SmallerKeepLeavesGap` | bin/kookr-hook-writer.js:93-97 | a run of three appends in which lowering the setting costs a reader the middle record |
| `HookLock.MutualExclusion` | bin/kookr-hook-writer.js:139-168 | at most one writer is inside, in every run where no contender sees a stale marker |
| `HookLock.ReleaseRemovesOwnMarker` | bin/kookr-hook-writer.js:148-152 | a release removes only the releasing writer's own marker |
| `HookLock.MarkerTellsEntry` | bin/kookr-hook-writer.js:144-147 | in every run a new marker tells who entered and when |
| `HookLock.FreeLockIsTaken` | bin/kookr-hook-writer.js:144-152 | a writer that finds no marker enters and then releases |
| `HookLock.HeldLockIsRespected` | bin/kookr-hook-writer.js:154-167 | a marker within the stale limit is left alone; the writer tries again iff its deadline has not come |
| `HookLock.StaleMarkerLetsSecondIn` | bin/kookr-hook-writer.js:155-160 | the first time in a run that a contender finds the marker stale, three steps of it give a run with two writers inside |
| `CaptureRing.RingState.AppendPerByte` | bin/bench-capture-bytes.ts:44-49 | head and buffer after the byte loop |
| `CaptureRing.RingState.AppendSplitCopy` | bin/bench-capture-bytes.ts:51-66 | the two block copies leave the same head and buffer, for appends of any length |
| `CaptureRing.RingState.CapturePerByte` | bin/bench-capture-bytes.ts:21-29 | the retained bytes, oldest first |
| `CaptureRing.RingState.CaptureSplitCopy` | bin/bench-capture-bytes.ts:31-42 | the same bytes from two block copies |
| `CaptureRing.TwoSlicesIsWritten` | bin/bench-capture-bytes.ts:59-65 | two slices laid into the buffer equal writing byte by byte |
| `CaptureRing.WrittenModulo` | bin/bench-capture-bytes.ts:44-49 | the last bytes written sit at their positions modulo the capacity, other positions keep their bytes |
| `CaptureRing.CaptureAfterAppends` | bin/bench-capture-bytes.ts:21-66 | after any appends to an empty ring the capture is the last min(total, capacity) bytes of the stream |
| `SpawnReconcile.PostTaskWithReconcile` | bin/kookr-spawn.js:1289-1328 | it posts again only after no answer or a status from 500 to 599, with a key and tries left, and then always; the total wait is the sum of the delays |
| `SpawnReconcile.ReconcileViaTaskProbe` | bin/kookr-spawn.js:1466-1492 | which read decides the verdict, that the first listed match is returned, at most retries+1 reads, and the total wait |
| `SpawnReconcile.BackoffTotal` | bin/kookr-spawn.js:970-976 | without hints the first four waits total 500, 1500, 3500 and 7500 ms, and each further one is 8000 ms |
| `SpawnReconcile.HintedTotal` | bin/kookr-spawn.js:965-976 | with hints each wait is between 1 and 8000 ms, and a hint within the cap is waited exactly |
| `SpawnReconcile.HintIsServers` | bin/kookr-spawn.js:1303-1321 | the hint that a wait honours is the one the server sent with its refusal |
| `SpawnReconcile.AtMostOneTask` | bin/kookr-spawn.js:1279-1288 | over every run with losses, late arrivals, timeouts and server failures at most one launch takes effect, with or without a key |
| `SpawnReconcile.PostsAreBounded` | bin/kookr-spawn.js:1296-1326 | at most retries+1 POSTs, exactly one without a key |
| `SpawnReconcile.AnswerDecides` | bin/kookr-spawn.js:1296-1327 | in every run: after no answer or a status from 500 to 599 a keyed client with tries left sends again and a keyless one starts listing tasks; everything else is reported as it is |
| `SpawnReconcile.ProcessedIsLaunched` | bin/kookr-spawn.js:1279-1288 | a processed request stands for a task of the launch, whatever became of the answer |
| `SpawnReconcile.SuccessIsReal` | bin/kookr-spawn.js:1265-1276 | a reported success names what was launched |
| `SpawnReconcile.ReadsAreBounded` | bin/kookr-spawn.js:1479-1491 | in every run the client lists tasks at most retries+1 times and stops at the first success |
| `SpawnReconcile.ProbingCreatesNothing` | bin/kookr-spawn.js:1453-1459 | from the first probe to the end of any run the client has sent exactly one POST, sends no more, and a task of its own appears only if that POST was still under way |
| `ProbeSweep.ResolveBySweep` | bin/kookr-spawn.js:857-909 | the sweep terminates; it ends at exactly the first attempt that is answered or after which the default attempts and the budget in force are used up; without an answer it makes at least retries and at most max(retries, ceil(budget/3000)+1) attempts, never more than 101 |
| `ProbeSweep.BudgetIsFirst` | bin/kookr-spawn.js:883-900 | the budget in force is the first selection that extends it, else the default; it is never below the default nor above the maximum |
| `ProbeSweep.SelectProbeWaitBudget` | bin/kookr-spawn.js:719-758 | exactly which status, which recent restart and which override extends the budget, and to how many milliseconds |
| `SignalOutbox.StepLosesNothing` | src/core/signal-outbox.ts:244-378 | from a state in which nothing is lost, a step of any process loses no pending signal iff it is safe |
| `SignalOutbox.NoSignalIsLost` | bin/kookr-signal.js:331-597 | throughout a run every appended signal stays in the outbox until its own 2xx or 4xx answer, by the direct path or a drain, iff every step of the run is safe |
| `SignalOutbox.OpenSignalIsSpooled` | bin/kookr-signal.js:222-224 | in a run of safe steps an appended signal whose answers so far are each no answer or a status other than 2xx and 400 to 499 is in the spool |
| `SignalOutbox.AppendAlone` | src/core/signal-outbox.ts:244-278 | a signal that is not in the spool is put there by the first two steps of its process |
| `SignalOutbox.DuplicateAlone` | src/core/signal-outbox.ts:257-258 | one that is there already is not put there again |
| `SignalOutbox.TransientAlone` | bin/kookr-signal.js:457-560 | without an answer or with another status the process ends and leaves the spool as it is |
| `SignalOutbox.RemoveAlone` | src/core/signal-outbox.ts:284-293 | after a 2xx or 4xx the process takes its signal and no other out of the spool, and drains the rest after a 2xx |
| `SignalOutbox.DrainAlone` | src/core/signal-outbox.ts:300-378 | a drain sends every signal that the bounds keep, oldest first, and leaves exactly those without a 2xx or 4xx, each with one attempt more |
| `SignalOutbox.FailureAlone` | bin/kookr-signal.js:374-381 | a failing file operation changes no file; without its append a process still sends its signal |
| `SignalOutbox.UnsafeStepLoses` | src/core/signal-outbox.ts:300-378 | the first unsafe step of a run loses a signal |
| `SignalOutbox.QuietRunLosesNothing` | src/core/signal-outbox.ts:244-378 | a run in which no append falls between a read and its rewrite and the spool is neither full nor old loses nothing |
| `SignalSpool.BoundKeepsAll` | src/core/signal-outbox.ts:188-218 | the bounds drop nothing iff every entry is fresh and there are not too many |
| `SignalSpool.BoundKeeps` | src/core/signal-outbox.ts:188-218 | the bounds keep a signal iff it is young enough and fewer young ones than the limit stand behind it |
| `SignalSpool.AppendKeeps` | src/core/signal-outbox.ts:259-277 | whichever of its two ways an append takes, it keeps another signal iff that is young enough and has fewer than 199 young ones behind it |
| `SignalSpool.AppendIds` | src/core/signal-outbox.ts:259-277 | the new signal is kept in any case, with the newest 199 of the other young ones |
| `SignalSpool.ReadGivesLastLines` | src/core/signal-outbox.ts:144-181 | reading gives the last line of every id, each once, oldest first, and entries of the same age in the order in which their ids first came |
| `SignalOutbox.PruningDrainLosesYoung` | src/core/signal-outbox.ts:307-316 | a run in which a young signal appended between a drain's read and its write of the bounded spool is wiped |
| `SignalOutbox.ConcurrentAppendsLoseOne` | src/core/signal-outbox.ts:257-278 | a run in which two overlapping appends lose one of the signals |
| `SignalOutbox.RecordedAtMostOnce` | bin/kookr-signal.js:564-594 | the server records each signal id at most once over any number of retries, and exactly once if it was ever answered 2xx |
| `LineReader.Reader.ReadPromptLine` | bin/kookr-spawn.js:1960-1977 | one call takes the first line of the text not yet handed out, however it is split between buffer and chunks |
| `LineReader.ReadAll` | bin/kookr-spawn.js:1957-1978 | the lines depend only on the concatenated text, even when a chunk ends between CR and LF |
| `LineReader.JoinThenRead` | bin/kookr-spawn.js:1962-1973 | lines without newlines survive being joined by any mixture of LF and CRLF and read back, and so does an unterminated last line |
| `ByteLines.ByteChunksReadRight` | bin/kookr-spawn.js:1975-1975 | for every text, the lines of byte chunks are those of the text sent iff every chunk is whole code points |
| `ByteLines.TornLetter` | bin/kookr-spawn.js:1975-1975 | a two-byte letter sent in two chunks is read wrong |
| `PrometheusLabels.EscapeIsOnePass` | relay/prometheus-exposition.ts:12-17 | the three replacement passes equal one left-to-right escape |
| `PrometheusLabels.ReadEscaped` | relay/prometheus-exposition.ts:12-17 | a reader of the text format 0.0.4 recovers the value up to the closing quote |
| `PrometheusLabels.EscapedIsOneLine` | relay/prometheus-exposition.ts:12-17 | an escaped value holds no raw newline |
| `PrometheusLabels.FormatThenRead` | relay/prometheus-exposition.ts:19-23 | reading a formatted label block gives back the labels, whatever their values and whatever follows |
| `PrometheusLabels.FormatLabelsInjective` | relay/prometheus-exposition.ts:19-23 | different label lists with well-formed names format differently |

## Left out

- Building the import graph: the AST walk, specifier resolution and directory listing; the model starts from the adjacency map.
- `checkImportCycles` rendering: a component is printed as an arrow chain in pop order, which need not follow imports.
- `captureRecords` after the completeness test: trimming, `JSON.parse`, redaction and re-serialization of each record.
- JSON objects nested in the details are values: the update in place of `setPath` and the aliasing of the metadata object are not captured, and property order is not part of any statement.
- Maximality of the final agents list: restoring findings in full removes their metadata and may free bytes after the agents were fixed.
- StatusEnvelope.BoundStatusJson: gives no promise when the emptied document does not fit, as the source gives none.
- Strings with lone surrogates: text is taken to be well formed.
- Overlapping read-modify-writes of `children.json` for different units, which could lose a record.
- Torn writes of a single record or spool file, and an empty file left by a crash between opening and writing.
- The hook writer's HTTP push, payload stamping and configuration parsing.
- SignalSpool: malformed lines, which reading skips, and the `lastError` text of an entry.
- How many continuation bytes the platform's UTF-8 decoder covers with one replacement character: a parameter of `ByteLines`.
- A `truncation` property that the details already carry: it is replaced or removed like the metadata written here.
- Matching of listed tasks against a launch (`taskMatchesSpawn`): a parameter of the probe.
- Argument parsing, help and report text, health summaries, exit codes and the rest of the CLI.
- SignalOutbox.NoSignalIsLost: the session fence and quarantine of the daemon's own drain are not modelled; a daemon drain is one more process that drains.
