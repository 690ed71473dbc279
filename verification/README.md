# descry: a Dafny model of the runner, the sinks and their consumers

descry checks a fixed set of targets, each on its own interval. One scheduler
goroutine owns a heap of entries keyed by their next wall-clock slot, a fixed
pool of workers runs the checks, and every outcome goes to a bounded results
channel and, as one JSON line, to a sink. This project models that machinery
and proves what its comments, documentation and tests promise of it.

The model has three parts.

**Scheduler and pool** (`runner/runner.go`).
`SlotTime` is the slot arithmetic, with instants as unbounded nanoseconds since
Go's zero time and durations as int64 that saturate or wrap. `Turns` and
`LapViews` say what one scheduler iteration, and one burst of iterations at a
frozen clock, do to plain values, whatever the heap's tie-breaking; `Flights`
follows dispatches, marks and acks over any number of laps; `Staleness` and
`BackwardStep` are about runs in which the wall clock moves back.
`Scheduler` is the goroutine itself, a class over an array heap and mutable
entries, proved against those values; `HeapOrder` sets two of its objects side
by side. `Pool` is the whole runner as a step
relation (scheduler, workers, Run, canceller and consumer in any interleaving);
`PoolPlacement`, `PoolShutdown`, `PoolAccounting` and `PoolProgress` are its
invariants, `PoolRuns` what they say about every run, `PoolResults` what reaches
the consumer, `PoolDiscards` what a cancellation costs, and `PoolLiveness` that
nobody ever waits for the consumer.

**Sinks** (`sink/sink.go`, `sink/file.go`). `BufWriter` is the buffered writer,
in place on its buffer, over a writer that may take any prefix and fail. `Sinks`
holds the stdout and the file sink, `Lines` is how a reader splits the output,
`SinkRuns` is every history of publishes, closes, crashes and reopenings, `Retry`
is the runner's publish ladder on top, and `Sessions` ties the sink's methods to
such histories from opening to closing.

**Consumers.** `DrainResults` is the command's drain loop, and `DrainRuns` puts
it behind the runner. `Metrics` is the collector as its methods run one at a
time, with its per-URL cache of handles onto children shared by label.
`Recorders` is the same under concurrency, a step relation for any number of
`record` calls; `RecorderRuns`, `RecorderGauges` and `RecorderRaces` are what
every interleaving keeps, when gauges equal the fold of the runs, and who decides
them when runs overlap; `RecorderCache` is the per-URL cache under races.
`RecorderChoices`, `RecorderStages` and `RecorderOrders` say exactly when any
number of overlapping runs cannot break that, and `RunnerMetrics` puts the
collector on the runner's workers, where the runs of a label that one target has
to itself never overlap. `ConnSlots` is the admin listener's slot protocol.

Places where the code and its own words differ, or the words leave something
open; the model follows the code.

- `runner/runner.go:459-464` bounds the delay after a step back by an entry's
  interval plus min(step, longest interval), which is right
  (`BackwardStep.EveryEntryIsProcessedInTime`), and makes it "one interval exactly
  when the top is stale (always true for a step longer than the longest
  interval)". `docs/OPERATIONS.md:80-85` gives the second condition only. Counted
  from the look at the clock that finds the top stale, it is one interval
  (`BackwardStep.OneIntervalFromTheReanchor`). Counted from the step, an entry is
  processed within one interval if and only if its slot was that close anyway, or
  such a look came before its first slot on the stepped clock had passed
  (`BackwardStep.OneIntervalIff`); where the first look finds the top stale, if
  and only if that look came in time (`BackwardStep.OneIntervalIffWokenInTime`).
  It can come too late, after a long step (`BackwardStep.OneIntervalIsNotEnough`)
  and after one shorter than the longest interval
  (`BackwardStep.OneIntervalIsNotEnoughForAStaleTop`).
- `runner/runner.go:93-95` says that completed runs plus skips equal the slots
  processed as long as nothing was dropped. After a clean, drained run without
  drops an entry's do if and only if, when the context was cancelled, it was not
  waiting for a worker to look at the context, and it was not dispatched any more
  (`PoolDiscards.AccountingIsExactIffNotWaiting`; `PoolRuns.DocumentedEqualityCanFail`
  is a run in which it was waiting).
- `runner/runner.go:508-510` says that the self-heal branch needs a saturated
  difference. It is taken exactly when the unbounded jump exceeds MaxInt64
  (`SlotTime.SelfHealIffJumpOverflows`), which can happen without saturation
  (`SlotTime.SelfHealBelowSaturation`).
- `runner/fuzz_test.go:121-124` says that a tie between two due entries changes
  nothing, which is so (`Turns.LapProcessesDueOnce`), and takes other exact ties
  to be effectively impossible. Where one does occur, it can decide whether a
  backward step is noticed (`Turns.HeapOrderMattersIffTopsDisagree`,
  `Staleness.HeapOrderCanMatter`, `HeapOrder.EndApart`).
- `metrics/label.go:49-51` says that the gauges of targets with one label are
  last-writer-wins. That is so gauge by gauge, at every moment
  (`RecorderRuns.ChildrenHoldCompletedWrites`), but not run by run: overlapping
  runs of one label always leave its gauges as some order of the runs would if and
  only if every choice of a last run for each gauge is what some order leaves
  (`RecorderOrders.ManyCallsEndInAFoldIff`); for two runs, if and only if they set
  at most one gauge to different values (`RecorderOrders.TwoCallsEndInAFoldIff`,
  `RecorderOrders.DownWithStatus200`). Only a user of the library whose targets
  share a label can see this: the command refuses such targets
  (`metrics/doc.go:53-54`), and without them everything exported is the fold of
  the runs (`RunnerMetrics.ExportedIsTheFold`).

An interval of exactly MaxInt64 nanoseconds (292 years) never looks stale, since
`Sub` saturates there. The staleness bounds leave such entries out, and
`Staleness.LongestIntervalBreaksAnArmedState` is a run that shows why.

`dafny verify dfyconfig.toml` checks the project.

## Model

| member | source | states |
|---|---|---|
| SlotTime.SlotAfterIsTheOnlyOne | runner/runner.go:328-337 | the slot after `now` is the one and only instant in (now, now + interval] on the target's phase |
| SlotTime.RestartKeepsTheSlot | runner/runner.go:62-65 | a restart at any instant before a slot leaves the target on that slot |
| SlotTime.JumpIsExactOrNegative | runner/runner.go:505-506 | the int64 jump is the exact multiple while that fits, and negative otherwise: overflow never looks like progress |
| SlotTime.SelfHealIffJumpOverflows | runner/runner.go:507-512 | the self-heal branch is taken exactly when the exact jump exceeds MaxInt64, saturated difference or not |
| SlotTime.SelfHealBelowSaturation | runner/runner.go:507-512 | an input with an unsaturated difference for which the branch is taken |
| SlotTime.StepUntilAfterIsSlotAfter | runner/runner.go:503-506 | adding one interval at a time ends on the first slot after `now` |
| SlotTime.AdvanceIsSlotAfter | runner/runner.go:503-512 | through saturation and wrap-around, the O(1) advance equals both the first slot after `now` and single-interval stepping |
| SlotTime.StaleIsMoreThanOneIntervalAway | runner/runner.go:465-468 | the saturating guard fires exactly for slots more than one interval ahead, except for an interval of MaxInt64 |
| Turns.New | runner/runner.go:264-326 | New panics exactly for a default interval <= 0; otherwise every entry has its own interval or, if that is <= 0, the default one, and its phase is its hash modulo that |
| Turns.ReanchoringSettles | runner/runner.go:465-476 | after a re-anchor pass nothing is due and nothing is stale |
| Turns.LapProcessesDueOnce | runner/runner.go:447-514 | from any slots at all, the first iterations of a lap process every due entry exactly once, and no other |
| Turns.LapEndsAfterDue | runner/runner.go:447-514 | a lap takes one iteration per due entry, at most one re-anchor pass, and the one that arms; where it ends depends only on whether the top left after the due entries is stale |
| Turns.LapWithoutStaleEntries | runner/runner.go:447-514 | with no stale entry a lap puts each due entry on its first slot after `now`, leaves the others alone, and never re-anchors |
| Turns.ScanLapIsALap | runner/fuzz_test.go:121-171 | the fuzz tests' linear-scan scheduler is one of the possible laps |
| Turns.EveryLapIsTheScanLap | runner/fuzz_test.go:121-171 | with no stale entry, every heap order ends where the linear scan ends |
| Turns.AgreeingTopsEndAlike | runner/runner.go:447-476 | if the tied tops left after the due entries are all stale or all fresh, every lap ends alike, however ties are broken |
| Turns.HeapOrderMattersIffTopsDisagree | runner/runner.go:447-476 | two laps that break ties at the heap top differently can end differently if and only if those tops disagree about staleness |
| Staleness.HeapOrderCanMatter | runner/fuzz_test.go:121-124 | two runs from the start with the same clock readings, in which the tie at the top decides whether a backward step is noticed |
| LapViews.LapKeepsItsPromise | runner/runner.go:447-514 | whatever the tie-breaking and whatever acks arrive meanwhile, a lap judges every due entry exactly once, queues the idle and reports the busy ones, and settles every slot |
| LapViews.BurstProcesses | runner/runner.go:491-513 | at any point of a lap, the entries judged so far are those no longer due, once each, and queue and skip reports follow from the judgements in order |
| LapViews.JudgedByArrivals | runner/runner.go:447-501 | a due entry is taken for busy if and only if it was in flight when the lap began and no ack of it arrived by its turn, and its run for started if and only if it was then or has been marked since, with no ack after that |
| LapViews.IterationMakesProgress | runner/runner.go:447-514 | at a frozen clock an iteration that does not arm shrinks the due entries or, with the same ones due, clears staleness, so the loop ends |
| Flights.InFlightIffOpen | runner/runner.go:491-549 | over any number of laps and any readings of the clock, an entry is in flight, pending acks apart, if and only if it has been queued and not been acked since; a skip changes nothing about it |
| Flights.StartedIffRunning | runner/runner.go:546-560 | it is marked started if and only if a worker has marked it and no ack has come since; neither a dispatch nor a skip changes that |
| Flights.JudgedByItsLastDispatch | runner/runner.go:491-531 | a due entry on top is queued if its last dispatch has been acked; otherwise the slot is reported as skipped, as "started" exactly if that run has been marked started |
| Flights.QueuedAgainOnlyAfterAck | runner/runner.go:72-74 | between two dispatches of an entry, over however many laps and skips, an ack of it has been drained: a target never overlaps itself |
| Staleness.TurnKeepsCloseFrom | runner/runner.go:465-513 | every iteration keeps: an entry is less than its own interval after any other slot, or its slot is at most one interval after the last reading |
| Staleness.ArmedSlotsAreClose | runner/runner.go:455-489 | at every armed state, after any backward steps taken while armed, x.next - y.next < x.interval for all entries x and y |
| Staleness.TopGuardBoundsEveryEntry | runner/runner.go:455-464 | whenever the top passes the O(1) guard, every entry is due within its own interval plus the top's |
| Staleness.StepBackInsideABurstBreaksTheBound | runner/runner.go:447-514 | a backward step between two iterations of one burst leaves an entry 900 of its intervals away behind a fresh top |
| Staleness.LongestIntervalBreaksTheBound | runner/runner.go:465-469 | an entry with interval MaxInt64 is passed over by the re-anchor and breaks the pair bound |
| Staleness.LongestIntervalBreaksAnArmedState | runner/runner.go:465-469 | a run that steps back only while armed and reaches an armed state in which such an entry is more than its interval behind another |
| BackwardStep.IterateKeepsInv | runner/runner.go:447-514 | each iteration after the step keeps every unprocessed slot within interval + min(step, longest) of the stepped clock |
| BackwardStep.EveryEntryIsProcessedInTime | runner/runner.go:459-464 | after one backward step s, every entry is processed within its interval plus min(s, longest interval) of elapsed time, whether or not the top is stale and however often acks wake the loop |
| BackwardStep.ReanchorPutsAll | runner/runner.go:465-476 | a look that finds the top stale leaves every entry, those it moves and those it does not, on its first slot from then on |
| BackwardStep.LongStepReanchorsEverything | runner/runner.go:459-462 | after a step longer than the longest interval the first look at the clock finds the top, and every other entry, stale and puts each on its first slot from then on |
| BackwardStep.OneIntervalFromTheReanchor | runner/runner.go:459-464 | from any re-anchor, every entry is processed within exactly its own interval |
| BackwardStep.OneIntervalIff | runner/runner.go:459-464 | after a backward step of any size, an entry is processed within one interval of the step if and only if its slot was at most one interval away on the stepped clock, or a look that found the top stale came before its first slot on that clock had passed |
| BackwardStep.OneIntervalIffWokenInTime | runner/runner.go:459-464 | if the first look finds the top stale, an entry is processed within one interval of the step if and only if its first slot on the stepped clock has not passed by then |
| BackwardStep.OneIntervalIsNotEnough | docs/OPERATIONS.md:80-85 | a step of 1003 with the only interval 10, after which the target is still unprocessed when more than one interval has elapsed |
| BackwardStep.OneIntervalIsNotEnoughForAStaleTop | runner/runner.go:459-464 | a step of 503 with intervals 10 and 1000 and a top found stale at the first look, after which the first target is still unprocessed when more than its interval has elapsed |
| Scheduler.Scheduler.constructor | runner/runner.go:430-437 | every entry on its first slot after the start, a valid heap, nothing in flight |
| Scheduler.Scheduler.Down | runner/runner.go:216-223 | sifting down restores heap order below a position and only permutes; a least element stays |
| Scheduler.Scheduler.Init | runner/runner.go:216-223 | heap.Init orders the whole heap and only permutes; a least root stays |
| Scheduler.Scheduler.RootIsLeast | runner/runner.go:216-220 | in an ordered heap the root has the least `next` |
| Scheduler.Scheduler.RootIsATop | runner/runner.go:452-452 | h[0] is an entry with a minimal slot among all entries |
| Scheduler.Scheduler.DrainDone | runner/runner.go:533-549 | every pending ack is taken, its entry idle and unstarted, all else unchanged |
| Scheduler.Scheduler.RecordSkip | runner/runner.go:522-531 | one more skip counted and reported, as "started" exactly if the entry is marked started |
| Scheduler.Scheduler.Reanchor | runner/runner.go:465-476 | exactly the stale entries move, each to its first slot after `now`, and the heap is valid again |
| Scheduler.Scheduler.AdvanceRoot | runner/runner.go:503-513 | the root alone moves, to its first slot after `now`, the heap is valid again, and a root that is still earliest stays |
| Scheduler.Scheduler.JudgeRoot | runner/runner.go:491-501 | a due root in flight is reported and stays in flight; an idle one is marked and queued, or marked only when the cancelled arm of the select is taken; either way its started flag stays |
| Scheduler.Scheduler.Iterate | runner/runner.go:447-514 | one round of the loop refines the value-level iteration at some top with a minimal slot, in all three branches and on the cancelled path; a judged top is in flight afterwards |
| Scheduler.Scheduler.Lap | runner/runner.go:447-514 | at a frozen clock, with marks, acks and a cancellation at any iteration, the loop ends: every due entry judged exactly once, slots settled and the timer set to the earliest slot, or a return with one entry marked and unqueued |
| Scheduler.Scheduler.Serve | runner/runner.go:447-514 | over any clock readings, marks and acks the heap's slots are a history of iterations, so they are close at every armed state if the clock stepped back only while armed; and nobody is queued twice without an ack in between |
| HeapOrder.EndApart | runner/runner.go:452-476 | two schedulers reach the same slots, flags, queues and reports with different heap roots; one iteration of each at the same reading 1000, after a backward step, re-anchors the first and goes on, and leaves the second as it was, armed for its stale slot |
| Pool.Sized | runner/runner.go:264-311 | the pool has the configured number of workers, but at least one and, with targets, no more than those; the channel has room for two results a target and one more; grace and event config are passed on |
| PoolPlacement.SchedulerKeepsPlaced | runner/runner.go:447-514 | every scheduler step keeps each entry in at most one of `work`, a worker's hands and `done`, with `inflight` and `started` telling which |
| PoolPlacement.WorkerKeepsPlaced | runner/runner.go:554-565 | so does every worker step |
| PoolPlacement.RunStepKeepsPlaced | runner/runner.go:372-426 | so does every step of Run, the canceller and the consumer |
| PoolShutdown.SchedulerKeepsOrder | runner/runner.go:400-426 | every scheduler step keeps the life cycle of a Run in order |
| PoolShutdown.WorkerKeepsOrder | runner/runner.go:554-565 | so does every worker step |
| PoolShutdown.RunStepKeepsOrder | runner/runner.go:372-426 | so does every step of Run itself |
| PoolShutdown.ClosedMeansEveryoneStopped | runner/runner.go:400-420 | `results` is closed at most once, and by then the scheduler has returned and every worker has exited |
| PoolShutdown.NobodyTouchesAClosedChannel | runner/runner.go:118-121 | no send and no second close meets a closed `results`, and no send a closed `work` |
| PoolShutdown.PublishAfterReturnMeansTimeout | runner/runner.go:103-117 | a Publish after Run returned implies ErrShutdownTimeout |
| PoolShutdown.ReturnIsFinal | runner/runner.go:372-381 | nothing changes how Run returned or whether `results` is closed; a second Run changes nothing |
| PoolAccounting.ReportsAreConserved | runner/runner.go:609-615 | in every step, results received, buffered, lost or in a sender's hands change only by a report that begins; so it is for each exact result, outcome and kind included |
| PoolAccounting.StepKeepsEntryBalanced | runner/runner.go:91-99 | every step keeps slots = skips + dispatches and dispatches = runs + discarded + queued or held, per entry |
| PoolAccounting.StepKeepsFleetBalanced | runner/runner.go:91-99 | every step keeps skips + runs = reports begun, and Dropped() = results lost, up to those being counted |
| PoolProgress.SchedulerKeepsDrain | runner/runner.go:533-543 | while the scheduler drains, acks taken plus entries in flight never exceed the number of entries |
| PoolRuns.InFlightIsOnePlace | runner/runner.go:382-386 | until the scheduler returns, an entry is in flight if and only if it is in exactly one of `work`, one worker's hands, or `done` |
| PoolRuns.CancelledDispatchLeavesItNowhere | runner/runner.go:495-500 | the dispatch select that takes ctx.Done leaves its entry in flight, nowhere, with no slot consumed |
| PoolRuns.SendersFindRoom | runner/runner.go:382-386 | neither `work` nor `done` ever holds more than n entries, and neither send ever blocks |
| PoolRuns.BusyWorkersAreBounded | runner/runner.go:275-279 | no more workers than targets are ever busy, and no target is run concurrently with itself |
| PoolRuns.SlotsAndDispatchesAddUp | runner/runner.go:91-95 | per entry at every reachable state: slots (with the one in progress) = skips + dispatches, and dispatches = reported runs + discarded + 1 if queued or held |
| PoolRuns.ResultsAddUp | runner/runner.go:91-99 | fleet-wide at every reachable state: skips + reported runs = received + buffered + Dropped() + those in a sender's hands, at most one each |
| PoolRuns.ObservedSkipsLagSkipped | metrics/doc.go:58-66 | skips received never exceed Skipped() and lag it by exactly those buffered, lost or in the scheduler's hands |
| PoolRuns.DrainedLagIsDropped | metrics/doc.go:61-63 | with nothing buffered and nothing in a sender's hands, skips received lag Skipped() by at most Dropped() |
| PoolRuns.BooksCloseAfterCleanRun | runner/runner.go:91-99 | after a clean Run each entry's slots = its results received, buffered or dropped + its dispatches discarded at shutdown |
| PoolRuns.DocumentedEqualityIffNothingDiscarded | runner/runner.go:93-95 | the documented per-target equality holds of a clean, drained, drop-free run if and only if no dispatch was discarded |
| PoolRuns.DocumentedEqualityCanFail | runner/runner.go:556-560 | a run of one target that ends with one slot processed and no Result |
| PoolDiscards.DiscardedIffWaiting | runner/runner.go:551-560 | in a clean run a dispatch of an entry is discarded if and only if, at the cancellation, it was queued or held by a worker that had not looked, or it is dispatched later |
| PoolDiscards.AccountingIsExactIffNotWaiting | runner/runner.go:91-95 | the documented per-target equality, at its exact condition at the cancellation |
| PoolRuns.SkipsAreClassifiedRight | runner/runner.go:522-527 | ErrSkipped is reported if and only if the worker of the entry's present dispatch had marked it started, else ErrSkippedQueued |
| PoolRuns.StartedMeansInHandOrAcked | runner/runner.go:211-213 | `started` is never set on an idle or queued entry |
| PoolRuns.AckedEntriesAreNotSkipped | runner/runner.go:448-450 | an entry whose ack was on `done` when the drain began is not skipped in that lap, and a drain takes at most n acks |
| PoolRuns.WorkIsFifo | runner/runner.go:382-382 | after d dequeues, what was at position p of the work queue is at position p - d |
| PoolRuns.OvertakingIsBounded | runner/runner.go:491-501 | an entry dispatched behind m < n others is taken by the (m+1)-th dequeue from then on, and by none before |
| PoolRuns.ShutdownIsSafe | runner/runner.go:101-124 | in every run: one close at most, no send after it, every worker gone by then, and a late Publish only after the timeout |
| PoolRuns.ReturnStaysAsItWas | runner/runner.go:421-425 | how Run returned never changes, and after a timeout `results` is never closed |
| PoolRuns.BadConfigStartsNothing | runner/runner.go:376-381 | a rejected event config starts no worker, ever, and closes `results` once |
| PoolShutdown.SecondRunChangesNothing | runner/runner.go:372-375 | a second call of Run, at any time, is refused and changes nothing |
| PoolResults.EveryResultIsGenuine | runner/runner.go:522-531 | in every run, result by result: those received, buffered, lost or in a sender's hands are exactly the runs that ended that way, or the skips made while the present dispatch was, or was not yet, started |
| PoolResults.FailuresAddUp | runner/runner.go:567-603 | failed results, wherever they have got to, are exactly the runs that ended in an error |
| PoolResults.ResultsKeepTheirOrder | runner/runner.go:609-615 | results are received in the order in which they were sent |
| PoolResults.DropsOnlyWhenFull | runner/runner.go:609-615 | Results() never holds more than its capacity, and as long as it has never been full nothing has been dropped |
| PoolLiveness.SchedulerNeverBlocks | runner/runner.go:605-615 | at every reachable state a scheduler that has not returned has a step to take, whatever the consumer does; it waits only on its timer or, without targets, for the cancellation, and once cancelled it returns from either wait or from a dispatch at once |
| PoolLiveness.WorkerNeverBlocks | runner/runner.go:605-615 | so has every worker with an entry in hand, however full Results() is, and every idle one once `work` is closed |
| PoolLiveness.CancelledRunGoesOn | runner/runner.go:400-420 | a cancelled Run that has not returned always has a step to take that needs neither the consumer nor the canceller |
| PoolLiveness.ShutdownWindsDown | runner/runner.go:400-420 | once `work` is closed every such step returns Run or shrinks the number of steps left |
| PoolLiveness.SchedulerGoesRound | runner/runner.go:447-514 | every scheduler step leads on to the next judgement, by way of a whole drain, or out |
| PoolLiveness.EveryRoundDrains | runner/runner.go:447-489 | wherever a round begins, everything acked by then is to be taken before the next judgement, and an ack that ended the wait has been |
| PoolLiveness.NoTargetsOnlyWaits | runner/runner.go:439-442 | without targets the scheduler only waits for the cancellation |
| PoolLiveness.EveryBranchIsOpen | runner/runner.go:447-514 | at every reachable state every choice is open: any entry due, none due or the top stale; timer, ack or cancellation first; a run failing or not; the consumer and the grace period at any time |
| Lines.TailIffEndsWithoutNewline | sink/file.go:53-77 | the last-byte test answers whether the file ends in an unterminated fragment |
| BufWriter.Writer.Flush | sink/sink.go:78-83 | a flush delivers a prefix and keeps the rest buffered; it succeeds if and only if no error was latched and its one write call, if there is anything to write, is not refused; an error is latched |
| BufWriter.Writer.Write | sink/sink.go:37-42 | what was delivered and buffered grows by exactly the bytes reported, whatever the writer below does; it succeeds if and only if nothing was latched and no call is refused; too large a write from an empty buffer is one call with all of it |
| BufWriter.Writer.WriteByte | sink/sink.go:43-45 | the same for one byte |
| Sinks.DeliveredIsHandedLessBuffered | sink/sink.go:66-82 | handed - Buffered() is the number of payload bytes delivered, and they are a prefix of the payload |
| Sinks.BookkeepingIsRight | sink/sink.go:65-88 | hence the torn flag computed from the counters is right: set if a byte got out, kept on failure, cleared on success |
| Sinks.LineSink.WriteLine | sink/sink.go:18-47 | the line is handed over in order up to the reported count; a line larger than the buffer reaches an idle writer as one call |
| Sinks.LineSink.Publish | sink/sink.go:49-88 | some prefix of ("\n" if torn) + record + "\n" is delivered, all of it on success; the torn flag tells; it succeeds if and only if no call below is refused and no error was latched; and the whole record with its newline is in one write call |
| Sinks.LineSink.Stdout | sink/sink.go:98-101 | a new stdout sink is not torn |
| Sinks.LineSink.File | sink/file.go:31-77 | a file sink opens torn if and only if the file is regular and ends in an unterminated fragment |
| Sinks.LineSink.Close | sink/file.go:91-106 | Close offers exactly the newline a torn file is owed, succeeds if and only if the file was open and nothing was refused, and closes the file in any case |
| SinkRuns.PrefixOfPayload | sink/sink.go:49-64 | what a reader sees after any delivered prefix of a payload |
| SinkRuns.SoundAlways | sink/sink.go:56-64 | at every point of every history, an open sink with a clear flag is at the start of a line |
| SinkRuns.EveryLineIsExplained | sink/sink.go:49-88 | after any history of publishes, closes, crashes and reopenings the bytes of the file are the rendering of lines each of which is an initial line, empty, a prefix of a failed record, or a published record, and the published records among them are all successful publishes, once each, in order |
| SinkRuns.SuccessIsForever | sink/file.go:31-51 | a record whose publish succeeded in any session stays a complete line at its place through everything that follows |
| Sessions.CleanOutputIsTheRecords | sink/sink.go:49-64 | as long as nothing fails, over any number of sessions, the output is the initial lines, an unterminated last one ended as its own line, then exactly the records, and the flag of an open sink tells exactly whether there is a fragment |
| Sessions.Open | sink/file.go:31-77 | opening a file sink is the reopening of the histories, whatever flag an earlier sink had |
| Sessions.Session | sink/file.go:31-106 | opening, publishing and closing with the sink's own methods is a history, and over a file that refuses nothing none of it fails |
| Sessions.AppendRecords | sink/sink.go:49-64 | over a healthy file with any contents, a session leaves the old lines, a fragment ended as a line of its own, and exactly the records |
| Retry.PayloadAddsOneSighting | sink/sink.go:65-88 | one attempt, however much it delivers, adds at most one complete or completable copy of a record |
| Retry.OneSightingPerAttempt | sink/sink.go:65-88 | in any history the copies of a record never exceed those at the start plus the attempts to publish it (or one it is a prefix of) |
| Retry.RunOne | runner/runner.go:567-603 | among publishes of other workers: exactly one Result or one drop; at most three attempts, all failed but perhaps the last, fewer exactly after success or at the first failure seen cancelled; nil means the record is the last whole line; each attempt adds it at most once; over an output that refuses nothing the first attempt succeeds |
| Retry.Results.Report | runner/runner.go:609-615 | a result is buffered if there is room, and otherwise counted as dropped |
| DrainResults.Drain | cmd/descry/main.go:352-402 | the loop computes the fold over the results that the next lemmas are about |
| DrainResults.SkipsAreConserved | cmd/descry/main.go:379-400 | per URL after every result: skips received = printed + reported as suppressed + still suppressed |
| DrainResults.EverySkipIsObserved | cmd/descry/main.go:342-378 | the observer sees every skip, printed or not, under the kind it was sent with, and every failure is counted |
| DrainResults.EveryLineHasItsResult | cmd/descry/main.go:357-400 | every printed line is about one result, in the order of the results: a failure, or a skip with its own kind and reading; and every failure has its line |
| DrainResults.SkipIsPrintedIff | cmd/descry/main.go:383-391 | under any clock, a skip is printed if and only if the target has no line yet, its last one is a window old, or the clock reads earlier than then; the window is the target's own interval if it has one |
| DrainResults.SkipLinesAreSpaced | cmd/descry/main.go:345-394 | under a non-decreasing clock, lines of a target are at least a window apart, and a skip is printed if and only if none was or a window has passed |
| DrainRuns.ObservedLagsSkipped | metrics/doc.go:58-66 | in every run of the runner, skips observed by the drain never exceed Skipped() and lag it by at most what is buffered, dropped or in hand |
| DrainRuns.CaughtUpLagIsDropped | metrics/doc.go:61-63 | once the drain has caught up, skipped - observed <= dropped |
| DrainRuns.CountedFailuresLagFailedRuns | cmd/descry/main.go:327-378 | in every run of the runner, the failures counted never exceed the runs that ended in an error and lag them by at most what is buffered, dropped or in hand |
| Metrics.ErrorsSumUp | metrics/metrics.go:288-307 | errors_total summed over its classes = failed runs + observations with a class, unlisted classes folded into "unknown" |
| Metrics.ErrorsByClass | metrics/metrics.go:300-307 | each class counts exactly its own observations, and "unknown" also the failed runs and the observations of unlisted classes |
| Metrics.RunsAreCounted | metrics/metrics.go:311-317 | runs_total of a label counts its runs, the up ones under up |
| Metrics.LabelShowsItsLastRun | metrics/metrics.go:250-257 | the gauges of a label show its last run: seconds are a thousandth of its milliseconds, a time of its own comes before the clock's, a failed run leaves latency and expiry alone, and so does one without an expiry with the latter |
| Metrics.RunUpdatesItsLabelOnly | metrics/metrics.go:288-327 | the writes of a run move its label's statistics by one step of the fold and no other label's |
| Metrics.RecordingKeepsAgreement | metrics/metrics.go:283-328 | if all exported values equal the folds over the history, they do after one more run |
| Metrics.Collector.constructor | metrics/metrics.go:109-156 | a new collector agrees with the empty history: every class at 0, no per-target series |
| Metrics.Collector.Resolve | metrics/metrics.go:338-355 | two URLs with one label get handles onto the same children, and resolving changes no label's statistics |
| Metrics.Collector.Install | metrics/metrics.go:356-362 | the first series installed for a URL stays; the caller gets the one cached |
| Metrics.Collector.TlsGauge | metrics/metrics.go:365-374 | every caller gets the label's one tls child |
| Metrics.Collector.SeriesAreExported | metrics/metrics.go:343-355 | from a URL's first run on, all basic series of its label are exported, the counter it has not moved yet included |
| Metrics.Collector.Write | metrics/metrics.go:283-328 | with handles resolved at any earlier time, recording a run on its own keeps every exported value equal to its fold |
| Metrics.Collector.Record | metrics/metrics.go:283-363 | run on its own, `record` keeps every per-label value equal to the fold of the history by label, moves its own label as the run says, leaves every error class at the number of its observations, and caches the URL |
| Recorders.WriteLandsOnItsLabel | metrics/metrics.go:330-374 | in every interleaving of any number of calls, whoever resolved, cached or swapped in the handles, a write lands on the one child of the run's own label or error class |
| Recorders.EveryJobCanGoOn | metrics/metrics.go:283-374 | in every interleaving a call with writes left can take its next step |
| Recorders.StepKeepsConnected | metrics/metrics.go:330-374 | every lookup, resolve, install, tls load, make and swap, and every write keeps all handles right |
| RecorderRuns.ChildrenHoldCompletedWrites | metrics/label.go:49-51 | at every state of every interleaving a counter equals its completed increments and a gauge holds its last completed write |
| RecorderRuns.ConservedAlways | metrics/metrics.go:283-328 | increments made plus increments pending are those the calls begun so far call for: none is lost or made twice |
| RecorderRuns.CountersEqualAnyFold | metrics/metrics.go:283-328 | once the calls are over, every counter equals the fold of the runs in any order, and errors_total sums to the runs in trouble |
| RecorderRuns.ClassesCountTheirOwn | metrics/metrics.go:300-307 | once the calls are over, in any interleaving, each class has counted exactly its own observations, and "unknown" also the failed runs and unlisted classes |
| RecorderCache.FirstInstallStays | metrics/metrics.go:330-363 | whichever call of a URL looks it up or installs after the first install, racing or not, holds the series installed first |
| RecorderGauges.WritesAreOneStep | metrics/metrics.go:288-327 | the writes of one run, in program order, are together one step of the fold |
| RecorderGauges.SeparateWritesEqualTheFold | metrics/metrics.go:283-374 | if no two calls for a label are amid their writes together, everything exported for it equals the fold of its runs in the order of their first writes, whatever lookups raced and whatever other labels' calls did |
| RecorderGauges.MethodsAgreeWithSteps | metrics/metrics.go:283-374 | for one history, the collector whose methods run one at a time and the interleaved calls export the same for the label and for every error class |
| RunnerMetrics.AloneIfMatched | runner/runner.go:72-74 | with a label of its own for every target, no two calls for a label are ever amid their writes together, since no target is run concurrently with itself |
| RunnerMetrics.ExportedIsTheFold | metrics/doc.go:53-54 | hence, for a fleet the command accepts, everything exported for a label with no call amid its writes is the fold of its target's runs, in every run of runner and collector |
| RecorderRaces.LastWriterDecides | metrics/label.go:49-51 | after any number of overlapping calls for a label each gauge has the value of the one that set it last |
| RecorderChoices.OneVaryingGaugeIsEnough | metrics/metrics.go:288-327 | if the runs set at most one gauge to different values, every choice of a last run for each gauge is what some order of the runs leaves |
| RecorderStages.MixMany | metrics/metrics.go:288-327 | for every choice, gauge by gauge, of one of the calls that set it, some complete interleaving leaves each gauge at its chosen call's value |
| RecorderOrders.ManyCallsEndInAFoldIff | metrics/metrics.go:283-328 | every interleaving of any number of calls of one label ends in the fold of the runs in some order if and only if every choice of a last run for each gauge is what some order leaves |
| RecorderOrders.TwoCallsEndInAFoldIff | metrics/metrics.go:283-328 | every interleaving of two calls of one label ends in the fold of the two runs in one order or the other if and only if they set at most one gauge to different values |
| RecorderOrders.DownWithStatus200 | metrics/metrics.go:288-327 | an error and an observation up with status 200 can leave the label exported as down with status 200, the fold of neither order |
| ConnSlots.StepKeepsInv | cmd/descry/admin.go:75-106 | every step of Accept, connection Close and listener Close keeps the slot count right |
| ConnSlots.SlotsAddUp | cmd/descry/admin.go:58-62 | in every interleaving slots in use = accepts in progress + connections not yet released <= cap, and a connection gives back exactly one slot, once |
| ConnSlots.NobodyIsStuck | cmd/descry/admin.go:62-106 | no release ever blocks; with the listener closed no Accept need wait for a slot, and below the cap none need wait at all |
| ConnSlots.CloseWakesEveryAccept | cmd/descry/admin.go:75-93 | from the first Close of the listener on, `done` has been closed exactly once, and every Accept that waits for a slot can return |
| ConnSlots.ClosedConnGivesBack | cmd/descry/admin.go:96-106 | once somebody has closed a connection its slot is back, exactly once, or its release can be made at once and gives it back |
| ConnSlots.StepsGoForward | cmd/descry/admin.go:75-106 | no step takes anything back: calls and connections only get further, and a closed listener stays closed |

## Left out

- The check itself, event encoding, the CloudEvents SDK and JSON: a check is an outcome that may take any number of steps, a record a sequence of bytes without a newline.
- FNV-1a and URL parsing: a target has a hash, and the metrics label is an uninterpreted function of the URL.
- Timers and clocks: readings are parameters; timers are exact, and wake-ups late by scheduling latency are not in `BackwardStep`.
- When an entry comes due, in `Pool`: the scheduler there may judge any entry at any time, which covers every clock; the link between slots and time is in the scheduler class and the modules about it.
- `Push`, `Pop` and sifting up: the scheduler fixes the heap only at the root, where `heap.Fix` never sifts up.
- The drop warning of `reportResult` and its rate limit; log text throughout.
- Opening, chmod and inspection errors of `NewFileSink`: no sink exists then. `SinkRuns` reopens regular files only.
- Reset to another writer, and bytes added to the output by anyone else.
- A check whose own error wraps ErrSkipped: the drain would take its result for a skip.
- Floating point: gauges and counters are reals, so neither rounding of unix seconds nor the 2^53 limit of counters is modelled. The duration histogram and the runner gauges are not modelled.
- The text of diagnostic lines, URL redaction, configuration, flags, exit codes and the admin HTTP handlers.
- Metrics.Collector.Write: one call at a time, as is `Metrics.Collector.Record`; calls that interleave write by write are in `Recorders`.
- RunnerMetrics.ExportedIsTheFold: one call of `record` per run at most, made by the worker that runs the check; a decorated check that calls it on several goroutines at once is a library use that `Recorders` covers.
- PoolLiveness.ShutdownWindsDown: that every check and every publish comes to an end is assumed; without it `ShutdownGrace` decides, and the measure leaves out tries of a publish.
- Metrics.Collector.Resolve: the six handles are a map from metric to child, and the two statuses of runs_total are two metrics.
- DrainResults.SkipLinesAreSpaced: needs one fixed window per URL and clock readings after Go's zero time, since two targets may share a URL with different intervals and a zero reading means "never".
- Sessions.Session: sessions without a crash; histories with crashes are in `SinkRuns`.
- Flights.StartedIffRunning: workers may mark any entry that is not acked already; which one holds it is in `Pool`.
- Retry.OneSightingPerAttempt: about non-empty records; an empty one looks like the separator line.
- Staleness.ArmedSlotsAreClose: assumes backward steps only while the timer is armed, and leaves out an interval of MaxInt64; a run shows for each that it is needed.
- BackwardStep.EveryEntryIsProcessedInTime: one step, from an armed state without a stale entry, intervals below MaxInt64.
