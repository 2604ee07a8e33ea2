# PulseOn, modelled and proved in Dafny

PulseOn records training metrics in a local store and shows them. Points go in, are
kept, are reduced, and are shown. This project models those four stages and proves
what they promise.

- **In.** Logging threads report through a per-run admission gate and a sender lock
  into a bounded queue; one worker batches, retries and appends; a control thread
  creates, resumes and finalizes runs and shuts the client down. `Pipeline.dfy` is
  this protocol as a step system: any number of clients over one store, every
  interleaving, any clock, any append failure, any crash. `PipelineCounts`,
  `PipelineOwnership`, `PipelineSteps` and `PipelineRows` hold what every step keeps,
  `PipelineTheorems` and `PipelineOwners` the results. `PipelineStale`,
  `PipelineHandover`, `PipelineReading` and `PipelineShutdown` say exactly when the
  promises that can fail do hold, `PipelineContinuations` and `PipelineWorker` build the
  runs in which they fail, and `PipelineExamples` has a concrete one of each. `WriteSide.dfy`, `Reporter.dfy` and
  `Client.dfy` are the same code as objects with loops, tied to the steps.
- **Kept.** `Metrics.dfy` is the meaning of the stored rows: the last-write-wins
  effective series and the summaries derived from it.
- **Reduced and judged.** `Reduction.dfy`, `Alignment.dfy` and `Chart.dfy` are the
  bucketed extrema, the aligned viewport queries and the chart's own window.
  `Evidence.dfy`, `Ranking.dfy` and `Comparison.dfy` grade values and order Runs.
- **Shown.** `Brush.dfy` and `Rendering.dfy` are the interval arithmetic of the
  overview. `ViewerCore.dfy`, `ViewerPipeline.dfy`, `ViewerTheorems.dfy`,
  `ViewerRequests.dfy`, `ViewerDetail.dfy` and `ViewerObjects.dfy` are the viewer's
  request pipeline and reconciler, and `EventChannel.dfy` is its hand-written event
  channel. `PercentEncoding.dfy` is the
  naming of partitions and lock files.

`dafny verify dfyconfig.toml` checks everything.

## Where the code promises less than it seems

Each of these is a proved lemma with a concrete run or input, and each has its exact
condition, proved in both directions.

- A run's status is read before its lock is taken (`client.rs:206-218`, `456-464`), so
  a client can take the lock of a run that was finalized in between, and then log to
  it (`PipelineExamples.StaleStatusReadReopensTerminalRun`). A finalized run stays
  complete and untouched for good if and only if, at that moment, no client that is up
  has read its status as running and is about to take its lock
  (`PipelineStale.FinalizationLastsExactly`, `JustFinalizedLastsExactly`).
- ADR 0005 requires no pending reports once the writer is `closed`, and the storage
  document says that shutdown closes admission atomically. The code drains first and
  takes the sender away later, so a report accepted in between can be lost by a
  shutdown that reports success (`PipelineExamples.ShutdownCanLoseReports`). Only those
  can (`PipelineShutdown.ShutdownLosesOnlyLateReports`). A call that does not time out is
  sure to lose none if and only if, when it begins, no run of the client has an open gate
  that a thread can use, or the worker has already given up and the call cannot succeed
  (`ShutdownCallIsLosslessExactly`); so callers have to finalize or stop logging first.
- Time stamps within a batch are consecutive milliseconds and can run ahead of the
  clock. The next owner of a run starts from the clock again, so its newer value can
  lose against an older one (`PipelineExamples.NextOwnerCanLoseItsWrite`). It cannot if
  and only if no stored row of the run is stamped later than the next owner would stamp
  when it has the lock (`PipelineHandover.HandOverIsSafeExactly`).
- A failed append may leave rows behind. A reader can see them although no counter
  does, and with a clock that steps back they can outrank the retry
  (`PipelineExamples.FailedAppendCanLeaveRows`, `BackwardClockCanReorder`). For one
  append and one point, `PipelineReading.AppendIsReadExactly` and
  `FailureIsUnseenExactly` say exactly when.
- The plain screen query drops points even when all of them fit the budget; the
  aligned one does not (`Reduction.ScreenQueryMayDropPointsThatFit`). It is sure to
  return all of a series if and only if there are at most two points per bucket, which
  is half the budget (`Reduction.ScreenQueryReturnsAllExactly`).
- A viewport wholly beyond a series gets one neighbour from the aligned query and
  nothing from the chart (`Chart.FullQueryIsVisible`).
- `brushable_range` cannot help ranges whose two ends already render to 2^63
  (`Rendering.BrushableRange`).

## Model

| member | source | states |
|---|---|---|
| PipelineCounts.LoggerKeepsCounts | crates/pulseon-core/src/engine/reporting.rs:61-113 | every atomic step of a logging thread keeps: accepted sequences are 1, 2, 3, ... in queue order, also after rejections; stored, in-hand and queued reports together are the accepted log; every counter has its exact value |
| PipelineCounts.WorkerKeepsCounts | crates/pulseon-core/src/engine/reporting.rs:434-554 | every atomic step of the worker, including failed appends and its own end, keeps the same |
| PipelineRows.WorkerKeepsRows | crates/pulseon-core/src/engine/reporting.rs:506-554 | appends and failed appends keep: every stored report has one acknowledging row, stamps and rows increase in enqueue order, and no copy left by a failed attempt outranks it while the clock or the failures allow |
| PipelineSteps.StepKeepsClient | crates/pulseon-core/src/engine/client.rs:168-498 | every step of a client keeps its gates, lock files, active runs and finalization facts consistent, and guarantees the other clients that it only appends to runs it locks |
| PipelineOwnership.OthersKeepClient | crates/pulseon-storage/src/lock.rs:20-60 | no step of another client disturbs what a client relies on |
| PipelineTheorems.ApplyKeepsInv | crates/pulseon-core/src/engine/client.rs:449-498 | every event of the whole system keeps the system invariant |
| PipelineTheorems.ReachableInv | crates/pulseon-core/src/engine/client.rs:449-498 | the invariant holds after every run of events |
| PipelineTheorems.CountersAreExact | crates/pulseon-core/src/engine/reporting.rs:360-378 | accepted is persisted plus pending whenever no counter update is half done, and pending never goes negative, also after writer failure |
| PipelineTheorems.ThroughMeansStored | crates/pulseon-core/src/engine/reporting.rs:440-466 | `persisted_through = k` means that reports 1..k are stored, and between worker updates only those |
| PipelineTheorems.DrainedMeansStored | crates/pulseon-core/src/engine/reporting.rs:140-189 | once `persisted_through` reaches the barrier, everything accepted before the barrier was read is stored, whatever happened in between |
| PipelineTheorems.ShutdownMeansStored | crates/pulseon-core/src/engine/reporting.rs:195-210 | after a successful shutdown the worker has stopped, and everything accepted is stored if and only if it did not fail, which is when nothing is pending |
| PipelineShutdown.ShutdownStoresItsBarrier | crates/pulseon-core/src/engine/reporting.rs:140-189 | the barrier is what was accepted when the shutdown began, and whenever a shutdown later reports success all of that is stored, also after timeouts and retries |
| PipelineShutdown.ShutdownLosesOnlyLateReports | crates/pulseon-core/src/engine/reporting.rs:195-210 | only reports accepted between the barrier and the taking of the sender can be lost; if there are none, everything is stored, the worker ended well and nothing is pending |
| PipelineShutdown.ShutdownCallIsLosslessExactly | crates/pulseon-core/src/engine/reporting.rs:195-210 | at the start of a call on a client with its sender open: however the call goes on without its drain failing, its success means that everything accepted is stored if and only if no published gate of the client is open, or the worker has already given up |
| PipelineShutdown.ShutdownIsLosslessExactly | crates/pulseon-core/src/engine/reporting.rs:203-210 | inside the call, once the sender is taken, the rest of the call is sure to lose nothing if and only if the queue is empty and the worker holds no batch |
| PipelineWorker.WorkerCanStore | crates/pulseon-core/src/engine/reporting.rs:434-468 | from any state in which it has not given up, the worker can still store everything that was accepted, and then waits |
| PipelineWorker.WorkerCanFail | crates/pulseon-core/src/engine/reporting.rs:506-530 | from any state with something unstored, the worker can end without storing it |
| PipelineTheorems.TerminalRunIsComplete | crates/pulseon-core/src/engine/client.rs:449-498 | once a run is terminal, every report accepted for it by the client that sealed it is stored, and of any other client every one unless that client crashed or its writer gave up; its summary matches its rows, and no client can accept or store another one |
| PipelineTheorems.TerminalRunIsFrozen | crates/pulseon-core/src/engine/client.rs:674-716 | if at present no client is about to resume or finalize the terminal run on an earlier reading of its status, then over any further events it keeps its status and rows, gets no accepted report, and no such client appears |
| PipelineStale.FinalizationLastsExactly | crates/pulseon-core/src/engine/client.rs:206-218 | a terminal run stays complete, untouched and closed over every continuation if and only if no client that is up has read its status as running and is about to take its lock; otherwise it can get an open gate again |
| PipelineStale.JustFinalizedLastsExactly | crates/pulseon-core/src/engine/client.rs:456-498 | right after the step that made a run terminal it is complete, it stays so over every continuation under exactly that condition, and the two listings then agree for good |
| PipelineStale.StaleReaderCanStore | crates/pulseon-core/src/engine/client.rs:537-550 | any client that read the status too early and whose writer is idle can store a new row of any point of the terminal run |
| PipelineTheorems.SummaryBranchesAgree | crates/pulseon-storage/src/metric_query.rs:153-185 | the running and the terminal branch of the listing return the same summaries of a terminal run |
| PipelineTheorems.FinalizationStepsMean | crates/pulseon-core/src/engine/client.rs:464-498 | the statements and failures of a finalization one by one: what each leaves in the store, when a failed writer stops it, and which failures open the gate again |
| PipelineTheorems.ShutdownFailuresMean | crates/pulseon-core/src/engine/reporting.rs:195-210 | a shutdown that times out leaves runs and locks as they were; one whose writer failed goes on without success |
| PipelineTheorems.StampsFollowEnqueueOrder | crates/pulseon-core/src/engine/reporting.rs:531-554 | one writer's acknowledging rows and their time stamps strictly increase in enqueue order, for any clock |
| PipelineTheorems.LastWritesAt | crates/pulseon-core/src/engine/reporting.rs:434-468 | the fold of the stored reports into a map by step holds, for each step, exactly the last stored report of it |
| PipelineTheorems.LastWriteWins | crates/pulseon-storage/src/metric_query.rs:322-348 | what a reader derives for a point from time stamps and rowids is the entry of that fold, for any clock if failed appends leave nothing, and for a clock that never goes back whatever they leave; each condition is about that point and its writers only |
| PipelineHandover.SafeHandOver | crates/pulseon-core/src/engine/reporting.rs:434-439 | if no stored row of the run is stamped later than the new owner would stamp, none of its rows is ever stamped before an earlier owner's, and while it keeps the lock no point of the run gets out of order |
| PipelineHandover.LateRowWins | crates/pulseon-core/src/engine/reporting.rs:531-554 | any earlier owner's row that is stamped later makes a next write of its point lose, without any clock going back |
| PipelineHandover.HandOverIsSafeExactly | crates/pulseon-core/src/engine/reporting.rs:434-439 | for an idle owner of the lock, no later write of it is ever stamped before an earlier owner's write if and only if no stored row of the run is stamped later than its next stamp |
| PipelineReading.AppendIsReadExactly | crates/pulseon-storage/src/metric_query.rs:322-348 | after a successful append a reader finds the last write of a point if and only if no row of that point was stored with a later stamp than the write gets |
| PipelineReading.FailureIsUnseenExactly | crates/pulseon-storage/src/project.rs:246-277 | a failed append leaves what is read of a point alone if and only if it committed no report of that point, or only ones stamped before the effective row |
| PipelineOwners.OneWriterAtATime | crates/pulseon-core/src/engine/client.rs:537-566 | at most one client has reports of a run that may still be stored, that client holds the lock, and the rows of a run come in one uninterrupted block per owner, however ownership ended |
| PipelineExamples.ShutdownCanLoseReports | crates/pulseon-core/src/engine/reporting.rs:195-210 | a reachable state with a successful shutdown, a closed writer and one lost report |
| PipelineExamples.StaleStatusReadReopensTerminalRun | crates/pulseon-core/src/engine/client.rs:206-218 | a reachable state in which a terminal run got a row after its summary, so the two listings differ |
| PipelineExamples.BackwardClockCanReorder | crates/pulseon-core/src/engine/reporting.rs:531-554 | a reachable state in which a backward clock and a failed append hide the last write |
| PipelineExamples.FailedAppendCanLeaveRows | crates/pulseon-storage/src/project.rs:246-277 | a reachable state in which a reader sees a row that was never acknowledged |
| PipelineExamples.NextOwnerCanLoseItsWrite | crates/pulseon-core/src/engine/reporting.rs:434-439 | a reachable state in which the next owner's last write loses although no clock ever went back |
| Metrics.WinnersAreRankOne | crates/pulseon-storage/src/metric_query.rs:322-348 | the effective point of every step is the row that the ranking query numbers one |
| Metrics.EffectiveIsRankOne | crates/pulseon-storage/src/metric_query.rs:350-358 | every point of the effective series is such a row |
| Metrics.RankOneIsEffective | crates/pulseon-storage/src/metric_query.rs:350-358 | every such row is in the effective series |
| Metrics.EffectiveAscends | crates/pulseon-storage/src/metric_query.rs:350-358 | the series has strictly ascending steps and belongs to its run and key |
| Metrics.MinimumOf | crates/pulseon-storage/src/write.rs:151-168 | the minimum is attained and no value of the series is below it |
| Metrics.MaximumOf | crates/pulseon-storage/src/write.rs:151-168 | the maximum is attained and no value of the series is above it |
| Metrics.EffectiveIsEmptyOnlyWithoutRows | crates/pulseon-storage/src/write.rs:144-170 | a metric has a summary exactly if the run has a row of it |
| Metrics.SummariesMean | crates/pulseon-storage/src/write.rs:144-170 | a run has a summary of a key exactly if it has a row of it; it holds the number of steps with a row, the last of these steps with the value a reader sees there, and the least and the greatest value a reader sees |
| Metrics.SeriesIsSeen | crates/pulseon-storage/src/metric_query.rs:350-358 | the effective series holds exactly the rows that nothing outranks at their step |
| Values.AtMostMeans | crates/pulseon-storage/src/write.rs:151-168 | the order of values: finite numbers by size between the infinities, not-a-number above all |
| Metrics.SummariesIgnoreOtherRuns | crates/pulseon-storage/src/write.rs:144-170 | rows of other runs never change a run's summaries |
| WriteSide.ReportedIsSteps | crates/pulseon-core/src/engine/reporting.rs:61-113 | a whole `report_metric`, with all four refusals, is a run of atomic steps that ends outside the gate and the lock |
| WriteSide.ReportedMeans | crates/pulseon-core/src/engine/reporting.rs:61-113 | success is answered exactly if the report with the next sequence is the last one accepted; each refusal in exactly its case, changing nothing but the count of full queues |
| WriteSide.ReportedKeeps | crates/pulseon-core/src/engine/reporting.rs:61-113 | it keeps numbering, counters and the relation to the stored rows |
| WriteSide.CollectedIsSteps | crates/pulseon-core/src/engine/reporting.rs:470-490 | collecting takes the queue in order, up to the limit, by atomic steps |
| WriteSide.TriedIsSteps | crates/pulseon-core/src/engine/reporting.rs:506-530 | up to six attempts, each all or partly committed, are a run of atomic steps |
| WriteSide.AttemptsShow | crates/pulseon-core/src/engine/reporting.rs:506-530 | the diagnostics say running after a success, retrying while attempts are left, and failed after the sixth |
| Reporter.PausesMean | crates/pulseon-core/src/engine/reporting.rs:506-530 | the pauses are 50, 100, 200, 400 and 800 milliseconds and would stay at 1000 |
| WriteSide.RoundIsSteps | crates/pulseon-core/src/engine/reporting.rs:434-468 | a whole pass of the worker loop is a run of atomic steps |
| WriteSide.WorkerRunKeeps | crates/pulseon-core/src/engine/reporting.rs:434-468 | any run of worker steps keeps counters, rows and table |
| Reporter.ProjectStore.AppendMetricBatch | crates/pulseon-storage/src/project.rs:246-277 | the loop appends the whole batch, or on a fault the rows before it |
| Reporter.ProjectStore.RebuildMetricAggregates | crates/pulseon-storage/src/write.rs:144-170 | deletes the run's summaries and then inserts those of its effective points; each statement may fail |
| Reporter.ProjectStore.MarkRunTerminal | crates/pulseon-storage/src/project.rs:220-237 | changes the status exactly if it was running, and says so |
| Reporter.MetricReporter.ReportMetric | crates/pulseon-core/src/engine/reporting.rs:61-113 | the step-by-step method has the effect of the specified report; it answers success exactly if it accepted the report, and says when exactly each refusal is answered and that it leaves log, queue and counters alone |
| Reporter.MetricReporter.EnqueueBarrierSequence | crates/pulseon-core/src/engine/reporting.rs:178-189 | the barrier is the number of accepted reports |
| Reporter.MetricReporter.CollectMetricBatch | crates/pulseon-core/src/engine/reporting.rs:470-490 | the loop's batch is the front of the queue, what is left is the rest, and it stops only when full or empty |
| Reporter.MetricReporter.WriteMetricBatch | crates/pulseon-core/src/engine/reporting.rs:531-554 | rows in batch order with consecutive stamps from the later of clock and last stamp; a failure may leave a prefix |
| Reporter.MetricReporter.RetryMetricBatchWrite | crates/pulseon-core/src/engine/reporting.rs:506-530 | the retry loop is the specified sequence of attempts; giving up means five doubling pauses |
| Reporter.MetricReporter.WorkerPass | crates/pulseon-core/src/engine/reporting.rs:440-466 | one pass is the specified round, keeps every invariant and shortens the queue |
| Reporter.MetricReporter.MetricWorker | crates/pulseon-core/src/engine/reporting.rs:434-468 | the loop ends with everything stored and nothing pending, or with a failed writer |
| Reporter.MetricReporter.DrainThrough | crates/pulseon-core/src/engine/reporting.rs:145-176 | success means everything up to the barrier is stored; a timeout that it is not there yet; an error that the writer failed |
| Reporter.MetricReporter.Drain | crates/pulseon-core/src/engine/reporting.rs:140-144 | success means that everything accepted before is stored and nothing is pending |
| Reporter.MetricReporter.Shutdown | crates/pulseon-core/src/engine/reporting.rs:195-210 | a timeout leaves the channel open; anything else closes it and joins the worker; without concurrent logging, success means nothing pending |
| Clients.NativeClient.LogMetricAtStep | crates/pulseon-core/src/engine/client.rs:629-689 | only an open gate lets a report through; success means exactly that it was accepted, and each refusal is answered in exactly its case |
| Clients.NativeClient.AcquireRunWriter | crates/pulseon-core/src/engine/client.rs:537-550 | reuses the active run, or opens a gate under a new lock, or fails exactly if another client holds it |
| Clients.NativeClient.CreateRun | crates/pulseon-core/src/engine/client.rs:168-199 | success makes exactly this run running and locked; a failed insert gives the lock back, also when its row was committed |
| Clients.NativeClient.ResumeRun | crates/pulseon-core/src/engine/client.rs:206-218 | the exact error for every case, and the lock of a running run otherwise |
| Clients.NativeClient.FinalizeOwned | crates/pulseon-core/src/engine/client.rs:464-498 | success, also before a failing flush, leaves the run complete, summarized, closed and unlocked; a failed drain or rebuild reopens the gate; a failed update does not |
| Clients.NativeClient.FinalizeRun | crates/pulseon-core/src/engine/client.rs:449-498 | the checks that come first change nothing when they fail, and each has its error |
| Clients.NativeClient.ReleaseAllRunWriters | crates/pulseon-core/src/engine/client.rs:560-566 | the loop gives back exactly this client's locks |
| Clients.NativeClient.Shutdown | crates/pulseon-core/src/engine/client.rs:338-347 | a timed-out drain keeps runs, locks and client; anything else releases every run; only success closes the client |
| EventChannel.NextKeepsInv | crates/pulseon-viewer/src/worker.rs:114-205 | every step of either side keeps: a stored waker means an empty queue and an open sender, and a parked receiver has its waker stored or about to be called |
| EventChannel.NoLostWakeUp | crates/pulseon-viewer/src/worker.rs:114-205 | a parked receiver with something to receive is always about to be woken; events arrive in send order, none lost or doubled; the stream ends only after the last |
| EventChannel.PollMakesProgress | crates/pulseon-viewer/src/worker.rs:159-172 | a poll delivers the oldest undelivered event, or ends the stream, or parks |
| EventChannel.ReadEventChannel.Send | crates/pulseon-viewer/src/worker.rs:115-129 | appends to the queue of a live receiver and wakes it if it was parked |
| EventChannel.ReadEventChannel.PollReceive | crates/pulseon-viewer/src/worker.rs:159-172 | takes the first event, ends, or stores the waker |
| ViewerCore.SelectionChangesClear | crates/pulseon-viewer/src/core.rs:151-202 | changing project, Runs, metric or axis clears curves and awaited curves, and never the awaited catalog; no change clears nothing |
| ViewerCore.ChoicesSelect | crates/pulseon-viewer/src/core.rs:151-202 | choosing a project, Run, metric or axis selects exactly that: a Run is appended or removed, an eleventh refused, and a new project starts empty |
| ViewerCore.EventsMean | crates/pulseon-viewer/src/core.rs:223-243 | only the awaited result of its kind changes anything; a failure changes nothing that is shown; a detail replaces the shown one |
| ViewerCore.CatalogsMean | crates/pulseon-viewer/src/core.rs:245-282 | a catalog drops from the selection exactly what no longer exists, and clears what is shown exactly if that changed the selection |
| ViewerCore.OverviewsMean | crates/pulseon-viewer/src/core.rs:284-309 | an awaited overview has a brush exactly if its real range renders one unit wide, with that range as home; the old selection stays exactly if it fits, otherwise each end moves as little as possible; without one all is selected |
| ViewerCore.SameOverviewAgain | crates/pulseon-viewer/src/core.rs:284-309 | applying the same overview again leaves the brush as it is |
| ViewerCore.CatalogKeepsOrClears | crates/pulseon-viewer/src/core.rs:245-282 | a catalog keeps only selected Runs that still exist, and either leaves the selection and the curves or clears them |
| ViewerCore.KeptInCatalogOrder | crates/pulseon-viewer/src/core.rs:259-265 | the surviving selected Runs stand in catalog order |
| ViewerCore.ViewportCoversSelection | crates/pulseon-viewer/src/core.rs:113-120 | for every brush over rendered coordinates, also one that ends at 2^63, the viewport holds all coordinates of the selection and is the smallest one in whole units |
| ViewerTheorems.NextKeeps | crates/pulseon-viewer/src/desktop.rs:202-318 | every step of interface and worker keeps the pipeline invariant |
| ViewerTheorems.ShownAndAwaitedAreCurrent | crates/pulseon-viewer/src/core.rs:213-309 | every shown overview or detail, and every awaited generation, belongs to the current Runs, metric and axis |
| ViewerTheorems.GenerationsIncrease | crates/pulseon-viewer/src/worker.rs:293-334 | per kind, results come in strictly increasing generation, and a mismatched payload never arrives |
| ViewerTheorems.LatestWins | crates/pulseon-viewer/src/worker.rs:293-334 | coalescing never drops the newest request of a kind; when nothing is under way, the last event of a kind answered it |
| ViewerTheorems.QuietAwaitsNothing | crates/pulseon-viewer/src/core.rs:218-243 | when nothing is under way no stream is pending |
| ViewerDetail.CommittedBrushIsShown | crates/pulseon-viewer/src/desktop.rs:263-318 | after a committed brush, once nothing is under way and if no result failed and the brush was not moved again, the shown detail fills the viewport of the current brush with the current curves, whatever was selected, refreshed or resized in between |
| ViewerRequests.ActionsAsk | crates/pulseon-viewer/src/desktop.rs:366-420 | which request every action of the user submits, for which Runs, metric, axis, viewport and width, and that its stream awaits it |
| ViewerRequests.ResultsAsk | crates/pulseon-viewer/src/desktop.rs:263-282 | an applied catalog asks for the overview, an applied overview for the detail, and nothing else asks for anything |
| ViewerRequests.OpeningAsks | crates/pulseon-viewer/src/desktop.rs:202-225 | opening a source forgets everything and asks for its catalog |
| ViewerRequests.NobodyToAsk | crates/pulseon-viewer/src/desktop.rs:235-245 | without a worker nothing is asked for or awaited |
| ViewerRequests.WaitingRequests | crates/pulseon-viewer/src/worker.rs:293-313 | catalog before overview before detail, and the newer request of a kind stays |
| ViewerRequests.AnswersCarryTheRequest | crates/pulseon-viewer/src/worker.rs:336-360 | a result is tagged as its request and carries the curves and the viewport that were asked for |
| ViewerTheorems.PipelineSettles | crates/pulseon-viewer/src/desktop.rs:263-282 | every worker step and delivery leaves strictly less to do, follow-up requests included |
| ViewerTheorems.WorkIsPossible | crates/pulseon-viewer/src/worker.rs:316-334 | while something is under way and the worker lives, such a step is possible |
| ViewerObjects.Reconciler.ToggleRun | crates/pulseon-viewer/src/core.rs:171-188 | the search loop removes exactly the selected Run, or adds it unless ten are selected |
| ViewerObjects.Reconciler.ApplyCatalog | crates/pulseon-viewer/src/core.rs:245-282 | the loop keeps the selected Runs in catalog order and clears curves only if the selection changed |
| ViewerObjects.Reconciler.Apply | crates/pulseon-viewer/src/core.rs:223-243 | only the awaited generation of a kind changes anything |
| ViewerObjects.PendingRequests.Push | crates/pulseon-viewer/src/worker.rs:294-306 | the newer of two requests of a kind stays |
| ViewerObjects.PendingRequests.TakeNext | crates/pulseon-viewer/src/worker.rs:308-313 | catalog before overview before detail |
| ViewerObjects.ServeQueue | crates/pulseon-viewer/src/worker.rs:316-334 | one event per requested kind, for its newest request, in that order |
| ViewerObjects.ViewerApp.Submit | crates/pulseon-viewer/src/desktop.rs:235-245 | a fresh generation for every request, awaited only if the worker took it |
| ViewerObjects.ViewerApp.ApplyEvent | crates/pulseon-viewer/src/desktop.rs:263-282 | applies an event and asks for what follows: catalog, then overview, then detail |
| Brush.BrushStaysValid | crates/pulseon-chart-core/src/interaction.rs:268-387 | after any sequence of operations the selection lies inside home and spans at least one unit |
| Brush.Clamp | crates/pulseon-chart-core/src/interaction.rs:295-302 | yields the nearest point between bounds, which its callers are proved never to cross |
| Brush.ResizingMeans | crates/pulseon-chart-core/src/interaction.rs:291-318 | a handle goes where it is put, or to the bound that home and the minimum span set, and the other stays |
| Brush.PanningMeans | crates/pulseon-chart-core/src/interaction.rs:325-345 | both ends move by the distance, or as far as home allows |
| Brush.ZoomingIsRefused | crates/pulseon-chart-core/src/interaction.rs:355-364 | refused exactly without a positive factor and an anchor in the selection; a factor of one changes nothing |
| Brush.ZoomingDividesSpan | crates/pulseon-chart-core/src/interaction.rs:355-382 | the span is divided by the factor, within the minimum span and home |
| Brush.ZoomingKeepsShare | crates/pulseon-chart-core/src/interaction.rs:355-382 | the anchor keeps its share of the span, also in a limited zoom, unless an end of home is in the way |
| Brush.OperationsMean | crates/pulseon-chart-core/src/interaction.rs:268-387 | resetting selects all of home, and a refused operation changes nothing |
| Brush.PanKeepsWidth | crates/pulseon-chart-core/src/interaction.rs:325-345 | panning keeps the width, stops only at home's ends, and panning back undoes it |
| Brush.ZoomNests | crates/pulseon-chart-core/src/interaction.rs:355-382 | zooming in nests inward, zooming out outward, and the anchor stays inside |
| Brush.ZoomKeepsRatio | crates/pulseon-chart-core/src/interaction.rs:355-382 | an unclamped zoom keeps the ratio at which the anchor divides the selection |
| Brush.ZoomInAndOut | crates/pulseon-chart-core/src/interaction.rs:355-382 | zooming in and out again at one anchor restores the brush |
| Brush.CarryOverKeepsWhatFits | crates/pulseon-viewer/src/core.rs:284-300 | a refreshed overview has a brush exactly if home is wide enough, and keeps the old selection exactly if it still fits |
| Brush.CarryOverIsNearest | crates/pulseon-viewer/src/core.rs:284-300 | otherwise each end moves as little as any valid selection allows |
| Brush.CarryOverIsIdempotent | crates/pulseon-viewer/src/core.rs:284-300 | the same overview again changes nothing |
| Brush.BrushState.ZoomAt | crates/pulseon-chart-core/src/interaction.rs:355-382 | the method is the specified zoom; a rejected one leaves the brush unchanged |
| Brush.BrushState.ResizeStart | crates/pulseon-chart-core/src/interaction.rs:291-301 | the method is the specified resize; a rejected one leaves the brush unchanged |
| Brush.BrushState.ResizeEnd | crates/pulseon-chart-core/src/interaction.rs:308-318 | likewise for the right handle |
| Brush.BrushState.PanBy | crates/pulseon-chart-core/src/interaction.rs:325-345 | likewise for panning |
| Rendering.RenderedIsNearestEven | crates/pulseon-viewer/src/query.rs:173-178 | converting a coordinate yields a double, the nearest one, and the even one in a tie (section 4.3.1 of IEEE 754-2019) |
| Rendering.RenderedIsMonotone | crates/pulseon-viewer/src/query.rs:173-178 | conversion keeps order |
| Rendering.NextUpIsNext | crates/pulseon-viewer/src/query.rs:184-190 | the next double is a double above with none in between |
| Rendering.BrushableRange | crates/pulseon-viewer/src/query.rs:173-193 | the result contains the range, is the range if it rendered wide enough, renders wide enough unless both ends render to 2^63 and the range stops short of the last coordinate, and moves one end only, past no double beyond where the range is drawn |
| Rendering.RealBounds | crates/pulseon-viewer/src/query.rs:116-161 | the loops find the attained extent of the drawable points inside the viewport, and nothing if there are none |
| Rendering.BoundsMean | crates/pulseon-viewer/src/query.rs:116-161 | every point of a drawable curve in the closed viewport lies between the bounds, and each bound is such a point |
| Rendering.BrushableHasBrush | crates/pulseon-viewer/src/core.rs:284-290 | a home range is accepted exactly if it renders at least one unit wide |
| Reduction.BudgetCoversBuckets | crates/pulseon-model/src/alignment.rs:82-91 | a screen budget is the product of width and density within 4 and 1000000, and a quarter of it, rounded down, is the number of buckets |
| Reduction.BucketInRange | crates/pulseon-storage/src/metric_query.rs:368-373 | every point falls into one of the buckets |
| Reduction.BucketsAscend | crates/pulseon-storage/src/metric_query.rs:368-373 | later points fall into the same or later buckets |
| Reduction.RankingsMean | crates/pulseon-storage/src/metric_query.rs:374-388 | the four rankings in numbers: smallest and greatest coordinate, least and greatest value, ties by step |
| Reduction.BucketKeepsExtremes | crates/pulseon-storage/src/metric_query.rs:374-388 | every bucket keeps its first, last, least and greatest point |
| Reduction.SeriesKeepsExtremes | crates/pulseon-storage/src/metric_query.rs:374-388 | so does the whole series |
| Reduction.KeptFitsBudget | crates/pulseon-storage/src/metric_query.rs:374-388 | at most four points per bucket are kept |
| Reduction.ScreenQueryFits | crates/pulseon-storage/src/metric_query.rs:360-389 | the result is step-ascending, without duplicates, part of the series, and within the budget |
| Reduction.ScreenQueryKeepsExtremes | crates/pulseon-storage/src/metric_query.rs:360-389 | the result holds the first, last, least and greatest point of the series |
| Reduction.ScreenQueryHoldsExtremes | crates/pulseon-storage/src/metric_query.rs:360-389 | the first and the last point of the series and the earliest of its least and of its greatest values are returned |
| Reduction.ScreenQueryReturnsAllExactly | crates/pulseon-storage/src/metric_query.rs:360-389 | the query returns every series of n points whole if and only if n is at most two, or at most twice a quarter of the budget |
| Reduction.ScreenQueryMayDropPointsThatFit | crates/pulseon-storage/src/metric_query.rs:212-224 | for every budget there is a series that fits it and of which a point is dropped, such as four rising points with the smallest budget |
| Alignment.AlignedQueryFits | crates/pulseon-storage/src/alignment_query.rs:85-141 | at most the budget of inside points and at most two neighbours |
| Alignment.AlignedQueryInOrder | crates/pulseon-storage/src/alignment_query.rs:116-155 | the result is step-ascending without duplicates, and every point is inside or a neighbour |
| Alignment.NeighboursMean | crates/pulseon-storage/src/alignment_query.rs:127-139 | the left neighbour is the last step of the greatest coordinate before the viewport, the right one the first step of the smallest after it |
| Alignment.AlignedQueryReturnsWhatFits | crates/pulseon-storage/src/alignment_query.rs:29-38 | when the inside points fit the budget the reduced query is the full query |
| Alignment.AlignedQueryKeepsExtremes | crates/pulseon-storage/src/alignment_query.rs:97-115 | the first, last, least and greatest inside point are returned |
| Alignment.AlignedQueryKeepsBucketExtremes | crates/pulseon-storage/src/alignment_query.rs:91-115 | the first, last, least and greatest inside point of every bucket is returned |
| Alignment.NoDropMeansAscending | crates/pulseon-storage/src/alignment_query.rs:119-125 | the neighbour-to-neighbour flag is unset exactly if the axis never goes back anywhere |
| Alignment.DerivedAscends | crates/pulseon-storage/src/alignment_query.rs:157-192 | the derived series is step-ascending, and over steps its coordinate is the step |
| Alignment.PointHasRow | crates/pulseon-storage/src/alignment_query.rs:157-192 | every derived point stands for a row that a reader sees: its step and value, and as coordinate the step or the time since the run started |
| Alignment.RowHasPoint | crates/pulseon-storage/src/alignment_query.rs:157-192 | every such row has its derived point |
| Alignment.NegativeMeansBeforeStart | crates/pulseon-storage/src/alignment_query.rs:119-125 | on the elapsed axis the negative flag is set exactly if a row that a reader sees was logged before the run started |
| Alignment.DecreasingMeansLoggedBack | crates/pulseon-storage/src/alignment_query.rs:119-125 | the decreasing flag is set exactly if a later step was logged at an earlier time |
| Alignment.ReadAlignedRows | crates/pulseon-storage/src/alignment_query.rs:46-70 | the loop returns the selected points and the statistics, also when no point is selected |
| Chart.NewSeries | crates/pulseon-chart-core/src/lib.rs:111-121 | accepts exactly finite, non-decreasing points, and otherwise names the first offender and its kind |
| Chart.PartitionPoint | crates/pulseon-chart-core/src/lib.rs:132-138 | bisection finds the number of points before the bound |
| Chart.ShowVisiblePoints | crates/pulseon-chart-core/src/lib.rs:132-143 | the method returns the specified window without leaving the series |
| Chart.VisiblePointsIdempotent | crates/pulseon-chart-core/src/lib.rs:132-143 | applying the window again keeps it whole |
| Chart.FullQueryIsSlice | crates/pulseon-storage/src/alignment_query.rs:116-155 | on an axis that never goes back the full query is one slice: everything inside and the neighbour on each side |
| Chart.FullQueryIsVisible | crates/pulseon-storage/src/alignment_query.rs:127-139 | that slice is the chart's window if and only if the series is empty or reaches into the viewport from both sides |
| Chart.ChartShowsWholeAnswer | crates/pulseon-chart-core/src/lib.rs:132-143 | the chart then drops nothing of the answer |
| Evidence.QualifyLifecycle | crates/pulseon-core/src/engine/query.rs:244-258 | a run that has not finished, or failed, adds its reason and leaves partial evidence at best |
| Evidence.GradesMean | crates/pulseon-model/src/comparison.rs:34-53 | invalid for anything wrong with axis or values, else unavailable for anything missing, else partial for a run that has not finished well, else complete |
| Evidence.CollectObjectiveEvidence | crates/pulseon-core/src/engine/query.rs:208-242 | the evidence records last step, value and all reasons, and is as bad as the worst of them |
| Evidence.EligibleExactly | crates/pulseon-core/src/engine/ranking.rs:137-141 | evidence is eligible if and only if the run finished with a finite last value, and then nothing qualifies it |
| Evidence.EvidenceRecords | crates/pulseon-core/src/engine/query.rs:208-242 | last step and value are those of the summary, and which reason is recorded exactly when |
| Evidence.AlignedEvidence | crates/pulseon-core/src/engine/query.rs:162-206 | all reasons in order, and the greatest severity among them |
| Evidence.AlignedReasonsMean | crates/pulseon-core/src/engine/query.rs:162-206 | each storage reason gives its own reason, and values, a lack of points and the lifecycle give theirs, exactly when they apply |
| Evidence.DrawableMeans | crates/pulseon-viewer/src/query.rs:131-148 | a curve is drawn exactly without any reason against its points |
| Evidence.DrawableEvidenceMakesSeries | crates/pulseon-viewer/src/query.rs:131-148 | drawable evidence always makes a chart series |
| Ranking.BeforeIsOrder | crates/pulseon-core/src/engine/ranking.rs:104-135 | the comparison is a strict total order on different Runs |
| Ranking.RankCandidates | crates/pulseon-core/src/engine/ranking.rs:73-102 | sorting and one pass give each eligible Run one plus the number of strictly better ones |
| Ranking.RankingMeans | crates/pulseon-core/src/engine/ranking.rs:73-135 | the entries are all candidates, eligible ones first by rank, the others after them in request order without a rank |
| Ranking.PlacesFollowTheRule | crates/pulseon-core/src/engine/ranking.rs:73-135 | of two eligible entries the earlier has the better value in numbers, or the same and is older, or as old with the smaller identifier; a rank is one more than the number of Runs with a better value |
| Ranking.TextLessMeans | crates/pulseon-core/src/engine/ranking.rs:123-129 | identifiers compare at the first character in which they differ, and a prefix comes first |
| Ranking.RanksOrderValues | crates/pulseon-core/src/engine/ranking.rs:85-92 | a better value has the lower rank, an equal value the same rank |
| Ranking.RequestOrderDoesNotMatter | crates/pulseon-core/src/engine/ranking.rs:112-129 | the eligible part is the same for every order of the request |
| Ranking.RejectDuplicates | crates/pulseon-core/src/engine/comparison.rs:147-157 | the loop reports the first repeated Run, and nothing exactly if there is none |
| Ranking.BestEligibleRun | crates/pulseon-core/src/engine/ranking.rs:27-38 | the loop finds the eligible Run with the smallest value when minimizing, the greatest when maximizing; of equal ones the oldest, then the one with the smallest identifier; and nothing exactly if none is eligible |
| Comparison.PreferenceFollowsBetterValue | crates/pulseon-core/src/engine/comparison.rs:159-205 | by unfolding the comparison: the preference is conclusive exactly for two eligible Runs and follows the better value |
| Comparison.ComparisonsMean | crates/pulseon-core/src/engine/comparison.rs:159-205 | by unfolding the comparison: deltas, improvement and outcome in numbers, and that they are there exactly for two usable values |
| Comparison.MetricComparisonsMean | crates/pulseon-core/src/engine/comparison.rs:121-145 | by unfolding the comparison: a secondary metric has the same deltas and grade |
| Comparison.PreferenceAgreesWithRanking | crates/pulseon-core/src/engine/comparison.rs:182-194 | main result: in any ranking of both, the preferred Run ranks strictly higher and no preference means the same rank |
| Comparison.SwappingRolesFlips | crates/pulseon-core/src/engine/comparison.rs:159-205 | by unfolding the comparison: swapping the roles negates the deltas and flips outcome and preference |
| Comparison.OppositeDirectionsFlip | crates/pulseon-model/src/comparison.rs:11-18 | by unfolding the comparison: minimizing and maximizing judge a pair in opposite ways |
| Comparison.DeltaLeadsToCandidate | crates/pulseon-core/src/engine/comparison.rs:121-145 | by unfolding the comparison: the delta leads from reference to candidate; the relative delta is absent exactly for a zero reference |
| Comparison.ComparisonIsAsSevereAsItsReasons | crates/pulseon-core/src/engine/comparison.rs:164-164 | main result: a comparison is as incomplete as the worst reason of either side |
| Comparison.ReportsKeepOrder | crates/pulseon-core/src/engine/comparison.rs:96-119 | by unfolding the comparison: reports come in request order, with each candidate's own secondary evidence, which never changes the preference |
| PercentEncoding.PercentEncode | crates/pulseon-storage/src/metric_query.rs:475-486 | the loop encodes byte by byte |
| PercentEncoding.BytesEncode | crates/pulseon-storage/src/metric_query.rs:475-486 | letters, digits, `-`, `.`, `_` and `~` stay and every other byte becomes `%` with its two upper-case digits |
| PercentEncoding.DecodesBack | crates/pulseon-storage/src/metric_query.rs:475-486 | decoding undoes encoding of any byte string |
| PercentEncoding.EncodesToNormalForm | crates/pulseon-storage/src/metric_query.rs:475-486 | only unreserved characters and `%` with two upper-case digits occur (sections 2.1 and 2.3 of RFC 3986) |
| PercentEncoding.NormalFormsAreEncodings | crates/pulseon-storage/src/metric_query.rs:475-486 | every string of that form is the encoding of what it decodes to |
| PercentEncoding.EncodingIsInjective | crates/pulseon-storage/src/lock.rs:27-30 | different keys get different partitions and different runs different lock files |

## Left out

- DuckDB, DuckLake, S3, schema bootstrap and file layout: the store is a sequence of rows, a status map, a table of summaries and a set of locks.
- LTTB reduction: the algorithm is in an extension that is not part of this model.
- The flush of a finished run to Parquet: only its success or failure after the terminal update.
- Python bindings, command line, configuration, rendering, layout, ticks, hit testing and y-padding.
- The mutex around the storage connection: statements of different threads interleave freely, so more runs are covered than can happen.
- Reads of the status, the control thread and the worker are one thread each per client; two threads finalizing one run at once are not covered.
- Mutex poisoning, the flush lock and its interrupt timer, and dropping a client without shutdown.
- Sleeps and deadlines are choices of the environment. A drain without a deadline is covered by the step system; the drain loop of the class ends after finitely many observations.
- The objects of `Reporter.dfy` and `Client.dfy` run one call at a time. The reporter's calls are proved to be runs of the step system; the client's control calls are proved against their own contracts.
- Overflow of sequence numbers, generations and millisecond stamps: unbounded numbers.
- Signed zeros and payload bits of doubles; not-a-number is one value above all others, as the engine sorts it.
- Bucket numbers are computed on integers; on doubles they agree while the ordinal times the bucket count stays below 2^53.
- The Parquet reader: its tie-breaker is the file position instead of the rowid, and its elapsed axis has no run start.
- PanKeepsWidth: over exact reals; on doubles a pan can round, and the code then repairs the minimum span.
- ZoomKeepsRatio: over exact reals, without the neighbouring-double repair of the minimum span.
- DeltaLeadsToCandidate: deltas and relative deltas are exact reals; on doubles they round.
- ShutdownCallIsLosslessExactly: a call whose drain times out ends and leaves the client as it was; what a later call does is said by the lemma about that call.
- CommittedBrushIsShown: after a failed read nothing is claimed, because the viewer then keeps what it showed.
- FullQueryIsVisible: compares coordinates exactly, before they are rounded to doubles.
- LastWriteWins: needs that no row of the point was stamped before an earlier owner's, that no failed append left a row of it for good, and a forward clock or clean failures of its writers; the lemmas of `PipelineExamples` show why each is needed, `PipelineHandover` and `PipelineReading` when each is met.
- TerminalRunIsComplete: excludes runs whose lock was taken on a stale reading of their status; `PipelineStale` says when that can happen.
- SummaryBranchesAgree: excludes the same runs.
- TerminalRunIsFrozen: starts from a state without stale readers; with one, `PipelineStale.FinalizationLastsExactly` shows that it fails.
- MetricReporter.MetricWorker: the loop of the object returns at an empty queue, where the thread would wait for the next report; the step system has the waiting thread.
- MetricReporter.Drain: nobody logs while the object drains; `PipelineTheorems.DrainedMeansStored` has the concurrent case.
- MetricReporter.Shutdown: nobody logs between its drain and the closing of the sender; `PipelineShutdown` has the concurrent case.
- BrushState.ZoomAt: over exact reals, without the neighbouring-double repair of the minimum span.
- BrushState.ResizeStart: likewise over exact reals.
- BrushState.ResizeEnd: likewise over exact reals.
- BrushState.PanBy: likewise over exact reals.
- The condition variable of the event channel, which only blocking test code waits on.
- Panics inside the read worker: it may stop at any time, and then nothing is claimed about pending streams.
