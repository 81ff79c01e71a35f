# Verified model of the smart watering backend and scale

This project models the parts of the smart watering repository in which several steps have to fit
together, and proves what they keep. It covers:

- **Water consumption** (`Samples`, `TransientFilter`, `ConsumptionTypes`, `ConsumptionAverage`,
  `BaselineLaws`, `ConsumptionAudit`, `Finality`, `AverageEstimator`, `CleanSignal`, `WateredSignal`,
  `Combination`, `Numbers`): the estimator with its in-place filter, its baseline with five kinds of reset, its
  hourly windows and its lookahead, and the combination of day and night.
- **Independent evaluation** (`Timeline`, `ConsumptionDiagnostics`, `DiagnosticTheorems`): the timeline that
  explains an estimate, and how it compares with the raw end points.
- **Operations and commands** (`OperationLog`, `Protocol`, `ProtocolSafety`, `ProtocolCalls`, `Database`,
  `Worker`, `Service`): the operation log, the durable queue, the retrying worker and the service calls, as
  steps of one shared database that interleave with each other, with callbacks and with timeouts.
- **Watering detection** (`WateringDetection`, `EventStore`, `EventStoreTheorems`, `ScanConvergence`,
  `ScanConditions`, `WateringScan`, `ScanRanges`, `StoredWaterings`, `SortedSets`): the windowed scan, the
  table of stored waterings, and what rescans of the same and of other ranges do to it.
- **Three state machines**: the nearest-sample search (`NearestSample`), the scale's decoder and anomaly
  filter (`Hx711`, `AnomalyFilter`), and the idempotency middleware (`Idempotency`).

Code that changes things step by step is modelled by classes, arrays and loops, each proved against a
function on values; the properties are lemmas about those functions. Times and weights are `real` numbers,
or integers where the program counts ticks. In the protocol one step is one committed repository call;
`Database.Store.Interfere` and its two variants stand for any finite run of steps of the other participants
between two calls of a worker or a service. `Database.Store.calls` records the calls of one side, and
`ProtocolCalls.Did(a, b, own)` says that from state `a` to state `b` that side has made exactly the calls
`own`, in that order, each when it was possible, among any steps of the others; the contracts of `Worker` and
`Service` name their calls in this way. Service calls exclude one another and nothing else; commands are
queued by service calls only.

Verify everything with `dafny verify dfyconfig.toml` (Dafny 4.11).

## What the proofs found

- A callback is noted on the operation before it is reported, and that note carries the row's `error` status.
  The escape that should let a terminal callback correct a misread acknowledgement therefore opens for a
  callback only when the acknowledgement is stamped later than the callback itself
  (`OperationLog.CallbackCorrectsExactlyWhen`), and never under a clock that does not run backwards
  (`OperationLog.CallbackNeverCorrectsAnError`). `OperationLog.ErrorIsCorrectedExactlyWhen` gives the exact
  condition for every other report.
- What is cancelled from the device card keeps its queued command until a worker sees it. Until then an equal
  request is answered with the id of the cancelled operation and nothing new is queued
  (`Service.CancelledStartBlocksRefill`). For a stop this means that it is never sent, while the device's
  starts are marked as cancelled (`Service.CancelledStopSwallowsStop`). The exact condition, on the state
  before the call, is a queued row with the same URL, path, method and payload whose operation is cancelled:
  `Service.SmartWateringService.EnqueueOperation` and `Service.SmartWateringService.QueueStop` prove both
  directions. A fill first confirms the configuration, and a worker may take the row away meanwhile
  (`Service.CancelledStartMayGo`); the condition of `Service.SmartWateringService.QueueFill` is exact for the
  state at the lookup, and a state before the call without such a row is enough for a new start.
- The branch of `_enqueue` that cancels an operation for a duplicate is never taken, as long as service calls
  exclude one another (`Service.SmartWateringService.EnqueueOperation`).
- Clients read the events by time stamp, and the stamp is taken before the database session begins. Two
  reports stamped out of order can show an operation that has succeeded as merely accepted
  (`OperationLog.ShownStatusNeedsTheClock`). The exact condition, for every run and any stamps, is
  `OperationLog.ShownStatusExactlyWhen`: besides an error with an acknowledgement behind it, it takes an end
  that is stamped before an earlier one.
- Later readings can change how the last five minutes are filtered, and so what was booked for them.
  `Finality.FinalExactlyWhen` says exactly for which samples. What is older than ten minutes is final
  (`Finality.AuditTrailIsFinal`).
- A jump over the configured limit is stored as a valid watering and only the next scan marks it invalid,
  while line 45 of the repository's README says that such jumps are retained as invalid
  (`WateringScan.OneScanIsNotEnough`). `ScanConditions.OverLimitShownExactlyWhen` and
  `ScanConditions.OneScanIsEnoughExactlyWhen` tell from the table before the pass when this happens. Two scans
  do converge, for any table with unique starts and any history (`WateringScan.RescansConverge`).
- The chunk loop of a scan never ends when the overlap is a day or more and the first chunk does not reach
  the end (`WateringScan.ChunkLoopEndsExactlyWhen`).
- The guarantees of the idempotency middleware need runs that are at most a day old; the exact condition is
  `Idempotency.SecondRunExactlyWhen`, and `Idempotency.SlowRunAnswersForAnother` shows a possible course
  in which a response reaches another request. A handler that is cancelled, rather than failing, blocks its
  key for a day (`Idempotency.AbandonedRunBlocksTheKey`).
- Line 39 of the repository's README names watering start and sleep disable as the retried commands; the code
  also retries `/config` and `/sleep/interval`, and so does the model (`Worker.ShouldRetry`).

## Model

| member | source | states |
|---|---|---|
| `Samples.OrderedKeepsEveryReading` | `smart_watering/public_api_app/consumption_average.py:95-98` | sorted as tuples, the samples hold every finite reading with a positive weight exactly as often as it was read, and nothing else |
| `Samples.SortedUnique` | `smart_watering/public_api_app/consumption_average.py:95-98` | two sorted lists with the same samples are equal, so the order in which readings arrive never matters |
| `TransientFilter.ReturnIsFirstConfirmation` | `smart_watering/public_api_app/consumption_average.py:39-57` | the inner search finds `j` exactly when `j` is the first later sample back on the prior trend with no missing minute, no departure beyond 30 g plus loss and no more than five minutes in between |
| `TransientFilter.FindReturn` | `smart_watering/public_api_app/consumption_average.py:39-57` | the search loop with its three exits finds that sample, or none |
| `TransientFilter.Straighten` | `smart_watering/public_api_app/consumption_average.py:49-52` | the rewriting loop puts exactly the excursion on the straight line and touches nothing else |
| `TransientFilter.Sweep` | `smart_watering/public_api_app/consumption_average.py:28-58` | the index loop over the array leaves the filtered samples in place and terminates |
| `TransientFilter.FilterTransientWeights` | `smart_watering/public_api_app/consumption_average.py:18-59` | the whole in-place filter computes the specified filtering; the input stays as it is |
| `TransientFilter.ExcursionIsShort` | `smart_watering/public_api_app/consumption_average.py:33-48` | an excursion lies between two samples at most 360 s apart, steps of at most a minute, strictly inside in time |
| `TransientFilter.ExcursionExactlyWhen` | `smart_watering/public_api_app/consumption_average.py:31-57` | an excursion in plain figures: a jump of more than 10 and at most 30 g within a minute, and the first sample back on the trend (2 g above to 2 g below what may have been lost), reached within five minutes, without a missing minute and without a departure of more than 30 g plus loss |
| `TransientFilter.FilterOnlyStraightensExcursions` | `smart_watering/public_api_app/consumption_average.py:18-59` | length, times, first and last sample are kept; every altered sample lies inside a smoothed excursion, and every excursion that begins outside a smoothed one is smoothed |
| `TransientFilter.FilterStaysInside` | `smart_watering/public_api_app/consumption_average.py:47-53` | an altered sample lies strictly between two unaltered original samples at most 360 s apart, with a weight between theirs |
| `TransientFilter.FilterKeepsPositive` | `smart_watering/public_api_app/consumption_average.py:18-59` | positive weights stay positive |
| `TransientFilter.PlannedExactlyWhenFiltered` | `smart_watering/public_api_app/consumption_average.py:28-59` | a list of samples is the filtered one exactly when it keeps every sample outside the smoothed excursions and lays those on their lines: the functional and the index-by-index description determine each other |
| `AverageEstimator.BaselineRise` | `smart_watering/public_api_app/consumption_average.py:66-90` | the lookahead loop gives the verdict of the recursive classification |
| `ConsumptionAudit.VerdictIsFinal` | `smart_watering/public_api_app/consumption_average.py:66-90` | a verdict other than pending is unchanged by any filtered samples that are appended |
| `ConsumptionAudit.WalkIsFinal` | `smart_watering/public_api_app/consumption_average.py:135-197` | hence everything booked before the first unconfirmed rise is unchanged when filtered samples are appended |
| `Finality.FilterIsFinal` | `smart_watering/public_api_app/consumption_average.py:27-59` | a sample followed by at least 300 s of samples is filtered the same, whatever readings come later |
| `Finality.FinalExactlyWhen` | `smart_watering/public_api_app/consumption_average.py:27-59` | for every sample: no list of later readings changes its filtered value exactly when the scan stops, up to it, at no departure whose search runs off the end of the samples less than 300 s after it began; if it does, one later and positive reading is enough to change the value |
| `Finality.AuditTrailIsFinal` | `smart_watering/public_api_app/consumption_average.py:93-203` | for any readings and any later ones: all that is booked up to 600 s before the last reading (totals, baseline window, intervals) stays as it is, and the windows closed by then stand at the head of both estimates |
| `ConsumptionAudit.PendingIsRecent` | `smart_watering/public_api_app/consumption_average.py:66-90` | a rise is left unconfirmed only if it began less than five minutes before the last sample |
| `ConsumptionAverage.BookedDropsReachTheMinimum` | `smart_watering/public_api_app/consumption_average.py:133-197` | between two resets the baseline is the minimum of the filtered weights, and the drops booked sum exactly to that minimum minus the starting weight: no noise reversal is counted twice |
| `BaselineLaws.NextBaseline` | `smart_watering/public_api_app/consumption_average.py:135-197` | the next baseline told from the samples: a sample after a gap or without time, below the baseline or more than 30 g above it becomes the baseline; one at most 10 g above it leaves it alone; a rise in between leaves it alone exactly when a sample within five minutes, with no missing minute and none above 30 g, is back within the tolerance, or when that is still open |
| `BaselineLaws.WaitsExactlyWhen` | `smart_watering/public_api_app/consumption_average.py:66-90` | the loop waits exactly at a rise of 10 to 30 g for which the samples end, within five minutes and without a missing minute, before one is back or above 30 g |
| `BaselineLaws.StepIsTakenFor` | `smart_watering/public_api_app/consumption_average.py:158-195` | what a step is listed as and what it books, told from the samples: the drop of at most 25 g below the baseline, and nothing for a larger one, a rise or a temporary rise |
| `BaselineLaws.StepIsListed` | `smart_watering/public_api_app/consumption_average.py:158-170` | a counted step joins the open window with its time, what it books and its interval, and a temporary rise counts as filtered |
| `BaselineLaws.GapIsListed` | `smart_watering/public_api_app/consumption_average.py:136-143` | a step of more than an hour closes the window and is listed as a gap, which counts nothing; one without time only closes the window |
| `BaselineLaws.WindowClosesExactlyWhen` | `smart_watering/public_api_app/consumption_average.py:180-197` | a window closes with the step that fills an hour and with no earlier one |
| `BaselineLaws.WindowVerdict` | `smart_watering/public_api_app/consumption_average.py:113-131` | a window that loses at most 25 g an hour counts as it is; one that loses more, beyond the tolerance, gives neither time nor loss, and its intervals stay listed as excluded |
| `BaselineLaws.FilteredAreCounted` | `smart_watering/public_api_app/consumption_average.py:104-105` | as filtered are reported the samples that the spike filter has moved and the temporary rises after it, up to the first rise that is still open |
| `AverageEstimator.Estimator.FinishWindow` | `smart_watering/public_api_app/consumption_average.py:113-131` | closes the window: accepted with its time and loss, or rejected with neither, and every interval relabelled in the loop |
| `AverageEstimator.Estimator.CountStep` | `smart_watering/public_api_app/consumption_average.py:158-195` | adds a counted step to the open window and moves the baseline as the verdict says |
| `AverageEstimator.Estimator.StartAfresh` | `smart_watering/public_api_app/consumption_average.py:137-143` | a gap or a step without time closes the window, lists a gap and takes a new baseline |
| `AverageEstimator.Estimator.StopAtRise` | `smart_watering/public_api_app/consumption_average.py:149-157` | an unconfirmed rise ends the run with everything from there on left pending |
| `AverageEstimator.Estimator.Observe` | `smart_watering/public_api_app/consumption_average.py:135-197` | one turn of the loop keeps accumulators, baseline and intervals equal to the specified walk |
| `AverageEstimator.RunOver` | `smart_watering/public_api_app/consumption_average.py:133-199` | the loop with its early exit ends in the specified tally |
| `AverageEstimator.CalculateAverageConsumption` | `smart_watering/public_api_app/consumption_average.py:93-203` | the whole estimator computes the specified estimate for any readings |
| `ConsumptionAudit.WalkKeepsAccounts` | `smart_watering/public_api_app/consumption_average.py:107-197` | the accounting invariant over every prefix: intervals tile the time so far, counted time and loss match the included intervals |
| `ConsumptionAudit.WindowIsShort` | `smart_watering/public_api_app/consumption_average.py:175-197` | an open window holds less than an hour and a closing one less than two |
| `ConsumptionAudit.EstimateIsAudited` | `smart_watering/public_api_app/consumption_average.py:93-203` | for any readings: intervals of positive length tile the span from first to last valid sample, counted seconds are the included ones, the change is the sum of all interval changes, the rate is never positive and loses at most 25 g/h up to the tolerance per window, and only the last interval may be pending |
| `CleanSignal.CleanSignalIsExact` | `smart_watering/public_api_app/consumption_average.py:93-203` | for a signal without gaps that falls at most 25 g/h the filter is the identity, everything is counted, and the rate is the end-point rate |
| `WateredSignal.WateredSignalIsExact` | `smart_watering/public_api_app/consumption_average.py:93-203` | for a signal without gaps that falls at most 25 g/h between any number of waterings, each more than 30 g, or more than 10 g after a missing minute: the filter is the identity, all time counts, the change is the sum of the losses, the rate their quotient, and every step is listed as what it is |
| `WateredSignal.TwoStretches` | `smart_watering/public_api_app/consumption_average.py:186-203` | two clean stretches with a watering between them: the change is the sum of their two losses |
| `CleanSignal.NoiseRemovedExactlyWhen` | `smart_watering/public_api_app/consumption_average.py:18-59` | the filter restores a shaken steady loss sample by sample exactly when every stretch of noise is an excursion that it confirms at its end |
| `CleanSignal.ShortNoiseIsConfirmed` | `smart_watering/public_api_app/consumption_average.py:28-57` | noise of 10.5 to 29.5 g in either direction that ends within five minutes, with no missing minute meanwhile, is confirmed, whatever its shape and however many such stretches there are |
| `CleanSignal.ExcursionsDoNotMatter` | `smart_watering/public_api_app/consumption_average.py:93-203` | a steady loss with gaps of up to an hour between readings, shaken by any number of confirmed excursions, is measured as without them: all time and loss counted, the rate the true one, and as many samples reported as filtered as are noisy |
| `Combination.CombinedRateIsAnAverage` | `smart_watering/public_api_app/consumption_average.py:214-230` | the combined rate exists exactly when some period has a usable one, and lies within any bounds that hold for all usable rates |
| `Combination.PeriodWithoutRateIsIgnored` | `smart_watering/public_api_app/consumption_average.py:214-231` | a period without a usable rate changes neither rate nor seconds nor grams, wherever it stands |
| `Combination.CombinationConserves` | `smart_watering/public_api_app/consumption_average.py:214-234` | combined seconds and grams are those of all listed intervals |
| `Combination.FilteredAddUp` | `smart_watering/public_api_app/consumption_average.py:232-233` | the intervals and the filtered samples of two groups of periods are listed and added up |
| `Combination.CombinedRateWithoutGaps` | `smart_watering/public_api_app/consumption_average.py:216-230` | without gaps the combined rate is the grams over the hours |
| `Combination.WeightIsRepresentedTime` | `smart_watering/public_api_app/consumption_average.py:216-223` | the weight of a period is its span less what was rejected or left pending |
| `Combination.DayAndNight` | `smart_watering/public_api_app/consumption_average.py:206-230` | two gapless or gapped, nowhere rejected periods are averaged by the length of their spans |
| `Combination.EstimatesMayBeCombined` | `smart_watering/public_api_app/consumption_average.py:200-202` | every estimate meets what the combination relies on |
| `ConsumptionDiagnostics.TimelineBuilder.Append` | `smart_watering/public_api_app/consumption_diagnostics.py:30-45` | extends the last interval object in place or appends a copy; the interval passed in stays as it is |
| `ConsumptionDiagnostics.TimelineBuilder.LayRecord` | `smart_watering/public_api_app/consumption_diagnostics.py:52-55` | one turn of the loop: a hole is filled first, then the interval is laid |
| `ConsumptionDiagnostics.LaySorted` | `smart_watering/public_api_app/consumption_diagnostics.py:47-55` | the cursor loop over the sorted intervals |
| `ConsumptionDiagnostics.BuildTimeline` | `smart_watering/public_api_app/consumption_diagnostics.py:47-57` | the whole timeline as specified, with nothing that existed before modified |
| `ConsumptionDiagnostics.Diagnose` | `smart_watering/public_api_app/consumption_diagnostics.py:9-87` | the report on a supplied result, which is not mutated |
| `Timeline.TimelineCovers` | `smart_watering/public_api_app/consumption_diagnostics.py:47-57` | for intervals that do not overlap: the timeline covers the period exactly once, no two neighbours share decision and label, and counted time and grams are conserved |
| `Timeline.TimelineShowsEverything` | `smart_watering/public_api_app/consumption_diagnostics.py:30-57` | every supplied interval inside the period lies in a shown one with its decision and label, even when intervals overlap |
| `Timeline.NothingIsInvented` | `smart_watering/public_api_app/consumption_diagnostics.py:30-57` | whatever is shown tells the story of a supplied interval, or that there are no measurements |
| `DiagnosticTheorems.PeriodIsFullyShown` | `smart_watering/public_api_app/consumption_diagnostics.py:9-87` | all of that for the estimate of any readings and any period, and the shown time adds up to the length of the period |
| `DiagnosticTheorems.DayIsFullyShown` | `smart_watering/public_api_app/consumption_diagnostics.py:28-57` | the same for the combined day and night result, in either order |
| `DiagnosticTheorems.FiguresFitTogether` | `smart_watering/public_api_app/consumption_diagnostics.py:14-28` | for any readings, estimate and period: the end-point rate over the span is what the end points have lost, the agreement is that rate in percent of the estimated one and given exactly when that is a loss, and the rest is taken over as it is |
| `DiagnosticTheorems.CleanSignalAgrees` | `smart_watering/public_api_app/consumption_diagnostics.py:22-27` | on a clean signal the report agrees with the raw end points, at 100 % whenever weight fell |
| `OperationLog.ShownStatusExactlyWhen` | `smart_watering/domain/repositories.py:1154-1168` | over every run of reports, notes and cancellations, whatever the time stamps: clients see something else than the row status exactly for an error with an acknowledgement behind it, and for another end that is stamped before an earlier one; then they see an acknowledgement if there was one, and an error otherwise |
| `OperationLog.ShownStatusIsRowStatus` | `smart_watering/domain/repositories.py:1154-1168` | under a clock that does not run backwards the events read by time stamp are in the order they were written and the last status among them is the row's, so that only the first case is left |
| `OperationLog.ShownStatusNeedsTheClock` | `smart_watering/domain/repositories.py:1037-1045` | a concrete run, a misread error and a callback of success stamped before it, after which the row says success and clients see accepted |
| `OperationLog.LatestErrorIsLastListed` | `smart_watering/domain/repositories.py:816-824` | the error that decides about the escape is the last one in the order clients read, whatever the stamps |
| `OperationLog.RunRespectsOrder` | `smart_watering/domain/repositories.py:796-881` | over every run the status rank never falls, and success, timeout and cancelled are final |
| `OperationLog.StepRespectsOrder` | `smart_watering/domain/repositories.py:813-861` | an error changes only by a report, through the acknowledgement escape, and to a terminal status |
| `OperationLog.SealedForever` | `smart_watering/domain/repositories.py:814-843` | once the latest error event is no acknowledgement, no run changes the status any more |
| `OperationLog.CallbackCorrectsExactlyWhen` | `smart_watering/callback_app/service.py:48-65` | exactly when a callback, which is noted before it is reported, moves an operation out of error: the latest error event is an acknowledgement stamped later than the callback, and the report is terminal and different |
| `OperationLog.CallbackNeverCorrectsAnError` | `smart_watering/callback_app/service.py:48-65` | so no callback does it that is stamped after all earlier events, and the escape is shut from then on |
| `OperationLog.ErrorIsCorrectedExactlyWhen` | `smart_watering/domain/repositories.py:814-866` | exactly when a report changes an operation in error |
| `OperationLog.ReportLeaves` | `smart_watering/domain/repositories.py:796-881` | a report to an operation that has not ended, of a rank not below the row's, leaves exactly the reported status and one event with that status, detail and type, but for a stop with nothing to stop, which succeeds; any other leaves the row alone and is noted as ignored, unless the escape is open |
| `OperationLog.StatusesInOrder` | `smart_watering/domain/repositories.py:796-881` | queued, sending, accepted, running, and then one of four ends: which reports are late and which go further, status by status |
| `OperationLog.RowTellsTheRun` | `smart_watering/domain/repositories.py:796-965` | over every run that leaves no misread acknowledgement the row has the status of the first end reported or withdrawn, and before that the furthest one reported |
| `ProtocolSafety.RunKeepsInv` | `smart_watering/domain/repositories.py:1500-1726` | every interleaving of the steps of service, workers, callbacks and timeouts keeps the invariant of operation table and queue |
| `ProtocolSafety.NoOperationIsLost` | `smart_watering/domain/repositories.py:1539-1718` | in every reachable state between service calls an operation still queued or sending has its command in the queue, no two commands are equal in URL, path, method and stable payload, no two belong to one operation, and no device has two unfinished waterings |
| `ProtocolSafety.RunRely` | `smart_watering/domain/repositories.py:1635-1726` | over every run a queue row is never rewritten or reused and its start time is written once, and the log of an operation only grows |
| `ProtocolSafety.DeadlineNeverMovesLater` | `smart_watering/domain/repositories.py:1635-1683` | over every run, through however many requeues under new row ids, the start of an operation's command, and so its deadline, never moves later |
| `ProtocolSafety.RequeueKeepsStart` | `smart_watering/domain/repositories.py:1635-1683` | a requeue leaves every other row, and puts the command at the tail with the start it had when it was read, or the one noted for it since |
| `ProtocolSafety.GoneStaysGone` | `smart_watering/domain/repositories.py:1655-1657` | a command that was sent, dropped or given up is never queued again, in particular not by a worker that still holds a copy |
| `ProtocolSafety.OtherKeysUntouched` | `smart_watering/domain/repositories.py:1623-1683` | a worker for one key leaves the subqueue of every other key as it is |
| `ProtocolSafety.RunKeepsLogs` | `smart_watering/domain/repositories.py:796-965` | in every state reachable under a clock that does not run backwards, the events of every operation read by time stamp are in the order they were written, and the last status among them is the row's |
| `ProtocolSafety.EnvironmentRunRely` | `smart_watering/application/service.py:87-118` | what a service call may rely on while any number of steps of the workers, callbacks and timeouts fall between its own: no command is added, none revived, nothing loses its history |
| `ProtocolSafety.RunKeepsCommand` | `smart_watering/domain/repositories.py:1539-1683` | over every run an operation that has a command never gets another one: wherever it is requeued, URL, path, payload and target stay |
| `ProtocolCalls.DidKeeps` | `smart_watering/domain/repositories.py:1500-1726` | whatever calls one side makes among the steps of the others, the invariant holds afterwards and nothing of rows and logs is rewritten |
| `ProtocolCalls.CallIsReported` | `smart_watering/domain/repositories.py:796-881` | every report among the calls of one side has reached its operation at its turn: taken down as it was made, for good if it is an end but an error, or noted as ignored if it came late |
| `ProtocolCalls.DrainedIsThrough` | `smart_watering/domain/workers.py:233-417` | once the queue of a key is empty, every operation that had a command in it is still there, has no command, and no longer waits for one, unless the clearing of its device is about to cancel it |
| `Database.Store.Event` | `smart_watering/domain/repositories.py:796-881` | the event method with its five branches takes exactly the specified step |
| `Database.Store.CancelActiveWateringStarts` | `smart_watering/domain/repositories.py:905-934` | cancels exactly the unfinished waterings of the device, one row after the other, returns them, and leaves every other operation as it is |
| `Database.Store.CancelNonTerminal` | `smart_watering/domain/repositories.py:936-965` | the same for all unfinished operations of the device |
| `Database.Store.TimeoutStaleControllerResults` | `smart_watering/domain/repositories.py:1455-1472` | exactly one timeout is reported to every operation that is accepted or running, collects no statistics and was last updated at least the waiting time ago, and none to any other, after which it has ended, with any steps of the others between the reports; the count is theirs |
| `Database.Store.EnqueueCommand` | `smart_watering/domain/repositories.py:1539-1601` | queues the command, or returns the operation of an equal one and changes nothing |
| `Database.Store.Peek` | `smart_watering/domain/repositories.py:1603-1612` | the oldest command of the key, none exactly when the key has no command |
| `Database.Store.MarkStarted` | `smart_watering/domain/repositories.py:1720-1726` | sets the start time only where there is none |
| `Database.Store.Pop` | `smart_watering/domain/repositories.py:1623-1633` | removes the row and notes it on the operation, if the row is still there |
| `Database.Store.MoveToTailIfOther` | `smart_watering/domain/repositories.py:1635-1683` | re-inserts the command under a new id exactly when it is still queued and another command of the key waits |
| `Database.Store.DropPendingWateringStart` | `smart_watering/domain/repositories.py:1685-1701` | drops exactly the queued start commands of the device |
| `Database.Store.DropDevice` | `smart_watering/domain/repositories.py:1703-1718` | drops exactly the commands of the device |
| `Worker.BackgroundWorker.RunUntilEmpty` | `smart_watering/domain/workers.py:233-417` | whatever the devices answer and the others do, as long as nobody enqueues for the worker's key meanwhile, the loop terminates with no command of the key left; what it has done is a sequence of turns, one after the other on the clock, each for the oldest command, each as described for its answer and its deadline, and no other call; every operation that had a command of the key is still there and no longer waits |
| `Worker.RetryIsDue` | `smart_watering/domain/workers.py:245-255` | over all turns of the loop: before the deadline, reckoned from the row's own start or from when it was first taken up, a retryable failure ends in a retry and never in a timeout; after it, always in the timeout |
| `Worker.FailuresByCommand` | `smart_watering/domain/workers.py:329-387` | command by command, which failures are tried again and what the others end in |
| `Worker.TurnMeans` | `smart_watering/domain/workers.py:265-410` | what a turn with a request leaves in the log of its operation: accepted by the device, discovered or an invalid device, refused, a start failed for good, a stop that found nothing to stop |
| `Worker.BackgroundWorker.Turn` | `smart_watering/domain/workers.py:237-263` | one turn: the calls that take the oldest command up, unless it is in hand, then those that handle it, and no others; the measure falls: commands, then unstarted ones, then the time to the latest deadline |
| `Worker.BackgroundWorker.Handle` | `smart_watering/domain/workers.py:265-410` | the exact calls of a turn by kind of command, answer, deadline and cancellation; the command of an operation already cancelled is taken off and no request is made; a retry stays in place only when no other command of the key waits |
| `Worker.BackgroundWorker.Send` | `smart_watering/domain/workers.py:297-410` | for every answer to the one request made: the report due to it and the row removed, or the retry; the answers are given beforehand |
| `Worker.BackgroundWorker.GiveUp` | `smart_watering/domain/workers.py:329-387` | for every failure: the four that end an operation at once with their report (already stopped, not retryable, permanent, too late), and otherwise no call yet |
| `Worker.BackgroundWorker.GrantRetry` | `smart_watering/domain/workers.py:393-410` | a retry is dropped only for a cancelled operation; otherwise the command goes to the tail with a deadline no later than before, or stays in place when no other waits |
| `Worker.BackgroundWorker.Conclude` | `smart_watering/domain/workers.py:297-328` | the exact calls for an accepted command, a completed, cancelled or invalid discovery, and a refusal |
| `Worker.BackgroundWorker.CollectStatistics` | `smart_watering/domain/workers.py:420-451` | the exact calls: only the row removed if the operation had ended; otherwise the refusals, a timeout before the scan only after the deadline, or running and then the failure, the success, a timeout only after the deadline, or nothing when cancelled; no scan and no success once the deadline is over when it begins; the operation ends |
| `Worker.BackgroundWorker.PickUp` | `smart_watering/domain/workers.py:245-255` | a command is started when it is taken up: with its own start if it has one, and otherwise with the time at which it is; the pick is reported exactly then, with the others going on between the two |
| `Worker.TurnMeasure` | `smart_watering/domain/workers.py:237-410` | the measure of the loop falls whatever a turn has done to its command |
| `Service.SmartWateringService.EnqueueOperation` | `smart_watering/application/service.py:87-109` | a new operation with its command queued exactly when no equal command was queued before; otherwise the operation of that command, with nothing changed, and a cancelled one exactly when it was cancelled before. So the last branch of the code, an operation given up for a duplicate, is never taken |
| `Service.SmartWateringService.QueueFill` | `smart_watering/application/service.py:165-180` | the two refusals and nothing else; the active start, with no call made, if there is one; otherwise a new active start, created and queued, exactly when no equal command was queued at the lookup, which the state before the call guarantees if it had none; otherwise the operation of a command queued before the call, cancelled exactly when that was; the only other calls confirm the configuration, exactly when it was read as unconfirmed and no equal command was queued |
| `Service.SmartWateringService.ConfirmConfig` | `smart_watering/application/service.py:157-163` | the configuration is confirmed exactly when the latest config operation exists and has not succeeded, and no equal command is queued; otherwise no call is made |
| `Service.EqualRequests` | `smart_watering/domain/repositories.py:1500-1537` | two fills are the same request exactly when URL and amount agree, two stops when the URL does, two confirmations when the device type does too, and no two of different kinds |
| `Service.SmartWateringService.QueueStop` | `smart_watering/application/service.py:182-209` | a state is reached, by creating and queueing a stop exactly when none was queued before the call and by no other call, in which the stop named is queued, a POST to the stop path of the device's URL without fields, a cancelled one, which no worker sends, exactly when the queued one had been cancelled; from there exactly the active start is cancelled, noted on both sides, and the queued starts dropped; afterwards the stop is still queued or dealt with, and the device has no active and no queued start |
| `Service.SmartWateringService.ClearDeviceQueue` | `smart_watering/application/service.py:111-118` | the commands are dropped, and then in one step exactly the device's unfinished operations are cancelled, which the count says; no other operation is touched by the call; afterwards the device has no command and no unfinished operation |
| `Service.SmartWateringService.ConfigNotConfirmed` | `smart_watering/domain/repositories.py:1414-1425` | whether the device's config operation updated last is one that has not succeeded, in both directions; false without any |
| `Service.CancelledRowStays` | `smart_watering/public_api_app/card_service.py:197-214` | whatever is cancelled from the device card keeps its command in the queue until a worker comes by: a possible run for any command |
| `Service.CancelledStartBlocksRefill` | `smart_watering/application/service.py:165-180` | so there is a possible run after which a fill with the same grams meets the condition under which it is answered with a cancelled operation |
| `Service.CancelledStartMayGo` | `smart_watering/domain/workers.py:265-270` | in that run a worker may still take the command away before the fill looks for it, so the answer depends on the state at the lookup and not on the one before the call |
| `Service.CancelledStopSwallowsStop` | `smart_watering/application/service.py:182-209` | and one after which a stop meets the condition under which the stop it names is a cancelled one that is never sent |
| `WateringDetection.DetectWateringEvents` | `smart_watering/public_api_app/statistics.py:20-68` | the whole detector finds the specified events, with the two refusals |
| `WateringDetection.ScanRises` | `smart_watering/public_api_app/statistics.py:36-68` | the moving index with the inner window loop |
| `WateringDetection.EveryRiseInOneWindow` | `smart_watering/public_api_app/statistics.py:38-66` | every rise lies in exactly one window |
| `WateringDetection.WindowsArePlaced` | `smart_watering/public_api_app/statistics.py:45-66` | windows open at a rise, reach exactly as far as the window time, and follow one another |
| `WateringDetection.DetectedEvents` | `smart_watering/public_api_app/statistics.py:38-68` | for distinct timestamps the events are strictly ordered and are exactly those of the windows that reach the threshold, each with the latest maximum of its window and the weight before the rise |
| `WateringDetection.DetectionsAreInOrder` | `smart_watering/public_api_app/statistics.py:32-68` | the same order for samples that arrive in any order |
| `EventStore.PlantWateringEventStore.UpsertDetected` | `smart_watering/domain/repositories.py:316-363` | a new row exactly when no row of the device has the event's start, or its peak time and weight, with every field the event's; otherwise the oldest row with the start, which takes peak and amount of a larger event if it is listed, or else the oldest with the peak, as it was; no other row changes |
| `EventStoreTheorems.InvalidateHidesOne` | `smart_watering/domain/repositories.py:394-404` | deleting a watering takes that one off its device's list and none off any other list, reports it exactly when it was listed, and changes nothing the second time |
| `EventStoreTheorems.LastMarkWins` | `smart_watering/domain/repositories.py:406-423` | marking a watering as fertilized changes no list, is read back from that watering and no other, and the last mark wins as if it were the only one |
| `EventStoreTheorems.AboveHidesExactly` | `smart_watering/domain/repositories.py:425-435` | after the clean-up a device lists exactly its waterings up to the limit, other lists are as before, and the count is the number of waterings that are no longer listed |
| `EventStore.PlantWateringEventStore.GroupRows` | `smart_watering/domain/repositories.py:443-448` | the grouping loop: positions by measurement, oldest first |
| `EventStore.PlantWateringEventStore.InvalidateExactDuplicates` | `smart_watering/domain/repositories.py:437-462` | the loops mark exactly the valid rows with an older row of the same measurement, and count them |
| `EventStoreTheorems.InsideHidesExactly` | `smart_watering/domain/repositories.py:464-478` | the same for the smaller waterings strictly inside a time range |
| `EventStoreTheorems.UpsertIdleExactlyWhen` | `smart_watering/domain/repositories.py:316-363` | an upsert changes nothing exactly when some row already accounts for the event |
| `EventStoreTheorems.PassTwice` | `smart_watering/application/watering_detection.py:125-142` | running the upserts of a scan again changes nothing at all, at whatever times, for unique starts, start before peak and events in order |
| `EventStoreTheorems.RunRespectsRows` | `smart_watering/domain/repositories.py:316-478` | over every run of updates starts stay unique, no row disappears, no amount shrinks, and an invalid row is never touched again |
| `EventStoreTheorems.NeverStoredAgain` | `smart_watering/domain/repositories.py:316-363` | after any run of updates an event with the start of a stored row, or with the peak of an invalid one, adds no row and revives none |
| `EventStoreTheorems.RunKeepsIds` | `smart_watering/domain/repositories.py:316-478` | over every run of updates ids stay unique and increasing, which the counts above rely on |
| `StoredWaterings.FirstScanShowsFindings` | `smart_watering/application/watering_detection.py:114-142` | the first scan of a device leaves exactly the waterings it found, in order, each with its start, peak, two weights and amount, all listed and none marked as fertilized |
| `StoredWaterings.ScanKeepsTrue` | `smart_watering/application/watering_detection.py:85-150` | whatever ranges of a history are scanned, every row of the device shows the weights of the history at its start and at its peak, and their difference as its amount |
| `StoredWaterings.UpsertAddsUpExactlyWhen` | `smart_watering/domain/repositories.py:316-363` | an upsert keeps every amount the difference of the two weights exactly when it does not enlarge a row that began with another weight |
| `StoredWaterings.RunKeepsAmounts` | `smart_watering/domain/repositories.py:316-478` | so do runs of updates all of whose upserts are of that kind |
| `StoredWaterings.CopiesHideExactly` | `smart_watering/domain/repositories.py:437-462` | after the clean-up a device lists exactly its waterings without an older row of the same peak and the same two weights, and the count is that of the waterings that went |
| `ScanConvergence.TidyIdleExactlyWhen` | `smart_watering/domain/repositories.py:425-462` | the two clean-ups change nothing exactly when no valid row is over the limit or a later copy |
| `ScanConvergence.RescanOnlyTidies` | `smart_watering/application/watering_detection.py:114-142` | a scan with the same events after another one only cleans up |
| `ScanConvergence.TwoScansConverge` | `smart_watering/application/watering_detection.py:114-142` | a third scan changes nothing |
| `ScanConditions.StoredExactlyWhen` | `smart_watering/domain/repositories.py:316-363` | an event of a scan changes the table at its turn exactly when the table before the pass has its start in no row that is invalid or large enough, and, if its start is in no row at all, its peak in no row that an earlier event leaves alone |
| `ScanConditions.PassCopiesExactlyWhen` | `smart_watering/application/watering_detection.py:125-142` | a pass over a table without valid copies leaves one exactly when an event enlarges a row to the measurement of another, untouched row, and the later of the two is valid |
| `ScanConditions.OverLimitShownExactlyWhen` | `smart_watering/application/watering_detection.py:114-142` | a scan leaves no valid watering over the limit exactly when the table it starts from, cleaned up, accounts for every event over the limit; otherwise the next scan hides what this one stored |
| `ScanConditions.OneScanIsEnoughExactlyWhen` | `smart_watering/application/watering_detection.py:114-142` | one scan is enough exactly when that holds and no event makes a copy: both conditions speak of the table before the pass and the events only |
| `WateringScan.OneScanIsNotEnough` | `smart_watering/application/watering_detection.py:114-142` | a concrete history in which a jump over the limit is found, and is valid after the first scan, against line 45 of the repository's README |
| `ScanConvergence.ScanIsRun` | `smart_watering/application/watering_detection.py:114-142` | a scan is a run of updates, so all that holds over runs holds over scans |
| `ScanConvergence.ScanStaysInDevice` | `smart_watering/application/watering_detection.py:85-149` | a scan never touches the rows of another device |
| `WateringScan.ChunkLoopEndsExactlyWhen` | `smart_watering/application/watering_detection.py:100-112` | the chunk loop ends exactly when the overlap is shorter than a day or the first chunk reaches the end |
| `WateringScan.CollectSamples` | `smart_watering/application/watering_detection.py:96-112` | where it ends, the chunks together hold exactly the samples of the widened range |
| `WateringScan.PlantWateringDetector.ScanDevice` | `smart_watering/application/watering_detection.py:85-150` | the whole scan: other device types, the refusal after the clean-ups, the new table and the four counts |
| `WateringScan.PlantWateringDetector.StoreEvents` | `smart_watering/application/watering_detection.py:130-142` | the upsert loop and its count of new rows |
| `WateringScan.FindingsAreInOrder` | `smart_watering/application/watering_detection.py:113-129` | whatever the history holds, a scan finds waterings in order, in the range and over the threshold |
| `WateringScan.RescansConverge` | `smart_watering/application/watering_detection.py:85-150` | hence scanning any range of any history again and again changes nothing from the third scan on |
| `ScanRanges.EventsSplitWhereQuiet` | `smart_watering/public_api_app/statistics.py:36-68` | where every window opened before a sample is over at that sample, the samples may be cut there: the events of the two parts are those of the whole, in order |
| `ScanRanges.RangesAgreeAfterQuiet` | `smart_watering/public_api_app/statistics.py:36-68` | so two ranges that have such a sample in common find the same waterings from there on, whatever each has before |
| `ScanRanges.PartialRescanOnlyTidies` | `smart_watering/application/watering_detection.py:114-142` | and a scan of one part, after a scan of the whole, only cleans up |
| `NearestSample.WeightAt` | `smart_watering/public_api_app/statistics.py:131-144` | the widening search terminates with the nearest stored measurement up to now, the earlier of two equally near ones, or none exactly when there is none |
| `NearestSample.NearestIsUnique` | `smart_watering/public_api_app/statistics.py:142` | with distinct timestamps no other answer meets that description |
| `Hx711.ReadRawOnce` | `firmware/main/hx711.c:55-81` | the shift loop and sign correction give the two's complement value, in 32-bit arithmetic without overflow |
| `Hx711.DecodingRoundTrips` | `firmware/main/hx711.c:63-77` | decoding undoes the converter's encoding and the other way round |
| `AnomalyFilter.Hx711State.AcceptOrSkip` | `firmware/main/hx711.c:83-138` | the filter's six exits, without 32-bit overflow |
| `AnomalyFilter.AcceptedExactlyWhen` | `firmware/main/hx711.c:83-138` | over any samples: a value is accepted exactly when it is the first, or close to the last accepted one, or the third of three consecutive ones outside that band and close to the first of the three, if that first one opened a candidacy, that is, did not itself agree with a candidate set right before it |
| `AnomalyFilter.LevelIsAdopted` | `firmware/main/hx711.c:98-137` | from whatever state, samples close to each other are skipped at most three times and the last of four or more is accepted |
| `AnomalyFilter.ConstantIsSkippedAtMostTwice` | `firmware/main/hx711.c:98-137` | a constant input is skipped at most twice, whatever came before |
| `AnomalyFilter.BoundsAreReached` | `firmware/main/hx711.c:98-137` | both bounds are reached by concrete inputs |
| `Idempotency.IdempotencyMiddleware.ClaimKey` | `smart_watering/public_api_app/idempotency.py:58-89` | the locked part: clean-up, claim, conflict, pending or replay |
| `Idempotency.IdempotencyMiddleware.Finalize` | `smart_watering/public_api_app/idempotency.py:111-144` | the record after a response, a server error or an exception |
| `Idempotency.IdempotencyMiddleware.Call` | `smart_watering/public_api_app/idempotency.py:25-144` | the whole request, however long its handler runs and whatever others do meanwhile: passed on, refused, replayed or run, and the state it leaves as a course of events; if no handler gets older than the lifetime of a record, the record it leaves is its own |
| `Idempotency.OneRunPerKey` | `smart_watering/public_api_app/idempotency.py:58-135` | in every interleaving of runs shorter than the lifetime of a record, at most one handler per key is at work |
| `Idempotency.OwnRecordStays` | `smart_watering/public_api_app/idempotency.py:112-133` | over any course of others whose runs are young, and until its own claim expires, the record of a handler at work stays its own |
| `Idempotency.FinishedRunIsReplayed` | `smart_watering/public_api_app/idempotency.py:81-101` | after a run with a status below 500 every request with the key gets its response until it expires, or a conflict, and no second run starts |
| `Idempotency.FailedRunFreesTheKey` | `smart_watering/public_api_app/idempotency.py:113-144` | a run that fails frees the key at once, for any request |
| `Idempotency.AbandonedRunBlocksTheKey` | `smart_watering/public_api_app/idempotency.py:111-115` | a run that ends without an outcome blocks its key exactly until its claim expires |
| `Idempotency.SecondRunExactlyWhen` | `smart_watering/public_api_app/idempotency.py:58-80` | a second run of a key starts beside the first exactly when that one is older than the lifetime of a record |
| `Idempotency.SlowRunAnswersForAnother` | `smart_watering/public_api_app/idempotency.py:122-133` | a possible course of events under a forward clock in which a run older than the lifetime of a record finishes and its response is what another request, with another hash, gets |

## Left out

- IEEE rounding: times and weights are real numbers, so the relative tolerance of `isclose` is a bound and not a guard against rounding; limits hold with the slack written out per window.
- Aliasing inside the estimator: its open window holds interval values, not the objects that the program shares with the result and relabels in place; interval objects are modelled in the evaluator, which must not mutate them.
- Sharing of interval objects between combined results; `combine_average_results` is modelled on values.
- Rounded figures, labels and time zones of the report.
- Worker.BackgroundWorker.Handle: the detail texts that the program puts together from an error or a device's name are fixed words here, and the registration of a discovered device is left out.
- Database.Store.TimeoutStaleControllerResults: the reports carry the time of the call, not a time read anew for each.
- Detail texts, reduced to whether they are an acknowledgement, a missing watering, or anything else, after the program's stripping and lower-casing.
- JSON payloads, reduced to the part that the duplicate check compares; a GET command is taken to have no payload, as everywhere in the repository.
- The event table is kept per operation, in id order, and sorted by time stamp where the program reads it so; sources and data of events are dropped, and the `http.` events that the listing leaves out, which carry no status event type.
- `update_payload`, `update_result`, descriptions, correlation ids and the application of a confirmed configuration.
- Which of several configuration operations updated at the same moment counts as the latest, and unknown devices in `enqueue`.
- The worker supervisor with its threads, state file and idle log; a worker process that dies between two calls.
- Exceptions that are not `SmartWateringError`; they end the program's worker.
- `Service.SmartWateringService` covers fills, stops and clearing; sleep, configuration edits, renaming and statistics requests only add calls of the same `EnqueueOperation`.
- `DeviceRegistry`, device snapshots, presence, the CLI, cards, authentication, HTTP, SQLAlchemy, SQLite locking and migrations.
- The branch for `_anomaly_recovery` in a scan: no detector result ever carries that field. The bulk update behind it is modelled.
- `hard_drop` of stored waterings, and the paged list of valid ones.
- Prometheus requests and parsing: a query returns the stored samples of the requested range, the same ones every time, one a minute for range queries.
- Service calls that run at the same time in two processes; each call is taken to exclude the others.
- Worker.BackgroundWorker.RunUntilEmpty: commands queued for the worker's key while its loop runs, which give the loop more to do; with no end to them it has none either.
- NearestSample.WeightAt: for times between 1970 and now; an earlier time makes the program ask for an empty range.
- AnomalyFilter.Hx711State.AcceptOrSkip: the conversion to grams and the averaging of several reads are not modelled, nor is the wait for the converter, which becomes a flag.
- Idempotency.IdempotencyMiddleware.Call: hashes stand for themselves, and headers other than the content type are dropped; the handler's outcome is a parameter.
- Firmware for watering, Wi-Fi and the web server: FreeRTOS tasks and pins.
