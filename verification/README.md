# Verified model of the A-share trading system

The Dafny project next to this file models the stateful core of the `ashare_system` Python package and of
its Go data platform, and proves what that core keeps over whole runs.

- **The execution bridge.** `ExecutionGateway`, `GatewayHandlers`, `GatewayRuns`, `GatewayWorker` and
  `ExecutionBridge` model the queue of approved order intents, the claim, receipt and poll handlers of the
  control plane, the Windows worker, and all of them together as a step system with any number of workers,
  lost messages, crashes and stale-claim retries. `GatewayAnswers` says field by field what each operation
  answers and writes, and when the retry releases a claim. `BoundedLog` is the "append and keep the last N"
  idiom of every stored log.
- **The Go lane.** `Lane` interleaves callers, dispatcher, goroutines and semaphore at channel operations.
- **Broker-state reconciliation.** `Reconciliation` models startup recovery and the reconciliation service on
  journals of records that are updated in place.
- **Guards of the scheduler.** `FastPositionWatch` (sell accounting, lots, the pending-sell tracker),
  `DeepPositionWatch` (the deep scan and the order journal it remembers by), `RegimeGuard` (days of confirmation), `CrontabWeekdays` (weekday translation).
- **Caches and merges.** `Retention`, `BehaviorProfiles` and `DossierRefresh` model the precompute service,
  `RuntimeConfig`, `RuntimeConfigManager` and `RuntimeConfigValidation` the nested configuration update (as a
  function, in place on dictionary objects, and with the validation that follows it), `SupervisionTasks` the task lifecycle, `Portfolio`, `StableSort` and `ReverseRepo` the
  reverse-repo refill, `ThemeKeywords` the theme filter. `Text` holds `str.strip`, `str.lower` and `str.replace`, `Wrappers`
  the option type.

Times are integers on one time line (seconds in the gateway, microseconds elsewhere), and amounts of money
are integers or reals without rounding. Clocks, network answers, broker results and the services behind an
interface are parameters. Python methods that change dictionaries and lists in place are methods on classes
or loops, each proved equal to a function, and the properties are then proved about those functions.

## What the proofs found

- The claim handler grants a claimed intent again to the source that holds it. Submitting at most once per
  release therefore holds exactly for fleets with pairwise distinct source ids
  (`OncePerReleaseIffDistinctSources`).
- A claimed intent without a readable claim time, and without a readable report if the time is blank, is never
  released by the retry (`RetryReleasesIff`).
- When the submitter has returned, the worker reports a failure exactly if the result is no dictionary, its
  status text says "failed" or is none of the supported ones, or another of its fields does not fit the receipt
  (`ReturnedSubmitFailsIff`); "PENDING", the status of a new broker order, is an unsupported text, and a latency
  that is no number does not fit (`PendingIsUnsupported`; the repository's own submitters answer "submitted" with
  fields that fit). The receipt of that failure ends the claimed intent in the store, although the broker was called
  (`UnreadableResultEndsIntent`). The reported claim count exceeds the submissions exactly when a reply says both
  "claimed" and "not ok" (`ClaimedCountIsSubmissions`).
- Submit and dispatch of the Go lane put no bound on outstanding work: any number of jobs can be accepted
  before one has started (`QueueGivesNoBackpressure`).
- The fast scan stores symbols stripped and looks them up raw, so a symbol with outer white space is queued
  again at once (`QueuedAgainIff`); a scan that raises after queueing loses its marks (`AbortedScanForgets`).
- A late failure of the bookkeeping after a placed order is counted as submitted and as an error, in both scans
  (`SellsAreAccounted`, `DeepSellsAreAccounted`). The deep scan remembers sells only by the order journal, which
  the gateway plane does not write, so there every deep scan queues the same sell again (`GatewayScansRepeat`).
  A fast scan writes that journal without reading it, and can so add a second pending sell (`OnePendingSellIff`).
- An inactive regime guard followed by a blank label reads as available (`GuardWithoutTransitionIff`).
- The weekday translation fails for ranges that start at Sunday 0 (`RangeKeepsWeekdaysIff`), for most `*/n`
  (`SteppedStarKeepsWeekdaysIff`), and for a list that goes on after a step unless its remaining numbers happen to
  name weekdays that come before (`ListAfterStepKeepsWeekdaysIff`); a step on the last item alone is translated
  correctly (`StepOnLastKeepsWeekdays`).
- A behaviour profile record without a profile would be stored but not read back, so a better record could be
  lost (`ProfilelessRecordIsLostIff`); both callers of the merge build their records with a profile.
- With a negative limit the dossier decision and the rebuild see different candidates, and a "refreshed" pack
  can come back reused (`NeverReusesIff`).
- In the dumped configuration a dotted update with a dictionary value replaces where the nested form merges
  (`DottedEqualsNestedIff`), and a dictionary with a dotted key inside is stored whole the first time and walked
  into the second (`DottedInsideChanges`, `UpdateIsIdempotentIff`). The validation after every update hides both:
  for the configuration itself any update made twice is made once (`RepeatedUpdateIsOne`), and with sections that
  hold scalars only the two forms always agree (`DottedEqualsNestedValidated`).
- A completion dated explicitly before its dispatch is stored as it is (`LifecycleIff`).
- Keywords given to the theme matcher as one text instead of a list never match (`CharactersNeverMatch`).

## Model

| member | source | states |
|---|---|---|
| BoundedLog.AppendTracksFullLog | src/ashare_system/execution_gateway.py:213-240 | a stored log that is cut at every append stays the tail of the log that was never cut |
| BoundedLog.CutEachAppend | src/ashare_system/execution_gateway.py:176-182 | cutting after each append keeps exactly what cutting the whole log once would keep |
| ExecutionGateway.TableClimbs | src/ashare_system/execution_gateway.py:12-23 | every move of the transition table climbs a rank, and the statuses without a way out are exactly the terminal ones |
| ExecutionGateway.EnqueueIsUpsert | src/ashare_system/execution_gateway.py:116-149 | enqueue keeps ids unique, leaves the packet under its id and every other id as it was, and grows the list only for a new id |
| ExecutionGateway.EnqueueExecutionGatewayIntent | src/ashare_system/execution_gateway.py:116-149 | the search loop in the store does that upsert and appends one history entry; without a store it is an error |
| ExecutionGateway.AppendExecutionIntentHistory | src/ashare_system/execution_gateway.py:176-182 | appends to the history, keeps its last 200 entries, changes nothing else |
| ExecutionGateway.AppendExecutionGatewayReceipt | src/ashare_system/execution_gateway.py:193-202 | makes the receipt the latest one, appends it, keeps the last 500, changes nothing else |
| ExecutionGateway.AppendReceiptAuditEvent | src/ashare_system/execution_gateway.py:213-240 | appends to the audit trail, keeps the last 1000 events, changes nothing else |
| ExecutionGateway.TransitionExecutionIntent | src/ashare_system/execution_gateway.py:243-290 | an allowed move writes exactly one audit event; a refused or empty one writes nothing |
| GatewayAnswers.TableIs | src/ashare_system/execution_gateway.py:12-23 | the moves of the table are those that climb, except that an approved intent can only be claimed or expire and a partly filled one cannot be rejected |
| GatewayAnswers.TransitionIs | src/ashare_system/execution_gateway.py:243-290 | field by field, what a move makes of the record and notes in its event, with and without a receipt, and which moves are refused |
| GatewayAnswers.EnqueueStores | src/ashare_system/execution_gateway.py:116-149 | the stored record has the packet's fields and nothing reported yet, and is the new history entry |
| ExecutionGateway.RetryResetsExactlyStaleClaims | src/ashare_system/execution_gateway.py:297-364 | the retry resets exactly the claimed intents with a readable claim time at least max(stale, 1) old, in place, one audit and one history entry each, and a second call at the same instant does nothing |
| ExecutionGateway.ResetStaleClaims | src/ashare_system/execution_gateway.py:306-350 | the loop over the pending list computes the reset list, the report items and the audit events |
| ExecutionGateway.RetryStaleClaimedIntents | src/ashare_system/execution_gateway.py:297-364 | the whole call leaves the store as that retry and reports how many were claimed and retried |
| ExecutionGateway.RecordRetries | src/ashare_system/execution_gateway.py:351-359 | the closing loop appends the record found under each retried id |
| GatewayAnswers.RetryReleasesIff | src/ashare_system/execution_gateway.py:297-364 | record by record: a claimed one whose claim, or without a claim time whose last report, dates from t is released exactly if now - t is at least the threshold and at least one second; one without a readable time, and every record that is not claimed, stays equal |
| GatewayAnswers.RetryWrites | src/ashare_system/execution_gateway.py:297-364 | one event, history entry and report item for each due record, in list order, with their contents |
| GatewayAnswers.ClaimedAreCounted | src/ashare_system/execution_gateway.py:311-314 | the report counts the claimed records |
| GatewayAnswers.ClaimIsReleased | src/ashare_system/apps/system_api.py:5548-5584 | a granted claim stores the source and time of the request; it holds through any run without a receipt for the intent, a new enqueue of it or a due tick, and the first due tick puts the intent back to approved |
| GatewayHandlers.GetPendingExecutionIntents | src/ashare_system/apps/system_api.py:5464-5503 | reading the pending list drops exactly the approved intents of earlier trade dates and stores the rest |
| GatewayHandlers.PruneKeeps | src/ashare_system/apps/system_api.py:5464-5503 | pruning adds nothing, drops exactly the approved intents of earlier trade dates and keeps ids unique |
| GatewayHandlers.PruneKeepsOrder | src/ashare_system/apps/system_api.py:5464-5503 | what stays are the other positions of the list, in their order |
| GatewayHandlers.PollOffersApproved | src/ashare_system/apps/system_api.py:14436-14458 | a poll offers only approved pending intents of the account asked for, each once |
| GatewayHandlers.PollOffersFirst | src/ashare_system/apps/system_api.py:14436-14458 | it offers the first of them in list order: all, or as many as the limit, kept within 1 to 100, allows |
| GatewayAnswers.DroppedIff | src/ashare_system/apps/system_api.py:5464-5503 | dropped are exactly the approved, unclaimed intents of an earlier trade date that are not live |
| GatewayAnswers.OfferedIff | src/ashare_system/apps/system_api.py:14436-14458 | offered are exactly the approved intents of the account, or of any account if none is given |
| GatewayAnswers.LimitIs | src/ashare_system/apps/system_api.py:14436-14458 | the limit asked for, but at least one and at most a hundred |
| GatewayHandlers.ClaimExecutionIntent | src/ashare_system/apps/system_api.py:5548-5584 | a claim of an approved intent stores it claimed with its audit event and history entry; any other claim only prunes |
| GatewayAnswers.ClaimGrants | src/ashare_system/apps/system_api.py:5561-5583 | the claim of an approved intent puts the source and the time of the request on the record, changes nothing else of it, and writes its event and history entry |
| GatewayAnswers.ClaimAnswers | src/ashare_system/apps/system_api.py:5551-5560 | a claimed intent is granted again to its holder only, any other status is refused, and nothing is written |
| GatewayAnswers.ClaimOfUnknown | src/ashare_system/apps/system_api.py:5584-5584 | an unknown id is answered as not found |
| GatewayHandlers.StoreExecutionGatewayReceipt | src/ashare_system/apps/system_api.py:5586-5650 | a first receipt for a known intent moves it, removes it from the list when terminal, and is stored; duplicates, unknown intents and refused moves are not |
| GatewayAnswers.ReceiptMoves | src/ashare_system/apps/system_api.py:5586-5650 | a first receipt with an allowed move: what it notes on the pending or the newest history record, its event, the logs, and which record leaves the list |
| GatewayAnswers.ReceiptRepeatsStatus | src/ashare_system/apps/system_api.py:5586-5650 | a first receipt with the status on record is stored, and the record goes to the history unchanged |
| GatewayAnswers.ReceiptTurnedDown | src/ashare_system/apps/system_api.py:5586-5650 | an unknown intent or a move that is not allowed writes nothing but the pruning |
| GatewayAnswers.RepeatedReceipt | src/ashare_system/apps/system_api.py:5586-5590 | a receipt id that is stored already changes nothing and is answered with the stored receipt |
| GatewayRuns.StepKeepsGood | src/ashare_system/execution_gateway.py:116-364 | every store operation keeps: stored logs are tails, ids unique, each id's events form a chain that ends at its stored status, retry counts equal resets |
| GatewayRuns.AuditTrailIsAChain | src/ashare_system/execution_gateway.py:12-23 | in every run without re-enqueue the full audit log of an id is a chain of table moves and claimed-to-approved resets; claims exceed resets by at most one, moves are at most four plus two per reset, the stored trail is its last 1000 events |
| GatewayRuns.TerminalIsAbsorbing | src/ashare_system/execution_gateway.py:243-290 | once terminal, no later receipt, claim, tick or prune changes the status or adds an event |
| GatewayRuns.TurnedDownWritesNothing | src/ashare_system/apps/system_api.py:5548-5650 | a claim or receipt that is turned down changes nothing but the pruning |
| GatewayRuns.ReenqueueReopens | src/ashare_system/execution_gateway.py:139-145 | re-enqueueing an id replaces its record whatever happened before |
| GatewayWorker.NormalizeReceiptStatus | src/ashare_system/windows_execution_gateway_worker.py:289-295 | whatever the submitter says, only reportable statuses come out, or an error |
| GatewayWorker.TextsNameStatuses | src/ashare_system/windows_execution_gateway_worker.py:289-295 | a text is read as a status exactly if, stripped, lower-cased and with underscores, it is one of that status's names; every other text raises |
| GatewayWorker.StatusTextIs | src/ashare_system/windows_execution_gateway_worker.py:289-295 | a status text is read without outer white space, with small letters and underscores for blanks, and a missing one as "submitted" |
| GatewayWorker.SubmittedIff | src/ashare_system/windows_execution_gateway_worker.py:108-122 | an intent goes to the submitter exactly if the answer to the claim is ok and says claimed |
| GatewayWorker.ResultIs | src/ashare_system/windows_execution_gateway_worker.py:108-157 | what is reported of one intent: phase, claim status, ok and stored |
| GatewayWorker.ReturnedSubmitFailsIff | src/ashare_system/windows_execution_gateway_worker.py:108-157 | when the submitter has returned, a failure is reported exactly if its result is no dictionary, the text says "failed" or names no status, or another field does not fit the receipt |
| GatewayWorker.PendingIsUnsupported | src/ashare_system/windows_execution_gateway_worker.py:225-262 | the text "PENDING" is such a result, and so is a latency that is no number |
| GatewayWorker.UnreadableResultEndsIntent | src/ashare_system/apps/system_api.py:5586-5650 | for any returned result of which no receipt can be built: the receipt of the failure is stored, ends the chain of the claimed intent at "failed" and takes it off the pending list |
| GatewayWorker.OneReceiptPerSubmit | src/ashare_system/windows_execution_gateway_worker.py:108-157 | every id handed to the submitter gets exactly one receipt attempt, in order, with a reportable status |
| GatewayWorker.ClaimedCountIsSubmissions | src/ashare_system/windows_execution_gateway_worker.py:159-218 | the reported claim count is never below the submissions, and equal exactly when no reply is both "claimed" and not ok |
| GatewayWorker.ExecutionGatewayWorker.ProcessIntent | src/ashare_system/windows_execution_gateway_worker.py:108-157 | claim, submit and receipt of one intent: submits only when granted, posts exactly one receipt then |
| GatewayWorker.ExecutionGatewayWorker.RunOnce | src/ashare_system/windows_execution_gateway_worker.py:159-218 | one result per polled id, stored plus failed equals polled, ok exactly when every result is; a raising claim ends the run with the earlier submissions only |
| ExecutionBridge.SubmissionsAreBounded | src/ashare_system/windows_execution_gateway_worker.py:108-157 | over every interleaving of workers, losses, crashes, ticks and prunes, submissions of an intent never exceed granted claims, and these never exceed its resets plus one; without a reset it is submitted at most once |
| ExecutionBridge.StepsAre | src/ashare_system/windows_execution_gateway_worker.py:79-157 | which steps a worker, the ticks and a crash can take in which state |
| ExecutionBridge.StepDoes | src/ashare_system/windows_execution_gateway_worker.py:79-157 | what each step writes to the store and leaves of the worker; a lost claim answer ends the batch, a lost receipt is not repeated |
| ExecutionBridge.SubmissionsNeedGrants | src/ashare_system/windows_execution_gateway_worker.py:108-157 | submissions stay within granted claims even when workers share a source id |
| ExecutionBridge.SharedSourceSubmitsTwice | src/ashare_system/apps/system_api.py:5556-5559 | two workers with one source id both submit an intent that was never reset |
| ExecutionBridge.OncePerReleaseIffDistinctSources | src/ashare_system/apps/system_api.py:5548-5584 | a fleet submits at most once per release in every run exactly when its source ids are pairwise distinct |
| Lane.LaneIsSafe | go_data_platform/scheduler.go:32-72 | in every reachable state running jobs are within the workers and queued ones within the queue, each accepted job is in one place, entered at most once, with at most one result, which is what its caller gets |
| Lane.AcceptedIff | go_data_platform/scheduler.go:30-44 | a new job is accepted exactly while the buffer has room or the dispatcher waits at an empty one |
| Lane.QueueFills | go_data_platform/scheduler.go:18-44 | while the dispatcher holds a job, exactly as many further submissions are accepted as there are free places, and they queue in order |
| Lane.AcquiredIff | go_data_platform/scheduler.go:48-60 | a started job gets a slot exactly while fewer jobs than workers hold one |
| Lane.WorkersFill | go_data_platform/scheduler.go:48-60 | as many started jobs can run at once as there are free slots, and no more |
| Lane.FirstComeFirstServed | go_data_platform/scheduler.go:78-91 | the jobs started, the one in hand and the queue are those accepted, in the order of acceptance |
| Lane.CallersAre | go_data_platform/scheduler.go:62-72 | a waiting caller receives exactly when its job has sent its result, or leaves; and what a caller was told is final |
| Lane.SendAndReleaseNeverBlock | go_data_platform/scheduler.go:48-60 | the result send and the slot release are always possible, caller or not, so no slot leaks |
| Lane.SomeStepIsEnabled | go_data_platform/scheduler.go:78-91 | with a worker some internal step is enabled while an accepted job is unfinished |
| Lane.RunsWithoutSubmissionsEnd | go_data_platform/scheduler.go:32-91 | without new submissions every run, callers receiving and leaving included, is bounded by a measure; when the lane can do no more every accepted job is finished and no slot is held, and when nothing at all is left no caller waits |
| Lane.NoWorkersNoJob | go_data_platform/scheduler.go:18-25 | with no worker slot no job ever runs |
| Lane.QueueGivesNoBackpressure | go_data_platform/scheduler.go:78-91 | whatever the configuration, any number of jobs can be accepted and waiting as goroutines before one has started |
| Reconciliation.RecoverMatchesBroker | src/ashare_system/startup_recovery.py:48-80 | recovery keeps records in place, appends one per unknown broker order, shows every broker order with its status, and touches no other record |
| Reconciliation.RecoverJournal | src/ashare_system/startup_recovery.py:27-98 | the loop on aliased records does that and reports the counts |
| Reconciliation.RecoveredRecord | src/ashare_system/startup_recovery.py:48-80 | the record of a broker order, at its old place or appended, has the broker's status, the time, and the time of resolution if the status is final, and keeps everything else |
| Reconciliation.RecoveryCounts | src/ashare_system/startup_recovery.py:48-80 | the report counts the final and the other orders, those whose status differs from the one shown, and the unknown ones |
| Reconciliation.RecoverThenReconcile | src/ashare_system/execution_reconciliation.py:29-162 | on one snapshot: before and after the reconciliation each broker order has exactly one record, with its status, matched equals the orders, orphan trades are none, and journal fills sum to the traded quantity |
| Reconciliation.FillsAreRecordedTrades | src/ashare_system/execution_reconciliation.py:54-96 | for any journal with unique order ids, records without one included, the fills written to the records with an id are the quantities of the trades whose order has a record |
| Reconciliation.SecondReconcileUpdatesNothing | src/ashare_system/execution_reconciliation.py:54-96 | a second reconciliation on the same snapshot finds nothing to update |
| Reconciliation.SecondReconcileAddsNoTrade | src/ashare_system/execution_reconciliation.py:117-138 | under the cap it adds no trade entry |
| Reconciliation.TradeJournalQuietIffUnderCap | src/ashare_system/execution_reconciliation.py:117-138 | from an empty trade journal the second run is quiet exactly when the snapshot fits the cap |
| Reconciliation.ReconcileOrders | src/ashare_system/execution_reconciliation.py:54-96 | the loop over the order journal rewrites every record in place and counts matches, fills and updates |
| Reconciliation.ReconcileRecord | src/ashare_system/execution_reconciliation.py:64-96 | one record: status, filled quantity and value, average price, number of trades and times, left alone without an order id |
| Reconciliation.RecordIs | src/ashare_system/execution_reconciliation.py:64-96 | field by field, what is written to a record, and when it counts as updated |
| Reconciliation.TradesForJoin | src/ashare_system/execution_reconciliation.py:54-57 | the trades grouped under an order are those with its id, in order |
| Reconciliation.FillsAdd | src/ashare_system/execution_reconciliation.py:72-74 | quantities and values add up over the trades, each with its quantity times its price |
| Reconciliation.AverageIsBetween | src/ashare_system/execution_reconciliation.py:75-75 | the average price lies between the prices paid, and times the quantity it is the value |
| Reconciliation.ReportCounts | src/ashare_system/execution_reconciliation.py:66-86 | the report counts the records whose order is listed, those with fills and those that change |
| Reconciliation.ReconcileTrades | src/ashare_system/execution_reconciliation.py:117-138 | the loop over the trades appends the unknown ones and counts those without a record |
| Reconciliation.OneMoreTrade | src/ashare_system/execution_reconciliation.py:117-138 | a trade whose id is not in the journal by then is appended with its fields and whether its order is listed, and is an orphan if no record has the order |
| Reconciliation.ReconcileJournal | src/ashare_system/execution_reconciliation.py:29-162 | the whole call leaves both journals as specified, cut to their caps, with the report |
| FastPositionWatch.QuantityIsWholeLots | src/ashare_system/scheduler.py:276-284 | a planned sell is at most what is available, all of it or whole lots, the largest number within the wanted share but at least one lot, and nothing exactly when nothing is available or wanted or a partial sale finds less than a lot available |
| FastPositionWatch.SellIs | src/ashare_system/scheduler.py:276-284 | for a share: nothing, everything, or the part rounded down to whole lots, one lot at least |
| FastPositionWatch.HighSellIs | src/ashare_system/scheduler.py:276-284 | the same for a wanted number of shares |
| FastPositionWatch.SellsAreAccounted | src/ashare_system/scheduler.py:2731-3081 | for any positions, submitted, queued, preview and error counts sum to the sell signals plus the orders whose bookkeeping failed late |
| FastPositionWatch.ScanQueues | src/ashare_system/scheduler.py:2904-2984 | on the gateway plane a scan queues exactly the approved positions with a sell signal, no pending sell and something to sell, in order, with their planned quantities |
| FastPositionWatch.ScanCounts | src/ashare_system/scheduler.py:2904-3070 | every sell signal that is no such sale is one preview; live submissions and errors are the sales that were counted and those that failed anywhere |
| FastPositionWatch.ScanOneIs | src/ashare_system/scheduler.py:2904-3070 | one position: what it does to counters, queue and tracker |
| FastPositionWatch.ChosenAre | src/ashare_system/scheduler.py:2904-2940 | which positions may be sold |
| FastPositionWatch.PreviewReasons | src/ashare_system/scheduler.py:2890-2940 | why a sell signal is only previewed |
| FastPositionWatch.LoadFastPendingSellTracker | src/ashare_system/scheduler.py:2131-2155 | for any stored tracker: the loaded one has exactly the stripped, nonblank keys with a mark no older than ten minutes, each with such a mark, now where it had no time |
| FastPositionWatch.RunFastPositionWatchScan | src/ashare_system/scheduler.py:2635-3086 | the loop over the positions leaves counters, gateway queue and tracker as specified |
| FastPositionWatch.SellsAreSpaced | src/ashare_system/scheduler.py:2940-2984 | over any run of completed, empty and failed scans two SELL intents queued for one symbol are more than 600 seconds apart |
| FastPositionWatch.QueuedAgainIff | src/ashare_system/scheduler.py:2201-2225 | a symbol scanned twice is queued twice exactly when the ten minutes are over or the symbol is blank or not stripped |
| FastPositionWatch.AbortedScanForgets | src/ashare_system/scheduler.py:3083-3086 | a scan that raises after queueing does not store its marks, so the next one queues again |
| DeepPositionWatch.LoadOpenSells | src/ashare_system/scheduler.py:3302-3318 | the loop collects the symbols with a pending sell in the order journal |
| DeepPositionWatch.RunPositionWatchScan | src/ashare_system/scheduler.py:3471-4071 | the loop over the holdings leaves counters, journal and gateway queue as specified |
| DeepPositionWatch.ScanHolding | src/ashare_system/scheduler.py:3985-4061 | one holding: the journal is written before the submission is counted, and any failure in between or after is an error |
| DeepPositionWatch.DeepSellsAreAccounted | src/ashare_system/scheduler.py:3471-4071 | the counters of the deep scan sum to the sell signals plus the orders whose bookkeeping failed after they were counted |
| DeepPositionWatch.DeepScanQueues | src/ashare_system/scheduler.py:3888-3984 | on the gateway plane a deep scan queues exactly the sellable holdings, in order, and journals nothing |
| DeepPositionWatch.DeepScanJournals | src/ashare_system/scheduler.py:3985-4061 | on the live plane it journals exactly the sellable holdings whose order got that far, within the cap, and queues nothing |
| DeepPositionWatch.DeepScanCounts | src/ashare_system/scheduler.py:3888-4061 | previews, submissions and errors by what became of the sellable holdings |
| DeepPositionWatch.OpenSellsAre | src/ashare_system/scheduler.py:3302-3318 | the open sells are the symbols of the pending sell entries |
| DeepPositionWatch.ClosedSellsAgain | src/ashare_system/scheduler.py:3302-3318 | once the pending sell of a symbol is closed, the next scan sells it again |
| DeepPositionWatch.OnePendingSellIff | src/ashare_system/scheduler.py:3302-3318 | over any run of deep scans, closed orders and sells of fast scans the journal never has two pending sells for one symbol, exactly if no fast scan sells a symbol while the journal has a pending sell for it |
| DeepPositionWatch.GatewayScansRepeat | src/ashare_system/scheduler.py:3471-4071 | on the gateway plane two scans, however close, queue the same sell twice |
| RegimeGuard.RegimeStore.SyncMarketRegimeGuard | src/ashare_system/scheduler.py:1808-1928 | one sync leaves the guard as specified; without a detected regime nothing changes |
| RegimeGuard.TransitionConfirms | src/ashare_system/scheduler.py:1832-1897 | from a new transition to a label on, for any syncs that report it again or report none and that label: confirmed days are the distinct dates up to the required number, and the guard is active exactly below it |
| RegimeGuard.OtherLabelResets | src/ashare_system/scheduler.py:1898-1912 | the first sync without a transition and with another label resets the guard, and it stays inactive without transitions and blank labels |
| RegimeGuard.NewDetectionStartsOver | src/ashare_system/scheduler.py:1837-1849 | the same change detected at another time starts the count over from that date |
| RegimeGuard.ConfirmedDaysCountDates | src/ashare_system/scheduler.py:1808-1928 | over any run that carries a confirmation on, confirmed days are min(required, distinct dates seen) despite the window, and the guard is active exactly below the required number |
| RegimeGuard.ConfirmationIsMonotone | src/ashare_system/scheduler.py:1808-1928 | a confirmation is never taken back, and a repeated date does not advance it |
| RegimeGuard.GuardWithoutTransitionIff | src/ashare_system/scheduler.py:1898-1928 | without any transition the guard reads as available exactly after at least two syncs of which the last has a blank label |
| CrontabWeekdays.TranslationKeepsWeekdays | src/ashare_system/scheduler.py:166-196 | every comma list of days and ranges within 1 to 7 translates to a text with the same weekdays |
| CrontabWeekdays.RangeKeepsWeekdaysIff | src/ashare_system/scheduler.py:166-196 | a single range keeps its weekdays exactly when it starts after Sunday 0 or is Sunday alone |
| CrontabWeekdays.SteppedRangeKeepsWeekdays | src/ashare_system/scheduler.py:166-196 | a range within 1 to 7 with a step keeps its weekdays |
| CrontabWeekdays.SteppedStarKeepsWeekdaysIff | src/ashare_system/scheduler.py:166-196 | exactly which `*/n` keep their weekdays |
| CrontabWeekdays.ListAfterStepKeepsWeekdaysIff | src/ashare_system/scheduler.py:166-196 | for any items, a stepped range and any list after it: what follows the slash is copied, and the weekdays stay exactly if the rest does not name 7 and every weekday in only one reading of the rest is named before it |
| CrontabWeekdays.StepOnLastKeepsWeekdays | src/ashare_system/scheduler.py:166-196 | a comma list whose only step is on its last item keeps its weekdays |
| CrontabWeekdays.DayAfterStepKeepsWeekdaysIff | src/ashare_system/scheduler.py:166-196 | exactly when a single day listed after a stepped range keeps its weekday |
| CrontabWeekdays.OtherTokens | src/ashare_system/scheduler.py:166-196 | a number above 7 is left as it is, 0 and 7 become 6, 1 to 6 one less, and a text that is no number is an error |
| CrontabWeekdays.NamesStay | src/ashare_system/scheduler.py:172-174 | a blank field or one with letters is only stripped |
| Retention.RetainTradeDates | src/ashare_system/precompute.py:578-589 | the reverse loop returns the longest suffix with at most N distinct trade dates |
| Retention.LongestSuffixIsUnique | src/ashare_system/precompute.py:578-589 | there is only one such suffix |
| Retention.TrimEachAppend | src/ashare_system/precompute.py:529-533 | trimming at every append keeps what trimming the untrimmed history once keeps, also when the retention is shortened |
| BehaviorProfiles.MergeRecords | src/ashare_system/precompute.py:552-555 | the merge loop keeps per symbol the better of stored and new, ties to the new |
| BehaviorProfiles.PersistBehaviorProfileArtifact | src/ashare_system/precompute.py:535-570 | reads back the day's records that carry a symbol and a profile, merges, stores, and leaves the history with the new artifact as the retention trims it |
| BehaviorProfiles.RetainArtifacts | src/ashare_system/precompute.py:578-589 | trimming the artifact history keeps its longest suffix with at most N distinct trade dates, the newest included |
| BehaviorProfiles.StoredIsDaysMaximum | src/ashare_system/precompute.py:535-569 | over any sequence of persists on a day the stored record per symbol is the lexicographic maximum of all offered, ties to the latest |
| BehaviorProfiles.NothingOutranksStored | src/ashare_system/precompute.py:1041-1051 | what a day stores for a symbol was offered, no other offer outranks it by date, computation and time, and it outranks every later offer |
| BehaviorProfiles.ProfilelessRecordIsLostIff | src/ashare_system/precompute.py:542-551 | of two offers, the second with a profile, the better one is lost exactly when it came first, was strictly better and had no profile |
| BehaviorProfiles.LoadBehaviorProfileRecords | src/ashare_system/precompute.py:961-980 | the newest-first lookup with its early exit returns what a scan of the whole history would |
| BehaviorProfiles.ScanPack | src/ashare_system/precompute.py:970-977 | one pack adds its readable records for the symbols not yet found |
| BehaviorProfiles.LookedUpIs | src/ashare_system/precompute.py:961-980 | a stored item is readable with a symbol and a profile, and looked up with its date and source or those of its pack |
| BehaviorProfiles.NewerAnswersFirst | src/ashare_system/precompute.py:961-980 | a newer pack answers first, and one without a readable record leaves the answer to the older ones |
| BehaviorProfiles.LookupReturnsPersisted | src/ashare_system/precompute.py:961-980 | what the day's persists stored is what the lookup then returns |
| DossierRefresh.DossierStore.ShouldRefreshCandidates | src/ashare_system/precompute.py:384-477 | the decision from the stored pack, candidates, clock and poll interval |
| DossierRefresh.DossierStore.RefreshIfDue | src/ashare_system/precompute.py:479-527 | one unforced call skips, fails, reuses or stores a new pack, and appends to the history only then |
| DossierRefresh.DecisionIs | src/ashare_system/precompute.py:384-477 | which decision is taken with which reason, by candidates, signature, expiry and the seconds since the stored pack |
| DossierRefresh.RefreshIs | src/ashare_system/precompute.py:479-527 | how a call ends: skipped, reused, built or failed |
| DossierRefresh.NewPackIs | src/ashare_system/precompute.py:84-130 | a built pack has the signature asked for and expires its life time after it was built |
| DossierRefresh.SignatureTells | src/ashare_system/precompute.py:672-674 | another trade date, source, time or list of comma-free symbols is another signature |
| DossierRefresh.OtherDateRebuilds | src/ashare_system/precompute.py:384-477 | a pack built for one trade date is never fresh for another and is rebuilt once the poll interval is over |
| DossierRefresh.PacksAreSpaced | src/ashare_system/precompute.py:384-477 | over any run with a monotone clock successive packs are at least the poll interval apart, whatever the limit |
| DossierRefresh.RefreshedIsRebuilt | src/ashare_system/precompute.py:84-107 | with a limit that is not negative and whatever is stored, "refreshed" never comes back with "reused" |
| DossierRefresh.NeverReusesIff | src/ashare_system/precompute.py:609-619 | no run ever returns "refreshed" and "reused" together exactly when the limit is not negative or packs expire before the poll interval |
| DossierRefresh.StoredServesOrIsYoung | src/ashare_system/precompute.py:479-527 | after a call that did not fail the stored pack serves the candidates or is younger than the poll interval |
| RuntimeConfig.SplitJoins | src/ashare_system/runtime_config.py:133-135 | splitting a key yields dot-free segments that join to the key, more than one exactly when it has a dot |
| RuntimeConfig.JoinSplits | src/ashare_system/runtime_config.py:133-135 | joining dot-free segments and splitting again gives them back |
| RuntimeConfig.ReadsAfterSet | src/ashare_system/runtime_config.py:133-142 | after a dotted update the path reads the new value, paths below read inside it, prefixes are dictionaries, unrelated paths are unchanged |
| RuntimeConfig.UnrelatedSetsCommute | src/ashare_system/runtime_config.py:133-142 | updates on paths neither of which is a prefix of the other commute |
| RuntimeConfig.DottedEqualsNested | src/ashare_system/runtime_config.py:132-150 | for every key and scalar the dotted update and the equivalent nested dictionary give the same tree |
| RuntimeConfig.NestedLandsAtPath | src/ashare_system/runtime_config.py:132-150 | for every value and depth the nested form differs from the path assignment at the end of the path only, where it leaves the old value updated |
| RuntimeConfig.DottedEqualsNestedIff | src/ashare_system/runtime_config.py:132-150 | in the dump, for every value whose keys do not overlap as paths, dotted keys inside included, the two trees are equal exactly if, where the old and the new value are dictionaries, the new one has every key of the old one and no dotted key, and so on below |
| RuntimeConfig.ReplacesIff | src/ashare_system/runtime_config.py:132-150 | updating a dictionary by such items leaves just the items as stored exactly under that condition |
| RuntimeConfig.ReplacesMeansCovers | src/ashare_system/runtime_config.py:144-150 | for values without dotted keys the condition is that the new dictionary covers the old one |
| RuntimeConfig.UpdatesMerge | src/ashare_system/runtime_config.py:144-150 | a nested update without dotted keys is the deep merge of the trees, whatever the order of its keys |
| RuntimeConfig.MergeReplacesIff | src/ashare_system/runtime_config.py:144-150 | merging equals replacing exactly when the new tree covers the old one |
| RuntimeConfig.UpdateIsIdempotent | src/ashare_system/runtime_config.py:132-150 | applied twice to a dump, without the validation between, updates change nothing the second time, for any mixture of dotted keys with any values and other keys with values that have no dotted key inside |
| RuntimeConfig.DottedInsideChanges | src/ashare_system/runtime_config.py:132-150 | with a dotted key inside a value the second application does change the dump |
| RuntimeConfig.UpdateIsIdempotentIff | src/ashare_system/runtime_config.py:132-150 | updates whose keys do not overlap can be applied again to every dump without a change exactly if no dictionary under a dot-free key has a dotted key inside |
| RuntimeConfig.OverlapCanHide | src/ashare_system/runtime_config.py:132-150 | with overlapping keys a dotted key inside may leave the dump alone the second time |
| RuntimeConfigValidation.ValidatedIsValid | src/ashare_system/runtime_config.py:121-130 | what validation has made it leaves alone, for any schema of scalars and nested sections with type-preserving readings |
| RuntimeConfigValidation.UpdatedTwiceIsOnce | src/ashare_system/runtime_config.py:121-150 | for every schema, valid configuration and update, dotted keys inside and overlapping keys included: made again it changes nothing, and is rejected the second time exactly if it was the first |
| RuntimeConfigValidation.RunsStayValid | src/ashare_system/runtime_config.py:121-166 | over any run of updates from any file, or from the defaults when the file is rejected, the configuration is valid and loads as it was saved |
| RuntimeConfigValidation.RepeatedUpdateIsOne | src/ashare_system/runtime_config.py:121-150 | after any run, an update made twice in a row is made once |
| RuntimeConfigValidation.DottedEqualsNestedValidated | src/ashare_system/runtime_config.py:121-150 | with sections that hold scalars only, the dotted and the nested form of any update make the same configuration |
| RuntimeConfigValidation.DumpRestores | src/ashare_system/apps/system_api.py:1503-1503 | an update by the whole dump of a valid configuration restores it from any other one |
| RuntimeConfigValidation.ScalarIsReadBack | src/ashare_system/runtime_config.py:121-150 | a scalar assigned under any key: the field it leads to has the value read and all else stays, or without such a field or a readable value everything stays |
| RuntimeConfigValidation.DefaultsAre | src/ashare_system/runtime_config.py:152-159 | without a file every field has its default |
| RuntimeConfigManager.AssignDotted | src/ashare_system/runtime_config.py:133-142 | the cursor loop on shared dictionary objects leaves the object tree as the path assignment, and all objects distinct |
| RuntimeConfigManager.ApplyUpdateInPlace | src/ashare_system/runtime_config.py:132-150 | the recursive in-place update leaves the object tree as the update function says |
| RuntimeConfigManager.ApplyItems | src/ashare_system/runtime_config.py:146-148 | so does the loop over the items of a dictionary of updates |
| RuntimeConfigManager.ConfigManager.Update | src/ashare_system/runtime_config.py:121-130 | the stored configuration becomes the validated updated dump, or stays when validation fails |
| SupervisionTasks.DispatchControl.RecordAgentTaskDispatch | src/ashare_system/supervision_tasks.py:140-168 | a dispatch replaces the agent's record, clearing its completion, and is logged in the last 200 |
| SupervisionTasks.DispatchControl.RecordAgentTaskCompletion | src/ashare_system/supervision_tasks.py:176-211 | a completion keeps the dispatch and sets the completion, with or without a dispatch |
| SupervisionTasks.DispatchControl.SyncAgentTaskCompletionFromActivity | src/ashare_system/supervision_tasks.py:214-283 | the loop over the activities leaves records, returned rows and history as specified |
| SupervisionTasks.JudgeIs | src/ashare_system/supervision_tasks.py:228-262 | an activity no earlier than the dispatch completes the task unless a completion that late is on record, its status says that work is missing, or it does not match the tags |
| SupervisionTasks.SyncOneIs | src/ashare_system/supervision_tasks.py:228-275 | what one activity does to the records, the returned rows and the history |
| SupervisionTasks.RecordsAre | src/ashare_system/supervision_tasks.py:140-211 | what a dispatch and a completion leave of the record, field by field |
| SupervisionTasks.SyncMovesForward | src/ashare_system/supervision_tasks.py:214-283 | activity sync keeps every dispatch and moves completions only forward, never before the dispatch |
| SupervisionTasks.SyncIsIdempotent | src/ashare_system/supervision_tasks.py:214-283 | syncing the same activities again changes no record, adds no history and returns the same rows |
| SupervisionTasks.LifecycleIff | src/ashare_system/supervision_tasks.py:140-283 | in every state of a run no completion precedes its dispatch, exactly when no explicit completion was dated before the dispatch on record |
| SupervisionTasks.ClockedRunsAreInOrder | src/ashare_system/supervision_tasks.py:140-211 | with times left to a clock that never goes back every state is in order |
| Portfolio.VolumeIsLargestLot | src/ashare_system/portfolio.py:46-57 | the order volume is the largest whole number of lots the amount pays for, and no other |
| Portfolio.StepIs | src/ashare_system/portfolio.py:18-45 | Shanghai repos start with 204 and come in lots of 100 units, Shenzhen ones with 1318 and by the unit, and no other symbol is a repo |
| Portfolio.SummarizePositionBuckets | src/ashare_system/portfolio.py:86-96 | the loop splits the positions in order and sums each bucket |
| Portfolio.BucketsConserve | src/ashare_system/portfolio.py:86-96 | no position and no value is lost or counted twice, and each is in the bucket of its kind |
| Portfolio.BudgetReachesTargets | src/ashare_system/portfolio.py:99-119 | spending the remaining budget and closing the gap reaches each target and no more |
| StableSort.SortIsLexicographic | src/ashare_system/reverse_repo.py:314-319 | a stable sort by one key of rows already ordered by another gives the lexicographic order of both |
| ReverseRepo.TableIsSupported | src/ashare_system/reverse_repo.py:36-41 | every instrument of the table has a lot size, so no row raises |
| ReverseRepo.BuildCandidateQuotes | src/ashare_system/reverse_repo.py:274-319 | the loops build the prioritized rows as specified |
| ReverseRepo.CandidatesInOrder | src/ashare_system/reverse_repo.py:274-319 | the rows are those of exactly the instruments within the terms, once each, ordered by term preference, higher price, market |
| ReverseRepo.ChosenIsBest | src/ashare_system/reverse_repo.py:118-142 | for any table, quotes and amount: a candidate exactly when something can be bought, the best in that order, with the largest number of lots |
| ReverseRepo.ChosenBeatsAll | src/ashare_system/reverse_repo.py:118-142 | no instrument that can be bought has a better term, of the same term a higher price, or of the same price an earlier market |
| ReverseRepo.TextAtMostIs | src/ashare_system/reverse_repo.py:314-319 | markets are compared at the first character in which they differ |
| ReverseRepo.Inspect | src/ashare_system/reverse_repo.py:67-198 | each status exactly in its case, and an order placed exactly when live submission is allowed and nothing is pending |
| ReverseRepo.OrderIs | src/ashare_system/reverse_repo.py:67-190 | an order is placed exactly if every switch and the session allow it, less than the reserve is held, none is open and something can be bought within cash and gap; it is the best such instrument |
| ReverseRepo.OrderIsAffordable | src/ashare_system/reverse_repo.py:118-190 | a placed order is positive, within the cash, and within the reserve together with the holding |
| ReverseRepo.RunsArePrudent | src/ashare_system/reverse_repo.py:67-198 | over any run of inspections, partial fills, closed orders and repos falling due there is at most one open order, cash is not overdrawn and the reserve is not exceeded |
| ReverseRepo.MoneyIsConserved | src/ashare_system/reverse_repo.py:67-198 | over any run cash and holding together stay the same |
| ThemeKeywords.TrimThemeToken | src/ashare_system/selection_preferences.py:64-73 | the loop ends, by decreasing length, with the trimmed token |
| ThemeKeywords.TrimEndsBare | src/ashare_system/selection_preferences.py:64-73 | it ends where no suffix applies, having taken only suffixes and spaces off the end, never erases a text, and is idempotent |
| ThemeKeywords.NormalizeExcludedThemeKeywords | src/ashare_system/selection_preferences.py:13-32 | the loop with its set of seen tokens computes the normalized list |
| ThemeKeywords.NormalizedIs | src/ashare_system/selection_preferences.py:13-32 | the list has no duplicates and holds exactly the trimmed parts of at least two characters |
| ThemeKeywords.SplitThemesIs | src/ashare_system/selection_preferences.py:13-32 | the text is its parts with runs of separators between them, no part has a separator, and only the first and last can be empty |
| ThemeKeywords.OneMorePart | src/ashare_system/selection_preferences.py:13-32 | each part adds its trimmed form at the end unless it is too short or already there |
| ThemeKeywords.SystemKeywordsStay | src/ashare_system/selection_preferences.py:64-73 | with the suffixes of the system normalizing twice is normalizing once, and every keyword has at least two characters and no suffix left to take off |
| ThemeKeywords.NormalizeIsIdempotent | src/ashare_system/selection_preferences.py:13-32 | normalizing a normalized list changes nothing |
| ThemeKeywords.MatchExcludedTheme | src/ashare_system/selection_preferences.py:35-61 | returns the first keyword that matches any field, with the first field it matches, or nothing if none does |
| ThemeKeywords.MatchesIff | src/ashare_system/selection_preferences.py:55-56 | a keyword matches a field whose text contains it |
| ThemeKeywords.FieldsAre | src/ashare_system/selection_preferences.py:44-53 | searched are the name, the sector and every further text that is not blank, in order |
| ThemeKeywords.SameAnswerNormalized | src/ashare_system/selection_preferences.py:35-61 | the answer is the same for the raw and the normalized keyword list |
| ThemeKeywords.CharactersNeverMatch | src/ashare_system/selection_preferences.py:56-61 | a text read character by character as keywords matches nothing |

## Left out

- Atomicity: each handler, tick and store operation is one atomic step; races between two read-modify-write sequences on a stored list are not modelled, and neither are file writes and locks of `StateStore`.
- ExecutionGateway: statuses are an enumeration, so unknown status texts and the defaults and sanitizing of `build_execution_gateway_intent_packet` are not modelled.
- GatewayHandlers.StoreExecutionGatewayReceipt: does not model fill prices, the quality tracker and notifications that follow a stored receipt.
- Gateway clean-up outside this core (expiry of stale orders, broker fix-ups of the bridge) is not part of the steps.
- GatewayRuns.AuditTrailIsAChain: holds for runs that do not enqueue an id again, because that starts a new chain (GatewayRuns.ReenqueueReopens).
- ExecutionBridge.SubmissionsAreBounded: likewise; the control steps enqueue only new ids.
- GatewayRuns.TerminalIsAbsorbing: holds for runs that do not enqueue the id again, because enqueue reopens it (GatewayRuns.ReenqueueReopens).
- Lane: jobs end; the queue timeout and the caller's context are one rejection step; the branch on the job context is absent, since that context is never cancelled.
- Reconciliation: amounts and the average price are exact instead of rounded to four decimals; broker orders have an id; error payloads, the quality tracker and the unpersisted variants are not modelled.
- Reconciliation.RecoverThenReconcile: needs unique order ids, the order journal under its cap and every trade's order in the snapshot.
- FastPositionWatch: signals, approvals and broker answers are inputs; local-plane refreshes from broker orders are an input.
- DeepPositionWatch: the signal engines, the refresh of latest statuses and a rewritten entry with a known order id are not modelled; an order that stops being pending is a step, a scan is completed, and a journal is stored (without a meeting store nothing is written).
- DeepPositionWatch.OnePendingSellIff: needs distinct, nonblank symbols among the holdings of one scan.
- FastPositionWatch.SellsAreSpaced: needs distinct stripped symbols, a store and completed scans; the other lemmas show what happens otherwise.
- RegimeGuard: detection of a transition is an input.
- CrontabWeekdays: the meaning of APScheduler's fields is written down as sets of weekdays; month and hour fields and its validation are not modelled.
- BehaviorProfiles.StoredIsDaysMaximum: needs a symbol and a profile in every offered record, as the builder of the records gives them; BehaviorProfiles.ProfilelessRecordIsLostIff shows what happens otherwise. Generation times are numbers, not texts in one format.
- BehaviorProfiles.LoadBehaviorProfileRecords: takes the history with the latest artifact already appended when it is not in it.
- BehaviorProfiles.PersistBehaviorProfileArtifact: does not write the serving file, the generation time, the signature and the counts of the artifact.
- DossierRefresh.DossierStore.RefreshIfDue: leaves the trimming of the history to Retention.RetainTradeDates.
- DossierRefresh: forced calls, the contents of a pack and the fetches behind it are left out; fractional seconds are exact.
- RuntimeConfig.DottedEqualsNestedIff: for values in which one key is, as a path, a prefix of another key of the same dictionary (`"x"` beside `"x.y"`), no condition is given; RuntimeConfig.NestedLandsAtPath says for them too what the nested form leaves at the path.
- RuntimeConfig.UpdateIsIdempotentIff: for updates with overlapping keys only the sufficient direction holds (RuntimeConfig.UpdateIsIdempotent, RuntimeConfig.OverlapCanHide).
- RuntimeConfigManager: new values are copied into fresh dictionary objects, so later changes by the caller through a shared value are not modelled; the lock and errors of writing the file are left out.
- RuntimeConfigValidation: the fields and types of the schema are a parameter, with defaults and readings that are read as they are; the text of the file is a dump.
- GatewayWorker: which order, fills, latency, payload and summary lines the receipt takes is an input (`Details`).
- SupervisionTasks: which activities match which completion tags is a parameter; derivation of the tags and time zones are left out; a store is present.
- Portfolio: amounts are reals without rounding to four decimals.
- ReverseRepo.Inspect: messages, summary lines, the `persist` flag and the source of the reserve parameter are left out.
- ReverseRepo.RunsArePrudent: cash changes only through these repo orders and repos falling due, and a repo position is valued at its notional, where the code values it at quantity times last price.
- ThemeKeywords: only the characters that `str.strip` removes count as spaces; items that are not texts are left out.
- HTTP routing, messaging, prompts, market data pipelines, the AI and back-test packages, `cache.go` and `main.go`, and straight-line reports would only add easy members.
