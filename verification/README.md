# InfraSentinel: models and proofs

InfraSentinel is a monitoring backend with an agent on each machine. Its difficult parts are small
protocols over database rows that meet retries, crashes, replays and clocks. This project models those
protocols and proves what they promise, for all inputs and over all runs.

`dafny verify dfyconfig.toml` checks everything.

## How the protocols are modelled

A component is a module. Each transaction or single statement of the program is a function on the value of
its tables; a class holds those tables in its fields, and its methods, which have the program's loops and
branches, are proved to do what the functions say. Runs are sequences of such steps, and the main results
are lemmas about every run. A step that is not possible leaves the state alone, so every sequence of steps
is a run.

| files | subject |
|---|---|
| `Delivery`, `DeliverySafety`, `DeliveryAttempts`, `DeliveryDispatch`, `DeliveryProgress`, `DeliveryOverlap` | notification deliveries: claim, send, retry, recover, dispatch, cooldown |
| `Alerts`, `AlertDelivery` | alert deduplication, cooldown, escalation, resolution, and what is queued for an alert |
| `RuleEngine`, `RuleScans`, `RuleAlerts`, `OfflineScan` | duration timers, overlapping scans, timers against alerts, silent machines |
| `TaskLease` | `run_once` |
| `Ingest`, `Spool`, `Agent`, `AgentSpool`, `AgentSafety`, `AgentDrain` | metric ingestion, the agent's queue and loop, exactly-once storage |
| `Reconcile`, `ReconcileSafety`, `ReconcileMetrics` | connector reconciliation |
| `Realtime` | subscribe before replay |
| `LeastSquares`, `Trend` | the trend line, its prediction and its risk |
| `Sanitize` | audit metadata |

Conventions and assumptions:

- A primary key is a position in its table, and rows are not deleted. SHA-256 keys, UUIDs and joined key
  strings are injective identifiers.
- Time is an integer of seconds (a real number in `Trend`) that is given to each step. In the concurrent
  protocols the clock never goes back, and a worker's reading may be older than the clock.
- The answers of the adapter, the network, the collectors and the generator of jitter are parameters.
- Row locks and transactions make a step atomic. The uniqueness constraints are the database's.
- Mutual exclusion of deliveries assumes that an adapter call ends, or its worker dies, within the stale
  timeout (30 against 300 seconds in the settings); mutual exclusion of task bodies that they end or are
  killed within the stale limit (900 against 3600). What holds without these assumptions is exact: a call
  loses its row exactly as `LeaseLostExactlyByOvertaking` says, a second call of a delivery starts exactly as
  `ExclusionLostExactlyByDoubling` says, and a result is final exactly as `OutcomeIsFinalExactlyWithoutCall`
  and `SuccessIsFinalExactlyWithoutBody` say. `LateWorkerOverwritesSent` and `OverrunErasesSuccess` are runs
  from empty tables in which a result is lost. The bounds on attempts and the backoff need no assumption.
- Progress is stated for one dispatcher among any others and for steps that read clocks past the time at which
  the delivery was due. It counts the calls in flight at the start that may come back, after failing, before it.
- The order of due deliveries is the query's; rows that tie may come in any order. The last sent delivery
  inside a cooldown is the one with the greatest id among those sent at the same second; the cooldown
  bounds assume advancing clocks, and serial dispatch or calls of one preference and alert that do not overlap;
  without the latter `OverlappingSendsBreakCooldown` loses them, exactly as `CooldownLostExactlyByCrowding` says.
- The scans theorem assumes that no sample arrives behind a time that was already evaluated and that one
  series holds one value per timestamp.
- Group messages of the real-time channel arrive in order and are not lost, events are committed in the
  order of their sequence numbers, and queued messages are handled after `connect` has ended.
- A reconciliation reads the clock once, no other transaction interferes with it, and its stale assets are
  visited in table order.

Where the code does less than its documentation or its names suggest, the code is modelled. An incident that
reopens has the notification key of the first one (`ReopenedIncidentIsSilent`); two workers may send within
one cooldown (`OverlappingSendsBreakCooldown`); a rejected batch at the head of the spool stops the agent's
collection (`RejectedHeadBlocksForever`), and a spool cannot drain with one anywhere in it
(`SpoolCanDrainExactlyWhenAllAreTaken`); a batch is lost when the process dies
or something unexpected is raised while the process alone has it (`BatchIsLostExactlyWhenDropped`); a replay
brings at most 500 events (`ConnectionIsCompleteExactlyWithinTheLimit`); a metric with an empty key is stored
again by every collection (`SecondRunAddsNoMetricExactlyWhenKeyed`); the sanitiser is not idempotent on two
families of values (`SecondTimeIsNoOpExactlyWhenItStays`).

## Model

| member | source | states |
|---|---|---|
| `Delivery.Latest` | backend/notifications/services.py:90-101 | the row found is a SENT one of the same preference and alert inside the window, none sent later qualifies, and None means there is none |
| `Delivery.Delay` | backend/notifications/services.py:149 | every delay lies between 30 and 3600 seconds, and a delay after an attempt is at least 60 |
| `DeliveryAttempts.DelaysDouble` | backend/notifications/services.py:149 | the first delay is 60 seconds, each is double the one before up to 3600, and it stays 3600 from the seventh on |
| `Delivery.FreshRowsServeWanters` | backend/notifications/services.py:37-49 | an enabled e-mail preference gets a delivery exactly when its minimum severity is reached, and never two |
| `Delivery.AnnouncedExactlyWhenNew` | backend/notifications/services.py:18-36 | an alert leads to a notification event exactly when it is HIGH or CRITICAL and its (key, type, occurrences) is new to the customer |
| `Delivery.ReopenedIncidentIsSilent` | backend/notifications/services.py:20-22 | a reopened incident whose counter starts over collides with the event of the first one and is not announced |
| `Delivery.QueuedKeepsUnique` | backend/notifications/models.py:64-105 | queueing keeps one event per customer and key and one delivery per event and preference |
| `Delivery.NotificationService.QueueAlertNotification` | backend/notifications/services.py:13-62 | the event and its deliveries are appended, or nothing changes, including for a missing alert |
| `Delivery.NotificationService.CreateDeliveries` | backend/notifications/services.py:43-49 | the loop over the preferences appends exactly one fresh delivery for each that wants the alert |
| `Delivery.NotificationService.RecoverStaleDeliveries` | backend/notifications/services.py:73-84 | exactly the SENDING rows untouched for longer than the timeout become RETRY, due now, and their number is returned |
| `Delivery.NotificationService.ClaimDelivery` | backend/notifications/services.py:112-131 | the locked row is left, suppressed, or claimed with one more attempt; the answer says which |
| `Delivery.NotificationService.DeliverNotification` | backend/notifications/services.py:110-169 | one whole call: answer and new tables for every status, clock and adapter outcome; a claimed delivery whose adapter raises is FAILED exactly when it already had seven attempts, otherwise RETRY and due a delay later; other rows stay |
| `Delivery.AnswerTellsTheRow` | backend/notifications/services.py:110-169 | which of the six answers a call gives is exactly what its delivery is afterwards, or that it was being sent or was not due |
| `Delivery.WritesAreStamped` | backend/notifications/services.py:122-168 | a call that writes its delivery leaves the time of its last write as updated_at |
| `Delivery.AnsweredCounts` | backend/notifications/services.py:193-196 | the counts of a round are the numbers of calls that answered so |
| `Delivery.BatchIsInOrder` | backend/notifications/services.py:175-185 | a batch holds waiting due deliveries, by next_attempt_at and then created_at, and fewer than the limit only when none is left out |
| `Delivery.NotificationService.DispatchDueNotifications` | backend/notifications/services.py:172-198 | a round recovers, delivers the selected ids in order, closes the events without open deliveries, and counts |
| `Delivery.NotificationService.DeliverBatch` | backend/notifications/services.py:186-196 | the loop over the selected ids: each is delivered in turn, and the answers SENT and FAILED are counted |
| `DeliverySafety.LeaseLostExactlyByOvertaking` | backend/notifications/services.py:73-84 | with any number of workers, a step makes a call in flight lose its SENDING row exactly when a recovery puts that row back in the queue |
| `DeliverySafety.ExclusionLostExactlyByDoubling` | backend/notifications/services.py:112-131 | two calls of one delivery are in flight after a step exactly when the step claims a claimable delivery of which a call is still in flight |
| `DeliverySafety.PromptRunKeepsExclusion` | backend/config/settings.py:383-387 | when each call ends or its worker dies within the stale timeout, every run keeps one call per delivery, each holding its row |
| `DeliverySafety.AtMostOneCallPerDelivery` | backend/notifications/services.py:110-169 | in every reachable state two workers never send the same delivery, and a delivery being sent is SENDING |
| `DeliverySafety.OutcomesAreFinal` | backend/notifications/services.py:65-69 | over any such run a row that is SENT, FAILED or SUPPRESSED is never written again |
| `DeliverySafety.ProcessedEventsAreFinished` | backend/notifications/services.py:187-192 | in every reachable state an event with processed_at has only finished deliveries |
| `DeliverySafety.OutcomeIsFinalExactlyWithoutCall` | backend/notifications/services.py:151-168 | a finished delivery keeps its row over every run, timely or not, exactly when no call of it is in flight |
| `DeliverySafety.LateWorkerOverwritesSent` | backend/notifications/services.py:151-168 | without the timing assumption a run from an empty table turns a SENT delivery into a RETRY |
| `DeliverySafety.RunKeepsUnique` | backend/notifications/models.py:64-105 | no run, timely or not, ever holds two events of one key or two deliveries of one event to one preference |
| `DeliveryAttempts.AttemptsAreBounded` | backend/notifications/services.py:123-150 | over every run, timely or not, attempts count the claims and are at most eight plus the stale recoveries of the delivery |
| `DeliveryAttempts.RetriesBackOff` | backend/notifications/services.py:149-157 | over every run, timely or not, the k-th retry of a delivery that was never recovered waits for the sum of the delays before it, and the eighth claim at least 7380 seconds |
| `DeliveryAttempts.FailureGivesUpExactlyAtEight` | backend/notifications/services.py:148-158 | a call that fails leaves its delivery FAILED exactly when it was the eighth attempt or a later one, and otherwise RETRY, due a delay after the call's own time |
| `DeliveryAttempts.FailedAfterEightAttempts` | backend/notifications/services.py:148-158 | over every run, timely or not, a FAILED delivery has had at least eight attempts |
| `DeliveryAttempts.GivenUpAfterEight` | backend/notifications/services.py:148-158 | from an empty table no delivery is FAILED with fewer than eight claims |
| `DeliveryDispatch.WindowHoldsOneLesser` | backend/notifications/services.py:87-107 | whatever was sent inside the window of a claimable delivery was below CRITICAL, and the delivery is CRITICAL |
| `DeliveryDispatch.SuppressedExactlyByTheLast` | backend/notifications/services.py:87-107 | a delivery is suppressed exactly when the last one of its preference and alert that was sent in the window is not a lesser one that a CRITICAL one escalates |
| `DeliveryDispatch.EscalationPasses` | backend/notifications/services.py:104-107 | a due CRITICAL delivery is claimable when everything sent in its window is below CRITICAL |
| `DeliveryDispatch.RoundKeepsCooldown` | backend/notifications/services.py:172-192 | a whole dispatch round keeps the cooldown between everything sent |
| `DeliveryDispatch.SerialRunKeepsCooldown` | backend/notifications/services.py:125-128 | over any serial run of rounds and single steps two sent deliveries of one preference and alert within the cooldown are a lesser one, then a CRITICAL one |
| `DeliveryDispatch.AtMostTwoPerWindow` | backend/notifications/services.py:87-107 | no window of a cooldown ever holds three sent deliveries of one preference and alert |
| `DeliveryDispatch.RoundIsSerial` | backend/notifications/services.py:172-192 | a dispatch round equals its recovery, its deliveries in order and the closing of events as single steps |
| `DeliveryDispatch.TriedRowMovesBehind` | backend/notifications/services.py:149-157 | a delivery that was tried and still waits is due later than the time of the trial |
| `DeliveryDispatch.RoundServesOrLowersAhead` | backend/notifications/services.py:172-186 | after a round that selects a due delivery it no longer waits for that time; any other round takes exactly limit deliveries from those ordered before it, and adds none |
| `DeliveryDispatch.NothingOvertakes` | backend/notifications/services.py:73-84 | between rounds a due delivery is tried and no longer waits for that time, or keeps its row, and retried, recovered, crashed and new deliveries stay behind it |
| `DeliveryDispatch.DueDeliveryIsHandledInTime` | backend/notifications/services.py:175-186 | a due delivery no longer waits for that time after ahead / limit + 1 rounds, whatever else happens between them |
| `DeliveryProgress.StepMovesNothingAhead` | backend/notifications/services.py:73-84 | whatever another worker does, late or not, while the row of a due delivery is left alone only a call that fails after a long time may put its one delivery in front of it, and that call is then over |
| `DeliveryProgress.MoveIsPaidFor` | backend/notifications/services.py:172-186 | while the row of a due delivery is left alone, no move of any worker, a kill after its selection included, adds to what may come before it, and each finished round has taken limit from that |
| `DeliveryProgress.DueDeliveryIsServedInTime` | backend/notifications/services.py:172-198 | among any number of overlapping dispatchers and late workers, the row of a due delivery changes before one dispatcher has finished (ahead + returning) / limit + 1 rounds, however often that one is killed and starts over |
| `DeliveryProgress.DueDeliveryIsClaimedInTime` | backend/notifications/services.py:110-131 | when no call of the delivery is in flight, that change is its claim: it is being sent, or suppressed by the cooldown, within as many rounds |
| `DeliveryOverlap.CooldownLostExactlyByCrowding` | backend/notifications/services.py:87-107 | with any number of overlapping workers, a step breaks the cooldown exactly when it records a send too close to another send of the same preference and alert |
| `DeliveryOverlap.OverlappingSendsBreakCooldown` | backend/notifications/services.py:125-168 | two workers, each within the stale timeout, send two HIGH deliveries of one alert to one preference at the same second, from an empty table |
| `DeliveryOverlap.ClearRunKeepsCooldown` | backend/notifications/services.py:110-168 | over any run, timely or not, the cooldown is kept when each claim comes while no call of the same preference and alert is in flight and reads a time after their sends |
| `DeliveryOverlap.AtMostTwoAmongOverlapping` | backend/notifications/services.py:87-107 | over such a run from an empty table no window of a cooldown holds three sent deliveries of one preference and alert |
| `Alerts.FindOpen` | backend/monitoring/alert_service.py:30-41 | the newest open alert of a customer and key, or None when there is none |
| `Alerts.SameKeyExactly` | backend/monitoring/alert_service.py:12-14 | two raises have one key exactly when machine, type and source agree, an empty source standing for the type |
| `Alerts.RaiseSetsTheRow` | backend/monitoring/alert_service.py:30-81 | after a raise the alert of the key is open with the higher of the two severities; a new one starts with one occurrence, a repeat is counted and refreshed exactly outside the cooldown, and no other alert changes |
| `Alerts.RaiseIsAnnounced` | backend/monitoring/alert_service.py:96-113 | a raise publishes one notice exactly when it creates, counts, escalates or scores; the notice shows the row as it is afterwards, and asks for a notification exactly of a HIGH or CRITICAL one |
| `Alerts.ResolvingIsAnnounced` | backend/monitoring/alert_service.py:118-158 | resolving closes the open alert of the key with the given reason and publishes that once, without a notification |
| `AlertDelivery.NewSevereAlertIsQueued` | backend/monitoring/alert_service.py:107-113 | a new HIGH or CRITICAL alert puts exactly one pending delivery, due at once, in the queue of each preference that wants it, and none in the others |
| `AlertDelivery.RaiseIsQueuedExactlyWhenSevereAndNew` | backend/monitoring/alert_service.py:84-113 | any raise queues its alert for all who want it exactly when it is published, the alert is HIGH or CRITICAL afterwards and its count was not announced before; otherwise it queues nothing |
| `Alerts.RepeatIsSilentExactlyInCooldown` | backend/monitoring/alert_service.py:45-77 | raising an alert changes and publishes nothing exactly when it repeats an open one within its cooldown, no worse and without a score |
| `Alerts.MachineAlertsClosed` | backend/monitoring/alert_service.py:161-188 | exactly the open alerts of the type on the machine are closed, and uniqueness is kept |
| `Alerts.ListedKeyFindsItsRow` | backend/monitoring/alert_service.py:171-181 | looking up a listed key again during the loop finds exactly the listed row |
| `Alerts.AlertService.CreateOrUpdateAlert` | backend/monitoring/alert_service.py:17-115 | refreshes the open alert with the key (counter, escalation, score) or creates it; the returned row is open; uniqueness is kept without the constraint's help |
| `Alerts.AlertService.ResolveOpenAlert` | backend/monitoring/alert_service.py:118-158 | closes the open alert of the key if there is one; none is open afterwards |
| `Alerts.AlertService.ResolveMachineAlerts` | backend/monitoring/alert_service.py:161-215 | the loop over the listed keys closes each listed row once and returns how many |
| `Alerts.RaisedKeepsUnique` | backend/monitoring/models.py:113-120 | create_or_update_alert never trips the uniqueness constraint |
| `Alerts.RunKeepsUnique` | backend/monitoring/models.py:113-120 | at most one alert per customer and key is open, over any interleaving of creating, resolving and guarded manual changes |
| `Alerts.AlertHistory` | backend/monitoring/alert_service.py:45-61 | over any run with non-decreasing times: last_seen - first_seen >= cooldown * (occurrences - 1), and initial rank + escalations <= rank <= 3 |
| `RuleEngine.DimensionsSeparateSeries` | backend/monitoring/engine.py:29-34 | two samples share a dimension exactly when neither carries one of the fields, or the same field leads in both with the same value |
| `RuleEngine.DimensionIsTheFirstField` | backend/monitoring/engine.py:20-34 | the dimension is the first of the five fields that has a text, with that text, and empty without any |
| `RuleEngine.AppliesExactlyWhenMeant` | backend/monitoring/engine.py:37-46 | a rule is left out exactly when it is off or of another customer, metric, environment or machine |
| `RuleEngine.OperatorsCompare` | backend/monitoring/engine.py:11-18 | the six operators compare value and threshold: strictness, mirror images and complements |
| `RuleEngine.ShownAdvancesOwnTimer` | backend/monitoring/engine.py:49-62 | a sample moves exactly the timers of the rules that apply to it, each by its own rule |
| `RuleEngine.RunStart` | backend/monitoring/engine.py:66-90 | the computed start is that of the longest matching suffix |
| `RuleEngine.AcceptedGrows` | backend/monitoring/engine.py:62-63 | accepting a sample exactly when it is later than the last accepted one yields the strict left-to-right maxima |
| `RuleEngine.AdvanceKeepsMeaning` | backend/monitoring/engine.py:49-105 | one step of the timer equals recomputing the trailing run over the longer series |
| `RuleEngine.EveryTimerIsItsTrailingRun` | backend/monitoring/engine.py:49-105 | after any samples in any order, first_true_at is the start of the maximal matching suffix of the accepted samples and active says whether it lasted duration_seconds |
| `RuleEngine.Engine.EvaluateRule` | backend/monitoring/engine.py:62-105 | one rule and one sample: timer, alert and the triggered count, for replays, clears, pending and firing samples |
| `RuleEngine.Engine.EvaluateMetric` | backend/monitoring/engine.py:49-105 | one sample against every applicable rule, nothing for a null value |
| `RuleEngine.TriggeredCounts` | backend/monitoring/engine.py:55-105 | the count of a metric is the number of rules that fire, each at its turn |
| `RuleEngine.Engine.EvaluateWindow` | backend/monitoring/engine.py:108-115 | the loop over a window leaves the timers and alerts of showing its samples in order, and counts what triggered |
| `RuleScans.ReplayIsNoOp` | backend/monitoring/engine.py:62-63 | evaluating already seen samples again, in any order and at any later time, changes neither timers nor alerts |
| `RuleScans.ScansAcceptEverySample` | backend/monitoring/engine.py:108-115 | over covering scans in which nothing arrives late, the accepted samples of a timer are exactly those ever visible |
| `RuleScans.OverlappingScansEqualOnePass` | backend/monitoring/engine.py:108-115 | such overlapping scans leave exactly the RuleStates of one pass over the whole sorted history |
| `RuleAlerts.TimersAndAlertsAgree` | backend/monitoring/engine.py:67-104 | from an empty deployment, over any evaluations with edited rules and any other alerts, active holds exactly when the timer's RULE_THRESHOLD alert is open |
| `RuleAlerts.OpenAlertsHaveActiveTimers` | backend/monitoring/alert_service.py:118-136 | with manual resolution as well, an open rule alert still has an active timer |
| `RuleAlerts.FiringRaisesItsSeverity` | backend/monitoring/engine.py:80-104 | a rule that fires leaves the alert of its timer open with the rule's severity, or the higher one the alert had, and counts a repeat exactly when the rule's cooldown has passed |
| `RuleAlerts.ClearingClosesItsAlert` | backend/monitoring/engine.py:67-78 | a rule that clears closes the open alert of its timer with the reason condition_cleared |
| `RuleAlerts.RuleAlertsNeverEase` | backend/monitoring/engine.py:80-104 | over any run an alert never ranks below any edition of its rule that fired it, whatever else is raised, edited or closed |
| `RuleAlerts.ManualChangeKeepsAgreementExactly` | backend/monitoring/engine.py:67-104 | a manual status change of a rule alert keeps timers and alerts in agreement exactly when it neither closes nor reopens the alert |
| `OfflineScan.OfflineMonitor.Sweep` | backend/monitoring/engine.py:132-160 | one rule over the machines: power, events, alerts and the count |
| `OfflineScan.OfflineMonitor.EvaluateOfflineMachines` | backend/monitoring/engine.py:120-161 | the nested loops over rules and machines, and how many verdicts they reach |
| `OfflineScan.ScanPublishesTransitions` | backend/monitoring/engine.py:135-146 | one machine.offline event for each machine that changes to offline, however many rules find it silent, and no other |
| `OfflineScan.ScanPower` | backend/monitoring/engine.py:120-137 | a machine is offline after a scan exactly when it was before, or was never seen or longer ago than the duration of a rule meant for it |
| `OfflineScan.ScanPutsEveryRuleInForce` | backend/monitoring/engine.py:147-159 | after a scan each machine a rule finds silent is offline and has the alert of that rule open, no less severe than the rule |
| `OfflineScan.CheckRaisesTheRule` | backend/monitoring/engine.py:147-159 | a machine not seen for longer than the rule's duration gets the rule's alert: with its severity when none was open, otherwise never eased and counted by the rule's cooldown |
| `OfflineScan.SilentsCount` | backend/monitoring/engine.py:125-161 | the count of a rule is the number of machines that are overdue for it |
| `TaskLease.TaskRunTable.Begin` | backend/async_tasks/idempotency.py:19-38 | the first transaction answers with the stored result, reports a running task, takes the row over, or finds none |
| `TaskLease.RaceHasOneWinner` | backend/async_tasks/idempotency.py:39-48 | of two callers that both found no row, the first to add it runs the body and the other leaves the table as it is |
| `TaskLease.TaskRunTable.RunOnce` | backend/async_tasks/idempotency.py:10-67 | one whole call for every row state and every end of the body, a killed worker included |
| `TaskLease.ExclusionLostExactlyByOvertaking` | backend/async_tasks/idempotency.py:28-38 | over any callers, two bodies of one scope run at once exactly when a call takes over the lease of a body still running |
| `TaskLease.AtMostOneBodyRuns` | backend/async_tasks/idempotency.py:19-67 | when executions end or are killed before stale_after_seconds, at most one body per (customer, task, key) runs, and its row is RUNNING |
| `TaskLease.SuccessIsFinal` | backend/async_tasks/idempotency.py:26-27 | over any such run a SUCCESS row never changes and its body never runs again |
| `TaskLease.LaterCallersGetTheResult` | backend/async_tasks/idempotency.py:26-27 | every later caller gets the stored result and changes nothing |
| `TaskLease.ResultIsRemembered` | backend/async_tasks/idempotency.py:26-66 | what the body of a caller returns is what every later caller gets, over any run within the time limit |
| `TaskLease.SecondCallGetsTheFirstResult` | backend/async_tasks/idempotency.py:10-67 | of two calls one after the other the second gets the result of the first, or none when the first failed or was killed |
| `TaskLease.BodyRunsExactlyWhenFree` | backend/async_tasks/idempotency.py:24-38 | the body runs exactly when there is no row, a FAILURE, or a lease at least as old as stale_after_seconds; otherwise the stored result or a report is returned |
| `TaskLease.CallLeavesItsEnd` | backend/async_tasks/idempotency.py:28-66 | a call that runs the body leaves its owner, its start and the end of the body in its row: the result, the failure text, or a lease without an end |
| `TaskLease.OtherScopesAreUntouched` | backend/async_tasks/idempotency.py:20-25 | a run that works on other scopes leaves the row of a scope as it was |
| `TaskLease.SuccessIsFinalExactlyWithoutBody` | backend/async_tasks/idempotency.py:58-66 | a SUCCESS row is unchanged over every run, timely or not, exactly when no body of its scope is running |
| `TaskLease.OverrunErasesSuccess` | backend/async_tasks/idempotency.py:58-66 | without the time limit a run from an empty table replaces a SUCCESS |
| `Ingest.InsertAllStoresOnce` | backend/metrics/services.py:40-42 | inserting with ignored conflicts stores nothing twice, invents nothing, and leaves every key stored |
| `Ingest.StoredRowHoldsItsItem` | backend/metrics/services.py:28-39 | after an accepted batch each metric with a key that is free and new in the batch has exactly one row, each without a key has one, and the row holds the machine and the metric's own name, value and time |
| `Ingest.IngestedShowsTheBatch` | backend/metrics/services.py:35-55 | earlier rows stay, every new row holds a metric of the batch, the machine is online and seen now, no other machine changes, and the last metric is published |
| `Ingest.SecondInsertIsNoOpExactlyWhenKeyed` | backend/metrics/models.py:27-33 | storing a batch again stores nothing exactly when each of its metrics has a key |
| `Ingest.CountIsWhatWasStored` | backend/metrics/services.py:20-39 | when the key query missed nothing, the rows the loop picks are as many as the rows stored |
| `Ingest.PickingLosesNothing` | backend/metrics/services.py:25-42 | whatever the key query missed, inserting the rows the loop picks leaves the table of inserting them all |
| `Ingest.MetricStore.IngestMetrics` | backend/metrics/services.py:9-56 | the loop and the insert leave the table of a conflict-free insert whatever the key query missed; rejected exactly for a wrong source, an empty batch, more than 5000 metrics or one that does not normalise; machine and publication are updated |
| `SpoolQueue.Pushed` | agent/infrasentinel_agent/spool.py:28-41 | a push keeps the queue in the order of its identifiers |
| `SpoolQueue.PushEvictsNothingExactlyWithRoom` | agent/infrasentinel_agent/spool.py:34-41 | a push appends and evicts nothing exactly when the bound leaves room |
| `SpoolQueue.DeleteHead` | agent/infrasentinel_agent/spool.py:52-54 | deleting the identifier of the oldest row removes that row only |
| `SpoolQueue.Spool.Push` | agent/infrasentinel_agent/spool.py:28-41 | appends the payload and drops the oldest rows beyond max_items |
| `SpoolQueue.Spool.Peek` | agent/infrasentinel_agent/spool.py:43-50 | the oldest rows, oldest first, at most limit of them |
| `SpoolQueue.WithoutKeepsOrder` | agent/infrasentinel_agent/spool.py:52-54 | deleting any row keeps the others in the order of their identifiers |
| `SpoolQueue.Spool.Delete` | agent/infrasentinel_agent/spool.py:52-54 | exactly the rows with another identifier stay, and the queue stays ordered |
| `SpoolQueue.CountAfterPush` | agent/infrasentinel_agent/spool.py:28-41 | a push leaves one row more, or as many as max_items allows |
| `Agent.AgentRuntime.Send` | agent/infrasentinel_agent/client.py:22-71 | one request: lost, refused by the server, or taken with the reply arriving or not, and what the server then stores |
| `Agent.AgentRuntime.FlushOne` | agent/infrasentinel_agent/runtime.py:48-50 | one turn of the flush: sent, and deleted exactly when it was acknowledged and nothing was raised |
| `Agent.AgentRuntime.Flush` | agent/infrasentinel_agent/runtime.py:47-50 | sends the oldest batches in order, deletes each acknowledged one, and stops at the first failure |
| `Agent.AgentRuntime.Greet` | agent/infrasentinel_agent/runtime.py:60-65 | the heartbeats of a cycle and what a failing one leaves unset |
| `Agent.AgentRuntime.CollectAndSend` | agent/infrasentinel_agent/runtime.py:67-73 | collects with fresh identifiers, sends, and spools on a refused request; a request or a push that raises anything else, or a death at either, ends the cycle as the handlers say |
| `Agent.AgentRuntime.Cycle` | agent/infrasentinel_agent/runtime.py:57-93 | one turn of the loop: its result, the new backoff and the wait |
| `Agent.AgentRuntime.MainLoop` | agent/infrasentinel_agent/runtime.py:52-93 | the loop over any sequence of outcomes |
| `AgentSafety.SendKeepsTidy` | backend/metrics/services.py:20-42 | a send stores no key twice, keeps identifiers genuine, and a batch the server took is stored whole even when the reply is lost |
| `AgentSafety.FlushKeepsTidy` | agent/infrasentinel_agent/runtime.py:47-50 | a flush keeps every batch held and the stored metrics genuine: a row leaves only when its batch is stored |
| `AgentSpool.FlushOnQueue` | agent/infrasentinel_agent/runtime.py:47-50 | wherever a flush stops, it has removed exactly the oldest rows whose batches were taken and acknowledged one after the other, and it ends normally exactly when those are all |
| `AgentSpool.CollectionFindsRoom` | agent/infrasentinel_agent/runtime.py:66-72 | a cycle that gets to collect has sent the oldest 25 rows, or all, and leaves room for one more batch within max(1, n) |
| `AgentSpool.SpoolStaysSmall` | agent/infrasentinel_agent/runtime.py:47-73 | over every run, whatever fails, dies or is lost and whatever max_items is, the spool holds at most max(1, n) rows |
| `AgentSpool.PushesEvictNothing` | agent/infrasentinel_agent/spool.py:34-41 | with max_items of at least max(1, n) no push of any run evicts a batch |
| `AgentSafety.CycleKeepsHeld` | agent/infrasentinel_agent/runtime.py:57-93 | a cycle that does not drop its own batch keeps every collected batch stored or spooled |
| `AgentSafety.EveryBatchIsHeld` | agent/infrasentinel_agent/runtime.py:47-73 | over every run from n spooled batches in which no cycle drops its batch, each batch is stored or spooled and no key is stored twice |
| `AgentSafety.DrainedMeansStoredExactlyOnce` | agent/infrasentinel_agent/collector.py:62 | whenever the spool is empty exactly one row of the customer has the identifier of each metric ever collected, and it shows the machine, name, value and time of the reading |
| `AgentSafety.BatchIsLostExactlyWhenDropped` | agent/infrasentinel_agent/runtime.py:69-73 | with room in the spool, a collected batch is lost exactly when the server did not take it and the process died, something else was raised, or the push failed before it was committed |
| `AgentDrain.RowLeavesExactlyWhenAcknowledged` | agent/infrasentinel_agent/runtime.py:48-50 | a flush turn deletes its row exactly when the server takes the batch, the reply arrives and nothing is raised |
| `AgentDrain.RejectedHeadBlocksForever` | agent/infrasentinel_agent/runtime.py:66-67 | a batch the server refuses for good stays at the head over any run, and nothing is collected or stored any more |
| `AgentDrain.QueueStaysExactlyWhenHeadIsRefused` | agent/infrasentinel_agent/runtime.py:47-67 | a spool with batches stays as it is over every run exactly when the server refuses the batch at its head |
| `AgentDrain.RunKeepsVerdicts` | backend/metrics/services.py:9-24 | whether the server takes a batch does not change over any run |
| `AgentDrain.RefusedBatchStays` | agent/infrasentinel_agent/runtime.py:47-73 | a refused batch anywhere in a spool that is within its bound is still there after any run |
| `AgentDrain.SpoolCanDrainExactlyWhenAllAreTaken` | agent/infrasentinel_agent/runtime.py:47-73 | some run empties a spool that is within its bound exactly when the server takes every batch in it |
| `AgentSafety.BackoffDoubles` | agent/infrasentinel_agent/runtime.py:84-92 | after k retryable or unexpected failures since the last success the backoff is min(300, 2^k) |
| `AgentSafety.WaitIsBounded` | agent/infrasentinel_agent/runtime.py:75-91 | no wait is negative or exceeds the larger of 305 seconds and the interval |
| `AgentSafety.FailuresAreSpacedOut` | agent/infrasentinel_agent/runtime.py:74-92 | after k such failures the next wait is at least min(300, 2^k) seconds; a refusal waits the interval, and a success fills it up |
| `AgentSafety.GreetingKeepsTheBeat` | agent/infrasentinel_agent/runtime.py:60-65 | a cycle that gets past its heartbeats knows the machine it was told and has a beat no older than heartbeat_seconds; a failing heartbeat ends it as it failed |
| `AgentSafety.FlushEndsAtTheFirstFailure` | agent/infrasentinel_agent/runtime.py:47-50 | a flush ends as its first turn that was not acknowledged: by a death, an exception, a lost request or reply, or a refusal that is no reason to retry |
| `AgentSafety.CollectionEndsAsItsRequest` | agent/infrasentinel_agent/runtime.py:67-73 | a collection draws exactly what was read and ends as its live request; only a failed request is spooled, and what happens to the push comes on top |
| `AgentSafety.CycleSucceedsExactlyWhenAcknowledged` | agent/infrasentinel_agent/runtime.py:66-74 | a cycle succeeds exactly when it gets to collect and its live batch is taken and acknowledged |
| `AgentSafety.RestartForgets` | agent/infrasentinel_agent/runtime.py:55-62 | a process that died starts over without machine, heartbeat and backoff |
| `Reconcile.KeysAreGivenOnce` | backend/integrations/services.py:61-65 | the payload left behind by setting the default keys is keyed alike when it is used again, whatever its collection time then |
| `Reconcile.OfflineExactlyWhenNamed` | backend/integrations/services.py:17-29 | a state means offline exactly when it reads, in any case, as one of five words |
| `Reconcile.RowsShowTheResource` | backend/integrations/services.py:30-58 | the machine and the asset of a resource show it field by field, with what is missing made up for |
| `Reconcile.ItemShowsTheMetric` | backend/integrations/services.py:59-76 | a metric is passed on as measured, under its own key, none or its place in the payload, or refused when unsound or when the key exceeds 128 characters |
| `Reconcile.Reconciler.PersistResource` | backend/integrations/services.py:14-80 | one resource: machine and asset upserted, metrics stored, an offline machine set offline again; None when something is raised |
| `Reconcile.Reconciler.PersistResources` | backend/integrations/services.py:14-80 | the outer loop: all resources in order with their metric count and seen identifiers, or failure |
| `Reconcile.Reconciler.RetireStale` | backend/integrations/services.py:81-98 | the loop over the connector's assets not seen, against the machine rows loaded with them |
| `Reconcile.Reconciler.PersistCollection` | backend/integrations/services.py:7-107 | the transaction: everything, or the state as it was |
| `ReconcileSafety.AllOrNothing` | backend/integrations/services.py:7-15 | a run succeeds exactly when every resource has an identifier and at most 5000 metrics, none of them refused; otherwise nothing is written |
| `ReconcileSafety.PersistingKeepsSound` | backend/inventory/models.py:134-166 | every run keeps the uniqueness of machines, assets and metric keys and the link of each asset to its own machine |
| `ReconcileSafety.AssetsMirrorThePayload` | backend/integrations/services.py:14-87 | afterwards each listed asset and its machine show the last occurrence of hosts, then machines, then datastores, field by field; each missing one is UNAVAILABLE with its machine offline |
| `ReconcileSafety.OthersAreUntouched` | backend/integrations/services.py:31-86 | rows of other connectors and of agents are neither changed nor made |
| `ReconcileSafety.OfflineEventsAreTransitions` | backend/integrations/services.py:82-98 | the retirement publishes one event for each machine it turns offline and no other |
| `ReconcileSafety.SecondRunChangesNoState` | backend/integrations/services.py:7-107 | a second run on the same payload succeeds, moves only last_seen, makes no row and publishes no offline event |
| `ReconcileSafety.SecondRunAddsNoMetricExactlyWhenKeyed` | backend/integrations/services.py:61-76 | a second run on the same payload stores no metric exactly when no metric came with an empty key |
| `ReconcileSafety.MetricCountIsRowsStored` | backend/integrations/services.py:74-107 | the reported number of metrics is the number of rows stored, and the other three are the numbers of the payload |
| `ReconcileMetrics.MetricsAreStoredAsCollected` | backend/integrations/services.py:59-76 | after a run every metric with a key is stored for the customer, and every added row is a metric of the payload as collected, on the machine of its resource |
| `Realtime.Session.PublishEvent` | backend/realtime/publisher.py:10-39 | the publication step: the event is stored and queued for the tenant's consumer, and nothing owed is skipped by it |
| `Realtime.Session.JoinGroup` | backend/realtime/consumers.py:29-31 | the join step: nothing owed is skipped by it when the backlog fits a replay |
| `Realtime.Session.SendReplay` | backend/realtime/consumers.py:33-35 | the replay step: the loop sends at most the first 500 events after the cursor, and nothing owed is skipped before what waits in the mailbox |
| `Realtime.Session.HandleNext` | backend/realtime/consumers.py:44-48 | the step of tenant_event keeps what is pending, in its order, without a gap |
| `Realtime.Session.OnMessage` | frontend/src/realtime.jsx:38 | the step of onmessage: everything owed up to the new cursor was received |
| `Realtime.Session.Disconnect` | backend/realtime/consumers.py:37-42 | the loss of a connection leaves everything owed up to the cursor received |
| `Realtime.Session.Drain` | backend/realtime/consumers.py:44-48 | handling and reading until nothing is pending leaves the browser with exactly the committed events it is owed |
| `Realtime.SinceMembers` | backend/realtime/consumers.py:67-71 | the replay query selects exactly the tenant's events after the cursor |
| `Realtime.BacklogThenMailbox` | backend/realtime/consumers.py:29-35 | the backlog at the replay is the backlog at the join followed by the mailbox |
| `Realtime.RunKeepsNoGap` | backend/realtime/consumers.py:29-48 | over any run of publications, connections, losses and readings whose joins find at most 500 missed events, nothing up to the cursor is missing and nothing pending overtakes an unseen event |
| `Realtime.NoEventIsSkipped` | frontend/src/realtime.jsx:34-38 | from nothing received: the browser holds only its tenant's events after its first cursor, and all of them up to its present cursor |
| `Realtime.DrainingDeliversAll` | backend/realtime/consumers.py:44-48 | draining a live connection delivers exactly all committed events the browser is owed |
| `Realtime.ConnectionIsCompleteExactlyWithinTheLimit` | backend/realtime/consumers.py:67-71 | for one connection with any publications between join and replay, draining delivers everything exactly when the backlog at the join was at most 500 |
| `LeastSquares.DeterminantIsPositive` | backend/ml_engine/predictive.py:56-59 | two samples at different times make the sum of squared deviations positive, so the slope is defined |
| `LeastSquares.FitIsTheBestLine` | backend/ml_engine/predictive.py:59 | the closed form is the only line with the smallest sum of squared errors, among all lines |
| `LeastSquares.ExactDataGiveTheirLine` | backend/ml_engine/predictive.py:59 | samples on a line give back that line |
| `Trend.AnalyzeMachineTrends` | backend/ml_engine/predictive.py:32-118 | the grouping loop and the analysis loop yield the reports of the first max_metrics groups, sorted by risk |
| `Trend.ReportAt` | backend/ml_engine/predictive.py:46-117 | each metric with at least three samples over a positive span has its report, at its rank among such metrics |
| `Trend.ReportComesFrom` | backend/ml_engine/predictive.py:46-117 | every report is that of such a metric, at its rank |
| `Trend.ReportCount` | backend/ml_engine/predictive.py:46-58 | there are as many reports as such metrics |
| `Trend.ReportShows` | backend/ml_engine/predictive.py:46-117 | a report carries the metric, unit, newest value and count of its samples, the direction of the rate beyond a thousandth of the average, the confidence by samples and hours, and whether the rule is breached |
| `Trend.GroupsPartitionTheRows` | backend/ml_engine/predictive.py:43-45 | the groups are exactly the rows of each metric in their order, each metric once |
| `Trend.ByRiskSortsStably` | backend/ml_engine/predictive.py:118 | the result falls in risk, and the reports of any one risk are those given, in the order given |
| `Trend.RollingForgets` | backend/ml_engine/predictive.py:60-61 | samples older than the last five do not change the rolling average |
| `Trend.RollingIsTheMean` | backend/ml_engine/predictive.py:60-61 | the rolling average times the count is the sum of the last five values, or of all when there are fewer |
| `Trend.RollingFollowsUnits` | backend/ml_engine/predictive.py:60-61 | mapping every value to a * value + c maps the rolling average the same way |
| `Trend.MirroredSamplesMirrorTheTrend` | backend/ml_engine/predictive.py:59-70 | negating every value negates the rate, the average and the last value, turns INCREASING into DECREASING and back, and leaves the count and the confidence |
| `Trend.TowardCrossesLater` | backend/ml_engine/predictive.py:84-86 | a metric not breached and moving toward its threshold reaches it exactly, at a positive time |
| `Trend.PredictionIsTheFirstBreach` | backend/ml_engine/predictive.py:75-95 | a breach is predicted exactly when the rolling average moved along the slope breaches within ten years, and for its first such moment |
| `Trend.RiskLevels` | backend/ml_engine/predictive.py:82-95 | risk is 100 exactly when breached, 0 exactly when not breached and no breach is predicted, and takes six values |
| `Trend.RiskByTime` | backend/ml_engine/predictive.py:88-95 | a predicted breach is rated 90 within an hour, 70 within a day, 50 within a week and 20 later |
| `Trend.RiskFallsWithTime` | backend/ml_engine/predictive.py:88-95 | a later predicted breach never has the higher risk, and none in sight the lowest |
| `Trend.StraightSamplesGiveTheirRate` | backend/ml_engine/predictive.py:50-62 | samples on a line in absolute time give the line's hourly rate, whatever the first timestamp |
| `Trend.ConstantSamplesAreStable` | backend/ml_engine/predictive.py:60-83 | constant samples are STABLE, average to their value, and carry risk only when they breach |
| `Sanitize.CutKeepsInnocence` | backend/monitoring/audit.py:13-15 | a key that is sensitive after shortening was sensitive before |
| `Sanitize.SensitiveExactlyWithAWord` | backend/monitoring/audit.py:13-15 | a key is sensitive exactly when it contains one of the seven words, or api and key at most one character apart, in any case |
| `Sanitize.LimitsInNumbers` | backend/monitoring/audit.py:37-58 | nine levels, 100 entries, keys of 120 characters, texts of 2000, and the two markers |
| `Sanitize.DictKeepsTheLast` | backend/monitoring/audit.py:42-49 | a mapping built from pairs holds distinct keys and, for each key, exactly the last of its pairs |
| `Sanitize.ResultIsBounded` | backend/monitoring/audit.py:37-58 | every result has at most nine container levels, 100 entries per container, keys of at most 120 characters, and the marker under every sensitive key at every level |
| `Sanitize.ResultAbridges` | backend/monitoring/audit.py:37-58 | the result is the value abridged: the first 100 entries of each container, the last entry of a shortened key, its value abridged or hidden, the beginning of each long text, everything else kept |
| `Sanitize.SecretsDoNotShow` | backend/monitoring/audit.py:42-49 | two values that differ only under sensitive keys have the same result |
| `Sanitize.CleanIsUnchanged` | backend/monitoring/audit.py:37-58 | a value within all bounds and with all markers comes out as it went in |
| `Sanitize.UnchangedIsClean` | backend/monitoring/audit.py:37-58 | only such values come out as they went in |
| `Sanitize.SecondTimeIsNoOpExactlyWhenItStays` | backend/monitoring/audit.py:37-58 | sanitising twice equals once exactly when no kept date, identifier or decimal exceeds 2000 characters and no winning key at the deepest level is sensitive only beyond its first 120 |
| `Sanitize.SanitizingIsIdempotent` | backend/monitoring/audit.py:37-58 | sanitising is idempotent on values with keys of at most 120 characters and such texts of at most 2000, JSON in particular |
| `Sanitize.LongDecimalIsCutLater` | backend/monitoring/audit.py:52-53 | a decimal of 2001 digits changes the second time |
| `Sanitize.DeepMarkerIsLost` | backend/monitoring/audit.py:39-46 | eight levels down, the marker under a shortened key turns into a truncation marker the second time |

## Left out

- DeliveryDispatch.AtMostTwoPerWindow: for serial dispatch only; AtMostTwoAmongOverlapping is the bound for workers that overlap, and OverlappingSendsBreakCooldown a run outside both.
- RuleScans.OverlappingScansEqualOnePass: for samples that do not arrive behind the last evaluated time; the code drops later ones by design.
- RuleAlerts.TimersAndAlertsAgree: the deletion of rules and machines, which would remove rows on both sides, is not modelled.
- AgentSafety.EveryBatchIsHeld: excludes the cycles that do lose their batch, which BatchIsLostExactlyWhenDropped characterises.
- Realtime.RunKeepsNoGap: assumes joins with at most 500 missed events and lossless group delivery; a failed group send is only replayed by the next connection.
- Trend.AnalyzeMachineTrends: real arithmetic in place of floating point, and the time of a predicted breach as seconds from now.
- Sanitize.SecondTimeIsNoOpExactlyWhenItStays: keys are given as their text, sets in the order in which they are listed; numbers are real, so NaN is not modelled.
- Sanitize.ResultAbridges: does not state the order of the entries of a mapping, which no reader of the stored object relies on.
- The text of alerts, messages, recommendations, audit rows and most of an alert's context; only the metric name, the dimension and the resolution reason are kept.
- The texts `last_error` and `provider_id` of deliveries, and the answer IGNORED, which no status leads to.
- Machine and asset metadata, environments of connectors, and the payload of events other than what is counted or compared.
- The normalisation of metric names, units and timestamps: a raw metric either normalises or does not.
- Links between assets and machines made by other code than the reconciliation, such as demonstration data.
- The agent's enrolment, its encryption of spooled payloads, and the collectors.
- The checks of tickets, users and expiry in the WebSocket consumer, and the browser's reconnection timer: a connection may end at any step and a new one start.
- The queries that choose rules, metrics and cut-off times (`_target_rule`, `_rules_for` on deleted rules, the ten-minute window): their answers are parameters.
- `record_audit`, `client_ip`, `request_change_metadata` and `action_for_instance`: lookups and assignments without further state.
- HTTP views, serializers, permissions, throttling, Celery, Redis, SMTP and the database themselves; machine-learning training and scoring; hourly aggregates and retention; the React pages.
