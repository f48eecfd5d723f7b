# Backend protocols, modelled and proved in Dafny

This project models the parts of the backend whose correctness depends on order and interleaving, and the
algorithms that have to agree with something simpler:

* the outbox: leases, fencing numbers, token-guarded marks, and the idempotency ledger (`Selection`, `OutboxTable`,
  `OutboxProtocol`, `OutboxInvariant`, `OutboxTheorems`, `OutboxOutcomes`, `OutboxRespect`, `OutboxAbandoned`,
  `OutboxPublisher`, `OutboxKeys`, `Backoff`);
* orders: the four writers of an order's status with their event log, and the media saga (`OrderTable`,
  `OrderProtocol`, `OrderOutcomes`, `OrderSaga`, `OrderProcessManager`), creation under an Idempotency-Key
  (`OrderCreation`), and how the outbox drives the saga (`OrderDelivery`);
* the circuit breaker (`CircuitBreaker`);
* keyset pagination against offset pagination (`Keyset`, `Reports`);
* specifications rendered to parameterised SQL, against a reader of that SQL (`SqlSpec`, `SqlOutcomes`, `Reports`);
* the Redis wire format down to bytes and UTF-8 (`Utf8`, `Resp`, `RespReplies`, `RespTokens`,
  `RedisClient`);
* refresh-token families (`RefreshTokens`), the inbox (`Inbox`, `InboxService`) and the local rate limiter (`RateLimit`).

## How it is modelled

A repository, service, worker, guard or client that updates state in place is a class with that state; its
methods are proved to produce a state given by a function of the old one. The same functions are the atomic
steps of a protocol: a transaction, a lone statement, or the beginning and the end of a handler call. `Exec` runs
any list of steps of any number of workers, so a lemma about `Exec` speaks about every interleaving. A statement
may be acknowledged, lost before it took effect, or applied although its client got an error; workers may stop
between any two steps. An action that is not possible in a state changes nothing there.

Clocks, random draws, handler results, provider failures, and the choice a `SKIP LOCKED` query makes are
parameters. Ids are positions in a table. Fresh UUIDs are new numbers. SHA-256, JWT, argon2 and base64 are taken to
be injective and do not appear.

Functions that a method is proved against are themselves held to statements that do not use them: the columns of a
row after each statement, and for each decision the exact condition in terms of the stored values (the rows named
`...Outcome`, `...ExactlyWhen`, `...Keeps` and `...Is` below).

The database clock and the clock of the process are separate where the code mixes them: a lease or retry time is
computed from `localNow`, which is arbitrary, and compared with the database's `now`.

## Where the code and its promises part

* A processed outbox row need not have been handled. `handleEvent` returns normally when the ledger entry is still in
  `processing`. A run in which no reservation of a key takes that branch processes the key's rows only if its handler
  completed (`OutboxRespect.ProcessedUnlessFoundReserved`); taking it lets the worker mark the row undispatched
  (`OutboxPublisherModel.FoundReservedIsLost`, and for one pass exactly then,
  `OutboxPublisherModel.PassRecordsUnlessReserved`). `OutboxRespect.ProcessedMeansHandled` gives conditions, key by key,
  under which the branch is never taken. `OutboxPublisherModel.ProcessedWithoutHandling` is a run that loses an event,
  and `OutboxAbandoned.AbandonedForever` says that a reservation without its owner is never cleared.
* The ledger key holds type and aggregate only, so different events can share it (`OutboxTable.KeysCollide`). Two status
  changes of an order always do (`OutboxKeys.StatusChangesShareKeys`, and `OutboxKeys.TwoChangesOneKey` for a run with
  two of them); once one is recorded no handler starts for another (`OutboxKeys.LaterStatusChangesAreSkipped`), and its
  row becomes processed all the same (`OutboxPublisherModel.SharedKeyIsSkipped`). docs/outbox.md names this limit.
  Status changes have no handler with an effect today.
* docs/outbox.md says that a row stuck in `processing` is not returned automatically. The code reclaims it once its
  lease expires (`OutboxTheorems.NoStuckRow`). The inbox has no lease: there a row whose worker is gone never changes
  again (`Inbox.SettledForever`), and `Inbox.EventGetsStuck` is a run that leaves one.
* Compensation moves a completed order to failed, an edge the transition table lacks. Over all writers that is the only
  way out of the table (`OrderLog.OnlyCompensationLeavesTable`); `OrderLog.CompletedOrderFails` is a run that takes it.
* With a failure threshold below one, a closed circuit is not below its threshold
  (`CircuitBreakerModel.CountersAreExact`).
* An empty `or()` renders as true (`SqlSpec.OrIsStandardIffNonEmpty`).
* The reply parser counts text units where the protocol counts bytes, and steps over empty bulks and nested arrays
  by their header only. `RespReplies.FramedReplyIsRead`, `RespReplies.FlatArrayIsRead` and
  `RedisClient.CommandRoundTrip` say exactly when a reply is still read right; `RespTokens.ParseReadsTokens` says what
  is read from any nesting, and `RespTokens.NestedArrayIsRead` when that is right for a nested array. Which bytes share
  a chunk can change what a bulk is read as (`RedisClient.BulkDependsOnChunk`).
* The rate limiter lets through up to 2L - 1 requests in one window's length, L being max(1, limit)
  (`RateLimit.WindowBound`, `RateLimit.WindowBoundIsReached`). L itself is a bound if and only if it is one or the window
  is no longer than a millisecond (`RateLimit.LimitIsKeptIff`).

## Model

| member | source | states |
|---|---|---|
| OutboxTable.KeysCollide | backend/src/outbox/services/outbox.service.ts:112-114 | two events, whatever they say, share a ledger key if and only if their type and aggregate agree, type names holding no colon |
| OutboxKeys.StatusChangesShareKeys | backend/src/domain/events/order-status-changed.event.ts:9-29 | in every run two status changes are different events, and they share their key if and only if they belong to one order |
| OutboxKeys.TwoChangesOneKey | backend/src/orders/repositories/orders.repository.ts:520-576 | a run of two updates whose status events share their key |
| OutboxKeys.LaterStatusChangesAreSkipped | backend/src/outbox/services/outbox.service.ts:73-75 | once one status change of an order is recorded, no handler is started for another in any continuation |
| OutboxTable.OutboxRepository.SelectDueEventsForUpdate | backend/src/outbox/repositories/outbox.repository.ts:456-511 | the oldest due, unlocked rows, all of them if they fit the limit: pending and failed ones past their retry time, processing ones past their lease |
| OutboxTable.OutboxRepository.ClaimDueEvents | backend/src/outbox/repositories/outbox.repository.ts:34-76 | exactly the selected rows become leased under one new token with their fencing number raised by one, and the records returned carry both |
| OutboxTable.OutboxRepository.MarkProcessed | backend/src/outbox/repositories/outbox.repository.ts:283-302 | a mark takes effect only if its token is the row's, and then clears lease and retry time |
| OutboxTable.OutboxRepository.MarkFailed | backend/src/outbox/repositories/outbox.repository.ts:307-340 | the same guard; attempts and retry time are written, the lease is cleared |
| OutboxTable.OutboxRepository.MarkDeadLetter | backend/src/outbox/repositories/outbox.repository.ts:345-378 | the same guard; the row ends with its attempts and without a retry time |
| OutboxTable.OutboxRepository.Retry | backend/src/outbox/repositories/outbox.repository.ts:228-255 | any existing row returns to pending with no attempts, even while it is being worked on |
| OutboxTable.OutboxRepository.RequeueDeadLetter | backend/src/outbox/repositories/outbox.repository.ts:258-278 | only a dead row returns to pending, and the result tells whether one did |
| OutboxTable.OutboxRepository.ReserveProcessedEvent | backend/src/outbox/repositories/outbox.repository.ts:385-419 | the first to ask gets the key; others are told whether it is recorded or still reserved |
| OutboxTable.OutboxRepository.MarkProcessedEvent | backend/src/outbox/repositories/outbox.repository.ts:424-435 | an existing entry becomes recorded, nothing is inserted |
| OutboxTable.OutboxRepository.ReleaseProcessedEventReservation | backend/src/outbox/repositories/outbox.repository.ts:440-451 | only an entry still reserved is removed |
| OutboxInvariant.KeepRun | backend/src/outbox/repositories/outbox.repository.ts:34-76 | rows, ledger, claims, marks and workers stay linked through every run with crashes, lease expiry and manual resets |
| OutboxInvariant.EffectiveIsLease | backend/src/outbox/repositories/outbox.repository.ts:516-546 | the mark of a claim takes effect if and only if the claim is the one the leased row answers to |
| OutboxTheorems.OneDispatcherPerKey | backend/src/outbox/services/outbox.service.ts:66-86 | at most one worker is inside the handler of a business key, and its ledger entry is then reserved |
| OutboxTheorems.RecordedIsFinal | backend/src/outbox/repositories/outbox.repository.ts:385-451 | once a key is recorded it stays so, and no handler for it ever starts again, whichever row carries it |
| OutboxTheorems.RecordedWasHandled | backend/src/outbox/services/outbox.service.ts:66-86 | a recorded key's handler ran to completion |
| OutboxTheorems.LeaseIdentity | backend/src/outbox/repositories/outbox.repository.ts:516-546 | processing holds exactly while a lease is set; the lease answers to one claim, whose fencing number is the count of claims of the row |
| OutboxTheorems.StrayMarkIsNoop | backend/src/outbox/repositories/outbox.repository.ts:283-378 | a mark changes the tables if and only if the row holds its token |
| OutboxTheorems.MarksFollowFencing | backend/src/outbox/repositories/outbox.repository.ts:283-378 | the marks that changed a row came in strictly increasing fencing order |
| OutboxTheorems.StaleWorkerIsFenced | backend/src/outbox/repositories/outbox.repository.ts:34-76 | a worker whose row was claimed again can never change that row again, in any continuation |
| OutboxTheorems.MarkBudget | backend/src/outbox/workers/outbox-publisher.ts:192-222 | over any run, effective marks number at most maxAttempts times inserted events plus manual resets |
| OutboxTheorems.AttemptBounds | backend/src/outbox/workers/outbox-publisher.ts:192-222 | failed rows have between one and maxAttempts - 1 attempts, dead ones exactly maxAttempts |
| OutboxTheorems.NoStuckRow | backend/src/outbox/repositories/outbox.repository.ts:482-499 | every row that is neither processed nor dead is due from a known time on, for good |
| OutboxOutcomes.ClaimOutcome | backend/src/outbox/repositories/outbox.repository.ts:34-76 | a claim step leases exactly the selected rows to the worker, which remembers them with their fencing numbers |
| OutboxOutcomes.HandlerVerdict | backend/src/outbox/services/outbox.service.ts:91-107 | a handler call ends well if and only if its order.created workflow returned or the type is one of the two that need none; only then is the key counted as handled |
| OutboxOutcomes.FailedWorkflowIsReleased | backend/src/outbox/services/outbox.service.ts:78-86 | a workflow that throws leads to the release of its key, and counts nothing as handled |
| OutboxOutcomes.FailureSchedulesRetry | backend/src/outbox/workers/outbox-publisher.ts:192-222 | an effective failure below the limit leaves the row due from now plus the doubled, capped and jittered delay on, not earlier and not later |
| OutboxOutcomes.LastFailureIsFinal | backend/src/outbox/workers/outbox-publisher.ts:201-210 | an effective failure at the limit leaves a dead letter that is never due |
| OutboxOutcomes.SuccessIsFinal | backend/src/outbox/repositories/outbox.repository.ts:283-302 | an effective success leaves a processed row, stamped with the database time, that is never due |
| OutboxOutcomes.HistoryIsExact | backend/src/outbox/repositories/outbox.repository.ts:516-546 | the histories grow exactly when a mark changed a row and when a worker enters a handler |
| OutboxOutcomes.LostLedgerWrite | backend/src/outbox/services/outbox.service.ts:66-86 | a ledger statement applied without acknowledgement leaves the tables of a success and the worker of a failure |
| OutboxOutcomes.LostMark | backend/src/outbox/workers/outbox-publisher.ts:174-222 | the same of the two marks |
| OutboxRespect.ProcessedUnlessFoundReserved | backend/src/outbox/services/outbox.service.ts:66-86 | in every run in which no reservation of a key finds it still reserved, each processed row of the key has it recorded and its handler completed |
| OutboxRespect.RespectRun | backend/src/outbox/services/outbox.service.ts:66-86 | a run that abandons no reservation of a key and takes none of its rows while another worker has one never finds it reserved, whatever happens to other keys |
| OutboxRespect.ProcessedMeansHandled | backend/src/outbox/workers/outbox-publisher.ts:174-175 | in a run that respects a row's key, a processed row's key is recorded and its handler completed; inserts, resets, and crashes of others are free |
| OutboxRespect.OrderlyRunHandles | backend/src/outbox/workers/outbox-publisher.ts:174-175 | the corollary without keys: no crash inside a handler, no reclaim of a held row, distinct keys |
| OutboxAbandoned.AbandonedForever | backend/src/outbox/repositories/outbox.repository.ts:385-451 | a reservation whose owner is gone stays in every continuation, retries and requeues included; its handler never starts and never completes |
| OutboxPublisherModel.OutboxPublisher.HandleEvent | backend/src/outbox/services/outbox.service.ts:66-107 | the ledger and whether the call throws, for every way its statements and its handler can end |
| OutboxPublisherModel.ThrowsExactlyWhenHandlerFails | backend/src/outbox/services/outbox.service.ts:66-107 | on an absent key with all statements acknowledged, the call throws if and only if the workflow threw or nobody handles the type; the key is recorded if it does not throw and absent if it does |
| OutboxPublisherModel.OutboxPublisher.ProcessEvent | backend/src/outbox/workers/outbox-publisher.ts:156-246 | the row ends processed, failed with a delayed retry, or dead at the last attempt, or an error escapes; marks may be lost or half-acknowledged |
| OutboxPublisherModel.OutboxPublisher.ProcessDueBatch | backend/src/outbox/workers/outbox-publisher.ts:78-145 | a tick that is not skipped claims a valid selection and processes it in order up to an escaping error; an interrupted tick reports nothing, otherwise its counters add up |
| OutboxPublisherModel.PassOutcome | backend/src/outbox/workers/outbox-publisher.ts:156-246 | the row after an undisturbed pass, column by column: processed, failed with its retry time, or dead |
| OutboxPublisherModel.BatchLeavesNoLease | backend/src/outbox/workers/outbox-publisher.ts:78-145 | a batch that no error interrupts leaves none of its rows under its lease |
| OutboxPublisherModel.PassIsARun | backend/src/outbox/workers/outbox-publisher.ts:156-246 | whichever of its calls fail, the code's pass over an event is a run of the interleaved protocol; the handler starts if and only if the reservation was acknowledged and the key absent |
| OutboxPublisherModel.SharedKeyIsSkipped | backend/src/outbox/services/outbox.service.ts:66-86 | an undisturbed pass starts the handler if and only if the key is absent from the ledger; a row whose key is there becomes processed undispatched |
| OutboxPublisherModel.FoundReservedIsLost | backend/src/outbox/services/outbox.service.ts:73-75 | a worker that finds its key reserved ends in three steps with a processed row whose key is not recorded |
| OutboxPublisherModel.PassRecordsUnlessReserved | backend/src/outbox/services/outbox.service.ts:73-75 | for every way the calls can end, a pass leaves processed implying recorded if and only if it did not find the entry reserved, or an error kept it from marking the row |
| OutboxPublisherModel.ProcessedWithoutHandling | backend/src/outbox/services/outbox.service.ts:73-75 | a concrete run that ends with a processed row whose handler never completed |
| Backoff.DelayShape | backend/src/outbox/workers/outbox-publisher.ts:248-258 | delays never shrink with attempts, jitter only adds, the cap holds |
| Backoff.DelaySaturates | backend/src/outbox/workers/outbox-publisher.ts:248-258 | with a positive base the cap is reached and kept |
| OrderTable.OrdersRepository.UpdateStatus | backend/src/orders/repositories/orders.repository.ts:463-576 | both update forms: the verdict on missing order, version and transition; status, version and event change together or not at all |
| OrderOutcomes.UpdateOutcome | backend/src/orders/repositories/orders.repository.ts:463-576 | an update takes effect if and only if the order is visible, its version is the expected one if any, and the move is one of nine; then status, version and event move together |
| OrderTable.OrderSagaRepository.StartOrResume | backend/src/orders/sagas/order-saga.repository.ts:24-80 | creates or resumes the saga, taking a failed saga's failed order back to pending with its event; recorded stages are kept |
| OrderTable.ResumptionReopens | backend/src/orders/sagas/order-saga.repository.ts:43-71 | the order goes back to pending, one version on and with its event, if and only if its saga had failed and it is visible and failed; otherwise orders and log stay |
| OrderSaga.RedeliveryReopens | backend/src/orders/sagas/order-saga.repository.ts:24-80 | compensated, delivered again and started, an order that was not cancelled is pending and its workflow goes on after the recorded stages |
| OrderTable.OrderSagaRepository.MarkStageCompleted | backend/src/orders/sagas/order-saga.repository.ts:82-97 | the stage is added to the list that was read, at most once |
| OrderTable.OrderSagaRepository.Complete | backend/src/orders/sagas/order-saga.repository.ts:99-105 | the saga becomes completed and has no current stage |
| OrderTable.OrderSagaRepository.Compensate | backend/src/orders/sagas/order-saga.repository.ts:108-149 | saga and order fail together, unless the order already failed or was cancelled |
| OrderTable.TransitionPairs | backend/src/orders/order-state-machine.ts:3-25 | the nine moves of the state machine |
| OrderOutcomes.LostAcknowledgement | backend/src/orders/sagas/order-saga.repository.ts:24-149 | a transaction applied without acknowledgement leaves the tables of a success and the delivery of a failure |
| OrderLog.CompensationLeavesTable | backend/src/orders/sagas/order-saga.repository.ts:123-131 | compensation writes an edge outside the transition table if and only if the order is visible and completed |
| OrderLog.OnlyCompensationLeavesTable | backend/src/orders/order-state-machine.ts:3-18 | over all writers, a step leaves the table if and only if it compensates a completed order |
| OrderLog.CompletedOrderFails | backend/src/orders/sagas/order-saga.repository.ts:108-149 | a run whose log reads pending to completed, completed to failed |
| OrderLog.KeepRun | backend/src/orders/repositories/orders.repository.ts:584-602 | log, status and version stay linked through every mix of updates and deliveries failing anywhere |
| OrderLog.EventsRebuildOrder | backend/src/orders/repositories/orders.repository.ts:463-576 | each order's events form a chain from pending numbered 1, 2, ..., and replaying them gives its status and version |
| OrderLog.ExpectedVersionWinsOnce | backend/src/orders/repositories/orders.repository.ts:463-514 | no expected version is accepted twice for an order |
| OrderLog.CancelledIsAbsorbing | backend/src/orders/order-state-machine.ts:3-18 | nothing leaves cancelled: not clients, not compensation, not resumption |
| OrderLog.VersionBound | backend/src/orders/order-state-machine.ts:3-18 | an order reopened r times has at most 4 * (1 + r) versions |
| OrderSaga.SagaRun | backend/src/orders/sagas/order-saga.repository.ts:24-105 | the saga invariant, and what each delivery knows about it, holds through every run |
| OrderSaga.StagesArePrefix | backend/src/outbox/handlers/order-process-manager.ts:17-49 | completed stages are a prefix of avatar, qr; a completed saga has both |
| OrderSaga.RecordedStageNeverRegenerates | backend/src/outbox/handlers/order-process-manager.ts:17-49 | a recorded stage stays recorded and its generator is never called again, wherever later deliveries fail |
| OrderProcessManagerModel.OrderProcessManager.Handle | backend/src/outbox/handlers/order-process-manager.ts:17-49 | throws if and only if a call it reaches throws, and calls exactly the generators of missing stages; the workflow with its compensation is a run of the protocol; a normal end has a completed saga, a compensated one a failed saga |
| OrderDelivery.OneDeliveryPerOrder | backend/src/outbox/services/outbox.service.ts:66-98 | in joint runs of outbox and orders, a handler entered for an order finds no other delivery of it under way, and each delivery has one worker |
| OrderDelivery.SidesMove | backend/src/outbox/services/outbox.service.ts:66-98 | entering the handler of an order.created event starts the delivery of its order, a crash in it ends that delivery, a return waits for its end |
| OrderDelivery.OrderRunIsARun | backend/src/outbox/handlers/order-process-manager.ts:17-49 | the order side of a joint run is a run of the order protocol |
| OrderCreation.OrdersRepository.CreateWithOutboxAttempt | backend/src/orders/repositories/orders.repository.ts:86-123 | one attempt creates key, order and event together, replays, refuses, or leaves nothing behind but a used id |
| OrderCreation.OrdersRepository.InsertOrderAndOutbox | backend/src/orders/repositories/orders.repository.ts:200-229 | one order and its event, or a fault at a named statement |
| OrderCreation.OrdersRepository.CreateWithOutbox | backend/src/orders/repositories/orders.repository.ts:52-83 | only deadlocked attempts are repeated, at most three in all, and only the last leaves a trace |
| OrderCreation.KeepRun | backend/src/orders/repositories/orders.repository.ts:160-255 | tables, transactions and replies stay linked while requests interleave statement by statement |
| OrderCreation.OneOrderPerKey | backend/src/orders/repositories/orders.repository.ts:160-195 | at most one order per Idempotency-Key |
| OrderCreation.SuccessesAgree | backend/src/orders/repositories/orders.repository.ts:160-195 | all successful replies under a key are equal and to the same body |
| OrderCreation.NoKeyLeftProcessing | backend/src/orders/repositories/orders.repository.ts:234-255 | no committed key row is left processing, and nobody is told that one is |
| OrderCreation.KeyRowIsFinal | backend/src/orders/repositories/orders.repository.ts:234-255 | a committed key row never changes |
| OrderCreation.DifferentBodyConflicts | backend/src/orders/repositories/orders.repository.ts:160-195 | once a key is stored, no request with another body ever succeeds under it |
| OrderCreation.LookupAnswersConflict | backend/src/orders/repositories/orders.repository.ts:160-195 | the lookup answers with a conflict exactly when the bodies differ, and otherwise replays the stored response |
| OrderCreation.EventsMatchOrders | backend/src/orders/repositories/orders.repository.ts:200-229 | order.created events and orders correspond one to one |
| OrderCreation.NewRequestCreates | backend/src/orders/repositories/orders.repository.ts:86-255 | in every reachable state an undisturbed request without a key, or with one neither stored nor held, creates order, event and key row and is told so |
| OrderCreation.StoredKeyAnswers | backend/src/orders/repositories/orders.repository.ts:160-195 | in every reachable state an undisturbed request under a stored key gets the stored response if its body is the stored one, a conflict otherwise, and writes nothing |
| OrderCreation.CommitOutcome | backend/src/orders/repositories/orders.repository.ts:86-123 | the commit publishes order, event and completed key row at once, also when its acknowledgement is lost |
| OrderCreation.DeadlockOutcome | backend/src/orders/repositories/orders.repository.ts:52-83 | a deadlock leaves no write behind and starts the request over, the third one fails it |
| CircuitBreakerModel.CircuitBreaker.AllowRequest | backend/src/resilience/circuit-breaker.ts:172-187 | who is admitted, and the move from open to half-open with its probe slot |
| CircuitBreakerModel.CircuitBreaker.Begin | backend/src/resilience/circuit-breaker.ts:98-111 | whether the call starts and whether it is a probe |
| CircuitBreakerModel.CircuitBreaker.Complete | backend/src/resilience/circuit-breaker.ts:111-128 | success, transient and permanent endings of late calls included; a probe frees its slot |
| CircuitBreakerModel.CircuitBreaker.Execute | backend/src/resilience/circuit-breaker.ts:98-128 | one call with nobody else calling starts if and only if the circuit is closed, or no probe runs and it is half-open or its cooldown is over |
| CircuitBreakerModel.StartsExactlyWhen | backend/src/resilience/circuit-breaker.ts:172-187 | in every reachable state a new call starts if and only if the circuit is closed, or no probe is running and it is half-open or openDurationMs have passed since it opened |
| CircuitBreakerModel.RecoversThroughProbe | backend/src/resilience/circuit-breaker.ts:172-212 | an open circuit asked after its cooldown becomes half-open with one probe; its success closes the circuit with no failures, its transient failure opens it again, and nothing starts in between |
| CircuitBreakerModel.CompletionOutcome | backend/src/resilience/circuit-breaker.ts:111-128 | the circuit, the running calls and the history after any running call ends in any way |
| CircuitBreakerModel.CircuitBreaker.ExecuteWithRetry | backend/src/resilience/circuit-breaker.ts:138-163 | only transient failures are retried, within the attempts; a refusal or a permanent failure ends the loop; the circuit is that of the same attempts one after the other |
| CircuitBreakerModel.RetryIsARun | backend/src/resilience/circuit-breaker.ts:138-163 | with nobody else calling, the attempts of a retry loop are a run of the interleaved protocol |
| CircuitBreakerModel.KeepRun | backend/src/resilience/circuit-breaker.ts:98-128 | the invariant of every service holds through every interleaving of starts and completions |
| CircuitBreakerModel.CountersAreExact | backend/src/resilience/circuit-breaker.ts:190-212 | running probes number one if the slot is taken and none otherwise, failures counts transient endings since the last success, closed means below threshold: in all runs if and only if the threshold is at least one |
| CircuitBreakerModel.NoStartDuringCooldown | backend/src/resilience/circuit-breaker.ts:172-187 | after an opening at T nothing starts before T + openDurationMs, not even after late successes |
| CircuitBreakerModel.ProbesAreSpaced | backend/src/resilience/circuit-breaker.ts:172-187 | probes admitted from open start at least openDurationMs apart |
| CircuitBreakerModel.ServicesAreIndependent | backend/src/resilience/circuit-breaker.ts:231-242 | a service's state depends only on its own part of the run |
| Keyset.PageAt | backend/src/users/repositories/users.repository.ts:151-162 | the page after the cursor of row k - 1 is the offset page at k, with exact hasMore and next cursor |
| Keyset.OffsetPageIs | backend/src/users/repositories/users.repository.ts:146-227 | an offset page, at any position: the slice there, whether rows follow it, and where they start |
| Keyset.CursorPageIs | backend/src/users/repositories/users.repository.ts:151-227 | a cursor page, for any cursor: the first rows below it by time and id, whether one below it is missing, and then the last row as the next cursor |
| Keyset.NextCursorAdvances | backend/src/users/repositories/users.repository.ts:388-423 | every page with a next cursor leaves fewer rows below it, so the walk ends |
| Keyset.WalkIsOffsetPagination | backend/src/users/repositories/users.repository.ts:146-227 | a walk returns the whole result once, page by page like offset pagination, in max(1, ceil(n / limit)) pages |
| Keyset.ChangingWalkNeverRepeats | backend/src/common/sql/query-objects/report-orders.query-object.ts:22-29 | whatever changes between requests, no key is returned twice |
| Keyset.ChangingWalkMissesNothing | backend/src/common/sql/query-objects/report-orders.query-object.ts:22-29 | a finished walk returned every row that was there at each of its requests |
| Keyset.UsersRepository.FindActivity | backend/src/users/repositories/users.repository.ts:146-227 | the query built from pushed parameters returns the offset page or the keyset page of the user's orders |
| Keyset.UsersRepository.ToActivityPageInfo | backend/src/users/repositories/users.repository.ts:388-423 | next offset or next cursor exactly when there is more |
| SqlSpec.BuildDateRange | backend/src/common/sql/specifications/filter-specifications.ts:21-36 | the pushes build the rendering of a date range, one bound, both or none |
| SqlSpec.ReadSpec | backend/src/common/sql/specifications/specification.ts:32-47 | in any surrounding text and with any later parameters, a rendered tree reads back as its meaning and takes exactly its own parameters |
| SqlSpec.RenderingPreservesMeaning | backend/src/common/sql/specifications/specification.ts:12-47 | every tree renders to well-formed SQL that, read with NOT over AND over OR and three-valued logic, has the tree's value, an empty `or` counting as true |
| SqlSpec.RenderingIsStandard | backend/src/common/sql/specifications/specification.ts:12-47 | without empty `or` nodes the value is the usual boolean one |
| SqlSpec.OrIsStandardIffNonEmpty | backend/src/common/sql/specifications/specification.ts:16-18 | an `or` has its usual value if and only if it has an alternative |
| SqlSpec.HolesMatchParams | backend/src/common/sql/specifications/filter-specifications.ts:7-62 | as many placeholders as parameters |
| SqlOutcomes.EqualityKeeps | backend/src/common/sql/specifications/filter-specifications.ts:7-19 | ownership and status keep exactly the rows whose column equals the parameter |
| SqlOutcomes.DateRangeKeeps | backend/src/common/sql/specifications/filter-specifications.ts:21-36 | a date range keeps exactly the rows between its bounds, both inclusive, an absent bound not restricting |
| SqlOutcomes.NearbyKeeps | backend/src/common/sql/specifications/filter-specifications.ts:48-56 | the rectangle, edges included |
| SqlOutcomes.BeforeCursorKeeps | backend/src/common/sql/query-objects/report-orders.query-object.ts:22-29 | the cursor predicate keeps exactly the rows older than the cursor, or as old with a smaller id |
| SqlOutcomes.AllOfKeeps | backend/src/common/sql/specifications/specification.ts:12-14 | `and` keeps what all parts keep, excludes what one excludes, and without parts keeps everything |
| SqlOutcomes.AnyOfKeeps | backend/src/common/sql/specifications/specification.ts:16-18 | `or` keeps what one part keeps, excludes what all exclude, and without parts keeps everything |
| SqlOutcomes.NegationKeeps | backend/src/common/sql/specifications/specification.ts:20-27 | `not` keeps exactly what is excluded; rows on which the condition is unknown are neither |
| Reports.CreateReportOrdersQueryObject | backend/src/common/sql/query-objects/report-orders.query-object.ts:6-35 | the WHERE text, or its absence, selects exactly the orders in the date range and below the cursor, and takes exactly its own parameters |
| Reports.ReportsRepository.FindOrdersPage | backend/src/reports/repositories/reports.repository.ts:106-150 | the page is the offset page or the keyset page of the orders in the date range |
| Reports.ReportRange | backend/src/common/sql/query-objects/report-orders.query-object.ts:11-20 | the report ranges over exactly the orders created between the bounds given |
| Reports.ReportsRepository.ToPageInfo | backend/src/reports/repositories/reports.repository.ts:252-289 | next offset or next cursor exactly when there is more |
| Reports.ReportWalk | backend/src/reports/repositories/reports.repository.ts:106-150 | a cursor walk of the report while orders change returns nothing twice, nothing out of range and, once ended, every order in range that was there throughout |
| Utf8.EncodeRoundTrip | backend/src/redis/redis.service.ts:91-105 | decoding the UTF-8 of a text gives it back, unpaired surrogates replaced |
| Utf8.EncodedLength | backend/src/redis/redis.service.ts:70 | byte length equals text length if and only if the text is ASCII |
| Utf8.DecodeSplits | backend/src/redis/redis.service.ts:105 | decoding any bytes, valid or not, can be cut in front of an ASCII byte |
| Utf8.EncodingIsStandard | backend/src/redis/redis.service.ts:70 | each character is encoded as section 3 of RFC 3629 says, in the shortest of four forms |
| Utf8.RepairedUnits | backend/src/redis/redis.service.ts:70 | encoding replaces unpaired surrogates, by U+FFFD, and nothing else |
| Utf8.MalformedIsReplaced | backend/src/redis/redis.service.ts:105 | a byte that begins no character, and the longest beginning of one that is broken off, each decode to one U+FFFD |
| Resp.NumberRoundTrip | backend/src/redis/redis.service.ts:110-113 | `Number` reads back the decimal text of every integer |
| Resp.ParseResponse | backend/src/redis/redis.service.ts:102-137 | the loop over children with its growing offset computes the recursive reading of the buffer |
| Resp.LineOutcome | backend/src/redis/redis.service.ts:105-137 | what any bytes with a first line are read as, by that line: error, integer, simple string, array without elements, or nothing |
| Resp.BulkOutcome | backend/src/redis/redis.service.ts:131-135 | a bulk header of any length: null, incomplete, or a slice of the text; a negative length counts from the end, one that is no number gives an empty text |
| Resp.NoLineYet | backend/src/redis/redis.service.ts:106-107 | without a line break nothing is read |
| Resp.NumberByDigits | backend/src/redis/redis.service.ts:110-113 | `Number` reads decimal text digit by digit, a minus negating |
| RespReplies.FramedReplyIsRead | backend/src/redis/redis.service.ts:102-137 | a framed reply followed by any bytes is complete, and is read as what it says if and only if no bulk holds a multi-byte character |
| RespReplies.NullArrayIsReadAsEmpty | backend/src/redis/redis.service.ts:112-127 | a null array is read as an array without elements |
| RespReplies.CutReplyIsIncomplete | backend/src/redis/redis.service.ts:106-107 | no strict prefix of a framed reply is taken for a reply |
| RespReplies.EmptyBulkStallsLoop | backend/src/redis/redis.service.ts:122-125 | after an empty bulk the array loop resumes at a line it cannot read |
| RespReplies.FlatArrayIsRead | backend/src/redis/redis.service.ts:112-128 | a flat array is read right if and only if no bulk holds a multi-byte character and only the last element is an empty bulk |
| RespTokens.ParseReadsTokens | backend/src/redis/redis.service.ts:112-128 | for every reply, however nested, whose lines are plain, the parser takes one line of the reply per element, and stalls after an empty bulk that is not last |
| RespTokens.NestedArrayIsRead | backend/src/redis/redis.service.ts:120-125 | with one nested array, what follows it is read from that array's own elements on: the reply is read right if and only if those say the same |
| RedisClient.CommandIsWellFormed | backend/src/redis/redis.service.ts:70 | the bytes of a command are the RESP array of its parts, the announced lengths being right for every text |
| RedisClient.CommandRoundTrip | backend/src/redis/redis.service.ts:70-137 | parsing an encoded command gives its parts back, unpaired surrogates replaced, if and only if all are ASCII and none but the last is empty |
| RedisClient.ReplySettlesOnLastByte | backend/src/redis/redis.service.ts:84-90 | however a framed reply is cut into chunks, the command settles when the last byte arrives, with what the reply says if and only if no bulk holds a multi-byte character |
| RedisClient.BulkDependsOnChunk | backend/src/redis/redis.service.ts:133-134 | what a bulk is read as is independent of the bytes that arrive with its end if and only if it is at most two units shorter than its bytes |
| RedisClient.RedisCommand.OnConnect | backend/src/redis/redis.service.ts:91 | what is written to the socket |
| RedisClient.RedisCommand.OnData | backend/src/redis/redis.service.ts:84-90 | one chunk: the buffer grows, and a complete response settles the command once |
| RefreshTokens.AuthRepository.SaveRefreshToken | backend/src/auth/repositories/auth.repository.ts:87-101 | inserts a live token unless its hash is taken |
| RefreshTokens.AuthRepository.FindRefreshToken | backend/src/auth/repositories/auth.repository.ts:103-139 | the token with that hash, hidden while its user is deleted |
| RefreshTokens.AuthRepository.RotateRefreshToken | backend/src/auth/repositories/auth.repository.ts:141-224 | unknown, reused, expired and successful presentation, and the table after each, a failed insert leaving no trace |
| RefreshTokens.AuthRepository.RevokeAllRefreshTokens | backend/src/auth/repositories/auth.repository.ts:226-235 | all tokens of the user are revoked, earlier revocation times kept |
| RefreshTokens.AuthService.Refresh | backend/src/auth/services/auth.service.ts:60-104 | a mismatching token changes nothing; otherwise the reply is a token exactly when the rotation succeeds |
| RefreshTokens.PresentOutcome | backend/src/auth/repositories/auth.repository.ts:141-224 | in every reachable store: the answer to a presented hash and every row after it, by the token it selects |
| RefreshTokens.SucceedsExactlyWhen | backend/src/auth/repositories/auth.repository.ts:179-217 | a presented hash gets its successor if and only if a live, unexpired token of an undeleted user has it and the new hash is unused |
| RefreshTokens.AuthService.IssueTokens | backend/src/auth/services/auth.service.ts:115-125 | login and registration open a new family |
| RefreshTokens.AuthService.Logout | backend/src/auth/services/auth.service.ts:106-108 | revokes everything the user holds |
| RefreshTokens.OnlyNewestIsLive | backend/src/auth/repositories/auth.repository.ts:141-224 | only the newest token of a family can be live, so at most one is |
| RefreshTokens.ExchangeMovesLife | backend/src/auth/repositories/auth.repository.ts:201-217 | a successful exchange leaves exactly the successor live in its family, with the same user, and touches no other family |
| RefreshTokens.RotatedAtMostOnce | backend/src/auth/repositories/auth.repository.ts:179-213 | in every run a token is exchanged for a successor at most once |
| RefreshTokens.DeadFamilyStaysDead | backend/src/auth/services/auth.service.ts:80-88 | a family without a live token never gets one again |
| RefreshTokens.ReplayKillsFamily | backend/src/auth/repositories/auth.repository.ts:179-199 | presenting a spent or expired token leaves its family dead in every continuation |
| RefreshTokens.LogoutKillsFamilies | backend/src/auth/repositories/auth.repository.ts:226-235 | after a logout all families of the user are dead in every continuation |
| RefreshTokens.LogoutOutcome | backend/src/auth/repositories/auth.repository.ts:226-235 | a logout stamps the unrevoked tokens of the user, and no other |
| RefreshTokens.CheckedColumnsNeverChange | backend/src/auth/services/auth.service.ts:67-84 | what `refresh` checks before rotating cannot change in between |
| InboxServiceModel.InboxRepository.Receive | backend/src/inbox/repositories/inbox.repository.ts:15-28 | a second event with a known id is not stored, and the result tells |
| InboxServiceModel.InboxRepository.FindByEventId | backend/src/inbox/repositories/inbox.repository.ts:31-39 | finds the event if there is one |
| InboxServiceModel.InboxRepository.SelectDue | backend/src/inbox/repositories/inbox.repository.ts:102-115 | the oldest due, unlocked rows, all of them if they fit the limit |
| InboxServiceModel.InboxRepository.ClaimDueEvents | backend/src/inbox/repositories/inbox.repository.ts:42-69 | exactly the selected rows go into processing with one more attempt, as the records say |
| InboxServiceModel.InboxRepository.MarkProcessed | backend/src/inbox/repositories/inbox.repository.ts:72-78 | the row is processed, whoever asks |
| InboxServiceModel.InboxRepository.MarkFailed | backend/src/inbox/repositories/inbox.repository.ts:81-91 | the row is failed with its retry time, whoever asks |
| InboxServiceModel.InboxRepository.MarkDeadLetter | backend/src/inbox/repositories/inbox.repository.ts:94-100 | the row is dead, whoever asks |
| Inbox.UnregisteredIsNeverProcessed | backend/src/inbox/services/inbox.service.ts:29-47 | in every run without a handler for its type, an event is never processed and nothing is called for it |
| InboxServiceModel.InboxService.ProcessDueBatch | backend/src/inbox/services/inbox.service.ts:34-88 | for every way the calls can end, each claimed row ends by its own result, other rows stay, an error while a failure is marked ends the batch, and otherwise the counters add up |
| InboxServiceModel.TurnIsARun | backend/src/inbox/services/inbox.service.ts:43-86 | whichever of its calls fail, a turn of the loop is a run of the interleaved protocol |
| InboxServiceModel.TurnOutcome | backend/src/inbox/services/inbox.service.ts:43-69 | a turn ends processed if and only if a handler is registered, returns and its mark is acknowledged; otherwise its row is dead at the limit, or due again exactly when the backoff has passed |
| InboxServiceModel.ClaimOutcome | backend/src/inbox/repositories/inbox.repository.ts:42-69 | a claim step takes exactly the selected rows, which nobody holds if the commit is not acknowledged |
| InboxServiceModel.CallOutcome | backend/src/inbox/services/inbox.service.ts:45-48 | a call is counted exactly when a handler is registered, a completed one exactly when it returned |
| Inbox.KeepRun | backend/src/inbox/services/inbox.service.ts:34-88 | rows, claims and handler calls stay linked through every run with lost statements and crashes |
| Inbox.OneHolder | backend/src/inbox/repositories/inbox.repository.ts:42-115 | at most one worker holds an event |
| Inbox.HandlerCallBound | backend/src/inbox/services/inbox.service.ts:43-69 | over all workers and crashes a handler is called at most max(1, maxAttempts) times for an event |
| Inbox.OutcomesAreReal | backend/src/inbox/services/inbox.service.ts:43-69 | processed means the handler returned, dead means all claims are used, no external id is stored twice |
| Inbox.SettledForever | backend/src/inbox/repositories/inbox.repository.ts:102-115 | a row in processing, processed or dead that no worker holds never changes again |
| Inbox.EventGetsStuck | backend/src/inbox/repositories/inbox.repository.ts:42-69 | a run of receive, claim and crash leaves such a row in processing |
| Inbox.OthersBecomeDue | backend/src/inbox/repositories/inbox.repository.ts:102-115 | every other row that no worker holds becomes due |
| RateLimit.RateLimitGuard.CanActivate | backend/src/auth/guards/rate-limit.guard.ts:27-54 | the Redis counter decides when it answers; otherwise the local window of exactly this key |
| RateLimit.WindowBound | backend/src/auth/guards/rate-limit.guard.ts:44-53 | whatever else is requested, any interval of one window's length lets through at most 2L - 1 requests of a key, L being max(1, limit) |
| RateLimit.LimitIsKeptIff | backend/src/auth/guards/rate-limit.guard.ts:44-53 | at most L requests in every window length, in every run, if and only if L is one or the window at most a millisecond |
| RateLimit.WindowBoundIsReached | backend/src/auth/guards/rate-limit.guard.ts:44-53 | for every limit of at least one and window of at least two, a run reaches the bound |

## Left out

- HTTP controllers, DTO validation, the other guards, exception filter, Swagger, metrics, logging and health checks.
- MySQL itself: a transaction or lone statement is one atomic step (creation requests are interleaved statement by
  statement, with row locks on the key). Isolation anomalies inside one transaction are not part of the model.
- Text columns that only record errors, the name of a lease's owner, and audit rows.
- Who deletes an order: no code writes `orders.deleted_at`, so deletion is a step of the environment.
- The payload of an order.created event is taken to parse; a payload that does not fails before the saga starts.
- `Number` on forms other than decimal integers (white space, fractions, exponents, hexadecimal) is read as NaN, and
  integers beyond 2^53 are exact. A `-0` is zero.
- Socket errors and the timeout of a Redis command; a settled command hears no further chunk.
- What is read after a simple string with multi-byte characters that is not the last element of an array.
- The trigonometry of `nearby`: its four bounds are parameters; only the shape of its text is modelled.
- The `title LIKE` predicate of the maps query and the `status` query object, which only add leaves.
- Media generation, S3, local storage: a stage either succeeds or throws.
- The map cache, the migration runner, seeds, the transactions lab, OpenAPI comparison, `UnitOfWork`, load checks.
- Ranking, summary and EXPLAIN reports, which MySQL computes.
- Access tokens; roles and e-mail addresses in tokens.
- Which function an inbox type is registered with: the model keeps the registered types, and how a call ends is a
  parameter.
- The waits between the attempts of `executeWithRetry`: when each attempt starts is a parameter. Which errors count as
  permanent is one too.
- The publisher's and inbox worker's polling timers and shutdown waiting.
- RefreshTokens.AuthService.IssueTokens: requires that the new family's UUID is fresh.
- RateLimit.WindowBound: takes the clock not to run backwards, and the limit to be an integer.
- Keyset.ChangingWalkMissesNothing: a row that moves in the order between requests, or is absent at one of them, is not
  promised.
