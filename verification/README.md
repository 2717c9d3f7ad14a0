# Mini-wallet: verified model of the event, money and session protocols

The mini-wallet back end consists of three services (auth, wallet, notification) that
share databases and a message broker. This project models the protocols by which they
stay consistent, and proves properties of every run of those protocols in Dafny 4.11.
`dafny verify dfyconfig.toml` checks all of it.

A protocol with concurrent actors is a state machine: an `Action` datatype, `Enabled`,
`Apply`, and runs (`Valid`, `Exec`) that are arbitrary finite sequences of enabled
actions. Code that updates a table, a broker or a map in place is a class whose methods
are proved against the same functions. The pieces are:

* **Outbox.** `OutboxTable` and `Leases` hold the table, its UPDATE statements and the lease
  arithmetic. `SqlOutbox` is the protocol statement by statement, with row locks, batch
  transactions, immediate publishers, recoverers and crashes; it refines `AtomicOutbox`, where
  a claim is one step. `OutboxProgress` shows that no reachable state is a dead end.
  `OutboxRepository`, `BatchWorker` and `OutboxDrain` are the repository, the semaphore-bounded
  batch and the draining of a backlog as imperative code.
* **Delivery.** `XDeath` is the retry counter of the broker and its reader, `Delivery` and
  `MessageWorker` the retry and dead-letter life of a message, `Topology` the declarations, and
  `Routing` and `DeclaredRouting` where a broker with these declarations sends a message.
* **Wallets.** `SqlTransfers` is a transfer statement by statement, under locks and aborts; it refines
  `AtomicTransfers`. `WalletService` is the service code.
* **Sessions.** `Sessions` and `SessionRepository`: login, token rotation, revocation.
* **End to end.** `WalletSubscriber` is the wallet service's message handler. `Registration` joins user
  creation, the statement-level outbox, the retry and dead-letter broker on its declared topology and the
  wallet workers into one machine, and `LostRegistrations` says exactly when a registration can no longer
  lead to a wallet.
* **Add-ons.** `FanOut` (notification fan-out), `Hub` and `HubService` (server-sent events),
  `KeyDecoder` (environment keys).

## What the code does that one might not expect

The model follows the code. These results say where it departs from its evident intent, and exactly when:

* Marks carry no owner or status check, so a claimant that outlives its lease can put a processed
  event back (`OutboxProgress.LateMarkCanResetAnyEvent`); nothing else can
  (`SqlOutbox.ProcessedIsLeftExactlyByFailureMarks`), and timely claimants never do
  (`SqlOutbox.TimelyRunsAreExclusive`).
* An UPDATE of a missing destination wallet is not an error. That money is conserved depends on that
  UPDATE locking the gap (InnoDB under REPEATABLE READ) until the ledger's foreign key is checked
  (`SqlTransfers.ConservesExactlyWithGapLocks`).
* The amount's sign is not checked (`AtomicTransfers.NegativeAmountOverdraws`,
  `AtomicTransfers.SolventAfterExactlyWhen`).
* Topic and fanout topologies bind no queue under the key that expired retries carry, so retries
  on the deployed user exchange are dropped (`Routing.TopicRetryReturnsExactlyWhen`,
  `Routing.DeployedUserRetriesAreDropped`, `Routing.FanoutRetryNeverReturns`).
* The wallet handler returns MarkFailed's error in place of its own, so a failed delivery is normally
  acknowledged; and one that is rejected instead is dropped by the previous point. Either way one failure
  can lose a registration (`LostRegistrations.OneFailureCanLoseARegistration`,
  `LostRegistrations.RejectionCanLoseARegistration`), and only a failure can
  (`LostRegistrations.OnlyTheFailedAreLost`, `LostRegistrations.ServableExactlyWhenNotLost`).
* The duplicate test looks for status 'sent', which is never written
  (`Registration.NoDeliveryIsADuplicate`); wallets stay unique by their key alone.
* Login ignores UpsertSession's error and reads the session without locking it, so it can hand out a
  token that is already dead (`Sessions.LoginTokenWorksExactlyWhen`,
  `Sessions.FailedWriteHandsOutADeadToken`, `Sessions.RevokedLoginHandsOutADeadToken`).
* A Concurrency of 0 blocks the batch worker for ever (`BatchWorker.BatchStartsExactlyWithConcurrency`).
* The hub listener's send panics exactly when a reconnect or the shutdown came first after its lookup
  (`Hub.SendPanicsExactlyWhen`, `Hub.ReconnectDuringSendPanics`).

## Rules assumed of the surroundings

* Database: an autocommitted UPDATE is atomic, waits for row locks and reads NOW() when it starts;
  SELECT ... FOR UPDATE locks the rows it returns until the transaction ends, SKIP LOCKED leaves locked
  rows out; uncommitted writes are private; a transaction whose body failed never commits; unique and
  foreign keys refuse the offending insert.
* Broker (RabbitMQ 3.13): a publish that returns nil is stored; a dead-lettered message gets one x-death
  entry per (queue, reason), counted up and moved to the front; a message that no binding takes is dropped,
  and so is one that expires back into its own retry queue; unacknowledged deliveries of a lost
  connection return to the main queue; redeclaring a queue or exchange differently is refused. Direct and
  topic matching follow sections 3.1.3.1 and 3.1.3.3 of the AMQP 0-9-1 specification.
* Identifiers, token hashes and message ids that the code draws at random are fresh.
* Failures of statements, publishes and marks, and the order of concurrent steps, are parameters or
  nondeterministic choices, so the results hold for all of them.

## Model

| member | source | states |
|---|---|---|
| `Leases.WholeSecondsTruncates` | internal/auth/repository/outbox.go:55-55 | clock readings and timeouts reach the database truncated to whole seconds |
| `Leases.NeverRecoverableBeforeDeadline` | internal/auth/repository/outbox.go:50-55 | with whole-second NOW() and a truncated timeout, no claim is stale within floor(lockTimeout) seconds of being made |
| `Leases.AlwaysRecoverableAfterOneMoreSecond` | internal/auth/repository/outbox.go:214-220 | from floor(lockTimeout)+1 seconds after the claim on, it is always stale |
| `Leases.LeaseBoundsAreTight` | internal/auth/repository/migrations/1780407118_create_auth_outbox_events_table.up.sql:15 | both bounds are the best possible, for every lease, to the nanosecond |
| `Leases.NextTickIsPrompt` | internal/auth/workers/outbox/worker.go:59-77 | the first tick at or after any instant past the ticker's creation is a whole number, at least one, of intervals after it and comes within one interval |
| `OutboxTable.SelectionExists` | internal/auth/repository/outbox.go:26-34 | the claim query always has an answer: distinct unlocked pending rows, oldest first, short only when nothing older is left |
| `AtomicOutbox.StepKeepsInv` | internal/auth/repository/outbox.go:107-238 | every step keeps: 'processing' exactly when locked_until is set, processed events were published successfully, claims concern existing rows; no row or payload changes or disappears |
| `AtomicOutbox.RunKeepsInv` | internal/auth/repository/outbox.go:107-238 | the same over every run |
| `AtomicOutbox.TimelyMarksAreByHolders` | internal/auth/repository/outbox.go:129-137 | a timely mark concerns a row in 'processing', and among all claims on that row exactly the marking ones hold it |
| `AtomicOutbox.StepKeepsTimelyInv` | internal/auth/repository/outbox.go:26-70 | with timely marks, holds agree with leases, no two claims hold or have completed one event, and no step leaves 'processed' |
| `AtomicOutbox.RunKeepsTimelyInv` | internal/auth/repository/outbox.go:26-70 | the same over every timely run; processed rows stay processed |
| `AtomicOutbox.AtMostOneLiveClaimant` | internal/auth/repository/outbox.go:76-102 | at most one running claimant within its deadline per event |
| `AtomicOutbox.PublishAccounting` | internal/auth/service/outbox/service.go:70-94 | successful publishes of an event number at most 1 + its claims ended by lease recovery |
| `SqlOutbox.StepKeepsLockInv` | internal/auth/repository/outbox.go:26-70 | every statement keeps: open batches hold distinct rows that are still pending, and no two batches share a row |
| `SqlOutbox.StepRefines` | internal/auth/repository/outbox.go:26-70 | each statement is invisible or performs one enabled atomic action; the unguarded UPDATE becomes visible only at its COMMIT, as an atomic claim |
| `SqlOutbox.RunRefines` | internal/auth/repository/outbox.go:11-71 | every statement-level run of any number of workers, publishers and recoverers is a run of atomic claims; timeliness carries over |
| `SqlOutbox.EveryRunIsSafe` | internal/auth/repository/outbox.go:107-238 | in every run, late marks included, leases match statuses, processed events reached a publisher, and nothing is lost later |
| `SqlOutbox.ConcurrentClaimsAreDisjoint` | internal/auth/repository/outbox.go:26-34 | concurrent batch claims share no row and hold only pending rows |
| `SqlOutbox.TimelyRunsAreExclusive` | internal/auth/repository/outbox.go:76-102 | in timely statement-level runs: one live claimant, publish accounting, 'processed' never left |
| `SqlOutbox.ProcessedIsLeftExactlyByFailureMarks` | internal/auth/repository/outbox.go:129-137 | a reachable step takes a row out of 'processed' if and only if it is a failure mark of one of its claimants |
| `OutboxProgress.EveryStateCanFinish` | internal/auth/workers/outbox/worker.go:80-132 | from every reachable state, for every lock timeout and batch size >= 1, a finite timely continuation of batches and recoveries alone processes every row |
| `OutboxProgress.CanProcessBatch` | internal/auth/workers/outbox/worker.go:80-132 | any selection the claim query may return can be claimed by SELECT, UPDATE and COMMIT, published and marked by one UPDATE; nothing else changes |
| `OutboxProgress.CanReachSelection` | internal/auth/repository/outbox.go:26-34 | batches can be processed until a given pending event is in the next selection |
| `OutboxProgress.CanRollBackBatches` | internal/auth/repository/outbox.go:21-23 | every open batch can be rolled back, changing nothing else |
| `OutboxProgress.CanRecoverLeases` | internal/auth/repository/outbox.go:211-220 | waiting and one recovery leave no row in 'processing', and process none |
| `OutboxProgress.RecoveryEndsExpiredHolds` | internal/auth/repository/outbox.go:214-220 | in every timely run a recovery ends every hold whose deadline is at least a second past, and makes its row pending |
| `OutboxProgress.AbandonedClaimIsRecovered` | internal/auth/workers/outbox/worker.go:59-77 | in every timely run a claim still held is pending again after the first recovery tick one second past its deadline, which comes within one interval |
| `OutboxProgress.LateMarkCanResetAnyEvent` | internal/auth/repository/outbox.go:132-137 | for every lock timeout and batch size, any pending event can be processed by one batch worker and then reset by the failure mark of another that outlived its lease |
| `OutboxRepository.Repository.ClaimOutboxEvents` | internal/auth/repository/outbox.go:11-71 | claims exactly the selected rows, or on any failure nothing; an empty selection is no error unless the query failed |
| `OutboxRepository.Repository.ClaimSingleEvent` | internal/auth/repository/outbox.go:73-105 | succeeds if and only if the row is pending, leases it until NOW() plus the truncated timeout, and touches only that row |
| `OutboxRepository.Repository.MarkEventsProcessed` | internal/auth/repository/outbox.go:149-179 | exactly the listed rows that exist become processed now and lose their lease, whatever their status was |
| `OutboxRepository.Repository.MarkEventsFailed` | internal/auth/repository/outbox.go:181-209 | exactly the listed rows that exist become pending with no lease, whatever their status was |
| `OutboxRepository.Repository.RecoverStaleOutboxEvents` | internal/auth/repository/outbox.go:211-238 | resets and counts exactly the expired rows, and leaves none |
| `OutboxRepository.Repository.ProcessSingleEvent` | internal/auth/service/outbox/service.go:58-94 | a login or registration fails if and only if it was pending and the broker refuses it, other events never fail; a failed publish leaves the table as it was, success processes one row, a failed mark leaves it leased |
| `OutboxRepository.LoginsReachNotifications` | internal/auth/service/outbox/service.go:61-62 | on the direct topology of "notification" logins are published to where exactly the queue "notification.queue" receives them |
| `BatchWorker.NoDeadlock` | internal/auth/workers/outbox/worker.go:101-125 | with Concurrency >= 1 some step is possible in every unfinished state |
| `BatchWorker.BatchStartsExactlyWithConcurrency` | internal/auth/workers/outbox/worker.go:95-103 | a fresh non-empty batch can move if and only if Concurrency >= 1 |
| `BatchWorker.AdvanceKeepsInv` | internal/auth/workers/outbox/worker.go:105-121 | each goroutine step keeps the slot count, the in-flight bound and the two result lists in agreement, and decreases the work left |
| `BatchWorker.StartKeepsInv` | internal/auth/workers/outbox/worker.go:101-103 | so does taking a semaphore slot for the next event |
| `BatchWorker.OutcomesPartition` | internal/auth/workers/outbox/worker.go:109-125 | once all goroutines are done the recorded outcomes split the batch |
| `BatchWorker.PublishAll` | internal/auth/workers/outbox/worker.go:93-125 | for every schedule: at most Concurrency publishes in flight, termination, processed and failed partition the claimed events by publish result |
| `OutboxDrain.SelectOldest` | internal/auth/repository/outbox.go:26-34 | picking the oldest free pending row repeatedly answers the claim query |
| `OutboxDrain.ProcessBatch` | internal/auth/workers/outbox/worker.go:80-132 | for every schedule, publish result and failing mark, exactly the selected rows change: logins and registrations the broker refuses are pending again, all others processed, rows with a failed mark keep their lease; a failed claim changes nothing |
| `OutboxDrain.BatchExtendsDrain` | internal/auth/workers/outbox/worker.go:80-132 | a successful batch extends the processed, oldest-first prefix of the backlog; it is full unless the backlog is exhausted |
| `OutboxDrain.Drain` | internal/auth/workers/outbox/worker.go:37-57 | an undisturbed backlog of n events drains oldest first in exactly ceil(n/BatchSize) batches and nothing else changes |
| `XDeath.ExtractRejectedCount` | pkg/rabbitmq/helpers.go:26-71 | whatever other headers there are, the 64- or 32-bit count of the first (queue, rejected) entry, and 0 in each missing or malformed case; on a list faithful to a history, the number of rejections from the queue |
| `XDeath.CountAgreesWithHistory` | pkg/rabbitmq/helpers.go:26-71 | on every faithful x-death list, in any order and with foreign items, the count read is the true number of deaths |
| `XDeath.RecordDeathRepresents` | pkg/rabbitmq/helpers.go:36-66 | the broker's update keeps the list faithful to the history of deaths |
| `XDeath.ReaderCountsRejections` | pkg/rabbitmq/worker.go:152-152 | after any sequence of deaths the reader returns exactly the rejections from that queue |
| `Delivery.StepKeepsInv` | pkg/rabbitmq/worker.go:119-187 | every step of any number of messages and workers, with panics, lost connections and failed DLQ publishes, keeps counts, runs and the account of stored messages |
| `Delivery.RunKeepsInv` | pkg/rabbitmq/worker.go:119-187 | the same over every run |
| `Delivery.NoMessageIsLost` | pkg/rabbitmq/worker.go:119-187 | on any broker with the event's direct topology a published message is always in main, unacked, retry or DLQ, or its handler has returned nil; a delivery copied to the DLQ is never the only copy |
| `Delivery.LostOnlyByRouting` | pkg/rabbitmq/worker.go:119-187 | on any topology the same holds, except for messages that no binding took |
| `Delivery.DropsExactlyWhen` | pkg/rabbitmq/topology.go:173-199 | where the retry queue and DLQ are bound, some run drops a message if and only if maxRetry > 0 and expired messages do not return |
| `Delivery.DirectRetriesReturn` | pkg/rabbitmq/topology.go:51-81 | on any broker with the direct topology, the arguments of its queues send rejected messages to retry and expired ones back to main, and dead letters arrive |
| `Delivery.TopicReturnsExactlyWhen` | pkg/rabbitmq/topology.go:124-167 | on a topic topology rejections and dead letters arrive, and expired messages return if and only if a key configured for the queue matches its own name |
| `Delivery.FanoutNeverReturns` | pkg/rabbitmq/topology.go:83-122 | on a fanout topology rejections and dead letters arrive and expired messages never return |
| `Delivery.DeadLettersRanExactly` | pkg/rabbitmq/worker.go:152-183 | a message in the DLQ ran at least max(maxRetry,0)+1 times, and exactly so often if spared faults |
| `Delivery.GivesUpExactlyAfterMaxRetry` | pkg/rabbitmq/worker.go:152-152 | in every reachable state the worker's test holds if and only if the message was rejected max(maxRetry,0) times |
| `Delivery.RetryCountMovesOnlyByRejection` | pkg/rabbitmq/worker.go:128-135 | the retry count read off a copy goes up by one with each rejection and with no other step, panics and lost connections included |
| `Delivery.RequeueKeepsHeaders` | pkg/rabbitmq/worker.go:134-134 | a delivery requeued by a panic, a failed DLQ publish or a lost connection is back in main with its headers |
| `Delivery.DlqIsFinal` | pkg/rabbitmq/topology.go:196-199 | no step touches a copy in the DLQ |
| `Delivery.FailingStepsDecrease` | pkg/rabbitmq/worker.go:119-187 | each step of a failing message strictly decreases a non-negative measure, or the routing drops the message |
| `Delivery.FailingStepExists` | pkg/rabbitmq/worker.go:119-187 | until it is in the DLQ, or its handler succeeded, a failing message always has such a step |
| `MessageWorker.Broker.ProcessMessage` | pkg/rabbitmq/worker.go:119-187 | the whole new broker state for nil, error and panic, with and without retries left, with a failing DLQ publish, and routed as the topology says |
| `MessageWorker.Broker.RunFailingMessage` | pkg/rabbitmq/worker.go:119-187 | on the direct topology an always failing handler runs exactly max(maxRetry,0)+1 times and the message then rests in the DLQ, every other message untouched and none dropped |
| `MessageWorker.Broker.FailOnce` | pkg/rabbitmq/worker.go:146-186 | one failing attempt: one run more and less work left, back in main or, exactly when the retries were used up, in the DLQ |
| `MessageWorker.RetryCycle` | pkg/rabbitmq/topology.go:51-81 | reject and expire bring a message back to main, still accounted for, closer to the end |
| `Routing.LiteralPatternMatchesItself` | pkg/rabbitmq/topology.go:161-161 | a topic pattern without wildcards matches exactly itself |
| `Routing.HashMatchesExactlySuffixes` | pkg/rabbitmq/topology.go:161-161 | a pattern "#" followed by p matches if and only if p matches some suffix of the words |
| `Routing.QueueNameCoincidences` | pkg/rabbitmq/helpers.go:16-24 | every possible coincidence among queue and exchange names of two bases, each as an equivalence |
| `Routing.QueuesSharedExactlyWhen` | pkg/rabbitmq/helpers.go:16-24 | two direct topologies share a queue if and only if one event is the other plus ".retry" |
| `DeclaredRouting.DirectRetriesCirculate` | pkg/rabbitmq/topology.go:51-81 | on any broker with the event's direct topology: published to main, rejected to retry for the configured time, expired back to main, dead letters to the DLQ, where they stay |
| `DeclaredRouting.DirectRoutingClosure` | pkg/rabbitmq/topology.go:51-81 | if nothing else is bound to the event's exchanges, each of these queues is reached alone |
| `DeclaredRouting.TopicRetriesReturnExactlyWhen` | pkg/rabbitmq/topology.go:124-167 | following the retry queue's own dead-letter arguments leads to main if and only if a key configured for the queue matches its own name |
| `DeclaredRouting.DeployedUserTopology` | internal/auth/app.go:86-95 | on the deployed user topology, queue by queue and by name: registrations reach "wallet-service.queue", its rejections "wallet-service.retry.queue", expired retries nothing |
| `DeclaredRouting.FanoutRetriesNeverReturn` | pkg/rabbitmq/topology.go:83-122 | following a fanout retry queue's own dead-letter arguments leads nowhere |
| `Routing.TopicRetryReturnsExactlyWhen` | pkg/rabbitmq/topology.go:124-167 | an expired topic message returns to its queue if and only if a routing key configured for the queue matches the queue's own name |
| `Routing.SingleTopicRoute` | pkg/rabbitmq/topology.go:124-167 | with one wildcard-free binding the topic exchange routes exactly two keys |
| `Routing.DeployedUserRetriesAreDropped` | internal/auth/app.go:86-95 | on the deployed user topology publishing and rejecting are routed, expired retries reach no queue |
| `Routing.FanoutRetryNeverReturns` | pkg/rabbitmq/topology.go:83-122 | expired messages of a fanout topology are routed nowhere |
| `Topology.BasesAgreeExactlyWhen` | pkg/rabbitmq/topology.go:173-199 | the queue arguments of two bases are compatible if and only if neither is the other plus ".retry" |
| `Topology.Channel.DeclareDirect` | pkg/rabbitmq/topology.go:51-81 | succeeds if and only if nothing declared before contradicts it; exact exchanges, queues and bindings afterwards, and the channel then sends rejected messages to retry for the configured time and expired ones back, each alone if nothing was bound before |
| `Topology.Channel.DeclareTopic` | pkg/rabbitmq/topology.go:124-167 | succeeds if and only if nothing declared before contradicts it and no queue is another's name plus ".retry"; exact exchanges, queues and bindings afterwards; rejected messages wait in retry, and expired ones return if and only if a configured key matches the queue's own name |
| `Topology.Channel.DeclareFanout` | pkg/rabbitmq/topology.go:83-122 | the same conditions and exact declarations for fanout topologies; rejected messages wait in retry, expired ones reach nothing |
| `Topology.DeclareAllDirect` | pkg/rabbitmq/topology.go:51-81 | the topologies of a list of events can all be declared if and only if nothing declared before contradicts them and none is another plus ".retry"; exact exchanges, queues and bindings, and every event's retries circulate on the broker itself |
| `AtomicTransfers.StepConserves` | internal/wallet/service/wallet/service.go:74-124 | a transfer or a new wallet leaves the sum of all balances unchanged |
| `AtomicTransfers.RunKeepsInv` | internal/wallet/service/wallet/service.go:88-120 | over every run: constant total, each balance is its opening balance plus its ledger replay, each operation has no rows or one debit and one credit of equal amount |
| `AtomicTransfers.SolventAfterExactlyWhen` | internal/wallet/service/wallet/service.go:84-86 | an accepted transfer between non-negative wallets keeps them so if and only if it is a self-transfer or the destination can bear the amount |
| `AtomicTransfers.NegativeAmountOverdraws` | internal/wallet/service/wallet/service.go:84-86 | every negative amount is accepted on empty wallets and overdraws the destination |
| `SqlTransfers.StepKeepsDbInv` | internal/wallet/repository/wallet.go:94-135 | every statement of any transaction keeps what the row locks protect: private writes are those computed from the committed balances |
| `SqlTransfers.CommitIsAtomicTransfer` | internal/wallet/repository/wallet.go:68-92 | a commit has exactly the effect of one enabled atomic transfer |
| `SqlTransfers.RunRefines` | internal/wallet/service/wallet/service.go:74-124 | every interleaving with aborts anywhere has the effect of its commits one at a time, in order |
| `SqlTransfers.EveryRunBalances` | internal/wallet/service/wallet/service.go:74-124 | over every interleaving: total constant, balances are ledger replay, ledger rows paired |
| `SqlTransfers.CommitNeedsBothWallets` | internal/wallet/repository/migrations/1771748973_create_wallet_transactions_table.up.sql:18 | whatever can commit has both wallets and enough money; a missing destination never commits |
| `SqlTransfers.CoveredTransferCommits` | internal/wallet/service/wallet/service.go:74-124 | whenever nothing else is open, a transfer of at most the whole balance has a run that commits exactly it |
| `SqlTransfers.EveryRunStaysSolvent` | internal/wallet/service/wallet/service.go:84-86 | with non-negative amounts no committed balance is ever negative |
| `SqlTransfers.MoneyIsLostWithoutGapLocks` | internal/wallet/repository/wallet.go:103-106 | a run without gap locks that loses 40 to a wallet created in between |
| `SqlTransfers.ConservesExactlyWithGapLocks` | internal/wallet/repository/wallet.go:103-135 | all runs conserve money if and only if an UPDATE of a missing row keeps others from inserting it |
| `WalletService.Wallets.Transfer` | internal/wallet/service/wallet/service.go:70-132 | succeeds if and only if no statement fails, both wallets exist, the amount is at most the source's balance and the new balances fit a BIGINT; then exactly source minus, destination plus and the two rows, else nothing |
| `Sessions.StepShape` | internal/auth/repository/auth.go:567-764 | every step, failed reads and writes included, leaves the sessions alone, removes one, or writes one row with a fresh token whose (user, device) was its own or vacant |
| `Sessions.RunKeepsTokenInv` | internal/auth/repository/auth.go:78-230 | over every run tokens of active sessions are distinct and issued, and accepted ones are dead |
| `Sessions.TokensAreSingleUse` | internal/auth/repository/auth.go:106-186 | after a token was rotated, logged in over or revoked, no later rotation accepts it, whatever happens in between |
| `Sessions.NextRotationAcceptsExactlyUntilExpiry` | internal/auth/repository/auth.go:120-186 | the token a rotation hands out is accepted by the next one if and only if the new expiry has not passed |
| `Sessions.RotationRenews` | internal/auth/repository/auth.go:150-186 | a rotation sets token, client, expiry and last use of its session, and nothing else |
| `Sessions.LoginRenews` | internal/auth/repository/auth.go:645-728 | so does a stored login over a session, whose old columns go into a 'rotated' row |
| `Sessions.EveryRunKeepsTokensUnique` | internal/auth/repository/migrations/1779036078_create_device_sessions_table.up.sql:23-24 | no hash is accepted twice, and each (user, device) has at most one active session |
| `Sessions.SessionsAreConserved` | internal/auth/repository/auth.go:267-384 | every session ever committed is active or has exactly one revocation row, never both, and that row carries its last active fields |
| `Sessions.OnlyRevocationsEndSessions` | internal/auth/repository/auth.go:645-728 | a step makes a session inactive if and only if it revokes that session; archiving by a login never does |
| `Sessions.LoginTokenWorksExactlyWhen` | internal/auth/service/auth/service.go:310-319 | the token of a login works if and only if its write was stored and the session its unlocked read saw is still there, or it saw none and the place is vacant |
| `Sessions.FailedWriteHandsOutADeadToken` | internal/auth/repository/auth.go:680-728 | a reachable login whose UPDATE fails hands out a dead token although the session it saw is still there |
| `Sessions.RevokedLoginHandsOutADeadToken` | internal/auth/repository/auth.go:631-643 | for every login over a session, a revocation between its read and its write makes the token dead |
| `SessionRepository.Repository.RotateRefreshToken` | internal/auth/repository/auth.go:78-230 | succeeds if and only if no statement fails and an unexpired session has the old token and may take the new one; not-found if and only if no session has it; keeps tokens unique; changes exactly that session or nothing |
| `SessionRepository.Repository.RevokeSession` | internal/auth/repository/auth.go:267-384 | archives each column of the user's session in its own and deletes it, all or nothing; success if and only if it exists and no statement fails |
| `SessionRepository.Repository.UpsertSession` | internal/auth/repository/auth.go:631-764 | the exact session and history rows after a login, column by column, including a vanished session and an ignored archive error |
| `SessionRepository.RotatableExactlyWhenEnabled` | internal/auth/repository/auth.go:106-186 | the repository's condition for a rotation is that of the machine of all sessions |
| `WalletSubscriber.Handler.RunProcess` | internal/wallet/repository/event.go:10-81 | never reports a duplicate, since 'sent' is never stored |
| `WalletSubscriber.Handler.InitWallet` | internal/wallet/service/wallet/service.go:43-68 | creates a wallet unless the user has one, which counts as success |
| `WalletSubscriber.Handler.Handle` | internal/wallet/subscriber/handler.go:31-63 | exact wallets, status and acknowledgement; a failed registration is acknowledged if and only if marking it failed succeeds |
| `WalletSubscriber.Handler.Replay` | internal/wallet/subscriber/handler.go:65-97 | replaying any list of deliveries gives exactly its users wallets and changes none that existed |
| `Registration.OutboxProjection` | internal/auth/service/auth/service.go:113-239 | what the outbox does in a run of the whole system is a run of the statement-level outbox |
| `Registration.BrokerProjection` | pkg/rabbitmq/worker.go:119-187 | what the broker does in a run of the whole system is a run of the retry and dead-letter machine |
| `Registration.StepKeepsInv` | internal/wallet/subscriber/handler.go:31-97 | every step of the whole system keeps its invariants and every wallet |
| `Registration.RunKeepsInv` | internal/auth/service/auth/service.go:113-239 | the same over every run, across crashes, re-publishes and redeliveries |
| `Registration.WalletsBelongToUsers` | internal/wallet/repository/migrations/1771699437_create_wallets_table.up.sql:10 | in every run each wallet belongs to a committed user and no user has two |
| `Registration.RegistrationsAreNeverForgotten` | internal/auth/service/auth/service.go:113-239 | every committed user keeps its outbox row; once processed, the event was stored in the wallet queue, and the user has a wallet, a copy can still reach a worker, or a delivery failed |
| `Registration.DeployedQueue` | internal/wallet/app.go:74-83 | the exchange and key that registrations are published with reach the wallet queue on the deployed topology, its rejections reach the retry queue, and its expired retries nothing |
| `Registration.OwnersAreTheServedUsers` | internal/wallet/subscriber/handler.go:65-97 | for any interleaving and repetition of deliveries, the wallet owners are exactly the users one of whose inserts reached the database |
| `Registration.NoDeliveryIsADuplicate` | internal/wallet/repository/event.go:54-58 | in every reachable state a delivery is recorded and handled again |
| `Registration.WalletsArePermanent` | internal/wallet/repository/wallet.go:18-46 | no continuation changes or removes a wallet |
| `LostRegistrations.LostForGood` | internal/wallet/subscriber/handler.go:49-55 | a lost registration stays lost in every continuation |
| `LostRegistrations.ServableExactlyWhenNotLost` | internal/wallet/subscriber/handler.go:31-97 | on every topology that feeds the queue, for every retry limit, lock timeout and batch size, some continuation of the background actors gives a committed user a wallet if and only if its registration is not lost |
| `LostRegistrations.OnlyTheFailedAreLost` | pkg/rabbitmq/worker.go:146-186 | only a failed delivery can lose a registration |
| `LostRegistrations.OneFailureCanLoseARegistration` | internal/wallet/subscriber/handler.go:49-55 | on every such topology, for every user and event, one failed insert whose MarkFailed succeeds is acknowledged and loses the registration |
| `LostRegistrations.RejectionCanLoseARegistration` | pkg/rabbitmq/worker.go:152-186 | where expired retries do not return, so does one whose MarkFailed fails too: it waits in the retry queue in vain, or lies in the DLQ if there are no retries |
| `LostRegistrations.LiftRun` | internal/auth/workers/outbox/worker.go:80-132 | every run of the outbox's background actors is a run of the whole system, and what it publishes waits in the main queue |
| `FanOut.BuildInsert` | internal/notification/repository/outbox.go:274-302 | one placeholder group per event, and arguments 6i to 6i+5 are the six columns of event i in order |
| `FanOut.InsertRoundTrip` | internal/notification/repository/outbox.go:274-302 | the database reads exactly the events back from the arguments, in order |
| `FanOut.NotificationOutbox.InsertOutboxEvents` | internal/notification/repository/outbox.go:274-302 | all events or none are appended |
| `FanOut.NotificationOutbox.HandleNewSession` | internal/notification/subscriber/handler.go:101-169 | all or nothing, one push event per active session other than the new one, in order, under fresh ids |
| `FanOut.OthersExactly` | internal/notification/subscriber/handler.go:120-124 | the sessions notified are exactly those with another id, each once and in their order |
| `FanOut.SpawnedExactly` | internal/notification/subscriber/handler.go:90-190 | a login spawns one push per other session with its session id, push token and user, and nothing else spawns anything |
| `FanOut.HandleAt` | internal/notification/subscriber/handler.go:171-190 | handling any queued message preserves what is due, minus what it sends, and decreases the loop's measure |
| `FanOut.RunToQuiescence` | internal/notification/subscriber/handler.go:90-190 | the loop through the service's own queue ends in any delivery order, having sent exactly the notifications due at the start |
| `Hub.RunKeepsInv` | pkg/hub/hub.go:32-53 | every interleaving of hub steps keeps its invariant |
| `Hub.ChannelsAreWellBehaved` | pkg/hub/hub.go:64-87 | in every run no channel is closed twice, none in the map is closed, at most 10 messages wait, and each channel carries an in-order selection of its user's messages |
| `Hub.SendPanicsExactlyWhen` | pkg/hub/hub.go:64-87 | a send panics if and only if, since its lookup, the first step that took the channel out of the map was a reconnect of that user or the hub's shutdown |
| `Hub.SendArrivesExactlyWithRoom` | pkg/hub/hub.go:64-87 | a send to an open channel arrives at the end of its buffer if and only if fewer than 10 messages wait; no other channel changes |
| `Hub.ReconnectDuringSendPanics` | pkg/hub/hub.go:32-45 | for every online user, a reconnect between lookup and send makes the send panic |
| `HubService.HubObject.Connect` | pkg/hub/hub.go:32-45 | a new channel replaces the old one, which alone is closed |
| `HubService.HubObject.Deliver` | pkg/hub/hub.go:64-87 | delivered if and only if the user is online with room in the buffer, else dropped |
| `HubService.HubObject.Close` | pkg/hub/hub.go:112-121 | every online channel is closed exactly once, all others are left alone, the map is emptied |
| `KeyDecoder.TwoPassesAreAScan` | cmd/auth/commands/root.go:48-50 | the two ReplaceAll passes equal one left-to-right scan |
| `KeyDecoder.DecodeIsScan` | cmd/auth/commands/root.go:47-51 | the decoder is trim, scan, lower-case |
| `KeyDecoder.DecodesANestedName` | cmd/auth/commands/root.go:47-51 | "AUTH_JWT__A_B" is decoded to "jwt_a.b" |
| `KeyDecoder.ScanUndoesEscapeExactlyWhen` | cmd/auth/commands/root.go:48-50 | scanning undoes the escaping of a key if and only if no "." is followed by "." or "_" |
| `KeyDecoder.RoundTripExactlyWhen` | cmd/auth/commands/root.go:47-51 | whatever lower-casing does outside ASCII, a key it leaves alone survives encoding and decoding if and only if no "." is followed by "." or "_" |

## Left out

- HTTP, gRPC, middleware, telemetry, logging, command line, migrations and deployment: no hard property.
- JWT, bcrypt, SHA-256, UUIDs and random numbers: their results are fresh values.
- Protobuf: payloads are values of a small datatype; a body that cannot be decoded is `None` in the wallet handler.
- The notification service's copy of the outbox: the same algorithm as the auth outbox.
- RevokeAllSessions: its argument lists do not match its placeholders, so it fails at its lock query.
- The device table, push tokens and session tickets: easy members. In `Sessions` a device is an identifier.
- Reconnection of broker connections and replacement of publisher channels: a publish succeeds or fails.
- OneSignal, Firebase and the Redis online keys and heartbeat: thin wrappers.
- Durations are non-negative and converted to whole seconds exactly; the rounding of Duration.Seconds() to a float is not modelled.
- Operators that republish from the dead-letter queue: it has no consumer, so it is final.
- Copies of a dead letter that a wildcard pattern routes to another service's queue: `Delivery` follows one queue.
- SqlTransfers.RunRefines: gap locks are exclusive and per wallet id, whereas InnoDB lets several transactions share one and locks ranges; the transactions this delays could not have committed.
- BatchWorker.PublishAll: a goroutine's panic and cancellation of the batch's context are not modelled.
