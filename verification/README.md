# Banking ledger: verified model of the money pipeline

This project models how a deposit or withdrawal travels through the banking
ledger: it is submitted under an idempotency key, delivered (any number of times)
to concurrent workers, applied to an account in one Postgres transaction that also
writes an outbox row, and copied by a poller into the Mongo ledger. The Dafny
verifier proves what the whole pipeline guarantees under redelivery, crashes and
store errors, including errors reported for writes that did take effect.

## How it is built

| file | contents |
|---|---|
| `Shared.dfy`, `Domain.dfy`, `Sorting.dfy` | options and results, Go's int64 wrap-around, injected faults, the request / entry / message values, ORDER BY |
| `Accounts.dfy`, `Postgres.dfy`, `LedgerStore.dfy` | the account object and its arithmetic, the two tables with their constraints and the repositories on them, the Mongo collection |
| `Processing.dfy`, `Publishing.dfy`, `Gateway.dfy`, `Pagination.dfy` | the services, as methods proved against functions on the stores' contents |
| `Bank.dfy`, `Replay.dfy` | the sequential specification: one request at a time, and what every history of it guarantees |
| `Workers.dfy` | N workers interleaving statement by statement under READ COMMITTED, refined to `Bank` |
| `Outcome.dfy` | what one `ProcessTransaction` call may leave behind; the same transaction as a run of one worker |
| `Batch.dfy`, `Starvation.dfy` | the poller's batch and the bound on its retries |
| `System.dfy`, `Agreement.dfy`, `Runs.dfy` | whole runs over both stores |
| `Keys.dfy`, `Redelivery.dfy`, `Retries.dfy` | idempotency keys over whole runs; requests delivered again after their money moved; how often a row is really tried |
| `Overlap.dfy`, `OverlapLimits.dfy`, `OverlapAgreement.dfy` | any number of failure recorders and pollers interleaving store call by store call: what always holds, and exactly which steps break the rest |
| `WorkerPool.dfy` | the channel hand-off between callers and pool workers |

Every call to a store takes a `Fault`: `NoFault`, `Lost` (an error and no effect) or
`Ambiguous` (an error although the effect took place). A crash between two calls
behaves like `Lost` in everything that follows, and in `Workers` it is a step of its own.

A method of the original that changes state is a method here whose postcondition
equates the new state with a function of the old one (`Processed`, `Published`,
`BatchDone`, ...); the theorems are lemmas about these functions and about state
machines that take them as steps. The outbox table is listed in commit order and the
ledger in insertion order; both lists are only ever read through the queries the
repositories issue.

## Findings

- At-most-once application rests on the unique transaction id of the outbox table, not
  on the idempotency check: until the poller has published, a redelivery finds no ledger
  entry and is stopped by the insert. A redelivered withdrawal is recorded FAILED although
  its money moved exactly when the balance no longer covers it and the calls up to the
  record get through (`Redelivery.RefusedAlthoughAppliedIff`). Publication turns that
  entry COMPLETED, unless the row is given up first: then it stays FAILED for good
  (`Redelivery.GivenUpKeepsEntry`; `Redelivery.FailedAlthoughPaid` is such a run).
- The repository's README says a duplicate is not processed twice because of the
  idempotency check. The code keeps the promise for one transaction id
  (`Workers.AppliedAtMostOnce`), not for one idempotency key: `Keys.SameKeyAppliesTwice`
  is a run that applies two transactions with one key. A key is published once exactly
  when no submission passes the lookup while the key is on its way
  (`Keys.KeyOnceIff`), and then money moves at most once per key (`Keys.KeyAppliedOnce`).
  Money moves twice for a key exactly when a delivery finds its request admissible and
  unfinished, and gets through, although the key is on a row (`Keys.KeyAppliedOnceIff`).
- The key lookup may return any entry with the key. The answer is always the same
  transaction exactly when one entry carries the key (`Keys.AnswerIsFixedIff`);
  `Keys.KeyAnsweredTwoWays` is a run after which it is not.
- The ledger lifecycle needs calls not to overtake each other. A worker that passed its
  idempotency check before publication may start recording a failure after it: the
  recorder's lookup then finds the entry COMPLETED, and since that is not FAILED the
  recorder overwrites it. COMPLETED never reverts exactly when no recorder overwrites a
  COMPLETED entry (`OverlapLimits.ForwardIff`), which only one does whose own lookup found
  it COMPLETED (`OverlapLimits.RevertFollowsLookup`). A transaction has one entry exactly
  when nobody inserts one that appeared after the check (`OverlapLimits.UniqueIff`).
  `OverlapLimits.RevertedRun` and `OverlapLimits.DuplicateRun` are runs that do so. What
  holds in every interleaving, also with several pollers, is `Overlap.OverlapIsSafe`,
  `OverlapLimits.FailedAsRead` and `OverlapLimits.FailedBesideRowIs`.
- The counter of a row passes the limit, or reaches it with the row still PENDING, exactly
  when an attempt at the limit fails and either its counter write is reported as failed
  although it took effect or the write of FAILED_TO_PUBLISH is lost (`Retries.BudgetedIff`).
- The counter does not bound the tries. While its counter write is lost, a row is
  published again on every tick: `Retries.TriedWithoutEnd` tries one row any number of
  times under a limit of one. The tries of a PENDING row are its counter plus the failed
  turns that were not counted (`Retries.TriesAre`), and no row is tried more often than
  allowed exactly when no turn is taken on a row for which this sum has reached the limit
  (`Retries.TriesWithinLimitIff`). The counter alone tells the tries exactly when no turn
  fails, leaves its row PENDING, and has its counter write lost or one of the two faults
  above at the limit (`Retries.PacedIff`).
- `(page - 1) * perPage` can overflow: page 2^58 + 1 of 64 entries shows the first page
  (`Pagination.OverflowExample`). A read of one history is exact if and only if the product
  fits in int64 or its wrapped value lies past the end (`Pagination.PageIsExactIff`), and
  for every history if and only if it fits (`Pagination.ReadIsExactIff`), which every page
  up to the reported page count satisfies (`Pagination.ListedPagesAreExact`).
- The history query orders by created_at alone, so two page reads see one order for certain
  exactly when no two different entries share an instant (`Pagination.OrderIsFixedIff`).
- The failure reason of a currency mismatch carries the literal text `account_currency`
  in place of the account's currency, as the code does.

## Model

| member | source | states |
|---|---|---|
| Workers.Serializable | internal/transaction_processor/service/processing_service.go:79-146 | for every interleaving of begin, lock, update, insert, commit, rollback, failure and crash of any number of workers, the committed tables are those of the sequential bank after the committed requests in commit order |
| Workers.StepRefines | internal/transaction_processor/service/processing_service.go:79-146 | each single step is invisible to everyone else or is exactly one enabled step of the sequential bank |
| Workers.MoneyIsConserved | internal/transaction_processor/service/processing_service.go:99-142 | in every reachable state a balance is its opening balance plus the signed sum of the account's committed rows, which replay to it in id order; the version is 1 plus their number; both fit their columns |
| Workers.AppliedAtMostOnce | migrations/postgres/000002_create_transaction_outbox_table.up.sql:3 | however often and to however many workers a transaction id is delivered, it changes a balance at most once |
| Workers.LockDiscipline | internal/transaction_processor/components/account_manager.go:37-80 | past the lock the worker's snapshot is the committed row, no other worker is past the lock of that account, and the versioned update never reports concurrent modification |
| Workers.OneWorkerPerTransaction | internal/transaction_processor/components/account_manager.go:41-80 | if a transaction id always carries one request, at most one worker is past the lock for it |
| Workers.NoDeadlock | internal/data/postgres/account_repository.go:183-211 | while some worker is unfinished, some worker's next statement is not blocked by a row lock or by the unique index |
| Workers.StaleUpdateRefused | internal/data/postgres/account_repository.go:130-157 | the optimistic version check alone refuses the second of two updates made from the same snapshot |
| Workers.LockHeldToTheEnd | internal/transaction_processor/service/processing_service.go:86-97 | a row lock once taken is held until commit, rollback or crash, failed statements included |
| Workers.HowItEnds | internal/transaction_processor/service/processing_service.go:86-143 | a failed statement or commit leaves only the rollback to do and changes no table; rollback and crash end the transaction without effect |
| Workers.UpdateUnderLock | internal/transaction_processor/components/account_manager.go:51-80 | under the lock the update goes through exactly when the mathematical result fits the table |
| Bank.DoKeeps | internal/transaction_processor/service/processing_service.go:99-142 | every step of the sequential bank keeps the table constraints and the books of every account |
| Bank.AtMostOnce | migrations/postgres/000002_create_transaction_outbox_table.up.sql:3 | no history of the sequential bank applies one transaction id twice |
| Replay.ReplayReproducesBalance | internal/data/postgres/outbox_repository.go:42-67 | an account's rows sorted by id are in commit order; replaying them from the opening balance never goes negative and ends at the stored balance; the version counts them |
| Accounts.ExactArithmetic | internal/domain/account/account.go:55-80 | wrapped int64 arithmetic plus the table constraints accept exactly the operations whose mathematical result fits, and store that result |
| Accounts.OverflowIsRejected | migrations/postgres/000001_create_accounts_table.up.sql:12 | an overflowing deposit always goes negative, so the CHECK rejects it |
| Accounts.WithdrawUndoesDeposit | internal/domain/account/account.go:55-80 | withdrawing what was deposited restores the balance, two versions later, and is possible exactly when the deposit did not overflow |
| Accounts.Account.Deposit | internal/domain/account/account.go:55-64 | adds the amount and one version with int64 wrap-around, or refuses exactly the non-positive amounts and changes nothing |
| Accounts.Account.Withdraw | internal/domain/account/account.go:67-80 | subtracts the amount and adds one version, or refuses exactly the non-positive and the uncovered amounts and changes nothing |
| Accounts.NewAccount | internal/domain/account/account.go:31-52 | which arguments are refused and with which error, and the version-1 account built from the others |
| Postgres.CreateAccount | internal/data/postgres/account_repository.go:45-67 | succeeds exactly when id and national id are free, the balance is not negative and the texts fit 50, 50 and 3 characters; the row is then stored; any other error leaves the tables as they were unless it is ambiguous |
| Postgres.LockForUpdate | internal/data/postgres/account_repository.go:183-211 | takes the row lock and returns the visible row, reports a missing account, or fails without effect when the wait for another holder ends |
| Postgres.UpdateAccount | internal/data/postgres/account_repository.go:130-157 | success means the stored version was one less and the row is in the transaction; concurrent modification is reported exactly when the version differs or the row is missing; other errors change nothing unless ambiguous |
| Postgres.CreateMessage | internal/data/postgres/outbox_repository.go:42-67 | appends the row under the next sequence id, and hands that id to the message, exactly when the account exists and the transaction id is taken neither in the table nor in the transaction; the sequence moves even when the row is refused |
| Postgres.UpdateStatus | internal/data/postgres/outbox_repository.go:117-139 | sets the status of the row with the id and of no other; fails when there is none |
| Postgres.IncrementAttempts | internal/data/postgres/outbox_repository.go:143-164 | adds one attempt to the row with the id and to no other, unless its counter is full; a missing row is reported |
| Postgres.Tx.Commit | internal/transaction_processor/service/processing_service.go:136-143 | publishes the transaction's writes and releases its locks; an error leaves it undone or, ambiguously, done |
| Postgres.Tx.Rollback | internal/transaction_processor/service/processing_service.go:86-97 | an open transaction leaves the tables as they were and gives up its locks, also when the statement reports an error |
| Batch.SelectPendingIs | internal/data/postgres/outbox_repository.go:71-79 | the batch holds PENDING rows only, each once, oldest first, at most limit, and a PENDING row is left out only by a full batch of rows before it |
| Batch.EarlierIsFetchedFirst | internal/data/postgres/outbox_repository.go:71-79 | of two PENDING rows the one written at an earlier instant is fetched in every batch the other is in, and before it |
| LedgerStore.LedgerRepository.Create | internal/data/mongo/ledger_repository.go:40-66 | looks the transaction up, then inserts; duplicate and error cases |
| LedgerStore.LedgerRepository.UpdateStatus | internal/data/mongo/ledger_repository.go:163-189 | sets status, reason and processed mark of the transaction's entry and of no other; a missing entry is reported |
| LedgerStore.LedgerRepository.GetByTransactionID | internal/data/mongo/ledger_repository.go:70-87 | an entry of the transaction; not found exactly when there is none and the read works |
| LedgerStore.LedgerRepository.GetByIdempotencyKey | internal/data/mongo/ledger_repository.go:91-112 | refuses an empty key; otherwise any one entry with the key, or none exactly when there is none |
| LedgerStore.CreateKeepsUnique | internal/data/mongo/ledger_repository.go:40-66 | under any faults creation keeps one entry per transaction, adds the given entry exactly when the transaction is absent and the calls take effect, and reports a duplicate exactly when a working check finds one |
| Processing.CheckIdempotency | internal/transaction_processor/components/transaction_validator.go:47-68 | skips exactly the transactions that are COMPLETED or FAILED in the ledger; a failed read is an error |
| Processing.RecordFailure | internal/transaction_processor/components/failure_recorder.go:27-78 | the ledger becomes what lookup, then create or overwrite, makes of it under the given faults |
| Processing.RecordOutcome | internal/transaction_processor/components/failure_recorder.go:50-77 | with a working ledger the transaction ends FAILED, the first failure reason is kept, any other status is overwritten, other entries are untouched |
| Processing.RecordErrors | internal/transaction_processor/components/failure_recorder.go:50-77 | under any faults: when recording reports success, a duplicate, or a store error, and that success means a final entry |
| Processing.LockAndUpdateAccount | internal/transaction_processor/components/account_manager.go:31-84 | lock, currency check, apply, versioned update: the transaction state and the error for every fault, a wait that ends without the lock included; the returned account is the locked one, moved by the request, and is what the transaction will write |
| Processing.CreateOutboxEntry | internal/transaction_processor/components/outbox_manager.go:29-73 | the request's PROCESSING entry becomes one PENDING, untried row of the open transaction, stamped with the moment of writing, exactly when account and transaction id allow it |
| Domain.NewMessage | internal/domain/outbox/message.go:24-38 | the message carries the entry and its ids, PENDING and untried, stamped with the current time |
| Processing.RecordBusinessError | internal/transaction_processor/service/processing_service.go:101-128 | business errors are recorded with their reason and acknowledged, all others are left for a retry |
| Processing.BusinessReasons | internal/transaction_processor/service/processing_service.go:101-128 | exactly four errors are business errors, and the reason each of them is recorded with |
| Processing.ProcessTransaction | internal/transaction_processor/service/processing_service.go:43-147 | the state of both stores and the result for every fault pattern; no row lock outlives the call, business errors included |
| Outcome.OutcomeContract | internal/transaction_processor/service/processing_service.go:51-146 | nil means exactly one of committed (balance, version and one PENDING row together), already final, or refused with Postgres unchanged and the matching reason recorded; an error is a store error, never a business one, and leaves both stores unchanged unless the commit was ambiguous |
| Outcome.FaultFreeOutcome | internal/transaction_processor/service/processing_service.go:51-146 | with healthy stores a well-formed unfinished request is applied exactly when admissible, refused exactly when the account refuses it, and otherwise left for a retry with nothing changed |
| Outcome.CommittedIff | internal/transaction_processor/service/processing_service.go:51-146 | under any faults the money moves exactly when the stored rows admit the request, the ledger does not hold it as finished, every call up to the commit succeeds and the commit takes effect |
| Outcome.TransactionOutcome | internal/transaction_processor/service/processing_service.go:79-146 | the database transaction is all or nothing and refuses only for the reason the account gives |
| Outcome.AloneIsTransacted | internal/transaction_processor/service/processing_service.go:79-146 | a worker that is not interfered with does to the tables what ProcessTransaction's transaction does |
| Publishing.PublishToLedger | internal/transaction_processor/outbox_poller/ledger_publisher.go:42-104 | the state of outbox and ledger and the error for every fault pattern and for an undecodable payload |
| Publishing.PublishIdempotent | internal/transaction_processor/outbox_poller/ledger_publisher.go:66-104 | any number of attempts under any faults leave the ledger as it was or with the one completed entry, which does not depend on the faults; a success means the latter |
| Publishing.LedgerWithSettles | internal/transaction_processor/outbox_poller/ledger_publisher.go:72-92 | that ledger holds the transaction once, COMPLETED, keeps all other entries, and publishing again changes nothing |
| Publishing.PublishedAt | internal/transaction_processor/outbox_poller/ledger_publisher.go:94-100 | an attempt touches only its own row's status and marks it PROCESSED only once the ledger holds the completed entry |
| Publishing.PublishedIff | internal/transaction_processor/outbox_poller/ledger_publisher.go:42-104 | exactly when an attempt succeeds, when it changes the ledger, and when its row becomes PROCESSED |
| Publishing.HandleMessage | internal/transaction_processor/outbox_poller/poller.go:91-114 | one turn of the batch loop: publish, and on failure count the attempt and give up at the limit |
| Publishing.ProcessPendingMessages | internal/transaction_processor/outbox_poller/poller.go:66-117 | the whole batch in order; a failed fetch changes nothing |
| Publishing.HandledSettles | internal/transaction_processor/outbox_poller/poller.go:91-112 | the row ends PROCESSED, given up, or PENDING with one more attempt (or unchanged when a counter write failed); other rows are untouched |
| Batch.BatchOutcome | internal/transaction_processor/outbox_poller/poller.go:79-116 | after the loop every fetched row has settled by its own faults and every other row is as before: one failure never stops later messages |
| Starvation.NoStarvation | internal/transaction_processor/outbox_poller/poller.go:66-117 | with k PENDING rows ahead, counter writes working and new rows sorting later, a row leaves PENDING within maxRetry * (k / batch + 1) ticks however publishing fails, also when counters have passed the limit before |
| Starvation.PollIsTick | internal/transaction_processor/outbox_poller/poller.go:66-117 | a call of ProcessPendingMessages with any ledger and any publishing faults, followed by any arrivals, is such a tick |
| Starvation.NoStarvationInRuns | internal/transaction_processor/outbox_poller/poller.go:66-117 | the same bound from any reachable state of both stores in which no PENDING row has filled its INTEGER counter, with submissions, deliveries and account openings between the turns of a batch |
| Starvation.FullCounterIsStuck | internal/data/postgres/outbox_repository.go:143-164 | a row whose counter is full and whose attempt fails is neither counted nor retired |
| Starvation.TickUsesBudget | internal/transaction_processor/outbox_poller/poller.go:97-112 | the attempts left over all PENDING rows fall on every non-empty tick without new rows |
| System.AfterKeeps | internal/transaction_processor/service/processing_service.go:43-147 | every step of the two-store pipeline, under any faults, keeps the invariant behind the theorems below |
| Agreement.StoresAgree | internal/transaction_processor/outbox_poller/ledger_publisher.go:62-104 | balance = opening + COMPLETED ledger entries + outbox rows not yet COMPLETED in the ledger |
| Agreement.LedgerReproducesBalance | internal/transaction_processor/components/outbox_manager.go:37-65 | once all of an account's rows are PROCESSED, the ledger alone reproduces its balance |
| Runs.ReachableStoresAgree | internal/transaction_processor/outbox_poller/ledger_publisher.go:62-104 | both statements in every reachable state |
| Runs.LedgerLifecycle | internal/transaction_processor/components/failure_recorder.go:50-77 | only COMPLETED and FAILED are stored, once per transaction; COMPLETED implies a row; PROCESSED implies COMPLETED; FAILED beside a row is an unpublished withdrawal refused for insufficient funds |
| Runs.CompletedNeverReverts | internal/transaction_processor/components/transaction_validator.go:53-67 | from any point of a run to any later one, COMPLETED entries never change and no entry is removed or moved |
| Runs.CompletedIsFaithful | internal/transaction_processor/components/outbox_manager.go:37-50 | a COMPLETED entry repeats every field of its request, with no failure reason |
| Runs.RecordThenPublishConfluent | internal/transaction_processor/components/failure_recorder.go:36-48 | recording a failure first and publishing later gives the same ledger as publishing alone |
| Runs.FinalRowsStay | internal/data/postgres/outbox_repository.go:117-164 | a row that is PROCESSED or FAILED_TO_PUBLISH at some point of a run is the same at every later one, under any faults |
| Runs.RetryAccounting | internal/transaction_processor/outbox_poller/poller.go:97-112 | unless a counter write is misreported or a write of FAILED_TO_PUBLISH is lost, PENDING means the counter is below the limit and no counter exceeds it |
| Runs.BudgetKeptIff | internal/transaction_processor/outbox_poller/poller.go:97-112 | one turn of the poller keeps the counters so exactly when it does not meet one of these two faults at the limit |
| Retries.BudgetedIff | internal/transaction_processor/outbox_poller/poller.go:97-112 | the counters are so at every point of a run exactly when no turn of it does |
| Retries.ProgressIff | internal/transaction_processor/outbox_poller/poller.go:91-112 | a turn retires its row, or counts the try and leaves another one, exactly when it is not wasted: the attempt fails and the counter write is lost, or at the limit it is misreported or the row is not given up |
| Retries.PacedIff | internal/transaction_processor/outbox_poller/poller.go:91-112 | at every point of a run the attempts column of a PENDING row is the number of turns that tried it, below the limit, exactly when no turn is wasted; then no row is tried more often than the limit |
| Retries.TriesAre | internal/transaction_processor/outbox_poller/poller.go:91-112 | in every run, under any faults, the turns that tried a PENDING row are its counter plus the failed turns whose counter write did not take effect |
| Retries.TriesWithinLimitIff | internal/transaction_processor/outbox_poller/poller.go:91-112 | no row of a run is tried more often than the limit exactly when no turn is taken on a row for which that sum has reached the limit |
| Retries.TriedWithoutEnd | internal/transaction_processor/outbox_poller/poller.go:97-102 | for every n a run that tries one row n times with a limit of one and leaves it PENDING and uncounted |
| Keys.SubmitKeepsKeyOnceIff | internal/api_gateway/service/transaction_service.go:35-64 | a submission leaves every key in the topic at most once exactly when it does not pass the lookup with a key that is in the topic and not yet in the ledger |
| Keys.KeyOnceIff | internal/api_gateway/service/transaction_service.go:35-64 | a run's topic holds every key at most once exactly when no submission of the run did so |
| Keys.KeyAppliedOnce | internal/api_gateway/service/transaction_service.go:32-74 | in such a run no two outbox rows carry one key |
| Keys.DeliveryKeepsKeysIff | internal/transaction_processor/service/processing_service.go:51-146 | a delivery, under any faults, leaves at most one outbox row per key exactly when it does not apply a request whose key is on a row |
| Keys.KeyAppliedOnceIff | internal/transaction_processor/service/processing_service.go:51-146 | money has moved at most once per key exactly when no delivery of the run did so |
| Keys.KeyStability | internal/api_gateway/service/transaction_service.go:32-74 | once an entry carries a key, a submission with it at any later point of the run publishes nothing and is answered by an entry with the key, of the same transaction as long as one entry carries it |
| Keys.AnswerIsFixedIff | internal/data/mongo/ledger_repository.go:91-112 | the answer does not depend on which document the query returns exactly when one entry carries the key |
| Runs.TickAsSteps | internal/transaction_processor/outbox_poller/poller.go:66-117 | fetching and handling message by message is what ProcessPendingMessages does in one call |
| Runs.RecordForwardIff | internal/transaction_processor/components/failure_recorder.go:50-77 | recording a failure under any faults leaves COMPLETED entries alone exactly when it does not find one for the transaction or its overwriting call is lost; otherwise the transaction ends FAILED |
| Keys.SameKeyAppliesTwice | internal/transaction_processor/components/transaction_validator.go:53 | a run that applies two transactions submitted with one idempotency key |
| Keys.KeyAnsweredTwoWays | internal/data/mongo/ledger_repository.go:91-112 | that run continued until both are published: two entries carry the key and the answer depends on the document the query returns |
| Redelivery.RefusedAlthoughAppliedIff | internal/transaction_processor/service/processing_service.go:99-128 | an applied request that is delivered again before publication moves no money, under any faults, and becomes FAILED in the ledger exactly when it is a withdrawal the balance no longer covers and the calls up to the record take effect |
| Redelivery.GivenUpKeepsEntry | internal/transaction_processor/outbox_poller/poller.go:102-112 | once a row is FAILED_TO_PUBLISH its ledger entry never changes again |
| Redelivery.FailedAlthoughPaid | internal/transaction_processor/service/processing_service.go:119-123 | a run that pays out once and ends with the payout FAILED in the ledger for good |
| Overlap.OverlapIsSafe | internal/transaction_processor/components/failure_recorder.go:50-77 | in every interleaving of the store calls of any number of recorders and pollers: an entry repeats its request and is COMPLETED beside an outbox row or FAILED with a reason that fits the kind of request (FailedAsRead says which), a PROCESSED row's transaction is in the ledger, and neither store ever loses a transaction |
| OverlapLimits.FailedAsRead | internal/transaction_processor/service/processing_service.go:56-128 | in every interleaving a FAILED entry carries the reason for which a worker, at some earlier step, had to refuse the request as the account stood then |
| OverlapLimits.FailedBesideRowIs | internal/transaction_processor/service/processing_service.go:101-128 | in every interleaving a FAILED entry beside an outbox row is a withdrawal whose funds were short, or a request whose account was missing, at the step that refused it |
| Overlap.RecorderAloneIsRecorded | internal/transaction_processor/components/failure_recorder.go:27-78 | the store calls of one recorder in a row are RecordFailure |
| Overlap.PollerAloneIsHandled | internal/transaction_processor/outbox_poller/poller.go:91-114 | the store calls of one poller in a row are one turn of the batch loop |
| OverlapLimits.RecorderForwardIff | internal/transaction_processor/components/failure_recorder.go:55-65 | one store call of a recorder reverts a COMPLETED entry exactly when it overwrites the transaction's entry and that entry is COMPLETED |
| OverlapLimits.LookupOverwritesIff | internal/transaction_processor/components/failure_recorder.go:50-58 | a recorder's lookup leads to an overwriting call exactly when it finds a COMPLETED entry |
| OverlapLimits.RevertFollowsLookup | internal/transaction_processor/components/failure_recorder.go:50-58 | an entry is reverted only by a recorder whose own lookup, at an earlier step, found the transaction COMPLETED |
| OverlapLimits.RecorderUniqueIff | internal/data/mongo/ledger_repository.go:44-57 | one store call of a recorder makes a second entry exactly when it inserts after the transaction got one |
| OverlapLimits.PollerUniqueIff | internal/data/mongo/ledger_repository.go:44-57 | the same for the publisher's insert |
| OverlapLimits.ForwardIff | internal/transaction_processor/components/failure_recorder.go:50-77 | COMPLETED entries never change between any two points of a run exactly when no step of the run is such an overwrite |
| OverlapLimits.UniqueIff | internal/data/mongo/ledger_repository.go:44-57 | the ledger has one entry per transaction at any point of a run exactly when no step before it is such an insert |
| OverlapLimits.LifecycleWithoutOvertaking | internal/transaction_processor/outbox_poller/ledger_publisher.go:72-101 | in a run without such steps PROCESSED implies COMPLETED, one entry per transaction, however calls overlap |
| OverlapLimits.ProcessedIff | internal/transaction_processor/outbox_poller/ledger_publisher.go:72-101 | while each transaction has one entry, PROCESSED means COMPLETED throughout a run exactly when no recorder reverts the entry of a PROCESSED row and no publisher marks its row after the entry was reverted |
| OverlapAgreement.OverlappingStoresAgree | internal/transaction_processor/outbox_poller/ledger_publisher.go:62-104 | however calls overlap, as long as none has duplicated an entry, balance = opening + COMPLETED ledger entries + outbox rows not COMPLETED in the ledger |
| OverlapLimits.RevertedRun | internal/transaction_processor/components/failure_recorder.go:56-58 | a run in which a late refusal of a redelivered withdrawal turns its published entry into FAILED, beside a PROCESSED row |
| OverlapLimits.DuplicateRun | internal/data/mongo/ledger_repository.go:44-57 | a run that ends with two entries for one transaction |
| Gateway.CreateTransaction | internal/api_gateway/service/transaction_service.go:32-74 | key lookup, then publish: the topic and the answer for every fault |
| Gateway.PublishesIff | internal/api_gateway/service/transaction_service.go:35-64 | exactly when a submission reaches the topic |
| Gateway.AnsweredIff | internal/api_gateway/service/transaction_service.go:32-74 | exactly when a client is answered at all, and with a new transaction: that answer means the request is in the topic, and every failed lookup or publish is an error |
| Gateway.CarriedKeyIsAnswered | internal/api_gateway/service/transaction_service.go:45-52 | a key in the ledger is answered with an entry that carries it and publishes nothing |
| WorkerPool.HandOff | internal/transaction_processor/service/worker_pool_service.go:46-100 | in every interleaving, also with equal transaction ids: no send on a closed channel, no second close, at most one send, and the map holds in-flight calls only |
| WorkerPool.OwnResult | internal/transaction_processor/service/worker_pool_service.go:68-99 | a returned caller has the result the base service gave for its own call, or the error with which the pool refused it |
| WorkerPool.SoleCallIsListed | internal/transaction_processor/service/worker_pool_service.go:57-80 | a call whose transaction id no other call has is in the map exactly while it is in flight |
| WorkerPool.NobodyIsStuck | internal/transaction_processor/service/worker_pool_service.go:70-99 | an unfinished call can always step; a finished one has its channel closed, drained and out of the map |
| Pagination.NewPaginatedResponse | internal/api_gateway/handler/http_response.go:50-65 | totalPages is the least number of pages that holds every item |
| Pagination.GetTransactionsByAccountID | internal/api_gateway/service/transaction_service.go:93-107 | the requested page of the account's entries, newest first in whatever order the database lists one instant, and the count of all its entries, or an error |
| Pagination.PagesPartition | internal/api_gateway/handler/http_response.go:50-65 | pages 1..totalPages concatenate to the history, all but the last are full, the last is not empty, later ones are empty |
| Pagination.HistoryIs | internal/data/mongo/ledger_repository.go:116-155 | the history lists each of the account's entries as often as the ledger does and no other, newest first; its length is the count; with one entry per transaction none is listed twice |
| Pagination.HistoryExists | internal/data/mongo/ledger_repository.go:116-143 | every account has such an order, so the page read is defined for every ledger |
| Pagination.OrderIsFixedIff | internal/data/mongo/ledger_repository.go:116-143 | every read lists an account in one order exactly when no two different entries share a created_at |
| Pagination.ReadIsExactIff | internal/api_gateway/service/transaction_service.go:94 | a page number reads exactly for every history if and only if its offset fits in int64 |
| Pagination.PageIsExactIff | internal/api_gateway/service/transaction_service.go:94 | a page of one history reads exactly if and only if its offset fits in int64 or wraps to one past the end |
| Pagination.ListedPagesAreExact | internal/api_gateway/service/transaction_service.go:93-107 | no page up to the reported page count is affected by overflow |
| Pagination.OverflowExample | internal/api_gateway/service/transaction_service.go:94 | a page far beyond the end that shows the first page again |

## Left out

- Kafka delivery, offsets and the dead-letter topic: a published message may be delivered any number of times, including never; nothing here says that no request is lost.
- HTTP routing, request binding, middleware, logging, correlation ids, configuration loading, migrations runner, connections and shutdown.
- JSON bytes: a payload decodes to its entry or is corrupt; that encoding and decoding an entry gives it back is taken for granted.
- Clock values: ProcessedAt is kept as set or not set, created_at as an abstract number; UpdatedAt and last_attempt_at are dropped.
- Panic recovery, and the internals of ants, pgx and the Mongo driver, which appear as the contracts above.
- UpdateBalance, outbox Delete and GetByTransactionID, ExecuteTx, GetByTimeRange, MarkAsProcessed, MarkAsFailed and CanWithdraw, which no production path calls.
- AccountService and account reads by id or national id, which add only lookups; account opening itself is a step of the runs.
- Processing.ProcessTransaction: a wait for the row lock either ends with the lock, and the call is the one made at that moment, or ends without it; interleavings with the holder are modelled in module Workers.
- Runs.LedgerLifecycle: proved for runs in which ProcessTransaction and PublishToLedger do not overlap and one poller runs; for overlapping calls OverlapLimits.ForwardIff, OverlapLimits.UniqueIff, OverlapLimits.ProcessedIff and OverlapAgreement.OverlappingStoresAgree say when its clauses and the agreement of the stores hold. The other ledger-status theorems of Runs, Keys, Redelivery and Agreement are about runs without overlap as well.
- Overlap.OverlapIsSafe: the database transactions appear as single steps, and a worker's idempotency check is not a step of its own, so that it may have happened at any earlier time or not at all, which only adds interleavings.
- Starvation.NoStarvation: asks that the attempts of PENDING rows have not filled the INTEGER column, because Starvation.FullCounterIsStuck shows the bound false there; rows with equal created_at are taken in id order, which the query does not specify.
- Runs.RetryAccounting: asks for maxRetry to fit the INTEGER attempts column.
- LedgerStore.LedgerRepository.GetByTransactionID: returns the first document in insertion order, where the database may return any; the theorems about it keep one entry per transaction, and module Overlap, where there can be several, lets every query pick any of them.
- WorkerPool.HandOff: the pool is a state machine on values, since its point is the interleaving of callers and workers; a base service that panics is not modelled.
