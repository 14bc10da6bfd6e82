# Quiescent: a model of the retry protocol and its proofs

Quiescent collects recurring payments. When a debit fails it retries, at most four times per mandate
cycle, with a notice to the customer a day before every debit, and it must never debit a cycle
twice, however its processes crash, stall, race or lose replies. This project models the parts that
carry that claim and proves them:

- **The tables and their transactions.** `CycleTables` states each guarded transaction of the store on
  the rows of one cycle. `Store` is the store itself: a class over the flat tables of all cycles, each
  transaction written statement by statement, proved to perform the one of `CycleTables` on its
  cycle and to touch no other. `StoreSteps` proves that these calls are the steps of the protocol.
- **The protocol.** `Protocol` is a state machine for one cycle: any number of schedulers, workers,
  reconcilers and notice relays, each a record of what it has read; a network that keeps every debit
  request for ever, so that requests may be delayed, repeated or never arrive; the bank with its
  handlers; crashes at every point. `Invariant` and `Preservation` hold the inductive invariant,
  `Safety` and `History` what follows for every run, `LateMarks` exactly when a mark lets money move,
  `ManyCycles` the whole deployment in which all cycles share one bank, one clock and one network,
  `StoreRuns` a consistent database behind every state of it, `Audit` the repository's own audit
  queries. `Reachable`, `LateFire` and `Witnesses` are concrete runs the code takes by its own clocks
  and plans.
  `Deployment` and `Scheduling` are `FireOne`, `Resolve`, `ScheduleNext` and `ProcessOne` as
  sequential code with arbitrary steps of everybody else between any two calls.
- **The bank.** `Ledger` is the log with its indexes, restarts and crashes, `LedgerProcess` the same
  as a class over a file that outlives it, `DebitHandler` the concurrent debit handlers.
- **Slots, triggers, simulation.** `Slots`, `Calendar` and `Timestamps` are the planner and the text
  its deadlines travel through, `Triggers` and `StaleAnswers` the balance-check gate, `Predict`,
  `OutcomeModel`, `Simulate` and `Domination` the harness with its oracle.

Check everything with `dafny verify dfyconfig.toml`.

## What the proofs say of the code

`MarkAttemptFired` is guarded on `fired_at IS NULL` alone (internal/store/attempt.go:36-41) and
`AbandonAttempt` takes no lease, so a worker that stalls after its checks can mark an attempt that was
abandoned and refunded meanwhile: a late mark. What comes of one is decided by the bank's fence.

- In every run without late marks the bank debits a cycle at most once (`Safety.AtMostOneDebit`); so
  it does in every run whose late marks all carry a fence below the highest the bank has admitted for
  the cycle (`LateMarks.AtMostOneDebitIfLateMarksAreLow`), and no refunded attempt is debited.
- The condition is exact, mark by mark and in every state: after a mark some continuation debits
  through the attempt if and only if the worker's fence is not below the bank's mark
  (`LateMarks.MoneyCanMoveIff`); and if another attempt of the cycle was debited before, a second debit
  is reachable under exactly that condition (`LateMarks.SecondDebitIff`).
- `LateFire.OneLateMarkTwoDebits` is a complete run, with planned slots, notices in time and an
  abandonment after more than ten minutes, that debits a cycle twice.
- Without any hypothesis there is at most one debit more than there are late marks. Everything about
  the tables alone holds in every run.

Further places where the code promises less than one might expect, each with its exact condition and
a run that gets there:

- The state column is not absorbing: its writes are unguarded (internal/store/reconcile.go:12-40). The
  label of a cycle whose newest attempt succeeded is overwritten by exactly two steps, a late
  reconciler's hold and a late mark (`Safety.RecoveredIsOverwrittenIff`,
  `Witnesses.RecoveredThenHeld`). Finality is therefore stated as "no further reservation".
- A refunded slot is not always usable again: sequence numbers count all rows and stop at 4
  (`Safety.SlotReusableIff`, `Witnesses.BudgetLeftButNoRow`).
- A pending cycle whose failure code is outside the table is never planned, although the worker may
  have classified it as retryable (`Safety.PendingCyclesCanBePlanned`,
  `Witnesses.PendingButNeverPlanned`; the bundled bank simulator sends table codes only).
- A plan made from a confirmed balance counts from the answer, not from now, so a late tick may plan
  a slot whose notice deadline has passed (`Slots.ConfirmationCountsFromTheAnswer`). After a refund the
  same answer decides again, and the same overdue slot is reserved until the cycle has four rows
  (`StaleAnswers.OldYesRepeats`).
- The oracle of the harness does not dominate in every world: the exact condition is
  `Domination.OracleDominatesIff`; worlds without fixtures meet it for midnight due dates, and
  `Domination.OracleMissesEarlyMoney` is one that does not.

## Model

| member | source | states |
|---|---|---|
| Safety.AtMostOneDebit | internal/execute/execute.go:54-134 | In every run in which no mark hits an attempt that has an outcome, the bank's log holds at most one successful debit of the cycle, whatever crashes, stalls, is lost or arrives twice. |
| Safety.DebitsAreAtMostOneMoreThanLateMarks | internal/store/attempt.go:35-54 | In every run at all, the attempts whose key has a successful debit are at most one more than the marks that hit an attempt with an outcome. |
| Safety.TwoDebitsNeedALateMark | internal/store/refund.go:12-39 | Of two attempts of a cycle that both moved money, the older was marked after it had been abandoned. |
| Safety.TwoLogEntriesNeedALateMark | internal/provider/ledger.go:186-198 | Of two successful log entries of one cycle, one belongs to an attempt marked late whose money moved. |
| LateMarks.MoneyCanMoveIff | internal/store/attempt.go:28-54 | After any mark, on time or late, some continuation debits through the attempt if and only if the worker's fence is not below the highest the bank has admitted for the cycle. |
| LateMarks.SecondDebitIff | internal/provider/ledger.go:149-164 | If another attempt's money has moved, a second debit through the marked attempt is reachable under exactly that condition. |
| LateMarks.AtMostOneDebitIfLateMarksAreLow | internal/provider/sim.go:143-155 | In every run whose marks of attempts with an outcome all carry a fence below the bank's mark, the log holds at most one successful debit of the cycle. |
| LateMarks.RefundedIsNeverDebited | internal/store/refund.go:12-39 | In such a run no abandoned and refunded attempt is ever debited. |
| LateMarks.LockedOutForever | internal/provider/ledger.go:149-164 | A fired attempt with no entry, no handler past the gate and a fence below the bank's mark stays so in every run. |
| Safety.MarkKeepsRefundsSettled | internal/store/attempt.go:35-54 | A mark that goes through keeps every abandoned attempt unfired or refused by the bank if and only if the attempt has no outcome yet; the code's guard asks only for fired_at. |
| LateFire.OneLateMarkTwoDebits | internal/execute/execute.go:54-110 | A concrete run from an initial state, every reservation planned with its deadline 24 hours before, every notice delivered in time, the abandonment more than ten minutes late, with one late mark, after which the log holds two successful debits of the cycle. |
| Witnesses.RecoveredThenHeld | internal/store/reconcile.go:12-22 | A run of the same kind to a recovered, debited cycle that the next step of a late reconciler labels held. |
| Witnesses.BudgetLeftButNoRow | internal/store/schedule.go:35-46 | A run of the same kind to a pending cycle with its whole budget and four rows, where every reservation is refused by validation. |
| Witnesses.PendingButNeverPlanned | internal/execute/execute.go:168-225 | A run of the same kind to a pending cycle whose newest failure code is outside the table. |
| Safety.RecoveredIsOverwrittenIff | internal/store/reconcile.go:12-40 | The label recovered of a cycle whose newest attempt succeeded is overwritten by a step if and only if the step is a hold or a late mark. |
| Safety.AtMostOneSuccessRow | internal/store/invariants.go:9-14 | In every run at most one attempt row of a cycle is recorded SUCCESS. |
| Safety.AtMostOneOpen | internal/store/cycle.go:40-63 | In every run at most one attempt is open (outcome NULL or TIMEOUT); it is the newest; the cycle is not pending and no scheduler holds its current version meanwhile. |
| Safety.ReservationsAreSound | internal/store/schedule.go:14-49 | A scheduler whose snapshot version still matches finds all earlier attempts closed and retryable, its attempt count true and budget left, though only version and budget are checked. |
| Safety.OutcomesAgreeForever | internal/reconcile/reconcile.go:80-105 | A recorded SUCCESS or FAILURE agrees with the bank's entry under its key for the rest of every run; the key of an abandoned attempt not marked late never becomes a success. |
| Safety.OutcomeAgrees | internal/store/attempt.go:56-89 | In every state of the invariant a closed attempt's outcome is the bank's, as far as the bank has decided. |
| Safety.ResolutionsAreTrue | internal/store/reconcile.go:63-114 | A reconciler resolves an attempt as debited if and only if the bank's permanent entry under its key is a success. |
| Safety.UnresolvedIsFiredAndOpen | internal/store/reconcile.go:42-61 | In every reachable state the reconcilers' query covers exactly the attempts that were fired and are not closed. |
| Safety.FinishedIsFinal | internal/execute/execute.go:168-184 | After an attempt that succeeded or failed with a final code of the table, no run reserves another attempt, whatever is written to the state column and whoever crashes. |
| Safety.EndingAttemptIsNewest | internal/classify/classify.go:5-16 | Any attempt that ended the cycle stays its newest attempt in every later state. |
| Classification.CodesSplit | internal/classify/classify.go:5-24 | Every code is one of the six retried, one of the three that end a cycle, or outside the table, where the answer is manual review. |
| Safety.BudgetIsExact | internal/store/invariants.go:29-37 | attempts_used equals the number of rows not ABANDONED_STALE and lies in 0..4; sequence numbers and keys are those of positions 1..n with n at most 4. |
| Safety.RefundsHappenOnce | internal/store/refund.go:17-37 | The attempts_used > 0 guard never fails where a refund is due, refunds succeed exactly on the attempts their guards name, and an attempt once refunded is never refunded again. |
| Safety.SlotReusableIff | internal/store/validate.go:32-38 | With a current snapshot and a fresh id a reservation succeeds if and only if fewer than four attempts were ever made, and is otherwise refused by validation. |
| Safety.AtMostFourRequests | internal/store/schedule.go:35-46 | However long a run, at most four distinct debit requests of a cycle are ever sent. |
| Safety.MarkedOnce | internal/store/attempt.go:35-54 | Firing time and fence of a fired attempt never change, and no later mark of it has any effect. |
| Safety.PendingCyclesCanBePlanned | cmd/quiescent/scheduler.go:68-82 | A pending cycle is schedulable, has budget left, and has a failure code on record if it used any; it can be planned if and only if that code is in the table. |
| Safety.LeasesNeverOverlap | internal/store/lease.go:13-38 | Lease periods of a cycle never overlap on the database clock and fences are handed out once, increasing. |
| Safety.FencesGrow | internal/execute/execute.go:69-110 | In every run the fences of fired attempts strictly increase with the sequence number, late marks aside. |
| Safety.CurrentDebitIsNotStale | internal/provider/sim.go:143-155 | Without late marks, the newest fired attempt's request is never below the bank's mark and is admitted. |
| Safety.OldDebitsAreStale | internal/provider/ledger.go:149-164 | Once a newer attempt's request was admitted, a late duplicate of an older one is refused as stale, then and for ever. |
| Safety.FiredMeansNoticed | internal/store/invariants.go:47-55 | Every fired attempt has exactly one notice, recorded as delivered at least 24 hours before the recorded firing time, whatever the worker clocks say. |
| Safety.GateOpensIff | internal/store/outbox.go:44-62 | The notice gate lets a worker through if and only if the attempt's notice was delivered at least 24 hours before its slot. |
| History.RowChangesAreBounded | internal/store/attempt.go:35-89 | Over a run of any length the attempt rows of a cycle change at most sixteen times, insertions included. |
| History.StepSpendsPotential | internal/store/reconcile.go:63-114 | Every step that changes an attempt row lowers a measure of the changes left; every other step keeps it. |
| History.RunIsOnward | internal/store/attempt.go:35-89 | In every run rows are only appended and move only from unfired to fired and from NULL over TIMEOUT to one final outcome; the bank's log, entries and marks only grow. |
| Preservation.StepKeepsInv | internal/execute/execute.go:54-134 | Every step of every process, the bank, the clock and the network keeps the inductive invariant. |
| Preservation.ReachableInv | cmd/quiescent/create.go:59-68 | The invariant holds in every state reachable from what production creates. |
| Preservation.StepReserve | internal/store/schedule.go:14-49 | A reservation, successful or refused, keeps the invariant. |
| Preservation.StepMark | internal/store/attempt.go:28-54 | A mark keeps the invariant, also one that hits an abandoned attempt. |
| Preservation.StepRecordReply | internal/execute/execute.go:121-130 | Recording a reply keeps the invariant; in particular a worker that has recorded a failure and not yet advanced is the only one and works on the newest attempt. |
| Preservation.StepAdvance | internal/execute/execute.go:168-184 | The unguarded state write of a worker keeps the invariant: it returns a cycle to pending only when all attempts are closed and retryable and budget is left. |
| Preservation.AbandonKeepsInv | internal/store/refund.go:12-39 | An abandonment from any process at any moment keeps the invariant. |
| Preservation.StepResolve | internal/store/reconcile.go:63-114 | A resolution keeps the invariant in both directions. |
| Preservation.StepAcquire | internal/store/lease.go:13-38 | Acquiring a lease, granted or not, keeps the invariant. |
| Preservation.NewFenceIsHighest | internal/store/lease.go:13-38 | A lease handed out carries the next fence, above that of every fired attempt, and the worker captures it. |
| ManyCycles.StepIsSeen | internal/provider/sim.go:112-227 | Every step of the whole deployment is a step of each cycle's own protocol or leaves that cycle's view as it was. |
| ManyCycles.EveryCycleIsSound | cmd/quiescent/worker.go:41-67 | In every reachable state of the deployment every cycle meets the protocol's invariant. |
| ManyCycles.AtMostOneDebitPerCycle | internal/provider/ledger.go:186-198 | Two successful entries of one cycle in the bank's shared log mean that one of that cycle's attempts was marked late and its money moved. |
| Audit.NothingToReport | internal/store/invariants.go:9-55 | In every reachable state of the deployment the audit queries for double debits, exceeded budgets, budget mismatches and missing notices return no row, in any consistent database behind it. |
| Audit.QueriesReport | internal/store/invariants.go:9-55 | On any tables the queries report exactly the cycles with two successes, more than four attempts used or a counter off the rows, and the fired attempts with no notice or a bad one. |
| StoreRuns.ReachableDatabaseIsClean | internal/store/invariants.go:9-55 | From empty tables on, along every run with fresh attempt ids, there is a consistent database behind the deployment, in which those queries return no row. |
| StoreRuns.StepHasDb | internal/store/attempt.go:28-89 | Every step of the deployment takes a consistent database behind it to a consistent database behind the next state. |
| Audit.NoticesAreClean | internal/store/invariants.go:47-55 | No fired attempt joins a missing, undelivered or late notice, the join taken over the outbox of all cycles. |
| Audit.SuccessesAreOfTheView | internal/store/invariants.go:9-14 | The count of the double-debit query over all rows is the count over the cycle's own rows. |
| Audit.HeldAreOfTheView | internal/store/invariants.go:29-37 | The count of the budget query over all rows is the number of the cycle's attempts that hold a slot. |
| Deployment.Cluster.FireOne | internal/execute/execute.go:54-134 | As sequential code with arbitrary steps of others between calls: stale exactly by the worker's clock against ten minutes; not_my_turn only for an attempt fired or closed by somebody else or a lease still held; past the gate it fails at the mark if and only if the attempt was already fired, and otherwise the debit was sent and settled by the bank's reply as Debit states. |
| Deployment.Cluster.Interfere | cmd/quiescent/worker.go:41-67 | Any steps of the other processes keep the invariant and the record of the one that waits. |
| Deployment.Cluster.AbandonBy | internal/execute/execute.go:55-67 | The abandonment succeeds exactly on an attempt neither fired nor closed; otherwise somebody else fired or closed it and the tables stay as they are. |
| Deployment.Cluster.Debit | internal/execute/execute.go:102-133 | Told from the state when the wait ends: the result is fired if and only if the attempt has no outcome yet; if the bank's reply to this request is there, outcome and code are the reply's and the cycle gets the label for them; only without a reply is TIMEOUT recorded and the cycle unknown; an error changes nothing. |
| Deployment.Cluster.TakeReply | internal/execute/execute.go:121-133 | With the reply in hand, its outcome and code are recorded exactly on an attempt without an outcome; recovered for a success, escalated for a code that ends the cycle, abandoned with four attempts on the cycle row read, pending otherwise. |
| Deployment.Cluster.AdvanceCycle | internal/execute/execute.go:168-184 | The label written is the one the recorded outcome, the code, the adviser's class for a code outside the table and the attempt count ask for. |
| Deployment.Cluster.LoadAndMark | internal/execute/execute.go:95-102 | The cycle row is read before the mark, and the mark is refused exactly for an attempt already fired, changing nothing. |
| Deployment.Cluster.Reconcile | internal/reconcile/reconcile.go:52-106 | not_my_turn only while the lease is held; recovered and pending mean row, label and the bank's entry; held means no entry was there at the start; an error means an attempt resolved meanwhile or a broken question before any answer. |
| Deployment.Cluster.AskBank | internal/reconcile/reconcile.go:62-78 | An entry that is there before the first question is found; without one after five questions the loop ends unanswered; it breaks only at the broken question, before any answer. |
| Safety.PollsFiveTimes | internal/reconcile/reconcile.go:62-78 | A question is answered from the bank's entry whenever there is one, and the fifth question without one is the last. |
| Deployment.Cluster.Conclude | internal/reconcile/reconcile.go:90-105 | An attempt fired and open is recovered if and only if the bank's entry is a success and refunded if and only if it is not; an attempt resolved meanwhile, and only that, is an error that changes nothing. |
| Scheduling.Scheduler.ScheduleNext | internal/schedule/schedule.go:48-114 | The tick decides exactly the mandated slot of the cycle row read, the answer's slot, a wait or nothing, as PlanFor states; a planned slot is reserved with its notice due 24 hours before to the second, raced only if the version moved, refused only for its id, four rows or an unprintable deadline; a reserved attempt follows the newest failure code of the claimed cycle. |
| Scheduling.PendingCyclesGetASlot | internal/schedule/schedule.go:69-77 | In every reachable state the planner gives a pending cycle that has used attempts its mandated slot if its newest failure code is retried by the table, and none if the code is outside it; there is no third case. |
| Scheduling.Scheduler.PlanFor | internal/schedule/schedule.go:56-77 | The first attempt is planned for the due date; after a lack of funds the trigger decides; after any other code the table retries, the slot one, three or seven days after the due date is planned with one, two or three attempts used; otherwise nothing. The slot is at the preferred Indian hour, not before the notice fits, past the windows, to the nanosecond. |
| Scheduling.Scheduler.Gated | internal/schedule/schedule.go:116-155 | A yes on record plans 24h15m after the answer, past the windows; a no or twenty unanswered hours plan the mandated slot; a running or new question waits. |
| Scheduling.Scheduler.ReservePlan | internal/schedule/schedule.go:81-112 | A reservation is raced only when the version has moved from the one read, and an error has one of four reasons. |
| Scheduling.Scheduler.Deadline | internal/schedule/schedule.go:88-91 | The deadline that comes back from its text lies less than one second before 24 hours ahead of the slot, never after; exactly the years without four digits fail. |
| Scheduling.Relay.ProcessOne | internal/outbox/outbox.go:56-76 | By the relay's clock against the notice's deadline: late, the attempt is given back if it was neither fired nor closed and nothing else changes; not sent, nothing changes; sent, exactly this notice is recorded at this time unless somebody recorded it before. |
| StoreSteps.AttemptCallIsStep | internal/store/attempt.go:28-89 | A store call on an attempt takes the database behind the deployment to the database behind the state after the protocol's step, for every cycle. |
| StoreSteps.ReserveCallIsStep | internal/store/schedule.go:14-49 | ReserveAttempt is the reservation step, or, when another cycle owns the attempt id, changes nothing. |
| StoreSteps.LeaseCallIsStep | internal/store/lease.go:13-38 | AcquireLease is the lease step. |
| StoreSteps.StateCallIsStep | internal/store/reconcile.go:12-40 | The writes of the state column are the steps that write it. |
| StoreSteps.DeliverCallIsStep | internal/store/outbox.go:33-42 | Marking notices delivered across the whole outbox is the delivery step of one cycle alone. |
| StoreSteps.CreateCallIsStep | internal/store/cycle.go:13-25 | Creating a fresh cycle is the creation step of the deployment. |
| StoreSteps.StepPerformsTx | internal/store/reconcile.go:63-114 | Each protocol step that touches an attempt performs exactly one store transaction on it. |
| Store.PostgresStore.CreateCycle | internal/store/cycle.go:13-25 | A valid new cycle gets its row with mandate and customer, version 0, an empty lease and no attempts; invalid and duplicate ones change nothing, and no other cycle is touched. |
| Store.PostgresStore.SchedulableCycles | internal/store/cycle.go:40-63 | The first of the pending cycles without an open attempt by due date and id, up to the limit. |
| Store.PostgresStore.AttemptsByCycle | internal/store/attempt.go:126-137 | The cycle's rows in order. |
| Store.PostgresStore.LastFailureCodeOf | cmd/quiescent/scheduler.go:68-82 | The backwards scan finds the newest failure code on record. |
| Store.PostgresStore.ReserveAttempt | internal/store/schedule.go:14-49 | Performs the reservation on its cycle or leaves all tables unchanged, with the refusal the guards dictate; other cycles stay as they are. |
| Store.PostgresStore.InsertAttempt | internal/store/attempt.go:15-26 | Appends a valid row that clashes with none, and otherwise says why not; a row that claims to be fired or closed already is refused. |
| Store.PostgresStore.AcquireLease | internal/store/lease.go:13-38 | Hands out the next fence exactly when the lease has expired on the database clock. |
| Store.PostgresStore.MarkAttemptFired | internal/store/attempt.go:28-54 | Performs the mark on the attempt with this id, in its cycle only; conflicts roll back. |
| Store.PostgresStore.RecordAttemptOutcome | internal/store/attempt.go:56-89 | Performs the recording on the attempt with this id, in its cycle only. |
| Store.PostgresStore.AbandonAttempt | internal/store/refund.go:12-39 | Performs mark and refund together or neither. |
| Store.PostgresStore.ResolveDebited | internal/store/reconcile.go:63-85 | Performs the resolution as debited on the attempt with this id or conflicts. |
| Store.PostgresStore.ResolveNotDebited | internal/store/reconcile.go:87-114 | Performs the resolution as not debited with its refund, or conflicts. |
| Store.PostgresStore.WriteState | internal/store/reconcile.go:12-40 | Writes the state column of an existing cycle, unguarded, and nothing else. |
| Store.PostgresStore.MarkNoticeDelivered | internal/store/outbox.go:29-42 | Marks the undelivered notices of the attempt, first delivery wins, a conflict when there is none. |
| Store.PostgresStore.NoticeDelivered | internal/store/outbox.go:44-62 | True exactly if a notice of the attempt was recorded as delivered 24 hours before the slot. |
| Store.PostgresStore.PendingNotices | internal/store/outbox.go:64-85 | The first of the undelivered notices of attempts without an outcome, by deadline, up to the limit. |
| Store.PostgresStore.DueAttempts | internal/store/due.go:10-28 | The first of the attempts due on the database clock without an outcome, by slot, up to the limit. |
| Store.PostgresStore.Unresolved | internal/store/reconcile.go:42-61 | The first of the attempts in TIMEOUT, or fired without an outcome, by slot, up to the limit. |
| Pages.FirstPage | internal/store/due.go:14-18 | A page holds distinct rows in order, and leaves a row out only for lack of room and behind all others. |
| Store.ClashMeansTaken | internal/store/schedule.go:35-43 | The next sequence number and key are never taken by any cycle: a reservation is a duplicate only through its id. |
| StoreView.RowsOfUpdate | internal/store/attempt.go:126-137 | Updating a row in place changes exactly that row of its own cycle and nothing of any other. |
| CycleTables.SlotsHeldUpdate | internal/store/invariants.go:29-37 | Changing one attempt changes the number of slots held by exactly the difference of its own. |
| CycleTables.SlotsHeldCounts | internal/store/invariants.go:29-37 | Slots held are the number of rows whose outcome is not ABANDONED_STALE. |
| CycleTables.NewestCodeIsTheLast | cmd/quiescent/scheduler.go:76-81 | The newest failure code is that of the last row that has one, and absent only if no row has one. |
| Ledger.LedgerSurvivesEverything | internal/provider/ledger.go:57-198 | After any operations, restarts and crashes in the middle of an operation the indexes equal the replay of the log, no key has two entries, nothing written is lost and every committed debit is permanent. |
| Ledger.CrashAfterWriteIsACrashAfterwards | internal/provider/ledger.go:149-198 | A crash between the log line and the index update is, after the restart, no different from a crash after the whole operation. |
| Ledger.IndexIsTheLog | internal/provider/ledger.go:89-122 | With one entry per key the index holds exactly the debits of the log, so replay's last-wins equals commit's first-wins. |
| Ledger.CommitKeepsOneEntryPerKey | internal/provider/ledger.go:186-198 | Committing an absent key keeps one entry per key. |
| Ledger.ReopenRestores | internal/provider/ledger.go:57-87 | Reopening the file gives the indexes back as they were. |
| LedgerProcess.BankLedger.OpenLedger | internal/provider/ledger.go:57-87 | Opens exactly when all headers carry the seed and a needed header can be written; the new process holds the replay of the file, whatever is in it, and is sound if no key has two entries; a refusal leaves the file alone. |
| LedgerProcess.BankLedger.ReplayFile | internal/provider/ledger.go:89-122 | The line-by-line loop builds the replay of the whole file, or reports a foreign header. |
| LedgerProcess.BankLedger.AdmitFence | internal/provider/ledger.go:149-164 | Admits a fence at or above the mark and raises the mark in file and index together. |
| LedgerProcess.BankLedger.RevokeMandate | internal/provider/ledger.go:172-184 | Revokes once, in file and index together. |
| LedgerProcess.BankLedger.Commit | internal/provider/ledger.go:186-198 | The first entry of a key wins; a later one gets the stored entry back. |
| LedgerProcess.Restart | internal/provider/ledger.go:57-87 | A process opened on the file of another holds the same debits, marks and revocations. |
| DebitHandler.RepliesAgreeWithTheLedger | internal/provider/sim.go:143-226 | Under any interleaving of handlers, drops, restarts and crashes, a key has one entry, every 200 reply carries its outcome and matches its hash for ever, and at most one says it is not a replay. |
| DebitHandler.LookUpAnswersFromLog | internal/provider/sim.go:157-167 | A duplicate is answered with the outcome in the log, as a replay, if cycle, attempt number, amount and rail are the entry's, and as a conflict if one differs; the handler goes on if and only if the log has no entry for the key. |
| DebitHandler.CommitAnswersFromLog | internal/provider/sim.go:201-216 | After a lost race the answer is again the log's and nothing is written; on a free key exactly the decided entry is appended, or the write fails. |
| DebitHandler.FirstAnswerIsTheEntry | internal/provider/sim.go:220-226 | The handler that committed an entry answers with that entry, not as a replay. |
| DebitHandler.DecidedEntryIsTheRequests | internal/provider/sim.go:176-200 | The entry decided on is for the handler's own request, under its own key and fence. |
| DebitHandler.WhatIsMalformed | internal/provider/sim.go:118-129 | The printed key of an attempt with a positive amount is taken on; an empty cycle, a non-positive amount or a foreign key prefix is malformed. |
| DebitHandler.StepKeepsInv | internal/provider/sim.go:112-227 | Every critical section of a handler, and every restart or crash, keeps the bank's invariant. |
| DebitHandler.RunOnlyGrows | internal/provider/ledger.go:149-198 | Along every run of the bank entries, marks and revocations only grow and the log only gets longer. |
| DebitHandler.StaleExactlyBelowTheMark | internal/provider/sim.go:143-155 | A request is refused as stale exactly when its fence is below the highest admitted for its cycle. |
| Keys.KeysAreInjective | internal/domain/id.go:55-57 | Distinct attempts, of whatever cycles, never share an idempotency key. |
| Keys.AttemptNumberRoundTrip | internal/provider/api.go:52-66 | The bank reads every positive sequence number back from the printed key. |
| Keys.PrintedKeysAccepted | internal/provider/api.go:56-66 | Of the printed keys the bank accepts exactly those of numbers from one to the largest 64-bit one, and reads the number back. |
| Keys.KeyHasOneOwner | internal/provider/api.go:56-66 | A key is accepted for at most one cycle, for arbitrary cycle names. |
| Keys.PrintedDigitsReadBack | internal/domain/id.go:55-57 | Decimal printing and reading are inverse. |
| Slots.PlansMeetEveryRule | internal/solve/solve.go:20-87 | First and Next are free by the Indian wall clock, at least 24h15m ahead and within 4h35m after the later of the wanted slot and the notice floor; Next plans exactly for classes that may be retried with one to three attempts used. |
| Slots.PlansAreMandated | internal/solve/solve.go:20-111 | First, Next and AfterConfirmation equal, for all inputs, the slot spelled out in calendar days, wall clock and durations. |
| Slots.MandatedSlotMeetsEveryRule | internal/solve/solve.go:113-138 | That slot is free by the wall clock, leaves 24h15m, is never early, at most 4h35m late, and on the wanted Indian day when the notice fits. |
| Slots.WindowsByTheClock | internal/domain/window.go:25-67 | On every Indian day 10:00 to the end of minute 13:00 is blocked and shifts to 13:05, 17:00 to the end of minute 21:30 is blocked and shifts to 21:35, and every other time is free and unmoved. |
| Slots.WindowsAreTheClocks | internal/domain/window.go:55-67 | The window table and its search agree with the wall clock at every instant. |
| Slots.PlannedSlot | internal/solve/solve.go:113-138 | Every planned slot is free by the wall clock within the same bounds, and with room for the notice it stays on the wanted Indian day. |
| Slots.ShiftEscapesTheWindow | internal/domain/window.go:44-67 | A shift is never earlier, ends at a time free by the wall clock, takes at most 4h35m, stays on the Indian day and moves exactly the times that are not free. |
| Slots.ShiftIsIdempotent | internal/domain/window.go:44-53 | Shifting twice is shifting once. |
| Slots.ShiftIsNotMonotone | internal/domain/window.go:44-53 | Noon is shifted past 13:02, which stays where it is. |
| Slots.ConfirmationCountsFromTheAnswer | internal/solve/solve.go:89-111 | A confirmed plan leaves the notice its lead after the answer; measured from now it leaves one exactly while the answer is younger than 15 minutes plus the detour of its slot around a window, and never after 4h50m. |
| Timestamps.TextRoundTrip | internal/solve/solve.go:37-37 | Printing an instant by section 5.6 of RFC 3339 and parsing it drops the fraction of a second and nothing else, if and only if the local year has four digits. |
| Timestamps.DeadlineSurvivesText | internal/schedule/schedule.go:88-91 | The stored deadline is less than a second early and never late, and exists exactly if its local year has four digits. |
| Calendar.DateReadsBackFromCivil | internal/solve/solve.go:37-37 | Every day number, before and after 1970, reads back from its calendar date. |
| Calendar.YearsAreGregorian | internal/solve/solve.go:37-37 | From any year to any later one the calendar has 365 days a year and one more for each leap year of the Gregorian rule. |
| Triggers.WaitIsNeverExtended | internal/schedule/schedule.go:116-155 | However often it is asked again, the wait ends with the first answer or 20 hours after the first question and not before; then there is an unblocked plan. |
| Triggers.FirstWriteWins | internal/store/trigger.go:15-37 | Over any questions and answers, the first deadline and the first answer stay. |
| Triggers.AnswersAreFinal | internal/store/trigger.go:27-37 | After an answer every later tick decides the same way; a yes always plans the same slot. |
| Triggers.PendingCyclesGetAPlan | internal/schedule/schedule.go:116-155 | In every reachable state a pending cycle short of funds has used one to three attempts, so the gate plans exactly when its trigger is answered or expired. |
| Triggers.TriggerTable.Gate | internal/schedule/schedule.go:116-155 | A lookup, and if it finds nothing a question, with anything done to the table in between; the verdict is that of the row found. |
| Triggers.TriggerTable.QueueTrigger | internal/store/trigger.go:15-25 | Inserts if absent, and otherwise leaves the row as it was. |
| Triggers.TriggerTable.RespondTrigger | internal/store/trigger.go:27-37 | Accepts yes or no once per trigger. |
| Triggers.TableIsItsHistory | internal/store/trigger.go:15-55 | After any questions and answers, for any cycles, the row a lookup finds is sent at the first question, due 20 hours later and answered by the first answer after it; without a question there is none. |
| StaleAnswers.OldYesRepeats | internal/schedule/schedule.go:134-139 | Once a confirmed slot's deadline has passed, every round of reservation and refund leaves the cycle pending under the same answer with the same overdue slot, until it has four rows and every reservation is refused. |
| Predict.PreferredHour | internal/predict/predict.go:12-31 | Nothing below two successes; otherwise the commonest Indian hour, ties to the earliest. |
| Predict.CountHours | internal/predict/predict.go:17-20 | The map counts every hour of the history. |
| Predict.ModeIsUnique | internal/predict/predict.go:22-28 | There is only one such hour. |
| OutcomeModel.SuccessProbability | internal/provider/outcome.go:51-77 | Lies in 0..0.98 and is positive exactly for an unblocked, covered debit within the rail's cap. |
| OutcomeModel.ProbabilityIs | internal/provider/outcome.go:51-77 | For attempts one to four, the exact probability from amount, balance, rail and number, with caps and thresholds in paise. |
| OutcomeModel.RefusalsAre | internal/provider/outcome.go:79-103 | Window, amount, balance and bad luck are refused in this order, each with its code. |
| OutcomeModel.DebitedIffDrawBelow | internal/provider/outcome.go:79-103 | A debit succeeds exactly when its draw is below its probability. |
| OutcomeModel.BetterOddsStillSucceed | internal/provider/outcome.go:79-103 | With the same draw whatever is at least as probable succeeds too. |
| OutcomeModel.BalanceAt | internal/provider/world.go:81-99 | The scan returns the balance of the last point reached, or the payday balance. |
| OutcomeModel.BalanceIsSteadyByDay | internal/provider/world.go:81-99 | A balance that changes at Indian midnight only is the same all day. |
| OutcomeModel.SynthesisedCustomersAreSteady | internal/provider/world.go:165-187 | Every customer the simulation makes up is of that kind. |
| OutcomeModel.CustomerIs | internal/provider/world.go:156-187 | A cycle draws on the customer its fixture names or the one of its own name; without a fixture that customer has a payday from the 1st to the 28th and always more money from then on. |
| Simulate.SimulateSystem | internal/harness/simulate.go:41-68 | The loop computes the outcome of the system policy under the hour its history prefers. |
| Simulate.SimulateCustomerSequence | internal/harness/simulate.go:70-81 | Every cycle is simulated with the firing times of the recoveries before it, in order. |
| Simulate.SimulateBaseline | internal/harness/simulate.go:83-98 | The loop computes the outcome of the fixed offsets. |
| Simulate.BestSlot | internal/harness/simulate.go:105-128 | The earliest among the most probable unblocked slots of the 168-hour grid; the due date when all are blocked. |
| Simulate.SearchIsBest | internal/harness/simulate.go:105-128 | The recursive search finds that slot. |
| Simulate.SimulateOracle | internal/harness/simulate.go:130-142 | The loop computes the outcome of firing every attempt at its best slot. |
| Domination.OracleDominatesSystem | internal/harness/simulate.go:41-142 | For every seed, hash, due date at midnight UTC and history, with balances that change at Indian midnight, the oracle recovers whatever the system does, with no more attempts. |
| Domination.OracleDominatesBaseline | internal/harness/simulate.go:83-142 | The same for the baseline. |
| Domination.OracleDominatesIff | internal/harness/simulate.go:105-142 | For every world, due date and preference, the oracle recovers whatever the system does under every hash if and only if for each attempt its slot is at least as probable as the system's. |
| Domination.OracleDominatesBaselineIff | internal/harness/baseline.go:7-16 | For every world the same of the baseline, if and only if the oracle's fourth slot is at least as probable as the baseline's, seven days after the due date. |
| Domination.OracleMissesEarlyMoney | internal/harness/simulate.go:105-128 | For every midnight due date there is a world in which the system beats the oracle under some hash. |
| Domination.SteadyWorldsAreSeen | internal/provider/world.go:81-99 | Midnight due dates and steady balances meet the exact condition. |
| Domination.SystemDays | internal/solve/solve.go:20-87 | The system's attempts fall on the Indian days D, D+1, D+3 and D+7. |
| Domination.SystemRecovery | internal/harness/simulate.go:59-62 | A recovery of the system is a success of that attempt at its own slot, which is the firing time the next cycles plan from. |
| Domination.GridCoversDay | internal/harness/simulate.go:100-128 | The oracle's grid has an unblocked slot on each of these days. |

## Left out

- The command line, colours, logging, environment parsing and migration tooling.
- HTTP, JSON and SQL encoding: each store transaction and each bank section is one atomic step.
- In the protocol any due or unresolved row may be claimed at any moment; only the store's own queries have limits and orderings, in code point order of ids.
- The polling loops of the scheduler and worker commands and `ProcessBatch`: their bodies may run at any moment, in any number.
- The outside adviser for unmapped failure codes: any class may come back.
- Fault injection: replaced by loss of a request or reply at any moment.
- Hashes and random identifiers: the request hash is its own preimage, draw hashes are arbitrary functions, new attempt ids are parameters.
- Floating point: probabilities and headroom are real numbers.
- `ResolveAttemptOutcome`: no production code calls it.
- Validation of rail, state and class strings and of zero times: enumerations and instants are typed, decision reasons are not part of the rows.
- The audit log, the history and statistics queries, the oracle endpoint, fixture loading and its sorting.
- The audit query for orphans and liveness in general: a worker that crashes between recording a failure and advancing leaves the cycle in flight.
- The audit query for debits fired in a blocked window: `FireOne` does not look at the window, so only planned slots are proved unblocked.
- Torn log lines: an append to the ledger file happens wholly or not at all.
- Fractions of a second in parsed text, and India's offsets before 1945; instants are unbounded integers of nanoseconds.
- Integer widths: fences, versions and amounts are unbounded.
- AtMostOneDebit: assumes that no mark hits an attempt with an outcome; the code allows such marks, and the module LateMarks says exactly which of them can lead to a second debit.
- OracleDominatesSystem: assumes balances that change at Indian midnight only, because the oracle does lose in other worlds; the exact condition is a theorem of its own.
