# Ratatoskr control plane: a verified model

This project models the control plane of Ratatoskr Platform as transactional tables that many
processes step through, and proves what every run keeps. A step is one committed transaction, one
rollback or crash, or one action of the message broker. Each statement or loop that changes rows in place
is a method of a class; each such method is proved against a function of the old state, and the theorems
are about runs of those functions, interleaved in any order.

| module | what it models |
|---|---|
| `Transition`, `Authority`, `Lifecycle`, `LifecycleTheorems`, `ReportTheorems`, `OperationStore` | the operation lifecycle: status transitions, report projection, the reaper, Edge-observed failures, cancellation |
| `Listing` | the keyset page over operations |
| `Outbox`, `OutboxOverlap`, `Pump` | the transactional outbox and concurrent pump passes: leases, backoff, dead letters, crashes, passes that outlive their lease |
| `Delivery`, `Consumer` | the broker, the inbox and the handler's transaction: at-least-once delivery, exactly-once effect |
| `Erasure` | erasing stream messages under retry |
| `Intake` | the idempotency ledger and the one transaction that accepts work |
| `Limiter` | the token-bucket limiter with eviction, and the concurrency bound |
| `Identity`, `IdentityStore`, `IdentityTheorems`, `IdentityCredentials` | pairing, device login, refresh rotation, revocation |
| `NatsText`, `NatsSplice`, `NatsProfile`, `NatsRender`, `NatsStanza`, `NatsRoundTrip` | scanning, parsing and rendering the NATS ACL |

`dafny verify dfyconfig.toml` checks the whole project.

## How the model reads the code

- Rows are values in maps keyed by their identity. A locked read and the write that depends on it are one
  step, except where the code does not hold the lock that would make them one: the reaper's selection, the
  pump's claim, publish and mark, and a rotation's read of the session are separate steps.
- CHECK constraints, unique indexes and the transition trigger of `schema.sql` are modelled where a write
  can meet them. A refused statement rolls its transaction back.
- Fresh identifiers and minted secrets are values no row carries yet. Digests are injective.
- Clocks are parameters. Where a theorem needs a clock not to go back, it says so.
- Instants are microseconds; the limiter's are nanoseconds. Tokens are counted in sixtieths.
- A text of the ACL is a sequence of bytes. Key generation is a parameter.
- Interference is explicit: methods that run beside other processes take what those commit between any two
  of their own statements.

## Where the code and its own documentation differ

- `crates/operations/src/reconcile.rs:8-12` says that a repeated report keeps an operation alive. It writes
  no progress entry, so it does not (`RepeatedReportsDoNotKeepAlive`).
- The comment on `expires_at` in `schema.sql` says that a key may be reused after its window. The unique
  index at `schema.sql:813` has no window, so the key is never free again (`KeyIsNeverFreeAgain`).
- `crates/eventing/src/inbox.rs:164-167` reads a non-zero gauge as handlers that crash after claiming. Such a
  crash rolls the row back, so the gauge is always zero (`LoopAccounts`).
- `crates/eventing/src/stream.rs:28-30` calls the broker's two minutes longer than the outbox backoff, which
  reaches five. Deduplication rests on the inbox, and the window of startup rule V17 alone is enough only
  without republication after processing (`RetentionAloneAllowsNoDelay`).
- `crates/eventing/src/outbox.rs:160-225` marks rows without asking who holds the claim. Published xor
  dead-lettered still holds, because a CHECK refuses the second mark; the backoff holds exactly while no row
  has two open holders that can both still fail it (`BackoffHolds`, `BackoffHoldsWithoutRivals`).
- The comment at `crates/public-api/src/intake.rs:219-220` says that nothing happened when the commit fails. A
  commit can take effect and its acknowledgement be lost; the retry with the same key then replays it
  (`AllOrNothing`, `RetriesReplay`).
- `list` in `crates/nats-profile/src/lib.rs:216-239` promises the quoted strings of a list. It ends the list at
  the first closing bracket, inside quotes or not (`ListRoundTrip`, `BracketCutsAnItem`).
- A listing that filters on a live status is followed page by page like any other
  (`crates/operations/src/list.rs:54-104`), and can miss rows that leave the filter (`CompleteFilters`).
- `crates/http/src/limit.rs:51-52` calls the refill continuous. It counts whole seconds and restarts the count
  at every decision, so an actor that asks more often than once a second gets none (`PollingStarves`,
  `PatientActorsAreServed`).
- `crates/operations/src/transition.rs:75-77` says that an unknown status is stale. The model has the seven
  known statuses.

## Assumptions worth knowing

- `Delivery` measures `maxAge` up to the insert that deduplicates, so it includes the time a fetched message
  waits inside the consumer. The equivalence is stated for `maxAge + delay` of at least the broker's
  two minutes, below which the broker stores no republication; the stream keeps events for seven days.
- In `Pump` and `Outbox`, passes are punctual when no claim reads a clock at or past the lease of a pass
  that is still open.
- In `LifecycleTheorems` the error rule (`failed` reports, and only they, carry an error) stands for the
  contract's own validation of a report, which is not part of this model.
- `OutboxOverlap` takes a message id to be minted once: no id is enqueued again after its row was collected.
- The republication delay of `Delivery` is a parameter: lease, backoff and attempts bound none
  (`RepublicationIsUnbounded`).
- A written ACL in `NatsRoundTrip` has subjects without quotes, brackets, colons and hashes, which the format
  gives a meaning to.
- In a page walk, what happens between two pages is that rows are added and statuses advance; every other
  column of a row is fixed at acceptance.

## Model

| member | source | states |
|---|---|---|
| `Transition.OnlyTerminalsConflict` | crates/operations/src/transition.rs:38-50 | The only conflict is two different terminal outcomes, and a conflict never moves the status. |
| `Transition.RunEndsHighest` | crates/operations/src/transition.rs:38-50 | Whatever arrives in whatever order, a run ends in a status that was seen and that no seen status outranks. |
| `Transition.HighestIsUnique` | crates/operations/src/transition.rs:66-81 | Among statuses whose terminals agree there is only one highest-ranked one. |
| `Transition.Convergence` | crates/operations/src/transition.rs:38-50 | Two runs that carry the same statuses, in any order and any number of times, end in the same status when the terminals agree. |
| `Transition.TerminalIsFinal` | crates/operations/src/transition.rs:38-56 | A terminal status survives every later run. |
| `Transition.FirstTerminalWins` | crates/operations/src/transition.rs:38-50 | When terminals disagree, the first to arrive stays forever and each different one after it is a conflict. |
| `Lifecycle.AdvanceKeeps` | crates/operations/src/lib.rs:350-389 | Writing an advance keeps the history sound: rank rises, instant does not fall, last entry and stored status agree, `terminated_at` is set exactly for a terminal. |
| `Lifecycle.RecordStatusKeeps` | crates/operations/src/lib.rs:316-390 | Every answer of `record_status` leaves a well-formed record; a refused one changes nothing. |
| `Lifecycle.AttachKeeps` | crates/operations/src/projection.rs:73-91 | Results, error and warnings of a report keep `retryable` equal to that of the latest error. |
| `Lifecycle.DeliverKeeps` | crates/operations/src/projection.rs:21-100 | A projected report, applied, repeated, outdated or rejected, keeps the record well-formed. |
| `Lifecycle.FailedKeeps` | crates/operations/src/reconcile.rs:119-164 | A failure recorded by the reaper or by Edge commits its status and its error together and keeps the record well-formed. |
| `Lifecycle.StepKeeps` | crates/operations/src/projection.rs:21-100 | Every writer, reports, reaper, archive failure, notes failure and cancellation, keeps a record well-formed. |
| `Lifecycle.RunKeeps` | crates/operations/src/lib.rs:316-390 | Well-formedness over every run of all writers. |
| `LifecycleTheorems.History` | crates/operations/src/lib.rs:339-389 | In every reachable state the entries have strictly rising rank, at most three; the last one's status and instant are the stored ones; `terminated_at` is set exactly for terminals and is that entry's instant; the reaper's liveness instant is `status_changed_at`; `retryable` is that of the latest error, false without one. |
| `LifecycleTheorems.SoundMeans` | crates/operations/src/lib.rs:339-389 | What the inductive history invariant says about any two entries. |
| `LifecycleTheorems.FinishedStaysFinished` | crates/operations/src/transition.rs:38-56 | A finished operation keeps status, stage, percent, end instant and history over every run; only results, diagnostics and `retryable` can still change. |
| `LifecycleTheorems.RepeatedReportStillWrites` | crates/operations/src/projection.rs:48-91 | A repeated or outdated report writes no progress entry and still appends its results, error and warnings. |
| `LifecycleTheorems.MarkerIsWrittenOnce` | crates/operations/src/cancel.rs:52-99 | The cancellation marker is written at most once, only while live, and nothing else is written with it. |
| `LifecycleTheorems.ReportsSettle` | crates/operations/src/projection.rs:37-71 | Applying reports folds exactly their statuses, whatever else they carry. |
| `LifecycleTheorems.ReportsConverge` | crates/operations/src/projection.rs:37-71 | Two runs of reports with the same statuses, permuted and duplicated, end the operation in the same status when terminals agree. |
| `LifecycleTheorems.WritersSettle` | crates/operations/src/lib.rs:316-390 | Reports, Edge failures, the reaper and cancellation, interleaved, fold exactly the statuses they bring to the row they lock. |
| `LifecycleTheorems.WritersConverge` | crates/operations/src/lib.rs:316-390 | Two interleavings of all writers, on clocks that do not go back, that bring the same statuses end the operation in the same status, the highest-ranked one, when terminals agree. |
| `LifecycleTheorems.DifferentTerminalWritesNothing` | crates/operations/src/lib.rs:341-349 | After a terminal, every writer that brings a different terminal is refused without any write. |
| `LifecycleTheorems.DiagnosticsStep` | crates/operations/src/projection.rs:82-91 | One event of any writer keeps `error rows exist iff failed`, under the rule that a report carries an error exactly when it is failed. |
| `LifecycleTheorems.DiagnosticsMatchStatus` | crates/operations/src/lib.rs:523-538 | Over every interleaving of all writers, an operation has error rows if and only if it is failed, when exactly the failed reports carry an error. |
| `LifecycleTheorems.ErrorRuleIsNecessary` | crates/operations/src/projection.rs:82-86 | The rule on reports is exact: one applied report that breaks it breaks the match. |
| `LifecycleTheorems.ReaperEndsOnlySilentOperations` | crates/operations/src/reconcile.rs:95-164 | Under the lock the reaper ends an operation exactly when it is live and has no fact at or after the cutoff; its inner transition is then an advance to failed and the stale error commits with it. |
| `LifecycleTheorems.HistoryOnlyGrows` | crates/operations/src/lib.rs:368-386 | No event removes or rewrites a progress entry, a status change adds one, and entries added by events at or after an instant are dated at or after it. |
| `LifecycleTheorems.FreshFactWins` | crates/operations/src/reconcile.rs:106-134 | Whatever commits between the unlocked selection and the lock, if it moved the status at or after the cutoff the reaper leaves the operation as it found it. |
| `LifecycleTheorems.RepeatsDoNotMoveLiveness` | crates/operations/src/reconcile.rs:106-117 | Reports that repeat or lag behind the status leave the liveness instant where it was. |
| `LifecycleTheorems.RepeatedReportsDoNotKeepAlive` | crates/operations/src/reconcile.rs:8-12 | A worker that only repeats its status is still ended at the cutoff, against what the module comment says. |
| `LifecycleTheorems.ReportAuthority` | crates/operations/src/authority.rs:102-150 | For a listed kind every entry a report wrote came from the one recorded reporter, with the owner's tenant, and that reporter is allowed; without a recorded reporter only Platform's own writers can end the operation. Archive operations are in `ReportTheorems.ArchiveAuthority`. |
| `ReportTheorems.StatusesAdvance` | crates/operations/src/transition.rs:38-81 | A status advances exactly along accepted, queued, running and one of four ends, is stale the other way, and two ends conflict. |
| `ReportTheorems.ReportersServe` | crates/operations/src/authority.rs:38-105 | Which service may be recorded as the reporter of which kind of operation, and no other. |
| `ReportTheorems.BoundMeans` | crates/operations/src/projection.rs:102-165 | A report may be applied exactly when its tenant is the owner, or is missing on an archive Platform accepted for that owner, and it comes from the recorded reporter or from the accepted provider's service on its own subject, and from outside the archive subjects when there is no acceptance. |
| `ReportTheorems.ReportMovesExactly` | crates/operations/src/projection.rs:21-100 | A readable report moves the operation exactly when it fits, its status is further along and its clock has not gone back; then status, instant and the appended entry are the report's. |
| `ReportTheorems.ReportsAreRecordedAs` | crates/operations/src/projection.rs:43-100 | What the inbox records of a report that fits: applied, repeated, outdated or rejected; its delivery is rolled back exactly when it would advance on a clock gone back. |
| `ReportTheorems.StrangersAreRejected` | crates/operations/src/projection.rs:30-41 | A report that cannot be read or does not fit its operation changes nothing and is rejected. |
| `ReportTheorems.ArchiveAuthority` | crates/operations/src/authority.rs:120-150 | Over every run, what reports wrote on an archive operation came for its owner, by name or through the acceptance of that owner's upload, and from the accepted provider's service if there is one. |
| `ReportTheorems.NothingSaidIsLost` | crates/operations/src/projection.rs:73-91 | Over every run the results are those of the reports that were heard, and the diagnostics theirs, Edge's and the reaper's, in the order they committed: none lost, reordered or invented. |
| `ReportTheorems.EdgeEndsLiveOperations` | crates/operations/src/archive.rs:118-151 | Edge ends an operation exactly while it is live, with the stage, message and error it gives, and is refused by another end or a clock gone back. |
| `ReportTheorems.CancellationAnswers` | crates/operations/src/cancel.rs:52-99 | Which of the four answers a cancellation gets, and that only a first request of a live operation writes. |
| `OperationStore.Store.Accept` | crates/operations/src/lib.rs:175-228 | Accepting writes one new record in `accepted`, and is refused exactly when the reporter is not allowed for the kind. |
| `OperationStore.Store.RecordStatus` | crates/operations/src/lib.rs:316-390 | The locked read-and-write equals the record-level transition; an error leaves the tables unchanged. |
| `OperationStore.Store.Advance` | crates/operations/src/lib.rs:350-386 | The row update and the progress insert of an advance, together. |
| `OperationStore.Store.RecordResult` | crates/operations/src/lib.rs:488-515 | Appends one result row and touches nothing else. |
| `OperationStore.Store.RecordError` | crates/operations/src/lib.rs:523-538 | Sets `retryable` and appends the error row. |
| `OperationStore.Store.RecordWarning` | crates/operations/src/lib.rs:545-579 | Appends one warning row, leaving `retryable` alone. |
| `OperationStore.Store.AttachReport` | crates/operations/src/projection.rs:73-91 | The loops over results and warnings and the error write amount to one attachment of the report. |
| `OperationStore.Store.Handle` | crates/operations/src/projection.rs:21-100 | The projection's handler writes exactly the projection of the message on the named record, or nothing. |
| `OperationStore.Store.FailFromEdge` | crates/operations/src/archive.rs:118-151 | An Edge-observed failure writes status and error together, only if it advances; a conflicting outcome rolls back. |
| `OperationStore.Store.ReconcileOne` | crates/operations/src/reconcile.rs:95-164 | The reaper's locked re-check and its two writes equal the record-level reap. |
| `OperationStore.Store.RequestCancellation` | crates/operations/src/cancel.rs:52-99 | The locked three-way classification, with the marker written in one branch only. |
| `OperationStore.Store.Commit` | crates/operations/src/projection.rs:21-100 | Any writer's transaction equals one event on the record it names. |
| `OperationStore.Store.RunOnce` | crates/operations/src/reconcile.rs:51-92 | One pass equals visiting each candidate after the interleaved writers; the report counts each candidate once, as ended or skipped, at most `batch` in all, or the first refused statement abandons the pass. |
| `OperationStore.Counts` | crates/operations/src/reconcile.rs:36-48 | What is counted as reconciled and as skipped adds up to what was visited. |
| `OperationStore.CompletePass` | crates/operations/src/reconcile.rs:51-92 | A pass counts each candidate it visited once, and a pass that is not abandoned visits them all. |
| `OperationStore.PassEndsOnlySilent` | crates/operations/src/reconcile.rs:51-164 | Over a whole pass with other writers between selection and locks: a pass whose clock is not behind its cutoff is never refused, ends exactly the candidates that are stale in the state it locks, and counts each candidate once. |
| `OperationStore.StaleIsOld` | crates/operations/src/reconcile.rs:106-131 | What is stale under the lock changed its status before the cutoff, and failing it is an advance. |
| `OperationStore.SelectionTakesTheOldest` | crates/operations/src/reconcile.rs:51-77 | A pass takes at most `batch` silent operations in the order of their last status change, and leaves one out only for older ones that fill the batch. |
| `Limiter.ActorLimiter.constructor` | crates/http/src/limit.rs:68-79 | The rate is at least one and no actor is tracked. |
| `Limiter.ActorLimiter.Reclaim` | crates/http/src/limit.rs:110-113 | Keeps exactly the buckets that have not refilled. |
| `Limiter.ActorLimiter.Decide` | crates/http/src/limit.rs:101-131 | The decision and the new bucket map equal the bounded specification; the map never exceeds its cap and no bucket is overdrawn or overfull. |
| `Limiter.TokensStayWithinBurst` | crates/http/src/limit.rs:101-141 | Over every run, on clocks that may go back, every bucket holds between 0 and `per_minute` tokens and the map stays within its cap. |
| `Limiter.StepMirrors` | crates/http/src/limit.rs:101-131 | One decision keeps the bounded map equal to the unbounded one except for forgotten buckets that are full. |
| `Limiter.EvictionIsInvisible` | crates/http/src/limit.rs:101-131 | With a clock that does not go back, every decision of every run equals that of a limiter that never forgets and treats a saturation refusal as a no-op. |
| `Limiter.SpendPays` | crates/http/src/limit.rs:118-141 | What one decision takes from a bucket is covered by its tokens and refill. |
| `Limiter.TrackedPays` | crates/http/src/limit.rs:118-141 | All later admissions of a tracked actor are covered by its tokens and its refills. |
| `Limiter.UnboundedRate` | crates/http/src/limit.rs:101-141 | The rate bound for the limiter that never forgets. |
| `Limiter.RateBound` | crates/http/src/limit.rs:101-141 | One actor's admissions between two instants, evictions included, are at most `per_minute` plus `per_minute / 60` for each whole second between them. |
| `Limiter.BurstSpendsTheBucket` | crates/http/src/limit.rs:118-131 | A bucket of k tokens admits exactly k requests at one instant and then refuses. |
| `Limiter.RefillExactly` | crates/http/src/limit.rs:133-141 | After k whole seconds a bucket holds k sixtieths of the rate more, up to the burst. |
| `Limiter.FullAfterAMinute` | crates/http/src/limit.rs:133-141 | Whatever was spent, sixty seconds of silence give the whole burst back. |
| `Limiter.DecidesExactly` | crates/http/src/limit.rs:101-131 | A tracked actor is admitted exactly when its bucket holds a token; a new one exactly when there is room, or a full bucket to forget. |
| `Limiter.PatientActorsAreServed` | crates/http/src/limit.rs:101-141 | An actor that leaves a token's worth of whole seconds between its requests is never refused, whatever other tracked actors do. |
| `Limiter.PollingStarves` | crates/http/src/limit.rs:101-141 | An actor that asks again before a second has passed gets what its bucket holds and then nothing, however long it goes on asking. |
| `Limiter.NeverMoreThanTheLimit` | crates/http/src/limit.rs:178-198 | However requests arrive and end, at most `limit` are served at once and the counter is the number of guards alive. |
| `Limiter.ServedExactly` | crates/http/src/limit.rs:178-198 | A request is served exactly when fewer than `limit` others hold a guard, and its end gives the guard back. |
| `Listing.Ordered` | crates/operations/src/list.rs:54-104 | The ordered answer of the statement exists for every set of rows. |
| `Listing.OrderedIsUnique` | crates/operations/src/list.rs:54-104 | And it is unique. |
| `Listing.ListOperations` | crates/operations/src/list.rs:54-104 | A page is the first `limit` matching rows below the anchor, newest first, and `has_more` holds exactly when a matching row lies beyond it. |
| `Listing.WalkDescends` | crates/operations/src/list.rs:54-104 | What a walk yields is strictly descending and below its anchor. |
| `Listing.WalkYieldsOnlyItsScope` | crates/operations/src/list.rs:54-104 | Every row a walk yields is the owner's, of the kind and below the anchor asked for, with the status asked for on the page that showed it; the whole walk is newest first. |
| `Listing.WalkFindsRow` | crates/operations/src/list.rs:54-104 | A row present and selected at the first page is yielded by a walk followed to its end. |
| `Listing.WalkIsExact` | crates/operations/src/list.rs:54-104 | While operations are inserted and statuses move between pages, a finished walk on immutable filters yields no row twice and every row that was present at the first page exactly once. |
| `Listing.StatusFilterCanMissARow` | crates/operations/src/list.rs:54-104 | For every scope that filters on a status that can still change, and every limit, some walk over rows that only advance misses a row its first page selects. |
| `Listing.MovesAreSettlements` | crates/operations/src/transition.rs:38-50 | What one page's table and the next may differ by is what a run of reports can settle: a status stays or is advanced. |
| `Listing.CompleteFilters` | crates/operations/src/list.rs:54-104 | However rows are inserted and statuses advance under it, a finished walk yields every row selected at its first page if and only if the scope filters on no status or on a terminal one. |
| `Intake.Transaction.Decide` | crates/idempotency/src/lib.rs:175-267 | Deletes the scope's expired row, then inserts a fresh reservation or reports what the live row answers. |
| `Intake.Transaction.Accept` | crates/operations/src/lib.rs:175-228 | Inserts the operation unless the reporter is not allowed or the unique key of owner, kind and key is taken. |
| `Intake.Transaction.Enqueue` | crates/eventing/src/outbox.rs:67-95 | Inserts the command once per message id. |
| `Intake.Transaction.Complete` | crates/idempotency/src/lib.rs:276-300 | Completes exactly the rows with that record id. |
| `Intake.Transaction.AcceptAndEnqueue` | crates/public-api/src/intake.rs:150-190 | Accepts the operation, then its command and its site edit, or fails at the statement that does. |
| `Intake.Transaction.Work` | crates/public-api/src/intake.rs:150-226 | Everything between the reservation and the commit writes all five tables or answers a failure. |
| `Intake.Database.Admit` | crates/public-api/src/intake.rs:106-226 | The transaction, failing at any statement or committing unheard, commits the specified effect and answers accordingly. |
| `Intake.Database.CollectExpired` | crates/idempotency/src/lib.rs:309-322 | Removes exactly the expired reservations. |
| `Intake.WritesKeepWhole` | crates/public-api/src/intake.rs:150-226 | A new acceptance leaves every operation with exactly its own command, audit record and site edit. |
| `Intake.WritesKeepKeys` | schema.sql:813-816 | A new acceptance keeps one operation per owner, kind and key. |
| `Intake.StepKeeps` | crates/public-api/src/intake.rs:106-226 | Each admission or collection keeps the store consistent. |
| `Intake.RunKeeps` | crates/public-api/src/intake.rs:106-226 | Consistency over every run. |
| `Intake.IntakeIsAtomic` | crates/public-api/src/intake.rs:106-226 | For every interleaving of admissions that commit, fail at any statement, crash or commit unheard, and of collection: every operation has exactly the writes that commit with it, one operation exists per owner, kind and key, every ledger row is completed, and `InFlight` is never answered. |
| `Intake.AllOrNothing` | crates/public-api/src/intake.rs:106-226 | One admission writes the operation with its completed ledger row, command, audit and edit, or leaves the database as it was; its answer says which, except that a commit whose acknowledgement was lost is answered as a failure. |
| `Intake.RowStays` | crates/idempotency/src/lib.rs:309-322 | A reservation survives everything dated before its expiry. |
| `Intake.RetriesReplay` | crates/idempotency/src/lib.rs:175-270 | Inside the window of an admission that wrote, told or not, after any run: the same body replays the operation it minted, another body conflicts, and neither writes. |
| `Intake.OperationsStay` | crates/public-api/src/intake.rs:106-226 | No admission or collection removes or changes an accepted operation. |
| `Intake.TakenKeyIsAnswered` | crates/idempotency/src/lib.rs:175-270 | Exactly which answer a request gets whose key already has an operation. |
| `Intake.KeyIsNeverFreeAgain` | schema.sql:813-816 | A key is never free again: after its reservation expired, or on another route, a request with it is refused and mints nothing. |
| `Intake.NewOperationsExactly` | crates/public-api/src/intake.rs:106-226 | In every reachable database a request mints a new operation exactly when its key is new for its owner and kind, its reporter is allowed, its preparation does not refuse, the window is positive and nothing fails; then it is stored as requested, with or without a command or a site edit. |
| `Intake.RefusalsOfNewKeys` | crates/public-api/src/intake.rs:106-226 | A request with a new key is told its own preparation's refusal if that is all that stands against it and a timeout otherwise, and nothing is written. |
| `Intake.CollectedExactly` | crates/idempotency/src/lib.rs:309-322 | Collection takes exactly the reservations whose window has closed. |
| `Outbox.BackoffIsBoundedDoubling` | crates/eventing/src/outbox.rs:201-211 | The delay after the n-th failure is the smaller of 300 s and 2^(n-1) s; the cap of 20 on the exponent is never visible. |
| `Outbox.StepKeeps` | crates/eventing/src/outbox.rs:67-297 | Every statement keeps: published xor dead-lettered, dead exactly at twelve failures, published implies stored, every enqueued message accounted for. |
| `Outbox.RunKeeps` | crates/eventing/src/outbox.rs:67-297 | The same over every run. |
| `Outbox.Conservation` | crates/eventing/src/outbox.rs:67-297 | For every interleaving of passes on any clocks, crashes and collection, an enqueued message's row is exactly one of pending, published and dead-lettered, or was collected; a published or collected message is in the stream. |
| `Outbox.DeadLettersStay` | crates/eventing/src/outbox.rs:263-297 | A dead-lettered row is never removed, never published and never claimed again. |
| `Outbox.PublishedStays` | crates/eventing/src/outbox.rs:107-132 | A published row stays published until collected and is never claimed before that. |
| `Outbox.StepKeepsExclusive` | crates/eventing/src/outbox.rs:107-132 | Among punctual passes an unsettled row is leased to one open pass alone. |
| `Outbox.MarkKeepsLog` | crates/eventing/src/outbox.rs:191-225 | One mark keeps attempts, backoff and dead letter in step with the row's failures. |
| `Outbox.RunKeepsLogs` | crates/eventing/src/outbox.rs:191-225 | The same over every punctual run. |
| `Outbox.TwelveFailures` | crates/eventing/src/outbox.rs:16-23 | Twelve spaced failures take at least 1111 seconds. |
| `Outbox.BackoffHolds` | crates/eventing/src/outbox.rs:107-225 | When passes finish inside their lease: no two hold one row, attempts count the failures, the n-th failure delays the next attempt by min(300, 2^(n-1)) s, and the row is dead-lettered at exactly its twelfth failure, at least 1111 s after its first. |
| `Outbox.RunKeepsCalm` | crates/eventing/src/outbox.rs:107-225 | No instant a row waits for is more than 300 s after the last clock read. |
| `Outbox.PendingRowsComeBack` | crates/eventing/src/outbox.rs:107-132 | Wherever passes crashed, a pending row can be claimed exactly from the later of its backoff and its lease, which is within 300 s of the last clock read. |
| `Outbox.NewRowIsDue` | crates/eventing/src/outbox.rs:67-95 | A new row is due at once. |
| `Outbox.ClaimLeasesTheOldest` | crates/eventing/src/outbox.rs:107-132 | A claim leases due, unlocked rows for thirty seconds to its holder and no others; one it leaves due waits behind every row it took. |
| `Outbox.FailureGivesUpTheClaim` | crates/eventing/src/outbox.rs:191-225 | A publication that fails gives its claim up: the row is due exactly from its backoff on, and never after the twelfth failure. |
| `Outbox.WaitsExactlyItsBackoff` | crates/eventing/src/outbox.rs:107-225 | Over punctual runs a row that failed and that nobody claimed since is due exactly from its delay after that failure, whatever else happened. |
| `Outbox.AttemptIsMarked` | crates/eventing/src/pump.rs:62-97 | An acknowledged publication is stored and its row published and never due again; a lost acknowledgement stores the message and counts as a failure. |
| `Outbox.RefusedExactly` | crates/eventing/src/outbox.rs:160-225 | A mark is refused exactly when it would leave a row both published and dead-lettered, or published before it was enqueued, and then writes nothing. |
| `Outbox.CollectTakesOldPublished` | crates/eventing/src/outbox.rs:275-297 | Collection removes chosen rows published before its horizon and changes no other. |
| `OutboxOverlap.StepKeepsWaiting` | crates/eventing/src/outbox.rs:107-225 | Claims, publications, crashes, collection and marks of rows nobody else holds keep every held row pending, due to its holder and leased at least as long as that holder. |
| `OutboxOverlap.UnsharedRunsWait` | crates/eventing/src/outbox.rs:107-225 | The same over every run, however late and overlapping its claims, until a row is marked that another open pass still holds. |
| `OutboxOverlap.ClaimKeepsGuarded` | crates/eventing/src/outbox.rs:107-132 | A punctual claim gives no row a second pass that may fail it. |
| `OutboxOverlap.MarkKeepsGuarded` | crates/eventing/src/outbox.rs:160-225 | A mark by the only pass that may fail the row keeps its failures spaced. |
| `OutboxOverlap.GuardedRunsStaySpaced` | crates/eventing/src/outbox.rs:107-225 | Without two such passes on one row, every steady continuation keeps every row's failures spaced by their backoff. |
| `OutboxOverlap.BothFail` | crates/eventing/src/outbox.rs:191-225 | Two passes that fail one row, the later clock first, leave failures closer together than the backoff, whatever the attempts so far. |
| `OutboxOverlap.RivalsBreakBackoff` | crates/eventing/src/outbox.rs:160-225 | From every state with two open passes that can both still fail a row, whatever else they are in the middle of, a steady continuation breaks the backoff. |
| `OutboxOverlap.BackoffHoldsWithoutRivals` | crates/eventing/src/outbox.rs:107-225 | Until a shared row is marked: every steady continuation keeps all failures spaced if and only if no row is held by two open passes that can both still fail it. |
| `OutboxOverlap.BackoffAfterOverlap` | crates/eventing/src/outbox.rs:107-225 | The same equivalence after every run from the start that marks no shared row. |
| `OutboxOverlap.OverlapIsReachable` | crates/eventing/src/outbox.rs:107-132 | Two such passes are reached as soon as a pass is open when its lease lapses: the run and the state it ends in. |
| `OutboxOverlap.BackoffBreaks` | crates/eventing/src/outbox.rs:160-225 | A run from the start whose failures are marked at `now` and then at 0, so the backoff is broken. |
| `OutboxOverlap.RepublicationIsUnbounded` | crates/eventing/src/pump.rs:62-97 | Lease, backoff and attempts bound no republication delay: passes that claim the row the instant they may and die before the mark publish it again k leases later, for every k, with no attempt counted. |
| `Pump.Deployment.EnqueueMessage` | crates/eventing/src/outbox.rs:67-95 | Inserts a message once, reporting whether it did. |
| `Pump.Deployment.ClaimDue` | crates/eventing/src/outbox.rs:107-153 | Leases exactly the selected rows, which are then due to nobody until the lease ends. |
| `Pump.Deployment.MarkPublished` | crates/eventing/src/outbox.rs:160-179 | Publishes the row, whoever holds its claim, unless a CHECK refuses. |
| `Pump.Deployment.MarkFailed` | crates/eventing/src/outbox.rs:191-225 | Counts the failure, gives the claim up, backs off or dead-letters, whoever holds the claim, unless a CHECK refuses. |
| `Pump.Deployment.CollectPublished` | crates/eventing/src/outbox.rs:275-297 | Removes the selected published rows; no pending row goes. |
| `Pump.Deployment.TakeTurn` | crates/eventing/src/pump.rs:62-97 | One row's publication and mark, with other writers and a crash anywhere between. |
| `Pump.Deployment.TakeTurns` | crates/eventing/src/pump.rs:62-97 | All claimed rows in turn. |
| `Pump.Deployment.RunOnce` | crates/eventing/src/pump.rs:46-100 | A finished pass attempts every claimed row whatever failed before it and counts each once; among punctual passes no mark is refused and the dead letters counted are exactly the twelfth failures of the rows as claimed. |
| `Pump.HeldRowsAreUntouched` | crates/eventing/src/pump.rs:46-100 | Inside its lease nobody else writes the rows a pass still has to settle. |
| `Pump.TurnRows` | crates/eventing/src/pump.rs:62-97 | A turn settles its row from what was claimed and leaves the pass's other rows alone. |
| `Delivery.OpensOnlyUnprocessed` | crates/eventing/src/consumer.rs:68-106 | With a large enough window, a copy that opens a transaction is one of a message never processed. |
| `Delivery.CommitKeeps` | crates/eventing/src/consumer.rs:94-101 | A commit gives its message its first effect and its inbox row together. |
| `Delivery.CollectKeeps` | crates/eventing/src/inbox.rs:140-162 | Collection keeps the account of processed messages. |
| `Delivery.RunKeeps` | crates/eventing/src/consumer.rs:68-106 | The account over every run. |
| `Delivery.AtMostOneEffect` | crates/eventing/src/consumer.rs:68-106 | If the inbox window is at least stream age plus republication delay, every message has at most one effect over every run of republications, duplicates, rollbacks, expiry and collection, and its row is there from the effect on until its window has passed. |
| `Delivery.TwoEffectsHappen` | crates/eventing/src/stream.rs:26-34 | With a smaller window a crash between publish and mark leads to two effects: the run, for all such windows. |
| `Delivery.ExactlyOnceNeedsTheWindow` | crates/eventing/src/inbox.rs:122-162 | Exactly-once holds over all runs if and only if the window is at least stream age plus republication delay. |
| `Delivery.RetentionAloneAllowsNoDelay` | crates/core/src/config/validate.rs:498-520 | The window the startup rule asks for is enough exactly when nothing is republished after it was first processed. |
| `Delivery.RepeatsCollapse` | crates/eventing/src/stream.rs:26-34 | A publication repeated within two minutes adds no copy, one repeated at their end or later adds one. |
| `Delivery.CopiesChange` | crates/eventing/src/stream.rs:26-34 | Only publication adds a copy and only retention takes one. |
| `Delivery.DeliveredOnce` | crates/eventing/src/consumer.rs:68-106 | A fresh, unheld, unprocessed copy is processed when its transaction commits: one effect and one row. |
| `Consumer.Transaction.Begin` | crates/eventing/src/inbox.rs:66-94 | The insert is the deduplication: first exactly when no row was there. |
| `Consumer.Transaction.Finish` | crates/eventing/src/inbox.rs:101-120 | Finishes exactly that message's row. |
| `Consumer.Database.Deliver` | crates/eventing/src/consumer.rs:68-106 | Record, handler's writes and outcome commit together or not at all, at whichever statement it fails; `settled` hears of a commit only after one. |
| `Consumer.Database.CollectProcessed` | crates/eventing/src/inbox.rs:140-162 | Removes the selected processed rows; no unprocessed one goes. |
| `Consumer.Database.Unprocessed` | crates/eventing/src/inbox.rs:172-185 | The number of rows without an instant of processing. |
| `Consumer.Database.RunLoop` | crates/eventing/src/consumer.rs:201-249 | The loop equals folding the arrivals: counters and answers to the broker. |
| `Consumer.RowCommitsWithWork` | crates/eventing/src/consumer.rs:94-101 | A row appears exactly when its work commits, finished, with the handler's outcome. |
| `Consumer.LoopAccounts` | crates/eventing/src/consumer.rs:198-263 | Every arrival is counted and answered once; committed work is what was applied plus commits whose acknowledgement was lost; no work commits twice; no committed row is unfinished, so the gauge stays at zero. |
| `Consumer.AcknowledgedIsRecorded` | crates/eventing/src/consumer.rs:213-247 | A readable message is acknowledged iff its delivery succeeded, and then its finished row is there; one whose producer does not fit the column is never acknowledged. |
| `Consumer.EveryArrivalIsAnswered` | crates/eventing/src/consumer.rs:201-249 | For every run: an unreadable message is acknowledged, a transport error is not answered, what is read is negatively acknowledged exactly when it was lost, and each counter is the number of arrivals with that fate. |
| `Consumer.RecordedAsDelivered` | crates/eventing/src/inbox.rs:66-120 | The row of a message is for good what its one committed delivery was: subject, producer, instants and outcome. |
| `Consumer.FirstDeliveryCommits` | crates/eventing/src/consumer.rs:68-106 | A first delivery commits exactly when its handler decides and no statement fails, says so only when the commit was heard, and names the handler exactly when it failed. |
| `Erasure.Broker.DisposeOne` | crates/eventing/src/stream_erasure.rs:68-97 | Missing, refused, erased or failed, with the message removed only when owned, even if the delete looked failed. |
| `Erasure.Broker.HandleCommand` | crates/eventing/src/stream_erasure.rs:178-260 | A rejected command reads and deletes nothing; another visits its sequences in order until one fails; when the stream is not found nothing is deleted, and when the audit rows cannot be written the deletions stay and the attempt fails. |
| `Erasure.DisposeKeepsSince` | crates/eventing/src/stream_erasure.rs:68-97 | One visit removes nothing but an owned message it was asked for, and afterwards that one is gone. |
| `Erasure.HandleKeepsSince` | crates/eventing/src/stream_erasure.rs:197-200 | An attempt that goes through leaves no targeted message and counts every sequence once. |
| `Erasure.AttemptsKeepSince` | crates/eventing/src/stream_erasure.rs:178-211 | Failed attempts, redelivered, remove nothing else either. |
| `Erasure.ErasureIsExact` | crates/eventing/src/stream_erasure.rs:68-211 | After any number of attempts that failed part way and one that went through: each original message is gone iff it was named and owned, or was expired by the broker; what else is stored was appended since; no tombstone was erased; the counts add up to the named sequences. |
| `Erasure.ReachesOnlyItsOwn` | crates/eventing/src/stream_erasure.rs:140-174 | A command reaches only its sender's own content facts, of the tenant it names, and only from the two importers. |
| `Erasure.ContentIsErasedExactly` | crates/eventing/src/stream_erasure.rs:43-51 | After any failed attempts and one that went through, a named message of the requester for its owner on any of the seven content subjects is gone, and any other is as it was or expired. |
| `Erasure.HonouredExactly` | crates/eventing/src/stream_erasure.rs:137-160 | A command is honoured exactly when an archive importer sent it on its own behalf, for one owner, on its subject and as its contract says. |
| `Erasure.AnswersOfAVisit` | crates/eventing/src/stream_erasure.rs:68-97 | What erased, missing and refused say of the message, and what a failure leaves. |
| `Erasure.QuietCounts` | crates/eventing/src/stream_erasure.rs:108-124 | Without interference the counts are those of the stream the attempt found; a sequence named twice or already erased counts as missing. |
| `Erasure.UnrecordedErasuresAreCountedMissing` | crates/eventing/src/stream_erasure.rs:197-201 | When an attempt erased everything and only its audit rows could not be written, the redelivery that records them counts nothing as erased. |
| `IdentityStore.Transaction.Supersede` | crates/identity/src/pairing.rs:114-123 | Sets exactly the owner's pending codes aside. |
| `IdentityStore.Transaction.RefusesKind` | crates/identity/src/pairing.rs:349-380 | Refuses a kind the code does not pin, and a site deployer on a code that pins none; a mismatch is counted inside the transaction. |
| `IdentityStore.Transaction.RegisterSiteDevice` | crates/identity/src/device.rs:133-169 | Inserts the device unless its kind and site break the table's rule. |
| `IdentityStore.Transaction.ConsumeCode` | crates/identity/src/pairing.rs:289-310 | Consumes the code only while it is pending. |
| `IdentityStore.Transaction.OpenDeviceSession` | crates/identity/src/session.rs:204-241 | A device session and the first link of its chain. |
| `IdentityStore.Transaction.SpendLink` | crates/identity/src/refresh.rs:293-318 | Issues the successor and spends the link. |
| `IdentityStore.Transaction.SwapCredential` | crates/identity/src/refresh.rs:320-337 | Moves credential and expiry only of a session not revoked. |
| `IdentityStore.Transaction.RevokeSessions` | crates/identity/src/session.rs:394-413 | Revokes exactly the matching live sessions and counts them, or is refused as a whole. |
| `IdentityStore.Transaction.RevokeOne` | crates/identity/src/session.rs:366-385 | Revokes once and keeps the first instant. |
| `IdentityStore.Store.CreatePairingCode` | crates/identity/src/pairing.rs:101-158 | Supersedes and inserts in one transaction. |
| `IdentityStore.Store.Pair` | crates/identity/src/pairing.rs:245-341 | The whole grant or nothing; a refusal drops the transaction with all it wrote. |
| `IdentityStore.Store.OpenDeviceSession` | crates/public-api/src/credentials.rs:86-198 | Grants a session exactly to an unrevoked device with its secret. |
| `IdentityStore.Store.LockLink` | crates/identity/src/refresh.rs:243-291 | What presenting a link decides, in the order of the checks. |
| `IdentityStore.Store.FinishRotation` | crates/identity/src/refresh.rs:276-349 | A full rotation or a burn commits, with a credential no session had; every other end drops the transaction, and a revocation that came between is told apart. |
| `IdentityStore.Store.RevokeSessionById` | crates/identity/src/session.rs:358-385 | Revokes a live session once, reporting whether it did, and keeps the first instant. |
| `IdentityStore.Store.RevokeAllOfUser` | crates/identity/src/session.rs:394-413 | Afterwards the user has no unrevoked session; counts the sessions it revoked. |
| `IdentityStore.Store.DeleteDevice` | crates/public-api/src/devices.rs:479-588 | Revokes the caller's own device and every session bound to it, together. |
| `IdentityTheorems.StepKeepsBound` | crates/identity/src/device.rs:260-287 | Every step keeps an unrevoked device session on an unrevoked device of its user. |
| `IdentityTheorems.StepKeepsPending` | crates/identity/src/pairing.rs:101-158 | Every step keeps at most one pending code per user. |
| `IdentityTheorems.StepKeepsGranted` | crates/identity/src/pairing.rs:245-341 | Every step keeps devices and consumed codes naming each other. |
| `IdentityTheorems.ChainGrows` | crates/identity/src/refresh.rs:293-318 | A rotation extends the session's chain at its end. |
| `IdentityTheorems.StepKeepsChains` | crates/identity/src/refresh.rs:234-349 | Every step keeps each session's links one chain. |
| `IdentityTheorems.StepKeepsRotations` | crates/identity/src/refresh.rs:244-255 | An open rotation holds its link alone and finds it as it read it. |
| `IdentityTheorems.RunKeeps` | crates/identity/src/refresh.rs:234-349 | All invariants over every run. |
| `IdentityTheorems.DeviceCascade` | crates/identity/src/device.rs:252-351 | For every interleaving of pairing, login, rotation and revocation, on any clocks, an unrevoked device session has an unrevoked device of the same user. |
| `IdentityTheorems.PairingGrants` | crates/identity/src/pairing.rs:88-341 | A user has at most one pending code; a device was granted by one code, belongs to its creator, has its site and a kind it does not refuse; a code grants at most one device. |
| `IdentityTheorems.RedeemingNeverBreaksTheSiteRule` | crates/identity/src/pairing.rs:349-380 | Redeeming never meets the device table's rule on sites. |
| `IdentityTheorems.RefreshChains` | crates/identity/src/refresh.rs:234-349 | In every reachable state a device session's links form one chain whose only unspent link is the last and outlives the session's own expiry. |
| `IdentityTheorems.RunGrows` | crates/identity/src/session.rs:358-385 | No run undoes a revocation, respends a link or moves a session to another device. |
| `IdentityTheorems.RevokedDeviceHasNoSession` | crates/identity/src/device.rs:252-287 | Once a device is revoked, every session bound to it is revoked in every later state. |
| `IdentityTheorems.ReplayBurns` | crates/identity/src/refresh.rs:276-285 | Presenting a spent link burns its session whatever commits meanwhile, and the link keeps its one successor. |
| `IdentityTheorems.OneSuccessor` | crates/identity/src/refresh.rs:244-349 | Of two presentations of one link at most one gets a successor; the other waits and is then a replay. |
| `IdentityTheorems.DeadStaysDead` | crates/identity/src/session.rs:100-108 | A session dead at an instant is never live at that or a later instant, if links are presented on clocks not before it and no open rotation that can still commit was presented less than a session lifetime before it. |
| `IdentityTheorems.OpenRotationRevives` | crates/identity/src/refresh.rs:289-333 | Such a rotation makes the session live again when it commits. |
| `IdentityTheorems.DeadIsFinalUnlessARotationIsOpen` | crates/identity/src/refresh.rs:244-349 | A dead session can become live again, without presenting on an earlier clock, if and only if a rotation that found it live is open, can still commit, and was presented less than a session lifetime before the instant. |
| `IdentityTheorems.RevivalIsReachable` | crates/identity/src/refresh.rs:289-333 | The exception is reached from the empty store: the session is dead and a rotation presented in its lifetime is open. |
| `IdentityTheorems.EarlierClockRevives` | crates/identity/src/refresh.rs:289-333 | The condition on clocks is needed: a presentation on a clock that lies before the instant revives a session with no rotation open. |
| `IdentityCredentials.StepMovesTokens` | crates/identity/src/session.rs:204-241 | Each event gives at most one session another access credential, a new one. |
| `IdentityCredentials.RunKeepsTokens` | crates/identity/src/session.rs:204-241 | Over every run no two sessions share an access credential and none is minted twice. |
| `IdentityCredentials.RotationReplacesToken` | crates/identity/src/refresh.rs:320-337 | A committed rotation gives the session a credential that no session had and retires the old one. |
| `IdentityCredentials.ReplacedTokenIsDead` | crates/identity/src/refresh.rs:320-337 | A replaced access credential authenticates nothing in any later state, whatever runs. |
| `IdentityCredentials.LoginBegins` | crates/public-api/src/credentials.rs:86-198 | A login opens one session of that device and its user, live for an hour, with a link good for it and expired after thirty days. |
| `IdentityCredentials.LoginNeedsTheSecret` | crates/public-api/src/credentials.rs:86-198 | A login changes something exactly for an unrevoked device and its own secret, and then only adds. |
| `IdentityCredentials.RotationBegins` | crates/identity/src/refresh.rs:293-349 | A committed rotation spends the presented link for one successor, begins the session's hour anew and touches nothing else. |
| `IdentityCredentials.RefreshExactly` | crates/identity/src/refresh.rs:243-349 | Presenting a link refreshes its session exactly when the link is unspent and unexpired, the session live and the clock not gone back. |
| `IdentityCredentials.CodeLasts` | crates/identity/src/pairing.rs:101-341 | A pairing code is accepted for ten minutes from its creation, by a device of the kind it is for. |
| `IdentityCredentials.RedeemsExactly` | crates/identity/src/pairing.rs:245-341 | A code is redeemed exactly while it is pending, unexpired and under five failed attempts, by a kind it is for. |
| `IdentityCredentials.CodesAreCreated` | crates/identity/src/pairing.rs:101-158 | A code is created exactly when it names a site if and only if it is for a deployer, on a clock not behind the owner's pending codes. |
| `IdentityCredentials.NewCodeReplacesTheOwners` | crates/identity/src/pairing.rs:114-123 | A new code sets aside its owner's pending codes and nobody else's. |
| `IdentityCredentials.PairingGives` | crates/identity/src/pairing.rs:245-341 | A redeemed code gives one device of its owner, of the declared kind and the code's site, with a new secret that is no identifier, and one session of it. |
| `IdentityCredentials.RevokingAUser` | crates/identity/src/session.rs:394-413 | Revoking a user revokes exactly the user's sessions, once, or is refused whole by a clock behind one of them. |
| `IdentityCredentials.RevokingASession` | crates/identity/src/session.rs:358-385 | Revoking a session touches that session alone. |
| `IdentityCredentials.DeletingADevice` | crates/public-api/src/devices.rs:479-588 | Only its owner deletes a device, once, and with it go exactly the sessions bound to it. |
| `IdentityCredentials.BurningIsNarrow` | crates/identity/src/refresh.rs:276-285 | A burn revokes the family's session and nothing else. |
| `IdentityCredentials.OtherSessionsLast` | crates/identity/src/session.rs:204-241 | A session of another kind is the user's, on no device, and lives until the instant it was given. |
| `NatsText.MaskComments` | crates/nats-profile/src/lib.rs:108-138 | The two-flag scan equals the specification of masking. |
| `NatsText.MaskAt` | crates/nats-profile/src/lib.rs:104-138 | Masking changes nothing but comment text, which becomes blanks, at the same offset. |
| `NatsText.MaskIdempotent` | crates/nats-profile/src/lib.rs:104-138 | Masking twice is masking once. |
| `NatsText.CommentsAreBlanked` | crates/nats-profile/src/lib.rs:108-138 | From a hash outside strings to the end of its line a text is blanked; the line break and the rest stay. |
| `NatsText.StringsAreKept` | crates/nats-profile/src/lib.rs:108-138 | What stands in a string stays as it is, a hash included. |
| `NatsText.NothingElseIsMasked` | crates/nats-profile/src/lib.rs:108-138 | A text without a hash is not masked at all. |
| `NatsText.SpacesAreWhite` | crates/nats-profile/src/lib.rs:152-155 | The scan steps over every white space character by its own number of bytes. |
| `NatsText.WhiteThere` | crates/nats-profile/src/lib.rs:152-155 | And over nothing else. |
| `NatsText.WordBytes` | crates/nats-profile/src/lib.rs:156-158 | Which bytes a token is made of. |
| `NatsText.FindIsFirst` | crates/nats-profile/src/lib.rs:148-152 | The search finds the first occurrence, or there is none. |
| `NatsText.NextFrom` | crates/nats-profile/src/lib.rs:151-162 | One turn of the token scan. |
| `NatsText.FindTokens` | crates/nats-profile/src/lib.rs:148-166 | The scan yields the tokens of the masked text in order. |
| `NatsSplice.NextTokenAfter` | crates/nats-profile/src/lib.rs:148-166 | Replacing a token by another leaves the scan to find the replacement in its place. |
| `NatsSplice.TokensAreMaximal` | crates/nats-profile/src/lib.rs:154-162 | A token is as long as it can be. |
| `NatsSplice.SpliceRescans` | crates/nats-profile/src/lib.rs:285-323 | Scanning the spliced text finds exactly the generated keys, in order. |
| `NatsSplice.TokenInOriginal` | crates/nats-profile/src/lib.rs:104-166 | A token of the masked text is written the same in the original, outside any comment. |
| `NatsSplice.MaskOfSplice` | crates/nats-profile/src/lib.rs:285-323 | Masking the spliced text is splicing the masked text. |
| `NatsSplice.SpliceRestores` | crates/nats-profile/src/lib.rs:285-323 | Splicing the placeholders back over the keys gives the input byte for byte, comments included. |
| `NatsProfile.PlaceholderGrammar` | crates/nats-profile/src/lib.rs:169-180 | A token names an identity iff it is the prefix, the name, an underscore and padding. |
| `NatsProfile.NameBytes` | crates/nats-profile/src/lib.rs:173-177 | Which bytes a name and its padding are made of. |
| `NatsProfile.FindClose` | crates/nats-profile/src/lib.rs:197-212 | The loop finds the matching brace, and its depth never goes below zero. |
| `NatsProfile.Block` | crates/nats-profile/src/lib.rs:183-213 | The text inside the braces that follow the key, or the refusal. |
| `NatsProfile.ClosedIsBalanced` | crates/nats-profile/src/lib.rs:197-211 | What a closing brace closes is balanced outside strings. |
| `NatsProfile.BalancedIsClosed` | crates/nats-profile/src/lib.rs:197-211 | Balanced text before a closing brace is exactly what that brace closes. |
| `NatsProfile.BlocksAreBalanced` | crates/nats-profile/src/lib.rs:183-213 | A block that is found is balanced. |
| `NatsProfile.ListRoundTrip` | crates/nats-profile/src/lib.rs:216-239 | Reading a written list gives its items back, in order, if and only if no item holds a closing bracket; otherwise the item is cut there and the rest is lost. |
| `NatsProfile.BracketCutsAnItem` | crates/nats-profile/src/lib.rs:216-239 | `allow: ["a]b",]` is read as the one item `a`. |
| `NatsProfile.ReadWritten` | crates/nats-profile/src/lib.rs:226-239 | What the splitting at quotes makes of a written list up to its first closing bracket. |
| `NatsStanza.UnclosedListIsRefused` | crates/nats-profile/src/lib.rs:216-231 | A key after which no bracket opens or none closes is refused. |
| `NatsStanza.UnclosedBlockIsRefused` | crates/nats-profile/src/lib.rs:183-213 | A key after which no brace opens or none closes it is refused. |
| `NatsStanza.StanzaRoundTrip` | crates/nats-profile/src/lib.rs:263-274 | Reading a written stanza gives back what may be published, what may not and what may be subscribed to, each in its own place and in order. |
| `NatsStanza.NoBlocksGrantNothing` | crates/nats-profile/src/lib.rs:263-274 | A stanza that names no block grants nothing. |
| `NatsRender.Parse` | crates/nats-profile/src/lib.rs:251-277 | The loop over tokens equals reading the text one stanza at a time, with the same first refusal. |
| `NatsRender.OneIdentityPerToken` | crates/nats-profile/src/lib.rs:251-277 | A text that parses has one identity for each token outside comments, in order, none repeated or empty. |
| `NatsRoundTrip.ParseRoundTrip` | crates/nats-profile/src/lib.rs:251-277 | Parsing a written ACL gives its identities back, in order, each with the name its placeholder holds and exactly the subjects of its own lists. |
| `NatsRoundTrip.RepeatedPlaceholderIsRefused` | crates/nats-profile/src/lib.rs:251-261 | A text in which a placeholder is used again is refused, and the refusal names it, whatever follows. |
| `NatsRoundTrip.AllOrNone` | crates/nats-profile/src/lib.rs:291-294 | Keys are generated for all identities or for none. |
| `NatsRoundTrip.RemainderIsTheFirst` | crates/nats-profile/src/lib.rs:310-318 | What is reported of a placeholder that is left is the whole word of the first one outside comments. |
| `NatsRoundTrip.RendersExactly` | crates/nats-profile/src/lib.rs:285-323 | Rendering a parsed text succeeds exactly when every key could be generated and no placeholder is left outside comments. |
| `NatsRender.SpliceKeys` | crates/nats-profile/src/lib.rs:290-308 | The copying loop equals the splice. |
| `NatsRender.Render` | crates/nats-profile/src/lib.rs:285-323 | Rendering refuses what parsing refuses, a key that cannot be generated and a placeholder that remains; else it is the splice with one seed per identity. |
| `NatsRender.RenderIsExact` | crates/nats-profile/src/lib.rs:285-323 | A rendered text has one seed per identity, rescans to exactly the generated keys, and gives the input back when the placeholders are put back. |

## Left out

- Real SQL, isolation levels and connection failures beyond a failed statement, rollback or crash.
- NATS client calls, stream and consumer provisioning, acknowledgement waits and delivery limits.
- Correlation identifiers, metrics, tracing, audit rows outside intake, and revocation records.
- Cryptography and the encoding of secrets.
- Validation inside the contract crates; a report's rule is a condition of the theorems that need it.
- Statuses beyond the seven known ones, and text length checks other than the inbox producer's.
- Archive upload and finalization, schedules, sites, OAuth relays and the gateway proxy.
- The limiter's floating-point rounding and its poisoned mutex.
- Wrap-around of counters and of the 32-bit attempt and erasure columns.
- `last_seen_at`, audiences and the idle rule of site owner sessions.
- A budget of pairing attempts: the mismatch counter is incremented in a transaction that is then dropped, so no claim is made about it.
- Deletion of operations, and with it the cascade to their outbox rows.
- Delivery.ExactlyOnceNeedsTheWindow: stated for a retention and a delay that together reach the broker's two minutes, because a shorter sum leaves no second copy to deliver.
- IdentityStore.Store.Pair: takes the pairing table's own rule on kinds and sites as given; PairingGrants and RedeemingNeverBreaksTheSiteRule show that every run keeps it.
