# gofin: a verified model of its state machines

gofin is a personal-finance system of small services. This project states in
Dafny what its most stateful parts do and proves what they promise. It verifies
with `dafny verify dfyconfig.toml`.

| part | files | kind of model |
|---|---|---|
| expense ledger | `Ledger`, `LedgerInvariants`, `LedgerReplies`, `Erasure`, `Lineage`, `History`, `Keyset`, `Repository`, `ExpenseService` | the table as a sequence of rows; SQL statements as functions on it; repository and service as classes proved against those functions |
| export stream | `ExpenseStream`, `StreamProgress`, `StreamOutcomes` | producer, consumer, bounded channel, one-slot error channel, cancellation and a growing ledger as one step relation |
| datarights jobs | `JobRunner`, `JobVerdicts`, `ExportJobs`, `ExportFanOut`, `Deletion` | worker pool with crashes and recovery; admission of exports; fan-out under an errgroup; ordered deletion with retries |
| sign-in | `RefreshTokens`, `RefreshClient`, `RetriedCalls` | rotation with two clocks, a blacklist and clean-up; a page's shared refresh composed with that server and the browser's other tabs |
| immudb session | `ImmudbSession`, `RetriedStatements` | generation counter under a mutex, raced by requests and heartbeats |
| gateway | `RouteResolver` | the linear scan, and the search of a routing tree it agrees with |
| suggestions, money | `Suggestions`, `Money` | map aggregation, ranking and paging; formatter and parser of amounts |
| shared | `Outcomes`, `Ordering` | result types; the order of texts |

A protocol is a `State`, a `Step`, `Enabled` and `Apply`; a run is any sequence of
enabled steps, so every statement about runs covers every schedule. Fields that
only record the run (`fetched`, `sent`, `mails`, `log`, `minted`, …) are read by no
step, and those that a promise rests on are proved to be what the steps of the run
make them. A write to a database is acknowledged, rejected, or applied without the
acknowledgement arriving. What clocks, FX, Finance, UUID sources and providers
answer is a parameter of the step or of the request.

## Where the code and its documentation differ

The model follows the code; each point has a lemma in the table below.

- `GetCorrectionHistory` promises the full chain of an expense. Its two walks share one visited set, so it
  returns the full chain only for an original, and for any other row the original alone
  (`FullChainIffOriginal`, `CorrectedOnceIsCutShort`, `SeparateVisitedSetsSuffice`).
- The comment on the service's `CorrectExpense` calls it atomic. It is so if and only if it never reaches its
  two writes or they agree (`CorrectionIsAtomicIff`); otherwise it is a deletion that reports an error
  (`HalfCorrectionIsADeletion`).
- An idempotent replay answers with the stored row, unless FX rounded its reporting amount to zero, as it does
  one Hong Kong cent in dollars: then every read of the row fails, the replay included, and with it every
  export of that user (`ReplayAnswersTheStoredRow`, `OneCentCannotBeReplayed`, `UnreadableRowFailsEveryExport`).
- A nil result of the export stream means a complete export, unless the user is erased while it runs: then it is
  missing exactly the rows still to be fetched (`NilMissesExactlyTheLost`, `ErasureEmptiesExport`).
- A refresh token is single-use while requests reach the blacklist before the token expires. A request delayed
  past expiry and clean-up can use it again (`SpentTokenMintsIffSwept`, `DelayedReplayMintsAgain`).
- Logging out promises that the token cannot be reused. If the write is rejected it can, while the handler
  clears the cookies and answers 204 all the same (`LogoutHoldsIff`). The comment there also says expired tokens
  are listed; they are not, nor need they be, as validation rejects them (`AuthService.Logout`).
- The browser's single-flight refresh is per tab, and tabs share the cookie: two tabs that refresh at once
  make one of the two a replay (`TabsRefreshTwice`, `OverlapIsReachable`).
- `ChangePassword` says that revoking tokens forces other sessions to log in again. Refreshing does not look at
  the revocation, so an unspent refresh token carries such a session on (`RefreshOutlivesPasswordChange`).
- The comment on `reconnectLocked` says the generation prevents a herd of reconnects. A heartbeat passes the current
  generation, so it reopens a session that a request has already replaced (`HeartbeatReopensAReplacedSession`).
- Suggestion paging computes its offset in 32 bits: a far page shows the wrong window (`PageIsWindowIff`,
  `FarPageWrapsRound`) or panics on a negative offset (`PagePanicsIff`, `FarPagePanics`).
- `formatMoney` negates in 64 bits, so the most negative amount is written with a second sign
  (`RoundTripIff`, `MostNegativeIsGarbled`).

## Model

| member | source | states |
|---|---|---|
| `Repository.ImmudbExpenseRepository.CreateExpense` | services/expense/internal/repository/queries.go:12-62 | INSERT adds exactly the given row at the end, or nothing when the write or the primary key is refused; a write whose acknowledgement is lost still adds it and reports failure |
| `Repository.ImmudbExpenseRepository.GetExpenseByID` | services/expense/internal/repository/queries.go:128-146 | the row with this id if it belongs to the user, absent otherwise, an error when its money snapshot has a hole |
| `Repository.ImmudbExpenseRepository.GetExpenseByIdempotencyKey` | services/expense/internal/repository/queries.go:151-173 | the stored row of this user and key, absent if there is none, an error when its snapshot has a hole |
| `Repository.ImmudbExpenseRepository.CorrectExpense` | services/expense/internal/repository/correction.go:15-35 | UPDATE then INSERT: all four combinations of outcomes, the half-done one included, with the table each leaves |
| `Repository.ImmudbExpenseRepository.DeactivateExpense` | services/expense/internal/repository/queries.go:175-185 | only the row with this id and user turns corrected, and not if the write is refused |
| `Repository.ImmudbExpenseRepository.AnonymizeAllUserExpenses` | services/expense/internal/repository/queries.go:241-271 | every row of the user and no other is redacted in place |
| `Repository.ImmudbExpenseRepository.GetCorrectionHistory` | services/expense/internal/repository/correction.go:40-103 | the two loops with their shared visited set terminate on every table, cyclic links included; they return what the specified walks return if each of the queries those walks make is answered, and a storage error if one of them fails |
| `Repository.ImmudbExpenseRepository.FindOriginal` | services/expense/internal/repository/correction.go:50-68 | the backward loop: the row it stops at, the rows visited on the way and the number of queries made, or a storage error if and only if one of exactly those queries fails |
| `Repository.ImmudbExpenseRepository.FindCorrections` | services/expense/internal/repository/correction.go:73-100 | the forward loop: the row followed by what the specified walk finds behind it, reading no further than that walk does |
| `Repository.ImmudbExpenseRepository.GetExpensesByUserAfter` | services/expense/internal/repository/keyset.go:20-73 | one keyset page: rows past the cursor, cut at the page size, with the overflow row deciding hasMore and the cursor at the last row kept |
| `ExpenseService.ExpenseService.CreateExpense` | services/expense/internal/service/expense.go:61-168 | table and answer of a create, with every check in the order the code makes it and no write before the last of them |
| `ExpenseService.ExpenseService.CorrectExpense` | services/expense/internal/service/expense.go:241-358 | table and answer of a correction, with every check in order and no write before the last of them |
| `ExpenseService.ExpenseService.DeleteExpense` | services/expense/internal/service/expense.go:366-410 | table and answer of a deletion |
| `ExpenseService.ExpenseService.AnonymizeAllUserExpenses` | services/expense/internal/service/expense.go:547-562 | redaction of a user, with a validation error for an empty user id and a storage error when the write fails |
| `ExpenseService.ExpenseService.GetCorrectionHistory` | services/expense/internal/service/expense.go:412-431 | a missing expense is an error; a storage error is returned if and only if one of the queries made fails; any chain returned is non-empty, without repetition, each row correcting the one before |
| `LedgerInvariants.RequestIsMove` | services/expense/internal/service/expense.go:241-347 | every create, pro-rata create, correction (whole or half done), deletion and refusal is one of four legal moves of the table |
| `LedgerInvariants.RunKeepsLinks` | services/expense/internal/repository/correction.go:11-35 | over every run, redaction included, ids stay unique, every link names an older row of the same user, period and installment that is no longer active, and no row is corrected twice |
| `LedgerInvariants.CorrectionsNameCorrectedRows` | services/expense/internal/service/expense.go:293-319 | after every run from an empty ledger, a correction names an older row of its own user and period, whose status is corrected unless the user was erased |
| `LedgerInvariants.RunExtends` | services/expense/internal/repository/queries.go:12-62 | over every run that does not erase a user, no row of that user is removed or moved, it changes by its status from active to corrected at most, and no row of another becomes theirs |
| `LedgerInvariants.RunKeepsKeys` | services/expense/internal/repository/queries.go:151-173 | over every run, erasures included, a user has at most one row per non-empty idempotency key |
| `LedgerInvariants.CreateClaimsItsKey` | services/expense/internal/service/expense.go:61-76 | a create that writes anything adds one row, and that row answers for its key from then on |
| `LedgerInvariants.ReplayAnswersTheStoredRow` | services/expense/internal/service/expense.go:631-646 | after any further requests short of erasing the user, a create with a used key leaves the ledger unchanged; it answers with that same row if and only if the row has a complete money snapshot |
| `LedgerInvariants.CreateStoresReadableIff` | services/expense/internal/service/expense.go:652-688 | a create stores a row that can be read back if and only if it is at par or FX quoted a non-zero amount with a rate and a time |
| `LedgerInvariants.ZeroQuoteReplayFails` | services/expense/internal/service/expense.go:66-76 | on every sound ledger a create whose quote is zero is acknowledged, and the same request at any later time, while its user is not erased, is refused for the row it stored itself |
| `LedgerInvariants.RoundsToNearest` | services/fx/internal/service/decimal.go:43-65 | FX rounds to the nearest minor unit, at exactly half to the one further from zero |
| `LedgerInvariants.RoundsToNothingIff` | services/fx/internal/service/decimal.go:43-65 | FX rounds a conversion to zero if and only if it is worth less than half a minor unit |
| `LedgerInvariants.OneCentCannotBeReplayed` | services/fx/internal/service/decimal.go:39-65 | one Hong Kong cent in a period kept in dollars, which rounds to zero, is such a create |
| `LedgerInvariants.CorrectionMovesItsTotal` | services/expense/internal/service/expense.go:277-347 | an acknowledged correction changes its own period total by new minus old and no other total |
| `LedgerInvariants.DeletionMovesItsTotal` | services/expense/internal/service/expense.go:366-399 | an acknowledged deletion changes its own period total by minus the old amount and no other total |
| `LedgerInvariants.CreationMovesItsTotal` | services/expense/internal/service/expense.go:61-168 | a create that writes changes its own period total by the new amount and no other total |
| `LedgerInvariants.ProRataMovesItsTotal` | services/expense/internal/service/prorata.go:18-117 | the same for an installment, whose period is the one Finance supplied |
| `LedgerInvariants.CorrectionSucceedsIff` | services/expense/internal/service/expense.go:277-347 | a correction is acknowledged if and only if it passes every check, can be priced, and both of its writes are acknowledged |
| `LedgerInvariants.CorrectionIsAtomicIff` | services/expense/internal/service/expense.go:240-347 | a correction leaves the ledger as it was, or adds its row, if and only if it does not reach its writes or the two writes agree; one that is acknowledged is whole |
| `LedgerInvariants.HalfCorrectionIsADeletion` | services/expense/internal/repository/correction.go:11-35 | where a correction is not atomic, because its INSERT did not happen or its UPDATE happened without acknowledgement, it leaves exactly the table a deletion leaves, and reports a storage error |
| `LedgerInvariants.RefusalsLeaveNoTrace` | services/expense/internal/service/expense.go:284-313 | any refusal that is not a storage failure leaves the ledger untouched: FX and period failures come before the first write |
| `LedgerInvariants.ClosedMonthKeepsItsRows` | services/expense/internal/service/expense.go:264-274 | once a clock that never goes back has left a month, its active rows never change again, unless their user is erased |
| `LedgerInvariants.RequestChangesOnlyItsRow` | services/expense/internal/service/expense.go:366-399 | a request changes no stored row but the one it names, owned by its user, active and in the current month, short of erasing that user |
| `LedgerInvariants.ChangedRowsWereAskedFor` | services/expense/internal/service/expense.go:241-399 | over every run that does not erase its user, a row that changed was named by a correction or deletion of that user in its own month |
| `LedgerInvariants.EveryRowHasAnAuthor` | services/expense/internal/service/expense.go:122-158 | after every run from an empty ledger, each row not erased holds unaltered the details, period, key and priced money of one request of its own user, in the currency asked for or else that of the period or, for a correction, of the row it corrects; no other row exists |
| `LedgerInvariants.StoredRowsAreWellFilled` | services/expense/internal/service/expense.go:739-790 | after every run from an empty ledger each row not erased has a positive amount, a name, a tag, one of the three types, a dated day, a month, a rate source that is known and a key that is none or spells a UUID |
| `LedgerInvariants.WellFormedIffWellFilled` | services/expense/internal/service/expense.go:754-790 | and the checks are no stricter: a create is well-formed if and only if the row it asks for is filled like that |
| `LedgerInvariants.FlipIsNarrow` | services/expense/internal/repository/queries.go:175-185 | the UPDATE of a deletion touches the status of the row with this id and user, and nothing else |
| `LedgerReplies.HolesAreRefused` | services/expense/internal/repository/row_mapping.go:70-97 | reading a row back is refused if and only if one of seven fields of its snapshot is blank |
| `LedgerReplies.EarlyRefusals` | services/expense/internal/service/expense.go:739-790 | a validation error is given if and only if the input is invalid, and a failing read is told before anything else is decided; neither changes anything |
| `LedgerReplies.MissingIsNotFound` | services/expense/internal/service/expense.go:249-257 | a row that is not there or belongs to another user is not found, and nothing changes |
| `LedgerReplies.DeletionReplies` | services/expense/internal/service/expense.go:366-399 | for the row named: when exactly a deletion is acknowledged, and when exactly each refusal is given |
| `LedgerReplies.CorrectionReplies` | services/expense/internal/service/expense.go:241-347 | the same for a correction: corrected before, month locked, period unavailable, unsupported currency, no conversion |
| `LedgerReplies.ReplayIsForItsUser` | services/expense/internal/service/expense.go:625-646 | a create is answered by a stored row if and only if its own user has one with the key, and by one of those |
| `LedgerReplies.CreationReplies` | services/expense/internal/service/expense.go:76-168 | under an unused key: when exactly a create writes, is acknowledged, or is refused for its period, currency or conversion |
| `LedgerReplies.ProRataReplies` | services/expense/internal/service/prorata.go:18-117 | an installment is taken if and only if it is valid, comes from Finance for its own user, and its currencies are known to the catalog and the snapshot |
| `Erasure.ErasureLeavesNothing` | services/expense/internal/repository/queries.go:237-271 | after an erasure no row is the user's, every former row has the fixed name and user, empty details and zero money and keeps its frame, and no other row changes |
| `Erasure.RefusedErasureChangesNothing` | services/expense/internal/service/expense.go:547-562 | an erasure that names nobody, or whose write is rejected, changes nothing |
| `Erasure.ErasureForgets` | services/expense/internal/repository/queries.go:237-271 | two ledgers that differ only in what is personal in rows of the user are equal after the erasure: nothing of it can be read off |
| `Erasure.ErasureRepeats` | services/expense/internal/repository/queries.go:239-239 | erasing again changes nothing |
| `Erasure.ErasedForEver` | services/expense/internal/repository/queries.go:237-271 | over every later run an erased row stays exactly as the erasure left it |
| `Lineage.SameRootIsOnePath` | services/expense/internal/repository/correction.go:40-103 | rows that descend from one original lie on one path |
| `Lineage.OneActiveRowPerOriginal` | services/expense/internal/service/expense.go:257-262 | of all rows that descend from one original only the last can be active |
| `Lineage.RunKeepsOneActiveRowPerOriginal` | services/expense/internal/service/expense.go:241-399 | the same after every run of requests from an empty ledger |
| `History.HistoryIsAChain` | services/expense/internal/repository/correction.go:40-103 | on any table the history is a chain of distinct rows of the user, starting at the root its backward walk reached |
| `History.HistoryOfAnOriginal` | services/expense/internal/repository/correction.go:37-103 | asked for an original on a sound ledger, the history is all rows that descend from it, oldest first, or an error if and only if one of exactly those rows cannot be read |
| `History.HistoryOfACorrection` | services/expense/internal/repository/correction.go:52-98 | asked for any other row, the history is the original alone, because both walks share one visited set, or an error if and only if a row on the way up cannot be read |
| `History.FullChainIffOriginal` | services/expense/internal/repository/correction.go:37-103 | the documented full chain is returned if and only if the row asked for corrects no other and the chain can be read |
| `History.FullChainIffOriginalInEveryRun` | services/expense/internal/repository/correction.go:37-103 | the same on every ledger that requests, erasures and half-done corrections can bring about from an empty one |
| `History.CorrectedOnceIsCutShort` | services/expense/internal/repository/correction.go:40-103 | any expense created and corrected once at par has a chain of two rows, and the history asked for with the id the correction returned is the first alone |
| `History.TwoCentsAreCutShort` | services/expense/internal/repository/correction.go:40-103 | a concrete one: one dollar cent corrected to two |
| `History.SeparateVisitedSetsSuffice` | services/expense/internal/repository/correction.go:37-39 | with a visited set of its own for each walk the full chain would be returned from every row of it that can be read whole |
| `Keyset.PageIsExact` | services/expense/internal/repository/keyset.go:20-73 | a page is strictly increasing in (created_at, id), skips no row of the user past the cursor, and hasMore holds if and only if such a row remains |
| `Keyset.PageIsRefusedIff` | services/expense/internal/repository/keyset.go:20-73 | a page fails if and only if one of the rows it reads, the overflow row included, cannot be read back |
| `Keyset.WalkAdvancesIffStamped` | services/expense/internal/repository/keyset.go:20-73 | the next cursor leaves every returned row behind if and only if the last of them has a created_at; with an empty one the next page is the first page again |
| `Ordering.LessIsLexicographic` | services/expense/internal/repository/keyset.go:20-73 | one text is less than another if and only if it is a proper prefix of it or smaller where they first differ |
| `ExpenseStream.EveryLedgerOpens` | services/expense/internal/service/expense.go:461-470 | every ledger that requests can bring about from an empty one is one the stream theorems apply to |
| `ExpenseStream.StreamIsSafe` | services/expense/internal/service/expense.go:461-542 | in every interleaving of producer, consumer, cancellation, panic and ledger requests, erasures included, the rows sent are the user's, strictly increasing in (created_at, id), at most one follows a cancellation, and unless the user was erased they are in the ledger as sent |
| `ExpenseStream.NilMeansAllSent` | services/expense/internal/service/expense.go:461-542 | a nil result means every row held at the start was sent, or was still to be fetched when the user was erased |
| `ExpenseStream.NilMissesExactlyTheLost` | services/expense/internal/service/expense.go:461-542 | behind a nil result a row held at the start is missing if and only if the user was erased while that row was still to be fetched |
| `ExpenseStream.StreamIsBounded` | services/expense/internal/service/expense.go:461-542 | channel and held page never exceed the page size, 100 rows unless another is asked for, and exactly one value is ever put on errc, into an empty slot |
| `StreamProgress.NeverStuck` | services/expense/internal/service/expense.go:471-541 | every reachable state is finished or has an enabled step of a goroutine |
| `StreamProgress.StepMakesProgress` | services/expense/internal/service/expense.go:461-542 | every step other than a ledger request decreases a measure, and a request raises it by one row of work at most |
| `StreamProgress.StreamTerminates` | services/expense/internal/service/expense.go:461-542 | a run has at most 12 steps per starting row, 13 per request served meanwhile, and 10 more |
| `StreamProgress.CanAlwaysFinish` | services/expense/internal/service/expense.go:471-541 | from every reachable state both goroutines can reach their end without any further request, and with nil if nothing has gone wrong and the rows of the user can be read |
| `StreamProgress.FailureHasACause` | services/expense/internal/service/expense.go:471-541 | a stream returns an error only if it was cancelled, or met a failing read, a panic, a failing send or an unreadable row |
| `StreamProgress.UnreadableRowFailsEveryExport` | services/expense/internal/repository/keyset.go:20-73 | with one unreadable row of the user at the start, no run of the stream returns nil unless the user is erased meanwhile |
| `StreamProgress.ExportPossibleIff` | services/expense/internal/service/expense.go:461-542 | some run of the stream without an erasure of the user returns nil if and only if every row the user had at the start can be read |
| `StreamProgress.ErasureEmptiesExport` | services/expense/internal/service/expense.go:461-542 | an erasure before the first page is always possible, and such a run returns nil with none of the starting rows sent |
| `StreamProgress.OrphanedProducerStops` | services/expense/internal/service/expense.go:476-541 | once the consumer has returned nothing is sent any more, and the producer hands off at most the free channel slots before it stops, however fast the ledger grows |
| `StreamOutcomes.OutcomeIsCaused` | services/expense/internal/service/expense.go:471-541 | a stream that has left its loop returns nil if and only if no send failed, no read failed or met an unreadable row, nothing panicked and no goroutine noticed a cancellation; every error it returns names one that happened, a failed send always, and a cancellation it reports was the caller's |
| `StreamOutcomes.FailedSendIsLast` | services/expense/internal/service/expense.go:481-489 | a send that fails is the last one, whatever happens next, and the stream ends with its error |
| `StreamOutcomes.OneLateSend` | services/expense/internal/service/expense.go:481-489 | counted over the steps of a run, at most one send begins after a cancellation, errc is sent to at most once, and the rows sent are increasing |
| `StreamOutcomes.CausesCanStrike` | services/expense/internal/service/expense.go:471-541 | each of these causes can strike wherever its goroutine is exposed to it |
| `JobRunner.StepKeepsStatuses` | services/datarights/internal/repository/postgres.go:188-231 | one step moves a job status only along pending, running, completed or failed, and never out of a terminal one |
| `JobRunner.TerminalIsFinal` | services/datarights/cmd/main.go:247-281 | across any crashes and restarts a terminal job keeps its row and its strategy is never started again |
| `JobRunner.RunnerIsSound` | services/datarights/internal/jobrunner/pool.go:88-141 | for any jobs and schedule: slots in use equal the slot holders and never exceed capacity, the queue counter equals the workers not yet counted out, no finished job has a side entry, mails go to the address submitted, and at rest without a failed status write every job is terminal; a job whose INSERT was applied without acknowledgement has no worker before the next start, and until then the runner is not at rest |
| `JobRunner.CompletedSizeIsDelivered` | services/datarights/internal/engine/engine.go:92-148 | a job completed in the run stores the size of an archive delivered for that same job |
| `JobVerdicts.VerdictIsStored` | services/datarights/internal/jobrunner/pool.go:100-141 | whatever a strategy returns, until a crash its job waits for one write: applied, the row is completed with the size delivered or failed with the reason given, the fixed text for a panic, and stays so; rejected, it stays running |
| `JobVerdicts.TerminalRowsWereVerdicts` | services/datarights/internal/jobrunner/pool.go:100-141 | a row that became terminal in a run holds what the strategy of its own job returned in that run |
| `JobVerdicts.MailsAreDeliveries` | services/datarights/internal/engine/engine.go:130-148 | one mail is sent for each archive delivered, to the address of its job, and none for anything else |
| `JobVerdicts.StartsAreRecorded` | services/datarights/internal/engine/engine.go:130-148 | the strategies that a run starts are those of its loading steps |
| `JobVerdicts.AnythingMayHappen` | services/datarights/internal/jobrunner/pool.go:100-141 | a running process may crash in any state, and a strategy at work may return anything |
| `JobRunner.WorkerStepIsOwnJob` | services/datarights/internal/engine/engine.go:92-148 | a worker step touches no row and no side entry but those of its own job |
| `JobRunner.PoolNeverStuck` | services/datarights/internal/jobrunner/pool.go:93-141 | with at least one slot, an unfinished worker means that some worker can move |
| `JobRunner.WorkerStepMakesProgress` | services/datarights/internal/jobrunner/pool.go:93-141 | every worker step decreases a measure, whatever the strategy and the writes return |
| `JobRunner.PoolCanDrain` | services/datarights/internal/jobrunner/pool.go:88-141 | from every reachable state worker steps alone finish all workers |
| `JobRunner.WorkIsBounded` | services/datarights/internal/jobrunner/pool.go:88-141 | in every run, crashes and recoveries included, workers take at most eight steps for each job submitted or recovered, beyond the work left at its start |
| `JobRunner.NoSlotsNoProgress` | services/datarights/internal/jobrunner/pool.go:75-98 | with capacity zero no worker ever moves |
| `ExportJobs.ExportService.GetInProgressJob` | services/datarights/internal/repository/postgres.go:77-104 | an unfinished job of the user if and only if there is one |
| `ExportJobs.ExportService.GetLatestNonFailedJob` | services/datarights/internal/repository/postgres.go:107-134 | the newest job of the user that did not fail, absent if and only if there is none |
| `ExportJobs.ExportService.CreateJob` | services/datarights/internal/service/export.go:77-137 | an unfinished job is returned; else a newer export than 30 days is refused with the time to retry; else exactly one pending job is added; a failing query adds nothing, and a failing INSERT at most that job |
| `ExportJobs.RetryAfterIsExact` | services/datarights/internal/service/export.go:98-115 | a refused user is told the exact first instant at which the same table would admit a new job, storage willing |
| `ExportJobs.ExportsStayAdmitted` | services/datarights/internal/service/export.go:77-137 | over every run of requests, clock moves and pool moves each user has at most one unfinished export, and any two that did not fail are 30 days apart |
| `ExportJobs.RunnerStepIsPoolEvent` | services/datarights/internal/jobrunner/pool.go:88-141 | every step of the job runner is one of the pool moves that the previous row allows |
| `ExportJobs.RunnerCreatesTheRow` | services/datarights/internal/service/export.go:77-137 | the job that the runner creates is the row that an admitted request adds |
| `ExportFanOut.ArchiveIsComplete` | services/datarights/internal/engine/engine.go:175-261 | whatever order the providers return in, the archive is built if and only if none failed, and then holds every file in the order of the factory |
| `ExportFanOut.BlameIsFair` | services/datarights/internal/engine/engine.go:244-261 | the failure names the provider that failed first by its own error or panic, never one that only saw the cancelled context; a time-out is reported exactly when something failed and the context had ended or the first failure was a deadline |
| `ExportFanOut.FailureCancelsTheOthers` | services/datarights/internal/engine/engine.go:180-243 | the first failure, or the end of the context, lets every provider still at work fail as cancelled |
| `ExportFanOut.BarrierOpens` | services/datarights/internal/engine/engine.go:182-250 | each return of a provider, a panic included, brings the barrier one closer, and it opens exactly when all have returned |
| `Deletion.DeletionEngine.ExecuteProvider` | services/datarights/internal/deletion/engine.go:92-141 | the retry loop makes the calls, and reports the attempts and the reason, that the specified tries give |
| `Deletion.DeletionEngine.Execute` | services/datarights/internal/deletion/engine.go:56-87 | calls made and outcome of the loop over providers equal the specified execution, and the erased data is what those calls erased |
| `Deletion.TriesAreExact` | services/datarights/internal/deletion/engine.go:92-141 | a provider is tried until its first success, its third failure or the first pause the context cuts short, and the reason tells which |
| `Deletion.ExecutionIsOrdered` | services/datarights/internal/deletion/engine.go:56-141 | calls go through the providers in registration order, none skipped, each at most three times |
| `Deletion.ExecutionIsFaithful` | services/datarights/internal/deletion/engine.go:56-87 | an execution succeeds if and only if every provider did; otherwise it names the last provider called, which never succeeded, with its real number of calls |
| `Deletion.EarlierSucceedFirst` | services/datarights/internal/deletion/engine.go:56-87 | whatever the providers, one is called only in an execution in which every earlier one has succeeded |
| `Deletion.AuthGoesLast` | services/datarights/cmd/main.go:176-192 | auth is called only in an execution in which finance and expense have succeeded |
| `Deletion.RerunsConverge` | services/datarights/internal/deletion/engine.go:56-87 | any sequence of executions, each run to its end or cut off by a crash anywhere, with one success in it ends with everything erased |
| `Deletion.ErasureRespectsOrder` | services/datarights/cmd/main.go:176-192 | after any such sequence no provider is erased while an earlier one is not: authentication data is never gone before finance and expense data |
| `RefreshTokens.AuthService.ConsumeToken` | services/auth/internal/repository/blacklist_postgres.go:23-46 | one INSERT: true if and only if the jti is new, listed either way; a failing one may have been applied |
| `RefreshTokens.AuthService.RefreshToken` | services/auth/internal/service/auth.go:214-257 | an invalid token changes nothing; a valid one is spent even when the refresh is then refused or fails, and only an unspent one yields a pair |
| `RefreshTokens.AuthService.Logout` | services/auth/internal/service/auth.go:260-286 | a valid token is listed unless the write is rejected, and a write not acknowledged is reported; an invalid or expired token changes nothing |
| `RefreshTokens.AuthService.ValidateToken` | services/auth/internal/service/auth.go:157-198 | accepted if and only if unexpired, readable and not issued before the second of the revocation |
| `RefreshTokens.AuthService.ChangePassword` | services/auth/internal/service/auth.go:492-549 | every check and both writes in order: a failed revocation leaves the new password in force and the old tokens valid, and only with both writes acknowledged is a fresh pair handed out |
| `RefreshTokens.CleanupDropsOnlyRejected` | services/auth/internal/db/auth.sql.go:31-38 | while the database clock is not ahead, clean-up drops only entries whose token validation already rejects |
| `RefreshTokens.LifetimesAreExact` | services/auth/internal/service/jwt.go:33-36 | by default an access token is good for 15 minutes and a refresh token for 7 days, less than a second rounded off, and refused from that instant on |
| `RefreshTokens.ExchangeIsForItsUser` | services/auth/internal/service/auth.go:214-257 | a pair is handed out if and only if the token is unspent and its user known, and it is that user's |
| `RefreshTokens.FailedRefreshSpends` | services/auth/internal/service/auth.go:228-244 | a refresh that fails after its token was consumed has spent it |
| `RefreshTokens.StepKeepsInv` | services/auth/internal/service/auth.go:214-286 | a token that yielded a pair or was logged out stays listed until a clean-up later than its expiry |
| `RefreshTokens.TokensAreSingleUse` | services/auth/internal/service/auth.go:214-286 | over any run in which refreshes reach the blacklist before expiry, a jti yields at most one pair, and none after logout |
| `RefreshTokens.ExchangesAreRecorded` | services/auth/internal/service/auth.go:214-257 | the pairs it counts are those that the steps of a run exchanged an unspent token of a known user for |
| `RefreshTokens.LogoutsAreRecorded` | services/auth/internal/service/auth.go:260-286 | and the logouts it counts are those of the run whose write was not rejected |
| `RefreshTokens.AtomicRefreshIsPrompt` | services/auth/internal/service/jwt.go:132-149 | a refresh that consumes in the instant it validates meets that condition while the database clock is not ahead |
| `RefreshTokens.SpentTokenMintsIffSwept` | services/auth/internal/repository/blacklist_postgres.go:23-66 | a spent token yields another pair if and only if its entry has been cleaned up, which needs a clean-up after its expiry while a validated request was on its way |
| `RefreshTokens.DelayedReplayMintsAgain` | services/auth/internal/service/auth.go:214-241 | such a delay is always possible: a concrete run in which a delayed second request yields another pair |
| `RefreshTokens.SpentTokenCanBeOnItsWay` | services/auth/internal/service/auth.go:214-241 | its premise is reachable: two requests for one token validate before either consumes it |
| `RefreshTokens.LogoutHoldsIff` | services/auth/internal/handler/rest.go:253-270 | after a logout its token can no longer be refreshed if and only if the write was not rejected; the answer to the browser does not tell the two apart |
| `RefreshTokens.RevocationLasts` | services/auth/internal/service/auth.go:492-549 | a revocation time never moves back |
| `RefreshTokens.ChangeRevokesEarlierTokens` | services/auth/internal/service/auth.go:157-198 | after a password change no access token from an earlier second is ever accepted again |
| `RefreshTokens.FreshTokenAcceptedIffClocksAgree` | services/auth/internal/service/auth.go:492-549 | the pair handed out by the change is accepted if and only if the database clock is not a whole second ahead |
| `RefreshTokens.RefreshIgnoresRevocation` | services/auth/internal/service/auth.go:214-257 | an unspent refresh token, however old, yields a pair, and its access token passes the revocation check if and only if the clocks agree to the second |
| `RefreshTokens.RefreshOutlivesPasswordChange` | services/auth/internal/service/auth.go:526-529 | a session opened before a password change goes on after it under that same condition, so the change does not force a new login |
| `RefreshClient.PageIsSound` | frontend/packages/api/src/client.ts:49-173 | over every run of page, other tabs and server: at most one refresh of the page in flight, at most two fetches per call, a second one only after the joined refresh succeeded, and no refresh of any tab refused as a replay unless a response was lost, the server spent a token without replacing it, or a logout or the refresh of another tab overlapped one |
| `RefreshClient.SendsIffNoneInFlight` | frontend/packages/api/src/client.ts:72-82 | the page sends a refresh if and only if a call that is no auth endpoint sees a 401 and none of its own refreshes is unsettled |
| `RefreshClient.CallsShareTheRefresh` | frontend/packages/api/src/client.ts:137-155 | however a run goes on while a refresh of the page has not settled, the page sends no other and every call that meets a 401 meanwhile waits for that one |
| `RefreshClient.StepKeepsTokens` | frontend/packages/api/src/client.ts:55-82 | tokens in the hands of the browser are genuine, and unless one of those things happened the next to be shown is unspent |
| `RefreshClient.ReplayIffSpent` | services/auth/internal/service/auth.go:214-241 | a refresh is refused as a replay if and only if the token it carries is spent |
| `RefreshClient.ServedAsPresented` | services/auth/internal/service/auth.go:214-257 | what a refresh is answered, told from its cookie: invalid, a replay, of an unknown user, or granted with a fresh token of its user |
| `RefreshClient.FailureIsToldAsStorage` | services/auth/internal/service/auth.go:228-244 | a refresh whose database calls fail is refused for that, with its token spent if it came as far |
| `RefreshClient.LogoutTakesTheCookie` | services/auth/internal/handler/rest.go:253-270 | a logout takes the cookie from the browser, and lists its token unless the write is rejected |
| `RefreshClient.LostResponseSpoilsTheCookie` | frontend/packages/api/src/client.ts:55-66 | losing the response to a granted refresh leaves a spent cookie behind |
| `RefreshClient.TabsRefreshTwice` | frontend/packages/api/src/client.ts:49-82 | tabs share the cookie and not the refresh: if the server meets the refresh of another tab with the same cookie first, the refresh of this page is refused as a replay |
| `RefreshClient.OverlapIsReachable` | frontend/packages/api/src/client.ts:72-82 | its premise is reachable: sign in and make one call that meets a 401 |
| `RetriedCalls.CallsEndAsAnswered` | frontend/packages/api/src/client.ts:137-173 | a call that has ended was fetched as often as it got a response, succeeded if and only if the last was good, was fetched again if and only if the refresh it joined succeeded, expired if and only if that failed, and joined one if and only if a first 401 met no auth endpoint |
| `RetriedCalls.RefreshSucceedsIffGranted` | frontend/packages/api/src/client.ts:52-66 | a refresh counts as a success if and only if the server granted it and the answer arrived |
| `RetriedCalls.SpoiledIsTheRun` | frontend/packages/api/src/client.ts:49-82 | a page counts as spoiled if and only if, in the run, a response was lost, the server spent a token without replacing it, or a refresh or logout began while one was in flight |
| `RetriedCalls.NoReplayUnlessSpoilt` | frontend/packages/api/src/client.ts:49-82 | unless one of these happened in the run no refresh of any tab was refused as a replay |
| `ImmudbSession.RealImmudbClient.ReconnectLocked` | services/expense/cmd/immudb_prod.go:141-181 | nothing happens if the generation moved on or the open fails; otherwise a new client is installed and the generation grows by one |
| `ImmudbSession.RecoveryIsSound` | services/expense/cmd/immudb_prod.go:141-244 | in every interleaving of requests and heartbeats the mutex excludes, the generation counts the reconnects, each generation is left at most once, a statement runs at most twice, and a retry uses the client of a strictly later generation than the one that failed |
| `ImmudbSession.RequestReopensIffCurrent` | services/expense/cmd/immudb_prod.go:141-146 | a request reopens the session if and only if the generation it lost is still installed and the open succeeds |
| `ImmudbSession.HeartbeatReopensIffItCan` | services/expense/cmd/immudb_prod.go:105-116 | a heartbeat reopens whatever is installed, whenever the open succeeds |
| `ImmudbSession.HeartbeatReopensAReplacedSession` | services/expense/cmd/immudb_prod.go:105-116 | so one lost session can be reopened twice: a concrete interleaving |
| `ImmudbSession.NeverStuck` | services/expense/cmd/immudb_prod.go:184-244 | if a goroutine is unfinished some goroutine can move |
| `RetriedStatements.RetriesIffRecovered` | services/expense/cmd/immudb_prod.go:184-244 | however a run goes on, a request ends after one attempt or two: two if and only if the first lost its session and the session was reopened, by this request or another goroutine |
| `RouteResolver.MatchPattern` | services/access/resolver.go:49-74 | the early-exit loop decides the recursive match of segments |
| `RouteResolver.MoreSpecific` | services/access/resolver.go:82-98 | the early-exit loop decides by the first differing class, then by length |
| `RouteResolver.Resolve` | services/access/resolver.go:21-41 | the loop returns deny if nothing matches, and otherwise the level of the matching route that none beats |
| `RouteResolver.ResolvedIsUnbeatenOrDeny` | services/access/resolver.go:21-41 | a request that no route of its verb matches is denied, and any other gets the access of a matching route that no other matching route beats |
| `RouteResolver.DecisionIsUnique` | services/access/resolver.go:21-41 | there is only one such level |
| `RouteResolver.SplitIsExact` | services/access/resolver.go:49-51 | the segments of a path hold no slash, and joined with slashes they are the path |
| `RouteResolver.ScanKeepsBest` | services/access/resolver.go:21-41 | the scan keeps a matching route at least as specific as every other, the earliest among equals, and none exactly when none matches |
| `RouteResolver.SearchFindsBest` | services/access/resolver.go:76-98 | a segment-by-segment search that prefers static, then parameter, then catch-all and backtracks finds the same kind of best route |
| `RouteResolver.ScanIsTreeSearch` | services/access/resolver.go:21-102 | for every registry whose catch-alls come last, every verb and path, scan and tree search choose the same route |
| `RouteResolver.LengthNeverDecides` | services/access/resolver.go:94-97 | two patterns that match one path and agree in class as far as both go have the same length |
| `RouteResolver.NamesDoNotMatter` | services/access/resolver.go:49-98 | what a parameter or a catch-all is called changes neither what matches nor how it ranks |
| `RouteResolver.ResolveIgnoresOrder` | services/access/resolver.go:21-41 | if no two routes of one verb have the same pattern up to parameter names, the order of the registry does not matter |
| `Suggestions.AggregateExpenseSuggestions` | services/expense/internal/service/suggestions.go:59-106 | whatever order the map is walked in, the list is the strict ranking of exactly one suggestion per name |
| `Suggestions.GetExpenseSuggestions` | services/expense/internal/service/suggestions.go:25-57 | an invalid request is refused; a valid one gets the page the code cuts from that ranking |
| `Suggestions.TallyMeaning` | services/expense/internal/service/suggestions.go:59-78 | a group holds the row of its name with the greatest (created_at, id), the number of its rows outside pro-rata groups, and the set of its pro-rata groups |
| `Suggestions.BeforeIsStrictOrder` | services/expense/internal/service/suggestions.go:94-103 | the sort key is a strict order, total between different names |
| `Suggestions.RankingIgnoresOrder` | services/expense/internal/service/suggestions.go:59-106 | the same rows in any order, and any walk of the map, give one and the same list |
| `Suggestions.FrequencyFits` | services/expense/internal/service/suggestions.go:80-82 | a frequency is at least one and at most the number of rows |
| `Suggestions.SuggestionTellsTheNewest` | services/expense/internal/service/suggestions.go:59-92 | a suggestion tells amount, currency, type, tag and time of the newest row of its name, how often the name was used, and the two multiplied |
| `Suggestions.RecencyLimits` | services/expense/internal/service/suggestions.go:116-132 | the weight is 8 on the day of the clock, at least 4 for seven days, at least 2 for thirty, and else 1, and the bucket says which |
| `Suggestions.RecencyIsMonotone` | services/expense/internal/service/suggestions.go:116-132 | of two uses that are not in the future the later never weighs less |
| `Suggestions.RankedIsBestFirst` | services/expense/internal/service/suggestions.go:94-103 | higher scores come first, then later uses, then names that are less |
| `Suggestions.PageIsWindowIff` | services/expense/internal/service/suggestions.go:40-56 | a page is the one asked for if and only if its offset fits 32 bits or wraps past the end of the list |
| `Suggestions.FarPageWrapsRound` | services/expense/internal/service/suggestions.go:40-44 | page 42949674 of 100 shows rows from offset 4 again |
| `Suggestions.PagePanicsIff` | services/expense/internal/service/suggestions.go:40-56 | a valid request panics if and only if its offset, wrapped to 32 bits, is negative |
| `Suggestions.FarPagePanics` | services/expense/internal/service/suggestions.go:40-56 | page 21474838 of 100 panics for every list |
| `Suggestions.PagesJoinUp` | services/expense/internal/service/suggestions.go:40-56 | successive pages join up to the list, and say there is more exactly until they have shown it all |
| `Money.GroupByThree` | services/finance/internal/service/healthscore_money.go:58-77 | the loop over digit groups, with every slice in bounds, writes a comma before every third character from the right |
| `Money.FormatMoney` | services/finance/internal/service/healthscore_money.go:30-48 | sign, symbol, grouped whole units, and two digits of cents unless they are zero, in 64-bit arithmetic |
| `Money.CommasEveryThirdDigit` | services/finance/internal/service/healthscore_money.go:58-77 | counted from the right, exactly places 3, 7, 11 and so on hold commas, and none is in front |
| `Money.SeparatedKeepsDigits` | services/finance/internal/service/healthscore_money.go:58-77 | taking the commas out gives the digits back |
| `Money.MatchIsGrammar` | frontend/packages/core/src/currency.ts:81-82 | the parser matches exactly sign and digits with an optional fraction, or a bare fraction, and in one way only |
| `Money.ParseIsExact` | frontend/packages/core/src/currency.ts:84-96 | the parsed value is sign times whole.fraction times ten to the minor digits, while the numbers are held exactly |
| `Money.ThrowsIffInvalid` | frontend/packages/core/src/currency.ts:24-40 | for every finite amount it reads, the parser throws if and only if the precision check objects |
| `Money.OuterSpaceIsIgnored` | frontend/packages/core/src/currency.ts:74-80 | white space around an amount changes neither what is read nor whether the precision check objects |
| `Money.OnlyPrecisionIsRefused` | frontend/packages/core/src/currency.ts:18-31 | the check objects to a finite number with more decimals than the currency has, and to nothing else |
| `Money.FormatThenParseDoubles` | frontend/packages/core/src/currency.ts:74-99 | formatting, removing symbol and commas, and parsing at two minor digits gives back every amount up to 2^53 - 1 either way |
| `Money.RoundTripIff` | services/finance/internal/service/healthscore_money.go:30-48 | rounding aside, the round trip holds for every 64-bit amount except the most negative one |
| `Money.MostNegativeIsGarbled` | services/finance/internal/service/healthscore_money.go:30-48 | that amount is written with a second sign after the symbol and a remainder of 0-8, and read as zero |

## Left out

- Repository.ImmudbExpenseRepository.GetExpensesByUserAfter: page sizes of 2^31 - 1 and more, for which the overflow row's limit does not fit 32 bits.
- ExpenseStream.StreamIsSafe: created_at is never empty, as every write stamps it.
- ExpenseStream.NilMissesExactlyTheLost: a user whose id is the word DELETED, which an erasure does not take rows from.
- Deletion.RerunsConverge: a user who still has a session can add an expense after the expense provider and before the auth provider has erased; that row survives a job that succeeds.
- LedgerInvariants.RunKeepsKeys: two creates with one key, or two corrections of one row, at the same time; requests are atomic, as the code assumes. Nobody's user id is the word DELETED.
- RefreshTokens.LifetimesAreExact: lifetimes that the environment overrides.
- RefreshTokens.TokensAreSingleUse: DeleteUserData, which drops blacklist rows before the user row; runs do not contain it.
- RefreshTokens.AuthService.ChangePassword: the strength rule is a parameter, and a stored hash stands for its password.
- RouteResolver.ScanIsTreeSearch: the shipped registry is not listed; the theorem holds for every registry, and whether the shipped patterns end in their catch-alls is left to the router's own check.
- ExportJobs.ExportsStayAdmitted: two CreateJob calls of one user at the same time, and a database clock that differs from the application's.
- Suggestions.AggregateExpenseSuggestions: the clock may tick between two groups; here it stands still for one request. The query's cut at 1000 rows is not part of this model.
- Money.ParseIsExact: how doubles round beyond 2^53 - 1, Unicode white space, and texts whose value is not finite.
- Money.FormatMoney: currency symbols are parameters and do not start with a minus sign.
- RefreshClient.PageIsSound: the URL test of `isAuthEndpoint` is the flag `auth` of a call. Any overlap of two tabs' refreshes counts as one, also when they carry different cookies.
- Currency codes are taken as already trimmed and upper-cased.
- The job runner's context timeouts are failed writes or failed strategies; a panic outside the strategy, and a recovery query that fails, are not steps.
- JWT signatures, bcrypt and UUID generation: tokens are records, ids are fresh values.
- ZIP assembly, e-mail text, metrics, logs, error reports, HTTP and gRPC handlers, migrations.
- Listing and counting queries, profile and onboarding operations: they read rows, or change single rows of profiles and periods, that none of the invariants here speak about.
- Pro-rata splitting, FX rates and routes other than the rounding of their result, and health-score formulas.
