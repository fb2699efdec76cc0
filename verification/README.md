# WalletOps: the event queue, refresh tokens, migrations and summaries, verified

A Dafny model of the parts of WalletOps whose correctness spans several functions, processes or machines.

* **The leased event queue.** `EventTable` gives the effect of each SQL statement on a row, `EventStore`, `RuleStore`
  and `Worker` are the store and worker objects of one process with the faults it can meet, proved against those effects.
  `QueueProtocol` interleaves any number of workers, ingest calls and rule edits, one statement at a time, with crashes,
  lost replies and a monotone clock; a claim takes two steps so that its row lock is visible to SKIP LOCKED.
  `QueueRefinement` shows that every claim, Finish and ProcessOne of the objects, whatever its outcome, and every
  CreatePending, is a run of it; a tick as a whole and edits by the rule store are not related to it.
  `QueueInvariants`, `EventHistory`, `QueueProgress`, `LeaseExclusion`, `LeaseSafety`, `QueueFairness`,
  `QueueOvertaking`, `QueueReclaims`, `QueueDrain`, `QueueIngest` and `QueueRules` prove what holds in every run.
* **Refresh tokens.** `TokenStore` is the server's table and handlers, `TokenFamilies` models their concurrent executions
  with row locks and crashes. `AuthInterceptor` is the client's interceptor over its two-slot storage and a server;
  `RefreshProtocol` interleaves the interceptor's handlers at every await, together with logins, logouts and lost
  responses. `TokenRefinement` shows that logins and refreshes of the server objects are runs of `TokenFamilies`;
  `RefreshProtocol` models the source directly and is not proved to cover the interceptor object.
* **Migrations.** `Migrations` extracts up sections, applies files once, and covers concurrent and crashed runs.
* **Summaries.** `Summaries` follows a summarize request from its ids to the saved row.
* `Strings`, `Wrappers` (with `Sums`) and `Payloads` are shared.

Time is counted in microseconds. Rows, rules, tokens and users are numbered; an event's number is its position in the
table. Clocks, locked rows, replies and faults of the outside world are parameters or nondeterministic steps.

`dafny verify dfyconfig.toml` checks everything.

## Where the code and its documentation differ

* `docs/threat-model.md` and the repository's README name SKIP LOCKED as the control against double processing, and a
  lease is meant to keep others away from a row. `MarkProcessed` and `MarkAttemptFailed` do not check who claimed the
  row, so one worker that overstays its lease can let two other workers hold the same event, both within their leases
  (`LeaseExclusion.StaleMarkBreaksExclusion`). Exactly the failure marks that leave an attempt and whose backoff ends
  before the lease of another worker on the row can do so: without them no two workers within their leases share an
  event, and each of them lets some run end with two that do (`LeaseSafety.LeaseExclusionExact`). Marking within the
  lease is enough (`LeaseExclusion.PromptMarksSucceed`).
* The repository's README describes retries that back off up to a cap of 60 seconds for up to five tries. With five tries
  the cap is never reached: the waits are 2, 4, 6 and 8 seconds (`EventHistory.WorkerRetries`).
* A lease below one second is cut to zero seconds and protects nothing
  (`EventStore.SubSecondLeaseProtectsNothing`). The worker always asks for 45 seconds.
* A JSON `null` amount is accepted as zero, and a `null` payload as one without an amount: a rule with a threshold
  matches an event that carries no number exactly when the amount is null and the threshold is not negative
  (`RuleTable.ThresholdWithoutNumber`, `QueueRules.NumberlessMatch`).
* A summarize request may name one of the caller's own events by a text other than its canonical id, such as upper case:
  it passes the count check and then fails on saving (`Summaries.UpperCaseIdIsNotSaved`; `Summaries.SavingFailsExactly`
  and `Summaries.SummaryIsForOwnEvents` give the exact conditions for failure and success).
* An event is not always taken in order of receipt. In any reachable state, events yet to come can be claimed before a
  pending one, and then any number of them, if and only if a claim has it locked and there is a second worker
  (`QueueOvertaking.OvertakingExact`); if that claim is aborted the event waits again
  (`QueueOvertaking.OvertakingUnderLockIsUnbounded` is such a run).

## Model

| member | source | states |
|---|---|---|
| QueueInvariants.AlwaysInv | api/internal/events/store.go:246-266 | in every reachable state rows are well shaped, no timestamp is ahead of the clock, claims in flight lock different rows, and each locked row is as eligible as when it was locked |
| QueueInvariants.LockedRowFrozen | api/internal/events/store.go:246-266 | while a claim holds a row lock no other step changes the row, except that a deleted rule is unlinked |
| EventHistory.RowShapeAlways | api/internal/events/store.go:246-333 | claimed_at is set iff processing, last_error iff attempts and not processed, processed_at iff attempts or processed; pending has no attempts, failed has some; a matched rule implies processed |
| EventHistory.ClaimAccounting | api/internal/events/store.go:240-346 | ClaimByID included, claims are reclaims plus attempts plus one if processing or processed; failed marks number attempt_count; exactly one successful mark iff processed |
| EventHistory.ProcessedIsFinal | api/internal/events/store.go:304-321 | a processed row stays processed with its time, attempts and payload; only its rule link may be cleared |
| EventHistory.FailuresSpaced | api/internal/events/store.go:253-262 | consecutive failures are a backoff apart, and a row being retried was claimed no earlier than its backoff after its last failure |
| EventHistory.WorkerRetries | api/internal/worker/worker.go:15-19 | with five attempts a failed event is eligible again exactly from 2 seconds per failure after its last failure, and never after the fifth |
| EventHistory.BackoffBound | api/internal/events/store.go:253-257 | the k-th failure of an event is at least k(k-1) seconds after its first for k up to 31, then 60 more for each, even with stale workers |
| QueueProgress.AttemptsBounded | api/internal/events/store.go:252-262 | on the worker path attempt_count never exceeds the limit, and a processing row has an attempt left |
| QueueProgress.MeasureStep | api/internal/events/store.go:323-333 | each claim of a pending or failed row and each mark strictly lowers the measure, only an insert raises it |
| QueueProgress.WorkIsBounded | api/internal/worker/worker.go:15-19 | N events cause at most 2 * maxAttempts * N claims and marks besides lease reclaims, in any run |
| QueueProgress.CounterConservation | api/internal/worker/worker.go:117-122 | processed rows are exactly those counted, those on a worker about to count them, and those lost with their worker |
| LeaseExclusion.SkipLockedClaims | api/internal/events/store.go:246-266 | claims in flight hold different rows; every eligible row received before the one taken is locked by another claim; the row is still eligible at commit |
| LeaseExclusion.LatestClaimerExact | api/internal/events/store.go:233-346 | workers within their lease are always the latest and only such claimers of their event iff no step marks an event on which another worker is within its lease |
| LeaseSafety.HarmlessMarksKeepExclusion | api/internal/events/store.go:233-346 | in a run of ClaimNext workers in which no failure mark leaves an attempt and a backoff that ends within another worker's lease on the row, no two workers within their leases ever share an event |
| LeaseSafety.EndangeringMarkBreaksExclusion | api/internal/events/store.go:323-333 | any such mark, in any reachable state, goes on to two workers within their leases on one event, without another such mark |
| LeaseSafety.LeaseExclusionExact | api/internal/events/store.go:233-346 | after any run without such a mark, the next step is one iff some run that takes it and no such mark afterwards ends with two workers within their leases on one event |
| LeaseExclusion.PromptMarksSucceed | api/internal/worker/worker.go:79-123 | if every mark comes within its worker's lease, none meets a row taken away and each comes from the latest claimer |
| LeaseExclusion.StaleMarkBreaksExclusion | api/internal/events/store.go:323-333 | a run of ClaimNext workers in which one stale mark leaves two workers within their leases on one event |
| QueueFairness.OvertakingIsBounded | api/internal/events/store.go:250-265 | over any stretch of waiting, other claims, reclaims aside, number at most the attempts left to rows received no later, the claims already in flight on younger rows, and the attempts of later rows with the same received_at |
| QueueFairness.BoundedOvertaking | api/internal/events/store.go:250-265 | from insertion on, while unpicked: at most the attempts left to the rows that were there before, and to later rows with the same received_at |
| QueueOvertaking.YoungerPassOnlyUnderLock | api/internal/events/store.go:250-265 | at any time before an event is first claimed, a claim in flight on a younger event took its lock while the event itself was locked by a claim |
| QueueOvertaking.LockedEventIsPassed | api/internal/events/store.go:250-265 | from any reachable state in which a claim has a pending event locked and there is a second worker, that worker can take k events that arrive later, for any k, while the event stays pending |
| QueueOvertaking.OvertakingExact | api/internal/events/store.go:250-265 | in any reachable state, k events yet to come can be claimed before a pending event is picked again iff a claim has it locked and there is a second worker |
| QueueOvertaking.OvertakingUnderLockIsUnbounded | api/internal/events/store.go:263-265 | a concrete case: for every k a run in which the first event in the table is locked, passed by k younger ones, and then waits again because its claim is aborted |
| QueueReclaims.ClaimsAreALeaseApart | api/internal/events/store.go:258-262 | two claims of a row with no mark of it between them took their locks at least a lease apart |
| QueueReclaims.ReclaimsFitTime | api/internal/events/store.go:258-262 | between any two moments of a run a row is reclaimed at most once for each lease that fits between them, and twice more, whatever its marks and crashes |
| QueueReclaims.AllOvertakingIsBounded | api/internal/events/store.go:250-265 | over any stretch of waiting all claims of others, reclaims included, number at most the bound of OvertakingIsBounded and those reclaims of the events received no later |
| QueueReclaims.ReclaimsAreUnbounded | api/internal/events/store.go:258-262 | for every k a run in which one event is reclaimed k times with no attempt counted |
| QueueDrain.DrainCompletes | api/internal/worker/worker.go:79-123 | valid pending events, any number of looping workers, no arrivals or errors: when all have returned each event is processed, marked once and never failed |
| QueueIngest.IdempotentIngest | api/internal/events/store.go:75-119 | over all interleavings one row per (user, key), all answers name it, exactly one reports created, and the lookup after a conflict never misses |
| QueueIngest.IngestIsImmutable | api/internal/events/store.go:246-346 | user, key, type, payload and received_at of an event never change |
| QueueRules.MatchedRuleExists | api/migrations/00001_init.sql:40 | under any rule edits a set matched_rule_id names an existing rule of the event's own user |
| QueueRules.RulesInOrder | api/internal/rules/store.go:91-104 | in every run rules with lower numbers were created no later, and none is from the future |
| QueueRules.GoneWasDeleted | api/internal/rules/store.go:192-203 | a rule that was there and is gone was deleted by a step of its owner |
| QueueRules.StuckRowIsRecovered | api/internal/events/store.go:258-265 | past the lease of a processing row a worker finds nothing to claim only if the row has been claimed or marked since or is locked, and until then claims take no row received later |
| QueueRules.DeletedRuleIsRecovered | api/migrations/00001_init.sql:40 | a mark is refused only when the rule its worker matched was deleted between its match and its mark; no row changes, and past the lease a worker goes away empty only if the event has been claimed or marked again or is locked |
| QueueRules.MatchedWasFirst | api/internal/worker/worker.go:125-142 | what a worker is about to record was an oldest enabled rule that applied when this worker read the rules, under the claim it still works on |
| QueueRules.RecordedWasFirst | api/internal/worker/worker.go:99-142 | a processed row carries the rule that the worker that marked it matched in this way, and none only if it matched none or that very rule has been deleted since |
| QueueRules.NumberlessMatch | api/internal/worker/worker.go:125-161 | in any run the rule on a processed event without a number had no threshold when matched, unless the amount is null and the threshold was not negative |
| RuleTable.ThresholdWithoutNumber | api/internal/worker/worker.go:135-161 | a rule with a threshold applies to an event without a number iff the amount is null, the threshold not negative, and the rule enabled and of the event's user and type |
| EventStore.Store.CreatePending | api/internal/events/store.go:75-99 | adds a pending row, column by column, iff no row has the user and key, otherwise finds the row that has them; keys stay unique |
| EventStore.Store.GetByIdempotency | api/internal/events/store.go:101-119 | finds a row with the user and key, or reports that none exists |
| EventStore.Store.ClaimNext | api/internal/events/store.go:236-262 | takes an oldest unlocked row that is new, failed and backed off by 2 to 60 seconds with attempts left, or was claimed 45 000 000 microseconds ago or more; finds nothing iff there is none |
| EventStore.Store.ClaimNextWithLease | api/internal/events/store.go:240-280 | the same for any lease, counted in whole seconds and 45 if not positive; the row goes to processing with its claim time and is otherwise unchanged |
| EventStore.Store.ClaimByID | api/internal/events/store.go:282-302 | claims exactly a pending or failed row, whatever its attempts and backoff |
| EventStore.Store.MarkProcessed | api/internal/events/store.go:304-321 | succeeds iff the row is processing and the rule exists, and then sets status, matched rule and time, clears error and claim, and nothing else; not found iff the row is not processing |
| EventStore.Store.MarkAttemptFailed | api/internal/events/store.go:323-346 | on a processing row adds one attempt, the error and the time, clears the claim, and nothing else; otherwise changes nothing |
| EventStore.Store.GetForUserIDs | api/internal/events/store.go:164-191 | returns exactly the requested rows that belong to the user |
| EventStore.SubSecondLeaseProtectsNothing | api/internal/events/store.go:240-262 | a row claimed just now can be reclaimed at once iff the lease asked for is positive and under a second |
| QueueRefinement.ClaimRefines | api/internal/events/store.go:240-280 | a claim by the store object is the protocol's lock and commit, or its finding nothing |
| QueueRefinement.FinishRefines | api/internal/worker/worker.go:99-123 | any Finish by the worker object, marks that succeed, miss, are refused or fail included, is the protocol's match, rejection or failed read followed by its mark |
| QueueRefinement.ProcessOneRefines | api/internal/worker/worker.go:77-122 | any ProcessOne of the worker object, with any faults and outcome, is a run of the protocol to the same rows and the same growth of the processed counter, save that a refused mark comes with the deletion that caused it |
| QueueRefinement.CreatePendingRefines | api/internal/events/store.go:75-99 | a CreatePending of the store object is the protocol's insert, and its lookup when the key was taken |
| QueueRefinement.ClaimByIDRefines | api/internal/events/store.go:282-302 | a ClaimByID of the store object is one step of the protocol, enabled exactly when it succeeds |
| RuleStore.Store.Create | api/internal/rules/store.go:91-104 | adds a rule under a new id, keeping ids in order of creation |
| RuleStore.Store.GetForUser | api/internal/rules/store.go:129-145 | finds a rule only for its owner |
| RuleStore.Store.UpdateForUser | api/internal/rules/store.go:147-190 | replaces exactly the given fields of the owner's rule |
| RuleStore.Store.DeleteForUser | api/internal/rules/store.go:192-203 | deletes only the owner's rule and clears exactly the links to it; rows matched to other rules keep theirs |
| RuleStore.Store.EnabledByUserAndType | api/internal/rules/store.go:68-89 | lists exactly the user's enabled rules of a type, oldest first, each once |
| RuleStore.LostUpdate | api/internal/rules/store.go:147-190 | two interleaved updates equal one after the other iff the later one sets all that the earlier one changed |
| Worker.Stats.MarkTick | api/internal/worker/stats.go:21-25 | records the time of the tick and leaves the counters alone |
| Worker.Stats.IncProcessed | api/internal/worker/stats.go:27-31 | moves only the processed counter, by one |
| Worker.Stats.IncError | api/internal/worker/stats.go:33-37 | moves only the error counter, by one |
| Worker.Worker.Process | api/internal/worker/worker.go:125-142 | fails exactly on a bad payload or a failing read, with that reason, otherwise returns an oldest rule that applies or none if none does |
| Worker.Worker.Finish | api/internal/worker/worker.go:99-123 | marks a processing row failed with the reason, or processed with its first match; leaves it on a vanished rule, a row taken away or an I/O error; counters follow |
| Worker.Worker.ProcessOne | api/internal/worker/worker.go:77-97 | carries one oldest eligible event to its outcome, leaves it claimed when stopped during the delay, or changes nothing on an empty queue or a failing claim |
| Worker.Worker.Tick | api/internal/worker/worker.go:63-75 | handles events until none can be claimed, a claim fails or 20 are done, leaving a trace of the table after each; the counters move by what changed in the table and the errors returned |
| Worker.TurnIsProcessOne | api/internal/worker/worker.go:65-74 | each step of the trace is an outcome of ProcessOne with that turn's faults and times |
| Worker.ProcessExactly | api/internal/worker/worker.go:125-161 | process returns an oldest rule that is enabled, of the user and type, and has no threshold or one at or above the event's number; none iff no rule is; and the text of the payload's fault |
| Worker.OnlyRuleMatches | api/internal/worker/worker.go:125-161 | the only enabled rule of user and type is matched iff the payload is null or an object whose amount is not of another type, and the rule has no threshold or the number, null as zero, is at most the threshold |
| Worker.ReadErrorExactly | api/internal/worker/worker.go:126-134 | a failing read of the rules gives its text, unless the payload is at fault already |
| Worker.FinishExactly | api/internal/worker/worker.go:99-123 | a Finish without I/O error or vanished rule leaves the row processed with its match, or failed with one attempt more and the reason, column by column |
| Worker.OutcomeTakesOldestDue | api/internal/worker/worker.go:15-19 | ProcessOne takes an oldest due event under five attempts and 45 seconds, or there is none |
| TokenStore.Store.SaveRefreshToken | api/internal/auth/store.go:76-85 | adds a row unless the token is already there or the statement fails |
| TokenStore.Store.ConsumeRefreshToken | api/internal/auth/store.go:87-121 | if the transaction goes through the token is gone, otherwise nothing changes; it yields its user iff it was there, its expiry not before now, and deleted; a failed delete of an expired token is not reported |
| TokenStore.Handler.IssuePair | api/internal/auth/handler.go:173-190 | stores a token never seen before with the thirty day lifetime, or none when a step fails |
| TokenStore.Handler.Refresh | api/internal/auth/handler.go:119-153 | exchanges a usable token of a known user for a fresh one of the same user iff no statement fails; after the consume went through the presented token is dead even if issuing fails; no other token changes; says which error is answered |
| TokenStore.Handler.RefreshAfterLogin | api/internal/auth/handler.go:119-190 | a token from a login is exchanged at a later time iff that is at most 2 592 000 000 000 microseconds after the login, and its heir lasts as long again |
| TokenFamilies.OneHeirPerLogin | api/internal/auth/handler.go:119-190 | each login or register has at most one live descendant or refresh between consume and save, all of its own user, crashes included |
| TokenFamilies.SingleUse | api/internal/auth/store.go:87-121 | a token is consumed successfully at most once in any interleaving and never comes back |
| TokenFamilies.ConsumedWithinThirtyDays | api/internal/auth/store.go:107-121 | in every interleaving a token is consumed only within thirty days of the step that saved it, and dropped as expired only after |
| TokenRefinement.RefreshRefines | api/internal/auth/handler.go:119-153 | any refresh of the handler object, whatever fails, is a run of the concurrent handlers to the same table |
| TokenRefinement.LoginRefines | api/internal/auth/handler.go:173-190 | so is any issuing of a pair after a login |
| AuthInterceptor.TokenStorage.SaveTokens | mobile/lib/core/storage/token_storage.dart:33-40 | both slots hold the new tokens |
| AuthInterceptor.TokenStorage.Clear | mobile/lib/core/storage/token_storage.dart:42-46 | both slots are empty |
| AuthInterceptor.Interceptor.Send | mobile/lib/core/network/auth_interceptor.dart:84-90 | sends the stored token under the flag, or fails without one and lowers the flag |
| AuthInterceptor.Interceptor.Receive | mobile/lib/core/network/auth_interceptor.dart:91-103 | the token sent is exchanged for a fresh stored one of the same user iff the network works and the server still takes it; the flag is down either way |
| AuthInterceptor.Interceptor.RefreshOnce | mobile/lib/core/network/auth_interceptor.dart:79-104 | presents one token, the one under way if a refresh is outstanding, and succeeds iff the server still takes it; no other token changes |
| AuthInterceptor.Interceptor.OnError | mobile/lib/core/network/auth_interceptor.dart:42-77 | acts only on a first 401, with or without a refresh outstanding; retries at most once and exactly when the refresh worked and nobody logged out, and leaves storage empty or with a live token |
| RefreshProtocol.StoredTokenIsLive | mobile/lib/core/network/auth_interceptor.dart:43-104 | with no refresh outstanding and nobody clearing, the stored refresh token is live on the server, lost responses and late calls included |
| RefreshProtocol.SingleFlight | mobile/lib/core/network/auth_interceptor.dart:79-85 | at most one refresh is outstanding, the flag is up exactly then, waiters wait for its gate, and no request is sent more than twice |
| RefreshProtocol.AnsweredNeverResent | mobile/lib/core/network/auth_interceptor.dart:86-103 | a refresh token whose successful response was received is never sent again |
| RefreshProtocol.LeaderAdvances | mobile/lib/core/network/auth_interceptor.dart:86-103 | the outstanding refresh can always step, each of its steps brings its gate closer and no other step moves it back |
| RefreshProtocol.GateCompletes | mobile/lib/core/network/auth_interceptor.dart:79-103 | by the sixth step of its leader a refresh has ended, the flag is down, and everyone who waited on its gate has gone on |
| RefreshProtocol.EndDecidesForAll | mobile/lib/core/network/auth_interceptor.dart:79-104 | leader and waiters of a refresh go on to the retry, with a live token stored, iff it ended with its second write; otherwise all of them fail |
| RefreshProtocol.RetryNeedsToken | mobile/lib/core/network/auth_interceptor.dart:58-69 | a request goes out a second time iff an access token is stored when it resumes |
| RefreshProtocol.FailureEmptiesStorage | mobile/lib/core/network/auth_interceptor.dart:71-76 | a job whose refresh or retry fails has emptied both slots by its second step after that, whatever others do |
| RefreshProtocol.LogoutEmptiesStorage | mobile/lib/core/storage/token_storage.dart:42-46 | so has a logout |
| RefreshProtocol.FirstResponses | mobile/lib/core/network/auth_interceptor.dart:47-85 | a response other than a 401 ends a request and nothing else; a 401 on a first attempt joins the refresh outstanding or leads a new one |
| RefreshProtocol.SoloRefresh | mobile/lib/core/network/auth_interceptor.dart:42-104 | with a live token stored and nothing else going on, a first 401 can lead to a retry with both slots holding the fresh token that replaced the old one |
| RefreshProtocol.LateCallConsumes | api/internal/auth/handler.go:119-153 | a refresh call the client gave up on still uses up its token when it arrives |
| RefreshProtocol.KillExactly | mobile/lib/core/network/auth_interceptor.dart:86-103 | unless the storage is being cleared, killing the app leaves a stored refresh token that is dead or about to be consumed iff it comes between the call that presents it and the write of its successor |
| RefreshProtocol.KillLeavesDeadToken | mobile/lib/core/network/auth_interceptor.dart:91-95 | a run and a kill that leave a dead token stored |
| RefreshProtocol.DeadTokenIsCleared | mobile/lib/core/network/auth_interceptor.dart:71-103 | from any state, a refresh that reads a dead token has emptied the refresh slot by its fourth step |
| Migrations.DownIsLeftOut | api/internal/db/migrate.go:71-84 | the extracted statements contain a Down marker iff the file has one and no Up marker |
| Migrations.UpSectionOfLayout | api/internal/db/migrate.go:71-84 | a file laid out as head, Up, body, Down, tail yields the trimmed body |
| Migrations.SmallFile | api/internal/db/migrate.go:71-84 | the markers themselves and the trimming, on two small files |
| Migrations.Database.Migrate | api/internal/db/migrate.go:15-69 | from any applied prefix a run either applies all files or stops with the prefix before the failing one, each section once and in order |
| Migrations.SortedFilesInOrder | api/internal/db/migrate.go:24-30 | the files visited are those listed; of any two the one whose name is a prefix, or smaller at the first difference, comes first |
| Migrations.Database.MigrateEmpty | api/internal/db/migrate.go:15-69 | a first run applies the up sections in dictionary order of the names, however they are listed |
| Migrations.Database.MigrateRepository | api/internal/db/migrate.go:15-69 | for the repository that order is 00001, 00002, 00003 |
| Strings.AtMostIsLexical | api/internal/db/migrate.go:28 | the order used for sorting is the dictionary order by character code |
| Migrations.ListingOrderIrrelevant | api/internal/db/migrate.go:24-28 | the order of the directory listing does not affect the order of application |
| Migrations.MigrationIsExactlyOnce | api/internal/db/migrate.go:30-67 | concurrent, crashed and restarted runs of binaries that embed prefixes of one growing list always leave a prefix applied once each in order; it includes the list of every run that succeeded, and is that list if no run had a longer one |
| Summaries.NormalizeIDs | api/internal/ai/handler.go:119-134 | the loop computes the deduplicated ids |
| Summaries.DedupedContents | api/internal/ai/handler.go:119-134 | deduplication loses, invents and repeats nothing |
| Summaries.DedupedKeepsOrder | api/internal/ai/handler.go:119-134 | ids come out in order of first occurrence |
| Summaries.DedupedIdempotent | api/internal/ai/handler.go:119-134 | deduplicating twice changes nothing |
| Summaries.SameIDs | api/internal/ai/schema.go:39-48 | sorting copies and comparing decides multiset equality |
| Summaries.CountProvesOwnership | api/internal/ai/handler.go:61-69 | as many rows as ids come back iff the ids name pairwise different events of the caller |
| Summaries.Handler.Summarize | api/internal/ai/handler.go:39-117 | every branch of the response, and a row saved exactly on success |
| Summaries.Handler.SummarizeIDs | api/internal/ai/handler.go:52-104 | every branch from the number of ids to the provider's reply |
| Summaries.Handler.CheckAndSave | api/internal/ai/handler.go:100-116 | rejects a reply without title, bullets, follow-ups or ids, with another risk level, or for other ids; puts the ids in request order, keeps the rest, and saves |
| Summaries.FactsOfOwnEvents | api/internal/ai/handler.go:82-97 | the provider is told type, number, status and rule name of each own event, in request order |
| Summaries.RefusalsExactly | api/internal/ai/handler.go:39-104 | each error response up to the provider's, with the exact condition it is given under |
| Summaries.SummaryIsForOwnEvents | api/internal/ai/handler.go:39-117 | a summary is saved iff an authenticated request names 1 to 20 different own events by canonical ids, no statement fails and the provider's answer is valid for them; its ids are the deduplicated request in order |
| Summaries.SavingFailsExactly | api/internal/ai/handler.go:61-116 | saving fails iff the provider was asked and its answer fits, and then the statement fails or an own event was named by a text that is not its canonical id |
| Summaries.UpperCaseIdIsNotSaved | api/internal/ai/handler.go:61-116 | one own event asked for in upper case passes the count check and is not saved |

## Left out

- Postgres below the statement: statements are atomic at one clock reading, except that a claim's lock and commit are two steps; a mark waiting behind a claim's lock is simply not enabled until the claim is over.
- Wall-clock steps backwards: the clock of the queue and of the tokens never runs backwards.
- Statements that take effect but whose reply is lost: in the protocol, not in the Worker object, where an I/O error has no effect.
- WorkIsBounded: leaves out lease reclaims, which have no bound in number (QueueReclaims.ReclaimsAreUnbounded), only in time (QueueReclaims.ReclaimsFitTime).
- GateCompletes: counts the leader's own steps; that the scheduler and the network eventually let it take them is not part of the model.
- Runs of Tick, the rule store and AuthInterceptor as steps of the protocols: QueueRefinement stops at ProcessOne and CreatePending, TokenRefinement at Refresh and IssuePair.
- Failing storage writes, token expiry and access-token contents in RefreshProtocol: writes are assumed to succeed, tokens not to expire, and a 401 may come at any time. A kill is a function on reachable states, and what follows it is covered by DeadTokenIsCleared only.
- Migration files inserted before ones already applied: every list is assumed to be a prefix of the next.
- Access tokens: JWT issuing and checking are not modelled; AuthInterceptor stores one value for both tokens of a pair.
- Hashing, HMAC, bcrypt and randomness: a fresh token is a new value and stands for its own hash.
- User, webhook, health, statistics, demo and listing endpoints, request validation and JSON decoding: they would only add easy members.
- Deleting users and the cascades it would cause: no code path does it.
- updated_at of rules and the log output of the worker.
- The prompt text, the request hash and the providers: a provider is an arbitrary function of the facts and ids, and the rule names it is told are a parameter.
- The library sort: SortInPlace has its effect, not its algorithm.
- Rounding in lease.Seconds() for leases of months with a fractional second.
