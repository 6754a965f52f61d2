# Verified protocols of the messaging backend

This Dafny 4.11 project models the protocols that the backend's correctness rests on and proves what they promise. A
protocol that runs concurrently is a step machine: a state with the committed tables and the private state of every open
transaction, a predicate saying when a statement may run (row locks, unique-index waits and READ COMMITTED re-reads are
enabling conditions), and a function saying what it changes. Theorems are stated for every run of such a machine, that
is for every interleaving. Code that changes things step by step also appears as a class or a method with loops, proved
against the same functions.

| file | what it models |
|---|---|
| `Common.dfy` | optional values, results, the message record, small facts about sets |
| `MessageStore.dfy` | sending: idempotency lookup, conversation, sequence number, message and outbox event in one transaction |
| `DeviceSync.dfy` | snapshot paging, the monotone ACK, the client's state transitions, an unreliable network |
| `HeadlessClient.dfy` | the client's update closures and its paging loop |
| `ConversationSystem.dfy` | the composition of sends, network and client |
| `StateFile.dfy` | the client's state file: atomic replacement under failures and power losses |
| `Backoff.dfy` | the retry delay in 64-bit arithmetic, and its jitter |
| `Outbox.dfy`, `OutboxWorkers.dfy` | the outbox table and its completions; workers that claim, publish, stop and are replaced |
| `RefreshRotation.dfy`, `RefreshServer.dfy` | refresh tokens with idempotent recovery, and the client's durable pending refresh |
| `PasswordLogin.dfy` | the lock ordering between logins and password changes |
| `SqlSplitter.dfy`, `SqlSplitterLaws.dfy` | the migration tool's statement splitter against a one-character automaton, and its laws |
| `SqlGrammar.dfy` | the lexical grammar of a script, on its text alone, and that splitting follows it |
| `MigrationRunner.dfy`, `MigrationRuns.dfy` | history validation, `up`, `baseline`, and whole lives of a database |
| `Migration14.dfy` | the one migration that runs outside a transaction: exactly when it is recorded without having run |
| `EventRouting.dfy` | decoding an event, presence lookup, direct and batch routing |
| `ContractMigration.dfy` | migration 016 as a transformation of the tables |
| `Packet.dfy`, `CacheIntents.dfy` | the reliability experiments |

Conventions: hashes, tokens and salted password hashes are fresh values; encryption is ideal; all parties read one
clock, the outbox's database in whole microseconds; a database identity is a fresh number. Where the code and a
plausible reading of it differ, the code is modelled:

- The worker's start-up check compares the attempt timeout with the full lease, but the lease is stored in whole
  milliseconds and counted from a clock with whole microseconds. `StartsAreOwnedExactlyWhenTheAttemptFits` gives the
  exact condition, `FractionalLeaseFails` and `LastMicrosecondFails` accepted configurations that miss it.
- A completion checks the lock token and not the lease's end, so an expired owner that nobody replaced may still
  complete, as `ExpiredOwnerCompletes` shows.
- The completion check of migration 14 looks at objects only. `RecordedShortExactlyWhen` says over any sequence of runs
  exactly when the migration ends up recorded although some statement never ran, and `FourStatementsStoppedAfterTwo`
  gives the run for a script of four statements.
- Delivering a packet credit deletes the intent unconditionally. `CreditsAreConservedExactlyWhen` says exactly when no
  credit is lost and `EarlyDeliveryExample` gives a run that loses one.
- A client that retries a refresh after the stored response has expired is treated as a replay:
  `OnlyLateRetriesRevoke` states exactly this and `LateRetryExample` gives the run.
- A conversation that does not exist is answered 404, so `SyncConversation` returns not found and stores nothing;
  `SnapshotsAreNeverEmpty` shows that a committed conversation always has a message.
- A repeated login is a conflict once its stored result or its session has expired, also with the same request.

## Model

| member | source | states |
|---|---|---|
| MessageStore.SequenceNumbersAreExact | message_store.go:188-292 | in every state of every interleaving of sends, commits and rollbacks, a conversation's messages carry exactly 1..last_seq, each once, with created_at non-decreasing |
| MessageStore.EveryMessageHasOneEvent | message_store.go:234-257 | in every reachable state each message has exactly one outbox event, whose payload is that message |
| MessageStore.RepliesAgree | message_service.go:57-135 | successful sends with one (sender, clientMessageId) return the same message, it matches each request, and at most one says created |
| MessageStore.SecondReadsNeverMiss | message_store.go:109-163 | the re-select after a conversation conflict and the re-read after losing the insert always find a row |
| MessageStore.SendsNeverDeadlock | message_store.go:109-292 | while sends are open, one of them can take its next statement: waits on pairs, rows and keys never form a cycle |
| MessageStore.StreamIsTheTable | message_store.go:188-292 | the stream of a conversation is its stored messages in number order, nothing missing and nothing else |
| MessageStore.StreamsOnlyGrow | message_service.go:115-128 | no step removes or rewrites a committed message: streams only get longer |
| MessageStore.SoloSend | message_service.go:57-135 | the statements of a creating send, named in program order, lead from one idle state to the next: one message numbered next in its conversation, one event, and a reply that says created |
| MessageStore.SoloRetry | message_service.go:57-135 | a repeated send ends after its lookup with the stored message, or without a reply if the request is another one, and changes no table |
| MessageStore.LoserIsAnswered | message_service.go:57-135 | a send that lost the race for its key rolls back, reads the winner and answers with it |
| MessageStore.Service.Send | message_service.go:57-135 | which requests are invalid, repeated, in conflict, refused for an unknown receiver or stored; what is stored belongs to the request, takes the later of the clock and the conversation's time, and otherwise nothing changes |
| MessageStore.Service.InsertMessageAndOutbox | message_store.go:188-292 | one message numbered next, one event for its distinct participants, and the conversation row: all three carry max(updated_at, now), or now in a new conversation |
| DeviceSync.SyncPage | conversation_sync.go:174-244 | the row loop returns the slice of the stream after the cursor, up to page size and snapshot, with the right continuation flag |
| DeviceSync.Serve | conversation_sync.go:144-245 | a missing conversation is not found; each rejection happens exactly for its cursor condition; an accepted page is the slice after the cursor under the resolved snapshot, cut at the limit |
| DeviceSync.PagesCoverTheSnapshot | conversation_sync.go:174-244 | while messages keep arriving, pages under one snapshot concatenate to exactly the stream slice (after, snapshot] |
| DeviceSync.FetchContinues | conversation_sync.go:199-244 | whatever has arrived since, further pages carry exactly the messages after the cursor that the requests reach, and the last one ends at the snapshot once they reach it |
| DeviceSync.CommittedNeverConflicts | internal/headlessclient/client.go:231-263 | applying any committed message gives applied, duplicate or gap by its number, never a conflict, and every conversation still holds a prefix of its stream |
| DeviceSync.GrowthKeepsDevice | sync_ack.go:67-97 | the device's invariant survives every growth of the server's streams |
| DeviceSync.DeviceStepKeepsInv | internal/headlessclient/client.go:122-263 | every client or network step (loss, duplication, reordering, crash between statements) keeps prefix and cursor order |
| DeviceSync.AckTable.Acknowledge | sync_ack.go:39-97 | a cursor beyond the conversation's end is refused; otherwise the greatest cursor ever sent is stored and answered |
| DeviceSync.AckStatementsAgree | sync_ack.go:67-97 | the machine's two statements refuse, store and answer as the endpoint does |
| DeviceSync.AnswersAreRecorded | internal/headlessclient/client.go:217-228 | an answer raises the acknowledged cursor to it, settles what it covers so that nothing is sent again, and touches nothing else |
| DeviceSync.AckSettles | internal/headlessclient/client.go:190-229 | from every reachable device state an undisturbed acknowledgement acknowledges everything applied, on client and server |
| DeviceSync.PushedMessageIsApplied | internal/headlessclient/client.go:122-131 | a pushed message that is next in its stream is stored when it is delivered |
| DeviceSync.PagesCatchUp | conversation_sync.go:174-244 | from every reachable device state a page fetched at the client's cursor and delivered moves it by the page limit or to the end of the stream |
| HeadlessClient.Client.Apply | internal/headlessclient/client.go:231-263 | which messages are malformed, duplicates, gaps, conflicts or applied, and the exact change; it is the transition of the machine |
| HeadlessClient.Client.ApplyRealtimeEnvelope | internal/headlessclient/client.go:122-131 | envelopes of another kind or with a cursor that is not their message's are refused, others apply their message |
| HeadlessClient.Client.StartAck | internal/headlessclient/client.go:190-203 | something is sent exactly when the pending cursor is ahead of the acknowledged one |
| HeadlessClient.Client.FinishAck | internal/headlessclient/client.go:214-228 | an answer below the request is refused; otherwise acked rises to it, pending clears if covered, and nothing else changes |
| HeadlessClient.Client.ApplyPage | internal/headlessclient/client.go:168-174 | applying a page extends the stored prefix by exactly the page |
| HeadlessClient.Client.SyncConversation | internal/headlessclient/client.go:133-188 | without interleaved updates what is stored is always a prefix up to the first snapshot; the loop ends with all of it if and only if the conversation exists and no request that the page limit makes necessary fails |
| ConversationSystem.ClientHoldsCommittedPrefix | internal/headlessclient/client.go:231-263 | over every run of sends, lost, repeated and reordered events, pages and crashes, the stored messages are exactly the committed ones numbered 1..AppliedCursor |
| ConversationSystem.CursorsStayOrdered | internal/headlessclient/client.go:190-229 | AckedCursor <= server applied_seq <= AppliedCursor <= last_seq, and nothing pending means acked equals applied |
| ConversationSystem.AcksAreNeverAhead | sync_ack.go:67-97 | the server never answers this client that its cursor is ahead, and no answer is older than its request |
| ConversationSystem.DeliveriesNeverConflict | internal/headlessclient/client.go:241-247 | the conflict branch is unreachable for every message on the wire or in a page |
| ConversationSystem.SnapshotsAreNeverEmpty | conversation_sync.go:164-198 | a committed conversation's first snapshot is at least 1 |
| ConversationSystem.ClientCursorsAreServable | conversation_sync.go:292-312 | paging from the durable cursor is never refused |
| Backoff.DelayBeforeJitter | outbox.go:499-512 | for every attempt the 64-bit loop computes min(base * 2^(attempt-1), cap), and no intermediate value exceeds the cap |
| Backoff.EqualJitter | outbox.go:540-546 | for every draw the result lies between half the delay and all of it |
| Backoff.RetryDelay | outbox.go:499-512 | schedule and jitter together |
| Backoff.JitterCoversUpperHalf | outbox.go:540-546 | the results of the draws are exactly the values from half the delay to twice that half |
| Backoff.ScheduleIsMonotone | outbox.go:499-512 | later attempts never wait less, and never more than the cap |
| Outbox.CompleteEachByRow | outbox.go:251-316 | folding single completions over distinct events equals completing every row by its own outcome |
| Outbox.BatchEqualsSingles | outbox.go:407-439 | the batch statement leaves the same table as the single ones and reports a lost lease exactly when one of them would |
| Outbox.OutboxTable.Claim | outbox.go:322-381 | each claimed row gets a fresh token, one more attempt and the lease in whole milliseconds from now; other rows and fields are unchanged |
| Outbox.OutboxTable.MarkPublished | outbox.go:383-405 | publishes exactly the row that still has the token, otherwise reports the lost lease and changes nothing |
| Outbox.OutboxTable.MarkPublishedBatch | outbox.go:407-439 | publishes exactly the still-owned rows and reports whether all were |
| Outbox.OutboxTable.MarkFailed | outbox.go:441-497 | only the row with the token changes: dead exactly on a permanent failure or at the last attempt, otherwise due after the jittered delay, which lies between half of min(base * 2^(attempt-1), cap) and all of it, or later if the failure asks |
| Outbox.OutboxTable.MarkFailures | outbox.go:287-314 | the loop over failures equals folding them one by one |
| Outbox.OutboxTable.CompleteDeliveryBatch | outbox.go:251-316 | published and failed events of a batch are settled as single completions would settle them |
| OutboxWorkers.TokensCompleteAtMostOnce | outbox.go:322-497 | over every run with crashes and reclaims a token succeeds in at most one completion, and a token replaced by a later claim owns nothing |
| OutboxWorkers.StaleTokensChangeNothing | outbox.go:383-439 | in every state of every run a completion with a replaced or used token changes no row and reports the lost lease, and adding it to a batch changes nothing either |
| OutboxWorkers.RetriesAreBounded | outbox.go:441-497 | an event is rescheduled at most MaxAttempts - 1 times, however often workers died |
| OutboxWorkers.RetriesWait | outbox.go:471-490 | in every run a rescheduled event is not claimed again before its delay is over |
| OutboxWorkers.OnlyOwnTypesAreClaimed | outbox.go:322-345 | in every run only events of the configured types are handed out |
| OutboxWorkers.TerminalStatesAreFinal | outbox.go:383-497 | published and dead exclude each other and never change again; only published rows are cleaned up |
| OutboxWorkers.StartsAreOwnedExactlyWhenTheAttemptFits | outbox.go:119-121 | every publication of every run starts under the row's current token if and only if the attempt timeout is at least 999 ns shorter than the lease as stored in whole milliseconds |
| OutboxWorkers.WholeMillisecondLeasesFit | outbox.go:119-121 | an accepted configuration with a whole-millisecond lease meets that condition exactly when the timeout is 999 ns shorter, and always when the timeout is in whole microseconds |
| OutboxWorkers.FractionalLeaseFails | outbox.go:339-352 | an accepted configuration that does not, because the lease is cut to milliseconds |
| OutboxWorkers.LastMicrosecondFails | outbox.go:231-238 | another one, because the database reads its clock in microseconds |
| OutboxWorkers.ExpiredOwnerCompletes | outbox.go:383-405 | for every accepted configuration, the run in which a lease runs out, nobody reclaims the row, and its owner still completes |
| OutboxWorkers.LongAttemptsLoseTheRow | outbox.go:168-179 | the run in which a publication starts after another worker's reclaim |
| RefreshRotation.TokensFormOneChain | auth.go:680-795 | over every run of concurrent refreshes a session's tokens are one parent chain, exactly its last token is unconsumed, and that token expires with idle_expires_at |
| RefreshRotation.SuccessorsAreUnique | auth.go:743-753 | no token has two successors |
| RefreshRotation.LifetimesAreBounded | auth.go:521-571 | all refresh tokens of a session expire within 365 days of created_at if and only if the creating transaction took at most 275 days; then access tokens do too |
| RefreshRotation.ClientTokenIsRecoverable | internal/headlessclient/client.go:81-120 | the client's durable token is the unconsumed tail, or its stored result has the pending key and yields the tail |
| RefreshRotation.ReplaysAreLateRetries | auth.go:797-858 | a retry of the client's request is answered from the store or revoked, exactly by whether the stored result has expired |
| RefreshRotation.OnlyLateRetriesRevoke | auth.go:832-858 | over a whole run none of the client's sessions is revoked as a replay if and only if every retry is handled before its stored result expires |
| RefreshRotation.RotationsBeginAlive | auth.go:687-716 | in every run a rotation that commits was begun while its token was unexpired and its session unrevoked, used within 90 days and younger than 365 days |
| RefreshRotation.DeadSessionsNeverRotate | auth.go:687-716 | once a session is revoked or expired and no refresh of it is under way, no token of it ever gets a successor |
| RefreshRotation.LogoutKills | auth.go:287-295 | a logged-out session is dead in that sense |
| RefreshRotation.RetryOfALostResponse | auth.go:797-858 | from every reachable state the retry after a lost response ends with the client holding the tail, or, too late, with the session revoked |
| RefreshRotation.LateRetryExample | auth.go:832-858 | a run in which the client loses its session to a late retry |
| RefreshRotation.SlowLoginExample | auth.go:521-571 | a run whose creating transaction takes more than 275 days, after which a token outlives the 365 days |
| RefreshServer.AuthServer.CreateSession | auth.go:521-571 | the rows of a new session, and that chains stay sound |
| RefreshServer.AuthServer.RotateRefreshToken | auth.go:680-795 | a token is issued exactly for an unconsumed, unexpired token of a session that is unrevoked, used within 90 days and younger than 365 days; all new rows with their lifetimes, and the answer otherwise |
| RefreshServer.AuthServer.HandleUsedOrInvalidRefresh | auth.go:797-858 | a consumed token of a living session gets its stored answer under its key and within its lifetime, or revokes the session; everything else is refused and changes nothing |
| RefreshServer.SoloRefreshIsAPath | auth.go:680-858 | the statements of that refresh, named in program order for each branch, lead through the step machine to that outcome |
| RefreshServer.RepeatedRefresh | auth.go:797-858 | repeating a request with its key within ten minutes gives the same answer and changes nothing; any other repetition revokes |
| RefreshServer.RefreshFile.StartRefresh | internal/headlessclient/client.go:81-103 | a pending refresh is resumed with its key, never replaced |
| RefreshServer.RefreshFile.CompleteRefresh | internal/headlessclient/client.go:112-119 | the answer is stored only if the pending refresh is still the one that was sent |
| RefreshServer.RefreshFile.PersistAuth | internal/headlessclient/client.go:69-79 | new credentials replace old ones and clear a pending refresh |
| PasswordLogin.ActiveSessionsUseThePresentPassword | auth.go:585-643 | in every interleaving every unrevoked session was opened by verifying the user's present password hash |
| PasswordLogin.PasswordChangeEndsOldSessions | auth.go:414-444 | after a password change commits, no session opened with a hash the user had before is ever unrevoked |
| PasswordLogin.HashesOnlyMoveOn | auth.go:418-434 | a replaced password hash is never current again |
| PasswordLogin.UpdateHashIsAlone | auth.go:416-431 | the exclusive lock of a change excludes checked logins and other changes of that user |
| PasswordLogin.SoloLoginIsAPath | auth.go:585-643 | an undisturbed login is a path of the step machine that opens one session with the present hash |
| PasswordLogin.SoloChangeIsAPath | auth.go:414-444 | an undisturbed password change is a path that replaces the hash and revokes exactly the user's sessions |
| PasswordLogin.LogoutAllRevokes | auth.go:303-310 | logging out everywhere revokes exactly the user's sessions |
| PasswordLogin.CommitLoginKeepsInv | auth.go:592-643 | a login's session, inserted under the share lock, is never missed by a password change |
| PasswordLogin.CommitChangeKeepsInv | auth.go:431-444 | the sessions matched by the revoking update are all that exist when the change commits |
| PasswordLogin.Accounts.CreateIdempotentLogin | auth.go:585-670 | a login is refused exactly when the verified hash is no longer current; a known request returns its session exactly while stored result and session are unexpired and unrevoked, and conflicts otherwise; a new request adds one session |
| PasswordLogin.Accounts.LogInTwice | auth.go:585-670 | a login repeated under its request gets the same session within ten minutes and a conflict later, never a second session |
| PasswordLogin.Accounts.ChangePassword | auth.go:379-445 | refused exactly when the verified hash is no longer current; otherwise the hash changes and every session of the user, and no other, is revoked |
| SqlSplitter.SplitSqlStatements | internal/migrate/migrate.go:504-613 | the five-flag loop with lookahead, at most one flag ever set, computes what the one-character automaton defines |
| SqlSplitter.ScanTag | internal/migrate/migrate.go:582-585 | the inner loop finds the end of a dollar tag |
| SqlSplitter.DollarTurn | internal/migrate/migrate.go:530-538 | searching for the closing tag position by position finds the automaton's match, overlaps included |
| SqlSplitterLaws.InputIsCutAtTopLevelSemicolons | internal/migrate/migrate.go:592-597 | the pieces make up the input, and a piece ends after a character exactly when it is a semicolon outside every quote, comment and dollar body |
| SqlSplitterLaws.SplitFailsExactly | internal/migrate/migrate.go:603-612 | splitting fails exactly on text that ends inside a quote, block comment or dollar body, and on blank text |
| SqlSplitterLaws.StatementsSplitToThemselves | internal/migrate/migrate.go:504-613 | each returned statement splits to itself |
| SqlSplitterLaws.JoinedStatementsSplitBack | internal/migrate/migrate.go:504-613 | splitting the newline-join of the statements returns the same list |
| SqlSplitterLaws.NothingIsLost | internal/migrate/migrate.go:504-613 | splitting loses, adds and reorders nothing but white space |
| SqlSplitterLaws.WhiteSpaceByCodePoint | internal/migrate/migrate.go:593-606 | what is trimmed, by code point |
| SqlGrammar.SplitFollowsTheGrammar | internal/migrate/migrate.go:504-613 | reading a script as comments up to the newline or the first `*/`, quotes with doubled quotes, dollar bodies up to the next tag, semicolons and other characters gives exactly the statements that splitting returns |
| SqlGrammar.CutsFollowTheGrammar | internal/migrate/migrate.go:592-597 | the cuts are exactly the semicolons outside those comments, quotes and bodies |
| SqlGrammar.UnterminatedExactly | internal/migrate/migrate.go:603-605 | unterminated syntax is reported exactly for text that cannot be read so |
| MigrationRunner.CheckChain | internal/migrate/migrate.go:93-105 | accepts exactly the versions 1, 2, 3, ... |
| MigrationRunner.ValidateApplied | internal/migrate/migrate.go:340-363 | accepts exactly the histories whose versions are 1..k with matching names and checksums; every refusal names a real difference |
| MigrationRunner.Pigeonhole | internal/migrate/migrate.go:357-361 | k keys that include 1..k are exactly 1..k |
| MigrationRunner.ValidateReady | internal/migrate/readiness.go:52-70 | ready exactly when the history is the whole chain; otherwise the reported version is the newest recorded |
| MigrationRunner.Runner.ApplyMigration | internal/migrate/migrate.go:365-408 | one migration, stopped after any durable command: when it is recorded, what ran, and that a script outside a transaction is recorded only with its objects complete |
| MigrationRunner.Runner.ExecAll | internal/migrate/migrate.go:393-397 | the statement loop, stopped anywhere |
| MigrationRunner.Runner.UpAll | internal/migrate/migrate.go:108-154 | the whole run of `up`, stopped anywhere |
| MigrationRunner.Runner.BaselineAt | internal/migrate/migrate.go:156-232 | a baseline is recorded exactly for target 15 or 16 on tables without a history and with that fingerprint; the history is then the first migrations and nothing else changes |
| MigrationRuns.UpKeepsPrefix | internal/migrate/migrate.go:108-154 | from any database: a foreign history is refused untouched, otherwise the history only grows to a longer prefix and each new body has run once |
| MigrationRuns.SuccessfulUpIsReady | internal/migrate/readiness.go:52-70 | a successful `up` passes the start-up gate |
| MigrationRuns.UpRespectsMaintenance | internal/migrate/migrate.go:137-145 | while there are messages and the operator has not allowed it, no run records migration 15 or 16; nothing else is refused for maintenance |
| MigrationRuns.HistoryStaysAPrefix | internal/migrate/migrate.go:108-232 | any sequence of runs by binaries with longer or shorter versions of one chain, stopped anywhere, keeps the history an exact prefix; at most one baseline takes effect, and each transactional body after its target, or after the start if none does, runs exactly once, in order |
| Migration14.Migration14RunsAllOrNothing | internal/migrate/migrate.go:382-408 | when an attempt records migration 14, its statements all ran in that attempt if and only if its objects were not complete before |
| Migration14.RecordedShortExactlyWhen | internal/migrate/migrate.go:365-456 | over any sequence of runs, each stopped anywhere, migration 14 ends up recorded although a statement never ran if and only if a baseline, or an `up` that found the objects complete, records it before any `up` got through the whole script |
| Migration14.RanIsAPrefix | internal/migrate/migrate.go:365-408 | over such a sequence the statements that ever ran are the script's first ones, and the last one ran exactly when some `up` got through the whole script |
| Migration14.InterruptedScriptIsRecordedShort | internal/migrate/migrate.go:434-456 | an interrupted script whose objects exist is recorded without its remaining statements |
| Migration14.FourStatementsStoppedAfterTwo | migrations/014_add_message_history_pagination.sql:4-13 | a script of four statements stopped after two is recorded by the next run, and its last two statements never run |
| EventRouting.DecodeMessageCreatedEvent | websocket.go:546-590 | accepts exactly the version 4 events that name a message and list each participant once without a cursor |
| EventRouting.CheckParticipants | websocket.go:561-580 | the recipient loop accepts exactly the lists without repetition of the expected users |
| EventRouting.SentEventsAreAccepted | message_store.go:234-257 | every event written by any interleaving of sends is accepted with the distinct participants as recipients |
| EventRouting.Deduplicate | redis_presence.go:219-230 | each user once, and exactly the positive lists are accepted |
| EventRouting.ReadRecords | redis_presence.go:255-318 | the records and the members kept are exactly those of usable sessions, in order |
| EventRouting.Presence.LookupUsers | redis_presence.go:215-322 | one answer per distinct user, equal to that user's records, and removing stale members changes nobody's records |
| EventRouting.KeptKeepsRecords | redis_presence.go:324-346 | stale members carry no record |
| EventRouting.PublishRemote | realtime_router.go:161-200 | every other instance is published to once, the count is the sum over them in any order, and failure means a failing instance |
| EventRouting.SumOfTaking | realtime_router.go:184-198 | the delivered count does not depend on the order of the instances |
| EventRouting.PublishDirect | realtime_router.go:83-95 | direct routing goes by the records at the moment of the lookup; a failing local hub ends it before the lookup |
| EventRouting.PublishPrepared | realtime_router.go:123-141 | batch routing goes by the snapshot, fails as unprepared exactly for users outside it, and fails with the local hub before that |
| EventRouting.CollectRecipients | websocket.go:485-505 | exactly the recipients of the well-formed events, each once |
| EventRouting.PreparePublishBatch | websocket.go:476-516 | the snapshot covers exactly those recipients with their present records |
| EventRouting.PublishEvent | websocket.go:518-544 | an event of a prepared batch never meets an unprepared user; it is published exactly when no recipient's hub or instance refuses, and malformed events fail for good |
| EventRouting.RouteBothWays | realtime_router.go:83-141 | while presence is unchanged, publishing to a user through a prepared batch and directly agrees on failure and, on success, on reach and count; also for users nobody addresses and an unreachable Redis |
| ContractMigration.RowNumbersAreExact | migrations/016_contract_conversation_sync.sql:56-67 | row numbers in (created_at, id) order are exactly 1..n, each once |
| ContractMigration.RepairAppends | migrations/016_contract_conversation_sync.sql:56-72 | existing cursors stay, repaired messages are numbered after last_seq by rank, and nothing else of a message changes |
| ContractMigration.RepairKeepsCreationOrder | migrations/016_contract_conversation_sync.sql:56-72 | in a conversation repaired messages follow all older cursors, by creation time and then identity |
| ContractMigration.RepairAddsNothingElse | migrations/016_contract_conversation_sync.sql:28-54 | conversations are added exactly for pairs of messages without a cursor, existing identities stay, and members are added only for participants of such messages |
| ContractMigration.RepairKeepsStreamsExact | migrations/016_contract_conversation_sync.sql:56-83 | afterwards every conversation's messages carry exactly 1..last_seq |
| ContractMigration.RepairAddsMembers | migrations/016_contract_conversation_sync.sql:40-54 | the participants of repaired messages are members of their conversation |
| ContractMigration.PendingEventsAreRebuilt | migrations/016_contract_conversation_sync.sql:92-122 | pending events of versions 1 to 3 become events the publisher accepts, from the message row, unlocked and ready at their old time or now; all others are unchanged |
| ContractMigration.MigrationSucceedsExactly | migrations/016_contract_conversation_sync.sql:9-138 | the migration goes through exactly without half cursors, unknown versions or unready version 4 events, in a database that has every object it drops |
| ContractMigration.Database.Contract | migrations/016_contract_conversation_sync.sql:4-140 | the statements in order, the final drops included, all or nothing |
| StateFile.FileStore.NormalizeState | internal/headlessclient/store.go:216-226 | absent maps become empty ones, everything else stays |
| StateFile.FileStore.Persist | internal/headlessclient/store.go:153-214 | the replacement in its order, stopped at any step: what the path names, and what it could name after a power loss |
| StateFile.FileStore.Update | internal/headlessclient/store.go:104-152 | load, change and replace; a failing read, an unreadable file, a refused change and a failing step each leave what they should |
| StateFile.FileHoldsWhatTookEffect | internal/headlessclient/store.go:104-214 | over any sequence of updates without power losses the file holds exactly those that read the file, were accepted and passed the rename, in order |
| StateFile.ErrorsMayHideChanges | internal/headlessclient/store.go:200-213 | in such a sequence an update reports success exactly if it took effect and the directory was forced: an error hides a change exactly when only the directory steps failed |
| StateFile.UpdatesAreAtomicAndDurable | internal/headlessclient/store.go:104-214 | over any sequence of updates, failures and power losses the file is always readable and made of whole updates in order, each of which got past the rename, and no update that reported success is missing |
| Packet.SharesAreFair | internal/reliabilitylab/packet.go:34-53 | the shares sum to the total, are at least 1 and differ by at most 1 |
| Packet.ClaimsAreAPrefix | internal/reliabilitylab/packet.go:57-100 | under every interleaving the claimed slots are a prefix in one-to-one correspondence with the credits |
| Packet.ReceiptsNeverDiffer | internal/reliabilitylab/packet.go:57-100 | repeated claims return the same receipt, and no two users hold one slot |
| Packet.ExhaustedExactlyWhenFull | internal/reliabilitylab/packet.go:79-87 | exhaustion is reported exactly when all slots are taken by others |
| Packet.CreditsAreConservedExactlyWhen | internal/reliabilitylab/packet.go:110-120 | over a whole run every credit is in the outbox or received if and only if no delivery that started before the claim's commit deletes an undelivered intent |
| Packet.CommittedIntentsAreSafe | internal/reliabilitylab/packet.go:108-120 | deliveries of committed intents lose nothing |
| Packet.MoneyIsConserved | internal/reliabilitylab/packet.go:57-120 | received, owed and unclaimed amounts add up to the packet's total |
| Packet.EarlyDeliveryExample | internal/reliabilitylab/packet.go:118-118 | a run that loses a credit |
| Packet.RepeatedClaim | internal/reliabilitylab/packet.go:72-75 | a repeated claim changes nothing |
| Packet.SoloClaimIsAPath | internal/reliabilitylab/packet.go:57-100 | the statements of an undisturbed claim, named for each outcome, lead through the step machine to the tables and receipt of the call |
| Packet.PacketStore.CreatePacket | internal/reliabilitylab/packet.go:34-53 | which allocations are refused, and the rows of the others |
| Packet.PacketStore.ClaimSlot | internal/reliabilitylab/packet.go:57-100 | the outcome and rows of one claim |
| Packet.PacketStore.DeliverCredit | internal/reliabilitylab/packet.go:110-120 | the two statements of a delivery, with a crash between them |
| CacheIntents.StaleEntriesAreLateRefills | internal/reliabilitylab/cache.go:20-59 | in every run an entry is the newest value, or its invalidation is pending, or it was loaded before the newest commit and stored after the acknowledged delete |
| CacheIntents.LateRefillExample | internal/reliabilitylab/cache.go:20-59 | a run that ends in the third of these cases: an old entry whose invalidation was acknowledged |
| CacheIntents.OnlyLateRefillsGoUnguarded | internal/reliabilitylab/cache.go:30-34 | an old entry loses its pending invalidation exactly by a late store, or by the acknowledgement after one |
| CacheIntents.SoloReadIsAPath | internal/reliabilitylab/cache.go:20-36 | an undisturbed read that misses, or whose GET fails, is a path of the step machine with the outcome of the call |
| CacheIntents.SoloInvalidationIsAPath | internal/reliabilitylab/cache.go:48-59 | so is an undisturbed invalidation |
| CacheIntents.Cache.ReadValue | internal/reliabilitylab/cache.go:20-36 | hit, miss, missing key, and failing GET or SET |
| CacheIntents.Cache.UpdateValue | internal/reliabilitylab/cache.go:38-46 | value, version and intent move together |
| CacheIntents.Cache.InvalidateEntry | internal/reliabilitylab/cache.go:48-59 | undisturbed, entry and intent go together; without an intent, or when the delete fails, nothing happens |

## Left out

- HTTP parsing, JSON encoding, request identifiers, rate limiting, metrics and tracing: plumbing around the protocols.
- Argon2, AES-GCM, SHA-256 and token generation: taken as injective or fresh values.
- WebSocket reading, writing, pings and hub shutdown: library behaviour; a hub is a count of sockets per user.
- Redis presence registration, time limits and scripts: a lookup sees one snapshot; removing a stale member may race a registration, which is not modelled.
- Redis and PostgreSQL failures beyond a failing or interrupted call, and clock differences between hosts.
- Message history pages, the fencing experiment and `rate_limit.go`: smaller forms of the paging, lease and counting arguments.
- StateFile.FileStore.Persist: the file's encoding and encryption; a file holds a state or is garbage. The other modules use an update as one atomic step.
- Persisting credentials that a repeated login returned after they were already refreshed: the client is taken to persist each session's first tokens once, right after login.
- Realtime updates interleaved with `SyncConversation`: safety is covered by the step machine; the loop's success is stated without them.
- OutboxWorkers: a statement reads the clock at the moment it takes effect; in PostgreSQL it reads it when its transaction begins, which is earlier.
- OutboxWorkers: the deadline check and the start of a publication (outbox.go:231-238) are one atomic step; a worker that stalls between them is not modelled.
- The order in which `claim` selects rows and the text kept in `last_error`: any selection of claimable rows is allowed.
- Backoff.EqualJitter: the random draw is a parameter.
- Schema fingerprints, the catalogue SQL of migrations 001 to 015 and unwrapping BEGIN and COMMIT lines: a migration carries its text and a flag.
- SqlSplitter.SplitSqlStatements: text is a sequence of Unicode characters, so invalid UTF-8 bytes are not modelled.
- EventRouting.Presence.LookupUsers: the sorting of user identifiers, which only orders the pipelined commands, and Redis answers of the wrong length.
- ContractMigration.RepairKeepsStreamsExact: conversation timestamps and member join times.
- Packet: user and packet names are byte strings; the deferred allocation triggers are implied by the proved invariant.
- CacheIntents.StaleEntriesAreLateRefills: expiry is an entry vanishing at any time, so no bound on how long a stale entry lives is stated.
