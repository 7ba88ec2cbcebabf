# Server management services: verified model

The repository is a set of Go services around a table of monitored servers. This project models the parts in which
state is carried across services, processes and crashes, and proves what they promise together.

- **Change propagation** (`ServerEvents`, `ServerTable`, `ManagementService`, `ImportRules`, `Outbox`, `OutboxRelay`,
  `Replica`, `Consumer`, `Overtaking`, `LateReplay`, `EndToEnd`, `Convergence`). The management service commits a
  server row and an outbox event together, a relay publishes the events to a stream in batches, and a consumer applies
  them to a replica.
  Pipelines may take effect in part, marks may get lost, the relay and the consumer may crash between any two commands.
  The replica shows a prefix of the stream, agrees with the table when everything is drained, and can always get there.
- **Retry and dead letters** (`Subscriber`, `StaleClaims`, `Recovery`). Every Redis command and handler call is one
  step, commands may fail unnoticed and a group may crash between any two. No delivered message is lost, the retry
  counters that the groups of a stream share bound the handler calls of the claim path exactly, and recovery ends exactly
  when it should. The monitoring service's subscriber is the same code as the reporting one cited below.
- **Sessions** (`Sessions`, `SessionEffects`, `AuthService`). Refresh-token rotation with reuse detection as described in
  section 4.14.2 of RFC 9700, final revocation, what each call leaves alone, and the agreement of the Redis revocation
  keys with the database.
- **Monitoring** (`StatusMachine`, `WorkQueue`, `Sweeper`, `Flusher`). The status machine and the changes it publishes,
  the leader lock with the polling queue, the heartbeat sweeper, and the buffered observation logger.

Runs are sequences of steps on values, and the theorems are about all runs. Each imperative core file is a class, and its
calls are proved to be runs or single steps: of `Outbox` for `OutboxRelay`, of `ServerTable` for `ManagementService`, of
`Sessions` for `AuthService`, of `Subscriber` for the claim pass in `StaleClaims`, of `WorkQueue` for `MonitoringApp`, of
`Sweeper` for `AgentMonitor`, of `Flusher` for `BufferedLogger`. `MonitoringService` makes the transitions and publishes
the changes of `StatusMachine`, whose consumer is `ManagementService.ConsumeStatuses`; `ReportingReplica` does to its
table what the `Handle` step of `Consumer` does; the recovery loop of `PendingEntries` is specified by the functions of
its own module.

Assumptions, all of them visible as preconditions, as step guards or as hypotheses on runs: one relay; two events about
one server are created in commit order (the row lock is taken before the event is made), while events about different
servers interleave freely; service calls and handler calls are atomic; streams are not trimmed; database ids, UUIDs and
token hashes are fresh or injective; a claimed message is stale, so the main loop of its group is not working on it.
Acknowledgements, whose errors the code ignores, and replies to reads may be lost in the models of the subscribers; the
prefix, end-to-end and convergence theorems about the replica are about clean runs, which `Consumer.Clean` defines: no
handler error, no lost acknowledgement, no lost reply to a read that takes entries, no recovery read that fails over
pending entries. For each of these four faults the exact condition under which it is harmless is a theorem.

What the code does not promise, contrary to first reading or to its documentation:

- `docs/architecture-doc.md:567` says that redelivery leaves one correct final state however often events are sent,
  because handlers upsert. That holds for a redelivery before any newer entry. An entry left pending can be overtaken by
  newer ones, and the drained replica can be wrong for good (`Overtaking.OvertakenUpdateIsLost`). A recovery read that
  fails is harmless exactly if nothing is pending (`Overtaking.FailedRecoveryHealsIff`), a lost reply to a read of new
  entries exactly if it took none (`Overtaking.LostReplyHealsIff`), and a handler error or a lost acknowledgement exactly
  in a full recovery page, which is read again, if a later entry behind the page is about the same server or the last
  one about it leaves the same name and address (`LateReplay.EntryLeftBehindHealsIff`).
- A dead-letter append whose error is ignored loses the message (`Subscriber.FailedAppendLoses`), and nothing else does
  (`Subscriber.LostWasDropped`): an attempt loses its message exactly at the retry limit when the append fails and the
  acknowledgement works (`StaleClaims.RedisSubscriber.ProcessOne`).
- Recovery never ends exactly if from some read on every page is full and the handler fails on all of it
  (`Recovery.RecoveryEndsIff`).
- A failed length check is taken for an empty queue (`WorkQueue.FailedCheckSnowballs`), which is harmless exactly if the
  queue is empty (`WorkQueue.FailedCheckIsHarmlessIff`).
- A heartbeat between a sweep's evaluation and its removal leaves an online server unwatched
  (`Sweeper.HeartbeatDuringSweepIsLost`); the steps that do so are characterised by `Sweeper.ReportedIffUndisturbed`. A
  threshold above 1 makes the sweeper's single failure ineffective (`Sweeper.ThresholdOneIsNeeded`).

## Model

| member | source | states |
|---|---|---|
| `EndToEnd.ReplicaAgreesWithTable` | sms-reporting/internal/consumer/event_consumer.go:55-115 | in every clean run of services, relay and consumer with rollbacks, partial publishing, lost marks and crashes, a drained system's replica has the names and addresses of the servers table |
| `EndToEnd.StepKeepsInv` | sms-management/internal/worker/outbox_relay.go:56-89 | every clean step of the combined system keeps the invariants of all three parts, and the replica's prefix never shrinks |
| `Convergence.ReplicaCanConverge` | sms-management/internal/worker/outbox_relay.go:34-50 | from every state that a clean run reaches, without further changes, relay and consumer can go on until the replica agrees with the table |
| `Convergence.DrainOutbox` | sms-management/internal/worker/outbox_relay.go:56-89 | fault-free ticks with any batch size of at least one process every row |
| `Convergence.DrainConsumer` | sms-reporting/internal/infrastructure/messagebroker/redis_subscriber.go:36-120 | after a crash anywhere, recovery and reading can bring the pending list and the stream to the end |
| `Outbox.ReplaySafe` | sms-management/internal/repository/impl/outbox_repository_impl.go:37-48 | the stream followed by the unprocessed events in creation order folds to the same table as all committed events |
| `Outbox.RelayIsReplaySafe` | sms-management/internal/worker/outbox_relay.go:56-89 | replay safety after every run of commits, fetches, partly failing publishes, marks, lost marks and crashes |
| `Outbox.DrainedStreamRebuilds` | sms-management/internal/worker/outbox_relay.go:76-88 | with nothing unprocessed the stream alone rebuilds the table, duplicates included |
| `Outbox.StepKeepsInv` | sms-management/internal/infrastructure/messagebroker/redis_publisher.go:29-47 | every relay step keeps: processed rows form prefixes per server, and a server with its newest row processed ends in the stream with that row's event |
| `Outbox.FetchedBatchOk` | sms-management/internal/repository/impl/outbox_repository_impl.go:37-41 | whatever the ordered, limited query returns keeps each server's commit order and skips none of its earlier rows |
| `OutboxRelay.OutboxRelay.GetUnprocessed` | sms-management/internal/repository/impl/outbox_repository_impl.go:37-41 | returns the oldest unprocessed rows in creation order, up to the limit |
| `OutboxRelay.OutboxRelay.PublishOutboxBatch` | sms-management/internal/infrastructure/messagebroker/redis_publisher.go:24-51 | appends the events of exactly the commands that take effect, in batch order; without an error that is the whole batch |
| `Outbox.MarkKeepsInv` | sms-management/internal/repository/impl/outbox_repository_impl.go:43-48 | marking a fully published batch keeps the processed rows of every server a prefix of its history and the stream ending with its newest processed event |
| `OutboxRelay.OutboxRelay.ProcessOutboxEvents` | sms-management/internal/worker/outbox_relay.go:56-89 | one tick is a run of the relay steps; the stream grows by the commands that take effect, and the batch is marked exactly if all of it was published and the mark works |
| `ServerEvents.FoldIsLastWriter` | sms-reporting/internal/repository/impl/reporting_repository_impl.go:42-63 | a table built by keyed upserts and deletes depends only on each server's last event |
| `ServerTable.RunKeepsInv` | sms-management/internal/service/server_service.go:145-153 | after every run of transactions the configuration columns equal the fold of all events, and stored names and addresses are trimmed and pairwise distinct |
| `ServerTable.TxKeepsInv` | sms-management/internal/service/server_service.go:253-261 | each kind of transaction keeps agreement, uniqueness and the creation order of events |
| `Text.TrimFixesTrimmed` | sms-management/internal/repository/impl/server_repository_impl.go:83-85 | trimming a stored text again changes nothing, so whole-row writes by the status consumer keep it |
| `Text.TrimCutsSpace` | sms-management/internal/repository/impl/server_repository_impl.go:30-31 | trimming cuts white space off both ends and nothing else |
| `Text.ContainsIff` | sms-management/internal/service/server_service.go:205-207 | the key format check finds the phrase exactly if it stands anywhere in the key |
| `ManagementService.ManagementService.GetByName` | sms-management/internal/repository/impl/server_repository_impl.go:59-69 | finds a row with the trimmed name if there is one, or reports a database error |
| `ManagementService.ManagementService.GetByIPv4` | sms-management/internal/repository/impl/server_repository_impl.go:47-57 | finds a row with the trimmed address if there is one, or reports a database error |
| `ManagementService.ManagementService.Create` | sms-management/internal/repository/impl/server_repository_impl.go:29-33 | stores the trimmed row under a fresh id, unless the statement fails or a unique index objects to the trimmed texts |
| `ManagementService.ManagementService.UpdateRow` | sms-management/internal/repository/impl/server_repository_impl.go:83-98 | writes the trimmed row, or reports a database error, a missing row or a clash and changes nothing |
| `ManagementService.ManagementService.CheckConnection` | sms-management/internal/service/server_service.go:195-216 | reports no problem exactly for acceptable connection fields, and names the cause otherwise |
| `ManagementService.ManagementService.CreateServer` | sms-management/internal/service/server_service.go:79-160 | succeeds exactly if name and address are free after trimming, the fields acceptable, the key encryptable and no database access fails; then stores, under the next id, an unknown server with the trimmed texts and the columns its method uses, and one created event; else changes nothing; never hits a unique index |
| `ManagementService.ManagementService.CommitCreate` | sms-management/internal/service/server_service.go:145-157 | the row under the next id and its created event are committed together or nothing changes |
| `ManagementService.ManagementService.NameFreeFor` | sms-management/internal/service/server_service.go:174-183 | the skipped check for an unchanged name is sound: free exactly if no other server has the trimmed name; a read error only where a read is made |
| `ManagementService.ManagementService.IPv4FreeFor` | sms-management/internal/service/server_service.go:237-247 | the same for the address |
| `ManagementService.RepeatedUpdateChangesNothing` | sms-management/internal/service/server_service.go:185-251 | sending any update a second time leaves the row that the first one left, status included |
| `ManagementService.BlankUpdateKeepsRow` | sms-management/internal/service/server_service.go:185-193 | an update that repeats name, address and method and leaves the rest blank leaves the stored row as it is |
| `ManagementService.ManagementService.PrepareUpdate` | sms-management/internal/service/server_service.go:163-251 | produces a row exactly for an allowed update, that row clashes with no other, and every error has its cause |
| `ManagementService.ManagementService.CommitUpdate` | sms-management/internal/service/server_service.go:253-261 | the row and its updated event are committed together or nothing changes |
| `ManagementService.ManagementService.UpdateServer` | sms-management/internal/service/server_service.go:162-268 | column by column: sent port, user, endpoint and key where they are not empty and the stored ones otherwise, trimmed texts, the status reset exactly if method or address text change; succeeds exactly if those values are acceptable and free and nothing fails; then the row is replaced and one updated event appended, else nothing changes; never hits a unique index |
| `ManagementService.ManagementService.DeleteServer` | sms-management/internal/service/server_service.go:270-300 | succeeds exactly if the server is stored and nothing fails; then the row is gone and one deleted event is appended, else nothing changes |
| `ManagementService.ManagementService.ProcessStatusMessage` | sms-management/internal/worker/status_consumer.go:46-102 | writes at most the status column of the announced server, only when it differs; errors exactly on an unreadable payload or a failing write; otherwise the table is the old one |
| `ManagementService.ManagementService.ConsumeStatuses` | sms-management/internal/worker/status_consumer.go:76-101 | over any sequence of delivered statuses the stored status and the number of writes are those of `StatusMachine.Consume`, and no other column or row changes |
| `ManagementService.ManagementService.FindByNamesOrIPv4s` | sms-management/internal/repository/impl/server_repository_impl.go:71-81 | the rows found decide for every asked-for name and address as the whole table would, or the query fails |
| `ManagementService.ManagementService.Lookup` | sms-management/internal/service/import_export.go:80-97 | the two maps answer for every row of the batch what the whole table would, or the query fails |
| `ManagementService.ManagementService.FilterBatch` | sms-management/internal/service/import_export.go:99-113 | the in-batch maps accept and reject the rows that one-by-one insertion does |
| `ManagementService.ManagementService.BatchCreate` | sms-management/internal/repository/impl/server_repository_impl.go:111-116 | inserting the valid rows never meets a unique index; a failing statement inserts none |
| `ManagementService.ManagementService.CreateEvents` | sms-management/internal/service/import_export.go:121-129 | one created event per inserted row, in order |
| `ManagementService.ManagementService.CommitBatch` | sms-management/internal/service/import_export.go:115-136 | all valid rows with their events, or nothing |
| `ManagementService.ManagementService.ProcessBatch` | sms-management/internal/service/import_export.go:75-140 | a batch has the outcome of checking and inserting its rows one at a time; it fails exactly on a failing lookup or on a failing insert or commit with something to insert, and then changes nothing |
| `ImportRules.RowAcceptedIff` | sms-management/internal/service/import_export.go:145-175 | a row is accepted exactly if its trimmed cells are a name of at most 255 bytes and an IPv4 address of which neither is stored by then, and rejected exactly if it is neither accepted nor blank |
| `ImportRules.RowEffect` | sms-management/internal/service/import_export.go:145-170 | what a row does is decided by its trimmed cells and what is stored by then: skipped, rejected as malformed or as stored, or stored under the next id as an unknown server checked by ICMP with one created event |
| `ImportRules.ImportedFromFile` | sms-management/internal/service/import_export.go:142-170 | whatever prefix of a file is imported, every added server comes from one of its rows with all its columns and has its created event in order, and all older rows and events are unchanged |
| `ManagementService.ManagementService.ImportServers` | sms-management/internal/service/import_export.go:142-185 | accepts exactly the rows, in order, that row-by-row insertion accepts; counts cover every non-blank row; every added server comes from a row of the file, is unknown and checked by ICMP, and has its created event, and what was there stays; a batch whose lookup, insert or commit fails leaves the result of a prefix of the file |
| `ImportRules.AcceptedAreInserted` | sms-management/internal/service/import_export.go:104-113 | the reported servers are exactly the rows and events that were added, in order, and no old row changes |
| `ImportRules.EveryRowReported` | sms-management/internal/service/import_export.go:101-107 | successes plus failures equal the rows that are not blank |
| `Replica.ReplicateFollowsApply` | sms-reporting/internal/repository/impl/reporting_repository_impl.go:42-47 | the replica's name and address columns follow the table event by event |
| `Replica.EventOwnsItsRow` | sms-reporting/internal/consumer/event_consumer.go:66-97 | an event's entry carries all that the replica stores of it, status text included, and replaces or removes the row of its own server only |
| `Replica.ReportingReplica.HandleServerEvent` | sms-reporting/internal/consumer/event_consumer.go:55-115 | upserts the payload's name, address and status, or UNKNOWN for none, or deletes the row; handles the entry of every outbox event as the event says; other types change nothing; errors exactly on unreadable payloads of known types or database errors, without effect |
| `Replica.ReportingReplica.HandleStatusEvent` | sms-reporting/internal/consumer/event_consumer.go:117-151 | touches the status column only; an unknown server is no error, a database error is |
| `Consumer.PrefixConsistent` | sms-reporting/internal/infrastructure/messagebroker/redis_subscriber.go:36-120 | without handler errors, lost acknowledgements, lost replies to reads that take entries, and recovery reads that fail over pending entries, the replica always shows a prefix of the stream, and that prefix never shrinks, across crashes between effect and acknowledgement |
| `Consumer.StepKeepsInv` | sms-reporting/internal/infrastructure/messagebroker/redis_subscriber.go:66-82 | one step keeps the prefix or extends it by one entry |
| `Consumer.DrainedReplica` | sms-reporting/internal/infrastructure/messagebroker/redis_subscriber.go:48-84 | a drained consumer shows the whole stream |
| `Overtaking.FailedRecoveryHealsIff` | sms-reporting/internal/infrastructure/messagebroker/redis_subscriber.go:98-101 | after a failed recovery read every clean continuation that drains leaves the right replica exactly if nothing was pending |
| `Overtaking.LostReplyHealsIff` | sms-reporting/internal/infrastructure/messagebroker/redis_subscriber.go:48-64 | after a read of new entries whose reply is lost every clean continuation that drains leaves the right replica exactly if it took none |
| `LateReplay.EntryLeftBehindHealsIff` | sms-reporting/internal/infrastructure/messagebroker/redis_subscriber.go:74-118 | after a handler error or a lost acknowledgement every clean continuation that drains leaves the right replica exactly in a full recovery page behind which an entry is about the same server, or where the last entry about that server leaves the same name and address as the one left behind |
| `LateReplay.RunKeepsLate` | sms-reporting/internal/infrastructure/messagebroker/redis_subscriber.go:89-119 | from such a page on every clean run keeps the other servers at a prefix of the stream, and the server of the entry left behind at that entry and what followed its replay |
| `Overtaking.LeftBehindWins` | sms-reporting/internal/infrastructure/messagebroker/redis_subscriber.go:48-82 | the same from every state in which the consumer reads on with an entry left pending |
| `Overtaking.OvertakenUpdateIsLost` | sms-reporting/internal/infrastructure/messagebroker/redis_subscriber.go:98-101 | a run with one failed recovery read at whose drained end the replica keeps the old name of an updated server |
| `Subscriber.NoMessageLost` | sms-reporting/internal/infrastructure/messagebroker/redis_subscriber.go:157-177 | with handler errors and crashes between any two commands every delivered message is pending, handled, in the dead-letter stream, or had its dead-letter append fail |
| `Subscriber.FailedAppendLoses` | sms-reporting/internal/infrastructure/messagebroker/redis_subscriber.go:160-168 | a run whose only failing command is a dead-letter append, at the end of which the message is neither pending, handled nor in the dead-letter stream |
| `Subscriber.LostWasDropped` | sms-reporting/internal/infrastructure/messagebroker/redis_subscriber.go:160-168 | in every state that a run reaches, a lost message had its dead-letter append fail |
| `Subscriber.AckedStaysAcked` | sms-reporting/internal/infrastructure/messagebroker/redis_subscriber.go:76-80 | an acknowledged message never becomes pending again |
| `Subscriber.BatchLeavesFailures` | sms-reporting/internal/infrastructure/messagebroker/redis_subscriber.go:66-82 | a batch of the main loop leaves exactly the messages pending on which the handler failed, and touches no counter, dead letter or other group |
| `Subscriber.PageLeavesFailures` | sms-reporting/internal/infrastructure/messagebroker/redis_subscriber.go:107-114 | so does a recovered page of pending messages |
| `Subscriber.SharedRetryBound` | sms-reporting/internal/infrastructure/messagebroker/redis_subscriber.go:138-184 | with n groups and any crashes the claim path makes at most 2n handler calls for one message, one more per increment that failed or was not answered and two more per lost acknowledgement |
| `Subscriber.RetryBoundReached` | sms-monitoring/internal/infrastructure/messagebroker/redis_subscriber.go:138-184 | for every n some run makes exactly 2n calls |
| `StaleClaims.RedisSubscriber.AttemptOne` | sms-reporting/internal/infrastructure/messagebroker/redis_subscriber.go:157-177 | the attempt on one message with any of its commands failing and the increment possibly unanswered: counters, pending list, handled messages and dead letters after it, with the limit at the third count |
| `StaleClaims.RedisSubscriber.ProcessOne` | sms-reporting/internal/infrastructure/messagebroker/redis_subscriber.go:158-168 | an attempt loses its message exactly at the limit when the append fails and the acknowledgement works, and leaves all other messages alone |
| `StaleClaims.RedisSubscriber.ClaimPage` | sms-reporting/internal/infrastructure/messagebroker/redis_subscriber.go:157-177 | every claimed message is attempted once, all others are untouched, and the page is a run of the subscriber steps, whatever commands fail |
| `Recovery.RecoveryEndsIff` | sms-reporting/internal/infrastructure/messagebroker/redis_subscriber.go:87-120 | with failures that vary from read to read, recovery ends exactly unless from some read on every page is full and the handler fails on all of it |
| `Recovery.ProgressEnds` | sms-reporting/internal/infrastructure/messagebroker/redis_subscriber.go:107-118 | recovery ends if every full page has at least one success |
| `Recovery.FixedFailuresEndIff` | sms-reporting/internal/infrastructure/messagebroker/redis_subscriber.go:107-118 | with a handler that keeps failing on some messages, recovery ends exactly if fewer than 50 of the pending ones are such |
| `Recovery.CleanRecoveryDrains` | sms-reporting/internal/infrastructure/messagebroker/redis_subscriber.go:87-120 | without failures: n / 50 + 1 reads, one handler call per message in id order, nothing left pending |
| `Recovery.PendingEntries.HandlePage` | sms-reporting/internal/infrastructure/messagebroker/redis_subscriber.go:107-114 | calls the handler on the page in order; exactly the failures stay pending |
| `Recovery.PendingEntries.RecoverPage` | sms-reporting/internal/infrastructure/messagebroker/redis_subscriber.go:90-118 | one read takes the first 50 pending messages or all; exactly its failures stay, in order, before the rest |
| `Recovery.PendingEntries.RecoverPendingMessages` | sms-reporting/internal/infrastructure/messagebroker/redis_subscriber.go:89-119 | full reads up to the first short or failing one, with the calls and the pending list they leave, whatever the handler does |
| `Sessions.RotationIsLinear` | sms-identity/internal/service/auth_service.go:160-176 | after every run a session's tokens form one acyclic replacement chain in creation order, all but the last revoked, each of the session's user |
| `Sessions.RefreshesIff` | sms-identity/internal/service/auth_service.go:125-154 | a refresh succeeds exactly for the newest token of an unrevoked session younger than 7 days whose user exists |
| `Sessions.LogoutIsFinal` | sms-identity/internal/service/auth_service.go:190-208 | after a logout no token of the session refreshes in any continuation |
| `Sessions.LogoutAllIsFinal` | sms-identity/internal/service/auth_service.go:210-224 | afterwards any refresh for the user belongs to a session created by a later login |
| `Sessions.ReuseIsFinal` | sms-identity/internal/service/auth_service.go:136-140 | presenting a revoked token has that effect for its user |
| `SessionEffects.LogoutTouchesOneSession` | sms-identity/internal/service/auth_service.go:190-208 | a logout revokes one live session now, with its tokens and its mark, and touches no other session, token or key |
| `SessionEffects.LogoutKeepsOthersRefreshing` | sms-identity/internal/service/auth_service.go:201-205 | tokens of other sessions refresh after a logout exactly if they did before |
| `SessionEffects.LogoutAllTouchesOneUser` | sms-identity/internal/service/auth_service.go:210-224 | a logout everywhere revokes the user's sessions and marks the active ones; sessions, tokens and keys of other users are untouched |
| `SessionEffects.ReuseTouchesOneUser` | sms-identity/internal/service/auth_service.go:136-140 | presenting a revoked token has that effect on its user and none on others |
| `SessionEffects.RefreshTouchesOneToken` | sms-identity/internal/service/auth_service.go:142-176 | a rotation spends one token and issues one of the same session for a week at most and not beyond the session; nothing else changes, and a failing refresh without reuse changes nothing |
| `SessionEffects.AuthenticatedIff` | sms-identity/internal/infrastructure/security/authenticator.go:33-48 | an access token is refused exactly if it is invalid or its session is known to be marked; a missing session or answer is not held against it |
| `Sessions.DeadForever` | sms-identity/internal/repository/impl/auth_session_repository_impl.go:26-35 | a session that is not active never becomes active again |
| `Sessions.StepKeepsInv` | sms-identity/internal/repository/impl/refresh_token_repository_impl.go:35-64 | every call keeps the chain, the expiry and the key invariants |
| `Sessions.KeyExistsIff` | sms-identity/internal/repository/impl/revocation_store_redis.go:21-29 | at every moment of every run a session's key exists exactly from its revocation on for the rounded rest of its life |
| `Sessions.CacheAgreesWithDatabase` | sms-identity/internal/infrastructure/security/authenticator.go:42-48 | up to half a second before a session's end, its key exists, and its access tokens are refused, exactly if it is revoked in the database |
| `Sessions.HalfSecondIsTight` | sms-identity/internal/repository/impl/revocation_store_redis.go:21-29 | one nanosecond later that fails |
| `Sessions.TtlIsTight` | sms-identity/internal/repository/impl/revocation_store_redis.go:22-25 | a mark set before the session's end runs out within half a second of that end, on either side |
| `AuthService.AuthService.MarkRevoked` | sms-identity/internal/repository/impl/revocation_store_redis.go:21-29 | sets the key for the rounded remaining lifetime unless nothing remains |
| `AuthService.AuthService.ListActiveByUserID` | sms-identity/internal/repository/impl/auth_session_repository_impl.go:37-43 | lists exactly the user's active sessions |
| `AuthService.AuthService.Login` | sms-identity/internal/service/auth_service.go:68-123 | adds one session of a week and its token and changes nothing else; hands out a token that refreshes exactly if no step fails; a failure in between leaves a session without a token or a token nobody got |
| `AuthService.AuthService.Refresh` | sms-identity/internal/service/auth_service.go:125-188 | rotates exactly if the token refreshes and the reads work, and then changes no other token, session or key; the new token then refreshes and the old one does not; the user is reported missing exactly in the stated case; reuse without a session list changes nothing |
| `AuthService.AuthService.Logout` | sms-identity/internal/service/auth_service.go:190-208 | revokes the session, its unrevoked tokens and marks it, and leaves every other session, its tokens and its key as they were; no effect on sessions that are inactive or cannot be read |
| `AuthService.AuthService.LogoutAll` | sms-identity/internal/service/auth_service.go:210-224 | revokes the user's sessions and tokens, marks exactly those sessions that were active, and leaves all other users' as they were; without the list of sessions nothing changes |
| `StatusMachine.RunIsClosed` | sms-monitoring/internal/service/monitoring_service.go:46-100 | from every stored state and for every threshold the state is a closed function of the history: after a success the failures since decide, and without one the stored status and count with the number of failures |
| `StatusMachine.SuccessForgetsPast` | sms-monitoring/internal/service/monitoring_service.go:59-72 | after one success the past and the stored state are irrelevant |
| `StatusMachine.CountCapped` | sms-monitoring/internal/service/monitoring_service.go:73-92 | from any stored count every check leaves a count within the threshold |
| `StatusMachine.ChangesAreTheLog` | sms-monitoring/internal/service/monitoring_service.go:102-118 | consecutive published statuses differ and the last is the stored one |
| `StatusMachine.TableFollowsMonitoring` | sms-management/internal/worker/status_consumer.go:83-95 | redelivered or not, the published statuses bring the table to the monitored status with one write per change |
| `StatusMachine.MonitoringService.Evaluate` | sms-monitoring/internal/service/monitoring_service.go:36-121 | logs the observation; stores, for each stored status, the next status and count as stated; writes only if they differ, publishes exactly the stored status changes; errors exactly on a failing read or write or a missing state |
| `StatusMachine.MonitoringService.CheckRepeatedly` | sms-monitoring/internal/worker/pool.go:50-113 | successive evaluations of one server store the run of its history, log every observation and publish exactly its changes |
| `WorkQueue.QueueNeverSnowballs` | sms-monitoring/internal/app/run.go:93-135 | with any producers and workers, sections shorter than the lock and length checks failing over an empty queue only: one producer at a time, no server queued twice, everything pushed is popped once and in order before the next push |
| `WorkQueue.FailedCheckIsHarmlessIff` | sms-monitoring/internal/app/run.go:107-110 | after a failing length check every push leaves the queue without repetition exactly if the queue was empty |
| `WorkQueue.FailedCheckSnowballs` | sms-monitoring/internal/app/run.go:107-110 | a run in which a failing length check queues a server twice |
| `WorkQueue.AcquirerIsAlone` | sms-monitoring/internal/infrastructure/database/redis.go:38-43 | in every run with checks failing over an empty queue only, a producer that gets the lock finds no other in its section |
| `WorkQueue.LockExpiresByNextTick` | sms-monitoring/internal/app/run.go:93-105 | who gets the lock at a tick holds it until two seconds before the next, or until the next if ticks are closer than that, and no longer |
| `WorkQueue.MonitoringApp.PollingServers` | sms-monitoring/internal/app/run.go:113-131 | lists exactly once every known server that has a cached method other than AGENT_PUSH |
| `WorkQueue.MonitoringApp.RunProducerCycle` | sms-monitoring/internal/app/run.go:93-135 | a cycle is a run of one producer's steps; it takes the lock exactly if it is free or expired, pushes only with it over an empty or unknown queue, and then every polled server once unless a command fails |
| `WorkQueue.MonitoringApp.PopServer` | sms-monitoring/internal/worker/pool.go:58-75 | takes the front of the queue |
| `Sweeper.EachSilenceReportedOnce` | sms-monitoring/internal/worker/sweepers/agent_sweeper.go:48-81 | every push server silent for the timeout is offline when a sweep ends, absent servers stay offline, at most one failure per silence, and only servers silent for the timeout or heard of since the fetch are failed |
| `Sweeper.StepKeepsInv` | sms-monitoring/internal/worker/consumers/stream_consumer.go:86-117 | registrations, heartbeats, deletions and each half of a sweep keep the invariant |
| `Sweeper.ReportedIffUndisturbed` | sms-monitoring/internal/worker/sweepers/agent_sweeper.go:73-79 | the step before a removal leaves an online push server unwatched exactly if it is a published heartbeat or a not-offline registration of that server, or its failing evaluation |
| `Sweeper.HeartbeatDuringSweepIsLost` | sms-monitoring/internal/worker/sweepers/agent_sweeper.go:73-79 | a heartbeat between evaluation and removal leaves the server online and unwatched |
| `Sweeper.ThresholdOneIsNeeded` | sms-monitoring/internal/worker/sweepers/agent_sweeper.go:73-79 | the sweeper's one failure suffices exactly for thresholds up to 1 |
| `Sweeper.AgentMonitor.Sweep` | sms-monitoring/internal/worker/sweepers/agent_sweeper.go:48-81 | a run of the sweep steps that removes exactly the members silent for the timeout and takes exactly those offline whose evaluation works; nothing if the range query fails |
| `Sweeper.AgentMonitor.HandleHeartbeat` | sms-agent-handler/internal/handler/rest/heartbeat_handler.go:43-72 | the heartbeat step: the score is written first, and then a known server goes online with no failures unless publishing fails |
| `Sweeper.AgentMonitor.SyncServer` | sms-monitoring/internal/worker/consumers/stream_consumer.go:86-107 | caches the server with its status or UNKNOWN, keeps its count, and registers it in the sorted set exactly if it pushes |
| `Flusher.Conservation` | sms-monitoring/internal/infrastructure/elasticsearch/observation_logger.go:56-103 | flushed, batched and queued observations are the accepted ones in order; batches within the size; accepted plus dropped equals logged; everything accepted is flushed at the end |
| `Flusher.ShutdownCompletes` | sms-monitoring/internal/infrastructure/elasticsearch/observation_logger.go:67-72 | after the close the flusher can always finish, with everything flushed |
| `Flusher.DroppedIffBehind` | sms-monitoring/internal/infrastructure/elasticsearch/observation_logger.go:56-65 | in every run an observation is dropped exactly if the flusher is behind by as many accepted ones as the channel holds |
| `Flusher.TickFlushesAll` | sms-monitoring/internal/infrastructure/elasticsearch/observation_logger.go:97-101 | a tick at any point of any run leaves nothing unflushed but what is still queued |
| `Flusher.BufferedLogger.RunFlusher` | sms-monitoring/internal/infrastructure/elasticsearch/observation_logger.go:56-103 | the logger under any schedule of sends, receives, ticks, close and end does what the step model says, so conservation holds of it |
| `Flusher.BufferedLogger.DrainAfterClose` | sms-monitoring/internal/infrastructure/elasticsearch/observation_logger.go:74-103 | the flusher's loop from the close on, with ticks anywhere, is a run of its steps that ends with everything accepted flushed once and in order |

## Left out

- Consumer.PrefixConsistent: is about clean runs, because a later replay applies an old event after newer ones; the exact conditions are in `Overtaking` and `LateReplay`, and retries are covered by the conservation and bound results on `Subscriber`.
- Sweeper.EachSilenceReportedOnce: for threshold 1, with a heartbeat and its evaluation as one step, and with removals from the sorted set that take effect.
- Sweeper.AgentMonitor.HandleHeartbeat: the consumer's evaluation is part of the call, because a late evaluation could undo a sweep.
- Sweeper.AgentMonitor.SyncServer: leaves out the id set, the connection fields of the cache and the single commands, whose errors the code ignores.
- AuthService.AuthService.Refresh: its writes take effect, because the code ignores their errors and a lost one would break the chain.
- AuthService.AuthService.Logout: its writes take effect, for the same reason; parsing the session id is left out.
- AuthService.AuthService.LogoutAll: its writes take effect, for the same reason.
- ManagementService.ManagementService.ProcessStatusMessage: a status is one of the three that monitoring publishes, because the server row has no others in this model.
- ManagementService.ManagementService.ConsumeStatuses: for deliveries that are handled without a fault, because a skipped or retried one changes the order of the statuses.
- Agreement of the replica's status column: update events carry a status that may be stale, so the code does not promise it.
- The read loops of `Subscribe` and the cursor between the pages of a claim pass are steps on values rather than loops of a class, since a crash may cut them anywhere; which messages are stale is left to the environment.
- Several relays, two refreshes of one token at the same instant, claims that overlap a slow main loop, and stream trimming.
- Service calls as several interleaved database statements.
- The duration measurement after a push, shutdown timing, tick intervals and the retries of a bulk flush.
- An unbuffered observation channel, whose sends succeed only when the flusher waits.
- Header detection and reading of Excel files, exports, IP and URL parsing, encryption, hashing, token signing, JSON encoding.
- Report generation, notifications, configuration, logging and authorization.
