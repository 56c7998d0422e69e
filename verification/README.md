# IceQ backend: a verified model

IceQ is an end-to-end encrypted messenger. This project models the parts of its backend that must stay
correct while several services, workers and clients work on the same rows, lose their leases, crash and
try again, and proves what those parts promise.

The model is a set of machines. One step of a machine is one atomic action of the original: a Scylla
lightweight transaction, read or logged batch, a PostgreSQL statement or locked transaction, a Redis
command or script, a broker call. Any other process may take steps in between, and a process that is
never scheduled again has crashed. `Reachable` always means: at the end of some run of such steps from
the empty state. Histories kept in a `log` are never read by a step. Operations that the original
writes as loops or as updates of fields are methods, proved against the step functions.

| files | what they model |
|---|---|
| `IngestTypes`, `Ingest` | one idempotency key of the durable message ingest: claims, takeovers, writes, marks, delivery, acceptance, receipts, and wipe workers editing the same row |
| `IngestIdentity`, `IngestLifecycle`, `IngestRecipients`, `IngestDurability`, `IngestDelivery` | what every run of that machine keeps |
| `IngestEffects` | what each statement and each undisturbed call answers and leaves, in the fields of the row |
| `IngestLosses` | exactly when a live recipient or the outbox row of a stored message is lost |
| `IngestScenarios` | runs that show where a promise of the ingest fails, and when delivery means acceptance |
| `IngestCalls`, `IngestSystem` | whole calls with their retry loops against interleaved processes; all keys together |
| `Accounts` | accounts, sessions, refresh tokens, rows that reference an account, account wipes and leased wipe jobs |
| `AccountsEffects` | when a token passes, and what each session, wipe and worker statement leaves in the tables |
| `AccountsRecords`, `AccountsWipe`, `AccountsSessions`, `AccountsLease` | what every run keeps about references, stored data, wiped accounts, sessions and leases |
| `Requests`, `RequestsEffects`, `RequestsErasure` | authenticated requests, admitted while their account is open and acting later, with the contacts and groups they change; exactly when a wiped account can be freed of the rows that reference it |
| `AccountsRequests`, `AccountsCompletion`, `StrandedJobs` | the auth service, the groups and the requests together; exactly when a wipe job can be completed; runs after which none completes it |
| `AccountsCalls`, `AccountsScenarios` | PanicWipe, processOneJob and a refresh request as whole calls; runs where a promise fails |
| `Groups`, `GroupKeys`, `GroupEffects`, `GroupTables`, `Listings`, `Sets`, `Numbers` | group membership, epochs, sender-key distributions, recipient snapshots |
| `SenderKeyInbox`, `InboxReads` | ordering and paging of the sender-key inbox; whole reads, from the put requests to the concatenated responses |
| `OutboxCursor`, `OutboxEffects`, `OutboxFairness`, `OutboxShares` | the round-robin cursor over the pending outbox, with expired rows that are still stored |
| `PollCursors`, `PollEffects`, `PollScenarios` | long-poll cursors over the accepted-message queue, with acknowledgements over the websocket; runs where a promise fails |
| `Conversations`, `DirectErasure`, `DirectEffects` | direct conversation identifiers, writing direct messages and erasing a user's through the indexes |

Where the code does less than its comments or its evident purpose say, the code is modelled and the
difference is a theorem:

- A claim on an erased ingest row is meant to answer "recipient erased"; it fails while loading the row (`ErasedRetryFails`).
- A receipt from an earlier life of an ingest row can mark a later life delivered; delivered means accepted exactly when the requests of the key name the same recipients (`DeliveryExactlyWhenNamesAgree`).
- A terminalization that read an earlier life's direct row can erase a later life's group row; exactly that loses a live recipient (`CrossedTerminalizationLosesRecipient`, `LiveRecipientKeptExactlyWhen`).
- A delayed outbox delete, or the expiry of an overwritten outbox row, can hit a later life of the same millisecond; exactly that costs a stored message its outbox row (`SharedMillisecondLosesOutbox`, `StoredLacksOutboxExactlyWhen`).
- A logout statement that began early and commits late moves the session epoch back and revives tokens that a refresh-reuse revocation had cut off (`LateLogoutRevivesToken`, `EpochFallsExactlyWhen`).
- The recovery of a failed second wipe request removes the blocklist key of the first, committed wipe, and so does the recovery of a wipe whose own commit was applied but not answered (`FailedSecondWipeDropsKey`, `LostReplyDropsKey`, `KeyGoesEarlyExactlyWhen`).
- The session of a registration is issued without the row lock and can follow a wipe; nothing else gives a wiped account a session (`RegistrationIssuesAfterWipe`, `WipedGainsSessionExactlyWhen`).
- A wiped account can be added to a group or as a contact and can inherit a group, and a request admitted before the wipe can store a row after it; each such row blocks its final erasure (`WipedAccountJoinsGroup`, `WipedAccountAddedAsContact`). The workers complete a job on their own exactly when no such row exists (`WorkersCompleteExactlyWhen`).
- Such rows can stay for ever, because a wiped account is never admitted again: a group that a wiped account inherited, also for the other wiped members; an edge between two wiped accounts; a late row of its own (`InheritanceStrandsJobs`, `LateContactStrandsBoth`, `LateRowStrandsJob`). A job can be completed exactly when a further wipe of its account is still pending or leftover requests leave only rows that open accounts can remove (`JobCompletesExactlyWhen`, `QuietJobCompletesExactlyWhen`).
- Data that names a wiped account can be stored after its cleanup, even after its job is gone (`StoredAfterErasure`, `StoredDataExactlyWhen`).
- The retry delay is min(base * 2^n, cap) for all inputs but base 1, count 62, cap above 2^62 (`BackoffIsCappedPower`).
- Ciphertexts padded with line breaks overflow an inbox page, and the rows cut from it are never returned (`PaddedPageIsCut`, `CutRowNeverReturned`); the pages are the whole inbox exactly when every slice of eight rows fits (`InboxReadsExactlyWhen`).
- Expired rows that are still stored send the outbox cursor back to the start; a row is sure to come up exactly when none is before it, and with the service's limit of 100 seven in a row hide everything behind them (`RowReturnedExactlyWhen`, `BlockHidesRow`). Fewer may do: with that limit a single one can hide a row of the kind a bucket asks for second (`ServiceLimitHidesRow`), while with limits that are multiples of sixteen the kind asked for first comes up exactly when no full share in a row is before it (`LeadingRowReturnedExactlyWhen`).
- Acknowledging a polled message drops another queued message of the same id and another scope that was never returned; polling drops nothing unseen exactly when scopes share no ids (`SharedIdDropsUnseen`, `NothingUnseenDroppedExactlyWhen`).
- Acknowledging the last queued message restarts the sequence, and the next message is invisible to the client's current poll cursor (`NextMessageHidden`, `NewMessageVisibleExactlyWhen`).
- Erasing one receiver can delete the pending outbox row of a message to somebody else that was written under the same client id and millisecond (`SharedKeyLosesOutbox`, `OutboxRowKeptExactlyWhen`).

## Model

| member | source | states |
|---|---|---|
| IngestIdentity.CommitsAgree | backend/message-service/store/durable_ingest.go:251-386 | over any number of workers, takeovers, lease expiries and crashes, all "committed" answers in one life of a row carry one message id, one creation time and one envelope hash |
| IngestIdentity.WritesCoincide | backend/message-service/store/durable_ingest_scylla.go:236-335 | all batches written in one life, by current or stale owners, land on one message row and one outbox key with the same content |
| IngestIdentity.ErasedRetryFails | backend/message-service/store/durable_ingest_scylla.go:191-212 | a claim that meets an erased row always ends in a load error, because the tombstone's hash is cleared |
| IngestIdentity.NeverAnsweredErased | backend/message-service/store/durable_ingest_scylla.go:60-73 | no reachable row makes a claim answer "recipient erased" |
| IngestIdentity.UnsanitizedRowNeedsExactList | backend/message-service/store/durable_ingest.go:229-249 | a worker writes for an unsanitized group row only if its request's recipient list equals the row's exactly |
| IngestLifecycle.StateMovesForward | backend/message-service/store/durable_ingest_scylla.go:60-189 | within one life the state only moves pending, stored, delivered, or to erased, over every run |
| IngestLifecycle.ErasureIsFinal | backend/auth-service/handlers/scyllastore.go:392-403 | an erased row never changes again while it exists: nothing acquires it and no mark applies |
| IngestLifecycle.StoredAtMostOnce | backend/message-service/store/durable_ingest_scylla.go:128-151 | at most one MarkStored applies per life |
| IngestRecipients.ListIsFirstClaimMinusWiped | backend/auth-service/handlers/scyllastore.go:337-383 | the recipient list is the first claim's list with some UINs under wipe removed, in the original order, and the sanitized flag is set exactly when something was removed |
| IngestRecipients.LiveRecipientKept | backend/auth-service/handlers/scyllastore.go:273-403 | in every reachable state a first-claim recipient of a group life that is not under wipe is in the list of the existing row if and only if the row is not erased |
| IngestRecipients.NoRecipientAdded | backend/message-service/store/durable_ingest_scylla.go:60-126 | no replay or takeover puts a UIN into the list that the first claim did not name |
| IngestRecipients.SanitizeLasts | backend/auth-service/handlers/scyllastore.go:240-383 | once a sanitize call reported success for a life, its UIN is absent from that life in every later state |
| IngestLosses.LiveRecipientLostExactlyWhen | backend/auth-service/handlers/scyllastore.go:392-403 | a step removes a live recipient from an existing group row if and only if it is the terminalization of a sanitizer that read a direct row |
| IngestLosses.LiveRecipientKeptExactlyWhen | backend/auth-service/handlers/scyllastore.go:273-403 | over any run within one life a live recipient is still listed at the end if and only if no step of the run was such a terminalization |
| IngestDurability.AcknowledgedMeansWritten | backend/message-service/store/durable_ingest.go:291-386 | before any "committed" answer the message and outbox batch of its life was executed |
| IngestDurability.StoredStaysReplayable | backend/message-service/store/durable_ingest_scylla.go:153-223 | in a life that shares its creation millisecond with no earlier one, a stored, unexpired row has its outbox and message rows with the first claim's content unless a wipe erased them |
| IngestLosses.OutboxLostExactlyWhen | backend/message-service/store/durable_ingest_scylla.go:214-223 | a step costs a stored, unexpired, unerased row its outbox row if and only if it is a delayed delete of its key or the expiry of a row under its key, and then an earlier life had the same key |
| IngestLosses.StoredLacksOutboxExactlyWhen | backend/message-service/store/durable_ingest_scylla.go:153-223 | from a life's batch on, a stored row of that life lacks its outbox row if and only if the last step of the run that touched the key was such a delete or expiry |
| IngestDelivery.DeliveredMeansAccepted | backend/ws-gateway/delivery_consumer.go:50-117 | a delivered row is always backed by durable acceptances of every recipient named in some published envelope of the key |
| IngestDelivery.FirstLifeDeliveredMeansAccepted | backend/message-service/durable_ingest.go:155-212 | in the first life those are the recipients of the row's own envelope, across redelivery, replay and early receipts |
| IngestDelivery.AgreeingNamesSuffice | backend/message-service/durable_ingest.go:66-123 | in any life, if all requests the sender uses the key with name the same recipients |
| IngestScenarios.DeliveryExactlyWhenNamesAgree | backend/message-service/durable_ingest.go:66-123 | for a sender and the requests it uses a key with, as the service decodes them, "delivered means accepted by the row's own recipients" holds in all runs if and only if those that pass validation agree on their names |
| IngestScenarios.CrossedTerminalizationLosesRecipient | backend/auth-service/handlers/scyllastore.go:392-403 | for any valid direct request to another account and any valid group request under one key, a run in which a terminalization erases the group row with a live recipient |
| IngestScenarios.SharedMillisecondLosesOutbox | backend/message-service/store/durable_ingest_scylla.go:214-223 | for any two valid direct requests to one receiver, the first for one second, a run in which the stored second row loses its outbox row to the first life's delayed delete |
| IngestCalls.Service.Persist | backend/message-service/store/durable_ingest.go:251-386 | however others interleave, the call ends within seven own statements and its answer is the outcome the machine records; undisturbed in any reachable state it answers and leaves what PersistAlone says, so a retry of a stored or delivered message gets that message back |
| IngestCalls.Service.SanitizeReceipt | backend/auth-service/handlers/scyllastore.go:240-383 | the loop makes at most eight attempts and reports exhaustion only after all eight, each paid for by a change another process made to the row; success leaves the UIN absent, and an undisturbed call leaves exactly a removed row, a tombstone, a list without the UIN, or the row it found |
| IngestCalls.PaidShrinks | backend/auth-service/handlers/scyllastore.go:337-383 | each change another step makes to the list of an existing row is a strict shrink |
| IngestCalls.Service.AcceptDelivery | backend/ws-gateway/delivery_consumer.go:50-117 | the receipt is sent only after every named recipient's acceptance is recorded; undisturbed exactly those acceptances and that receipt are added |
| IngestEffects.LoadAnswers | backend/message-service/store/durable_ingest_scylla.go:60-126 | in every reachable cell a claim that lost the insert is answered by the fields of the row it loads: the stored message with its own id, time and state if and only if the compared fields agree and the row is stored or delivered, a conflict if and only if the row is not erased and a field differs, a takeover if and only if an agreeing row is pending, unexpired and its lease has run out, an error if and only if the row is gone or erased, and busy otherwise |
| IngestEffects.PersistAlone | backend/message-service/store/durable_ingest.go:251-386 | for every reachable cell, valid or invalid request and row found, what an undisturbed call answers and leaves: a fresh row stored with its message and outbox row, the stored answer, a conflict, busy, an error, or the taken-over row stored under its own id and time |
| IngestEffects.ClaimInsertsExactlyWhen | backend/message-service/store/durable_ingest_scylla.go:24-59 | a claim creates the row if and only if there is none; its lease is the lease time from the claim on, cut at the row's expiry, and its expiry is a day, the seconds asked for, or seven days |
| IngestEffects.TakeoverAppliesExactlyWhen | backend/message-service/store/durable_ingest_scylla.go:101-126 | a takeover applies if and only if the row is still pending under the owner and lease it read; it changes these two fields and nothing else |
| IngestEffects.BatchWritesExactlyWhen | backend/message-service/store/durable_ingest_scylla.go:236-335 | the batch is executed if and only if its rows would not already have expired; it writes the message row with sender, receiver or epoch, text, type and expiry, and the outbox row under the creation time, and no other row |
| IngestEffects.MarkGoesOnExactlyWhen | backend/message-service/store/durable_ingest_scylla.go:128-139 | between batch and mark the owner goes on if and only if the row is pending under its own token and lease, and neither lease nor row has expired |
| IngestEffects.MarkAppliesExactlyWhen | backend/message-service/store/durable_ingest_scylla.go:137-151 | the mark applies if and only if the row is pending under the worker's own token and lease; the row is then stored and the worker answers so with the record's id and time |
| IngestEffects.ReceiptAlone | backend/message-service/store/durable_ingest_scylla.go:153-223 | three undisturbed steps of a receipt mark a stored, unexpired row delivered, delete the outbox row of a delivered one, and change nothing else |
| IngestEffects.DrainsExactlyWhen | backend/message-service/durable_ingest.go:181-194 | a drain of a key publishes its outbox row, with the life and envelope of that row, if and only if the row is there and not due |
| IngestEffects.AttemptAlone | backend/auth-service/handlers/scyllastore.go:240-403 | an undisturbed sanitize attempt deletes the sender's own row, turns a direct row to the UIN or a group row without other recipients into a tombstone, takes the UIN out of any other group list, and leaves expired, erased and other rows alone |
| IngestSystem.KeysAreIndependent | backend/message-service/store/durable_ingest_scylla.go:24-58 | a run of all keys restricted to one key is a run of that key's machine |
| IngestSystem.EveryKeyReachable | backend/message-service/store/durable_ingest_scylla.go:24-58 | so every key of a running system is in a reachable state of its machine |
| IngestSystem.OnlyClockIsShared | backend/message-service/store/durable_ingest_scylla.go:24-58 | the clock moves for all keys at once and by nothing else, and a step of one key leaves the others as they are |
| AccountsWipe.MarkerBracketsWipe | backend/auth-service/handlers/wipejob.go:119-144 | in every reachable state a wiped-account marker exists if and only if the user row and some wipe job of the account exist |
| AccountsWipe.WipedStaysClosed | backend/auth-service/handlers/panicwipe.go:494-590 | from the commit of a wipe on the account is marked or gone in every later state, and a deleted user row never returns |
| AccountsWipe.JobDeletedLast | backend/auth-service/handlers/wipejob.go:501-715 | a job row disappears only through the worker it names, in a run that confirmed every cleanup phase, then the user deletion, then the key deletion, in that order; each confirmation is a cleanup of that store made during the run |
| AccountsWipe.KeyGoesEarlyExactlyWhen | backend/auth-service/handlers/panicwipe.go:471-590 | while the user row exists a wiped account's blocklist key goes if and only if it expires or the recovery of a wipe request of the account removes it, the committed request's own recovery after a lost reply included; no worker removes it |
| AccountsSessions.NoTokenVerifiesAfterWipe | backend/shared/jwt/jwt.go:331-433 | no verification that starts after the commit of a wipe passes, wherever its marker, blocklist and epoch reads fall in the run |
| AccountsEffects.VerifiesExactlyWhen | backend/shared/jwt/jwt.go:331-433 | a token passes if and only if its kind and times fit, its account has no marker at the first read, the token is not on the blocklist at the second, and the user row's epoch is not after its issue time at the third |
| AccountsEffects.RevokedNeverVerifies | backend/shared/jwt/jwt.go:376-390 | from the revocation of a token on, no verification of it that starts passes, in any later state and wherever its three reads fall in the run |
| AccountsCalls.AuthService.VerifyToken | backend/shared/jwt/jwt.go:331-433 | with others running between its reads the call passes exactly when those three readings of the states it meets say so |
| AccountsSessions.NoSessionAfterWipe | backend/auth-service/handlers/login.go:245-300 | after the commit of a wipe, answered or not, neither login nor refresh issues a token of the account or adds a refresh row |
| AccountsEffects.LoginIssuesExactlyWhen | backend/auth-service/handlers/login.go:245-300 | a login issues a pair of tokens, signed in the second of its time and running for 15 minutes and 7 days, and one refresh row under the second, if and only if the account is registered and unmarked |
| AccountsEffects.RotationMeans | backend/auth-service/handlers/refresh.go:97-279 | in every reachable state a rotation is rejected for a gone or marked account, revokes all sessions if the token has no row, consumes an expired row, and otherwise swaps the row for that of a new pair |
| AccountsEffects.OddRotations | backend/auth-service/handlers/refresh.go:225-234 | in any state an access token rotates nothing, and a row of another account is consumed and costs the account its sessions |
| AccountsEffects.CommitsExactlyWhen | backend/auth-service/handlers/panicwipe.go:494-590 | a wipe commits if and only if its request has not committed before and the user row exists; it then leaves marker, epoch and a pending job, takes sessions and references, and touches no other account |
| AccountsSessions.CompletedWipeLeavesNothing | backend/auth-service/handlers/wipejob.go:583-715 | when a job row is deleted no user row, marker, refresh row or referencing row of the account exists, then or ever after; the key can only be there if a later wipe request set it |
| AccountsSessions.StoredDataExactlyWhen | backend/auth-service/handlers/wipejob.go:501-558 | when the job row goes and in every later state, data of the account is in a store if and only if it was written there after that run confirmed the store clean and not cleaned since |
| AccountsSessions.WipedGainsSessionExactlyWhen | backend/auth-service/handlers/register.go:104-109 | a step issues a token of a wiped account if and only if it is the unlocked session of its registration |
| AccountsSessions.ConsumedAtMostOnce | backend/auth-service/handlers/queries.go:97-105 | over all interleavings a refresh token is consumed at most once and a consumed one has no row |
| AccountsSessions.RowsNeverMismatch | backend/auth-service/handlers/refresh.go:225-234 | the account check of a rotation never finds another account's row |
| AccountsSessions.ReuseRevokesAll | backend/auth-service/handlers/queries.go:107-120 | presenting a token without a row leaves the account no refresh row, and a token signed before the revoking transaction began ever passes an epoch read again if and only if a statement writes an epoch no later than the token's second |
| AccountsSessions.EpochFallsExactlyWhen | backend/shared/jwt/jwt.go:464-472 | a session epoch falls if and only if a logout or wipe statement that began before the current epoch writes its own start time |
| AccountsLease.JobChangesOwned | backend/auth-service/handlers/wipejob.go:119-184 | a job row changes only through a claim of a claimable job or a renewal, retry or delete by the worker it names, and a renewal needs an unexpired lease |
| AccountsEffects.ClaimsExactlyWhen | backend/auth-service/handlers/wipejob.go:119-144 | a claim takes a job if and only if it is due, or was claimed and its lease has run out; the row then names the worker and holds the lease asked for, retry count and due time unchanged |
| AccountsEffects.ClaimHolds | backend/auth-service/handlers/wipejob.go:119-133 | another worker can claim the job after that if and only if the lease has run out |
| AccountsEffects.ErasesExactlyWhen | backend/auth-service/handlers/wipejob.go:583-632 | the final transaction goes through if and only if every phase has confirmed and nothing references the account, and takes user row, marker and sessions |
| AccountsLease.LostLeaseStaysLost | backend/auth-service/handlers/wipejob.go:146-184 | a worker no job row names stays so in every run in which it does not claim |
| AccountsLease.RetryDelay | backend/auth-service/handlers/wipejob.go:739-756 | a retry schedules the job min(base * 2^n, cap) later, n being the row's own retry count, and frees it |
| AccountsLease.BackoffIsCappedPower | backend/auth-service/handlers/wipejob.go:832-850 | in 64-bit arithmetic the delay is min(base * 2^n, cap) if and only if not base 1, count 62 and cap above 2^62 |
| AccountsLease.ConfiguredBackoff | backend/auth-service/handlers/wipejob.go:52-61 | with the configured constants it is the delay of the machine for every count |
| AccountsLease.NoJobStranded | backend/auth-service/handlers/wipejob.go:119-133 | every reachable job row is claimable from a fixed finite time on and not before |
| AccountsLease.WorkersCompleteExactlyWhen | backend/auth-service/handlers/wipejob.go:370-724 | from a reachable state, whatever crashed where, the workers can complete a job on their own if and only if no membership, contact edge or row of its own references the account |
| AccountsCompletion.JobCompletesExactlyWhen | backend/auth-service/handlers/wipejob.go:370-724 | from a reachable state of service, groups and requests together some run completes a wipe job, and then erases its account, if and only if a wipe of the account is still pending or requests left over from closed accounts, carried out in some order, leave only rows that open accounts can remove |
| AccountsCompletion.QuietJobCompletesExactlyWhen | backend/auth-service/handlers/wipejob.go:628-632 | with no request of a closed account under way: if and only if the account has no row of its own, every contact edge of it leads to an open account and every group it is in has an open owner |
| AccountsRequests.ReachableProjects | backend/auth-service/main.go:265-307 | every reachable state of the whole is a reachable state of the account machine and of the request machine, and both agree on who is in a group |
| RequestsErasure.ErasableExactlyWhen | backend/shared/jwt/jwt.go:368-374 | the same condition for erasing a closed account, in the request machine: requests are admitted only while their account is open, which is what verification checks, and may act after its wipe |
| RequestsErasure.QuietErasableExactlyWhen | deploy/init/postgres-init.sql:74-113 | the condition without leftovers, read off the rows alone |
| RequestsErasure.FreedMeans | backend/message-service/handlers/queries.go:118-136 | if any run frees a closed account, then the leftovers of that run alone leave only rows that open accounts can remove, whatever open accounts did in between |
| RequestsErasure.LeaveBoth | backend/message-service/handlers/queries.go:126-132 | when a closed member leaves a group in which open members may have stayed on, the heir is the same or an open account |
| Requests.ReachableOk | backend/message-service/handlers/queries.go:86-136 | in every run of requests foreign keys hold, exactly the owner of a group is its admin, and request numbers are not reused |
| RequestsEffects.ErasesExactlyWhen | backend/auth-service/handlers/wipejob.go:197-210 | an account goes if and only if it was wiped and no own row, contact edge or group names it, and nothing else changes |
| RequestsEffects.CommitsExactlyWhen | backend/auth-service/handlers/panicwipe.go:494-590 | the transaction of a wipe closes a registered account, takes exactly the edges that touch it, its own rows and its memberships, and leaves groups without it alone |
| AccountsRecords.ReferenceHoldsUpErasure | deploy/init/postgres-init.sql:74-81 | in every reachable state the user row of a referenced account exists, so while a wiped account is referenced its marker and a wipe job stay |
| AccountsRecords.ContactGoesExactlyWhen | backend/auth-service/handlers/queries.go:258-319 | a contact edge goes if and only if its owner deletes it or a wipe of one of its ends commits |
| AccountsEffects.ContactAppearsExactlyWhen | backend/auth-service/handlers/contacts.go:178-260 | a contact edge appears if and only if one of its ends adds the other, which adds both directions, or its owner blocks the other, both registered |
| AccountsCalls.AuthService.PanicWipe | backend/auth-service/handlers/panicwipe.go:455-613 | success means the account is closed and marked, its job pending, its sessions and references gone; a reported failure leaves no commit of this request unless the reply to the commit was lost, in which case the account is wiped; if the recovery works no key is left; undisturbed the request commits if and only if nothing failed before the commit; undisturbed the tables and the key end as the outcome says, and nothing changes if the key cannot be set |
| AccountsCalls.AuthService.CleanUp | backend/auth-service/handlers/wipejob.go:501-558 | all phases run and the failed ones are collected in order, unless the lease is found lost |
| AccountsCalls.AuthService.DeleteBlocklistKey | backend/auth-service/handlers/wipejob.go:642-676 | at most five attempts; the key is reported deleted if and only if Redis is absent or one of the five succeeds, and no attempt follows a success |
| AccountsCalls.AuthService.ProcessOneJob | backend/auth-service/handlers/wipejob.go:370-724 | with up to five key deletions the call ends; it completes only if no row of the account is left and data of it is stored only where somebody wrote during the call; undisturbed it claims exactly a due job, completes if and only if every statement goes through and nothing references the account, shuts down if and only if the lease is lost then, and is otherwise put off by the delay of its retry count |
| AccountsCalls.AuthService.RefreshRequest | backend/auth-service/handlers/refresh.go:97-279 | the request gets past verification if and only if the three readings of the states it meets pass, never for a wiped account or a revoked token; what it reports is what the rotation did in the state it met, applied also when its reply is lost, and nothing happens if verification fails |
| AccountsScenarios.LateLogoutRevivesToken | backend/shared/jwt/jwt.go:464-472 | a reachable state in which no verification of a revoked token passes, and one late logout statement after which it does |
| AccountsScenarios.FailedSecondWipeDropsKey | backend/auth-service/handlers/panicwipe.go:479-486 | a reachable state with a committed wipe, an existing user row and no blocklist key |
| AccountsScenarios.LostReplyDropsKey | backend/auth-service/handlers/panicwipe.go:585-590 | the same state after a single wipe request whose commit was applied but not answered |
| AccountsScenarios.RegistrationIssuesAfterWipe | backend/auth-service/handlers/register.go:104-109 | a reachable state in which a wiped account has a refresh row |
| StrandedJobs.InheritanceStrandsJobs | backend/message-service/handlers/queries.go:118-136 | a reachable state in which an open owner has added two wiped accounts to its group and left, one of them owns it, and no run completes the job of either |
| StrandedJobs.LateContactStrandsBoth | backend/auth-service/handlers/contacts.go:178-260 | a reachable state in which a contact request admitted before both accounts were wiped has linked them, and no run completes the job of either |
| StrandedJobs.LateRowStrandsJob | backend/auth-service/handlers/panicpin.go:35-39 | a reachable state in which a request admitted before the wipe has stored a row of the account, and no run completes its job |
| StrandedJobs.WipedAccountJoinsGroup | backend/message-service/handlers/groups.go:347-397 | a reachable state in which a wiped account is a group member, which holds up its erasure until the open owner removes it |
| StrandedJobs.WipedAccountAddedAsContact | backend/auth-service/handlers/contacts.go:178-260 | a reachable state in which an open account has added a wiped one as contact, and the edge the wiped account owns survives the open one's removal |
| AccountsScenarios.StoredAfterErasure | backend/message-service/store/durable_ingest.go:251-386 | a reachable state in which a store holds data of an account whose rows and job are gone |
| Groups.EpochDeterminesMembers | backend/message-service/handlers/queries.go:86-136 | over every run a group's epoch never falls, and equal epochs mean equal member sets |
| Groups.OwnerIsAdmin | backend/message-service/handlers/groups.go:170-201 | the owner of every group is a member, so no group is empty, and exactly the owner has role admin |
| Groups.DeletedStaysDeleted | backend/message-service/handlers/groups.go:503-537 | a deleted group never comes back |
| Groups.FirstExists | backend/message-service/handlers/queries.go:126 | a group with members has an heir: longest-standing, smaller UIN on a tie |
| Groups.HeirTakesOver | backend/message-service/handlers/queries.go:126-132 | when the owner leaves, the other member with the earliest join time, the smaller UIN on a tie, owns the group as admin, the others keep their rows and the epoch moves by one |
| GroupTables.GroupDatabase.CreateGroup | backend/message-service/handlers/groups.go:170-201 | the transaction creates a group with epoch 1 whose only member is the owner, as admin |
| GroupTables.GroupDatabase.InsertGroupMember | backend/message-service/handlers/queries.go:86-105 | the statement, updating the tables part by part, does exactly one Add step of the machine and reports authorization and insertion |
| GroupTables.GroupDatabase.RemoveGroupMember | backend/message-service/handlers/queries.go:118-136 | the statement does exactly one Remove step and reports the count of the others; whoever is left keeps row and join time at the next epoch, and a leaving owner is succeeded by the earliest joined |
| GroupTables.GroupDatabase.PutDistribution | backend/message-service/handlers/sender_key_inbox.go:40-73 | the statement does exactly one Put step, reports eligibility and insertion, and after an insertion the key is stored, of the sender's earlier active distributions the three created last remain (larger id on a tie), all of them if there were fewer, and nothing else goes but what had been retired for more than a day |
| GroupEffects.PutsExactlyWhen | backend/message-service/handlers/sender_key_inbox.go:40-73 | in any state a put is stored if and only if sender and recipient are members at the group's current epoch and the key is new; every earlier active distribution of the slot that survives was created after every one deleted, none goes when there were fewer than four |
| GroupEffects.ThreeSurvive | backend/message-service/handlers/sender_key_inbox.go:51-66 | a trim that deletes anything leaves exactly three |
| GroupEffects.AddsExactlyWhen | backend/message-service/handlers/queries.go:86-105 | a member is added if and only if the actor is an admin and the member is new; the epoch moves by one and exactly the active distributions of the old epoch are retired at that time |
| GroupEffects.RemovesExactlyWhen | backend/message-service/handlers/queries.go:118-136 | a member is removed if and only if it leaves itself or the actor is an admin; heir, epoch, retirement and the end of an empty group in the fields of the tables |
| GroupTables.WipeIsLeavingEveryGroup | backend/auth-service/handlers/queries.go:143-153 | the wipe statement does to each of the account's groups and its distributions what leaving would do, and nothing to other groups |
| GroupTables.SnapshotGroupRecipients | backend/message-service/durable_ingest.go:127-153 | the snapshot is all rows of the query if the sender is among them, otherwise an error |
| GroupTables.SnapshotsAgree | backend/message-service/durable_ingest.go:127-153 | two recipient snapshots of a group at one epoch are identical lists, whatever ran in between |
| Listings.ListingUnique | backend/message-service/durable_ingest.go:131 | a strictly ordered listing of a set of rows is unique |
| GroupKeys.UnretiredExactlyCurrent | backend/message-service/handlers/queries.go:96-103 | in every reachable state a distribution is unretired if and only if its epoch is its group's current one |
| GroupKeys.AtMostFourPerSender | backend/message-service/handlers/sender_key_inbox.go:40-73 | no recipient holds more than four distributions of one sender per group and epoch |
| GroupKeys.TrimLeavesThree | backend/message-service/handlers/sender_key_inbox.go:51-66 | deleting from rank four on leaves at most three |
| GroupKeys.RankFilterHidesNothing | backend/message-service/handlers/sender_key_inbox.go:75-90 | every row a read considers has rank at most four |
| SenderKeyInbox.InboxListingUnique | backend/message-service/handlers/sender_key_inbox.go:87-90 | an unchanged inbox has exactly one listing, in which each row occurs once |
| SenderKeyInbox.OrderIsTotal | backend/message-service/handlers/sender_key_inbox.go:89 | any two rows of a read are ordered |
| SenderKeyInbox.BuildPage | backend/message-service/handlers/sender_key_inbox.go:163-188 | the page is the longest prefix of the rows that stays within the response limit |
| SenderKeyInbox.PageCompleteExactlyWhen | backend/message-service/handlers/sender_key_inbox.go:163-188 | a page shows all its rows if and only if they fit together |
| SenderKeyInbox.CanonicalItemSize | backend/message-service/handlers/sender_key_inbox.go:108-112 | an accepted canonical ciphertext has at most 21846 characters and its item at most 22792 bytes |
| SenderKeyInbox.DecodesExactlyWhen | backend/message-service/handlers/sender_key_inbox.go:108 | a text without padding decodes to exactly as many bytes as it takes its characters to encode |
| SenderKeyInbox.PageSizeIs | backend/message-service/handlers/sender_key_inbox.go:163-188 | the counted length of a page is its envelope, its items and a comma between each two |
| SenderKeyInbox.PagesVisitEachRowOnce | backend/message-service/handlers/sender_key_inbox.go:148-188 | with canonical ciphertexts consecutive pages over an unchanged inbox concatenate to the listing: every row once, in order |
| SenderKeyInbox.AllPagesReachExactlyWhen | backend/message-service/handlers/sender_key_inbox.go:148-157 | the pages a client may request cover the listing if and only if it has at most 80008 rows |
| SenderKeyInbox.CutRowNeverReturned | backend/message-service/handlers/sender_key_inbox.go:183-185 | a row cut from its page is in no page |
| SenderKeyInbox.PaddedPageIsCut | backend/message-service/handlers/sender_key_inbox.go:105-112 | eight accepted, line-break padded distributions do not fit a page |
| InboxReads.InboxReadsExactlyWhen | backend/message-service/handlers/sender_key_inbox.go:75-188 | in every reachable state the inbox has exactly one listing, of all considered rows, each once; consecutive page requests, each at its own time and state while those rows stay, concatenate to it if and only if every slice of eight fits a response; the order of that listing is NewestFirst and InboxListsInOrder |
| GroupEffects.NewestFirst | backend/message-service/handlers/sender_key_inbox.go:81-83 | in every reachable inbox, of two rows of one sender and epoch the one created later, the larger id on a tie, is listed first |
| GroupEffects.InboxListsInOrder | backend/message-service/handlers/sender_key_inbox.go:81-90 | of any two rows of a listing the first has fewer later rows of its sender and epoch, or as many and a later epoch, or the same epoch and a smaller sender, or was created later |
| GroupEffects.InboxListsItsRows | backend/message-service/handlers/sender_key_inbox.go:75-90 | a listing holds exactly the rows of the epoch read and those retired within the last day |
| InboxReads.CanonicalInboxReadWhole | backend/message-service/handlers/sender_key_inbox.go:93-188 | after any run whose put requests passed the handler's checks, an inbox of canonical ciphertexts is returned whole, as far as the pages reach |
| InboxReads.SweepKeepsInbox | backend/message-service/handlers/sender_key_inbox.go:76-80 | the expired rows a read deletes are not among those that reads of the current epoch consider |
| InboxReads.PagesTileExactlyWhen | backend/message-service/handlers/sender_key_inbox.go:163-188 | pages of any content concatenate to the rows they cover if and only if every slice fits |
| Listings.ListingExists | backend/message-service/handlers/sender_key_inbox.go:89 | rows of which any two are ordered can be listed |
| OutboxCursor.FetchCursor.Fetch | backend/message-service/store/durable_outbox.go:53-102 | the nested loops over buckets and kinds compute the specified call and leave the specified counter and page positions, for any reader, also when a partition fails or the limit is invalid |
| OutboxCursor.FetchCursor.FetchBucket | backend/message-service/store/durable_outbox.go:64-99 | both kinds of a bucket share its allowance in the order its parity gives |
| OutboxEffects.VisitServes | backend/message-service/store/durable_outbox.go:64-99 | a visit of an odd bucket returns its group rows up to the share and direct rows only in what they leave of it, an even bucket the other way round, and the pages of the two move to the last rows read |
| OutboxEffects.CallBeginsWith | backend/message-service/store/durable_outbox.go:60-68 | the first row of a call is of the kind its first bucket asks for first, whenever that has one |
| OutboxEffects.VisitFailsExactlyWhen | backend/message-service/store/durable_outbox.go:70-86 | a visit fails if and only if a partition it asks fails, and the second kind is asked only if the first leaves room |
| OutboxCursor.ReadPartition | backend/message-service/store/durable_outbox.go:115-142 | the read loop returns the live ones of the rows its query selects, which is cut to the limit first |
| OutboxFairness.CallIsBounded | backend/message-service/store/durable_outbox.go:54-63 | a call returns at most min(limit, 100) rows and at most ceil(limit / 16) of one bucket |
| OutboxFairness.EachBucketLeadsOnce | backend/message-service/store/durable_outbox.go:60 | in any sixteen consecutive calls each bucket is in front exactly once, also across the counter's wrap-around |
| OutboxFairness.VisitProgress | backend/message-service/store/durable_outbox.go:64-99 | a visit of a bucket returns a given row of it or lowers the row's measure, for leading and trailing kind |
| OutboxFairness.EveryRowReturned | backend/message-service/store/durable_outbox.go:53-102 | over an unchanging outbox every direct and every group row with no expired row stored before it is returned, from any cursor and with any positive limits |
| OutboxFairness.EnoughCalls | backend/message-service/store/durable_outbox.go:53-102 | the number of calls that suffices is bounded by the sizes of the two partitions |
| OutboxFairness.BlockHidesRow | backend/message-service/store/durable_outbox.go:88-96 | a block of as many expired rows as a bucket's share hides every row behind it, however many calls are made, once the position is before it |
| OutboxFairness.RowReturnedExactlyWhen | backend/message-service/store/durable_outbox.go:53-142 | some number of calls returns a row from every cursor and with all positive limits if and only if neither it nor a row stored before it in its partition has expired |
| OutboxShares.LeadingRowReturnedExactlyWhen | backend/message-service/store/durable_outbox.go:60-99 | with a limit that is a multiple of sixteen, some number of calls returns a row of the leading kind from every cursor if and only if it is live and no full share of expired rows in succession is before it |
| OutboxShares.SqueezedRowNeverReturned | backend/message-service/store/durable_outbox.go:71-99 | for every limit above sixteen a single expired row of the trailing kind can hide the row behind it for ever, because the leading kind leaves it one row of the share |
| OutboxShares.ServiceLimitHidesRow | backend/message-service/durable_ingest.go:182 | such an outbox exists for the limit the service uses |
| PollCursors.CursorTable.Evict | backend/ws-gateway/router/poll.go:213-219 | the eviction loop drops the oldest cursors from list and map until four are left |
| PollCursors.CursorTable.IssueCursor | backend/ws-gateway/router/poll.go:213-225 | a new cursor enters map and list, then the oldest are evicted |
| PollCursors.CursorTable.AdvanceCursor | backend/ws-gateway/router/poll.go:237-254 | a successor replaces its predecessor if that is still there, otherwise nothing changes |
| PollCursors.BuildResponse | backend/ws-gateway/router/poll.go:181-193 | ordinary items are returned, all items are passed |
| PollCursors.CursorTableInStep | backend/ws-gateway/router/poll.go:213-254 | in every run the cursor map's keys are exactly the list's elements, without duplicates and at most four |
| PollCursors.CursorAdvancesOnce | backend/ws-gateway/router/poll.go:237-254 | each cursor is replaced at most once and a replaced one is never in the table again; what a poll with such a cursor gets is ReplacedCursorRejected |
| PollEffects.UnknownCursorRejected | backend/ws-gateway/router/poll.go:138-149 | a poll that begins with a cursor outside the table is answered with an error in every later state, and changes neither queue, table nor counter |
| PollEffects.ReplacedCursorRejected | backend/ws-gateway/router/poll.go:141-143 | in every reachable state that is what every cursor ever replaced gets |
| PollEffects.PollAlone | backend/ws-gateway/router/poll.go:138-208 | an undisturbed poll with a cursor of the table acknowledges exactly the ids of that cursor, returns the first records beyond its position in order and up to the limit, and leaves a new cursor for them in its place, of all cursors the four newest |
| PollEffects.AnswersExactlyWhen | backend/ws-gateway/router/poll.go:194-208 | the last step of a poll fails if and only if its cursor has gone meanwhile, and otherwise renews the table and records what was returned |
| PollEffects.ReadMeans | backend/ws-gateway/router/recipient_acceptance.go:128-143 | a read returns the records beyond the position, the lowest numbers first, all of them or as many as the limit |
| PollEffects.AcceptsExactlyWhen | backend/ws-gateway/router/recipient_acceptance.go:73-103 | a message is queued if and only if it is new to its scope and fewer than 1000 are queued, under the next number |
| PollEffects.RecordsLeaveExactlyWhen | backend/ws-gateway/router/recipient_acceptance.go:184-231 | a record leaves the queue if and only if it expires, its id is among at most 100 acknowledged over the websocket, or a poll acknowledges it |
| PollCursors.DroppedWasReturned | backend/ws-gateway/router/poll.go:138-158 | a record leaves the queue only when it expires, when the client acknowledges its id over the websocket, or when a poll presents the cursor of a response that returned a message with its id |
| PollCursors.UnseenDroppedExactlyWhen | backend/ws-gateway/router/recipient_acceptance.go:184-212 | a poll drops a record that is not in the response it acknowledges if and only if that response returned an ordinary message of the same id for another scope |
| PollScenarios.NothingUnseenDroppedExactlyWhen | backend/ws-gateway/router/recipient_acceptance.go:184-231 | over all runs with a given set of messages, polling never drops an unseen ordinary message if and only if no two ordinary messages of different scopes share an id |
| PollScenarios.SharedIdDropsUnseen | backend/message-service/store/durable_ingest.go:218-227 | for any two such messages a run in which the second is dropped although no response ever held it |
| PollCursors.ReadPassesOnlyWhatItReads | backend/ws-gateway/router/recipient_acceptance.go:128-143 | a poll's position passes no queued record the poll has not read |
| PollCursors.NewMessageVisibleExactlyWhen | backend/ws-gateway/router/recipient_acceptance.go:73-103 | a newly accepted message is visible to a cursor if and only if the counter has not fallen behind the cursor |
| PollCursors.CounterFallsExactlyWhen | backend/ws-gateway/router/recipient_acceptance.go:184-231 | the counter falls if and only if an acknowledgement, by a poll or over the websocket, empties the queue, a read finds it empty, or its keys expire with it empty |
| PollCursors.VisibleWhileCounterHolds | backend/ws-gateway/router/recipient_acceptance.go:73-103 | in any run in which the counter does not fall, a cursor not ahead of it shows every message accepted since |
| PollScenarios.NextMessageHidden | backend/ws-gateway/router/poll.go:138-208 | for any two messages a reachable state in which the client's current cursor never shows the second, queued and never returned |
| Conversations.CounterpartRoundTrip | backend/auth-service/handlers/scyllastore.go:105-123 | parsing a printed conversation identifier gives each participant the other one, everybody else and a conversation with oneself nothing |
| Conversations.ConversationInjective | backend/message-service/main.go:689-695 | two pairs share an identifier if and only if they are the same pair in either order |
| Conversations.FormatParses | backend/message-service/main.go:694 | the decimal form of an account number parses back to it |
| Conversations.ConversationSpells | backend/message-service/main.go:689-695 | the identifier is "dm:", the smaller number, a colon and the larger one, for either order of the two |
| DirectErasure.MessageStore.WriteDirect | backend/message-service/store/durable_ingest_scylla.go:236-281 | one batch stores under conversation, time and id a message row with this sender and this receiver, an outbox row with the same two in bucket id mod 16, and index rows for exactly these two accounts; every other row of the four tables stays |
| DirectEffects.MessageStandsExactlyWhen | backend/message-service/store/durable_ingest_scylla.go:236-281 | over every run a key holds a message row with this sender and receiver if and only if a write of exactly that was followed by no other write under the key and by no wipe of sender or receiver |
| DirectEffects.IndexRowExactlyWhen | backend/message-service/store/durable_ingest_scylla.go:252-266 | over every run the deletion index holds a row for the two parties of each stored message and for nobody else |
| DirectEffects.OutboxStandsExactlyWhen | backend/message-service/store/durable_ingest_scylla.go:246-281 | over every run an outbox key holds a row with this sender and receiver if and only if it was written last under the key, and neither drained since nor taken by a wipe of an account that shared the key |
| DirectErasure.MessageStore.DeleteUserMessages | backend/auth-service/handlers/scyllastore.go:43-95 | the loops over both indexes delete exactly the indexed rows and the counterparts' mirror rows |
| DirectErasure.NothingNamesTheUser | backend/auth-service/handlers/scyllastore.go:43-123 | from any state built by direct writes, ids reused for other receivers included, deliveries and earlier wipes, the erasure leaves no message row, no deletion-index row in any partition and no outbox row that names the user |
| DirectErasure.OtherConversationsUntouched | backend/auth-service/handlers/scyllastore.go:43-95 | conversations without the user keep all their message and index rows |
| DirectErasure.OutboxRowKeptExactlyWhen | backend/auth-service/handlers/scyllastore.go:43-95 | a pending outbox row between others survives the erasure if and only if nothing was written to or from the user under the same creation time and id since the user's last wipe |
| DirectErasure.SharedKeyLosesOutbox | backend/message-service/store/durable_ingest.go:218-227 | a reachable state in which erasing one receiver deletes the outbox row of a message to another |

## Left out

- HTTP routing, JSON decoding, cookies, rate limits, logging, health checks, process wiring: plumbing without hard state.
- Web client, service worker and tooling.
- Cryptography and random generation: digests are injective, tokens and identifiers are fresh.
- NATS purge, MinIO deletion and the deletion of a user's Redis keys: each is a cleanup phase that succeeds or fails and, when it succeeds, removes the account's data from its store, until something writes there again.
- Per-cell expiry of Scylla rows: an ingest, message or outbox row disappears as one step, on or after its expiry.
- The ingest erasure index: which receipts a wipe worker visits is left to the schedule; not every row need be indexed.
- Sanitizing the recipient list of group outbox rows, and delivery to sanitized recipients: the delivered envelope carries its own list.
- Read-receipt updates, the legacy message handlers, contact statuses, presence, prekeys and file grants: short one-statement transitions.
- References to a user row that cascade: they never hold up the deletion of the user row. A prekey bundle and the security settings are one kind of own row.
- The account machine alone admits requests of closed accounts too, which only adds runs to what is proved of all runs; who is admitted is the subject of the request machine.
- Join times under lock waiting: a member's join is dated with the time of its step.
- The lease-renewal goroutine's timers: a renewal may happen at any time, and the point at which a run finds its lease lost is an argument.
- Postgres lock waiting: a transaction is one step whose start time may lie arbitrarily before it.
- Changes of the outbox between the calls of a cursor: fairness is stated for an unchanging outbox, with a fixed set of expired rows.
- Expiry of seen markers in Redis, and times in the message queue: a record or an empty queue's keys may expire at any time; both cursor keys expire together.
- IngestDurability.StoredStaysReplayable: requires that no earlier life of the key was created in the same millisecond; `StoredLacksOutboxExactlyWhen` gives the exact condition without that.
- AccountsSessions.NoSessionAfterWipe: does not cover the unlocked session of a registration; `WipedGainsSessionExactlyWhen` shows that it is the only exception.
- DirectErasure.NothingNamesTheUser: takes the erasure as one step; a write that lands while it runs is data stored after a cleanup, the subject of `StoredDataExactlyWhen`.
- SenderKeyInbox.PagesVisitEachRowOnce: covers canonical ciphertexts; `PagesTileExactlyWhen` gives the exact condition. The encoded lengths of identifiers and timestamps are bounded, not computed.
