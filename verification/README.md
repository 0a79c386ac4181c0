# Verification of the API's stateful protocols

A model of the MirrorNeuron API host in Dafny, with proofs of what its stateful protocols
promise. `dafny verify dfyconfig.toml` checks everything.

Protocols that several threads or requests take part in are transition systems: one step is
one locked region, one database transaction, one call or one thread event, and the theorems
hold for every sequence of steps. The dictionaries and registries the API updates in place are
classes whose methods are proved against functions on values; the same functions are the steps
of the transition systems, so the theorems are about what the methods do. Loops of the source
are loops here, with their invariants.

## What is modelled

**Durable local operations** (`Operation*.dfy`). The in-memory cache with pinned entries
(`OperationModel`, `OperationCache`), the bounded, numbered event list
(`OperationHistory`), the journal files and their validation (`OperationJournal`, over a small
JSON type), the module-level state as a class (`OperationStore`), and all interleavings of
submissions, worker steps, failed reads and writes, threads that do not start, evictions, crashes
and reads (`OperationRuns`, with the theorems in `OperationTheorems`; `OperationAdmissions` says what
a submission gets and follows it to its result). `OperationReaders` adds
clients that poll, are cut off and come back with their Last-Event-ID (section 9.2 of the WHATWG
HTML standard). A crash wipes everything but the journal. A write either replaces a file or
fails without effect. The identifier of a durable operation stands for the hash of caller, route
and key; the full event history of an operation is a history variable. `OperationStreams` is the
stream of operations that run elsewhere.

**Job preparation** (`JobPreparations`). The choice between the original and a corrected
operation, on top of the operation store, with any number of requests between their look and
their submission.

**Grants and tokens** (`ConnectionStore`, `OAuthFlows`, `OAuthScopes`). The policy and grant tables, and all
interleavings of authorizations, exchanges, renewals, revocations and changes of policy, each a
series of transactions. Keys are random, so one that was used is not drawn again.

**Idempotency** (`IdempotencyRegistry`, `IdempotencyThreads`, `IdempotencyReplays`). The registry's locked regions, and
threads with program counters that enter, call, store, build the answer, resolve, leave and wait.

**Job launch and update** (`JobLaunch`, `JobUpdates`). The Core as an environment with
compare-and-swap on the revision: other writers, status refreshes, lost replies, and requests
that arrive late. What the environment does is an input (`weather`), so the contracts hold for
all of it.

**Event merging** (`EventMerge`), **pagination** (`Pagination`, `PaginationTheorems`,
`PaginationRepeats`), **the agent
graph** (`AgentGraph`), **the context cache** (`ContextCache`, `ContextRefreshes`) and **the relayed
answer** (`ReplyStream`).

`OrderedDict` is Python's insertion-ordered dictionary.

## What the code does not promise

Where a natural expectation fails, the exact condition is proved, with an instance.

- A reader that is more than 200 events behind loses events: `OperationReaders.GapIffLagging` says
  when, and how many; `LaggingExample` is an instance.
- A page token may skip records when records already returned are deleted:
  `PaginationTheorems.SkipsWhatWasDeleted` says when, and how many; `SkipExample` are two requests that do.
- A page may return a record again when records before it were deleted and come back:
  `PaginationRepeats.NothingTwiceIff` and `PageRepeatsIff` say when; `RepeatExample` are three requests that do.
- A refresh of a Job's context whose thread could not be started stays in the table of refreshes:
  no context is ever stored for that Job again. `ContextRefreshes.EventIsSetIffStarted` says that
  this start alone decides whether a waiter's event is set; `StrandedExample` is an instance.
- On the stream of a remote operation, a reader that has received the final event or the snapshot and
  asks again does not get what an unbroken connection would have delivered: after a final event a
  snapshot, after a snapshot the same number once more, or, when the upstream has grown, the stream
  without the events that took the snapshot's number. `OperationStreams.WholeIffNothingEnded` gives the
  condition for any number of connections, `ResumeContinues` for one; `SnapshotAfterFinal`,
  `SnapshotSentTwice` and `FinalEventSkipped` are instances.
- Without a blueprint a run request with overrides starts its run under the saved configuration:
  `JobLaunches.Reconcile` and `UndisturbedLaunch` say when a run gets what it asked for;
  `OverridesIgnored` is an instance.
- A request whose answer fails after its response was stored is told of a failure, and so is whoever waits
  for it, while the next request with the key gets the stored response: `IdempotencyThreads.StoredThenFailed`.
- A live stream forgets the events it has passed on when there were more than 10 000 of them:
  `EventMerges.WindowRightIffHarmless` says exactly when its window is nevertheless right at every
  moment, `ForgottenRepeat` is an instance with 10 001 events and the first of them again.

## Model

| member | source | states |
|---|---|---|
| OperationCache.TrimKeepsSurvivors | mn_api/operations.py:135-143 | The trim loop ends with exactly the claimed operations and the newest `limit` unclaimed ones cached, in their order, and leaves no trace of the others. |
| OperationCache.StoredOperationStays | mn_api/operations.py:127-132 | An operation just stored survives its own trim, and at most `limit` unclaimed operations are left. |
| OperationHistory.NextReflects | mn_api/operations.py:109-111 | Appending to the last 199 events gives the last 200 of the longer history, numbered on. |
| OperationHistory.IdentityNeverChanges | mn_api/operations.py:284-285 | Options, creation time and identifier are those of the first acceptance in every event of a history. |
| OperationHistory.BodyNeverChanges | mn_api/operations.py:270-273 | Where submissions carry the fingerprint of their body, every attempt is for the body of the first acceptance. |
| OperationHistory.PercentAdvances | mn_api/operations.py:213-217 | Percent stays in 0..100 and never falls within one attempt. |
| OperationHistory.CompletionIsLast | mn_api/operations.py:274-283 | No event follows a completion. |
| OperationRuns.PublishKeepsInv | mn_api/operations.py:114-124 | A publication appends exactly one event to the history, the file reflects the history, and memory mirrors the file. |
| OperationRuns.LoadKeepsInv | mn_api/operations.py:38-68 | A read, whatever fails, keeps the invariant; it returns the file's operation, and writes only the one recovery event. |
| OperationRuns.UpdateKeepsInv | mn_api/operations.py:195-237 | An update by the worker that holds the claim never misses, and carries the history on or changes nothing. |
| OperationRuns.StartKeepsInv | mn_api/operations.py:240-293 | A submission claims only what is unclaimed and not settled; refusals, faults and failed writes leave no claim behind. |
| OperationRuns.StepKeepsInv | mn_api/operations.py:240-337 | Every step keeps: claimed is cached, memory mirrors the journal, files reflect histories, one worker per claim, one acceptance per claim. |
| OperationRuns.RunKeepsInv | mn_api/operations.py:38-337 | The same for every run with submissions, worker steps, faults, evictions, reads and crashes. |
| OperationTheorems.OneWorkerPerOperation | mn_api/operations.py:267-337 | In every run two live workers never share an operation, and each works under a claim. |
| OperationTheorems.CompletedForever | mn_api/operations.py:274-283 | Once a completed receipt is journaled, no run changes the receipt or its history, or grants another claim to it. |
| OperationTheorems.JournalKeepsNewestEvents | mn_api/operations.py:109-124 | In every run a file shows exactly the last min(n, 200) of the n events ever published, numbered consecutively, across evictions, crashes and restarted attempts. |
| OperationTheorems.CacheMirrorsJournal | mn_api/operations.py:38-68 | In every run what is cached of a durable operation is what its file says, and what is claimed is cached. |
| OperationTheorems.ReadDependsOnJournalAndClaims | mn_api/operations.py:38-68 | The cache is transparent: stores that agree on a file and its claim answer a read alike and leave the same file, events included. |
| OperationTheorems.UnfinishedMeansClaimed | mn_api/operations.py:52-68 | No reader is shown a pending or running durable operation without a live claim. |
| OperationTheorems.RecoveryHappensOnce | mn_api/operations.py:52-63 | A second read after a recovery writes nothing, however it goes. |
| OperationTheorems.InterruptedOnlyByRecovery | mn_api/operations.py:52-63 | An operation turns interrupted only by a read or submission of it that finds it unfinished and unclaimed. |
| OperationTheorems.WorkerIsAlwaysHeard | mn_api/operations.py:206-237 | A report under a live claim fails exactly if the journal cannot be written, and then changes nothing. |
| OperationTheorems.UpdateIsJournaled | mn_api/operations.py:206-237 | A worker's update leaves in the file exactly the status, result and error it reports, keeps the others, and advances the percent to what is reported. |
| OperationTheorems.WorkIsJournaled | mn_api/operations.py:298-331 | The end of the work is in the file: its result under completed, its problem under failed. |
| OperationTheorems.ResultIsForever | mn_api/operations.py:195-237 | A journaled result is there after every run. |
| OperationAdmissions.SubmissionIsExact | mn_api/operations.py:267-293 | Under a used key: refused if and only if for another body; given the receipt if and only if that is completed, failed for good or claimed; otherwise a new attempt with the first one's options is claimed and is the newest event, if and only if it can be written; without a claim nothing is accepted. |
| OperationAdmissions.FirstSubmission | mn_api/operations.py:267-293 | Under a new key: a claim if and only if nothing fails, with the request's own options. |
| OperationAdmissions.UnreadableSubmission | mn_api/operations.py:267-293 | If the file cannot be read or brought up to date, the submission fails and nothing changes. |
| OperationAdmissions.OneBodyPerKey | mn_api/operations.py:267-293 | In every run all attempts under one key whose submissions carry a fingerprint are for one body. |
| OperationAdmissions.ClaimedWorkIsDone | mn_api/operations.py:298-337 | A worker that starts and finishes leaves its outcome in the file and gives its claim up. |
| OperationAdmissions.SubmittedWorkIsDone | mn_api/operations.py:240-337 | From the first submission to a read of its result. |
| OperationAdmissions.LooseIsShown | mn_api/operations.py:146-192 | A remote operation registered, or a local one completed at once, is what a read returns. |
| OperationJournal.OperationReadsBack | mn_api/operation_journal.py:36-47 | What is written of an operation passes the reader's checks and is read back unchanged. |
| OperationJournal.ReceiptReadsBack | mn_api/operation_journal.py:26-75 | Every file the publisher writes passes validation, and its operation and all its events are read back. |
| OperationStore.Journal.Read | mn_api/operation_journal.py:26-59 | Reads missing, unavailable, corrupt or a record exactly as the file says; the scan of sequence numbers accepts exactly the rising ones. |
| OperationStore.Journal.Write | mn_api/operation_journal.py:62-75 | Replaces the file, or fails and leaves all files as they were. |
| OperationStore.LocalOperations.TrimCache | mn_api/operations.py:135-143 | The while loop computes the trim that TrimKeepsSurvivors describes. |
| OperationStore.LocalOperations.StoreOperation | mn_api/operations.py:127-132 | Puts the operation last and trims. |
| OperationStore.LocalOperations.PublishOperation | mn_api/operations.py:114-124 | The journal is written first; if that fails memory is unchanged. |
| OperationStore.LocalOperations.LoadOperation | mn_api/operations.py:38-68 | Cached, missing, unavailable, recovered or loaded, with the whole new state. |
| OperationStore.LocalOperations.UpdateOperation | mn_api/operations.py:195-237 | An operation not known here is refused and nothing changes; otherwise the patched operation is published. |
| OperationStore.LocalOperations.AdmitOperation | mn_api/operations.py:268-293 | Refuses exactly another body, returns the existing operation, or claims and publishes; a refusal changes nothing, and a failed publication gives the claim up. |
| OperationStore.LocalOperations.StartOperation | mn_api/operations.py:267-293 | The whole locked region of a submission; refusal, receipt and claim exactly as the saved file and the claims decide. |
| OperationStore.LocalOperations.ReleaseClaim | mn_api/operations.py:324-336 | The claim is given up, with the trim after a worker and without it when the thread did not start. |
| OperationReaders.BatchIsSuffix | mn_api/operations.py:351-357 | A poll's batch is the history from the event asked for, or from the oldest kept one. |
| OperationReaders.GapIffLagging | mn_api/operations.py:351-357 | A batch continues what was seen if and only if the reader is at most 200 events behind; otherwise exactly the difference is lost. |
| OperationReaders.LaggingExample | mn_api/operations.py:351-357 | An instance: of 201 events a reader that has none gets event 2 first and never event 1. |
| OperationReaders.PollKeepsInv | mn_api/operations.py:346-375 | After a poll the reader waits, has seen everything and ended, or holds a stretch of the history that ends with the history's last event. |
| OperationReaders.EventsArriveInOrder | mn_api/operations.py:346-375 | Over any polls and reconnections only genuine events arrive, after the start, in order, none twice; a stream that ended of itself has delivered the newest event of its last look, which has a terminal status. |
| OperationReaders.EachEventExactlyOnce | mn_api/routes/v1/operations.py:58-82 | A reader never more than 200 events behind has each event after its start exactly once and in order, over any reconnections; when its stream has ended it has all up to the newest event of the last look, and after a completion all there are. |
| OperationReaders.PollHandsOver | mn_api/operations.py:346-375 | A poll delivers if and only if something is newer than what was seen, whatever the status, and then exactly what is kept of it; it ends if and only if nothing is newer and the status is terminal, or there is no operation; it fails if and only if the file cannot be read or brought up to date. |
| OperationReaders.PendingIsDelivered | mn_api/operations.py:361-369 | What is pending arrives one event with each delivery, whatever else happens. |
| OperationReaders.EveryPollCatchesUp | mn_api/operations.py:346-375 | After as many deliveries as there are pending events a client has seen all that the poll saw. |
| OperationReaders.TerminalBatchEndsStream | mn_api/operations.py:361-375 | The batch of a terminal status ends the stream with its last event. |
| OperationReaders.ComesBackToAll | mn_api/routes/v1/operations.py:58-82 | A client that was cut off gets, when it returns, all that is newer than what it holds and still kept. |
| OperationStreams.StreamRemoteEvents | mn_api/routes/v1/operations.py:83-122 | The loop delivers the events after the one last seen up to the first final one, or all of them and then a snapshot, numbered on. |
| OperationStreams.WholeIffNothingEnded | mn_api/routes/v1/operations.py:58-122 | Over any reconnections to a growing upstream, the last connection completes the stream if and only if nothing received before was a final event or a snapshot. |
| OperationStreams.ResumeContinues | mn_api/routes/v1/operations.py:58-122 | For one reconnection, to an upstream that may have grown: if and only if no event received was final and the snapshot was not received. |
| OperationStreams.NumbersOfFrames | mn_api/routes/v1/operations.py:88-122 | On every connection the numbers go up by one from the first event not yet received; a reader beyond the events gets the snapshot alone. |
| OperationStreams.SnapshotSentTwice | mn_api/routes/v1/operations.py:112-122 | An instance: the snapshot comes again under the number it had. |
| OperationStreams.FinalEventSkipped | mn_api/routes/v1/operations.py:88-90 | An instance: the final event takes the number of a snapshot received before, and never arrives. |
| OperationStreams.SnapshotAfterFinal | mn_api/routes/v1/operations.py:88-122 | An instance: a reader that has the final event is sent a snapshot. |
| JobPreparations.NewFilesAreAccepted | mn_api/operations.py:284-293 | A receipt appears only when its own submission is accepted, with the options proposed. |
| JobPreparations.ApiRunKeepsInv | mn_api/routes/v1/job_preparations.py:81-148 | Every accepted or proposed correction has the Job and the definition of its original, in every run. |
| JobPreparations.CorrectionsFollowFailures | mn_api/routes/v1/job_preparations.py:84-105 | In every run a corrected operation is in the journal only if its original has failed before. |
| JobPreparations.OneJobPerKey | mn_api/routes/v1/job_preparations.py:88-112 | All events of all operations of one caller's key, original or corrected, name the same Job and the same definition. |
| JobPreparations.WorkerActsOnReservedJob | mn_api/routes/v1/job_preparations.py:55-70 | The options a worker reads before it acts are those of the accepted receipt. |
| JobPreparations.FirstRequestReserves | mn_api/routes/v1/job_preparations.py:108-148 | The request accepted first under its key has its own Job, or the one generated for it, and its definition in the receipt. |
| JobPreparations.FailedPreparationIsRetried | mn_api/routes/v1/job_preparations.py:81-148 | A failed preparation that is asked for again is attempted again, with the options it had. |
| JobPreparations.AcceptedOptionsNeverChange | mn_api/routes/v1/job_preparations.py:169-200 | An accepted receipt keeps its reserved Job and its conditional fence in every run. |
| ConnectionStores.ResourceNamesOnePolicy | mn_api/mcp_access.py:142-145 | The policy query by URL finds a row exactly when there is one, and there is at most one. |
| ConnectionStores.ConnectionStore.Configure | mn_api/mcp_access.py:73-83 | A URL of another Job is refused; otherwise the generation rises, all grants of the Job but the internal ones go, and internal ones stay. |
| ConnectionStores.ConnectionStore.Issue | mn_api/mcp_access.py:85-93 | Expired rows go and the new grant is there. |
| ConnectionStores.ConnectionStore.Select | mn_api/mcp_access.py:95-108 | The unexpired row of the right kind, or none; it is consumed only if it is returned. |
| ConnectionStores.ConnectionStore.GrantOf | mn_api/mcp_access.py:95-113 | The row, if the current policy honours its generation. |
| ConnectionStores.ConnectionStore.Revoke | mn_api/mcp_access.py:115-117 | The row is gone, nothing else. |
| ConnectionStores.ConnectionStore.AuthorityFor | mn_api/mcp_access.py:122-132 | Internal authority exactly for an unexpired internal grant of the Job; external authority otherwise only with an honoured supervising access grant or the current code. |
| OAuthFlows.StepKeepsInv | mn_api/mcp_oauth.py:73-132 | Every transaction keeps the lineage of all grants and the uniqueness of unspent credentials. |
| OAuthFlows.RunKeepsInv | mn_api/mcp_oauth.py:73-199 | The same for every interleaving of flows, revocations and policy changes. |
| OAuthFlows.RunIsLater | mn_api/mcp_access.py:73-83 | In every run generations never fall back, and what was issued stays what it was. |
| OAuthFlows.RevocationIsFinal | mn_api/mcp_access.py:73-113 | After a change of policy no grant of an earlier generation or ticket is honoured again, not even one inserted afterwards by an exchange under way. |
| OAuthFlows.TokensStayWithinConsent | mn_api/mcp_oauth.py:100-132 | Every code and token has its ticket's client, Job, generation and resource, and no scope the ticket lacks (sections 4.1.2 and 6 of RFC 6749). |
| OAuthFlows.OneCredentialPerConsent | mn_api/mcp_oauth.py:161-199 | Of one consent at most one ticket, code or refresh token is unspent, and none while an exchange holds a consumed one. |
| OAuthFlows.ScopesOnlyShrink | mn_api/mcp_oauth.py:112-132 | A bound on the scopes of what a ticket can lead to holds in every run. |
| OAuthFlows.RenewalsNeverWiden | mn_api/mcp_oauth.py:126-132 | Whatever is issued after a credential has no scope that credential lacked. |
| OAuthScopes.IssuedIsExact | mn_api/mcp_oauth.py:73-132 | Whatever is issued in a run is the ticket of its request, a code of exactly its ticket's scopes, tokens of exactly their code's scopes, or tokens of exactly the scopes a renewal asked for; each with its lifetime. |
| OAuthScopes.CodesHaveTheirTicketsScopes | mn_api/mcp_oauth.py:73-110 | In every run a code has exactly its ticket's scopes, and every ticket allows to supervise. |
| OAuthScopes.PurposeStays | mn_api/mcp_oauth.py:94-132 | A request keeps its key and what it is after from its look-up to its last step. |
| OAuthScopes.NoScopeIsLost | mn_api/mcp_oauth.py:100-132 | In every run in which no renewal asks for less, every code and token has exactly the scopes consented to. |
| OAuthScopes.AccessIsHonoured | mn_api/mcp_access.py:95-132 | An access token is honoured for its Job for exactly 3600 seconds in every run that neither changes the policy nor revokes it, with external authority if its scopes allow to supervise, which a code's always do. |
| OAuthScopes.ExchangeSucceeds | mn_api/mcp_oauth.py:94-132 | An undisturbed exchange consumes its grant and issues what it is for. |
| OAuthScopes.AuthorizationOpens | mn_api/mcp_oauth.py:73-92 | An authorization leads to a ticket if and only if the resource is an enabled policy's and the scopes are known and allow to supervise. |
| OAuthScopes.LinkingSucceeds | mn_api/mcp_oauth.py:73-118 | From the request over approval and exchange to an access token of exactly the scopes asked for, with external authority. |
| OAuthScopes.SpentForever | mn_api/mcp_access.py:103-107 | What was consumed, revoked or dropped is never found again. |
| OAuthScopes.RevokedForever | mn_api/mcp_access.py:115-117 | A revoked credential is never honoured again. |
| OAuthScopes.InternalSurvivesPolicies | mn_api/mcp_access.py:109-126 | An internal key has internal authority for a day, through every change of policy, unless revoked. |
| OAuthScopes.ClientIsFound | mn_api/mcp_oauth.py:60-71 | A registered client is found until its registration expires, unless revoked. |
| OAuthScopes.ConfiguredCodeIsHonoured | mn_api/mcp_access.py:129-132 | The connection code of an enabled policy has authority from its change to the next. |
| IdempotencyRegistries.PruneIsExact | mn_api/http_semantics.py:129-132 | Pruning drops the expired records and no others. |
| IdempotencyRegistries.StoredRecordSurvives | mn_api/http_semantics.py:123-127 | A new record survives the overflow it causes; at most `maximum` records are left, unchanged. |
| IdempotencyRegistries.StoringDropsOnly | mn_api/http_semantics.py:123-127 | Storing drops another record only if it expired or more than `maximum` unexpired ones would be left. |
| IdempotencyRegistries.AdmissionIsExact | mn_api/http_semantics.py:55-70 | A request owns its key exactly if there is neither an unexpired record nor a request in flight; it is refused exactly if the first of these there is has another fingerprint. |
| IdempotencyRegistries.ReplayedSurvives | mn_api/http_semantics.py:64-66 | A record just replayed is not the next to be pushed out. |
| IdempotencyRegistries.IdempotencyRegistry.Prune | mn_api/http_semantics.py:129-132 | The loop over the expired keys computes the pruning that PruneIsExact describes. |
| IdempotencyRegistries.IdempotencyRegistry.AdmitRequest | mn_api/http_semantics.py:55-70 | The first locked region: conflict, replay, follow or own. |
| IdempotencyRegistries.IdempotencyRegistry.StoreResponse | mn_api/http_semantics.py:104-127 | Prunes, records the response with its expiry, and shortens from the oldest. |
| IdempotencyThreads.StepKeepsInv | mn_api/http_semantics.py:46-83 | Every step of every thread keeps: one owner per key, entries, futures and calls attended, records and outcomes made for their own request. |
| IdempotencyThreads.RunKeepsInv | mn_api/http_semantics.py:46-127 | The same for every interleaving. |
| IdempotencyThreads.OneCallAtATime | mn_api/http_semantics.py:67-83 | In every run no two threads own a key, and no two calls for it run. |
| IdempotencyThreads.OutcomesAreTheirOwn | mn_api/public.py:123-143 | Every outcome handed out, fresh, shared or replayed, is that of a call made for the same key and body. |
| IdempotencyThreads.TurnPaysDebt | mn_api/http_semantics.py:73-83 | Each turn of an owner brings its future closer to being resolved, however the call ends and whether its answer can be built; no other step of any thread moves the owner or takes an outcome back. |
| IdempotencyThreads.TurnIsThere | mn_api/http_semantics.py:73-83 | While its future is unresolved an owner has a turn to take, whichever way its call and the building of its answer end. |
| IdempotencyThreads.WaiterIsServed | mn_api/http_semantics.py:71-83 | In every interleaving a waiter's future is resolved or has an owner, is resolved after at most four turns of that owner (response stored, response shared, failure of the call or after the store), and a waiter that wakes has an outcome made for its own request. |
| IdempotencyThreads.FailuresAreNotReplayed | mn_api/http_semantics.py:75-77 | A request answered as it enters gets a response that was returned to be stored, never a failure. |
| IdempotencyThreads.StoredThenFailed | mn_api/public.py:104-121 | If the answer cannot be built from a response already stored, the owner and who waits for it get the failure; in every run from there, while the record remains, a later request of the same body is given the stored response, and no call is made. |
| IdempotencyThreads.NoCallWhileRecorded | mn_api/http_semantics.py:55-70 | While a key's record remains unexpired, no run makes another call for it. |
| IdempotencyThreads.SecondCallOnlyAfterRecordIsGone | mn_api/public.py:104-121 | When work is done again for a key, every earlier call for it has ended and has no record and no owner about to write one. |
| IdempotencyThreads.RecordLeavesOnlyBy | mn_api/http_semantics.py:123-132 | A record changes only by being dropped, when found expired or when more than `maximum` unexpired ones would be left. |
| IdempotencyReplays.ReturnedIsKept | mn_api/public.py:104-121 | In every run a storable response that was returned is about to be stored or is recorded until exactly the time to live after its return, unless that is over or a full registry pushed it out. |
| IdempotencyReplays.ReturnedIsReplayed | mn_api/http_semantics.py:52-71 | Until then a request of the same key and body makes no call: it gets that response, or waits for the owner about to store it. |
| IdempotencyReplays.EntryIsExact | mn_api/http_semantics.py:52-71 | What becomes of a request as it enters, case by case from records and requests in flight. |
| IdempotencyReplays.WaiterSharesOutcome | mn_api/http_semantics.py:70-83 | In every run a waiter ends with the very outcome of the owner it waited for. |
| IdempotencyReplays.OwnerGetsItsResponse | mn_api/http_semantics.py:72-80 | The owner of a call that returned ends with its response, in every run in which the answer can be built. |
| IdempotencyReplays.RetryIsReplayed | mn_api/http_semantics.py:44-83 | From any state with the key free: the request makes one call and is answered by it, and the same request made again in time gets that response without another. |
| JobLaunches.MergeIdempotent | mn_api/routes/v1/jobs.py:662 | Merging the same overrides twice is merging them once. |
| JobLaunches.MergeSetsLeaves | mn_api/routes/v1/jobs.py:662 | Overrides decide exactly the paths they say something about, however deep, and leave every other path as it was. |
| JobLaunches.MoveIsSound | mn_api/routes/v1/jobs.py:693-699 | Whatever the environment does, an update applies only over the configuration its sender had read. |
| JobLaunches.UndisturbedLaunch | mn_api/routes/v1/jobs.py:651-729 | An undisturbed launch starts one run, under the configuration asked for if and only if there is a blueprint or the overrides change nothing. |
| JobLaunches.OverridesIgnored | mn_api/routes/v1/jobs.py:660-665 | An instance: a Job without a blueprint runs without the override it was launched with. |
| JobLaunches.SaveOnce | mn_api/routes/v1/jobs.py:682-707 | One attempt is exactly: a look, and if the configuration still is the one it started from, the update for the revision seen; it ends committed, already saved, in conflict or failed accordingly. |
| JobLaunches.SaveConfiguration | mn_api/routes/v1/jobs.py:677-707 | The loop ends in conflict if and only if its last look, under the given weather, finds a configuration that is neither the one it started from nor its goal, and then has changed and launched nothing more; it commits only over the configuration it started from. |
| JobLaunches.SaveIfChanged | mn_api/routes/v1/jobs.py:662-711 | Undisturbed, what is saved is the merge of the first configuration and the overrides. |
| JobLaunches.CreateJobRun | mn_api/routes/v1/jobs.py:651-729 | For every weather: 409 if and only if saving is needed and finds another writer's change, and then nothing is launched; a run that starts does so after the merge was the configuration at the end of saving; only updates from the configuration read to its merge are sent; with no other writer there is no conflict; undisturbed it always starts. |
| JobLaunches.EditedMeanwhile | mn_api/routes/v1/jobs.py:683-691 | An instance: another writer's edit between the two looks ends in a conflict, with that edit in place and no run. |
| JobLaunches.Reconcile | mn_api/routes/v1/jobs.py:808-831 | With lost replies and no other writer, ten attempts commit at most once and start at most one run, under the configuration asked for (with a blueprint, or without a change); a conflict ends it with no run; undisturbed the first attempt succeeds. |
| JobLaunches.SettledForGood | mn_api/routes/v1/jobs.py:808-831 | Requests that arrive after the last attempt change nothing more. |
| JobLaunches.OthersAreNotOverwritten | mn_api/routes/v1/jobs.py:681-700 | Every commit of ours in the history replaced exactly the configuration its sender had read. |
| JobUpdates.UpdateJob | mn_api/routes/v1/jobs.py:497-554 | Stale if and only if the Job read is not the resource of the ETag, and then nothing is sent; a conditional update writes only if it still is when the Core compares the revision; undisturbed the result is decided by the ETag and the configuration. |
| JobUpdates.PrepareUpdate | mn_api/routes/v1/job_preparations.py:173-192 | A repeated preparation sends only the update of its fence; it reports an earlier commit if and only if an attempt was uncertain and it reads the requested configuration under another ETag. |
| JobUpdates.FencedUpdateCommitsOnce | mn_api/routes/v1/job_preparations.py:177-192 | However often it is repeated, the update of a fence is committed at most once, and only over the fence's configuration. |
| EventMerges.OrderedSorts | mn_api/job_projection.py:993 | The result is sorted by timestamp, and events of one timestamp keep their order. |
| EventMerges.StableOrderIsUnique | mn_api/job_projection.py:993 | There is only one such order, so any stable sort computes it. |
| EventMerges.MergeEvents | mn_api/job_projection.py:979-994 | The nested loops compute the last `limit` of the stable order of the first event of each key. |
| EventMerges.MergeIsExact | mn_api/job_projection.py:979-994 | An unbounded merge is sorted, repeats no key, and has exactly the keys that came in, each by its first event. |
| EventMerges.MergeIsIdempotent | mn_api/job_projection.py:979-994 | Merging a merge again changes nothing, with any limit. |
| EventMerges.WindowIsLastOfAll | mn_api/job_projection.py:1254 | Events merged one at a time into a bounded window leave the last `limit` of the full stable order. |
| EventMerges.Follow | mn_api/job_projection.py:1210-1254 | The loop of the live stream keeps the window of the events it lets through. |
| EventMerges.MergeNewIff | mn_api/job_projection.py:1254 | An event of a key not in a full window leaves the window as it is if and only if it is older than everything in it. |
| EventMerges.WindowRightIffHarmless | mn_api/job_projection.py:1247-1254 | The window of a stream is at every moment the newest of all distinct events if and only if no forgotten event comes again that the window does not hold and that is not older than the whole window. |
| EventMerges.LiveWindow | mn_api/job_projection.py:1247-1254 | So it is right at every moment of a stream that repeats no event, or has had no more than 10 000 keys. |
| EventMerges.ForgottenRepeat | mn_api/job_projection.py:1251-1254 | An instance: 10 001 events of one timestamp empty the memory, and the first of them, come again, pushes out a newer one. |
| EventMerges.RunStoreEvents | mn_api/job_projection.py:947-976 | Reading the newest file first gives exactly the last `limit` records of all files, or all of them for 0. |
| Pagination.SortedAscends | mn_api/pagination.py:123 | The order of a first request follows the sort key, in either direction. |
| Pagination.ByIdIsLast | mn_api/pagination.py:139 | Of several records of one identity the last is served. |
| Pagination.PageTokenRegistry.Issue | mn_api/pagination.py:41-70 | Prunes, records the cursor, and shortens from the oldest. |
| Pagination.PageTokenRegistry.ResolveToken | mn_api/pagination.py:72-97 | The cursor of an unexpired token for its own request; unknown or mismatched otherwise. |
| Pagination.PageTokenRegistry.PageOf | mn_api/pagination.py:108-151 | The page, its errors, and the token for the rest. |
| PaginationTheorems.IssuedTokenResolves | mn_api/pagination.py:41-97 | A token just issued resolves to its cursor until it expires, for its own request and no other. |
| PaginationTheorems.ServedIff | mn_api/pagination.py:72-122 | A request is served if and only if its size is good and it has no token, or one that is known, unexpired and its own; unknown tokens and those of other requests are told apart. |
| PaginationTheorems.UsedTokenSurvives | mn_api/pagination.py:66-95 | A token just used is not the next to be pushed out. |
| PaginationTheorems.PageIsLiveSlice | mn_api/pagination.py:136-151 | A page is the slice, at the walk's offset, of what is still there of the snapshot; its records are current; a token is issued exactly if more follows. |
| PaginationTheorems.TraversalIsExact | mn_api/pagination.py:108-151 | While records are only inserted or modified, a walk with any page sizes collects the first request's snapshot, each identity once and in order, and ends within as many pages as records. |
| PaginationTheorems.DeletionsNeverRepeat | mn_api/pagination.py:136-151 | When records are deleted, what is collected is a subsequence of the snapshot without repetitions, and every page moves on. |
| PaginationTheorems.SkipsWhatWasDeleted | mn_api/pagination.py:138-140 | A page starts with the first record not counted yet exactly if no counted one was deleted since, or none is left; otherwise it leaves out as many as were deleted. |
| PaginationTheorems.SkipExample | mn_api/pagination.py:136-151 | An instance: two served requests collect a, then c, of a, b, c. |
| PaginationRepeats.PageRepeatsIff | mn_api/pagination.py:136-140 | A page returns a record collected before if and only if one is there that has at least as many live records before it as the offset counts, and less than a page more. |
| PaginationRepeats.NothingTwiceIff | mn_api/pagination.py:108-151 | Whatever is inserted, deleted or put back, a walk collects each identity at most once if and only if none of its requests finds such a record. |
| PaginationRepeats.RepeatExample | mn_api/pagination.py:136-151 | An instance: of a, b, c, d three served requests collect a, then c with a gone, then c again with a back. |
| AgentGraphs.BuiltGraphIsExact | mn_api/agent_graph.py:31-35 | An edge is there exactly if the manifest, an event or a declared link names it, with the count, time and origin these give; the nodes are exactly the listed agents, the manifest's nodes and the ends of edges. |
| AgentGraphs.OriginsAreExact | mn_api/agent_graph.py:118-174 | An edge marked as the manifest's or a link's alone has count 0; "manifest+events" holds exactly for manifest edges with events. |
| AgentGraphs.TotalIsMessages | mn_api/agent_graph.py:49 | The counts of all edges add up to the number of events that name both ends. |
| AgentGraphs.GraphBuilder.constructor | mn_api/agent_graph.py:55-88 | The listed agents and the manifest's nodes. |
| AgentGraphs.GraphBuilder.EnsureEdge | mn_api/agent_graph.py:91-115 | Both ends and the edge are there; an edge that was there is unchanged. |
| AgentGraphs.GraphBuilder.AddManifestEdges | mn_api/agent_graph.py:118-135 | The loop over the manifest's edges. |
| AgentGraphs.GraphBuilder.AddEventEdges | mn_api/agent_graph.py:138-162 | The loop over the events, each counted once for its edge. |
| AgentGraphs.GraphBuilder.AddOutboundEdges | mn_api/agent_graph.py:165-174 | The loops over the declared links of all agents. |
| AgentGraphs.BuildAgentGraph | mn_api/agent_graph.py:13-52 | The graph that BuiltGraphIsExact describes, with a message count that is the number of events naming both ends. |
| ContextCaches.TrimmedPut | mn_api/job_mcp.py:480-483 | Storing keeps a cache within its limit, keeps what was stored, and changes no other entry. |
| ContextCaches.UsedContextSurvives | mn_api/job_mcp.py:633-645 | A fresh context just used is not the next to be pushed out. |
| ContextCaches.FailedDrops | mn_api/job_mcp.py:604-609 | A failure is remembered; exactly a job that is gone loses its context and its base. |
| ContextCaches.InvalidatedDrops | mn_api/job_mcp.py:472-478 | An invalidation forgets all about the job and nothing else. |
| ContextCaches.JobContextProvider.TrimCache | mn_api/job_mcp.py:480-483 | The while loop drops the oldest entries and their jobs' errors until the limit is met. |
| ContextCaches.JobContextProvider.StoreContext | mn_api/job_mcp.py:592-596 | The context is stored last, its job's error forgotten, the cache trimmed. |
| ContextCaches.JobContextProvider.StoreBase | mn_api/job_mcp.py:538-545 | A base of another fingerprint also drops the job's context. |
| ContextRefreshes.StepKeepsInv | mn_api/job_mcp.py:587-657 | Every step keeps: the table holds exactly the refreshes not ended, one per job; caches in limits; every answer truthful. |
| ContextRefreshes.LabelsAreTrue | mn_api/job_mcp.py:633-657 | In every run a context handed out is within the last-known-good age, one labelled fresh from the cache within the fresh age, and a live one was stored after the request looked. |
| ContextRefreshes.OneRefreshPerJob | mn_api/job_mcp.py:618-631 | In every run one refresh per job is in progress at most, and both caches are within their limit. |
| ContextRefreshes.AnswersAreExact | mn_api/job_mcp.py:633-657 | At each of its three looks a request is answered with the cached context if and only if that is recent enough; in the end it gets an error if and only if its refresh found the job gone. |
| ContextRefreshes.FirstRequestIsServed | mn_api/job_mcp.py:587-657 | The first request for a job begins a refresh and is answered live with what that loads. |
| ContextRefreshes.JobGoneIsReported | mn_api/job_mcp.py:601-657 | A job found gone loses its context at once, and who waited for the refresh gets the error. |
| ContextRefreshes.ObsoleteIsNotServed | mn_api/job_mcp.py:472-545 | After an invalidation or a base of another fingerprint no request gets the context from before. |
| ContextRefreshes.TurnLowersRank | mn_api/job_mcp.py:587-631 | A turn of a refresh lowers its rank, whether the load succeeds or fails; no other step changes its phase. |
| ContextRefreshes.TurnIsThere | mn_api/job_mcp.py:587-631 | Until its event is set or its start has failed a refresh has a turn to take, whichever way the start or the load goes. |
| ContextRefreshes.RunningRefreshEnds | mn_api/job_mcp.py:587-616 | In every interleaving a refresh whose thread was started sets its event after at most four turns of its own, however its load goes. |
| ContextRefreshes.StrandedForever | mn_api/job_mcp.py:618-631 | A refresh whose thread was not started stays in the table in every run, and no context is stored for its job again. |
| ContextRefreshes.EventIsSetIffStarted | mn_api/job_mcp.py:587-631 | If starting the thread of a refresh succeeds, every run from there that gives the thread its four turns sets the event; if it fails, no run does. |
| ContextRefreshes.StrandedExample | mn_api/job_mcp.py:618-631 | An instance: the first request for a job, without a thread to spare. |
| ReplyStreams.StreamReply | mn_api/job_reply_stream.py:9-74 | The deltas relayed are how the owner's text starts, up to the cursor, at most 12000 characters, in reports numbered from 1; the stream returns the completed answer without a cancel, or is given up for a reason (a reply, the deadline, a report or a pause that fails) with exactly one cancel. |

## Left out

- The comparison of the connection code on the approval page: an approval is the request that passed it.
- Redaction of fields (`public_value`), operation titles and error formatting: payloads are opaque.
- The data of an event and of a snapshot on a remote stream are told apart, although the texts sent could coincide.
- HTTP, gRPC, WebSocket and relay plumbing, process and filesystem control, and the SDK: `deep_merge` is modelled as the recursive merge of tables its callers rely on; JSONL files are read as sequences of records whose tail the SDK returns.
- Hashes, JSON text, URL parsing and random keys: hashes and canonical JSON are taken as injective, keys as fresh, and a server URL as the Job its path was checked for.
- Timestamps are natural numbers of a clock that does not go back; where a function reads the clock several times (`issue`, `put`, `store`) one reading is used for what it inserts and what it drops.
- OperationStore.LocalOperations.UpdateOperation: an update of a known operation by anyone but the holder of its claim, which only a report after the end of the work could be.
- `start_local_operation`: durable operations are those submitted with durable=True under a derived identifier; other local operations get fresh identifiers, and remote ones only enter by `register_operation`.
- Worker code reports progress only while it runs; a report after the end is not modelled.
- A file of the journal that another program corrupts is rejected by `Journal.Read`; the store's theorems assume files the publisher wrote.
- Operations that are not durable are forgotten when they are evicted, as in the source.
- `idempotent_response` without a key, which is not coalesced, `IdempotencyRegistry.find`, which nothing calls; rendering a replayed response.
- The missing If-Match (428), archiving and status changes in `update_job`, and the check for an active run before a contract refresh.
- Preparation of bundles, cleanup of processes and relays around a launch: what they prepare is the configuration that is saved.
- `page`: `upstream_token` and pages that the Core makes.
- `RunStoreEvents`: a negative limit, which no caller passes.
- `stream_job_workflow_progress`: snapshots, heartbeats and the end of the stream; only its window is modelled.
- Display fields and the order of the lists in the agent graph.
- The base cache's own lookup, whose results enter as steps of the environment, and the loading of a context, which takes any time and may fail; `invalidate` does not stop a refresh under way, as in the source.
- `stream_run_events`, which renumbers events on every connection.
