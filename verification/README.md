# gitvibeDev backend: a verified model

This project models the stateful core of the gitvibeDev backend in Dafny 4.11 and
proves what it promises over every run:

- the persistent job queue: retries, linear backoff, one worker, recovery from the
  snapshot saved in the vault;
- the token service: a bounded ring of signing keys and single-use refresh tokens;
- the sliding-window rate limiter;
- the life cycle of the OAuth `state` parameter (section 4.1.1 of RFC 6749);
- the encrypted vault that all of them share, and why they do not disturb each other
  in it;
- the event bus with its bounded history, and workflow runs over agents and plugins.

`dafny verify dfyconfig.toml` checks everything.

## How it is built

Objects that the source changes in place are classes (`PersistentJobQueue`,
`TokenService`, `GitHubService`, `RateLimitMiddleware`, `LocalVault`, `AsyncEventBus`,
`WorkflowEngine`). Each method is proved equal to a function on values, and the theorems
are lemmas about those functions and about runs of them.

| file | content |
|---|---|
| `Prelude.dfy` | options, `int()` of a float, ascending enumeration of ids |
| `JobQueueSpec.dfy` | the lock-protected blocks and the transition system |
| `JobQueueOwnership.dfy` | one place per job, crash recovery |
| `JobQueueHistory.dfy` | nothing lost, attempt accounting, backoff |
| `JobQueueRecord.dfy` | every field of a job record from the history; handlers; the worker's life |
| `JobQueueProgress.dfy` | bounded overtaking, bounded work, draining |
| `JobQueueLiveness.dfy` | the polling loop run without end: every job ends |
| `JobQueue.dfy` | the queue object with its dequeue and load loops |
| `TokenSpec.dfy`, `TokenRing.dfy`, `TokenHistory.dfy`, `Tokens.dfy` | tokens: meaning, ring, history, object |
| `RateLimiter.dfy` | limiter object and theorems |
| `OAuthSpec.dfy`, `GitHub.dfy` | OAuth state: history and object |
| `Vault.dfy`, `Storage.dfy`, `Platform.dfy` | vault, key spaces, all services on one vault |
| `EventBus.dfy`, `Workflow.dfy`, `WorkflowRuns.dfy` | event history, workflow engine, what runs publish and when they succeed |

Conventions. A run is any finite sequence of events from a fresh start; an event that
cannot occur in a state leaves it unchanged, so each theorem speaks about every event
sequence. Each block that the source executes under a lock, or without an `await`, is
one step. Clock readings are arguments of the events; a theorem holds for any clock,
jumps included, unless it requires one that does not run backwards (`Monotone`,
`Ordered`), that leaves every instant behind for good (`TimeGoesOn`) or that passes
every instant (`TimePasses`). Job ids are uuid4 values taken as their 128-bit numbers,
whose order is that of their fixed-width text. Cryptography is ideal: a token names the
secret that signed it, a digest names its preimage, a ciphertext names its key, and each
random value is new.

## What turned out different from the obvious expectation

- `Retry-After`: a client that waits exactly as long as announced is admitted if and only if
  the entry that has to leave its bucket is by then over 60 seconds old; in a bucket of
  exactly the limit that means the oldest entry had under one second left
  (`RateLimiter.RetryAdmittedIff`, `RateLimiter.RetryOnTime`). Under every configuration
  some client is refused again on time (`RateLimiter.RetryOnTimeRefused`), and an
  authentication request behind general traffic stays refused for twice the announced wait
  (`RateLimiter.SharedBucketRefusedLonger`).
- `_mark_failed_or_retry` has no status guard: used on a job that is already queued and
  has a retry left it duplicates the id in the queue, and only then
  (`JobQueueOwnership.UnguardedRetryDuplicates`; one enqueued job is enough,
  `JobQueueOwnership.UnguardedRetryWitness`). The worker never does that.
- A job whose worker is stopped, or whose handler raises a CancelledError, stays `running`
  until the saved state is loaded again; starting the worker does not help
  (`JobQueueHistory.OrphanWaitsForReload`; reached after five events,
  `JobQueueHistory.OrphanIsReachable`).
- A refresh session is dropped for good by any load that reads a clock past its expiry, be
  it only for a moment: with a wall clock that steps back, an unexpired and unspent token can
  be refused (`TokenHistory.ClockJumpDropsSession`). `TokenHistory.RotationUnderAnyClock` has
  the exact condition, and single use does not depend on the clock at all
  (`TokenHistory.RotatesAtMostOnce`).
- A vault file that exists but is empty is not initialised, and any master key opens it until
  the first write (`Vault.VaultIsPlainMap`).
- A token pair is issued for an empty subject, but its access token never verifies
  (`TokenRing.IssuedAccessVerifies`).
- An event published on the topic `*` calls each wildcard subscriber twice, if nobody raises
  (`EventBus.WildcardCalls`).

## Model

| member | source | states |
|---|---|---|
| JobQueueOwnership.EachJobInOnePlace | backend/app/job_queue.py:91-236 | after any interleaving of events each known job is once in the queue, held by the worker, orphaned by a stop, or finished, and the queue holds nothing else |
| JobQueueOwnership.CrashRecoversExactly | backend/app/job_queue.py:39-74 | at every lock release the saved state equals memory; reloading after a crash at any instant keeps finished jobs, queues all others, appends the interrupted ones in id order, and a second reload changes nothing |
| JobQueueOwnership.CrashInsideBlock | backend/app/job_queue.py:66-74 | a crash inside a block before its save recovers what a crash before the block would |
| JobQueueOwnership.ReloadTwiceIsOnce | backend/app/job_queue.py:39-64 | loading is idempotent on any snapshot |
| JobQueueOwnership.DequeueTakesFirstReady | backend/app/job_queue.py:145-164 | for any memory: the first ready id in queue order is taken, none exactly when none is ready, and no waiting id is dropped or repeated |
| JobQueueOwnership.DequeueIsRotation | backend/app/job_queue.py:145-164 | with an exact queue a dequeue is a rotation without the picked id, and an unsuccessful one restores the queue |
| JobQueueOwnership.UnguardedRetryDuplicates | backend/app/job_queue.py:182-203 | marking a job as failed keeps the queue free of duplicates if and only if it is not both queued and retryable |
| JobQueueOwnership.UnguardedRetryWitness | backend/app/job_queue.py:182-203 | such a state is reached: marking any enqueued retryable job as failed queues it twice |
| JobQueueSpec.FirstReady | backend/app/job_queue.py:151-163 | the returned position is the first ready one |
| JobQueueHistory.NoJobIsLost | backend/app/job_queue.py:39-210 | a known job stays known under the same identity whatever happens, and a finished record never changes |
| JobQueueHistory.OrphanWaitsForReload | backend/app/job_queue.py:95-103 | an orphaned job stays running and untouched until a reload, which queues it |
| JobQueueHistory.OrphanIsReachable | backend/app/job_queue.py:212-236 | enqueue, register, start, dequeue, dispatch and then a stop or a cancelled handler orphan the job |
| JobQueueHistory.AttemptAccounting | backend/app/job_queue.py:160-210 | saved dequeues equal attempts plus recoveries plus one while running or completed; failed if and only if attempts exceed the retries; handler calls are bounded by max_retries + 1 + recoveries |
| JobQueueRecord.RecordIsHistory | backend/app/job_queue.py:105-210 | over every run a job is known if and only if it was enqueued; type, payload, retries and creation time are those enqueued, attempts count the failures reported, result or error are those of the latest report, updated_at is the latest reading for it, and it failed for good if and only if more failures than retries were reported |
| JobQueueRecord.DispatchFindsHandler | backend/app/job_queue.py:218-230 | a dequeued job goes to its handler if and only if one was registered for its enqueued type since the process started, else it is rejected |
| JobQueueRecord.HandlersAreRegistered | backend/app/job_queue.py:36-37 | the handlers are those registered since the process started |
| JobQueueRecord.WorkerIsOn | backend/app/job_queue.py:91-103 | a worker is there if and only if it was started and not stopped, crashed or ended since; starting it again changes nothing |
| JobQueueHistory.CompletedWasCalled | backend/app/job_queue.py:212-236 | a job completes only after its handler was called |
| JobQueueHistory.RunAfterIsExact | backend/app/job_queue.py:182-196 | over any run and any clock, a job's run_after is its latest failure reading + base * attempts, or its creation time before any failure, unless it has failed for good |
| JobQueueHistory.LinearBackoff | backend/app/job_queue.py:145-196 | under any clock, a job is not dequeued at a reading before its latest failure + base * attempts, across crashes too |
| JobQueueHistory.TriangularBackoff | backend/app/job_queue.py:187-196 | under a clock that does not run backwards, a job with a failures is not dequeued before created_at + base * a * (a + 1) / 2, across crashes too |
| JobQueueProgress.NoStarvation | backend/app/job_queue.py:145-164 | a job at position p that is ready at some instant is dequeued within the next p + 1 requests that read no earlier clock, whatever is interleaved |
| JobQueueProgress.WorkIsFinite | backend/app/job_queue.py:182-236 | without new jobs and crashes the worker can act only finitely often |
| JobQueueProgress.LateAsksDrain | backend/app/job_queue.py:212-236 | from any reachable state, in any run without new jobs and crashes, with idle polls, early asks, stops and starts, every job is finished or orphaned once more asks came after all deadlines than there was work left |
| JobQueueLiveness.EveryJobEnds | backend/app/job_queue.py:105-236 | the loop as it is, while jobs and handlers go on arriving without end and no stop, crash or cancelled handler falls in: every job there at any pass, unless orphaned before the start, is finished at some later pass and keeps that record |
| JobQueueLiveness.PollingLoopDrains | backend/app/job_queue.py:212-236 | with no enqueue, stop, crash or cancelled handler between the passes, the loop finishes every job not orphaned at the start within finitely many passes and for good, even if single clock readings go on stepping back |
| JobQueue.PersistentJobQueue.constructor | backend/app/job_queue.py:17-34 | a new queue object starts from the reloaded saved state and leaves other vault entries alone |
| JobQueue.PersistentJobQueue.LoadState | backend/app/job_queue.py:39-64 | memory and saved state become the reloaded snapshot |
| JobQueue.PersistentJobQueue.RequeueUnfinished | backend/app/job_queue.py:49-64 | the loop over the jobs in id order reloads them all, and reports whether it changed anything |
| JobQueue.PersistentJobQueue.PersistState | backend/app/job_queue.py:66-74 | the saved state becomes memory |
| JobQueue.PersistentJobQueue.RegisterHandler | backend/app/job_queue.py:36-37 | refines the registration step |
| JobQueue.PersistentJobQueue.Enqueue | backend/app/job_queue.py:105-136 | refines the enqueue step and returns the stored job |
| JobQueue.PersistentJobQueue.DequeueNextJobId | backend/app/job_queue.py:145-164 | the pop-and-append loop computes the dequeue specification and saves only when it found a job |
| JobQueue.PersistentJobQueue.MarkCompleted | backend/app/job_queue.py:166-175 | the whole new state of a completion |
| JobQueue.PersistentJobQueue.MarkFailedOrRetry | backend/app/job_queue.py:182-205 | the whole new state of a failure or retry, for any status |
| JobQueue.PersistentJobQueue.Start | backend/app/job_queue.py:91-93 | refines the start step, which replaces a missing or ended worker |
| JobQueue.PersistentJobQueue.Stop | backend/app/job_queue.py:95-103 | refines the stop step, orphaning a held job |
| JobQueue.PersistentJobQueue.Fetch | backend/app/job_queue.py:214-217 | refines the dequeue step of the worker |
| JobQueue.PersistentJobQueue.FindHandler | backend/app/job_queue.py:218-225 | refines the dispatch step |
| JobQueue.PersistentJobQueue.HandlerReturned | backend/app/job_queue.py:236 | refines the success step |
| JobQueue.PersistentJobQueue.HandlerRaised | backend/app/job_queue.py:233-235 | refines the failure step |
| JobQueue.PersistentJobQueue.HandlerWasCancelled | backend/app/job_queue.py:231-236 | refines the step of a CancelledError that `except Exception` lets through: the worker ends and the job stays running |
| JobQueue.PersistentJobQueue.ReportMissingHandler | backend/app/job_queue.py:225-230 | refines the missing-handler step |
| RateLimiter.VerdictIsExact | backend/app/security.py:387-413 | in any run a request is admitted if and only if fewer than its limit -- max(10, max(20, per_minute) // 4) below /api/auth/, else max(20, per_minute) + max(0, burst) -- were admitted in the closed minute before it; otherwise it is told the whole seconds until the oldest of these is a minute old, at least one |
| RateLimiter.BucketIsLastMinute | backend/app/security.py:391-412 | after a request the client's bucket holds its admissions of the last minute and nothing else |
| RateLimiter.AgreesWithNaive | backend/app/security.py:387-413 | over any run the pruned bucket admits exactly what a limiter with full history admits |
| RateLimiter.BucketCountsLastMinute | backend/app/security.py:391-393 | after pruning a bucket counts the client's admissions of the closed last minute |
| RateLimiter.BucketForgetsNothing | backend/app/security.py:391-393 | what pruning dropped can never count again |
| RateLimiter.SlidingWindowBound | backend/app/security.py:395-399 | in every closed 60 seconds a client gets at most max(20, per_minute) + max(0, burst) requests and at most max(10, max(20, per_minute) // 4) authentication requests through (settings clamped at lines 71-72) |
| RateLimiter.BucketIsBounded | backend/app/security.py:395-412 | no bucket outgrows max(20, per_minute) + max(0, burst) |
| RateLimiter.ClientsAreIndependent | backend/app/security.py:389-413 | every verdict a client gets depends on its own requests only |
| RateLimiter.BucketIsSorted | backend/app/security.py:391-412 | a pruned bucket is in time order |
| RateLimiter.RetryAfterMeaning | backend/app/security.py:399-410 | the header is between 1 and 60; when waiting that long suffices, exactly |
| RateLimiter.RetryAdmittedIff | backend/app/security.py:391-413 | for any refusal in any run, the same request at any later instant is admitted if and only if the limit is positive and the entry that leaves room is by then over 60 seconds old |
| RateLimiter.RetryOnTime | backend/app/security.py:391-413 | for any refusal in any run the header is between 1 and 60 and one second more evicts the oldest entry; the exact condition for an on-time retry; with a bucket of exactly the limit one second more is always enough |
| RateLimiter.RetryOnTimeRefused | backend/app/security.py:391-413 | under every positive limit, using it up in an instant and retrying on time is refused again |
| RateLimiter.SharedBucketRefusedLonger | backend/app/security.py:391-413 | under every configuration, some authentication request is told to wait 29 seconds and stays refused for 59 |
| RateLimiter.RateLimitMiddleware.Dispatch | backend/app/security.py:387-413 | the popleft loop and the decision refine the handling function |
| TokenSpec.VerifyAccepts | backend/app/security.py:299-317 | exactly which tokens prove an identity: accepted signer, `iat` <= now < `exp`, type access, a subject, a csrf value, and role viewer, operator or admin; and which identity |
| TokenSpec.OrderDoesNotMatter | backend/app/security.py:281-297 | trying secrets in sequence gives the outcome that depends on their set alone |
| TokenSpec.KidIsOnlyAHint | backend/app/security.py:274-297 | every `kid` and every order of the same secrets give the same payload or error (`kid`: section 4.1.4 of RFC 7515) |
| TokenRing.RingIsWindow | backend/app/security.py:335-346 | after any run the ring is the newest min(rotations, max_previous) + 1 keys, in memory and in the vault |
| TokenRing.KeysAreDistinct | backend/app/security.py:341-344 | no two keys of a history share an id or a secret |
| TokenRing.FirstKeyIsConfigured | backend/app/security.py:165-174 | the first key of a history is the configured secret under the id `initial`, every later one is random |
| TokenRing.AcceptedAreRingSecrets | backend/app/security.py:179-185 | the lookup table accepts exactly the secrets of the ring's keys |
| TokenRing.AcceptedIsWindow | backend/app/security.py:179-185 | a key's secret is accepted if and only if at most max_previous keys are newer |
| TokenRing.IssuedTokenDecodes | backend/app/security.py:266-297 | an issued token decodes as its own type if and only if it has reached `iat`, not yet `exp` (sections 4.1.6 and 4.1.4 of RFC 7519), and at most max_previous rotations followed, across restarts |
| TokenRing.IssuedTokenRefused | backend/app/security.py:266-297 | which of the refusals an issued token gets: invalid before `iat` or out of the window, else expired, else of the wrong type |
| TokenRing.IssuedAccessVerifies | backend/app/security.py:299-317 | an issued access token yields its own subject, role and ids while it decodes, unless the subject is empty |
| TokenHistory.StoreIsUnprunedTokens | backend/app/security.py:191-205 | in every reachable state, under any clock, the stored sessions are exactly the tokens issued, not rotated, and unexpired at every load since |
| TokenHistory.StoreIsLiveTokens | backend/app/security.py:191-205 | under a clock that does not run backwards, the pruned sessions are exactly the tokens issued, not rotated and not expired |
| TokenHistory.RotationUnderAnyClock | backend/app/security.py:319-333 | under any clock, a rotation succeeds if and only if its token is issued, unspent, unexpired at every load since and at this one, between `iat` and `exp` when decoded, and signed by a key still in the ring |
| TokenHistory.RotationRefused | backend/app/security.py:266-333 | under any clock, which refusal a rotation gets: malformed, invalid, expired or wrong type by the token alone, else not live by its session |
| TokenHistory.ClockJumpDropsSession | backend/app/security.py:191-202 | in any run, a fresh token is refused although it decodes, once another login has read a clock past its expiry |
| TokenHistory.RotationSucceedsIff | backend/app/security.py:319-333 | under a clock that starts in 1970 or later and does not run backwards, a rotation succeeds if and only if its token is issued, unspent, unexpired and signed by a key still in the ring; its `iat` is never in the way |
| TokenHistory.RotatesAtMostOnce | backend/app/security.py:319-333 | no token rotates twice over any run, under any clock |
| TokenHistory.PairClaims | backend/app/security.py:207-264 | both tokens of a pair name the current key, are signed by it, carry the subject and role of the login or of the rotated token, and last their configured time; a login succeeds if and only if its role is viewer, operator or admin |
| TokenHistory.LineageKeepsIdentity | backend/app/security.py:319-333 | however often it is rotated, a refresh token carries the subject and role of the login it descends from |
| TokenHistory.RotatedAccessVerifies | backend/app/security.py:299-333 | an access token obtained by rotation proves the identity of that login, if and only if it is alive, its key is in the ring and the subject is not empty |
| TokenHistory.IdsAreUnique | backend/app/security.py:211-236 | csrf value and ids of a pair differ from each other and from those of any other pair of a run |
| TokenHistory.OneTokenPerLogin | backend/app/security.py:319-333 | at most one unspent refresh token descends from each login, under any clock |
| TokenHistory.RotationKeepsCount | backend/app/security.py:250-256 | after any history, a successful rotation whose last reading is not before its load leaves the number of live sessions unchanged unless one of the two tokens expires during the call |
| Tokens.TokenService.constructor | backend/app/security.py:160-174 | a new service starts from the saved ring, or from the configured secret, and saves that |
| Tokens.TokenService.LoadRefreshSessions | backend/app/security.py:191-202 | returns and saves the unexpired sessions |
| Tokens.TokenService.SaveRefreshSessions | backend/app/security.py:204-205 | replaces the saved sessions and nothing else |
| Tokens.TokenService.IssueTokenPair | backend/app/security.py:207-264 | refines the issuing function |
| Tokens.TokenService.CandidateKeys | backend/app/security.py:274-279 | the candidates are the ring's secrets, whatever the hint and the table's order |
| Tokens.TokenService.DecodeToken | backend/app/security.py:266-297 | the candidate loop computes the meaning of decoding |
| Tokens.TokenService.VerifyAccessToken | backend/app/security.py:299-317 | computes the identity an access token proves |
| Tokens.TokenService.RotateRefreshToken | backend/app/security.py:319-333 | refines the rotation step |
| Tokens.TokenService.RotateSigningKey | backend/app/security.py:335-346 | refines the key rotation step |
| OAuthSpec.StoreIsOutstanding | backend/app/github_service.py:139-199 | the stored states are those handed out and not presented since, each with its start's expiry, lower-cased owner hint and redirect URI: the one supplied, else the configured one |
| OAuthSpec.BeginOutcome | backend/app/github_service.py:139-176 | what a start answers, and that it hands the state out for 600 seconds |
| OAuthSpec.CallbackOutcome | backend/app/github_service.py:178-199 | over any run, which of the five answers a callback gets, and what an accepted one is told |
| OAuthSpec.AcceptedIff | backend/app/github_service.py:178-199 | a callback is accepted if and only if its state is outstanding, at most 600 whole seconds old, and a supplied redirect URI is the one that the start supplied, else the configured one |
| OAuthSpec.OneShot | backend/app/github_service.py:178-199 | a state value is accepted at most as often as it was handed out |
| GitHub.GitHubService.CreateOauthStart | backend/app/github_service.py:139-176 | refines the start step on the shared vault |
| GitHub.GitHubService.ConsumeOauthState | backend/app/github_service.py:178-199 | the state is removed whatever the outcome, and judged as stored before |
| GitHub.GitHubService.CompleteOauthCallback | backend/app/github_service.py:289-293 | refines the callback step, which needs a configured service |
| GitHub.GitHubService.StoreToken | backend/app/github_service.py:269-287 | only the owner's entry changes, and nothing that the other services see |
| Vault.VaultIsPlainMap | backend/app/vault.py:48-97 | from any readable file, any run of set, delete and master-key rotation reads back as a plain map, and once something was written only the last master key reopens it |
| Vault.UnreadableIsLeftAlone | backend/app/vault.py:48-97 | no run of operations changes a file under another key |
| Vault.LocalVault.constructor | backend/app/vault.py:29-46 | a missing file is created with an empty map, an existing one -- an empty one too -- is not touched |
| Vault.LocalVault.Get | backend/app/vault.py:75-78 | the stored value, or an error for a file under another key |
| Vault.LocalVault.Set | backend/app/vault.py:80-84 | one entry changes; an unreadable file is left alone |
| Vault.LocalVault.Delete | backend/app/vault.py:86-91 | one entry goes; an unreadable file is left alone |
| Vault.LocalVault.RotateMasterKey | backend/app/vault.py:93-97 | the contents stay, under the new key |
| Storage.KeySpacesAreDisjoint | backend/app/github_service.py:48-53 | the entries of queue, token service, OAuth states and the owner tokens of every provider (backend/app/main.py:246-247) never coincide |
| Storage.JobKeyIsPrivate | backend/app/job_queue.py:66-74 | writing the queue's entry changes no other entry and nothing that the other services see |
| Storage.TokenKeysArePrivate | backend/app/security.py:176-205 | the same for the two entries of the token service |
| Storage.StateKeyIsPrivate | backend/app/github_service.py:155-181 | the same for one OAuth state, other states included |
| Storage.OwnerKeyIsPrivate | backend/app/main.py:622-640 | the same for the stored token of any provider and owner |
| Storage.SettingAState | backend/app/github_service.py:155-162 | storing one state changes exactly that state of the store |
| Storage.DeletingAState | backend/app/github_service.py:179-181 | deleting one state removes exactly that state of the store |
| Platform.ServicesDoNotInterfere | backend/app/main.py:113-148 | over every interleaving on one vault, with master-key rotations and restarts, each service ends in the state its own events alone produce |
| EventBus.AsyncEventBus.constructor | backend/app/platform/event_bus.py:36-39 | an empty history of capacity max(1, max_events) |
| EventBus.AsyncEventBus.Unsubscribe | backend/app/platform/event_bus.py:44-47 | the oldest matching subscription goes, or nothing changes |
| EventBus.AsyncEventBus.Record | backend/app/platform/event_bus.py:64-65 | the history stays the end of everything published |
| EventBus.AsyncEventBus.Publish | backend/app/platform/event_bus.py:49-72 | the event is recorded, then topic subscribers and wildcard subscribers are called in order up to the first that raises |
| EventBus.AsyncEventBus.Deliver | backend/app/platform/event_bus.py:68-71 | the calls made, and whether one raised |
| EventBus.AsyncEventBus.RecentEvents | backend/app/platform/event_bus.py:79-81 | the newest events of the whole log, at most `limit`, at least one |
| EventBus.CalledUpToFirst | backend/app/platform/event_bus.py:68-71 | the calls made are the recipients up to and including the first that raises |
| EventBus.OwnBeforeWildcard | backend/app/platform/event_bus.py:67-71 | wildcard subscribers are called after all of the topic's own, and not at all when one of these raises |
| EventBus.WildcardCalls | backend/app/platform/event_bus.py:67-71 | while nobody raises, a wildcard subscription is called once per event, twice for the topic `*` |
| WorkflowRuns.RunFollowsPlan | backend/app/platform/workflow_engine.py:85-149 | a run publishes a prefix of started, the steps' events in order, completed; all of it if and only if no subscriber objects to the start and every step succeeds, by conditions on registrations and opaque calls alone |
| WorkflowRuns.StepOutcome | backend/app/platform/workflow_engine.py:105-200 | when a step succeeds, when it publishes anything, and the exact cause of each error of engine, allowlist and permission check |
| WorkflowRuns.PluginOutcome | backend/app/platform/plugin_framework.py:228-319 | a plugin call publishes anything if and only if the required permission is granted, completes if and only if it returned a mapping, and each error has exactly one cause |
| WorkflowRuns.AgentOutcome | backend/app/platform/agent_framework.py:61-97 | completion is published if and only if the agent is known, nobody objected and its handler returned a mapping; each error has one cause |
| WorkflowRuns.RunHadPermission | backend/app/platform/plugin_framework.py:241-261 | a run without an error had every permission its plugin steps required |
| WorkflowRuns.RegistryAfterSteps | backend/app/platform/plugin_framework.py:213-239 | the steps of a run register exactly the legacy plugins they come to use, with the permission to execute and no other |
| WorkflowRuns.FailureStopsTheRun | backend/app/platform/workflow_engine.py:106-137 | a failure at step i leaves the complete traces before i and what step i published, and later steps play no part |
| Workflow.SameAnswersSameTrace | backend/app/platform/plugin_framework.py:228-239 | registering legacy plugins on first use changes no later outcome |
| Workflow.WorkflowEngine.RunWorkflow | backend/app/platform/workflow_engine.py:85-149 | publishes the run's trace, fails with its error, and returns a result per step in order |
| Workflow.WorkflowEngine.RunSteps | backend/app/platform/workflow_engine.py:105-137 | the loop over the steps publishes their chained traces |
| Workflow.WorkflowEngine.OneStep | backend/app/platform/workflow_engine.py:107-137 | hook, step, hook, as one trace |
| Workflow.WorkflowEngine.ExecuteStep | backend/app/platform/workflow_engine.py:151-200 | the trace of a step by its kind |
| Workflow.WorkflowEngine.RunAgent | backend/app/platform/agent_framework.py:61-97 | the trace of an agent call |
| Workflow.WorkflowEngine.ResolveManifest | backend/app/platform/plugin_framework.py:228-239 | the resolved manifest; the registry gains that of a legacy plugin and answers as before |
| Workflow.WorkflowEngine.RunPlugin | backend/app/platform/plugin_framework.py:252-319 | the trace of a plugin call with its permission check |

## Left out

- File I/O, file modes and partial writes of the vault: one write is atomic.
- Real JWT encoding and the library's checks beyond signature, `iat` and `exp`, SHA-256, Fernet and random generation: ideal, as described above.
- Payloads and results are opaque text and assumed serialisable; the `updated_at` stamp of the saved queue state is written but never read and is not modelled.
- Malformed saved state (entries of the wrong shape, duplicate saved ids): the vault holds what the services wrote.
- Services on a vault file they cannot decrypt: `LocalVault` models the error, the services are modelled on a readable file.
- A `start()` that slips in while `stop()` still awaits the cancelled worker: start and stop are single steps.
- Handlers that swallow their own cancellation: a stopped worker's handler ends.
- The length of the poll interval: an idle worker may ask again at any time, and the liveness theorems need only a clock that goes on.
- Audit logging, HTTP routes, request models, role checks, header and payload-size middleware, CSRF checks: plumbing or single-branch facts.
- HTTP requests to GitHub and to AI providers, the plugin sandbox process, other git providers: foreign calls.
- Payloads, ids and timestamps of events, plugin manifests' remaining fields, discovery of manifests on disk, SDK plugin registration, topic and workflow listings.
- Workflows that interleave on one bus: the traces are those of one run's own events.
- Subscribers, hooks, agent handlers and plugin executors that publish or subscribe themselves: they only return or raise.
- The demo service, the web and Flutter front ends, installers and environment scripts.
- Non-ASCII lower-casing and stripping.
