# Mercury Hive: a verified model of its governance protocols

Mercury Hive is a governance backend for AI agents. Its guarantees rest on a set of small
stateful protocols, and this project models those protocols in Dafny 4.11 and proves what they
promise over every input, every history and every interleaving. `dafny verify dfyconfig.toml`
checks all of it.

The tables of the database are maps or sequences, a clock is a number that does not run
backwards, and a database transaction commits or leaves nothing behind. Protocols that run
concurrently (refresh, webhook, rate limiter, shutdown gate) are state machines whose steps are
the statements between two points where other requests may run. Code that updates objects in place
is also written as a class whose methods run the statements of the source and are proved equal to
the specification functions that the theorems are about.

| protocol | modules |
|---|---|
| refresh-token rotation with replay detection | `Identity`, `IdentityHistory` (serial histories), `IdentityConcurrent`, `IdentityInterleaving`, `IdentityGuarantees`, `IdentityRevocation` (threads, row locks, commit and rollback), `IdentityStore` (the service as it runs), `IdentityAnswers` |
| webhook replay window and idempotency | `NonceWindow`, `Idempotency`, `Webhook`, `WebhookProtocol`, `WebhookStories`, `WebhookGuarantees`, `WebhookEffects`, `WebhookEndpoint`, `WebhookAnswers` |
| prompt sanitizer | `Letters`, `Patterns` (pattern semantics and search), `Sanitizer`, `SanitizerRules` (what the eight patterns are), `PromptWrapping` |
| sliding-window rate limiter | `RateLimiter`, `RateLimitProtocol`, `RateLimitAnswers` |
| judging council | `Rounding`, `Judging`, `JudgingGuarantees`, `JudgingAnswers` |
| shutdown gate over stale caches | `Shutdown`, `ShutdownGuarantees`, `ShutdownStaleness`, `ShutdownDecisions`, `ShutdownService`, `ShutdownAnswers` |
| agent authority and tool gateway | `Authority`, `AuthorityGuarantees`, `AuthorityProvenance` (serial histories), `AuthorityConcurrent` (interleaved transactions), `AgentRegistry`, `AuthorityAnswers`, `Permissions` |
| departments, bridges and tasks | `Tasks`, `TaskGuarantees`, `TaskService`, `TaskAnswers` |
| audit redaction | `Redaction`, `RedactionKeys` |
| agent cycle, cost and retries | `AgentRunner`, `AgentAnswers`, `Retry`, `RetryAnswers` |

A module whose name ends in Answers says, of every operation of its protocol, exactly when it goes
through, why it is refused otherwise and what it leaves, in terms of rows and fields and not of the
functions that compute it; where that matters, it is lifted to every run.

Where a promise does not hold in general, the model keeps the code as it is, gives an input or a
run that shows it, and proves exactly when the promise holds:

- a wrapped tool result can contain a third `tool_result` tag (`DanglingOpenerSurvives`), if and
  only if an opener dangles in the sanitized text (`WrappedResultHasOwnTagsOnly`);
- a webhook can be told, or served from the cache, that it was processed although its effect was
  never committed (`RepliedWithoutEffect`, `ServedWithoutEffect`): the reply is true if and only
  if the commit of the one execution behind it succeeded (`ToldMeansEffectIff`,
  `CachedReplyHasEffectIff`, `EffectIffCommitted`);
- an idempotency key can be lost for good (`CancelledKeyRefusesRetries`), if and only if an
  execution under it was cancelled (`LockedForGoodIffAbandoned`);
- waiting Retry-After seconds can fall short (`WaitingFallsShortInARun`): it suffices if and only
  if enough attempts have expired by then (`WaitingSuffices`);
- the gate can refuse under a NORMAL row (`RolledBackShutdownStillRefuses`) and pass under a
  restricted one (`UnansweredGateCanPass`): `RefusedIffEvidence` says what every decision in every
  run goes by, `RefusedUnderNormalIff` and `PassedUnderRestrictionIff` exactly when either happens;
- a committed shutdown can vanish from the cache of its own process (`LateReturnHidesTheShutdown`):
  it is shown for good if and only if no reader of the process is late (`CommitIsShownIff`), and
  serving requests repairs a wrong cache if and only if it says NORMAL (`GateHealsIff`);
- a terminated agent can return (`TerminatedAgentReturns`): it stays terminated if and only if
  nobody suspends it (`TerminationLastsIffNeverSuspended`);
- beside a concurrent suspension a grant can survive and work again after restoration
  (`GrantSurvivesSuspension`): a retirement keeps its promise if and only if no grant was committed
  since its bulk update and none is between its check and its commit (`RetirementHoldsIff`);
- delegation revives finished work (`CompletedTaskMoves`) if and only if somebody delegates it
  (`TerminalLastsIffNotDelegated`), and crosses only its bridge if and only if that bridge touches
  where the work is (`DelegationIsBridgedIff`);
- budget cycles of half a unit can go uncharged for ever (`HalfUnitsAreNeverCharged`): which cycles
  are charged exactly, and which not at all, is `ChargedExactlyIff`.

Two places where code and documentation differ, and the model follows the code: the docstring of
`terminate_agent` calls termination permanent (services/agent_registry/service.py:201), and
the docstring of `delegate_task` promises delegation across a bridge
(services/tasks/service.py:270) although the bridge need not touch the department concerned.

## Model

| member | source | states |
|---|---|---|
| Identity.ApplyKeepsValid | services/identity/service.py:312-360 | Every single transaction keeps: tokens belong to sessions, at most one unused token per session, and every session that is not revoked has one |
| Identity.ApplyGrows | services/identity/service.py:312-360 | No transaction forgets a row, changes an owner, expiry or creation column, clears a revocation, or moves a used mark |
| IdentityHistory.ChainIsSession | services/identity/service.py:340-360 | In every history the tokens of a session form one chain without repetition; all but the newest are consumed, the newest is unused as long as the session is not revoked, and rotated tokens expire no later than the session |
| IdentityHistory.RotationPresentsNewest | services/identity/service.py:340-360 | A successful refresh presents the newest token of its session's chain and appends exactly its one successor |
| IdentityHistory.RotatedAtMostOnce | services/identity/service.py:311-341 | Over any history a token is rotated at most once, and no two rotations mint the same successor |
| IdentityHistory.TokenHasOneOrigin | services/identity/service.py:343-360 | Every token on record was introduced by exactly one login or one rotation |
| IdentityHistory.RevokedNeverRotates | services/identity/service.py:328-330 | A session that is revoked at any point is not refreshed at any later one |
| IdentityHistory.ReuseEndsSession | services/identity/service.py:311-326 | Presenting a token that was rotated before is always refused as a replay, revokes its session, and ends all rotations of that session for good |
| IdentityHistory.RefusedRefreshEffect | services/identity/service.py:311-338 | A refused refresh changes the tables exactly when it presented a used token, and then it changes nothing but the revocation columns of that token's session |
| IdentityHistory.RotationBeforeExpiry | services/identity/service.py:331-348 | However often a session was refreshed, no rotation happens at or after the expiry fixed at login, and no rotated token outlives it |
| IdentityHistory.RevocationAndUnusedTokens | services/identity/service.py:312-316 | Of the transactions that revoke a live session only replay detection leaves an unused token behind |
| IdentityInterleaving.CommitKeepsInv | services/identity/service.py:280-360 | A commit of locked work agrees with running the whole transaction at that moment, for every interleaving of the other requests |
| IdentityInterleaving.RunsAreSerializable | services/identity/service.py:280-360 | In every state of every interleaved run the committed tables are those of a legal serial history of the answered requests, each answered as it would be alone |
| IdentityGuarantees.CommittedStatesAreValid | services/identity/service.py:280-360 | In every interleaving of logins, refreshes, logouts and revocations each committed state has at most one unused token per session |
| IdentityGuarantees.ReachableTablesAreSerial | services/identity/service.py:280-360 | The log of answered requests explains the committed tables and every answer |
| IdentityGuarantees.OneRotationPerToken | services/identity/service.py:305-341 | Two interleaved requests that present the same token never both commit a rotation of it |
| IdentityGuarantees.ReplayAnswerMeansRevoked | services/identity/service.py:312-326 | Whenever a request is answered with replay detection, its session is and stays committed as revoked although the request failed |
| IdentityGuarantees.SecondPresentationIsReplay | services/identity/service.py:311-326 | Of two answered presentations of a token the later one is told nothing but replay detection |
| IdentityGuarantees.RotationArrivedInTime | services/identity/service.py:331-335 | A rotation is only ever answered to a request that arrived before its session's expiry |
| IdentityGuarantees.OnlyCommitsChangeTables | apps/api/dependencies.py:71-80 | The committed tables change only when a request commits, and never with a denial: a denied, aborted or unfinished request leaves no trace |
| IdentityGuarantees.HolderNeverWaits | services/identity/service.py:295-309 | Because sessions are locked before tokens, whoever holds a session lock can always take its next step |
| IdentityGuarantees.SomeRequestCanAdvance | services/identity/service.py:264-273 | The lock order excludes deadlock: while a request is unfinished, some request can advance |
| IdentityRevocation.RevokeAllReach | services/identity/service.py:506-558 | Once a revoke-all is answered, every session that was live when it selected its rows is revoked whatever ran beside it; what is live afterwards was opened by a login that committed since |
| IdentityStore.IdentityStore.Login | services/identity/service.py:114-254 | Opens a session with its first token exactly when address, password, status and second factor are in order; a refusal changes nothing |
| IdentityStore.IdentityStore.Refresh | services/identity/service.py:256-389 | The statement sequence of a refresh gives the outcome and the tables of the transaction the theorems are about |
| IdentityStore.IdentityStore.Logout | services/identity/service.py:391-428 | Logout revokes a live session and consumes its unused tokens; otherwise it changes nothing |
| IdentityStore.IdentityStore.RevokeSession | services/identity/service.py:458-503 | Revokes the owner's session and consumes its unused tokens; reports whether the session exists for that owner |
| IdentityStore.IdentityStore.RevokeAllSessions | services/identity/service.py:506-558 | The loop revokes exactly the selected live sessions, then consumes all their unused tokens, and counts them |
| IdentityAnswers.RefreshGrantedIff | services/identity/service.py:280-360 | A refresh is granted if and only if token and session are on record, the token unused and unexpired, the session neither revoked nor expired, and the owner ACTIVE |
| IdentityAnswers.RefreshRefusedBecause | services/identity/service.py:286-342 | Each refusal has exactly its condition on the rows: the first check that fails, replay before everything about the session |
| IdentityAnswers.RotationLeaves | services/identity/service.py:344-360 | A rotation marks its token used and adds one unused token of the same session, expiring at the earlier of the configured life and the session; no other row changes |
| IdentityAnswers.DecidingStepGrantsIff | services/identity/service.py:305-342 | In every interleaving the deciding step of a refresh goes on to rotate if and only if the committed rows are in order and the owner is ACTIVE at that step |
| IdentityAnswers.RotationHadActiveOwner | services/identity/service.py:338-342 | In every run a request answered with a rotation decided at one step at which the owner of its session was ACTIVE |
| IdentityAnswers.LockingCountsUntilTheDecision | services/identity/service.py:338-342 | Locking the owner just before the deciding step turns a rotation into a refusal that writes nothing |
| IdentityAnswers.LogoutLeaves | services/identity/service.py:391-428 | A logout revokes a live session and uses up its tokens, and changes nothing otherwise |
| IdentityAnswers.RevocationLeaves | services/identity/service.py:458-503 | Revoking a session of the owner uses up its tokens in any case and revokes it unless it was; a session of somebody else is not touched |
| IdentityAnswers.RevokeAllLeaves | services/identity/service.py:506-558 | Which sessions the bulk revocation selects, that exactly those are revoked and their tokens used up, and the count |
| NonceWindow.NonceTracker.PruneOld | services/tribe/security.py:64-69 | Removes exactly the nonces whose age exceeds the retention |
| NonceWindow.NonceTracker.CheckAndRecord | services/tribe/security.py:71-86 | Prunes, then accepts and records the nonce exactly when it is not cached |
| NonceWindow.NonceTracker.VerifyTimestampAndNonce | services/tribe/security.py:102-137 | Verdict and cache of one check in the order of the source, unreadable and out-of-range timestamps included |
| NonceWindow.AcceptedNonceIsKept | services/tribe/security.py:64-86 | While its age is within the retention an accepted nonce survives every pruning |
| NonceWindow.RepeatsAreFarApart | services/tribe/security.py:64-86 | Two acceptances of one nonce are further apart than the retention |
| NonceWindow.RetentionIsTight | services/tribe/security.py:121-137 | No (timestamp, nonce) pair is ever accepted twice if and only if the retention is at least twice the tolerance |
| NonceWindow.WebhookPairAcceptedOnce | services/tribe/security.py:121-137 | With the retention of the source two acceptances of a nonce are more than two tolerances apart and carry different timestamps |
| NonceWindow.BackwardClockAcceptsTwice | services/tribe/security.py:64-86 | The clock must not run backwards: after one second back a pair is accepted twice |
| Idempotency.IdempotencyTracker.StartProcessing | services/tribe/security.py:172-186 | Takes a key exactly when it is free or its last attempt failed |
| Idempotency.IdempotencyTracker.CompleteProcessing | services/tribe/security.py:188-211 | Stores the response under the key and leaves every other key alone |
| Idempotency.IdempotencyTracker.FailProcessing | services/tribe/security.py:213-218 | Frees the key and leaves every other key alone |
| Idempotency.IdempotencyTracker.GetCachedResponse | services/tribe/security.py:220-226 | Answers exactly for completed keys |
| WebhookProtocol.StepKeepsInv | services/tribe/router.py:276-370 | Every step of every interleaving keeps store, owners and event log in agreement |
| WebhookGuarantees.OneExecutionAtATime | services/tribe/router.py:292-370 | The business logic for a key is never run twice at once: before it begins again the earlier execution failed |
| WebhookGuarantees.NothingAfterSuccess | services/tribe/router.py:276-370 | After an execution for a key has finished none ever begins, finishes or fails again |
| WebhookGuarantees.CachedReplyIsTheStoredOne | services/tribe/router.py:276-312 | Every cached reply is the one response ever stored for its key, stored earlier and still there |
| WebhookGuarantees.ProcessingMeansOneOwner | services/tribe/security.py:172-226 | A PROCESSING record exists for a key if and only if one request owns it, and never two do |
| WebhookGuarantees.CancelledExecutionLocksKey | services/tribe/router.py:362-370 | An execution that is cancelled locks its key for good: the failure handler does not see the cancellation |
| WebhookGuarantees.EffectAtMostOnce | services/tribe/router.py:305-360 | The database effect of a keyed webhook is committed at most once |
| WebhookGuarantees.EffectMeansProcessed | apps/api/dependencies.py:83-94 | The effect of a finished execution is in the database if and only if its request ended as processed and committed; one whose reply was sent before a failed commit did not |
| WebhookGuarantees.OneExecutionPerStampedNonce | services/tribe/router.py:283-303 | One (timestamp, nonce) pair starts at most one execution, whatever keys the requests name |
| WebhookGuarantees.ServedWithoutEffect | services/tribe/router.py:352-360 | A stored response can be served although its effect was never committed: a run that shows it |
| WebhookEffects.EffectIffCommitted | apps/api/dependencies.py:83-94 | In every run the effect of a request is in the database if and only if its own commit step succeeded, whether its reply was sent before or after |
| WebhookEffects.ToldMeansEffectIff | services/tribe/router.py:352-360 | A finished request that was told 200 has its effect if and only if it was not the commit after the reply that failed |
| WebhookEffects.CachedReplyHasEffectIff | services/tribe/router.py:276-303 | Exactly one execution stored what a cached reply repeats, and the key has an effect if and only if the commit of that one request succeeded |
| WebhookEffects.RepliedWithoutEffect | services/tribe/router.py:352-360 | A run in which a request is told 200 and its effect is never committed |
| WebhookEffects.LockedForGoodIffAbandoned | services/tribe/router.py:362-370 | In every reachable state a key stays PROCESSING in every continuation if and only if an execution under it was cancelled |
| WebhookEffects.CancelledKeyRefusesRetries | services/tribe/router.py:292-303 | A run from the initial state in which a cancelled execution locks its key and a retry with a fresh nonce gets 409 |
| WebhookEndpoint.SoloFollowsProtocol | services/tribe/router.py:235-370 | The handler, undisturbed, takes exactly its protocol steps |
| WebhookEndpoint.WebhookEndpoint.ApiTribeWebhook | services/tribe/router.py:235-370 | Reply, both trackers and the execution counter of one undisturbed request; a bad signature reads and writes nothing |
| WebhookAnswers.VerdictIff | services/tribe/security.py:102-137 | Each verdict on timestamp and nonce has exactly its condition, with five minutes of tolerance and ten of retention |
| WebhookAnswers.CheckLeaves | services/tribe/security.py:64-86 | What the check leaves in the cache: untouched unless it came to the nonce, and then the nonces of the last ten minutes with this one |
| WebhookAnswers.StoreAnswers | services/tribe/security.py:172-226 | Every operation of the store by the status of the key, with the records of other keys untouched |
| WebhookAnswers.LookUpAnswers | services/tribe/router.py:276-303 | A request is answered with a stored response if and only if its key has one on record |
| WebhookAnswers.CheckAnswers | services/tribe/router.py:283-290 | A request goes on if and only if timestamp and nonce pass, and is told what was wrong otherwise |
| WebhookAnswers.AcquireAnswers | services/tribe/router.py:292-307 | A request executes if and only if its key is free or it names none |
| WebhookAnswers.ExecutionAnswers | services/tribe/router.py:352-370 | The end of an execution stores the response before the commit, and a failure frees the key |
| WebhookAnswers.ProperRequestIsProcessed | services/tribe/router.py:276-360 | In every reachable state a proper request with a free key, undisturbed, is executed once, answered 200 and recorded, and its effect committed |
| WebhookAnswers.SoloReplies | services/tribe/router.py:276-370 | Each reply of the undisturbed handler has exactly its condition on key, timestamp, nonce and work |
| Patterns.TryIsMatch | services/agent_runtime/sanitizer.py:8-29 | The backtracking search finds only matches of the declarative pattern semantics |
| Patterns.MatchIsFound | services/agent_runtime/sanitizer.py:8-29 | The backtracking search misses no match |
| Patterns.NoMatchIsNoStart | services/agent_runtime/sanitizer.py:8-29 | A text has no matching substring exactly when the search fails at every position |
| Sanitizer.MatchWasThere | services/agent_runtime/sanitizer.py:46-47 | A match after a substitution was there before it |
| Sanitizer.PassLeavesClean | services/agent_runtime/sanitizer.py:46-47 | A pass leaves no match of its own pattern and recreates none of a pattern that had none |
| Sanitizer.RulesAreIndependent | services/agent_runtime/sanitizer.py:8-29 | For the eight rules as they stand, no replacement completes an instance of its own or an earlier pattern |
| Sanitizer.SanitizedTextIsClean | services/agent_runtime/sanitizer.py:32-49 | For every input no substring of the output is an instance of any of the eight patterns |
| Sanitizer.OnlyDangerousTextChanges | services/agent_runtime/sanitizer.py:32-49 | A text within the bound is changed if and only if it contains an instance of a pattern |
| Sanitizer.SanitizingTwice | services/agent_runtime/sanitizer.py:32-49 | Sanitizing twice is sanitizing once, as long as the first result is within the bound |
| Sanitizer.SanitizeUntrustedInput | services/agent_runtime/sanitizer.py:32-49 | The loop over the rules computes the specified rewriting and its result is clean |
| Letters.SameIff | services/agent_runtime/sanitizer.py:8-29 | Comparing without regard to case identifies two characters if and only if they are equal or the two forms of one ASCII letter |
| SanitizerRules.RulesTakeInstances | services/agent_runtime/sanitizer.py:8-29 | Each of the eight patterns matches a text if and only if it is one of the tags, markers or headings described, in any letter case and with white space where it is allowed |
| SanitizerRules.CaseDoesNotMatter | services/agent_runtime/sanitizer.py:8-29 | Texts that differ in nothing but letter case are alike to every pattern: one contains an instance if and only if the other does |
| SanitizerRules.SubReplacesTheLeftmost | services/agent_runtime/sanitizer.py:46-47 | A substitution copies up to the leftmost instance, writes the replacement, and goes on behind it |
| SanitizerRules.RulesWrite | services/agent_runtime/sanitizer.py:9-28 | The replacement text of each of the eight rules |
| SanitizerRules.InstanceIsReplaced | services/agent_runtime/sanitizer.py:46-47 | A text that is one instance of a rule, and holds none of an earlier rule, becomes the replacement of that rule |
| SanitizerRules.LongTextIsCut | services/agent_runtime/sanitizer.py:43-44 | A text beyond the bound is sanitized as its first characters followed by the note on truncation |
| PromptWrapping.WrappedTaskClosesOnce | services/agent_runtime/sanitizer.py:52-65 | Whatever title and description are, the wrapped task holds exactly one untrusted_context tag in the sanitizer's sense, at the end |
| PromptWrapping.WrappedTaskEndsWithClose | services/agent_runtime/sanitizer.py:60-65 | That one tag is the closing tag |
| PromptWrapping.ToolTagPositions | services/agent_runtime/sanitizer.py:68-81 | Exactly where tool_result tags begin in a wrapped tool result |
| PromptWrapping.WrappedResultHasOwnTagsOnly | services/agent_runtime/sanitizer.py:68-81 | A wrapped tool result holds only its own two tool_result tags if and only if no opener dangles in the sanitized name or result |
| PromptWrapping.DanglingOpenerSurvives | services/agent_runtime/sanitizer.py:18-20 | A concrete result that passes unchanged and joins the closing tag into one more tag |
| PromptWrapping.WrappedTaskReads | services/agent_runtime/sanitizer.py:52-65 | The literal text of a wrapped task around its sanitized title and description |
| PromptWrapping.WrappedResultReads | services/agent_runtime/sanitizer.py:68-81 | The literal text of a wrapped tool result around its sanitized name and content |
| RateLimiter.SlidingWindowRateLimiter.Check | services/identity/rate_limiter.py:50-67 | Prunes the key's list and refuses, with its Retry-After, exactly when the list is full; other keys untouched |
| RateLimiter.SlidingWindowRateLimiter.RecordAttempt | services/identity/rate_limiter.py:69-77 | Prunes and appends the attempt; other keys untouched |
| RateLimiter.SlidingWindowRateLimiter.Reset | services/identity/rate_limiter.py:79-82 | Forgets the key and nothing else |
| RateLimiter.SlidingWindowRateLimiter.ClearAll | services/identity/rate_limiter.py:84-87 | Forgets every key |
| RateLimiter.PrunedListAgreesWithHistory | services/identity/rate_limiter.py:50-82 | After any run of check, record and reset the pruned list and the never-pruned history have the same live attempts and give the same verdict |
| RateLimiter.KeptIsFilteredHistory | services/identity/rate_limiter.py:50-77 | Right after a check or an attempt the list is the history since the last reset filtered to the window |
| RateLimiter.KeptIsSorted | services/identity/rate_limiter.py:69-77 | The list stays in order of time |
| RateLimiter.RetryAfterIsTight | services/identity/rate_limiter.py:58-67 | Retry-After lies in 1..window+1 and exceeds the least sufficient wait by at most one second (section 10.2.3 of RFC 9110) |
| RateLimiter.WaitingSuffices | services/identity/rate_limiter.py:58-67 | Waiting Retry-After seconds lets check pass if and only if the attempt that is max_requests-th from the end has expired by then |
| RateLimiter.WaitingSufficesAtTheLimit | services/identity/rate_limiter.py:58-67 | With exactly max_requests live attempts waiting always suffices, and no shorter wait than the oldest's remaining life does |
| RateLimiter.WaitingCanFallShort | services/identity/rate_limiter.py:58-67 | Over the limit the wait can fall short: an example |
| RateLimitProtocol.WaitingFallsShortInARun | services/identity/router.py:66-77 | A run with two overlapping requests that reaches such a list, after which waiting the answered seconds does not suffice |
| RateLimitProtocol.OvershootIsBounded | services/identity/router.py:66-77 | With at most k requests between check and record, live attempts plus requests in flight never exceed max_requests + k - 1 |
| RateLimitProtocol.EveryWindowIsBounded | services/identity/router.py:66-77 | No window anywhere holds more than max_requests + k - 1 attempts since the last reset |
| RateLimitProtocol.OvershootIsReached | services/identity/router.py:66-77 | The bound is tight for every k |
| RateLimitAnswers.CheckPassesIff | services/identity/rate_limiter.py:50-67 | Whatever was pruned before, a check passes if and only if fewer attempts since the last reset are less than a window old than the limit allows |
| RateLimitAnswers.BeginPassesIff | services/identity/router.py:66-77 | In every run a login gets past the limiter if and only if fewer failed attempts since the last success count than the limit allows |
| RateLimitAnswers.OutcomeCounts | services/identity/router.py:66-77 | A failed authentication adds one attempt to what counts, a success leaves none, any other error changes nothing |
| Judging.JudgingSession.SubmitScorecard | services/judging/service.py:141-270 | The conflict checks in their order, each refusal without a trace, and the evaluated session otherwise |
| JudgingAnswers.AcceptedIff | services/judging/service.py:156-195 | A card is accepted if and only if the session is open, the judge active, not the author, not of a department the author belongs to, and without a card in the session |
| JudgingAnswers.RefusedBecause | services/judging/service.py:156-195 | Each refusal has exactly its condition: the first check that fails |
| JudgingAnswers.AcceptedCardLeaves | services/judging/service.py:197-268 | What an accepted card leaves: deliberation below the required number, otherwise the nearest mean and either escalation, when two scores are more than 25.00 apart, or consensus with the first most frequent verdict and the closing time |
| JudgingAnswers.ProperCardIsAppended | services/judging/service.py:141-268 | In every run a proper card extends an open session and is then its last card |
| JudgingAnswers.PendingIffNoCards | services/judging/service.py:141-268 | In every run a session is PENDING_REVIEW if and only if nobody has submitted a card |
| JudgingAnswers.TwoJudges | services/judging/service.py:232-247 | Two scores escalate if and only if they are more than 25.00 points apart, for all scores |
| JudgingGuarantees.MeanIsBetween | services/judging/service.py:222-224 | The rounded mean lies between the smallest and the largest score |
| JudgingGuarantees.MajorityIsMaximal | services/judging/service.py:226-227 | The majority verdict was given by some judge and none was given more often |
| JudgingGuarantees.VerdictIgnoresOrderIffModeUnique | services/judging/service.py:226-227 | The verdict is the same for every order of the cards if and only if the mode is unique |
| JudgingGuarantees.EvaluationIgnoresOrder | services/judging/service.py:211-247 | Status and aggregate are invariant under any permutation of the cards, and so is the verdict when the mode is unique |
| JudgingGuarantees.NextKeepsInv | services/judging/service.py:156-268 | Every submission keeps what status says about cards, judges, aggregate and verdict |
| JudgingGuarantees.RunKeepsInv | services/judging/service.py:141-268 | In every state of every run of submissions the status fits the valid cards, and judges are distinct and not the author |
| JudgingGuarantees.EscalationIsAbsorbing | services/judging/service.py:232-247 | A session once escalated never returns to deliberation and never reaches consensus |
| JudgingGuarantees.ConsensusIsFinal | services/judging/service.py:156-157 | A session with consensus never changes again |
| JudgingGuarantees.ConsensusIsSound | services/judging/service.py:213-247 | Consensus means exactly the required number of valid cards, from distinct judges other than the author, any two scores and the aggregate within 25 points, and a verdict of maximal count |
| JudgingGuarantees.CardsWereAdmitted | services/judging/service.py:156-195 | Every card was admitted at one step of the run by an active judge, not the author and not of the author's department as the agent table stood then |
| ShutdownGuarantees.PassedMutationSawNormal | apps/api/dependencies.py:277-341 | For any processes, stale caches and interleaving: a plain mutation that passes on a database answer was there at a moment when the committed state was NORMAL or there was no row |
| ShutdownGuarantees.RestrictionHolds | apps/api/dependencies.py:277-341 | While the committed state is not NORMAL, every plain mutation that arrives is refused in every process if the database answers |
| ShutdownDecisions.RefusedIffEvidence | apps/api/dependencies.py:277-341 | In every run a plain mutation that was not overridden is refused if and only if the row its query saw, or otherwise the cache of its process at its one deciding step, was not NORMAL |
| ShutdownDecisions.DecisionIsUnique | apps/api/dependencies.py:273-309 | A gate decides once: the deciding step and its decision are unique in every run |
| ShutdownDecisions.RefusedUnderNormalIff | apps/api/dependencies.py:291-309 | The unjustified refusal, exactly: under a row that is NORMAL throughout, a plain mutation is refused if and only if it did not see the row and the cache was not NORMAL when it decided |
| ShutdownDecisions.PassedUnderRestrictionIff | apps/api/dependencies.py:299-309 | The unanswered pass, exactly: under a row that is restricted throughout, a plain mutation passes if and only if the database did not answer and the cache was NORMAL when it decided |
| ShutdownStaleness.OnlyTheHolderCommits | services/governance/shutdown.py:33-57 | The committed row moves only when the one holder of its lock commits what it wrote |
| ShutdownStaleness.QuiescentReadAgrees | services/governance/shutdown.py:33-57 | An undisturbed get_system_state makes the process's cache and the row agree, with or without a row, and touches no other cache |
| ShutdownStaleness.RefusalWasRequested | services/governance/shutdown.py:60-139 | In a system that started normal every refusal carries a state and reason some owner asked for, though perhaps never committed |
| ShutdownStaleness.GateNeverHealsTheCache | apps/api/dependencies.py:291-309 | The gate never refreshes a cache that is not NORMAL: it decides every request until somebody in that process reads or changes the state |
| ShutdownStaleness.RolledBackShutdownStillRefuses | services/governance/shutdown.py:71-77 | A run in which the row is NORMAL throughout and a mutation is refused |
| ShutdownDecisions.ShowsForGoodIff | services/governance/shutdown.py:33-57 | A process shows the committed row in every continuation that keeps it if and only if its cache shows it now and no reader of the process is late with another one |
| ShutdownDecisions.CommitIsShownIff | services/governance/shutdown.py:71-77 | A committed change is shown for good by its process if and only if the cache showed it at the commit and no reader of the process was late with something else |
| ShutdownDecisions.GateHealsIff | apps/api/dependencies.py:291-309 | Serving requests never changes a cache if and only if it is not NORMAL or right already: the gate repairs exactly the wrong NORMAL |
| ShutdownStaleness.LateReturnHidesTheShutdown | services/governance/shutdown.py:55-57 | A run in which a late reader overwrites the shutdown in the cache of the process that committed it |
| ShutdownStaleness.UnansweredGateCanPass | apps/api/dependencies.py:299-309 | A run in which the database does not answer and a mutation passes after a committed shutdown |
| ShutdownService.UndisturbedFollowsProtocol | apps/api/dependencies.py:273-309 | The gate, undisturbed, takes exactly its protocol steps |
| ShutdownService.ChangeAgreesIffCommitted | services/governance/shutdown.py:71-77 | After an undisturbed change cache and row agree if and only if it was committed or changed nothing |
| ShutdownService.RunStateService.GetSystemState | services/governance/shutdown.py:33-57 | Cache and row agree afterwards; an existing row and, without one, the cache are unchanged |
| ShutdownService.RunStateService.TriggerEmergencyShutdown | services/governance/shutdown.py:60-94 | Row and cache both hold the emergency with its reason |
| ShutdownService.RunStateService.OverrideSystemState | services/governance/shutdown.py:97-139 | Row and cache both hold the target; back to normal forgets the reason |
| ShutdownService.RunStateService.Verify | apps/api/dependencies.py:273-377 | The chain of fallbacks decides as the undisturbed protocol does and leaves its cache and row |
| ShutdownAnswers.VerdictFollowsTable | apps/api/dependencies.py:311-377 | The whole table of the gate by run state, method, declared mutation, path, owner row and database, with Retry-After 60 or 300 |
| ShutdownAnswers.EmergencyReadPassesIff | apps/api/dependencies.py:344-377 | In an emergency a read off the recovery paths passes if and only if it bears a valid owner token and there is no database, or the owner row is readable and missing or ACTIVE |
| ShutdownAnswers.RecoveryIff | apps/api/dependencies.py:244-256 | A path is a recovery path if and only if it ends in one of the nine endpoints, whatever slashes follow |
| ShutdownAnswers.DecisionFollowsTable | apps/api/dependencies.py:273-377 | In every run every gate, overridden or not, decided at one step by the test hook or its evidence, and answered by the table |
| ShutdownAnswers.QueriedAfterTheCache | apps/api/dependencies.py:291-304 | In every run a gate queries the row only after the cache of its process said NORMAL |
| ShutdownAnswers.GateLeaves | apps/api/dependencies.py:273-309 | What an undisturbed gate leaves in cache and row, and what it goes by |
| ShutdownAnswers.ChangeLeaves | services/governance/shutdown.py:60-139 | A committed change leaves state and reason in row and cache, and a return to NORMAL forgets the reason |
| AuthorityGuarantees.ApplyKeepsInv | services/agent_registry/service.py:152-327 | Every transaction keeps: only ACTIVE agents hold unrevoked grants, nobody granted anything to itself, artifacts match the successful writes |
| AuthorityGuarantees.ReplayKeepsInv | services/agent_registry/service.py:152-327 | After every history SUSPENDED and TERMINATED agents hold no unrevoked grant, nobody granted anything to itself, and artifacts match the successful writes |
| AuthorityProvenance.UnrevokedIffStands | services/agent_registry/service.py:171-176 | A grant is unrevoked if and only if it was issued and no revocation of it and no suspension or termination of its agent went through since |
| AuthorityProvenance.ToolRunsIffEntitled | services/tools/gateway.py:121-198 | A tool runs if and only if the system is normal, agent, tool and parameters are in order, whoever calls, and for everybody but the owner an unexpired grant naming the tool was issued while the agent was ACTIVE with nothing ending it since |
| AuthorityProvenance.SuccessRowsAreEntitled | services/tools/gateway.py:121-198 | Every SUCCESS row records a call made in normal operation for an agent that was ACTIVE then, with tool and parameters in order, by the owner or on a standing grant |
| AuthorityProvenance.OldGrantsAreDead | services/agent_registry/service.py:167-176 | Nothing granted before a suspension or termination entitles anything after it, restored or not |
| AuthorityProvenance.RestoreRevivesNoGrant | services/agent_registry/service.py:252-256 | Restoring leaves every grant of the agent revoked |
| AuthorityProvenance.TerminationLastsIffNeverSuspended | services/agent_registry/service.py:163-169 | Termination is permanent if and only if nobody suspends the terminated agent |
| AuthorityProvenance.SuspensionRevivesTerminated | services/agent_registry/service.py:252-256 | A terminated agent that is suspended and restored is ACTIVE, while restoring it directly is refused |
| AuthorityProvenance.TerminatedAgentReturns | services/agent_registry/service.py:152-271 | A legal history of four transactions in which a terminated agent becomes ACTIVE again |
| AuthorityConcurrent.RetirementReaches | services/agent_registry/service.py:171-176 | In every interleaving no grant that was on record at the bulk update is live after the suspension or termination commits |
| AuthorityConcurrent.OrphanNeedsOverlap | services/agent_registry/service.py:286-308 | In every interleaving an inactive agent holds a live grant only if its request read ACTIVE before a retirement committed and committed after that retirement's bulk update |
| AuthorityConcurrent.HoldsNothingIff | services/agent_registry/service.py:286-308 | An inactive agent holds nothing until it is restored, whatever comes next, if and only if it holds nothing now and no grant is between its check and its commit |
| AuthorityConcurrent.RetirementHoldsIff | services/agent_registry/service.py:163-176 | A suspension or termination that commits keeps its promise if and only if every live grant was there at its bulk update and none is between its check and its commit |
| AuthorityConcurrent.GrantSurvivesSuspension | services/agent_registry/service.py:252-256 | A run in which a grant survives a suspension and is live again after the restoration |
| AuthorityConcurrent.ReadPassesIff | services/agent_registry/service.py:245-254 | A request goes on after its read unless it asks for a grant to an inactive agent or the restoration of a terminated one |
| AuthorityConcurrent.CommitWrites | services/agent_registry/service.py:152-308 | What each commit writes: status unless it was read so, the end of the grants found, or the grant |
| AuthorityConcurrent.RevocationAndAbort | services/agent_registry/service.py:331-350 | Revoking one grant ends this one only, and an aborted transaction leaves no trace |
| AuthorityConcurrent.ReactivationHappened | services/agent_registry/service.py:237-256 | In every run an inactive agent becomes active only by a restoration that had read it as SUSPENDED |
| AuthorityProvenance.ArtifactsAreSuccessfulWrites | services/tools/gateway.py:200-213 | Rollback artifacts are exactly those of successful file writes done for a task, in order, none with an empty or climbing path |
| AgentRegistry.AgentRegistry.CreateAgent | services/agent_registry/service.py:28-90 | Outcome and tables of the creation rules |
| AgentRegistry.AgentRegistry.SuspendAgent | services/agent_registry/service.py:152-191 | Outcome and tables of a suspension with its bulk revocation |
| AgentRegistry.AgentRegistry.TerminateAgent | services/agent_registry/service.py:194-234 | Outcome and tables of a termination with its bulk revocation |
| AgentRegistry.AgentRegistry.RestoreAgent | services/agent_registry/service.py:237-271 | Outcome and tables of a restoration |
| AgentRegistry.AgentRegistry.IssuePermissionGrant | services/agent_registry/service.py:279-328 | Outcome and tables of a grant; inactive agents and self-grants are refused |
| AgentRegistry.AgentRegistry.RevokePermissionGrant | services/agent_registry/service.py:331-365 | Outcome and tables of a revocation |
| AgentRegistry.AgentRegistry.RegisterToolDefinition | services/tools/gateway.py:82-108 | Outcome and catalog; only the owner registers, and each name once |
| AgentRegistry.AgentRegistry.AllowsTool | services/tools/gateway.py:149-160 | Whether some unrevoked, unexpired grant of the agent names the tool |
| AgentRegistry.AgentRegistry.ExecuteTool | services/tools/gateway.py:111-270 | The policy chain in its order, with the execution row and artifact each outcome leaves when the caller catches the refusal |
| AuthorityAnswers.CallGoesThroughIff | services/tools/gateway.py:121-198 | A tool call goes through if and only if the system is normal, the agent ACTIVE, the tool registered and enabled, its path acceptable, and the caller the owner or the agent holding a current grant |
| AuthorityAnswers.CallRefusedBecause | services/tools/gateway.py:121-198 | Each refusal of the gateway has exactly its condition: the first check that fails |
| AuthorityAnswers.CallLeaves | services/tools/gateway.py:160-270 | The execution row and the artifact a tool call leaves, and that agents, grants and catalog stay |
| AuthorityAnswers.CreationIff | services/agent_registry/service.py:28-72 | When an agent is created, each refusal with its condition, and what is created |
| AuthorityAnswers.RetirementIff | services/agent_registry/service.py:152-234 | When an agent is suspended or terminated, and that it then has the status and none of its grants is left unrevoked |
| AuthorityAnswers.RestorationIff | services/agent_registry/service.py:237-256 | Restored is exactly who exists and is not terminated, by anybody but a worker, and no grant changes |
| AuthorityAnswers.IssueIff | services/agent_registry/service.py:279-308 | Issued is exactly to an ACTIVE agent by anybody but itself, with what was asked for |
| AuthorityAnswers.RevocationIff | services/agent_registry/service.py:331-350 | Revoked is exactly a grant on record that was not |
| AuthorityAnswers.RegistrationIff | services/tools/gateway.py:82-108 | The owner alone registers tools, each name once |
| TaskGuarantees.ActiveIffStands | services/bridges/service.py:127-198 | A bridge is ACTIVE if and only if it was requested, then approved, and not revoked since; its departments and expiry are those of the request |
| TaskGuarantees.RevocationIsFinal | services/bridges/service.py:142-151 | A revoked bridge stays revoked |
| TaskGuarantees.CreationIsBridged | services/tasks/service.py:78-112 | A task is created across departments if and only if (other checks aside) a bridge joining exactly those two was approved, unrevoked and unexpired at that moment |
| TaskGuarantees.AssignmentIsBridged | services/tasks/service.py:171-191 | An agent is assigned if and only if it is active, the task open, and its department the task's or joined to it by such a bridge |
| TaskGuarantees.RevokedSpansNothing | services/bridges/service.py:201-220 | A bridge revoked earlier justifies nothing later |
| TaskGuarantees.DelegationIsBridgedIff | services/tasks/service.py:271-313 | A delegation moves a task only over its bridge if and only if that bridge touches the task's current department |
| TaskGuarantees.TerminalLastsIffNotDelegated | services/tasks/service.py:26-53 | A completed, failed or cancelled task keeps its status if and only if nobody delegates it |
| TaskGuarantees.CompletedWasWorkedOn | services/tasks/service.py:26-53 | In every history a completed task, or one awaiting review, was in progress after it was last assigned |
| TaskGuarantees.DelegationRevivesAForeignTask | services/tasks/service.py:271-313 | A completed task is open again in another department over a bridge that has nothing to do with it |
| TaskGuarantees.CompletedTaskMoves | services/tasks/service.py:264-332 | A legal history in which a completed task is open again in a department its bridge does not join to the old one |
| TaskService.TaskService.RequestBridge | services/bridges/service.py:30-113 | Outcome and tables of a bridge request |
| TaskService.TaskService.ApproveBridge | services/bridges/service.py:127-166 | Outcome and tables of an approval; an expired bridge is marked and refused |
| TaskService.TaskService.RevokeBridge | services/bridges/service.py:169-198 | Outcome and tables of a revocation, whatever the status was |
| TaskService.TaskService.CheckActiveBridge | services/bridges/service.py:201-220 | Finds an active unexpired bridge between the two departments, in either direction, exactly when there is one |
| TaskService.TaskService.CreateTask | services/tasks/service.py:64-155 | Outcome and tables of a creation |
| TaskService.TaskService.AssignTask | services/tasks/service.py:164-210 | Outcome and tables of an assignment |
| TaskService.TaskService.TransitionTaskStatus | services/tasks/service.py:213-261 | Outcome and tables of a transition |
| TaskService.TaskService.DelegateTask | services/tasks/service.py:264-332 | Outcome and tables of a delegation |
| TaskAnswers.BridgeRequestIff | services/bridges/service.py:43-91 | When a bridge is requested: the roles, the departments, the end and the rule for sensitive data |
| TaskAnswers.BridgeRequestRefusedBecause | services/bridges/service.py:43-79 | Each refusal of a bridge request has exactly its condition: the first check that fails |
| TaskAnswers.BridgeApprovalIff | services/bridges/service.py:135-151 | When a bridge is approved, each refusal with its condition, and what the refusal of an expired one leaves |
| TaskAnswers.BridgeRevocationIff | services/bridges/service.py:177-183 | A bridge on record is revoked whatever its status |
| TaskAnswers.CreationIff | services/tasks/service.py:77-138 | When a task is created, over which bridge, for which agent, and with which status |
| TaskAnswers.AssignmentIff | services/tasks/service.py:171-195 | When a task is assigned, over which bridge, and that it stays in its department |
| TaskAnswers.TransitionIff | services/tasks/service.py:26-53 | The moves between statuses pair by pair; every other is refused |
| TaskAnswers.DelegationIff | services/tasks/service.py:271-317 | A delegation goes through if and only if the bridge named is ACTIVE and unexpired and the agent active and of one of its two departments; each refusal with its condition |
| TaskAnswers.DelegationRunsIffBridgeStands | services/tasks/service.py:275-302 | In every history a delegation goes through if and only if its bridge was requested and approved, not revoked since and not expired, and the agent belongs to one of its ends |
| TaskAnswers.NoDelegationOverRevoked | services/tasks/service.py:275-285 | No delegation ever goes through over a bridge revoked before |
| Redaction.SameResultIffAlike | services/audit/service.py:34-60 | Two payloads redact to the same result if and only if they differ at most in what stands under sensitive keys |
| Redaction.RedactingTwice | services/audit/service.py:34-60 | Redacting twice is redacting once |
| Redaction.LookupInRedacted | services/audit/service.py:34-60 | What stands at every path of the result: the mask at the first sensitive key, nothing below it, and everywhere else what was there, with keys and list lengths kept |
| Redaction.MetricCountersSurvive | services/audit/service.py:30-31 | The metric counters are not sensitive although they contain a sensitive part |
| Redaction.RedactValue | services/audit/service.py:34-39 | The list loop computes the specified redaction |
| Redaction.RedactPayload | services/audit/service.py:42-60 | The dictionary loop computes the specified redaction; a missing payload stays missing |
| RedactionKeys.SensitiveIff | services/audit/service.py:27-56 | A key is sensitive if and only if it spells out one of the six words, in any letter case, and is not one of the three counters |
| RedactionKeys.FieldsOfRedacted | services/audit/service.py:51-60 | Every field keeps its place and key, and its value is the mask or the redaction by the words its key spells out |
| RedactionKeys.PasswordsAreMasked | services/audit/service.py:55-56 | Whatever stands around it, a key with "password" in it, in any letter case, is masked as [REDACTED] |
| AgentRunner.CostIsFair | services/agent_runtime/provider.py:125-130 | The cost is within half a micro-dollar of the token price, never negative and monotone in both token counts |
| AgentRunner.DriftIsBounded | services/agent_runtime/runner.py:41-45 | After n cycles the recorded budget differs from the true sum of costs by at most n times 0.00005 dollars |
| AgentRunner.BudgetNeverDecreases | services/agent_runtime/runner.py:41-45 | The recorded budget is non-decreasing over any cycles |
| AgentRunner.WholeUnitsAreExact | services/agent_runtime/runner.py:41-45 | Costs in whole units of 0.0001 dollars are recorded exactly |
| AgentRunner.HalfUnitsAreNeverCharged | services/agent_runtime/runner.py:41-45 | The drift bound is reached: cycles of 0.00005 dollars are never charged |
| AgentRunner.ChargedExactlyIff | services/agent_runtime/runner.py:41-45 | A cycle is charged exactly if and only if it costs whole units, and not at all if and only if it costs less than half a unit, or half a unit on an even budget |
| AgentRunner.AgentRunner.RunAgentCycle | services/agent_runtime/runner.py:48-259 | Every returned result charges its cost once and writes exactly one runner event with that cost; an escaping exception does neither |
| AgentRunner.AuditExplainsBudget | services/agent_runtime/runner.py:87-252 | After any cycles on a task there is one event per returned result and the recorded budget is what the recorded costs charge |
| AgentRunner.BudgetMatchesAudit | services/agent_runtime/runner.py:87-252 | The budget strays from the audited costs by at most 0.00005 dollars a record |
| AgentRunner.SuccessIff | services/agent_runtime/runner.py:131-252 | Exactly when a cycle succeeds; only an owner's request for approval ever does |
| AgentAnswers.CostsByModel | services/agent_runtime/provider.py:25-31 | The cost of each model at its listed prices, to the nearest micro-dollar, a tie to the even one |
| AgentAnswers.CycleEndsIff | services/agent_runtime/runner.py:131-259 | How a cycle ends, decision by decision and role by role: allowed, denied, in error or by an exception |
| AgentAnswers.CycleLeaves | services/agent_runtime/runner.py:41-45 | What a cycle leaves in budget and audit trail, rounded once to 0.0001 dollars |
| Retry.GenerateDecision | services/agent_runtime/provider.py:322-392 | At most max(0, max_retries) + 1 calls with a sleep between any two, the decisive call's answer, and a total sleep between base*(2^n - 1) and that plus 0.05*n |
| Retry.RetryExternalSync | services/tribe/security.py:252-310 | At most max_retries + 1 calls with a sleep between any two, the decisive call's answer (none at all for a negative bound), and a total sleep within the jitter's share of the geometric sum up to the floor |
| Retry.DecisiveCallIsUnique | services/tribe/security.py:282-310 | Which call is decisive is determined by the answers alone |
| Retry.GeometricClosedForm | services/tribe/security.py:298-301 | The sum of the delays in closed form |
| Retry.FloorNeverMatters | services/tribe/security.py:298-301 | With growing delays that start above the floor the total is within the jitter's share exactly |
| RetryAnswers.RetriedIff | services/agent_runtime/provider.py:344-392 | Which replies are retried: 429, 5xx, timeouts and connection errors, and nothing else |
| RetryAnswers.ProviderSleeps | services/agent_runtime/provider.py:213-217 | Each sleep of the provider loop: the base doubled each time, with at most 0.05 seconds of jitter |
| RetryAnswers.SyncSleeps | services/tribe/security.py:297-301 | Each sleep of the sync loop: the factor and the draw it comes from, and the floor of 0.001 seconds |
| Permissions.AllowedIff | services/permissions/engine.py:37-328 | Case table: the engine allows exactly authenticated active actors who do not act on themselves and are the owner or hold a role for the action in an open run state |
| Permissions.ShutdownOnlyRestricts | services/permissions/engine.py:54-84 | Case table: whatever is allowed in any run state is allowed for the same reason in NORMAL, and the owner loses nothing |
| Permissions.OwnerDominates | services/permissions/engine.py:150-158 | Case table: the owner may do whatever anybody in the same place may |
| AgentAnswers.EngineAllowsIff | services/permissions/engine.py:37-328 | Case table: the engine action by action and role by role |
| AgentAnswers.EngineReasons | services/permissions/engine.py:54-165 | Case table: the reasons that come before the role is asked |
| AgentAnswers.RoleReasons | services/permissions/engine.py:165-328 | Case table: the reason given when the role decides, action by action |

## Left out

- Identity: the locked re-read of a token row (services/identity/service.py:305-309) is taken to return the current row, as the docstring intends; an object-relational session that keeps the first read is not modelled.
- Identity: token digests are injective, so a token row is named by its digest; random tokens, password hashing, JWT access tokens, audit calls and last_login_at are not modelled. The owner's row is read without a lock and enters as an observation.
- Identity: the first token of a session carries the configured refresh lifetime without the cap at the session's expiry, as in the source; only rotated tokens are capped.
- Identity: a request is answered when its transaction ends. sbom.json pins FastAPI 0.141.1, which sends a reply before the code after `yield` commits; a reply whose commit then fails counts as aborted here, so OneRotationPerToken and its neighbours speak of committed answers.
- Identity: the multi-row select of revoke_all_sessions locks its rows in one step; the order in which the database takes those locks is not modelled.
- Webhook: the reply may be sent before or after the commit, as versions of FastAPI differ in it; streaming and background tasks are not modelled.
- Webhook: signature verification is a boolean, request parsing is left out, and the timestamps created_at and completed_at of idempotency records are not modelled.
- Webhook: what an execution does between taking the key and storing its response, while other requests run, is opaque; what the ingestion of an external item writes is a single effect that commits or not.
- Sanitizer: texts are ASCII with a finite set of white space; Unicode case folding is not modelled. JSON rendering of tool results is an input.
- RateLimiter: seconds are exact reals, and all requests share one event loop; there the lock is never held across a suspension, so reading the clock and using the list are one step. Several loops with a lock each are not modelled.
- Judging: scores are exact hundredths and cards are kept in the order they were submitted; the database may return them in another order, which is what EvaluationIgnoresOrder and VerdictIgnoresOrderIffModeUnique are about. Consensus notes, rubrics and deliverables are left out.
- Shutdown: the tool gateway and scripts that consult only the cache are not part of the gate's guarantees; the run state a tool call sees is an input of the authority model.
- Shutdown: the updated_by and updated_at columns and audit calls are left out; a reader's seeded row and an owner's change exclude each other as the unique singleton column makes them.
- Authority: the tool gateway and the provenance theorems are about serial transactions; interleaving is modelled for the status and the grants of one agent (AuthorityConcurrent), where row locks of the bulk update, which only delay, are left out. Grants keep only the fields that decide tool calls; memory scopes, budgets and approval requirements of grants are left out, as is the agent's profile data.
- Authority: parameters of a tool call are reduced to its path; results, durations and audit events of the gateway are left out.
- Tasks: transactions are serial; titles, priorities, deadlines and artifacts are left out, and department and agent rows enter as what the transaction read.
- Redaction: keys are ASCII strings and values other than dictionaries and lists, tuples included, are opaque and pass through.
- AgentRunner: costs are exact micro-dollars and the budget exact multiples of 0.0001 dollars; binary floating point and the reload through the two-decimal column are not modelled. What the provider and the tool gateway answer are inputs.
- Retry: times are exact reals; latency measurement, request building and response parsing are left out, and random draws are inputs.
- Evolution, approvals, departments, memory, rollback, workspace, constitution, tribe mappings, TOTP, token signing, schemas, migrations and the web console would only add easy members.
