# Caliber: verified models of its protocols and algorithms

Caliber is a hiring platform: a gRPC server in Go, background jobs, and a web client in
TypeScript. Most of it moves records between a database, a language model and a screen. This
project models the parts whose correctness does not show in any one function body, and proves
what their comments and tests promise, or, where a promise fails, exactly when it holds.

`dafny verify dfyconfig.toml` checks everything. The table under "Model" gives the source lines of each result.

| modules | what they cover |
|---|---|
| `RateLimiting`, `RateLimiterAnswers`, `RateLimiterRuns`, `RateLimiterRefinement`, `RateLimiterQuota` | the token-bucket limiter with bounded memory |
| `JobStores`, `MemoryJobs`, `RedisJobs` | idempotent jobs over a local and over a shared, expiring store |
| `InterviewBroker`, `BrokerStreams` | channels between answer submission and interview streams, and when a stream keeps its own |
| `RefreshGrants`, `GrantFamilies`, `SessionPage`, `SessionLogout` | single-use refresh tokens, on the server and in one web page, and what a logout ends |
| `StreamFraming` | newline-delimited events read chunk by chunk |
| `Backoff` | retry delays in wrapping 64-bit arithmetic |
| `Sanitize`, `SanitizeProofs`, `SanitizeMeaning` | neutralizing untrusted text |
| `Text`, `Tokens`, `Fit`, `FitProofs`, `FitMeaning`, `Grounding`, `RoleGates`, `AgentScan`, `GateMeaning`, `RoleRanking` | tokens, rubric and fit, the two skill gates, the candidate agent and the two-way matcher |
| `Paging`, `Reencryption` | loops over paged collections, one of them rewriting while it reads |
| `InterviewDomain`, `Interviewer`, `InterviewRuns`, `InterviewMeaning`, `InterviewOverlap` | the interview state machine, whole runs of its use-case, and calls that overlap |
| `CostTracking` | spend and budget alerts |
| `AIQuality`, `AIQualityProofs`, `Sums`, `Sorting`, `Quotients` | the quality summary, and what it and others rest on |

Code that changes state is a class or a method proved against a function or relation on values;
the theorems are about every run of that relation. Concurrent code is a step relation whose
steps are the source's critical sections, store operations or await-free stretches. What the
specification functions themselves compute is stated apart from them, in the source's numbers and
texts, by the lemmas of `RateLimiterAnswers` and the modules whose names end in `Meaning`.

## Where the code and its documentation part

- Idle eviction is called behaviour-preserving without a condition. It is exactly when
  `burst <= rate * (600 s + 1 ns)`, which the constructor does not enforce
  (`RateLimiterRefinement.IdleEvictionPreservesAnswersIff`).
- A claim in Redis carries no owner, so a worker that outlives its claim can release or complete
  another's. Double runs are excluded in a run exactly while no worker at work has outlived its
  claim (`RedisJobs.RunSafeIffInTime`), and three steps from the start suffice for one
  (`RedisJobs.LateRunExists`).
- Truncating sanitized text can leave a forged marker or a run of three newlines, because the
  notice starts with a newline and brings its own bracket. `SanitizeProofs.TruncatedIsSafeIff` says
  when; `SanitizeProofs.TruncationForges` and `SanitizeProofs.TruncationLeavesTriple` give texts.
- The tokenizer is shared so that the skill gates cannot disagree, but only one of them knows
  skill aliases. They agree about a skill on every profile exactly when it takes no part in an
  alias (`Grounding.GatesAgreeIff`). In the direction the agent relies on they never conflict.
- A backoff shift can wrap to a short positive delay for policies other than the defaults
  (`Backoff.CappedIsIdealIff`, `Backoff.ShortDelayExists`).
- A report is meant to be final, but a call keeps its own copy of the interview between load and
  store. A call in flight can change a closed interview exactly when it loaded it open and its own
  guards pass (`InterviewOverlap.RunOverwritesClosedIff`); an answer sent twice at the time cap can
  lose the report (`InterviewOverlap.OverlapLosesReport`).

- The export loop is said to be unable to loop forever over a repository that misreports its total.
  It ends if and only if some page fails, is empty or completes the total it reports
  (`Paging.CollectingEndsIff`); a total that recedes from page to page keeps it going
  (`Paging.RecedingNeverEnds`). Bounded totals are enough (`Paging.EndsWithinTotals`).

Three more findings contradict no comment. A logout clears the page's token for good exactly when no
refresh under way may still return one (`SessionLogout.ClearIsFinalIff`); one that overtakes the
answer to a refresh is undone by it, even if it revoked the token on the server
(`SessionLogout.LogoutUndone`). A line holding a JSON null, which is well-formed JSON, ends
the interview stream (`StreamFraming.NullEndsStream`). And the broker's operations, taken alone,
accept any id at any time: no channel is closed under a stream in its loop, whatever follows, exactly
when every subscription finds its id vacant (`BrokerStreams.RunStaysOpenIff`). The handler
only subscribes ids made for a new interview, so its own streams are safe
(`BrokerStreams.StreamsStayOpen`).

## Model

| member | source | states |
|---|---|---|
| RateLimiting.RateLimiter.constructor | internal/adapters/inbound/grpc/ratelimit.go:115-133 | A positive rate and a burst of at least one are kept, anything else is replaced by a usable value, and the limiter starts empty. |
| RateLimiting.RateLimiter.AllowN | internal/adapters/inbound/grpc/ratelimit.go:143-183 | The limiter moves by the admission relation, which leaves open only which buckets a batch eviction drops. |
| RateLimiting.RateLimiter.EvictIdle | internal/adapters/inbound/grpc/ratelimit.go:190-196 | Exactly the buckets untouched for longer than the idle limit go; the others keep their tokens. |
| RateLimiting.RateLimiter.EvictBatch | internal/adapters/inbound/grpc/ratelimit.go:205-212 | At the cap, what is left is a part of what was there, of exactly the low-water size. |
| RateLimiting.RateLimiter.MakeRoom | internal/adapters/inbound/grpc/ratelimit.go:159-167 | The throttled sweep and then, only if still at the cap, a batch eviction. |
| RateLimiterAnswers.TrackedKeyAnswer | internal/adapters/inbound/grpc/ratelimit.go:143-183 | A tracked key last touched d nanoseconds ago holds min(burst, tokens + rate * d / 10^9); the request passes exactly when that covers its cost, between one and the burst, and leaves that minus the cost. |
| RateLimiterAnswers.StoppedClockAnswer | internal/adapters/inbound/grpc/ratelimit.go:168-183 | A clock that stands still or goes back earns nothing: the tokens held decide alone. |
| RateLimiterAnswers.NewKeyAnswer | internal/adapters/inbound/grpc/ratelimit.go:143-183 | A key that is not tracked starts with a full burst, passes, and is tracked with the rest. |
| RateLimiterAnswers.NewKeyEvicts | internal/adapters/inbound/grpc/ratelimit.go:158-167 | Only a new key evicts: at ten thousand keys what has been idle for more than ten minutes goes, at most once a second, and at twenty thousand exactly eighteen thousand others stay. |
| RateLimiterAnswers.RefusedOnlyOverQuota | internal/adapters/inbound/grpc/ratelimit.go:138-183 | In every run a request is refused only if, since some request, what was admitted for its key plus its own cost exceeds the burst plus what the rate earned meanwhile; traffic within its quota always passes. |
| RateLimiterAnswers.RefusedIffOverQuota | internal/adapters/inbound/grpc/ratelimit.go:138-183 | While no eviction resets the key, it is refused if and only if that is so. |
| RateLimiterRuns.StepBounded | internal/adapters/inbound/grpc/ratelimit.go:143-183 | Every admission keeps the bucket count within the cap and every bucket between empty and the burst. |
| RateLimiterRuns.MemoryBound | internal/adapters/inbound/grpc/ratelimit.go:92-97 | In every run, whatever the clock does, the map never exceeds its cap and every bucket holds 0 to burst tokens. |
| RateLimiterRuns.GrowthAfterBatch | internal/adapters/inbound/grpc/ratelimit.go:99-102 | After a batch eviction the map grows by no more than the new keys admitted since. |
| RateLimiterRuns.BatchesAreFarApart | internal/adapters/inbound/grpc/ratelimit.go:99-102 | Between two batch evictions at least cap minus low-water new keys are admitted, the amortized cost the comment claims. |
| RateLimiterRefinement.StepSimulates | internal/adapters/inbound/grpc/ratelimit.go:143-196 | With an absent key standing for a full bucket, one request gets the answer of a limiter that never evicts, and the correspondence is kept. |
| RateLimiterRefinement.RunSimulates | internal/adapters/inbound/grpc/ratelimit.go:185-196 | The same for every request of every run with a nondecreasing clock and no batch eviction. |
| RateLimiterRefinement.IdleEvictionObservable | internal/adapters/inbound/grpc/ratelimit.go:87-90 | When a bucket idle for the limit has not refilled, a concrete run of ten thousand keys gets an answer a limiter without eviction would refuse. |
| RateLimiterRefinement.IdleEvictionPreservesAnswersIff | internal/adapters/inbound/grpc/ratelimit.go:87-90 | Idle eviction is unobservable in every run if and only if the shortest evictable idle time refills an empty bucket. |
| RateLimiterQuota.EvictionNeverLowers | internal/adapters/inbound/grpc/ratelimit.go:185-212 | No sweep and no batch eviction lowers the tokens any other key would find. |
| RateLimiterQuota.StepPays | internal/adapters/inbound/grpc/ratelimit.go:143-183 | What a request spends comes out of the tokens available, unless a batch eviction, or a sweep of a bucket that had not refilled, reset the key. |
| RateLimiterQuota.Quota | internal/adapters/inbound/grpc/ratelimit.go:138-183 | Where an idle bucket has refilled, over any window of any run the cost admitted for a key is at most (1 + resets) * burst, one for each batch eviction that reset it, plus what the rate earns over the window. |
| RateLimiterQuota.QuotaOfAny | internal/adapters/inbound/grpc/ratelimit.go:138-196 | For every configuration the same bound holds when each idle sweep that dropped the key counts as well. |
| JobStores.MemoryIdempotencyStore.Claim | internal/adapters/inbound/jobs/idempotency.go:61-73 | A blank key is an error; otherwise the claim succeeds exactly when the key is unknown, and then marks it in progress. |
| JobStores.MemoryIdempotencyStore.Complete | internal/adapters/inbound/jobs/idempotency.go:75-85 | A blank key is an error; otherwise the key is marked completed whatever it was. |
| JobStores.MemoryIdempotencyStore.Release | internal/adapters/inbound/jobs/idempotency.go:87-98 | A blank key is an error; a key in progress is forgotten and a completed one stays. |
| JobStores.Deliver | internal/adapters/inbound/jobs/idempotency.go:123-185 | One undisturbed delivery: rejected, a duplicate, or run; the key ends completed exactly when the job succeeded, and claimable when it failed or panicked. |
| JobStores.RedisIdempotencyStore.Claim | internal/adapters/inbound/jobs/idempotency_redis.go:44-55 | The claim takes effect exactly when no live value is there, and expires after fifteen minutes; a fault may hide the outcome. |
| JobStores.RedisIdempotencyStore.Complete | internal/adapters/inbound/jobs/idempotency_redis.go:57-65 | The done value, which expires after twenty-four hours, replaces whatever is stored, unless the call never reached the store. |
| JobStores.RedisIdempotencyStore.Release | internal/adapters/inbound/jobs/idempotency_redis.go:67-73 | The key is deleted unless a live done value is there, whoever claimed it. |
| MemoryJobs.StepHeld | internal/adapters/inbound/jobs/idempotency.go:61-98 | Every step keeps a key in progress exactly when one worker holds it. |
| MemoryJobs.StepSuccesses | internal/adapters/inbound/jobs/idempotency.go:153-185 | Every step keeps the successes of a key at one when it is completed or about to be, and at none otherwise. |
| MemoryJobs.ExactlyOnce | internal/adapters/inbound/jobs/idempotency.go:33-40 | In every interleaving of workers, redeliveries and panics, the job of a key succeeds at most once and a key is in progress exactly when one worker holds it. |
| MemoryJobs.CompletedForever | internal/adapters/inbound/jobs/idempotency.go:75-98 | A completed key is never claimable again and has succeeded exactly once. |
| MemoryJobs.FailureLeavesClaimable | internal/adapters/inbound/jobs/idempotency.go:153-185 | After a failed or panicking run lets go, the key is unclaimed, has no success, and the next delivery gets it. |
| MemoryJobs.DeliveryRunsIff | internal/adapters/inbound/jobs/idempotency.go:123-160 | A delivery starts the job exactly when its key is not blank and nothing is stored for it; otherwise it changes nothing. |
| MemoryJobs.JobRunsThrough | internal/adapters/inbound/jobs/idempotency.go:153-185 | A new key's delivery, return and completion leave the key completed with one success and the worker gone. |
| RedisJobs.DoneSuppresses | internal/adapters/inbound/jobs/idempotency_redis.go:12-20 | In every run from the start, punctual or not: for twenty-four hours after a completion that reaches the store, the key stays done and no delivery of it starts a worker. |
| RedisJobs.ClaimSuppresses | internal/adapters/inbound/jobs/idempotency_redis.go:12-17 | A delivery of a key with nothing live stored runs, and until fifteen minutes later no other delivery of the key does while the store is left alone. |
| RedisJobs.DoneIsForgotten | internal/adapters/inbound/jobs/idempotency_redis.go:12-20 | Once a stored value has expired the next delivery runs the job again. |
| RedisJobs.StepInv | internal/adapters/inbound/jobs/idempotency_redis.go:44-73 | While every worker at work is within its claim, each step keeps every claim where its worker put it and keeps holders exclusive. |
| RedisJobs.PunctualRunsExclude | internal/adapters/inbound/jobs/idempotency_redis.go:12-26 | If every worker lets go or crashes before its claim expires, no two workers ever run the job of one key at once. |
| RedisJobs.OverstayBreaks | internal/adapters/inbound/jobs/idempotency_redis.go:44-73 | From any state in which one worker has outlived its claim, a run with no further passage of time has two workers in the job at once. |
| RedisJobs.LateRunExists | internal/adapters/inbound/jobs/idempotency_redis.go:12-26 | From the start: a delivery, the claim's whole lifetime, and a redelivery have two workers in the job at once. |
| RedisJobs.SafeIffInTime | internal/adapters/inbound/jobs/idempotency_redis.go:44-73 | No interleaving of the next steps can double-run a key if and only if every worker at work is within the lifetime of its claim. |
| RedisJobs.RunSafeIffInTime | internal/adapters/inbound/jobs/idempotency_redis.go:44-73 | Over every run from the start, no state is unsafe in that sense if and only if no worker is ever late. |
| RedisJobs.StepCounted | internal/adapters/inbound/jobs/idempotency.go:153-185 | Each step keeps the successes accounted for: recorded, lost in completing, or still to be recorded. |
| RedisJobs.SuccessesBounded | internal/adapters/inbound/jobs/idempotency.go:153-185 | While done values live and workers are punctual, a job succeeds at most once more often than it succeeded without being recorded. |
| InterviewBroker.Broker.Subscribe | internal/adapters/inbound/grpc/interview.go:48-57 | A new empty, open channel replaces the entry of the id; earlier subscriptions are untouched. |
| InterviewBroker.Broker.Publish | internal/adapters/inbound/grpc/interview.go:62-83 | A message is accepted exactly when the id is subscribed, open and not full, and then lands at the end of that queue only. |
| InterviewBroker.Broker.Unsubscribe | internal/adapters/inbound/grpc/interview.go:85-99 | The entry goes and its channel is closed; nothing else changes. |
| InterviewBroker.StepOneCloser | internal/adapters/inbound/grpc/interview.go:62-99 | With lookup and send, and delete and close, as separate steps, each open channel keeps at most one party that can close it, and no step panics. |
| InterviewBroker.StepFlows | internal/adapters/inbound/grpc/interview.go:62-151 | Each step keeps what a stream received followed by its queue equal to what was accepted for it, and empty frames behind all of it. |
| InterviewBroker.NeverPanics | internal/adapters/inbound/grpc/interview.go:48-99 | No interleaving sends on a closed channel or closes one twice, even when ids are reused. |
| InterviewBroker.DeliversInOrder | internal/adapters/inbound/grpc/interview.go:116-151 | Each stream has carried a prefix of the accepted messages in acceptance order, its queue is within capacity, nothing is missing while it loops, and empty frames come only from a closed channel and after every accepted message. |
| InterviewBroker.SendAppends | internal/adapters/inbound/grpc/interview.go:62-83 | A send grows the queue and what was accepted by exactly its message, unless the channel is closed or holds its capacity; nothing else changes. |
| InterviewBroker.EverySendAppends | internal/adapters/inbound/grpc/interview.go:62-83 | The same at every send of every run, with the capacity that was asked for, or four. |
| InterviewBroker.LookupFinds | internal/adapters/inbound/grpc/interview.go:62-70 | A publisher's message goes to the channel subscribed last under its id. |
| InterviewBroker.ReceiveCarries | internal/adapters/inbound/grpc/interview.go:139-151 | A looping stream takes the oldest message of its queue and sends it, and leaves after a report or a failed send. |
| BrokerStreams.StepUncontested | internal/adapters/inbound/grpc/interview.go:62-99 | No step but a subscription makes a channel of a looping stream closed, doomed or contested. |
| BrokerStreams.StaysOpenIff | internal/adapters/inbound/grpc/interview.go:85-151 | At any reachable state, no continuation without a subscription closes the channel of a looping stream if and only if none has a closed channel, one about to be closed, or a mapped id that another stream has yet to unsubscribe. |
| BrokerStreams.SubscribeUncontestedIff | internal/adapters/inbound/grpc/interview.go:48-57 | A subscription keeps every stream safe if and only if no earlier stream of its id has yet to unsubscribe. |
| BrokerStreams.RunStaysOpenIff | internal/adapters/inbound/grpc/interview.go:48-99 | Over a whole run every state is safe in that sense if and only if every subscription finds its id vacant. |
| BrokerStreams.StreamsStayOpen | internal/adapters/inbound/grpc/interview.go:130-151 | As the handler subscribes only new ids, none of its streams ever reads from a closed channel or carries an empty frame. |
| BrokerStreams.ReusedIdStarvesStream | internal/adapters/inbound/grpc/interview.go:85-99 | A run of the broker in which an id is subscribed while its first stream loops: the second stream ends up looping over empty frames, out of reach of any message. |
| RefreshGrants.RefreshStore.Save | internal/app/auth.go:87-99 | The grant is recorded under its id, unless the save is lost, and no other changes; the caller learns of success only. |
| RefreshGrants.RefreshStore.Consume | internal/app/auth.go:87-99 | It succeeds exactly on a known, unrevoked, unexpired grant, which it revokes in the same step; a failure changes nothing. |
| RefreshGrants.RefreshStore.Revoke | internal/app/auth.go:87-99 | The named grant becomes revoked if it exists. |
| RefreshGrants.Issue | internal/app/identity/service.go:271-286 | A session is returned exactly when signing and saving succeed; the grant is stored then, and also when a save takes effect although its caller sees an error. |
| RefreshGrants.Refresh | internal/app/identity/service.go:191-211 | It succeeds exactly on a consumable token of an active account with a session issued; a consumable token is spent either way, a failing save may leave its successor, and the number of live grants never rises. |
| RefreshGrants.Logout | internal/app/identity/service.go:213-221 | The token's grant is revoked; an unverifiable token changes nothing. |
| RefreshGrants.RevokeLowersLive | internal/app/auth.go:87-99 | Revoking an unrevoked grant lowers the number of live grants by exactly one. |
| GrantFamilies.StepOnePerFamily | internal/app/identity/service.go:191-213 | Every step keeps, for each sign-in, at most one usable grant or one refresh under way, never both. |
| GrantFamilies.SingleUse | internal/app/identity/service.go:189-213 | In every interleaving a grant is consumed at most once, and once consumed it can never be consumed again. |
| GrantFamilies.LiveGrantsBounded | internal/app/identity/service.go:191-213 | However tokens are rotated or replayed, no more grants are live than there were sign-ins. |
| GrantFamilies.GrantsKeepAccount | internal/app/identity/service.go:191-211 | In every interleaving each grant belongs to the account whose sign-in started its family. |
| GrantFamilies.StaysOverIff | internal/app/identity/service.go:191-221 | No future of the server makes a family usable again if and only if none of its grants is usable and none is being rotated. |
| GrantFamilies.RevokeEndsFamilyIff | internal/app/identity/service.go:213-221 | A logout ends its session for good if and only if no other grant of the family is usable and no refresh of it is under way; with the usable grant it always does. |
| GrantFamilies.ConsumeIff | internal/app/auth.go:87-99 | A consume step takes effect exactly on a grant that is neither revoked nor expired, which it revokes while a rotation begins; otherwise nothing changes. |
| GrantFamilies.NothingExpiredIsConsumed | internal/app/identity/service.go:191-211 | In every run, whatever is consumed and whatever rotation begins was, at that instant, neither revoked nor expired. |
| GrantFamilies.GrantsWork | internal/app/identity/service.go:271-286 | A sign-in starts a family with a usable grant of that account and expiry, and a save gives the family of the rotation its next one. |
| SessionPage.StepPage | web/src/api/client.ts:27-57 | Every page step keeps a posted token out of the store except as the refresh under way, and tokens still to arrive unposted. |
| SessionPage.PostedAtMostOnce | web/src/api/client.ts:27-57 | Over every interleaving of 401s, sign-ins, logouts, lost answers and other clients, the page posts each refresh token at most once and the server consumes it at most once. |
| SessionPage.PostsDiffer | web/src/api/client.ts:27-57 | Two refresh requests of one page never carry the same token. |
| SessionPage.SignInWorks | web/src/query/auth.ts:18-34 | An answered sign-in leaves the page with the new token, for which the server holds an unrevoked grant. |
| SessionPage.RefreshWorks | web/src/api/client.ts:27-57 | A refresh with a token that is neither revoked nor expired, served, saved and settled, leaves the page with the new token of the same account. |
| SessionLogout.ServeIff | internal/app/identity/service.go:191-211 | The server goes on with a posted token exactly when it is neither revoked nor expired, and else answers without one and changes nothing. |
| SessionLogout.ExpiredNeverReturns | web/src/api/client.ts:30-57 | In every run a refresh whose token had expired before the server looks at it settles, if it does, with the page signed out. |
| SessionLogout.StaysSignedOutIff | web/src/api/client.ts:30-57 | A page without a token gets none before the next sign-in, whatever happens, if and only if no refresh under way carries an unrevoked grant, is being served, or has been answered with a token. |
| SessionLogout.ClearIsFinalIff | web/src/query/auth.ts:36-50 | The same at every clearing of the page's store in every run. |
| SessionLogout.LogoutUndone | web/src/query/auth.ts:36-50 | For every page that opens with an unrevoked token, a run in which a logout, revocation included, overtakes the answer to a refresh, and the page ends up with a token that is not revoked. |
| StreamFraming.SplitIsExact | web/src/api/interview.ts:28-41 | Splitting at newlines loses nothing and leaves no newline in any line. |
| StreamFraming.StreamInterview | web/src/api/interview.ts:21-48 | For every way of cutting the text into chunks, the events and the exception are those of splitting the whole text at once and parsing each line, the unterminated tail included; a text of frames that carry truthy events gives exactly those events. |
| StreamFraming.ThrowsAtFirstBadLine | web/src/api/interview.ts:50-67 | The stream throws if and only if some line holds, between white space, a JSON null or a value with a truthy error; then it yields exactly the events before the first such line and throws what that line says, else the events of every line. |
| StreamFraming.NullEndsStream | web/src/api/interview.ts:58-66 | A line holding a JSON null throws, although malformed lines are skipped, so nothing after it is seen. |
| StreamFraming.TrimGivesBody | web/src/api/interview.ts:52-56 | Trimming a line that holds a body between white space gives the body. |
| StreamFraming.SkippedLines | web/src/api/interview.ts:52-62 | A blank line and a line whose body is not JSON give nothing. |
| StreamFraming.GoodLine | web/src/api/interview.ts:58-67 | A value without a truthy error gives its result, or itself when it has none, and nothing when that is falsy. |
| StreamFraming.ErrorLine | web/src/api/interview.ts:63-66 | A null throws a type error, and an error frame its message or the default one. |
| StreamFraming.FramesYield | web/src/api/interview.ts:6-8 | Lines that hold, each before its newline, a value whose result is a truthy event give exactly those events, in order, and no exception. |
| Backoff.ComputeBackoff | internal/app/queue/task_dispatcher.go:100-128 | The delay is the jittered capped delay of the settings that non-positive or inverted ones stand for. |
| Backoff.CappedIsIdealIff | internal/app/queue/task_dispatcher.go:97-117 | The delay is min(initial * 2^n, max) if and only if the bits surviving the 64-bit shift do not look like a short positive delay. |
| Backoff.NeverWrapsShort | internal/app/queue/task_dispatcher.go:114-117 | No retry wraps short when the odd part of the initial delay times the maximum stays below 2^63. |
| Backoff.BackoffExact | internal/app/queue/task_dispatcher.go:97-117 | Under that condition every retry waits min(initial * 2^n, max), never less than the one before. |
| Backoff.DefaultsExact | internal/app/queue/task_dispatcher.go:70-95 | Every default policy has the ideal delay at every retry. |
| Backoff.ShortDelayExists | internal/app/queue/task_dispatcher.go:114-117 | A policy whose fourth retry waits eight nanoseconds where its maximum is due. |
| Backoff.JitterWithinSpreadIff | internal/app/queue/task_dispatcher.go:119-127 | The jittered delay is nonnegative and within half the spread for every draw if and only if adding half the spread cannot overflow. |
| Backoff.DefaultsWithinATenth | internal/app/queue/task_dispatcher.go:70-128 | With a default policy every retry waits, for every draw, within a tenth of min(initial * 2^n, max), rounding included, and never panics. |
| Backoff.JitteredIs | internal/app/queue/task_dispatcher.go:119-127 | Unless the addition overflows, the draw moves the delay up from half the spread below it. |
| Backoff.JitterReachesAll | internal/app/queue/task_dispatcher.go:119-127 | With jitter the delays that can be drawn are exactly those from half the spread below to the rest of it above; without jitter the delay never moves. |
| Backoff.SpreadIs | internal/app/queue/task_dispatcher.go:120-121 | The spread is the whole part of the delay times the jitter. |
| Backoff.AgentRetriesAfter | internal/app/queue/task_dispatcher.go:70-79 | The retries of an agent run or a scoring wait 5, 10, 20, 40, 80, 160 and then always 300 seconds before jitter. |
| Backoff.OtherRetriesAfter | internal/app/queue/task_dispatcher.go:80-94 | A rematch waits 10, 20, 40, 80 and then 120 seconds, the retention sweep 10, 20, 40 and then 60. |
| Sanitize.SanitizeText | internal/domain/guard/guard.go:45-68 | The loop and the two rewrites compute the sanitized text, cut after 24,000 characters with the notice appended. |
| SanitizeProofs.MatchesIff | internal/domain/guard/guard.go:26-29 | The scanner recognizes a position exactly when the text there splits into the parts of the forged-marker expression. |
| SanitizeProofs.ScrubMarkerFree | internal/domain/guard/guard.go:65-65 | Replacing markers leaves none, not even across a replacement. |
| SanitizeProofs.CollapseMarkerFree | internal/domain/guard/guard.go:66-66 | Collapsing newlines cannot complete a marker that was not there. |
| SanitizeProofs.CollapseNoTriple | internal/domain/guard/guard.go:66-66 | No run of three newlines is left. |
| SanitizeProofs.UntruncatedIsSafe | internal/domain/guard/guard.go:45-68 | Text within the bound comes out with no forged marker, no run of three newlines and no dropped character class, and sanitizing it again changes nothing. |
| SanitizeProofs.TruncatedIsSafeIff | internal/domain/guard/guard.go:141-150 | Truncated text has no forged marker if and only if the cut leaves no opener, and no run of three newlines if and only if the cut leaves no blank line at its end. |
| SanitizeProofs.TruncationForges | internal/domain/guard/guard.go:141-150 | There is text, clean and free of markers, whose truncation holds one. |
| SanitizeProofs.TruncationLeavesTriple | internal/domain/guard/guard.go:141-150 | There is text, clean and free of three newlines in a row, whose truncation has them. |
| SanitizeMeaning.FirstMarkerReplaced | internal/domain/guard/guard.go:65-65 | The first marker of a text becomes the replacement, what precedes it stays as it is, and what follows it is treated alike. |
| SanitizeMeaning.FenceIsMarker | internal/domain/guard/guard.go:36-43 | A begin or end fence, whatever its title, is recognized and replaced. |
| SanitizeMeaning.LongerWordIsNoMarker | internal/domain/guard/guard.go:26-29 | A word that goes on after the marker's last one makes no marker. |
| SanitizeMeaning.NoFenceSurvives | internal/domain/guard/guard.go:26-68 | Sanitized text within the bound holds no begin or end fence of any title, so it cannot close the block it is put into. |
| SanitizeMeaning.RunBecomesTwo | internal/domain/guard/guard.go:66-66 | A run of three or more newlines becomes exactly two, a shorter one stays, and the text on both sides is collapsed on its own. |
| SanitizeMeaning.CharactersKept | internal/domain/guard/guard.go:49-64 | Printable ASCII, newline and tab stay; controls, zero-width characters, direction overrides and the byte-order mark go. |
| Text.TrimSpaceEmpty | internal/domain/role/rubric.go:20-28 | Trimming leaves nothing exactly when there was only white space. |
| Text.TrimSpaceIs | internal/domain/role/rubric.go:20-28 | Trimming takes away exactly the white space at both ends. |
| Tokens.HasPhrase | internal/domain/kernel/tokens.go:20-40 | A phrase is found exactly when it is not empty and is a contiguous run of the tokens. |
| Tokens.TokensOfJoin | internal/domain/kernel/tokens.go:8-18 | Text joined by a separator has the tokens of its parts, in order. |
| Tokens.NormalTokens | internal/domain/kernel/tokens.go:8-18 | Trimming before lower-casing makes no difference to the tokens. |
| Tokens.TokensAreStable | internal/domain/kernel/tokens.go:8-18 | Joining the tokens and splitting again gives them back, and no token is empty or holds a separator. |
| Tokens.TokensOfWord | internal/domain/kernel/tokens.go:8-18 | A word is its own only token, and separators have none; with the joining law that fixes the tokens of every text. |
| Tokens.OccursIff | internal/domain/kernel/tokens.go:20-40 | A phrase occurs if and only if the tokens are something, then the phrase, then something. |
| Fit.ComputeTotalWeight | internal/domain/role/rubric.go:35-42 | The loop computes the sum of the weights. |
| Fit.NormalizeRubric | internal/domain/role/rubric.go:64-75 | The loop computes the normalized rubric; a zero total leaves it as it was. |
| Fit.ValidateRubric | internal/domain/role/rubric.go:20-60 | It accepts exactly nonempty rubrics with nonblank names, weights in [0, 1] and a sum from 0.99 to 1.01. |
| Fit.FindLevel | internal/domain/matching/fit.go:77-87 | The first signal whose name is the key or carries it as a token decides. |
| Fit.ComputeFit | internal/domain/matching/fit.go:43-66 | The loop computes the fit defined entry by entry. |
| FitProofs.ScoreInUnit | internal/domain/matching/fit.go:36-66 | With nonnegative weights the score lies in [0, 1]. |
| FitProofs.MustHavesMetIff | internal/domain/matching/fit.go:57-60 | The must-haves are met if and only if nothing is missing, and if and only if each named must-have is evidenced at the minimum. |
| FitProofs.FitMonotone | internal/domain/matching/fit.go:43-66 | A candidate with at least the evidence of another never scores lower nor misses a must-have the other meets. |
| FitProofs.EvidenceNeverHurts | internal/domain/matching/fit.go:43-66 | Appending a signal or raising a level never lowers the score nor unmeets the must-haves. |
| FitProofs.NormalizeIdempotent | internal/domain/role/rubric.go:62-75 | Normalizing twice is normalizing once. |
| FitProofs.NormalizedValidatesIff | internal/domain/role/rubric.go:44-75 | A normalized rubric validates if and only if the raw one is nonempty, well named, has a nonzero total and no weight of the opposite sign. |
| FitProofs.FitOfNormalized | internal/domain/matching/fit.go:43-66 | Normalizing the rubric changes nothing about the fit. |
| FitMeaning.LevelFound | internal/domain/matching/fit.go:77-87 | The level is that of the first signal whose name is the competency's or has it as a token, and there is none exactly when no signal does. |
| FitMeaning.FitIsWeightedMean | internal/domain/matching/fit.go:43-66 | The score is the mean, weighted over the entries that have a name, of level over five kept within [0, 1]; covered are exactly the entries answered, and missing exactly the must-haves without a level or below two. |
| FitMeaning.OneCompetency | internal/domain/matching/fit.go:43-66 | A single named competency scores its level over five, whatever it weighs. |
| FitMeaning.TotalOfMore | internal/domain/role/rubric.go:35-42 | A rubric's total starts at nothing and grows by the weight of each entry. |
| FitMeaning.NormalizeKeepsProportions | internal/domain/role/rubric.go:62-75 | Normalizing keeps names and flags, and each weight times the old total is the old weight. |
| Grounding.CoversCompetencyCheck | internal/domain/candidateagent/grounding.go:53-63 | It accepts exactly when some profile competency covers the key up to aliases. |
| Grounding.Mentions | internal/domain/candidateagent/grounding.go:102-121 | The mention search finds exactly what the kernel's phrase search finds. |
| Grounding.CheckGrounding | internal/domain/candidateagent/grounding.go:38-51 | The list holds, in role order, the competencies mentioned and not covered; the summary is grounded exactly when it is empty. |
| Grounding.FabricatedIff | internal/domain/candidateagent/grounding.go:38-51 | A competency is listed if and only if it is the role's, named in the summary and not covered by the profile. |
| Grounding.GateImpliesCovered | internal/domain/candidateagent/grounding.go:53-63 | What the must-have gate finds on a profile the grounding check also finds. |
| Grounding.CoveredIsNeverFabricated | internal/domain/candidateagent/grounding.go:38-63 | A competency the must-have gate finds is never listed as fabricated, whatever the summary says. |
| Grounding.AliasSplitsGates | internal/domain/candidateagent/grounding.go:65-91 | A profile holding an alias of a skill is covered for the one gate and not found by the other. |
| Grounding.GatesAgreeIff | internal/domain/candidateagent/grounding.go:65-91 | The gates agree about a key on every profile if and only if no alias involves it. |
| RoleGates.LocationMismatch | internal/domain/matching/filter.go:170-190 | It fires exactly when the role is not remote, both locations are known, and they share no token. |
| RoleGates.ScreenLogistics | internal/domain/matching/filter.go:95-120 | One exclusion for each conflict, location first: places that share no word, and a floor above the ceiling in the same known currency; unknown or differing data never excludes. |
| RoleGates.RemoteIfAnyPartIs | internal/domain/matching/filter.go:76-93 | A location listing several places allows remote work if and only if one of them does. |
| RoleGates.MorePlacesNeverConflict | internal/domain/matching/filter.go:170-190 | Adding a place to a candidate's location conflicts only if every known place conflicts. |
| RoleGates.ViolatesDealBreaker | internal/domain/matching/filter.go:61-74 | It fires exactly when some deal-breaker's tokens occur as a phrase of the role text. |
| RoleGates.RoleTextTokens | internal/app/candidateagent/runner.go:246-249 | The text deal-breakers are looked for in has exactly the tokens of the role's fields, in order. |
| RoleGates.DealBreakerFound | internal/app/candidateagent/runner.go:246-249 | A deal-breaker occurring in any field excludes the role, and a one-word deal-breaker excludes it only then. |
| RoleGates.EnsureBiasSafe | internal/domain/matching/bias.go:34-46 | A rubric is safe exactly when no name is one of the seven protected attributes, case and padding ignored. |
| RoleGates.CheckEligible | internal/app/candidateagent/runner.go:237-251 | The agent's gate accepts exactly the roles with no conflict, no deal-breaker and every must-have evidenced. |
| RoleGates.EvaluateRoleFit | internal/app/matching/twoway.go:92-112 | The matcher surfaces a role if and only if the agent's gate accepts it and its rubric is bias-safe, with its fit. |
| RoleGates.RemoteWord | internal/domain/matching/filter.go:76-93 | A single word allows remote work exactly when it is "remote" up to letter case, and a dash parts words. |
| GateMeaning.EligibleIff | internal/app/candidateagent/runner.go:237-251 | A role is eligible if and only if the places do not clash, the pay asked for is not above the ceiling in the same currency, no deal-breaker's words stand next to each other in its text, and each named must-have's first answering signal is at two or above. |
| AgentScan.Consider | internal/app/candidateagent/runner.go:253-293 | The outcome is decided by the recommendation, the fit floor, grounding and a nonblank summary, in that order; a refused insertion is an error. |
| AgentScan.MustHaveNeverFabricated | internal/app/candidateagent/runner.go:237-276 | No must-have of an eligible role is ever listed as fabricated, so such a role is never skipped over one. |
| AgentScan.VerdictIsHonest | internal/app/candidateagent/runner.go:253-293 | For an eligible role an application is grounded and nonblank, and a skip names only unverified skills that are no must-haves. |
| AgentScan.ScanConsiders | internal/app/candidateagent/runner.go:211-235 | Considering one more role keeps the view consistent with the applications sent. |
| AgentScan.ScanRoles | internal/app/candidateagent/runner.go:211-235 | Up to the first role whose assessment or insertion fails, exactly the eligible roles whose verdict is to apply are applied to, once and honestly; a completed view also notes exactly those and the roles skipped over unverified skills, and counts the eligible roles. |
| AgentScan.ExactlyConsiders | internal/app/candidateagent/runner.go:211-235 | Considering one more role keeps applications and notes exactly those that their verdicts call for. |
| AgentScan.AppliedMeans | internal/app/candidateagent/runner.go:256-275 | An application is recommended by the assessment, at or above the fit floor, and carries its summary. |
| GateMeaning.FabricatedMeans | internal/domain/candidateagent/grounding.go:38-63 | A competency counts as fabricated if and only if it has a name, the summary has its words in a row, and no competency of the profile is it or has it as a word, all up to aliases. |
| GateMeaning.AppliesIff | internal/app/candidateagent/runner.go:253-293 | A role comes to an application if and only if it is eligible, recommended at or above the floor, and its summary is not blank and overclaims no skill of the role. |
| GateMeaning.UnverifiedIff | internal/app/candidateagent/runner.go:262-270 | A role is skipped as unverified if and only if it is eligible and recommended and its summary overclaims some skill, and the skills listed are exactly those. |
| RoleRanking.RankRoleFits | internal/app/matching/twoway.go:80-90 | The fitting roles, best first, ties in repository order. |
| RoleRanking.RolesForCandidate | internal/app/matching/twoway.go:47-77 | The head of that ranking, of the requested length or of ten. |
| RoleRanking.FittingRolesIff | internal/app/matching/twoway.go:80-90 | A role is ranked if and only if it is open and fits, with its own fit. |
| RoleRanking.SurfacedRolesAreTheBest | internal/app/matching/twoway.go:47-77 | Every role surfaced fits, they descend by score, and every fitting role is surfaced unless all those surfaced score at least as well. |
| Sorting.SortIsStable | internal/app/matching/twoway.go:88-88 | The sort orders by key, keeps the bag of elements and keeps ties in order. |
| Sorting.StableSortIsUnique | internal/app/matching/twoway.go:88-88 | Those three properties leave only one result. |
| Paging.NewPage | internal/domain/kernel/page.go:15-27 | Every page is at least the first and of a size the system allows, 20 by default and 100 at most; valid requests are kept. |
| Paging.TotalPagesCover | internal/domain/kernel/page.go:35-41 | The number of pages is the least whose rows cover the total. |
| Paging.GatheredFaithful | internal/domain/kernel/page.go:29-33 | The first k pages are the first k times the clamped size rows, none twice. |
| Paging.CollectAll | internal/app/privacy/exporter.go:101-117 | Against any reader that some page ends, it stops at the first failing, empty or completing page with everything delivered until then. |
| Paging.CollectingEndsIff | internal/app/privacy/exporter.go:101-117 | The loop comes to an end if and only if some page fails, is empty or completes what it reports, and then with one result only. |
| Paging.EndsWithinTotals | internal/app/privacy/exporter.go:101-104 | Where the totals reported are bounded some page ends the loop within that many, whatever is delivered. |
| Paging.RecedingNeverEnds | internal/app/privacy/exporter.go:101-104 | A reader that reports one row more than delivered, page after page, is never done with. |
| Paging.CollectsEverything | internal/app/privacy/exporter.go:101-117 | Over a faithful repository it returns every row once, in order, in max(1, total pages) reads of a hundred rows. |
| Paging.CollectReportEntries | internal/adapters/inbound/grpc/audit.go:164-182 | Against any reader it stops at the first failing, overflowing, empty or completing page, and always stops. |
| Paging.ReportsAllOrFails | internal/adapters/inbound/grpc/audit.go:159-182 | Over a faithful repository it returns all rows if there are at most ten thousand, and is refused otherwise. |
| Paging.FirstMatchCreatedAt | internal/app/dashboard/aggregator.go:311-333 | Against any reader that some page ends, it returns the earliest set time of the pages read, found exactly when there is one; a failing read finds nothing. |
| Paging.ScanEndsWithinTotals | internal/app/dashboard/aggregator.go:327-330 | Where the totals reported are bounded some page ends this loop. |
| Paging.EarliestOfAll | internal/app/dashboard/aggregator.go:311-333 | Over a faithful repository that is the earliest set time of all the rows. |
| Reencryption.Table.Update | internal/platform/wiring/reencrypt.go:62-64 | The row with the id is replaced in place; count, order and every other row stay. |
| Reencryption.EachPage | internal/platform/wiring/reencrypt.go:106-133 | At any requested page size each row is visited once, in order, as it was, and rewritten under a nonce of its own; on a failure exactly the rows before it are rewritten, and a failure has an unreadable page or an unsealable row at that place. |
| Reencryption.VisitPage | internal/platform/wiring/reencrypt.go:123-128 | The rows of one page are rewritten in order up to the first that cannot be sealed. |
| Reencryption.PageUntouched | internal/platform/wiring/reencrypt.go:106-112 | Rewriting the rows of earlier pages does not change what a later page delivers. |
| Reencryption.PassKeepsContents | internal/platform/wiring/reencrypt.go:31-37 | However far a pass gets, no row is lost, reordered or says anything else, and the rows it rewrote are under the current key. |
| Reencryption.RunAgain | internal/platform/wiring/reencrypt.go:31-37 | Two passes in a row, the first possibly stopped anywhere, leave a table that says what it said; once the second completes every row is readable and under the current key, and a pass fails only over a page that cannot be read or a row that cannot be sealed. |
| InterviewDomain.Interview.Transition | internal/domain/interview/interview.go:55-62 | A legal move changes the state alone; an illegal one is refused and changes nothing. |
| InterviewDomain.Interview.AddTurn | internal/domain/interview/interview.go:64-74 | A turn is appended exactly while asking and when well formed. |
| InterviewDomain.Interview.Ask | internal/domain/interview/interview.go:76-90 | A question becomes pending, numbered after the turns, exactly while asking with none outstanding and a nonblank text. |
| InterviewDomain.Interview.Answer | internal/domain/interview/interview.go:92-113 | A bounded answer to the pending question becomes a turn with its number, text and tag; a refused one changes nothing. |
| InterviewDomain.Interview.Complete | internal/domain/interview/interview.go:115-126 | A valid card closes the interview, only from scoring. |
| InterviewDomain.ValidateCard | internal/domain/interview/valueobjects.go:61-78 | A card is accepted exactly when it has scores, each named, in range and citing evidence. |
| Interviewer.Config.WithDefaults | internal/domain/interview/config.go:24-33 | A positive setting is kept; the question cap defaults to four and the time cap to ten minutes. |
| Interviewer.Interviewer.Start | internal/app/interview/interviewer.go:75-103 | A new interview is stored asking its first question, or nothing is stored. |
| Interviewer.Interviewer.Answer | internal/app/interview/interviewer.go:105-135 | The stored interview takes the answer and the next question or the report together, or stays as it was. |
| Interviewer.Interviewer.ScoreAsync | internal/app/interview/interviewer.go:159-181 | An existing report is returned unchanged; otherwise an answered interview is scored and closed, or stays as it was. |
| Interviewer.Interviewer.Finish | internal/app/interview/interviewer.go:222-254 | The closed interview is stored exactly when scoring, validation and the write all succeed. |
| InterviewRuns.StartKeeps | internal/app/interview/interviewer.go:78-103 | A started interview awaits question one below the cap, and starting never reports. |
| InterviewRuns.AnswerKeeps | internal/app/interview/interviewer.go:107-135 | An accepted answer extends transcript and questions in step and keeps the interview below the cap or closed with a valid report; a failure changes nothing. |
| InterviewRuns.ScoreKeeps | internal/app/interview/interviewer.go:162-181 | Scoring asks nothing and keeps the transcript; what it reports is stored. |
| InterviewRuns.EveryRunKeeps | internal/domain/interview/interview.go:55-126 | In every run the stored turns are the accepted answers paired with the served questions, numbered from one, the open question is the last one served, and a report is there exactly when closed. |
| InterviewRuns.FailureChangesNothing | internal/app/interview/interviewer.go:107-135 | A failed call changes no stored interview. |
| InterviewRuns.ClosedForever | internal/domain/interview/interview.go:115-126 | A stored interview stays, its transcript only grows, and once closed nothing about it changes. |
| InterviewRuns.OneReport | internal/app/interview/interviewer.go:159-181 | All reports ever delivered on an interview are one valid card about it. |
| InterviewRuns.ReportByLastQuestion | internal/app/interview/interviewer.go:199-209 | Never more than the configured number of answers is accepted, and with the last of them the interview is closed with its report. |
| InterviewRuns.ReportExactlyAtCap | internal/app/interview/interviewer.go:199-209 | An accepted answer brings the report if and only if it reaches the question cap or comes after the time cap. |
| InterviewMeaning.StartIs | internal/app/interview/interviewer.go:75-103 | A start succeeds exactly when role, candidate, mode, warm-up, question and write are all there, and stores one interview awaiting question one. |
| InterviewMeaning.AnswerIs | internal/app/interview/interviewer.go:105-135 | An answer succeeds exactly when a question is open, it is at most 8000 long, role and write are there, and so is the next question or, for the last answer, a scored report; what it stores and says is given field by field. |
| InterviewMeaning.ScoreIs | internal/app/interview/interviewer.go:159-181 | Scoring succeeds exactly for an answered interview with a report, which it returns, or with a scored report from the model, which it stores. |
| InterviewMeaning.CardSays | internal/app/interview/interviewer.go:230-245 | The card carries the model's scores and next step, and its verdict and confidence are those the model's words name, letter case and padding ignored, else hold and medium. |
| InterviewMeaning.ReportsAreAssessed | internal/app/interview/interviewer.go:222-254 | In every run, whatever report an interview carries says what the model reported in some call on that interview. |
| InterviewOverlap.UndisturbedIsAtomic | internal/app/interview/interviewer.go:107-135 | A call whose interview nobody stored between its load and its store does exactly what it does as one step. |
| InterviewOverlap.OverlappedRunsAreSane | internal/app/interview/interviewer.go:107-135 | However calls overlap, every stored interview is closed with a valid report on it or asking below the cap. |
| InterviewOverlap.OverwritesClosedIff | internal/app/interview/interviewer.go:107-181 | A call in flight can change a closed interview, for some answers of the world, if and only if it loaded it open and its own guard passes: an answer within bounds, or a copy with answers to score. |
| InterviewOverlap.RunOverwritesClosedIff | internal/app/interview/interviewer.go:107-181 | The same at every state of every run of overlapping calls. |
| InterviewOverlap.OverlapLosesReport | internal/app/interview/interviewer.go:107-135 | For every configuration of at least two questions, a run in which an answer sent twice at the time cap reopens a closed interview and its report is gone. |
| CostTracking.PricingFor | internal/app/cost.go:21-45 | No price is negative, and input is free for the local models only, so an unknown model is never under-counted to nothing. |
| CostTracking.CostIsNonnegative | internal/app/cost.go:47-54 | No call has a negative cost, so the spend never falls. |
| CostTracking.CostTracker.constructor | internal/app/cost.go:78-93 | The thresholds are those given, or the defaults when none are, in ascending order with repetitions kept. |
| CostTracking.CostTracker.Record | internal/app/cost.go:95-128 | Afterwards the fired thresholds are exactly those the spend has reached, with one alert for each that is new, carrying the new spend. |
| CostTracking.CostTracker.WithinBudget | internal/app/cost.go:137-146 | Spending is permitted exactly when there is no budget or it is not reached. |
| CostTracking.RecordAll | internal/app/cost.go:78-128 | Over a whole run the thresholds are those asked for, the fired set is exactly those reached, and the alerts are, call by call, one for each threshold newly reached, telling the spend of that moment; in all as many as distinct thresholds reached. |
| CostTracking.AlertsTell | internal/app/cost.go:56-62 | Every alert of a run tells the budget, a positive spend up to the final one, its fraction, which is at least some threshold, and whether the budget is reached. |
| CostTracking.CrossedGrows | internal/app/cost.go:108-121 | More spend never takes back a threshold. |
| CostTracking.OrderDoesNotMatter | internal/app/cost.go:95-128 | The final spend is the same for every order of the calls. |
| CostTracking.NothingIsTakenBack | internal/app/cost.go:137-146 | Further calls never un-fire a threshold nor bring the spend back under the budget, and the whole-budget threshold fires exactly when the budget is reached. |
| CostTracking.FamilyCosts | internal/app/cost.go:21-54 | Prompt and response characters cost, by four million, the two prices of the model's family; local models cost nothing and unknown ones as much as Opus. |
| CostTracking.SpendOfMore | internal/app/cost.go:95-104 | The spend starts at nothing and grows by the cost of each call. |
| CostTracking.CrossedIff | internal/app/cost.go:107-121 | A threshold is reached if and only if there is a budget and a spend and the spend is at least that part of the budget. |
| AIQuality.PercentileRank | internal/app/aiquality.go:166-178 | The percentile is a recorded value with at least ceil(p n) values at or under it and fewer than ceil(p n) strictly under it. |
| AIQuality.PercentilePermutes | internal/app/aiquality.go:166-178 | It depends on the bag of durations alone. |
| AIQuality.AccumulateRecord | internal/app/aiquality.go:91-128 | The totals and the maps each take exactly this call. |
| AIQuality.HoldsNext | internal/app/aiquality.go:91-128 | What the maps hold for an operation stays what its own calls add up to. |
| AIQuality.BuildOperationStats | internal/app/aiquality.go:130-157 | The statistics of one operation come from its own entries, absent ones counting as zero. |
| AIQuality.SummarizeAIQuality | internal/app/aiquality.go:49-89 | The summary's totals, rates and percentiles are those of the calls, and its breakdown has exactly the operations seen, each summarizing its own calls. |
| AIQualityProofs.SummaryCounts | internal/app/aiquality.go:91-115 | The counts are the numbers of calls that failed, gave broken JSON and were refused. |
| AIQualityProofs.SummaryRates | internal/app/aiquality.go:70-81 | Each rate times the number of calls is its count, and every rate is zero without calls. |
| AIQualityProofs.SummaryLatencies | internal/app/aiquality.go:166-178 | At least half of the calls took at most the one percentile and fewer than half took less, and 95 in a hundred likewise for the other; both were taken by some call. |
| AIQualityProofs.SummaryOfMore | internal/app/aiquality.go:91-128 | One more call adds exactly its characters and its trips to the totals. |
| AIQualityProofs.SummaryOfBag | internal/app/aiquality.go:49-51 | Two summaries of the same calls in any order are equal. |
| AIQualityProofs.SharesAddUp | internal/app/aiquality.go:91-128 | Whatever is counted, the operations' shares add up to the whole. |
| AIQualityProofs.BreakdownAddsUp | internal/app/aiquality.go:82-87 | Calls, failures, JSON failures, refusals, trips and each category's trips add up over the operations to the totals. |
| AIQualityProofs.CategoriesAddUp | internal/app/aiquality.go:116-126 | The category counts add up to the trips. |

## Left out

- IEEE floating point: rates, tokens, weights, scores, jitter and money are real numbers, so the theorems say nothing about rounding.
- RateLimiterAnswers.RefusedOnlyOverQuota: the run's clock does not go back and its instants lie within one Duration, about 292 years, of each other, beyond which the source's time differences saturate.
- RateLimiting.RateLimiter.AllowN: the mutex is not modelled; each call is one step, and key derivation from peer addresses and headers is outside.
- JobStores.Deliver: tracing, logging and the derivation of the key from the task are outside; tasks without a key come in as blank keys.
- RedisJobs.SafeIffInTime: Redis itself is modelled by atomic set, delete and script steps with expiries in whole seconds; replication and eviction by Redis are outside.
- InterviewBroker.Broker.Publish: the class runs undisturbed calls and requires that the channel is open, which `InterviewBroker.NeverPanics` proves of every interleaving of the two critical sections.
- RefreshGrants.Refresh: signatures, passwords, throttling and single sign-on come in as the verdicts they give; the store is its port contract, with an atomic consume and fresh token ids. A consume or revoke whose caller sees an error is not modelled.
- SessionPage.PostedAtMostOnce: one page lifetime; two tabs sharing the stored token can each post it, and the server then refuses one. The single retry of a request after a refresh and the error texts are not modelled.
- StreamFraming.StreamInterview: UTF-8 decoding is outside; the chunks are decoded text and what the decoder still flushes holds no newline. JSON parsing is an arbitrary function.
- Backoff.ComputeBackoff: jitter above one, outside the documented range, is excluded because converting the spread to an integer may then overflow.
- Sanitize.SanitizeText: works on Unicode scalar values, so the replacement of malformed UTF-8 is not shown; fencing, redaction and injection scanning are outside.
- Tokens.NormalTokens: lower-casing is any character map that keeps separators and white space and fixes lower-case ASCII letters, digits and the dot; case mappings that change length are outside.
- RoleGates.ScreenLogistics: currencies are compared through an arbitrary folding map, and the wording of reasons is not modelled. The gate on scored breakdowns of the shortlist is outside.
- AgentScan.ScanRoles: the audit record of a submission is best effort and outside; the ids of role, candidate and profile are set, as stored records have them.
- RoleRanking.RolesForCandidate: the open roles and the profile are inputs; a candidate without a profile gets an empty list in a branch not modelled.
- Paging.CollectAll: the page that ends the loop is a ghost input, as a method that may not end cannot be called; `Paging.CollectingEndsIff` says when there is one. Row counts and offsets are unbounded integers.
- Reencryption.EachPage: one table at a time; the nesting of a candidate's interviews and matches under the candidate's row is outside; the cipher is an arbitrary function of body and nonce.
- Interviewer.Interviewer.Answer: one step; `InterviewRuns` is about calls that do not overlap, and `InterviewOverlap` about those that do.
- InterviewOverlap.UndisturbedIsAtomic: a call is one load and one store; opening an interview writes a new id and stays one step, and calls on an unknown id, which write nothing, are not in flight.
- Interviewer.Interviewer.Start: ids are supplied by the caller as fresh, time differences are not saturated, and the passport update after scoring is best effort and outside. Turn ids are not modelled.
- CostTracking.OrderDoesNotMatter: which call an alert is attached to does depend on the order; the theorem is about the final spend, and so the final fired set.
- CostTracking.CostTracker.Record: the mutex is not modelled, and alerts are returned in place of calling back.
- AIQuality.SummarizeAIQuality: refusal and JSON detection, which fill the records, are outside.
- Left out because they would add only easy members: handlers and wiring, repositories, the role, contest and application lifecycles, access rules, configuration, the web interface.
