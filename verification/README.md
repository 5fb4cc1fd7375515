# Verification of the tenant policy gateway

A Dafny model of the parts of the gateway where money and isolation are at stake, with proofs about whole runs:

- **Quota.** Two enforcers limit requests, input tokens and concurrent requests per user and tenant: one keeps
  deques and maps in memory, one runs Lua scripts over six Redis sorted sets. `QuotaLog` is the reference both are
  measured against: the whole history of admissions, filtered to a window and counted or summed. `MemoryQuota` and
  `RedisScripts` are the two enforcers as classes; `MemoryRuns`, `RedisRefinement`, `RedisBounds`, `RedisLifetimes`,
  `RedisEvictions`, `RedisTenants`, `RedisReuse`, `RedisSlots` and `RedisAnswers` prove what they promise over runs, with
  exact conditions where a promise ends, and `RedisBoundaries` shows runs beyond them. `RequestLives` and `IdReuse` tell from
  the events of a run alone which requests are in progress and which ids hold a slot, and `OpenRequests` and
  `RedisOpenRequests` apply that to the two enforcers.
- **Billing.** `LruSet` is the set of seen ids, `LocalLedger` and `BillingLedger` the queue, its flushing threads and
  the JSONL file of one process, `LedgerProtocol` the protocol by which many processes share a claim table and a
  bucket, and `AwsSink` the S3 flush as a run of that protocol. `LedgerAtMostOnce`, `LedgerLoss`, `LedgerDuplicates`,
  `LedgerStranded`, `LedgerWinners`, `LedgerObjects` and `LedgerOrder` prove what it guarantees and exactly where it stops, and `LedgerRewrites` shows
  runs beyond. Every remote call may fail before or after it took
  effect, any process may crash at any point, and a conditional put may be answered to its own retry. The methods of
  `BillingLedger` and `AwsSink` run as one thread among others: before each of their atomic steps the others may take
  any number of theirs.
- **The request path.** `TenantRegistry`, `Policy` and `Headers` decide who a request is forwarded as and with which
  headers; `Gateway` is the handler as a client of quota and ledger, and `PassedBills` and `SlotAccounts` are its books
  of what it billed and of whom it gave a slot. Its methods end where the handler awaits, and a
  step of a ledger thread is one of them, so a sequence of their calls is an interleaving of concurrent requests and
  ledger threads, and what `Gateway.Valid` says holds in all of them.

Time is counted in integer milliseconds, and windows and lifetimes in whole seconds. The proofs assume, and say so in
their `requires`, that the clock does not run backwards, that a tenant's limits are fixed over a run (where they
matter), and, where a statement speaks of fresh ids (`Sound`, `UniqueIds`), that a tenant never reuses an admitted
request id. The ids of a Redis run that is compared with the in-memory one are of colon-free tenants and its token
estimates are below 10^14 (`Plain`).

## Where the code does less than one might expect

Each of these is a theorem about the model:

- The in-memory retry time is rounded down, so a caller who waits as told can be refused again
  (`MemoryRuns.WaitedAndRefused`); `MemoryRuns.RetryLongEnough` says exactly when. The Redis one is exact
  (`RedisRefinement.RetryIsExact`).
- Lua prints 10^14 and above in scientific notation, which the scripts' pattern does not read: such an admission is not
  counted against the token limit (`TokenCodec.CountedExactlyWhenPlain`).
- Sorted sets collapse a reused request id: the scripts count the distinct ids of the window, which are the admissions
  exactly if no id repeats in it (`RedisReuse.ScriptCountsDistinctIds`). A client that always sends one id is never
  refused for a request limit of two or more; a token or concurrency limit can still refuse it
  (`RedisBoundaries.ReusedIdNeverRefused`). Likewise tokens are counted once per id and number
  (`RedisReuse.ScriptCountsTokens`).
- Both enforcers count the ids that hold a slot, and a finish gives back the slot of its id, whichever request it ends.
  So ids may be used again after their request has finished (`OpenRequests.ExclusiveIdsBound`), but once an id is
  admitted while a request with it is in progress, any concurrency limit can be overrun (`OpenRequests.ReusedIdOverruns`,
  `OpenRequests.StaleIdOverrunsOne`, `OpenRequests.SharedIdOverrunsTwo`, and `RedisOpenRequests` for Redis).
- A client that repeats a request id the ledger still remembers is passed without being billed again
  (`Gateway.PassedExactlyAsBilled`), also if it was another tenant's request that was billed
  (`Gateway.Gateway.ResumeBoth`).
- A colon in a tenant id can let users of different tenants share their keys. A tenant is untouched by others exactly as
  long as no foreign tenant and user, joined by a colon, begin with its id and a colon
  (`RedisTenants.OtherTenantsInvisible`, `RedisTenants.MistakableInterferes`).
- Key expiry is invisible as long as no heartbeat comes for a slot as old as a key's lifetime
  (`RedisEvictions.EvictionsInvisible`); at that age it revives a stale slot if its key is still there
  (`RedisLifetimes.LateHeartbeatObservable`, `RedisBoundaries.LateHeartbeatChangesDecision`). Redis hides a key once its
  deadline has strictly passed by its own clock, so this takes a heartbeat at the deadline itself or clocks that
  disagree. The handler itself sends no heartbeats, so a stream that outlives the slot's lifetime stops counting.
- When a reply of Redis is lost the caller is answered 503 and the slot stays taken; `RedisSlots.SlotsStayTakenExactly`
  says which slots do.
- Without the claim table the ledger is not at-most-once: an entry accepted once is written again exactly if a failed
  batch puts it back after it was written (`LedgerDuplicates.WrittenTwiceExactly`). `LedgerRewrites` has two runs that
  end at rest with an entry in two objects: one lost answer (`LedgerRewrites.LostAnswerWritesTwice`), and a clean failure
  in a later group of the batch (`LedgerRewrites.SecondGroupRetryWritesTwice`).
- With the claim table the ledger is not at-least-once: a claimed id is never written exactly if it was stranded, and
  `LedgerStranded.StrandedExactly` lists the steps that strand one (`LedgerStranded.WrittenExactlyUnlessStranded`,
  `LedgerStranded.ClaimedThenFailedIsLost`).
- `close` flushes one batch; what does not fit is lost with the process (`BillingLedger.BillingLedger.Close`).
- A slot is not given back when a tenant's header template names an unknown field, when the upstream's stream cannot be
  opened, or when a stream is never iterated; it then counts until its lifetime ends (`Gateway.Gateway.Begin`,
  `OpenStream`, `EndStream`, `SlotAccounts.SlotsAreHeldOrLeaked`).
- A tenant domain written with a port is accepted and never matched (`TenantRegistry.ReachableDomains`).
- Three of the headers the gateway sets are not blocked inbound, so they are safe from respelling only because servers
  lower-case header names (`Headers.UnspoofedExactly`).

## Model

| member | source | states |
|---|---|---|
| TokenCodec.ParseEncoded | src/tenant_policy_gateway/quota_enforcer.py:167-177 | for every request id, whatever bars and digits it holds, the trailing-digits pattern reads the recorded number back below 10^14 and nothing from there on |
| TokenCodec.CountedExactlyWhenPlain | src/tenant_policy_gateway/quota_enforcer.py:171-174 | an admission's tokens are counted faithfully if and only if they are below 10^14 |
| TokenCodec.EncodeKeepsId | src/tenant_policy_gateway/quota_enforcer.py:216-221 | the encoding of id and tokens as a member is injective |
| QuotaLog.BoundAtEveryInstant | src/tenant_policy_gateway/quota_enforcer.py:87-98 | a history in which every admission had room respects both window limits in every window, not only in those that end at a call |
| QuotaLog.WaitExactly | src/tenant_policy_gateway/quota_enforcer.py:203-208 | both request checks pass after a wait if and only if the oldest entry of the full window has expired by then; the user case needs no separate tenant check because both share one limit |
| QuotaLog.Conservation | src/tenant_policy_gateway/quota_enforcer.py:69-81 | a tenant's window is the disjoint union of its users' windows, in entries, counts and tokens |
| QuotaLog.TenantDecides | src/tenant_policy_gateway/quota_enforcer.py:83-94 | a call is admitted if and only if the three tenant-level checks pass; the user-level checks only choose the reason |
| MemoryQuota.PopIsFilter | src/tenant_policy_gateway/quota_enforcer.py:113-116 | popping expired records from the front of an ordered deque is filtering the history by the window |
| MemoryQuota.LoadFromHistory | src/tenant_policy_gateway/quota_enforcer.py:70-81 | the counts and sums a check reads are those of the history filtered to the window |
| MemoryQuota.InMemoryQuotaEnforcer.Expire | src/tenant_policy_gateway/quota_enforcer.py:113-116 | the pop loop leaves what the specification of a deque's expiry says |
| MemoryQuota.InMemoryQuotaEnforcer.ExpireSlots | src/tenant_policy_gateway/quota_enforcer.py:118-122 | the two loops over the stale ids leave exactly the slots younger than the lifetime |
| MemoryQuota.InMemoryQuotaEnforcer.ExpireAll | src/tenant_policy_gateway/quota_enforcer.py:69-75 | the four expiries of a check touch the caller's two deques and two maps and nothing else |
| MemoryQuota.InMemoryQuotaEnforcer.FirstViolation | src/tenant_policy_gateway/quota_enforcer.py:83-94 | the chain of checks returns the first violated limit in the reference order, with its status and retry time |
| MemoryQuota.InMemoryQuotaEnforcer.Append | src/tenant_policy_gateway/quota_enforcer.py:96-100 | an admission is recorded for user and tenant alike and opens both slots |
| MemoryQuota.InMemoryQuotaEnforcer.CheckAndRecord | src/tenant_policy_gateway/quota_enforcer.py:57-101 | the decision and the whole new state are those of the specification's check, and the deques remain the filtered history |
| MemoryQuota.InMemoryQuotaEnforcer.FinishRequest | src/tenant_policy_gateway/quota_enforcer.py:103-111 | the id's two slots are closed and nothing else changes |
| MemoryRuns.DequesAreHistory | src/tenant_policy_gateway/quota_enforcer.py:57-122 | on every run, whatever ids it uses, the deques are the admitted history filtered to the window |
| MemoryRuns.WindowBound | src/tenant_policy_gateway/quota_enforcer.py:77-98 | over any run, in every interval of the window's length, a tenant and each of its users had at most the allowed requests and input tokens admitted |
| MemoryRuns.ConcurrencyBound | src/tenant_policy_gateway/quota_enforcer.py:83-86 | over any run no user and no tenant ever holds more slots than the limit, even with reused ids |
| OpenRequests.InProgressBound | src/tenant_policy_gateway/quota_enforcer.py:83-111 | with fresh ids, at no time are more requests of a user or tenant admitted, unfinished and younger than a slot's lifetime than the limit allows |
| RequestLives.CountedExactly | src/tenant_policy_gateway/quota_enforcer.py:83-111 | for any matching of finishes to the requests they end, the ids holding a slot are never more than the young requests in progress, and as many if and only if each of those still has its slot and no two share an id |
| OpenRequests.SlotHeldExactly | src/tenant_policy_gateway/quota_enforcer.py:99-122 | on any run, with any ids, an id holds a live slot of a user or tenant if and only if it was admitted there less than a lifetime ago and no finish of that id came there since |
| OpenRequests.ConcurrencyCountsIds | src/tenant_policy_gateway/quota_enforcer.py:83-100 | on any run a call is refused for its user's concurrency if and only if the user holds as many ids as the limit allows, and for the tenant's if and only if only the tenant does; with no other limit it is admitted otherwise |
| OpenRequests.ExclusiveIdsBound | src/tenant_policy_gateway/quota_enforcer.py:83-111 | if no id is admitted for a tenant while a request with it is in progress there, and every finish ends a request in progress, no more young requests of a user or tenant are ever in progress than the limit |
| OpenRequests.ExclusiveIdsHoldSlots | src/tenant_policy_gateway/quota_enforcer.py:99-111 | then an id holds a slot if and only if it is that of a young request in progress, and no two of those share one |
| OpenRequests.ReusedIdOverruns | src/tenant_policy_gateway/quota_enforcer.py:99-111 | conversely, from the first admission of an id while a request with it is in progress, for every limit there is a continuation, of a finish and checks under that limit alone, after which more young requests of the tenant are in progress |
| OpenRequests.StaleIdOverrunsOne | src/tenant_policy_gateway/quota_enforcer.py:99-122 | such a run under a limit of one: the id comes back when its slot is stale, the first request finishes, and two young requests with it are in progress |
| OpenRequests.SharedIdOverrunsTwo | src/tenant_policy_gateway/quota_enforcer.py:99-111 | such a run under a limit of two: an id in progress twice, one of which finishes, and two further requests; three are in progress |
| OpenRequests.OneIdOverrunsLimit | src/tenant_policy_gateway/quota_enforcer.py:83-100 | a client that sends one id and finishes nothing has all its requests of the last lifetime in progress under a limit of two or more, and at most one under a limit of one |
| MemoryRuns.RefinesReference | src/tenant_policy_gateway/quota_enforcer.py:57-122 | with fresh ids every decision is the reference verdict and all four maps are the filtered history |
| MemoryRuns.SlotsAreOpenRequests | src/tenant_policy_gateway/quota_enforcer.py:99-122 | with fresh ids a live slot belongs exactly to a request admitted, not finished and young enough |
| MemoryRuns.TenantSlotsAreUserSlots | src/tenant_policy_gateway/quota_enforcer.py:83-100 | a tenant's live slots are the union of its users' live slots |
| MemoryRuns.DeniedChecksInvisible | src/tenant_policy_gateway/quota_enforcer.py:70-101 | deleting any denied calls from a run changes no other flag, reason or retry time |
| MemoryRuns.OtherTenantsInvisible | src/tenant_policy_gateway/quota_enforcer.py:52-55 | a tenant's decisions are those of the run with every other tenant's calls removed |
| MemoryRuns.RetryLongEnough | src/tenant_policy_gateway/quota_enforcer.py:124-128 | how far the rounded-down retry time is from the exact one: it is long enough if and only if the remaining time is a whole number of seconds |
| MemoryRuns.AnswersAreTold | src/tenant_policy_gateway/quota_enforcer.py:83-128 | on every run, by the admitted history: which of the request and token limits of user and tenant refuses a call that concurrency does not; a refusal is 429, an admission 200; a request or token refusal names the time until the oldest admission of that scope's window leaves it, rounded down but at least a second, and all of the window if it is empty; a concurrency refusal names one second |
| MemoryRuns.WaitedAndRefused | src/tenant_policy_gateway/quota_enforcer.py:87-128 | three calls of one user, the third after exactly the wait the second was told, of which the second and third are refused |
| RedisKeys.KeysCollideExactly | src/tenant_policy_gateway/quota_enforcer.py:351-367 | two of the gateway's keys coincide if and only if they are of one kind and their scopes read the same |
| RedisKeys.ColonFreeScopesNeverAlias | src/tenant_policy_gateway/quota_enforcer.py:351-367 | with colon-free tenant ids the key names are injective in tenant and user |
| RedisKeys.PrefixesSeparate | src/tenant_policy_gateway/quota_enforcer.py:351-367 | gateways with different prefixes, without colons, share no key |
| RedisQuota.CheckEffect | src/tenant_policy_gateway/quota_enforcer.py:160-231 | what a check does to every key: its own six sets are purged and on admission extended, every other key keeps its members |
| RedisRefinement.SumIsTokens | src/tenant_policy_gateway/quota_enforcer.py:167-177 | the numbers parsed from a set's members add up to the tokens recorded in the window |
| RedisRefinement.OldestIsFirst | src/tenant_policy_gateway/quota_enforcer.py:187-195 | the first member in rank order carries the timestamp of the window's oldest admission |
| RedisRefinement.RefinesReference | src/tenant_policy_gateway/quota_enforcer.py:136-251 | with fresh ids every reply of the scripts is the reference verdict and every set is the filtered history |
| RedisRefinement.RedisAgreesWithMemory | src/tenant_policy_gateway/quota_enforcer.py:57-251 | on every run the Redis and the in-memory enforcer give the same flag and reason at every call, and both states are the same filtered history |
| RedisRefinement.RetryIsExact | src/tenant_policy_gateway/quota_enforcer.py:187-208 | the retry value lies between 1 and the window; a wait of whole seconds makes both request windows pass exactly from that value on; and the script's own answer at every such wait is a request refusal never from then on, and before it always where concurrency does not decide |
| RedisAnswers.AnswersAreTold | src/tenant_policy_gateway/quota_enforcer.py:157-214 | the same over Redis with fresh ids, where a request or token refusal names the least whole number of seconds after which the oldest admission of that scope's window has left it, and a concurrency refusal the slot's lifetime |
| RedisBounds.AdmittedIsReference | src/tenant_policy_gateway/quota_enforcer.py:136-232 | with fresh ids the scripts admit exactly what the reference admits |
| RedisBounds.WindowBound | src/tenant_policy_gateway/quota_enforcer.py:179-214 | over any Redis run with fresh ids, in every interval of the window's length, a tenant and each of its users had at most the allowed requests and input tokens admitted |
| RedisBounds.ConcurrencyBound | src/tenant_policy_gateway/quota_enforcer.py:183-202 | over any Redis run, with any ids and tenants, no slot set ever exceeds the limit that all checks reading or writing it carry |
| RedisBounds.InProgressBound | src/tenant_policy_gateway/quota_enforcer.py:183-202 | with fresh ids, at no time are more requests in progress over Redis than the limit allows |
| RedisOpenRequests.SlotHeldExactly | src/tenant_policy_gateway/quota_enforcer.py:164-250 | over Redis with colon-free tenants, on any run and with any ids, an id is a live member of a slot set if and only if it was admitted there less than a lifetime ago and no finish of that id came there since |
| RedisOpenRequests.ConcurrencyCountsIds | src/tenant_policy_gateway/quota_enforcer.py:183-202 | on any such run a call is refused for its user's concurrency if and only if the user holds as many ids as the limit allows, and for the tenant's if and only if only the tenant does |
| RedisOpenRequests.ExclusiveIdsBound | src/tenant_policy_gateway/quota_enforcer.py:183-250 | if no id is admitted for a tenant while a request with it is in progress there, and every finish ends a request in progress, no more young requests are ever in progress than the limit |
| RedisOpenRequests.ReusedIdOverruns | src/tenant_policy_gateway/quota_enforcer.py:183-250 | conversely every such admission has, for every limit, a continuation that overruns it |
| RedisLifetimes.EveryKeyExpires | src/tenant_policy_gateway/quota_enforcer.py:225-262 | after any mix of checks, finishes and heartbeats every stored key is non-empty and expires, at the earliest, a full lifetime after the score of its youngest member and, at the latest, one after the last call; that lifetime is the longer of window and slot lifetime plus a minute |
| RedisLifetimes.AdmissionsRenew | src/tenant_policy_gateway/quota_enforcer.py:223-231 | an admission leaves all six sets of its user and tenant stored with exactly that lifetime ahead |
| RedisLifetimes.SlotCallsRenew | src/tenant_policy_gateway/quota_enforcer.py:234-264 | a finish and a heartbeat leave both slot sets, if there is anything in them, with exactly that lifetime ahead |
| RedisLifetimes.EvictedWasStale | src/tenant_policy_gateway/quota_enforcer.py:160-165 | when Redis may drop a key, all its members are ones the next check would purge |
| RedisLifetimes.QuietEventsInvisible | src/tenant_policy_gateway/quota_enforcer.py:136-264 | leaving out evictions of expired keys together with any denied checks changes no other decision, across any mix in which no heartbeat renews a stale slot |
| RedisEvictions.EvictionsInvisible | src/tenant_policy_gateway/quota_enforcer.py:160-264 | whichever expired keys Redis dropped, every decision is that of the run in which it dropped none, as long as no heartbeat comes for a slot as old as a key's lifetime |
| RedisLifetimes.LateHeartbeatObservable | src/tenant_policy_gateway/quota_enforcer.py:253-264 | after the key's lifetime a heartbeat tells an expired key from a stored one if and only if the stored key still holds its id |
| RedisTenants.MistakableExactly | src/tenant_policy_gateway/quota_enforcer.py:351-367 | a foreign ticket shares a key with a tenant if and only if its tenant and user, joined by a colon, begin with the tenant's id and a colon |
| RedisTenants.OtherTenantsInvisible | src/tenant_policy_gateway/quota_enforcer.py:351-367 | if no foreign ticket of the run is of that kind, the tenant's replies are those of the run with every other tenant's calls removed |
| RedisTenants.ColonFreeTenantsInvisible | src/tenant_policy_gateway/quota_enforcer.py:351-367 | in particular with colon-free tenant ids |
| RedisTenants.MistakableInterferes | src/tenant_policy_gateway/quota_enforcer.py:351-367 | conversely every ticket of that kind has a call that turns an admission of the tenant into a refusal |
| RedisScripts.RedisQuotaEnforcer.PurgeAll | src/tenant_policy_gateway/quota_enforcer.py:157-165 | the six range deletions are the specification's purge |
| RedisScripts.RedisQuotaEnforcer.SumTokens | src/tenant_policy_gateway/quota_enforcer.py:167-177 | the loop over the members adds up the counted tokens of those in range |
| RedisScripts.RedisQuotaEnforcer.RetryAfterFor | src/tenant_policy_gateway/quota_enforcer.py:186-195 | the retry time computed from the first member in rank order |
| RedisScripts.RedisQuotaEnforcer.FirstViolation | src/tenant_policy_gateway/quota_enforcer.py:197-214 | the script's chain of checks, with -1 for no limit, finds the reference's first violated limit |
| RedisScripts.RedisQuotaEnforcer.CheckScript | src/tenant_policy_gateway/quota_enforcer.py:136-232 | the script as a whole does to the database what the specification's check does and returns its decision |
| RedisScripts.RedisQuotaEnforcer.CheckAndRecord | src/tenant_policy_gateway/quota_enforcer.py:299-334 | the wrapper fails closed with 503 and a retry time of one second: without effect when Redis is down, with the script's effect when only the reply is lost |
| RedisScripts.RedisQuotaEnforcer.FinishRequest | src/tenant_policy_gateway/quota_enforcer.py:234-251 | the id leaves both slot sets, whose keys are renewed, or nothing happens |
| RedisScripts.RedisQuotaEnforcer.HeartbeatRequest | src/tenant_policy_gateway/quota_enforcer.py:253-264 | the id is refreshed in both slot sets only where it is present |
| RedisSlots.SlotsStayTakenExactly | src/tenant_policy_gateway/quota_enforcer.py:327-341 | when Redis may be down and replies may be lost, a live slot belongs exactly to a request the script admitted less than a lifetime ago and whose return never reached Redis |
| RedisSlots.LostReplyKeepsSlot | src/tenant_policy_gateway/quota_enforcer.py:327-341 | a call whose reply is lost is answered 503, and its slot stays open through whatever happens short of a return |
| RedisReuse.SetsAreWindows | src/tenant_policy_gateway/quota_enforcer.py:160-223 | on every run, reused ids or not, the request and token sets are the admissions of the window keyed by member |
| RedisReuse.ScriptCountsDistinctIds | src/tenant_policy_gateway/quota_enforcer.py:179-208 | the script counts the distinct ids of the window, which equals the admissions if and only if no id repeats in it; and where concurrency does not decide it refuses for the request count exactly when the tenant's distinct ids reach the limit |
| RedisReuse.ScriptCountsTokens | src/tenant_policy_gateway/quota_enforcer.py:167-177 | on every run, with any ids and estimates, the tokens the script adds up are never more than the window's, and exactly those if and only if every number other than 0 there is below 10^14 and comes once per id |
| RedisBoundaries.ReusedIdNeverRefused | src/tenant_policy_gateway/quota_enforcer.py:216-219 | however often one id is checked, a request limit above one, with no other limit set, never refuses it |
| RedisBoundaries.AliasedUsersShareQuota | src/tenant_policy_gateway/quota_enforcer.py:351-367 | with names that read the same, one tenant's admission makes another tenant's first request fail |
| RedisBoundaries.LateHeartbeatChangesDecision | src/tenant_policy_gateway/quota_enforcer.py:253-264 | a run whose last decision depends on whether two expired keys were dropped before a late heartbeat |
| LruSet.BoundedLruSet.AddIfAbsent | src/tenant_policy_gateway/billing_ledger.py:53-61 | a present id moves to the end and is reported, an absent one is added and the oldest ids beyond the bound go |
| LruSet.BoundedLruSet.Discard | src/tenant_policy_gateway/billing_ledger.py:63-65 | the id goes and the order of the others stays |
| LruSet.ReplayBounded | src/tenant_policy_gateway/billing_ledger.py:47-69 | over any history the set holds distinct ids and never more than its bound |
| LruSet.StoredIsStanding | src/tenant_policy_gateway/billing_ledger.py:53-65 | a stored id was touched and not discarded since |
| LruSet.StaysSuppressed | src/tenant_policy_gateway/billing_ledger.py:53-65 | an id once touched stays until it is discarded or as many distinct other ids as the bound were touched |
| LruSet.ExactlyTheLast | src/tenant_policy_gateway/billing_ledger.py:53-61 | without discards the set holds exactly the last distinct ids up to the bound |
| LruSet.DuplicatesAreFarApart | src/tenant_policy_gateway/billing_ledger.py:165-188 | two accepted entries with one id have at least as many distinct other ids submitted between them as the bound, whatever the queue did |
| LedgerBatch.RequireUsage | src/tenant_policy_gateway/billing_ledger.py:133-151 | usage is returned if and only if the body states three non-negative integers that balance, and it is those |
| LedgerBatch.PartitionConserves | src/tenant_policy_gateway/billing_ledger.py:259-266 | grouping a batch by tenant and hour loses, adds and duplicates nothing |
| LedgerBatch.PartitionGroups | src/tenant_policy_gateway/billing_ledger.py:259-266 | every group holds exactly the entries of one tenant and hour, in order, and no two groups are of the same |
| LedgerBatch.OneGroupExactly | src/tenant_policy_gateway/billing_ledger.py:259-266 | two entries of a batch are in the same group if and only if they are of the same tenant and the same hour |
| LedgerBatch.GroupBatch | src/tenant_policy_gateway/billing_ledger.py:259-266 | the grouping loop puts two entries of the batch into the same group if and only if they are of the same tenant and hour, loses, adds and duplicates none, and lists the groups in the order in which their first entries come |
| LedgerAtMostOnce.AtMostOnce | src/tenant_policy_gateway/billing_ledger.py:224-323 | with the table, over all interleavings of any processes and threads, failures and crashes, an id occurs at most once in all objects ever written, a written id has a row, and a complete row names an object that holds the id |
| LedgerLoss.LossAccounting | src/tenant_policy_gateway/billing_ledger.py:224-308 | in every reachable state an accepted id is queued, in flight, dropped on a full requeue, lost in a crash, or settled: claimed with a table, written without |
| LedgerLoss.AtLeastOnce | src/tenant_policy_gateway/billing_ledger.py:224-287 | without a table an accepted id that was not dropped, did not crash and left memory is in some object or file |
| LedgerLoss.OnlyStuckRows | src/tenant_policy_gateway/billing_ledger.py:257-323 | with a table such an id is in exactly one object, or its row is stuck at "writing" |
| LedgerDuplicates.WrittenTwiceExactly | src/tenant_policy_gateway/billing_ledger.py:224-287 | without a table, over every interleaving and failure, an id accepted once occurs at most once if no step puts it back after a line with it was written; and once it has left memory, not dropped and not crashed, it occurs exactly once if and only if no step did |
| LedgerRewrites.FailedPutRewrites | src/tenant_policy_gateway/billing_ledger.py:239-241 | without a table, a put that fails while a line of its batch is in some object, its own or an earlier group's, puts that line's id back, and every run in which the id then leaves memory has written it at least twice |
| LedgerRewrites.UnguardedRetryWritesTwice | src/tenant_policy_gateway/billing_ledger.py:268-291 | so it is after a put that failed having taken effect, and after a clean failure of a batch's second group, whatever happens afterwards |
| LedgerRewrites.LostAnswerWritesTwice | src/tenant_policy_gateway/billing_ledger.py:224-287 | such a run of one entry: the answer of its put is lost, its retry is answered, and it ends idle with the entry in exactly two objects |
| LedgerRewrites.SecondGroupRetryWritesTwice | src/tenant_policy_gateway/billing_ledger.py:224-287 | such a run of two entries of different partitions: only the second group's put fails, and cleanly; after the retry nothing is left in memory and the first entry is in two objects |
| LedgerStranded.StrandedExactly | src/tenant_policy_gateway/billing_ledger.py:257-308 | step by step, an id has a row, no line and nobody to write it exactly if that was so before or the step is one of: a claim whose answer is lost, a failed claim or a clean failure of the put while the id is claimed, or a crash of its claimer |
| LedgerStranded.WrittenExactlyUnlessStranded | src/tenant_policy_gateway/billing_ledger.py:257-323 | with the table, an id in no thread's hands is in exactly one line if it was claimed and never stranded, and in none otherwise |
| LedgerStranded.ClaimedThenFailedIsLost | src/tenant_policy_gateway/billing_ledger.py:268-308 | an accepted entry whose put fails cleanly after its claim is never written, whatever happens afterwards |
| LedgerWinners.EntryWrittenExactly | src/tenant_policy_gateway/billing_ledger.py:257-308 | with the table, of all entries with one id, of whatever gateway or tenant, only the one whose claim was answered first is ever written; once the id is in no thread's hands, exactly if it was never stranded |
| LedgerObjects.ObjectsAreUnmixed | src/tenant_policy_gateway/billing_ledger.py:257-287 | over all interleavings, failures and crashes, with a bucket all lines of one object are of one tenant and one hour |
| LedgerOrder.FirstInFirstOut | src/tenant_policy_gateway/billing_ledger.py:189-248 | over all interleavings, failures and crashes the queue of a process is what was put into it, by appends and by threads with a failed batch, without what was taken, in order and within its bound |
| LedgerOrder.TakesTheOldest | src/tenant_policy_gateway/billing_ledger.py:189-216 | what a thread takes is the oldest entry not taken before, and it goes to the end of the thread's batch |
| LedgerOrder.PutsBackInOrder | src/tenant_policy_gateway/billing_ledger.py:239-248 | what a thread has still to put back of a failed batch is the rest of the batch, first entry first |
| LocalLedger.ConservationOverRuns | src/tenant_policy_gateway/billing_ledger.py:183-248 | over every interleaving of any number of threads and failures each accepted instance is in exactly one of queued, in flight, written and dropped, the queue keeps its bound, and the unfinished counter is queued plus owed plus all entries of failed batches |
| LocalLedger.TaskDoneNeverRaises | src/tenant_policy_gateway/billing_ledger.py:232-241 | `task_done` never raises in a reachable state, so a written batch is never put back |
| LocalLedger.TokensConserved | src/tenant_policy_gateway/billing_ledger.py:144-255 | accepted tokens equal the tokens queued, in flight, written and dropped together, and every line of the file balances if every accepted usage does |
| LocalLedger.FifoOverRuns | src/tenant_policy_gateway/billing_ledger.py:190-222 | with one thread and no failures, written, in flight and queued in that order are the accepted sequence in every state |
| LocalLedger.WrittenTotals | src/tenant_policy_gateway/billing_ledger.py:190-255 | then the file is a prefix of the accepted sequence and its token total is the accepted total less what is still on its way |
| BillingLedger.BillingLedger.Append | src/tenant_policy_gateway/billing_ledger.py:153-188 | whatever the threads are doing, which of ignored, suppressed, queued and queue-full an append is, and the whole new state in each case; a full queue forgets the id again |
| BillingLedger.BillingLedger.Acknowledge | src/tenant_policy_gateway/billing_ledger.py:232-233 | with other threads at work in between, the acknowledgement loop never meets an exception and ends idle; undisturbed it counts exactly the batch off |
| BillingLedger.BillingLedger.PutBack | src/tenant_policy_gateway/billing_ledger.py:239-248 | the entries go back in order until one meets a full queue, and that one and all behind it are dropped in one piece; undisturbed exactly as many as fit go back |
| BillingLedger.BillingLedger.FlushBatch | src/tenant_policy_gateway/billing_ledger.py:224-255 | with other threads at work in between, a batch either stands in the file in one piece or is put back until the queue is full and dropped from there; undisturbed the whole new state |
| BillingLedger.BillingLedger.Flush | src/tenant_policy_gateway/billing_ledger.py:190-198 | a run of the ledger's steps that starts and ends idle; undisturbed exactly the first entries up to a batch leave the queue, to the file or, if the write fails, behind the rest |
| BillingLedger.BillingLedger.WorkerTurn | src/tenant_policy_gateway/billing_ledger.py:200-222 | a turn of the worker does the same on every branch, with or without others at work |
| BillingLedger.BillingLedger.Close | src/tenant_policy_gateway/billing_ledger.py:127-131 | once the worker has joined and nobody appends, `close` writes exactly the first remaining entries that fit one batch, empties the queue if and only if all fit, and then, without failures, the file is the accepted sequence |
| AwsSink.AwsSink.Claim | src/tenant_policy_gateway/billing_ledger.py:289-308 | the conditional put and its outcomes are the protocol's claim step; a claim is won only for an id that had no row |
| AwsSink.AwsSink.Put | src/tenant_policy_gateway/billing_ledger.py:272-285 | one object with the claimed entries, or an error before or after it was stored |
| AwsSink.AwsSink.MarkComplete | src/tenant_policy_gateway/billing_ledger.py:310-323 | the row is completed with the object's key, or an error before or after |
| AwsSink.AwsSink.FlushS3Batch | src/tenant_policy_gateway/billing_ledger.py:257-287 | with everyone else's steps between its remote calls, the nested loops are a run of the protocol that ends idle or with the whole batch to be put back; without an error every id is claimed or every group is in an object put since, under the prefix and the group's own tenant; every object holds the lines of one tenant and hour; and no id is ever in the guarded bucket twice |
| TenantRegistry.Load | src/tenant_policy_gateway/tenant_registry.py:116-129 | loading succeeds if and only if no tenant id and no domain occurs twice; then both maps hold exactly what is listed, otherwise it stops at the first tenant that repeats something and names the repeated id, or the domain and its owner |
| TenantRegistry.OwnerIsTheLister | src/tenant_policy_gateway/tenant_registry.py:131-138 | a host resolves to a tenant if and only if that tenant lists its domain, and no other tenant does |
| TenantRegistry.SpellingDoesNotMatter | src/tenant_policy_gateway/tenant_registry.py:134-138 | case and a port do not change the owner of a host name |
| TenantRegistry.AnySpellingResolves | src/tenant_policy_gateway/tenant_registry.py:131-138 | a host header that spells a listed lower-case domain, in any mix of cases, with or without a port and with blanks around it, resolves to the tenant that lists it |
| TenantRegistry.AcceptedDomains | src/tenant_policy_gateway/tenant_registry.py:79-85 | a list of domains is refused if and only if every entry is blank; otherwise exactly the lower-case domains are accepted of which some entry is a spelling, in any mix of cases and with blanks around it |
| TenantRegistry.ReachableDomains | src/tenant_policy_gateway/tenant_registry.py:79-85 | an accepted domain can be matched by some host header if and only if it does not hold exactly one colon |
| Policy.EvaluatePolicy | src/tenant_policy_gateway/policy_engine.py:246-320 | a request is allowed if and only if the host has an owner, the token is the owner's, and the owner allows the model and the adapter; the decision carries exactly these; and each refusal has its own status and reason |
| Policy.EvaluateGovernance | src/tenant_policy_gateway/adapter_governance.py:19-50 | an adapter is allowed if and only if none is asked for, the catalogue is not enforced, or it holds an active, signed, checksummed artifact made for the model; and each refusal has its own reason |
| Policy.AuthTenantIsPolicyTenant | src/tenant_policy_gateway/main.py:188-202 | the tenant whose issuer checks the token is the tenant whose policy is applied |
| Policy.ForwardedExactly | src/tenant_policy_gateway/main.py:188-242 | with a registry that loaded, a request passes policy and governance if and only if some listed tenant owns the host and entitles it, and it is forwarded as that one tenant |
| Policy.AnsweredExactly | src/tenant_policy_gateway/main.py:188-242 | with a registry that loaded, the whole answer of policy and governance: a host that no tenant lists is refused, any other is answered by its tenant, each refusal with its own status and reason in the order of the checks |
| Policy.TokensStayHome | src/tenant_policy_gateway/policy_engine.py:263-273 | a token of one tenant is never accepted on a host of another |
| Headers.BlockedExactly | src/tenant_policy_gateway/header_sanitizer.py:5-42 | a header name is blocked if and only if it spells one of twenty names, in any mix of cases |
| Headers.SanitizeInboundHeaders | src/tenant_policy_gateway/header_sanitizer.py:34-44 | exactly the unblocked names are kept, each with the value of its last occurrence; no spelling of a blocked name is, in any mix of cases |
| Headers.RendersExactly | src/tenant_policy_gateway/main.py:414-415 | a template fails if and only if it names a field that is not supplied |
| Headers.BuildOutboundHeaders | src/tenant_policy_gateway/main.py:409-435 | it fails if and only if the user template names a field other than the two ids or the filter template one other than the tenant's; otherwise the upstream sees the tenant, user and request id, the profile, the isolation and the filled-in templates the gateway decided on, whatever the client sent, and the client's last values of all names that are neither blocked nor set; no spelling of a sensitive name, such as authorization, is passed on |
| Headers.DefaultHeaders | src/tenant_policy_gateway/tenant_registry.py:71-73 | with the default templates the user header is tenant, colon, user and the filter is the tenant's |
| Headers.DefaultUserHeaderIdentifies | src/tenant_policy_gateway/tenant_registry.py:73 | the default user header is tenant, colon, user; two users get the same one if and only if they would share their quota keys, hence never with colon-free tenant ids |
| Headers.BlockedHeadersDoNotMatter | src/tenant_policy_gateway/header_sanitizer.py:34-70 | two requests that differ only in blocked and overwritten headers are forwarded with equal headers |
| Headers.UnspoofedExactly | src/tenant_policy_gateway/header_sanitizer.py:51-70 | no spelling of a trusted name carries a client's value if and only if no header respells one of the three names that are set without being blocked |
| Gateway.Gate | src/tenant_policy_gateway/main.py:150-266 | each refusal before quota has its own status and reason: a blocked posture, a malformed body, an unavailable registry, a host without an owner, a token that does not verify; otherwise policy and governance decide, and a stream they pass is refused if and only if unbilled streams are not allowed and a billing mode is on |
| Gateway.Gateway.Proceed | src/tenant_policy_gateway/main.py:268-315 | the quota is asked about the tenant's id, the user, the request's id and estimate and the tenant's own limits, and an admission enters exactly that in the history; a denied request takes nothing, one on its way to the upstream holds exactly its own slot, and an admitted one loses it if and only if a template of its tenant is malformed |
| Gateway.Gateway.Begin | src/tenant_policy_gateway/main.py:143-315 | quota is neither asked nor changed before every gate has passed; then it is asked about the request as its host owner's and its token's user's, with the owner's own limits: an admission counts its estimate, or nothing if there is none or it is negative, and an estimate above the owner's token limit is refused |
| Gateway.Gateway.Resume | src/tenant_policy_gateway/main.py:317-407 | on every outcome the slot is released exactly once; in the billing modes a response passes only if its usage balances and its id is in the ledger now or already, and each failure has its own answer |
| Gateway.Gateway.OpenStream | src/tenant_policy_gateway/main.py:449-455 | a stream that cannot be opened leaks its slot, and only such a one does |
| Gateway.Gateway.EndStream | src/tenant_policy_gateway/main.py:457-469 | a stream releases its slot once if its iteration ever began and leaks it if not |
| Gateway.Gateway.LedgerStep | src/tenant_policy_gateway/billing_ledger.py:200-248 | a step of a ledger thread at any time keeps everything the gateway relies on |
| Gateway.PassedResponsesAreBilled | src/tenant_policy_gateway/main.py:323-377 | in the local billing mode, whatever the ledger threads are doing, every plain response ever passed through has an entry with its id in the file, the queue or a thread's hands, unless it was dropped on a full requeue |
| Gateway.Gateway.ResumeBoth | src/tenant_policy_gateway/main.py:323-377 | two responses of different tenants with one request id: both pass and only the first tenant is billed |
| Gateway.PassedExactlyAsBilled | src/tenant_policy_gateway/main.py:323-377 | in the local billing mode, at any time, file, queue, threads' hands and dropped entries hold for every request id and tenant exactly as many entries as responses were billed, besides those from before; and a response passed unbilled repeats the id of an older entry |
| Gateway.PassedResponsesReachTheBucket | src/tenant_policy_gateway/main.py:323-377 | in the AWS mode, once a passed response's id has left memory, not dropped and not crashed, it is in some object without a table, and with one in exactly one object if and only if it was never stranded; the entry it stands there with is the one whose claim was answered first |
| Gateway.EveryLineBalances | src/tenant_policy_gateway/billing_ledger.py:133-151 | every line the ledger of a gateway has written balances |
| Gateway.LiveSlotsAreRequests | src/tenant_policy_gateway/main.py:268-321 | in every state of the gateway in which no id was reused, a live slot belongs exactly to an admitted young request that is in the gateway or left it without giving the slot back |
| SlotAccounts.SlotsAreHeldOrLeaked | src/tenant_policy_gateway/main.py:268-321 | over any interleaving of requests with fresh ids, a live slot belongs exactly to a request still in the gateway or one that left without giving it back, admitted less than a lifetime ago |
| SlotAccounts.IdleGatewayHoldsNothing | src/tenant_policy_gateway/main.py:317-321 | a gateway with nothing in progress and nothing leaked holds no slot |

## Left out

- Arithmetic beyond integers: seconds as floating-point numbers, a clock that steps back, Lua numbers above 2^53, and the rounding of the mantissa Lua prints for numbers from 10^14 on.
- MemoryQuota.InMemoryQuotaEnforcer.FinishRequest: is called with a request id; the branch without one, which removes an arbitrary slot, is a compatibility path no caller in the repository takes.
- RedisScripts.RedisQuotaEnforcer.FinishRequest: is called with a request id; the branch for an empty one, which removes the oldest slot of each set, is never taken by the handler.
- BillingLedger.BillingLedger.FlushBatch: models the local mode; the S3 branch is `AwsSink.AwsSink.FlushS3Batch`, and its requeue and acknowledgement are steps of `LedgerProtocol`.
- BillingLedger.BillingLedger.WorkerTurn: does not model the time the worker waits.
- LedgerAtMostOnce.AtMostOnce: object keys may repeat in it; that a new key never overwrites an object rests on the random part of the key.
- AwsSink.AwsSink.Put: of an object's key only the prefix and the tenant are modelled; the path of the hour, the timestamp and the random part are any text, and so are the object's metadata.
- Of a billing entry the id, tenant, hour and usage are modelled; its other fields are carried along unread.
- The set of seen ids inside the many-process protocol: any entry may be accepted there at any time, which only adds runs.
- Gateway.Gateway.Proceed: uses the in-memory enforcer; which slots stay taken over a Redis that is down or whose replies are lost is stated by `RedisSlots`.
- Gateway.Gateway.Begin: uses the in-memory enforcer, likewise.
- Gateway.Gateway.Resume: uses the in-memory enforcer, likewise.
- RedisOpenRequests.SlotHeldExactly: is about colon-free tenant ids, and so are the other results of that module; what aliasing tenants do to each other is `RedisTenants`.
- Gateway.PassedResponsesReachTheBucket: takes the shared protocol as any run that accepted what this gateway's ledger did.
- Gateway.PassedResponsesAreBilled: streams are passed without billing where the settings allow it, and are not part of it.
- Headers.RendersExactly: a format string is a list of literals and named fields; its parser, positional fields, attribute access, conversions and format specifications are not modelled.
- Headers are a mapping without order on the way out; the order in which they are sent is left out.
- Text is ASCII where it is lower-cased and stripped.
- JSON and YAML parsing, schema validation, token signatures and key sets, tokenizers, audit, metrics and logs: their results are inputs.
- The bytes of a proxied stream, and the HTTP clients: an upstream call is an outcome.
- The prefix of Redis keys is any string; that trailing colons are stripped from it does not matter to the proofs.
