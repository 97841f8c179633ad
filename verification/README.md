# rbatis-cache, modelled and proved

rbatis-cache keeps query results of a database in a shared cache. It promises that a stale result is never
served after an invalidation, that concurrent misses of one query load it once, that a failing cache never
fails a query, and that transactions that roll back leave no trace. This project models the code that has to
keep those promises and proves what it keeps, for every input, run or interleaving.

`dafny verify dfyconfig.toml` checks everything.

## What is modelled

**`get_or_load` as a protocol** (`Protocol.dfy` and the files beside it). Any number of calls run at once, one
shared-state access per step, with commits and `invalidate_after_commit` of writers, late or lost or damaged
entries, failing loaders, failing backends, dropped futures and a clock that jumps anywhere. A step of a call
lies between two points where another call may run; in particular the `Arc` clone in the table, the mutex,
`release_flight` and the end of the scope are separate steps. A run is a sequence of states from the empty
interceptor. Reading the database and returning from the loader are one step: nothing the loader does between
the two is visible to anybody else. On top of it:

- `ProtocolFlights.dfy`: the single-flight table under reclamation at `strong_count == 2`;
- `ProtocolKeys.dfy`: the keys that a run's calls look up, and when their digests tell them apart;
- `ProtocolFence.dfy`: the generation fence;
- `ProtocolLeftovers.dfy`: when an idle flight table is not empty;
- `ProtocolClock.dfy`: freshness under a clock that falls back;
- `ProtocolBypass.dfy`: who goes past the cache, and that those calls touch nothing;
- `ProtocolProvenance.dfy`: every hit was loaded and sealed by some call less than a TTL ago;
- `ProtocolSharing.dfy`: one load serves all callers until something spoils the entry, with the list of what can;
- `ProtocolMetrics.dfy`: conservation of the counters, and fail-open;
- `Interceptor.dfy`: the interceptor as an object with reference counts in its flights, run from await to
  await; everything it does is a run of the protocol, so the theorems hold of the object. `GetOrLoad` strings
  the stretches together for a call that nobody disturbs.

**The in-process backend** (`LocalModel.dfy`, `LocalBackend.dfy`). The class has the source's maps and loops;
each method equals a step of a pure state machine. Traces of that machine are then compared with simpler
things: a plain expiring map (`LocalContents.dfy`), itself without any background clean-up
(`LocalExpiry.dfy`), an LFU that never sweeps its counters (`LocalAging.dfy`), a list (`LocalRecency.dfy`),
and itself with a larger bound (`LocalInclusion.dfy`). What the protocol lets a backend do, answer the last
entry put or lose it, is what `GetRefinesLastPut` and `GenerationsAreRanks` prove of this one.
`LocalEviction.dfy` says in terms of the trace whom LFU evicts, and how many leave under any policy.
`LocalConcurrency.dfy` takes `evict_if_needed` apart into steps of many calls over a sharded map, whose length
is summed and whose entries are scanned shard by shard, and bounds the overshoot.

**Transactions** (`Transactions.dfy`). Buffers, flushes and the backend as a machine in which a flush runs
step by step beside all other traffic, each backend call failing with or without effect. The hooks of a
transaction may look for its buffer under any id. `TransactionErasure.dfy` gives the exact condition under
which deleting a transaction that never commits changes nothing; `TransactionFlush.dfy` proves what a flush may
publish, `TransactionCommit.dfy` what it does publish; `Listener.dfy` holds the buffer and the listener as
objects, tied to the machine, with the policy that decides what a query may store.

**The hooks** (`Hooks.dfy`): `before` and `after` against an outside world that answers anything, with the
record of what was asked.

**Self-contained algorithms**: the key preimage (`CacheKey.dfy`), the consistent-hash ring
(`ConsistentHash.dfy`), the address list (`AddressList.dfy`), the circuit breaker (`CircuitBreaker.dfy`), the
envelope and its clock (`Envelope.dfy`).

## Where the code and its documentation differ

- `src/envelope.rs:71` and `docs/rbatis-cache-architecture.md:253` say that a clock before the epoch rejects
  old entries. `now_ms` returns 0, which accepts them: `RejectedBeforeEpochIff` gives the only entries that are
  rejected, and `ClockAtZeroRejectsNothing` says it of every run. The protocol lets the clock jump anywhere;
  the fence does not depend on it.
- `src/listener.rs:9-10` says that a Bypass transaction never writes the shared cache. `after` has no such check
  before `store_value`, so the model stores, and `UnbufferedReadIsPublished` shows the consequence.
- In FailClosed mode `after` still swallows a failed generation (`src/rbatis_intercept.rs:372-375`), and so
  does the re-check of a follower in `before` (`src/rbatis_intercept.rs:337-340`). The contracts of `Hooks`
  say exactly which failures become errors.
- `src/interceptor.rs:9-11` has the flight table cleaned up by its reference counts. It need not be empty when
  idle: a failed loader leaves an entry, and so do two calls that both answer if the second releases while the
  first still holds its clone. `IdleEntries` says for every run exactly which idle digests are listed; the
  safety of the table does not depend on it.

## Model

| member | source | states |
|---|---|---|
| `ProtocolFence.GenerationFence` | src/interceptor.rs:75-146 | as long as the keys that calls have looked up do not collide, a call that begins after `invalidate_after_commit` has returned answers only data read at or after that commit, for the query asked, in every interleaving, with puts and bumps that fail or land late |
| `ProtocolFence.FreshIsFenced` | src/envelope.rs:66-68 | an entry that passes the freshness test under a call's digest answers that call's query, with data no older than the call must see |
| `ProtocolFence.StepKeepsFence` | src/interceptor.rs:89-134 | every step keeps: whatever is stored, on its way or loaded under generation g was read after g began |
| `ProtocolFence.BumpKeepsWorld` | src/interceptor.rs:142-146 | a bump puts the floor of the new generation above all earlier commits |
| `ProtocolFence.HashedGenerationFence` | src/interceptor.rs:75-146 | the fence, asking of the hash only that it separates the preimages which the run has hashed |
| `ProtocolKeys.HashedKeysDoNotCollide` | src/key.rs:60-85 | keys in use have one digest only if they ask the same query at the same generation, provided the hash separates their preimages |
| `ProtocolKeys.NoCollisionEarlier` | src/key.rs:60-85 | a key once looked up stays its call's key, so collisions absent at the end were absent on the way |
| `ProtocolFlights.OneLoaderPerDigest` | src/interceptor.rs:108-122 | in every reachable state at most one call per digest is under the lock, despite reclamation, errors and cancellation |
| `ProtocolFlights.ReleaseFindsItsFlight` | src/interceptor.rs:226-234 | the vacant and pointer-mismatch cases are never reached, and the entry goes if and only if nobody else holds the flight |
| `ProtocolFlights.CountOfTwo` | src/interceptor.rs:231-233 | a strong count of two means the caller is the only holder |
| `ProtocolFlights.SoleHolderCountsTwo` | src/interceptor.rs:231-233 | conversely a sole holder sees a count of exactly two |
| `ProtocolFlights.ReleaseKeeps` | src/interceptor.rs:226-234 | releasing keeps everybody who still relies on the table on the listed flight |
| `ProtocolFlights.JoinKeeps` | src/interceptor.rs:108-112 | joining gives the listed flight, and a new flight is shared by no other digest |
| `ProtocolFlights.HeldLockHasLiveOwner` | src/interceptor.rs:113-137 | a held lock always belongs to a call that can move on without being cancelled |
| `ProtocolSharing.SecondLoadHasACause` | src/interceptor.rs:113-137 | between two loads of one digest under the lock there is one of a short list of causes |
| `ProtocolSharing.KeepsServing` | src/interceptor.rs:113-137 | after a load nobody else loads that digest, and its entry stays available, until one of those causes |
| `ProtocolSharing.LookupsShareTheLoad` | src/interceptor.rs:101-120 | once put, every first or second lookup of the digest answers the one loaded payload |
| `ProtocolBypass.BypassBegins` | src/interceptor.rs:81-87 | a call in a transaction, or on SQL that does not parse or is no SELECT, counts one bypass and one load when it begins, and touches no entry and no flight |
| `ProtocolBypass.BypassHandsOnItsLoader` | src/interceptor.rs:81-87 | such a call then only answers what its loader says, or is cancelled: no generation, lookup, flight or put, and no further counting, in every run |
| `ProtocolBypass.SelectIsLookedUp` | src/interceptor.rs:81-101 | every other call asks the backend for its entry, unless its generation cannot be read or it is cancelled first |
| `ProtocolProvenance.HitsWereLoaded` | src/interceptor.rs:122-130 | in every run a hit answers what some call's loader had returned and that call had sealed under the same digest, less than one TTL before, within the size limit |
| `ProtocolClock.FreshIff` | src/interceptor.rs:190-200 | a lookup finds an entry if and only if one of its generation lies there that expires after now |
| `ProtocolClock.ClockAtZeroRejectsNothing` | src/envelope.rs:66-79 | when the clock reads zero, every run's lookups find whatever lies there, however long expired |
| `Envelopes.RejectedBeforeEpochIff` | src/envelope.rs:71-79 | a clock before the epoch rejects an entry if and only if it was sealed no later than the epoch with no TTL |
| `Envelopes.LivesForItsTtl` | src/envelope.rs:43-68 | past the epoch an entry lives for exactly its TTL |
| `Envelopes.ExpiredEntryComesBack` | src/envelope.rs:66-79 | an expired entry is served again when the clock falls back before the epoch |
| `Envelopes.OthersAreNeverFresh` | src/envelope.rs:66-68 | an envelope of another generation or another version is never fresh, at any time |
| `Envelopes.OnlyTheSealedIsServed` | src/envelope.rs:43-68 | what is served under a generation was sealed under it, and is the payload that was sealed |
| `ProtocolMetrics.CountersBalance` | src/interceptor.rs:81-139 | hits + loads is the number of calls, and loads = bypasses + generation failures + (misses - re-check hits) |
| `ProtocolMetrics.RunKeepsMetrics` | src/interceptor.rs:190-220 | the shared counters are always the sum of what the calls counted, each by where it stands |
| `ProtocolMetrics.FailuresAreCounted` | src/interceptor.rs:90-146 | the error counter is the number of failed backend calls, the invalidation counter the number of bumps that returned |
| `ProtocolMetrics.LoadedIsDelivered` | src/interceptor.rs:121-138 | a loaded payload reaches its caller whatever the backend does |
| `ProtocolMetrics.ErrorsAreTheLoaders` | src/interceptor.rs:122-126 | a call fails only if its own loader or its own encoding failed |
| `ProtocolMetrics.FailuresAreReported` | src/interceptor.rs:122-126 | conversely a call whose loader or encoding fails ends in that error, whatever comes after |
| `ProtocolFlights.EarlyExitLeavesEntry` | src/interceptor.rs:122-126 | an error or a dropped future under a flight always leaves its entry in the table |
| `ProtocolLeftovers.IdleEntries` | src/interceptor.rs:122-139 | in every run, a digest that nobody relies on is listed if and only if the last call to rely on it failed, was dropped, or released beside another holder |
| `ProtocolLeftovers.FailedLoadLeavesEntry` | src/interceptor.rs:122 | a run of one failing call ends idle with an entry listed |
| `ProtocolLeftovers.OverlappingReleasesLeaveEntry` | src/interceptor.rs:136-139 | a run of two calls that both answer ends idle with an entry listed |
| `Interceptors.CacheInterceptor.GetOrLoad` | src/interceptor.rs:75-139 | a whole call with nobody else under way: its answer, and the entry it leaves behind, for every way its awaits can end; one that may not use the cache answers its loader and leaves entries and flights alone, any other that can find a fresh entry answers it |
| `Interceptors.SecondCallHits` | src/interceptor.rs:101-138 | what one call has loaded and put, the next call for the request answers |
| `Interceptors.CacheInterceptor.AfterLookup` | src/interceptor.rs:100-113 | the stretch from the first lookup to the lock is exactly those protocol steps |
| `Interceptors.CacheInterceptor.AfterRecheck` | src/interceptor.rs:113-122 | the stretch after the second lookup is exactly those protocol steps |
| `Interceptors.CacheInterceptor.AfterLoader` | src/interceptor.rs:122-134 | the stretch after the loader, for every result, size and encoding outcome |
| `Interceptors.CacheInterceptor.AfterPut` | src/interceptor.rs:127-138 | the stretch after the put, for success and failure |
| `Interceptors.CacheInterceptor.Unwind` | src/interceptor.rs:113-126 | an error or a dropped future gives back the lock and the clone, in that order, and nothing else |
| `Interceptors.CacheInterceptor.Reclaim` | src/interceptor.rs:226-234 | deciding by the reference counter equals deciding by who really holds the flight |
| `Interceptors.CacheInterceptor.AfterBump` | src/interceptor.rs:142-146 | a bump that returns is acknowledged and counted, a failing one is neither |
| `Interceptors.Unlisted` | src/interceptor.rs:231-233 | dropping the table's reference keeps every counter equal to its holders |
| `Interceptors.ObjectHasOneLoader` | src/interceptor.rs:108-122 | at every moment of the object's life at most one call per digest is under the lock |
| `Interceptors.ObjectGoesPast` | src/interceptor.rs:81-87 | at every moment of the object's life, a call that may not use the cache hands on its loader's answer and touches no entry and no flight |
| `Interceptors.ObjectIsFenced` | src/interceptor.rs:40-62 | the fence holds of the object at every moment of its life, given only that the keys it has looked up do not collide |
| `LocalModel.CountersStaySmall` | src/local/mod.rs:280-283 | sequence numbers and access counts never exceed the number of operations |
| `LocalModel.SweepKeepsOrder` | src/local/lfu.rs:21-34 | the subtracted minimum is the victim's count, and the sweep leaves the same victim |
| `LocalModel.VictimExists` | src/local/lru.rs:16-21 | every policy has a victim in a non-empty map |
| `LocalBackends.LocalBackend.PickLfu` | src/local/lfu.rs:21-34 | the two passes pick the least used, oldest entry and leave the aged map |
| `LocalBackends.LocalBackend.MinByKey` | src/local/lru.rs:16-21 | one pass over the map finds the policy's first entry |
| `LocalBackends.LocalBackend.VictimKey` | src/local/mod.rs:233-239 | each policy picks its unique first entry |
| `LocalBackends.LocalBackend.EvictDown` | src/local/mod.rs:219-227 | the loop ends and evicts exactly the specified keys in order |
| `LocalBackends.LocalBackend.MakeRoom` | src/local/mod.rs:209-228 | purge first, then evict, or nothing below the bound |
| `LocalBackends.LocalBackend.Get` | src/local/mod.rs:260-286 | value, lazy removal and refreshed counters of a read |
| `LocalBackends.LocalBackend.Put` | src/local/mod.rs:288-309 | the new state of a put, with its evictions; `ReadsLiveForTheirTtl` says what its expiry means |
| `LocalBackends.LocalBackend.Bump` | src/local/mod.rs:315-335 | the new generation and the copy kept among the entries |
| `LocalBackends.BackendRefinesLastPut` | src/local/mod.rs:260-309 | every read in the object's life answers nothing or the last unexpired put |
| `LocalBackends.BackendHonoursTtl` | src/local/mod.rs:260-309 | the object answers what was last put, and only while its TTL has not passed; without a bound exactly as long |
| `LocalBackends.BackendIsWithinBound` | src/local/mod.rs:209-228 | the object's map is always within max(1, bound) |
| `LocalContents.GetRefinesLastPut` | src/local/mod.rs:260-309 | a read answers nothing or the last unexpired bytes put under that digest, and without a bound exactly those |
| `LocalContents.ReadsLiveForTheirTtl` | src/local/mod.rs:288-305 | over any trace a read answers the bytes of the last put only before its time plus TTL, a zero TTL being a minute; without a bound, on a monotone clock, exactly until then |
| `LocalContents.OnlyPutsAreRead` | src/local/mod.rs:260-286 | what a read answers was put under its digest before |
| `LocalEviction.LfuEvictsLeastUsedThenOldest` | src/local/lfu.rs:29-33 | over any trace LFU evicts a live entry used less often than every live entry that stays or leaves later, or as often and inserted by an earlier operation |
| `LocalEviction.NobodyLeavesWithoutNeed` | src/local/mod.rs:209-228 | under any policy an insertion evicts exactly as many live entries as it takes to fall below the bound, after the expired ones are gone |
| `LocalEviction.NumbersAreAges` | src/local/mod.rs:297-303 | sequence numbers order entries as the operations that last inserted them |
| `LocalContents.KeysNeverCollide` | src/local/mod.rs:182-189 | entry keys and generation keys are disjoint |
| `LocalContents.GenerationsAreRanks` | src/local/mod.rs:192-206 | each bump answers its rank, each read the number of bumps, whatever was evicted |
| `LocalContents.NeverOverCapacity` | src/local/mod.rs:209-228 | run one call at a time, the map never exceeds max(1, bound) |
| `LocalConcurrency.CapacityUnderConcurrency` | src/local/mod.rs:209-306 | with at most n calls under way, entries plus pending inserts stay within max(1, bound) + n - 1, although length and victim are read shard by shard |
| `LocalConcurrency.PassKeeps` | src/local/mod.rs:213-226 | a call that passes on a count taken while the map changed could have been counted among the scans |
| `LocalConcurrency.TwoCallsOvershoot` | src/local/mod.rs:213-306 | the overshoot really happens, however the map is sharded |
| `LocalConcurrency.LoneCallGetsThrough` | src/local/mod.rs:209-306 | from every reachable state a newcomer left alone evicts until there is room, inserts its key, and leaves the map within the bound |
| `LocalExpiry.CleanupIsUnobservable` | src/local/mod.rs:153-156 | histories that differ only in background clean-ups give the same answers, evictions and live entries |
| `LocalExpiry.EvictionIgnoresDead` | src/local/mod.rs:209-228 | expired entries influence no choice of victim |
| `LocalAging.SweepIsInvisible` | src/local/lfu.rs:21-34 | the sweeping LFU answers and evicts exactly as one that never sweeps and starts newcomers at the last victim's priority |
| `LocalRecency.SequenceNumbersAreAList` | src/local/lru.rs:16-21 | LRU is a move-to-front list and FIFO an insertion list, answer by answer and victim by victim |
| `LocalRecency.OrderedCut` | src/local/fifo.rs:16-21 | the eviction loop cuts the far end of the list |
| `LocalInclusion.LargerNeverHurts` | src/local/mod.rs:209-306 | under LRU and FIFO every hit at a bound is the same hit at any larger bound |
| `LocalInclusion.RunIncludes` | src/local/mod.rs:209-306 | what the smaller backend holds the larger holds, with at most one entry more and the same order |
| `TransactionErasure.RollbackErasure` | src/listener.rs:66-119 | deleting a transaction that never commits leaves generations and all other buffers and flushes unchanged, and entries and writes too if and only if each of its queries found its buffer or did not store, whatever ids its hooks use short of another's |
| `TransactionErasure.EntriesErased` | src/listener.rs:66-119 | the entries alone are unchanged if and only if whatever it put last would have been there without it |
| `TransactionErasure.ForeignBufferIsPublished` | src/rbatis_intercept.rs:399-405 | a read that lands in another transaction's buffer is published by that one's commit |
| `TransactionErasure.UnbufferedReadIsPublished` | src/rbatis_intercept.rs:399-408 | without a buffer a rolled-back transaction's read stays in the backend |
| `TransactionErasure.OpenIsInTable` | src/listener.rs:66-119 | a buffer is open exactly between Begin and the first terminal event |
| `TransactionFlush.WritersNeverPublish` | src/transactional.rs:58-70 | an entry of a marked namespace is out of date when it is put, and for ever after |
| `TransactionFlush.FailedBumpPutsNothing` | src/transactional.rs:58-61 | a flush one of whose bumps fails never puts anything |
| `TransactionFlush.LogTellsAll` | src/transactional.rs:58-70 | the writes determine the backend, and a generation is its number of bumps |
| `TransactionCommit.CommittedChangeRaisesGeneration` | src/rbatis_intercept.rs:414-424 | a change made while its buffer is open has, once the transaction has committed and its flush got through, raised its namespace's generation above that at the commit, whatever runs beside it |
| `TransactionCommit.CommittedReadIsPut` | src/transactional.rs:62-68 | a read buffered and not overwritten has then been put, with its value under its key |
| `TransactionCommit.BypassCommitRaisesGeneration` | src/listener.rs:92-102 | in Bypass mode a commit whose bump succeeds has raised the listener's generation |
| `Listeners.TransactionalCacheBuffer.FlushTo` | src/transactional.rs:58-70 | it is aborted exactly if one of its backend calls failed; otherwise each marked namespace is bumped once and the store overlaid with the buffer; the backend is asked for exactly the flush's steps |
| `Listeners.CacheTransactionListener.OnEvent` | src/listener.rs:66-119 | each life-cycle event is the machine's step, followed on commit by its flush, which is carried to its end: aborted exactly if a backend call failed, else everything bumped and put; in Bypass mode exactly one bump is attempted |
| `Listeners.CacheTransactionListener.AfterQuery` | src/rbatis_intercept.rs:371-408 | nothing for a value the policy does not keep; else into the open buffer, else straight to the backend, asked exactly for values that may be stored and failing exactly as `store_value` does |
| `Listeners.CacheTransactionListener.AfterDml` | src/rbatis_intercept.rs:414-424 | a change marks the namespace in the open buffer and nothing else |
| `Hooks.RbatisCacheInterceptor.Before` | src/rbatis_intercept.rs:263-351 | past the cache, with nothing asked, exactly when not cacheable or in a Bypass transaction; a buffered value is returned at once; otherwise the calls follow the script from the generation on, a delivered value is always returned, and `Next` means that nothing was delivered; an error if and only if FailClosed and the first generation or the last entry failed |
| `Hooks.RbatisCacheInterceptor.LookupOrElect` | src/rbatis_intercept.rs:315-351 | the calls from the lookup on follow the script, and the last one decides the outcome: a hit is returned, a miss goes on or to an election |
| `Hooks.RbatisCacheInterceptor.Elect` | src/rbatis_intercept.rs:322-348 | the winner of an election and the loser of three go on to the database; each earlier loss is followed by a wait and another lookup |
| `Hooks.NextFoundNothing` | src/rbatis_intercept.rs:315-351 | a hook that goes on to the database has been delivered no value |
| `Hooks.RbatisCacheInterceptor.LookupValue` | src/rbatis_intercept.rs:177-219 | hit, miss or error according to its last call, each counted once; a fresh payload that is no value is counted nowhere |
| `Hooks.RbatisCacheInterceptor.ResolveKey` | src/rbatis_intercept.rs:158-174 | a failed generation is counted in FailOpen mode only |
| `Hooks.RbatisCacheInterceptor.StoreValue` | src/rbatis_intercept.rs:222-256 | exactly which outcomes are errors, and when the backend is asked at all |
| `Hooks.RbatisCacheInterceptor.AfterQuery` | src/rbatis_intercept.rs:365-409 | followers are woken and the session cache filled first; fail-open never errs on values that encode; exact conditions for buffering, storing, the TTL and errors |
| `Hooks.NullResults` | src/rbatis_intercept.rs:390-397 | nulls and empty arrays are kept only if the policy caches them, for the null TTL if there is one; anything else always, for the ordinary TTL |
| `Hooks.StoringCases` | src/rbatis_intercept.rs:222-256 | which failures of a store are errors: encoding always, size never, a failed put in FailClosed mode only |
| `Hooks.WhatIsCounted` | src/rbatis_intercept.rs:158-219 | what each answer of the outside world adds to the counters |
| `Hooks.RbatisCacheInterceptor.AfterExec` | src/rbatis_intercept.rs:410-448 | clears the session cache, marks inside a transaction, bumps outside, and errs only for a FailClosed bump |
| `CircuitBreaker.Accounting` | rbatis-cache-redis/src/redis_cache.rs:105-144 | every failure is spent on an opening, still counted, or forgiven; the counter stays below the threshold |
| `CircuitBreaker.FailingServerIsSpared` | rbatis-cache-redis/src/redis_cache.rs:105-144 | against a failing server at most threshold * (T / cooldown + 1) operations are issued in T ms |
| `CircuitBreaker.RejectedIffHeldOpen` | rbatis-cache-redis/src/redis_cache.rs:109-140 | after any trace a call is rejected if and only if it starts less than a cool-down after the end of the last failure that opened the circuit |
| `CircuitBreaker.OpensAtThreshold` | rbatis-cache-redis/src/redis_cache.rs:131-143 | a call opens the circuit if and only if it is let through, fails, and makes as many failures since the last success or opening as the threshold, zero counting as one |
| `CircuitBreaker.CooledDownIsAdmitted` | rbatis-cache-redis/src/redis_cache.rs:109-140 | a cool-down after every earlier call has ended, the next is let through |
| `CircuitBreaker.MetricsCountOutcomes` | rbatis-cache-redis/src/redis_cache.rs:112-127 | operations, errors and timeouts count the admitted calls that ended so |
| `CircuitBreaker.BreakerBalances` | rbatis-cache-redis/src/redis_cache.rs:105-144 | the object's own counters balance at every moment |
| `CircuitBreaker.BreakerSparesServer` | rbatis-cache-redis/src/redis_cache.rs:105-144 | the object before a failing server has let through no more than the bound |
| `CircuitBreaker.Breaker.Run` | rbatis-cache-redis/src/redis_cache.rs:105-129 | the new state and the result of one call, which is a rejection if and only if less than a cool-down has passed since the last opening |
| `CacheKeys.PreimageIdentifiesQuery` | src/key.rs:60-80 | equal preimages if and only if all components and the generation agree, up to the default tenant |
| `CacheKeys.DecodeEncode` | src/key.rs:113-117 | length-prefixed components decode back, whatever follows |
| `CacheKeys.Build` | src/key.rs:60-85 | the digest is the hash of the preimage, the other fields are those of input and parser, and it fails exactly when the SQL does not parse |
| `ConsistentHash.New` | rbatis-cache-memcached/src/consistent_hash.rs:27-37 | the ring holds every virtual point, a collision going to the highest node |
| `ConsistentHash.NodeAtIsNearest` | rbatis-cache-memcached/src/consistent_hash.rs:40-47 | a key goes to the owner of the nearest point clockwise |
| `ConsistentHash.NodeForInRange` | rbatis-cache-memcached/src/consistent_hash.rs:40-47 | with a node and a virtual point the answer is an existing node |
| `ConsistentHash.MinimalDisruption` | rbatis-cache-memcached/src/consistent_hash.rs:27-47 | growing the ring moves a key only onto a new node, for any hash and any collisions |
| `ConsistentHash.RingIsDetermined` | rbatis-cache-memcached/src/consistent_hash.rs:27-37 | the parameters determine the ring; the order of insertion leaves no trace |
| `ConsistentHash.ReplicaKeyIsInjective` | rbatis-cache-memcached/src/consistent_hash.rs:31 | no two virtual points share a key |
| `ConsistentHash.EveryNodeOwnsItsShare` | rbatis-cache-memcached/src/consistent_hash.rs:27-37 | where the hash separates those keys, every node owns as many points as it was given |
| `AddressLists.Display` | rbatis-cache-memcached/src/inet_socket_address_list_property_setter.rs:15-25 | the indexed loop writes the comma-separated form |
| `AddressLists.RoundTripIffClean` | rbatis-cache-memcached/src/inet_socket_address_list_property_setter.rs:15-42 | printing then parsing returns the list if and only if no host holds a comma or colon or starts with whitespace |
| `AddressLists.ParseIsNormalising` | rbatis-cache-memcached/src/inet_socket_address_list_property_setter.rs:27-42 | what is parsed from any text survives printing and parsing |
| `AddressLists.ParseIsPiecewise` | rbatis-cache-memcached/src/inet_socket_address_list_property_setter.rs:31-40 | the parse of two texts joined by a comma is the two parses joined: a malformed token costs no other |
| `AddressLists.OneToken` | rbatis-cache-memcached/src/inet_socket_address_list_property_setter.rs:31-40 | text without a comma parses to its one address or to nothing |
| `AddressLists.ParsesIffItReads` | rbatis-cache-memcached/src/inet_socket_address_list_property_setter.rs:33-38 | the exact grammar of a token: host, colon, optional plus, decimal port below 65536, whitespace around |

## Left out

- GenerationFence: needs a backend whose generations are never reset; the freshness of `lookup`, `store` and the hooks is not claimed, since `store` and `after` read the generation again after the query ran.
- AfterLookup: the locals of a call live in a record of the object; the futures runtime, wakers and the order in which waiters get the lock are not modelled.
- FailingServerIsSpared: calls of the breaker run one at a time on a clock that does not go back.
- SecondLoadHasACause: says nothing about a digest whose callers bypass the cache or could not read a generation; those load without a key.
- FIFO, LRU and LFU act on whole milliseconds; a TTL between zero and one millisecond is not modelled. The machine counters are unbounded here, which `CountersStaySmall` justifies below 2^64 operations.
- The `CacheKey::build` error inside `get_or_load` cannot occur, since the same SQL has just been parsed; it has no step.
- Envelopes carry no table tags, and in the protocol no version: an entry of another version is one that does not decode there. The envelope's own model and the hooks check the version.
- The session cache (`src/l1.rs`) ignores the digest, so an answer of it is taken as arbitrary; filling and clearing it are recorded, their effect is not modelled.
- `src/singleflight.rs`: elections and waits answer anything; who may complete a load, and wake-ups, are not modelled.
- In-transaction reads of the buffer look up generation 0 and `task_id`, while entries carry the real generation and the listener keys buffers by transaction id; the hook takes what it finds as an input.
- SQL parsing, MessagePack and BLAKE3 are functions given from outside; a failed encoding while flushing is a put that is lost.
- The moka backend, the memcached client, Redis input and output, gzip and the serializers: decided by libraries that are not part of this model.
- Configuration builders, `Debug` output, logging, plugin registration and the dummy locks: only easy facts.
