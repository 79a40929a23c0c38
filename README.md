# daiso-core in-memory adapters, modelled in Dafny

This project models the in-memory parts of daiso-core and proves properties about them:

- **Shared lock.** A reader/writer lock adapter. Each key holds one of two things:
  - a writer lock, with an owner and an optional expiry;
  - a reader semaphore, with a fixed limit and a map of reader slots.
- **Exclusive lock.** An adapter with the same shape as the writer half of the shared lock.
- **Cache.** An adapter that keeps a value map next to a map from key to its expiry timeout.
- **Rate-limiter storage and circuit-breaker storage.** Key/value stores with `transaction`, `find` and `remove`.
- **File store.** A map from key to file, where each file holds bytes and metadata.
- **Context.** An immutable map from token id to value.
- **`FileSize`.** A value type for byte counts in decimal units.
- **`defaultKeyValidator`.** The default check applied to file keys.
- **Object helpers.** `objectSize`, `isObjectEmpty` and `removeUndefinedProperties`.

**How each part is modelled.**

- **Adapters.** An adapter that updates its own maps is a Dafny `class`. Its map is a `map` field, and each operation is a `method` with a `modifies` clause. Each method's `ensures` states the whole new state and the value it returns. The shared lock, the cache and the rate-limiter storage also carry a `Valid()` invariant, which every operation keeps:
  - shared lock: every key holds exactly one of the two halves, and a semaphore never has more slots than its limit;
  - cache: timeoutMap names only stored keys, and only pending timeouts that delete that same key;
  - rate-limiter storage: every record's own timeout is pending.
- **Read-only operations** are functions. Their contracts relate the result to the stored state.
- **Time** is an explicit `now` argument, and a ttl ends at `now + ttl`.
- **Timers.** A pending timeout is recorded as the instant it falls due. Its callback is an explicit `Fire…Timeout` method, which acts only once the timeout is due. In the lock and shared-lock adapters, every removal clears the timeout together with the record, so the timeout is stored inside the record. The rate-limiter storage and the cache are different. An upsert of the rate-limiter storage does not cancel the timeout an earlier upsert scheduled, and the cache's `removeAll` empties its maps without cancelling any timeout. Both therefore keep a registry of pending timeouts. Their `StaleTimeoutScenario` methods show a stale timeout deleting a newer record.
- **`transaction(fn)`** is a script of upsert and find steps, run in order against the live map. The functions of `TransactionScripts` (`ApplySteps`, `FindResults`) specify what a script does, for both storages.
- **Context.** Every context operation copies the map before changing the copy. So a context is a datatype, and its operations are functions that return a new context. The two loops, `when` and `contains`, are methods. Each is proved against a specification function or quantifier.
- **Pure parts.** `FileSize`, `defaultKeyValidator` and `removeUndefinedProperties` are pure functions. `objectSize` has a counting loop, so it is a method.
- **Source quirks are kept as written.** Scenario methods exhibit them on concrete calls. These methods run an adapter through a short sequence of calls and state the exact outcomes.

## Model

| member | source | states |
|---|---|---|
| MemorySharedLock.NewWriterExpiry | src/shared-lock/implementations/adapters/memory-shared-lock-adapter/memory-shared-lock-adapter.ts:131-149 | a new writer lock expires only when a ttl is given, and then at `now + ttl` |
| MemorySharedLock.NewSlot | src/shared-lock/implementations/adapters/memory-shared-lock-adapter/memory-shared-lock-adapter.ts:264-282 | a new reader slot has a timeout and an expiration exactly when a ttl is given, both at `now + ttl` |
| MemorySharedLock.MemorySharedLockAdapter.constructor | src/shared-lock/implementations/adapters/memory-shared-lock-adapter/memory-shared-lock-adapter.ts:82-87 | starts with an empty table that satisfies the exclusion invariant |
| MemorySharedLock.MemorySharedLockAdapter.DeInit | src/shared-lock/implementations/adapters/memory-shared-lock-adapter/memory-shared-lock-adapter.ts:89-108 | the table is empty afterwards |
| MemorySharedLock.MemorySharedLockAdapter.AcquireWriter | src/shared-lock/implementations/adapters/memory-shared-lock-adapter/memory-shared-lock-adapter.ts:110-152 | false with no change under a reader semaphore; `owner == lockId` with no change under a writer; otherwise true, recording `lockId` and the optional expiry; keeps mutual exclusion |
| MemorySharedLock.MemorySharedLockAdapter.ReleaseWriter | src/shared-lock/implementations/adapters/memory-shared-lock-adapter/memory-shared-lock-adapter.ts:154-175 | true iff the key holds a writer owned by `lockId`; success removes the key, failure changes nothing |
| MemorySharedLock.MemorySharedLockAdapter.ForceReleaseWriter | src/shared-lock/implementations/adapters/memory-shared-lock-adapter/memory-shared-lock-adapter.ts:177-196 | true iff the key holds a writer, whoever owns it; success removes the key, failure changes nothing |
| MemorySharedLock.MemorySharedLockAdapter.RefreshWriter | src/shared-lock/implementations/adapters/memory-shared-lock-adapter/memory-shared-lock-adapter.ts:198-233 | true iff the key holds an expiring writer owned by `lockId`; only the timeout moves to `now + ttl`, while owner and recorded expiration are kept |
| MemorySharedLock.MemorySharedLockAdapter.AcquireReader | src/shared-lock/implementations/adapters/memory-shared-lock-adapter/memory-shared-lock-adapter.ts:235-285 | false under a writer; otherwise works on the existing semaphore or a new one with the caller's limit, which stays in the table; capacity is tested before membership; a new slot is added only below the limit |
| MemorySharedLock.MemorySharedLockAdapter.ReleaseReader | src/shared-lock/implementations/adapters/memory-shared-lock-adapter/memory-shared-lock-adapter.ts:287-319 | true iff the caller holds a slot; removes only that slot, and the entry when no slot is left |
| MemorySharedLock.MemorySharedLockAdapter.ForceReleaseAllReaders | src/shared-lock/implementations/adapters/memory-shared-lock-adapter/memory-shared-lock-adapter.ts:321-339 | true iff a semaphore with at least one slot existed; the semaphore entry is deleted even when the result is false |
| MemorySharedLock.MemorySharedLockAdapter.RefreshReader | src/shared-lock/implementations/adapters/memory-shared-lock-adapter/memory-shared-lock-adapter.ts:341-383 | true iff the caller holds an expiring slot and no writer exists; only that slot's timeout and expiration become `now + ttl` |
| MemorySharedLock.MemorySharedLockAdapter.ForceRelease | src/shared-lock/implementations/adapters/memory-shared-lock-adapter/memory-shared-lock-adapter.ts:385-391 | true iff a writer or a non-empty semaphore existed (never both, by the invariant); the key is gone afterwards |
| MemorySharedLock.MemorySharedLockAdapter.FireWriterTimeout | src/shared-lock/implementations/adapters/memory-shared-lock-adapter/memory-shared-lock-adapter.ts:136-138 | the writer timeout callback deletes the entry once due and changes nothing otherwise |
| MemorySharedLock.MemorySharedLockAdapter.FireSlotTimeout | src/shared-lock/implementations/adapters/memory-shared-lock-adapter/memory-shared-lock-adapter.ts:269-271 | the slot timeout callback deletes only that slot, leaving a possibly empty semaphore |
| MemorySharedLock.MemorySharedLockAdapter.GetState | src/shared-lock/implementations/adapters/memory-shared-lock-adapter/memory-shared-lock-adapter.ts:393-465 | fails only on an entry with neither or both halves (never under the invariant); reports a state iff the key is held at `now`; reports exactly one of writer or reader, with the stored owner and unexpired expiration, or the stored limit and slot set |
| MemorySharedLock.WriterReentrancyScenario | src/shared-lock/implementations/adapters/memory-shared-lock-adapter/memory-shared-lock-adapter.ts:110-152 | the owner re-acquires a writer lock and another owner is refused |
| MemorySharedLock.ReaderCapacityScenario | src/shared-lock/implementations/adapters/memory-shared-lock-adapter/memory-shared-lock-adapter.ts:235-319 | with limit 2 a third reader is refused until one of the first two releases |
| MemorySharedLock.FullSemaphoreRefusesHolderScenario | src/shared-lock/implementations/adapters/memory-shared-lock-adapter/memory-shared-lock-adapter.ts:255-261 | a slot holder re-acquiring a full semaphore is refused, because capacity is tested first |
| MemorySharedLock.LimitFixedAtCreationScenario | src/shared-lock/implementations/adapters/memory-shared-lock-adapter/memory-shared-lock-adapter.ts:239-253 | a later caller's larger limit is ignored |
| MemorySharedLock.CrossModeExclusionScenario | src/shared-lock/implementations/adapters/memory-shared-lock-adapter/memory-shared-lock-adapter.ts:110-152 | readers keep a writer out and a writer keeps readers out |
| MemorySharedLock.WriterExpirationScenario | src/shared-lock/implementations/adapters/memory-shared-lock-adapter/memory-shared-lock-adapter.ts:425-447 | an expired writer reads as free, but another owner acquires only after the timeout callback ran |
| MemorySharedLock.RefreshRejectsNonExpiringScenario | src/shared-lock/implementations/adapters/memory-shared-lock-adapter/memory-shared-lock-adapter.ts:198-233 | a writer lock without ttl cannot be refreshed |
| MemorySharedLock.RefreshKeepsExpirationScenario | src/shared-lock/implementations/adapters/memory-shared-lock-adapter/memory-shared-lock-adapter.ts:224-230 | after a refresh getState still reports the first expiration |
| MemorySharedLock.ReleaseCleanupScenario | src/shared-lock/implementations/adapters/memory-shared-lock-adapter/memory-shared-lock-adapter.ts:287-319 | releasing the last reader frees the key for a writer |
| MemorySharedLock.ExpiredSlotLeavesSemaphoreScenario | src/shared-lock/implementations/adapters/memory-shared-lock-adapter/memory-shared-lock-adapter.ts:269-271 | after a slot's timeout getState reports nothing, yet a writer is still refused |
| MemorySharedLock.ForceReleaseScenario | src/shared-lock/implementations/adapters/memory-shared-lock-adapter/memory-shared-lock-adapter.ts:385-391 | forceRelease is false on a free key, true on a writer or reader key, which is free afterwards |
| MemorySharedLock.ZeroLimitLeavesSemaphoreScenario | src/shared-lock/implementations/adapters/memory-shared-lock-adapter/memory-shared-lock-adapter.ts:239-261 | a first reader with limit 0 is refused but leaves an empty semaphore that blocks writers |
| MemoryLock.MemoryLockAdapter.constructor | src/lock/implementations/adapters/memory-lock-adapter/memory-lock-adapter.ts:55 | starts with no locks |
| MemoryLock.MemoryLockAdapter.DeInit | src/lock/implementations/adapters/memory-lock-adapter/memory-lock-adapter.ts:60-68 | no lock is left |
| MemoryLock.MemoryLockAdapter.Acquire | src/lock/implementations/adapters/memory-lock-adapter/memory-lock-adapter.ts:70-100 | on a held key returns `owner == lockId` and changes nothing; on a free key records the owner and the optional expiry `now + ttl` |
| MemoryLock.MemoryLockAdapter.Release | src/lock/implementations/adapters/memory-lock-adapter/memory-lock-adapter.ts:102-117 | true iff the key is held by `lockId`; success removes it, failure changes nothing |
| MemoryLock.MemoryLockAdapter.ForceRelease | src/lock/implementations/adapters/memory-lock-adapter/memory-lock-adapter.ts:119-133 | true iff a lock existed; the key is free afterwards |
| MemoryLock.MemoryLockAdapter.Refresh | src/lock/implementations/adapters/memory-lock-adapter/memory-lock-adapter.ts:135-161 | true iff the key holds an expiring lock of `lockId`; only the timeout moves, while owner and recorded expiration are kept |
| MemoryLock.MemoryLockAdapter.FireTimeout | src/lock/implementations/adapters/memory-lock-adapter/memory-lock-adapter.ts:87-89 | the timeout callback deletes the lock once due |
| MemoryLock.MemoryLockAdapter.GetState | src/lock/implementations/adapters/memory-lock-adapter/memory-lock-adapter.ts:163-181 | nothing for a missing lock or one whose expiration is `<= now`; otherwise the owner and the recorded expiration |
| MemoryLock.LockScenario | src/lock/implementations/adapters/memory-lock-adapter/memory-lock-adapter.ts:70-117 | re-entrant for the owner, refused for another, a wrong owner cannot release, the right one can |
| MemoryLock.RefreshScenario | src/lock/implementations/adapters/memory-lock-adapter/memory-lock-adapter.ts:135-181 | a refreshed lock still reports its first expiration and reads as free after it, while acquire stays refused until the timeout fires |
| MemoryCache.WithoutPrefix | src/cache/implementations/adapters/memory-cache-adapter/memory-cache-adapter.ts:125-134 | keeps exactly the keys that do not start with the prefix, with their values |
| MemoryCache.MemoryCacheAdapter.constructor | src/cache/implementations/adapters/memory-cache-adapter/memory-cache-adapter.ts:36 | starts with an empty value map, timeoutMap and timeout registry |
| MemoryCache.MemoryCacheAdapter.Get | src/cache/implementations/adapters/memory-cache-adapter/memory-cache-adapter.ts:38-42 | the stored value; null iff the key is missing or holds undefined or null |
| MemoryCache.MemoryCacheAdapter.GetAndRemove | src/cache/implementations/adapters/memory-cache-adapter/memory-cache-adapter.ts:44-48 | returns what Get returned before, then behaves as Remove |
| MemoryCache.MemoryCacheAdapter.Add | src/cache/implementations/adapters/memory-cache-adapter/memory-cache-adapter.ts:50-65 | inserts iff the key is missing; only an insertion with a ttl schedules a new timeout due at `now + ttl` and records its id in timeoutMap |
| MemoryCache.MemoryCacheAdapter.Put | src/cache/implementations/adapters/memory-cache-adapter/memory-cache-adapter.ts:67-75 | reports whether the key existed; the key maps to the new value; the timeout timeoutMap named is cleared and a new one is scheduled only with a ttl |
| MemoryCache.MemoryCacheAdapter.Update | src/cache/implementations/adapters/memory-cache-adapter/memory-cache-adapter.ts:77-83 | overwrites iff present, never inserts, timeouts untouched |
| MemoryCache.MemoryCacheAdapter.Increment | src/cache/implementations/adapters/memory-cache-adapter/memory-cache-adapter.ts:85-98 | false with no change for a missing (or undefined) key; TypeError for a non-number; otherwise adds the delta and returns true |
| MemoryCache.MemoryCacheAdapter.Remove | src/cache/implementations/adapters/memory-cache-adapter/memory-cache-adapter.ts:100-104 | reports presence; the key leaves both maps and only the timeout timeoutMap named for it is cleared |
| MemoryCache.MemoryCacheAdapter.RemoveMany | src/cache/implementations/adapters/memory-cache-adapter/memory-cache-adapter.ts:106-117 | true iff some listed key was present; exactly the listed keys leave both maps, with the timeouts timeoutMap named for them |
| MemoryCache.MemoryCacheAdapter.RemoveAll | src/cache/implementations/adapters/memory-cache-adapter/memory-cache-adapter.ts:119-123 | both maps are empty, yet every pending timeout stays pending |
| MemoryCache.MemoryCacheAdapter.RemoveByKeyPrefix | src/cache/implementations/adapters/memory-cache-adapter/memory-cache-adapter.ts:125-134 | removes exactly the keys starting with the prefix from both maps, clearing the timeouts timeoutMap named for them |
| MemoryCache.MemoryCacheAdapter.FireTimeout | src/cache/implementations/adapters/memory-cache-adapter/memory-cache-adapter.ts:58-61 | a due timeout deletes its key from both maps, whatever entry the key holds by then |
| MemoryCache.CacheScenario | src/cache/implementations/adapters/memory-cache-adapter/memory-cache-adapter.ts:50-98 | add keeps an existing value, put overwrites, increment adds to a number and rejects text |
| MemoryCache.StaleTimeoutScenario | src/cache/implementations/adapters/memory-cache-adapter/memory-cache-adapter.ts:50-65 | a timeout scheduled before removeAll deletes the key added again afterwards without a ttl |
| MemoryCache.LostCancellationScenario | src/cache/implementations/adapters/memory-cache-adapter/memory-cache-adapter.ts:58-61 | a stale timeout drops the timeoutMap entry of a newer one, so remove cannot clear it and it later deletes a fresh value |
| MemoryRateLimiterStorage.RecordsOf | src/rate-limiter/implementations/adapters/memory-rate-limiter-storage-adapter/memory-rate-limiter-storage-adapter.ts:84-93 | the records find reports: same keys, state and expiration without the timeout |
| TransactionScripts.FindIn | src/circuit-breaker/implementations/adapters/memory-circuit-breaker-storage-adapter/memory-circuit-breaker-storage-adapter.ts:65-67 | nothing iff the key is missing, else the stored value |
| TransactionScripts.ApplyStepsSnoc | src/rate-limiter/implementations/adapters/memory-rate-limiter-storage-adapter/memory-rate-limiter-storage-adapter.ts:55-82 | a transaction with one more step is the shorter transaction followed by that step |
| TransactionScripts.FindSeesEarlierUpserts | src/circuit-breaker/implementations/adapters/memory-circuit-breaker-storage-adapter/memory-circuit-breaker-storage-adapter.ts:53-63 | a find at the end of a transaction reports the map the steps before it built |
| TransactionScripts.UpsertThenFind | src/rate-limiter/implementations/adapters/memory-rate-limiter-storage-adapter/memory-rate-limiter-storage-adapter.ts:62-93 | after upsert(key, value), find(key) reports that value |
| TransactionScripts.OtherKeysUntouched | src/circuit-breaker/implementations/adapters/memory-circuit-breaker-storage-adapter/memory-circuit-breaker-storage-adapter.ts:48-63 | upserts of other keys leave a key's value as it was |
| MemoryRateLimiterStorage.UpsertCount | src/rate-limiter/implementations/adapters/memory-rate-limiter-storage-adapter/memory-rate-limiter-storage-adapter.ts:62-77 | a script schedules at most one timeout per step |
| MemoryRateLimiterStorage.Scheduled | src/rate-limiter/implementations/adapters/memory-rate-limiter-storage-adapter/memory-rate-limiter-storage-adapter.ts:62-77 | the timeouts a script's upserts schedule take consecutive fresh ids, one per upsert |
| MemoryRateLimiterStorage.ScheduledUpsertStep | src/rate-limiter/implementations/adapters/memory-rate-limiter-storage-adapter/memory-rate-limiter-storage-adapter.ts:62-77 | the first upsert's timeout followed by the rest's is the whole script's |
| MemoryRateLimiterStorage.ScheduledFromUpserts | src/rate-limiter/implementations/adapters/memory-rate-limiter-storage-adapter/memory-rate-limiter-storage-adapter.ts:62-77 | every scheduled timeout comes from an upsert step, with that step's key and expiration as its due time |
| MemoryRateLimiterStorage.UpsertsAreScheduled | src/rate-limiter/implementations/adapters/memory-rate-limiter-storage-adapter/memory-rate-limiter-storage-adapter.ts:62-77 | every upsert step schedules a timeout, deleting its key at its expiration |
| MemoryRateLimiterStorage.MemoryRateLimiterStorageAdapter.constructor | src/rate-limiter/implementations/adapters/memory-rate-limiter-storage-adapter/memory-rate-limiter-storage-adapter.ts:42-44 | starts with no record and no pending timeout |
| MemoryRateLimiterStorage.MemoryRateLimiterStorageAdapter.Records | src/rate-limiter/implementations/adapters/memory-rate-limiter-storage-adapter/memory-rate-limiter-storage-adapter.ts:84-93 | the reported records cover exactly the stored keys |
| MemoryRateLimiterStorage.MemoryRateLimiterStorageAdapter.DeInit | src/rate-limiter/implementations/adapters/memory-rate-limiter-storage-adapter/memory-rate-limiter-storage-adapter.ts:46-53 | no record is left; only the records' own timeouts are cleared, and earlier ones stay pending |
| MemoryRateLimiterStorage.MemoryRateLimiterStorageAdapter.Upsert | src/rate-limiter/implementations/adapters/memory-rate-limiter-storage-adapter/memory-rate-limiter-storage-adapter.ts:62-77 | stores the record and schedules a new timeout due at the expiration, cancelling none |
| MemoryRateLimiterStorage.MemoryRateLimiterStorageAdapter.Transaction | src/rate-limiter/implementations/adapters/memory-rate-limiter-storage-adapter/memory-rate-limiter-storage-adapter.ts:55-82 | the steps act in order on the live map: the records become ApplySteps of the old ones, and the finds report FindResults; no pending timeout is lost, and the new ones are exactly Scheduled: one per upsert step, deleting that step's key at that step's expiration; every stored record's own timeout is due at its expiration |
| MemoryRateLimiterStorage.MemoryRateLimiterStorageAdapter.Find | src/rate-limiter/implementations/adapters/memory-rate-limiter-storage-adapter/memory-rate-limiter-storage-adapter.ts:84-93 | null for a missing key, otherwise the stored state and expiration |
| MemoryRateLimiterStorage.MemoryRateLimiterStorageAdapter.Remove | src/rate-limiter/implementations/adapters/memory-rate-limiter-storage-adapter/memory-rate-limiter-storage-adapter.ts:95-103 | deletes the key and clears its own timeout; no-op for a missing key |
| MemoryRateLimiterStorage.MemoryRateLimiterStorageAdapter.FireTimeout | src/rate-limiter/implementations/adapters/memory-rate-limiter-storage-adapter/memory-rate-limiter-storage-adapter.ts:68-70 | a due timeout deletes whatever record its key holds now |
| MemoryRateLimiterStorage.StaleTimeoutScenario | src/rate-limiter/implementations/adapters/memory-rate-limiter-storage-adapter/memory-rate-limiter-storage-adapter.ts:62-77 | the first upsert's timeout deletes the second upsert's record long before its expiration |
| MemoryCircuitBreakerStorage.MemoryCircuitBreakerStorageAdapter.constructor | src/circuit-breaker/implementations/adapters/memory-circuit-breaker-storage-adapter/memory-circuit-breaker-storage-adapter.ts:38 | starts empty |
| MemoryCircuitBreakerStorage.MemoryCircuitBreakerStorageAdapter.DeInit | src/circuit-breaker/implementations/adapters/memory-circuit-breaker-storage-adapter/memory-circuit-breaker-storage-adapter.ts:43-46 | the map is empty |
| MemoryCircuitBreakerStorage.MemoryCircuitBreakerStorageAdapter.Upsert | src/circuit-breaker/implementations/adapters/memory-circuit-breaker-storage-adapter/memory-circuit-breaker-storage-adapter.ts:48-51 | the key maps to the state, nothing else changes |
| MemoryCircuitBreakerStorage.MemoryCircuitBreakerStorageAdapter.Transaction | src/circuit-breaker/implementations/adapters/memory-circuit-breaker-storage-adapter/memory-circuit-breaker-storage-adapter.ts:53-63 | the steps act in order on the live map: it becomes ApplySteps of the old map and the finds report FindResults |
| MemoryCircuitBreakerStorage.MemoryCircuitBreakerStorageAdapter.Find | src/circuit-breaker/implementations/adapters/memory-circuit-breaker-storage-adapter/memory-circuit-breaker-storage-adapter.ts:65-67 | null for a missing key, otherwise the stored state |
| MemoryCircuitBreakerStorage.MemoryCircuitBreakerStorageAdapter.Remove | src/circuit-breaker/implementations/adapters/memory-circuit-breaker-storage-adapter/memory-circuit-breaker-storage-adapter.ts:69-72 | deletes that key only |
| MemoryCircuitBreakerStorage.CircuitBreakerScenario | src/circuit-breaker/implementations/adapters/memory-circuit-breaker-storage-adapter/memory-circuit-breaker-storage-adapter.ts:48-72 | find before and after an upsert in one transaction, then removal of another key and of the key |
| MemoryFileStorage.FlattenAppend | src/file-storage/implementations/adapters/memory-file-storage-adapter/memory-file-storage-adapter.ts:114-117 | the bytes of two streams read one after the other are the first stream's bytes followed by the second's |
| MemoryFileStorage.BufferCopy | src/file-storage/implementations/adapters/memory-file-storage-adapter/memory-file-storage-adapter.ts:216-217 | `Buffer.copy` keeps the target's length, overwrites its first bytes with the source's and keeps the rest; from an empty buffer the target is unchanged |
| MemoryFileStorage.ReadStream | src/file-storage/implementations/adapters/memory-file-storage-adapter/memory-file-storage-adapter.ts:114-117 | collects exactly the chunks' concatenation, in order |
| MemoryFileStorage.MemoryFileStorageAdapter.constructor | src/file-storage/implementations/adapters/memory-file-storage-adapter/memory-file-storage-adapter.ts:45 | starts empty |
| MemoryFileStorage.MemoryFileStorageAdapter.DeInit | src/file-storage/implementations/adapters/memory-file-storage-adapter/memory-file-storage-adapter.ts:47-50 | no file is left |
| MemoryFileStorage.MemoryFileStorageAdapter.Exists | src/file-storage/implementations/adapters/memory-file-storage-adapter/memory-file-storage-adapter.ts:52-54 | true iff the key is stored |
| MemoryFileStorage.MemoryFileStorageAdapter.GetStream | src/file-storage/implementations/adapters/memory-file-storage-adapter/memory-file-storage-adapter.ts:56-66 | null for a missing key; otherwise a stream whose bytes are the stored bytes |
| MemoryFileStorage.MemoryFileStorageAdapter.GetBytes | src/file-storage/implementations/adapters/memory-file-storage-adapter/memory-file-storage-adapter.ts:68-74 | null for a missing key; otherwise the stored bytes |
| MemoryFileStorage.MemoryFileStorageAdapter.GetMetaData | src/file-storage/implementations/adapters/memory-file-storage-adapter/memory-file-storage-adapter.ts:76-88 | null for a missing key; otherwise the stored metadata and a size equal to the stored byte count |
| MemoryFileStorage.MemoryFileStorageAdapter.Add | src/file-storage/implementations/adapters/memory-file-storage-adapter/memory-file-storage-adapter.ts:90-105 | false with no change for an existing key; otherwise stores the bytes with a fresh etag, created now and never updated |
| MemoryFileStorage.MemoryFileStorageAdapter.AddStream | src/file-storage/implementations/adapters/memory-file-storage-adapter/memory-file-storage-adapter.ts:107-128 | as Add, storing the concatenation of the chunks |
| MemoryFileStorage.MemoryFileStorageAdapter.Update | src/file-storage/implementations/adapters/memory-file-storage-adapter/memory-file-storage-adapter.ts:130-146 | reports whether the key exists and, as written, never changes the store |
| MemoryFileStorage.MemoryFileStorageAdapter.UpdateStream | src/file-storage/implementations/adapters/memory-file-storage-adapter/memory-file-storage-adapter.ts:148-170 | reports whether the key exists and, as written, never changes the store |
| MemoryFileStorage.MemoryFileStorageAdapter.UpdateIntended | src/file-storage/implementations/adapters/memory-file-storage-adapter/memory-file-storage-adapter.ts:130-146 | corrected update: an existing file gets the new bytes, etag and content type, keeps its creation date and is marked updated now |
| MemoryFileStorage.MemoryFileStorageAdapter.Put | src/file-storage/implementations/adapters/memory-file-storage-adapter/memory-file-storage-adapter.ts:172-185 | always stores a new file; reports whether the key existed before |
| MemoryFileStorage.MemoryFileStorageAdapter.PutStream | src/file-storage/implementations/adapters/memory-file-storage-adapter/memory-file-storage-adapter.ts:187-206 | as Put, storing the concatenation of the chunks |
| MemoryFileStorage.MemoryFileStorageAdapter.Copy | src/file-storage/implementations/adapters/memory-file-storage-adapter/memory-file-storage-adapter.ts:208-225 | NOT_FOUND for a missing source (tested first), KEY_EXISTS for an existing destination, both without change; otherwise SUCCESS with the destination holding the source's metadata and, as written, no bytes |
| MemoryFileStorage.MemoryFileStorageAdapter.CopyIntended | src/file-storage/implementations/adapters/memory-file-storage-adapter/memory-file-storage-adapter.ts:208-225 | corrected copy: same outcomes, and the destination holds the source file itself |
| MemoryFileStorage.MemoryFileStorageAdapter.CopyAndReplace | src/file-storage/implementations/adapters/memory-file-storage-adapter/memory-file-storage-adapter.ts:227-241 | false iff the source is missing; otherwise overwrites the destination with the source's metadata and no bytes |
| MemoryFileStorage.MemoryFileStorageAdapter.Move | src/file-storage/implementations/adapters/memory-file-storage-adapter/memory-file-storage-adapter.ts:243-261 | the outcomes of Copy, and the source is deleted only on SUCCESS |
| MemoryFileStorage.MemoryFileStorageAdapter.MoveAndReplace | src/file-storage/implementations/adapters/memory-file-storage-adapter/memory-file-storage-adapter.ts:263-278 | false iff the source is missing; otherwise overwrites the destination and deletes the source, so moving a key onto itself deletes it |
| MemoryFileStorage.MemoryFileStorageAdapter.RemoveMany | src/file-storage/implementations/adapters/memory-file-storage-adapter/memory-file-storage-adapter.ts:280-289 | true iff some listed key existed; exactly the listed keys are gone |
| MemoryFileStorage.MemoryFileStorageAdapter.RemoveByPrefix | src/file-storage/implementations/adapters/memory-file-storage-adapter/memory-file-storage-adapter.ts:291-299 | removes exactly the keys starting with the prefix |
| MemoryFileStorage.UpdateIsLostScenario | src/file-storage/implementations/adapters/memory-file-storage-adapter/memory-file-storage-adapter.ts:130-146 | an update that reports success leaves the old bytes in place |
| MemoryFileStorage.CopyLosesBytesScenario | src/file-storage/implementations/adapters/memory-file-storage-adapter/memory-file-storage-adapter.ts:208-225 | a successful copy of three bytes leaves an empty destination of reported size 0 |
| MemoryFileStorage.IntendedScenario | src/file-storage/implementations/adapters/memory-file-storage-adapter/memory-file-storage-adapter.ts:130-225 | with the corrected update and copy, the new bytes are stored and copied |
| JsValues.Coalesce | src/cache/implementations/adapters/memory-cache-adapter/memory-cache-adapter.ts:40 | `??` replaces exactly undefined and null by the fallback |
| JsValues.Lookup | src/context/implementations/context.ts:292 | `Map.get` gives undefined for a missing key, else the stored value |
| ImmutableContext.Elements | src/context/implementations/context.ts:274 | iteration yields a list's items or a string's characters; anything else is a TypeError |
| ImmutableContext.BoundedAdd | src/context/implementations/context.ts:134-138 | the result is `v + nbr` iff no max or below it, else `v`; a value below max stays below it |
| ImmutableContext.BoundedSubtract | src/context/implementations/context.ts:154-158 | the result is `v - nbr` iff no min or above it, else `v`; a value above min stays above it |
| ImmutableContext.Context.Add | src/context/implementations/context.ts:94-100 | a present id keeps its value; a missing one gets the new value; other ids are untouched |
| ImmutableContext.Context.Put | src/context/implementations/context.ts:108-111 | the id then holds the value; other ids are untouched |
| ImmutableContext.Context.PutWith | src/context/implementations/context.ts:102-120 | the setter receives the previous value with undefined turned into null; its failure fails put, its result is stored under the id alone |
| ImmutableContext.Context.PutIncrement | src/context/implementations/context.ts:122-140 | missing, undefined or null gives initialValue; a number is bounded-added; anything else is a TypeError; on success every other id keeps its presence and value, and the id is present |
| ImmutableContext.Context.PutDecrement | src/context/implementations/context.ts:142-160 | the mirror of PutIncrement with a strict lower bound; on success the ids are the old ones plus the id |
| ImmutableContext.Context.PutPush | src/context/implementations/context.ts:162-172 | nothing or null gives exactly the values; a list or a string's characters get them appended; a boolean or number is a TypeError; on success the ids are the old ones plus the id, and other values are kept |
| ImmutableContext.Context.UpdateIncrement | src/context/implementations/context.ts:197-212 | missing or undefined leaves the context unchanged; a number is bounded-added; null or any other non-number is a TypeError; on success the same ids are present, and other values are kept |
| ImmutableContext.Context.UpdateDecrement | src/context/implementations/context.ts:214-229 | the mirror of UpdateIncrement with a strict lower bound; on success the same ids are present |
| ImmutableContext.Context.UpdatePush | src/context/implementations/context.ts:231-238 | missing or undefined leaves the context unchanged; null and non-iterables are a TypeError; a list gets the values appended; on success the same ids are present, and other values are kept |
| ImmutableContext.Context.Update | src/context/implementations/context.ts:180-189 | a missing or undefined id leaves the context as it is; otherwise the id holds the value |
| ImmutableContext.Context.UpdateWith | src/context/implementations/context.ts:174-195 | as PutWith on a present value; a missing or undefined id leaves the context as it is without calling the setter |
| ImmutableContext.Context.Remove | src/context/implementations/context.ts:240-244 | the id is missing afterwards and other ids are untouched |
| ImmutableContext.Context.Exists | src/context/implementations/context.ts:283-285 | true iff the id is stored |
| ImmutableContext.Context.Missing | src/context/implementations/context.ts:287-289 | true iff the id is not stored |
| ImmutableContext.Context.Get | src/context/implementations/context.ts:291-297 | a missing id reads as undefined, not null; a stored value is returned as is |
| ImmutableContext.Context.GetOr | src/context/implementations/context.ts:299-308 | the default only when null is stored; a missing id still gives undefined |
| ImmutableContext.Context.GetOrFail | src/context/implementations/context.ts:310-316 | fails iff null is stored |
| ImmutableContext.Context.Contains | src/context/implementations/context.ts:260-281 | as written: false for null; TypeError for a non-iterable (a missing id included); otherwise true iff some element satisfies a predicate matcher, and never for a plain value |
| ImmutableContext.Context.ContainsIntended | src/context/implementations/context.ts:260-281 | corrected: a plain value matches by equality, so on a list the result is exactly membership; null and non-iterables as in Contains |
| ImmutableContext.Context.Child | src/context/implementations/context.ts:318-320 | the child holds the same entries, undefined-valued ones included, and so reads the same values |
| ImmutableContext.Context.Clear | src/context/implementations/context.ts:322-324 | no id is left |
| ImmutableContext.Context.Serialize | src/context/implementations/context.ts:87-92 | version "1", and deserializing gives the same context back |
| ImmutableContext.Context.When | src/context/implementations/context.ts:246-258 | with a true condition, the steps applied in order (ApplyAll); otherwise an unchanged copy |
| ImmutableContext.Empty | src/context/implementations/context.ts:77-79 | no id is stored |
| ImmutableContext.Deserialize | src/context/implementations/context.ts:55-57 | holds exactly the serialized entries, undefined-valued ones included |
| ImmutableContext.ApplyAllAppend | src/context/implementations/context.ts:254-256 | two batches of `when` steps in a row are one batch |
| ImmutableContext.RepeatedIncrementStaysBelowMax | src/context/implementations/context.ts:122-140 | a counter starting below max stays below max under any number of increments |
| ImmutableContext.PushTwice | src/context/implementations/context.ts:162-172 | pushing two batches is pushing their concatenation |
| ImmutableContext.AddAfterRemove | src/context/implementations/context.ts:94-100 | add keeps an existing value but stores into a removed id |
| ImmutableContext.SerializeRoundTrip | src/context/implementations/context.ts:55-57 | deserialize(serialize(c)) is c |
| ImmutableContext.GetScenario | src/context/implementations/context.ts:291-316 | getOr gives undefined for a missing id and the default for a stored null; getOrFail fails on a stored null |
| ImmutableContext.ContainsScenario | src/context/implementations/context.ts:260-281 | as written a plain value in the list is not found while a predicate is; false on null, failure on a missing id; the corrected contains finds the value |
| FileSizes.FileSize.ToBytes | src/file-size/implementations/file-size.ts:95-97 | fromBytes of the result is the same size |
| FileSizes.FileSize.ToKiloBytes | src/file-size/implementations/file-size.ts:99-101 | the largest whole number of 1000-byte units that fit |
| FileSizes.FileSize.ToMegaBytes | src/file-size/implementations/file-size.ts:103-105 | the largest whole number of 10^6-byte units that fit |
| FileSizes.FileSize.ToGigaBytes | src/file-size/implementations/file-size.ts:107-109 | the largest whole number of 10^9-byte units that fit |
| FileSizes.FileSize.ToTeraBytes | src/file-size/implementations/file-size.ts:111-113 | the largest whole number of 10^12-byte units that fit |
| FileSizes.FileSize.ToPetaBytes | src/file-size/implementations/file-size.ts:115-117 | the largest whole number of 10^15-byte units that fit |
| FileSizes.FileSize.Equals | src/file-size/implementations/file-size.ts:68-70 | true iff the byte counts are equal |
| FileSizes.FileSize.Gt | src/file-size/implementations/file-size.ts:72-74 | true iff the other size has fewer bytes |
| FileSizes.FileSize.Gte | src/file-size/implementations/file-size.ts:76-78 | Gt or Equals, and not Lt |
| FileSizes.FileSize.Lt | src/file-size/implementations/file-size.ts:80-82 | true iff this size has fewer bytes |
| FileSizes.FileSize.Lte | src/file-size/implementations/file-size.ts:84-86 | Lt or Equals, and not Gt |
| FileSizes.FileSize.Serialize | src/file-size/implementations/file-size.ts:88-93 | version "1", and deserializing gives the same size back |
| FileSizes.Deserialize | src/file-size/implementations/file-size.ts:34-36 | the size has the serialized byte count |
| FileSizes.FromBytes | src/file-size/implementations/file-size.ts:38-40 | the size has exactly that byte count |
| FileSizes.FromKiloBytes | src/file-size/implementations/file-size.ts:42-44 | 1000 bytes per kilobyte, and toKiloBytes gives the count back |
| FileSizes.FromMegaBytes | src/file-size/implementations/file-size.ts:46-48 | 10^6 bytes per megabyte; toMegaBytes gives it back and toKiloBytes gives 1000 times it |
| FileSizes.FromGigaBytes | src/file-size/implementations/file-size.ts:50-52 | 10^9 bytes per gigabyte; round trip, and 1000 megabytes each |
| FileSizes.FromTeraBytes | src/file-size/implementations/file-size.ts:54-56 | 10^12 bytes per terabyte; round trip, and 1000 gigabytes each |
| FileSizes.FromPetaBytes | src/file-size/implementations/file-size.ts:58-60 | 10^15 bytes per petabyte; round trip, and 1000 terabytes each |
| FileSizes.FloorDivision | src/file-size/implementations/file-size.ts:99-117 | the rounded-down quotient is the one integer whose multiples bracket the byte count |
| FileSizes.ToKiloBytesMonotonic | src/file-size/implementations/file-size.ts:84-101 | rounding down to kilobytes keeps the order of two sizes |
| FileSizes.Duality | src/file-size/implementations/file-size.ts:68-86 | equals is symmetric, `a.gt(b)` iff `b.lt(a)`, `a.gte(b)` iff `b.lte(a)` |
| FileSizes.Trichotomy | src/file-size/implementations/file-size.ts:68-86 | exactly one of lt, equals, gt holds |
| KeyValidation.IncludesIffOccurs | src/file-storage/implementations/derivables/file-storage/file-storage.ts:41 | `includes` is true iff the substring occurs at some index |
| KeyValidation.TrimStart | src/file-storage/implementations/derivables/file-storage/file-storage.ts:50 | drops exactly the leading white space |
| KeyValidation.TrimEnd | src/file-storage/implementations/derivables/file-storage/file-storage.ts:50 | drops exactly the trailing white space |
| KeyValidation.Trim | src/file-storage/implementations/derivables/file-storage/file-storage.ts:50 | `s` with some white-space prefix and some white-space suffix cut off and nothing else, and the result neither starts nor ends with white space, so exactly the leading and trailing white space goes |
| KeyValidation.TrimEmptyIffAllWhiteSpace | src/file-storage/implementations/derivables/file-storage/file-storage.ts:50-52 | a key trims to "" iff all its characters are white space |
| KeyValidation.SingleCharOccurs | src/file-storage/implementations/derivables/file-storage/file-storage.ts:44-49 | a one-character string is included iff the character is |
| KeyValidation.DefaultKeyValidator | src/file-storage/implementations/derivables/file-storage/file-storage.ts:40-54 | "../" is reported first, then a newline, then a tab, then a blank key; no message iff none of the four applies |
| KeyValidation.ParentDirectoryFirstScenario | src/file-storage/implementations/derivables/file-storage/file-storage.ts:41-43 | a key with "../" and a newline gets the "../" message |
| KeyValidation.NewlineBeforeTabScenario | src/file-storage/implementations/derivables/file-storage/file-storage.ts:44-49 | a newline is reported before a tab, and a tab before blankness |
| KeyValidation.BlankScenario | src/file-storage/implementations/derivables/file-storage/file-storage.ts:50-54 | the empty key and a key of non-breaking spaces are blank; "a/b" is valid |
| ObjectHelpers.DefinedKeys | src/utilities/functions/object.ts:12-16 | exactly the properties whose value is not undefined |
| ObjectHelpers.ObjectSize | src/utilities/functions/object.ts:8-19 | counts exactly the properties that are not undefined |
| ObjectHelpers.IsObjectEmpty | src/utilities/functions/object.ts:24-28 | true iff every property is undefined, i.e. objectSize is 0 |
| ObjectHelpers.RemoveUndefinedProperties | src/utilities/functions/object.ts:33-39 | keeps exactly the defined properties, with their values |
| ObjectHelpers.RemoveUndefinedPropertiesIdempotent | src/utilities/functions/object.ts:33-39 | idempotent, and the result has the same objectSize as the input |

## Left out

- Real timers (`setTimeout`/`clearTimeout`), `new Date()`/`Date.now()` and promises. The clock is an explicit `now`. A timeout callback is an explicit `Fire…Timeout` method that the caller runs once the timeout is due. All calls are sequential, including the two releases inside the shared lock's `forceRelease`.
- Host timer limits: `setTimeout` clamps a negative delay to zero and overflows delays above 2^31-1 ms. Here a timeout is simply due at `now + ttl`.
- JavaScript numbers are floating point. Counters, byte counts and ttl values are modelled as unbounded integers, so fractions, NaN, infinities and rounding are not modelled.
- Dates are plain integer instants.
- The adapters' constructors accept an external `Map`, which callers may share and mutate. The model always starts from an empty map, and aliasing of that map is not modelled.
- `MemoryFileStorage.MemoryFileStorageAdapter.GetBytes` returns the stored bytes. The source returns a view over the buffer's whole underlying `ArrayBuffer`, which for pooled small buffers can be larger than the file. `GetStream` is modelled the same way.
- `etag()` is an uninterpreted function given to the file store. MIME lookup is not part of this model.
- Async streams are finite sequences of byte chunks.
- `MemoryRateLimiterStorage.MemoryRateLimiterStorageAdapter.Transaction`: the callback is a fixed script of upsert and find steps. A callback whose later steps depend on what an earlier find returned, or which computes a result of its own, is not modelled.
- `MemoryCircuitBreakerStorage.MemoryCircuitBreakerStorageAdapter.Transaction`: same limitation as the rate-limiter transaction.
- `MemoryCircuitBreakerStorage.MemoryCircuitBreakerStorageAdapter.Find`: the state type is generic, so a stored state that is `null` or `undefined`, which `?? null` reports as absent, is not modelled; a stored state is always found.
- `Context.token` and the token settings are not modelled. The context itself never reads `defaultValue`, `serializable` or `namespace`. Tokens are represented by their id.
- A `Lazyable` is its resolved value: the condition of `when` is a plain boolean and the default of `getOr` a plain value, so a default computed lazily, and only when it is needed, is not modelled.
- An invokable is a Dafny function value. Invokable objects with an `invoke` method are not modelled.
- A setter that throws is a setter returning a failure.
- `ImmutableContext.Context.ContainsIntended`: a value matcher compares with structural equality. JavaScript `===` compares arrays by reference.
- `ImmutableContext.Elements`: a string is spread into its code points, and `NOT_ITERABLE_MESSAGE` stands for the runtime's own wording.
- The object helpers treat an object as a map from string keys to values. Inherited enumerable properties, which `for…in` visits, and symbol keys are not modelled.
- `KeyValidation.Trim` uses the fixed set of white-space and line-terminator code points from sections 12.2 and 12.3 of ECMA-262. Space separators added in later Unicode versions are not included.
- The cache's value type is the JavaScript value sum type `Value`, not a generic parameter.

## Findings

| source | as written | input that shows it | evidently intended | confidence | as-written member | corrected member |
|---|---|---|---|---|---|---|
| src/file-storage/implementations/adapters/memory-file-storage-adapter/memory-file-storage-adapter.ts:130-170 | `update` and `updateStream` build the new file in a local variable and never store it, yet return true | add "a" with bytes [1, 2], then update "a" with [9]: the result is true and getBytes("a") is still [1, 2] | the new bytes, etag and content type are stored, the creation date is kept and `updatedAt` is set, as the record the method builds at lines 136-144 says | high, not executed | MemoryFileStorage.UpdateIsLostScenario | MemoryFileStorage.MemoryFileStorageAdapter.UpdateIntended |
| src/file-storage/implementations/adapters/memory-file-storage-adapter/memory-file-storage-adapter.ts:216-223 | `copy`, `copyAndReplace`, `move` and `moveAndReplace` call `copy` on an empty buffer, copying nothing, and store that empty buffer under the destination | add "a" with bytes [1, 2, 3], then copy "a" to "b": the result is SUCCESS, getBytes("b") is empty and the reported size is 0 | the destination holds the source's bytes as well as its metadata | high, not executed | MemoryFileStorage.CopyLosesBytesScenario | MemoryFileStorage.MemoryFileStorageAdapter.CopyIntended |
| src/context/implementations/context.ts:270-272 | `contains` replaces a plain matchValue by an arrow function that compares each item with matchValue, which by then names that arrow function itself, so no item ever matches | put "list" as [1, 2], then contains("list", 2): the result is false | an item equal to the plain value is found | high, not executed | ImmutableContext.ContainsScenario | ImmutableContext.Context.ContainsIntended |
