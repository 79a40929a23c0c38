/**
 * The in-memory reader/writer lock (MemorySharedLockAdapter).
 *
 * A table maps each key either to a writer lock (an owner and an optional
 * expiry) or to a reader semaphore (a limit and a map of slots, each with an
 * optional expiry). Time is an explicit `now` parameter; a time-to-live `ttl`
 * ends at `now + ttl`. A pending timeout is recorded inside the record it
 * protects as the instant it is due (`timeoutAt`), so cancelling a timeout is
 * removing or replacing that record, and the timeout callbacks are the methods
 * FireWriterTimeout and FireSlotTimeout.
 */
module MemorySharedLock {
  import opened Wrappers

  /** The pending timeout of an expiring writer lock and the expiration date recorded for it. */
  datatype WriterExpiry = WriterExpiry(timeoutAt: int, expiration: int)

  /** `hasExpiration` is `expiry.Some?`. */
  datatype WriterLockData = WriterLockData(owner: string, expiry: Option<WriterExpiry>)

  /** One reader slot: its pending timeout (if any) and its recorded expiration (if any). */
  datatype SlotData = SlotData(timeoutAt: Option<int>, expiration: Option<int>)

  datatype ReaderSemaphoreData = ReaderSemaphoreData(limit: int, slots: map<string, SlotData>)

  /** A table entry; the two fields are nullable in the source, hence two options. */
  datatype SharedLockData = SharedLockData(
    writerLock: Option<WriterLockData>,
    readerSemaphore: Option<ReaderSemaphoreData>)

  /** What getState reports. */
  datatype WriterState = WriterState(owner: string, expiration: Option<int>)
  datatype ReaderState = ReaderState(limit: int, acquiredSlots: map<string, Option<int>>)
  datatype SharedLockState = SharedLockState(writer: Option<WriterState>, reader: Option<ReaderState>)

  datatype UnexpectedError = UnexpectedError(message: string)

  const INVALID_STATE_MESSAGE: string :=
    "Invalid ISharedLockAdapterState, expected either the reader field must be defined or the writer field must be defined, but not both."

  /** `this.map.get(key)?.writerLock ?? null`. */
  function WriterOf(table: map<string, SharedLockData>, key: string): Option<WriterLockData>
  {
    if key in table then table[key].writerLock else None
  }

  /** `this.map.get(key)?.readerSemaphore ?? null`. */
  function ReaderOf(table: map<string, SharedLockData>, key: string): Option<ReaderSemaphoreData>
  {
    if key in table then table[key].readerSemaphore else None
  }

  function WriterEntry(lock: WriterLockData): SharedLockData
  {
    SharedLockData(Some(lock), None)
  }

  function ReaderEntry(semaphore: ReaderSemaphoreData): SharedLockData
  {
    SharedLockData(None, Some(semaphore))
  }

  /** The expiry of a newly acquired writer lock: none without a ttl, else due and expiring at `now + ttl`. */
  function NewWriterExpiry(ttl: Option<int>, now: int): (e: Option<WriterExpiry>)
    ensures e.Some? <==> ttl.Some?
    ensures ttl.Some? ==> e.value.timeoutAt == now + ttl.value && e.value.expiration == now + ttl.value
  {
    match ttl
    case None => None
    case Some(t) => Some(WriterExpiry(now + t, now + t))
  }

  /** A newly inserted reader slot: never expiring without a ttl, else due and expiring at `now + ttl`. */
  function NewSlot(ttl: Option<int>, now: int): (s: SlotData)
    ensures s.timeoutAt.Some? <==> ttl.Some?
    ensures s.expiration.Some? <==> ttl.Some?
    ensures ttl.Some? ==> s.timeoutAt.value == now + ttl.value && s.expiration.value == now + ttl.value
  {
    match ttl
    case None => SlotData(None, None)
    case Some(t) => SlotData(Some(now + t), Some(now + t))
  }

  /** The semaphore acquireReader works on: the existing one, or a new empty one with the caller's limit. */
  function SemaphoreFor(table: map<string, SharedLockData>, key: string, limit: int): ReaderSemaphoreData
  {
    match ReaderOf(table, key)
    case Some(semaphore) => semaphore
    case None => ReaderSemaphoreData(limit, map[])
  }

  /** The slot count never exceeds the limit, except that an empty semaphore may have a limit below one. */
  predicate ValidSemaphore(semaphore: ReaderSemaphoreData)
  {
    && (|semaphore.slots| == 0 || |semaphore.slots| <= semaphore.limit)
    && forall id | id in semaphore.slots ::
         semaphore.slots[id].timeoutAt.Some? == semaphore.slots[id].expiration.Some?
  }

  /** Mutual exclusion: every entry holds exactly one of a writer lock and a reader semaphore. */
  predicate ValidEntry(entry: SharedLockData)
  {
    && entry.writerLock.Some? != entry.readerSemaphore.Some?
    && (entry.readerSemaphore.Some? ==> ValidSemaphore(entry.readerSemaphore.value))
  }

  predicate ValidTable(table: map<string, SharedLockData>)
  {
    forall key | key in table :: ValidEntry(table[key])
  }

  /** The key is held at `now`: an unexpired writer lock, or a semaphore with at least one slot. */
  predicate IsHeld(table: map<string, SharedLockData>, key: string, now: int)
  {
    || (WriterOf(table, key).Some? &&
        (WriterOf(table, key).value.expiry.None? || now < WriterOf(table, key).value.expiry.value.expiration))
    || (ReaderOf(table, key).Some? && |ReaderOf(table, key).value.slots| > 0)
  }

  class MemorySharedLockAdapter {
    var table: map<string, SharedLockData>

    ghost predicate Valid()
      reads this
    {
      ValidTable(table)
    }

    constructor()
      ensures table == map[] && Valid()
    {
      table := map[];
    }

    /** Cancels every pending timeout and removes every entry, one key at a time. */
    method DeInit()
      modifies this
      ensures table == map[] && Valid()
    {
      while table != map[]
        decreases |table|
      {
        var key :| key in table;
        table := table - {key};
      }
    }

    method AcquireWriter(key: string, lockId: string, ttl: Option<int>, now: int) returns (acquired: bool)
      requires Valid()
      modifies this
      ensures Valid()
      ensures ReaderOf(old(table), key).Some? ==> !acquired && table == old(table)
      ensures ReaderOf(old(table), key).None? && WriterOf(old(table), key).Some? ==>
                acquired == (WriterOf(old(table), key).value.owner == lockId) && table == old(table)
      ensures ReaderOf(old(table), key).None? && WriterOf(old(table), key).None? ==>
                acquired && table == old(table)[key := WriterEntry(WriterLockData(lockId, NewWriterExpiry(ttl, now)))]
    {
      if ReaderOf(table, key).Some? {
        return false;
      }
      var writerLock := WriterOf(table, key);
      if writerLock.Some? {
        return writerLock.value.owner == lockId;
      }
      table := table[key := WriterEntry(WriterLockData(lockId, NewWriterExpiry(ttl, now)))];
      return true;
    }

    method ReleaseWriter(key: string, lockId: string) returns (released: bool)
      requires Valid()
      modifies this
      ensures Valid()
      ensures released <==>
                ReaderOf(old(table), key).None? && WriterOf(old(table), key).Some? &&
                WriterOf(old(table), key).value.owner == lockId
      ensures released ==> table == old(table) - {key}
      ensures !released ==> table == old(table)
    {
      if ReaderOf(table, key).Some? {
        return false;
      }
      var writerLock := WriterOf(table, key);
      if writerLock.None? || writerLock.value.owner != lockId {
        return false;
      }
      table := table - {key};
      return true;
    }

    /** Like ReleaseWriter, but whoever the owner is. */
    method ForceReleaseWriter(key: string) returns (released: bool)
      requires Valid()
      modifies this
      ensures Valid()
      ensures released <==> ReaderOf(old(table), key).None? && WriterOf(old(table), key).Some?
      ensures released ==> table == old(table) - {key}
      ensures !released ==> table == old(table)
    {
      if ReaderOf(table, key).Some? {
        return false;
      }
      if WriterOf(table, key).None? {
        return false;
      }
      table := table - {key};
      return true;
    }

    /**
     * Replaces the pending timeout of an expiring writer lock by one due at
     * `now + ttl`; the owner and the recorded expiration are kept as they were.
     */
    method RefreshWriter(key: string, lockId: string, ttl: int, now: int) returns (refreshed: bool)
      requires Valid()
      modifies this
      ensures Valid()
      ensures refreshed <==>
                ReaderOf(old(table), key).None? && WriterOf(old(table), key).Some? &&
                WriterOf(old(table), key).value.owner == lockId &&
                WriterOf(old(table), key).value.expiry.Some?
      ensures refreshed ==>
                var old_ := WriterOf(old(table), key).value;
                table == old(table)[key := WriterEntry(old_.(expiry := Some(old_.expiry.value.(timeoutAt := now + ttl))))]
      ensures !refreshed ==> table == old(table)
    {
      if ReaderOf(table, key).Some? {
        return false;
      }
      var writerLock := WriterOf(table, key);
      if writerLock.None? || writerLock.value.owner != lockId || writerLock.value.expiry.None? {
        return false;
      }
      var expiry := writerLock.value.expiry.value;
      table := table[key := WriterEntry(writerLock.value.(expiry := Some(expiry.(timeoutAt := now + ttl))))];
      return true;
    }

    /**
     * The capacity test comes before the membership test, and a semaphore
     * created here stays in the table even when the call then fails.
     */
    method AcquireReader(key: string, lockId: string, limit: int, ttl: Option<int>, now: int) returns (acquired: bool)
      requires Valid()
      modifies this
      ensures Valid()
      ensures WriterOf(old(table), key).Some? ==> !acquired && table == old(table)
      ensures WriterOf(old(table), key).None? ==>
                var semaphore := SemaphoreFor(old(table), key, limit);
                if |semaphore.slots| >= semaphore.limit then
                  !acquired && table == old(table)[key := ReaderEntry(semaphore)]
                else if lockId in semaphore.slots then
                  acquired && table == old(table)[key := ReaderEntry(semaphore)]
                else
                  acquired &&
                  table == old(table)[key := ReaderEntry(semaphore.(slots := semaphore.slots[lockId := NewSlot(ttl, now)]))]
    {
      if WriterOf(table, key).Some? {
        return false;
      }
      var readerSemaphore := ReaderOf(table, key);
      var semaphore: ReaderSemaphoreData;
      if readerSemaphore.None? {
        semaphore := ReaderSemaphoreData(limit, map[]);
        table := table[key := ReaderEntry(semaphore)];
      } else {
        semaphore := readerSemaphore.value;
      }
      if |semaphore.slots| >= semaphore.limit {
        return false;
      }
      if lockId in semaphore.slots {
        return true;
      }
      semaphore := semaphore.(slots := semaphore.slots[lockId := NewSlot(ttl, now)]);
      table := table[key := ReaderEntry(semaphore)];
      return true;
    }

    /** Removes the caller's slot; the entry goes when no slot is left. */
    method ReleaseReader(key: string, lockId: string) returns (released: bool)
      requires Valid()
      modifies this
      ensures Valid()
      ensures released <==>
                WriterOf(old(table), key).None? && ReaderOf(old(table), key).Some? &&
                lockId in ReaderOf(old(table), key).value.slots
      ensures !released ==> table == old(table)
      ensures released ==>
                var semaphore := ReaderOf(old(table), key).value;
                var rest := semaphore.slots - {lockId};
                if |rest| == 0 then table == old(table) - {key}
                else table == old(table)[key := ReaderEntry(semaphore.(slots := rest))]
    {
      if WriterOf(table, key).Some? {
        return false;
      }
      var readerSemaphore := ReaderOf(table, key);
      if readerSemaphore.None? || lockId !in readerSemaphore.value.slots {
        return false;
      }
      var semaphore := readerSemaphore.value.(slots := readerSemaphore.value.slots - {lockId});
      table := table[key := ReaderEntry(semaphore)];
      if |semaphore.slots| == 0 {
        table := table - {key};
      }
      return true;
    }

    /** Cancels and drops every slot and the entry; reports whether there was a slot. */
    method ForceReleaseAllReaders(key: string) returns (released: bool)
      requires Valid()
      modifies this
      ensures Valid()
      ensures released <==>
                WriterOf(old(table), key).None? && ReaderOf(old(table), key).Some? &&
                |ReaderOf(old(table), key).value.slots| > 0
      ensures WriterOf(old(table), key).None? && ReaderOf(old(table), key).Some? ==> table == old(table) - {key}
      ensures !(WriterOf(old(table), key).None? && ReaderOf(old(table), key).Some?) ==> table == old(table)
    {
      if WriterOf(table, key).Some? {
        return false;
      }
      var readerSemaphore := ReaderOf(table, key);
      if readerSemaphore.None? {
        return false;
      }
      released := |readerSemaphore.value.slots| > 0;
      // Each slot's pending timeout lives in the slot itself, so deleting the
      // entry clears them all; the source clears them one by one first.
      table := table - {key};
    }

    /** Replaces the pending timeout and the expiration of the caller's expiring slot by `now + ttl`. */
    method RefreshReader(key: string, lockId: string, ttl: int, now: int) returns (refreshed: bool)
      requires Valid()
      modifies this
      ensures Valid()
      ensures refreshed <==>
                WriterOf(old(table), key).None? && ReaderOf(old(table), key).Some? &&
                lockId in ReaderOf(old(table), key).value.slots &&
                ReaderOf(old(table), key).value.slots[lockId].timeoutAt.Some?
      ensures refreshed ==>
                var semaphore := ReaderOf(old(table), key).value;
                table == old(table)[key := ReaderEntry(semaphore.(slots := semaphore.slots[lockId := SlotData(Some(now + ttl), Some(now + ttl))]))]
      ensures !refreshed ==> table == old(table)
    {
      if WriterOf(table, key).Some? {
        return false;
      }
      var readerSemaphore := ReaderOf(table, key);
      if readerSemaphore.None? || lockId !in readerSemaphore.value.slots {
        return false;
      }
      if readerSemaphore.value.slots[lockId].timeoutAt.None? {
        return false;
      }
      var semaphore := readerSemaphore.value;
      semaphore := semaphore.(slots := semaphore.slots[lockId := SlotData(Some(now + ttl), Some(now + ttl))]);
      table := table[key := ReaderEntry(semaphore)];
      return true;
    }

    /**
     * Runs the reader release and then the writer release. By the exclusion
     * invariant at most one of them succeeds, and the key is free afterwards.
     */
    method ForceRelease(key: string) returns (released: bool)
      requires Valid()
      modifies this
      ensures Valid()
      ensures released <==>
                WriterOf(old(table), key).Some? ||
                (ReaderOf(old(table), key).Some? && |ReaderOf(old(table), key).value.slots| > 0)
      ensures table == old(table) - {key}
    {
      var releasedReaders := ForceReleaseAllReaders(key);
      var releasedWriter := ForceReleaseWriter(key);
      assert !(releasedReaders && releasedWriter);
      released := releasedReaders || releasedWriter;
    }

    /** The writer lock's timeout callback, which deletes the entry once the timeout is due. */
    method FireWriterTimeout(key: string, now: int)
      requires Valid()
      modifies this
      ensures Valid()
      ensures WriterOf(old(table), key).Some? && WriterOf(old(table), key).value.expiry.Some? &&
              WriterOf(old(table), key).value.expiry.value.timeoutAt <= now ==>
                table == old(table) - {key}
      ensures !(WriterOf(old(table), key).Some? && WriterOf(old(table), key).value.expiry.Some? &&
                WriterOf(old(table), key).value.expiry.value.timeoutAt <= now) ==>
                table == old(table)
    {
      var writerLock := WriterOf(table, key);
      if writerLock.Some? && writerLock.value.expiry.Some? && writerLock.value.expiry.value.timeoutAt <= now {
        table := table - {key};
      }
    }

    /**
     * A reader slot's timeout callback: it deletes that slot only, so a
     * semaphore left without slots stays in the table.
     */
    method FireSlotTimeout(key: string, lockId: string, now: int)
      requires Valid()
      modifies this
      ensures Valid()
      ensures ReaderOf(old(table), key).Some? && lockId in ReaderOf(old(table), key).value.slots &&
              ReaderOf(old(table), key).value.slots[lockId].timeoutAt.Some? &&
              ReaderOf(old(table), key).value.slots[lockId].timeoutAt.value <= now ==>
                var semaphore := ReaderOf(old(table), key).value;
                table == old(table)[key := ReaderEntry(semaphore.(slots := semaphore.slots - {lockId}))]
      ensures !(ReaderOf(old(table), key).Some? && lockId in ReaderOf(old(table), key).value.slots &&
                ReaderOf(old(table), key).value.slots[lockId].timeoutAt.Some? &&
                ReaderOf(old(table), key).value.slots[lockId].timeoutAt.value <= now) ==>
                table == old(table)
    {
      var readerSemaphore := ReaderOf(table, key);
      if readerSemaphore.Some? && lockId in readerSemaphore.value.slots {
        var slot := readerSemaphore.value.slots[lockId];
        if slot.timeoutAt.Some? && slot.timeoutAt.value <= now {
          var semaphore := readerSemaphore.value;
          table := table[key := ReaderEntry(semaphore.(slots := semaphore.slots - {lockId}))];
        }
      }
    }

    /**
     * The self-healing read: nothing for a missing key, an empty semaphore or
     * an expired writer lock; slot expirations are reported but never
     * consulted. Fails only on an entry with neither or both halves.
     */
    function GetState(key: string, now: int): (r: Result<Option<SharedLockState>, UnexpectedError>)
      reads this
      ensures Valid() ==> r.Success?
      ensures r.Failure? <==> key in table && table[key].writerLock.Some? == table[key].readerSemaphore.Some?
      ensures Valid() ==> (r.value.Some? <==> IsHeld(table, key, now))
      ensures r.Success? && r.value.Some? ==> r.value.value.writer.Some? != r.value.value.reader.Some?
      ensures r.Success? && r.value.Some? && r.value.value.writer.Some? ==>
                WriterOf(table, key).Some? &&
                var lock := WriterOf(table, key).value;
                && r.value.value.writer.value.owner == lock.owner
                && (lock.expiry.None? ==> r.value.value.writer.value.expiration.None?)
                && (lock.expiry.Some? ==> r.value.value.writer.value.expiration == Some(lock.expiry.value.expiration) &&
                                          now < lock.expiry.value.expiration)
      ensures r.Success? && r.value.Some? && r.value.value.reader.Some? ==>
                ReaderOf(table, key).Some? &&
                var semaphore := ReaderOf(table, key).value;
                && r.value.value.reader.value.limit == semaphore.limit
                && r.value.value.reader.value.acquiredSlots.Keys == semaphore.slots.Keys
                && |semaphore.slots| > 0
                && forall id | id in semaphore.slots ::
                     r.value.value.reader.value.acquiredSlots[id] == semaphore.slots[id].expiration
    {
      if key !in table then Success(None)
      else
        var writerLock, readerSemaphore := table[key].writerLock, table[key].readerSemaphore;
        if writerLock.None? && readerSemaphore.Some? && |readerSemaphore.value.slots| == 0 then
          Success(None)
        else if writerLock.None? && readerSemaphore.Some? then
          var semaphore := readerSemaphore.value;
          var acquiredSlots := map id | id in semaphore.slots :: semaphore.slots[id].expiration;
          Success(Some(SharedLockState(None, Some(ReaderState(semaphore.limit, acquiredSlots)))))
        else if readerSemaphore.None? && writerLock.Some? && writerLock.value.expiry.None? then
          Success(Some(SharedLockState(Some(WriterState(writerLock.value.owner, None)), None)))
        else if readerSemaphore.None? && writerLock.Some? && writerLock.value.expiry.value.expiration <= now then
          Success(None)
        else if readerSemaphore.None? && writerLock.Some? then
          var expiration := writerLock.value.expiry.value.expiration;
          Success(Some(SharedLockState(Some(WriterState(writerLock.value.owner, Some(expiration))), None)))
        else
          Failure(UnexpectedError(INVALID_STATE_MESSAGE))
    }
  }

  /** A writer lock is re-entrant for its owner and contended for anyone else. */
  method WriterReentrancyScenario(key: string, ttl: Option<int>, now: int) returns (first: bool, again: bool, other: bool)
    ensures first && again && !other
  {
    var adapter := new MemorySharedLockAdapter();
    first := adapter.AcquireWriter(key, "A", ttl, now);
    again := adapter.AcquireWriter(key, "A", ttl, now);
    other := adapter.AcquireWriter(key, "B", ttl, now);
  }

  /** With limit 2 a third reader is refused until one of the first two leaves. */
  method ReaderCapacityScenario(key: string, now: int)
    returns (a: bool, b: bool, c: bool, releaseA: bool, cAgain: bool)
    ensures a && b && !c && releaseA && cAgain
  {
    var adapter := new MemorySharedLockAdapter();
    a := adapter.AcquireReader(key, "A", 2, None, now);
    b := adapter.AcquireReader(key, "B", 2, None, now);
    c := adapter.AcquireReader(key, "C", 2, None, now);
    releaseA := adapter.ReleaseReader(key, "A");
    cAgain := adapter.AcquireReader(key, "C", 2, None, now);
  }

  /** Because capacity is tested first, a holder of a slot in a full semaphore is refused. */
  method FullSemaphoreRefusesHolderScenario(key: string, now: int) returns (first: bool, again: bool)
    ensures first && !again
  {
    var adapter := new MemorySharedLockAdapter();
    first := adapter.AcquireReader(key, "A", 1, None, now);
    again := adapter.AcquireReader(key, "A", 1, None, now);
  }

  /** The limit is fixed by the first reader; later callers' limits are ignored. */
  method LimitFixedAtCreationScenario(key: string, now: int) returns (a: bool, b: bool)
    ensures a && !b
  {
    var adapter := new MemorySharedLockAdapter();
    a := adapter.AcquireReader(key, "A", 1, None, now);
    b := adapter.AcquireReader(key, "B", 5, None, now);
  }

  /** Readers keep writers out and writers keep readers out. */
  method CrossModeExclusionScenario(key: string, now: int)
    returns (reader: bool, writerBlocked: bool, writer: bool, readerBlocked: bool)
    ensures reader && !writerBlocked && writer && !readerBlocked
  {
    var readers := new MemorySharedLockAdapter();
    reader := readers.AcquireReader(key, "A", 1, None, now);
    writerBlocked := readers.AcquireWriter(key, "B", None, now);
    var writers := new MemorySharedLockAdapter();
    writer := writers.AcquireWriter(key, "B", None, now);
    readerBlocked := writers.AcquireReader(key, "A", 1, None, now);
  }

  /**
   * An expired writer lock reads as free at once, but acquireWriter does not
   * look at expirations: another owner gets the key only after the timeout
   * callback has run.
   */
  method WriterExpirationScenario(key: string, now: int)
    returns (acquired: bool, state: Result<Option<SharedLockState>, UnexpectedError>, beforeTimeout: bool, afterTimeout: bool)
    ensures acquired && state == Success(None) && !beforeTimeout && afterTimeout
  {
    var adapter := new MemorySharedLockAdapter();
    acquired := adapter.AcquireWriter(key, "A", Some(10), now);
    state := adapter.GetState(key, now + 15);
    beforeTimeout := adapter.AcquireWriter(key, "B", None, now + 15);
    adapter.FireWriterTimeout(key, now + 15);
    afterTimeout := adapter.AcquireWriter(key, "B", None, now + 15);
  }

  /** A lock acquired without a ttl cannot be refreshed. */
  method RefreshRejectsNonExpiringScenario(key: string, ttl: int, now: int) returns (acquired: bool, refreshed: bool)
    ensures acquired && !refreshed
  {
    var adapter := new MemorySharedLockAdapter();
    acquired := adapter.AcquireWriter(key, "A", None, now);
    refreshed := adapter.RefreshWriter(key, "A", ttl, now);
  }

  /** Refreshing keeps the recorded expiration: getState still reports the first one. */
  method RefreshKeepsExpirationScenario(key: string, now: int)
    returns (refreshed: bool, state: Result<Option<SharedLockState>, UnexpectedError>)
    ensures refreshed && state == Success(Some(SharedLockState(Some(WriterState("A", Some(now + 10))), None)))
  {
    var adapter := new MemorySharedLockAdapter();
    var _ := adapter.AcquireWriter(key, "A", Some(10), now);
    refreshed := adapter.RefreshWriter(key, "A", 100, now + 5);
    state := adapter.GetState(key, now + 5);
  }

  /** Releasing the only reader removes the entry, so a writer can then take the key. */
  method ReleaseCleanupScenario(key: string, now: int)
    returns (released: bool, state: Result<Option<SharedLockState>, UnexpectedError>, writer: bool)
    ensures released && state == Success(None) && writer
  {
    var adapter := new MemorySharedLockAdapter();
    var _ := adapter.AcquireReader(key, "A", 1, None, now);
    released := adapter.ReleaseReader(key, "A");
    state := adapter.GetState(key, now);
    writer := adapter.AcquireWriter(key, "B", None, now);
  }

  /**
   * An expired reader slot's timeout leaves an empty semaphore behind: getState
   * reports nothing, yet a writer is still refused.
   */
  method ExpiredSlotLeavesSemaphoreScenario(key: string, now: int)
    returns (reader: bool, state: Result<Option<SharedLockState>, UnexpectedError>, writer: bool)
    ensures reader && state == Success(None) && !writer
  {
    var adapter := new MemorySharedLockAdapter();
    reader := adapter.AcquireReader(key, "A", 1, Some(10), now);
    adapter.FireSlotTimeout(key, "A", now + 10);
    state := adapter.GetState(key, now + 10);
    writer := adapter.AcquireWriter(key, "B", None, now + 10);
  }

  /** forceRelease is false on a free key and true on a held one, which is then free. */
  method ForceReleaseScenario(key: string, now: int)
    returns (onFree: bool, onWriter: bool, onReader: bool, state: Result<Option<SharedLockState>, UnexpectedError>)
    ensures !onFree && onWriter && onReader && state == Success(None)
  {
    var adapter := new MemorySharedLockAdapter();
    onFree := adapter.ForceRelease(key);
    var _ := adapter.AcquireWriter(key, "A", None, now);
    onWriter := adapter.ForceRelease(key);
    var _ := adapter.AcquireReader(key, "B", 3, None, now);
    onReader := adapter.ForceRelease(key);
    state := adapter.GetState(key, now);
  }

  /** A refused first reader (limit below one) still leaves its empty semaphore, which keeps writers out. */
  method ZeroLimitLeavesSemaphoreScenario(key: string, now: int) returns (reader: bool, writer: bool)
    ensures !reader && !writer
  {
    var adapter := new MemorySharedLockAdapter();
    reader := adapter.AcquireReader(key, "A", 0, None, now);
    writer := adapter.AcquireWriter(key, "B", None, now);
  }
}
