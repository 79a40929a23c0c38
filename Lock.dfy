/**
 * The in-memory exclusive lock (MemoryLockAdapter): the single-mode version of
 * the writer half of the shared lock. Time is an explicit `now`; a pending
 * timeout is recorded in the lock as the instant it is due, and its callback
 * is the method FireTimeout.
 */
module MemoryLock {
  import opened Wrappers

  /** The pending timeout of an expiring lock and the expiration date recorded for it. */
  datatype LockExpiry = LockExpiry(timeoutAt: int, expiration: int)

  /** `hasExpiration` is `expiry.Some?`. */
  datatype LockData = LockData(owner: string, expiry: Option<LockExpiry>)

  /** What getState reports; `expiration` is `null` for a lock that never expires. */
  datatype LockState = LockState(owner: string, expiration: Option<int>)

  class MemoryLockAdapter {
    var table: map<string, LockData>

    constructor()
      ensures table == map[]
    {
      table := map[];
    }

    /** Cancels every pending timeout and removes every lock, one key at a time. */
    method DeInit()
      modifies this
      ensures table == map[]
    {
      while table != map[]
        decreases |table|
      {
        var key :| key in table;
        table := table - {key};
      }
    }

    /** Re-entrant for the owner; on a free key records `lockId` and, with a ttl, expiry `now + ttl`. */
    method Acquire(key: string, lockId: string, ttl: Option<int>, now: int) returns (acquired: bool)
      modifies this
      ensures key in old(table) ==> acquired == (old(table)[key].owner == lockId) && table == old(table)
      ensures key !in old(table) ==>
                && acquired
                && table == old(table)[key := LockData(lockId, if ttl.None? then None else Some(LockExpiry(now + ttl.value, now + ttl.value)))]
    {
      if key in table {
        return table[key].owner == lockId;
      }
      match ttl {
        case None =>
          table := table[key := LockData(lockId, None)];
        case Some(t) =>
          table := table[key := LockData(lockId, Some(LockExpiry(now + t, now + t)))];
      }
      return true;
    }

    method Release(key: string, lockId: string) returns (released: bool)
      modifies this
      ensures released <==> key in old(table) && old(table)[key].owner == lockId
      ensures released ==> table == old(table) - {key}
      ensures !released ==> table == old(table)
    {
      if key !in table {
        return false;
      }
      if table[key].owner != lockId {
        return false;
      }
      table := table - {key};
      return true;
    }

    method ForceRelease(key: string) returns (released: bool)
      modifies this
      ensures released <==> key in old(table)
      ensures table == old(table) - {key}
    {
      if key !in table {
        return false;
      }
      table := table - {key};
      return true;
    }

    /** Replaces only the pending timeout (now due at `now + ttl`); owner and recorded expiration are kept. */
    method Refresh(key: string, lockId: string, ttl: int, now: int) returns (refreshed: bool)
      modifies this
      ensures refreshed <==> key in old(table) && old(table)[key].owner == lockId && old(table)[key].expiry.Some?
      ensures refreshed ==>
                var lock := old(table)[key];
                table == old(table)[key := lock.(expiry := Some(lock.expiry.value.(timeoutAt := now + ttl)))]
      ensures !refreshed ==> table == old(table)
    {
      if key !in table {
        return false;
      }
      var lock := table[key];
      if lock.owner != lockId {
        return false;
      }
      if lock.expiry.None? {
        return false;
      }
      table := table[key := lock.(expiry := Some(lock.expiry.value.(timeoutAt := now + ttl)))];
      return true;
    }

    /** The timeout callback: deletes the lock once its timeout is due. */
    method FireTimeout(key: string, now: int)
      modifies this
      ensures key in old(table) && old(table)[key].expiry.Some? && old(table)[key].expiry.value.timeoutAt <= now ==>
                table == old(table) - {key}
      ensures !(key in old(table) && old(table)[key].expiry.Some? && old(table)[key].expiry.value.timeoutAt <= now) ==>
                table == old(table)
    {
      if key in table && table[key].expiry.Some? && table[key].expiry.value.timeoutAt <= now {
        table := table - {key};
      }
    }

    /** Nothing for a missing or expired lock; otherwise the owner and the recorded expiration. */
    function GetState(key: string, now: int): (r: Option<LockState>)
      reads this
      ensures r.Some? <==>
                key in table && (table[key].expiry.None? || now < table[key].expiry.value.expiration)
      ensures r.Some? ==> r.value.owner == table[key].owner
      ensures r.Some? ==>
                r.value.expiration == (if table[key].expiry.None? then None else Some(table[key].expiry.value.expiration))
    {
      if key !in table then None
      else
        var lock := table[key];
        match lock.expiry
        case None => Some(LockState(lock.owner, None))
        case Some(expiry) =>
          if expiry.expiration <= now then None
          else Some(LockState(lock.owner, Some(expiry.expiration)))
    }
  }

  /** Re-entrant for the owner, contended for another caller, free again after release. */
  method LockScenario(key: string, now: int)
    returns (first: bool, again: bool, other: bool, wrongRelease: bool, release: bool, afterRelease: bool)
    ensures first && again && !other && !wrongRelease && release && afterRelease
  {
    var adapter := new MemoryLockAdapter();
    first := adapter.Acquire(key, "A", None, now);
    again := adapter.Acquire(key, "A", None, now);
    other := adapter.Acquire(key, "B", None, now);
    wrongRelease := adapter.Release(key, "B");
    release := adapter.Release(key, "A");
    afterRelease := adapter.Acquire(key, "B", None, now);
  }

  /**
   * A refreshed lock keeps reporting its first expiration and reads as free
   * from then on, although its timeout is not yet due.
   */
  method RefreshScenario(key: string, now: int)
    returns (refreshed: bool, early: Option<LockState>, late: Option<LockState>, contended: bool)
    ensures refreshed
    ensures early == Some(LockState("A", Some(now + 10)))
    ensures late == None && !contended
  {
    var adapter := new MemoryLockAdapter();
    var _ := adapter.Acquire(key, "A", Some(10), now);
    refreshed := adapter.Refresh(key, "A", 100, now + 5);
    early := adapter.GetState(key, now + 5);
    late := adapter.GetState(key, now + 20);
    adapter.FireTimeout(key, now + 20);
    contended := adapter.Acquire(key, "B", None, now + 20);
  }
}
