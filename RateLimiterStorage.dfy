/**
 * The in-memory rate-limiter storage (MemoryRateLimiterStorageAdapter).
 *
 * Every upsert schedules a deletion timeout and none cancels the one an
 * earlier upsert of the same key scheduled, so timeouts outlive the record
 * they were made for. The model therefore keeps an explicit registry of
 * pending timeouts, each naming the key it deletes and the instant it is
 * due; FireTimeout is the callback. The `transaction` callback is a script
 * of upsert and find steps (see TransactionScripts) run in order.
 */
module MemoryRateLimiterStorage {
  import opened Wrappers
  import opened TransactionScripts

  /** A stored record: the state, its expiration and the id of the timeout scheduled with it. */
  datatype RateLimiterData<T> = RateLimiterData(state: T, expiration: int, timeoutId: nat)

  /** What find reports. */
  datatype RateLimiterRecord<T> = RateLimiterRecord(state: T, expiration: int)

  /** A pending timeout: the key its callback deletes and when it is due. */
  datatype PendingTimeout = PendingTimeout(key: string, dueAt: int)

  /** The records find would report, without the timeout ids. */
  function RecordsOf<T>(store: map<string, RateLimiterData<T>>): (r: map<string, RateLimiterRecord<T>>)
    ensures r.Keys == store.Keys
    ensures forall k | k in r :: r[k] == RateLimiterRecord(store[k].state, store[k].expiration)
  {
    map k | k in store :: RateLimiterRecord(store[k].state, store[k].expiration)
  }

  /** The ids of the timeouts the stored records were scheduled with. */
  function TimeoutIds<T>(store: map<string, RateLimiterData<T>>): (r: set<nat>)
    ensures forall k | k in store :: store[k].timeoutId in r
  {
    set k | k in store :: store[k].timeoutId
  }

  lemma TimeoutIdsRemove<T>(store: map<string, RateLimiterData<T>>, key: string)
    requires key in store
    ensures TimeoutIds(store) == TimeoutIds(store - {key}) + {store[key].timeoutId}
  {
    forall id | id in TimeoutIds(store)
      ensures id in TimeoutIds(store - {key}) + {store[key].timeoutId}
    {
      var k :| k in store && store[k].timeoutId == id;
      if k != key {
        assert k in store - {key};
      }
    }
  }

  /** How many upsert steps a script has: each schedules one timeout. */
  function UpsertCount<V>(steps: seq<Step<V>>): (r: nat)
    ensures r <= |steps|
    decreases |steps|
  {
    if steps == [] then 0 else (if steps[0].Upsert? then 1 else 0) + UpsertCount(steps[1..])
  }

  /**
   * The timeouts a script's upserts schedule when ids are handed out from
   * `firstId`: one per upsert, in order, deleting the upserted key once the
   * upserted expiration is reached.
   */
  function Scheduled<T>(steps: seq<Step<RateLimiterRecord<T>>>, firstId: nat): (r: map<nat, PendingTimeout>)
    ensures forall id | id in r :: firstId <= id < firstId + UpsertCount(steps)
    decreases |steps|
  {
    if steps == [] then map[]
    else
      match steps[0]
      case Upsert(key, record) => Scheduled(steps[1..], firstId + 1)[firstId := PendingTimeout(key, record.expiration)]
      case Find(_) => Scheduled(steps[1..], firstId)
  }

  /** Scheduling the first upsert's timeout and then the rest is scheduling the whole script. */
  lemma ScheduledUpsertStep<T>(timeouts: map<nat, PendingTimeout>, steps: seq<Step<RateLimiterRecord<T>>>, id: nat)
    requires steps != [] && steps[0].Upsert?
    ensures timeouts[id := PendingTimeout(steps[0].key, steps[0].value.expiration)] + Scheduled(steps[1..], id + 1)
            == timeouts + Scheduled(steps, id)
  {
    assert id !in Scheduled(steps[1..], id + 1);
  }

  /** Every scheduled timeout comes from an upsert step of the script, with that step's key and expiration. */
  lemma {:induction false} ScheduledFromUpserts<T>(steps: seq<Step<RateLimiterRecord<T>>>, firstId: nat, id: nat)
    requires id in Scheduled(steps, firstId)
    ensures exists j | 0 <= j < |steps| ::
              && steps[j].Upsert?
              && steps[j].key == Scheduled(steps, firstId)[id].key
              && steps[j].value.expiration == Scheduled(steps, firstId)[id].dueAt
    decreases |steps|
  {
    var t := Scheduled(steps, firstId)[id];
    if steps[0].Upsert? && id == firstId {
      assert steps[0].key == t.key;
    } else {
      var firstRest := if steps[0].Upsert? then firstId + 1 else firstId;
      ScheduledFromUpserts(steps[1..], firstRest, id);
      var j :| 0 <= j < |steps[1..]| && steps[1..][j].Upsert? && steps[1..][j].key == t.key
               && steps[1..][j].value.expiration == t.dueAt;
      assert steps[j + 1] == steps[1..][j];
    }
  }

  /** Every upsert step schedules a timeout: the one numbered by the upserts before it. */
  lemma {:induction false} UpsertsAreScheduled<T>(steps: seq<Step<RateLimiterRecord<T>>>, firstId: nat, j: nat)
    requires j < |steps| && steps[j].Upsert?
    ensures firstId + UpsertCount(steps[..j]) in Scheduled(steps, firstId)
    ensures Scheduled(steps, firstId)[firstId + UpsertCount(steps[..j])]
              == PendingTimeout(steps[j].key, steps[j].value.expiration)
    decreases |steps|
  {
    if j == 0 {
      assert steps[..0] == [];
    } else {
      var firstRest := if steps[0].Upsert? then firstId + 1 else firstId;
      assert steps[1..][j - 1] == steps[j];
      UpsertsAreScheduled(steps[1..], firstRest, j - 1);
      assert steps[..j][1..] == steps[1..][..j - 1];
      assert firstId + UpsertCount(steps[..j]) == firstRest + UpsertCount(steps[1..][..j - 1]);
    }
  }

  class MemoryRateLimiterStorageAdapter<T> {
    var store: map<string, RateLimiterData<T>>
    var timeouts: map<nat, PendingTimeout>
    var nextTimeoutId: nat

    /**
     * Timeout ids are fresh, and every record's own timeout is pending,
     * deletes that record's key and falls due at the record's expiration.
     */
    ghost predicate Valid()
      reads this
    {
      && (forall id | id in timeouts :: id < nextTimeoutId)
      && forall k | k in store ::
           && store[k].timeoutId in timeouts
           && timeouts[store[k].timeoutId] == PendingTimeout(k, store[k].expiration)
    }

    constructor()
      ensures store == map[] && timeouts == map[] && nextTimeoutId == 0 && Valid()
    {
      store, timeouts, nextTimeoutId := map[], map[], 0;
    }

    /** The records find reports. */
    function Records(): (r: map<string, RateLimiterRecord<T>>)
      reads this
      ensures r.Keys == store.Keys
    {
      RecordsOf(store)
    }

    /** Clears each record's own timeout and deletes the record; timeouts left by earlier upserts stay pending. */
    method DeInit()
      requires Valid()
      modifies this
      ensures Valid()
      ensures store == map[]
      ensures timeouts.Keys == old(timeouts).Keys - TimeoutIds(old(store))
      ensures forall id | id in timeouts :: timeouts[id] == old(timeouts)[id]
    {
      ghost var cleared: set<nat> := {};
      while store != map[]
        invariant Valid()
        invariant TimeoutIds(old(store)) == cleared + TimeoutIds(store)
        invariant timeouts.Keys == old(timeouts).Keys - cleared
        invariant forall id | id in timeouts :: timeouts[id] == old(timeouts)[id]
        decreases store.Keys
      {
        var key :| key in store;
        TimeoutIdsRemove(store, key);
        cleared := cleared + {store[key].timeoutId};
        Remove(key);
      }
      store := map[];
    }

    /** The transaction's upsert: stores the record and schedules its deletion at `expiration`. */
    method Upsert(key: string, state: T, expiration: int, now: int)
      requires Valid()
      modifies this
      ensures Valid()
      ensures store == old(store)[key := RateLimiterData(state, expiration, old(nextTimeoutId))]
      ensures timeouts == old(timeouts)[old(nextTimeoutId) := PendingTimeout(key, expiration)]
      ensures nextTimeoutId == old(nextTimeoutId) + 1
    {
      var ttl := expiration - now;
      var timeoutId := nextTimeoutId;
      timeouts := timeouts[timeoutId := PendingTimeout(key, now + ttl)];
      nextTimeoutId := nextTimeoutId + 1;
      store := store[key := RateLimiterData(state, expiration, timeoutId)];
    }

    /** Runs the steps in order on this storage and returns what the find steps reported. */
    method Transaction(steps: seq<Step<RateLimiterRecord<T>>>, now: int) returns (found: seq<Option<RateLimiterRecord<T>>>)
      requires Valid()
      modifies this
      ensures Valid()
      ensures Records() == ApplySteps(old(Records()), steps)
      ensures found == FindResults(old(Records()), steps)
      ensures forall id | id in old(timeouts) :: id in timeouts && timeouts[id] == old(timeouts)[id]
      ensures timeouts == old(timeouts) + Scheduled(steps, old(nextTimeoutId))
      ensures nextTimeoutId == old(nextTimeoutId) + UpsertCount(steps)
      ensures forall id | id in timeouts && id !in old(timeouts) ::
                exists j | 0 <= j < |steps| ::
                  && steps[j].Upsert?
                  && steps[j].key == timeouts[id].key
                  && steps[j].value.expiration == timeouts[id].dueAt
    {
      found := [];
      var i := 0;
      while i < |steps|
        invariant 0 <= i <= |steps| && Valid()
        invariant ApplySteps(Records(), steps[i..]) == ApplySteps(old(Records()), steps)
        invariant found + FindResults(Records(), steps[i..]) == FindResults(old(Records()), steps)
        invariant old(nextTimeoutId) <= nextTimeoutId
        invariant timeouts + Scheduled(steps[i..], nextTimeoutId) == old(timeouts) + Scheduled(steps, old(nextTimeoutId))
        invariant nextTimeoutId + UpsertCount(steps[i..]) == old(nextTimeoutId) + UpsertCount(steps)
      {
        ghost var before := Records();
        assert steps[i..][1..] == steps[i + 1..];
        match steps[i] {
          case Upsert(key, record) =>
            ScheduledUpsertStep(timeouts, steps[i..], nextTimeoutId);
            Upsert(key, record.state, record.expiration, now);
            assert Records() == ApplyStep(before, steps[i]);
          case Find(key) =>
            var record := Find(key);
            found := found + [record];
        }
        i := i + 1;
      }
      assert steps[|steps|..] == [];
      assert timeouts + Scheduled(steps[|steps|..], nextTimeoutId) == timeouts;
      assert forall id | id in Scheduled(steps, old(nextTimeoutId)) :: id !in old(timeouts);
      forall id | id in timeouts && id !in old(timeouts)
        ensures exists j | 0 <= j < |steps| ::
                  && steps[j].Upsert?
                  && steps[j].key == timeouts[id].key
                  && steps[j].value.expiration == timeouts[id].dueAt
      {
        ScheduledFromUpserts(steps, old(nextTimeoutId), id);
      }
    }

    /** The stored state and expiration, or nothing for a missing key. */
    function Find(key: string): (r: Option<RateLimiterRecord<T>>)
      reads this
      ensures r.Some? <==> key in store
      ensures r.Some? ==> r.value.state == store[key].state && r.value.expiration == store[key].expiration
    {
      FindIn(Records(), key)
    }

    /** Clears the record's own timeout and deletes it; nothing happens for a missing key. */
    method Remove(key: string)
      requires Valid()
      modifies this
      ensures Valid()
      ensures store == old(store) - {key}
      ensures key in old(store) ==> timeouts == old(timeouts) - {old(store)[key].timeoutId}
      ensures key !in old(store) ==> timeouts == old(timeouts)
    {
      if key !in store {
        return;
      }
      timeouts := timeouts - {store[key].timeoutId};
      store := store - {key};
    }

    /** A timeout callback: once due, it deletes whatever record its key now holds. */
    method FireTimeout(timeoutId: nat, now: int)
      requires Valid()
      modifies this
      ensures Valid()
      ensures timeoutId in old(timeouts) && old(timeouts)[timeoutId].dueAt <= now ==>
                store == old(store) - {old(timeouts)[timeoutId].key} && timeouts == old(timeouts) - {timeoutId}
      ensures !(timeoutId in old(timeouts) && old(timeouts)[timeoutId].dueAt <= now) ==>
                store == old(store) && timeouts == old(timeouts)
    {
      if timeoutId in timeouts && timeouts[timeoutId].dueAt <= now {
        store := store - {timeouts[timeoutId].key};
        timeouts := timeouts - {timeoutId};
      }
    }
  }

  /**
   * Upserting a key again leaves the first timeout pending; when it fires it
   * deletes the second record long before that record's own expiration.
   */
  method StaleTimeoutScenario(now: int)
    returns (afterUpsert: Option<RateLimiterRecord<int>>, afterStaleTimeout: Option<RateLimiterRecord<int>>)
    ensures afterUpsert == Some(RateLimiterRecord(2, now + 100))
    ensures afterStaleTimeout == None
  {
    var storage := new MemoryRateLimiterStorageAdapter<int>();
    storage.Upsert("k", 1, now + 10, now);
    storage.Upsert("k", 2, now + 100, now);
    afterUpsert := storage.Find("k");
    storage.FireTimeout(0, now + 10);
    afterStaleTimeout := storage.Find("k");
  }
}
