/**
 * The in-memory cache (MemoryCacheAdapter): a value map beside a map from
 * key to the id of its expiry timeout (the source's timeoutMap).
 *
 * removeAll empties both maps without cancelling a single timeout, and a
 * timeout's callback deletes its key from both maps whatever they hold by
 * then. So a timeout can outlive the entry it was made for, and the model
 * keeps a registry of pending timeouts, each naming its key and the instant
 * it is due; FireTimeout is the callback.
 */
module MemoryCache {
  import opened Wrappers
  import opened JsValues

  datatype CacheError = TypeError(message: string)

  function NotANumberMessage(key: string): string
  {
    "Unable to increment or decrement none number type key \"" + key + "\""
  }

  /** The keys listed in a removeMany call. */
  function KeySet(keys: seq<string>): set<string>
  {
    set k | k in keys
  }

  /** A pending timeout: the key its callback deletes and when it is due. */
  datatype PendingTimeout = PendingTimeout(key: string, dueAt: int)

  /** The keys of `m` that start with `prefix`. */
  function PrefixKeys<V>(m: map<string, V>, prefix: string): set<string>
  {
    set k | k in m && prefix <= k
  }

  /** The ids of the timeouts `timeoutMap` holds for the given keys. */
  function TimeoutIdsOf(timeoutMap: map<string, nat>, keys: set<string>): (r: set<nat>)
    ensures forall k | k in timeoutMap && k in keys :: timeoutMap[k] in r
  {
    set k | k in timeoutMap && k in keys :: timeoutMap[k]
  }

  /** Dropping one more key's timeout id. */
  lemma TimeoutIdsOfAdd(timeoutMap: map<string, nat>, keys: set<string>, key: string)
    ensures TimeoutIdsOf(timeoutMap, keys + {key}) ==
            TimeoutIdsOf(timeoutMap, keys) + (if key in timeoutMap then {timeoutMap[key]} else {})
  {
    forall id | id in TimeoutIdsOf(timeoutMap, keys + {key})
      ensures id in TimeoutIdsOf(timeoutMap, keys) + (if key in timeoutMap then {timeoutMap[key]} else {})
    {
      var k :| k in timeoutMap && k in keys + {key} && timeoutMap[k] == id;
      if k != key {
        assert k in keys;
      }
    }
  }

  /** What is left of `m` once the keys starting with `prefix` are gone. */
  function WithoutPrefix<V>(m: map<string, V>, prefix: string): (r: map<string, V>)
    ensures r.Keys == set k | k in m && !(prefix <= k)
    ensures forall k | k in r :: r[k] == m[k]
  {
    map k | k in m && !(prefix <= k) :: m[k]
  }

  class MemoryCacheAdapter {
    var store: map<string, Value>
    /** The source's timeoutMap: the id of the timeout last scheduled for a key and not yet dropped. */
    var timeoutMap: map<string, nat>
    /** Every timeout scheduled and neither cleared nor fired yet. */
    var timeouts: map<nat, PendingTimeout>
    var nextTimeoutId: nat

    /**
     * timeoutMap names only stored keys, and only pending timeouts that
     * delete that same key; timeout ids are fresh.
     */
    ghost predicate Valid()
      reads this
    {
      && timeoutMap.Keys <= store.Keys
      && (forall id | id in timeouts :: id < nextTimeoutId)
      && forall k | k in timeoutMap :: timeoutMap[k] in timeouts && timeouts[timeoutMap[k]].key == k
    }

    constructor()
      ensures store == map[] && timeoutMap == map[] && timeouts == map[] && nextTimeoutId == 0
      ensures Valid()
    {
      store, timeoutMap, timeouts, nextTimeoutId := map[], map[], map[], 0;
    }

    /** `map.get(key) ?? null`: a missing key, and a stored `undefined` or `null`, all read as `null`. */
    function Get(key: string): (r: Value)
      reads this
      ensures r != Undefined
      ensures r == Null <==> key !in store || store[key] == Undefined || store[key] == Null
      ensures r != Null ==> r == store[key]
    {
      Coalesce(Lookup(store, key), Null)
    }

    /** Reads the value as Get does, then removes the key. */
    method GetAndRemove(key: string) returns (value: Value)
      requires Valid()
      modifies this
      ensures Valid()
      ensures value == old(Get(key))
      ensures store == old(store) - {key} && timeoutMap == old(timeoutMap) - {key}
      ensures timeouts == old(timeouts) - TimeoutIdsOf(old(timeoutMap), {key})
      ensures nextTimeoutId == old(nextTimeoutId)
    {
      value := Get(key);
      var _ := Remove(key);
    }

    /** Inserts only a missing key; a timeout is scheduled only on insertion with a ttl. */
    method Add(key: string, value: Value, ttl: Option<int>, now: int) returns (added: bool)
      requires Valid()
      modifies this
      ensures Valid()
      ensures added <==> key !in old(store)
      ensures store == if added then old(store)[key := value] else old(store)
      ensures added && ttl.Some? ==>
                && timeoutMap == old(timeoutMap)[key := old(nextTimeoutId)]
                && timeouts == old(timeouts)[old(nextTimeoutId) := PendingTimeout(key, now + ttl.value)]
                && nextTimeoutId == old(nextTimeoutId) + 1
      ensures !(added && ttl.Some?) ==>
                timeoutMap == old(timeoutMap) && timeouts == old(timeouts) && nextTimeoutId == old(nextTimeoutId)
    {
      var hasNotKey := key !in store;
      if hasNotKey {
        store := store[key := value];
      }
      if hasNotKey && ttl.Some? {
        var timeoutId := nextTimeoutId;
        timeouts := timeouts[timeoutId := PendingTimeout(key, now + ttl.value)];
        nextTimeoutId := nextTimeoutId + 1;
        timeoutMap := timeoutMap[key := timeoutId];
      }
      return hasNotKey;
    }

    /** Remove, then Add: the key maps to the new value; reports whether it existed before. */
    method Put(key: string, value: Value, ttl: Option<int>, now: int) returns (existed: bool)
      requires Valid()
      modifies this
      ensures Valid()
      ensures existed <==> key in old(store)
      ensures store == old(store)[key := value]
      ensures ttl.Some? ==>
                && timeoutMap == old(timeoutMap)[key := old(nextTimeoutId)]
                && timeouts == (old(timeouts) - TimeoutIdsOf(old(timeoutMap), {key}))
                               [old(nextTimeoutId) := PendingTimeout(key, now + ttl.value)]
                && nextTimeoutId == old(nextTimeoutId) + 1
      ensures ttl.None? ==>
                && timeoutMap == old(timeoutMap) - {key}
                && timeouts == old(timeouts) - TimeoutIdsOf(old(timeoutMap), {key})
                && nextTimeoutId == old(nextTimeoutId)
    {
      existed := Remove(key);
      var _ := Add(key, value, ttl, now);
    }

    /** Overwrites a present key only; never inserts; timeouts are untouched. */
    method Update(key: string, value: Value) returns (updated: bool)
      requires Valid()
      modifies this
      ensures Valid()
      ensures updated <==> key in old(store)
      ensures store == if updated then old(store)[key := value] else old(store)
      ensures timeoutMap == old(timeoutMap) && timeouts == old(timeouts) && nextTimeoutId == old(nextTimeoutId)
    {
      updated := key in store;
      if updated {
        store := store[key := value];
      }
    }

    /**
     * Adds `delta` to a stored number. A missing key, or a stored `undefined`,
     * gives false and no change; any other non-number fails with a TypeError.
     */
    method Increment(key: string, delta: int) returns (r: Result<bool, CacheError>)
      requires Valid()
      modifies this
      ensures Valid()
      ensures timeoutMap == old(timeoutMap) && timeouts == old(timeouts) && nextTimeoutId == old(nextTimeoutId)
      ensures Lookup(old(store), key) == Undefined ==> r == Success(false) && store == old(store)
      ensures Lookup(old(store), key) != Undefined && !Lookup(old(store), key).IsNumber() ==>
                r == Failure(TypeError(NotANumberMessage(key))) && store == old(store)
      ensures Lookup(old(store), key).IsNumber() ==>
                r == Success(true) && store == old(store)[key := Number(old(store)[key].n + delta)]
    {
      var prevValue := Lookup(store, key);
      var hasKey := prevValue != Undefined;
      if hasKey {
        if !prevValue.IsNumber() {
          return Failure(TypeError(NotANumberMessage(key)));
        }
        store := store[key := Number(prevValue.n + delta)];
      }
      return Success(hasKey);
    }

    /** Clears the timeout timeoutMap names for the key and deletes the key; reports whether it was present. */
    method Remove(key: string) returns (removed: bool)
      requires Valid()
      modifies this
      ensures Valid()
      ensures removed <==> key in old(store)
      ensures store == old(store) - {key} && timeoutMap == old(timeoutMap) - {key}
      ensures timeouts == old(timeouts) - TimeoutIdsOf(old(timeoutMap), {key})
      ensures nextTimeoutId == old(nextTimeoutId)
    {
      assert TimeoutIdsOf(timeoutMap, {key}) == if key in timeoutMap then {timeoutMap[key]} else {};
      if key in timeoutMap {
        timeouts := timeouts - {timeoutMap[key]};
      }
      timeoutMap := timeoutMap - {key};
      removed := key in store;
      store := store - {key};
    }

    /** Deletes every listed key; true iff at least one of them was present. */
    method RemoveMany(keys: seq<string>) returns (removed: bool)
      requires Valid()
      modifies this
      ensures Valid()
      ensures removed <==> exists i | 0 <= i < |keys| :: keys[i] in old(store)
      ensures store == old(store) - KeySet(keys) && timeoutMap == old(timeoutMap) - KeySet(keys)
      ensures timeouts == old(timeouts) - TimeoutIdsOf(old(timeoutMap), KeySet(keys))
      ensures nextTimeoutId == old(nextTimeoutId)
    {
      var deleteCount := 0;
      var i := 0;
      while i < |keys|
        invariant 0 <= i <= |keys| && Valid()
        invariant store == old(store) - KeySet(keys[..i])
        invariant timeoutMap == old(timeoutMap) - KeySet(keys[..i])
        invariant timeouts == old(timeouts) - TimeoutIdsOf(old(timeoutMap), KeySet(keys[..i]))
        invariant nextTimeoutId == old(nextTimeoutId)
        invariant deleteCount > 0 <==> exists j | 0 <= j < i :: keys[j] in old(store)
      {
        var key := keys[i];
        assert KeySet(keys[..i + 1]) == KeySet(keys[..i]) + {key} by {
          assert keys[..i + 1] == keys[..i] + [key];
        }
        TimeoutIdsOfAdd(old(timeoutMap), KeySet(keys[..i]), key);
        var hasDeleted := Remove(key);
        if hasDeleted {
          deleteCount := deleteCount + 1;
        } else if key in old(store) {
          // an earlier duplicate of this key already counted it
          assert exists j | 0 <= j < i :: keys[j] == key;
        }
        i := i + 1;
      }
      assert keys[..i] == keys;
      removed := deleteCount > 0;
    }

    /** Empties both maps without clearing a single timeout: every pending timeout stays pending. */
    method RemoveAll()
      requires Valid()
      modifies this
      ensures Valid()
      ensures store == map[] && timeoutMap == map[]
      ensures timeouts == old(timeouts) && nextTimeoutId == old(nextTimeoutId)
    {
      store := map[];
      timeoutMap := map[];
    }

    /** Deletes exactly the keys that start with `prefix`, clearing the timeouts timeoutMap names for them. */
    method RemoveByKeyPrefix(prefix: string)
      requires Valid()
      modifies this
      ensures Valid()
      ensures store == WithoutPrefix(old(store), prefix)
      ensures timeoutMap == WithoutPrefix(old(timeoutMap), prefix)
      ensures timeouts == old(timeouts) - TimeoutIdsOf(old(timeoutMap), PrefixKeys(old(store), prefix))
      ensures nextTimeoutId == old(nextTimeoutId)
    {
      var pending := store.Keys;
      ghost var done: set<string> := {};
      while pending != {}
        invariant pending <= old(store).Keys && Valid()
        invariant done == PrefixKeys(old(store), prefix) - pending
        invariant store == old(store) - done
        invariant timeoutMap == old(timeoutMap) - done
        invariant timeouts == old(timeouts) - TimeoutIdsOf(old(timeoutMap), done)
        invariant nextTimeoutId == old(nextTimeoutId)
        decreases pending
      {
        var key :| key in pending;
        if prefix <= key {
          TimeoutIdsOfAdd(old(timeoutMap), done, key);
          var _ := Remove(key);
          done := done + {key};
        }
        pending := pending - {key};
      }
    }

    /** The timeout callback: once due, it deletes its key from both maps, whatever they hold by then. */
    method FireTimeout(timeoutId: nat, now: int)
      requires Valid()
      modifies this
      ensures Valid()
      ensures nextTimeoutId == old(nextTimeoutId)
      ensures timeoutId in old(timeouts) && old(timeouts)[timeoutId].dueAt <= now ==>
                && store == old(store) - {old(timeouts)[timeoutId].key}
                && timeoutMap == old(timeoutMap) - {old(timeouts)[timeoutId].key}
                && timeouts == old(timeouts) - {timeoutId}
      ensures !(timeoutId in old(timeouts) && old(timeouts)[timeoutId].dueAt <= now) ==>
                store == old(store) && timeoutMap == old(timeoutMap) && timeouts == old(timeouts)
    {
      if timeoutId in timeouts && timeouts[timeoutId].dueAt <= now {
        var key := timeouts[timeoutId].key;
        store := store - {key};
        timeoutMap := timeoutMap - {key};
        timeouts := timeouts - {timeoutId};
      }
    }
  }

  /** add keeps an existing value, put overwrites it, increment adds to a number and rejects text. */
  method CacheScenario(now: int)
    returns (added: bool, addedAgain: bool, afterAdd: Value, existed: bool, afterPut: Value,
             incremented: Result<bool, CacheError>, afterIncrement: Value, onText: Result<bool, CacheError>)
    ensures added && !addedAgain && afterAdd == Number(1)
    ensures existed && afterPut == Number(5)
    ensures incremented == Success(true) && afterIncrement == Number(7)
    ensures onText.Failure?
  {
    var cache := new MemoryCacheAdapter();
    added := cache.Add("a", Number(1), None, now);
    addedAgain := cache.Add("a", Number(2), None, now);
    afterAdd := cache.Get("a");
    existed := cache.Put("a", Number(5), Some(10), now);
    afterPut := cache.Get("a");
    incremented := cache.Increment("a", 2);
    afterIncrement := cache.Get("a");
    var _ := cache.Put("b", Text("x"), None, now);
    onText := cache.Increment("b", 1);
  }

  /**
   * A timeout scheduled before removeAll still fires afterwards and deletes
   * the key that was added again without a ttl.
   */
  method StaleTimeoutScenario() returns (beforeTimeout: Value, afterTimeout: Value)
    ensures beforeTimeout == Number(2)
    ensures afterTimeout == Null
  {
    var cache := new MemoryCacheAdapter();
    var _ := cache.Add("k", Number(1), Some(10), 0);
    cache.RemoveAll();
    var _ := cache.Add("k", Number(2), None, 1);
    beforeTimeout := cache.Get("k");
    cache.FireTimeout(0, 10);
    afterTimeout := cache.Get("k");
  }

  /**
   * A stale timeout also drops the timeoutMap entry of a newer timeout, which
   * remove then cannot clear: the newer timeout later deletes a value added
   * after that remove.
   */
  method LostCancellationScenario() returns (pendingAfterRemove: bool, beforeTimeout: Value, afterTimeout: Value)
    ensures pendingAfterRemove
    ensures beforeTimeout == Number(4)
    ensures afterTimeout == Null
  {
    var cache := new MemoryCacheAdapter();
    var _ := cache.Add("k", Number(1), Some(10), 0);
    cache.RemoveAll();
    var _ := cache.Add("k", Number(2), Some(100), 1);
    cache.FireTimeout(0, 10);
    var _ := cache.Add("k", Number(3), None, 20);
    var _ := cache.Remove("k");
    pendingAfterRemove := 1 in cache.timeouts;
    var _ := cache.Add("k", Number(4), None, 30);
    beforeTimeout := cache.Get("k");
    cache.FireTimeout(1, 101);
    afterTimeout := cache.Get("k");
  }
}
