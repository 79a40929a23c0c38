/**
 * The in-memory circuit-breaker storage (MemoryCircuitBreakerStorageAdapter):
 * a plain map from key to state with upsert, find and remove. The
 * `transaction` callback is a script of upsert and find steps (see
 * TransactionScripts) run in order against the same map.
 */
module MemoryCircuitBreakerStorage {
  import opened Wrappers
  import opened TransactionScripts

  class MemoryCircuitBreakerStorageAdapter<T> {
    var store: map<string, T>

    constructor()
      ensures store == map[]
    {
      store := map[];
    }

    method DeInit()
      modifies this
      ensures store == map[]
    {
      store := map[];
    }

    method Upsert(key: string, state: T)
      modifies this
      ensures store == old(store)[key := state]
    {
      store := store[key := state];
    }

    /** Runs the steps in order on this storage and returns what the find steps reported. */
    method Transaction(steps: seq<Step<T>>) returns (found: seq<Option<T>>)
      modifies this
      ensures store == ApplySteps(old(store), steps)
      ensures found == FindResults(old(store), steps)
    {
      found := [];
      var i := 0;
      while i < |steps|
        invariant 0 <= i <= |steps|
        invariant ApplySteps(store, steps[i..]) == ApplySteps(old(store), steps)
        invariant found + FindResults(store, steps[i..]) == FindResults(old(store), steps)
      {
        assert steps[i..][1..] == steps[i + 1..];
        match steps[i] {
          case Upsert(key, state) =>
            Upsert(key, state);
          case Find(key) =>
            var state := Find(key);
            found := found + [state];
        }
        i := i + 1;
      }
    }

    /** The stored state, or nothing for a missing key. */
    function Find(key: string): (r: Option<T>)
      reads this
      ensures r.Some? <==> key in store
      ensures r.Some? ==> r.value == store[key]
    {
      FindIn(store, key)
    }

    /** Deletes that key only; nothing happens for a missing key. */
    method Remove(key: string)
      modifies this
      ensures store == old(store) - {key}
    {
      store := store - {key};
    }
  }

  /** Upsert then find reports the state; remove of another key leaves it; remove of the key drops it. */
  method CircuitBreakerScenario() returns (found: seq<Option<int>>, afterOtherRemove: Option<int>, afterRemove: Option<int>)
    ensures found == [None, Some(3)]
    ensures afterOtherRemove == Some(3) && afterRemove == None
  {
    var storage := new MemoryCircuitBreakerStorageAdapter<int>();
    found := storage.Transaction([Find("k"), Upsert("k", 3), Find("k")]);
    storage.Remove("other");
    afterOtherRemove := storage.Find("k");
    storage.Remove("k");
    afterRemove := storage.Find("k");
  }
}
