/**
 * Storage transactions as scripts. The rate-limiter and circuit-breaker
 * storages both hand their `transaction` callback an object with `upsert`
 * and `find`, which act at once on the live map. A callback is modelled as a
 * script of upsert and find steps run in order; the functions here say what
 * a script does to a map and what its finds report.
 */
module TransactionScripts {
  import opened Wrappers

  datatype Step<V> = Upsert(key: string, value: V) | Find(key: string)

  /** What find reports for a key: the stored value, or nothing. */
  function FindIn<V>(m: map<string, V>, key: string): (r: Option<V>)
    ensures r.Some? <==> key in m
    ensures r.Some? ==> r.value == m[key]
  {
    if key in m then Some(m[key]) else None
  }

  /** The map after one step. */
  function ApplyStep<V>(m: map<string, V>, step: Step<V>): map<string, V>
  {
    match step
    case Upsert(key, value) => m[key := value]
    case Find(_) => m
  }

  /** The map after a whole script. */
  function ApplySteps<V>(m: map<string, V>, steps: seq<Step<V>>): map<string, V>
    decreases |steps|
  {
    if steps == [] then m else ApplySteps(ApplyStep(m, steps[0]), steps[1..])
  }

  /** What the find steps of a script report, in order. */
  function FindResults<V>(m: map<string, V>, steps: seq<Step<V>>): seq<Option<V>>
    decreases |steps|
  {
    if steps == [] then []
    else
      (if steps[0].Find? then [FindIn(m, steps[0].key)] else [])
      + FindResults(ApplyStep(m, steps[0]), steps[1..])
  }

  /** Running a script and then one more step is running the longer script. */
  lemma {:induction false} ApplyStepsSnoc<V>(m: map<string, V>, steps: seq<Step<V>>, step: Step<V>)
    ensures ApplySteps(m, steps + [step]) == ApplyStep(ApplySteps(m, steps), step)
    decreases |steps|
  {
    if steps != [] {
      assert (steps + [step])[1..] == steps[1..] + [step];
      ApplyStepsSnoc(ApplyStep(m, steps[0]), steps[1..], step);
    }
  }

  /** A find at the end of a script reports the map the steps before it built. */
  lemma {:induction false} FindSeesEarlierUpserts<V>(m: map<string, V>, steps: seq<Step<V>>, key: string)
    ensures FindResults(m, steps + [Find(key)]) == FindResults(m, steps) + [FindIn(ApplySteps(m, steps), key)]
    decreases |steps|
  {
    if steps == [] {
      assert FindResults(m, [Find(key)]) == [FindIn(m, key)] + FindResults(m, []);
    } else {
      assert (steps + [Find(key)])[1..] == steps[1..] + [Find(key)];
      FindSeesEarlierUpserts(ApplyStep(m, steps[0]), steps[1..], key);
    }
  }

  /** After upsert(key, value), find(key) reports that value. */
  lemma UpsertThenFind<V>(m: map<string, V>, key: string, value: V)
    ensures FindResults(m, [Upsert(key, value), Find(key)]) == [Some(value)]
  {
    FindSeesEarlierUpserts(m, [Upsert(key, value)], key);
  }

  /** Upserts of other keys do not change what a key maps to after the script. */
  lemma {:induction false} OtherKeysUntouched<V>(m: map<string, V>, steps: seq<Step<V>>, key: string)
    requires forall i | 0 <= i < |steps| :: steps[i].Upsert? ==> steps[i].key != key
    ensures FindIn(ApplySteps(m, steps), key) == FindIn(m, key)
    decreases |steps|
  {
    if steps != [] {
      assert forall i | 0 <= i < |steps[1..]| :: steps[1..][i] == steps[i + 1];
      OtherKeysUntouched(ApplyStep(m, steps[0]), steps[1..], key);
    }
  }
}
