/**
 * Helpers over plain objects (objectSize, isObjectEmpty,
 * removeUndefinedProperties). An object is a map from property name to
 * value; a property holding `undefined` counts as absent for all three.
 */
module ObjectHelpers {
  import opened JsValues

  /** The properties whose value is not `undefined`. */
  function DefinedKeys(obj: map<string, Value>): (r: set<string>)
    ensures r <= obj.Keys
    ensures forall key | key in obj :: key in r <==> obj[key] != Undefined
  {
    set key | key in obj && obj[key] != Undefined
  }

  /** Counts the properties, skipping those that hold `undefined`. */
  method ObjectSize(obj: map<string, Value>) returns (size: nat)
    ensures size == |DefinedKeys(obj)|
    ensures size <= |obj|
  {
    size := 0;
    var pending := obj.Keys;
    ghost var defined := DefinedKeys(obj);
    while pending != {}
      invariant pending <= obj.Keys
      invariant size == |defined - pending|
      decreases pending
    {
      var key :| key in pending;
      ghost var before := defined - pending;
      pending := pending - {key};
      if obj[key] == Undefined {
        assert defined - pending == before;
        continue;
      }
      assert defined - pending == before + {key} && key !in before;
      size := size + 1;
    }
    assert defined - pending == defined;
    SubsetCardinality(defined, obj.Keys);
  }

  lemma SubsetCardinality(small: set<string>, large: set<string>)
    requires small <= large
    ensures |small| <= |large|
  {
    assert large == small + (large - small);
  }

  /** True iff every property is missing or `undefined`. */
  method IsObjectEmpty(obj: map<string, Value>) returns (empty: bool)
    ensures empty <==> forall key | key in obj :: obj[key] == Undefined
    ensures empty <==> |DefinedKeys(obj)| == 0
  {
    var size := ObjectSize(obj);
    empty := size == 0;
    if !empty {
      var key :| key in DefinedKeys(obj);
      assert obj[key] != Undefined;
    }
  }

  /** A copy with exactly the defined properties, their values unchanged. */
  function RemoveUndefinedProperties(obj: map<string, Value>): (r: map<string, Value>)
    ensures r.Keys == DefinedKeys(obj)
    ensures forall key | key in r :: r[key] == obj[key] && r[key] != Undefined
  {
    map key | key in obj && obj[key] != Undefined :: obj[key]
  }

  /** Removing undefined properties twice is removing them once, and it keeps the object's size. */
  lemma RemoveUndefinedPropertiesIdempotent(obj: map<string, Value>)
    ensures RemoveUndefinedProperties(RemoveUndefinedProperties(obj)) == RemoveUndefinedProperties(obj)
    ensures DefinedKeys(RemoveUndefinedProperties(obj)) == DefinedKeys(obj)
    ensures |RemoveUndefinedProperties(obj)| == |DefinedKeys(obj)|
  {
  }
}
