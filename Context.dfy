/**
 * The immutable context (Context): a map from token id to value. Every
 * operation copies the map and changes only the copy, so a Context is a
 * value here and each operation a function returning a new one; the
 * receiver can never observe a change.
 *
 * Callbacks the source accepts (the setter of put and update, the matcher of
 * contains, the steps of when) are function values. A setter that throws is
 * a setter returning a Failure.
 */
module ImmutableContext {
  import opened Wrappers
  import opened JsValues

  /** The `TypeError` thrown by the numeric setters, and the `Error` of getOrFail. */
  const MESSAGE: string := "!!__MESSAGE__!!"

  /** What the runtime throws on spreading or iterating a value that is not iterable. */
  const NOT_ITERABLE_MESSAGE: string := "value is not iterable"

  datatype ContextError = TypeError(message: string) | Error(message: string)

  /** The serialized form: a version tag and the entries as a plain record. */
  datatype SerializedContext = SerializedContext(version: string, data: map<string, Value>)

  /** A matcher of contains: a plain value, or a predicate. */
  datatype Matcher = Equals(target: Value) | Satisfies(test: Value -> bool)

  /**
   * How contains tests an item, as written: a plain value is replaced by an
   * arrow function that compares the item with the variable it was just
   * assigned to, that is with the arrow function itself. No stored value is
   * that function, so a plain value never matches.
   */
  predicate Matches(matcher: Matcher, item: Value)
  {
    match matcher
    case Equals(_) => false
    case Satisfies(test) => test(item)
  }

  /** How contains evidently means to test an item: a plain value by `===`, a predicate by calling it. */
  predicate IntendedMatches(matcher: Matcher, item: Value)
  {
    match matcher
    case Equals(target) => item == target
    case Satisfies(test) => test(item)
  }

  /**
   * The elements `for...of` and the spread operator produce: the items of an
   * array, the characters of a string; anything else is not iterable.
   */
  function Elements(v: Value): (r: Result<seq<Value>, ContextError>)
    ensures v.List? ==> r == Success(v.items)
    ensures v.Text? ==> r.Success? && |r.value| == |v.s| &&
                        forall i | 0 <= i < |v.s| :: r.value[i] == Text([v.s[i]])
    ensures !v.List? && !v.Text? ==> r == Failure(TypeError(NOT_ITERABLE_MESSAGE))
  {
    match v
    case List(items) => Success(items)
    case Text(s) => Success(seq(|s|, i requires 0 <= i < |s| => Text([s[i]])))
    case _ => Failure(TypeError(NOT_ITERABLE_MESSAGE))
  }

  /** `value + nbr`, kept only while strictly below `max`; otherwise the value is unchanged. */
  function BoundedAdd(value: int, nbr: int, max: Option<int>): (r: int)
    ensures r == value + nbr || r == value
    ensures r == value + nbr <==> (max.None? || value + nbr < max.value || nbr == 0)
    ensures max.Some? && value < max.value ==> r < max.value
  {
    var newValue := value + nbr;
    if max.None? || newValue < max.value then newValue else value
  }

  /** `value - nbr`, kept only while strictly above `min`; otherwise the value is unchanged. */
  function BoundedSubtract(value: int, nbr: int, min: Option<int>): (r: int)
    ensures r == value - nbr || r == value
    ensures r == value - nbr <==> (min.None? || value - nbr > min.value || nbr == 0)
    ensures min.Some? && value > min.value ==> r > min.value
  {
    var newValue := value - nbr;
    if min.None? || newValue > min.value then newValue else value
  }

  /** What putIncrement stores: null starts at `initialValue`, a number is bounded-added, anything else throws. */
  function PutIncrementValue(nbr: int, max: Option<int>, initialValue: int, value: Value): Result<Value, ContextError>
  {
    if value == Null then Success(Number(initialValue))
    else if !value.IsNumber() then Failure(TypeError(MESSAGE))
    else Success(Number(BoundedAdd(value.n, nbr, max)))
  }

  function PutDecrementValue(nbr: int, min: Option<int>, initialValue: int, value: Value): Result<Value, ContextError>
  {
    if value == Null then Success(Number(initialValue))
    else if !value.IsNumber() then Failure(TypeError(MESSAGE))
    else Success(Number(BoundedSubtract(value.n, nbr, min)))
  }

  /** What updateIncrement stores: there is no initial value, so null throws too. */
  function UpdateIncrementValue(nbr: int, max: Option<int>, value: Value): Result<Value, ContextError>
  {
    if !value.IsNumber() then Failure(TypeError(MESSAGE))
    else Success(Number(BoundedAdd(value.n, nbr, max)))
  }

  function UpdateDecrementValue(nbr: int, min: Option<int>, value: Value): Result<Value, ContextError>
  {
    if !value.IsNumber() then Failure(TypeError(MESSAGE))
    else Success(Number(BoundedSubtract(value.n, nbr, min)))
  }

  /** What putPush stores: null becomes the new values, anything else is spread before them. */
  function PutPushValue(values: seq<Value>, previousValue: Value): Result<Value, ContextError>
  {
    if previousValue == Null then Success(List(values))
    else UpdatePushValue(values, previousValue)
  }

  function UpdatePushValue(values: seq<Value>, previousValue: Value): Result<Value, ContextError>
  {
    match Elements(previousValue)
    case Success(previous) => Success(List(previous + values))
    case Failure(e) => Failure(e)
  }

  datatype Context = Context(entries: map<string, Value>)
  {
    /** Stores `value` only when the id is absent. */
    function Add(id: string, value: Value): (r: Context)
      ensures id in entries ==> r == this
      ensures id !in entries ==> r.Get(id) == value && r.entries.Keys == entries.Keys + {id}
      ensures forall other | other != id :: r.Lookup(other) == Lookup(other)
    {
      if id in entries then Context(entries) else Context(entries[id := value])
    }

    /** Overwrites the id with `value`. */
    function Put(id: string, value: Value): (r: Context)
      ensures r.Get(id) == value && r.Exists(id)
      ensures forall other | other != id :: r.Lookup(other) == Lookup(other)
      ensures r.entries.Keys == entries.Keys + {id}
    {
      Context(entries[id := value])
    }

    /** Stores what the setter makes of the previous value, where a missing or undefined value is passed as null. */
    function PutWith(id: string, setter: Value -> Result<Value, ContextError>): (r: Result<Context, ContextError>)
      ensures setter(Coalesce(Lookup(id), Null)).Failure? ==> r == Failure(setter(Coalesce(Lookup(id), Null)).error)
      ensures setter(Coalesce(Lookup(id), Null)).Success? ==>
                r.Success? && r.value.Get(id) == setter(Coalesce(Lookup(id), Null)).value &&
                r.value.entries.Keys == entries.Keys + {id} &&
                forall other | other != id :: r.value.Lookup(other) == Lookup(other)
    {
      var previousValue := Coalesce(Lookup(id), Null);
      match setter(previousValue)
      case Success(newValue) => Success(Put(id, newValue))
      case Failure(e) => Failure(e)
    }

    /**
     * A missing, undefined or null value becomes `initialValue`; a number
     * becomes `v + nbr` when that is below `max` and stays `v` otherwise;
     * any other value is a TypeError and no new context.
     */
    function PutIncrement(id: string, nbr: int, max: Option<int>, initialValue: int): (r: Result<Context, ContextError>)
      ensures var previous := Coalesce(Lookup(id), Null);
              && (previous == Null ==> r.Success? && r.value.Get(id) == Number(initialValue))
              && (previous.Number? ==> r.Success? && r.value.Get(id) == Number(BoundedAdd(previous.n, nbr, max)))
              && (previous != Null && !previous.Number? ==> r == Failure(TypeError(MESSAGE)))
      ensures r.Success? ==> forall other | other != id :: r.value.Lookup(other) == Lookup(other)
      ensures r.Success? ==> r.value.entries.Keys == entries.Keys + {id}
    {
      PutWith(id, (value: Value) => PutIncrementValue(nbr, max, initialValue, value))
    }

    /** The mirror of PutIncrement: a number becomes `v - nbr` when that is above `min`. */
    function PutDecrement(id: string, nbr: int, min: Option<int>, initialValue: int): (r: Result<Context, ContextError>)
      ensures var previous := Coalesce(Lookup(id), Null);
              && (previous == Null ==> r.Success? && r.value.Get(id) == Number(initialValue))
              && (previous.Number? ==> r.Success? && r.value.Get(id) == Number(BoundedSubtract(previous.n, nbr, min)))
              && (previous != Null && !previous.Number? ==> r == Failure(TypeError(MESSAGE)))
      ensures r.Success? ==> forall other | other != id :: r.value.Lookup(other) == Lookup(other)
      ensures r.Success? ==> r.value.entries.Keys == entries.Keys + {id}
    {
      PutWith(id, (value: Value) => PutDecrementValue(nbr, min, initialValue, value))
    }

    /**
     * Nothing (or null) stored gives exactly the pushed values; a list gets
     * them appended; a string is spread into its characters first; anything
     * else cannot be spread and is a TypeError.
     */
    function PutPush(id: string, values: seq<Value>): (r: Result<Context, ContextError>)
      ensures Coalesce(Lookup(id), Null) == Null ==> r.Success? && r.value.Get(id) == List(values)
      ensures Lookup(id).List? ==> r.Success? && r.value.Get(id) == List(Lookup(id).items + values)
      ensures Lookup(id).Text? ==> r.Success? && r.value.Get(id) == List(Elements(Lookup(id)).value + values)
      ensures Lookup(id).Bool? || Lookup(id).Number? ==> r == Failure(TypeError(NOT_ITERABLE_MESSAGE))
      ensures r.Success? ==> forall other | other != id :: r.value.Lookup(other) == Lookup(other)
      ensures r.Success? ==> r.value.entries.Keys == entries.Keys + {id}
    {
      PutWith(id, (value: Value) => PutPushValue(values, value))
    }

    /** Overwrites the id only when it holds something other than `undefined`. */
    function Update(id: string, value: Value): (r: Context)
      ensures Lookup(id) == Undefined ==> r == this
      ensures Lookup(id) != Undefined ==> r.Get(id) == value && r.entries.Keys == entries.Keys
      ensures forall other | other != id :: r.Lookup(other) == Lookup(other)
    {
      var previousValue := Lookup(id);
      if previousValue == Undefined then Context(entries) else Context(entries[id := value])
    }

    /** Like PutWith on a present value; a missing or undefined value leaves the context as it is. */
    function UpdateWith(id: string, setter: Value -> Result<Value, ContextError>): (r: Result<Context, ContextError>)
      ensures Lookup(id) == Undefined ==> r == Success(this)
      ensures Lookup(id) != Undefined && setter(Lookup(id)).Failure? ==> r == Failure(setter(Lookup(id)).error)
      ensures Lookup(id) != Undefined && setter(Lookup(id)).Success? ==>
                r.Success? && r.value.Get(id) == setter(Lookup(id)).value &&
                r.value.entries.Keys == entries.Keys &&
                forall other | other != id :: r.value.Lookup(other) == Lookup(other)
    {
      var previousValue := Lookup(id);
      if previousValue == Undefined then Success(Context(entries))
      else
        match setter(previousValue)
        case Success(newValue) => Success(Context(entries[id := newValue]))
        case Failure(e) => Failure(e)
    }

    /**
     * A missing or undefined value leaves the context as it is; a number is
     * bounded-added; anything else, null included, is a TypeError.
     */
    function UpdateIncrement(id: string, nbr: int, max: Option<int>): (r: Result<Context, ContextError>)
      ensures Lookup(id) == Undefined ==> r == Success(this)
      ensures Lookup(id).Number? ==> r.Success? && r.value.Get(id) == Number(BoundedAdd(Lookup(id).n, nbr, max))
      ensures Lookup(id) != Undefined && !Lookup(id).Number? ==> r == Failure(TypeError(MESSAGE))
      ensures r.Success? ==> forall other | other != id :: r.value.Lookup(other) == Lookup(other)
      ensures r.Success? ==> r.value.entries.Keys == entries.Keys
    {
      UpdateWith(id, (value: Value) => UpdateIncrementValue(nbr, max, value))
    }

    /** The mirror of UpdateIncrement, bounded below by `min`. */
    function UpdateDecrement(id: string, nbr: int, min: Option<int>): (r: Result<Context, ContextError>)
      ensures Lookup(id) == Undefined ==> r == Success(this)
      ensures Lookup(id).Number? ==> r.Success? && r.value.Get(id) == Number(BoundedSubtract(Lookup(id).n, nbr, min))
      ensures Lookup(id) != Undefined && !Lookup(id).Number? ==> r == Failure(TypeError(MESSAGE))
      ensures r.Success? ==> forall other | other != id :: r.value.Lookup(other) == Lookup(other)
      ensures r.Success? ==> r.value.entries.Keys == entries.Keys
    {
      UpdateWith(id, (value: Value) => UpdateDecrementValue(nbr, min, value))
    }

    /** Like PutPush, except that a missing id stays missing and null, which cannot be spread, is a TypeError. */
    function UpdatePush(id: string, values: seq<Value>): (r: Result<Context, ContextError>)
      ensures Lookup(id) == Undefined ==> r == Success(this)
      ensures Lookup(id) == Null ==> r == Failure(TypeError(NOT_ITERABLE_MESSAGE))
      ensures Lookup(id).List? ==> r.Success? && r.value.Get(id) == List(Lookup(id).items + values)
      ensures Lookup(id).Text? ==> r.Success? && r.value.Get(id) == List(Elements(Lookup(id)).value + values)
      ensures Lookup(id).Bool? || Lookup(id).Number? ==> r == Failure(TypeError(NOT_ITERABLE_MESSAGE))
      ensures r.Success? ==> forall other | other != id :: r.value.Lookup(other) == Lookup(other)
      ensures r.Success? ==> r.value.entries.Keys == entries.Keys
    {
      UpdateWith(id, (value: Value) => UpdatePushValue(values, value))
    }

    /** Deletes that id only. */
    function Remove(id: string): (r: Context)
      ensures r.Missing(id)
      ensures forall other | other != id :: r.Lookup(other) == Lookup(other)
      ensures r.entries.Keys == entries.Keys - {id}
    {
      Context(entries - {id})
    }

    /** `map.get(id)`: `undefined` for a missing id. */
    function Lookup(id: string): Value
    {
      JsValues.Lookup(entries, id)
    }

    function Exists(id: string): (r: bool)
      ensures r <==> id in entries
    {
      id in entries
    }

    function Missing(id: string): (r: bool)
      ensures r <==> id !in entries
    {
      !Exists(id)
    }

    /** The stored value; a missing id reads as `undefined`, never as null. */
    function Get(id: string): (r: Value)
      ensures id !in entries ==> r == Undefined
      ensures id in entries ==> r == entries[id]
      ensures r == Null ==> Exists(id)
    {
      var value := Lookup(id);
      if value == Null then Null else value
    }

    /** The stored value, or the default only when null is actually stored. */
    function GetOr(id: string, defaultValue: Value): (r: Value)
      ensures id in entries && entries[id] == Null ==> r == defaultValue
      ensures !(id in entries && entries[id] == Null) ==> r == Get(id)
      ensures id !in entries ==> r == Undefined
    {
      var value := Get(id);
      if value == Null then defaultValue else value
    }

    /** The stored value, or an Error only when null is actually stored. */
    function GetOrFail(id: string): (r: Result<Value, ContextError>)
      ensures r.Failure? <==> id in entries && entries[id] == Null
      ensures r.Failure? ==> r.error == Error(MESSAGE)
      ensures r.Success? ==> r.value == Get(id)
    {
      var value := Get(id);
      if value == Null then Failure(Error(MESSAGE)) else Success(value)
    }

    /**
     * As written: true iff some element satisfies the matcher, which for a
     * plain value is never; null gives false, a non-iterable a TypeError.
     */
    method Contains(id: string, matcher: Matcher) returns (r: Result<bool, ContextError>)
      ensures Get(id) == Null ==> r == Success(false)
      ensures Get(id) != Null && Elements(Get(id)).Failure? ==> r == Failure(Elements(Get(id)).error)
      ensures Get(id) != Null && Elements(Get(id)).Success? ==>
                r == Success(exists i | 0 <= i < |Elements(Get(id)).value| :: Matches(matcher, Elements(Get(id)).value[i]))
      ensures matcher.Equals? && Elements(Get(id)).Success? ==> r == Success(false)
    {
      var items := Get(id);
      if items == Null {
        return Success(false);
      }
      var elements := Elements(items);
      if elements.Failure? {
        return Failure(elements.error);
      }
      var all := elements.value;
      var i := 0;
      while i < |all|
        invariant 0 <= i <= |all|
        invariant forall j | 0 <= j < i :: !Matches(matcher, all[j])
      {
        if Matches(matcher, all[i]) {
          return Success(true);
        }
        i := i + 1;
      }
      return Success(false);
    }

    /**
     * contains as evidently intended: true iff some element equals the plain
     * value or satisfies the predicate; null gives false, a non-iterable a
     * TypeError.
     */
    method ContainsIntended(id: string, matcher: Matcher) returns (r: Result<bool, ContextError>)
      ensures Get(id) == Null ==> r == Success(false)
      ensures Get(id) != Null && Elements(Get(id)).Failure? ==> r == Failure(Elements(Get(id)).error)
      ensures Get(id) != Null && Elements(Get(id)).Success? ==>
                r == Success(exists i | 0 <= i < |Elements(Get(id)).value| ::
                               IntendedMatches(matcher, Elements(Get(id)).value[i]))
      ensures matcher.Equals? && Get(id).List? ==> r == Success(matcher.target in Get(id).items)
    {
      var items := Get(id);
      if items == Null {
        return Success(false);
      }
      var elements := Elements(items);
      if elements.Failure? {
        return Failure(elements.error);
      }
      var all := elements.value;
      var i := 0;
      while i < |all|
        invariant 0 <= i <= |all|
        invariant forall j | 0 <= j < i :: !IntendedMatches(matcher, all[j])
      {
        if IntendedMatches(matcher, all[i]) {
          return Success(true);
        }
        i := i + 1;
      }
      return Success(false);
    }

    /** A context with the same entries. */
    function Child(): (r: Context)
      ensures forall id :: r.Lookup(id) == Lookup(id)
      ensures r.entries == entries
    {
      Context(entries)
    }

    /** An empty context, whatever this one holds. */
    function Clear(): (r: Context)
      ensures forall id :: r.Missing(id)
    {
      Empty()
    }

    /** Version "1" and the entries; deserializing it gives this context back. */
    function Serialize(): (r: SerializedContext)
      ensures r.version == "1"
      ensures Deserialize(r) == this
    {
      SerializedContext("1", entries)
    }

    /** Runs every step in order on the context when the condition holds; otherwise returns a copy. */
    method When(condition: bool, invokables: seq<Context -> Context>) returns (r: Context)
      ensures condition ==> r == ApplyAll(this, invokables)
      ensures !condition ==> r == this
    {
      var context := Context(entries);
      if !condition {
        return context;
      }
      var i := 0;
      while i < |invokables|
        invariant 0 <= i <= |invokables|
        invariant context == ApplyAll(this, invokables[..i])
      {
        assert invokables[..i + 1][..i] == invokables[..i];
        context := invokables[i](context);
        i := i + 1;
      }
      assert invokables[..i] == invokables;
      return context;
    }
  }

  function Empty(): (r: Context)
    ensures forall id :: r.Missing(id)
  {
    Context(map[])
  }

  /** A context holding exactly the serialized data; the version is not checked. */
  function Deserialize(serialized: SerializedContext): (r: Context)
    ensures forall id :: r.Lookup(id) == JsValues.Lookup(serialized.data, id)
    ensures r.entries == serialized.data
  {
    Context(serialized.data)
  }

  /** The context after every step, in order. */
  function ApplyAll(context: Context, steps: seq<Context -> Context>): Context
    decreases |steps|
  {
    if steps == [] then context else steps[|steps| - 1](ApplyAll(context, steps[..|steps| - 1]))
  }

  /** Running two batches of steps one after the other is running them as one batch. */
  lemma {:induction false} ApplyAllAppend(context: Context, first: seq<Context -> Context>, second: seq<Context -> Context>)
    ensures ApplyAll(context, first + second) == ApplyAll(ApplyAll(context, first), second)
    decreases |second|
  {
    if second == [] {
      assert first + second == first;
    } else {
      var init := second[..|second| - 1];
      assert (first + second)[..|first + second| - 1] == first + init;
      ApplyAllAppend(context, first, init);
    }
  }

  /** A counter that starts below `max` stays below it, however often it is incremented. */
  lemma {:induction false} RepeatedIncrementStaysBelowMax(c: Context, id: string, nbr: int, max: int, initialValue: int, times: nat)
    requires initialValue < max
    requires c.Get(id) == Null || c.Get(id) == Undefined || (c.Get(id).Number? && c.Get(id).n < max)
    ensures var r := RepeatIncrement(c, id, nbr, max, initialValue, times);
            r.Success? && r.value.Get(id).Number? && r.value.Get(id).n < max
    decreases times
  {
    var once := c.PutIncrement(id, nbr, Some(max), initialValue);
    if times > 0 {
      RepeatedIncrementStaysBelowMax(once.value, id, nbr, max, initialValue, times - 1);
    }
  }

  /** putIncrement applied `times + 1` times in a row. */
  function RepeatIncrement(c: Context, id: string, nbr: int, max: int, initialValue: int, times: nat): Result<Context, ContextError>
    decreases times
  {
    match c.PutIncrement(id, nbr, Some(max), initialValue)
    case Failure(e) => Failure(e)
    case Success(next) => if times == 0 then Success(next) else RepeatIncrement(next, id, nbr, max, initialValue, times - 1)
  }

  /** Pushing twice onto a list is pushing both batches at once. */
  lemma PushTwice(c: Context, id: string, first: seq<Value>, second: seq<Value>)
    requires Coalesce(c.Lookup(id), Null) == Null || c.Lookup(id).List?
    ensures c.PutPush(id, first).Success?
    ensures c.PutPush(id, first).value.PutPush(id, second) == c.PutPush(id, first + second)
  {
    var previous := c.Lookup(id);
    var once := c.PutPush(id, first).value;
    if previous.List? {
      assert previous.items + first + second == previous.items + (first + second);
    }
    assert once.Get(id) == once.Lookup(id);
    assert forall other | other != id :: once.PutPush(id, second).value.Lookup(other) == c.PutPush(id, first + second).value.Lookup(other);
    assert once.PutPush(id, second).value.entries == c.PutPush(id, first + second).value.entries;
  }

  /** Removing an id and adding it again stores the new value; add on a present id keeps the old one. */
  lemma AddAfterRemove(c: Context, id: string, old_value: Value, value: Value)
    ensures c.Put(id, old_value).Add(id, value).Get(id) == old_value
    ensures c.Put(id, old_value).Remove(id).Add(id, value).Get(id) == value
  {
  }

  /** A context survives a serialize/deserialize round trip with all its entries. */
  lemma SerializeRoundTrip(c: Context)
    ensures Deserialize(c.Serialize()) == c
    ensures forall id :: Deserialize(c.Serialize()).Get(id) == c.Get(id)
  {
  }

  /** get, getOr and getOrFail read a missing id as `undefined`: only a stored null triggers the fallbacks. */
  method GetScenario() returns (absent: Value, absentOr: Value, storedNull: Value, storedNullOr: Value, fail: Result<Value, ContextError>)
    ensures absent == Undefined && absentOr == Undefined
    ensures storedNull == Null && storedNullOr == Number(7)
    ensures fail == Failure(Error(MESSAGE))
  {
    var c := Empty().Put("n", Null);
    absent := c.Get("a");
    absentOr := c.GetOr("a", Number(7));
    storedNull := c.Get("n");
    storedNullOr := c.GetOr("n", Number(7));
    fail := c.GetOrFail("n");
  }

  /**
   * As written, contains never finds an element by plain value, only by
   * predicate; it gives false for null and fails for a missing id. The
   * intended contains finds the value.
   */
  method ContainsScenario() returns (byValue: Result<bool, ContextError>, byPredicate: Result<bool, ContextError>,
                                     onNull: Result<bool, ContextError>, onMissing: Result<bool, ContextError>,
                                     byValueIntended: Result<bool, ContextError>)
    ensures byValue == Success(false) && byPredicate == Success(true)
    ensures onNull == Success(false) && onMissing.Failure?
    ensures byValueIntended == Success(true)
  {
    var c := Empty().Put("list", List([Number(1), Number(2)])).Put("nothing", Null);
    assert Elements(c.Get("list")).value == [Number(1), Number(2)];
    var isTwo := (v: Value) => v == Number(2);
    assert Matches(Satisfies(isTwo), [Number(1), Number(2)][1]);
    byValue := c.Contains("list", Equals(Number(2)));
    byPredicate := c.Contains("list", Satisfies(isTwo));
    onNull := c.Contains("nothing", Equals(Number(2)));
    onMissing := c.Contains("missing", Equals(Number(2)));
    byValueIntended := c.ContainsIntended("list", Equals(Number(2)));
  }
}
