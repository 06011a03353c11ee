/**
 * Selecting the entries of an object by key or by value: `filterFromObject`,
 * `applyFilterOnObject`, `selectFromObject` and `sanitize`, which drops every
 * entry whose value is falsy.
 */
module Sanitize {
  import opened Wrappers
  import opened JsValue

  /** The `filter` argument: an array of key names, a function of `(value, key)`, or any other value. */
  datatype Filter =
    | ArrayFilter(items: seq<Value>)
    | FunctionFilter(test: (Value, string) -> bool)  // the truthiness of what the function returns
    | OtherFilter(v: Value)                          // anything that is neither an array nor a function

  const NotAFilterMessage := "The given filter is not an array or function. Exclude aborted"

  /** The test `filterFromObject` hands to `applyFilterOnObject`; array filters match keys, not values. */
  function FilterTest(filter: Filter, isInclusion: bool): (r: Result<(Value, string) -> bool, Exception>)
    ensures r.Failure? <==> filter.OtherFilter?
  {
    match filter
    case ArrayFilter(items) =>
      if isInclusion then Success((v: Value, key: string) => Str(key) in items)
      else Success((v: Value, key: string) => Str(key) !in items)
    case FunctionFilter(test) =>
      if isInclusion then Success(test) else Success((v: Value, key: string) => !test(v, key))
    case OtherFilter(_) => Failure(Error(NotAFilterMessage))
  }

  /** `filteredObj[key] = val` for the entries among the first `k` that pass `test`. */
  function FilterFold(es: Entries, test: (Value, string) -> bool, k: nat): Entries
    requires k <= |es|
  {
    if k == 0 then []
    else
      var prev := FilterFold(es, test, k - 1);
      if test(es[k - 1].1, es[k - 1].0) then SetKey(prev, es[k - 1].0, es[k - 1].1) else prev
  }

  /** `applyFilterOnObject(obj, filterFn)`; a null `filterFn` makes a shallow copy. */
  function ApplyFilterSpec(obj: Value, filterFn: Option<(Value, string) -> bool>): Result<Value, Exception>
  {
    if filterFn.None? then Success(Obj(Assign([], [obj])))
    else
      var es :- ObjectEntries(obj);
      Success(Obj(FilterFold(es, filterFn.value, |es|)))
  }

  /** The `forEach` over `Object.entries(obj)` filling a fresh object. */
  method ApplyFilterOnObject(obj: Value, filterFn: Option<(Value, string) -> bool>) returns (r: Result<Value, Exception>)
    ensures r == ApplyFilterSpec(obj, filterFn)
  {
    if filterFn.None? {
      return Success(Obj(Assign([], [obj])));
    }
    var entries := ObjectEntries(obj);
    if entries.Failure? {
      return Failure(entries.error);
    }
    var es := entries.value;
    var filtered: Entries := [];
    var i := 0;
    while i < |es|
      invariant 0 <= i <= |es|
      invariant filtered == FilterFold(es, filterFn.value, i)
    {
      var (key, val) := es[i];
      if filterFn.value(val, key) {
        filtered := SetKey(filtered, key, val);
      }
      i := i + 1;
    }
    r := Success(Obj(filtered));
  }

  /** `filterFromObject(obj, filter, {isInclusion})` */
  function FilterFromObject(obj: Value, filter: Filter, isInclusion: bool): Result<Value, Exception>
  {
    var test :- FilterTest(filter, isInclusion);
    ApplyFilterSpec(obj, Some(test))
  }

  /** `selectFromObject(obj, filter)` */
  function SelectFromObject(obj: Value, filter: Filter): Result<Value, Exception>
  {
    FilterFromObject(obj, filter, true)
  }

  /** The filter `sanitize` selects with: `val => !!val`. */
  predicate KeepTruthy(v: Value, key: string)
  {
    Truthy(v)
  }

  /** `sanitize(obj)` */
  function Sanitize(obj: Value): Result<Value, Exception>
  {
    SelectFromObject(obj, FunctionFilter(KeepTruthy))
  }

  // ---------------------------------------------------------------------------
  // What the filtered object holds

  /** The entries among the first `k` that pass `test`, in their order. */
  function Select(es: Entries, test: (Value, string) -> bool, k: nat): (r: Entries)
    requires k <= |es|
    ensures forall j | 0 <= j < |r| :: exists i | 0 <= i < k :: r[j] == es[i]
  {
    if k == 0 then []
    else
      var prev := Select(es, test, k - 1);
      if test(es[k - 1].1, es[k - 1].0) then prev + [es[k - 1]] else prev
  }

  /** As the keys of an object are distinct, each assignment adds a new key at the end. */
  lemma {:induction false} FilterFoldIsSelect(es: Entries, test: (Value, string) -> bool, k: nat)
    requires k <= |es| && UniqueKeys(es)
    ensures FilterFold(es, test, k) == Select(es, test, k)
  {
    if k > 0 {
      FilterFoldIsSelect(es, test, k - 1);
      var prev := Select(es, test, k - 1);
      if test(es[k - 1].1, es[k - 1].0) {
        forall j | 0 <= j < |prev| ensures prev[j].0 != es[k - 1].0 {
          var i :| 0 <= i < k - 1 && prev[j] == es[i];
        }
        SetKeyNew(prev, es[k - 1].0, es[k - 1].1);
      }
    }
  }

  /** Selecting keeps the distinct keys distinct. */
  lemma {:induction false} SelectUnique(es: Entries, test: (Value, string) -> bool, k: nat)
    requires k <= |es| && UniqueKeys(es)
    ensures UniqueKeys(Select(es, test, k))
  {
    if k > 0 {
      SelectUnique(es, test, k - 1);
      var prev := Select(es, test, k - 1);
      forall j | 0 <= j < |prev| ensures prev[j].0 != es[k - 1].0 {
        var i :| 0 <= i < k - 1 && prev[j] == es[i];
      }
    }
  }

  /** The selected object has key `key` exactly when an entry with that key passes. */
  lemma {:induction false} SelectHasKey(es: Entries, test: (Value, string) -> bool, k: nat, key: string)
    requires k <= |es|
    ensures HasKey(Select(es, test, k), key) <==> exists i | 0 <= i < k :: es[i].0 == key && test(es[i].1, key)
  {
    if k > 0 {
      var prev := Select(es, test, k - 1);
      SelectHasKey(es, test, k - 1, key);
      LookupSnoc(prev, es[k - 1], key);
    }
  }

  /** A selected key holds the value it has in the input; a key whose entry fails reads as `undefined`. */
  lemma {:induction false} SelectLookup(es: Entries, test: (Value, string) -> bool, k: nat, key: string)
    requires k <= |es| && UniqueKeys(es)
    ensures forall i | 0 <= i < k && es[i].0 == key ::
              Lookup(Select(es, test, k), key) == if test(es[i].1, key) then es[i].1 else Undefined
  {
    if k > 0 {
      var prev := Select(es, test, k - 1);
      SelectLookup(es, test, k - 1, key);
      LookupSnoc(prev, es[k - 1], key);
      if es[k - 1].0 == key {
        SelectHasKey(es, test, k - 1, key);
        assert !HasKey(prev, key);
      }
    }
  }

  /**
   * Filtering an object keeps, in their order, exactly the entries whose
   * `(value, key)` passes the test: keys are a subset and values are unchanged.
   */
  lemma ApplyFilterFacts(obj: Value, test: (Value, string) -> bool, key: string)
    requires obj.Obj? && UniqueKeys(obj.entries)
    ensures ApplyFilterSpec(obj, Some(test)) == Success(Obj(Select(obj.entries, test, |obj.entries|)))
    ensures var r := ApplyFilterSpec(obj, Some(test)).value.entries;
            && UniqueKeys(r)
            && (HasKey(r, key) <==> HasKey(obj.entries, key) && test(Lookup(obj.entries, key), key))
            && Lookup(r, key) == if test(Lookup(obj.entries, key), key) then Lookup(obj.entries, key) else Undefined
  {
    var es := obj.entries;
    FilterFoldIsSelect(es, test, |es|);
    SelectUnique(es, test, |es|);
    SelectHasKey(es, test, |es|, key);
    SelectLookup(es, test, |es|, key);
    var i := IndexOfKey(es, key);
    if i >= 0 {
      LookupAt(es, i);
    } else {
      assert forall j | 0 <= j < |es| :: es[j].0 != key by {
        assert forall j | 0 <= j < |es| :: Keys(es)[j] == es[j].0;
      }
    }
  }

  /** Without a filter function the result is a shallow copy equal to the object. */
  lemma CopyWithoutFilter(obj: Value)
    requires obj.Obj? && UniqueKeys(obj.entries)
    ensures ApplyFilterSpec(obj, None) == Success(obj)
  {
    assert Assign([], [obj]) == Assign(AssignEntries([], obj.entries), []);
    AssignEntriesCopy(obj.entries);
  }

  /** `sanitize` keeps exactly the entries whose value is truthy. */
  lemma SanitizeFacts(obj: Value, key: string)
    requires obj.Obj? && UniqueKeys(obj.entries)
    ensures Sanitize(obj).Success?
    ensures var r := Sanitize(obj).value.entries;
            && (HasKey(r, key) <==> HasKey(obj.entries, key) && Truthy(Lookup(obj.entries, key)))
            && Lookup(r, key) == if Truthy(Lookup(obj.entries, key)) then Lookup(obj.entries, key) else Undefined
  {
    ApplyFilterFacts(obj, KeepTruthy, key);
  }

  /** An excluding function filter keeps exactly the entries the function rejects. */
  lemma ExclusionKeepsRejected(obj: Value, test: (Value, string) -> bool, key: string)
    requires obj.Obj? && UniqueKeys(obj.entries)
    ensures FilterFromObject(obj, FunctionFilter(test), false).Success?
    ensures var r := FilterFromObject(obj, FunctionFilter(test), false).value.entries;
            HasKey(r, key) <==> HasKey(obj.entries, key) && !test(Lookup(obj.entries, key), key)
  {
    ApplyFilterFacts(obj, (v: Value, k: string) => !test(v, k), key);
  }

  /** An array filter selects by key: listed keys are kept when including and dropped when excluding. */
  lemma ArrayFilterByKey(obj: Value, keys: seq<Value>, isInclusion: bool, key: string)
    requires obj.Obj? && UniqueKeys(obj.entries)
    ensures FilterFromObject(obj, ArrayFilter(keys), isInclusion).Success?
    ensures var r := FilterFromObject(obj, ArrayFilter(keys), isInclusion).value.entries;
            HasKey(r, key) <==> HasKey(obj.entries, key) && (Str(key) in keys <==> isInclusion)
  {
    if isInclusion {
      ApplyFilterFacts(obj, (v: Value, k: string) => Str(k) in keys, key);
    } else {
      ApplyFilterFacts(obj, (v: Value, k: string) => Str(k) !in keys, key);
    }
  }

  /** A filter that is neither an array nor a function aborts. */
  lemma OtherFilterThrows(obj: Value, v: Value, isInclusion: bool)
    ensures FilterFromObject(obj, OtherFilter(v), isInclusion) == Failure(Error(NotAFilterMessage))
  {
  }
}
