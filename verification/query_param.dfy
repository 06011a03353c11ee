/**
 * `stringifyAsQueryParam(obj, transform)`: the entries of a dictionary,
 * their keys passed through `transform` (by default `decamelize`), written
 * after a `?` by `queryString.stringify`.  Both `transform` and `stringify`
 * are parameters of the model.
 */
module QueryParam {
  import opened Wrappers
  import opened JsValue

  /** The `reduce` over the first `k` entries: `paramsObj[transform(key)] = value` onto a fresh `{}`. */
  function TransformFold(es: Entries, transform: string -> string, k: nat): Entries
    requires k <= |es|
  {
    if k == 0 then []
    else SetKey(TransformFold(es, transform, k - 1), transform(es[k - 1].0), es[k - 1].1)
  }

  /** `!obj || typeof obj !== 'object' || !Object.keys(obj).length` */
  predicate NothingToStringify(obj: Value)
  {
    !Truthy(obj) || !TypeofObject(obj) || ObjectEntries(obj).value == []
  }

  /** `stringifyAsQueryParam(obj, transform)` */
  function StringifyAsQueryParam(obj: Value, transform: string -> string, stringify: Entries -> string): (r: string)
    ensures r == [] <==> NothingToStringify(obj)
    ensures r != [] ==> r[0] == '?'
  {
    if NothingToStringify(obj) then ""
    else
      var es := ObjectEntries(obj).value;
      "?" + stringify(TransformFold(es, transform, |es|))
  }

  // ---------------------------------------------------------------------------
  // Properties

  /** The fold never holds a key twice. */
  lemma {:induction false} TransformFoldUnique(es: Entries, transform: string -> string, k: nat)
    requires k <= |es|
    ensures UniqueKeys(TransformFold(es, transform, k))
  {
    if k == 0 {
      assert TransformFold(es, transform, k) == [];
    } else {
      var prev := TransformFold(es, transform, k - 1);
      var r := SetKey(prev, transform(es[k - 1].0), es[k - 1].1);
      TransformFoldUnique(es, transform, k - 1);
      SetKeyUnique(prev, transform(es[k - 1].0), es[k - 1].1);
      assert UniqueKeys(r);
      assert TransformFold(es, transform, k) == r;
    }
  }

  /** The fold holds exactly the transformed keys. */
  lemma {:induction false} TransformFoldHasKey(es: Entries, transform: string -> string, k: nat, name: string)
    requires k <= |es|
    ensures HasKey(TransformFold(es, transform, k), name) <==> exists i | 0 <= i < k :: transform(es[i].0) == name
  {
    if k > 0 {
      var prev := TransformFold(es, transform, k - 1);
      var key := transform(es[k - 1].0);
      TransformFoldHasKey(es, transform, k - 1, name);
      SetKeyHasKey(prev, key, es[k - 1].1, name);
    }
  }

  /** A transformed key holds the value of the last entry whose key transforms to it: later duplicates win. */
  lemma {:induction false} TransformFoldLookup(es: Entries, transform: string -> string, k: nat, i: nat)
    requires i < k <= |es|
    requires forall j | i < j < k :: transform(es[j].0) != transform(es[i].0)
    ensures Lookup(TransformFold(es, transform, k), transform(es[i].0)) == es[i].1
  {
    var prev := TransformFold(es, transform, k - 1);
    var key := transform(es[k - 1].0);
    SetKeyLookup(prev, key, es[k - 1].1, transform(es[i].0));
    if i < k - 1 {
      TransformFoldLookup(es, transform, k - 1, i);
      assert key != transform(es[i].0);
    }
  }

  /** With keys left as they are, the fold copies a dictionary entry for entry. */
  lemma {:induction false} IdentityCopies(es: Entries, k: nat)
    requires k <= |es| && UniqueKeys(es)
    ensures TransformFold(es, (key: string) => key, k) == es[..k]
  {
    if k > 0 {
      IdentityCopies(es, k - 1);
      SetKeyNew(es[..k - 1], es[k - 1].0, es[k - 1].1);
      assert es[..k - 1] + [es[k - 1]] == es[..k];
    }
  }

  /**
   * A non-empty dictionary gives `?` followed by the stringified transformed
   * entries; every value is passed on unchanged under its transformed key.
   */
  lemma QueryFacts(obj: Value, transform: string -> string, stringify: Entries -> string, i: nat)
    requires obj.Obj? && i < |obj.entries|
    requires forall j | i < j < |obj.entries| :: transform(obj.entries[j].0) != transform(obj.entries[i].0)
    ensures var fold := TransformFold(obj.entries, transform, |obj.entries|);
            && StringifyAsQueryParam(obj, transform, stringify) == "?" + stringify(fold)
            && Lookup(fold, transform(obj.entries[i].0)) == obj.entries[i].1
  {
    TransformFoldLookup(obj.entries, transform, |obj.entries|, i);
  }

  /** `{}`, `[]`, null, undefined, `''`, numbers and booleans give the empty string. */
  lemma EmptyCases(transform: string -> string, stringify: Entries -> string, v: Value)
    requires v.Obj? ==> v.entries == []
    requires v.Arr? ==> v.items == []
    ensures StringifyAsQueryParam(v, transform, stringify) == ""
  {
  }
}
