/**
 * JavaScript values and the few language operations the driver relies on:
 * truthiness, reading a property (`v[key]`), the `in` operator, assigning a
 * property, `Object.entries`, `Object.assign`, `String(v)` and
 * `typeof v === 'object'`.
 *
 * An object keeps its own enumerable properties in insertion order, as
 * JavaScript does for string keys; this is what makes the key sorting of the
 * canonical serialisation (CanonicalJson) observable.
 */
module JsValue {
  import opened Wrappers

  datatype Value =
    | Undefined
    | Null
    | Bool(b: bool)
    | Num(n: int)
    | Str(s: string)
    | Arr(items: seq<Value>)
    | Obj(entries: seq<(string, Value)>)

  type Entries = seq<(string, Value)>

  /** What a `throw` statement or a rejected promise carries. */
  datatype Exception =
    | EngineTypeError            // the engine's own TypeError: a property read on null or undefined, a call of a non-function, `in` on a primitive
    | TypeError(message: string) // a TypeError raised by the driver itself
    | SyntaxError(message: string)
    | Error(message: string)
    | ResponseError(message: string, status: string, requestURI: Value)
    | Thrown(value: Value)       // a plain object thrown as it is, such as {message: 'TimeoutError'}

  /** `!!v` */
  predicate Truthy(v: Value)
  {
    match v
    case Undefined => false
    case Null => false
    case Bool(b) => b
    case Num(n) => n != 0
    case Str(s) => s != ""
    case _ => true
  }

  /** `v == null` (loose equality), true of null and undefined only. */
  predicate IsNullish(v: Value)
  {
    v.Undefined? || v.Null?
  }

  /** `typeof v === 'object'`, which holds of null and arrays as well. */
  predicate TypeofObject(v: Value)
  {
    v.Null? || v.Arr? || v.Obj?
  }

  // ---------------------------------------------------------------------------
  // Object entries

  function Keys(es: Entries): (ks: seq<string>)
    ensures |ks| == |es|
    ensures forall i | 0 <= i < |es| :: ks[i] == es[i].0
  {
    seq(|es|, i requires 0 <= i < |es| => es[i].0)
  }

  predicate HasKey(es: Entries, k: string)
  {
    k in Keys(es)
  }

  /** JavaScript objects never hold the same key twice. */
  predicate UniqueKeys(es: Entries)
  {
    forall i, j | 0 <= i < j < |es| :: es[i].0 != es[j].0
  }

  /** The position of key `k`, or -1 when the object has no such key. */
  function IndexOfKey(es: Entries, k: string): (i: int)
    ensures -1 <= i < |es|
    ensures 0 <= i ==> es[i].0 == k && forall j | 0 <= j < i :: es[j].0 != k
    ensures i < 0 <==> !HasKey(es, k)
  {
    if es == [] then -1
    else if es[0].0 == k then 0
    else
      var j := IndexOfKey(es[1..], k);
      assert Keys(es) == [es[0].0] + Keys(es[1..]);
      if j < 0 then -1 else j + 1
  }

  /** `obj[k]` on an object: the value stored under `k`, undefined when absent. */
  function Lookup(es: Entries, k: string): (r: Value)
    ensures !HasKey(es, k) ==> r == Undefined
  {
    var i := IndexOfKey(es, k);
    if i < 0 then Undefined else es[i].1
  }

  lemma LookupAt(es: Entries, i: int)
    requires UniqueKeys(es) && 0 <= i < |es|
    ensures Lookup(es, es[i].0) == es[i].1
  {
    var j := IndexOfKey(es, es[i].0);
    assert j >= 0 by { assert Keys(es)[i] == es[i].0; }
  }

  /** IndexOfKey is the one position holding the first occurrence of `k`. */
  lemma IndexOfKeyIs(es: Entries, k: string, i: int)
    requires -1 <= i < |es|
    requires 0 <= i ==> es[i].0 == k && forall j | 0 <= j < i :: es[j].0 != k
    requires i < 0 ==> forall j | 0 <= j < |es| :: es[j].0 != k
    ensures IndexOfKey(es, k) == i
  {
    if i >= 0 {
      assert Keys(es)[i] == k;
    }
  }

  /** `obj[k] = v`: an existing key keeps its position and takes the new value; a new key goes last. */
  function SetKey(es: Entries, k: string, v: Value): Entries
  {
    var i := IndexOfKey(es, k);
    if i >= 0 then es[i := (k, v)] else es + [(k, v)]
  }

  /** After `obj[k] = v`, `k` holds `v`, no other key changes, and no key is lost or duplicated. */
  lemma SetKeyFacts(es: Entries, k: string, v: Value)
    ensures Lookup(SetKey(es, k, v), k) == v
    ensures forall k' | k' != k :: Lookup(SetKey(es, k, v), k') == Lookup(es, k')
    ensures HasKey(es, k) ==> Keys(SetKey(es, k, v)) == Keys(es)
    ensures !HasKey(es, k) ==> Keys(SetKey(es, k, v)) == Keys(es) + [k]
    ensures forall k' :: HasKey(SetKey(es, k, v), k') <==> HasKey(es, k') || k' == k
    ensures UniqueKeys(es) ==> UniqueKeys(SetKey(es, k, v))
  {
    var i := IndexOfKey(es, k);
    var r := SetKey(es, k, v);
    if i >= 0 {
      assert Keys(r) == Keys(es);
      IndexOfKeyIs(r, k, i);
    } else {
      assert Keys(r) == Keys(es) + [k];
      IndexOfKeyIs(r, k, |es|);
    }
    forall k' | k' != k ensures Lookup(r, k') == Lookup(es, k') {
      SetKeyOther(es, k, v, i, r, k');
    }
  }

  /** The three facts of SetKeyFacts one at a time, for proofs that need only one. */
  lemma SetKeyUnique(es: Entries, k: string, v: Value)
    requires UniqueKeys(es)
    ensures UniqueKeys(SetKey(es, k, v))
  {
    SetKeyFacts(es, k, v);
  }

  lemma SetKeyHasKey(es: Entries, k: string, v: Value, k': string)
    ensures HasKey(SetKey(es, k, v), k') <==> HasKey(es, k') || k' == k
  {
    SetKeyFacts(es, k, v);
  }

  lemma SetKeyLookup(es: Entries, k: string, v: Value, k': string)
    ensures Lookup(SetKey(es, k, v), k') == if k' == k then v else Lookup(es, k')
  {
    SetKeyFacts(es, k, v);
  }

  /** Assigning a key the object does not have appends it. */
  lemma SetKeyNew(es: Entries, k: string, v: Value)
    requires forall j | 0 <= j < |es| :: es[j].0 != k
    ensures SetKey(es, k, v) == es + [(k, v)]
  {
    IndexOfKeyIs(es, k, -1);
  }

  /** Assigning a key the object has replaces its value in place. */
  lemma SetKeyExisting(es: Entries, k: string, v: Value, i: nat)
    requires i < |es| && es[i].0 == k && forall j | 0 <= j < i :: es[j].0 != k
    ensures SetKey(es, k, v) == es[i := (k, v)]
  {
    IndexOfKeyIs(es, k, i);
  }

  lemma SetKeyOther(es: Entries, k: string, v: Value, i: int, r: Entries, k': string)
    requires i == IndexOfKey(es, k)
    requires r == if i >= 0 then es[i := (k, v)] else es + [(k, v)]
    requires k' != k
    ensures Lookup(r, k') == Lookup(es, k')
  {
    var b := IndexOfKey(es, k');
    if b >= 0 {
      IndexOfKeyIs(r, k', b);
    } else {
      IndexOfKeyIs(r, k', -1);
    }
  }

  // ---------------------------------------------------------------------------
  // Numbers as text

  function DigitChar(d: nat): char
    requires d < 10
  {
    "0123456789"[d]
  }

  /** Decimal text of a natural number, as `String(n)` writes it. */
  function NatToString(n: nat): (s: string)
    ensures |s| >= 1
    ensures forall i | 0 <= i < |s| :: '0' <= s[i] <= '9'
    ensures |s| > 1 ==> s[0] != '0'
  {
    if n < 10 then [DigitChar(n)] else NatToString(n / 10) + [DigitChar(n % 10)]
  }

  function IntToString(n: int): string
  {
    if n < 0 then "-" + NatToString(-n) else NatToString(n)
  }

  lemma DigitCharInjective(a: nat, b: nat)
    requires a < 10 && b < 10 && DigitChar(a) == DigitChar(b)
    ensures a == b
  {
  }

  /** Different numbers have different decimal texts. */
  lemma {:induction false} NatToStringInjective(a: nat, b: nat)
    requires NatToString(a) == NatToString(b)
    ensures a == b
  {
    if a >= 10 && b >= 10 {
      var pa, pb := NatToString(a / 10), NatToString(b / 10);
      assert NatToString(a) == pa + [DigitChar(a % 10)];
      assert NatToString(b) == pb + [DigitChar(b % 10)];
      assert pa == NatToString(a)[..|pa|] && pb == NatToString(b)[..|pb|];
      NatToStringInjective(a / 10, b / 10);
      DigitCharInjective(a % 10, b % 10);
      assert a == 10 * (a / 10) + a % 10 && b == 10 * (b / 10) + b % 10;
    } else if a < 10 && b < 10 {
      DigitCharInjective(a, b);
    }
  }

  /** The index below `len` whose decimal text is `key`, if any: how a property key names an array element. */
  function ArrayIndex(key: string, len: nat): (r: Option<nat>)
    ensures r.Some? ==> r.value < len && NatToString(r.value) == key
    ensures r.None? ==> forall i: nat | i < len :: NatToString(i) != key
    ensures forall i: nat | i < len && NatToString(i) == key :: r == Some(i)
  {
    if len == 0 then None
    else if NatToString(len - 1) == key then
      assert forall i: nat | i < len && NatToString(i) == key :: i == len - 1 by {
        forall i: nat | i < len && NatToString(i) == key ensures i == len - 1 {
          NatToStringInjective(i, len - 1);
        }
      }
      Some(len - 1)
    else ArrayIndex(key, len - 1)
  }

  // ---------------------------------------------------------------------------
  // Property access

  /** `v[key]`: throws the engine's TypeError on null and undefined. Array and
      string elements are reached by index and `length` is their length; other
      built-in properties (methods) are not part of the model. */
  function GetProp(v: Value, key: string): (r: Result<Value, Exception>)
    ensures r.Failure? <==> IsNullish(v)
    ensures r.Failure? ==> r.error == EngineTypeError
    ensures v.Obj? ==> r == Success(Lookup(v.entries, key))
    ensures v.Arr? ==> forall i: nat | i < |v.items| && NatToString(i) == key :: r.Success? && r.value == v.items[i]
  {
    match v
    case Undefined => Failure(EngineTypeError)
    case Null => Failure(EngineTypeError)
    case Obj(es) => Success(Lookup(es, key))
    case Arr(xs) =>
      if key == "length" then Success(Num(|xs|))
      else
        var i := ArrayIndex(key, |xs|);
        if i.Some? then Success(xs[i.value]) else Success(Undefined)
    case Str(s) =>
      if key == "length" then Success(Num(|s|))
      else
        var i := ArrayIndex(key, |s|);
        if i.Some? then Success(Str([s[i.value]])) else Success(Undefined)
    case _ => Success(Undefined)
  }

  /** `v[key]` on an object, read by index, so that the value is seen to be smaller than the object. */
  function Member(json: Value, key: string): (r: Value)
    requires json.Obj?
    ensures r == Lookup(json.entries, key)
    ensures r != Undefined ==> r < json
  {
    var i := IndexOfKey(json.entries, key);
    if i < 0 then Undefined else json.entries[i].1
  }

  /** `key in v`: own keys of objects, indices and `length` of arrays; a TypeError on primitives. */
  function HasProp(v: Value, key: string): (r: Result<bool, Exception>)
    ensures r.Success? <==> v.Obj? || v.Arr?
    ensures v.Obj? ==> r == Success(HasKey(v.entries, key))
  {
    match v
    case Obj(es) => Success(HasKey(es, key))
    case Arr(xs) =>
      Success(key == "length" || ArrayIndex(key, |xs|).Some?)
    case _ => Failure(EngineTypeError)
  }

  /** `Object.entries(v)` (and so `Object.keys(v)`): arrays and strings list their indices. */
  function ObjectEntries(v: Value): (r: Result<Entries, Exception>)
    ensures r.Failure? <==> IsNullish(v)
    ensures v.Obj? ==> r == Success(v.entries)
    ensures v.Arr? ==> r.Success? && Keys(r.value) == seq(|v.items|, i requires 0 <= i < |v.items| => NatToString(i))
  {
    match v
    case Undefined => Failure(EngineTypeError)
    case Null => Failure(EngineTypeError)
    case Obj(es) => Success(es)
    case Arr(xs) => Success(seq(|xs|, i requires 0 <= i < |xs| => (NatToString(i), xs[i])))
    case Str(s) => Success(seq(|s|, i requires 0 <= i < |s| => (NatToString(i), Str([s[i]]))))
    case _ => Success([])
  }

  /** `Object.assign(target, ...sources)` over plain values: every own entry of every
      source is assigned in order, so later sources win; null and undefined sources are skipped. */
  function Assign(target: Entries, sources: seq<Value>): Entries
    decreases |sources|
  {
    if sources == [] then target
    else
      var src := sources[0];
      var es := if IsNullish(src) then [] else ObjectEntries(src).value;
      Assign(AssignEntries(target, es), sources[1..])
  }

  /** The entries `es` assigned one after the other onto `target`. */
  function AssignEntries(target: Entries, es: Entries): Entries
  {
    if es == [] then target
    else
      var last := es[|es| - 1];
      SetKey(AssignEntries(target, es[..|es| - 1]), last.0, last.1)
  }

  /** Assignment never makes a key appear twice. */
  lemma {:induction false} AssignEntriesUnique(target: Entries, es: Entries)
    requires UniqueKeys(target)
    ensures UniqueKeys(AssignEntries(target, es))
  {
    if es != [] {
      var last := es[|es| - 1];
      AssignEntriesUnique(target, es[..|es| - 1]);
      SetKeyFacts(AssignEntries(target, es[..|es| - 1]), last.0, last.1);
    }
  }

  /** After the assignment a key of `es` holds its value in `es` and every other key keeps its old value. */
  lemma {:induction false} AssignEntriesLookup(target: Entries, es: Entries, k: string)
    requires UniqueKeys(es)
    ensures Lookup(AssignEntries(target, es), k) == if HasKey(es, k) then Lookup(es, k) else Lookup(target, k)
  {
    if es != [] {
      var last := es[|es| - 1];
      var init := es[..|es| - 1];
      assert es == init + [last];
      assert UniqueKeys(init);
      AssignEntriesLookup(target, init, k);
      SetKeyFacts(AssignEntries(target, init), last.0, last.1);
      LookupSnoc(init, last, k);
      if k == last.0 {
        forall j | 0 <= j < |init| ensures init[j].0 != k {
          assert es[j] == init[j];
        }
        IndexOfKeyIs(init, k, -1);
      }
    }
  }

  /** Looking up in an object extended by one entry at the end. */
  lemma LookupSnoc(es: Entries, e: (string, Value), k: string)
    ensures HasKey(es + [e], k) <==> HasKey(es, k) || k == e.0
    ensures Lookup(es + [e], k) == if HasKey(es, k) then Lookup(es, k) else if k == e.0 then e.1 else Undefined
  {
    assert Keys(es + [e]) == Keys(es) + [e.0];
    var i := IndexOfKey(es, k);
    if i >= 0 { IndexOfKeyIs(es + [e], k, i); }
    else if k == e.0 { IndexOfKeyIs(es + [e], k, |es|); }
    else { IndexOfKeyIs(es + [e], k, -1); }
  }

  /** The keys after the assignment are the old keys and the keys of `es`. */
  lemma {:induction false} AssignEntriesHasKey(target: Entries, es: Entries, k: string)
    ensures HasKey(AssignEntries(target, es), k) <==> HasKey(target, k) || HasKey(es, k)
  {
    if es != [] {
      var last := es[|es| - 1];
      var init := es[..|es| - 1];
      AssignEntriesHasKey(target, init, k);
      SetKeyFacts(AssignEntries(target, init), last.0, last.1);
      assert es == init + [last];
      LookupSnoc(init, last, k);
    }
  }

  /** Assigning an object's entries onto `{}` copies it: `Object.assign({}, obj)` is a shallow copy. */
  lemma {:induction false} AssignEntriesCopy(es: Entries)
    requires UniqueKeys(es)
    ensures AssignEntries([], es) == es
  {
    if es != [] {
      var last := es[|es| - 1];
      var init := es[..|es| - 1];
      assert UniqueKeys(init);
      AssignEntriesCopy(init);
      assert IndexOfKey(init, last.0) == -1 by {
        IndexOfKeyIs(init, last.0, -1);
      }
      assert es == init + [last];
    }
  }

  /** Assigning one more source assigns its entries onto the result so far. */
  lemma {:induction false} AssignSnoc(target: Entries, sources: seq<Value>, last: Value)
    ensures Assign(target, sources + [last])
            == AssignEntries(Assign(target, sources), if IsNullish(last) then [] else ObjectEntries(last).value)
    decreases |sources|
  {
    if sources == [] {
      assert [] + [last] == [last];
    } else {
      var es := if IsNullish(sources[0]) then [] else ObjectEntries(sources[0]).value;
      assert (sources + [last])[1..] == sources[1..] + [last];
      AssignSnoc(AssignEntries(target, es), sources[1..], last);
    }
  }

  /** A last source `{k: v}` sets `k` to `v` and leaves every other key as the earlier sources made it. */
  lemma AssignLastEntry(target: Entries, sources: seq<Value>, k: string, v: Value)
    ensures Lookup(Assign(target, sources + [Obj([(k, v)])]), k) == v
    ensures forall k' | k' != k :: Lookup(Assign(target, sources + [Obj([(k, v)])]), k') == Lookup(Assign(target, sources), k')
  {
    AssignSnoc(target, sources, Obj([(k, v)]));
    var before := Assign(target, sources);
    assert AssignEntries(before, [(k, v)]) == SetKey(AssignEntries(before, []), k, v);
    SetKeyFacts(before, k, v);
  }

  /** `String(v)`, the conversion `+`, `concat` and template literals apply. */
  function ToJsString(v: Value): string
  {
    match v
    case Undefined => "undefined"
    case Null => "null"
    case Bool(b) => if b then "true" else "false"
    case Num(n) => IntToString(n)
    case Str(s) => s
    case Arr(_) => JoinElements(v, |v.items|)
    case Obj(_) => "[object Object]"
  }

  /** `Array.prototype.join(',')` over the first `n` elements: null and undefined become empty. */
  function JoinElements(arr: Value, n: nat): string
    requires arr.Arr? && n <= |arr.items|
    decreases arr, n
  {
    if n == 0 then ""
    else
      var x := arr.items[n - 1];
      var part := if IsNullish(x) then "" else ToJsString(x);
      if n == 1 then part else JoinElements(arr, n - 1) + "," + part
  }

  /**
   * `xs.map(f)` over the first `k` elements where `f` may throw: elements are
   * visited from the left and the first exception ends the walk.  `f` is given
   * the index as well, as a `map` callback is.
   */
  function MapEach(f: (nat, Value) -> Result<Value, Exception>, xs: seq<Value>, k: nat): (r: Result<seq<Value>, Exception>)
    requires k <= |xs|
    ensures r.Success? ==> |r.value| == k
  {
    if k == 0 then Success([])
    else
      var prev :- MapEach(f, xs, k - 1);
      var y :- f(k - 1, xs[k - 1]);
      Success(prev + [y])
  }

  /** On success, element `i` of the result is `f` applied to element `i`. */
  lemma {:induction false} MapEachAt(f: (nat, Value) -> Result<Value, Exception>, xs: seq<Value>, k: nat, i: nat)
    requires i < k <= |xs| && MapEach(f, xs, k).Success?
    ensures f(i, xs[i]).Success? && MapEach(f, xs, k).value[i] == f(i, xs[i]).value
  {
    if i < k - 1 {
      MapEachAt(f, xs, k - 1, i);
    }
  }

  /** The walk succeeds when no call throws. */
  lemma {:induction false} MapEachSucceeds(f: (nat, Value) -> Result<Value, Exception>, xs: seq<Value>, k: nat)
    requires k <= |xs| && forall i | 0 <= i < k :: f(i, xs[i]).Success?
    ensures MapEach(f, xs, k).Success?
  {
    if k > 0 {
      MapEachSucceeds(f, xs, k - 1);
    }
  }

  /** A failed walk reports the exception of the first call that threw. */
  lemma {:induction false} MapEachFailure(f: (nat, Value) -> Result<Value, Exception>, xs: seq<Value>, k: nat)
    requires k <= |xs| && MapEach(f, xs, k).Failure?
    ensures exists i | 0 <= i < k :: f(i, xs[i]).Failure? && MapEach(f, xs, k).error == f(i, xs[i]).error
                                     && forall j | 0 <= j < i :: f(j, xs[j]).Success?
  {
    if MapEach(f, xs, k - 1).Failure? {
      MapEachFailure(f, xs, k - 1);
    } else {
      forall j | 0 <= j < k - 1 ensures f(j, xs[j]).Success? {
        MapEachAt(f, xs, k - 1, j);
      }
    }
  }

  /** One more successful call appends its value. */
  lemma MapEachSnoc(f: (nat, Value) -> Result<Value, Exception>, xs: seq<Value>, i: nat)
    requires i < |xs| && MapEach(f, xs, i).Success? && f(i, xs[i]).Success?
    ensures MapEach(f, xs, i + 1) == Success(MapEach(f, xs, i).value + [f(i, xs[i]).value])
  {
  }

  /** Once call `i` throws, every longer walk ends with that exception. */
  lemma {:induction false} MapEachFailsAt(f: (nat, Value) -> Result<Value, Exception>, xs: seq<Value>, i: nat, n: nat)
    requires i < n <= |xs| && MapEach(f, xs, i).Success? && f(i, xs[i]).Failure?
    ensures MapEach(f, xs, n) == Failure(f(i, xs[i]).error)
  {
    if n > i + 1 {
      MapEachFailsAt(f, xs, i, n - 1);
    }
  }

  /** Two callbacks that agree on the visited elements walk alike. */
  lemma {:induction false} MapEachAgree(f: (nat, Value) -> Result<Value, Exception>, g: (nat, Value) -> Result<Value, Exception>, xs: seq<Value>, k: nat)
    requires k <= |xs| && forall i | 0 <= i < k :: f(i, xs[i]) == g(i, xs[i])
    ensures MapEach(f, xs, k) == MapEach(g, xs, k)
  {
    if k > 0 {
      MapEachAgree(f, g, xs, k - 1);
    }
  }
}
