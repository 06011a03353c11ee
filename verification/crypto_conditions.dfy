/**
 * The BigchainDB JSON form of crypto-conditions: `ccJsonify` turns a condition or
 * fulfillment object of the crypto-conditions library into `{details, uri}`, and
 * `ccJsonLoad` builds such an object back from `details`.
 *
 * The library's objects are the tree `CcNode`. What the library computes itself
 * (condition URIs, base58, `parseInt`, `Buffer.toString`) is a field of `CcLibrary`.
 */
module CryptoConditions {
  import opened Wrappers
  import opened JsValue

  type Bytes = seq<bv8>

  /** An object of the crypto-conditions library, with the properties `ccJsonify` reads. */
  datatype CcNode =
    | Ed25519Sha256(publicKey: Option<Bytes>)      // type id 4; `publicKey` exists once set
    | PreimageSha256(preimage: Option<Bytes>)      // type id 0; `preimage` exists once set
    | ThresholdSha256(threshold: Value, subconditions: seq<Sub>)  // type id 2
    | Condition(typeId: Value, subtypes: Value, hash: Bytes, maxFulfillmentLength: Value)

  /** An entry of a threshold's `subconditions`: its `body` is a fulfillment or a bare condition. */
  datatype Sub = SubFulfillment(body: CcNode) | SubCondition(body: CcNode)

  /** The library code the codec calls. */
  datatype CcLibrary = CcLibrary(
    getConditionUri: CcNode -> string,          // a fulfillment's condition URI
    serializeUri: CcNode -> string,             // a bare condition's URI
    base58Encode: Bytes -> string,
    base58Decode: Value -> Result<Bytes, Exception>,
    bufferToString: Bytes -> string,            // `buffer.toString()`, UTF-8
    parseInt: Value -> Value)                   // `parseInt(v, 10)`

  /** Fulfillment classes have `getConditionUri`; a bare `Condition` has only `serializeUri`. */
  predicate IsFulfillment(n: CcNode)
  {
    !n.Condition?
  }

  /** `getTypeId()` */
  function TypeId(n: CcNode): Value
  {
    match n
    case Ed25519Sha256(_) => Num(4)
    case PreimageSha256(_) => Num(0)
    case ThresholdSha256(_, _) => Num(2)
    case Condition(t, _, _, _) => t
  }

  /** The `uri` of the JSON form. */
  function UriOf(lib: CcLibrary, n: CcNode): string
  {
    if IsFulfillment(n) then lib.getConditionUri(n) else lib.serializeUri(n)
  }

  /** The `details` member of a `{details, uri}` object. */
  function DetailsOf(json: Value): Value
  {
    if json.Obj? then Lookup(json.entries, "details") else Undefined
  }

  // ---------------------------------------------------------------------------
  // ccJsonify

  /** For type id 0: `type_id` 0 and `bitmask` 3, then `preimage` and type `fulfillment` when there is a preimage. */
  function TypeZeroFields(lib: CcLibrary, n: CcNode, d: Entries): Entries
  {
    if TypeId(n) == Num(0) then
      var t := SetKey(SetKey(d, "type_id", Num(0)), "bitmask", Num(3));
      if n.PreimageSha256? && n.preimage.Some?
      then SetKey(SetKey(t, "preimage", Str(lib.bufferToString(n.preimage.value))), "type", Str("fulfillment"))
      else t
    else d
  }

  /** For type id 4: type `ed25519-sha-256`, then the base58 `public_key` when there is one. */
  function Ed25519Fields(lib: CcLibrary, n: CcNode, d: Entries): Entries
  {
    if TypeId(n) == Num(4) then
      var t := SetKey(d, "type", Str("ed25519-sha-256"));
      if n.Ed25519Sha256? && n.publicKey.Some? then SetKey(t, "public_key", Str(lib.base58Encode(n.publicKey.value))) else t
    else d
  }

  /** For an object with a `hash`: `hash`, `max_fulfillment_length` and type `condition`. */
  function HashFields(lib: CcLibrary, n: CcNode, d: Entries): Entries
  {
    if n.Condition? then
      SetKey(SetKey(SetKey(d, "hash", Str(lib.base58Encode(n.hash))), "max_fulfillment_length", n.maxFulfillmentLength),
             "type", Str("condition"))
    else d
  }

  /** The `details` a node that is not a threshold gets, filled in field by field. */
  function FlatDetails(lib: CcLibrary, n: CcNode): Entries
  {
    HashFields(lib, n, Ed25519Fields(lib, n, TypeZeroFields(lib, n, [])))
  }

  /** `ccJsonify(n)`; a bare condition of type id 2 has no `subconditions` to map over. */
  function JsonifySpec(lib: CcLibrary, n: CcNode): (r: Result<Value, Exception>)
    decreases n
  {
    var uri := Str(UriOf(lib, n));
    if TypeId(n) == Num(2) then
      if n.ThresholdSha256? then
        var subs :- SubDetails(lib, n, |n.subconditions|);
        Success(Obj([("details", ThresholdDetails(n.threshold, subs)), ("uri", uri)]))
      else Failure(EngineTypeError)
    else Success(Obj([("details", Obj(FlatDetails(lib, n))), ("uri", uri)]))
  }

  function ThresholdDetails(threshold: Value, subs: seq<Value>): Value
  {
    Obj([("type", Str("threshold-sha-256")), ("threshold", threshold), ("subconditions", Arr(subs))])
  }

  /** The `details` of the first `k` subconditions' bodies, in order; the first failure wins. */
  function SubDetails(lib: CcLibrary, n: CcNode, k: nat): (r: Result<seq<Value>, Exception>)
    requires n.ThresholdSha256? && k <= |n.subconditions|
    ensures r.Success? ==> |r.value| == k
    decreases n, k
  {
    if k == 0 then Success([])
    else
      var prev :- SubDetails(lib, n, k - 1);
      var json :- JsonifySpec(lib, n.subconditions[k - 1].body);
      Success(prev + [DetailsOf(json)])
  }

  /** `ccJsonify`, as the source writes it: `details` is filled in by a sequence of tests. */
  method Jsonify(lib: CcLibrary, n: CcNode) returns (r: Result<Value, Exception>)
    ensures r == JsonifySpec(lib, n)
    decreases n, 1
  {
    var uri := Str(UriOf(lib, n));
    var details: Entries := [];
    if TypeId(n) == Num(0) {
      details := SetKey(details, "type_id", Num(0));
      details := SetKey(details, "bitmask", Num(3));
      if n.PreimageSha256? && n.preimage.Some? {
        details := SetKey(details, "preimage", Str(lib.bufferToString(n.preimage.value)));
        details := SetKey(details, "type", Str("fulfillment"));
      }
    }
    assert details == TypeZeroFields(lib, n, []);
    if TypeId(n) == Num(2) {
      if !n.ThresholdSha256? {
        return Failure(EngineTypeError);
      }
      var subs := JsonifySubs(lib, n);
      if subs.Failure? {
        return Failure(subs.error);
      }
      return Success(Obj([("details", ThresholdDetails(n.threshold, subs.value)), ("uri", uri)]));
    }
    if TypeId(n) == Num(4) {
      details := SetKey(details, "type", Str("ed25519-sha-256"));
      if n.Ed25519Sha256? && n.publicKey.Some? {
        details := SetKey(details, "public_key", Str(lib.base58Encode(n.publicKey.value)));
      }
    }
    assert details == Ed25519Fields(lib, n, TypeZeroFields(lib, n, []));
    if n.Condition? {
      details := SetKey(details, "hash", Str(lib.base58Encode(n.hash)));
      details := SetKey(details, "max_fulfillment_length", n.maxFulfillmentLength);
      details := SetKey(details, "type", Str("condition"));
    }
    return Success(Obj([("details", Obj(details)), ("uri", uri)]));
  }

  /** The `subconditions.map(...)` of a threshold: each body's details in order, stopping at the first error. */
  method JsonifySubs(lib: CcLibrary, n: CcNode) returns (r: Result<seq<Value>, Exception>)
    requires n.ThresholdSha256?
    ensures r == SubDetails(lib, n, |n.subconditions|)
    decreases n, 0
  {
    var subs: seq<Value> := [];
    var k := 0;
    while k < |n.subconditions|
      invariant 0 <= k <= |n.subconditions|
      invariant SubDetails(lib, n, k) == Success(subs)
    {
      var json := Jsonify(lib, n.subconditions[k].body);
      SubDetailsStep(lib, n, k, subs, json);
      if json.Failure? {
        SubDetailsFailureStays(lib, n, k + 1, |n.subconditions|);
        return Failure(json.error);
      }
      subs := subs + [DetailsOf(json.value)];
      k := k + 1;
    }
    return Success(subs);
  }

  lemma SubDetailsStep(lib: CcLibrary, n: CcNode, k: nat, prev: seq<Value>, json: Result<Value, Exception>)
    requires n.ThresholdSha256? && k < |n.subconditions|
    requires SubDetails(lib, n, k) == Success(prev) && json == JsonifySpec(lib, n.subconditions[k].body)
    ensures SubDetails(lib, n, k + 1) == if json.Failure? then Failure(json.error) else Success(prev + [DetailsOf(json.value)])
  {
  }

  /** Once a prefix of the subconditions fails, every longer prefix fails with the same error. */
  lemma {:induction false} SubDetailsFailureStays(lib: CcLibrary, n: CcNode, k: nat, m: nat)
    requires n.ThresholdSha256? && k <= m <= |n.subconditions|
    requires SubDetails(lib, n, k).Failure?
    ensures SubDetails(lib, n, m) == SubDetails(lib, n, k)
    decreases m - k
  {
    if k < m {
      SubDetailsFailureStays(lib, n, k, m - 1);
    }
  }

  // ---------------------------------------------------------------------------
  // What ccJsonify promises

  /** Every JSON form is `{details, uri}`, and `uri` comes from `getConditionUri` for a fulfillment, else from `serializeUri`. */
  lemma JsonifyShape(lib: CcLibrary, n: CcNode)
    requires JsonifySpec(lib, n).Success?
    ensures JsonifySpec(lib, n).value.Obj?
    ensures Keys(JsonifySpec(lib, n).value.entries) == ["details", "uri"]
    ensures Lookup(JsonifySpec(lib, n).value.entries, "uri")
            == Str(if IsFulfillment(n) then lib.getConditionUri(n) else lib.serializeUri(n))
  {
    var es := JsonifySpec(lib, n).value.entries;
    IndexOfKeyIs(es, "uri", 1);
  }

  /** The details of a node that is not a threshold are `FlatDetails`. */
  lemma JsonifyFlat(lib: CcLibrary, n: CcNode)
    requires TypeId(n) != Num(2)
    ensures JsonifySpec(lib, n).Success?
    ensures DetailsOf(JsonifySpec(lib, n).value) == Obj(FlatDetails(lib, n))
  {
    IndexOfKeyIs(JsonifySpec(lib, n).value.entries, "details", 0);
  }

  /** An Ed25519 fulfillment's details are exactly its type and, once set, its base58 public key: no signature. */
  lemma FlatDetailsEd25519(lib: CcLibrary, key: Option<Bytes>)
    ensures FlatDetails(lib, Ed25519Sha256(key))
            == if key.Some? then [("type", Str("ed25519-sha-256")), ("public_key", Str(lib.base58Encode(key.value)))]
               else [("type", Str("ed25519-sha-256"))]
  {
    SetKeyNew([], "type", Str("ed25519-sha-256"));
    if key.Some? {
      SetKeyNew([("type", Str("ed25519-sha-256"))], "public_key", Str(lib.base58Encode(key.value)));
    }
  }

  /** A preimage fulfillment gets `type_id` 0 and `bitmask` 3, and `preimage` and type `fulfillment` only with a preimage. */
  lemma FlatDetailsPreimage(lib: CcLibrary, preimage: Option<Bytes>)
    ensures FlatDetails(lib, PreimageSha256(preimage))
            == [("type_id", Num(0)), ("bitmask", Num(3))]
               + if preimage.Some? then [("preimage", Str(lib.bufferToString(preimage.value))), ("type", Str("fulfillment"))]
                 else []
  {
    var d0: Entries := [];
    SetKeyNew(d0, "type_id", Num(0));
    var d1 := [("type_id", Num(0))];
    SetKeyNew(d1, "bitmask", Num(3));
    var d2 := d1 + [("bitmask", Num(3))];
    if preimage.Some? {
      var p := Str(lib.bufferToString(preimage.value));
      SetKeyNew(d2, "preimage", p);
      SetKeyNew(d2 + [("preimage", p)], "type", Str("fulfillment"));
    }
  }

  /** A bare condition with type id 0 keeps `type_id` and `bitmask` first and ends with type `condition`. */
  lemma FlatDetailsConditionZero(lib: CcLibrary, n: CcNode)
    requires n.Condition? && n.typeId == Num(0)
    ensures FlatDetails(lib, n)
            == [("type_id", Num(0)), ("bitmask", Num(3)), ("hash", Str(lib.base58Encode(n.hash))),
                ("max_fulfillment_length", n.maxFulfillmentLength), ("type", Str("condition"))]
  {
    var h := Str(lib.base58Encode(n.hash));
    var m := n.maxFulfillmentLength;
    SetKeyNew([], "type_id", Num(0));
    var d1 := [("type_id", Num(0))];
    SetKeyNew(d1, "bitmask", Num(3));
    var d2 := d1 + [("bitmask", Num(3))];
    assert TypeZeroFields(lib, n, []) == d2;
    SetKeyNew(d2, "hash", h);
    SetKeyNew(d2 + [("hash", h)], "max_fulfillment_length", m);
    SetKeyNew(d2 + [("hash", h), ("max_fulfillment_length", m)], "type", Str("condition"));
  }

  /**
   * A bare condition with type id 4 first gets type `ed25519-sha-256`, which the
   * condition branch then overwrites in place: `type` stays the first key.
   */
  lemma FlatDetailsConditionEd25519(lib: CcLibrary, n: CcNode)
    requires n.Condition? && n.typeId == Num(4)
    ensures FlatDetails(lib, n)
            == [("type", Str("condition")), ("hash", Str(lib.base58Encode(n.hash))),
                ("max_fulfillment_length", n.maxFulfillmentLength)]
  {
    var h := Str(lib.base58Encode(n.hash));
    var m := n.maxFulfillmentLength;
    var t := Str("ed25519-sha-256");
    SetKeyNew([], "type", t);
    assert Ed25519Fields(lib, n, TypeZeroFields(lib, n, [])) == [("type", t)];
    SetKeyNew([("type", t)], "hash", h);
    SetKeyNew([("type", t), ("hash", h)], "max_fulfillment_length", m);
    SetKeyExisting([("type", t), ("hash", h), ("max_fulfillment_length", m)], "type", Str("condition"), 0);
  }

  /** Any other bare condition has exactly `hash`, `max_fulfillment_length` and type `condition`. */
  lemma FlatDetailsConditionOther(lib: CcLibrary, n: CcNode)
    requires n.Condition? && n.typeId != Num(0) && n.typeId != Num(4)
    ensures FlatDetails(lib, n)
            == [("hash", Str(lib.base58Encode(n.hash))), ("max_fulfillment_length", n.maxFulfillmentLength),
                ("type", Str("condition"))]
  {
    var h := Str(lib.base58Encode(n.hash));
    var m := n.maxFulfillmentLength;
    assert Ed25519Fields(lib, n, TypeZeroFields(lib, n, [])) == [];
    SetKeyNew([], "hash", h);
    SetKeyNew([("hash", h)], "max_fulfillment_length", m);
    SetKeyNew([("hash", h), ("max_fulfillment_length", m)], "type", Str("condition"));
  }

  /** A threshold's details are its type, its threshold and the details of its subconditions' bodies, in order. */
  lemma JsonifyThreshold(lib: CcLibrary, n: CcNode)
    requires n.ThresholdSha256? && JsonifySpec(lib, n).Success?
    ensures var d := DetailsOf(JsonifySpec(lib, n).value);
            d.Obj? && Keys(d.entries) == ["type", "threshold", "subconditions"]
            && Lookup(d.entries, "type") == Str("threshold-sha-256")
            && Lookup(d.entries, "threshold") == n.threshold
            && var subs := Lookup(d.entries, "subconditions");
               subs.Arr? && |subs.items| == |n.subconditions|
               && forall i | 0 <= i < |n.subconditions| ::
                    JsonifySpec(lib, n.subconditions[i].body).Success?
                    && subs.items[i] == DetailsOf(JsonifySpec(lib, n.subconditions[i].body).value)
  {
    var subs := SubDetails(lib, n, |n.subconditions|).value;
    forall i | 0 <= i < |n.subconditions|
      ensures JsonifySpec(lib, n.subconditions[i].body).Success?
      ensures subs[i] == DetailsOf(JsonifySpec(lib, n.subconditions[i].body).value)
    {
      SubDetailsAt(lib, n, |n.subconditions|, i);
    }
    IndexOfKeyIs(JsonifySpec(lib, n).value.entries, "details", 0);
    assert DetailsOf(JsonifySpec(lib, n).value) == ThresholdDetails(n.threshold, subs);
    ThresholdDetailsFields(n.threshold, subs);
  }

  lemma ThresholdDetailsFields(threshold: Value, subs: seq<Value>)
    ensures var d := ThresholdDetails(threshold, subs).entries;
            Keys(d) == ["type", "threshold", "subconditions"]
            && Lookup(d, "type") == Str("threshold-sha-256")
            && Lookup(d, "threshold") == threshold
            && Lookup(d, "subconditions") == Arr(subs)
  {
    var d := ThresholdDetails(threshold, subs).entries;
    IndexOfKeyIs(d, "type", 0);
    IndexOfKeyIs(d, "threshold", 1);
    IndexOfKeyIs(d, "subconditions", 2);
  }

  lemma {:induction false} SubDetailsAt(lib: CcLibrary, n: CcNode, k: nat, i: nat)
    requires n.ThresholdSha256? && i < k <= |n.subconditions| && SubDetails(lib, n, k).Success?
    ensures JsonifySpec(lib, n.subconditions[i].body).Success?
    ensures SubDetails(lib, n, k).value[i] == DetailsOf(JsonifySpec(lib, n.subconditions[i].body).value)
  {
    if i < k - 1 {
      SubDetailsAt(lib, n, k - 1, i);
    }
  }

  /** `ccJsonify` raises a TypeError exactly when it meets a bare condition of type id 2. */
  lemma JsonifyFailsOnlyOnConditionTwo(lib: CcLibrary, n: CcNode)
    requires !n.ThresholdSha256?
    ensures JsonifySpec(lib, n).Failure? <==> n.Condition? && n.typeId == Num(2)
  {
  }

  // ---------------------------------------------------------------------------
  // ccJsonLoad

  /** `ccJsonLoad(json)`; `Success(None)` is the `undefined` it returns for a type it does not know. */
  function LoadSpec(lib: CcLibrary, json: Value): (r: Result<Option<CcNode>, Exception>)
    decreases json
  {
    var hasHash :- HasProp(json, "hash");
    if hasHash then
      var hash :- lib.base58Decode(GetProp(json, "hash").value);
      Success(Some(Condition(GetProp(json, "type_id").value, GetProp(json, "bitmask").value, hash,
                             lib.parseInt(GetProp(json, "max_fulfillment_length").value))))
    else if json.Obj? && Member(json, "type") == Str("threshold-sha-256") then
      var subs := Member(json, "subconditions");
      if !subs.Arr? then Failure(EngineTypeError)
      else
        var children :- LoadSubs(lib, subs, |subs.items|);
        Success(Some(ThresholdSha256(Member(json, "threshold"), children)))
    else if json.Obj? && Member(json, "type") == Str("ed25519-sha-256") then
      var key :- lib.base58Decode(Member(json, "public_key"));
      Success(Some(Ed25519Sha256(Some(key))))
    else Success(None)
  }

  /** Loads the first `k` entries of `subconditions`, in order; an `undefined` child makes the `in` test throw. */
  function LoadSubs(lib: CcLibrary, subs: Value, k: nat): (r: Result<seq<Sub>, Exception>)
    requires subs.Arr? && k <= |subs.items|
    ensures r.Success? ==> |r.value| == k
    decreases subs, k
  {
    if k == 0 then Success([])
    else
      var prev :- LoadSubs(lib, subs, k - 1);
      var child :- LoadSpec(lib, subs.items[k - 1]);
      if child.None? then Failure(EngineTypeError)
      else Success(prev + [AddSub(child.value)])
  }

  /** `addSubfulfillment` for a fulfillment, `addSubcondition` for a bare condition. */
  function AddSub(n: CcNode): (s: Sub)
    ensures s.body == n
    ensures s.SubFulfillment? <==> IsFulfillment(n)
  {
    if IsFulfillment(n) then SubFulfillment(n) else SubCondition(n)
  }

  lemma {:induction false} LoadSubsFailureStays(lib: CcLibrary, subs: Value, k: nat, m: nat)
    requires subs.Arr? && k <= m <= |subs.items|
    requires LoadSubs(lib, subs, k).Failure?
    ensures LoadSubs(lib, subs, m) == LoadSubs(lib, subs, k)
    decreases m - k
  {
    if k < m {
      LoadSubsFailureStays(lib, subs, k, m - 1);
    }
  }

  /** `ccJsonLoad`, as the source writes it: the threshold's children are added one by one. */
  method Load(lib: CcLibrary, json: Value) returns (r: Result<Option<CcNode>, Exception>)
    ensures r == LoadSpec(lib, json)
    decreases json
  {
    var hasHash := HasProp(json, "hash");
    if hasHash.Failure? {
      return Failure(hasHash.error);
    }
    if hasHash.value {
      var hash := lib.base58Decode(GetProp(json, "hash").value);
      if hash.Failure? {
        return Failure(hash.error);
      }
      var condition := Condition(GetProp(json, "type_id").value, GetProp(json, "bitmask").value, hash.value,
                                 lib.parseInt(GetProp(json, "max_fulfillment_length").value));
      return Success(Some(condition));
    }
    var fulfillment: Option<CcNode> := None;
    if json.Obj? && Member(json, "type") == Str("threshold-sha-256") {
      var threshold := Member(json, "threshold");
      var subs := Member(json, "subconditions");
      if !subs.Arr? {
        return Failure(EngineTypeError);
      }
      var children: seq<Sub> := [];
      var k := 0;
      while k < |subs.items|
        invariant 0 <= k <= |subs.items|
        invariant LoadSubs(lib, subs, k) == Success(children)
      {
        var child := Load(lib, subs.items[k]);
        if child.Failure? || child.value.None? {
          LoadSubsFailureStays(lib, subs, k + 1, |subs.items|);
          return if child.Failure? then Failure(child.error) else Failure(EngineTypeError);
        }
        children := children + [AddSub(child.value.value)];
        k := k + 1;
      }
      fulfillment := Some(ThresholdSha256(threshold, children));
    }
    if json.Obj? && Member(json, "type") == Str("ed25519-sha-256") {
      var key := lib.base58Decode(Member(json, "public_key"));
      if key.Failure? {
        return Failure(key.error);
      }
      fulfillment := Some(Ed25519Sha256(Some(key.value)));
    }
    return Success(fulfillment);
  }

  // ---------------------------------------------------------------------------
  // What ccJsonLoad promises

  /** JSON with a `hash` key loads as a bare condition, whatever its `type`. */
  lemma LoadHash(lib: CcLibrary, json: Value, hash: Bytes)
    requires json.Obj? && HasKey(json.entries, "hash")
    requires lib.base58Decode(Lookup(json.entries, "hash")) == Success(hash)
    ensures LoadSpec(lib, json) == Success(Some(Condition(
              Lookup(json.entries, "type_id"), Lookup(json.entries, "bitmask"), hash,
              lib.parseInt(Lookup(json.entries, "max_fulfillment_length")))))
  {
  }

  /** Ed25519 JSON without a `hash` loads with the decoded public key. */
  lemma LoadEd25519(lib: CcLibrary, json: Value, key: Bytes)
    requires json.Obj? && !HasKey(json.entries, "hash")
    requires Lookup(json.entries, "type") == Str("ed25519-sha-256")
    requires lib.base58Decode(Lookup(json.entries, "public_key")) == Success(key)
    ensures LoadSpec(lib, json) == Success(Some(Ed25519Sha256(Some(key))))
  {
  }

  /** Any other type without a `hash` loads as `undefined` and raises nothing. */
  lemma LoadUnknown(lib: CcLibrary, json: Value)
    requires json.Obj? && !HasKey(json.entries, "hash")
    requires Lookup(json.entries, "type") != Str("ed25519-sha-256")
    requires Lookup(json.entries, "type") != Str("threshold-sha-256")
    ensures LoadSpec(lib, json) == Success(None)
  {
  }

  /**
   * Threshold JSON loads to a threshold with the same `threshold` and one child per
   * entry of `subconditions`, in order, each loaded recursively and added as a
   * subfulfillment or a subcondition according to its kind.
   */
  lemma LoadThreshold(lib: CcLibrary, json: Value)
    requires json.Obj? && !HasKey(json.entries, "hash")
    requires Lookup(json.entries, "type") == Str("threshold-sha-256")
    requires LoadSpec(lib, json).Success?
    ensures var subs := Lookup(json.entries, "subconditions");
            var r := LoadSpec(lib, json).value;
            subs.Arr? && r.Some? && r.value.ThresholdSha256?
            && r.value.threshold == Lookup(json.entries, "threshold")
            && |r.value.subconditions| == |subs.items|
            && forall i | 0 <= i < |subs.items| ::
                 LoadSpec(lib, subs.items[i]).Success? && LoadSpec(lib, subs.items[i]).value.Some?
                 && r.value.subconditions[i] == AddSub(LoadSpec(lib, subs.items[i]).value.value)
  {
    var subs := Member(json, "subconditions");
    forall i | 0 <= i < |subs.items|
      ensures LoadSpec(lib, subs.items[i]).Success? && LoadSpec(lib, subs.items[i]).value.Some?
      ensures LoadSubs(lib, subs, |subs.items|).value[i] == AddSub(LoadSpec(lib, subs.items[i]).value.value)
    {
      LoadSubsAt(lib, subs, |subs.items|, i);
    }
  }

  lemma {:induction false} LoadSubsAt(lib: CcLibrary, subs: Value, k: nat, i: nat)
    requires subs.Arr? && i < k <= |subs.items| && LoadSubs(lib, subs, k).Success?
    ensures LoadSpec(lib, subs.items[i]).Success? && LoadSpec(lib, subs.items[i]).value.Some?
    ensures LoadSubs(lib, subs, k).value[i] == AddSub(LoadSpec(lib, subs.items[i]).value.value)
  {
    if i < k - 1 {
      LoadSubsAt(lib, subs, k - 1, i);
    }
  }

  lemma {:induction false} LoadSubsAllSucceed(lib: CcLibrary, subs: Value, k: nat)
    requires subs.Arr? && k <= |subs.items|
    requires forall i | 0 <= i < k :: LoadSpec(lib, subs.items[i]).Success? && LoadSpec(lib, subs.items[i]).value.Some?
    ensures LoadSubs(lib, subs, k).Success?
  {
    if k > 0 {
      LoadSubsAllSucceed(lib, subs, k - 1);
    }
  }

  /** A threshold child that loads as `undefined` makes the whole load throw a TypeError. */
  lemma {:induction false} LoadThresholdUnknownChild(lib: CcLibrary, json: Value, i: nat)
    requires json.Obj? && !HasKey(json.entries, "hash")
    requires Lookup(json.entries, "type") == Str("threshold-sha-256")
    requires Lookup(json.entries, "subconditions").Arr?
    requires i < |Lookup(json.entries, "subconditions").items|
    requires LoadSubs(lib, Lookup(json.entries, "subconditions"), i).Success?
    requires LoadSpec(lib, Lookup(json.entries, "subconditions").items[i]) == Success(None)
    ensures LoadSpec(lib, json) == Failure(EngineTypeError)
  {
    var subs := Member(json, "subconditions");
    LoadSubsFailureStays(lib, subs, i + 1, |subs.items|);
  }

  // ---------------------------------------------------------------------------
  // Round trip

  /** base58 encoding undoes decoding. */
  ghost predicate EncodeUndoesDecode(lib: CcLibrary)
  {
    forall v, b | lib.base58Decode(v) == Success(b) :: Str(lib.base58Encode(b)) == v
  }

  /** Ed25519 and threshold JSON without hashes, whose public keys decode. */
  predicate EdThresholdJson(lib: CcLibrary, json: Value)
    decreases json
  {
    json.Obj? && !HasKey(json.entries, "hash")
    && ((Member(json, "type") == Str("ed25519-sha-256") && lib.base58Decode(Member(json, "public_key")).Success?)
        || (Member(json, "type") == Str("threshold-sha-256") && Member(json, "subconditions").Arr?
            && forall i | 0 <= i < |Member(json, "subconditions").items| ::
                 EdThresholdJson(lib, Member(json, "subconditions").items[i])))
  }

  /** `d` reproduces the `type`, `public_key`, `threshold` and `subconditions` of `json`. */
  predicate SameDetails(d: Value, json: Value)
    decreases json
  {
    d.Obj? && json.Obj?
    && Lookup(d.entries, "type") == Member(json, "type")
    && (Member(json, "type") == Str("ed25519-sha-256") ==>
          Lookup(d.entries, "public_key") == Member(json, "public_key"))
    && (Member(json, "type") == Str("threshold-sha-256") ==>
          var ds := Lookup(d.entries, "subconditions");
          var js := Member(json, "subconditions");
          Lookup(d.entries, "threshold") == Member(json, "threshold")
          && ds.Arr? && js.Arr? && |ds.items| == |js.items|
          && forall i | 0 <= i < |js.items| :: SameDetails(ds.items[i], js.items[i]))
  }

  /** `json` loads to a fulfillment whose JSON form reproduces `json`'s details. */
  ghost predicate Reproduces(lib: CcLibrary, json: Value)
  {
    var loaded := LoadSpec(lib, json);
    loaded.Success? && loaded.value.Some? && IsFulfillment(loaded.value.value)
    && JsonifySpec(lib, loaded.value.value).Success?
    && SameDetails(DetailsOf(JsonifySpec(lib, loaded.value.value).value), json)
  }

  /**
   * Loading Ed25519/threshold JSON and encoding the result again gives back its
   * `type`, `public_key`, `threshold` and `subconditions`, when base58 encoding
   * undoes decoding.
   */
  lemma {:induction false} RoundTrip(lib: CcLibrary, json: Value)
    requires EncodeUndoesDecode(lib) && EdThresholdJson(lib, json)
    ensures Reproduces(lib, json)
    decreases json
  {
    if Member(json, "type") == Str("ed25519-sha-256") {
      var key := lib.base58Decode(Member(json, "public_key")).value;
      LoadEd25519(lib, json, key);
      JsonifyFlat(lib, Ed25519Sha256(Some(key)));
      FlatDetailsEd25519(lib, Some(key));
      var d := FlatDetails(lib, Ed25519Sha256(Some(key)));
      IndexOfKeyIs(d, "type", 0);
      IndexOfKeyIs(d, "public_key", 1);
    } else {
      var subs := Member(json, "subconditions");
      forall i | 0 <= i < |subs.items| ensures Reproduces(lib, subs.items[i]) {
        RoundTrip(lib, subs.items[i]);
      }
      RoundTripThreshold(lib, json);
    }
  }

  /** The threshold step of the round trip, once every child is known to round-trip. */
  lemma RoundTripThreshold(lib: CcLibrary, json: Value)
    requires json.Obj? && !HasKey(json.entries, "hash")
    requires Member(json, "type") == Str("threshold-sha-256") && Member(json, "subconditions").Arr?
    requires forall i | 0 <= i < |Member(json, "subconditions").items| :: Reproduces(lib, Member(json, "subconditions").items[i])
    ensures Reproduces(lib, json)
  {
    var subs := Member(json, "subconditions");
    LoadSubsAllSucceed(lib, subs, |subs.items|);
    var children := LoadSubs(lib, subs, |subs.items|).value;
    var n := ThresholdSha256(Member(json, "threshold"), children);
    assert LoadSpec(lib, json) == Success(Some(n));
    forall i | 0 <= i < |children|
      ensures children[i] == AddSub(LoadSpec(lib, subs.items[i]).value.value)
    {
      LoadSubsAt(lib, subs, |subs.items|, i);
    }
    SubDetailsAllSucceed(lib, n, |children|);
    JsonifyThreshold(lib, n);
  }

  lemma {:induction false} SubDetailsAllSucceed(lib: CcLibrary, n: CcNode, k: nat)
    requires n.ThresholdSha256? && k <= |n.subconditions|
    requires forall i | 0 <= i < k :: JsonifySpec(lib, n.subconditions[i].body).Success?
    ensures SubDetails(lib, n, k).Success?
  {
    if k > 0 {
      SubDetailsAllSucceed(lib, n, k - 1);
    }
  }
}
