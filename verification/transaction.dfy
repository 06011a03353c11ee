/**
 * Building, serialising and signing BigchainDB transactions (`Transaction` in
 * src/transaction.js). Transactions are plain JSON objects, so they are `Value`s.
 *
 * `clone` is the identity on values; SHA3-256, base58 and Ed25519 signing are
 * fields of `TxLibrary`.
 */
module Transaction {
  import opened Wrappers
  import opened JsValue
  import opened CanonicalJson
  import opened CryptoConditions

  /** The library code transactions are built with. */
  datatype TxLibrary = TxLibrary(
    cc: CcLibrary,                                   // crypto-conditions and base58
    sha3Hex: string -> string,                       // `sha256Hash`: SHA3-256 of the UTF-8 text, as hex
    utf8Encode: string -> Bytes,                     // `Buffer.from(s)`
    signUri: (string, Bytes) -> Result<string, Exception>)
      // Ed25519-sign the bytes of a hex hash with a private key and serialise the fulfillment's URI

  /** A parameter with a default: the default replaces `undefined`. */
  function Default(v: Value, d: Value): (r: Value)
    ensures v != Undefined ==> r == v
    ensures v == Undefined ==> r == d
  {
    if v == Undefined then d else v
  }

  // ---------------------------------------------------------------------------
  // makeOutput: the public keys of a condition

  /** No value occurs twice. */
  predicate NoRepeats(s: seq<Value>)
  {
    forall i, j | 0 <= i < j < |s| :: s[i] != s[j]
  }

  /** The index of the first occurrence of `x` in `s`. */
  function FirstIndex(s: seq<Value>, x: Value): (i: nat)
    requires x in s
    ensures i < |s| && s[i] == x && x !in s[..i]
  {
    if s[0] == x then 0 else 1 + FirstIndex(s[1..], x)
  }

  /** Pushes each element of `xs` onto `acc` unless `acc` already `includes` it. */
  function Include(acc: seq<Value>, xs: seq<Value>): seq<Value>
  {
    if |xs| == 0 then acc
    else
      var prev := Include(acc, xs[..|xs| - 1]);
      var x := xs[|xs| - 1];
      if x in prev then prev else prev + [x]
  }

  /** The `public_key`s of the Ed25519 details reachable through threshold `subconditions`, in walk order, repeats included. */
  function EdKeys(details: Value): seq<Value>
    decreases details, 1
  {
    if details.Obj? then
      if Member(details, "type") == Str("ed25519-sha-256") then [Member(details, "public_key")]
      else if Member(details, "type") == Str("threshold-sha-256") && Member(details, "subconditions").Arr? then
        EdKeysItems(Member(details, "subconditions"), |Member(details, "subconditions").items|)
      else []
    else []
  }

  function EdKeysItems(subs: Value, k: nat): seq<Value>
    requires subs.Arr? && k <= |subs.items|
    decreases subs, 0, k
  {
    if k == 0 then [] else EdKeysItems(subs, k - 1) + EdKeys(subs.items[k - 1])
  }

  /** Details `getPublicKeys` walks without throwing: never null, and a threshold's `subconditions` is an array of such. */
  predicate Walkable(details: Value)
    decreases details
  {
    !IsNullish(details)
    && (details.Obj? && Member(details, "type") == Str("threshold-sha-256") ==>
          Member(details, "subconditions").Arr?
          && forall i | 0 <= i < |Member(details, "subconditions").items| ::
               Walkable(Member(details, "subconditions").items[i]))
  }

  /** `getPublicKeys(details)` with `publicKeys` holding `acc`; an array or primitive has no `type`. */
  function CollectKeys(details: Value, acc: seq<Value>): Result<seq<Value>, Exception>
    decreases details, 1
  {
    match details
    case Undefined => Failure(EngineTypeError)
    case Null => Failure(EngineTypeError)
    case Obj(_) =>
      if Member(details, "type") == Str("ed25519-sha-256") then
        var key := Member(details, "public_key");
        Success(if key in acc then acc else acc + [key])
      else if Member(details, "type") == Str("threshold-sha-256") then
        var subs := Member(details, "subconditions");
        if subs.Arr? then CollectKeysItems(subs, |subs.items|, acc) else Failure(EngineTypeError)
      else Success(acc)
    case _ => Success(acc)
  }

  /** `subconditions.map(getPublicKeys)` over the first `k` entries. */
  function CollectKeysItems(subs: Value, k: nat, acc: seq<Value>): Result<seq<Value>, Exception>
    requires subs.Arr? && k <= |subs.items|
    decreases subs, 0, k
  {
    if k == 0 then Success(acc)
    else
      var prev :- CollectKeysItems(subs, k - 1, acc);
      CollectKeys(subs.items[k - 1], prev)
  }

  /** A primitive or an array has no `type` property, so `getPublicKeys` passes over it. */
  lemma NoTypeOutsideObjects(v: Value)
    requires !v.Obj? && !IsNullish(v)
    ensures GetProp(v, "type") == Success(Undefined)
  {
    if v.Arr? || v.Str? {
      var len := if v.Arr? then |v.items| else |v.s|;
      forall i: nat | i < len ensures NatToString(i) != "type" {
        assert '0' <= NatToString(i)[0] <= '9';
      }
    }
  }

  lemma {:induction false} CollectKeysItemsFailureStays(subs: Value, k: nat, m: nat, acc: seq<Value>)
    requires subs.Arr? && k <= m <= |subs.items|
    requires CollectKeysItems(subs, k, acc).Failure?
    ensures CollectKeysItems(subs, m, acc) == CollectKeysItems(subs, k, acc)
    decreases m - k
  {
    if k < m {
      CollectKeysItemsFailureStays(subs, k, m - 1, acc);
    }
  }

  lemma CollectKeysItemsStep(subs: Value, k: nat, acc: seq<Value>, prev: seq<Value>)
    requires subs.Arr? && k < |subs.items| && CollectKeysItems(subs, k, acc) == Success(prev)
    ensures CollectKeysItems(subs, k + 1, acc) == CollectKeys(subs.items[k], prev)
  {
  }

  /** `getPublicKeys`, as the source writes it: a recursive walk that pushes into the accumulator. */
  method GetPublicKeys(details: Value, publicKeys: seq<Value>) returns (r: Result<seq<Value>, Exception>)
    ensures r == CollectKeys(details, publicKeys)
    decreases details, 1
  {
    if IsNullish(details) {
      return Failure(EngineTypeError);
    }
    if !details.Obj? {
      return Success(publicKeys);
    }
    var acc := publicKeys;
    if Member(details, "type") == Str("ed25519-sha-256") {
      var key := Member(details, "public_key");
      if key !in acc {
        acc := acc + [key];
      }
    } else if Member(details, "type") == Str("threshold-sha-256") {
      var subs := Member(details, "subconditions");
      if !subs.Arr? {
        return Failure(EngineTypeError);
      }
      var k := 0;
      while k < |subs.items|
        invariant 0 <= k <= |subs.items|
        invariant CollectKeysItems(subs, k, publicKeys) == Success(acc)
      {
        var next := GetPublicKeys(subs.items[k], acc);
        CollectKeysItemsStep(subs, k, publicKeys, acc);
        if next.Failure? {
          CollectKeysItemsFailureStays(subs, k + 1, |subs.items|, publicKeys);
          return next;
        }
        acc := next.value;
        k := k + 1;
      }
    }
    return Success(acc);
  }

  // What getPublicKeys computes

  lemma {:induction false} IncludeAppend(acc: seq<Value>, xs: seq<Value>, ys: seq<Value>)
    ensures Include(acc, xs + ys) == Include(Include(acc, xs), ys)
    decreases |ys|
  {
    if |ys| > 0 {
      var zs := xs + ys;
      assert zs[..|zs| - 1] == xs + ys[..|ys| - 1];
      assert zs[|zs| - 1] == ys[|ys| - 1];
      IncludeAppend(acc, xs, ys[..|ys| - 1]);
    } else {
      assert xs + ys == xs;
    }
  }

  /** Every one of the first `k` subconditions is walkable. */
  predicate WalkableUpTo(subs: Value, k: nat)
    requires subs.Arr? && k <= |subs.items|
  {
    forall i | 0 <= i < k :: Walkable(subs.items[i])
  }

  /**
   * Walking details pushes their Ed25519 keys in walk order, skipping those
   * already present; it throws exactly when the details are not walkable.
   */
  lemma {:induction false} CollectKeysIsInclude(details: Value, acc: seq<Value>)
    ensures CollectKeys(details, acc)
            == if Walkable(details) then Success(Include(acc, EdKeys(details))) else Failure(EngineTypeError)
    decreases details, 1
  {
    if details.Obj? && Member(details, "type") == Str("ed25519-sha-256") {
      var key := Member(details, "public_key");
      assert [key][..0] == [];
      assert Include(acc, [key]) == if key in acc then acc else acc + [key];
    } else if details.Obj? && Member(details, "type") == Str("threshold-sha-256") && Member(details, "subconditions").Arr? {
      var subs := Member(details, "subconditions");
      CollectKeysItemsIsInclude(subs, |subs.items|, acc);
    }
  }

  lemma {:induction false} CollectKeysItemsIsInclude(subs: Value, k: nat, acc: seq<Value>)
    requires subs.Arr? && k <= |subs.items|
    ensures CollectKeysItems(subs, k, acc)
            == if WalkableUpTo(subs, k) then Success(Include(acc, EdKeysItems(subs, k))) else Failure(EngineTypeError)
    decreases subs, 0, k
  {
    if k > 0 {
      CollectKeysItemsIsInclude(subs, k - 1, acc);
      assert WalkableUpTo(subs, k) <==> WalkableUpTo(subs, k - 1) && Walkable(subs.items[k - 1]);
      if WalkableUpTo(subs, k - 1) {
        var prev := Include(acc, EdKeysItems(subs, k - 1));
        CollectKeysIsInclude(subs.items[k - 1], prev);
        IncludeAppend(acc, EdKeysItems(subs, k - 1), EdKeys(subs.items[k - 1]));
      }
    }
  }

  /** `includes` before `push` keeps every key once, and keeps what was already there in front. */
  lemma {:induction false} IncludeFacts(acc: seq<Value>, xs: seq<Value>)
    ensures forall x :: x in Include(acc, xs) <==> x in acc || x in xs
    ensures NoRepeats(acc) ==> NoRepeats(Include(acc, xs))
    ensures |Include(acc, xs)| >= |acc| && Include(acc, xs)[..|acc|] == acc
    decreases |xs|
  {
    if |xs| > 0 {
      var init := xs[..|xs| - 1];
      IncludeFacts(acc, init);
      assert xs == init + [xs[|xs| - 1]];
    }
  }

  /** Starting from no keys, the keys come out in the order of their first occurrence in the walk. */
  lemma {:induction false} IncludeFirstSeenOrder(xs: seq<Value>)
    ensures forall x | x in Include([], xs) :: x in xs
    ensures var r := Include([], xs);
            forall i, j | 0 <= i < j < |r| :: FirstIndex(xs, r[i]) < FirstIndex(xs, r[j])
    decreases |xs|
  {
    var r := Include([], xs);
    IncludeFacts([], xs);
    if |xs| > 0 {
      var init := xs[..|xs| - 1];
      var x := xs[|xs| - 1];
      IncludeFirstSeenOrder(init);
      IncludeFacts([], init);
      var prev := Include([], init);
      assert xs == init + [x];
      forall i, j | 0 <= i < j < |r| ensures FirstIndex(xs, r[i]) < FirstIndex(xs, r[j]) {
        assert r[i] == prev[i] && prev[i] in init;
        FirstIndexPrefix(init, x, prev[i]);
        if j < |prev| {
          assert r[j] == prev[j] && prev[j] in init;
          FirstIndexPrefix(init, x, prev[j]);
        } else {
          assert r[j] == x && x !in init;
          FirstIndexPrefix(init, x, x);
        }
      }
    }
  }

  lemma FirstIndexPrefix(init: seq<Value>, x: Value, y: Value)
    requires y in init + [x]
    ensures y in init ==> FirstIndex(init + [x], y) == FirstIndex(init, y)
    ensures y !in init ==> FirstIndex(init + [x], y) == |init|
  {
    var i := FirstIndex(init + [x], y);
    if y in init {
      var j := FirstIndex(init, y);
      assert (init + [x])[j] == y;
      assert (init + [x])[..i] == init[..i] || i == |init|;
    } else {
      assert forall k | 0 <= k < |init| :: (init + [x])[k] != y;
    }
  }

  // ---------------------------------------------------------------------------
  // makeOutput

  /** `makeOutput(condition, amount)`, with `amount` defaulting to `'1'`. */
  function OutputSpec(condition: Value, amount: Value): Result<Value, Exception>
  {
    var amt := Default(amount, Str("1"));
    if !amt.Str? then Failure(TypeError("`amount` must be of type string"))
    else
      var details :- GetProp(condition, "details");
      var keys :- CollectKeys(details, []);
      Success(Obj([("condition", condition), ("amount", amt), ("public_keys", Arr(keys))]))
  }

  /** `makeOutput`, as the source writes it. */
  method MakeOutput(condition: Value, amount: Value) returns (r: Result<Value, Exception>)
    ensures r == OutputSpec(condition, amount)
  {
    var amt := if amount == Undefined then Str("1") else amount;
    if !amt.Str? {
      return Failure(TypeError("`amount` must be of type string"));
    }
    var details := GetProp(condition, "details");
    if details.Failure? {
      return Failure(details.error);
    }
    var publicKeys := GetPublicKeys(details.value, []);
    if publicKeys.Failure? {
      return Failure(publicKeys.error);
    }
    return Success(Obj([("condition", condition), ("amount", amt), ("public_keys", Arr(publicKeys.value))]));
  }

  /** An `amount` given and not a string is a TypeError, whatever the condition. */
  lemma OutputAmountMustBeString(condition: Value, amount: Value)
    requires amount != Undefined && !amount.Str?
    ensures OutputSpec(condition, amount) == Failure(TypeError("`amount` must be of type string"))
  {
  }

  /**
   * A well-formed condition gives the output `{condition, amount, public_keys}`:
   * the condition object itself, the amount (`'1'` when not given), and every
   * Ed25519 key reachable through thresholds exactly once, in first-seen order.
   */
  lemma OutputFacts(condition: Value, amount: Value)
    requires amount == Undefined || amount.Str?
    requires !IsNullish(condition)
    ensures var details := GetProp(condition, "details").value;
            OutputSpec(condition, amount).Success? <==> Walkable(details)
    ensures var details := GetProp(condition, "details").value;
            var r := OutputSpec(condition, amount);
            r.Success? ==>
              && r.value.Obj? && Keys(r.value.entries) == ["condition", "amount", "public_keys"]
              && Lookup(r.value.entries, "condition") == condition
              && Lookup(r.value.entries, "amount") == (if amount == Undefined then Str("1") else amount)
              && var pks := Lookup(r.value.entries, "public_keys");
                 pks.Arr? && NoRepeats(pks.items)
                 && (forall x :: x in pks.items <==> x in EdKeys(details))
                 && forall i, j | 0 <= i < j < |pks.items| ::
                      FirstIndex(EdKeys(details), pks.items[i]) < FirstIndex(EdKeys(details), pks.items[j])
  {
    var details := GetProp(condition, "details").value;
    CollectKeysIsInclude(details, []);
    IncludeFacts([], EdKeys(details));
    IncludeFirstSeenOrder(EdKeys(details));
    var r := OutputSpec(condition, amount);
    if r.Success? {
      var es := r.value.entries;
      assert UniqueKeys(es);
      LookupAt(es, 0);
      LookupAt(es, 1);
      LookupAt(es, 2);
    }
  }

  /** Details of a type other than Ed25519 and threshold give no public keys. */
  lemma OutputOtherTypeNoKeys(details: Value)
    requires details.Obj?
    requires Member(details, "type") != Str("ed25519-sha-256") && Member(details, "type") != Str("threshold-sha-256")
    ensures CollectKeys(details, []) == Success([])
  {
  }

  // ---------------------------------------------------------------------------
  // Templates and CREATE

  /** `makeInputTemplate(publicKeys = [], fulfills = null, fulfillment = null)` */
  function InputTemplate(publicKeys: Value, fulfills: Value, fulfillment: Value): Value
  {
    Obj([("fulfillment", Default(fulfillment, Null)), ("fulfills", Default(fulfills, Null)),
         ("owners_before", Default(publicKeys, Arr([])))])
  }

  /** `makeTransactionTemplate()` */
  function TransactionTemplate(): Entries
  {
    [("id", Null), ("operation", Null), ("outputs", Arr([])), ("inputs", Arr([])),
     ("metadata", Null), ("asset", Null), ("version", Str("2.0"))]
  }

  /** The transaction `makeTransaction(operation, asset, metadata = null, outputs = [], inputs = [])` returns. */
  function TransactionOf(operation: Value, asset: Value, metadata: Value, outputs: Value, inputs: Value): Value
  {
    Obj([("id", Null), ("operation", operation), ("outputs", Default(outputs, Arr([]))),
         ("inputs", Default(inputs, Arr([]))), ("metadata", Default(metadata, Null)), ("asset", asset),
         ("version", Str("2.0"))])
  }

  /**
   * `makeTransaction`, as the source writes it: the fields of a fresh template are
   * overwritten one by one. Each assignment is to a key the template already has,
   * so it replaces that entry in place (`AssignTransactionField`).
   */
  method MakeTransaction(operation: Value, asset: Value, metadata: Value, outputs: Value, inputs: Value)
    returns (tx: Value)
    ensures tx == TransactionOf(operation, asset, metadata, outputs, inputs)
  {
    var t := TransactionTemplate();
    t := t[1 := ("operation", operation)];
    t := t[5 := ("asset", asset)];
    t := t[4 := ("metadata", Default(metadata, Null))];
    t := t[3 := ("inputs", Default(inputs, Arr([])))];
    t := t[2 := ("outputs", Default(outputs, Arr([])))];
    return Obj(t);
  }

  /** The keys of a transaction, in the template's order. */
  const TransactionKeys := ["id", "operation", "outputs", "inputs", "metadata", "asset", "version"]

  /** Assigning to a field of a transaction-shaped object overwrites that field in place. */
  lemma AssignTransactionField(t: Entries, i: nat, v: Value)
    requires Keys(t) == TransactionKeys && i < |TransactionKeys|
    ensures SetKey(t, TransactionKeys[i], v) == t[i := (TransactionKeys[i], v)]
    ensures Keys(t[i := (TransactionKeys[i], v)]) == TransactionKeys
  {
    assert forall a, b | 0 <= a < b < |TransactionKeys| :: TransactionKeys[a] != TransactionKeys[b];
    assert forall j | 0 <= j < |t| :: t[j].0 == TransactionKeys[j];
    SetKeyExisting(t, TransactionKeys[i], v, i);
  }

  /**
   * The assignments of `makeTransaction`, in its order, on any object with the
   * template's keys: each overwrites its field in place and the keys keep their order.
   */
  lemma TemplateAssignments(t: Entries, operation: Value, asset: Value, metadata: Value, inputs: Value, outputs: Value)
    requires Keys(t) == TransactionKeys
    ensures SetKey(SetKey(SetKey(SetKey(SetKey(t, "operation", operation), "asset", asset),
                                 "metadata", metadata), "inputs", inputs), "outputs", outputs)
            == t[1 := ("operation", operation)][5 := ("asset", asset)][4 := ("metadata", metadata)]
                [3 := ("inputs", inputs)][2 := ("outputs", outputs)]
  {
    var t1 := t[1 := ("operation", operation)];
    var t2 := t1[5 := ("asset", asset)];
    var t3 := t2[4 := ("metadata", metadata)];
    var t4 := t3[3 := ("inputs", inputs)];
    AssignTransactionField(t, 1, operation);
    AssignTransactionField(t1, 5, asset);
    AssignTransactionField(t2, 4, metadata);
    AssignTransactionField(t3, 3, inputs);
    AssignTransactionField(t4, 2, outputs);
  }

  /** A transaction has the template's seven keys, in the template's order, with `id` null and `version` '2.0'. */
  lemma TransactionFields(operation: Value, asset: Value, metadata: Value, outputs: Value, inputs: Value)
    ensures var es := TransactionOf(operation, asset, metadata, outputs, inputs).entries;
            && Keys(es) == TransactionKeys
            && Lookup(es, "id") == Null
            && Lookup(es, "operation") == operation
            && Lookup(es, "outputs") == Default(outputs, Arr([]))
            && Lookup(es, "inputs") == Default(inputs, Arr([]))
            && Lookup(es, "metadata") == Default(metadata, Null)
            && Lookup(es, "asset") == asset
            && Lookup(es, "version") == Str("2.0")
  {
    var es := TransactionOf(operation, asset, metadata, outputs, inputs).entries;
    assert Keys(es) == TransactionKeys;
    assert UniqueKeys(es) by {
      forall a, b | 0 <= a < b < 7 ensures es[a].0 != es[b].0 {
        assert TransactionKeys[a] != TransactionKeys[b];
      }
    }
    LookupAt(es, 0);
    LookupAt(es, 1);
    LookupAt(es, 2);
    LookupAt(es, 3);
    LookupAt(es, 4);
    LookupAt(es, 5);
    LookupAt(es, 6);
  }

  /** `makeCreateTransaction(asset, metadata, outputs, ...issuers)` */
  function CreateTransaction(asset: Value, metadata: Value, outputs: Value, issuers: seq<Value>): Value
  {
    var assetDefinition := Obj([("data", if Truthy(asset) then asset else Null)]);
    var inputs := seq(|issuers|, i requires 0 <= i < |issuers| => InputTemplate(Arr([issuers[i]]), Undefined, Undefined));
    TransactionOf(Str("CREATE"), assetDefinition, metadata, outputs, Arr(inputs))
  }

  /** A CREATE transaction holds `{data: asset}`, or `{data: null}` for a falsy asset; its `id` is null and its version '2.0'. */
  lemma CreateTransactionFacts(asset: Value, metadata: Value, outputs: Value, issuers: seq<Value>)
    ensures var es := CreateTransaction(asset, metadata, outputs, issuers).entries;
            && Lookup(es, "operation") == Str("CREATE")
            && Lookup(es, "id") == Null
            && Lookup(es, "version") == Str("2.0")
            && Lookup(es, "asset") == Obj([("data", if Truthy(asset) then asset else Null)])
            && Lookup(es, "metadata") == Default(metadata, Null)
            && Lookup(es, "outputs") == Default(outputs, Arr([]))
  {
    var assetDefinition := Obj([("data", if Truthy(asset) then asset else Null)]);
    var inputs := seq(|issuers|, i requires 0 <= i < |issuers| => InputTemplate(Arr([issuers[i]]), Undefined, Undefined));
    TransactionFields(Str("CREATE"), assetDefinition, metadata, outputs, Arr(inputs));
  }

  /** A CREATE transaction has one input per issuer, in order, owned by that issuer alone and fulfilling nothing yet. */
  lemma CreateTransactionInputs(asset: Value, metadata: Value, outputs: Value, issuers: seq<Value>)
    ensures var inputs := Lookup(CreateTransaction(asset, metadata, outputs, issuers).entries, "inputs");
            && inputs.Arr? && |inputs.items| == |issuers|
            && forall i | 0 <= i < |issuers| ::
                 inputs.items[i] == Obj([("fulfillment", Null), ("fulfills", Null), ("owners_before", Arr([issuers[i]]))])
  {
    var assetDefinition := Obj([("data", if Truthy(asset) then asset else Null)]);
    var inputs := seq(|issuers|, i requires 0 <= i < |issuers| => InputTemplate(Arr([issuers[i]]), Undefined, Undefined));
    TransactionFields(Str("CREATE"), assetDefinition, metadata, outputs, Arr(inputs));
  }

  // ---------------------------------------------------------------------------
  // TRANSFER

  /** The input spending `unspentOutput`: `owners_before` from the spent output, `fulfills` linking to it. */
  function TransferInput(unspentOutput: Value): Result<Value, Exception>
  {
    var tx :- GetProp(unspentOutput, "tx");
    // `unspentOutput` is known not to be nullish here, so these second reads cannot throw.
    var outputIndex := GetProp(unspentOutput, "output_index").value;
    var outputs :- GetProp(tx, "outputs");
    var fulfilledOutput :- GetProp(outputs, ToJsString(outputIndex));
    var id := GetProp(tx, "id").value;
    var publicKeys :- GetProp(fulfilledOutput, "public_keys");
    Success(InputTemplate(publicKeys, Obj([("output_index", outputIndex), ("transaction_id", id)]), Undefined))
  }

  /** The `map` callback of `makeTransferTransaction`: the index is not used. */
  function TransferStep(i: nat, unspentOutput: Value): Result<Value, Exception>
  {
    TransferInput(unspentOutput)
  }

  /** `{id: ...}` from `unspentOutputs[0]` alone: the CREATE's own id, or the asset id it carries. */
  function AssetLink(unspentOutputs: Value): Result<Value, Exception>
  {
    var first :- GetProp(unspentOutputs, "0");
    var tx :- GetProp(first, "tx");
    var operation :- GetProp(tx, "operation");
    if operation == Str("CREATE") then
      Success(Obj([("id", GetProp(tx, "id").value)]))
    else
      var asset := GetProp(tx, "asset").value;
      var id :- GetProp(asset, "id");
      Success(Obj([("id", id)]))
  }

  /** `makeTransferTransaction(unspentOutputs, outputs, metadata)`; `map` exists only on arrays. */
  function TransferTransaction(unspentOutputs: Value, outputs: Value, metadata: Value): Result<Value, Exception>
  {
    if !unspentOutputs.Arr? then Failure(EngineTypeError)
    else
      var inputs :- MapEach(TransferStep, unspentOutputs.items, |unspentOutputs.items|);
      var assetLink :- AssetLink(unspentOutputs);
      Success(TransactionOf(Str("TRANSFER"), assetLink, metadata, outputs, Arr(inputs)))
  }

  /** A well-formed unspent output `{tx, output_index}` gives the input that spends `tx.outputs[output_index]`. */
  lemma TransferInputOf(unspentOutput: Value, tx: Value, index: nat)
    requires unspentOutput.Obj? && tx.Obj?
    requires Member(unspentOutput, "tx") == tx && Member(unspentOutput, "output_index") == Num(index)
    requires Member(tx, "outputs").Arr? && index < |Member(tx, "outputs").items|
    requires Member(tx, "outputs").items[index].Obj?
    ensures TransferInput(unspentOutput)
            == Success(Obj([("fulfillment", Null),
                            ("fulfills", Obj([("output_index", Num(index)), ("transaction_id", Member(tx, "id"))])),
                            ("owners_before", Default(Member(Member(tx, "outputs").items[index], "public_keys"), Arr([])))]))
  {
    var outputs := Member(tx, "outputs");
    assert GetProp(outputs, NatToString(index)) == Success(outputs.items[index]);
  }

  /**
   * A TRANSFER has one input per unspent output, in the same order, each built from
   * that unspent output alone; its asset is the link read from the first one.
   */
  lemma TransferTransactionFacts(unspentOutputs: Value, outputs: Value, metadata: Value)
    requires TransferTransaction(unspentOutputs, outputs, metadata).Success?
    ensures unspentOutputs.Arr? && |unspentOutputs.items| > 0
    ensures var es := TransferTransaction(unspentOutputs, outputs, metadata).value.entries;
            && Lookup(es, "operation") == Str("TRANSFER")
            && Lookup(es, "id") == Null
            && Lookup(es, "asset") == AssetLink(unspentOutputs).value
            && Lookup(es, "metadata") == Default(metadata, Null)
            && Lookup(es, "outputs") == Default(outputs, Arr([]))
            && var inputs := Lookup(es, "inputs");
               inputs.Arr? && |inputs.items| == |unspentOutputs.items|
               && forall i | 0 <= i < |unspentOutputs.items| ::
                    TransferInput(unspentOutputs.items[i]).Success?
                    && inputs.items[i] == TransferInput(unspentOutputs.items[i]).value
  {
    var ins := MapEach(TransferStep, unspentOutputs.items, |unspentOutputs.items|).value;
    assert ArrayIndex("0", 0) == None;  // so an empty list has no first unspent output
    TransactionFields(Str("TRANSFER"), AssetLink(unspentOutputs).value, metadata, outputs, Arr(ins));
    forall i | 0 <= i < |unspentOutputs.items|
      ensures TransferInput(unspentOutputs.items[i]).Success?
      ensures ins[i] == TransferInput(unspentOutputs.items[i]).value
    {
      MapEachAt(TransferStep, unspentOutputs.items, |unspentOutputs.items|, i);
    }
  }

  /** The asset link depends on the first unspent output only. */
  lemma AssetLinkFromFirst(unspentOutputs: Value, others: Value)
    requires unspentOutputs.Arr? && others.Arr? && |unspentOutputs.items| > 0 && |others.items| > 0
    requires unspentOutputs.items[0] == others.items[0]
    ensures AssetLink(unspentOutputs) == AssetLink(others)
  {
    assert GetProp(unspentOutputs, "0") == Success(unspentOutputs.items[0]) by {
      assert NatToString(0) == "0";
    }
    assert GetProp(others, "0") == Success(others.items[0]) by {
      assert NatToString(0) == "0";
    }
  }

  /** Spending outputs of a CREATE links to that CREATE's id; otherwise to the `asset.id` the first transaction carries. */
  lemma AssetLinkOf(unspentOutputs: Value, tx: Value)
    requires unspentOutputs.Arr? && |unspentOutputs.items| > 0
    requires unspentOutputs.items[0].Obj? && Member(unspentOutputs.items[0], "tx") == tx && tx.Obj?
    ensures Member(tx, "operation") == Str("CREATE") ==> AssetLink(unspentOutputs) == Success(Obj([("id", Member(tx, "id"))]))
    ensures Member(tx, "operation") != Str("CREATE") && Member(tx, "asset").Obj? ==>
              AssetLink(unspentOutputs) == Success(Obj([("id", Member(Member(tx, "asset"), "id"))]))
  {
    assert GetProp(unspentOutputs, "0") == Success(unspentOutputs.items[0]) by {
      assert NatToString(0) == "0";
    }
  }

  /** No unspent outputs: `unspentOutputs[0].tx` throws. */
  lemma TransferNeedsAnUnspentOutput(outputs: Value, metadata: Value)
    ensures TransferTransaction(Arr([]), outputs, metadata) == Failure(EngineTypeError)
  {
    assert GetProp(Arr([]), "0") == Success(Undefined) by {
      assert ArrayIndex("0", 0) == None;
    }
  }

  // ---------------------------------------------------------------------------
  // Canonical serialisation and signing

  /**
   * `serializeTransactionIntoCanonicalString`: the stable serialisation of a
   * clone, which is the transaction's own serialisation; fulfillments are
   * serialised as they stand.
   */
  function Serialize(transaction: Value): Option<string>
  {
    Stringify(transaction)
  }

  /** Keys are sorted at every level, so the text depends on the content only, not on insertion order. */
  lemma SerializeIgnoresKeyOrder(a: Value, b: Value)
    requires SameContent(a, b)
    ensures Serialize(a) == Serialize(b)
  {
    SameContentSameText(a, b);
  }

  /** `privateKeys[index]`, undefined past the end. */
  function KeyAt(privateKeys: seq<Value>, i: nat): Value
  {
    if i < |privateKeys| then privateKeys[i] else Undefined
  }

  /** The text an input's fulfillment signs: the serialisation, followed by the spent output's link when there is one. */
  function SigningPayload(serialized: string, input: Value): (r: Result<string, Exception>)
    ensures r.Failure? <==> IsNullish(input)
  {
    var fulfills :- GetProp(input, "fulfills");
    if Truthy(fulfills) then
      Success(serialized + ToJsString(GetProp(fulfills, "transaction_id").value)
                         + ToJsString(GetProp(fulfills, "output_index").value))
    else
      Success(serialized)
  }

  /**
   * One `forEach` step: decode the private key, sign the hash of the payload and
   * store the fulfillment URI as `input.fulfillment`.  Assigning a property of
   * a primitive throws (module code is strict).
   */
  function SignInput(lib: TxLibrary, serialized: string, privateKey: Value, input: Value): Result<Value, Exception>
  {
    var key :- lib.cc.base58Decode(privateKey);
    var payload :- SigningPayload(serialized, input);
    var uri :- lib.signUri(lib.sha3Hex(payload), key);
    match input
    case Obj(es) => Success(Obj(SetKey(es, "fulfillment", Str(uri))))
    case Arr(_) => Success(input)
    case _ => Failure(EngineTypeError)
  }

  /** The `forEach` callback, with the serialisation of the original and the key list bound. */
  function SignStep(lib: TxLibrary, serialized: string, privateKeys: seq<Value>): (nat, Value) -> Result<Value, Exception>
  {
    (i: nat, input: Value) => SignInput(lib, serialized, KeyAt(privateKeys, i), input)
  }

  /** `signTransaction(transaction, ...privateKeys)`. */
  function SignSpec(lib: TxLibrary, transaction: Value, privateKeys: seq<Value>): Result<Value, Exception>
  {
    var inputs :- GetProp(transaction, "inputs");
    if !(transaction.Obj? && inputs.Arr?) then Failure(EngineTypeError)
    else
      var serialized := Serialize(transaction).value;
      var signed :- MapEach(SignStep(lib, serialized, privateKeys), inputs.items, |inputs.items|);
      var withInputs := SetKey(transaction.entries, "inputs", Arr(signed));
      Success(Obj(SetKey(withInputs, "id", Str(lib.sha3Hex(Serialize(Obj(withInputs)).value)))))
  }

  /** The signing walk over a clone. */
  method SignTransaction(lib: TxLibrary, transaction: Value, privateKeys: seq<Value>) returns (r: Result<Value, Exception>)
    ensures r == SignSpec(lib, transaction, privateKeys)
  {
    var signedTx := transaction;
    var serialized := Serialize(transaction);
    var inputs := GetProp(signedTx, "inputs");
    if inputs.Failure? {
      return Failure(inputs.error);
    }
    if !(signedTx.Obj? && inputs.value.Arr?) {
      return Failure(EngineTypeError);
    }
    var signed := SignInputs(lib, serialized.value, privateKeys, inputs.value.items);
    if signed.Failure? {
      return Failure(signed.error);
    }
    var withInputs := SetKey(signedTx.entries, "inputs", Arr(signed.value));
    var id := lib.sha3Hex(Serialize(Obj(withInputs)).value);
    r := Success(Obj(SetKey(withInputs, "id", Str(id))));
  }

  /** The inputs of the clone signed one by one, in order; the first failure is thrown. */
  method SignInputs(lib: TxLibrary, serialized: string, privateKeys: seq<Value>, items: seq<Value>)
    returns (r: Result<seq<Value>, Exception>)
    ensures r == MapEach(SignStep(lib, serialized, privateKeys), items, |items|)
  {
    var step := SignStep(lib, serialized, privateKeys);
    var signed: seq<Value> := [];
    var i := 0;
    while i < |items|
      invariant 0 <= i <= |items|
      invariant MapEach(step, items, i) == Success(signed)
    {
      var input := step(i, items[i]);
      if input.Failure? {
        MapEachFailsAt(step, items, i, |items|);
        return Failure(input.error);
      }
      MapEachSnoc(step, items, i);
      signed := signed + [input.value];
      i := i + 1;
    }
    r := Success(signed);
  }

  /**
   * The signed transaction differs from the original in `inputs` and `id` only:
   * input `i` is the original input `i` signed with `privateKeys[i]` over the
   * serialisation of the original, and `id` is the hash of the serialisation of
   * the original with the signed inputs in place.
   */
  lemma SignFacts(lib: TxLibrary, transaction: Value, privateKeys: seq<Value>)
    requires SignSpec(lib, transaction, privateKeys).Success?
    ensures transaction.Obj? && Lookup(transaction.entries, "inputs").Arr?
    ensures var es := transaction.entries;
            var inputs := Lookup(es, "inputs").items;
            var rs := SignSpec(lib, transaction, privateKeys).value.entries;
            var signed := Lookup(rs, "inputs");
            && signed.Arr? && |signed.items| == |inputs|
            && (forall i | 0 <= i < |inputs| ::
                  SignInput(lib, Serialize(transaction).value, KeyAt(privateKeys, i), inputs[i]) == Success(signed.items[i]))
            && (forall k | k != "inputs" && k != "id" :: Lookup(rs, k) == Lookup(es, k))
            && Lookup(rs, "id") == Str(lib.sha3Hex(Serialize(Obj(SetKey(es, "inputs", signed))).value))
            && (HasKey(es, "id") ==> Keys(rs) == Keys(es))
  {
    var es := transaction.entries;
    var inputs := Lookup(es, "inputs").items;
    var step := SignStep(lib, Serialize(transaction).value, privateKeys);
    var signed := MapEach(step, inputs, |inputs|).value;
    var w := SetKey(es, "inputs", Arr(signed));
    SetKeyFacts(es, "inputs", Arr(signed));
    SetKeyFacts(w, "id", Str(lib.sha3Hex(Serialize(Obj(w)).value)));
    forall i | 0 <= i < |inputs|
      ensures SignInput(lib, Serialize(transaction).value, KeyAt(privateKeys, i), inputs[i]) == Success(signed[i])
    {
      MapEachAt(step, inputs, |inputs|, i);
    }
  }

  /**
   * Signing an object input stores, under `fulfillment`, the URI of a signature
   * by the decoded private key over the hash of the payload; nothing else changes.
   */
  lemma SignInputFacts(lib: TxLibrary, serialized: string, privateKey: Value, input: Value)
    requires input.Obj? && SignInput(lib, serialized, privateKey, input).Success?
    ensures lib.cc.base58Decode(privateKey).Success? && SigningPayload(serialized, input).Success?
    ensures var signature := lib.signUri(lib.sha3Hex(SigningPayload(serialized, input).value), lib.cc.base58Decode(privateKey).value);
            var signed := SignInput(lib, serialized, privateKey, input).value;
            && signature.Success? && signed.Obj?
            && Lookup(signed.entries, "fulfillment") == Str(signature.value)
            && (forall k | k != "fulfillment" :: Lookup(signed.entries, k) == Lookup(input.entries, k))
  {
    var key := lib.cc.base58Decode(privateKey).value;
    var uri := lib.signUri(lib.sha3Hex(SigningPayload(serialized, input).value), key).value;
    SetKeyFacts(input.entries, "fulfillment", Str(uri));
  }

  /** An input that spends an output signs the serialisation followed by the spent transaction's id and the output's index. */
  lemma SigningPayloadOfTransfer(serialized: string, input: Value, transactionId: string, outputIndex: nat)
    requires input.Obj? && Member(input, "fulfills").Obj?
    requires Member(Member(input, "fulfills"), "transaction_id") == Str(transactionId)
    requires Member(Member(input, "fulfills"), "output_index") == Num(outputIndex)
    ensures SigningPayload(serialized, input) == Success(serialized + transactionId + NatToString(outputIndex))
  {
  }

  /** An input that spends nothing (`fulfills` null, as in a CREATE) signs the bare serialisation. */
  lemma SigningPayloadOfCreate(serialized: string, input: Value)
    requires input.Obj? && Member(input, "fulfills") == Null
    ensures SigningPayload(serialized, input) == Success(serialized)
  {
  }

  /** Keys past the number of inputs are never read. */
  lemma SignIgnoresExtraKeys(lib: TxLibrary, transaction: Value, privateKeys: seq<Value>, extra: seq<Value>)
    requires transaction.Obj? && Lookup(transaction.entries, "inputs").Arr?
    requires |Lookup(transaction.entries, "inputs").items| <= |privateKeys|
    ensures SignSpec(lib, transaction, privateKeys + extra) == SignSpec(lib, transaction, privateKeys)
  {
    var inputs := Lookup(transaction.entries, "inputs").items;
    var serialized := Serialize(transaction).value;
    MapEachAgree(SignStep(lib, serialized, privateKeys + extra), SignStep(lib, serialized, privateKeys), inputs, |inputs|);
  }

  // ---------------------------------------------------------------------------
  // Conditions for outputs

  /** What the condition helpers return: the JSON form by default, the library object with `json` false. */
  datatype MadeCondition = AsJson(json: Value) | AsObject(node: CcNode)

  /** `json ? ccJsonify(node) : node` */
  function Present(lib: TxLibrary, node: CcNode, json: bool): Result<MadeCondition, Exception>
  {
    if json then
      var j :- JsonifySpec(lib.cc, node);
      Success(AsJson(j))
    else Success(AsObject(node))
  }

  /** `makeEd25519Condition(publicKey, json)`: an Ed25519 fulfillment holding the decoded key. */
  function Ed25519Condition(lib: TxLibrary, publicKey: Value, json: bool): Result<MadeCondition, Exception>
  {
    var key :- lib.cc.base58Decode(publicKey);
    Present(lib, Ed25519Sha256(Some(key)), json)
  }

  /** `makeSha256Condition(preimage, json)`: a preimage fulfillment over the UTF-8 bytes of `preimage`. */
  function Sha256Condition(lib: TxLibrary, preimage: string, json: bool): Result<MadeCondition, Exception>
  {
    Present(lib, PreimageSha256(Some(lib.utf8Encode(preimage))), json)
  }

  /** `makeThresholdCondition(threshold, subconditions, json)`: each given object becomes a subfulfillment, in order. */
  function ThresholdCondition(lib: TxLibrary, threshold: Value, subconditions: seq<CcNode>, json: bool): Result<MadeCondition, Exception>
  {
    var subs := seq(|subconditions|, i requires 0 <= i < |subconditions| => SubFulfillment(subconditions[i]));
    Present(lib, ThresholdSha256(threshold, subs), json)
  }

  /**
   * An Ed25519 condition's details are exactly its type and the base58 text of
   * the decoded key, and its uri is the fulfillment's condition URI; when base58
   * encoding undoes decoding, `public_key` is the key given.
   */
  lemma Ed25519ConditionFacts(lib: TxLibrary, publicKey: Value)
    ensures lib.cc.base58Decode(publicKey).Failure? ==>
              Ed25519Condition(lib, publicKey, true) == Failure(lib.cc.base58Decode(publicKey).error)
    ensures lib.cc.base58Decode(publicKey).Success? ==>
              var key := lib.cc.base58Decode(publicKey).value;
              var r := Ed25519Condition(lib, publicKey, true);
              && r.Success? && r.value.AsJson?
              && DetailsOf(r.value.json) == Obj([("type", Str("ed25519-sha-256")), ("public_key", Str(lib.cc.base58Encode(key)))])
              && Lookup(r.value.json.entries, "uri") == Str(lib.cc.getConditionUri(Ed25519Sha256(Some(key))))
              && (EncodeUndoesDecode(lib.cc) ==> Lookup(DetailsOf(r.value.json).entries, "public_key") == publicKey)
    ensures Ed25519Condition(lib, publicKey, false)
            == if lib.cc.base58Decode(publicKey).Success? then Success(AsObject(Ed25519Sha256(Some(lib.cc.base58Decode(publicKey).value))))
               else Failure(lib.cc.base58Decode(publicKey).error)
  {
    if lib.cc.base58Decode(publicKey).Success? {
      var key := lib.cc.base58Decode(publicKey).value;
      var node := Ed25519Sha256(Some(key));
      JsonifyFlat(lib.cc, node);
      JsonifyShape(lib.cc, node);
      FlatDetailsEd25519(lib.cc, Some(key));
      var d := [("type", Str("ed25519-sha-256")), ("public_key", Str(lib.cc.base58Encode(key)))];
      assert Lookup(d, "public_key") == Str(lib.cc.base58Encode(key)) by {
        IndexOfKeyIs(d, "public_key", 1);
      }
    }
  }

  /** A preimage condition has `type_id` 0, `bitmask` 3, the preimage as text and type `fulfillment`. */
  lemma Sha256ConditionFacts(lib: TxLibrary, preimage: string)
    ensures var r := Sha256Condition(lib, preimage, true);
            var node := PreimageSha256(Some(lib.utf8Encode(preimage)));
            && r.Success? && r.value.AsJson?
            && DetailsOf(r.value.json)
               == Obj([("type_id", Num(0)), ("bitmask", Num(3)),
                       ("preimage", Str(lib.cc.bufferToString(lib.utf8Encode(preimage)))), ("type", Str("fulfillment"))])
            && Lookup(r.value.json.entries, "uri") == Str(lib.cc.getConditionUri(node))
    ensures Sha256Condition(lib, preimage, false) == Success(AsObject(PreimageSha256(Some(lib.utf8Encode(preimage)))))
  {
    var node := PreimageSha256(Some(lib.utf8Encode(preimage)));
    assert Sha256Condition(lib, preimage, true) == Success(AsJson(JsonifySpec(lib.cc, node).value));
    JsonifyFlat(lib.cc, node);
    JsonifyShape(lib.cc, node);
    FlatDetailsPreimage(lib.cc, Some(lib.utf8Encode(preimage)));
  }

  /**
   * A threshold condition's details carry the threshold given and, in order, the
   * details of each subcondition; it fails only where encoding a subcondition fails.
   */
  lemma ThresholdConditionFacts(lib: TxLibrary, threshold: Value, subconditions: seq<CcNode>)
    requires ThresholdCondition(lib, threshold, subconditions, true).Success?
    ensures var r := ThresholdCondition(lib, threshold, subconditions, true).value;
            && r.AsJson?
            && var d := DetailsOf(r.json);
               && d.Obj? && Keys(d.entries) == ["type", "threshold", "subconditions"]
               && Lookup(d.entries, "type") == Str("threshold-sha-256")
               && Lookup(d.entries, "threshold") == threshold
               && var subs := Lookup(d.entries, "subconditions");
                  subs.Arr? && |subs.items| == |subconditions|
                  && forall i | 0 <= i < |subconditions| ::
                       JsonifySpec(lib.cc, subconditions[i]).Success?
                       && subs.items[i] == DetailsOf(JsonifySpec(lib.cc, subconditions[i]).value)
  {
    var subs := seq(|subconditions|, i requires 0 <= i < |subconditions| => SubFulfillment(subconditions[i]));
    var node := ThresholdSha256(threshold, subs);
    assert ThresholdCondition(lib, threshold, subconditions, true) == Success(AsJson(JsonifySpec(lib.cc, node).value));
    JsonifyThreshold(lib.cc, node);
    assert forall i | 0 <= i < |subconditions| :: node.subconditions[i].body == subconditions[i];
  }
}
