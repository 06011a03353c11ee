# BigchainDB JavaScript driver — a Dafny model of its core

This project models the core of the BigchainDB JavaScript driver and proves properties of the model. The driver builds, serialises and signs BigchainDB transactions. It also talks to a pool of BigchainDB nodes over HTTP. The model covers:

- **Transactions** (`transaction.dfy`, module `Transaction`):
  - the input and transaction templates;
  - `CREATE` and `TRANSFER` construction;
  - `makeOutput`, with its walk over the condition tree that collects public keys;
  - the Ed25519, SHA-256 and threshold condition wrappers;
  - `signTransaction`, a method with a loop over the inputs.
- **Canonical serialisation** (`canonical_json.dfy`, module `CanonicalJson`): `json-stable-stringify` with the comparator `(a, b) => (a.key > b.key ? 1 : -1)`. The comparator orders keys by their UTF-16 code units, as JavaScript's `>` compares strings. Objects keep their keys in insertion order, as JavaScript does. The proof shows that the serialised text depends only on an object's content, not on its key order.
- **Crypto-condition JSON codec** (`crypto_conditions.dfy`, module `CryptoConditions`):
  - `ccJsonify`, a method with a loop over threshold subconditions;
  - `ccJsonLoad`;
  - a load-then-jsonify round trip.
- **`makeFulfillment`** (`make_fulfillment.dfy`).
- **Spend graph and dependency order** (`topology_sorting.dfy`): `generateGraph` and `topsortTransactions`.
- **Object filtering** (`sanitize.dfy`): `filterFromObject`, `applyFilterOnObject`, `selectFromObject`, `sanitize`.
- **One node's backoff bookkeeping** (`request.dfy`, class `NodeRequest.Request`):
  - the config merge of `request`;
  - `getBackoffTimedelta`;
  - `updateBackoffTime`.
- **The connection pool** (`transport.dfy`, class `NodeTransport.Transport`): `pickConnection` and the retry loop of `forwardRequest`.
- **The `Connection` class** (`connection.dfy`, module `NodeConnection`):
  - reserved-header validation;
  - node normalisation and header merging;
  - the endpoint table;
  - the query of `listOutputs`;
  - the request routes.
- **The `${...}` first pass of `formatText`** (`format_text.dfy`).
- **`stringifyAsQueryParam`** (`query_param.dfy`).
- **URL, query and body assembly of `baseRequest`, and `handleResponse`** (`base_request.dfy`).

`js_value.dfy` (module `JsValue`) models the JavaScript values these files handle: `undefined`, `null`, booleans, numbers, strings, arrays, and objects as insertion-ordered entry lists. It also models the engine operations the code relies on:

- property read, with the `TypeError` for `undefined`/`null`;
- property assignment;
- `Object.assign`;
- `Object.entries`;
- truthiness;
- `typeof`;
- `String(v)`.

`wrappers.dfy` holds `Option` and `Result`. A thrown exception is a `Failure` of type `JsValue.Exception`.

Code the driver calls but does not contain is a parameter of the model, given as function-valued fields of a library record. This covers:

- SHA3-256, base58, Ed25519 signing and the condition URIs;
- `Buffer` UTF-8 encoding and `parseInt`;
- `sprintf`/`vsprintf`, `decamelize`, `queryString.stringify` and `JSON.stringify`;
- `toposort`.

Likewise, the network and the clock are inputs:

- a `NodeRequest.Attempt` says when an attempt started, whether `baseRequest` threw before returning its promise, what `fetch` resolved to and when it settled. `NodeRequest.ThrowsAsBaseRequest` ties the throw to the url expansion of `BaseRequest.ExpandUrl`;
- `baseRequest` returns the `fetch` call it would make as a `BaseRequest.FetchCall` value.

Where the source does something surprising, the model follows the source:

- In `request`, the guard `setTimeout < this.backoffTimedelta` reads a field that is never set, so the `TimeoutError` there is never thrown (`NodeRequest.RequestFacts`).
- Every rejection of the fetch promise, HTTP errors included, is recorded as a connection error, so the node backs off and the call is retried.
- `baseRequest` is not `async`. When its url expansion throws (`formatText` or `vsprintf`), `request` rejects at once, before `.catch` and `.finally` are attached. No connection error is recorded, the backoff is not updated, and `forwardRequest` rethrows the error without retrying. `this.timeout` has already been set by then (`NodeRequest.RequestFacts`, `NodeRequest.TemplateErrorRejects`).
- `BACKOFF_DELAY` is 0.5, commented as seconds, but it is added to a millisecond clock.
- A `null` timeout becomes `-elapsed` after the first attempt that backed off.
- `forwardRequest` with a timeout already below zero throws the engine's `TypeError`, because `connection` is `undefined`.
- `formatText`'s `${...}` pattern `\${([^)]+?)}` takes any first body character except `)`, a `}` included, so `${}}` is one template whose body is `}`. From the second body character on, the template ends at the first `}`, and a `)` before it means there is no template. These are exactly the templates the model expands.

## Model

| member | source | states |
|---|---|---|
| Transaction.MakeOutput | src/transaction.js:113-133 | The method returns exactly the output `OutputSpec` describes, including the `TypeError` for a non-string amount and the error of a details tree that cannot be walked. |
| Transaction.OutputSpec | src/transaction.js:113-133 | Defining function, with no contract of its own: the output `makeOutput` returns or the error it throws. `MakeOutput` is proved equal to it; `OutputFacts` and `OutputAmountMustBeString` state what it is. |
| Transaction.OutputAmountMustBeString | src/transaction.js:113-116 | Any given `amount` that is not a string throws `TypeError('`amount` must be of type string')`. |
| Transaction.OutputFacts | src/transaction.js:113-133 | With a string or missing amount, the output exists iff the details tree can be walked. Its keys are `condition`, `amount`, `public_keys`. The condition is returned unchanged and the amount defaults to `'1'`. `public_keys` holds exactly the `ed25519-sha-256` keys reachable through `threshold-sha-256` subconditions, each once, in first-seen order. |
| Transaction.OutputOtherTypeNoKeys | src/transaction.js:117-127 | Details of any other type contribute no public key. |
| Transaction.NoTypeOutsideObjects | src/transaction.js:119-123 | Reading `type` on a primitive value gives `undefined`, so the walk passes over it. |
| Transaction.GetPublicKeys | src/transaction.js:117-127 | The recursive method, with its loop over subconditions pushing into the accumulator, yields `CollectKeys`. |
| Transaction.CollectKeysIsInclude | src/transaction.js:117-127 | The walk adds `EdKeys(details)`, the keys in tree order, to the accumulator with `includes`-then-`push`; a subtree it cannot walk throws `TypeError`. |
| Transaction.CollectKeysItemsIsInclude | src/transaction.js:123-125 | The same, over the first `k` subconditions of a threshold. |
| Transaction.CollectKeysItemsStep | src/transaction.js:124 | One more subcondition continues the walk from the keys collected so far. |
| Transaction.CollectKeysItemsFailureStays | src/transaction.js:124 | Once a subcondition throws, the later ones do not change the outcome. |
| Transaction.IncludeAppend | src/transaction.js:120-122 | Including `xs` then `ys` equals including `xs + ys`. |
| Transaction.IncludeFacts | src/transaction.js:120-122 | The result holds exactly the old and the new keys and keeps "no repeats". The old list is a prefix of the result. |
| Transaction.IncludeFirstSeenOrder | src/transaction.js:120-122 | Starting from `[]`, the keys come out ordered by their first occurrence. |
| Transaction.MakeTransaction | src/transaction.js:35-56 | The method's five assignments onto the template give `TransactionOf`. |
| Transaction.InputTemplate | src/transaction.js:27-33 | Defining function, with no contract of its own: the input template, with keys `fulfillment`, `fulfills`, `owners_before` and their defaults. Stated by `CreateTransactionInputs` and `TransferInputOf`. |
| Transaction.TransactionTemplate | src/transaction.js:35-46 | Defining function, with no contract of its own: the seven template keys in order, with their initial values. Stated by `TemplateAssignments` and `TransactionFields`. |
| Transaction.TransactionOf | src/transaction.js:48-56 | Defining function, with no contract of its own: the template after the five assignments. `MakeTransaction` is proved equal to it; `TransactionFields` states its fields. |
| Transaction.AssignTransactionField | src/transaction.js:48-55 | Assigning a template key replaces its value in place and keeps the key order. |
| Transaction.TemplateAssignments | src/transaction.js:48-55 | The five assignments are in-place updates at the template positions. |
| Transaction.TransactionFields | src/transaction.js:35-56 | Keys come in template order: `id` null, the given operation and asset, version `'2.0'`. Metadata defaults to null, outputs and inputs to `[]`. |
| Transaction.CreateTransactionFacts | src/transaction.js:76-83 | A `CREATE` has asset `{data: asset}`, or `{data: null}` for a falsy asset. It has `id` null, version `'2.0'`, and the given metadata and outputs. |
| Transaction.CreateTransaction | src/transaction.js:76-83 | Defining function, with no contract of its own: `makeCreateTransaction`. Stated by `CreateTransactionFacts` and `CreateTransactionInputs`. |
| Transaction.CreateTransactionInputs | src/transaction.js:76-83 | There is one input per issuer, in order: `{fulfillment: null, fulfills: null, owners_before: [issuer]}`. |
| Transaction.TransferInputOf | src/transaction.js:200-209 | An unspent output becomes an input with `fulfills {output_index, transaction_id: tx.id}` and `owners_before` the spent output's `public_keys`. |
| Transaction.TransferInput | src/transaction.js:200-209 | Defining function, with no contract of its own: the input spending one unspent output. Stated by `TransferInputOf`. |
| Transaction.AssetLink | src/transaction.js:211-214 | Defining function, with no contract of its own: the asset link. Stated by `AssetLinkOf` and `AssetLinkFromFirst`. |
| Transaction.TransferTransaction | src/transaction.js:195-216 | Defining function, with no contract of its own: `makeTransferTransaction`. Stated by `TransferTransactionFacts` and `TransferNeedsAnUnspentOutput`. |
| Transaction.TransferTransactionFacts | src/transaction.js:195-216 | A successful `TRANSFER` has a non-empty list of unspent outputs. It has one input per unspent output, in order, and the asset link. It has `id` null and the given metadata and outputs. |
| Transaction.AssetLinkFromFirst | src/transaction.js:211-214 | The asset link depends only on the first unspent output. |
| Transaction.AssetLinkOf | src/transaction.js:211-214 | The link is `{id: tx.id}` for a `CREATE`, `{id: tx.asset.id}` otherwise. |
| Transaction.TransferNeedsAnUnspentOutput | src/transaction.js:211-214 | An empty list of unspent outputs throws `TypeError`. |
| Transaction.SerializeIgnoresKeyOrder | src/transaction.js:18-25 | Transactions with the same content serialise to the same text, whatever their key order. |
| Transaction.Serialize | src/transaction.js:18-25 | Defining function, with no contract of its own: the stable serialisation of the transaction. Stated by `SerializeIgnoresKeyOrder`. |
| Transaction.SigningPayload | src/transaction.js:238-240 | Building the payload throws exactly for a missing input. |
| Transaction.SigningPayloadOfTransfer | src/transaction.js:238-240 | An input that spends an output signs serialisation + `transaction_id` + decimal `output_index`. |
| Transaction.SigningPayloadOfCreate | src/transaction.js:238-240 | An input with `fulfills: null` signs the serialisation alone. |
| Transaction.SignTransaction | src/transaction.js:229-253 | The method computes `SignSpec`: it clones, serialises the original, signs the inputs and sets `id` to the hash of the signed clone. |
| Transaction.SignInputs | src/transaction.js:234-246 | The `forEach` over the clone's inputs signs input `i` with `privateKeys[i]`, in order; the result is `MapEach` of the signing step, so the first input that fails to sign throws. |
| Transaction.SignInput | src/transaction.js:234-247 | Defining function, with no contract of its own: one `forEach` step of the signing loop. Stated by `SignInputFacts` and the `SigningPayload` lemmas. |
| Transaction.SignSpec | src/transaction.js:229-253 | Defining function, with no contract of its own: `signTransaction`. `SignTransaction` is proved equal to it; `SignFacts` and `SignIgnoresExtraKeys` state what it is. |
| Transaction.SignFacts | src/transaction.js:229-253 | Input `i` is signed with private key `i` over the unsigned serialisation. No field other than `inputs` and `id` changes. `id` is the SHA3 of the serialisation of the signed transaction. The key order is kept. |
| Transaction.SignInputFacts | src/transaction.js:234-247 | A signed input's `fulfillment` is the URI of the signature over the hashed payload; its other fields are unchanged. |
| Transaction.SignIgnoresExtraKeys | src/transaction.js:229-235 | Private keys beyond the number of inputs are ignored. |
| Transaction.Ed25519ConditionFacts | src/transaction.js:92-103 | The condition throws when base58 decoding fails. Otherwise its details are `{type: 'ed25519-sha-256', public_key}` and its uri is the condition URI. The public key round-trips when base58 encode undoes decode. `json = false` gives the object. |
| Transaction.Ed25519Condition | src/transaction.js:92-103 | Defining function, with no contract of its own: `makeEd25519Condition`. Stated by `Ed25519ConditionFacts`. |
| Transaction.Sha256ConditionFacts | src/transaction.js:141-149 | The details are `{type_id: 0, bitmask: 3, preimage, type: 'fulfillment'}` and the uri is the condition URI. `json = false` gives the object. |
| Transaction.Sha256Condition | src/transaction.js:141-149 | Defining function, with no contract of its own: `makeSha256Condition`. Stated by `Sha256ConditionFacts`. |
| Transaction.ThresholdConditionFacts | src/transaction.js:158-172 | The details are `{type: 'threshold-sha-256', threshold, subconditions}`: each subcondition's details, in order. |
| Transaction.ThresholdCondition | src/transaction.js:158-172 | Defining function, with no contract of its own: `makeThresholdCondition`. Stated by `ThresholdConditionFacts`. |
| CanonicalJson.KeyCompare | src/transaction.js:24 | The comparator answers 1 exactly when `a > b` in the UTF-16 code unit order JavaScript uses (see `StrLessIsUtf16Order`), and -1 otherwise. It never answers 0. |
| CanonicalJson.CodeUnitRank | src/transaction.js:24 | A character's rank is its code point below U+D800 and from U+10000 on. U+E000 to U+FFFF rank above every code point. So characters above U+FFFF, whose first UTF-16 unit is a surrogate, sort between the two parts of the basic plane. |
| CanonicalJson.StrLessIsUtf16Order | src/transaction.js:24 | The key order is exactly the lexicographic order of the two strings' UTF-16 code unit sequences, which is how JavaScript's `>` compares strings. |
| CanonicalJson.UnitsLessAtDifference | src/transaction.js:24 | At two different characters, the code units decide as the ranks do, whatever follows them. |
| CanonicalJson.SupplementaryBetween | src/transaction.js:24 | U+10000 sorts before U+FFFF and after U+D7FF. |
| CanonicalJson.StrLessIrreflexive | src/transaction.js:24 | String `<` is irreflexive. |
| CanonicalJson.StrLessTransitive | src/transaction.js:24 | String `<` is transitive. |
| CanonicalJson.StrLessTotal | src/transaction.js:24 | Distinct strings are comparable. |
| CanonicalJson.StrLessAsymmetric | src/transaction.js:24 | String `<` is asymmetric. |
| CanonicalJson.InsertKey | src/transaction.js:24 | Insertion adds exactly the one key. |
| CanonicalJson.InsertKeySorted | src/transaction.js:24 | Insertion keeps a strictly sorted key list sorted. |
| CanonicalJson.SortKeys | src/transaction.js:24 | The sort keeps the length and the set of keys. |
| CanonicalJson.SortKeysSorted | src/transaction.js:24 | Distinct keys come out strictly ascending. |
| CanonicalJson.SortedUnique | src/transaction.js:24 | Two strictly sorted lists with the same keys are equal. |
| CanonicalJson.Stringify | src/transaction.js:18-25 | Only `undefined` has no serialisation. |
| CanonicalJson.SameContentSameText | src/transaction.js:18-25 | Values with the same content, at every depth, serialise to the same text. |
| CryptoConditions.Jsonify | src/utils/ccJsonify.js:8-61 | The method computes `JsonifySpec`. |
| CryptoConditions.JsonifySpec | src/utils/ccJsonify.js:8-61 | Defining function, with no contract of its own: `ccJsonify`. `Jsonify` is proved equal to it. `JsonifyShape`, `JsonifyFlat`, `JsonifyThreshold` and `JsonifyFailsOnlyOnConditionTwo` state what it is. |
| CryptoConditions.JsonifySubs | src/utils/ccJsonify.js:37-40 | The loop over the subconditions computes `SubDetails`. |
| CryptoConditions.SubDetails | src/utils/ccJsonify.js:37-40 | A successful map gives one details object per subcondition. |
| CryptoConditions.SubDetailsStep | src/utils/ccJsonify.js:37-40 | One more subcondition appends its details or propagates its error. |
| CryptoConditions.SubDetailsFailureStays | src/utils/ccJsonify.js:37-40 | An error in a subcondition is the error of the whole map. |
| CryptoConditions.SubDetailsAt | src/utils/ccJsonify.js:37-40 | Entry `i` of the map is the details of subcondition `i`. |
| CryptoConditions.SubDetailsAllSucceed | src/utils/ccJsonify.js:37-40 | The map succeeds when every subcondition encodes. |
| CryptoConditions.JsonifyShape | src/utils/ccJsonify.js:8-20 | The JSON has keys `details` and `uri`. `uri` is `getConditionUri()` for a fulfillment and `serializeUri()` for a condition. |
| CryptoConditions.JsonifyFlat | src/utils/ccJsonify.js:22-58 | Every node except type 2 encodes, with the flat details below. |
| CryptoConditions.FlatDetailsEd25519 | src/utils/ccJsonify.js:46-52 | The details are `{type: 'ed25519-sha-256', public_key: base58(key)}`; `public_key` is absent without a key, and there is never a signature. |
| CryptoConditions.FlatDetailsPreimage | src/utils/ccJsonify.js:22-30 | The details always have `type_id 0` and `bitmask 3`; `preimage` and `type: 'fulfillment'` appear only with a preimage. |
| CryptoConditions.FlatDetailsConditionZero | src/utils/ccJsonify.js:22-58 | A type-0 condition gets `type_id`, `bitmask`, `hash` and `max_fulfillment_length`, then `type: 'condition'`. |
| CryptoConditions.FlatDetailsConditionEd25519 | src/utils/ccJsonify.js:46-58 | For a type-4 condition, the `type` set first is overridden by `'condition'` in place, with `hash` and `max_fulfillment_length` after it. |
| CryptoConditions.FlatDetailsConditionOther | src/utils/ccJsonify.js:54-58 | Any other condition gets exactly `hash`, `max_fulfillment_length` and `type: 'condition'`. |
| CryptoConditions.JsonifyThreshold | src/utils/ccJsonify.js:32-44 | A threshold encodes to `{type: 'threshold-sha-256', threshold, subconditions}`: the children's details, same length and order. |
| CryptoConditions.ThresholdDetailsFields | src/utils/ccJsonify.js:33-43 | Gives the key order and the field values of the threshold details. |
| CryptoConditions.JsonifyFailsOnlyOnConditionTwo | src/utils/ccJsonify.js:32-44 | Outside a threshold fulfillment, encoding fails exactly for a type-2 condition, which has no subconditions to map. |
| CryptoConditions.Load | src/utils/ccJsonLoad.js:13-44 | The method computes `LoadSpec`. |
| CryptoConditions.LoadSpec | src/utils/ccJsonLoad.js:13-44 | Defining function, with no contract of its own: `ccJsonLoad`. `Load` is proved equal to it. The `Load*` lemmas and the `RoundTrip` lemmas state what it is. |
| CryptoConditions.LoadHash | src/utils/ccJsonLoad.js:14-21 | JSON with a `hash` loads to a condition with its type id, bitmask, decoded hash and parsed length. |
| CryptoConditions.LoadEd25519 | src/utils/ccJsonLoad.js:38-41 | `ed25519-sha-256` JSON loads to a fulfillment holding the decoded key. |
| CryptoConditions.LoadUnknown | src/utils/ccJsonLoad.js:22-43 | Any other type without a hash loads to `undefined`. |
| CryptoConditions.LoadThreshold | src/utils/ccJsonLoad.js:25-36 | A threshold keeps `threshold` and adds each loaded child, in order, as a subfulfillment or a subcondition. |
| CryptoConditions.LoadSubs | src/utils/ccJsonLoad.js:28-35 | A successful loop adds one child per JSON child. |
| CryptoConditions.AddSub | src/utils/ccJsonLoad.js:30-34 | A fulfillment is added by `addSubfulfillment`, anything else by `addSubcondition`. |
| CryptoConditions.LoadSubsFailureStays | src/utils/ccJsonLoad.js:28-35 | An error in a child is the error of the loop. |
| CryptoConditions.LoadSubsAt | src/utils/ccJsonLoad.js:28-35 | Child `i` of the loop is the loaded JSON child `i`. |
| CryptoConditions.LoadSubsAllSucceed | src/utils/ccJsonLoad.js:28-35 | The loop succeeds when every child loads to something. |
| CryptoConditions.LoadThresholdUnknownChild | src/utils/ccJsonLoad.js:28-34 | A child that loads to `undefined` makes the `in` test throw `TypeError`. |
| CryptoConditions.RoundTrip | src/utils/ccJsonLoad.js:13-44 | When base58 encode undoes decode, Ed25519/threshold JSON whose keys decode is reproduced by load then jsonify. Type, public key, threshold and subconditions agree at every depth. |
| CryptoConditions.RoundTripThreshold | src/utils/ccJsonLoad.js:25-36 | A threshold whose children are reproduced is reproduced. |
| MakeFulfillment.MakeFulfillment | src/transaction/makeFulfillment.js:1-21 | The method's loop over the issuers computes `FulfillmentSpec`. |
| MakeFulfillment.FulfillmentSpec | src/transaction/makeFulfillment.js:1-21 | Defining function, with no contract of its own: the condition description built for the issuers. Stated by `FulfillmentFacts`. |
| MakeFulfillment.FulfillmentFacts | src/transaction/makeFulfillment.js:1-21 | One issuer gives `{type: 'ed25519-sha-256', public_keys: issuers}`. Any other number gives `{type: 'threshold-sha-256', subconditions}`: one `{type, public_key}` per issuer, in order, with no `threshold` key. |
| TopologySorting.GenerateGraph | src/transaction/utils/topologySorting.js:3-14 | The method's loop over the transactions computes `Graph`. |
| TopologySorting.Graph | src/transaction/utils/topologySorting.js:3-14 | Defining function, with no contract of its own: `generateGraph`. `GenerateGraph` is proved equal to it; `GraphIsFlatten` states what it is. |
| TopologySorting.TxEdges | src/transaction/utils/topologySorting.js:5-11 | Defining function, with no contract of its own: the edges of one transaction. `PushTxEdges` appends them. |
| TopologySorting.PushTxEdges | src/transaction/utils/topologySorting.js:5-11 | Pushing one more transaction's edges gives the walk over one more transaction. A missing `inputs` or one that is not an array throws. |
| TopologySorting.CollectInputEdges | src/transaction/utils/topologySorting.js:6-10 | The loop over the inputs computes `InputEdges`. |
| TopologySorting.InputEdges | src/transaction/utils/topologySorting.js:6-10 | Defining function, with no contract of its own: the walk over one transaction's inputs. `CollectInputEdges` is proved equal to it; `InputEdgesFacts` states what it is. |
| TopologySorting.SpendEdges | src/transaction/utils/topologySorting.js:6-10 | Defining function, with no contract of its own: the reference list, one edge `(id, spent id)` per spending input, in input order. |
| TopologySorting.InputEdgesFacts | src/transaction/utils/topologySorting.js:6-10 | A transaction's inputs give edges exactly when none is missing. The edges are then exactly `SpendEdges` of the inputs: one edge `(tx.id, spent id)` per input that spends, in input order, and no other edges. Their count is the number of spending inputs. |
| TopologySorting.InputEdgesInOrder | src/transaction/utils/topologySorting.js:6-10 | A successful walk gives exactly `SpendEdges` of the inputs walked, in input order. |
| TopologySorting.InputEdgesCounted | src/transaction/utils/topologySorting.js:6-10 | The walk succeeds exactly when no input is missing. It then gives as many edges as there are spending inputs, each from `tx.id` to some spending input's spent id, and every spending input has its edge. |
| TopologySorting.InputEdgesFailureStays | src/transaction/utils/topologySorting.js:6-10 | A missing input stops the walk with its error. |
| TopologySorting.ConcatEachFailureStays | src/transaction/utils/topologySorting.js:5-11 | A transaction that throws stops the walk with its error. |
| TopologySorting.NoSpendsNoEdges | src/transaction/utils/topologySorting.js:6-10 | Inputs whose `fulfills` are all falsy give no edge. |
| TopologySorting.ConcatEachIsFlatten | src/transaction/utils/topologySorting.js:5-11 | The walk succeeds iff every transaction does. Its edges are the concatenation of each transaction's edges, in order. |
| TopologySorting.GraphIsFlatten | src/transaction/utils/topologySorting.js:3-14 | The same, for the whole graph. |
| TopologySorting.Reverse | src/transaction/utils/topologySorting.js:26 | Reversal puts element `i` at `n-1-i`. |
| TopologySorting.ReverseFlipsEdges | src/transaction/utils/topologySorting.js:26 | An order with every edge forwards, reversed, puts every edge's target first. |
| TopologySorting.TopsortDependencyOrder | src/transaction/utils/topologySorting.js:24-27 | When `toposort` returns an order consistent with the graph, every spent transaction comes before the one that spends it. |
| TopologySorting.TopsortTransactions | src/transaction/utils/topologySorting.js:24-27 | Defining function, with no contract of its own: `topsortTransactions`. Stated by `Reverse`, `ReverseFlipsEdges` and `TopsortDependencyOrder`. |
| Sanitize.FilterTest | src/sanitize.js:11-22 | An array or a function is a filter; anything else throws. |
| Sanitize.FilterFromObject | src/sanitize.js:11-22 | Defining function, with no contract of its own: `filterFromObject`. Stated by `ExclusionKeepsRejected`, `ArrayFilterByKey` and `OtherFilterThrows`. |
| Sanitize.ApplyFilterOnObject | src/sanitize.js:29-42 | The method's loop over the entries computes `ApplyFilterSpec`. |
| Sanitize.ApplyFilterSpec | src/sanitize.js:29-42 | Defining function, with no contract of its own: `applyFilterOnObject`. `ApplyFilterOnObject` is proved equal to it; `ApplyFilterFacts` and `CopyWithoutFilter` state what it is. |
| Sanitize.Select | src/sanitize.js:34-39 | Every kept entry is one of the entries read. |
| Sanitize.FilterFoldIsSelect | src/sanitize.js:34-39 | The assignment fold over unique keys equals keeping the passing entries in order. |
| Sanitize.SelectUnique | src/sanitize.js:34-39 | The copy never holds a key twice. |
| Sanitize.SelectHasKey | src/sanitize.js:34-39 | A key is kept iff an entry with that key passes. |
| Sanitize.SelectLookup | src/sanitize.js:34-39 | A kept key holds its original value; a key whose entry fails reads as `undefined`. |
| Sanitize.ApplyFilterFacts | src/sanitize.js:29-42 | With a filter, the copy holds exactly the entries that pass, with their values, in their order. |
| Sanitize.CopyWithoutFilter | src/sanitize.js:30-32 | Without a filter, the copy equals the object. |
| Sanitize.SelectFromObject | src/sanitize.js:53-55 | Defining function, with no contract of its own: `selectFromObject`, an inclusion filter. Stated by `SanitizeFacts`. |
| Sanitize.SanitizeFacts | src/sanitize.js:66-68 | `sanitize` keeps exactly the truthy properties, with their values. |
| Sanitize.Sanitize | src/sanitize.js:66-68 | Defining function, with no contract of its own: `sanitize`. Stated by `SanitizeFacts`. |
| Sanitize.ExclusionKeepsRejected | src/sanitize.js:15-18 | An excluding function filter keeps exactly the entries the function rejects. |
| Sanitize.ArrayFilterByKey | src/sanitize.js:12-14 | An array filter keeps a key iff its membership matches `isInclusion`. |
| Sanitize.OtherFilterThrows | src/sanitize.js:19-21 | Any other filter throws `Error('The given filter is not an array or function. Exclude aborted')`. |
| NodeRequest.Request.constructor | src/request.js:24-30 | Stores the node and config, with no backoff time, 0 retries and no error. |
| NodeRequest.Request.UpdateBackoffTime | src/request.js:90-99 | The new backoff state is `Update(old state, now)`; nothing else changes. |
| NodeRequest.Request.Request | src/request.js:32-81 | The method's effect, its result, new state and timeout, equals `RequestSpec` of the old state and the attempt. |
| NodeRequest.RequestSpec | src/request.js:32-81 | Defining function, with no contract of its own: `request`, as the new backoff state, the request timeout, the result and the fetch sent. `Request.Request` is proved equal to it; `RequestFacts` states what it is. |
| NodeRequest.Prepare | src/request.js:34-46 | Defining function, with no contract of its own: the first half of `request`, where the config is built and the endpoint checked. Stated by `RequestFacts`. |
| NodeRequest.Send | src/request.js:59-80 | Defining function, with no contract of its own: the second half of `request`: the wait, the timeout, then either the synchronous throw of `baseRequest` that bypasses `catch`/`finally`, or the fetch and the backoff update. Stated by `RequestFacts`. |
| NodeRequest.ThrowsAsBaseRequest | src/baseRequest.js:91-109 | Predicate, with no contract of its own: an attempt's synchronous throw is the failure of the url expansion, the only step of `baseRequest` before `fetch` that can throw. Used by `TemplateErrorRejects`. |
| NodeRequest.TemplateErrorRejects | src/request.js:70-80 | When `baseRequest` fails to expand the url template, `request` rejects with that error and the backoff state is unchanged: nothing recorded, no backoff. When the expansion succeeds, the backoff is updated after recording the fetch's outcome. |
| NodeRequest.TimedeltaFacts | src/request.js:83-88 | An unset backoff time gives 0; a set one gives `backoffTime - now`, which is negative once it has passed. |
| NodeRequest.Timedelta | src/request.js:83-88 | Defining function, with no contract of its own: `getBackoffTimedelta`. Stated by `TimedeltaFacts`. |
| NodeRequest.UpdateFacts | src/request.js:90-99 | With no error, retries become 0 and the backoff time null. After an error, the backoff time is `now + 0.5·2^retries` and retries grow by 1. |
| NodeRequest.Update | src/request.js:90-99 | Defining function, with no contract of its own: `updateBackoffTime`. `Request.UpdateBackoffTime` is proved equal to it. `UpdateFacts`, `DelaysDouble` and `UpdatesAfterError` state what it is. |
| NodeRequest.DelaysDouble | src/request.js:90-99 | Two consecutive errors double the delay. |
| NodeRequest.UpdatesAfterError | src/request.js:90-99 | After `n` more failed attempts, retries grew by `n` and the delay is `0.5·2^(retries+n-1)` from the last attempt. |
| NodeRequest.DelayUnbounded | src/request.js:95 | The delay grows without bound. |
| NodeRequest.RequestFacts | src/request.js:32-81 | The `TimeoutError` guard never fires: the request rejects with that object only when `baseRequest` threw it. A falsy endpoint rejects with `'Request was not given a url.'` and nothing changes. A synchronous throw of `baseRequest` rejects with that error, the timeout set and the backoff state unchanged. Otherwise the state is recorded and updated, and the result is the response, or `undefined` after a connection error. A recorded error stays recorded. |
| NodeRequest.MergeConfigFacts | src/request.js:34-42 | `query` is the sanitised query. A truthy `jsonBody` adds `Content-Type: application/json` to the headers. |
| NodeRequest.MergeConfig | src/request.js:34-42 | Defining function, with no contract of its own: the `Object.assign` merge and the JSON `Content-Type`. Stated by `MergeConfigFacts`. |
| NodeRequest.RequestConfigFacts | src/request.js:34-42 | The same, for the merge that reads `node.headers` and `config.query`. |
| NodeRequest.RequestConfig | src/request.js:34-42 | Defining function, with no contract of its own: the fetch configuration with the sanitised query. Stated by `RequestConfigFacts`. |
| NodeTransport.Normalized | src/transport.js:36-40 | Every connection in the pool gets its backoff time normalised. |
| NodeTransport.RunningMin | src/transport.js:34-41 | The running choice is an index of the pool. |
| NodeTransport.PickIndex | src/transport.js:30-42 | The pick is an index of a non-empty pool. |
| NodeTransport.PickConns | src/transport.js:30-42 | The pool keeps its size when picking. |
| NodeTransport.TryNext | src/transport.js:49-59 | One attempt picks an index of the pool and keeps its size. |
| NodeTransport.AdvanceSpec | src/transport.js:48-66 | One pass of the loop keeps the pool's size. |
| NodeTransport.NormalizeBackoff | src/transport.js:38 | The method writes `backoffTime ? backoffTime : 0` into one connection. Its node, request timeout, retries, connection error and `requestConfig` stay as they were. |
| NodeTransport.ScanPool | src/transport.js:34-41 | The method's loop normalises every connection and returns the running minimum it picked. Every connection's `requestConfig` stays as it was. |
| NodeTransport.Transport.constructor | src/transport.js:18-26 | Creates one fresh `Request` per node, in order, all with the shared headers. Stores the timeout and `maxBackoffTime`. |
| NodeTransport.Transport.PickConnection | src/transport.js:30-42 | Returns the connection at `PickIndex` and leaves the pool states `PickConns`; an empty pool gives `undefined`. The `requestConfig`s stay as they were. |
| NodeTransport.Transport.TryConnection | src/transport.js:49-59 | One pick and one `request` leave the pool as `TryNext` says, and the `requestConfig`s as they were. |
| NodeTransport.Transport.Advance | src/transport.js:48-66 | One pass of the loop is the abstract `step`: it returns, throws, or goes on with the new timeout and the last connection. |
| NodeTransport.Transport.ForwardRequest | src/transport.js:44-75 | The method's loop ends with the outcome, pool states and timeout of `ForwardFrom` over the attempts. The pool objects, `maxBackoffTime` and every `requestConfig` stay as they were. |
| NodeTransport.ForwardFrom | src/transport.js:44-75 | Defining function, with no contract of its own: the loop of `forwardRequest` over the attempt script. `Transport.ForwardRequest` is proved equal to it. `ForwardPass`, `ForwardTimeout`, `ForwardReturned`, `ForwardEnds` and `FailedPoolNeverReturns` state what it is. |
| NodeTransport.RunningMinFacts | src/transport.js:34-41 | The choice has the least backoff time of the pool; ties go to the smallest index. |
| NodeTransport.PickFacts | src/transport.js:30-42 | The pick has the least backoff time, and ties go to the smallest index. A single connection is returned untouched. Picking changes only the representation of backoff times. |
| NodeTransport.ForwardTimeout | src/transport.js:60-62 | The timeout is the initial one minus the time spent on attempts that backed off. |
| NodeTransport.ForwardReturned | src/transport.js:61-66 | A returned response comes from an attempt that left its connection without a backoff time, and it is what that attempt fetched. That the loop stops at the first such attempt is stated pass by pass by `ForwardPass`. |
| NodeTransport.ForwardPass | src/transport.js:48-66 | One pass while the timeout allows it, on a non-empty pool. A rejected request's error is rethrown unchanged, and the loop ends at that attempt. A response from a connection whose backoff is unset is returned, and the loop ends at that attempt. Otherwise the attempt's time comes off the timeout and the loop goes on with the next attempt. So the loop ends at the first attempt that rejects or finds its backoff unset. |
| NodeTransport.ForwardEnds | src/transport.js:48-74 | Once the timeout is spent, the loop throws the last connection's error, or `TimeoutError`. Running out of attempts happens only while the timeout still allows another. |
| NodeTransport.EmptyPoolThrows | src/transport.js:30-54 | With no nodes, the first pass throws `TypeError`. |
| NodeTransport.TryNextAfterFailure | src/transport.js:54-65 | On a pool where every node has failed, an attempt that fails keeps that so; a success of the call then still leaves a backoff time. |
| NodeTransport.FailedPoolNeverReturns | src/transport.js:48-66 | If every node has failed and every attempt fails, the loop never returns a response. |
| NodeConnection.FirstReserved | src/connection.js:28-32 | Finds the first header name that is reserved. |
| NodeConnection.ValidateHeaders | src/connection.js:28-32 | The method's loop throws `Header <name> is reserved and cannot be set.` for the first reserved header, else passes. |
| NodeConnection.NormalizeNodes | src/connection.js:34-41 | The method's loop normalises each node in order, stopping at the first that throws. |
| NodeConnection.NewConnection | src/connection.js:22-43 | Fails exactly when the constructor throws. Otherwise the stored headers and normalised nodes are the specified ones, with a fresh transport with one fresh `Request` per node. |
| NodeConnection.ConnectionSpec | src/connection.js:22-43 | Defining function, with no contract of its own: the constructor's result or the error it throws. `NewConnection` is proved equal to it. `ConnectionNodes`, `ReservedHeaderThrows` and `NullHeadersThrow` state what it is. |
| NodeConnection.ConnectionSpecValid | src/connection.js:22-43 | With valid headers, construction is `normalizeNode` mapped over the nodes, against a copy equal to the headers. |
| NodeConnection.Connection.constructor | src/connection.js:22-43 | Stores the headers and nodes and builds the transport over them. |
| NodeConnection.Connection.Req | src/connection.js:71-73 | Forwards to the transport. The outcome, the pool's new states and the transport's new `timeout` are those of `ForwardFrom` on the pool. The transport, its pool objects, `maxBackoffTime` and the `requestConfig`s stay as they were. |
| NodeConnection.ContentTypeReserved | src/connection.js:28-30 | `content-type` is reserved in any letter case; `Accept` and `content_type` are not. |
| NodeConnection.ReservedHeaderThrows | src/connection.js:28-32 | The first reserved header decides the error. |
| NodeConnection.NullHeadersThrow | src/connection.js:22-32 | `headers = null` throws `TypeError`. |
| NodeConnection.ConnectionNodes | src/connection.js:22-41 | A single node is wrapped in a list. Construction succeeds iff no node is null or undefined, and then node `i` normalises to entry `i`. |
| NodeConnection.MergeHeaders | src/connection.js:50 | `Object.assign({}, headers, node.headers)`: a node header overrides a connection header. |
| NodeConnection.NormalizeNodeFacts | src/connection.js:45-53 | A string node gets the connection headers. A missing node throws. An object node keeps its endpoint and gets merged headers. |
| NodeConnection.NormalizeNode | src/connection.js:45-53 | Defining function, with no contract of its own: `normalizeNode`. Stated by `NormalizeNodeFacts` and `MergeHeaders`. |
| NodeConnection.ApiUrlsKnown | src/connection.js:55-69 | Each table name maps to its path. |
| NodeConnection.ApiUrlsUnknown | src/connection.js:55-69 | Any other name gives `undefined`. |
| NodeConnection.GetApiUrls | src/connection.js:55-69 | Defining function, with no contract of its own: `getApiUrls`. Stated by `ApiUrlsKnown` and `ApiUrlsUnknown`. |
| NodeConnection.ListOutputs | src/connection.js:113-125 | `spent = null` throws on `toString`. Otherwise the query is `{public_key}`, with `spent` as a string only when it is defined. |
| NodeConnection.PostRoutes | src/connection.js:154-188 | Each post goes to its `mode=` path; `postTransaction` is `postTransactionCommit`. |
| NodeConnection.PostBody | src/connection.js:161-166 | A post sends `method: 'POST'` with the transaction as `jsonBody`. |
| NodeConnection.PostOptions | src/connection.js:162-165 | Defining function, with no contract of its own: the `{method: 'POST', jsonBody}` options. Stated by `PostRoutes` and `PostBody`. |
| NodeConnection.PostTransaction | src/connection.js:154-156 | Defining function, with no contract of its own: `postTransaction`. Stated by `PostRoutes`. |
| NodeConnection.PostTransactionSync | src/connection.js:161-166 | Defining function, with no contract of its own: `postTransactionSync`. Stated by `PostRoutes`. |
| NodeConnection.PostTransactionAsync | src/connection.js:172-177 | Defining function, with no contract of its own: `postTransactionAsync`. Stated by `PostRoutes`. |
| NodeConnection.PostTransactionCommit | src/connection.js:183-188 | Defining function, with no contract of its own: `postTransactionCommit`. Stated by `PostRoutes`. |
| NodeConnection.ReadRoutes | src/connection.js:78-210 | Each read call goes to its endpoint path. |
| NodeConnection.GetBlock | src/connection.js:78-84 | Defining function, with no contract of its own: `getBlock`. Stated by `ReadRoutes`. |
| NodeConnection.GetTransaction | src/connection.js:89-95 | Defining function, with no contract of its own: `getTransaction`. Stated by `ReadRoutes`. |
| NodeConnection.ListBlocks | src/connection.js:101-107 | Defining function, with no contract of its own: `listBlocks`. Stated by `ReadRoutes`. |
| NodeConnection.ListTransactions | src/connection.js:131-138 | Defining function, with no contract of its own: `listTransactions`. Stated by `ReadRoutes`. |
| NodeConnection.ListVotes | src/connection.js:143-149 | Defining function, with no contract of its own: `listVotes`. Stated by `ReadRoutes`. |
| NodeConnection.SearchAssets | src/connection.js:193-199 | Defining function, with no contract of its own: `searchAssets`. Stated by `ReadRoutes`. |
| NodeConnection.SearchMetadata | src/connection.js:204-210 | Defining function, with no contract of its own: `searchMetadata`. Stated by `ReadRoutes`. |
| FormatText.KeyMatch | src/format_text.js:7 | Matches a key exactly when the text starts with a letter or `_`; the match is the longest run of word characters. |
| FormatText.KeyAccess | src/format_text.js:8 | Matches `.name` exactly when a letter or `_` follows the dot, with the longest name. |
| FormatText.IndexAccess | src/format_text.js:9 | A match is `[digits]`. |
| FormatText.Interpolate | src/format_text.js:47-91 | The method's loop computes `InterpolateSpec`. |
| FormatText.InterpolateSpec | src/format_text.js:66-91 | Defining function, with no contract of its own: what the `replace` callback returns or throws. `Interpolate` is proved equal to it; `InterpolatePath` and the `*Throws` lemmas state what it is. |
| FormatText.CloseAt | src/format_text.js:6 | Scanning from position `q`, the lazy `[^)]+?}` closes at the first `}` at or after `q` with no `)` before it. When a `)` comes first, there is no close. |
| FormatText.TemplateEnd | src/format_text.js:6 | A template is `${` and a first body character other than `)`, which may be `}`. Then come further characters with no `)` and no `}`, then the closing `}`. |
| FormatText.Format | src/format_text.js:39-96 | Without the first pass, the result is `sprintf` of the arguments. |
| FormatText.PathText | src/format_text.js:7-9 | A written path starts with `.` or `[` and holds no `)` or `}`. |
| FormatText.DotAccess | src/format_text.js:74-75 | `.name` followed by more path parses back to `name`. |
| FormatText.IndexAccessText | src/format_text.js:76-77 | `[digits]` parses as an index and not as a key. |
| FormatText.WalkPath | src/format_text.js:72-81 | A written path walks to its end iff evaluating it finds a value, and then to that value. |
| FormatText.Walk | src/format_text.js:72-81 | Defining function, with no contract of its own: the accessor walk of the `while` loop. Stated by `WalkPath`, `DotAccess` and `IndexAccessText`. |
| FormatText.InterpolatePath | src/format_text.js:66-91 | `name` + path gives the value the path finds, or the `SyntaxError` naming the replacement. |
| FormatText.NoKeyThrows | src/format_text.js:87-89 | A replacement that does not start with a key throws the `SyntaxError`. |
| FormatText.NullishWithTextLeftThrows | src/format_text.js:72-89 | A missing value with text still to read throws the `SyntaxError`. |
| FormatText.NullArgumentThrows | src/format_text.js:68 | Interpolating into `null` throws `TypeError`. |
| FormatText.CloseAtPath | src/format_text.js:6 | Scanning from position `q`, the template closes at the first `}` at or after `q` when no `)` comes between. |
| FormatText.PlainText | src/format_text.js:46 | Text without `$` is copied unchanged and does not affect the rest. |
| FormatText.TemplateText | src/format_text.js:46-91 | `${name.path}` is replaced by the string of the value it finds. |
| FormatText.TemplateFound | src/format_text.js:6 | `${path}` is recognised as one template. |
| FormatText.Expand | src/format_text.js:46-91 | Defining function, with no contract of its own: the `replace` over every template. Stated by `PlainText`, `TemplateText` and `TemplateFound`. |
| FormatText.FirstPassGuard | src/format_text.js:43-95 | The first pass runs only for a non-empty string and one object argument. |
| FormatText.DanglingDotThrows | src/format_text.js:72-89 | `${error.}` throws the `SyntaxError` even though `error` exists. |
| QueryParam.StringifyAsQueryParam | src/stringify_as_query_param.js:35-46 | The result is empty exactly for a falsy value, a non-object, or no keys. Otherwise it starts with `?`. |
| QueryParam.TransformFold | src/stringify_as_query_param.js:40-43 | Defining function, with no contract of its own: the `reduce` onto a fresh object. Stated by the `TransformFold*` lemmas and `IdentityCopies`. |
| QueryParam.TransformFoldUnique | src/stringify_as_query_param.js:40-43 | The transformed object never holds a key twice. |
| QueryParam.TransformFoldHasKey | src/stringify_as_query_param.js:40-43 | It holds exactly the transformed keys. |
| QueryParam.TransformFoldLookup | src/stringify_as_query_param.js:40-43 | A transformed key holds the value of the last entry that maps to it. |
| QueryParam.IdentityCopies | src/stringify_as_query_param.js:40-43 | The identity transform copies the object entry for entry. |
| QueryParam.QueryFacts | src/stringify_as_query_param.js:35-46 | The result is `?` + stringify of the transformed object, which passes each value on under its transformed key. |
| QueryParam.EmptyCases | src/stringify_as_query_param.js:36-38 | `{}`, `[]`, null, undefined and primitives give `''`. |
| BaseRequest.Without | src/baseRequest.js:91-96 | The rest of the destructuring holds none of the named keys. |
| BaseRequest.WithoutLookup | src/baseRequest.js:91-96 | The rest keeps every other key with its value. |
| BaseRequest.Request | src/baseRequest.js:91-134 | A `null` config throws. Otherwise the fetch call has the expanded url + query suffix, the rest of the options with `body`, and the timeout when truthy. A failed expansion propagates. |
| BaseRequest.ExpandUrl | src/baseRequest.js:99-111 | Defining function, with no contract of its own: the url after `urlTemplateSpec`. Stated by `UrlExpansion`. |
| BaseRequest.QuerySuffix | src/baseRequest.js:113-122 | Defining function, with no contract of its own: what the query appends. Stated by `QueryAppended`. |
| BaseRequest.FetchInit | src/baseRequest.js:91-126 | Defining function, with no contract of its own: the `init` passed to `fetch`. Stated by `FetchInitFacts`. |
| BaseRequest.UrlExpansion | src/baseRequest.js:99-111 | A non-empty array spec uses `vsprintf` and an object spec with keys uses `formatText`. Any other spec leaves the url unchanged. |
| BaseRequest.QueryAppended | src/baseRequest.js:113-122 | A string query is appended as it is. An object query is appended as `?…`. Other primitives append nothing. |
| BaseRequest.FetchInitFacts | src/baseRequest.js:91-126 | `fetch` never sees `jsonBody`, `query` or `urlTemplateSpec`. `body` is the JSON of a non-null `jsonBody`. Every other option passes unchanged. |
| BaseRequest.HandleResponse | src/baseRequest.js:49-60 | Succeeds exactly for an ok response, which is returned unchanged. |
| BaseRequest.Name | src/baseRequest.js:14-22 | Only a `ResponseError` is named `'ResponseError'`. |
| BaseRequest.ResponseErrorFields | src/baseRequest.js:49-60 | A response that is not ok throws `ResponseError('HTTP Error: Requested page not reachable', '<status> <statusText>', url)`. A missing response throws `TypeError`. |

## Left out

- Cryptography is a parameter of the model, not a computation: SHA3-256, Ed25519 signing, base58, the condition URIs and fingerprints of the crypto-conditions library. Their algorithms are outside the driver.
- `sprintf`/`vsprintf`, `decamelize`, `queryString.stringify`, `JSON.stringify`, `toposort`, `parseInt` and `Buffer` UTF-8 encoding are parameters for the same reason.
- `clone` is modelled as a value copy. JavaScript values here are immutable data, so aliasing between the clone and the original is not represented.
- `fetch`, the `timeout` race and `Request.sleep` are not executed. `baseRequest` returns the call it would make (`BaseRequest.FetchCall`), and `res.json()` is part of an `Attempt`'s result.
- The clock is an input. An `Attempt` carries the start and finish times. The finish time also stands for the `Date.now()` of `updateBackoffTime`, and the start for the one of `getBackoffTimedelta`.
- NodeTransport.Transport.ForwardRequest: the JavaScript loop need not terminate (a null or zero timeout with instant attempts). The model runs over a finite list of attempts and reports `OutOfAttempts` when the list ends.
- NodeTransport.Transport.Advance: a pass of the loop is related to `TryNext` only through the abstract `step` and `prepare` links. The model does not unfold a pass inside the loop's proof.
- NodeTransport.Transport.ForwardRequest: each call runs to completion without interleaving. In JavaScript, calls made at once on one `Connection` (for example through `Promise.all`) interleave at the `await`s of `forwardRequest` and `request`. While interleaved, they share the transport's `timeout`, each node's `backoffTime` and `retries`, and `Request.timeout`. The model does not capture those concurrent updates, such as two in-flight calls that both saw no backoff and both raise `retries`.
- NodeRequest.Request.Request: runs to completion as one step, for the same reason; a concurrent call cannot change the node's backoff between its `await` and its update.
- NodeTransport.ForwardReturned: says where a returned response comes from, not that it comes from the first attempt without backoff. That the loop stops at the first attempt that rejects or finds its backoff unset is stated one pass at a time by `NodeTransport.ForwardPass`, not as one formula over the whole script.
- `maxBackoffTime` is computed but never read by `request`, so it does not affect the model. `Request.requestConfig` is stored but never read either.
- The `console.warn` branches of `baseRequest` are not modelled; the url is left unchanged there, as in the code.
- Numbers are integers. Floating-point numbers, `NaN` and `-0` are not modelled. Times and delays are reals, so `0.5·2^n` is exact.
- `toLowerCase` and the `/i` flag are ASCII-only in the model.
- JavaScript's ordering of integer-like keys before other keys is not modelled; all keys keep insertion order.
- `getApiUrls` looks names up in a fresh object literal. Names inherited from `Object.prototype` (such as `toString`) are not modelled and give `undefined` here.
- The `DEFAULT_NODE` branch of the `Connection` constructor is unreachable (`[nodes]` is never falsy) and is not modelled.
- The second pass of `formatText` is `sprintf`, a parameter. Only the `${...}` first pass is modelled.
- The crypto-conditions library's setters are modelled as never throwing: `setPublicKey` (`makeEd25519Condition` and the `ed25519-sha-256` branch of `ccJsonLoad`), `setTypeId`, `setSubtypes` and `setHash` (the condition branch of `ccJsonLoad`), and `addSubfulfillment`/`addSubcondition` only record their argument. Their internal checks, such as a public key that is not 32 bytes, are outside the driver.
- Transaction.Include: compares keys by structural equality. JavaScript's `includes` uses SameValueZero, so two distinct objects with the same content are both kept there. For string keys, such as the `public_key` that `ccJsonify` writes, the two agree.
- JsValue.GetProp: on a string, `length` and index reads count characters (code points). JavaScript counts UTF-16 code units, so the two differ for strings with characters above U+FFFF, such as `${s.length}` in `formatText`.
- The `stack` field of `ResponseError` is not modelled.
- The `json = false` results of the condition wrappers are the abstract condition objects.
- The helpers in `src/connection/` and `src/transaction/` that duplicate the class methods, `pollStatusAndFetchTransaction`, `getStatus`, `Ed25519Keypair` (key generation is randomness) and `sha256Hash` are not part of this model.
