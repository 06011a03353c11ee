/**
 * `Connection`: the headers sent with every request, the nodes the driver
 * talks to, the table of API paths, and the call each API method hands to
 * the transport.
 */
module NodeConnection {
  import opened Wrappers
  import opened JsValue
  import opened NodeRequest
  import opened NodeTransport

  /** `HEADER_BLACKLIST` */
  const HeaderBlacklist: seq<string> := ["content-type"]

  /** `toLowerCase` on one character; only the ASCII capitals change. */
  function LowerChar(c: char): char
  {
    if 'A' <= c <= 'Z' then (c as int + 32) as char else c
  }

  /** `header.toLowerCase()` */
  function LowerCase(s: string): string
  {
    seq(|s|, i requires 0 <= i < |s| => LowerChar(s[i]))
  }

  /** `HEADER_BLACKLIST.includes(header.toLowerCase())` */
  predicate Reserved(header: string)
  {
    LowerCase(header) in HeaderBlacklist
  }

  function ReservedMessage(header: string): string
  {
    "Header " + header + " is reserved and cannot be set."
  }

  /** The first reserved name among the first `n`, if any. */
  function FirstReserved(names: seq<string>, n: nat): (r: Option<nat>)
    requires n <= |names|
    ensures r.Some? ==> r.value < n && Reserved(names[r.value]) && forall j | 0 <= j < r.value :: !Reserved(names[j])
    ensures r.None? ==> forall j | 0 <= j < n :: !Reserved(names[j])
  {
    if n == 0 then None
    else
      var r := FirstReserved(names, n - 1);
      if r.Some? then r else if Reserved(names[n - 1]) then Some(n - 1) else None
  }

  /** The `forEach` over the header names: the first reserved name throws. */
  method ValidateHeaders(names: seq<string>) returns (error: Option<Exception>)
    ensures var i := FirstReserved(names, |names|);
            error == if i.Some? then Some(Error(ReservedMessage(names[i.value]))) else None
  {
    var i := 0;
    while i < |names|
      invariant 0 <= i <= |names| && FirstReserved(names, i).None?
    {
      if Reserved(names[i]) {
        return Some(Error(ReservedMessage(names[i])));
      }
      i := i + 1;
    }
    return None;
  }

  /** `normalizeNode(node, headers)`: a url, or an object whose own headers are merged over the shared ones. */
  function NormalizeNode(node: Value, headers: Value): Result<Value, Exception>
  {
    if node.Str? then Success(Obj([("endpoint", node), ("headers", headers)]))
    else
      var nodeHeaders :- GetProp(node, "headers");
      var allHeaders := Obj(Assign([], [headers, nodeHeaders]));
      Success(Obj([("endpoint", GetProp(node, "endpoint").value), ("headers", allHeaders)]))
  }

  /** `Array.isArray(nodes) ? nodes : [nodes]` */
  function NodesArray(nodes: Value): seq<Value>
  {
    if nodes.Arr? then nodes.items else [nodes]
  }

  /** The `forEach` callback that normalizes one node against the shared headers. */
  function NormalizeStep(headers: Value): (nat, Value) -> Result<Value, Exception>
  {
    (i: nat, node: Value) => NormalizeNode(node, headers)
  }

  /** The pushes of `normalizeNode(node, this.headers)` onto `normalizedNodes`, one node at a time. */
  method NormalizeNodes(nodes: seq<Value>, headers: Value) returns (r: Result<seq<Value>, Exception>)
    ensures r == MapEach(NormalizeStep(headers), nodes, |nodes|)
  {
    var normalized: seq<Value> := [];
    var i := 0;
    while i < |nodes|
      invariant 0 <= i <= |nodes| && MapEach(NormalizeStep(headers), nodes, i) == Success(normalized)
    {
      var node := NormalizeNode(nodes[i], headers);
      if node.Failure? {
        MapEachFailsAt(NormalizeStep(headers), nodes, i, |nodes|);
        return Failure(node.error);
      }
      normalized := normalized + [node.value];
      i := i + 1;
    }
    return Success(normalized);
  }

  /**
   * What the constructor computes before building the transport: the copied
   * headers and the normalized nodes, or what it throws.  An undefined
   * `headers` is the default `{}`.  The `DEFAULT_NODE` branch is never taken,
   * as `nodesArray` is always an array and so truthy.
   */
  function ConnectionSpec(nodes: Value, headers: Value): Result<(Value, seq<Value>), Exception>
  {
    var headers := if headers.Undefined? then Obj([]) else headers;
    var copy := Obj(Assign([], [headers]));
    var entries :- ObjectEntries(headers);
    var reserved := FirstReserved(Keys(entries), |entries|);
    if reserved.Some? then Failure(Error(ReservedMessage(Keys(entries)[reserved.value])))
    else
      var xs := NodesArray(nodes);
      var normalized :- MapEach(NormalizeStep(copy), xs, |xs|);
      Success((copy, normalized))
  }

  /** `new Connection(nodes, headers, timeout)`, which either throws or holds a fresh transport over the normalized nodes. */
  method NewConnection(nodes: Value, headers: Value, timeout: Option<real>) returns (r: Result<Connection, Exception>)
    ensures var spec := ConnectionSpec(nodes, headers);
            && (r.Failure? <==> spec.Failure?)
            && (r.Failure? ==> r.error == spec.error)
            && (r.Success? ==>
                  && fresh(r.value) && fresh(r.value.transport) && r.value.Valid()
                  && r.value.headers == spec.value.0 && r.value.normalizedNodes == spec.value.1
                  && r.value.transport.timeout == timeout
                  && |r.value.transport.connectionPool| == |spec.value.1|
                  && forall i | 0 <= i < |spec.value.1| ::
                       && r.value.transport.connectionPool[i].node == spec.value.1[i]
                       && r.value.transport.connectionPool[i].requestConfig == spec.value.0
                       && r.value.transport.connectionPool[i].State() == Fresh)
  {
    var headers := if headers.Undefined? then Obj([]) else headers;
    var copy := Obj(Assign([], [headers]));
    var entries := ObjectEntries(headers);
    if entries.Failure? {
      return Failure(entries.error);
    }
    var reserved := ValidateHeaders(Keys(entries.value));
    if reserved.Some? {
      return Failure(reserved.value);
    }
    var normalized := NormalizeNodes(NodesArray(nodes), copy);
    if normalized.Failure? {
      return Failure(normalized.error);
    }
    var connection := new Connection(copy, normalized.value, timeout);
    return Success(connection);
  }

  /** The API paths `getApiUrls` looks names up in. */
  const ApiTable: Entries := [
    ("blocks", Str("blocks")),
    ("blocksDetail", Str("blocks/%(blockHeight)s")),
    ("outputs", Str("outputs")),
    ("transactions", Str("transactions")),
    ("transactionsSync", Str("transactions?mode=sync")),
    ("transactionsAsync", Str("transactions?mode=async")),
    ("transactionsCommit", Str("transactions?mode=commit")),
    ("transactionsDetail", Str("transactions/%(transactionId)s")),
    ("assets", Str("assets")),
    ("metadata", Str("metadata")),
    ("votes", Str("votes"))]

  /** `getApiUrls(endpoint)`: the table indexed by the endpoint's string form. */
  function GetApiUrls(endpoint: Value): Value
  {
    Lookup(ApiTable, ToJsString(endpoint))
  }

  /** What an API method hands to `_req`: the path and the options. */
  datatype Call = Call(path: Value, options: Value)

  function GetBlock(blockHeight: Value): Call
  {
    Call(GetApiUrls(Str("blocksDetail")), Obj([("urlTemplateSpec", Obj([("blockHeight", blockHeight)]))]))
  }

  function GetTransaction(transactionId: Value): Call
  {
    Call(GetApiUrls(Str("transactionsDetail")), Obj([("urlTemplateSpec", Obj([("transactionId", transactionId)]))]))
  }

  function ListBlocks(transactionId: Value): Call
  {
    Call(GetApiUrls(Str("blocks")), Obj([("query", Obj([("transaction_id", transactionId)]))]))
  }

  /** `listOutputs(publicKey, spent)`: `spent` joins the query as a string unless it is undefined. */
  method ListOutputs(publicKey: Value, spent: Value) returns (r: Result<Call, Exception>)
    ensures r.Failure? <==> spent.Null?   // `null.toString()`
    ensures r.Failure? ==> r.error == EngineTypeError
    ensures r.Success? ==>
              && r.value.path == GetApiUrls(Str("outputs"))
              && r.value.options.Obj? && Keys(r.value.options.entries) == ["query"]
              && var query := Lookup(r.value.options.entries, "query");
                 && query.Obj?
                 && Keys(query.entries) == (if spent.Undefined? then ["public_key"] else ["public_key", "spent"])
                 && Lookup(query.entries, "public_key") == publicKey
                 && Lookup(query.entries, "spent") == (if spent.Undefined? then Undefined else Str(ToJsString(spent)))
  {
    var query := [("public_key", publicKey)];
    if !spent.Undefined? {
      if spent.Null? {
        return Failure(EngineTypeError);
      }
      query := SetKey(query, "spent", Str(ToJsString(spent)));
    }
    r := Success(Call(GetApiUrls(Str("outputs")), Obj([("query", Obj(query))])));
    assert Keys(query) == (if spent.Undefined? then ["public_key"] else ["public_key", "spent"]);
    LookupAt(query, 0);
    if !spent.Undefined? {
      LookupAt(query, 1);
    }
  }

  function ListTransactions(assetId: Value, operation: Value): Call
  {
    Call(GetApiUrls(Str("transactions")), Obj([("query", Obj([("asset_id", assetId), ("operation", operation)]))]))
  }

  function ListVotes(blockId: Value): Call
  {
    Call(GetApiUrls(Str("votes")), Obj([("query", Obj([("block_id", blockId)]))]))
  }

  /** The options of the three `postTransaction*` methods. */
  function PostOptions(transaction: Value): Value
  {
    Obj([("method", Str("POST")), ("jsonBody", transaction)])
  }

  function PostTransactionSync(transaction: Value): Call
  {
    Call(GetApiUrls(Str("transactionsSync")), PostOptions(transaction))
  }

  function PostTransactionAsync(transaction: Value): Call
  {
    Call(GetApiUrls(Str("transactionsAsync")), PostOptions(transaction))
  }

  function PostTransactionCommit(transaction: Value): Call
  {
    Call(GetApiUrls(Str("transactionsCommit")), PostOptions(transaction))
  }

  /** `postTransaction` is `postTransactionCommit`. */
  function PostTransaction(transaction: Value): Call
  {
    PostTransactionCommit(transaction)
  }

  function SearchAssets(search: Value): Call
  {
    Call(GetApiUrls(Str("assets")), Obj([("query", Obj([("search", search)]))]))
  }

  function SearchMetadata(search: Value): Call
  {
    Call(GetApiUrls(Str("metadata")), Obj([("query", Obj([("search", search)]))]))
  }

  class Connection {
    var headers: Value
    var normalizedNodes: seq<Value>
    var transport: Transport

    ghost predicate Valid()
      reads this, transport
    {
      transport.Valid()
    }

    /** The assignments of the constructor once the headers are checked and the nodes normalized. */
    constructor(headers: Value, normalizedNodes: seq<Value>, timeout: Option<real>)
      ensures Valid() && fresh(transport)
      ensures this.headers == headers && this.normalizedNodes == normalizedNodes && transport.timeout == timeout
      ensures |transport.connectionPool| == |normalizedNodes|
      ensures forall i | 0 <= i < |normalizedNodes| ::
                && transport.connectionPool[i].node == normalizedNodes[i]
                && transport.connectionPool[i].requestConfig == headers
                && transport.connectionPool[i].State() == Fresh
    {
      this.headers := headers;
      this.normalizedNodes := normalizedNodes;
      transport := new Transport(normalizedNodes, headers, timeout);
    }

    /** `_req(pathEndpoint, options)`: the transport's `forwardRequest`. */
    method Req(path: Value, options: Value, attempts: seq<Attempt>, ghost prepare: Value -> Prepared, ghost step: Step)
      returns (outcome: Outcome)
      requires Valid() && Prepares(prepare, path, options) && Steps(step, prepare)
      modifies transport, transport.connectionPool
      ensures Valid() && transport == old(transport) && transport.connectionPool == old(transport.connectionPool)
      ensures transport.maxBackoffTime == old(transport.maxBackoffTime)
      ensures forall j | 0 <= j < |transport.connectionPool| ::
                transport.connectionPool[j].requestConfig == old(transport.connectionPool[j].requestConfig)
      ensures var f := ForwardFrom(step, old(ConnsOf(transport.connectionPool)), old(transport.timeout), None, attempts, 0);
              && outcome == f.outcome
              && ConnsOf(transport.connectionPool) == f.conns
              && transport.timeout == f.timeout
    {
      outcome := transport.ForwardRequest(path, options, attempts, prepare, step);
    }
  }

  // ---------------------------------------------------------------------------
  // Properties

  /** `Content-Type` is reserved in any letter case. */
  lemma ContentTypeReserved()
    ensures Reserved("content-type") && Reserved("Content-Type") && Reserved("CONTENT-TYPE")
    ensures !Reserved("Accept") && !Reserved("content_type")
  {
    assert LowerCase("Content-Type") == "content-type";
    assert LowerCase("CONTENT-TYPE") == "content-type";
    assert LowerCase("content-type") == "content-type";
    assert |LowerCase("Accept")| == 6;
    assert LowerCase("content_type")[7] == '_';
  }

  /** The first reserved header name, in key order, is the one the constructor throws about. */
  lemma ReservedHeaderThrows(nodes: Value, headers: Value, i: nat)
    requires headers.Obj? && i < |headers.entries| && Reserved(headers.entries[i].0)
    requires forall j | 0 <= j < i :: !Reserved(headers.entries[j].0)
    ensures ConnectionSpec(nodes, headers) == Failure(Error(ReservedMessage(headers.entries[i].0)))
  {
    var names := Keys(headers.entries);
    var r := FirstReserved(names, |names|);
    assert names[i] == headers.entries[i].0;
    assert Reserved(names[i]);
    assert forall j | 0 <= j < i :: !Reserved(names[j]);
    assert r.Some? && r.value == i;
  }

  /** A null `headers` throws the engine's TypeError from `Object.keys`. */
  lemma NullHeadersThrow(nodes: Value)
    ensures ConnectionSpec(nodes, Null) == Failure(EngineTypeError)
  {
  }

  /**
   * With valid headers, the headers are copied unchanged, a single node is
   * wrapped in an array, and the normalized nodes are one per node, in order;
   * a null or undefined node throws the engine's TypeError.
   */
  lemma ConnectionNodes(nodes: Value, headers: Value)
    requires headers.Obj? && UniqueKeys(headers.entries)
    requires forall j | 0 <= j < |headers.entries| :: !Reserved(headers.entries[j].0)
    ensures var xs := NodesArray(nodes);
            && (!nodes.Arr? ==> xs == [nodes])
            && ((forall i | 0 <= i < |xs| :: !IsNullish(xs[i])) <==> ConnectionSpec(nodes, headers).Success?)
            && (ConnectionSpec(nodes, headers).Success? ==>
                  && ConnectionSpec(nodes, headers).value.0 == headers
                  && |ConnectionSpec(nodes, headers).value.1| == |xs|
                  && forall i | 0 <= i < |xs| ::
                       ConnectionSpec(nodes, headers).value.1[i] == NormalizeNode(xs[i], headers).value)
  {
    ConnectionSpecValid(nodes, headers);
    var xs := NodesArray(nodes);
    var f := NormalizeStep(headers);
    if forall i | 0 <= i < |xs| :: !IsNullish(xs[i]) {
      MapEachSucceeds(f, xs, |xs|);
      forall i | 0 <= i < |xs| ensures ConnectionSpec(nodes, headers).value.1[i] == NormalizeNode(xs[i], headers).value {
        MapEachAt(f, xs, |xs|, i);
      }
    } else {
      var i :| 0 <= i < |xs| && IsNullish(xs[i]);
      if MapEach(f, xs, |xs|).Success? {
        MapEachAt(f, xs, |xs|, i);
      }
    }
  }

  /** With valid headers, construction is the normalization of every node against a copy equal to the headers. */
  lemma ConnectionSpecValid(nodes: Value, headers: Value)
    requires headers.Obj? && UniqueKeys(headers.entries)
    requires forall j | 0 <= j < |headers.entries| :: !Reserved(headers.entries[j].0)
    ensures var xs := NodesArray(nodes);
            var m := MapEach(NormalizeStep(headers), xs, |xs|);
            ConnectionSpec(nodes, headers) == if m.Failure? then Failure(m.error) else Success((headers, m.value))
  {
    var names := Keys(headers.entries);
    assert ObjectEntries(headers) == Success(headers.entries);
    assert forall j | 0 <= j < |names| :: !Reserved(names[j]);
    assert FirstReserved(names, |names|) == None;
    assert Assign([], [headers]) == AssignEntries(AssignEntries([], headers.entries), []);
    AssignEntriesCopy(headers.entries);
    assert Obj(Assign([], [headers])) == headers;
  }

  /** `Object.assign({}, headers, nodeHeaders)`: the node's own headers win over the shared ones. */
  lemma MergeHeaders(headers: Value, nodeHeaders: Value, k: string)
    requires headers.Obj? && UniqueKeys(headers.entries)
    requires nodeHeaders.Undefined? || (nodeHeaders.Obj? && UniqueKeys(nodeHeaders.entries))
    ensures Lookup(Assign([], [headers, nodeHeaders]), k)
            == if nodeHeaders.Obj? && HasKey(nodeHeaders.entries, k) then Lookup(nodeHeaders.entries, k)
               else Lookup(headers.entries, k)
  {
    var es: Entries := if nodeHeaders.Undefined? then [] else nodeHeaders.entries;
    var first := AssignEntries([], headers.entries);
    assert [headers, nodeHeaders][1..] == [nodeHeaders];
    assert Assign([], [headers, nodeHeaders]) == Assign(first, [nodeHeaders]);
    assert Assign(first, [nodeHeaders]) == Assign(AssignEntries(first, es), []);
    AssignEntriesLookup([], headers.entries, k);
    if nodeHeaders.Obj? {
      AssignEntriesLookup(AssignEntries([], headers.entries), nodeHeaders.entries, k);
    }
  }

  /**
   * A url node keeps the shared headers; an object node takes its `endpoint`
   * and the shared headers overridden by its own, and a null or undefined
   * node throws the engine's TypeError.
   */
  lemma NormalizeNodeFacts(node: Value, headers: Value, k: string)
    requires headers.Obj? && UniqueKeys(headers.entries)
    ensures node.Str? ==> NormalizeNode(node, headers) == Success(Obj([("endpoint", node), ("headers", headers)]))
    ensures IsNullish(node) ==> NormalizeNode(node, headers) == Failure(EngineTypeError)
    ensures node.Obj? && (var h := Lookup(node.entries, "headers"); h.Undefined? || (h.Obj? && UniqueKeys(h.entries))) ==>
              var h := Lookup(node.entries, "headers");
              var r := NormalizeNode(node, headers);
              && r.Success? && Keys(r.value.entries) == ["endpoint", "headers"]
              && Lookup(r.value.entries, "endpoint") == Lookup(node.entries, "endpoint")
              && var all := Lookup(r.value.entries, "headers");
                 && all.Obj?
                 && Lookup(all.entries, k) == if h.Obj? && HasKey(h.entries, k) then Lookup(h.entries, k) else Lookup(headers.entries, k)
  {
    if node.Obj? {
      var h := Lookup(node.entries, "headers");
      if h.Undefined? || (h.Obj? && UniqueKeys(h.entries)) {
        MergeHeaders(headers, h, k);
        var r := NormalizeNode(node, headers).value;
        LookupAt(r.entries, 0);
        LookupAt(r.entries, 1);
      }
    }
  }

  /** Each name of the table gives its path. */
  lemma ApiUrlsKnown(i: nat)
    requires i < |ApiTable|
    ensures GetApiUrls(Str(ApiTable[i].0)) == ApiTable[i].1
  {
    assert UniqueKeys(ApiTable) by {
      forall a, b | 0 <= a < b < |ApiTable| ensures ApiTable[a].0 != ApiTable[b].0 {
      }
    }
    LookupAt(ApiTable, i);
  }

  /** Any name the table does not hold gives undefined. */
  lemma ApiUrlsUnknown(endpoint: Value)
    requires forall i | 0 <= i < |ApiTable| :: ApiTable[i].0 != ToJsString(endpoint)
    ensures GetApiUrls(endpoint) == Undefined
  {
    assert !HasKey(ApiTable, ToJsString(endpoint)) by {
      assert forall i | 0 <= i < |ApiTable| :: Keys(ApiTable)[i] == ApiTable[i].0;
    }
  }

  /**
   * The three ways of posting a transaction send it to `transactions` with the
   * mode `sync`, `async` or `commit`; `postTransaction` posts with `commit`.
   */
  lemma PostRoutes(transaction: Value)
    ensures PostTransactionSync(transaction).path == Str("transactions?mode=sync")
    ensures PostTransactionAsync(transaction).path == Str("transactions?mode=async")
    ensures PostTransactionCommit(transaction).path == Str("transactions?mode=commit")
    ensures PostTransaction(transaction) == PostTransactionCommit(transaction)
  {
    ApiUrlsKnown(4);
    ApiUrlsKnown(5);
    ApiUrlsKnown(6);
  }

  /** Every post is a `POST` whose JSON body is the transaction. */
  lemma PostBody(transaction: Value)
    ensures var o := PostOptions(transaction).entries;
            Lookup(o, "method") == Str("POST") && Lookup(o, "jsonBody") == transaction
  {
    LookupAt(PostOptions(transaction).entries, 0);
    LookupAt(PostOptions(transaction).entries, 1);
  }

  /** The read methods go to the table's paths; the detail paths are templates filled from `urlTemplateSpec`. */
  lemma ReadRoutes(v: Value, w: Value)
    ensures GetBlock(v).path == Str("blocks/%(blockHeight)s")
    ensures GetTransaction(v).path == Str("transactions/%(transactionId)s")
    ensures ListBlocks(v).path == Str("blocks")
    ensures ListTransactions(v, w).path == Str("transactions")
    ensures ListVotes(v).path == Str("votes")
    ensures SearchAssets(v).path == Str("assets")
    ensures SearchMetadata(v).path == Str("metadata")
  {
    ApiUrlsKnown(0);
    ApiUrlsKnown(1);
    ApiUrlsKnown(3);
    ApiUrlsKnown(7);
    ApiUrlsKnown(8);
    ApiUrlsKnown(9);
    ApiUrlsKnown(10);
  }
}
