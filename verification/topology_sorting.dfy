/**
 * Ordering the transactions of an asset by dependency: `generateGraph` lists a
 * spend edge `[spender id, spent id]` for every input that fulfills an output,
 * and `topsortTransactions` reverses the order the `toposort` package gives
 * those edges, so that spent transactions come first.
 */
module TopologySorting {
  import opened Wrappers
  import opened JsValue

  /** `[tx.id, input.fulfills.transaction_id]`: from the spender to the spent transaction. */
  type Edge = (Value, Value)

  /** The edges of the first `k` inputs of the transaction with id `id`, in input order. */
  function InputEdges(id: Value, inputs: seq<Value>, k: nat): (r: Result<seq<Edge>, Exception>)
    requires k <= |inputs|
  {
    if k == 0 then Success([])
    else
      var prev :- InputEdges(id, inputs, k - 1);
      var fulfills :- GetProp(inputs[k - 1], "fulfills");
      if Truthy(fulfills) then Success(prev + [(id, GetProp(fulfills, "transaction_id").value)])
      else Success(prev)
  }

  /** The edges of one transaction; `tx.inputs.forEach` needs an array. */
  function TxEdges(tx: Value): Result<seq<Edge>, Exception>
  {
    var inputs :- GetProp(tx, "inputs");
    if !inputs.Arr? then Failure(EngineTypeError)
    else InputEdges(GetProp(tx, "id").value, inputs.items, |inputs.items|)
  }

  /**
   * The edges `edgesOf` gives for the first `k` transactions, transaction by
   * transaction; the first exception ends the walk.
   */
  function ConcatEach(edgesOf: Value -> Result<seq<Edge>, Exception>, txs: seq<Value>, k: nat): Result<seq<Edge>, Exception>
    requires k <= |txs|
  {
    if k == 0 then Success([])
    else
      var prev :- ConcatEach(edgesOf, txs, k - 1);
      var edges :- edgesOf(txs[k - 1]);
      Success(prev + edges)
  }

  /** `generateGraph(txs)`; `txs.forEach` needs an array. */
  function Graph(txs: Value): Result<seq<Edge>, Exception>
  {
    if !txs.Arr? then Failure(EngineTypeError) else ConcatEach(TxEdges, txs.items, |txs.items|)
  }

  lemma {:induction false} InputEdgesFailureStays(id: Value, inputs: seq<Value>, k: nat, n: nat)
    requires k <= n <= |inputs| && InputEdges(id, inputs, k).Failure?
    ensures InputEdges(id, inputs, n) == InputEdges(id, inputs, k)
  {
    if k < n {
      InputEdgesFailureStays(id, inputs, k, n - 1);
    }
  }

  lemma {:induction false} ConcatEachFailureStays(edgesOf: Value -> Result<seq<Edge>, Exception>, txs: seq<Value>, k: nat, n: nat)
    requires k <= n <= |txs| && ConcatEach(edgesOf, txs, k).Failure?
    ensures ConcatEach(edgesOf, txs, n) == ConcatEach(edgesOf, txs, k)
  {
    if k < n {
      ConcatEachFailureStays(edgesOf, txs, k, n - 1);
    }
  }

  /** The inner `tx.inputs.forEach`: the edges of the inputs, in input order. */
  method CollectInputEdges(id: Value, ins: seq<Value>) returns (r: Result<seq<Edge>, Exception>)
    ensures r == InputEdges(id, ins, |ins|)
  {
    var edges: seq<Edge> := [];
    var i := 0;
    while i < |ins|
      invariant 0 <= i <= |ins|
      invariant InputEdges(id, ins, i) == Success(edges)
    {
      var fulfills := GetProp(ins[i], "fulfills");
      if fulfills.Failure? {
        InputEdgesFailureStays(id, ins, i + 1, |ins|);
        return Failure(fulfills.error);
      }
      if Truthy(fulfills.value) {
        edges := edges + [(id, GetProp(fulfills.value, "transaction_id").value)];
      }
      i := i + 1;
    }
    r := Success(edges);
  }

  /**
   * One step of the outer `forEach`: pushes the edges of transaction `t`'s
   * inputs onto the edges of the transactions before it.
   */
  method PushTxEdges(txs: seq<Value>, t: nat, graph: seq<Edge>) returns (r: Result<seq<Edge>, Exception>)
    requires t < |txs| && ConcatEach(TxEdges, txs, t) == Success(graph)
    ensures r == ConcatEach(TxEdges, txs, t + 1)
  {
    var tx := txs[t];
    assert ConcatEach(TxEdges, txs, t + 1) == if TxEdges(tx).Failure? then Failure(TxEdges(tx).error) else Success(graph + TxEdges(tx).value);
    var inputs := GetProp(tx, "inputs");
    if inputs.Failure? {
      return Failure(inputs.error);
    }
    if !inputs.value.Arr? {
      return Failure(EngineTypeError);
    }
    var edges := CollectInputEdges(GetProp(tx, "id").value, inputs.value.items);
    if edges.Failure? {
      return Failure(edges.error);
    }
    r := Success(graph + edges.value);
  }

  /** `generateGraph`: the nested `forEach` walk, pushing onto one `graph` array. */
  method GenerateGraph(txs: Value) returns (r: Result<seq<Edge>, Exception>)
    ensures r == Graph(txs)
  {
    if !txs.Arr? {
      return Failure(EngineTypeError);
    }
    var items := txs.items;
    var graph: seq<Edge> := [];
    var t := 0;
    while t < |items|
      invariant 0 <= t <= |items|
      invariant ConcatEach(TxEdges, items, t) == Success(graph)
    {
      var next := PushTxEdges(items, t, graph);
      if next.Failure? {
        ConcatEachFailureStays(TxEdges, items, t + 1, |items|);
        return next;
      }
      graph := next.value;
      t := t + 1;
    }
    r := Success(graph);
  }

  // ---------------------------------------------------------------------------
  // What the edges are

  /** Does input `input` fulfill an output (a truthy `fulfills`)? */
  predicate Spends(input: Value)
  {
    !IsNullish(input) && Truthy(GetProp(input, "fulfills").value)
  }

  /** The id of the transaction an input spends from. */
  function SpentId(input: Value): Value
    requires Spends(input)
  {
    GetProp(GetProp(input, "fulfills").value, "transaction_id").value
  }

  /** The number of the first `k` inputs that spend an output. */
  function CountSpends(inputs: seq<Value>, k: nat): nat
    requires k <= |inputs|
  {
    if k == 0 then 0 else CountSpends(inputs, k - 1) + (if Spends(inputs[k - 1]) then 1 else 0)
  }

  /** The edge input `x` contributes: one when it spends, none otherwise. */
  function EdgeOf(id: Value, x: Value): (r: seq<Edge>)
    ensures |r| <= 1
  {
    if Spends(x) then [(id, SpentId(x))] else []
  }

  /** The edge of every spending input, in input order: the reference the walk is measured against. */
  function SpendEdges(id: Value, inputs: seq<Value>): seq<Edge>
  {
    if inputs == [] then [] else EdgeOf(id, inputs[0]) + SpendEdges(id, inputs[1..])
  }

  lemma {:induction false} SpendEdgesSnoc(id: Value, inputs: seq<Value>, x: Value)
    ensures SpendEdges(id, inputs + [x]) == SpendEdges(id, inputs) + EdgeOf(id, x)
  {
    if inputs == [] {
      assert [] + [x] == [x];
      assert SpendEdges(id, [x]) == EdgeOf(id, x) + SpendEdges(id, []);
    } else {
      var xs := inputs + [x];
      assert xs[0] == inputs[0] && xs[1..] == inputs[1..] + [x];
      SpendEdgesSnoc(id, inputs[1..], x);
      assert SpendEdges(id, xs) == EdgeOf(id, inputs[0]) + (SpendEdges(id, inputs[1..]) + EdgeOf(id, x));
    }
  }

  /** The walk gives, in input order, the edge of every spending input and nothing else. */
  lemma {:induction false} InputEdgesInOrder(id: Value, inputs: seq<Value>, k: nat)
    requires k <= |inputs|
    ensures InputEdges(id, inputs, k).Success? ==> InputEdges(id, inputs, k).value == SpendEdges(id, inputs[..k])
  {
    if k == 0 {
      assert inputs[..k] == [];
    } else if InputEdges(id, inputs, k).Success? {
      var prev := InputEdges(id, inputs, k - 1);
      assert prev.Success?;
      InputEdgesInOrder(id, inputs, k - 1);
      var x := inputs[k - 1];
      assert !IsNullish(x);
      assert InputEdges(id, inputs, k).value == prev.value + EdgeOf(id, x);
      assert inputs[..k] == inputs[..k - 1] + [x];
      SpendEdgesSnoc(id, inputs[..k - 1], x);
    }
  }

  /**
   * The walk over inputs succeeds exactly when no input is null or undefined;
   * it then gives exactly one edge per spending input, from `id` to the spent
   * id, in input order.
   */
  lemma {:induction false} InputEdgesFacts(id: Value, inputs: seq<Value>, k: nat)
    requires k <= |inputs|
    ensures InputEdges(id, inputs, k).Success? <==> forall i | 0 <= i < k :: !IsNullish(inputs[i])
    ensures InputEdges(id, inputs, k).Success? ==>
              var edges := InputEdges(id, inputs, k).value;
              && edges == SpendEdges(id, inputs[..k])
              && |edges| == CountSpends(inputs, k)
              && (forall e | e in edges :: e.0 == id && exists i | 0 <= i < k :: Spends(inputs[i]) && e.1 == SpentId(inputs[i]))
              && (forall i | 0 <= i < k && Spends(inputs[i]) :: (id, SpentId(inputs[i])) in edges)
  {
    InputEdgesInOrder(id, inputs, k);
    InputEdgesCounted(id, inputs, k);
  }

  lemma {:induction false} InputEdgesCounted(id: Value, inputs: seq<Value>, k: nat)
    requires k <= |inputs|
    ensures InputEdges(id, inputs, k).Success? <==> forall i | 0 <= i < k :: !IsNullish(inputs[i])
    ensures InputEdges(id, inputs, k).Success? ==>
              var edges := InputEdges(id, inputs, k).value;
              && |edges| == CountSpends(inputs, k)
              && (forall e | e in edges :: e.0 == id && exists i | 0 <= i < k :: Spends(inputs[i]) && e.1 == SpentId(inputs[i]))
              && (forall i | 0 <= i < k && Spends(inputs[i]) :: (id, SpentId(inputs[i])) in edges)
  {
    if k > 0 {
      InputEdgesCounted(id, inputs, k - 1);
      if InputEdges(id, inputs, k - 1).Failure? {
        InputEdgesFailureStays(id, inputs, k - 1, k);
      }
    }
  }

  /** Inputs that spend nothing, such as a CREATE's, add no edge. */
  lemma NoSpendsNoEdges(id: Value, inputs: seq<Value>)
    requires forall i | 0 <= i < |inputs| :: inputs[i].Obj? && !Truthy(Lookup(inputs[i].entries, "fulfills"))
    ensures InputEdges(id, inputs, |inputs|) == Success([])
  {
    InputEdgesFacts(id, inputs, |inputs|);
    assert CountSpends(inputs, |inputs|) == 0 by {
      CountNone(inputs, |inputs|);
    }
  }

  lemma {:induction false} CountNone(inputs: seq<Value>, k: nat)
    requires k <= |inputs| && forall i | 0 <= i < k :: !Spends(inputs[i])
    ensures CountSpends(inputs, k) == 0
  {
    if k > 0 {
      CountNone(inputs, k - 1);
    }
  }

  /** All edge lists one after the other, first list first. */
  function Flatten(lists: seq<seq<Edge>>): seq<Edge>
  {
    if lists == [] then [] else lists[0] + Flatten(lists[1..])
  }

  lemma {:induction false} FlattenSnoc(lists: seq<seq<Edge>>, last: seq<Edge>)
    ensures Flatten(lists + [last]) == Flatten(lists) + last
  {
    if lists == [] {
      assert lists + [last] == [last];
      assert Flatten([last]) == last + Flatten([]);
    } else {
      assert (lists + [last])[1..] == lists[1..] + [last];
      FlattenSnoc(lists[1..], last);
    }
  }

  /** The edge lists of the first `k` transactions, assuming they all succeed. */
  function EdgeLists(edgesOf: Value -> Result<seq<Edge>, Exception>, txs: seq<Value>, k: nat): (r: seq<seq<Edge>>)
    requires k <= |txs| && forall i | 0 <= i < k :: edgesOf(txs[i]).Success?
    ensures |r| == k
  {
    seq(k, i requires 0 <= i < k => edgesOf(txs[i]).value)
  }

  /** A fold of throwing callbacks is the concatenation of their results, when none throws. */
  lemma {:induction false} ConcatEachIsFlatten(edgesOf: Value -> Result<seq<Edge>, Exception>, txs: seq<Value>, k: nat)
    requires k <= |txs|
    ensures ConcatEach(edgesOf, txs, k).Success? <==> forall i | 0 <= i < k :: edgesOf(txs[i]).Success?
    ensures ConcatEach(edgesOf, txs, k).Success? ==> ConcatEach(edgesOf, txs, k).value == Flatten(EdgeLists(edgesOf, txs, k))
  {
    if k > 0 {
      ConcatEachIsFlatten(edgesOf, txs, k - 1);
      if ConcatEach(edgesOf, txs, k - 1).Failure? {
        ConcatEachFailureStays(edgesOf, txs, k - 1, k);
      } else if edgesOf(txs[k - 1]).Success? {
        assert EdgeLists(edgesOf, txs, k) == EdgeLists(edgesOf, txs, k - 1) + [edgesOf(txs[k - 1]).value];
        FlattenSnoc(EdgeLists(edgesOf, txs, k - 1), edgesOf(txs[k - 1]).value);
      }
    }
  }

  /**
   * `generateGraph` fails exactly when `txs` is not an array or some
   * transaction's walk fails; otherwise it is the edges of the first
   * transaction, then those of the second, and so on.
   */
  lemma GraphIsFlatten(txs: Value)
    requires txs.Arr?
    ensures Graph(txs).Success? <==> forall i | 0 <= i < |txs.items| :: TxEdges(txs.items[i]).Success?
    ensures Graph(txs).Success? ==> Graph(txs).value == Flatten(EdgeLists(TxEdges, txs.items, |txs.items|))
  {
    ConcatEachIsFlatten(TxEdges, txs.items, |txs.items|);
  }

  // ---------------------------------------------------------------------------
  // topsortTransactions

  function Reverse(s: seq<Value>): (r: seq<Value>)
    ensures |r| == |s| && forall i | 0 <= i < |s| :: r[i] == s[|s| - 1 - i]
  {
    seq(|s|, i requires 0 <= i < |s| => s[|s| - 1 - i])
  }

  /** `toposort(graph).reverse()`, `toposort` being the package's sort (it throws on a cycle). */
  function TopsortTransactions(toposort: seq<Edge> -> Result<seq<Value>, Exception>, txs: Value): Result<seq<Value>, Exception>
  {
    var graph :- Graph(txs);
    var order :- toposort(graph);
    Success(Reverse(order))
  }

  /** What `toposort` promises: the first node of every edge comes before its second. */
  predicate EdgesForward(order: seq<Value>, edges: seq<Edge>)
  {
    forall e, i, j | e in edges && 0 <= i < |order| && 0 <= j < |order| && order[i] == e.0 && order[j] == e.1 :: i < j
  }

  /** The reverse of an order that puts the first node of every edge first puts the second node first. */
  lemma ReverseFlipsEdges(order: seq<Value>, edges: seq<Edge>)
    requires EdgesForward(order, edges)
    ensures var r := Reverse(order);
            forall e, i, j | e in edges && 0 <= i < |r| && 0 <= j < |r| && r[i] == e.1 && r[j] == e.0 :: i < j
  {
    var r := Reverse(order);
    forall e, i, j | e in edges && 0 <= i < |r| && 0 <= j < |r| && r[i] == e.1 && r[j] == e.0
      ensures i < j
    {
      assert order[|order| - 1 - j] == e.0 && order[|order| - 1 - i] == e.1;
    }
  }

  /** After the reversal every spent transaction's id comes before the id of each transaction spending it. */
  lemma TopsortDependencyOrder(toposort: seq<Edge> -> Result<seq<Value>, Exception>, txs: Value)
    requires TopsortTransactions(toposort, txs).Success?
    requires EdgesForward(toposort(Graph(txs).value).value, Graph(txs).value)
    ensures var order := TopsortTransactions(toposort, txs).value;
            forall e, i, j | e in Graph(txs).value && 0 <= i < |order| && 0 <= j < |order| && order[i] == e.1 && order[j] == e.0 :: i < j
  {
    ReverseFlipsEdges(toposort(Graph(txs).value).value, Graph(txs).value);
  }
}
