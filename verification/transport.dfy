/**
 * The `Transport` holds one `Request` per node and forwards each call to the
 * node whose backoff ends first, retrying while the shared `timeout` allows.
 *
 * The loop of `forwardRequest` need not end in JavaScript (a null or zero
 * timeout with instant attempts); here it runs over a finite script of
 * attempts and reports `OutOfAttempts` when the script is used up.
 */
module NodeTransport {
  import opened Wrappers
  import opened JsValue
  import opened NodeRequest

  /** What `forwardRequest` settles to. */
  datatype Outcome = Returned(response: Value) | Threw(error: Exception) | OutOfAttempts

  const TimeoutError := Thrown(Obj([("message", Str("TimeoutError"))]))

  /** The state of one `Request` of the pool. */
  datatype Conn = Conn(node: Value, state: BackoffState, timeout: Option<real>)

  /** `timeout ? timeout / 10 : 10000` */
  function MaxBackoffTime(timeout: Option<real>): real
  {
    if IsSet(timeout) then timeout.value / 10.0 else 10000.0
  }

  /** `conn.backoffTime ? conn.backoffTime : 0` */
  function Normalize(backoffTime: Option<real>): real
  {
    if IsSet(backoffTime) then backoffTime.value else 0.0
  }

  /** `conn.backoffTime = conn.backoffTime ? conn.backoffTime : 0` */
  function NormalizeConn(c: Conn): Conn
  {
    c.(state := c.state.(backoffTime := Some(Normalize(c.state.backoffTime))))
  }

  /** Every null or zero backoff time written as 0. */
  function Normalized(conns: seq<Conn>): (r: seq<Conn>)
    ensures |r| == |conns| && forall i | 0 <= i < |conns| :: r[i] == NormalizeConn(conns[i])
  {
    seq(|conns|, i requires 0 <= i < |conns| => NormalizeConn(conns[i]))
  }

  /** The backoff time `pickConnection` compares: `conn.backoffTime ? conn.backoffTime : 0`. */
  function BackoffOf(c: Conn): real
  {
    Normalize(c.state.backoffTime)
  }

  /** The running minimum over the first `n` connections: a later one replaces it only when its backoff is strictly smaller. */
  function RunningMin(conns: seq<Conn>, n: nat): (k: nat)
    requires 0 < n <= |conns|
    ensures k < n
  {
    if n == 1 then 0
    else
      var k := RunningMin(conns, n - 1);
      if BackoffOf(conns[n - 1]) < BackoffOf(conns[k]) then n - 1 else k
  }

  /** The index `pickConnection` chooses from a non-empty pool. */
  function PickIndex(conns: seq<Conn>): (k: nat)
    requires |conns| > 0
    ensures k < |conns|
  {
    if |conns| == 1 then 0 else RunningMin(conns, |conns|)
  }

  /** The pool after `pickConnection`: a single node is left as it is. */
  function PickConns(conns: seq<Conn>): (r: seq<Conn>)
    ensures |r| == |conns|
  {
    if |conns| <= 1 then conns else Normalized(conns)
  }

  /** `!this.timeout || this.timeout > 0` */
  predicate KeepGoing(timeout: Option<real>)
  {
    !IsSet(timeout) || timeout.value > 0.0
  }

  /** `this.timeout -= elapsed`; null counts as 0. */
  function TimeoutNumber(timeout: Option<real>): real
  {
    if timeout.Some? then timeout.value else 0.0
  }

  /** What the loop throws when the timeout has run out: the last connection's error, else `TimeoutError`. */
  function Final(last: Option<Conn>): Exception
  {
    if last.None? then EngineTypeError   // `connection` is still undefined
    else if ErrorRecorded(last.value.state.connectionError) then last.value.state.connectionError.value
    else TimeoutError
  }

  /**
   * `prepare(node)` is what a request on `node` for `(path, headers)` prepares:
   * the transport's loop depends on the url and config only through it.
   */
  ghost predicate Prepares(prepare: Value -> Prepared, path: Value, headers: Value)
  {
    forall node {:trigger Prepare(node, path, headers)} :: prepare(node) == Prepare(node, path, headers)
  }

  /** One `connection.request(path, headers, this.timeout)` on the connection `c`, prepared as `prepare` says. */
  function Try(c: Conn, prepare: Value -> Prepared, timeout: Option<real>, attempt: Attempt): (Conn, Result<Value, Exception>)
  {
    var step := Send(prepare(c.node), c.state, c.timeout, timeout, attempt);
    (Conn(c.node, step.state, step.timeout), step.result)
  }

  /** Picking a connection and sending one request on it: the index picked, the pool after, and the request's result. */
  function TryNext(conns: seq<Conn>, prepare: Value -> Prepared, timeout: Option<real>, attempt: Attempt)
    : (r: (nat, seq<Conn>, Result<Value, Exception>))
    requires |conns| > 0
    ensures r.0 < |conns| && |r.1| == |conns|
  {
    var k := PickIndex(conns);
    var picked := PickConns(conns);
    var t := Try(picked[k], prepare, timeout, attempt);
    (k, picked[k := t.0], t.1)
  }

  /** After one pass of the loop: the outcome when it ends there, the pool and timeout, and the connection last picked. */
  datatype Next = Next(stop: Option<Outcome>, conns: seq<Conn>, timeout: Option<real>, last: Option<Conn>)

  /**
   * One pass of the loop: an empty pool throws on `connection.request`, the
   * request's error is rethrown, a connection still backed off subtracts the
   * attempt's time from the timeout and goes round again, and any other
   * response is returned.
   */
  function AdvanceSpec(conns: seq<Conn>, timeout: Option<real>, last: Option<Conn>, prepare: Value -> Prepared,
                       attempt: Attempt): (r: Next)
    ensures |r.conns| == |conns|
  {
    if |conns| == 0 then Next(Some(Threw(EngineTypeError)), conns, timeout, last)
    else
      var (k, conns', result) := TryNext(conns, prepare, timeout, attempt);
      if result.Failure? then Next(Some(Threw(result.error)), conns', timeout, Some(conns'[k]))
      else if IsSet(conns'[k].state.backoffTime) then
        Next(None, conns', Some(TimeoutNumber(timeout) - (attempt.finish - attempt.start)), Some(conns'[k]))
      else Next(Some(Returned(result.value)), conns', timeout, Some(conns'[k]))
  }

  /** A pass of the loop, as a function of the pool, timeout, last connection and attempt. */
  type Step = (seq<Conn>, Option<real>, Option<Conn>, Attempt) -> Next

  /** `step` is the pass `AdvanceSpec` describes for requests prepared by `prepare`. */
  ghost predicate Steps(step: Step, prepare: Value -> Prepared)
  {
    forall conns, timeout, last, attempt {:trigger AdvanceSpec(conns, timeout, last, prepare, attempt)} ::
      step(conns, timeout, last, attempt) == AdvanceSpec(conns, timeout, last, prepare, attempt)
  }

  /** The end of `forwardRequest`: its outcome, the pool and timeout then, the last connection picked, and the attempt it ended at. */
  datatype Forward = Forward(outcome: Outcome, conns: seq<Conn>, timeout: Option<real>, last: Option<Conn>, ended: nat)

  /** The loop of `forwardRequest` from attempt `n` on, each pass being `step`. */
  function ForwardFrom(step: Step, conns: seq<Conn>, timeout: Option<real>, last: Option<Conn>,
                       attempts: seq<Attempt>, n: nat): (f: Forward)
    requires n <= |attempts|
    decreases |attempts| - n
  {
    if !KeepGoing(timeout) then Forward(Threw(Final(last)), conns, timeout, last, n)
    else if n == |attempts| then Forward(OutOfAttempts, conns, timeout, last, n)
    else
      var next := step(conns, timeout, last, attempts[n]);
      if next.stop.Some? then Forward(next.stop.value, next.conns, next.timeout, next.last, n)
      else ForwardFrom(step, next.conns, next.timeout, next.last, attempts, n + 1)
  }

  /** The state of one `Request`. */
  function ConnOf(r: Request): Conn
    reads r
  {
    Conn(r.node, r.State(), r.timeout)
  }

  /** The state of every `Request` of a pool. */
  function ConnsOf(pool: seq<Request>): (r: seq<Conn>)
    reads pool
    ensures |r| == |pool|
    ensures forall i | 0 <= i < |r| :: r[i] == ConnOf(pool[i])
  {
    seq(|pool|, i requires 0 <= i < |pool| reads pool => ConnOf(pool[i]))
  }

  /** `conn.backoffTime = conn.backoffTime ? conn.backoffTime : 0` */
  method NormalizeBackoff(conn: Request)
    modifies conn
    ensures ConnOf(conn) == NormalizeConn(old(ConnOf(conn)))
    ensures conn.requestConfig == old(conn.requestConfig)
  {
    conn.backoffTime := Some(if IsSet(conn.backoffTime) then conn.backoffTime.value else 0.0);
  }

  /** The `forEach` of `pickConnection`: every backoff time normalized, and the first connection with the least one. */
  method ScanPool(pool: seq<Request>) returns (connection: Request, ghost k: nat)
    requires |pool| > 0 && forall i, j | 0 <= i < j < |pool| :: pool[i] != pool[j]
    modifies pool
    ensures forall j | 0 <= j < |pool| :: ConnOf(pool[j]) == NormalizeConn(old(ConnOf(pool[j])))
    ensures forall j | 0 <= j < |pool| :: pool[j].requestConfig == old(pool[j].requestConfig)
    ensures k == RunningMin(old(ConnsOf(pool)), |pool|) && connection == pool[k]
  {
    ghost var before := ConnsOf(pool);
    connection := pool[0];
    k := 0;
    var i := 0;
    while i < |pool|
      invariant 0 <= i <= |pool| && k < |pool|
      invariant forall j | 0 <= j < |pool| ::
                  && ConnOf(pool[j]) == (if j < i then NormalizeConn(before[j]) else before[j])
                  && pool[j].requestConfig == old(pool[j].requestConfig)
      invariant connection == pool[k]
      invariant if i == 0 then k == 0 else k == RunningMin(before, i)
    {
      var conn := pool[i];
      NormalizeBackoff(conn);
      if conn.backoffTime.value < connection.backoffTime.value {
        connection, k := conn, i;
      }
      i := i + 1;
    }
  }

  class Transport {
    var connectionPool: seq<Request>
    var timeout: Option<real>
    var maxBackoffTime: real

    /** The pool holds distinct `Request` objects. */
    ghost predicate Valid()
      reads this
    {
      forall i, j | 0 <= i < j < |connectionPool| :: connectionPool[i] != connectionPool[j]
    }

    constructor(nodes: seq<Value>, headers: Value, timeout: Option<real>)
      ensures Valid() && |connectionPool| == |nodes|
      ensures forall i | 0 <= i < |nodes| ::
                && fresh(connectionPool[i])
                && connectionPool[i].node == nodes[i] && connectionPool[i].requestConfig == headers
                && connectionPool[i].State() == Fresh && connectionPool[i].timeout.None?
      ensures this.timeout == timeout && maxBackoffTime == MaxBackoffTime(timeout)
    {
      var pool: seq<Request> := [];
      var i := 0;
      while i < |nodes|
        invariant 0 <= i <= |nodes| && |pool| == i
        invariant forall j | 0 <= j < i ::
                    && fresh(pool[j])
                    && pool[j].node == nodes[j] && pool[j].requestConfig == headers
                    && pool[j].State() == Fresh && pool[j].timeout.None?
        invariant forall a, b | 0 <= a < b < i :: pool[a] != pool[b]
      {
        var request := new Request(nodes[i], headers);
        pool := pool + [request];
        i := i + 1;
      }
      connectionPool := pool;
      this.timeout := timeout;
      maxBackoffTime := MaxBackoffTime(timeout);
    }

    /** `pickConnection()`: the connection whose backoff ends first, the first such on a tie. */
    method PickConnection() returns (connection: Request?)
      requires Valid()
      modifies connectionPool
      ensures ConnsOf(connectionPool) == PickConns(old(ConnsOf(connectionPool)))
      ensures forall j | 0 <= j < |connectionPool| :: connectionPool[j].requestConfig == old(connectionPool[j].requestConfig)
      ensures |connectionPool| == 0 ==> connection == null
      ensures |connectionPool| > 0 ==> connection == connectionPool[PickIndex(old(ConnsOf(connectionPool)))]
    {
      if |connectionPool| == 0 {
        return null;
      }
      if |connectionPool| == 1 {
        return connectionPool[0];
      }
      ghost var before := ConnsOf(connectionPool);
      ghost var k;
      connection, k := ScanPool(connectionPool);
      assert forall j | 0 <= j < |connectionPool| :: ConnsOf(connectionPool)[j] == Normalized(before)[j];
    }

    /** Picks a connection and, when there is one, sends the request on it. */
    method TryConnection(path: Value, headers: Value, attempt: Attempt, ghost prepare: Value -> Prepared)
      returns (connection: Request?, response: Result<Value, Exception>)
      requires Valid() && Prepares(prepare, path, headers)
      modifies connectionPool
      ensures |connectionPool| == 0 ==> connection == null && ConnsOf(connectionPool) == old(ConnsOf(connectionPool))
      ensures forall j | 0 <= j < |connectionPool| :: connectionPool[j].requestConfig == old(connectionPool[j].requestConfig)
      ensures |connectionPool| > 0 ==>
                var (k, conns, result) := TryNext(old(ConnsOf(connectionPool)), prepare, old(timeout), attempt);
                connection == connectionPool[k] && ConnsOf(connectionPool) == conns && response == result
    {
      ghost var before := ConnsOf(connectionPool);
      connection := PickConnection();
      if connection == null {
        return null, Failure(EngineTypeError);
      }
      ghost var k := PickIndex(before);
      ghost var picked := ConnsOf(connectionPool);
      var sent;
      response, sent := connection.Request(path, headers, timeout, attempt);
      ghost var t := Try(picked[k], prepare, timeout, attempt);
      assert ConnsOf(connectionPool) == picked[k := t.0] by {
        forall j | 0 <= j < |picked| ensures ConnsOf(connectionPool)[j] == picked[k := t.0][j] {
        }
      }
    }

    /** One pass of the loop of `forwardRequest`; the caller stores `timeout'` in `this.timeout`. */
    method Advance(path: Value, headers: Value, attempt: Attempt, ghost last: Option<Conn>,
                   ghost prepare: Value -> Prepared, ghost step: Step)
      returns (connection: Request?, stop: Option<Outcome>, timeout': Option<real>, ghost last': Option<Conn>)
      requires Valid() && Prepares(prepare, path, headers) && Steps(step, prepare)
      modifies connectionPool
      ensures step(old(ConnsOf(connectionPool)), timeout, last, attempt) == Next(stop, ConnsOf(connectionPool), timeout', last')
      ensures forall j | 0 <= j < |connectionPool| :: connectionPool[j].requestConfig == old(connectionPool[j].requestConfig)
      ensures stop.None? ==> last'.Some? && connection != null && connection.connectionError == last'.value.state.connectionError
    {
      ghost var before := ConnsOf(connectionPool);
      var response;
      connection, response := TryConnection(path, headers, attempt, prepare);
      timeout' := timeout;
      last' := last;
      if connection == null {
        stop := Some(Threw(EngineTypeError));
      } else {
        ghost var next := TryNext(before, prepare, timeout, attempt);
        last' := Some(next.1[next.0]);
        if response.Failure? {
          stop := Some(Threw(response.error));
        } else {
          var elapsed := attempt.finish - attempt.start;
          if IsSet(connection.backoffTime) {
            timeout' := Some((if timeout.Some? then timeout.value else 0.0) - elapsed);
            stop := None;
          } else {
            stop := Some(Returned(response.value));
          }
        }
      }
      assert AdvanceSpec(before, timeout, last, prepare, attempt) == Next(stop, ConnsOf(connectionPool), timeout', last');
    }

    /**
     * `forwardRequest(path, headers)` over the script `attempts`: the loop
     * `step` describes, run from the pool and timeout the transport holds.
     */
    method ForwardRequest(path: Value, headers: Value, attempts: seq<Attempt>,
                          ghost prepare: Value -> Prepared, ghost step: Step)
      returns (outcome: Outcome)
      requires Valid() && Prepares(prepare, path, headers) && Steps(step, prepare)
      modifies this, connectionPool
      ensures Valid() && connectionPool == old(connectionPool) && maxBackoffTime == old(maxBackoffTime)
      ensures forall j | 0 <= j < |connectionPool| :: connectionPool[j].requestConfig == old(connectionPool[j].requestConfig)
      ensures var f := ForwardFrom(step, old(ConnsOf(connectionPool)), old(timeout), None, attempts, 0);
              outcome == f.outcome && ConnsOf(connectionPool) == f.conns && timeout == f.timeout
    {
      ghost var conns := ConnsOf(connectionPool);
      ghost var target := ForwardFrom(step, conns, timeout, None, attempts, 0);
      var connection: Request? := null;
      ghost var last: Option<Conn> := None;
      var n := 0;
      while KeepGoing(timeout)
        invariant n <= |attempts| && Valid() && connectionPool == old(connectionPool)
        invariant conns == ConnsOf(connectionPool) && maxBackoffTime == old(maxBackoffTime)
        invariant forall j | 0 <= j < |connectionPool| :: connectionPool[j].requestConfig == old(connectionPool[j].requestConfig)
        invariant last.None? ==> connection == null
        invariant last.Some? ==> connection != null && connection.connectionError == last.value.state.connectionError
        invariant ForwardFrom(step, conns, timeout, last, attempts, n) == target
        decreases |attempts| - n
      {
        if n == |attempts| {
          return OutOfAttempts;
        }
        var stop, timeout';
        connection, stop, timeout', last := Advance(path, headers, attempts[n], last, prepare, step);
        timeout := timeout';
        conns := ConnsOf(connectionPool);
        if stop.Some? {
          return stop.value;
        }
        n := n + 1;
      }
      var errorObject := TimeoutError;
      outcome := Threw(if connection == null then EngineTypeError
                       else if ErrorRecorded(connection.connectionError) then connection.connectionError.value
                       else errorObject);
    }
  }

  // ---------------------------------------------------------------------------
  // Properties of picking and of the loop

  /** The running minimum is a least backoff time among the first `n`, and no earlier connection ties it. */
  lemma {:induction false} RunningMinFacts(conns: seq<Conn>, n: nat)
    requires 0 < n <= |conns|
    ensures var k := RunningMin(conns, n);
            && (forall j | 0 <= j < n :: BackoffOf(conns[k]) <= BackoffOf(conns[j]))
            && (forall j | 0 <= j < k :: BackoffOf(conns[j]) > BackoffOf(conns[k]))
  {
    if n > 1 {
      RunningMinFacts(conns, n - 1);
    }
  }

  /**
   * `pickConnection` chooses the connection whose backoff ends first, the one
   * with the smaller index on a tie; writing null or zero backoff times as 0
   * changes nothing else and not the order it picks by.
   */
  lemma PickFacts(conns: seq<Conn>)
    requires |conns| > 0
    ensures var k := PickIndex(conns);
            && (forall j | 0 <= j < |conns| :: BackoffOf(conns[k]) <= BackoffOf(conns[j]))
            && (forall j | 0 <= j < k :: BackoffOf(conns[j]) > BackoffOf(conns[k]))
    ensures |conns| == 1 ==> PickConns(conns) == conns
    ensures forall j | 0 <= j < |conns| ::
              var c := PickConns(conns)[j];
              && c.node == conns[j].node && c.timeout == conns[j].timeout
              && c.state.retries == conns[j].state.retries && c.state.connectionError == conns[j].state.connectionError
              && BackoffOf(c) == BackoffOf(conns[j])
  {
    if |conns| > 1 {
      RunningMinFacts(conns, |conns|);
    }
  }

  /** The time the attempts took, `Date.now() - startTime` for each. */
  function Elapsed(attempts: seq<Attempt>): real
  {
    if |attempts| == 0 then 0.0 else (attempts[0].finish - attempts[0].start) + Elapsed(attempts[1..])
  }

  /**
   * The shared timeout: every attempt on a connection that is still backed off
   * subtracts the time it took, and nothing else changes it.
   */
  lemma {:induction false} ForwardTimeout(step: Step, prepare: Value -> Prepared, conns: seq<Conn>, timeout: Option<real>,
                                          last: Option<Conn>, attempts: seq<Attempt>, n: nat)
    requires Steps(step, prepare) && n <= |attempts|
    ensures var f := ForwardFrom(step, conns, timeout, last, attempts, n);
            && n <= f.ended <= |attempts|
            && f.timeout == if f.ended == n then timeout else Some(TimeoutNumber(timeout) - Elapsed(attempts[n..f.ended]))
    decreases |attempts| - n
  {
    if KeepGoing(timeout) && n < |attempts| {
      var next := step(conns, timeout, last, attempts[n]);
      assert next == AdvanceSpec(conns, timeout, last, prepare, attempts[n]);
      if next.stop.None? {
        ForwardTimeout(step, prepare, next.conns, next.timeout, next.last, attempts, n + 1);
        var f := ForwardFrom(step, next.conns, next.timeout, next.last, attempts, n + 1);
        assert attempts[n..f.ended][1..] == attempts[n + 1..f.ended];
      }
    }
  }

  /** What a fetch resolves `request` to: its body, or `undefined` when it failed. */
  function ResponseOf(attempt: Attempt): Value
  {
    if attempt.fetched.Success? then attempt.fetched.value else Undefined
  }

  /**
   * A response is returned only from a connection whose backoff is unset
   * after the attempt, and it is what that attempt fetched.
   */
  lemma {:induction false} ForwardReturned(step: Step, prepare: Value -> Prepared, conns: seq<Conn>, timeout: Option<real>,
                                           last: Option<Conn>, attempts: seq<Attempt>, n: nat)
    requires Steps(step, prepare) && n <= |attempts|
    ensures var f := ForwardFrom(step, conns, timeout, last, attempts, n);
            f.outcome.Returned? ==>
              && f.ended < |attempts| && f.last.Some? && !IsSet(f.last.value.state.backoffTime)
              && f.outcome.response == ResponseOf(attempts[f.ended])
    decreases |attempts| - n
  {
    if KeepGoing(timeout) && n < |attempts| {
      var next := step(conns, timeout, last, attempts[n]);
      assert next == AdvanceSpec(conns, timeout, last, prepare, attempts[n]);
      if next.stop.None? {
        ForwardReturned(step, prepare, next.conns, next.timeout, next.last, attempts, n + 1);
      }
    }
  }

  /**
   * One pass while the timeout allows it, on a non-empty pool: a rejected
   * request is rethrown unchanged and ends the loop there; a response from a
   * connection whose backoff is unset is returned there; otherwise the
   * attempt's time comes off the timeout and the loop goes on with the next
   * attempt.  So the loop ends at the first attempt that rejects or finds its
   * connection's backoff unset.
   */
  lemma ForwardPass(step: Step, prepare: Value -> Prepared, conns: seq<Conn>, timeout: Option<real>,
                    last: Option<Conn>, attempts: seq<Attempt>, n: nat)
    requires Steps(step, prepare) && n < |attempts| && KeepGoing(timeout) && |conns| > 0
    ensures var (k, conns', result) := TryNext(conns, prepare, timeout, attempts[n]);
            var f := ForwardFrom(step, conns, timeout, last, attempts, n);
            && (result.Failure? ==>
                  f == Forward(Threw(result.error), conns', timeout, Some(conns'[k]), n))
            && (result.Success? && !IsSet(conns'[k].state.backoffTime) ==>
                  f == Forward(Returned(result.value), conns', timeout, Some(conns'[k]), n))
            && (result.Success? && IsSet(conns'[k].state.backoffTime) ==>
                  f == ForwardFrom(step, conns', Some(TimeoutNumber(timeout) - (attempts[n].finish - attempts[n].start)),
                                   Some(conns'[k]), attempts, n + 1))
  {
    var next := step(conns, timeout, last, attempts[n]);
    assert next == AdvanceSpec(conns, timeout, last, prepare, attempts[n]);
  }

  /**
   * The loop keeps the pool's size; it ends on the timeout only by throwing the
   * last connection's error or `TimeoutError`, and runs out of attempts only
   * while the timeout still allows another.
   */
  lemma {:induction false} ForwardEnds(step: Step, prepare: Value -> Prepared, conns: seq<Conn>, timeout: Option<real>,
                                       last: Option<Conn>, attempts: seq<Attempt>, n: nat)
    requires Steps(step, prepare) && n <= |attempts|
    ensures var f := ForwardFrom(step, conns, timeout, last, attempts, n);
            && |f.conns| == |conns|
            && (!KeepGoing(f.timeout) ==> f.outcome == Threw(Final(f.last)))
            && (f.outcome.OutOfAttempts? ==> f.ended == |attempts| && KeepGoing(f.timeout))
    decreases |attempts| - n
  {
    if KeepGoing(timeout) && n < |attempts| {
      var next := step(conns, timeout, last, attempts[n]);
      assert next == AdvanceSpec(conns, timeout, last, prepare, attempts[n]);
      if next.stop.None? {
        ForwardEnds(step, prepare, next.conns, next.timeout, next.last, attempts, n + 1);
      }
    }
  }

  /** With no node at all, the first pass throws on `connection.request`. */
  lemma EmptyPoolThrows(step: Step, prepare: Value -> Prepared, timeout: Option<real>, last: Option<Conn>,
                        attempts: seq<Attempt>, n: nat)
    requires Steps(step, prepare) && n < |attempts| && KeepGoing(timeout)
    ensures ForwardFrom(step, [], timeout, last, attempts, n).outcome == Threw(EngineTypeError)
  {
    assert step([], timeout, last, attempts[n]) == AdvanceSpec([], timeout, last, prepare, attempts[n]);
  }

  /** Every connection of the pool holds an error. */
  predicate AllFailed(conns: seq<Conn>)
  {
    forall j | 0 <= j < |conns| :: ErrorRecorded(conns[j].state.connectionError)
  }

  /** The attempt's clock is not before 1970, and a failed fetch fails with a truthy error. */
  predicate FailsLoudly(attempt: Attempt)
  {
    attempt.finish >= 0.0 && (attempt.fetched.Failure? ==> ErrorRecorded(Some(attempt.fetched.error)))
  }

  /** A request on a pool whose connections all hold an error leaves them so, and its connection backed off. */
  lemma TryNextAfterFailure(conns: seq<Conn>, prepare: Value -> Prepared, timeout: Option<real>, attempt: Attempt)
    requires |conns| > 0 && AllFailed(conns) && FailsLoudly(attempt)
    ensures var (k, conns', result) := TryNext(conns, prepare, timeout, attempt);
            AllFailed(conns') && (result.Success? ==> IsSet(conns'[k].state.backoffTime))
  {
    var (k, conns', result) := TryNext(conns, prepare, timeout, attempt);
    var picked := PickConns(conns);
    var s := picked[k].state;
    assert ErrorRecorded(s.connectionError);
    if prepare(picked[k].node).Success? && attempt.thrown.None? {
      var s' := Record(s, attempt.fetched);
      assert ErrorRecorded(s'.connectionError);
      DelayUnbounded(s'.retries);
      assert conns'[k].state == Update(s', attempt.finish);
    }
  }

  /**
   * The connection error is never cleared: once every node has failed, no
   * later response is returned, whatever the nodes answer, as long as each
   * failure is a truthy error and the clock is past 1970.  The loop then
   * runs until the timeout is spent.
   */
  lemma {:induction false} FailedPoolNeverReturns(step: Step, prepare: Value -> Prepared, conns: seq<Conn>, timeout: Option<real>,
                                                  last: Option<Conn>, attempts: seq<Attempt>, n: nat)
    requires Steps(step, prepare) && n <= |attempts| && AllFailed(conns)
    requires forall i | n <= i < |attempts| :: FailsLoudly(attempts[i])
    ensures !ForwardFrom(step, conns, timeout, last, attempts, n).outcome.Returned?
    decreases |attempts| - n
  {
    if KeepGoing(timeout) && n < |attempts| {
      var next := step(conns, timeout, last, attempts[n]);
      assert next == AdvanceSpec(conns, timeout, last, prepare, attempts[n]);
      if |conns| > 0 {
        TryNextAfterFailure(conns, prepare, timeout, attempts[n]);
        if next.stop.None? {
          FailedPoolNeverReturns(step, prepare, next.conns, next.timeout, next.last, attempts, n + 1);
        }
      }
    }
  }
}
