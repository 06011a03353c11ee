/**
 * A `Request` talks to one node and keeps its backoff bookkeeping: after a
 * connection error it waits `BACKOFF_DELAY · 2^retries` milliseconds before the
 * next attempt, and a success resets it.
 *
 * The clock and the outcome of `fetch` are inputs: an `Attempt` says when the
 * attempt started, whether `baseRequest` threw before returning its promise,
 * what the request resolved to and when it finished.
 */
module NodeRequest {
  import opened Wrappers
  import opened JsValue
  import Sanitize
  import BaseRequest

  /** Added to a clock that counts milliseconds, although the source calls it seconds. */
  const BackoffDelay: real := 0.5

  const DefaultRequestConfig: Value := Obj([("headers", Obj([("Accept", Str("application/json"))]))])

  const NoUrlMessage := "Request was not given a url."

  /** One attempt as the environment lets it happen. */
  datatype Attempt = Attempt(
    start: real,                              // `Date.now()` when the attempt begins
    thrown: Option<Exception>,                // what `baseRequest(...)` throws before it returns a promise
    fetched: Result<Value, Exception>,        // `baseRequest(...).then(res => res.json())`
    finish: real)                             // `Date.now()` when it has settled

  /** The fields the backoff bookkeeping reads and writes; `None` is `null`. */
  datatype BackoffState = BackoffState(backoffTime: Option<real>, retries: nat, connectionError: Option<Exception>)

  const Fresh := BackoffState(None, 0, None)

  function Pow2(n: nat): (r: nat)
    ensures r >= 1
  {
    if n == 0 then 1 else 2 * Pow2(n - 1)
  }

  /** `!!this.backoffTime`: null and 0 are unset. */
  predicate IsSet(t: Option<real>)
  {
    t.Some? && t.value != 0.0
  }

  /** `!!this.connectionError`: a rejection with a falsy value does not count as an error. */
  predicate ErrorRecorded(e: Option<Exception>)
  {
    e.Some? && (!e.value.Thrown? || Truthy(e.value.value))
  }

  /** `getBackoffTimedelta()` at time `now`. */
  function Timedelta(backoffTime: Option<real>, now: real): real
  {
    if !IsSet(backoffTime) then 0.0 else backoffTime.value - now
  }

  /** `updateBackoffTime()` at time `now`. */
  function Update(s: BackoffState, now: real): BackoffState
  {
    if !ErrorRecorded(s.connectionError) then s.(retries := 0, backoffTime := None)
    else s.(backoffTime := Some(now + BackoffDelay * Pow2(s.retries) as real), retries := s.retries + 1)
  }

  /** The `catch` of a failed request records its error; a success leaves the old one in place. */
  function Record(s: BackoffState, fetched: Result<Value, Exception>): BackoffState
  {
    if fetched.Failure? then s.(connectionError := Some(fetched.error)) else s
  }

  /** `this.timeout = setTimeout ? setTimeout - backoffTimedelta : setTimeout` */
  function RequestTimeout(setTimeout: Option<real>, delta: real): Option<real>
  {
    if IsSet(setTimeout) then Some(setTimeout.value - delta) else setTimeout
  }

  /**
   * The fetch configuration: the node's headers, the default headers, the
   * caller's config and its sanitised query, later ones winning; a JSON body
   * adds a `Content-Type` header.
   */
  function RequestConfig(node: Value, config: Value): Result<Entries, Exception>
  {
    var nodeHeaders :- GetProp(node, "headers");
    var query :- GetProp(config, "query");
    var sanitized :- if Truthy(query) then Sanitize.Sanitize(query) else Success(query);
    Success(MergeConfig(nodeHeaders, config, sanitized))
  }

  /** `Object.assign({}, nodeHeaders, DEFAULT_REQUEST_CONFIG, config, {query})`, then the JSON `Content-Type`. */
  function MergeConfig(nodeHeaders: Value, config: Value, query: Value): Entries
  {
    var merged := Assign([], [nodeHeaders, DefaultRequestConfig, config] + [Obj([("query", query)])]);
    if Truthy(Lookup(merged, "jsonBody")) then
      SetKey(merged, "headers", Obj(Assign([], [Lookup(merged, "headers")] + [Obj([("Content-Type", Str("application/json"))])])))
    else merged
  }

  /** `this.node.endpoint + endpoint`, for string operands. */
  function ApiUrl(node: Value, endpoint: Value): string
    requires !IsNullish(node)
  {
    ToJsString(GetProp(node, "endpoint").value) + ToJsString(endpoint)
  }

  /** What one call of `request` does to a node's state, and what it sends and resolves to. */
  datatype RequestStep = RequestStep(
    result: Result<Value, Exception>,
    state: BackoffState,
    timeout: Option<real>,
    sent: Option<(string, Entries)>)

  /** The url and the fetch configuration, or the error `request` rejects with before fetching. */
  type Prepared = Result<(string, Entries), Exception>

  /** The first half of `request`: the config is built and the endpoint checked before any state changes. */
  function Prepare(node: Value, endpoint: Value, config: Value): Prepared
  {
    var config' :- RequestConfig(node, config);
    if !Truthy(endpoint) then Failure(Error(NoUrlMessage))
    else Success((ApiUrl(node, endpoint), config'))
  }

  /**
   * The second half of `request`, once prepared: the timeout guard compares
   * with `this.backoffTimedelta`, a field that is never assigned, so it never
   * throws; the sleep only lets time pass; the timeout is set.  When
   * `baseRequest` throws at once, `request` rejects with that error before the
   * `catch` and `finally` are attached, so nothing is recorded and the backoff
   * is not updated.  Otherwise the fetch's error is recorded and the backoff
   * updated.
   */
  function Send(prepared: Prepared, s: BackoffState, timeout: Option<real>, setTimeout: Option<real>,
                attempt: Attempt): RequestStep
  {
    if prepared.Failure? then RequestStep(Failure(prepared.error), s, timeout, None)
    else
      var timeout' := RequestTimeout(setTimeout, Timedelta(s.backoffTime, attempt.start));
      if attempt.thrown.Some? then RequestStep(Failure(attempt.thrown.value), s, timeout', Some(prepared.value))
      else
        RequestStep(Success(if attempt.fetched.Success? then attempt.fetched.value else Undefined),
                    Update(Record(s, attempt.fetched), attempt.finish),
                    timeout',
                    Some(prepared.value))
  }

  /**
   * `thrown` is what `baseRequest(url, config)` throws for the url and config
   * sent: of its steps only the url expansion by `vsprintf` or `formatText`
   * can throw.
   */
  predicate ThrowsAsBaseRequest(libs: BaseRequest.Libraries, sent: (string, Entries), attempt: Attempt)
  {
    var expanded := BaseRequest.ExpandUrl(sent.0, Lookup(sent.1, "urlTemplateSpec"), libs);
    attempt.thrown == if expanded.Failure? then Some(expanded.error) else None
  }

  /** `request(endpoint, config, setTimeout)` */
  function RequestSpec(node: Value, s: BackoffState, timeout: Option<real>, endpoint: Value, config: Value,
                       setTimeout: Option<real>, attempt: Attempt): RequestStep
  {
    Send(Prepare(node, endpoint, config), s, timeout, setTimeout, attempt)
  }

  class Request {
    var node: Value
    var requestConfig: Value
    var backoffTime: Option<real>
    var retries: nat
    var connectionError: Option<Exception>
    var timeout: Option<real>

    function State(): BackoffState
      reads this
    {
      BackoffState(backoffTime, retries, connectionError)
    }

    constructor(node: Value, requestConfig: Value)
      ensures this.node == node && this.requestConfig == requestConfig
      ensures State() == Fresh && timeout.None?
    {
      this.node := node;
      this.requestConfig := requestConfig;
      backoffTime := None;
      retries := 0;
      connectionError := None;
      timeout := None;
    }

    function BackoffTimedelta(now: real): real
      reads this
    {
      Timedelta(backoffTime, now)
    }

    method UpdateBackoffTime(now: real)
      modifies this
      ensures State() == Update(old(State()), now)
      ensures node == old(node) && requestConfig == old(requestConfig) && timeout == old(timeout)
    {
      if !ErrorRecorded(connectionError) {
        retries := 0;
        backoffTime := None;
      } else {
        var backoffTimedelta := BackoffDelay * Pow2(retries) as real;
        backoffTime := Some(now + backoffTimedelta);
        retries := retries + 1;
      }
    }

    method Request(endpoint: Value, config: Value, setTimeout: Option<real>, attempt: Attempt)
      returns (r: Result<Value, Exception>, sent: Option<(string, Entries)>)
      modifies this
      ensures RequestStep(r, State(), timeout, sent)
              == RequestSpec(old(node), old(State()), old(timeout), endpoint, config, setTimeout, attempt)
      ensures node == old(node) && requestConfig == old(requestConfig)
    {
      var config' := RequestConfig(node, config);
      if config'.Failure? {
        return Failure(config'.error), None;
      }
      if !Truthy(endpoint) {
        return Failure(Error(NoUrlMessage)), None;
      }
      var apiUrl := ApiUrl(node, endpoint);
      var backoffTimedelta := BackoffTimedelta(attempt.start);
      timeout := RequestTimeout(setTimeout, backoffTimedelta);
      sent := Some((apiUrl, config'.value));
      if attempt.thrown.Some? {
        return Failure(attempt.thrown.value), sent;
      }
      if attempt.fetched.Failure? {
        connectionError := Some(attempt.fetched.error);
      }
      UpdateBackoffTime(attempt.finish);
      r := Success(if attempt.fetched.Success? then attempt.fetched.value else Undefined);
    }
  }

  // ---------------------------------------------------------------------------
  // Properties of the bookkeeping

  /** The time to wait is 0 while no backoff is set, else the time left, negative once it has passed. */
  lemma TimedeltaFacts(backoffTime: Option<real>, now: real)
    ensures !IsSet(backoffTime) ==> Timedelta(backoffTime, now) == 0.0
    ensures IsSet(backoffTime) ==> Timedelta(backoffTime, now) == backoffTime.value - now
    ensures IsSet(backoffTime) && now > backoffTime.value ==> Timedelta(backoffTime, now) < 0.0
  {
  }

  /** Without a recorded error an update clears the backoff; with one it sets `now + 0.5·2^retries` and counts a retry. */
  lemma UpdateFacts(s: BackoffState, now: real)
    ensures var u := Update(s, now);
            && u.connectionError == s.connectionError
            && (!ErrorRecorded(s.connectionError) ==> u.retries == 0 && u.backoffTime.None?)
            && (ErrorRecorded(s.connectionError) ==>
                  u.retries == s.retries + 1 && u.backoffTime == Some(now + BackoffDelay * Pow2(s.retries) as real))
  {
  }

  /** Successive updates after an error wait twice as long each time. */
  lemma DelaysDouble(s: BackoffState, t1: real, t2: real)
    requires ErrorRecorded(s.connectionError)
    ensures var u1 := Update(s, t1);
            var u2 := Update(u1, t2);
            u2.backoffTime.value - t2 == 2.0 * (u1.backoffTime.value - t1)
  {
    assert Pow2(s.retries + 1) == 2 * Pow2(s.retries);
  }

  /** Updates at the times `times`, one after the other. */
  function Updates(s: BackoffState, times: seq<real>): BackoffState
  {
    if times == [] then s else Update(Updates(s, times[..|times| - 1]), times[|times| - 1])
  }

  /**
   * Once an error is recorded it stays, so every later update takes the error
   * branch: after `n` of them the retry count has grown by `n` and the last
   * delay is `0.5·2^(retries+n-1)`, with no cap.
   */
  lemma {:induction false} UpdatesAfterError(s: BackoffState, times: seq<real>)
    requires ErrorRecorded(s.connectionError)
    ensures Updates(s, times).connectionError == s.connectionError
    ensures Updates(s, times).retries == s.retries + |times|
    ensures |times| > 0 ==>
              Updates(s, times).backoffTime == Some(times[|times| - 1] + BackoffDelay * Pow2(s.retries + |times| - 1) as real)
  {
    if times != [] {
      UpdatesAfterError(s, times[..|times| - 1]);
    }
  }

  /** The delay grows without bound: the `n`-th retry waits at least `(n + 1) / 2` milliseconds. */
  lemma {:induction false} DelayUnbounded(n: nat)
    ensures BackoffDelay * Pow2(n) as real >= (n + 1) as real / 2.0
  {
    if n > 0 {
      DelayUnbounded(n - 1);
    }
  }

  /**
   * A request with an empty url rejects before touching any state.  When
   * `baseRequest` throws at once, the request rejects with that error; the
   * timeout is set but the backoff state is left as it was.  Any other
   * request whose config can be built updates the backoff exactly once, after
   * recording a failed fetch as the connection error, and resolves to
   * `undefined` when the fetch failed.  The guard never throws `TimeoutError`,
   * so the request rejects with it only when `baseRequest` threw it.
   */
  lemma RequestFacts(node: Value, s: BackoffState, timeout: Option<real>, endpoint: Value, config: Value,
                     setTimeout: Option<real>, attempt: Attempt)
    ensures var step := RequestSpec(node, s, timeout, endpoint, config, setTimeout, attempt);
            && (step.result == Failure(Thrown(Obj([("message", Str("TimeoutError"))]))) ==>
                  attempt.thrown == Some(Thrown(Obj([("message", Str("TimeoutError"))]))))
            && (RequestConfig(node, config).Success? && !Truthy(endpoint) ==>
                  step.result == Failure(Error(NoUrlMessage)) && step.state == s && step.timeout == timeout)
            && (RequestConfig(node, config).Success? && Truthy(endpoint) && attempt.thrown.Some? ==>
                  && step.result == Failure(attempt.thrown.value) && step.state == s
                  && step.timeout == RequestTimeout(setTimeout, Timedelta(s.backoffTime, attempt.start)))
            && (RequestConfig(node, config).Success? && Truthy(endpoint) && attempt.thrown.None? ==>
                  && step.state == Update(Record(s, attempt.fetched), attempt.finish)
                  && step.result.Success?
                  && (attempt.fetched.Failure? ==>
                        step.result.value == Undefined && step.state.connectionError == Some(attempt.fetched.error))
                  && (attempt.fetched.Success? ==> step.result.value == attempt.fetched.value))
    ensures s.connectionError.Some? ==>
              RequestSpec(node, s, timeout, endpoint, config, setTimeout, attempt).state.connectionError.Some?
    ensures ErrorRecorded(s.connectionError) && (attempt.fetched.Failure? ==> ErrorRecorded(Some(attempt.fetched.error))) ==>
              ErrorRecorded(RequestSpec(node, s, timeout, endpoint, config, setTimeout, attempt).state.connectionError)
  {
  }

  /**
   * A url template that `baseRequest` fails to expand makes the request reject
   * with the expansion's error, and the node's backoff state stays as it was:
   * no connection error is recorded and the node does not back off.
   */
  lemma TemplateErrorRejects(libs: BaseRequest.Libraries, node: Value, s: BackoffState, timeout: Option<real>,
                             endpoint: Value, config: Value, setTimeout: Option<real>, attempt: Attempt)
    requires Prepare(node, endpoint, config).Success?
    requires ThrowsAsBaseRequest(libs, Prepare(node, endpoint, config).value, attempt)
    ensures var sent := Prepare(node, endpoint, config).value;
            var expanded := BaseRequest.ExpandUrl(sent.0, Lookup(sent.1, "urlTemplateSpec"), libs);
            var step := RequestSpec(node, s, timeout, endpoint, config, setTimeout, attempt);
            && (expanded.Failure? ==> step.result == Failure(expanded.error) && step.state == s)
            && (expanded.Success? ==> step.state == Update(Record(s, attempt.fetched), attempt.finish))
  {
  }

  /** The merged config holds the query given, and a JSON body adds `Content-Type: application/json` to the headers. */
  lemma MergeConfigFacts(nodeHeaders: Value, config: Value, query: Value)
    ensures var es := MergeConfig(nodeHeaders, config, query);
            && Lookup(es, "query") == query
            && (Truthy(Lookup(Assign([], [nodeHeaders, DefaultRequestConfig, config]), "jsonBody")) ==>
                  var headers := Lookup(es, "headers");
                  headers.Obj? && Lookup(headers.entries, "Content-Type") == Str("application/json"))
  {
    var first := [nodeHeaders, DefaultRequestConfig, config];
    var merged := Assign([], first + [Obj([("query", query)])]);
    AssignLastEntry([], first, "query", query);
    var h := Lookup(merged, "headers");
    var contentType := Obj([("Content-Type", Str("application/json"))]);
    SetKeyFacts(merged, "headers", Obj(Assign([], [h] + [contentType])));
    AssignLastEntry([], [h], "Content-Type", Str("application/json"));
  }

  /** The config sent holds the sanitised query (the query itself when it is falsy). */
  lemma RequestConfigFacts(node: Value, config: Value)
    requires RequestConfig(node, config).Success?
    ensures var query := GetProp(config, "query").value;
            var es := RequestConfig(node, config).value;
            && Lookup(es, "query") == (if Truthy(query) then Sanitize.Sanitize(query).value else query)
            && (Truthy(Lookup(Assign([], [GetProp(node, "headers").value, DefaultRequestConfig, config]), "jsonBody")) ==>
                  var headers := Lookup(es, "headers");
                  headers.Obj? && Lookup(headers.entries, "Content-Type") == Str("application/json"))
  {
    var query := GetProp(config, "query").value;
    MergeConfigFacts(GetProp(node, "headers").value, config, if Truthy(query) then Sanitize.Sanitize(query).value else query);
  }
}
