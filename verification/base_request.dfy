/**
 * `baseRequest(url, config, requestTimeout)`: how the url and the `init` of
 * the `fetch` call are put together, and `handleResponse`, which turns a
 * response that is not ok into a `ResponseError`.
 *
 * The network, the timer race and the libraries (`vsprintf`, `sprintf`,
 * `decamelize`, `queryString.stringify`, `JSON.stringify`) are not executed:
 * the call is returned as a `FetchCall` value and the libraries are
 * parameters.
 */
module BaseRequest {
  import opened Wrappers
  import opened JsValue
  import FormatText
  import QueryParam

  const NotReachableMessage := "HTTP Error: Requested page not reachable"

  /** The library functions `baseRequest` relies on. */
  datatype Libraries = Libraries(
    vsprintf: (string, seq<Value>) -> Result<string, Exception>,
    sprintf: (Value, seq<Value>) -> Result<string, Exception>,
    decamelize: string -> string,
    stringify: Entries -> string,
    jsonStringify: Value -> string)

  /** The `fetch(url, init)` that is made, raced against a timer of `timeout` milliseconds when there is one. */
  datatype FetchCall = FetchCall(url: string, init: Entries, timeout: Option<Value>)

  /** The options `baseRequest` takes for itself and does not pass on to `fetch`. */
  const OwnOptions: seq<string> := ["jsonBody", "query", "urlTemplateSpec"]

  /** The `...fetchConfig` rest of the destructuring: the entries whose key is not in `names`, in their order. */
  function Without(es: Entries, names: seq<string>): (r: Entries)
    ensures forall j | 0 <= j < |r| :: r[j].0 !in names
    ensures |r| <= |es|
  {
    if es == [] then []
    else
      var rest := Without(es[..|es| - 1], names);
      var last := es[|es| - 1];
      if last.0 in names then rest else rest + [last]
  }

  /** `vsprintf` for a non-empty array, `formatText` for an object with keys, the url itself otherwise. */
  function ExpandUrl(url: string, urlTemplateSpec: Value, libs: Libraries): Result<string, Exception>
  {
    if IsNullish(urlTemplateSpec) then Success(url)
    else if urlTemplateSpec.Arr? && urlTemplateSpec.items != [] then libs.vsprintf(url, urlTemplateSpec.items)
    else if Truthy(urlTemplateSpec) && TypeofObject(urlTemplateSpec) && ObjectEntries(urlTemplateSpec).value != [] then
      FormatText.Format(Str(url), [urlTemplateSpec], libs.sprintf)
    else Success(url)  // a warning on the console, which is not modelled
  }

  /** What `expandedUrl +=` appends for `query`. */
  function QuerySuffix(query: Value, libs: Libraries): string
  {
    if IsNullish(query) then ""
    else if query.Str? then query.s
    else if Truthy(query) && TypeofObject(query) then QueryParam.StringifyAsQueryParam(query, libs.decamelize, libs.stringify)
    else ""  // a warning on the console
  }

  /** The `init` handed to `fetch`: the rest of the options, with `body` set from a non-null `jsonBody`. */
  function FetchInit(options: Entries, jsonBody: Value, libs: Libraries): Entries
  {
    var rest := Without(options, OwnOptions);
    if IsNullish(jsonBody) then rest else SetKey(rest, "body", Str(libs.jsonStringify(jsonBody)))
  }

  /**
   * `baseRequest(url, config, requestTimeout)` up to the `fetch` call: the
   * url is expanded, then the query appended, then the body set.  A missing
   * `config` defaults to `{}`; a null one cannot be destructured.
   */
  method Request(url: string, config: Value, requestTimeout: Value, libs: Libraries) returns (r: Result<FetchCall, Exception>)
    ensures config.Null? ==> r == Failure(EngineTypeError)
    ensures !config.Null? ==>
              var c := if config.Undefined? then Obj([]) else config;
              match ExpandUrl(url, GetProp(c, "urlTemplateSpec").value, libs)
              case Failure(e) => r == Failure(e)
              case Success(expanded) =>
                r == Success(FetchCall(expanded + QuerySuffix(GetProp(c, "query").value, libs),
                                       FetchInit(ObjectEntries(c).value, GetProp(c, "jsonBody").value, libs),
                                       if Truthy(requestTimeout) then Some(requestTimeout) else None))
  {
    var c := config;
    if c.Undefined? {
      c := Obj([]);
    }
    if c.Null? {
      return Failure(EngineTypeError);
    }
    var jsonBody := GetProp(c, "jsonBody").value;
    var query := GetProp(c, "query").value;
    var urlTemplateSpec := GetProp(c, "urlTemplateSpec").value;
    var fetchConfig := Without(ObjectEntries(c).value, OwnOptions);

    var expandedUrl := url;
    if !IsNullish(urlTemplateSpec) {
      if urlTemplateSpec.Arr? && urlTemplateSpec.items != [] {
        var expanded := libs.vsprintf(url, urlTemplateSpec.items);
        if expanded.Failure? {
          return Failure(expanded.error);
        }
        expandedUrl := expanded.value;
      } else if Truthy(urlTemplateSpec) && TypeofObject(urlTemplateSpec) && ObjectEntries(urlTemplateSpec).value != [] {
        var expanded := FormatText.Format(Str(url), [urlTemplateSpec], libs.sprintf);
        if expanded.Failure? {
          return Failure(expanded.error);
        }
        expandedUrl := expanded.value;
      }
    }

    assert ExpandUrl(url, urlTemplateSpec, libs) == Success(expandedUrl);
    ghost var expanded := expandedUrl;
    if !IsNullish(query) {
      if query.Str? {
        expandedUrl := expandedUrl + query.s;
      } else if Truthy(query) && TypeofObject(query) {
        expandedUrl := expandedUrl + QueryParam.StringifyAsQueryParam(query, libs.decamelize, libs.stringify);
      }
    }

    if !IsNullish(jsonBody) {
      fetchConfig := SetKey(fetchConfig, "body", Str(libs.jsonStringify(jsonBody)));
    }
    assert expandedUrl == expanded + QuerySuffix(query, libs);
    var timeout := if Truthy(requestTimeout) then Some(requestTimeout) else None;
    r := Success(FetchCall(expandedUrl, fetchConfig, timeout));
  }

  /** `handleResponse(res)`: an ok response is passed on; anything else throws a `ResponseError`. */
  function HandleResponse(res: Value): (r: Result<Value, Exception>)
    ensures r.Success? <==> Truthy(res) && Truthy(GetProp(res, "ok").value)
    ensures r.Success? ==> r.value == res
  {
    if Truthy(res) && Truthy(GetProp(res, "ok").value) then Success(res)
    else if IsNullish(res) then Failure(EngineTypeError)  // reading `res.status` on a missing response
    else
      var status := GetProp(res, "status").value;
      var statusText := GetProp(res, "statusText").value;
      Failure(ResponseError(NotReachableMessage, ToJsString(status) + " " + ToJsString(statusText), GetProp(res, "url").value))
  }

  /** The `name` an exception carries. */
  function Name(e: Exception): (name: string)
    ensures e.ResponseError? <==> name == "ResponseError"
  {
    match e
    case EngineTypeError => "TypeError"
    case TypeError(_) => "TypeError"
    case SyntaxError(_) => "SyntaxError"
    case Error(_) => "Error"
    case ResponseError(_, _, _) => "ResponseError"
    case Thrown(_) => "Error"
  }

  // ---------------------------------------------------------------------------
  // Properties

  /** The rest of the destructuring keeps every other key with its value and drops the named ones. */
  lemma {:induction false} WithoutLookup(es: Entries, names: seq<string>, k: string)
    requires UniqueKeys(es)
    ensures HasKey(Without(es, names), k) <==> HasKey(es, k) && k !in names
    ensures Lookup(Without(es, names), k) == if k in names then Undefined else Lookup(es, k)
  {
    if es != [] {
      var init := es[..|es| - 1];
      var last := es[|es| - 1];
      assert es == init + [last];
      assert UniqueKeys(init);
      WithoutLookup(init, names, k);
      LookupSnoc(init, last, k);
      if last.0 !in names {
        LookupSnoc(Without(init, names), last, k);
        if k == last.0 {
          assert !HasKey(init, k) by {
            forall j | 0 <= j < |init| ensures Keys(init)[j] != k {
              assert init[j] == es[j];
            }
          }
        }
      }
    }
  }

  /**
   * A non-empty array spec expands with `vsprintf`, an object with keys with
   * `formatText`, and anything else (null, undefined, `[]`, `{}`, a string,
   * a number, a boolean) leaves the url as it is.
   */
  lemma UrlExpansion(url: string, spec: Value, libs: Libraries)
    ensures spec.Arr? && spec.items != [] ==> ExpandUrl(url, spec, libs) == libs.vsprintf(url, spec.items)
    ensures spec.Obj? && spec.entries != [] ==>
              ExpandUrl(url, spec, libs) == FormatText.Format(Str(url), [spec], libs.sprintf)
    ensures !(spec.Arr? && spec.items != []) && !(spec.Obj? && spec.entries != []) ==> ExpandUrl(url, spec, libs) == Success(url)
  {
  }

  /** A string query is appended as it is; an object query as its query-parameter string. */
  lemma QueryAppended(query: Value, libs: Libraries)
    ensures query.Str? ==> QuerySuffix(query, libs) == query.s
    ensures query.Obj? && query.entries != [] ==>
              var suffix := QuerySuffix(query, libs);
              suffix[0] == '?' && suffix == QueryParam.StringifyAsQueryParam(query, libs.decamelize, libs.stringify)
    ensures !query.Str? && !query.Obj? && !query.Arr? ==> QuerySuffix(query, libs) == ""
  {
  }

  /**
   * `fetch` never sees `jsonBody`, `query` or `urlTemplateSpec`; `body` is
   * the JSON of a non-null `jsonBody` and overrides a `body` option; every
   * other option is passed on unchanged.
   */
  lemma FetchInitFacts(options: Entries, jsonBody: Value, libs: Libraries, k: string)
    requires UniqueKeys(options)
    ensures forall name | name in OwnOptions :: !HasKey(FetchInit(options, jsonBody, libs), name)
    ensures k == "body" && !IsNullish(jsonBody) ==> Lookup(FetchInit(options, jsonBody, libs), k) == Str(libs.jsonStringify(jsonBody))
    ensures k !in OwnOptions && (k != "body" || IsNullish(jsonBody)) ==>
              Lookup(FetchInit(options, jsonBody, libs), k) == Lookup(options, k)
  {
    var rest := Without(options, OwnOptions);
    WithoutLookup(options, OwnOptions, k);
    forall name | name in OwnOptions ensures !HasKey(FetchInit(options, jsonBody, libs), name) {
      WithoutLookup(options, OwnOptions, name);
      if !IsNullish(jsonBody) {
        SetKeyHasKey(rest, "body", Str(libs.jsonStringify(jsonBody)), name);
      }
    }
    if !IsNullish(jsonBody) {
      SetKeyLookup(rest, "body", Str(libs.jsonStringify(jsonBody)), k);
    }
  }

  /**
   * A response that is not ok is a `ResponseError` with the fixed message,
   * `"<status> <statusText>"` as its status and the response url as its
   * request URI; a missing response throws the engine's TypeError.
   */
  lemma ResponseErrorFields(res: Value)
    ensures res.Obj? && !Truthy(Lookup(res.entries, "ok")) ==>
              var r := HandleResponse(res);
              && r.Failure? && Name(r.error) == "ResponseError"
              && r.error == ResponseError(NotReachableMessage,
                                          ToJsString(Lookup(res.entries, "status")) + " " + ToJsString(Lookup(res.entries, "statusText")),
                                          Lookup(res.entries, "url"))
    ensures IsNullish(res) ==> HandleResponse(res) == Failure(EngineTypeError)
  {
  }
}
