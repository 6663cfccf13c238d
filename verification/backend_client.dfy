/**
 * The server-side backend client: how a request URL is built from the
 * backend's base URL, which headers are sent, how the response body becomes
 * data, and how every failure is turned into an `ApiError` carrying a status,
 * a message and the URL. The proxy route that relays these results to the
 * browser is modelled too, as far as the coins lookup needs it.
 *
 * The network call itself is an input: its outcome is one of the cases of
 * `Outcome`.
 */
module BackendClient {
  import opened Js
  import opened JsonValue

  const DefaultBackendUrl: string := "http://localhost:5256"
  const TimeoutStatus: int := 504
  const GenericStatus: int := 500

  /** `process.env.BACKEND_URL || "http://localhost:5256"`. */
  function BackendUrl(env: Option<string>): (u: string)
    ensures Truthy(env) ==> u == env.value
    ensures !Truthy(env) ==> u == DefaultBackendUrl
  {
    OrElse(env, DefaultBackendUrl)
  }

  // ---------------------------------------------------------------------------
  // The request

  /** `s.replace(/\/$/, "")`: one trailing slash removed. */
  function TrimTrailingSlash(s: string): (r: string)
    ensures r == s || r + "/" == s
  {
    if |s| > 0 && s[|s| - 1] == '/' then s[..|s| - 1] else s
  }

  /** `s.replace(/^\//, "")`: one leading slash removed. */
  function TrimLeadingSlash(s: string): (r: string)
    ensures r == s || "/" + r == s
  {
    if |s| > 0 && s[0] == '/' then s[1..] else s
  }

  /** The request URL: an absolute `http…` path as it is, otherwise the path joined to the base with one slash. */
  function RequestUrl(base: string, path: string): (url: string)
    ensures StartsWith(path, "http") ==> url == path
    ensures !StartsWith(path, "http") ==> exists b, p :: url == b + "/" + p && (base == b || base == b + "/") && (path == p || path == "/" + p)
    ensures |url| > 0
  {
    if StartsWith(path, "http") then path
    else
      var b := TrimTrailingSlash(base);
      var p := TrimLeadingSlash(path);
      assert (base == b || base == b + "/") && (path == p || path == "/" + p);
      b + "/" + p
  }

  /**
   * One slash joins base and path whether the base ends with a slash, the
   * path starts with one, both or neither.
   */
  lemma JoinIgnoresBoundarySlashes(base: string, path: string)
    requires (|base| == 0 || base[|base| - 1] != '/') && (|path| == 0 || path[0] != '/')
    requires !StartsWith(path, "http")
    ensures RequestUrl(base, path) == base + "/" + path
    ensures RequestUrl(base + "/", path) == base + "/" + path
    ensures RequestUrl(base, "/" + path) == base + "/" + path
    ensures RequestUrl(base + "/", "/" + path) == base + "/" + path
  {
    assert (base + "/")[..|base|] == base;
    assert ("/" + path)[1..] == path;
    assert !StartsWith("/" + path, "http") by {
      assert ("/" + path)[0] == '/';
    }
  }

  /** The headers sent: `accept: application/json` unless the caller gives its own, then the caller's headers. */
  function RequestHeaders(given: Option<map<string, string>>): (h: map<string, string>)
    ensures h.Keys == given.GetOr(map[]).Keys + {"accept"}
    ensures forall k :: k in given.GetOr(map[]) ==> h[k] == given.GetOr(map[])[k]
    ensures "accept" !in given.GetOr(map[]) ==> h["accept"] == "application/json"
  {
    map["accept" := "application/json"] + given.GetOr(map[])
  }

  // ---------------------------------------------------------------------------
  // The response

  /** What the response offers: its content type, its body parsed as JSON (if that succeeds) and its body as text (if that succeeds). */
  datatype Body = Body(contentType: Option<string>, json: Option<Json>, text: Option<string>)

  /** The response data: parsed JSON for a JSON content type, the text otherwise; `null` when reading fails. */
  function ResponseData(body: Body): (data: Json)
    ensures Contains(OrElse(body.contentType, ""), "application/json") ==> data == body.json.GetOr(JNull)
    ensures !Contains(OrElse(body.contentType, ""), "application/json") && body.text.Some? ==> data == JStr(body.text.value)
    ensures !Contains(OrElse(body.contentType, ""), "application/json") && body.text.None? ==> data == JNull
  {
    if Contains(OrElse(body.contentType, ""), "application/json") then body.json.GetOr(JNull)
    else if body.text.Some? then JStr(body.text.value)
    else JNull
  }

  /** `res.ok`: a 2xx status. */
  predicate Ok(status: int) {
    200 <= status <= 299
  }

  // ---------------------------------------------------------------------------
  // Failures

  /** `ApiError`: `data` and `url` may be `undefined` (`None`). */
  datatype ApiError = ApiError(status: int, message: string, data: Option<Json>, url: Option<string>)

  /** What the `catch` block receives: an `ApiError`, or any other thrown value with its optional name, message and code. */
  datatype Thrown =
    | ThrownApi(err: ApiError)
    | ThrownOther(name: Option<string>, message: Option<string>, code: Option<Json>)

  /** What `fetch` does: answer with a status, status text and body, or throw. */
  datatype Outcome =
    | Responded(status: int, statusText: string, body: Body)
    | Threw(thrown: Thrown)

  datatype FetchResult =
    | Success(status: int, data: Json, url: string)
    | Failure(err: ApiError)

  /** An abort by the timeout controller. */
  predicate IsAbort(t: Thrown) {
    t.ThrownOther? && t.name == Some("AbortError")
  }

  /** A string `code` of a thrown value, if it has one. */
  function StringCode(code: Option<Json>): Option<string> {
    if code.Some? && code.value.JStr? then Some(code.value.s) else None
  }

  /** The message of a generic failure: the thrown message or "Unknown error", followed by the code in parentheses when there is a non-empty one. */
  function GenericMessage(message: Option<string>, code: Option<Json>): (msg: string)
    ensures Truthy(StringCode(code)) ==> msg == OrElse(message, "Unknown error") + " (" + StringCode(code).value + ")"
    ensures !Truthy(StringCode(code)) ==> msg == OrElse(message, "Unknown error")
  {
    var c := StringCode(code);
    if Truthy(c) then OrElse(message, "Unknown error") + " (" + c.value + ")" else OrElse(message, "Unknown error")
  }

  /**
   * The `catch` block: an abort becomes a 504 timeout, an `ApiError` is
   * passed on with the URL filled in when it has none, anything else becomes
   * a 500 with the thrown message.
   */
  function Classify(url: string, t: Thrown): (e: ApiError)
    ensures IsAbort(t) ==> e == ApiError(TimeoutStatus, "Backend request timeout", None, Some(url))
    ensures t.ThrownApi? ==> e.status == t.err.status && e.message == t.err.message && e.data == t.err.data
    ensures t.ThrownApi? && Truthy(t.err.url) ==> e.url == t.err.url
    ensures t.ThrownApi? && !Truthy(t.err.url) ==> e.url == Some(url)
    ensures t.ThrownOther? && !IsAbort(t) ==> e == ApiError(GenericStatus, GenericMessage(t.message, t.code), None, Some(url))
  {
    match t
    case ThrownOther(name, message, code) =>
      if name == Some("AbortError") then ApiError(TimeoutStatus, "Backend request timeout", None, Some(url))
      else ApiError(GenericStatus, GenericMessage(message, code), None, Some(url))
    case ThrownApi(err) =>
      if Truthy(err.url) then err else err.(url := Some(url))
  }

  /** The error thrown for a non-2xx response, before it reaches the `catch` block. */
  function StatusError(url: string, status: int, statusText: string, data: Json): ApiError {
    ApiError(status, "Backend request failed: " + IntToDecimal(status) + " " + statusText, Some(data), Some(url))
  }

  /** `serverFetch`: the request's result given what `fetch` did. */
  function ServerFetch(base: string, path: string, outcome: Outcome): (r: FetchResult)
    ensures r.Success? <==> outcome.Responded? && Ok(outcome.status)
    ensures r.Success? ==> r == Success(outcome.status, ResponseData(outcome.body), RequestUrl(base, path))
  {
    var url := RequestUrl(base, path);
    match outcome
    case Responded(status, statusText, body) =>
      var data := ResponseData(body);
      if !Ok(status) then Failure(Classify(url, ThrownApi(StatusError(url, status, statusText, data))))
      else Success(status, data, url)
    case Threw(t) => Failure(Classify(url, t))
  }

  /**
   * Every failure names a URL, and the failure's status says what went
   * wrong: the response's own status, 504 for a timeout, the `ApiError`'s
   * status, or 500 for anything else.
   */
  lemma FailureClassification(base: string, path: string, outcome: Outcome)
    ensures var r := ServerFetch(base, path, outcome);
      r.Failure? ==> Truthy(r.err.url)
    ensures var r := ServerFetch(base, path, outcome);
      outcome.Responded? && !Ok(outcome.status) ==>
        r.Failure? && r.err.status == outcome.status && r.err.url == Some(RequestUrl(base, path)) &&
        r.err.data == Some(ResponseData(outcome.body)) &&
        r.err.message == "Backend request failed: " + IntToDecimal(outcome.status) + " " + outcome.statusText
    ensures var r := ServerFetch(base, path, outcome);
      outcome.Threw? && IsAbort(outcome.thrown) ==> r.Failure? && r.err.status == TimeoutStatus && r.err.message == "Backend request timeout"
    ensures var r := ServerFetch(base, path, outcome);
      outcome.Threw? && outcome.thrown.ThrownApi? ==> r.Failure? && r.err.status == outcome.thrown.err.status
    ensures var r := ServerFetch(base, path, outcome);
      outcome.Threw? && outcome.thrown.ThrownOther? && !IsAbort(outcome.thrown) ==> r.Failure? && r.err.status == GenericStatus
  {
  }

  // ---------------------------------------------------------------------------
  // The proxy route

  /** The statuses a response with a body may not carry: the Fetch standard's null body statuses. */
  predicate NullBodyStatus(status: int) {
    status == 101 || status == 103 || status == 204 || status == 205 || status == 304
  }

  const UnknownProxyError: string := "Unknown proxy error"

  /**
   * What the proxy's GET handler answers: the backend's status and data, or
   * the failure's status with `{error, data}` (`data` dropped when undefined).
   * A JSON reply cannot have a null body status, so a 204 or 205 success makes
   * building the reply throw, and the catch-all answers 500.
   */
  function ProxyGet(r: FetchResult): (reply: (int, Json))
    ensures r.Success? && !NullBodyStatus(r.status) ==> reply == (r.status, r.data)
    ensures r.Success? && NullBodyStatus(r.status) ==>
      reply.0 == GenericStatus && Get(reply.1, "error") == Some(JStr(UnknownProxyError)) && Get(reply.1, "data").None?
    ensures r.Failure? ==> reply.0 == r.err.status && Get(reply.1, "error") == Some(JStr(r.err.message))
    ensures r.Failure? ==> Get(reply.1, "data") == r.err.data
  {
    match r
    case Success(status, data, _) =>
      if NullBodyStatus(status) then
        LastMemberWins([], "error", JStr(UnknownProxyError));
        (GenericStatus, JObj([("error", JStr(UnknownProxyError))]))
      else (status, data)
    case Failure(e) =>
      var error := [("error", JStr(e.message))];
      LastMemberWins([], "error", JStr(e.message));
      if e.data.Some? then
        OtherMemberIgnored(error, "error", "data", e.data.value);
        LastMemberWins(error, "data", e.data.value);
        (e.status, JObj(error + [("data", e.data.value)]))
      else
        (e.status, JObj(error))
  }

  /** A relayed failure body carries nothing but the error and its data. */
  lemma ProxiedFailureMembers(e: ApiError, key: string)
    requires key != "error" && key != "data"
    ensures Get(ProxyGet(Failure(e)).1, key).None?
  {
  }
}
