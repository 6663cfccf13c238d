/**
 * The coins actions in the browser: `getCoins` extracts a number from the
 * proxy's reply, `fetchCoins` decides what to show in an alert. The request
 * itself is an input: it either rejects or yields a status and the body
 * parsed as JSON (`null` when that fails).
 */
module Coins {
  import opened Js
  import opened JsonValue
  import opened BackendClient

  datatype CoinsReply =
    | Rejected(message: Option<string>, asString: string)
    | Reply(status: int, data: Json)

  /** The first present, non-null member among `coins`, `amount` and `value`. */
  function CoinsField(data: Json): (v: Option<Json>)
    ensures !Nullish(Get(data, "coins")) ==> v == Get(data, "coins")
    ensures Nullish(Get(data, "coins")) && !Nullish(Get(data, "amount")) ==> v == Get(data, "amount")
    ensures Nullish(Get(data, "coins")) && Nullish(Get(data, "amount")) ==> v == Get(data, "value")
  {
    Coalesce(Coalesce(Get(data, "coins"), Get(data, "amount")), Get(data, "value"))
  }

  /** `getCoins`: a number from a successful reply that is a number or holds one in `coins`, `amount` or `value`; `null` otherwise. */
  function GetCoins(r: CoinsReply): (coins: Option<real>)
    ensures coins.Some? ==> r.Reply? && Ok(r.status)
    ensures r.Reply? && Ok(r.status) && r.data.JNum? ==> coins == Some(r.data.n)
    ensures r.Reply? && Ok(r.status) && !r.data.JNum? && !r.data.JNull? ==>
      (coins.Some? <==> CoinsField(r.data).Some? && CoinsField(r.data).value.JNum?)
    ensures coins.Some? && !r.data.JNum? ==> CoinsField(r.data) == Some(JNum(coins.value))
  {
    match r
    case Rejected(_, _) => None
    case Reply(status, data) =>
      if !Ok(status) then None
      else if data.JNull? then None
      else if data.JNum? then Some(data.n)
      else
        var v := CoinsField(data);
        if v.Some? && v.value.JNum? then Some(v.value.n) else None
  }

  /** The three shapes the reader accepts all give the number back. */
  lemma CoinsShapes(status: int, n: real)
    requires Ok(status)
    ensures GetCoins(Reply(status, JNum(n))) == Some(n)
    ensures GetCoins(Reply(status, JObj([("coins", JNum(n))]))) == Some(n)
    ensures GetCoins(Reply(status, JObj([("amount", JNum(n))]))) == Some(n)
    ensures GetCoins(Reply(status, JObj([("value", JNum(n))]))) == Some(n)
  {
    LastMemberWins([], "coins", JNum(n));
    LastMemberWins([], "amount", JNum(n));
    LastMemberWins([], "value", JNum(n));
  }

  /** `coins` wins over `amount`, but a `null` `coins` falls through to `amount`; a numeric string is not a number. */
  lemma CoinsPrecedence(status: int, a: real, b: real)
    requires Ok(status)
    ensures GetCoins(Reply(status, JObj([("coins", JNum(a)), ("amount", JNum(b))]))) == Some(a)
    ensures GetCoins(Reply(status, JObj([("coins", JNull), ("amount", JNum(b))]))) == Some(b)
    ensures GetCoins(Reply(status, JObj([("coins", JStr("12"))]))) == None
  {
    var both := [("coins", JNum(a)), ("amount", JNum(b))];
    assert both == [("coins", JNum(a))] + [("amount", JNum(b))];
    OtherMemberIgnored([("coins", JNum(a))], "coins", "amount", JNum(b));
    LastMemberWins([], "coins", JNum(a));
    var nulled := [("coins", JNull), ("amount", JNum(b))];
    assert nulled == [("coins", JNull)] + [("amount", JNum(b))];
    OtherMemberIgnored([("coins", JNull)], "coins", "amount", JNum(b));
    LastMemberWins([], "coins", JNull);
    LastMemberWins([("coins", JNull)], "amount", JNum(b));
    LastMemberWins([], "coins", JStr("12"));
  }

  /** Where the alert's error text comes from. */
  datatype ErrorSource =
    | FromErrorField(error: Json)
    | FromBody(data: Json)
    | FromStatus(status: int)

  datatype CoinsAlert =
    | CurrentCoins(data: Json)
    | FetchError(source: ErrorSource)
    | RequestFailed(reason: string)

  /** `data && (data.error || JSON.stringify(data)) || "Status " + status`: the body's error, else the whole body, else the status. */
  function ErrorSourceOf(status: int, data: Json): (src: ErrorSource)
    ensures !TruthyJson(data) ==> src == FromStatus(status)
    ensures TruthyJson(data) && TruthyMember(Get(data, "error")) ==> src == FromErrorField(Get(data, "error").value)
    ensures TruthyJson(data) && !TruthyMember(Get(data, "error")) ==> src == FromBody(data)
  {
    if !TruthyJson(data) then FromStatus(status)
    else
      var err := Get(data, "error");
      if err.Some? && TruthyJson(err.value) then FromErrorField(err.value) else FromBody(data)
  }

  /** `fetchCoins`: the alert shown for a reply. */
  function FetchCoins(r: CoinsReply): (alert: CoinsAlert)
    ensures r.Rejected? ==> alert == RequestFailed(OrElse(r.message, r.asString))
    ensures r.Reply? && Ok(r.status) ==> alert == CurrentCoins(r.data)
    ensures r.Reply? && !Ok(r.status) ==> alert == FetchError(ErrorSourceOf(r.status, r.data))
  {
    match r
    case Rejected(message, asString) => RequestFailed(OrElse(message, asString))
    case Reply(status, data) => if Ok(status) then CurrentCoins(data) else FetchError(ErrorSourceOf(status, data))
  }

  /**
   * Through the proxy: a backend failure never yields a coin count, and when
   * its status is not 2xx the alert quotes the failure's message (for a
   * timeout, "Backend request timeout").
   */
  lemma RelayedFailure(base: string, path: string, outcome: Outcome)
    requires ServerFetch(base, path, outcome).Failure?
    ensures var reply := ProxyGet(ServerFetch(base, path, outcome));
      GetCoins(Reply(reply.0, reply.1)) == None
    ensures var e := ServerFetch(base, path, outcome).err;
      var reply := ProxyGet(ServerFetch(base, path, outcome));
      !Ok(e.status) && e.message != "" ==> FetchCoins(Reply(reply.0, reply.1)) == FetchError(FromErrorField(JStr(e.message)))
  {
    RelayedError(ServerFetch(base, path, outcome).err);
  }

  /** What `getCoins` and `fetchCoins` make of one relayed failure. */
  lemma RelayedError(e: ApiError)
    ensures var reply := ProxyGet(Failure(e));
      GetCoins(Reply(reply.0, reply.1)) == None
    ensures var reply := ProxyGet(Failure(e));
      !Ok(e.status) && e.message != "" ==> FetchCoins(Reply(reply.0, reply.1)) == FetchError(FromErrorField(JStr(e.message)))
  {
    ProxiedFailureMembers(e, "coins");
    ProxiedFailureMembers(e, "amount");
    ProxiedFailureMembers(e, "value");
  }

  /** A timed-out backend request surfaces in the alert as "Backend request timeout". */
  lemma TimeoutAlert(base: string, path: string, message: Option<string>, code: Option<Json>)
    ensures var reply := ProxyGet(ServerFetch(base, path, Threw(ThrownOther(Some("AbortError"), message, code))));
      FetchCoins(Reply(reply.0, reply.1)) == FetchError(FromErrorField(JStr("Backend request timeout")))
  {
    RelayedFailure(base, path, Threw(ThrownOther(Some("AbortError"), message, code)));
  }

  /** A backend answer of `{"coins": n}` reaches `getCoins` as n. */
  lemma RelayedCoins(base: string, path: string, status: int, n: real)
    requires Ok(status) && !NullBodyStatus(status)
    ensures var body := Body(Some("application/json"), Some(JObj([("coins", JNum(n))])), None);
      var reply := ProxyGet(ServerFetch(base, path, Responded(status, "OK", body)));
      GetCoins(Reply(reply.0, reply.1)) == Some(n)
  {
    assert Contains("application/json", "application/json");
    CoinsShapes(status, n);
  }

  /**
   * A backend answering 204 or 205 never yields coins through the proxy: the
   * alert shows the proxy's catch-all error, whatever the body.
   */
  lemma RelayedNullBodySuccess(base: string, path: string, status: int, body: Body)
    requires Ok(status) && NullBodyStatus(status)
    ensures var reply := ProxyGet(ServerFetch(base, path, Responded(status, "", body)));
      GetCoins(Reply(reply.0, reply.1)) == None &&
      FetchCoins(Reply(reply.0, reply.1)) == FetchError(FromErrorField(JStr(UnknownProxyError)))
  {
  }
}
