/**
 * The axios client every service call goes through: a request interceptor
 * that attaches the bearer token from the store, and a response interceptor
 * that answers a 401 with at most one silent refresh and one replay of the
 * original request, or clears the session and redirects to `/login`.
 *
 * The server is an input: the answer to the request, to the refresh post and
 * to the replay. The outputs are how the call settles, the calls that went
 * out (so that their number can be stated), and the location the page was
 * sent to, if any.
 */
module ApiClient {
  import opened JsString
  import Json
  import Storage

  /** `API_CONFIG.BASE_URL` when no `VITE_API_URL` is set. */
  const BaseUrl: string := "http://localhost:5000/api/v1"
  const TimeoutMs: nat := 10000
  const RefreshPath: string := "/auth/refresh"
  const LoginPage: string := "/login"

  /** The instance's default headers; every request config starts from them. */
  const DefaultHeaders: map<string, string> := map["Content-Type" := "application/json"]

  /** What the server did with one request: answered 2xx with a body, or
      failed with a status (`None` when there was no response). */
  datatype HttpResult = Ok(body: Json.Json) | Err(status: Option<int>)

  /** Why a call was rejected. */
  datatype Rejection =
    | Original(status: Option<int>)     // the request's own error, passed on
    | NoRefreshToken                    // `new Error('No refresh token')`
    | RefreshFailed(status: Option<int>) // the refresh post's error
    | Unreadable                        // reading `response.data.data` threw

  datatype Settled = Resolved(body: Json.Json) | Rejected(reason: Rejection)

  /** A call that went out: through `apiClient`, or the bare refresh post. */
  datatype Call = Send(headers: map<string, string>) | RefreshPost(url: string, refreshToken: string)

  /** The server's answers to the request, the refresh post and the replay. */
  datatype Server = Server(first: HttpResult, refresh: HttpResult, replay: HttpResult)

  // ---------------------------------------------------------------------
  // Reading a response body
  // ---------------------------------------------------------------------

  /** `response.data.data`, or `None` where reading it, or destructuring it,
      throws: the body has no `data` member, or it is `null`. */
  function DataOf(body: Json.Json): (r: Option<Json.Json>)
    ensures r.Some? ==> body.Obj? && Json.Lookup(body.members, "data") == Some(r.value) && !r.value.Null?
    ensures r.None? ==> !body.Obj? || Json.Lookup(body.members, "data").None? ||
                        Json.Lookup(body.members, "data") == Some(Json.Null)
  {
    if body.Obj? then
      match Json.Lookup(body.members, "data")
      case Some(d) => if d.Null? then None else Some(d)
      case None => None
    else None
  }

  // ---------------------------------------------------------------------
  // Specification
  // ---------------------------------------------------------------------

  /** The request interceptor's header rule: `Authorization` is
      `Bearer <token>` exactly when the access token is a non-empty string. */
  function WithBearer(headers: map<string, string>, items: map<string, string>): (r: map<string, string>)
    ensures Storage.Truthy(Storage.Get(items, Storage.AccessTokenKey)) ==>
      "Authorization" in r && r["Authorization"] == "Bearer " + items[Storage.AccessTokenKey]
    ensures forall k :: k != "Authorization" ==> (k in r <==> k in headers)
    ensures forall k :: k != "Authorization" && k in headers ==> r[k] == headers[k]
    ensures !Storage.Truthy(Storage.Get(items, Storage.AccessTokenKey)) ==> r == headers
  {
    var token := Storage.Get(items, Storage.AccessTokenKey);
    if Storage.Truthy(token) then headers["Authorization" := "Bearer " + token.value] else headers
  }

  /** The store after the session is given up. */
  function Cleared(items: map<string, string>): map<string, string> {
    items - Storage.SessionKeys
  }

  /** The outcome of a whole `apiClient` call, with the state it leaves. */
  datatype Run = Run(
    settled: Settled,
    calls: seq<Call>,
    items: map<string, string>,
    headers: map<string, string>,
    retry: bool,
    location: Option<string>)

  /** The response interceptor's error handler, for an error with `status`
      on a request whose config holds `headers` and `retry`. */
  function OnError(items: map<string, string>, headers: map<string, string>, retry: bool,
                   status: Option<int>, server: Server): Run
    decreases if retry then 0 else 1
  {
    if status == Some(401) && !retry then
      var refresh := Storage.Get(items, Storage.RefreshTokenKey);
      if !Storage.Truthy(refresh) then
        Run(Rejected(NoRefreshToken), [], Cleared(items), headers, true, Some(LoginPage))
      else
        var post := RefreshPost(BaseUrl + RefreshPath, refresh.value);
        match server.refresh
        case Err(s) => Run(Rejected(RefreshFailed(s)), [post], Cleared(items), headers, true, Some(LoginPage))
        case Ok(body) =>
          match DataOf(body)
          case None => Run(Rejected(Unreadable), [post], Cleared(items), headers, true, Some(LoginPage))
          case Some(d) =>
            var token := Json.ItemText(Json.Property(d, "accessToken"));
            var items' := items[Storage.AccessTokenKey := token];
            var headers' := WithBearer(headers["Authorization" := "Bearer " + token], items');
            match server.replay
            case Ok(b) => Run(Resolved(b), [post, Send(headers')], items', headers', true, None)
            case Err(s) =>
              var r := OnError(items', headers', true, s, server);
              Run(r.settled, [post, Send(headers')] + r.calls, r.items, r.headers, r.retry, r.location)
    else
      Run(Rejected(Original(status)), [], items, headers, retry, None)
  }

  /** A call through `apiClient`: the request interceptor, the request, and
      the response interceptor on an error. */
  function Dispatch(items: map<string, string>, headers: map<string, string>, retry: bool,
                    server: Server): Run
  {
    var h := WithBearer(headers, items);
    match server.first
    case Ok(b) => Run(Resolved(b), [Send(h)], items, h, retry, None)
    case Err(s) =>
      var r := OnError(items, h, retry, s, server);
      Run(r.settled, [Send(h)] + r.calls, r.items, r.headers, r.retry, r.location)
  }

  // ---------------------------------------------------------------------
  // The client
  // ---------------------------------------------------------------------

  /** The mutable request config an interceptor receives. */
  class RequestConfig {
    var headers: map<string, string>
    var retry: bool

    constructor (headers: map<string, string>)
      ensures this.headers == headers && !retry
    {
      this.headers := headers;
      retry := false;
    }
  }

  method RequestInterceptor(config: RequestConfig, store: Storage.LocalStorage)
    modifies config
    ensures config.headers == WithBearer(old(config.headers), store.items)
    ensures config.retry == old(config.retry)
  {
    var token := Storage.Get(store.items, Storage.AccessTokenKey);
    if Storage.Truthy(token) {
      config.headers := config.headers["Authorization" := "Bearer " + token.value];
    }
  }

  /** The three `removeItem` calls of the failure path. */
  method ClearSession(store: Storage.LocalStorage)
    modifies store
    ensures store.items == Cleared(old(store.items))
  {
    store.RemoveItem(Storage.AccessTokenKey);
    store.RemoveItem(Storage.RefreshTokenKey);
    store.RemoveItem(Storage.AuthKey);
  }

  method ResponseInterceptor(store: Storage.LocalStorage, config: RequestConfig, status: Option<int>, server: Server)
    returns (settled: Settled, calls: seq<Call>, location: Option<string>)
    modifies store, config
    ensures var r := OnError(old(store.items), old(config.headers), old(config.retry), status, server);
      settled == r.settled && calls == r.calls && location == r.location &&
      store.items == r.items && config.headers == r.headers && config.retry == r.retry
    decreases if config.retry then 0 else 1
  {
    if status == Some(401) && !config.retry {
      config.retry := true;
      var refresh := Storage.Get(store.items, Storage.RefreshTokenKey);
      if !Storage.Truthy(refresh) {
        ClearSession(store);
        return Rejected(NoRefreshToken), [], Some(LoginPage);
      }
      var post := RefreshPost(BaseUrl + RefreshPath, refresh.value);
      if server.refresh.Err? {
        ClearSession(store);
        return Rejected(RefreshFailed(server.refresh.status)), [post], Some(LoginPage);
      }
      var data := DataOf(server.refresh.body);
      if data.None? {
        ClearSession(store);
        return Rejected(Unreadable), [post], Some(LoginPage);
      }
      var token := Json.ItemText(Json.Property(data.value, "accessToken"));
      store.SetItem(Storage.AccessTokenKey, token);
      config.headers := config.headers["Authorization" := "Bearer " + token];
      // The replay, `apiClient(originalRequest)`, runs the request
      // interceptor again; it is returned, not awaited, so its rejection
      // reaches the caller without passing through the `catch`.
      RequestInterceptor(config, store);
      calls := [post, Send(config.headers)];
      if server.replay.Ok? {
        return Resolved(server.replay.body), calls, None;
      }
      var more;
      settled, more, location := ResponseInterceptor(store, config, server.replay.status, server);
      calls := calls + more;
    } else {
      return Rejected(Original(status)), [], None;
    }
  }

  /** `apiClient(config)`. */
  method Request(store: Storage.LocalStorage, config: RequestConfig, server: Server)
    returns (settled: Settled, calls: seq<Call>, location: Option<string>)
    modifies store, config
    ensures var r := Dispatch(old(store.items), old(config.headers), old(config.retry), server);
      settled == r.settled && calls == r.calls && location == r.location &&
      store.items == r.items && config.headers == r.headers && config.retry == r.retry
  {
    RequestInterceptor(config, store);
    var sent := Send(config.headers);
    if server.first.Ok? {
      return Resolved(server.first.body), [sent], None;
    }
    var more;
    settled, more, location := ResponseInterceptor(store, config, server.first.status, server);
    calls := [sent] + more;
  }

  // ---------------------------------------------------------------------
  // Properties
  // ---------------------------------------------------------------------

  function Refreshes(calls: seq<Call>): nat
    decreases |calls|
  {
    if calls == [] then 0 else (if calls[0].RefreshPost? then 1 else 0) + Refreshes(calls[1..])
  }

  function Sends(calls: seq<Call>): nat
    decreases |calls|
  {
    if calls == [] then 0 else (if calls[0].Send? then 1 else 0) + Sends(calls[1..])
  }

  lemma {:induction false} CountsAppend(a: seq<Call>, b: seq<Call>)
    ensures Refreshes(a + b) == Refreshes(a) + Refreshes(b)
    ensures Sends(a + b) == Sends(a) + Sends(b)
    decreases |a|
  {
    if a != [] {
      assert (a + b)[1..] == a[1..] + b;
      CountsAppend(a[1..], b);
    } else {
      assert a + b == b;
    }
  }

  lemma PairCounts(post: Call, h: map<string, string>)
    requires post.RefreshPost?
    ensures Refreshes([post, Send(h)]) == 1 && Sends([post, Send(h)]) == 1
  {
    assert [post, Send(h)][1..] == [Send(h)];
    assert [Send(h)][1..] == [];
    assert Refreshes([Send(h)]) == 0 && Sends([Send(h)]) == 1;
  }

  /** Once `_retry` is set, the interceptor passes every error on. */
  lemma RetriedPassesOn(items: map<string, string>, headers: map<string, string>, status: Option<int>, server: Server)
    ensures OnError(items, headers, true, status, server) == Run(Rejected(Original(status)), [], items, headers, true, None)
  {
  }

  /** The error handler of a request not yet retried makes at most one
      refresh and one replay, and marks the request as retried. */
  lemma {:induction false} OnErrorBounded(items: map<string, string>, headers: map<string, string>, retry: bool,
                                          status: Option<int>, server: Server)
    ensures var r := OnError(items, headers, retry, status, server);
      Refreshes(r.calls) <= 1 && Sends(r.calls) <= 1 && (r.retry <==> retry || status == Some(401))
  {
    var r := OnError(items, headers, retry, status, server);
    if status == Some(401) && !retry {
      var refresh := Storage.Get(items, Storage.RefreshTokenKey);
      if Storage.Truthy(refresh) && server.refresh.Ok? && DataOf(server.refresh.body).Some? {
        var token := Json.ItemText(Json.Property(DataOf(server.refresh.body).value, "accessToken"));
        var items' := items[Storage.AccessTokenKey := token];
        var headers' := WithBearer(headers["Authorization" := "Bearer " + token], items');
        var post := RefreshPost(BaseUrl + RefreshPath, refresh.value);
        PairCounts(post, headers');
        if server.replay.Err? {
          RetriedPassesOn(items', headers', server.replay.status, server);
          assert [post, Send(headers')] + [] == [post, Send(headers')];
        }
      } else if Storage.Truthy(refresh) {
        assert [RefreshPost(BaseUrl + RefreshPath, refresh.value)][1..] == [];
      }
    }
  }

  /** Each `apiClient` call triggers at most one refresh and one replay:
      `_retry` is set before the refresh is tried, and the refresh post goes
      through bare `axios`, so it is never itself intercepted. */
  lemma AtMostOneRefresh(items: map<string, string>, headers: map<string, string>, retry: bool, server: Server)
    ensures Refreshes(Dispatch(items, headers, retry, server).calls) <= 1
    ensures Sends(Dispatch(items, headers, retry, server).calls) <= 2
    ensures Refreshes(Dispatch(items, headers, true, server).calls) == 0
  {
    var h := WithBearer(headers, items);
    assert [Send(h)][1..] == [];
    if server.first.Err? {
      OnErrorBounded(items, h, retry, server.first.status, server);
      CountsAppend([Send(h)], OnError(items, h, retry, server.first.status, server).calls);
      RetriedPassesOn(items, h, server.first.status, server);
      assert [Send(h)] + [] == [Send(h)];
    }
  }

  /** An error that is not a 401, or a 401 on a request already retried, is
      passed on unchanged, and the store is not touched. */
  lemma OtherErrorsPassOn(items: map<string, string>, headers: map<string, string>, retry: bool, server: Server)
    requires server.first.Err? && (server.first.status != Some(401) || retry)
    ensures Dispatch(items, headers, retry, server).settled == Rejected(Original(server.first.status))
    ensures Dispatch(items, headers, retry, server).items == items
    ensures Dispatch(items, headers, retry, server).location == None
    ensures Dispatch(items, headers, retry, server).calls == [Send(WithBearer(headers, items))]
  {
    assert [Send(WithBearer(headers, items))] + [] == [Send(WithBearer(headers, items))];
  }

  /** The refresh failed: no refresh token, the post was rejected, or its
      body could not be read. A missing refresh token is handled exactly like
      a rejected post. */
  predicate RefreshFails(items: map<string, string>, server: Server) {
    !Storage.Truthy(Storage.Get(items, Storage.RefreshTokenKey)) ||
    server.refresh.Err? ||
    DataOf(server.refresh.body).None?
  }

  /** The session is given up exactly when the first 401 of a request
      cannot be refreshed; then exactly the three session keys are removed,
      the page goes to `/login` and the call is rejected. */
  lemma SessionClearedOnlyOnFailedRefresh(items: map<string, string>, headers: map<string, string>,
                                          retry: bool, server: Server)
    ensures var r := Dispatch(items, headers, retry, server);
      r.location == Some(LoginPage) <==>
        server.first == Err(Some(401)) && !retry && RefreshFails(items, server)
    ensures var r := Dispatch(items, headers, retry, server);
      r.location == Some(LoginPage) ==> r.items == items - Storage.SessionKeys && r.settled.Rejected?
  {
    var h := WithBearer(headers, items);
    if server.first == Err(Some(401)) && !retry && !RefreshFails(items, server) {
      var d := DataOf(server.refresh.body).value;
      var token := Json.ItemText(Json.Property(d, "accessToken"));
      var items' := items[Storage.AccessTokenKey := token];
      var headers' := WithBearer(h["Authorization" := "Bearer " + token], items');
      if server.replay.Err? {
        RetriedPassesOn(items', headers', server.replay.status, server);
      }
    }
  }

  /** A successful refresh writes only the access token (the refresh token is
      not rotated) and replays the request with the new token in its
      `Authorization` header; the replay's own outcome is the call's. */
  lemma SuccessfulRefresh(items: map<string, string>, headers: map<string, string>, server: Server)
    requires server.first == Err(Some(401))
    requires !RefreshFails(items, server)
    ensures var token := Json.ItemText(Json.Property(DataOf(server.refresh.body).value, "accessToken"));
      var r := Dispatch(items, headers, false, server);
      && r.items == items[Storage.AccessTokenKey := token]
      && r.items[Storage.RefreshTokenKey] == items[Storage.RefreshTokenKey]
      && |r.calls| == 3
      && r.calls[1] == RefreshPost(BaseUrl + RefreshPath, items[Storage.RefreshTokenKey])
      && r.calls[2].Send?
      && r.calls[2].headers["Authorization"] == "Bearer " + token
      && r.location == None
      && r.settled == (if server.replay.Ok? then Resolved(server.replay.body)
                       else Rejected(Original(server.replay.status)))
  {
    var h := WithBearer(headers, items);
    var token := Json.ItemText(Json.Property(DataOf(server.refresh.body).value, "accessToken"));
    var items' := items[Storage.AccessTokenKey := token];
    var headers' := WithBearer(h["Authorization" := "Bearer " + token], items');
    assert "Authorization" in headers' && headers'["Authorization"] == "Bearer " + token;
    if server.replay.Err? {
      RetriedPassesOn(items', headers', server.replay.status, server);
    }
  }

  /** No call through the client reads or writes a key outside the session
      keys: `mediro-token`, `mediro-user` and `mediro-profile` are untouched. */
  lemma OtherKeysUntouched(items: map<string, string>, headers: map<string, string>, retry: bool,
                           server: Server, k: string)
    requires k !in Storage.SessionKeys
    ensures k in Dispatch(items, headers, retry, server).items <==> k in items
    ensures k in items ==> Dispatch(items, headers, retry, server).items[k] == items[k]
  {
    var h := WithBearer(headers, items);
    if server.first == Err(Some(401)) && !retry && !RefreshFails(items, server) {
      var d := DataOf(server.refresh.body).value;
      var token := Json.ItemText(Json.Property(d, "accessToken"));
      var items' := items[Storage.AccessTokenKey := token];
      var headers' := WithBearer(h["Authorization" := "Bearer " + token], items');
      if server.replay.Err? {
        RetriedPassesOn(items', headers', server.replay.status, server);
      }
    }
  }

  /** Whatever the call did to the session keys, the rest of the store is as
      it was: with the session keys removed, the store after the call is the
      store before it with the session keys removed. */
  lemma OutsideSessionUntouched(items: map<string, string>, headers: map<string, string>, retry: bool,
                                server: Server)
    ensures Dispatch(items, headers, retry, server).items - Storage.SessionKeys == items - Storage.SessionKeys
  {
    var after := Dispatch(items, headers, retry, server).items;
    forall k | k !in Storage.SessionKeys
      ensures (k in after <==> k in items) && (k in items ==> after[k] == items[k])
    {
      OtherKeysUntouched(items, headers, retry, server, k);
    }
  }
}
