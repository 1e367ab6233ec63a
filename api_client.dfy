/**
 * The shared HTTP client of src/services/api.ts: a request interceptor that attaches the
 * stored access token as a bearer credential, and a response interceptor that answers a
 * 401 by refreshing the token pair once per request and resending the request.
 *
 * The network is a parameter: `serve` is the backend as seen through a plain request (it
 * maps the request that left the browser to what came back), `refreshCall` the same for the
 * refresh endpoint.
 */
module ApiClient {
  import opened Wrappers
  import opened Http
  import opened TokenStore

  const AuthorizationHeader: string := "Authorization"
  const BearerPrefix: string := "Bearer "
  const RefreshPath: string := "/auth/refresh-token"
  const Unauthorized: int := 401

  /** The headers the shared client is created with. */
  const DefaultHeaders: map<string, string> := map["Content-Type" := "application/json"]

  /** A response that reached the caller: its status and body. */
  datatype Response = Response(status: int, data: Payload)

  /** The body of the refresh endpoint's answer. */
  datatype TokenResponse = TokenResponse(accessToken: string, refreshToken: Option<string>)

  /** One call through the shared client, as seen from outside: what the caller receives,
      the cookie jar afterwards, and the requests that left the browser, in order. */
  datatype Exchange<T> = Exchange(result: HttpResult<T>, jar: Jar, sent: seq<Outbound>)

  /** The request configuration object that travels through the interceptors and that the
      error interceptor marks and rewrites in place. */
  class RequestConfig {
    var verb: Verb
    var url: string
    var headers: map<string, string>
    var body: Payload
    /** The `_retry` mark; an unset mark reads as false. */
    var retry: bool

    constructor (verb: Verb, url: string, headers: map<string, string>, body: Payload)
      ensures this.verb == verb && this.url == url && this.headers == headers && this.body == body
      ensures !retry
    {
      this.verb, this.url, this.headers, this.body := verb, url, headers, body;
      retry := false;
    }

    /** The request this configuration puts on the wire. */
    function Wire(): Outbound
      reads this
    {
      Outbound(verb, url, headers, body)
    }
  }

  /** The headers after the request interceptor: `Authorization` set to the bearer
      credential when a non-empty access token is stored; otherwise untouched. */
  function WithBearer(headers: map<string, string>, token: Option<string>): (r: map<string, string>)
    ensures Truthy(token) ==>
      AuthorizationHeader in r && r[AuthorizationHeader] == BearerPrefix + token.value
    ensures !Truthy(token) ==> r == headers
    ensures forall k :: k != AuthorizationHeader ==>
      (k in r <==> k in headers) && (k in r ==> r[k] == headers[k])
  {
    if Truthy(token) then headers[AuthorizationHeader := BearerPrefix + token.value] else headers
  }

  /** The request interceptor. */
  method AttachBearer(store: CookieStore, config: RequestConfig)
    modifies config`headers
    ensures config.headers == WithBearer(old(config.headers), store.AccessToken())
  {
    var token := store.AccessToken();
    if token.Some? && token.value != "" {
      config.headers := config.headers[AuthorizationHeader := BearerPrefix + token.value];
    }
  }

  /** The three conditions under which the error interceptor tries a refresh: the server
      answered 401, the request was not retried before, and a refresh token is stored. */
  predicate ShouldRefresh(f: Failure, retried: bool, refreshToken: Option<string>)
    ensures ShouldRefresh(f, retried, refreshToken) <==>
      f.response.Some? && f.response.value.status == 401 && !retried &&
      refreshToken.Some? && refreshToken.value != ""
  {
    HasStatus(f, Unauthorized) && !retried && Truthy(refreshToken)
  }

  /** The refresh call: a POST of `{refreshToken}` straight to the refresh endpoint, with no
      interceptor (so no bearer header) on the way. */
  function RefreshRequest(apiUrl: string, refreshToken: string): (r: Outbound)
    ensures r.verb == Post && r.url == apiUrl + RefreshPath && AuthorizationHeader !in r.headers
    ensures r.body == Fields([("refreshToken", refreshToken)])
  {
    Outbound(Post, apiUrl + RefreshPath, map[], Fields([("refreshToken", refreshToken)]))
  }

  /**
   * The response-error interceptor, for a request that failed with `f`. It returns what the
   * caller sees and the requests it sent, in order.
   *  - Unless ShouldRefresh holds, it rejects with `f` and changes nothing.
   *  - Otherwise it marks the request as retried and posts the refresh request.
   *  - If the refresh fails, both tokens are removed and the caller sees the refresh failure.
   *  - If it succeeds, the new pair is stored (a missing refresh token keeps the old one), the
   *    request's bearer header is rewritten and the request is resent as it is, with no
   *    interceptor: whatever that resend gives, failure included, is what the caller sees,
   *    and the tokens are not cleared on its failure.
   */
  method OnResponseError<T>(store: CookieStore, config: RequestConfig, f: Failure, apiUrl: string,
                            serve: Outbound -> HttpResult<T>,
                            refreshCall: Outbound -> HttpResult<TokenResponse>)
    returns (result: HttpResult<T>, sent: seq<Outbound>)
    modifies store, config`retry, config`headers
    ensures !ShouldRefresh(f, old(config.retry), old(store.RefreshToken())) ==>
      && result == Fail(f) && sent == []
      && store.jar == old(store.jar)
      && config.retry == old(config.retry) && config.headers == old(config.headers)
    ensures ShouldRefresh(f, old(config.retry), old(store.RefreshToken())) ==>
      && config.retry
      && 1 <= |sent| <= 2
      && sent[0] == RefreshRequest(apiUrl, old(store.RefreshToken()).value)
    ensures ShouldRefresh(f, old(config.retry), old(store.RefreshToken())) &&
            refreshCall(sent[0]).Fail? ==>
      && result == Fail(refreshCall(sent[0]).failure)
      && |sent| == 1
      && store.jar == WithoutTokens(old(store.jar))
      && config.headers == old(config.headers)
    ensures ShouldRefresh(f, old(config.retry), old(store.RefreshToken())) &&
            refreshCall(sent[0]).Ok? ==>
      var tokens := refreshCall(sent[0]).value;
      && store.jar == WithTokens(old(store.jar), tokens.accessToken, tokens.refreshToken)
      && config.headers == old(config.headers)[AuthorizationHeader := BearerPrefix + tokens.accessToken]
      && |sent| == 2 && sent[1] == config.Wire()
      && result == serve(sent[1])
  {
    if HasStatus(f, Unauthorized) && !config.retry && Truthy(store.RefreshToken()) {
      config.retry := true;
      // The token is read again; nothing has run since the test above, so it is still there
      // and the "no refresh token" rejection cannot happen.
      var refreshToken := store.RefreshToken();
      assert Truthy(refreshToken);
      var request := RefreshRequest(apiUrl, refreshToken.value);
      sent := [request];
      var refreshed := refreshCall(request);
      match refreshed {
        case Ok(tokens) =>
          store.SetTokens(tokens.accessToken, tokens.refreshToken);
          config.headers := config.headers[AuthorizationHeader := BearerPrefix + tokens.accessToken];
          var retried := config.Wire();
          sent := sent + [retried];
          result := serve(retried);
        case Fail(refreshError) =>
          store.RemoveTokens();
          result := Fail(refreshError);
      }
    } else {
      result, sent := Fail(f), [];
    }
  }

  /** The request as the request interceptor hands it on, with the stored access token. */
  function Authorized(request: Outbound, token: Option<string>): (r: Outbound)
    ensures r.verb == request.verb && r.url == request.url && r.body == request.body
    ensures r.headers == WithBearer(request.headers, token)
  {
    request.(headers := WithBearer(request.headers, token))
  }

  /** The request resent after a refresh: the same request with the new bearer credential. */
  function Resent(first: Outbound, accessToken: string): (r: Outbound)
    ensures r.verb == first.verb && r.url == first.url && r.body == first.body
    ensures AuthorizationHeader in r.headers && r.headers[AuthorizationHeader] == BearerPrefix + accessToken
    ensures forall k :: k in first.headers && k != AuthorizationHeader ==> k in r.headers && r.headers[k] == first.headers[k]
  {
    first.(headers := first.headers[AuthorizationHeader := BearerPrefix + accessToken])
  }

  /**
   * The whole of one call through the shared client, for a request whose `_retry` mark is
   * `retried`, starting from `jar`:
   *  - the request leaves with the bearer credential of the stored access token;
   *  - a success reaches the caller untouched, and so does a failure for which no refresh is
   *    attempted; the jar is not touched in either case;
   *  - otherwise the refresh request follows; if it fails, both tokens are removed and the
   *    caller sees the refresh failure; if it succeeds, the new pair is stored and the
   *    request is resent once with the new credential, and whatever that gives is what the
   *    caller sees.
   */
  function ClientCall<T>(jar: Jar, retried: bool, request: Outbound, apiUrl: string,
                         serve: Outbound -> HttpResult<T>,
                         refreshCall: Outbound -> HttpResult<TokenResponse>): (e: Exchange<T>)
    ensures |e.sent| >= 1 && e.sent[0] == Authorized(request, Lookup(jar, AccessTokenKey))
    ensures serve(e.sent[0]).Ok? ==>
      e.result == serve(e.sent[0]) && e.jar == jar && |e.sent| == 1
    ensures serve(e.sent[0]).Fail? &&
            !ShouldRefresh(serve(e.sent[0]).failure, retried, Lookup(jar, RefreshTokenKey)) ==>
      e.result == serve(e.sent[0]) && e.jar == jar && |e.sent| == 1
    ensures serve(e.sent[0]).Fail? &&
            ShouldRefresh(serve(e.sent[0]).failure, retried, Lookup(jar, RefreshTokenKey)) ==>
      && 2 <= |e.sent| <= 3
      && e.sent[1] == RefreshRequest(apiUrl, Lookup(jar, RefreshTokenKey).value)
      && (refreshCall(e.sent[1]).Fail? ==>
            e.result == Fail(refreshCall(e.sent[1]).failure) && e.jar == WithoutTokens(jar) && |e.sent| == 2)
      && (refreshCall(e.sent[1]).Ok? ==>
            && |e.sent| == 3
            && e.sent[2] == Resent(e.sent[0], refreshCall(e.sent[1]).value.accessToken)
            && e.result == serve(e.sent[2])
            && e.jar == WithTokens(jar, refreshCall(e.sent[1]).value.accessToken,
                                   refreshCall(e.sent[1]).value.refreshToken))
  {
    var first := Authorized(request, Lookup(jar, AccessTokenKey));
    match serve(first)
    case Ok(_) => Exchange(serve(first), jar, [first])
    case Fail(f) =>
      var refreshToken := Lookup(jar, RefreshTokenKey);
      if !ShouldRefresh(f, retried, refreshToken) then Exchange(Fail(f), jar, [first])
      else
        var refresh := RefreshRequest(apiUrl, refreshToken.value);
        match refreshCall(refresh)
        case Fail(g) => Exchange(Fail(g), WithoutTokens(jar), [first, refresh])
        case Ok(tokens) =>
          var again := Resent(first, tokens.accessToken);
          Exchange(serve(again), WithTokens(jar, tokens.accessToken, tokens.refreshToken), [first, refresh, again])
  }

  /** The client writes the token store only through a refresh: when the jar changed, the
      refresh request was sent, and the jar is then either emptied of both tokens or holds
      the refreshed pair. */
  lemma OnlyRefreshWritesTokens<T>(jar: Jar, retried: bool, request: Outbound, apiUrl: string,
                                   serve: Outbound -> HttpResult<T>,
                                   refreshCall: Outbound -> HttpResult<TokenResponse>)
    ensures var e := ClientCall(jar, retried, request, apiUrl, serve, refreshCall);
      e.jar != jar ==>
        && |e.sent| >= 2 && Truthy(Lookup(jar, RefreshTokenKey)) && !retried
        && e.sent[1] == RefreshRequest(apiUrl, Lookup(jar, RefreshTokenKey).value)
        && (e.jar == WithoutTokens(jar) ||
            (refreshCall(e.sent[1]).Ok? &&
             e.jar == WithTokens(jar, refreshCall(e.sent[1]).value.accessToken,
                                 refreshCall(e.sent[1]).value.refreshToken)))
  {
  }

  /**
   * One call through the shared client on a request configuration: the request
   * interceptor, the request, and (on a failure) the error interceptor. It behaves as
   * ClientCall says, and leaves the configuration marked when a refresh was attempted and
   * carrying the headers of the last form of the request it sent.
   */
  method Send<T>(store: CookieStore, config: RequestConfig, apiUrl: string,
                 serve: Outbound -> HttpResult<T>,
                 refreshCall: Outbound -> HttpResult<TokenResponse>)
    returns (result: HttpResult<T>, sent: seq<Outbound>)
    modifies store, config`retry, config`headers
    ensures Exchange(result, store.jar, sent) ==
      ClientCall(old(store.jar), old(config.retry), old(config.Wire()), apiUrl, serve, refreshCall)
    ensures config.retry == (old(config.retry) || |sent| > 1)
    ensures config.headers == (if |sent| == 3 then sent[2].headers else sent[0].headers)
  {
    AttachBearer(store, config);
    var first := config.Wire();
    var answer := serve(first);
    match answer {
      case Ok(_) =>
        result, sent := answer, [first];
      case Fail(f) =>
        var more;
        result, more := OnResponseError(store, config, f, apiUrl, serve, refreshCall);
        sent := [first] + more;
    }
  }

  /** The request `api` builds for a call: the base URL joined with the path, the default
      headers and the body. */
  function ApiRequest(apiUrl: string, call: ApiCall): (r: Outbound)
    ensures r.verb == call.verb && r.url == apiUrl + call.path && r.body == call.body
    ensures AuthorizationHeader !in r.headers
  {
    Outbound(call.verb, apiUrl + call.path, DefaultHeaders, call.body)
  }

  /** What a call through `api` does, on the fresh, unmarked configuration axios builds for it. */
  function ApiExchange<T>(jar: Jar, apiUrl: string, call: ApiCall, serve: Outbound -> HttpResult<T>,
                          refreshCall: Outbound -> HttpResult<TokenResponse>): Exchange<T>
  {
    ClientCall(jar, false, ApiRequest(apiUrl, call), apiUrl, serve, refreshCall)
  }

  /** `api.post(path, body)` and its kin: a fresh configuration sent through the client. */
  method Request<T>(store: CookieStore, apiUrl: string, call: ApiCall,
                    serve: Outbound -> HttpResult<T>,
                    refreshCall: Outbound -> HttpResult<TokenResponse>)
    returns (r: HttpResult<T>)
    modifies store
    ensures r == ApiExchange(old(store.jar), apiUrl, call, serve, refreshCall).result
    ensures store.jar == ApiExchange(old(store.jar), apiUrl, call, serve, refreshCall).jar
  {
    var config := new RequestConfig(call.verb, apiUrl + call.path, DefaultHeaders, call.body);
    var sent;
    r, sent := Send(store, config, apiUrl, serve, refreshCall);
  }

  // ---------------------------------------------------------------------------------
  // Clients of the pipeline: what a caller can conclude from the contracts alone.

  /** A request whose access token went stale: it is refreshed and resent once with the new
      bearer credential, and the caller sees the resent request's success. The refresh
      answer carried no refresh token, so the stored one is kept. */
  method StaleTokenIsRefreshedOnce(apiUrl: string, url: string, staleAccess: string,
                                   refreshToken: string, freshAccess: string,
                                   ok: Response, denied: Failure)
    returns (result: HttpResult<Response>, sent: seq<Outbound>, store: CookieStore)
    requires staleAccess != "" && refreshToken != "" && freshAccess != staleAccess
    requires HasStatus(denied, Unauthorized)
    ensures result == Ok(ok)
    ensures |sent| == 3 && sent[1] == RefreshRequest(apiUrl, refreshToken)
    ensures AuthorizationHeader in sent[0].headers && sent[0].headers[AuthorizationHeader] == BearerPrefix + staleAccess
    ensures AuthorizationHeader in sent[2].headers && sent[2].headers[AuthorizationHeader] == BearerPrefix + freshAccess
    ensures store.AccessToken() == Some(freshAccess) && store.RefreshToken() == Some(refreshToken)
  {
    store := new CookieStore(map[]);
    store.SetTokens(staleAccess, Some(refreshToken));
    var config := new RequestConfig(Get, url, map[], NoPayload);
    var serve := (o: Outbound) =>
      if AuthorizationHeader in o.headers && o.headers[AuthorizationHeader] == BearerPrefix + freshAccess
      then Ok(ok) else Fail(denied);
    var refreshCall := (o: Outbound) => Ok(TokenResponse(freshAccess, None));
    result, sent := Send(store, config, apiUrl, serve, refreshCall);
    assert BearerPrefix + staleAccess != BearerPrefix + freshAccess by {
      assert (BearerPrefix + staleAccess)[|BearerPrefix|..] == staleAccess;
      assert (BearerPrefix + freshAccess)[|BearerPrefix|..] == freshAccess;
    }
  }

  /** A 401 whose refresh also fails: both tokens are gone and the caller sees the refresh
      failure, not the 401. */
  method FailedRefreshLogsOut(apiUrl: string, url: string, access: string, refreshToken: string,
                              denied: Failure, refreshError: Failure)
    returns (result: HttpResult<Response>, store: CookieStore)
    requires refreshToken != ""
    requires HasStatus(denied, Unauthorized)
    ensures result == Fail(refreshError)
    ensures store.AccessToken() == None && store.RefreshToken() == None
  {
    store := new CookieStore(map[]);
    store.SetTokens(access, Some(refreshToken));
    var config := new RequestConfig(Get, url, map[], NoPayload);
    var serve := (o: Outbound) => Fail(denied);
    var refreshCall := (o: Outbound) => Fail(refreshError);
    var sent;
    result, sent := Send(store, config, apiUrl, serve, refreshCall);
  }

  /** A backend that answers 401 to everything: one refresh, then the resent request's 401
      reaches the caller (the resend bypasses the interceptors, so there is no second
      refresh), with the refreshed tokens still stored and the request marked. */
  method PersistentUnauthorizedStops(apiUrl: string, url: string, access: string, refreshToken: string,
                                     freshAccess: string, denied: Failure)
    returns (result: HttpResult<Response>, sent: seq<Outbound>, store: CookieStore, marked: bool)
    requires refreshToken != "" && freshAccess != ""
    requires HasStatus(denied, Unauthorized)
    ensures result == Fail(denied) && marked
    ensures |sent| == 3 && sent[1] == RefreshRequest(apiUrl, refreshToken)
    ensures store.AccessToken() == Some(freshAccess) && store.RefreshToken() == Some(refreshToken)
  {
    store := new CookieStore(map[]);
    store.SetTokens(access, Some(refreshToken));
    var config := new RequestConfig(Get, url, map[], NoPayload);
    var serve := (o: Outbound) => Fail(denied);
    var refreshCall := (o: Outbound) => Ok(TokenResponse(freshAccess, None));
    result, sent := Send(store, config, apiUrl, serve, refreshCall);
    marked := config.retry;
  }
}
