/**
 * The authentication service of src/services/auth.service.ts. Every call but logout goes
 * through the shared client (ApiClient.Request), so a 401 on any of them can refresh or
 * clear the token pair before the service sees the answer. What the service adds is its
 * own write of the returned pair after login, register and refresh, and logout's removal.
 * `serve` is the backend (the request that left the browser to its outcome) and
 * `refreshCall` the refresh endpoint.
 */
module AuthService {
  import opened Wrappers
  import opened Http
  import opened TokenStore
  import ApiClient

  const LoginPath: string := "/auth/login"
  const RegisterPath: string := "/auth/register"
  const RefreshTokenPath: string := "/auth/refresh-token"
  const RequestPasswordResetPath: string := "/auth/request-password-reset"
  const ResetPasswordPath: string := "/auth/reset-password"
  const ChangePasswordPath: string := "/auth/change-password"

  /** The `user` object of an authentication answer; `_id` may be missing in a malformed one. */
  datatype UserInfo = UserInfo(id: Option<string>, email: string)

  /** The body of a login, register or refresh answer. The service does not inspect it. */
  datatype AuthResponse = AuthResponse(user: Option<UserInfo>, accessToken: string, refreshToken: Option<string>)

  /** The body of a password operation's answer. */
  datatype MessageResponse = MessageResponse(message: string)

  datatype LoginRequest = LoginRequest(email: string, password: string)
  datatype RegisterRequest = RegisterRequest(email: string, password: string, firstName: string, lastName: string)

  function LoginCall(data: LoginRequest): ApiCall
  {
    ApiCall(Post, LoginPath, Fields([("email", data.email), ("password", data.password)]))
  }

  function RegisterCall(data: RegisterRequest): ApiCall
  {
    ApiCall(Post, RegisterPath,
      Fields([("email", data.email), ("password", data.password),
              ("firstName", data.firstName), ("lastName", data.lastName)]))
  }

  /** The service's own write once the shared client has answered `answer`, applied to the
      jar as the client left it: the returned pair stored on success, nothing more on
      failure. */
  function AfterAuthCall(jar: Jar, answer: HttpResult<AuthResponse>): (r: Jar)
    ensures answer.Fail? ==> r == jar
    ensures answer.Ok? ==>
      Lookup(r, AccessTokenKey) == Some(answer.value.accessToken) &&
      Lookup(r, RefreshTokenKey) ==
        (if Truthy(answer.value.refreshToken) then answer.value.refreshToken
         else Lookup(jar, RefreshTokenKey))
  {
    match answer
    case Ok(data) => WithTokens(jar, data.accessToken, data.refreshToken)
    case Fail(_) => jar
  }

  /** Store the pair an authentication call returned, whatever else its body holds, and hand
      the body back; a rejected call reaches the caller before any token is written. */
  method StoreReturnedTokens(store: CookieStore, answer: HttpResult<AuthResponse>)
    returns (r: HttpResult<AuthResponse>)
    modifies store
    ensures r == answer
    ensures store.jar == AfterAuthCall(old(store.jar), answer)
  {
    match answer {
      case Ok(data) => store.SetTokens(data.accessToken, data.refreshToken);
      case Fail(_) =>
    }
    r := answer;
  }

  /** `login(data)`: POST the credentials to `/auth/login` through the shared client, then
      store the returned pair; a rejection leaves the jar as the client left it. */
  method Login(store: CookieStore, apiUrl: string, serve: Outbound -> HttpResult<AuthResponse>,
               refreshCall: Outbound -> HttpResult<ApiClient.TokenResponse>, data: LoginRequest)
    returns (r: HttpResult<AuthResponse>)
    modifies store
    ensures r == ApiClient.ApiExchange(old(store.jar), apiUrl, LoginCall(data), serve, refreshCall).result
    ensures store.jar == AfterAuthCall(ApiClient.ApiExchange(old(store.jar), apiUrl, LoginCall(data), serve, refreshCall).jar, r)
  {
    var answer := ApiClient.Request(store, apiUrl, LoginCall(data), serve, refreshCall);
    r := StoreReturnedTokens(store, answer);
  }

  /** `register(data)`: POST the registration fields to `/auth/register` through the shared
      client, then store the returned pair. */
  method Register(store: CookieStore, apiUrl: string, serve: Outbound -> HttpResult<AuthResponse>,
                  refreshCall: Outbound -> HttpResult<ApiClient.TokenResponse>, data: RegisterRequest)
    returns (r: HttpResult<AuthResponse>)
    modifies store
    ensures r == ApiClient.ApiExchange(old(store.jar), apiUrl, RegisterCall(data), serve, refreshCall).result
    ensures store.jar == AfterAuthCall(ApiClient.ApiExchange(old(store.jar), apiUrl, RegisterCall(data), serve, refreshCall).jar, r)
  {
    var answer := ApiClient.Request(store, apiUrl, RegisterCall(data), serve, refreshCall);
    r := StoreReturnedTokens(store, answer);
  }

  function RefreshTokenCall(refreshToken: string): ApiCall
  {
    ApiCall(Post, RefreshTokenPath, Fields([("refreshToken", refreshToken)]))
  }

  /** `refreshToken(data)`: POST the refresh token to `/auth/refresh-token` through the
      shared client, then store the returned pair. */
  method RefreshToken(store: CookieStore, apiUrl: string, serve: Outbound -> HttpResult<AuthResponse>,
                      refreshCall: Outbound -> HttpResult<ApiClient.TokenResponse>, refreshToken: string)
    returns (r: HttpResult<AuthResponse>)
    modifies store
    ensures r == ApiClient.ApiExchange(old(store.jar), apiUrl, RefreshTokenCall(refreshToken), serve, refreshCall).result
    ensures store.jar ==
      AfterAuthCall(ApiClient.ApiExchange(old(store.jar), apiUrl, RefreshTokenCall(refreshToken), serve, refreshCall).jar, r)
  {
    var answer := ApiClient.Request(store, apiUrl, RefreshTokenCall(refreshToken), serve, refreshCall);
    r := StoreReturnedTokens(store, answer);
  }

  /** `logout()`: no network call; both tokens removed. It cannot fail. */
  method Logout(store: CookieStore)
    modifies store
    ensures store.jar == WithoutTokens(old(store.jar))
  {
    store.RemoveTokens();
  }

  function RequestPasswordResetCall(email: string): ApiCall
  {
    ApiCall(Post, RequestPasswordResetPath, Fields([("email", email)]))
  }

  function ResetPasswordCall(token: string, newPassword: string): ApiCall
  {
    ApiCall(Post, ResetPasswordPath, Fields([("token", token), ("newPassword", newPassword)]))
  }

  function ChangePasswordCall(currentPassword: string, newPassword: string): ApiCall
  {
    ApiCall(Post, ChangePasswordPath, Fields([("currentPassword", currentPassword), ("newPassword", newPassword)]))
  }

  /** `requestPasswordReset(data)`: the shared client's answer to a POST of `{email}` to
      `/auth/request-password-reset`. The service writes no token; the jar changes only as
      the client's 401 refresh changes it (ApiClient.OnlyRefreshWritesTokens). */
  method RequestPasswordReset(store: CookieStore, apiUrl: string, serve: Outbound -> HttpResult<MessageResponse>,
                              refreshCall: Outbound -> HttpResult<ApiClient.TokenResponse>, email: string)
    returns (r: HttpResult<MessageResponse>)
    modifies store
    ensures r == ApiClient.ApiExchange(old(store.jar), apiUrl, RequestPasswordResetCall(email), serve, refreshCall).result
    ensures store.jar == ApiClient.ApiExchange(old(store.jar), apiUrl, RequestPasswordResetCall(email), serve, refreshCall).jar
  {
    r := ApiClient.Request(store, apiUrl, RequestPasswordResetCall(email), serve, refreshCall);
  }

  /** `resetPassword(data)`: the shared client's answer to a POST of `{token, newPassword}`
      to `/auth/reset-password`; the service writes no token. */
  method ResetPassword(store: CookieStore, apiUrl: string, serve: Outbound -> HttpResult<MessageResponse>,
                       refreshCall: Outbound -> HttpResult<ApiClient.TokenResponse>, token: string, newPassword: string)
    returns (r: HttpResult<MessageResponse>)
    modifies store
    ensures r == ApiClient.ApiExchange(old(store.jar), apiUrl, ResetPasswordCall(token, newPassword), serve, refreshCall).result
    ensures store.jar == ApiClient.ApiExchange(old(store.jar), apiUrl, ResetPasswordCall(token, newPassword), serve, refreshCall).jar
  {
    r := ApiClient.Request(store, apiUrl, ResetPasswordCall(token, newPassword), serve, refreshCall);
  }

  /** `changePassword(data)`: the shared client's answer to a POST of
      `{currentPassword, newPassword}` to `/auth/change-password`; the service writes no
      token. */
  method ChangePassword(store: CookieStore, apiUrl: string, serve: Outbound -> HttpResult<MessageResponse>,
                        refreshCall: Outbound -> HttpResult<ApiClient.TokenResponse>,
                        currentPassword: string, newPassword: string)
    returns (r: HttpResult<MessageResponse>)
    modifies store
    ensures r == ApiClient.ApiExchange(old(store.jar), apiUrl, ChangePasswordCall(currentPassword, newPassword),
                                       serve, refreshCall).result
    ensures store.jar == ApiClient.ApiExchange(old(store.jar), apiUrl, ChangePasswordCall(currentPassword, newPassword),
                                               serve, refreshCall).jar
  {
    r := ApiClient.Request(store, apiUrl, ChangePasswordCall(currentPassword, newPassword), serve, refreshCall);
  }

  /** When the first answer is not a 401 the client can refresh on (a success, any other
      failure, or no refresh token stored), an authentication call affects the jar only by
      the service's own write: the returned pair on success, nothing on failure. */
  lemma AuthCallWithoutRefresh(jar: Jar, apiUrl: string, call: ApiCall, serve: Outbound -> HttpResult<AuthResponse>,
                               refreshCall: Outbound -> HttpResult<ApiClient.TokenResponse>)
    requires var first := ApiClient.Authorized(ApiClient.ApiRequest(apiUrl, call), Lookup(jar, AccessTokenKey));
      serve(first).Ok? || !ApiClient.ShouldRefresh(serve(first).failure, false, Lookup(jar, RefreshTokenKey))
    ensures var e := ApiClient.ApiExchange(jar, apiUrl, call, serve, refreshCall);
      var first := ApiClient.Authorized(ApiClient.ApiRequest(apiUrl, call), Lookup(jar, AccessTokenKey));
      e.result == serve(first) && AfterAuthCall(e.jar, e.result) == AfterAuthCall(jar, serve(first))
  {
  }

  /** A rejected login (say, a wrong password answered with 401) while a refresh cookie is
      stored still rotates the tokens: the client refreshes, stores the new pair, resends the
      login, and the caller sees the resend's 401 with the refreshed pair in the jar. */
  lemma RejectedLoginRotatesTokens(jar: Jar, apiUrl: string, data: LoginRequest, denied: Failure,
                                   serve: Outbound -> HttpResult<AuthResponse>,
                                   tokens: ApiClient.TokenResponse,
                                   refreshCall: Outbound -> HttpResult<ApiClient.TokenResponse>)
    requires Truthy(Lookup(jar, RefreshTokenKey)) && HasStatus(denied, ApiClient.Unauthorized)
    requires forall o :: serve(o) == Fail(denied)
    requires forall o :: refreshCall(o) == Ok(tokens)
    ensures var e := ApiClient.ApiExchange(jar, apiUrl, LoginCall(data), serve, refreshCall);
      e.result == Fail(denied) &&
      AfterAuthCall(e.jar, e.result) == WithTokens(jar, tokens.accessToken, tokens.refreshToken)
  {
    var e := ApiClient.ApiExchange(jar, apiUrl, LoginCall(data), serve, refreshCall);
    assert serve(e.sent[0]) == Fail(denied);
    assert refreshCall(e.sent[1]) == Ok(tokens);
  }

  /** A rejected login whose refresh fails logs the stored session out: both tokens are gone
      and the caller sees the refresh failure. */
  lemma RejectedLoginFailedRefreshLogsOut(jar: Jar, apiUrl: string, data: LoginRequest, denied: Failure,
                                          serve: Outbound -> HttpResult<AuthResponse>, refreshError: Failure,
                                          refreshCall: Outbound -> HttpResult<ApiClient.TokenResponse>)
    requires Truthy(Lookup(jar, RefreshTokenKey)) && HasStatus(denied, ApiClient.Unauthorized)
    requires forall o :: serve(o) == Fail(denied)
    requires forall o :: refreshCall(o) == Fail(refreshError)
    ensures var e := ApiClient.ApiExchange(jar, apiUrl, LoginCall(data), serve, refreshCall);
      e.result == Fail(refreshError) && AfterAuthCall(e.jar, e.result) == WithoutTokens(jar)
  {
    var e := ApiClient.ApiExchange(jar, apiUrl, LoginCall(data), serve, refreshCall);
    assert serve(e.sent[0]) == Fail(denied);
    assert refreshCall(e.sent[1]) == Fail(refreshError);
  }

  /** A logout erases whatever the service stored after an authentication answer. */
  lemma LogoutErasesAuthCall(jar: Jar, answer: HttpResult<AuthResponse>)
    ensures WithoutTokens(AfterAuthCall(jar, answer)) == WithoutTokens(jar)
  {
  }

  /** Logging in through the shared client, whatever its 401 refresh did, and then out
      leaves the jar as a logout alone would: no token survives. */
  lemma LoginThenLogout(jar: Jar, apiUrl: string, data: LoginRequest,
                        serve: Outbound -> HttpResult<AuthResponse>,
                        refreshCall: Outbound -> HttpResult<ApiClient.TokenResponse>)
    ensures var e := ApiClient.ApiExchange(jar, apiUrl, LoginCall(data), serve, refreshCall);
      WithoutTokens(AfterAuthCall(e.jar, e.result)) == WithoutTokens(jar)
  {
    var e := ApiClient.ApiExchange(jar, apiUrl, LoginCall(data), serve, refreshCall);
    ApiClient.OnlyRefreshWritesTokens(jar, false, ApiClient.ApiRequest(apiUrl, LoginCall(data)), apiUrl, serve, refreshCall);
    LogoutErasesAuthCall(e.jar, e.result);
    if e.jar == WithoutTokens(jar) {
      RemoveIdempotent(jar);
    } else if e.jar != jar {
      var tokens := refreshCall(e.sent[1]).value;
      RemoveAfterSet(jar, tokens.accessToken, tokens.refreshToken);
    }
  }
}
