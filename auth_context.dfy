/**
 * The session state of src/contexts/AuthContext.tsx: the provider's `user`, `loading` and
 * `error` state, the transitions that update it, and the navigations it triggers (recorded
 * in order instead of being performed).
 */
module AuthContext {
  import opened Wrappers
  import opened Http
  import opened TokenCodec
  import opened TokenStore
  import AuthService
  import ApiClient

  const DashboardRoute: string := "/dashboard"
  const LoginRoute: string := "/auth/login"

  const MalformedResponseMessage: string := "Error en la respuesta del servidor"
  const ServerErrorMessage: string := "Error en el servidor"
  const NoConnectionMessage: string := "No se pudo conectar con el servidor"
  const LoginFallbackMessage: string := "Error al iniciar sesión"
  const RegisterFallbackMessage: string := "Error al registrarse"

  /** The signed-in identity. */
  datatype User = User(id: string, email: string)

  /**
   * The message shown for a failed login or register, in priority order: when the server
   * answered, its non-empty `message`, else the generic server error; else, when the
   * request left but nothing came back, the connection error; else the failure's own
   * non-empty message, else `fallback`.
   */
  function FailureMessage(f: Failure, fallback: string): (m: string)
    ensures f.response.Some? ==> m == ServerMessageOr(f, ServerErrorMessage)
    ensures f.response.None? && f.requestSent ==> m == NoConnectionMessage
    ensures f.response.None? && !f.requestSent ==> m == (if f.message != "" then f.message else fallback)
  {
    if f.response.Some? then ServerMessageOr(f, ServerErrorMessage)
    else if f.requestSent then NoConnectionMessage
    else if f.message != "" then f.message
    else fallback
  }

  /** Every failure yields a message a user can read: never the empty string. */
  lemma FailureMessageNonEmpty(f: Failure, fallback: string)
    requires fallback != ""
    ensures FailureMessage(f, fallback) != ""
  {
  }

  /** A server answer takes precedence over everything else the failure says. */
  lemma ServerAnswerWins(f: Failure, g: Failure, fallback: string, other: string)
    requires f.response.Some? && f.response == g.response
    ensures FailureMessage(f, fallback) == FailureMessage(g, other)
  {
  }

  /** The user an authentication answer signs in, when it is well formed: it carries a user
      object with a non-empty `_id`. */
  function SignedInUser(answer: AuthService.AuthResponse): (u: Option<User>)
    ensures u.Some? <==> answer.user.Some? && Truthy(answer.user.value.id)
    ensures u.Some? ==> u.value == User(answer.user.value.id.value, answer.user.value.email)
  {
    if answer.user.Some? && Truthy(answer.user.value.id)
    then Some(User(answer.user.value.id.value, answer.user.value.email))
    else None
  }

  /** `AuthProvider`'s state. */
  class AuthProvider {
    var user: Option<User>
    var loading: bool
    var error: Option<string>
    /** The routes pushed to the router, oldest first. */
    var navigations: seq<string>

    /** The state a freshly mounted provider starts in. */
    constructor ()
      ensures user == None && loading && error == None && navigations == []
    {
      user, loading, error, navigations := None, true, None, [];
    }

    /** `isLoggedIn`: a user is present. */
    function IsLoggedIn(): (loggedIn: bool)
      reads this
      ensures loggedIn <==> user != None
    {
      user.Some?
    }

    /**
     * `initAuth` at mount, at time `nowMs`: when the stored access token authenticates and
     * carries a non-empty subject, the user becomes that subject with a blank email (the
     * token does not carry one); otherwise the user stays as it was. Loading ends in every
     * case; nothing in it can throw.
     */
    method InitAuth(store: CookieStore, rt: Runtime, nowMs: int)
      modifies this
      ensures !loading && error == old(error) && navigations == old(navigations)
      ensures IsAuthenticated(store.jar, rt, nowMs) && UserIdFromToken(store.jar, rt).Some? ==>
        user == Some(User(UserIdFromToken(store.jar, rt).value, ""))
      ensures !(IsAuthenticated(store.jar, rt, nowMs) && UserIdFromToken(store.jar, rt).Some?) ==>
        user == old(user)
      ensures old(user).None? && user.Some? ==> IsAuthenticated(store.jar, rt, nowMs) && user.value.id != ""
    {
      if IsAuthenticated(store.jar, rt, nowMs) {
        var userId := UserIdFromToken(store.jar, rt);
        if userId.Some? && userId.value != "" {
          user := Some(User(userId.value, ""));
        }
      }
      loading := false;
    }

    /** The shared second half of `login` and `register`, once the service call settled. */
    method Settle(answer: HttpResult<AuthService.AuthResponse>, fallback: string)
      requires error == None
      modifies this
      ensures !loading
      ensures answer.Ok? && SignedInUser(answer.value).Some? ==>
        user == SignedInUser(answer.value) && error == None &&
        navigations == old(navigations) + [DashboardRoute]
      ensures answer.Ok? && SignedInUser(answer.value).None? ==>
        user == old(user) && error == Some(MalformedResponseMessage) && navigations == old(navigations)
      ensures answer.Fail? ==>
        user == old(user) && error == Some(FailureMessage(answer.failure, fallback)) &&
        navigations == old(navigations)
    {
      match answer {
        case Ok(data) =>
          var signedIn := SignedInUser(data);
          if signedIn.Some? {
            user := signedIn;
            navigations := navigations + [DashboardRoute];
          } else {
            error := Some(MalformedResponseMessage);
          }
        case Fail(f) =>
          error := Some(FailureMessage(f, fallback));
      }
      loading := false;
    }

    /**
     * `login(data)`: loading on and the error cleared, then the service's login (through
     * the shared client, whose 401 refresh may rewrite or clear the tokens, and then the
     * service's store of the returned pair); a well-formed answer signs the user in and goes to the
     * dashboard, a malformed one sets the response error, a failure sets the message chosen
     * by FailureMessage. Loading is off at the end whatever happened.
     */
    method Login(store: CookieStore, apiUrl: string, serve: Outbound -> HttpResult<AuthService.AuthResponse>,
                 refreshCall: Outbound -> HttpResult<ApiClient.TokenResponse>, data: AuthService.LoginRequest)
      modifies this, store
      ensures !loading
      ensures var e := ApiClient.ApiExchange(old(store.jar), apiUrl, AuthService.LoginCall(data), serve, refreshCall);
        store.jar == AuthService.AfterAuthCall(e.jar, e.result)
      ensures var answer := ApiClient.ApiExchange(old(store.jar), apiUrl, AuthService.LoginCall(data), serve, refreshCall).result;
        && (answer.Ok? && SignedInUser(answer.value).Some? ==>
              user == SignedInUser(answer.value) && error == None &&
              navigations == old(navigations) + [DashboardRoute])
        && (answer.Ok? && SignedInUser(answer.value).None? ==>
              user == old(user) && error == Some(MalformedResponseMessage) && navigations == old(navigations))
        && (answer.Fail? ==>
              user == old(user) && error == Some(FailureMessage(answer.failure, LoginFallbackMessage)) &&
              navigations == old(navigations))
    {
      loading := true;
      error := None;
      var answer := AuthService.Login(store, apiUrl, serve, refreshCall, data);
      Settle(answer, LoginFallbackMessage);
    }

    /** `register(data)`: as `login`, with the service's register and its own fallback. */
    method Register(store: CookieStore, apiUrl: string, serve: Outbound -> HttpResult<AuthService.AuthResponse>,
                    refreshCall: Outbound -> HttpResult<ApiClient.TokenResponse>, data: AuthService.RegisterRequest)
      modifies this, store
      ensures !loading
      ensures var e := ApiClient.ApiExchange(old(store.jar), apiUrl, AuthService.RegisterCall(data), serve, refreshCall);
        store.jar == AuthService.AfterAuthCall(e.jar, e.result)
      ensures var answer := ApiClient.ApiExchange(old(store.jar), apiUrl, AuthService.RegisterCall(data), serve, refreshCall).result;
        && (answer.Ok? && SignedInUser(answer.value).Some? ==>
              user == SignedInUser(answer.value) && error == None &&
              navigations == old(navigations) + [DashboardRoute])
        && (answer.Ok? && SignedInUser(answer.value).None? ==>
              user == old(user) && error == Some(MalformedResponseMessage) && navigations == old(navigations))
        && (answer.Fail? ==>
              user == old(user) && error == Some(FailureMessage(answer.failure, RegisterFallbackMessage)) &&
              navigations == old(navigations))
    {
      loading := true;
      error := None;
      var answer := AuthService.Register(store, apiUrl, serve, refreshCall, data);
      Settle(answer, RegisterFallbackMessage);
    }

    /**
     * `logout()`: the service's logout (which cannot fail) removes both tokens; the user is
     * cleared and the login view is pushed; loading ends false; the error is not touched.
     */
    method Logout(store: CookieStore)
      modifies this, store
      ensures user == None && !loading && error == old(error)
      ensures navigations == old(navigations) + [LoginRoute]
      ensures store.jar == WithoutTokens(old(store.jar))
    {
      loading := true;
      AuthService.Logout(store);
      user := None;
      navigations := navigations + [LoginRoute];
      loading := false;
    }

    /** `clearError()`: the error cleared, nothing else changed. */
    method ClearError()
      modifies this`error
      ensures error == None
    {
      error := None;
    }
  }

  // ---------------------------------------------------------------------------------
  // Sessions end to end.

  /** A login whose answer is well formed: the user is the one answered, loading is over,
      no error, the tokens are stored and the dashboard is the one navigation. */
  method SuccessfulLogin(apiUrl: string, serve: Outbound -> HttpResult<AuthService.AuthResponse>,
                         refreshCall: Outbound -> HttpResult<ApiClient.TokenResponse>,
                         data: AuthService.LoginRequest, id: string, email: string,
                         access: string, refresh: string)
    returns (session: AuthProvider, store: CookieStore)
    requires id != ""
    requires serve(ApiClient.ApiRequest(apiUrl, AuthService.LoginCall(data))) ==
      Ok(AuthService.AuthResponse(Some(AuthService.UserInfo(Some(id), email)), access, Some(refresh)))
    ensures session.user == Some(User(id, email)) && session.IsLoggedIn()
    ensures !session.loading && session.error == None && session.navigations == [DashboardRoute]
    ensures store.AccessToken() == Some(access)
    ensures refresh != "" ==> store.RefreshToken() == Some(refresh)
  {
    session := new AuthProvider();
    store := new CookieStore(map[]);
    session.Login(store, apiUrl, serve, refreshCall, data);
  }

  /** A login whose answer lacks the user id: the response error is shown, nobody is signed
      in, and there is no navigation. */
  method MalformedLogin(apiUrl: string, serve: Outbound -> HttpResult<AuthService.AuthResponse>,
                        refreshCall: Outbound -> HttpResult<ApiClient.TokenResponse>,
                        data: AuthService.LoginRequest, email: string, access: string)
    returns (session: AuthProvider)
    requires serve(ApiClient.ApiRequest(apiUrl, AuthService.LoginCall(data))) ==
      Ok(AuthService.AuthResponse(Some(AuthService.UserInfo(None, email)), access, None))
    ensures session.user == None && !session.IsLoggedIn()
    ensures session.error == Some(MalformedResponseMessage) && !session.loading
    ensures session.navigations == []
  {
    session := new AuthProvider();
    var store := new CookieStore(map[]);
    session.Login(store, apiUrl, serve, refreshCall, data);
  }

  /** Logging out a signed-in user: nobody is signed in, both tokens are gone and the login
      view is the last navigation. */
  method LogoutSignedIn(session: AuthProvider, store: CookieStore)
    returns (navigatedTo: string, loggedIn: bool, access: Option<string>, refresh: Option<string>)
    requires session.IsLoggedIn()
    modifies session, store
    ensures navigatedTo == LoginRoute && !loggedIn && access == None && refresh == None
  {
    session.Logout(store);
    navigatedTo := session.navigations[|session.navigations| - 1];
    loggedIn := session.IsLoggedIn();
    access, refresh := store.AccessToken(), store.RefreshToken();
  }
}
