/**
 * The token store of src/utils/token.utils.ts: two cookies, `accessToken` (kept 7 days)
 * and `refreshToken` (kept 30 days), in the browser's cookie jar, which may hold other
 * cookies too. The jar is a map from cookie name to value and retention; `CookieStore`
 * is the object whose methods write it, and the pure functions below say what each write
 * leaves behind.
 */
module TokenStore {
  import opened Wrappers
  import opened TokenCodec

  const AccessTokenKey: string := "accessToken"
  const RefreshTokenKey: string := "refreshToken"
  /** Retention of the access token cookie, in days. */
  const AccessTokenDays: nat := 7
  /** Retention of the refresh token cookie, in days. */
  const RefreshTokenDays: nat := 30

  /** A cookie as it was set: its value and the number of days it was given to live. */
  datatype Cookie = Cookie(value: string, expiresDays: nat)

  type Jar = map<string, Cookie>

  /** What reading a cookie by name returns: its value, or absent. */
  function Lookup(jar: Jar, name: string): (r: Option<string>)
    ensures r.Some? <==> name in jar
    ensures r.Some? ==> r.value == jar[name].value
  {
    if name in jar then Some(jar[name].value) else None
  }

  /** Two jars that agree on every cookie except, perhaps, the named ones. */
  ghost predicate SameExcept(a: Jar, b: Jar, names: set<string>)
  {
    forall k :: k !in names ==> Lookup(a, k) == Lookup(b, k) && (k in a ==> a[k] == b[k])
  }

  /**
   * The jar after `setTokens(access, refresh)`: the access token always stored for 7 days;
   * the refresh token stored for 30 days when it is given and non-empty, and otherwise the
   * refresh cookie already in the jar (or its absence) is left as it was. No other cookie
   * changes.
   */
  function WithTokens(jar: Jar, access: string, refresh: Option<string>): (r: Jar)
    ensures AccessTokenKey in r && r[AccessTokenKey] == Cookie(access, AccessTokenDays)
    ensures Truthy(refresh) ==>
      RefreshTokenKey in r && r[RefreshTokenKey] == Cookie(refresh.value, RefreshTokenDays)
    ensures !Truthy(refresh) ==>
      (RefreshTokenKey in r <==> RefreshTokenKey in jar) &&
      (RefreshTokenKey in jar ==> r[RefreshTokenKey] == jar[RefreshTokenKey])
    ensures SameExcept(jar, r, {AccessTokenKey, RefreshTokenKey})
  {
    var withAccess := jar[AccessTokenKey := Cookie(access, AccessTokenDays)];
    if Truthy(refresh) then withAccess[RefreshTokenKey := Cookie(refresh.value, RefreshTokenDays)]
    else withAccess
  }

  /** The jar after `removeTokens()`: neither token cookie, every other cookie as it was. */
  function WithoutTokens(jar: Jar): (r: Jar)
    ensures Lookup(r, AccessTokenKey) == None && Lookup(r, RefreshTokenKey) == None
    ensures SameExcept(jar, r, {AccessTokenKey, RefreshTokenKey})
    ensures r.Keys <= jar.Keys
  {
    jar - {AccessTokenKey, RefreshTokenKey}
  }

  /** Removing the tokens twice is the same as removing them once. */
  lemma RemoveIdempotent(jar: Jar)
    ensures WithoutTokens(WithoutTokens(jar)) == WithoutTokens(jar)
  {
    var once := WithoutTokens(jar);
    assert WithoutTokens(once).Keys == once.Keys;
  }

  /** Removing the tokens forgets whatever an earlier `setTokens` stored. */
  lemma RemoveAfterSet(jar: Jar, access: string, refresh: Option<string>)
    ensures WithoutTokens(WithTokens(jar, access, refresh)) == WithoutTokens(jar)
  {
  }

  /**
   * `isAuthenticated()` over the jar: a non-empty access token is stored and it is not
   * expired at `nowMs`.
   */
  predicate IsAuthenticated(jar: Jar, rt: Runtime, nowMs: int)
    ensures IsAuthenticated(jar, rt, nowMs) ==>
      AccessTokenKey in jar && jar[AccessTokenKey].value != "" &&
      ParseToken(rt, jar[AccessTokenKey].value).Some?
  {
    var token := Lookup(jar, AccessTokenKey);
    Truthy(token) && !IsTokenExpired(rt, token.value, nowMs)
  }

  /** Authentication speaks only of the access token: it holds exactly when the stored
      access token parses and its `exp`, if any, is not before now; the refresh cookie has
      no bearing on it. */
  lemma AuthenticatedMeaning(jar: Jar, rt: Runtime, nowMs: int, refresh: Cookie)
    ensures IsAuthenticated(jar, rt, nowMs) <==>
      AccessTokenKey in jar &&
      ParseToken(rt, jar[AccessTokenKey].value).Some? &&
      (ParseToken(rt, jar[AccessTokenKey].value).value.exp.Some? ==>
         nowMs <= ParseToken(rt, jar[AccessTokenKey].value).value.exp.value * 1000)
    ensures IsAuthenticated(jar[RefreshTokenKey := refresh], rt, nowMs) == IsAuthenticated(jar, rt, nowMs)
    ensures IsAuthenticated(jar - {RefreshTokenKey}, rt, nowMs) == IsAuthenticated(jar, rt, nowMs)
  {
  }

  /** After `removeTokens()` nobody is authenticated. */
  lemma NotAuthenticatedAfterRemove(jar: Jar, rt: Runtime, nowMs: int)
    ensures !IsAuthenticated(WithoutTokens(jar), rt, nowMs)
  {
  }

  /** After `setTokens` the session is authenticated exactly when the new access token is
      (the refresh token given makes no difference). */
  lemma AuthenticatedAfterSet(jar: Jar, rt: Runtime, nowMs: int, access: string, refresh: Option<string>)
    ensures IsAuthenticated(WithTokens(jar, access, refresh), rt, nowMs) <==>
      access != "" && !IsTokenExpired(rt, access, nowMs)
  {
  }

  /**
   * `getUserIdFromToken()` over the jar: the subject of the stored access token, or absent
   * when no non-empty access token is stored, it does not parse, or its `sub` is missing or
   * empty. Expiry is not consulted.
   */
  function UserIdFromToken(jar: Jar, rt: Runtime): (r: Option<string>)
    ensures !Truthy(Lookup(jar, AccessTokenKey)) ==> r == None
    ensures r.Some? ==>
      && r.value != ""
      && AccessTokenKey in jar
      && ParseToken(rt, jar[AccessTokenKey].value).Some?
      && ParseToken(rt, jar[AccessTokenKey].value).value.sub == r
  {
    var token := Lookup(jar, AccessTokenKey);
    if !Truthy(token) then None else SubjectOf(rt, token.value)
  }

  /** The user id ignores the clock: an expired token still yields its subject. */
  lemma UserIdOfExpiredToken(jar: Jar, rt: Runtime, nowMs: int, sub: string)
    requires Truthy(Lookup(jar, AccessTokenKey))
    requires ParseToken(rt, jar[AccessTokenKey].value).Some?
    requires ParseToken(rt, jar[AccessTokenKey].value).value.sub == Some(sub) && sub != ""
    ensures UserIdFromToken(jar, rt) == Some(sub)
  {
  }

  /** The browser's cookie jar, as the token functions see it. */
  class CookieStore {
    var jar: Jar

    constructor (initial: Jar)
      ensures jar == initial
    {
      jar := initial;
    }

    /** `getAccessToken()`. */
    function AccessToken(): (r: Option<string>)
      reads this
      ensures r.Some? <==> AccessTokenKey in jar
      ensures r.Some? ==> r.value == jar[AccessTokenKey].value
    {
      Lookup(jar, AccessTokenKey)
    }

    /** `getRefreshToken()`. */
    function RefreshToken(): (r: Option<string>)
      reads this
      ensures r.Some? <==> RefreshTokenKey in jar
      ensures r.Some? ==> r.value == jar[RefreshTokenKey].value
    {
      Lookup(jar, RefreshTokenKey)
    }

    /** `setTokens(access, refresh)`. */
    method SetTokens(access: string, refresh: Option<string>)
      modifies this
      ensures jar == WithTokens(old(jar), access, refresh)
      ensures AccessToken() == Some(access)
      ensures RefreshToken() == if Truthy(refresh) then refresh else old(RefreshToken())
    {
      jar := jar[AccessTokenKey := Cookie(access, AccessTokenDays)];
      if refresh.Some? && refresh.value != "" {
        jar := jar[RefreshTokenKey := Cookie(refresh.value, RefreshTokenDays)];
      }
    }

    /** `removeTokens()`. */
    method RemoveTokens()
      modifies this
      ensures jar == WithoutTokens(old(jar))
      ensures AccessToken() == None && RefreshToken() == None
    {
      jar := jar - {AccessTokenKey};
      jar := jar - {RefreshTokenKey};
    }
  }
}
