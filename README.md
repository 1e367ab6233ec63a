# Session and token handling of the study-planner web client

This project models the client-side session subsystem of the web client, together with
the list bookkeeping of its study-goals page, and proves properties of that model.

- **Token store and decoder** (`token_store.dfy`, `token_codec.dfy`).
  - The cookie jar is a map in the `CookieStore` class. It holds an `accessToken` cookie (7 days) and a `refreshToken` cookie (30 days).
  - The jar is written through `setTokens` and `removeTokens`. Its specification is given by pure functions on maps.
  - The decoder reads the payload segment of a JWS compact serialisation (section 7.1 of RFC 7515) without checking the signature.
  - Its steps are: split on `.`; turn base64url into base64 (section 5 of RFC 4648); percent-escape every byte and undo the escapes (section 2.1 of RFC 3986); then parse the claims.
  - From the claims it reads `exp` and `sub` (sections 4.1.4 and 4.1.2 of RFC 7519).
  - Expiry, "authenticated" and "user id from token" are predicates and functions over the jar.
- **Shared HTTP client** (`api_client.dfy`).
  - A request interceptor attaches `Authorization: Bearer <token>`.
  - On a 401, the response-error interceptor refreshes the token pair at most once per request, then resends the request or logs out.
  - The request configuration is a class whose `_retry` flag and headers the interceptor rewrites in place.
- **Authentication service** (`auth_service.dfy`).
  - Every call except logout goes through the shared client, so a 401 on any of them can trigger the client's refresh. That refresh stores a new token pair or removes both tokens.
  - On top of that, login, register and refresh-token store the returned pair when they succeed, and logout removes both tokens without any request.
  - The password calls write the token store only through the client's refresh.
- **Session provider** (`auth_context.dfy`).
  - It holds the `user`, `loading` and `error` state.
  - Its transitions are init, login, register, logout and clearError.
  - The routes the provider navigates to are recorded in order.
  - The failure-message selector has a fixed priority order.
- **Study-goals page** (`study_goals.dfy`).
  - It holds the catalogue (`studyGoals`), the person's assigned goals (`userGoals`) and the derived list of available goals.
  - Its handlers are fetch, add, assign and remove.
  - `seq_filter.dfy` holds the generic facts about `Array.prototype.filter` that those lists rest on.

Shared shapes are in `http.dfy` (requests, axios-style failures, `HttpResult`) and in `wrappers.dfy` (`Option`, and JavaScript truthiness of an optional string).

Every network call is a parameter of the model: a function from the request made to what it resolved or rejected with. So contracts name the exact request sent and the exact answer used. The foreign functions are fields of a `Runtime` value: `atob`, the UTF-8 half of `decodeURIComponent`, and `JSON.parse`. Each may fail. Time is a parameter in integer milliseconds, and `exp < Date.now() / 1000` is stated as `exp * 1000 < nowMs`.

Three behaviours of the code are worth stating on their own:

- **Logout always clears the user.** The provider clears the user only after `AuthService.logout` returns (src/contexts/AuthContext.tsx:161-166). That service cannot throw (src/services/auth.service.ts:38-44), so the user is always cleared. The model calls the service and then clears the user.
- **The session user is not tied to the access token.** The code does not keep the two in step:
  - `initAuth` sets the user only once, at mount;
  - login sets the user from the answer body, without looking at the stored token;
  - nothing clears the user when the token later expires.

  The model states what each transition does; it claims no invariant linking the user to the token.
- **A payload without `exp` never expires.** Such a payload compares `undefined < now`, which is false. The model keeps this behaviour (`TokenCodec.IsTokenExpired`).

## Model

| member | source | states |
|---|---|---|
| Http.ServerMessageOr | src/contexts/AuthContext.tsx:93 | the server's `message` exactly when the server answered with a non-empty one, otherwise the fallback; never empty when the fallback is not |
| TokenCodec.Split | src/utils/token.utils.ts:71 | `split` always yields at least one segment |
| TokenCodec.SplitShape | src/utils/token.utils.ts:71-72 | the number of segments is the number of separators plus one, and no segment contains the separator |
| TokenCodec.JoinSplit | src/utils/token.utils.ts:71 | joining the segments with the separator gives back the original string |
| TokenCodec.SplitJoin | src/utils/token.utils.ts:71 | splitting a join of separator-free segments gives back the segments |
| TokenCodec.SplitPrefix | src/utils/token.utils.ts:71 | a separator-free head followed by the separator is the first segment, and the rest splits on its own |
| TokenCodec.NoSeparatorSplit | src/utils/token.utils.ts:71-74 | a string without the separator is a single segment |
| TokenCodec.ReplaceAll | src/utils/token.utils.ts:81 | a global one-character replace keeps the length; afterwards a character occurs exactly when it occurred and is not the replaced one, or it is the replacement of an occurring one |
| TokenCodec.Base64UrlToBase64 | src/utils/token.utils.ts:81 | the length is kept, no `-` or `_` is left, and every other character outside `+` and `/` occurs exactly when it did |
| TokenCodec.ReplaceAllAt | src/utils/token.utils.ts:81 | a global one-character replace keeps the length and changes exactly the matching positions |
| TokenCodec.Base64UrlToBase64At | src/utils/token.utils.ts:81 | `-` becomes `+` and `_` becomes `/` at every position, everything else is kept, the length is kept, and no `-` or `_` is left |
| TokenCodec.Base64ToBase64UrlAt | src/utils/token.utils.ts:81 | the inverse alphabet map, position by position |
| TokenCodec.Base64UrlRoundTrip | src/utils/token.utils.ts:81 | on base64url text (no `+` or `/`), mapping to base64 and back is the identity |
| TokenCodec.ToHex | src/utils/token.utils.ts:85 | the base-16 text has at least one digit, and at most two for a byte |
| TokenCodec.PadTwo | src/utils/token.utils.ts:85 | exactly two characters: the last two of a longer text, a single digit with a leading zero, `00` for nothing |
| TokenCodec.EscapeByte | src/utils/token.utils.ts:85 | three characters, the first of them `%` |
| TokenCodec.PercentEncode | src/utils/token.utils.ts:83-86 | three characters per byte |
| TokenCodec.EscapeByteDigits | src/utils/token.utils.ts:85 | each byte becomes `%` followed by exactly two lowercase hex digits, high nibble first |
| TokenCodec.PercentEncodeShape | src/utils/token.utils.ts:83-86 | the escaped text is three times as long as the bytes, and each triple is the escape of its byte |
| TokenCodec.PercentDecode | src/utils/token.utils.ts:82 | a successful unescape yields one byte per three characters |
| TokenCodec.DecodeEscape | src/utils/token.utils.ts:82-85 | unescaping reads one escape back as exactly its byte, then goes on with the rest |
| TokenCodec.HexValueOfDigit | src/utils/token.utils.ts:85 | reading back a hex digit gives its value |
| TokenCodec.PercentRoundTrip | src/utils/token.utils.ts:82-87 | unescaping the escaped bytes gives back exactly those bytes |
| TokenCodec.DecodeUriComponent | src/utils/token.utils.ts:82 | fails when the unescape fails; otherwise it is the UTF-8 decode of the unescaped bytes |
| TokenCodec.EscapedDecodeIsUtf8 | src/utils/token.utils.ts:82-87 | escaping and then `decodeURIComponent` amounts to a plain UTF-8 decode of the bytes |
| TokenCodec.DecodeSegment | src/utils/token.utils.ts:81-88 | null when `atob` fails; a decoded segment is the JSON parse of the UTF-8 text of its base64 bytes |
| TokenCodec.DecodeSegmentMeaning | src/utils/token.utils.ts:81-88 | a segment decodes to the JSON parse of the UTF-8 text of its base64 bytes, and any failing step gives null |
| TokenCodec.ParseToken | src/utils/token.utils.ts:63-93 | null for an empty token and for fewer than two `.`; a parsed token has at least three segments, a non-empty segment 1, and its claims are the decoded segment 1 |
| TokenCodec.ParseCompact | src/utils/token.utils.ts:71-88 | for `header.payload.rest`, only `payload` is decoded, whatever `rest` holds, more dots included |
| TokenCodec.ParseEmptyPayload | src/utils/token.utils.ts:76-79 | an empty segment 1 gives null, whatever follows |
| TokenCodec.IsTokenExpired | src/utils/token.utils.ts:98-107 | expired exactly when the token does not parse, or its `exp` in milliseconds is before now |
| TokenCodec.UnreadableIsExpired | src/utils/token.utils.ts:98-103 | an empty, malformed or unparsable token is expired at every time |
| TokenCodec.ExpiryBoundary | src/utils/token.utils.ts:105-106 | a token with `exp = e` seconds is not expired at `e * 1000` ms and is expired one millisecond later |
| TokenCodec.ExpiryMonotone | src/utils/token.utils.ts:98-107 | once expired, a token stays expired at every later time |
| TokenCodec.SubjectOf | src/utils/token.utils.ts:116-117 | the `sub` claim of a parsed token exactly when it is a non-empty string, otherwise absent |
| TokenStore.Lookup | src/utils/token.utils.ts:33-42 | a cookie value is present exactly when the cookie is in the jar, and it is that cookie's value |
| TokenStore.WithTokens | src/utils/token.utils.ts:19-28 | the access cookie holds the token with a 7-day expiry; the refresh cookie holds the refresh token with a 30-day expiry only when that token is non-empty, otherwise it is unchanged; every other cookie is unchanged |
| TokenStore.WithoutTokens | src/utils/token.utils.ts:47-50 | both token cookies are absent, every other cookie is unchanged, and nothing is added |
| TokenStore.RemoveIdempotent | src/utils/token.utils.ts:47-50 | removing the tokens twice is the same as removing them once |
| TokenStore.RemoveAfterSet | src/utils/token.utils.ts:19-50 | removing the tokens after setting them leaves the jar as a bare removal would |
| TokenStore.IsAuthenticated | src/utils/token.utils.ts:55-58 | authenticated only when a non-empty access token is stored and it parses |
| TokenStore.AuthenticatedMeaning | src/utils/token.utils.ts:55-58 | authenticated exactly when an access token is stored, it parses, and its `exp` (if any) is not before now; the refresh cookie, set or removed, makes no difference |
| TokenStore.NotAuthenticatedAfterRemove | src/utils/token.utils.ts:47-58 | after removing the tokens nobody is authenticated |
| TokenStore.AuthenticatedAfterSet | src/utils/token.utils.ts:19-58 | after setting tokens, the session is authenticated exactly when the new access token is non-empty and not expired |
| TokenStore.UserIdFromToken | src/utils/token.utils.ts:112-118 | absent without a non-empty access token; when present, it is the non-empty `sub` of the parsed stored token |
| TokenStore.UserIdOfExpiredToken | src/utils/token.utils.ts:112-118 | a stored token that parses with a non-empty `sub` yields that `sub`, at any time: expiry is not consulted |
| TokenStore.CookieStore.AccessToken | src/utils/token.utils.ts:33-35 | present exactly when the access cookie is set, and then its value |
| TokenStore.CookieStore.RefreshToken | src/utils/token.utils.ts:40-42 | present exactly when the refresh cookie is set, and then its value |
| TokenStore.CookieStore.SetTokens | src/utils/token.utils.ts:19-28 | the jar becomes WithTokens of the old jar; reading back gives the new access token, and gives the new refresh token only when it is non-empty (else the old one) |
| TokenStore.CookieStore.RemoveTokens | src/utils/token.utils.ts:47-50 | the jar becomes WithoutTokens of the old jar; both getters then return absent |
| ApiClient.WithBearer | src/services/api.ts:17-25 | `Authorization` is `Bearer ` plus the token exactly when a non-empty token is stored; otherwise the headers are unchanged; no other header changes |
| ApiClient.AttachBearer | src/services/api.ts:17-25 | the request's headers become WithBearer of the old headers and the stored access token |
| ApiClient.RefreshRequest | src/services/api.ts:52-60 | a POST of `{refreshToken}` to the API base URL plus `/auth/refresh-token`, carrying no bearer header |
| ApiClient.OnResponseError | src/services/api.ts:33-79 | without a 401, an unset `_retry` and a stored refresh token: rejects with the original error and changes nothing. Otherwise it sets `_retry` and posts the refresh request. If the refresh fails: both tokens removed, the caller sees the refresh error. If it succeeds: the pair is stored via setTokens, the bearer header is rewritten, and the request is resent once; the resend's outcome, failure included, goes to the caller with the tokens kept |
| ApiClient.RequestConfig.constructor | src/services/api.ts:34 | the configuration carries exactly the given verb, URL, headers and body, with `_retry` unset |
| ApiClient.ShouldRefresh | src/services/api.ts:37-41 | a refresh is attempted exactly when the answer has status 401, the request is not marked `_retry`, and a non-empty refresh token is stored |
| ApiClient.Authorized | src/services/api.ts:17-25 | the request leaves with its verb, URL and body kept and its headers as WithBearer of the stored access token |
| ApiClient.Resent | src/services/api.ts:66-70 | the resent request is the first one with `Authorization` set to `Bearer ` plus the new access token; every other header, the verb, URL and body are kept |
| ApiClient.ClientCall | src/services/api.ts:17-79 | one call through the client: the first request carries the stored bearer; a success, or a failure that does not qualify for a refresh, reaches the caller with the jar untouched; otherwise the refresh request follows, and a failed refresh removes both tokens and hands the refresh failure to the caller, while a successful one stores the pair and resends once, the resend's outcome going to the caller |
| ApiClient.OnlyRefreshWritesTokens | src/services/api.ts:37-75 | the client changes the jar only after sending the refresh request, for an unmarked request with a stored refresh token, and then the jar either lost both tokens or holds the refreshed pair |
| ApiClient.Send | src/services/api.ts:17-79 | the answer, the final jar and the requests sent, in order, are exactly those of ClientCall on the configuration's request and mark; the configuration ends marked exactly when a refresh was attempted, carrying the headers of the last request sent |
| ApiClient.ApiRequest | src/services/api.ts:9-14 | a service call leaves with the API base URL prefixed to its path, its verb and body, and the default `Content-Type: application/json` header |
| ApiClient.Request | src/services/api.ts:9-79 | a service call through the shared client: the answer and the final jar are those of ClientCall on the service's request, starting unmarked |
| ApiClient.StaleTokenIsRefreshedOnce | src/services/api.ts:37-70 | a 401 on a stale token leads to one refresh and one resend carrying the new token; the caller sees the resend's success; the old refresh token is kept when none is returned |
| ApiClient.FailedRefreshLogsOut | src/services/api.ts:71-74 | a 401 whose refresh fails: the caller sees the refresh error, not the 401, and both tokens are gone |
| ApiClient.PersistentUnauthorizedStops | src/services/api.ts:39-42 | a backend that always answers 401: exactly three requests leave (the request, one refresh, one resend), the resend's 401 reaches the caller, the configuration ends marked, and the refreshed pair is stored |
| AuthService.AfterAuthCall | src/services/auth.service.ts:20-24 | applied to the jar as the client left it: on success the returned pair is stored as setTokens stores it, whatever else the body holds; on failure that jar is unchanged |
| AuthService.StoreReturnedTokens | src/services/auth.service.ts:21-23 | the answer is handed back unchanged and the jar becomes AfterAuthCall of it |
| AuthService.Login | src/services/auth.service.ts:20-24 | the answer of the shared client (401 refresh included) to a POST of the credentials to `/auth/login`; the jar is the client's final jar with the returned pair stored on success only |
| AuthService.Register | src/services/auth.service.ts:29-33 | the same for a POST of the registration fields to `/auth/register` |
| AuthService.RefreshToken | src/services/auth.service.ts:73-77 | the same for a POST of `{refreshToken}` to `/auth/refresh-token`, sent through the shared client |
| AuthService.Logout | src/services/auth.service.ts:38-44 | no request; the jar becomes WithoutTokens of the old jar |
| AuthService.RequestPasswordReset | src/services/auth.service.ts:49-52 | the answer of the shared client to a POST of `{email}` to `/auth/request-password-reset`; the jar is exactly what the client's 401 refresh left, and the service writes nothing more |
| AuthService.ResetPassword | src/services/auth.service.ts:57-60 | the same for a POST of `{token, newPassword}` to `/auth/reset-password` |
| AuthService.ChangePassword | src/services/auth.service.ts:65-68 | the same for a POST of `{currentPassword, newPassword}` to `/auth/change-password` |
| AuthService.AuthCallWithoutRefresh | src/services/auth.service.ts:20-24 | when the first answer does not qualify for a refresh, the caller sees that answer and the jar changes only by the service's own write |
| AuthService.RejectedLoginRotatesTokens | src/services/auth.service.ts:20-24 | a login rejected with 401 while a refresh cookie is stored still refreshes: the caller sees the resend's 401 and the refreshed pair is left in the jar |
| AuthService.RejectedLoginFailedRefreshLogsOut | src/services/auth.service.ts:20-24 | a login rejected with 401 whose refresh fails: the caller sees the refresh failure and both tokens are removed |
| AuthService.LogoutErasesAuthCall | src/services/auth.service.ts:20-44 | a logout erases whatever the service stored after an authentication answer, success or failure |
| AuthService.LoginThenLogout | src/services/auth.service.ts:20-44 | a logout after any login through the shared client, 401 refresh included, leaves the jar as a logout alone would |
| AuthContext.FailureMessage | src/contexts/AuthContext.tsx:91-104 | the priority order: the server's message or `Error en el servidor` when the server answered; else the connection error when a request left; else the error's own message, else the fallback |
| AuthContext.FailureMessageNonEmpty | src/contexts/AuthContext.tsx:136-149 | with a non-empty fallback, the message shown is never empty |
| AuthContext.ServerAnswerWins | src/contexts/AuthContext.tsx:91-95 | when the server answered, nothing but its answer decides the message |
| AuthContext.SignedInUser | src/contexts/AuthContext.tsx:76-80 | a user exactly when the answer has a user with a non-empty `_id`; that user is `{_id, email}` |
| AuthContext.AuthProvider.constructor | src/contexts/AuthContext.tsx:33-35 | starts with no user, loading on, no error and no navigation |
| AuthContext.AuthProvider.InitAuth | src/contexts/AuthContext.tsx:40-60 | when the stored token authenticates and has a non-empty `sub`, the user is `{sub, ''}`; otherwise the user is unchanged; loading ends false; the error is untouched |
| AuthContext.AuthProvider.Settle | src/contexts/AuthContext.tsx:72-107 | a well-formed answer signs the user in and navigates to `/dashboard`; a malformed one sets the response error and keeps the user; a failure sets FailureMessage; loading ends false |
| AuthContext.AuthProvider.Login | src/contexts/AuthContext.tsx:68-108 | the service's login through the shared client (the jar ends as AfterAuthCall of the client's final jar and answer), then Settle of that answer with the login fallback |
| AuthContext.AuthProvider.Register | src/contexts/AuthContext.tsx:113-153 | the same with the service's register and the register fallback |
| AuthContext.AuthProvider.Logout | src/contexts/AuthContext.tsx:158-170 | both tokens removed, the user cleared, `/auth/login` pushed, loading false, the error untouched |
| AuthContext.AuthProvider.ClearError | src/contexts/AuthContext.tsx:175 | the error is cleared and no other field may change |
| AuthContext.AuthProvider.IsLoggedIn | src/contexts/AuthContext.tsx:180 | logged in exactly when a user is set |
| AuthContext.SuccessfulLogin | src/contexts/AuthContext.tsx:68-81 | after a well-formed login the user is the answered one, logged in, with no error, the dashboard as the only navigation, and the tokens stored |
| AuthContext.MalformedLogin | src/contexts/AuthContext.tsx:82-86 | an answer without `_id` shows the response error, signs nobody in and does not navigate |
| AuthContext.LogoutSignedIn | src/contexts/AuthContext.tsx:158-180 | after logout, nobody is logged in, both tokens are gone and the last navigation is the login view |
| SeqFilter.Filter | src/app/study-goals/page.tsx:53-55 | a filter is never longer than its input |
| SeqFilter.FilterMembership | src/app/study-goals/page.tsx:53-55 | an element is kept exactly when it occurs and passes |
| SeqFilter.FilterMembers | src/app/study-goals/page.tsx:53-55 | the membership fact for all elements at once |
| SeqFilter.FilterCount | src/app/study-goals/page.tsx:126 | each passing element is kept as many times as it occurs; failing ones not at all |
| SeqFilter.FilterIsSubsequence | src/app/study-goals/page.tsx:126 | the kept elements keep their relative order |
| SeqFilter.FilterAppend | src/app/study-goals/page.tsx:101 | filtering distributes over appending |
| SeqFilter.FilterKeepsAll | src/app/study-goals/page.tsx:126 | when every element passes, the sequence is kept whole |
| SeqFilter.FilterAgree | src/app/study-goals/page.tsx:214-215 | filters that agree on the elements give the same result |
| SeqFilter.FilterTwice | src/app/study-goals/page.tsx:214-215 | two filters in a row are one filter by the conjunction |
| SeqFilter.FilterCounts | src/app/study-goals/page.tsx:126 | the multiset of a filter keeps each passing element's count and drops the failing ones |
| StudyGoals.GoalsWithIds | src/app/study-goals/page.tsx:52-55 | exactly the catalogue goals whose id the profile lists, each as many times as it occurs in the catalogue, in catalogue order |
| StudyGoals.WithoutGoal | src/app/study-goals/page.tsx:126 | exactly the goals with a different id, each as many times as before, in their order; none with the removed id is left |
| StudyGoals.AvailableGoals | src/app/study-goals/page.tsx:214-215 | exactly the catalogue goals whose id no assigned goal has, each as many times as in the catalogue, in catalogue order |
| StudyGoals.FindById | src/app/study-goals/page.tsx:99 | absent exactly when no goal has the id; otherwise the first goal with that id |
| StudyGoals.AssignHidesFromAvailable | src/app/study-goals/page.tsx:99-102 | appending a goal to the assigned list removes every catalogue goal with its id from the available list, and nothing else |
| StudyGoals.RemoveUndoesAssign | src/app/study-goals/page.tsx:126 | removing a goal that was just appended, and not assigned before, restores the assigned list |
| StudyGoals.AvailableAfterLoad | src/app/study-goals/page.tsx:52-56 | right after loading, the available goals are the catalogue goals whose id the profile does not list |
| StudyGoals.StudyGoalsPage.constructor | src/app/study-goals/page.tsx:20-27 | the mount state: no profile, empty lists, loading on, no messages, modal closed, nothing in progress |
| StudyGoals.StudyGoalsPage.Available | src/app/study-goals/page.tsx:214-215 | the list rendered as available: exactly the catalogue goals whose id no assigned goal has, each as many times as in the catalogue, in catalogue order |
| StudyGoals.StudyGoalsPage.FetchData | src/app/study-goals/page.tsx:39-64 | no change at all without a user id. Otherwise the catalogue is loaded, then the profile; `userGoals` becomes GoalsWithIds when the profile lists goals and is otherwise kept; either failure sets the load error; loading ends false |
| StudyGoals.StudyGoalsPage.HandleAddGoal | src/app/study-goals/page.tsx:70-84 | messages cleared first. On success the new goal is appended to the catalogue, the modal closes and the success message is set. On failure the catalogue is unchanged and the server message or the default is shown |
| StudyGoals.StudyGoalsPage.HandleAssignGoal | src/app/study-goals/page.tsx:87-111 | nothing without a profile. On success the profile is replaced and the first catalogue goal with the id, if any, is appended. On failure the lists are unchanged and the error is set. Nothing is in progress at the end |
| StudyGoals.StudyGoalsPage.HandleRemoveGoal | src/app/study-goals/page.tsx:114-135 | nothing without a profile. On success every goal with the id leaves `userGoals`, the others keep their order. On failure the error is set. Nothing is in progress at the end |
| StudyGoals.NoUserKeepsLoading | src/app/study-goals/page.tsx:38-40 | without a user id the page stays loading, with both lists empty and no error |
| StudyGoals.AssignThenRemove | src/app/study-goals/page.tsx:39-135 | after loading, assigning a goal the profile did not list appends it and removes it from the available list; removing it restores the loaded list |

## Left out

- Browser cookies (`js-cookie`): the jar is a map. The `path`, `secure` and `sameSite` options are not modelled, and neither is the browser expiring a cookie by itself after 7 or 30 days; the expiry is recorded as a number of days only.
- `atob`, UTF-8 decoding and `JSON.parse` are uninterpreted functions that may fail; base64 itself is not modelled.
- TokenCodec.DecodeUriComponent: it models `decodeURIComponent` on fully percent-escaped text only, the only kind the decoder gives it. Unescaped characters and malformed UTF-8 are left to the runtime's decode function.
- JSON values: a JSON parse result that is falsy (such as `null`) counts as a failed parse. A claim that is not a string or an integer is treated as absent. `exp` is an integer number of seconds, with no fractional part.
- `Date.now()`: the clock is an integer-millisecond parameter. The float division by 1000 is written as a multiplication on the other side of the comparison.
- `parseToken`'s `typeof token !== 'string'` test: tokens are strings by type here.
- axios itself:
  - Requests and answers are values, and the backend is a parameter.
  - Request headers are always present, as the axios request type guarantees.
  - `error.config` is always present.
  - The API base URL, and the environment variable that sets it, is a parameter.
  - Response bodies are small records rather than arbitrary JSON.
  - A refresh or login answer whose body has no `accessToken` is not modelled.
- Concurrency: several 401s in flight at once each trigger their own refresh. The model is one task at a time. For the same reason, the re-read of the refresh token inside the interceptor (src/services/api.ts:46-50) cannot find it missing, so the "no refresh token" rejection is unreachable in the model.
- AuthContext.AuthProvider.Logout: the branch where `AuthService.logout` throws and the user is kept is not modelled, because that service cannot throw.
- AuthContext.AuthProvider.InitAuth: the `catch` of `initAuth` is not modelled, because the token helpers cannot throw here; loading ends false in every case, as it does in the `finally`.
- React scheduling: renders, effects, the intermediate `loading = true` states of login, register and logout (they are set and reset within one method here), state updates after unmount, and handlers reading stale state from a render closure. `router.push` is recorded as an appended route.
- The study-goals page's form handling (`react-hook-form`, `reset()`), console logging and all JSX rendering. The available list is modelled as the function the rendering filters by.
- StudyGoals.StudyGoalsPage: the page's service calls also go through the shared client, whose 401 refresh may write or remove the tokens; the page model does not carry the token store, and ApiClient.Request states that effect for any call.
- The people and study-goals services: their calls are parameters of the page's handlers. A profile answer that is `null` is not modelled, and an absent `studyGoals` list is the empty list.
