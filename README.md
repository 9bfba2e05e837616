# reading-cats: a verified model of sign-in and reading-state logic

reading-cats is a Next.js application for a daily-reading habit. This project models two parts of it in Dafny 4.11.

The first part is the server side. It covers the sign-in handshakes:
- the Google authorization-code flow with PKCE, through Cognito's hosted UI;
- the e-mail one-time-code flow, through Cognito's `USER_AUTH` choice flow.

It also covers the pieces around them: the session guards, the reading of the ID token, the backend client and the three backend proxy routes ("BFF" routes).

The second part is the client logic of the user interface:
- the user session context;
- the login panel with its six-slot code buffer;
- the two page-count modals and the streak hero that drives them;
- the two copies of the create-group wizard;
- the small derivations of the header, avatar, groups panel, mini calendar and button.

Each route handler is a function from its inputs to its outcome:
- the inputs are the query or body, the request's cookies, and the replies of the provider or backend;
- the outcome is the HTTP outcome plus the list of cookie writes.

Handlers that set response cookies one by one are methods on a `Response` object. Each is proved equal to a specification function. Properties are lemmas about those functions.

React components that keep state are classes, one field per piece of state. Each handler is a method. An `await` splits a handler in two. The `Start…` method runs up to the `await`. The `Finish…` method runs after it and is given how the awaited promise settled.

Library primitives the code depends on are modelled where a property needs them:
- `encodeURIComponent` and `decodeURIComponent`, with full UTF-8;
- Node's `hex` and `base64url` encoders;
- `URLSearchParams.set` and `get`;
- `trim` and `\s`;
- `Number()` on strings, as ECMA-262 section 7.1.4.1.1 defines it.

The other external services are parameters: `JSON.parse`, SHA-256, `crypto.randomBytes`, `fetch`, Cognito replies and timers.

## Model

| member | source | states |
|---|---|---|
| Handshake.RedirectUri | app/auth/callback/route.ts:26 | The callback address; `Callback.RedirectUriAgrees` and `GoogleAuthorize.AuthorizeRequestShape` prove that the token request and the authorize request send the same address. |
| GoogleAuthorize.AuthorizeParamsDistinct | app/api/auth/google/route.ts:24-33 | The eight query parameter names are distinct, so each `set` appends a new pair. |
| GoogleAuthorize.AuthorizeQuery | app/api/auth/google/route.ts:23-33 | Eight successive `searchParams.set` calls on a fresh URL leave exactly the eight authorization parameters, in order. |
| GoogleAuthorize.Authorize | app/api/auth/google/route.ts:10-48 | The response redirects to `https://<domain>/oauth2/authorize` with that query and writes exactly the two handshake cookies. |
| GoogleAuthorize.RememberHandshake | app/api/auth/google/route.ts:45-46 | The two `res.cookies.set` calls write the verifier, then the state, with the shared options. |
| GoogleAuthorize.StateMatchesCookie | app/api/auth/google/route.ts:31-46 | The `state` parameter sent to the provider equals the value of the `oauth_state` cookie. |
| GoogleAuthorize.ChallengeMatchesCookie | app/api/auth/google/route.ts:16-45 | The `pkce_verifier` cookie holds the verifier the S256 challenge was computed from, and the method sent is `S256`. |
| GoogleAuthorize.HandshakeValuesWellFormed | app/api/auth/google/route.ts:6-17 | The verifier is 43 unreserved characters and decodes back to its 32 random bytes. The challenge is 43 characters. The state is 32 lower-case hex digits. |
| GoogleAuthorize.AuthorizeRequestShape | app/api/auth/google/route.ts:21-29 | The request names the client, asks for a `code`, returns to the callback address and selects the `Google` identity provider. |
| GoogleAuthorize.HandshakeCookieOptions | app/api/auth/google/route.ts:37-43 | Both handshake cookies are http-only, lax, path `/`, secure exactly in production, and live 600 seconds. |
| Encoding.Hex | app/api/auth/google/route.ts:7 | `toString("hex")` gives two lower-case hex digits per byte. |
| Encoding.UnhexHex | app/api/auth/google/route.ts:7 | The hex text can be read back to the bytes. |
| Encoding.Base64Url | app/api/auth/google/route.ts:16-17 | `toString("base64url")` gives ⌈4n/3⌉ characters, all from the unreserved set. |
| Encoding.Base64UrlRoundTrip | app/api/auth/google/route.ts:16 | Base64url text decodes back to the bytes it encodes. |
| Encoding.VerifierLength | app/api/auth/google/route.ts:16 | 32 random bytes make a 43-character verifier. |
| Encoding.StateLength | app/api/auth/google/route.ts:7 | 16 random bytes make a 32-character state. |
| UrlSearch.Get | app/auth/callback/route.ts:8-11 | `searchParams.get` returns the value of the first pair with that name, and only a value that is present. |
| UrlSearch.GetSetParam | app/api/auth/google/route.ts:24-33 | After `set`, the name reads back the new value and every other name reads as before. |
| UrlSearch.SetParamAppends | app/api/auth/google/route.ts:24-33 | Setting a name the list does not hold appends the pair. |
| UrlSearch.SearchParams.Set | app/api/auth/google/route.ts:24-33 | The object's pairs become those of `set` applied to the old pairs. |
| Callback.FirstCookieAtLeftmost | app/auth/callback/route.ts:31 | The header search finds the leftmost `name=` that opens the header or follows `"; "`, and finds nothing only when there is none. |
| Callback.ValueEndFirstSemicolon | app/auth/callback/route.ts:31 | The captured value `([^;]*)` runs up to, and not including, the first `;`. |
| Callback.GetCookieEmptyHeader | app/auth/callback/route.ts:28-33 | Without a `Cookie` header, `getCookie` returns `null`. |
| Callback.RawFirstPair | app/auth/callback/route.ts:31 | When `name=` opens the header, the captured text runs up to the first `;`. |
| Callback.LookupFirstPair | app/auth/callback/route.ts:28-33 | When `name=` opens the header, `getCookie` returns the decoded value: a value written with `encodeURIComponent` reads back unchanged. |
| Callback.MatchAfterSeparator | app/auth/callback/route.ts:31 | After a first pair that holds no `;` and does not start with the name's first letter, the first match is the one right after `"; "`. |
| Callback.RawAfterSeparator | app/auth/callback/route.ts:31 | Such a second pair is captured up to the end of the header. |
| Callback.LookupAfterSeparator | app/auth/callback/route.ts:28-33 | Such a second pair is found and decoded. |
| Callback.TwoCookieLookup | app/auth/callback/route.ts:28-36 | In the header a browser sends back for two cookie writes, each name finds its own value. |
| Callback.HandshakeHeaderLookup | app/auth/callback/route.ts:35-36 | The cookie header after the authorization step yields exactly the verifier and the state that step stored. |
| Callback.GetCookie | app/auth/callback/route.ts:30-33 | `getCookie`; `Callback.GetCookieEmptyHeader`, `Callback.LookupFirstPair`, `Callback.LookupAfterSeparator` and `Callback.TwoCookieLookup` prove that it finds nothing without a `Cookie` header, and finds the decoded value of a pair that opens the header or follows `; `. |
| Callback.TokenCookieNames | app/auth/callback/route.ts:77-105 | Token cookies are named only `access_token`, `id_token` or `refresh_token`, never after a handshake cookie. |
| Callback.HandleCallback | app/auth/callback/route.ts:5-111 | The handler's response, cookie writes and token request equal those of the specification function. |
| Callback.CallbackSpec | app/auth/callback/route.ts:5-111 | The outcome of the callback as a value; `Callback.HandleCallback` is proved to produce it, and the lemmas from `Callback.ErrorComesFirst` to `Callback.SuccessCookies` prove its branches. |
| Callback.StoreTokens | app/auth/callback/route.ts:77-108 | The success path's writes are the present token cookies, then the two handshake expiries. |
| Callback.ExpireHandshake | app/auth/callback/route.ts:107-108 | Both handshake cookies are set to `""` with `maxAge: 0`, after the existing writes. |
| Callback.ErrorComesFirst | app/auth/callback/route.ts:13-17 | An `error` parameter redirects to `/login?error=<enc>&desc=<enc or "">` before any other check; no token request is made and nothing is written. |
| Callback.MissingCode | app/auth/callback/route.ts:19-21 | A missing or empty `code` or `state` redirects to `/login?error=missing_code` with no request and no writes. |
| Callback.ExchangeOnlyAfterStateCheck | app/auth/callback/route.ts:35-56 | A token request is made exactly when there is no error, there is a code, and the `oauth_state` cookie equals the non-empty `state` with a `pkce_verifier` present. The request carries the received code and the stored verifier. |
| Callback.StateMismatch | app/auth/callback/route.ts:35-40 | Past the error and code checks, a missing, empty or different stored state, or a missing or empty verifier, redirects to `state_mismatch` with no writes. |
| Callback.TokenRequestShape | app/auth/callback/route.ts:42-56 | The POST to `https://<domain>/oauth2/token` carries exactly `grant_type=authorization_code`, `client_id`, `code`, `redirect_uri` and `code_verifier`. |
| Callback.RedirectUriAgrees | app/auth/callback/route.ts:26-48 | The exchange uses the `redirect_uri` the authorization request was made with. |
| Callback.ExchangeFailed | app/auth/callback/route.ts:58-63 | A non-2xx token reply redirects to `token_exchange_failed` with the reply text encoded as `detail`, and writes nothing. |
| Callback.CookiesOnlyOnSuccess | app/auth/callback/route.ts:13-73 | Cookies are written only on the success path, which always redirects to `/`; every other path leaves the handshake cookies in place. |
| Callback.SuccessResult | app/auth/callback/route.ts:65-108 | On success the response redirects to the root and writes the token cookies, then the expiries. |
| Callback.SuccessCookies | app/auth/callback/route.ts:77-108 | Each token cookie is written exactly when its field is a non-empty string. Access and id live `expires_in ?? 3600` seconds, refresh 2592000. Both handshake cookies are then deleted. |
| Callback.HandshakeCompletes | app/api/auth/google/route.ts:16-46 | A browser returning from the provider with the issued state and the authorize step's cookies passes the state check, and its token request presents the verifier behind the challenge sent. |
| Http.FindUpsert | app/auth/callback/route.ts:77-108 | After `res.cookies.set` the name reads the new write and every other name reads as before. |
| Http.Response.Set | app/auth/callback/route.ts:77-108 | `res.cookies.set` replaces the write of the same name in place, or appends. |
| Http.SetIfPresent | app/auth/callback/route.ts:77-101 | `if (value) res.cookies.set(...)` appends a write exactly when the value is a non-empty string. |
| Http.SessionCookie | app/api/auth/otp/verify/route.ts:51-57 | The cookie options every route writes; `GoogleAuthorize.HandshakeCookieOptions` proves that both handshake cookies are http-only, lax, path `/` and secure exactly in production, and `Callback.SuccessCookies` and `OtpVerify.FindSignedIn` give the token cookies' lifetimes. |
| Uri.EncodeURIComponent | src/lib/auth/requireAuth.ts:10 | `encodeURIComponent` never shortens its input. |
| Uri.URIComponentRoundTrip | app/auth/callback/route.ts:32 | `decodeURIComponent(encodeURIComponent(s))` is `s` for every string. |
| Uri.DecodeURIComponent | app/auth/callback/route.ts:32 | `decodeURIComponent` (`None` where it throws); `Uri.URIComponentRoundTrip` proves that it inverts `encodeURIComponent`. |
| Uri.EncodedAlphabet | app/auth/callback/route.ts:15 | Every character of an encoded component is `%` or one that `encodeURIComponent` keeps. |
| Uri.EncodedHasNoSeparators | app/auth/callback/route.ts:15 | An encoded component holds no `;`, `=`, `&` or space, so it cannot break a query or a cookie header (here and in the `detail` of line 61). |
| Uri.EncodeConcat | src/lib/auth/requireAuth.ts:10 | Encoding distributes over concatenation. |
| Uri.EncodeSafe | src/lib/auth/requireAuth.ts:10 | A string of kept characters is its own encoding. |
| Uri.EncodeTwoSegmentPath | src/lib/auth/requireAuth.ts:10 | In a two-segment path with plain segments, only the slashes are escaped. |
| Uri.EncodeGroupPath | src/lib/auth/requireAuth.ts:10 | `/group/abc` is sent as `%2Fgroup%2Fabc`. |
| Uri.QueryReencode | app/auth/callback/route.ts:15 | When a URL is parsed, a query of encoded components changes only at `'`, and none is left afterwards. |
| Uri.FormEncode | app/auth/callback/route.ts:44-55 | The form-encoded token request body carries no `&` or `=` inside a value. |
| OtpStart.HandleStart | app/api/auth/otp/start/route.ts:12-66 | The handler's response, cookies and Cognito calls equal those of the specification function. |
| OtpStart.StartSpec | app/api/auth/otp/start/route.ts:12-66 | The outcome of `otp/start` as a value; `OtpStart.HandleStart` is proved to produce it, and `OtpStart.MissingEmail` to `OtpStart.SuccessCookies` prove its branches. |
| OtpStart.MissingEmail | app/api/auth/otp/start/route.ts:13-17 | A missing or empty e-mail, or an unparseable body, gets 400 `missing_email`, and Cognito is not called. |
| OtpStart.FirstCallIsUserAuth | app/api/auth/otp/start/route.ts:23-31 | The first call is `InitiateAuth` with `USER_AUTH` and exactly one parameter, `USERNAME`, and no password. |
| OtpStart.SecondCallUsesFirstSession | app/api/auth/otp/start/route.ts:34-44 | A second call is made only after the first returned. It answers `SELECT_CHALLENGE` with `EMAIL_OTP` in the first call's session, for the same user name. |
| OtpStart.CookiesOnlyAfterBothCalls | app/api/auth/otp/start/route.ts:23-63 | The response is `{ ok: true }` with cookies exactly when both calls returned; a throw from either call writes no cookie. |
| OtpStart.SuccessCookies | app/api/auth/otp/start/route.ts:49-63 | `otp_session` is set to the second call's session, or `""` without one, and `otp_email` to the address exactly as received. Both are http-only, lax, path `/`, and live 180 seconds. |
| OtpVerify.HandleVerify | app/api/auth/otp/verify/route.ts:13-82 | The handler's response, cookies and Cognito call equal those of the specification function. |
| OtpVerify.VerifySpec | app/api/auth/otp/verify/route.ts:13-82 | The outcome of `otp/verify` as a value; `OtpVerify.HandleVerify` is proved to produce it, and `OtpVerify.MissingCode` to `OtpVerify.SameTokenCookiesAsCallback` prove its branches. |
| OtpVerify.StoreTokens | app/api/auth/otp/verify/route.ts:51-79 | The success path's writes, in the handler's order. |
| OtpVerify.SignedInCookieNames | app/api/auth/otp/verify/route.ts:51-75 | The token cookies never carry a one-time-code cookie's name. |
| OtpVerify.MissingCode | app/api/auth/otp/verify/route.ts:14-18 | A missing or empty code, or an unparseable body, gets 400 `missing_code` before the cookies are read. |
| OtpVerify.MissingSession | app/api/auth/otp/verify/route.ts:20-25 | Without both `otp_session` and `otp_email`, the answer is 400 `missing_otp_session`, and Cognito is not called. |
| OtpVerify.ChallengeSent | app/api/auth/otp/verify/route.ts:31-41 | Cognito is called exactly when the code and both cookies are present. The call answers `EMAIL_OTP` with the stored session, the stored address as `USERNAME`, and the code. |
| OtpVerify.NoTokens | app/api/auth/otp/verify/route.ts:43-47 | A result without both tokens gets 401 `no_tokens_returned`; nothing is written or cleared. |
| OtpVerify.CookiesOnlyOnSuccess | app/api/auth/otp/verify/route.ts:45-79 | Cookies are written only with the signed-in answer `{ ok: true, redirectTo: "/feed" }`, and that answer always writes them. |
| OtpVerify.FindSignedIn | app/api/auth/otp/verify/route.ts:51-75 | Both tokens are stored for `ExpiresIn ?? 3600` seconds; the refresh token for 30 days exactly when there is one. |
| OtpVerify.SuccessCookies | app/api/auth/otp/verify/route.ts:51-79 | The tokens read as written, and both one-time-code cookies are deleted with `maxAge: 0`. |
| OtpVerify.FindOtpExpiry | app/api/auth/otp/verify/route.ts:78-79 | After token writes that do not touch them, the one-time-code cookies read as expired. |
| OtpVerify.SameTokenCookiesAsCallback | app/api/auth/otp/verify/route.ts:51-75 | The code path stores the same token cookies as the Google path for the same tokens. |
| Cognito.FieldValue | app/api/auth/otp/start/route.ts:13 | The destructured body field; `OtpStart.MissingEmail` and `OtpVerify.MissingCode` prove that an unparseable body, read as `{}`, gets the 400 reply before Cognito is called. |
| SessionGuard.RequireAuthRedirects | src/lib/auth/requireAuth.ts:4-11 | Without a non-empty `access_token` the guard redirects to `/login?returnTo=<encodeURIComponent(returnTo)>`, with `returnTo` defaulting to `/feed`. |
| SessionGuard.RequireAuthPasses | src/lib/auth/requireAuth.ts:7-13 | With a non-empty token the guard returns exactly that token and never redirects. |
| SessionGuard.OnlyPresenceMatters | src/lib/auth/requireAuth.ts:7-13 | Stores whose tokens are both present, or both absent, lead to the same kind of result. The redirect target does not depend on the store. |
| SessionGuard.ReturnToRecoverable | src/lib/auth/requireAuth.ts:10 | Decoding the `returnTo` parameter gives back the page exactly. |
| SessionGuard.RequireAuth | src/lib/auth/requireAuth.ts:4-14 | `requireAuth`; `SessionGuard.RequireAuthRedirects`, `SessionGuard.RequireAuthPasses` and `SessionGuard.OnlyPresenceMatters` prove that it redirects to the login page exactly when the access token is absent or empty, and otherwise passes the token on. |
| SessionGuard.HomePage | app/page.tsx:4-11 | The home page redirects to `/feed` with a non-empty token and to `/login` otherwise. |
| SessionGuard.HomePageByPresence | app/page.tsx:6-10 | The choice depends on whether a token is present, never on its value. |
| SessionGuard.HomePageAgreesWithGuard | app/page.tsx:6-10 | The home page sends a visitor to the feed exactly when `requireAuth` would let them through. |
| IdToken.Split | src/lib/auth/getUserFromIdToken.ts:4 | `split(".")` gives at least one piece. |
| IdToken.JoinSplit | src/lib/auth/getUserFromIdToken.ts:4 | Joining the pieces with `.` gives the token back. |
| IdToken.SplitPiecesFree | src/lib/auth/getUserFromIdToken.ts:4 | No piece contains `.`. |
| IdToken.SplitTwoPieces | src/lib/auth/getUserFromIdToken.ts:4-5 | There are at least two pieces exactly when the token contains `.`. |
| IdToken.DecodeJwtPayload | src/lib/auth/getUserFromIdToken.ts:3-14 | `decodeJwtPayload`; `IdToken.NoSecondSegment`, `IdToken.UnparsablePayload` and `IdToken.OnlySecondSegment` prove that it gives `null` without a second segment or when that segment does not parse, and reads only the second segment. |
| IdToken.GetUserFromIdToken | src/lib/auth/getUserFromIdToken.ts:23-38 | `getUserFromIdToken`; `IdToken.FalsyPayload`, `IdToken.StringClaimsCopied`, `IdToken.NameWins`, `IdToken.NameFromGivenName`, `IdToken.FamilyNameAlone` and `IdToken.OnlyFourClaims` prove its claims, one by one. |
| IdToken.NoSecondSegment | src/lib/auth/getUserFromIdToken.ts:4-25 | A token without `.` gives `null`. |
| IdToken.UnparsablePayload | src/lib/auth/getUserFromIdToken.ts:7-13 | A second segment that does not parse gives `null`. |
| IdToken.OnlySecondSegment | src/lib/auth/getUserFromIdToken.ts:8-10 | Tokens with the same second segment give the same user, whatever their other segments. |
| IdToken.StringClaimsCopied | src/lib/auth/getUserFromIdToken.ts:28-36 | `sub`, `email` and `picture` are copied exactly when they are strings. |
| IdToken.NameWins | src/lib/auth/getUserFromIdToken.ts:30-32 | A string `name` claim is the name. |
| IdToken.NameFromGivenName | src/lib/auth/getUserFromIdToken.ts:33-34 | Otherwise a string `given_name` is the name, followed by `" " + family_name` exactly when that is a string. |
| IdToken.FamilyNameAlone | src/lib/auth/getUserFromIdToken.ts:30-35 | Without string `name` and `given_name` claims there is no name. |
| IdToken.OnlyFourClaims | src/lib/auth/getUserFromIdToken.ts:27-37 | Payloads that agree on the six claims read give the same user; every other claim is dropped. |
| IdToken.FalsyPayload | src/lib/auth/getUserFromIdToken.ts:24-25 | A parsed payload gives a user exactly when it is truthy. |
| Backend.NewApiError | src/lib/api/backend.ts:3-11 | An `ApiError` keeps the status and body, and its message is `API Error ` followed by the status. |
| Backend.BackendFetch | src/lib/api/backend.ts:13-35 | `backendFetchJSON` with the reply as a parameter; `Backend.MissingBaseThrows`, `Backend.RequestShape` and `Backend.ReplyClassified` prove that it throws before any request without a base URL, sends the bearer token and JSON headers to `base + path`, and returns the decoded body on 2xx and an `ApiError` with it otherwise. |
| Backend.SafeJson | src/lib/api/backend.ts:37-43 | `safeJson`; `Backend.DecodeCases` proves that an empty body reads as `null`, a text that parses as its parse, and any other text as itself. |
| Backend.MissingBaseThrows | src/lib/api/backend.ts:17-18 | Without `API_BASE_URL` the client throws before any request is sent. |
| Backend.RequestShape | src/lib/api/backend.ts:20-28 | The request goes to base+path, with `GET` and `no-store` unless overridden. It has a bearer header exactly for a non-empty token and always the JSON content type. A body is sent exactly when the caller's body is truthy. |
| Backend.DecodeCases | src/lib/api/backend.ts:30-43 | Empty text decodes to `null`; other text decodes to its parse, or to the text itself when it does not parse. |
| Backend.ReplyClassified | src/lib/api/backend.ts:33-34 | A non-ok reply throws an `ApiError` with the reply's status and decoded body; an ok reply returns the decoded body. |
| Backend.ApiErrorMessage | src/lib/api/backend.ts:7 | The message reads `API Error <status>` in decimal. |
| Routes.GoalValidatesFirst | app/api/reading/goal/route.ts:11-20 | Pages that are not finite or not in 1-999 get 422 `Invalid pages`, signed in or not, and the backend is not called. |
| Routes.GoalNeedsToken | app/api/reading/goal/route.ts:18-20 | Valid pages without an `id_token` get 401, and the backend is not called. |
| Routes.GoalCall | app/api/reading/goal/route.ts:22-38 | The backend gets `PUT /v1/reading/goal` with the token and `{ pages }`. `null` data becomes `{ ok: true }` and other data passes through with 200. An `ApiError` keeps its status with `details`; any other failure gives 500. |
| Routes.GoalPagesExamples | app/api/reading/goal/route.ts:12-16 | A `pages` number from 1 to 999 is accepted; `null`, a missing field or non-numeric text is not. |
| Routes.ReadingGoal | app/api/reading/goal/route.ts:7-40 | `PUT /api/reading/goal`; `Routes.GoalValidatesFirst`, `Routes.GoalNeedsToken` and `Routes.GoalCall` prove that it answers 422 for pages outside [1, 999] before looking at the token, 401 without a token, and otherwise relays the backend reply. |
| Routes.RelayCases | app/api/reading/progress/route.ts:22-27 | Data goes out with 200. An `ApiError` keeps its status and body, with the fallback when the body is `null`; anything else gives 500. |
| Routes.Relay | app/api/reading/progress/route.ts:22-28 | The reply both read routes send; `Routes.RelayCases` proves that data is sent with 200, an `ApiError` with its status and body or the fallback, and any other failure as 500. |
| Routes.ReadingProgress | app/api/reading/progress/route.ts:7-29 | `GET /api/reading/progress`; `Routes.ProgressNeedsToken` and `Routes.ProgressCall` prove 401 without a token, and otherwise one GET of `/v1/reading/progress` with the bearer token, relayed with the fallback `Upstream error`. |
| Routes.ProgressNeedsToken | app/api/reading/progress/route.ts:11-13 | Without an `id_token` the answer is 401 `Not authenticated` and the backend is not called. |
| Routes.ProgressCall | app/api/reading/progress/route.ts:15-27 | With a token, the route sends `GET /v1/reading/progress` with it as bearer and relays the outcome, with fallback `Upstream error`. |
| Routes.MeNeedsToken | app/api/me/route.ts:9-11 | Without an `id_token` the answer is 401 `unauthorized` and the backend is not called. |
| Routes.MeCall | app/api/me/route.ts:13-20 | With a token, the route sends `GET /v1/me` with it as bearer and relays the outcome, with fallbacks `upstream_error` and `unknown_error`. |
| Routes.Me | app/api/me/route.ts:5-22 | `GET /api/me`; `Routes.MeNeedsToken` and `Routes.MeCall` prove 401 `unauthorized` without a token, and otherwise one GET of `/v1/me` with the bearer token, relayed. |
| Routes.LoaderNeedsToken | src/lib/api/reading.server.ts:11-13 | Without an `id_token` the loader throws `Not authenticated` before any backend call. |
| Routes.GetReadingProgressServer | src/lib/api/reading.server.ts:7-22 | `getReadingProgressServer`; `Routes.LoaderNeedsToken` and `Routes.LoaderProjects` prove what each outcome is. |
| Routes.LoaderProjects | src/lib/api/reading.server.ts:15-21 | With a token the loader makes the progress route's request. Backend failures propagate; a `null` reply (an empty body) fails reading `progress`; any other reply gives its `progress` field, `undefined` for a non-object or a missing field. |
| UserContext.UserSession.constructor | src/contexts/user/UserContext.tsx:19-21 | The session starts with the initial user, `ready` exactly when that user is non-null (else `idle`), and no error. |
| UserContext.UserSession.SetMe | src/contexts/user/UserContext.tsx:46 | `setMe`, the state setter passed in the context value (typed at line 13), replaces the user and nothing else. |
| UserContext.UserSession.StartRefresh | src/contexts/user/UserContext.tsx:24-25 | `refresh` first moves to `loading` and clears the error, keeping the user. |
| UserContext.UserSession.FinishRefresh | src/contexts/user/UserContext.tsx:27-43 | After the request, the state is the settled state of the reply. |
| UserContext.Settle | src/contexts/user/UserContext.tsx:27-43 | How a `refresh` settles on its reply; `UserContext.UnauthorizedSignsOut`, `UserContext.OtherStatusStoresBody` and `UserContext.ThrowKeepsUser` prove that a 401 signs the user out with `unauthorized`, any other status stores the parsed body, and a throw keeps the user and records the message. |
| UserContext.UserSession.Refresh | src/contexts/user/UserContext.tsx:23-44 | A whole `refresh` ends in the state `AfterRefresh` gives. |
| UserContext.UseUser | src/contexts/user/UserContext.tsx:51-54 | `useUser`: the context inside a provider, and outside one the error `useUser must be used within <UserProvider />`. No property beyond this definition is proved. |
| UserContext.UnauthorizedSignsOut | src/contexts/user/UserContext.tsx:30-35 | A 401 signs the user out, sets `ready` and reports `unauthorized`, whatever the old user. |
| UserContext.OtherStatusStoresBody | src/contexts/user/UserContext.tsx:37-39 | Any other status stores the parsed body as the user, `ready` and without error, even when not 2xx. |
| UserContext.ThrowKeepsUser | src/contexts/user/UserContext.tsx:40-43 | A throw keeps the user and sets `error` with the message, or `unknown_error`. |
| UserContext.RefreshSettles | src/contexts/user/UserContext.tsx:23-44 | `refresh` never ends in `loading`. It ends `ready` exactly when nothing was thrown, and then has an error exactly for a 401. |
| LoginPanel.EmailValidIffConditions | app/login/LoginPanel.tsx:7-9 | The regular expression matches exactly when there is no white space, exactly one `@` with a non-empty part before it, and a `.` after it that is neither the first nor the last character of the domain. |
| LoginPanel.IsValidEmail | app/login/LoginPanel.tsx:7-9 | The e-mail pattern; `LoginPanel.EmailValidIffConditions` proves that it matches exactly when there is no white space, one `@` with a non-empty part before it, and a `.` after it that is neither the first nor the last character of the domain. |
| LoginPanel.NormalizedShape | app/login/LoginPanel.tsx:32 | The normalized e-mail is never longer than the field, is empty exactly when the field is blank, and holds no ASCII capital. |
| LoginPanel.Normalized | app/login/LoginPanel.tsx:32 | `email.trim().toLowerCase()`; `LoginPanel.NormalizedShape` proves that it is never longer than the field, empty exactly when the field is blank, and free of ASCII capitals. |
| LoginPanel.ConcatLength | app/login/LoginPanel.tsx:19 | Slots of at most one character join to at most one character per slot, and exactly that many when none is empty. |
| LoginPanel.CanSubmitIffAllFilled | app/login/LoginPanel.tsx:19-20 | For six valid slots the code can be submitted exactly when every slot is filled. |
| LoginPanel.CanSubmitOtp | app/login/LoginPanel.tsx:19-20 | `canSubmitOtp`; `LoginPanel.CanSubmitIffAllFilled` proves that it holds exactly when all six slots hold a digit. |
| LoginPanel.LastDigit | app/login/LoginPanel.tsx:61 | The slot value is the last ASCII digit of the input, or `''` when it has none. |
| LoginPanel.PastedDigits | app/login/LoginPanel.tsx:96 | A paste keeps the input's digits, in order, and at most six of them. |
| LoginPanel.PasteRoundTrip | app/login/LoginPanel.tsx:100-105 | The six slots after a paste join back to exactly the kept digits. |
| LoginPanel.PasteSlots | app/login/LoginPanel.tsx:100-105 | The slots a paste writes; `LoginPanel.PasteRoundTrip` and `LoginPanel.PasteOfSixFills` prove that they read back as the pasted digits and that six digits fill every slot. |
| LoginPanel.PasteOfSixFills | app/login/LoginPanel.tsx:96-105 | A paste with at least six digits makes the code ready to submit. |
| LoginPanel.FillSlots | app/login/LoginPanel.tsx:103-105 | The `for` loop gives six slots: slot `i` holds the `i`-th kept digit, or `''` past the end. |
| LoginPanel.Panel.constructor | app/login/LoginPanel.tsx:12-16 | The panel starts on the e-mail step with an empty field and six empty slots. |
| LoginPanel.Panel.SetEmail | app/login/LoginPanel.tsx:156 | Typing keeps the value exactly as typed. |
| LoginPanel.Panel.SendLink | app/login/LoginPanel.tsx:30-46 | An e-mail that fails the test once normalized changes nothing; a valid one empties the six slots and moves to the code step. |
| LoginPanel.Panel.EnterCodeStep | app/login/LoginPanel.tsx:41-44 | The accepted branch of `onSendLink`: it moves to the code step with six empty slots and not loading, and keeps the panel valid. |
| LoginPanel.Panel.SetDigit | app/login/LoginPanel.tsx:60-66 | Slot `index` becomes the last digit of the input, or `''`; no other slot changes and there stay six. |
| LoginPanel.Panel.Backspace | app/login/LoginPanel.tsx:71-90 | On a filled slot only that slot is cleared. On an empty slot after the first, only the one before is cleared. On the empty first slot nothing changes. |
| LoginPanel.Panel.Paste | app/login/LoginPanel.tsx:95-106 | A paste without digits changes nothing; otherwise the six slots take the first six digits, padded with `''`. |
| LoginPanel.Panel.ClearOtp | app/login/LoginPanel.tsx:223-226 | The "Limpar" button empties every slot and keeps the step. |
| LoginPanel.Panel.GoBackToEmail | app/login/LoginPanel.tsx:111-114 | Back to the e-mail step with every slot emptied. |
| Header.GetInitials | src/components/Header.tsx:8-18 | The initials are never empty and have at most two characters. |
| Header.InitialsOfBlank | src/components/Header.tsx:9-10 | An empty or blank input gives `—`. |
| Header.InitialsOfEmail | src/components/Header.tsx:12 | An input holding `@` gives its first non-space character, upper-cased. |
| Header.InitialsOfName | src/components/Header.tsx:14-17 | Otherwise: the first letter of the first word, then the first letter of the last word when there are two words or more, upper-cased. |
| Header.TextField | src/components/Header.tsx:24 | A user field is read only when it is a string; a missing user gives nothing. |
| Header.DisplayNameFallback | src/components/Header.tsx:24 | Only a missing `displayName` falls back, first to the e-mail and then to `—`; an empty name is kept. |
| Header.DisplayName | src/components/Header.tsx:24 | `me?.displayName ?? me?.email ?? '—'`; `Header.DisplayNameFallback` proves that only a missing `displayName` falls back, first to the e-mail and then to `—`. |
| Avatar.Initial | src/components/ui/Avatar.tsx:2 | The initial is exactly one character. |
| Avatar.BlankName | src/components/ui/Avatar.tsx:2 | A blank name gives `?`. |
| Avatar.FirstVisibleCharacter | src/components/ui/Avatar.tsx:2 | Otherwise the initial is the first non-space character, upper-cased; leading white space never becomes it. |
| JsText.TrimEmptyIffAllSpace | src/components/ui/Avatar.tsx:2 | The trimmed string is empty exactly when every character is white space. |
| JsText.TrimFirst | src/components/Header.tsx:9 | A non-empty trim starts with the first non-space character and has no space at either end. |
| JsText.TrimIdempotent | src/components/Header.tsx:9 | Trimming twice is trimming once. |
| JsText.Trim | src/components/Header.tsx:9 | `String.prototype.trim`; `JsText.TrimEmptyIffAllSpace`, `JsText.TrimFirst` and `JsText.TrimIdempotent` prove that it is empty exactly for blank text, starts at the first non-space character and changes nothing when applied again. |
| JsText.Words | src/components/Header.tsx:14 | `split(/\s+/).filter(Boolean)` gives non-empty words with no white space. |
| JsText.DecimalRoundTrip | src/components/feed/GroupsPanel.tsx:149 | The decimal text of a count reads back as that count. |
| PageInput.Clamp | src/components/feed/RegisterReadingModal.tsx:68 | `clamp` maps every number except `NaN` into [1, 999], keeps numbers already there, and leaves `NaN` as `NaN`. |
| PageInput.ClampIdempotent | src/components/feed/ChangeGoalModal.tsx:59 | Clamping twice is clamping once. |
| PageInput.OrElse | src/components/feed/RegisterReadingModal.tsx:72 | `x || fallback` on a number; `RegisterReading.Delta` and `ChangeGoal.NewGoal` prove that a `0` or `NaN` stepper falls back, 1 page or the current goal, while an in-range value is sent as it is. |
| PageInput.StepStaysInRange | src/components/feed/RegisterReadingModal.tsx:135-157 | The `-`/`+` buttons keep an in-range value in range, moving it by one unless at a bound. |
| PageInput.Typed | src/components/feed/RegisterReadingModal.tsx:150 | A typed value is in range unless `Number` reads `NaN`, which is then kept. |
| Json.StringToNumber | app/api/reading/goal/route.ts:12 | `Number(text)` of blank text, empty or white space only, is 0. |
| Json.ToNumber | app/api/reading/goal/route.ts:12 | `Number(x)` on a JSON value; `Json.StringToNumber`, `Json.NumberOfDigits` and `Json.SingletonArrayNumber` prove that blank text is 0, a run of digits reads as its value, and a one-element array holding no boolean converts like its element. |
| Json.NumberOfDigits | app/api/reading/goal/route.ts:12 | A run of decimal digits reads as its value. |
| Json.SingletonArrayNumber | app/api/reading/goal/route.ts:12 | A one-element array holding anything but a boolean converts like its element. |
| RegisterReading.Remaining | src/components/feed/RegisterReadingModal.tsx:30-33 | `remaining` is `null` exactly when the goal is at most 0; otherwise it is max(0, goal − today). |
| RegisterReading.QuickOptionsSpec | src/components/feed/RegisterReadingModal.tsx:35-39 | The options ascend strictly and are exactly 1, 5, 10, plus `remaining` when it is above 0. |
| RegisterReading.QuickOptions | src/components/feed/RegisterReadingModal.tsx:35-39 | `quickOptions`; `RegisterReading.QuickOptionsSpec` proves that it ascends strictly and holds exactly `1`, `5`, `10` and the remaining pages when above 0. |
| RegisterReading.Delta | src/components/feed/RegisterReadingModal.tsx:72 | The delta sent is in [1, 999], equals the pages when they are in range, and is 1 for `0` or `NaN`. |
| RegisterReading.QuickPickAboveMax | src/components/feed/RegisterReadingModal.tsx:170 | A quick pick above 999 is shown as it is but sends 999, the clamp of line 72. |
| RegisterReading.Modal.constructor | src/components/feed/RegisterReadingModal.tsx:20-26 | The modal starts closed, at 1 page, not submitting, without an error. |
| RegisterReading.Modal.SetOpen | src/components/feed/RegisterReadingModal.tsx:41-46 | Opening resets the count to 1 and clears the error; otherwise nothing but `open` changes. Only `open`, the count and the error are in its frame, so the props are kept. |
| RegisterReading.Modal.SetProps | src/components/feed/RegisterReadingModal.tsx:30-39 | New `todayPages` and `goalPages` props (passed again by StreakHero.tsx:165-168) change only those two fields; the quick options are then exactly 1, 5, 10 and, with a positive goal, the new remaining pages when above 0. |
| RegisterReading.Modal.Step | src/components/feed/RegisterReadingModal.tsx:134-157 | The stepper is disabled while submitting; otherwise the count becomes clamp(count ∓ 1) and stays holdable. Only the count is in its frame. |
| RegisterReading.Modal.TypeValue | src/components/feed/RegisterReadingModal.tsx:150 | Typing is ignored while submitting; otherwise the count becomes clamp(Number(text)). |
| RegisterReading.Modal.Pick | src/components/feed/RegisterReadingModal.tsx:170-180 | A quick pick sets the count, except while submitting. Only the count is in its frame, so the quick options stay the same. |
| RegisterReading.Modal.StartSubmit | src/components/feed/RegisterReadingModal.tsx:70-75 | Nothing is sent while submitting; otherwise the delta is sent once, submitting starts and the error is cleared. Only `submitting` and the error are in its frame. |
| RegisterReading.Modal.FinishSubmit | src/components/feed/RegisterReadingModal.tsx:77-85 | `onClose` is called exactly on success. A failure stores the message, or the fallback text, and keeps the modal open. Submitting always ends. Only `submitting` and the error are in its frame. |
| RegisterReading.Modal.RequestClose | src/components/feed/RegisterReadingModal.tsx:52-53 | Escape, and the backdrop of lines 96-98, call `onClose` only while not submitting. |
| ChangeGoal.NewGoal | src/components/feed/ChangeGoalModal.tsx:63 | The new goal is in [1, 999], equals the stepper's value when in range, and is the clamped current goal for `0` or `NaN`. |
| ChangeGoal.ConfirmDisabled | src/components/feed/ChangeGoalModal.tsx:187 | The confirm button's `disabled`; `ChangeGoal.ConfirmMatchesSubmit` proves that for an in-range stepper it is enabled exactly when a submit would send a new goal. |
| ChangeGoal.ConfirmMatchesSubmit | src/components/feed/ChangeGoalModal.tsx:63-68 | For a current goal in [1, 999] and an in-range stepper value, the confirm button (disabled at line 187) is enabled exactly when a submit would send a request. |
| ChangeGoal.Modal.constructor | src/components/feed/ChangeGoalModal.tsx:24-27 | The modal starts closed at the current goal, not submitting and without an error. |
| ChangeGoal.Modal.SetProps | src/components/feed/ChangeGoalModal.tsx:32-37 | While open, a change of `open` or `currentGoal` resets the stepper to the current goal and clears the error. |
| ChangeGoal.Modal.Step | src/components/feed/ChangeGoalModal.tsx:126-148 | The stepper is disabled while submitting; otherwise the goal becomes clamp(goal ∓ 1). |
| ChangeGoal.Modal.TypeValue | src/components/feed/ChangeGoalModal.tsx:141 | Typing is ignored while submitting; otherwise the goal becomes clamp(Number(text)). |
| ChangeGoal.Modal.Pick | src/components/feed/ChangeGoalModal.tsx:157-161 | A preset (10, 20, 30 or 50) sets the goal, except while submitting. |
| ChangeGoal.Modal.StartSubmit | src/components/feed/ChangeGoalModal.tsx:61-71 | Nothing happens while submitting. An unchanged goal calls only `onClose` and changes no state. Otherwise the new goal is sent once, submitting starts and the error is cleared. |
| ChangeGoal.Modal.FinishSubmit | src/components/feed/ChangeGoalModal.tsx:73-81 | `onClose` is called exactly on success. A failure stores the message or the fallback. Submitting always ends. |
| ChangeGoal.Modal.RequestClose | src/components/feed/ChangeGoalModal.tsx:42-45 | Escape, and the backdrop of lines 92-95, call `onClose` only while not submitting. |
| StreakHero.RegisterLabelByPages | src/components/feed/StreakHero.tsx:148 | The button offers to add pages exactly when pages are already logged today (`isCheckedToday`, line 61). |
| StreakHero.RegisterLabel | src/components/feed/StreakHero.tsx:148 | The register button's label; `StreakHero.RegisterLabelByPages` proves that it offers to add pages exactly when pages are already logged today. |
| StreakHero.ChangedGoalAnnounced | src/components/feed/StreakHero.tsx:63-66 | A positive next goal that differs from today's goal is announced. |
| StreakHero.SameGoalNotAnnounced | src/components/feed/StreakHero.tsx:63-66 | Without a next goal, or with a next goal of 0 or equal to today's, nothing is announced. |
| StreakHero.ShouldShowNextGoal | src/components/feed/StreakHero.tsx:63-66 | `shouldShowNextGoal`; `StreakHero.ChangedGoalAnnounced` and `StreakHero.SameGoalNotAnnounced` prove that a next goal of at least one page that differs from today's is announced, and none, 0 or today's goal is not. |
| StreakHero.CalendarWeek | src/components/feed/StreakHero.tsx:137 | The calendar gets one day per snapshot day. |
| StreakHero.CalendarShowsWeek | src/components/feed/StreakHero.tsx:137 | With a seven-day week, the calendar checks exactly the days the snapshot marks. |
| StreakHero.Hero.constructor | src/components/feed/StreakHero.tsx:32-40 | The component starts with the props' snapshot and next goal, no request in flight, and every modal and the toast closed. |
| StreakHero.Hero.SyncProgress | src/components/feed/StreakHero.tsx:43-45 | A new `progress` prop replaces the snapshot. |
| StreakHero.Hero.SyncNextGoal | src/components/feed/StreakHero.tsx:47-51 | A new `nextGoal` prop applies only when it is defined. |
| StreakHero.Hero.OpenRegister | src/components/feed/StreakHero.tsx:144-145 | The register button opens its modal only while no request is in flight. |
| StreakHero.Hero.OpenChangeGoal | src/components/feed/StreakHero.tsx:154-155 | The change-goal button opens its modal only while no request is in flight. |
| StreakHero.Hero.CloseRegister | src/components/feed/StreakHero.tsx:169-171 | The register modal closes only while no request is in flight. |
| StreakHero.Hero.CloseChangeGoal | src/components/feed/StreakHero.tsx:178-180 | The change-goal modal closes only while no request is in flight. |
| StreakHero.Hero.HideToast | src/components/feed/StreakHero.tsx:184 | The toast's `onClose` hides it. |
| StreakHero.Hero.StartRequest | src/components/feed/StreakHero.tsx:69-81 | Both handlers mark a request in flight before awaiting. |
| StreakHero.Hero.FinishPost | src/components/feed/StreakHero.tsx:68-78 | A reply replaces the snapshot and the next goal only by the parts it has, closes the register modal and resolves. A throw changes neither and rejects. The request always ends. |
| StreakHero.Hero.FinishPut | src/components/feed/StreakHero.tsx:80-93 | A reply sets the next goal, shows the toast, closes the goal modal and resolves. A throw changes none of them and rejects. The request always ends. |
| CreateGroup.InitialData | src/components/feed/create-group/CreateGroupModal.tsx:36-42 | The initial wizard data; `CreateGroup.InitialCannotContinue` proves that a fresh or reset wizard cannot leave the identity step until a name is typed. |
| CreateGroup.Merge | src/components/feed/create-group/CreateGroupModal.tsx:44 | `{ ...prev, ...patch }`; `CreateGroup.MergeNothing`, `CreateGroup.MergeIdempotent` and `CreateGroup.MergeThen` prove that an empty patch changes nothing, a repeated patch acts once, and two patches act as their combination in which the later wins. |
| CreateGroup.MergeNothing | src/components/feed/create-group/CreateGroupModal.tsx:44 | An empty patch changes nothing. |
| CreateGroup.MergeIdempotent | src/components/feed/create-group/CreateGroupModal.tsx:44 | Applying a patch twice is applying it once. |
| CreateGroup.MergeThen | src/components/feed/create-group/CreateGroupModal.tsx:44 | Two updates in a row are one update by the combined patch, in which the later one wins. |
| CreateGroup.CanContinueIff | src/components/feed/create-group/CreateGroupModal.tsx:76 | The identity step can be left exactly when the name has a non-space character and an icon is chosen. |
| CreateGroup.InitialCannotContinue | src/components/feed/create-group/CreateGroupModal.tsx:36-76 | A fresh or reset wizard cannot leave the identity step. |
| CreateGroup.Wizard.constructor | src/components/feed/create-group/CreateGroupModal.tsx:32-42 | The wizard starts on the identity step with the initial data, not submitting, the toast hidden. |
| CreateGroup.Wizard.SetOpen | src/components/feed/create-group/CreateGroupModal.tsx:48-58 | Closing resets the step and the data; `submitting` is left as it is. |
| CreateGroup.Wizard.Update | src/components/feed/create-group/CreateGroupModal.tsx:44 | `updateData` merges the patch into the data and changes nothing else. |
| CreateGroup.Wizard.ContinueIdentity | src/components/feed/create-group/CreateGroupModal.tsx:78-81 | "Continuar" moves to the season step only when `canContinueIdentity` holds; otherwise nothing changes. |
| CreateGroup.Wizard.Back | src/components/feed/create-group/CreateGroupModal.tsx:153 | "Voltar" returns to the identity step. |
| CreateGroup.Wizard.SubmitForm | src/components/feed/create-group/CreateGroupModal.tsx:83-96 | Nothing happens while submitting. Otherwise submitting starts and the toast shows. `onSubmit`, when given, receives the current data once, and the 500 ms timer starts. |
| CreateGroup.Wizard.SubmitTimerFires | src/components/feed/create-group/CreateGroupModal.tsx:92-95 | The timer ends submitting and calls `onClose`; a dialog already closed is reset as at lines 48-58. |
| CreateGroup.Wizard.HideToast | src/components/feed/create-group/CreateGroupModal.tsx:98-102 | The toast's timer, or its close button at line 170, hides it. |
| CreateGroup.Wizard.RequestClose | src/components/feed/create-group/CreateGroupModal.tsx:61-64 | Escape, the backdrop (lines 112-115) and the X (lines 130-131) call `onClose` only on an open dialog that is not submitting. |
| LegacyCreateGroup.InitialData | src/components/feed/CreateGroupModal.tsx:42-48 | The initial wizard data; `LegacyCreateGroup.InitialAllowed` proves that it is within the allowed icons and durations and cannot leave the identity step. |
| LegacyCreateGroup.CanContinueOnName | src/components/feed/CreateGroupModal.tsx:80 | With an allowed icon, the identity step can be left exactly when the name has a non-space character. |
| LegacyCreateGroup.InitialAllowed | src/components/feed/CreateGroupModal.tsx:42-80 | The initial data uses a listed icon and duration, and cannot leave the identity step until a name is typed. |
| LegacyCreateGroup.Wizard.constructor | src/components/feed/CreateGroupModal.tsx:38-48 | The wizard starts on the identity step with the initial data, not submitting, the toast hidden. |
| LegacyCreateGroup.Wizard.SetOpen | src/components/feed/CreateGroupModal.tsx:52-62 | Closing resets the step and the data; `submitting` is left as it is. |
| LegacyCreateGroup.Wizard.SetName | src/components/feed/CreateGroupModal.tsx:119-120 | Typing replaces only the name, except while submitting. |
| LegacyCreateGroup.Wizard.PickIcon | src/components/feed/CreateGroupModal.tsx:134-135 | Choosing a seed replaces only the icon, except while submitting. |
| LegacyCreateGroup.Wizard.SetInviteOnly | src/components/feed/CreateGroupModal.tsx:158-161 | The toggle replaces only the type (on is `invite_only`, off is `public`), even while submitting. |
| LegacyCreateGroup.Wizard.SetSeasonName | src/components/feed/CreateGroupModal.tsx:189-190 | Typing replaces only the season name, except while submitting. |
| LegacyCreateGroup.Wizard.PickDuration | src/components/feed/CreateGroupModal.tsx:198-202 | Choosing 7, 14 or 30 days replaces only the duration, except while submitting. |
| LegacyCreateGroup.Wizard.ContinueIdentity | src/components/feed/CreateGroupModal.tsx:82-85 | "Continuar" (its button at lines 172-173) moves to the season step only when not submitting and `canContinueIdentity` holds. |
| LegacyCreateGroup.Wizard.Back | src/components/feed/CreateGroupModal.tsx:257-258 | "Voltar" returns to the identity step, except while submitting. |
| LegacyCreateGroup.Wizard.SubmitForm | src/components/feed/CreateGroupModal.tsx:87-101 | Nothing happens while submitting. Otherwise submitting starts and the toast shows. `onSubmit`, when given, receives the current data once, and the 500 ms timer starts. |
| LegacyCreateGroup.Wizard.SubmitTimerFires | src/components/feed/CreateGroupModal.tsx:96-99 | The timer ends submitting and calls `onClose`; a dialog already closed is reset as at lines 52-62. |
| LegacyCreateGroup.Wizard.HideToast | src/components/feed/CreateGroupModal.tsx:103-107 | The toast's timer or its close button hides it. |
| LegacyCreateGroup.Wizard.RequestClose | src/components/feed/CreateGroupModal.tsx:65-68 | Escape, the backdrop (lines 282-285) and the X (lines 301-302) call `onClose` only on an open dialog that is not submitting. |
| GroupsPanel.Members | src/components/feed/GroupsPanel.tsx:89 | The members pill; `GroupsPanel.MembersWithoutCount` proves that without `membersCount` it counts exactly the avatars shown plus the `+n` badge. |
| GroupsPanel.NonNegative | src/components/feed/GroupsPanel.tsx:90-91 | `Math.max(0, x ?? 0)` is the larger of 0 and the count: never negative, at least the count, and either 0 or the count itself. |
| GroupsPanel.AvatarsAccounted | src/components/feed/GroupsPanel.tsx:94-95 | The first min(3, n) avatars are shown. Shown plus the `+n` badge covers every avatar, and the badge appears exactly past three. |
| GroupsPanel.ProgressLabelReadsBack | src/components/feed/GroupsPanel.tsx:149 | The label is `today / goal` when the goal is above 0, else just `today`; both counts read back from it. |
| GroupsPanel.CircleText | src/components/feed/GroupsPanel.tsx:62 | An initial-type avatar shows its trimmed first character upper-cased, or `?`; image avatars show no text. |
| GroupsPanel.SliceEnd | src/components/feed/GroupsPanel.tsx:180 | `slice(0, end)` never takes more elements than there are. |
| GroupsPanel.PreviewIsPrefix | src/components/feed/GroupsPanel.tsx:176-180 | `GroupsPanel.Preview` is the first `maxPreview` groups in order (all when fewer), two by default. |
| GroupsPanel.Preview | src/components/feed/GroupsPanel.tsx:180 | `groups.slice(0, maxPreview)`; `GroupsPanel.PreviewIsPrefix` proves that it is the first `maxPreview` groups in order. |
| MiniCalendar.Days | src/components/ui/MiniCalendar.tsx:25-27 | A seven-day week gives its own flags; any other week gives `i < checkedDays` per label. |
| MiniCalendar.Cells | src/components/ui/MiniCalendar.tsx:21-33 | There is one cell per label, seven by default. |
| MiniCalendar.WeekDecides | src/components/ui/MiniCalendar.tsx:25-33 | A seven-day week decides each cell it covers; cells past the seventh are unchecked. |
| MiniCalendar.CountDecides | src/components/ui/MiniCalendar.tsx:21-27 | Without a seven-day week, cell `i` is checked exactly when `i < checkedDays`, which defaults to 0. |
| MiniCalendar.DefaultStrip | src/components/ui/MiniCalendar.tsx:21-23 | Without any props there are seven cells, all unchecked. |
| Button.Kept | src/components/ui/Button.tsx:4 | `filter(Boolean)` keeps exactly the non-empty strings, in order. |
| Button.KeptCases | src/components/ui/Button.tsx:4 | A falsy argument is dropped, and a kept one comes first. |
| Button.SplitOfJoin | src/components/ui/Button.tsx:4 | Joining pieces that contain no space is undone by splitting at spaces. |
| Button.CnRoundTrip | src/components/ui/Button.tsx:3-5 | Class names without spaces come back out of the joined list one by one, in order, with the falsy ones gone. |
| Button.Cn | src/components/ui/Button.tsx:3-5 | `cn`; `Button.KeptCases` and `Button.CnRoundTrip` prove that falsy arguments are dropped and that class names without spaces come back out of the joined string one by one, in order. |
| Button.CnOfFour | src/components/ui/Button.tsx:42 | Three classes and an optional fourth join in that order. |
| Button.ButtonDefaults | src/components/ui/Button.tsx:37-42 | Without props the button is `secondary`, `md` and of type `button`. Classes come in the order base, variant, size, caller's, the last only when it is a non-empty string. |

## Left out

- The model follows the code in three behaviours. `otp/start` stores the e-mail exactly as received, without trimming or lower-casing. The Google callback clears the handshake cookies only on its success path; its failure branches return first and leave them. `otp/verify` clears `otp_session` and `otp_email` only on success; its 401 branch (app/api/auth/otp/verify/route.ts:45-47) returns before the clearing at lines 78-79.
- I/O is outside the model: `fetch`, the Cognito SDK client, `client.send`, `cookies()`, `NextResponse`, `redirect`. Their results are parameters, and a throw from them propagates. The region and client set-up of the SDK are not modelled.
- `JSON.parse` and `JSON.stringify` are library calls: a parse result is a parameter.
- SHA-256 is a parameter function whose output is 32 bytes. The random bytes are parameters of the right length. Node's own base64url decoder (used on the ID token) is a parameter as well.
- Environment values (`APP_URL`, `COGNITO_DOMAIN`, `COGNITO_CLIENT_ID`, `NODE_ENV`, `API_BASE_URL`) are parameters. Only `API_BASE_URL` is checked by the code, and only that check is modelled.
- Typed casts such as `as { code?: string }` are taken at face value: a body field that is truthy but not a string is not modelled. A JSON `null` body, on which destructuring throws, is modelled as a crash (`Cognito.NullBody`, and `Callback.JsonNull` for the token reply).
- Request cookie stores (`cookies()`, `req.cookies`) are an already-parsed map. Only the callback's own header lookup is modelled on the header text.
- The status code of a redirect (307 for `NextResponse.redirect`, the framework's choice for `redirect`) is not modelled; only the target is.
- Numbers are exact rationals. IEEE rounding, `Infinity` arithmetic and the percentage displays (`pct` in StreakHero and GroupsPanel, `ProgressBar`) are left out. Page counts in GroupsPanel and StreakHero are integers.
- `toUpperCase` and `toLowerCase` act on ASCII letters only. Other characters are kept as they are.
- Header.GetInitials, Avatar.Initial and GroupsPanel.CircleText take a first character as a whole Unicode code point, because a Dafny string is a sequence of code points. JavaScript indexes UTF-16 code units: for a name that starts with a character outside the Basic Multilingual Plane, such as an emoji, `s[0]` and `parts[0]?.[0]` (src/components/Header.tsx:12-16) and `name.trim()[0]` (src/components/ui/Avatar.tsx:2) give half of a surrogate pair, and the model does not.
- Uri.EncodeURIComponent never throws: a Dafny string cannot hold the lone surrogate on which `encodeURIComponent` throws a `URIError`.
- Rendering, Tailwind class texts, portals, focus movement, `document.body.style.overflow` and listener registration are left out. Button's class texts are a `Styles` parameter.
- Timers (the 500 ms submit timer, the toast's 3600 ms, `requestAnimationFrame`, the 120 ms focus delay) are events (`SubmitTimerFires`, `HideToast`), not time.
- React batches state updates and handlers can see stale closures; these are not modelled: each setter is an assignment made in order.
- `onVerifyOtp` in LoginPanel only logs to the console and is not modelled, and neither is its setting and resetting of `loading` (app/login/LoginPanel.tsx:52-56). `loading` is modelled for `onSendLink`.
- StreakHero's `console.log` and its toast text built with `toLocaleDateString` are left out.
- The modals' `keydown` listeners are not modelled as listeners. Escape is the `RequestClose` method. The Enter key is left out: the listener effect depends only on `open` and `submitting` (src/components/feed/RegisterReadingModal.tsx:48-66, src/components/feed/ChangeGoalModal.tsx:39-57), so Enter runs the `handleSubmit` captured in the render where one of them last changed. When the dialog has just opened, that render still holds the count from before the reset (1 on the first opening, otherwise the previous opening's), so Enter can send a count the stepper no longer shows; in ChangeGoalModal the captured `goal` and `currentGoal` can also turn a changed goal into the "unchanged, only `onClose`" branch. RegisterReading.Modal.StartSubmit and ChangeGoal.Modal.StartSubmit model the confirm button, which always reads the current state.
- The create-group step components (CreateGroupIdentityStep, CreateGroupSeasonStep) only forward patches to `updateData`. They are not modelled, and neither are their `disabled` flags. A patch that sets a required field to `undefined` is not modelled.
- LegacyCreateGroup.Wizard: the ranking field is the constant `daily_checkins` and its only button writes that same value, so the field and the button are left out.
- `src/lib/api/reading.ts` (the browser-side client of the reading routes) is not part of this model. The replies it hands to StreakHero are parameters.
- The Toast, Toggle, ProgressBar, StarsBackground, FeedSkeleton, PostCard, StreakSection and DiceBear avatar files are not part of this model: they are markup, animation or a third-party wrapper.
