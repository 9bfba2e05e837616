/**
 * `GET /auth/callback`: the redirection endpoint of the authorization code
 * flow (RFC 6749, section 4.1.2). It checks the provider's reply and the
 * state against the handshake cookies (the CSRF defence of RFC 6749,
 * section 10.12), exchanges the code with the PKCE verifier (RFC 6749,
 * section 4.1.3; RFC 7636, section 4.5) and stores the tokens in cookies.
 * The token endpoint's reply is a parameter of the model.
 */
module Callback {
  import opened Wrappers
  import opened Http
  import opened Handshake
  import opened UrlSearch
  import Uri
  import GoogleAuthorize

  // ---------------------------------------------------------------------------
  // The cookie-header lookup `getCookie`, over the raw `Cookie` header with the
  // pattern `(?:^|; )name=([^;]*)` and `decodeURIComponent` of the match.

  /** `name=` starts at `q`, and `q` is the start of the header or follows `"; "`. */
  predicate CookieAt(h: string, name: string, q: nat) {
    q + |name| + 1 <= |h| && h[q..q + |name| + 1] == name + "="
    && (q == 0 || (q >= 2 && h[q - 2..q] == "; "))
  }

  /** The leftmost position from `from` on where the pattern matches. */
  function FirstCookieAt(h: string, name: string, from: nat): (r: Option<nat>)
    ensures r.Some? ==> from <= r.value && r.value + |name| + 1 <= |h|
    decreases |h| - from
  {
    if from + |name| + 1 > |h| then None
    else if CookieAt(h, name, from) then Some(from)
    else FirstCookieAt(h, name, from + 1)
  }

  /** The search finds the leftmost match, and finds none only when there is none. */
  lemma {:induction false} FirstCookieAtLeftmost(h: string, name: string, from: nat)
    ensures var r := FirstCookieAt(h, name, from);
      (r.Some? ==> CookieAt(h, name, r.value) && forall p :: from <= p < r.value ==> !CookieAt(h, name, p))
      && (r.None? ==> forall p :: from <= p ==> !CookieAt(h, name, p))
    decreases |h| - from
  {
    if from + |name| + 1 <= |h| && !CookieAt(h, name, from) {
      FirstCookieAtLeftmost(h, name, from + 1);
    }
  }

  /** The end of a cookie value: the first `;` from `i` on, or the end of the header. */
  function ValueEnd(h: string, i: nat): (e: nat)
    requires i <= |h|
    ensures i <= e <= |h|
    decreases |h| - i
  {
    if i == |h| || h[i] == ';' then i else ValueEnd(h, i + 1)
  }

  /** The value runs up to, and not including, the first `;`. */
  lemma {:induction false} ValueEndFirstSemicolon(h: string, i: nat)
    requires i <= |h|
    ensures forall k :: i <= k < ValueEnd(h, i) ==> h[k] != ';'
    ensures ValueEnd(h, i) < |h| ==> h[ValueEnd(h, i)] == ';'
    decreases |h| - i
  {
    if i < |h| && h[i] != ';' {
      ValueEndFirstSemicolon(h, i + 1);
    }
  }

  /** The captured group `([^;]*)` of the first match, before decoding. */
  function RawCookie(h: string, name: string): Option<string> {
    match FirstCookieAt(h, name, 0)
    case None => None
    case Some(q) =>
      var i := q + |name| + 1;
      Some(h[i..ValueEnd(h, i)])
  }

  /** What `getCookie` does: no match gives `null`; a match is decoded, and a malformed escape throws. */
  datatype CookieLookup = NotFound | Found(value: string) | Malformed

  function GetCookie(h: string, name: string): CookieLookup {
    match RawCookie(h, name)
    case None => NotFound
    case Some(raw) =>
      match Uri.DecodeURIComponent(raw)
      case None => Malformed
      case Some(v) => Found(v)
  }

  /** `!value` on the result of `getCookie`: `null` and `""` both fail. */
  predicate Usable(c: CookieLookup) {
    c.Found? && c.value != []
  }

  // ---------------------------------------------------------------------------
  // Requests, replies and results.

  /** The callback request: the origin and decoded query of its URL, and its `Cookie` header, if any. */
  datatype CallbackRequest = CallbackRequest(origin: string, query: Pairs, cookieHeader: Option<string>)

  /** The fields of the token endpoint's JSON reply the handler reads (RFC 6749, section 5.1). */
  datatype TokenFields = TokenFields(
    accessToken: Option<string>, idToken: Option<string>, refreshToken: Option<string>, expiresIn: Option<int>)

  /** The body of an ok token reply: not JSON (`json()` throws), `null` (reading a field throws), or a value. */
  datatype TokenBody = NotJson | JsonNull | Fields(fields: TokenFields)

  /** The outcome of `fetch` to the token endpoint: a rejected promise, or a response. */
  datatype TokenReply = FetchFailed | TokenResponse(status: int, text: string, body: TokenBody)

  /** A form-encoded POST to the token endpoint. */
  datatype TokenRequest = TokenRequest(url: string, contentType: string, body: Pairs)

  /** What the handler returns, and the token request it made, if any. */
  datatype CallbackResult = CallbackResult(outcome: Outcome, cookies: seq<CookieWrite>, request: Option<TokenRequest>)

  const FormContentType: string := "application/x-www-form-urlencoded"

  /** The access token request of RFC 6749, section 4.1.3, with the verifier of RFC 7636, section 4.5. */
  function TokenParams(env: Env, code: string, verifier: string): Pairs {
    [("grant_type", "authorization_code"),
     ("client_id", env.clientId),
     ("code", code),
     ("redirect_uri", RedirectUri(env)),
     ("code_verifier", verifier)]
  }

  function TokenRequestFor(env: Env, code: string, verifier: string): TokenRequest {
    TokenRequest(TokenEndpoint(env), FormContentType, TokenParams(env, code, verifier))
  }

  /** A redirect to `/login` with a query, resolved against the request's origin. */
  function LoginRedirect(origin: string, query: string): Outcome {
    Redirect(RedirectUrl(origin, "/login", query))
  }

  function ErrorQuery(error: string, description: Option<string>): string {
    "error=" + Uri.EncodeURIComponent(error) + "&desc=" + Uri.EncodeURIComponent(description.GetOr(""))
  }

  function ExchangeFailedQuery(text: string): string {
    "error=token_exchange_failed&detail=" + Uri.EncodeURIComponent(text)
  }

  /** `expires_in ?? 3600`: the access and id token cookies live as long as the tokens. */
  function TokenMaxAge(t: TokenFields): int {
    t.expiresIn.GetOr(3600)
  }

  /** The token cookies, one for each token field that is a non-empty string. */
  function TokenCookies(env: Env, t: TokenFields): seq<CookieWrite> {
    (if Present(t.accessToken)
     then [CookieWrite("access_token", t.accessToken.value, SessionCookie(env.production, TokenMaxAge(t)))] else [])
    + (if Present(t.idToken)
       then [CookieWrite("id_token", t.idToken.value, SessionCookie(env.production, TokenMaxAge(t)))] else [])
    + (if Present(t.refreshToken)
       then [CookieWrite("refresh_token", t.refreshToken.value, SessionCookie(env.production, ThirtyDays))] else [])
  }

  /** Token cookies are named after the three tokens, never after a handshake cookie. */
  lemma TokenCookieNames(env: Env, t: TokenFields)
    ensures forall w :: w in TokenCookies(env, t) ==> w.name in ["access_token", "id_token", "refresh_token"]
    ensures Find(TokenCookies(env, t), "pkce_verifier").None? && Find(TokenCookies(env, t), "oauth_state").None?
  {
    var cs := TokenCookies(env, t);
    forall i | 0 <= i < |cs|
      ensures cs[i].name != "pkce_verifier" && cs[i].name != "oauth_state"
    {
      assert cs[i].name in ["access_token", "id_token", "refresh_token"];
    }
  }

  /** The deletion of both handshake cookies. */
  const HandshakeExpiry: seq<CookieWrite> :=
    [CookieWrite("pkce_verifier", "", Expired), CookieWrite("oauth_state", "", Expired)]

  /** The handler's branch chain, as a function of the request, the settings and the token reply. */
  function CallbackSpec(env: Env, req: CallbackRequest, reply: TokenReply): CallbackResult {
    var code, state := Get(req.query, "code"), Get(req.query, "state");
    var error, errorDesc := Get(req.query, "error"), Get(req.query, "error_description");
    if Present(error) then CallbackResult(LoginRedirect(req.origin, ErrorQuery(error.value, errorDesc)), [], None)
    else if !Present(code) || !Present(state) then
      CallbackResult(LoginRedirect(req.origin, "error=missing_code"), [], None)
    else
      var header := req.cookieHeader.GetOr("");
      var expectedState, codeVerifier := GetCookie(header, "oauth_state"), GetCookie(header, "pkce_verifier");
      if expectedState.Malformed? || codeVerifier.Malformed? then CallbackResult(Crashed, [], None)
      else if !Usable(expectedState) || expectedState.value != state.value || !Usable(codeVerifier) then
        CallbackResult(LoginRedirect(req.origin, "error=state_mismatch"), [], None)
      else
        var request := TokenRequestFor(env, code.value, codeVerifier.value);
        match reply
        case FetchFailed => CallbackResult(Crashed, [], Some(request))
        case TokenResponse(status, text, body) =>
          if !IsOk(status) then
            CallbackResult(LoginRedirect(req.origin, ExchangeFailedQuery(text)), [], Some(request))
          else
            match body
            case NotJson => CallbackResult(Crashed, [], Some(request))
            case JsonNull => CallbackResult(Crashed, [], Some(request))
            case Fields(t) =>
              CallbackResult(Redirect(req.origin + "/"), TokenCookies(env, t) + HandshakeExpiry, Some(request))
  }

  // ---------------------------------------------------------------------------
  // The handler.

  method HandleCallback(env: Env, req: CallbackRequest, reply: TokenReply) returns (res: Response, sent: Option<TokenRequest>)
    ensures res.outcome == CallbackSpec(env, req, reply).outcome
    ensures res.cookies == CallbackSpec(env, req, reply).cookies
    ensures sent == CallbackSpec(env, req, reply).request
  {
    var code := Get(req.query, "code");
    var state := Get(req.query, "state");
    var error := Get(req.query, "error");
    var errorDesc := Get(req.query, "error_description");
    sent := None;
    if Present(error) {
      res := new Response(LoginRedirect(req.origin, ErrorQuery(error.value, errorDesc)));
      return;
    }
    if !Present(code) || !Present(state) {
      res := new Response(LoginRedirect(req.origin, "error=missing_code"));
      return;
    }
    var cookieHeader := req.cookieHeader.GetOr("");
    var expectedState := GetCookie(cookieHeader, "oauth_state");
    var codeVerifier := GetCookie(cookieHeader, "pkce_verifier");
    if expectedState.Malformed? || codeVerifier.Malformed? {
      res := new Response(Crashed);
      return;
    }
    if !Usable(expectedState) || expectedState.value != state.value || !Usable(codeVerifier) {
      res := new Response(LoginRedirect(req.origin, "error=state_mismatch"));
      return;
    }
    sent := Some(TokenRequestFor(env, code.value, codeVerifier.value));
    if reply.FetchFailed? {
      res := new Response(Crashed);
      return;
    }
    if !IsOk(reply.status) {
      res := new Response(LoginRedirect(req.origin, ExchangeFailedQuery(reply.text)));
      return;
    }
    if !reply.body.Fields? {
      res := new Response(Crashed);
      return;
    }
    res := new Response(Redirect(req.origin + "/"));
    StoreTokens(res, env, reply.body.fields);
  }

  /** The success path's cookie writes: the tokens that are present, then the handshake cookies expired. */
  method StoreTokens(res: Response, env: Env, tokens: TokenFields)
    requires res.cookies == []
    modifies res
    ensures res.cookies == TokenCookies(env, tokens) + HandshakeExpiry
  {
    var secure := env.production;
    SetIfPresent(res, "access_token", tokens.accessToken, SessionCookie(secure, tokens.expiresIn.GetOr(3600)));
    SetIfPresent(res, "id_token", tokens.idToken, SessionCookie(secure, tokens.expiresIn.GetOr(3600)));
    SetIfPresent(res, "refresh_token", tokens.refreshToken, SessionCookie(secure, ThirtyDays));
    assert res.cookies == TokenCookies(env, tokens);
    TokenCookieNames(env, tokens);
    ExpireHandshake(res);
  }

  /** `res.cookies.set(name, "", { path: "/", maxAge: 0 })` for both handshake cookies. */
  method ExpireHandshake(res: Response)
    requires Find(res.cookies, "pkce_verifier").None? && Find(res.cookies, "oauth_state").None?
    modifies res
    ensures res.cookies == old(res.cookies) + HandshakeExpiry
  {
    UpsertFresh(res.cookies, CookieWrite("pkce_verifier", "", Expired));
    res.Set("pkce_verifier", "", Expired);
    FindUpsert(old(res.cookies), CookieWrite("pkce_verifier", "", Expired), "oauth_state");
    UpsertFresh(res.cookies, CookieWrite("oauth_state", "", Expired));
    res.Set("oauth_state", "", Expired);
    Uri.AppendAssoc(old(res.cookies), [HandshakeExpiry[0]], [HandshakeExpiry[1]]);
  }

  // ---------------------------------------------------------------------------
  // The cookie lookup.

  lemma {:induction false} FirstCookieAtIs(h: string, name: string, from: nat, q: nat)
    requires from <= q && CookieAt(h, name, q)
    requires forall p :: from <= p < q ==> !CookieAt(h, name, p)
    ensures FirstCookieAt(h, name, from) == Some(q)
    decreases q - from
  {
    if from < q {
      FirstCookieAtIs(h, name, from + 1, q);
    }
  }

  lemma {:induction false} ValueEndAt(h: string, i: nat, j: nat)
    requires i <= j <= |h|
    requires forall k :: i <= k < j ==> h[k] != ';'
    requires j == |h| || h[j] == ';'
    ensures ValueEnd(h, i) == j
    decreases j - i
  {
    if i < j {
      ValueEndAt(h, i + 1, j);
    }
  }

  /** Without a `Cookie` header the lookup finds nothing. */
  lemma GetCookieEmptyHeader(name: string)
    ensures GetCookie("", name) == NotFound
  {
  }

  /** When `name=` opens the header, the captured text runs up to the first `;`. */
  lemma RawFirstPair(name: string, e: string, rest: string)
    requires forall k :: 0 <= k < |e| ==> e[k] != ';'
    requires rest == [] || rest[0] == ';'
    ensures RawCookie(name + "=" + e + rest, name) == Some(e)
  {
    var h := name + "=" + e + rest;
    assert h[..|name| + 1] == name + "=";
    FirstCookieAtIs(h, name, 0, 0);
    var i := |name| + 1;
    forall k | i <= k < i + |e|
      ensures h[k] != ';'
    {
      assert h[k] == e[k - i];
    }
    ValueEndAt(h, i, i + |e|);
    assert h[i..i + |e|] == e;
  }

  /**
   * When `name=` opens the header, the lookup returns the decoded text up to
   * the first `;`: a value the framework wrote through `encodeURIComponent`
   * reads back unchanged.
   */
  lemma LookupFirstPair(name: string, value: string, rest: string)
    requires rest == [] || rest[0] == ';'
    ensures GetCookie(name + "=" + Uri.EncodeURIComponent(value) + rest, name) == Found(value)
  {
    Uri.EncodedHasNoSeparators(value);
    RawFirstPair(name, Uri.EncodeURIComponent(value), rest);
    Uri.URIComponentRoundTrip(value);
  }

  /** No match starts inside a leading part without `;` that does not open with the name's first letter. */
  lemma NoMatchBefore(a: string, name: string, tail: string, p: nat)
    requires name != [] && a != [] && a[0] != name[0]
    requires forall k :: 0 <= k < |a| ==> a[k] != ';'
    requires p < |a| + 2
    ensures !CookieAt(a + tail, name, p)
  {
    var h := a + tail;
    if p == 0 && |name| + 1 <= |h| {
      assert h[0..|name| + 1][0] == a[0];
    } else if 2 <= p <= |h| {
      assert h[p - 2..p][0] == a[p - 2];
    }
  }

  /** The first match is the one right after the separator that ends such a leading part. */
  lemma MatchAfterSeparator(a: string, name: string, rest: string)
    requires name != [] && a != [] && a[0] != name[0]
    requires forall k :: 0 <= k < |a| ==> a[k] != ';'
    ensures FirstCookieAt(a + "; " + name + "=" + rest, name, 0) == Some(|a| + 2)
  {
    var tail := "; " + name + "=" + rest;
    var h := a + tail;
    assert h == a + "; " + name + "=" + rest;
    var q := |a| + 2;
    assert h[q - 2..q] == "; ";
    assert h[q..q + |name| + 1] == name + "=";
    forall p | 0 <= p < q
      ensures !CookieAt(h, name, p)
    {
      NoMatchBefore(a, name, tail, p);
    }
    FirstCookieAtIs(h, name, 0, q);
  }

  /** A pair that follows `"; "` after such a leading part is captured up to the end of the header. */
  lemma RawAfterSeparator(a: string, name: string, e: string)
    requires name != [] && a != [] && a[0] != name[0]
    requires forall k :: 0 <= k < |a| ==> a[k] != ';'
    requires forall k :: 0 <= k < |e| ==> e[k] != ';'
    ensures RawCookie(a + "; " + name + "=" + e, name) == Some(e)
  {
    var h := a + "; " + name + "=" + e;
    MatchAfterSeparator(a, name, e);
    var i := |a| + 2 + |name| + 1;
    forall k | i <= k < |h|
      ensures h[k] != ';'
    {
      assert h[k] == e[k - i];
    }
    ValueEndAt(h, i, |h|);
    assert h[i..|h|] == e;
  }

  /**
   * A pair that follows `"; "` after a first pair is found when the first
   * pair's text holds no `;` and does not open with the name's first letter.
   */
  lemma LookupAfterSeparator(a: string, name: string, value: string)
    requires name != [] && a != [] && a[0] != name[0]
    requires forall k :: 0 <= k < |a| ==> a[k] != ';'
    ensures GetCookie(a + "; " + name + "=" + Uri.EncodeURIComponent(value), name) == Found(value)
  {
    Uri.EncodedHasNoSeparators(value);
    RawAfterSeparator(a, name, Uri.EncodeURIComponent(value));
    Uri.URIComponentRoundTrip(value);
  }

  /**
   * In the header for two writes, each name finds its own value when the
   * first name holds no `;` and the names start with different letters.
   */
  lemma TwoCookieLookup(w1: CookieWrite, w2: CookieWrite)
    requires w1.name != [] && w2.name != [] && w1.name[0] != w2.name[0]
    requires forall k :: 0 <= k < |w1.name| ==> w1.name[k] != ';'
    ensures GetCookie(CookieHeader([w1, w2]), w1.name) == Found(w1.value)
    ensures GetCookie(CookieHeader([w1, w2]), w2.name) == Found(w2.value)
  {
    CookieHeaderTwo(w1, w2);
    var e1 := Uri.EncodeURIComponent(w1.value);
    var rest := "; " + w2.name + "=" + Uri.EncodeURIComponent(w2.value);
    var a := w1.name + "=" + e1;
    JoinAssoc(a, "; ", w2.name, "=", Uri.EncodeURIComponent(w2.value));
    LookupFirstPair(w1.name, w1.value, rest);
    Uri.EncodedHasNoSeparators(w1.value);
    PairHasNoSemicolon(w1.name, e1);
    LookupAfterSeparator(a, w2.name, w2.value);
  }

  lemma JoinAssoc(p: string, q: string, r: string, s: string, t: string)
    ensures p + q + r + s + t == p + (q + r + s + t)
  {
  }

  lemma PairHasNoSemicolon(n: string, e: string)
    requires forall k :: 0 <= k < |n| ==> n[k] != ';'
    requires forall k :: 0 <= k < |e| ==> e[k] != ';'
    ensures forall k :: 0 <= k < |n + "=" + e| ==> (n + "=" + e)[k] != ';'
  {
    var a := n + "=" + e;
    forall k | 0 <= k < |a|
      ensures a[k] != ';'
    {
      if k >= |n| + 1 {
        assert a[k] == e[k - |n| - 1];
      }
    }
  }

  /**
   * The header a browser sends back after the authorization step holds the
   * verifier and the state; the lookup reads back exactly the values written.
   */
  lemma HandshakeHeaderLookup(env: Env, verifier: string, state: string)
    ensures var h := CookieHeader(GoogleAuthorize.HandshakeCookies(env, verifier, state));
      GetCookie(h, "pkce_verifier") == Found(verifier) && GetCookie(h, "oauth_state") == Found(state)
  {
    var ws := GoogleAuthorize.HandshakeCookies(env, verifier, state);
    assert ws == [ws[0], ws[1]];
    var n1 := ws[0].name;
    assert n1 == "pkce_verifier";
    assert forall k :: 0 <= k < |n1| ==> n1[k] != ';';
    TwoCookieLookup(ws[0], ws[1]);
  }

  // ---------------------------------------------------------------------------
  // The branch chain.

  /** Everything the handler checks before it asks for tokens. */
  predicate ExchangeAllowed(req: CallbackRequest) {
    var state := Get(req.query, "state");
    var header := req.cookieHeader.GetOr("");
    !Present(Get(req.query, "error")) && Present(Get(req.query, "code")) && Present(state)
    && GetCookie(header, "oauth_state") == Found(state.value)
    && Usable(GetCookie(header, "pkce_verifier"))
  }

  /** A provider error is reported before anything else is looked at, and nothing is written. */
  lemma ErrorComesFirst(env: Env, req: CallbackRequest, reply: TokenReply)
    requires Present(Get(req.query, "error"))
    ensures var r := CallbackSpec(env, req, reply);
      r.outcome == LoginRedirect(req.origin, ErrorQuery(Get(req.query, "error").value, Get(req.query, "error_description")))
      && r.cookies == [] && r.request.None?
  {
  }

  /** Without a code and a state there is no exchange, and nothing is written. */
  lemma MissingCode(env: Env, req: CallbackRequest, reply: TokenReply)
    requires !Present(Get(req.query, "error"))
    requires !Present(Get(req.query, "code")) || !Present(Get(req.query, "state"))
    ensures var r := CallbackSpec(env, req, reply);
      r.outcome == LoginRedirect(req.origin, "error=missing_code") && r.cookies == [] && r.request.None?
  {
  }

  /**
   * The CSRF check: a token request is made exactly when there is no error,
   * the code and state are present, the `oauth_state` cookie holds exactly the
   * returned state and a `pkce_verifier` cookie is present; the request then
   * carries the received code and the stored verifier.
   */
  lemma ExchangeOnlyAfterStateCheck(env: Env, req: CallbackRequest, reply: TokenReply)
    ensures CallbackSpec(env, req, reply).request.Some? <==> ExchangeAllowed(req)
    ensures ExchangeAllowed(req) ==> CallbackSpec(env, req, reply).request == Some(TokenRequestFor(env,
      Get(req.query, "code").value, GetCookie(req.cookieHeader.GetOr(""), "pkce_verifier").value))
  {
    var r := CallbackSpec(env, req, reply);
    var header := req.cookieHeader.GetOr("");
    var expectedState, codeVerifier := GetCookie(header, "oauth_state"), GetCookie(header, "pkce_verifier");
    if ExchangeAllowed(req) {
      assert !expectedState.Malformed? && !codeVerifier.Malformed?;
      assert r.request == Some(TokenRequestFor(env, Get(req.query, "code").value, codeVerifier.value));
    } else {
      assert r.request.None?;
    }
  }

  /**
   * Past the first two checks, a stored state that is missing, empty or
   * different, or a missing or empty verifier, is reported as a state
   * mismatch, and nothing is written.
   */
  lemma StateMismatch(env: Env, req: CallbackRequest, reply: TokenReply)
    requires !Present(Get(req.query, "error")) && Present(Get(req.query, "code")) && Present(Get(req.query, "state"))
    requires !ExchangeAllowed(req)
    requires !GetCookie(req.cookieHeader.GetOr(""), "oauth_state").Malformed?
    requires !GetCookie(req.cookieHeader.GetOr(""), "pkce_verifier").Malformed?
    ensures var r := CallbackSpec(env, req, reply);
      r.outcome == LoginRedirect(req.origin, "error=state_mismatch") && r.cookies == [] && r.request.None?
  {
  }

  /** The token request body holds exactly the five parameters, with the callback's own redirect URI. */
  lemma TokenRequestShape(env: Env, code: string, verifier: string)
    ensures var ps := TokenParams(env, code, verifier);
      |ps| == 5 && DistinctNames(ps)
      && Get(ps, "grant_type") == Some("authorization_code") && Get(ps, "client_id") == Some(env.clientId)
      && Get(ps, "code") == Some(code) && Get(ps, "redirect_uri") == Some(env.appUrl + "/auth/callback")
      && Get(ps, "code_verifier") == Some(verifier)
    ensures TokenRequestFor(env, code, verifier).url == "https://" + env.cognitoDomain + "/oauth2/token"
  {
    var ps := TokenParams(env, code, verifier);
    assert DistinctNames(ps);
    GetDistinct(ps, 0);
    GetDistinct(ps, 1);
    GetDistinct(ps, 2);
    GetDistinct(ps, 3);
    GetDistinct(ps, 4);
  }

  /** The code is exchanged for the same redirect URI it was requested with (RFC 6749, section 4.1.3). */
  lemma RedirectUriAgrees(env: Env, state: string, challenge: string, code: string, verifier: string)
    ensures Get(GoogleAuthorize.AuthorizeParams(env, state, challenge), "redirect_uri")
      == Get(TokenParams(env, code, verifier), "redirect_uri")
  {
    GoogleAuthorize.AuthorizeRequestShape(env, state, challenge);
    TokenRequestShape(env, code, verifier);
  }

  /** A refused exchange is reported with the endpoint's text, and nothing is written. */
  lemma ExchangeFailed(env: Env, req: CallbackRequest, status: int, text: string, body: TokenBody)
    requires ExchangeAllowed(req) && !IsOk(status)
    ensures var r := CallbackSpec(env, req, TokenResponse(status, text, body));
      r.outcome == LoginRedirect(req.origin, ExchangeFailedQuery(text)) && r.cookies == []
  {
  }

  /**
   * Cookies are written on the success path only, which redirects to the
   * application's root; every other path leaves the handshake cookies as
   * they were.
   */
  lemma CookiesOnlyOnSuccess(env: Env, req: CallbackRequest, reply: TokenReply)
    ensures var r := CallbackSpec(env, req, reply);
      r.cookies != [] <==> r.outcome == Redirect(req.origin + "/")
  {
    var r := CallbackSpec(env, req, reply);
    if r.outcome.Redirect? && r.cookies == [] {
      assert |r.outcome.location| > |req.origin| + 1;
    }
  }

  lemma FindTokenCookies(env: Env, t: TokenFields)
    ensures var cs := TokenCookies(env, t);
      Find(cs, "access_token") == (if Present(t.accessToken)
        then Some(CookieWrite("access_token", t.accessToken.value, SessionCookie(env.production, TokenMaxAge(t)))) else None)
      && Find(cs, "id_token") == (if Present(t.idToken)
        then Some(CookieWrite("id_token", t.idToken.value, SessionCookie(env.production, TokenMaxAge(t)))) else None)
      && Find(cs, "refresh_token") == (if Present(t.refreshToken)
        then Some(CookieWrite("refresh_token", t.refreshToken.value, SessionCookie(env.production, ThirtyDays))) else None)
  {
    var a := if Present(t.accessToken)
      then [CookieWrite("access_token", t.accessToken.value, SessionCookie(env.production, TokenMaxAge(t)))] else [];
    var i := if Present(t.idToken)
      then [CookieWrite("id_token", t.idToken.value, SessionCookie(env.production, TokenMaxAge(t)))] else [];
    var r := if Present(t.refreshToken)
      then [CookieWrite("refresh_token", t.refreshToken.value, SessionCookie(env.production, ThirtyDays))] else [];
    FindAppend(a + i, r, "access_token");
    FindAppend(a, i, "access_token");
    FindAppend(a + i, r, "id_token");
    FindAppend(a, i, "id_token");
    FindAppend(a + i, r, "refresh_token");
    FindAppend(a, i, "refresh_token");
  }

  /** On success the response redirects to the root and writes the token cookies, then the expiries. */
  lemma SuccessResult(env: Env, req: CallbackRequest, status: int, text: string, t: TokenFields)
    requires ExchangeAllowed(req) && IsOk(status)
    ensures var r := CallbackSpec(env, req, TokenResponse(status, text, Fields(t)));
      r.outcome == Redirect(req.origin + "/") && r.cookies == TokenCookies(env, t) + HandshakeExpiry
  {
  }

  /**
   * On success each token cookie is written exactly when its token is a
   * non-empty string: the access and id tokens for `expires_in` seconds (an
   * hour when absent), the refresh token for 30 days; and both handshake
   * cookies are deleted.
   */
  lemma SuccessCookies(env: Env, t: TokenFields)
    ensures var cs := TokenCookies(env, t) + HandshakeExpiry;
      Find(cs, "access_token") == (if Present(t.accessToken)
        then Some(CookieWrite("access_token", t.accessToken.value, SessionCookie(env.production, t.expiresIn.GetOr(3600)))) else None)
      && Find(cs, "id_token") == (if Present(t.idToken)
        then Some(CookieWrite("id_token", t.idToken.value, SessionCookie(env.production, t.expiresIn.GetOr(3600)))) else None)
      && Find(cs, "refresh_token") == (if Present(t.refreshToken)
        then Some(CookieWrite("refresh_token", t.refreshToken.value, SessionCookie(env.production, 2592000))) else None)
      && Find(cs, "pkce_verifier") == Some(CookieWrite("pkce_verifier", "", Expired))
      && Find(cs, "oauth_state") == Some(CookieWrite("oauth_state", "", Expired))
      && Deletes(Find(cs, "pkce_verifier").value) && Deletes(Find(cs, "oauth_state").value)
  {
    SuccessTokenCookies(env, t);
    SuccessExpiries(env, t);
  }

  /** The token cookies are found past the expiries that follow them. */
  lemma SuccessTokenCookies(env: Env, t: TokenFields)
    ensures var cs := TokenCookies(env, t) + HandshakeExpiry;
      Find(cs, "access_token") == (if Present(t.accessToken)
        then Some(CookieWrite("access_token", t.accessToken.value, SessionCookie(env.production, t.expiresIn.GetOr(3600)))) else None)
      && Find(cs, "id_token") == (if Present(t.idToken)
        then Some(CookieWrite("id_token", t.idToken.value, SessionCookie(env.production, t.expiresIn.GetOr(3600)))) else None)
      && Find(cs, "refresh_token") == (if Present(t.refreshToken)
        then Some(CookieWrite("refresh_token", t.refreshToken.value, SessionCookie(env.production, 2592000))) else None)
  {
    var tc := TokenCookies(env, t);
    FindTokenCookies(env, t);
    FindBeforeExpiry(tc, "access_token");
    FindBeforeExpiry(tc, "id_token");
    FindBeforeExpiry(tc, "refresh_token");
  }

  /** The handshake cookies are found as the expiries, which delete them. */
  lemma SuccessExpiries(env: Env, t: TokenFields)
    ensures var cs := TokenCookies(env, t) + HandshakeExpiry;
      Find(cs, "pkce_verifier") == Some(CookieWrite("pkce_verifier", "", Expired))
      && Find(cs, "oauth_state") == Some(CookieWrite("oauth_state", "", Expired))
      && Deletes(Find(cs, "pkce_verifier").value) && Deletes(Find(cs, "oauth_state").value)
  {
    TokenCookieNames(env, t);
    FindExpiry(TokenCookies(env, t));
  }

  /** A name other than the handshake cookies' is found among the writes before the expiries. */
  lemma FindBeforeExpiry(tc: seq<CookieWrite>, name: string)
    requires name != "pkce_verifier" && name != "oauth_state"
    ensures Find(tc + HandshakeExpiry, name) == Find(tc, name)
  {
    FindAppend(tc, HandshakeExpiry, name);
  }

  /** When the writes before them do not touch the handshake cookies, the expiries are what is found. */
  lemma FindExpiry(tc: seq<CookieWrite>)
    requires Find(tc, "pkce_verifier").None? && Find(tc, "oauth_state").None?
    ensures Find(tc + HandshakeExpiry, "pkce_verifier") == Some(CookieWrite("pkce_verifier", "", Expired))
    ensures Find(tc + HandshakeExpiry, "oauth_state") == Some(CookieWrite("oauth_state", "", Expired))
  {
    FindAppend(tc, HandshakeExpiry, "pkce_verifier");
    FindAppend(tc, HandshakeExpiry, "oauth_state");
  }

  /**
   * The two steps together: a browser that returns from the provider with a
   * code and the state the authorization step issued, carrying the cookies
   * that step wrote, passes the state check, and its token request presents
   * the verifier whose S256 challenge the provider was sent.
   */
  lemma HandshakeCompletes(env: Env, random32: seq<int>, random16: seq<int>, sha256: GoogleAuthorize.Digest,
                           origin: string, code: string, reply: TokenReply)
    requires |random32| == 32 && Uri.AllBytes(random32)
    requires |random16| == 16 && Uri.AllBytes(random16)
    requires GoogleAuthorize.IsSha256Shaped(sha256)
    requires code != []
    ensures var verifier, state := GoogleAuthorize.Verifier(random32), GoogleAuthorize.State(random16);
      var header := CookieHeader(GoogleAuthorize.HandshakeCookies(env, verifier, state));
      var req := CallbackRequest(origin, [("code", code), ("state", state)], Some(header));
      var sent := CallbackSpec(env, req, reply).request;
      sent == Some(TokenRequestFor(env, code, verifier))
      && Get(sent.value.body, "code_verifier") == Some(verifier)
      && Get(GoogleAuthorize.AuthorizeParams(env, state, GoogleAuthorize.Challenge(verifier, sha256)), "code_challenge")
        == Some(GoogleAuthorize.Challenge(Get(sent.value.body, "code_verifier").value, sha256))
  {
    var verifier, state := GoogleAuthorize.Verifier(random32), GoogleAuthorize.State(random16);
    GoogleAuthorize.HandshakeValuesWellFormed(random32, random16, sha256);
    var ws := GoogleAuthorize.HandshakeCookies(env, verifier, state);
    var header := CookieHeader(ws);
    HandshakeHeaderLookup(env, verifier, state);
    var req := CallbackRequest(origin, [("code", code), ("state", state)], Some(header));
    assert Get(req.query, "code") == Some(code);
    assert Get(req.query, "state") == Some(state);
    assert ExchangeAllowed(req);
    ExchangeOnlyAfterStateCheck(env, req, reply);
    TokenRequestShape(env, code, verifier);
    GoogleAuthorize.ChallengeMatchesCookie(env, random32, state, sha256);
  }
}
