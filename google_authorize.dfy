/**
 * `GET /api/auth/google`: starts the authorization code flow with PKCE
 * (RFC 7636) at the provider, steered to its Google identity provider. The
 * random bytes and the SHA-256 digest are parameters of the model.
 */
module GoogleAuthorize {
  import opened Wrappers
  import opened Http
  import opened Handshake
  import opened UrlSearch
  import Uri
  import Encoding

  /** SHA-256 as a function from bytes to its 32-byte digest. */
  type Digest = seq<int> -> seq<int>

  ghost predicate IsSha256Shaped(sha256: Digest) {
    forall m :: |sha256(m)| == 32 && Uri.AllBytes(sha256(m))
  }

  /** `randomBytes(16).toString("hex")`. */
  function State(random16: seq<int>): string
    requires |random16| == 16 && Uri.AllBytes(random16)
  {
    Encoding.Hex(random16)
  }

  /** `randomBytes(32).toString("base64url")`. */
  function Verifier(random32: seq<int>): string
    requires |random32| == 32 && Uri.AllBytes(random32)
  {
    Encoding.Base64Url(random32)
  }

  /** `BASE64URL(SHA256(ASCII(code_verifier)))`, the S256 transformation of RFC 7636, section 4.2. */
  function Challenge(verifier: string, sha256: Digest): string
    requires IsSha256Shaped(sha256)
  {
    Encoding.Base64Url(sha256(Uri.Utf8String(verifier)))
  }

  /** The query of the authorization request, in the order it is built. */
  function AuthorizeParams(env: Env, state: string, challenge: string): Pairs {
    [("client_id", env.clientId),
     ("response_type", "code"),
     ("scope", "openid email profile"),
     ("redirect_uri", RedirectUri(env)),
     ("identity_provider", "Google"),
     ("state", state),
     ("code_challenge", challenge),
     ("code_challenge_method", "S256")]
  }

  function AuthorizeLocation(env: Env, state: string, challenge: string): string {
    AuthorizeEndpoint(env) + "?" + Uri.FormSerialize(AuthorizeParams(env, state, challenge))
  }

  function HandshakeOptions(env: Env): CookieOptions {
    SessionCookie(env.production, HandshakeMaxAge)
  }

  /** The two handshake cookies the browser keeps until it comes back to the callback. */
  function HandshakeCookies(env: Env, verifier: string, state: string): seq<CookieWrite> {
    [CookieWrite("pkce_verifier", verifier, HandshakeOptions(env)),
     CookieWrite("oauth_state", state, HandshakeOptions(env))]
  }

  /** The eight parameter names are distinct, so each `set` appends. */
  lemma AuthorizeParamsDistinct(env: Env, state: string, challenge: string)
    ensures DistinctNames(AuthorizeParams(env, state, challenge))
  {
  }

  /** Builds the authorization query on a fresh URL, one `set` per parameter. */
  method AuthorizeQuery(env: Env, state: string, challenge: string) returns (query: SearchParams)
    ensures fresh(query)
    ensures query.pairs == AuthorizeParams(env, state, challenge)
  {
    var redirectUri := RedirectUri(env);
    ghost var full := AuthorizeParams(env, state, challenge);
    AuthorizeParamsDistinct(env, state, challenge);
    query := new SearchParams();
    assert query.pairs == full[..0];
    SetParamNext(full, 0);
    query.Set("client_id", env.clientId);
    SetParamNext(full, 1);
    query.Set("response_type", "code");
    SetParamNext(full, 2);
    query.Set("scope", "openid email profile");
    SetParamNext(full, 3);
    query.Set("redirect_uri", redirectUri);
    SetParamNext(full, 4);
    query.Set("identity_provider", "Google");
    SetParamNext(full, 5);
    query.Set("state", state);
    SetParamNext(full, 6);
    query.Set("code_challenge", challenge);
    SetParamNext(full, 7);
    query.Set("code_challenge_method", "S256");
    assert full[..8] == full;
  }

  /** Redirects to the authorization endpoint and remembers the verifier and the state in cookies. */
  method Authorize(env: Env, random32: seq<int>, random16: seq<int>, sha256: Digest) returns (res: Response)
    requires |random32| == 32 && Uri.AllBytes(random32)
    requires |random16| == 16 && Uri.AllBytes(random16)
    requires IsSha256Shaped(sha256)
    ensures res.outcome
      == Redirect(AuthorizeLocation(env, State(random16), Challenge(Verifier(random32), sha256)))
    ensures res.cookies == HandshakeCookies(env, Verifier(random32), State(random16))
  {
    var codeVerifier := Verifier(random32);
    var codeChallenge := Challenge(codeVerifier, sha256);
    var state := State(random16);
    var query := AuthorizeQuery(env, state, codeChallenge);
    res := new Response(Redirect(AuthorizeEndpoint(env) + "?" + query.ToString()));
    assert res.outcome == Redirect(AuthorizeLocation(env, state, codeChallenge));
    RememberHandshake(res, env, codeVerifier, state);
  }

  /** `res.cookies.set` of the verifier and the state, with the same options. */
  method RememberHandshake(res: Response, env: Env, verifier: string, state: string)
    requires res.cookies == []
    modifies res
    ensures res.cookies == HandshakeCookies(env, verifier, state)
  {
    var cookieBase := SessionCookie(env.production, HandshakeMaxAge);
    res.Set("pkce_verifier", verifier, cookieBase);
    res.Set("oauth_state", state, cookieBase);
  }

  /** The state the browser carries to the provider is the one its `oauth_state` cookie holds. */
  lemma StateMatchesCookie(env: Env, verifier: string, state: string, challenge: string)
    ensures Get(AuthorizeParams(env, state, challenge), "state") == Some(state)
    ensures Find(HandshakeCookies(env, verifier, state), "oauth_state").Some?
    ensures Find(HandshakeCookies(env, verifier, state), "oauth_state").value.value == state
  {
    AuthorizeParamsDistinct(env, state, challenge);
    GetDistinct(AuthorizeParams(env, state, challenge), 5);
  }

  /**
   * The verifier kept in the `pkce_verifier` cookie is the one the challenge
   * was derived from: when the callback presents it, the provider's S256 check
   * (RFC 7636, section 4.6) recomputes the challenge it was sent.
   */
  lemma ChallengeMatchesCookie(env: Env, random32: seq<int>, state: string, sha256: Digest)
    requires |random32| == 32 && Uri.AllBytes(random32)
    requires IsSha256Shaped(sha256)
    ensures var verifier := Find(HandshakeCookies(env, Verifier(random32), state), "pkce_verifier").value.value;
      Get(AuthorizeParams(env, state, Challenge(Verifier(random32), sha256)), "code_challenge")
        == Some(Challenge(verifier, sha256))
    ensures Get(AuthorizeParams(env, state, Challenge(Verifier(random32), sha256)), "code_challenge_method")
      == Some("S256")
  {
    var ps := AuthorizeParams(env, state, Challenge(Verifier(random32), sha256));
    AuthorizeParamsDistinct(env, state, Challenge(Verifier(random32), sha256));
    GetDistinct(ps, 6);
    GetDistinct(ps, 7);
  }

  /**
   * The verifier is 43 characters from the unreserved set, within RFC 7636,
   * section 4.1; the challenge of a 32-byte digest is also 43 characters; the
   * state is 32 lower-case hexadecimal digits; and the verifier decodes back
   * to the random bytes it came from.
   */
  lemma HandshakeValuesWellFormed(random32: seq<int>, random16: seq<int>, sha256: Digest)
    requires |random32| == 32 && Uri.AllBytes(random32)
    requires |random16| == 16 && Uri.AllBytes(random16)
    requires IsSha256Shaped(sha256)
    ensures |Verifier(random32)| == 43
    ensures forall i :: 0 <= i < 43 ==> Encoding.IsUnreserved(Verifier(random32)[i])
    ensures Encoding.Base64UrlDecode(Verifier(random32)) == random32
    ensures |Challenge(Verifier(random32), sha256)| == 43
    ensures |State(random16)| == 32
    ensures forall i :: 0 <= i < 32 ==> Encoding.IsLowerHex(State(random16)[i])
  {
    Encoding.VerifierLength(random32);
    Encoding.VerifierLength(sha256(Uri.Utf8String(Verifier(random32))));
    Encoding.Base64UrlRoundTrip(random32);
    Encoding.StateLength(random16);
  }

  /** The provider is asked for a code for the application's own client, returning to its callback. */
  lemma AuthorizeRequestShape(env: Env, state: string, challenge: string)
    ensures Get(AuthorizeParams(env, state, challenge), "client_id") == Some(env.clientId)
    ensures Get(AuthorizeParams(env, state, challenge), "response_type") == Some("code")
    ensures Get(AuthorizeParams(env, state, challenge), "redirect_uri") == Some(RedirectUri(env))
    ensures Get(AuthorizeParams(env, state, challenge), "identity_provider") == Some("Google")
  {
    var ps := AuthorizeParams(env, state, challenge);
    AuthorizeParamsDistinct(env, state, challenge);
    GetDistinct(ps, 0);
    GetDistinct(ps, 1);
    GetDistinct(ps, 3);
    GetDistinct(ps, 4);
  }

  /** Both handshake cookies are session-scoped, HTTP-only, and live for ten minutes. */
  lemma HandshakeCookieOptions(env: Env, verifier: string, state: string)
    ensures forall w :: w in HandshakeCookies(env, verifier, state) ==>
      w.options.httpOnly && w.options.secure == env.production && w.options.sameSite == Lax
      && w.options.path == "/" && w.options.maxAge == 600 && !Deletes(w)
  {
  }
}
