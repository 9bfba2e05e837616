/**
 * `POST /api/auth/otp/verify`: answers the `EMAIL_OTP` challenge with the
 * code the user typed, in the session the start step kept in its cookies,
 * and on success stores the tokens in cookies and expires the one-time-code
 * cookies.
 */
module OtpVerify {
  import opened Wrappers
  import opened Json
  import opened Http
  import opened UrlSearch
  import opened Cognito
  import Handshake
  import Callback
  import Uri

  /** The reply of the challenge answer: it throws, or returns with or without an authentication result. */
  datatype VerifyReply = VerifyThrew | VerifyOk(result: Option<AuthResult>)

  /** What the handler returns, and the Cognito call it made, if any. */
  datatype VerifyResult = VerifyResult(outcome: Outcome, cookies: seq<CookieWrite>, call: Option<Call>)

  /** `{ ok: true, redirectTo: "/feed" }`. */
  const SignedInBody: Json := JObj(map["ok" := JBool(true), "redirectTo" := JStr("/feed")])

  /** The answer to the `EMAIL_OTP` challenge. */
  function ChallengeCall(env: Handshake.Env, session: string, email: string, code: string): Call {
    RespondToAuthChallenge(env.clientId, "EMAIL_OTP", Some(session), [("USERNAME", email), ("EMAIL_OTP_CODE", code)])
  }

  /** Both tokens the handler insists on are non-empty strings. */
  predicate HasTokens(result: Option<AuthResult>) {
    result.Some? && Present(result.value.accessToken) && Present(result.value.idToken)
  }

  /** The access and id tokens for `ExpiresIn ?? 3600` seconds, then the refresh token for 30 days when there is one. */
  function SignedInCookies(env: Handshake.Env, t: AuthResult): seq<CookieWrite>
    requires Present(t.accessToken) && Present(t.idToken)
  {
    [CookieWrite("access_token", t.accessToken.value, SessionCookie(env.production, t.expiresIn.GetOr(3600))),
     CookieWrite("id_token", t.idToken.value, SessionCookie(env.production, t.expiresIn.GetOr(3600)))]
    + (if Present(t.refreshToken)
       then [CookieWrite("refresh_token", t.refreshToken.value, SessionCookie(env.production, ThirtyDays))] else [])
  }

  /** The deletion of both one-time-code cookies. */
  const OtpExpiry: seq<CookieWrite> :=
    [CookieWrite("otp_session", "", Expired), CookieWrite("otp_email", "", Expired)]

  /** The handler's guard chain, as a function of the body, the request cookies and the reply. */
  function VerifySpec(env: Handshake.Env, body: FieldBody, cookies: CookieStore, reply: VerifyReply): VerifyResult {
    if body.NullBody? then VerifyResult(Crashed, [], None)
    else
      var code := FieldValue(body);
      if !Present(code) then VerifyResult(JsonResponse(400, ErrorBody("missing_code")), [], None)
      else
        var otpSession, otpEmail := CookieValue(cookies, "otp_session"), CookieValue(cookies, "otp_email");
        if !Present(otpSession) || !Present(otpEmail) then
          VerifyResult(JsonResponse(400, ErrorBody("missing_otp_session")), [], None)
        else
          var call := ChallengeCall(env, otpSession.value, otpEmail.value, code.value);
          match reply
          case VerifyThrew => VerifyResult(Crashed, [], Some(call))
          case VerifyOk(result) =>
            if !HasTokens(result) then VerifyResult(JsonResponse(401, ErrorBody("no_tokens_returned")), [], Some(call))
            else VerifyResult(JsonResponse(200, SignedInBody), SignedInCookies(env, result.value) + OtpExpiry, Some(call))
  }

  method HandleVerify(env: Handshake.Env, body: FieldBody, cookies: CookieStore, reply: VerifyReply)
    returns (res: Response, sent: Option<Call>)
    ensures res.outcome == VerifySpec(env, body, cookies, reply).outcome
    ensures res.cookies == VerifySpec(env, body, cookies, reply).cookies
    ensures sent == VerifySpec(env, body, cookies, reply).call
  {
    sent := None;
    if body.NullBody? {
      res := new Response(Crashed);
      return;
    }
    var code := FieldValue(body);
    if !Present(code) {
      res := new Response(JsonResponse(400, ErrorBody("missing_code")));
      return;
    }
    var otpSession := CookieValue(cookies, "otp_session");
    var otpEmail := CookieValue(cookies, "otp_email");
    if !Present(otpSession) || !Present(otpEmail) {
      res := new Response(JsonResponse(400, ErrorBody("missing_otp_session")));
      return;
    }
    sent := Some(ChallengeCall(env, otpSession.value, otpEmail.value, code.value));
    if reply.VerifyThrew? {
      res := new Response(Crashed);
      return;
    }
    var tokens := reply.result;
    if !HasTokens(tokens) {
      res := new Response(JsonResponse(401, ErrorBody("no_tokens_returned")));
      return;
    }
    res := new Response(JsonResponse(200, SignedInBody));
    StoreTokens(res, env, tokens.value);
  }

  /** The success path's cookie writes, in the order the handler makes them. */
  method StoreTokens(res: Response, env: Handshake.Env, t: AuthResult)
    requires Present(t.accessToken) && Present(t.idToken)
    requires res.cookies == []
    modifies res
    ensures res.cookies == SignedInCookies(env, t) + OtpExpiry
  {
    var secure := env.production;
    SetFresh(res, "access_token", t.accessToken.value, SessionCookie(secure, t.expiresIn.GetOr(3600)));
    SetFresh(res, "id_token", t.idToken.value, SessionCookie(secure, t.expiresIn.GetOr(3600)));
    SetIfPresent(res, "refresh_token", t.refreshToken, SessionCookie(secure, ThirtyDays));
    SignedInCookieNames(env, t);
    SetFresh(res, "otp_session", "", Expired);
    FindAppend(SignedInCookies(env, t), [OtpExpiry[0]], "otp_email");
    SetFresh(res, "otp_email", "", Expired);
    Uri.AppendAssoc(SignedInCookies(env, t), [OtpExpiry[0]], [OtpExpiry[1]]);
  }

  /** The token cookies never carry a one-time-code cookie's name. */
  lemma SignedInCookieNames(env: Handshake.Env, t: AuthResult)
    requires Present(t.accessToken) && Present(t.idToken)
    ensures Find(SignedInCookies(env, t), "otp_session").None? && Find(SignedInCookies(env, t), "otp_email").None?
  {
    var cs := SignedInCookies(env, t);
    forall i | 0 <= i < |cs|
      ensures cs[i].name != "otp_session" && cs[i].name != "otp_email"
    {
      assert cs[i].name in ["access_token", "id_token", "refresh_token"];
    }
  }

  // ---------------------------------------------------------------------------
  // Properties of the handler.

  /** A missing or empty code is answered 400 `missing_code` before the cookies are looked at. */
  lemma MissingCode(env: Handshake.Env, body: FieldBody, cookies: CookieStore, reply: VerifyReply)
    requires !body.NullBody? && !Present(FieldValue(body))
    ensures VerifySpec(env, body, cookies, reply) == VerifyResult(JsonResponse(400, ErrorBody("missing_code")), [], None)
  {
  }

  /** Without both one-time-code cookies the answer is 400 `missing_otp_session`, and Cognito is not called. */
  lemma MissingSession(env: Handshake.Env, code: string, cookies: CookieStore, reply: VerifyReply)
    requires code != []
    requires !Present(CookieValue(cookies, "otp_session")) || !Present(CookieValue(cookies, "otp_email"))
    ensures VerifySpec(env, Field(Some(code)), cookies, reply)
      == VerifyResult(JsonResponse(400, ErrorBody("missing_otp_session")), [], None)
  {
  }

  /**
   * Cognito is called exactly when the code and both cookies are present,
   * and the call answers `EMAIL_OTP` in the stored session, for the stored
   * address, with the typed code.
   */
  lemma ChallengeSent(env: Handshake.Env, body: FieldBody, cookies: CookieStore, reply: VerifyReply)
    ensures var r := VerifySpec(env, body, cookies, reply);
      (r.call.Some? <==>
         (!body.NullBody? && Present(FieldValue(body))
          && Present(CookieValue(cookies, "otp_session")) && Present(CookieValue(cookies, "otp_email"))))
      && (r.call.Some? ==>
            r.call.value.challengeName == "EMAIL_OTP"
            && r.call.value.session == Some(cookies["otp_session"])
            && Get(r.call.value.challengeResponses, "USERNAME") == Some(cookies["otp_email"])
            && Get(r.call.value.challengeResponses, "EMAIL_OTP_CODE") == FieldValue(body))
  {
  }

  /** A result without both tokens is answered 401 `no_tokens_returned`, and no cookie is written or cleared. */
  lemma NoTokens(env: Handshake.Env, body: FieldBody, cookies: CookieStore, result: Option<AuthResult>)
    requires !HasTokens(result)
    ensures var r := VerifySpec(env, body, cookies, VerifyOk(result));
      r.cookies == [] && (r.call.Some? ==> r.outcome == JsonResponse(401, ErrorBody("no_tokens_returned")))
  {
  }

  /** Cookies are written only on the signed-in answer, and that answer always writes them. */
  lemma CookiesOnlyOnSuccess(env: Handshake.Env, body: FieldBody, cookies: CookieStore, reply: VerifyReply)
    ensures var r := VerifySpec(env, body, cookies, reply);
      (r.cookies != [] <==> r.outcome == JsonResponse(200, SignedInBody))
      && (r.cookies != [] <==> r.call.Some? && reply.VerifyOk? && HasTokens(reply.result))
  {
  }

  /**
   * On success both tokens are stored for `ExpiresIn ?? 3600` seconds, and
   * the refresh token for 30 days exactly when there is one.
   */
  lemma FindSignedIn(env: Handshake.Env, t: AuthResult)
    requires Present(t.accessToken) && Present(t.idToken)
    ensures var cs := SignedInCookies(env, t);
      Find(cs, "access_token") == Some(CookieWrite("access_token", t.accessToken.value, SessionCookie(env.production, t.expiresIn.GetOr(3600))))
      && Find(cs, "id_token") == Some(CookieWrite("id_token", t.idToken.value, SessionCookie(env.production, t.expiresIn.GetOr(3600))))
      && Find(cs, "refresh_token") == (if Present(t.refreshToken)
        then Some(CookieWrite("refresh_token", t.refreshToken.value, SessionCookie(env.production, 2592000))) else None)
  {
    var tc := SignedInCookies(env, t);
    var r := if Present(t.refreshToken)
      then [CookieWrite("refresh_token", t.refreshToken.value, SessionCookie(env.production, ThirtyDays))] else [];
    assert tc == tc[..2] + r;
    FindAppend(tc[..2], r, "refresh_token");
  }

  /**
   * The expiry of the one-time-code cookies comes after the token cookies
   * and touches nothing else: the tokens read as written, and both
   * one-time-code cookies are deleted.
   */
  lemma SuccessCookies(env: Handshake.Env, t: AuthResult)
    requires Present(t.accessToken) && Present(t.idToken)
    ensures var tc := SignedInCookies(env, t);
      Find(tc + OtpExpiry, "access_token") == Find(tc, "access_token")
      && Find(tc + OtpExpiry, "id_token") == Find(tc, "id_token")
      && Find(tc + OtpExpiry, "refresh_token") == Find(tc, "refresh_token")
      && Find(tc + OtpExpiry, "otp_session") == Some(CookieWrite("otp_session", "", Expired))
      && Find(tc + OtpExpiry, "otp_email") == Some(CookieWrite("otp_email", "", Expired))
      && Deletes(OtpExpiry[0]) && Deletes(OtpExpiry[1])
  {
    var tc := SignedInCookies(env, t);
    SignedInCookieNames(env, t);
    FindBeforeOtpExpiry(tc, "access_token");
    FindBeforeOtpExpiry(tc, "id_token");
    FindBeforeOtpExpiry(tc, "refresh_token");
    FindOtpExpiry(tc);
  }

  /** A name other than the one-time-code cookies' is found among the writes before their expiry. */
  lemma FindBeforeOtpExpiry(tc: seq<CookieWrite>, name: string)
    requires name != "otp_session" && name != "otp_email"
    ensures Find(tc + OtpExpiry, name) == Find(tc, name)
  {
    FindAppend(tc, OtpExpiry, name);
  }

  /** When the writes before them do not touch the one-time-code cookies, the expiries are what is found. */
  lemma FindOtpExpiry(tc: seq<CookieWrite>)
    requires Find(tc, "otp_session").None? && Find(tc, "otp_email").None?
    ensures Find(tc + OtpExpiry, "otp_session") == Some(CookieWrite("otp_session", "", Expired))
    ensures Find(tc + OtpExpiry, "otp_email") == Some(CookieWrite("otp_email", "", Expired))
  {
    FindAppend(tc, OtpExpiry, "otp_session");
    FindAppend(tc, OtpExpiry, "otp_email");
  }

  /** Both sign-in paths store the same token cookies for the same tokens. */
  lemma SameTokenCookiesAsCallback(env: Handshake.Env, t: AuthResult)
    requires Present(t.accessToken) && Present(t.idToken)
    ensures SignedInCookies(env, t)
      == Callback.TokenCookies(env, Callback.TokenFields(t.accessToken, t.idToken, t.refreshToken, t.expiresIn))
  {
  }
}
