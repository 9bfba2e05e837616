/**
 * `POST /api/auth/otp/start`: starts Cognito's choice-based sign-in
 * (`USER_AUTH`) for an e-mail address, selects the `EMAIL_OTP` challenge with
 * the session the first call returned, and keeps that session and the
 * address in short-lived cookies for the verify step.
 */
module OtpStart {
  import opened Wrappers
  import opened Json
  import opened Http
  import opened UrlSearch
  import opened Cognito
  import Handshake

  /** The reply of `InitiateAuth`: it throws, or returns a session for the next challenge. */
  datatype InitReply = InitThrew | InitOk(session: Option<string>)

  /** The reply of the `SELECT_CHALLENGE` answer. */
  datatype SelectReply = SelectThrew | SelectOk(session: Option<string>)

  /** What the handler returns, and the Cognito calls it made, in order. */
  datatype StartResult = StartResult(outcome: Outcome, cookies: seq<CookieWrite>, calls: seq<Call>)

  /** The seconds the one-time-code cookies live. */
  const OtpMaxAge: int := 3 * 60

  const OkBody: Json := Obj1("ok", JBool(true))

  /** The first call: the `USER_AUTH` flow with the user name only, no password. */
  function InitiateCall(env: Handshake.Env, email: string): Call {
    InitiateAuth("USER_AUTH", env.clientId, [("USERNAME", email)])
  }

  /** The second call: the answer `EMAIL_OTP` to `SELECT_CHALLENGE`, in the first call's session. */
  function SelectCall(env: Handshake.Env, session: Option<string>, email: string): Call {
    RespondToAuthChallenge(env.clientId, "SELECT_CHALLENGE", session, [("USERNAME", email), ("ANSWER", "EMAIL_OTP")])
  }

  /** The session and the address, as received, for three minutes. */
  function OtpCookies(env: Handshake.Env, session: string, email: string): seq<CookieWrite> {
    [CookieWrite("otp_session", session, SessionCookie(env.production, OtpMaxAge)),
     CookieWrite("otp_email", email, SessionCookie(env.production, OtpMaxAge))]
  }

  /** The handler's guard and its two sequenced calls, as a function of the body and the replies. */
  function StartSpec(env: Handshake.Env, body: FieldBody, init: InitReply, selected: SelectReply): StartResult {
    if body.NullBody? then StartResult(Crashed, [], [])
    else
      var email := FieldValue(body);
      if !Present(email) then StartResult(JsonResponse(400, ErrorBody("missing_email")), [], [])
      else
        var first := InitiateCall(env, email.value);
        match init
        case InitThrew => StartResult(Crashed, [], [first])
        case InitOk(session) =>
          var second := SelectCall(env, session, email.value);
          match selected
          case SelectThrew => StartResult(Crashed, [], [first, second])
          case SelectOk(next) =>
            StartResult(JsonResponse(200, OkBody), OtpCookies(env, next.GetOr(""), email.value), [first, second])
  }

  method HandleStart(env: Handshake.Env, body: FieldBody, init: InitReply, selected: SelectReply)
    returns (res: Response, calls: seq<Call>)
    ensures res.outcome == StartSpec(env, body, init, selected).outcome
    ensures res.cookies == StartSpec(env, body, init, selected).cookies
    ensures calls == StartSpec(env, body, init, selected).calls
  {
    calls := [];
    if body.NullBody? {
      res := new Response(Crashed);
      return;
    }
    var email := FieldValue(body);
    if !Present(email) {
      res := new Response(JsonResponse(400, ErrorBody("missing_email")));
      return;
    }
    calls := calls + [InitiateCall(env, email.value)];
    if init.InitThrew? {
      res := new Response(Crashed);
      return;
    }
    calls := calls + [SelectCall(env, init.session, email.value)];
    if selected.SelectThrew? {
      res := new Response(Crashed);
      return;
    }
    res := new Response(JsonResponse(200, OkBody));
    SetFresh(res, "otp_session", selected.session.GetOr(""), SessionCookie(env.production, OtpMaxAge));
    SetFresh(res, "otp_email", email.value, SessionCookie(env.production, OtpMaxAge));
  }

  // ---------------------------------------------------------------------------
  // Properties of the handler.

  /** Without an e-mail address the answer is 400 `missing_email`, and Cognito is not called. */
  lemma MissingEmail(env: Handshake.Env, body: FieldBody, init: InitReply, selected: SelectReply)
    requires !body.NullBody? && !Present(FieldValue(body))
    ensures var r := StartSpec(env, body, init, selected);
      r.outcome == JsonResponse(400, ErrorBody("missing_email")) && r.cookies == [] && r.calls == []
  {
  }

  /** The first call made is always `USER_AUTH` with exactly one parameter, the address, and no password. */
  lemma FirstCallIsUserAuth(env: Handshake.Env, body: FieldBody, init: InitReply, selected: SelectReply)
    ensures var r := StartSpec(env, body, init, selected);
      r.calls != [] ==>
        !body.NullBody? && Present(FieldValue(body))
        && r.calls[0] == InitiateAuth("USER_AUTH", env.clientId, [("USERNAME", FieldValue(body).value)])
        && Get(r.calls[0].authParameters, "USERNAME") == FieldValue(body)
        && Get(r.calls[0].authParameters, "PASSWORD").None?
  {
    var r := StartSpec(env, body, init, selected);
    if r.calls != [] {
      var ps := r.calls[0].authParameters;
      assert ps == [("USERNAME", FieldValue(body).value)];
      assert ps[1..] == [];
    }
  }

  /**
   * A second call is made only after the first returned, and it answers
   * `SELECT_CHALLENGE` with `EMAIL_OTP` in the session the first call
   * returned, for the same user name.
   */
  lemma SecondCallUsesFirstSession(env: Handshake.Env, body: FieldBody, init: InitReply, selected: SelectReply)
    ensures var r := StartSpec(env, body, init, selected);
      |r.calls| <= 2
      && (|r.calls| == 2 <==> !body.NullBody? && Present(FieldValue(body)) && init.InitOk?)
      && (|r.calls| == 2 ==>
            r.calls[1] == RespondToAuthChallenge(env.clientId, "SELECT_CHALLENGE", init.session,
                                                  [("USERNAME", FieldValue(body).value), ("ANSWER", "EMAIL_OTP")])
            && Get(r.calls[1].challengeResponses, "USERNAME") == Get(r.calls[0].authParameters, "USERNAME"))
  {
  }

  /**
   * The response is `{ ok: true }` with cookies exactly when both calls
   * returned; in every other case no cookie is written, because the
   * response is only built after the second call.
   */
  lemma CookiesOnlyAfterBothCalls(env: Handshake.Env, body: FieldBody, init: InitReply, selected: SelectReply)
    ensures var r := StartSpec(env, body, init, selected);
      (r.cookies != [] <==> |r.calls| == 2 && selected.SelectOk?)
      && (r.cookies != [] <==> r.outcome == JsonResponse(200, OkBody))
  {
  }

  /**
   * On success `otp_session` holds the second call's session, or `""`
   * without one, and `otp_email` holds the address exactly as it was
   * received; both are http-only, lax, path `/`, secure in production, and
   * live 180 seconds.
   */
  lemma SuccessCookies(env: Handshake.Env, email: string, session: Option<string>, next: Option<string>)
    requires email != []
    ensures var cs := StartSpec(env, Field(Some(email)), InitOk(session), SelectOk(next)).cookies;
      Find(cs, "otp_session") == Some(CookieWrite("otp_session", next.GetOr(""), SessionCookie(env.production, 180)))
      && Find(cs, "otp_email") == Some(CookieWrite("otp_email", email, SessionCookie(env.production, 180)))
      && |cs| == 2
  {
  }
}
