/**
 * The two Amazon Cognito user-pool operations the e-mail one-time-code
 * sign-in sends, as the values of the requests. The service's answers are
 * parameters of the handlers that send them.
 */
module Cognito {
  import opened Wrappers
  import opened UrlSearch

  datatype Call =
    | InitiateAuth(authFlow: string, clientId: string, authParameters: Pairs)
    | RespondToAuthChallenge(clientId: string, challengeName: string, session: Option<string>, challengeResponses: Pairs)

  /** The `AuthenticationResult` of a completed challenge. */
  datatype AuthResult = AuthResult(
    accessToken: Option<string>, idToken: Option<string>, refreshToken: Option<string>, expiresIn: Option<int>)

  /** A JSON request body after `await req.json().catch(() => ({}))` and a destructuring of one string field. */
  datatype FieldBody =
    | Unparseable          // `json()` rejected, so the body reads as `{}`
    | NullBody             // the body is `null`: destructuring it throws
    | Field(value: Option<string>)

  /** The destructured field; the empty object of an unparseable body has none. */
  function FieldValue(b: FieldBody): Option<string>
    requires !b.NullBody?
  {
    if b.Unparseable? then None else b.value
  }
}
