/**
 * What the sign-in routes share: the deployment settings they read from the
 * environment and the addresses of the OAuth 2.0 provider they talk to.
 */
module Handshake {
  /** `APP_URL`, `COGNITO_DOMAIN`, `COGNITO_CLIENT_ID` and whether `NODE_ENV` is `"production"`. */
  datatype Env = Env(appUrl: string, cognitoDomain: string, clientId: string, production: bool)

  /** The address the provider sends the browser back to, registered with the provider. */
  function RedirectUri(env: Env): string {
    env.appUrl + "/auth/callback"
  }

  /** The provider's authorization endpoint (RFC 6749, section 3.1), as a URL with an empty query serializes. */
  function AuthorizeEndpoint(env: Env): string {
    "https://" + env.cognitoDomain + "/oauth2/authorize"
  }

  /** The provider's token endpoint (RFC 6749, section 3.2). */
  function TokenEndpoint(env: Env): string {
    "https://" + env.cognitoDomain + "/oauth2/token"
  }

  /** Lifetime in seconds of the handshake cookies `pkce_verifier` and `oauth_state`. */
  const HandshakeMaxAge: int := 10 * 60
}
