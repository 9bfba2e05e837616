/**
 * The presence-only session guards of the server pages: `requireAuth`, which
 * lets a request through with its access token or sends it to the login page
 * with the page to come back to, and the home page, which picks the feed or
 * the login page. Neither looks inside the token. Next's `redirect` throws,
 * so a redirect ends the page.
 */
module SessionGuard {
  import opened Wrappers
  import opened Http
  import Uri

  /** What `requireAuth` ends in: a redirect, or the token it returns. */
  datatype Guard = GoTo(location: string) | Authed(accessToken: string)

  /** The default page to come back to. */
  const DefaultReturnTo: string := "/feed"

  /** `requireAuth(returnTo = "/feed")`; `None` is a call without the argument. */
  function RequireAuth(store: CookieStore, returnTo: Option<string>): Guard {
    var accessToken := CookieValue(store, "access_token");
    if !Present(accessToken) then GoTo("/login?returnTo=" + Uri.EncodeURIComponent(returnTo.GetOr(DefaultReturnTo)))
    else Authed(accessToken.value)
  }

  /** Without a non-empty token the guard redirects to the login page, carrying `returnTo` (by default `/feed`) encoded. */
  lemma RequireAuthRedirects(store: CookieStore, returnTo: Option<string>)
    requires !Present(CookieValue(store, "access_token"))
    ensures RequireAuth(store, returnTo) == GoTo("/login?returnTo=" + Uri.EncodeURIComponent(returnTo.GetOr("/feed")))
  {
  }

  /** With a non-empty token the guard returns exactly that token and does not redirect. */
  lemma RequireAuthPasses(store: CookieStore, returnTo: Option<string>)
    requires Present(CookieValue(store, "access_token"))
    ensures RequireAuth(store, returnTo) == Authed(store["access_token"])
  {
  }

  /**
   * Only presence is checked: two stores whose tokens are both present, or
   * both absent, lead to the same kind of result, and the redirect does not
   * depend on the store at all.
   */
  lemma OnlyPresenceMatters(s1: CookieStore, s2: CookieStore, returnTo: Option<string>)
    requires Present(CookieValue(s1, "access_token")) == Present(CookieValue(s2, "access_token"))
    ensures RequireAuth(s1, returnTo).Authed? == RequireAuth(s2, returnTo).Authed?
    ensures RequireAuth(s1, returnTo).GoTo? ==> RequireAuth(s1, returnTo) == RequireAuth(s2, returnTo)
  {
  }

  /** The login page gets the page to come back to back unchanged when it decodes the parameter. */
  lemma ReturnToRecoverable(store: CookieStore, returnTo: string)
    requires !Present(CookieValue(store, "access_token"))
    ensures var loc := RequireAuth(store, Some(returnTo)).location;
      |loc| >= 16 && loc[..16] == "/login?returnTo="
      && Uri.DecodeURIComponent(loc[16..]) == Some(returnTo)
  {
    var e := Uri.EncodeURIComponent(returnTo);
    assert RequireAuth(store, Some(returnTo)).location[16..] == e;
    Uri.URIComponentRoundTrip(returnTo);
  }

  /** `HomePage`: the feed with a non-empty token, the login page otherwise. */
  function HomePage(store: CookieStore): (location: string)
    ensures location == "/feed" || location == "/login"
  {
    if Present(CookieValue(store, "access_token")) then "/feed" else "/login"
  }

  /** The home page's choice depends on the token's presence and on nothing else. */
  lemma HomePageByPresence(s1: CookieStore, s2: CookieStore)
    requires Present(CookieValue(s1, "access_token")) == Present(CookieValue(s2, "access_token"))
    ensures HomePage(s1) == HomePage(s2)
  {
  }

  /** The home page sends a visitor to the feed exactly when the guard would let the visitor through. */
  lemma HomePageAgreesWithGuard(store: CookieStore, returnTo: Option<string>)
    ensures HomePage(store) == "/feed" <==> RequireAuth(store, returnTo).Authed?
  {
  }
}
