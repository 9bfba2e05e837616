/**
 * What a route handler hands back to the framework: an outcome (a redirect,
 * a JSON response, or an exception the framework answers with status 500)
 * and the `Set-Cookie` writes accumulated on the response. The cookie jar of
 * a response behaves like the framework's `ResponseCookies`: a map from
 * cookie name to the last write, iterated in first-insertion order.
 */
module Http {
  import opened Wrappers
  import opened Json
  import Uri

  datatype SameSite = Lax | Unspecified

  datatype CookieOptions = CookieOptions(httpOnly: bool, secure: bool, sameSite: SameSite, path: string, maxAge: int)

  /** The options every session and handshake cookie of the application carries. */
  function SessionCookie(secure: bool, maxAge: int): CookieOptions {
    CookieOptions(true, secure, Lax, "/", maxAge)
  }

  /** `{ path: "/", maxAge: 0 }`: the deletion form. */
  const Expired: CookieOptions := CookieOptions(false, false, Unspecified, "/", 0)

  datatype CookieWrite = CookieWrite(name: string, value: string, options: CookieOptions)

  /**
   * A `Max-Age` of zero or less makes the user agent set the expiry to the
   * earliest representable time, which deletes the cookie (RFC 6265,
   * section 5.2.2).
   */
  predicate Deletes(w: CookieWrite) {
    w.options.maxAge <= 0
  }

  /** The seconds in 30 days, the lifetime of the refresh-token cookie. */
  const ThirtyDays: int := 30 * 24 * 60 * 60

  datatype Outcome =
    | Redirect(location: string)
    | JsonResponse(status: int, body: Json)
    | Crashed

  /** The first write for `name`, if any. */
  function Find(cs: seq<CookieWrite>, name: string): (r: Option<CookieWrite>)
    ensures r.Some? ==> r.value in cs && r.value.name == name
    ensures r.None? <==> forall i :: 0 <= i < |cs| ==> cs[i].name != name
  {
    if cs == [] then None else if cs[0].name == name then Some(cs[0]) else Find(cs[1..], name)
  }

  function Names(cs: seq<CookieWrite>): (ns: seq<string>)
    ensures |ns| == |cs| && forall i :: 0 <= i < |cs| ==> ns[i] == cs[i].name
  {
    if cs == [] then [] else [cs[0].name] + Names(cs[1..])
  }

  /** `res.cookies.set`: replaces the write of the same name where it stands, or appends. */
  function Upsert(cs: seq<CookieWrite>, w: CookieWrite): (r: seq<CookieWrite>)
    ensures |r| == |cs| || |r| == |cs| + 1
  {
    if cs == [] then [w] else if cs[0].name == w.name then [w] + cs[1..] else [cs[0]] + Upsert(cs[1..], w)
  }

  /** After an upsert the name reads back the new write, and every other name reads as before. */
  lemma {:induction false} FindUpsert(cs: seq<CookieWrite>, w: CookieWrite, name: string)
    ensures Find(Upsert(cs, w), name) == if name == w.name then Some(w) else Find(cs, name)
  {
    if cs != [] && cs[0].name != w.name {
      FindUpsert(cs[1..], w, name);
    }
  }

  /** The first write for a name in a concatenation comes from the first part if it has one. */
  lemma {:induction false} FindAppend(a: seq<CookieWrite>, b: seq<CookieWrite>, name: string)
    ensures Find(a + b, name) == if Find(a, name).Some? then Find(a, name) else Find(b, name)
  {
    if a == [] {
      assert a + b == b;
    } else {
      assert (a + b)[0] == a[0];
      assert (a + b)[1..] == a[1..] + b;
      FindAppend(a[1..], b, name);
    }
  }

  /** Upserting a fresh name appends; names stay distinct. */
  lemma {:induction false} UpsertFresh(cs: seq<CookieWrite>, w: CookieWrite)
    requires Find(cs, w.name).None?
    ensures Upsert(cs, w) == cs + [w]
  {
    if cs != [] {
      UpsertFresh(cs[1..], w);
    }
  }

  /** A response the handler builds: the outcome is fixed when it is created, cookies are added afterwards. */
  class Response {
    const outcome: Outcome
    var cookies: seq<CookieWrite>

    constructor(o: Outcome)
      ensures outcome == o && cookies == []
    {
      outcome := o;
      cookies := [];
    }

    method Set(name: string, value: string, options: CookieOptions)
      modifies this
      ensures cookies == Upsert(old(cookies), CookieWrite(name, value, options))
    {
      cookies := Upsert(cookies, CookieWrite(name, value, options));
    }
  }

  /** `res.cookies.set` for a name the response has not written yet: the write is appended. */
  method SetFresh(res: Response, name: string, value: string, options: CookieOptions)
    requires Find(res.cookies, name).None?
    modifies res
    ensures res.cookies == old(res.cookies) + [CookieWrite(name, value, options)]
  {
    UpsertFresh(res.cookies, CookieWrite(name, value, options));
    res.Set(name, value, options);
  }

  /** `if (value) res.cookies.set(name, value, options)`, for a name not yet written. */
  method SetIfPresent(res: Response, name: string, value: Option<string>, options: CookieOptions)
    requires Find(res.cookies, name).None?
    modifies res
    ensures res.cookies == old(res.cookies) + if Present(value) then [CookieWrite(name, value.value, options)] else []
  {
    if Present(value) {
      SetFresh(res, name, value.value, options);
    }
  }

  /**
   * `new URL(pathAndQuery, origin).toString()` for a path without special
   * characters followed by `?query`: the parser escapes `'` in the query.
   */
  function RedirectUrl(origin: string, path: string, query: string): (u: string)
  {
    origin + path + (if query == [] then "" else "?" + Uri.QueryReencode(query))
  }

  /**
   * The `Cookie` header a user agent sends back for cookies it stored from
   * these writes, all with path `/`, in creation order (RFC 6265, section
   * 5.4): `name=value` pairs joined by `; `, each value as the framework
   * serialized it, through `encodeURIComponent`.
   */
  function CookieHeader(ws: seq<CookieWrite>): string {
    if ws == [] then []
    else
      ws[0].name + "=" + Uri.EncodeURIComponent(ws[0].value)
      + (if |ws| == 1 then "" else "; " + CookieHeader(ws[1..]))
  }

  lemma CookieHeaderTwo(w1: CookieWrite, w2: CookieWrite)
    ensures CookieHeader([w1, w2])
      == w1.name + "=" + Uri.EncodeURIComponent(w1.value) + "; " + w2.name + "=" + Uri.EncodeURIComponent(w2.value)
  {
    assert [w1, w2][1..] == [w2];
  }

  /** A request cookie store (`cookies()`, `req.cookies`), read as a map from name to value. */
  type CookieStore = map<string, string>

  function CookieValue(store: CookieStore, name: string): (v: Option<string>)
    ensures v.Some? <==> name in store
    ensures v.Some? ==> v.value == store[name]
  {
    if name in store then Some(store[name]) else None
  }

  /** A cookie value that is present and not empty: the application's presence test `!value`. */
  predicate Present(v: Option<string>) {
    v.Some? && v.value != []
  }

  /** A fetch response is ok when its status is in the range 200-299. */
  predicate IsOk(status: int) {
    200 <= status <= 299
  }
}
