/**
 * The backend-for-frontend routes of the reading feature and the profile,
 * and the server-side progress loader. Each checks for the `id_token`
 * cookie, calls the backend through `backendFetchJSON` with that token as
 * bearer, and maps what comes back, or what is thrown, to one JSON response.
 */
module Routes {
  import opened Wrappers
  import opened Json
  import opened Http
  import opened Backend

  /** A route's JSON response, and the backend request it made, if any. */
  datatype RouteResult = RouteResult(response: Outcome, request: Option<Request>)

  const OkBody: Json := Obj1("ok", JBool(true))

  // ---------------------------------------------------------------------------
  // `PUT /api/reading/goal`.

  const GoalPath: string := "/v1/reading/goal"

  /** `Number(body?.pages)`, where an unparseable body reads as `{}`. */
  function GoalPages(body: Option<Json>): Num {
    ToNumber(Prop(Defined(body.GetOr(JObj(map[]))), "pages"))
  }

  /** The accepted page counts: finite numbers from 1 to 999. */
  predicate ValidPages(pages: Num) {
    IsFinite(pages) && 1.0 <= pages.r <= 999.0
  }

  function GoalOptions(idToken: string, pages: real): Options {
    Options(Some(idToken), Some("PUT"), Defined(Obj1("pages", JNum(pages))), Some("no-store"))
  }

  function BackendErrorBody(details: Json): Json {
    JObj(map["error" := JStr("Backend error"), "details" := details])
  }

  function ReadingGoal(store: CookieStore, body: Option<Json>, base: Option<string>, reply: Reply, parse: Parser): RouteResult {
    var idToken := CookieValue(store, "id_token");
    var pages := GoalPages(body);
    if !ValidPages(pages) then RouteResult(JsonResponse(422, ErrorBody("Invalid pages")), None)
    else if !Present(idToken) then RouteResult(JsonResponse(401, ErrorBody("Not authenticated")), None)
    else
      var call := BackendFetch(base, GoalPath, GoalOptions(idToken.value, pages.r), reply, parse);
      var response :=
        match call.outcome
        case Returned(data) => if data == JNull then JsonResponse(200, OkBody) else JsonResponse(200, data)
        case Threw(Api(e)) => JsonResponse(e.status, BackendErrorBody(e.body))
        case Threw(_) => JsonResponse(500, ErrorBody("Unexpected error"));
      RouteResult(response, call.request)
  }

  /** Invalid pages are answered 422 whether or not the user is signed in, and the backend is not called. */
  lemma GoalValidatesFirst(store: CookieStore, body: Option<Json>, base: Option<string>, reply: Reply, parse: Parser)
    requires !ValidPages(GoalPages(body))
    ensures ReadingGoal(store, body, base, reply, parse) == RouteResult(JsonResponse(422, ErrorBody("Invalid pages")), None)
  {
  }

  /** Valid pages without an id token are answered 401, and the backend is not called. */
  lemma GoalNeedsToken(store: CookieStore, body: Option<Json>, base: Option<string>, reply: Reply, parse: Parser)
    requires ValidPages(GoalPages(body)) && !Present(CookieValue(store, "id_token"))
    ensures ReadingGoal(store, body, base, reply, parse) == RouteResult(JsonResponse(401, ErrorBody("Not authenticated")), None)
  {
  }

  /**
   * With valid pages and a token the backend gets `PUT /v1/reading/goal`
   * with the token as bearer and `{ pages }` as body; `null` data becomes
   * `{ ok: true }`, other data is passed on with 200, an `ApiError` keeps its
   * status with the body as `details`, anything else is 500.
   */
  lemma GoalCall(store: CookieStore, body: Option<Json>, base: string, reply: Reply, parse: Parser)
    requires ValidPages(GoalPages(body)) && Present(CookieValue(store, "id_token")) && base != []
    ensures var id, pages := store["id_token"], GoalPages(body).r;
      var r := ReadingGoal(store, body, Some(base), reply, parse);
      var c := BackendFetch(Some(base), GoalPath, GoalOptions(id, pages), reply, parse);
      r.request == c.request
      && c.request.Some? && c.request.value.url == base + "/v1/reading/goal" && c.request.value.httpMethod == "PUT"
      && UrlSearch.Get(c.request.value.headers, "Authorization") == Some("Bearer " + id)
      && c.request.value.body == Some(Defined(Obj1("pages", JNum(pages))))
      && (c.outcome == Returned(JNull) ==> r.response == JsonResponse(200, OkBody))
      && (c.outcome.Returned? && c.outcome.value != JNull ==> r.response == JsonResponse(200, c.outcome.value))
      && (c.outcome.Threw? && c.outcome.failure.Api? ==>
            r.response == JsonResponse(c.outcome.failure.error.status, BackendErrorBody(c.outcome.failure.error.body)))
      && (c.outcome.Threw? && !c.outcome.failure.Api? ==> r.response == JsonResponse(500, ErrorBody("Unexpected error")))
  {
    RequestShape(base, GoalPath, GoalOptions(store["id_token"], GoalPages(body).r), reply, parse);
  }

  /** A body whose `pages` is a number from 1 to 999 is valid; `null`, a missing field or text that is not a number is not. */
  lemma GoalPagesExamples(n: real)
    ensures ValidPages(GoalPages(Some(Obj1("pages", JNum(n))))) <==> 1.0 <= n <= 999.0
    ensures !ValidPages(GoalPages(None)) && !ValidPages(GoalPages(Some(JNull)))
    ensures !ValidPages(GoalPages(Some(Obj1("pages", JNull))))
  {
  }

  // ---------------------------------------------------------------------------
  // `GET /api/reading/progress` and `GET /api/me`.

  const ProgressPath: string := "/v1/reading/progress"
  const MePath: string := "/v1/me"

  function ProgressOptions(idToken: string): Options {
    Options(Some(idToken), Some("GET"), Undefined, Some("no-store"))
  }

  function MeOptions(idToken: string): Options {
    Options(Some(idToken), None, Undefined, Some("no-store"))
  }

  /** The shared shape of both routes: data with 200, an `ApiError` with its status and body (or a fallback), else 500. */
  function Relay(call: Call, upstream: string, unexpected: string): Outcome {
    match call.outcome
    case Returned(data) => JsonResponse(200, data)
    case Threw(Api(e)) => JsonResponse(e.status, Coalesce(Defined(e.body), ErrorBody(upstream)))
    case Threw(_) => JsonResponse(500, ErrorBody(unexpected))
  }

  function ReadingProgress(store: CookieStore, base: Option<string>, reply: Reply, parse: Parser): RouteResult {
    var idToken := CookieValue(store, "id_token");
    if !Present(idToken) then RouteResult(JsonResponse(401, ErrorBody("Not authenticated")), None)
    else
      var call := BackendFetch(base, ProgressPath, ProgressOptions(idToken.value), reply, parse);
      RouteResult(Relay(call, "Upstream error", "Unexpected error"), call.request)
  }

  function Me(store: CookieStore, base: Option<string>, reply: Reply, parse: Parser): RouteResult {
    var idToken := CookieValue(store, "id_token");
    if !Present(idToken) then RouteResult(JsonResponse(401, ErrorBody("unauthorized")), None)
    else
      var call := BackendFetch(base, MePath, MeOptions(idToken.value), reply, parse);
      RouteResult(Relay(call, "upstream_error", "unknown_error"), call.request)
  }

  /** How a relayed call's end becomes the response: an error body that is `null` is replaced by the fallback. */
  lemma RelayCases(call: Call, upstream: string, unexpected: string)
    ensures call.outcome.Returned? ==> Relay(call, upstream, unexpected) == JsonResponse(200, call.outcome.value)
    ensures call.outcome.Threw? && call.outcome.failure.Api? ==>
      var e := call.outcome.failure.error;
      Relay(call, upstream, unexpected) == JsonResponse(e.status, if e.body == JNull then ErrorBody(upstream) else e.body)
    ensures call.outcome.Threw? && !call.outcome.failure.Api? ==>
      Relay(call, upstream, unexpected) == JsonResponse(500, ErrorBody(unexpected))
  {
  }

  /** Without an id token the progress route answers 401 and the backend is not called. */
  lemma ProgressNeedsToken(store: CookieStore, base: Option<string>, reply: Reply, parse: Parser)
    requires !Present(CookieValue(store, "id_token"))
    ensures ReadingProgress(store, base, reply, parse) == RouteResult(JsonResponse(401, ErrorBody("Not authenticated")), None)
  {
  }

  /** With a token the progress route sends `GET /v1/reading/progress` with it as bearer and relays the result. */
  lemma ProgressCall(store: CookieStore, base: string, reply: Reply, parse: Parser)
    requires Present(CookieValue(store, "id_token")) && base != []
    ensures var id := store["id_token"];
      var r := ReadingProgress(store, Some(base), reply, parse);
      var c := BackendFetch(Some(base), ProgressPath, ProgressOptions(id), reply, parse);
      r == RouteResult(Relay(c, "Upstream error", "Unexpected error"), c.request)
      && c.request.Some? && c.request.value.url == base + "/v1/reading/progress" && c.request.value.httpMethod == "GET"
      && UrlSearch.Get(c.request.value.headers, "Authorization") == Some("Bearer " + id)
  {
    RequestShape(base, ProgressPath, ProgressOptions(store["id_token"]), reply, parse);
  }

  /** Without an id token the profile route answers 401 `unauthorized` and the backend is not called. */
  lemma MeNeedsToken(store: CookieStore, base: Option<string>, reply: Reply, parse: Parser)
    requires !Present(CookieValue(store, "id_token"))
    ensures Me(store, base, reply, parse) == RouteResult(JsonResponse(401, ErrorBody("unauthorized")), None)
  {
  }

  /** With a token the profile route sends `GET /v1/me` with it as bearer and relays the result. */
  lemma MeCall(store: CookieStore, base: string, reply: Reply, parse: Parser)
    requires Present(CookieValue(store, "id_token")) && base != []
    ensures var id := store["id_token"];
      var r := Me(store, Some(base), reply, parse);
      var c := BackendFetch(Some(base), MePath, MeOptions(id), reply, parse);
      r == RouteResult(Relay(c, "upstream_error", "unknown_error"), c.request)
      && c.request.Some? && c.request.value.url == base + "/v1/me" && c.request.value.httpMethod == "GET"
      && UrlSearch.Get(c.request.value.headers, "Authorization") == Some("Bearer " + id)
  {
    RequestShape(base, MePath, MeOptions(store["id_token"]), reply, parse);
  }

  // ---------------------------------------------------------------------------
  // `getReadingProgressServer`.

  /** How the loader ends: it throws `Not authenticated`, passes on a backend failure, fails reading `progress` of `null`, or returns it. */
  datatype Loaded =
    | NotAuthenticated
    | Propagated(failure: Failure)
    | ReadOfNull
    | Progress(value: JsVal)

  function GetReadingProgressServer(store: CookieStore, base: Option<string>, reply: Reply, parse: Parser): (Loaded, Option<Request>) {
    var idToken := CookieValue(store, "id_token");
    if !Present(idToken) then (NotAuthenticated, None)
    else
      var call := BackendFetch(base, ProgressPath, ProgressOptions(idToken.value), reply, parse);
      match call.outcome
      case Threw(f) => (Propagated(f), call.request)
      case Returned(data) => if data == JNull then (ReadOfNull, call.request) else (Progress(Prop(Defined(data), "progress")), call.request)
  }

  /** Without an id token the loader throws before calling the backend. */
  lemma LoaderNeedsToken(store: CookieStore, base: Option<string>, reply: Reply, parse: Parser)
    requires !Present(CookieValue(store, "id_token"))
    ensures GetReadingProgressServer(store, base, reply, parse) == (NotAuthenticated, None)
  {
  }

  /**
   * With a token the loader makes the same request as the progress route;
   * backend failures propagate, a `null` reply (an empty body) fails when
   * its `progress` is read, and otherwise only the `progress` field of the
   * data is returned: `undefined` when the data is no object or lacks it.
   */
  lemma LoaderProjects(store: CookieStore, base: Option<string>, reply: Reply, parse: Parser)
    requires Present(CookieValue(store, "id_token"))
    ensures var (l, req) := GetReadingProgressServer(store, base, reply, parse);
      var c := BackendFetch(base, ProgressPath, ProgressOptions(store["id_token"]), reply, parse);
      req == c.request && req == ReadingProgress(store, base, reply, parse).request
      && (c.outcome.Threw? ==> l == Propagated(c.outcome.failure))
      && (c.outcome.Returned? && c.outcome.value == JNull ==> l == ReadOfNull)
      && (c.outcome.Returned? && c.outcome.value != JNull && !c.outcome.value.JObj? ==> l == Progress(Undefined))
      && (c.outcome.Returned? && c.outcome.value.JObj? ==>
            l == Progress(if "progress" in c.outcome.value.fields then Defined(c.outcome.value.fields["progress"]) else Undefined))
  {
  }
}
