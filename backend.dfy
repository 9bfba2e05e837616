/**
 * The server-side client of the reading backend, `backendFetchJSON`: it
 * shapes one JSON request, reads the whole reply as text, decodes it
 * leniently and turns a reply that is not ok into an `ApiError`. The
 * `fetch` outcome and `JSON.parse` are parameters of the model.
 */
module Backend {
  import opened Wrappers
  import opened Json
  import opened Http
  import JsText
  import opened UrlSearch

  /** `JSON.parse`, with `None` where it throws. */
  type Parser = string -> Option<Json>

  /** An `ApiError`: the reply's status, its decoded body, and the message `API Error <status>`. */
  datatype ApiError = ApiError(status: int, body: Json, message: string)

  /** `${n}` for an integer. */
  function IntText(n: int): string {
    if n < 0 then "-" + JsText.Decimal(-n) else JsText.Decimal(n)
  }

  /** `new ApiError(status, body)`. */
  function NewApiError(status: int, body: Json): (e: ApiError)
    ensures e.status == status && e.body == body
    ensures |e.message| > 10 && e.message[..10] == "API Error " && e.message[10..] == IntText(status)
  {
    var m := "API Error " + IntText(status);
    assert m[10..] == IntText(status);
    ApiError(status, body, m)
  }

  /** What the client can throw. */
  datatype Failure =
    | MissingBaseUrl        // `new Error("Missing env var: API_BASE_URL")`
    | FetchRejected         // `fetch` itself rejected
    | Api(error: ApiError)

  const MissingBaseUrlMessage: string := "Missing env var: API_BASE_URL"

  /** The options of a call; `body` is any JavaScript value. */
  datatype Options = Options(token: Option<string>, httpMethod: Option<string>, body: JsVal, cache: Option<string>)

  /** The request `fetch` is given; the body is the value `JSON.stringify` serializes. */
  datatype Request = Request(url: string, httpMethod: string, headers: Pairs, body: Option<JsVal>, cache: string)

  /** The outcome of `fetch`: a rejection, or a reply with its status and full text. */
  datatype Reply = Rejected | Replied(status: int, text: string)

  /** A call's end: it throws or returns the decoded data, and the request sent, if any. */
  datatype Settled<T> = Threw(failure: Failure) | Returned(value: T)

  datatype Call = Call(outcome: Settled<Json>, request: Option<Request>)

  /** The headers: `Authorization: Bearer <token>` when the token is a non-empty string, then the JSON content type. */
  function Headers(token: Option<string>): Pairs {
    (if Present(token) then [("Authorization", "Bearer " + token.value)] else []) + [("Content-Type", "application/json")]
  }

  function RequestFor(base: string, path: string, opts: Options): Request {
    Request(base + path, opts.httpMethod.GetOr("GET"), Headers(opts.token),
            if Truthy(opts.body) then Some(opts.body) else None, opts.cache.GetOr("no-store"))
  }

  /** `safeJson`: the parsed text, or the text itself as a string when it does not parse. */
  function SafeJson(text: string, parse: Parser): Json {
    match parse(text)
    case Some(v) => v
    case None => JStr(text)
  }

  /** `text ? safeJson(text) : null`. */
  function Decode(text: string, parse: Parser): Json {
    if text == [] then JNull else SafeJson(text, parse)
  }

  /** `backendFetchJSON(path, opts)` with the environment's base URL, the fetch outcome and the parser as parameters. */
  function BackendFetch(base: Option<string>, path: string, opts: Options, reply: Reply, parse: Parser): Call {
    if !Present(base) then Call(Threw(MissingBaseUrl), None)
    else
      var request := RequestFor(base.value, path, opts);
      match reply
      case Rejected => Call(Threw(FetchRejected), Some(request))
      case Replied(status, text) =>
        var data := Decode(text, parse);
        if !IsOk(status) then Call(Threw(Api(NewApiError(status, data))), Some(request))
        else Call(Returned(data), Some(request))
  }

  // ---------------------------------------------------------------------------
  // Properties.

  /** Without a base URL the client throws before sending anything. */
  lemma MissingBaseThrows(base: Option<string>, path: string, opts: Options, reply: Reply, parse: Parser)
    requires !Present(base)
    ensures BackendFetch(base, path, opts, reply, parse) == Call(Threw(MissingBaseUrl), None)
  {
  }

  /**
   * The request goes to the base followed by the path, with `GET` and
   * `no-store` unless the caller says otherwise, a bearer header exactly
   * when the token is a non-empty string, always the JSON content type, and
   * a body exactly when the caller's body is truthy.
   */
  lemma RequestShape(base: string, path: string, opts: Options, reply: Reply, parse: Parser)
    requires base != []
    ensures var r := BackendFetch(Some(base), path, opts, reply, parse).request;
      r.Some? && r.value.url == base + path
      && r.value.httpMethod == (if opts.httpMethod.Some? then opts.httpMethod.value else "GET")
      && r.value.cache == (if opts.cache.Some? then opts.cache.value else "no-store")
      && (Get(r.value.headers, "Authorization").Some? <==> Present(opts.token))
      && (Present(opts.token) ==> Get(r.value.headers, "Authorization") == Some("Bearer " + opts.token.value))
      && Get(r.value.headers, "Content-Type") == Some("application/json")
      && (r.value.body.Some? <==> Truthy(opts.body))
  {
    HeadersLookup(opts.token);
  }

  lemma HeadersLookup(token: Option<string>)
    ensures Get(Headers(token), "Authorization") == if Present(token) then Some("Bearer " + token.value) else None
    ensures Get(Headers(token), "Content-Type") == Some("application/json")
  {
    var hs := Headers(token);
    if Present(token) {
      assert hs[1..] == [("Content-Type", "application/json")];
    }
  }

  /** Decoding: empty text is `null`; other text is its parse, or the text itself when it does not parse. */
  lemma DecodeCases(text: string, parse: Parser)
    ensures text == [] ==> Decode(text, parse) == JNull
    ensures text != [] && parse(text).Some? ==> Decode(text, parse) == parse(text).value
    ensures text != [] && parse(text).None? ==> Decode(text, parse) == JStr(text)
  {
  }

  /**
   * A reply that is not ok throws an `ApiError` with the reply's status and
   * decoded body; an ok reply returns the decoded body.
   */
  lemma ReplyClassified(base: string, path: string, opts: Options, status: int, text: string, parse: Parser)
    requires base != []
    ensures var o := BackendFetch(Some(base), path, opts, Replied(status, text), parse).outcome;
      (IsOk(status) ==> o == Returned(Decode(text, parse)))
      && (!IsOk(status) ==> o.Threw? && o.failure.Api? && o.failure.error.status == status
                            && o.failure.error.body == Decode(text, parse))
  {
  }

  /** The message of an `ApiError` names its status. */
  lemma ApiErrorMessage(status: nat, body: Json)
    ensures NewApiError(status, body).message == "API Error " + JsText.Decimal(status)
  {
  }
}
