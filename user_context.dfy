/**
 * The client-side user session of `UserProvider`: who is signed in (`me`,
 * `null` when nobody is), a status (`idle`, `loading`, `ready`, `error`) and
 * an error text. `refresh` asks `/api/me` again; the reply of that request is
 * a parameter. React's state setters are taken as field assignments made in
 * order.
 */
module UserContext {
  import opened Wrappers
  import opened Json

  datatype Status = Idle | Loading | Ready | Errored

  /** Reading the reply's body with `res.json()`. */
  datatype BodyRead = Parsed(data: Json) | BodyThrew(thrown: Thrown)

  /** The `/api/me` request: `fetch` throws, or a reply arrives with a status and a body still to read. */
  datatype MeReply = FetchThrew(thrown: Thrown) | Replied(status: int, body: BodyRead)

  /** The whole session state. `me == JNull` is `null`. */
  datatype Session = Session(me: Json, status: Status, error: Option<string>)

  /** `e instanceof Error ? e.message : "unknown_error"`. */
  function ErrorText(t: Thrown): string {
    MessageOr(t, "unknown_error")
  }

  /** The state once the request has settled, from the state `refresh` left before awaiting. */
  function Settle(s: Session, reply: MeReply): Session {
    match reply
    case FetchThrew(t) => Session(s.me, Errored, Some(ErrorText(t)))
    case Replied(code, body) =>
      if code == 401 then Session(JNull, Ready, Some("unauthorized"))
      else match body
        case Parsed(d) => Session(d, Ready, s.error)
        case BodyThrew(t) => Session(s.me, Errored, Some(ErrorText(t)))
  }

  /** The whole of `refresh`: first `loading` with the error cleared, then the settled state. */
  function AfterRefresh(me: Json, reply: MeReply): Session {
    Settle(Session(me, Loading, None), reply)
  }

  class UserSession {
    var me: Json
    var status: Status
    var error: Option<string>

    function State(): Session
      reads this
    {
      Session(me, status, error)
    }

    /** `UserProvider({ initialMe })`: `ready` when there is an initial user, `idle` otherwise; no error. */
    constructor(initialMe: Json)
      ensures me == initialMe
      ensures status == (if Truthy(Defined(initialMe)) then Ready else Idle)
      ensures error == None
    {
      me := initialMe;
      status := if Truthy(Defined(initialMe)) then Ready else Idle;
      error := None;
    }

    /** `setMe`: replaces the user and nothing else. */
    method SetMe(m: Json)
      modifies this
      ensures State() == Session(m, old(status), old(error))
    {
      me := m;
    }

    /** The part of `refresh` before the request: `loading`, error cleared, user kept. */
    method StartRefresh()
      modifies this
      ensures State() == Session(old(me), Loading, None)
    {
      status := Loading;
      error := None;
    }

    /** The part of `refresh` after the request. */
    method FinishRefresh(reply: MeReply)
      modifies this
      ensures State() == Settle(old(State()), reply)
    {
      match reply {
        case FetchThrew(t) =>
          status := Errored;
          error := Some(ErrorText(t));
        case Replied(code, body) =>
          if code == 401 {
            me := JNull;
            status := Ready;
            error := Some("unauthorized");
            return;
          }
          match body {
            case Parsed(d) =>
              me := d;
              status := Ready;
            case BodyThrew(t) =>
              status := Errored;
              error := Some(ErrorText(t));
          }
      }
    }

    /** `refresh()` with the reply it receives. */
    method Refresh(reply: MeReply)
      modifies this
      ensures State() == AfterRefresh(old(me), reply)
    {
      StartRefresh();
      FinishRefresh(reply);
    }
  }

  /** What `useUser` gives: the context, or the error it throws outside a provider. */
  datatype Hook = Throws(message: string) | Context(session: UserSession)

  const OutsideProvider: string := "useUser must be used within <UserProvider />"

  /** `useUser()`, with the context value (`None` outside a provider) as a parameter. */
  function UseUser(ctx: Option<UserSession>): Hook {
    if ctx.None? then Throws(OutsideProvider) else Context(ctx.value)
  }

  // ---------------------------------------------------------------------------
  // Properties of `refresh`.

  /** A 401 signs the user out, is `ready` and reports `unauthorized`; the body is not read, and the old user does not matter. */
  lemma UnauthorizedSignsOut(me: Json, body: BodyRead)
    ensures AfterRefresh(me, Replied(401, body)) == Session(JNull, Ready, Some("unauthorized"))
  {
  }

  /** Any other status stores the parsed body as the user, `ready` and without error, even when the status is not 2xx. */
  lemma OtherStatusStoresBody(me: Json, code: int, data: Json)
    requires code != 401
    ensures AfterRefresh(me, Replied(code, Parsed(data))) == Session(data, Ready, None)
  {
  }

  /** A throw, from `fetch` or from reading the body, keeps the user and reports `error` with the message or `unknown_error`. */
  lemma ThrowKeepsUser(me: Json, reply: MeReply)
    requires reply.FetchThrew? || (reply.Replied? && reply.status != 401 && reply.body.BodyThrew?)
    ensures var t := if reply.FetchThrew? then reply.thrown else reply.body.thrown;
      AfterRefresh(me, reply) == Session(me, Errored, Some(if t.ErrorWithMessage? then t.message else "unknown_error"))
  {
  }

  /**
   * `refresh` never ends in `loading`; it ends `ready` exactly when no
   * exception was caught, and then its error is set exactly when the status
   * was 401.
   */
  lemma RefreshSettles(me: Json, reply: MeReply)
    ensures var s := AfterRefresh(me, reply);
      s.status != Loading
      && (s.status == Ready <==> !(reply.FetchThrew? || (reply.status != 401 && reply.body.BodyThrew?)))
      && (s.status == Ready ==> (s.error.Some? <==> reply.status == 401))
      && (s.status == Errored ==> s.error.Some? && s.me == me)
  {
  }
}
