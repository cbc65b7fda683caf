/**
 * The chat endpoint (src/app/api/ai/chat/route.ts): a module-level map from
 * session keys to the conversation state, and the `POST` handler that
 * authenticates the caller, optionally resets the session, reads the user's
 * text, hands the turn to the orchestrator and stores what it returns.
 *
 * The authenticated user (or its absence) and the parsed request body are
 * inputs; the orchestrator runs its tools through `Tools(t, draws)`.
 */
module ChatRoute {
  import opened Text
  import opened Herramientas
  import opened Orchestrator

  /** What the map keeps per session. */
  datatype SessionState = SessionState(current_step: ChatStep, chat_history: seq<Content>)

  /** A session that has not started yet. */
  const Fresh: SessionState := SessionState(INICIAL, [])

  /** Request headers by lower-case name (`headers.get` gives null for a missing one). */
  type Headers = map<string, string>

  function Header(h: Headers, name: string): Option<string>
  {
    if name in h then Some(h[name]) else None
  }

  /** A value JavaScript's `||` keeps: present and non-empty. */
  predicate Truthy(v: Option<string>)
  {
    v.Some? && v.value != []
  }

  /** JavaScript's `a || b` where `a` may be missing. */
  function Or(a: Option<string>, b: string): string
  {
    if Truthy(a) then a.value else b
  }

  /** `getUserSessionKey`: the user id, else `x-session-id`, else `x-forwarded-for`, else "anon". */
  function GetUserSessionKey(headers: Headers, userId: Option<string>): (k: string)
    ensures k != []
    ensures Truthy(userId) ==> k == userId.value
    ensures !Truthy(userId) && Truthy(Header(headers, "x-session-id")) ==> k == headers["x-session-id"]
    ensures !Truthy(userId) && !Truthy(Header(headers, "x-session-id")) && Truthy(Header(headers, "x-forwarded-for"))
      ==> k == headers["x-forwarded-for"]
    ensures !Truthy(userId) && !Truthy(Header(headers, "x-session-id")) && !Truthy(Header(headers, "x-forwarded-for"))
      ==> k == "anon"
  {
    Or(userId, Or(Header(headers, "x-session-id"), Or(Header(headers, "x-forwarded-for"), "anon")))
  }

  /** `x-reset-session` equal to "true" in any letter case. */
  predicate WantsReset(headers: Headers)
  {
    Lower(if "x-reset-session" in headers then headers["x-reset-session"] else "") == "true"
  }

  lemma WantsResetAnyCase()
    ensures WantsReset(map["x-reset-session" := "TRUE"]) && WantsReset(map["x-reset-session" := "True"])
    ensures !WantsReset(map[]) && !WantsReset(map["x-reset-session" := "1"])
  {
    assert Lower("TRUE") == "true";
    assert Lower("True") == "true";
    assert |Lower("1")| == 1;
  }

  // ---------------------------------------------------------------------------
  // The request body
  // ---------------------------------------------------------------------------

  /** A field of the JSON body: a string, or anything else (absent included). */
  datatype Field = StrField(s: string) | OtherField

  /** `req.json()` either fails or gives an object (a non-object body has no fields). */
  datatype Body = Unparsable | Parsed(fields: map<string, Field>)

  /** `typeof body?.k === 'string' && body.k`, as an optional string. */
  function StringField(b: Body, k: string): Option<string>
  {
    if b.Parsed? && k in b.fields && b.fields[k].StrField? then Some(b.fields[k].s) else None
  }

  /** The fields `readUserText` tries, in order. */
  function TextFields(b: Body): seq<Option<string>>
  {
    [StringField(b, "prompt"), StringField(b, "input"), StringField(b, "message"), StringField(b, "text")]
  }

  /** `readUserText`: the first non-empty string field, trimmed; "" when there is none. */
  function ReadUserText(b: Body): (r: string)
    ensures r == [] || (!IsSpace(r[0]) && !IsSpace(r[|r| - 1]))
    ensures b.Unparsable? ==> r == []
  {
    Trim(Or(StringField(b, "prompt"), Or(StringField(b, "input"),
      Or(StringField(b, "message"), Or(StringField(b, "text"), "")))))
  }

  /**
   * The first non-empty string field decides, even when it is white space
   * only: the result is then "" although a later field holds text.
   */
  lemma ReadUserTextFirstField(b: Body, i: nat)
    requires i < 4 && Truthy(TextFields(b)[i])
    requires forall j :: 0 <= j < i ==> !Truthy(TextFields(b)[j])
    ensures ReadUserText(b) == Trim(TextFields(b)[i].value)
    ensures AllSpace(TextFields(b)[i].value) ==> ReadUserText(b) == []
  {
    var f := TextFields(b);
    TrimEmptyIffAllSpace(f[i].value);
    var chosen := Or(f[0], Or(f[1], Or(f[2], Or(f[3], ""))));
    assert ReadUserText(b) == Trim(chosen);
    if i == 0 {
      assert chosen == f[0].value;
    } else if i == 1 {
      assert !Truthy(f[0]);
      assert chosen == f[1].value;
    } else if i == 2 {
      assert !Truthy(f[0]) && !Truthy(f[1]);
      assert chosen == f[2].value;
    } else {
      assert !Truthy(f[0]) && !Truthy(f[1]) && !Truthy(f[2]);
      assert chosen == f[3].value;
    }
  }

  /** A prompt of white space only hides every later field, a `text` with words included. */
  lemma WhitespacePromptHidesText(b: Body, p: string, t: string)
    requires b.Parsed? && b.fields == map["prompt" := StrField(p), "text" := StrField(t)]
    requires p != [] && AllSpace(p)
    ensures ReadUserText(b) == []
  {
    assert TextFields(b)[0] == Some(p);
    ReadUserTextFirstField(b, 0);
  }

  // ---------------------------------------------------------------------------
  // The display name
  // ---------------------------------------------------------------------------

  /** The authenticated user as the handler reads it. */
  datatype AuthUser = AuthUser(id: string, email: JsStr, full_name: JsStr, name: JsStr)

  function Opt(v: JsStr): Option<string>
  {
    if v.Str? then Some(v.s) else None
  }

  /** The part of the e-mail before the first '@', or "" without an e-mail. */
  function Nick(u: AuthUser): (n: string)
    ensures '@' !in n
    ensures Truthy(Opt(u.email)) ==> n <= u.email.s
    ensures !Truthy(Opt(u.email)) ==> n == []
  {
    if Truthy(Opt(u.email)) then
      SplitFirst(u.email.s, '@');
      Split(u.email.s, '@')[0]
    else []
  }

  /** The display name: full name, else name, else the e-mail's local part, else "parcera", trimmed. */
  function DisplayName(u: AuthUser): (d: string)
    ensures d == [] || (!IsSpace(d[0]) && !IsSpace(d[|d| - 1]))
    ensures Truthy(Opt(u.full_name)) ==> d == Trim(u.full_name.s)
  {
    assert Truthy(Opt(u.full_name)) ==> NameSource(u) == u.full_name.s;
    Trim(NameSource(u))
  }

  /** Without a name and an e-mail the prompt addresses the user as "parcera". */
  lemma DisplayNameDefault(u: AuthUser)
    requires !Truthy(Opt(u.full_name)) && !Truthy(Opt(u.name)) && !Truthy(Opt(u.email))
    ensures DisplayName(u) == "parcera"
  {
    assert NameSource(u) == "parcera";
    TrimOfTrimmed("parcera");
  }

  /** `full || nick || 'parcera'`, with `full` itself `full_name || name`. */
  function NameSource(u: AuthUser): string
  {
    Or(Opt(u.full_name), Or(Opt(u.name), Or(Some(Nick(u)), "parcera")))
  }

  /** Without a full name or a name, the e-mail's local part is used, unless it is empty. */
  lemma DisplayNameFromEmail(u: AuthUser)
    requires !Truthy(Opt(u.full_name)) && !Truthy(Opt(u.name))
    ensures Nick(u) != [] ==> DisplayName(u) == Trim(Nick(u))
    ensures Nick(u) == [] ==> DisplayName(u) == "parcera"
  {
    assert NameSource(u) == if Nick(u) != [] then Nick(u) else "parcera";
    TrimOfTrimmed("parcera");
  }

  // ---------------------------------------------------------------------------
  // POST
  // ---------------------------------------------------------------------------

  datatype Response =
    | JsonError(status: int, error: string)
    | PlainText(status: int, text: string)
    | Rejected                                   // the handler's promise rejects

  datatype PostResult = PostResult(response: Response, sessions: map<string, SessionState>)

  /** The map after the reset and initialisation steps. */
  function Initialised(sessions: map<string, SessionState>, key: string, reset: bool): (m: map<string, SessionState>)
    ensures key in m
    ensures m[key] == if !reset && key in sessions then sessions[key] else Fresh
    ensures forall k :: k != key ==> (k in m <==> k in sessions) && (k in m ==> m[k] == sessions[k])
  {
    var m := if reset then sessions - {key} else sessions;
    if key in m then m else m[key := Fresh]
  }

  /** The orchestrator as the handler calls it: text, step, display name, history. */
  type TurnFn = (string, ChatStep, Option<string>, seq<Content>) -> Outcome

  /** `orchestrateTurn`, its tools run by `run`. */
  function Orchestrate(run: Runner, configured: bool, model: Oracle): TurnFn
  {
    (text: string, step: ChatStep, name: Option<string>, hist: seq<Content>) =>
      Turn(run, configured, model, text, step, name, hist)
  }

  /** The `POST` handler as a function of the map and the request. */
  function PostOutcome(sessions: map<string, SessionState>, user: Option<AuthUser>, headers: Headers, body: Body,
                       turn: TurnFn): PostResult
  {
    if user.None? then PostResult(JsonError(401, "Unauthorized"), sessions)
    else
      var key := GetUserSessionKey(headers, Some(user.value.id));
      var m := Initialised(sessions, key, WantsReset(headers));
      var userText := ReadUserText(body);
      if userText == [] then PostResult(JsonError(400, "Texto vacío"), m)
      else Respond(m, key, turn(userText, m[key].current_step, Some(DisplayName(user.value)), m[key].chat_history))
  }

  /** Steps 5 to 7: the answer and the map after the orchestrator returned `o`. */
  function Respond(m: map<string, SessionState>, key: string, o: Outcome): (r: PostResult)
    ensures o.NoResult? ==> r == PostResult(JsonError(500, "No se pudo procesar la solicitud"), m)
    ensures o.Crashed? ==> r == PostResult(Rejected, m)
    ensures o.Output? ==> r == PostResult(PlainText(200, o.assistant_message),
                                          m[key := SessionState(o.new_step, o.new_chat_history)])
  {
    match o
    case NoResult => PostResult(JsonError(500, "No se pudo procesar la solicitud"), m)
    case Crashed => PostResult(Rejected, m)
    case Output(step, text, hist) => PostResult(PlainText(200, text), m[key := SessionState(step, hist)])
  }

  /** Whatever the orchestrator returned, only `key` can change, and it stays mapped. */
  lemma RespondOnlyKey(m: map<string, SessionState>, key: string, o: Outcome)
    requires key in m
    ensures var r := Respond(m, key, o).sessions;
      key in r && forall k :: k != key ==> (k in r <==> k in m) && (k in m ==> r[k] == m[k])
  {
  }

  /** The state a request finds under its key after the reset and initialisation steps. */
  function Before(sessions: map<string, SessionState>, key: string, headers: Headers): SessionState
  {
    if !WantsReset(headers) && key in sessions then sessions[key] else Fresh
  }

  /** An unauthenticated request gets 401 and leaves the map as it was. */
  lemma PostUnauthorized(sessions: map<string, SessionState>, headers: Headers, body: Body, turn: TurnFn)
    ensures PostOutcome(sessions, None, headers, body, turn) == PostResult(JsonError(401, "Unauthorized"), sessions)
  {
  }

  /** An authenticated request leaves its key mapped and every other key as it was. */
  lemma PostOnlyOwnKey(sessions: map<string, SessionState>, user: AuthUser, headers: Headers, body: Body, turn: TurnFn)
    ensures var key := GetUserSessionKey(headers, Some(user.id));
      var r := PostOutcome(sessions, Some(user), headers, body, turn).sessions;
      && key in r
      && forall k :: k != key ==> (k in r <==> k in sessions) && (k in sessions ==> r[k] == sessions[k])
  {
    var key := GetUserSessionKey(headers, Some(user.id));
    var m := Initialised(sessions, key, WantsReset(headers));
    if ReadUserText(body) != [] {
      var o := turn(ReadUserText(body), m[key].current_step, Some(DisplayName(user)), m[key].chat_history);
      RespondOnlyKey(m, key, o);
    }
  }

  /** Empty text: 400, the orchestrator is not asked, the key holds what it held (fresh after a reset). */
  lemma PostEmptyText(sessions: map<string, SessionState>, user: AuthUser, headers: Headers, body: Body, turn: TurnFn)
    requires ReadUserText(body) == []
    ensures var key := GetUserSessionKey(headers, Some(user.id));
      var r := PostOutcome(sessions, Some(user), headers, body, turn);
      r.response == JsonError(400, "Texto vacío") && r.sessions[key] == Before(sessions, key, headers)
  {
  }

  /**
   * With text, the orchestrator gets the stored step and history: no result
   * gives 500 and a rejection leaves the entry as it was; a result gives 200
   * with the assistant's text and replaces the entry.
   */
  lemma PostWithText(sessions: map<string, SessionState>, user: AuthUser, headers: Headers, body: Body, turn: TurnFn)
    requires ReadUserText(body) != []
    ensures var key := GetUserSessionKey(headers, Some(user.id));
      var before := Before(sessions, key, headers);
      var r := PostOutcome(sessions, Some(user), headers, body, turn);
      var o := turn(ReadUserText(body), before.current_step, Some(DisplayName(user)), before.chat_history);
      && (o.NoResult? ==> r.response == JsonError(500, "No se pudo procesar la solicitud") && r.sessions[key] == before)
      && (o.Crashed? ==> r.response == Rejected && r.sessions[key] == before)
      && (o.Output? ==> (r.response == PlainText(200, o.assistant_message)
                          && r.sessions[key] == SessionState(o.new_step, o.new_chat_history)))
  {
  }

  /** A reset with an empty text still deletes what the key held. */
  lemma ResetThenEmptyText(sessions: map<string, SessionState>, user: AuthUser, headers: Headers, body: Body,
                           turn: TurnFn)
    requires WantsReset(headers) && ReadUserText(body) == []
    ensures var key := GetUserSessionKey(headers, Some(user.id));
      PostOutcome(sessions, Some(user), headers, body, turn).sessions == sessions[key := Fresh]
  {
    var key := GetUserSessionKey(headers, Some(user.id));
    InitialisedAfterReset(sessions, key);
  }

  lemma InitialisedAfterReset(sessions: map<string, SessionState>, key: string)
    ensures Initialised(sessions, key, true) == sessions[key := Fresh]
  {
    var r := Initialised(sessions, key, true);
    assert forall k :: k in r <==> k in sessions[key := Fresh];
    assert forall k :: k in r ==> r[k] == sessions[key := Fresh][k];
  }

  /** The endpoint: the module-level `sessionStates` map and its handler. */
  class Endpoint {
    var sessionStates: map<string, SessionState>

    constructor()
      ensures sessionStates == map[]
    {
      sessionStates := map[];
    }

    method Post(user: Option<AuthUser>, headers: Headers, body: Body,
                t: Tables, draws: nat -> real, configured: bool, model: Oracle)
      returns (response: Response)
      requires ValidDraws(draws)
      modifies this
      ensures PostResult(response, sessionStates)
        == PostOutcome(old(sessionStates), user, headers, body, Orchestrate(Tools(t, draws), configured, model))
    {
      if user.None? {
        return JsonError(401, "Unauthorized");
      }
      var displayName := DisplayName(user.value);
      var sessionKey := GetUserSessionKey(headers, Some(user.value.id));
      if WantsReset(headers) {
        sessionStates := sessionStates - {sessionKey};
      }
      if sessionKey !in sessionStates {
        sessionStates := sessionStates[sessionKey := Fresh];
      }
      var state := sessionStates[sessionKey];
      var userText := ReadUserText(body);
      if userText == [] {
        return JsonError(400, "Texto vacío");
      }
      var result, _, _ := OrchestrateTurn(t, configured, model, draws, userText, state.current_step,
                                          Some(displayName), state.chat_history);
      match result
      case NoResult =>
        response := JsonError(500, "No se pudo procesar la solicitud");
      case Crashed =>
        response := Rejected;
      case Output(step, text, hist) =>
        sessionStates := sessionStates[sessionKey := SessionState(step, hist)];
        response := PlainText(200, text);
    }
  }
}
