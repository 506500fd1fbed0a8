/** The credential store (users, sessions, platforms, agents) and the session check that the
    platform, agent and test routers each run before every request. */
module Store {
  import opened Common
  import opened Strings
  import opened Tables

  /** Sessions last 24 hours from login, in milliseconds (`24 * 60 * 60 * 1000`). */
  const DAY_MS: int := 24 * 60 * 60 * 1000

  const UNAUTHORIZED: string := "未授权访问"
  const SESSION_EXPIRED: string := "会话已过期"

  datatype User = User(id: int, username: string, passwordHash: string)

  /** A row of `sessions`: the token, the username given at login, the expiry and the owner. */
  datatype Session = Session(id: string, username: string, expiresAt: int, userId: int)

  /** What the session check hands to a route (`c.set('user', …)`): the caller's id and name. */
  datatype Identity = Identity(id: int, username: string)

  /** The columns of a platform besides id, owner and name. */
  datatype PlatformData = PlatformData(apiBaseUrl: string, apiKey: string, models: string, adminUrl: Option<string>)

  type Platform = Row<PlatformData>
  type Agent = Row<Json>

  /** Which mandatory platform fields a request carried (`details` of a rejected update). */
  datatype FieldFlags = FieldFlags(name: bool, apiBaseUrl: bool, apiKey: bool, models: bool)

  /** The JSON bodies the routes answer with. */
  datatype Body =
    | Failure(message: string)                              // {success: false, message}
    | Registered(userId: int)                               // {success: true, message, userId}
    | LoggedIn(sessionId: string, userId: int, username: string)
    | Verified(userId: int, username: string)               // {valid: true, userId, username}
    | NotVerified                                           // {valid: false}
    | LoggedOut                                             // {success: true}
    | Error(error: string)                                  // {error}
    | MissingFields(error: string, details: FieldFlags)     // {error, details}
    | ErrorDetail(error: string, detail: string)            // {error, details: <driver message>}
    | PlatformList(platforms: seq<Platform>)
    | AgentList(agents: seq<Agent>)
    | Created(id: int, message: string)                     // {id, message}
    | UpdatedWithId(id: int)                                // {message, id}
    | Message(message: string)                              // {message}
    | Command(command: string)
    | AgentVars(resolvedVars: map<string, Json>, originalVars: Json)
    | Executed(status: int, data: Json)                     // {success: true, status, data}
    | ExecuteFailed(error: string)                          // {success: false, error}

  datatype Response = Response(status: int, body: Body)

  ghost predicate UsersWellFormed(users: seq<User>, nextId: int) {
    && (forall i, j :: 0 <= i < j < |users| ==> users[i].id < users[j].id)
    && (forall i :: 0 <= i < |users| ==> users[i].id < nextId)
    && (forall i, j :: 0 <= i < j < |users| ==> users[i].username != users[j].username)
  }

  /** Session ids are primary keys. */
  ghost predicate SessionIdsUnique(sessions: seq<Session>) {
    forall i, j :: 0 <= i < j < |sessions| ==> sessions[i].id != sessions[j].id
  }

  /** `SELECT … FROM users WHERE id = ?`, first row. */
  function FindUser(users: seq<User>, id: int): (r: Option<User>)
    ensures r.Some? ==> r.value in users && r.value.id == id
    ensures r.None? <==> forall u :: u in users ==> u.id != id
    decreases |users|
  {
    if users == [] then None
    else if users[0].id == id then Some(users[0])
    else FindUser(users[1..], id)
  }

  /** Session `s` joins user `u` and, at time `now`, grants `u`'s identity for `token`. */
  ghost predicate Grants(s: Session, u: User, token: string, now: int) {
    s.id == token && s.expiresAt > now && u.id == s.userId
  }

  /** The session query of the middleware and of `/verify`:
      `sessions JOIN users ON s.user_id = u.id WHERE s.id = ? AND s.expires_at > now`, first row.
      It finds an identity exactly when some unexpired session with this token joins a user,
      and then the identity is that user's. */
  function FindSession(users: seq<User>, sessions: seq<Session>, token: string, now: int): (r: Option<Identity>)
    ensures r.Some? <==> exists s, u :: s in sessions && u in users && Grants(s, u, token, now)
    ensures r.Some? ==> exists s, u :: s in sessions && u in users && Grants(s, u, token, now)
                                       && r.value == Identity(u.id, u.username)
    decreases |sessions|
  {
    if sessions == [] then None
    else
      var s := sessions[0];
      if s.id == token && s.expiresAt > now && FindUser(users, s.userId).Some? then
        var u := FindUser(users, s.userId).value;
        assert Grants(s, u, token, now);
        Some(Identity(u.id, u.username))
      else
        var r := FindSession(users, sessions[1..], token, now);
        assert forall s' :: s' in sessions[1..] ==> s' in sessions;
        assert forall u :: u in users && Grants(s, u, token, now) ==> FindUser(users, s.userId).Some?;
        r
  }

  /** `header.replace('Bearer ', '')`: the first `Bearer ` is removed wherever it stands. */
  function BearerToken(header: string): (token: string)
    ensures token == header || |token| + |"Bearer "| == |header|
    ensures 'B' !in header ==> token == header
  {
    RemoveFirst(header, "Bearer ")
  }

  /** The token is the header with its first `Bearer ` removed, wherever that stands, and the
      header itself when it holds no `Bearer `. */
  lemma BearerTokenFirstOccurrence(header: string)
    ensures !Occurs("Bearer ", header) ==> BearerToken(header) == header
    ensures Occurs("Bearer ", header) ==>
      exists i :: FirstOccurrenceAt("Bearer ", header, i) && BearerToken(header) == header[..i] + header[i + |"Bearer "|..]
  {
    RemoveFirstFirstOccurrence(header, "Bearer ");
  }

  /** The session check copied into the platform, agent and test routers: no header or an
      empty token is "unauthorized", a token without a live session is "expired" (both 401);
      otherwise the caller's identity. It reads the store and changes nothing. */
  function Authenticate(users: seq<User>, sessions: seq<Session>, now: int, header: Option<string>): (r: Result<Identity, Response>)
    ensures r.Err? ==> r.error == Response(401, Error(
              if header.None? || BearerToken(header.value) == "" then UNAUTHORIZED else SESSION_EXPIRED))
    ensures r.Ok? <==> header.Some? && BearerToken(header.value) != ""
                       && FindSession(users, sessions, BearerToken(header.value), now).Some?
    ensures r.Ok? ==> exists s, u :: s in sessions && u in users
                       && Grants(s, u, BearerToken(header.value), now) && r.value == Identity(u.id, u.username)
  {
    if header.None? then Err(Response(401, Error(UNAUTHORIZED)))
    else
      var token := BearerToken(header.value);
      if token == "" then Err(Response(401, Error(UNAUTHORIZED)))
      else
        match FindSession(users, sessions, token, now)
        case None => Err(Response(401, Error(SESSION_EXPIRED)))
        case Some(who) => Ok(who)
  }

  /** A `Bearer <token>` header authenticates exactly as the session `<token>` does. */
  lemma BearerHeader(users: seq<User>, sessions: seq<Session>, now: int, token: string)
    requires token != ""
    ensures Authenticate(users, sessions, now, Some("Bearer " + token))
         == match FindSession(users, sessions, token, now)
            case None => Err(Response(401, Error(SESSION_EXPIRED)))
            case Some(who) => Ok(who)
  {
    RemoveFirstPrefix(token, "Bearer ");
  }

  /** The scheme is not checked as a prefix: text before `Bearer ` stays in the token. */
  lemma BearerNotAPrefix(before: string, token: string)
    requires 'B' !in before
    ensures BearerToken(before + "Bearer " + token) == before + token
  {
    assert "Bearer "[0] == 'B';
    assert before + "Bearer " + token == before + ("Bearer " + token);
    RemoveFirstSkip(before, "Bearer " + token, "Bearer ");
    RemoveFirstPrefix(token, "Bearer ");
  }

  /** The database. `now` is the clock the session expiry is compared with; `hash` stands for
      the SHA-256 hex digest the routes apply to passwords; `nextId` is the next row id. */
  class Store {
    var users: seq<User>
    var sessions: seq<Session>
    var platforms: seq<Platform>
    var agents: seq<Agent>
    var nextId: int
    var now: int
    const hash: string -> string

    ghost predicate Valid()
      reads this
    {
      && 1 <= nextId
      && UsersWellFormed(users, nextId)
      && SessionIdsUnique(sessions)
      && WellFormed(platforms, nextId)
      && WellFormed(agents, nextId)
    }

    constructor (hash: string -> string, now: int)
      ensures Valid()
      ensures users == [] && sessions == [] && platforms == [] && agents == []
      ensures nextId == 1 && this.now == now && this.hash == hash
    {
      this.hash := hash;
      this.now := now;
      users, sessions, platforms, agents := [], [], [], [];
      nextId := 1;
    }

    /** The session check against this store. */
    function Auth(header: Option<string>): Result<Identity, Response>
      reads this
    {
      Authenticate(users, sessions, now, header)
    }
  }
}
