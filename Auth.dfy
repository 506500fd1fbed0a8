/** The authentication routes: register, login, verify and logout. */
module Auth {
  import opened Common
  import opened Store

  const EMPTY_CREDENTIALS: string := "用户名和密码不能为空"
  const USERNAME_TAKEN: string := "用户名已存在"
  const BAD_CREDENTIALS: string := "用户名或密码错误"

  predicate UsernameTaken(users: seq<User>, name: string) {
    exists u :: u in users && u.username == name
  }

  /** `SELECT id, username, password_hash FROM users WHERE username = ?`, first row. */
  function FindUserByName(users: seq<User>, name: string): (r: Option<User>)
    ensures r.Some? ==> r.value in users && r.value.username == name
    ensures r.None? <==> !UsernameTaken(users, name)
    decreases |users|
  {
    if users == [] then None
    else if users[0].username == name then Some(users[0])
    else
      assert forall u :: u in users[1..] ==> u in users;
      FindUserByName(users[1..], name)
  }

  /** `DELETE FROM sessions WHERE id = ?`. */
  function RemoveSession(sessions: seq<Session>, token: string): (r: seq<Session>)
    ensures forall s :: s in r <==> s in sessions && s.id != token
    ensures |r| <= |sessions|
    decreases |sessions|
  {
    if sessions == [] then []
    else if sessions[0].id == token then RemoveSession(sessions[1..], token)
    else [sessions[0]] + RemoveSession(sessions[1..], token)
  }

  /** POST /register. An empty username or password, or a username already taken, is a 400
      and no user is created; otherwise one user is appended with the hashed password and its
      new id is returned. */
  method Register(st: Store, username: Option<string>, password: Option<string>) returns (resp: Response)
    requires st.Valid()
    modifies st
    ensures st.Valid()
    ensures st.sessions == old(st.sessions) && st.platforms == old(st.platforms)
    ensures st.agents == old(st.agents) && st.now == old(st.now)
    ensures !Present(username) || !Present(password) ==>
      resp == Response(400, Failure(EMPTY_CREDENTIALS))
      && st.users == old(st.users) && st.nextId == old(st.nextId)
    ensures Present(username) && Present(password) && UsernameTaken(old(st.users), username.value) ==>
      resp == Response(400, Failure(USERNAME_TAKEN))
      && st.users == old(st.users) && st.nextId == old(st.nextId)
    ensures Present(username) && Present(password) && !UsernameTaken(old(st.users), username.value) ==>
      resp == Response(200, Registered(old(st.nextId)))
      && st.users == old(st.users) + [User(old(st.nextId), username.value, st.hash(password.value))]
      && st.nextId == old(st.nextId) + 1
  {
    if !Present(username) || !Present(password) {
      return Response(400, Failure(EMPTY_CREDENTIALS));
    }
    if UsernameTaken(st.users, username.value) {
      return Response(400, Failure(USERNAME_TAKEN));
    }
    var id := st.nextId;
    st.users := st.users + [User(id, username.value, st.hash(password.value))];
    st.nextId := id + 1;
    resp := Response(200, Registered(id));
  }

  /** POST /login. An unknown username and a wrong password give the same 401 body. On a
      match exactly one session is appended: the new token `uuid` (crypto.randomUUID), owned by
      that user, expiring 24 hours from now; nothing else changes. */
  method Login(st: Store, username: Option<string>, password: Option<string>, uuid: string) returns (resp: Response)
    requires st.Valid()
    requires forall s :: s in st.sessions ==> s.id != uuid
    modifies st
    ensures st.Valid()
    ensures st.users == old(st.users) && st.platforms == old(st.platforms) && st.agents == old(st.agents)
    ensures st.nextId == old(st.nextId) && st.now == old(st.now)
    ensures !Present(username) || !Present(password) ==>
      resp == Response(400, Failure(EMPTY_CREDENTIALS)) && st.sessions == old(st.sessions)
    ensures Present(username) && Present(password) && !UsernameTaken(st.users, username.value) ==>
      resp == Response(401, Failure(BAD_CREDENTIALS)) && st.sessions == old(st.sessions)
    ensures Present(username) && Present(password) ==>
      forall u :: u in st.users && u.username == username.value && u.passwordHash != st.hash(password.value) ==>
        resp == Response(401, Failure(BAD_CREDENTIALS)) && st.sessions == old(st.sessions)
    ensures Present(username) && Present(password) ==>
      forall u :: u in st.users && u.username == username.value && u.passwordHash == st.hash(password.value) ==>
        resp == Response(200, LoggedIn(uuid, u.id, u.username))
        && st.sessions == old(st.sessions) + [Session(uuid, username.value, st.now + DAY_MS, u.id)]
  {
    if !Present(username) || !Present(password) {
      return Response(400, Failure(EMPTY_CREDENTIALS));
    }
    var found := FindUserByName(st.users, username.value);
    if found.None? {
      return Response(401, Failure(BAD_CREDENTIALS));
    }
    var user := found.value;
    forall u | u in st.users && u.username == username.value ensures u == user {
      UniqueUsername(st.users, st.nextId, u, user);
    }
    if st.hash(password.value) != user.passwordHash {
      return Response(401, Failure(BAD_CREDENTIALS));
    }
    var expiresAt := st.now + DAY_MS;
    st.sessions := st.sessions + [Session(uuid, username.value, expiresAt, user.id)];
    resp := Response(200, LoggedIn(uuid, user.id, user.username));
  }

  lemma UniqueUsername(users: seq<User>, nextId: int, a: User, b: User)
    requires UsersWellFormed(users, nextId)
    requires a in users && b in users && a.username == b.username
    ensures a == b
  {
    var i :| 0 <= i < |users| && users[i] == a;
    var j :| 0 <= j < |users| && users[j] == b;
    assert users[i].username == users[j].username;
  }

  /** POST /verify. A falsy sessionId is a 401 with `valid: false`; otherwise the answer is
      `valid: true` with the user's id and name exactly when the session query finds a live
      session. The store is only read: verification never extends a session. */
  method Verify(st: Store, sessionId: Option<string>) returns (resp: Response)
    ensures !Present(sessionId) ==> resp == Response(401, NotVerified)
    ensures Present(sessionId) ==>
      resp == match FindSession(st.users, st.sessions, sessionId.value, st.now)
              case Some(who) => Response(200, Verified(who.id, who.username))
              case None => Response(401, NotVerified)
  {
    if !Present(sessionId) {
      return Response(401, NotVerified);
    }
    var found := FindSession(st.users, st.sessions, sessionId.value, st.now);
    if found.Some? {
      resp := Response(200, Verified(found.value.id, found.value.username));
    } else {
      resp := Response(401, NotVerified);
    }
  }

  /** POST /logout. Always `success: true`; a truthy sessionId's session row is deleted. */
  method Logout(st: Store, sessionId: Option<string>) returns (resp: Response)
    requires st.Valid()
    modifies st
    ensures st.Valid()
    ensures resp == Response(200, LoggedOut)
    ensures st.users == old(st.users) && st.platforms == old(st.platforms) && st.agents == old(st.agents)
    ensures st.nextId == old(st.nextId) && st.now == old(st.now)
    ensures st.sessions == if Present(sessionId) then RemoveSession(old(st.sessions), sessionId.value) else old(st.sessions)
  {
    if Present(sessionId) {
      RemoveSessionUnique(st.sessions, sessionId.value);
      st.sessions := RemoveSession(st.sessions, sessionId.value);
    }
    resp := Response(200, LoggedOut);
  }

  lemma {:induction false} RemoveSessionUnique(sessions: seq<Session>, token: string)
    requires SessionIdsUnique(sessions)
    ensures SessionIdsUnique(RemoveSession(sessions, token))
    decreases |sessions|
  {
    if sessions != [] {
      var rest := sessions[1..];
      assert SessionIdsUnique(rest) by {
        forall i, j | 0 <= i < j < |rest| ensures rest[i].id != rest[j].id {
          assert rest[i] == sessions[i + 1] && rest[j] == sessions[j + 1];
        }
      }
      RemoveSessionUnique(rest, token);
      if sessions[0].id != token {
        var r := [sessions[0]] + RemoveSession(rest, token);
        forall j | 1 <= j < |r| ensures r[0].id != r[j].id {
          assert r[j] in RemoveSession(rest, token);
          assert r[j] in rest;
          var k :| 0 <= k < |rest| && rest[k] == r[j];
          assert sessions[k + 1] == r[j];
        }
      }
    }
  }

  /** A session created at login at time `now` lets its owner in at every moment `t` before
      `now + 24h`, and at no moment from then on: use never extends it. */
  lemma SessionLifetime(users: seq<User>, nextId: int, sessions: seq<Session>, uuid: string, u: User, now: int, t: int)
    requires UsersWellFormed(users, nextId) && u in users
    requires forall s :: s in sessions ==> s.id != uuid
    ensures var after := sessions + [Session(uuid, u.username, now + DAY_MS, u.id)];
      FindSession(users, after, uuid, t) == if t < now + DAY_MS then Some(Identity(u.id, u.username)) else None
  {
    var created := Session(uuid, u.username, now + DAY_MS, u.id);
    var after := sessions + [created];
    var r := FindSession(users, after, uuid, t);
    if t < now + DAY_MS {
      assert created in after && Grants(created, u, uuid, t);
      var s, v :| s in after && v in users && Grants(s, v, uuid, t) && r.value == Identity(v.id, v.username);
      assert s == created;
      UniqueUserId(users, nextId, u, v);
    } else {
      forall s, v | s in after && v in users ensures !Grants(s, v, uuid, t) {
        if s.id == uuid {
          assert s == created;
        }
      }
    }
  }

  lemma UniqueUserId(users: seq<User>, nextId: int, a: User, b: User)
    requires UsersWellFormed(users, nextId)
    requires a in users && b in users && a.id == b.id
    ensures a == b
  {
    var i :| 0 <= i < |users| && users[i] == a;
    var j :| 0 <= j < |users| && users[j] == b;
    assert users[i].id == users[j].id;
  }

  /** After logout of a token, no moment exists at which that token is accepted. */
  lemma LoggedOutTokenRejected(users: seq<User>, sessions: seq<Session>, token: string, t: int)
    ensures FindSession(users, RemoveSession(sessions, token), token, t).None?
  {
  }

  /** A second logout of the same token changes nothing. */
  lemma {:induction false} LogoutIdempotent(sessions: seq<Session>, token: string)
    ensures RemoveSession(RemoveSession(sessions, token), token) == RemoveSession(sessions, token)
    decreases |sessions|
  {
    if sessions != [] {
      LogoutIdempotent(sessions[1..], token);
      if sessions[0].id != token {
        var rest := RemoveSession(sessions[1..], token);
        assert ([sessions[0]] + rest)[1..] == rest;
      }
    }
  }
}
