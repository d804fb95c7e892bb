/** User accounts: registration, login with a session token, logout and
    the current-user lookup. */
module UsersApi {
  import opened Wrappers
  import opened DbOps
  import Db

  /** A row of `users`. */
  datatype UserRow = UserRow(username: string, email: string, passwordHash: string, createdAt: string)

  /** A row of `sessions`. */
  datatype SessionRow = SessionRow(userId: int, token: string, createdAt: string)

  datatype UserCreate = UserCreate(username: string, email: string, password: string)
  datatype UserLogin = UserLogin(username: string, password: string)
  datatype LoginBody = LoginBody(message: string, token: string)

  /** The password context: `hash(password, salt)` and `verify(password, hash)`.
      bcrypt draws the salt at random; here it is passed in. */
  datatype Crypt = Crypt(hash: (string, string) -> string, verify: (string, string) -> bool)

  /** The one property of bcrypt the handlers rely on. */
  ghost predicate Sound(c: Crypt)
  {
    forall password, salt :: c.verify(password, c.hash(password, salt))
  }

  const UserTaken := Error(400, "User with this username or email already exists")
  const InvalidCredentials := Error(401, "Invalid credentials")
  const Unauthorized := Error(401, "Unauthorized")

  /** The UNIQUE constraints on `users.username` and `users.email`. */
  ghost predicate UniqueUsers(users: map<int, UserRow>)
  {
    forall i, j | i in users && j in users && i != j ::
      users[i].username != users[j].username && users[i].email != users[j].email
  }

  /** The UNIQUE constraint on `sessions.token`. */
  ghost predicate UniqueTokens(sessions: map<int, SessionRow>)
  {
    forall i, j | i in sessions && j in sessions && sessions[i].token == sessions[j].token :: i == j
  }

  predicate NameOrEmailTaken(users: map<int, UserRow>, username: string, email: string)
  {
    exists id | id in users :: users[id].username == username || users[id].email == email
  }

  predicate TokenInUse(sessions: map<int, SessionRow>, token: string)
  {
    exists id | id in sessions :: sessions[id].token == token
  }

  /** Some user has this username and the password verifies against its hash. */
  predicate CredentialsMatch(users: map<int, UserRow>, c: Crypt, username: string, password: string)
  {
    exists id | id in users :: users[id].username == username && c.verify(password, users[id].passwordHash)
  }

  /** `register_user`. */
  method RegisterUser(users: Table<UserRow>, p: UserCreate, c: Crypt, salt: string, now: string)
    returns (r: Response<string>)
    requires users.Valid() && UniqueUsers(users.rows)
    modifies users
    ensures users.Valid() && UniqueUsers(users.rows)
    ensures r.Error? <==> NameOrEmailTaken(old(users.rows), p.username, p.email)
    ensures r.Error? ==> r == UserTaken && users.rows == old(users.rows) && users.nextId == old(users.nextId)
    ensures r.Ok? ==> r.body == "User registered successfully"
    ensures r.Ok? ==>
      users.rows == old(users.rows)[old(users.nextId) := UserRow(p.username, p.email, c.hash(p.password, salt), now)]
  {
    var existing := exists id | id in users.rows :: users.rows[id].username == p.username || users.rows[id].email == p.email;
    if existing {
      return UserTaken;
    }
    var id := users.Insert(UserRow(p.username, p.email, c.hash(p.password, salt), now));
    r := Ok("User registered successfully");
  }

  /** The stored value is the password's hash, so a user just registered
      can log in with that password. */
  lemma RegisteredUserCanLogIn(users: map<int, UserRow>, id: int, p: UserCreate, c: Crypt, salt: string, now: string)
    requires Sound(c)
    ensures CredentialsMatch(users[id := UserRow(p.username, p.email, c.hash(p.password, salt), now)], c, p.username, p.password)
  {
    var after := users[id := UserRow(p.username, p.email, c.hash(p.password, salt), now)];
    assert after[id].username == p.username && c.verify(p.password, after[id].passwordHash);
  }

  /** `login_user`. Both failures give the same 401. A token that is
      already in use fails the UNIQUE constraint: a 500 with no session. */
  method LoginUser(users: Table<UserRow>, sessions: Table<SessionRow>, p: UserLogin, c: Crypt, token: string, now: string)
    returns (r: Response<LoginBody>)
    requires users.Valid() && UniqueUsers(users.rows)
    requires sessions.Valid() && UniqueTokens(sessions.rows)
    modifies sessions
    ensures sessions.Valid() && UniqueTokens(sessions.rows)
    ensures r == InvalidCredentials <==> !CredentialsMatch(users.rows, c, p.username, p.password)
    ensures r == Error(500, InternalServerError) <==>
              CredentialsMatch(users.rows, c, p.username, p.password) && TokenInUse(old(sessions.rows), token)
    ensures r.Error? ==> r == InvalidCredentials || r == Error(500, InternalServerError)
    ensures r.Error? ==> sessions.rows == old(sessions.rows) && sessions.nextId == old(sessions.nextId)
    ensures r.Ok? ==> r.body == LoginBody("Login successful", token)
    ensures r.Ok? ==>
      exists uid | uid in users.rows ::
        (users.rows[uid].username == p.username &&
         sessions.rows == old(sessions.rows)[old(sessions.nextId) := SessionRow(uid, token, now)])
  {
    var found := exists id | id in users.rows :: users.rows[id].username == p.username;
    if !found {
      return InvalidCredentials;
    }
    var uid :| uid in users.rows && users.rows[uid].username == p.username;
    if !c.verify(p.password, users.rows[uid].passwordHash) {
      return InvalidCredentials;
    }
    var clash := exists id | id in sessions.rows :: sessions.rows[id].token == token;
    if clash {
      return Error(500, InternalServerError);
    }
    var sid := sessions.Insert(SessionRow(uid, token, now));
    r := Ok(LoginBody("Login successful", token));
  }

  /** `logout_user`: every session with that token is deleted, and the
      answer is the same whether or not there was one. */
  method LogoutUser(sessions: Table<SessionRow>, token: string) returns (r: Response<string>)
    requires sessions.Valid() && UniqueTokens(sessions.rows)
    modifies sessions
    ensures sessions.Valid() && UniqueTokens(sessions.rows)
    ensures r == Ok("Logged out")
    ensures sessions.rows == Without(old(sessions.rows), (s: SessionRow) => s.token == token)
    ensures !TokenInUse(sessions.rows, token)
  {
    var deleted := sessions.DeleteWhere((s: SessionRow) => s.token == token);
    r := Ok("Logged out");
  }

  /** A second logout with the same token deletes nothing more. */
  lemma LogoutIdempotent(sessions: map<int, SessionRow>, token: string)
    ensures Without(Without(sessions, (s: SessionRow) => s.token == token), (s: SessionRow) => s.token == token)
         == Without(sessions, (s: SessionRow) => s.token == token)
  {
    WithoutIdempotent(sessions, (s: SessionRow) => s.token == token);
  }

  /** The columns `get_me` selects: never the password hash. */
  function PublicUser(id: int, u: UserRow): (row: Db.Row)
    ensures row.Keys == {"id", "username", "email", "created_at"}
    ensures "password_hash" !in row
  {
    map["id" := Db.SqlInt(id), "username" := Db.SqlText(u.username),
        "email" := Db.SqlText(u.email), "created_at" := Db.SqlText(u.createdAt)]
  }

  /** `get_me`: 401 for a token with no session; otherwise the session's
      user as `fetchone_dict` returns it (None if that user is gone). */
  method GetMe(users: Table<UserRow>, sessions: Table<SessionRow>, token: string)
    returns (r: Response<Option<map<string, Db.PyValue>>>)
    requires UniqueTokens(sessions.rows)
    ensures r.Error? <==> !TokenInUse(sessions.rows, token)
    ensures r.Error? ==> r == Unauthorized
    ensures r.Ok? ==>
      exists sid | sid in sessions.rows ::
        (sessions.rows[sid].token == token &&
         r.body == (if sessions.rows[sid].userId in users.rows
                    then Some(Db.DictOf(PublicUser(sessions.rows[sid].userId, users.rows[sessions.rows[sid].userId])))
                    else None))
    ensures r.Ok? && r.body.Some? ==> r.body.value.Keys == {"id", "username", "email", "created_at"}
  {
    var found := exists id | id in sessions.rows :: sessions.rows[id].token == token;
    if !found {
      return Unauthorized;
    }
    var sid :| sid in sessions.rows && sessions.rows[sid].token == token;
    var uid := sessions.rows[sid].userId;
    if uid in users.rows {
      var user := Db.RowToDict(PublicUser(uid, users.rows[uid]));
      r := Ok(Some(user));
    } else {
      r := Ok(None);
    }
  }

  /** login, me, logout, me: the first `me` finds the user, the second is 401. */
  method LoginMeLogoutMe(users: Table<UserRow>, sessions: Table<SessionRow>, p: UserLogin, c: Crypt, token: string, now: string)
    returns (first: Response<Option<map<string, Db.PyValue>>>, second: Response<Option<map<string, Db.PyValue>>>)
    requires users.Valid() && UniqueUsers(users.rows)
    requires sessions.Valid() && UniqueTokens(sessions.rows)
    requires CredentialsMatch(users.rows, c, p.username, p.password) && !TokenInUse(sessions.rows, token)
    modifies sessions
    ensures first.Ok? && first.body.Some?
    ensures exists uid | uid in users.rows ::
              users.rows[uid].username == p.username && first == Ok(Some(Db.DictOf(PublicUser(uid, users.rows[uid]))))
    ensures second == Unauthorized
  {
    var login := LoginUser(users, sessions, p, c, token, now);
    assert login.Ok?;
    ghost var uid :| uid in users.rows && users.rows[uid].username == p.username &&
      sessions.rows == old(sessions.rows)[old(sessions.nextId) := SessionRow(uid, token, now)];
    var sid := old(sessions.nextId);
    assert sid in sessions.rows && sessions.rows[sid].token == token;
    first := GetMe(users, sessions, token);
    assert first == Ok(Some(Db.DictOf(PublicUser(uid, users.rows[uid])))) by {
      var sid' :| sid' in sessions.rows && sessions.rows[sid'].token == token &&
        first.body == (if sessions.rows[sid'].userId in users.rows
                       then Some(Db.DictOf(PublicUser(sessions.rows[sid'].userId, users.rows[sessions.rows[sid'].userId])))
                       else None);
      assert sid' == sid;
    }
    var out := LogoutUser(sessions, token);
    second := GetMe(users, sessions, token);
  }
}
