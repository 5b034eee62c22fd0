/** The authentication routes: `/register`, `/token`, `/users/me/` and
    `/users/me/items`. */
module AuthRoutes {
  import opened Wrappers
  import opened Users
  import opened Dependencies

  const TokenType: string := "bearer"
  const UsernameTaken: HttpError := HttpError(400, "Username already registered")
  const BadLogin: HttpError := HttpError(401, "Incorrect username or password")
  /** FastAPI's answer to the `IntegrityError` a failed commit raises. */
  const CommitFailed: HttpError := HttpError(500, "Internal Server Error")

  /** `create_access_token(data={"sub": sub}, expires_delta)`: the claims carry
      `sub` and an expiry `expires_delta` after `now` when that delta is truthy
      (present and non-zero, as a `timedelta` is), and `expireMinutes` after
      `now` otherwise. Times and deltas are in seconds. */
  function CreateAccessToken(sub: string, now: int, expiresDelta: Option<int>, sec: Security): (token: string)
    ensures expiresDelta.Some? && expiresDelta.value != 0 ==>
      token == sec.encode(Claims(sub, now + expiresDelta.value))
    ensures expiresDelta.None? || expiresDelta == Some(0) ==>
      token == sec.encode(Claims(sub, now + 60 * sec.expireMinutes))
  {
    var expire := if expiresDelta.Some? && expiresDelta.value != 0 then now + expiresDelta.value
                  else now + 60 * sec.expireMinutes;
    sec.encode(Claims(sub, expire))
  }

  /** `/token` passes `ACCESS_TOKEN_EXPIRE_MINUTES` explicitly and `/register`
      passes nothing: both issue the same claims. */
  lemma ExplicitDefaultLifetime(sub: string, now: int, sec: Security)
    ensures CreateAccessToken(sub, now, Some(60 * sec.expireMinutes), sec) == CreateAccessToken(sub, now, None, sec)
  {
    if sec.expireMinutes != 0 {
      assert 60 * sec.expireMinutes != 0;
    }
  }

  /** `full_name` and `email` are unique columns; a non-null value already
      present makes the commit fail (two nulls never clash). */
  predicate UniqueConflict(rows: seq<UserRow>, user: UserCreate): (b: bool)
    ensures user.fullName.None? && user.email.None? ==> !b
    ensures |rows| == 0 ==> !b
  {
    exists i :: 0 <= i < |rows| &&
      ((user.fullName.Some? && rows[i].fullName == user.fullName) || (user.email.Some? && rows[i].email == user.email))
  }

  /** The row `register` inserts: the password only as its hash, `is_active`
      at its column default. */
  function NewRow(id: nat, user: UserCreate, hash: string -> string): (row: UserRow)
    ensures row.username == user.username && row.fullName == user.fullName && row.email == user.email
    ensures row.hashedPassword == hash(user.password) && row.isActive == Some(true) && row.id == id
  {
    UserRow(id, user.username, user.fullName, user.email, hash(user.password), Some(true))
  }

  /** The table after a `register` call, and its answer. */
  datatype Registration = Registration(rows: seq<UserRow>, nextId: nat, result: Result<Token, HttpError>)

  /** `register` on the table's contents. */
  function Registered(rows: seq<UserRow>, nextId: nat, user: UserCreate, sec: Security, now: int): (r: Registration)
    ensures !NoRowNamed(rows, user.username) ==> r == Registration(rows, nextId, Err(UsernameTaken))
    ensures r.result.Err? ==> r.rows == rows && r.nextId == nextId
    ensures r.result.Ok? <==> NoRowNamed(rows, user.username) && !UniqueConflict(rows, user)
    ensures NoRowNamed(rows, user.username) && UniqueConflict(rows, user) ==>
      r == Registration(rows, nextId, Err(CommitFailed))
    ensures r.result.Ok? ==>
      && r.rows == rows + [NewRow(nextId, user, sec.hash)]
      && r.nextId == nextId + 1
      && r.result.value == Token(sec.encode(Claims(user.username, now + 60 * sec.expireMinutes)), TokenType)
  {
    if GetUser(rows, user.username).Some? then Registration(rows, nextId, Err(UsernameTaken))
    else if UniqueConflict(rows, user) then Registration(rows, nextId, Err(CommitFailed))
    else
      var row := NewRow(nextId, user, sec.hash);
      Registration(rows + [row], nextId + 1, Ok(Token(CreateAccessToken(row.username, now, None, sec), TokenType)))
  }

  /** `register`: refuse a taken username, otherwise insert the new row and
      commit, then answer with a bearer token for the new username. */
  method Register(db: UsersTable, user: UserCreate, sec: Security, now: int) returns (r: Result<Token, HttpError>)
    modifies db
    ensures Registration(db.rows, db.nextId, r) == Registered(old(db.rows), old(db.nextId), user, sec, now)
  {
    var existing := GetUser(db.rows, user.username);
    if existing.Some? {
      return Err(UsernameTaken);
    }
    var newUser := NewRow(db.nextId, user, sec.hash);
    if UniqueConflict(db.rows, user) {
      // The commit fails and the session is rolled back when it is closed.
      return Err(CommitFailed);
    }
    db.rows := db.rows + [newUser];
    db.nextId := db.nextId + 1;
    var accessToken := CreateAccessToken(newUser.username, now, None, sec);
    r := Ok(Token(accessToken, TokenType));
  }

  /** `login_for_access_token`: 401 whenever authentication fails, otherwise a
      bearer token whose `sub` is the authenticated username. */
  function LoginForAccessToken(rows: seq<UserRow>, username: string, password: string, sec: Security, now: int)
    : (r: Result<Token, HttpError>)
    ensures r.Err? <==> AuthenticateUser(rows, username, password, sec.verify).None?
    ensures r.Err? ==> r.error == BadLogin
    ensures r.Ok? ==> r.value == Token(sec.encode(Claims(username, now + 60 * sec.expireMinutes)), TokenType)
  {
    var user := AuthenticateUser(rows, username, password, sec.verify);
    if user.None? then Err(BadLogin)
    else
      ExplicitDefaultLifetime(user.value.username, now, sec);
      Ok(Token(CreateAccessToken(user.value.username, now, Some(60 * sec.expireMinutes), sec), TokenType))
  }

  /** The `User` response model: what `/users/me/` sends back of a user. */
  function PublicView(u: UserInDB): (v: User)
    ensures v.username == u.username && v.fullName == u.fullName && v.email == u.email
  {
    User(u.username, u.fullName, u.email)
  }

  /** The user behind a request to a protected route: the bearer header, then
      `get_current_user`, then `get_current_active_user`. */
  function ActiveUser(rows: seq<UserRow>, authorization: Option<string>, sec: Security): (r: Result<UserInDB, HttpError>)
    ensures authorization.None? ==> r == Err(NotAuthenticated)
    ensures r.Ok? <==>
      && BearerToken(authorization).Ok?
      && GetCurrentUser(rows, BearerToken(authorization).value, sec.decode).Ok?
      && GetCurrentUser(rows, BearerToken(authorization).value, sec.decode).value.isActive == Some(true)
    ensures r.Ok? ==> r.value == GetCurrentUser(rows, BearerToken(authorization).value, sec.decode).value
    ensures r.Err? ==> r.error in {NotAuthenticated, CredentialsError, InactiveUserError}
  {
    match BearerToken(authorization)
    case Err(e) => Err(e)
    case Ok(token) =>
      match GetCurrentUser(rows, token, sec.decode)
      case Err(e) => Err(e)
      case Ok(current) => GetCurrentActiveUser(current)
  }

  /** `/users/me/`: the active user, serialised through the `User` response
      model. */
  function ReadUsersMe(rows: seq<UserRow>, authorization: Option<string>, sec: Security): (r: Result<User, HttpError>)
    ensures r.Ok? <==> ActiveUser(rows, authorization, sec).Ok?
    ensures r.Ok? ==> r.value == PublicView(ActiveUser(rows, authorization, sec).value)
    ensures r.Err? ==> r.error == ActiveUser(rows, authorization, sec).error
  {
    match ActiveUser(rows, authorization, sec)
    case Err(e) => Err(e)
    case Ok(active) => Ok(PublicView(active))
  }

  datatype Item = Item(itemId: nat, owner: UserInDB)

  /** `/users/me/items`: one item with id 1 owned by the active user. It has no
      response model, so the owner goes out whole. */
  function ReadOwnItems(rows: seq<UserRow>, authorization: Option<string>, sec: Security): (r: Result<seq<Item>, HttpError>)
    ensures r.Ok? <==> ReadUsersMe(rows, authorization, sec).Ok?
    ensures r.Ok? ==> r.value == [Item(1, ActiveUser(rows, authorization, sec).value)]
    ensures r.Err? ==> ReadUsersMe(rows, authorization, sec) == Err(r.error)
  {
    match ActiveUser(rows, authorization, sec)
    case Err(e) => Err(e)
    case Ok(active) => Ok([Item(1, active)])
  }

  /** A successful registration makes exactly the new user findable by name,
      with the fields it was registered with and the password's hash, and
      leaves every other lookup as it was. */
  lemma RegisterThenLookup(rows: seq<UserRow>, nextId: nat, user: UserCreate, sec: Security, now: int, other: string)
    requires Registered(rows, nextId, user, sec, now).result.Ok?
    ensures var after := Registered(rows, nextId, user, sec, now).rows;
      && GetUser(after, user.username) == Some(UserInDB(user.username, user.fullName, user.email, Some(true), sec.hash(user.password)))
      && (other != user.username ==> GetUser(after, other) == GetUser(rows, other))
  {
    var row := NewRow(nextId, user, sec.hash);
    GetUserAfterAppend(rows, row, user.username);
    if other != user.username {
      GetUserOtherAfterAppend(rows, row, other);
    }
  }

  /** Login with a password that verifies for the user found by name. */
  lemma LoginAs(rows: seq<UserRow>, username: string, password: string, found: UserInDB, sec: Security, now: int)
    requires GetUser(rows, username) == Some(found)
    requires sec.verify(password, found.hashedPassword)
    ensures LoginForAccessToken(rows, username, password, sec, now)
         == Ok(Token(sec.encode(Claims(username, now + 60 * sec.expireMinutes)), TokenType))
  {
  }

  /** Registering and then logging in with the same password succeeds, given
      that the password verifies against its own hash. */
  lemma RegisterThenLogin(rows: seq<UserRow>, nextId: nat, user: UserCreate, sec: Security, now: int, later: int)
    requires Registered(rows, nextId, user, sec, now).result.Ok?
    requires sec.verify(user.password, sec.hash(user.password))
    ensures LoginForAccessToken(Registered(rows, nextId, user, sec, now).rows, user.username, user.password, sec, later)
         == Ok(Token(sec.encode(Claims(user.username, later + 60 * sec.expireMinutes)), TokenType))
  {
    var after := Registered(rows, nextId, user, sec, now).rows;
    var found := UserInDB(user.username, user.fullName, user.email, Some(true), sec.hash(user.password));
    assert GetUser(after, user.username) == Some(found) by {
      RegisterThenLookup(rows, nextId, user, sec, now, user.username);
    }
    LoginAs(after, user.username, user.password, found, sec, later);
  }

  /** The token `register` returns, sent as `Bearer <token>`, opens `/users/me/`
      for the new user, given that decoding returns the `sub` that was encoded. */
  lemma RegisterThenReadMe(rows: seq<UserRow>, nextId: nat, user: UserCreate, sec: Security, now: int)
    requires Registered(rows, nextId, user, sec, now).result.Ok?
    requires var c := Claims(user.username, now + 60 * sec.expireMinutes);
      sec.decode(sec.encode(c)) == Some(Payload(Some(c.sub)))
    ensures var reg := Registered(rows, nextId, user, sec, now);
      ReadUsersMe(reg.rows, Some("Bearer " + reg.result.value.accessToken), sec)
        == Ok(User(user.username, user.fullName, user.email))
  {
    var reg := Registered(rows, nextId, user, sec, now);
    BearerRoundTrip(reg.result.value.accessToken);
    RegisterThenLookup(rows, nextId, user, sec, now, user.username);
  }

  /** A second registration under the same name is refused and changes nothing. */
  lemma RegisterTwiceRefused(rows: seq<UserRow>, nextId: nat, user: UserCreate, again: UserCreate, sec: Security, now: int, later: int)
    requires Registered(rows, nextId, user, sec, now).result.Ok?
    requires again.username == user.username
    ensures var first := Registered(rows, nextId, user, sec, now);
      Registered(first.rows, first.nextId, again, sec, later) == Registration(first.rows, first.nextId, Err(UsernameTaken))
  {
    RegisterThenLookup(rows, nextId, user, sec, now, user.username);
  }
}
