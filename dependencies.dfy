/** The credential checks of the API: user lookup, password authentication,
    bearer-token resolution and the active-user gate. None of them changes
    anything. */
module Dependencies {
  import opened Wrappers
  import opened Users
  import opened PathText

  /** The 401 every token failure raises. */
  const CredentialsError: HttpError := HttpError(401, "Could not validate credentials")
  /** The 401 `OAuth2PasswordBearer` raises for a missing or non-bearer
      `Authorization` header. */
  const NotAuthenticated: HttpError := HttpError(401, "Not authenticated")
  /** The 400 of the active-user gate. */
  const InactiveUserError: HttpError := HttpError(400, "Inactive user")

  /** The dictionary `get_user` builds from a row, as a `UserInDB`. */
  function ToUserInDB(row: UserRow): (u: UserInDB)
    ensures u.username == row.username && u.fullName == row.fullName && u.email == row.email
    ensures u.isActive == row.isActive && u.hashedPassword == row.hashedPassword
  {
    UserInDB(row.username, row.fullName, row.email, row.isActive, row.hashedPassword)
  }

  predicate NoRowNamed(rows: seq<UserRow>, username: string) {
    forall i :: 0 <= i < |rows| ==> rows[i].username != username
  }

  /** `get_user`: the first row whose username matches, copied field by field,
      or `None` when there is none. */
  function GetUser(rows: seq<UserRow>, username: string): (r: Option<UserInDB>)
    ensures r.None? <==> NoRowNamed(rows, username)
    ensures r.Some? ==>
      exists i :: 0 <= i < |rows| && rows[i].username == username
        && NoRowNamed(rows[..i], username) && r.value == ToUserInDB(rows[i])
  {
    if |rows| == 0 then None
    else if rows[0].username == username then
      assert NoRowNamed(rows[..0], username);
      Some(ToUserInDB(rows[0]))
    else
      var r := GetUser(rows[1..], username);
      if r.Some? then
        var i :| 0 <= i < |rows[1..]| && rows[1..][i].username == username
          && NoRowNamed(rows[1..][..i], username) && r.value == ToUserInDB(rows[1..][i]);
        assert rows[1..][..i] == rows[1..i + 1];
        assert NoRowNamed(rows[..i + 1], username);
        r
      else
        r
  }

  /** Looking a name up after appending a row to a table that lacks the name
      finds that row, or nothing when it has another name. */
  lemma {:induction false} GetUserAfterAppend(rows: seq<UserRow>, row: UserRow, username: string)
    requires NoRowNamed(rows, username)
    ensures GetUser(rows + [row], username) == if row.username == username then Some(ToUserInDB(row)) else None
  {
    if |rows| > 0 {
      assert (rows + [row])[1..] == rows[1..] + [row];
      GetUserAfterAppend(rows[1..], row, username);
    }
  }

  /** Looking up any other name is unaffected by appending a row with this name. */
  lemma {:induction false} GetUserOtherAfterAppend(rows: seq<UserRow>, row: UserRow, username: string)
    requires row.username != username
    ensures GetUser(rows + [row], username) == GetUser(rows, username)
  {
    if |rows| == 0 {
      assert (rows + [row])[1..] == [];
    } else {
      assert (rows + [row])[1..] == rows[1..] + [row];
      GetUserOtherAfterAppend(rows[1..], row, username);
    }
  }

  /** `authenticate_user`: `None` (Python's `False`) for an unknown name or a
      password that does not verify against the stored hash, otherwise the user
      `get_user` found. */
  function AuthenticateUser(rows: seq<UserRow>, username: string, password: string,
                            verify: (string, string) -> bool): (r: Option<UserInDB>)
    ensures NoRowNamed(rows, username) ==> r.None?
    ensures GetUser(rows, username).Some? && !verify(password, GetUser(rows, username).value.hashedPassword) ==> r.None?
    ensures GetUser(rows, username).Some? && verify(password, GetUser(rows, username).value.hashedPassword) ==>
      r == GetUser(rows, username)
    ensures r.Some? ==> r.value.username == username
  {
    var user := GetUser(rows, username);
    if user.None? then None
    else if !verify(password, user.value.hashedPassword) then None
    else user
  }

  /** `oauth2_scheme = OAuth2PasswordBearer(tokenUrl="token")` as a dependency,
      on the request's `Authorization` header: a missing or empty header, or one
      whose scheme (the text before the first space) is not `bearer` up to
      ASCII case, is answered with 401 before any token check; otherwise the
      token is the text after the first space. */
  function BearerToken(authorization: Option<string>): (r: Result<string, HttpError>)
    ensures authorization.None? ==> r == Err(NotAuthenticated)
    ensures r.Err? ==> r.error == NotAuthenticated
  {
    match authorization
    case None => Err(NotAuthenticated)
    case Some(header) =>
      var (scheme, param) := Partition(header, ' ');
      if header == "" || Lower(scheme) != "bearer" then Err(NotAuthenticated) else Ok(param)
  }

  /** A header `<scheme> <token>` yields the token exactly when the scheme is
      `bearer` up to ASCII case. */
  lemma BearerHeader(scheme: string, token: string)
    requires ' ' !in scheme
    ensures BearerToken(Some(scheme + " " + token)).Ok? <==> Lower(scheme) == "bearer"
    ensures BearerToken(Some(scheme + " " + token)).Ok? ==> BearerToken(Some(scheme + " " + token)).value == token
  {
    assert scheme + " " + token == scheme + [' '] + token;
    PartitionAt(scheme, token, ' ');
  }

  /** The header a client sends with a token it received, `Bearer <token>`,
      gives that token back. */
  lemma BearerRoundTrip(token: string)
    ensures BearerToken(Some("Bearer " + token)) == Ok(token)
  {
    var low := Lower("Bearer");
    assert low[0] == 'b' && low[1] == 'e' && low[2] == 'a' && low[3] == 'r' && low[4] == 'e' && low[5] == 'r';
    assert "Bearer " + token == "Bearer" + " " + token;
    BearerHeader("Bearer", token);
  }

  /** `get_current_user`: decode the token, read `sub`, look the user up; any
      failure is the same 401. */
  function GetCurrentUser(rows: seq<UserRow>, token: string, decode: string -> Option<Payload>): (r: Result<UserInDB, HttpError>)
    ensures r.Err? ==> r.error == CredentialsError
    ensures decode(token).None? ==> r.Err?
    ensures decode(token).Some? && decode(token).value.sub.None? ==> r.Err?
    ensures r.Ok? <==> decode(token).Some? && decode(token).value.sub.Some?
                       && !NoRowNamed(rows, decode(token).value.sub.value)
    ensures r.Ok? ==>
      r.value.username == decode(token).value.sub.value && Some(r.value) == GetUser(rows, decode(token).value.sub.value)
  {
    match decode(token)
    case None => Err(CredentialsError)
    case Some(payload) =>
      match payload.sub
      case None => Err(CredentialsError)
      case Some(username) =>
        match GetUser(rows, username)
        case None => Err(CredentialsError)
        case Some(user) => Ok(user)
  }

  /** `get_current_active_user`: a user whose `is_active` is false or null is
      refused with 400; any other user passes through unchanged. */
  function GetCurrentActiveUser(user: UserInDB): (r: Result<UserInDB, HttpError>)
    ensures r.Ok? <==> user.isActive == Some(true)
    ensures r.Ok? ==> r.value == user
    ensures r.Err? ==> r.error == InactiveUserError
  {
    if user.isActive != Some(true) then Err(InactiveUserError) else Ok(user)
  }
}
