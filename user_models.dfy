/** The records of the authentication layer: the `users` table row, the Pydantic
    models built from it and the token response, and the table itself. */
module Users {
  import opened Wrappers

  /** A row of table `users`. `full_name`, `email` and `is_active` are nullable
      columns; `is_active` defaults to true when a row is inserted. */
  datatype UserRow = UserRow(
    id: nat,
    username: string,
    fullName: Option<string>,
    email: Option<string>,
    hashedPassword: string,
    isActive: Option<bool>)

  /** Pydantic `UserInDB`. */
  datatype UserInDB = UserInDB(
    username: string,
    fullName: Option<string>,
    email: Option<string>,
    isActive: Option<bool>,
    hashedPassword: string)

  /** Pydantic `User`, the response model of `/users/me/`: no password hash, no
      activity flag. */
  datatype User = User(username: string, fullName: Option<string>, email: Option<string>)

  /** Pydantic `UserCreate`, the body of `/register`. */
  datatype UserCreate = UserCreate(username: string, fullName: Option<string>, email: Option<string>, password: string)

  /** Pydantic `Token`. */
  datatype Token = Token(accessToken: string, tokenType: string)

  /** FastAPI's `HTTPException`: a status code and a detail text. */
  datatype HttpError = HttpError(status: nat, detail: string)

  /** What `create_access_token` puts in a token: `sub` and `exp`. */
  datatype Claims = Claims(sub: string, exp: int)

  /** What `jwt.decode` yields for a token that verifies: its optional `sub`. */
  datatype Payload = Payload(sub: Option<string>)

  /** bcrypt and JWT, which the model does not look into, and the configured
      token lifetime. `decode` is `None` where `jwt.decode` raises `JWTError`
      (bad signature, malformed, expired). */
  datatype Security = Security(
    verify: (string, string) -> bool,   // verify_password(plain, hashed)
    hash: string -> string,             // get_password_hash
    encode: Claims -> string,           // jwt.encode with SECRET_KEY and ALGORITHM
    decode: string -> Option<Payload>,  // jwt.decode
    expireMinutes: nat)                 // ACCESS_TOKEN_EXPIRE_MINUTES

  /** The `users` table behind the database session. `nextId` is the value the
      auto-increment primary key assigns next. */
  class UsersTable {
    var rows: seq<UserRow>
    var nextId: nat

    constructor (rows: seq<UserRow>, nextId: nat)
      ensures this.rows == rows && this.nextId == nextId
    {
      this.rows := rows;
      this.nextId := nextId;
    }
  }
}
