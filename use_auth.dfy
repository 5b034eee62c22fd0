/** The frontend's token state: the reactive `authToken` ref, shared by every
    caller of `useAuth`, and the browser's `localStorage` it is mirrored to. */
module UseAuth {
  import opened Wrappers

  /** The storage key the token lives under. */
  const TokenKey: string := "token"

  type Storage = map<string, string>

  /** `localStorage.getItem(key)`: `null` for a missing key. */
  function GetItem(storage: Storage, key: string): (r: Option<string>)
    ensures r.Some? <==> key in storage
    ensures r.Some? ==> r.value == storage[key]
  {
    if key in storage then Some(storage[key]) else None
  }

  /** JavaScript truthiness of a `string | null`: `null` and `""` are falsy. */
  predicate Truthy(token: Option<string>): (b: bool)
    ensures token == None ==> !b
    ensures token == Some("") ==> !b
    ensures token.Some? && |token.value| > 0 ==> b
  {
    token.Some? && token.value != ""
  }

  /** The ref and the storage at one moment. */
  datatype SessionValue = SessionValue(authToken: Option<string>, storage: Storage)

  /** Module load: the ref starts as whatever storage holds under `'token'`. */
  function Loaded(storage: Storage): (s: SessionValue)
    ensures s.storage == storage
    ensures s.authToken.Some? <==> TokenKey in storage
    ensures s.authToken.Some? ==> s.authToken.value == storage[TokenKey]
  {
    SessionValue(GetItem(storage, TokenKey), storage)
  }

  /** `isAuthenticated`: the ref is not `null`. */
  predicate Authenticated(s: SessionValue) {
    s.authToken != None
  }

  /** `setToken(token)`: a truthy token is stored, anything else removes the
      entry; the ref becomes `token` either way. */
  function SetTokenValue(s: SessionValue, token: Option<string>): (r: SessionValue)
    ensures r.authToken == token
    ensures Truthy(token) ==> r.storage == s.storage[TokenKey := token.value]
    ensures !Truthy(token) ==> r.storage == s.storage - {TokenKey}
  {
    SessionValue(token, if Truthy(token) then s.storage[TokenKey := token.value] else s.storage - {TokenKey})
  }

  /** The ref says what a fresh page load would read back from storage. */
  predicate InSync(s: SessionValue) {
    s.authToken == GetItem(s.storage, TokenKey)
  }

  /** A page load starts in sync. */
  lemma LoadedInSync(storage: Storage)
    ensures InSync(Loaded(storage))
  {
  }

  /** A non-empty token logs the user in, and a later page load still finds it. */
  lemma SetTruthyTokenAuthenticates(s: SessionValue, t: string)
    requires t != ""
    ensures Authenticated(SetTokenValue(s, Some(t)))
    ensures Loaded(SetTokenValue(s, Some(t)).storage).authToken == Some(t)
  {
  }

  /** `setToken(null)` logs the user out, now and after a page load. */
  lemma SetNullTokenSignsOut(s: SessionValue)
    ensures !Authenticated(SetTokenValue(s, None))
    ensures !Authenticated(Loaded(SetTokenValue(s, None).storage))
  {
  }

  /** `setToken` leaves ref and storage in sync exactly when the token is not
      the empty string: `setToken("")` clears storage but leaves the user
      authenticated until the next page load. */
  lemma {:induction false} SetTokenSyncUnlessEmpty(s: SessionValue, token: Option<string>)
    ensures InSync(SetTokenValue(s, token)) <==> token != Some("")
    ensures token == Some("") ==>
      Authenticated(SetTokenValue(s, token)) && !Authenticated(Loaded(SetTokenValue(s, token).storage))
  {
    var r := SetTokenValue(s, token);
    if Truthy(token) {
      assert TokenKey in r.storage && r.storage[TokenKey] == token.value;
    } else {
      assert TokenKey !in r.storage;
    }
  }

  /** `setToken` never touches another storage key. */
  lemma SetTokenKeepsOtherKeys(s: SessionValue, token: Option<string>, key: string)
    requires key != TokenKey
    ensures GetItem(SetTokenValue(s, token).storage, key) == GetItem(s.storage, key)
  {
  }

  /** Calling `setToken` twice with the same token is the same as calling it once. */
  lemma SetTokenIdempotent(s: SessionValue, token: Option<string>)
    ensures SetTokenValue(SetTokenValue(s, token), token) == SetTokenValue(s, token)
  {
  }

  /** The state behind `useAuth()`: one ref and the storage it mirrors. */
  class AuthSession {
    var authToken: Option<string>
    var storage: Storage

    function Value(): SessionValue
      reads this
    {
      SessionValue(authToken, storage)
    }

    /** Module initialisation over the storage found at page load. */
    constructor (storage: Storage)
      ensures Value() == Loaded(storage)
    {
      this.storage := storage;
      authToken := GetItem(storage, TokenKey);
    }

    /** The `isAuthenticated` computed ref. */
    function IsAuthenticated(): (b: bool)
      reads this
      ensures b <==> Authenticated(Value())
    {
      authToken != None
    }

    method SetToken(token: Option<string>)
      modifies this
      ensures Value() == SetTokenValue(old(Value()), token)
    {
      if token.Some? && token.value != "" {
        storage := storage[TokenKey := token.value];
      } else {
        storage := storage - {TokenKey};
      }
      authToken := token;
    }
  }
}
