/**
 * The session held by the authentication context (context/AuthContext):
 * the tokens and user in memory, mirrored into `localStorage`, which is a
 * plain string map here. JSON (de)serialisation of the user is a pair of
 * function parameters.
 */
module AuthSession {
  import opened Wrappers
  import opened Domain

  type Storage = map<string, string>

  const AccessTokenKey := "accessToken"
  const RefreshTokenKey := "refreshToken"
  const UserKey := "user"

  /** The storage keys the session owns. */
  const SessionKeys: set<string> := {AccessTokenKey, RefreshTokenKey, UserKey}

  datatype AuthState = AuthState(
    token: Option<string>,
    refreshToken: Option<string>,
    user: Option<UserDetails>,
    initialized: bool)

  /** The in-memory session and the browser storage behind it. */
  datatype Session = Session(state: AuthState, storage: Storage)

  /** The state before the storage has been read: nothing known, not initialized. */
  const Initial := AuthState(None, None, None, false)

  /** `localStorage.getItem(k)` is a truthy string. */
  predicate Stored(storage: Storage, k: string) {
    k in storage && storage[k] != ""
  }

  /** All three session entries are stored and non-empty. */
  predicate Complete(storage: Storage) {
    Stored(storage, AccessTokenKey) && Stored(storage, RefreshTokenKey) && Stored(storage, UserKey)
  }

  /**
   * The mount effect: adopt the stored session only when all three entries
   * are present and non-empty, and mark the context initialized either way.
   * `parse` is `JSON.parse`, where `None` is a stored `null`.
   */
  function Hydrate(ss: Session, parse: string -> Option<UserDetails>): (r: Session)
    ensures r.storage == ss.storage
    ensures r.state.initialized
    ensures Complete(ss.storage) ==>
      r.state.token == Some(ss.storage[AccessTokenKey]) &&
      r.state.refreshToken == Some(ss.storage[RefreshTokenKey]) &&
      r.state.user == parse(ss.storage[UserKey])
    ensures !Complete(ss.storage) ==>
      r.state.token == ss.state.token && r.state.refreshToken == ss.state.refreshToken && r.state.user == ss.state.user
  {
    var st := ss.storage;
    if Complete(st) then
      Session(AuthState(Some(st[AccessTokenKey]), Some(st[RefreshTokenKey]), parse(st[UserKey]), true), st)
    else
      Session(ss.state.(initialized := true), st)
  }

  /** `login`: the session in memory, and all three entries written; `stringify` is `JSON.stringify`. */
  function Login(ss: Session, token: string, refreshToken: string, user: UserDetails,
                 stringify: UserDetails -> string): (r: Session)
    ensures r.state == ss.state.(token := Some(token), refreshToken := Some(refreshToken), user := Some(user))
    ensures SessionKeys <= r.storage.Keys
    ensures r.storage[AccessTokenKey] == token && r.storage[RefreshTokenKey] == refreshToken
    ensures r.storage[UserKey] == stringify(user)
    ensures forall k :: k !in SessionKeys ==> (k in r.storage <==> k in ss.storage)
    ensures forall k :: k !in SessionKeys && k in ss.storage ==> r.storage[k] == ss.storage[k]
  {
    var st := ss.storage[AccessTokenKey := token][RefreshTokenKey := refreshToken][UserKey := stringify(user)];
    Session(ss.state.(token := Some(token), refreshToken := Some(refreshToken), user := Some(user)), st)
  }

  /** `logout`: nothing in memory, the three entries removed, every other entry kept. */
  function Logout(ss: Session): (r: Session)
    ensures r.state == ss.state.(token := None, refreshToken := None, user := None)
    ensures forall k :: k in SessionKeys ==> k !in r.storage
    ensures forall k :: k !in SessionKeys ==> (k in r.storage <==> k in ss.storage)
    ensures forall k :: k !in SessionKeys && k in ss.storage ==> r.storage[k] == ss.storage[k]
  {
    Session(ss.state.(token := None, refreshToken := None, user := None), ss.storage - SessionKeys)
  }

  /** A page load after `login` restores the same session, given that the user survives JSON. */
  lemma LoginThenReload(ss: Session, token: string, refreshToken: string, user: UserDetails,
                        stringify: UserDetails -> string, parse: string -> Option<UserDetails>)
    requires token != "" && refreshToken != ""
    requires stringify(user) != "" && parse(stringify(user)) == Some(user)
    ensures Hydrate(Session(Initial, Login(ss, token, refreshToken, user, stringify).storage), parse).state ==
      AuthState(Some(token), Some(refreshToken), Some(user), true)
  {
  }

  /** A page load after `logout` finds no session. */
  lemma LogoutThenReload(ss: Session, parse: string -> Option<UserDetails>)
    ensures Hydrate(Session(Initial, Logout(ss).storage), parse).state == Initial.(initialized := true)
  {
  }

  /** `logout` erases whatever an earlier `login` wrote, leaving storage as `logout` alone would. */
  lemma LogoutUndoesLogin(ss: Session, token: string, refreshToken: string, user: UserDetails,
                          stringify: UserDetails -> string)
    ensures Logout(Login(ss, token, refreshToken, user, stringify)).storage == Logout(ss).storage
  {
    var a := Logout(Login(ss, token, refreshToken, user, stringify)).storage;
    var b := Logout(ss).storage;
    assert a.Keys == b.Keys;
  }
}
