/** The client's session state and the reducer that the authentication
    provider dispatches to. Every action but an unrecognised one returns a
    copy of the state with some fields replaced. */
module AuthContext {
  import opened Common

  /** A user object: its fields by name (`role`, `name`, `email`, ...). */
  type UserRecord = map<string, string>

  /** `user?.role`: absent when there is no user or the user has no role. */
  function UserRole(user: Option<UserRecord>): (r: Option<string>)
    ensures r.Some? <==> user.Some? && "role" in user.value
    ensures r.Some? ==> r.value == user.value["role"]
  {
    if user.Some? && "role" in user.value then Some(user.value["role"]) else None
  }

  datatype AuthState = AuthState(
    user: Option<UserRecord>, token: Option<string>, isAuthenticated: bool, loading: bool, error: Option<string>)

  /** The six actions the reducer knows, and any other `type`. */
  datatype AuthAction =
    | AuthStart
    | AuthSuccess(payloadUser: UserRecord, payloadToken: string)
    | AuthFailure(message: Option<string>)
    | Logout
    | UpdateUser(fields: UserRecord)
    | ClearError
    | Unrecognized(typeName: string)

  /** `initialState`: signed out and loading, with the token kept in local
      storage (if any). */
  function InitialState(storedToken: Option<string>): (s: AuthState)
    ensures !s.isAuthenticated && s.loading && s.user.None? && s.error.None? && s.token == storedToken
  {
    AuthState(None, storedToken, false, true, None)
  }

  /** `{ ...user, ...payload }`: the payload's fields win; with no user the
      result is the payload. */
  function Merge(user: Option<UserRecord>, fields: UserRecord): (r: UserRecord)
    ensures forall k :: k in fields ==> k in r && r[k] == fields[k]
    ensures user.Some? ==> forall k :: k in user.value && k !in fields ==> k in r && r[k] == user.value[k]
    ensures forall k :: k in r ==> k in fields || (user.Some? && k in user.value)
  {
    if user.Some? then user.value + fields else fields
  }

  /** `authReducer(state, action)`. */
  function Reduce(s: AuthState, a: AuthAction): AuthState {
    match a
    case AuthStart => s.(loading := true, error := None)
    case AuthSuccess(u, t) => s.(user := Some(u), token := Some(t), isAuthenticated := true, loading := false, error := None)
    case AuthFailure(m) => s.(user := None, token := None, isAuthenticated := false, loading := false, error := m)
    case Logout => s.(user := None, token := None, isAuthenticated := false, loading := false, error := None)
    case UpdateUser(fields) => s.(user := Some(Merge(s.user, fields)))
    case ClearError => s.(error := None)
    case Unrecognized(_) => s
  }

  /** An authenticated session has a user and a token. */
  predicate Consistent(s: AuthState) {
    s.isAuthenticated ==> s.user.Some? && s.token.Some?
  }

  /** Every action keeps a session consistent. */
  lemma ReduceKeepsConsistent(s: AuthState, a: AuthAction)
    requires Consistent(s)
    ensures Consistent(Reduce(s, a))
  {
  }

  /** The state after dispatching `actions` in turn. */
  function Run(s: AuthState, actions: seq<AuthAction>): AuthState
    decreases |actions|
  {
    if actions == [] then s else Run(Reduce(s, actions[0]), actions[1..])
  }

  /** Whatever the provider dispatches, starting from `initialState`, the
      session stays consistent. */
  lemma {:induction false} RunKeepsConsistent(s: AuthState, actions: seq<AuthAction>)
    requires Consistent(s)
    ensures Consistent(Run(s, actions))
    decreases |actions|
  {
    if actions != [] {
      ReduceKeepsConsistent(s, actions[0]);
      RunKeepsConsistent(Reduce(s, actions[0]), actions[1..]);
    }
  }

  lemma ReachableIsConsistent(storedToken: Option<string>, actions: seq<AuthAction>)
    ensures Consistent(Run(InitialState(storedToken), actions))
  {
    RunKeepsConsistent(InitialState(storedToken), actions);
  }

  /** `AUTH_START` raises `loading` and clears `error`; the session itself
      (user, token, authentication) is kept. */
  lemma StartKeepsSession(s: AuthState)
    ensures var r := Reduce(s, AuthStart);
      r.loading && r.error.None? && r.user == s.user && r.token == s.token && r.isAuthenticated == s.isAuthenticated
  {
  }

  /** `AUTH_SUCCESS` and `AUTH_FAILURE` overwrite every field: their result
      does not depend on the state they are applied to. */
  lemma SuccessAndFailureForgetTheState(s: AuthState, t: AuthState, u: UserRecord, token: string, m: Option<string>)
    ensures Reduce(s, AuthSuccess(u, token)) == Reduce(t, AuthSuccess(u, token))
    ensures Reduce(s, AuthFailure(m)) == Reduce(t, AuthFailure(m))
    ensures Reduce(s, AuthSuccess(u, token)) == AuthState(Some(u), Some(token), true, false, None)
  {
  }

  /** `LOGOUT` is an `AUTH_FAILURE` without a message. */
  lemma LogoutIsSilentFailure(s: AuthState)
    ensures Reduce(s, Logout) == Reduce(s, AuthFailure(None))
    ensures !Reduce(s, Logout).isAuthenticated && Reduce(s, Logout).token.None?
  {
  }

  /** A login that starts and succeeds ends where the success alone would. */
  lemma StartThenSuccess(s: AuthState, u: UserRecord, token: string)
    ensures Run(s, [AuthStart, AuthSuccess(u, token)]) == Reduce(s, AuthSuccess(u, token))
  {
    var r := Reduce(s, AuthStart);
    assert [AuthStart, AuthSuccess(u, token)][1..] == [AuthSuccess(u, token)];
    assert Run(s, [AuthStart, AuthSuccess(u, token)]) == Run(r, [AuthSuccess(u, token)]);
    assert [AuthSuccess(u, token)][1..] == [];
    assert Run(r, [AuthSuccess(u, token)]) == Run(Reduce(r, AuthSuccess(u, token)), []);
  }

  /** `UPDATE_USER` changes only the user, and two updates in a row are
      one update with the later payload winning. */
  lemma {:induction false} UpdatesCompose(s: AuthState, p: UserRecord, q: UserRecord)
    ensures var r := Reduce(s, UpdateUser(p));
      r.token == s.token && r.isAuthenticated == s.isAuthenticated && r.loading == s.loading && r.error == s.error
    ensures Reduce(Reduce(s, UpdateUser(p)), UpdateUser(q)) == Reduce(s, UpdateUser(p + q))
  {
    var base: UserRecord := if s.user.Some? then s.user.value else map[];
    assert Merge(s.user, p) == base + p;
    assert Merge(s.user, p + q) == base + (p + q);
    assert (base + p) + q == base + (p + q);
  }

  /** `CLEAR_ERROR` changes only `error`, and an unrecognised action
      changes nothing. */
  lemma ClearErrorOnlyClearsError(s: AuthState, name: string)
    ensures Reduce(s, ClearError) == s.(error := None)
    ensures Reduce(Reduce(s, ClearError), ClearError) == Reduce(s, ClearError)
    ensures Reduce(s, Unrecognized(name)) == s
  {
  }
}
