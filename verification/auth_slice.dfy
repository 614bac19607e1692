/** The `auth` slice of src/store/slices/authSlice.ts together with the
    `localStorage` entry it writes: the session is the pair of the in-memory
    state and the persisted store. */
module AuthSlice {
  import opened Wrappers
  import opened LocalStorage

  datatype Role = UserRole | AdminRole

  /** The signed-in user. */
  datatype User = User(id: string, email: string, name: string, avatar: Option<string>, role: Role)

  /** The slice state: `null` user and token when signed out. */
  datatype AuthState = AuthState(user: Option<User>, token: Option<string>)

  /** The slice state and the browser store it mirrors. */
  datatype Session = Session(state: AuthState, storage: Store)

  /** The in-memory token is the persisted one (absent meaning null). */
  predicate Consistent(s: Session) {
    s.state.token == GetItem(s.storage, TokenKey)
  }

  /** The initial state: no user, and the token read back from storage. */
  function Init(storage: Store): (s: Session)
    ensures s.state.user.None?
    ensures Consistent(s)
    ensures s.storage == storage
  {
    Session(AuthState(None, GetItem(storage, TokenKey)), storage)
  }

  /** `setCredentials`: user and token are set, and the token is persisted
      under `token`; no other stored key changes. */
  function SetCredentials(s: Session, user: User, token: string): (r: Session)
    ensures r.state.user == Some(user) && r.state.token == Some(token)
    ensures Consistent(r)
    ensures forall k :: k != TokenKey ==> GetItem(r.storage, k) == GetItem(s.storage, k)
  {
    Session(AuthState(Some(user), Some(token)), SetItem(s.storage, TokenKey, token))
  }

  /** `logout`: user and token are nulled and `token` is removed from
      storage; no other stored key changes. */
  function Logout(s: Session): (r: Session)
    ensures r.state.user.None? && r.state.token.None?
    ensures Consistent(r)
    ensures forall k :: k != TokenKey ==> GetItem(r.storage, k) == GetItem(s.storage, k)
  {
    Session(AuthState(None, None), RemoveItem(s.storage, TokenKey))
  }

  /** Logging out twice is logging out once. */
  lemma LogoutIdempotent(s: Session)
    ensures Logout(Logout(s)) == Logout(s)
  {
    assert RemoveItem(RemoveItem(s.storage, TokenKey), TokenKey) == RemoveItem(s.storage, TokenKey);
  }

  /** Signing in and then out leaves exactly what logging out alone would,
      from any starting session. */
  lemma LogoutUndoesCredentials(s: Session, user: User, token: string)
    ensures Logout(SetCredentials(s, user, token)) == Logout(s)
  {
    RemoveAfterSet(s.storage, TokenKey, token);
  }

  /** The slice's actions. */
  datatype Action = SetCredentialsAction(user: User, token: string) | LogoutAction

  /** The slice reducer. Whatever the session before, afterwards the
      in-memory token is the stored one and a user is set exactly when a
      token is. */
  function Reduce(s: Session, a: Action): (r: Session)
    ensures Consistent(r)
    ensures r.state.user.Some? <==> r.state.token.Some?
    ensures forall k :: k != TokenKey ==> GetItem(r.storage, k) == GetItem(s.storage, k)
  {
    match a
    case SetCredentialsAction(u, t) => SetCredentials(s, u, t)
    case LogoutAction => Logout(s)
  }

  function ReduceAll(s: Session, actions: seq<Action>): Session
    decreases |actions|
  {
    if |actions| == 0 then s else ReduceAll(Reduce(s, actions[0]), actions[1..])
  }

  /** From the initial state, after any sequence of actions the in-memory
      token is the stored one; once an action has run, a user is set exactly
      when a token is (the initial state may restore a token without a
      user). */
  lemma {:induction false} SessionStaysConsistent(storage: Store, actions: seq<Action>)
    ensures Consistent(ReduceAll(Init(storage), actions))
    ensures |actions| > 0 ==>
      (ReduceAll(Init(storage), actions).state.user.Some? <==> ReduceAll(Init(storage), actions).state.token.Some?)
  {
    if |actions| > 0 {
      ReduceAllFrom(Reduce(Init(storage), actions[0]), actions[1..]);
    }
  }

  /** After at least one action both invariants hold, and every action
      keeps them. */
  lemma {:induction false} ReduceAllFrom(s: Session, actions: seq<Action>)
    requires Consistent(s)
    requires s.state.user.Some? <==> s.state.token.Some?
    ensures Consistent(ReduceAll(s, actions))
    ensures ReduceAll(s, actions).state.user.Some? <==> ReduceAll(s, actions).state.token.Some?
    decreases |actions|
  {
    if |actions| > 0 {
      ReduceAllFrom(Reduce(s, actions[0]), actions[1..]);
    }
  }
}
