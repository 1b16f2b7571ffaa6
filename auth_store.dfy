/**
 * The client's `useAuth` store (src/client/hooks/useAuthStore.ts): three fields that `login`
 * and `logout` overwrite together through `set`.
 */
module AuthStore {
  import opened Common
  import opened Schema

  /** The three fields of the store, as a value. */
  datatype State = State(user: Option<SafeUser>, token: Option<string>, isAuthenticated: bool)

  /** The two transitions the store offers. */
  datatype Action = LogIn(user: SafeUser, token: string) | LogOut

  /** The state the store is created with. */
  const Initial: State := State(None, None, false)

  /** One transition: every action writes all three fields. */
  function Apply(s: State, a: Action): (r: State)
    ensures a.LogIn? ==> r.user == Some(a.user) && r.token == Some(a.token) && r.isAuthenticated
    ensures a.LogOut? ==> r.user.None? && r.token.None? && !r.isAuthenticated
  {
    match a
    case LogIn(u, t) => State(Some(u), Some(t), true)
    case LogOut => Initial
  }

  /** The state after a run of actions, first to last. */
  function Run(s: State, actions: seq<Action>): State
    decreases |actions|
  {
    if actions == [] then s else Run(Apply(s, actions[0]), actions[1..])
  }

  /** `isAuthenticated` holds exactly when a user is set. */
  predicate Consistent(s: State) {
    s.isAuthenticated <==> s.user.Some?
  }

  /** From a consistent state, in particular the initial one, every run stays consistent. */
  lemma {:induction false} RunStaysConsistent(s: State, actions: seq<Action>)
    requires Consistent(s)
    ensures Consistent(Run(s, actions))
    decreases |actions|
  {
    if actions != [] {
      RunStaysConsistent(Apply(s, actions[0]), actions[1..]);
    }
  }

  /** Because every action overwrites every field, a run ends in the state its last action sets. */
  lemma {:induction false} LastActionDecides(s: State, actions: seq<Action>)
    requires actions != []
    ensures Run(s, actions) == Apply(Initial, actions[|actions| - 1])
    decreases |actions|
  {
    if |actions| > 1 {
      LastActionDecides(Apply(s, actions[0]), actions[1..]);
    }
  }

  /** Logging out twice is logging out once, and it brings back the initial state. */
  lemma LogoutIdempotent(s: State)
    ensures Apply(Apply(s, LogOut), LogOut) == Apply(s, LogOut) == Initial
  {
  }

  /** A second login replaces the first one's user and token. */
  lemma SecondLoginReplaces(s: State, u1: SafeUser, t1: string, u2: SafeUser, t2: string)
    ensures Apply(Apply(s, LogIn(u1, t1)), LogIn(u2, t2)) == Apply(s, LogIn(u2, t2))
    ensures Apply(Apply(s, LogIn(u1, t1)), LogIn(u2, t2)).user == Some(u2)
  {
  }

  /** The store object, whose fields `set` overwrites. */
  class Store {
    var user: Option<SafeUser>
    var token: Option<string>
    var isAuthenticated: bool

    constructor ()
      ensures Snapshot() == Initial
    {
      user := None;
      token := None;
      isAuthenticated := false;
    }

    function Snapshot(): State
      reads this
    {
      State(user, token, isAuthenticated)
    }

    /** `login(user, token)`. */
    method Login(u: SafeUser, t: string)
      modifies this
      ensures Snapshot() == Apply(old(Snapshot()), LogIn(u, t))
      ensures old(Consistent(Snapshot())) ==> Consistent(Snapshot())
    {
      user, token, isAuthenticated := Some(u), Some(t), true;
    }

    /** `logout()`. */
    method Logout()
      modifies this
      ensures Snapshot() == Apply(old(Snapshot()), LogOut)
      ensures Snapshot() == Initial
    {
      user, token, isAuthenticated := None, None, false;
    }
  }
}
