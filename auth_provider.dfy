/** The session store (src/contexts/AuthProvider.tsx): the signed-in user, the
    `isAuthenticated` flag and the `loading` flag, and the transitions that
    update them. Each asynchronous handler is split at its `await`: the
    Begin* method is what runs before the backend answers, the End* method
    what runs with the answer, so the state in between is the one the
    screens render while the call is pending. */
module AuthProvider {
  import opened Outcomes
  import opened Models
  import ProtectedRoute

  /** The signed-in user as the backend describes it. */
  datatype User = User(id: Id, email: string)

  class Session {
    var user: Option<User>
    var isAuthenticated: bool
    var loading: bool
    /** Whether the auth-change listener is subscribed. */
    var listening: bool

    /** The flag agrees with the stored user. */
    ghost predicate Consistent()
      reads this
    {
      isAuthenticated == user.Some?
    }

    /** What the route guard renders for this session. */
    function Guard(): ProtectedRoute.View
      reads this
    {
      ProtectedRoute.Decide(loading, isAuthenticated)
    }

    /** The initial state: no user, not authenticated, loading. */
    constructor ()
      ensures user == None && !isAuthenticated && loading && !listening
      ensures Consistent() && Guard() == ProtectedRoute.Placeholder
    {
      user, isAuthenticated, loading, listening := None, false, true, false;
    }

    /** The mount effect up to the first `await`: `fetchUser` sets `loading`
        and the auth-change listener is subscribed. */
    method Mount()
      modifies this
      ensures loading && listening
      ensures user == old(user) && isAuthenticated == old(isAuthenticated)
    {
      loading := true;
      listening := true;
    }

    /** `fetchUser` once `getSession` answers: the user is the session's user
        or none, the flag says exactly whether there is one, and `loading`
        ends false. If `getSession` throws, nothing after the `await` runs
        and `loading` stays as it was. */
    method EndFetchUser(reply: Reply<Option<User>>)
      modifies this
      ensures listening == old(listening)
      ensures reply.Ok? ==> user == reply.value && isAuthenticated == reply.value.Some? && !loading
      ensures reply.Err? ==> user == None && !isAuthenticated && !loading
      ensures !reply.Throws? ==> Consistent() && Guard() != ProtectedRoute.Placeholder
      ensures reply.Throws? ==> user == old(user) && isAuthenticated == old(isAuthenticated) && loading == old(loading)
    {
      match reply {
        case Ok(sessionUser) =>
          user := sessionUser;
          isAuthenticated := sessionUser.Some?;
          loading := false;
        case Err =>
          user := None;
          isAuthenticated := false;
          loading := false;
        case Throws =>
      }
    }

    /** The auth-change listener: overwrites the user only. The flag is not
        touched, so it can disagree with the user afterwards. A listener
        that has been released is not called. */
    method OnAuthStateChange(sessionUser: Option<User>)
      modifies this
      ensures listening == old(listening)
      ensures isAuthenticated == old(isAuthenticated) && loading == old(loading)
      ensures user == if listening then sessionUser else old(user)
    {
      if listening {
        user := sessionUser;
      }
    }

    /** The cleanup of the mount effect: the listener is released. */
    method Unmount()
      modifies this
      ensures !listening
      ensures user == old(user) && isAuthenticated == old(isAuthenticated) && loading == old(loading)
    {
      listening := false;
    }

    /** `login` before the backend answers: `loading` is set, so the guard
        shows its placeholder while the sign-in is pending. */
    method BeginLogin()
      modifies this
      ensures loading && Guard() == ProtectedRoute.Placeholder
      ensures user == old(user) && isAuthenticated == old(isAuthenticated) && listening == old(listening)
    {
      loading := true;
    }

    /** `login` once `signInWithPassword` answers: on success the user is
        stored and the flag set; on an error or an exception the failure is
        raised to the caller and user and flag are left as they were.
        `loading` ends false in every outcome. */
    method EndLogin(reply: Reply<User>) returns (raised: bool)
      modifies this
      ensures !loading && listening == old(listening)
      ensures raised == !reply.Ok?
      ensures reply.Ok? ==> user == Some(reply.value) && isAuthenticated && Consistent()
      ensures !reply.Ok? ==> user == old(user) && isAuthenticated == old(isAuthenticated)
    {
      raised := false;
      match reply {
        case Ok(u) =>
          user := Some(u);
          isAuthenticated := true;
        case Err =>
          raised := true;
        case Throws =>
          raised := true;
      }
      loading := false;
    }

    /** `logout` before the backend answers. */
    method BeginLogout()
      modifies this
      ensures loading && Guard() == ProtectedRoute.Placeholder
      ensures user == old(user) && isAuthenticated == old(isAuthenticated) && listening == old(listening)
    {
      loading := true;
    }

    /** `logout` once `signOut` answers: a returned error is ignored and the
        session is cleared; if `signOut` throws, user and flag are left as
        they were. `loading` ends false in every outcome. */
    method EndLogout(reply: Reply<()>)
      modifies this
      ensures !loading && listening == old(listening)
      ensures !reply.Throws? ==> user == None && !isAuthenticated && Guard() == ProtectedRoute.Redirect("/login")
      ensures reply.Throws? ==> user == old(user) && isAuthenticated == old(isAuthenticated)
    {
      match reply {
        case Ok(_) =>
          user := None;
          isAuthenticated := false;
        case Err =>
          user := None;
          isAuthenticated := false;
        case Throws =>
      }
      loading := false;
    }
  }

  /** A start-up without a session followed by a sign-in pushed through the
      listener: the user is stored but the flag stays false, so the guard
      still redirects to the login page. */
  method ListenerLeavesFlagBehind(u: User) returns (user: Option<User>, isAuthenticated: bool, view: ProtectedRoute.View)
    ensures user == Some(u) && !isAuthenticated
    ensures view == ProtectedRoute.Redirect("/login")
  {
    var s := new Session();
    s.Mount();
    s.EndFetchUser(Ok(None));
    assert s.Guard() == ProtectedRoute.Redirect("/login");
    s.OnAuthStateChange(Some(u));
    assert !s.Consistent();
    user, isAuthenticated, view := s.user, s.isAuthenticated, s.Guard();
  }
}
