/**
 * `requireAuth` and `requireRole` (src/server/middleware/requireAuth.ts). Both read only the
 * session: a function of the session (and the allowed roles) to an outcome.
 */
module RequireAuth {
  import opened Common
  import opened Http

  /** The two session fields the application stores. */
  datatype Session = Session(userId: Option<int>, userRole: Option<string>)

  const AuthRequired: string := "Authentication required."
  const InsufficientPermissions: string := "Insufficient permissions."

  /** `req.session.userId` is truthy. */
  predicate Authenticated(s: Session) {
    TruthyInt(s.userId)
  }

  function RequireAuth(s: Session): (r: Outcome<Body<()>>)
    ensures r == Next <==> Authenticated(s)
    ensures r != Next ==> r == Respond(401, ErrorMessage(AuthRequired))
  {
    if !Authenticated(s) then ErrorReply(401, AuthRequired) else Next
  }

  function RequireRole(roles: seq<string>, s: Session): (r: Outcome<Body<()>>)
    ensures r == Next <==> Authenticated(s) && TruthyString(s.userRole) && s.userRole.value in roles
    ensures r.Respond? && r.status == 401 <==> !Authenticated(s) || !TruthyString(s.userRole)
    ensures r.Respond? && r.status == 403 <==>
      Authenticated(s) && TruthyString(s.userRole) && s.userRole.value !in roles
    ensures r.Respond? ==> r.body == ErrorMessage(if r.status == 401 then AuthRequired else InsufficientPermissions)
    ensures !r.NextError?
  {
    if !Authenticated(s) || !TruthyString(s.userRole) then ErrorReply(401, AuthRequired)
    else if s.userRole.value !in roles then ErrorReply(403, InsufficientPermissions)
    else Next
  }

  /** Passing `requireRole` implies passing `requireAuth`. */
  lemma RoleImpliesAuth(roles: seq<string>, s: Session)
    requires RequireRole(roles, s) == Next
    ensures RequireAuth(s) == Next
  {
  }

  /** Allowing more roles never turns a pass into a failure. */
  lemma MoreRolesStillPass(roles: seq<string>, more: seq<string>, s: Session)
    requires RequireRole(roles, s) == Next
    requires forall r | r in roles :: r in more
    ensures RequireRole(more, s) == Next
  {
  }

  /** `requireRole([])` rejects every authenticated caller with 403. */
  lemma EmptyRolesRejectAll(s: Session)
    requires Authenticated(s) && TruthyString(s.userRole)
    ensures RequireRole([], s) == Respond(403, ErrorMessage(InsufficientPermissions))
  {
  }

  /** The guard's verdict depends on the session only: equal sessions, equal verdicts. */
  lemma RoleComesFromSession(roles: seq<string>, s: Session, t: Session)
    requires s.userId == t.userId && s.userRole == t.userRole
    ensures RequireRole(roles, s) == RequireRole(roles, t)
  {
  }

  /** A worker is refused an admin-only route and an admin is let through. */
  lemma AdminOnlyExample(id: int)
    requires id != 0
    ensures RequireRole(["admin"], Session(Some(id), Some("worker"))).status == 403
    ensures RequireRole(["admin"], Session(Some(id), Some("admin"))) == Next
  {
  }
}
