/**
 * `POST /` and `PUT /:id` of src/server/routes/users/managers.ts. The POST runs a guard chain
 * and then, in one transaction, inserts the manager profile and makes the user a manager; the
 * PUT sits behind `requireAuth` and `validateRequest` and updates the profile rows of a user.
 */
module Managers {
  import opened Common
  import opened Http
  import opened Schema
  import opened Database
  import opened JsNumber
  import RequireAuth
  import opened ValidateRequest
  import opened SharedSchemas
  import opened IdParam

  /** The request body of `POST /`. */
  datatype ManagerBody = ManagerBody(
    userId: Option<int>,
    companyId: Option<int>,
    workSiteId: Option<int>,
    position: Option<string>,
    permissions: Option<seq<string>>)

  /** The transaction's result, `{ manager, user }`. */
  datatype Created = Created(manager: ManagerProfile, user: User)

  const MissingIds: string := "Required params: userId and companyId."
  const UserNotFound: string := "User not found."
  const CompanyNotFound: string := "Company not found."
  const ManagerNotFound: string := "Manager not found."

  /** The row the transaction inserts, under the serial value `id`. */
  function NewManager(id: int, b: ManagerBody): (m: ManagerProfile)
    requires b.userId.Some? && b.companyId.Some?
    ensures m.id == id && m.userId == b.userId.value && m.companyId == b.companyId.value
  {
    ManagerProfile(id, b.userId.value, b.companyId.value, b.workSiteId, b.position, b.permissions)
  }

  /**
   * `POST /`. 400 unless both ids are truthy, then 404 for the user and 404 for the company, in
   * that order. The transaction either inserts the profile and sets the user's role to
   * "manager" (201 with both rows) or, when the insert breaks a key, changes neither table and
   * passes the error on.
   */
  method PostManager(db: Db, b: ManagerBody, now: Timestamp) returns (out: Outcome<Body<Created>>)
    requires db.Valid()
    modifies db`managers, db`nextManagerId, db`users
    ensures db.Valid()
    ensures !(TruthyInt(b.userId) && TruthyInt(b.companyId)) ==>
      out == ErrorReply(400, MissingIds) && db.managers == old(db.managers) && db.users == old(db.users)
      && db.nextManagerId == old(db.nextManagerId)
    ensures TruthyInt(b.userId) && TruthyInt(b.companyId) && b.userId.value !in UserIds(old(db.users)) ==>
      out == ErrorReply(404, UserNotFound) && db.managers == old(db.managers) && db.users == old(db.users)
      && db.nextManagerId == old(db.nextManagerId)
    ensures TruthyInt(b.userId) && TruthyInt(b.companyId) && b.userId.value in UserIds(old(db.users))
            && b.companyId.value !in CompanyIds(db.companies) ==>
      out == ErrorReply(404, CompanyNotFound) && db.managers == old(db.managers) && db.users == old(db.users)
      && db.nextManagerId == old(db.nextManagerId)
    // once both rows exist the insert draws a serial value, whether or not it succeeds
    ensures TruthyInt(b.userId) && TruthyInt(b.companyId) && b.userId.value in UserIds(old(db.users))
            && b.companyId.value in CompanyIds(db.companies) ==>
      db.nextManagerId == old(db.nextManagerId) + 1
    ensures TruthyInt(b.userId) && TruthyInt(b.companyId) && b.userId.value in UserIds(old(db.users))
            && b.companyId.value in CompanyIds(db.companies) ==>
      var m := NewManager(old(db.nextManagerId), b);
      var e := ManagerKeyError(m, UserIds(old(db.users)), CompanyIds(db.companies), SiteIds(db.sites));
      && (e.Some? ==> out == NextError(e.value) && db.managers == old(db.managers) && db.users == old(db.users))
      && (e.None? ==>
            var user := ChangeUser(FindUser(old(db.users), b.userId.value).value, RoleChange("manager", now));
            && db.managers == old(db.managers) + [m]
            && db.users == UsersWhereId(old(db.users), b.userId.value, RoleChange("manager", now))
            && user.role == "manager" && user.updatedAt == now
            && out == Respond(201, Data(Created(m, user))))
    // the transaction is atomic: the profile is inserted exactly when the role is written
    ensures db.managers == old(db.managers) ==> db.users == old(db.users)
    ensures db.managers != old(db.managers) ==>
      FindUser(db.users, b.userId.value).Some? && FindUser(db.users, b.userId.value).value.role == "manager"
  {
    if !(TruthyInt(b.userId) && TruthyInt(b.companyId)) {
      out := ErrorReply(400, MissingIds);
      return;
    }
    var userId := b.userId.value;
    if userId !in UserIds(db.users) {
      out := ErrorReply(404, UserNotFound);
      return;
    }
    if b.companyId.value !in CompanyIds(db.companies) {
      out := ErrorReply(404, CompanyNotFound);
      return;
    }
    out := CreateManager(db, b, now);
  }

  /**
   * The transaction of `POST /`, once the user and the company are known to exist: the insert
   * and the role update both happen, or neither does.
   */
  method CreateManager(db: Db, b: ManagerBody, now: Timestamp) returns (out: Outcome<Body<Created>>)
    requires db.Valid()
    requires b.userId.Some? && b.companyId.Some? && b.userId.value in UserIds(db.users)
    modifies db`managers, db`nextManagerId, db`users
    ensures db.Valid()
    ensures db.nextManagerId == old(db.nextManagerId) + 1
    ensures var m := NewManager(old(db.nextManagerId), b);
      var e := ManagerKeyError(m, UserIds(old(db.users)), CompanyIds(db.companies), SiteIds(db.sites));
      && (e.Some? ==> out == NextError(e.value) && db.managers == old(db.managers) && db.users == old(db.users))
      && (e.None? ==>
            var user := ChangeUser(FindUser(old(db.users), b.userId.value).value, RoleChange("manager", now));
            && db.managers == old(db.managers) + [m]
            && db.users == UsersWhereId(old(db.users), b.userId.value, RoleChange("manager", now))
            && user.role == "manager" && user.updatedAt == now
            && out == Respond(201, Data(Created(m, user)))
            && FindUser(db.users, b.userId.value) == Some(user))
  {
    var userId := b.userId.value;
    var newManager := db.InsertManager(userId, b.companyId.value, b.workSiteId, b.position, b.permissions);
    if newManager.Violated? {
      // the transaction rolls back; only the sequence value stays consumed
      out := NextError(newManager.error);
      return;
    }
    var updatedUser := db.UpdateUsers(userId, RoleChange("manager", now));
    RoleWritten(old(db.users), userId, now);
    out := Respond(201, Data(Created(newManager.row, updatedUser.value)));
  }

  /** After the role update the user is found again, now a manager. */
  lemma RoleWritten(t: seq<User>, id: int, now: Timestamp)
    requires id in UserIds(t)
    ensures FindUser(UsersWhereId(t, id, RoleChange("manager", now)), id)
         == Some(ChangeUser(FindUser(t, id).value, RoleChange("manager", now)))
  {
    UpdatedUserFound(t, id, RoleChange("manager", now));
  }

  /** A user stands behind at most one manager profile. The route does not keep this invariant. */
  predicate OneManagerPerUser(t: seq<ManagerProfile>) {
    forall i, j | 0 <= i < j < |t| :: t[i].userId != t[j].userId
  }

  /**
   * There is no existing-profile check: a second successful POST for a user who already has a
   * profile appends another row for that user.
   */
  lemma RepeatedPostDuplicates(t: seq<ManagerProfile>, m: ManagerProfile)
    requires FindManagerOf(t, m.userId).Some?
    ensures !OneManagerPerUser(t + [m])
    ensures FindManagerOf(t + [m], m.userId) == FindManagerOf(t, m.userId)
  {
    var i :| 0 <= i < |t| && t[i].userId == m.userId;
    assert (t + [m])[i].userId == (t + [m])[|t|].userId;
    FindPrefix(t, m);
  }

  lemma {:induction false} FindPrefix(t: seq<ManagerProfile>, m: ManagerProfile)
    requires FindManagerOf(t, m.userId).Some?
    ensures FindManagerOf(t + [m], m.userId) == FindManagerOf(t, m.userId)
  {
    if t[0].userId != m.userId {
      assert (t + [m])[1..] == t[1..] + [m];
      FindPrefix(t[1..], m);
    }
  }

  // ---------------------------------------------------------------------------------------
  // PUT /:id

  /** A response of `PUT /:id`: a plain body, or the report of `validateRequest`. */
  datatype PutBody = Plain(body: Body<ManagerProfile>) | Invalid(report: ErrorReport)

  /** The schemas the route hands to `validateRequest`. */
  function PutSchemas(): Schemas<ManagerInput, (), IdParams> {
    Schemas(Some(ParseManagerUpdate), None, Some(ParseIdParams))
  }

  function ChangeOf(m: ManagerInput): ManagerChange {
    ManagerChange(m.companyId, m.workSiteId, m.position, m.permissions)
  }

  /** The user id of the path: `Number(req.params.id)` of an id that passed `idParamSchema`. */
  function PathUserId(p: IdParams): (n: int)
    requires ParseIdParams(p).Parsed?
    ensures n > 0
  {
    ToNumber(p.id.value).value
  }

  /**
   * `PUT /:id`. `requireAuth` answers 401 before the body is looked at; a body or params that
   * do not validate are answered 400 by `validateRequest`; then the profile rows of the user are
   * updated in one statement, 404 when there are none.
   */
  method PutManager(db: Db, session: RequireAuth.Session, body: ManagerInput, params: IdParams)
    returns (out: Outcome<PutBody>)
    requires db.Valid()
    modifies db`managers
    ensures db.Valid()
    ensures !RequireAuth.Authenticated(session) ==>
      out == Respond(401, Plain(ErrorMessage(RequireAuth.AuthRequired))) && db.managers == old(db.managers)
    ensures RequireAuth.Authenticated(session) && !ManagerUpdateOk(body) ==>
      out == Respond(400, Invalid(ErrorReport("error", "Invalid request data", ParseManagerUpdate(body).issues)))
      && db.managers == old(db.managers)
    ensures RequireAuth.Authenticated(session) && ManagerUpdateOk(body) && !ParseIdParams(params).Parsed? ==>
      out == Respond(400, Invalid(ErrorReport("error", "Invalid request data", ParseIdParams(params).issues)))
      && db.managers == old(db.managers)
    ensures RequireAuth.Authenticated(session) && ManagerUpdateOk(body) && ParseIdParams(params).Parsed? ==>
      var userId := PathUserId(params);
      var t := ManagersWhereUser(old(db.managers), userId, ChangeOf(body));
      var e := ManagersKeyError(t, UserIds(db.users), CompanyIds(db.companies), SiteIds(db.sites));
      && (e.Some? ==> out == NextError(e.value) && db.managers == old(db.managers))
      && (e.None? ==> db.managers == t)
      && (e.None? && FindManagerOf(old(db.managers), userId).None? ==>
            out == Respond(404, Plain(ErrorMessage(ManagerNotFound))) && db.managers == old(db.managers))
      && (e.None? && FindManagerOf(old(db.managers), userId).Some? ==>
            out == Respond(200, Plain(Data(ChangeManager(FindManagerOf(old(db.managers), userId).value, ChangeOf(body))))))
  {
    if RequireAuth.RequireAuth(session) != Next {
      out := Respond(401, Plain(ErrorMessage(RequireAuth.AuthRequired)));
      return;
    }
    var req := new Request<ManagerInput, (), IdParams>(body, (), params);
    var validation := Validate(PutSchemas(), req);
    if validation != Next {
      out := match validation
        case Respond(status, report) => Respond(status, Invalid(report))
        case NextError(error) => NextError(error)
        case Next => Next;
      return;
    }
    var userId := PathUserId(req.params);
    var updated := db.UpdateManagers(userId, ChangeOf(req.body));
    if updated.Violated? {
      out := NextError(updated.error);
      return;
    }
    if updated.row.None? {
      NoRowsUnchanged(old(db.managers), userId, ChangeOf(body));
      out := Respond(404, Plain(ErrorMessage(ManagerNotFound)));
      return;
    }
    out := Respond(200, Plain(Data(updated.row.value)));
  }

  /** An update whose `where` selects no row changes no row. */
  lemma NoRowsUnchanged(t: seq<ManagerProfile>, userId: int, c: ManagerChange)
    requires FindManagerOf(t, userId).None?
    ensures ManagersWhereUser(t, userId, c) == t
  {
  }
}
