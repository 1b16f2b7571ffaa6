/**
 * The user routes of src/server/routes/users/index.ts: the list and get-one projections, which
 * leave out `passwordHash`, and the create, update and soft-delete statements over the users
 * table.
 */
module UserRoutes {
  import opened Common
  import opened Http
  import opened Schema
  import opened Database
  import opened JsNumber
  import Auth

  // ---------------------------------------------------------------------------------------
  // GET / and GET /:id

  /** Every row of the table with `columns: { passwordHash: false }`, in table order. */
  function SafeRows(t: seq<User>): (r: seq<SafeUser>)
    ensures |r| == |t|
    ensures forall i | 0 <= i < |t| :: r[i] == ToSafe(t[i])
  {
    seq(|t|, i requires 0 <= i < |t| => ToSafe(t[i]))
  }

  /** `GET /`: the window `Number(limit) || 10`, `Number(offset) || 0` of the projected rows. */
  function ListUsers(t: seq<User>, limit: Option<string>, offset: Option<string>): (r: Query<SafeUser>)
    ensures limit.None? && offset.None? ==>
      r.Rows? && |r.rows| == (if |t| < 10 then |t| else 10)
      && forall i | 0 <= i < |r.rows| :: r.rows[i] == ToSafe(t[i])
    ensures Falsy(ToNumberOpt(limit)) && r.Rows? ==> |r.rows| <= 10
    ensures r.Rows? <==> NumberOr(ToNumberOpt(limit), 10) >= 0 && NumberOr(ToNumberOpt(offset), 0) >= 0
    ensures r.Rows? ==> var o := NumberOr(ToNumberOpt(offset), 0);
      forall i | 0 <= i < |r.rows| :: o + i < |t| && r.rows[i] == ToSafe(t[o + i])
  {
    ListWindow(SafeRows(t), limit, offset)
  }

  /** Two tables that differ at most in the stored password hashes. */
  predicate SameButHashes(t: seq<User>, u: seq<User>) {
    |t| == |u| && forall i | 0 <= i < |t| :: t[i].(passwordHash := u[i].passwordHash) == u[i]
  }

  /** The list reveals nothing of the hashes: tables that differ only there list alike. */
  lemma ListHidesHashes(t: seq<User>, u: seq<User>, limit: Option<string>, offset: Option<string>)
    requires SameButHashes(t, u)
    ensures ListUsers(t, limit, offset) == ListUsers(u, limit, offset)
  {
    forall i | 0 <= i < |t|
      ensures ToSafe(t[i]) == ToSafe(u[i])
    {
      SafeUserDropsOnlyHash(t[i], u[i]);
    }
    assert SafeRows(t) == SafeRows(u);
  }

  /** The first company of a user: the `company` relation, a `one()` over `companies.userId`. */
  function FindCompanyOf(t: seq<Company>, userId: int): (r: Option<Company>)
    ensures r.Some? ==> r.value in t && r.value.userId == userId
    ensures r.None? <==> forall i | 0 <= i < |t| :: t[i].userId != userId
  {
    if t == [] then None else if t[0].userId == userId then Some(t[0]) else FindCompanyOf(t[1..], userId)
  }

  /** A user without the hash, with the three one-to-one relations the route loads. */
  datatype UserDetail = UserDetail(
    user: SafeUser,
    workerProfile: Option<WorkerProfile>,
    company: Option<Company>,
    managerProfile: Option<ManagerProfile>)

  /** `GET /:id`: 404 for a missing user, otherwise the user and its related rows. */
  function GetUser(users: seq<User>, workers: seq<WorkerProfile>, companies: seq<Company>,
                   managers: seq<ManagerProfile>, id: int): (r: Outcome<Body<UserDetail>>)
    ensures id !in UserIds(users) <==> r == ErrorReply(404, "User not found")
    ensures id in UserIds(users) ==>
      && r.Respond? && r.status == 200 && r.body.Data?
      && r.body.value.user == ToSafe(FindUser(users, id).value)
      && r.body.value.user.id == id
      && r.body.value.workerProfile == FindWorkerOf(workers, id)
      && r.body.value.company == FindCompanyOf(companies, id)
      && r.body.value.managerProfile == FindManagerOf(managers, id)
  {
    match FindUser(users, id)
    case None => ErrorReply(404, "User not found")
    case Some(u) =>
      Respond(200, Data(UserDetail(ToSafe(u), FindWorkerOf(workers, id), FindCompanyOf(companies, id),
                                   FindManagerOf(managers, id))))
  }

  /** Looking a key up in tables that differ only in the hashes finds rows that differ only there. */
  lemma {:induction false} FindUserSameButHashes(t: seq<User>, u: seq<User>, id: int)
    requires SameButHashes(t, u)
    ensures FindUser(t, id).None? <==> FindUser(u, id).None?
    ensures FindUser(t, id).Some? ==> ToSafe(FindUser(t, id).value) == ToSafe(FindUser(u, id).value)
  {
    if t != [] {
      assert t[0].id == u[0].id;
      assert SameButHashes(t[1..], u[1..]) by {
        forall i | 0 <= i < |t| - 1
          ensures t[1..][i].(passwordHash := u[1..][i].passwordHash) == u[1..][i]
        {
          assert t[1..][i] == t[i + 1] && u[1..][i] == u[i + 1];
        }
      }
      FindUserSameButHashes(t[1..], u[1..], id);
      SafeUserDropsOnlyHash(t[0], u[0]);
    }
  }

  /** The get-one response reveals nothing of the hashes either. */
  lemma GetHidesHashes(t: seq<User>, u: seq<User>, workers: seq<WorkerProfile>, companies: seq<Company>,
                       managers: seq<ManagerProfile>, id: int)
    requires SameButHashes(t, u)
    ensures GetUser(t, workers, companies, managers, id) == GetUser(u, workers, companies, managers, id)
  {
    FindUserSameButHashes(t, u, id);
  }

  // ---------------------------------------------------------------------------------------
  // POST /

  /** The request body of `POST /`; no schema validates it. */
  datatype NewUserBody = NewUserBody(
    role: Option<string>,
    email: Option<string>,
    password: Option<string>,
    firstName: Option<string>,
    lastName: Option<string>,
    phone: Option<string>)

  /**
   * `POST /` as written: the password goes into `password_hash` verbatim, and the response is the
   * whole inserted row. A violated constraint goes to `next(error)`.
   */
  method CreateUser(db: Db, b: NewUserBody, now: Timestamp) returns (out: Outcome<Body<User>>)
    requires db.Valid()
    modifies db`users, db`nextUserId
    ensures db.Valid()
    // the serial value is drawn even when the insert fails
    ensures db.nextUserId == old(db.nextUserId) + 1
    ensures var e := UserInsertError(old(db.users), b.email, b.password, b.role);
      && (e.Some? ==> out == NextError(e.value) && db.users == old(db.users))
      && (e.None? ==>
            var u := NewUser(old(db.nextUserId), b.email.value, b.password.value, b.role.value,
                             b.firstName, b.lastName, b.phone, now);
            && u.passwordHash == b.password.value
            && db.users == old(db.users) + [u]
            && out == Respond(201, Data(u)))
  {
    var newUser := db.InsertUser(b.role, b.email, b.password, b.firstName, b.lastName, b.phone, now);
    if newUser.Violated? {
      out := NextError(newUser.error);
      return;
    }
    out := Respond(201, Data(newUser.row));
  }

  /** The output of `hashPassword`: 64 lowercase hexadecimal digits (a SHA-256 `hex` digest). */
  predicate IsHexDigest(s: string) {
    |s| == 64 && forall i | 0 <= i < |s| :: s[i] in "0123456789abcdef"
  }

  /** In a table with unique emails, the lookup by a row's email finds that row. */
  lemma {:induction false} FindByOwnEmail(t: seq<User>, i: nat)
    requires EmailsUnique(t) && i < |t|
    ensures FindUserByEmail(t, t[i].email) == Some(t[i])
  {
    if i > 0 {
      assert t[0].email != t[i].email;
      assert EmailsUnique(t[1..]) by {
        forall k, j | 0 <= k < j < |t| - 1
          ensures t[1..][k].email != t[1..][j].email
        {
          assert t[1..][k] == t[k + 1] && t[1..][j] == t[j + 1];
        }
      }
      FindByOwnEmail(t[1..], i - 1);
    }
  }

  /**
   * A user stored by `POST /` can never log in with the password it was created with: the login
   * compares `hashPassword(password)` with the stored plaintext, and a password with an uppercase
   * letter is not a lowercase hex digest. When the byte lengths differ the comparison even throws.
   */
  lemma PlaintextUserCannotLogIn(users: seq<User>, next: int, row: User, password: string,
                                 hash: string -> string)
    requires UsersOk(users + [row], next)
    requires row.passwordHash == password && HasClass(password, Upper)
    requires IsHexDigest(hash(password))
    ensures !(Auth.LoginOutcome(users + [row], row.email, password, hash).Respond?
              && Auth.LoginOutcome(users + [row], row.email, password, hash).status == 200)
    ensures Auth.Utf8Length(password) != 64 ==>
      Auth.LoginOutcome(users + [row], row.email, password, hash) == NextError(Auth.ByteLengthError)
  {
    FindByOwnEmail(users + [row], |users|);
    DigestIsNotPlain(password, hash(password));
    Auth.AsciiLength(hash(password));
  }

  /** A string with an uppercase letter is not a lowercase hex digest. */
  lemma DigestIsNotPlain(p: string, d: string)
    requires HasClass(p, Upper) && IsHexDigest(d)
    ensures d != p
  {
    var k :| 0 <= k < |p| && InClass(p[k], Upper);
    if |d| == |p| {
      assert d[k] in "0123456789abcdef";
      assert d[k] != p[k];
    }
  }

  /** The first user signing up with "Secret1!", a password the shared schema accepts. */
  lemma SignUpThenLogInFails(hash: string -> string, now: Timestamp)
    requires IsHexDigest(hash("Secret1!"))
    ensures var row := NewUser(1, "ann@example.com", "Secret1!", "worker", None, None, None, now);
      Auth.LoginOutcome([row], "ann@example.com", "Secret1!", hash) == NextError(Auth.ByteLengthError)
  {
    var row := NewUser(1, "ann@example.com", "Secret1!", "worker", None, None, None, now);
    assert HasClass("Secret1!", Upper) by {
      assert InClass("Secret1!"[0], Upper);
    }
    assert UsersOk([] + [row], 2) by {
      assert UserIds([row]) == [1];
    }
    assert [] + [row] == [row];
    Auth.AsciiLength("Secret1!");
    PlaintextUserCannotLogIn([], 2, row, "Secret1!", hash);
  }

  /**
   * `POST /` as intended: `password_hash` receives `hashPassword(password)`, the digest `/login`
   * compares against. The response drops the hash.
   */
  method CreateUserHashed(db: Db, b: NewUserBody, hash: string -> string, now: Timestamp)
    returns (out: Outcome<Body<SafeUser>>)
    requires db.Valid()
    modifies db`users, db`nextUserId
    ensures db.Valid()
    // the serial value is drawn even when the insert fails
    ensures db.nextUserId == old(db.nextUserId) + 1
    ensures var digest := if b.password.Some? then Some(hash(b.password.value)) else None;
      var e := UserInsertError(old(db.users), b.email, digest, b.role);
      && (e.Some? ==> out == NextError(e.value) && db.users == old(db.users))
      && (e.None? ==>
            var u := NewUser(old(db.nextUserId), b.email.value, hash(b.password.value), b.role.value,
                             b.firstName, b.lastName, b.phone, now);
            && db.users == old(db.users) + [u]
            && out == Respond(201, Data(ToSafe(u)))
            && Auth.LoginOutcome(db.users, b.email.value, b.password.value, hash) == Respond(200, Auth.LoggedIn(ToSafe(u))))
  {
    var digest := if b.password.Some? then Some(hash(b.password.value)) else None;
    var newUser := db.InsertUser(b.role, b.email, digest, b.firstName, b.lastName, b.phone, now);
    if newUser.Violated? {
      out := NextError(newUser.error);
      return;
    }
    HashedUserCanLogIn(old(db.users), db.nextUserId, newUser.row, b.password.value, hash);
    out := Respond(201, Data(ToSafe(newUser.row)));
  }

  /** A user stored with the digest of the password logs in with that password. */
  lemma HashedUserCanLogIn(users: seq<User>, next: int, row: User, password: string, hash: string -> string)
    requires UsersOk(users + [row], next)
    requires row.passwordHash == hash(password)
    ensures Auth.LoginOutcome(users + [row], row.email, password, hash) == Respond(200, Auth.LoggedIn(ToSafe(row)))
  {
    FindByOwnEmail(users + [row], |users|);
  }

  // ---------------------------------------------------------------------------------------
  // PUT /:id and DELETE /:id

  /** `v` is `u` with at most the profile columns and `updatedAt` changed. */
  predicate ProfileOnly(u: User, v: User) {
    v.(firstName := u.firstName, lastName := u.lastName, phone := u.phone, updatedAt := u.updatedAt) == u
  }

  /** `PUT /:id`: writes `firstName`, `lastName`, `phone` (when defined) and `updatedAt`. */
  method PutUser(db: Db, id: int, firstName: Option<string>, lastName: Option<string>, phone: Option<string>,
                 now: Timestamp) returns (out: Outcome<Body<User>>)
    requires db.Valid()
    modifies db`users
    ensures db.Valid()
    ensures id !in UserIds(old(db.users)) ==> out == ErrorReply(404, "User not found.") && db.users == old(db.users)
    ensures id in UserIds(old(db.users)) ==>
      var before := FindUser(old(db.users), id).value;
      && db.users == UsersWhereId(old(db.users), id, ProfileChange(firstName, lastName, phone, now))
      && out.Respond? && out.status == 200 && out.body.Data?
      && ProfileOnly(before, out.body.value) && out.body.value.updatedAt == now
      && out.body.value.firstName == SetOpt(firstName, before.firstName)
      && out.body.value.lastName == SetOpt(lastName, before.lastName)
      && out.body.value.phone == SetOpt(phone, before.phone)
  {
    var updatedUser := db.UpdateUsers(id, ProfileChange(firstName, lastName, phone, now));
    if updatedUser.None? {
      NoUserUnchanged(old(db.users), id, ProfileChange(firstName, lastName, phone, now));
      out := ErrorReply(404, "User not found.");
      return;
    }
    out := Respond(200, Data(updatedUser.value));
  }

  /** An update by a key no row has changes nothing. */
  lemma NoUserUnchanged(t: seq<User>, id: int, c: UserChange)
    requires id !in UserIds(t)
    ensures UsersWhereId(t, id, c) == t
  {
    assert forall i | 0 <= i < |t| :: t[i].id == UserIds(t)[i];
  }

  datatype Notice = Notice(message: string)

  /**
   * `DELETE /:id` is a soft delete: the row stays, with `isActive` false. The 404 for a missing
   * user is the response the client receives.
   */
  method DeleteUser(db: Db, id: int, now: Timestamp) returns (out: Outcome<Body<Notice>>)
    requires db.Valid()
    modifies db`users
    ensures db.Valid()
    ensures |db.users| == |old(db.users)| && UserIds(db.users) == UserIds(old(db.users))
    ensures id !in UserIds(old(db.users)) ==> out == ErrorReply(404, "User not found.") && db.users == old(db.users)
    ensures id in UserIds(old(db.users)) ==>
      && db.users == UsersWhereId(old(db.users), id, Deactivation(now))
      && FindUser(db.users, id) == Some(FindUser(old(db.users), id).value.(isActive := false, updatedAt := now))
      && out == Respond(200, Data(Notice("User deactivated successfully.")))
  {
    UsersWhereIdFrame(db.users, id, Deactivation(now));
    UpdatedUserFound(db.users, id, Deactivation(now));
    var deactivatedUser := db.UpdateUsers(id, Deactivation(now));
    if deactivatedUser.None? {
      NoUserUnchanged(old(db.users), id, Deactivation(now));
      out := ErrorReply(404, "User not found.");
      return;
    }
    out := Respond(200, Data(Notice("User deactivated successfully.")));
  }
}
