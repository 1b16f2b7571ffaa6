/**
 * The authentication routes of src/server/auth/auth.ts: `POST /login`, `POST /logout` and
 * `GET /me`, over the users table and the express-session record of the request.
 * `hashPassword` (SHA-256 of the password and a fixed salt, as a hex string) is the
 * parameter `hash`; the model relies only on it being a function.
 */
module Auth {
  import opened Common
  import opened Http
  import opened Schema
  import opened Database
  import RequireAuth

  /** The session record of a request: the two fields the handlers write. */
  class Session {
    var userId: Option<int>
    var userRole: Option<string>

    constructor (userId: Option<int>, userRole: Option<string>)
      ensures this.userId == userId && this.userRole == userRole
    {
      this.userId := userId;
      this.userRole := userRole;
    }

    /** The session as the guards of src/server/middleware/requireAuth.ts read it. */
    function Values(): RequireAuth.Session
      reads this
    {
      RequireAuth.Session(userId, userRole)
    }
  }

  // ---------------------------------------------------------------------------------------
  // `Buffer.from` and `crypto.timingSafeEqual`

  /** The number of bytes UTF-8 encodes a character in. */
  function CharBytes(c: char): (n: nat)
    ensures 1 <= n <= 4
    ensures n == 1 <==> c as int < 0x80
  {
    if c as int < 0x80 then 1 else if c as int < 0x800 then 2 else if c as int < 0x1_0000 then 3 else 4
  }

  /** The length of `Buffer.from(s)`: the UTF-8 byte length of `s`. */
  function Utf8Length(s: string): (n: nat)
    ensures |s| <= n <= 4 * |s|
  {
    if s == [] then 0 else Utf8Length(s[..|s| - 1]) + CharBytes(s[|s| - 1])
  }

  predicate IsAscii(s: string) {
    forall i | 0 <= i < |s| :: s[i] as int < 0x80
  }

  /** An ASCII string takes one byte per character. */
  lemma {:induction false} AsciiLength(s: string)
    requires IsAscii(s)
    ensures Utf8Length(s) == |s|
  {
    if s != [] {
      AsciiLength(s[..|s| - 1]);
    }
  }

  /** A string with a character outside ASCII takes more bytes than characters. */
  lemma {:induction false} NonAsciiLength(s: string, i: nat)
    requires i < |s| && s[i] as int >= 0x80
    ensures Utf8Length(s) > |s|
  {
    if i < |s| - 1 {
      NonAsciiLength(s[..|s| - 1], i);
    }
  }

  const ByteLengthError: Failure := Failure("RangeError", "Input buffers must have the same byte length")

  /**
   * `crypto.timingSafeEqual(Buffer.from(a), Buffer.from(b))`: None when it throws (the byte
   * lengths differ), otherwise whether the buffers are equal. UTF-8 encoding is one-to-one,
   * so equal buffers are equal strings.
   */
  function TimingSafeEqual(a: string, b: string): (r: Option<bool>)
    ensures r.None? <==> Utf8Length(a) != Utf8Length(b)
    ensures r.Some? ==> (r.value <==> a == b)
  {
    if Utf8Length(a) != Utf8Length(b) then None else Some(a == b)
  }

  // ---------------------------------------------------------------------------------------
  // POST /login

  datatype LoginBody =
    | Refused(error: string)
    | Mismatch(hash: string, saved: string, isSame: bool, error: string)
    | LoggedIn(user: SafeUser)

  const NoSuchUser: string := "Invalid credentials: User doesn't exist."
  const BadPassword: string := "Invalid credentials"

  /** The response `/login` gives for a request body `{ email, password }`. */
  function LoginOutcome(users: seq<User>, email: string, password: string, hash: string -> string)
    : (r: Outcome<LoginBody>)
    ensures FindUserByEmail(users, email).None? <==> r == Respond(401, Refused(NoSuchUser))
    ensures r.NextError? <==>
      FindUserByEmail(users, email).Some? && Utf8Length(hash(password)) != Utf8Length(FindUserByEmail(users, email).value.passwordHash)
    ensures r.NextError? ==> r.error == ByteLengthError
    ensures r.Respond? && r.status == 200 <==>
      FindUserByEmail(users, email).Some? && hash(password) == FindUserByEmail(users, email).value.passwordHash
    ensures r.Respond? && r.status == 200 ==> r.body == LoggedIn(ToSafe(FindUserByEmail(users, email).value))
    ensures r.Respond? && r.body.Mismatch? ==>
      r.status == 401 && r.body.hash == hash(password) && !r.body.isSame && r.body.error == BadPassword
      && r.body.saved == FindUserByEmail(users, email).value.passwordHash
    ensures (FindUserByEmail(users, email).Some?
             && Utf8Length(hash(password)) == Utf8Length(FindUserByEmail(users, email).value.passwordHash)
             && hash(password) != FindUserByEmail(users, email).value.passwordHash) ==>
      r == Respond(401, Mismatch(hash(password), FindUserByEmail(users, email).value.passwordHash, false, BadPassword))
  {
    match FindUserByEmail(users, email)
    case None => Respond(401, Refused(NoSuchUser))
    case Some(user) =>
      match TimingSafeEqual(hash(password), user.passwordHash)
      case None => NextError(ByteLengthError)
      case Some(valid) =>
        if !valid then Respond(401, Mismatch(hash(password), user.passwordHash, hash(password) == user.passwordHash, BadPassword))
        else Respond(200, LoggedIn(ToSafe(user)))
  }

  /**
   * `POST /login`. The session is written only on success, and then exactly its `userId` and
   * `userRole` are set to the user's.
   */
  method Login(db: Db, session: Session, email: string, password: string, hash: string -> string)
    returns (out: Outcome<LoginBody>)
    modifies session
    ensures out == LoginOutcome(db.users, email, password, hash)
    ensures out.Respond? && out.status == 200 ==>
      var user := FindUserByEmail(db.users, email).value;
      session.userId == Some(user.id) && session.userRole == Some(user.role)
    ensures !(out.Respond? && out.status == 200) ==>
      session.userId == old(session.userId) && session.userRole == old(session.userRole)
  {
    var found := FindUserByEmail(db.users, email);
    if found.None? {
      out := Respond(401, Refused(NoSuchUser));
      return;
    }
    var user := found.value;
    var validPassword := TimingSafeEqual(hash(password), user.passwordHash);
    if validPassword.None? {
      out := NextError(ByteLengthError);
      return;
    }
    if !validPassword.value {
      out := Respond(401, Mismatch(hash(password), user.passwordHash, hash(password) == user.passwordHash, BadPassword));
      return;
    }
    session.userId := Some(user.id);
    session.userRole := Some(user.role);
    out := Respond(200, LoggedIn(ToSafe(user)));
  }

  /** A stored hash of a byte length other than the digest's makes `/login` fail with an error, not a 401. */
  lemma LengthMismatchThrows(users: seq<User>, email: string, password: string, hash: string -> string)
    requires FindUserByEmail(users, email).Some?
    requires Utf8Length(FindUserByEmail(users, email).value.passwordHash) != Utf8Length(hash(password))
    ensures LoginOutcome(users, email, password, hash) == NextError(ByteLengthError)
  {
  }

  // ---------------------------------------------------------------------------------------
  // POST /logout

  datatype LogoutBody = LogoutFailed(error: string) | LoggedOut(clearedCookie: string, message: string)

  /**
   * `POST /logout`. Whether the session store fails to destroy the session is the parameter
   * `destroyFails`; a destroyed session has neither field set.
   */
  method Logout(session: Session, destroyFails: bool) returns (out: Outcome<LogoutBody>)
    modifies session
    ensures destroyFails ==>
      (out == Respond(500, LogoutFailed("Could not log out"))
       && session.userId == old(session.userId) && session.userRole == old(session.userRole))
    ensures !destroyFails ==>
      (out == Respond(200, LoggedOut("connect.sid", "Logged out successfully"))
       && session.userId.None? && session.userRole.None?)
  {
    if destroyFails {
      out := Respond(500, LogoutFailed("Could not log out"));
      return;
    }
    session.userId := None;
    session.userRole := None;
    out := Respond(200, LoggedOut("connect.sid", "Logged out successfully"));
  }

  // ---------------------------------------------------------------------------------------
  // GET /me

  /** `GET /me` for the session's `userId`. */
  function Me(users: seq<User>, userId: Option<int>): (r: Outcome<Body<SafeUser>>)
    ensures !TruthyInt(userId) <==> r == Respond(401, ErrorMessage("Not authenticated."))
    ensures TruthyInt(userId) && userId.value !in UserIds(users) <==> r == Respond(404, ErrorMessage("User not found"))
    ensures r.Respond? && r.status == 200 <==> TruthyInt(userId) && userId.value in UserIds(users)
    ensures r.Respond? && r.status == 200 ==> r.body == Data(ToSafe(FindUser(users, userId.value).value))
    ensures !r.Next? && !r.NextError?
  {
    if !TruthyInt(userId) then Respond(401, ErrorMessage("Not authenticated."))
    else match FindUser(users, userId.value)
      case None => Respond(404, ErrorMessage("User not found"))
      case Some(u) => Respond(200, Data(ToSafe(u)))
  }

  /** In a table with unique keys, looking a row's own key up finds that row. */
  lemma {:induction false} FindOwnUser(users: seq<User>, next: int, i: nat)
    requires UsersOk(users, next) && i < |users|
    ensures FindUser(users, users[i].id) == Some(users[i])
  {
    if i > 0 {
      assert users[0].id < users[i].id;
      assert UsersOk(users[1..], next) by {
        assert UserIds(users[1..]) == UserIds(users)[1..];
      }
      FindOwnUser(users[1..], next, i - 1);
    }
  }

  /**
   * After a successful login, `/me` on the same session answers with the same user record
   * the login returned.
   */
  lemma LoginThenMe(users: seq<User>, next: int, email: string, password: string, hash: string -> string)
    requires UsersOk(users, next)
    requires LoginOutcome(users, email, password, hash).Respond? && LoginOutcome(users, email, password, hash).status == 200
    ensures var user := FindUserByEmail(users, email).value;
      Me(users, Some(user.id)) == Respond(200, Data(ToSafe(user)))
      && LoginOutcome(users, email, password, hash).body == LoggedIn(ToSafe(user))
  {
    var user := FindUserByEmail(users, email).value;
    var i :| 0 <= i < |users| && users[i] == user;
    FindOwnUser(users, next, i);
  }

  /** The session a successful login writes passes `requireAuth` and `requireRole` for the user's role. */
  lemma LoginAuthenticates(users: seq<User>, next: int, email: string, password: string, hash: string -> string,
                           roles: seq<string>)
    requires UsersOk(users, next)
    requires LoginOutcome(users, email, password, hash).Respond? && LoginOutcome(users, email, password, hash).status == 200
    ensures var user := FindUserByEmail(users, email).value;
      var s := RequireAuth.Session(Some(user.id), Some(user.role));
      && RequireAuth.RequireAuth(s) == Next
      && (user.role != "" && user.role in roles ==> RequireAuth.RequireRole(roles, s) == Next)
  {
    var user := FindUserByEmail(users, email).value;
    var i :| 0 <= i < |users| && users[i] == user;
    assert user.id == UserIds(users)[i];
  }
}
