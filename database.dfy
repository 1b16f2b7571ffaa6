/**
 * The database the route handlers talk to through drizzle: the tables of the schema as
 * fields of a `Db` object, and one method per SQL statement the handlers issue (an
 * `insert ... returning` or an `update ... set ... where ... returning`). A statement either
 * takes effect completely or raises the error of the first constraint it violates and
 * changes no row. A serial value is drawn before the row is checked, so a failed insert
 * still advances its table's sequence.
 */
module Database {
  import opened Common
  import opened Http
  import opened Schema
  import opened JsNumber

  /** The outcome of an `insert ... returning`: the stored row or the violation raised. */
  datatype Written<T> = Written(row: T) | Violated(error: Failure)

  /** drizzle's `.set({ column: v })` for a nullable column: an undefined `v` leaves it as it is. */
  function SetOpt<T>(v: Option<T>, current: Option<T>): (r: Option<T>)
    ensures v.Some? ==> r == v
    ensures v.None? ==> r == current
  {
    if v.Some? then v else current
  }

  /** The outcome of a `select`: the rows it returns, or the error it raises. */
  datatype Query<T> = Rows(rows: seq<T>) | QueryError(error: Failure)

  /**
   * `findMany({ limit, offset })` over rows already in the query's order: PostgreSQL refuses
   * a negative OFFSET and then a negative LIMIT; otherwise it skips `offset` rows and returns at
   * most `limit` of the rest.
   */
  function Window<T>(t: seq<T>, limit: int, offset: int): (r: Query<T>)
    ensures r.Rows? <==> limit >= 0 && offset >= 0
    ensures offset < 0 ==> r == QueryError(DbError("OFFSET must not be negative"))
    ensures r.Rows? ==> |r.rows| <= limit && (|r.rows| == limit || offset + |r.rows| == |t| || offset >= |t|)
    ensures r.Rows? ==> forall i | 0 <= i < |r.rows| :: offset + i < |t| && r.rows[i] == t[offset + i]
  {
    if offset < 0 then QueryError(DbError("OFFSET must not be negative"))
    else if limit < 0 then QueryError(DbError("LIMIT must not be negative"))
    else if offset >= |t| then Rows([])
    else if |t| - offset <= limit then Rows(t[offset..])
    else Rows(t[offset..offset + limit])
  }

  /** The `Number(req.query.limit) || 10` and `Number(req.query.offset) || 0` of the list routes. */
  function ListWindow<T>(t: seq<T>, limit: Option<string>, offset: Option<string>): (r: Query<T>)
    ensures limit.None? && offset.None? ==> r == Window(t, 10, 0)
    ensures Falsy(ToNumberOpt(limit)) && Falsy(ToNumberOpt(offset)) ==> r == Window(t, 10, 0)
    ensures Falsy(ToNumberOpt(limit)) && r.Rows? ==> |r.rows| <= 10
    ensures Falsy(ToNumberOpt(offset)) && r.Rows? ==> |r.rows| <= |t| && r.rows == t[..|r.rows|]
  {
    var l := NumberOr(ToNumberOpt(limit), 10);
    var o := NumberOr(ToNumberOpt(offset), 0);
    WindowFromStart(t, l);
    Window(t, l, o)
  }

  lemma WindowFromStart<T>(t: seq<T>, limit: int)
    ensures Window(t, limit, 0).Rows? ==>
      var rows := Window(t, limit, 0).rows; |rows| <= |t| && rows == t[..|rows|]
  {
  }

  /** A query value that reads as a nonzero number is used as it is. */
  lemma ListWindowNumbers<T>(t: seq<T>, limit: Option<string>, offset: Option<string>, n: int, o: int)
    requires ToNumberOpt(limit) == Int(n) && n != 0
    requires ToNumberOpt(offset) == Int(o)
    ensures ListWindow(t, limit, offset) == Window(t, n, o)
  {
  }

  /** `?limit=-1` reaches PostgreSQL as `LIMIT -1` and is refused there. */
  lemma ListWindowNegativeLimit<T>(t: seq<T>)
    ensures ListWindow(t, Some("-1"), None) == QueryError(DbError("LIMIT must not be negative"))
  {
    assert Trim("-1") == "-1";
    assert DigitsValue("1") == 1 by { assert "1"[..0] == []; }
    assert ToNumber("-1") == Int(-1) by { assert "-1"[1..] == "1"; }
  }

  // ---------------------------------------------------------------------------------------
  // Row changes, one per `.set({...})` the handlers issue

  datatype UserChange =
    | ProfileChange(firstName: Option<string>, lastName: Option<string>, phone: Option<string>, at: Timestamp)
    | Deactivation(at: Timestamp)
    | RoleChange(role: string, at: Timestamp)

  function ChangeUser(u: User, c: UserChange): (v: User)
    ensures v.id == u.id && v.email == u.email && v.passwordHash == u.passwordHash
  {
    match c
    case ProfileChange(f, l, p, at) =>
      u.(firstName := SetOpt(f, u.firstName), lastName := SetOpt(l, u.lastName), phone := SetOpt(p, u.phone),
         updatedAt := at)
    case Deactivation(at) => u.(isActive := false, updatedAt := at)
    case RoleChange(r, at) => u.(role := r, updatedAt := at)
  }

  datatype WorkerChange = WorkerChange(
    skills: Option<seq<string>>,
    experience: Option<int>,
    availability: Option<string>,
    preferredLocation: Option<string>,
    ratePerHour: Option<real>,
    bio: Option<string>,
    certifications: Option<seq<string>>,
    isPublic: Option<bool>)

  function ChangeWorker(w: WorkerProfile, c: WorkerChange): (v: WorkerProfile)
    ensures v.id == w.id && v.userId == w.userId
  {
    w.(skills := SetOpt(c.skills, w.skills), experience := SetOpt(c.experience, w.experience),
       availability := SetOpt(c.availability, w.availability),
       preferredLocation := SetOpt(c.preferredLocation, w.preferredLocation),
       ratePerHour := SetOpt(c.ratePerHour, w.ratePerHour), bio := SetOpt(c.bio, w.bio),
       certifications := SetOpt(c.certifications, w.certifications),
       isPublic := c.isPublic.GetOr(w.isPublic))
  }

  datatype CompanyChange =
    | Details(companyName: Option<string>, registrationNumber: Option<string>, description: Option<string>,
              websiteUrl: Option<string>)
    | Verification(at: Timestamp)

  function ChangeCompany(c: Company, ch: CompanyChange): (v: Company)
    ensures v.id == c.id && v.userId == c.userId
  {
    match ch
    case Details(n, r, d, w) =>
      c.(companyName := n.GetOr(c.companyName), registrationNumber := SetOpt(r, c.registrationNumber),
         description := SetOpt(d, c.description), websiteUrl := SetOpt(w, c.websiteUrl))
    case Verification(at) => c.(verifiedAt := Some(at))
  }

  datatype ManagerChange = ManagerChange(
    companyId: Option<int>,
    workSiteId: Option<int>,
    position: Option<string>,
    permissions: Option<seq<string>>)

  function ChangeManager(m: ManagerProfile, c: ManagerChange): (v: ManagerProfile)
    ensures v.id == m.id && v.userId == m.userId
  {
    m.(companyId := c.companyId.GetOr(m.companyId), workSiteId := SetOpt(c.workSiteId, m.workSiteId),
       position := SetOpt(c.position, m.position), permissions := SetOpt(c.permissions, m.permissions))
  }

  // ---------------------------------------------------------------------------------------
  // `update ... where` over a whole table

  /** The rows with the key take the change; every other row, and every row's key, stays. */
  function UsersWhereId(t: seq<User>, id: int, c: UserChange): (r: seq<User>)
    ensures |r| == |t|
    ensures forall i | 0 <= i < |t| :: r[i].id == t[i].id && r[i].email == t[i].email
    ensures forall i | 0 <= i < |t| && t[i].id != id :: r[i] == t[i]
    ensures forall i | 0 <= i < |t| && t[i].id == id :: r[i] == ChangeUser(t[i], c)
  {
    seq(|t|, i requires 0 <= i < |t| => if t[i].id == id then ChangeUser(t[i], c) else t[i])
  }

  function WorkersWhereUser(t: seq<WorkerProfile>, userId: int, c: WorkerChange): (r: seq<WorkerProfile>)
    ensures |r| == |t|
    ensures forall i | 0 <= i < |t| :: r[i].id == t[i].id && r[i].userId == t[i].userId
    ensures forall i | 0 <= i < |t| && t[i].userId != userId :: r[i] == t[i]
    ensures forall i | 0 <= i < |t| && t[i].userId == userId :: r[i] == ChangeWorker(t[i], c)
  {
    seq(|t|, i requires 0 <= i < |t| => if t[i].userId == userId then ChangeWorker(t[i], c) else t[i])
  }

  function CompaniesWhereId(t: seq<Company>, id: int, c: CompanyChange): (r: seq<Company>)
    ensures |r| == |t|
    ensures forall i | 0 <= i < |t| :: r[i].id == t[i].id && r[i].userId == t[i].userId
    ensures forall i | 0 <= i < |t| && t[i].id != id :: r[i] == t[i]
    ensures forall i | 0 <= i < |t| && t[i].id == id :: r[i] == ChangeCompany(t[i], c)
  {
    seq(|t|, i requires 0 <= i < |t| => if t[i].id == id then ChangeCompany(t[i], c) else t[i])
  }

  function ManagersWhereUser(t: seq<ManagerProfile>, userId: int, c: ManagerChange): (r: seq<ManagerProfile>)
    ensures |r| == |t|
    ensures forall i | 0 <= i < |t| :: r[i].id == t[i].id && r[i].userId == t[i].userId
    ensures forall i | 0 <= i < |t| && t[i].userId != userId :: r[i] == t[i]
    ensures forall i | 0 <= i < |t| && t[i].userId == userId :: r[i] == ChangeManager(t[i], c)
  {
    seq(|t|, i requires 0 <= i < |t| => if t[i].userId == userId then ChangeManager(t[i], c) else t[i])
  }

  /** The conversation update of a send: `lastMessage` (when defined) and `lastMessageAt`. */
  function ConversationsTouched(t: seq<Conversation>, id: int, lastMessage: Option<string>, at: Timestamp)
    : (r: seq<Conversation>)
    ensures |r| == |t|
    ensures forall i | 0 <= i < |t| ::
      r[i].(lastMessage := t[i].lastMessage, lastMessageAt := t[i].lastMessageAt) == t[i]
    ensures forall i | 0 <= i < |t| && t[i].id != id :: r[i] == t[i]
    ensures forall i | 0 <= i < |t| && t[i].id == id ::
      r[i].lastMessageAt == at && (lastMessage.Some? ==> r[i].lastMessage == lastMessage)
      && (lastMessage.None? ==> r[i].lastMessage == t[i].lastMessage)
  {
    seq(|t|, i requires 0 <= i < |t| =>
      if t[i].id == id then t[i].(lastMessage := SetOpt(lastMessage, t[i].lastMessage), lastMessageAt := at) else t[i])
  }

  /** Marking read writes `readAt` on the messages with the key and nothing else. */
  function MessagesRead(t: seq<Message>, id: int, at: Timestamp): (r: seq<Message>)
    ensures |r| == |t|
    ensures forall i | 0 <= i < |t| && t[i].id != id :: r[i] == t[i]
    ensures forall i | 0 <= i < |t| && t[i].id == id :: r[i].readAt == Some(at) && r[i].(readAt := t[i].readAt) == t[i]
  {
    seq(|t|, i requires 0 <= i < |t| => if t[i].id == id then t[i].(readAt := Some(at)) else t[i])
  }

  /** The rows of a table a statement selected by key, in table order (`.returning()`). */
  function MessagesWithId(t: seq<Message>, id: int): (r: seq<Message>)
    ensures forall m | m in r :: m in t && m.id == id
    ensures forall i | 0 <= i < |t| && t[i].id == id :: t[i] in r
  {
    if t == [] then [] else (if t[0].id == id then [t[0]] else []) + MessagesWithId(t[1..], id)
  }

  /** The first worker profile of a user (`findFirst where userId = ...`). */
  function FindWorkerOf(t: seq<WorkerProfile>, userId: int): (r: Option<WorkerProfile>)
    ensures r.Some? ==> r.value in t && r.value.userId == userId
    ensures r.None? <==> forall i | 0 <= i < |t| :: t[i].userId != userId
  {
    if t == [] then None else if t[0].userId == userId then Some(t[0]) else FindWorkerOf(t[1..], userId)
  }

  function FindManagerOf(t: seq<ManagerProfile>, userId: int): (r: Option<ManagerProfile>)
    ensures r.Some? ==> r.value in t && r.value.userId == userId
    ensures r.None? <==> forall i | 0 <= i < |t| :: t[i].userId != userId
  {
    if t == [] then None else if t[0].userId == userId then Some(t[0]) else FindManagerOf(t[1..], userId)
  }

  function FindCompany(t: seq<Company>, id: int): (r: Option<Company>)
    ensures r.Some? <==> id in CompanyIds(t)
    ensures r.Some? ==> r.value in t && r.value.id == id
  {
    if t == [] then None
    else if t[0].id == id then Some(t[0])
    else
      var r := FindCompany(t[1..], id);
      assert CompanyIds(t) == [t[0].id] + CompanyIds(t[1..]);
      r
  }

  /** The first conversation stored under an ordered pair of participants. */
  function FindConversation(t: seq<Conversation>, one: int, two: int): (r: Option<Conversation>)
    ensures r.Some? ==> r.value in t && r.value.participantOne == one && r.value.participantTwo == two
    ensures r.None? <==> forall i | 0 <= i < |t| :: !(t[i].participantOne == one && t[i].participantTwo == two)
  {
    if t == [] then None
    else if t[0].participantOne == one && t[0].participantTwo == two then Some(t[0])
    else FindConversation(t[1..], one, two)
  }

  // ---------------------------------------------------------------------------------------
  // Facts about the table updates

  /** An update by key changes the selected rows by `ChangeUser` and no other row. */
  lemma UsersWhereIdFrame(t: seq<User>, id: int, c: UserChange)
    ensures |UsersWhereId(t, id, c)| == |t|
    ensures UserIds(UsersWhereId(t, id, c)) == UserIds(t)
    ensures forall i | 0 <= i < |t| && t[i].id != id :: UsersWhereId(t, id, c)[i] == t[i]
  {
  }

  /** The row `.returning()` gives back after an update by key is the changed row. */
  lemma {:induction false} UpdatedUserFound(t: seq<User>, id: int, c: UserChange)
    ensures FindUser(UsersWhereId(t, id, c), id) ==
      (if FindUser(t, id).Some? then Some(ChangeUser(FindUser(t, id).value, c)) else None)
  {
    if t != [] {
      assert UsersWhereId(t, id, c)[1..] == UsersWhereId(t[1..], id, c);
      UpdatedUserFound(t[1..], id, c);
    }
  }

  lemma {:induction false} UpdatedCompanyFound(t: seq<Company>, id: int, c: CompanyChange)
    ensures FindCompany(CompaniesWhereId(t, id, c), id) ==
      (if FindCompany(t, id).Some? then Some(ChangeCompany(FindCompany(t, id).value, c)) else None)
  {
    if t != [] {
      assert CompaniesWhereId(t, id, c)[1..] == CompaniesWhereId(t[1..], id, c);
      UpdatedCompanyFound(t[1..], id, c);
    }
  }

  lemma {:induction false} UpdatedWorkerFound(t: seq<WorkerProfile>, userId: int, c: WorkerChange)
    ensures FindWorkerOf(WorkersWhereUser(t, userId, c), userId) ==
      (if FindWorkerOf(t, userId).Some? then Some(ChangeWorker(FindWorkerOf(t, userId).value, c)) else None)
  {
    if t != [] {
      assert WorkersWhereUser(t, userId, c)[1..] == WorkersWhereUser(t[1..], userId, c);
      UpdatedWorkerFound(t[1..], userId, c);
    }
  }

  lemma {:induction false} UpdatedManagerFound(t: seq<ManagerProfile>, userId: int, c: ManagerChange)
    ensures FindManagerOf(ManagersWhereUser(t, userId, c), userId) ==
      (if FindManagerOf(t, userId).Some? then Some(ChangeManager(FindManagerOf(t, userId).value, c)) else None)
  {
    if t != [] {
      assert ManagersWhereUser(t, userId, c)[1..] == ManagersWhereUser(t[1..], userId, c);
      UpdatedManagerFound(t[1..], userId, c);
    }
  }

  /** The foreign keys an updated manager row must satisfy, in constraint order. */
  function ManagerKeyError(m: ManagerProfile, userIds: seq<int>, companyIds: seq<int>, siteIds: seq<int>)
    : (e: Option<Failure>)
    ensures e.None? <==> ManagerRowOk(m, userIds, companyIds, siteIds)
  {
    if m.userId !in userIds then Some(ForeignKeyViolation("manager_profiles", "manager_profiles_user_id_users_id_fk"))
    else if m.companyId !in companyIds then
      Some(ForeignKeyViolation("manager_profiles", "manager_profiles_company_id_companies_id_fk"))
    else if m.workSiteId.Some? && m.workSiteId.value !in siteIds then
      Some(ForeignKeyViolation("manager_profiles", "manager_profiles_work_site_id_work_sites_id_fk"))
    else None
  }

  /** The first violation among the rows an update writes, if any. */
  function ManagersKeyError(t: seq<ManagerProfile>, userIds: seq<int>, companyIds: seq<int>, siteIds: seq<int>)
    : (e: Option<Failure>)
    ensures e.None? <==> forall i | 0 <= i < |t| :: ManagerRowOk(t[i], userIds, companyIds, siteIds)
  {
    if t == [] then None
    else if ManagerKeyError(t[0], userIds, companyIds, siteIds).Some? then ManagerKeyError(t[0], userIds, companyIds, siteIds)
    else
      var e := ManagersKeyError(t[1..], userIds, companyIds, siteIds);
      assert forall i | 1 <= i < |t| :: t[i] == t[1..][i - 1];
      e
  }

  // ---------------------------------------------------------------------------------------
  // The constraint each insert checks first, in PostgreSQL's order: NOT NULL, CHECK, UNIQUE,
  // then FOREIGN KEY.

  /** `insert into users`: email, password_hash and role are NOT NULL, and email is unique. */
  function UserInsertError(t: seq<User>, email: Option<string>, passwordHash: Option<string>, role: Option<string>)
    : (e: Option<Failure>)
    ensures e.None? <==> email.Some? && passwordHash.Some? && role.Some? && FindUserByEmail(t, email.value).None?
  {
    if email.None? then Some(NotNullViolation("users", "email"))
    else if passwordHash.None? then Some(NotNullViolation("users", "password_hash"))
    else if role.None? then Some(NotNullViolation("users", "role"))
    else if FindUserByEmail(t, email.value).Some? then Some(UniqueViolation("users_email_unique"))
    else None
  }

  /** `insert into conversations`: the `unique_participants` check, then the two user keys. */
  function ConversationInsertError(one: int, two: int, userIds: seq<int>): (e: Option<Failure>)
    ensures e.None? <==> one < two && one in userIds && two in userIds
  {
    if !(one < two) then Some(CheckViolation("conversations", "unique_participants"))
    else if one !in userIds then Some(ForeignKeyViolation("conversations", "conversations_sender_id_users_id_fk"))
    else if two !in userIds then Some(ForeignKeyViolation("conversations", "conversations_receiver_id_users_id_fk"))
    else None
  }

  /** `insert into messages`: content is NOT NULL, then the three keys. */
  function MessageInsertError(sender: int, receiver: int, conversationId: int, content: Option<string>,
                              userIds: seq<int>, conversationIds: seq<int>): (e: Option<Failure>)
    ensures e.None? <==> content.Some? && sender in userIds && receiver in userIds && conversationId in conversationIds
  {
    if content.None? then Some(NotNullViolation("messages", "content"))
    else if sender !in userIds then Some(ForeignKeyViolation("messages", "messages_sender_id_users_id_fk"))
    else if receiver !in userIds then Some(ForeignKeyViolation("messages", "messages_receiver_id_users_id_fk"))
    else if conversationId !in conversationIds then
      Some(ForeignKeyViolation("messages", "messages_conversation_id_conversations_id_fk"))
    else None
  }

  /** A failed insert still consumes its serial value. */
  lemma UsersOkRaise(t: seq<User>, next: int)
    requires UsersOk(t, next)
    ensures UsersOk(t, next + 1)
  {
  }

  /** A row with the next serial key and a new email keeps the users table valid. */
  lemma UsersOkAppend(t: seq<User>, next: int, u: User)
    requires UsersOk(t, next) && next >= 1 && u.id == next && FindUserByEmail(t, u.email).None?
    ensures UsersOk(t + [u], next + 1)
    ensures UserIds(t + [u]) == UserIds(t) + [u.id]
  {
    UserIdsAppend(t, u);
    SerialAppend(UserIds(t), next);
  }

  /** A new user leaves every row that references a user valid. */
  lemma UserReferencesKept(t: seq<User>, u: User, w: seq<WorkerProfile>, nw: int, c: seq<Company>, nc: int,
                           m: seq<ManagerProfile>, nm: int, companyIds: seq<int>, siteIds: seq<int>,
                           cv: seq<Conversation>, ncv: int, ms: seq<Message>, nms: int, conversationIds: seq<int>)
    requires WorkersOk(w, nw, UserIds(t)) && CompaniesOk(c, nc, UserIds(t))
    requires ManagersOk(m, nm, UserIds(t), companyIds, siteIds)
    requires ConversationsOk(cv, ncv, UserIds(t)) && MessagesOk(ms, nms, UserIds(t), conversationIds)
    ensures WorkersOk(w, nw, UserIds(t) + [u.id]) && CompaniesOk(c, nc, UserIds(t) + [u.id])
    ensures ManagersOk(m, nm, UserIds(t) + [u.id], companyIds, siteIds)
    ensures ConversationsOk(cv, ncv, UserIds(t) + [u.id]) && MessagesOk(ms, nms, UserIds(t) + [u.id], conversationIds)
  {
  }

  /** The database, with the values its serial sequences hand out next. */
  class Db {
    var users: seq<User>
    var workers: seq<WorkerProfile>
    var companies: seq<Company>
    var sites: seq<WorkSite>
    var managers: seq<ManagerProfile>
    var conversations: seq<Conversation>
    var messages: seq<Message>
    var nextUserId: int
    var nextWorkerId: int
    var nextCompanyId: int
    var nextManagerId: int
    var nextConversationId: int
    var nextMessageId: int

    /** The constraints the database itself enforces: keys, foreign keys, checks, `unique`. */
    ghost predicate Valid()
      reads this
    {
      && nextUserId >= 1 && nextWorkerId >= 1 && nextCompanyId >= 1
      && nextManagerId >= 1 && nextConversationId >= 1 && nextMessageId >= 1
      && UsersOk(users, nextUserId)
      && WorkersOk(workers, nextWorkerId, UserIds(users))
      && CompaniesOk(companies, nextCompanyId, UserIds(users))
      && SitesOk(sites, CompanyIds(companies))
      && ManagersOk(managers, nextManagerId, UserIds(users), CompanyIds(companies), SiteIds(sites))
      && ConversationsOk(conversations, nextConversationId, UserIds(users))
      && MessagesOk(messages, nextMessageId, UserIds(users), ConversationIds(conversations))
    }

    /** An empty database. */
    constructor ()
      ensures Valid()
      ensures users == [] && workers == [] && companies == [] && sites == []
      ensures managers == [] && conversations == [] && messages == []
    {
      users, workers, companies, sites, managers, conversations, messages := [], [], [], [], [], [], [];
      nextUserId, nextWorkerId, nextCompanyId, nextManagerId := 1, 1, 1, 1;
      nextConversationId, nextMessageId := 1, 1;
    }

    /** `insert into users (...) values (...) returning *`. */
    method InsertUser(role: Option<string>, email: Option<string>, passwordHash: Option<string>,
                      firstName: Option<string>, lastName: Option<string>, phone: Option<string>, now: Timestamp)
      returns (r: Written<User>)
      requires Valid()
      modifies this`users, this`nextUserId
      ensures Valid()
      ensures nextUserId == old(nextUserId) + 1
      ensures r.Violated? <==> UserInsertError(old(users), email, passwordHash, role).Some?
      ensures r.Violated? ==> (r.error == UserInsertError(old(users), email, passwordHash, role).value
                               && users == old(users))
      ensures r.Written? ==>
        (r.row == NewUser(old(nextUserId), email.value, passwordHash.value, role.value, firstName, lastName, phone, now)
         && users == old(users) + [r.row])
    {
      var e := UserInsertError(users, email, passwordHash, role);
      if e.Some? {
        SkipUserKey();
        r := Violated(e.value);
      } else {
        var u := NewUser(nextUserId, email.value, passwordHash.value, role.value, firstName, lastName, phone, now);
        AppendUser(u);
        r := Written(u);
      }
    }

    /** The sequence value a failed insert into users consumes. */
    method SkipUserKey()
      requires Valid()
      modifies this`nextUserId
      ensures Valid() && nextUserId == old(nextUserId) + 1
    {
      UsersOkRaise(users, nextUserId);
      nextUserId := nextUserId + 1;
    }

    /** Storing a user row that carries the next key and a new email. */
    method AppendUser(u: User)
      requires Valid() && u.id == nextUserId && FindUserByEmail(users, u.email).None?
      modifies this`users, this`nextUserId
      ensures Valid() && users == old(users) + [u] && nextUserId == old(nextUserId) + 1
    {
      UsersOkAppend(users, nextUserId, u);
      UserReferencesKept(users, u, workers, nextWorkerId, companies, nextCompanyId, managers, nextManagerId,
                         CompanyIds(companies), SiteIds(sites), conversations, nextConversationId,
                         messages, nextMessageId, ConversationIds(conversations));
      users := users + [u];
      nextUserId := nextUserId + 1;
    }

    /** `update users set ... where id = $id returning *`: the first updated row, if any. */
    method UpdateUsers(id: int, c: UserChange) returns (updated: Option<User>)
      requires Valid()
      modifies this`users
      ensures Valid()
      ensures users == UsersWhereId(old(users), id, c)
      ensures updated == (if FindUser(old(users), id).Some? then Some(ChangeUser(FindUser(old(users), id).value, c)) else None)
    {
      UsersWhereIdFrame(users, id, c);
      UpdatedUserFound(users, id, c);
      users := UsersWhereId(users, id, c);
      updated := FindUser(users, id);
    }

    /** `insert into worker_profiles (...) values (...) returning *`; only `userId` is required. */
    method InsertWorker(userId: int, skills: Option<seq<string>>, experience: Option<int>, availability: Option<string>,
                        preferredLocation: Option<string>, ratePerHour: Option<real>, bio: Option<string>,
                        certifications: Option<seq<string>>, isPublic: Option<bool>)
      returns (r: Written<WorkerProfile>)
      requires Valid()
      modifies this`workers, this`nextWorkerId
      ensures Valid()
      ensures nextWorkerId == old(nextWorkerId) + 1
      ensures r.Violated? <==> userId !in UserIds(users)
      ensures r.Violated? ==> (workers == old(workers)
        && r.error == ForeignKeyViolation("worker_profiles", "worker_profiles_user_id_users_id_fk"))
      ensures r.Written? ==>
        (r.row == WorkerProfile(old(nextWorkerId), userId, skills, experience, availability, preferredLocation,
                                ratePerHour, bio, certifications, isPublic.GetOr(true))
         && workers == old(workers) + [r.row])
    {
      var id := nextWorkerId;
      nextWorkerId := nextWorkerId + 1;
      if userId !in UserIds(users) {
        r := Violated(ForeignKeyViolation("worker_profiles", "worker_profiles_user_id_users_id_fk"));
      } else {
        var w := WorkerProfile(id, userId, skills, experience, availability, preferredLocation,
                               ratePerHour, bio, certifications, isPublic.GetOr(true));
        WorkerIdsAppend(workers, w);
        workers := workers + [w];
        r := Written(w);
      }
    }

    /** `update worker_profiles set ... where user_id = $userId returning *`: the first updated row. */
    method UpdateWorkers(userId: int, c: WorkerChange) returns (updated: Option<WorkerProfile>)
      requires Valid()
      modifies this`workers
      ensures Valid()
      ensures workers == WorkersWhereUser(old(workers), userId, c)
      ensures updated == (if FindWorkerOf(old(workers), userId).Some?
                          then Some(ChangeWorker(FindWorkerOf(old(workers), userId).value, c)) else None)
    {
      UpdatedWorkerFound(workers, userId, c);
      var t := WorkersWhereUser(workers, userId, c);
      assert WorkerIds(t) == WorkerIds(workers);
      workers := t;
      updated := FindWorkerOf(workers, userId);
    }

    /** `insert into companies (...) values (...) returning *`. */
    method InsertCompany(userId: int, companyName: string, registrationNumber: Option<string>,
                         description: Option<string>, websiteUrl: Option<string>)
      returns (r: Written<Company>)
      requires Valid()
      modifies this`companies, this`nextCompanyId
      ensures Valid()
      ensures nextCompanyId == old(nextCompanyId) + 1
      ensures r.Violated? <==> userId !in UserIds(users)
      ensures r.Violated? ==> (companies == old(companies)
        && r.error == ForeignKeyViolation("companies", "companies_user_id_users_id_fk"))
      ensures r.Written? ==>
        (r.row == Company(old(nextCompanyId), userId, companyName, registrationNumber, description, websiteUrl, None)
         && companies == old(companies) + [r.row])
    {
      var id := nextCompanyId;
      nextCompanyId := nextCompanyId + 1;
      if userId !in UserIds(users) {
        r := Violated(ForeignKeyViolation("companies", "companies_user_id_users_id_fk"));
      } else {
        var c := Company(id, userId, companyName, registrationNumber, description, websiteUrl, None);
        CompanyIdsAppend(companies, c);
        companies := companies + [c];
        r := Written(c);
      }
    }

    /** `update companies set ... where id = $id returning *`: the first updated row, if any. */
    method UpdateCompanies(id: int, c: CompanyChange) returns (updated: Option<Company>)
      requires Valid()
      modifies this`companies
      ensures Valid()
      ensures companies == CompaniesWhereId(old(companies), id, c)
      ensures updated == (if FindCompany(old(companies), id).Some?
                          then Some(ChangeCompany(FindCompany(old(companies), id).value, c)) else None)
    {
      UpdatedCompanyFound(companies, id, c);
      var t := CompaniesWhereId(companies, id, c);
      assert CompanyIds(t) == CompanyIds(companies);
      companies := t;
      updated := FindCompany(companies, id);
    }

    /** `insert into manager_profiles (...) values (...) returning *`. */
    method InsertManager(userId: int, companyId: int, workSiteId: Option<int>, position: Option<string>,
                         permissions: Option<seq<string>>)
      returns (r: Written<ManagerProfile>)
      requires Valid()
      modifies this`managers, this`nextManagerId
      ensures Valid()
      ensures nextManagerId == old(nextManagerId) + 1
      ensures var m := ManagerProfile(old(nextManagerId), userId, companyId, workSiteId, position, permissions);
        var e := ManagerKeyError(m, UserIds(users), CompanyIds(companies), SiteIds(sites));
        && (r.Violated? <==> e.Some?)
        && (r.Violated? ==> r.error == e.value && managers == old(managers))
        && (r.Written? ==> r.row == m && managers == old(managers) + [m])
    {
      var m := ManagerProfile(nextManagerId, userId, companyId, workSiteId, position, permissions);
      nextManagerId := nextManagerId + 1;
      var e := ManagerKeyError(m, UserIds(users), CompanyIds(companies), SiteIds(sites));
      if e.Some? {
        r := Violated(e.value);
      } else {
        ManagerIdsAppend(managers, m);
        managers := managers + [m];
        r := Written(m);
      }
    }

    /**
     * `update manager_profiles set ... where user_id = $userId returning *`. The statement is
     * atomic: when some changed row breaks a foreign key, no row changes.
     */
    method UpdateManagers(userId: int, c: ManagerChange) returns (r: Written<Option<ManagerProfile>>)
      requires Valid()
      modifies this`managers
      ensures Valid()
      ensures var t := ManagersWhereUser(old(managers), userId, c);
        var e := ManagersKeyError(t, UserIds(users), CompanyIds(companies), SiteIds(sites));
        && (r.Violated? <==> e.Some?)
        && (r.Violated? ==> r.error == e.value && managers == old(managers))
        && (r.Written? ==> managers == t)
      ensures r.Written? ==> r.row == (if FindManagerOf(old(managers), userId).Some?
                                       then Some(ChangeManager(FindManagerOf(old(managers), userId).value, c)) else None)
    {
      UpdatedManagerFound(managers, userId, c);
      var t := ManagersWhereUser(managers, userId, c);
      var e := ManagersKeyError(t, UserIds(users), CompanyIds(companies), SiteIds(sites));
      if e.Some? {
        r := Violated(e.value);
      } else {
        assert ManagerIds(t) == ManagerIds(managers);
        managers := t;
        r := Written(FindManagerOf(managers, userId));
      }
    }

    /** `insert into conversations (...) values (...) returning *`. */
    method InsertConversation(one: int, two: int, lastMessage: Option<string>, now: Timestamp)
      returns (r: Written<Conversation>)
      requires Valid()
      modifies this`conversations, this`nextConversationId
      ensures Valid()
      ensures nextConversationId == old(nextConversationId) + 1
      ensures r.Violated? <==> ConversationInsertError(one, two, UserIds(users)).Some?
      ensures r.Violated? ==> (r.error == ConversationInsertError(one, two, UserIds(users)).value
                               && conversations == old(conversations))
      ensures r.Written? ==> (r.row == NewConversation(old(nextConversationId), one, two, lastMessage, now)
                              && conversations == old(conversations) + [r.row])
    {
      var id := nextConversationId;
      nextConversationId := nextConversationId + 1;
      var e := ConversationInsertError(one, two, UserIds(users));
      if e.Some? {
        r := Violated(e.value);
      } else {
        var c := NewConversation(id, one, two, lastMessage, now);
        ConversationIdsAppend(conversations, c);
        conversations := conversations + [c];
        r := Written(c);
      }
    }

    /** `update conversations set lastMessage, lastMessageAt where id = $id`. */
    method TouchConversation(id: int, lastMessage: Option<string>, now: Timestamp)
      requires Valid()
      modifies this`conversations
      ensures Valid()
      ensures conversations == ConversationsTouched(old(conversations), id, lastMessage, now)
    {
      var t := ConversationsTouched(conversations, id, lastMessage, now);
      assert ConversationIds(t) == ConversationIds(conversations);
      conversations := t;
    }

    /** `insert into messages (...) values (...) returning *`; `readAt` starts unset. */
    method InsertMessage(sender: int, receiver: int, conversationId: int, content: Option<string>, now: Timestamp)
      returns (r: Written<Message>)
      requires Valid()
      modifies this`messages, this`nextMessageId
      ensures Valid()
      ensures nextMessageId == old(nextMessageId) + 1
      ensures var e := MessageInsertError(sender, receiver, conversationId, content, UserIds(users),
                                          ConversationIds(conversations));
        && (r.Violated? <==> e.Some?)
        && (r.Violated? ==> r.error == e.value && messages == old(messages))
      ensures r.Written? ==>
        (r.row == Message(old(nextMessageId), sender, receiver, conversationId, content.value, now, None)
         && messages == old(messages) + [r.row])
    {
      var id := nextMessageId;
      nextMessageId := nextMessageId + 1;
      var e := MessageInsertError(sender, receiver, conversationId, content, UserIds(users), ConversationIds(conversations));
      if e.Some? {
        r := Violated(e.value);
      } else {
        var m := Message(id, sender, receiver, conversationId, content.value, now, None);
        MessageIdsAppend(messages, m);
        messages := messages + [m];
        r := Written(m);
      }
    }

    /** `update messages set readAt = now where id = $id returning *`. */
    method MarkMessageRead(id: int, now: Timestamp) returns (updated: seq<Message>)
      requires Valid()
      modifies this`messages
      ensures Valid()
      ensures messages == MessagesRead(old(messages), id, now)
      ensures updated == MessagesWithId(messages, id)
    {
      var t := MessagesRead(messages, id, now);
      assert MessageIds(t) == MessageIds(messages);
      messages := t;
      updated := MessagesWithId(messages, id);
    }
  }
}
