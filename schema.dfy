/**
 * The relational schema (src/server/db/schema.ts): one datatype per table row, the
 * `rating_check` and `unique_participants` check constraints, the
 * `validate_review_participants` trigger, `SafeUser`, and the constraints of each table.
 * Each table is the sequence of its rows in insertion order; a serial primary key is drawn
 * from a per-table counter.
 * Only the columns some modelled handler reads or writes are kept.
 */
module Schema {
  import opened Common
  import opened Http

  /** An instant, as produced by `new Date()` or `defaultNow()`; opaque to the model. */
  type Timestamp = int

  datatype User = User(
    id: int,
    email: string,
    passwordHash: string,
    role: string,
    firstName: Option<string>,
    lastName: Option<string>,
    phone: Option<string>,
    createdAt: Timestamp,
    updatedAt: Timestamp,
    lastLogin: Option<Timestamp>,
    isActive: bool,
    avatarUrl: Option<string>)

  /** `SafeUser = Omit<User, "passwordHash">`. */
  datatype SafeUser = SafeUser(
    id: int,
    email: string,
    role: string,
    firstName: Option<string>,
    lastName: Option<string>,
    phone: Option<string>,
    createdAt: Timestamp,
    updatedAt: Timestamp,
    lastLogin: Option<Timestamp>,
    isActive: bool,
    avatarUrl: Option<string>)

  /** The projection every user-returning read applies: drop `passwordHash`, keep the rest. */
  function ToSafe(u: User): (s: SafeUser)
    ensures s.id == u.id && s.email == u.email && s.role == u.role
  {
    SafeUser(u.id, u.email, u.role, u.firstName, u.lastName, u.phone,
             u.createdAt, u.updatedAt, u.lastLogin, u.isActive, u.avatarUrl)
  }

  /** `SafeUser` removes exactly `passwordHash`: two users agree on it iff they differ at most there. */
  lemma SafeUserDropsOnlyHash(u: User, v: User)
    ensures ToSafe(u) == ToSafe(v) <==> u.(passwordHash := v.passwordHash) == v
  {
  }

  datatype WorkerProfile = WorkerProfile(
    id: int,
    userId: int,
    skills: Option<seq<string>>,
    experience: Option<int>,
    availability: Option<string>,
    preferredLocation: Option<string>,
    ratePerHour: Option<real>,
    bio: Option<string>,
    certifications: Option<seq<string>>,
    isPublic: bool)

  datatype Company = Company(
    id: int,
    userId: int,
    companyName: string,
    registrationNumber: Option<string>,
    description: Option<string>,
    websiteUrl: Option<string>,
    verifiedAt: Option<Timestamp>)

  /** A work site; only the key columns are kept. */
  datatype WorkSite = WorkSite(id: int, companyId: int)

  datatype ManagerProfile = ManagerProfile(
    id: int,
    userId: int,
    companyId: int,
    workSiteId: Option<int>,
    position: Option<string>,
    permissions: Option<seq<string>>)

  /** A contract; only the key columns are kept. */
  datatype Contract = Contract(id: int, workerId: int, managerId: int)

  datatype Review = Review(
    id: int,
    contractId: int,
    reviewerId: int,
    revieweeId: int,
    reviewType: string,
    rating: int)

  datatype Message = Message(
    id: int,
    senderId: int,
    receiverId: int,
    conversationId: int,
    content: string,
    createdAt: Timestamp,
    readAt: Option<Timestamp>)

  datatype Conversation = Conversation(
    id: int,
    participantOne: int,
    participantTwo: int,
    lastMessageAt: Timestamp,
    lastMessage: Option<string>,
    isActive: bool,
    createdAt: Timestamp,
    updatedAt: Timestamp)

  // ---------------------------------------------------------------------------------------
  // Column defaults

  /** A new user row: `isActive` defaults to false, both timestamps to now. */
  function NewUser(id: int, email: string, passwordHash: string, role: string,
                   firstName: Option<string>, lastName: Option<string>, phone: Option<string>,
                   now: Timestamp): (u: User)
    ensures !u.isActive && u.lastLogin.None? && u.avatarUrl.None?
    ensures u.createdAt == now && u.updatedAt == now
  {
    User(id, email, passwordHash, role, firstName, lastName, phone, now, now, None, false, None)
  }

  /** A new conversation row: `isActive` defaults to true. */
  function NewConversation(id: int, one: int, two: int, lastMessage: Option<string>, now: Timestamp): (c: Conversation)
    ensures c.isActive && c.participantOne == one && c.participantTwo == two
  {
    Conversation(id, one, two, now, lastMessage, true, now, now)
  }

  // ---------------------------------------------------------------------------------------
  // The errors PostgreSQL raises for a violated constraint

  function NotNullViolation(table: string, column: string): Failure {
    DbError("null value in column \"" + column + "\" of relation \"" + table + "\" violates not-null constraint")
  }

  function CheckViolation(table: string, constraint: string): Failure {
    DbError("new row for relation \"" + table + "\" violates check constraint \"" + constraint + "\"")
  }

  function UniqueViolation(constraint: string): Failure {
    DbError("duplicate key value violates unique constraint \"" + constraint + "\"")
  }

  function ForeignKeyViolation(table: string, constraint: string): Failure {
    DbError("insert or update on table \"" + table + "\" violates foreign key constraint \"" + constraint + "\"")
  }

  // ---------------------------------------------------------------------------------------
  // Check constraints and the review trigger

  /** `rating_check`: `rating >= 1 AND rating <= 5`. */
  predicate RatingCheck(r: Review) {
    1 <= r.rating <= 5
  }

  /** `unique_participants`: `participant_one < participant_two`. */
  predicate UniqueParticipants(c: Conversation) {
    c.participantOne < c.participantTwo
  }

  const WorkerToManager: string := "worker_to_manager"
  const ManagerToWorker: string := "manager_to_worker"

  /**
   * The `EXISTS` of the trigger: a contract with the review's id whose worker profile belongs
   * to `workerUser` and whose manager profile belongs to `managerUser`.
   */
  predicate ContractJoins(contractId: int, workerUser: int, managerUser: int,
                          contracts: seq<Contract>, workers: seq<WorkerProfile>, managers: seq<ManagerProfile>) {
    exists i, j, k | 0 <= i < |contracts| && 0 <= j < |workers| && 0 <= k < |managers| ::
      contracts[i].id == contractId
      && contracts[i].workerId == workers[j].id && contracts[i].managerId == managers[k].id
      && workers[j].userId == workerUser && managers[k].userId == managerUser
  }

  /** `validate_review_participants`: the exception it raises for a row, if any. */
  function ReviewTrigger(r: Review, contracts: seq<Contract>, workers: seq<WorkerProfile>,
                         managers: seq<ManagerProfile>): (e: Option<Failure>)
    ensures e.None? <==>
      (r.reviewType == WorkerToManager ==> ContractJoins(r.contractId, r.reviewerId, r.revieweeId, contracts, workers, managers))
      && (r.reviewType == ManagerToWorker ==> ContractJoins(r.contractId, r.revieweeId, r.reviewerId, contracts, workers, managers))
    ensures e.Some? ==> e.value.name == "DatabaseError" && |e.value.message| > 0
  {
    if r.reviewType == WorkerToManager then
      if ContractJoins(r.contractId, r.reviewerId, r.revieweeId, contracts, workers, managers) then None
      else Some(DbError("Invalid reviewer/reviewee for worker_to_manager review"))
    else if r.reviewType == ManagerToWorker then
      if ContractJoins(r.contractId, r.revieweeId, r.reviewerId, contracts, workers, managers) then None
      else Some(DbError("Invalid reviewer/reviewee for manager_to_worker review"))
    else None
  }

  /**
   * Writing a review row (insert or update): the BEFORE trigger runs first, then the check
   * constraint. The result is the error raised, or None when the row is stored.
   */
  function ReviewWrite(r: Review, contracts: seq<Contract>, workers: seq<WorkerProfile>,
                       managers: seq<ManagerProfile>): (e: Option<Failure>)
    ensures e.None? ==> RatingCheck(r)
    ensures e.None? && r.reviewType == WorkerToManager ==>
      ContractJoins(r.contractId, r.reviewerId, r.revieweeId, contracts, workers, managers)
    ensures e.None? && r.reviewType == ManagerToWorker ==>
      ContractJoins(r.contractId, r.revieweeId, r.reviewerId, contracts, workers, managers)
    ensures r.reviewType != WorkerToManager && r.reviewType != ManagerToWorker ==> (e.None? <==> RatingCheck(r))
    ensures e.None? <==>
      RatingCheck(r)
      && (r.reviewType == WorkerToManager ==> ContractJoins(r.contractId, r.reviewerId, r.revieweeId, contracts, workers, managers))
      && (r.reviewType == ManagerToWorker ==> ContractJoins(r.contractId, r.revieweeId, r.reviewerId, contracts, workers, managers))
    ensures ReviewTrigger(r, contracts, workers, managers).Some? ==> e == ReviewTrigger(r, contracts, workers, managers)
    ensures ReviewTrigger(r, contracts, workers, managers).None? && !RatingCheck(r) ==>
      e == Some(CheckViolation("reviews", "rating_check"))
  {
    var t := ReviewTrigger(r, contracts, workers, managers);
    if t.Some? then t
    else if !RatingCheck(r) then Some(CheckViolation("reviews", "rating_check"))
    else None
  }

  /** The first contract with a given id, and the profile rows with given ids. */
  function FindContract(cs: seq<Contract>, id: int): (r: Option<Contract>)
    ensures r.Some? ==> r.value in cs && r.value.id == id
    ensures r.None? ==> forall i | 0 <= i < |cs| :: cs[i].id != id
  {
    if cs == [] then None else if cs[0].id == id then Some(cs[0]) else FindContract(cs[1..], id)
  }

  function FindWorkerById(ws: seq<WorkerProfile>, id: int): (r: Option<WorkerProfile>)
    ensures r.Some? ==> r.value in ws && r.value.id == id
    ensures r.None? ==> forall i | 0 <= i < |ws| :: ws[i].id != id
  {
    if ws == [] then None else if ws[0].id == id then Some(ws[0]) else FindWorkerById(ws[1..], id)
  }

  function FindManagerById(ms: seq<ManagerProfile>, id: int): (r: Option<ManagerProfile>)
    ensures r.Some? ==> r.value in ms && r.value.id == id
    ensures r.None? ==> forall i | 0 <= i < |ms| :: ms[i].id != id
  {
    if ms == [] then None else if ms[0].id == id then Some(ms[0]) else FindManagerById(ms[1..], id)
  }

  predicate ContractIdsUnique(cs: seq<Contract>) {
    forall i, j | 0 <= i < j < |cs| :: cs[i].id != cs[j].id
  }

  predicate WorkerIdsUnique(ws: seq<WorkerProfile>) {
    forall i, j | 0 <= i < j < |ws| :: ws[i].id != ws[j].id
  }

  predicate ManagerIdsUnique(ms: seq<ManagerProfile>) {
    forall i, j | 0 <= i < j < |ms| :: ms[i].id != ms[j].id
  }

  /**
   * With primary keys unique, the trigger's join is a lookup: a worker-to-manager review is
   * accepted iff its contract exists, the contract's worker profile belongs to the reviewer
   * and its manager profile belongs to the reviewee.
   */
  lemma {:induction false} JoinIsLookup(contractId: int, workerUser: int, managerUser: int,
                                        cs: seq<Contract>, ws: seq<WorkerProfile>, ms: seq<ManagerProfile>)
    requires ContractIdsUnique(cs) && WorkerIdsUnique(ws) && ManagerIdsUnique(ms)
    ensures ContractJoins(contractId, workerUser, managerUser, cs, ws, ms) <==>
      (FindContract(cs, contractId).Some?
       && var c := FindContract(cs, contractId).value;
       FindWorkerById(ws, c.workerId).Some? && FindWorkerById(ws, c.workerId).value.userId == workerUser
       && FindManagerById(ms, c.managerId).Some? && FindManagerById(ms, c.managerId).value.userId == managerUser)
  {
    if ContractJoins(contractId, workerUser, managerUser, cs, ws, ms) {
      JoinFindsRows(contractId, workerUser, managerUser, cs, ws, ms);
    }
    if FindContract(cs, contractId).Some? {
      var c := FindContract(cs, contractId).value;
      var fw := FindWorkerById(ws, c.workerId);
      var fm := FindManagerById(ms, c.managerId);
      if fw.Some? && fw.value.userId == workerUser && fm.Some? && fm.value.userId == managerUser {
        var i :| 0 <= i < |cs| && cs[i] == c;
        var j :| 0 <= j < |ws| && ws[j] == fw.value;
        var k :| 0 <= k < |ms| && ms[k] == fm.value;
        assert cs[i].workerId == ws[j].id && cs[i].managerId == ms[k].id;
      }
    }
  }

  /** The rows a join matches are the rows the lookups find, keys being unique. */
  lemma JoinFindsRows(contractId: int, workerUser: int, managerUser: int,
                      cs: seq<Contract>, ws: seq<WorkerProfile>, ms: seq<ManagerProfile>)
    requires ContractIdsUnique(cs) && WorkerIdsUnique(ws) && ManagerIdsUnique(ms)
    requires ContractJoins(contractId, workerUser, managerUser, cs, ws, ms)
    ensures FindContract(cs, contractId).Some?
    ensures var c := FindContract(cs, contractId).value;
      && FindWorkerById(ws, c.workerId).Some? && FindWorkerById(ws, c.workerId).value.userId == workerUser
      && FindManagerById(ms, c.managerId).Some? && FindManagerById(ms, c.managerId).value.userId == managerUser
  {
    var i, j, k :| 0 <= i < |cs| && 0 <= j < |ws| && 0 <= k < |ms|
      && cs[i].id == contractId
      && cs[i].workerId == ws[j].id && cs[i].managerId == ms[k].id
      && ws[j].userId == workerUser && ms[k].userId == managerUser;
    var c := FindContract(cs, contractId).value;
    assert c == cs[i];
    assert FindWorkerById(ws, c.workerId).value == ws[j];
    assert FindManagerById(ms, c.managerId).value == ms[k];
  }

  /** The two review directions ask for mirrored participants on the same contract. */
  lemma ReviewDirectionsMirror(r: Review, cs: seq<Contract>, ws: seq<WorkerProfile>, ms: seq<ManagerProfile>)
    requires r.reviewType == WorkerToManager
    ensures ReviewTrigger(r, cs, ws, ms).None? <==>
      ReviewTrigger(r.(reviewType := ManagerToWorker, reviewerId := r.revieweeId, revieweeId := r.reviewerId),
                    cs, ws, ms).None?
  {
  }

  // ---------------------------------------------------------------------------------------
  // Keys and lookups

  function UserIds(t: seq<User>): (r: seq<int>)
    ensures |r| == |t| && forall i | 0 <= i < |t| :: r[i] == t[i].id
  {
    seq(|t|, i requires 0 <= i < |t| => t[i].id)
  }

  function WorkerIds(t: seq<WorkerProfile>): (r: seq<int>)
    ensures |r| == |t| && forall i | 0 <= i < |t| :: r[i] == t[i].id
  {
    seq(|t|, i requires 0 <= i < |t| => t[i].id)
  }

  function CompanyIds(t: seq<Company>): (r: seq<int>)
    ensures |r| == |t| && forall i | 0 <= i < |t| :: r[i] == t[i].id
  {
    seq(|t|, i requires 0 <= i < |t| => t[i].id)
  }

  function SiteIds(t: seq<WorkSite>): (r: seq<int>)
    ensures |r| == |t| && forall i | 0 <= i < |t| :: r[i] == t[i].id
  {
    seq(|t|, i requires 0 <= i < |t| => t[i].id)
  }

  function ManagerIds(t: seq<ManagerProfile>): (r: seq<int>)
    ensures |r| == |t| && forall i | 0 <= i < |t| :: r[i] == t[i].id
  {
    seq(|t|, i requires 0 <= i < |t| => t[i].id)
  }

  function ConversationIds(t: seq<Conversation>): (r: seq<int>)
    ensures |r| == |t| && forall i | 0 <= i < |t| :: r[i] == t[i].id
  {
    seq(|t|, i requires 0 <= i < |t| => t[i].id)
  }

  function MessageIds(t: seq<Message>): (r: seq<int>)
    ensures |r| == |t| && forall i | 0 <= i < |t| :: r[i] == t[i].id
  {
    seq(|t|, i requires 0 <= i < |t| => t[i].id)
  }

  /** Serial keys: positive, strictly increasing in insertion order, below the next value. */
  predicate SerialKeys(ids: seq<int>, next: int) {
    && (forall i | 0 <= i < |ids| :: 1 <= ids[i] < next)
    && (forall i, j | 0 <= i < j < |ids| :: ids[i] < ids[j])
  }

  lemma SerialAppend(ids: seq<int>, next: int)
    requires SerialKeys(ids, next) && next >= 1
    ensures SerialKeys(ids + [next], next + 1)
  {
  }

  /** The first user with a given id (`findFirst where id = ...`). */
  function FindUser(t: seq<User>, id: int): (r: Option<User>)
    ensures r.Some? <==> id in UserIds(t)
    ensures r.Some? ==> r.value in t && r.value.id == id
  {
    if t == [] then None
    else if t[0].id == id then Some(t[0])
    else
      var r := FindUser(t[1..], id);
      assert UserIds(t) == [t[0].id] + UserIds(t[1..]);
      r
  }

  /** The first user with a given email (`findFirst where email = ...`). */
  function FindUserByEmail(t: seq<User>, email: string): (r: Option<User>)
    ensures r.Some? ==> r.value in t && r.value.email == email
    ensures r.None? ==> forall i | 0 <= i < |t| :: t[i].email != email
  {
    if t == [] then None
    else if t[0].email == email then Some(t[0])
    else FindUserByEmail(t[1..], email)
  }

  predicate EmailsUnique(t: seq<User>) {
    forall i, j | 0 <= i < j < |t| :: t[i].email != t[j].email
  }

  // ---------------------------------------------------------------------------------------
  // Table constraints

  predicate UsersOk(t: seq<User>, next: int) {
    SerialKeys(UserIds(t), next) && EmailsUnique(t)
  }

  predicate WorkersOk(t: seq<WorkerProfile>, next: int, userIds: seq<int>) {
    SerialKeys(WorkerIds(t), next) && forall i | 0 <= i < |t| :: t[i].userId in userIds
  }

  predicate CompaniesOk(t: seq<Company>, next: int, userIds: seq<int>) {
    SerialKeys(CompanyIds(t), next) && forall i | 0 <= i < |t| :: t[i].userId in userIds
  }

  predicate SitesOk(t: seq<WorkSite>, companyIds: seq<int>) {
    forall i | 0 <= i < |t| :: t[i].companyId in companyIds
  }

  predicate ManagerRowOk(m: ManagerProfile, userIds: seq<int>, companyIds: seq<int>, siteIds: seq<int>) {
    m.userId in userIds && m.companyId in companyIds && (m.workSiteId.Some? ==> m.workSiteId.value in siteIds)
  }

  predicate ManagersOk(t: seq<ManagerProfile>, next: int, userIds: seq<int>, companyIds: seq<int>, siteIds: seq<int>) {
    SerialKeys(ManagerIds(t), next) && forall i | 0 <= i < |t| :: ManagerRowOk(t[i], userIds, companyIds, siteIds)
  }

  predicate ConversationsOk(t: seq<Conversation>, next: int, userIds: seq<int>) {
    && SerialKeys(ConversationIds(t), next)
    && forall i | 0 <= i < |t| ::
         UniqueParticipants(t[i]) && t[i].participantOne in userIds && t[i].participantTwo in userIds
  }

  predicate MessagesOk(t: seq<Message>, next: int, userIds: seq<int>, conversationIds: seq<int>) {
    && SerialKeys(MessageIds(t), next)
    && forall i | 0 <= i < |t| ::
         t[i].senderId in userIds && t[i].receiverId in userIds && t[i].conversationId in conversationIds
  }

  /** Appending a row appends its key to the table's keys. */
  lemma UserIdsAppend(t: seq<User>, u: User)
    ensures UserIds(t + [u]) == UserIds(t) + [u.id]
  {
  }

  lemma WorkerIdsAppend(t: seq<WorkerProfile>, w: WorkerProfile)
    ensures WorkerIds(t + [w]) == WorkerIds(t) + [w.id]
  {
  }

  lemma CompanyIdsAppend(t: seq<Company>, c: Company)
    ensures CompanyIds(t + [c]) == CompanyIds(t) + [c.id]
  {
  }

  lemma ManagerIdsAppend(t: seq<ManagerProfile>, m: ManagerProfile)
    ensures ManagerIds(t + [m]) == ManagerIds(t) + [m.id]
  {
  }

  lemma ConversationIdsAppend(t: seq<Conversation>, c: Conversation)
    ensures ConversationIds(t + [c]) == ConversationIds(t) + [c.id]
  {
  }

  lemma MessageIdsAppend(t: seq<Message>, m: Message)
    ensures MessageIds(t + [m]) == MessageIds(t) + [m.id]
  {
  }
}
