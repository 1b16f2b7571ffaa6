/**
 * `POST /` and `PUT /:id` of src/server/routes/users/workers.ts: guard chains over the users
 * and worker-profile tables, then an insert or an update of the profile rows of one user.
 */
module Workers {
  import opened Common
  import opened Http
  import opened Schema
  import opened Database
  import JsNumber

  /** The request body of `POST /`: `userId` and the profile columns. */
  datatype WorkerBody = WorkerBody(userId: Option<int>, profile: WorkerChange)

  const MissingUserId: string := "Required param: userId"
  const UserNotFound: string := "User not found."
  const AlreadyWorker: string := "User already registered as worker."

  /** The message of the second 404 of `PUT /:id`. */
  function NotAWorker(userId: int): string {
    "User with userId=" + JsNumber.IntToDecimal(userId) + " is not registered as worker."
  }

  /** The handlers' own invariant (the table has no such constraint): one profile per user. */
  predicate OneProfilePerUser(t: seq<WorkerProfile>) {
    forall i, j | 0 <= i < j < |t| :: t[i].userId != t[j].userId
  }

  /** The row `POST /` inserts: the body's columns, and `isPublic` defaulting to true. */
  function NewWorker(id: int, userId: int, c: WorkerChange): (w: WorkerProfile)
    ensures w.id == id && w.userId == userId
    ensures c.isPublic.None? ==> w.isPublic
  {
    WorkerProfile(id, userId, c.skills, c.experience, c.availability, c.preferredLocation, c.ratePerHour, c.bio,
                  c.certifications, c.isPublic.GetOr(true))
  }

  /**
   * `POST /`. The guards run in the order 400, 404, 409; only when all pass is one profile
   * inserted, and a user never gets a second one.
   */
  method PostWorker(db: Db, b: WorkerBody) returns (out: Outcome<Body<WorkerProfile>>)
    requires db.Valid()
    modifies db`workers, db`nextWorkerId
    ensures db.Valid()
    ensures OneProfilePerUser(old(db.workers)) ==> OneProfilePerUser(db.workers)
    ensures !TruthyInt(b.userId) ==>
      out == ErrorReply(400, MissingUserId) && db.workers == old(db.workers) && db.nextWorkerId == old(db.nextWorkerId)
    ensures TruthyInt(b.userId) && b.userId.value !in UserIds(db.users) ==>
      out == ErrorReply(404, UserNotFound) && db.workers == old(db.workers) && db.nextWorkerId == old(db.nextWorkerId)
    ensures TruthyInt(b.userId) && b.userId.value in UserIds(db.users) && FindWorkerOf(old(db.workers), b.userId.value).Some? ==>
      out == ErrorReply(409, AlreadyWorker) && db.workers == old(db.workers) && db.nextWorkerId == old(db.nextWorkerId)
    ensures TruthyInt(b.userId) && b.userId.value in UserIds(db.users) && FindWorkerOf(old(db.workers), b.userId.value).None? ==>
      var w := NewWorker(old(db.nextWorkerId), b.userId.value, b.profile);
      out == Respond(201, Data(w)) && db.workers == old(db.workers) + [w] && FindWorkerOf(db.workers, b.userId.value) == Some(w)
      && db.nextWorkerId == old(db.nextWorkerId) + 1
  {
    if !TruthyInt(b.userId) {
      out := ErrorReply(400, MissingUserId);
      return;
    }
    var userId := b.userId.value;
    if userId !in UserIds(db.users) {
      out := ErrorReply(404, UserNotFound);
      return;
    }
    if FindWorkerOf(db.workers, userId).Some? {
      out := ErrorReply(409, AlreadyWorker);
      return;
    }
    var c := b.profile;
    var newWorker := db.InsertWorker(userId, c.skills, c.experience, c.availability, c.preferredLocation,
                                     c.ratePerHour, c.bio, c.certifications, c.isPublic);
    FoundAfterInsert(old(db.workers), newWorker.row);
    out := Respond(201, Data(newWorker.row));
  }

  /** A profile appended for a user without one is that user's profile, and the only one. */
  lemma {:induction false} FoundAfterInsert(t: seq<WorkerProfile>, w: WorkerProfile)
    requires FindWorkerOf(t, w.userId).None?
    ensures FindWorkerOf(t + [w], w.userId) == Some(w)
    ensures OneProfilePerUser(t) ==> OneProfilePerUser(t + [w])
  {
    if t != [] {
      assert (t + [w])[1..] == t[1..] + [w];
      FoundAfterInsert(t[1..], w);
    }
  }

  /**
   * `PUT /:id` for the user `userId`: 404 unless the user exists and has a profile; then the
   * columns the body defines are written on that user's rows and on no other.
   */
  method PutWorker(db: Db, userId: int, c: WorkerChange) returns (out: Outcome<Body<WorkerProfile>>)
    requires db.Valid()
    modifies db`workers
    ensures db.Valid()
    ensures OneProfilePerUser(old(db.workers)) ==> OneProfilePerUser(db.workers)
    ensures userId !in UserIds(db.users) ==> out == ErrorReply(404, UserNotFound) && db.workers == old(db.workers)
    ensures userId in UserIds(db.users) && FindWorkerOf(old(db.workers), userId).None? ==>
      out == ErrorReply(404, NotAWorker(userId)) && db.workers == old(db.workers)
    ensures userId in UserIds(db.users) && FindWorkerOf(old(db.workers), userId).Some? ==>
      && db.workers == WorkersWhereUser(old(db.workers), userId, c)
      && out == Respond(200, Data(ChangeWorker(FindWorkerOf(old(db.workers), userId).value, c)))
  {
    if userId !in UserIds(db.users) {
      out := ErrorReply(404, UserNotFound);
      return;
    }
    if FindWorkerOf(db.workers, userId).None? {
      out := ErrorReply(404, NotAWorker(userId));
      return;
    }
    var updatedWorker := db.UpdateWorkers(userId, c);
    assert OneProfilePerUser(old(db.workers)) ==> OneProfilePerUser(db.workers) by {
      assert forall i | 0 <= i < |db.workers| :: db.workers[i].userId == old(db.workers)[i].userId;
    }
    out := Respond(200, Data(updatedWorker.value));
  }

  /** The update touches only the rows of that user: every other row is as it was. */
  lemma UpdateTouchesOnlyThatUser(t: seq<WorkerProfile>, userId: int, c: WorkerChange)
    ensures |WorkersWhereUser(t, userId, c)| == |t|
    ensures forall i | 0 <= i < |t| && t[i].userId != userId :: WorkersWhereUser(t, userId, c)[i] == t[i]
    ensures forall i | 0 <= i < |t| && t[i].userId == userId ::
      WorkersWhereUser(t, userId, c)[i] == ChangeWorker(t[i], c)
  {
  }

  /** An undefined body field leaves its column unchanged; a defined one overwrites it. */
  lemma UndefinedFieldsKept(w: WorkerProfile, c: WorkerChange)
    ensures c.skills.None? ==> ChangeWorker(w, c).skills == w.skills
    ensures c.bio.None? ==> ChangeWorker(w, c).bio == w.bio
    ensures c.isPublic.None? ==> ChangeWorker(w, c).isPublic == w.isPublic
    ensures c.skills.Some? ==> ChangeWorker(w, c).skills == c.skills
    ensures ChangeWorker(w, WorkerChange(None, None, None, None, None, None, None, None)) == w
  {
  }
}
