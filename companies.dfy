/**
 * `GET /:id`, `POST /`, `PUT /:id` and `PUT /:id/verify` of
 * src/server/routes/users/companies.ts over the companies table.
 */
module Companies {
  import opened Common
  import opened Http
  import opened Schema
  import opened Database

  /** The request body of `POST /`. */
  datatype CompanyBody = CompanyBody(
    userId: Option<int>,
    companyName: Option<string>,
    registrationNumber: Option<string>,
    description: Option<string>,
    websiteUrl: Option<string>)

  const MissingFields: string := "Required params: userId and companyName."
  const UserNotFound: string := "User not found."
  const CompanyNotFound: string := "Company not found."

  /** `GET /:id`: the company with that key, or 404. */
  function GetCompany(t: seq<Company>, id: int): (r: Outcome<Body<Company>>)
    ensures id !in CompanyIds(t) <==> r == ErrorReply(404, CompanyNotFound)
    ensures id in CompanyIds(t) ==>
      r.Respond? && r.status == 200 && r.body.Data? && r.body.value in t && r.body.value.id == id
  {
    match FindCompany(t, id)
    case None => ErrorReply(404, CompanyNotFound)
    case Some(c) => Respond(200, Data(c))
  }

  /** The row `POST /` inserts under serial value `id`: not yet verified. */
  function NewCompany(id: int, b: CompanyBody): (c: Company)
    requires b.userId.Some? && b.companyName.Some?
    ensures c.id == id && c.userId == b.userId.value && c.companyName == b.companyName.value && c.verifiedAt.None?
  {
    Company(id, b.userId.value, b.companyName.value, b.registrationNumber, b.description, b.websiteUrl, None)
  }

  /**
   * `POST /`. 400 unless `userId` and `companyName` are both truthy, then 404 for an unknown
   * user; otherwise exactly one company is appended, whether or not the user already has one.
   */
  method PostCompany(db: Db, b: CompanyBody) returns (out: Outcome<Body<Company>>)
    requires db.Valid()
    modifies db`companies, db`nextCompanyId
    ensures db.Valid()
    ensures !TruthyInt(b.userId) || !TruthyString(b.companyName) ==>
      out == ErrorReply(400, MissingFields) && db.companies == old(db.companies)
      && db.nextCompanyId == old(db.nextCompanyId)
    ensures TruthyInt(b.userId) && TruthyString(b.companyName) && b.userId.value !in UserIds(db.users) ==>
      out == ErrorReply(404, UserNotFound) && db.companies == old(db.companies)
      && db.nextCompanyId == old(db.nextCompanyId)
    ensures TruthyInt(b.userId) && TruthyString(b.companyName) && b.userId.value in UserIds(db.users) ==>
      var c := NewCompany(old(db.nextCompanyId), b);
      && out == Respond(201, Data(c))
      && db.companies == old(db.companies) + [c]
      && db.nextCompanyId == old(db.nextCompanyId) + 1
  {
    if !TruthyInt(b.userId) || !TruthyString(b.companyName) {
      out := ErrorReply(400, MissingFields);
      return;
    }
    if b.userId.value !in UserIds(db.users) {
      out := ErrorReply(404, UserNotFound);
      return;
    }
    var newCompany := db.InsertCompany(b.userId.value, b.companyName.value, b.registrationNumber,
                                       b.description, b.websiteUrl);
    out := Respond(201, Data(newCompany.row));
  }

  /**
   * `PUT /:id` (`Details`) and `PUT /:id/verify` (`Verification`): one `update ... where id`;
   * no updated row means 404, and then the table is unchanged.
   */
  method UpdateCompany(db: Db, id: int, c: CompanyChange) returns (out: Outcome<Body<Company>>)
    requires db.Valid()
    modifies db`companies
    ensures db.Valid()
    ensures id !in CompanyIds(old(db.companies)) ==>
      out == ErrorReply(404, CompanyNotFound) && db.companies == old(db.companies)
    ensures id in CompanyIds(old(db.companies)) ==>
      && db.companies == CompaniesWhereId(old(db.companies), id, c)
      && out == Respond(200, Data(ChangeCompany(FindCompany(old(db.companies), id).value, c)))
  {
    var updated := db.UpdateCompanies(id, c);
    if updated.None? {
      NoCompanyUnchanged(old(db.companies), id, c);
      out := ErrorReply(404, CompanyNotFound);
      return;
    }
    out := Respond(200, Data(updated.value));
  }

  /** An update by a key no row has changes nothing. */
  lemma NoCompanyUnchanged(t: seq<Company>, id: int, c: CompanyChange)
    requires id !in CompanyIds(t)
    ensures CompaniesWhereId(t, id, c) == t
  {
    assert forall i | 0 <= i < |t| :: t[i].id == CompanyIds(t)[i];
  }

  /** `PUT /:id`: the four detail columns; an undefined one keeps its value. */
  method PutCompany(db: Db, id: int, companyName: Option<string>, registrationNumber: Option<string>,
                    description: Option<string>, websiteUrl: Option<string>)
    returns (out: Outcome<Body<Company>>)
    requires db.Valid()
    modifies db`companies
    ensures db.Valid()
    ensures id !in CompanyIds(old(db.companies)) ==>
      out == ErrorReply(404, CompanyNotFound) && db.companies == old(db.companies)
    ensures id in CompanyIds(old(db.companies)) ==>
      && db.companies == CompaniesWhereId(old(db.companies), id, Details(companyName, registrationNumber, description, websiteUrl))
      && out == Respond(200, Data(ChangeCompany(FindCompany(old(db.companies), id).value,
                                                 Details(companyName, registrationNumber, description, websiteUrl))))
      && DetailsOnly(FindCompany(old(db.companies), id).value, out.body.value)
  {
    out := UpdateCompany(db, id, Details(companyName, registrationNumber, description, websiteUrl));
  }

  /** `PUT /:id/verify`: sets `verifiedAt` to the time of the request. */
  method VerifyCompany(db: Db, id: int, now: Timestamp) returns (out: Outcome<Body<Company>>)
    requires db.Valid()
    modifies db`companies
    ensures db.Valid()
    ensures id !in CompanyIds(old(db.companies)) ==>
      out == ErrorReply(404, CompanyNotFound) && db.companies == old(db.companies)
    ensures id in CompanyIds(old(db.companies)) ==>
      && db.companies == CompaniesWhereId(old(db.companies), id, Verification(now))
      && out == Respond(200, Data(FindCompany(old(db.companies), id).value.(verifiedAt := Some(now))))
  {
    out := UpdateCompany(db, id, Verification(now));
  }

  /** `v` differs from `c` at most in the four detail columns. */
  predicate DetailsOnly(c: Company, v: Company) {
    v.id == c.id && v.userId == c.userId && v.verifiedAt == c.verifiedAt
  }

  /**
   * A detail update keeps the key, the owner and the verification, and verification keeps
   * everything but `verifiedAt`; on every other row both leave the table as it was.
   */
  lemma UpdatesTouchTheirColumns(t: seq<Company>, id: int, c: CompanyChange)
    ensures |CompaniesWhereId(t, id, c)| == |t|
    ensures forall i | 0 <= i < |t| && t[i].id != id :: CompaniesWhereId(t, id, c)[i] == t[i]
    ensures forall i | 0 <= i < |t| && t[i].id == id && c.Details? ::
      DetailsOnly(t[i], CompaniesWhereId(t, id, c)[i])
    ensures forall i | 0 <= i < |t| && t[i].id == id && c.Verification? ::
      CompaniesWhereId(t, id, c)[i] == t[i].(verifiedAt := Some(c.at))
  {
  }

  /** Every successful `POST /` adds a row, so one user may own several companies. */
  lemma {:induction false} CompaniesOfUserGrow(t: seq<Company>, c: Company)
    ensures |CompaniesOfUser(t + [c], c.userId)| == |CompaniesOfUser(t, c.userId)| + 1
  {
    if t != [] {
      assert (t + [c])[1..] == t[1..] + [c];
      CompaniesOfUserGrow(t[1..], c);
    }
  }

  /** The companies a user owns, in table order. */
  function CompaniesOfUser(t: seq<Company>, userId: int): (r: seq<Company>)
    ensures forall x | x in r :: x in t && x.userId == userId
    ensures forall x | x in t && x.userId == userId :: x in r
    ensures |r| <= |t|
  {
    if t == [] then [] else (if t[0].userId == userId then [t[0]] else []) + CompaniesOfUser(t[1..], userId)
  }
}
