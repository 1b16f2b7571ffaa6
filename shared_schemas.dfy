/**
 * The zod schemas shared by client and server (src/shared/schemas/users.ts), as predicates
 * over the decoded JSON object. Every key of the object may be absent, so every field is an
 * Option; a required field must be Some. zod's `.email()` and `.url()` checks are library
 * code and come in as the `Formats` parameter.
 */
module SharedSchemas {
  import opened Common
  import opened Http

  /** The regular expressions of the schemas, as written in the source. */
  const PasswordPattern: string :=
    "^(?=.*[a-z])(?=.*[A-Z])(?=.*\\d)(?=.*[!@#$%^&*(),.?\":{}|<>])[A-Za-z\\d!@#$%^&*(),.?\":{}|<>]{8,}$"
  const PhonePattern: string := "^\\+?[1-9]\\d{1,14}$"

  /** The library format checks the schemas call: `z.string().email()` and `.url()`. */
  datatype Formats = Formats(isEmail: string -> bool, isUrl: string -> bool)

  const Roles: seq<string> := ["admin", "worker", "company", "manager"]
  const Availabilities: seq<string> := ["full-time", "part-time", "contract"]

  /** `userRoleSchema = z.enum(ROLES)`: one of the four role names. */
  predicate IsRole(s: string) {
    s in Roles
  }

  /** Every character is in `[A-Za-z\d!@#$%^&*(),.?":{}|<>]`. */
  predicate AllPasswordChars(s: string) {
    forall i | 0 <= i < |s| :: IsLower(s[i]) || IsUpper(s[i]) || IsDigit(s[i]) || IsSpecial(s[i])
  }

  /**
   * The password field: `.min(8)` and the anchored regular expression whose four lookaheads
   * demand a lowercase letter, an uppercase letter, a digit and a special character, and whose
   * body `[A-Za-z\d...]{8,}$` demands at least eight allowed characters and nothing else.
   */
  predicate PasswordOk(s: string) {
    Utf16Length(s) >= 8
    && HasClass(s, Lower) && HasClass(s, Upper) && HasClass(s, Digit) && HasClass(s, Special)
    && AllPasswordChars(s)
  }

  /** The digits of a phone number once the optional leading '+' is dropped. */
  function PhoneDigits(s: string): (d: string)
    ensures |d| == |s| || |d| == |s| - 1
  {
    if |s| > 0 && s[0] == '+' then s[1..] else s
  }

  /** `PHONE_REGEX = /^\+?[1-9]\d{1,14}$/`. */
  predicate PhoneOk(s: string) {
    var d := PhoneDigits(s);
    2 <= |d| <= 15 && '1' <= d[0] <= '9' && AllDigits(d[1..])
  }

  /** The input object of `createUserSchema` and `updateUserSchema`. */
  datatype UserInput = UserInput(
    role: Option<string>,
    email: Option<string>,
    password: Option<string>,
    firstName: Option<string>,
    lastName: Option<string>,
    phone: Option<string>,
    avatarUrl: Option<string>)

  predicate OptPhoneOk(o: Option<string>) {
    o.None? || PhoneOk(o.value)
  }

  predicate OptFormat(o: Option<string>, check: string -> bool) {
    o.None? || check(o.value)
  }

  /** The shared `createUserSchema`: names optional but 1..100 characters when present. */
  predicate CreateUserOk(u: UserInput, f: Formats) {
    && u.role.Some? && IsRole(u.role.value)
    && u.email.Some? && f.isEmail(u.email.value)
    && u.password.Some? && PasswordOk(u.password.value)
    && OptLengthIn(u.firstName, 1, 100)
    && OptLengthIn(u.lastName, 1, 100)
    && OptPhoneOk(u.phone)
    && OptFormat(u.avatarUrl, f.isUrl)
  }

  /** The shared `updateUserSchema`: every field optional; role and password are stripped. */
  predicate UpdateUserOk(u: UserInput, f: Formats) {
    && OptLengthIn(u.firstName, 1, 100)
    && OptLengthIn(u.lastName, 1, 100)
    && OptPhoneOk(u.phone)
    && OptFormat(u.avatarUrl, f.isUrl)
    && OptFormat(u.email, f.isEmail)
  }

  /** The input object of `updateManagerSchema`. */
  datatype ManagerInput = ManagerInput(
    position: Option<string>,
    companyId: Option<int>,
    workSiteId: Option<int>,
    permissions: Option<seq<string>>)

  /** `updateManagerSchema`. */
  predicate ManagerUpdateOk(m: ManagerInput) {
    && m.position.Some? && LengthIn(m.position.value, 1, 100)
    && m.companyId.Some? && m.companyId.value >= 1
    && (m.workSiteId.None? || m.workSiteId.value >= 1)
  }

  /** The fields of the manager input that `updateManagerSchema` rejects, in key order. */
  function ManagerIssues(m: ManagerInput): (r: seq<string>)
    ensures r == [] <==> ManagerUpdateOk(m)
  {
    (if m.position.Some? && LengthIn(m.position.value, 1, 100) then [] else ["position"])
    + (if m.companyId.Some? && m.companyId.value >= 1 then [] else ["companyId"])
    + (if m.workSiteId.None? || m.workSiteId.value >= 1 then [] else ["workSiteId"])
  }

  /**
   * `updateManagerSchema.parseAsync`: the object itself when every field passes (zod strips
   * unknown keys, and this record has none), otherwise one issue per failing field.
   */
  function ParseManagerUpdate(m: ManagerInput): (r: Parsed<ManagerInput>)
    ensures r.Parsed? <==> ManagerUpdateOk(m)
    ensures r.Parsed? ==> r.value == m
    ensures r.Rejected? ==> |r.issues| >= 1 && forall i | 0 <= i < |r.issues| :: |r.issues[i].path| == 1
    ensures !r.Thrown?
  {
    var bad := ManagerIssues(m);
    if bad == [] then Parsed(m)
    else Rejected(seq(|bad|, i requires 0 <= i < |bad| => Issue([bad[i]], "Invalid " + bad[i])))
  }

  /** The input object of `updateWorkerSchema`. JSON numbers are reals here. */
  datatype WorkerInput = WorkerInput(
    skills: Option<seq<string>>,
    certifications: Option<seq<string>>,
    experience: Option<real>,
    availability: Option<seq<string>>,
    ratePerHour: Option<real>,
    preferredLocation: Option<string>,
    bio: Option<string>)

  predicate OptRealIn(o: Option<real>, lo: real, hi: real) {
    o.None? || lo <= o.value <= hi
  }

  /** `.max(hi).optional()` on a string, in UTF-16 code units. */
  predicate OptMaxLength(o: Option<string>, hi: nat) {
    o.None? || Utf16Length(o.value) <= hi
  }

  /** Every element of the availability array is one of the three enumeration members. */
  predicate AllAvailabilities(vs: seq<string>) {
    forall i | 0 <= i < |vs| :: vs[i] in Availabilities
  }

  /** `updateWorkerSchema` before its transform. */
  predicate WorkerUpdateOk(w: WorkerInput) {
    && w.skills.Some? && |w.skills.value| >= 1
    && OptRealIn(w.experience, 0.0, 70.0)
    && w.availability.Some? && |w.availability.value| >= 1 && AllAvailabilities(w.availability.value)
    && OptRealIn(w.ratePerHour, 0.0, 1000.0)
    && OptMaxLength(w.preferredLocation, 100)
    && OptMaxLength(w.bio, 200)
  }

  /** `toLowerCase` on one character, for the ASCII letters. */
  function LowerChar(c: char): (r: char)
    ensures !IsUpper(r)
    ensures !IsUpper(c) ==> r == c
  {
    if IsUpper(c) then (c as int + 32) as char else c
  }

  function ToLower(s: string): (r: string)
    ensures |r| == |s|
    ensures forall i | 0 <= i < |s| :: r[i] == LowerChar(s[i])
  {
    if s == [] then [] else [LowerChar(s[0])] + ToLower(s[1..])
  }

  /** The availability transform `values.map((v) => v.toLowerCase())`. */
  function LowerAll(vs: seq<string>): (r: seq<string>)
    ensures |r| == |vs|
    ensures forall i | 0 <= i < |vs| :: r[i] == ToLower(vs[i])
  {
    if vs == [] then [] else [ToLower(vs[0])] + LowerAll(vs[1..])
  }

  /** `updateWorkerSchema.safeParse`: the checked object with its availability lowered, or None. */
  function ParseWorkerUpdate(w: WorkerInput): (r: Option<WorkerInput>)
    ensures r.Some? <==> WorkerUpdateOk(w)
  {
    if WorkerUpdateOk(w) then Some(w.(availability := Some(LowerAll(w.availability.value))))
    else None
  }

  /** The input object of `updateCompanySchema`. */
  datatype CompanyInput = CompanyInput(
    companyName: Option<string>,
    registrationNumber: Option<string>,
    description: Option<string>,
    websiteUrl: Option<string>)

  /** `updateCompanySchema`: all four fields required. */
  predicate CompanyUpdateOk(c: CompanyInput, f: Formats) {
    && c.companyName.Some? && LengthIn(c.companyName.value, 1, 100)
    && c.registrationNumber.Some? && LengthIn(c.registrationNumber.value, 1, 100)
    && c.description.Some? && LengthIn(c.description.value, 1, 200)
    && c.websiteUrl.Some? && f.isUrl(c.websiteUrl.value)
  }

  /** The input object of `loginSchema`. */
  datatype LoginInput = LoginInput(email: Option<string>, password: Option<string>, rememberMe: Option<bool>)

  /** `loginSchema`: any password string, `rememberMe` optional. */
  predicate LoginOk(l: LoginInput, f: Formats) {
    l.email.Some? && f.isEmail(l.email.value) && l.password.Some?
  }

  // ---------------------------------------------------------------------------------------
  // Properties

  /**
   * Of two creation inputs that differ only in their role, the one with a role outside the
   * four names is refused, and the one with a role among them is accepted whenever the other
   * fields are.
   */
  lemma RoleAccepted(u: UserInput, f: Formats, r: string)
    requires CreateUserOk(u, f)
    ensures CreateUserOk(u.(role := Some(r)), f) <==> r in {"admin", "worker", "company", "manager"}
  {
  }

  /** The password alphabet is ASCII, so for an allowed password `.length` counts characters. */
  lemma PasswordCharsLength(s: string)
    requires AllPasswordChars(s)
    ensures Utf16Length(s) == |s|
  {
    PasswordCharsInBmp(s);
    BmpLength(s);
  }

  lemma PasswordCharsInBmp(s: string)
    requires AllPasswordChars(s)
    ensures InBmp(s)
  {
    forall i | 0 <= i < |s| ensures s[i] as int < 0x1_0000 {
      PasswordCharIsAscii(s[i]);
    }
  }

  lemma PasswordCharIsAscii(c: char)
    requires IsLower(c) || IsUpper(c) || IsDigit(c) || IsSpecial(c)
    ensures c as int < 0x80
  {
  }

  /** The password rule with each class spelled out as a witness. */
  lemma PasswordWitnesses(s: string)
    ensures PasswordOk(s) <==>
      (|s| >= 8 && AllPasswordChars(s)
       && (exists i | 0 <= i < |s| :: IsLower(s[i]))
       && (exists i | 0 <= i < |s| :: IsUpper(s[i]))
       && (exists i | 0 <= i < |s| :: IsDigit(s[i]))
       && (exists i | 0 <= i < |s| :: IsSpecial(s[i])))
  {
    if AllPasswordChars(s) { PasswordCharsLength(s); }
    assert HasClass(s, Lower) <==> exists i | 0 <= i < |s| :: IsLower(s[i]) by {
      if exists i | 0 <= i < |s| :: IsLower(s[i]) {
        var i :| 0 <= i < |s| && IsLower(s[i]);
        assert InClass(s[i], Lower);
      }
    }
    assert HasClass(s, Upper) <==> exists i | 0 <= i < |s| :: IsUpper(s[i]) by {
      if exists i | 0 <= i < |s| :: IsUpper(s[i]) {
        var i :| 0 <= i < |s| && IsUpper(s[i]);
        assert InClass(s[i], Upper);
      }
    }
    assert HasClass(s, Digit) <==> exists i | 0 <= i < |s| :: IsDigit(s[i]) by {
      if exists i | 0 <= i < |s| :: IsDigit(s[i]) {
        var i :| 0 <= i < |s| && IsDigit(s[i]);
        assert InClass(s[i], Digit);
      }
    }
    assert HasClass(s, Special) <==> exists i | 0 <= i < |s| :: IsSpecial(s[i]) by {
      if exists i | 0 <= i < |s| :: IsSpecial(s[i]) {
        var i :| 0 <= i < |s| && IsSpecial(s[i]);
        assert InClass(s[i], Special);
      }
    }
  }

  /** The class of a character: one of the four, or None for a character outside the alphabet. */
  function ClassOf(c: char): (k: Option<CharClass>)
    ensures k.Some? ==> InClass(c, k.value)
    ensures k.None? <==> !(IsLower(c) || IsUpper(c) || IsDigit(c) || IsSpecial(c))
  {
    if IsLower(c) then Some(Lower)
    else if IsUpper(c) then Some(Upper)
    else if IsDigit(c) then Some(Digit)
    else if IsSpecial(c) then Some(Special)
    else None
  }

  /** The four classes never share a character. */
  lemma ClassOfExact(c: char, k: CharClass)
    requires InClass(c, k)
    ensures ClassOf(c) == Some(k)
  {
  }

  /** The set of classes the characters of a string fall into. */
  function ClassesUsed(s: string): set<Option<CharClass>> {
    set i | 0 <= i < |s| :: ClassOf(s[i])
  }

  /**
   * The password rule as a set of classes: at least eight characters, and the characters fall
   * into exactly the four classes, no more (a character outside the alphabet) and no fewer.
   */
  lemma PasswordRule(s: string)
    ensures PasswordOk(s) <==>
      |s| >= 8 && ClassesUsed(s) == {Some(Lower), Some(Upper), Some(Digit), Some(Special)}
  {
    if AllPasswordChars(s) { PasswordCharsLength(s); }
    var all := {Some(Lower), Some(Upper), Some(Digit), Some(Special)};
    var used := ClassesUsed(s);
    forall k: CharClass ensures HasClass(s, k) <==> Some(k) in used {
      if HasClass(s, k) {
        var i :| 0 <= i < |s| && InClass(s[i], k);
        ClassOfExact(s[i], k);
      }
      if Some(k) in used {
        var i :| 0 <= i < |s| && ClassOf(s[i]) == Some(k);
      }
    }
    assert AllPasswordChars(s) <==> None !in used by {
      if None in used {
        var i :| 0 <= i < |s| && ClassOf(s[i]).None?;
      }
    }
    assert used <= {None} + all;
    if PasswordOk(s) {
      assert forall k: CharClass :: Some(k) in used;
      assert used == all;
    }
  }

  /** A sample password that meets the rule. */
  lemma PasswordAccepted()
    ensures PasswordOk("Secret1!")
  {
    var s := "Secret1!";
    assert SpecialChars[0] == s[7];
    assert InClass(s[1], Lower) && InClass(s[0], Upper) && InClass(s[6], Digit) && InClass(s[7], Special);
    assert forall i | 0 <= i < 7 :: IsLower(s[i]) || IsUpper(s[i]) || IsDigit(s[i]);
  }

  /** A password without an uppercase letter is refused. */
  lemma PasswordWithoutUpperRefused()
    ensures !PasswordOk("secret1!")
  {
    var t := "secret1!";
    assert forall i | 0 <= i < |t| :: !IsUpper(t[i]);
  }

  /** Number of decimal digits in a string. */
  function DigitCount(s: string): (n: nat)
    ensures n <= |s|
  {
    if s == [] then 0 else (if IsDigit(s[0]) then 1 else 0) + DigitCount(s[1..])
  }

  lemma {:induction false} DigitCountAll(s: string)
    requires AllDigits(s)
    ensures DigitCount(s) == |s|
  {
    if s != [] {
      DigitCountAll(s[1..]);
    }
  }

  /**
   * An accepted phone number holds 2 to 15 digits, at most one other character (a leading '+'),
   * and so at most 16 characters: it fits the `varchar(20)` phone column.
   */
  lemma {:induction false} PhoneShape(s: string)
    requires PhoneOk(s)
    ensures 2 <= DigitCount(s) <= 15
    ensures DigitCount(s) == |s| || (s[0] == '+' && DigitCount(s) == |s| - 1)
    ensures |s| <= 16
  {
    var d := PhoneDigits(s);
    assert AllDigits(d) by {
      forall i | 0 <= i < |d| ensures IsDigit(d[i]) {
        if i > 0 { assert d[i] == d[1..][i - 1]; }
      }
    }
    DigitCountAll(d);
    if |s| > 0 && s[0] == '+' {
      assert s == ['+'] + d;
      assert s[1..] == d;
    }
  }

  /** "0..." numbers, a bare "+" number of one digit and 16-digit numbers are rejected. */
  lemma PhoneExamples()
    ensures PhoneOk("+14155552671") && PhoneOk("12")
    ensures !PhoneOk("+1") && !PhoneOk("0123") && !PhoneOk("1234567890123456")
  {
  }

  /** Every creation input the shared schema accepts fits the users table's varchar columns. */
  lemma CreateUserFitsColumns(u: UserInput, f: Formats)
    requires CreateUserOk(u, f)
    ensures |u.role.value| <= 20
    ensures u.firstName.Some? ==> |u.firstName.value| <= 100
    ensures u.lastName.Some? ==> |u.lastName.value| <= 100
    ensures u.phone.Some? ==> |u.phone.value| <= 20
  {
    if u.phone.Some? { PhoneShape(u.phone.value); }
  }

  /** `updateUserSchema` accepts the empty object. */
  lemma UpdateUserEmpty(f: Formats)
    ensures UpdateUserOk(UserInput(None, None, None, None, None, None, None), f)
  {
  }

  /** The lowercase transform is idempotent on every string. */
  lemma {:induction false} ToLowerIdempotent(s: string)
    ensures ToLower(ToLower(s)) == ToLower(s)
  {
    var t := ToLower(s);
    assert forall i | 0 <= i < |t| :: ToLower(t)[i] == LowerChar(t[i]) == t[i];
  }

  /** Applying the availability transform twice equals applying it once. */
  lemma {:induction false} LowerAllIdempotent(vs: seq<string>)
    ensures LowerAll(LowerAll(vs)) == LowerAll(vs)
  {
    forall i | 0 <= i < |vs| ensures LowerAll(LowerAll(vs))[i] == LowerAll(vs)[i] {
      ToLowerIdempotent(vs[i]);
    }
  }

  /** The enumeration members contain no uppercase letters. */
  lemma AvailabilityLowercase(v: string)
    requires v in Availabilities
    ensures ToLower(v) == v
  {
    assert forall i | 0 <= i < |v| :: !IsUpper(v[i]);
  }

  /**
   * Parsing an accepted worker input returns it unchanged: the transform maps each validated
   * availability to itself, because every enumeration member is already lowercase.
   */
  lemma {:induction false} WorkerTransformIsIdentity(w: WorkerInput)
    requires WorkerUpdateOk(w)
    ensures ParseWorkerUpdate(w) == Some(w)
  {
    var vs := w.availability.value;
    forall i | 0 <= i < |vs| ensures LowerAll(vs)[i] == vs[i] {
      AvailabilityLowercase(vs[i]);
    }
    assert LowerAll(vs) == vs;
  }

  /** Parsing the output of a successful parse again gives the same value. */
  lemma WorkerParseIdempotent(w: WorkerInput)
    requires ParseWorkerUpdate(w).Some?
    ensures ParseWorkerUpdate(ParseWorkerUpdate(w).value) == ParseWorkerUpdate(w)
  {
    WorkerTransformIsIdentity(w);
  }

  /** A worker input needs at least one skill and one availability. */
  lemma WorkerNeedsSkillAndAvailability(w: WorkerInput)
    requires w.skills == Some([]) || w.availability == Some([]) || w.availability.None? || w.skills.None?
    ensures ParseWorkerUpdate(w).None?
  {
  }

  /** A company update the schema accepts fits the `varchar` columns of the companies table. */
  lemma CompanyUpdateFitsColumns(c: CompanyInput, f: Formats)
    requires CompanyUpdateOk(c, f)
    ensures |c.companyName.value| <= 255 && |c.registrationNumber.value| <= 100
  {
  }

  /** Every field of the company update is required: leaving any one out is refused. */
  lemma CompanyUpdateNeedsAllFields(c: CompanyInput, f: Formats)
    requires c.companyName.None? || c.registrationNumber.None? || c.description.None? || c.websiteUrl.None?
    ensures !CompanyUpdateOk(c, f)
  {
  }

  /** Login needs both an email and a password; a missing one is refused. */
  lemma LoginNeedsBothFields(l: LoginInput, f: Formats)
    requires l.email.None? || l.password.None?
    ensures !LoginOk(l, f)
  {
  }

  /** The login schema places no rule on the password string. */
  lemma LoginAnyPassword(email: string, password: string, remember: Option<bool>, f: Formats)
    requires f.isEmail(email)
    ensures LoginOk(LoginInput(Some(email), Some(password), remember), f)
  {
  }
}
