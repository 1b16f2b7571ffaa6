/**
 * The server's own copy of the user schemas (src/server/validation/users.ts). It repeats the
 * shared role list and regular expressions literally, but makes `firstName` and `lastName`
 * required in `createUserSchema`.
 */
module ServerUserSchemas {
  import opened Common
  import S = SharedSchemas

  const Roles: seq<string> := ["admin", "worker", "company", "manager"]
  const PasswordPattern: string :=
    "^(?=.*[a-z])(?=.*[A-Z])(?=.*\\d)(?=.*[!@#$%^&*(),.?\":{}|<>])[A-Za-z\\d!@#$%^&*(),.?\":{}|<>]{8,}$"
  const PhonePattern: string := "^\\+?[1-9]\\d{1,14}$"

  /** The server `createUserSchema`: both names required, each 1..100 characters. */
  predicate CreateUserOk(u: S.UserInput, f: S.Formats) {
    && u.role.Some? && u.role.value in Roles
    && u.email.Some? && f.isEmail(u.email.value)
    && u.password.Some? && S.PasswordOk(u.password.value)
    && u.firstName.Some? && LengthIn(u.firstName.value, 1, 100)
    && u.lastName.Some? && LengthIn(u.lastName.value, 1, 100)
    && S.OptPhoneOk(u.phone)
    && S.OptFormat(u.avatarUrl, f.isUrl)
  }

  /** The server `updateUserSchema`: every field optional. */
  predicate UpdateUserOk(u: S.UserInput, f: S.Formats) {
    && OptLengthIn(u.firstName, 1, 100)
    && OptLengthIn(u.lastName, 1, 100)
    && S.OptPhoneOk(u.phone)
    && S.OptFormat(u.avatarUrl, f.isUrl)
    && S.OptFormat(u.email, f.isEmail)
  }

  /** Server and client name the same four roles and write the same two patterns. */
  lemma SameRolesAndPatterns()
    ensures Roles == S.Roles
    ensures PasswordPattern == S.PasswordPattern && PhonePattern == S.PhonePattern
  {
  }

  /**
   * The server accepts exactly the inputs the shared schema accepts that carry both names:
   * so everything the server accepts the client accepts too.
   */
  lemma CreateUserAgreement(u: S.UserInput, f: S.Formats)
    ensures CreateUserOk(u, f) <==> (S.CreateUserOk(u, f) && u.firstName.Some? && u.lastName.Some?)
    ensures CreateUserOk(u, f) ==> S.CreateUserOk(u, f)
  {
  }

  /** The converse fails: an input without names passes the shared schema only. */
  lemma SharedAcceptsNamelessInput(f: S.Formats, email: string)
    requires f.isEmail(email)
    ensures var u := S.UserInput(Some("worker"), Some(email), Some("Secret1!"), None, None, None, None);
            S.CreateUserOk(u, f) && !CreateUserOk(u, f)
  {
    S.PasswordAccepted();
  }

  /** Both `updateUserSchema`s accept the same inputs; each accepts the empty object. */
  lemma UpdateUserAgreement(u: S.UserInput, f: S.Formats)
    ensures UpdateUserOk(u, f) <==> S.UpdateUserOk(u, f)
    ensures UpdateUserOk(S.UserInput(None, None, None, None, None, None, None), f)
  {
  }
}
