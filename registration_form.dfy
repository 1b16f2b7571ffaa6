/**
 * The password checklist and the form defaults of the registration form
 * (src/client/components/auth/RegistrationForm.tsx). Each flag is a regular-expression
 * `test` of the current password, which scans it for one matching character.
 */
module RegistrationForm {
  import opened Common
  import S = SharedSchemas

  datatype Requirements = Requirements(
    minLength: bool,
    hasDigit: bool,
    hasSpecialChar: bool,
    hasUppercase: bool,
    hasLowercase: bool)

  /** `/[class]/.test(s)`: scan from the left for a character of the class. */
  function RegexTest(s: string, k: CharClass): bool {
    s != [] && (InClass(s[0], k) || RegexTest(s[1..], k))
  }

  /** The scan finds a character exactly when the string holds one. */
  lemma {:induction false} RegexTestFinds(s: string, k: CharClass)
    ensures RegexTest(s, k) <==> HasClass(s, k)
  {
    if s != [] {
      RegexTestFinds(s[1..], k);
      if HasClass(s[1..], k) {
        var i :| 0 <= i < |s[1..]| && InClass(s[1..][i], k);
        assert InClass(s[i + 1], k);
      }
      if HasClass(s, k) && !InClass(s[0], k) {
        var i :| 0 <= i < |s| && InClass(s[i], k);
        assert i > 0 && InClass(s[1..][i - 1], k);
      }
    }
  }

  /** The flags the form's effect computes for the current password. */
  function PasswordRequirements(password: string): (r: Requirements)
    ensures r.minLength <==> Utf16Length(password) >= 8
    ensures r.hasDigit <==> (exists i | 0 <= i < |password| :: IsDigit(password[i]))
    ensures r.hasSpecialChar <==> (exists i | 0 <= i < |password| :: IsSpecial(password[i]))
    ensures r.hasUppercase <==> (exists i | 0 <= i < |password| :: IsUpper(password[i]))
    ensures r.hasLowercase <==> (exists i | 0 <= i < |password| :: IsLower(password[i]))
  {
    RegexTestFinds(password, Digit);
    RegexTestFinds(password, Special);
    RegexTestFinds(password, Upper);
    RegexTestFinds(password, Lower);
    S.PasswordWitnesses(password);
    Requirements(
      Utf16Length(password) >= 8,
      RegexTest(password, Digit),
      RegexTest(password, Special),
      RegexTest(password, Upper),
      RegexTest(password, Lower))
  }

  predicate AllMet(r: Requirements) {
    r.minLength && r.hasDigit && r.hasSpecialChar && r.hasUppercase && r.hasLowercase
  }

  /**
   * The schema's password rule is the checklist plus the alphabet restriction: every password
   * the schema accepts ticks all five boxes, and a password that ticks them all is accepted
   * exactly when it uses no other characters.
   */
  lemma SchemaAndChecklist(password: string)
    ensures S.PasswordOk(password) <==> AllMet(PasswordRequirements(password)) && S.AllPasswordChars(password)
    ensures S.PasswordOk(password) ==> AllMet(PasswordRequirements(password))
  {
    S.PasswordWitnesses(password);
  }

  /** A password with a space ticks every box and is still rejected by the schema. */
  lemma ChecklistDoesNotShowAlphabet()
    ensures AllMet(PasswordRequirements("Secret 1!")) && !S.PasswordOk("Secret 1!")
  {
    var s := "Secret 1!";
    assert IsUpper(s[0]) && IsLower(s[1]) && IsDigit(s[7]) && IsSpecial(s[8]);
    assert !(IsLower(s[6]) || IsUpper(s[6]) || IsDigit(s[6]) || IsSpecial(s[6]));
  }

  /** The form's default values. */
  datatype FormValues = FormValues(email: string, password: string, role: string)

  const DefaultValues: FormValues := FormValues("", "", "worker")

  /** The roles the dropdown offers. */
  const RoleOptions: seq<string> := ["worker", "manager", "company"]

  /**
   * The default role is a valid role and every option is one, "admin" is not offered, and the
   * empty default password meets no requirement.
   */
  lemma DefaultsAndOptions()
    ensures S.IsRole(DefaultValues.role)
    ensures forall r | r in RoleOptions :: S.IsRole(r)
    ensures "admin" !in RoleOptions
    ensures PasswordRequirements(DefaultValues.password) == Requirements(false, false, false, false, false)
  {
  }

  /** `password.length` counts UTF-16 code units: four emoji already tick the length box. */
  lemma AstralPasswordLength()
    ensures PasswordRequirements("\U{1F600}\U{1F600}\U{1F600}\U{1F600}").minLength
  {
    AstralLength("\U{1F600}\U{1F600}\U{1F600}\U{1F600}");
  }
}
