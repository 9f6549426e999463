/** The zod schemas of backend/src/dtos/auth.dto.ts as validation functions. The
    constraints and transforms are applied in the order the schema declares them. */
module AuthDto {
  import opened Wrappers
  import opened Text

  /** `/^\S+@\S+\.\S+$/`: no whitespace anywhere, an `@` after at least one character, and
      a later `.` with at least one character on each side of it. */
  predicate EmailFormat(s: string) {
    NoSpace(s)
    && exists i, j :: 1 <= i && i + 2 <= j && j + 2 <= |s| && s[i] == '@' && s[j] == '.'
  }

  /** The transformed email: lower-cased, then trimmed. */
  function NormalEmail(email: string): string {
    Trim(ToLower(email))
  }

  datatype RegisterBody = RegisterBody(name: Option<string>, email: Option<string>, password: Option<string>)
  datatype RegisterInput = RegisterInput(name: string, email: string, password: string)

  datatype LoginBody = LoginBody(email: Option<string>, password: Option<string>)
  datatype LoginInput = LoginInput(email: string, password: string)

  /** `RegisterDto.parse`: name of 2 to 50 characters (then trimmed), a well-formed email,
      and a password of 6 to 100 characters, kept as given. */
  function ParseRegister(b: RegisterBody): (r: Option<RegisterInput>)
    ensures r.Some? <==>
      (b.name.Some? && 2 <= |b.name.value| <= 50
       && b.email.Some? && EmailFormat(b.email.value)
       && b.password.Some? && 6 <= |b.password.value| <= 100)
    ensures r.Some? ==> r.value.name == Trim(b.name.value) && r.value.password == b.password.value
    ensures r.Some? ==> r.value.email == NormalEmail(b.email.value) && r.value.email == ToLower(b.email.value)
    ensures r.Some? ==> IsLower(r.value.email) && EmailFormat(r.value.email)
  {
    if b.name.Some? && 2 <= |b.name.value| <= 50
       && b.email.Some? && EmailFormat(b.email.value)
       && b.password.Some? && 6 <= |b.password.value| <= 100
    then
      var email := NormalEmail(b.email.value);
      NormalEmailShape(b.email.value);
      Some(RegisterInput(Trim(b.name.value), email, b.password.value))
    else None
  }

  /** `LoginDto.parse`: the same email rule as registration and any non-empty password. */
  function ParseLogin(b: LoginBody): (r: Option<LoginInput>)
    ensures r.Some? <==>
      (b.email.Some? && EmailFormat(b.email.value) && b.password.Some? && |b.password.value| >= 1)
    ensures r.Some? ==> r.value.password == b.password.value
    ensures r.Some? ==> r.value.email == NormalEmail(b.email.value) && r.value.email == ToLower(b.email.value)
    ensures r.Some? ==> IsLower(r.value.email) && EmailFormat(r.value.email)
  {
    if b.email.Some? && EmailFormat(b.email.value) && b.password.Some? && |b.password.value| >= 1
    then
      var email := NormalEmail(b.email.value);
      NormalEmailShape(b.email.value);
      Some(LoginInput(email, b.password.value))
    else None
  }

  // ---------------------------------------------------------------------------

  /** A well-formed email stays well formed when normalised, becomes lowercase, and
      trimming it changes nothing, since it has no whitespace. */
  lemma NormalEmailShape(email: string)
    requires EmailFormat(email)
    ensures NormalEmail(email) == ToLower(email)
    ensures IsLower(NormalEmail(email)) && EmailFormat(NormalEmail(email))
  {
    NormalEmailOfNoSpace(email);
    LowerKeepsFormat(email);
  }

  /** Without whitespace, normalising is just lower-casing. */
  lemma NormalEmailOfNoSpace(email: string)
    requires NoSpace(email)
    ensures NormalEmail(email) == ToLower(email) && IsLower(NormalEmail(email))
  {
    ToLowerIsLower(email);
    ToLowerNoSpace(email);
    TrimNoSpace(ToLower(email));
  }

  /** Lower-casing moves no `@`, `.` or whitespace. */
  lemma LowerKeepsFormat(email: string)
    requires EmailFormat(email)
    ensures EmailFormat(ToLower(email))
  {
    var l := ToLower(email);
    ToLowerNoSpace(email);
    var i, j :| 1 <= i && i + 2 <= j && j + 2 <= |email| && email[i] == '@' && email[j] == '.';
    ToLowerAt(email, i);
    ToLowerAt(email, j);
    assert l[i] == '@' && l[j] == '.';
  }

  /** Registration and login normalise an email the same way, so a user who registered can
      log in with the address typed in any letter case. */
  lemma EmailCaseInsensitive(a: string, b: string)
    requires EmailFormat(a) && EmailFormat(b) && ToLower(a) == ToLower(b)
    ensures NormalEmail(a) == NormalEmail(b)
  {
    NormalEmailShape(a);
    NormalEmailShape(b);
  }

  /** Login has no upper bound on the password: one registration rejects as too long
      still passes the login schema. */
  lemma LongPasswordOnlyLogin(email: string, name: string, password: string)
    requires EmailFormat(email) && 2 <= |name| <= 50 && |password| > 100
    ensures ParseRegister(RegisterBody(Some(name), Some(email), Some(password))).None?
    ensures ParseLogin(LoginBody(Some(email), Some(password))).Some?
  {
  }
}
