/** The sign-up form and its client-side checks. The email and password
    checks are shared with the login form. */
module SignupPage {
  import opened Seqs
  import opened JsText

  const EMAIL_REQUIRED := "Email is required"
  const EMAIL_INVALID := "Email is invalid"
  const PASSWORD_REQUIRED := "Password is required"
  const PASSWORD_SHORT := "Password must be at least 6 characters"
  const ROLE_INVALID := "Invalid role"

  /** The role the form starts with. */
  const DEFAULT_ROLE := "user"

  /** The roles a new account may take. */
  predicate KnownRole(role: string) {
    role == "user" || role == "organizer"
  }

  /** The empty text never contains the pattern, so requiring an email is
      part of the pattern check; the message tells the two apart. */
  lemma EmptyEmailDoesNotMatch()
    ensures !MatchesEmailPattern("")
  {
  }

  /** `validateForm`. */
  method ValidateForm(email: string, password: string, role: string)
    returns (errors: map<string, string>, valid: bool)
    ensures errors.Keys <= {"email", "password", "role"}
    ensures "email" in errors <==> !MatchesEmailPattern(email)
    ensures "email" in errors ==> errors["email"] == if email == "" then EMAIL_REQUIRED else EMAIL_INVALID
    ensures "password" in errors <==> |password| < 6
    ensures "password" in errors ==>
              errors["password"] == if password == "" then PASSWORD_REQUIRED else PASSWORD_SHORT
    ensures ("role" in errors <==> !KnownRole(role)) && ("role" in errors ==> errors["role"] == ROLE_INVALID)
    ensures valid <==> errors == map[]
    ensures valid <==> MatchesEmailPattern(email) && |password| >= 6 && KnownRole(role)
  {
    EmptyEmailDoesNotMatch();
    errors := map[];
    if email == "" {
      errors := errors["email" := EMAIL_REQUIRED];
    } else if !MatchesEmailPattern(email) {
      errors := errors["email" := EMAIL_INVALID];
    }
    if password == "" {
      errors := errors["password" := PASSWORD_REQUIRED];
    } else if |password| < 6 {
      errors := errors["password" := PASSWORD_SHORT];
    }
    if !KnownRole(role) {
      errors := errors["role" := ROLE_INVALID];
    }
    NoKeysIsEmpty(errors);
    valid := |errors| == 0;
  }

  /** The form as first shown, once an email and password are filled in
      correctly, needs no other change: the default role passes. */
  lemma DefaultRolePasses()
    ensures KnownRole(DEFAULT_ROLE)
    ensures !KnownRole("admin") && !KnownRole("")
  {
  }
}
