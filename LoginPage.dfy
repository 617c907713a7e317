/** The login form: the same email and password checks as sign-up, and the
    trimming of both fields before they are sent. */
module LoginPage {
  import opened Seqs
  import opened Wrappers
  import opened JsText
  import opened SignupPage

  /** `validateForm`. */
  method ValidateForm(email: string, password: string) returns (errors: map<string, string>, valid: bool)
    ensures errors.Keys <= {"email", "password"}
    ensures "email" in errors <==> !MatchesEmailPattern(email)
    ensures "email" in errors ==> errors["email"] == if email == "" then EMAIL_REQUIRED else EMAIL_INVALID
    ensures "password" in errors <==> |password| < 6
    ensures "password" in errors ==>
              errors["password"] == if password == "" then PASSWORD_REQUIRED else PASSWORD_SHORT
    ensures valid <==> errors == map[]
    ensures valid <==> MatchesEmailPattern(email) && |password| >= 6
  {
    EmptyEmailDoesNotMatch();
    errors := map[];
    if email == "" {
      errors := errors["email" := EMAIL_REQUIRED];
    } else if !MatchesEmailPattern(email) {
      errors := errors["email" := EMAIL_INVALID];
    }
    if password == "" {
      errors := errors["password" := PASSWORD_REQUIRED];
    } else if |password| < 6 {
      errors := errors["password" := PASSWORD_SHORT];
    }
    NoKeysIsEmpty(errors);
    valid := |errors| == 0;
  }

  /** `cleanFormData`: each field is trimmed of its own white space, so the
      order of the fields is kept and cleaning twice cleans once. */
  function CleanFormData(email: string, password: string): (r: (string, string))
    ensures r.0 == Trim(email) && r.1 == Trim(password)
    ensures |r.0| <= |email| && |r.1| <= |password|
    ensures r.0 == Trim(r.0) && r.1 == Trim(r.1)
  {
    TrimIdempotent(email);
    TrimIdempotent(password);
    (Trim(email), Trim(password))
  }

  /** `handleSubmit`: a valid form is sent with both fields trimmed. */
  method HandleSubmit(email: string, password: string) returns (request: Option<(string, string)>)
    ensures request.Some? <==> MatchesEmailPattern(email) && |password| >= 6
    ensures request.Some? ==> request.value == (Trim(email), Trim(password))
  {
    var errors, valid := ValidateForm(email, password);
    request := if valid then Some(CleanFormData(email, password)) else None;
  }

  /** Validation looks at the text before trimming: a password of six or
      more white-space characters passes the length check and is sent as
      the empty password. */
  lemma SpacesPassword(email: string, password: string)
    requires |password| >= 6 && forall k :: 0 <= k < |password| ==> IsSpace(password[k])
    ensures password != "" && CleanFormData(email, password).1 == ""
  {
    TrimAllSpace(password);
  }

  /** A matching email padded with white space passes too, and is sent
      without the padding. */
  lemma PaddedEmail(c: char, email: string, d: char)
    requires IsSpace(c) && IsSpace(d) && MatchesEmailPattern(email)
    requires !IsSpace(email[0]) && !IsSpace(email[|email| - 1])
    ensures MatchesEmailPattern([c] + email + [d])
    ensures CleanFormData([c] + email + [d], "").0 == email
  {
    MatchPadded(c, email, d);
    TrimPadded(c, email, d);
  }
}
