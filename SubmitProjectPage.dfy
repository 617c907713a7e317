/** A participant's project submission: the active-status gate and the
    client-side checks of the form. */
module SubmitProjectPage {
  import opened Seqs
  import opened Wrappers
  import opened Record

  /** The form fields, as typed. */
  datatype Form = Form(idea: string, description: string, publicKey: string,
                       teammateNames: string, githubLink: string)

  const IDEA_REQUIRED := "Idea is required"
  const DESCRIPTION_REQUIRED := "Description is required"
  const PUBLIC_KEY_REQUIRED := "Public key is required"

  /** `status !== 'active'` is what sends the user away; a missing status does too. */
  predicate AcceptsSubmissions(h: Hackathon) {
    h.status == Some(ACTIVE)
  }

  /** `validateForm`. */
  method ValidateForm(form: Form) returns (errors: map<string, string>, valid: bool)
    ensures errors.Keys <= {"idea", "description", "public_key"}
    ensures ("idea" in errors <==> form.idea == "") && ("idea" in errors ==> errors["idea"] == IDEA_REQUIRED)
    ensures ("description" in errors <==> form.description == "")
    ensures "description" in errors ==> errors["description"] == DESCRIPTION_REQUIRED
    ensures ("public_key" in errors <==> form.publicKey == "")
    ensures "public_key" in errors ==> errors["public_key"] == PUBLIC_KEY_REQUIRED
    ensures valid <==> errors == map[]
    ensures valid <==> form.idea != "" && form.description != "" && form.publicKey != ""
  {
    errors := map[];
    if form.idea == "" {
      errors := errors["idea" := IDEA_REQUIRED];
    }
    if form.description == "" {
      errors := errors["description" := DESCRIPTION_REQUIRED];
    }
    if form.publicKey == "" {
      errors := errors["public_key" := PUBLIC_KEY_REQUIRED];
    }
    NoKeysIsEmpty(errors);
    valid := |errors| == 0;
  }

  /** The screen's state. */
  class SubmitPage {
    var hackathon: Option<Hackathon>
    var navigation: Option<Route>

    constructor ()
      ensures hackathon == None && navigation == None
    {
      hackathon := None;
      navigation := None;
    }

    /** `fetchHackathon`: without a token go to the login screen; a loaded
        hackathon that is not active sends the user to its details; a
        failed request to the listing. */
    method FetchHackathon(hasToken: bool, response: Response<Hackathon>)
      modifies this
      ensures !hasToken ==> hackathon == old(hackathon) && navigation == Some(LoginRoute)
      ensures hasToken && response.Ok? ==>
                hackathon == Some(response.body) &&
                navigation == if AcceptsSubmissions(response.body) then old(navigation) else Some(DetailsRoute)
      ensures hasToken && !response.Ok? ==> hackathon == old(hackathon) && navigation == Some(ListingRoute)
    {
      if !hasToken {
        navigation := Some(LoginRoute);
        return;
      }
      if response.Ok? {
        hackathon := Some(response.body);
        if !AcceptsSubmissions(response.body) {
          navigation := Some(DetailsRoute);
        }
      } else {
        navigation := Some(ListingRoute);
      }
    }

    /** `handleSubmit`: the form is posted exactly when it is valid. */
    method HandleSubmit(form: Form) returns (request: Option<Form>)
      ensures request.Some? <==> form.idea != "" && form.description != "" && form.publicKey != ""
      ensures request.Some? ==> request.value == form
    {
      var errors, valid := ValidateForm(form);
      request := if valid then Some(form) else None;
    }
  }
}
