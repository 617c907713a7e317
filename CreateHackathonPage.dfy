/** The organizer's form for a new hackathon and its client-side checks. */
module CreateHackathonPage {
  import opened Wrappers
  import opened Seqs
  import opened Record

  /** The form fields, as the text typed into them. */
  datatype Form = Form(title: string, description: string, startDate: string, endDate: string, prizePool: string)

  /** `new Date(text)` in milliseconds since the epoch: `None` is an invalid date. */
  type DateParser = string -> Option<int>

  const TITLE_REQUIRED := "Title is required"
  const DESCRIPTION_REQUIRED := "Description is required"
  const START_REQUIRED := "Start date is required"
  const END_REQUIRED := "End date is required"
  const PRIZE_REQUIRED := "Prize pool is required"
  const PRIZE_POSITIVE := "Prize pool must be a positive number"
  const START_FUTURE := "Start date must be in the future"
  const END_AFTER_START := "End date must be after start date"

  /** `startDate < now`: an invalid date compares false. */
  predicate StartsInPast(form: Form, now: int, date: DateParser) {
    date(form.startDate).Some? && date(form.startDate).value < now
  }

  /** `endDate <= startDate`: false when either date is invalid. */
  predicate EndsNoLaterThanStart(form: Form, date: DateParser) {
    date(form.startDate).Some? && date(form.endDate).Some? &&
    date(form.endDate).value <= date(form.startDate).value
  }

  /** `parseFloat(prize_pool) <= 0`: NaN compares false. */
  predicate PoolNotPositive(form: Form, float: FloatParser) {
    float(form.prizePool).Some? && float(form.prizePool).value <= 0.0
  }

  /** The first five checks of `validateForm`: the required fields and the
      sign of the prize pool. */
  method CheckFields(form: Form, float: FloatParser) returns (errors: map<string, string>)
    ensures errors.Keys <= {"title", "description", "start_date", "end_date", "prize_pool"}
    ensures ("title" in errors <==> form.title == "") && ("title" in errors ==> errors["title"] == TITLE_REQUIRED)
    ensures ("description" in errors <==> form.description == "")
    ensures "description" in errors ==> errors["description"] == DESCRIPTION_REQUIRED
    ensures ("start_date" in errors <==> form.startDate == "")
    ensures "start_date" in errors ==> errors["start_date"] == START_REQUIRED
    ensures ("end_date" in errors <==> form.endDate == "")
    ensures "end_date" in errors ==> errors["end_date"] == END_REQUIRED
    ensures "prize_pool" in errors <==> form.prizePool == "" || PoolNotPositive(form, float)
    ensures "prize_pool" in errors ==>
              errors["prize_pool"] == if form.prizePool == "" then PRIZE_REQUIRED else PRIZE_POSITIVE
  {
    errors := map[];
    if form.title == "" {
      errors := errors["title" := TITLE_REQUIRED];
    }
    if form.description == "" {
      errors := errors["description" := DESCRIPTION_REQUIRED];
    }
    if form.startDate == "" {
      errors := errors["start_date" := START_REQUIRED];
    }
    if form.endDate == "" {
      errors := errors["end_date" := END_REQUIRED];
    }
    if form.prizePool == "" {
      errors := errors["prize_pool" := PRIZE_REQUIRED];
    } else if PoolNotPositive(form, float) {
      errors := errors["prize_pool" := PRIZE_POSITIVE];
    }
  }

  /** `validateForm`, at the instant `now`. */
  method ValidateForm(form: Form, now: int, float: FloatParser, date: DateParser)
    returns (errors: map<string, string>, valid: bool)
    ensures errors.Keys <= {"title", "description", "start_date", "end_date", "prize_pool"}
    // Title and description are only required.
    ensures ("title" in errors <==> form.title == "") && ("title" in errors ==> errors["title"] == TITLE_REQUIRED)
    ensures ("description" in errors <==> form.description == "")
    ensures "description" in errors ==> errors["description"] == DESCRIPTION_REQUIRED
    // A missing prize pool is required; a present one is refused only when it parses to a number <= 0.
    ensures "prize_pool" in errors <==> form.prizePool == "" || PoolNotPositive(form, float)
    ensures "prize_pool" in errors ==>
              errors["prize_pool"] == if form.prizePool == "" then PRIZE_REQUIRED else PRIZE_POSITIVE
    ensures form.prizePool != "" && float(form.prizePool).None? ==> "prize_pool" !in errors
    // A start date must be present and not in the past; a date that does not parse passes.
    ensures "start_date" in errors <==> form.startDate == "" || StartsInPast(form, now, date)
    ensures "start_date" in errors ==>
              errors["start_date"] == if form.startDate == "" then START_REQUIRED else START_FUTURE
    // An end date must be present and, when a start date is, strictly after it.
    ensures "end_date" in errors <==>
              form.endDate == "" || (form.startDate != "" && EndsNoLaterThanStart(form, date))
    ensures "end_date" in errors ==>
              errors["end_date"] == if form.endDate == "" then END_REQUIRED else END_AFTER_START
    ensures (form.startDate != "" && form.endDate != "" && date(form.startDate).Some? &&
             date(form.startDate) == date(form.endDate)) ==> "end_date" in errors
    ensures valid <==> errors == map[]
  {
    errors := CheckFields(form, float);
    if form.startDate != "" && StartsInPast(form, now, date) {
      errors := errors["start_date" := START_FUTURE];
    }
    if form.startDate != "" && form.endDate != "" && EndsNoLaterThanStart(form, date) {
      errors := errors["end_date" := END_AFTER_START];
    }
    NoKeysIsEmpty(errors);
    valid := |errors| == 0;
  }
}
