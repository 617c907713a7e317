/** The hackathon card shown in the listings: its effective status, which
    organizer actions it offers, and its status label. */
module HackathonCard {
  import opened Wrappers
  import opened Record
  import JsText

  /** `actualStatus`: a manually ended hackathon counts as ended whatever its
      stored status says. */
  function ActualStatus(h: Hackathon): (r: Option<string>)
    ensures r == Some(ACTIVE) <==> !h.manuallyEnded && h.status == Some(ACTIVE)
    ensures r == Some(ENDED) <==> h.manuallyEnded || h.status == Some(ENDED)
    ensures r.None? <==> !h.manuallyEnded && h.status.None?
  {
    if h.manuallyEnded then Some(ENDED) else h.status
  }

  /** `canFund`: `funded_amount === 0` is strict, so only the number 0 passes. */
  predicate CanFund(h: Hackathon, isOrganizer: bool) {
    isOrganizer && ActualStatus(h) == Some(ACTIVE) && h.fundedAmount == Num(0.0)
  }

  /** `canEnd`. */
  predicate CanEnd(h: Hackathon, isOrganizer: bool) {
    isOrganizer && ActualStatus(h) == Some(ACTIVE) && !h.manuallyEnded
  }

  /** The badge text. */
  function StatusLabel(h: Hackathon): string {
    if h.manuallyEnded then "ENDED"
    else match ActualStatus(h)
      case None => "UNKNOWN"
      case Some(s) => if s == "" then "UNKNOWN" else JsText.ToUpper(s)
  }

  /** The badge colour class (line 25). */
  function BadgeClass(h: Hackathon): string {
    if ActualStatus(h) == Some(ACTIVE) then "bg-success"
    else if ActualStatus(h) == Some(ENDED) then "bg-danger"
    else "bg-secondary"
  }

  /** The "Funded" line is rendered (line 30). */
  predicate ShowsFunded(h: Hackathon) {
    Positive(h.fundedAmount)
  }

  /** Fund is offered exactly to the organizer of an active, not manually
      ended record whose amount is the number 0; a missing, null or NaN
      amount blocks it. */
  lemma CanFundCases(h: Hackathon, isOrganizer: bool)
    ensures CanFund(h, isOrganizer) <==>
              isOrganizer && !h.manuallyEnded && h.status == Some(ACTIVE) && h.fundedAmount == Num(0.0)
    ensures h.fundedAmount in {Absent, Null, NotANumber} ==> !CanFund(h, isOrganizer)
  {
  }

  /** End is offered exactly to the organizer of an active, not manually
      ended record (the `!manually_ended` test is implied by the status
      test), so a manually ended record offers neither action, and
      nothing is offered to anyone but the organizer. */
  lemma CanEndCases(h: Hackathon, isOrganizer: bool)
    ensures CanEnd(h, isOrganizer) <==> isOrganizer && !h.manuallyEnded && h.status == Some(ACTIVE)
    ensures h.manuallyEnded ==> !CanFund(h, isOrganizer) && !CanEnd(h, isOrganizer)
    ensures !isOrganizer ==> !CanFund(h, isOrganizer) && !CanEnd(h, isOrganizer)
    ensures CanFund(h, isOrganizer) ==> CanEnd(h, isOrganizer)
  {
  }

  /** The label is "ENDED" for a manually ended record, "UNKNOWN" for a
      missing or empty status, and otherwise the status upper-cased letter
      by letter. The Fund button and the "Funded" line never show together. */
  lemma StatusLabelCases(h: Hackathon, isOrganizer: bool)
    ensures h.manuallyEnded ==> StatusLabel(h) == "ENDED"
    ensures !h.manuallyEnded && (h.status == None || h.status == Some("")) ==> StatusLabel(h) == "UNKNOWN"
    ensures !h.manuallyEnded && h.status.Some? && h.status.value != "" ==>
              |StatusLabel(h)| == |h.status.value| &&
              forall i :: 0 <= i < |h.status.value| ==> StatusLabel(h)[i] == JsText.UpperChar(h.status.value[i])
    ensures ShowsFunded(h) ==> !CanFund(h, isOrganizer)
  {
  }

  /** The badge is green for an effectively active record, red for an
      effectively ended one (a manual end included), grey for anything else,
      a missing status among them. Green badges are the only ones that can
      carry the organizer actions. */
  lemma BadgeClassCases(h: Hackathon, isOrganizer: bool)
    ensures BadgeClass(h) == "bg-success" <==> !h.manuallyEnded && h.status == Some(ACTIVE)
    ensures BadgeClass(h) == "bg-danger" <==> h.manuallyEnded || h.status == Some(ENDED)
    ensures BadgeClass(h) == "bg-secondary" <==>
              !h.manuallyEnded && h.status != Some(ACTIVE) && h.status != Some(ENDED)
    ensures CanFund(h, isOrganizer) || CanEnd(h, isOrganizer) ==> BadgeClass(h) == "bg-success"
  {
  }
}
