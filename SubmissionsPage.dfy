/** The prize-distribution screen: the workflow step derived from the
    fetched record, the checklist, and the guard of its own Distribute
    handler. Every use of the `winners` field here goes through
    `JSON.parse(winners).length`, which can throw. */
module SubmissionsPage {
  import opened Wrappers
  import opened Record

  /** `winners && JSON.parse(winners).length > 0`. A missing or empty field
      is false; text that does not parse throws, and so does an
      already-decoded array (it is turned back into the text "" or
      "[object Object],...", neither of which is JSON) and JSON `null`
      (whose `.length` is a TypeError). A value without `length` compares
      false. */
  function WinnersListed(w: WinnersField, parse: Parser): Eval<bool> {
    match w
    case NoWinners => Returned(false)
    case Structured(_) => Thrown
    case Encoded(text) =>
      if text == "" then Returned(false)
      else match parse(text)
        case None => Thrown
        case Some(JArray(items)) => Returned(|items| > 0)
        case Some(JString(t)) => Returned(|t| > 0)
        case Some(JNull) => Thrown
        case Some(JOther) => Returned(false)
  }

  /** `!winners || JSON.parse(winners).length === 0`, the refusal in
      `handleDistributePrizes`. */
  function DistributeRefused(w: WinnersField, parse: Parser): Eval<bool> {
    match w
    case NoWinners => Returned(true)
    case Structured(_) => Thrown
    case Encoded(text) =>
      if text == "" then Returned(true)
      else match parse(text)
        case None => Thrown
        case Some(JArray(items)) => Returned(|items| == 0)
        case Some(JString(t)) => Returned(|t| == 0)
        case Some(JNull) => Thrown
        case Some(JOther) => Returned(false)
  }

  /** The step the if-chain of `fetchData` assigns for a fetched record, or
      `Thrown` when evaluating its winners test throws. */
  function StepOf(h: Hackathon, parse: Parser): Eval<int> {
    if h.prizesDistributed then Returned(4)
    else match WinnersListed(h.winners, parse)
      case Thrown => Thrown
      case Returned(listed) =>
        if listed then Returned(3)
        else if Positive(h.fundedAmount) then Returned(2)
        else if h.manuallyEnded then Returned(1)
        else Returned(0)
  }

  /** Checklist item "End Hackathon" is ticked. */
  predicate EndDone(h: Hackathon) { h.manuallyEnded }

  /** Checklist item "Fund Hackathon" is ticked. */
  predicate FundDone(h: Hackathon) { Positive(h.fundedAmount) }

  /** Checklist item "Select Winners" is ticked (rendering it may throw). */
  function WinnersDone(h: Hackathon, parse: Parser): Eval<bool> { WinnersListed(h.winners, parse) }

  /** Checklist item "Distribute Prizes" is ticked. */
  predicate DistributeDone(h: Hackathon) { h.prizesDistributed }

  /** The "Go to Details" button beside the funding item. */
  predicate ShowGoToDetails(h: Hackathon) {
    h.manuallyEnded && (h.fundedAmount == Null || h.fundedAmount == Num(0.0)) && !h.prizesDistributed
  }

  /** Step 4 exactly when prizes are distributed, whatever else holds. */
  lemma StepDistributed(h: Hackathon, parse: Parser)
    ensures h.prizesDistributed ==> StepOf(h, parse) == Returned(4)
    ensures StepOf(h, parse) == Returned(4) ==> h.prizesDistributed
  {
  }

  /** Otherwise step 3 whenever the winners test holds, funded or not; else
      2 when funded, 1 when only ended, 0 when not ended. The test throwing
      is the only way no step is computed. Every computed step is in 0..4. */
  lemma StepChain(h: Hackathon, parse: Parser)
    ensures !h.prizesDistributed && WinnersListed(h.winners, parse) == Returned(true) ==>
              StepOf(h, parse) == Returned(3)
    ensures !h.prizesDistributed && WinnersListed(h.winners, parse) == Returned(false) ==>
              StepOf(h, parse) == Returned(if Positive(h.fundedAmount) then 2 else if h.manuallyEnded then 1 else 0)
    ensures StepOf(h, parse).Thrown? <==> !h.prizesDistributed && WinnersListed(h.winners, parse).Thrown?
    ensures StepOf(h, parse).Returned? ==> 0 <= StepOf(h, parse).value <= 4
  {
  }

  /** Each step agrees with the checklist: 4 is "distributed" ticked, 3 has
      "Select Winners" ticked, 2 has "Fund" ticked, 1 has only "End" ticked
      and 0 has neither "End" nor "Fund" ticked. */
  lemma StepMatchesChecklist(h: Hackathon, parse: Parser)
    requires StepOf(h, parse).Returned?
    ensures var n := StepOf(h, parse).value;
            && (n == 4 <==> DistributeDone(h))
            && (n == 3 ==> WinnersDone(h, parse) == Returned(true))
            && (n == 2 ==> FundDone(h) && WinnersDone(h, parse) == Returned(false))
            && (n == 1 ==> EndDone(h) && !FundDone(h))
            && (n == 0 ==> !EndDone(h) && !FundDone(h))
  {
  }

  /** The Distribute handler is refused for a missing field and for an empty
      list, and throws exactly where the step derivation throws. A decoded
      value without `length` is neither listed nor refused, so the request
      is sent although no winner is known. */
  lemma DistributeGuard(w: WinnersField, parse: Parser)
    ensures w.NoWinners? ==> DistributeRefused(w, parse) == Returned(true)
    ensures w.Encoded? && w.text != "" && parse(w.text) == Some(JArray([])) ==>
              DistributeRefused(w, parse) == Returned(true)
    ensures DistributeRefused(w, parse).Thrown? <==> WinnersListed(w, parse).Thrown?
    ensures WinnersListed(w, parse) == Returned(true) ==> DistributeRefused(w, parse) == Returned(false)
    ensures w.Encoded? && w.text != "" && parse(w.text) == Some(JOther) ==>
              WinnersListed(w, parse) == Returned(false) && DistributeRefused(w, parse) == Returned(false)
  {
  }

  /** The screen's state. `parse` stands for `JSON.parse`. */
  class WorkflowPage {
    const parse: Parser
    var hackathon: Option<Hackathon>
    var submissions: seq<Submission>
    var step: int
    var navigation: Option<Route>
    var tokenCleared: bool

    /** The step shown is always one of the five the page knows. */
    ghost predicate Valid()
      reads this
    {
      0 <= step <= 4
    }

    constructor (parse: Parser)
      ensures Valid() && this.parse == parse
      ensures hackathon == None && submissions == [] && step == 1
      ensures navigation == None && !tokenCleared
    {
      this.parse := parse;
      hackathon := None;
      submissions := [];
      step := 1;
      navigation := None;
      tokenCleared := false;
    }

    /** `fetchData`, given whether a token is stored and the two responses.
        The record is stored before the step is derived, so a winners test
        that throws leaves the new record with the old step and sends the
        screen to the listing. A 403 clears the token and goes to login. */
    method FetchData(hasToken: bool, record: Response<Hackathon>, list: Response<seq<Submission>>)
      requires Valid()
      modifies this
      ensures Valid()
      ensures !hasToken ==>
                navigation == Some(LoginRoute) && hackathon == old(hackathon) &&
                step == old(step) && submissions == old(submissions) && tokenCleared == old(tokenCleared)
      ensures hasToken && record.Forbidden? ==>
                navigation == Some(LoginRoute) && tokenCleared &&
                hackathon == old(hackathon) && step == old(step) && submissions == old(submissions)
      ensures hasToken && record.Failed? ==>
                navigation == Some(ListingRoute) && tokenCleared == old(tokenCleared) &&
                hackathon == old(hackathon) && step == old(step) && submissions == old(submissions)
      ensures hasToken && record.Ok? ==> hackathon == Some(record.body)
      ensures hasToken && record.Ok? && StepOf(record.body, parse).Thrown? ==>
                step == old(step) && navigation == Some(ListingRoute) &&
                submissions == old(submissions) && tokenCleared == old(tokenCleared)
      ensures hasToken && record.Ok? && StepOf(record.body, parse).Returned? ==>
                && step == StepOf(record.body, parse).value
                && submissions == (if list.Ok? then list.body else old(submissions))
                && navigation == (match list
                                  case Ok(_) => old(navigation)
                                  case Forbidden => Some(LoginRoute)
                                  case Failed => Some(ListingRoute))
                && tokenCleared == (list.Forbidden? || old(tokenCleared))
    {
      if !hasToken {
        navigation := Some(LoginRoute);
        return;
      }
      match record
      case Forbidden =>
        tokenCleared := true;
        navigation := Some(LoginRoute);
        return;
      case Failed =>
        navigation := Some(ListingRoute);
        return;
      case Ok(h) =>
        hackathon := Some(h);
        if h.prizesDistributed {
          step := 4;
        } else {
          var listed := WinnersListed(h.winners, parse);
          if listed.Thrown? {
            navigation := Some(ListingRoute);
            return;
          } else if listed.value {
            step := 3;
          } else if Positive(h.fundedAmount) {
            step := 2;
          } else if h.manuallyEnded {
            step := 1;
          } else {
            step := 0;
          }
        }
        match list
        case Forbidden =>
          tokenCleared := true;
          navigation := Some(LoginRoute);
        case Failed =>
          navigation := Some(ListingRoute);
        case Ok(subs) =>
          submissions := subs;
    }

    /** `handleDistributePrizes`: `Returned(true)` when the request is sent,
        `Returned(false)` when it is refused, `Thrown` when the guard throws
        (reading `winners` of a record not loaded yet, or the parse). */
    method DistributePrizes() returns (outcome: Eval<bool>)
      ensures hackathon.None? ==> outcome.Thrown?
      ensures hackathon.Some? ==>
                outcome == match DistributeRefused(hackathon.value.winners, parse)
                           case Thrown => Thrown
                           case Returned(refused) => Returned(!refused)
    {
      if hackathon.None? {
        return Thrown;
      }
      var refused := DistributeRefused(hackathon.value.winners, parse);
      if refused.Thrown? {
        return Thrown;
      }
      outcome := Returned(!refused.value);
    }
  }
}
