/** How the screens' guards and updates relate to one another: the same
    record can be offered different actions on the card, on the details
    screen and in the submission table, because each tests a different
    field. */
module Consistency {
  import opened Wrappers
  import opened Record
  import Card = HackathonCard
  import Details = HackathonDetailsPage
  import Table = SubmissionTable
  import Workflow = SubmissionsPage
  import Listing = HackathonsPage
  import Organizer = OrganizerHackathonsPage
  import Submit = SubmitProjectPage

  /** The card offers Fund only before the end; the details screen and the
      table only after it. No record is offered Fund on the card and on
      either of the others. */
  lemma FundGuardsDisjoint(user: User, h: Hackathon, isOrganizer: bool)
    ensures Card.CanFund(h, isOrganizer) ==> !Details.CanFund(user, h) && !Table.ShowFund(h)
    ensures Details.CanFund(user, h) || Table.ShowFund(h) ==> !Card.CanFund(h, isOrganizer)
  {
  }

  /** A record marked manually ended whose stored status is still "active":
      the card and the table treat it as ended, the details screen as
      active, so it offers End there and never Fund, while the table
      offers Fund. */
  lemma ManuallyEndedButActive(user: User, h: Hackathon, isOrganizer: bool)
    requires h.manuallyEnded && h.status == Some(ACTIVE)
    ensures Card.ActualStatus(h) == Some(ENDED) && Card.BadgeClass(h) == "bg-danger"
    ensures Details.StatusBadgeClass(h) == "bg-success"
    ensures !Card.CanEnd(h, isOrganizer) && !Table.ShowEnd(h)
    ensures Details.ShowEnd(user, h) <==> Details.IsOrganizer(user, Some(h))
    ensures !Details.CanFund(user, h)
    ensures Table.ShowFund(h) <==> Falsy(h.fundedAmount) && !h.prizesDistributed
    ensures Submit.AcceptsSubmissions(h) && Card.StatusLabel(h) == "ENDED"
  {
  }

  /** The "Go to Details" button of the workflow screen is narrower than the
      table's Fund button: a missing or NaN amount gets Fund but no button. */
  lemma GoToDetailsNarrower(h: Hackathon)
    ensures Workflow.ShowGoToDetails(h) ==> Table.ShowFund(h)
    ensures h.manuallyEnded && !h.prizesDistributed && (h.fundedAmount == Absent || h.fundedAmount == NotANumber)
            ==> Table.ShowFund(h) && !Workflow.ShowGoToDetails(h)
  {
  }

  /** Winners stored as an array of records without keys: the workflow
      screen reports step 3 and would send the distribution, while the
      table selects nobody and hides its Distribute button. */
  lemma KeylessWinners(h: Hackathon, parse: Parser, t: string, items: seq<Option<string>>)
    requires !h.prizesDistributed && h.winners == Encoded(t) && t != ""
    requires parse(t) == Some(JArray(items)) && items != []
    requires forall i :: 0 <= i < |items| ==> items[i] == None
    ensures Workflow.StepOf(h, parse) == Returned(3)
    ensures Workflow.DistributeRefused(h.winners, parse) == Returned(false)
    ensures Table.InitializeWinners(h.winners, parse) == [] && !Table.ShowDistribute(h, parse)
  {
    Table.KeysNonePresent(items);
  }

  /** Winners stored as a non-empty JSON string: the same disagreement. */
  lemma StringWinners(h: Hackathon, parse: Parser, t: string, u: string)
    requires !h.prizesDistributed && h.winners == Encoded(t) && t != ""
    requires parse(t) == Some(JString(u)) && u != ""
    ensures Workflow.StepOf(h, parse) == Returned(3)
    ensures Workflow.DistributeRefused(h.winners, parse) == Returned(false)
    ensures Table.InitializeWinners(h.winners, parse) == [] && !Table.ShowDistribute(h, parse)
  {
  }

  /** The end patch, as the listing, the organizer screen and the details
      screen apply it (the submission table only posts and refreshes),
      leaves a record for which no screen offers End again and the card
      never offers Fund. The table then offers Fund for a falsy amount while
      prizes are not distributed, and the details screen offers it to the
      organizer for a falsy amount. */
  lemma EndIsFinal(user: User, h: Hackathon, isOrganizer: bool, now: int)
    ensures var r := Merge(h, EndPatch(now));
      && Card.ActualStatus(r) == Some(ENDED)
      && !Card.CanEnd(r, isOrganizer) && !Card.CanFund(r, isOrganizer)
      && !Table.ShowEnd(r) && !Details.ShowEnd(user, r)
      && (Table.ShowFund(r) <==> Falsy(h.fundedAmount) && !h.prizesDistributed)
      && (Details.CanFund(user, r) <==> Details.IsOrganizer(user, Some(h)) && Falsy(h.fundedAmount))
  {
  }

  /** The listing funds every entry with the card's id from the card's prize
      pool; the organizer screen funds each entry from its own. When ids are
      unique and the card is one of the entries, the two agree, and the
      listing shows the same records, active first. */
  lemma FundUpdatesAgree(s: seq<Hackathon>, card: Hackathon, now: int)
    requires card in s
    requires forall i, j :: 0 <= i < |s| && 0 <= j < |s| && s[i].id == s[j].id ==> i == j
    ensures UpdateWhere(s, card.id, Merged(FundPatch(card.prizePool, now)))
            == UpdateWhere(s, card.id, Organizer.FundOwnPool(now))
    ensures multiset(Listing.ActiveFirst(UpdateWhere(s, card.id, Merged(FundPatch(card.prizePool, now)))))
            == multiset(UpdateWhere(s, card.id, Organizer.FundOwnPool(now)))
  {
    var a := UpdateWhere(s, card.id, Merged(FundPatch(card.prizePool, now)));
    var b := UpdateWhere(s, card.id, Organizer.FundOwnPool(now));
    var k :| 0 <= k < |s| && s[k] == card;
    forall i | 0 <= i < |s| ensures a[i] == b[i] {
      if s[i].id == card.id {
        assert s[i] == card;
      }
    }
    assert a == b;
    Listing.ActiveFirstPermutes(a);
  }

  /** With two entries sharing an id, the listing gives both the prize pool
      of the card that was pressed. */
  lemma FundUpdatesDisagreeOnSharedId(h1: Hackathon, h2: Hackathon, now: int)
    requires h1.id == h2.id && h1.prizePool != h2.prizePool
    ensures UpdateWhere([h1, h2], h1.id, Merged(FundPatch(h1.prizePool, now)))
            != UpdateWhere([h1, h2], h1.id, Organizer.FundOwnPool(now))
  {
    var a := UpdateWhere([h1, h2], h1.id, Merged(FundPatch(h1.prizePool, now)));
    var b := UpdateWhere([h1, h2], h1.id, Organizer.FundOwnPool(now));
    assert a[1].fundedAmount == h1.prizePool && b[1].fundedAmount == h2.prizePool;
  }

  /** Whoever may submit on the details screen passes the submission screen's
      gate. */
  lemma SubmitGateAgrees(user: User, h: Hackathon, ps: seq<Participant>)
    ensures Details.CanSubmit(user, h, ps) ==> Submit.AcceptsSubmissions(h)
  {
  }
}
