/** The hackathon details screen: who may do what, the funding prompt, the
    record updates after end and fund, joining and withdrawing, and the
    remaining-time text. */
module HackathonDetailsPage {
  import opened Wrappers
  import opened Seqs
  import opened Record

  /** `isOrganizer`: an organizer whose id equals the record's organizer id
      (`===`, so two missing ids are equal too). */
  predicate IsOrganizer(user: User, h: Option<Hackathon>) {
    user.role == Some("organizer") && h.Some? && user.id == h.value.organizerId
  }

  /** `isParticipant`: some participant entry carries the user's id. */
  predicate IsParticipant(ps: seq<Participant>, user: User) {
    exists i :: 0 <= i < |ps| && ps[i].id == user.id
  }

  /** `canSubmit`. */
  predicate CanSubmit(user: User, h: Hackathon, ps: seq<Participant>) {
    !IsOrganizer(user, Some(h)) && IsParticipant(ps, user) && h.status == Some(ACTIVE)
  }

  /** `canFund`: the stored status must be "ended" and the amount falsy. */
  predicate CanFund(user: User, h: Hackathon) {
    IsOrganizer(user, Some(h)) && h.status == Some(ENDED) && Falsy(h.fundedAmount)
  }

  /** The End button of the organizer actions (lines 343, 348). */
  predicate ShowEnd(user: User, h: Hackathon) {
    IsOrganizer(user, Some(h)) && h.status == Some(ACTIVE)
  }

  /** The organizer never gets Submit, and End and Fund are never offered
      together; Fund needs the stored status "ended", not `manually_ended`. */
  lemma GuardsExclusive(user: User, h: Hackathon, ps: seq<Participant>)
    ensures IsOrganizer(user, Some(h)) ==> !CanSubmit(user, h, ps)
    ensures !(ShowEnd(user, h) && CanFund(user, h))
    ensures CanSubmit(user, h, ps) ==> h.status == Some(ACTIVE) && exists i :: 0 <= i < |ps| && ps[i].id == user.id
    ensures CanFund(user, h) <==>
              user.role == Some("organizer") && user.id == h.organizerId &&
              h.status == Some(ENDED) && (h.fundedAmount != Num(0.0) ==> !h.fundedAmount.Num?)
  {
  }

  /** `amount` after `parseFloat`, as stored in the record. */
  function FloatAmount(parsed: Option<real>): (r: Amount)
    ensures r.Num? <==> parsed.Some?
    ensures parsed.Some? ==> r.value == parsed.value
  {
    if parsed.Some? then Num(parsed.value) else NotANumber
  }

  /** The record after a successful end: status "ended", manually ended at
      `now`, every other field as before. The page then offers neither End
      nor a remaining time, and offers Fund exactly when the amount is falsy. */
  lemma AfterEnd(user: User, h: Hackathon, now: int)
    ensures var r := Merge(h, EndPatch(now));
            && r.status == Some(ENDED) && r.manuallyEnded && r.manuallyEndedAt == Some(now)
            && r.id == h.id && r.organizerId == h.organizerId && r.fundedAmount == h.fundedAmount
            && r.fundedAt == h.fundedAt && r.prizePool == h.prizePool && r.winners == h.winners
            && r.prizesDistributed == h.prizesDistributed && r.endDate == h.endDate
            && !ShowEnd(user, r) && GetTimeStatus(r, now) == HasEnded
            && (CanFund(user, r) <==> IsOrganizer(user, Some(h)) && Falsy(h.fundedAmount))
  {
  }

  /** The record after a successful fund: the amount and funding time are
      set, every other field is as before, and a positive amount ends the
      Fund offer. */
  lemma AfterFund(user: User, h: Hackathon, amount: Amount, now: int)
    ensures var r := Merge(h, FundPatch(amount, now));
            && r.fundedAmount == amount && r.fundedAt == Some(now)
            && r.id == h.id && r.organizerId == h.organizerId && r.status == h.status
            && r.manuallyEnded == h.manuallyEnded && r.manuallyEndedAt == h.manuallyEndedAt
            && r.prizePool == h.prizePool && r.winners == h.winners
            && r.prizesDistributed == h.prizesDistributed && r.endDate == h.endDate
            && (Positive(amount) ==> !CanFund(user, r))
  {
  }

  /** `p => p.id !== id`. */
  function NotUser(id: Option<Id>): Participant -> bool {
    (p: Participant) => p.id != id
  }

  /** Withdrawing removes every entry with the user's id, keeps every other
      entry as often as before and in the same order (whatever is kept from
      a prefix comes before whatever is kept from the rest), and the user is
      no longer a participant. */
  lemma WithdrawRemoves(ps: seq<Participant>, user: User)
    ensures var r := Filter(NotUser(user.id), ps);
            && !IsParticipant(r, user)
            && (forall p: Participant :: p.id != user.id ==> multiset(r)[p] == multiset(ps)[p])
            && forall i :: 0 <= i <= |ps| ==>
                 r == Filter(NotUser(user.id), ps[..i]) + Filter(NotUser(user.id), ps[i..])
  {
    var r := Filter(NotUser(user.id), ps);
    forall p: Participant | p.id != user.id ensures multiset(r)[p] == multiset(ps)[p] {
      FilterCount(NotUser(user.id), ps, p);
    }
    forall i | 0 <= i <= |ps|
      ensures r == Filter(NotUser(user.id), ps[..i]) + Filter(NotUser(user.id), ps[i..])
    {
      assert ps == ps[..i] + ps[i..];
      FilterAppend(NotUser(user.id), ps[..i], ps[i..]);
    }
  }

  /** Joining makes the user a participant, and withdrawing right after a
      join by a non-participant gives back the original list. */
  lemma {:induction false} JoinThenWithdraw(ps: seq<Participant>, user: User)
    requires !IsParticipant(ps, user)
    ensures IsParticipant(ps + [Participant(user.id, user.email)], user)
    ensures Filter(NotUser(user.id), ps + [Participant(user.id, user.email)]) == ps
  {
    var p := Participant(user.id, user.email);
    assert (ps + [p])[|ps|] == p;
    FilterAppend(NotUser(user.id), ps, [p]);
    FilterKeepsAll(NotUser(user.id), ps);
  }

  const HOUR_MS := 3600000
  const DAY_MS := 86400000

  /** What `getTimeStatus` reports. */
  datatype TimeStatus = HasEnded | TimeUp | Remaining(days: int, hours: int)

  /** `getTimeStatus` at time `now`: ended only for the stored status
      "ended" (`manually_ended` is not consulted), "time is up" after the
      end date, otherwise the whole days left and the whole hours left over. */
  function GetTimeStatus(h: Hackathon, now: int): (r: TimeStatus)
    ensures r == HasEnded <==> h.status == Some(ENDED)
    ensures r == TimeUp <==> h.status != Some(ENDED) && now > h.endDate
    ensures r.Remaining? ==>
              && 0 <= r.days && 0 <= r.hours <= 23
              && r.days * DAY_MS + r.hours * HOUR_MS <= h.endDate - now
              && h.endDate - now < r.days * DAY_MS + (r.hours + 1) * HOUR_MS
  {
    if h.status == Some(ENDED) then HasEnded
    else if now > h.endDate then TimeUp
    else
      var ms := h.endDate - now;
      var days := ms / DAY_MS;
      var hours := (ms % DAY_MS) / HOUR_MS;
      assert ms == days * DAY_MS + ms % DAY_MS;
      assert ms % DAY_MS == hours * HOUR_MS + (ms % DAY_MS) % HOUR_MS;
      Remaining(days, hours)
  }

  /** A record ended by hand whose stored status is still "active" is not
      reported as ended. */
  lemma TimeStatusIgnoresManualEnd(h: Hackathon, now: int)
    requires h.manuallyEnded && h.status == Some(ACTIVE) && now <= h.endDate
    ensures GetTimeStatus(h, now).Remaining?
  {
  }

  /** `getStatusBadgeClass`, on the stored status. */
  function StatusBadgeClass(h: Hackathon): string {
    match h.status
    case Some("active") => "bg-success"
    case Some("ended") => "bg-danger"
    case Some("upcoming") => "bg-warning"
    case _ => "bg-secondary"
  }

  /** Green for "active", red for "ended", yellow for "upcoming", grey for
      any other or a missing status. The badge reads the stored status only,
      so a record ended by hand while still "active" stays green. */
  lemma StatusBadgeClassCases(h: Hackathon)
    ensures StatusBadgeClass(h) == "bg-success" <==> h.status == Some(ACTIVE)
    ensures StatusBadgeClass(h) == "bg-danger" <==> h.status == Some(ENDED)
    ensures StatusBadgeClass(h) == "bg-warning" <==> h.status == Some("upcoming")
    ensures StatusBadgeClass(h) == "bg-secondary" <==>
              h.status != Some(ACTIVE) && h.status != Some(ENDED) && h.status != Some("upcoming")
    ensures StatusBadgeClass(h) != "bg-danger" ==> GetTimeStatus(h, h.endDate) != HasEnded
  {
  }

  /** The "Funded Amount" block, rendered when `funded_amount` is truthy. */
  predicate ShowsFundedAmount(h: Hackathon) {
    !Falsy(h.fundedAmount)
  }

  /** The block shows for every non-zero number, a negative one included,
      and for nothing else; it never shows beside the Fund button. */
  lemma FundedAmountShown(user: User, h: Hackathon)
    ensures ShowsFundedAmount(h) <==> h.fundedAmount.Num? && h.fundedAmount.value != 0.0
    ensures Positive(h.fundedAmount) ==> ShowsFundedAmount(h)
    ensures ShowsFundedAmount(h) ==> !CanFund(user, h)
    ensures h.fundedAmount in {Absent, Null, NotANumber, Num(0.0)} ==> !ShowsFundedAmount(h)
  {
  }

  /** The participant card: a Join button, or a Withdraw button with or
      without the Submit Project link. */
  datatype ParticipantAction = JoinButton | WithdrawButton(submitLink: bool)

  /** The "Participant Actions" card (lines 407-432): absent for the
      organizer and for a record whose stored status is not "active"
      (`user` is always an object, line 14). */
  function ParticipantActions(user: User, h: Hackathon, ps: seq<Participant>): (r: Option<ParticipantAction>)
    ensures r.Some? <==> !IsOrganizer(user, Some(h)) && h.status == Some(ACTIVE)
    ensures r == Some(JoinButton) <==>
              !IsOrganizer(user, Some(h)) && h.status == Some(ACTIVE) && !IsParticipant(ps, user)
    ensures r == Some(WithdrawButton(true)) <==> CanSubmit(user, h, ps)
    ensures r != Some(WithdrawButton(false))
  {
    if IsOrganizer(user, Some(h)) || h.status != Some(ACTIVE) then None
    else if IsParticipant(ps, user) then Some(WithdrawButton(CanSubmit(user, h, ps)))
    else Some(JoinButton)
  }

  /** Join is offered only to a user not yet listed, so joining and then
      withdrawing from the card restores the participant list, and the
      card then offers Withdraw with the Submit Project link. */
  lemma OfferedJoinRoundTrip(user: User, h: Hackathon, ps: seq<Participant>)
    requires ParticipantActions(user, h, ps) == Some(JoinButton)
    ensures var joined := ps + [Participant(user.id, user.email)];
            && ParticipantActions(user, h, joined) == Some(WithdrawButton(true))
            && Filter(NotUser(user.id), joined) == ps
  {
    JoinThenWithdraw(ps, user);
  }

  /** The screen's state. `user` is what local storage holds (possibly `{}`). */
  class DetailsPage {
    const user: User
    var hackathon: Option<Hackathon>
    var participants: seq<Participant>
    var submissions: seq<Submission>
    var navigation: Option<Route>

    constructor (user: User)
      ensures this.user == user && hackathon == None && participants == []
      ensures submissions == [] && navigation == None
    {
      this.user := user;
      hackathon := None;
      participants := [];
      submissions := [];
      navigation := None;
    }

    /** `fetchData`: the three requests succeed together (`Promise.all`) or
        the screen goes back to the listing; without a token it goes to login. */
    method FetchData(hasToken: bool, responses: Option<(Hackathon, seq<Participant>, seq<Submission>)>)
      modifies this
      ensures !hasToken ==> navigation == Some(LoginRoute)
      ensures hasToken && responses.None? ==> navigation == Some(ListingRoute)
      ensures hasToken && responses.Some? ==>
                && hackathon == Some(responses.value.0) && participants == responses.value.1
                && submissions == responses.value.2 && navigation == old(navigation)
      ensures !(hasToken && responses.Some?) ==>
                hackathon == old(hackathon) && participants == old(participants) && submissions == old(submissions)
    {
      if !hasToken {
        navigation := Some(LoginRoute);
        return;
      }
      if responses.None? {
        navigation := Some(ListingRoute);
        return;
      }
      var (h, ps, ss) := responses.value;
      hackathon := Some(h);
      participants := ps;
      submissions := ss;
    }

    /** `handleJoin`: on success the user is appended to the participants. */
    method Join(joined: bool)
      modifies this
      ensures participants == if joined then old(participants) + [Participant(user.id, user.email)]
                              else old(participants)
      ensures hackathon == old(hackathon) && submissions == old(submissions) && navigation == old(navigation)
    {
      if joined {
        participants := participants + [Participant(user.id, user.email)];
      }
    }

    /** `handleWithdraw`: on success every entry with the user's id is removed. */
    method Withdraw(withdrawn: bool)
      modifies this
      ensures participants == if withdrawn then Filter(NotUser(user.id), old(participants))
                              else old(participants)
      ensures withdrawn ==> !IsParticipant(participants, user)
      ensures hackathon == old(hackathon) && submissions == old(submissions) && navigation == old(navigation)
    {
      if withdrawn {
        WithdrawRemoves(participants, user);
        participants := Filter(NotUser(user.id), participants);
      }
    }

    /** `handleEndHackathon` up to its refresh: with a token and a successful
        request the record is marked ended at `now`. The buttons that call
        it are rendered only once the record is loaded. */
    method EndHackathon(hasToken: bool, posted: bool, now: int)
      requires hackathon.Some?
      modifies this
      ensures hackathon == if hasToken && posted then Some(Merge(old(hackathon).value, EndPatch(now)))
                           else old(hackathon)
      ensures participants == old(participants) && submissions == old(submissions) && navigation == old(navigation)
    {
      if !hasToken {
        return;
      }
      if posted {
        hackathon := Some(Merge(hackathon.value, EndPatch(now)));
      }
    }

    /** `handleFundHackathon` up to its refresh: the prompt's text (`input`)
        is sent only with a token and when it is a positive `Number`; after
        a successful request the record's amount is its `parseFloat`. */
    method FundHackathon(hasToken: bool, input: Option<string>, number: NumberParser,
                         parseFloat: FloatParser, posted: bool, now: int)
      returns (request: Option<string>)
      requires hackathon.Some?
      modifies this
      ensures request.Some? <==> hasToken && AcceptsAmount(input, number)
      ensures request.Some? ==> request == input
      ensures hackathon == if request.Some? && posted
                           then Some(Merge(old(hackathon).value, FundPatch(FloatAmount(parseFloat(input.value)), now)))
                           else old(hackathon)
      ensures participants == old(participants) && submissions == old(submissions) && navigation == old(navigation)
    {
      if !hasToken {
        return None;
      }
      if input.None? || input.value == "" || number(input.value).None? || number(input.value).value <= 0.0 {
        return None;
      }
      request := input;
      if posted {
        hackathon := Some(Merge(hackathon.value, FundPatch(FloatAmount(parseFloat(input.value)), now)));
      }
    }
  }
}
