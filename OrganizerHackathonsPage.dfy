/** The organizer's own hackathons: fetched as they come, and updated in
    place by the cards' Fund and End buttons, without re-sorting. */
module OrganizerHackathonsPage {
  import opened Wrappers
  import opened Record

  /** `h => ({ ...h, funded_amount: h.prize_pool, funded_at: now })`: each
      matching entry is funded with its own prize pool. */
  function FundOwnPool(now: int): Hackathon -> Hackathon {
    (h: Hackathon) => Merge(h, FundPatch(h.prizePool, now))
  }

  /** Funding touches only the entries with the id: their funded amount
      becomes their own prize pool and their funding time `now`. The list
      keeps its length, its order and its ids. */
  lemma FundEffect(s: seq<Hackathon>, id: Id, now: int)
    ensures var r := UpdateWhere(s, id, FundOwnPool(now));
      && |r| == |s|
      && (forall i :: 0 <= i < |s| ==> r[i].id == s[i].id && r[i].prizePool == s[i].prizePool)
      && (forall i :: 0 <= i < |s| && s[i].id != id ==> r[i] == s[i])
      && (forall i :: 0 <= i < |s| && s[i].id == id ==>
            r[i] == s[i].(fundedAmount := s[i].prizePool, fundedAt := Some(now)))
  {
  }

  /** Ending touches only the entries with the id: they become ended,
      manually ended at `now`, and keep everything else. */
  lemma EndEffect(s: seq<Hackathon>, id: Id, now: int)
    ensures var r := UpdateWhere(s, id, Merged(EndPatch(now)));
      && |r| == |s|
      && (forall i :: 0 <= i < |s| && s[i].id != id ==> r[i] == s[i])
      && (forall i :: 0 <= i < |s| && s[i].id == id ==>
            r[i] == s[i].(status := Some(ENDED), manuallyEnded := true, manuallyEndedAt := Some(now)))
  {
  }

  /** Pressing Fund or End twice at the same instant is pressing it once. */
  lemma {:induction false} UpdatesIdempotent(s: seq<Hackathon>, id: Id, now: int)
    ensures UpdateWhere(UpdateWhere(s, id, FundOwnPool(now)), id, FundOwnPool(now))
              == UpdateWhere(s, id, FundOwnPool(now))
    ensures UpdateWhere(UpdateWhere(s, id, Merged(EndPatch(now))), id, Merged(EndPatch(now)))
              == UpdateWhere(s, id, Merged(EndPatch(now)))
  {
    var f, e := FundOwnPool(now), Merged(EndPatch(now));
    var r1, r2 := UpdateWhere(UpdateWhere(s, id, f), id, f), UpdateWhere(s, id, f);
    assert |r1| == |r2|;
    forall i | 0 <= i < |r1| ensures r1[i] == r2[i] {
      MergeIdempotent(s[i], FundPatch(s[i].prizePool, now));
    }
    var t1, t2 := UpdateWhere(UpdateWhere(s, id, e), id, e), UpdateWhere(s, id, e);
    assert |t1| == |t2|;
    forall i | 0 <= i < |t1| ensures t1[i] == t2[i] {
      MergeIdempotent(s[i], EndPatch(now));
    }
  }

  /** The screen's state. */
  class OrganizerPage {
    var hackathons: seq<Hackathon>
    var navigation: Option<Route>

    constructor ()
      ensures hackathons == [] && navigation == None
    {
      hackathons := [];
      navigation := None;
    }

    /** `fetchHackathons`: without a token, go to the login screen; on
        success show the response as it is; on any failure go back to the
        public listing. */
    method FetchHackathons(hasToken: bool, response: Response<seq<Hackathon>>)
      modifies this
      ensures !hasToken ==> hackathons == old(hackathons) && navigation == Some(LoginRoute)
      ensures hasToken && response.Ok? ==> hackathons == response.body && navigation == old(navigation)
      ensures hasToken && !response.Ok? ==> hackathons == old(hackathons) && navigation == Some(ListingRoute)
    {
      if !hasToken {
        navigation := Some(LoginRoute);
        return;
      }
      if response.Ok? {
        hackathons := response.body;
      } else {
        navigation := Some(ListingRoute);
      }
    }

    /** A card's `onFund`. */
    method OnFund(id: Id, now: int)
      modifies this
      ensures hackathons == UpdateWhere(old(hackathons), id, FundOwnPool(now))
      ensures navigation == old(navigation)
    {
      hackathons := UpdateWhere(hackathons, id, FundOwnPool(now));
    }

    /** A card's `onEnd`. */
    method OnEnd(id: Id, now: int)
      modifies this
      ensures hackathons == UpdateWhere(old(hackathons), id, Merged(EndPatch(now)))
      ensures navigation == old(navigation)
    {
      hackathons := UpdateWhere(hackathons, id, Merged(EndPatch(now)));
    }
  }
}
