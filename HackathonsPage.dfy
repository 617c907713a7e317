/** The public listing: active hackathons first, the local updates made
    by the cards' Fund and End buttons, and the status filter. */
module HackathonsPage {
  import opened Wrappers
  import opened Seqs
  import opened Record
  import Card = HackathonCard

  predicate IsActive(h: Hackathon) { h.status == Some(ACTIVE) }
  predicate IsInactive(h: Hackathon) { !IsActive(h) }

  /** What a stable sort with the comparator of lines 19-26 produces: the
      active hackathons, then the others, each group in its original order. */
  function ActiveFirst(s: seq<Hackathon>): seq<Hackathon> {
    Filter(IsActive, s) + Filter(IsInactive, s)
  }

  /** No active hackathon comes after an inactive one. */
  ghost predicate ActiveFirstOrder(s: seq<Hackathon>) {
    forall i, j :: 0 <= i < j < |s| && IsActive(s[j]) ==> IsActive(s[i])
  }

  /** The sorted list is a permutation of the fetched one. */
  lemma ActiveFirstPermutes(s: seq<Hackathon>)
    ensures multiset(ActiveFirst(s)) == multiset(s)
  {
    FilterSplit(IsActive, IsInactive, s);
  }

  /** Every active hackathon precedes every inactive one. */
  lemma ActiveFirstOrdered(s: seq<Hackathon>)
    ensures ActiveFirstOrder(ActiveFirst(s))
  {
    var a, b := Filter(IsActive, s), Filter(IsInactive, s);
    var r := a + b;
    forall i, j | 0 <= i < j < |r| && IsActive(r[j]) ensures IsActive(r[i]) {
      if j < |a| {
        assert r[i] == a[i];
      }
    }
  }

  /** Within each group the original relative order is kept. */
  lemma ActiveFirstStable(s: seq<Hackathon>)
    ensures Filter(IsActive, ActiveFirst(s)) == Filter(IsActive, s)
    ensures Filter(IsInactive, ActiveFirst(s)) == Filter(IsInactive, s)
  {
    var a, b := Filter(IsActive, s), Filter(IsInactive, s);
    FilterAppend(IsActive, a, b);
    FilterAppend(IsInactive, a, b);
    FilterKeepsAll(IsActive, a);
    FilterKeepsAll(IsInactive, b);
    FilterDropsAll(IsActive, b);
    FilterDropsAll(IsInactive, a);
  }

  /** A list already in active-first order is left as it is. */
  lemma ActiveFirstOfOrdered(s: seq<Hackathon>)
    requires ActiveFirstOrder(s)
    ensures ActiveFirst(s) == s
  {
    var m := FirstInactive(s);
    forall j | m <= j < |s| ensures !IsActive(s[j]) {
    }
    ActiveFirstOfSplit(s, m);
  }

  /** A list made of active hackathons followed by inactive ones is its own
      active-first order. */
  lemma ActiveFirstOfSplit(s: seq<Hackathon>, m: nat)
    requires m <= |s|
    requires forall i :: 0 <= i < m ==> IsActive(s[i])
    requires forall j :: m <= j < |s| ==> !IsActive(s[j])
    ensures ActiveFirst(s) == s
  {
    var a, b := s[..m], s[m..];
    assert s == a + b;
    forall i | 0 <= i < |a| ensures IsActive(a[i]) && !IsInactive(a[i]) {
      assert a[i] == s[i];
    }
    forall j | 0 <= j < |b| ensures !IsActive(b[j]) && IsInactive(b[j]) {
      assert b[j] == s[m + j];
    }
    FilterAppend(IsActive, a, b);
    FilterAppend(IsInactive, a, b);
    FilterKeepsAll(IsActive, a);
    FilterDropsAll(IsActive, b);
    FilterDropsAll(IsInactive, a);
    FilterKeepsAll(IsInactive, b);
    assert Filter(IsActive, s) == a && Filter(IsInactive, s) == b;
  }

  /** The index of the first inactive hackathon, or the length when there is none. */
  function FirstInactive(s: seq<Hackathon>): (m: nat)
    ensures m <= |s| && (m < |s| ==> !IsActive(s[m]))
    ensures forall i :: 0 <= i < m ==> IsActive(s[i])
    decreases |s|
  {
    if s == [] || !IsActive(s[0]) then 0 else 1 + FirstInactive(s[1..])
  }

  /** Adding one more hackathon at the end: an active one joins the end of
      the active group, an inactive one the end of the list. */
  lemma ActiveFirstSnoc(s: seq<Hackathon>, x: Hackathon)
    ensures ActiveFirst(s + [x]) ==
              if IsActive(x) then Filter(IsActive, s) + [x] + Filter(IsInactive, s)
              else ActiveFirst(s) + [x]
  {
    FilterAppend(IsActive, s, [x]);
    FilterAppend(IsInactive, s, [x]);
    FilterSingle(IsActive, x);
    FilterSingle(IsInactive, x);
  }

  /** Move `a[i]` left to position `k`, shifting `a[k..i]` one place right. */
  method MoveLeft(a: array<Hackathon>, k: int, i: int)
    requires 0 <= k <= i < a.Length
    modifies a
    ensures a[..] == old(a[..k]) + [old(a[i])] + old(a[k..i]) + old(a[i + 1..])
  {
    ghost var before := a[..];
    var x := a[i];
    var j := i;
    while j > k
      invariant k <= j <= i
      invariant forall m :: 0 <= m < j ==> a[m] == before[m]
      invariant forall m :: j < m <= i ==> a[m] == before[m - 1]
      invariant forall m :: i < m < a.Length ==> a[m] == before[m]
    {
      a[j] := a[j - 1];
      j := j - 1;
    }
    a[k] := x;
    MovedAt(before, a[..], k, i);
  }

  /** A sequence that agrees index by index with `s` after moving `s[i]` to
      position `k` is that move. */
  lemma MovedAt(s: seq<Hackathon>, t: seq<Hackathon>, k: int, i: int)
    requires 0 <= k <= i < |s| == |t|
    requires forall m :: 0 <= m < k ==> t[m] == s[m]
    requires t[k] == s[i]
    requires forall m :: k < m <= i ==> t[m] == s[m - 1]
    requires forall m :: i < m < |t| ==> t[m] == s[m]
    ensures t == s[..k] + [s[i]] + s[k..i] + s[i + 1..]
  {
    var r := s[..k] + [s[i]] + s[k..i] + s[i + 1..];
    assert |r| == |t|;
    forall m | 0 <= m < |t| ensures r[m] == t[m] {
      if m < k {
        assert r[m] == s[m];
      } else if m == k {
        assert r[m] == s[i];
      } else if m <= i {
        assert r[m] == s[k..i][m - k - 1];
      } else {
        assert r[m] == s[i + 1..][m - i - 1];
      }
    }
  }

  /** After the move, the first `i + 1` entries are the active group, the
      moved entry and the inactive group, and the rest is untouched. */
  lemma MovedPrefix(before: seq<Hackathon>, after: seq<Hackathon>, k: int, i: int,
                    act: seq<Hackathon>, ina: seq<Hackathon>)
    requires 0 <= k <= i < |before| && |act| == k && before[..i] == act + ina
    requires after == before[..k] + [before[i]] + before[k..i] + before[i + 1..]
    ensures after[..i + 1] == act + [before[i]] + ina
    ensures after[i + 1..] == before[i + 1..]
  {
    assert before[..k] == before[..i][..k] == act;
    assert before[k..i] == before[..i][k..] == ina;
  }

  /** `Array.prototype.sort` with the active-first comparator, done in place
      as a stable insertion: each active hackathon moves left past the
      inactive ones before it. */
  method SortActiveFirst(a: array<Hackathon>)
    modifies a
    ensures a[..] == ActiveFirst(old(a[..]))
  {
    ghost var orig := a[..];
    var i, k := 0, 0;
    while i < a.Length
      invariant 0 <= k <= i <= a.Length
      invariant k == |Filter(IsActive, orig[..i])|
      invariant a[..i] == ActiveFirst(orig[..i])
      invariant a[i..] == orig[i..]
    {
      ghost var before := a[..];
      if IsActive(a[i]) {
        MoveLeft(a, k, i);
        ActiveStep(orig, before, a[..], i, k);
        k := k + 1;
      } else {
        InactiveStep(orig, before, i, k);
      }
      i := i + 1;
    }
    assert orig[..a.Length] == orig;
  }

  /** The loop state of `SortActiveFirst` after `i` entries: `k` active ones
      so far, the prefix sorted, the rest as it was. */
  ghost predicate Sorting(orig: seq<Hackathon>, cur: seq<Hackathon>, i: int, k: int) {
    0 <= k <= i <= |orig| == |cur| && k == |Filter(IsActive, orig[..i])| &&
    cur[..i] == ActiveFirst(orig[..i]) && cur[i..] == orig[i..]
  }

  /** Moving the active entry `i` to position `k` sorts one more entry. */
  lemma ActiveStep(orig: seq<Hackathon>, before: seq<Hackathon>, after: seq<Hackathon>, i: int, k: int)
    requires Sorting(orig, before, i, k) && i < |orig| && IsActive(before[i])
    requires after == before[..k] + [before[i]] + before[k..i] + before[i + 1..]
    ensures Sorting(orig, after, i + 1, k + 1)
  {
    var act, ina := Filter(IsActive, orig[..i]), Filter(IsInactive, orig[..i]);
    InsertStep(orig, i, act, ina, before, before[i]);
    MovedPrefix(before, after, k, i, act, ina);
  }

  /** An inactive entry `i` is already in place. */
  lemma InactiveStep(orig: seq<Hackathon>, before: seq<Hackathon>, i: int, k: int)
    requires Sorting(orig, before, i, k) && i < |orig| && !IsActive(before[i])
    ensures Sorting(orig, before, i + 1, k)
  {
    var act, ina := Filter(IsActive, orig[..i]), Filter(IsInactive, orig[..i]);
    var x := before[i];
    InsertStep(orig, i, act, ina, before, x);
    assert before[..i] == ActiveFirst(orig[..i]) == act + ina;
    assert before[..i + 1] == before[..i] + [x];
  }

  /** One step of the sort: what the next prefix of the original sorts to. */
  lemma InsertStep(orig: seq<Hackathon>, i: int, act: seq<Hackathon>, ina: seq<Hackathon>,
                   before: seq<Hackathon>, x: Hackathon)
    requires 0 <= i < |orig| && |before| == |orig| && before[i..] == orig[i..] && x == before[i]
    requires act == Filter(IsActive, orig[..i]) && ina == Filter(IsInactive, orig[..i])
    ensures x == orig[i] && orig[..i + 1] == orig[..i] + [x]
    ensures before[i + 1..] == orig[i + 1..]
    ensures |Filter(IsActive, orig[..i + 1])| == |act| + (if IsActive(x) then 1 else 0)
    ensures ActiveFirst(orig[..i + 1]) == if IsActive(x) then act + [x] + ina else act + ina + [x]
  {
    assert before[i..][0] == orig[i..][0];
    assert before[i + 1..] == before[i..][1..];
    assert orig[..i + 1] == orig[..i] + [x];
    ActiveFirstSnoc(orig[..i], x);
    FilterAppend(IsActive, orig[..i], [x]);
  }

  /** `filteredHackathons`. */
  function FilterByStatus(s: seq<Hackathon>, filter: string): seq<Hackathon> {
    if filter == "all" then s else Filter(HasStatus(filter), s)
  }

  /** `h => h.status === filter`. */
  function HasStatus(filter: string): Hackathon -> bool {
    (h: Hackathon) => h.status == Some(filter)
  }

  /** "all" shows the list unchanged; any other filter shows exactly the
      entries with that status, in their order. */
  lemma FilterByStatusCases(s: seq<Hackathon>, filter: string)
    ensures filter == "all" ==> FilterByStatus(s, filter) == s
    ensures filter != "all" ==>
              var r := FilterByStatus(s, filter);
              && (forall i :: 0 <= i < |r| ==> r[i].status == Some(filter) && r[i] in s)
              && (forall i :: 0 <= i < |s| && s[i].status == Some(filter) ==> s[i] in r)
              && (forall a, b :: s == a + b ==> r == FilterByStatus(a, filter) + FilterByStatus(b, filter))
  {
    if filter != "all" {
      forall a, b | s == a + b ensures FilterByStatus(s, filter) == FilterByStatus(a, filter) + FilterByStatus(b, filter) {
        FilterAppend(HasStatus(filter), a, b);
      }
    }
  }

  /** The `isOrganizer` passed to each card (line 174); `user` may be `null`. */
  predicate ListingIsOrganizer(user: Option<User>, h: Hackathon) {
    user.Some? && user.value.role == Some("organizer") && user.value.id == h.organizerId
  }

  /** The cards of the listing offer End exactly to the signed-in organizer
      of an active record not ended by hand, and Fund only when in addition
      the amount is the number 0. Nobody signed in, and any other role, gets
      neither. */
  lemma ListingCardActions(user: Option<User>, h: Hackathon)
    ensures var isOrganizer := ListingIsOrganizer(user, h);
            && (Card.CanEnd(h, isOrganizer) <==>
                  user.Some? && user.value.role == Some("organizer") && user.value.id == h.organizerId &&
                  !h.manuallyEnded && h.status == Some(ACTIVE))
            && (Card.CanFund(h, isOrganizer) <==> Card.CanEnd(h, isOrganizer) && h.fundedAmount == Num(0.0))
            && (user.None? || user.value.role != Some("organizer") ==>
                  !Card.CanEnd(h, isOrganizer) && !Card.CanFund(h, isOrganizer))
  {
  }

  /** The screen's state. */
  class ListingPage {
    var hackathons: seq<Hackathon>
    var filter: string

    /** The list is always shown active first. */
    ghost predicate Valid()
      reads this
    {
      ActiveFirstOrder(hackathons)
    }

    constructor ()
      ensures Valid() && hackathons == [] && filter == "all"
    {
      hackathons := [];
      filter := "all";
    }

    /** Sort a copy of `s` in place, as on `response.data` and on the mapped list. */
    static method Sorted(s: seq<Hackathon>) returns (r: seq<Hackathon>)
      ensures r == ActiveFirst(s)
    {
      var a := new Hackathon[|s|](i requires 0 <= i < |s| => s[i]);
      assert a[..] == s;
      SortActiveFirst(a);
      r := a[..];
    }

    /** `fetchHackathons`: on success the list is the response, active first;
        on failure it is left as it was. */
    method FetchHackathons(response: Response<seq<Hackathon>>)
      requires Valid()
      modifies this
      ensures Valid() && filter == old(filter)
      ensures hackathons == if response.Ok? then ActiveFirst(response.body) else old(hackathons)
    {
      if response.Ok? {
        hackathons := Sorted(response.body);
        ActiveFirstOrdered(response.body);
      }
    }

    /** `updateHackathon`: merge `p` into every entry with the id, then sort. */
    method UpdateHackathon(id: Id, p: Patch)
      requires Valid()
      modifies this
      ensures Valid() && filter == old(filter)
      ensures hackathons == ActiveFirst(UpdateWhere(old(hackathons), id, Merged(p)))
      ensures multiset(hackathons) == multiset(UpdateWhere(old(hackathons), id, Merged(p)))
    {
      var updated := UpdateWhere(hackathons, id, Merged(p));
      hackathons := Sorted(updated);
      ActiveFirstOrdered(updated);
      ActiveFirstPermutes(updated);
    }

    /** A card's `onFund`: the card's own prize pool (`hackathon` is the
        card's record) becomes the funded amount of every entry with its id. */
    method OnFund(card: Hackathon, now: int)
      requires Valid()
      modifies this
      ensures Valid() && filter == old(filter)
      ensures hackathons == ActiveFirst(UpdateWhere(old(hackathons), card.id, Merged(FundPatch(card.prizePool, now))))
    {
      UpdateHackathon(card.id, FundPatch(card.prizePool, now));
    }

    /** A card's `onEnd`. */
    method OnEnd(id: Id, now: int)
      requires Valid()
      modifies this
      ensures Valid() && filter == old(filter)
      ensures hackathons == ActiveFirst(UpdateWhere(old(hackathons), id, Merged(EndPatch(now))))
    {
      UpdateHackathon(id, EndPatch(now));
    }

    /** One of the filter buttons. */
    method SetFilter(f: string)
      modifies this
      ensures filter == f && hackathons == old(hackathons)
    {
      filter := f;
    }

    /** The hackathons rendered: the whole list for "all", otherwise the
        entries with that status, and nothing that is not in the list. */
    function Filtered(): (r: seq<Hackathon>)
      reads this
      ensures filter == "all" ==> r == hackathons
      ensures forall i :: 0 <= i < |r| ==> r[i] in hackathons && (filter == "all" || r[i].status == Some(filter))
      ensures forall i :: 0 <= i < |hackathons| && hackathons[i].status == Some(filter) ==> hackathons[i] in r
    {
      FilterByStatusCases(hackathons, filter);
      FilterByStatus(hackathons, filter)
    }
  }
}
