/** The organizer's submission table: decoding the persisted winners, the
    bounded winner selection, the guards of Set Winners and Distribute,
    and which workflow buttons are offered. */
module SubmissionTable {
  import opened Wrappers
  import opened Seqs
  import opened Record

  /** `.map(w => w.public_key).filter(key => key)`: the keys that are present
      and non-empty, in their original order. */
  function Keys(items: seq<Option<string>>): (r: seq<string>)
    ensures |r| <= |items|
    ensures forall i :: 0 <= i < |r| ==> r[i] != "" && Some(r[i]) in items
    ensures forall i :: 0 <= i < |items| && items[i].Some? && items[i].value != "" ==> items[i].value in r
    decreases |items|
  {
    if items == [] then []
    else if items[0].Some? && items[0].value != "" then [items[0].value] + Keys(items[1..])
    else Keys(items[1..])
  }

  /** Keys of a concatenation are the concatenated keys, so the decoded
      list keeps the ranking order of the records. */
  lemma {:induction false} KeysAppend(a: seq<Option<string>>, b: seq<Option<string>>)
    ensures Keys(a + b) == Keys(a) + Keys(b)
    decreases |a|
  {
    if a == [] {
      assert a + b == b;
    } else {
      assert (a + b)[1..] == a[1..] + b;
      KeysAppend(a[1..], b);
    }
  }

  /** When every record carries a non-empty key, nothing is dropped and the
      i-th key is the i-th record's. */
  lemma {:induction false} KeysAllPresent(items: seq<Option<string>>)
    requires forall i :: 0 <= i < |items| ==> items[i].Some? && items[i].value != ""
    ensures |Keys(items)| == |items|
    ensures forall i :: 0 <= i < |items| ==> Keys(items)[i] == items[i].value
    decreases |items|
  {
    if items != [] {
      KeysAllPresent(items[1..]);
    }
  }

  /** Records none of which carries a usable key decode to no winners. */
  lemma {:induction false} KeysNonePresent(items: seq<Option<string>>)
    requires forall i :: 0 <= i < |items| ==> items[i].None? || items[i].value == ""
    ensures Keys(items) == []
    decreases |items|
  {
    if items != [] {
      KeysNonePresent(items[1..]);
    }
  }

  /** `initializeWinners`: the ordered public keys stored in the `winners`
      field. A missing or empty field, JSON text that does not parse, and
      JSON that is not an array all give the empty list. */
  function InitializeWinners(w: WinnersField, parse: Parser): (r: seq<string>)
    ensures forall i :: 0 <= i < |r| ==> r[i] != ""
  {
    match w
    case NoWinners => []
    case Structured(items) => Keys(items)
    case Encoded(text) =>
      if text == "" then []
      else match parse(text)
        case None => []
        case Some(JArray(items)) => Keys(items)
        case Some(_) => []
  }

  /** The three ways `initializeWinners` falls back to the empty list. */
  lemma InitializeWinnersEmpty(w: WinnersField, parse: Parser)
    requires || w.NoWinners?
             || (w.Encoded? && (w.text == "" || parse(w.text).None? || !parse(w.text).value.JArray?))
    ensures InitializeWinners(w, parse) == []
  {
  }

  /** From an array of winner records, decoded or to be decoded, the result
      is exactly their present, non-empty keys in order. */
  lemma InitializeWinnersFromRecords(w: WinnersField, parse: Parser, items: seq<Option<string>>)
    requires w == Structured(items) || (w.Encoded? && w.text != "" && parse(w.text) == Some(JArray(items)))
    ensures InitializeWinners(w, parse) == Keys(items)
    ensures forall k :: k in InitializeWinners(w, parse) <==> k != "" && Some(k) in items
  {
    forall k | k != "" && Some(k) in items ensures k in Keys(items) {
      var i :| 0 <= i < |items| && items[i] == Some(k);
    }
  }

  /** `w => w !== key`. */
  function Other(key: string): string -> bool {
    x => x != key
  }

  /** The selection after `handleWinnerSelect(key)`: a selected key is
      removed (every copy of it), an unselected key is appended while fewer
      than 3 are selected, and otherwise nothing changes. */
  function Toggled(s: seq<string>, key: string): seq<string> {
    if key in s then Filter(Other(key), s)
    else if |s| < 3 then s + [key]
    else s
  }

  /** Toggling a selected key removes every copy of it and keeps every
      other key as many times as before (in their relative order, by
      `Seqs.FilterAppend`). */
  lemma ToggleRemoves(s: seq<string>, key: string)
    requires key in s
    ensures key !in Toggled(s, key)
    ensures forall x :: x != key ==> multiset(Toggled(s, key))[x] == multiset(s)[x]
  {
    var r := Filter(Other(key), s);
    forall x | x != key ensures multiset(r)[x] == multiset(s)[x] {
      FilterCount(Other(key), s, x);
    }
  }

  /** Toggling an unselected key while fewer than 3 are selected appends it,
      and toggling it again gives back the original selection. */
  lemma {:induction false} ToggleRoundTrip(s: seq<string>, key: string)
    requires key !in s && |s| < 3
    ensures Toggled(s, key) == s + [key]
    ensures Toggled(Toggled(s, key), key) == s
  {
    assert key in s + [key];
    FilterAppend(Other(key), s, [key]);
    FilterKeepsAll(Other(key), s);
  }

  /** Toggling an unselected key when 3 or more are selected changes nothing. */
  lemma ToggleAtLimit(s: seq<string>, key: string)
    requires key !in s && |s| >= 3
    ensures Toggled(s, key) == s
  {
  }

  /** A selection of at most 3 distinct keys stays one under every toggle. */
  lemma ToggleKeepsBound(s: seq<string>, key: string)
    requires |Elements(s)| <= 3
    ensures |Elements(Toggled(s, key))| <= 3
  {
    var r := Toggled(s, key);
    if key in s {
      assert Elements(r) <= Elements(s);
      SubsetBound(Elements(r), Elements(s));
    } else if |s| < 3 {
      ElementsBound(r);
    }
  }

  /** The Fund button (line 220). */
  predicate ShowFund(h: Hackathon) {
    h.manuallyEnded && (NumberOrZero(h.fundedAmount) == 0.0 || h.fundedAmount == Null) && !h.prizesDistributed
  }

  /** The End button (line 211). */
  predicate ShowEnd(h: Hackathon) {
    !h.manuallyEnded
  }

  /** The Set Winners button (line 229). */
  predicate ShowSetWinners(h: Hackathon) {
    h.manuallyEnded && NumberOrZero(h.fundedAmount) > 0.0 && !h.prizesDistributed
  }

  /** The Distribute Prizes button (line 238). */
  predicate ShowDistribute(h: Hackathon, parse: Parser) {
    h.manuallyEnded && |InitializeWinners(h.winners, parse)| > 0 &&
    !h.prizesDistributed && NumberOrZero(h.fundedAmount) > 0.0
  }

  /** The winner check boxes are disabled (line 200). */
  predicate CheckboxesDisabled(h: Hackathon) {
    h.prizesDistributed
  }

  /** `Number(x) || 0` is positive exactly when `x > 0`, and zero exactly when
      `x` is falsy; so the `=== null` test of the Fund button adds nothing. */
  lemma FundedAmountCoercion(a: Amount)
    ensures NumberOrZero(a) > 0.0 <==> Positive(a)
    ensures NumberOrZero(a) == 0.0 <==> Falsy(a)
    ensures a == Null ==> NumberOrZero(a) == 0.0
  {
  }

  /** Fund and Set Winners are never offered together; End is offered
      exactly while the record is not manually ended, and then neither of
      the other two is. */
  lemma FundSetWinnersExclusive(h: Hackathon)
    ensures !(ShowFund(h) && ShowSetWinners(h))
    ensures ShowEnd(h) <==> !h.manuallyEnded
    ensures ShowEnd(h) ==> !ShowFund(h) && !ShowSetWinners(h)
    ensures ShowFund(h) <==> h.manuallyEnded && Falsy(h.fundedAmount) && !h.prizesDistributed
    ensures ShowSetWinners(h) <==> h.manuallyEnded && Positive(h.fundedAmount) && !h.prizesDistributed
  {
  }

  /** Distribute is offered exactly when the record is ended, funded, not yet
      distributed and its winners decode to a non-empty list; Set Winners is
      then offered too. Once prizes are distributed the check boxes are
      disabled and only End can still be offered. */
  lemma DistributeOffered(h: Hackathon, parse: Parser)
    ensures ShowDistribute(h, parse) <==>
              h.manuallyEnded && InitializeWinners(h.winners, parse) != [] &&
              !h.prizesDistributed && Positive(h.fundedAmount)
    ensures ShowDistribute(h, parse) ==> ShowSetWinners(h)
    ensures CheckboxesDisabled(h) ==> !ShowFund(h) && !ShowSetWinners(h) && !ShowDistribute(h, parse)
  {
  }

  /** The selection state of one table. `hackathon` is the record passed in
      by the parent screen, `parse` stands for `JSON.parse`. */
  class WinnerSelection {
    const hackathon: Hackathon
    const parse: Parser
    var selected: seq<string>

    /** `useState(initializeWinners())`. */
    constructor (h: Hackathon, parse: Parser)
      ensures hackathon == h && this.parse == parse
      ensures selected == InitializeWinners(h.winners, parse)
    {
      hackathon := h;
      this.parse := parse;
      selected := InitializeWinners(h.winners, parse);
    }

    /** `handleWinnerSelect(key)`; `rejected` is the "up to 3 winners" error. */
    method Toggle(key: string) returns (rejected: bool)
      modifies this
      ensures selected == Toggled(old(selected), key)
      ensures rejected <==> key !in old(selected) && |old(selected)| >= 3
      ensures |Elements(old(selected))| <= 3 ==> |Elements(selected)| <= 3
    {
      if |Elements(selected)| <= 3 {
        ToggleKeepsBound(selected, key);
      }
      rejected := false;
      if key in selected {
        selected := Filter(Other(key), selected);
      } else if |selected| < 3 {
        selected := selected + [key];
      } else {
        rejected := true;
      }
    }

    /** `handleSetWinners`: an empty selection is refused before any request;
        otherwise the selection is posted as the ranked winners. When the
        post and the refetch succeed (`posted`), the selection is
        re-initialised from the record this table was given. */
    method SetWinners(posted: bool) returns (request: Option<seq<string>>)
      modifies this
      ensures request == if old(selected) == [] then None else Some(old(selected))
      ensures selected == if request.Some? && posted then InitializeWinners(hackathon.winners, parse)
                          else old(selected)
    {
      if |selected| == 0 {
        return None;
      }
      request := Some(selected);
      if posted {
        selected := InitializeWinners(hackathon.winners, parse);
      }
    }

    /** `handleDistributePrizes`: the request is sent only when the persisted
        winners (not the current selection) decode to a non-empty list. */
    method DistributePrizes() returns (sent: bool)
      ensures sent <==> InitializeWinners(hackathon.winners, parse) != []
    {
      var winnersArray := InitializeWinners(hackathon.winners, parse);
      if |winnersArray| == 0 {
        return false;
      }
      sent := true;
    }

    /** `handleFundHackathon`: the prompt's text is posted only when it is a
        positive number. */
    method FundHackathon(input: Option<string>, number: NumberParser) returns (request: Option<string>)
      ensures request.Some? <==> AcceptsAmount(input, number)
      ensures request.Some? ==> request == input && number(request.value).value > 0.0
    {
      if input.None? || input.value == "" || number(input.value).None? || number(input.value).value <= 0.0 {
        return None;
      }
      request := input;
    }
  }
}
