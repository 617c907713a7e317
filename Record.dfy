/** The hackathon record as the screens receive it from the API, and the
    JavaScript coercions the screens apply to its fields. */
module Record {
  import opened Wrappers

  type Id = int

  /** A numeric field of the record as a JavaScript value: the key may be
      missing (`undefined`), `null`, a finite number, or NaN. */
  datatype Amount = Absent | Null | Num(value: real) | NotANumber

  /** `Number(x) || 0`: a missing, null or NaN amount coerces to 0. */
  function NumberOrZero(a: Amount): real {
    if a.Num? then a.value else 0.0
  }

  /** `x > 0`: `undefined` and NaN compare false, `null` compares as 0. */
  predicate Positive(a: Amount) {
    a.Num? && a.value > 0.0
  }

  /** `!x`: `undefined`, `null`, NaN and 0 are falsy. */
  predicate Falsy(a: Amount) {
    !a.Num? || a.value == 0.0
  }

  /** What `JSON.parse` can return, as far as the screens look at it: an
      array (of winner objects, each reduced to its `public_key`, missing
      when the object has none), a string, `null`, or any other value. */
  datatype JsonValue = JArray(keys: seq<Option<string>>) | JString(text: string) | JNull | JOther

  /** `JSON.parse` itself: `None` when it throws. */
  type Parser = string -> Option<JsonValue>

  /** The persisted `winners` field: missing or `null`, an array of winner
      objects already decoded by the API, or JSON text still to decode. */
  datatype WinnersField = NoWinners | Structured(keys: seq<Option<string>>) | Encoded(text: string)

  /** One hackathon. Timestamps are milliseconds since the epoch. */
  datatype Hackathon = Hackathon(
    id: Id,
    organizerId: Option<Id>,
    status: Option<string>,
    manuallyEnded: bool,
    manuallyEndedAt: Option<int>,
    fundedAmount: Amount,
    fundedAt: Option<int>,
    prizePool: Amount,
    winners: WinnersField,
    prizesDistributed: bool,
    endDate: int)

  const ACTIVE := "active"
  const ENDED := "ended"

  /** The object spread into a record by `{ ...h, ...updates }`: a field
      present in the patch overrides the record's own. */
  datatype Patch = Patch(
    status: Option<string>,
    manuallyEnded: Option<bool>,
    manuallyEndedAt: Option<int>,
    fundedAmount: Option<Amount>,
    fundedAt: Option<int>)

  /** `{ ...h, ...p }`. */
  function Merge(h: Hackathon, p: Patch): (r: Hackathon)
    ensures r.status == (if p.status.Some? then p.status else h.status)
    ensures r.manuallyEnded == p.manuallyEnded.GetOr(h.manuallyEnded)
    ensures r.manuallyEndedAt == (if p.manuallyEndedAt.Some? then p.manuallyEndedAt else h.manuallyEndedAt)
    ensures r.fundedAmount == p.fundedAmount.GetOr(h.fundedAmount)
    ensures r.fundedAt == (if p.fundedAt.Some? then p.fundedAt else h.fundedAt)
    ensures r.id == h.id && r.organizerId == h.organizerId && r.prizePool == h.prizePool
    ensures r.winners == h.winners && r.prizesDistributed == h.prizesDistributed && r.endDate == h.endDate
  {
    h.(status := if p.status.Some? then p.status else h.status,
       manuallyEnded := p.manuallyEnded.GetOr(h.manuallyEnded),
       manuallyEndedAt := if p.manuallyEndedAt.Some? then p.manuallyEndedAt else h.manuallyEndedAt,
       fundedAmount := p.fundedAmount.GetOr(h.fundedAmount),
       fundedAt := if p.fundedAt.Some? then p.fundedAt else h.fundedAt)
  }

  /** `h => ({ ...h, ...p })`. */
  function Merged(p: Patch): Hackathon -> Hackathon {
    (h: Hackathon) => Merge(h, p)
  }

  /** Spreading the same updates twice is spreading them once. */
  lemma MergeIdempotent(h: Hackathon, p: Patch)
    ensures Merge(Merge(h, p), p) == Merge(h, p)
  {
  }

  /** `{ status: 'ended', manually_ended: true, manually_ended_at: now }`. */
  function EndPatch(now: int): Patch {
    Patch(Some(ENDED), Some(true), Some(now), None, None)
  }

  /** `{ funded_amount: amount, funded_at: now }`. */
  function FundPatch(amount: Amount, now: int): Patch {
    Patch(None, None, None, Some(amount), Some(now))
  }

  /** `list.map(h => h.id === id ? f(h) : h)`. */
  function UpdateWhere(s: seq<Hackathon>, id: Id, f: Hackathon -> Hackathon): (r: seq<Hackathon>)
    ensures |r| == |s|
    ensures forall i :: 0 <= i < |s| ==> r[i] == if s[i].id == id then f(s[i]) else s[i]
    decreases |s|
  {
    if s == [] then []
    else [if s[0].id == id then f(s[0]) else s[0]] + UpdateWhere(s[1..], id, f)
  }

  /** `Number(text)` (also what `isNaN(text)` tests): `None` is NaN. */
  type NumberParser = string -> Option<real>

  /** `parseFloat(text)`: `None` is NaN. It reads the longest numeric prefix,
      so it may accept text that `Number` refuses. */
  type FloatParser = string -> Option<real>

  /** The check on the text typed into the funding prompt, which refuses
      `!amount || isNaN(amount) || Number(amount) <= 0`: a cancelled prompt
      (`null`), the empty string, text that is not a number, and a number
      that is not positive. */
  predicate AcceptsAmount(input: Option<string>, number: NumberParser) {
    input.Some? && input.value != "" &&
    number(input.value).Some? && number(input.value).value > 0.0
  }

  /** The signed-in user as read from local storage (possibly `{}`). */
  datatype User = User(id: Option<Id>, role: Option<string>, email: Option<string>)

  /** An entry of a hackathon's participant list. */
  datatype Participant = Participant(id: Option<Id>, email: Option<string>)

  /** A submitted project; only the key used for winner selection matters here. */
  datatype Submission = Submission(id: Id, publicKey: Option<string>)

  /** The outcome of an HTTP request: a body, a 403 response, or any other failure. */
  datatype Response<T> = Ok(body: T) | Forbidden | Failed

  /** Where a screen navigates to. */
  datatype Route = LoginRoute | ListingRoute | DetailsRoute
}
