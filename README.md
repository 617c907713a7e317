# blockHUNT front-end: the prize-distribution workflow, in Dafny

This project models the client-side logic of the blockHUNT hackathon
front-end (a React application). It covers the workflow an organizer runs
on one hackathon record: end it, fund it, set the winners, distribute the
prizes. It also covers the decisions the screens take on that record and
on the lists of records:

- the decoding of the persisted `winners` field and the bounded
  three-winner selection of the submission table;
- the buttons each screen offers, and the step the workflow screen shows;
- the guards of the details screen, its participant card (Join, or
  Withdraw with Submit Project), its funded-amount block, its updates of
  the record after end and fund, and joining and withdrawing;
- the card's effective status, its actions, its label and its badge colour;
- the active-first ordering of the public listing, which is sorted in
  place, and the map-by-id updates of both listings;
- the client-side checks of the create, submit, sign-up and login forms.

JavaScript values are modelled explicitly.

- A numeric field is `Absent`, `Null`, `Num(r)` or `NotANumber`, with the
  coercions `Number(x) || 0`, `x > 0` and `!x` written out in `Record`.
- Exceptions are the `Thrown` case of `Eval`.
- `JSON.parse`, `Number`, `parseFloat` and `new Date` are function
  parameters. `None` means the call throws, or returns NaN or an invalid
  date.
- Clock readings are integer milliseconds passed in.
- HTTP outcomes are `Response` values passed in.
- A screen's React state is a class whose fields its methods reassign.

Modules:

- `Wrappers`: `Option` and `Eval`.
- `Seqs`: a generic order-preserving filter and its algebra.
- `Record`: the hackathon record, the JavaScript coercions, `{...h, ...updates}`, and map-by-id.
- `JsText`: white space, `trim`, `toUpperCase`, and the e-mail pattern.
- One module per screen.
- `Consistency`: lemmas relating the screens to one another.

The screens disagree in a few places, and the model keeps each screen as
written.

- Fund needs the stored status "ended" on the details screen and `manually_ended` in the table.
  On the card it needs an effective status "active" and an amount exactly 0.
- The workflow screen counts a non-empty JSON string, or an array of records without keys, as "winners selected".
  For the same record the table selects nobody.
- A record manually ended while its stored status is still "active" shows as ended on the card.
  The details screen shows it as active.

`Consistency` states these differences. In the source, the workflow
screen's `handleDistributePrizes` is handed to the submission table as a
prop the table never reads. It is modelled as written.

## Model

| member | source | states |
|---|---|---|
| Seqs.Filter | src/components/SubmissionTable.js:36 | `Array.prototype.filter`: the result is no longer than the input. It keeps exactly the elements that pass, and only those. |
| Seqs.FilterAppend | src/pages/HackathonsPage.js:55-57 | Filtering distributes over concatenation, so relative order is kept. |
| Seqs.FilterKeepsAll | src/pages/HackathonDetailsPage.js:88 | A filter every element passes returns its input. |
| Seqs.FilterSingle | src/pages/HackathonsPage.js:19-26 | A one-element list keeps its element exactly when it passes. |
| Seqs.FilterDropsAll | src/pages/HackathonsPage.js:19-26 | A filter no element passes returns nothing. |
| Seqs.FilterIdempotent | src/pages/HackathonsPage.js:55-57 | Filtering twice is filtering once. |
| Seqs.FilterSplit | src/pages/HackathonsPage.js:19-26 | A filter and its complement together hold each element exactly as often as the input. |
| Seqs.FilterCount | src/components/SubmissionTable.js:36 | A filter keeps every occurrence of a passing value and none of a failing one. |
| Seqs.ElementsBound | src/components/SubmissionTable.js:37 | A list has no more distinct values than entries. |
| Seqs.SubsetBound | src/components/SubmissionTable.js:36 | A subset is no larger than its superset. |
| Seqs.NoKeysIsEmpty | src/pages/LoginPage.js:21 | `Object.keys(errors).length === 0` holds exactly when the error object is empty. |
| Record.NumberOrZero | src/components/SubmissionTable.js:158 | `Number(x) \|\| 0`: a number is itself, and a missing, null or NaN amount is 0. Its sign facts are in `SubmissionTable.FundedAmountCoercion`. |
| Record.Positive | src/pages/SubmissionsPage.js:34 | `x > 0`: true only for a positive number; missing and NaN compare false, and `null` compares as 0. Used by `StepChain` and `FundedAmountCoercion`. |
| Record.Falsy | src/pages/HackathonDetailsPage.js:203 | `!x`: missing, `null`, NaN and 0 are falsy, and nothing else. `GuardsExclusive` spells it out for details Fund. |
| Record.EndPatch | src/pages/HackathonDetailsPage.js:126-131 | The end updates: status "ended", manually ended, stamped `now`. What it does to a record is in `AfterEnd` and `Consistency.EndIsFinal`. |
| Record.FundPatch | src/pages/HackathonDetailsPage.js:170-174 | The fund updates: the amount and its time. What it does to a record is in `AfterFund`. |
| Record.AcceptsAmount | src/pages/HackathonDetailsPage.js:154 | The prompt's text passes iff it is present, non-empty and a positive `Number`; a cancelled prompt, "" and NaN are refused. The table uses the same test (SubmissionTable.js:68), stated in `WinnerSelection.FundHackathon`. |
| Record.Merge | src/pages/HackathonDetailsPage.js:126-131 | `{...h, ...p}`: each field present in the patch overrides the record's. Every other field is the record's own. |
| Record.MergeIdempotent | src/pages/OrganizerHackathonsPage.js:66-68 | Spreading the same updates twice is spreading them once. |
| Record.UpdateWhere | src/pages/OrganizerHackathonsPage.js:61-63 | `list.map(h => h.id === id ? f(h) : h)`: same length. An entry is rewritten exactly when its id matches; all others stay. |
| JsText.SpanStart | src/pages/LoginPage.js:36-37 | The scan for the first visible character: everything it skips is white space, and it stops on a visible character or at the end. |
| JsText.SpanEnd | src/pages/LoginPage.js:36-37 | The backward scan for the last visible character, the mirror image of `SpanStart`. |
| JsText.Trim | src/pages/LoginPage.js:36-37 | `trim`: a contiguous slice of the input. Both its ends are visible characters. Everything cut off before and after it is white space. |
| JsText.TrimIdempotent | src/pages/LoginPage.js:36-37 | Trimming twice is trimming once. |
| JsText.TrimAllSpace | src/pages/LoginPage.js:37 | Text made only of white space trims to the empty string. |
| JsText.TrimUnpadded | src/pages/LoginPage.js:36 | Text with visible characters at both ends is its own trim. |
| JsText.TrimPadded | src/pages/LoginPage.js:36 | A visible text with one white-space character on each side trims back to the text. |
| JsText.ToUpper | src/components/HackathonCard.js:27 | `toUpperCase` keeps the length and upper-cases each character (ASCII letters). |
| JsText.EmailPatternAccepts | src/pages/SignupPage.js:17 | `/\S+@\S+\.\S+/` accepts `a@b.c`. It also accepts `x y@b.c`, because the match need not start at the beginning. |
| JsText.EmailPatternRejects | src/pages/SignupPage.js:17 | The pattern rejects `a@b` (no dot after the `@`) and `a @b.c` (a space before the `@`). |
| JsText.MatchPadded | src/pages/LoginPage.js:16 | The pattern is searched for, not anchored: text that matches still matches with a character added on each side. |
| SubmissionTable.Keys | src/components/SubmissionTable.js:11 | `.map(w => w.public_key).filter(key => key)`: it yields only non-empty keys, each taken from some record. Every non-empty key of a record is in the result. |
| SubmissionTable.KeysAppend | src/components/SubmissionTable.js:18 | The keys of a concatenation are the concatenated keys, so the ranking order is kept. |
| SubmissionTable.KeysAllPresent | src/components/SubmissionTable.js:9-12 | When every record has a non-empty key, the i-th result value is the i-th record's key. |
| SubmissionTable.KeysNonePresent | src/components/SubmissionTable.js:18 | Records without usable keys decode to no winners. |
| SubmissionTable.InitializeWinners | src/components/SubmissionTable.js:6-25 | `initializeWinners` never fails outward. Every key it returns is non-empty. |
| SubmissionTable.InitializeWinnersEmpty | src/components/SubmissionTable.js:7 | The result is empty in three cases: the field is missing or empty, the text does not parse, or it parses to something that is not an array. Lines 17-24 are the last two cases. |
| SubmissionTable.InitializeWinnersFromRecords | src/components/SubmissionTable.js:9-12 | An array of records, stored as is or as JSON text, decodes to `Keys` of the records. A key is selected iff some record carries it non-empty. Line 18 is the JSON-text case. |
| SubmissionTable.Toggled | src/components/SubmissionTable.js:34-42 | The selection after a toggle. Its contract is split over `ToggleRemoves`, `ToggleRoundTrip`, `ToggleAtLimit` and `ToggleKeepsBound`. |
| SubmissionTable.ToggleRemoves | src/components/SubmissionTable.js:35-36 | Toggling a selected key removes every occurrence of it. Every other key keeps its multiplicity. |
| SubmissionTable.ToggleRoundTrip | src/components/SubmissionTable.js:36-38 | With fewer than 3 selected, toggling an absent key appends it at the end. Toggling it again restores the selection. |
| SubmissionTable.ToggleAtLimit | src/components/SubmissionTable.js:37-41 | With 3 selected, toggling an absent key changes nothing. |
| SubmissionTable.ToggleKeepsBound | src/components/SubmissionTable.js:37-41 | A selection with at most 3 distinct keys keeps at most 3 after a toggle. |
| SubmissionTable.ShowFund | src/components/SubmissionTable.js:220 | Fund: manually ended, an amount that coerces to 0 or is `null`, prizes not distributed. Its relation to the others is in `FundSetWinnersExclusive`. |
| SubmissionTable.ShowEnd | src/components/SubmissionTable.js:211 | End: not manually ended, whatever the stored status. Stated in `FundSetWinnersExclusive`. |
| SubmissionTable.ShowSetWinners | src/components/SubmissionTable.js:229 | Set Winners: manually ended, a positive coerced amount, prizes not distributed. Stated in `FundSetWinnersExclusive` and `DistributeOffered`. |
| SubmissionTable.ShowDistribute | src/components/SubmissionTable.js:238 | Distribute: as Set Winners, and the winners decode non-empty. Stated in `DistributeOffered`. |
| SubmissionTable.CheckboxesDisabled | src/components/SubmissionTable.js:200 | The check boxes are disabled once prizes are distributed. `DistributeOffered` shows that then no button is offered. |
| SubmissionTable.FundedAmountCoercion | src/components/SubmissionTable.js:158 | `Number(x) \|\| 0` is positive iff `x > 0`, and zero iff `x` is falsy. A `null` amount coerces to 0. |
| SubmissionTable.FundSetWinnersExclusive | src/components/SubmissionTable.js:211-229 | Fund and Set Winners are never offered together. End is offered iff `manually_ended` is false, and then neither of the others is. |
| SubmissionTable.DistributeOffered | src/components/SubmissionTable.js:238 | Distribute is offered iff the record is manually ended, winners decode non-empty, prizes are not distributed and the amount is positive. Then Set Winners is offered too. Disabled check boxes (line 200) mean none of these is. |
| SubmissionTable.WinnerSelection.Toggle | src/components/SubmissionTable.js:34-42 | `handleWinnerSelect`: the new selection is `Toggled` of the old. The limit message appears iff the key is absent and 3 are selected. The bound of 3 distinct keys is preserved. |
| SubmissionTable.WinnerSelection.SetWinners | src/components/SubmissionTable.js:89-119 | An empty selection is refused before any request. Otherwise that selection is posted. After success the selection is re-read from the record. |
| SubmissionTable.WinnerSelection.DistributePrizes | src/components/SubmissionTable.js:121-126 | The request is sent iff the persisted winners decode to a non-empty list. |
| SubmissionTable.WinnerSelection.FundHackathon | src/components/SubmissionTable.js:63-72 | The prompt's text is sent iff it is present, non-empty and a positive `Number`. |
| SubmissionsPage.WinnersListed | src/pages/SubmissionsPage.js:32 | `winners && JSON.parse(winners).length > 0`, with the throws of `JSON.parse` and of `null.length` as `Thrown`. `StepChain` and `DistributeGuard` state its use. |
| SubmissionsPage.DistributeRefused | src/pages/SubmissionsPage.js:69-73 | `!winners \|\| JSON.parse(winners).length === 0`. `DistributeGuard` proves it is the negation of `WinnersListed` whenever a value has a length, and throws exactly when it does. |
| SubmissionsPage.StepOf | src/pages/SubmissionsPage.js:30-40 | The step of `fetchData`'s if-chain. `StepDistributed`, `StepChain` and `StepMatchesChecklist` hold its contract. |
| SubmissionsPage.EndDone | src/pages/SubmissionsPage.js:119-120 | "End Hackathon" is ticked iff manually ended. Related to the step in `StepMatchesChecklist`. |
| SubmissionsPage.FundDone | src/pages/SubmissionsPage.js:122-123 | "Fund Hackathon" is ticked iff the amount is positive. Related to the step in `StepMatchesChecklist`. |
| SubmissionsPage.WinnersDone | src/pages/SubmissionsPage.js:130-131 | "Select Winners" is ticked iff the winners test holds; rendering it throws when the test throws. Related to the step in `StepMatchesChecklist`. |
| SubmissionsPage.DistributeDone | src/pages/SubmissionsPage.js:133-134 | "Distribute Prizes" is ticked iff prizes are distributed. Related to the step in `StepMatchesChecklist`. |
| SubmissionsPage.ShowGoToDetails | src/pages/SubmissionsPage.js:124 | "Go to Details": manually ended, amount `null` or exactly 0, prizes not distributed. `Consistency.GoToDetailsNarrower` compares it with the table's Fund. |
| SubmissionsPage.StepDistributed | src/pages/SubmissionsPage.js:30-31 | The step is 4 iff prizes are distributed, whatever else holds. |
| SubmissionsPage.StepChain | src/pages/SubmissionsPage.js:30-40 | Below 4: step 3 when winners are listed, even unfunded. Otherwise 2 when `funded_amount > 0`, 1 when manually ended, else 0. It throws iff the winners test throws. The step is always in 0..4. |
| SubmissionsPage.StepMatchesChecklist | src/pages/SubmissionsPage.js:119-134 | When the step is derived, it agrees with the checklist. Step 4 iff "Distribute" is ticked. Step 3 has "Select Winners" ticked. Step 2 has "Fund" ticked and not "Select Winners". Step 1 has "End" ticked and not "Fund". Step 0 has neither. |
| SubmissionsPage.DistributeGuard | src/pages/SubmissionsPage.js:69-73 | Missing winners, or winners decoding to an empty array, are refused without a request. The guard throws exactly when the step test does. |
| SubmissionsPage.WorkflowPage.FetchData | src/pages/SubmissionsPage.js:15-59 | Without a token, go to login. A 403 clears the token and goes to login; any other failure goes to the listing. A fetched record is stored before its step is derived. A throwing winners test keeps the old step and goes to the listing. Otherwise the step is `StepOf` of the record. The step stays in 0..4. |
| SubmissionsPage.WorkflowPage.DistributePrizes | src/pages/SubmissionsPage.js:69-73 | Refused, sent or thrown exactly as `DistributeRefused` says. It throws when no record is loaded. |
| HackathonCard.ActualStatus | src/components/HackathonCard.js:9 | The effective status is "active" iff the record is not manually ended and its stored status is "active". It is "ended" iff manually ended or stored "ended". It is missing iff not manually ended and no status is stored. |
| HackathonCard.CanFund | src/components/HackathonCard.js:10 | Fund on the card; `=== 0` is strict. Its contract is `CanFundCases`. |
| HackathonCard.CanEnd | src/components/HackathonCard.js:11 | End on the card. Its contract is `CanEndCases`. |
| HackathonCard.StatusLabel | src/components/HackathonCard.js:27 | The badge text. Its contract is `StatusLabelCases`. |
| HackathonCard.BadgeClass | src/components/HackathonCard.js:25 | The badge colour from the effective status. Its contract is `BadgeClassCases`. |
| HackathonCard.ShowsFunded | src/components/HackathonCard.js:30 | The "Funded" line, for `funded_amount > 0`. `StatusLabelCases` shows it excludes Fund. |
| HackathonCard.CanFundCases | src/components/HackathonCard.js:10 | Fund iff organizer, effective status "active" and amount exactly 0. A missing, null or NaN amount blocks it. |
| HackathonCard.CanEndCases | src/components/HackathonCard.js:9-11 | End iff organizer, not manually ended and stored status "active". A manually ended record or a non-organizer gets neither action. Fund implies End. |
| HackathonCard.StatusLabelCases | src/components/HackathonCard.js:27-30 | The label is "ENDED" if manually ended, "UNKNOWN" for a missing or empty status, else the upper-cased status. The funded line excludes Fund. |
| HackathonCard.BadgeClassCases | src/components/HackathonCard.js:25 | Green iff not manually ended and stored "active". Red iff manually ended or stored "ended". Grey for every other status, a missing one included. A card offering Fund or End is green. |
| HackathonDetailsPage.IsOrganizer | src/pages/HackathonDetailsPage.js:15 | `isOrganizer`: the role is organizer and the ids are `===`, so two missing ids match. Stated in `GuardsExclusive`. |
| HackathonDetailsPage.IsParticipant | src/pages/HackathonDetailsPage.js:201 | `isParticipant`: some entry carries the user's id. `WithdrawRemoves` and `JoinThenWithdraw` state how join and withdraw change it. |
| HackathonDetailsPage.CanSubmit | src/pages/HackathonDetailsPage.js:202 | `canSubmit`: not the organizer, a participant, stored status "active". Stated in `GuardsExclusive` and `ParticipantActions`. |
| HackathonDetailsPage.CanFund | src/pages/HackathonDetailsPage.js:203 | `canFund`: organizer, stored status "ended", falsy amount. Stated in `GuardsExclusive`. |
| HackathonDetailsPage.ShowEnd | src/pages/HackathonDetailsPage.js:343-348 | The organizer's End button, for stored status "active". Stated in `GuardsExclusive` and `AfterEnd`. |
| HackathonDetailsPage.GuardsExclusive | src/pages/HackathonDetailsPage.js:15-203 | The organizer never gets Submit. End (line 348) and Fund are never offered together. `canFund` iff organizer, status "ended" and a falsy amount. |
| HackathonDetailsPage.AfterEnd | src/pages/HackathonDetailsPage.js:126-131 | After end: status "ended", manually ended at `now`, every other field unchanged. End is no longer offered, and time shows as ended. Fund is offered iff organizer and the amount is falsy. |
| HackathonDetailsPage.AfterFund | src/pages/HackathonDetailsPage.js:170-174 | After fund: the amount and its time are set, every other field is unchanged. A positive amount withdraws Fund. |
| HackathonDetailsPage.WithdrawRemoves | src/pages/HackathonDetailsPage.js:88 | Withdraw removes every entry with the user's id, so the user is no longer a participant. Every other entry keeps its multiplicity. Order is kept: for every split point, the result is the kept part of the prefix followed by the kept part of the rest. |
| HackathonDetailsPage.JoinThenWithdraw | src/pages/HackathonDetailsPage.js:69-88 | After joining, the user is a participant. For a user not yet listed, withdrawing then restores the list. |
| HackathonDetailsPage.GetTimeStatus | src/pages/HackathonDetailsPage.js:218-235 | Ended iff the stored status is "ended". Time-up iff not ended and now is past the end date. Otherwise the whole days and hours left, with 0 <= hours <= 23. |
| HackathonDetailsPage.TimeStatusIgnoresManualEnd | src/pages/HackathonDetailsPage.js:219 | A manually ended record still "active" shows remaining time. |
| HackathonDetailsPage.StatusBadgeClass | src/pages/HackathonDetailsPage.js:238-249 | `getStatusBadgeClass` on the stored status. Its contract is `StatusBadgeClassCases`. |
| HackathonDetailsPage.StatusBadgeClassCases | src/pages/HackathonDetailsPage.js:238-249 | Green iff stored "active", red iff "ended", yellow iff "upcoming", grey for any other or missing status. A badge that is not red goes with a time status that is not "ended". |
| HackathonDetailsPage.ShowsFundedAmount | src/pages/HackathonDetailsPage.js:295 | The "Funded Amount" block, shown when `funded_amount` is truthy. Its contract is `FundedAmountShown`. |
| HackathonDetailsPage.FundedAmountShown | src/pages/HackathonDetailsPage.js:295 | The block shows iff the amount is a non-zero number, negative ones included. A positive amount shows it. It never shows with the Fund button (line 203). |
| HackathonDetailsPage.ParticipantActions | src/pages/HackathonDetailsPage.js:407-432 | The card shows iff the user is not the organizer and the stored status is "active". It offers Join iff the user is also not a participant. It offers Withdraw with Submit Project iff `canSubmit`, and never Withdraw without it. |
| HackathonDetailsPage.OfferedJoinRoundTrip | src/pages/HackathonDetailsPage.js:69-88 | When Join is offered, joining makes the card offer Withdraw with Submit Project, and withdrawing then restores the participant list. |
| HackathonDetailsPage.DetailsPage.FetchData | src/pages/HackathonDetailsPage.js:18-53 | All three responses are stored together, or the screen goes to the listing. Without a token it goes to login. |
| HackathonDetailsPage.DetailsPage.Join | src/pages/HackathonDetailsPage.js:59-76 | On success the user is appended to the participants; nothing else changes. |
| HackathonDetailsPage.DetailsPage.Withdraw | src/pages/HackathonDetailsPage.js:78-95 | On success every entry with the user's id is removed, and the user is no longer a participant. |
| HackathonDetailsPage.DetailsPage.EndHackathon | src/pages/HackathonDetailsPage.js:97-142 | With a token and a successful request the record becomes `Merge(h, EndPatch(now))`. Otherwise nothing changes. |
| HackathonDetailsPage.DetailsPage.FundHackathon | src/pages/HackathonDetailsPage.js:144-185 | A request is sent iff there is a token and the text is a positive `Number`. After success the amount is its `parseFloat`. |
| HackathonsPage.ActiveFirst | src/pages/HackathonsPage.js:19-26 | The reference order of the stable sort. Its contract is in `ActiveFirstPermutes`, `ActiveFirstOrdered` and `ActiveFirstStable`. |
| HackathonsPage.ActiveFirstPermutes | src/pages/HackathonsPage.js:19-26 | The sorted list is a permutation of the fetched list. |
| HackathonsPage.ActiveFirstOrdered | src/pages/HackathonsPage.js:21-23 | Every active hackathon precedes every inactive one. |
| HackathonsPage.ActiveFirstStable | src/pages/HackathonsPage.js:24-25 | Relative order is kept within the active group and within the others. |
| HackathonsPage.ActiveFirstOfOrdered | src/pages/HackathonsPage.js:44-49 | Re-sorting a list already in active-first order changes nothing. |
| HackathonsPage.ActiveFirstOfSplit | src/pages/HackathonsPage.js:44-49 | A list of active hackathons followed by inactive ones sorts to itself. |
| HackathonsPage.FirstInactive | src/pages/HackathonsPage.js:21-23 | The index of the first inactive hackathon: every entry before it is active. |
| HackathonsPage.ActiveFirstSnoc | src/pages/HackathonsPage.js:19-26 | One more hackathon at the end: an active one joins the end of the active group, an inactive one the end of the list. |
| HackathonsPage.MoveLeft | src/pages/HackathonsPage.js:19-26 | One insertion step of the in-place sort: entry `i` moves to position `k`, the entries `k..i-1` shift right by one, the rest stay. |
| HackathonsPage.InsertStep | src/pages/HackathonsPage.js:19-26 | The next prefix of the input sorts to the active group, the new entry if active, the inactive group, and the new entry if inactive. |
| HackathonsPage.ActiveStep | src/pages/HackathonsPage.js:21 | Moving an active entry to the end of the active group keeps the loop state of the sort one entry further. |
| HackathonsPage.InactiveStep | src/pages/HackathonsPage.js:23-25 | An inactive entry left where it is keeps the loop state of the sort one entry further. |
| HackathonsPage.SortActiveFirst | src/pages/HackathonsPage.js:19-26 | Sorting the array in place with the active-first comparator leaves exactly `ActiveFirst` of its old contents. |
| HackathonsPage.FilterByStatus | src/pages/HackathonsPage.js:55-57 | `filteredHackathons`. Its contract is `FilterByStatusCases`. |
| HackathonsPage.FilterByStatusCases | src/pages/HackathonsPage.js:55-57 | "all" shows the list unchanged. Any other filter shows exactly the entries with that status, in order. |
| HackathonsPage.ListingIsOrganizer | src/pages/HackathonsPage.js:174 | The `isOrganizer` passed to each card; `user` may be `null`. Its contract is `ListingCardActions`. |
| HackathonsPage.ListingCardActions | src/pages/HackathonsPage.js:174 | A card in the listing offers End iff the signed-in user is the organizer of a record not manually ended with stored status "active". It offers Fund iff End is offered and the amount is exactly 0. Nobody signed in, or a non-organizer, gets neither. |
| HackathonsPage.ListingPage.Sorted | src/pages/HackathonsPage.js:45-49 | The sort copied into a fresh array returns `ActiveFirst` of the list it was given. |
| HackathonsPage.ListingPage.FetchHackathons | src/pages/HackathonsPage.js:13-36 | On success the list is the response, active first. On failure it stays. It stays in active-first order. |
| HackathonsPage.ListingPage.UpdateHackathon | src/pages/HackathonsPage.js:39-52 | Merges the updates into the entries with the id, then re-sorts. The result is a permutation of the merged list in active-first order. |
| HackathonsPage.ListingPage.OnFund | src/pages/HackathonsPage.js:175-180 | Funds every entry with the card's id from the card's own prize pool. |
| HackathonsPage.ListingPage.OnEnd | src/pages/HackathonsPage.js:181-187 | Marks the entries with the id ended and manually ended at `now`. |
| HackathonsPage.ListingPage.Filtered | src/pages/HackathonsPage.js:55-57 | The list rendered (line 164): all of it for "all". Otherwise exactly the entries with that status; nothing outside the list. |
| HackathonsPage.ListingPage.SetFilter | src/pages/HackathonsPage.js:126-143 | A filter button sets the filter and leaves the list alone. |
| OrganizerHackathonsPage.FundEffect | src/pages/OrganizerHackathonsPage.js:60-64 | Only entries with the id change. Each gets its own prize pool as the amount, stamped `now`. Length, order, ids and pools are kept. |
| OrganizerHackathonsPage.EndEffect | src/pages/OrganizerHackathonsPage.js:65-69 | Only entries with the id change. They become ended and manually ended at `now`. |
| OrganizerHackathonsPage.UpdatesIdempotent | src/pages/OrganizerHackathonsPage.js:60-69 | Fund, or End, applied twice with the same timestamp is applied once. |
| OrganizerHackathonsPage.OrganizerPage.FetchHackathons | src/pages/OrganizerHackathonsPage.js:13-36 | Without a token, go to login. On success the list is the response unsorted. On failure go to the listing. |
| OrganizerHackathonsPage.OrganizerPage.OnFund | src/pages/OrganizerHackathonsPage.js:60-64 | The list becomes the map-by-id fund from each entry's own pool. |
| OrganizerHackathonsPage.OrganizerPage.OnEnd | src/pages/OrganizerHackathonsPage.js:65-69 | The list becomes the map-by-id end update. |
| CreateHackathonPage.PoolNotPositive | src/pages/CreateHackathonPage.js:25 | `parseFloat(pool) <= 0`, false for NaN. `CheckFields` and `ValidateForm` state its use. |
| CreateHackathonPage.StartsInPast | src/pages/CreateHackathonPage.js:31 | `startDate < now`, false for an invalid date. `ValidateForm` states its use. |
| CreateHackathonPage.EndsNoLaterThanStart | src/pages/CreateHackathonPage.js:34 | `endDate <= startDate`, false when either date is invalid. `ValidateForm` states its use. |
| CreateHackathonPage.CheckFields | src/pages/CreateHackathonPage.js:19-25 | The first five checks: each missing field gets its "required" error, and a prize pool that parses to a number <= 0 gets the positive-number error. |
| CreateHackathonPage.ValidateForm | src/pages/CreateHackathonPage.js:18-40 | Each missing field gets its own "required" error. A prize pool parsing to <= 0 is refused, while NaN passes. A start before now is refused. An end not after the start is refused, including equal dates. A date check never overwrites a "required" message. Valid iff there are no errors. |
| SubmitProjectPage.AcceptsSubmissions | src/pages/SubmitProjectPage.js:36 | The gate: only stored status "active" is accepted, so a missing status is refused. `SubmitPage.FetchHackathon` and `Consistency.SubmitGateAgrees` state its use. |
| SubmitProjectPage.ValidateForm | src/pages/SubmitProjectPage.js:51-58 | Each missing idea, description or public key gets exactly its own error. No other key is ever set, so teammate names and GitHub link (lines 14-15) never affect validity. Valid iff all three are present. |
| SubmitProjectPage.SubmitPage.FetchHackathon | src/pages/SubmitProjectPage.js:21-49 | A loaded hackathon whose status is not "active" sends the user to its details. Without a token, go to login. A failure goes to the listing. |
| SubmitProjectPage.SubmitPage.HandleSubmit | src/pages/SubmitProjectPage.js:65-85 | The form is posted exactly when the three required fields are present. |
| SignupPage.KnownRole | src/pages/SignupPage.js:20 | The roles a new account may take: "user" and "organizer". `ValidateForm` and `DefaultRolePasses` state its use. |
| SignupPage.EmptyEmailDoesNotMatch | src/pages/SignupPage.js:16-17 | The empty text fails the e-mail pattern, so "required" is the pattern's empty case. |
| SignupPage.ValidateForm | src/pages/SignupPage.js:14-23 | Email has at most one error: "required" if empty, "invalid" if it fails the pattern. Password: "required" if empty, "too short" under 6 characters. A role other than user or organizer is refused. Valid iff there are no errors. |
| SignupPage.DefaultRolePasses | src/pages/SignupPage.js:10-20 | The default role "user" passes. Other roles, such as "admin" or the empty string, do not. |
| LoginPage.ValidateForm | src/pages/LoginPage.js:13-22 | The same email and password checks as sign-up. Valid iff there are no errors. |
| LoginPage.CleanFormData | src/pages/LoginPage.js:35-38 | Each field becomes its own `trim` (whose slice and white-space facts are `JsText.Trim`'s contract). The results are no longer than the inputs, and cleaning again changes nothing. |
| LoginPage.HandleSubmit | src/pages/LoginPage.js:29-39 | A form is sent iff the email matches the pattern and the password has at least 6 characters. It is sent as the trimmed email and trimmed password; no other form is sent. |
| LoginPage.SpacesPassword | src/pages/LoginPage.js:17-18 | Any password of six or more white-space characters passes the length check, which sees the untrimmed value, and is sent as the empty password (line 37). |
| LoginPage.PaddedEmail | src/pages/LoginPage.js:16 | Any matching email with visible ends, padded with one white-space character on each side, still passes the pattern and is sent without the padding (line 36). |
| Consistency.FundGuardsDisjoint | src/components/HackathonCard.js:10 | Card Fund never coincides with details Fund (HackathonDetailsPage.js:203) or table Fund (SubmissionTable.js:220). |
| Consistency.ManuallyEndedButActive | src/components/HackathonCard.js:9-27 | Consider a manually ended record still "active". The card and the table treat it as ended. The details screen shows it active, offers End and never Fund. The submission gate lets it through. |
| Consistency.GoToDetailsNarrower | src/pages/SubmissionsPage.js:124 | "Go to Details" implies the table's Fund (SubmissionTable.js:220). A missing or NaN amount gets Fund but no "Go to Details". |
| Consistency.KeylessWinners | src/pages/SubmissionsPage.js:32-33 | Winners stored as keyless records give step 3, and the workflow screen would send Distribute. The table selects nobody and hides Distribute (SubmissionTable.js:18). |
| Consistency.StringWinners | src/pages/SubmissionsPage.js:32-33 | Winners stored as a non-empty JSON string give the same disagreement with SubmissionTable.js:17-20. |
| Consistency.EndIsFinal | src/components/HackathonCard.js:11 | After the end patch that the listing, the organizer screen and the details screen apply, no screen offers End again and the card never offers Fund. The table's Fund (SubmissionTable.js:211) then needs a falsy amount and prizes not distributed. Details Fund needs the organizer and a falsy amount. |
| Consistency.FundUpdatesAgree | src/pages/HackathonsPage.js:175-180 | With unique ids, the listing's fund from the card's pool equals the organizer screen's fund from each entry's own pool (OrganizerHackathonsPage.js:61-63). It shows the same records, active first. |
| Consistency.FundUpdatesDisagreeOnSharedId | src/pages/HackathonsPage.js:176-177 | With two entries sharing an id, the listing gives both the pressed card's prize pool. |
| Consistency.SubmitGateAgrees | src/pages/SubmitProjectPage.js:36 | Whoever may submit on the details screen (HackathonDetailsPage.js:202) passes the submission gate. |

## Left out

- HTTP requests, toasts, `console` output, local storage and navigation are not modelled as effects. Request outcomes, whether a token is stored and the target route are parameters or fields.
- Loading flags and spinners, animation, and rendering other than the guards listed above are not modelled.
- The `end-only` request, and the fallback to `end` when it fails (HackathonDetailsPage.js:107-120), are one `posted` outcome.
- The refresh after end and fund (HackathonDetailsPage.js:134, 177) is a separate `FetchData` call.
- The 50/30/20 prize split and the per-winner payout text (SubmissionTable.js:136-143) are server output echoed to the user. The split is not computed on the client.
- SubmissionTable's `handleEndHackathon` and the `onSetWinners` callbacks (SubmissionTable.js:44-61, 80, 111, 149) are not modelled: they only post and refresh.
- The effect that re-reads the selection whenever the record changes (SubmissionTable.js:30-32) is not modelled. Re-reading after Set Winners is.
- Winner arrays whose elements are `null` make `w.public_key` throw outside the `try` (SubmissionTable.js:11). Winner records are modelled as objects whose key may be missing, so this case is left out.
- Submissions without a public key make `handleWinnerSelect(undefined)` add `undefined`. Keys are modelled as strings.
- Amounts that arrive from the API as numeric strings are not modelled. Every amount is a number, `null`, missing or NaN.
- `Infinity`, and end dates that do not parse (which make every comparison false), are not modelled in `GetTimeStatus`.
- JsText.ToUpper: upper-cases ASCII letters only, because full Unicode case mapping is out of scope.
- SignupPage.ValidateForm: `length` counts characters here rather than UTF-16 code units.
- LoginPage.ValidateForm: `length` counts characters here rather than UTF-16 code units.
- The details screen validates the fund amount with `Number` but stores `parseFloat` of it (HackathonDetailsPage.js:154, 172). Both are parameters; the model does not decide whether they agree.
- The details screen reads `user` as `JSON.parse(stored \|\| '{}')` (HackathonDetailsPage.js:14), so it is always an object; a stored literal `null` is not modelled.
- `{funded_amount && …}` (HackathonDetailsPage.js:295) renders the text `0` or `NaN` for such an amount; only whether the block shows is modelled.
- Stale closures over React state (two clicks in one render) are not modelled: each handler sees the latest state.
- NavBar, the user profile, the organizer dashboard, the landing and about pages, and App routing are not part of this model.
