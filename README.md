# Pick'em contest engine of esports-hub, modelled in Dafny

esports-hub runs a prediction contest ("pick'em") for its esports league. An administrator
creates **rounds**: a name, a start and an end date, an ordered list of match ids, and an
`active` switch. While a round is open, each signed-in participant stores one **pick** per
round: one predicted winner per match of the round. When match results come in, an
**auto-scoring pass** recomputes each pick's score, one point per correct prediction, and
writes back the scores that changed. The administrator can also override a score by hand.

The model covers:

- `Pickem` (`pickem.dfy`): the round lifecycle against a clock (`GetRoundStatus`,
  `IsRoundOpenForPicks`, `DescribeRoundWindow`), the winner of a match, and the score of a
  pick. The score is given by a specification function `ScoreOfPick`, and the method
  `CalculatePickScore` proves the source's two loops against it.
- `PickStore` (`pick_store.dfy`): the `picks` collection as a class holding a map from
  document id to document. Its methods are `updateDoc` (a merge into an existing document)
  and `addDoc`. Whether the store refuses a write, and which id `addDoc` assigns, are inputs.
- `RoundLookup` (`round_lookup.dfy`): `Array.find` and the `matchesMap` index. It also
  resolves a round's `matchIds` into known matches, listing unknown ids separately.
- `AutoPickScoring` (`auto_pick_scoring.dfy`): the guards and the loop of the scoring hook.
  `RunScoring` is a method over a `PickCollection` and is proved against the function
  `PassFrom`. Two oracles stand in for the outside world: one says which writes fail, the
  other what the cancellation flag reads after each write.
- `PickemPage` (`pickem_page.dfy`): the participant screen. It covers the default round,
  restoring a participant's choices from their stored pick, `handleSelection`, `isEditable`,
  `isComplete`, and the submit handler's checks and payload.
- `PickemAdmin` (`pickem_admin.dfy`): the administrator screen. It covers the default round,
  toggling a match in the round form, filling the form from a round, the round payload, the
  screen state as a class, and the manual score override.
- `JsNumber` (`js_number.dfy`): `Number(text)` on the score override text. This includes
  which texts are `NaN`, and the exact value of integer texts.

Modelling choices:

- Dates are milliseconds, already parsed. `None` stands for a date that is missing or
  unparseable.
- The clock reading `now` is a parameter.
- `round.active` is three-valued (unset, `true`, `false`).
- A team or match id counts only when it is truthy, meaning present and not `""`.
- `serverTimestamp()` is an opaque marker.

### Behaviour of the code worth knowing

- While no match of the list has a winner, `calculatePickScore` returns the stored score
  with `totalEvaluated = 0` (`utils/pickem.js:80-82`). So score <= evaluated holds only once
  some match has a winner, and `ScoreOfPick` states the bound in that case only.
- The scoring pass starts only when some match has a truthy winner
  (`useAutoPickScoring.js:12-13`): a final status is not enough, and a finished 10-10 match
  does not start it.
- The cancellation flag is read after each write attempt (`useAutoPickScoring.js:32-34`),
  not before it. The write in progress when the flag is set is always issued; only later
  writes are abandoned.

## Model

| member | source | states |
|---|---|---|
| Pickem.GetRoundStatus | esports-hub/src/utils/pickem.js:22-37 | each of the five statuses holds exactly in its case: inactive iff `active === false`; unscheduled iff the round is absent or a date is missing; upcoming iff now < start; completed iff now > end; active iff start <= now <= end, both inclusive |
| Pickem.StatusNeverMovesBack | esports-hub/src/utils/pickem.js:29-36 | as time advances, a round without both dates keeps its status, and a scheduled round only moves from upcoming to active to completed |
| Pickem.IsRoundOpenForPicks | esports-hub/src/utils/pickem.js:48-55 | open for picks iff the status is active, for every round and every instant |
| Pickem.DescribeRoundWindow | esports-hub/src/utils/pickem.js:39-46 | never empty; "—" without a round or formatter, or when both labels are empty; the other label when one is empty; otherwise the start label, " — " and the end label |
| Pickem.DetermineMatchWinner | esports-hub/src/utils/pickem.js:57-65 | no winner unless the status is `final` or `completed`; no winner on equal scores; otherwise the side with the strictly higher score, a non-number score counting as 0 |
| Pickem.WinnerIgnoresSideOrder | esports-hub/src/utils/pickem.js:59-65 | listing the two sides the other way round gives the same winner |
| Pickem.WinnersKeys | esports-hub/src/utils/pickem.js:72-78 | a match id is in the winners table iff some listed match with that id has a truthy winner |
| Pickem.WinnersValue | esports-hub/src/utils/pickem.js:72-78 | the table entry is the winner of the last listed match with that id that has one (later `set` calls overwrite) |
| Pickem.WinnersEmptyIff | esports-hub/src/utils/pickem.js:72-82 | the winners table is empty iff no listed match has a truthy winner |
| Pickem.TallyOf | esports-hub/src/utils/pickem.js:84-95 | correct <= evaluated <= number of selections |
| Pickem.TallyCounts | esports-hub/src/utils/pickem.js:87-94 | `totalEvaluated` counts exactly the selections whose match has a winner; `totalCorrect` counts exactly those that also predict that winner |
| Pickem.TallyAppend | esports-hub/src/utils/pickem.js:87-94 | the counters of a concatenation of selection lists are the sums of the parts' counters |
| Pickem.ScoreOfPick | esports-hub/src/utils/pickem.js:67-97 | 0/0/0 for an absent pick or missing or empty selections; the stored score (default 0) with nothing evaluated when no match has a winner; otherwise score == correct <= evaluated <= number of selections |
| Pickem.CalculatePickScore | esports-hub/src/utils/pickem.js:67-97 | the two loops (fill the winners table, count the selections) compute exactly `ScoreOfPick` |
| Pickem.ScoreDependsOnlyOnSelections | esports-hub/src/utils/pickem.js:84-96 | once some match has a winner, the result depends only on the selections, never on the stored score |
| Pickem.UnresolvedSelectionChangesNothing | esports-hub/src/utils/pickem.js:87-89 | dropping a selection whose match has no winner leaves the result unchanged |
| Pickem.TiedMatchNeverEvaluated | esports-hub/src/utils/pickem.js:59-96 | a selection for a match that is tied (or unfinished) wherever it is listed counts toward neither counter |
| Pickem.ThreeMatchRound | esports-hub/src/utils/pickem.js:67-97 | a 13-9 final, a 10-10 final and an upcoming 0-0: a pick on all three is evaluated on one match and scores 1; a pick with no selections scores 0 whatever its stored score |
| PickStore.Rescored | esports-hub/src/hooks/useAutoPickScoring.js:23-26 | the score is set and the update marker stamped; every other field of the document is unchanged |
| PickStore.WithScore | esports-hub/src/hooks/useAutoPickScoring.js:23-26 | the same documents, the written one rescored and all others unchanged |
| PickStore.WithEntry | esports-hub/src/pages/PickemPage.jsx:133-145 | a participant update replaces owner, round and selections of that document; its score and creation marker are kept; other documents are unchanged |
| PickStore.PickCollection.constructor | esports-hub/src/hooks/useAutoPickScoring.js:23 | the collection starts with the given documents |
| PickStore.PickCollection.UpdateScore | esports-hub/src/hooks/useAutoPickScoring.js:22-31 | succeeds iff the store accepts and the document exists; on success the table is `WithScore`, otherwise unchanged |
| PickStore.PickCollection.UpdateEntry | esports-hub/src/pages/PickemPage.jsx:143-145 | succeeds iff the store accepts and the document exists; on success the table is `WithEntry`, otherwise unchanged |
| PickStore.PickCollection.Add | esports-hub/src/pages/PickemPage.jsx:146-152 | succeeds iff the store accepts and the new id is free; on success the document is stored under it |
| RoundLookup.FirstWhere | esports-hub/src/pages/PickemPage.jsx:37 | `find`: the first position satisfying the predicate, none exactly when no element does |
| RoundLookup.FindRound | esports-hub/src/pages/PickemPage.jsx:42 | the found round is listed and carries the selected id; nothing is found iff no round carries it |
| RoundLookup.BuildMatchIndex | esports-hub/src/pages/PickemPage.jsx:46-50 | the index has exactly the listed ids as keys, each mapped to the last match listed with it, under its own id |
| RoundLookup.ResolveMatches | esports-hub/src/pages/PickemPage.jsx:58-60 | never longer than the id list; every result is a known match |
| RoundLookup.UnknownMatchIds | esports-hub/src/admin/PickemAdmin.jsx:429-438 | never longer than the id list |
| RoundLookup.ResolveAppend | esports-hub/src/admin/PickemAdmin.jsx:98-101 | resolving and listing unknown ids both distribute over concatenation of id lists |
| RoundLookup.ResolvedFromListedIds | esports-hub/src/pages/PickemPage.jsx:58-60 | every resolved match is the entry of an id that is listed and known |
| RoundLookup.EveryIdAccountedFor | esports-hub/src/admin/PickemAdmin.jsx:429-438 | resolved matches plus unknown ids number exactly the ids; an id is listed as unknown iff it is in the list and not in the index; every known id's match is resolved |
| RoundLookup.RoundMatches | esports-hub/src/admin/PickemAdmin.jsx:98-101 | empty without a round or without `matchIds`; never more matches than ids |
| RoundLookup.RoundUnknownMatchIds | esports-hub/src/admin/PickemAdmin.jsx:429-438 | empty without a round or `matchIds`; otherwise exactly the round's ids missing from the index |
| AutoPickScoring.FinishedMatches | esports-hub/src/hooks/useAutoPickScoring.js:12-13 | keeps only listed matches with a truthy winner; empty iff no match has one |
| AutoPickScoring.RunScoring | esports-hub/src/hooks/useAutoPickScoring.js:8-35 | the table afterwards and the positions written are exactly those of one `Reconcile` pass: nothing unless configured, with a round, matches, picks and a match with a winner; then picks in order, skipping those with nothing evaluated or an unchanged score, a failed write swallowed, and the loop left after a write that sees the cancellation flag |
| AutoPickScoring.PlannedPositions | esports-hub/src/hooks/useAutoPickScoring.js:18-21 | the plan holds exactly the positions whose pick needs a write, each once, in increasing order |
| AutoPickScoring.PassFollowsPlan | esports-hub/src/hooks/useAutoPickScoring.js:18-35 | the writes issued are a prefix of the plan; no write before the last one saw the flag set; the pass stops short of the plan only because the flag read after its last write was set |
| AutoPickScoring.RefusalsDoNotStopThePass | esports-hub/src/hooks/useAutoPickScoring.js:22-31 | which writes are issued does not depend on which of them fail, nor on the table |
| AutoPickScoring.UncancelledPassIssuesThePlan | esports-hub/src/hooks/useAutoPickScoring.js:18-35 | a pass that never sees the flag set issues exactly the planned writes, failing or not |
| AutoPickScoring.PassOutcomeAt | esports-hub/src/hooks/useAutoPickScoring.js:19-31 | with distinct pick ids: no document appears or disappears; a pick whose write was issued and accepted gets its computed score; every other document is left as it was |
| AutoPickScoring.OnlyScoresChange | esports-hub/src/hooks/useAutoPickScoring.js:23-26 | a pass changes only scores and update markers: owner, round, selections and creation marker of every document are kept |
| AutoPickScoring.QuietPass | esports-hub/src/hooks/useAutoPickScoring.js:19-21 | when every pick would be skipped, the pass writes nothing and changes nothing |
| AutoPickScoring.UpdatedIsStable | esports-hub/src/hooks/useAutoPickScoring.js:19-26 | a pick carrying the score the pass computed for it needs no further write |
| AutoPickScoring.SecondPassWritesNothing | esports-hub/src/hooks/useAutoPickScoring.js:19-26 | idempotence: after a pass with no cancellation and no failed write, a second pass over the re-read picks issues no write and changes nothing, whatever its own oracles say |
| AutoPickScoring.NoResultsNoWrites | esports-hub/src/hooks/useAutoPickScoring.js:12-13 | while no match has a truthy winner, no pick needs a write and a pass changes nothing |
| PickemPage.DefaultRoundId | esports-hub/src/pages/PickemPage.jsx:35-40 | a selection already made is kept; otherwise the first open round if any is open, else the first round |
| PickemPage.DefaultRoundIsShown | esports-hub/src/pages/PickemPage.jsx:35-42 | with distinct round ids, the default selection always finds a listed round, and that round is open whenever some listed round is |
| PickemPage.UserPick | esports-hub/src/pages/PickemPage.jsx:62-71 | none without a round or a user; a found pick is stored, of that round and that user; none found iff no stored pick matches both |
| PickemPage.RestoredKeys | esports-hub/src/pages/PickemPage.jsx:79-86 | a match has a restored choice iff some stored selection with a truthy match id names it |
| PickemPage.RestoredValue | esports-hub/src/pages/PickemPage.jsx:79-86 | the restored choice is the team of the last stored selection naming that match |
| PickemPage.ChoicesForRound | esports-hub/src/pages/PickemPage.jsx:73-92 | no choices without a round, without a stored pick, or with no stored selections |
| PickemPage.RestoreChoices | esports-hub/src/pages/PickemPage.jsx:73-92 | the restore effect's loop builds exactly `ChoicesForRound` |
| PickemPage.HandleSelection | esports-hub/src/pages/PickemPage.jsx:94-97 | the chosen match gets the team; every other choice is kept; no other key appears |
| PickemPage.IsEditable | esports-hub/src/pages/PickemPage.jsx:105 | editable iff a user is signed in, a round is selected and its status is active |
| PickemPage.IsComplete | esports-hub/src/pages/PickemPage.jsx:106 | complete iff the round has at least one known match and every one of them has a truthy choice |
| PickemPage.CompleteIffEveryKnownIdChosen | esports-hub/src/pages/PickemPage.jsx:58-106 | on a round's ids, dangling ids dropped: complete iff some id names a known match and every id that does has a truthy choice |
| PickemPage.ChoosingCompletes | esports-hub/src/pages/PickemPage.jsx:94-106 | choosing a team for the only match without a choice makes the round complete |
| PickemPage.Payload | esports-hub/src/pages/PickemPage.jsx:136-139 | one selection per round match, in round order, each naming the match and carrying its choice |
| PickemPage.PayloadRestores | esports-hub/src/pages/PickemPage.jsx:79-139 | with non-empty match ids, restoring the submitted selections gives choices for exactly the round's matches, each equal to the submitted one |
| PickemPage.SubmitPlan | esports-hub/src/pages/PickemPage.jsx:108-153 | checks in order, each failure rejecting with its own reason: not configured, signed out, round not editable, incomplete; past them, the round is active and complete; an existing pick is updated with the payload (its score kept), otherwise a new pick is created with score 0 and both markers |
| PickemPage.HandleSubmit | esports-hub/src/pages/PickemPage.jsx:108-159 | a rejected submission changes nothing; otherwise the table is updated or extended exactly as planned when the store accepts, left unchanged with a failure status when not |
| PickemPage.SubmittedChoicesComeBack | esports-hub/src/pages/PickemPage.jsx:73-152 | after a submission is stored, reading it back restores, for exactly the round's matches, the teams that were chosen |
| PickemAdmin.DefaultAdminRoundId | esports-hub/src/admin/PickemAdmin.jsx:60-65 | a selection already made is kept; otherwise the first round whose `active` is true, else the first round |
| PickemAdmin.Without | esports-hub/src/admin/PickemAdmin.jsx:121 | the id is gone and every other id of the list remains |
| PickemAdmin.WithoutAppend | esports-hub/src/admin/PickemAdmin.jsx:121 | filtering distributes over concatenation |
| PickemAdmin.WithoutAbsent | esports-hub/src/admin/PickemAdmin.jsx:121 | filtering out an id the list lacks returns the list unchanged |
| PickemAdmin.ToggleMatch | esports-hub/src/admin/PickemAdmin.jsx:118-124 | the id is present afterwards iff it was absent before; other ids keep their membership and their order; an absent id is appended at the end |
| PickemAdmin.ToggleTwiceRestores | esports-hub/src/admin/PickemAdmin.jsx:121 | ticking an unlisted match on and off gives back the original list |
| PickemAdmin.ToggleTwiceMovesToEnd | esports-hub/src/admin/PickemAdmin.jsx:121 | ticking a listed match off and on moves it, once, to the end |
| PickemAdmin.DateInput | esports-hub/src/admin/PickemAdmin.jsx:29-30 | a missing date is shown as empty text |
| PickemAdmin.FormFromRound | esports-hub/src/admin/PickemAdmin.jsx:126-138 | missing name, dates and `matchIds` become empty; `active` is ticked unless the round is explicitly switched off |
| PickemAdmin.SavedDate | esports-hub/src/admin/PickemAdmin.jsx:174-175 | empty date text saves no date |
| PickemAdmin.RoundPayload | esports-hub/src/admin/PickemAdmin.jsx:171-178 | empty date inputs are saved as no date; matches and `active` are saved as edited |
| PickemAdmin.EmptyDateUnscheduled | esports-hub/src/admin/PickemAdmin.jsx:174-175 | a round saved with an empty date input reads back as unscheduled, or inactive when switched off |
| PickemAdmin.EditSaveKeepsRound | esports-hub/src/admin/PickemAdmin.jsx:126-178 | opening a round and saving it unchanged keeps its dates, its matches and its status at every instant, given that the date text reads back as the date it shows |
| PickemAdmin.WholeMinute | esports-hub/src/admin/PickemAdmin.jsx:32-37 | the minute shown by the date input: at most the date, less than a minute before it, a whole minute |
| PickemAdmin.EditSaveShiftsDates | esports-hub/src/admin/PickemAdmin.jsx:29-178 | with the UTC text read back as local time, an unchanged save moves both dates to their minute plus the UTC offset; west of UTC a round active from its first minute becomes upcoming |
| PickemAdmin.RoundSavePlan | esports-hub/src/admin/PickemAdmin.jsx:161-193 | nothing without a store; an update of the round being edited when there is one (truthy id), otherwise a new round; both with the form's payload |
| PickemAdmin.RoundCollection.constructor | esports-hub/src/admin/PickemAdmin.jsx:42-45 | the collection starts with the given rounds |
| PickemAdmin.RoundCollection.Update | esports-hub/src/admin/PickemAdmin.jsx:180-185 | succeeds iff the store accepts and the round exists; then the round holds the saved fields |
| PickemAdmin.RoundCollection.Add | esports-hub/src/admin/PickemAdmin.jsx:186-192 | succeeds iff the store accepts and the new id is free; then the new round holds the saved fields |
| PickemAdmin.ScoreToSave | esports-hub/src/admin/PickemAdmin.jsx:205-213 | with no draft, the stored score or 0; a draft is rejected iff it is not a number; an integer draft saves its value |
| PickemAdmin.ClearedDraftSavesZero | esports-hub/src/admin/PickemAdmin.jsx:207-208 | a draft typed and then cleared saves 0, not the stored score |
| PickemAdmin.TypedScoreIsSaved | esports-hub/src/admin/PickemAdmin.jsx:207-208 | an integer typed as its decimal text saves that integer |
| PickemAdmin.AdminScreen.constructor | esports-hub/src/admin/PickemAdmin.jsx:53-58 | empty form, nothing edited or selected, no drafts |
| PickemAdmin.AdminScreen.SelectRound | esports-hub/src/admin/PickemAdmin.jsx:105-108 | changing the selected round discards the score drafts; re-selecting the same round keeps them |
| PickemAdmin.AdminScreen.ChooseDefaultRound | esports-hub/src/admin/PickemAdmin.jsx:60-65 | the selection becomes `DefaultAdminRoundId`; drafts are discarded if it changed |
| PickemAdmin.AdminScreen.Edit | esports-hub/src/admin/PickemAdmin.jsx:126-138 | the round is being edited and selected, and the form is filled from it |
| PickemAdmin.AdminScreen.ToggleFormMatch | esports-hub/src/admin/PickemAdmin.jsx:118-124 | only the form's match list changes, by `ToggleMatch` |
| PickemAdmin.AdminScreen.ChangeDraft | esports-hub/src/admin/PickemAdmin.jsx:201-203 | only that pick's draft changes |
| PickemAdmin.AdminScreen.SaveRound | esports-hub/src/admin/PickemAdmin.jsx:161-199 | writes as `RoundSavePlan` says; on success the form is emptied and editing stops; on failure or without a store, form and editing state are kept |
| PickemAdmin.AdminScreen.SaveScore | esports-hub/src/admin/PickemAdmin.jsx:205-224 | nothing without a store; an error and no write for a non-numeric draft; otherwise only the score and update marker of that pick are written, with a success or failure status |
| JsNumber.NatToString | esports-hub/src/admin/PickemAdmin.jsx:208 | a non-empty digit string whose decimal value is the number |
| JsNumber.IntTextRoundTrip | esports-hub/src/admin/PickemAdmin.jsx:208 | `Number` of the decimal text of an integer up to 2^53 is that integer |
| JsNumber.BlankIsZero | esports-hub/src/admin/PickemAdmin.jsx:208 | an empty or all-white-space text is the number 0 |
| JsNumber.SurroundingSpaceIgnored | esports-hub/src/admin/PickemAdmin.jsx:208 | white space around a literal does not change its value |
| JsNumber.SignedHexIsNaN | esports-hub/src/admin/PickemAdmin.jsx:208-213 | a hexadecimal literal with a minus sign is not a number, so it is rejected |

## Left out

- Firestore reads, subscriptions and query ordering are left out. The rounds, matches and
  picks lists are inputs in the order the queries deliver them.
- Date parsing (`parseDateValue`), `Date.now()`, the locale formatting of dates and
  `formatDateTimeInput` are not modelled. Dates are already-parsed milliseconds, and the
  clock, the date-input formatter and the date-input parser are parameters.
- `PickemAdmin.EditSaveKeepsRound` assumes that the shown date text parses back to the
  stored date. The code's pair does not do that: it drops seconds, and it reads UTC text as
  local time. `PickemAdmin.EditSaveShiftsDates` states what the code does (see Findings).
- `PickemPage.UserPick` assumes that the picks list belongs to the selected round and user.
  The code takes `picksState.data[0]` unfiltered (`PickemPage.jsx:71`), and the collection
  hook keeps the previous list while a new query loads. Right after a round switch, the
  previous round's pick is restored, and a submit then updates that document with the new
  round id. The model does not capture this window.
- `PickemAdmin.SavedDate`: a non-empty date text that does not parse is saved as no date.
  The source would store an invalid `Date` object, which the model does not represent.
- Status messages, tones, `isSubmitting` and the `statusMap` labels and pill classes are
  reduced to status constructors.
- `describeTeam`, `describeMatch`, the teams and users maps, and all rendering are left out.
- `handleDelete` is not modelled. It is a single `deleteDoc` plus state resets.
- `handleChange` is not modelled. It is generic form binding, replaced by the form value
  itself.
- `resetForm` is modelled only inside `SaveRound`.
- `LeaderboardPage.jsx` is not modelled. It repeats the admin screen's default round and
  match resolution, and calls the same scoring hook.
- Concurrent or overlapping scoring passes are not modelled, nor are React's effect re-runs.
  One sequential pass is modelled. The cancellation flag is an oracle read after each write.
- Scores are integers. A stored score that is not a number, a `NaN` score and fractional
  scores are not represented. An absent score is `None` and counts as 0.
- `PickemAdmin.AdminScreen.SaveScore`: a draft that `Number` reads as a fraction, an
  exponent form, `Infinity` or an integer beyond 2^53 is not written by the model. The source
  writes that number.
- `PickemAdmin.ScoreToSave`: such drafts give `NotModelled`. The model does not compute
  their value.
- Values of `active` other than `true`, `false` or missing are not modelled, nor are
  non-array `matches`, `picks`, `selections` or `matchIds`. The `Array.isArray` guards are
  therefore always true in the model.
- `null` and `undefined` team and match ids are both `None`. The code treats them alike
  everywhere that is modelled.
- `AutoPickScoring.SecondPassWritesNothing` is stated for the loop `PassFrom`, not for the
  guarded `Reconcile`. The guards of the two passes are the same, because re-reading keeps
  every pick.
- `AutoPickScoring.PassOutcomeAt` assumes distinct pick ids, as Firestore document ids are.

## Findings

| source | as written | input that shows it | evidently intended | confidence | as-written member | corrected member |
|---|---|---|---|---|---|---|
| esports-hub/src/admin/PickemAdmin.jsx:29-39 | the date input shows the stored date as UTC text (`toISOString().slice(0, 16)`), and the save reads it back with `new Date(text)` (lines 174-175), which takes text without an offset as local time | a round from 2024-05-01T12:00Z, opened and saved unchanged in a browser at UTC-5: its start becomes 17:00Z, so at 12:00Z it reads as upcoming instead of active | opening a round and saving it unchanged keeps its dates | high (not executed) | PickemAdmin.EditSaveShiftsDates | PickemAdmin.EditSaveKeepsRound |
