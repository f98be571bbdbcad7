/**
 * The participant's pick'em screen: which round is shown by default, the participant's
 * selections (restored from their stored pick, changed one match at a time), whether they may
 * submit, and what a submission writes to the `picks` collection.
 *
 * The signed-in user is their uid or `None`; `configured` says whether the store is configured
 * and ready. Messages and tones of the status banner are reduced to a `SubmitStatus`.
 */
module PickemPage {
  import opened Wrappers
  import opened Pickem
  import opened PickStore
  import opened RoundLookup

  /**
   * The round selected once the rounds are loaded: a selection already made is kept; otherwise
   * the first round open for picks, or failing that the first round of the list.
   */
  function DefaultRoundId(selected: Option<string>, rounds: seq<Round>, now: int): (r: Option<string>)
    ensures Truthy(selected) || rounds == [] ==> r == selected
    ensures !Truthy(selected) && rounds != [] ==> exists k :: 0 <= k < |rounds| && r == Some(rounds[k].id)
    ensures !Truthy(selected) && rounds != [] && (exists k :: 0 <= k < |rounds| && IsRoundOpenForPicks(Some(rounds[k]), now)) ==>
      exists k :: 0 <= k < |rounds| && r == Some(rounds[k].id) && IsRoundOpenForPicks(Some(rounds[k]), now)
                  && forall j :: 0 <= j < k ==> !IsRoundOpenForPicks(Some(rounds[j]), now)
    ensures !Truthy(selected) && rounds != [] && (forall k :: 0 <= k < |rounds| ==> !IsRoundOpenForPicks(Some(rounds[k]), now)) ==>
      r == Some(rounds[0].id)
  {
    if Truthy(selected) || rounds == [] then selected
    else
      match FirstWhere(rounds, (round: Round) => IsRoundOpenForPicks(Some(round), now))
      case Some(k) => Some(rounds[k].id)
      case None => Some(rounds[0].id)
  }

  /** Round documents carry distinct ids. */
  predicate DistinctRoundIds(rounds: seq<Round>) {
    forall a, b :: 0 <= a < b < |rounds| ==> rounds[a].id != rounds[b].id
  }

  /**
   * The default selection always names a listed round, and that round is open whenever some
   * listed round is.
   */
  lemma DefaultRoundIsShown(rounds: seq<Round>, now: int)
    requires rounds != []
    requires DistinctRoundIds(rounds)
    ensures FindRound(rounds, DefaultRoundId(None, rounds, now)).Some?
    ensures (exists k :: 0 <= k < |rounds| && IsRoundOpenForPicks(Some(rounds[k]), now)) ==>
      IsRoundOpenForPicks(FindRound(rounds, DefaultRoundId(None, rounds, now)), now)
  {
    var selected := DefaultRoundId(None, rounds, now);
    var k :| 0 <= k < |rounds| && selected == Some(rounds[k].id);
    var found := FindRound(rounds, selected);
    assert found.Some?;
    assert found.value == rounds[k] by {
      var f :| 0 <= f < |rounds| && found.value == rounds[f];
      assert rounds[f].id == rounds[k].id;
    }
    if exists o :: 0 <= o < |rounds| && IsRoundOpenForPicks(Some(rounds[o]), now) {
      var o :| 0 <= o < |rounds| && selected == Some(rounds[o].id) && IsRoundOpenForPicks(Some(rounds[o]), now);
      assert rounds[o].id == rounds[k].id;
    }
  }

  /**
   * The participant's pick for the round: the first stored pick of that round owned by that
   * user (the query asks for at most one).
   */
  function UserPick(picks: seq<Pick>, roundId: Option<string>, uid: Option<string>): (r: Option<Pick>)
    ensures roundId.None? || uid.None? ==> r.None?
    ensures r.Some? ==> r.value in picks && Some(r.value.doc.roundId) == roundId && Some(r.value.doc.userId) == uid
    ensures r.None? && roundId.Some? && uid.Some? ==>
      forall k :: 0 <= k < |picks| ==> picks[k].doc.roundId != roundId.value || picks[k].doc.userId != uid.value
  {
    if roundId.None? || uid.None? then None
    else
      match FirstWhere(picks, (p: Pick) => p.doc.roundId == roundId.value && p.doc.userId == uid.value)
      case Some(k) => Some(picks[k])
      case None => None
  }

  /** The selections being edited: match id to the chosen team (`undefined` when stored so). */
  type Choices = map<MatchId, Option<TeamId>>

  /**
   * The choices read back from stored selections, in order: entries without a truthy match id
   * are skipped, and a later entry for the same match overwrites an earlier one.
   */
  function Restored(sels: seq<Selection>): Choices {
    if sels == [] then map[]
    else
      var prior := Restored(sels[..|sels| - 1]);
      var s := sels[|sels| - 1];
      if Truthy(s.matchId) then prior[s.matchId.value := s.predictedWinnerTeamId] else prior
  }

  /** Entry `i` has a truthy match id and no later entry names the same match. */
  predicate LastFor(sels: seq<Selection>, i: int) {
    && 0 <= i < |sels|
    && Truthy(sels[i].matchId)
    && forall j :: i < j < |sels| ==> sels[j].matchId != sels[i].matchId
  }

  /** A match has a restored choice iff some stored selection names it. */
  lemma {:induction false} RestoredKeys(sels: seq<Selection>, id: MatchId)
    ensures id in Restored(sels) <==>
      exists i :: 0 <= i < |sels| && Truthy(sels[i].matchId) && sels[i].matchId.value == id
  {
    if sels != [] {
      var n := |sels|;
      var prior := sels[..n - 1];
      RestoredKeys(prior, id);
      if exists i :: 0 <= i < n && Truthy(sels[i].matchId) && sels[i].matchId.value == id {
        var i :| 0 <= i < n && Truthy(sels[i].matchId) && sels[i].matchId.value == id;
        if i < n - 1 {
          assert prior[i] == sels[i];
        }
      }
      if exists i :: 0 <= i < n - 1 && Truthy(prior[i].matchId) && prior[i].matchId.value == id {
        var i :| 0 <= i < n - 1 && Truthy(prior[i].matchId) && prior[i].matchId.value == id;
        assert sels[i] == prior[i];
      }
    }
  }

  /** The restored choice for a match is the team of the last stored selection naming it. */
  lemma {:induction false} RestoredValue(sels: seq<Selection>, id: MatchId)
    requires id in Restored(sels)
    ensures exists i :: LastFor(sels, i) && sels[i].matchId == Some(id)
                        && Restored(sels)[id] == sels[i].predictedWinnerTeamId
  {
    var n := |sels|;
    var prior := sels[..n - 1];
    var last := sels[n - 1];
    if Truthy(last.matchId) && last.matchId.value == id {
      assert LastFor(sels, n - 1);
    } else {
      assert id in Restored(prior);
      RestoredValue(prior, id);
      var i :| LastFor(prior, i) && prior[i].matchId == Some(id)
               && Restored(prior)[id] == prior[i].predictedWinnerTeamId;
      assert sels[i] == prior[i];
      forall j | i < j < n
        ensures sels[j].matchId != sels[i].matchId
      {
        if j < n - 1 {
          assert sels[j] == prior[j];
        }
      }
      assert LastFor(sels, i);
    }
  }

  /**
   * The choices shown for the selected round: none without a round, the participant's stored
   * selections when their pick has any, none otherwise.
   */
  function ChoicesForRound(round: Option<Round>, userPick: Option<Pick>): (r: Choices)
    ensures round.None? || userPick.None? || !HasSelections(Some(userPick.value.doc)) ==> r == map[]
  {
    if round.None? then map[]
    else if userPick.Some? && HasSelections(Some(userPick.value.doc)) then Restored(userPick.value.doc.selections.value)
    else map[]
  }

  /** The effect that resets the choices when the round or the participant's pick changes. */
  method RestoreChoices(round: Option<Round>, userPick: Option<Pick>) returns (chosen: Choices)
    ensures chosen == ChoicesForRound(round, userPick)
  {
    if round.None? {
      return map[];
    }
    if userPick.None? || userPick.value.doc.selections.None? || |userPick.value.doc.selections.value| == 0 {
      return map[];
    }
    var sels := userPick.value.doc.selections.value;
    chosen := map[];
    var i := 0;
    while i < |sels|
      invariant 0 <= i <= |sels|
      invariant chosen == Restored(sels[..i])
    {
      assert sels[..i + 1][..i] == sels[..i];
      var s := sels[i];
      if s.matchId.Some? && s.matchId.value != "" {
        chosen := chosen[s.matchId.value := s.predictedWinnerTeamId];
      }
      i := i + 1;
    }
    assert sels[..|sels|] == sels;
  }

  /** Choosing `team` for one match: that match's choice is replaced, every other one kept. */
  function HandleSelection(chosen: Choices, matchId: MatchId, team: Option<TeamId>): (r: Choices)
    ensures r.Keys == chosen.Keys + {matchId}
    ensures r[matchId] == team
    ensures forall id :: id in chosen && id != matchId ==> r[id] == chosen[id]
  {
    chosen[matchId := team]
  }

  /** `selections[id]`: the chosen team, `undefined` when the match has no choice. */
  function ChoiceFor(chosen: Choices, id: MatchId): Option<TeamId> {
    if id in chosen then chosen[id] else None
  }

  /** A signed-in participant may edit exactly while the selected round is active. */
  function IsEditable(uid: Option<string>, round: Option<Round>, now: int): (editable: bool)
    ensures editable <==> uid.Some? && round.Some? && GetRoundStatus(round, now) == Active
  {
    uid.Some? && round.Some? && IsRoundOpenForPicks(round, now)
  }

  /** The round has matches and each of them has a truthy choice. */
  function IsComplete(roundMatches: seq<Match>, chosen: Choices): (complete: bool)
    ensures complete <==> |roundMatches| > 0 && forall k :: 0 <= k < |roundMatches| ==> Truthy(ChoiceFor(chosen, roundMatches[k].id))
  {
    |roundMatches| > 0 && forall m | m in roundMatches :: Truthy(ChoiceFor(chosen, m.id))
  }

  /**
   * On the round's own ids, dangling ids dropped: the round is complete iff at least one of
   * its ids names a known match and every id that does has a truthy choice.
   */
  lemma CompleteIffEveryKnownIdChosen(ids: seq<MatchId>, index: map<MatchId, Match>, chosen: Choices)
    requires StoredUnderOwnId(index)
    ensures IsComplete(ResolveMatches(ids, index), chosen) <==>
      && (exists id :: id in ids && id in index)
      && forall id :: id in ids && id in index ==> Truthy(ChoiceFor(chosen, id))
  {
    var r := ResolveMatches(ids, index);
    EveryIdAccountedFor(ids, index);
    ResolvedFromListedIds(ids, index);
    if IsComplete(r, chosen) {
      assert r[0] in r;
      forall id | id in ids && id in index
        ensures Truthy(ChoiceFor(chosen, id))
      {
        var k :| 0 <= k < |r| && r[k] == index[id];
        assert r[k].id == id;
      }
    }
    if (exists id :: id in ids && id in index) && forall id :: id in ids && id in index ==> Truthy(ChoiceFor(chosen, id)) {
      var id0 :| id0 in ids && id0 in index;
      assert index[id0] in r;
      forall k | 0 <= k < |r|
        ensures Truthy(ChoiceFor(chosen, r[k].id))
      {
        assert r[k] in r;
        var id :| id in ids && id in index && index[id] == r[k];
      }
    }
  }

  /**
   * Choosing a team for the one match still missing a choice completes the round, and choosing
   * a team never makes a complete round incomplete.
   */
  lemma ChoosingCompletes(roundMatches: seq<Match>, chosen: Choices, matchId: MatchId, team: TeamId)
    requires team != ""
    requires |roundMatches| > 0
    requires forall k :: 0 <= k < |roundMatches| && roundMatches[k].id != matchId ==> Truthy(ChoiceFor(chosen, roundMatches[k].id))
    ensures IsComplete(roundMatches, HandleSelection(chosen, matchId, Some(team)))
  {
  }

  /** The stored selections of a submission: one per round match, in round order. */
  function Payload(roundMatches: seq<Match>, chosen: Choices): (sels: seq<Selection>)
    ensures |sels| == |roundMatches|
    ensures forall k :: 0 <= k < |roundMatches| ==>
      sels[k] == Selection(Some(roundMatches[k].id), ChoiceFor(chosen, roundMatches[k].id))
  {
    if roundMatches == [] then []
    else
      var n := |roundMatches|;
      Payload(roundMatches[..n - 1], chosen) + [Selection(Some(roundMatches[n - 1].id), ChoiceFor(chosen, roundMatches[n - 1].id))]
  }

  /**
   * Submitting and reading back: the stored selections restore exactly the choices of the
   * round's matches, provided no match id is empty (an empty id is skipped on the way back).
   */
  lemma PayloadRestores(roundMatches: seq<Match>, chosen: Choices)
    requires forall k :: 0 <= k < |roundMatches| ==> roundMatches[k].id != ""
    ensures forall id :: id in Restored(Payload(roundMatches, chosen)) <==>
      exists k :: 0 <= k < |roundMatches| && roundMatches[k].id == id
    ensures forall id :: id in Restored(Payload(roundMatches, chosen)) ==>
      Restored(Payload(roundMatches, chosen))[id] == ChoiceFor(chosen, id)
  {
    var sels := Payload(roundMatches, chosen);
    forall id
      ensures id in Restored(sels) <==> exists k :: 0 <= k < |roundMatches| && roundMatches[k].id == id
    {
      RestoredKeys(sels, id);
      if exists k :: 0 <= k < |roundMatches| && roundMatches[k].id == id {
        var k :| 0 <= k < |roundMatches| && roundMatches[k].id == id;
        assert Truthy(sels[k].matchId) && sels[k].matchId.value == id;
      }
    }
    forall id | id in Restored(sels)
      ensures Restored(sels)[id] == ChoiceFor(chosen, id)
    {
      RestoredValue(sels, id);
    }
  }

  datatype SubmitStatus =
    | NotConfigured   // the store is not configured or not ready
    | SignedOut       // nobody is signed in
    | RoundClosed     // the round is not open for picks
    | Incomplete      // some match of the round has no choice
    | PickUpdated     // the existing pick was overwritten
    | PickCreated     // a new pick was stored
    | SaveFailed      // the store refused the write

  /** What a submission does, decided before any write. */
  datatype Submission =
    | Rejected(reason: SubmitStatus)
    | UpdateExisting(id: PickId, userId: string, roundId: string, selections: seq<Selection>)
    | CreateNew(doc: PickDoc)

  /**
   * The checks of a submission, in order, and then the write: an update of the participant's
   * pick when they have one (its score is kept), otherwise a new pick scored 0.
   */
  function SubmitPlan(
    configured: bool, uid: Option<string>, round: Option<Round>, now: int,
    roundMatches: seq<Match>, chosen: Choices, userPick: Option<Pick>): (plan: Submission)
    ensures plan == Rejected(NotConfigured) <==> !configured
    ensures plan == Rejected(SignedOut) <==> configured && uid.None?
    ensures plan == Rejected(RoundClosed) <==> configured && uid.Some? && !IsEditable(uid, round, now)
    ensures plan == Rejected(Incomplete) <==> configured && IsEditable(uid, round, now) && !IsComplete(roundMatches, chosen)
    ensures !plan.Rejected? ==>
      && configured && uid.Some? && round.Some? && GetRoundStatus(round, now) == Active
      && IsComplete(roundMatches, chosen)
    ensures plan.UpdateExisting? <==> !plan.Rejected? && userPick.Some?
    ensures plan.UpdateExisting? ==>
      plan == UpdateExisting(userPick.value.id, uid.value, round.value.id, Payload(roundMatches, chosen))
    ensures plan.CreateNew? ==>
      plan.doc == PickDoc(uid.value, round.value.id, Some(Payload(roundMatches, chosen)), Some(0), ServerTimestamp, ServerTimestamp)
  {
    if !configured then Rejected(NotConfigured)
    else if uid.None? then Rejected(SignedOut)
    else if !IsEditable(uid, round, now) then Rejected(RoundClosed)
    else if !IsComplete(roundMatches, chosen) then Rejected(Incomplete)
    else
      var sels := Payload(roundMatches, chosen);
      if userPick.Some? then UpdateExisting(userPick.value.id, uid.value, round.value.id, sels)
      else CreateNew(PickDoc(uid.value, round.value.id, Some(sels), Some(0), ServerTimestamp, ServerTimestamp))
  }

  /**
   * The submit handler: runs the checks, then updates or adds the pick. `newId` is the id the
   * store assigns to a new pick and `refused` whether it refuses the write.
   */
  method HandleSubmit(
    store: PickCollection, configured: bool, uid: Option<string>, round: Option<Round>, now: int,
    roundMatches: seq<Match>, chosen: Choices, userPick: Option<Pick>, newId: PickId, refused: bool)
    returns (status: SubmitStatus)
    modifies store
    ensures match SubmitPlan(configured, uid, round, now, roundMatches, chosen, userPick)
      case Rejected(reason) =>
        status == reason && store.docs == old(store.docs)
      case UpdateExisting(id, userId, roundId, sels) =>
        && (status == PickUpdated <==> !refused && id in old(store.docs))
        && (status != PickUpdated ==> status == SaveFailed)
        && store.docs == if status == PickUpdated then WithEntry(old(store.docs), id, userId, roundId, sels) else old(store.docs)
      case CreateNew(doc) =>
        && (status == PickCreated <==> !refused && newId !in old(store.docs))
        && (status != PickCreated ==> status == SaveFailed)
        && store.docs == if status == PickCreated then old(store.docs)[newId := doc] else old(store.docs)
  {
    if !configured {
      return NotConfigured;
    }
    if uid.None? {
      return SignedOut;
    }
    if !IsEditable(uid, round, now) {
      return RoundClosed;
    }
    if !IsComplete(roundMatches, chosen) {
      return Incomplete;
    }
    var sels := Payload(roundMatches, chosen);
    if userPick.Some? {
      var ok := store.UpdateEntry(userPick.value.id, uid.value, round.value.id, sels, refused);
      status := if ok then PickUpdated else SaveFailed;
    } else {
      var doc := PickDoc(uid.value, round.value.id, Some(sels), Some(0), ServerTimestamp, ServerTimestamp);
      var ok := store.Add(newId, doc, refused);
      status := if ok then PickCreated else SaveFailed;
    }
  }

  /**
   * A submission that was written is shown back unchanged: reading the stored pick restores,
   * for every match of the round, the team that was chosen for it, and nothing else.
   */
  lemma SubmittedChoicesComeBack(
    configured: bool, uid: Option<string>, round: Option<Round>, now: int,
    roundMatches: seq<Match>, chosen: Choices, userPick: Option<Pick>, stored: PickDoc)
    requires forall k :: 0 <= k < |roundMatches| ==> roundMatches[k].id != ""
    requires !SubmitPlan(configured, uid, round, now, roundMatches, chosen, userPick).Rejected?
    requires stored.selections == Some(Payload(roundMatches, chosen))
    ensures forall id :: id in ChoicesForRound(round, Some(Pick(uid.value, stored))) <==>
      exists k :: 0 <= k < |roundMatches| && roundMatches[k].id == id
    ensures forall id :: id in ChoicesForRound(round, Some(Pick(uid.value, stored))) ==>
      ChoicesForRound(round, Some(Pick(uid.value, stored)))[id] == chosen[id]
  {
    PayloadRestores(roundMatches, chosen);
    forall id | exists k :: 0 <= k < |roundMatches| && roundMatches[k].id == id
      ensures id in chosen
    {
      var k :| 0 <= k < |roundMatches| && roundMatches[k].id == id;
      assert Truthy(ChoiceFor(chosen, roundMatches[k].id));
    }
  }
}
