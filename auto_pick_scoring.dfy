/**
 * The automatic scoring pass that runs whenever the selected round, its matches or its picks
 * change: it recomputes every pick's score and writes the ones that are usable and different.
 *
 * One pass is modelled, sequentially. Two oracles stand for what the pass cannot see:
 * `refused[i]` says whether the store refuses the write issued for `picks[i]`, and
 * `cancelled[i]` is the value of the cancellation flag when the pass looks at it right after
 * that write. Positions an oracle does not cover answer `false`.
 */
module AutoPickScoring {
  import opened Wrappers
  import opened Pickem
  import opened PickStore

  /** The oracle's answer at position `i`. */
  function Flag(oracle: seq<bool>, i: nat): bool {
    i < |oracle| && oracle[i]
  }

  /** `matches.filter((match) => determineMatchWinner(match))`. */
  function FinishedMatches(matches: seq<Match>): (r: seq<Match>)
    ensures |r| <= |matches|
    ensures forall m :: m in r ==> m in matches && Decides(m)
    ensures |r| == 0 <==> forall i :: 0 <= i < |matches| ==> !Decides(matches[i])
  {
    if matches == [] then []
    else (if Decides(matches[0]) then [matches[0]] else []) + FinishedMatches(matches[1..])
  }

  /** The guards checked before the loop: configured store, round, matches, picks, a result. */
  predicate ScoringEnabled(configured: bool, round: Option<Round>, matches: seq<Match>, picks: seq<Pick>) {
    configured && round.Some? && |matches| > 0 && |picks| > 0 && |FinishedMatches(matches)| > 0
  }

  /**
   * The score the pass writes for `pick`: the computed one, when it evaluated at least one
   * selection and differs from the stored score (absent counts as 0); otherwise nothing.
   */
  function ScoreUpdate(matches: seq<Match>, pick: Pick): Option<int> {
    var computed := ScoreOfPick(matches, Some(pick.doc));
    if computed.totalEvaluated == 0 || pick.doc.score.GetOr(0) == computed.score then None
    else Some(computed.score)
  }

  datatype PassResult = PassResult(docs: map<PickId, PickDoc>, attempted: seq<nat>)

  /** The table after the write for one pick was issued; a refused write changes nothing. */
  function AfterWrite(docs: map<PickId, PickDoc>, id: PickId, score: int, refused: bool): map<PickId, PickDoc> {
    if !refused && id in docs then WithScore(docs, id, score) else docs
  }

  /**
   * The loop from position `i` on: the final table, and the positions whose write was issued.
   * A skipped pick does not look at the cancellation flag; an issued write is followed by a
   * look at it, and a set flag ends the loop.
   */
  function PassFrom(
    docs: map<PickId, PickDoc>, matches: seq<Match>, picks: seq<Pick>,
    refused: seq<bool>, cancelled: seq<bool>, i: nat): PassResult
    decreases |picks| - i
  {
    if i >= |picks| then PassResult(docs, [])
    else
      match ScoreUpdate(matches, picks[i])
      case None => PassFrom(docs, matches, picks, refused, cancelled, i + 1)
      case Some(score) =>
        var after := AfterWrite(docs, picks[i].id, score, Flag(refused, i));
        if Flag(cancelled, i) then PassResult(after, [i])
        else
          var rest := PassFrom(after, matches, picks, refused, cancelled, i + 1);
          PassResult(rest.docs, [i] + rest.attempted)
  }

  /** One whole pass: nothing happens unless the guards hold. */
  function Reconcile(
    configured: bool, round: Option<Round>, matches: seq<Match>, picks: seq<Pick>,
    docs: map<PickId, PickDoc>, refused: seq<bool>, cancelled: seq<bool>): PassResult
  {
    if ScoringEnabled(configured, round, matches, picks) then PassFrom(docs, matches, picks, refused, cancelled, 0)
    else PassResult(docs, [])
  }

  /** `runScoring` with the guards of the effect in front of it; returns the positions written. */
  method RunScoring(
    store: PickCollection, configured: bool, round: Option<Round>, matches: seq<Match>, picks: seq<Pick>,
    refused: seq<bool>, cancelled: seq<bool>)
    returns (attempted: seq<nat>)
    modifies store
    ensures PassResult(store.docs, attempted) == Reconcile(configured, round, matches, picks, old(store.docs), refused, cancelled)
  {
    if !configured {
      return [];
    }
    if round.None? || |matches| == 0 {
      return [];
    }
    if |picks| == 0 {
      return [];
    }
    var finalMatches := FinishedMatches(matches);
    if |finalMatches| == 0 {
      return [];
    }

    ghost var outcome := PassFrom(store.docs, matches, picks, refused, cancelled, 0);
    attempted := [];
    var i := 0;
    while i < |picks|
      invariant 0 <= i <= |picks|
      invariant var rest := PassFrom(store.docs, matches, picks, refused, cancelled, i);
        PassResult(rest.docs, attempted + rest.attempted) == outcome
    {
      var pick := picks[i];
      var computed := CalculatePickScore(matches, Some(pick.doc));
      if computed.totalEvaluated == 0 || pick.doc.score.GetOr(0) == computed.score {
        i := i + 1;
        continue;
      }
      var ok := store.UpdateScore(pick.id, computed.score, Flag(refused, i));
      attempted := attempted + [i];
      if Flag(cancelled, i) {
        break;
      }
      i := i + 1;
    }
  }

  /** The positions from `i` on whose pick needs a new score, in list order. */
  function Planned(matches: seq<Match>, picks: seq<Pick>, i: nat): seq<nat>
    decreases |picks| - i
  {
    if i >= |picks| then []
    else (if ScoreUpdate(matches, picks[i]).Some? then [i] else []) + Planned(matches, picks, i + 1)
  }

  /** The plan visits picks in list order, at most once each, and only those needing a write. */
  lemma {:induction false} PlannedPositions(matches: seq<Match>, picks: seq<Pick>, i: nat)
    ensures forall j :: j in Planned(matches, picks, i) <==> i <= j < |picks| && ScoreUpdate(matches, picks[j]).Some?
    ensures forall a, b :: 0 <= a < b < |Planned(matches, picks, i)| ==>
      Planned(matches, picks, i)[a] < Planned(matches, picks, i)[b]
    decreases |picks| - i
  {
    if i < |picks| {
      PlannedPositions(matches, picks, i + 1);
      var rest := Planned(matches, picks, i + 1);
      assert forall b :: 0 <= b < |rest| ==> i < rest[b] by {
        forall b | 0 <= b < |rest| ensures i < rest[b] {
          assert rest[b] in rest;
        }
      }
    }
  }

  /**
   * The writes issued are a prefix of the plan; the pass goes on past a write only when the
   * flag read after it is clear, and it stops short of the plan only because the flag read after
   * its last write was set.
   */
  lemma {:induction false} PassFollowsPlan(
    docs: map<PickId, PickDoc>, matches: seq<Match>, picks: seq<Pick>,
    refused: seq<bool>, cancelled: seq<bool>, i: nat)
    ensures var attempted, plan := PassFrom(docs, matches, picks, refused, cancelled, i).attempted, Planned(matches, picks, i);
      && |attempted| <= |plan|
      && attempted == plan[..|attempted|]
      && (forall k :: 0 <= k < |attempted| - 1 ==> !Flag(cancelled, attempted[k]))
      && (|attempted| < |plan| ==> |attempted| > 0 && Flag(cancelled, attempted[|attempted| - 1]))
    decreases |picks| - i
  {
    if i < |picks| {
      match ScoreUpdate(matches, picks[i])
      case None =>
        PassFollowsPlan(docs, matches, picks, refused, cancelled, i + 1);
      case Some(score) =>
        var after := AfterWrite(docs, picks[i].id, score, Flag(refused, i));
        PassFollowsPlan(after, matches, picks, refused, cancelled, i + 1);
    }
  }

  /** A refused write does not stop the pass: which writes are issued does not depend on refusals. */
  lemma {:induction false} RefusalsDoNotStopThePass(
    docs1: map<PickId, PickDoc>, docs2: map<PickId, PickDoc>, matches: seq<Match>, picks: seq<Pick>,
    refused1: seq<bool>, refused2: seq<bool>, cancelled: seq<bool>, i: nat)
    ensures PassFrom(docs1, matches, picks, refused1, cancelled, i).attempted
         == PassFrom(docs2, matches, picks, refused2, cancelled, i).attempted
    decreases |picks| - i
  {
    if i < |picks| {
      match ScoreUpdate(matches, picks[i])
      case None =>
        RefusalsDoNotStopThePass(docs1, docs2, matches, picks, refused1, refused2, cancelled, i + 1);
      case Some(score) =>
        RefusalsDoNotStopThePass(
          AfterWrite(docs1, picks[i].id, score, Flag(refused1, i)),
          AfterWrite(docs2, picks[i].id, score, Flag(refused2, i)),
          matches, picks, refused1, refused2, cancelled, i + 1);
    }
  }

  /** No two picks of the snapshot share a document id. */
  predicate UniqueIds(picks: seq<Pick>) {
    forall a, b :: 0 <= a < b < |picks| ==> picks[a].id != picks[b].id
  }

  /** `doc` after the update the pass plans for it, if any. */
  function Updated(doc: PickDoc, update: Option<int>): PickDoc {
    match update
    case None => doc
    case Some(score) => Rescored(doc, score)
  }

  /**
   * What the pass does to each document: the pick at a position whose write was issued and not
   * refused gets its computed score (and nothing else of it changes); every other document is
   * left as it was.
   */
  lemma {:induction false} PassOutcomeAt(
    docs: map<PickId, PickDoc>, matches: seq<Match>, picks: seq<Pick>,
    refused: seq<bool>, cancelled: seq<bool>, i: nat)
    requires UniqueIds(picks)
    ensures var out := PassFrom(docs, matches, picks, refused, cancelled, i);
      && out.docs.Keys == docs.Keys
      && (forall a :: a in out.attempted ==> i <= a < |picks| && ScoreUpdate(matches, picks[a]).Some?)
      && (forall j :: i <= j < |picks| && picks[j].id in docs ==>
            out.docs[picks[j].id] ==
              if j in out.attempted && !Flag(refused, j)
              then Updated(docs[picks[j].id], ScoreUpdate(matches, picks[j]))
              else docs[picks[j].id])
      && (forall k :: k in docs && (forall j :: i <= j < |picks| ==> picks[j].id != k) ==> out.docs[k] == docs[k])
    decreases |picks| - i
  {
    if i < |picks| {
      match ScoreUpdate(matches, picks[i])
      case None =>
        PassOutcomeAt(docs, matches, picks, refused, cancelled, i + 1);
      case Some(score) =>
        var after := AfterWrite(docs, picks[i].id, score, Flag(refused, i));
        PassOutcomeAt(after, matches, picks, refused, cancelled, i + 1);
    }
  }

  /**
   * A pass only ever changes scores: no document appears or disappears, and every document
   * keeps its owner, round, selections and creation marker.
   */
  lemma {:induction false} OnlyScoresChange(
    docs: map<PickId, PickDoc>, matches: seq<Match>, picks: seq<Pick>,
    refused: seq<bool>, cancelled: seq<bool>, i: nat)
    ensures var out := PassFrom(docs, matches, picks, refused, cancelled, i).docs;
      && out.Keys == docs.Keys
      && forall k :: k in docs ==> out[k].(score := docs[k].score, updatedAt := docs[k].updatedAt) == docs[k]
    decreases |picks| - i
  {
    if i < |picks| {
      match ScoreUpdate(matches, picks[i])
      case None =>
        OnlyScoresChange(docs, matches, picks, refused, cancelled, i + 1);
      case Some(score) =>
        var after := AfterWrite(docs, picks[i].id, score, Flag(refused, i));
        OnlyScoresChange(after, matches, picks, refused, cancelled, i + 1);
    }
  }

  /** Picks the pass would skip make a pass that changes and issues nothing. */
  lemma {:induction false} QuietPass(
    docs: map<PickId, PickDoc>, matches: seq<Match>, picks: seq<Pick>,
    refused: seq<bool>, cancelled: seq<bool>, i: nat)
    requires forall j :: i <= j < |picks| ==> ScoreUpdate(matches, picks[j]).None?
    ensures PassFrom(docs, matches, picks, refused, cancelled, i) == PassResult(docs, [])
    decreases |picks| - i
  {
    if i < |picks| {
      QuietPass(docs, matches, picks, refused, cancelled, i + 1);
    }
  }

  /** A pick carrying the score the pass planned for it needs no further write. */
  lemma UpdatedIsStable(matches: seq<Match>, pick: Pick)
    ensures ScoreUpdate(matches, Pick(pick.id, Updated(pick.doc, ScoreUpdate(matches, pick)))).None?
  {
    match ScoreUpdate(matches, pick)
    case None =>
    case Some(score) =>
      ScoreDependsOnlyOnSelections(matches, pick.doc, Rescored(pick.doc, score));
  }

  /** The snapshot handed to the next pass: each pick re-read from the table (removed ones drop out). */
  function Refresh(picks: seq<Pick>, docs: map<PickId, PickDoc>): seq<Pick> {
    if picks == [] then []
    else
      (if picks[0].id in docs then [Pick(picks[0].id, docs[picks[0].id])] else []) + Refresh(picks[1..], docs)
  }

  lemma {:induction false} RefreshAt(picks: seq<Pick>, docs: map<PickId, PickDoc>)
    requires forall j :: 0 <= j < |picks| ==> picks[j].id in docs
    ensures |Refresh(picks, docs)| == |picks|
    ensures forall j :: 0 <= j < |picks| ==> Refresh(picks, docs)[j] == Pick(picks[j].id, docs[picks[j].id])
  {
    if picks != [] {
      RefreshAt(picks[1..], docs);
    }
  }

  /** The snapshot agrees with the table: every pick is stored, with the fields it was read with. */
  predicate InSync(picks: seq<Pick>, docs: map<PickId, PickDoc>) {
    forall j :: 0 <= j < |picks| ==> picks[j].id in docs && docs[picks[j].id] == picks[j].doc
  }

  /**
   * Idempotence: after a pass that was not cancelled and whose writes all succeeded, a second
   * pass over the re-read picks issues no write and changes nothing, whatever its oracles say.
   */
  lemma SecondPassWritesNothing(
    docs: map<PickId, PickDoc>, matches: seq<Match>, picks: seq<Pick>,
    refused: seq<bool>, cancelled: seq<bool>, refusedAgain: seq<bool>, cancelledAgain: seq<bool>)
    requires InSync(picks, docs)
    requires UniqueIds(picks)
    requires forall j :: 0 <= j < |picks| ==> !Flag(refused, j) && !Flag(cancelled, j)
    ensures var first := PassFrom(docs, matches, picks, refused, cancelled, 0);
      PassFrom(first.docs, matches, Refresh(picks, first.docs), refusedAgain, cancelledAgain, 0)
        == PassResult(first.docs, [])
  {
    var first := PassFrom(docs, matches, picks, refused, cancelled, 0);
    PassOutcomeAt(docs, matches, picks, refused, cancelled, 0);
    UncancelledPassIssuesThePlan(docs, matches, picks, refused, cancelled);
    PlannedPositions(matches, picks, 0);
    RefreshAt(picks, first.docs);
    var again := Refresh(picks, first.docs);
    forall j | 0 <= j < |picks|
      ensures ScoreUpdate(matches, again[j]).None?
    {
      assert first.docs[picks[j].id] == Updated(picks[j].doc, ScoreUpdate(matches, picks[j]));
      UpdatedIsStable(matches, picks[j]);
    }
    QuietPass(first.docs, matches, again, refusedAgain, cancelledAgain, 0);
  }

  /**
   * While no match has a usable winner no pick needs a write, whatever the guards: the score of
   * every pick then evaluates nothing.
   */
  lemma NoResultsNoWrites(
    configured: bool, round: Option<Round>, matches: seq<Match>, picks: seq<Pick>,
    docs: map<PickId, PickDoc>, refused: seq<bool>, cancelled: seq<bool>)
    requires forall i :: 0 <= i < |matches| ==> !Decides(matches[i])
    ensures forall p :: ScoreUpdate(matches, p).None?
    ensures Reconcile(configured, round, matches, picks, docs, refused, cancelled) == PassResult(docs, [])
  {
    WinnersEmptyIff(matches);
  }

  /** A pass that is never cancelled issues exactly the planned writes, refused or not. */
  lemma UncancelledPassIssuesThePlan(
    docs: map<PickId, PickDoc>, matches: seq<Match>, picks: seq<Pick>, refused: seq<bool>, cancelled: seq<bool>)
    requires forall j :: 0 <= j < |picks| ==> !Flag(cancelled, j)
    ensures PassFrom(docs, matches, picks, refused, cancelled, 0).attempted == Planned(matches, picks, 0)
  {
    PassFollowsPlan(docs, matches, picks, refused, cancelled, 0);
    PlannedPositions(matches, picks, 0);
    var plan := Planned(matches, picks, 0);
    forall k | 0 <= k < |plan|
      ensures !Flag(cancelled, plan[k])
    {
      assert plan[k] in plan;
    }
  }
}
