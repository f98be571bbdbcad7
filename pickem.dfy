/**
 * Round and match rules of the pick'em contest: the lifecycle of a round against a clock,
 * the winner of a finished match, and the score of one participant's pick.
 *
 * Dates are milliseconds, already parsed: `None` stands for a date that is missing or that
 * JavaScript could not parse. The clock reading `now` is a parameter.
 */
module Pickem {
  import opened Wrappers

  type MatchId = string
  type TeamId = string
  type PickId = string

  /** A JavaScript value is truthy here when it is present and not the empty string. */
  predicate Truthy(t: Option<string>) {
    t.Some? && t.value != ""
  }

  /**
   * `round.active` as stored: only an explicit `false` switches a round off, and only an
   * explicit `true` is truthy.
   */
  datatype ActiveFlag = ActiveUnset | ActiveTrue | ActiveFalse

  datatype Round = Round(
    id: string,
    name: Option<string>,
    slug: Option<string>,
    startDate: Option<int>,
    endDate: Option<int>,
    matchIds: Option<seq<MatchId>>,
    active: ActiveFlag)

  datatype RoundStatus = Unscheduled | Inactive | Upcoming | Active | Completed

  /** The round exists, is not switched off and has both dates: the clock decides its status. */
  predicate Scheduled(round: Option<Round>) {
    && round.Some?
    && round.value.active != ActiveFalse
    && round.value.startDate.Some?
    && round.value.endDate.Some?
  }

  predicate SwitchedOff(round: Option<Round>) {
    round.Some? && round.value.active == ActiveFalse
  }

  /** The five-way classification of a round; `active` means start <= now <= end, both inclusive. */
  function GetRoundStatus(round: Option<Round>, now: int): (status: RoundStatus)
    ensures status == Inactive <==> SwitchedOff(round)
    ensures status == Unscheduled <==> !SwitchedOff(round) && !Scheduled(round)
    ensures status == Upcoming <==> Scheduled(round) && now < round.value.startDate.value
    ensures status == Active <==>
      Scheduled(round) && round.value.startDate.value <= now <= round.value.endDate.value
    ensures status == Completed <==>
      Scheduled(round) && round.value.startDate.value <= now && round.value.endDate.value < now
  {
    if round.None? then Unscheduled
    else if round.value.active == ActiveFalse then Inactive
    else if round.value.startDate.None? || round.value.endDate.None? then Unscheduled
    else
      var start, end := round.value.startDate.value, round.value.endDate.value;
      if now < start then Upcoming
      else if now > end then Completed
      else Active
  }

  /** Position of a clock-driven status on the lifecycle upcoming -> active -> completed. */
  function Phase(status: RoundStatus): nat {
    match status
    case Upcoming => 0
    case Active => 1
    case Completed => 2
    case _ => 0
  }

  /**
   * The status of a round never moves backwards in time: unscheduled and inactive rounds keep
   * their status, scheduled ones only advance from upcoming to active to completed.
   */
  lemma StatusNeverMovesBack(round: Option<Round>, earlier: int, later: int)
    requires earlier <= later
    ensures !Scheduled(round) ==> GetRoundStatus(round, earlier) == GetRoundStatus(round, later)
    ensures Scheduled(round) ==>
      Phase(GetRoundStatus(round, earlier)) <= Phase(GetRoundStatus(round, later))
  {
  }

  /** Whether picks may be submitted: exactly when the round's status is `active`. */
  function IsRoundOpenForPicks(round: Option<Round>, now: int): (open: bool)
    ensures open <==> GetRoundStatus(round, now) == Active
  {
    if round.None? || round.value.active == ActiveFalse then false
    else if round.value.startDate.None? || round.value.endDate.None? then false
    else now >= round.value.startDate.value && now <= round.value.endDate.value
  }

  const NoWindow: string := "—"

  /**
   * The human-readable window of a round, from the labels `formatter` gives its two dates.
   * The result is never empty, starts with the start label and ends with the end label.
   */
  function DescribeRoundWindow(round: Option<Round>, formatter: Option<(Option<int> -> string)>): (window: string)
    ensures window != ""
    ensures round.None? || formatter.None? ==> window == NoWindow
    ensures round.Some? && formatter.Some? ==>
      var startLabel, endLabel := formatter.value(round.value.startDate), formatter.value(round.value.endDate);
      && (startLabel == "" && endLabel == "" ==> window == NoWindow)
      && (startLabel == "" && endLabel != "" ==> window == endLabel)
      && (startLabel != "" && endLabel == "" ==> window == startLabel)
      && (startLabel != "" ==> |startLabel| <= |window| && window[..|startLabel|] == startLabel)
      && (endLabel != "" ==> |endLabel| <= |window| && window[|window| - |endLabel|..] == endLabel)
      && (startLabel != "" && endLabel != "" ==>
            |window| == |startLabel| + |endLabel| + 3 && window[|startLabel|..|window| - |endLabel|] == " " + NoWindow + " ")
  {
    if round.None? then NoWindow
    else
      var startLabel := if formatter.Some? then formatter.value(round.value.startDate) else "";
      var endLabel := if formatter.Some? then formatter.value(round.value.endDate) else "";
      if startLabel == "" && endLabel == "" then NoWindow
      else if startLabel == "" || endLabel == "" then (if startLabel != "" then startLabel else endLabel)
      else startLabel + " " + NoWindow + " " + endLabel
  }

  datatype Match = Match(
    id: MatchId,
    status: string,
    teamAId: Option<TeamId>,
    teamBId: Option<TeamId>,
    teamAScore: Option<int>,
    teamBScore: Option<int>)

  /** The finalized statuses: only these matches can have a winner. */
  predicate IsFinal(status: string) {
    status == "final" || status == "completed"
  }

  /** A score that is not a number counts as 0. */
  function ScoreOrZero(score: Option<int>): int {
    score.GetOr(0)
  }

  /**
   * The winning side of a match: none unless the match is finalized and untied, otherwise the
   * id of the side with the strictly higher score.
   */
  function DetermineMatchWinner(m: Match): (winner: Option<TeamId>)
    ensures winner.Some? ==> IsFinal(m.status)
    ensures ScoreOrZero(m.teamAScore) == ScoreOrZero(m.teamBScore) ==> winner.None?
    ensures IsFinal(m.status) && ScoreOrZero(m.teamAScore) > ScoreOrZero(m.teamBScore) ==> winner == m.teamAId
    ensures IsFinal(m.status) && ScoreOrZero(m.teamBScore) > ScoreOrZero(m.teamAScore) ==> winner == m.teamBId
  {
    if !IsFinal(m.status) then None
    else
      var a, b := ScoreOrZero(m.teamAScore), ScoreOrZero(m.teamBScore);
      if a == b then None
      else if a > b then m.teamAId
      else m.teamBId
  }

  /** The same match with its two sides listed the other way round. */
  function SidesSwapped(m: Match): Match {
    m.(teamAId := m.teamBId, teamBId := m.teamAId, teamAScore := m.teamBScore, teamBScore := m.teamAScore)
  }

  /** The winner does not depend on which side is listed first. */
  lemma WinnerIgnoresSideOrder(m: Match)
    ensures DetermineMatchWinner(SidesSwapped(m)) == DetermineMatchWinner(m)
  {
  }

  /** The match has a winner that scoring can use (a truthy team id). */
  predicate Decides(m: Match) {
    Truthy(DetermineMatchWinner(m))
  }

  /**
   * The `winners` table: match id to the winning team, for every match with a truthy winner;
   * a later match with the same id overwrites an earlier one.
   */
  function Winners(matches: seq<Match>): map<MatchId, TeamId> {
    if matches == [] then map[]
    else
      var prior := Winners(matches[..|matches| - 1]);
      var last := matches[|matches| - 1];
      if Decides(last) then prior[last.id := DetermineMatchWinner(last).value] else prior
  }

  /** Entry `i` has a usable winner and no later entry with the same id has one. */
  predicate LastDecider(matches: seq<Match>, i: int) {
    && 0 <= i < |matches|
    && Decides(matches[i])
    && forall j :: i < j < |matches| && matches[j].id == matches[i].id ==> !Decides(matches[j])
  }

  /** A match id is in the winners table iff some match with that id has a usable winner. */
  lemma {:induction false} WinnersKeys(matches: seq<Match>, id: MatchId)
    ensures id in Winners(matches) <==>
      exists i :: 0 <= i < |matches| && matches[i].id == id && Decides(matches[i])
  {
    if matches != [] {
      var n := |matches|;
      var prior := matches[..n - 1];
      WinnersKeys(prior, id);
      if exists i :: 0 <= i < n && matches[i].id == id && Decides(matches[i]) {
        var i :| 0 <= i < n && matches[i].id == id && Decides(matches[i]);
        if i < n - 1 {
          assert prior[i] == matches[i];
        }
      }
      if exists i :: 0 <= i < n - 1 && prior[i].id == id && Decides(prior[i]) {
        var i :| 0 <= i < n - 1 && prior[i].id == id && Decides(prior[i]);
        assert matches[i] == prior[i];
      }
    }
  }

  /** The entry of a match id in the winners table is the winner of the last match with that id. */
  lemma {:induction false} WinnersValue(matches: seq<Match>, id: MatchId)
    requires id in Winners(matches)
    ensures exists i :: LastDecider(matches, i) && matches[i].id == id
                        && Winners(matches)[id] == DetermineMatchWinner(matches[i]).value
  {
    var n := |matches|;
    var prior := matches[..n - 1];
    var last := matches[n - 1];
    if last.id == id && Decides(last) {
      assert LastDecider(matches, n - 1);
    } else {
      assert id in Winners(prior);
      WinnersValue(prior, id);
      var i :| LastDecider(prior, i) && prior[i].id == id
               && Winners(prior)[id] == DetermineMatchWinner(prior[i]).value;
      assert matches[i] == prior[i];
      forall j | i < j < n && matches[j].id == id
        ensures !Decides(matches[j])
      {
        if j < n - 1 {
          assert matches[j] == prior[j];
        }
      }
      assert LastDecider(matches, i);
    }
  }

  /** The winners table is empty iff no match of the list has a usable winner. */
  lemma WinnersEmptyIff(matches: seq<Match>)
    ensures |Winners(matches)| == 0 <==> forall i :: 0 <= i < |matches| ==> !Decides(matches[i])
  {
    if |Winners(matches)| == 0 {
      forall i | 0 <= i < |matches| ensures !Decides(matches[i]) {
        WinnersKeys(matches, matches[i].id);
      }
    } else {
      var id :| id in Winners(matches);
      WinnersKeys(matches, id);
    }
  }

  datatype Selection = Selection(matchId: Option<MatchId>, predictedWinnerTeamId: Option<TeamId>)

  /** `serverTimestamp()`: an opaque marker that the store replaces by its own clock. */
  datatype Stamp = Unset | ServerTimestamp

  /** A stored pick document; `score` is absent until one is written. */
  datatype PickDoc = PickDoc(
    userId: string,
    roundId: string,
    selections: Option<seq<Selection>>,
    score: Option<int>,
    createdAt: Stamp,
    updatedAt: Stamp)

  /** A pick as read from the store: its document id and its fields. */
  datatype Pick = Pick(id: PickId, doc: PickDoc)

  datatype PickScore = PickScore(score: int, totalEvaluated: nat, totalCorrect: nat)

  /** The selection names a match that has a winner. */
  predicate Resolvable(winners: map<MatchId, TeamId>, s: Selection) {
    s.matchId.Some? && s.matchId.value in winners
  }

  /** The selection names a match that has a winner, and predicts that winner. */
  predicate Correct(winners: map<MatchId, TeamId>, s: Selection) {
    Resolvable(winners, s) && s.predictedWinnerTeamId == Some(winners[s.matchId.value])
  }

  datatype Tally = Tally(evaluated: nat, correct: nat)

  /** The two counters of the scoring loop after it has visited `sels`, in order. */
  function TallyOf(winners: map<MatchId, TeamId>, sels: seq<Selection>): (t: Tally)
    ensures t.correct <= t.evaluated <= |sels|
  {
    if sels == [] then Tally(0, 0)
    else
      var t := TallyOf(winners, sels[..|sels| - 1]);
      var s := sels[|sels| - 1];
      if !Resolvable(winners, s) then t
      else Tally(t.evaluated + 1, if Correct(winners, s) then t.correct + 1 else t.correct)
  }

  function ResolvableSelections(winners: map<MatchId, TeamId>, sels: seq<Selection>): seq<Selection> {
    if sels == [] then []
    else
      var s := sels[|sels| - 1];
      ResolvableSelections(winners, sels[..|sels| - 1]) + (if Resolvable(winners, s) then [s] else [])
  }

  function CorrectSelections(winners: map<MatchId, TeamId>, sels: seq<Selection>): seq<Selection> {
    if sels == [] then []
    else
      var s := sels[|sels| - 1];
      CorrectSelections(winners, sels[..|sels| - 1]) + (if Correct(winners, s) then [s] else [])
  }

  /**
   * One point per correct pick and nothing else: `evaluated` counts exactly the selections whose
   * match has a winner, `correct` exactly those that also predict it.
   */
  lemma {:induction false} TallyCounts(winners: map<MatchId, TeamId>, sels: seq<Selection>)
    ensures TallyOf(winners, sels).evaluated == |ResolvableSelections(winners, sels)|
    ensures TallyOf(winners, sels).correct == |CorrectSelections(winners, sels)|
  {
    if sels != [] {
      TallyCounts(winners, sels[..|sels| - 1]);
    }
  }

  /** The counters of a concatenation are the sums of the counters of its parts. */
  lemma {:induction false} TallyAppend(winners: map<MatchId, TeamId>, a: seq<Selection>, b: seq<Selection>)
    ensures TallyOf(winners, a + b) ==
      Tally(TallyOf(winners, a).evaluated + TallyOf(winners, b).evaluated,
            TallyOf(winners, a).correct + TallyOf(winners, b).correct)
  {
    if b == [] {
      assert a + b == a;
    } else {
      TallyAppend(winners, a, b[..|b| - 1]);
      assert (a + b)[..|a + b| - 1] == a + b[..|b| - 1];
      assert (a + b)[|a + b| - 1] == b[|b| - 1];
    }
  }

  /** The selections a pick is scored on are present and non-empty. */
  predicate HasSelections(pick: Option<PickDoc>) {
    pick.Some? && pick.value.selections.Some? && |pick.value.selections.value| > 0
  }

  /**
   * What `calculatePickScore` returns: nothing for a pick without selections; the stored score
   * (default 0) while no match has a winner; otherwise one point per correct selection.
   */
  function ScoreOfPick(matches: seq<Match>, pick: Option<PickDoc>): (r: PickScore)
    ensures !HasSelections(pick) ==> r == PickScore(0, 0, 0)
    ensures HasSelections(pick) && |Winners(matches)| == 0 ==> r == PickScore(pick.value.score.GetOr(0), 0, 0)
    ensures HasSelections(pick) && |Winners(matches)| > 0 ==>
      r.score == r.totalCorrect <= r.totalEvaluated <= |pick.value.selections.value|
  {
    if !HasSelections(pick) then PickScore(0, 0, 0)
    else
      var winners := Winners(matches);
      if |winners| == 0 then PickScore(pick.value.score.GetOr(0), 0, 0)
      else
        var t := TallyOf(winners, pick.value.selections.value);
        PickScore(t.correct, t.evaluated, t.correct)
  }

  /**
   * `calculatePickScore`: fills the winners table match by match, then walks the selections
   * counting the evaluated and the correct ones.
   */
  method CalculatePickScore(matches: seq<Match>, pick: Option<PickDoc>) returns (r: PickScore)
    ensures r == ScoreOfPick(matches, pick)
  {
    if pick.None? || pick.value.selections.None? || |pick.value.selections.value| == 0 {
      return PickScore(0, 0, 0);
    }

    var winners: map<MatchId, TeamId> := map[];
    var i := 0;
    while i < |matches|
      invariant 0 <= i <= |matches|
      invariant winners == Winners(matches[..i])
    {
      var winner := DetermineMatchWinner(matches[i]);
      if winner.Some? && winner.value != "" {
        winners := winners[matches[i].id := winner.value];
      }
      assert matches[..i + 1][..i] == matches[..i];
      i := i + 1;
    }
    assert matches[..|matches|] == matches;

    if |winners| == 0 {
      return PickScore(pick.value.score.GetOr(0), 0, 0);
    }

    var sels := pick.value.selections.value;
    var totalEvaluated, totalCorrect := 0, 0;
    var j := 0;
    while j < |sels|
      invariant 0 <= j <= |sels|
      invariant Tally(totalEvaluated, totalCorrect) == TallyOf(winners, sels[..j])
    {
      var s := sels[j];
      assert sels[..j + 1][..j] == sels[..j];
      if s.matchId.Some? && s.matchId.value in winners {
        var winner := winners[s.matchId.value];
        totalEvaluated := totalEvaluated + 1;
        if s.predictedWinnerTeamId == Some(winner) {
          totalCorrect := totalCorrect + 1;
        }
      }
      j := j + 1;
    }
    assert sels[..|sels|] == sels;
    r := PickScore(totalCorrect, totalEvaluated, totalCorrect);
  }

  /**
   * Once some match has a winner, the score depends only on the selections: the stored score
   * and every other field of the pick are ignored.
   */
  lemma ScoreDependsOnlyOnSelections(matches: seq<Match>, a: PickDoc, b: PickDoc)
    requires a.selections == b.selections
    requires |Winners(matches)| > 0
    ensures ScoreOfPick(matches, Some(a)) == ScoreOfPick(matches, Some(b))
  {
  }

  /** A selection whose match has no winner can be dropped without changing the score. */
  lemma UnresolvedSelectionChangesNothing(
    matches: seq<Match>, doc: PickDoc, before: seq<Selection>, s: Selection, after: seq<Selection>)
    requires doc.selections == Some(before + [s] + after)
    requires |Winners(matches)| > 0
    requires !Resolvable(Winners(matches), s)
    ensures ScoreOfPick(matches, Some(doc)) == ScoreOfPick(matches, Some(doc.(selections := Some(before + after))))
  {
    var w := Winners(matches);
    TallyAppend(w, before + [s], after);
    TallyAppend(w, before, [s]);
    TallyAppend(w, before, after);
    assert [s][..0] == [];
  }

  /**
   * A match that every list entry with its id leaves tied (or unfinished) is never evaluated:
   * a selection for it changes neither counter.
   */
  lemma TiedMatchNeverEvaluated(
    matches: seq<Match>, doc: PickDoc, before: seq<Selection>, id: MatchId, team: Option<TeamId>, after: seq<Selection>)
    requires forall i :: 0 <= i < |matches| && matches[i].id == id ==>
      ScoreOrZero(matches[i].teamAScore) == ScoreOrZero(matches[i].teamBScore) || !IsFinal(matches[i].status)
    requires doc.selections == Some(before + [Selection(Some(id), team)] + after)
    requires |Winners(matches)| > 0
    ensures ScoreOfPick(matches, Some(doc)) == ScoreOfPick(matches, Some(doc.(selections := Some(before + after))))
  {
    WinnersKeys(matches, id);
    UnresolvedSelectionChangesNothing(matches, doc, before, Selection(Some(id), team), after);
  }

  /**
   * A round of three matches: a 13-9 final, a 10-10 final and an upcoming 0-0. A pick on all
   * three is evaluated on the first match only, and scores its one correct selection.
   */
  lemma ThreeMatchRound()
    ensures var m1 := Match("m1", "final", Some("a1"), Some("b1"), Some(13), Some(9));
      var m2 := Match("m2", "final", Some("a2"), Some("b2"), Some(10), Some(10));
      var m3 := Match("m3", "upcoming", Some("a3"), Some("b3"), Some(0), Some(0));
      var sels := [Selection(Some("m1"), Some("a1")), Selection(Some("m2"), Some("b2")), Selection(Some("m3"), Some("a3"))];
      && ScoreOfPick([m1, m2, m3], Some(PickDoc("u", "r", Some(sels), None, Unset, Unset))) == PickScore(1, 1, 1)
      && ScoreOfPick([m1, m2, m3], Some(PickDoc("u", "r", Some([]), Some(4), Unset, Unset))) == PickScore(0, 0, 0)
  {
    var m1 := Match("m1", "final", Some("a1"), Some("b1"), Some(13), Some(9));
    var m2 := Match("m2", "final", Some("a2"), Some("b2"), Some(10), Some(10));
    var m3 := Match("m3", "upcoming", Some("a3"), Some("b3"), Some(0), Some(0));
    var matches := [m1, m2, m3];
    assert DetermineMatchWinner(m1) == Some("a1") && !Decides(m2) && !Decides(m3);
    assert [m1][..0] == [];
    assert Winners([m1]) == map["m1" := "a1"];
    assert [m1, m2][..1] == [m1];
    assert Winners([m1, m2]) == map["m1" := "a1"];
    assert matches[..2] == [m1, m2];
    assert Winners(matches) == map["m1" := "a1"];
    var sels := [Selection(Some("m1"), Some("a1")), Selection(Some("m2"), Some("b2")), Selection(Some("m3"), Some("a3"))];
    assert sels[..2] == sels[..1] + [sels[1]] && sels[..1] == [sels[0]] && [sels[0]][..0] == [];
    assert TallyOf(map["m1" := "a1"], sels) == Tally(1, 1);
  }
}
