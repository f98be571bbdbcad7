/**
 * Lookups both pick'em screens share: finding a round in the list, the `matchesMap` index of
 * the match collection, and resolving a round's `matchIds` against it (known matches in order,
 * unknown ids listed apart).
 */
module RoundLookup {
  import opened Wrappers
  import opened Pickem

  /** `Array.prototype.find`, by position: the first element that satisfies `p`. */
  function FirstWhere<T>(s: seq<T>, p: T -> bool): (k: Option<nat>)
    ensures k.Some? ==> k.value < |s| && p(s[k.value]) && forall j :: 0 <= j < k.value ==> !p(s[j])
    ensures k.None? ==> forall j :: 0 <= j < |s| ==> !p(s[j])
  {
    if s == [] then None
    else if p(s[0]) then Some(0)
    else
      match FirstWhere(s[1..], p)
      case None => None
      case Some(k) => Some(k + 1)
  }

  /** `rounds.find((round) => round.id === selectedRoundId)`, absent when nothing matches. */
  function FindRound(rounds: seq<Round>, selectedId: Option<string>): (r: Option<Round>)
    ensures r.Some? ==> r.value in rounds && Some(r.value.id) == selectedId
    ensures r.None? ==> forall i :: 0 <= i < |rounds| ==> Some(rounds[i].id) != selectedId
  {
    match FirstWhere(rounds, (round: Round) => Some(round.id) == selectedId)
    case None => None
    case Some(k) => Some(rounds[k])
  }

  /** Entry `i` is the last of the first `n` entries carrying its id. */
  predicate IsLastWithIdBefore(matches: seq<Match>, n: int, i: int) {
    0 <= i < n <= |matches| && forall j :: i < j < n ==> matches[j].id != matches[i].id
  }

  /** The index has exactly the ids of the first `n` listed matches as keys. */
  ghost predicate KeysAreListedIds(index: map<MatchId, Match>, matches: seq<Match>, n: int) {
    forall id :: id in index <==> exists i :: 0 <= i < n && i < |matches| && matches[i].id == id
  }

  /** Each id is mapped to the last of the first `n` matches listed with it (`Map.set` overwrites). */
  ghost predicate LastListedWins(index: map<MatchId, Match>, matches: seq<Match>, n: int) {
    forall i :: IsLastWithIdBefore(matches, n, i) ==> matches[i].id in index && index[matches[i].id] == matches[i]
  }

  /** Every entry is stored under its own id. */
  ghost predicate StoredUnderOwnId(index: map<MatchId, Match>) {
    forall id :: id in index ==> index[id].id == id
  }

  /** What `matchesMap` holds once every match of the list has been set. */
  ghost predicate IndexesMatches(index: map<MatchId, Match>, matches: seq<Match>) {
    && KeysAreListedIds(index, matches, |matches|)
    && LastListedWins(index, matches, |matches|)
    && StoredUnderOwnId(index)
  }

  lemma LastWinsStep(index: map<MatchId, Match>, matches: seq<Match>, n: nat)
    requires n < |matches|
    requires LastListedWins(index, matches, n)
    ensures LastListedWins(index[matches[n].id := matches[n]], matches, n + 1)
  {
    forall i | IsLastWithIdBefore(matches, n + 1, i) && i < n
      ensures IsLastWithIdBefore(matches, n, i) && matches[i].id != matches[n].id
    {
    }
  }

  /** `matchesMap`: fills the index match by match in list order. */
  method BuildMatchIndex(matches: seq<Match>) returns (index: map<MatchId, Match>)
    ensures IndexesMatches(index, matches)
  {
    index := map[];
    var n := 0;
    while n < |matches|
      invariant 0 <= n <= |matches|
      invariant KeysAreListedIds(index, matches, n)
      invariant LastListedWins(index, matches, n)
      invariant StoredUnderOwnId(index)
    {
      LastWinsStep(index, matches, n);
      index := index[matches[n].id := matches[n]];
      n := n + 1;
    }
  }

  /** `matchIds.map((id) => matchesMap.get(id)).filter(Boolean)`: the known matches, in order. */
  function ResolveMatches(ids: seq<MatchId>, index: map<MatchId, Match>): (r: seq<Match>)
    ensures |r| <= |ids|
    ensures forall m :: m in r ==> m in index.Values
  {
    if ids == [] then []
    else (if ids[0] in index then [index[ids[0]]] else []) + ResolveMatches(ids[1..], index)
  }

  /** The ids the admin screen lists as unknown matches, in order. */
  function UnknownMatchIds(ids: seq<MatchId>, index: map<MatchId, Match>): (r: seq<MatchId>)
    ensures |r| <= |ids|
  {
    if ids == [] then []
    else (if ids[0] in index then [] else [ids[0]]) + UnknownMatchIds(ids[1..], index)
  }

  /** Resolving and listing unknown ids both work id by id: they distribute over concatenation. */
  lemma {:induction false} ResolveAppend(a: seq<MatchId>, b: seq<MatchId>, index: map<MatchId, Match>)
    ensures ResolveMatches(a + b, index) == ResolveMatches(a, index) + ResolveMatches(b, index)
    ensures UnknownMatchIds(a + b, index) == UnknownMatchIds(a, index) + UnknownMatchIds(b, index)
  {
    if a == [] {
      assert a + b == b;
    } else {
      var head := if a[0] in index then [index[a[0]]] else [];
      var headId := if a[0] in index then [] else [a[0]];
      assert (a + b)[0] == a[0];
      assert (a + b)[1..] == a[1..] + b;
      ResolveAppend(a[1..], b, index);
      calc {
        ResolveMatches(a + b, index);
        head + ResolveMatches(a[1..] + b, index);
        head + (ResolveMatches(a[1..], index) + ResolveMatches(b, index));
        (head + ResolveMatches(a[1..], index)) + ResolveMatches(b, index);
      }
      calc {
        UnknownMatchIds(a + b, index);
        headId + UnknownMatchIds(a[1..] + b, index);
        headId + (UnknownMatchIds(a[1..], index) + UnknownMatchIds(b, index));
        (headId + UnknownMatchIds(a[1..], index)) + UnknownMatchIds(b, index);
      }
    }
  }

  /**
   * Every id of `matchIds` is accounted for exactly once: a known id yields its match, an
   * unknown id is listed as unknown, and nothing else appears.
   */
  lemma {:induction false} EveryIdAccountedFor(ids: seq<MatchId>, index: map<MatchId, Match>)
    ensures |ResolveMatches(ids, index)| + |UnknownMatchIds(ids, index)| == |ids|
    ensures forall id :: id in UnknownMatchIds(ids, index) <==> id in ids && id !in index
    ensures forall id :: id in ids && id in index ==> index[id] in ResolveMatches(ids, index)
  {
    if ids != [] {
      EveryIdAccountedFor(ids[1..], index);
      forall id | id in ids
        ensures id == ids[0] || id in ids[1..]
      {
      }
    }
  }

  /** Every resolved match is the entry of some listed, known id. */
  lemma {:induction false} ResolvedFromListedIds(ids: seq<MatchId>, index: map<MatchId, Match>)
    ensures forall m :: m in ResolveMatches(ids, index) ==> exists id :: id in ids && id in index && index[id] == m
  {
    if ids != [] {
      ResolvedFromListedIds(ids[1..], index);
      var head := if ids[0] in index then [index[ids[0]]] else [];
      assert ResolveMatches(ids, index) == head + ResolveMatches(ids[1..], index);
      forall m | m in ResolveMatches(ids, index)
        ensures exists id :: id in ids && id in index && index[id] == m
      {
        if m in ResolveMatches(ids[1..], index) {
          var id :| id in ids[1..] && id in index && index[id] == m;
          assert id in ids;
        } else {
          assert ids[0] in ids && ids[0] in index && index[ids[0]] == m;
        }
      }
    }
  }

  /** The matches of the selected round: none without a round or without `matchIds`. */
  function RoundMatches(round: Option<Round>, index: map<MatchId, Match>): (r: seq<Match>)
    ensures round.None? || round.value.matchIds.None? ==> r == []
    ensures round.Some? ==> |r| <= |round.value.matchIds.GetOr([])|
  {
    if round.None? then [] else ResolveMatches(round.value.matchIds.GetOr([]), index)
  }

  /** The selected round's ids that name no known match. */
  function RoundUnknownMatchIds(round: Option<Round>, index: map<MatchId, Match>): (r: seq<MatchId>)
    ensures round.None? || round.value.matchIds.None? ==> r == []
    ensures round.Some? ==> forall id :: id in r <==> id in round.value.matchIds.GetOr([]) && id !in index
  {
    if round.None? then []
    else
      EveryIdAccountedFor(round.value.matchIds.GetOr([]), index);
      UnknownMatchIds(round.value.matchIds.GetOr([]), index)
  }
}
