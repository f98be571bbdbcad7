/**
 * The administrator's pick'em screen: the round form (editing a round, toggling its matches,
 * saving it), the round whose leaderboard is shown, and manual score overrides typed as text.
 *
 * The local date-input formatting and the parsing of a date input back into a date are
 * parameters: `format` renders a stored date (milliseconds) as input text, `parse` reads input
 * text back, `None` meaning the text is not a date.
 */
module PickemAdmin {
  import opened Wrappers
  import opened Pickem
  import opened PickStore
  import opened RoundLookup
  import JsNumber

  /**
   * The round selected once the rounds are loaded: a selection already made is kept; otherwise
   * the first round whose `active` flag is set, or failing that the first round of the list.
   */
  function DefaultAdminRoundId(selected: Option<string>, rounds: seq<Round>): (r: Option<string>)
    ensures Truthy(selected) || rounds == [] ==> r == selected
    ensures !Truthy(selected) && rounds != [] ==> exists k :: 0 <= k < |rounds| && r == Some(rounds[k].id)
    ensures !Truthy(selected) && rounds != [] && (forall k :: 0 <= k < |rounds| ==> rounds[k].active != ActiveTrue) ==>
      r == Some(rounds[0].id)
    ensures !Truthy(selected) && rounds != [] && (exists k :: 0 <= k < |rounds| && rounds[k].active == ActiveTrue) ==>
      exists k :: 0 <= k < |rounds| && r == Some(rounds[k].id) && rounds[k].active == ActiveTrue
                  && forall j :: 0 <= j < k ==> rounds[j].active != ActiveTrue
  {
    if Truthy(selected) || rounds == [] then selected
    else
      match FirstWhere(rounds, (round: Round) => round.active == ActiveTrue)
      case Some(k) => Some(rounds[k].id)
      case None => Some(rounds[0].id)
  }

  /** `ids.filter((x) => x !== id)`. */
  function Without(ids: seq<MatchId>, id: MatchId): (r: seq<MatchId>)
    ensures id !in r
    ensures forall x :: x in r <==> x in ids && x != id
    ensures |r| <= |ids|
  {
    if ids == [] then []
    else (if ids[0] == id then [] else [ids[0]]) + Without(ids[1..], id)
  }

  /** Filtering distributes over concatenation. */
  lemma {:induction false} WithoutAppend(a: seq<MatchId>, b: seq<MatchId>, id: MatchId)
    ensures Without(a + b, id) == Without(a, id) + Without(b, id)
  {
    if a == [] {
      assert a + b == b;
    } else {
      assert (a + b)[0] == a[0];
      assert (a + b)[1..] == a[1..] + b;
      WithoutAppend(a[1..], b, id);
    }
  }

  /** Filtering out an id the list does not hold changes nothing. */
  lemma {:induction false} WithoutAbsent(ids: seq<MatchId>, id: MatchId)
    requires id !in ids
    ensures Without(ids, id) == ids
  {
    if ids != [] {
      assert ids[0] != id;
      WithoutAbsent(ids[1..], id);
      assert [ids[0]] + ids[1..] == ids;
    }
  }

  /**
   * Ticking a match in the round form: an id already listed is removed (every occurrence),
   * an absent one is appended; the other ids keep their order.
   */
  function ToggleMatch(ids: seq<MatchId>, id: MatchId): (r: seq<MatchId>)
    ensures id in r <==> id !in ids
    ensures forall x :: x != id ==> (x in r <==> x in ids)
    ensures Without(r, id) == Without(ids, id)
    ensures id !in ids ==> r == ids + [id]
  {
    if id in ids then
      WithoutAbsent(Without(ids, id), id);
      Without(ids, id)
    else
      WithoutAppend(ids, [id], id);
      WithoutAbsent(ids, id);
      assert Without([id], id) == [];
      ids + [id]
  }

  /** Ticking a match on and off again gives back the original list. */
  lemma ToggleTwiceRestores(ids: seq<MatchId>, id: MatchId)
    requires id !in ids
    ensures ToggleMatch(ToggleMatch(ids, id), id) == ids
  {
    WithoutAppend(ids, [id], id);
    WithoutAbsent(ids, id);
    assert Without([id], id) == [];
  }

  /** Ticking a listed match off and on again moves it to the end of the list. */
  lemma ToggleTwiceMovesToEnd(ids: seq<MatchId>, id: MatchId)
    requires id in ids
    ensures ToggleMatch(ToggleMatch(ids, id), id) == Without(ids, id) + [id]
  {
  }

  /** The round form as edited: texts, the ticked matches and the active checkbox. */
  datatype RoundForm = RoundForm(
    name: string,
    slug: string,
    startDate: string,
    endDate: string,
    matchIds: seq<MatchId>,
    active: bool)

  /** The empty form: no text, no match, active ticked. */
  const DefaultRoundForm: RoundForm := RoundForm("", "", "", "", [], true)

  /** The input text of a stored date: empty for a missing date. */
  function DateInput(date: Option<int>, format: int -> string): (text: string)
    ensures date.None? ==> text == ""
  {
    if date.None? then "" else format(date.value)
  }

  /** The form filled from a stored round; missing fields fall back to the defaults. */
  function FormFromRound(round: Round, format: int -> string): (form: RoundForm)
    ensures form.active <==> round.active != ActiveFalse
    ensures round.matchIds.None? ==> form.matchIds == []
    ensures round.matchIds.Some? ==> form.matchIds == round.matchIds.value
    ensures round.name.None? ==> form.name == ""
    ensures round.startDate.None? ==> form.startDate == ""
    ensures round.endDate.None? ==> form.endDate == ""
  {
    RoundForm(
      round.name.GetOr(""),
      round.slug.GetOr(""),
      DateInput(round.startDate, format),
      DateInput(round.endDate, format),
      round.matchIds.GetOr([]),
      round.active != ActiveFalse)
  }

  /** The fields a save writes to a round document. */
  datatype RoundFields = RoundFields(
    name: string,
    slug: string,
    startDate: Option<int>,
    endDate: Option<int>,
    matchIds: seq<MatchId>,
    active: bool)

  /** The date a date input saves: none for empty text, otherwise the parsed text. */
  function SavedDate(text: string, parse: string -> Option<int>): (date: Option<int>)
    ensures text == "" ==> date.None?
  {
    if text == "" then None else parse(text)
  }

  /** The payload of a save: the form as is, with empty date inputs stored as no date. */
  function RoundPayload(form: RoundForm, parse: string -> Option<int>): (fields: RoundFields)
    ensures form.startDate == "" ==> fields.startDate.None?
    ensures form.endDate == "" ==> fields.endDate.None?
    ensures fields.matchIds == form.matchIds && fields.active == form.active
  {
    RoundFields(
      form.name, form.slug,
      SavedDate(form.startDate, parse), SavedDate(form.endDate, parse),
      form.matchIds, form.active)
  }

  /** The round a document with `fields` is read back as. */
  function AsRound(id: string, fields: RoundFields): Round {
    Round(id, Some(fields.name), Some(fields.slug), fields.startDate, fields.endDate, Some(fields.matchIds),
          if fields.active then ActiveTrue else ActiveFalse)
  }

  /** A round saved with an empty date input is unscheduled (or inactive when switched off). */
  lemma EmptyDateUnscheduled(id: string, form: RoundForm, parse: string -> Option<int>, now: int)
    requires form.startDate == "" || form.endDate == ""
    ensures GetRoundStatus(Some(AsRound(id, RoundPayload(form, parse))), now) ==
      if form.active then Unscheduled else Inactive
  {
  }

  /**
   * Opening a round in the form and saving it unchanged keeps its dates, its matches and its
   * status at every instant, provided the date input text reads back as the date it shows.
   */
  lemma EditSaveKeepsRound(round: Round, format: int -> string, parse: string -> Option<int>, now: int)
    requires forall d :: format(d) != "" && parse(format(d)) == Some(d)
    ensures var saved := AsRound(round.id, RoundPayload(FormFromRound(round, format), parse));
      && saved.startDate == round.startDate
      && saved.endDate == round.endDate
      && saved.matchIds == Some(round.matchIds.GetOr([]))
      && GetRoundStatus(Some(saved), now) == GetRoundStatus(Some(round), now)
  {
    if round.startDate.Some? {
      var d := round.startDate.value;
      assert format(d) != "" && parse(format(d)) == Some(d);
    }
    if round.endDate.Some? {
      var d := round.endDate.value;
      assert format(d) != "" && parse(format(d)) == Some(d);
    }
  }

  /** The instant shown by a date input: `toISOString().slice(0, 16)` keeps whole minutes. */
  function WholeMinute(d: int): (m: int)
    ensures m <= d < m + 60000 && m % 60000 == 0
  {
    d - d % 60000
  }

  /**
   * The date inputs as the screen fills and reads them: the text is the UTC minute of the
   * stored date, and `new Date(text)` reads it back as local time, `offset` milliseconds away
   * (positive west of UTC). Opening a round and saving it unchanged moves both dates by the
   * offset; west of UTC, a round that is active from its first minute becomes upcoming.
   */
  lemma EditSaveShiftsDates(round: Round, format: int -> string, parse: string -> Option<int>, offset: int, now: int)
    requires forall d :: format(d) != "" && parse(format(d)) == Some(WholeMinute(d) + offset)
    ensures var saved := AsRound(round.id, RoundPayload(FormFromRound(round, format), parse));
      && saved.startDate == (if round.startDate.None? then None else Some(WholeMinute(round.startDate.value) + offset))
      && saved.endDate == (if round.endDate.None? then None else Some(WholeMinute(round.endDate.value) + offset))
      && (offset > 0 && round.active != ActiveFalse && round.startDate == Some(now) && now % 60000 == 0
          && round.endDate.Some? && now <= round.endDate.value ==>
            GetRoundStatus(Some(round), now) == Active && GetRoundStatus(Some(saved), now) == Upcoming)
  {
    if round.startDate.Some? {
      var d := round.startDate.value;
      assert format(d) != "" && parse(format(d)) == Some(WholeMinute(d) + offset);
    }
    if round.endDate.Some? {
      var d := round.endDate.value;
      assert format(d) != "" && parse(format(d)) == Some(WholeMinute(d) + offset);
    }
  }

  /** What a round save writes, decided before the write. */
  datatype RoundWrite =
    | NoStore                                // the store is not configured
    | UpdateRound(id: string, fields: RoundFields)
    | CreateRound(fields: RoundFields)

  /** A save updates the round being edited, or creates a new one when none is. */
  function RoundSavePlan(configured: bool, editingId: Option<string>, form: RoundForm, parse: string -> Option<int>)
    : (plan: RoundWrite)
    ensures plan.NoStore? <==> !configured
    ensures plan.UpdateRound? <==> configured && Truthy(editingId)
    ensures plan.UpdateRound? ==> plan.id == editingId.value
    ensures !plan.NoStore? ==> plan.fields == RoundPayload(form, parse)
  {
    if !configured then NoStore
    else if Truthy(editingId) then UpdateRound(editingId.value, RoundPayload(form, parse))
    else CreateRound(RoundPayload(form, parse))
  }

  /** The `pickRounds` collection: round documents by id. */
  class RoundCollection {
    var docs: map<string, Round>

    constructor (initial: map<string, Round>)
      ensures docs == initial
    {
      docs := initial;
    }

    /** `updateDoc` of every form field of `pickRounds/id`. */
    method Update(id: string, fields: RoundFields, refused: bool) returns (ok: bool)
      modifies this
      ensures ok <==> !refused && id in old(docs)
      ensures docs == if ok then old(docs)[id := AsRound(id, fields)] else old(docs)
    {
      ok := !refused && id in docs;
      if ok {
        docs := docs[id := AsRound(id, fields)];
      }
    }

    /** `addDoc` of a new round under the generated id `newId`. */
    method Add(newId: string, fields: RoundFields, refused: bool) returns (ok: bool)
      modifies this
      ensures ok <==> !refused && newId !in old(docs)
      ensures docs == if ok then old(docs)[newId := AsRound(newId, fields)] else old(docs)
    {
      ok := !refused && newId !in docs;
      if ok {
        docs := docs[newId := AsRound(newId, fields)];
      }
    }
  }

  /** What a typed score override asks to write. */
  datatype ScoreInput =
    | Valid(score: int)     // write this score
    | NotNumeric            // the draft is not a number: nothing is written
    | NotModelled           // a number whose value the model does not compute

  /**
   * The score a save writes for a pick: its stored score (or 0) when no draft was typed,
   * otherwise the draft read as a number, rejected when it is not one.
   */
  function ScoreToSave(draft: Option<string>, stored: Option<int>): (input: ScoreInput)
    ensures draft.None? ==> input == Valid(stored.GetOr(0))
    ensures input == NotNumeric <==> draft.Some? && JsNumber.NumberOf(draft.value) == JsNumber.NaN
    ensures draft.Some? && JsNumber.NumberOf(draft.value).Whole? ==> input == Valid(JsNumber.NumberOf(draft.value).value)
  {
    if draft.None? then Valid(stored.GetOr(0))
    else
      match JsNumber.NumberOf(draft.value)
      case NaN => NotNumeric
      case Whole(v) => Valid(v)
      case Unevaluated => NotModelled
  }

  /** A draft that was typed and then cleared saves 0, whatever the stored score. */
  lemma ClearedDraftSavesZero(stored: Option<int>)
    ensures ScoreToSave(Some(""), stored) == Valid(0)
  {
    JsNumber.BlankIsZero("");
  }

  /** An integer typed as its decimal text is saved as that integer. */
  lemma TypedScoreIsSaved(n: int, stored: Option<int>)
    requires -JsNumber.MaxExact <= n <= JsNumber.MaxExact
    ensures ScoreToSave(Some(JsNumber.IntToString(n)), stored) == Valid(n)
  {
    JsNumber.IntTextRoundTrip(n);
  }

  datatype RoundStatusMessage = RoundNotConfigured | RoundUpdated | RoundCreated | RoundSaveFailed
  datatype ScoreStatusMessage = NoMessage | InvalidScore | ScoreUpdated | ScoreSaveFailed

  /** The screen's own state: the round form, the round being edited, the selection, the drafts. */
  class AdminScreen {
    var form: RoundForm
    var editingId: Option<string>
    var selectedRoundId: Option<string>
    var drafts: map<PickId, string>

    constructor ()
      ensures form == DefaultRoundForm && editingId == None && selectedRoundId == None && drafts == map[]
    {
      form := DefaultRoundForm;
      editingId := None;
      selectedRoundId := None;
      drafts := map[];
    }

    /** A change of the selected round discards the score drafts. */
    method SelectRound(id: Option<string>)
      modifies this
      ensures selectedRoundId == id
      ensures drafts == if id == old(selectedRoundId) then old(drafts) else map[]
      ensures form == old(form) && editingId == old(editingId)
    {
      if id != selectedRoundId {
        drafts := map[];
      }
      selectedRoundId := id;
    }

    /** The effect that picks a round once the rounds are loaded. */
    method ChooseDefaultRound(rounds: seq<Round>)
      modifies this
      ensures selectedRoundId == DefaultAdminRoundId(old(selectedRoundId), rounds)
      ensures drafts == if selectedRoundId == old(selectedRoundId) then old(drafts) else map[]
      ensures form == old(form) && editingId == old(editingId)
    {
      SelectRound(DefaultAdminRoundId(selectedRoundId, rounds));
    }

    /** Opens a round in the form and selects it. */
    method Edit(round: Round, format: int -> string)
      modifies this
      ensures editingId == Some(round.id)
      ensures form == FormFromRound(round, format)
      ensures selectedRoundId == Some(round.id)
      ensures drafts == if Some(round.id) == old(selectedRoundId) then old(drafts) else map[]
    {
      editingId := Some(round.id);
      form := FormFromRound(round, format);
      SelectRound(Some(round.id));
    }

    /** Ticks or unticks a match of the round form. */
    method ToggleFormMatch(id: MatchId)
      modifies this
      ensures form == old(form).(matchIds := ToggleMatch(old(form).matchIds, id))
      ensures editingId == old(editingId) && selectedRoundId == old(selectedRoundId) && drafts == old(drafts)
    {
      form := form.(matchIds := ToggleMatch(form.matchIds, id));
    }

    /** Types into the score field of a pick. */
    method ChangeDraft(pickId: PickId, text: string)
      modifies this
      ensures drafts == old(drafts)[pickId := text]
      ensures form == old(form) && editingId == old(editingId) && selectedRoundId == old(selectedRoundId)
    {
      drafts := drafts[pickId := text];
    }

    /**
     * Saves the round form: updates the round being edited or adds a new one, and on success
     * empties the form and stops editing. `newId` is the id the store assigns to a new round.
     */
    method SaveRound(
      store: RoundCollection, configured: bool, parse: string -> Option<int>, newId: string, refused: bool)
      returns (status: RoundStatusMessage)
      modifies this, store
      ensures match RoundSavePlan(configured, old(editingId), old(form), parse)
        case NoStore =>
          status == RoundNotConfigured && store.docs == old(store.docs)
        case UpdateRound(id, fields) =>
          && (status == RoundUpdated <==> !refused && id in old(store.docs))
          && (status != RoundUpdated ==> status == RoundSaveFailed)
          && store.docs == if status == RoundUpdated then old(store.docs)[id := AsRound(id, fields)] else old(store.docs)
        case CreateRound(fields) =>
          && (status == RoundCreated <==> !refused && newId !in old(store.docs))
          && (status != RoundCreated ==> status == RoundSaveFailed)
          && store.docs == if status == RoundCreated then old(store.docs)[newId := AsRound(newId, fields)] else old(store.docs)
      ensures status == RoundUpdated || status == RoundCreated ==> form == DefaultRoundForm && editingId == None
      ensures status == RoundNotConfigured || status == RoundSaveFailed ==> form == old(form) && editingId == old(editingId)
      ensures selectedRoundId == old(selectedRoundId) && drafts == old(drafts)
    {
      if !configured {
        return RoundNotConfigured;
      }
      var fields := RoundPayload(form, parse);
      var ok;
      if editingId.Some? && editingId.value != "" {
        ok := store.Update(editingId.value, fields, refused);
        status := if ok then RoundUpdated else RoundSaveFailed;
      } else {
        ok := store.Add(newId, fields, refused);
        status := if ok then RoundCreated else RoundSaveFailed;
      }
      if ok {
        editingId := None;
        form := DefaultRoundForm;
      }
    }

    /**
     * Saves the score override of one pick: nothing without a store; an error and no write
     * for a draft that is not a number; otherwise the score and the update marker are written.
     */
    method SaveScore(store: PickCollection, configured: bool, pick: Pick, refused: bool)
      returns (status: ScoreStatusMessage)
      modifies store
      ensures var input := ScoreToSave(if pick.id in drafts then Some(drafts[pick.id]) else None, pick.doc.score);
        && (!configured || input.NotModelled? ==> status == NoMessage && store.docs == old(store.docs))
        && (configured && input == NotNumeric ==> status == InvalidScore && store.docs == old(store.docs))
        && (configured && input.Valid? ==>
              && (status == ScoreUpdated <==> !refused && pick.id in old(store.docs))
              && (status != ScoreUpdated ==> status == ScoreSaveFailed)
              && store.docs == if status == ScoreUpdated then WithScore(old(store.docs), pick.id, input.score) else old(store.docs))
    {
      if !configured {
        return NoMessage;
      }
      var draft := if pick.id in drafts then Some(drafts[pick.id]) else None;
      var input := ScoreToSave(draft, pick.doc.score);
      if input == NotNumeric {
        return InvalidScore;
      }
      if input.NotModelled? {
        return NoMessage;
      }
      var ok := store.UpdateScore(pick.id, input.score, refused);
      status := if ok then ScoreUpdated else ScoreSaveFailed;
    }
  }
}
