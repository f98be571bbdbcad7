/**
 * The `picks` collection of the document store, as an in-memory table keyed by document id.
 * `updateDoc` is a merge of the given fields into an existing document and fails when the
 * document does not exist; `addDoc` stores a document under a new id. Whether the store
 * refuses a write (network, permissions) is an input of each call, and so is the id `addDoc`
 * generates.
 */
module PickStore {
  import opened Wrappers
  import opened Pickem

  /** `doc` with its score replaced and its update marker set: nothing else of it changes. */
  function Rescored(doc: PickDoc, score: int): (r: PickDoc)
    ensures r.score == Some(score) && r.updatedAt == ServerTimestamp
    ensures r.(score := doc.score, updatedAt := doc.updatedAt) == doc
  {
    doc.(score := Some(score), updatedAt := ServerTimestamp)
  }

  /** The table after a successful `updateDoc(picks/id, { score, updatedAt })`. */
  function WithScore(docs: map<PickId, PickDoc>, id: PickId, score: int): (r: map<PickId, PickDoc>)
    requires id in docs
    ensures r.Keys == docs.Keys
    ensures r[id] == Rescored(docs[id], score)
    ensures forall k :: k in docs && k != id ==> r[k] == docs[k]
  {
    docs[id := Rescored(docs[id], score)]
  }

  /**
   * The table after a successful participant update of `picks/id`: owner, round, selections
   * and update marker are replaced; the score and the creation marker are kept.
   */
  function WithEntry(docs: map<PickId, PickDoc>, id: PickId, userId: string, roundId: string, selections: seq<Selection>)
    : (r: map<PickId, PickDoc>)
    requires id in docs
    ensures r.Keys == docs.Keys
    ensures r[id].score == docs[id].score && r[id].createdAt == docs[id].createdAt
    ensures r[id].selections == Some(selections) && r[id].userId == userId && r[id].roundId == roundId
    ensures forall k :: k in docs && k != id ==> r[k] == docs[k]
  {
    docs[id := docs[id].(userId := userId, roundId := roundId, selections := Some(selections), updatedAt := ServerTimestamp)]
  }

  class PickCollection {
    var docs: map<PickId, PickDoc>

    constructor (initial: map<PickId, PickDoc>)
      ensures docs == initial
    {
      docs := initial;
    }

    /** `updateDoc` of the score field (and the update marker) of `picks/id`. */
    method UpdateScore(id: PickId, score: int, refused: bool) returns (ok: bool)
      modifies this
      ensures ok <==> !refused && id in old(docs)
      ensures docs == if ok then WithScore(old(docs), id, score) else old(docs)
    {
      ok := !refused && id in docs;
      if ok {
        docs := WithScore(docs, id, score);
      }
    }

    /** `updateDoc` of an existing pick with a new submission: the payload carries no score. */
    method UpdateEntry(id: PickId, userId: string, roundId: string, selections: seq<Selection>, refused: bool)
      returns (ok: bool)
      modifies this
      ensures ok <==> !refused && id in old(docs)
      ensures docs == if ok then WithEntry(old(docs), id, userId, roundId, selections) else old(docs)
    {
      ok := !refused && id in docs;
      if ok {
        docs := WithEntry(docs, id, userId, roundId, selections);
      }
    }

    /** `addDoc`: stores `doc` under the new id `newId`. */
    method Add(newId: PickId, doc: PickDoc, refused: bool) returns (ok: bool)
      modifies this
      ensures ok <==> !refused && newId !in old(docs)
      ensures docs == if ok then old(docs)[newId := doc] else old(docs)
    {
      ok := !refused && newId !in docs;
      if ok {
        docs := docs[newId := doc];
      }
    }
  }
}
