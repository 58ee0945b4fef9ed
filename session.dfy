/**
 * The application's module-level state (the globals of `main.py`): the
 * document and video registries, the context ledger with its display twin,
 * the position map and counter, and the structured-export caches.
 */
module Session {
  import opened Common
  import opened Ledger
  import opened Records
  import opened Blockifier

  class AppState {
    var documents: map<string, DocRecord>
    var documentOrder: seq<string>
    /** `document_positions`: the ledger index holding each document's block. */
    var documentPositions: map<string, nat>
    var chatPositionCounter: nat
    /** `llm_chat_history`; `None` until the ledger is first built. */
    var ledger: Option<seq<Turn>>
    /** `llm_chat_history_show`. */
    var ledgerShow: Option<seq<Turn>>
    var videos: map<string, VideoRecord>
    var videoOrder: seq<string>
    var structuredDocsCache: seq<DocInfo>
    var structuredVideosCache: seq<VideoDescription>

    /** The state at start-up. */
    constructor()
      ensures documents == map[] && documentOrder == [] && documentPositions == map[]
      ensures chatPositionCounter == 0 && ledger == None && ledgerShow == None
      ensures videos == map[] && videoOrder == []
      ensures structuredDocsCache == [] && structuredVideosCache == []
      ensures Valid()
    {
      documents, documentOrder, documentPositions := map[], [], map[];
      chatPositionCounter, ledger, ledgerShow := 0, None, None;
      videos, videoOrder := map[], [];
      structuredDocsCache, structuredVideosCache := [], [];
    }

    predicate DocumentsValid()
      reads this`documents, this`documentOrder, this`documentPositions
    {
      DocsConsistent(documents, documentOrder, documentPositions)
    }

    predicate LedgerValid()
      reads this`ledger, this`ledgerShow, this`documentPositions
    {
      LedgerConsistent(ledger, ledgerShow, documentPositions)
    }

    predicate VideosValid()
      reads this`videos, this`videoOrder
    {
      VideosConsistent(videos, videoOrder)
    }

    predicate Valid()
      reads this`documents, this`documentOrder, this`documentPositions, this`ledger, this`ledgerShow
      reads this`videos, this`videoOrder
    {
      DocumentsValid() && LedgerValid() && VideosValid()
    }
  }

  /** Every ordered id is registered exactly once; positions belong to registered documents. */
  predicate DocsConsistent(documents: map<string, DocRecord>, order: seq<string>, positions: map<string, nat>)
  {
    Distinct(order) &&
    (forall d :: d in order ==> d in documents) &&
    (forall d :: d in documents ==> d in order) &&
    positions.Keys <= documents.Keys
  }

  /** Both ledgers exist together, the display one mirrors the model one, and positions are slots of it. */
  predicate LedgerConsistent(ledger: Option<seq<Turn>>, ledgerShow: Option<seq<Turn>>, positions: map<string, nat>)
  {
    ledger.Some? == ledgerShow.Some? &&
    (ledger.Some? ==>
      TurnsMirror(ledger.value, ledgerShow.value) &&
      forall d :: d in positions ==> positions[d] < |ledger.value|)
  }

  predicate VideosConsistent(videos: map<string, VideoRecord>, order: seq<string>)
  {
    Distinct(order) &&
    (forall v :: v in order ==> v in videos) &&
    (forall v :: v in videos ==> v in order)
  }

  /** Registering a fresh document at the end of the order keeps the registry consistent. */
  lemma DocsConsistentAdd(documents: map<string, DocRecord>, order: seq<string>, positions: map<string, nat>, id: string, r: DocRecord, pos: nat)
    requires DocsConsistent(documents, order, positions) && id !in documents
    ensures DocsConsistent(documents[id := r], order + [id], positions[id := pos])
  {
    assert forall i :: 0 <= i < |order| ==> (order + [id])[i] == order[i];
  }

  /** Appending a mirrored pair of turns and pointing a document at the new slot keeps the ledger consistent. */
  lemma LedgerConsistentAppend(ledger: seq<Turn>, ledgerShow: seq<Turn>, positions: map<string, nat>, f: Turn, s: Turn, id: string)
    requires LedgerConsistent(Some(ledger), Some(ledgerShow), positions) && TurnMirrors(f, s)
    ensures LedgerConsistent(Some(ledger + [f]), Some(ledgerShow + [s]), positions[id := |ledger|])
  {
    TurnsMirrorAppend(ledger, ledgerShow, f, s);
  }
}
