/**
 * The ledger builder `create_chat_messages_for_llm` and the document
 * registration `upload_and_process_document` (document_utils.py).
 */
module DocumentUtils {
  import opened Common
  import opened Ocr
  import opened Ledger
  import opened Records
  import opened Blockifier
  import opened Allocation
  import opened Paths
  import opened Session

  /** An uploaded file: its path, and what the OCR service gave back (`None` when it raised). */
  datatype UploadedFile = UploadedFile(name: string, ocr: Option<OcrResponse>)

  const SystemPrompt: string := "You are an assistant that helps users understand multiple document contents. The documents have been processed with OCR and contain both text and images."
  const NoContent: string := "No document content available."
  const EndMarkerText: string := Rule + "DOCUMENTS END" + Rule + "\n" + Rule + Rule + "----------" + "\n\n\n"

  function SystemTurn(): Turn { Turn(System, Plain(SystemPrompt)) }
  function EndMarker(): Turn { Turn(User, Segments([Text(EndMarkerText)])) }

  /** The content blocks of the ordered documents, the i-th built at ordinal i. */
  function DocBlocks(documents: map<string, DocRecord>, order: seq<string>): (r: seq<ContentBlock>)
    ensures |r| == |order|
  {
    if order == [] then []
    else DocBlocks(documents, order[..|order| - 1]) + [DocumentContentBlock(order[|order| - 1], |order| - 1, documents)]
  }

  lemma DocBlocksSnoc(documents: map<string, DocRecord>, order: seq<string>, i: nat)
    requires i < |order|
    ensures DocBlocks(documents, order[..i + 1]) == DocBlocks(documents, order[..i]) + [DocumentContentBlock(order[i], i, documents)]
  {
    assert order[..i + 1][..i] == order[..i];
  }

  /** Block i is the block of the i-th ordered id, built with ordinal i. */
  lemma {:induction false} DocBlocksAt(documents: map<string, DocRecord>, order: seq<string>)
    ensures forall i :: 0 <= i < |order| ==> DocBlocks(documents, order)[i] == DocumentContentBlock(order[i], i, documents)
  {
    if order != [] {
      var init := order[..|order| - 1];
      DocBlocksAt(documents, init);
      forall i | 0 <= i < |init|
        ensures DocBlocks(documents, order)[i] == DocumentContentBlock(order[i], i, documents)
      {
        assert init[i] == order[i];
      }
    }
  }

  /** The user turn carrying a block, model copy or display copy. */
  function BlockTurn(b: ContentBlock, display: bool): Turn
  {
    Turn(User, Segments(if display then b.show else b.full))
  }

  /** One user turn per block, in order. */
  function BlockTurns(blocks: seq<ContentBlock>, display: bool): (r: seq<Turn>)
    ensures |r| == |blocks|
    ensures forall i :: 0 <= i < |blocks| ==> r[i] == BlockTurn(blocks[i], display)
  {
    if blocks == [] then []
    else BlockTurns(blocks[..|blocks| - 1], display) + [BlockTurn(blocks[|blocks| - 1], display)]
  }

  lemma BlockTurnsAppend(blocks: seq<ContentBlock>, b: ContentBlock, display: bool)
    ensures BlockTurns(blocks + [b], display) == BlockTurns(blocks, display) + [BlockTurn(b, display)]
  {
    assert (blocks + [b])[..|blocks|] == blocks;
  }

  /** The ledger around a run of document blocks: system prompt, blocks, end marker. */
  function LedgerOf(blocks: seq<ContentBlock>, display: bool): seq<Turn>
  {
    [SystemTurn()] + BlockTurns(blocks, display) + [EndMarker()]
  }

  /** The ledger `create_chat_messages_for_llm` returns. */
  function BuiltLedger(documents: map<string, DocRecord>, order: seq<string>, display: bool): seq<Turn>
  {
    if |documents| == 0 then [Turn(User, Plain(NoContent))]
    else LedgerOf(DocBlocks(documents, order), display)
  }

  /** `document_positions[doc_id] = len(messages) - 1`, document after document. */
  function Reposition(positions: map<string, nat>, order: seq<string>): map<string, nat>
  {
    if order == [] then positions
    else Reposition(positions, order[..|order| - 1])[order[|order| - 1] := |order|]
  }

  /**
   * A ledger of n blocks has n + 2 turns: the system prompt, turn i + 1
   * carrying block i, and the end marker.
   */
  lemma LedgerShape(blocks: seq<ContentBlock>, display: bool)
    ensures var l := LedgerOf(blocks, display);
      |l| == |blocks| + 2 && l[0] == SystemTurn() && l[|l| - 1] == EndMarker() &&
      forall i :: 0 <= i < |blocks| ==> l[i + 1] == BlockTurn(blocks[i], display)
  {
    var d := BlockTurns(blocks, display);
    var l := LedgerOf(blocks, display);
    forall i | 0 <= i < |blocks|
      ensures l[i + 1] == BlockTurn(blocks[i], display)
    {
      assert l[i + 1] == d[i];
    }
  }

  lemma RepositionSnoc(positions: map<string, nat>, order: seq<string>, i: nat)
    requires i < |order|
    ensures Reposition(positions, order[..i + 1]) == Reposition(positions, order[..i])[order[i] := i + 1]
  {
    assert order[..i + 1][..i] == order[..i];
  }

  /** With distinct ids, each ordered document sits at its ordinal plus one. */
  lemma {:induction false} RepositionPlaces(positions: map<string, nat>, order: seq<string>)
    requires Distinct(order)
    ensures forall i :: 0 <= i < |order| ==> order[i] in Reposition(positions, order) && Reposition(positions, order)[order[i]] == i + 1
  {
    if order != [] {
      var init := order[..|order| - 1];
      var r := Reposition(positions, order);
      RepositionPlaces(positions, init);
      forall i | 0 <= i < |order|
        ensures order[i] in r && r[order[i]] == i + 1
      {
        if i < |init| {
          assert init[i] == order[i] && order[i] != order[|order| - 1];
        }
      }
    }
  }

  /** Ids outside the order keep their entry, or stay absent. */
  lemma {:induction false} RepositionOthers(positions: map<string, nat>, order: seq<string>, k: string)
    requires k !in order
    ensures k in Reposition(positions, order) <==> k in positions
    ensures k in positions ==> Reposition(positions, order)[k] == positions[k]
  {
    if order != [] {
      assert k !in order[..|order| - 1];
      RepositionOthers(positions, order[..|order| - 1], k);
    }
  }

  /** The rebuilt map has exactly the old keys and the ordered ids. */
  lemma {:induction false} RepositionKeys(positions: map<string, nat>, order: seq<string>)
    ensures Reposition(positions, order).Keys == positions.Keys + set k | k in order
  {
    if order != [] {
      var init := order[..|order| - 1];
      RepositionKeys(positions, init);
      assert order == init + [order[|order| - 1]];
      assert (set k | k in order) == (set k | k in init) + {order[|order| - 1]};
    }
  }

  lemma {:induction false} BlockTurnsMirror(blocks: seq<ContentBlock>)
    requires forall i :: 0 <= i < |blocks| ==> Mirrors(blocks[i])
    ensures TurnsMirror(BlockTurns(blocks, false), BlockTurns(blocks, true))
  {
    if blocks != [] {
      var n := |blocks| - 1;
      BlockTurnsMirror(blocks[..n]);
      TurnsMirrorAppend(BlockTurns(blocks[..n], false), BlockTurns(blocks[..n], true),
        BlockTurn(blocks[n], false), BlockTurn(blocks[n], true));
    }
  }

  /** Every block of the ordered documents mirrors its display copy. */
  lemma DocBlocksMirror(documents: map<string, DocRecord>, order: seq<string>)
    ensures forall i :: 0 <= i < |order| ==> Mirrors(DocBlocks(documents, order)[i])
  {
    DocBlocksAt(documents, order);
    forall i | 0 <= i < |order|
      ensures Mirrors(DocBlocks(documents, order)[i])
    {
      DocumentBlockMirrors(order[i], i, documents);
    }
  }

  /** A ledger built from mirroring blocks mirrors its display copy, turn by turn. */
  lemma LedgerMirrors(blocks: seq<ContentBlock>)
    requires forall i :: 0 <= i < |blocks| ==> Mirrors(blocks[i])
    ensures TurnsMirror(LedgerOf(blocks, false), LedgerOf(blocks, true))
  {
    BlockTurnsMirror(blocks);
    assert TurnsMirror([SystemTurn()], [SystemTurn()]);
    TurnsMirrorConcat([SystemTurn()], [SystemTurn()], BlockTurns(blocks, false), BlockTurns(blocks, true));
    assert Mirrors(ContentBlock([Text(EndMarkerText)], [Text(EndMarkerText)]));
    TurnsMirrorAppend([SystemTurn()] + BlockTurns(blocks, false), [SystemTurn()] + BlockTurns(blocks, true), EndMarker(), EndMarker());
  }

  /** The display ledger mirrors the model ledger, turn by turn. */
  lemma BuiltLedgerMirrors(documents: map<string, DocRecord>, order: seq<string>)
    ensures TurnsMirror(BuiltLedger(documents, order, false), BuiltLedger(documents, order, true))
  {
    if |documents| > 0 {
      DocBlocksMirror(documents, order);
      LedgerMirrors(DocBlocks(documents, order));
    }
  }

  /**
   * One pass of the loop in `create_chat_messages_for_llm`: append the i-th
   * document's turn to both ledgers and record its position.
   */
  method AddDocumentTurns(documents: map<string, DocRecord>, order: seq<string>, i: nat, positions: map<string, nat>,
                          messages: seq<Turn>, messagesShow: seq<Turn>, positionsIn: map<string, nat>)
    returns (messagesOut: seq<Turn>, messagesShowOut: seq<Turn>, positionsOut: map<string, nat>)
    requires i < |order|
    requires messages == [SystemTurn()] + BlockTurns(DocBlocks(documents, order[..i]), false)
    requires messagesShow == [SystemTurn()] + BlockTurns(DocBlocks(documents, order[..i]), true)
    requires positionsIn == Reposition(positions, order[..i])
    ensures messagesOut == [SystemTurn()] + BlockTurns(DocBlocks(documents, order[..i + 1]), false)
    ensures messagesShowOut == [SystemTurn()] + BlockTurns(DocBlocks(documents, order[..i + 1]), true)
    ensures positionsOut == Reposition(positions, order[..i + 1])
  {
    var content, contentShow := CreateDocumentContentBlock(order[i], i, documents);
    DocBlocksSnoc(documents, order, i);
    BlockTurnsAppend(DocBlocks(documents, order[..i]), ContentBlock(content, contentShow), false);
    BlockTurnsAppend(DocBlocks(documents, order[..i]), ContentBlock(content, contentShow), true);
    RepositionSnoc(positions, order, i);
    messagesOut := messages + [Turn(User, Segments(content))];
    messagesShowOut := messagesShow + [Turn(User, Segments(contentShow))];
    positionsOut := positionsIn[order[i] := |messagesOut| - 1];
  }

  /** `create_chat_messages_for_llm`. */
  method CreateChatMessagesForLlm(documents: map<string, DocRecord>, order: seq<string>, positions: map<string, nat>, counter: nat)
    returns (messages: seq<Turn>, messagesShow: seq<Turn>, positionsOut: map<string, nat>, counterOut: nat)
    ensures messages == BuiltLedger(documents, order, false)
    ensures messagesShow == BuiltLedger(documents, order, true)
    ensures |documents| == 0 ==> positionsOut == positions && counterOut == counter
    ensures |documents| > 0 ==> positionsOut == Reposition(positions, order) && counterOut == |order| + 2
  {
    if |documents| == 0 {
      messages := [Turn(User, Plain(NoContent))];
      messagesShow := [Turn(User, Plain(NoContent))];
      return messages, messagesShow, positions, counter;
    }
    messages := [SystemTurn()];
    messagesShow := [SystemTurn()];
    positionsOut := positions;
    var i := 0;
    while i < |order|
      invariant 0 <= i <= |order|
      invariant messages == [SystemTurn()] + BlockTurns(DocBlocks(documents, order[..i]), false)
      invariant messagesShow == [SystemTurn()] + BlockTurns(DocBlocks(documents, order[..i]), true)
      invariant positionsOut == Reposition(positions, order[..i])
    {
      messages, messagesShow, positionsOut := AddDocumentTurns(documents, order, i, positions, messages, messagesShow, positionsOut);
      i := i + 1;
    }
    assert order[..i] == order;
    messages := messages + [EndMarker()];
    messagesShow := messagesShow + [EndMarker()];
    counterOut := |messages|;
  }

  /** The record stored for a processed upload. */
  function NewRecord(file: UploadedFile): DocRecord
    requires file.ocr.Some?
  {
    DocRecord(BaseName(file.name), GetCombinedMarkdown(file.ocr.value), file.ocr.value)
  }

  /**
   * `upload_and_process_document`. The counter argument is the caller's
   * `chat_position_counter`, passed by value: the reservation increments a
   * local copy only. The id comes from the corrected allocator.
   */
  method UploadAndProcessDocument(st: AppState, file: UploadedFile, counter: nat)
    returns (docId: Option<string>, fileName: string, success: bool)
    requires st.Valid()
    modifies st`documents, st`documentOrder, st`documentPositions, st`ledger, st`ledgerShow
    ensures st.Valid()
    ensures file.ocr.None? ==>
      docId == None && fileName == file.name && !success &&
      st.documents == old(st.documents) && st.documentOrder == old(st.documentOrder) &&
      st.documentPositions == old(st.documentPositions) && st.ledger == old(st.ledger) && st.ledgerShow == old(st.ledgerShow)
    ensures file.ocr.Some? ==>
      success && fileName == BaseName(file.name) && docId.Some? &&
      docId.value == Allocated("doc_", old(st.documents).Keys, |old(st.documents)|, |old(st.documents)| + 1) &&
      docId.value !in old(st.documents) &&
      st.documents == old(st.documents)[docId.value := NewRecord(file)] &&
      st.documentOrder == old(st.documentOrder) + [docId.value]
    ensures file.ocr.Some? && old(st.ledger).None? ==>
      st.ledger == None && st.ledgerShow == None &&
      st.documentPositions == old(st.documentPositions)[docId.value := counter]
    ensures file.ocr.Some? && old(st.ledger).Some? ==>
      var b := DocumentContentBlock(docId.value, |old(st.documentOrder)|, st.documents);
      st.ledger == Some(old(st.ledger).value + [Turn(User, Segments(b.full))]) &&
      st.ledgerShow == Some(old(st.ledgerShow).value + [Turn(User, Segments(b.show))]) &&
      st.documentPositions == old(st.documentPositions)[docId.value := |old(st.ledger).value|]
  {
    if file.ocr.None? {
      return None, file.name, false;
    }
    var id := AllocateKey("doc_", st.documents.Keys, |st.documents|, |st.documents| + 1);
    fileName := BaseName(file.name);
    StoreDocument(st, id, NewRecord(file), counter);
    return Some(id), fileName, true;
  }

  /** Storing a processed document under a fresh id: registry first, then ledger tail or reservation. */
  method StoreDocument(st: AppState, id: string, r: DocRecord, counter: nat)
    requires st.Valid() && id !in st.documents
    modifies st`documents, st`documentOrder, st`documentPositions, st`ledger, st`ledgerShow
    ensures st.Valid()
    ensures st.documents == old(st.documents)[id := r]
    ensures st.documentOrder == old(st.documentOrder) + [id]
    ensures old(st.ledger).None? ==>
      st.ledger == None && st.ledgerShow == None &&
      st.documentPositions == old(st.documentPositions)[id := counter]
    ensures old(st.ledger).Some? ==>
      var b := DocumentContentBlock(id, |old(st.documentOrder)|, st.documents);
      st.ledger == Some(old(st.ledger).value + [Turn(User, Segments(b.full))]) &&
      st.ledgerShow == Some(old(st.ledgerShow).value + [Turn(User, Segments(b.show))]) &&
      st.documentPositions == old(st.documentPositions)[id := |old(st.ledger).value|]
  {
    DocsConsistentAdd(st.documents, st.documentOrder, st.documentPositions, id, r,
      if st.ledger.Some? then |st.ledger.value| else counter);
    RegisterDocument(st, id, r);
    if st.ledger.Some? {
      AppendDocumentTurn(st, id, |st.documentOrder| - 1, st.documents);
    } else {
      st.documentPositions := st.documentPositions[id := counter];
    }
  }

  /** `documents[doc_id] = {...}` and `document_order.append(doc_id)`. */
  method RegisterDocument(st: AppState, id: string, r: DocRecord)
    modifies st`documents, st`documentOrder
    ensures st.documents == old(st.documents)[id := r]
    ensures st.documentOrder == old(st.documentOrder) + [id]
  {
    st.documents := st.documents[id := r];
    st.documentOrder := st.documentOrder + [id];
  }

  /** The ledger branch of registration: the new document's block goes to the tail of both ledgers. */
  method AppendDocumentTurn(st: AppState, id: string, docIndex: nat, documents: map<string, DocRecord>)
    requires st.ledger.Some? && LedgerConsistent(st.ledger, st.ledgerShow, st.documentPositions)
    modifies st`documentPositions, st`ledger, st`ledgerShow
    ensures LedgerConsistent(st.ledger, st.ledgerShow, st.documentPositions)
    ensures var b := DocumentContentBlock(id, docIndex, documents);
      st.ledger == Some(old(st.ledger).value + [Turn(User, Segments(b.full))]) &&
      st.ledgerShow == Some(old(st.ledgerShow).value + [Turn(User, Segments(b.show))]) &&
      st.documentPositions == old(st.documentPositions)[id := |old(st.ledger).value|]
  {
    var content, contentShow := CreateDocumentContentBlock(id, docIndex, documents);
    var turn, turnShow := Turn(User, Segments(content)), Turn(User, Segments(contentShow));
    DocumentBlockMirrors(id, docIndex, documents);
    LedgerConsistentAppend(st.ledger.value, st.ledgerShow.value, st.documentPositions, turn, turnShow, id);
    st.documentPositions := st.documentPositions[id := |st.ledger.value|];
    st.ledger := Some(st.ledger.value + [turn]);
    st.ledgerShow := Some(st.ledgerShow.value + [turnShow]);
  }
}
