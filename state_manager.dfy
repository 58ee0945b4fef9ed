/**
 * The turn machine of `manage/state_manager.py`: the visible transcript
 * gains a question and a pending answer, the streamed reply is spliced into
 * the pending answer chunk by chunk, and the exchange is committed to the
 * context ledger; clearing and resetting start over.
 *
 * The model stream is an input: the chunks it delivered, each an optional
 * text delta, and whether it then raised (with the text of the exception).
 */
module StateManager {
  import opened Common
  import opened Strings
  import opened Ledger
  import opened Blockifier
  import opened Records
  import opened DocumentUtils
  import opened Session

  const PendingText: string := "..."
  const NoDocumentsText: string := "Please upload a PDF document first."
  const QuestionLead: string := "# User question:\n"
  const NoMessageText: string := "No message provided."
  const ErrorLead: string := "Error generating response: "

  /** `add_user_and_placeholder`: the question, then the pending answer bubble. */
  method AddUserAndPlaceholder(message: string, chat: Option<seq<ChatEntry>>) returns (r: seq<ChatEntry>)
    ensures |r| == |OrEmpty(chat)| + 2
    ensures r[..|OrEmpty(chat)|] == OrEmpty(chat)
    ensures r[|r| - 2] == ChatEntry(User, message)
    ensures r[|r| - 1] == ChatEntry(Assistant, PendingText)
  {
    r := OrEmpty(chat);
    r := r + [ChatEntry(User, message)];
    r := r + [ChatEntry(Assistant, PendingText)];
  }

  /** `chat_history[-1]["content"] = s`: the last entry keeps its role and takes a new text. */
  function SetLast(chat: seq<ChatEntry>, s: string): (r: seq<ChatEntry>)
    requires chat != []
    ensures |r| == |chat| && r[..|chat| - 1] == chat[..|chat| - 1]
    ensures r[|chat| - 1].role == chat[|chat| - 1].role && r[|chat| - 1].content == s
  {
    chat[|chat| - 1 := ChatEntry(chat[|chat| - 1].role, s)]
  }

  lemma SetLastTwice(chat: seq<ChatEntry>, s: string, t: string)
    requires chat != []
    ensures SetLast(SetLast(chat, s), t) == SetLast(chat, t)
  {
  }

  /** A chunk counts when it has a delta whose content is a non-empty text. */
  predicate Delivered(d: Option<string>)
  {
    d.Some? && d.value != ""
  }

  /** The non-empty deltas, in stream order. */
  function Texts(deltas: seq<Option<string>>): (r: seq<string>)
    ensures |r| <= |deltas|
    ensures forall j :: 0 <= j < |r| ==> r[j] != ""
  {
    if deltas == [] then []
    else
      var d := deltas[|deltas| - 1];
      Texts(deltas[..|deltas| - 1]) + (if Delivered(d) then [d.value] else [])
  }

  function Concat(ts: seq<string>): string
  {
    if ts == [] then "" else Concat(ts[..|ts| - 1]) + ts[|ts| - 1]
  }

  lemma TextsSnoc(deltas: seq<Option<string>>, i: nat)
    requires i < |deltas|
    ensures Texts(deltas[..i + 1]) == Texts(deltas[..i]) + (if Delivered(deltas[i]) then [deltas[i].value] else [])
  {
    assert deltas[..i + 1][..i] == deltas[..i];
  }

  lemma ConcatSnoc(ts: seq<string>, t: string)
    ensures Concat(ts + [t]) == Concat(ts) + t
  {
    assert (ts + [t])[..|ts|] == ts;
  }

  /** The visible transcript after the given chunks: untouched until a delta arrives. */
  function Streamed(chat: seq<ChatEntry>, deltas: seq<Option<string>>): seq<ChatEntry>
    requires chat != []
  {
    if Texts(deltas) == [] then chat else SetLast(chat, Concat(Texts(deltas)))
  }

  /** The snapshots yielded while streaming: one after each delivered delta. */
  function StreamYields(chat: seq<ChatEntry>, deltas: seq<Option<string>>): seq<seq<ChatEntry>>
    requires chat != []
  {
    if deltas == [] then []
    else
      var init := deltas[..|deltas| - 1];
      StreamYields(chat, init) + (if Delivered(deltas[|deltas| - 1]) then [Streamed(chat, deltas)] else [])
  }

  /** `"# User question:\n" + (message or "No message provided.")`. */
  function Question(message: Option<string>): (r: string)
    ensures IsPrefix(QuestionLead, r)
    ensures r[|QuestionLead|..] == (if message.Some? then message.value else NoMessageText)
  {
    QuestionLead + (if message.Some? then message.value else NoMessageText)
  }

  /** The display cut of a ledger text: the first 500 characters and an ellipsis when longer. */
  function Preview(s: string): (r: string)
    ensures |r| <= 503
    ensures |s| <= 500 ==> r == s
    ensures |s| > 500 ==> IsPrefix(s[..500], r) && |r| == 503
    ensures |s| > 500 ==> r[500..] == "..."
  {
    if |s| > 500 then s[..500] + "..." else s
  }

  /** A plain turn next to its preview is a mirrored pair. */
  lemma PreviewMirrors(role: Role, s: string)
    ensures TurnMirrors(Turn(role, Plain(s)), Turn(role, Plain(Preview(s))))
  {
  }

  /** The exchange committed to the display ledger mirrors the one committed to the model ledger. */
  lemma ExchangeMirrors(base: seq<Turn>, baseShow: seq<Turn>, q: string, a: string)
    requires TurnsMirror(base, baseShow)
    ensures TurnsMirror(base + [Turn(User, Plain(q)), Turn(Assistant, Plain(a))],
                        baseShow + [Turn(User, Plain(Preview(q))), Turn(Assistant, Plain(Preview(a)))])
  {
    PreviewMirrors(User, q);
    PreviewMirrors(Assistant, a);
    TurnsMirrorAppend(base, baseShow, Turn(User, Plain(q)), Turn(User, Plain(Preview(q))));
    TurnsMirrorAppend(base + [Turn(User, Plain(q))], baseShow + [Turn(User, Plain(Preview(q)))],
      Turn(Assistant, Plain(a)), Turn(Assistant, Plain(Preview(a))));
    assert base + [Turn(User, Plain(q)), Turn(Assistant, Plain(a))] == base + [Turn(User, Plain(q))] + [Turn(Assistant, Plain(a))];
    assert baseShow + [Turn(User, Plain(Preview(q))), Turn(Assistant, Plain(Preview(a)))] ==
      baseShow + [Turn(User, Plain(Preview(q)))] + [Turn(Assistant, Plain(Preview(a)))];
  }

  /**
   * One snapshot per non-empty delta; snapshot j shows the first j + 1 such
   * deltas joined in the last entry, and nothing else of the transcript
   * changes.
   */
  lemma {:induction false} StreamYieldsAt(chat: seq<ChatEntry>, deltas: seq<Option<string>>)
    requires chat != []
    ensures var ys := StreamYields(chat, deltas);
      |ys| == |Texts(deltas)| &&
      forall j :: 0 <= j < |ys| ==> ys[j] == SetLast(chat, Concat(Texts(deltas)[..j + 1]))
  {
    if deltas != [] {
      var init := deltas[..|deltas| - 1];
      StreamYieldsAt(chat, init);
      var ts := Texts(deltas);
      assert Texts(init) == ts[..|Texts(init)|];
      var ys := StreamYields(chat, deltas);
      forall j | 0 <= j < |ys|
        ensures ys[j] == SetLast(chat, Concat(ts[..j + 1]))
      {
        if j < |StreamYields(chat, init)| {
          assert Texts(init)[..j + 1] == ts[..j + 1];
        } else {
          assert ts[..j + 1] == ts;
        }
      }
    }
  }

  /** The text shown only grows: each snapshot's last entry extends the previous one's. */
  lemma {:induction false} ConcatPrefix(ts: seq<string>, i: nat, j: nat)
    requires i <= j <= |ts|
    ensures IsPrefix(Concat(ts[..i]), Concat(ts[..j]))
    decreases j - i
  {
    if i < j {
      ConcatPrefix(ts, i, j - 1);
      assert ts[..j][..j - 1] == ts[..j - 1];
    }
  }

  /**
   * The chunk loop of `stream_assistant_reply`: every non-empty delta is
   * added to the partial answer, which replaces the last entry's text, and
   * the transcript is handed out.
   */
  method StreamChunks(chat: seq<ChatEntry>, deltas: seq<Option<string>>) returns (shown: seq<seq<ChatEntry>>, chatOut: seq<ChatEntry>)
    requires chat != []
    ensures chatOut == Streamed(chat, deltas)
    ensures shown == StreamYields(chat, deltas)
  {
    var partial := "";
    chatOut := chat;
    shown := [];
    var i := 0;
    while i < |deltas|
      invariant 0 <= i <= |deltas|
      invariant partial == Concat(Texts(deltas[..i]))
      invariant chatOut == Streamed(chat, deltas[..i])
      invariant shown == StreamYields(chat, deltas[..i])
    {
      TextsSnoc(deltas, i);
      assert deltas[..i + 1][..i] == deltas[..i];
      if deltas[i].Some? && deltas[i].value != "" {
        ConcatSnoc(Texts(deltas[..i]), deltas[i].value);
        partial := partial + deltas[i].value;
        if Texts(deltas[..i]) != [] {
          SetLastTwice(chat, Concat(Texts(deltas[..i])), partial);
        }
        chatOut := SetLast(chatOut, partial);
        shown := shown + [chatOut];
      } else {
        assert Texts(deltas[..i + 1]) == Texts(deltas[..i]);
      }
      i := i + 1;
    }
    assert deltas[..i] == deltas;
  }

  /**
   * The exchange on a retrieved ledger: the question is appended to both
   * ledgers, the stream is shown, and the answer is appended unless the
   * stream raised, in which case the pending answer shows the error.
   */
  method Converse(base: seq<Turn>, baseShow: seq<Turn>, q: string, chat: seq<ChatEntry>,
                  deltas: seq<Option<string>>, fails: bool, err: string)
    returns (messages: seq<Turn>, messagesShow: seq<Turn>, shown: seq<seq<ChatEntry>>, chatOut: seq<ChatEntry>)
    requires chat != []
    ensures !fails ==>
      var a := Streamed(chat, deltas)[|chat| - 1].content;
      chatOut == Streamed(chat, deltas) && shown == StreamYields(chat, deltas) &&
      messages == base + [Turn(User, Plain(q)), Turn(Assistant, Plain(a))] &&
      messagesShow == baseShow + [Turn(User, Plain(Preview(q))), Turn(Assistant, Plain(Preview(a)))]
    ensures fails ==>
      chatOut == SetLast(chat, ErrorLead + err) && shown == StreamYields(chat, deltas) + [chatOut] &&
      messages == base + [Turn(User, Plain(q))] && messagesShow == baseShow + [Turn(User, Plain(Preview(q)))]
  {
    messages := base + [Turn(User, Plain(q))];
    messagesShow := baseShow + [Turn(User, Plain(Preview(q)))];
    shown, chatOut := StreamChunks(chat, deltas);
    if fails {
      if Texts(deltas) != [] {
        SetLastTwice(chat, Concat(Texts(deltas)), ErrorLead + err);
      }
      chatOut := SetLast(chatOut, ErrorLead + err);
      shown := shown + [chatOut];
      return;
    }
    var answer := chatOut[|chatOut| - 1].content;
    messages := messages + [Turn(Assistant, Plain(answer))];
    messagesShow := messagesShow + [Turn(Assistant, Plain(Preview(answer)))];
    assert messages == base + [Turn(User, Plain(q)), Turn(Assistant, Plain(answer))];
    assert messagesShow == baseShow + [Turn(User, Plain(Preview(q))), Turn(Assistant, Plain(Preview(answer)))];
  }

  /**
   * `stream_assistant_reply`, with `shown` the transcripts handed to the
   * interface, in order, and the remaining results the returned tuple.
   */
  method StreamAssistantReply(
    message: Option<string>, chat: seq<ChatEntry>,
    documents: map<string, DocRecord>, order: seq<string>,
    ledger: Option<seq<Turn>>, ledgerShow: Option<seq<Turn>>,
    positions: map<string, nat>, counter: nat,
    deltas: seq<Option<string>>, fails: bool, err: string)
    returns (shown: seq<seq<ChatEntry>>, chatOut: seq<ChatEntry>,
             ledgerOut: Option<seq<Turn>>, ledgerShowOut: Option<seq<Turn>>,
             positionsOut: map<string, nat>, counterOut: nat)
    requires chat != []
    // No documents: the pending answer becomes the upload hint, shown once; nothing else changes.
    ensures |documents| == 0 ==>
      chatOut == SetLast(chat, NoDocumentsText) && shown == [chatOut] &&
      ledgerOut == ledger && ledgerShowOut == ledgerShow && positionsOut == positions && counterOut == counter
    // The ledger is rebuilt only when there is none.
    ensures |documents| > 0 && ledger.None? ==> positionsOut == Reposition(positions, order) && counterOut == |order| + 2
    ensures |documents| > 0 && ledger.Some? ==> positionsOut == positions && counterOut == counter
    // A display ledger missing beside a model ledger: the question reaches the model ledger, then the error.
    ensures |documents| > 0 && ledger.Some? && ledgerShow.None? ==>
      chatOut == SetLast(chat, ErrorLead + err) && shown == [chatOut] &&
      ledgerOut == Some(ledger.value + [Turn(User, Plain(Question(message)))]) && ledgerShowOut == None
    // A stream that completes: one snapshot per delta, then question and answer committed.
    ensures |documents| > 0 && !fails && (ledger.None? || ledgerShow.Some?) ==>
      var base := if ledger.None? then BuiltLedger(documents, order, false) else ledger.value;
      var baseShow := if ledger.None? then BuiltLedger(documents, order, true) else ledgerShow.value;
      var q := Question(message);
      var a := Streamed(chat, deltas)[|chat| - 1].content;
      chatOut == Streamed(chat, deltas) && shown == StreamYields(chat, deltas) &&
      ledgerOut == Some(base + [Turn(User, Plain(q)), Turn(Assistant, Plain(a))]) &&
      ledgerShowOut == Some(baseShow + [Turn(User, Plain(Preview(q))), Turn(Assistant, Plain(Preview(a)))])
    // A stream that raises: the snapshots so far, then the error; a pre-existing ledger keeps the question.
    ensures |documents| > 0 && fails && (ledger.None? || ledgerShow.Some?) ==>
      var q := Question(message);
      chatOut == SetLast(chat, ErrorLead + err) &&
      shown == StreamYields(chat, deltas) + [chatOut] &&
      ledgerOut == (if ledger.None? then None else Some(ledger.value + [Turn(User, Plain(q))])) &&
      ledgerShowOut == (if ledger.None? then ledgerShow else Some(ledgerShow.value + [Turn(User, Plain(Preview(q)))]))
  {
    if |documents| == 0 {
      chatOut := SetLast(chat, NoDocumentsText);
      return [chatOut], chatOut, ledger, ledgerShow, positions, counter;
    }
    var q := Question(message);
    var messages, messagesShow;
    positionsOut, counterOut := positions, counter;
    if ledger.None? {
      messages, messagesShow, positionsOut, counterOut := CreateChatMessagesForLlm(documents, order, positions, counter);
    } else {
      messages := ledger.value;
      if ledgerShow.None? {
        // `document_messages_show.append` on None raises after the question reached the shared list.
        chatOut := SetLast(chat, ErrorLead + err);
        return [chatOut], chatOut, Some(messages + [Turn(User, Plain(q))]), None, positions, counter;
      }
      messagesShow := ledgerShow.value;
    }
    messages, messagesShow, shown, chatOut := Converse(messages, messagesShow, q, chat, deltas, fails, err);
    if fails {
      ledgerOut := if ledger.None? then None else Some(messages);
      ledgerShowOut := if ledger.None? then ledgerShow else Some(messagesShow);
    } else {
      ledgerOut, ledgerShowOut := Some(messages), Some(messagesShow);
    }
  }

  /** `clear_chat`: an empty transcript, no ledgers, no positions, counter 0. */
  function ClearChat(ledger: Option<seq<Turn>>, ledgerShow: Option<seq<Turn>>, positions: map<string, nat>, counter: nat):
    (r: (seq<ChatEntry>, Option<seq<Turn>>, Option<seq<Turn>>, map<string, nat>, nat))
    ensures r.0 == [] && r.1 == None && r.2 == None && r.3 == map[] && r.4 == 0
  {
    ([], None, None, map[], 0)
  }

  /** `reset_all_state`: the registries are emptied, the ledger and counter start over. */
  method ResetAllState(st: AppState)
    modifies st
    ensures st.documents == map[] && st.documentOrder == [] && st.videos == map[] && st.videoOrder == []
    ensures st.documentPositions == map[] && st.chatPositionCounter == 0
    ensures st.ledger == None && st.ledgerShow == None && st.structuredDocsCache == []
    ensures st.structuredVideosCache == old(st.structuredVideosCache)
    ensures st.Valid()
  {
    st.documents, st.documentOrder := map[], [];
    st.videos, st.videoOrder := map[], [];
    st.ledger, st.ledgerShow := None, None;
    st.documentPositions, st.chatPositionCounter := map[], 0;
    st.structuredDocsCache := [];
  }
}
