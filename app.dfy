/**
 * The handlers of `main.py` besides the document reconciliation: the
 * local-video diff of the combined upload/removal handler, the removal
 * dropdown and the parsing of its selection, and the updates of the global
 * state made by the streaming, clear and reset handlers.
 */
module App {
  import opened Common
  import opened Strings
  import opened Paths
  import opened Ledger
  import opened Records
  import opened Blockifier
  import opened Session
  import opened DocumentUtils
  import opened StateManager
  import opened DataManager
  import opened Reconcile

  // ---------------------------------------------------------------------------
  // The local-video diff
  // ---------------------------------------------------------------------------

  /** `current_file_names`: the base names of the uploaded files that are not None. */
  function CurrentVideoNames(files: seq<Option<string>>): (r: set<string>)
    ensures forall i :: 0 <= i < |files| && files[i].Some? ==> BaseName(files[i].value) in r
    ensures forall n :: n in r ==> exists i :: 0 <= i < |files| && files[i].Some? && BaseName(files[i].value) == n
  {
    set i | 0 <= i < |files| && files[i].Some? :: BaseName(files[i].value)
  }

  /**
   * A dictionary with its insertion order: `keys` lists each key once, in
   * the order it was first inserted, and `ids` holds the current values.
   */
  datatype NameIndex = NameIndex(keys: seq<string>, ids: map<string, string>)

  /** The keys are listed once each, and they are exactly the keys of the map. */
  ghost predicate Indexed(x: NameIndex)
  {
    Distinct(x.keys) && (forall k :: k in x.keys <==> k in x.ids)
  }

  /** `d[name] = id`: a new key goes to the end of the order, an existing one keeps its place. */
  function Put(x: NameIndex, name: string, id: string): NameIndex
  {
    NameIndex(if name in x.ids then x.keys else x.keys + [name], x.ids[name := id])
  }

  /** The video `v` is registered as a local file named `name`. */
  predicate LocalNamed(videos: map<string, VideoRecord>, v: string, name: string)
  {
    v in videos && videos[v].kind == Local && videos[v].fileName == name
  }

  /** `existing_local_videos` after the loop has visited `order`. */
  function LocalIndex(videos: map<string, VideoRecord>, order: seq<string>): NameIndex
  {
    if order == [] then NameIndex([], map[])
    else
      var x := LocalIndex(videos, order[..|order| - 1]);
      var v := order[|order| - 1];
      if v in videos && videos[v].kind == Local then Put(x, videos[v].fileName, v) else x
  }

  /** The ordered ids, walked through `list(video_order)`, fill the name index of the local videos. */
  method ExistingLocalVideos(videos: map<string, VideoRecord>, order: seq<string>) returns (x: NameIndex)
    ensures x == LocalIndex(videos, order)
  {
    x := NameIndex([], map[]);
    var i := 0;
    while i < |order|
      invariant 0 <= i <= |order|
      invariant x == LocalIndex(videos, order[..i])
    {
      var v := order[i];
      assert order[..i + 1][..i] == order[..i];
      if v in videos && videos[v].kind == Local {
        x := Put(x, videos[v].fileName, v);
      }
      i := i + 1;
    }
    assert order[..i] == order;
  }

  /** The name index of the local videos holds exactly the names of local videos in the order, each name once. */
  lemma {:induction false} LocalIndexKeys(videos: map<string, VideoRecord>, order: seq<string>)
    ensures Indexed(LocalIndex(videos, order))
    ensures forall n :: n in LocalIndex(videos, order).ids <==>
      exists i :: 0 <= i < |order| && LocalNamed(videos, order[i], n)
    decreases |order|
  {
    if order != [] {
      var p := order[..|order| - 1];
      var v := order[|order| - 1];
      LocalIndexKeys(videos, p);
      forall n | exists i :: 0 <= i < |order| && LocalNamed(videos, order[i], n)
        ensures n in LocalIndex(videos, order).ids
      {
        var i :| 0 <= i < |order| && LocalNamed(videos, order[i], n);
        if i < |p| {
          assert p[i] == order[i];
        }
      }
      forall n | n in LocalIndex(videos, order).ids
        ensures exists i :: 0 <= i < |order| && LocalNamed(videos, order[i], n)
      {
        if !LocalNamed(videos, v, n) {
          var i :| 0 <= i < |p| && LocalNamed(videos, p[i], n);
          assert order[i] == p[i];
        }
      }
    }
  }

  /** Each indexed name maps to the last ordered local video of that name: later assignments win. */
  lemma {:induction false} LocalIndexLast(videos: map<string, VideoRecord>, order: seq<string>)
    ensures forall n :: n in LocalIndex(videos, order).ids ==>
      exists i :: 0 <= i < |order| && order[i] == LocalIndex(videos, order).ids[n] && LocalNamed(videos, order[i], n) &&
        forall j :: i < j < |order| ==> !LocalNamed(videos, order[j], n)
    decreases |order|
  {
    if order != [] {
      var p := order[..|order| - 1];
      var v := order[|order| - 1];
      LocalIndexLast(videos, p);
      var x := LocalIndex(videos, p);
      forall n | n in LocalIndex(videos, order).ids
        ensures exists i :: (0 <= i < |order| && order[i] == LocalIndex(videos, order).ids[n] && LocalNamed(videos, order[i], n) &&
                             forall j :: i < j < |order| ==> !LocalNamed(videos, order[j], n))
      {
        if LocalNamed(videos, v, n) {
          assert order[|order| - 1] == LocalIndex(videos, order).ids[n];
        } else {
          var i :| 0 <= i < |p| && p[i] == x.ids[n] && LocalNamed(videos, p[i], n) &&
            forall j :: i < j < |p| ==> !LocalNamed(videos, p[j], n);
          assert order[i] == p[i];
          forall j | i < j < |order| ensures !LocalNamed(videos, order[j], n) {
            if j < |p| {
              assert order[j] == p[j];
            }
          }
        }
      }
    }
  }

  /** `videos_to_remove`: the `(video_id, file_name)` pairs of the indexed names missing from the upload, in key order. */
  function RemovalPairs(x: NameIndex, current: set<string>, n: nat): (r: seq<(string, string)>)
    requires n <= |x.keys| && Indexed(x)
  {
    if n == 0 then []
    else
      var name := x.keys[n - 1];
      RemovalPairs(x, current, n - 1) + (if name in current then [] else [(x.ids[name], name)])
  }

  /** The loop over `existing_local_videos.items()`. */
  method VideosToRemove(x: NameIndex, current: set<string>) returns (r: seq<(string, string)>)
    requires Indexed(x)
    ensures r == RemovalPairs(x, current, |x.keys|)
  {
    r := [];
    var i := 0;
    while i < |x.keys|
      invariant 0 <= i <= |x.keys|
      invariant r == RemovalPairs(x, current, i)
    {
      var name := x.keys[i];
      if name !in current {
        r := r + [(x.ids[name], name)];
      }
      i := i + 1;
    }
  }

  /**
   * A pair is scheduled exactly for each indexed name missing from the
   * upload, with that name's id, and no name twice.
   */
  lemma {:induction false} RemovalPairsSpec(x: NameIndex, current: set<string>, n: nat)
    requires n <= |x.keys| && Indexed(x)
    ensures forall p :: p in RemovalPairs(x, current, n) <==>
      exists k :: 0 <= k < n && x.keys[k] !in current && p == (x.ids[x.keys[k]], x.keys[k])
    ensures forall a, b :: 0 <= a < b < |RemovalPairs(x, current, n)| ==>
      RemovalPairs(x, current, n)[a].1 != RemovalPairs(x, current, n)[b].1
  {
    if n > 0 {
      RemovalPairsSpec(x, current, n - 1);
      var r0 := RemovalPairs(x, current, n - 1);
      var name := x.keys[n - 1];
      forall a | 0 <= a < |r0| ensures r0[a].1 != name {
        assert r0[a] in r0;
        var k :| 0 <= k < n - 1 && x.keys[k] !in current && r0[a] == (x.ids[x.keys[k]], x.keys[k]);
      }
    }
  }

  /**
   * The diff of `process_video_upload_and_removal_wrapper`, sound half: a
   * scheduled pair names an ordered local video and a name missing from the
   * upload, and no name is scheduled twice; YouTube entries are therefore
   * never scheduled.
   */
  lemma LocalVideosToRemoveSound(videos: map<string, VideoRecord>, order: seq<string>, current: set<string>)
    ensures Indexed(LocalIndex(videos, order))
    ensures var x := LocalIndex(videos, order);
      var r := RemovalPairs(x, current, |x.keys|);
      (forall p :: p in r ==> p.0 in order && LocalNamed(videos, p.0, p.1) && p.1 !in current) &&
      (forall a, b :: 0 <= a < b < |r| ==> r[a].1 != r[b].1)
  {
    LocalIndexKeys(videos, order);
    LocalIndexLast(videos, order);
    var x := LocalIndex(videos, order);
    RemovalPairsSpec(x, current, |x.keys|);
    var r := RemovalPairs(x, current, |x.keys|);
    forall p | p in r ensures p.0 in order && LocalNamed(videos, p.0, p.1) && p.1 !in current {
      var k :| 0 <= k < |x.keys| && x.keys[k] !in current && p == (x.ids[x.keys[k]], x.keys[k]);
      var i :| 0 <= i < |order| && order[i] == x.ids[p.1] && LocalNamed(videos, order[i], p.1) &&
        forall j :: i < j < |order| ==> !LocalNamed(videos, order[j], p.1);
    }
  }

  /**
   * The diff, complete half: every ordered local video whose name is missing
   * from the upload has its name scheduled, paired with the last ordered
   * local video of that name.
   */
  lemma LocalVideosToRemoveComplete(videos: map<string, VideoRecord>, order: seq<string>, current: set<string>, i: nat)
    requires i < |order| && order[i] in videos && videos[order[i]].kind == Local
    requires videos[order[i]].fileName !in current
    ensures Indexed(LocalIndex(videos, order))
    ensures var x := LocalIndex(videos, order);
      var n := videos[order[i]].fileName;
      n in x.ids && (x.ids[n], n) in RemovalPairs(x, current, |x.keys|)
  {
    LocalIndexKeys(videos, order);
    var x := LocalIndex(videos, order);
    var n := videos[order[i]].fileName;
    assert LocalNamed(videos, order[i], n);
    RemovalPairsSpec(x, current, |x.keys|);
    assert n in x.ids;
    assert n in x.keys;
    var k :| 0 <= k < |x.keys| && x.keys[k] == n;
    assert x.keys[k] !in current;
  }

  /**
   * The decisions of `process_video_upload_and_removal_wrapper` given the
   * registry, the upload widget's files (`None` when the widget is empty),
   * the URL text and the URLs parsed from it: the videos it passes to
   * `remove_video`, and whether it goes on to `process_video_upload`.
   */
  method VideoUploadAndRemovalPlan(videos: map<string, VideoRecord>, order: seq<string>, files: Option<seq<Option<string>>>,
                                   urlsText: Option<string>, urls: seq<string>)
    returns (toRemove: seq<(string, string)>, uploads: bool)
    ensures var x := LocalIndex(videos, order);
      Indexed(x) && toRemove == RemovalPairs(x, CurrentVideoNames(OrNone(files)), |x.keys|)
    // Removals only: the handler returns early; otherwise uploads run when there is a file or a parsed URL.
    ensures uploads <==> |OrNone(files)| > 0 || (urlsText.Some? && urlsText.value != "" && |urls| > 0)
  {
    var current := OrNone(files);
    var names := CurrentVideoNames(current);
    var existing := ExistingLocalVideos(videos, order);
    LocalIndexKeys(videos, order);
    toRemove := VideosToRemove(existing, names);
    var hasText := urlsText.Some? && urlsText.value != "";
    if |toRemove| > 0 && |current| == 0 && !hasText {
      return toRemove, false;
    }
    uploads := false;
    if |current| > 0 || hasText {
      var parsed := if hasText then urls else [];
      if |current| > 0 || |parsed| > 0 {
        uploads := true;
      }
    }
  }

  /** `files if files else []`. */
  function OrNone(files: Option<seq<Option<string>>>): (r: seq<Option<string>>)
    ensures files.None? ==> r == []
    ensures files.Some? ==> r == files.value
  {
    if files.None? then [] else files.value
  }

  // ---------------------------------------------------------------------------
  // The removal dropdown
  // ---------------------------------------------------------------------------

  const NoVideosChoice: string := "No videos to remove"
  const SelectChoice: string := "Select video to remove..."
  const LabelSeparator: string := ": "

  datatype Dropdown = Dropdown(choices: seq<string>, value: string)

  /** `f"{video_id}: {file_name}"`. */
  function ChoiceLabel(id: string, name: string): string
  {
    id + LabelSeparator + name
  }

  /** The labels of the ordered ids present in `videos`, in order. */
  function Choices(videos: map<string, VideoRecord>, order: seq<string>): seq<string>
  {
    if order == [] then []
    else
      var v := order[|order| - 1];
      Choices(videos, order[..|order| - 1]) + (if v in videos then [ChoiceLabel(v, videos[v].fileName)] else [])
  }

  /** `update_video_removal_dropdown`. */
  method UpdateVideoRemovalDropdown(videos: map<string, VideoRecord>, order: seq<string>) returns (d: Dropdown)
    ensures |videos| == 0 || |order| == 0 ==> d == Dropdown([NoVideosChoice], NoVideosChoice)
    ensures |videos| > 0 && |order| > 0 ==> d == Dropdown([SelectChoice] + Choices(videos, order), SelectChoice)
  {
    if |videos| == 0 || |order| == 0 {
      return Dropdown([NoVideosChoice], NoVideosChoice);
    }
    var choices := [SelectChoice];
    var i := 0;
    while i < |order|
      invariant 0 <= i <= |order|
      invariant choices == [SelectChoice] + Choices(videos, order[..i])
    {
      var v := order[i];
      assert order[..i + 1][..i] == order[..i];
      if v in videos {
        choices := choices + [ChoiceLabel(v, videos[v].fileName)];
      }
      i := i + 1;
    }
    assert order[..i] == order;
    d := Dropdown(choices, SelectChoice);
  }

  /** Every choice is the label of an ordered registered video, and every ordered registered video has its label among them. */
  lemma {:induction false} ChoicesSpec(videos: map<string, VideoRecord>, order: seq<string>)
    ensures forall c :: c in Choices(videos, order) ==>
      exists i :: 0 <= i < |order| && order[i] in videos && c == ChoiceLabel(order[i], videos[order[i]].fileName)
    ensures forall i :: 0 <= i < |order| && order[i] in videos ==>
      ChoiceLabel(order[i], videos[order[i]].fileName) in Choices(videos, order)
    ensures |Choices(videos, order)| <= |order|
    decreases |order|
  {
    if order != [] {
      var p := order[..|order| - 1];
      ChoicesSpec(videos, p);
      forall c | c in Choices(videos, order)
        ensures exists i :: 0 <= i < |order| && order[i] in videos && c == ChoiceLabel(order[i], videos[order[i]].fileName)
      {
        if c in Choices(videos, p) {
          var i :| 0 <= i < |p| && p[i] in videos && c == ChoiceLabel(p[i], videos[p[i]].fileName);
          assert order[i] == p[i];
        }
      }
      forall i | 0 <= i < |order| && order[i] in videos
        ensures ChoiceLabel(order[i], videos[order[i]].fileName) in Choices(videos, order)
      {
        if i < |p| {
          assert order[i] == p[i];
        }
      }
    }
  }

  // ---------------------------------------------------------------------------
  // The selection of the dropdown
  // ---------------------------------------------------------------------------

  /** `s.split(": ")[0]`: the text before the first separator, or all of `s`. */
  function BeforeSeparator(s: string): (r: string)
    ensures |r| <= |s| && r == s[..|r|]
    ensures |r| == |s| || OccursAt(s, LabelSeparator, |r|)
    ensures forall j :: 0 <= j < |r| ==> !OccursAt(s, LabelSeparator, j)
  {
    if |s| < 2 then s
    else if s[..2] == LabelSeparator then ""
    else
      var t := BeforeSeparator(s[1..]);
      assert forall j :: 0 < j <= |t| ==> (OccursAt(s, LabelSeparator, j) <==> OccursAt(s[1..], LabelSeparator, j - 1));
      [s[0]] + t
  }

  /**
   * The id `remove_selected_video_wrapper` hands to `remove_video`: none for
   * an empty selection or a sentinel, else the text before the first `": "`.
   */
  function SelectedVideoId(selected: Option<string>): (r: Option<string>)
    ensures r.None? <==> selected.None? || selected.value in [[], NoVideosChoice, SelectChoice]
  {
    if selected.None? || selected.value in [[], NoVideosChoice, SelectChoice] then None
    else Some(BeforeSeparator(selected.value))
  }

  /** Selecting the label of a video whose id holds no `": "` removes that video. */
  lemma SelectionRoundTrip(id: string, name: string)
    requires forall j :: 0 <= j < |id| ==> !OccursAt(id, LabelSeparator, j)
    ensures SelectedVideoId(Some(ChoiceLabel(id, name))) == Some(id)
  {
    var s := ChoiceLabel(id, name);
    assert s[|id|] == ':';
    assert ':' !in NoVideosChoice && ':' !in SelectChoice;
    assert s !in [[], NoVideosChoice, SelectChoice];
    var r := BeforeSeparator(s);
    assert OccursAt(s, LabelSeparator, |id|);
    assert forall j :: 0 <= j < |id| ==> s[j] == id[j];
    if |r| < |id| {
      var k := |r|;
      assert s[k..k + 2] == LabelSeparator;
      assert s[k] == ':' && s[k + 1] == ' ' by {
        assert s[k..k + 2][0] == s[k] && s[k..k + 2][1] == s[k + 1];
      }
      if k + 1 < |id| {
        assert id[k..k + 2] == LabelSeparator;
        assert OccursAt(id, LabelSeparator, k);
      }
    }
    assert |r| == |id|;
    assert r == id;
  }

  /** The transcript after `remove_video` raises: the error goes after the existing entries. */
  function RemovalErrorChat(chat: Option<seq<ChatEntry>>, err: string): (r: seq<ChatEntry>)
    ensures |r| == |OrEmpty(chat)| + 1 && r[..|r| - 1] == OrEmpty(chat)
    ensures r[|r| - 1].role == Assistant && IsPrefix(RemovalErrorLead, r[|r| - 1].content)
  {
    OrEmpty(chat) + [ChatEntry(Assistant, RemovalErrorLead + err)]
  }

  /** U+274C, then the lead of the removal error. */
  const RemovalErrorLead: string := "\U{274C} Error removing video: "

  // ---------------------------------------------------------------------------
  // The handlers' updates of the global state
  // ---------------------------------------------------------------------------

  /**
   * `stream_assistant_reply_wrapper`: runs the reply stream on the globals
   * and stores the returned ledgers, position map and counter. The
   * registry is untouched, and the state stays consistent whether the
   * stream completes or raises.
   */
  method StreamAssistantReplyWrapper(st: AppState, message: Option<string>, chat: seq<ChatEntry>,
                                     deltas: seq<Option<string>>, fails: bool, err: string)
    returns (shown: seq<seq<ChatEntry>>)
    requires chat != [] && st.Valid()
    modifies st`ledger, st`ledgerShow, st`documentPositions, st`chatPositionCounter
    ensures st.Valid()
    ensures |st.documents| == 0 ==>
      shown == [SetLast(chat, NoDocumentsText)] &&
      st.ledger == old(st.ledger) && st.ledgerShow == old(st.ledgerShow) &&
      st.documentPositions == old(st.documentPositions) && st.chatPositionCounter == old(st.chatPositionCounter)
    ensures |st.documents| > 0 && old(st.ledger).None? ==>
      st.documentPositions == Reposition(old(st.documentPositions), st.documentOrder) &&
      st.chatPositionCounter == |st.documentOrder| + 2
    ensures |st.documents| > 0 && old(st.ledger).Some? ==>
      st.documentPositions == old(st.documentPositions) && st.chatPositionCounter == old(st.chatPositionCounter)
    ensures |st.documents| > 0 && !fails ==>
      var base := if old(st.ledger).None? then BuiltLedger(st.documents, st.documentOrder, false) else old(st.ledger).value;
      var baseShow := if old(st.ledger).None? then BuiltLedger(st.documents, st.documentOrder, true)
                      else old(st.ledgerShow).value;
      var q := Question(message);
      var a := Streamed(chat, deltas)[|chat| - 1].content;
      shown == StreamYields(chat, deltas) &&
      st.ledger == Some(base + [Turn(User, Plain(q)), Turn(Assistant, Plain(a))]) &&
      st.ledgerShow == Some(baseShow + [Turn(User, Plain(Preview(q))), Turn(Assistant, Plain(Preview(a)))])
    ensures |st.documents| > 0 && fails ==>
      var q := Question(message);
      shown == StreamYields(chat, deltas) + [SetLast(chat, ErrorLead + err)] &&
      st.ledger == (if old(st.ledger).None? then None else Some(old(st.ledger).value + [Turn(User, Plain(q))])) &&
      st.ledgerShow == (if old(st.ledger).None? then old(st.ledgerShow)
                        else Some(old(st.ledgerShow).value + [Turn(User, Plain(Preview(q)))]))
  {
    var chatOut, ledger, ledgerShow, positions, counter;
    ghost var ledger0, ledgerShow0 := st.ledger, st.ledgerShow;
    shown, chatOut, ledger, ledgerShow, positions, counter := StreamAssistantReply(
      message, chat, st.documents, st.documentOrder, st.ledger, st.ledgerShow,
      st.documentPositions, st.chatPositionCounter, deltas, fails, err);
    StreamKeepsConsistent(st.documents, st.documentOrder, st.documentPositions, ledger0, ledgerShow0,
                          message, chat, deltas, fails, ledger, ledgerShow, positions);
    st.ledger, st.ledgerShow := ledger, ledgerShow;
    st.documentPositions, st.chatPositionCounter := positions, counter;
  }

  /** The four values the stream returns keep the registry and the ledgers consistent. */
  lemma StreamKeepsConsistent(documents: map<string, DocRecord>, order: seq<string>, positions0: map<string, nat>,
                              ledger0: Option<seq<Turn>>, ledgerShow0: Option<seq<Turn>>,
                              message: Option<string>, chat: seq<ChatEntry>, deltas: seq<Option<string>>, fails: bool,
                              ledger: Option<seq<Turn>>, ledgerShow: Option<seq<Turn>>, positions: map<string, nat>)
    requires chat != []
    requires DocsConsistent(documents, order, positions0) && LedgerConsistent(ledger0, ledgerShow0, positions0)
    requires |documents| == 0 ==> ledger == ledger0 && ledgerShow == ledgerShow0 && positions == positions0
    requires |documents| > 0 && ledger0.None? ==> positions == Reposition(positions0, order)
    requires |documents| > 0 && ledger0.Some? ==> positions == positions0
    requires |documents| > 0 && !fails && (ledger0.None? || ledgerShow0.Some?) ==>
      var base := if ledger0.None? then BuiltLedger(documents, order, false) else ledger0.value;
      var baseShow := if ledger0.None? then BuiltLedger(documents, order, true) else ledgerShow0.value;
      var q := Question(message);
      var a := Streamed(chat, deltas)[|chat| - 1].content;
      ledger == Some(base + [Turn(User, Plain(q)), Turn(Assistant, Plain(a))]) &&
      ledgerShow == Some(baseShow + [Turn(User, Plain(Preview(q))), Turn(Assistant, Plain(Preview(a)))])
    requires |documents| > 0 && fails && (ledger0.None? || ledgerShow0.Some?) ==>
      var q := Question(message);
      ledger == (if ledger0.None? then None else Some(ledger0.value + [Turn(User, Plain(q))])) &&
      ledgerShow == (if ledger0.None? then ledgerShow0 else Some(ledgerShow0.value + [Turn(User, Plain(Preview(q)))]))
    ensures DocsConsistent(documents, order, positions) && LedgerConsistent(ledger, ledgerShow, positions)
  {
    if |documents| > 0 {
      var q := Question(message);
      if ledger0.None? {
        BuiltLedgerConsistent(documents, order, positions0);
        if !fails {
          var base, baseShow := BuiltLedger(documents, order, false), BuiltLedger(documents, order, true);
          ExchangeMirrors(base, baseShow, q, Streamed(chat, deltas)[|chat| - 1].content);
        }
      } else if fails {
        PreviewMirrors(User, q);
        TurnsMirrorAppend(ledger0.value, ledgerShow0.value, Turn(User, Plain(q)), Turn(User, Plain(Preview(q))));
      } else {
        ExchangeMirrors(ledger0.value, ledgerShow0.value, q, Streamed(chat, deltas)[|chat| - 1].content);
      }
    }
  }

  /**
   * `clear_chat_wrapper`: an empty transcript, no ledgers, no positions,
   * counter 0, and the structured export regenerated from the untouched
   * registry.
   */
  method ClearChatWrapper(st: AppState) returns (chat: seq<ChatEntry>)
    requires st.Valid()
    modifies st`ledger, st`ledgerShow, st`documentPositions, st`chatPositionCounter, st`structuredDocsCache
    ensures st.Valid()
    ensures chat == [] && st.ledger.None? && st.ledgerShow.None?
    ensures st.documentPositions == map[] && st.chatPositionCounter == 0
    ensures st.structuredDocsCache == DocsInfo(st.documents, st.documentOrder)
  {
    var cleared := ClearChat(st.ledger, st.ledgerShow, st.documentPositions, st.chatPositionCounter);
    chat := cleared.0;
    st.ledger, st.ledgerShow, st.documentPositions, st.chatPositionCounter := cleared.1, cleared.2, cleared.3, cleared.4;
    st.structuredDocsCache := SaveDocsStructuredInfo(st.documents, st.documentOrder, st.structuredDocsCache);
  }

  /** `reset_all_state_wrapper`: every registry, ledger, map, counter and cache starts over. */
  method ResetAllStateWrapper(st: AppState) returns (chat: seq<ChatEntry>)
    modifies st
    ensures st.Valid() && chat == []
    ensures st.documents == map[] && st.documentOrder == [] && st.videos == map[] && st.videoOrder == []
    ensures st.documentPositions == map[] && st.chatPositionCounter == 0
    ensures st.ledger.None? && st.ledgerShow.None?
    ensures st.structuredDocsCache == [] && st.structuredVideosCache == []
  {
    ResetAllState(st);
    st.structuredVideosCache := [];
    chat := [];
  }
}
