/**
 * `process_video_upload` of the older root video_utils.py: the same
 * registration as the current version, no description step, and a status
 * text whose emoji were saved through a Mac Roman round trip (the bytes of
 * U+1F3A5 and U+274C read as Mac Roman characters), plus a note that videos
 * are not part of the chat context.
 */
module LegacyVideoUtils {
  import opened Common
  import opened Strings
  import opened Decimal
  import opened Ledger
  import opened Records
  import opened Session
  import opened VideoRegistry

  /** The bytes F0 9F 8E A5 of U+1F3A5 read as Mac Roman. */
  const AddedMark: string := "\U{F8FF}\U{00FC}\U{00E9}\U{2022}"
  /** The bytes E2 9D 8C of U+274C read as Mac Roman. */
  const FailedMark: string := "\U{201A}\U{00F9}\U{00E5}"

  function TotalTail(total: nat): string
  {
    "\n\nTotal videos: " + NatToString(total) + ". Videos are for viewing only and not included in AI chat context yet."
  }

  /** The status entry: present only when something was added or failed, closing with the count and the note. */
  function StatusTurns(processed: seq<string>, failed: seq<string>, total: nat): (r: seq<ChatEntry>)
    ensures |r| <= 1
    ensures r == [] <==> processed == [] && failed == []
    ensures r != [] ==> r[0].role == Assistant && IsSuffix(TotalTail(total), r[0].content)
    ensures r != [] && processed != [] ==> IsPrefix(AddedLine(processed, AddedMark), r[0].content)
  {
    var lines := StatusLines(processed, failed, AddedMark, FailedMark);
    if lines == [] then []
    else
      var text := Join("\n", lines) + TotalTail(total);
      assert IsPrefix(lines[0], Join("\n", lines)) by { JoinStartsWithFirst("\n", lines); }
      assert text[..|Join("\n", lines)|] == Join("\n", lines);
      [ChatEntry(Assistant, text)]
  }

  /** The older `process_video_upload`: registration and the status entry, nothing else. */
  method ProcessVideoUpload(st: AppState, files: FilesArg, youtubeUrl: Option<string>, chat: Option<seq<ChatEntry>>,
                            extract: string -> Option<string>)
    returns (chatOut: seq<ChatEntry>, processed: seq<string>, failed: seq<string>)
    requires forall v :: v in st.videoOrder ==> v in st.videos
    modifies st`videos, st`videoOrder
    ensures Registry(st.videos, st.videoOrder, processed, failed) ==
      Registered(old(st.videos), old(st.videoOrder), files, youtubeUrl, extract)
    ensures old(st.VideosValid()) ==> st.VideosValid()
    ensures chatOut == OrEmpty(chat) + StatusTurns(processed, failed, |st.videos|)
  {
    processed, failed := RegisterVideos(st, files, youtubeUrl, extract);
    chatOut := OrEmpty(chat) + StatusTurns(processed, failed, |st.videos|);
  }
}
