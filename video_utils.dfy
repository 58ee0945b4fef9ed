/**
 * `process_video_upload` of utils/video_utils.py: registration (shared with
 * the older version), the status message, and the automatic description of
 * the new videos. The description service is the `describe` parameter and
 * the presence of a client is `hasClient`.
 */
module VideoUtils {
  import opened Common
  import opened Strings
  import opened Decimal
  import opened Ledger
  import opened Records
  import opened Session
  import opened VideoRegistry
  import opened Descriptions
  import opened DataManager

  const AddedMark: string := "\U{1F3A5}"
  const FailedMark: string := "\U{274C}"
  const GeneratingText: string := "\U{1F916} Generating AI descriptions for new videos... This may take a few minutes."
  const NoNewText: string := "\U{2139}\U{FE0F} No new videos to process for descriptions."

  function TotalTail(total: nat): string
  {
    "\n\nTotal videos: " + NatToString(total) + "."
  }

  function CompletionText(n: nat): string
  {
    "\U{2705} Video descriptions generated successfully! Processed " + NatToString(n) + " new videos with AI analysis."
  }

  /**
   * The status entry appended to the transcript: present only when something
   * was added or failed, opening with the added videos and closing with the
   * number of stored videos.
   */
  function StatusTurns(processed: seq<string>, failed: seq<string>, total: nat): (r: seq<ChatEntry>)
    ensures |r| <= 1
    ensures r == [] <==> processed == [] && failed == []
    ensures r != [] ==> r[0].role == Assistant && IsSuffix(TotalTail(total), r[0].content)
    ensures r != [] && processed != [] ==> IsPrefix(AddedLine(processed, AddedMark), r[0].content)
  {
    var lines := StatusLines(processed, failed, AddedMark, FailedMark);
    if lines == [] then []
    else
      var text := Join("\n", lines) + TotalTail(total);
      assert IsPrefix(lines[0], Join("\n", lines)) by { JoinStartsWithFirst("\n", lines); }
      assert text[..|Join("\n", lines)|] == Join("\n", lines);
      [ChatEntry(Assistant, text)]
  }

  /** The keys `"video_{video_id}"` of the cached descriptions that carry an id. */
  function DescribedIds(cache: seq<VideoDescription>): set<string>
  {
    if cache == [] then {}
    else
      var c := cache[|cache| - 1];
      DescribedIds(cache[..|cache| - 1]) + (if c.videoId.Some? then {"video_" + IntToString(c.videoId.value)} else {})
  }

  /** A key is described exactly when some cached description carries its number. */
  lemma {:induction false} DescribedIdsMembers(cache: seq<VideoDescription>, key: string)
    ensures key in DescribedIds(cache) <==>
      exists k :: 0 <= k < |cache| && cache[k].videoId.Some? && key == "video_" + IntToString(cache[k].videoId.value)
    decreases |cache|
  {
    if cache != [] {
      var n := |cache| - 1;
      DescribedIdsMembers(cache[..n], key);
      if key in DescribedIds(cache[..n]) {
        var k :| 0 <= k < n && cache[..n][k].videoId.Some? && key == "video_" + IntToString(cache[..n][k].videoId.value);
        assert cache[k] == cache[..n][k];
      }
      if exists k :: 0 <= k < |cache| && cache[k].videoId.Some? && key == "video_" + IntToString(cache[k].videoId.value) {
        var k :| 0 <= k < |cache| && cache[k].videoId.Some? && key == "video_" + IntToString(cache[k].videoId.value);
        if k < n {
          assert cache[..n][k] == cache[k];
        }
      }
    }
  }

  /** The loop over the cache that builds `existing_video_ids`. */
  method CollectDescribedIds(cache: seq<VideoDescription>) returns (ids: set<string>)
    ensures ids == DescribedIds(cache)
  {
    ids := {};
    var i := 0;
    while i < |cache|
      invariant 0 <= i <= |cache|
      invariant ids == DescribedIds(cache[..i])
    {
      assert cache[..i + 1][..i] == cache[..i];
      if cache[i].videoId.Some? {
        ids := ids + {"video_" + IntToString(cache[i].videoId.value)};
      }
      i := i + 1;
    }
    assert cache[..i] == cache;
  }

  /** What the description step adds: descriptions of the ordered videos whose key is not yet described. */
  function FreshDescriptions(videos: map<string, VideoRecord>, order: seq<string>, cache: seq<VideoDescription>,
                             describe: VideoRecord -> Option<seq<VideoDescription>>): seq<VideoDescription>
  {
    if |videos| == 0 || order == [] then []
    else Merged(Outcomes(NewTasks(videos, order, DescribedIds(cache)), describe))
  }

  /**
   * The description step: the cache grows by the newOnes descriptions, and the
   * transcript reports the start and then the outcome.
   */
  method DescribeNewVideos(videos: map<string, VideoRecord>, order: seq<string>, cache: seq<VideoDescription>,
                           describe: VideoRecord -> Option<seq<VideoDescription>>)
    returns (turns: seq<ChatEntry>, cacheOut: seq<VideoDescription>)
    ensures var newOnes := FreshDescriptions(videos, order, cache, describe);
      cacheOut == cache + newOnes &&
      turns == [ChatEntry(Assistant, GeneratingText)] +
        (if newOnes != [] then [ChatEntry(Assistant, CompletionText(|newOnes|))] else [ChatEntry(Assistant, NoNewText)])
  {
    turns := [ChatEntry(Assistant, GeneratingText)];
    var existing := CollectDescribedIds(cache);
    var newOnes: seq<VideoDescription> := [];
    if |videos| > 0 && order != [] {
      newOnes := GenerateNewVideoDescriptions(videos, order, existing, describe);
    }
    cacheOut := cache;
    if newOnes != [] {
      cacheOut := cacheOut + newOnes;
      cacheOut := SaveVideoStructuredInfo(Some(cacheOut), cacheOut);
      turns := turns + [ChatEntry(Assistant, CompletionText(|newOnes|))];
    } else {
      turns := turns + [ChatEntry(Assistant, NoNewText)];
    }
  }

  /** The transcript and cache that the upload produces once registration is done. */
  function Outcome(chat: Option<seq<ChatEntry>>, processed: seq<string>, failed: seq<string>, hasClient: bool,
                   videos: map<string, VideoRecord>, order: seq<string>, cache: Option<seq<VideoDescription>>,
                   describe: VideoRecord -> Option<seq<VideoDescription>>): (seq<ChatEntry>, seq<VideoDescription>)
  {
    var cache0 := if cache.Some? then cache.value else [];
    var base := OrEmpty(chat) + StatusTurns(processed, failed, |videos|);
    if processed != [] && hasClient then
      var newOnes := FreshDescriptions(videos, order, cache0, describe);
      (base + [ChatEntry(Assistant, GeneratingText)] +
         (if newOnes != [] then [ChatEntry(Assistant, CompletionText(|newOnes|))] else [ChatEntry(Assistant, NoNewText)]),
       cache0 + newOnes)
    else (base, cache0)
  }

  /** The status entry and the description step, after registration. */
  method ReportAndDescribe(chat: Option<seq<ChatEntry>>, processed: seq<string>, failed: seq<string>, hasClient: bool,
                           videos: map<string, VideoRecord>, order: seq<string>, cache: Option<seq<VideoDescription>>,
                           describe: VideoRecord -> Option<seq<VideoDescription>>)
    returns (chatOut: seq<ChatEntry>, cacheOut: seq<VideoDescription>)
    ensures (chatOut, cacheOut) == Outcome(chat, processed, failed, hasClient, videos, order, cache, describe)
  {
    chatOut := OrEmpty(chat) + StatusTurns(processed, failed, |videos|);
    cacheOut := if cache.Some? then cache.value else [];
    if processed != [] && hasClient {
      var turns;
      var base := chatOut;
      turns, cacheOut := DescribeNewVideos(videos, order, cacheOut, describe);
      chatOut := base + turns;
      assert chatOut == base + [ChatEntry(Assistant, GeneratingText)] + turns[1..];
    }
  }

  /**
   * `process_video_upload`: the registry grows as `Registered` says; the
   * transcript gains the status entry and, when something was added and a
   * client is present, the description step runs on the new state.
   */
  method ProcessVideoUpload(st: AppState, files: FilesArg, youtubeUrl: Option<string>, chat: Option<seq<ChatEntry>>,
                            hasClient: bool, cache: Option<seq<VideoDescription>>,
                            extract: string -> Option<string>, describe: VideoRecord -> Option<seq<VideoDescription>>)
    returns (chatOut: seq<ChatEntry>, processed: seq<string>, failed: seq<string>, cacheOut: seq<VideoDescription>)
    requires forall v :: v in st.videoOrder ==> v in st.videos
    modifies st`videos, st`videoOrder
    ensures Registry(st.videos, st.videoOrder, processed, failed) ==
      Registered(old(st.videos), old(st.videoOrder), files, youtubeUrl, extract)
    ensures old(st.VideosValid()) ==> st.VideosValid()
    ensures (chatOut, cacheOut) == Outcome(chat, processed, failed, hasClient, st.videos, st.videoOrder, cache, describe)
  {
    processed, failed := RegisterVideos(st, files, youtubeUrl, extract);
    chatOut, cacheOut := ReportAndDescribe(chat, processed, failed, hasClient, st.videos, st.videoOrder, cache, describe);
  }

  /** Nothing is described, and the cache is left as it is, when no client is present or nothing was added. */
  lemma OutcomeWithoutDescriptions(chat: Option<seq<ChatEntry>>, processed: seq<string>, failed: seq<string>, hasClient: bool,
                                   videos: map<string, VideoRecord>, order: seq<string>, cache: seq<VideoDescription>,
                                   describe: VideoRecord -> Option<seq<VideoDescription>>)
    requires processed == [] || !hasClient
    ensures Outcome(chat, processed, failed, hasClient, videos, order, Some(cache), describe).1 == cache
    ensures |Outcome(chat, processed, failed, hasClient, videos, order, Some(cache), describe).0| == |OrEmpty(chat)| + (if failed == [] && processed == [] then 0 else 1)
  {
  }

  /**
   * With a client and something added, the cache only grows, and it grows by
   * descriptions of videos whose keys were not yet described.
   */
  lemma OutcomeDescribesNew(chat: Option<seq<ChatEntry>>, processed: seq<string>, failed: seq<string>,
                            videos: map<string, VideoRecord>, order: seq<string>, cache: seq<VideoDescription>,
                            describe: VideoRecord -> Option<seq<VideoDescription>>)
    requires processed != [] && order != [] && |videos| > 0
    ensures var out := Outcome(chat, processed, failed, true, videos, order, Some(cache), describe).1;
      |cache| <= |out| && out[..|cache|] == cache &&
      out[|cache|..] == Merged(Outcomes(NewTasks(videos, order, DescribedIds(cache)), describe))
    ensures forall t :: t in NewTasks(videos, order, DescribedIds(cache)) ==>
      t.videoId in videos && t.videoId !in DescribedIds(cache)
  {
    NewTasksSound(videos, order, DescribedIds(cache));
    var out := Outcome(chat, processed, failed, true, videos, order, Some(cache), describe).1;
    assert out == cache + Merged(Outcomes(NewTasks(videos, order, DescribedIds(cache)), describe));
  }
}
