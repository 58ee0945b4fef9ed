/**
 * Video registration shared by both versions of `process_video_upload`
 * (utils/video_utils.py and the older root video_utils.py): the snapshot of
 * existing names and YouTube ids, the loop over uploaded files, the YouTube
 * link, and the key allocation. The two versions differ only in their status
 * text and the description step, which live in their own modules.
 *
 * A registration pass is specified as a fold over a `Registry` value (the
 * videos dictionary, the order list and the `processed` / `failed` lists);
 * the methods perform the same steps in place on the application state.
 */
module VideoRegistry {
  import opened Common
  import opened Strings
  import opened Decimal
  import opened Paths
  import opened Allocation
  import opened Records
  import opened Session

  const SupportedFormats: seq<string> := [".mp4", ".avi", ".mov", ".wmv", ".flv", ".webm", ".mkv"]
  const UnsupportedNote: string := " (unsupported format)"
  const InvalidYouTubeUrl: string := "Invalid YouTube URL"
  const YouTubeNameLead: string := "YouTube Video ("
  const YouTubeLabelLead: string := "YouTube: "

  /** The `files` argument: `None`, one file object, or a list; a file is its temporary path, or `None`. */
  datatype FilesArg = NoFiles | OneFile(file: Option<string>) | FileList(files: seq<Option<string>>)

  /** `if not isinstance(files, list): files = [files]`. */
  function FileItems(files: FilesArg): seq<Option<string>>
  {
    match files
    case NoFiles => []
    case OneFile(f) => [f]
    case FileList(fs) => fs
  }

  /** `existing_video_names`: the names of the ordered videos, taken once before the loops. */
  function ExistingNames(videos: map<string, VideoRecord>, order: seq<string>): seq<string>
    requires forall v :: v in order ==> v in videos
  {
    seq(|order|, k requires 0 <= k < |order| => videos[order[k]].fileName)
  }

  /** `existing_youtube_ids`: the stored YouTube id of every ordered YouTube video. */
  function ExistingYouTubeIds(videos: map<string, VideoRecord>, order: seq<string>): seq<Option<string>>
    requires forall v :: v in order ==> v in videos
  {
    if order == [] then []
    else
      var v := order[|order| - 1];
      ExistingYouTubeIds(videos, order[..|order| - 1]) + (if videos[v].kind == YouTube then [videos[v].youtubeId] else [])
  }

  datatype Registry = Registry(videos: map<string, VideoRecord>, order: seq<string>, processed: seq<string>, failed: seq<string>)

  /** The key the allocation loop settles on: `video_{len(videos)}`, else counting up from `len(videos) + len(processed) + 1`. */
  function NextVideoId(g: Registry): string
  {
    Allocated("video_", g.videos.Keys, |g.videos|, |g.videos| + |g.processed| + 1)
  }

  /** Storing a video under a key: dictionary entry, order, and the processed entry. */
  function Store(g: Registry, id: string, r: VideoRecord, entry: string): Registry
  {
    Registry(g.videos[id := r], g.order + [id], g.processed + [entry], g.failed)
  }

  predicate Supported(name: string)
  {
    Lower(Suffix(name)) in SupportedFormats
  }

  /** The record of an uploaded file: its base name, its temporary path, type "local", no url. */
  function LocalRecord(path: string): VideoRecord
  {
    VideoRecord(BaseName(path), Some(path), Local, None, None)
  }

  /** One pass of the file loop. */
  function FileStep(g: Registry, file: Option<string>, existingNames: seq<string>): Registry
  {
    match file
    case None => g
    case Some(path) =>
      var name := BaseName(path);
      if name in existingNames then g
      else if !Supported(name) then g.(failed := g.failed + [name + UnsupportedNote])
      else Store(g, NextVideoId(g), LocalRecord(path), name)
  }

  function FilesFold(g: Registry, files: seq<Option<string>>, existingNames: seq<string>): Registry
  {
    if files == [] then g
    else FileStep(FilesFold(g, files[..|files| - 1], existingNames), files[|files| - 1], existingNames)
  }

  /** The record of an accepted YouTube link. */
  function YouTubeRecord(url: string, ytId: string): VideoRecord
  {
    VideoRecord(YouTubeNameLead + ytId + ")", None, YouTube, Some(url), Some(ytId))
  }

  /**
   * The YouTube branch: a blank link does nothing, a link without an id is a
   * failure, a known id is skipped silently, anything else is stored.
   * `extract` is `extract_youtube_id`.
   */
  function YouTubeStep(g: Registry, url: Option<string>, existingIds: seq<Option<string>>, extract: string -> Option<string>): Registry
  {
    if url.None? || Strip(url.value) == [] then g
    else
      var u := Strip(url.value);
      var yt := extract(u);
      if yt.None? || yt.value == [] then g.(failed := g.failed + [InvalidYouTubeUrl])
      else if yt in existingIds then g
      else Store(g, NextVideoId(g), YouTubeRecord(u, yt.value), YouTubeLabelLead + yt.value)
  }

  /** The whole registration pass: the files, then the link, against the snapshot taken at the start. */
  function Registered(videos: map<string, VideoRecord>, order: seq<string>, files: FilesArg, url: Option<string>,
                      extract: string -> Option<string>): Registry
    requires forall v :: v in order ==> v in videos
  {
    var afterFiles := FilesFold(Registry(videos, order, [], []), FileItems(files), ExistingNames(videos, order));
    YouTubeStep(afterFiles, url, ExistingYouTubeIds(videos, order), extract)
  }

  /** `"🎥 Added video: '{name}'"` for one video, `"🎥 Added {n} videos: {names}"` for several. */
  function AddedLine(processed: seq<string>, mark: string): string
    requires processed != []
  {
    if |processed| == 1 then mark + " Added video: '" + processed[0] + "'"
    else mark + " Added " + NatToString(|processed|) + " videos: " + Join(", ", processed)
  }

  /** The status lines: the added videos, then the failures, each only when there are any. */
  function StatusLines(processed: seq<string>, failed: seq<string>, addedMark: string, failedMark: string): (r: seq<string>)
    ensures |r| == (if processed != [] then 1 else 0) + (if failed != [] then 1 else 0)
    ensures r == [] <==> processed == [] && failed == []
    ensures processed != [] ==> r[0] == AddedLine(processed, addedMark)
    ensures failed != [] ==> r[|r| - 1] == failedMark + " Failed to process videos: " + Join(", ", failed)
  {
    (if processed != [] then [AddedLine(processed, addedMark)] else []) +
    (if failed != [] then [failedMark + " Failed to process videos: " + Join(", ", failed)] else [])
  }

  // ---------------------------------------------------------------------------
  // What a registration pass guarantees
  // ---------------------------------------------------------------------------

  /**
   * `r` extends `g`: old entries are untouched, every new key is fresh, distinct
   * and appended to the order, and there is one processed entry per new key.
   */
  predicate Grows(g: Registry, r: Registry)
  {
    IsPrefix(g.order, r.order) && IsPrefix(g.processed, r.processed) && IsPrefix(g.failed, r.failed) &&
    |r.order| - |g.order| == |r.processed| - |g.processed| &&
    (forall k :: k in g.videos ==> k in r.videos && r.videos[k] == g.videos[k]) &&
    (forall i :: |g.order| <= i < |r.order| ==> r.order[i] in r.videos && r.order[i] !in g.videos) &&
    (forall i, j :: |g.order| <= i < j < |r.order| ==> r.order[i] != r.order[j]) &&
    (forall k :: k in r.videos && k !in g.videos ==> k in r.order[|g.order|..])
  }

  /** Every video `r` adds over `g` is an upload whose name was not known and whose format is supported. */
  predicate AddsUploads(g: Registry, r: Registry, existingNames: seq<string>)
    requires |g.order| <= |r.order|
    requires forall i :: |g.order| <= i < |r.order| ==> r.order[i] in r.videos
  {
    forall i :: |g.order| <= i < |r.order| ==>
      var v := r.videos[r.order[i]];
      v.kind == Local && v.fileName !in existingNames && Supported(v.fileName) &&
      v.filePath.Some? && BaseName(v.filePath.value) == v.fileName
  }

  lemma GrowsRefl(g: Registry)
    ensures Grows(g, g)
  {
  }

  lemma GrowsTrans(a: Registry, b: Registry, c: Registry)
    requires Grows(a, b) && Grows(b, c)
    ensures Grows(a, c)
  {
    assert c.order[..|b.order|] == b.order;
    forall i, j | |a.order| <= i < j < |c.order| ensures c.order[i] != c.order[j] {
      if j >= |b.order| && i < |b.order| {
        assert c.order[i] == b.order[i] && b.order[i] in b.videos;
      }
      if j < |b.order| {
        assert c.order[i] == b.order[i] && c.order[j] == b.order[j];
      }
    }
    forall i | |a.order| <= i < |c.order| ensures c.order[i] in c.videos && c.order[i] !in a.videos {
      if i < |b.order| {
        assert c.order[i] == b.order[i];
      }
    }
    forall k | k in c.videos && k !in a.videos ensures k in c.order[|a.order|..] {
      if k in b.videos {
        var m :| m in b.order[|a.order|..] && m == k;
        assert b.order[|a.order|..] == c.order[|a.order|..|b.order|];
      } else {
        assert c.order[|b.order|..] == c.order[|a.order|..][|b.order| - |a.order|..];
      }
    }
  }

  /** Storing under a fresh key grows the registry by exactly that key. */
  lemma StoreGrows(g: Registry, id: string, v: VideoRecord, entry: string)
    requires id !in g.videos
    ensures Grows(g, Store(g, id, v, entry))
  {
    var r := Store(g, id, v, entry);
    assert r.order[|g.order|..] == [id];
  }

  /** Recording a failure grows the registry by nothing else. */
  lemma FailureGrows(g: Registry, message: string)
    ensures Grows(g, g.(failed := g.failed + [message]))
  {
    assert (g.failed + [message])[..|g.failed|] == g.failed;
  }

  lemma NextVideoIdFresh(g: Registry)
    ensures NextVideoId(g) !in g.videos
  {
    var keys := g.videos.Keys;
    if Key("video_", |g.videos|) in keys {
      assert Key("video_", FirstFree("video_", keys, |g.videos| + |g.processed| + 1)) !in keys;
    }
  }

  /** One pass of the file loop grows the registry, and only by an accepted upload. */
  lemma FileStepGrows(g: Registry, file: Option<string>, existingNames: seq<string>)
    ensures Grows(g, FileStep(g, file, existingNames))
    ensures AddsUploads(g, FileStep(g, file, existingNames), existingNames)
  {
    var r := FileStep(g, file, existingNames);
    if file.Some? && BaseName(file.value) !in existingNames && Supported(BaseName(file.value)) {
      NextVideoIdFresh(g);
      StoreGrows(g, NextVideoId(g), LocalRecord(file.value), BaseName(file.value));
      assert r.order[|g.order|] == NextVideoId(g);
    }
  }

  lemma AddsUploadsTrans(a: Registry, b: Registry, c: Registry, existingNames: seq<string>)
    requires Grows(a, b) && Grows(b, c)
    requires AddsUploads(a, b, existingNames) && AddsUploads(b, c, existingNames)
    ensures Grows(a, c) && AddsUploads(a, c, existingNames)
  {
    GrowsTrans(a, b, c);
    forall i | |a.order| <= i < |b.order|
      ensures c.videos[c.order[i]] == b.videos[b.order[i]]
    {
      assert c.order[i] == b.order[i];
    }
  }

  /**
   * The file loop keeps old entries, adds each new video under a fresh key at
   * the end of the order with one processed entry per key, and every video it
   * adds is an upload of a new name in a supported format.
   */
  lemma {:induction false} FilesFoldGrows(g: Registry, files: seq<Option<string>>, existingNames: seq<string>)
    ensures Grows(g, FilesFold(g, files, existingNames))
    ensures AddsUploads(g, FilesFold(g, files, existingNames), existingNames)
    decreases |files|
  {
    if files == [] {
      GrowsRefl(g);
    } else {
      var mid := FilesFold(g, files[..|files| - 1], existingNames);
      FilesFoldGrows(g, files[..|files| - 1], existingNames);
      FileStepGrows(mid, files[|files| - 1], existingNames);
      AddsUploadsTrans(g, mid, FileStep(mid, files[|files| - 1], existingNames), existingNames);
    }
  }

  /** A file whose name is already known, or a `None` entry, changes nothing. */
  lemma {:induction false} KnownFilesSkipped(g: Registry, files: seq<Option<string>>, existingNames: seq<string>)
    requires forall k :: 0 <= k < |files| ==> files[k].None? || BaseName(files[k].value) in existingNames
    ensures FilesFold(g, files, existingNames) == g
    decreases |files|
  {
    if files != [] {
      KnownFilesSkipped(g, files[..|files| - 1], existingNames);
    }
  }

  /**
   * An unsupported upload is reported as `"{name} (unsupported format)"` and
   * stores nothing.
   */
  lemma UnsupportedRejected(g: Registry, path: string, existingNames: seq<string>)
    requires BaseName(path) !in existingNames && !Supported(BaseName(path))
    ensures FileStep(g, Some(path), existingNames) == g.(failed := g.failed + [BaseName(path) + UnsupportedNote])
  {
  }

  /** A two-file list is two steps of the loop. */
  lemma FilesFoldTwo(g: Registry, f1: Option<string>, f2: Option<string>, existingNames: seq<string>)
    ensures FilesFold(g, [f1, f2], existingNames) == FileStep(FileStep(g, f1, existingNames), f2, existingNames)
  {
    var files := [f1, f2];
    assert files[..1] == [f1] && files[..1][..0] == [];
    assert FilesFold(g, files[..1], existingNames) == FileStep(g, f1, existingNames);
  }

  /** Two stores in a row, each under the next free key, append two distinct keys and two entries. */
  lemma StoreTwice(g: Registry, r1: VideoRecord, r2: VideoRecord, entry: string)
    ensures var g1 := Store(g, NextVideoId(g), r1, entry);
      var g2 := Store(g1, NextVideoId(g1), r2, entry);
      |g2.order| == |g.order| + 2 && g2.processed == g.processed + [entry, entry] &&
      g2.order[|g.order|] != g2.order[|g.order| + 1]
  {
    var g1 := Store(g, NextVideoId(g), r1, entry);
    NextVideoIdFresh(g1);
    assert NextVideoId(g) in g1.videos;
  }

  /**
   * The snapshot is not refreshed inside the loop: two new files with the same
   * name are both stored, under two different keys.
   */
  lemma SameNameTwice(g: Registry, path1: string, path2: string, existingNames: seq<string>)
    requires BaseName(path1) == BaseName(path2) && BaseName(path1) !in existingNames && Supported(BaseName(path1))
    ensures var r := FilesFold(g, [Some(path1), Some(path2)], existingNames);
      |r.order| == |g.order| + 2 && r.processed == g.processed + [BaseName(path1), BaseName(path1)] &&
      r.order[|g.order|] != r.order[|g.order| + 1]
  {
    var name := BaseName(path1);
    var r1 := Store(g, NextVideoId(g), LocalRecord(path1), name);
    FilesFoldTwo(g, Some(path1), Some(path2), existingNames);
    assert FileStep(g, Some(path1), existingNames) == r1;
    StoreTwice(g, LocalRecord(path1), LocalRecord(path2), name);
  }

  /** The YouTube branch grows the registry. */
  lemma YouTubeStepGrows(g: Registry, url: Option<string>, existingIds: seq<Option<string>>, extract: string -> Option<string>)
    ensures Grows(g, YouTubeStep(g, url, existingIds, extract))
  {
    if url.None? || Strip(url.value) == [] {
      GrowsRefl(g);
    } else {
      var u := Strip(url.value);
      var yt := extract(u);
      if yt.None? || yt.value == [] {
        FailureGrows(g, InvalidYouTubeUrl);
      } else if yt in existingIds {
        GrowsRefl(g);
      } else {
        NextVideoIdFresh(g);
        StoreGrows(g, NextVideoId(g), YouTubeRecord(u, yt.value), YouTubeLabelLead + yt.value);
      }
    }
  }

  /** What the YouTube branch adds is at most one YouTube video, with an id not seen before. */
  lemma YouTubeStepAdds(g: Registry, url: Option<string>, existingIds: seq<Option<string>>, extract: string -> Option<string>)
    ensures var r := YouTubeStep(g, url, existingIds, extract);
      |g.order| <= |r.order| <= |g.order| + 1 &&
      forall i :: |g.order| <= i < |r.order| ==>
        r.order[i] in r.videos &&
        var v := r.videos[r.order[i]];
        v.kind == YouTube && v.youtubeId.Some? && v.youtubeId !in existingIds && v.youtubeId.value != [] &&
        v.fileName == YouTubeNameLead + v.youtubeId.value + ")"
  {
    var r := YouTubeStep(g, url, existingIds, extract);
    if url.Some? && Strip(url.value) != [] {
      var u := Strip(url.value);
      var yt := extract(u);
      if yt.Some? && yt.value != [] && yt !in existingIds {
        assert r.order == g.order + [NextVideoId(g)];
        assert r.videos[NextVideoId(g)] == YouTubeRecord(u, yt.value);
      }
    }
  }

  /** A link whose id is already stored is skipped without a failure; a link without an id is a failure. */
  lemma YouTubeOutcomes(g: Registry, url: string, existingIds: seq<Option<string>>, extract: string -> Option<string>)
    requires Strip(url) != []
    ensures var yt := extract(Strip(url));
      yt.Some? && yt.value != [] && yt in existingIds ==> YouTubeStep(g, Some(url), existingIds, extract) == g
    ensures var yt := extract(Strip(url));
      yt.None? || yt.value == [] ==> YouTubeStep(g, Some(url), existingIds, extract) == g.(failed := g.failed + [InvalidYouTubeUrl])
  {
  }

  /** A growing registration keeps the order and the dictionary in step. */
  lemma GrowsConsistent(g: Registry, r: Registry)
    requires Grows(g, r) && VideosConsistent(g.videos, g.order)
    ensures VideosConsistent(r.videos, r.order)
  {
    forall i, j | 0 <= i < j < |r.order| ensures r.order[i] != r.order[j] {
      if j < |g.order| {
        assert r.order[i] == g.order[i] && r.order[j] == g.order[j];
      } else if i < |g.order| {
        assert r.order[i] == g.order[i];
      }
    }
    forall v | v in r.order ensures v in r.videos {
      var i :| 0 <= i < |r.order| && r.order[i] == v;
      if i < |g.order| {
        assert g.order[i] == v;
      }
    }
    forall v | v in r.videos ensures v in r.order {
      if v in g.videos {
        var i :| 0 <= i < |g.order| && g.order[i] == v;
        assert r.order[i] == v;
      } else {
        var m :| m in r.order[|g.order|..] && m == v;
      }
    }
  }

  /** The whole pass: the registry grows by uploads, then by at most one YouTube video. */
  lemma RegisteredGrows(videos: map<string, VideoRecord>, order: seq<string>, files: FilesArg, url: Option<string>,
                        extract: string -> Option<string>)
    requires forall v :: v in order ==> v in videos
    ensures var r := Registered(videos, order, files, url, extract);
      Grows(Registry(videos, order, [], []), r) && |r.order| == |order| + |r.processed|
  {
    var g := Registry(videos, order, [], []);
    var names := ExistingNames(videos, order);
    var afterFiles := FilesFold(g, FileItems(files), names);
    FilesFoldGrows(g, FileItems(files), names);
    YouTubeStepGrows(afterFiles, url, ExistingYouTubeIds(videos, order), extract);
    GrowsTrans(g, afterFiles, Registered(videos, order, files, url, extract));
  }

  /** Registration keeps the order and the dictionary of videos in step. */
  lemma RegisteredConsistent(videos: map<string, VideoRecord>, order: seq<string>, files: FilesArg, url: Option<string>,
                             extract: string -> Option<string>)
    requires forall v :: v in order ==> v in videos
    ensures var r := Registered(videos, order, files, url, extract);
      VideosConsistent(videos, order) ==> VideosConsistent(r.videos, r.order)
  {
    RegisteredGrows(videos, order, files, url, extract);
    if VideosConsistent(videos, order) {
      GrowsConsistent(Registry(videos, order, [], []), Registered(videos, order, files, url, extract));
    }
  }

  // ---------------------------------------------------------------------------
  // The loops, in place on the application state
  // ---------------------------------------------------------------------------

  /** `existing_video_names = [videos[v]["file_name"] for v in video_order]`. */
  method SnapshotNames(videos: map<string, VideoRecord>, order: seq<string>) returns (names: seq<string>)
    requires forall v :: v in order ==> v in videos
    ensures |names| == |order|
    ensures forall k :: 0 <= k < |order| ==> names[k] == videos[order[k]].fileName
    ensures names == ExistingNames(videos, order)
  {
    names := [];
    var i := 0;
    while i < |order|
      invariant 0 <= i <= |order| && |names| == i
      invariant forall k :: 0 <= k < i ==> names[k] == videos[order[k]].fileName
    {
      names := names + [videos[order[i]].fileName];
      i := i + 1;
    }
  }

  /** One file of the loop, stored in place when accepted. */
  method RegisterFile(st: AppState, file: Option<string>, existingNames: seq<string>, processed: seq<string>, failed: seq<string>)
    returns (processedOut: seq<string>, failedOut: seq<string>)
    modifies st`videos, st`videoOrder
    ensures Registry(st.videos, st.videoOrder, processedOut, failedOut) ==
      FileStep(Registry(old(st.videos), old(st.videoOrder), processed, failed), file, existingNames)
  {
    processedOut, failedOut := processed, failed;
    if file.None? {
      return;
    }
    var path := file.value;
    var name := BaseName(path);
    if name in existingNames {
      return;
    }
    if Lower(Suffix(name)) !in SupportedFormats {
      failedOut := failedOut + [name + UnsupportedNote];
      return;
    }
    processedOut := StoreVideo(st, LocalRecord(path), name, processed, failed);
  }

  /** The file loop of `process_video_upload`. */
  method RegisterFiles(st: AppState, files: seq<Option<string>>, existingNames: seq<string>)
    returns (processed: seq<string>, failed: seq<string>)
    modifies st`videos, st`videoOrder
    ensures Registry(st.videos, st.videoOrder, processed, failed) ==
      FilesFold(Registry(old(st.videos), old(st.videoOrder), [], []), files, existingNames)
  {
    processed, failed := [], [];
    var i := 0;
    while i < |files|
      invariant 0 <= i <= |files|
      invariant Registry(st.videos, st.videoOrder, processed, failed) ==
        FilesFold(Registry(old(st.videos), old(st.videoOrder), [], []), files[..i], existingNames)
    {
      assert files[..i + 1][..i] == files[..i];
      processed, failed := RegisterFile(st, files[i], existingNames, processed, failed);
      i := i + 1;
    }
    assert files[..i] == files;
  }

  /** The YouTube branch, stored in place when accepted. */
  method RegisterYouTube(st: AppState, url: Option<string>, existingIds: seq<Option<string>>, extract: string -> Option<string>,
                         processed: seq<string>, failed: seq<string>)
    returns (processedOut: seq<string>, failedOut: seq<string>)
    modifies st`videos, st`videoOrder
    ensures Registry(st.videos, st.videoOrder, processedOut, failedOut) ==
      YouTubeStep(Registry(old(st.videos), old(st.videoOrder), processed, failed), url, existingIds, extract)
  {
    processedOut, failedOut := processed, failed;
    if url.None? || Strip(url.value) == [] {
      return;
    }
    var u := Strip(url.value);
    var yt := extract(u);
    if yt.None? || yt.value == [] {
      failedOut := failedOut + [InvalidYouTubeUrl];
      return;
    }
    if yt in existingIds {
      return;
    }
    processedOut := StoreVideo(st, YouTubeRecord(u, yt.value), YouTubeLabelLead + yt.value, processed, failed);
  }

  /** Allocating a key and storing a video under it, in place. */
  method StoreVideo(st: AppState, r: VideoRecord, entry: string, processed: seq<string>, failed: seq<string>)
    returns (processedOut: seq<string>)
    modifies st`videos, st`videoOrder
    ensures var g := Registry(old(st.videos), old(st.videoOrder), processed, failed);
      Registry(st.videos, st.videoOrder, processedOut, failed) == Store(g, NextVideoId(g), r, entry)
  {
    var id := AllocateKey("video_", st.videos.Keys, |st.videos|, |st.videos| + |processed| + 1);
    st.videos := st.videos[id := r];
    st.videoOrder := st.videoOrder + [id];
    processedOut := processed + [entry];
  }

  /** `existing_youtube_ids`, as the loop over the order computes it. */
  method SnapshotYouTubeIds(videos: map<string, VideoRecord>, order: seq<string>) returns (ids: seq<Option<string>>)
    requires forall v :: v in order ==> v in videos
    ensures ids == ExistingYouTubeIds(videos, order)
  {
    ids := [];
    var i := 0;
    while i < |order|
      invariant 0 <= i <= |order|
      invariant ids == ExistingYouTubeIds(videos, order[..i])
    {
      assert order[..i + 1][..i] == order[..i];
      if videos[order[i]].kind == YouTube {
        ids := ids + [videos[order[i]].youtubeId];
      }
      i := i + 1;
    }
    assert order[..i] == order;
  }

  /**
   * The registration part of `process_video_upload`: snapshot, files, link.
   * It preserves the consistency of the video registry.
   */
  method RegisterVideos(st: AppState, files: FilesArg, url: Option<string>, extract: string -> Option<string>)
    returns (processed: seq<string>, failed: seq<string>)
    requires forall v :: v in st.videoOrder ==> v in st.videos
    modifies st`videos, st`videoOrder
    ensures Registry(st.videos, st.videoOrder, processed, failed) ==
      Registered(old(st.videos), old(st.videoOrder), files, url, extract)
    ensures old(st.VideosValid()) ==> st.VideosValid()
  {
    ghost var g := Registry(st.videos, st.videoOrder, [], []);
    ghost var r := Registered(st.videos, st.videoOrder, files, url, extract);
    var names := SnapshotNames(st.videos, st.videoOrder);
    var ytIds := SnapshotYouTubeIds(st.videos, st.videoOrder);
    assert r == YouTubeStep(FilesFold(g, FileItems(files), names), url, ytIds, extract);
    RegisteredConsistent(g.videos, g.order, files, url, extract);
    processed, failed := RegisterFiles(st, FileItems(files), names);
    processed, failed := RegisterYouTube(st, url, ytIds, extract, processed, failed);
  }
}