/**
 * The pure helpers of the video description service: the `HH:MM:SS`
 * conversions, the merging of part responses into one description, the
 * per-video field override, and the selection of tasks and the merge of results of the
 * two batch generators. The Gemini call itself is a function parameter
 * (`describe`): it maps a stored video to the parsed JSON list, or `None`
 * when the call or the parse failed.
 */
module Descriptions {
  import opened Common
  import opened Strings
  import opened Decimal
  import opened Records

  // ---------------------------------------------------------------------------
  // HH:MM:SS
  // ---------------------------------------------------------------------------

  /** `format_time_seconds_to_hms`: hours, minutes and seconds, each padded to two digits. */
  function FormatTimeSecondsToHms(seconds: nat): string
  {
    Pad2(seconds / 3600) + ":" + Pad2(seconds % 3600 / 60) + ":" + Pad2(seconds % 60)
  }

  /** Python `map(int, parts)`: every part read as a number, or an error at the first that is not one. */
  function ParseAll(parts: seq<string>): (r: Option<seq<nat>>)
    ensures r.Some? ==> |r.value| == |parts| && forall k :: 0 <= k < |parts| ==> ParseNat(parts[k]) == Some(r.value[k])
    ensures r.None? ==> exists k :: 0 <= k < |parts| && ParseNat(parts[k]).None?
  {
    if parts == [] then Some([])
    else
      var head, tail := ParseNat(parts[0]), ParseAll(parts[1..]);
      if head.Some? && tail.Some? then Some([head.value] + tail.value) else None
  }

  /**
   * `convert_hms_to_seconds`: three fields are hours, minutes and seconds, two
   * are minutes and seconds, and otherwise only the first field is read.
   * `None` is the `ValueError` raised by `int` on a field that is not a number.
   */
  function ConvertHmsToSeconds(hms: string): (r: Option<nat>)
  {
    var parts := Split(hms, ':');
    if |parts| == 3 then
      match ParseAll(parts)
      case Some(v) => Some(v[0] * 3600 + v[1] * 60 + v[2])
      case None => None
    else if |parts| == 2 then
      match ParseAll(parts)
      case Some(v) => Some(v[0] * 60 + v[1])
      case None => None
    else ParseNat(parts[0])
  }

  /** The remainder modulo 60 of a number written as `q * 60 + t` with `t < 60` is `t`. */
  lemma ModSixty(s: int, q: int, t: int)
    requires 0 <= t < 60 && s == q * 60 + t
    ensures s % 60 == t
  {
  }

  /** A duration splits into whole hours, whole minutes and seconds. */
  lemma ClockParts(s: nat)
    ensures (s / 3600) * 3600 + (s % 3600 / 60) * 60 + s % 60 == s
  {
    var q, r := s / 3600, s % 3600;
    var m, t := r / 60, r % 60;
    assert s == q * 3600 + r;
    assert r == m * 60 + t;
    ModSixty(s, q * 60 + m, t);
  }

  /** Three digit fields joined by ':' split back into the same three fields. */
  lemma FieldsSplit(a: string, b: string, c: string)
    requires AllDigits(a) && AllDigits(b) && AllDigits(c)
    ensures Split(a + ":" + b + ":" + c, ':') == [a, b, c]
  {
    var parts := [a, b, c];
    assert ':' !in a && ':' !in b && ':' !in c;
    assert Join([':'], parts[2..]) == c;
    assert Join([':'], parts[1..]) == b + ":" + c;
    assert Join([':'], parts) == a + ":" + b + ":" + c;
    SplitJoin(parts, ':');
  }

  /** Formatting a duration and reading it back gives the duration. */
  lemma HmsRoundTrip(seconds: nat)
    ensures ConvertHmsToSeconds(FormatTimeSecondsToHms(seconds)) == Some(seconds)
  {
    var h, m, s := seconds / 3600, seconds % 3600 / 60, seconds % 60;
    FieldsRoundTrip(h, m, s);
    assert FormatTimeSecondsToHms(seconds) == Pad2(h) + ":" + Pad2(m) + ":" + Pad2(s);
    ClockParts(seconds);
  }

  /** Three padded fields joined by ':' convert to hours, minutes and seconds. */
  lemma FieldsRoundTrip(h: nat, m: nat, s: nat)
    ensures ConvertHmsToSeconds(Pad2(h) + ":" + Pad2(m) + ":" + Pad2(s)) == Some(h * 3600 + m * 60 + s)
  {
    Pad2RoundTrip(h);
    Pad2RoundTrip(m);
    Pad2RoundTrip(s);
    FieldsSplit(Pad2(h), Pad2(m), Pad2(s));
    ParseThree([Pad2(h), Pad2(m), Pad2(s)], h, m, s);
    ConvertThree(Pad2(h) + ":" + Pad2(m) + ":" + Pad2(s), h, m, s);
  }

  /** Text that splits into three numbers converts to hours, minutes and seconds. */
  lemma ConvertThree(hms: string, h: nat, m: nat, s: nat)
    requires |Split(hms, ':')| == 3
    requires ParseAll(Split(hms, ':')).Some? && ParseAll(Split(hms, ':')).value == [h, m, s]
    ensures ConvertHmsToSeconds(hms) == Some(h * 3600 + m * 60 + s)
  {
  }

  lemma ParseThree(parts: seq<string>, a: nat, b: nat, c: nat)
    requires |parts| == 3 && ParseNat(parts[0]) == Some(a) && ParseNat(parts[1]) == Some(b) && ParseNat(parts[2]) == Some(c)
    ensures ParseAll(parts).Some? && ParseAll(parts).value == [a, b, c]
  {
    var p1, p2 := parts[1..], parts[2..];
    assert p2[1..] == [];
    assert ParseAll(p2).value == [c];
    assert p1[1..] == p2;
    assert ParseAll(p1).value == [b, c];
  }

  lemma ParseTwo(parts: seq<string>, a: nat, b: nat)
    requires |parts| == 2 && ParseNat(parts[0]) == Some(a) && ParseNat(parts[1]) == Some(b)
    ensures ParseAll(parts).Some? && ParseAll(parts).value == [a, b]
  {
    var p1 := parts[1..];
    assert p1[1..] == [];
    assert ParseAll(p1).value == [b];
  }

  /** Numbers below 100 are padded to exactly two digits. */
  lemma Pad2Width(n: nat)
    requires n < 100
    ensures |Pad2(n)| == 2
  {
    if n >= 10 {
      assert NatToString(n) == NatToString(n / 10) + [DigitChar(n % 10)];
    }
  }

  /** The fields of a formatted duration: minutes and seconds stay below 60. */
  lemma FormatFields(seconds: nat)
    ensures var parts := Split(FormatTimeSecondsToHms(seconds), ':');
      |parts| == 3 && |parts[1]| == 2 && |parts[2]| == 2 &&
      ParseNat(parts[1]).Some? && ParseNat(parts[1]).value < 60 &&
      ParseNat(parts[2]).Some? && ParseNat(parts[2]).value < 60
  {
    var h, m, s := seconds / 3600, seconds % 3600 / 60, seconds % 60;
    Pad2RoundTrip(h);
    Pad2RoundTrip(m);
    Pad2RoundTrip(s);
    assert seconds % 3600 < 3600;
    assert m < 60 && s < 60;
    Pad2Width(m);
    Pad2Width(s);
    FieldsSplit(Pad2(h), Pad2(m), Pad2(s));
  }

  /** A `MM:SS` string is read as minutes and seconds. */
  lemma ConvertMinutes(m: nat, s: nat)
    ensures ConvertHmsToSeconds(NatToString(m) + ":" + NatToString(s)) == Some(m * 60 + s)
  {
    NatToStringRoundTrip(m);
    NatToStringRoundTrip(s);
    var a, b := NatToString(m), NatToString(s);
    var parts := [a, b];
    assert ':' !in a && ':' !in b;
    assert Join([':'], parts[1..]) == b;
    assert Join([':'], parts) == a + ":" + b;
    SplitJoin(parts, ':');
    ParseTwo(parts, m, s);
  }

  /** A bare number is read as seconds. */
  lemma ConvertSeconds(s: nat)
    ensures ConvertHmsToSeconds(NatToString(s)) == Some(s)
  {
    NatToStringRoundTrip(s);
    var a := NatToString(s);
    assert ':' !in a;
    assert Join([':'], [a]) == a;
    SplitJoin([a], ':');
  }

  // ---------------------------------------------------------------------------
  // Combining the responses of several parts of one video
  // ---------------------------------------------------------------------------

  /** The content lists of the non-empty parts, in order (each part contributes its first video's content). */
  function LaterContent(parts: seq<seq<VideoDescription>>): seq<string>
  {
    if parts == [] then []
    else
      var last := parts[|parts| - 1];
      LaterContent(parts[..|parts| - 1]) + (if last != [] then last[0].videoContent else [])
  }

  /**
   * What `combine_video_parts` returns: `[]` for no parts; otherwise the first
   * part with the later parts' content appended to its first video. `None` is
   * the `IndexError` raised when the first part is empty but a later one is not.
   */
  function Combined(parts: seq<seq<VideoDescription>>): Option<seq<VideoDescription>>
  {
    if parts == [] then Some([])
    else if parts[0] == [] then
      if LaterContent(parts[1..]) == [] && forall k :: 1 <= k < |parts| ==> parts[k] == [] then Some([]) else None
    else
      var first := parts[0][0];
      Some([first.(videoContent := first.videoContent + LaterContent(parts[1..]))] + parts[0][1..])
  }

  lemma LaterContentSnoc(parts: seq<seq<VideoDescription>>, i: nat)
    requires 1 <= i < |parts|
    ensures LaterContent(parts[1..i + 1]) ==
      LaterContent(parts[1..i]) + (if parts[i] != [] then parts[i][0].videoContent else [])
  {
    assert parts[1..i + 1][..i - 1] == parts[1..i];
  }

  /** The loop state of `combine_video_parts` after the parts before `i` were merged. */
  ghost predicate MergedUpTo(parts: seq<seq<VideoDescription>>, i: nat, combined: seq<VideoDescription>)
    requires 1 <= i <= |parts|
  {
    if parts[0] == [] then
      combined == [] && LaterContent(parts[1..i]) == [] && forall k :: 1 <= k < i ==> parts[k] == []
    else
      combined == [parts[0][0].(videoContent := parts[0][0].videoContent + LaterContent(parts[1..i]))] + parts[0][1..]
  }

  /** One step of the loop keeps `MergedUpTo`. */
  lemma MergedUpToStep(parts: seq<seq<VideoDescription>>, i: nat, combined: seq<VideoDescription>)
    requires 1 <= i < |parts| && MergedUpTo(parts, i, combined)
    requires parts[i] != [] ==> combined != []
    ensures combined == [] <==> parts[0] == []
    ensures MergedUpTo(parts, i + 1,
      if parts[i] != [] then combined[0 := combined[0].(videoContent := combined[0].videoContent + parts[i][0].videoContent)]
      else combined)
  {
    LaterContentSnoc(parts, i);
    if parts[0] == [] {
      assert parts[i] == [];
      assert LaterContent(parts[1..i + 1]) == [];
      assert forall k :: 1 <= k < i + 1 ==> parts[k] == [];
    } else {
      var first := parts[0][0];
      if parts[i] != [] {
        var extended := combined[0 := combined[0].(videoContent := combined[0].videoContent + parts[i][0].videoContent)];
        assert first.videoContent + LaterContent(parts[1..i]) + parts[i][0].videoContent ==
          first.videoContent + LaterContent(parts[1..i + 1]);
        assert extended == [first.(videoContent := first.videoContent + LaterContent(parts[1..i + 1]))] + parts[0][1..];
      } else {
        assert LaterContent(parts[1..i + 1]) == LaterContent(parts[1..i]);
      }
    }
  }

  /** A non-empty later part after an empty first part is the `IndexError`. */
  lemma MergedUpToFails(parts: seq<seq<VideoDescription>>, i: nat, combined: seq<VideoDescription>)
    requires 1 <= i < |parts| && MergedUpTo(parts, i, combined)
    requires parts[i] != [] && combined == []
    ensures Combined(parts) == None
  {
  }

  /** After the last part the loop state is the combined result. */
  lemma MergedUpToDone(parts: seq<seq<VideoDescription>>, combined: seq<VideoDescription>)
    requires |parts| >= 1 && MergedUpTo(parts, |parts|, combined)
    ensures Combined(parts) == Some(combined)
  {
    assert parts[1..|parts|] == parts[1..];
  }

  /**
   * `combine_video_parts`, with the aliasing made visible: the result copies
   * only the outer list, so the first part's first video is the same
   * dictionary as the result's first video and receives the same extension.
   * `partsOut` is the argument as the caller sees it afterwards.
   */
  method CombineVideoParts(parts: seq<seq<VideoDescription>>) returns (r: Option<seq<VideoDescription>>, partsOut: seq<seq<VideoDescription>>)
    ensures r == Combined(parts)
    ensures r.Some? && parts != [] && parts[0] != [] ==> |r.value| == |parts[0]| && partsOut == parts[0 := parts[0][0 := r.value[0]]]
    ensures r.None? || parts == [] || parts[0] == [] ==> partsOut == parts
  {
    if parts == [] {
      return Some([]), parts;
    }
    var combined := parts[0];
    var i := 1;
    assert parts[1..i] == [];
    if parts[0] != [] {
      assert parts[0][0].(videoContent := parts[0][0].videoContent + []) == parts[0][0];
      assert combined == [parts[0][0]] + parts[0][1..];
    }
    assert MergedUpTo(parts, i, combined);
    while i < |parts|
      invariant 1 <= i <= |parts|
      invariant MergedUpTo(parts, i, combined)
    {
      if parts[i] != [] && combined == [] {
        MergedUpToFails(parts, i, combined);
        return None, parts;
      }
      MergedUpToStep(parts, i, combined);
      if parts[i] != [] {
        combined := combined[0 := combined[0].(videoContent := combined[0].videoContent + parts[i][0].videoContent)];
      }
      i := i + 1;
    }
    MergedUpToDone(parts, combined);
    r := Some(combined);
    assert combined == [] <==> parts[0] == [];
    partsOut := if combined == [] then parts else parts[0 := parts[0][0 := combined[0]]];
  }

  /** Contents of consecutive runs of parts concatenate. */
  lemma {:induction false} LaterContentAppend(a: seq<seq<VideoDescription>>, b: seq<seq<VideoDescription>>)
    ensures LaterContent(a + b) == LaterContent(a) + LaterContent(b)
    decreases |b|
  {
    if b == [] {
      assert a + b == a;
    } else {
      var b' := b[..|b| - 1];
      var last := b[|b| - 1];
      var tail := if last != [] then last[0].videoContent else [];
      assert (a + b)[..|a + b| - 1] == a + b';
      assert (a + b)[|a + b| - 1] == last;
      assert LaterContent(a + b) == LaterContent(a + b') + tail;
      assert LaterContent(b) == LaterContent(b') + tail;
      LaterContentAppend(a, b');
    }
  }

  /** A single part comes back unchanged; only the first video of the first part ever changes. */
  lemma CombinedKeeps(parts: seq<seq<VideoDescription>>)
    requires parts != [] && parts[0] != []
    ensures Combined(parts).Some?
    ensures var c := Combined(parts).value;
      |c| == |parts[0]| && c[1..] == parts[0][1..] &&
      c[0].videoName == parts[0][0].videoName && c[0].videoId == parts[0][0].videoId &&
      c[0].infoAvailable == parts[0][0].infoAvailable &&
      IsPrefix(parts[0][0].videoContent, c[0].videoContent)
    ensures |parts| == 1 ==> Combined(parts) == Some(parts[0])
  {
    if |parts| == 1 {
      assert parts[1..] == [];
      assert parts[0][0].(videoContent := parts[0][0].videoContent + []) == parts[0][0];
      assert parts[0] == [parts[0][0]] + parts[0][1..];
    }
  }

  // ---------------------------------------------------------------------------
  // One video, and the batch generators
  // ---------------------------------------------------------------------------

  /**
   * `process_single_video`: a non-empty response has its first video's name,
   * id and availability flag overwritten; a failed call gives `None`.
   */
  function ProcessSingleVideo(index: nat, name: string, response: Option<seq<VideoDescription>>): (r: Option<seq<VideoDescription>>)
    ensures r.None? <==> response.None?
    ensures r.Some? ==> |r.value| == |response.value|
    ensures r.Some? && r.value != [] ==> r.value[1..] == response.value[1..]
    ensures r.Some? && r.value != [] ==>
      r.value[0].videoName == Some(name) && r.value[0].videoId == Some(index) &&
      r.value[0].infoAvailable == Some(1) && r.value[0].videoContent == response.value[0].videoContent
  {
    match response
    case None => None
    case Some(l) =>
      if l == [] then Some(l)
      else Some([l[0].(videoName := Some(name), videoId := Some(index), infoAvailable := Some(1))] + l[1..])
  }

  /** One call of `process_single_video`: the enumerate index, the key, the name and the stored record. */
  datatype Task = Task(index: nat, videoId: string, name: string, record: VideoRecord)

  /** The tasks created for the ordered ids that are stored and not in `existing`. */
  function NewTasks(videos: map<string, VideoRecord>, order: seq<string>, existing: set<string>): seq<Task>
  {
    if order == [] then []
    else
      var i := |order| - 1;
      var id := order[i];
      NewTasks(videos, order[..i], existing) +
        (if id in videos && id !in existing then [Task(i, id, videos[id].fileName, videos[id])] else [])
  }

  lemma NewTasksSnoc(videos: map<string, VideoRecord>, order: seq<string>, existing: set<string>, i: nat)
    requires i < |order|
    ensures NewTasks(videos, order[..i + 1], existing) == NewTasks(videos, order[..i], existing) +
      (if order[i] in videos && order[i] !in existing then [Task(i, order[i], videos[order[i]].fileName, videos[order[i]])] else [])
  {
    assert order[..i + 1][..i] == order[..i];
  }

  /** Each task names a stored, not yet described video at its position in the order. */
  lemma {:induction false} NewTasksSound(videos: map<string, VideoRecord>, order: seq<string>, existing: set<string>)
    ensures forall t :: t in NewTasks(videos, order, existing) ==>
      t.index < |order| && order[t.index] == t.videoId && t.videoId in videos && t.videoId !in existing &&
      t.record == videos[t.videoId] && t.name == t.record.fileName
    decreases |order|
  {
    if order != [] {
      var n := |order| - 1;
      NewTasksSound(videos, order[..n], existing);
      assert forall t :: t in NewTasks(videos, order[..n], existing) ==> order[..n][t.index] == order[t.index];
    }
  }

  /** Every stored, not yet described video in the order gets a task. */
  lemma {:induction false} NewTasksComplete(videos: map<string, VideoRecord>, order: seq<string>, existing: set<string>, i: nat)
    requires i < |order| && order[i] in videos && order[i] !in existing
    ensures exists t :: t in NewTasks(videos, order, existing) && t.index == i
    decreases |order|
  {
    var n := |order| - 1;
    var ts := NewTasks(videos, order, existing);
    if i < n {
      assert order[..n][i] == order[i];
      NewTasksComplete(videos, order[..n], existing, i);
      var t :| t in NewTasks(videos, order[..n], existing) && t.index == i;
      assert t in ts;
    } else {
      assert ts[|ts| - 1].index == i;
    }
  }

  predicate IndicesIncrease(ts: seq<Task>)
  {
    forall a, b :: 0 <= a < b < |ts| ==> ts[a].index < ts[b].index
  }

  /** Tasks follow the order: their indices strictly increase. */
  lemma {:induction false} NewTasksOrdered(videos: map<string, VideoRecord>, order: seq<string>, existing: set<string>)
    ensures IndicesIncrease(NewTasks(videos, order, existing))
    decreases |order|
  {
    if order != [] {
      var n := |order| - 1;
      NewTasksOrdered(videos, order[..n], existing);
      NewTasksSound(videos, order[..n], existing);
      var prev := NewTasks(videos, order[..n], existing);
      var ts := NewTasks(videos, order, existing);
      forall a, b | 0 <= a < b < |ts| ensures ts[a].index < ts[b].index {
        assert ts[a] == prev[a] && prev[a] in prev;
        if b < |prev| {
          assert ts[b] == prev[b];
          assert prev[a].index < prev[b].index;
        } else {
          assert ts[b].index == n;
        }
      }
    }
  }

  /** The loop of the generators that builds the list of tasks. */
  method CreateTasks(videos: map<string, VideoRecord>, order: seq<string>, existing: set<string>) returns (tasks: seq<Task>)
    ensures tasks == NewTasks(videos, order, existing)
  {
    tasks := [];
    var i := 0;
    while i < |order|
      invariant 0 <= i <= |order|
      invariant tasks == NewTasks(videos, order[..i], existing)
    {
      NewTasksSnoc(videos, order, existing, i);
      var id := order[i];
      if id in videos && id !in existing {
        tasks := tasks + [Task(i, id, videos[id].fileName, videos[id])];
      }
      i := i + 1;
    }
    assert order[..i] == order;
  }

  /** The merge of the gathered results: failures and empty lists dropped, the rest concatenated in task order. */
  function Merged(results: seq<Option<seq<VideoDescription>>>): seq<VideoDescription>
  {
    if results == [] then []
    else
      var last := results[|results| - 1];
      Merged(results[..|results| - 1]) + (if last.Some? && last.value != [] then last.value else [])
  }

  lemma {:induction false} MergedAppend(a: seq<Option<seq<VideoDescription>>>, b: seq<Option<seq<VideoDescription>>>)
    ensures Merged(a + b) == Merged(a) + Merged(b)
    decreases |b|
  {
    if b == [] {
      assert a + b == a;
    } else {
      var b' := b[..|b| - 1];
      assert (a + b)[..|a + b| - 1] == a + b';
      MergedAppend(a, b');
    }
  }

  /** With every task failed or empty the merge is empty; a lone result is kept as it is. */
  lemma {:induction false} MergedFailures(results: seq<Option<seq<VideoDescription>>>)
    ensures (forall k :: 0 <= k < |results| ==> results[k].None? || results[k].value == []) ==> Merged(results) == []
    ensures |results| == 1 && results[0].Some? ==> Merged(results) == results[0].value
    decreases |results|
  {
    if results != [] {
      MergedFailures(results[..|results| - 1]);
    }
  }

  /** The merge loop. */
  method MergeResults(results: seq<Option<seq<VideoDescription>>>) returns (combined: seq<VideoDescription>)
    ensures combined == Merged(results)
  {
    combined := [];
    var i := 0;
    while i < |results|
      invariant 0 <= i <= |results|
      invariant combined == Merged(results[..i])
    {
      assert results[..i + 1][..i] == results[..i];
      var result := results[i];
      if result.Some? && result.value != [] {
        combined := combined + result.value;
      }
      i := i + 1;
    }
    assert results[..i] == results;
  }

  /** The result of each task: the described video with its fields overridden. */
  function Outcomes(tasks: seq<Task>, describe: VideoRecord -> Option<seq<VideoDescription>>): seq<Option<seq<VideoDescription>>>
  {
    seq(|tasks|, k requires 0 <= k < |tasks| => ProcessSingleVideo(tasks[k].index, tasks[k].name, describe(tasks[k].record)))
  }

  /** `generate_new_video_descriptions`: describe the stored videos whose key is not in `existing`. */
  method GenerateNewVideoDescriptions(videos: map<string, VideoRecord>, order: seq<string>, existing: set<string>,
                                      describe: VideoRecord -> Option<seq<VideoDescription>>)
    returns (r: seq<VideoDescription>)
    ensures r == Merged(Outcomes(NewTasks(videos, order, existing), describe))
  {
    var tasks := CreateTasks(videos, order, existing);
    if tasks == [] {
      return [];
    }
    var results := Outcomes(tasks, describe);
    r := MergeResults(results);
  }

  /** `generate_all_video_descriptions`: describe every stored video in the order. */
  method GenerateAllVideoDescriptions(videos: map<string, VideoRecord>, order: seq<string>,
                                      describe: VideoRecord -> Option<seq<VideoDescription>>)
    returns (r: seq<VideoDescription>)
    ensures r == Merged(Outcomes(NewTasks(videos, order, {}), describe))
  {
    var tasks := CreateTasks(videos, order, {});
    var results := Outcomes(tasks, describe);
    r := MergeResults(results);
  }

  /** Every description the batch returns whose call answered has its id set to the video's position. */
  lemma OutcomeIds(tasks: seq<Task>, describe: VideoRecord -> Option<seq<VideoDescription>>, k: nat)
    requires k < |tasks|
    ensures var o := Outcomes(tasks, describe)[k];
      o.Some? && o.value != [] ==> o.value[0].videoId == Some(tasks[k].index) && o.value[0].videoName == Some(tasks[k].name)
  {
    assert Outcomes(tasks, describe)[k] == ProcessSingleVideo(tasks[k].index, tasks[k].name, describe(tasks[k].record));
  }
}
