/**
 * `upload_and_process` of `main.py`: the registered documents are reconciled
 * with the files currently in the upload widget. Documents whose names left
 * the widget are removed first, their ledger slots are overwritten with a
 * deletion notice and a notification turn is appended per removal; the new
 * files are registered afterwards.
 */
module Reconcile {
  import opened Common
  import opened Strings
  import opened Decimal
  import opened Paths
  import opened Ocr
  import opened Ledger
  import opened Records
  import opened Blockifier
  import opened Session
  import opened DocumentUtils
  import opened DataManager

  // ---------------------------------------------------------------------------
  // The upload widget and the diff against the registry
  // ---------------------------------------------------------------------------

  /** The `files` argument: `None`, one file object, or a list that may hold `None`. */
  datatype DocUploads = NoUploads | OneUpload(file: UploadedFile) | UploadList(files: seq<Option<UploadedFile>>)

  /** The entries of a list that are not `None`, in order. */
  function Present(files: seq<Option<UploadedFile>>): (r: seq<UploadedFile>)
    ensures |r| <= |files|
    ensures forall f :: f in r <==> Some(f) in files
  {
    if files == [] then []
    else
      var init := Present(files[..|files| - 1]);
      assert files == files[..|files| - 1] + [files[|files| - 1]];
      init + (if files[|files| - 1].Some? then [files[|files| - 1].value] else [])
  }

  /** `current_files`: the argument as a list, without `None` entries. */
  function CurrentFiles(files: DocUploads): seq<UploadedFile>
  {
    match files
    case NoUploads => []
    case OneUpload(f) => [f]
    case UploadList(fs) => Present(fs)
  }

  /** `current_file_names`: the base name of every current file. */
  function CurrentNames(files: seq<UploadedFile>): (r: seq<string>)
    ensures |r| == |files| && forall i :: 0 <= i < |files| ==> r[i] == BaseName(files[i].name)
  {
    seq(|files|, i requires 0 <= i < |files| => BaseName(files[i].name))
  }

  /** `existing_file_names`: the names of the registered documents, in order. */
  function ExistingFileNames(documents: map<string, DocRecord>, order: seq<string>): (r: seq<string>)
    requires forall d :: d in order ==> d in documents
    ensures |r| == |order| && forall k :: 0 <= k < |order| ==> r[k] == documents[order[k]].fileName
  {
    seq(|order|, k requires 0 <= k < |order| => documents[order[k]].fileName)
  }

  /** `files_to_remove`: the existing names, in order and with repeats, that no current file carries. */
  function FilesToRemove(existing: seq<string>, current: seq<string>): (r: seq<string>)
    ensures forall n :: n in r <==> n in existing && n !in current
  {
    if existing == [] then []
    else
      var last := existing[|existing| - 1];
      assert existing == existing[..|existing| - 1] + [last];
      FilesToRemove(existing[..|existing| - 1], current) + (if last !in current then [last] else [])
  }

  /** `files_to_add`: the current files, in order and with repeats, whose names are not registered. */
  function FilesToAdd(current: seq<UploadedFile>, existing: seq<string>): (r: seq<UploadedFile>)
    ensures forall f :: f in r <==> f in current && BaseName(f.name) !in existing
  {
    if current == [] then []
    else
      var last := current[|current| - 1];
      assert current == current[..|current| - 1] + [last];
      FilesToAdd(current[..|current| - 1], existing) + (if BaseName(last.name) !in existing then [last] else [])
  }

  // ---------------------------------------------------------------------------
  // The removal loop
  // ---------------------------------------------------------------------------

  function Elems(s: seq<string>): set<string>
  {
    set x | x in s
  }

  /** `list.remove(x)`: the first occurrence of `x` goes. */
  function RemoveFirst(s: seq<string>, x: string): (r: seq<string>)
    ensures forall y :: y in r ==> y in s
    ensures x !in s ==> r == s
  {
    if s == [] then []
    else if s[0] == x then s[1..]
    else [s[0]] + RemoveFirst(s[1..], x)
  }

  /** In a list without repeats, `remove` takes out exactly the one element. */
  lemma {:induction false} RemoveFirstDistinct(s: seq<string>, x: string)
    requires Distinct(s)
    ensures Distinct(RemoveFirst(s, x))
    ensures forall y :: y in RemoveFirst(s, x) <==> y in s && y != x
    decreases |s|
  {
    if s != [] && s[0] != x {
      assert Distinct(s[1..]) by {
        forall i, j | 0 <= i < j < |s[1..]| ensures s[1..][i] != s[1..][j] {
          assert s[1..][i] == s[i + 1] && s[1..][j] == s[j + 1];
        }
      }
      RemoveFirstDistinct(s[1..], x);
      var t := RemoveFirst(s[1..], x);
      assert s[0] !in s[1..] by {
        forall k | 0 <= k < |s[1..]| ensures s[1..][k] != s[0] {
          assert s[1..][k] == s[k + 1];
        }
      }
      forall i, j | 0 <= i < j < |[s[0]] + t| ensures ([s[0]] + t)[i] != ([s[0]] + t)[j] {
        if i == 0 {
          assert ([s[0]] + t)[j] == t[j - 1] && t[j - 1] in t;
        } else {
          assert ([s[0]] + t)[i] == t[i - 1] && ([s[0]] + t)[j] == t[j - 1];
        }
      }
    } else if s != [] {
      assert s == [s[0]] + s[1..];
      forall i, j | 0 <= i < j < |s[1..]| ensures s[1..][i] != s[1..][j] {
        assert s[1..][i] == s[i + 1] && s[1..][j] == s[j + 1];
      }
      assert s[0] !in s[1..] by {
        forall k | 0 <= k < |s[1..]| ensures s[1..][k] != s[0] {
          assert s[1..][k] == s[k + 1];
        }
      }
    }
  }

  /** `doc_ids_to_remove`: the ordered ids whose document carries `name`. */
  function IdsNamed(documents: map<string, DocRecord>, order: seq<string>, name: string): (r: seq<string>)
    ensures forall d :: d in r <==> d in order && d in documents && documents[d].fileName == name
  {
    if order == [] then []
    else
      var last := order[|order| - 1];
      assert order == order[..|order| - 1] + [last];
      IdsNamed(documents, order[..|order| - 1], name) + (if last in documents && documents[last].fileName == name then [last] else [])
  }

  /**
   * The removal loop's state: the registry, `removed_files`, the position of
   * every removed document in removal order (`slots`), and `removed_positions`
   * as written, keyed by file name (`byName`).
   */
  datatype Removal = Removal(documents: map<string, DocRecord>, order: seq<string>, positions: map<string, nat>,
                             removed: seq<string>, slots: seq<Option<nat>>, byName: map<string, nat>)

  /** One pass of the inner loop: record the position, delete the document, note the name. */
  function RemoveDoc(s: Removal, d: string, name: string): Removal
  {
    Removal(s.documents - {d}, RemoveFirst(s.order, d), s.positions - {d}, s.removed + [name],
            s.slots + [if d in s.positions then Some(s.positions[d]) else None],
            if d in s.positions then s.byName[name := s.positions[d]] else s.byName)
  }

  /** The inner loop over `doc_ids_to_remove`. */
  function RemoveIds(s: Removal, ids: seq<string>, name: string): (r: Removal)
    ensures |r.slots| - |s.slots| == |r.removed| - |s.removed| == |ids|
  {
    if ids == [] then s
    else RemoveDoc(RemoveIds(s, ids[..|ids| - 1], name), ids[|ids| - 1], name)
  }

  /** The outer loop over `files_to_remove`: each name's ids are looked up in the registry as it stands. */
  function RemoveNamed(s: Removal, names: seq<string>): (r: Removal)
    ensures |r.slots| - |s.slots| == |r.removed| - |s.removed| >= 0
  {
    if names == [] then s
    else
      var t := RemoveNamed(s, names[..|names| - 1]);
      var name := names[|names| - 1];
      RemoveIds(t, IdsNamed(t.documents, t.order, name), name)
  }

  /** The inner loop deletes exactly the listed ids from the dictionary and the position map. */
  lemma {:induction false} RemoveIdsMaps(s: Removal, ids: seq<string>, name: string)
    ensures RemoveIds(s, ids, name).documents == s.documents - Elems(ids)
    ensures RemoveIds(s, ids, name).positions == s.positions - Elems(ids)
    decreases |ids|
  {
    if ids != [] {
      var init := ids[..|ids| - 1];
      var last := ids[|ids| - 1];
      RemoveIdsMaps(s, init, name);
      assert ids == init + [last];
      assert Elems(ids) == Elems(init) + {last};
      assert (s.documents - Elems(init)) - {last} == s.documents - Elems(ids);
      assert (s.positions - Elems(init)) - {last} == s.positions - Elems(ids);
    }
  }

  /** The inner loop takes exactly the listed ids out of an order without repeats. */
  lemma {:induction false} RemoveIdsOrder(s: Removal, ids: seq<string>, name: string)
    requires Distinct(s.order)
    ensures Distinct(RemoveIds(s, ids, name).order)
    ensures forall y :: y in RemoveIds(s, ids, name).order <==> y in s.order && y !in Elems(ids)
    decreases |ids|
  {
    if ids != [] {
      var init := ids[..|ids| - 1];
      RemoveIdsOrder(s, init, name);
      RemoveFirstDistinct(RemoveIds(s, init, name).order, ids[|ids| - 1]);
      assert ids == init + [ids[|ids| - 1]];
    }
  }

  /** A filter of a list without repeats has no repeats. */
  lemma {:induction false} IdsNamedDistinct(documents: map<string, DocRecord>, order: seq<string>, name: string)
    requires Distinct(order)
    ensures Distinct(IdsNamed(documents, order, name))
    decreases |order|
  {
    if order != [] {
      var init := order[..|order| - 1];
      var last := order[|order| - 1];
      assert Distinct(init) by {
        forall i, j | 0 <= i < j < |init| ensures init[i] != init[j] {
          assert init[i] == order[i] && init[j] == order[j];
        }
      }
      IdsNamedDistinct(documents, init, name);
      assert last !in init by {
        forall k | 0 <= k < |init| ensures init[k] != last {
          assert init[k] == order[k];
        }
      }
      var r0 := IdsNamed(documents, init, name);
      if last in documents && documents[last].fileName == name {
        forall i, j | 0 <= i < j < |r0 + [last]| ensures (r0 + [last])[i] != (r0 + [last])[j] {
          if j == |r0| {
            assert (r0 + [last])[i] == r0[i] && r0[i] in r0;
          } else {
            assert (r0 + [last])[i] == r0[i] && (r0 + [last])[j] == r0[j];
          }
        }
      }
    }
  }

  /**
   * The inner loop's log: one `removed_files` entry per id, and in removal
   * order the position each id held (a list of distinct ids).
   */
  lemma {:induction false} RemoveIdsLog(s: Removal, ids: seq<string>, name: string)
    requires Distinct(ids)
    ensures var r := RemoveIds(s, ids, name);
      r.removed == s.removed + seq(|ids|, _ => name) &&
      |r.slots| == |s.slots| + |ids| && r.slots[..|s.slots|] == s.slots &&
      forall k :: 0 <= k < |ids| ==>
        r.slots[|s.slots| + k] == (if ids[k] in s.positions then Some(s.positions[ids[k]]) else None)
    decreases |ids|
  {
    if ids != [] {
      var init := ids[..|ids| - 1];
      var last := ids[|ids| - 1];
      assert Distinct(init) by {
        forall i, j | 0 <= i < j < |init| ensures init[i] != init[j] {
          assert init[i] == ids[i] && init[j] == ids[j];
        }
      }
      RemoveIdsLog(s, init, name);
      RemoveIdsMaps(s, init, name);
      var t := RemoveIds(s, init, name);
      assert last !in Elems(init) by {
        forall k | 0 <= k < |init| ensures init[k] != last {
          assert init[k] == ids[k];
        }
      }
      assert (last in t.positions) == (last in s.positions);
      var r := RemoveIds(s, ids, name);
      assert r.removed == s.removed + seq(|ids|, _ => name);
      forall k | 0 <= k < |ids|
        ensures r.slots[|s.slots| + k] == (if ids[k] in s.positions then Some(s.positions[ids[k]]) else None)
      {
        if k < |init| {
          assert r.slots[|s.slots| + k] == t.slots[|s.slots| + k] && ids[k] == init[k];
        }
      }
    }
  }

  /** What the inner loop records in `removed_positions`: a position of one of the ids, under `name`. */
  lemma {:induction false} RemoveIdsByName(s: Removal, ids: seq<string>, name: string)
    ensures var r := RemoveIds(s, ids, name);
      forall n :: n in r.byName ==>
        (n in s.byName && r.byName[n] == s.byName[n] && n != name) ||
        (n == name && ((name in s.byName && r.byName[n] == s.byName[n]) ||
                       exists k :: 0 <= k < |ids| && ids[k] in s.positions && r.byName[n] == s.positions[ids[k]]))
    decreases |ids|
  {
    if ids != [] {
      var init := ids[..|ids| - 1];
      var last := ids[|ids| - 1];
      RemoveIdsByName(s, init, name);
      RemoveIdsMaps(s, init, name);
      var t := RemoveIds(s, init, name);
      var r := RemoveIds(s, ids, name);
      forall n | n in r.byName
        ensures (n in s.byName && r.byName[n] == s.byName[n] && n != name) ||
          (n == name && ((name in s.byName && r.byName[n] == s.byName[n]) ||
                         exists k :: 0 <= k < |ids| && ids[k] in s.positions && r.byName[n] == s.positions[ids[k]]))
      {
        if n == name && last in t.positions {
          assert r.byName[n] == s.positions[ids[|ids| - 1]];
        } else if n == name && name !in s.byName {
          var k :| 0 <= k < |init| && init[k] in s.positions && t.byName[n] == s.positions[init[k]];
          assert ids[k] == init[k];
        }
      }
    }
  }

  /** The registry a removal state describes is consistent. */
  predicate RegistryConsistent(s: Removal)
  {
    DocsConsistent(s.documents, s.order, s.positions)
  }

  /**
   * `r` is `s` without the documents whose name is among `names`: the others
   * keep their record, their place in the order and their position.
   */
  ghost predicate Kept(s: Removal, r: Removal, names: seq<string>)
  {
    (forall d :: d in r.documents <==> d in s.documents && s.documents[d].fileName !in names) &&
    (forall d :: d in r.documents ==> r.documents[d] == s.documents[d]) &&
    (forall d :: d in r.positions <==> d in s.positions && d in r.documents) &&
    (forall d :: d in r.positions ==> r.positions[d] == s.positions[d]) &&
    (forall y :: y in r.order <==> y in s.order && y in r.documents)
  }

  /** One name's inner loop removes exactly the documents that carry that name. */
  lemma RemoveOneName(t: Removal, name: string)
    requires RegistryConsistent(t)
    ensures Kept(t, RemoveIds(t, IdsNamed(t.documents, t.order, name), name), [name])
  {
    var ids := IdsNamed(t.documents, t.order, name);
    RemoveIdsMaps(t, ids, name);
    RemoveIdsOrder(t, ids, name);
    KeptWithout(t, RemoveIds(t, ids, name), Elems(ids), name);
  }

  /** Taking out of the registry exactly the ids that carry `name` keeps the others. */
  lemma KeptWithout(t: Removal, r: Removal, gone: set<string>, name: string)
    requires RegistryConsistent(t)
    requires forall d :: d in gone <==> d in t.order && d in t.documents && t.documents[d].fileName == name
    requires r.documents == t.documents - gone && r.positions == t.positions - gone
    requires forall y :: y in r.order <==> y in t.order && y !in gone
    ensures Kept(t, r, [name])
  {
  }

  /** Removing the documents of one name keeps the registry consistent. */
  lemma RemoveOneNameConsistent(t: Removal, name: string)
    requires RegistryConsistent(t)
    ensures RegistryConsistent(RemoveIds(t, IdsNamed(t.documents, t.order, name), name))
  {
    var ids := IdsNamed(t.documents, t.order, name);
    RemoveIdsMaps(t, ids, name);
    RemoveIdsOrder(t, ids, name);
  }

  /** Removing names in two rounds removes their union. */
  lemma KeptTrans(s: Removal, t: Removal, r: Removal, init: seq<string>, name: string)
    requires Kept(s, t, init) && Kept(t, r, [name])
    ensures Kept(s, r, init + [name])
  {
  }

  /**
   * The removal loop, as a whole: exactly the documents whose name is to be
   * removed leave the dictionary, the order and the position map; the others
   * keep their record and their position, and the registry stays consistent.
   */
  lemma {:induction false} RemoveNamedRegistry(s: Removal, names: seq<string>)
    requires RegistryConsistent(s)
    ensures RegistryConsistent(RemoveNamed(s, names)) && Kept(s, RemoveNamed(s, names), names)
    decreases |names|
  {
    if names == [] {
    } else {
      var init := names[..|names| - 1];
      var name := names[|names| - 1];
      RemoveNamedRegistry(s, init);
      var t := RemoveNamed(s, init);
      RemoveOneName(t, name);
      RemoveOneNameConsistent(t, name);
      assert names == init + [name];
      KeptTrans(s, t, RemoveNamed(s, names), init, name);
    }
  }

  /** `removed_files` grows by one entry, from `names`, per position slot. */
  lemma {:induction false} RemoveNamedLog(s: Removal, names: seq<string>)
    requires RegistryConsistent(s)
    ensures var r := RemoveNamed(s, names);
      r.removed[..|s.removed|] == s.removed && r.slots[..|s.slots|] == s.slots &&
      forall k :: |s.removed| <= k < |r.removed| ==> r.removed[k] in names
    decreases |names|
  {
    if names != [] {
      var init := names[..|names| - 1];
      var name := names[|names| - 1];
      RemoveNamedLog(s, init);
      RemoveNamedRegistry(s, init);
      var t := RemoveNamed(s, init);
      var ids := IdsNamed(t.documents, t.order, name);
      IdsNamedDistinct(t.documents, t.order, name);
      RemoveIdsLog(t, ids, name);
      var r := RemoveNamed(s, names);
      assert r.removed[..|s.removed|] == t.removed[..|s.removed|];
      assert r.slots[..|s.slots|] == t.slots[..|s.slots|];
      forall k | |s.removed| <= k < |r.removed| ensures r.removed[k] in names {
        if k < |t.removed| {
          assert r.removed[k] == t.removed[k] && t.removed[k] in init;
        } else {
          assert r.removed[k] == name;
        }
      }
    }
  }

  /**
   * The slots listed in `r` beyond those of `s` are exactly the positions of
   * the documents that `s` had and `r` no longer has.
   */
  ghost predicate SlotsExact(s: Removal, r: Removal)
  {
    |s.slots| <= |r.slots| &&
    (forall d :: d in s.positions && d !in r.documents ==> Some(s.positions[d]) in r.slots[|s.slots|..]) &&
    (forall p :: Some(p) in r.slots[|s.slots|..] ==> exists d :: d in s.positions && d !in r.documents && s.positions[d] == p)
  }

  /** One name's inner loop lists the slot of every document it removes, and no other. */
  lemma SlotsOneName(t: Removal, name: string)
    requires RegistryConsistent(t)
    ensures SlotsExact(t, RemoveIds(t, IdsNamed(t.documents, t.order, name), name))
  {
    var ids := IdsNamed(t.documents, t.order, name);
    IdsNamedDistinct(t.documents, t.order, name);
    RemoveIdsLog(t, ids, name);
    RemoveIdsMaps(t, ids, name);
    SlotsListed(t, ids, name);
    SlotsSound(t, ids, name);
  }

  /** Every removed id that held a position has that position among the new slots. */
  lemma SlotsListed(t: Removal, ids: seq<string>, name: string)
    requires Distinct(ids) && t.positions.Keys <= t.documents.Keys
    ensures var r := RemoveIds(t, ids, name);
      |t.slots| <= |r.slots| &&
      forall d :: d in t.positions && d !in r.documents ==> Some(t.positions[d]) in r.slots[|t.slots|..]
  {
    RemoveIdsLog(t, ids, name);
    RemoveIdsMaps(t, ids, name);
    var r := RemoveIds(t, ids, name);
    forall d | d in t.positions && d !in r.documents ensures Some(t.positions[d]) in r.slots[|t.slots|..] {
      assert d in Elems(ids);
      var k :| 0 <= k < |ids| && ids[k] == d;
      assert r.slots[|t.slots|..][k] == r.slots[|t.slots| + k];
    }
  }

  /** Every new slot is the position of a removed id. */
  lemma SlotsSound(t: Removal, ids: seq<string>, name: string)
    requires Distinct(ids)
    ensures var r := RemoveIds(t, ids, name);
      |t.slots| <= |r.slots| &&
      forall p :: Some(p) in r.slots[|t.slots|..] ==> exists d :: d in t.positions && d !in r.documents && t.positions[d] == p
  {
    RemoveIdsLog(t, ids, name);
    RemoveIdsMaps(t, ids, name);
    var r := RemoveIds(t, ids, name);
    forall p | Some(p) in r.slots[|t.slots|..]
      ensures exists d :: d in t.positions && d !in r.documents && t.positions[d] == p
    {
      var j :| 0 <= j < |r.slots[|t.slots|..]| && r.slots[|t.slots|..][j] == Some(p);
      assert r.slots[|t.slots| + j] == Some(p);
      assert ids[j] in Elems(ids);
    }
  }

  /** Slot lists compose over two rounds of removal. */
  lemma SlotsTrans(s: Removal, t: Removal, r: Removal, init: seq<string>, name: string)
    requires SlotsExact(s, t) && SlotsExact(t, r) && Kept(s, t, init) && Kept(t, r, [name])
    requires r.slots[..|t.slots|] == t.slots
    ensures SlotsExact(s, r)
  {
    assert r.slots[|s.slots|..] == t.slots[|s.slots|..] + r.slots[|t.slots|..];
    forall p | Some(p) in r.slots[|s.slots|..]
      ensures exists d :: d in s.positions && d !in r.documents && s.positions[d] == p
    {
      if Some(p) in t.slots[|s.slots|..] {
        var d :| d in s.positions && d !in t.documents && s.positions[d] == p;
      } else {
        var d :| d in t.positions && d !in r.documents && t.positions[d] == p;
      }
    }
  }

  /**
   * The slots the removal loop records are exactly the positions of the
   * removed documents: every removed document that had a position has its
   * slot listed, and every listed slot belonged to a removed document.
   */
  lemma {:induction false} RemoveNamedSlots(s: Removal, names: seq<string>)
    requires RegistryConsistent(s)
    ensures SlotsExact(s, RemoveNamed(s, names))
    decreases |names|
  {
    if names != [] {
      var init := names[..|names| - 1];
      var name := names[|names| - 1];
      RemoveNamedSlots(s, init);
      RemoveNamedRegistry(s, init);
      var t := RemoveNamed(s, init);
      var ids := IdsNamed(t.documents, t.order, name);
      IdsNamedDistinct(t.documents, t.order, name);
      RemoveIdsLog(t, ids, name);
      RemoveOneName(t, name);
      SlotsOneName(t, name);
      SlotsTrans(s, t, RemoveNamed(s, names), init, name);
    }
  }

  // ---------------------------------------------------------------------------
  // Tombstoning the ledgers
  // ---------------------------------------------------------------------------

  const DeletedLine1: string := "This document was deleted manually by the user and you no longer have access to its contents. "
  const DeletedLine2: string := "It was earlier uploaded by the user but now it is removed and no longer available. "
  const DeletedLine3: string := "You no longer have access to this document's information. "
  const DeletedLine4: string := "However it may be the case that the document was referenced in the chat history, which information has not been removed. "
  const DeletedLine5: string := "The only information about this document that you have is that mentioned in the chat history in its reference. "
  const DeletedLine6: string := "Rest no information is available, you do not have access to its content. "
  const DeletedLine7: string := "User has also notified about at which point this information was deleted in the chat history."
  const NoticeLead: string := "The document: "
  const NoticeLine1: string := " was deleted at this point in the chat history, "
  const NoticeLine2: string := "you may find references about the document before this in the chathistory, but not after this since it was deleted. "
  const NoticeLine3: string := "You also wont have the document's content in your context now, that was manually removed by me."

  /** The user turn that replaces a removed document's content block: its introduction with an unknown page count, then the notice. */
  function DeletionTurn(name: string): Turn
  {
    Turn(User, Segments([Text(IntroLead + name + IntroMid + "unknown" + IntroTail + "\n" +
      DeletedLine1 + DeletedLine2 + DeletedLine3 + DeletedLine4 + DeletedLine5 + DeletedLine6 + DeletedLine7)]))
  }

  /** The user turn appended after each removal. */
  function NoticeTurn(name: string): Turn
  {
    Turn(User, Plain(NoticeLead + name + NoticeLine1 + NoticeLine2 + NoticeLine3))
  }

  /** A deletion turn is the same in both ledgers. */
  lemma DeletionTurnMirrors(name: string)
    ensures TurnMirrors(DeletionTurn(name), DeletionTurn(name))
  {
    var segs := DeletionTurn(name).content.segments;
    assert SegmentMirrors(segs[0], segs[0]);
  }

  /**
   * The tombstone loop over `removed_files`: the k-th removal overwrites the
   * slot `slots[k]` with its deletion turn `mark` when that slot lies inside
   * the ledger as it stands, then appends its `notice`. The ledgers use
   * `DeletionTurn` and `NoticeTurn`; the properties below hold for any turns.
   */
  function Tombstone(ledger: seq<Turn>, removed: seq<string>, slots: seq<Option<nat>>,
                    mark: string -> Turn, notice: string -> Turn): (r: seq<Turn>)
    requires |slots| == |removed|
    ensures |r| == |ledger| + |removed|
    decreases |removed|
  {
    if removed == [] then ledger
    else
      var k := |removed| - 1;
      var cur := Tombstone(ledger, removed[..k], slots[..k], mark, notice);
      var upd := if slots[k].Some? && slots[k].value < |cur| then cur[slots[k].value := mark(removed[k])] else cur;
      upd + [notice(removed[k])]
  }

  /** Whether some removal names slot `i`. */
  predicate Targets(slots: seq<Option<nat>>, i: nat)
  {
    Some(i) in slots
  }

  /** Slots inside the original ledger that no removal names keep their turn. */
  lemma {:induction false} TombstoneKeeps(ledger: seq<Turn>, removed: seq<string>, slots: seq<Option<nat>>,
                    mark: string -> Turn, notice: string -> Turn)
    requires |slots| == |removed|
    ensures var r := Tombstone(ledger, removed, slots, mark, notice);
      forall i :: 0 <= i < |ledger| && !Targets(slots, i) ==> r[i] == ledger[i]
    decreases |removed|
  {
    if removed != [] {
      var k := |removed| - 1;
      TombstoneKeeps(ledger, removed[..k], slots[..k], mark, notice);
      forall i | 0 <= i < |ledger| && !Targets(slots, i) ensures !Targets(slots[..k], i) {
        assert slots == slots[..k] + [slots[k]];
      }
    }
  }

  /**
   * A slot inside the original ledger that some removal names holds the
   * deletion turn of a removal naming it, when no slot lies beyond the
   * original ledger.
   */
  lemma {:induction false} TombstoneMarks(ledger: seq<Turn>, removed: seq<string>, slots: seq<Option<nat>>,
                    mark: string -> Turn, notice: string -> Turn)
    requires |slots| == |removed|
    requires forall k :: 0 <= k < |slots| && slots[k].Some? ==> slots[k].value < |ledger|
    ensures var r := Tombstone(ledger, removed, slots, mark, notice);
      forall i :: 0 <= i < |ledger| && Targets(slots, i) ==>
        exists k :: 0 <= k < |slots| && slots[k] == Some(i) && r[i] == mark(removed[k])
    decreases |removed|
  {
    if removed != [] {
      var k := |removed| - 1;
      TombstoneMarks(ledger, removed[..k], slots[..k], mark, notice);
      var cur := Tombstone(ledger, removed[..k], slots[..k], mark, notice);
      var r := Tombstone(ledger, removed, slots, mark, notice);
      forall i | 0 <= i < |ledger| && Targets(slots, i)
        ensures exists j :: 0 <= j < |slots| && slots[j] == Some(i) && r[i] == mark(removed[j])
      {
        if slots[k] == Some(i) {
          assert r[i] == mark(removed[k]);
        } else {
          var j :| 0 <= j < |slots| && slots[j] == Some(i);
          assert j < k && slots[..k][j] == Some(i);
          var j2 :| 0 <= j2 < k && slots[..k][j2] == Some(i) && cur[i] == mark(removed[..k][j2]);
          assert r[i] == cur[i] && slots[j2] == Some(i) && removed[j2] == removed[..k][j2];
        }
      }
    }
  }

  /** The appended turns are the notices, in removal order, when no slot lies beyond the original ledger. */
  lemma {:induction false} TombstoneNotices(ledger: seq<Turn>, removed: seq<string>, slots: seq<Option<nat>>,
                    mark: string -> Turn, notice: string -> Turn)
    requires |slots| == |removed|
    requires forall k :: 0 <= k < |slots| && slots[k].Some? ==> slots[k].value < |ledger|
    ensures var r := Tombstone(ledger, removed, slots, mark, notice);
      forall k :: 0 <= k < |removed| ==> r[|ledger| + k] == notice(removed[k])
    decreases |removed|
  {
    if removed != [] {
      var k := |removed| - 1;
      TombstoneNotices(ledger, removed[..k], slots[..k], mark, notice);
      var cur := Tombstone(ledger, removed[..k], slots[..k], mark, notice);
      var r := Tombstone(ledger, removed, slots, mark, notice);
      forall j | 0 <= j < |removed| ensures r[|ledger| + j] == notice(removed[j]) {
        if j < k {
          assert r[|ledger| + j] == cur[|ledger| + j] && removed[..k][j] == removed[j];
        }
      }
    }
  }

  /** Tombstoning both ledgers alike keeps the display ledger a mirror of the model ledger. */
  lemma {:induction false} TombstoneMirrors(full: seq<Turn>, show: seq<Turn>, removed: seq<string>, slots: seq<Option<nat>>,
                    mark: string -> Turn, notice: string -> Turn)
    requires |slots| == |removed| && TurnsMirror(full, show)
    requires forall n :: TurnMirrors(mark(n), mark(n)) && TurnMirrors(notice(n), notice(n))
    ensures TurnsMirror(Tombstone(full, removed, slots, mark, notice), Tombstone(show, removed, slots, mark, notice))
    decreases |removed|
  {
    if removed != [] {
      var k := |removed| - 1;
      TombstoneMirrors(full, show, removed[..k], slots[..k], mark, notice);
      var cf := Tombstone(full, removed[..k], slots[..k], mark, notice);
      var cs := Tombstone(show, removed[..k], slots[..k], mark, notice);
      var uf := if slots[k].Some? && slots[k].value < |cf| then cf[slots[k].value := mark(removed[k])] else cf;
      var us := if slots[k].Some? && slots[k].value < |cs| then cs[slots[k].value := mark(removed[k])] else cs;
      if slots[k].Some? && slots[k].value < |cf| {
        TurnsMirrorUpdate(cf, cs, slots[k].value, mark(removed[k]));
      }
      TurnsMirrorAppend(uf, us, notice(removed[k]), notice(removed[k]));
    }
  }

  /**
   * `removed_positions.get(removed)` as written: every removal of a name
   * looks up the one position recorded under that name, the position of the
   * last document of that name that had one.
   */
  function NameSlots(removed: seq<string>, byName: map<string, nat>): (r: seq<Option<nat>>)
    ensures |r| == |removed|
    ensures forall k :: 0 <= k < |removed| && r[k].Some? ==> removed[k] in byName && r[k].value == byName[removed[k]]
  {
    seq(|removed|, k requires 0 <= k < |removed| => if removed[k] in byName then Some(byName[removed[k]]) else None)
  }

  /** A removal state before the loop: the registry, and empty logs. */
  function StartRemoval(documents: map<string, DocRecord>, order: seq<string>, positions: map<string, nat>): Removal
  {
    Removal(documents, order, positions, [], [], map[])
  }

  /**
   * With the slots recorded per document, every removed document that had a
   * position in the ledger ends up with a deletion turn at that position.
   */
  lemma TombstoneClearsRemoved(s: Removal, names: seq<string>, ledger: seq<Turn>, mark: string -> Turn, notice: string -> Turn)
    requires RegistryConsistent(s) && s.removed == [] && s.slots == []
    requires forall d :: d in s.positions ==> s.positions[d] < |ledger|
    ensures var r := RemoveNamed(s, names);
      |r.slots| == |r.removed| &&
      forall d :: d in s.positions && d !in r.documents ==>
        exists k :: 0 <= k < |r.removed| && Tombstone(ledger, r.removed, r.slots, mark, notice)[s.positions[d]] == mark(r.removed[k])
  {
    RemoveNamedSlots(s, names);
    var r := RemoveNamed(s, names);
    assert r.slots[|s.slots|..] == r.slots;
    forall k | 0 <= k < |r.slots| && r.slots[k].Some? ensures r.slots[k].value < |ledger| {
      assert Some(r.slots[k].value) in r.slots;
    }
    TombstoneMarks(ledger, r.removed, r.slots, mark, notice);
    forall d | d in s.positions && d !in r.documents
      ensures exists k :: 0 <= k < |r.removed| && Tombstone(ledger, r.removed, r.slots, mark, notice)[s.positions[d]] == mark(r.removed[k])
    {
      assert Targets(r.slots, s.positions[d]);
    }
  }

  /** Two registered documents that carry the same name, at ledger slots 0 and 1. */
  function TwinStart(name: string): Removal
  {
    var rec := DocRecord(name, "", OcrResponse([]));
    StartRemoval(map["doc_1" := rec, "doc_2" := rec], ["doc_1", "doc_2"], map["doc_1" := 0, "doc_2" := 1])
  }

  lemma TwinNames(name: string)
    ensures FilesToRemove([name, name], []) == [name, name]
  {
    assert [name][..0] == [];
    assert FilesToRemove([name], []) == FilesToRemove([], []) + [name];
    assert [name, name][..1] == [name];
    assert FilesToRemove([name, name], []) == FilesToRemove([name], []) + [name];
  }

  lemma TwinIds(name: string)
    ensures IdsNamed(TwinStart(name).documents, TwinStart(name).order, name) == ["doc_1", "doc_2"]
  {
    var s := TwinStart(name);
    assert s.order[..1] == ["doc_1"];
    assert ["doc_1"][..0] == [];
    assert IdsNamed(s.documents, [], name) == [];
    assert IdsNamed(s.documents, ["doc_1"], name) == ["doc_1"];
  }

  /** The first name's inner loop removes both documents, recording slots 0 and 1. */
  lemma TwinFirstName(name: string)
    ensures var t := RemoveIds(TwinStart(name), ["doc_1", "doc_2"], name);
      t.documents == map[] && t.order == [] && t.removed == [name, name] &&
      t.slots == [Some(0), Some(1)] && t.byName == map[name := 1]
  {
    var s := TwinStart(name);
    var u := RemoveDoc(s, "doc_1", name);
    assert ["doc_1", "doc_2"][..1] == ["doc_1"];
    assert ["doc_1"][..0] == [];
    assert RemoveIds(s, ["doc_1"], name) == u;
    assert u.order == ["doc_2"];
    assert u.documents.Keys == {"doc_2"};
    var t := RemoveDoc(u, "doc_2", name);
    assert RemoveIds(s, ["doc_1", "doc_2"], name) == t;
    assert t.documents.Keys == {};
  }

  lemma TwinRemoval(name: string)
    ensures var r := RemoveNamed(TwinStart(name), [name, name]);
      r.documents == map[] && r.removed == [name, name] &&
      r.slots == [Some(0), Some(1)] && r.byName == map[name := 1]
  {
    var s := TwinStart(name);
    TwinIds(name);
    TwinFirstName(name);
    var t := RemoveIds(s, ["doc_1", "doc_2"], name);
    assert [name, name][..1] == [name];
    assert [name][..0] == [];
    assert RemoveNamed(s, [name]) == t;
    assert IdsNamed(t.documents, t.order, name) == [];
    assert RemoveNamed(s, [name, name]) == RemoveIds(t, [], name);
  }

  /** Two removals of one name, both looking up slot 1, leave slot 0 alone; per-document slots do not. */
  lemma TwinTombstones(ledger: seq<Turn>, name: string, mark: string -> Turn, notice: string -> Turn)
    requires |ledger| == 2
    ensures Tombstone(ledger, [name, name], [Some(1), Some(1)], mark, notice)[0] == ledger[0]
    ensures Tombstone(ledger, [name, name], [Some(0), Some(1)], mark, notice)[0] == mark(name)
  {
    assert [name, name][..1] == [name] && [name][..0] == [];
    assert [Some(1), Some(1)][..1] == [Some(1)] && [Some(1)][..0] == [];
    assert [Some(0), Some(1)][..1] == [Some(0)] && [Some(0)][..0] == [];
    assert Tombstone(ledger, [], [], mark, notice) == ledger;
    var once := Tombstone(ledger, [name], [Some(1)], mark, notice);
    assert once == ledger[1 := mark(name)] + [notice(name)];
    assert Tombstone(ledger, [name, name], [Some(1), Some(1)], mark, notice) == once[1 := mark(name)] + [notice(name)];
    var first := Tombstone(ledger, [name], [Some(0)], mark, notice);
    assert first == ledger[0 := mark(name)] + [notice(name)];
    assert Tombstone(ledger, [name, name], [Some(0), Some(1)], mark, notice) == first[1 := mark(name)] + [notice(name)];
  }

  /**
   * The loop as written keys the recorded positions by file name. Two
   * registered documents with one name at ledger slots 0 and 1 are both
   * removed, but both removals look up slot 1: slot 0 keeps the first
   * document's content, which the per-document slots replace.
   */
  lemma TombstoneByNameKeepsContent(ledger: seq<Turn>, name: string, mark: string -> Turn, notice: string -> Turn)
    requires |ledger| == 2
    ensures var r := RemoveNamed(TwinStart(name), FilesToRemove([name, name], []));
      r.documents == map[] && |r.slots| == |r.removed| &&
      Tombstone(ledger, r.removed, NameSlots(r.removed, r.byName), mark, notice)[0] == ledger[0] &&
      Tombstone(ledger, r.removed, r.slots, mark, notice)[0] == mark(name)
  {
    TwinNames(name);
    TwinRemoval(name);
    var r := RemoveNamed(TwinStart(name), [name, name]);
    assert NameSlots(r.removed, r.byName) == [Some(1), Some(1)];
    TwinTombstones(ledger, name, mark, notice);
  }

  /** The slot of the last removal of `n` that had one, scanning the log from its end. */
  function LastSlot(removed: seq<string>, slots: seq<Option<nat>>, n: string): Option<nat>
    requires |slots| == |removed|
  {
    if removed == [] then None
    else
      var k := |removed| - 1;
      if removed[k] == n && slots[k].Some? then slots[k] else LastSlot(removed[..k], slots[..k], n)
  }

  /** `removed_positions` holds, under each name, the slot of the last removal of that name that had one. */
  ghost predicate ByNameIsLast(s: Removal)
  {
    |s.slots| == |s.removed| &&
    forall n :: LastSlot(s.removed, s.slots, n) == (if n in s.byName then Some(s.byName[n]) else None)
  }

  lemma RemoveDocLast(s: Removal, d: string, name: string)
    requires ByNameIsLast(s)
    ensures ByNameIsLast(RemoveDoc(s, d, name))
  {
    var r := RemoveDoc(s, d, name);
    assert r.removed[..|s.removed|] == s.removed && r.slots[..|s.slots|] == s.slots;
  }

  lemma {:induction false} RemoveIdsLast(s: Removal, ids: seq<string>, name: string)
    requires ByNameIsLast(s)
    ensures ByNameIsLast(RemoveIds(s, ids, name))
    decreases |ids|
  {
    if ids != [] {
      RemoveIdsLast(s, ids[..|ids| - 1], name);
      RemoveDocLast(RemoveIds(s, ids[..|ids| - 1], name), ids[|ids| - 1], name);
    }
  }

  lemma {:induction false} RemoveNamedLast(s: Removal, names: seq<string>)
    requires ByNameIsLast(s)
    ensures ByNameIsLast(RemoveNamed(s, names))
    decreases |names|
  {
    if names != [] {
      RemoveNamedLast(s, names[..|names| - 1]);
      var t := RemoveNamed(s, names[..|names| - 1]);
      RemoveIdsLast(t, IdsNamed(t.documents, t.order, names[|names| - 1]), names[|names| - 1]);
    }
  }

  lemma {:induction false} LastSlotAbsent(removed: seq<string>, slots: seq<Option<nat>>, n: string)
    requires |slots| == |removed| && n !in removed
    ensures LastSlot(removed, slots, n) == None
    decreases |removed|
  {
    if removed != [] {
      var k := |removed| - 1;
      assert removed[k] in removed;
      assert forall x :: x in removed[..k] ==> x in removed;
      LastSlotAbsent(removed[..k], slots[..k], n);
    }
  }

  /** In a log without a repeated name, the last slot of each entry's name is that entry's own slot. */
  lemma {:induction false} LastSlotDistinct(removed: seq<string>, slots: seq<Option<nat>>)
    requires |slots| == |removed| && Distinct(removed)
    ensures forall k :: 0 <= k < |removed| ==> LastSlot(removed, slots, removed[k]) == slots[k]
    decreases |removed|
  {
    if removed != [] {
      var m := |removed| - 1;
      var init := removed[..m];
      assert Distinct(init) by {
        forall i, j | 0 <= i < j < |init| ensures init[i] != init[j] {
          assert init[i] == removed[i] && init[j] == removed[j];
        }
      }
      LastSlotDistinct(init, slots[..m]);
      assert removed[m] !in init by {
        forall i | 0 <= i < m ensures init[i] != removed[m] {
          assert init[i] == removed[i];
        }
      }
      LastSlotAbsent(init, slots[..m], removed[m]);
      forall k | 0 <= k < |removed| ensures LastSlot(removed, slots, removed[k]) == slots[k] {
        if k < m {
          assert removed[k] == init[k] != removed[m];
          assert slots[..m][k] == slots[k];
        }
      }
    }
  }

  /**
   * When no two removed documents share a name, `removed_positions.get` as
   * written looks up each document's own slot, so the name-keyed tombstones
   * are the per-document ones.
   */
  lemma NameSlotsAgree(documents: map<string, DocRecord>, order: seq<string>, positions: map<string, nat>,
                       names: seq<string>, ledger: seq<Turn>, mark: string -> Turn, notice: string -> Turn)
    ensures var r := RemoveNamed(StartRemoval(documents, order, positions), names);
      |r.slots| == |r.removed| &&
      (Distinct(r.removed) ==>
        NameSlots(r.removed, r.byName) == r.slots &&
        Tombstone(ledger, r.removed, NameSlots(r.removed, r.byName), mark, notice) == Tombstone(ledger, r.removed, r.slots, mark, notice))
  {
    var s := StartRemoval(documents, order, positions);
    assert ByNameIsLast(s);
    RemoveNamedLast(s, names);
    var r := RemoveNamed(s, names);
    if Distinct(r.removed) {
      LastSlotDistinct(r.removed, r.slots);
      assert forall k :: 0 <= k < |r.removed| ==> LastSlot(r.removed, r.slots, r.removed[k]) == NameSlots(r.removed, r.byName)[k];
    }
  }

  // ---------------------------------------------------------------------------
  // The handler's steps on the application state
  // ---------------------------------------------------------------------------

  /** Whether the registry fields of `st` are those of the removal state `g`. */
  predicate Holds(st: AppState, g: Removal)
    reads st`documents, st`documentOrder, st`documentPositions
  {
    st.documents == g.documents && st.documentOrder == g.order && st.documentPositions == g.positions
  }

  /**
   * The removal loop on the registry: for each name in turn, every document
   * carrying it is deleted, and its name and its ledger slot are logged.
   */
  method RemoveDocuments(st: AppState, names: seq<string>) returns (removed: seq<string>, slots: seq<Option<nat>>)
    modifies st`documents, st`documentOrder, st`documentPositions
    ensures var r := RemoveNamed(StartRemoval(old(st.documents), old(st.documentOrder), old(st.documentPositions)), names);
      Holds(st, r) && removed == r.removed && slots == r.slots
  {
    ghost var s0 := StartRemoval(st.documents, st.documentOrder, st.documentPositions);
    removed, slots := [], [];
    var i := 0;
    while i < |names|
      invariant 0 <= i <= |names|
      invariant var g := RemoveNamed(s0, names[..i]); Holds(st, g) && removed == g.removed && slots == g.slots
    {
      ghost var g := RemoveNamed(s0, names[..i]);
      RemoveNamedSnoc(s0, names, i);
      removed, slots := RemoveNameDocuments(st, names[i], removed, slots, g);
      i := i + 1;
    }
    assert names[..i] == names;
  }

  lemma RemoveNamedSnoc(s: Removal, names: seq<string>, i: nat)
    requires i < |names|
    ensures var g := RemoveNamed(s, names[..i]);
      RemoveNamed(s, names[..i + 1]) == RemoveIds(g, IdsNamed(g.documents, g.order, names[i]), names[i])
  {
    assert names[..i + 1][..i] == names[..i];
  }

  /** The inner loop for one name, continuing the logs `removed` and `slots` of the removal state `g`. */
  method RemoveNameDocuments(st: AppState, name: string, removed0: seq<string>, slots0: seq<Option<nat>>, ghost g: Removal)
    returns (removed: seq<string>, slots: seq<Option<nat>>)
    requires Holds(st, g) && removed0 == g.removed && slots0 == g.slots
    modifies st`documents, st`documentOrder, st`documentPositions
    ensures var r := RemoveIds(g, IdsNamed(g.documents, g.order, name), name);
      Holds(st, r) && removed == r.removed && slots == r.slots
  {
    removed, slots := removed0, slots0;
    var documents, order, positions := st.documents, st.documentOrder, st.documentPositions;
    var ids := IdsNamed(documents, order, name);
    var j := 0;
    while j < |ids|
      invariant 0 <= j <= |ids|
      invariant var u := RemoveIds(g, ids[..j], name);
        documents == u.documents && order == u.order && positions == u.positions && removed == u.removed && slots == u.slots
    {
      RemoveIdsSnoc(g, ids, j, name);
      documents, order, positions, removed, slots :=
        RemoveDocument(documents, order, positions, removed, slots, ids[j], name, RemoveIds(g, ids[..j], name));
      j := j + 1;
    }
    assert ids[..j] == ids;
    st.documents, st.documentOrder, st.documentPositions := documents, order, positions;
    assert ids[..j] == ids;
  }

  lemma RemoveIdsSnoc(g: Removal, ids: seq<string>, j: nat, name: string)
    requires j < |ids|
    ensures RemoveIds(g, ids[..j + 1], name) == RemoveDoc(RemoveIds(g, ids[..j], name), ids[j], name)
  {
    assert ids[..j + 1][..j] == ids[..j];
  }

  /** One pass of the inner loop: log the slot, delete the document, log the name. */
  method RemoveDocument(documents0: map<string, DocRecord>, order0: seq<string>, positions0: map<string, nat>,
                        removed0: seq<string>, slots0: seq<Option<nat>>, d: string, name: string, ghost cur: Removal)
    returns (documents: map<string, DocRecord>, order: seq<string>, positions: map<string, nat>,
             removed: seq<string>, slots: seq<Option<nat>>)
    requires documents0 == cur.documents && order0 == cur.order && positions0 == cur.positions
    requires removed0 == cur.removed && slots0 == cur.slots
    ensures var r := RemoveDoc(cur, d, name);
      documents == r.documents && order == r.order && positions == r.positions && removed == r.removed && slots == r.slots
  {
    slots := slots0 + [if d in positions0 then Some(positions0[d]) else None];
    positions := positions0;
    if d in positions {
      positions := positions - {d};
    } else {
      assert positions == positions0 - {d};
    }
    documents, order := documents0 - {d}, RemoveFirst(order0, d);
    removed := removed0 + [name];
  }

  /**
   * The tombstone loop on both ledgers, run only when something was removed
   * and the ledger exists: the k-th removal's slot, if inside the ledger as
   * it stands, becomes a deletion turn in both ledgers, and a notice is
   * appended to both.
   */
  method TombstoneLedgers(st: AppState, removed: seq<string>, slots: seq<Option<nat>>)
    requires |slots| == |removed| && st.Valid()
    modifies st`ledger, st`ledgerShow
    ensures st.Valid()
    ensures st.ledger == (if removed != [] && old(st.ledger).Some? then Some(Tombstone(old(st.ledger).value, removed, slots, DeletionTurn, NoticeTurn)) else old(st.ledger))
    ensures st.ledgerShow == (if removed != [] && old(st.ledger).Some? then Some(Tombstone(old(st.ledgerShow).value, removed, slots, DeletionTurn, NoticeTurn)) else old(st.ledgerShow))
  {
    if removed == [] || st.ledger.None? {
      return;
    }
    var full, show := st.ledger.value, st.ledgerShow.value;
    ghost var full0, show0 := full, show;
    var k := 0;
    while k < |removed|
      invariant 0 <= k <= |removed|
      invariant full == Tombstone(full0, removed[..k], slots[..k], DeletionTurn, NoticeTurn)
      invariant show == Tombstone(show0, removed[..k], slots[..k], DeletionTurn, NoticeTurn)
      invariant |full| == |show|
    {
      if slots[k].Some? && slots[k].value < |full| {
        full := full[slots[k].value := DeletionTurn(removed[k])];
        show := show[slots[k].value := DeletionTurn(removed[k])];
      }
      full := full + [NoticeTurn(removed[k])];
      show := show + [NoticeTurn(removed[k])];
      assert removed[..k + 1][..k] == removed[..k] && slots[..k + 1][..k] == slots[..k];
      k := k + 1;
    }
    assert removed[..k] == removed && slots[..k] == slots;
    TombstoneKeepsLedger(full0, show0, st.documentPositions, removed, slots);
    st.ledger, st.ledgerShow := Some(full), Some(show);
  }

  // ---------------------------------------------------------------------------
  // The upload loop
  // ---------------------------------------------------------------------------

  /** `processed_files`: the base names of the files whose OCR succeeded, in order. */
  function Processed(files: seq<UploadedFile>): (r: seq<string>)
    ensures |r| <= |files|
    ensures forall n :: n in r <==> exists f :: f in files && f.ocr.Some? && BaseName(f.name) == n
  {
    if files == [] then []
    else
      var last := files[|files| - 1];
      assert files == files[..|files| - 1] + [last];
      Processed(files[..|files| - 1]) + (if last.ocr.Some? then [BaseName(last.name)] else [])
  }

  /** `failed_files`: the names of the files whose OCR failed, in order. */
  function Failed(files: seq<UploadedFile>): (r: seq<string>)
    ensures forall n :: n in r <==> exists f :: f in files && f.ocr.None? && f.name == n
  {
    if files == [] then []
    else
      var last := files[|files| - 1];
      assert files == files[..|files| - 1] + [last];
      Failed(files[..|files| - 1]) + (if last.ocr.None? then [last.name] else [])
  }

  /** Every file lands in exactly one of the two lists. */
  lemma {:induction false} ProcessedFailedCount(files: seq<UploadedFile>)
    ensures |Processed(files)| + |Failed(files)| == |files|
    decreases |files|
  {
    if files != [] {
      ProcessedFailedCount(files[..|files| - 1]);
    }
  }

  /**
   * The loop over `files_to_add`: each file goes through the single-document
   * upload with the counter as it stood before the loop. Registered documents
   * keep their record and position, the new ids follow the old order and
   * carry the processed names in order, and the ledger, when it exists,
   * grows by one turn per processed file; without a ledger every new
   * document is reserved the same slot, the unchanged counter.
   */
  method AddDocuments(st: AppState, toAdd: seq<UploadedFile>) returns (processed: seq<string>, failed: seq<string>)
    requires st.Valid()
    modifies st`documents, st`documentOrder, st`documentPositions, st`ledger, st`ledgerShow
    ensures st.Valid()
    ensures processed == Processed(toAdd) && failed == Failed(toAdd)
    ensures Extends(st, old(st.documents), old(st.documentOrder), old(st.documentPositions), old(st.ledger), processed)
  {
    processed, failed := [], [];
    var i := 0;
    while i < |toAdd|
      invariant 0 <= i <= |toAdd| && st.Valid()
      invariant processed == Processed(toAdd[..i]) && failed == Failed(toAdd[..i])
      invariant Extends(st, old(st.documents), old(st.documentOrder), old(st.documentPositions), old(st.ledger), processed)
    {
      processed, failed := AddOne(st, toAdd[i], processed, failed,
                                  old(st.documents), old(st.documentOrder), old(st.documentPositions), old(st.ledger));
      assert toAdd[..i + 1] == toAdd[..i] + [toAdd[i]];
      i := i + 1;
    }
    assert toAdd[..i] == toAdd;
  }

  /** The state `st` extends the registry and ledger it had before the upload loop by the documents named `names`. */
  ghost predicate Extends(st: AppState, documents0: map<string, DocRecord>, order0: seq<string>, positions0: map<string, nat>,
                          ledger0: Option<seq<Turn>>, names: seq<string>)
    reads st`documents, st`documentOrder, st`documentPositions, st`ledger, st`chatPositionCounter
  {
    Grown(documents0, order0, positions0, st.documents, st.documentOrder, st.documentPositions, names) &&
    LedgerGrown(positions0, ledger0, st.documentPositions, st.ledger, st.chatPositionCounter, |names|)
  }

  /**
   * Without a ledger before the loop there is none after it, and every new
   * position is the counter; with one, it grows by `added` turns at its end.
   */
  ghost predicate LedgerGrown(positions0: map<string, nat>, ledger0: Option<seq<Turn>>,
                              positions: map<string, nat>, ledger: Option<seq<Turn>>, counter: nat, added: nat)
  {
    (ledger0.None? ==>
      ledger.None? && forall d :: d in positions && d !in positions0 ==> positions[d] == counter) &&
    (ledger0.Some? ==>
      ledger.Some? && |ledger.value| == |ledger0.value| + added && ledger.value[..|ledger0.value|] == ledger0.value)
  }

  /** One pass of the upload loop: the file's outcome goes to `processed_files` or `failed_files`. */
  method AddOne(st: AppState, file: UploadedFile, processed0: seq<string>, failed0: seq<string>,
                ghost documents0: map<string, DocRecord>, ghost order0: seq<string>, ghost positions0: map<string, nat>,
                ghost ledger0: Option<seq<Turn>>)
    returns (processed: seq<string>, failed: seq<string>)
    requires st.Valid()
    requires Extends(st, documents0, order0, positions0, ledger0, processed0)
    modifies st`documents, st`documentOrder, st`documentPositions, st`ledger, st`ledgerShow
    ensures st.Valid()
    ensures Extends(st, documents0, order0, positions0, ledger0, processed)
    ensures processed == processed0 + (if file.ocr.Some? then [BaseName(file.name)] else [])
    ensures failed == failed0 + (if file.ocr.None? then [file.name] else [])
  {
    ghost var documents, order, positions, ledger := st.documents, st.documentOrder, st.documentPositions, st.ledger;
    var docId, fileName, success := UploadAndProcessDocument(st, file, st.chatPositionCounter);
    processed, failed := processed0, failed0;
    if success {
      AddedStep(documents0, order0, positions0, ledger0, documents, order, positions, ledger,
                st.documents, st.documentOrder, st.documentPositions, st.ledger, st.chatPositionCounter,
                processed, docId.value, NewRecord(file));
      processed := processed + [fileName];
    } else {
      failed := failed + [fileName];
    }
  }

  /** The registry and ledger after one more processed document still extend those before the loop. */
  lemma AddedStep(documents0: map<string, DocRecord>, order0: seq<string>, positions0: map<string, nat>, ledger0: Option<seq<Turn>>,
                  documents: map<string, DocRecord>, order: seq<string>, positions: map<string, nat>, ledger: Option<seq<Turn>>,
                  documents1: map<string, DocRecord>, order1: seq<string>, positions1: map<string, nat>, ledger1: Option<seq<Turn>>,
                  counter: nat, names: seq<string>, id: string, r: DocRecord)
    requires Grown(documents0, order0, positions0, documents, order, positions, names)
    requires LedgerGrown(positions0, ledger0, positions, ledger, counter, |names|)
    requires positions.Keys <= documents.Keys && id !in documents
    requires documents1 == documents[id := r] && order1 == order + [id]
    requires ledger.None? ==> ledger1.None? && positions1 == positions[id := counter]
    requires ledger.Some? ==>
      ledger1.Some? && |ledger1.value| == |ledger.value| + 1 && ledger1.value[..|ledger.value|] == ledger.value &&
      positions1 == positions[id := |ledger.value|]
    ensures Grown(documents0, order0, positions0, documents1, order1, positions1, names + [r.fileName])
    ensures LedgerGrown(positions0, ledger0, positions1, ledger1, counter, |names| + 1)
  {
    GrownStep(documents0, order0, positions0, documents, order, positions, names, id, r, positions1[id]);
    if ledger0.Some? {
      assert ledger1.value[..|ledger0.value|] == ledger.value[..|ledger0.value|];
    }
  }

  /**
   * The registry `(documents, order, positions)` extends `(documents0, order0,
   * positions0)`: old entries keep their record and position, and the ids
   * appended to the order are new ones carrying `names`, in order.
   */
  ghost predicate Grown(documents0: map<string, DocRecord>, order0: seq<string>, positions0: map<string, nat>,
                        documents: map<string, DocRecord>, order: seq<string>, positions: map<string, nat>, names: seq<string>)
  {
    |order| == |order0| + |names| && order[..|order0|] == order0 &&
    (forall d :: d in documents0 ==> d in documents && documents[d] == documents0[d]) &&
    (forall d :: d in positions0 ==> d in positions && positions[d] == positions0[d]) &&
    (forall d :: d in documents && d !in documents0 ==> d in order[|order0|..]) &&
    (forall k :: |order0| <= k < |order| ==> order[k] in documents && order[k] !in documents0 && documents[order[k]].fileName == names[k - |order0|])
  }

  /** Registering one more document under a fresh id extends the registry by its name. */
  lemma GrownStep(documents0: map<string, DocRecord>, order0: seq<string>, positions0: map<string, nat>,
                  documents: map<string, DocRecord>, order: seq<string>, positions: map<string, nat>,
                  names: seq<string>, id: string, r: DocRecord, p: nat)
    requires Grown(documents0, order0, positions0, documents, order, positions, names)
    requires id !in documents && forall d :: d in positions ==> d in documents
    ensures Grown(documents0, order0, positions0, documents[id := r], order + [id], positions[id := p], names + [r.fileName])
  {
    var order1 := order + [id];
    assert order1[..|order0|] == order0;
    forall d | d in documents[id := r] && d !in documents0 ensures d in order1[|order0|..] {
      if d == id {
        assert order1[|order1| - 1] == id;
      } else {
        assert d in order[|order0|..];
        var k :| 0 <= k < |order[|order0|..]| && order[|order0|..][k] == d;
        assert order1[|order0|..][k] == d;
      }
    }
  }

  // ---------------------------------------------------------------------------
  // The status entry
  // ---------------------------------------------------------------------------

  /** U+2705. */
  const DocAddedMark: string := "\U{2705}"
  /** U+1F5D1 followed by the emoji variation selector U+FE0F. */
  const DocRemovedMark: string := "\U{1F5D1}\U{FE0F}"
  /** U+274C. */
  const DocFailedMark: string := "\U{274C}"

  /** A one-name line quotes the name; a longer one counts and lists the names. */
  function CountLine(names: seq<string>, mark: string, verb: string): string
    requires names != []
  {
    if |names| == 1 then mark + " " + verb + ": '" + names[0] + "'"
    else mark + " " + verb + " " + NatToString(|names|) + " files: " + Join(", ", names)
  }

  function DocStatusLines(processed: seq<string>, removed: seq<string>, failed: seq<string>): (r: seq<string>)
    ensures |r| == (if processed != [] then 1 else 0) + (if removed != [] then 1 else 0) + (if failed != [] then 1 else 0)
    ensures r == [] <==> processed == [] && removed == [] && failed == []
    ensures processed != [] ==> r[0] == CountLine(processed, DocAddedMark, "Added")
    ensures removed != [] ==> r[if processed != [] then 1 else 0] == CountLine(removed, DocRemovedMark, "Removed")
    ensures failed != [] ==> r[|r| - 1] == DocFailedMark + " Failed to process: " + Join(", ", failed)
  {
    (if processed != [] then [CountLine(processed, DocAddedMark, "Added")] else []) +
    (if removed != [] then [CountLine(removed, DocRemovedMark, "Removed")] else []) +
    (if failed != [] then [DocFailedMark + " Failed to process: " + Join(", ", failed)] else [])
  }

  function DocsTail(total: nat): string
  {
    "\n\nTotal documents: " + NatToString(total) + ". Chat history preserved."
  }

  /** The status entry: present only when something was added, removed or failed, closing with the document count. */
  function UploadStatus(processed: seq<string>, removed: seq<string>, failed: seq<string>, total: nat): (r: seq<ChatEntry>)
    ensures |r| <= 1
    ensures r == [] <==> processed == [] && removed == [] && failed == []
    ensures r != [] ==> r[0].role == Assistant
    ensures r != [] ==> |DocsTail(total)| <= |r[0].content| && r[0].content[|r[0].content| - |DocsTail(total)|..] == DocsTail(total)
  {
    var lines := DocStatusLines(processed, removed, failed);
    if lines == [] then [] else [ChatEntry(Assistant, Join("\n", lines) + DocsTail(total))]
  }

  // ---------------------------------------------------------------------------
  // Consistency through the handler's steps
  // ---------------------------------------------------------------------------

  /** Removing documents only drops positions, so the ledger still covers them. */
  lemma RemovalKeepsLedger(s: Removal, names: seq<string>, ledger: Option<seq<Turn>>, ledgerShow: Option<seq<Turn>>)
    requires RegistryConsistent(s) && LedgerConsistent(ledger, ledgerShow, s.positions)
    ensures LedgerConsistent(ledger, ledgerShow, RemoveNamed(s, names).positions)
  {
    RemoveNamedRegistry(s, names);
  }

  /** Tombstoning both ledgers alike keeps them consistent with the positions. */
  lemma TombstoneKeepsLedger(full: seq<Turn>, show: seq<Turn>, positions: map<string, nat>,
                             removed: seq<string>, slots: seq<Option<nat>>)
    requires |slots| == |removed| && LedgerConsistent(Some(full), Some(show), positions)
    ensures LedgerConsistent(Some(Tombstone(full, removed, slots, DeletionTurn, NoticeTurn)),
                             Some(Tombstone(show, removed, slots, DeletionTurn, NoticeTurn)), positions)
  {
    forall n ensures TurnMirrors(DeletionTurn(n), DeletionTurn(n)) && TurnMirrors(NoticeTurn(n), NoticeTurn(n)) {
      DeletionTurnMirrors(n);
    }
    TombstoneMirrors(full, show, removed, slots, DeletionTurn, NoticeTurn);
  }

  /** The ledger built from a consistent non-empty registry covers the repositioned documents. */
  lemma BuiltLedgerConsistent(documents: map<string, DocRecord>, order: seq<string>, positions: map<string, nat>)
    requires DocsConsistent(documents, order, positions) && |documents| > 0
    ensures DocsConsistent(documents, order, Reposition(positions, order))
    ensures LedgerConsistent(Some(BuiltLedger(documents, order, false)), Some(BuiltLedger(documents, order, true)),
                             Reposition(positions, order))
  {
    RepositionKeys(positions, order);
    RepositionPlaces(positions, order);
    BuiltLedgerMirrors(documents, order);
    LedgerShape(DocBlocks(documents, order), false);
    var r := Reposition(positions, order);
    forall d | d in r ensures r[d] < |BuiltLedger(documents, order, false)| {
      assert d in order;
      var i :| 0 <= i < |order| && order[i] == d;
    }
  }

  // ---------------------------------------------------------------------------
  // The registry mirrors the upload widget
  // ---------------------------------------------------------------------------

  /** Every registered document's name is among `existing_file_names`. */
  lemma ExistingCovers(s: Removal)
    requires RegistryConsistent(s)
    ensures forall d :: d in s.documents ==> s.documents[d].fileName in ExistingFileNames(s.documents, s.order)
  {
    forall d | d in s.documents ensures s.documents[d].fileName in ExistingFileNames(s.documents, s.order) {
      var k :| 0 <= k < |s.order| && s.order[k] == d;
      assert ExistingFileNames(s.documents, s.order)[k] == s.documents[d].fileName;
    }
  }

  /** Files to add, when processed, carry names of files in the widget. */
  lemma ProcessedInWidget(current: seq<UploadedFile>, existing: seq<string>)
    ensures forall n :: n in Processed(FilesToAdd(current, existing)) ==> n in CurrentNames(current) && n !in existing
  {
    forall n | n in Processed(FilesToAdd(current, existing)) ensures n in CurrentNames(current) && n !in existing {
      var f :| f in FilesToAdd(current, existing) && f.ocr.Some? && BaseName(f.name) == n;
      var i :| 0 <= i < |current| && current[i] == f;
      assert CurrentNames(current)[i] == n;
    }
  }

  /** A file in the widget carries one of the current names. */
  lemma CurrentNamed(current: seq<UploadedFile>)
    ensures forall f :: f in current ==> BaseName(f.name) in CurrentNames(current)
  {
    forall f | f in current ensures BaseName(f.name) in CurrentNames(current) {
      var i :| 0 <= i < |current| && current[i] == f;
      assert CurrentNames(current)[i] == BaseName(f.name);
    }
  }

  /**
   * The removal keeps exactly the documents whose name is still in the widget,
   * and the uploads add documents named after files in the widget: afterwards
   * every registered document carries a current name.
   */
  lemma SyncedSoundFrom(names: seq<string>, existing: seq<string>, toRemove: seq<string>, processed: seq<string>,
                        s: Removal, r: Removal, documents: map<string, DocRecord>, order: seq<string>, positions: map<string, nat>)
    requires forall d :: d in s.documents ==> s.documents[d].fileName in existing
    requires forall n :: n in toRemove <==> n in existing && n !in names
    requires forall n :: n in processed ==> n in names
    requires Kept(s, r, toRemove)
    requires Grown(r.documents, r.order, r.positions, documents, order, positions, processed)
    ensures forall d :: d in documents ==> documents[d].fileName in names
  {
    forall d | d in documents ensures documents[d].fileName in names {
      if d !in r.documents {
        assert d in order[|r.order|..];
        var k :| 0 <= k < |order[|r.order|..]| && order[|r.order|..][k] == d;
        assert order[|r.order| + k] == d;
        assert documents[d].fileName == processed[k];
      }
    }
  }

  /** Every widget file whose text was extracted is registered under its name afterwards. */
  lemma SyncedCompleteFrom(current: seq<UploadedFile>, names: seq<string>, existing: seq<string>, toRemove: seq<string>,
                           toAdd: seq<UploadedFile>, processed: seq<string>,
                           s: Removal, r: Removal, documents: map<string, DocRecord>, order: seq<string>, positions: map<string, nat>)
    requires forall f :: f in current ==> BaseName(f.name) in names
    requires forall n :: n in existing ==> exists d :: d in s.documents && s.documents[d].fileName == n
    requires forall n :: n in toRemove <==> n in existing && n !in names
    requires forall f :: f in toAdd <==> f in current && BaseName(f.name) !in existing
    requires forall n :: n in processed <==> exists f :: f in toAdd && f.ocr.Some? && BaseName(f.name) == n
    requires Kept(s, r, toRemove)
    requires Grown(r.documents, r.order, r.positions, documents, order, positions, processed)
    ensures forall f :: f in current && f.ocr.Some? ==> exists d :: d in documents && documents[d].fileName == BaseName(f.name)
  {
    forall f | f in current && f.ocr.Some? ensures exists d :: d in documents && documents[d].fileName == BaseName(f.name) {
      var n := BaseName(f.name);
      if n in existing {
        KeptNamed(s, r, toRemove, documents, order, positions, processed, n);
      } else {
        assert f in toAdd;
        GrownNamed(r, documents, order, positions, processed, n);
      }
    }
  }

  /** A registered name that was not removed is still registered after the additions. */
  lemma KeptNamed(s: Removal, r: Removal, toRemove: seq<string>,
                  documents: map<string, DocRecord>, order: seq<string>, positions: map<string, nat>, processed: seq<string>, n: string)
    requires exists d :: d in s.documents && s.documents[d].fileName == n
    requires n !in toRemove
    requires Kept(s, r, toRemove)
    requires Grown(r.documents, r.order, r.positions, documents, order, positions, processed)
    ensures exists d :: d in documents && documents[d].fileName == n
  {
    var d :| d in s.documents && s.documents[d].fileName == n;
    assert d in r.documents;
  }

  /** A processed name is registered after the additions. */
  lemma GrownNamed(r: Removal, documents: map<string, DocRecord>, order: seq<string>, positions: map<string, nat>,
                   processed: seq<string>, n: string)
    requires n in processed
    requires Grown(r.documents, r.order, r.positions, documents, order, positions, processed)
    ensures exists d :: d in documents && documents[d].fileName == n
  {
    var j :| 0 <= j < |processed| && processed[j] == n;
    assert documents[order[|r.order| + j]].fileName == n;
  }

  /** Every name in `existing_file_names` is that of a registered document. */
  lemma ExistingNamed(s: Removal)
    requires RegistryConsistent(s)
    ensures forall n :: n in ExistingFileNames(s.documents, s.order) ==> exists d :: d in s.documents && s.documents[d].fileName == n
  {
    forall n | n in ExistingFileNames(s.documents, s.order) ensures exists d :: d in s.documents && s.documents[d].fileName == n {
      var k :| 0 <= k < |s.order| && ExistingFileNames(s.documents, s.order)[k] == n;
      assert s.order[k] in s.documents;
    }
  }

  /**
   * The registry mirrors the widget: every registered document carries the
   * name of a current file, and every current file whose text was extracted
   * has a registered document of its name.
   */
  ghost predicate Mirrors(documents: map<string, DocRecord>, current: seq<UploadedFile>)
  {
    (forall d :: d in documents ==> documents[d].fileName in CurrentNames(current)) &&
    (forall f :: f in current && f.ocr.Some? ==> exists d :: d in documents && documents[d].fileName == BaseName(f.name))
  }

  /** After the removals and additions of the handler, the registry mirrors the widget. */
  lemma Synced(current: seq<UploadedFile>, s: Removal, documents: map<string, DocRecord>, order: seq<string>,
               positions: map<string, nat>)
    requires RegistryConsistent(s)
    requires var existing := ExistingFileNames(s.documents, s.order);
      var r := RemoveNamed(s, FilesToRemove(existing, CurrentNames(current)));
      Grown(r.documents, r.order, r.positions, documents, order, positions, Processed(FilesToAdd(current, existing)))
    ensures Mirrors(documents, current)
  {
    var existing := ExistingFileNames(s.documents, s.order);
    var names := CurrentNames(current);
    var toRemove := FilesToRemove(existing, names);
    var toAdd := FilesToAdd(current, existing);
    var r := RemoveNamed(s, toRemove);
    ExistingCovers(s);
    ExistingNamed(s);
    ProcessedInWidget(current, existing);
    CurrentNamed(current);
    RemoveNamedRegistry(s, toRemove);
    SyncedSoundFrom(names, existing, toRemove, Processed(toAdd), s, r, documents, order, positions);
    SyncedCompleteFrom(current, names, existing, toRemove, toAdd, Processed(toAdd), s, r, documents, order, positions);
  }

  // ---------------------------------------------------------------------------
  // The handler
  // ---------------------------------------------------------------------------

  /**
   * The first half of `upload_and_process`: the removal loop on the registry,
   * then the tombstones in both ledgers when there is a ledger.
   */
  method RemovePhase(st: AppState, toRemove: seq<string>) returns (removed: seq<string>, slots: seq<Option<nat>>)
    requires st.Valid()
    modifies st`documents, st`documentOrder, st`documentPositions, st`ledger, st`ledgerShow
    ensures st.Valid()
    ensures var r := RemoveNamed(StartRemoval(old(st.documents), old(st.documentOrder), old(st.documentPositions)), toRemove);
      Holds(st, r) && removed == r.removed && slots == r.slots
    ensures old(st.ledger).None? ==> st.ledger.None?
    ensures old(st.ledger).Some? ==> st.ledger == Some(Tombstone(old(st.ledger).value, removed, slots, DeletionTurn, NoticeTurn))
    ensures Tombstoned(old(st.ledger), st.ledger, removed, slots)
  {
    ghost var s0 := StartRemoval(st.documents, st.documentOrder, st.documentPositions);
    removed, slots := RemoveDocuments(st, toRemove);
    RemoveNamedRegistry(s0, toRemove);
    RemovalKeepsLedger(s0, toRemove, st.ledger, st.ledgerShow);
    TombstoneLedgers(st, removed, slots);
  }

  /**
   * The ledger after the removals begins with the old ledger tombstoned:
   * every removed document's slot overwritten and one notice per removal.
   */
  ghost predicate Tombstoned(ledger0: Option<seq<Turn>>, ledger: Option<seq<Turn>>, removed: seq<string>, slots: seq<Option<nat>>)
  {
    ledger0.Some? ==>
      ledger.Some? && |slots| == |removed| && |ledger0.value| + |removed| <= |ledger.value| &&
      ledger.value[..|ledger0.value| + |removed|] == Tombstone(ledger0.value, removed, slots, DeletionTurn, NoticeTurn)
  }

  /** Turns appended after the tombstones leave them in place. */
  lemma TombstonedThenGrown(ledger0: Option<seq<Turn>>, ledger1: Option<seq<Turn>>, ledger2: Option<seq<Turn>>,
                            removed: seq<string>, slots: seq<Option<nat>>, added: nat)
    requires Tombstoned(ledger0, ledger1, removed, slots)
    requires ledger1.Some? ==>
      ledger2.Some? && |ledger2.value| == |ledger1.value| + added && ledger2.value[..|ledger1.value|] == ledger1.value
    ensures Tombstoned(ledger0, ledger2, removed, slots)
  {
    if ledger0.Some? {
      var n := |ledger0.value| + |removed|;
      assert ledger2.value[..n] == ledger2.value[..|ledger1.value|][..n];
    }
  }

  /** What a reconciliation reports: the removed names, their ledger slots, the names added, the failures. */
  datatype SyncReport = SyncReport(removed: seq<string>, slots: seq<Option<nat>>, processed: seq<string>, failed: seq<string>)

  /**
   * The report a reconciliation of the registry with the uploaded files
   * gives: the registered names missing from the upload are removed, in
   * registry order, and the new files are registered or fail.
   */
  function PlanSync(documents: map<string, DocRecord>, order: seq<string>, positions: map<string, nat>,
                    current: seq<UploadedFile>): SyncReport
    requires forall d :: d in order ==> d in documents
  {
    var toAdd := FilesToAdd(current, ExistingFileNames(documents, order));
    var r := RemovalOf(documents, order, positions, current);
    SyncReport(r.removed, r.slots, Processed(toAdd), Failed(toAdd))
  }

  /** The removal loop of a reconciliation: every registered name missing from the upload, in registry order. */
  function RemovalOf(documents: map<string, DocRecord>, order: seq<string>, positions: map<string, nat>,
                     current: seq<UploadedFile>): Removal
    requires forall d :: d in order ==> d in documents
  {
    RemoveNamed(StartRemoval(documents, order, positions), FilesToRemove(ExistingFileNames(documents, order), CurrentNames(current)))
  }

  /** The ledger right after the removals: the old one tombstoned, or still none. */
  function Retombstoned(ledger0: Option<seq<Turn>>, removed: seq<string>, slots: seq<Option<nat>>): Option<seq<Turn>>
    requires |slots| == |removed|
  {
    if ledger0.Some? then Some(Tombstone(ledger0.value, removed, slots, DeletionTurn, NoticeTurn)) else None
  }

  /**
   * The registry half of `upload_and_process`: the files that left the widget
   * are removed and tombstoned, then the new files are registered.
   */
  method SyncRegistry(st: AppState, current: seq<UploadedFile>)
    returns (removed: seq<string>, slots: seq<Option<nat>>, processed: seq<string>, failed: seq<string>)
    requires st.Valid()
    modifies st`documents, st`documentOrder, st`documentPositions, st`ledger, st`ledgerShow
    ensures st.Valid()
    ensures Mirrors(st.documents, current)
    ensures SyncReport(removed, slots, processed, failed) ==
            PlanSync(old(st.documents), old(st.documentOrder), old(st.documentPositions), current)
    ensures old(st.ledger).None? ==> st.ledger.None?
    ensures Tombstoned(old(st.ledger), st.ledger, removed, slots)
    ensures var r := RemovalOf(old(st.documents), old(st.documentOrder), old(st.documentPositions), current);
      |slots| == |removed| &&
      Grown(r.documents, r.order, r.positions, st.documents, st.documentOrder, st.documentPositions, processed) &&
      LedgerGrown(r.positions, Retombstoned(old(st.ledger), removed, slots),
                  st.documentPositions, st.ledger, st.chatPositionCounter, |processed|)
  {
    var names := CurrentNames(current);
    var existing := ExistingFileNames(st.documents, st.documentOrder);
    var toRemove := FilesToRemove(existing, names);
    var toAdd := FilesToAdd(current, existing);
    ghost var s0 := StartRemoval(st.documents, st.documentOrder, st.documentPositions);
    removed, slots := RemovePhase(st, toRemove);
    ghost var ledger1 := st.ledger;
    processed, failed := AddDocuments(st, toAdd);
    Synced(current, s0, st.documents, st.documentOrder, st.documentPositions);
    TombstonedThenGrown(old(st.ledger), ledger1, st.ledger, removed, slots, |processed|);
  }

  /** Both ledgers, the position map and the counter are replaced by freshly built ones. */
  method InstallLedger(st: AppState, messages: seq<Turn>, messagesShow: seq<Turn>, positions: map<string, nat>, counter: nat)
    requires st.VideosValid()
    requires DocsConsistent(st.documents, st.documentOrder, positions)
    requires LedgerConsistent(Some(messages), Some(messagesShow), positions)
    modifies st`documentPositions, st`chatPositionCounter, st`ledger, st`ledgerShow
    ensures st.Valid()
    ensures st.ledger == Some(messages) && st.ledgerShow == Some(messagesShow)
    ensures st.documentPositions == positions && st.chatPositionCounter == counter
  {
    st.ledger, st.ledgerShow := Some(messages), Some(messagesShow);
    st.documentPositions, st.chatPositionCounter := positions, counter;
  }

  /**
   * The second half of `upload_and_process`: the status report in the
   * transcript, the structured export, and the ledger built from scratch when
   * there is none yet and there are documents.
   */
  method FinishUpload(st: AppState, chat: Option<seq<ChatEntry>>, processed: seq<string>, removed: seq<string>,
                      failed: seq<string>) returns (chatOut: seq<ChatEntry>)
    requires st.Valid()
    modifies st`documentPositions, st`chatPositionCounter, st`ledger, st`ledgerShow, st`structuredDocsCache
    ensures st.Valid()
    ensures st.documents == old(st.documents) && st.documentOrder == old(st.documentOrder)
    ensures chatOut == OrEmpty(chat) + UploadStatus(processed, removed, failed, |st.documents|)
    ensures st.structuredDocsCache == DocsInfo(st.documents, st.documentOrder)
    ensures old(st.ledger).None? && |st.documents| > 0 ==>
      st.ledger == Some(BuiltLedger(st.documents, st.documentOrder, false)) &&
      st.ledgerShow == Some(BuiltLedger(st.documents, st.documentOrder, true)) &&
      st.documentPositions == Reposition(old(st.documentPositions), st.documentOrder) &&
      st.chatPositionCounter == |st.documentOrder| + 2
    ensures old(st.ledger).Some? || |st.documents| == 0 ==>
      st.ledger == old(st.ledger) && st.ledgerShow == old(st.ledgerShow) &&
      st.documentPositions == old(st.documentPositions) && st.chatPositionCounter == old(st.chatPositionCounter)
  {
    var documents, order := st.documents, st.documentOrder;
    chatOut := OrEmpty(chat) + UploadStatus(processed, removed, failed, |documents|);
    if |documents| > 0 && st.ledger.None? {
      var messages, messagesShow, positions, counter :=
        CreateChatMessagesForLlm(documents, order, st.documentPositions, st.chatPositionCounter);
      BuiltLedgerConsistent(documents, order, st.documentPositions);
      InstallLedger(st, messages, messagesShow, positions, counter);
    }
    st.structuredDocsCache := SaveDocsStructuredInfo(documents, order, st.structuredDocsCache);
  }

  /**
   * `upload_and_process`: reconcile the registry with the widget's files,
   * tombstone the removed documents in both ledgers, register the new files,
   * report in the transcript, build the ledger if there is none yet and there
   * are documents, and refresh the structured export. The media viewer it
   * returns is interface output and not modelled.
   */
  method UploadAndProcess(st: AppState, files: DocUploads, chat: Option<seq<ChatEntry>>) returns (chatOut: seq<ChatEntry>)
    requires st.Valid()
    modifies st`documents, st`documentOrder, st`documentPositions, st`chatPositionCounter
    modifies st`ledger, st`ledgerShow, st`structuredDocsCache
    ensures st.Valid()
    ensures Mirrors(st.documents, CurrentFiles(files))
    ensures var p := PlanSync(old(st.documents), old(st.documentOrder), old(st.documentPositions), CurrentFiles(files));
      chatOut == OrEmpty(chat) + UploadStatus(p.processed, p.removed, p.failed, |st.documents|) &&
      Tombstoned(old(st.ledger), st.ledger, p.removed, p.slots)
    ensures old(st.ledger).None? && |st.documents| > 0 ==>
      st.ledger == Some(BuiltLedger(st.documents, st.documentOrder, false)) &&
      st.ledgerShow == Some(BuiltLedger(st.documents, st.documentOrder, true)) &&
      st.chatPositionCounter == |st.documentOrder| + 2
    ensures old(st.ledger).None? && |st.documents| == 0 ==>
      st.ledger.None? && st.chatPositionCounter == old(st.chatPositionCounter)
    ensures old(st.ledger).Some? ==> st.chatPositionCounter == old(st.chatPositionCounter)
    ensures st.structuredDocsCache == DocsInfo(st.documents, st.documentOrder)
    ensures var p := PlanSync(old(st.documents), old(st.documentOrder), old(st.documentPositions), CurrentFiles(files));
      var r := RemovalOf(old(st.documents), old(st.documentOrder), old(st.documentPositions), CurrentFiles(files));
      |p.slots| == |p.removed| &&
      (old(st.ledger).Some? || |st.documents| == 0 ==>
        Grown(r.documents, r.order, r.positions, st.documents, st.documentOrder, st.documentPositions, p.processed) &&
        LedgerGrown(r.positions, Retombstoned(old(st.ledger), p.removed, p.slots),
                    st.documentPositions, st.ledger, st.chatPositionCounter, |p.processed|)) &&
      (old(st.ledger).None? && |st.documents| > 0 ==>
        exists positions :: Grown(r.documents, r.order, r.positions, st.documents, st.documentOrder, positions, p.processed) &&
          st.documentPositions == Reposition(positions, st.documentOrder))
  {
    var removed, slots, processed, failed := SyncRegistry(st, CurrentFiles(files));
    ghost var ledger1, positions1 := st.ledger, st.documentPositions;
    chatOut := FinishUpload(st, chat, processed, removed, failed);
    assert old(st.ledger).Some? ==> st.ledger == ledger1;
    ghost var r := RemovalOf(old(st.documents), old(st.documentOrder), old(st.documentPositions), CurrentFiles(files));
    assert old(st.ledger).None? && |st.documents| > 0 ==>
      Grown(r.documents, r.order, r.positions, st.documents, st.documentOrder, positions1, processed) &&
      st.documentPositions == Reposition(positions1, st.documentOrder);
  }
}
