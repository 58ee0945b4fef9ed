/**
 * The document preparation of the retrieval pipeline (`rag/data_processor.py`):
 * the split of a text file into pages at `<n>` tags, the grouping of the pages
 * into mini-documents of three, and the page attribution of the chunks the
 * text splitter produces. The splitter and the context generator are
 * parameters.
 */
module RagDataProcessor {
  import opened Common
  import opened Strings

  // ---------------------------------------------------------------------------
  // Page tags and the split
  // ---------------------------------------------------------------------------

  /** `\d`, on the ASCII digits. */
  predicate IsDigit(c: char)
  {
    '0' <= c <= '9'
  }

  /** A page tag: `<`, one or more digits, `>`. */
  predicate IsTag(t: string)
  {
    |t| >= 3 && t[0] == '<' && t[|t| - 1] == '>' && forall k :: 1 <= k < |t| - 1 ==> IsDigit(t[k])
  }

  /** The number of digits from `i` on. */
  function DigitRun(s: string, i: nat): (r: nat)
    requires i <= |s|
    ensures i + r <= |s|
    decreases |s| - i
  {
    if i < |s| && IsDigit(s[i]) then 1 + DigitRun(s, i + 1) else 0
  }

  /** The run is all digits and ends at the end of the text or at a non-digit. */
  lemma {:induction false} DigitRunSpec(s: string, i: nat)
    requires i <= |s|
    ensures forall k :: i <= k < i + DigitRun(s, i) ==> IsDigit(s[k])
    ensures i + DigitRun(s, i) == |s| || !IsDigit(s[i + DigitRun(s, i)])
    decreases |s| - i
  {
    if i < |s| && IsDigit(s[i]) {
      DigitRunSpec(s, i + 1);
    }
  }

  /** The length of the tag `<\d+>` matches at `i`, or 0 when none starts there. */
  function TagLen(s: string, i: nat): (r: nat)
    requires i <= |s|
    ensures i + r <= |s|
  {
    if i < |s| && s[i] == '<' then
      var d := DigitRun(s, i + 1);
      if d > 0 && i + 1 + d < |s| && s[i + 1 + d] == '>' then d + 2 else 0
    else 0
  }

  /** What `TagLen` finds is a page tag. */
  lemma TagLenSound(s: string, i: nat)
    requires i <= |s|
    ensures TagLen(s, i) > 0 ==> IsTag(s[i..i + TagLen(s, i)])
  {
    if TagLen(s, i) > 0 {
      DigitRunSpec(s, i + 1);
      var t := s[i..i + TagLen(s, i)];
      forall k | 1 <= k < |t| - 1 ensures IsDigit(t[k]) {
        assert t[k] == s[i + k];
      }
    }
  }

  /** A tag starting at `i` is the one `TagLen` finds: the match at a position is unique. */
  lemma TagLenComplete(s: string, i: nat, j: nat)
    requires i < j <= |s| && IsTag(s[i..j])
    ensures TagLen(s, i) == j - i
  {
    var t := s[i..j];
    DigitRunSpec(s, i + 1);
    assert s[i] == t[0];
    forall k | i + 1 <= k < j - 1 ensures IsDigit(s[k]) {
      assert s[k] == t[k - i];
    }
    assert s[j - 1] == t[|t| - 1];
  }

  /** The pieces between the tags and the tags themselves, in order. */
  datatype Split = Split(pieces: seq<string>, tags: seq<string>)

  /** `re.split(r'<\d+>', s)`, scanning from `i` with the current piece starting at `start`. */
  function SplitFrom(s: string, start: nat, i: nat): Split
    requires start <= i <= |s|
    decreases |s| - i
  {
    if i == |s| then Split([s[start..]], [])
    else
      var t := TagLen(s, i);
      if t > 0 then
        var rest := SplitFrom(s, i + t, i + t);
        Split([s[start..i]] + rest.pieces, [s[i..i + t]] + rest.tags)
      else SplitFrom(s, start, i + 1)
  }

  function SplitTags(s: string): Split
  {
    SplitFrom(s, 0, 0)
  }

  /** The pieces with the tags put back between them. */
  function Interleave(pieces: seq<string>, tags: seq<string>): string
    requires |pieces| == |tags| + 1
  {
    if tags == [] then pieces[0] else pieces[0] + tags[0] + Interleave(pieces[1..], tags[1..])
  }

  /** No tag starts anywhere in `p`. */
  predicate TagFree(p: string)
  {
    forall j :: 0 <= j <= |p| ==> TagLen(p, j) == 0
  }

  /** Every tag the split removes is a page tag. */
  lemma {:induction false} SplitFromTags(s: string, start: nat, i: nat)
    requires start <= i <= |s|
    ensures forall k :: 0 <= k < |SplitFrom(s, start, i).tags| ==> IsTag(SplitFrom(s, start, i).tags[k])
    decreases |s| - i
  {
    if i < |s| {
      var t := TagLen(s, i);
      TagLenSound(s, i);
      if t > 0 {
        SplitFromTags(s, i + t, i + t);
        var rest := SplitFrom(s, i + t, i + t);
        var r := SplitFrom(s, start, i);
        assert r.tags == [s[i..i + t]] + rest.tags;
        forall k | 0 <= k < |r.tags| ensures IsTag(r.tags[k]) {
          if k > 0 {
            assert r.tags[k] == rest.tags[k - 1];
          }
        }
      } else {
        SplitFromTags(s, start, i + 1);
        assert SplitFrom(s, start, i) == SplitFrom(s, start, i + 1);
      }
    }
  }

  /** One step of the scan: at a tag the piece is cut, elsewhere the scan moves on. */
  lemma SplitFromStep(s: string, start: nat, i: nat)
    requires start <= i < |s|
    ensures var t := TagLen(s, i);
      (t > 0 ==>
         SplitFrom(s, start, i) ==
         Split([s[start..i]] + SplitFrom(s, i + t, i + t).pieces, [s[i..i + t]] + SplitFrom(s, i + t, i + t).tags)) &&
      (t == 0 ==> SplitFrom(s, start, i) == SplitFrom(s, start, i + 1))
  {
  }

  /** The pieces and tags of `sp`, interleaved, give `text`. */
  predicate Rebuilds(sp: Split, text: string)
  {
    |sp.pieces| == |sp.tags| + 1 && Interleave(sp.pieces, sp.tags) == text
  }

  /** Cutting the piece before the tag at `i` onto a split of the text after the tag rebuilds the text from `start`. */
  lemma RebuildsCut(s: string, start: nat, i: nat, t: nat, rest: Split)
    requires start <= i && i + t <= |s|
    requires Rebuilds(rest, s[i + t..])
    ensures Rebuilds(Split([s[start..i]] + rest.pieces, [s[i..i + t]] + rest.tags), s[start..])
  {
    var pieces, tags := [s[start..i]] + rest.pieces, [s[i..i + t]] + rest.tags;
    assert pieces[1..] == rest.pieces && tags[1..] == rest.tags;
    assert s[start..] == s[start..i] + s[i..i + t] + s[i + t..];
  }

  /** The split loses nothing: one more piece than tags, and the pieces with the tags between them give the text back. */
  lemma {:induction false} SplitFromRebuild(s: string, start: nat, i: nat)
    requires start <= i <= |s|
    ensures Rebuilds(SplitFrom(s, start, i), s[start..])
    decreases |s| - i
  {
    if i < |s| {
      var t := TagLen(s, i);
      if t > 0 {
        SplitFromRebuild(s, i + t, i + t);
        RebuildsCut(s, start, i, t, SplitFrom(s, i + t, i + t));
        SplitFromStep(s, start, i);
      } else {
        SplitFromRebuild(s, start, i + 1);
        RebuildsSame(SplitFrom(s, start, i + 1), SplitFrom(s, start, i), s[start..]);
      }
    } else {
      RebuildsSame(Split([s[start..]], []), SplitFrom(s, start, i), s[start..]);
    }
  }

  lemma RebuildsSame(a: Split, b: Split, text: string)
    requires Rebuilds(a, text) && a == b
    ensures Rebuilds(b, text)
  {
  }

  /** No tag is left inside a piece: the scan passed over every position of it without a match. */
  lemma {:induction false} SplitFromTagFree(s: string, start: nat, i: nat)
    requires start <= i <= |s|
    requires forall p :: start <= p < i ==> TagLen(s, p) == 0
    ensures forall k :: 0 <= k < |SplitFrom(s, start, i).pieces| ==> TagFree(SplitFrom(s, start, i).pieces[k])
    decreases |s| - i
  {
    if i == |s| {
      PieceTagFree(s, start, i);
      assert SplitFrom(s, start, i) == Split([s[start..]], []);
      assert s[start..] == s[start..i];
    } else {
      var t := TagLen(s, i);
      if t > 0 {
        SplitFromTagFree(s, i + t, i + t);
        PieceTagFree(s, start, i);
        var rest := SplitFrom(s, i + t, i + t);
        var r := SplitFrom(s, start, i);
        assert r.pieces == [s[start..i]] + rest.pieces;
        forall k | 0 <= k < |r.pieces| ensures TagFree(r.pieces[k]) {
          if k > 0 {
            assert r.pieces[k] == rest.pieces[k - 1];
          }
        }
      } else {
        SplitFromTagFree(s, start, i + 1);
        assert SplitFrom(s, start, i) == SplitFrom(s, start, i + 1);
      }
    }
  }

  /** A piece cut where the scan stopped holds no tag, since the scan found none in it. */
  lemma PieceTagFree(s: string, start: nat, i: nat)
    requires start <= i <= |s|
    requires forall p :: start <= p < i ==> TagLen(s, p) == 0
    ensures TagFree(s[start..i])
  {
    var piece := s[start..i];
    forall j | 0 <= j <= |piece| ensures TagLen(piece, j) == 0 {
      var t := TagLen(piece, j);
      TagLenSound(piece, j);
      if t > 0 {
        assert IsTag(piece[j..j + t]);
        var x, y := piece[j..j + t], s[start + j..start + j + t];
        forall q | 0 <= q < t ensures x[q] == y[q] {
          assert piece[j + q] == s[start + j + q];
        }
        assert x == y;
        TagLenComplete(s, start + j, start + j + t);
        assert false;
      }
    }
  }

  /** `re.split` on the whole text: the pieces between the tags, none holding a tag, rebuild the text. */
  lemma SplitTagsSpec(s: string)
    ensures var r := SplitTags(s);
      |r.pieces| == |r.tags| + 1 && Interleave(r.pieces, r.tags) == s &&
      (forall k :: 0 <= k < |r.tags| ==> IsTag(r.tags[k])) &&
      (forall k :: 0 <= k < |r.pieces| ==> TagFree(r.pieces[k]))
  {
    SplitFromTags(s, 0, 0);
    SplitFromRebuild(s, 0, 0);
    SplitFromTagFree(s, 0, 0);
  }

  // ---------------------------------------------------------------------------
  // Pages
  // ---------------------------------------------------------------------------

  /** `parse_document` on the file's text: page `i` is the stripped `i`-th piece, when not empty. */
  function ParseDocument(content: string): (pages: map<nat, string>)
    ensures var pieces := SplitTags(content).pieces;
      forall i: nat :: i in pages <==> i < |pieces| && Strip(pieces[i]) != []
  {
    var pieces := SplitTags(content).pieces;
    map i: nat | i < |pieces| && Strip(pieces[i]) != [] :: Strip(pieces[i])
  }

  /** The keys of `pages` below `n`, in increasing order. */
  function SortedKeys(pages: map<nat, string>, n: nat): seq<nat>
  {
    if n == 0 then [] else SortedKeys(pages, n - 1) + (if n - 1 in pages then [n - 1] else [])
  }

  /** `keys` lists the keys of `pages` in increasing order: it is `sorted(pages.keys())`. */
  ghost predicate SortedListing(keys: seq<nat>, pages: map<nat, string>)
  {
    (forall a, b :: 0 <= a < b < |keys| ==> keys[a] < keys[b]) &&
    (forall k :: k in keys <==> k in pages)
  }

  /** The listing holds the keys of `pages` below `n` and no other number. */
  lemma {:induction false} SortedKeysMembers(pages: map<nat, string>, n: nat)
    ensures forall k: nat :: k in SortedKeys(pages, n) <==> k < n && k in pages
  {
    if n > 0 {
      SortedKeysMembers(pages, n - 1);
      var r0 := SortedKeys(pages, n - 1);
      var r := SortedKeys(pages, n);
      forall k: nat ensures k in r <==> k < n && k in pages {
        if n - 1 in pages {
          assert r == r0 + [n - 1];
          assert k in r <==> k in r0 || k == n - 1;
        } else {
          assert r == r0;
        }
      }
    }
  }

  /** The listing increases strictly and stays below `n`. */
  lemma {:induction false} SortedKeysIncrease(pages: map<nat, string>, n: nat)
    ensures forall a, b :: 0 <= a < b < |SortedKeys(pages, n)| ==> SortedKeys(pages, n)[a] < SortedKeys(pages, n)[b]
    ensures forall a :: 0 <= a < |SortedKeys(pages, n)| ==> SortedKeys(pages, n)[a] < n
  {
    if n > 0 {
      SortedKeysIncrease(pages, n - 1);
      var r0 := SortedKeys(pages, n - 1);
      var r := SortedKeys(pages, n);
      assert forall a :: 0 <= a < |r0| ==> r[a] == r0[a];
    }
  }

  /** Once `n` bounds every key, the listing is `sorted(pages.keys())`. */
  lemma SortedKeysListing(pages: map<nat, string>, n: nat)
    requires forall k :: k in pages ==> k < n
    ensures SortedListing(SortedKeys(pages, n), pages)
  {
    SortedKeysIncrease(pages, n);
    SortedKeysMembers(pages, n);
  }

  /** The parsed pages are numbered by their piece index, so the piece count bounds them. */
  lemma ParsedKeys(content: string)
    ensures var pieces := SplitTags(content).pieces;
      SortedListing(SortedKeys(ParseDocument(content), |pieces|), ParseDocument(content))
  {
    SortedKeysListing(ParseDocument(content), |SplitTags(content).pieces|);
  }

  /** The sorted listing of a key set is unique. */
  lemma ListingEmpty(a: seq<nat>, pages: map<nat, string>)
    requires SortedListing(a, pages)
    ensures a == [] <==> pages == map[]
  {
    if a != [] {
      assert a[0] in pages;
    }
    if pages != map[] {
      var k :| k in pages;
      assert k in a;
    }
  }

  lemma {:induction false} SortedListingUnique(a: seq<nat>, b: seq<nat>, pages: map<nat, string>)
    requires SortedListing(a, pages) && SortedListing(b, pages)
    ensures a == b
    decreases |a|
  {
    ListingEmpty(a, pages);
    ListingEmpty(b, pages);
    if a != [] {
      assert a[0] in b && b[0] in a;
      var m :| 0 <= m < |b| && b[m] == a[0];
      var m' :| 0 <= m' < |a| && a[m'] == b[0];
      assert a[0] <= a[m'] && b[0] <= b[m];
      var rest := pages - {a[0]};
      forall k ensures k in a[1..] <==> k in rest {
        if k in a[1..] {
          var j :| 1 <= j < |a| && a[j] == k;
        }
      }
      forall k ensures k in b[1..] <==> k in rest {
        if k in b[1..] {
          var j :| 1 <= j < |b| && b[j] == k;
        }
      }
      SortedListingUnique(a[1..], b[1..], rest);
      assert a == [a[0]] + a[1..] && b == [b[0]] + b[1..];
    }
  }

  // ---------------------------------------------------------------------------
  // Mini-documents
  // ---------------------------------------------------------------------------

  const PageSeparator: string := "\n\n---\n\n"

  datatype MiniDoc = MiniDoc(content: string, startPage: nat, endPage: nat)

  /** The texts of the pages `ks`, in order. */
  function PagesText(pages: map<nat, string>, ks: seq<nat>): (r: seq<string>)
    requires forall k :: k in ks ==> k in pages
    ensures |r| == |ks| && forall j :: 0 <= j < |ks| ==> r[j] == pages[ks[j]]
  {
    seq(|ks|, j requires 0 <= j < |ks| => pages[ks[j]])
  }

  /** The groups of three keys from `i` on; the last one may be shorter. */
  function GroupsFrom(keys: seq<nat>, i: nat): seq<seq<nat>>
    decreases |keys| - i
  {
    if i >= |keys| then [] else [keys[i..Min(i + 3, |keys|)]] + GroupsFrom(keys, i + 3)
  }

  function Flatten(gs: seq<seq<nat>>): seq<nat>
  {
    if gs == [] then [] else gs[0] + Flatten(gs[1..])
  }

  /** The mini-document of a group of pages: the pages joined, from the first page to the last. */
  function DocOf(pages: map<nat, string>, ks: seq<nat>): MiniDoc
    requires ks != [] && KeysIn(ks, pages)
  {
    MiniDoc(Join(PageSeparator, PagesText(pages, ks)), ks[0], ks[|ks| - 1])
  }

  /** Every key of `keys` has a page. */
  ghost predicate KeysIn(keys: seq<nat>, pages: map<nat, string>)
  {
    forall k :: k in keys ==> k in pages
  }

  /** Every group is a non-empty run of keys of `pages`. */
  ghost predicate GroupsIn(gs: seq<seq<nat>>, pages: map<nat, string>)
  {
    forall j :: 0 <= j < |gs| ==> gs[j] != [] && KeysIn(gs[j], pages)
  }

  /** The mini-documents of a sequence of groups. */
  function DocsOf(pages: map<nat, string>, gs: seq<seq<nat>>): seq<MiniDoc>
    requires GroupsIn(gs, pages)
  {
    if gs == [] then [] else [DocOf(pages, gs[0])] + DocsOf(pages, gs[1..])
  }

  /** Groups hold one to three keys of `keys`. */
  lemma {:induction false} GroupsFromIn(keys: seq<nat>, pages: map<nat, string>, i: nat)
    requires KeysIn(keys, pages)
    ensures GroupsIn(GroupsFrom(keys, i), pages)
    ensures forall j :: 0 <= j < |GroupsFrom(keys, i)| ==> 1 <= |GroupsFrom(keys, i)[j]| <= 3
    decreases |keys| - i
  {
    if i < |keys| {
      GroupsFromIn(keys, pages, i + 3);
      var g := keys[i..Min(i + 3, |keys|)];
      forall k | k in g ensures k in pages {
        assert k in keys;
      }
      var gs := GroupsFrom(keys, i);
      assert gs == [g] + GroupsFrom(keys, i + 3);
      forall j | 0 <= j < |gs| ensures gs[j] != [] && KeysIn(gs[j], pages) && |gs[j]| <= 3 {
        if j > 0 {
          assert gs[j] == GroupsFrom(keys, i + 3)[j - 1];
        }
      }
    }
  }

  /**
   * The groups cover the keys from `i` on, each key once and in order, and
   * there are as many as a stride of three gives.
   */
  lemma {:induction false} GroupsFromCover(keys: seq<nat>, i: nat)
    requires i <= |keys|
    ensures Flatten(GroupsFrom(keys, i)) == keys[i..]
    ensures |GroupsFrom(keys, i)| == (|keys| - i + 2) / 3
    decreases |keys| - i
  {
    if i < |keys| {
      if i + 3 <= |keys| {
        GroupsFromCover(keys, i + 3);
        assert keys[i..] == keys[i..i + 3] + keys[i + 3..];
      } else {
        assert GroupsFrom(keys, i + 3) == [];
      }
    }
  }

  /**
   * One step of `create_mini_documents`: the mini-document of the group at
   * `i`, from its first page to its last, is the next of the mini-documents
   * from `i` on.
   */
  lemma DocsOfStep(pages: map<nat, string>, keys: seq<nat>, i: nat, done: seq<MiniDoc>, all: seq<MiniDoc>)
    requires KeysIn(keys, pages) && i < |keys|
    requires GroupsIn(GroupsFrom(keys, i), pages) && all == done + DocsOf(pages, GroupsFrom(keys, i))
    ensures GroupsIn(GroupsFrom(keys, i + 3), pages)
    ensures var g := keys[i..Min(i + 3, |keys|)];
      KeysIn(g, pages) &&
      all == done + [MiniDoc(Join(PageSeparator, PagesText(pages, g)), keys[i], keys[Min(i + 2, |keys| - 1)])] +
        DocsOf(pages, GroupsFrom(keys, i + 3))
  {
    GroupsFromIn(keys, pages, i + 3);
    var gs := GroupsFrom(keys, i);
    var g := keys[i..Min(i + 3, |keys|)];
    assert gs[0] == g;
    assert gs[1..] == GroupsFrom(keys, i + 3);
    assert g[0] == keys[i] && g[|g| - 1] == keys[Min(i + 2, |keys| - 1)];
  }

  /** `create_mini_documents` on the pages and their sorted keys. */
  method CreateMiniDocuments(pages: map<nat, string>, keys: seq<nat>) returns (docs: seq<MiniDoc>)
    requires SortedListing(keys, pages)
    ensures GroupsIn(GroupsFrom(keys, 0), pages) && docs == DocsOf(pages, GroupsFrom(keys, 0))
  {
    GroupsFromIn(keys, pages, 0);
    ghost var all := DocsOf(pages, GroupsFrom(keys, 0));
    docs := [];
    var i := 0;
    while i < |keys|
      invariant GroupsIn(GroupsFrom(keys, i), pages)
      invariant all == docs + DocsOf(pages, GroupsFrom(keys, i))
      decreases |keys| - i
    {
      DocsOfStep(pages, keys, i, docs, all);
      var group := keys[i..Min(i + 3, |keys|)];
      var startPage := keys[i];
      var endPage := keys[Min(i + 2, |keys| - 1)];
      docs := docs + [MiniDoc(Join(PageSeparator, PagesText(pages, group)), startPage, endPage)];
      i := i + 3;
    }
  }

  /**
   * `create_mini_documents` yields ceil(n/3) mini-documents; the groups behind
   * them hold every page once, in order, and each mini-document joins its
   * group's pages with the separator and runs from its first page to its last.
   */
  lemma MiniDocsSpec(pages: map<nat, string>, keys: seq<nat>)
    requires SortedListing(keys, pages)
    ensures GroupsIn(GroupsFrom(keys, 0), pages)
    ensures |DocsOf(pages, GroupsFrom(keys, 0))| == |GroupsFrom(keys, 0)| == (|keys| + 2) / 3
    ensures Flatten(GroupsFrom(keys, 0)) == keys
    ensures forall j :: 0 <= j < |GroupsFrom(keys, 0)| ==>
      1 <= |GroupsFrom(keys, 0)[j]| <= 3 &&
      DocsOf(pages, GroupsFrom(keys, 0))[j].content == Join(PageSeparator, PagesText(pages, GroupsFrom(keys, 0)[j])) &&
      DocsOf(pages, GroupsFrom(keys, 0))[j].startPage == GroupsFrom(keys, 0)[j][0] &&
      DocsOf(pages, GroupsFrom(keys, 0))[j].endPage == GroupsFrom(keys, 0)[j][|GroupsFrom(keys, 0)[j]| - 1]
  {
    GroupsFromIn(keys, pages, 0);
    GroupsFromCover(keys, 0);
    DocsOfAt(pages, GroupsFrom(keys, 0));
  }

  lemma {:induction false} DocsOfAt(pages: map<nat, string>, gs: seq<seq<nat>>)
    requires GroupsIn(gs, pages)
    ensures |DocsOf(pages, gs)| == |gs|
    ensures forall j :: 0 <= j < |gs| ==> DocsOf(pages, gs)[j] == DocOf(pages, gs[j])
  {
    if gs != [] {
      assert forall j :: 0 <= j < |gs[1..]| ==> gs[1..][j] == gs[j + 1];
      DocsOfAt(pages, gs[1..]);
    }
  }

  // ---------------------------------------------------------------------------
  // Chunk attribution
  // ---------------------------------------------------------------------------

  const NoContext: string := "No context available."
  const ProbeLength: nat := 100

  /** A chunk of the splitter with the metadata `chunk_the_document` attaches. */
  datatype Chunk = Chunk(content: string, miniDocIndex: int, enrichedContext: string, sourcePage: nat, sourceFile: string)

  /** `chunk.page_content[:100].lower()`. */
  function Probe(chunk: string): string
  {
    Lower(chunk[..Min(ProbeLength, |chunk|)])
  }

  /** The first page, in key order, whose lower-cased text contains `probe`. */
  function FirstPageContaining(pages: map<nat, string>, keys: seq<nat>, probe: string): Option<nat>
    requires forall k :: k in keys ==> k in pages
  {
    if keys == [] then None
    else if Contains(Lower(pages[keys[0]]), probe) then Some(keys[0])
    else FirstPageContaining(pages, keys[1..], probe)
  }

  /** The found page holds the probe and no page before it does; none found means no page holds it. */
  lemma {:induction false} FirstPageContainingSpec(pages: map<nat, string>, keys: seq<nat>, probe: string)
    requires forall k :: k in keys ==> k in pages
    ensures var r := FirstPageContaining(pages, keys, probe);
      (r.None? ==> forall j :: 0 <= j < |keys| ==> !Contains(Lower(pages[keys[j]]), probe)) &&
      (r.Some? ==> exists i :: 0 <= i < |keys| && keys[i] == r.value && Contains(Lower(pages[r.value]), probe) &&
                     forall j :: 0 <= j < i ==> !Contains(Lower(pages[keys[j]]), probe))
  {
    if keys != [] && !Contains(Lower(pages[keys[0]]), probe) {
      FirstPageContainingSpec(pages, keys[1..], probe);
      var r := FirstPageContaining(pages, keys[1..], probe);
      if r.Some? {
        var i :| 0 <= i < |keys[1..]| && keys[1..][i] == r.value && Contains(Lower(pages[r.value]), probe) &&
          forall j :: 0 <= j < i ==> !Contains(Lower(pages[keys[1..][j]]), probe);
        assert keys[i + 1] == r.value;
        forall j | 0 <= j < i + 1 ensures !Contains(Lower(pages[keys[j]]), probe) {
          if j > 0 {
            assert keys[j] == keys[1..][j - 1];
          }
        }
      } else {
        forall j | 0 <= j < |keys| ensures !Contains(Lower(pages[keys[j]]), probe) {
          if j > 0 {
            assert keys[j] == keys[1..][j - 1];
          }
        }
      }
    }
  }

  /** The inner loop of `chunk_the_document`: the first page holding the probe, else page 1. */
  method SourcePage(pages: map<nat, string>, keys: seq<nat>, chunk: string) returns (page: nat)
    requires forall k :: k in keys ==> k in pages
    ensures var f := FirstPageContaining(pages, keys, Probe(chunk));
      page == if f.Some? then f.value else 1
  {
    var probe := Probe(chunk);
    page := 1;
    var i := 0;
    while i < |keys|
      invariant 0 <= i <= |keys|
      invariant FirstPageContaining(pages, keys, probe) == FirstPageContaining(pages, keys[i..], probe)
    {
      if Contains(Lower(pages[keys[i]]), probe) {
        page := keys[i];
        return;
      }
      assert keys[i..][1..] == keys[i + 1..];
      i := i + 1;
    }
  }

  /** `(chunk_page - 1) // 3`: Python's floor division, which Dafny's division matches for a positive divisor. */
  function MiniDocIndexAsWritten(page: nat): int
  {
    (page - 1) / 3
  }

  /** The position of `k` in `keys`. */
  function PositionIn(keys: seq<nat>, k: nat): (r: nat)
    requires k in keys
    ensures r < |keys| && keys[r] == k
  {
    if keys[0] == k then 0 else 1 + PositionIn(keys[1..], k)
  }

  /** The index of the mini-document holding page `page`: its position among the sorted keys, divided by three. */
  function MiniDocIndex(keys: seq<nat>, page: nat): nat
  {
    if page in keys then PositionIn(keys, page) / 3 else 0
  }

  /** The group at the index the page is given holds that page. */
  lemma MiniDocIndexHolds(keys: seq<nat>, page: nat)
    requires page in keys
    ensures MiniDocIndex(keys, page) < |GroupsFrom(keys, 0)|
    ensures page in GroupsFrom(keys, 0)[MiniDocIndex(keys, page)]
  {
    var p := PositionIn(keys, page);
    GroupsFromCover(keys, 0);
    GroupAt(keys, 0, p / 3);
    assert keys[3 * (p / 3)..Min(3 * (p / 3) + 3, |keys|)][p - 3 * (p / 3)] == page;
  }

  /** The `g`-th group from `i` is the run of keys from `i + 3g`. */
  lemma {:induction false} GroupAt(keys: seq<nat>, i: nat, g: nat)
    requires i + 3 * g < |keys|
    ensures g < |GroupsFrom(keys, i)| && GroupsFrom(keys, i)[g] == keys[i + 3 * g..Min(i + 3 * g + 3, |keys|)]
    decreases g
  {
    if g > 0 {
      GroupAt(keys, i + 3, g - 1);
    }
  }

  /** For pages numbered 1, 2, ..., n the two indices agree. */
  lemma MiniDocIndexConsecutive(keys: seq<nat>, page: nat)
    requires forall j :: 0 <= j < |keys| ==> keys[j] == j + 1
    requires page in keys
    ensures MiniDocIndex(keys, page) == MiniDocIndexAsWritten(page)
  {
    var p := PositionIn(keys, page);
    assert page == p + 1;
  }

  /**
   * With nothing before the first tag and page 2 blank, the keys are 1, 3
   * and 4 and form one mini-document, yet the formula as written sends
   * page 4 to mini-document 1, which does not exist.
   */
  lemma MiniDocIndexGap()
    ensures var keys: seq<nat> := [1, 3, 4];
      |GroupsFrom(keys, 0)| == 1 && 4 in GroupsFrom(keys, 0)[0] &&
      MiniDocIndexAsWritten(4) == 1 && MiniDocIndex(keys, 4) == 0
  {
    var keys: seq<nat> := [1, 3, 4];
    assert GroupsFrom(keys, 3) == [];
    assert keys[1..][1..] == [4];
    assert PositionIn(keys, 4) == 2;
  }

  /** The leading page 0 and a gap at page 4 both put `(page - 1) // 3` off the group that holds the page. */
  lemma MiniDocIndexLeadingPage()
    ensures var keys: seq<nat> := [0, 1, 2, 3];
      GroupsFrom(keys, 0) == [[0, 1, 2], [3]] &&
      MiniDocIndexAsWritten(0) == -1 && MiniDocIndexAsWritten(3) == 0 && MiniDocIndex(keys, 3) == 1
  {
    var keys: seq<nat> := [0, 1, 2, 3];
    assert GroupsFrom(keys, 6) == [];
    assert Min(6, 4) == 4 && keys[3..4] == [3];
    assert GroupsFrom(keys, 3) == [[3]];
    assert Min(3, 4) == 3 && keys[0..3] == [0, 1, 2];
    assert keys[1..][1..][1..] == [3];
    assert PositionIn(keys, 3) == 3;
  }

  /** `enriched_contexts.get(index, "No context available.")`. */
  function ContextOf(contexts: map<int, string>, index: int): string
  {
    if index in contexts then contexts[index] else NoContext
  }

  /**
   * The metadata `chunk_the_document` attaches to one chunk: the source
   * page, `(page - 1) // 3` as its mini-document, that index's context, the file.
   */
  function Annotate(pages: map<nat, string>, keys: seq<nat>, contexts: map<int, string>, chunk: string, fileName: string): Chunk
    requires forall k :: k in keys ==> k in pages
  {
    var f := FirstPageContaining(pages, keys, Probe(chunk));
    var page := if f.Some? then f.value else 1;
    var index := MiniDocIndexAsWritten(page);
    Chunk(chunk, index, ContextOf(contexts, index), page, fileName)
  }

  /** The attribution loop of `chunk_the_document` over the splitter's chunks. */
  method ChunkTheDocument(pages: map<nat, string>, keys: seq<nat>, contexts: map<int, string>, chunks: seq<string>,
                          fileName: string) returns (r: seq<Chunk>)
    requires SortedListing(keys, pages)
    ensures |r| == |chunks|
    ensures forall i :: 0 <= i < |chunks| ==> r[i] == Annotate(pages, keys, contexts, chunks[i], fileName)
  {
    r := [];
    var i := 0;
    while i < |chunks|
      invariant 0 <= i <= |chunks| && |r| == i
      invariant forall j :: 0 <= j < i ==> r[j] == Annotate(pages, keys, contexts, chunks[j], fileName)
    {
      var page := SourcePage(pages, keys, chunks[i]);
      var index := MiniDocIndexAsWritten(page);
      var context := if index in contexts then contexts[index] else NoContext;
      r := r + [Chunk(chunks[i], index, context, page, fileName)];
      i := i + 1;
    }
  }

  /**
   * A chunk found in some page is attributed to the first such page, a chunk
   * found nowhere to page 1; the index is the page's floor-third counted from
   * page 1 (so -1 for page 0), and the context is the one stored under that
   * index, or the fallback text.
   */
  lemma AnnotateSpec(pages: map<nat, string>, keys: seq<nat>, contexts: map<int, string>, chunk: string, fileName: string)
    requires SortedListing(keys, pages)
    ensures var c := Annotate(pages, keys, contexts, chunk, fileName);
      c.content == chunk && c.sourceFile == fileName &&
      3 * c.miniDocIndex <= c.sourcePage - 1 < 3 * c.miniDocIndex + 3 &&
      (c.miniDocIndex < 0 <==> c.sourcePage == 0) &&
      (c.miniDocIndex in contexts ==> c.enrichedContext == contexts[c.miniDocIndex]) &&
      (c.miniDocIndex !in contexts ==> c.enrichedContext == NoContext) &&
      ((exists j :: 0 <= j < |keys| && Contains(Lower(pages[keys[j]]), Probe(chunk))) ==>
         c.sourcePage in keys && Contains(Lower(pages[c.sourcePage]), Probe(chunk)) &&
         forall j :: 0 <= j < |keys| && keys[j] < c.sourcePage ==> !Contains(Lower(pages[keys[j]]), Probe(chunk))) &&
      ((forall j :: 0 <= j < |keys| ==> !Contains(Lower(pages[keys[j]]), Probe(chunk))) ==>
         c.sourcePage == 1 && c.miniDocIndex == 0)
  {
    FirstPageContainingSpec(pages, keys, Probe(chunk));
    FirstPageMinimal(pages, keys, Probe(chunk));
  }

  /** In a sorted listing, no page numbered below the found page holds the probe. */
  lemma FirstPageMinimal(pages: map<nat, string>, keys: seq<nat>, probe: string)
    requires SortedListing(keys, pages)
    ensures var f := FirstPageContaining(pages, keys, probe);
      f.Some? ==> forall j :: 0 <= j < |keys| && keys[j] < f.value ==> !Contains(Lower(pages[keys[j]]), probe)
  {
    FirstPageContainingSpec(pages, keys, probe);
    var f := FirstPageContaining(pages, keys, probe);
    if f.Some? {
      var i :| 0 <= i < |keys| && keys[i] == f.value && Contains(Lower(pages[f.value]), probe) &&
        forall j :: 0 <= j < i ==> !Contains(Lower(pages[keys[j]]), probe);
      forall j | 0 <= j < |keys| && keys[j] < f.value
        ensures !Contains(Lower(pages[keys[j]]), probe)
      {
        assert j < i;
      }
    }
  }

  /** The attribution with the corrected index: the group that holds the page. */
  function AnnotateCorrected(pages: map<nat, string>, keys: seq<nat>, contexts: map<int, string>, chunk: string,
                             fileName: string): Chunk
    requires forall k :: k in keys ==> k in pages
  {
    var f := FirstPageContaining(pages, keys, Probe(chunk));
    var page := if f.Some? then f.value else 1;
    var index := MiniDocIndex(keys, page);
    Chunk(chunk, index, ContextOf(contexts, index), page, fileName)
  }

  /**
   * With the corrected index, a chunk found in some page is attributed to
   * the first such page and to the mini-document that holds it.
   */
  lemma AnnotateCorrectedSpec(pages: map<nat, string>, keys: seq<nat>, contexts: map<int, string>, chunk: string,
                              fileName: string)
    requires SortedListing(keys, pages)
    ensures var c := AnnotateCorrected(pages, keys, contexts, chunk, fileName);
      c.content == chunk && c.sourceFile == fileName &&
      (c.miniDocIndex in contexts ==> c.enrichedContext == contexts[c.miniDocIndex]) &&
      (c.miniDocIndex !in contexts ==> c.enrichedContext == NoContext) &&
      ((exists j :: 0 <= j < |keys| && Contains(Lower(pages[keys[j]]), Probe(chunk))) ==>
         c.sourcePage in keys && Contains(Lower(pages[c.sourcePage]), Probe(chunk)) &&
         c.miniDocIndex < |GroupsFrom(keys, 0)| && c.sourcePage in GroupsFrom(keys, 0)[c.miniDocIndex] &&
         forall j :: 0 <= j < |keys| && keys[j] < c.sourcePage ==> !Contains(Lower(pages[keys[j]]), Probe(chunk))) &&
      ((forall j :: 0 <= j < |keys| ==> !Contains(Lower(pages[keys[j]]), Probe(chunk))) ==> c.sourcePage == 1)
  {
    FirstPageContainingSpec(pages, keys, Probe(chunk));
    FirstPageMinimal(pages, keys, Probe(chunk));
    var f := FirstPageContaining(pages, keys, Probe(chunk));
    if f.Some? {
      MiniDocIndexHolds(keys, f.value);
    }
  }

  /** For pages numbered 1, 2, ..., n the attribution as written is the corrected one. */
  lemma AnnotateAgrees(pages: map<nat, string>, keys: seq<nat>, contexts: map<int, string>, chunk: string, fileName: string)
    requires SortedListing(keys, pages)
    requires forall j :: 0 <= j < |keys| ==> keys[j] == j + 1
    ensures Annotate(pages, keys, contexts, chunk, fileName) == AnnotateCorrected(pages, keys, contexts, chunk, fileName)
  {
    FirstPageContainingSpec(pages, keys, Probe(chunk));
    var f := FirstPageContaining(pages, keys, Probe(chunk));
    if f.Some? {
      MiniDocIndexConsecutive(keys, f.value);
    } else if keys != [] {
      MiniDocIndexConsecutive(keys, 1);
    }
  }

  // ---------------------------------------------------------------------------
  // The pipeline for one file
  // ---------------------------------------------------------------------------

  /** `"\n\n".join(pages.values())`: the text handed to the splitter. */
  function FullText(pages: map<nat, string>, keys: seq<nat>): string
    requires forall k :: k in keys ==> k in pages
  {
    Join("\n\n", PagesText(pages, keys))
  }

  /**
   * `process_single_file` on the file's text: no pages give no chunks;
   * otherwise the splitter's chunks of the joined pages, each attributed,
   * with the contexts generated for the mini-documents.
   */
  method ProcessSingleFile(content: string, fileName: string,
                           enrich: seq<MiniDoc> -> map<int, string>, split: string -> seq<string>)
    returns (r: seq<Chunk>)
    ensures ParseDocument(content) == map[] ==> r == []
    ensures var pages := ParseDocument(content);
      var pieces := SplitTags(content).pieces;
      var keys := SortedKeys(pages, |pieces|);
      pages != map[] ==>
        SortedListing(keys, pages) && GroupsIn(GroupsFrom(keys, 0), pages) &&
        var chunks := split(FullText(pages, keys));
        var contexts := enrich(DocsOf(pages, GroupsFrom(keys, 0)));
        |r| == |chunks| && forall i :: 0 <= i < |chunks| ==> r[i] == Annotate(pages, keys, contexts, chunks[i], fileName)
  {
    var pages := ParseDocument(content);
    if pages == map[] {
      return [];
    }
    var pieces := SplitTags(content).pieces;
    var keys := SortedKeys(pages, |pieces|);
    ParsedKeys(content);
    var miniDocs := CreateMiniDocuments(pages, keys);
    var contexts := enrich(miniDocs);
    r := ChunkTheDocument(pages, keys, contexts, split(FullText(pages, keys)), fileName);
  }
}
