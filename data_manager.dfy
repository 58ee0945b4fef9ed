/**
 * The structured export of the document registry (`generate_docs_structured_info`)
 * and the cache rules of the two save functions. The root-level
 * data_manager.py carries the same generation code and the same document
 * cache rule, so one definition serves both files.
 */
module DataManager {
  import opened Common
  import opened Strings
  import opened Decimal
  import opened Ocr
  import opened Records

  /** `f"doc-{doc_index}-page-{page_index}-img-{k}"`. */
  function ImageTag(docIndex: nat, pageIndex: nat, k: nat): string
  {
    "doc-" + NatToString(docIndex) + "-page-" + NatToString(pageIndex) + "-img-" + NatToString(k)
  }

  /** The tag written into the markdown in place of the image reference. */
  function XmlTag(docIndex: nat, pageIndex: nat, k: nat): string
  {
    "<" + ImageTag(docIndex, pageIndex, k) + ">"
  }

  /** Reads `(doc, page, image)` back out of an image tag. */
  function ParseImageTag(tag: string): Option<(nat, nat, nat)>
  {
    var parts := Split(tag, '-');
    if |parts| == 6 && parts[0] == "doc" && parts[2] == "page" && parts[4] == "img" then
      match (ParseNat(parts[1]), ParseNat(parts[3]), ParseNat(parts[5]))
      case (Some(d), Some(p), Some(k)) => Some((d, p, k))
      case _ => None
    else None
  }

  /** Every image tag names its document, page and image unambiguously. */
  lemma ImageTagRoundTrip(docIndex: nat, pageIndex: nat, k: nat)
    ensures ParseImageTag(ImageTag(docIndex, pageIndex, k)) == Some((docIndex, pageIndex, k))
  {
    var d, p, i := NatToString(docIndex), NatToString(pageIndex), NatToString(k);
    NatToStringRoundTrip(docIndex);
    NatToStringRoundTrip(pageIndex);
    NatToStringRoundTrip(k);
    DigitsNoDash(d);
    DigitsNoDash(p);
    DigitsNoDash(i);
    var parts := ["doc", d, "page", p, "img", i];
    TagJoin(d, p, i);
    SplitJoin(parts, '-');
  }

  lemma DigitsNoDash(s: string)
    requires AllDigits(s)
    ensures '-' !in s
  {
  }

  lemma TagJoin(d: string, p: string, i: string)
    ensures Join("-", ["doc", d, "page", p, "img", i]) == "doc-" + d + "-page-" + p + "-img-" + i
  {
    var parts := ["doc", d, "page", p, "img", i];
    assert Join("-", parts[5..]) == i;
    assert Join("-", parts[4..]) == "img-" + i;
    assert Join("-", parts[3..]) == p + "-img-" + i;
    assert Join("-", parts[2..]) == "page-" + p + "-img-" + i;
    assert Join("-", parts[1..]) == d + "-page-" + p + "-img-" + i;
  }

  lemma ImageTagInjective(d1: nat, p1: nat, k1: nat, d2: nat, p2: nat, k2: nat)
    requires ImageTag(d1, p1, k1) == ImageTag(d2, p2, k2)
    ensures d1 == d2 && p1 == p2 && k1 == k2
  {
    ImageTagRoundTrip(d1, p1, k1);
    ImageTagRoundTrip(d2, p2, k2);
  }

  /** The page markdown after each entry's reference, in dict order, became the k-th tag. */
  function TaggedMarkdown(markdown: string, entries: seq<Entry>, docIndex: nat, pageIndex: nat): string
    decreases |entries|
  {
    if entries == [] then markdown
    else
      var n := |entries| - 1;
      Replace(TaggedMarkdown(markdown, entries[..n], docIndex, pageIndex), Placeholder(entries[n].name), XmlTag(docIndex, pageIndex, n))
  }

  /** `page_image_content`: image k, in dict order, with id k and its tag. */
  function PageImages(entries: seq<Entry>, docIndex: nat, pageIndex: nat): (r: seq<ImageInfo>)
    ensures |r| == |entries|
    ensures forall k :: 0 <= k < |entries| ==>
      r[k] == ImageInfo(k, ImageTag(docIndex, pageIndex, k), entries[k].base64)
  {
    if entries == [] then []
    else
      var n := |entries| - 1;
      PageImages(entries[..n], docIndex, pageIndex) + [ImageInfo(n, ImageTag(docIndex, pageIndex, n), entries[n].base64)]
  }

  function PageInfoOf(page: Page, docIndex: nat, pageIndex: nat): PageInfo
  {
    var entries := ImageDict(page.images);
    PageInfo(pageIndex, TaggedMarkdown(page.markdown, entries, docIndex, pageIndex), PageImages(entries, docIndex, pageIndex))
  }

  /** `document_content`: one entry per OCR page, numbered from 0. */
  function PagesInfo(pages: seq<Page>, docIndex: nat): (r: seq<PageInfo>)
    ensures |r| == |pages|
    ensures forall p :: 0 <= p < |pages| ==> r[p] == PageInfoOf(pages[p], docIndex, p)
  {
    if pages == [] then []
    else PagesInfo(pages[..|pages| - 1], docIndex) + [PageInfoOf(pages[|pages| - 1], docIndex, |pages| - 1)]
  }

  function DocInfoOf(r: DocRecord, docIndex: nat): DocInfo
  {
    DocInfo(r.fileName, docIndex, 1, PagesInfo(r.ocr.pages, docIndex))
  }

  /** The value `generate_docs_structured_info` returns: ids missing from the registry are skipped. */
  function DocsInfo(documents: map<string, DocRecord>, order: seq<string>): seq<DocInfo>
  {
    if order == [] then []
    else
      var n := |order| - 1;
      DocsInfo(documents, order[..n]) + (if order[n] in documents then [DocInfoOf(documents[order[n]], n)] else [])
  }

  /** The positions in the order whose ids are registered, ascending. */
  function PresentIndices(documents: map<string, DocRecord>, order: seq<string>): seq<nat>
  {
    if order == [] then []
    else
      var n := |order| - 1;
      PresentIndices(documents, order[..n]) + (if order[n] in documents then [n] else [])
  }

  /** Exactly the registered positions, each once, in ascending order. */
  lemma {:induction false} PresentIndicesFacts(documents: map<string, DocRecord>, order: seq<string>)
    ensures forall j :: 0 <= j < |PresentIndices(documents, order)| ==>
      PresentIndices(documents, order)[j] < |order| && order[PresentIndices(documents, order)[j]] in documents
    ensures forall j, l :: 0 <= j < l < |PresentIndices(documents, order)| ==>
      PresentIndices(documents, order)[j] < PresentIndices(documents, order)[l]
    ensures forall i :: 0 <= i < |order| && order[i] in documents ==> i in PresentIndices(documents, order)
  {
    if order != [] {
      var n := |order| - 1;
      var init := order[..n];
      PresentIndicesFacts(documents, init);
      var prev := PresentIndices(documents, init);
      var ix := PresentIndices(documents, order);
      assert ix == prev + (if order[n] in documents then [n] else []);
      forall j | 0 <= j < |ix|
        ensures ix[j] < |order| && order[ix[j]] in documents
      {
        if j < |prev| {
          assert ix[j] == prev[j] && init[prev[j]] == order[prev[j]];
        }
      }
      forall i | 0 <= i < |order| && order[i] in documents
        ensures i in ix
      {
        if i < n {
          assert init[i] == order[i] && i in prev;
        } else {
          assert ix[|ix| - 1] == n;
        }
      }
    }
  }

  /**
   * Entry j of the export is the j-th registered id, with `document_id` its
   * position in the whole order, so skipped ids leave gaps in the numbering.
   */
  lemma {:induction false} DocsInfoAt(documents: map<string, DocRecord>, order: seq<string>)
    ensures var ix := PresentIndices(documents, order);
      var docs := DocsInfo(documents, order);
      |docs| == |ix| &&
      forall j :: 0 <= j < |ix| ==>
        ix[j] < |order| && order[ix[j]] in documents && docs[j] == DocInfoOf(documents[order[ix[j]]], ix[j])
  {
    if order != [] {
      var n := |order| - 1;
      DocsInfoAt(documents, order[..n]);
      var ix := PresentIndices(documents, order);
      var prev := PresentIndices(documents, order[..n]);
      forall j | 0 <= j < |prev|
        ensures prev[j] < n && order[prev[j]] == order[..n][prev[j]]
      {
      }
    }
  }

  /** A page that references none of its images keeps its markdown. */
  lemma {:induction false} TaggedUntouched(markdown: string, entries: seq<Entry>, docIndex: nat, pageIndex: nat)
    requires forall j :: 0 <= j < |entries| ==> !Contains(markdown, Placeholder(entries[j].name))
    ensures TaggedMarkdown(markdown, entries, docIndex, pageIndex) == markdown
    decreases |entries|
  {
    if entries != [] {
      var n := |entries| - 1;
      TaggedUntouched(markdown, entries[..n], docIndex, pageIndex);
      ReplaceAbsent(markdown, Placeholder(entries[n].name), XmlTag(docIndex, pageIndex, n));
    }
  }

  /** A page with one image referenced once gets that reference turned into the image's tag. */
  lemma TaggedSingle(lead: string, e: Entry, tail: string, docIndex: nat, pageIndex: nat)
    requires forall j :: 0 <= j < |lead| ==> !OccursAt(lead + Placeholder(e.name), Placeholder(e.name), j)
    requires !Contains(tail, Placeholder(e.name))
    ensures TaggedMarkdown(lead + Placeholder(e.name) + tail, [e], docIndex, pageIndex) ==
      lead + XmlTag(docIndex, pageIndex, 0) + tail
  {
    var p := Placeholder(e.name);
    ReplaceStep(lead, p, tail, XmlTag(docIndex, pageIndex, 0));
    ReplaceAbsent(tail, p, XmlTag(docIndex, pageIndex, 0));
    assert [e][..0] == [];
  }

  /** `"a ![i](i) b"` on page 0 of document 0: the placeholder between `"a "` and `" b"` becomes the tag of image 0. */
  lemma TaggedExample()
    ensures TaggedMarkdown("a " + Placeholder("i") + " b", [Entry("i", "Zg==")], 0, 0) == "a " + XmlTag(0, 0, 0) + " b"
  {
    var e := Entry("i", "Zg==");
    NoBangNoPlaceholder("a ", e.name);
    assert !Contains(" b", Placeholder(e.name));
    TaggedSingle("a ", e, " b", 0, 0);
  }

  /** The image loop of one page: reference k becomes tag k and image k is recorded. */
  method GeneratePageInfo(page: Page, docIndex: nat, pageIndex: nat) returns (info: PageInfo)
    ensures info == PageInfoOf(page, docIndex, pageIndex)
  {
    var pageMarkdown := page.markdown;
    var pageImages: seq<ImageInfo> := [];
    var imageData := CollectImages(page.images);
    var imgIdCounter := 0;
    while imgIdCounter < |imageData|
      invariant 0 <= imgIdCounter <= |imageData|
      invariant pageMarkdown == TaggedMarkdown(page.markdown, imageData[..imgIdCounter], docIndex, pageIndex)
      invariant pageImages == PageImages(imageData[..imgIdCounter], docIndex, pageIndex)
    {
      var e := imageData[imgIdCounter];
      assert imageData[..imgIdCounter + 1][..imgIdCounter] == imageData[..imgIdCounter];
      pageMarkdown := Replace(pageMarkdown, Placeholder(e.name), XmlTag(docIndex, pageIndex, imgIdCounter));
      pageImages := pageImages + [ImageInfo(imgIdCounter, ImageTag(docIndex, pageIndex, imgIdCounter), e.base64)];
      imgIdCounter := imgIdCounter + 1;
    }
    assert imageData[..imgIdCounter] == imageData;
    info := PageInfo(pageIndex, pageMarkdown, pageImages);
  }

  /** The page loop of one document. */
  method GenerateDocumentContent(pages: seq<Page>, docIndex: nat) returns (content: seq<PageInfo>)
    ensures content == PagesInfo(pages, docIndex)
  {
    content := [];
    var pageIndex := 0;
    while pageIndex < |pages|
      invariant 0 <= pageIndex <= |pages|
      invariant content == PagesInfo(pages[..pageIndex], docIndex)
    {
      assert pages[..pageIndex + 1][..pageIndex] == pages[..pageIndex];
      var info := GeneratePageInfo(pages[pageIndex], docIndex, pageIndex);
      content := content + [info];
      pageIndex := pageIndex + 1;
    }
    assert pages[..pageIndex] == pages;
  }

  /** `generate_docs_structured_info`. */
  method GenerateDocsStructuredInfo(documents: map<string, DocRecord>, order: seq<string>) returns (docs: seq<DocInfo>)
    ensures docs == DocsInfo(documents, order)
  {
    docs := [];
    var docIndex := 0;
    while docIndex < |order|
      invariant 0 <= docIndex <= |order|
      invariant docs == DocsInfo(documents, order[..docIndex])
    {
      assert order[..docIndex + 1][..docIndex] == order[..docIndex];
      var docId := order[docIndex];
      if docId in documents {
        var doc := documents[docId];
        var content := GenerateDocumentContent(doc.ocr.pages, docIndex);
        docs := docs + [DocInfo(doc.fileName, docIndex, 1, content)];
      }
      docIndex := docIndex + 1;
    }
    assert order[..docIndex] == order;
  }

  /**
   * `save_docs_structured_info`: the cache is rebound to the fresh list before
   * the file is written, so the fresh list comes back whether or not the
   * write succeeds; the old cache is not consulted.
   */
  method SaveDocsStructuredInfo(documents: map<string, DocRecord>, order: seq<string>, cache: seq<DocInfo>) returns (r: seq<DocInfo>)
    ensures r == DocsInfo(documents, order)
  {
    r := GenerateDocsStructuredInfo(documents, order);
  }

  /** `save_video_structured_info`: a copy of the descriptions, or `[]` for none, whatever the write does. */
  function SaveVideoStructuredInfo(descriptions: Option<seq<VideoDescription>>, cache: seq<VideoDescription>): (r: seq<VideoDescription>)
    ensures descriptions.Some? ==> r == descriptions.value
    ensures descriptions.None? ==> r == []
  {
    if descriptions.Some? then descriptions.value else []
  }
}
