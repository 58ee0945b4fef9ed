/**
 * `create_document_content_block` (document_utils.py): one OCR'd document
 * becomes a list of text and image segments for the model, plus a display
 * copy of the same shape in which long text and image data are cut short.
 */
module Blockifier {
  import opened Common
  import opened Strings
  import opened Decimal
  import opened Ocr
  import opened Ledger
  import opened Records

  /** `'-' * 20` */
  const Rule: string := "--------------------"

  const IntroLead: string := "Document name: "
  const IntroMid: string := ".\nThis document contains "
  const IntroTail: string := " pages with text and images."

  function IntroText(fileName: string, pageCount: nat): string
  {
    IntroLead + fileName + IntroMid + NatToString(pageCount) + IntroTail
  }

  const HeaderLead: string := "\n\n\n" + Rule + "\n## Document "
  const HeaderMid: string := " - Page "
  const HeaderTail: string := ":-\n\n"

  function PageHeader(docIndex: nat, pageIndex: nat): string
  {
    HeaderLead + NatToString(docIndex) + HeaderMid + NatToString(pageIndex + 1) + HeaderTail
  }

  /** `doc-{doc_index}-page-{page_index}-{img_name}`, with a 0-based page index. */
  function ImageName(docIndex: nat, pageIndex: nat, name: string): string
  {
    "doc-" + NatToString(docIndex) + "-page-" + NatToString(pageIndex) + "-" + name
  }

  const AttachLead: string := "Attaching an image in the page. Image name: "

  function AttachText(imageName: string): string
  {
    AttachLead + imageName + ".\n\n"
  }

  /** Display copy of the text before an image: 500 characters and an ellipsis at most. */
  function LeadShow(txt: string): string
  {
    if |txt| > 500 then txt[..500] + "...\n\n" else txt + "\n\n"
  }

  /** Display copy of an image: the first 50 characters of its data and `...`. */
  function UrlShow(base64: string): string
  {
    SliceTo(base64, 50) + "..."
  }

  const RemainingLead: string := "Remaining text in the page: "

  function RemainingShow(rest: string): string
  {
    if |rest| > 500 then RemainingLead + rest[..500] + "\n\n" else RemainingLead + rest + "\n\n"
  }

  /** The pair (`user_content`, `user_content_show`). */
  datatype ContentBlock = ContentBlock(full: seq<Segment>, show: seq<Segment>)
  {
    function Append(other: ContentBlock): ContentBlock
    {
      ContentBlock(full + other.full, show + other.show)
    }
  }

  const EmptyBlock := ContentBlock([], [])

  lemma AppendAssoc(a: ContentBlock, b: ContentBlock, c: ContentBlock)
    ensures a.Append(b).Append(c) == a.Append(b.Append(c))
  {
    assert a.full + b.full + c.full == a.full + (b.full + c.full);
    assert a.show + b.show + c.show == a.show + (b.show + c.show);
  }

  function TextBlock(text: string): ContentBlock
  {
    ContentBlock([Text(text)], [Text(text)])
  }

  /** The segments one image contributes, given the text found before its placeholder. */
  function ImageBlock(txt: string, e: Entry, docIndex: nat, pageIndex: nat): ContentBlock
  {
    var attach := Text(AttachText(ImageName(docIndex, pageIndex, e.name)));
    var lead := if |txt| > 0 then ContentBlock([Text(txt + "\n\n")], [Text(LeadShow(txt))]) else EmptyBlock;
    lead.Append(ContentBlock([attach, ImageUrl(e.base64)], [attach, ImageUrl(UrlShow(e.base64))]))
  }

  /** What is left of the page markdown and what has been emitted so far. */
  datatype Cursor = Cursor(rest: string, block: ContentBlock)

  /**
   * One iteration over `image_data.items()`: locate the placeholder with
   * `find`, emit the text before it and the image, and drop both from the
   * markdown. A missing placeholder makes `find` return -1, and the slices
   * are then taken with that -1.
   */
  function ImageStep(rest: string, e: Entry, docIndex: nat, pageIndex: nat): Cursor
  {
    var p := Placeholder(e.name);
    var pos := Find(rest, p);
    Cursor(SliceFrom(rest, pos + |p|), ImageBlock(SliceTo(rest, pos), e, docIndex, pageIndex))
  }

  function ImagesFold(markdown: string, entries: seq<Entry>, docIndex: nat, pageIndex: nat): Cursor
    decreases |entries|
  {
    if entries == [] then Cursor(markdown, EmptyBlock)
    else
      var c := ImagesFold(markdown, entries[..|entries| - 1], docIndex, pageIndex);
      var s := ImageStep(c.rest, entries[|entries| - 1], docIndex, pageIndex);
      Cursor(s.rest, c.block.Append(s.block))
  }

  function RemainingBlock(rest: string): ContentBlock
  {
    if |rest| > 0 then ContentBlock([Text(RemainingLead + rest + "\n\n")], [Text(RemainingShow(rest))])
    else EmptyBlock
  }

  /** All segments of one page: header, images with their leading text, remaining text. */
  function PageBlock(page: Page, docIndex: nat, pageIndex: nat): ContentBlock
  {
    var c := ImagesFold(page.markdown, ImageDict(page.images), docIndex, pageIndex);
    TextBlock(PageHeader(docIndex, pageIndex)).Append(c.block).Append(RemainingBlock(c.rest))
  }

  function PagesBlock(pages: seq<Page>, docIndex: nat): ContentBlock
    decreases |pages|
  {
    if pages == [] then EmptyBlock
    else PagesBlock(pages[..|pages| - 1], docIndex).Append(PageBlock(pages[|pages| - 1], docIndex, |pages| - 1))
  }

  /** The value `create_document_content_block(doc_id, doc_index, documents)` returns. */
  function DocumentContentBlock(docId: string, docIndex: nat, documents: map<string, DocRecord>): ContentBlock
  {
    if docId !in documents then EmptyBlock
    else
      var doc := documents[docId];
      TextBlock(IntroText(doc.fileName, |doc.ocr.pages|)).Append(PagesBlock(doc.ocr.pages, docIndex))
  }

  method CreateDocumentContentBlock(docId: string, docIndex: nat, documents: map<string, DocRecord>)
    returns (userContent: seq<Segment>, userContentShow: seq<Segment>)
    ensures ContentBlock(userContent, userContentShow) == DocumentContentBlock(docId, docIndex, documents)
  {
    if docId !in documents {
      return [], [];
    }
    var doc := documents[docId];
    var pages := doc.ocr.pages;
    var info := Text(IntroText(doc.fileName, |pages|));
    userContent, userContentShow := [info], [info];
    ghost var intro := TextBlock(IntroText(doc.fileName, |pages|));
    var pageIndex := 0;
    while pageIndex < |pages|
      invariant 0 <= pageIndex <= |pages|
      invariant ContentBlock(userContent, userContentShow) == intro.Append(PagesBlock(pages[..pageIndex], docIndex))
    {
      assert pages[..pageIndex + 1][..pageIndex] == pages[..pageIndex];
      ghost var done := PagesBlock(pages[..pageIndex], docIndex);
      ghost var next := PageBlock(pages[pageIndex], docIndex, pageIndex);
      assert PagesBlock(pages[..pageIndex + 1], docIndex) == done.Append(next);
      AppendAssoc(intro, done, next);
      userContent, userContentShow := EmitPage(userContent, userContentShow, pages[pageIndex], docIndex, pageIndex);
      pageIndex := pageIndex + 1;
    }
    assert pages[..pageIndex] == pages;
  }

  /** The body of the page loop: appends one page's segments to both lists. */
  method EmitPage(content: seq<Segment>, contentShow: seq<Segment>, page: Page, docIndex: nat, pageIndex: nat)
    returns (userContent: seq<Segment>, userContentShow: seq<Segment>)
    ensures ContentBlock(userContent, userContentShow) ==
      ContentBlock(content, contentShow).Append(PageBlock(page, docIndex, pageIndex))
  {
    var header := Text(PageHeader(docIndex, pageIndex));
    userContent, userContentShow := content + [header], contentShow + [header];
    var entries := CollectImages(page.images);
    var markdown;
    markdown, userContent, userContentShow := EmitImages(page.markdown, userContent, userContentShow, entries, docIndex, pageIndex);
    userContent, userContentShow := EmitRemaining(markdown, userContent, userContentShow);
    ghost var fold := ImagesFold(page.markdown, entries, docIndex, pageIndex);
    AppendAssoc(ContentBlock(content, contentShow), TextBlock(PageHeader(docIndex, pageIndex)), fold.block);
    AppendAssoc(ContentBlock(content, contentShow), TextBlock(PageHeader(docIndex, pageIndex)).Append(fold.block), RemainingBlock(fold.rest));
  }

  /** The image loop of one page: every entry, in dictionary order, consumes its placeholder. */
  method EmitImages(markdown: string, content: seq<Segment>, contentShow: seq<Segment>, entries: seq<Entry>, docIndex: nat, pageIndex: nat)
    returns (rest: string, userContent: seq<Segment>, userContentShow: seq<Segment>)
    ensures var fold := ImagesFold(markdown, entries, docIndex, pageIndex);
      rest == fold.rest && ContentBlock(userContent, userContentShow) == ContentBlock(content, contentShow).Append(fold.block)
  {
    rest, userContent, userContentShow := markdown, content, contentShow;
    ghost var start := ContentBlock(content, contentShow);
    var k := 0;
    while k < |entries|
      invariant 0 <= k <= |entries|
      invariant rest == ImagesFold(markdown, entries[..k], docIndex, pageIndex).rest
      invariant ContentBlock(userContent, userContentShow) ==
        start.Append(ImagesFold(markdown, entries[..k], docIndex, pageIndex).block)
    {
      assert entries[..k + 1][..k] == entries[..k];
      ghost var prev := ImagesFold(markdown, entries[..k], docIndex, pageIndex);
      ghost var step := ImageStep(rest, entries[k], docIndex, pageIndex);
      assert ImagesFold(markdown, entries[..k + 1], docIndex, pageIndex) == Cursor(step.rest, prev.block.Append(step.block));
      AppendAssoc(start, prev.block, step.block);
      rest, userContent, userContentShow := EmitImage(rest, userContent, userContentShow, entries[k], docIndex, pageIndex);
      k := k + 1;
    }
    assert entries[..k] == entries;
  }

  /** The text left after the last placeholder, when there is any. */
  method EmitRemaining(markdown: string, content: seq<Segment>, contentShow: seq<Segment>)
    returns (userContent: seq<Segment>, userContentShow: seq<Segment>)
    ensures ContentBlock(userContent, userContentShow) == ContentBlock(content, contentShow).Append(RemainingBlock(markdown))
  {
    userContent, userContentShow := content, contentShow;
    if |markdown| > 0 {
      userContent := userContent + [Text(RemainingLead + markdown + "\n\n")];
      userContentShow := userContentShow + [Text(RemainingShow(markdown))];
    }
  }

  /** The body of the image loop: consume one placeholder and emit its segments. */
  method EmitImage(markdown: string, content: seq<Segment>, contentShow: seq<Segment>, e: Entry, docIndex: nat, pageIndex: nat)
    returns (rest: string, userContent: seq<Segment>, userContentShow: seq<Segment>)
    ensures Cursor(rest, ContentBlock(userContent, userContentShow)) ==
      var step := ImageStep(markdown, e, docIndex, pageIndex);
      Cursor(step.rest, ContentBlock(content, contentShow).Append(step.block))
  {
    var placeholder := Placeholder(e.name);
    var pos := Find(markdown, placeholder);
    var txt := SliceTo(markdown, pos);
    rest := SliceFrom(markdown, pos + |placeholder|);
    userContent, userContentShow := content, contentShow;
    if |txt| > 0 {
      userContent := userContent + [Text(txt + "\n\n")];
      userContentShow := userContentShow + [Text(LeadShow(txt))];
    }
    var attach := Text(AttachText(ImageName(docIndex, pageIndex, e.name)));
    userContent := userContent + [attach, ImageUrl(e.base64)];
    userContentShow := userContentShow + [attach, ImageUrl(UrlShow(e.base64))];
  }

  // ---------------------------------------------------------------------
  // The display copy mirrors the full list.

  /** The longest display text: the remaining-text lead, 500 characters, a blank line. */
  const PreviewBound: nat := |RemainingLead| + 502

  /**
   * A display segment has the type of its full segment; an image shows only
   * the 50-character fingerprint of its data, and a text is either copied
   * or cut to a bounded preview.
   */
  predicate SegmentMirrors(f: Segment, s: Segment)
  {
    match f
    case ImageUrl(u) => s == ImageUrl(UrlShow(u))
    case Text(t) => s.Text? && (s == f || |s.text| <= PreviewBound)
  }

  predicate Mirrors(b: ContentBlock)
  {
    |b.full| == |b.show| &&
    forall i :: 0 <= i < |b.full| ==> SegmentMirrors(b.full[i], b.show[i])
  }

  lemma MirrorsAppend(a: ContentBlock, b: ContentBlock)
    requires Mirrors(a) && Mirrors(b)
    ensures Mirrors(a.Append(b))
  {
    var c := a.Append(b);
    forall i | 0 <= i < |c.full|
      ensures SegmentMirrors(c.full[i], c.show[i])
    {
      if i >= |a.full| {
        assert c.full[i] == b.full[i - |a.full|] && c.show[i] == b.show[i - |a.full|];
      } else {
        assert c.full[i] == a.full[i] && c.show[i] == a.show[i];
      }
    }
  }

  lemma ImageBlockMirrors(txt: string, e: Entry, docIndex: nat, pageIndex: nat)
    ensures Mirrors(ImageBlock(txt, e, docIndex, pageIndex))
  {
    var attach := Text(AttachText(ImageName(docIndex, pageIndex, e.name)));
    var tailBlock := ContentBlock([attach, ImageUrl(e.base64)], [attach, ImageUrl(UrlShow(e.base64))]);
    assert Mirrors(tailBlock);
    if |txt| > 0 {
      assert |LeadShow(txt)| <= PreviewBound || LeadShow(txt) == txt + "\n\n";
      assert Mirrors(ContentBlock([Text(txt + "\n\n")], [Text(LeadShow(txt))]));
      MirrorsAppend(ContentBlock([Text(txt + "\n\n")], [Text(LeadShow(txt))]), tailBlock);
    } else {
      MirrorsAppend(EmptyBlock, tailBlock);
    }
  }

  lemma {:induction false} ImagesFoldMirrors(markdown: string, entries: seq<Entry>, docIndex: nat, pageIndex: nat)
    ensures Mirrors(ImagesFold(markdown, entries, docIndex, pageIndex).block)
    decreases |entries|
  {
    if entries != [] {
      var c := ImagesFold(markdown, entries[..|entries| - 1], docIndex, pageIndex);
      var st := ImageStep(c.rest, entries[|entries| - 1], docIndex, pageIndex);
      ImagesFoldMirrors(markdown, entries[..|entries| - 1], docIndex, pageIndex);
      ImageBlockMirrors(SliceTo(c.rest, Find(c.rest, Placeholder(entries[|entries| - 1].name))), entries[|entries| - 1], docIndex, pageIndex);
      MirrorsAppend(c.block, st.block);
    }
  }

  lemma PageBlockMirrors(page: Page, docIndex: nat, pageIndex: nat)
    ensures Mirrors(PageBlock(page, docIndex, pageIndex))
  {
    var c := ImagesFold(page.markdown, ImageDict(page.images), docIndex, pageIndex);
    ImagesFoldMirrors(page.markdown, ImageDict(page.images), docIndex, pageIndex);
    var head := TextBlock(PageHeader(docIndex, pageIndex));
    assert Mirrors(head);
    MirrorsAppend(head, c.block);
    assert |RemainingShow(c.rest)| <= PreviewBound || RemainingShow(c.rest) == RemainingLead + c.rest + "\n\n";
    assert Mirrors(RemainingBlock(c.rest));
    MirrorsAppend(head.Append(c.block), RemainingBlock(c.rest));
  }

  lemma {:induction false} PagesBlockMirrors(pages: seq<Page>, docIndex: nat)
    ensures Mirrors(PagesBlock(pages, docIndex))
    decreases |pages|
  {
    if pages != [] {
      PagesBlockMirrors(pages[..|pages| - 1], docIndex);
      PageBlockMirrors(pages[|pages| - 1], docIndex, |pages| - 1);
      MirrorsAppend(PagesBlock(pages[..|pages| - 1], docIndex), PageBlock(pages[|pages| - 1], docIndex, |pages| - 1));
    }
  }

  /**
   * The full and display lists of a document always have the same length and
   * the same segment type at every position; an absent id gives two empty
   * lists, and a present one starts with the document's name and page count.
   */
  lemma DocumentBlockMirrors(docId: string, docIndex: nat, documents: map<string, DocRecord>)
    ensures Mirrors(DocumentContentBlock(docId, docIndex, documents))
    ensures docId !in documents ==> DocumentContentBlock(docId, docIndex, documents) == ContentBlock([], [])
    ensures docId in documents ==>
      var b := DocumentContentBlock(docId, docIndex, documents);
      var doc := documents[docId];
      |b.full| >= 1 && b.full[0] == b.show[0] == Text(IntroText(doc.fileName, |doc.ocr.pages|))
  {
    if docId in documents {
      var doc := documents[docId];
      PagesBlockMirrors(doc.ocr.pages, docIndex);
      var intro := TextBlock(IntroText(doc.fileName, |doc.ocr.pages|));
      assert Mirrors(intro);
      MirrorsAppend(intro, PagesBlock(doc.ocr.pages, docIndex));
    }
  }

  // ---------------------------------------------------------------------
  // Images: every image of the page dictionary appears once, in order, and
  // right after the text that names it.

  function Urls(segments: seq<Segment>): (r: seq<string>)
  {
    if segments == [] then []
    else (if segments[0].ImageUrl? then [segments[0].url] else []) + Urls(segments[1..])
  }

  lemma {:induction false} UrlsAppend(a: seq<Segment>, b: seq<Segment>)
    ensures Urls(a + b) == Urls(a) + Urls(b)
    decreases |a|
  {
    if a != [] {
      assert (a + b)[1..] == a[1..] + b;
      UrlsAppend(a[1..], b);
    } else {
      assert a + b == b;
    }
  }

  function Values(entries: seq<Entry>): (r: seq<string>)
    ensures |r| == |entries|
    ensures forall k :: 0 <= k < |entries| ==> r[k] == entries[k].base64
  {
    if entries == [] then [] else Values(entries[..|entries| - 1]) + [entries[|entries| - 1].base64]
  }

  /** The image data of every page of a document, page after page. */
  function PagesValues(pages: seq<Page>): seq<string>
  {
    if pages == [] then [] else PagesValues(pages[..|pages| - 1]) + Values(ImageDict(pages[|pages| - 1].images))
  }

  const NamePrefix: string := AttachLead + "doc-"

  /** Each image segment follows a text naming it `doc-{doc_index}-page-...`. */
  predicate NamedImages(segments: seq<Segment>, docIndex: nat)
  {
    forall i :: 0 <= i < |segments| && segments[i].ImageUrl? ==>
      0 < i && segments[i - 1].Text? && IsPrefix(NamePrefix + NatToString(docIndex) + "-page-", segments[i - 1].text)
  }

  lemma NamedAppend(a: seq<Segment>, b: seq<Segment>, docIndex: nat)
    requires NamedImages(a, docIndex) && NamedImages(b, docIndex)
    ensures NamedImages(a + b, docIndex)
  {
    var c := a + b;
    forall i | 0 <= i < |c| && c[i].ImageUrl?
      ensures 0 < i && c[i - 1].Text? && IsPrefix(NamePrefix + NatToString(docIndex) + "-page-", c[i - 1].text)
    {
      if i >= |a| {
        assert c[i] == b[i - |a|];
        assert c[i - 1] == b[i - |a| - 1];
      } else {
        assert c[i] == a[i] && c[i - 1] == a[i - 1];
      }
    }
  }

  lemma ImageBlockImages(txt: string, e: Entry, docIndex: nat, pageIndex: nat)
    ensures Urls(ImageBlock(txt, e, docIndex, pageIndex).full) == [e.base64]
    ensures NamedImages(ImageBlock(txt, e, docIndex, pageIndex).full, docIndex)
  {
    var name := AttachText(ImageName(docIndex, pageIndex, e.name));
    var pre := NamePrefix + NatToString(docIndex) + "-page-";
    assert name == pre + (NatToString(pageIndex) + "-" + e.name + ".\n\n");
    var tail := [Text(name), ImageUrl(e.base64)];
    assert Urls(tail[1..]) == [e.base64];
    assert NamedImages(tail, docIndex);
    var lead := if |txt| > 0 then [Text(txt + "\n\n")] else [];
    assert Urls(lead) == [];
    assert NamedImages(lead, docIndex);
    UrlsAppend(lead, tail);
    NamedAppend(lead, tail, docIndex);
    assert ImageBlock(txt, e, docIndex, pageIndex).full == lead + tail;
  }

  lemma {:induction false} ImagesFoldImages(markdown: string, entries: seq<Entry>, docIndex: nat, pageIndex: nat)
    ensures Urls(ImagesFold(markdown, entries, docIndex, pageIndex).block.full) == Values(entries)
    ensures NamedImages(ImagesFold(markdown, entries, docIndex, pageIndex).block.full, docIndex)
    decreases |entries|
  {
    if entries != [] {
      var last := entries[|entries| - 1];
      var c := ImagesFold(markdown, entries[..|entries| - 1], docIndex, pageIndex);
      var st := ImageStep(c.rest, last, docIndex, pageIndex);
      ImagesFoldImages(markdown, entries[..|entries| - 1], docIndex, pageIndex);
      ImageBlockImages(SliceTo(c.rest, Find(c.rest, Placeholder(last.name))), last, docIndex, pageIndex);
      UrlsAppend(c.block.full, st.block.full);
      NamedAppend(c.block.full, st.block.full, docIndex);
    }
  }

  /** A header text before and a remaining text after add no image and break no naming. */
  lemma FramedImages(header: string, b: ContentBlock, rest: string, docIndex: nat)
    requires NamedImages(b.full, docIndex)
    ensures Urls(TextBlock(header).Append(b).Append(RemainingBlock(rest)).full) == Urls(b.full)
    ensures NamedImages(TextBlock(header).Append(b).Append(RemainingBlock(rest)).full, docIndex)
  {
    var head := [Text(header)];
    var tail := RemainingBlock(rest).full;
    assert Urls(head) == [] by { assert Urls(head[1..]) == []; }
    assert Urls(tail) == [] by {
      if |rest| > 0 {
        assert Urls(tail[1..]) == [];
      }
    }
    assert NamedImages(head, docIndex) && NamedImages(tail, docIndex);
    UrlsAppend(head, b.full);
    UrlsAppend(head + b.full, tail);
    NamedAppend(head, b.full, docIndex);
    NamedAppend(head + b.full, tail, docIndex);
  }

  lemma PageBlockImages(page: Page, docIndex: nat, pageIndex: nat)
    ensures Urls(PageBlock(page, docIndex, pageIndex).full) == Values(ImageDict(page.images))
    ensures NamedImages(PageBlock(page, docIndex, pageIndex).full, docIndex)
  {
    var c := ImagesFold(page.markdown, ImageDict(page.images), docIndex, pageIndex);
    ImagesFoldImages(page.markdown, ImageDict(page.images), docIndex, pageIndex);
    FramedImages(PageHeader(docIndex, pageIndex), c.block, c.rest, docIndex);
  }

  lemma {:induction false} PagesBlockImages(pages: seq<Page>, docIndex: nat)
    ensures Urls(PagesBlock(pages, docIndex).full) == PagesValues(pages)
    ensures NamedImages(PagesBlock(pages, docIndex).full, docIndex)
    decreases |pages|
  {
    if pages != [] {
      var init := pages[..|pages| - 1];
      PagesBlockImages(init, docIndex);
      PageBlockImages(pages[|pages| - 1], docIndex, |pages| - 1);
      UrlsAppend(PagesBlock(init, docIndex).full, PageBlock(pages[|pages| - 1], docIndex, |pages| - 1).full);
      NamedAppend(PagesBlock(init, docIndex).full, PageBlock(pages[|pages| - 1], docIndex, |pages| - 1).full, docIndex);
    }
  }

  /**
   * The image segments of a document carry exactly the image data of its
   * pages, in page order and dictionary order, each right after a text that
   * names it with the `doc-{doc_index}-page-` scheme.
   */
  lemma DocumentBlockImages(docId: string, docIndex: nat, documents: map<string, DocRecord>)
    requires docId in documents
    ensures Urls(DocumentContentBlock(docId, docIndex, documents).full) == PagesValues(documents[docId].ocr.pages)
    ensures NamedImages(DocumentContentBlock(docId, docIndex, documents).full, docIndex)
  {
    var doc := documents[docId];
    var head := [Text(IntroText(doc.fileName, |doc.ocr.pages|))];
    PagesBlockImages(doc.ocr.pages, docIndex);
    assert Urls(head) == [] && NamedImages(head, docIndex);
    UrlsAppend(head, PagesBlock(doc.ocr.pages, docIndex).full);
    NamedAppend(head, PagesBlock(doc.ocr.pages, docIndex).full, docIndex);
  }

  // ---------------------------------------------------------------------
  // How the page markdown is cut into text chunks.

  /** `texts[0] + ![e0](e0) + texts[1] + ![e1](e1) + ...` */
  function Interleave(texts: seq<string>, entries: seq<Entry>): string
    requires |texts| == |entries|
  {
    if texts == [] then ""
    else Interleave(texts[..|texts| - 1], entries[..|entries| - 1]) + texts[|texts| - 1] + Placeholder(entries[|entries| - 1].name)
  }

  /** The segments emitted when the chunk before image k is exactly `texts[k]`. */
  function ChunkedBlock(texts: seq<string>, entries: seq<Entry>, docIndex: nat, pageIndex: nat): ContentBlock
    requires |texts| == |entries|
  {
    if texts == [] then EmptyBlock
    else ChunkedBlock(texts[..|texts| - 1], entries[..|entries| - 1], docIndex, pageIndex)
           .Append(ImageBlock(texts[|texts| - 1], entries[|entries| - 1], docIndex, pageIndex))
  }

  /** The placeholder after `t` is the first place it occurs. */
  predicate FirstAfter(t: string, pat: string)
  {
    forall j :: 0 <= j < |t| ==> !OccursAt(t + pat, pat, j)
  }

  /**
   * When every image's placeholder appears in dictionary order (and not
   * earlier inside the text before it), each text chunk is exactly the
   * markdown between consecutive placeholders and what follows the last one
   * is left over as the page's remaining text.
   */
  lemma {:induction false} ImagesInOrder(texts: seq<string>, entries: seq<Entry>, tail: string, docIndex: nat, pageIndex: nat)
    requires |texts| == |entries|
    requires forall k :: 0 <= k < |texts| ==> FirstAfter(texts[k], Placeholder(entries[k].name))
    ensures ImagesFold(Interleave(texts, entries) + tail, entries, docIndex, pageIndex) ==
      Cursor(tail, ChunkedBlock(texts, entries, docIndex, pageIndex))
    decreases |texts|
  {
    if texts != [] {
      var n := |texts| - 1;
      var t, e := texts[n], entries[n];
      var p := Placeholder(e.name);
      var later := t + p + tail;
      assert Interleave(texts, entries) + tail == Interleave(texts[..n], entries[..n]) + later;
      ImagesInOrder(texts[..n], entries[..n], later, docIndex, pageIndex);
      assert entries[..n] == entries[..|entries| - 1];
      FindAfterLead(t, p, tail);
      assert later[..|t|] == t;
      assert later[|t| + |p|..] == tail;
    }
  }

  /**
   * A placeholder missing from the markdown makes `find` return -1: the text
   * chunk emitted before the image is the markdown without its last
   * character, and the markdown kept for later skips `len(placeholder) - 1`
   * characters.
   */
  lemma MissingPlaceholder(rest: string, e: Entry, docIndex: nat, pageIndex: nat)
    requires !Contains(rest, Placeholder(e.name))
    ensures ImageStep(rest, e, docIndex, pageIndex).rest == rest[Min(|Placeholder(e.name)| - 1, |rest|)..]
    ensures |rest| >= 2 ==>
      ImageStep(rest, e, docIndex, pageIndex).block.full[0] == Text(rest[..|rest| - 1] + "\n\n")
  {
  }

  // ---------------------------------------------------------------------
  // Whole ledgers: `llm_chat_history_show` mirrors `llm_chat_history`.

  /** A display turn mirrors its model turn: same role, mirrored segments, or a bounded preview of a plain text. */
  predicate TurnMirrors(f: Turn, s: Turn)
  {
    f.role == s.role &&
    match f.content
    case Segments(segs) => s.content.Segments? && Mirrors(ContentBlock(segs, s.content.segments))
    case Plain(t) => s.content.Plain? && (s.content == f.content || |s.content.text| <= PreviewBound)
  }

  predicate TurnsMirror(full: seq<Turn>, show: seq<Turn>)
  {
    |full| == |show| && forall i :: 0 <= i < |full| ==> TurnMirrors(full[i], show[i])
  }

  lemma TurnsMirrorAppend(full: seq<Turn>, show: seq<Turn>, f: Turn, s: Turn)
    requires TurnsMirror(full, show) && TurnMirrors(f, s)
    ensures TurnsMirror(full + [f], show + [s])
  {
    assert forall i :: 0 <= i < |full| ==> (full + [f])[i] == full[i] && (show + [s])[i] == show[i];
  }

  lemma TurnsMirrorConcat(full1: seq<Turn>, show1: seq<Turn>, full2: seq<Turn>, show2: seq<Turn>)
    requires TurnsMirror(full1, show1) && TurnsMirror(full2, show2)
    ensures TurnsMirror(full1 + full2, show1 + show2)
  {
    forall i | 0 <= i < |full1 + full2|
      ensures TurnMirrors((full1 + full2)[i], (show1 + show2)[i])
    {
      if i < |full1| {
        assert (full1 + full2)[i] == full1[i] && (show1 + show2)[i] == show1[i];
      } else {
        assert (full1 + full2)[i] == full2[i - |full1|] && (show1 + show2)[i] == show2[i - |full1|];
      }
    }
  }

  lemma TurnsMirrorUpdate(full: seq<Turn>, show: seq<Turn>, k: nat, t: Turn)
    requires TurnsMirror(full, show) && k < |full| && TurnMirrors(t, t)
    ensures TurnsMirror(full[k := t], show[k := t])
  {
  }
}
