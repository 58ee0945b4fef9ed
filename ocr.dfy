/**
 * The OCR response of one document (pages of markdown, each with its
 * embedded images) and the two pure helpers of document_utils.py that fold
 * it into markdown.
 */
module Ocr {
  import opened Common
  import opened Strings

  datatype Image = Image(id: string, base64: string)
  datatype Page = Page(markdown: string, images: seq<Image>)
  datatype OcrResponse = OcrResponse(pages: seq<Page>)

  /** One item of the per-page dictionary `image_data`, in insertion order. */
  datatype Entry = Entry(name: string, base64: string)

  /** The markdown reference the OCR service leaves where an image was. */
  function Placeholder(name: string): string
  {
    "![" + name + "](" + name + ")"
  }

  function IndexOfName(entries: seq<Entry>, name: string): (k: int)
    ensures -1 <= k
    ensures k == -1 <==> forall j :: 0 <= j < |entries| ==> entries[j].name != name
    ensures k >= 0 ==> k < |entries| && entries[k].name == name
  {
    if entries == [] then -1
    else if entries[|entries| - 1].name == name then |entries| - 1
    else IndexOfName(entries[..|entries| - 1], name)
  }

  /** `d[name] = base64` on an insertion-ordered Python dict. */
  function Put(entries: seq<Entry>, name: string, base64: string): seq<Entry>
  {
    var k := IndexOfName(entries, name);
    if k < 0 then entries + [Entry(name, base64)] else entries[k := Entry(name, base64)]
  }

  /** The dict built by `for img in page.images: image_data[img.id] = img.image_base64`. */
  function ImageDict(images: seq<Image>): seq<Entry>
  {
    if images == [] then []
    else
      var last := images[|images| - 1];
      Put(ImageDict(images[..|images| - 1]), last.id, last.base64)
  }

  predicate DistinctNames(entries: seq<Entry>)
  {
    forall i, j :: 0 <= i < j < |entries| ==> entries[i].name != entries[j].name
  }

  function Lookup(entries: seq<Entry>, name: string): Option<string>
  {
    if entries == [] then None
    else if entries[0].name == name then Some(entries[0].base64)
    else Lookup(entries[1..], name)
  }

  /** Independent reading of the dict: the base64 of the last image carrying `id`. */
  function LastBase64(images: seq<Image>, id: string): Option<string>
  {
    if images == [] then None
    else if images[|images| - 1].id == id then Some(images[|images| - 1].base64)
    else LastBase64(images[..|images| - 1], id)
  }

  lemma LookupAt(entries: seq<Entry>, k: nat)
    requires DistinctNames(entries) && k < |entries|
    ensures Lookup(entries, entries[k].name) == Some(entries[k].base64)
  {
    if k > 0 {
      LookupAt(entries[1..], k - 1);
    }
  }

  lemma LookupMissing(entries: seq<Entry>, name: string)
    requires forall j :: 0 <= j < |entries| ==> entries[j].name != name
    ensures Lookup(entries, name) == None
  {
  }

  lemma {:induction false} PutFacts(entries: seq<Entry>, name: string, base64: string, other: string)
    requires DistinctNames(entries)
    ensures DistinctNames(Put(entries, name, base64))
    ensures Lookup(Put(entries, name, base64), name) == Some(base64)
    ensures other != name ==> Lookup(Put(entries, name, base64), other) == Lookup(entries, other)
  {
    var p := Put(entries, name, base64);
    var k := IndexOfName(entries, name);
    if k < 0 {
      assert forall j :: 0 <= j < |p| ==> p[j].name == (if j < |entries| then entries[j].name else name);
    } else {
      assert forall j :: 0 <= j < |p| ==> p[j].name == entries[j].name;
    }
    assert DistinctNames(p);
    var kk := if k < 0 then |entries| else k;
    assert p[kk] == Entry(name, base64);
    LookupAt(p, kk);
    if other != name {
      var ko := IndexOfName(entries, other);
      if ko < 0 {
        LookupMissing(entries, other);
        LookupMissing(p, other);
      } else {
        assert p[ko] == entries[ko];
        LookupAt(entries, ko);
        LookupAt(p, ko);
      }
    }
  }

  /**
   * The dict has one item per distinct image id, and looking an id up gives
   * the base64 of the last image with that id (later images overwrite).
   */
  lemma {:induction false} ImageDictLookup(images: seq<Image>, id: string)
    ensures DistinctNames(ImageDict(images))
    ensures Lookup(ImageDict(images), id) == LastBase64(images, id)
  {
    if images != [] {
      var last := images[|images| - 1];
      ImageDictLookup(images[..|images| - 1], id);
      PutFacts(ImageDict(images[..|images| - 1]), last.id, last.base64, id);
    }
  }

  /** The loop of the source that fills `image_data`. */
  method CollectImages(images: seq<Image>) returns (entries: seq<Entry>)
    ensures entries == ImageDict(images)
  {
    entries := [];
    var i := 0;
    while i < |images|
      invariant 0 <= i <= |images|
      invariant entries == ImageDict(images[..i])
    {
      assert images[..i + 1][..i] == images[..i];
      entries := Put(entries, images[i].id, images[i].base64);
      i := i + 1;
    }
    assert images[..i] == images;
  }

  /** The embedded form `![name](base64)` that replaces a placeholder. */
  function Embedded(e: Entry): string
  {
    "![" + e.name + "](" + e.base64 + ")"
  }

  /** `replace_images_in_markdown`: each entry's placeholder, in dict order. */
  function ReplaceImagesInMarkdown(markdown: string, entries: seq<Entry>): string
    decreases |entries|
  {
    if entries == [] then markdown
    else ReplaceImagesInMarkdown(Replace(markdown, Placeholder(entries[0].name), Embedded(entries[0])), entries[1..])
  }

  /** Markdown that references none of the images is returned unchanged. */
  lemma {:induction false} ReplaceImagesUntouched(markdown: string, entries: seq<Entry>)
    requires forall j :: 0 <= j < |entries| ==> !Contains(markdown, Placeholder(entries[j].name))
    ensures ReplaceImagesInMarkdown(markdown, entries) == markdown
  {
    if entries != [] {
      ReplaceAbsent(markdown, Placeholder(entries[0].name), Embedded(entries[0]));
      ReplaceImagesUntouched(markdown, entries[1..]);
    }
  }

  /**
   * A page with one image referenced once gets the base64 spliced in at that
   * place: the first occurrence of the placeholder is the one after `lead`,
   * and `tail` holds no other.
   */
  lemma ReplaceImagesSingle(lead: string, e: Entry, tail: string)
    requires forall j :: 0 <= j < |lead| ==> !OccursAt(lead + Placeholder(e.name), Placeholder(e.name), j)
    requires !Contains(tail, Placeholder(e.name))
    ensures ReplaceImagesInMarkdown(lead + Placeholder(e.name) + tail, [e]) == lead + Embedded(e) + tail
  {
    var p := Placeholder(e.name);
    ReplaceStep(lead, p, tail, Embedded(e));
    ReplaceAbsent(tail, p, Embedded(e));
  }

  /** No occurrence of a placeholder starts inside text without a `!`. */
  lemma NoBangNoPlaceholder(lead: string, name: string)
    requires forall j :: 0 <= j < |lead| ==> lead[j] != '!'
    ensures forall j :: 0 <= j < |lead| ==> !OccursAt(lead + Placeholder(name), Placeholder(name), j)
  {
    var p := Placeholder(name);
    forall j | 0 <= j < |lead|
      ensures !OccursAt(lead + p, p, j)
    {
      var x := lead + p;
      assert x[j] == lead[j] != p[0];
      if j + |p| <= |x| {
        assert x[j..j + |p|][0] != p[0];
      }
    }
  }

  /** `"a ![i](i) b"` with image `i`: the placeholder between `"a "` and `" b"` becomes the embedded image. */
  lemma ReplaceImagesExample()
    ensures ReplaceImagesInMarkdown("a " + Placeholder("i") + " b", [Entry("i", "Zg==")]) ==
      "a " + Embedded(Entry("i", "Zg==")) + " b"
  {
    var e := Entry("i", "Zg==");
    NoBangNoPlaceholder("a ", e.name);
    assert !Contains(" b", Placeholder(e.name));
    ReplaceImagesSingle("a ", e, " b");
  }

  function PageMarkdowns(pages: seq<Page>): (r: seq<string>)
    ensures |r| == |pages|
    ensures forall k :: 0 <= k < |pages| ==>
      r[k] == ReplaceImagesInMarkdown(pages[k].markdown, ImageDict(pages[k].images))
  {
    if pages == [] then []
    else [ReplaceImagesInMarkdown(pages[0].markdown, ImageDict(pages[0].images))] + PageMarkdowns(pages[1..])
  }

  /** `get_combined_markdown`: pages with their images embedded, joined by blank lines. */
  function GetCombinedMarkdown(ocr: OcrResponse): string
  {
    Join("\n\n", PageMarkdowns(ocr.pages))
  }
}
