/** The values stored in the `documents` and `videos` dictionaries. */
module Records {
  import opened Common
  import opened Ocr

  /** `documents[doc_id]`: the file name, the combined markdown and the OCR response. */
  datatype DocRecord = DocRecord(fileName: string, content: string, ocr: OcrResponse)

  datatype VideoKind = Local | YouTube

  /** `videos[video_id]`: a local upload or a YouTube link. */
  datatype VideoRecord = VideoRecord(
    fileName: string,
    filePath: Option<string>,
    kind: VideoKind,
    url: Option<string>,
    youtubeId: Option<string>)

  /** One image of a page in the structured export (`page_image_content`). */
  datatype ImageInfo = ImageInfo(imageId: nat, imageTag: string, base64: string)

  /** One page in the structured export; `markdown` is `page_markdown_content.content`. */
  datatype PageInfo = PageInfo(pageNum: nat, markdown: string, images: seq<ImageInfo>)

  /** One entry of the structured document export (`docs_structured_info`). */
  datatype DocInfo = DocInfo(documentName: string, documentId: nat, available: nat, content: seq<PageInfo>)

  /**
   * One video description as returned by the description service: the
   * identifying fields may be absent until `process_single_video` sets them;
   * the items of `video_content` are kept as opaque strings.
   */
  datatype VideoDescription = VideoDescription(
    videoName: Option<string>,
    videoId: Option<int>,
    infoAvailable: Option<int>,
    videoContent: seq<string>)
}
