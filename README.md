# edu-lm core in Dafny

edu-lm is a study assistant. A user uploads PDF documents and videos and then
chats with a language model about them. This project models the state
machinery behind that conversation and proves properties of it:

- **Documents.** The OCR result of a PDF is turned into the markdown of its
  pages, with the images embedded (`Ocr`). Each uploaded document gets a fresh
  `doc_{n}` key (`Allocation`). The handler keeps a registry of documents, their
  order and their positions in the model's ledger (`Session.AppState`).
- **Content blocks.** Each document becomes a pair of content lists for the
  model (`Blockifier`). The *full* list carries the text segments and the
  base64 images. The *display* copy (`llm_chat_history_show`) truncates
  long texts and image data.
- **The ledger.** Both ledgers hold a system prompt, one user turn per
  document and an end marker (`DocumentUtils`). A document uploaded later
  is appended as a new turn, and its position is recorded.
- **Reconciliation in `upload_and_process`** (`Reconcile`). The registry is
  made to follow the upload widget. Documents whose names left the widget
  are removed, and their ledger turns are overwritten by deletion turns,
  each followed by a notice. New files are OCR'd and added. The status
  message is built, and the ledger is rebuilt when none exists.
- **Chat turns** (`StateManager`). These cover the placeholder exchange, the
  streamed reply (one transcript snapshot per non-empty delta, then the
  question and answer committed to both ledgers), the error path, clearing
  and resetting.
- **Structured information** for the JSON dumps (`DataManager`). Every
  image placeholder becomes a `<doc-d-page-p-img-k>` tag.
- **Video registry** (`VideoRegistry`, `VideoUtils`, `LegacyVideoUtils`).
  Local files and a YouTube link are registered, duplicates are skipped,
  unsupported formats are refused, and a status message is built.
  Descriptions are generated for new videos only (`Descriptions`). The
  module also covers the clock-time helpers.
- **The `main.py` handlers** for videos (`App`): the local-video diff of the
  combined upload/removal handler, the removal dropdown and its selection,
  and the global-state updates of the stream, clear and reset handlers.
- **The RAG preprocessing pipeline** (`RagDataProcessor`). It splits a text
  on `<N>` tags into pages and groups the sorted pages three by three into
  mini-documents. Each chunk is attributed to a source page and to the
  mini-document index `(page - 1) // 3`, as the source computes it; the
  attribution with the corrected index is a separate function
  (`AnnotateCorrected`), which agrees with it for pages numbered 1 to n.

The global variables of `main.py` form one `Session.AppState` object. Its
methods modify only the fields the source assigns. The chat transcript the
UI shows is passed in and returned.

Calls into the OCR service, the model's stream, the description model, the
text splitter and the YouTube id extractor become parameters:
- an OCR result that may be absent;
- a sequence of stream deltas, plus a flag saying the stream raised after them;
- function-typed parameters.

`data_manager.py` (lines 45-151) repeats the logic of
`manage/data_manager.py` (lines 56-162). It differs only in the output path,
so one `DataManager` module models both. `video_utils.py` is the older
variant of `utils/video_utils.py` and is modelled by `LegacyVideoUtils`.

Where the code and its documentation disagree, the model follows the code:
- `save_docs_structured_info` returns the fresh cache even when writing the
  file fails.
- `upload_and_process_document` increments its `chat_position_counter`
  argument without returning it, so the caller's counter does not change.
- `process_video_upload` in `utils/video_utils.py` takes one URL string.
  `main.py` passes it a list, and the model follows the function.

## Model

| member | source | states |
|---|---|---|
| Paths.BaseName | main.py:66 | `Path(p).name`: a trailing part of the path with no `/` in it |
| Paths.BaseNameJoin | main.py:66 | a directory, `/` and a plain name give back exactly that name |
| Paths.Suffix | utils/video_utils.py:76 | `Path.suffix`: empty, or a dot followed by a non-empty extension without dots |
| Paths.SuffixOf | utils/video_utils.py:76 | `stem.ext` has the suffix `.ext` |
| Decimal.NatToStringRoundTrip | utils/video_description.py:26-32 | the decimal rendering of n is all digits and `int` reads it back as n |
| Decimal.Pad2RoundTrip | utils/video_description.py:19 | the `:02d` rendering is all digits and reads back as the same number |
| Strings.SplitJoin | utils/video_description.py:24 | `split(':')` undoes joining colon-free parts with `:` |
| Ocr.PutFacts | document_utils.py:40-42 | a dictionary assignment keeps keys unique, maps the key to the new data and leaves every other key's lookup unchanged |
| Ocr.ImageDictLookup | document_utils.py:39-44 | the image dictionary of a document maps each image id to the data of its last occurrence, and to nothing for absent ids |
| Ocr.CollectImages | document_utils.py:39-44 | the collection loop builds exactly that dictionary, in first-insertion order |
| Ocr.ReplaceImagesUntouched | document_utils.py:10-25 | markdown holding no placeholder of any image comes back unchanged |
| Ocr.ReplaceImagesSingle | document_utils.py:10-25 | when the first occurrence of an image's placeholder follows `lead` and `tail` holds none, the placeholder becomes the embedded image and the text around it is kept |
| Ocr.ReplaceImagesExample | document_utils.py:10-25 | `a ![i](i) b` with image `i`: the placeholder between `a ` and ` b` becomes `![i](Zg==)`, so the single-placeholder case can be met |
| Ocr.PageMarkdowns | document_utils.py:27-46 | one markdown per page, each with that page's own images embedded |
| Allocation.KeyNumberOfKey | document_utils.py:281 | the key `doc_{n}` reads back as the number n |
| Allocation.KeyInjective | document_utils.py:281-283 | two numbers give the same key only when they are equal |
| Allocation.FirstFree | document_utils.py:282-283 | the least number from n up whose key is free; every key in between is taken |
| Allocation.AllocateAsWritten | document_utils.py:281-283 | the loop as written yields a free key, and fails to end exactly when both candidates are taken |
| Allocation.AllocationAgrees | document_utils.py:281-283 | whenever the loop as written ends, the corrected allocation gives the same key |
| Allocation.DocAllocationHangs | document_utils.py:281-283 | with `doc_2` and `doc_3` registered, the loop never ends |
| Allocation.AllocateKey | utils/video_utils.py:91-94 | the corrected allocator returns a key not yet used, numbered `first` or counting up from `retry` |
| Blockifier.CreateDocumentContentBlock | document_utils.py:130-235 | the loops build exactly the document's full and display lists as specified page by page |
| Blockifier.EmitPage | document_utils.py:165-233 | one pass appends the page header, the page's image segments and its remaining text to both lists |
| Blockifier.EmitImages | document_utils.py:182-223 | the image loop consumes the placeholders in dictionary order, appends their segments and leaves the rest of the markdown |
| Blockifier.EmitImage | document_utils.py:183-223 | one image: the text before its placeholder, its naming line and its data, with the markdown cut after the placeholder |
| Blockifier.EmitRemaining | document_utils.py:225-233 | the text after the last placeholder is appended only when non-empty |
| Blockifier.ImageBlockMirrors | document_utils.py:187-223 | an image's display segments match its full segments in number and type, with truncated texts and data |
| Blockifier.ImagesFoldMirrors | document_utils.py:182-223 | the image loop keeps the display list a mirror of the full list |
| Blockifier.PageBlockMirrors | document_utils.py:165-233 | a page's display segments mirror its full segments |
| Blockifier.PagesBlockMirrors | document_utils.py:165-233 | all pages together keep the mirror |
| Blockifier.DocumentBlockMirrors | document_utils.py:144-233 | an unknown id gives two empty lists; otherwise the lists mirror each other and both open with the name and page count |
| Blockifier.ImageBlockImages | document_utils.py:199-223 | one image adds exactly its own data, right after the text naming it |
| Blockifier.ImagesFoldImages | document_utils.py:182-223 | a page's image loop emits the dictionary's data in dictionary order, each after its naming text |
| Blockifier.FramedImages | document_utils.py:169-233 | the page header and remaining text add no image and break no naming |
| Blockifier.PageBlockImages | document_utils.py:165-233 | a page's images are exactly the values of its image dictionary |
| Blockifier.PagesBlockImages | document_utils.py:165-233 | the images of all pages appear page after page |
| Blockifier.DocumentBlockImages | document_utils.py:179-223 | the full list carries every image of the document, in page and dictionary order, each named `doc-{d}-page-...` |
| Blockifier.ImagesInOrder | document_utils.py:182-196 | when the placeholders occur in dictionary order, each text chunk is exactly the markdown between two placeholders |
| Blockifier.MissingPlaceholder | document_utils.py:183-196 | a missing placeholder (`find` gives -1) emits the markdown minus its last character and skips placeholder-length-minus-one characters |
| Blockifier.TurnsMirrorUpdate | main.py:115-118 | writing the same turn at one slot of both ledgers keeps the display ledger a mirror |
| DocumentUtils.DocBlocksAt | document_utils.py:367-371 | the i-th document turn carries the block of the i-th ordered id built at ordinal i |
| DocumentUtils.LedgerShape | document_utils.py:359-383 | a ledger of n documents has n + 2 turns: system prompt, turn i + 1 for document i, end marker |
| DocumentUtils.RepositionPlaces | document_utils.py:374 | each ordered id is recorded at the index of its turn, its ordinal + 1 |
| DocumentUtils.RepositionOthers | document_utils.py:374 | ids outside the order keep their old position, or stay absent |
| DocumentUtils.RepositionKeys | document_utils.py:374 | the positions cover exactly the old keys and the ordered ids |
| DocumentUtils.BuiltLedgerMirrors | document_utils.py:355-383 | the display ledger mirrors the model ledger turn by turn |
| DocumentUtils.AddDocumentTurns | document_utils.py:367-374 | one pass appends the next document's turn to both ledgers and records its position |
| DocumentUtils.CreateChatMessagesForLlm | document_utils.py:341-388 | with no documents, one placeholder turn and nothing recorded; otherwise the full ledger, positions per document and counter = ledger length |
| DocumentUtils.UploadAndProcessDocument | document_utils.py:237-322 | OCR failure changes nothing; success stores the record under a fresh key, appends it to the order and registers it in the ledger or the pending positions |
| DocumentUtils.StoreDocument | document_utils.py:292-316 | a fresh document enters the registry and either the ledger (at its new last turn) or the pending positions |
| DocumentUtils.RegisterDocument | document_utils.py:292-300 | the record is stored under its key and the key appended to the order |
| DocumentUtils.AppendDocumentTurn | document_utils.py:302-312 | the document's full and display turns go at the end of their ledgers and its position is the new last index |
| Session.AppState.constructor | main.py:30-39 | all globals start empty, `None` or 0, and the state starts consistent |
| Session.DocsConsistentAdd | document_utils.py:292-316 | adding a fresh document with its position keeps order, registry and positions consistent |
| Session.LedgerConsistentAppend | document_utils.py:308-312 | appending a mirrored pair of turns and recording it keeps both ledgers aligned and positions in range |
| StateManager.AddUserAndPlaceholder | manage/state_manager.py:49-73 | the transcript (empty when absent) gains the user message and the `...` placeholder, nothing else changes |
| StateManager.SetLast | manage/state_manager.py:179 | only the content of the last transcript entry changes |
| StateManager.SetLastTwice | manage/state_manager.py:172-187 | overwriting the last entry twice leaves only the later text |
| StateManager.Preview | manage/state_manager.py:148-149 | texts up to 500 characters are kept, longer ones become their first 500 characters and `...` |
| StateManager.PreviewMirrors | manage/state_manager.py:147-149 | a plain turn and its preview form a mirrored pair |
| StateManager.ExchangeMirrors | manage/state_manager.py:147-196 | committing question and answer to both ledgers keeps the mirror |
| StateManager.StreamYieldsAt | manage/state_manager.py:172-187 | there is one snapshot per non-empty delta, and the j-th shows the concatenation of the first j + 1 |
| StateManager.ConcatPrefix | manage/state_manager.py:176 | every partial answer is a prefix of every later one |
| StateManager.StreamChunks | manage/state_manager.py:172-190 | the streaming loop yields exactly those snapshots and ends with the full answer in the last entry |
| StateManager.Converse | manage/state_manager.py:143-218 | a completed stream commits question and answer to both ledgers; a raising one keeps the question and shows the error |
| StateManager.StreamAssistantReply | manage/state_manager.py:100-218 | no documents: upload hint, nothing else changes; otherwise the ledger is built only when absent, and the stream's outcome decides transcript, ledgers, positions and counter |
| StateManager.ClearChat | manage/state_manager.py:75-98 | the transcript, both ledgers, the positions and the counter are all cleared |
| StateManager.ResetAllState | manage/state_manager.py:7-38 | registries, ledgers, positions, counter and document cache are cleared; the video cache is left alone |
| DataManager.ImageTagRoundTrip | manage/data_manager.py:94-105 | the tag `doc-d-page-p-img-k` parses back to its three numbers |
| DataManager.ImageTagInjective | manage/data_manager.py:94-105 | distinct images get distinct tags |
| DataManager.PageImages | manage/data_manager.py:91-109 | image k of a page gets id k, its tag, and its data |
| DataManager.PagesInfo | manage/data_manager.py:79-121 | page p's entry is built from page p with number p |
| DataManager.PresentIndicesFacts | manage/data_manager.py:70-71 | the listed ordinals are the increasing positions of exactly the registered ids |
| DataManager.DocsInfoAt | manage/data_manager.py:68-134 | one entry per registered ordered id, carrying its name, its ordinal in the order and its pages |
| DataManager.TaggedUntouched | manage/data_manager.py:92-100 | markdown holding no image placeholder is left unchanged |
| DataManager.TaggedSingle | manage/data_manager.py:92-100 | when the first occurrence of the only image's placeholder follows `lead` and `tail` holds none, it becomes the tag `<doc-{doc}-page-{page}-img-0>` and the text around it is kept |
| DataManager.TaggedExample | manage/data_manager.py:92-100 | `a ![i](i) b` on page 0 of document 0 becomes `a `, the tag of image 0 and ` b`, so the single-placeholder case can be met |
| DataManager.GeneratePageInfo | manage/data_manager.py:79-121 | the page loop body builds exactly that page's entry |
| DataManager.GenerateDocumentContent | manage/data_manager.py:79-121 | the page loop builds exactly the pages' entries |
| DataManager.GenerateDocsStructuredInfo | manage/data_manager.py:56-134 | the document loop builds exactly the specified entries |
| DataManager.SaveDocsStructuredInfo | manage/data_manager.py:136-162 | the returned cache is the freshly generated information, whatever the old cache held |
| DataManager.SaveVideoStructuredInfo | manage/data_manager.py:164-177 | the cache becomes a copy of the descriptions, or empty when there are none |
| VideoRegistry.StatusLines | utils/video_utils.py:153-160 | one line per non-empty list, so none exactly when nothing was added or failed; the added line (`Added video: '…'` for one, `Added n videos: …` for several) comes first and the failed line last |
| VideoRegistry.StoreGrows | utils/video_utils.py:97-105 | storing under a fresh key only grows the registry |
| VideoRegistry.NextVideoIdFresh | utils/video_utils.py:91-94 | the allocated video key is not yet in use |
| VideoRegistry.FileStepGrows | utils/video_utils.py:69-109 | one file only grows the registry, and each video it adds is a local upload with a new name |
| VideoRegistry.FilesFoldGrows | utils/video_utils.py:65-109 | so does the whole file loop |
| VideoRegistry.KnownFilesSkipped | utils/video_utils.py:70-81 | files that are `None` or already registered by name change nothing |
| VideoRegistry.UnsupportedRejected | utils/video_utils.py:83-87 | a new file of an unsupported format is only logged as failed |
| VideoRegistry.SameNameTwice | utils/video_utils.py:61-105 | names are checked against the snapshot taken before the loop, so one name twice in one upload is added twice under distinct keys |
| VideoRegistry.YouTubeStepGrows | utils/video_utils.py:112-145 | the YouTube step only grows the registry |
| VideoRegistry.YouTubeStepAdds | utils/video_utils.py:112-139 | it adds at most one video, a YouTube video with a new non-empty id named after it |
| VideoRegistry.YouTubeOutcomes | utils/video_utils.py:112-141 | a known id changes nothing; an id that cannot be extracted logs `Invalid YouTube URL` |
| VideoRegistry.RegisteredGrows | utils/video_utils.py:60-145 | registration only grows the registry, by one key per processed entry |
| VideoRegistry.RegisteredConsistent | utils/video_utils.py:60-145 | registration keeps order and registry consistent |
| VideoRegistry.SnapshotNames | utils/video_utils.py:61 | the snapshot lists the ordered videos' names in order |
| VideoRegistry.SnapshotYouTubeIds | utils/video_utils.py:62 | the snapshot lists the YouTube ids of the ordered YouTube videos |
| VideoRegistry.RegisterFile | utils/video_utils.py:69-109 | one loop pass updates the registry as the file step specifies |
| VideoRegistry.RegisterFiles | utils/video_utils.py:65-109 | the file loop updates the registry as the fold of the file step specifies |
| VideoRegistry.RegisterYouTube | utils/video_utils.py:112-145 | the YouTube branch updates the registry as the YouTube step specifies |
| VideoRegistry.StoreVideo | utils/video_utils.py:91-105 | the video goes under the allocated key, at the end of the order and of the processed list |
| VideoRegistry.RegisterVideos | utils/video_utils.py:60-145 | the registry ends as registration specifies and stays consistent |
| VideoUtils.StatusTurns | utils/video_utils.py:147-164 | a status turn appears exactly when something was added or failed; it opens with the added line and ends with the total |
| VideoUtils.DescribedIdsMembers | utils/video_utils.py:177-181 | a key counts as described exactly when a cached description carries its number |
| VideoUtils.CollectDescribedIds | utils/video_utils.py:177-181 | the loop collects exactly those keys |
| VideoUtils.DescribeNewVideos | utils/video_utils.py:170-198 | the cache grows by the fresh descriptions, with a generating message, then completion or nothing-new |
| VideoUtils.ReportAndDescribe | utils/video_utils.py:147-204 | the transcript and cache are the specified outcome of the status and description steps |
| VideoUtils.ProcessVideoUpload | utils/video_utils.py:39-206 | the registry ends as registration specifies, stays consistent, and the outcome follows from what was processed |
| VideoUtils.OutcomeWithoutDescriptions | utils/video_utils.py:166-169 | with nothing processed or no client the cache is unchanged and at most one status turn is added |
| VideoUtils.OutcomeDescribesNew | utils/video_utils.py:169-196 | otherwise the cache is extended, keeping the old entries, by descriptions of stored videos not yet described |
| LegacyVideoUtils.StatusTurns | video_utils.py:141-158 | a status turn appears exactly when something was added or failed; it opens with the added line (one name quoted, or the count and the names) and ends with the total and the note |
| LegacyVideoUtils.ProcessVideoUpload | video_utils.py:36-160 | the registry ends as registration specifies and the transcript gains the status turn |
| Descriptions.ParseAll | utils/video_description.py:26-31 | `map(int, parts)` succeeds exactly when every part parses, giving their values in order |
| Descriptions.HmsRoundTrip | utils/video_description.py:14-32 | converting the `HH:MM:SS` rendering of a number of seconds back gives that number |
| Descriptions.FormatFields | utils/video_description.py:14-19 | the rendering has three fields, and minutes and seconds are two digits below 60 |
| Descriptions.ConvertMinutes | utils/video_description.py:29-31 | `M:S` converts to 60 M + S |
| Descriptions.ConvertSeconds | utils/video_description.py:32-33 | a single field converts to its value |
| Descriptions.CombineVideoParts | utils/video_description.py:396-419 | the result is the combined parts, and the first description of the first part is updated in place |
| Descriptions.CombinedKeeps | utils/video_description.py:406-419 | combining keeps the first part's descriptions, and only extends the content of its first one |
| Descriptions.ProcessSingleVideo | utils/video_description.py:422-457 | a failed call gives nothing; otherwise the first description gets the name, index and availability flag, and the rest is kept |
| Descriptions.NewTasksSound | utils/video_description.py:521-527 | each task names a stored, not yet described video at its own position in the order |
| Descriptions.NewTasksComplete | utils/video_description.py:521-527 | every stored, not yet described ordered video gets a task |
| Descriptions.NewTasksOrdered | utils/video_description.py:521-527 | tasks follow the order |
| Descriptions.CreateTasks | utils/video_description.py:518-527 | the loop creates exactly those tasks |
| Descriptions.MergedFailures | utils/video_description.py:537-544 | failed or empty results contribute nothing, and a single result is kept whole |
| Descriptions.MergeResults | utils/video_description.py:537-544 | the loop concatenates the successful results in task order |
| Descriptions.GenerateNewVideoDescriptions | utils/video_description.py:503-549 | the merged descriptions of the new videos, in order |
| Descriptions.GenerateAllVideoDescriptions | utils/video_description.py:460-500 | the merged descriptions of every stored ordered video |
| Descriptions.OutcomeIds | utils/video_description.py:446-451 | each answered description carries its video's position and name |
| Reconcile.Present | main.py:65 | the widget's files without the `None` entries |
| Reconcile.FilesToRemove | main.py:72 | a name is to be removed exactly when it is registered and no current file has it |
| Reconcile.FilesToAdd | main.py:75 | a file is to be added exactly when it is current and its name is not registered |
| Reconcile.RemoveFirstDistinct | main.py:93 | `list.remove` on a list of distinct ids drops exactly that id |
| Reconcile.IdsNamed | main.py:84-87 | exactly the ordered registered ids whose document has the name |
| Reconcile.IdsNamedDistinct | main.py:84-87 | those ids are distinct |
| Reconcile.RemoveIds | main.py:88-98 | one removal log entry and one slot per removed id |
| Reconcile.RemoveNamed | main.py:83-98 | the log and the slots grow together |
| Reconcile.RemoveIdsMaps | main.py:92-96 | the removed ids leave both the registry and the positions |
| Reconcile.RemoveIdsOrder | main.py:93 | the order loses exactly the removed ids and stays duplicate-free |
| Reconcile.RemoveIdsLog | main.py:88-98 | the log gains the name once per id, and the slots gain each id's position, or none |
| Reconcile.RemoveIdsByName | main.py:89-91 | the name-keyed map records, under the name, the position of one of the removed ids |
| Reconcile.RemoveOneName | main.py:83-98 | removing a name drops exactly its documents and keeps every other document, its order and position |
| Reconcile.RemoveOneNameConsistent | main.py:83-98 | removing a name keeps the registry consistent |
| Reconcile.RemoveNamedRegistry | main.py:83-98 | removing a list of names keeps the registry consistent and drops exactly their documents |
| Reconcile.RemoveNamedLog | main.py:83-98 | the log only grows, and only by names in the list |
| Reconcile.RemoveNamedSlots | main.py:88-96 | the per-document slots are exactly the positions of the removed documents |
| Reconcile.DeletionTurnMirrors | main.py:105-118 | the deletion turn is written alike to both ledgers |
| Reconcile.Tombstone | main.py:102-123 | each removal appends one notice |
| Reconcile.TombstoneKeeps | main.py:115-118 | ledger turns that no removal targets keep their content |
| Reconcile.TombstoneMarks | main.py:115-118 | each targeted turn holds the deletion turn of a removal that targets it |
| Reconcile.TombstoneNotices | main.py:120-122 | the appended turns are the notices, in removal order |
| Reconcile.TombstoneMirrors | main.py:102-123 | tombstoning both ledgers alike keeps the display ledger a mirror |
| Reconcile.NameSlots | main.py:89-115 | as written, every removal of a name looks up the one position stored under that name |
| Reconcile.TombstoneClearsRemoved | main.py:88-118 | with per-document slots, every removed document's ledger turn holds a deletion turn |
| Reconcile.TombstoneByNameKeepsContent | main.py:88-118 | with name-keyed slots, one of two same-named removed documents keeps its content in the ledger |
| Reconcile.NameSlotsAgree | main.py:89-115 | when no two removed documents share a name, the name-keyed lookup finds each document's own slot, so both give the same tombstoned ledger |
| Reconcile.RemoveDocuments | main.py:83-98 | the removal loop ends in the specified registry, log and slots |
| Reconcile.RemoveNameDocuments | main.py:84-98 | the inner loop for one name does the same for that name |
| Reconcile.RemoveDocument | main.py:88-98 | one pass deletes the id from registry, order and positions, and logs it with its slot |
| Reconcile.TombstoneLedgers | main.py:102-123 | both ledgers are tombstoned when something was removed and a ledger exists, and are unchanged otherwise |
| Reconcile.Processed | main.py:126-136 | the names of exactly the files whose OCR succeeded |
| Reconcile.Failed | main.py:126-136 | the paths of exactly the files whose OCR failed |
| Reconcile.ProcessedFailedCount | main.py:126-136 | every file counts as processed or failed, exactly once |
| Reconcile.AddDocuments | main.py:126-136 | the add loop reports those lists and extends registry and ledger with the processed files only |
| Reconcile.AddOne | main.py:127-136 | one file is added on OCR success, and only logged on failure |
| Reconcile.DocStatusLines | main.py:139-157 | one line per non-empty list, so none exactly when nothing changed; the added line first, then the removed line, then the failed line, each quoting one name or counting and listing several |
| Reconcile.UploadStatus | main.py:139-161 | a status turn exactly when something changed, ending with the document total |
| Reconcile.RemovalKeepsLedger | main.py:83-98 | removal keeps the ledger/positions invariant |
| Reconcile.TombstoneKeepsLedger | main.py:102-123 | tombstoning keeps the ledger/positions invariant |
| Reconcile.BuiltLedgerConsistent | main.py:167-177 | a rebuilt ledger and its positions satisfy the invariants |
| Reconcile.Synced | main.py:59-136 | afterwards every registered document's name is current, and every current file whose OCR succeeded is registered |
| Reconcile.RemovePhase | main.py:83-123 | removes the names and tombstones the ledgers when present |
| Reconcile.SyncRegistry | main.py:59-136 | the registry mirrors the widget; the report follows the plan; the registry after the removals is extended by the processed names, old entries keeping record and position; the ledger is the tombstoned one followed by one turn per processed file, and without a ledger new documents are reserved the unchanged counter |
| Reconcile.InstallLedger | main.py:167-177 | stores the built ledgers, positions and counter |
| Reconcile.FinishUpload | main.py:139-180 | the transcript gains the status; when the ledger is absent and there are documents both ledgers are built, positions renumbered in order and the counter set past them; otherwise ledgers, positions and counter are unchanged; the cache is regenerated |
| Reconcile.UploadAndProcess | main.py:44-182 | the registry mirrors the widget; status, tombstones, rebuilt ledger and cache follow from the sync plan; the registry after the removals is extended by the processed names; with an existing ledger the counter is unchanged and the ledger grows by one turn per processed file after the tombstones; a ledger built from scratch renumbers the extended registry's positions |
| App.ExistingLocalVideos | main.py:235-241 | the loop builds exactly the name index of local videos |
| App.LocalIndexKeys | main.py:235-241 | the index holds exactly the names of ordered local videos, each once |
| App.LocalIndexLast | main.py:235-241 | each name maps to the last ordered local video of that name |
| App.VideosToRemove | main.py:243-247 | the loop lists exactly the specified removal pairs |
| App.RemovalPairsSpec | main.py:243-247 | a pair is listed exactly for an indexed name missing from the upload, each name once |
| App.LocalVideosToRemoveSound | main.py:226-247 | each scheduled removal is an ordered local video whose name left the upload; no name twice |
| App.LocalVideosToRemoveComplete | main.py:226-247 | every ordered local video whose name left the upload has its name scheduled |
| App.VideoUploadAndRemovalPlan | main.py:211-277 | the handler removes the scheduled pairs and uploads exactly when there are files or parsed URLs |
| App.UpdateVideoRemovalDropdown | main.py:314-333 | no videos: the single placeholder choice; otherwise the prompt and one label per ordered registered video |
| App.ChoicesSpec | main.py:326-331 | the labels are exactly those of the ordered registered videos |
| App.BeforeSeparator | main.py:353 | the text before the first `: `, or all of it |
| App.SelectedVideoId | main.py:348-353 | no id exactly for an empty or placeholder selection |
| App.SelectionRoundTrip | main.py:331-353 | the id of a label comes back from the selection when the id holds no `: ` |
| App.RemovalErrorChat | main.py:361-365 | the error goes after the existing entries, as an assistant entry |
| App.StreamAssistantReplyWrapper | main.py:412-450 | the globals receive the reply's ledgers, positions and counter: with no documents nothing changes; the ledgers are built only when absent (positions and counter kept otherwise); a completed stream commits question and answer to the model ledger and their previews to the display ledger; a raising one commits only the question to a pre-existing ledger; the state stays consistent |
| App.StreamKeepsConsistent | main.py:412-450 | every outcome of the reply keeps the registry and ledger invariants |
| App.ClearChatWrapper | main.py:452-468 | the chat and ledgers are cleared, the registry is kept and the cache regenerated |
| App.ResetAllStateWrapper | main.py:470-488 | everything is reset, both caches included |
| RagDataProcessor.DigitRunSpec | rag/data_processor.py:16 | the digit run is maximal: all digits, ending at the end or at a non-digit |
| RagDataProcessor.TagLenSound | rag/data_processor.py:16 | a match found at a position is a tag `<digits>` |
| RagDataProcessor.TagLenComplete | rag/data_processor.py:16 | a tag at a position is found, with its full length |
| RagDataProcessor.SplitTagsSpec | rag/data_processor.py:16 | `re.split`: the pieces and the tags interleave back to the text, every tag matches, and no piece holds a tag |
| RagDataProcessor.ParseDocument | rag/data_processor.py:10-19 | page i exists exactly when piece i is not blank after stripping |
| RagDataProcessor.SortedKeysListing | rag/data_processor.py:24 | the listing is `sorted(pages.keys())` |
| RagDataProcessor.ParsedKeys | rag/data_processor.py:17-24 | the listing of a parsed document is sorted and complete |
| RagDataProcessor.ListingEmpty | rag/data_processor.py:104-105 | the listing is empty exactly when there are no pages |
| RagDataProcessor.SortedListingUnique | rag/data_processor.py:24 | a sorted listing of the keys is unique |
| RagDataProcessor.GroupsFromIn | rag/data_processor.py:25-26 | every group holds one to three listed pages |
| RagDataProcessor.GroupsFromCover | rag/data_processor.py:25-26 | the groups cover the keys in order, one group per three keys rounded up |
| RagDataProcessor.CreateMiniDocuments | rag/data_processor.py:21-35 | the loop builds one mini-document per group |
| RagDataProcessor.MiniDocsSpec | rag/data_processor.py:21-35 | ceil(n/3) mini-documents: each joins its pages with the separator and spans from its first to its last page |
| RagDataProcessor.FirstPageContainingSpec | rag/data_processor.py:86-91 | the found page holds the probe and no earlier page does; none found means no page does |
| RagDataProcessor.SourcePage | rag/data_processor.py:86-91 | the first page holding the probe, else page 1 |
| RagDataProcessor.MiniDocIndexHolds | rag/data_processor.py:93 | the corrected index names a mini-document that holds the page |
| RagDataProcessor.MiniDocIndexConsecutive | rag/data_processor.py:93 | for pages 1..n without gaps the corrected index equals `(page - 1) // 3` |
| RagDataProcessor.MiniDocIndexGap | rag/data_processor.py:93 | with pages 1, 3, 4 the formula as written names a mini-document that does not exist |
| RagDataProcessor.MiniDocIndexLeadingPage | rag/data_processor.py:93 | with text before `<1>` (pages 0 to 3) the formula as written gives page 0 the index -1 and page 3 the index 0, while page 3 is in mini-document 1 |
| RagDataProcessor.ChunkTheDocument | rag/data_processor.py:73-101 | one chunk per splitter chunk, in order, each with the source page, `(page - 1) // 3` and the context lookup of the source |
| RagDataProcessor.AnnotateSpec | rag/data_processor.py:84-98 | a chunk found in a page is attributed to the first such page (no lower-numbered page holds its probe), otherwise to page 1 with index 0; the index is the floor of (page - 1) / 3, negative exactly for page 0, and the context is the one stored under it or `No context available.` |
| RagDataProcessor.AnnotateCorrectedSpec | rag/data_processor.py:84-98 | with the corrected index, a chunk found in a page is attributed to the first such page (no lower-numbered page holds its probe) and to the mini-document that holds it |
| RagDataProcessor.AnnotateAgrees | rag/data_processor.py:84-98 | for pages numbered 1 to n the attribution as written equals the corrected one |
| RagDataProcessor.ProcessSingleFile | rag/data_processor.py:103-111 | no pages give no chunks; otherwise the splitter's chunks of the joined pages, each attributed as `chunk_the_document` does, with the index as written |

## Left out

- The Gradio user interface is not modelled: HTML rendering, the media viewer and the document buttons are left out (`utils/ui_utils.py` is not part of this model).
- Audio input and text-to-speech are not modelled (`utils/audio_utils.py`).
- External services are parameters:
  - the Mistral OCR call is an optional OCR result carried by the uploaded file;
  - the model's stream is a list of deltas and a raise flag;
  - the description model is a function from a video record to a possible list of descriptions;
  - the YouTube id extractor is a function from a URL to a possible id;
  - the context generator and the text splitter of the RAG pipeline are function parameters.
- The regular expression in `extract_youtube_id`, `is_youtube_url` and the XML/JSON parsing of model answers (`parse_xml_to_json`, `extract_json_from_response`, the prompt builders) are not modelled.
- `markdown_to_html`, `extract_text_from_markdown`, `extract_text_from_ocr_response` and `view_document` only feed the display or plain-text copies. A document record keeps the OCR result, its file name and its combined markdown.
- Persistence is left out: `save_chat_history`, `save_llm_call_payload`, `initialize_json_files`, `save_video_descriptions_to_file` and the JSON file writes. The caches they would also write are modelled.
- Concurrency is left out: `asyncio.gather` is modelled as running the tasks one after another in order. Exceptions of individual tasks count as failed results. The event-loop management of the sync wrappers is left out.
- `remove_video`, `parse_youtube_urls_from_text` and `process_video_upload_wrapper` are imported by `main.py` but are not part of this model. The combined video handler is modelled as the plan it hands to them.
- `rag/hybrid_rag.py`, `rag/main.py` and the configuration files are not part of this model.
- `\d` in the page-tag pattern is read as the ASCII digits, `str.strip` as stripping ASCII whitespace, and `str.lower` as changing only ASCII letters. Python's Unicode classes are not modelled.
- `sorted(pages.keys())` is modelled as the listing of keys in increasing order. Parsed page keys are already in that order.
- Descriptions.ConvertHmsToSeconds: `int()` also accepts signs, surrounding whitespace and underscores. The model parses plain digit strings only and returns no value where `int()` raises.
- Descriptions.FormatTimeSecondsToHms: takes a whole, non-negative number of seconds. Float and negative inputs are not modelled.
- StateManager.StreamAssistantReply: requires a non-empty transcript. With an empty one the source fails on `chat_history[-1]`; the handler always calls it after the placeholder was added.
- Reconcile.UploadAndProcess, Reconcile.SyncRegistry: state the ledger after the additions as the tombstoned ledger followed by one turn per processed file. They do not restate each added turn's content or the slot each new document gets in an existing ledger, which `Reconcile.AddOne` and `DocumentUtils.AppendDocumentTurn` state one file at a time.
- Reconcile.RemoveNamed, Reconcile.RemoveDocuments, Reconcile.RemoveNameDocuments, Reconcile.RemoveDocument, Reconcile.RemovePhase, Reconcile.SyncRegistry and Reconcile.UploadAndProcess: with two documents of one name, the tombstones follow per-document slots, the corrected behaviour of the Finding below. `Reconcile.NameSlots` models the name-keyed lookup as written, and `Reconcile.NameSlotsAgree` shows the two agree when no two removed documents share a name.
- DataManager.SaveDocsStructuredInfo: generating the information cannot fail in the model. The source's fallback to the old cache on an exception is not modelled.

## Findings

| source | as written | input that shows it | evidently intended | confidence | as-written member | corrected member |
|---|---|---|---|---|---|---|
| document_utils.py:281-283 | the retry key `doc_{len(documents) + 1}` does not change inside the loop | `doc_2` and `doc_3` registered: both candidates are taken and the loop never ends (same shape in utils/video_utils.py:92-94) | count up until a free key is found | not executed | Allocation.DocAllocationHangs | Allocation.AllocationAgrees |
| main.py:91 | the removed slots are recorded per file name, so later documents of the same name overwrite earlier ones | two registered documents with one name, at ledger slots 0 and 1, both removed: both tombstones go to slot 1 and slot 0 keeps the first document | each removed document's own slot is tombstoned | not executed | Reconcile.TombstoneByNameKeepsContent | Reconcile.TombstoneClearsRemoved |
| rag/data_processor.py:93 | `(chunk_page - 1) // 3` assumes pages numbered 1, 2, 3, ... | pages 1, 3 and 4 (page 2 blank) form one mini-document, but page 4 gets index 1 | the index of the group holding the page | not executed | RagDataProcessor.MiniDocIndexGap | RagDataProcessor.AnnotateCorrectedSpec |
