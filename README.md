# lobe-gpt file pipeline, modelled in Dafny

This project models the bookkeeping core of the file and knowledge-base pipeline of
lobe-gpt. The core has six parts:

- **Uploading a file** (`UploadService`). The storage path is built from a random stem, the file's extension, a prefix and an hour bucket. The transfer is followed as a finite sequence of XHR events. Progress is shown in tenths of a percent, and a raw 100 % is displayed as 99.9 %. Only a 2xx `load` is a success. `uploadFile` has a server mode and a local mode.
- **The upload action of the file store** (`UploadAction`). It hashes the bytes and skips the transfer when the server already holds them. It relabels the transport's `success` as `processing`, falls back to a detected or default MIME type, creates the record, and announces `success` last, under the server id. Its status updates are returned as a trace.
- **The chat slice of the file store** (`ChatAction`). The `startAsyncTask` poll loop runs over a finite sequence of poll outcomes. Upload items are built from the picked files. Image files skip the parse task. The per-file pipeline feeds the chat upload list. The list is a class whose dispatch writes nothing when the reducer hands back the same list.
- **The image selectors** (`ChatSelectors`). These are pure reads of the store state.
- **The chunk store and retriever** (`Chunks`). It is an in-memory table of chunk rows with:
  - owner-scoped delete;
  - paging by 20 in index order;
  - per-file counts;
  - the table-text reconstruction;
  - the two top-K similarity rankings (30 rows, and 5 for chat) over an abstract integer score.
- **The file table** (`Files`). Its `FileModel` behaviour is taken from the model's tests. It covers create, find, update, delete and clear. Its query is isolated by user, filters by name and category, and sorts.

Two shared modules support the rest. `Common` holds `Option`, `Outcome`, filtering and ASCII lower-casing. `Sorting` is a stable insertion sort by a total preorder, with a top-K lemma; it stands for SQL `ORDER BY … LIMIT`.

Collaborators are given as values: hashing, presigning, MIME sniffing, the clock, `createFile`, `createParseFileTask`, the list reducer and the similarity score. Time-dependent outcomes are inputs: XHR events, poll outcomes, PUT status, and whether `createParseFileTask` answers, rejects or never settles.

Where the written design and the code differ, the model follows the code:

- **Chunks with no embedding.** The design says chunks without an embedding sort last. The code orders by `desc(similarity)` and leaves NULL placement to the database; PostgreSQL's default for descending order is NULLS FIRST. So the model takes the placement as a parameter `nullsFirst`.
- **Chat search scope.** The design says an empty filter in the chat search searches the user's accessible scope. The code applies no user restriction, and neither does the model.
- **Listing order.** The design calls the listing "strictly ascending" by index. The code sorts by index, so the model proves non-decreasing order; ties are possible.
- **Who sets `success`.** The design lets the task poller drive `processing → success | error`. In the code, `success` is set by the upload action right after `createFile`, and the poller only fills the item's `tasks`.
- **Dedup hit without metadata.** On a hash hit the code does not check that `metadata` is present. A hit without metadata throws a `TypeError` when `createFile` reads `metadata.path`, and the model keeps that path (`MissingMetadataError`).

## Model

| member | source | states |
|---|---|---|
| Sorting.TopKIsBest | src/database/server/models/chunk.ts:135-136 | the first k rows of the sorted candidates are drawn from the input, in order, and every other candidate may follow each of them |
| Chunks.MapChunkText | src/database/server/models/chunk.ts:184-196 | a chunk not of type "Table" keeps its raw (possibly null) text; a table chunk always gets a text |
| Chunks.TableTextParts | src/database/server/models/chunk.ts:187-192 | a table chunk's text is its printed text, the label "\n\ncontent in Table html is below:\n", its printed HTML and a final line break, each at its exact position |
| Chunks.Query | src/database/server/models/chunk.ts:39-44 | exactly the file's chunks (a permutation of them, any owner), most recently updated first |
| Chunks.FindById | src/database/server/models/chunk.ts:46-50 | as written: a row whose file id equals the argument; none exactly when no row has that file id |
| Chunks.FindChunkById | src/database/server/models/chunk.ts:46-50 | corrected: the row whose chunk id equals the argument; none exactly when no row has that id |
| Chunks.FindByIdMissesChunkId | src/database/server/models/chunk.ts:46-50 | a table holding chunk "c1" of file "f1": the lookup as written finds nothing for "c1", the corrected one finds the chunk |
| Chunks.FindByFileIds | src/database/server/models/chunk.ts:52-56 | exactly the rows whose file is listed; an empty list matches nothing |
| Chunks.OwnedFileChunks | src/database/server/models/chunk.ts:59-68 | a permutation of this owner's chunks of the file, sorted by ascending index |
| Chunks.PageRows | src/database/server/models/chunk.ts:64-65 | a page holds at most 20 rows, the ones at positions page*20 to page*20+19, clipped to the sequence |
| Chunks.FindByFileId | src/database/server/models/chunk.ts:58-75 | at most 20 rows, those at positions page*20… of this owner's chunks of the file in index order, without file and owner columns, pageNumber equal to metadata.pageNumber, indices non-decreasing |
| Chunks.PagesPartition | src/database/server/models/chunk.ts:64-66 | the first n pages, concatenated, are exactly the first 20n ordered chunks: no gap, no repetition |
| Chunks.PagesCoverFile | src/database/server/models/chunk.ts:58-75 | enough consecutive pages of findByFileId list every owned chunk of the file exactly once, in index order |
| Chunks.NonEmptyTexts | src/database/server/models/chunk.ts:82-84 | every entry has a non-empty reconstructed text of a chunk of the input, and every chunk with a non-empty text has its entry |
| Chunks.NonEmptyTextsIsFilterMap | src/database/server/models/chunk.ts:82-84 | the text view is exactly the chunks whose reconstructed text is neither null nor empty, filtered in order, each mapped to its id and text: one entry per such chunk, no more |
| Chunks.GetChunksTextByFileId | src/database/server/models/chunk.ts:77-85 | every chunk of the file (any owner) whose reconstructed text is neither null nor empty has an entry carrying that text, and every entry is such a chunk's text; the entries are those chunks, once each, in the order the rows come back |
| Chunks.ChunkTextIdsDistinct | src/database/server/models/chunk.ts:77-85 | with chunk ids unique in the table, no chunk id appears twice in the text view |
| Chunks.TableChunksKeepText | src/database/server/models/chunk.ts:77-85 | a table chunk of the file is never dropped from the text view |
| Chunks.CountOfZero | src/database/server/models/chunk.ts:100-111 | a file's count is zero exactly when no row belongs to it |
| Chunks.CountOfIsFilterLength | src/database/server/models/chunk.ts:92-97 | the count of a file is the number of rows whose file id matches |
| Chunks.GroupsCounted | src/database/server/models/chunk.ts:90-97 | every group is a listed file with its true, positive count |
| Chunks.GroupsDistinct | src/database/server/models/chunk.ts:97 | no file is grouped twice, however often it is listed |
| Chunks.GroupsComplete | src/database/server/models/chunk.ts:90-97 | every listed file that has chunks has a group |
| Chunks.CountByFileIds | src/database/server/models/chunk.ts:87-98 | an empty list gives no groups; otherwise one (fileId, count) per listed file with chunks, each file once, with its true positive count |
| Chunks.CountByFileId | src/database/server/models/chunk.ts:100-111 | zero exactly when the file has no chunks, and equal to the count of the grouped query for that file |
| Chunks.ScoreOrderIsPreorder | src/database/server/models/chunk.ts:135 | descending similarity with NULLs grouped at one end is total and transitive |
| Chunks.TopChunks | src/database/server/models/chunk.ts:133-136 | min(k, n) candidates, drawn from the input, in descending similarity, every omitted candidate ranking no better than each kept one |
| Chunks.SearchScope | src/database/server/models/chunk.ts:134 | a given file-id list, even an empty one, restricts the candidates to those files; without one every chunk is a candidate |
| Chunks.ChatScope | src/database/server/models/chunk.ts:170 | only a non-empty file-id list restricts the candidates; an empty or absent one leaves every chunk |
| Chunks.SemanticSearch | src/database/server/models/chunk.ts:113-144 | min(30, candidates) rows, each a candidate with its raw text and score, in descending similarity, no better candidate left out, and no candidate's row appearing more often than the candidate does |
| Chunks.SemanticSearchForChat | src/database/server/models/chunk.ts:146-182 | min(5, candidates) rows, each a candidate with its reconstructed text and score, in descending similarity, no better candidate left out, and no candidate's row appearing more often than the candidate does |
| Chunks.SearchRowsDrawnOnce | src/database/server/models/chunk.ts:133-136 | the rows of the best k candidates form a sub-multiset of the rows of all candidates |
| Chunks.ChatRowsDrawnOnce | src/database/server/models/chunk.ts:170-172 | the chat rows of the best k candidates form a sub-multiset of the chat rows of all candidates |
| Chunks.SearchSimilarityNonIncreasing | src/database/server/models/chunk.ts:135 | rows that both carry a similarity come in non-increasing similarity |
| Chunks.ChatEmptyFilterIsNoFilter | src/database/server/models/chunk.ts:170 | the chat search with an empty list equals the chat search without a list |
| Chunks.SearchEmptyFilterMatchesNothing | src/database/server/models/chunk.ts:134 | the general search with an empty list returns nothing |
| Chunks.DeleteOwned | src/database/server/models/chunk.ts:35-37 | the table keeps every row except this owner's chunk with that id, and an absent id changes nothing |
| Chunks.DeleteOwnedCount | src/database/server/models/chunk.ts:35-37 | with distinct ids, deleting an existing owned chunk removes exactly one row |
| Chunks.FilterKeepsDistinct | src/database/server/models/chunk.ts:35-37 | a delete keeps chunk ids distinct |
| Chunks.ChunkModel.constructor | src/database/server/models/chunk.ts:19-21 | the model is bound to its user and the shared table |
| Chunks.ChunkModel.Create | src/database/server/models/chunk.ts:23-25 | the row is appended unless its id clashes with an existing one, in which case nothing changes |
| Chunks.ChunkModel.BulkCreate | src/database/server/models/chunk.ts:27-29 | all rows are appended in one write, or none when any id clashes with the table or within the batch |
| Chunks.ChunkModel.Delete | src/database/server/models/chunk.ts:35-37 | the table becomes the owner-scoped deletion of the old table, ids staying distinct |
| UploadService.LastSegmentDotFree | src/services/upload.ts:15 | the extension contains no '.', and it is the whole name when the name has none |
| UploadService.LastSegmentIsSuffix | src/services/upload.ts:162 | the extension is a suffix of the name, preceded by a '.' when the name contains one |
| UploadService.LastSegmentAfterDot | src/services/upload.ts:162 | whatever precedes the last '.', the extension of head + "." + ext is ext |
| UploadService.StoragePathKeepsExtension | src/services/upload.ts:162-167 | the stored file name and the path keep the original name's extension |
| UploadService.StoragePathInjective | src/services/upload.ts:162-167 | two uploads with different dot-free stems never get the same path |
| UploadService.GetSignedUploadUrl | src/services/upload.ts:155-178 | the presigned url is the signature of exactly the metadata's path, and the metadata is the storage path of the file |
| UploadService.ProgressTenths | src/services/upload.ts:85 | the progress in tenths of a percent is loaded/total*1000 rounded half up |
| UploadService.DisplayedProgress | src/services/upload.ts:93 | 100 % is never shown: it is shown as 99.9 %, and every other value is shown as is |
| UploadService.DisplayedProgressBelowFull | src/services/upload.ts:84-96 | while no more than the total is loaded, the shown progress is between 0 and 99.9 % |
| UploadService.DisplayedProgressMonotone | src/services/upload.ts:85-93 | more bytes loaded never shows less progress |
| UploadService.ProgressReport | src/services/upload.ts:83-98 | a progress report is always "uploading" and never shows 100 % |
| UploadService.ProgressReportsUploading | src/services/upload.ts:83-98 | every report of a run of progress events is "uploading" below 100 % |
| UploadService.SettleIndex | src/services/upload.ts:104-119 | the position of the first load or error event; every earlier event is a progress event |
| UploadService.TransferSuccessIsLast | src/services/upload.ts:104-119 | only the last report can be other than "uploading"; "success" is reported exactly when the transfer resolves |
| UploadService.UploadWithProgress | src/services/upload.ts:74-122 | the reports are the progress reports before the settle event, then success on a 2xx load; the result is the storage metadata on a 2xx load, the status text otherwise, pending when nothing settles |
| UploadService.IsImageIsImagePrefixAndSlash | src/services/upload.ts:123-126 | `isImage` accepts a type exactly when it starts with "image" followed by a '/', so "imagex" passes the chat pipeline's looser `startsWith('image')` test but not `isImage` |
| UploadService.UploadFile | src/services/upload.ts:12-52 | server mode: on an ok PUT a url record with the storage metadata and url = path, otherwise "Upload Error"; local mode: only the bytes may change; an `image/` file that is not a one-byte test file gets the compressor's bytes, and any other file is returned unchanged |
| UploadAction.ResolveFileType | src/store/file/slices/upload/action.ts:58-66 | the declared type when non-empty, else the detected type when non-empty, else "text/plain"; never empty |
| UploadAction.ForwardedUpdate | src/store/file/slices/upload/action.ts:49-55 | a forwarded report is addressed to the file name, never says success, keeps every other status, and carries the upload state |
| UploadAction.NewFileFor | src/store/file/slices/upload/action.ts:68-81 | the record requested has the hash of the bytes, url = metadata.path, saveMode url, the file's name and size, the resolved type and the clock reading |
| UploadAction.ForwardReports | src/store/file/slices/upload/action.ts:49-55 | one update per transport report, in order |
| UploadAction.UploadWithProgress | src/store/file/slices/upload/action.ts:31-95 | (as the predicate `UploadTrace`) every update addresses the file name; success comes once, last, only when the record was created, with its id and url; a hash hit gives one processing update at 100 % and no transfer, then exactly the success update when the metadata is present, or the `TypeError` when it is absent; a miss forwards the transfer's reports, then creates the record or fails as the transfer did |
| ChatAction.RunPolls | src/store/file/slices/chat/action.ts:72-99 | polling ends right after a final snapshot (finishEmbedding, or an error in either stage), which is then the last one reported, at a fetch that finds no file, or when the outcomes run out; no earlier reported snapshot is final |
| ChatAction.RunPollsStopsAtFirstEnd | src/store/file/slices/chat/action.ts:74-99 | every round before the last one used was a failed fetch or a non-final snapshot, so a missing file or a final snapshot ends polling at once; the rounds run out exactly when every round continues |
| ChatAction.RunPollsReportsFetched | src/store/file/slices/chat/action.ts:78-89 | each snapshot fetched before polling stopped is reported exactly once, in order |
| ChatAction.StartAsyncTask | src/store/file/slices/chat/action.ts:69-100 | a failing runner stops the task before any poll; otherwise the loop's reports, end and rounds equal the polling run |
| ChatAction.NewUploadItem | src/store/file/slices/chat/action.ts:107-122 | id = file name and status pending; the preview and base64 urls are present exactly for image and video types, the latter as "data:<type>;base64,<payload>" |
| ChatAction.NewUploadItems | src/store/file/slices/chat/action.ts:106-123 | one new entry per picked file, in order |
| ChatAction.ParseTaskRunner | src/store/file/slices/chat/action.ts:147-164 | a rejection of `createParseFileTask` passes through with its own error, and a call that never settles leaves the runner pending; an answer makes the runner succeed with the task id exactly when it is a task with a non-empty id, and throw "failed to createParseFileTask" otherwise |
| ChatAction.TaskUpdate | src/store/file/slices/chat/action.ts:166-180 | the update addresses the server id and copies exactly the six task fields of the snapshot |
| ChatAction.ProcessChatFile | src/store/file/slices/chat/action.ts:128-183 | the upload part of the trace is exactly what `uploadWithProgress` does for the file under its collaborators (updates and outcome); an image file, or a failed or pending upload, gets no task updates; any other file gets the empty task update under the record's id first, then one update per polled snapshot, or nothing more when the runner throws (with its error) or never returns |
| ChatAction.HitDispatchesSuccessThenTask | src/store/file/slices/chat/action.ts:128-145 | a non-image file already on the server, with metadata, is created, and its first three updates are processing, success with the record's id and url, and the empty task update under that id |
| ChatAction.FailedTransferRejects | src/store/file/slices/chat/action.ts:128-185 | a file whose transfer fails makes its promise, and `Promise.all`, reject with the transfer's error |
| ChatAction.PoolOutcome | src/store/file/slices/chat/action.ts:128-183 | a file's promise rejects with its upload's error or its runner's error, resolves after an image's upload or a task that finished or whose file vanished, and stays pending otherwise |
| ChatAction.AllPools | src/store/file/slices/chat/action.ts:185 | `Promise.all` resolves exactly when every file's promise resolves, rejects exactly when some file's promise rejects, with that file's error (the first such file), and is pending otherwise |
| ChatAction.StateIsLastWrite | src/store/file/slices/chat/action.ts:56-61 | after any series of dispatches the list is the one last written (the initial list when nothing was written), and there are no more writes than actions |
| ChatAction.ApplyAllAppend | src/store/file/slices/chat/action.ts:56-61 | dispatching two series in a row gives the same list and write log as dispatching their concatenation |
| ChatAction.ChatUploadStore.Clear | src/store/file/slices/chat/action.ts:53-55 | the list becomes empty, with one write under the clear action's name |
| ChatAction.ChatUploadStore.Dispatch | src/store/file/slices/chat/action.ts:56-61 | nothing is written when the reducer returns the same list; otherwise the new list is written under "dispatchChatFileList/<type>" |
| ChatAction.ChatUploadStore.DispatchAll | src/store/file/slices/chat/action.ts:56-61 | a series of dispatches leaves the list and the write log as the reducer series defines |
| ChatAction.ChatUploadStore.RunFile | src/store/file/slices/chat/action.ts:128-183 | one file's pipeline runs as `ProcessChatFile` guarantees (its upload as `uploadWithProgress` does it), and its upload updates, then its task updates, are dispatched in order |
| ChatAction.ChatUploadStore.UploadChatFiles | src/store/file/slices/chat/action.ts:102-186 | the new entries are added first, then each file's upload and task updates, file after file, each file's trace as its pipeline guarantees; the call settles as `Promise.all` over the files; the list and write log are those of the dispatched series |
| ChatAction.ChatUploadStore.RemoveChatUploadFile | src/store/file/slices/chat/action.ts:62-67 | the entry's removal is dispatched, then the file's removal on the server is requested |
| ChatSelectors.GetImageDetailByList | src/store/file/slices/chat/selectors.ts:3-7 | no more details than ids, each a known preview flagged loading exactly when its id is uploading; all ids known gives their previews in order; no id known gives nothing |
| ChatSelectors.GetImageDetailByListAppend | src/store/file/slices/chat/selectors.ts:3-7 | the selection over a concatenation is the concatenation of the selections, so list order is kept |
| ChatSelectors.GetImageDetailByListIsFilterMap | src/store/file/slices/chat/selectors.ts:3-7 | the selection equals: keep the known ids in order, then look each up and add its loading flag |
| ChatSelectors.ImageDetailList | src/store/file/slices/chat/selectors.ts:9 | the details of the chat input's files, with the same bounds, loading flags and order |
| ChatSelectors.GetImageUrlOrBase64ById | src/store/file/slices/chat/selectors.ts:11-21 | nothing exactly for an unknown id; otherwise the id with the base64 url of a locally saved image, or the stored url |
| ChatSelectors.GetImageUrlOrBase64ByList | src/store/file/slices/chat/selectors.ts:23-27 | no more entries than ids, each the by-id answer of a known id; all ids known gives them in order; no id known gives nothing |
| ChatSelectors.GetImageUrlOrBase64ByListAppend | src/store/file/slices/chat/selectors.ts:23-27 | the list over a concatenation is the concatenation of the lists, so order is kept |
| ChatSelectors.GetImageUrlOrBase64ByListIsFilterMap | src/store/file/slices/chat/selectors.ts:23-27 | one entry per known id, in order, equal to its by-id answer |
| ChatSelectors.ImageUrlOrBase64List | src/store/file/slices/chat/selectors.ts:29-36 | no more entries than items; no image items gives nothing; all images gives each item's id and uploaded url in order |
| ChatSelectors.ImageUrlOrBase64ListIsFilterMap | src/store/file/slices/chat/selectors.ts:29-36 | the list is the image items, filtered in order, mapped to id and uploaded url |
| ChatSelectors.IsImageUploading | src/store/file/slices/chat/selectors.ts:38 | true exactly when some id is being uploaded |
| Files.LexLeTotal | src/database/server/models/__tests__/file.test.ts:149-155 | any two names are ordered one way or the other |
| Files.LexLeTrans | src/database/server/models/__tests__/file.test.ts:149-155 | name order is transitive |
| Files.BeforeIsPreorder | src/database/server/models/__tests__/file.test.ts:149-163 | every column and direction gives a total preorder, so sorting is well defined |
| Files.QueryRows | src/database/server/models/__tests__/file.test.ts:107-132 | a permutation of the selected rows, sorted by the requested column and direction, newest first by default |
| Files.QuerySelects | src/database/server/models/__tests__/file.test.ts:107-132 | a row is listed exactly when it is the user's and passes the name and category filters; other users' rows never appear |
| Files.QueryOwned | src/database/server/models/__tests__/file.test.ts:107-132 | every listed row is one of the user's own rows of the table |
| Files.DefaultOrderIsNewestFirst | src/database/server/models/__tests__/file.test.ts:194-203 | without a known sorter and direction, every matching file is returned, newest first |
| Files.RequestedOrder | src/database/server/models/__tests__/file.test.ts:149-186 | with a known sorter and direction, the list is ordered by name, size or creation time, ascending or descending |
| Files.NameFilter | src/database/server/models/__tests__/file.test.ts:134-139 | with a non-empty q, a row is listed exactly when it is the user's and q occurs in its name ignoring ASCII case |
| Files.TabFilter | src/database/server/models/__tests__/file.test.ts:141-147 | with a tab other than All, a row is listed exactly when it is the user's and its type starts with the tab's prefix |
| Files.FindIn | src/database/server/models/__tests__/file.test.ts:206-223 | the found row is this user's row with that id; none exactly when there is no such row |
| Files.FindCreated | src/database/server/models/__tests__/file.test.ts:206-223 | a created row is found by its id |
| Files.UpdateOwned | src/database/server/models/__tests__/file.test.ts:225-244 | only the user's row with that id changes, and only in name and size; id, owner, url, type and creation time stay |
| Files.DeleteOwned | src/database/server/models/__tests__/file.test.ts:48-60 | no row of this user with that id remains, and every other row stays |
| Files.ClearOwned | src/database/server/models/__tests__/file.test.ts:62-80 | none of this user's rows remain, and every other user's row stays |
| Files.ClearEmptiesQuery | src/database/server/models/__tests__/file.test.ts:62-80 | after a clear, the user's file list is empty whatever the query |
| Files.FileModel.Create | src/database/server/models/__tests__/file.test.ts:33-46 | the row with the given fields, this user and the creation time is appended unless its id clashes, and is then found by its id |
| Files.FileModel.FindById | src/database/server/models/__tests__/file.test.ts:206-223 | a found row has that id and this user |
| Files.FileModel.Query | src/database/server/models/__tests__/file.test.ts:107-132 | every listed row is one of this user's rows |
| Files.FileModel.Update | src/database/server/models/__tests__/file.test.ts:225-244 | the table becomes the owner-scoped update of the old table, ids staying distinct |
| Files.FileModel.Delete | src/database/server/models/__tests__/file.test.ts:48-60 | the table becomes the owner-scoped deletion of the old table, and the id is no longer found |
| Files.FileModel.Clear | src/database/server/models/__tests__/file.test.ts:62-80 | the table loses all of this user's rows, and the user's default list is empty |

## Left out

- bulkCreateUnstructuredChunks (src/database/server/models/chunk.ts:31-33) inserts into a table the rest of the core never reads, so it is not modelled.
- Chunks.PagesPartition: each page is a separate query, and the database need not break ties between equal indices the same way every time. The model sorts every page query the same stable way, so with repeated indices two pages could overlap or skip a chunk where the model shows neither.
- Chunks.PagesCoverFile: the same single tie order is assumed across the page queries, as for PagesPartition.
- The cosine similarity is an abstract integer score per chunk id. NULL placement in descending order is the parameter `nullsFirst`, and ties are ordered as a stable sort leaves them.
- The SQL `LIKE` wildcards `%` and `_` inside a search term, and case folding beyond ASCII letters, are not modelled. Name order is code-point order, not a database collation.
- The speed and remaining-time figures are computed in floating point from `Date.now()`, so they are `Measured`. `toFixed(1)` is modelled as rounding half up on the exact ratio.
- The progress of an event with a zero total is `Measured`: the source's ratio is not a finite number there.
- The hour bucket, the `uuid()` stem, the path prefix and the PUT status are parameters.
- UploadService.UploadFile: in local mode, the compressed bytes are a parameter. The `Image` load and compression of `uploadImageFile` (src/services/upload.ts:129-147), and its in-place overwrite of `file.data`, are modelled as a new record value.
- UploadService.UploadFile: in server mode, a rejected presign call or a rejected `fetch` (src/services/upload.ts:22-28) makes the call reject; the model has no such outcome and only distinguishes an ok PUT status from a failed one.
- UploadService.UploadFile: in local mode, when the `Image` never fires its `load` event (src/services/upload.ts:136-138), the call never settles; the model always returns `Done` for an image.
- UploadService.UploadWithProgress: a rejected presign call (src/services/upload.ts:80) makes the call reject before any transfer event; the model treats the presign service as a total function, so that rejection is not an outcome.
- UploadAction.UploadWithProgress: for the same reason, a presign rejection that would reach the store action as a thrown error with no forwarded update is not modelled.
- UploadService.StoragePath has no contract of its own; its properties are the lemmas listed above.
- The `TypeError` of a hash hit without metadata is `Thrown(MissingMetadataError)`. Its message is the one V8 gives; other engines word it differently.
- Failures of `checkFileHash`, `createFile` and the MIME sniffer are not modelled: these collaborators are total functions here.
- ChatAction.StartAsyncTask: polling runs over a given finite sequence of outcomes. If it ends before a final snapshot, the end is `OutOfPolls`, where the source keeps polling forever. The two-second `sleep` is not modelled.
- ChatAction.ChatUploadStore.UploadChatFiles runs the files' pipelines one after the other. The `Promise.all` interleaving of different files' updates is not modelled; each file's own updates keep their order.
- ChatAction.AllPools: when several files' promises reject, the one that rejects first in time gives the error; the model takes the first in file order.
- The agent-store and user-guide side effects inside the runner (src/store/file/slices/chat/action.ts:151-161) are not modelled.
- The deprecated `useFetchFile` (src/store/file/slices/chat/action.ts:188-203) is not modelled: it is an SWR hook around a fetch.
- The internals of `uploadFileListReducer` are an abstract function; only its "same list" answer is modelled.
- `removeFile` on the server is recorded as a request, not performed.
- Files: the `FileModel` source is not part of this model. Its behaviour is pinned only by its tests. The rest is assumed:
  - the category prefixes other than image and application ("audio", "video", "text/html");
  - `findById`, `update` and `delete` being scoped to the user;
  - an empty `q` filtering nothing;
  - newest first whenever the sorter or the direction is missing or unknown.
- Files.FileModel.Create: the row id, which the database generates, is an argument.
- ChatSelectors.ImageUrlOrBase64List takes the store's `chatUploadFileList` directly.

## Findings

| source | as written | input that shows it | evidently intended | confidence | as-written member | corrected member |
|---|---|---|---|---|---|---|
| src/database/server/models/chunk.ts:46-50 | `findById(id)` filters on `chunks.fileId` | a table holding chunk "c1" of file "f1": `findById("c1")` finds nothing, and `findById("f1")` returns a chunk of the file | the chunk whose own id is `id` | not executed; medium, since no caller is visible to confirm the intent | Chunks.FindById, Chunks.FindByIdMissesChunkId | Chunks.FindChunkById |
