/** Client-side value types shared by the upload service, the upload action, the chat
    upload list and its selectors. */
module FileTypes {
  import opened Common

  /** A browser `File`: its name, declared MIME type (possibly empty), byte size and bytes. */
  datatype RawFile = RawFile(name: string, fileType: string, size: nat, data: Bytes)

  /** Where an uploaded object is stored: the hour bucket, the directory, the file name and
      the full path. */
  datatype FileMetadata = FileMetadata(date: string, dirname: string, filename: string, path: string)

  /** `'local'` (bytes kept in the browser) or `'url'` (bytes in object storage). */
  datatype SaveMode = Local | Url

  /** The client-visible status of an upload item. */
  datatype UploadStatus = Pending | Uploading | Processing | Success | Error

  /** A number the program reports: an exact literal or integer ratio, or a value it computes
      in floating point from wall-clock time, which the model does not compute. */
  datatype Measure = Exact(value: int) | Measured

  /** Upload sub-state; `progress` is in tenths of a percent (`Exact(1000)` is 100 %). */
  datatype UploadState = UploadState(progress: Measure, restTime: Measure, speed: Measure)

  /** Status of the chunking or embedding stage of a stored file. */
  datatype AsyncTaskStatus = TaskPending | TaskProcessing | TaskSuccess | TaskError

  /** The processing sub-state of an upload item; every field may be missing (`tasks: {}`). */
  datatype FileParsingTask = FileParsingTask(
    chunkCount: Option<int>,
    chunkingError: Option<string>,
    chunkingStatus: Option<AsyncTaskStatus>,
    embeddingError: Option<string>,
    embeddingStatus: Option<AsyncTaskStatus>,
    finishEmbedding: Option<bool>)

  /** A status snapshot of a stored file, as fetched while polling. */
  datatype FileListItem = FileListItem(
    id: string,
    name: string,
    chunkCount: Option<int>,
    chunkingError: Option<string>,
    chunkingStatus: Option<AsyncTaskStatus>,
    embeddingError: Option<string>,
    embeddingStatus: Option<AsyncTaskStatus>,
    finishEmbedding: bool)

  /** One entry of the chat upload list. */
  datatype UploadFileItem = UploadFileItem(
    id: string,
    file: RawFile,
    status: UploadStatus,
    previewUrl: Option<string>,
    base64Url: Option<string>,
    fileUrl: Option<string>,
    uploadState: Option<UploadState>,
    tasks: Option<FileParsingTask>)

  /** A partial update of an upload item (`Partial<UploadFileItem>`): absent fields are kept. */
  datatype ItemPatch = ItemPatch(
    id: Option<string>,
    status: Option<UploadStatus>,
    uploadState: Option<UploadState>,
    fileUrl: Option<string>,
    tasks: Option<FileParsingTask>)

  /** Payloads of the upload-list reducer. */
  datatype ListAction =
    | AddFiles(files: seq<UploadFileItem>)
    | UpdateFile(id: string, value: ItemPatch)
    | RemoveFile(id: string)
}
