/** The store action that uploads one file with de-duplication: hash the bytes, skip the
    transfer when the server already holds them, otherwise transfer with progress, then
    create the file record. The status updates it emits are returned as a trace. */
module UploadAction {
  import opened Common
  import opened FileTypes
  import opened UploadService

  /** Answer of the hash lookup: whether the bytes are stored, and where. */
  datatype HashCheck = HashCheck(isExist: bool, metadata: Option<FileMetadata>)

  /** The arguments of `createFile`. */
  datatype NewFileParams = NewFileParams(
    createdAt: int,
    fileType: string,
    hash: string,
    metadata: FileMetadata,
    name: string,
    saveMode: SaveMode,
    size: nat,
    url: string)

  /** The record `createFile` returns. */
  datatype CreatedFile = CreatedFile(id: string, url: string)

  /** The collaborators of one upload, as values: the hash function, the server's hash lookup,
      the transfer's path inputs and events, the MIME sniffer, the clock reading and the
      record-creating endpoint. */
  datatype Collaborators = Collaborators(
    sha256: Bytes -> string,
    checkFileHash: string -> HashCheck,
    stem: string,
    prefix: string,
    date: string,
    presign: string -> string,
    events: seq<XhrEvent>,
    detectMime: Bytes -> Option<string>,
    now: int,
    createFile: (NewFileParams, Option<string>) -> CreatedFile)

  /** Upload state of a finished transfer: 100 %, no time left, speed 0. */
  const FullState := UploadState(Exact(1000), Exact(0), Exact(0))

  /** The message of the `TypeError` raised by reading `path` of an absent metadata object. */
  const MissingMetadataError := "Cannot read properties of undefined (reading 'path')"

  /** The MIME type recorded for the file: the declared one, else the sniffed one, else
      "text/plain". */
  function ResolveFileType(declared: string, detected: Option<string>): (r: string)
    ensures r != ""
    ensures declared != "" ==> r == declared
    ensures declared == "" && detected.Some? && detected.value != "" ==> r == detected.value
    ensures declared == "" && (detected.None? || detected.value == "") ==> r == "text/plain"
  {
    if declared != "" then declared
    else if detected.Some? && detected.value != "" then detected.value
    else "text/plain"
  }

  /** A transport report forwarded to the list: `success` becomes `processing` because the
      record is not created yet; every other status is kept. */
  function ForwardedUpdate(name: string, report: Report): (u: ListAction)
    ensures u.UpdateFile? && u.id == name
    ensures u.value.status != Some(Success)
    ensures report.status != Success ==> u.value.status == Some(report.status)
    ensures u.value.uploadState == Some(report.state)
    ensures u.value.id.None? && u.value.fileUrl.None? && u.value.tasks.None?
  {
    var status := if report.status == Success then Processing else report.status;
    UpdateFile(name, ItemPatch(None, Some(status), Some(report.state), None, None))
  }

  /** The single update of a hash hit: processing, fully uploaded. */
  function HitUpdate(name: string): ListAction {
    UpdateFile(name, ItemPatch(None, Some(Processing), Some(FullState), None, None))
  }

  /** The last update: success, with the server's id and url replacing the local ones. */
  function SuccessUpdate(name: string, created: CreatedFile): ListAction {
    UpdateFile(name, ItemPatch(Some(created.id), Some(Success), Some(FullState), Some(created.url), None))
  }

  /** The record requested from the server for a file stored under `metadata`. */
  function NewFileFor(file: RawFile, env: Collaborators, metadata: FileMetadata): (p: NewFileParams)
    ensures p.hash == env.sha256(file.data)
    ensures p.url == metadata.path && p.metadata == metadata
    ensures p.saveMode == Url && p.name == file.name && p.size == file.size
    ensures p.fileType == ResolveFileType(file.fileType, env.detectMime(file.data))
    ensures p.createdAt == env.now
  {
    NewFileParams(env.now, ResolveFileType(file.fileType, env.detectMime(file.data)),
                  env.sha256(file.data), metadata, file.name, Url, file.size, metadata.path)
  }

  /** The `onProgress` callback applied to each transport report, in order. */
  method ForwardReports(name: string, reports: seq<Report>) returns (updates: seq<ListAction>)
    ensures |updates| == |reports|
    ensures forall j :: 0 <= j < |reports| ==> updates[j] == ForwardedUpdate(name, reports[j])
  {
    updates := [];
    var k := 0;
    while k < |reports|
      invariant 0 <= k <= |reports|
      invariant |updates| == k
      invariant forall j :: 0 <= j < k ==> updates[j] == ForwardedUpdate(name, reports[j])
    {
      updates := updates + [ForwardedUpdate(name, reports[k])];
      k := k + 1;
    }
  }

  /** What `uploadWithProgress` does for `file`: the status updates it emits and how it ends. */
  ghost predicate UploadTrace(file: RawFile, env: Collaborators, knowledgeBaseId: Option<string>,
                              updates: seq<ListAction>, result: Outcome<CreatedFile>)
  {
    var check := env.checkFileHash(env.sha256(file.data));
    var reports := TransferReports(env.events);
    var transfer := TransferOutcome(env.events, StoragePath(env.stem, file.name, env.prefix, env.date));
    // every update addresses the item by its file name
    && (forall j :: 0 <= j < |updates| ==> updates[j].UpdateFile? && updates[j].id == file.name)
    // success is announced once, last, and only when the record was created
    && (forall j :: 0 <= j < |updates| && updates[j].value.status == Some(Success) ==>
          j == |updates| - 1 && result.Done?)
    && (result.Done? ==> |updates| > 0 && updates[|updates| - 1] == SuccessUpdate(file.name, result.value))
    // hash hit: no transfer, one processing update, then the record
    && (check.isExist ==>
          && |updates| > 0 && updates[0] == HitUpdate(file.name)
          && (check.metadata.None? ==> updates == [HitUpdate(file.name)] && result == Thrown(MissingMetadataError))
          && (check.metadata.Some? ==>
                && result == Done(env.createFile(NewFileFor(file, env, check.metadata.value), knowledgeBaseId))
                && updates == [HitUpdate(file.name), SuccessUpdate(file.name, result.value)]))
    // miss: the transfer's reports forwarded in order, then the record once the transfer resolved
    && (!check.isExist ==>
          && |reports| <= |updates|
          && (forall j :: 0 <= j < |reports| ==> updates[j] == ForwardedUpdate(file.name, reports[j]))
          && (transfer.Done? ==>
                |updates| == |reports| + 1
                && result == Done(env.createFile(NewFileFor(file, env, transfer.value), knowledgeBaseId)))
          && (transfer.Thrown? ==> |updates| == |reports| && result == Thrown(transfer.message))
          && (transfer.NeverSettles? ==> |updates| == |reports| && result == NeverSettles))
  }

  /** `uploadWithProgress` of the file store. */
  method UploadWithProgress(file: RawFile, env: Collaborators, knowledgeBaseId: Option<string>)
    returns (updates: seq<ListAction>, result: Outcome<CreatedFile>)
    ensures UploadTrace(file, env, knowledgeBaseId, updates, result)
  {
    var hash := env.sha256(file.data);
    var check := env.checkFileHash(hash);
    var metadata: Option<FileMetadata>;
    updates := [];
    if check.isExist {
      metadata := check.metadata;
      updates := updates + [HitUpdate(file.name)];
    } else {
      var reports, transfer := UploadService.UploadWithProgress(file, env.stem, env.prefix, env.date,
                                                                env.presign, env.events);
      updates := ForwardReports(file.name, reports);
      match transfer
      case Thrown(message) =>
        result := Thrown(message);
        return;
      case NeverSettles =>
        result := NeverSettles;
        return;
      case Done(m) =>
        metadata := Some(m);
    }
    var fileType := file.fileType;
    if fileType == "" {
      fileType := ResolveFileType(fileType, env.detectMime(file.data));
    }
    if metadata.None? {
      result := Thrown(MissingMetadataError);
      return;
    }
    var params := NewFileParams(env.now, fileType, hash, metadata.value, file.name, Url, file.size,
                                metadata.value.path);
    assert params == NewFileFor(file, env, metadata.value);
    var created := env.createFile(params, knowledgeBaseId);
    updates := updates + [SuccessUpdate(file.name, created)];
    result := Done(created);
  }
}
