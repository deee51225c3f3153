/** The client upload service: storage-path construction, the progress display rule, the
    transfer of one file observed as a sequence of XHR events, and `uploadFile`. The random
    stem (`uuid()`), the path prefix, the hour bucket and the presigning endpoint are
    parameters; floating-point speeds and remaining times are not computed. */
module UploadService {
  import opened Common
  import opened FileTypes

  /** `name.split('.').at(-1)`: the text after the last '.', or the whole name when it has none. */
  function LastSegment(name: string): string {
    if |name| == 0 then name
    else if name[|name| - 1] == '.' then ""
    else LastSegment(name[..|name| - 1]) + [name[|name| - 1]]
  }

  /** The extension has no '.', and it is the whole name when the name has none. */
  lemma {:induction false} LastSegmentDotFree(name: string)
    ensures '.' !in LastSegment(name)
    ensures '.' !in name ==> LastSegment(name) == name
  {
    if |name| > 0 && name[|name| - 1] != '.' {
      var init := name[..|name| - 1];
      assert name == init + [name[|name| - 1]];
      LastSegmentDotFree(init);
    }
  }

  /** The extension is a suffix of the name, preceded by a '.' when the name has one. */
  lemma {:induction false} LastSegmentIsSuffix(name: string)
    ensures |LastSegment(name)| <= |name|
    ensures forall i :: 0 <= i < |LastSegment(name)| ==>
      LastSegment(name)[i] == name[|name| - |LastSegment(name)| + i]
    ensures '.' in name ==> |LastSegment(name)| < |name| && name[|name| - |LastSegment(name)| - 1] == '.'
  {
    if |name| > 0 && name[|name| - 1] != '.' {
      var init, last := name[..|name| - 1], name[|name| - 1];
      LastSegmentIsSuffix(init);
      var seg := LastSegment(init);
      assert LastSegment(name) == seg + [last];
      forall i | 0 <= i < |seg|
        ensures (seg + [last])[i] == name[|name| - |seg| - 1 + i]
      {
        assert name[|name| - |seg| - 1 + i] == init[|init| - |seg| + i];
      }
      if '.' in name {
        var j :| 0 <= j < |name| && name[j] == '.';
        assert init[j] == '.';
        assert name[|name| - |seg| - 2] == init[|init| - |seg| - 1];
      }
    }
  }

  /** The object-storage location of an upload: `<prefix>/<date>/<stem>.<extension>`. */
  function StoragePath(stem: string, name: string, prefix: string, date: string): FileMetadata {
    var dirname := prefix + "/" + date;
    var filename := stem + "." + LastSegment(name);
    FileMetadata(date, dirname, filename, dirname + "/" + filename)
  }

  /** The stored file name, and so the path, keeps the extension of the original name. */
  lemma StoragePathKeepsExtension(stem: string, name: string, prefix: string, date: string)
    ensures var m := StoragePath(stem, name, prefix, date);
      && LastSegment(m.filename) == LastSegment(name)
      && LastSegment(m.path) == LastSegment(name)
  {
    var m := StoragePath(stem, name, prefix, date);
    LastSegmentDotFree(name);
    LastSegmentAfterDot(stem, LastSegment(name));
    assert m.filename[|stem|] == '.';
    LastSegmentOfAppend(m.dirname + "/", m.filename);
  }

  /** Whatever precedes the last '.', the segment after it is what `LastSegment` returns. */
  lemma {:induction false} LastSegmentAfterDot(head: string, ext: string)
    requires '.' !in ext
    ensures LastSegment(head + "." + ext) == ext
    decreases |ext|
  {
    var s := head + "." + ext;
    if ext != [] {
      var e0 := ext[..|ext| - 1];
      assert s[..|s| - 1] == head + "." + e0;
      assert ext == e0 + [ext[|ext| - 1]];
      LastSegmentAfterDot(head, e0);
    }
  }

  /** A prefix does not change the last segment of a text that already has a '.'. */
  lemma {:induction false} LastSegmentOfAppend(a: string, b: string)
    requires '.' in b
    ensures LastSegment(a + b) == LastSegment(b)
    decreases |b|
  {
    var s := a + b;
    if b[|b| - 1] != '.' {
      var b0 := b[..|b| - 1];
      assert s[..|s| - 1] == a + b0;
      assert b == b0 + [b[|b| - 1]];
      LastSegmentOfAppend(a, b0);
    }
  }

  /** Two uploads with different stems (the `uuid()` of each call) never share a path. */
  lemma StoragePathInjective(stem1: string, stem2: string, name: string, prefix: string, date: string)
    requires '.' !in stem1 && '.' !in stem2
    requires stem1 != stem2
    ensures StoragePath(stem1, name, prefix, date).path != StoragePath(stem2, name, prefix, date).path
  {
    var m1 := StoragePath(stem1, name, prefix, date);
    var m2 := StoragePath(stem2, name, prefix, date);
    var d := m1.dirname + "/";
    assert m1.path[|d|..] == m1.filename;
    assert m2.path[|d|..] == m2.filename;
    BeforeFirstDotOfStem(stem1, LastSegment(name));
    BeforeFirstDotOfStem(stem2, LastSegment(name));
  }

  /** The text before the first '.', or the whole text when it has none. */
  function BeforeFirstDot(t: string): string {
    if t == [] || t[0] == '.' then [] else [t[0]] + BeforeFirstDot(t[1..])
  }

  /** A stem without '.' is recovered from `stem + "." + ext`. */
  lemma {:induction false} BeforeFirstDotOfStem(stem: string, ext: string)
    requires '.' !in stem
    ensures BeforeFirstDot(stem + "." + ext) == stem
  {
    var t := stem + "." + ext;
    if stem != [] {
      assert t[0] == stem[0];
      assert t[1..] == stem[1..] + "." + ext;
      BeforeFirstDotOfStem(stem[1..], ext);
    }
  }

  /** The presigned upload target of a file, with the metadata it will be stored under. */
  datatype SignedUpload = SignedUpload(metadata: FileMetadata, preSignUrl: string)

  /** `getSignedUploadUrl`: the path is built first and is what the presigning endpoint signs. */
  function GetSignedUploadUrl(file: RawFile, stem: string, prefix: string, date: string,
                              presign: string -> string): (r: SignedUpload)
    ensures r.preSignUrl == presign(r.metadata.path)
    ensures r.metadata == StoragePath(stem, file.name, prefix, date)
  {
    var m := StoragePath(stem, file.name, prefix, date);
    SignedUpload(m, presign(m.path))
  }

  /** `(loaded / total * 100).toFixed(1)` in tenths of a percent, ties rounded up. */
  function ProgressTenths(loaded: nat, total: nat): (r: nat)
    requires total > 0
    ensures r * 2 * total <= 2000 * loaded + total < (r + 1) * 2 * total
  {
    (2000 * loaded + total) / (2 * total)
  }

  /** A raw 100 % is shown as 99.9 %: the server is still processing the file. */
  function DisplayedProgress(raw: int): (r: int)
    ensures r != 1000
    ensures raw != 1000 ==> r == raw
    ensures raw == 1000 ==> r == 999
  {
    if raw == 1000 then 999 else raw
  }

  /** The displayed progress never exceeds 99.9 % while no more than the total is loaded. */
  lemma DisplayedProgressBelowFull(loaded: nat, total: nat)
    requires 0 < total && loaded <= total
    ensures 0 <= DisplayedProgress(ProgressTenths(loaded, total)) <= 999
  {
    var r := ProgressTenths(loaded, total);
    assert r * (2 * total) < 1001 * (2 * total);
    CancelLess(r, 1001, 2 * total);
  }

  /** More bytes loaded never shows less progress. */
  lemma DisplayedProgressMonotone(loaded1: nat, loaded2: nat, total: nat)
    requires 0 < total && loaded1 <= loaded2
    ensures DisplayedProgress(ProgressTenths(loaded1, total)) <= DisplayedProgress(ProgressTenths(loaded2, total))
  {
    var r1 := ProgressTenths(loaded1, total);
    var r2 := ProgressTenths(loaded2, total);
    assert r1 * (2 * total) < (r2 + 1) * (2 * total);
    CancelLess(r1, r2 + 1, 2 * total);
  }

  lemma CancelLess(a: int, b: int, c: int)
    requires c > 0 && a * c < b * c
    ensures a < b
  {
  }

  /** What the transport reports while the body is sent. A `ProgressEvent` with
      `lengthComputable` false carries no usable numbers. */
  datatype XhrEvent =
    | ProgressEvent(lengthComputable: bool, loaded: nat, total: nat)
    | LoadEvent(status: int, statusText: string)
    | ErrorEvent(statusText: string)

  /** One `onProgress(status, state)` call. */
  datatype Report = Report(status: UploadStatus, state: UploadState)

  predicate IsOkStatus(status: int) {
    200 <= status < 300
  }

  /** The report of a length-computable progress event; the ratio of a zero total is not a
      finite number and is left as computed in floating point. */
  function ProgressReport(loaded: nat, total: nat): (r: Report)
    ensures r.status == Uploading
    ensures r.state.progress != Exact(1000)
  {
    var progress := if total > 0 then Exact(DisplayedProgress(ProgressTenths(loaded, total))) else Measured;
    Report(Uploading, UploadState(progress, Measured, Measured))
  }

  /** The report of a 2xx `load` event: progress 100 % and no time left. */
  const SuccessReport := Report(Success, UploadState(Exact(1000), Exact(0), Measured))

  /** Reports of a run of progress events, in event order; events without computable length
      and settle events report nothing. */
  function ProgressReports(events: seq<XhrEvent>): seq<Report> {
    if events == [] then []
    else
      var e := events[|events| - 1];
      ProgressReports(events[..|events| - 1])
        + (if e.ProgressEvent? && e.lengthComputable then [ProgressReport(e.loaded, e.total)] else [])
  }

  /** Every progress report says uploading and none shows 100 %. */
  lemma {:induction false} ProgressReportsUploading(events: seq<XhrEvent>)
    ensures forall j :: 0 <= j < |ProgressReports(events)| ==>
      ProgressReports(events)[j].status == Uploading && ProgressReports(events)[j].state.progress != Exact(1000)
  {
    if events != [] {
      ProgressReportsUploading(events[..|events| - 1]);
    }
  }

  /** Position of the first `load` or `error` event: the promise settles there. */
  function SettleIndex(events: seq<XhrEvent>): (k: nat)
    ensures k <= |events|
    ensures forall i :: 0 <= i < k ==> events[i].ProgressEvent?
    ensures k < |events| ==> !events[k].ProgressEvent?
  {
    if events == [] || !events[0].ProgressEvent? then 0
    else 1 + SettleIndex(events[1..])
  }

  /** All reports of one transfer: the progress reports before the settle event, then the
      success report when the settle event is a 2xx `load`. */
  function TransferReports(events: seq<XhrEvent>): seq<Report> {
    var k := SettleIndex(events);
    ProgressReports(events[..k])
      + (if k < |events| && events[k].LoadEvent? && IsOkStatus(events[k].status) then [SuccessReport] else [])
  }

  /** How the transfer promise ends: resolved with the metadata on a 2xx `load`, rejected with
      the status text on any other `load` or an `error`, pending when neither arrives. */
  function TransferOutcome(events: seq<XhrEvent>, metadata: FileMetadata): Outcome<FileMetadata> {
    var k := SettleIndex(events);
    if k == |events| then NeverSettles
    else match events[k]
      case LoadEvent(status, text) => if IsOkStatus(status) then Done(metadata) else Thrown(text)
      case ErrorEvent(text) => Thrown(text)
      case ProgressEvent(_, _, _) => NeverSettles
  }

  /** `success` is reported exactly when the transfer resolves, and only as the last report;
      every earlier report is an uploading report below 100 %. */
  lemma TransferSuccessIsLast(events: seq<XhrEvent>, metadata: FileMetadata)
    ensures var reports := TransferReports(events);
      && (forall j :: 0 <= j < |reports| && reports[j].status != Uploading ==> j == |reports| - 1)
      && (forall j :: 0 <= j < |reports| && reports[j].status == Uploading ==> reports[j].state.progress != Exact(1000))
      && ((|reports| > 0 && reports[|reports| - 1].status == Success) <==> TransferOutcome(events, metadata).Done?)
  {
    var k := SettleIndex(events);
    ProgressReportsUploading(events[..k]);
  }

  /** `uploadWithProgress`: sign the path, then follow the transfer's events until it settles,
      reporting progress on the way; resolves with the metadata without the presigned URL. */
  method UploadWithProgress(file: RawFile, stem: string, prefix: string, date: string,
                            presign: string -> string, events: seq<XhrEvent>)
    returns (reports: seq<Report>, result: Outcome<FileMetadata>)
    ensures reports == TransferReports(events)
    ensures result == TransferOutcome(events, StoragePath(stem, file.name, prefix, date))
  {
    var signed := GetSignedUploadUrl(file, stem, prefix, date, presign);
    reports := [];
    var i := 0;
    while i < |events| && events[i].ProgressEvent?
      invariant 0 <= i <= |events|
      invariant forall k :: 0 <= k < i ==> events[k].ProgressEvent?
      invariant reports == ProgressReports(events[..i])
    {
      var e := events[i];
      assert events[..i + 1][..i] == events[..i];
      if e.lengthComputable {
        reports := reports + [ProgressReport(e.loaded, e.total)];
      }
      i := i + 1;
    }
    assert i == SettleIndex(events);
    if i == |events| {
      result := NeverSettles;
    } else {
      match events[i]
      case LoadEvent(status, text) =>
        if IsOkStatus(status) {
          reports := reports + [SuccessReport];
          result := Done(signed.metadata);
        } else {
          result := Thrown(text);
        }
      case ErrorEvent(text) =>
        result := Thrown(text);
    }
  }

  /** `isImage`: the MIME type starts with "image/". */
  predicate IsImage(fileType: string) {
    StartsWith(fileType, "image/")
  }

  /** `isImage` is the bare "image" prefix followed by a slash: every type it accepts also
      passes the looser `startsWith('image')` test, and a type such as "imagex" passes only
      the looser one. */
  lemma IsImageIsImagePrefixAndSlash(fileType: string)
    ensures IsImage(fileType) <==> StartsWith(fileType, "image") && |fileType| > 5 && fileType[5] == '/'
    ensures !IsImage("imagex") && StartsWith("imagex", "image")
  {
    if StartsWith(fileType, "image") && |fileType| > 5 && fileType[5] == '/' {
      assert fileType[..6] == fileType[..5] + [fileType[5]];
    }
    if IsImage(fileType) {
      assert fileType[..5] == fileType[..6][..5];
    }
    assert "imagex"[5] != '/';
  }

  /** A file record as stored in the client database. */
  datatype DbFile = DbFile(
    data: Option<Bytes>,
    fileType: string,
    metadata: Option<FileMetadata>,
    name: string,
    saveMode: SaveMode,
    size: nat,
    url: Option<string>)

  /** `uploadFile`. In server mode the bytes go to object storage under a fresh path and the
      record keeps only the path; `putStatus` is the status of the PUT. In local mode an image
      that is not a one-byte test file gets its bytes replaced by `compressed` (the output of
      the image compressor); any other file is returned as it is. */
  function UploadFile(file: DbFile, enableServer: bool, stem: string, prefix: string, date: string,
                      putStatus: int, compressed: Bytes): (r: Outcome<DbFile>)
    ensures enableServer && IsOkStatus(putStatus) ==>
      && r.Done?
      && r.value.saveMode == Url
      && r.value.metadata == Some(StoragePath(stem, file.name, prefix, date))
      && r.value.url == Some(r.value.metadata.value.path)
      && r.value.data == None
      && r.value.name == file.name && r.value.size == file.size && r.value.fileType == file.fileType
    ensures enableServer && !IsOkStatus(putStatus) ==> r == Thrown("Upload Error")
    ensures !enableServer ==> r.Done? && r.value == file.(data := r.value.data)
    ensures !enableServer && (!IsImage(file.fileType) || file.size == 1) ==> r == Done(file)
    ensures !enableServer && IsImage(file.fileType) && file.size != 1 ==> r == Done(file.(data := Some(compressed)))
  {
    if enableServer then
      var m := StoragePath(stem, file.name, prefix, date);
      if IsOkStatus(putStatus) then
        Done(file.(data := None, metadata := Some(m), saveMode := Url, url := Some(m.path)))
      else Thrown("Upload Error")
    else if IsImage(file.fileType) && file.size != 1 then
      Done(file.(data := Some(compressed)))
    else Done(file)
  }
}
