/** The chat slice of the file store: the polling loop that follows a file's chunking and
    embedding, the construction of upload items, the pipeline of one uploaded chat file, and
    the chat upload list with its dispatch, clear and remove actions. Timers, the network and
    the list reducer are collaborators given as values. */
module ChatAction {
  import opened Common
  import opened FileTypes
  import opened UploadAction
  import UploadService

  // ---------------------------------------------------------------------------------------
  // startAsyncTask

  /** The outcome of one polling round: the status fetch failed, or it returned a snapshot
      (`None` when the file is unknown). */
  datatype Poll = FetchFailed | Fetched(item: Option<FileListItem>)

  /** How a task ends: its runner threw or never returned, the file reached a final state,
      the file disappeared, or the given polling rounds ran out before either. */
  datatype TaskEnd = RunnerFailed(message: string) | RunnerPending | Finished | ItemGone | OutOfPolls

  /** A snapshot after which polling stops: embedding finished, or either stage failed. */
  predicate IsFinal(item: FileListItem) {
    item.finishEmbedding || item.chunkingStatus == Some(TaskError) || item.embeddingStatus == Some(TaskError)
  }

  /** The snapshots reported, how polling ended, and how many rounds it used. */
  datatype PollRun = PollRun(updates: seq<FileListItem>, end: TaskEnd, consumed: nat)

  /** The snapshots of the rounds whose fetch returned a file, in order. */
  function FetchedItems(polls: seq<Poll>): seq<FileListItem> {
    if polls == [] then []
    else
      (if polls[0].Fetched? && polls[0].item.Some? then [polls[0].item.value] else [])
        + FetchedItems(polls[1..])
  }

  /** A round after which polling goes on: the fetch failed, or it returned a snapshot that
      is not final. */
  predicate Continues(poll: Poll) {
    poll == FetchFailed || (poll.item.Some? && !IsFinal(poll.item.value))
  }

  /** Polling over the given rounds: a failed fetch is skipped, a missing file ends the task
      without a report, and every snapshot is reported before the final-state test. */
  function RunPolls(polls: seq<Poll>): (run: PollRun)
    ensures run.consumed <= |polls|
    ensures run.end == Finished || run.end == ItemGone || run.end == OutOfPolls
    ensures run.end == OutOfPolls ==> run.consumed == |polls|
    ensures run.end != OutOfPolls ==> run.consumed > 0
    ensures run.end == ItemGone ==> polls[run.consumed - 1] == Fetched(None)
    ensures run.end == Finished ==>
      |run.updates| > 0 && IsFinal(run.updates[|run.updates| - 1])
      && polls[run.consumed - 1] == Fetched(Some(run.updates[|run.updates| - 1]))
    ensures forall j :: 0 <= j < |run.updates| && IsFinal(run.updates[j]) ==>
      run.end == Finished && j == |run.updates| - 1
  {
    if polls == [] then PollRun([], OutOfPolls, 0)
    else
      match polls[0]
      case FetchFailed =>
        var rest := RunPolls(polls[1..]);
        rest.(consumed := rest.consumed + 1)
      case Fetched(None) => PollRun([], ItemGone, 1)
      case Fetched(Some(item)) =>
        if IsFinal(item) then PollRun([item], Finished, 1)
        else
          var rest := RunPolls(polls[1..]);
          var run := PollRun([item] + rest.updates, rest.end, rest.consumed + 1);
          assert forall j :: 1 <= j < |run.updates| ==> run.updates[j] == rest.updates[j - 1];
          run
  }

  /** Polling stops at the first round that does not continue it, and only there: every
      round before the last one used continues, and the rounds run out exactly when all of
      them continue. */
  lemma {:induction false} RunPollsStopsAtFirstEnd(polls: seq<Poll>)
    ensures var run := RunPolls(polls);
      && (forall j :: 0 <= j < run.consumed - 1 ==> Continues(polls[j]))
      && (run.end == OutOfPolls <==> forall j :: 0 <= j < |polls| ==> Continues(polls[j]))
  {
    if polls != [] && Continues(polls[0]) {
      RunPollsStopsAtFirstEnd(polls[1..]);
      assert forall j :: 1 <= j < |polls| ==> polls[j] == polls[1..][j - 1];
    }
  }

  /** The snapshots fetched in the first `n` rounds: the first round's, then those of the
      next `n - 1`. */
  lemma FetchedItemsPrefix(polls: seq<Poll>, n: nat)
    requires 0 < n <= |polls|
    ensures FetchedItems(polls[..n])
      == (if polls[0].Fetched? && polls[0].item.Some? then [polls[0].item.value] else [])
         + FetchedItems(polls[1..][..n - 1])
  {
    assert polls[..n][0] == polls[0];
    assert polls[..n][1..] == polls[1..][..n - 1];
  }

  /** Each snapshot fetched before polling stopped is reported exactly once, in order. */
  lemma {:induction false} RunPollsReportsFetched(polls: seq<Poll>)
    ensures RunPolls(polls).updates == FetchedItems(polls[..RunPolls(polls).consumed])
  {
    if polls != [] {
      var run := RunPolls(polls);
      FetchedItemsPrefix(polls, run.consumed);
      match polls[0]
      case FetchFailed =>
        RunPollsReportsFetched(polls[1..]);
      case Fetched(None) =>
      case Fetched(Some(item)) =>
        if !IsFinal(item) {
          RunPollsReportsFetched(polls[1..]);
        }
    }
  }

  /** A run resumed after `done` rounds: the reports so far are prepended. */
  function Resume(done: seq<FileListItem>, consumed: nat, rest: PollRun): PollRun {
    PollRun(done + rest.updates, rest.end, consumed + rest.consumed)
  }

  /** `startAsyncTask`: await the runner, then poll until a final snapshot, a missing file,
      or (in this model) the end of the given rounds; failed fetches are retried. */
  method StartAsyncTask(runner: Outcome<string>, polls: seq<Poll>)
    returns (updates: seq<FileListItem>, end: TaskEnd, consumed: nat)
    ensures runner.Thrown? ==> updates == [] && end == RunnerFailed(runner.message) && consumed == 0
    ensures runner.NeverSettles? ==> updates == [] && end == RunnerPending && consumed == 0
    ensures runner.Done? ==> PollRun(updates, end, consumed) == RunPolls(polls)
  {
    updates := [];
    consumed := 0;
    match runner
    case Thrown(message) =>
      end := RunnerFailed(message);
      return;
    case NeverSettles =>
      end := RunnerPending;
      return;
    case Done(_) =>
    end := OutOfPolls;
    var finished := false;
    while !finished && consumed < |polls|
      invariant 0 <= consumed <= |polls|
      invariant !finished ==> end == OutOfPolls
      invariant !finished ==> RunPolls(polls) == Resume(updates, consumed, RunPolls(polls[consumed..]))
      invariant finished ==> PollRun(updates, end, consumed) == RunPolls(polls)
      decreases |polls| - consumed, !finished
    {
      ghost var before := updates;
      RunPollsStep(polls, consumed);
      var poll := polls[consumed];
      consumed := consumed + 1;
      match poll
      case FetchFailed =>
      case Fetched(None) =>
        end := ItemGone;
        finished := true;
      case Fetched(Some(item)) =>
        updates := updates + [item];
        if item.finishEmbedding {
          end := Finished;
          finished := true;
        } else if item.chunkingStatus == Some(TaskError) || item.embeddingStatus == Some(TaskError) {
          end := Finished;
          finished := true;
        } else {
          ResumeShift(before, item, consumed, RunPolls(polls[consumed..]));
        }
    }
    if !finished {
      assert polls[consumed..] == [];
      assert updates + [] == updates;
    }
  }

  /** One polling round, unfolded at position `c`. */
  lemma RunPollsStep(polls: seq<Poll>, c: nat)
    requires c < |polls|
    ensures var rest := RunPolls(polls[c + 1..]);
      RunPolls(polls[c..]) == match polls[c]
        case FetchFailed => rest.(consumed := rest.consumed + 1)
        case Fetched(None) => PollRun([], ItemGone, 1)
        case Fetched(Some(item)) =>
          if IsFinal(item) then PollRun([item], Finished, 1)
          else PollRun([item] + rest.updates, rest.end, rest.consumed + 1)
  {
    assert polls[c..][0] == polls[c] && polls[c..][1..] == polls[c + 1..];
  }

  lemma ResumeShift(done: seq<FileListItem>, item: FileListItem, consumed: nat, rest: PollRun)
    requires consumed > 0
    ensures Resume(done, consumed - 1, PollRun([item] + rest.updates, rest.end, rest.consumed + 1))
      == Resume(done + [item], consumed, rest)
  {
    assert done + ([item] + rest.updates) == (done + [item]) + rest.updates;
  }

  // ---------------------------------------------------------------------------------------
  // uploadChatFiles

  /** Only images and videos get a preview. */
  predicate Previewable(fileType: string) {
    StartsWith(fileType, "image") || StartsWith(fileType, "video")
  }

  /** The list entry of a newly picked file; `objectUrl` and `base64` stand for
      `URL.createObjectURL` and the base64 encoder. */
  function NewUploadItem(file: RawFile, objectUrl: (Bytes, string) -> string, base64: Bytes -> string): (item: UploadFileItem)
    ensures item.id == file.name && item.status == Pending && item.file == file
    ensures item.previewUrl.Some? <==> Previewable(file.fileType)
    ensures item.base64Url.Some? <==> Previewable(file.fileType)
    ensures item.base64Url.Some? ==> item.base64Url.value == "data:" + file.fileType + ";base64," + base64(file.data)
    ensures item.previewUrl.Some? ==> item.previewUrl.value == objectUrl(file.data, file.fileType)
    ensures item.fileUrl.None? && item.uploadState.None? && item.tasks.None?
  {
    var preview := Previewable(file.fileType);
    UploadFileItem(
      file.name, file, Pending,
      if preview then Some(objectUrl(file.data, file.fileType)) else None,
      if preview then Some("data:" + file.fileType + ";base64," + base64(file.data)) else None,
      None, None, None)
  }

  /** The entries added for the picked files, one per file, in order. */
  function NewUploadItems(files: seq<RawFile>, objectUrl: (Bytes, string) -> string, base64: Bytes -> string): (items: seq<UploadFileItem>)
    ensures |items| == |files|
    ensures forall k :: 0 <= k < |files| ==> items[k] == NewUploadItem(files[k], objectUrl, base64)
  {
    seq(|files|, k requires 0 <= k < |files| => NewUploadItem(files[k], objectUrl, base64))
  }

  /** What `createParseFileTask` answers: no task, or a task whose id may be missing. */
  datatype ParseTask = ParseTask(id: Option<string>)

  const ParseTaskError := "failed to createParseFileTask"

  /** The runner of a chat file's task, given how `createParseFileTask` settled: its rejection
      or pending state passes through; an answer without a task with a non-empty id fails. */
  function ParseTaskRunner(created: Outcome<Option<ParseTask>>): (r: Outcome<string>)
    ensures created.Thrown? ==> r == Thrown(created.message)
    ensures created.NeverSettles? ==> r == NeverSettles
    ensures created.Done? ==>
      (r.Done? <==> created.value.Some? && created.value.value.id.Some? && created.value.value.id.value != "")
      && (r.Done? ==> r.value == created.value.value.id.value)
      && (!r.Done? ==> r == Thrown(ParseTaskError))
  {
    match created
    case Thrown(m) => Thrown(m)
    case NeverSettles => NeverSettles
    case Done(task) =>
      if task.Some? && task.value.id.Some? && task.value.id.value != "" then Done(task.value.id.value)
      else Thrown(ParseTaskError)
  }

  /** The update that marks a file's task as started but not yet reported (`tasks: {}`). */
  function TaskStarted(id: string): ListAction {
    UpdateFile(id, ItemPatch(None, None, None, None, Some(FileParsingTask(None, None, None, None, None, None))))
  }

  /** The update made for one snapshot: the six task fields, copied. */
  function TaskUpdate(id: string, item: FileListItem): (a: ListAction)
    ensures a.UpdateFile? && a.id == id
    ensures a.value.id.None? && a.value.status.None? && a.value.uploadState.None? && a.value.fileUrl.None?
    ensures a.value.tasks.Some?
    ensures var t := a.value.tasks.value;
      && t.chunkCount == item.chunkCount && t.chunkingError == item.chunkingError
      && t.chunkingStatus == item.chunkingStatus && t.embeddingError == item.embeddingError
      && t.embeddingStatus == item.embeddingStatus && t.finishEmbedding == Some(item.finishEmbedding)
  {
    UpdateFile(id, ItemPatch(None, None, None, None, Some(FileParsingTask(
      item.chunkCount, item.chunkingError, item.chunkingStatus,
      item.embeddingError, item.embeddingStatus, Some(item.finishEmbedding)))))
  }

  /** The updates of a run's snapshots, in order. */
  function TaskUpdates(id: string, items: seq<FileListItem>): (r: seq<ListAction>)
    ensures |r| == |items|
    ensures forall k :: 0 <= k < |items| ==> r[k] == TaskUpdate(id, items[k])
  {
    seq(|items|, k requires 0 <= k < |items| => TaskUpdate(id, items[k]))
  }

  /** The collaborators of one picked file's pipeline: those of its upload, the answer of
      `createParseFileTask`, and the polling rounds. */
  datatype FileRun = FileRun(env: Collaborators, created: Outcome<Option<ParseTask>>, polls: seq<Poll>)

  /** What one file's pipeline did: the updates of its upload, those of its task, how the
      upload ended, and how the task ended (`None` when no task was started). */
  datatype FileTrace = FileTrace(uploadUpdates: seq<ListAction>, taskUpdates: seq<ListAction>,
                                 uploaded: Outcome<CreatedFile>, task: Option<TaskEnd>)

  /** The updates a file's pipeline dispatches: its upload's, then its task's. */
  function TraceUpdates(t: FileTrace): seq<ListAction> {
    t.uploadUpdates + t.taskUpdates
  }

  /** What the pipeline of `file` guarantees about its trace. The upload part is what
      `uploadWithProgress` does for the file under the run's collaborators; images and failed
      or pending uploads start no task; any other file marks its task started under the
      record's id, then reports each snapshot polling returned, or stops there when the
      runner threw or never returned. */
  ghost predicate ChatFileTrace(file: RawFile, run: FileRun, t: FileTrace) {
    && UploadTrace(file, run.env, None, t.uploadUpdates, t.uploaded)
    && (forall j :: 0 <= j < |t.taskUpdates| ==> t.taskUpdates[j].UpdateFile?)
    && (!t.uploaded.Done? || StartsWith(file.fileType, "image") ==> t.taskUpdates == [] && t.task == None)
    && (t.uploaded.Done? && !StartsWith(file.fileType, "image") ==>
          var id := t.uploaded.value.id;
          var runner := ParseTaskRunner(run.created);
          && |t.taskUpdates| > 0 && t.taskUpdates[0] == TaskStarted(id)
          && (runner.Done? ==>
                t.task == Some(RunPolls(run.polls).end) && t.taskUpdates[1..] == TaskUpdates(id, RunPolls(run.polls).updates))
          && (runner.Thrown? ==> t.task == Some(RunnerFailed(runner.message)) && t.taskUpdates == [TaskStarted(id)])
          && (runner.NeverSettles? ==> t.task == Some(RunnerPending) && t.taskUpdates == [TaskStarted(id)]))
  }

  /** The pipeline of one chat file after it was added to the list: upload it, then, unless it
      is an image, mark its task started and follow the task, reporting each snapshot under the
      server id. */
  method ProcessChatFile(file: RawFile, run: FileRun) returns (t: FileTrace)
    ensures ChatFileTrace(file, run, t)
  {
    var uploadUpdates, uploaded := UploadWithProgress(file, run.env, None);
    if !uploaded.Done? || StartsWith(file.fileType, "image") {
      t := FileTrace(uploadUpdates, [], uploaded, None);
      return;
    }
    var id := uploaded.value.id;
    var taskUpdates := [TaskStarted(id)];
    var items, end, consumed := StartAsyncTask(ParseTaskRunner(run.created), run.polls);
    taskUpdates := taskUpdates + TaskUpdates(id, items);
    t := FileTrace(uploadUpdates, taskUpdates, uploaded, Some(end));
  }

  /** How one file's promise settles: it rejects when its upload or its task's runner threw,
      stays pending while either never settles or polling has not stopped, and resolves
      otherwise (an image after its upload, a task that finished or whose file vanished). */
  function PoolOutcome(t: FileTrace): (r: Outcome<()>)
    ensures t.uploaded.Thrown? ==> r == Thrown(t.uploaded.message)
    ensures t.uploaded.NeverSettles? ==> r == NeverSettles
    ensures t.uploaded.Done? ==>
      (r.Done? <==> t.task.None? || t.task == Some(Finished) || t.task == Some(ItemGone))
      && (r.Thrown? <==> t.task.Some? && t.task.value.RunnerFailed?)
      && (r.Thrown? ==> r.message == t.task.value.message)
  {
    match t.uploaded
    case Thrown(m) => Thrown(m)
    case NeverSettles => NeverSettles
    case Done(_) =>
      match t.task
      case None => Done(())
      case Some(RunnerFailed(m)) => Thrown(m)
      case Some(Finished) => Done(())
      case Some(ItemGone) => Done(())
      case Some(_) => NeverSettles
  }

  /** `Promise.all` over the files' promises: it rejects as soon as one rejects (here, with
      the first rejection in file order), resolves once all resolved, and otherwise stays
      pending. */
  function AllPools(ts: seq<FileTrace>): (r: Outcome<()>)
    ensures r.Done? <==> forall k :: 0 <= k < |ts| ==> PoolOutcome(ts[k]).Done?
    ensures r.Thrown? <==> exists k :: 0 <= k < |ts| && PoolOutcome(ts[k]).Thrown?
    ensures r.Thrown? ==>
      exists k :: 0 <= k < |ts| && PoolOutcome(ts[k]) == r && forall j :: 0 <= j < k ==> !PoolOutcome(ts[j]).Thrown?
  {
    if ts == [] then Done(())
    else
      var first, rest := PoolOutcome(ts[0]), AllPools(ts[1..]);
      assert forall k :: 1 <= k < |ts| ==> ts[k] == ts[1..][k - 1];
      if first.Thrown? then first
      else if rest.Thrown? then
        var k :| 0 <= k < |ts[1..]| && PoolOutcome(ts[1..][k]) == rest
          && forall j :: 0 <= j < k ==> !PoolOutcome(ts[1..][j]).Thrown?;
        assert PoolOutcome(ts[k + 1]) == rest;
        rest
      else if first.NeverSettles? || rest.NeverSettles? then NeverSettles
      else Done(())
  }

  /** A non-image file whose bytes the server already holds, with metadata: the pipeline
      dispatches the processing and success updates, then marks the task started under the
      new record's id. */
  lemma HitDispatchesSuccessThenTask(file: RawFile, run: FileRun, t: FileTrace)
    requires ChatFileTrace(file, run, t)
    requires !StartsWith(file.fileType, "image")
    requires run.env.checkFileHash(run.env.sha256(file.data)).isExist
    requires run.env.checkFileHash(run.env.sha256(file.data)).metadata.Some?
    ensures var m := run.env.checkFileHash(run.env.sha256(file.data)).metadata.value;
      var created := run.env.createFile(NewFileFor(file, run.env, m), None);
      && t.uploaded == Done(created)
      && TraceUpdates(t)[..3] == [HitUpdate(file.name), SuccessUpdate(file.name, created), TaskStarted(created.id)]
  {
  }

  /** A file whose transfer fails makes its promise, and so `Promise.all`, reject with the
      transfer's error. */
  lemma FailedTransferRejects(file: RawFile, run: FileRun, t: FileTrace)
    requires ChatFileTrace(file, run, t)
    requires !run.env.checkFileHash(run.env.sha256(file.data)).isExist
    requires UploadService.TransferOutcome(run.env.events, UploadService.StoragePath(run.env.stem, file.name, run.env.prefix, run.env.date)).Thrown?
    ensures PoolOutcome(t) == Thrown(UploadService.TransferOutcome(run.env.events,
      UploadService.StoragePath(run.env.stem, file.name, run.env.prefix, run.env.date)).message)
    ensures AllPools([t]).Thrown?
  {
  }

  /** The updates of several files' pipelines, file after file. */
  function AllUpdates(ts: seq<FileTrace>): seq<ListAction> {
    if ts == [] then [] else AllUpdates(ts[..|ts| - 1]) + TraceUpdates(ts[|ts| - 1])
  }

  // ---------------------------------------------------------------------------------------
  // The chat upload list

  /** What the list reducer returns: the very same list, or a new one. */
  datatype Reduced = Unchanged | Replaced(list: seq<UploadFileItem>)

  /** One store write, with the action name it is recorded under. */
  datatype StoreWrite = ListWrite(list: seq<UploadFileItem>, action: string)

  function ActionName(payload: ListAction): string {
    match payload
    case AddFiles(_) => "dispatchChatFileList/addFiles"
    case UpdateFile(_, _) => "dispatchChatFileList/updateFile"
    case RemoveFile(_) => "dispatchChatFileList/removeFile"
  }

  const ClearActionName := "chat/clearChatUploadFileList"

  /** The list after one reducer call. */
  function Reduce(reducer: (seq<UploadFileItem>, ListAction) -> Reduced, list: seq<UploadFileItem>, a: ListAction)
    : seq<UploadFileItem>
  {
    match reducer(list, a)
    case Unchanged => list
    case Replaced(next) => next
  }

  /** The list after a series of dispatches, in order. */
  function ApplyAll(reducer: (seq<UploadFileItem>, ListAction) -> Reduced, list: seq<UploadFileItem>,
                    actions: seq<ListAction>): seq<UploadFileItem>
  {
    if actions == [] then list
    else Reduce(reducer, ApplyAll(reducer, list, actions[..|actions| - 1]), actions[|actions| - 1])
  }

  /** The store writes a series of dispatches makes: one per action the reducer does not
      hand back unchanged. */
  function WritesOf(reducer: (seq<UploadFileItem>, ListAction) -> Reduced, list: seq<UploadFileItem>,
                    actions: seq<ListAction>): seq<StoreWrite>
  {
    if actions == [] then []
    else
      var last := actions[|actions| - 1];
      var before := ApplyAll(reducer, list, actions[..|actions| - 1]);
      WritesOf(reducer, list, actions[..|actions| - 1])
        + match reducer(before, last)
          case Unchanged => []
          case Replaced(next) => [ListWrite(next, ActionName(last))]
  }

  /** The list is always the one last written: after any series of dispatches the current
      list is the list of the last write, or the initial list when nothing was written; no
      more writes happen than actions. */
  lemma {:induction false} StateIsLastWrite(reducer: (seq<UploadFileItem>, ListAction) -> Reduced,
                                            list: seq<UploadFileItem>, actions: seq<ListAction>)
    ensures |WritesOf(reducer, list, actions)| <= |actions|
    ensures WritesOf(reducer, list, actions) == [] ==> ApplyAll(reducer, list, actions) == list
    ensures WritesOf(reducer, list, actions) != [] ==>
      WritesOf(reducer, list, actions)[|WritesOf(reducer, list, actions)| - 1].list == ApplyAll(reducer, list, actions)
  {
    if actions != [] {
      StateIsLastWrite(reducer, list, actions[..|actions| - 1]);
    }
  }

  /** Dispatching two series one after the other is dispatching their concatenation. */
  lemma {:induction false} ApplyAllAppend(reducer: (seq<UploadFileItem>, ListAction) -> Reduced,
                                          list: seq<UploadFileItem>, a: seq<ListAction>, b: seq<ListAction>)
    ensures ApplyAll(reducer, list, a + b) == ApplyAll(reducer, ApplyAll(reducer, list, a), b)
    ensures WritesOf(reducer, list, a + b) == WritesOf(reducer, list, a) + WritesOf(reducer, ApplyAll(reducer, list, a), b)
    decreases |b|
  {
    if b == [] {
      assert a + b == a;
    } else {
      var b0 := b[..|b| - 1];
      assert (a + b)[..|a + b| - 1] == a + b0;
      assert (a + b)[|a + b| - 1] == b[|b| - 1];
      ApplyAllAppend(reducer, list, a, b0);
    }
  }

  lemma LogAppend(reducer: (seq<UploadFileItem>, ListAction) -> Reduced, list: seq<UploadFileItem>,
                  a: seq<ListAction>, b: seq<ListAction>, log: seq<StoreWrite>)
    ensures ApplyAll(reducer, list, a + b) == ApplyAll(reducer, ApplyAll(reducer, list, a), b)
    ensures log + WritesOf(reducer, list, a) + WritesOf(reducer, ApplyAll(reducer, list, a), b)
      == log + WritesOf(reducer, list, a + b)
  {
    ApplyAllAppend(reducer, list, a, b);
    AppendAssoc(log, WritesOf(reducer, list, a), WritesOf(reducer, ApplyAll(reducer, list, a), b));
  }

  /** The traces of the first files, each as its pipeline guarantees. */
  ghost predicate Traced(files: seq<RawFile>, runs: seq<FileRun>, traces: seq<FileTrace>) {
    |traces| <= |files| == |runs| && forall k :: 0 <= k < |traces| ==> ChatFileTrace(files[k], runs[k], traces[k])
  }

  lemma TracedSnoc(files: seq<RawFile>, runs: seq<FileRun>, traces: seq<FileTrace>, t: FileTrace)
    requires Traced(files, runs, traces) && |traces| < |files|
    requires ChatFileTrace(files[|traces|], runs[|traces|], t)
    ensures Traced(files, runs, traces + [t])
  {
    assert forall k :: 0 <= k < |traces| ==> (traces + [t])[k] == traces[k];
  }

  /** One more file's updates come after those of the files before it. */
  lemma AllUpdatesSnoc(added: ListAction, ts: seq<FileTrace>, t: FileTrace)
    ensures [added] + AllUpdates(ts + [t]) == [added] + AllUpdates(ts) + TraceUpdates(t)
  {
    assert (ts + [t])[..|ts|] == ts;
    AppendAssoc([added], AllUpdates(ts), TraceUpdates(t));
  }

  /** The chat upload list of the file store, the log of its writes, and the files whose
      removal was requested from the server. */
  class ChatUploadStore {
    var chatUploadFileList: seq<UploadFileItem>
    var writes: seq<StoreWrite>
    var removedOnServer: seq<string>
    const reducer: (seq<UploadFileItem>, ListAction) -> Reduced

    constructor(reducer: (seq<UploadFileItem>, ListAction) -> Reduced)
      ensures chatUploadFileList == [] && writes == [] && removedOnServer == []
      ensures this.reducer == reducer
    {
      chatUploadFileList := [];
      writes := [];
      removedOnServer := [];
      this.reducer := reducer;
    }

    /** `clearChatUploadFileList`: the list becomes empty. */
    method Clear()
      modifies this
      ensures chatUploadFileList == []
      ensures writes == old(writes) + [ListWrite([], ClearActionName)]
      ensures removedOnServer == old(removedOnServer)
    {
      chatUploadFileList := [];
      writes := writes + [ListWrite([], ClearActionName)];
    }

    /** `dispatchChatUploadFileList`: nothing is written when the reducer hands back the same
        list; otherwise the new list is written under the action's name. */
    method Dispatch(payload: ListAction)
      modifies this
      ensures reducer(old(chatUploadFileList), payload).Unchanged? ==>
        chatUploadFileList == old(chatUploadFileList) && writes == old(writes)
      ensures reducer(old(chatUploadFileList), payload).Replaced? ==>
        var next := reducer(old(chatUploadFileList), payload).list;
        chatUploadFileList == next && writes == old(writes) + [ListWrite(next, ActionName(payload))]
      ensures removedOnServer == old(removedOnServer)
    {
      var next := reducer(chatUploadFileList, payload);
      if next.Unchanged? {
        return;
      }
      chatUploadFileList := next.list;
      writes := writes + [ListWrite(next.list, ActionName(payload))];
    }

    /** A series of `dispatchChatUploadFileList` calls, in order. */
    method DispatchAll(actions: seq<ListAction>)
      modifies this
      ensures chatUploadFileList == ApplyAll(reducer, old(chatUploadFileList), actions)
      ensures writes == old(writes) + WritesOf(reducer, old(chatUploadFileList), actions)
      ensures removedOnServer == old(removedOnServer)
    {
      var i := 0;
      while i < |actions|
        invariant 0 <= i <= |actions|
        invariant chatUploadFileList == ApplyAll(reducer, old(chatUploadFileList), actions[..i])
        invariant writes == old(writes) + WritesOf(reducer, old(chatUploadFileList), actions[..i])
        invariant removedOnServer == old(removedOnServer)
      {
        assert actions[..i + 1][..i] == actions[..i];
        Dispatch(actions[i]);
        i := i + 1;
      }
      assert actions[..|actions|] == actions;
    }

    /** One file's pipeline, its updates dispatched in order. */
    method RunFile(file: RawFile, run: FileRun) returns (t: FileTrace)
      modifies this
      ensures ChatFileTrace(file, run, t)
      ensures chatUploadFileList == ApplyAll(reducer, old(chatUploadFileList), TraceUpdates(t))
      ensures writes == old(writes) + WritesOf(reducer, old(chatUploadFileList), TraceUpdates(t))
      ensures removedOnServer == old(removedOnServer)
    {
      t := ProcessChatFile(file, run);
      DispatchAll(TraceUpdates(t));
    }

    /** `uploadChatFiles`: add one entry per picked file, then run each file's pipeline and
        dispatch its updates, one file after the other, and settle as `Promise.all` over the
        pipelines does. `runs` gives each file's collaborators; the dispatched actions and
        each file's trace are returned. */
    method UploadChatFiles(files: seq<RawFile>, objectUrl: (Bytes, string) -> string, base64: Bytes -> string,
                           runs: seq<FileRun>)
      returns (actions: seq<ListAction>, traces: seq<FileTrace>, outcome: Outcome<()>)
      requires |runs| == |files|
      modifies this
      ensures |traces| == |files|
      ensures forall k :: 0 <= k < |files| ==> ChatFileTrace(files[k], runs[k], traces[k])
      ensures actions == [AddFiles(NewUploadItems(files, objectUrl, base64))] + AllUpdates(traces)
      ensures outcome == AllPools(traces)
      ensures chatUploadFileList == ApplyAll(reducer, old(chatUploadFileList), actions)
      ensures writes == old(writes) + WritesOf(reducer, old(chatUploadFileList), actions)
      ensures removedOnServer == old(removedOnServer)
    {
      ghost var list0, writes0 := chatUploadFileList, writes;
      var added := AddFiles(NewUploadItems(files, objectUrl, base64));
      actions := [added];
      traces := [];
      DispatchAll(actions);
      var k := 0;
      while k < |files|
        invariant 0 <= k <= |files|
        invariant |traces| == k
        invariant Traced(files, runs, traces)
        invariant actions == [added] + AllUpdates(traces)
        invariant chatUploadFileList == ApplyAll(reducer, list0, actions)
        invariant writes == writes0 + WritesOf(reducer, list0, actions)
        invariant removedOnServer == old(removedOnServer)
      {
        var t := RunFile(files[k], runs[k]);
        LogAppend(reducer, list0, actions, TraceUpdates(t), writes0);
        AllUpdatesSnoc(added, traces, t);
        TracedSnoc(files, runs, traces, t);
        actions := actions + TraceUpdates(t);
        traces := traces + [t];
        k := k + 1;
      }
      outcome := AllPools(traces);
    }

    /** `removeChatUploadFile`: drop the entry from the list, then ask the server to remove the file. */
    method RemoveChatUploadFile(id: string)
      modifies this
      ensures reducer(old(chatUploadFileList), RemoveFile(id)).Unchanged? ==>
        chatUploadFileList == old(chatUploadFileList) && writes == old(writes)
      ensures reducer(old(chatUploadFileList), RemoveFile(id)).Replaced? ==>
        var next := reducer(old(chatUploadFileList), RemoveFile(id)).list;
        chatUploadFileList == next && writes == old(writes) + [ListWrite(next, ActionName(RemoveFile(id)))]
      ensures removedOnServer == old(removedOnServer) + [id]
    {
      Dispatch(RemoveFile(id));
      removedOnServer := removedOnServer + [id];
    }
  }
}
