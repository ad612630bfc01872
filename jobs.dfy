/** A download job record of the service and the transitions its fields go
    through: registration (`handleStartDownload`), the start and the end of
    the background run (`processDownload`), cancellation
    (`handleCancelDownload`) and the calls of the job's progress reporter
    (`APIProgressReporter`). Each transition is one atomic step. */
module Jobs {
  import opened Wrappers
  import opened Text

  /** The values the source stores in `DownloadJob.Status`. */
  datatype Status = Pending | Downloading | Completed | Failed | Cancelled

  /** `DownloadJob`. Times are integer seconds; `Speed`, `ETA` and the
      cancellation context are not part of this model, except that
      `contextCancelled` records that `job.cancel()` was called. */
  datatype DownloadJob = DownloadJob(
    id: string,
    titleId: string,
    titleName: Bytes,
    status: Status,
    progress: real,
    downloadSize: int,
    downloaded: int,
    error: string,
    outputDir: string,
    startTime: int,
    endTime: Option<int>,
    decrypt: bool,
    deleteEncrypted: bool,
    contextCancelled: bool)

  predicate IsTerminal(s: Status) {
    s == Completed || s == Failed || s == Cancelled
  }

  /** The fields fixed when the job is registered. */
  predicate SameIdentity(a: DownloadJob, b: DownloadJob) {
    && a.id == b.id
    && a.titleId == b.titleId
    && a.outputDir == b.outputDir
    && a.startTime == b.startTime
    && a.decrypt == b.decrypt
    && a.deleteEncrypted == b.deleteEncrypted
  }

  /** `fmt.Sprintf("%s_%d", titleID, unixSeconds)`. */
  function JobId(titleId: string, unixSeconds: nat): (id: string)
    ensures |id| > |titleId| + 1 && id[..|titleId|] == titleId && id[|titleId|] == '_'
  {
    titleId + "_" + Decimal(unixSeconds)
  }

  /** Two requests for the same title get different job IDs exactly when
      they arrive in different seconds. */
  lemma JobIdCollidesOnlyWithinOneSecond(titleId: string, a: nat, b: nat)
    ensures JobId(titleId, a) == JobId(titleId, b) <==> a == b
  {
    if JobId(titleId, a) == JobId(titleId, b) {
      assert Decimal(a) == JobId(titleId, a)[|titleId| + 1..];
      assert Decimal(b) == JobId(titleId, b)[|titleId| + 1..];
      DecimalInjective(a, b);
    }
  }

  /** `filepath.Join(dir, name)` for a clean directory and a plain name. */
  function JoinPath(dir: string, name: string): string {
    dir + "/" + name
  }

  /** The record `handleStartDownload` registers. */
  function NewJob(jobId: string, titleId: string, titleName: Bytes, outputDir: string,
                  now: int, decrypt: bool, deleteEncrypted: bool): (j: DownloadJob)
    ensures j.status == Pending && j.endTime == None && j.error == ""
    ensures j.progress == 0.0 && j.downloadSize == 0 && j.downloaded == 0 && !j.contextCancelled
    ensures j.id == jobId && j.titleId == titleId && j.titleName == titleName && j.outputDir == outputDir
    ensures j.startTime == now && j.decrypt == decrypt && j.deleteEncrypted == deleteEncrypted
  {
    DownloadJob(jobId, titleId, titleName, Pending, 0.0, 0, 0, "", outputDir, now, None,
                decrypt, deleteEncrypted, false)
  }

  /** The first statement of `processDownload`: the status becomes
      "downloading", whatever it was. */
  function Begin(j: DownloadJob): (r: DownloadJob)
    ensures r.status == Downloading
    ensures r.(status := j.status) == j
  {
    j.(status := Downloading)
  }

  /** `handleCancelDownload` on an existing job: rejected (None) for a
      completed or failed job, which is left as it was; otherwise the job
      is cancelled now. */
  function Cancel(j: DownloadJob, now: int): (r: Option<DownloadJob>)
    ensures r.None? <==> j.status == Completed || j.status == Failed
    ensures r.Some? ==> r.value.status == Cancelled && r.value.endTime == Some(now) && r.value.contextCancelled
    ensures r.Some? ==> r.value.(status := j.status, endTime := j.endTime, contextCancelled := j.contextCancelled) == j
  {
    if j.status == Completed || j.status == Failed then None
    else Some(j.(status := Cancelled, endTime := Some(now), contextCancelled := true))
  }

  /** The end of `processDownload`, given the result of the download call
      (`Some(message)` for an error). `EndTime` is always set; an error on a
      cancelled job keeps it cancelled without recording the error; any
      other error fails the job; success completes it at 100%. */
  function Finish(j: DownloadJob, outcome: Option<string>, now: int): (r: DownloadJob)
    ensures r.endTime == Some(now) && IsTerminal(r.status)
    ensures r.(status := j.status, endTime := j.endTime, error := j.error, progress := j.progress) == j
    ensures outcome.Some? && j.status == Cancelled ==> r.status == Cancelled && r.error == j.error && r.progress == j.progress
    ensures outcome.Some? && j.status != Cancelled ==> r.status == Failed && r.error == outcome.value && r.progress == j.progress
    ensures outcome.None? ==> r.status == Completed && r.progress == 100.0 && r.error == j.error
  {
    var j := j.(endTime := Some(now));
    match outcome
    case Some(message) =>
      if j.status == Cancelled then j.(status := Cancelled) else j.(status := Failed, error := message)
    case None => j.(status := Completed, progress := 100.0)
  }

  /** The methods of `APIProgressReporter`, which the download library calls. */
  datatype ReporterCall =
    | SetGameTitle(title: Bytes)
    | UpdateDownloadProgress(downloaded: int, filename: string)
    | UpdateDecryptionProgress(fraction: real)
    | SetCancelled
    | SetDownloadSize(size: int)
    | ResetTotals
    | MarkFileAsDone(filename: string)
    | SetTotalDownloadedForFile(filename: string, bytes: int)
    | SetStartTime(startTime: int)

  /** `APIProgressReporter.Cancelled`: the job's status is the cancel flag. */
  predicate ReporterCancelled(j: DownloadJob) {
    j.status == Cancelled
  }

  /** One reporter call applied to its job. The percentage is computed in
      exact arithmetic; the speed and ETA strings are not modelled. */
  function Report(j: DownloadJob, call: ReporterCall): (r: DownloadJob)
    ensures SameIdentity(j, r) && r.endTime == j.endTime && r.error == j.error
    ensures ReporterCancelled(r) <==> ReporterCancelled(j) || call.SetCancelled?
    ensures call.SetGameTitle? ==> r.titleName == call.title && r.(titleName := j.titleName) == j
    ensures call.UpdateDownloadProgress? ==>
      && r.downloaded == call.downloaded
      && r.progress == (if j.downloadSize > 0 then call.downloaded as real / j.downloadSize as real * 100.0 else j.progress)
      && r.(downloaded := j.downloaded, progress := j.progress) == j
    ensures call.UpdateDownloadProgress? && 0 <= call.downloaded <= j.downloadSize && j.downloadSize > 0 ==>
      0.0 <= r.progress <= 100.0
    ensures call.UpdateDecryptionProgress? ==> r.progress == call.fraction && r.(progress := j.progress) == j
    ensures call.SetCancelled? ==> r.status == Cancelled && r.(status := j.status) == j
    ensures call.SetDownloadSize? ==> r.downloadSize == call.size && r.(downloadSize := j.downloadSize) == j
    ensures call.ResetTotals? ==> r.downloaded == 0 && r.progress == 0.0 && r.(downloaded := j.downloaded, progress := j.progress) == j
    ensures call.MarkFileAsDone? || call.SetTotalDownloadedForFile? || call.SetStartTime? ==> r == j
  {
    match call
    case SetGameTitle(title) => j.(titleName := title)
    case UpdateDownloadProgress(downloaded, _) =>
      if j.downloadSize > 0 then
        var percentage := downloaded as real / j.downloadSize as real * 100.0;
        PercentageInRange(downloaded, j.downloadSize, percentage);
        j.(downloaded := downloaded, progress := percentage)
      else j.(downloaded := downloaded)
    case UpdateDecryptionProgress(fraction) => j.(progress := fraction)
    case SetCancelled => j.(status := Cancelled)
    case SetDownloadSize(size) => j.(downloadSize := size)
    case ResetTotals => j.(downloaded := 0, progress := 0.0)
    case MarkFileAsDone(_) => j
    case SetTotalDownloadedForFile(_, _) => j
    case SetStartTime(_) => j
  }

  lemma PercentageInRange(downloaded: int, size: int, percentage: real)
    requires size > 0 && percentage == downloaded as real / size as real * 100.0
    ensures 0 <= downloaded <= size ==> 0.0 <= percentage <= 100.0
  {
    if 0 <= downloaded <= size {
      assert 0.0 <= downloaded as real / size as real <= 1.0;
    }
  }

  // ---- any interleaving of the steps on one job ----

  datatype Event =
    | Start
    | CancelRequest(at: int)
    | RunFinished(outcome: Option<string>, at: int)
    | Reported(call: ReporterCall)

  function Step(j: DownloadJob, e: Event): DownloadJob {
    match e
    case Start => Begin(j)
    case CancelRequest(at) => (match Cancel(j, at) case None => j case Some(c) => c)
    case RunFinished(outcome, at) => Finish(j, outcome, at)
    case Reported(call) => Report(j, call)
  }

  function Replay(j: DownloadJob, events: seq<Event>): DownloadJob {
    if events == [] then j else Step(Replay(j, events[..|events| - 1]), events[|events| - 1])
  }

  /** The identity fields of a job never change, whatever happens to it. */
  lemma {:induction false} ReplayKeepsIdentity(j: DownloadJob, events: seq<Event>)
    ensures SameIdentity(j, Replay(j, events))
  {
    if events != [] {
      ReplayKeepsIdentity(j, events[..|events| - 1]);
    }
  }

  /** Once set, `EndTime` stays set. */
  lemma {:induction false} EndTimeNeverCleared(j: DownloadJob, events: seq<Event>)
    requires j.endTime.Some?
    ensures Replay(j, events).endTime.Some?
  {
    if events != [] {
      EndTimeNeverCleared(j, events[..|events| - 1]);
    }
  }

  /** `Error` is written only by a run that ends in an error while the job is
      not cancelled, and then holds that error's message. */
  lemma {:induction false} ErrorOnlyFromFailedRun(j: DownloadJob, events: seq<Event>)
    ensures var r := Replay(j, events);
      r.error == j.error ||
      exists i | 0 <= i < |events| :: events[i].RunFinished? && events[i].outcome == Some(r.error)
  {
    if events != [] {
      var front := events[..|events| - 1];
      ErrorOnlyFromFailedRun(j, front);
      var before := Replay(j, front);
      var r := Replay(j, events);
      if r.error != before.error {
        assert events[|events| - 1].RunFinished?;
      } else if r.error != j.error {
        var i :| 0 <= i < |front| && front[i].RunFinished? && front[i].outcome == Some(before.error);
        assert events[i] == front[i];
      }
    }
  }

  // ---- consequences of the code's order of writes ----

  /** Cancelling a running job whose download then returns an error leaves it
      cancelled, with the finish time of the run and no error. */
  lemma CancelDuringRun(j: DownloadJob, cancelAt: int, message: string, endAt: int)
    requires j.status == Pending && j.error == ""
    ensures var c := Cancel(Begin(j), cancelAt);
      c.Some? && Finish(c.value, Some(message), endAt).status == Cancelled
      && Finish(c.value, Some(message), endAt).error == ""
      && Finish(c.value, Some(message), endAt).endTime == Some(endAt)
  {
  }

  /** A download that returns no error completes the job even after a cancel. */
  lemma SuccessAfterCancelCompletes(j: DownloadJob, cancelAt: int, endAt: int)
    requires j.status == Downloading
    ensures Cancel(j, cancelAt).Some? && Finish(Cancel(j, cancelAt).value, None, endAt).status == Completed
  {
  }

  /** A cancel that lands before the background run starts is overwritten by
      "downloading", so a later download error fails the job. */
  lemma CancelBeforeStartIsOverwritten(j: DownloadJob, cancelAt: int, message: string, endAt: int)
    requires j.status == Pending
    ensures Cancel(j, cancelAt).Some?
    ensures Finish(Begin(Cancel(j, cancelAt).value), Some(message), endAt).status == Failed
  {
  }

  /** A second cancel is accepted: only completed and failed jobs are refused. */
  lemma SecondCancelAccepted(j: DownloadJob, first: int, second: int)
    requires j.status != Completed && j.status != Failed
    ensures Cancel(j, first).Some? && Cancel(Cancel(j, first).value, second).Some?
  {
  }

  /** A finished run that did not end cancelled cannot be cancelled. */
  lemma FinishedRunRefusesCancel(j: DownloadJob, outcome: Option<string>, endAt: int, cancelAt: int)
    requires j.status != Cancelled
    ensures Cancel(Finish(j, outcome, endAt), cancelAt).None?
  {
  }
}
