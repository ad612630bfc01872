/** The download service's job registry (`Server`) and its job handlers:
    starting a download, reading a job's status, cancelling it, and the
    background run that drives the job through the download library. */
module Service {
  import opened Wrappers
  import opened Text
  import opened Http
  import opened Catalog
  import opened ApiTitles
  import opened Jobs

  /** The decoded body of `POST /api/download`. */
  datatype StartRequest = StartRequest(titleId: string, decrypt: bool, deleteEncrypted: bool)

  /** The 202 reply of `POST /api/download`. */
  datatype StartReply = StartReply(jobId: string, status: string, title: Bytes)

  /** The request checks of `handleStartDownload`, in the source's order;
      `None` is a body that is not valid JSON. */
  function ValidateStart(body: Option<StartRequest>, lookup: Uint64 -> TitleEntry): (r: Result<TitleEntry, HttpError>)
    ensures body.None? ==> r == Err(HttpError(StatusBadRequest, "Invalid JSON"))
    ensures body.Some? && body.value.titleId == "" ==> r == Err(HttpError(StatusBadRequest, "title_id is required"))
    ensures body.Some? && body.value.titleId != "" && ParseUint16(body.value.titleId).None? ==>
      r == Err(HttpError(StatusBadRequest, "Invalid title ID format"))
    ensures r.Ok? <==>
      body.Some? && ParseUint16(body.value.titleId).Some? && lookup(ParseUint16(body.value.titleId).value).titleId != 0
    ensures r.Ok? ==> r.value == lookup(ParseUint16(body.value.titleId).value)
    ensures r.Err? && body.Some? && ParseUint16(body.value.titleId).Some? ==> r.error == HttpError(StatusNotFound, "Title not found")
  {
    match body
    case None => Err(HttpError(StatusBadRequest, "Invalid JSON"))
    case Some(req) =>
      if req.titleId == "" then Err(HttpError(StatusBadRequest, "title_id is required"))
      else HandleGetTitle(req.titleId, lookup)
  }

  /** The JSON document of `GET /api/download/{id}`: the job's fields, with
      `error` omitted when empty and `end_time` omitted when unset. */
  datatype StatusDocument = StatusDocument(job: DownloadJob, errorField: Option<string>)

  function Document(j: DownloadJob): (d: StatusDocument)
    ensures d.job == j
    ensures d.errorField.None? <==> j.error == ""
    ensures d.errorField.Some? ==> d.errorField.value == j.error
  {
    StatusDocument(j, if j.error == "" then None else Some(j.error))
  }

  class Server {
    const downloadsDir: string
    /** Every `DownloadJob` record created so far, in creation order. A
        record's index stands for the pointer that the registry, the
        background run and the run's progress reporter share. */
    var records: seq<DownloadJob>
    /** `jobs`: the record each job ID currently names. */
    var jobs: map<string, nat>

    /** Every registered ID names a record with that ID; every record lives
        in its own directory below the downloads directory and has an end
        time once it has completed or failed. */
    ghost predicate Valid()
      reads this
    {
      && (forall id | id in jobs :: jobs[id] < |records| && records[jobs[id]].id == id)
      && (forall k | 0 <= k < |records| ::
            && records[k].outputDir == JoinPath(downloadsDir, records[k].id)
            && (records[k].status == Completed || records[k].status == Failed ==> records[k].endTime.Some?))
    }

    /** `NewServer`: an empty registry. */
    constructor (downloadsDir: string)
      ensures Valid()
      ensures this.downloadsDir == downloadsDir && records == [] && jobs == map[]
    {
      this.downloadsDir := downloadsDir;
      records := [];
      jobs := map[];
    }

    /** `handleStartDownload`. `now` is the request's Unix time and
        `mkdirSucceeds` the outcome of creating the job's directory. On
        success a new record is created and registered under its ID, where
        it replaces any record registered in the same second for the same
        title; `run` is the new record, which the caller hands to the
        background run (`ProcessDownloadBegin`). */
    method HandleStartDownload(body: Option<StartRequest>, lookup: Uint64 -> TitleEntry, now: nat, mkdirSucceeds: bool)
      returns (res: Result<StartReply, HttpError>, run: nat)
      requires Valid()
      modifies this`records, this`jobs
      ensures Valid()
      ensures ValidateStart(body, lookup).Err? ==>
        res == Err(ValidateStart(body, lookup).error) && records == old(records) && jobs == old(jobs)
      ensures ValidateStart(body, lookup).Ok? && !mkdirSucceeds ==>
        && res == Err(HttpError(StatusInternalServerError, "Failed to create output directory"))
        && records == old(records) && jobs == old(jobs)
      ensures ValidateStart(body, lookup).Ok? && mkdirSucceeds ==>
        var req := body.value;
        var entry := ValidateStart(body, lookup).value;
        var id := JobId(req.titleId, now);
        && res == Ok(StartReply(id, "started", entry.name))
        && run == |old(records)|
        && records == old(records) + [NewJob(id, req.titleId, entry.name, JoinPath(downloadsDir, id), now, req.decrypt, req.deleteEncrypted)]
        && jobs == old(jobs)[id := run]
    {
      run := |records|;
      var checked := ValidateStart(body, lookup);
      if checked.Err? {
        return Err(checked.error), run;
      }
      var req := body.value;
      var entry := checked.value;
      var jobId := JobId(req.titleId, now);
      var outputDir := JoinPath(downloadsDir, jobId);
      if !mkdirSucceeds {
        return Err(HttpError(StatusInternalServerError, "Failed to create output directory")), run;
      }
      var job := NewJob(jobId, req.titleId, entry.name, outputDir, now, req.decrypt, req.deleteEncrypted);
      records := records + [job];
      jobs := jobs[jobId := run];
      return Ok(StartReply(jobId, "started", entry.name)), run;
    }

    /** `handleGetDownloadStatus`: the document of the record the ID names. */
    function HandleGetDownloadStatus(jobId: string): (r: Result<StatusDocument, HttpError>)
      requires Valid()
      reads this
      ensures r.Ok? <==> jobId in jobs
      ensures r.Ok? ==> r.value == Document(records[jobs[jobId]])
      ensures r.Ok? ==> r.value.job.id == jobId && r.value.job.outputDir == JoinPath(downloadsDir, jobId)
      ensures r.Err? ==> r.error == HttpError(StatusNotFound, "Job not found")
    {
      if jobId in jobs then Ok(Document(records[jobs[jobId]])) else Err(HttpError(StatusNotFound, "Job not found"))
    }

    /** `handleCancelDownload`, on the record the ID names; the reply
        carries the job's ID. */
    method HandleCancelDownload(jobId: string, now: int) returns (res: Result<string, HttpError>)
      requires Valid()
      modifies this`records
      ensures Valid()
      ensures jobId !in jobs ==> res == Err(HttpError(StatusNotFound, "Job not found")) && records == old(records)
      ensures jobId in jobs && Cancel(old(records)[jobs[jobId]], now).None? ==>
        res == Err(HttpError(StatusBadRequest, "Cannot cancel completed or failed job")) && records == old(records)
      ensures jobId in jobs && Cancel(old(records)[jobs[jobId]], now).Some? ==>
        res == Ok(jobId) && records == old(records)[jobs[jobId] := Cancel(old(records)[jobs[jobId]], now).value]
    {
      if jobId !in jobs {
        return Err(HttpError(StatusNotFound, "Job not found"));
      }
      var k := jobs[jobId];
      match Cancel(records[k], now)
      case None =>
        return Err(HttpError(StatusBadRequest, "Cannot cancel completed or failed job"));
      case Some(cancelled) =>
        records := records[k := cancelled];
        return Ok(jobId);
    }

    /** The start of `processDownload`, on the run's own record. */
    method ProcessDownloadBegin(run: nat)
      requires Valid() && run < |records|
      modifies this`records
      ensures Valid()
      ensures records == old(records)[run := Begin(old(records)[run])]
    {
      records := records[run := Begin(records[run])];
    }

    /** The end of `processDownload` on the run's own record, once the
        download call has returned `outcome` (an error message, or None for
        success) at time `now`. */
    method ProcessDownloadEnd(run: nat, outcome: Option<string>, now: int)
      requires Valid() && run < |records|
      modifies this`records
      ensures Valid()
      ensures records == old(records)[run := Finish(old(records)[run], outcome, now)]
    {
      records := records[run := Finish(records[run], outcome, now)];
    }

    /** A call of the run's progress reporter, which holds the run's record. */
    method Report(run: nat, call: ReporterCall)
      requires Valid() && run < |records|
      modifies this`records
      ensures Valid()
      ensures records == old(records)[run := Jobs.Report(old(records)[run], call)]
    {
      records := records[run := Jobs.Report(records[run], call)];
    }
  }

  /** A download's life seen from a client: start it, cancel it while it
      runs, let the library return an error; the job then reads as
      cancelled with no error, and cancelling it again is still accepted. */
  method CancelledDownloadScenario(titleId: string, tid: Uint64, lookup: Uint64 -> TitleEntry, now: nat)
    returns (finalStatus: Status, reportedError: Option<string>, secondCancel: Result<string, HttpError>)
    requires ParseUint16(titleId) == Some(tid) && lookup(tid).titleId != 0
    ensures finalStatus == Cancelled && reportedError == None
    ensures secondCancel == Ok(JobId(titleId, now))
  {
    var server := new Server("downloads");
    var started, run := server.HandleStartDownload(Some(StartRequest(titleId, true, false)), lookup, now, true);
    var id := started.value.jobId;
    server.ProcessDownloadBegin(run);
    var cancelled := server.HandleCancelDownload(id, now + 5);
    server.ProcessDownloadEnd(run, Some("context canceled"), now + 6);
    var after := server.HandleGetDownloadStatus(id);
    finalStatus := after.value.job.status;
    reportedError := after.value.errorField;
    secondCancel := server.HandleCancelDownload(id, now + 7);
  }

  /** Two start requests for one title in the same second: the second
      record replaces the first under the shared ID. The first run still
      finishes on its own record, which no status request can reach any
      more; the ID reports the second job, still pending. */
  method SameSecondRestartScenario(titleId: string, tid: Uint64, lookup: Uint64 -> TitleEntry, now: nat)
    returns (sameId: bool, firstRunStatus: Status, reportedStatus: Status)
    requires ParseUint16(titleId) == Some(tid) && lookup(tid).titleId != 0
    ensures sameId
    ensures firstRunStatus == Completed && reportedStatus == Pending
  {
    var server := new Server("downloads");
    var first, run1 := server.HandleStartDownload(Some(StartRequest(titleId, false, false)), lookup, now, true);
    var second, run2 := server.HandleStartDownload(Some(StartRequest(titleId, false, false)), lookup, now, true);
    sameId := first.value.jobId == second.value.jobId;
    server.ProcessDownloadBegin(run1);
    server.ProcessDownloadEnd(run1, None, now + 1);
    firstRunStatus := server.records[run1].status;
    var after := server.HandleGetDownloadStatus(second.value.jobId);
    reportedStatus := after.value.job.status;
  }
}
