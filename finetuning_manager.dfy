/** The fine-tuning manager (shared/services/finetuning_manager.py): jobs are created
    pending, started on a node, updated with progress reports and checkpoints, and
    finally completed or cancelled, which moves them from the active jobs to the
    history.

    The clock is a parameter; writing a job's configuration file is reduced to
    whether the write succeeded. */
module FineTuning {
  import opened Common

  datatype FineTuningStatus = Pending | Preparing | Training | Paused | Completed | Failed | Cancelled

  /** The status's value in reports. */
  function StatusValue(s: FineTuningStatus): string
  {
    match s
    case Pending => "pending"
    case Preparing => "preparing"
    case Training => "training"
    case Paused => "paused"
    case Completed => "completed"
    case Failed => "failed"
    case Cancelled => "cancelled"
  }

  /** `FineTuningStatus(value)`: the status with that value, None where the
      source raises ValueError. */
  function ParseStatus(v: string): (r: Option<FineTuningStatus>)
    ensures r.Some? ==> StatusValue(r.value) == v
  {
    if v == "pending" then Some(Pending)
    else if v == "preparing" then Some(Preparing)
    else if v == "training" then Some(Training)
    else if v == "paused" then Some(Paused)
    else if v == "completed" then Some(Completed)
    else if v == "failed" then Some(Failed)
    else if v == "cancelled" then Some(Cancelled)
    else None
  }

  /** Every status is read back from its value, so the parse is the exact inverse. */
  lemma ParseStatusValue(s: FineTuningStatus)
    ensures ParseStatus(StatusValue(s)) == Some(s)
  {
  }

  /** The configuration fields the manager reads. */
  datatype FineTuningConfig = FineTuningConfig(
    jobId: string,
    baseModel: string,
    datasetPath: string,
    outputDir: string,
    numEpochs: int)

  datatype LogEntry = LogEntry(timestamp: int, epoch: int, step: int, loss: Option<real>, evalLoss: Option<real>)

  datatype FineTuningJob = FineTuningJob(
    config: FineTuningConfig,
    status: FineTuningStatus,
    assignedNode: Option<string>,
    startTime: Option<int>,
    endTime: Option<int>,
    currentEpoch: int,
    currentStep: int,
    totalSteps: int,
    loss: Option<real>,
    evalLoss: Option<real>,
    checkpoints: seq<string>,
    logs: seq<LogEntry>,
    error: Option<string>)

  /** `FineTuningJob(config=config)` after `__post_init__`. */
  function NewJob(config: FineTuningConfig): FineTuningJob
  {
    FineTuningJob(config, Pending, None, None, None, 0, 0, 0, None, None, [], [], None)
  }

  /** A progress report: each key may be absent; `loss` and `eval_loss` may be
      present with the value None. */
  datatype ProgressData = ProgressData(
    epoch: Option<int>,
    step: Option<int>,
    totalSteps: Option<int>,
    loss: Option<Option<real>>,
    evalLoss: Option<Option<real>>,
    status: Option<string>)

  function OrElse<T>(o: Option<T>, default: T): T
  {
    if o.Some? then o.value else default
  }

  /** `update_job_progress` on a known job: the reported fields overwrite, one log
      entry records the new values, and a truthy status replaces the old one. An
      unknown status raises after the fields and the log were updated; the source
      catches the error, so only the status stays as it was. */
  function Progressed(job: FineTuningJob, data: ProgressData, now: int): (r: FineTuningJob)
    ensures r.currentEpoch == OrElse(data.epoch, job.currentEpoch)
    ensures r.currentStep == OrElse(data.step, job.currentStep)
    ensures r.totalSteps == OrElse(data.totalSteps, job.totalSteps)
    ensures r.loss == OrElse(data.loss, job.loss) && r.evalLoss == OrElse(data.evalLoss, job.evalLoss)
    ensures r.logs == job.logs + [LogEntry(now, r.currentEpoch, r.currentStep, r.loss, r.evalLoss)]
    ensures data.status.Some? && data.status.value != "" && ParseStatus(data.status.value).Some? ==>
              r.status == ParseStatus(data.status.value).value
    ensures !(data.status.Some? && data.status.value != "" && ParseStatus(data.status.value).Some?) ==>
              r.status == job.status
    ensures r.config == job.config && r.assignedNode == job.assignedNode && r.checkpoints == job.checkpoints
    ensures r.startTime == job.startTime && r.endTime == job.endTime && r.error == job.error
  {
    var epoch := OrElse(data.epoch, job.currentEpoch);
    var step := OrElse(data.step, job.currentStep);
    var loss := OrElse(data.loss, job.loss);
    var evalLoss := OrElse(data.evalLoss, job.evalLoss);
    var updated := job.(currentEpoch := epoch, currentStep := step,
                        totalSteps := OrElse(data.totalSteps, job.totalSteps),
                        loss := loss, evalLoss := evalLoss,
                        logs := job.logs + [LogEntry(now, epoch, step, loss, evalLoss)]);
    if data.status.Some? && data.status.value != "" then
      match ParseStatus(data.status.value)
      case Some(s) => updated.(status := s)
      case None => updated
    else updated
  }

  /** A finished job: its final status and end time, and the final model path
      (when a non-empty one is given) as its last checkpoint. */
  function Finished(job: FineTuningJob, status: FineTuningStatus, finalPath: Option<string>, now: int): (r: FineTuningJob)
    ensures r.status == status && r.endTime == Some(now)
    ensures finalPath.Some? && finalPath.value != "" ==> r.checkpoints == job.checkpoints + [finalPath.value]
    ensures !(finalPath.Some? && finalPath.value != "") ==> r.checkpoints == job.checkpoints
    ensures r.(status := job.status, endTime := job.endTime, checkpoints := job.checkpoints) == job
  {
    var checkpoints := if finalPath.Some? && finalPath.value != "" then job.checkpoints + [finalPath.value]
                       else job.checkpoints;
    job.(status := status, endTime := Some(now), checkpoints := checkpoints)
  }

  /** The first job of the history with that id. */
  function FindInHistory(history: seq<FineTuningJob>, jobId: string): (r: Option<FineTuningJob>)
    ensures r.None? <==> forall i :: 0 <= i < |history| ==> history[i].config.jobId != jobId
    ensures r.Some? ==> exists i :: 0 <= i < |history| && history[i] == r.value && r.value.config.jobId == jobId
                          && forall k :: 0 <= k < i ==> history[k].config.jobId != jobId
  {
    if |history| == 0 then None
    else if history[0].config.jobId == jobId then Some(history[0])
    else
      var r := FindInHistory(history[1..], jobId);
      assert forall i :: 1 <= i < |history| ==> history[i] == history[1..][i - 1];
      if r.Some? then
        var i :| 0 <= i < |history[1..]| && history[1..][i] == r.value && r.value.config.jobId == jobId
                 && forall k :: 0 <= k < i ==> history[1..][k].config.jobId != jobId;
        assert history[i + 1] == r.value;
        r
      else r
  }

  /** What `get_job_status` reports. */
  datatype JobReport = JobReport(
    jobId: string,
    status: string,
    assignedNode: Option<string>,
    currentEpoch: int,
    currentStep: int,
    totalSteps: int,
    loss: Option<real>,
    evalLoss: Option<real>,
    checkpoints: seq<string>,
    startTime: Option<int>,
    endTime: Option<int>,
    error: Option<string>)

  /** The report of a job under the id it was asked for. */
  function ReportOf(jobId: string, job: FineTuningJob): JobReport
  {
    JobReport(jobId, StatusValue(job.status), job.assignedNode, job.currentEpoch, job.currentStep, job.totalSteps,
              job.loss, job.evalLoss, job.checkpoints, job.startTime, job.endTime, job.error)
  }

  class FineTuningManager {
    var activeJobs: map<string, FineTuningJob>
    var jobHistory: seq<FineTuningJob>

    /** Active jobs sit under their own id, and the history holds only jobs that
        were completed or cancelled, each with its end time. */
    ghost predicate Valid()
      reads this
    {
      && (forall id :: id in activeJobs ==> activeJobs[id].config.jobId == id)
      && (forall i :: 0 <= i < |jobHistory| ==>
            (jobHistory[i].status == Completed || jobHistory[i].status == Cancelled) && jobHistory[i].endTime.Some?)
    }

    constructor ()
      ensures Valid() && activeJobs == map[] && jobHistory == []
    {
      activeJobs := map[];
      jobHistory := [];
    }

    /** `create_job`: a fresh pending job under the configuration's id, replacing
        any active job with that id; when the configuration file cannot be written
        the error propagates and nothing is tracked. */
    method CreateJob(config: FineTuningConfig, saved: bool) returns (r: Result<string>)
      modifies this
      requires Valid()
      ensures Valid()
      ensures r.Ok? <==> saved
      ensures r.Ok? ==> r.value == config.jobId && activeJobs == old(activeJobs)[config.jobId := NewJob(config)]
      ensures r.Err? ==> activeJobs == old(activeJobs)
      ensures jobHistory == old(jobHistory)
    {
      if !saved {
        return Err("OSError");
      }
      activeJobs := activeJobs[config.jobId := NewJob(config)];
      return Ok(config.jobId);
    }

    /** `start_job`: false for a job that is not active; otherwise the job is
        preparing on the node from now on. */
    method StartJob(jobId: string, nodeId: string, now: int) returns (ok: bool)
      modifies this
      requires Valid()
      ensures Valid()
      ensures ok <==> jobId in old(activeJobs)
      ensures ok ==> activeJobs == old(activeJobs)[jobId := old(activeJobs)[jobId].(
                       status := Preparing, assignedNode := Some(nodeId), startTime := Some(now))]
      ensures !ok ==> activeJobs == old(activeJobs)
      ensures jobHistory == old(jobHistory)
    {
      if jobId !in activeJobs {
        return false;
      }
      var job := activeJobs[jobId];
      activeJobs := activeJobs[jobId := job.(status := Preparing, assignedNode := Some(nodeId), startTime := Some(now))];
      return true;
    }

    /** `update_job_progress`: nothing for a job that is not active. */
    method UpdateJobProgress(jobId: string, data: ProgressData, now: int)
      modifies this
      requires Valid()
      ensures Valid()
      ensures activeJobs == if jobId in old(activeJobs) then old(activeJobs)[jobId := Progressed(old(activeJobs)[jobId], data, now)]
                            else old(activeJobs)
      ensures jobHistory == old(jobHistory)
    {
      if jobId !in activeJobs {
        return;
      }
      activeJobs := activeJobs[jobId := Progressed(activeJobs[jobId], data, now)];
    }

    /** `save_checkpoint`: the path is appended to an active job's checkpoints;
        nothing happens for any other id. */
    method SaveCheckpoint(jobId: string, checkpointPath: string)
      modifies this
      requires Valid()
      ensures Valid()
      ensures activeJobs == if jobId in old(activeJobs)
                            then old(activeJobs)[jobId := old(activeJobs)[jobId].(
                                   checkpoints := old(activeJobs)[jobId].checkpoints + [checkpointPath])]
                            else old(activeJobs)
      ensures jobHistory == old(jobHistory)
    {
      if jobId !in activeJobs {
        return;
      }
      var job := activeJobs[jobId];
      activeJobs := activeJobs[jobId := job.(checkpoints := job.checkpoints + [checkpointPath])];
    }

    /** Ends an active job with the given status and moves it to the history. */
    method Finish(jobId: string, status: FineTuningStatus, finalPath: Option<string>, now: int)
      modifies this
      requires Valid() && (status == Completed || status == Cancelled)
      ensures Valid()
      ensures jobId in old(activeJobs) ==>
                && activeJobs == old(activeJobs) - {jobId}
                && jobHistory == old(jobHistory) + [Finished(old(activeJobs)[jobId], status, finalPath, now)]
      ensures jobId !in old(activeJobs) ==> activeJobs == old(activeJobs) && jobHistory == old(jobHistory)
    {
      if jobId !in activeJobs {
        return;
      }
      var job := Finished(activeJobs[jobId], status, finalPath, now);
      jobHistory := jobHistory + [job];
      activeJobs := activeJobs - {jobId};
    }

    /** `complete_job`: completed now, with the final model path as last checkpoint. */
    method CompleteJob(jobId: string, finalModelPath: Option<string>, now: int)
      modifies this
      requires Valid()
      ensures Valid()
      ensures jobId in old(activeJobs) ==>
                && activeJobs == old(activeJobs) - {jobId}
                && jobHistory == old(jobHistory) + [Finished(old(activeJobs)[jobId], Completed, finalModelPath, now)]
      ensures jobId !in old(activeJobs) ==> activeJobs == old(activeJobs) && jobHistory == old(jobHistory)
    {
      Finish(jobId, Completed, finalModelPath, now);
    }

    /** `cancel_job`: cancelled now; its checkpoints are kept as they are. */
    method CancelJob(jobId: string, now: int)
      modifies this
      requires Valid()
      ensures Valid()
      ensures jobId in old(activeJobs) ==>
                && activeJobs == old(activeJobs) - {jobId}
                && jobHistory == old(jobHistory) + [Finished(old(activeJobs)[jobId], Cancelled, None, now)]
      ensures jobId !in old(activeJobs) ==> activeJobs == old(activeJobs) && jobHistory == old(jobHistory)
    {
      Finish(jobId, Cancelled, None, now);
    }

    /** `get_job_status`: the active job with that id, else the first job of the
        history with it, else nothing. */
    function GetJobStatus(jobId: string): (r: Option<JobReport>)
      reads this
      ensures jobId in activeJobs ==> r == Some(ReportOf(jobId, activeJobs[jobId]))
      ensures jobId !in activeJobs ==> r.None? == FindInHistory(jobHistory, jobId).None?
      ensures jobId !in activeJobs && r.Some? ==> r == Some(ReportOf(jobId, FindInHistory(jobHistory, jobId).value))
    {
      if jobId in activeJobs then Some(ReportOf(jobId, activeJobs[jobId]))
      else match FindInHistory(jobHistory, jobId)
        case None => None
        case Some(job) => Some(ReportOf(jobId, job))
    }
  }

  /** A job's history entry is found after it is appended, unless an earlier entry
      has the same id: then the earlier one is reported. */
  lemma {:induction false} FindAfterAppend(history: seq<FineTuningJob>, job: FineTuningJob)
    ensures FindInHistory(history + [job], job.config.jobId) ==
              if FindInHistory(history, job.config.jobId).Some? then FindInHistory(history, job.config.jobId)
              else Some(job)
  {
    var h := history + [job];
    if |history| > 0 {
      assert h[0] == history[0] && h[1..] == history[1..] + [job];
      FindAfterAppend(history[1..], job);
    }
  }

  /** The life of a job: created pending with nothing recorded, then started on a
      node, then completed; afterwards its status is "completed" with the end time
      and final path, provided no earlier job of that id is in the history. */
  lemma JobLifecycle(config: FineTuningConfig, nodeId: string, t0: int, t1: int, finalPath: string,
                     history: seq<FineTuningJob>)
    requires finalPath != ""
    requires FindInHistory(history, config.jobId).None?
    ensures var started := NewJob(config).(status := Preparing, assignedNode := Some(nodeId), startTime := Some(t0));
            var done := Finished(started, Completed, Some(finalPath), t1);
            && NewJob(config).status == Pending && NewJob(config).checkpoints == [] && NewJob(config).logs == []
            && FindInHistory(history + [done], config.jobId) == Some(done)
            && ReportOf(config.jobId, done).status == "completed"
            && done.checkpoints == [finalPath] && done.endTime == Some(t1) && done.assignedNode == Some(nodeId)
  {
    var started := NewJob(config).(status := Preparing, assignedNode := Some(nodeId), startTime := Some(t0));
    FindAfterAppend(history, Finished(started, Completed, Some(finalPath), t1));
  }
}
