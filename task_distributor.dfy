/** Task distribution (hub/services/task_distributor.py): the bookkeeping kept for
    each distributed task, from PENDING through RUNNING to COMPLETED, FAILED or
    CANCELLED, on top of the distributed executor's shard table.

    What the executor's run returns and whether handing the metrics to the
    collector raises are parameters: running the shards on remote nodes is not
    modelled, and neither is the collector's store. */
module TaskDistribution {
  import opened Common
  import opened HubModels
  import DistributedExecution

  type Node = DistributedExecution.Node

  /** What `execute_distributed` returns, as far as this module reads it. */
  datatype TaskOutput = TaskOutput(output: Option<string>, metrics: Option<map<string, real>>)

  /** The entry of `active_tasks`. */
  datatype TaskRecord = TaskRecord(
    status: TaskStatus,
    startTime: int,
    modelName: string,
    distributionConfig: map<string, string>,
    endTime: Option<int>,
    result: Option<TaskOutput>,
    error: Option<string>)

  /** The result as `get_task_status` reports it: a summary instead of the output. */
  datatype ResultSummary = ResultSummary(status: string, outputSize: nat, metrics: map<string, real>)

  datatype TaskView = TaskView(
    status: TaskStatus,
    startTime: int,
    modelName: string,
    distributionConfig: map<string, string>,
    endTime: Option<int>,
    result: Option<ResultSummary>,
    error: Option<string>)

  /** What `_record_task_metrics` hands to the collector. */
  datatype TaskMetrics = TaskMetrics(taskId: string, modelName: string, executionTime: int, status: TaskStatus,
                                     resultMetrics: map<string, real>)

  function OrElse<T>(o: Option<T>, default: T): T
  {
    if o.Some? then o.value else default
  }

  /** `_get_model_config`: the same configuration for every model (8000 MB in
      4000 MB shards on GPUs). */
  const DefaultModelConfig := DistributedExecution.ShardingConfig(Some(8000), Some(4000), Some(true))

  /** The executor's shard table after a task for `modelName` has made sure the
      model is distributed, with the error that stopped it, if any. A model already
      in the table is left alone. */
  function Provision(table: map<string, seq<DistributedExecution.ModelShard>>, modelName: string, nodes: seq<Node>)
    : (map<string, seq<DistributedExecution.ModelShard>>, Option<string>)
  {
    if modelName in table then (table, None)
    else
      match DistributedExecution.PrepareSpec(modelName, DefaultModelConfig, |nodes|)
      case Err(e) => (table, Some(e))
      case Ok(shards) =>
        var prepared := table[modelName := shards];
        match DistributedExecution.DistributeSpec(shards, nodes)
        case Err(e) => (prepared, Some(e))
        case Ok(d) => (prepared[modelName := d.shards], None)
  }

  /** With the fixed model configuration, distributing a new model fails exactly
      when there are no nodes; otherwise the model ends up with one or two shards,
      all assigned. */
  lemma ProvisionFailsOnlyWithoutNodes(table: map<string, seq<DistributedExecution.ModelShard>>, modelName: string,
                                       nodes: seq<Node>)
    requires modelName !in table
    ensures Provision(table, modelName, nodes).1.Some? <==> |nodes| == 0
    ensures |nodes| > 0 ==>
              var t := Provision(table, modelName, nodes).0;
              && modelName in t && 1 <= |t[modelName]| <= 2
              && forall i :: 0 <= i < |t[modelName]| ==> t[modelName][i].status == "assigned"
  {
    if |nodes| > 0 {
      var shards := DistributedExecution.PrepareSpec(modelName, DefaultModelConfig, |nodes|).value;
      DistributedExecution.PreparedShardsFacts(modelName, DefaultModelConfig, |nodes|);
      assert DistributedExecution.FloorDiv(8000, 4000) == 2;
      assert |shards| <= 2;
    }
  }

  /** A task that fails: FAILED with the error's text, everything else kept. */
  function FailedWith(r: TaskRecord, e: string): TaskRecord
  {
    r.(status := TaskStatus.Failed, error := Some(e))
  }

  /** `_record_task_metrics`: metrics for a COMPLETED task only. */
  function MetricsOf(taskId: string, r: TaskRecord): (m: Option<TaskMetrics>)
    ensures m.Some? <==> r.status == TaskStatus.Completed && r.endTime.Some?
    ensures m.Some? ==> m.value.executionTime == r.endTime.value - r.startTime && m.value.status == TaskStatus.Completed
  {
    if r.status == TaskStatus.Completed && r.endTime.Some? then
      var metrics := if r.result.Some? then OrElse(r.result.value.metrics, map[]) else map[];
      Some(TaskMetrics(taskId, r.modelName, r.endTime.value - r.startTime, r.status, metrics))
    else None
  }

  /** `get_task_status`'s copy: the result replaced by its summary. */
  function ViewOf(r: TaskRecord): (v: TaskView)
    ensures v.status == r.status && v.startTime == r.startTime && v.modelName == r.modelName
    ensures v.distributionConfig == r.distributionConfig && v.endTime == r.endTime && v.error == r.error
    ensures v.result.Some? <==> r.result.Some?
    ensures r.result.Some? ==>
              && v.result.value.status == "completed"
              && v.result.value.outputSize == |OrElse(r.result.value.output, "")|
              && v.result.value.metrics == OrElse(r.result.value.metrics, map[])
  {
    var summary := if r.result.Some? then
                     Some(ResultSummary("completed", |OrElse(r.result.value.output, "")|, OrElse(r.result.value.metrics, map[])))
                   else None;
    TaskView(r.status, r.startTime, r.modelName, r.distributionConfig, r.endTime, summary, r.error)
  }

  /** The record a run of `distribute_task` leaves and what it returns, given the
      error (if any) from distributing the model, the executor's outcome and the
      error (if any) from recording metrics. */
  function RunOutcome(start: TaskRecord, provisionError: Option<string>, run: Result<TaskOutput>,
                      recordError: Option<string>, finish: int): (TaskRecord, Result<TaskOutput>)
  {
    if provisionError.Some? then (FailedWith(start, provisionError.value), Err(provisionError.value))
    else if run.Err? then (FailedWith(start.(status := TaskStatus.Running), run.msg), Err(run.msg))
    else
      var done := start.(status := TaskStatus.Completed, endTime := Some(finish), result := Some(run.value));
      if recordError.Some? then (FailedWith(done, recordError.value), Err(recordError.value))
      else (done, Ok(run.value))
  }

  /** A task succeeds exactly when nothing on the way raises, and then it is
      COMPLETED with the executor's result and its end time; otherwise it is FAILED
      with the first error, which is also what the caller sees. */
  lemma RunOutcomeCases(start: TaskRecord, provisionError: Option<string>, run: Result<TaskOutput>,
                        recordError: Option<string>, finish: int)
    ensures var (r, res) := RunOutcome(start, provisionError, run, recordError, finish);
            && (res.Ok? <==> provisionError.None? && run.Ok? && recordError.None?)
            && (res.Ok? ==> r.status == TaskStatus.Completed && r.result == Some(run.value) && r.endTime == Some(finish)
                            && res.value == run.value && r.error == start.error)
            && (res.Err? ==> r.status == TaskStatus.Failed && r.error == Some(res.msg))
            && r.startTime == start.startTime && r.modelName == start.modelName
  {
  }

  class TaskDistributor {
    const executor: DistributedExecution.DistributedExecutor
    var activeTasks: map<string, TaskRecord>
    /** The ids that have a lock in `_task_locks`. */
    var locks: set<string>

    ghost predicate Valid()
      reads this
    {
      locks == activeTasks.Keys
    }

    constructor ()
      ensures Valid() && activeTasks == map[] && fresh(executor) && executor.modelShards == map[]
    {
      executor := new DistributedExecution.DistributedExecutor();
      activeTasks := map[];
      locks := {};
    }

    /** The first half of `distribute_task`: a model the executor does not have yet
        is prepared and distributed with the fixed configuration. */
    method EnsureDistributed(modelName: string, nodes: seq<Node>) returns (error: Option<string>)
      modifies executor
      ensures (executor.modelShards, error) == Provision(old(executor.modelShards), modelName, nodes)
    {
      if modelName in executor.modelShards {
        return None;
      }
      var shards := executor.PrepareModelDistribution(modelName, DefaultModelConfig, nodes);
      if shards.Err? {
        return Some(shards.msg);
      }
      // The prepared shards are never more than the nodes, so this does not raise.
      var plan := executor.DistributeModel(modelName, shards.value, nodes);
      return None;
    }

    /** `distribute_task`: the task is recorded as PENDING, the model is
        distributed if the executor does not have it yet, the task runs, and ends
        COMPLETED, or FAILED with the error that is passed on. */
    method DistributeTask(taskId: string, modelName: string, config: Option<map<string, string>>,
                          nodes: seq<Node>, run: Result<TaskOutput>, recordError: Option<string>,
                          now: int, finish: int)
      returns (r: Result<TaskOutput>, recorded: Option<TaskMetrics>)
      modifies this, executor
      requires Valid()
      ensures Valid()
      ensures executor.modelShards == Provision(old(executor.modelShards), modelName, nodes).0
      ensures var provisionError := Provision(old(executor.modelShards), modelName, nodes).1;
              var start := TaskRecord(TaskStatus.Pending, now, modelName, OrElse(config, map[]), None, None, None);
              && activeTasks == old(activeTasks)[taskId := RunOutcome(start, provisionError, run, recordError, finish).0]
              && r == RunOutcome(start, provisionError, run, recordError, finish).1
              && recorded == (if provisionError.None? && run.Ok?
                              then MetricsOf(taskId, start.(status := TaskStatus.Completed, endTime := Some(finish),
                                                            result := Some(run.value)))
                              else None)
    {
      var start := TaskRecord(TaskStatus.Pending, now, modelName, OrElse(config, map[]), None, None, None);
      activeTasks := activeTasks[taskId := start];
      locks := locks + {taskId};
      var error := EnsureDistributed(modelName, nodes);
      r, recorded := RunTask(taskId, start, error, run, recordError, finish);
    }

    /** The rest of `distribute_task`, once the model is distributed or has failed
        to be: the task's record goes through RUNNING to its outcome. */
    method RunTask(taskId: string, start: TaskRecord, error: Option<string>, run: Result<TaskOutput>,
                   recordError: Option<string>, finish: int)
      returns (r: Result<TaskOutput>, recorded: Option<TaskMetrics>)
      modifies this
      requires Valid() && taskId in activeTasks
      ensures Valid() && locks == old(locks)
      ensures activeTasks == old(activeTasks)[taskId := RunOutcome(start, error, run, recordError, finish).0]
      ensures r == RunOutcome(start, error, run, recordError, finish).1
      ensures recorded == (if error.None? && run.Ok?
                           then MetricsOf(taskId, start.(status := TaskStatus.Completed, endTime := Some(finish),
                                                         result := Some(run.value)))
                           else None)
    {
      if error.Some? {
        activeTasks := activeTasks[taskId := FailedWith(start, error.value)];
        return Err(error.value), None;
      }
      var running := start.(status := TaskStatus.Running);
      activeTasks := activeTasks[taskId := running];
      if run.Err? {
        activeTasks := activeTasks[taskId := FailedWith(running, run.msg)];
        return Err(run.msg), None;
      }
      var done := running.(status := TaskStatus.Completed, endTime := Some(finish), result := Some(run.value));
      activeTasks := activeTasks[taskId := done];
      recorded := MetricsOf(taskId, done);
      if recordError.Some? {
        activeTasks := activeTasks[taskId := FailedWith(done, recordError.value)];
        return Err(recordError.value), recorded;
      }
      return Ok(run.value), recorded;
    }

    /** `get_task_status`: a ValueError for an unknown task, otherwise the record
        with its result summarised. */
    function GetTaskStatus(taskId: string): (r: Result<TaskView>)
      reads this
      ensures r.Ok? <==> taskId in activeTasks
      ensures r.Ok? ==> r.value == ViewOf(activeTasks[taskId])
    {
      if taskId !in activeTasks then Err("ValueError") else Ok(ViewOf(activeTasks[taskId]))
    }

    /** `cancel_task`: a ValueError for an unknown task; only a RUNNING task becomes
        CANCELLED (with its end time), but the answer says "cancelled" whatever the
        status was. */
    method CancelTask(taskId: string, now: int) returns (r: Result<(string, string)>)
      modifies this
      requires Valid()
      ensures Valid() && locks == old(locks)
      ensures r.Err? <==> taskId !in old(activeTasks)
      ensures r.Ok? ==> r.value == ("cancelled", taskId)
      ensures activeTasks == if taskId in old(activeTasks) && old(activeTasks)[taskId].status == TaskStatus.Running
                             then old(activeTasks)[taskId := old(activeTasks)[taskId].(status := TaskStatus.Cancelled,
                                                                                       endTime := Some(now))]
                             else old(activeTasks)
    {
      if taskId !in activeTasks {
        return Err("ValueError");
      }
      if activeTasks[taskId].status == TaskStatus.Running {
        activeTasks := activeTasks[taskId := activeTasks[taskId].(status := TaskStatus.Cancelled, endTime := Some(now))];
      }
      return Ok(("cancelled", taskId));
    }

    /** `cleanup_task`: the task and its lock are both forgotten. */
    method CleanupTask(taskId: string)
      modifies this
      requires Valid()
      ensures Valid()
      ensures activeTasks == old(activeTasks) - {taskId} && locks == old(locks) - {taskId}
    {
      if taskId in activeTasks {
        locks := locks - {taskId};
        activeTasks := activeTasks - {taskId};
      }
    }
  }
}
