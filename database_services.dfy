/** The database service layer (shared/database/services.py): the task and node
    tables as maps from primary key to row, and the services' reads and writes on
    them. Each service call runs in its own session and commits once, so a call is
    one step from the old table to the new one.

    Times are whole seconds, given as `now`; a generated task id is given as a
    parameter. */
module DatabaseServices {
  import opened Common

  const SecondsPerDay: int := 86400
  const SecondsPerHour: int := 3600
  /** `get_active_nodes` wants a heartbeat within the last five minutes. */
  const ActiveWindow: int := 300

  datatype TaskStatus = Pending | Queued | Running | Completed | Failed | Cancelled
  datatype TaskPriority = Low | Normal | High | Urgent
  datatype NodeStatus = Active | Inactive | Maintenance | NodeFailed

  datatype JsonValue = JNum(n: int) | JReal(x: real) | JText(text: string)
  type JsonObject = map<string, JsonValue>

  // ---------------------------------------------------------------------------
  // Tasks.

  /** The columns of `TaskBase`: the fields a caller supplies when creating a task
      (`tags`, which no caller supplies, defaults to the empty dictionary). */
  datatype TaskData = TaskData(
    modelId: string,
    inputText: string,
    parameters: JsonObject,
    requiresGpu: bool,
    minRamGb: real,
    minGpuMemoryGb: real,
    minComputeCapability: Option<string>,
    preferredModels: seq<string>,
    priority: TaskPriority,
    maxDurationSeconds: int,
    createdBy: string,
    tags: map<string, string>)

  datatype TaskRow = TaskRow(
    taskId: string,
    data: TaskData,
    status: TaskStatus,
    assignedNodeId: Option<string>,
    createdAt: int,
    updatedAt: int,
    startedAt: Option<int>,
    completedAt: Option<int>,
    durationSeconds: Option<int>,
    result: Option<JsonObject>,
    errorMessage: Option<string>,
    outputTokens: Option<JsonValue>)

  /** A new row: PENDING, unassigned, nothing run yet. */
  function NewTask(id: string, data: TaskData, now: int): (t: TaskRow)
    ensures t.taskId == id && t.data == data && t.status == Pending && t.assignedNodeId.None?
    ensures t.createdAt == now && t.updatedAt == now
    ensures t.startedAt.None? && t.completedAt.None? && t.durationSeconds.None?
    ensures t.result.None? && t.errorMessage.None? && t.outputTokens.None?
    ensures TimingConsistent(t)
  {
    TaskRow(id, data, Pending, None, now, now, None, None, None, None, None, None)
  }

  /** The duration, when there is one, is the time from start to completion. */
  predicate TimingConsistent(t: TaskRow)
  {
    t.durationSeconds.Some? ==>
      t.startedAt.Some? && t.completedAt.Some? && t.durationSeconds.value == t.completedAt.value - t.startedAt.value
  }

  /** `update_task_status` on the row it found. */
  function UpdateStatusSpec(t: TaskRow, status: TaskStatus, result: Option<JsonObject>,
                            error: Option<string>, now: int): TaskRow
  {
    var t1 := t.(status := status, updatedAt := now);
    var t2 :=
      if status == Running && t.startedAt.None? then t1.(startedAt := Some(now))
      else if status == Completed || status == Failed then
        t1.(completedAt := Some(now),
            durationSeconds := if t.startedAt.Some? then Some(now - t.startedAt.value) else t.durationSeconds)
      else t1;
    var t3 :=
      if result.Some? && |result.value| > 0 then
        t2.(result := result,
            outputTokens := if "output_tokens" in result.value then Some(result.value["output_tokens"]) else None)
      else t2;
    if error.Some? && error.value != "" then t3.(errorMessage := error) else t3
  }

  /** The effects of a status update: the start time is set on the first move to
      RUNNING and never changes afterwards; COMPLETED and FAILED stamp the
      completion (and the duration once started); CANCELLED and the other statuses
      leave the timing alone; a non-empty result is stored with its `output_tokens`;
      the error message changes only when a non-empty one is given; the timing stays
      consistent; and the id, the data and the assignment never change. */
  lemma UpdateStatusEffects(t: TaskRow, status: TaskStatus, result: Option<JsonObject>,
                            error: Option<string>, now: int)
    ensures var t' := UpdateStatusSpec(t, status, result, error, now);
            && t'.status == status && t'.updatedAt == now
            && (t.startedAt.Some? ==> t'.startedAt == t.startedAt)
            && (t'.startedAt != t.startedAt <==> status == Running && t.startedAt.None?)
            && (status == Completed || status == Failed ==> t'.completedAt == Some(now))
            && (status != Completed && status != Failed ==>
                  t'.completedAt == t.completedAt && t'.durationSeconds == t.durationSeconds)
            && ((status == Completed || status == Failed) && t.startedAt.Some? ==>
                  t'.durationSeconds == Some(now - t.startedAt.value))
            && (result.Some? && |result.value| > 0 ==> t'.result == result)
            && (result.None? || |result.value| == 0 ==> t'.result == t.result && t'.outputTokens == t.outputTokens)
            && (t'.errorMessage == if error.Some? && error.value != "" then error else t.errorMessage)
            && t'.taskId == t.taskId && t'.data == t.data && t'.assignedNodeId == t.assignedNodeId
            && t'.createdAt == t.createdAt
            && (TimingConsistent(t) ==> TimingConsistent(t'))
  {
  }

  /** Over any run of updates, a start time once recorded is never replaced. */
  lemma {:induction false} StartTimeIsStable(t: TaskRow, updates: seq<(TaskStatus, int)>)
    requires t.startedAt.Some?
    ensures var t' := ApplyUpdates(t, updates); t'.startedAt == t.startedAt
    decreases |updates|
  {
    if |updates| > 0 {
      UpdateStatusEffects(t, updates[0].0, None, None, updates[0].1);
      StartTimeIsStable(UpdateStatusSpec(t, updates[0].0, None, None, updates[0].1), updates[1..]);
    }
  }

  /** Bare status updates (no result, no error) applied in order. */
  function ApplyUpdates(t: TaskRow, updates: seq<(TaskStatus, int)>): TaskRow
    decreases |updates|
  {
    if |updates| == 0 then t
    else ApplyUpdates(UpdateStatusSpec(t, updates[0].0, None, None, updates[0].1), updates[1..])
  }

  /** The rows `cleanup_old_tasks` deletes: COMPLETED or FAILED, and completed before
      the cutoff (a missing completion time compares as NULL and never matches). */
  predicate OldTask(t: TaskRow, cutoff: int)
  {
    (t.status == Completed || t.status == Failed) && t.completedAt.Some? && t.completedAt.value < cutoff
  }

  function OldTaskIds(tasks: map<string, TaskRow>, cutoff: int): (r: set<string>)
    ensures r <= tasks.Keys
    ensures forall id :: id in r <==> id in tasks && OldTask(tasks[id], cutoff)
  {
    set id | id in tasks && OldTask(tasks[id], cutoff)
  }

  /** The number of tasks in a status, as `get_task_queue_stats` reports it. */
  function CountInStatus(tasks: map<string, TaskRow>, status: TaskStatus): (n: nat)
    ensures n <= |tasks|
    ensures n == 0 <==> forall id :: id in tasks ==> tasks[id].status != status
  {
    var ids := set id | id in tasks && tasks[id].status == status;
    assert ids <= tasks.Keys;
    SubsetCard(ids, tasks.Keys);
    if ids == {} then
      assert forall id :: id in tasks ==> tasks[id].status != status by {
        forall id | id in tasks
          ensures tasks[id].status != status
        {
          assert id !in ids;
        }
      }
      0
    else
      var id :| id in ids;
      assert tasks[id].status == status;
      |ids|
  }

  lemma SubsetCard<T>(a: set<T>, b: set<T>)
    requires a <= b
    ensures |a| <= |b|
  {
    assert b == a + (b - a);
  }

  class TaskService {
    var tasks: map<string, TaskRow>

    /** Rows sit under their own id and their timing is consistent. */
    ghost predicate Valid()
      reads this
    {
      forall id :: id in tasks ==> tasks[id].taskId == id && TimingConsistent(tasks[id])
    }

    constructor ()
      ensures Valid() && tasks == map[]
    {
      tasks := map[];
    }

    /** `create_task`: insert a new row under the generated id; inserting an id that
        is already taken violates the primary key and changes nothing. */
    method CreateTask(id: string, data: TaskData, now: int) returns (r: Result<TaskRow>)
      modifies this
      requires Valid()
      ensures Valid()
      ensures id in old(tasks) ==> r.Err? && tasks == old(tasks)
      ensures id !in old(tasks) ==> r == Ok(NewTask(id, data, now)) && tasks == old(tasks)[id := NewTask(id, data, now)]
    {
      if id in tasks {
        return Err("IntegrityError");
      }
      var row := NewTask(id, data, now);
      tasks := tasks[id := row];
      return Ok(row);
    }

    /** `get_task`. */
    function GetTask(id: string): (r: Option<TaskRow>)
      reads this
      ensures r.Some? <==> id in tasks
      ensures r.Some? ==> r.value == tasks[id]
    {
      if id in tasks then Some(tasks[id]) else None
    }

    /** `update_task_status`: false for an unknown task; otherwise the row is updated
        and every other row is left alone. */
    method UpdateTaskStatus(id: string, status: TaskStatus, result: Option<JsonObject>,
                            error: Option<string>, now: int) returns (ok: bool)
      modifies this
      requires Valid()
      ensures Valid()
      ensures ok <==> id in old(tasks)
      ensures !ok ==> tasks == old(tasks)
      ensures ok ==> tasks == old(tasks)[id := UpdateStatusSpec(old(tasks)[id], status, result, error, now)]
    {
      if id !in tasks {
        return false;
      }
      var task := tasks[id];
      UpdateStatusEffects(task, status, result, error, now);
      task := task.(status := status, updatedAt := now);
      if status == Running && tasks[id].startedAt.None? {
        task := task.(startedAt := Some(now));
      } else if status == Completed || status == Failed {
        task := task.(completedAt := Some(now));
        if task.startedAt.Some? {
          task := task.(durationSeconds := Some(now - task.startedAt.value));
        }
      }
      if result.Some? && |result.value| > 0 {
        task := task.(result := result,
                      outputTokens := if "output_tokens" in result.value then Some(result.value["output_tokens"]) else None);
      }
      if error.Some? && error.value != "" {
        task := task.(errorMessage := error);
      }
      assert task == UpdateStatusSpec(tasks[id], status, result, error, now);
      tasks := tasks[id := task];
      return true;
    }

    /** `assign_task_to_node`: false for an unknown task; otherwise the task is
        assigned to the node and QUEUED, and nothing else changes. */
    method AssignTaskToNode(id: string, node: string) returns (ok: bool)
      modifies this
      requires Valid()
      ensures Valid()
      ensures ok <==> id in old(tasks)
      ensures !ok ==> tasks == old(tasks)
      ensures ok ==> tasks == old(tasks)[id := old(tasks)[id].(assignedNodeId := Some(node), status := Queued)]
    {
      if id !in tasks {
        return false;
      }
      tasks := tasks[id := tasks[id].(assignedNodeId := Some(node), status := Queued)];
      return true;
    }

    /** One entry of `get_task_queue_stats`. */
    function QueueCount(status: TaskStatus): (n: nat)
      reads this
      ensures n <= |tasks|
    {
      CountInStatus(tasks, status)
    }

    /** `cleanup_old_tasks`: deletes exactly the COMPLETED and FAILED tasks completed
        more than `days` days ago and answers how many. */
    method CleanupOldTasks(days: int, now: int) returns (count: nat)
      modifies this
      requires Valid()
      ensures Valid()
      ensures tasks == old(tasks) - OldTaskIds(old(tasks), now - days * SecondsPerDay)
      ensures count == |OldTaskIds(old(tasks), now - days * SecondsPerDay)|
      ensures forall id :: id in tasks ==> !OldTask(tasks[id], now - days * SecondsPerDay)
    {
      var stale := OldTaskIds(tasks, now - days * SecondsPerDay);
      count := |stale|;
      if count > 0 {
        tasks := tasks - stale;
      }
    }
  }

  // ---------------------------------------------------------------------------
  // Nodes.

  /** The fields a caller supplies when registering a node. */
  datatype NodeData = NodeData(
    nodeId: string,
    host: string,
    port: int,
    region: string,
    totalRamGb: real,
    availableRamGb: real,
    cpuCores: int,
    hasGpu: bool,
    gpuCount: int)

  datatype NodeRow = NodeRow(
    data: NodeData,
    status: NodeStatus,
    lastHeartbeat: int,
    currentTasks: int,
    maxConcurrentTasks: int,
    tasksCompleted: int,
    tasksFailed: int,
    cpuUsagePercent: real,
    memoryUsagePercent: real,
    gpuUsagePercent: real)

  /** The keys a heartbeat's metrics dict carries. */
  datatype HeartbeatMetrics = HeartbeatMetrics(
    cpuUsagePercent: Option<real>,
    memoryUsagePercent: Option<real>,
    gpuUsagePercent: Option<real>,
    currentTasks: Option<int>)

  /** `register_node` on the row it found, if any: the supplied fields are written
      over the old ones (a new row starts from the column defaults), and the node is
      ACTIVE with a heartbeat now. */
  function RegisterSpec(existing: Option<NodeRow>, data: NodeData, now: int): (r: NodeRow)
    ensures r.data == data && r.status == Active && r.lastHeartbeat == now
    ensures existing.Some? ==> r.currentTasks == existing.value.currentTasks
                               && r.tasksCompleted == existing.value.tasksCompleted
                               && r.tasksFailed == existing.value.tasksFailed
    ensures existing.None? ==> r.currentTasks == 0 && r.maxConcurrentTasks == 4
                               && r.tasksCompleted == 0 && r.tasksFailed == 0
  {
    if existing.Some? then existing.value.(data := data, status := Active, lastHeartbeat := now)
    else NodeRow(data, Active, now, 0, 4, 0, 0, 0.0, 0.0, 0.0)
  }

  /** A heartbeat on the row it found: ACTIVE, seen now, and each metric overwritten
      only when the dict carries it. */
  function HeartbeatSpec(n: NodeRow, metrics: HeartbeatMetrics, now: int): (r: NodeRow)
  {
    n.(lastHeartbeat := now, status := Active,
       cpuUsagePercent := if metrics.cpuUsagePercent.Some? then metrics.cpuUsagePercent.value else n.cpuUsagePercent,
       memoryUsagePercent := if metrics.memoryUsagePercent.Some? then metrics.memoryUsagePercent.value else n.memoryUsagePercent,
       gpuUsagePercent := if metrics.gpuUsagePercent.Some? then metrics.gpuUsagePercent.value else n.gpuUsagePercent,
       currentTasks := if metrics.currentTasks.Some? then metrics.currentTasks.value else n.currentTasks)
  }

  /** A heartbeat without metrics only refreshes the node; one carrying every metric
      leaves no trace of the old ones. */
  lemma HeartbeatMetricsEffects(n: NodeRow, metrics: HeartbeatMetrics, now: int)
    ensures metrics == HeartbeatMetrics(None, None, None, None) ==>
              HeartbeatSpec(n, metrics, now) == n.(lastHeartbeat := now, status := Active)
    ensures metrics.cpuUsagePercent.Some? && metrics.memoryUsagePercent.Some?
            && metrics.gpuUsagePercent.Some? && metrics.currentTasks.Some? ==>
              forall m: NodeRow :: m.data == n.data && m.maxConcurrentTasks == n.maxConcurrentTasks
                                   && m.tasksCompleted == n.tasksCompleted && m.tasksFailed == n.tasksFailed ==>
                HeartbeatSpec(m, metrics, now) == HeartbeatSpec(n, metrics, now)
    ensures HeartbeatSpec(n, metrics, now).data == n.data
  {
  }

  /** Active for `get_active_nodes`: ACTIVE with a heartbeat in the last five minutes. */
  predicate IsActive(n: NodeRow, now: int)
  {
    n.status == Active && n.lastHeartbeat > now - ActiveWindow
  }

  /** The rows `cleanup_inactive_nodes` marks: a heartbeat before the cutoff. */
  function SilentIds(nodes: map<string, NodeRow>, cutoff: int): (r: set<string>)
    ensures forall id :: id in r <==> id in nodes && nodes[id].lastHeartbeat < cutoff
  {
    set id | id in nodes && nodes[id].lastHeartbeat < cutoff
  }

  function MarkInactive(nodes: map<string, NodeRow>, cutoff: int): (r: map<string, NodeRow>)
    ensures r.Keys == nodes.Keys
  {
    map id | id in nodes :: if nodes[id].lastHeartbeat < cutoff then nodes[id].(status := Inactive) else nodes[id]
  }

  /** The set in ascending id order (the query's ORDER BY). */
  ghost function Ascending(s: set<string>): (r: seq<string>)
    ensures |r| == |s| && forall x :: x in r <==> x in s
    ensures forall i, j :: 0 <= i < j < |r| ==> LexLess(r[i], r[j])
    decreases s
  {
    if s == {} then []
    else
      LeastExists(s);
      var m :| m in s && forall x :: x in s && x != m ==> LexLess(m, x);
      var rest := Ascending(s - {m});
      LeastFirst(s, m, rest);
      [m] + rest
  }

  /** Putting the least element of a set in front of the rest in order orders the set. */
  lemma LeastFirst(s: set<string>, m: string, rest: seq<string>)
    requires m in s && forall x :: x in s && x != m ==> LexLess(m, x)
    requires |rest| == |s - {m}| && forall x :: x in rest <==> x in s - {m}
    requires forall i, j :: 0 <= i < j < |rest| ==> LexLess(rest[i], rest[j])
    ensures |[m] + rest| == |s| && forall x :: x in [m] + rest <==> x in s
    ensures forall i, j :: 0 <= i < j < |[m] + rest| ==> LexLess(([m] + rest)[i], ([m] + rest)[j])
  {
    var r := [m] + rest;
    forall i, j | 0 <= i < j < |r|
      ensures LexLess(r[i], r[j])
    {
      if i == 0 {
        assert r[j] == rest[j - 1] && r[j] in s - {m};
      } else {
        assert r[i] == rest[i - 1] && r[j] == rest[j - 1];
      }
    }
  }

  lemma {:induction false} LeastExists(s: set<string>)
    requires s != {}
    ensures exists m :: m in s && forall x :: x in s && x != m ==> LexLess(m, x)
    decreases s
  {
    var y :| y in s;
    if s == {y} {
      assert forall x :: x in s && x != y ==> LexLess(y, x);
    } else {
      LeastExists(s - {y});
      var m :| m in s - {y} && forall x :: x in s - {y} && x != m ==> LexLess(m, x);
      LexLessTotal(m, y);
      if LexLess(m, y) {
        assert forall x :: x in s && x != m ==> LexLess(m, x);
      } else {
        forall x | x in s && x != y
          ensures LexLess(y, x)
        {
          if x != m {
            LexLessTransitive(y, m, x);
          }
        }
      }
    }
  }

  /** The ids of the active rows. */
  function ActiveIds(table: map<string, NodeRow>, now: int): (r: set<string>)
    ensures forall id :: id in r <==> id in table && IsActive(table[id], now)
  {
    set id | id in table && IsActive(table[id], now)
  }

  /** The rows under the given ids, in that order. */
  function RowsOf(table: map<string, NodeRow>, ids: seq<string>): (r: seq<NodeRow>)
    requires forall i :: 0 <= i < |ids| ==> ids[i] in table
    ensures |r| == |ids| && forall i :: 0 <= i < |ids| ==> r[i] == table[ids[i]]
  {
    seq(|ids|, i requires 0 <= i < |ids| => table[ids[i]])
  }

  /** Looking up the active ids, in ascending order, gives exactly the active rows in id order. */
  lemma RowsOfActive(table: map<string, NodeRow>, now: int, ids: seq<string>)
    requires forall id :: id in table ==> table[id].data.nodeId == id
    requires forall x :: x in ids <==> x in ActiveIds(table, now)
    requires forall i, j :: 0 <= i < j < |ids| ==> LexLess(ids[i], ids[j])
    ensures forall i :: 0 <= i < |ids| ==> ids[i] in table
    ensures forall n :: n in RowsOf(table, ids) <==> exists id :: id in table && table[id] == n && IsActive(n, now)
    ensures forall i, j :: 0 <= i < j < |ids| ==> LexLess(RowsOf(table, ids)[i].data.nodeId, RowsOf(table, ids)[j].data.nodeId)
  {
    assert forall i :: 0 <= i < |ids| ==> ids[i] in ActiveIds(table, now);
    var r := RowsOf(table, ids);
    forall n | n in r
      ensures exists id :: id in table && table[id] == n && IsActive(n, now)
    {
      var i :| 0 <= i < |r| && r[i] == n;
      assert ids[i] in ActiveIds(table, now);
    }
    forall id | id in table && IsActive(table[id], now)
      ensures table[id] in r
    {
      assert id in ActiveIds(table, now);
      var i :| 0 <= i < |ids| && ids[i] == id;
      assert r[i] == table[id];
    }
  }

  class NodeService {
    var nodes: map<string, NodeRow>

    ghost predicate Valid()
      reads this
    {
      forall id :: id in nodes ==> nodes[id].data.nodeId == id
    }

    constructor ()
      ensures Valid() && nodes == map[]
    {
      nodes := map[];
    }

    /** `register_node`: an upsert under the node's id. */
    method RegisterNode(data: NodeData, now: int) returns (row: NodeRow)
      modifies this
      requires Valid()
      ensures Valid()
      ensures row == RegisterSpec(if data.nodeId in old(nodes) then Some(old(nodes)[data.nodeId]) else None, data, now)
      ensures nodes == old(nodes)[data.nodeId := row]
    {
      if data.nodeId in nodes {
        var existing := nodes[data.nodeId];
        row := existing.(data := data, status := Active, lastHeartbeat := now);
      } else {
        row := NodeRow(data, Active, now, 0, 4, 0, 0, 0.0, 0.0, 0.0);
      }
      nodes := nodes[data.nodeId := row];
    }

    /** `update_node_heartbeat`: false for an unknown node. */
    method UpdateNodeHeartbeat(id: string, metrics: HeartbeatMetrics, now: int) returns (ok: bool)
      modifies this
      requires Valid()
      ensures Valid()
      ensures ok <==> id in old(nodes)
      ensures !ok ==> nodes == old(nodes)
      ensures ok ==> nodes == old(nodes)[id := HeartbeatSpec(old(nodes)[id], metrics, now)]
    {
      if id !in nodes {
        return false;
      }
      nodes := nodes[id := HeartbeatSpec(nodes[id], metrics, now)];
      return true;
    }

    /** `get_active_nodes`: the active rows, in ascending id order. */
    ghost function ActiveNodes(now: int): (r: seq<NodeRow>)
      reads this
      requires Valid()
      ensures forall n :: n in r <==> exists id :: id in nodes && nodes[id] == n && IsActive(n, now)
      ensures forall i, j :: 0 <= i < j < |r| ==> LexLess(r[i].data.nodeId, r[j].data.nodeId)
    {
      var active := ActiveIds(nodes, now);
      var ids := Ascending(active);
      RowsOfActive(nodes, now, ids);
      RowsOf(nodes, ids)
    }

    /** `get_node`. */
    function GetNode(id: string): (r: Option<NodeRow>)
      reads this
      ensures r.Some? <==> id in nodes
      ensures r.Some? ==> r.value == nodes[id]
    {
      if id in nodes then Some(nodes[id]) else None
    }

    /** `deactivate_node`: false for an unknown node; otherwise the node is INACTIVE. */
    method DeactivateNode(id: string) returns (ok: bool)
      modifies this
      requires Valid()
      ensures Valid()
      ensures ok <==> id in old(nodes)
      ensures !ok ==> nodes == old(nodes)
      ensures ok ==> nodes == old(nodes)[id := old(nodes)[id].(status := Inactive)]
    {
      if id !in nodes {
        return false;
      }
      nodes := nodes[id := nodes[id].(status := Inactive)];
      return true;
    }

    /** `cleanup_inactive_nodes`: every node silent for longer than `hours` is marked
        INACTIVE (none is deleted), and the answer counts them all, including those
        that were INACTIVE already. */
    method CleanupInactiveNodes(hours: int, now: int) returns (count: nat)
      modifies this
      requires Valid()
      ensures Valid()
      ensures nodes == MarkInactive(old(nodes), now - hours * SecondsPerHour)
      ensures count == |SilentIds(old(nodes), now - hours * SecondsPerHour)|
    {
      var cutoff := now - hours * SecondsPerHour;
      var silent := SilentIds(nodes, cutoff);
      ghost var before := nodes;
      var todo := silent;
      count := 0;
      while todo != {}
        invariant todo <= silent
        invariant nodes.Keys == before.Keys
        invariant count == |silent| - |todo|
        invariant forall id :: id in nodes ==>
                    nodes[id] == (if id in silent && id !in todo then before[id].(status := Inactive) else before[id])
        decreases todo
      {
        var id :| id in todo;
        nodes := nodes[id := nodes[id].(status := Inactive)];
        todo := todo - {id};
        count := count + 1;
      }
    }
  }
}
