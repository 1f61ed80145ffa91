/** The task endpoints of the hub (hub/routers/tasks.py): the router's own node
    requirement check, the creation of a persistent task, task creation,
    and the agent-facing next / complete / fail endpoints with their status codes.
    An endpoint's answer is a `Reply`; an HTTPException raised inside the generic
    `try` is caught by `except Exception` and re-raised as a 500. */
module TaskEndpoints {
  import opened Common
  import opened SharedModels
  import GpuScheduling
  import HubModels
  import opened Registry
  import TaskScheduling
  import DatabaseServices

  // ---------------------------------------------------------------------------
  // `_node_meets_requirements` of the router: the scheduler's filter without the
  // compute-capability test.

  ghost predicate RouterMeets(node: AgentNode, req: TaskRequirements)
  {
    var res := node.computeResources;
    && (req.requiresGpu ==> res.hasGpu)
    && res.availableRamGb >= req.minRamGb
    && (req.minGpuMemoryGb > 0.0 ==>
          res.hasGpu && SomeDeviceHasFreeMemory(res.gpuInfo.devices, req.minGpuMemoryGb))
    && node.currentTasks < node.maxConcurrentTasks
  }

  method RouterNodeMeetsRequirements(node: AgentNode, req: TaskRequirements) returns (ok: bool)
    ensures ok == RouterMeets(node, req)
  {
    var res := node.computeResources;
    if req.requiresGpu && !res.hasGpu { return false; }
    if res.availableRamGb < req.minRamGb { return false; }
    if req.minGpuMemoryGb > 0.0 {
      if !res.hasGpu { return false; }
      var enough := FindDeviceWithFreeMemory(res.gpuInfo.devices, req.minGpuMemoryGb);
      if !enough { return false; }
    }
    if node.currentTasks >= node.maxConcurrentTasks { return false; }
    return true;
  }

  /** Every node the scheduler's filter accepts, the router accepts; the two agree
      when no capability is required; and the router's answer does not depend on the
      required capability at all. */
  lemma RouterFilterRelation(node: AgentNode, req: TaskRequirements, capability: Option<string>)
    ensures GpuScheduling.MeetsRequirements(node, req) ==> RouterMeets(node, req)
    ensures !GpuScheduling.CapabilityRequired(req) ==>
              (RouterMeets(node, req) <==> GpuScheduling.MeetsRequirements(node, req))
    ensures RouterMeets(node, req) <==> RouterMeets(node, req.(minComputeCapability := capability))
  {
  }

  // ---------------------------------------------------------------------------
  // `create_persistent`: the first suitable node, in registry order.

  method FirstSuitableNode(nodes: seq<AgentNode>, req: TaskRequirements) returns (r: Option<nat>)
    ensures r.None? <==> forall i :: 0 <= i < |nodes| ==> !RouterMeets(nodes[i], req)
    ensures r.Some? ==> r.value < |nodes| && RouterMeets(nodes[r.value], req)
                        && forall j :: 0 <= j < r.value ==> !RouterMeets(nodes[j], req)
  {
    var i := 0;
    while i < |nodes|
      invariant 0 <= i <= |nodes|
      invariant forall j :: 0 <= j < i ==> !RouterMeets(nodes[j], req)
    {
      var ok := RouterNodeMeetsRequirements(nodes[i], req);
      if ok {
        return Some(i);
      }
      i := i + 1;
    }
    return None;
  }

  /** `DBTaskPriority(priority)`: the database enum has the same four values; any
      other string raises ValueError. */
  function ParseDbPriority(s: string): (r: Option<DatabaseServices.TaskPriority>)
    ensures r.Some? <==> ParsePriority(s).Some?
  {
    if s == "low" then Some(DatabaseServices.Low)
    else if s == "normal" then Some(DatabaseServices.Normal)
    else if s == "high" then Some(DatabaseServices.High)
    else if s == "urgent" then Some(DatabaseServices.Urgent)
    else None
  }

  /** The generation parameters every persistent task is stored with. */
  const PersistentParameters: DatabaseServices.JsonObject :=
    map["max_tokens" := DatabaseServices.JNum(100),
        "temperature" := DatabaseServices.JReal(0.7),
        "top_p" := DatabaseServices.JReal(0.9)]

  /** The requirements a stored task row describes. */
  function RowRequirements(d: DatabaseServices.TaskData): TaskRequirements
  {
    TaskRequirements(d.requiresGpu, d.minRamGb, d.minGpuMemoryGb, d.minComputeCapability,
                     d.preferredModels, d.maxDurationSeconds)
  }

  /** The `task_data` handed to `task_service.create_task`: every requirement of the
      request can be read back from the row, with the fixed generation parameters
      and no tags. */
  function PersistentData(model: string, input: string, req: TaskRequirements,
                          priority: DatabaseServices.TaskPriority, createdBy: string): (d: DatabaseServices.TaskData)
    ensures RowRequirements(d) == req
    ensures d.modelId == model && d.inputText == input && d.priority == priority && d.createdBy == createdBy
    ensures d.parameters == PersistentParameters && d.parameters["temperature"] == DatabaseServices.JReal(0.7)
    ensures |d.tags| == 0
  {
    DatabaseServices.TaskData(model, input, PersistentParameters, req.requiresGpu, req.minRamGb,
                              req.minGpuMemoryGb, req.minComputeCapability, req.preferredModels,
                              priority, req.maxDurationSeconds, createdBy, map[])
  }

  datatype PersistentReply = Queued(taskId: string, assignedNode: string)
                           | StaysPending(taskId: string)
                           | ServerError

  /** `create_persistent` as written. An unknown priority raises ValueError before
      anything is stored; otherwise the row is created, and the very next statement
      calls `registry.get_active_nodes()`, which the registry instance (a
      RedisRegistry) does not have. The AttributeError is answered 500, and the new
      row stays behind, pending and never assigned. */
  method CreatePersistentTaskAsWritten(svc: DatabaseServices.TaskService, id: string, model: string,
                                       input: string, req: TaskRequirements, priority: string,
                                       createdBy: string, now: int) returns (reply: PersistentReply)
    modifies svc
    requires svc.Valid()
    ensures svc.Valid()
    ensures reply == ServerError
    ensures ParseDbPriority(priority).None? || id in old(svc.tasks) ==> svc.tasks == old(svc.tasks)
    ensures ParseDbPriority(priority).Some? && id !in old(svc.tasks) ==>
              svc.tasks == old(svc.tasks)[id := DatabaseServices.NewTask(
                             id, PersistentData(model, input, req, ParseDbPriority(priority).value, createdBy), now)]
  {
    var p := ParseDbPriority(priority);
    if p.None? {
      return ServerError;
    }
    var row := svc.CreateTask(id, PersistentData(model, input, req, p.value, createdBy), now);
    if row.Err? {
      return ServerError;
    }
    // `registry.get_active_nodes()` raises AttributeError here.
    return ServerError;
  }

  /** The row a persistent task ends in once it is assigned to `node`: assigned and
      QUEUED by `assign_task_to_node`, then QUEUED again by `update_task_status`. */
  function QueuedRow(row: DatabaseServices.TaskRow, node: string, now: int): DatabaseServices.TaskRow
  {
    DatabaseServices.UpdateStatusSpec(row.(assignedNodeId := Some(node), status := DatabaseServices.Queued),
                                      DatabaseServices.Queued, None, None, now)
  }

  /** `create_persistent` with the registry's active node list given as `nodes` and
      nodes identified by `id`: the task is stored, then goes to the FIRST suitable
      node, not the best-scoring one, and is "queued"; with none it stays "pending".
      An unknown priority, or a row that cannot be inserted, is answered 500 with
      nothing stored. */
  method CreatePersistentTask(svc: DatabaseServices.TaskService, nodes: seq<AgentNode>, id: string,
                              model: string, input: string, req: TaskRequirements, priority: string,
                              createdBy: string, now: int) returns (reply: PersistentReply)
    modifies svc
    requires svc.Valid()
    ensures svc.Valid()
    ensures reply.ServerError? <==> ParseDbPriority(priority).None? || id in old(svc.tasks)
    ensures reply.ServerError? ==> svc.tasks == old(svc.tasks)
    ensures !reply.ServerError? ==> reply.taskId == id
    ensures reply.StaysPending? <==>
              !reply.ServerError? && forall i :: 0 <= i < |nodes| ==> !RouterMeets(nodes[i], req)
    ensures reply.StaysPending? ==>
              svc.tasks == old(svc.tasks)[id := DatabaseServices.NewTask(
                             id, PersistentData(model, input, req, ParseDbPriority(priority).value, createdBy), now)]
    ensures reply.Queued? ==>
              exists k :: 0 <= k < |nodes| && nodes[k].id == reply.assignedNode
                          && RouterMeets(nodes[k], req)
                          && (forall j :: 0 <= j < k ==> !RouterMeets(nodes[j], req))
                          && svc.tasks == old(svc.tasks)[id := QueuedRow(DatabaseServices.NewTask(
                               id, PersistentData(model, input, req, ParseDbPriority(priority).value, createdBy), now),
                               nodes[k].id, now)]
  {
    var p := ParseDbPriority(priority);
    if p.None? {
      return ServerError;
    }
    var data := PersistentData(model, input, req, p.value, createdBy);
    var row := svc.CreateTask(id, data, now);
    if row.Err? {
      return ServerError;
    }
    var k := FirstSuitableNode(nodes, req);
    if k.None? {
      return StaysPending(id);
    }
    var node := nodes[k.value].id;
    var wasAssigned := svc.AssignTaskToNode(id, node);
    var updated := svc.UpdateTaskStatus(id, DatabaseServices.Queued, None, None, now);
    return Queued(id, node);
  }

  // ---------------------------------------------------------------------------
  // Creation.

  /** `TaskPriority(priority)`: a string that is no member's value raises ValueError. */
  function ParsePriority(s: string): (r: Option<TaskPriority>)
    ensures r.Some? ==> r.value.Value() == s
  {
    if s == "low" then Some(Low)
    else if s == "normal" then Some(Normal)
    else if s == "high" then Some(High)
    else if s == "urgent" then Some(Urgent)
    else None
  }

  /** `create_gpu_aware`: 200 with the task queued when some node passes the filter;
      otherwise the 400 raised for "no suitable nodes", and the ValueError of an
      unknown priority, both reach the client as 500. */
  method CreateGpuAwareTask(s: GpuScheduling.GpuScheduler, id: string, model: string, input: string,
                            req: TaskRequirements, priority: string, importTime: int) returns (code: int)
    modifies s
    ensures code == 200 || code == 500
    ensures code == 200 <==> ParsePriority(priority).Some?
                             && exists i :: 0 <= i < |old(s.nodes)| && GpuScheduling.MeetsRequirements(old(s.nodes)[i], req)
    ensures code == 200 ==>
              s.taskQueue == old(s.taskQueue)
                             + [InferenceTask(id, model, input, "text-generation", req, ParsePriority(priority).value,
                                              SharedModels.Pending, importTime, None, None, None, None, None)]
    ensures code != 200 ==> s.taskQueue == old(s.taskQueue)
  {
    var p := ParsePriority(priority);
    if p.None? {
      return 500;
    }
    var task := InferenceTask(id, model, input, "text-generation", req, p.value, SharedModels.Pending,
                              importTime, None, None, None, None, None);
    var ok, _ := s.SubmitTask(task);
    if ok {
      return 200;
    }
    return 500;
  }

  /** `/create` as written: `scheduler.create_task` raises for every request, so
      every request is answered 500 and nothing is stored. */
  method CreateEndpointAsWritten(sched: TaskScheduling.TaskScheduler, reg: RedisRegistry, id: string,
                                 q: HubModels.TaskCreationRequest, now: int) returns (code: int)
    ensures code == 500
  {
    var r := sched.CreateTaskAsWritten(reg, id, q.model, q.inputData, q.priority, now);
    if r.Ok? {
      return 200;
    }
    return 500;
  }

  /** `/create` once the registry can store tasks: every request that passed
      validation is stored as a pending, queued task under the fresh id. */
  method CreateEndpoint(sched: TaskScheduling.TaskScheduler, reg: RedisRegistry, id: string,
                        q: HubModels.TaskCreationRequest, now: int) returns (code: int, taskId: string)
    modifies reg
    requires HubModels.ValidCreationRequest(q) && HubModels.ValidTaskInput(q.inputData)
    ensures code == 200 && taskId == id
    ensures id in reg.db.tasks && reg.db.tasks[id].status == "pending"
    ensures id in reg.db.pendingTasks && reg.db.pendingTasks[id] == q.priority && id in reg.db.allTasks
  {
    var r := sched.CreateTask(reg, id, q.model, q.inputData, q.priority, now);
    if r.Err? {
      return 500, "";
    }
    return 200, r.value;
  }

  // ---------------------------------------------------------------------------
  // The agent endpoints.

  datatype Reply = Assigned(taskId: string)
                 | NoPendingTasks
                 | Updated(taskId: string)
                 | Error(code: int, detail: string)

  /** `GET /agent/{node_id}/next`. */
  ghost function NextTaskSpec(ks: Keyspace, nodeId: string, now: int): (Keyspace, Reply)
  {
    var (ks1, node) := GetNodeSpec(ks, nodeId, now);
    if node.None? then (ks1, Error(404, "Agent not found"))
    else if node.value.status != Some("online") then (ks1, Error(400, "Agent is not online"))
    else
      match Head(ks1.pendingTasks)
      case None => (ks1, NoPendingTasks)
      case Some(id) =>
        if id == "" || id !in ks1.tasks then (ks1, NoPendingTasks)
        else (UpdateTaskStatusSpec(ks1, id, "running", Some(nodeId), None, now).0, Assigned(id))
  }

  /** 404 exactly for a node without data, 400 exactly for one that does not report
      "online" (a stale heartbeat reports "offline"); otherwise the head of the queue
      is set running on the node and leaves the queue. */
  lemma NextTaskCodes(ks: Keyspace, nodeId: string, now: int)
    ensures var (ks', reply) := NextTaskSpec(ks, nodeId, now);
            && (reply == Error(404, "Agent not found") <==> !HasData(ks, nodeId, now))
            && (reply == Error(400, "Agent is not online") <==>
                  HasData(ks, nodeId, now) && Reported(ks.nodes[nodeId], now).status != Some("online"))
            && (reply.Error? ==> reply.code == 404 || reply.code == 400)
            && ks'.allTasks == ks.allTasks
            && (reply.Assigned? ==>
                  && Head(ks.pendingTasks) == Some(reply.taskId)
                  && reply.taskId in ks'.tasks && ks'.tasks[reply.taskId].status == "running"
                  && ks'.pendingTasks == ks.pendingTasks - {reply.taskId}
                  && reply.taskId in ks'.runningTasks
                  && (nodeId != "" ==> ks'.tasks[reply.taskId].nodeId == nodeId))
            && ((HasData(ks, nodeId, now) && Reported(ks.nodes[nodeId], now).status == Some("online")
                 && |ks.pendingTasks| == 0) ==> reply == NoPendingTasks)
  {
    GetNodeCharacterized(ks, nodeId, now);
  }

  /** The complete and fail endpoints: 404 for an unknown task, 403 when the task is
      recorded on another node, else the status update. */
  function FinishSpec(ks: Keyspace, nodeId: string, taskId: string, status: string,
                      result: HubModels.TaskResult, now: int): (Keyspace, Reply)
  {
    if taskId !in ks.tasks then (ks, Error(404, "Task not found"))
    else if ks.tasks[taskId].nodeId != nodeId then (ks, Error(403, "Task not assigned to this agent"))
    else
      var (ks1, ok) := UpdateTaskStatusSpec(ks, taskId, status, Some(nodeId), Some(result), now);
      if ok then (ks1, Updated(taskId)) else (ks1, Error(500, "Failed to update task"))
  }

  /** Only the agent the task is recorded on can finish it; a finished task leaves
      the running set for the completed or failed set, keeps its result, and counts
      on the agent's record. */
  lemma FinishCodes(ks: Keyspace, nodeId: string, taskId: string, status: string,
                    result: HubModels.TaskResult, now: int)
    requires status == "completed" || status == "failed"
    ensures var (ks', reply) := FinishSpec(ks, nodeId, taskId, status, result, now);
            && (reply == Error(404, "Task not found") <==> taskId !in ks.tasks)
            && (reply == Error(403, "Task not assigned to this agent") <==>
                  taskId in ks.tasks && ks.tasks[taskId].nodeId != nodeId)
            && (reply.Error? ==> ks' == ks)
            && (reply.Updated? <==> taskId in ks.tasks && ks.tasks[taskId].nodeId == nodeId)
            && (reply.Updated? ==>
                  && ks'.tasks[taskId].status == status && ks'.tasks[taskId].result == Some(result)
                  && taskId !in ks'.runningTasks
                  && (status == "completed" ==> taskId in ks'.completedTasks)
                  && (status == "failed" ==> taskId in ks'.failedTasks)
                  && (nodeId != "" && status == "completed" ==>
                        ks'.nodes[nodeId].tasksCompleted == NodeHash(ks, nodeId, now).tasksCompleted + 1))
  {
    UpdateTaskStatusEffects(ks, taskId, status, Some(nodeId), Some(result), now);
  }

  /** `PUT /{task_id}/status`: 404 when the registry does not know the task. */
  function UpdateStatusEndpointSpec(ks: Keyspace, taskId: string, status: HubModels.TaskStatus,
                                    result: Option<HubModels.TaskResult>, now: int): (r: (Keyspace, Reply))
    ensures r.1 == Error(404, "Task not found") <==> taskId !in ks.tasks
    ensures r.1.Updated? <==> taskId in ks.tasks
    ensures taskId in ks.tasks ==> taskId in r.0.tasks && r.0.tasks[taskId].status == status.Value()
  {
    var (ks1, ok) := UpdateTaskStatusSpec(ks, taskId, status.Value(), None, result, now);
    if ok then (ks1, Updated(taskId)) else (ks1, Error(404, "Task not found"))
  }

  class AgentEndpoints {
    var reg: RedisRegistry

    constructor (r: RedisRegistry)
      ensures reg == r
    {
      reg := r;
    }

    method NextTask(nodeId: string, now: int) returns (reply: Reply)
      modifies reg
      ensures (reg.db, reply) == NextTaskSpec(old(reg.db), nodeId, now)
    {
      var node := reg.GetNode(nodeId, now);
      if node.None? {
        return Error(404, "Agent not found");
      }
      if node.value.status != Some("online") {
        return Error(400, "Agent is not online");
      }
      var id := reg.GetPendingTask();
      if id.None? || id.value == "" {
        return NoPendingTasks;
      }
      var task := reg.GetTask(id.value);
      if task.None? {
        return NoPendingTasks;
      }
      var ok := reg.UpdateTaskStatus(id.value, "running", Some(nodeId), None, now);
      return Assigned(id.value);
    }

    method Finish(nodeId: string, taskId: string, status: string, result: HubModels.TaskResult, now: int)
      returns (reply: Reply)
      modifies reg
      ensures (reg.db, reply) == FinishSpec(old(reg.db), nodeId, taskId, status, result, now)
    {
      var task := reg.GetTask(taskId);
      if task.None? {
        return Error(404, "Task not found");
      }
      if task.value.nodeId != nodeId {
        return Error(403, "Task not assigned to this agent");
      }
      var ok := reg.UpdateTaskStatus(taskId, status, Some(nodeId), Some(result), now);
      if ok {
        return Updated(taskId);
      }
      return Error(500, "Failed to update task");
    }

    /** `POST /agent/{node_id}/complete/{task_id}`. */
    method CompleteTask(nodeId: string, taskId: string, result: HubModels.TaskResult, now: int)
      returns (reply: Reply)
      modifies reg
      ensures (reg.db, reply) == FinishSpec(old(reg.db), nodeId, taskId, "completed", result, now)
    {
      reply := Finish(nodeId, taskId, "completed", result, now);
    }

    /** `POST /agent/{node_id}/fail/{task_id}`: the result holds only the error. */
    method FailTask(nodeId: string, taskId: string, error: string, now: int) returns (reply: Reply)
      modifies reg
      ensures (reg.db, reply) == FinishSpec(old(reg.db), nodeId, taskId, "failed",
                                            TaskScheduling.ErrorResult(error), now)
    {
      reply := Finish(nodeId, taskId, "failed", TaskScheduling.ErrorResult(error), now);
    }

    /** `PUT /{task_id}/status`. */
    method UpdateStatus(taskId: string, status: HubModels.TaskStatus, result: Option<HubModels.TaskResult>,
                        now: int) returns (reply: Reply)
      modifies reg
      ensures (reg.db, reply) == UpdateStatusEndpointSpec(old(reg.db), taskId, status, result, now)
    {
      var ok := reg.UpdateTaskStatus(taskId, status.Value(), None, result, now);
      if ok {
        return Updated(taskId);
      }
      return Error(404, "Task not found");
    }

    /** `DELETE /{task_id}`: 400 when the scheduler refuses the cancellation. */
    method Cancel(sched: TaskScheduling.TaskScheduler, taskId: string, now: int) returns (reply: Reply)
      modifies reg
      ensures var (ks', ok) := TaskScheduling.CancelSpec(old(reg.db), taskId, now);
              reg.db == ks' && reply == (if ok then Updated(taskId) else Error(400, "Cannot cancel task"))
    {
      var ok := sched.CancelTask(reg, taskId, now);
      if ok {
        return Updated(taskId);
      }
      return Error(400, "Cannot cancel task");
    }
  }
}
