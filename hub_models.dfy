/** The hub's request and record types (hub/models.py): node and task status
    enumerations, the node record with its defaults, and the range checks pydantic
    applies when a task input, a task or a creation request is built. A build that
    violates a bound raises a validation error, modelled as `Err`. */
module HubModels {
  import opened Common

  datatype NodeStatus = Online | Offline | Maintenance | Error
  {
    function Value(): string
    {
      match this
      case Online => "online"
      case Offline => "offline"
      case Maintenance => "maintenance"
      case Error => "error"
    }
  }

  datatype TaskStatus = Pending | Running | Completed | Failed | Cancelled
  {
    function Value(): string
    {
      match this
      case Pending => "pending"
      case Running => "running"
      case Completed => "completed"
      case Failed => "failed"
      case Cancelled => "cancelled"
    }
  }

  /** `NodeStatus(s)`: the member whose value is `s`, or a ValueError. */
  function ParseNodeStatus(s: string): (r: Option<NodeStatus>)
    ensures r.Some? ==> r.value.Value() == s
  {
    if s == "online" then Some(Online)
    else if s == "offline" then Some(Offline)
    else if s == "maintenance" then Some(Maintenance)
    else if s == "error" then Some(Error)
    else None
  }

  /** `TaskStatus(s)`: the member whose value is `s`, or a ValueError. */
  function ParseTaskStatus(s: string): (r: Option<TaskStatus>)
    ensures r.Some? ==> r.value.Value() == s
  {
    if s == "pending" then Some(Pending)
    else if s == "running" then Some(Running)
    else if s == "completed" then Some(Completed)
    else if s == "failed" then Some(Failed)
    else if s == "cancelled" then Some(Cancelled)
    else None
  }

  /** Every status reads back from its value, and a string that is no member's value
      is rejected; in particular there is no "queued" task status. */
  lemma StatusValuesRoundTrip(n: NodeStatus, t: TaskStatus, s: string)
    ensures ParseNodeStatus(n.Value()) == Some(n)
    ensures ParseTaskStatus(t.Value()) == Some(t)
    ensures (forall m: TaskStatus :: m.Value() != s) ==> ParseTaskStatus(s).None?
    ensures ParseTaskStatus("queued").None?
  {
    if ParseTaskStatus(s).Some? {
      assert ParseTaskStatus(s).value.Value() == s;
    }
  }

  // ---------------------------------------------------------------------------
  // Nodes.

  /** Memory fields are in MB. */
  datatype NodeCapabilities = NodeCapabilities(
    gpuCount: int,
    gpuMemoryMb: int,
    cpuCores: int,
    memoryMb: int,
    supportedModels: seq<string>,
    maxConcurrentTasks: int)

  function DefaultNodeCapabilities(): NodeCapabilities
  {
    NodeCapabilities(0, 0, 1, 0, [], 1)
  }

  /** Times are whole seconds. */
  datatype Node = Node(
    id: string,
    status: NodeStatus,
    capabilities: Option<NodeCapabilities>,
    lastHeartbeat: Option<int>,
    registeredAt: Option<int>,
    host: Option<string>,
    port: Option<int>,
    version: Option<string>,
    tasksCompleted: int,
    tasksFailed: int,
    currentLoad: real)

  /** `Node(id=...)` with every other field left at its default. */
  function NewNode(id: string): (n: Node)
  {
    Node(id, Offline, None, None, None, None, None, None, 0, 0, 0.0)
  }

  lemma NewNodeDefaults(id: string)
    ensures var n := NewNode(id);
            && n.id == id && n.status == Offline && n.capabilities.None?
            && n.lastHeartbeat.None? && n.tasksCompleted == 0 && n.tasksFailed == 0
            && n.currentLoad == 0.0
  {
  }

  // ---------------------------------------------------------------------------
  // Task inputs.

  datatype TaskInput = TaskInput(
    prompt: string,
    maxTokens: int,
    temperature: real,
    topP: real,
    stopSequences: Option<seq<string>>,
    stream: bool)

  predicate ValidTaskInput(i: TaskInput)
  {
    1 <= i.maxTokens <= 2048 && 0.0 <= i.temperature <= 2.0 && 0.0 <= i.topP <= 1.0
  }

  /** `TaskInput(prompt=..., ...)`: an omitted field takes its default (100, 0.7,
      0.9); a given one must lie in its range. */
  function MakeTaskInput(prompt: string, maxTokens: Option<int>, temperature: Option<real>,
                         topP: Option<real>, stopSequences: Option<seq<string>>, stream: bool)
    : (r: Result<TaskInput>)
  {
    var m := if maxTokens.Some? then maxTokens.value else 100;
    var t := if temperature.Some? then temperature.value else 0.7;
    var p := if topP.Some? then topP.value else 0.9;
    if !(1 <= m <= 2048) then Err("max_tokens out of range")
    else if !(0.0 <= t <= 2.0) then Err("temperature out of range")
    else if !(0.0 <= p <= 1.0) then Err("top_p out of range")
    else Ok(TaskInput(prompt, m, t, p, stopSequences, stream))
  }

  /** The build succeeds iff every given value lies in its range, and then keeps the
      given values and fills in the defaults; the defaults alone always succeed. */
  lemma TaskInputValidation(prompt: string, maxTokens: Option<int>, temperature: Option<real>,
                            topP: Option<real>, stopSequences: Option<seq<string>>, stream: bool)
    ensures var r := MakeTaskInput(prompt, maxTokens, temperature, topP, stopSequences, stream);
            && (r.Ok? <==> (maxTokens.None? || 1 <= maxTokens.value <= 2048)
                           && (temperature.None? || 0.0 <= temperature.value <= 2.0)
                           && (topP.None? || 0.0 <= topP.value <= 1.0))
            && (r.Ok? ==> ValidTaskInput(r.value) && r.value.prompt == prompt
                          && r.value.maxTokens == (if maxTokens.Some? then maxTokens.value else 100)
                          && r.value.temperature == (if temperature.Some? then temperature.value else 0.7)
                          && r.value.topP == (if topP.Some? then topP.value else 0.9))
    ensures MakeTaskInput(prompt, None, None, None, stopSequences, stream).Ok?
  {
  }

  // ---------------------------------------------------------------------------
  // Tasks.

  datatype TaskResult = TaskResult(
    output: Option<string>,
    tokensGenerated: Option<int>,
    processingTime: Option<real>,
    modelUsed: Option<string>,
    error: Option<string>)

  datatype Task = Task(
    id: string,
    status: TaskStatus,
    model: string,
    inputData: TaskInput,
    result: Option<TaskResult>,
    nodeId: Option<string>,
    priority: int,
    createdAt: Option<int>,
    updatedAt: Option<int>,
    startedAt: Option<int>,
    completedAt: Option<int>,
    retryCount: int,
    maxRetries: int,
    timeoutSeconds: int)

  predicate ValidTask(t: Task)
  {
    1 <= t.priority <= 10 && ValidTaskInput(t.inputData)
  }

  /** `Task(id=..., status=..., model=..., input_data=..., priority=...)`: the status
      defaults to PENDING, the priority to 1 and must lie in 1..10; retries start at
      0 of 3 and the timeout is 300 s. */
  function MakeTask(id: string, status: Option<TaskStatus>, model: string, input: TaskInput,
                    priority: Option<int>): (r: Result<Task>)
  {
    var p := if priority.Some? then priority.value else 1;
    if !(1 <= p <= 10) then Err("priority out of range")
    else Ok(Task(id, if status.Some? then status.value else Pending, model, input, None, None, p,
                 None, None, None, None, 0, 3, 300))
  }

  lemma TaskDefaults(id: string, model: string, input: TaskInput, priority: Option<int>)
    requires ValidTaskInput(input)
    ensures var r := MakeTask(id, None, model, input, priority);
            && (r.Ok? <==> priority.None? || 1 <= priority.value <= 10)
            && (r.Ok? ==> && ValidTask(r.value) && r.value.status == Pending
                          && r.value.retryCount == 0 && r.value.maxRetries == 3
                          && r.value.timeoutSeconds == 300 && r.value.nodeId.None?
                          && r.value.result.None?)
  {
  }

  // ---------------------------------------------------------------------------
  // Creation requests.

  datatype TaskCreationRequest = TaskCreationRequest(
    model: string,
    inputData: TaskInput,
    priority: int,
    maxRetries: int,
    timeoutSeconds: int)

  predicate ValidCreationRequest(q: TaskCreationRequest)
  {
    1 <= q.priority <= 10 && 0 <= q.maxRetries <= 10 && 30 <= q.timeoutSeconds <= 3600
  }

  function MakeCreationRequest(model: string, input: TaskInput, priority: Option<int>,
                               maxRetries: Option<int>, timeoutSeconds: Option<int>)
    : (r: Result<TaskCreationRequest>)
  {
    var p := if priority.Some? then priority.value else 1;
    var m := if maxRetries.Some? then maxRetries.value else 3;
    var t := if timeoutSeconds.Some? then timeoutSeconds.value else 300;
    if !(1 <= p <= 10) then Err("priority out of range")
    else if !(0 <= m <= 10) then Err("max_retries out of range")
    else if !(30 <= t <= 3600) then Err("timeout_seconds out of range")
    else Ok(TaskCreationRequest(model, input, p, m, t))
  }

  /** A request is accepted iff its three numbers are in range; an accepted request
      with a valid input always yields a valid pending task with its priority (the
      task is built as the scheduler builds it: id, pending, model, input, priority). */
  lemma {:induction false} AcceptedRequestYieldsValidTask(
    id: string, model: string, input: TaskInput, priority: Option<int>,
    maxRetries: Option<int>, timeoutSeconds: Option<int>)
    requires ValidTaskInput(input)
    ensures var q := MakeCreationRequest(model, input, priority, maxRetries, timeoutSeconds);
            && (q.Ok? <==> && (priority.None? || 1 <= priority.value <= 10)
                           && (maxRetries.None? || 0 <= maxRetries.value <= 10)
                           && (timeoutSeconds.None? || 30 <= timeoutSeconds.value <= 3600))
            && (q.Ok? ==> && ValidCreationRequest(q.value)
                          && var t := MakeTask(id, Some(Pending), q.value.model, q.value.inputData,
                                               Some(q.value.priority));
                          && t.Ok? && ValidTask(t.value) && t.value.priority == q.value.priority
                          && t.value.status == Pending)
  {
  }
}
