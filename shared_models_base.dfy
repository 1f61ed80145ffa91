/** The shared record types of the orchestration hub (shared/models/base.py):
    task and node records, their enumerations and defaults, and the searches
    over a node's GPU devices that every scheduler's requirement filter uses. */
module SharedModels {
  import opened Common

  datatype TaskStatus = Pending | Running | Completed | Failed | Cancelled
  {
    function Value(): string
    {
      match this
      case Pending => "pending"
      case Running => "running"
      case Completed => "completed"
      case Failed => "failed"
      case Cancelled => "cancelled"
    }
  }

  /** Priorities are string-valued enum members; ordering by `.value` is alphabetical. */
  datatype TaskPriority = Low | Normal | High | Urgent
  {
    function Value(): string
    {
      match this
      case Low => "low"
      case Normal => "normal"
      case High => "high"
      case Urgent => "urgent"
    }

    /** Position of `Value()` in alphabetical order: high < low < normal < urgent. */
    function AlphaRank(): nat
    {
      match this
      case High => 0
      case Low => 1
      case Normal => 2
      case Urgent => 3
    }
  }

  /** Sorting by the priority's string value is sorting by AlphaRank, so an "urgent"
      task sorts last and a "high" one first. */
  lemma PriorityValueOrder(a: TaskPriority, b: TaskPriority)
    ensures LexLess(a.Value(), b.Value()) <==> a.AlphaRank() < b.AlphaRank()
  {
    match a
    case High => {
      assert LexLess("high", "low") && LexLess("high", "normal") && LexLess("high", "urgent");
      assert !LexLess("high", "high") by { LexLessIrreflexive("high"); }
    }
    case Low => {
      assert LexLess("low", "normal") && LexLess("low", "urgent") && !LexLess("low", "high");
      assert !LexLess("low", "low") by { LexLessIrreflexive("low"); }
    }
    case Normal => {
      assert LexLess("normal", "urgent") && !LexLess("normal", "high") && !LexLess("normal", "low");
      assert !LexLess("normal", "normal") by { LexLessIrreflexive("normal"); }
    }
    case Urgent => {
      assert !LexLess("urgent", "high") && !LexLess("urgent", "low") && !LexLess("urgent", "normal");
      assert !LexLess("urgent", "urgent") by { LexLessIrreflexive("urgent"); }
    }
  }

  /** One entry of `gpu_info["devices"]`. */
  datatype GpuDevice = GpuDevice(memoryTotalGb: real, memoryAllocatedGb: real, computeCapability: string)

  datatype GpuInfo = GpuInfo(devices: seq<GpuDevice>, totalMemoryGb: real)

  datatype ComputeResources = ComputeResources(
    cpuCores: int,
    totalRamGb: real,
    availableRamGb: real,
    hasGpu: bool,
    gpuInfo: GpuInfo)

  datatype NodeCapabilities = NodeCapabilities(
    inference: bool,
    textGeneration: bool,
    autoModelLoading: bool,
    streaming: bool,
    modelRegistry: bool)

  datatype TaskRequirements = TaskRequirements(
    requiresGpu: bool,
    minRamGb: real,
    minGpuMemoryGb: real,
    minComputeCapability: Option<string>,
    preferredModels: seq<string>,
    maxDurationSeconds: int)

  /** Opaque result payload of a task. */
  datatype Payload = Payload(output: string, tokens: int)

  datatype InferenceTask = InferenceTask(
    id: string,
    model: string,
    input: string,
    taskType: string,
    requirements: TaskRequirements,
    priority: TaskPriority,
    status: TaskStatus,
    createdAt: int,
    startedAt: Option<int>,
    completedAt: Option<int>,
    assignedNode: Option<string>,
    result: Option<Payload>,
    error: Option<string>)

  datatype AgentNode = AgentNode(
    id: string,
    host: string,
    port: int,
    status: string,
    lastHeartbeat: Option<int>,
    capabilities: NodeCapabilities,
    computeResources: ComputeResources,
    supportedModels: seq<string>,
    maxConcurrentTasks: int,
    currentTasks: int)

  // ---------------------------------------------------------------------------
  // Defaults of the pydantic models.

  function DefaultRequirements(): (r: TaskRequirements)
  {
    TaskRequirements(false, 1.0, 0.0, None, [], 300)
  }

  function DefaultCapabilities(): NodeCapabilities
  {
    NodeCapabilities(true, true, false, false, false)
  }

  /** `InferenceTask(id=..., input=...)`: `created_at` is the single timestamp taken
      when the module was imported, shared by every task built with the default. */
  function NewInferenceTask(id: string, input: string, importTime: int): (t: InferenceTask)
  {
    InferenceTask(id, "auto", input, "text-generation", DefaultRequirements(), Normal,
                  Pending, importTime, None, None, None, None, None)
  }

  /** `AgentNode(id=..., host=..., port=..., compute_resources=...)`. */
  function NewAgentNode(id: string, host: string, port: int, resources: ComputeResources): (n: AgentNode)
  {
    AgentNode(id, host, port, "active", None, DefaultCapabilities(), resources, [], 5, 0)
  }

  /** A task built with the defaults is pending, unassigned, of normal priority, for
      the "auto" model, with no GPU and 1 GB of RAM required; two such tasks built in
      the same process carry the same creation time. */
  lemma DefaultTaskShape(id1: string, id2: string, input1: string, input2: string, importTime: int)
    ensures var t1 := NewInferenceTask(id1, input1, importTime);
            var t2 := NewInferenceTask(id2, input2, importTime);
            && t1.status == Pending && t1.assignedNode.None? && t1.model == "auto"
            && t1.priority == Normal && !t1.requirements.requiresGpu
            && t1.requirements.minRamGb == 1.0 && t1.requirements.minGpuMemoryGb == 0.0
            && t1.requirements.minComputeCapability.None? && t1.requirements.preferredModels == []
            && t1.requirements.maxDurationSeconds == 300
            && t1.createdAt == t2.createdAt
  {
  }

  /** A freshly built node has room for five tasks and holds none. */
  lemma DefaultNodeHasCapacity(id: string, host: string, port: int, resources: ComputeResources)
    ensures var n := NewAgentNode(id, host, port, resources);
            n.currentTasks == 0 && n.maxConcurrentTasks == 5 && n.currentTasks < n.maxConcurrentTasks
  {
  }

  // ---------------------------------------------------------------------------
  // Searches over `gpu_info["devices"]`, shared by the requirement filters.

  /** total - allocated of one device. */
  function FreeMemory(d: GpuDevice): real
  {
    d.memoryTotalGb - d.memoryAllocatedGb
  }

  ghost predicate SomeDeviceHasFreeMemory(devices: seq<GpuDevice>, need: real)
  {
    exists i :: 0 <= i < |devices| && FreeMemory(devices[i]) >= need
  }

  /** `float(capability) >= float(minimum)`; a string that does not parse raises
      ValueError, which the filters catch and treat as "this device does not qualify". */
  predicate CapabilityMeets(capability: string, minimum: string)
  {
    var c := ParseReal(capability);
    var m := ParseReal(minimum);
    c.Some? && m.Some? && c.value >= m.value
  }

  /** Some device of `devices` meets the minimum (stated over the prefix so that each
      step of the search looks at one more device). */
  predicate SomeDeviceHasCapability(devices: seq<GpuDevice>, minimum: string)
  {
    |devices| > 0
    && (SomeDeviceHasCapability(devices[..|devices| - 1], minimum)
        || CapabilityMeets(devices[|devices| - 1].computeCapability, minimum))
  }

  /** A device that meets the minimum is found by the recursive statement. */
  lemma CapableDeviceFound(devices: seq<GpuDevice>, minimum: string, i: nat)
    requires i < |devices| && CapabilityMeets(devices[i].computeCapability, minimum)
    ensures SomeDeviceHasCapability(devices, minimum)
  {
    var prefix := devices[..i + 1];
    assert prefix[|prefix| - 1] == devices[i];
    assert SomeDeviceHasCapability(prefix, minimum);
    FoundDeviceStays(devices, minimum, i + 1);
  }

  /** What the recursive statement finds is a device that meets the minimum. */
  lemma {:induction false} FoundDeviceIsCapable(devices: seq<GpuDevice>, minimum: string) returns (i: nat)
    requires SomeDeviceHasCapability(devices, minimum)
    ensures i < |devices| && CapabilityMeets(devices[i].computeCapability, minimum)
  {
    var init := devices[..|devices| - 1];
    if SomeDeviceHasCapability(init, minimum) {
      i := FoundDeviceIsCapable(init, minimum);
      assert init[i] == devices[i];
    } else {
      i := |devices| - 1;
    }
  }

  /** The `for device in gpu_devices: ... break` loop of the GPU-memory check. */
  method FindDeviceWithFreeMemory(devices: seq<GpuDevice>, need: real) returns (found: bool)
    ensures found <==> SomeDeviceHasFreeMemory(devices, need)
  {
    found := false;
    var i := 0;
    while i < |devices|
      invariant 0 <= i <= |devices|
      invariant forall j :: 0 <= j < i ==> FreeMemory(devices[j]) < need
    {
      if FreeMemory(devices[i]) >= need {
        found := true;
        return;
      }
      i := i + 1;
    }
  }

  /** The `try: float(...) >= float(...) except ValueError` test of one device. */
  method DeviceMeetsCapability(capability: string, minimum: string) returns (ok: bool)
    ensures ok == CapabilityMeets(capability, minimum)
  {
    var c := ParseReal(capability);
    var m := ParseReal(minimum);
    ok := c.Some? && m.Some? && c.value >= m.value;
  }

  /** The compute-capability loop: devices whose capability does not parse are skipped. */
  method FindDeviceWithCapability(devices: seq<GpuDevice>, minimum: string) returns (found: bool)
    ensures found <==> SomeDeviceHasCapability(devices, minimum)
  {
    found := false;
    var i := 0;
    while i < |devices|
      invariant 0 <= i <= |devices|
      invariant !SomeDeviceHasCapability(devices[..i], minimum)
    {
      var meets := DeviceMeetsCapability(devices[i].computeCapability, minimum);
      assert devices[..i + 1][..i] == devices[..i];
      if meets {
        FoundDeviceStays(devices, minimum, i + 1);
        found := true;
        return;
      }
      i := i + 1;
    }
    assert devices[..i] == devices;
  }

  /** A device found in a prefix is found in the whole list. */
  lemma {:induction false} FoundDeviceStays(devices: seq<GpuDevice>, minimum: string, n: nat)
    requires n <= |devices| && SomeDeviceHasCapability(devices[..n], minimum)
    ensures SomeDeviceHasCapability(devices, minimum)
    decreases |devices| - n
  {
    if n < |devices| {
      assert devices[..n + 1][..n] == devices[..n];
      FoundDeviceStays(devices, minimum, n + 1);
    } else {
      assert devices[..n] == devices;
    }
  }

  /** A device whose capability string cannot be read is skipped (it never qualifies,
      and the search goes on to the next device); a minimum that cannot be read makes
      every device fail, so the whole check fails. */
  lemma UnparseableCapabilitySkipped(devices: seq<GpuDevice>, minimum: string)
    ensures forall i :: 0 <= i < |devices| && ParseReal(devices[i].computeCapability).None?
              ==> !CapabilityMeets(devices[i].computeCapability, minimum)
    ensures ParseReal(minimum).None? ==> !SomeDeviceHasCapability(devices, minimum)
  {
    if ParseReal(minimum).None? && SomeDeviceHasCapability(devices, minimum) {
      var i := FoundDeviceIsCapable(devices, minimum);
      assert false;
    }
  }
}
