/** The agent's health monitor (agent/health_monitor.py): a bounded buffer of metric
    samples, a bounded history of finished tasks with its statistics, the overall
    status read off CPU and memory, and the GPU capability test.

    The clock, psutil's readings and the GPU device list are parameters. */
module HealthMonitoring {
  import opened Common

  const DefaultMaxSamples: int := 100
  const MaxHistory: int := 1000

  datatype MetricSample = MetricSample(timestamp: real, value: real, metricType: string)

  /** `lst[-max:]` when the list is longer than `max`: the most recent `max` items.
      A `max` of 0 keeps everything, since `lst[-0:]` is the whole list. */
  function Trimmed<T>(l: seq<T>, max: int): (r: seq<T>)
    ensures |r| <= |l| && r == l[|l| - |r|..]
    ensures max > 0 ==> |r| == MinInt(max, |l|)
    ensures max == 0 ==> r == l
  {
    if |l| > max then SliceFrom(l, -max) else l
  }

  class MetricsBuffer {
    var maxSamples: int
    var samples: map<string, seq<MetricSample>>

    ghost predicate Valid()
      reads this
    {
      maxSamples > 0 ==> forall t :: t in samples ==> |samples[t]| <= maxSamples
    }

    constructor (maxSamples: int)
      ensures Valid() && this.maxSamples == maxSamples && samples == map[]
    {
      this.maxSamples := maxSamples;
      samples := map[];
    }

    /** `get_metrics`: the samples of a type, none for a type never seen. */
    function GetMetrics(metricType: string): (r: seq<MetricSample>)
      reads this
      ensures metricType !in samples ==> r == []
      ensures metricType in samples ==> r == samples[metricType]
    {
      if metricType in samples then samples[metricType] else []
    }

    /** `add_sample`: append, then keep the most recent `max_samples`. */
    method AddSample(metricType: string, value: real, now: real)
      modifies this
      requires Valid()
      ensures Valid() && maxSamples == old(maxSamples)
      ensures samples == old(samples)[metricType := Trimmed(old(GetMetrics(metricType)) + [MetricSample(now, value, metricType)], maxSamples)]
    {
      var kept := GetMetrics(metricType) + [MetricSample(now, value, metricType)];
      if |kept| > maxSamples {
        kept := SliceFrom(kept, -maxSamples);
      }
      samples := samples[metricType := kept];
    }
  }

  /** After `add_sample` with a positive bound, the new sample is the last one kept,
      and what is kept is the most recent part of the old list followed by it. */
  lemma AddSampleKeepsNewest(old_: seq<MetricSample>, s: MetricSample, max: int)
    requires max > 0
    ensures var r := Trimmed(old_ + [s], max);
            && |r| > 0 && r[|r| - 1] == s
            && r[..|r| - 1] == old_[|old_| + 1 - |r|..]
            && |r| == MinInt(max, |old_| + 1)
  {
    var l := old_ + [s];
    var r := Trimmed(l, max);
    assert r == l[|l| - |r|..];
    assert r[..|r| - 1] == l[|l| - |r|..|l| - 1];
    assert l[..|l| - 1] == old_;
  }

  datatype TaskRecord = TaskRecord(taskId: string, status: string, duration: real, timestamp: int)

  function CountStatus(h: seq<TaskRecord>, status: string): (n: nat)
    ensures n <= |h|
  {
    if |h| == 0 then 0
    else CountStatus(h[..|h| - 1], status) + (if h[|h| - 1].status == status then 1 else 0)
  }

  function CompletedDurations(h: seq<TaskRecord>): (r: seq<real>)
    ensures |r| == CountStatus(h, "completed")
  {
    if |h| == 0 then []
    else CompletedDurations(h[..|h| - 1]) + (if h[|h| - 1].status == "completed" then [h[|h| - 1].duration] else [])
  }

  datatype TaskStats = TaskStats(total: nat, completed: nat, failed: nat, avgDuration: real, successRate: real)

  /** `_get_task_stats`. */
  function GetTaskStats(h: seq<TaskRecord>): TaskStats
  {
    if |h| == 0 then TaskStats(0, 0, 0, 0.0, 0.0)
    else
      var completed := CountStatus(h, "completed");
      var avg := if completed > 0 then SumReals(CompletedDurations(h)) / completed as real else 0.0;
      TaskStats(|h|, completed, CountStatus(h, "failed"), avg, Percent(completed, |h|))
  }

  /** `part / whole * 100`. */
  function Percent(part: nat, whole: nat): (r: real)
    requires whole > 0
    ensures part <= whole ==> 0.0 <= r <= 100.0
    ensures r * whole as real == 100.0 * part as real
  {
    var q := part as real / whole as real;
    assert q * whole as real == part as real;
    assert (1.0 - q) * whole as real == whole as real - part as real;
    q * 100.0
  }

  /** A record is completed or failed or neither, never both. */
  lemma {:induction false} CompletedAndFailedAtMostTotal(h: seq<TaskRecord>)
    ensures CountStatus(h, "completed") + CountStatus(h, "failed") <= |h|
  {
    if |h| > 0 {
      CompletedAndFailedAtMostTotal(h[..|h| - 1]);
    }
  }

  /** An empty history gives all zeros; otherwise completed and failed together are
      at most the total, and the average is over completed tasks only. */
  lemma TaskStatsCounts(h: seq<TaskRecord>)
    ensures |h| == 0 ==> GetTaskStats(h) == TaskStats(0, 0, 0, 0.0, 0.0)
    ensures GetTaskStats(h).completed + GetTaskStats(h).failed <= GetTaskStats(h).total == |h|
    ensures GetTaskStats(h).completed == CountStatus(h, "completed")
    ensures GetTaskStats(h).completed > 0 ==>
              GetTaskStats(h).avgDuration == SumReals(CompletedDurations(h)) / GetTaskStats(h).completed as real
    ensures GetTaskStats(h).completed == 0 ==> GetTaskStats(h).avgDuration == 0.0
  {
    CompletedAndFailedAtMostTotal(h);
  }

  /** The success rate is the completed share of all tasks in percent (see
      `Percent`), so between 0 and 100. */
  lemma TaskStatsRate(h: seq<TaskRecord>)
    ensures 0.0 <= GetTaskStats(h).successRate <= 100.0
    ensures |h| > 0 ==> GetTaskStats(h).successRate == Percent(CountStatus(h, "completed"), |h|)
  {
    if |h| > 0 {
      var c := CountStatus(h, "completed");
      assert c <= |h|;
      assert GetTaskStats(h).successRate == Percent(c, |h|);
    }
  }

  /** `_get_overall_status`, with None when psutil raised. */
  function OverallStatus(reading: Option<(real, real)>): (r: string)
    ensures reading.None? ==> r == "unknown"
    ensures reading.Some? ==>
              (r == "critical" <==> reading.value.0 > 90.0 || reading.value.1 > 90.0)
              && (r == "warning" <==> (reading.value.0 <= 90.0 && reading.value.1 <= 90.0
                                       && (reading.value.0 > 70.0 || reading.value.1 > 70.0)))
              && (r == "healthy" <==> reading.value.0 <= 70.0 && reading.value.1 <= 70.0)
  {
    match reading
    case None => "unknown"
    case Some((cpu, memory)) =>
      if cpu > 90.0 || memory > 90.0 then "critical"
      else if cpu > 70.0 || memory > 70.0 then "warning"
      else "healthy"
  }

  function Severity(status: string): int
  {
    if status == "critical" then 2 else if status == "warning" then 1 else 0
  }

  /** Higher readings never give a better status. */
  lemma OverallStatusMonotone(cpu: real, memory: real, cpu': real, memory': real)
    requires cpu <= cpu' && memory <= memory'
    ensures Severity(OverallStatus(Some((cpu, memory)))) <= Severity(OverallStatus(Some((cpu', memory'))))
  {
  }

  /** A GPU device as the detailed GPU report lists it; a missing field reads as
      0 GB and capability "0.0". */
  datatype Device = Device(memoryTotalGb: Option<real>, computeCapability: Option<string>)

  function MemoryOf(d: Device): real
  {
    if d.memoryTotalGb.Some? then d.memoryTotalGb.value else 0.0
  }

  function CapabilityOf(d: Device): string
  {
    if d.computeCapability.Some? then d.computeCapability.value else "0.0"
  }

  /** Enough memory, and both capabilities parse and compare; one that does not parse
      only skips the device. */
  predicate Qualifies(d: Device, minMemoryGb: real, minCapability: string)
  {
    && MemoryOf(d) >= minMemoryGb
    && ParseReal(CapabilityOf(d)).Some? && ParseReal(minCapability).Some?
    && ParseReal(CapabilityOf(d)).value >= ParseReal(minCapability).value
  }

  lemma ParsesSix()
    ensures ParseReal("6.0") == Some(6.0)
  {
    assert IndexOf("6.0", '.') == 1;
    assert "6.0"[..1] == "6" && "6.0"[2..] == "0";
  }

  lemma ParsesThreeFive()
    ensures ParseReal("3.5") == Some(3.5)
  {
    assert IndexOf("3.5", '.') == 1;
    assert "3.5"[..1] == "3" && "3.5"[2..] == "5";
    assert DigitsValue("5") == 5;
  }

  /** A device ready for ML work (6 GB, capability 6.0) is also GPU capable under
      the default minimums (4 GB, capability 3.5). */
  lemma MlReadyIsCapable(d: Device)
    requires Qualifies(d, 6.0, "6.0")
    ensures Qualifies(d, 4.0, "3.5")
  {
    ParsesSix();
    ParsesThreeFive();
  }

  /** Some device of the list qualifies, stated over its prefixes as the loop scans. */
  predicate SomeQualifies(devices: seq<Device>, minMemoryGb: real, minCapability: string)
  {
    |devices| > 0
    && (SomeQualifies(devices[..|devices| - 1], minMemoryGb, minCapability)
        || Qualifies(devices[|devices| - 1], minMemoryGb, minCapability))
  }

  /** A device found in a prefix is found in the whole list. */
  lemma {:induction false} QualifiedStays(devices: seq<Device>, minMemoryGb: real, minCapability: string, n: nat)
    requires n <= |devices| && SomeQualifies(devices[..n], minMemoryGb, minCapability)
    ensures SomeQualifies(devices, minMemoryGb, minCapability)
    decreases |devices| - n
  {
    if n < |devices| {
      assert devices[..n + 1][..n] == devices[..n];
      QualifiedStays(devices, minMemoryGb, minCapability, n + 1);
    } else {
      assert devices[..n] == devices;
    }
  }

  /** Any qualifying device is found... */
  lemma QualifiedFound(devices: seq<Device>, minMemoryGb: real, minCapability: string, i: nat)
    requires i < |devices| && Qualifies(devices[i], minMemoryGb, minCapability)
    ensures SomeQualifies(devices, minMemoryGb, minCapability)
  {
    var prefix := devices[..i + 1];
    assert prefix[|prefix| - 1] == devices[i];
    assert SomeQualifies(prefix, minMemoryGb, minCapability);
    QualifiedStays(devices, minMemoryGb, minCapability, i + 1);
  }

  /** ... and what is found is a qualifying device. */
  lemma {:induction false} FoundQualifies(devices: seq<Device>, minMemoryGb: real, minCapability: string) returns (i: nat)
    requires SomeQualifies(devices, minMemoryGb, minCapability)
    ensures i < |devices| && Qualifies(devices[i], minMemoryGb, minCapability)
  {
    var init := devices[..|devices| - 1];
    if SomeQualifies(init, minMemoryGb, minCapability) {
      i := FoundQualifies(init, minMemoryGb, minCapability);
      assert init[i] == devices[i];
    } else {
      i := |devices| - 1;
    }
  }

  /** The test of one device: enough memory, then both capabilities as floats. */
  method DeviceQualifies(d: Device, minMemoryGb: real, minCapability: string) returns (ok: bool)
    ensures ok == Qualifies(d, minMemoryGb, minCapability)
  {
    ok := false;
    if MemoryOf(d) >= minMemoryGb {
      var have := ParseReal(CapabilityOf(d));
      var need := ParseReal(minCapability);
      ok := have.Some? && need.Some? && have.value >= need.value;
    }
  }

  class HealthMonitor {
    var gpuEnabled: bool
    var buffer: MetricsBuffer
    var taskHistory: seq<TaskRecord>

    ghost predicate Valid()
      reads this
    {
      |taskHistory| <= MaxHistory
    }

    constructor (gpuEnabled: bool)
      ensures Valid() && this.gpuEnabled == gpuEnabled && taskHistory == []
      ensures fresh(buffer) && buffer.maxSamples == DefaultMaxSamples && buffer.samples == map[]
    {
      this.gpuEnabled := gpuEnabled;
      buffer := new MetricsBuffer(DefaultMaxSamples);
      taskHistory := [];
    }

    /** `record_task`: append, then keep the most recent thousand. */
    method RecordTask(taskId: string, status: string, duration: real, now: int)
      modifies this
      requires Valid()
      ensures Valid() && gpuEnabled == old(gpuEnabled) && buffer == old(buffer)
      ensures taskHistory == Trimmed(old(taskHistory) + [TaskRecord(taskId, status, duration, now)], MaxHistory)
    {
      taskHistory := taskHistory + [TaskRecord(taskId, status, duration, now)];
      if |taskHistory| > MaxHistory {
        taskHistory := taskHistory[|taskHistory| - MaxHistory..];
      }
    }

    /** `is_gpu_capable` over the devices the detailed GPU report lists: false without
        a GPU, otherwise whether some device qualifies. */
    method IsGpuCapable(devices: seq<Device>, minMemoryGb: real, minCapability: string) returns (r: bool)
      ensures r <==> gpuEnabled && SomeQualifies(devices, minMemoryGb, minCapability)
    {
      if !gpuEnabled {
        return false;
      }
      var i := 0;
      while i < |devices|
        invariant 0 <= i <= |devices|
        invariant !SomeQualifies(devices[..i], minMemoryGb, minCapability)
      {
        var ok := DeviceQualifies(devices[i], minMemoryGb, minCapability);
        assert devices[..i + 1][..i] == devices[..i];
        if ok {
          QualifiedStays(devices, minMemoryGb, minCapability, i + 1);
          return true;
        }
        i := i + 1;
      }
      assert devices[..i] == devices;
      return false;
    }
  }

  /** With a GPU, the check succeeds exactly when some listed device qualifies. */
  lemma GpuCapableIffSomeDevice(devices: seq<Device>, minMemoryGb: real, minCapability: string)
    ensures SomeQualifies(devices, minMemoryGb, minCapability) <==>
              exists i :: 0 <= i < |devices| && Qualifies(devices[i], minMemoryGb, minCapability)
  {
    if SomeQualifies(devices, minMemoryGb, minCapability) {
      var i := FoundQualifies(devices, minMemoryGb, minCapability);
    }
    if exists i :: 0 <= i < |devices| && Qualifies(devices[i], minMemoryGb, minCapability) {
      var i :| 0 <= i < |devices| && Qualifies(devices[i], minMemoryGb, minCapability);
      QualifiedFound(devices, minMemoryGb, minCapability, i);
    }
  }
}
