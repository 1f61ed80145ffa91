/** The model-aware scheduler (hub/services/model_aware_scheduler.py): every node
    that passes the basic resource check is scored on five components, the
    components are weighted by the scheduling strategy, and the best-scoring node is
    chosen and its affinity for the model counted up.

    The model registry the scorer consults is the parameter `catalog` (model id to
    the facts the scorer reads); nodes are identified by their `id`. */
module ModelAwareScheduling {
  import opened Common
  import opened SharedModels
  import GpuScheduling
  import TaskEndpoints

  const CacheTtl: int := 300

  datatype Strategy = RoundRobin | LeastLoaded | ModelAffinity | PerformanceBased | ResourceOptimized

  datatype Weights = Weights(compatibility: real, resources: real, performance: real,
                             load: real, affinity: real)

  /** `_get_strategy_weights`: every strategy's five weights are positive and add up
      to 1; the performance, resource and load strategies give their own component
      0.4, and the default (model affinity) weighs compatibility highest. */
  function StrategyWeights(s: Strategy): (w: Weights)
    ensures w.compatibility + w.resources + w.performance + w.load + w.affinity == 1.0
    ensures w.compatibility > 0.0 && w.resources > 0.0 && w.performance > 0.0
            && w.load > 0.0 && w.affinity > 0.0
    ensures s == PerformanceBased ==> w.performance == 0.4 && w.performance > w.compatibility
    ensures s == ResourceOptimized ==> w.resources == 0.4 && w.resources > w.compatibility
    ensures s == LeastLoaded ==> w.load == 0.4 && w.load > w.compatibility
    ensures s == ModelAffinity ==> w.compatibility == 0.3
    ensures s == ModelAffinity ==> w.compatibility >= w.resources && w.compatibility >= w.performance
                                   && w.compatibility >= w.load && w.compatibility >= w.affinity
  {
    match s
    case ModelAffinity => Weights(0.3, 0.2, 0.2, 0.1, 0.2)
    case PerformanceBased => Weights(0.2, 0.2, 0.4, 0.1, 0.1)
    case ResourceOptimized => Weights(0.2, 0.4, 0.1, 0.2, 0.1)
    case LeastLoaded => Weights(0.2, 0.2, 0.1, 0.4, 0.1)
    case RoundRobin => Weights(0.25, 0.25, 0.2, 0.2, 0.1)
  }

  /** What the scorer reads from a model's registry entry. */
  datatype ModelFacts = ModelFacts(gpuCompatible: bool, cpuCompatible: bool,
                                   ramRequiredGb: real, gpuMemoryRequiredGb: real)

  // ---------------------------------------------------------------------------
  // The five components.

  /** `_score_model_compatibility`. */
  ghost function ModelCompatibility(node: AgentNode, model: string, req: TaskRequirements,
                                    catalog: map<string, ModelFacts>): (c: real)
    ensures 0.0 <= c <= 1.0
    ensures model in node.supportedModels ==> c == 1.0
    ensures model !in node.supportedModels && model !in catalog ==> c == 0.5
  {
    if model in node.supportedModels then 1.0
    else if model !in catalog then 0.5
    else
      var f := catalog[model];
      var res := node.computeResources;
      var device := if f.gpuCompatible && res.hasGpu then 0.4
                    else if f.cpuCompatible && !req.requiresGpu then 0.3 else 0.0;
      var ram := if res.availableRamGb >= f.ramRequiredGb then 0.3 else 0.0;
      var gpuMemory := if f.gpuMemoryRequiredGb > 0.0 && res.hasGpu
                          && SomeDeviceHasFreeMemory(res.gpuInfo.devices, f.gpuMemoryRequiredGb)
                       then 0.3 else 0.0;
      MinReal(device + ram + gpuMemory, 1.0)
  }

  /** A registered model earns 0.4 for a GPU it can use (or 0.3 for a CPU it may run
      on), 0.3 for enough RAM and 0.3 for a device with enough free memory; the three
      together would exceed 1 and are capped there. */
  lemma CompatibilityParts(node: AgentNode, model: string, req: TaskRequirements,
                           catalog: map<string, ModelFacts>)
    requires model !in node.supportedModels && model in catalog
    ensures var f := catalog[model];
            var res := node.computeResources;
            && (f.gpuCompatible && res.hasGpu && res.availableRamGb >= f.ramRequiredGb
                && f.gpuMemoryRequiredGb > 0.0
                && SomeDeviceHasFreeMemory(res.gpuInfo.devices, f.gpuMemoryRequiredGb)
                ==> ModelCompatibility(node, model, req, catalog) == 1.0)
            && (!(f.gpuCompatible && res.hasGpu) && !(f.cpuCompatible && !req.requiresGpu)
                && res.availableRamGb < f.ramRequiredGb
                ==> ModelCompatibility(node, model, req, catalog) <= 0.3)
            && (!f.gpuCompatible && f.cpuCompatible && !req.requiresGpu
                && res.availableRamGb >= f.ramRequiredGb && !res.hasGpu
                ==> ModelCompatibility(node, model, req, catalog) == 0.6)
  {
  }

  function TotalGpuMemory(devices: seq<GpuDevice>): real
  {
    if |devices| == 0 then 0.0
    else TotalGpuMemory(devices[..|devices| - 1]) + devices[|devices| - 1].memoryTotalGb
  }

  function AllocatedGpuMemory(devices: seq<GpuDevice>): real
  {
    if |devices| == 0 then 0.0
    else AllocatedGpuMemory(devices[..|devices| - 1]) + devices[|devices| - 1].memoryAllocatedGb
  }

  /** Devices that have not allocated more than they have, in total neither. */
  lemma {:induction false} AllocatedWithinTotal(devices: seq<GpuDevice>)
    requires forall i :: 0 <= i < |devices| ==>
               0.0 <= devices[i].memoryAllocatedGb <= devices[i].memoryTotalGb
    ensures 0.0 <= AllocatedGpuMemory(devices) <= TotalGpuMemory(devices)
  {
    if |devices| > 0 {
      AllocatedWithinTotal(devices[..|devices| - 1]);
    }
  }

  /** `current / max(maximum, 1)`, as a real. */
  function LoadRatio(node: AgentNode): real
  {
    node.currentTasks as real / MaxInt(node.maxConcurrentTasks, 1) as real
  }

  /** `_score_resource_availability`: 0.4 x RAM share, 0.4 x free GPU share (0.5 on a
      node without GPU data) and 0.2 x free task slots. */
  function ResourceAvailability(node: AgentNode): real
  {
    var res := node.computeResources;
    var ramScore := MinReal(res.availableRamGb / MaxReal(res.totalRamGb, 1.0), 1.0);
    var devices := res.gpuInfo.devices;
    var total := TotalGpuMemory(devices);
    var gpuScore := if res.hasGpu && |devices| > 0 && total > 0.0
                    then MinReal((total - AllocatedGpuMemory(devices)) / total, 1.0)
                    else 0.5;
    ramScore * 0.4 + gpuScore * 0.4 + (1.0 - LoadRatio(node)) * 0.2
  }

  /** A node with free slots, RAM that is not negative and devices that have not
      allocated more than they have scores its resources within [0, 1]. */
  lemma ResourceAvailabilityBounded(node: AgentNode)
    requires 0 <= node.currentTasks < node.maxConcurrentTasks
    requires node.computeResources.availableRamGb >= 0.0
    requires forall i :: 0 <= i < |node.computeResources.gpuInfo.devices| ==>
               0.0 <= node.computeResources.gpuInfo.devices[i].memoryAllocatedGb
                   <= node.computeResources.gpuInfo.devices[i].memoryTotalGb
    ensures 0.0 <= ResourceAvailability(node) <= 1.0
  {
    var res := node.computeResources;
    var devices := res.gpuInfo.devices;
    AllocatedWithinTotal(devices);
    LoadBalanceInRange(node);
    QuotientBetween(res.availableRamGb, MaxReal(res.totalRamGb, 1.0), 0.0, res.availableRamGb);
    var total := TotalGpuMemory(devices);
    if res.hasGpu && |devices| > 0 && total > 0.0 {
      var free := total - AllocatedGpuMemory(devices);
      assert 0.0 <= free <= total;
      QuotientBetween(free, total, 0.0, 1.0);
    }
  }

  /** `_score_load_balance`. */
  function LoadBalance(node: AgentNode): real
  {
    1.0 - LoadRatio(node)
  }

  /** A node that passed the capacity check (with a count that is not negative) has a
      load-balance score in (0, 1]; an idle node scores 1. */
  lemma LoadBalanceInRange(node: AgentNode)
    requires 0 <= node.currentTasks < node.maxConcurrentTasks
    ensures 0.0 < LoadBalance(node) <= 1.0
    ensures node.currentTasks == 0 ==> LoadBalance(node) == 1.0
  {
    var m := node.maxConcurrentTasks as real;
    var c := node.currentTasks as real;
    assert MaxInt(node.maxConcurrentTasks, 1) == node.maxConcurrentTasks;
    assert c / m < 1.0 by {
      assert c / m * m == c;
    }
  }

  /** `_score_performance_history`: tokens per second over 10, capped at 1; 0.5 for a
      node without a (non-zero) record for the model. */
  function PerformanceScore(performance: map<string, map<string, real>>, nodeId: string,
                            model: string): (p: real)
    ensures p <= 1.0
    ensures !(model in performance && nodeId in performance[model]) ==> p == 0.5
    ensures model in performance && nodeId in performance[model] && performance[model][nodeId] > 0.0
            ==> 0.0 < p
  {
    if model in performance && nodeId in performance[model] && performance[model][nodeId] != 0.0
    then MinReal(performance[model][nodeId] / 10.0, 1.0)
    else 0.5
  }

  /** How often the node was chosen for the model (0 when never). */
  function UsageCount(affinity: map<string, map<string, int>>, nodeId: string, model: string): int
  {
    if nodeId in affinity && model in affinity[nodeId] then affinity[nodeId][model] else 0
  }

  /** `_score_model_affinity`: usage over 10, capped at 1; 0 with no usage. */
  function AffinityScore(affinity: map<string, map<string, int>>, nodeId: string, model: string): (a: real)
    ensures 0.0 <= a <= 1.0
    ensures UsageCount(affinity, nodeId, model) <= 0 <==> a == 0.0
    ensures UsageCount(affinity, nodeId, model) >= 10 ==> a == 1.0
  {
    var count := UsageCount(affinity, nodeId, model);
    if count > 0 then MinReal(count as real / 10.0, 1.0) else 0.0
  }

  // ---------------------------------------------------------------------------
  // The total.

  datatype Components = Components(compatibility: real, resources: real, performance: real,
                                   load: real, affinity: real)

  function WeightedTotal(w: Weights, c: Components): real
  {
    c.compatibility * w.compatibility + c.resources * w.resources + c.performance * w.performance
      + c.load * w.load + c.affinity * w.affinity
  }

  predicate InUnit(c: Components)
  {
    0.0 <= c.compatibility <= 1.0 && 0.0 <= c.resources <= 1.0
    && 0.0 <= c.performance <= 1.0 && 0.0 <= c.load <= 1.0 && 0.0 <= c.affinity <= 1.0
  }

  predicate NoLower(c: Components, c': Components)
  {
    c'.compatibility >= c.compatibility && c'.resources >= c.resources
    && c'.performance >= c.performance && c'.load >= c.load && c'.affinity >= c.affinity
  }

  lemma WeightedTotalWithin(s: Strategy, c: Components)
    requires InUnit(c)
    ensures 0.0 <= WeightedTotal(StrategyWeights(s), c) <= 1.0
  {
    match s
    case ModelAffinity => assert StrategyWeights(s) == Weights(0.3, 0.2, 0.2, 0.1, 0.2);
    case PerformanceBased => assert StrategyWeights(s) == Weights(0.2, 0.2, 0.4, 0.1, 0.1);
    case ResourceOptimized => assert StrategyWeights(s) == Weights(0.2, 0.4, 0.1, 0.2, 0.1);
    case LeastLoaded => assert StrategyWeights(s) == Weights(0.2, 0.2, 0.1, 0.4, 0.1);
    case RoundRobin => assert StrategyWeights(s) == Weights(0.25, 0.25, 0.2, 0.2, 0.1);
  }

  lemma WeightedTotalMonotone(s: Strategy, c: Components, c': Components)
    requires NoLower(c, c')
    ensures WeightedTotal(StrategyWeights(s), c) <= WeightedTotal(StrategyWeights(s), c')
  {
    match s
    case ModelAffinity => assert StrategyWeights(s) == Weights(0.3, 0.2, 0.2, 0.1, 0.2);
    case PerformanceBased => assert StrategyWeights(s) == Weights(0.2, 0.2, 0.4, 0.1, 0.1);
    case ResourceOptimized => assert StrategyWeights(s) == Weights(0.2, 0.4, 0.1, 0.2, 0.1);
    case LeastLoaded => assert StrategyWeights(s) == Weights(0.2, 0.2, 0.1, 0.4, 0.1);
    case RoundRobin => assert StrategyWeights(s) == Weights(0.25, 0.25, 0.2, 0.2, 0.1);
  }

  /** With non-negative weights adding up to 1, components in [0, 1] give a total
      in [0, 1], and raising one component never lowers the total. */
  lemma WeightedTotalBounded(s: Strategy, c: Components, c': Components)
    requires InUnit(c)
    ensures 0.0 <= WeightedTotal(StrategyWeights(s), c) <= 1.0
    ensures NoLower(c, c') ==> WeightedTotal(StrategyWeights(s), c') >= WeightedTotal(StrategyWeights(s), c)
  {
    WeightedTotalWithin(s, c);
    if NoLower(c, c') {
      WeightedTotalMonotone(s, c, c');
    }
  }

  /** `_score_node`: None for a node that fails the basic check, else the weighted
      total of its five components. */
  ghost function NodeTotal(s: Strategy, performance: map<string, map<string, real>>,
                           affinity: map<string, map<string, int>>, catalog: map<string, ModelFacts>,
                           node: AgentNode, model: string, req: TaskRequirements): (r: Option<real>)
    ensures r.Some? <==> TaskEndpoints.RouterMeets(node, req)
  {
    if !TaskEndpoints.RouterMeets(node, req) then None
    else Some(WeightedTotal(StrategyWeights(s), Components(
      ModelCompatibility(node, model, req, catalog), ResourceAvailability(node),
      PerformanceScore(performance, node.id, model), LoadBalance(node),
      AffinityScore(affinity, node.id, model))))
  }

  /** The scores of a well-formed node (counts and memory not negative, nothing
      over-allocated) that passes the basic check lie in [0, 1], with a performance
      record that is not negative. */
  lemma NodeTotalBounded(s: Strategy, performance: map<string, map<string, real>>,
                         affinity: map<string, map<string, int>>, catalog: map<string, ModelFacts>,
                         node: AgentNode, model: string, req: TaskRequirements)
    requires TaskEndpoints.RouterMeets(node, req)
    requires node.currentTasks >= 0 && node.computeResources.availableRamGb >= 0.0
    requires forall i :: 0 <= i < |node.computeResources.gpuInfo.devices| ==>
               0.0 <= node.computeResources.gpuInfo.devices[i].memoryAllocatedGb
                   <= node.computeResources.gpuInfo.devices[i].memoryTotalGb
    requires model in performance && node.id in performance[model] ==> performance[model][node.id] >= 0.0
    ensures var r := NodeTotal(s, performance, affinity, catalog, node, model, req);
            r.Some? && 0.0 <= r.value <= 1.0
  {
    ResourceAvailabilityBounded(node);
    LoadBalanceInRange(node);
    var c := Components(
      ModelCompatibility(node, model, req, catalog), ResourceAvailability(node),
      PerformanceScore(performance, node.id, model), LoadBalance(node),
      AffinityScore(affinity, node.id, model));
    WeightedTotalBounded(s, c, c);
  }

  /** `_calculate_model_compatibility`, with the device loop of its GPU-memory part. */
  method CompatibilityOf(node: AgentNode, model: string, req: TaskRequirements,
                         catalog: map<string, ModelFacts>) returns (c: real)
    ensures c == ModelCompatibility(node, model, req, catalog)
  {
    var res := node.computeResources;
    if model in node.supportedModels {
      return 1.0;
    } else if model !in catalog {
      return 0.5;
    }
    var f := catalog[model];
    var score := 0.0;
    if f.gpuCompatible && res.hasGpu {
      score := score + 0.4;
    } else if f.cpuCompatible && !req.requiresGpu {
      score := score + 0.3;
    }
    if res.availableRamGb >= f.ramRequiredGb {
      score := score + 0.3;
    }
    if f.gpuMemoryRequiredGb > 0.0 && res.hasGpu {
      var found := FindDeviceWithFreeMemory(res.gpuInfo.devices, f.gpuMemoryRequiredGb);
      if found {
        score := score + 0.3;
      }
    }
    c := MinReal(score, 1.0);
  }

  /** The scoring of one node. */
  method ScoreNode(s: Strategy, performance: map<string, map<string, real>>,
                   affinity: map<string, map<string, int>>, catalog: map<string, ModelFacts>,
                   node: AgentNode, model: string, req: TaskRequirements) returns (r: Option<real>)
    ensures r == NodeTotal(s, performance, affinity, catalog, node, model, req)
  {
    var ok := TaskEndpoints.RouterNodeMeetsRequirements(node, req);
    if !ok {
      return None;
    }
    var compatibility := CompatibilityOf(node, model, req, catalog);
    var c := Components(compatibility, ResourceAvailability(node),
                        PerformanceScore(performance, node.id, model), LoadBalance(node),
                        AffinityScore(affinity, node.id, model));
    return Some(WeightedTotal(StrategyWeights(s), c));
  }

  // ---------------------------------------------------------------------------
  // Choosing the best.

  /** Index `k` holds a score no other score exceeds, and every earlier score is
      strictly lower: the first entry of a stable sort by descending score. */
  ghost predicate IsBest(totals: seq<Option<real>>, k: nat)
  {
    && k < |totals| && totals[k].Some?
    && (forall j :: 0 <= j < |totals| && totals[j].Some? ==> totals[j].value <= totals[k].value)
    && (forall j :: 0 <= j < k && totals[j].Some? ==> totals[j].value < totals[k].value)
  }

  /** The best of the scored nodes, or None when none was scored. */
  method PickBest(totals: seq<Option<real>>) returns (k: Option<nat>)
    ensures k.None? <==> forall i :: 0 <= i < |totals| ==> totals[i].None?
    ensures k.Some? ==> IsBest(totals, k.value)
  {
    k := None;
    var i := 0;
    while i < |totals|
      invariant 0 <= i <= |totals|
      invariant k.None? <==> forall j :: 0 <= j < i ==> totals[j].None?
      invariant k.Some? ==> IsBest(totals[..i], k.value)
    {
      if totals[i].Some? && (k.None? || totals[i].value > totals[k.value].value) {
        k := Some(i);
      }
      i := i + 1;
    }
    assert totals[..i] == totals;
  }

  /** At most one index is best. */
  lemma BestUnique(totals: seq<Option<real>>, k: nat, k': nat)
    requires IsBest(totals, k) && IsBest(totals, k')
    ensures k == k'
  {
  }

  /** `node_model_affinity[node][model] += 1`, creating the entries as needed. */
  function Bump(affinity: map<string, map<string, int>>, nodeId: string, model: string)
    : (r: map<string, map<string, int>>)
    ensures r.Keys == affinity.Keys + {nodeId}
  {
    var inner := if nodeId in affinity then affinity[nodeId] else map[];
    affinity[nodeId := inner[model := UsageCount(affinity, nodeId, model) + 1]]
  }

  /** Choosing a node counts its use of the model up by one and no other count
      changes; its affinity score for the model never drops as a result and rises
      while the count is below 10. */
  lemma BumpEffects(affinity: map<string, map<string, int>>, nodeId: string, model: string)
    ensures UsageCount(Bump(affinity, nodeId, model), nodeId, model) == UsageCount(affinity, nodeId, model) + 1
    ensures forall n, m :: (n, m) != (nodeId, model) ==>
              UsageCount(Bump(affinity, nodeId, model), n, m) == UsageCount(affinity, n, m)
    ensures forall n :: n in affinity && n != nodeId ==> Bump(affinity, nodeId, model)[n] == affinity[n]
    ensures AffinityScore(Bump(affinity, nodeId, model), nodeId, model) >= AffinityScore(affinity, nodeId, model)
    ensures 0 <= UsageCount(affinity, nodeId, model) < 10 ==>
              AffinityScore(Bump(affinity, nodeId, model), nodeId, model) > AffinityScore(affinity, nodeId, model)
  {
  }

  /** The scores of all nodes, in registry order. */
  ghost function Totals(s: Strategy, performance: map<string, map<string, real>>,
                        affinity: map<string, map<string, int>>, catalog: map<string, ModelFacts>,
                        nodes: seq<AgentNode>, model: string, req: TaskRequirements): (r: seq<Option<real>>)
    ensures |r| == |nodes|
    ensures forall i :: 0 <= i < |nodes| ==> r[i] == NodeTotal(s, performance, affinity, catalog, nodes[i], model, req)
  {
    seq(|nodes|, i requires 0 <= i < |nodes| => NodeTotal(s, performance, affinity, catalog, nodes[i], model, req))
  }

  method ScoreAll(s: Strategy, performance: map<string, map<string, real>>,
                  affinity: map<string, map<string, int>>, catalog: map<string, ModelFacts>,
                  nodes: seq<AgentNode>, model: string, req: TaskRequirements) returns (totals: seq<Option<real>>)
    ensures totals == Totals(s, performance, affinity, catalog, nodes, model, req)
  {
    totals := [];
    var i := 0;
    while i < |nodes|
      invariant 0 <= i <= |nodes|
      invariant |totals| == i
      invariant forall j :: 0 <= j < i ==> totals[j] == NodeTotal(s, performance, affinity, catalog, nodes[j], model, req)
    {
      var r := ScoreNode(s, performance, affinity, catalog, nodes[i], model, req);
      totals := totals + [r];
      i := i + 1;
    }
  }

  class ModelAwareScheduler {
    var strategy: Strategy
    /** model id -> node id -> tokens per second. */
    var performance: map<string, map<string, real>>
    /** node id -> model id -> times chosen. */
    var affinity: map<string, map<string, int>>
    var lastCacheUpdate: int

    constructor (strategy: Strategy, now: int)
      ensures this.strategy == strategy && performance == map[] && affinity == map[]
      ensures lastCacheUpdate == now
    {
      this.strategy := strategy;
      performance := map[];
      affinity := map[];
      lastCacheUpdate := now;
    }

    /** `_update_performance_cache`: only the refresh time moves, once it is 5 minutes
        old. */
    method UpdatePerformanceCache(now: int)
      modifies this
      ensures lastCacheUpdate == if now - old(lastCacheUpdate) < CacheTtl then old(lastCacheUpdate) else now
      ensures strategy == old(strategy) && performance == old(performance) && affinity == old(affinity)
    {
      if now - lastCacheUpdate < CacheTtl {
        return;
      }
      lastCacheUpdate := now;
    }

    /** `find_best_node` over the active nodes in registry order: None when no node
        passes the basic check; otherwise the first node carrying the id of the best
        scored node (ties to the earliest), whose use of the model is then counted. */
    method FindBestNode(nodes: seq<AgentNode>, task: InferenceTask, req: TaskRequirements,
                        catalog: map<string, ModelFacts>, now: int) returns (r: Option<AgentNode>)
      modifies this
      ensures r.None? <==> forall i :: 0 <= i < |nodes| ==> !TaskEndpoints.RouterMeets(nodes[i], req)
      ensures r.Some? ==> exists k: nat :: IsBest(Totals(old(strategy), old(performance), old(affinity), catalog,
                                                    nodes, task.model, req), k)
                                      && r.value == nodes[GpuScheduling.FindNode(nodes, nodes[k].id).value]
      ensures affinity == if r.Some? then Bump(old(affinity), r.value.id, task.model) else old(affinity)
      ensures lastCacheUpdate == if |nodes| > 0 && now - old(lastCacheUpdate) >= CacheTtl then now
                                 else old(lastCacheUpdate)
      ensures strategy == old(strategy) && performance == old(performance)
    {
      if |nodes| == 0 {
        return None;
      }
      UpdatePerformanceCache(now);
      var totals := ScoreAll(strategy, performance, affinity, catalog, nodes, task.model, req);
      var k := PickBest(totals);
      if k.None? {
        return None;
      }
      var first := GpuScheduling.FindNode(nodes, nodes[k.value].id);
      r := Some(nodes[first.value]);
      affinity := Bump(affinity, nodes[k.value].id, task.model);
    }
  }
}
