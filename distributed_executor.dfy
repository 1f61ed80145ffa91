/** Distributed model execution (hub/services/distributed_executor.py): a model is
    cut into shards sized by the nodes available, the shards are placed on the
    best-resourced nodes, the input's tokens are split among the shards, and the
    shards' results are put back together in position order.

    The nodes the registry would offer are a parameter (the source asks a
    `Registry` class that the registry module does not define); scheduling a shard
    on its node and the execution metrics are not modelled. */
module DistributedExecution {
  import opened Common
  import HubModels

  type Node = HubModels.Node

  datatype ModelShard = ModelShard(
    shardId: string,
    modelName: string,
    shardSize: int,
    memoryRequired: int,
    gpuRequired: bool,
    nodeId: Option<string>,
    status: string)

  /** The keys `prepare_model_distribution` reads from the model configuration:
      `model_size` (default 0), `memory_per_shard` (default 4000 MB) and
      `gpu_required` (default true). */
  datatype ShardingConfig = ShardingConfig(modelSize: Option<int>, memoryPerShard: Option<int>, gpuRequired: Option<bool>)

  function OrElse<T>(o: Option<T>, default: T): T
  {
    if o.Some? then o.value else default
  }

  /** Python's `//`, which rounds toward minus infinity. */
  function FloorDiv(a: int, b: int): (q: int)
    requires b != 0
    ensures b > 0 ==> q * b <= a < q * b + b
    ensures b < 0 ==> q * b >= a > q * b + b
  {
    if b > 0 then a / b else (-a) / (-b)
  }

  /** `f"{model_name}_shard_{i}"`. */
  function ShardId(modelName: string, i: nat): string
  {
    modelName + "_shard_" + ShowNat(i)
  }

  /** Different positions give different shard ids. */
  lemma ShardIdInjective(modelName: string, i: nat, j: nat)
    requires ShardId(modelName, i) == ShardId(modelName, j)
    ensures i == j
  {
    var p := modelName + "_shard_";
    assert ShardId(modelName, i)[|p|..] == ShowNat(i);
    assert ShardId(modelName, j)[|p|..] == ShowNat(j);
    ParseShownNat(i);
    ParseShownNat(j);
  }

  /** The number of shards: one per `memory_per_shard` of the model, at least one,
      and no more than there are nodes. */
  function ShardCount(nodeCount: nat, totalSize: int, perShard: int): (k: int)
    requires perShard != 0
    ensures k == MinInt(nodeCount, MaxInt(1, FloorDiv(totalSize, perShard)))
    ensures nodeCount > 0 ==> 1 <= k <= nodeCount
  {
    MinInt(nodeCount, MaxInt(1, FloorDiv(totalSize, perShard)))
  }

  /** The shard at position `i` of `k`: an equal share of the model, unassigned. */
  function PreparedShard(modelName: string, totalSize: int, perShard: int, gpu: bool, k: int, i: nat): ModelShard
    requires k > 0
  {
    ModelShard(ShardId(modelName, i), modelName, FloorDiv(totalSize, k), perShard, gpu, None, "unassigned")
  }

  /** `prepare_model_distribution` as a value: it raises with no nodes to use, and
      (a `memory_per_shard` of 0) on a division by zero. */
  function PrepareSpec(modelName: string, config: ShardingConfig, nodeCount: nat): (r: Result<seq<ModelShard>>)
    ensures r.Err? <==> nodeCount == 0 || OrElse(config.memoryPerShard, 4000) == 0
    ensures r.Ok? ==>
              var per := OrElse(config.memoryPerShard, 4000);
              var k := ShardCount(nodeCount, OrElse(config.modelSize, 0), per);
              && |r.value| == k
              && forall i :: 0 <= i < k ==>
                   r.value[i] == PreparedShard(modelName, OrElse(config.modelSize, 0), per,
                                               OrElse(config.gpuRequired, true), k, i)
  {
    var per := OrElse(config.memoryPerShard, 4000);
    if nodeCount == 0 then Err("ValueError")
    else if per == 0 then Err("ZeroDivisionError")
    else
      var total := OrElse(config.modelSize, 0);
      var k := ShardCount(nodeCount, total, per);
      Ok(seq(k, i requires 0 <= i < k => PreparedShard(modelName, total, per, OrElse(config.gpuRequired, true), k, i)))
  }

  /** The prepared shards have distinct ids, split the model evenly (all of it but
      the remainder of the division), and fit the node count. */
  lemma PreparedShardsFacts(modelName: string, config: ShardingConfig, nodeCount: nat)
    requires PrepareSpec(modelName, config, nodeCount).Ok?
    ensures var shards := PrepareSpec(modelName, config, nodeCount).value;
            && 1 <= |shards| <= nodeCount
            && (forall i, j :: 0 <= i < j < |shards| ==> shards[i].shardId != shards[j].shardId)
            && (forall i :: 0 <= i < |shards| ==> shards[i].status == "unassigned" && shards[i].nodeId.None?)
            && (forall i :: 0 <= i < |shards| ==>
                  shards[i].shardSize * |shards| <= OrElse(config.modelSize, 0) < (shards[i].shardSize + 1) * |shards|)
  {
    var shards := PrepareSpec(modelName, config, nodeCount).value;
    forall i, j | 0 <= i < j < |shards| ensures shards[i].shardId != shards[j].shardId {
      if shards[i].shardId == shards[j].shardId {
        ShardIdInjective(modelName, i, j);
      }
    }
  }

  // ---------------------------------------------------------------------------
  // Ordering nodes by their resources.

  function GpuMemory(n: Node): int
  {
    if n.capabilities.Some? then n.capabilities.value.gpuMemoryMb else 0
  }

  function Memory(n: Node): int
  {
    if n.capabilities.Some? then n.capabilities.value.memoryMb else 0
  }

  /** `a`'s key (GPU memory, memory, minus load) is larger than `b`'s, compared
      as Python compares tuples. */
  predicate Outranks(a: Node, b: Node)
  {
    || GpuMemory(a) > GpuMemory(b)
    || (GpuMemory(a) == GpuMemory(b) && Memory(a) > Memory(b))
    || (GpuMemory(a) == GpuMemory(b) && Memory(a) == Memory(b) && -a.currentLoad > -b.currentLoad)
  }

  predicate ByResources(s: seq<Node>)
  {
    forall i, j :: 0 <= i < j < |s| ==> !Outranks(s[j], s[i])
  }

  lemma ConsByResources(h: Node, rest: seq<Node>)
    requires ByResources(rest)
    requires forall j :: 0 <= j < |rest| ==> !Outranks(rest[j], h)
    ensures ByResources([h] + rest)
  {
    var r := [h] + rest;
    assert forall i :: 0 < i < |r| ==> r[i] == rest[i - 1];
  }

  /** Insert before the first node `x` outranks: a node placed last goes after the
      ones with the same key, as a stable sort keeps it. */
  function InsertByResources(x: Node, s: seq<Node>): (r: seq<Node>)
    ensures |r| == |s| + 1
  {
    if |s| == 0 then [x]
    else if Outranks(x, s[0]) then [x] + s
    else [s[0]] + InsertByResources(x, s[1..])
  }

  lemma {:induction false} InsertByResourcesCounts(x: Node, s: seq<Node>)
    ensures multiset(InsertByResources(x, s)) == multiset(s) + multiset{x}
  {
    if |s| > 0 && !Outranks(x, s[0]) {
      InsertByResourcesCounts(x, s[1..]);
      assert s == [s[0]] + s[1..];
    }
  }

  lemma {:induction false} InsertByResourcesSorts(x: Node, s: seq<Node>)
    requires ByResources(s)
    ensures ByResources(InsertByResources(x, s))
  {
    if |s| > 0 && !Outranks(x, s[0]) {
      var tail := s[1..];
      InsertByResourcesSorts(x, tail);
      InsertByResourcesCounts(x, tail);
      var rest := InsertByResources(x, tail);
      forall j | 0 <= j < |rest| ensures !Outranks(rest[j], s[0]) {
        assert rest[j] in multiset(tail) + multiset{x};
        if rest[j] != x {
          var k :| 0 <= k < |tail| && tail[k] == rest[j];
          assert s[k + 1] == rest[j];
        }
      }
      ConsByResources(s[0], rest);
    } else if |s| > 0 {
      forall j | 0 <= j < |s| ensures !Outranks(s[j], x) {
        assert !Outranks(s[j], s[0]) || j == 0;
      }
      ConsByResources(x, s);
    }
  }

  /** `_sort_nodes_by_resources`: Python's stable `sorted(..., reverse=True)` on the
      key (GPU memory, memory, minus load), a missing capability counting as 0. */
  function SortByResources(s: seq<Node>): (r: seq<Node>)
    ensures |r| == |s|
  {
    if |s| == 0 then [] else InsertByResources(s[|s| - 1], SortByResources(s[..|s| - 1]))
  }

  lemma {:induction false} SortByResourcesOrders(s: seq<Node>)
    ensures ByResources(SortByResources(s))
  {
    if |s| > 0 {
      SortByResourcesOrders(s[..|s| - 1]);
      InsertByResourcesSorts(s[|s| - 1], SortByResources(s[..|s| - 1]));
    }
  }

  lemma {:induction false} SortByResourcesKeeps(s: seq<Node>)
    ensures multiset(SortByResources(s)) == multiset(s)
  {
    if |s| > 0 {
      SortByResourcesKeeps(s[..|s| - 1]);
      InsertByResourcesCounts(s[|s| - 1], SortByResources(s[..|s| - 1]));
      MultisetSnoc(s);
    }
  }

  /** A node's sort key (GPU memory, memory, load); `Outranks` reads nothing else. */
  function ResourceKey(n: Node): (int, int, real)
  {
    (GpuMemory(n), Memory(n), n.currentLoad)
  }

  /** The nodes of `s` whose sort key is `k`, in their order in `s`. */
  function WithResources(s: seq<Node>, k: (int, int, real)): (r: seq<Node>)
    ensures |r| <= |s|
    ensures forall j :: 0 <= j < |r| ==> ResourceKey(r[j]) == k
  {
    if |s| == 0 then []
    else (if ResourceKey(s[0]) == k then [s[0]] else []) + WithResources(s[1..], k)
  }

  lemma {:induction false} WithResourcesSnoc(s: seq<Node>, x: Node, k: (int, int, real))
    ensures WithResources(s + [x], k) == WithResources(s, k) + (if ResourceKey(x) == k then [x] else [])
  {
    if |s| > 0 {
      assert (s + [x])[1..] == s[1..] + [x];
      WithResourcesSnoc(s[1..], x, k);
    }
  }

  lemma {:induction false} WithResourcesNone(s: seq<Node>, k: (int, int, real))
    requires forall j :: 0 <= j < |s| ==> ResourceKey(s[j]) != k
    ensures WithResources(s, k) == []
  {
    if |s| > 0 {
      WithResourcesNone(s[1..], k);
    }
  }

  /** Inserting `x` into a best-first list puts it after every node with its key:
      for each key the nodes keep their order, `x` last among them. */
  lemma {:induction false} InsertByResourcesStable(x: Node, s: seq<Node>, k: (int, int, real))
    requires ByResources(s)
    ensures WithResources(InsertByResources(x, s), k)
              == WithResources(s, k) + (if ResourceKey(x) == k then [x] else [])
  {
    if |s| == 0 {
    } else if Outranks(x, s[0]) {
      if ResourceKey(x) == k {
        forall j | 0 <= j < |s| ensures ResourceKey(s[j]) != k {
          assert j == 0 || !Outranks(s[j], s[0]);
        }
        WithResourcesNone(s, k);
      }
      assert ([x] + s)[1..] == s;
    } else {
      var tail := s[1..];
      assert ByResources(tail) by {
        assert forall j :: 0 <= j < |tail| ==> tail[j] == s[j + 1];
      }
      InsertByResourcesStable(x, tail, k);
      var ins := InsertByResources(x, tail);
      var head := if ResourceKey(s[0]) == k then [s[0]] else [];
      assert InsertByResources(x, s) == [s[0]] + ins;
      assert ([s[0]] + ins)[1..] == ins;
      assert WithResources([s[0]] + ins, k) == head + WithResources(ins, k);
      assert WithResources(s, k) == head + WithResources(tail, k);
    }
  }

  /** `sorted(..., reverse=True)` is stable: nodes with equal keys keep the order
      they were given in. */
  lemma {:induction false} SortByResourcesStable(s: seq<Node>, k: (int, int, real))
    ensures WithResources(SortByResources(s), k) == WithResources(s, k)
  {
    if |s| > 0 {
      var init, last := s[..|s| - 1], s[|s| - 1];
      SortByResourcesStable(init, k);
      SortByResourcesOrders(init);
      InsertByResourcesStable(last, SortByResources(init), k);
      assert s == init + [last];
      WithResourcesSnoc(init, last, k);
    }
  }

  /** Best resources first, the same nodes as given, and nodes with equal keys in
      the order they were given. */
  lemma SortByResourcesSorts(s: seq<Node>)
    ensures ByResources(SortByResources(s))
    ensures multiset(SortByResources(s)) == multiset(s)
    ensures forall k :: WithResources(SortByResources(s), k) == WithResources(s, k)
  {
    SortByResourcesOrders(s);
    SortByResourcesKeeps(s);
    forall k ensures WithResources(SortByResources(s), k) == WithResources(s, k) {
      SortByResourcesStable(s, k);
    }
  }

  // ---------------------------------------------------------------------------
  // Placing the shards.

  /** An entry of the distribution plan: the node, the shard as it was before it
      was assigned, and the status "pending". */
  datatype Placement = Placement(nodeId: string, shard: ModelShard, status: string)

  /** The shard placed on a node: it records the node and is "assigned". */
  function Assigned(shard: ModelShard, node: Node): ModelShard
  {
    shard.(nodeId := Some(node.id), status := "assigned")
  }

  function ShardIds(shards: seq<ModelShard>): (ids: seq<string>)
    ensures |ids| == |shards| && forall i :: 0 <= i < |shards| ==> ids[i] == shards[i].shardId
  {
    seq(|shards|, i requires 0 <= i < |shards| => shards[i].shardId)
  }

  /** A dictionary filled by assigning `values[i]` to `keys[i]` for `i` below `m`,
      in order: a repeated key keeps the later value. */
  function Keyed<V>(keys: seq<string>, values: seq<V>, m: nat): map<string, V>
    requires m <= |keys| == |values|
  {
    if m == 0 then map[] else Keyed(keys, values, m - 1)[keys[m - 1] := values[m - 1]]
  }

  /** With distinct keys, every key below `m` maps to its own value. */
  lemma {:induction false} KeyedLookup<V>(keys: seq<string>, values: seq<V>, m: nat, i: nat)
    requires i < m <= |keys| == |values|
    requires Distinct(keys)
    ensures keys[i] in Keyed(keys, values, m) && Keyed(keys, values, m)[keys[i]] == values[i]
  {
    var d := Keyed(keys, values, m - 1);
    assert Keyed(keys, values, m) == d[keys[m - 1] := values[m - 1]];
    if i < m - 1 {
      KeyedLookup(keys, values, m - 1, i);
      assert keys[m - 1] != keys[i];
    }
  }

  /** The placements `distribute_model` plans: shard `i` on the `i`-th node. */
  function Placements(shards: seq<ModelShard>, nodes: seq<Node>): (r: seq<Placement>)
    requires |shards| <= |nodes|
    ensures |r| == |shards| && forall i :: 0 <= i < |shards| ==> r[i] == Placement(nodes[i].id, shards[i], "pending")
  {
    seq(|shards|, i requires 0 <= i < |shards| => Placement(nodes[i].id, shards[i], "pending"))
  }

  datatype Distribution = Distribution(plan: map<string, Placement>, shards: seq<ModelShard>)

  /** `distribute_model` as a value: it raises for no shards (the first shard is
      read) and for fewer nodes than shards; otherwise the shards, in order, go to
      the nodes in resource order. */
  function DistributeSpec(shards: seq<ModelShard>, nodes: seq<Node>): (r: Result<Distribution>)
    ensures r.Err? <==> |shards| == 0 || |nodes| < |shards|
  {
    if |shards| == 0 then Err("IndexError")
    else if |nodes| < |shards| then Err("ValueError")
    else
      var sorted := SortByResources(nodes);
      Ok(Distribution(Keyed(ShardIds(shards), Placements(shards, sorted), |shards|), seq(|shards|, i requires 0 <= i < |shards| => Assigned(shards[i], sorted[i]))))
  }

  /** On success every shard is assigned to the node of its rank in resource
      order, and the plan sends each shard (with distinct ids) to that node. */
  lemma DistributeAssigns(shards: seq<ModelShard>, nodes: seq<Node>)
    requires DistributeSpec(shards, nodes).Ok?
    requires Distinct(ShardIds(shards))
    ensures var d := DistributeSpec(shards, nodes).value;
            var sorted := SortByResources(nodes);
            && |d.shards| == |shards|
            && ByResources(sorted) && multiset(sorted) == multiset(nodes)
            && (forall i :: 0 <= i < |shards| ==>
                  && d.shards[i].nodeId == Some(sorted[i].id) && d.shards[i].status == "assigned"
                  && d.shards[i].(nodeId := shards[i].nodeId, status := shards[i].status) == shards[i]
                  && shards[i].shardId in d.plan
                  && d.plan[shards[i].shardId] == Placement(sorted[i].id, shards[i], "pending"))
  {
    SortByResourcesSorts(nodes);
    var sorted := SortByResources(nodes);
    var ids, placements := ShardIds(shards), Placements(shards, sorted);
    assert DistributeSpec(shards, nodes).value.plan == Keyed(ids, placements, |shards|);
    forall i | 0 <= i < |shards|
      ensures shards[i].shardId in Keyed(ids, placements, |shards|)
      ensures Keyed(ids, placements, |shards|)[shards[i].shardId] == Placement(sorted[i].id, shards[i], "pending")
    {
      KeyedLookup(ids, placements, |shards|, i);
    }
  }

  // ---------------------------------------------------------------------------
  // The execution plan.

  /** Python's `s[a:b]` for non-negative bounds. */
  function Slice<T>(s: seq<T>, a: nat, b: nat): (r: seq<T>)
    ensures r == s[MinInt(a, |s|)..MaxInt(MinInt(a, |s|), MinInt(b, |s|))]
  {
    var lo := MinInt(a, |s|);
    var hi := MinInt(b, |s|);
    if lo < hi then s[lo..hi] else []
  }

  /** `tokens_per_shard`. */
  function PerShard(tokenCount: nat, k: nat): (t: nat)
    requires k > 0
    ensures t >= 1
  {
    MaxInt(1, tokenCount / k)
  }

  /** `i * tokens_per_shard`, the index where the run of position `i` starts,
      as `i` runs of `t`. */
  function Offset(i: nat, t: nat): nat
  {
    if i == 0 then 0 else Offset(i - 1, t) + t
  }

  lemma {:induction false} OffsetIsProduct(i: nat, t: nat)
    ensures Offset(i, t) == i * t
  {
    if i > 0 {
      OffsetIsProduct(i - 1, t);
      assert (i - 1) * t + t == i * t;
    }
  }

  /** `i * t`, which is where run `i` starts. */
  function StartOf(i: nat, t: nat): (start: nat)
    ensures start == Offset(i, t)
  {
    OffsetIsProduct(i, t);
    i * t
  }

  /** The run of position `i` of `k` when runs are `t` long: the last position
      takes everything that is left. */
  function Run(tokens: seq<string>, t: nat, k: nat, i: nat): (r: seq<string>)
    requires i < k
    ensures forall w :: w in r ==> w in tokens
  {
    var lo := Offset(i, t);
    if i < k - 1 then Slice(tokens, lo, lo + t) else Slice(tokens, lo, |tokens|)
  }

  /** The tokens of the shard at position `i` of `k`. */
  function Segment(tokens: seq<string>, k: nat, i: nat): (r: seq<string>)
    requires i < k
    ensures forall w :: w in r ==> w in tokens
  {
    Run(tokens, PerShard(|tokens|, k), k, i)
  }

  /** The runs of positions below `m`, joined. */
  function Runs(tokens: seq<string>, t: nat, k: nat, m: nat): seq<string>
    requires m <= k
  {
    if m == 0 then [] else Runs(tokens, t, k, m - 1) + Run(tokens, t, k, m - 1)
  }

  /** The segments of positions below `m`, joined. */
  function Segments(tokens: seq<string>, k: nat, m: nat): seq<string>
    requires 0 < k && m <= k
  {
    Runs(tokens, PerShard(|tokens|, k), k, m)
  }

  /** The first `m` runs are the tokens up to the `m`-th offset... */
  lemma {:induction false} RunsPrefix(tokens: seq<string>, t: nat, k: nat, m: nat)
    requires m < k
    ensures Runs(tokens, t, k, m) == tokens[..MinInt(Offset(m, t), |tokens|)]
  {
    if m > 0 {
      var a := MinInt(Offset(m - 1, t), |tokens|);
      var b := MinInt(Offset(m, t), |tokens|);
      RunsPrefix(tokens, t, k, m - 1);
      assert Run(tokens, t, k, m - 1) == tokens[a..b];
      PrefixJoin(tokens, a, b);
    }
  }

  /** ...and all `k` of them give back exactly the tokens, in order. */
  lemma SegmentsCover(tokens: seq<string>, k: nat)
    requires k > 0
    ensures Segments(tokens, k, k) == tokens
  {
    var t := PerShard(|tokens|, k);
    var a := MinInt(Offset(k - 1, t), |tokens|);
    RunsPrefix(tokens, t, k, k - 1);
    assert Run(tokens, t, k, k - 1) == tokens[a..];
    PrefixRest(tokens, a);
  }

  datatype PlanEntry = PlanEntry(inputSegment: string, position: nat, totalShards: nat, parameters: map<string, string>)

  /** The plan entry of position `i`. */
  function EntryAt(tokens: seq<string>, k: nat, i: nat, parameters: map<string, string>): PlanEntry
    requires i < k
  {
    PlanEntry(JoinWords(Segment(tokens, k, i)), i, k, parameters)
  }

  /** The entries of the `k` positions. */
  function Entries(tokens: seq<string>, k: nat, parameters: map<string, string>): (r: seq<PlanEntry>)
    ensures |r| == k && forall i :: 0 <= i < k ==> r[i] == EntryAt(tokens, k, i, parameters)
  {
    seq(k, i requires 0 <= i < k => EntryAt(tokens, k, i, parameters))
  }

  /** The plan for the first `m` shards, filled in position order. */
  function ExecutionPlanOf(shards: seq<ModelShard>, tokens: seq<string>, m: nat, parameters: map<string, string>)
    : map<string, PlanEntry>
    requires m <= |shards|
  {
    if m == 0 then map[]
    else ExecutionPlanOf(shards, tokens, m - 1, parameters)[shards[m - 1].shardId := EntryAt(tokens, |shards|, m - 1, parameters)]
  }

  /** It is the dictionary of the shard ids and their entries. */
  lemma {:induction false} ExecutionPlanIsKeyed(shards: seq<ModelShard>, tokens: seq<string>, m: nat,
                                                parameters: map<string, string>)
    requires m <= |shards|
    ensures ExecutionPlanOf(shards, tokens, m, parameters) == Keyed(ShardIds(shards), Entries(tokens, |shards|, parameters), m)
  {
    if m > 0 {
      ExecutionPlanIsKeyed(shards, tokens, m - 1, parameters);
    }
  }

  /** `_create_execution_plan`: the input is split into words, which are dealt out
      to the shards in runs; it divides by zero for no shards. */
  method CreateExecutionPlan(shards: seq<ModelShard>, inputText: string, parameters: map<string, string>)
    returns (r: Result<map<string, PlanEntry>>)
    ensures r.Err? <==> |shards| == 0
    ensures r.Ok? ==> r.value == ExecutionPlanOf(shards, Words(inputText), |shards|, parameters)
  {
    if |shards| == 0 {
      return Err("ZeroDivisionError");
    }
    var tokens := Words(inputText);
    var t := PerShard(|tokens|, |shards|);
    var plan := map[];
    var i := 0;
    while i < |shards|
      invariant 0 <= i <= |shards|
      invariant plan == ExecutionPlanOf(shards, tokens, i, parameters)
    {
      var start := StartOf(i, t);
      var segment := if i < |shards| - 1 then Slice(tokens, start, start + t) else Slice(tokens, start, |tokens|);
      PlanStep(shards, tokens, i, t, parameters);
      assert segment == Run(tokens, t, |shards|, i);
      plan := plan[shards[i].shardId := PlanEntry(JoinWords(segment), i, |shards|, parameters)];
      i := i + 1;
    }
    return Ok(plan);
  }

  /** One round of the loop: position `i`'s run starts at `i * t`. */
  lemma PlanStep(shards: seq<ModelShard>, tokens: seq<string>, i: nat, t: nat, parameters: map<string, string>)
    requires i < |shards| && t == PerShard(|tokens|, |shards|)
    ensures ExecutionPlanOf(shards, tokens, i + 1, parameters)
              == ExecutionPlanOf(shards, tokens, i, parameters)[shards[i].shardId := PlanEntry(JoinWords(Run(tokens, t, |shards|, i)), i, |shards|, parameters)]
  {
  }

  /** A segment's text, split again, gives back its run of words. */
  lemma SegmentRoundTrip(tokens: seq<string>, k: nat, i: nat)
    requires i < k
    requires forall w :: w in tokens ==> |w| > 0 && NoSpace(w)
    ensures Words(JoinWords(Segment(tokens, k, i))) == Segment(tokens, k, i)
  {
    var seg := Segment(tokens, k, i);
    assert forall j :: 0 <= j < |seg| ==> seg[j] in tokens;
    WordsOfJoin(seg);
  }

  /** With distinct shard ids, the entry of shard `i` has position `i`, the shard
      count, and a segment whose words are shard `i`'s run of the input's words. */
  lemma {:induction false} ExecutionPlanEntry(shards: seq<ModelShard>, inputText: string, parameters: map<string, string>, i: nat)
    requires i < |shards|
    requires Distinct(ShardIds(shards))
    ensures var plan := ExecutionPlanOf(shards, Words(inputText), |shards|, parameters);
            && shards[i].shardId in plan
            && plan[shards[i].shardId].position == i
            && plan[shards[i].shardId].totalShards == |shards|
            && plan[shards[i].shardId].parameters == parameters
            && Words(plan[shards[i].shardId].inputSegment) == Segment(Words(inputText), |shards|, i)
  {
    var tokens := Words(inputText);
    ExecutionPlanIsKeyed(shards, tokens, |shards|, parameters);
    KeyedLookup(ShardIds(shards), Entries(tokens, |shards|, parameters), |shards|, i);
    SegmentRoundTrip(tokens, |shards|, i);
  }

  // ---------------------------------------------------------------------------
  // Running a shard.

  /** The checks of `_execute_shard` before it schedules anything: the shard must be
      assigned (a non-empty node id) to a node the registry knows. */
  function ShardTarget(shard: ModelShard, nodes: map<string, Node>): (r: Result<Node>)
    ensures r.Ok? <==> shard.nodeId.Some? && shard.nodeId.value != "" && shard.nodeId.value in nodes
    ensures r.Ok? ==> r.value == nodes[shard.nodeId.value]
  {
    if shard.nodeId.None? || shard.nodeId.value == "" then Err("ValueError: not assigned")
    else if shard.nodeId.value !in nodes then Err("ValueError: node not found")
    else Ok(nodes[shard.nodeId.value])
  }

  /** A distributed shard passes the checks exactly when its node is known. */
  lemma AssignedShardTarget(shard: ModelShard, node: Node, nodes: map<string, Node>)
    requires node.id != ""
    ensures ShardTarget(Assigned(shard, node), nodes).Ok? <==> node.id in nodes
  {
  }

  // ---------------------------------------------------------------------------
  // Combining the results.

  /** A shard's result; every key may be missing. */
  datatype ShardResult = ShardResult(
    position: Option<int>,
    output: Option<string>,
    outputTokens: Option<int>,
    memoryUsed: Option<real>,
    executionTime: Option<real>)

  function Position(r: ShardResult): int { OrElse(r.position, 0) }
  function Output(r: ShardResult): string { OrElse(r.output, "") }
  function Tokens(r: ShardResult): int { OrElse(r.outputTokens, 0) }
  function MemoryUsed(r: ShardResult): real { OrElse(r.memoryUsed, 0.0) }
  function ExecutionTime(r: ShardResult): real { OrElse(r.executionTime, 0.0) }

  predicate ByPosition(s: seq<ShardResult>)
  {
    forall i, j :: 0 <= i < j < |s| ==> Position(s[i]) <= Position(s[j])
  }

  /** Insert after every result at the same or an earlier position (stable). */
  function InsertByPosition(x: ShardResult, s: seq<ShardResult>): (r: seq<ShardResult>)
    ensures |r| == |s| + 1
  {
    if |s| == 0 then [x]
    else if Position(x) < Position(s[0]) then [x] + s
    else [s[0]] + InsertByPosition(x, s[1..])
  }

  lemma {:induction false} InsertByPositionCounts(x: ShardResult, s: seq<ShardResult>)
    ensures multiset(InsertByPosition(x, s)) == multiset(s) + multiset{x}
  {
    if |s| > 0 && Position(x) >= Position(s[0]) {
      InsertByPositionCounts(x, s[1..]);
      assert s == [s[0]] + s[1..];
    }
  }

  lemma {:induction false} InsertByPositionSorts(x: ShardResult, s: seq<ShardResult>)
    requires ByPosition(s)
    ensures ByPosition(InsertByPosition(x, s))
  {
    if |s| > 0 && Position(x) >= Position(s[0]) {
      var tail := s[1..];
      InsertByPositionSorts(x, tail);
      InsertByPositionCounts(x, tail);
      var rest := InsertByPosition(x, tail);
      forall j | 0 <= j < |rest| ensures Position(s[0]) <= Position(rest[j]) {
        assert rest[j] in multiset(tail) + multiset{x};
        if rest[j] != x {
          var k :| 0 <= k < |tail| && tail[k] == rest[j];
          assert s[k + 1] == rest[j];
        }
      }
      var r := [s[0]] + rest;
      assert forall i :: 0 < i < |r| ==> r[i] == rest[i - 1];
    } else if |s| > 0 {
      var r := [x] + s;
      assert forall i :: 0 < i < |r| ==> r[i] == s[i - 1];
    }
  }

  /** `sorted(results, key=position)`, stable, a missing position counting as 0. */
  function SortByPosition(s: seq<ShardResult>): (r: seq<ShardResult>)
    ensures |r| == |s|
  {
    if |s| == 0 then [] else InsertByPosition(s[|s| - 1], SortByPosition(s[..|s| - 1]))
  }

  /** `sorted` orders by position, keeps the results, and is stable: results
      reporting the same position (or none, counted as 0) keep the order they came
      in, and so does their output in the join. */
  lemma {:induction false} SortByPositionSorts(s: seq<ShardResult>)
    ensures ByPosition(SortByPosition(s))
    ensures multiset(SortByPosition(s)) == multiset(s)
    ensures forall p :: AtPosition(SortByPosition(s), p) == AtPosition(s, p)
  {
    if |s| > 0 {
      var init, last := s[..|s| - 1], s[|s| - 1];
      SortByPositionSorts(init);
      InsertByPositionSorts(last, SortByPosition(init));
      InsertByPositionCounts(last, SortByPosition(init));
      assert s == init + [last];
      forall p ensures AtPosition(SortByPosition(s), p) == AtPosition(s, p) {
        InsertByPositionStable(last, SortByPosition(init), p);
        AtPositionSnoc(init, last, p);
      }
    }
  }

  /** The results of `s` at position `p`, in their order in `s`. */
  function AtPosition(s: seq<ShardResult>, p: int): (r: seq<ShardResult>)
    ensures |r| <= |s|
    ensures forall j :: 0 <= j < |r| ==> Position(r[j]) == p
  {
    if |s| == 0 then []
    else (if Position(s[0]) == p then [s[0]] else []) + AtPosition(s[1..], p)
  }

  lemma {:induction false} AtPositionSnoc(s: seq<ShardResult>, x: ShardResult, p: int)
    ensures AtPosition(s + [x], p) == AtPosition(s, p) + (if Position(x) == p then [x] else [])
  {
    if |s| > 0 {
      assert (s + [x])[1..] == s[1..] + [x];
      AtPositionSnoc(s[1..], x, p);
    }
  }

  lemma {:induction false} AtPositionNone(s: seq<ShardResult>, p: int)
    requires forall j :: 0 <= j < |s| ==> Position(s[j]) != p
    ensures AtPosition(s, p) == []
  {
    if |s| > 0 {
      AtPositionNone(s[1..], p);
    }
  }

  /** Inserting `x` into a position-ordered list puts it after every result at its
      position. */
  lemma {:induction false} InsertByPositionStable(x: ShardResult, s: seq<ShardResult>, p: int)
    requires ByPosition(s)
    ensures AtPosition(InsertByPosition(x, s), p) == AtPosition(s, p) + (if Position(x) == p then [x] else [])
  {
    if |s| == 0 {
    } else if Position(x) < Position(s[0]) {
      if Position(x) == p {
        AtPositionNone(s, p);
      }
      assert ([x] + s)[1..] == s;
    } else {
      var tail := s[1..];
      assert ByPosition(tail) by {
        assert forall j :: 0 <= j < |tail| ==> tail[j] == s[j + 1];
      }
      InsertByPositionStable(x, tail, p);
      var ins := InsertByPosition(x, tail);
      var head := if Position(s[0]) == p then [s[0]] else [];
      assert InsertByPosition(x, s) == [s[0]] + ins;
      assert ([s[0]] + ins)[1..] == ins;
      assert AtPosition([s[0]] + ins, p) == head + AtPosition(ins, p);
      assert AtPosition(s, p) == head + AtPosition(tail, p);
    }
  }

  function ConcatOutputs(s: seq<ShardResult>): string
  {
    if |s| == 0 then "" else ConcatOutputs(s[..|s| - 1]) + Output(s[|s| - 1])
  }

  function SumTokens(s: seq<ShardResult>): int
  {
    if |s| == 0 then 0 else SumTokens(s[..|s| - 1]) + Tokens(s[|s| - 1])
  }

  /** The running `max` from 0 of the memory used. */
  function MaxMemory(s: seq<ShardResult>): (m: real)
    ensures m >= 0.0
    ensures forall i :: 0 <= i < |s| ==> MemoryUsed(s[i]) <= m
    ensures m == 0.0 || exists i :: 0 <= i < |s| && MemoryUsed(s[i]) == m
  {
    if |s| == 0 then 0.0
    else
      var init := s[..|s| - 1];
      var m := MaxReal(MaxMemory(init), MemoryUsed(s[|s| - 1]));
      assert forall i :: 0 <= i < |init| ==> s[i] == init[i];
      m
  }

  /** The running `max` from 0 of the execution times. */
  function MaxTime(s: seq<ShardResult>): (m: real)
    ensures m >= 0.0
    ensures forall i :: 0 <= i < |s| ==> ExecutionTime(s[i]) <= m
    ensures m == 0.0 || exists i :: 0 <= i < |s| && ExecutionTime(s[i]) == m
  {
    if |s| == 0 then 0.0
    else
      var init := s[..|s| - 1];
      var m := MaxReal(MaxTime(init), ExecutionTime(s[|s| - 1]));
      assert forall i :: 0 <= i < |init| ==> s[i] == init[i];
      m
  }

  datatype Combined = Combined(output: string, totalTokens: int, maxMemoryUsed: real, totalExecutionTime: real)

  /** `_combine_shard_results`: the outputs joined in position order and stripped,
      the output tokens summed, the largest memory use and the longest time. */
  method CombineShardResults(results: seq<ShardResult>) returns (c: Combined)
    ensures var sorted := SortByPosition(results);
            c == Combined(Strip(ConcatOutputs(sorted)), SumTokens(sorted), MaxMemory(sorted), MaxTime(sorted))
  {
    var sorted := SortByPosition(results);
    var output := "";
    var tokens := 0;
    var memory := 0.0;
    var time := 0.0;
    var i := 0;
    while i < |sorted|
      invariant 0 <= i <= |sorted|
      invariant output == ConcatOutputs(sorted[..i]) && tokens == SumTokens(sorted[..i])
      invariant memory == MaxMemory(sorted[..i]) && time == MaxTime(sorted[..i])
    {
      var r := sorted[i];
      assert sorted[..i + 1][..i] == sorted[..i];
      output := output + Output(r);
      tokens := tokens + Tokens(r);
      memory := MaxReal(memory, MemoryUsed(r));
      time := MaxReal(time, ExecutionTime(r));
      i := i + 1;
    }
    assert sorted[..i] == sorted;
    return Combined(Strip(output), tokens, memory, time);
  }

  lemma {:induction false} SumTokensInsert(x: ShardResult, s: seq<ShardResult>)
    ensures SumTokens(InsertByPosition(x, s)) == SumTokens(s) + Tokens(x)
  {
    if |s| > 0 {
      SumTokensCons(s[0], s[1..]);
      if Position(x) < Position(s[0]) {
        SumTokensCons(x, s);
      } else {
        SumTokensInsert(x, s[1..]);
        SumTokensCons(s[0], InsertByPosition(x, s[1..]));
        assert s == [s[0]] + s[1..];
      }
    }
  }

  lemma {:induction false} SumTokensCons(x: ShardResult, s: seq<ShardResult>)
    ensures SumTokens([x] + s) == Tokens(x) + SumTokens(s)
  {
    if |s| > 0 {
      var r := [x] + s;
      assert r[..|r| - 1] == [x] + s[..|s| - 1];
      SumTokensCons(x, s[..|s| - 1]);
    } else {
      assert ([x] + s)[..0] == [];
    }
  }

  /** The total does not depend on the order the shards reported in: it is the sum
      over the results as they came. */
  lemma {:induction false} SumTokensSorted(s: seq<ShardResult>)
    ensures SumTokens(SortByPosition(s)) == SumTokens(s)
  {
    if |s| > 0 {
      var init := s[..|s| - 1];
      SumTokensSorted(init);
      SumTokensInsert(s[|s| - 1], SortByPosition(init));
    }
  }

  /** The combined memory and time bound every shard's, whatever the order; they
      are 0 or some shard's value. */
  lemma CombinedBounds(results: seq<ShardResult>)
    ensures var sorted := SortByPosition(results);
            && (forall r :: r in results ==> MemoryUsed(r) <= MaxMemory(sorted) && ExecutionTime(r) <= MaxTime(sorted))
            && (MaxMemory(sorted) == 0.0 || exists r :: r in results && MemoryUsed(r) == MaxMemory(sorted))
            && SumTokens(sorted) == SumTokens(results)
  {
    var sorted := SortByPosition(results);
    SortByPositionSorts(results);
    SumTokensSorted(results);
    forall r | r in results ensures MemoryUsed(r) <= MaxMemory(sorted) && ExecutionTime(r) <= MaxTime(sorted) {
      assert r in multiset(sorted);
      var i :| 0 <= i < |sorted| && sorted[i] == r;
    }
    if MaxMemory(sorted) != 0.0 {
      var i :| 0 <= i < |sorted| && MemoryUsed(sorted[i]) == MaxMemory(sorted);
      assert sorted[i] in multiset(results);
    }
  }

  // ---------------------------------------------------------------------------
  // The executor's shard table.

  class DistributedExecutor {
    var modelShards: map<string, seq<ModelShard>>

    constructor ()
      ensures modelShards == map[]
    {
      modelShards := map[];
    }

    /** `prepare_model_distribution`: the shards for the nodes offered, recorded
        under the model's name; nothing is recorded when it raises. */
    method PrepareModelDistribution(modelName: string, config: ShardingConfig, availableNodes: seq<Node>)
      returns (r: Result<seq<ModelShard>>)
      modifies this
      ensures r == PrepareSpec(modelName, config, |availableNodes|)
      ensures r.Ok? ==> modelShards == old(modelShards)[modelName := r.value]
      ensures r.Err? ==> modelShards == old(modelShards)
    {
      var total := OrElse(config.modelSize, 0);
      var per := OrElse(config.memoryPerShard, 4000);
      var gpu := OrElse(config.gpuRequired, true);
      if |availableNodes| == 0 {
        return Err("ValueError");
      }
      if per == 0 {
        return Err("ZeroDivisionError");
      }
      var k := ShardCount(|availableNodes|, total, per);
      var shards := [];
      var i := 0;
      while i < k
        invariant 0 <= i <= k
        invariant |shards| == i
        invariant forall j :: 0 <= j < i ==> shards[j] == PreparedShard(modelName, total, per, gpu, k, j)
      {
        shards := shards + [ModelShard(ShardId(modelName, i), modelName, FloorDiv(total, k), per, gpu, None, "unassigned")];
        i := i + 1;
      }
      assert shards == PrepareSpec(modelName, config, |availableNodes|).value;
      modelShards := modelShards[modelName := shards];
      return Ok(shards);
    }

    /** `distribute_model`: the shards are updated in place, so when they are the
        ones recorded for the model the record shows the assignment. */
    method DistributeModel(modelName: string, shards: seq<ModelShard>, availableNodes: seq<Node>)
      returns (r: Result<map<string, Placement>>)
      modifies this
      ensures DistributeSpec(shards, availableNodes).Err? ==> r.Err? && modelShards == old(modelShards)
      ensures DistributeSpec(shards, availableNodes).Ok? ==>
                && r == Ok(DistributeSpec(shards, availableNodes).value.plan)
                && modelShards == if modelName in old(modelShards) && old(modelShards)[modelName] == shards
                                  then old(modelShards)[modelName := DistributeSpec(shards, availableNodes).value.shards]
                                  else old(modelShards)
    {
      if |shards| == 0 {
        return Err("IndexError");
      }
      if |availableNodes| < |shards| {
        return Err("ValueError");
      }
      var sorted := SortByResources(availableNodes);
      var plan := map[];
      var placed := [];
      var i := 0;
      while i < |shards|
        invariant 0 <= i <= |shards|
        invariant plan == Keyed(ShardIds(shards), Placements(shards, sorted), i)
        invariant |placed| == i && forall j :: 0 <= j < i ==> placed[j] == Assigned(shards[j], sorted[j])
      {
        plan := plan[shards[i].shardId := Placement(sorted[i].id, shards[i], "pending")];
        placed := placed + [Assigned(shards[i], sorted[i])];
        i := i + 1;
      }
      assert placed == DistributeSpec(shards, availableNodes).value.shards;
      if modelName in modelShards && modelShards[modelName] == shards {
        modelShards := modelShards[modelName := placed];
      }
      return Ok(plan);
    }
  }
}
