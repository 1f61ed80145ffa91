/** The GPU-aware scheduler (hub/services/gpu_scheduler.py): a queue of submitted
    tasks, a requirement filter over the registry's nodes, a load-aware score, and
    the bookkeeping of assignment and completion.

    The registry is the abstract node list the scheduler reads (`get_active_nodes`,
    `get_node`); the scheduler changes a node only by bumping its `current_tasks`,
    which the model does in `nodes`, the registry's list in registry order. */
module GpuScheduling {
  import opened Common
  import opened SharedModels

  // ---------------------------------------------------------------------------
  // The requirement filter (`_node_meets_requirements`).

  /** `if requirements.min_compute_capability:` is false for None and for "". */
  predicate CapabilityRequired(req: TaskRequirements)
  {
    req.minComputeCapability.Some? && req.minComputeCapability.value != ""
  }

  ghost predicate MeetsRequirements(node: AgentNode, req: TaskRequirements)
  {
    var res := node.computeResources;
    && (req.requiresGpu ==> res.hasGpu)
    && res.availableRamGb >= req.minRamGb
    && (req.minGpuMemoryGb > 0.0 ==>
          res.hasGpu && SomeDeviceHasFreeMemory(res.gpuInfo.devices, req.minGpuMemoryGb))
    && (CapabilityRequired(req) ==>
          res.hasGpu && SomeDeviceHasCapability(res.gpuInfo.devices, req.minComputeCapability.value))
    && node.currentTasks < node.maxConcurrentTasks
  }

  method NodeMeetsRequirements(node: AgentNode, req: TaskRequirements) returns (ok: bool)
    ensures ok == MeetsRequirements(node, req)
  {
    var res := node.computeResources;
    if req.requiresGpu && !res.hasGpu { return false; }
    if res.availableRamGb < req.minRamGb { return false; }
    if req.minGpuMemoryGb > 0.0 {
      if !res.hasGpu { return false; }
      var enough := FindDeviceWithFreeMemory(res.gpuInfo.devices, req.minGpuMemoryGb);
      if !enough { return false; }
    }
    if CapabilityRequired(req) {
      if !res.hasGpu { return false; }
      var capable := FindDeviceWithCapability(res.gpuInfo.devices, req.minComputeCapability.value);
      if !capable { return false; }
    }
    if node.currentTasks >= node.maxConcurrentTasks { return false; }
    return true;
  }

  /** A node passes the filter exactly when each of the five conditions holds; in
      particular no GPU-less node ever passes a GPU requirement, and a node at its
      concurrency limit never passes. */
  lemma FilterConditions(node: AgentNode, req: TaskRequirements)
    ensures MeetsRequirements(node, req) ==> node.currentTasks < node.maxConcurrentTasks
    ensures req.requiresGpu && !node.computeResources.hasGpu ==> !MeetsRequirements(node, req)
    ensures node.computeResources.availableRamGb < req.minRamGb ==> !MeetsRequirements(node, req)
    ensures ((req.minGpuMemoryGb > 0.0 || CapabilityRequired(req)) && !node.computeResources.hasGpu)
            ==> !MeetsRequirements(node, req)
  {
  }

  /** The default requirements (no GPU, 1 GB of RAM, no capability) accept every node
      with at least 1 GB free and a spare slot. */
  lemma DefaultRequirementsAcceptCpuNodes(node: AgentNode)
    requires node.computeResources.availableRamGb >= 1.0
    requires node.currentTasks < node.maxConcurrentTasks
    ensures MeetsRequirements(node, DefaultRequirements())
  {
  }

  /** `_find_suitable_nodes`: the nodes that pass, in registry order. */
  ghost function Suitable(nodes: seq<AgentNode>, req: TaskRequirements): (r: seq<AgentNode>)
    ensures |r| <= |nodes|
    ensures forall n :: n in r ==> n in nodes && MeetsRequirements(n, req)
    ensures forall i :: 0 <= i < |nodes| && MeetsRequirements(nodes[i], req) ==> nodes[i] in r
  {
    if |nodes| == 0 then []
    else
      var rest := Suitable(nodes[..|nodes| - 1], req);
      var last := nodes[|nodes| - 1];
      assert forall i :: 0 <= i < |nodes| - 1 ==> nodes[..|nodes| - 1][i] == nodes[i];
      if MeetsRequirements(last, req) then rest + [last] else rest
  }

  method FindSuitableNodes(nodes: seq<AgentNode>, req: TaskRequirements) returns (suitable: seq<AgentNode>)
    ensures suitable == Suitable(nodes, req)
  {
    suitable := [];
    var i := 0;
    while i < |nodes|
      invariant 0 <= i <= |nodes|
      invariant suitable == Suitable(nodes[..i], req)
    {
      var ok := NodeMeetsRequirements(nodes[i], req);
      assert nodes[..i + 1][..i] == nodes[..i];
      if ok { suitable := suitable + [nodes[i]]; }
      i := i + 1;
    }
    assert nodes[..i] == nodes;
  }

  // ---------------------------------------------------------------------------
  // The node score (`_calculate_node_score`).

  /** How many entries of `preferred` the node supports; each earns 3 points. */
  function CountSupported(preferred: seq<string>, supported: seq<string>): (c: nat)
    ensures c <= |preferred|
  {
    if |preferred| == 0 then 0
    else CountSupported(preferred[..|preferred| - 1], supported)
         + (if preferred[|preferred| - 1] in supported then 1 else 0)
  }

  /** None when the score divides by zero (total RAM or the concurrency limit is 0):
      the ZeroDivisionError leaves the task in the queue for this pass. */
  function NodeScore(node: AgentNode, task: InferenceTask): Option<real>
  {
    var res := node.computeResources;
    if res.totalRamGb == 0.0 || node.maxConcurrentTasks == 0 then None
    else
      var ramPart := res.availableRamGb / res.totalRamGb * 10.0;
      var gpuPart := if task.requirements.requiresGpu && res.hasGpu
                     then 20.0 + MinReal(res.gpuInfo.totalMemoryGb / 10.0, 10.0) else 0.0;
      var loadPart := (node.currentTasks as real) / (node.maxConcurrentTasks as real) * 15.0;
      var modelPart := if task.model != "auto" && task.model in node.supportedModels then 5.0 else 0.0;
      var preferredPart := 3.0 * CountSupported(task.requirements.preferredModels, node.supportedModels) as real;
      var streamPart := if task.taskType == "streaming" && node.capabilities.streaming then 5.0 else 0.0;
      Some(ramPart + gpuPart - loadPart + modelPart + preferredPart + streamPart)
  }

  /** Two nodes that differ only in their current load: the busier one scores lower
      (the 15-point load penalty). */
  lemma BusierNodeScoresLower(node: AgentNode, task: InferenceTask, busier: int)
    requires node.maxConcurrentTasks > 0 && node.computeResources.totalRamGb != 0.0
    requires busier > node.currentTasks
    ensures NodeScore(node.(currentTasks := busier), task).value < NodeScore(node, task).value
  {
    var m := node.maxConcurrentTasks as real;
    assert (busier as real) / m > (node.currentTasks as real) / m;
  }

  // ---------------------------------------------------------------------------
  // Choosing the best node (`_find_best_node`).

  /** Scan of the first `n` nodes: Err when a passing node's score raised, Ok(None)
      when none passed, otherwise the index of the first passing node of maximal
      score (the sort is stable, so among equal scores the earliest wins). */
  ghost function BestIn(nodes: seq<AgentNode>, task: InferenceTask, n: nat): (r: Result<Option<nat>>)
    requires n <= |nodes|
    ensures r.Ok? && r.value.Some? ==> r.value.value < n && NodeScore(nodes[r.value.value], task).Some?
  {
    if n == 0 then Ok(None)
    else
      var prev := BestIn(nodes, task, n - 1);
      if prev.Err? || !MeetsRequirements(nodes[n - 1], task.requirements) then prev
      else match NodeScore(nodes[n - 1], task)
        case None => Err("division by zero")
        case Some(s) =>
          if prev.value.None? || s > NodeScore(nodes[prev.value.value], task).value
          then Ok(Some(n - 1)) else prev
  }

  ghost function BestNode(nodes: seq<AgentNode>, task: InferenceTask): Result<Option<nat>>
  {
    BestIn(nodes, task, |nodes|)
  }

  ghost predicate ScoresDefinedIn(nodes: seq<AgentNode>, task: InferenceTask, n: nat)
    requires n <= |nodes|
  {
    forall i :: 0 <= i < n && MeetsRequirements(nodes[i], task.requirements)
                ==> NodeScore(nodes[i], task).Some?
  }

  lemma {:induction false} BestInOk(nodes: seq<AgentNode>, task: InferenceTask, n: nat)
    requires n <= |nodes|
    ensures BestIn(nodes, task, n).Ok? <==> ScoresDefinedIn(nodes, task, n)
  {
    if n > 0 {
      BestInOk(nodes, task, n - 1);
      assert ScoresDefinedIn(nodes, task, n) <==>
               ScoresDefinedIn(nodes, task, n - 1)
               && (MeetsRequirements(nodes[n - 1], task.requirements) ==> NodeScore(nodes[n - 1], task).Some?);
    }
  }

  lemma {:induction false} BestInNone(nodes: seq<AgentNode>, task: InferenceTask, n: nat)
    requires n <= |nodes|
    ensures BestIn(nodes, task, n) == Ok(None) <==>
              ScoresDefinedIn(nodes, task, n)
              && forall i :: 0 <= i < n ==> !MeetsRequirements(nodes[i], task.requirements)
  {
    if n > 0 {
      BestInNone(nodes, task, n - 1);
      BestInOk(nodes, task, n);
      BestInOk(nodes, task, n - 1);
    }
  }

  lemma BestInMeets(nodes: seq<AgentNode>, task: InferenceTask, n: nat)
    requires n <= |nodes|
    ensures BestIn(nodes, task, n).Ok? && BestIn(nodes, task, n).value.Some? ==>
              MeetsRequirements(nodes[BestIn(nodes, task, n).value.value], task.requirements)
  {
    if n > 0 {
      BestInMeets(nodes, task, n - 1);
    }
  }

  lemma {:induction false} BestInMaximal(nodes: seq<AgentNode>, task: InferenceTask, n: nat)
    requires n <= |nodes|
    ensures ScoresDefinedIn(nodes, task, n) && BestIn(nodes, task, n).Ok? && BestIn(nodes, task, n).value.Some? ==>
              var k := BestIn(nodes, task, n).value.value;
              forall i :: 0 <= i < n && MeetsRequirements(nodes[i], task.requirements)
                ==> NodeScore(nodes[i], task).value <= NodeScore(nodes[k], task).value
  {
    if n > 0 && ScoresDefinedIn(nodes, task, n) {
      var prev := BestIn(nodes, task, n - 1);
      var last := nodes[n - 1];
      assert ScoresDefinedIn(nodes, task, n - 1);
      BestInMaximal(nodes, task, n - 1);
      BestInOk(nodes, task, n - 1);
      if MeetsRequirements(last, task.requirements) {
        var sc := NodeScore(last, task).value;
        if prev.value.None? {
          BestInNone(nodes, task, n - 1);
          assert BestIn(nodes, task, n) == Ok(Some(n - 1));
        } else if sc > NodeScore(nodes[prev.value.value], task).value {
          assert BestIn(nodes, task, n) == Ok(Some(n - 1));
        } else {
          assert BestIn(nodes, task, n) == prev;
        }
      } else {
        assert BestIn(nodes, task, n) == prev;
      }
    }
  }

  lemma {:induction false} BestInFirstMaximal(nodes: seq<AgentNode>, task: InferenceTask, n: nat)
    requires n <= |nodes|
    ensures ScoresDefinedIn(nodes, task, n) && BestIn(nodes, task, n).Ok? && BestIn(nodes, task, n).value.Some? ==>
              var k := BestIn(nodes, task, n).value.value;
              forall i :: 0 <= i < k && MeetsRequirements(nodes[i], task.requirements)
                ==> NodeScore(nodes[i], task).value < NodeScore(nodes[k], task).value
  {
    if n > 0 && ScoresDefinedIn(nodes, task, n) {
      var prev := BestIn(nodes, task, n - 1);
      var last := nodes[n - 1];
      assert ScoresDefinedIn(nodes, task, n - 1);
      BestInMaximal(nodes, task, n - 1);
      BestInFirstMaximal(nodes, task, n - 1);
      BestInOk(nodes, task, n - 1);
      if MeetsRequirements(last, task.requirements) {
        var sc := NodeScore(last, task).value;
        if prev.value.None? {
          BestInNone(nodes, task, n - 1);
          assert BestIn(nodes, task, n) == Ok(Some(n - 1));
        } else if sc > NodeScore(nodes[prev.value.value], task).value {
          assert BestIn(nodes, task, n) == Ok(Some(n - 1));
        } else {
          assert BestIn(nodes, task, n) == prev;
        }
      } else {
        assert BestIn(nodes, task, n) == prev;
      }
    }
  }

  /** What the scan returns: it raises iff some passing node's score raises; it finds
      nothing iff no node passes; otherwise it returns a passing node whose score no
      passing node beats, and every earlier passing node scores strictly less. */
  lemma BestInCharacterized(nodes: seq<AgentNode>, task: InferenceTask, n: nat)
    requires n <= |nodes|
    ensures BestIn(nodes, task, n).Ok? <==> ScoresDefinedIn(nodes, task, n)
    ensures BestIn(nodes, task, n) == Ok(None) <==>
              ScoresDefinedIn(nodes, task, n)
              && forall i :: 0 <= i < n ==> !MeetsRequirements(nodes[i], task.requirements)
    ensures BestIn(nodes, task, n).Ok? && BestIn(nodes, task, n).value.Some? ==>
              var k := BestIn(nodes, task, n).value.value;
              && MeetsRequirements(nodes[k], task.requirements)
              && (forall i :: 0 <= i < n && MeetsRequirements(nodes[i], task.requirements)
                    ==> NodeScore(nodes[i], task).value <= NodeScore(nodes[k], task).value)
              && (forall i :: 0 <= i < k && MeetsRequirements(nodes[i], task.requirements)
                    ==> NodeScore(nodes[i], task).value < NodeScore(nodes[k], task).value)
  {
    BestInOk(nodes, task, n);
    BestInNone(nodes, task, n);
    BestInMeets(nodes, task, n);
    BestInMaximal(nodes, task, n);
    BestInFirstMaximal(nodes, task, n);
  }

  /** Once a score has raised, the rest of the scan cannot undo it. */
  lemma {:induction false} BestInErrPersists(nodes: seq<AgentNode>, task: InferenceTask, n: nat, m: nat)
    requires n <= m <= |nodes| && BestIn(nodes, task, n).Err?
    ensures BestIn(nodes, task, m) == BestIn(nodes, task, n)
    decreases m - n
  {
    if n < m {
      BestInErrPersists(nodes, task, n + 1, m);
    }
  }

  method FindBestNode(nodes: seq<AgentNode>, task: InferenceTask) returns (r: Result<Option<nat>>)
    ensures r == BestNode(nodes, task)
  {
    var best: Option<nat> := None;
    var bestScore := 0.0;
    var i := 0;
    while i < |nodes|
      invariant 0 <= i <= |nodes|
      invariant BestIn(nodes, task, i) == Ok(best)
      invariant best.Some? ==> bestScore == NodeScore(nodes[best.value], task).value
    {
      var ok := NodeMeetsRequirements(nodes[i], task.requirements);
      if ok {
        var s := NodeScore(nodes[i], task);
        if s.None? {
          BestInErrPersists(nodes, task, i + 1, |nodes|);
          return Err("division by zero");
        }
        if best.None? || s.value > bestScore {
          best := Some(i);
          bestScore := s.value;
        }
      }
      i := i + 1;
    }
    return Ok(best);
  }

  // ---------------------------------------------------------------------------
  // Queue order: ascending by (priority.value, created_at).

  predicate KeyLe(a: InferenceTask, b: InferenceTask)
  {
    a.priority.AlphaRank() < b.priority.AlphaRank()
    || (a.priority == b.priority && a.createdAt <= b.createdAt)
  }

  ghost predicate QueueSorted(q: seq<InferenceTask>)
  {
    forall i, j :: 0 <= i < j < |q| ==> KeyLe(q[i], q[j])
  }

  /** `KeyLe` is total, so an entry that is not below `t` is strictly above it. */
  lemma KeyLeTotal(a: InferenceTask, b: InferenceTask)
    ensures KeyLe(a, b) || KeyLe(b, a)
  {
    if a.priority.AlphaRank() == b.priority.AlphaRank() {
      assert a.priority == b.priority;
    }
  }

  /** Inserts `t` after every entry whose key is no greater than its own, so that among
      equal keys it lands last: the insertion step of a stable sort. */
  function InsertByKey(t: InferenceTask, q: seq<InferenceTask>): (r: seq<InferenceTask>)
    ensures |r| == |q| + 1
  {
    if |q| == 0 then [t]
    else if !KeyLe(q[0], t) then [t] + q
    else [q[0]] + InsertByKey(t, q[1..])
  }

  lemma {:induction false} InsertByKeyCounts(t: InferenceTask, q: seq<InferenceTask>)
    ensures multiset(InsertByKey(t, q)) == multiset(q) + multiset{t}
  {
    if |q| > 0 && KeyLe(q[0], t) {
      InsertByKeyCounts(t, q[1..]);
      assert q == [q[0]] + q[1..];
    }
  }

  /** A key no greater than `t` and every entry of `q` is no greater than any entry
      after the insertion. */
  lemma {:induction false} InsertByKeyAbove(t: InferenceTask, q: seq<InferenceTask>, a: InferenceTask)
    requires KeyLe(a, t) && forall j :: 0 <= j < |q| ==> KeyLe(a, q[j])
    ensures forall j :: 0 <= j < |q| + 1 ==> KeyLe(a, InsertByKey(t, q)[j])
  {
    if |q| > 0 && KeyLe(q[0], t) {
      InsertByKeyAbove(t, q[1..], a);
      assert InsertByKey(t, q) == [q[0]] + InsertByKey(t, q[1..]);
    }
  }

  lemma {:induction false} InsertByKeySorted(t: InferenceTask, q: seq<InferenceTask>)
    requires QueueSorted(q)
    ensures QueueSorted(InsertByKey(t, q))
  {
    if |q| > 0 {
      if !KeyLe(q[0], t) {
        KeyLeTotal(q[0], t);
        var r := [t] + q;
        forall j | 0 < j < |r| ensures KeyLe(t, r[j]) {
          assert r[j] == q[j - 1];
          assert j - 1 == 0 || KeyLe(q[0], q[j - 1]);
        }
      } else {
        var tail := q[1..];
        assert forall j :: 0 <= j < |tail| ==> tail[j] == q[j + 1];
        InsertByKeySorted(t, tail);
        InsertByKeyAbove(t, tail, q[0]);
        var rest := InsertByKey(t, tail);
        var r := [q[0]] + rest;
        assert forall j :: 0 < j < |r| ==> r[j] == rest[j - 1];
        assert InsertByKey(t, q) == r;
      }
    }
  }

  /** The sort key `(priority.value, created_at)` of two tasks is the same. */
  predicate SameKey(a: InferenceTask, b: InferenceTask)
  {
    a.priority == b.priority && a.createdAt == b.createdAt
  }

  /** The tasks of `q` whose sort key equals that of `k`, in queue order. */
  function WithKeyOf(q: seq<InferenceTask>, k: InferenceTask): (r: seq<InferenceTask>)
    ensures |r| <= |q|
    ensures forall j :: 0 <= j < |r| ==> SameKey(r[j], k)
  {
    if |q| == 0 then []
    else (if SameKey(q[0], k) then [q[0]] else []) + WithKeyOf(q[1..], k)
  }

  lemma {:induction false} WithKeyOfSnoc(q: seq<InferenceTask>, t: InferenceTask, k: InferenceTask)
    ensures WithKeyOf(q + [t], k) == WithKeyOf(q, k) + (if SameKey(t, k) then [t] else [])
  {
    if |q| > 0 {
      assert (q + [t])[1..] == q[1..] + [t];
      WithKeyOfSnoc(q[1..], t, k);
    }
  }

  lemma {:induction false} WithKeyOfNone(q: seq<InferenceTask>, k: InferenceTask)
    requires forall j :: 0 <= j < |q| ==> !SameKey(q[j], k)
    ensures WithKeyOf(q, k) == []
  {
    if |q| > 0 {
      WithKeyOfNone(q[1..], k);
    }
  }

  lemma WithKeyOfCons(x: InferenceTask, q: seq<InferenceTask>, k: InferenceTask)
    ensures WithKeyOf([x] + q, k) == (if SameKey(x, k) then [x] else []) + WithKeyOf(q, k)
  {
    assert ([x] + q)[1..] == q;
  }

  /** Every entry of a sorted queue whose head is above `t` is above `t`, so none has
      `t`'s key. */
  lemma AboveHasNoKey(t: InferenceTask, q: seq<InferenceTask>, k: InferenceTask)
    requires QueueSorted(q) && |q| > 0 && !KeyLe(q[0], t) && SameKey(t, k)
    ensures WithKeyOf(q, k) == []
  {
    forall j | 0 <= j < |q| ensures !SameKey(q[j], k) {
      assert j == 0 || KeyLe(q[0], q[j]);
    }
    WithKeyOfNone(q, k);
  }

  /** Inserting `t` into a sorted queue puts it after every task with the same key:
      for each key the tasks with that key keep their order, `t` last among them. */
  lemma {:induction false} InsertByKeyStable(t: InferenceTask, q: seq<InferenceTask>, k: InferenceTask)
    requires QueueSorted(q)
    ensures WithKeyOf(InsertByKey(t, q), k) == WithKeyOf(q, k) + (if SameKey(t, k) then [t] else [])
  {
    if |q| == 0 {
      WithKeyOfCons(t, q, k);
    } else if !KeyLe(q[0], t) {
      if SameKey(t, k) {
        AboveHasNoKey(t, q, k);
      }
      WithKeyOfCons(t, q, k);
    } else {
      var tail := q[1..];
      assert QueueSorted(tail) by {
        assert forall j :: 0 <= j < |tail| ==> tail[j] == q[j + 1];
      }
      InsertByKeyStable(t, tail, k);
      var ins := InsertByKey(t, tail);
      assert InsertByKey(t, q) == [q[0]] + ins;
      WithKeyOfCons(q[0], ins, k);
      assert q == [q[0]] + tail;
      WithKeyOfCons(q[0], tail, k);
    }
  }

  /** `task_queue.sort(key=lambda t: (t.priority.value, t.created_at))`. */
  function SortQueue(q: seq<InferenceTask>): (r: seq<InferenceTask>)
    ensures |r| == |q|
  {
    if |q| == 0 then [] else InsertByKey(q[|q| - 1], SortQueue(q[..|q| - 1]))
  }

  lemma {:induction false} SortQueueOrders(q: seq<InferenceTask>)
    ensures QueueSorted(SortQueue(q))
  {
    if |q| > 0 {
      var init, last := q[..|q| - 1], q[|q| - 1];
      SortQueueOrders(init);
      InsertByKeySorted(last, SortQueue(init));
    }
  }

  lemma {:induction false} SortQueueKeepsTasks(q: seq<InferenceTask>)
    ensures multiset(SortQueue(q)) == multiset(q)
  {
    if |q| > 0 {
      var init, last := q[..|q| - 1], q[|q| - 1];
      SortQueueKeepsTasks(init);
      InsertByKeyCounts(last, SortQueue(init));
      MultisetSnoc(q);
    }
  }

  /** Python's sort is stable: tasks with the same key come out in their queue order. */
  lemma {:induction false} SortQueueStable(q: seq<InferenceTask>, k: InferenceTask)
    ensures WithKeyOf(SortQueue(q), k) == WithKeyOf(q, k)
  {
    if |q| > 0 {
      var init, last := q[..|q| - 1], q[|q| - 1];
      SortQueueStable(init, k);
      SortQueueOrders(init);
      InsertByKeyStable(last, SortQueue(init), k);
      assert q == init + [last];
      WithKeyOfSnoc(init, last, k);
    }
  }

  /** Two tasks submitted with the same priority and creation time are tried in
      submission order. */
  lemma EqualKeysKeepSubmissionOrder(a: InferenceTask, b: InferenceTask)
    requires SameKey(a, b)
    ensures SortQueue([a, b]) == [a, b]
  {
    assert [a, b][..1] == [a];
    assert [a][..0] == [];
    assert SortQueue([a]) == [a];
    assert KeyLe(a, b);
    assert InsertByKey(b, [a]) == [a] + InsertByKey(b, [a][1..]);
  }

  /** The sorted queue is ordered by key, holds the same tasks, and keeps tasks with
      equal keys in their queue order. */
  lemma SortQueueSorts(q: seq<InferenceTask>)
    ensures QueueSorted(SortQueue(q))
    ensures multiset(SortQueue(q)) == multiset(q)
    ensures forall k :: WithKeyOf(SortQueue(q), k) == WithKeyOf(q, k)
  {
    SortQueueOrders(q);
    SortQueueKeepsTasks(q);
    forall k ensures WithKeyOf(SortQueue(q), k) == WithKeyOf(q, k) {
      SortQueueStable(q, k);
    }
  }

  /** The queue comes out ordered by the priority STRING, so "high" tasks are tried
      first and "urgent" tasks last. */
  lemma SortedQueueFollowsPriorityStrings(q: seq<InferenceTask>, i: nat, j: nat)
    requires i < j < |SortQueue(q)|
    ensures var s := SortQueue(q);
            !LexLess(s[j].priority.Value(), s[i].priority.Value())
  {
    var s := SortQueue(q);
    SortQueueSorts(q);
    PriorityValueOrder(s[j].priority, s[i].priority);
  }

  // ---------------------------------------------------------------------------
  // One pass over the queue (`_process_task_queue`) as a specification.

  datatype PassState = PassState(
    nodes: seq<AgentNode>,
    running: map<string, InferenceTask>,
    assignments: map<string, string>,
    kept: seq<InferenceTask>,       // tasks left in the queue, in queue order
    toRemove: seq<InferenceTask>)   // `tasks_to_remove`

  /** `_assign_task_to_node`: no capacity re-check; the node's load goes up by one. */
  function Assign(st: PassState, t: InferenceTask, k: nat, now: int): (r: PassState)
    requires k < |st.nodes|
  {
    var node := st.nodes[k];
    var t' := t.(status := Running, startedAt := Some(now), assignedNode := Some(node.id));
    PassState(st.nodes[k := node.(currentTasks := node.currentTasks + 1)],
              st.running[t.id := t'], st.assignments[t.id := node.id],
              st.kept, st.toRemove + [t'])
  }

  ghost function Step(st: PassState, t: InferenceTask, now: int): PassState
  {
    match BestNode(st.nodes, t)
    case Ok(Some(k)) => Assign(st, t, k, now)
    case _ => st.(kept := st.kept + [t])
  }

  /** One iteration of the loop: find the best node, assign or keep. */
  method TryAssign(st: PassState, t: InferenceTask, now: int) returns (r: PassState)
    ensures r == Step(st, t, now)
  {
    var best := FindBestNode(st.nodes, t);
    if best.Ok? && best.value.Some? {
      r := Assign(st, t, best.value.value, now);
    } else {
      r := st.(kept := st.kept + [t]);
    }
  }

  ghost function Pass(st: PassState, ts: seq<InferenceTask>, now: int): PassState
    decreases |ts|
  {
    if |ts| == 0 then st else Step(Pass(st, ts[..|ts| - 1], now), ts[|ts| - 1], now)
  }

  /** The loop of `_process_task_queue` over the sorted queue. */
  method RunPass(start: PassState, ts: seq<InferenceTask>, now: int) returns (st: PassState)
    ensures st == Pass(start, ts, now)
  {
    st := start;
    var i := 0;
    while i < |ts|
      invariant 0 <= i <= |ts|
      invariant st == Pass(start, ts[..i], now)
    {
      assert ts[..i + 1][..i] == ts[..i];
      st := TryAssign(st, ts[i], now);
      i := i + 1;
    }
    assert ts[..i] == ts;
  }

  function SumLoads(nodes: seq<AgentNode>): int
  {
    if |nodes| == 0 then 0 else SumLoads(nodes[..|nodes| - 1]) + nodes[|nodes| - 1].currentTasks
  }

  lemma {:induction false} SumLoadsUpdate(nodes: seq<AgentNode>, k: nat, node: AgentNode)
    requires k < |nodes|
    ensures SumLoads(nodes[k := node]) == SumLoads(nodes) - nodes[k].currentTasks + node.currentTasks
    decreases |nodes|
  {
    var u := nodes[k := node];
    assert u[..|u| - 1] == if k < |nodes| - 1 then nodes[..|nodes| - 1][k := node] else nodes[..|nodes| - 1];
    if k < |nodes| - 1 { SumLoadsUpdate(nodes[..|nodes| - 1], k, node); }
  }

  ghost predicate WithinCapacity(nodes: seq<AgentNode>)
  {
    forall i :: 0 <= i < |nodes| ==> nodes[i].currentTasks <= nodes[i].maxConcurrentTasks
  }

  /** Over one pass every task examined is either kept or removed, and the node list
      keeps its length and the identity of each entry. */
  lemma {:induction false} PassCounts(st: PassState, ts: seq<InferenceTask>, now: int)
    ensures var r := Pass(st, ts, now);
            && |r.kept| + |r.toRemove| == |st.kept| + |st.toRemove| + |ts|
            && |r.nodes| == |st.nodes|
            && (forall i :: 0 <= i < |r.nodes| ==> r.nodes[i].id == st.nodes[i].id)
    decreases |ts|
  {
    if |ts| > 0 {
      PassCounts(st, ts[..|ts| - 1], now);
    }
  }

  /** One step adds one to the total load exactly when it assigns the task. */
  lemma StepLoads(st: PassState, t: InferenceTask, now: int)
    ensures var r := Step(st, t, now);
            SumLoads(r.nodes) == SumLoads(st.nodes) + |r.toRemove| - |st.toRemove|
  {
    match BestNode(st.nodes, t)
    case Ok(Some(k)) => {
      var node := st.nodes[k];
      SumLoadsUpdate(st.nodes, k, node.(currentTasks := node.currentTasks + 1));
    }
    case _ => {}
  }

  /** The total load over the nodes grows by exactly the number of tasks assigned. */
  lemma {:induction false} PassLoads(st: PassState, ts: seq<InferenceTask>, now: int)
    ensures var r := Pass(st, ts, now);
            SumLoads(r.nodes) == SumLoads(st.nodes) + |r.toRemove| - |st.toRemove|
    decreases |ts|
  {
    if |ts| > 0 {
      var init, t := ts[..|ts| - 1], ts[|ts| - 1];
      var before := Pass(st, init, now);
      PassLoads(st, init, now);
      StepLoads(before, t, now);
      assert Pass(st, ts, now) == Step(before, t, now);
    }
  }

  /** No node ends a pass above its limit when none started above it: each assignment
      goes to a node that passed the filter against the loads as updated so far. */
  lemma {:induction false} PassKeepsCapacity(st: PassState, ts: seq<InferenceTask>, now: int)
    requires WithinCapacity(st.nodes)
    ensures WithinCapacity(Pass(st, ts, now).nodes)
    decreases |ts|
  {
    if |ts| > 0 {
      var before := Pass(st, ts[..|ts| - 1], now);
      PassKeepsCapacity(st, ts[..|ts| - 1], now);
      var t := ts[|ts| - 1];
      var b := BestNode(before.nodes, t);
      if b.Ok? && b.value.Some? {
        BestInCharacterized(before.nodes, t, |before.nodes|);
      }
    }
  }

  /** One step either keeps the task or leaves the kept list as it was. */
  lemma StepKept(st: PassState, t: InferenceTask, now: int)
    ensures Step(st, t, now).kept == st.kept || Step(st, t, now).kept == st.kept + [t]
  {
  }

  /** One step either leaves `tasks_to_remove` as it was or appends a task just started. */
  lemma StepRemoved(st: PassState, t: InferenceTask, now: int)
    ensures var r := Step(st, t, now);
            || r.toRemove == st.toRemove
            || (exists x :: r.toRemove == st.toRemove + [x] && x.status == Running && x.startedAt == Some(now))
  {
    match BestNode(st.nodes, t)
    case Ok(Some(k)) => {
      var r := Assign(st, t, k, now);
      var x := r.toRemove[|r.toRemove| - 1];
      assert r.toRemove == st.toRemove + [x];
    }
    case _ => {}
  }

  lemma {:induction false} PassKept(st: PassState, ts: seq<InferenceTask>, now: int)
    ensures var r := Pass(st, ts, now);
            && |r.kept| >= |st.kept| && r.kept[..|st.kept|] == st.kept
            && (forall x :: x in r.kept[|st.kept|..] ==> x in ts)
    decreases |ts|
  {
    if |ts| > 0 {
      var init, t := ts[..|ts| - 1], ts[|ts| - 1];
      var before := Pass(st, init, now);
      PassKept(st, init, now);
      StepKept(before, t, now);
      var r := Step(before, t, now);
      assert Pass(st, ts, now) == r;
      var n := |st.kept|;
      forall x | x in r.kept[n..] ensures x in ts {
        if x in before.kept[n..] {
          var m :| 0 <= m < |init| && init[m] == x;
          assert ts[m] == x;
        } else {
          assert r.kept[n..] == before.kept[n..] + [t];
        }
      }
      if r.kept != before.kept {
        assert r.kept[..n] == before.kept[..n];
      }
    }
  }

  lemma {:induction false} PassRemoved(st: PassState, ts: seq<InferenceTask>, now: int)
    ensures var r := Pass(st, ts, now);
            && |r.toRemove| >= |st.toRemove| && r.toRemove[..|st.toRemove|] == st.toRemove
            && (forall x :: x in r.toRemove[|st.toRemove|..] ==> x.status == Running && x.startedAt == Some(now))
    decreases |ts|
  {
    if |ts| > 0 {
      var init, t := ts[..|ts| - 1], ts[|ts| - 1];
      var before := Pass(st, init, now);
      PassRemoved(st, init, now);
      StepRemoved(before, t, now);
      var r := Step(before, t, now);
      assert Pass(st, ts, now) == r;
      var n := |st.toRemove|;
      if r.toRemove != before.toRemove {
        var x :| r.toRemove == before.toRemove + [x] && x.status == Running && x.startedAt == Some(now);
        assert r.toRemove[n..] == before.toRemove[n..] + [x];
        assert r.toRemove[..n] == before.toRemove[..n];
      }
    }
  }

  /** `x` is task `t` as started by an assignment at time `now` on some node. */
  predicate StartedFrom(x: InferenceTask, t: InferenceTask, now: int)
  {
    x.assignedNode.Some?
    && x == t.(status := Running, startedAt := Some(now), assignedNode := x.assignedNode)
  }

  /** `ts` splits, in order, into the tasks of `kept` (unchanged) and the tasks of
      `removed` (each one started): every task lands in exactly one of the two. */
  ghost predicate SplitsInOrder(ts: seq<InferenceTask>, kept: seq<InferenceTask>, removed: seq<InferenceTask>, now: int)
    decreases |ts|
  {
    if |ts| == 0 then kept == [] && removed == []
    else
      var init, t := ts[..|ts| - 1], ts[|ts| - 1];
      || (|kept| > 0 && kept[|kept| - 1] == t
          && SplitsInOrder(init, kept[..|kept| - 1], removed, now))
      || (|removed| > 0 && StartedFrom(removed[|removed| - 1], t, now)
          && SplitsInOrder(init, kept, removed[..|removed| - 1], now))
  }

  /** One step extends the split by the task it examines. */
  lemma StepSplits(ts: seq<InferenceTask>, before: PassState, now: int, n: nat, m: nat)
    requires |ts| > 0 && n <= |before.kept| && m <= |before.toRemove|
    requires SplitsInOrder(ts[..|ts| - 1], before.kept[n..], before.toRemove[m..], now)
    ensures var r := Step(before, ts[|ts| - 1], now);
            n <= |r.kept| && m <= |r.toRemove| && SplitsInOrder(ts, r.kept[n..], r.toRemove[m..], now)
  {
    var t := ts[|ts| - 1];
    var r := Step(before, t, now);
    match BestNode(before.nodes, t)
    case Ok(Some(k)) => {
      assert r.kept == before.kept;
      assert r.toRemove[m..] == before.toRemove[m..] + [r.toRemove[|r.toRemove| - 1]];
      assert r.toRemove[m..][..|r.toRemove[m..]| - 1] == before.toRemove[m..];
    }
    case _ => {
      assert r.toRemove == before.toRemove;
      assert r.kept[n..] == before.kept[n..] + [t];
      assert r.kept[n..][..|r.kept[n..]| - 1] == before.kept[n..];
    }
  }

  /** The kept tasks keep their queue order and are the tasks the pass did not assign;
      the removed tasks are the others, started, in the same order: the queue after a
      pass is the sorted queue minus the assigned tasks. */
  lemma {:induction false} PassKeepsUnassignedInOrder(st: PassState, ts: seq<InferenceTask>, now: int)
    ensures var r := Pass(st, ts, now);
            && |r.kept| >= |st.kept| && r.kept[..|st.kept|] == st.kept
            && |r.toRemove| >= |st.toRemove| && r.toRemove[..|st.toRemove|] == st.toRemove
            && SplitsInOrder(ts, r.kept[|st.kept|..], r.toRemove[|st.toRemove|..], now)
    decreases |ts|
  {
    PassKept(st, ts, now);
    PassRemoved(st, ts, now);
    if |ts| > 0 {
      var init := ts[..|ts| - 1];
      PassKeepsUnassignedInOrder(st, init, now);
      StepSplits(ts, Pass(st, init, now), now, |st.kept|, |st.toRemove|);
    }
  }

  /** A task of the pass is kept or removed, never both and never lost: each kept task
      is a task of `ts`, and the two lists together are as long as `ts`. */
  lemma {:induction false} SplitsInOrderCovers(ts: seq<InferenceTask>, kept: seq<InferenceTask>, removed: seq<InferenceTask>, now: int)
    requires SplitsInOrder(ts, kept, removed, now)
    ensures |kept| + |removed| == |ts|
    ensures forall x :: x in kept ==> x in ts
    decreases |ts|
  {
    if |ts| > 0 {
      var init, t := ts[..|ts| - 1], ts[|ts| - 1];
      if |kept| > 0 && kept[|kept| - 1] == t && SplitsInOrder(init, kept[..|kept| - 1], removed, now) {
        SplitsInOrderCovers(init, kept[..|kept| - 1], removed, now);
        assert kept == kept[..|kept| - 1] + [t];
      } else {
        SplitsInOrderCovers(init, kept, removed[..|removed| - 1], now);
      }
    }
  }

  /** The tasks kept from a sorted list are still sorted. */
  lemma {:induction false} SplitKeepsSorted(ts: seq<InferenceTask>, kept: seq<InferenceTask>, removed: seq<InferenceTask>, now: int)
    requires SplitsInOrder(ts, kept, removed, now) && QueueSorted(ts)
    ensures QueueSorted(kept)
    decreases |ts|
  {
    if |ts| > 0 {
      var init, t := ts[..|ts| - 1], ts[|ts| - 1];
      assert QueueSorted(init) by {
        assert forall i :: 0 <= i < |init| ==> init[i] == ts[i];
      }
      if |kept| > 0 && kept[|kept| - 1] == t && SplitsInOrder(init, kept[..|kept| - 1], removed, now) {
        var front := kept[..|kept| - 1];
        SplitKeepsSorted(init, front, removed, now);
        SplitsInOrderCovers(init, front, removed, now);
        forall i, j | 0 <= i < j < |kept| ensures KeyLe(kept[i], kept[j]) {
          if j == |kept| - 1 {
            assert kept[i] == front[i] && front[i] in init;
            var m :| 0 <= m < |init| && init[m] == front[i];
            assert ts[m] == kept[i];
          } else {
            assert kept[i] == front[i] && kept[j] == front[j];
          }
        }
      } else {
        SplitKeepsSorted(init, kept, removed[..|removed| - 1], now);
      }
    }
  }

  /** After a pass over the sorted queue the tasks left in the queue are still in
      sorted order. */
  lemma ProcessedQueueStaysSorted(st: PassState, q: seq<InferenceTask>, now: int)
    requires st.kept == [] && st.toRemove == []
    ensures QueueSorted(Pass(st, SortQueue(q), now).kept)
  {
    var r := Pass(st, SortQueue(q), now);
    PassKeepsUnassignedInOrder(st, SortQueue(q), now);
    assert r.kept[0..] == r.kept && r.toRemove[0..] == r.toRemove;
    SortQueueOrders(q);
    SplitKeepsSorted(SortQueue(q), r.kept, r.toRemove, now);
  }

  // ---------------------------------------------------------------------------
  // Completion (`complete_task`) as a specification.

  /** `registry.get_node(node_id)`: the first node with that id. */
  function FindNode(nodes: seq<AgentNode>, id: string): (r: Option<nat>)
    ensures r.Some? ==> r.value < |nodes| && nodes[r.value].id == id
                        && forall i :: 0 <= i < r.value ==> nodes[i].id != id
    ensures r.None? ==> forall i :: 0 <= i < |nodes| ==> nodes[i].id != id
  {
    if |nodes| == 0 then None
    else if nodes[0].id == id then Some(0)
    else match FindNode(nodes[1..], id)
      case Some(k) => Some(k + 1)
      case None => None
  }

  /** The new node list after releasing one slot on `nodeId` (floored at 0). */
  function Release(nodes: seq<AgentNode>, nodeId: Option<string>): (r: seq<AgentNode>)
    ensures |r| == |nodes|
  {
    if nodeId.None? || nodeId.value == "" then nodes
    else match FindNode(nodes, nodeId.value)
      case None => nodes
      case Some(k) => nodes[k := nodes[k].(currentTasks := MaxInt(0, nodes[k].currentTasks - 1))]
  }

  /** The finished record: FAILED with the error iff a non-empty error is given,
      otherwise COMPLETED with the result. */
  function Finish(t: InferenceTask, result: Option<Payload>, error: Option<string>, now: int): (r: InferenceTask)
    ensures r.completedAt == Some(now)
    ensures (error.Some? && error.value != "") <==> r.status == Failed
    ensures r.status == Failed ==> r.error == error && r.result == t.result
    ensures r.status == Completed ==> r.result == result && r.error == t.error
    ensures r.id == t.id && r.assignedNode == t.assignedNode
  {
    if error.Some? && error.value != "" then t.(completedAt := Some(now), status := Failed, error := error)
    else t.(completedAt := Some(now), status := Completed, result := result)
  }

  /** Assigning a fresh task to a node and then completing it gives every node back
      its old load (when loads are not negative and node ids are distinct) and leaves
      both maps as they were. */
  lemma AssignThenCompleteRestores(st: PassState, t: InferenceTask, k: nat, now: int, later: int,
                                   result: Option<Payload>, error: Option<string>)
    requires k < |st.nodes| && st.nodes[k].currentTasks >= 0 && st.nodes[k].id != ""
    requires forall i :: 0 <= i < k ==> st.nodes[i].id != st.nodes[k].id
    requires t.id !in st.running && t.id !in st.assignments
    ensures var a := Assign(st, t, k, now);
            && Release(a.nodes, Some(a.assignments[t.id])) == st.nodes
            && a.running - {t.id} == st.running
            && a.assignments - {t.id} == st.assignments
  {
    var a := Assign(st, t, k, now);
    var id := st.nodes[k].id;
    assert a.assignments[t.id] == id;
    assert forall i :: 0 <= i < k ==> a.nodes[i].id != id;
    assert a.nodes[k].id == id;
    assert FindNode(a.nodes, id) == Some(k);
    assert a.nodes[k := a.nodes[k].(currentTasks := MaxInt(0, a.nodes[k].currentTasks - 1))] == st.nodes;
  }

  // ---------------------------------------------------------------------------

  /** One entry of `queue_details`: id, whether a GPU is required, the priority's
      string value and the creation time. */
  datatype QueueDetail = QueueDetail(id: string, requiresGpu: bool, priority: string, createdAt: int)

  /** One entry of `running_details`: id, assigned node and start time. */
  datatype RunningDetail = RunningDetail(id: string, assignedNode: Option<string>, startedAt: Option<int>)

  function QueueDetailOf(t: InferenceTask): QueueDetail
  {
    QueueDetail(t.id, t.requirements.requiresGpu, t.priority.Value(), t.createdAt)
  }

  function RunningDetailOf(t: InferenceTask): RunningDetail
  {
    RunningDetail(t.id, t.assignedNode, t.startedAt)
  }

  class GpuScheduler {
    var nodes: seq<AgentNode>
    var taskQueue: seq<InferenceTask>
    var runningTasks: map<string, InferenceTask>
    var taskAssignments: map<string, string>

    constructor (registryNodes: seq<AgentNode>)
      ensures nodes == registryNodes
      ensures taskQueue == [] && runningTasks == map[] && taskAssignments == map[]
    {
      nodes := registryNodes;
      taskQueue := [];
      runningTasks := map[];
      taskAssignments := map[];
    }

    /** `submit_task`: rejected (and marked FAILED on the caller's record) when no node
        passes the filter now; otherwise appended to the queue. */
    method SubmitTask(task: InferenceTask) returns (ok: bool, updated: InferenceTask)
      modifies this
      ensures nodes == old(nodes) && runningTasks == old(runningTasks)
      ensures taskAssignments == old(taskAssignments)
      ensures ok <==> exists i :: 0 <= i < |nodes| && MeetsRequirements(nodes[i], task.requirements)
      ensures ok ==> taskQueue == old(taskQueue) + [task] && updated == task
      ensures !ok ==> taskQueue == old(taskQueue)
                      && updated == task.(status := Failed, error := Some("No suitable nodes available"))
    {
      var suitable := FindSuitableNodes(nodes, task.requirements);
      if |suitable| == 0 {
        return false, task.(status := Failed, error := Some("No suitable nodes available"));
      }
      assert suitable[0] in nodes;
      taskQueue := taskQueue + [task];
      return true, task;
    }

    /** `_process_task_queue`: sort, try every task in order against the loads as
        they change, then drop the assigned tasks from the queue. */
    method ProcessTaskQueue(now: int)
      modifies this
      ensures old(taskQueue) == [] ==>
                nodes == old(nodes) && taskQueue == [] && runningTasks == old(runningTasks)
                && taskAssignments == old(taskAssignments)
      ensures old(taskQueue) != [] ==>
                var r := Pass(PassState(old(nodes), old(runningTasks), old(taskAssignments), [], []),
                              SortQueue(old(taskQueue)), now);
                && nodes == r.nodes && taskQueue == r.kept
                && runningTasks == r.running && taskAssignments == r.assignments
    {
      if |taskQueue| == 0 { return; }
      var sorted := SortQueue(taskQueue);
      var r := RunPass(PassState(nodes, runningTasks, taskAssignments, [], []), sorted, now);
      nodes := r.nodes;
      runningTasks := r.running;
      taskAssignments := r.assignments;
      taskQueue := r.kept;
    }

    /** `complete_task`: unknown ids change nothing; otherwise the record is finished,
        the assigned node (if the registry still has it) loses one task, floored at 0,
        and the id leaves both maps. */
    method CompleteTask(taskId: string, result: Option<Payload>, error: Option<string>, now: int)
      returns (finished: Option<InferenceTask>)
      modifies this
      ensures taskQueue == old(taskQueue)
      ensures taskId !in old(runningTasks) ==>
                finished.None? && nodes == old(nodes) && runningTasks == old(runningTasks)
                && taskAssignments == old(taskAssignments)
      ensures taskId in old(runningTasks) ==>
                && finished == Some(Finish(old(runningTasks)[taskId], result, error, now))
                && nodes == Release(old(nodes), if taskId in old(taskAssignments)
                                                then Some(old(taskAssignments)[taskId]) else None)
                && runningTasks == old(runningTasks) - {taskId}
                && taskAssignments == old(taskAssignments) - {taskId}
    {
      if taskId !in runningTasks { return None; }
      var task := runningTasks[taskId];
      var nodeId: Option<string> := if taskId in taskAssignments then Some(taskAssignments[taskId]) else None;
      var done := Finish(task, result, error, now);
      if nodeId.Some? && nodeId.value != "" {
        var k := FindNode(nodes, nodeId.value);
        if k.Some? {
          var node := nodes[k.value];
          nodes := nodes[k.value := node.(currentTasks := MaxInt(0, node.currentTasks - 1))];
        }
      }
      runningTasks := runningTasks - {taskId};
      taskAssignments := taskAssignments - {taskId};
      return Some(done);
    }

    /** `get_queue_status`: the two counts, one detail record per queued task in queue
        order, and one per running task. */
    method GetQueueStatus() returns (queued: nat, running: nat, queueDetails: seq<QueueDetail>,
                                     runningDetails: set<RunningDetail>)
      ensures queued == |taskQueue| && running == |runningTasks|
      ensures |queueDetails| == queued
      ensures forall i :: 0 <= i < |queueDetails| ==> queueDetails[i] == QueueDetailOf(taskQueue[i])
      ensures forall d :: d in runningDetails <==>
                exists id :: id in runningTasks && d == RunningDetailOf(runningTasks[id])
    {
      queued := |taskQueue|;
      running := |runningTasks|;
      queueDetails := [];
      var i := 0;
      while i < |taskQueue|
        invariant 0 <= i <= |taskQueue|
        invariant |queueDetails| == i
        invariant forall j :: 0 <= j < i ==> queueDetails[j] == QueueDetailOf(taskQueue[j])
      {
        queueDetails := queueDetails + [QueueDetailOf(taskQueue[i])];
        i := i + 1;
      }
      runningDetails := set id | id in runningTasks :: RunningDetailOf(runningTasks[id]);
    }
  }
}
