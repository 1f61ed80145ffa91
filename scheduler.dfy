/** The hub's background task scheduler (hub/services/scheduler.py) over the Redis
    registry: which nodes may take work, one dispatch pass, the timeout sweep of
    running tasks, the hourly cleanup counter, task creation and cancellation.
    The simulated dispatch (a random success or failure) is an oracle `outcome`
    from task id to what happened; the scheduler's asyncio loop is left out, each
    operation is one sequential step. */
module TaskScheduling {
  import opened Common
  import HubModels
  import opened Registry

  const MaxTasksPerNode: int := 3
  const TaskTimeout: int := 300
  const CleanupEvery: int := 720
  const CleanupDays: int := 7

  function ErrorResult(msg: string): HubModels.TaskResult
  {
    HubModels.TaskResult(None, None, None, None, Some(msg))
  }

  // ---------------------------------------------------------------------------
  // `_get_available_nodes`.

  /** The running tasks (with a hash) whose `node_id` is `id`. */
  ghost function RunningOn(ks: Keyspace, id: string): set<string>
  {
    set t | t in ks.runningTasks && t in ks.tasks && ks.tasks[t].nodeId == id
  }

  /** Online, and fewer than three running tasks carry its id. */
  ghost predicate IsAvailable(ks: Keyspace, node: (string, NodeRecord))
  {
    node.1.status == Some("online") && |RunningOn(ks, node.0)| < MaxTasksPerNode
  }

  /** The available nodes among `found`, in the order found. */
  ghost function AvailableAmong(ks: Keyspace, found: seq<(string, NodeRecord)>): (r: seq<(string, NodeRecord)>)
    ensures |r| <= |found|
    ensures forall i :: 0 <= i < |r| ==> r[i] in found && IsAvailable(ks, r[i])
    ensures forall x :: x in found && IsAvailable(ks, x) ==> x in r
  {
    if |found| == 0 then []
    else
      var rest := AvailableAmong(ks, found[..|found| - 1]);
      var last := found[|found| - 1];
      assert forall x :: x in found ==> x in found[..|found| - 1] || x == last;
      if IsAvailable(ks, last) then rest + [last] else rest
  }

  /** `len([t for t in listed if t.get("node_id") == id])`. */
  function CountOn(listed: seq<(string, TaskRecord)>, id: string): nat
  {
    if |listed| == 0 then 0
    else CountOn(listed[..|listed| - 1], id) + (if listed[|listed| - 1].1.nodeId == id then 1 else 0)
  }

  function ListedOn(listed: seq<(string, TaskRecord)>, id: string): set<string>
  {
    set i | 0 <= i < |listed| && listed[i].1.nodeId == id :: listed[i].0
  }

  lemma ListedOnSnoc(listed: seq<(string, TaskRecord)>, id: string)
    requires |listed| > 0
    ensures var last := listed[|listed| - 1];
            ListedOn(listed, id)
            == ListedOn(listed[..|listed| - 1], id) + (if last.1.nodeId == id then {last.0} else {})
  {
    var prefix := listed[..|listed| - 1];
    assert forall i :: 0 <= i < |prefix| ==> prefix[i] == listed[i];
  }

  lemma LastNotListedBefore(listed: seq<(string, TaskRecord)>, id: string)
    requires |listed| > 0
    requires forall i, j :: 0 <= i < j < |listed| ==> listed[i].0 != listed[j].0
    ensures listed[|listed| - 1].0 !in ListedOn(listed[..|listed| - 1], id)
  {
  }

  lemma {:induction false} CountOnIsCard(listed: seq<(string, TaskRecord)>, id: string)
    requires forall i, j :: 0 <= i < j < |listed| ==> listed[i].0 != listed[j].0
    ensures CountOn(listed, id) == |ListedOn(listed, id)|
  {
    if |listed| > 0 {
      var prefix := listed[..|listed| - 1];
      assert forall i, j :: 0 <= i < j < |prefix| ==> prefix[i].0 != prefix[j].0;
      CountOnIsCard(prefix, id);
      LastNotListedBefore(listed, id);
      ListedOnSnoc(listed, id);
    }
  }

  /** Counting in any listing of the running set gives the number of running tasks
      on the node. */
  lemma CountOnListing(ks: Keyspace, listed: seq<(string, TaskRecord)>, id: string)
    requires forall i :: 0 <= i < |listed| ==>
               listed[i].0 in ks.runningTasks && listed[i].0 in ks.tasks
               && listed[i].1 == ks.tasks[listed[i].0]
    requires forall t :: t in ks.runningTasks && t in ks.tasks ==>
               exists i :: 0 <= i < |listed| && listed[i].0 == t
    requires forall i, j :: 0 <= i < j < |listed| ==> listed[i].0 != listed[j].0
    ensures CountOn(listed, id) == |RunningOn(ks, id)|
  {
    CountOnIsCard(listed, id);
    assert ListedOn(listed, id) == RunningOn(ks, id);
  }

  // ---------------------------------------------------------------------------
  // Dispatch: `_assign_task_to_node` and `_send_task_to_node`.

  /** What the simulated send did: completed with a result, or the simulated
      failure. The send catches its own exceptions and marks the task failed, but
      nothing in its `try` can raise: the node has an "id" (read before the send)
      and every registry write catches its own errors and answers False.
      `Raised` is an exception escaping the send's failure handler, which only that
      handler's logging could throw; it is the one way to reach the handler of
      `_assign_task_to_node` that sets the task back to "pending", a path the code
      has rather than one expected in practice. */
  datatype Dispatch = Succeeded(output: string, processingTime: real, tokens: int)
                    | SimulatedFailure
                    | Raised

  /** The registry after assigning task `id` to node `nodeId`: it is set running on
      the node, then the send's outcome is recorded; an exception escaping the send
      (`Raised`) sets the status back to "pending". */
  function AssignSpec(ks: Keyspace, id: string, nodeId: string, now: int, d: Dispatch): Keyspace
  {
    if id !in ks.tasks then ks
    else
      var ks1 := UpdateTaskStatusSpec(ks, id, "running", Some(nodeId), None, now).0;
      match d
      case Succeeded(out, time, tokens) =>
        UpdateTaskStatusSpec(ks1, id, "completed", Some(nodeId),
                             Some(HubModels.TaskResult(Some(out), Some(tokens), Some(time), None, None)), now).0
      case SimulatedFailure =>
        UpdateTaskStatusSpec(ks1, id, "failed", Some(nodeId), Some(ErrorResult("Simulated task failure")), now).0
      case Raised =>
        UpdateTaskStatusSpec(ks1, id, "pending", None, None, now).0
  }

  /** An assignment touches only that task's hash (and the node's counters): it
      leaves the pending queue and records the node; a completed send completes it,
      the simulated failure fails it, and after an exception it reads "pending" again
      yet is neither back in the queue nor out of the running set. A task without a
      hash is skipped. */
  lemma AssignSpecEffects(ks: Keyspace, id: string, nodeId: string, now: int, d: Dispatch)
    ensures id !in ks.tasks ==> AssignSpec(ks, id, nodeId, now, d) == ks
    ensures var ks' := AssignSpec(ks, id, nodeId, now, d);
            id in ks.tasks ==>
              && ks'.tasks.Keys == ks.tasks.Keys
              && (forall x :: x in ks.tasks && x != id ==> ks'.tasks[x] == ks.tasks[x])
              && ks'.pendingTasks == ks.pendingTasks - {id}
              && ks'.allTasks == ks.allTasks
              && (nodeId != "" ==> ks'.tasks[id].nodeId == nodeId)
              && (d.Succeeded? ==> ks'.tasks[id].status == "completed" && id in ks'.completedTasks
                                   && id !in ks'.runningTasks)
              && (d.SimulatedFailure? ==> ks'.tasks[id].status == "failed" && id in ks'.failedTasks
                                          && id !in ks'.runningTasks)
              && (d.Raised? ==> ks'.tasks[id].status == "pending" && id in ks'.runningTasks)
  {
  }

  /** One pass of `_process_pending_tasks` over the available nodes: each node takes
      the current head of the queue, until the queue is empty (an empty id also ends
      the pass, being falsy). */
  ghost function PassSpec(ks: Keyspace, nodes: seq<(string, NodeRecord)>, now: int,
                          outcome: string -> Dispatch): Keyspace
    decreases |nodes|
  {
    if |nodes| == 0 then ks
    else
      match Head(ks.pendingTasks)
      case None => ks
      case Some(id) =>
        if id == "" then ks
        else PassSpec(AssignSpec(ks, id, nodes[0].0, now, outcome(id)), nodes[1..], now, outcome)
  }

  /** Every queued id has a hash and is non-empty. */
  ghost predicate QueueWellFormed(ks: Keyspace)
  {
    forall id :: id in ks.pendingTasks ==> id in ks.tasks && id != ""
  }

  /** On a well-formed queue a pass takes exactly min(#nodes, #pending) tasks off the
      queue, one per node, and adds none. */
  lemma {:induction false} PassTakesOnePerNode(ks: Keyspace, nodes: seq<(string, NodeRecord)>, now: int,
                                               outcome: string -> Dispatch)
    requires QueueWellFormed(ks)
    ensures var ks' := PassSpec(ks, nodes, now, outcome);
            && ks'.pendingTasks.Keys <= ks.pendingTasks.Keys
            && |ks.pendingTasks| - |ks'.pendingTasks| == MinInt(|nodes|, |ks.pendingTasks|)
            && ks'.tasks.Keys == ks.tasks.Keys
    decreases |nodes|
  {
    if |nodes| > 0 && |ks.pendingTasks| > 0 {
      var id := Head(ks.pendingTasks).value;
      var ks1 := AssignSpec(ks, id, nodes[0].0, now, outcome(id));
      AssignSpecEffects(ks, id, nodes[0].0, now, outcome(id));
      assert ks1.pendingTasks.Keys == ks.pendingTasks.Keys - {id};
      assert |ks1.pendingTasks| == |ks.pendingTasks| - 1;
      PassTakesOnePerNode(ks1, nodes[1..], now, outcome);
    }
  }

  /** A queued id whose hash is gone (a task deleted by the cleanup while still
      queued) blocks the queue when it is the head: `get_pending_task` returns it to
      every node, the assignment finds no task, and the pass changes nothing. */
  lemma HeadWithoutHashBlocksQueue(ks: Keyspace, nodes: seq<(string, NodeRecord)>, now: int,
                                   outcome: string -> Dispatch)
    requires Head(ks.pendingTasks).Some? && Head(ks.pendingTasks).value !in ks.tasks
    ensures PassSpec(ks, nodes, now, outcome) == ks
    decreases |nodes|
  {
    if |nodes| > 0 && Head(ks.pendingTasks).value != "" {
      HeadWithoutHashBlocksQueue(ks, nodes[1..], now, outcome);
    }
  }

  /** A task that is not queued keeps its hash through a pass. */
  lemma {:induction false} PassLeavesUnqueued(ks: Keyspace, nodes: seq<(string, NodeRecord)>, now: int,
                                              outcome: string -> Dispatch, id: string)
    requires id !in ks.pendingTasks && id in ks.tasks
    ensures var ks' := PassSpec(ks, nodes, now, outcome);
            id in ks'.tasks && ks'.tasks[id] == ks.tasks[id]
    decreases |nodes|
  {
    if |nodes| > 0 && |ks.pendingTasks| > 0 {
      var h := Head(ks.pendingTasks).value;
      if h != "" {
        AssignSpecEffects(ks, h, nodes[0].0, now, outcome(h));
        PassLeavesUnqueued(AssignSpec(ks, h, nodes[0].0, now, outcome(h)), nodes[1..], now, outcome, id);
      }
    }
  }

  // ---------------------------------------------------------------------------
  // `_check_running_tasks`.

  /** A listing of the running set as `get_tasks_by_status("running")` returns it. */
  ghost predicate IsRunningListing(ks: Keyspace, listed: seq<(string, TaskRecord)>)
  {
    && (forall i :: 0 <= i < |listed| ==>
          listed[i].0 in ks.runningTasks && listed[i].0 in ks.tasks && listed[i].1 == ks.tasks[listed[i].0])
    && (forall t :: t in ks.runningTasks && t in ks.tasks ==>
          exists i :: 0 <= i < |listed| && listed[i].0 == t)
    && (forall i, j :: 0 <= i < j < |listed| ==> listed[i].0 != listed[j].0)
  }

  /** Timed out: created (not started) more than 300 s ago. */
  predicate TimedOut(rec: TaskRecord, now: int)
  {
    now - rec.createdAt > TaskTimeout
  }

  /** The sweep over the listed tasks: each timed-out one is failed with "Task
      timeout" on the node it records. */
  function TimeoutSweep(ks: Keyspace, listed: seq<(string, TaskRecord)>, now: int): Keyspace
  {
    if |listed| == 0 then ks
    else
      var ks1 := TimeoutSweep(ks, listed[..|listed| - 1], now);
      var t := listed[|listed| - 1];
      if TimedOut(t.1, now) then FailTimedOut(ks1, t, now) else ks1
  }

  /** One task of the sweep failed with the timeout error. */
  function FailTimedOut(ks: Keyspace, t: (string, TaskRecord), now: int): Keyspace
  {
    UpdateTaskStatusSpec(ks, t.0, "failed", Some(t.1.nodeId), Some(ErrorResult("Task timeout")), now).0
  }

  /** Failing a task for the timeout changes its hash and its sets only. */
  lemma FailTimedOutEffects(ks: Keyspace, t: (string, TaskRecord), now: int)
    requires t.0 in ks.tasks
    ensures var ks' := FailTimedOut(ks, t, now);
            && ks'.tasks.Keys == ks.tasks.Keys && ks'.pendingTasks == ks.pendingTasks
            && ks'.tasks[t.0].status == "failed" && ks'.tasks[t.0].result == Some(ErrorResult("Task timeout"))
            && t.0 !in ks'.runningTasks && t.0 in ks'.failedTasks
            && ks.failedTasks <= ks'.failedTasks && ks'.runningTasks <= ks.runningTasks
            && forall x :: x in ks.tasks && x != t.0 ==>
                 ks'.tasks[x] == ks.tasks[x] && (x in ks'.runningTasks <==> x in ks.runningTasks)
  {
    UpdateTaskStatusEffects(ks, t.0, "failed", Some(t.1.nodeId), Some(ErrorResult("Task timeout")), now);
  }

  /** The sweep keeps the task keys and the pending queue, only ever adds to the
      failed set and only ever takes from the running set. */
  lemma {:induction false} TimeoutSweepKeeps(ks: Keyspace, listed: seq<(string, TaskRecord)>, now: int)
    requires forall i :: 0 <= i < |listed| ==> listed[i].0 in ks.tasks
    ensures var ks' := TimeoutSweep(ks, listed, now);
            && ks'.tasks.Keys == ks.tasks.Keys && ks'.pendingTasks == ks.pendingTasks
            && ks.failedTasks <= ks'.failedTasks && ks'.runningTasks <= ks.runningTasks
  {
    if |listed| > 0 {
      var prefix := listed[..|listed| - 1];
      assert forall i :: 0 <= i < |prefix| ==> prefix[i] == listed[i];
      TimeoutSweepKeeps(ks, prefix, now);
      var t := listed[|listed| - 1];
      if TimedOut(t.1, now) {
        FailTimedOutEffects(TimeoutSweep(ks, prefix, now), t, now);
      }
    }
  }

  /** Tasks the sweep does not fail keep their hash and their place in the running
      set. */
  lemma {:induction false} TimeoutSweepLeaves(ks: Keyspace, listed: seq<(string, TaskRecord)>, now: int, x: string)
    requires forall i :: 0 <= i < |listed| ==> listed[i].0 in ks.tasks
    requires x in ks.tasks
    requires forall i :: 0 <= i < |listed| && TimedOut(listed[i].1, now) ==> listed[i].0 != x
    ensures var ks' := TimeoutSweep(ks, listed, now);
            x in ks'.tasks && ks'.tasks[x] == ks.tasks[x] && (x in ks'.runningTasks <==> x in ks.runningTasks)
  {
    if |listed| > 0 {
      var prefix := listed[..|listed| - 1];
      assert forall i :: 0 <= i < |prefix| ==> prefix[i] == listed[i];
      TimeoutSweepLeaves(ks, prefix, now, x);
      TimeoutSweepKeeps(ks, prefix, now);
      var t := listed[|listed| - 1];
      if TimedOut(t.1, now) {
        FailTimedOutEffects(TimeoutSweep(ks, prefix, now), t, now);
      }
    }
  }

  /** Over distinct hashes, a listed task that timed out ends failed with the timeout
      error and out of the running set. */
  lemma {:induction false} TimeoutSweepFails(ks: Keyspace, listed: seq<(string, TaskRecord)>, now: int, i: nat)
    requires forall i :: 0 <= i < |listed| ==> listed[i].0 in ks.tasks
    requires forall i, j :: 0 <= i < j < |listed| ==> listed[i].0 != listed[j].0
    requires i < |listed| && TimedOut(listed[i].1, now)
    ensures var ks' := TimeoutSweep(ks, listed, now);
            && listed[i].0 in ks'.tasks
            && ks'.tasks[listed[i].0].status == "failed"
            && ks'.tasks[listed[i].0].result == Some(ErrorResult("Task timeout"))
            && listed[i].0 !in ks'.runningTasks && listed[i].0 in ks'.failedTasks
  {
    var prefix := listed[..|listed| - 1];
    assert forall i :: 0 <= i < |prefix| ==> prefix[i] == listed[i];
    var t := listed[|listed| - 1];
    var ks1 := TimeoutSweep(ks, prefix, now);
    TimeoutSweepKeeps(ks, prefix, now);
    if i < |prefix| {
      TimeoutSweepFails(ks, prefix, now, i);
      if TimedOut(t.1, now) {
        FailTimedOutEffects(ks1, t, now);
      }
    } else {
      FailTimedOutEffects(ks1, t, now);
    }
  }

  /** After the sweep over a listing of distinct task hashes, each listed task that
      timed out is failed with the timeout error and out of the running set; every
      other task keeps its hash and its place in the running set. */
  lemma TimeoutSweepPrefix(ks: Keyspace, listed: seq<(string, TaskRecord)>, now: int)
    requires forall i :: 0 <= i < |listed| ==> listed[i].0 in ks.tasks && listed[i].1 == ks.tasks[listed[i].0]
    requires forall i, j :: 0 <= i < j < |listed| ==> listed[i].0 != listed[j].0
    ensures var ks' := TimeoutSweep(ks, listed, now);
            && ks'.tasks.Keys == ks.tasks.Keys && ks'.pendingTasks == ks.pendingTasks
            && (forall i :: 0 <= i < |listed| && TimedOut(listed[i].1, now) ==>
                  ks'.tasks[listed[i].0].status == "failed"
                  && ks'.tasks[listed[i].0].result == Some(ErrorResult("Task timeout"))
                  && listed[i].0 !in ks'.runningTasks && listed[i].0 in ks'.failedTasks)
            && (forall t :: t in ks.tasks && (forall i :: 0 <= i < |listed| && TimedOut(listed[i].1, now) ==> listed[i].0 != t) ==>
                  ks'.tasks[t] == ks.tasks[t] && (t in ks'.runningTasks <==> t in ks.runningTasks))
  {
    TimeoutSweepKeeps(ks, listed, now);
    forall i | 0 <= i < |listed| && TimedOut(listed[i].1, now)
      ensures var ks' := TimeoutSweep(ks, listed, now);
              && ks'.tasks[listed[i].0].status == "failed"
              && ks'.tasks[listed[i].0].result == Some(ErrorResult("Task timeout"))
              && listed[i].0 !in ks'.runningTasks && listed[i].0 in ks'.failedTasks
    {
      TimeoutSweepFails(ks, listed, now, i);
    }
    forall t | t in ks.tasks && (forall i :: 0 <= i < |listed| && TimedOut(listed[i].1, now) ==> listed[i].0 != t)
      ensures var ks' := TimeoutSweep(ks, listed, now);
              ks'.tasks[t] == ks.tasks[t] && (t in ks'.runningTasks <==> t in ks.runningTasks)
    {
      TimeoutSweepLeaves(ks, listed, now, t);
    }
  }

  /** Every running task created more than 300 s ago ends failed with "Task timeout"
      and out of the running set; every other running task is left as it was. */
  lemma TimeoutSweepEffects(ks: Keyspace, listed: seq<(string, TaskRecord)>, now: int)
    requires IsRunningListing(ks, listed)
    ensures var ks' := TimeoutSweep(ks, listed, now);
            && ks'.tasks.Keys == ks.tasks.Keys
            && forall t :: t in ks.runningTasks && t in ks.tasks ==>
              && (TimedOut(ks.tasks[t], now) ==>
                    ks'.tasks[t].status == "failed" && ks'.tasks[t].result == Some(ErrorResult("Task timeout"))
                    && t !in ks'.runningTasks && t in ks'.failedTasks)
              && (!TimedOut(ks.tasks[t], now) ==> ks'.tasks[t] == ks.tasks[t] && t in ks'.runningTasks)
  {
    TimeoutSweepPrefix(ks, listed, now);
    var ks' := TimeoutSweep(ks, listed, now);
    forall t | t in ks.runningTasks && t in ks.tasks
      ensures TimedOut(ks.tasks[t], now) ==>
                ks'.tasks[t].status == "failed" && ks'.tasks[t].result == Some(ErrorResult("Task timeout"))
                && t !in ks'.runningTasks && t in ks'.failedTasks
      ensures !TimedOut(ks.tasks[t], now) ==> ks'.tasks[t] == ks.tasks[t] && t in ks'.runningTasks
    {
      var i :| 0 <= i < |listed| && listed[i].0 == t;
      if !TimedOut(ks.tasks[t], now) {
        assert forall j :: 0 <= j < |listed| && TimedOut(listed[j].1, now) ==> listed[j].0 != t;
      }
    }
  }

  // ---------------------------------------------------------------------------
  // `_cleanup_old_tasks`: a counter that fires the registry cleanup every 720th call.

  /** One call: the new counter, and whether the cleanup ran. */
  function CleanupTick(counter: int): (int, bool)
  {
    if counter + 1 >= CleanupEvery then (0, true) else (counter + 1, false)
  }

  /** The counter after `n` calls, starting from the implicit 0. */
  function CounterAfter(n: nat): int
  {
    if n == 0 then 0 else CleanupTick(CounterAfter(n - 1)).0
  }

  /** After n calls the counter is n mod 720, and the n-th call runs the cleanup
      exactly when n is a multiple of 720. */
  lemma {:induction false} CleanupEvery720(n: nat)
    ensures CounterAfter(n) == n % CleanupEvery
    ensures n >= 1 ==> (CleanupTick(CounterAfter(n - 1)).1 <==> n % CleanupEvery == 0)
  {
    if n >= 1 {
      CleanupEvery720(n - 1);
    }
  }

  // ---------------------------------------------------------------------------
  // Cancellation.

  /** `cancel_task` as written: a pending task is set "failed" with the cancellation
      error, which does not take it off the pending queue. */
  function CancelAsWrittenSpec(ks: Keyspace, id: string, now: int): (Keyspace, bool)
  {
    if id !in ks.tasks then (ks, false)
    else if ks.tasks[id].status != "pending" then (ks, false)
    else (UpdateTaskStatusSpec(ks, id, "failed", None, Some(ErrorResult("Task cancelled by user")), now).0, true)
  }

  /** The cancellation evidently intended: the same, and the task also leaves the
      pending queue. */
  function CancelSpec(ks: Keyspace, id: string, now: int): (Keyspace, bool)
  {
    var (ks1, ok) := CancelAsWrittenSpec(ks, id, now);
    if ok then (ks1.(pendingTasks := ks1.pendingTasks - {id}), true) else (ks1, false)
  }

  /** As written, a cancelled task at the head of the queue stays there and the next
      pass hands it to a node, which runs it; after a completed send it reads
      "completed". */
  lemma CancelledTaskIsStillDispatched(ks: Keyspace, id: string, now: int, node: (string, NodeRecord),
                                       later: int, outcome: string -> Dispatch)
    requires id in ks.tasks && ks.tasks[id].status == "pending" && id != ""
    requires IsTop(ks.pendingTasks, id)
    requires node.0 != ""
    ensures var (ks1, ok) := CancelAsWrittenSpec(ks, id, now);
            && ok && ks1.tasks[id].status == "failed" && id in ks1.pendingTasks
            && Head(ks1.pendingTasks) == Some(id)
            && var ks2 := PassSpec(ks1, [node], later, outcome);
               && id in ks2.tasks && ks2.tasks[id].nodeId == node.0
               && (outcome(id).Succeeded? ==> ks2.tasks[id].status == "completed")
  {
    var ks1 := CancelAsWrittenSpec(ks, id, now).0;
    assert ks1.pendingTasks == ks.pendingTasks;
    TopUnique(ks1.pendingTasks, id, Head(ks1.pendingTasks).value);
    AssignSpecEffects(ks1, id, node.0, later, outcome(id));
    assert [node][1..] == [];
  }

  /** Corrected, a cancelled task is off the queue, and no later pass touches it. */
  lemma CancelledTaskIsNeverDispatched(ks: Keyspace, id: string, now: int,
                                       nodes: seq<(string, NodeRecord)>, later: int, outcome: string -> Dispatch)
    ensures var (ks1, ok) := CancelSpec(ks, id, now);
            && (ok <==> id in ks.tasks && ks.tasks[id].status == "pending")
            && (!ok ==> ks1 == ks)
            && (ok ==> && id !in ks1.pendingTasks && ks1.tasks[id].status == "failed"
                       && ks1.tasks[id].result == Some(ErrorResult("Task cancelled by user"))
                       && id in PassSpec(ks1, nodes, later, outcome).tasks
                       && PassSpec(ks1, nodes, later, outcome).tasks[id] == ks1.tasks[id])
  {
    var (ks1, ok) := CancelSpec(ks, id, now);
    if ok {
      PassLeavesUnqueued(ks1, nodes, later, outcome, id);
    }
  }

  // ---------------------------------------------------------------------------

  class TaskScheduler {
    var running: bool
    var cleanupCounter: int

    constructor ()
      ensures !running && cleanupCounter == 0
    {
      running := false;
      cleanupCounter := 0;
    }

    /** `start` (the background loop itself is not modelled): a second start is a
        no-op. */
    method Start()
      modifies this
      ensures running && cleanupCounter == old(cleanupCounter)
    {
      if running {
        return;
      }
      running := true;
    }

    method Stop()
      modifies this
      ensures !running && cleanupCounter == old(cleanupCounter)
    {
      running := false;
    }

    /** `_get_available_nodes`, with `order` the iteration order of `active_nodes`. */
    method GetAvailableNodes(reg: RedisRegistry, order: seq<string>, now: int)
      returns (avail: seq<(string, NodeRecord)>)
      modifies reg
      requires Distinct(order) && forall id :: id in order <==> id in reg.db.activeNodes
      ensures var (ks', found) := AllNodesSpec(old(reg.db), order, now);
              reg.db == ks' && avail == AvailableAmong(ks', found)
    {
      var found := reg.GetAllNodes(order, now);
      ghost var ks := reg.db;
      avail := [];
      var i := 0;
      while i < |found|
        invariant 0 <= i <= |found|
        invariant reg.db == ks
        invariant avail == AvailableAmong(ks, found[..i])
      {
        assert found[..i + 1][..i] == found[..i];
        if found[i].1.status == Some("online") {
          var listed := reg.GetTasksByStatus("running");
          CountOnListing(ks, listed, found[i].0);
          if CountOn(listed, found[i].0) < MaxTasksPerNode {
            avail := avail + [found[i]];
          }
        }
        i := i + 1;
      }
      assert found[..i] == found;
    }

    /** `_assign_task_to_node` together with the simulated send. */
    method AssignTaskToNode(reg: RedisRegistry, id: string, nodeId: string, now: int, d: Dispatch)
      modifies reg
      ensures reg.db == AssignSpec(old(reg.db), id, nodeId, now, d)
    {
      var task := reg.GetTask(id);
      if task.None? {
        return;
      }
      var ok := reg.UpdateTaskStatus(id, "running", Some(nodeId), None, now);
      if !ok {
        return;
      }
      match d {
        case Succeeded(out, time, tokens) =>
          ok := reg.UpdateTaskStatus(id, "completed", Some(nodeId),
                                     Some(HubModels.TaskResult(Some(out), Some(tokens), Some(time), None, None)), now);
        case SimulatedFailure =>
          ok := reg.UpdateTaskStatus(id, "failed", Some(nodeId), Some(ErrorResult("Simulated task failure")), now);
        case Raised =>
          ok := reg.UpdateTaskStatus(id, "pending", None, None, now);
      }
    }

    /** `_process_pending_tasks`: the available nodes are listed first; then, while
        the scheduler runs, each takes the head of the queue. */
    method ProcessPendingTasks(reg: RedisRegistry, order: seq<string>, now: int, outcome: string -> Dispatch)
      modifies reg
      requires Distinct(order) && forall id :: id in order <==> id in reg.db.activeNodes
      ensures var (ks', found) := AllNodesSpec(old(reg.db), order, now);
              reg.db == (if running then PassSpec(ks', AvailableAmong(ks', found), now, outcome) else ks')
    {
      var avail := GetAvailableNodes(reg, order, now);
      if |avail| == 0 {
        return;
      }
      ghost var target := if running then PassSpec(reg.db, avail, now, outcome) else reg.db;
      var i := 0;
      while i < |avail|
        invariant 0 <= i <= |avail|
        invariant (if running then PassSpec(reg.db, avail[i..], now, outcome) else reg.db) == target
      {
        if !running {
          break;
        }
        var t := reg.GetPendingTask();
        if t.None? || t.value == "" {
          break;
        }
        assert avail[i..][1..] == avail[i + 1..];
        AssignTaskToNode(reg, t.value, avail[i].0, now, outcome(t.value));
        i := i + 1;
      }
    }

    /** `_check_running_tasks`: the running tasks are listed, then each timed-out
        one is failed (nothing happens once the scheduler is stopped). */
    method CheckRunningTasks(reg: RedisRegistry, now: int)
      modifies reg
      ensures exists listed :: IsRunningListing(old(reg.db), listed)
                && reg.db == (if running then TimeoutSweep(old(reg.db), listed, now) else old(reg.db))
    {
      var listed := reg.GetTasksByStatus("running");
      ghost var ks := reg.db;
      assert IsRunningListing(ks, listed);
      var i := 0;
      while i < |listed|
        invariant 0 <= i <= |listed|
        invariant reg.db == (if running then TimeoutSweep(ks, listed[..i], now) else ks)
      {
        if !running {
          break;
        }
        assert listed[..i + 1][..i] == listed[..i];
        var t := listed[i];
        if TimedOut(t.1, now) {
          var ok := reg.UpdateTaskStatus(t.0, "failed", Some(t.1.nodeId), Some(ErrorResult("Task timeout")), now);
        }
        i := i + 1;
      }
      if running {
        assert listed[..i] == listed;
      }
    }

    /** `_cleanup_old_tasks`: every 720th call deletes the finished tasks older than
        seven days and resets the counter. */
    method CleanupOldTasks(reg: RedisRegistry, now: int)
      modifies this, reg
      ensures (cleanupCounter, old(cleanupCounter) + 1 >= CleanupEvery) == CleanupTick(old(cleanupCounter))
      ensures running == old(running)
      ensures reg.db == (if old(cleanupCounter) + 1 >= CleanupEvery
                         then CleanupSpec(old(reg.db), now - CleanupDays * DaySeconds).0 else old(reg.db))
    {
      cleanupCounter := cleanupCounter + 1;
      if cleanupCounter >= CleanupEvery {
        var cleaned := reg.CleanupOldTasks(CleanupDays, now);
        cleanupCounter := 0;
      }
    }

    /** `create_task` as written: the task is built, but the registry cannot store
        it, so every call raises and nothing is stored. */
    method CreateTaskAsWritten(reg: RedisRegistry, id: string, model: string, input: HubModels.TaskInput,
                               priority: int, now: int) returns (r: Result<string>)
      ensures r.Err?
    {
      if !HubModels.ValidTaskInput(input) {
        return Err("invalid input_data");
      }
      var task := HubModels.MakeTask(id, Some(HubModels.Pending), model, input, Some(priority));
      if task.Err? {
        return Err(task.msg);
      }
      var (_, ok) := Registry.CreateTaskAsWritten(reg.db, task.value, now);
      if ok {
        return Ok(id);
      }
      return Err("Failed to create task");
    }

    /** `create_task` once the registry can store the task: a valid request yields
        the fresh id (`id` stands for the generated uuid) of a stored pending task. */
    method CreateTask(reg: RedisRegistry, id: string, model: string, input: HubModels.TaskInput,
                      priority: int, now: int) returns (r: Result<string>)
      modifies reg
      ensures r.Ok? <==> HubModels.ValidTaskInput(input) && 1 <= priority <= 10
      ensures r.Ok? ==> r.value == id
                        && var task := HubModels.MakeTask(id, Some(HubModels.Pending), model, input, Some(priority));
                           task.Ok? && reg.db == CreateTaskSpec(old(reg.db), task.value, now)
      ensures r.Err? ==> reg.db == old(reg.db)
    {
      if !HubModels.ValidTaskInput(input) {
        return Err("invalid input_data");
      }
      var task := HubModels.MakeTask(id, Some(HubModels.Pending), model, input, Some(priority));
      if task.Err? {
        return Err(task.msg);
      }
      var ok := reg.CreateTask(task.value, now);
      if ok {
        return Ok(id);
      }
      return Err("Failed to create task");
    }

    /** `cancel_task` as written. */
    method CancelTaskAsWritten(reg: RedisRegistry, id: string, now: int) returns (ok: bool)
      modifies reg
      ensures (reg.db, ok) == CancelAsWrittenSpec(old(reg.db), id, now)
    {
      var task := reg.GetTask(id);
      if task.None? {
        return false;
      }
      if task.value.status == "pending" {
        ok := reg.UpdateTaskStatus(id, "failed", None, Some(ErrorResult("Task cancelled by user")), now);
        return true;
      }
      return false;
    }

    /** `cancel_task` with the cancelled task also taken off the pending queue. */
    method CancelTask(reg: RedisRegistry, id: string, now: int) returns (ok: bool)
      modifies reg
      ensures (reg.db, ok) == CancelSpec(old(reg.db), id, now)
    {
      ok := CancelTaskAsWritten(reg, id, now);
      if ok {
        reg.db := reg.db.(pendingTasks := reg.db.pendingTasks - {id});
      }
    }
  }
}
