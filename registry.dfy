/** The Redis-backed registry of nodes and tasks (hub/services/registry.py).

    The Redis server's keyspace is the value `Keyspace`: one hash per node
    (`node:{id}`), one hash per task (`task:{id}`), the sets `active_nodes`,
    `running_tasks`, `completed_tasks`, `failed_tasks`, `all_tasks` and the sorted
    set `pending_tasks` (member -> score). Time is whole seconds passed as `now`; a
    node hash carries the instant its 24-hour expiry falls due and counts as absent
    from then on. Each registry operation is a transition function on the keyspace,
    and the class `RedisRegistry` performs it command by command on its one field. */
module Registry {
  import opened Common
  import HubModels

  const HeartbeatTimeout: int := 30
  const NodeTtl: int := 86400
  const DaySeconds: int := 86400

  /** A node hash. Fields that were never written are None; the two counters read as
      0 when absent, which is also what HINCRBY starts from. */
  datatype NodeRecord = NodeRecord(
    status: Option<string>,
    capabilities: Option<HubModels.NodeCapabilities>,
    lastHeartbeat: Option<int>,
    registeredAt: Option<int>,
    tasksCompleted: int,
    tasksFailed: int,
    currentLoad: Option<real>,
    activeTasks: Option<int>,
    expiresAt: Option<int>)

  function EmptyNodeRecord(): NodeRecord
  {
    NodeRecord(None, None, None, None, 0, 0, None, None, None)
  }

  /** A task hash; `nodeId` is "" when no node was recorded. */
  datatype TaskRecord = TaskRecord(
    status: string,
    model: string,
    input: HubModels.TaskInput,
    nodeId: string,
    createdAt: int,
    updatedAt: int,
    priority: int,
    result: Option<HubModels.TaskResult>,
    completedAt: Option<int>)

  datatype Keyspace = Keyspace(
    nodes: map<string, NodeRecord>,
    tasks: map<string, TaskRecord>,
    activeNodes: set<string>,
    pendingTasks: map<string, int>,
    runningTasks: set<string>,
    completedTasks: set<string>,
    failedTasks: set<string>,
    allTasks: set<string>)

  function EmptyKeyspace(): Keyspace
  {
    Keyspace(map[], map[], {}, map[], {}, {}, {}, {})
  }

  // ---------------------------------------------------------------------------
  // Node hashes.

  /** The hash exists and its expiry has not fallen due. */
  predicate Live(ks: Keyspace, id: string, now: int)
  {
    id in ks.nodes && (ks.nodes[id].expiresAt.None? || now < ks.nodes[id].expiresAt.value)
  }

  /** What HSET or HINCRBY starts from: the live hash, or an empty one. */
  function NodeHash(ks: Keyspace, id: string, now: int): NodeRecord
  {
    if Live(ks, id, now) then ks.nodes[id] else EmptyNodeRecord()
  }

  /** `get_node` returns data only for a live hash whose heartbeat parses. */
  predicate HasData(ks: Keyspace, id: string, now: int)
  {
    Live(ks, id, now) && ks.nodes[id].lastHeartbeat.Some?
  }

  predicate Stale(rec: NodeRecord, now: int)
    requires rec.lastHeartbeat.Some?
  {
    now - rec.lastHeartbeat.value > HeartbeatTimeout
  }

  /** The record as `get_node` reports it: "offline" once the heartbeat is stale. */
  function Reported(rec: NodeRecord, now: int): NodeRecord
    requires rec.lastHeartbeat.Some?
  {
    if Stale(rec, now) then rec.(status := Some("offline")) else rec
  }

  /** `register_node`. The hash keeps any field it already had (HSET merges), and
      its expiry is reset. */
  function RegisterNodeSpec(ks: Keyspace, node: HubModels.Node, now: int): Keyspace
  {
    var rec := NodeHash(ks, node.id, now).(
      status := Some(node.status.Value()), capabilities := node.capabilities,
      lastHeartbeat := Some(now), registeredAt := Some(now),
      tasksCompleted := 0, tasksFailed := 0, expiresAt := Some(now + NodeTtl));
    ks.(nodes := ks.nodes[node.id := rec], activeNodes := ks.activeNodes + {node.id})
  }

  /** `update_node_heartbeat`. */
  function HeartbeatSpec(ks: Keyspace, id: string, now: int): (Keyspace, bool)
  {
    if !Live(ks, id, now) then (ks, false)
    else
      var rec := ks.nodes[id].(lastHeartbeat := Some(now), status := Some("online"),
                               expiresAt := Some(now + NodeTtl));
      (ks.(nodes := ks.nodes[id := rec]), true)
  }

  /** `get_node`: a stale heartbeat is reported, and stored, as "offline". */
  function GetNodeSpec(ks: Keyspace, id: string, now: int): (Keyspace, Option<NodeRecord>)
  {
    if !HasData(ks, id, now) then (ks, None)
    else
      var rec := ks.nodes[id];
      if Stale(rec, now) then
        var off := Reported(rec, now);
        (ks.(nodes := ks.nodes[id := off]), Some(off))
      else (ks, Some(rec))
  }

  /** `remove_node`. */
  function RemoveNodeSpec(ks: Keyspace, id: string): Keyspace
  {
    ks.(nodes := ks.nodes - {id}, activeNodes := ks.activeNodes - {id})
  }

  /** Registering stores the given status, a fresh heartbeat and zero counters, and
      lists the node as active; the node then reads back with that status for the
      next 30 s; no other node's hash changes and the task side is untouched. */
  lemma RegisterThenGet(ks: Keyspace, node: HubModels.Node, now: int, later: int)
    requires now <= later <= now + HeartbeatTimeout
    ensures var ks' := RegisterNodeSpec(ks, node, now);
            && node.id in ks'.activeNodes
            && GetNodeSpec(ks', node.id, later).1.Some?
            && var rec := GetNodeSpec(ks', node.id, later).1.value;
               && rec.status == Some(node.status.Value()) && rec.lastHeartbeat == Some(now)
               && rec.tasksCompleted == 0 && rec.tasksFailed == 0
               && rec.capabilities == node.capabilities
    ensures var ks' := RegisterNodeSpec(ks, node, now);
            && (forall id :: id != node.id && id in ks.nodes ==> id in ks'.nodes && ks'.nodes[id] == ks.nodes[id])
            && ks'.tasks == ks.tasks && ks'.pendingTasks == ks.pendingTasks
  {
  }

  /** A heartbeat succeeds exactly for a live node; afterwards the node reads back
      "online" for 30 s and "offline" after that, until its hash expires a day later.
      A failed heartbeat changes nothing. */
  lemma HeartbeatThenGet(ks: Keyspace, id: string, now: int, later: int)
    requires now <= later
    ensures HeartbeatSpec(ks, id, now).1 <==> Live(ks, id, now)
    ensures !HeartbeatSpec(ks, id, now).1 ==> HeartbeatSpec(ks, id, now).0 == ks
    ensures var ks' := HeartbeatSpec(ks, id, now).0;
            HeartbeatSpec(ks, id, now).1 ==>
              && (later < now + NodeTtl <==> GetNodeSpec(ks', id, later).1.Some?)
              && (later < now + NodeTtl ==>
                    GetNodeSpec(ks', id, later).1.value.status
                    == Some(if later - now > HeartbeatTimeout then "offline" else "online"))
  {
  }

  /** `get_node` finds data iff the hash is live and has a heartbeat; it reports
      "offline" iff that heartbeat is more than 30 s old and otherwise the stored status;
      only that status field is written; and asking twice gives the same answer and the
      same keyspace as asking once. */
  lemma GetNodeCharacterized(ks: Keyspace, id: string, now: int)
    ensures var (ks', r) := GetNodeSpec(ks, id, now);
            && (r.Some? <==> HasData(ks, id, now))
            && (r.Some? ==> r.value == Reported(ks.nodes[id], now)
                            && ks'.nodes == ks.nodes[id := r.value])
            && (r.None? ==> ks' == ks)
            && ks'.activeNodes == ks.activeNodes && ks'.tasks == ks.tasks
            && GetNodeSpec(ks', id, now) == (ks', r)
  {
    if HasData(ks, id, now) && Stale(ks.nodes[id], now) {
      var ks' := GetNodeSpec(ks, id, now).0;
      var off := Reported(ks.nodes[id], now);
      assert ks'.nodes[id := off] == ks'.nodes;
    }
  }

  // ---------------------------------------------------------------------------
  // `get_all_nodes`: every id of `active_nodes`, in the set's iteration order.

  /** The scan over the first ids: records found, and the keyspace after the
      `get_node` writes and the SREMs of ids without data. */
  function AllNodesSpec(ks: Keyspace, ids: seq<string>, now: int): (Keyspace, seq<(string, NodeRecord)>)
  {
    if |ids| == 0 then (ks, [])
    else
      var (ks1, found) := AllNodesSpec(ks, ids[..|ids| - 1], now);
      var id := ids[|ids| - 1];
      var (ks2, r) := GetNodeSpec(ks1, id, now);
      if r.Some? then (ks2, found + [(id, r.value)])
      else (ks2.(activeNodes := ks2.activeNodes - {id}), found)
  }

  /** Everything but node statuses and `active_nodes` is as it was. */
  ghost predicate SameData(ks: Keyspace, ks': Keyspace)
  {
    && ks'.nodes.Keys == ks.nodes.Keys
    && (forall id :: id in ks.nodes ==>
          ks'.nodes[id].lastHeartbeat == ks.nodes[id].lastHeartbeat
          && ks'.nodes[id].expiresAt == ks.nodes[id].expiresAt
          && ks'.nodes[id].tasksCompleted == ks.nodes[id].tasksCompleted
          && ks'.nodes[id].tasksFailed == ks.nodes[id].tasksFailed)
    && ks'.tasks == ks.tasks && ks'.pendingTasks == ks.pendingTasks
    && ks'.runningTasks == ks.runningTasks && ks'.completedTasks == ks.completedTasks
    && ks'.failedTasks == ks.failedTasks && ks'.allTasks == ks.allTasks
  }

  /** One id of the scan keeps the data. */
  lemma AllNodesStepKeepsData(ks: Keyspace, id: string, now: int)
    ensures var (ks2, r) := GetNodeSpec(ks, id, now);
            SameData(ks, ks2) && SameData(ks, ks2.(activeNodes := ks2.activeNodes - {id}))
  {
  }

  /** Reading a node touches only that node's status, so liveness and heartbeats of
      every node are as they were. */
  lemma {:induction false} AllNodesKeepsData(ks: Keyspace, ids: seq<string>, now: int)
    ensures SameData(ks, AllNodesSpec(ks, ids, now).0)
    decreases |ids|
  {
    if |ids| > 0 {
      var init, id := ids[..|ids| - 1], ids[|ids| - 1];
      AllNodesKeepsData(ks, init, now);
      var ks1 := AllNodesSpec(ks, init, now).0;
      AllNodesStepKeepsData(ks1, id, now);
    }
  }

  /** The nodes returned are exactly the scanned ids that have data, each once and in
      scan order, each as `get_node` reports it; exactly the scanned ids without data
      leave `active_nodes`. */
  lemma {:induction false} AllNodesCharacterized(ks: Keyspace, ids: seq<string>, now: int)
    ensures var (ks', found) := AllNodesSpec(ks, ids, now);
            && |found| <= |ids|
            && (forall i :: 0 <= i < |found| ==>
                  found[i].0 in ids && HasData(ks, found[i].0, now))
            && (forall id :: id in ids && HasData(ks, id, now) ==>
                  exists i :: 0 <= i < |found| && found[i].0 == id)
            && ks'.activeNodes == ks.activeNodes - (set id | id in ids && !HasData(ks, id, now))
    decreases |ids|
  {
    if |ids| > 0 {
      var prefix := ids[..|ids| - 1];
      var id := ids[|ids| - 1];
      AllNodesCharacterized(ks, prefix, now);
      AllNodesKeepsData(ks, prefix, now);
      var (ks1, found1) := AllNodesSpec(ks, prefix, now);
      assert HasData(ks1, id, now) == HasData(ks, id, now);
      var (ks', found) := AllNodesSpec(ks, ids, now);
      assert forall x :: x in prefix ==> x in ids;
      assert forall x :: x in ids ==> x in prefix || x == id;
      assert forall i :: 0 <= i < |found1| ==> found[i] == found1[i];
      forall x | x in ids && HasData(ks, x, now)
        ensures exists i :: 0 <= i < |found| && found[i].0 == x
      {
        if x == id {
          assert found[|found| - 1].0 == id;
        } else {
          var i :| 0 <= i < |found1| && found1[i].0 == x;
          assert found[i].0 == x;
        }
      }
    }
  }

  /** With the ids scanned without repetition, no node is returned twice. */
  lemma {:induction false} AllNodesDistinct(ks: Keyspace, ids: seq<string>, now: int)
    requires forall i, j :: 0 <= i < j < |ids| ==> ids[i] != ids[j]
    ensures var found := AllNodesSpec(ks, ids, now).1;
            forall i, j :: 0 <= i < j < |found| ==> found[i].0 != found[j].0
    decreases |ids|
  {
    if |ids| > 0 {
      var prefix := ids[..|ids| - 1];
      AllNodesDistinct(ks, prefix, now);
      AllNodesCharacterized(ks, prefix, now);
      var found1 := AllNodesSpec(ks, prefix, now).1;
      assert forall i :: 0 <= i < |found1| ==> found1[i].0 != ids[|ids| - 1] by {
        forall i | 0 <= i < |found1| ensures found1[i].0 != ids[|ids| - 1] {
          var x := found1[i].0;
          assert x in prefix;
          var m :| 0 <= m < |prefix| && prefix[m] == x;
          assert ids[m] == x;
        }
      }
    }
  }

  // ---------------------------------------------------------------------------
  // Task hashes and queues.

  /** What `create_task` would store for `task` when the hash can be written. The
      hash keeps a result or completion time it already had (HSET merges). */
  function CreateTaskSpec(ks: Keyspace, task: HubModels.Task, now: int): Keyspace
  {
    var prev := if task.id in ks.tasks then Some(ks.tasks[task.id]) else None;
    var rec := TaskRecord(
      task.status.Value(), task.model, task.inputData,
      if task.nodeId.Some? then task.nodeId.value else "",
      now, now, task.priority,
      if prev.Some? then prev.value.result else None,
      if prev.Some? then prev.value.completedAt else None);
    ks.(tasks := ks.tasks[task.id := rec],
        pendingTasks := if task.status == HubModels.Pending then ks.pendingTasks[task.id := task.priority]
                        else ks.pendingTasks,
        allTasks := ks.allTasks + {task.id})
  }

  /** `create_task` as written: the hash it builds holds `json.dumps(task.input_data)`
      of a `TaskInput` model, which raises TypeError (and a `node_id` of None, which
      the Redis client refuses), so the handler logs and returns False for every task
      and nothing is stored. */
  function CreateTaskAsWritten(ks: Keyspace, task: HubModels.Task, now: int): (r: (Keyspace, bool))
    ensures r == (ks, false)
  {
    (ks, false)
  }

  /** Creating a task stores it, lists it in `all_tasks`, and queues it (scored by
      priority) exactly when its status is pending; nothing else changes. */
  lemma CreateTaskEffects(ks: Keyspace, task: HubModels.Task, now: int)
    ensures var ks' := CreateTaskSpec(ks, task, now);
            && task.id in ks'.tasks && ks'.tasks[task.id].status == task.status.Value()
            && ks'.tasks[task.id].createdAt == now && ks'.tasks[task.id].priority == task.priority
            && ks'.allTasks == ks.allTasks + {task.id}
            && (task.status == HubModels.Pending <==> task.id in ks'.pendingTasks)
            && (task.status == HubModels.Pending ==> ks'.pendingTasks == ks.pendingTasks[task.id := task.priority])
            && (task.status != HubModels.Pending ==> ks'.pendingTasks == ks.pendingTasks)
            && ks'.nodes == ks.nodes && ks'.activeNodes == ks.activeNodes
            && ks'.runningTasks == ks.runningTasks
            && ks'.completedTasks == ks.completedTasks && ks'.failedTasks == ks.failedTasks
    requires task.id !in ks.pendingTasks
  {
  }

  /** `update_task_status`. `if node_id:` is false for None and "". */
  function UpdateTaskStatusSpec(ks: Keyspace, id: string, status: string, nodeId: Option<string>,
                                result: Option<HubModels.TaskResult>, now: int): (Keyspace, bool)
  {
    if id !in ks.tasks then (ks, false)
    else
      var hasNode := nodeId.Some? && nodeId.value != "";
      var prev := ks.tasks[id];
      var rec := prev.(status := status, updatedAt := now,
                       nodeId := if hasNode then nodeId.value else prev.nodeId,
                       result := if result.Some? then result else prev.result,
                       completedAt := if status == "completed" then Some(now) else prev.completedAt);
      var ks1 := ks.(tasks := ks.tasks[id := rec]);
      if status == "running" then
        (ks1.(pendingTasks := ks1.pendingTasks - {id}, runningTasks := ks1.runningTasks + {id}), true)
      else if status == "completed" then
        var ks2 := ks1.(runningTasks := ks1.runningTasks - {id}, completedTasks := ks1.completedTasks + {id});
        if hasNode then
          var n := NodeHash(ks2, nodeId.value, now);
          (ks2.(nodes := ks2.nodes[nodeId.value := n.(tasksCompleted := n.tasksCompleted + 1)]), true)
        else (ks2, true)
      else if status == "failed" then
        var ks2 := ks1.(runningTasks := ks1.runningTasks - {id}, failedTasks := ks1.failedTasks + {id});
        if hasNode then
          var n := NodeHash(ks2, nodeId.value, now);
          (ks2.(nodes := ks2.nodes[nodeId.value := n.(tasksFailed := n.tasksFailed + 1)]), true)
        else (ks2, true)
      else (ks1, true)
  }

  /** An unknown task changes nothing. Otherwise the status is written; "running"
      moves the id from the pending queue to the running set; "completed" and "failed"
      take it out of the running set only, so a pending task set to "failed" stays
      queued; the completion time is stamped only for "completed"; a given result
      replaces the stored one; and the named node's counter goes up by one. */
  lemma UpdateTaskStatusEffects(ks: Keyspace, id: string, status: string, nodeId: Option<string>,
                                result: Option<HubModels.TaskResult>, now: int)
    ensures var (ks', ok) := UpdateTaskStatusSpec(ks, id, status, nodeId, result, now);
            && (ok <==> id in ks.tasks)
            && (!ok ==> ks' == ks)
            && (ok ==> && ks'.tasks == ks.tasks[id := ks'.tasks[id]]
                       && ks'.tasks[id].status == status && ks'.tasks[id].updatedAt == now
                       && ks'.tasks[id].completedAt
                          == (if status == "completed" then Some(now) else ks.tasks[id].completedAt)
                       && ks'.tasks[id].result == (if result.Some? then result else ks.tasks[id].result)
                       && ks'.allTasks == ks.allTasks)
    ensures var (ks', ok) := UpdateTaskStatusSpec(ks, id, status, nodeId, result, now);
            ok ==>
              && (status == "running" ==>
                    ks'.pendingTasks == ks.pendingTasks - {id} && ks'.runningTasks == ks.runningTasks + {id})
              && (status == "completed" ==>
                    && ks'.pendingTasks == ks.pendingTasks && ks'.runningTasks == ks.runningTasks - {id}
                    && ks'.completedTasks == ks.completedTasks + {id})
              && (status == "failed" ==>
                    && ks'.pendingTasks == ks.pendingTasks && ks'.runningTasks == ks.runningTasks - {id}
                    && ks'.failedTasks == ks.failedTasks + {id})
              && (status != "running" && status != "completed" && status != "failed" ==>
                    && ks'.pendingTasks == ks.pendingTasks && ks'.runningTasks == ks.runningTasks
                    && ks'.completedTasks == ks.completedTasks && ks'.failedTasks == ks.failedTasks)
    ensures var (ks', ok) := UpdateTaskStatusSpec(ks, id, status, nodeId, result, now);
            ok && nodeId.Some? && nodeId.value != "" && status == "completed" ==>
              ks'.nodes[nodeId.value].tasksCompleted == NodeHash(ks, nodeId.value, now).tasksCompleted + 1
  {
  }

  // ---------------------------------------------------------------------------
  // `get_pending_task`: ZREVRANGE pending_tasks 0 0, the member of highest score,
  // and among equal scores the one that sorts last.

  predicate Outranks(pending: map<string, int>, a: string, b: string)
    requires a in pending && b in pending
  {
    pending[a] > pending[b] || (pending[a] == pending[b] && LexLess(b, a))
  }

  ghost predicate IsTop(pending: map<string, int>, id: string)
  {
    id in pending && forall o :: o in pending && o != id ==> Outranks(pending, id, o)
  }

  lemma OutranksTransitive(pending: map<string, int>, a: string, b: string, c: string)
    requires a in pending && b in pending && c in pending
    requires Outranks(pending, a, b) && Outranks(pending, b, c)
    ensures Outranks(pending, a, c)
  {
    if pending[a] == pending[b] == pending[c] {
      LexLessTransitive(c, b, a);
    }
  }

  lemma OutranksTotal(pending: map<string, int>, a: string, b: string)
    requires a in pending && b in pending && a != b
    ensures Outranks(pending, a, b) || Outranks(pending, b, a)
  {
    if pending[a] == pending[b] {
      LexLessTotal(a, b);
    }
  }

  /** The head of the queue is unique. */
  lemma TopUnique(pending: map<string, int>, a: string, b: string)
    requires IsTop(pending, a) && IsTop(pending, b)
    ensures a == b
  {
    if a != b {
      assert Outranks(pending, a, b) && Outranks(pending, b, a);
      if pending[a] == pending[b] {
        LexLessTransitive(a, b, a);
        LexLessIrreflexive(a);
      }
    }
  }

  /** A non-empty queue has a head. */
  lemma {:induction false} TopExists(pending: map<string, int>)
    requires |pending| > 0
    ensures exists id :: IsTop(pending, id)
    decreases |pending|
  {
    var k :| k in pending;
    var rest := pending - {k};
    assert rest.Keys == pending.Keys - {k};
    if |rest| == 0 {
      assert pending.Keys == {k};
      assert IsTop(pending, k);
    } else {
      TopExists(rest);
      var t :| IsTop(rest, t);
      if Outranks(pending, k, t) {
        forall o | o in pending && o != k ensures Outranks(pending, k, o) {
          if o != t {
            assert Outranks(rest, t, o);
            OutranksTransitive(pending, k, t, o);
          }
        }
        assert IsTop(pending, k);
      } else {
        OutranksTotal(pending, k, t);
        forall o | o in pending && o != t ensures Outranks(pending, t, o) {
          if o != k {
            assert Outranks(rest, t, o);
          }
        }
        assert IsTop(pending, t);
      }
    }
  }

  /** What `get_pending_task` returns: the head of the queue, if any. */
  ghost function Head(pending: map<string, int>): (r: Option<string>)
    ensures r.None? <==> |pending| == 0
    ensures r.Some? ==> IsTop(pending, r.value)
  {
    if |pending| == 0 then None
    else
      TopExists(pending);
      var id :| IsTop(pending, id);
      Some(id)
  }

  // ---------------------------------------------------------------------------
  // `cleanup_old_tasks`: completed, then failed tasks created before the cutoff.

  /** Completed tasks that the first pass deletes. */
  ghost function OldCompleted(ks: Keyspace, cutoff: int): set<string>
  {
    set id | id in ks.completedTasks && id in ks.tasks && ks.tasks[id].createdAt < cutoff
  }

  /** Failed tasks that the second pass deletes: those whose hash the first pass left. */
  ghost function OldFailed(ks: Keyspace, cutoff: int): set<string>
  {
    set id | id in ks.failedTasks && id in ks.tasks && id !in OldCompleted(ks, cutoff)
                && ks.tasks[id].createdAt < cutoff
  }

  ghost function CleanupSpec(ks: Keyspace, cutoff: int): (Keyspace, nat)
  {
    var c := OldCompleted(ks, cutoff);
    var f := OldFailed(ks, cutoff);
    (ks.(tasks := ks.tasks - c - f, completedTasks := ks.completedTasks - c,
         failedTasks := ks.failedTasks - f, allTasks := ks.allTasks - c - f),
     |c| + |f|)
  }

  /** The sweep deletes only finished tasks created before the cutoff, and all of
      them; what it keeps is unchanged; it leaves every node, the pending queue and the
      running set alone. */
  lemma CleanupCharacterized(ks: Keyspace, cutoff: int)
    ensures var ks' := CleanupSpec(ks, cutoff).0;
            && ks'.tasks.Keys <= ks.tasks.Keys
            && (forall id :: id in ks.tasks && id !in ks'.tasks ==>
                  (id in ks.completedTasks || id in ks.failedTasks) && ks.tasks[id].createdAt < cutoff)
            && (forall id :: (id in ks.tasks && (id in ks.completedTasks || id in ks.failedTasks)
                              && ks.tasks[id].createdAt < cutoff) ==> id !in ks'.tasks)
            && (forall id :: id in ks'.tasks ==> ks'.tasks[id] == ks.tasks[id])
            && ks'.nodes == ks.nodes && ks'.pendingTasks == ks.pendingTasks
            && ks'.runningTasks == ks.runningTasks
  {
  }

  /** The hashes the sweep deletes are the two passes' sets. */
  lemma CleanupRemovedKeys(ks: Keyspace, cutoff: int)
    ensures ks.tasks.Keys - CleanupSpec(ks, cutoff).0.tasks.Keys == OldCompleted(ks, cutoff) + OldFailed(ks, cutoff)
  {
    var c := OldCompleted(ks, cutoff);
    var f := OldFailed(ks, cutoff);
    var kept := CleanupSpec(ks, cutoff).0.tasks;
    assert kept == ks.tasks - c - f;
    forall x ensures x in ks.tasks.Keys - kept.Keys <==> x in c + f {
      assert x in kept.Keys <==> x in ks.tasks.Keys && x !in c && x !in f;
    }
  }

  /** The count returned is the number of task hashes deleted. */
  lemma CleanupCount(ks: Keyspace, cutoff: int)
    ensures CleanupSpec(ks, cutoff).1 == |ks.tasks.Keys - CleanupSpec(ks, cutoff).0.tasks.Keys|
  {
    var c := OldCompleted(ks, cutoff);
    var f := OldFailed(ks, cutoff);
    CleanupRemovedKeys(ks, cutoff);
    assert c !! f;
    DisjointUnionCard(c, f);
  }

  lemma DisjointUnionCard(a: set<string>, b: set<string>)
    requires a !! b
    ensures |a + b| == |a| + |b|
  {
    assert a * b == {};
  }

  // ---------------------------------------------------------------------------
  // Reading tasks back.

  /** The task ids `get_tasks_by_status` reads; any other status yields none. */
  function IdsWithStatus(ks: Keyspace, status: string): set<string>
  {
    if status == "pending" then ks.pendingTasks.Keys
    else if status == "running" then ks.runningTasks
    else if status == "completed" then ks.completedTasks
    else if status == "failed" then ks.failedTasks
    else {}
  }

  /** The records of the ids that still have a hash, in the order given. */
  function Fetch(tasks: map<string, TaskRecord>, ids: seq<string>): (r: seq<TaskRecord>)
    ensures |r| <= |ids|
  {
    if |ids| == 0 then []
    else
      var rest := Fetch(tasks, ids[..|ids| - 1]);
      var id := ids[|ids| - 1];
      if id in tasks then rest + [tasks[id]] else rest
  }

  predicate NewestFirst(rs: seq<TaskRecord>)
  {
    forall i, j :: 0 <= i < j < |rs| ==> rs[i].createdAt >= rs[j].createdAt
  }

  /** Insert after every record at least as new: equal times keep their order. */
  function InsertNewestFirst(r: TaskRecord, rs: seq<TaskRecord>): (out: seq<TaskRecord>)
    ensures |out| == |rs| + 1
  {
    if |rs| == 0 then [r]
    else if r.createdAt > rs[0].createdAt then [r] + rs
    else [rs[0]] + InsertNewestFirst(r, rs[1..])
  }

  lemma {:induction false} InsertNewestFirstCounts(r: TaskRecord, rs: seq<TaskRecord>)
    ensures multiset(InsertNewestFirst(r, rs)) == multiset(rs) + multiset{r}
  {
    if |rs| > 0 && r.createdAt <= rs[0].createdAt {
      InsertNewestFirstCounts(r, rs[1..]);
      assert rs == [rs[0]] + rs[1..];
    }
  }

  lemma {:induction false} InsertNewestFirstBelow(r: TaskRecord, rs: seq<TaskRecord>, top: int)
    requires r.createdAt <= top && forall j :: 0 <= j < |rs| ==> rs[j].createdAt <= top
    ensures forall j :: 0 <= j < |rs| + 1 ==> InsertNewestFirst(r, rs)[j].createdAt <= top
  {
    if |rs| > 0 && r.createdAt <= rs[0].createdAt {
      InsertNewestFirstBelow(r, rs[1..], top);
      assert InsertNewestFirst(r, rs) == [rs[0]] + InsertNewestFirst(r, rs[1..]);
    }
  }

  lemma {:induction false} InsertNewestFirstOrders(r: TaskRecord, rs: seq<TaskRecord>)
    requires NewestFirst(rs)
    ensures NewestFirst(InsertNewestFirst(r, rs))
  {
    if |rs| > 0 {
      if r.createdAt > rs[0].createdAt {
        var out := [r] + rs;
        assert forall i :: 0 < i < |out| ==> out[i] == rs[i - 1];
      } else {
        var tail := rs[1..];
        assert forall j :: 0 <= j < |tail| ==> tail[j] == rs[j + 1];
        InsertNewestFirstOrders(r, tail);
        InsertNewestFirstBelow(r, tail, rs[0].createdAt);
        var rest := InsertNewestFirst(r, tail);
        var out := [rs[0]] + rest;
        assert forall i :: 0 < i < |out| ==> out[i] == rest[i - 1];
        assert InsertNewestFirst(r, rs) == out;
      }
    }
  }

  /** `tasks.sort(key=created_at, reverse=True)`. */
  function SortNewestFirst(rs: seq<TaskRecord>): (out: seq<TaskRecord>)
    ensures |out| == |rs|
  {
    if |rs| == 0 then [] else InsertNewestFirst(rs[|rs| - 1], SortNewestFirst(rs[..|rs| - 1]))
  }

  lemma {:induction false} SortNewestFirstOrders(rs: seq<TaskRecord>)
    ensures NewestFirst(SortNewestFirst(rs))
  {
    if |rs| > 0 {
      var init := rs[..|rs| - 1];
      SortNewestFirstOrders(init);
      InsertNewestFirstOrders(rs[|rs| - 1], SortNewestFirst(init));
    }
  }

  lemma {:induction false} SortNewestFirstKeeps(rs: seq<TaskRecord>)
    ensures multiset(SortNewestFirst(rs)) == multiset(rs)
  {
    if |rs| > 0 {
      var init, last := rs[..|rs| - 1], rs[|rs| - 1];
      SortNewestFirstKeeps(init);
      InsertNewestFirstCounts(last, SortNewestFirst(init));
      MultisetSnoc(rs);
    }
  }

  /** The records of `rs` created at time `c`, in list order. */
  function CreatedAt(rs: seq<TaskRecord>, c: int): (out: seq<TaskRecord>)
    ensures |out| <= |rs|
    ensures forall j :: 0 <= j < |out| ==> out[j].createdAt == c
  {
    if |rs| == 0 then []
    else (if rs[0].createdAt == c then [rs[0]] else []) + CreatedAt(rs[1..], c)
  }

  lemma {:induction false} CreatedAtSnoc(rs: seq<TaskRecord>, r: TaskRecord, c: int)
    ensures CreatedAt(rs + [r], c) == CreatedAt(rs, c) + (if r.createdAt == c then [r] else [])
  {
    if |rs| > 0 {
      assert (rs + [r])[1..] == rs[1..] + [r];
      CreatedAtSnoc(rs[1..], r, c);
    }
  }

  lemma {:induction false} CreatedAtNone(rs: seq<TaskRecord>, c: int)
    requires forall j :: 0 <= j < |rs| ==> rs[j].createdAt != c
    ensures CreatedAt(rs, c) == []
  {
    if |rs| > 0 {
      CreatedAtNone(rs[1..], c);
    }
  }

  /** Inserting `r` into a newest-first list puts it after every record with the same
      time: for each time the records keep their order, `r` last among them. */
  lemma {:induction false} InsertNewestFirstStable(r: TaskRecord, rs: seq<TaskRecord>, c: int)
    requires NewestFirst(rs)
    ensures CreatedAt(InsertNewestFirst(r, rs), c) == CreatedAt(rs, c) + (if r.createdAt == c then [r] else [])
  {
    if |rs| == 0 {
    } else if r.createdAt > rs[0].createdAt {
      if r.createdAt == c {
        CreatedAtNone(rs, c);
      }
      assert ([r] + rs)[1..] == rs;
    } else {
      var tail := rs[1..];
      assert NewestFirst(tail) by {
        assert forall j :: 0 <= j < |tail| ==> tail[j] == rs[j + 1];
      }
      InsertNewestFirstStable(r, tail, c);
      var ins := InsertNewestFirst(r, tail);
      var head := if rs[0].createdAt == c then [rs[0]] else [];
      assert InsertNewestFirst(r, rs) == [rs[0]] + ins;
      assert ([rs[0]] + ins)[1..] == ins;
      assert CreatedAt([rs[0]] + ins, c) == head + CreatedAt(ins, c);
      assert CreatedAt(rs, c) == head + CreatedAt(tail, c);
    }
  }

  /** Python's sort is stable, also with `reverse=True`: records created at the same
      time come out in the order they were fetched. */
  lemma {:induction false} SortNewestFirstStable(rs: seq<TaskRecord>, c: int)
    ensures CreatedAt(SortNewestFirst(rs), c) == CreatedAt(rs, c)
  {
    if |rs| > 0 {
      var init, last := rs[..|rs| - 1], rs[|rs| - 1];
      SortNewestFirstStable(init, c);
      SortNewestFirstOrders(init);
      InsertNewestFirstStable(last, SortNewestFirst(init), c);
      assert rs == init + [last];
      CreatedAtSnoc(init, last, c);
    }
  }

  /** `list(all_tasks)[-limit:]`: the last `limit` ids of the set's iteration order;
      a limit of 0 keeps every id, because `-0` is `0`. */
  lemma AllTasksWindow(order: seq<string>, limit: int)
    ensures limit == 0 ==> SliceFrom(order, -limit) == order
    ensures limit > 0 ==> |SliceFrom(order, -limit)| == MinInt(limit, |order|)
    ensures limit < 0 ==> |SliceFrom(order, -limit)| == |order| - MinInt(-limit, |order|)
  {
  }

  // ---------------------------------------------------------------------------

  /** One pass of the cleanup: every member of `members` whose hash was created before
      `cutoff` is deleted from the hashes, from `members` and from `all_tasks`. */
  method Sweep(tasks: map<string, TaskRecord>, members: set<string>, all: set<string>, cutoff: int)
    returns (tasks': map<string, TaskRecord>, members': set<string>, all': set<string>,
             count: nat, ghost removed: set<string>)
    ensures removed == set id | id in members && id in tasks && tasks[id].createdAt < cutoff
    ensures tasks' == tasks - removed && members' == members - removed && all' == all - removed
    ensures count == |removed|
  {
    tasks', members', all' := tasks, members, all;
    count := 0;
    removed := {};
    var rest := members;
    while rest != {}
      invariant rest <= members
      invariant forall x :: x in removed <==> x in members && x !in rest && x in tasks && tasks[x].createdAt < cutoff
      invariant tasks' == tasks - removed && members' == members - removed && all' == all - removed
      invariant count == |removed|
      decreases rest
    {
      var id :| id in rest;
      if id in tasks' && tasks'[id].createdAt < cutoff {
        members' := members' - {id};
        all' := all' - {id};
        tasks' := tasks' - {id};
        removed := removed + {id};
        count := count + 1;
      }
      rest := rest - {id};
    }
  }

  /** How many of the listed nodes report "online". */
  function OnlineCount(found: seq<(string, NodeRecord)>): (n: nat)
    ensures n <= |found|
  {
    if |found| == 0 then 0
    else OnlineCount(found[..|found| - 1]) + (if found[|found| - 1].1.status == Some("online") then 1 else 0)
  }

  /** The counting loop of `get_stats`: every node is online or offline. */
  method CountStatuses(found: seq<(string, NodeRecord)>) returns (online: nat, offline: nat)
    ensures online == OnlineCount(found) && online + offline == |found|
  {
    online, offline := 0, 0;
    var i := 0;
    while i < |found|
      invariant 0 <= i <= |found|
      invariant online == OnlineCount(found[..i]) && online + offline == i
    {
      assert found[..i + 1][..i] == found[..i];
      if found[i].1.status == Some("online") {
        online := online + 1;
      } else {
        offline := offline + 1;
      }
      i := i + 1;
    }
    assert found[..i] == found;
  }

  datatype Stats = Stats(
    nodesTotal: nat, nodesOnline: nat, nodesOffline: nat,
    pending: nat, running: nat, completed: nat, failed: nat, total: nat)

  class RedisRegistry {
    var db: Keyspace

    /** A connection to an empty server (the connection check is not modelled). */
    constructor ()
      ensures db == EmptyKeyspace()
    {
      db := EmptyKeyspace();
    }

    /** `register_node` once the node's hash can be built (its capabilities
        serialised). */
    method RegisterNode(node: HubModels.Node, now: int) returns (ok: bool)
      modifies this
      ensures ok && db == RegisterNodeSpec(old(db), node, now)
    {
      var rec := NodeHash(db, node.id, now).(
        status := Some(node.status.Value()), capabilities := node.capabilities,
        lastHeartbeat := Some(now), registeredAt := Some(now),
        tasksCompleted := 0, tasksFailed := 0);
      db := db.(nodes := db.nodes[node.id := rec]);
      db := db.(activeNodes := db.activeNodes + {node.id});
      db := db.(nodes := db.nodes[node.id := db.nodes[node.id].(expiresAt := Some(now + NodeTtl))]);
      return true;
    }

    /** `register_node` as written: `json.dumps` of a `NodeCapabilities` model raises
        TypeError, so only a node without capabilities is stored. */
    method RegisterNodeAsWritten(node: HubModels.Node, now: int) returns (ok: bool)
      modifies this
      ensures ok <==> node.capabilities.None?
      ensures ok ==> db == RegisterNodeSpec(old(db), node, now)
      ensures !ok ==> db == old(db)
    {
      if node.capabilities.Some? {
        return false;
      }
      ok := RegisterNode(node, now);
    }

    method UpdateNodeHeartbeat(id: string, now: int) returns (ok: bool)
      modifies this
      ensures (db, ok) == HeartbeatSpec(old(db), id, now)
    {
      if !Live(db, id, now) {
        return false;
      }
      var rec := db.nodes[id].(lastHeartbeat := Some(now), status := Some("online"));
      rec := rec.(expiresAt := Some(now + NodeTtl));
      db := db.(nodes := db.nodes[id := rec]);
      return true;
    }

    method GetNode(id: string, now: int) returns (r: Option<NodeRecord>)
      modifies this
      ensures (db, r) == GetNodeSpec(old(db), id, now)
    {
      if !Live(db, id, now) {
        return None;
      }
      var data := db.nodes[id];
      if data.lastHeartbeat.None? {
        return None;
      }
      if now - data.lastHeartbeat.value > HeartbeatTimeout {
        data := data.(status := Some("offline"));
        db := db.(nodes := db.nodes[id := data]);
      }
      return Some(data);
    }

    /** `get_all_nodes`, with `order` the iteration order of `active_nodes`. */
    method GetAllNodes(order: seq<string>, now: int) returns (found: seq<(string, NodeRecord)>)
      modifies this
      requires Distinct(order) && forall id :: id in order <==> id in db.activeNodes
      ensures (db, found) == AllNodesSpec(old(db), order, now)
    {
      found := [];
      var i := 0;
      while i < |order|
        invariant 0 <= i <= |order|
        invariant (db, found) == AllNodesSpec(old(db), order[..i], now)
      {
        assert order[..i + 1][..i] == order[..i];
        var r := GetNode(order[i], now);
        if r.Some? {
          found := found + [(order[i], r.value)];
        } else {
          db := db.(activeNodes := db.activeNodes - {order[i]});
        }
        i := i + 1;
      }
      assert order[..i] == order;
    }

    method RemoveNode(id: string) returns (ok: bool)
      modifies this
      ensures ok && db == RemoveNodeSpec(old(db), id)
    {
      db := db.(activeNodes := db.activeNodes - {id});
      db := db.(nodes := db.nodes - {id});
      return true;
    }

    /** `create_task` once the task's hash can be built (its input serialised as a
        dictionary and a missing node stored as ""). */
    method CreateTask(task: HubModels.Task, now: int) returns (ok: bool)
      modifies this
      ensures ok && db == CreateTaskSpec(old(db), task, now)
    {
      db := CreateTaskSpec(db, task, now).(pendingTasks := db.pendingTasks, allTasks := db.allTasks);
      if task.status == HubModels.Pending {
        db := db.(pendingTasks := db.pendingTasks[task.id := task.priority]);
      }
      db := db.(allTasks := db.allTasks + {task.id});
      return true;
    }

    method UpdateTaskStatus(id: string, status: string, nodeId: Option<string>,
                            result: Option<HubModels.TaskResult>, now: int) returns (ok: bool)
      modifies this
      ensures (db, ok) == UpdateTaskStatusSpec(old(db), id, status, nodeId, result, now)
    {
      if id !in db.tasks {
        return false;
      }
      var hasNode := nodeId.Some? && nodeId.value != "";
      var rec := db.tasks[id].(status := status, updatedAt := now);
      if hasNode { rec := rec.(nodeId := nodeId.value); }
      if result.Some? { rec := rec.(result := result); }
      if status == "completed" { rec := rec.(completedAt := Some(now)); }
      db := db.(tasks := db.tasks[id := rec]);
      if status == "running" {
        db := db.(pendingTasks := db.pendingTasks - {id});
        db := db.(runningTasks := db.runningTasks + {id});
      } else if status == "completed" {
        db := db.(runningTasks := db.runningTasks - {id});
        db := db.(completedTasks := db.completedTasks + {id});
        if hasNode {
          var n := NodeHash(db, nodeId.value, now);
          db := db.(nodes := db.nodes[nodeId.value := n.(tasksCompleted := n.tasksCompleted + 1)]);
        }
      } else if status == "failed" {
        db := db.(runningTasks := db.runningTasks - {id});
        db := db.(failedTasks := db.failedTasks + {id});
        if hasNode {
          var n := NodeHash(db, nodeId.value, now);
          db := db.(nodes := db.nodes[nodeId.value := n.(tasksFailed := n.tasksFailed + 1)]);
        }
      }
      return true;
    }

    /** `get_task`: the stored record (the JSON fields read back as written). */
    function GetTask(id: string): (r: Option<TaskRecord>)
      reads this
      ensures r.Some? <==> id in db.tasks
      ensures r.Some? ==> r.value == db.tasks[id]
    {
      if id in db.tasks then Some(db.tasks[id]) else None
    }

    /** `get_pending_task`: the head of the queue, which stays queued. */
    method GetPendingTask() returns (r: Option<string>)
      ensures r.None? <==> |db.pendingTasks| == 0
      ensures r.Some? ==> IsTop(db.pendingTasks, r.value)
      ensures r == Head(db.pendingTasks)
    {
      var pending := db.pendingTasks;
      var rest := pending.Keys;
      r := None;
      while rest != {}
        invariant rest <= pending.Keys
        invariant r.None? <==> rest == pending.Keys
        invariant r.Some? ==> r.value in pending && r.value !in rest
        invariant r.Some? ==> forall o :: o in pending && o !in rest && o != r.value
                                 ==> Outranks(pending, r.value, o)
        decreases rest
      {
        var k :| k in rest;
        if r.None? {
          r := Some(k);
        } else if Outranks(pending, k, r.value) {
          forall o | o in pending && o !in rest && o != r.value
            ensures Outranks(pending, k, o)
          {
            OutranksTransitive(pending, k, r.value, o);
          }
          r := Some(k);
        } else {
          OutranksTotal(pending, k, r.value);
        }
        rest := rest - {k};
      }
      if r.None? {
        assert pending.Keys == {};
      } else {
        TopUnique(pending, r.value, Head(pending).value);
      }
    }

    /** `get_tasks_by_status`: every listed id that still has a hash, once each. The
        order (ascending score for the pending queue, set order otherwise) is not
        modelled. */
    method GetTasksByStatus(status: string) returns (found: seq<(string, TaskRecord)>)
      ensures forall i :: 0 <= i < |found| ==>
                found[i].0 in IdsWithStatus(db, status) && found[i].0 in db.tasks
                && found[i].1 == db.tasks[found[i].0]
      ensures forall id :: id in IdsWithStatus(db, status) && id in db.tasks ==>
                exists i :: 0 <= i < |found| && found[i].0 == id
      ensures forall i, j :: 0 <= i < j < |found| ==> found[i].0 != found[j].0
    {
      var ids := IdsWithStatus(db, status);
      var rest := ids;
      found := [];
      while rest != {}
        invariant rest <= ids
        invariant forall i :: 0 <= i < |found| ==>
                    found[i].0 in ids - rest && found[i].0 in db.tasks && found[i].1 == db.tasks[found[i].0]
        invariant forall id :: id in ids - rest && id in db.tasks ==>
                    exists i :: 0 <= i < |found| && found[i].0 == id
        invariant forall i, j :: 0 <= i < j < |found| ==> found[i].0 != found[j].0
        decreases rest
      {
        var id :| id in rest;
        ghost var prev := found;
        if id in db.tasks {
          found := found + [(id, db.tasks[id])];
        }
        forall x | x in ids - (rest - {id}) && x in db.tasks
          ensures exists i :: 0 <= i < |found| && found[i].0 == x
        {
          if x == id {
            assert found[|found| - 1].0 == x;
          } else {
            var i :| 0 <= i < |prev| && prev[i].0 == x;
            assert found[i].0 == x;
          }
        }
        rest := rest - {id};
      }
    }

    /** `get_all_tasks`, with `order` the iteration order of `all_tasks`: the last
        `limit` ids that still have a hash, newest first, records created at the same
        time in fetch order. */
    method GetAllTasks(limit: int, order: seq<string>) returns (tasks: seq<TaskRecord>)
      requires Distinct(order) && forall id :: id in order <==> id in db.allTasks
      ensures NewestFirst(tasks)
      ensures multiset(tasks) == multiset(Fetch(db.tasks, SliceFrom(order, -limit)))
      ensures forall c :: CreatedAt(tasks, c) == CreatedAt(Fetch(db.tasks, SliceFrom(order, -limit)), c)
    {
      var ids := SliceFrom(order, -limit);
      var fetched: seq<TaskRecord> := [];
      var i := 0;
      while i < |ids|
        invariant 0 <= i <= |ids|
        invariant fetched == Fetch(db.tasks, ids[..i])
      {
        assert ids[..i + 1][..i] == ids[..i];
        if ids[i] in db.tasks {
          fetched := fetched + [db.tasks[ids[i]]];
        }
        i := i + 1;
      }
      assert ids[..i] == ids;
      tasks := SortNewestFirst(fetched);
      SortNewestFirstOrders(fetched);
      SortNewestFirstKeeps(fetched);
      forall c ensures CreatedAt(tasks, c) == CreatedAt(fetched, c) {
        SortNewestFirstStable(fetched, c);
      }
    }

    /** `cleanup_old_tasks(days)`: the two passes over the finished sets. */
    method CleanupOldTasks(days: int, now: int) returns (count: nat)
      modifies this
      ensures (db, count) == CleanupSpec(old(db), now - days * DaySeconds)
    {
      var cutoff := now - days * DaySeconds;
      ghost var start := db;
      var tasks, completed, all, c, removedC := Sweep(db.tasks, db.completedTasks, db.allTasks, cutoff);
      assert removedC == OldCompleted(start, cutoff);
      var failed, f;
      ghost var removedF;
      tasks, failed, all, f, removedF := Sweep(tasks, db.failedTasks, all, cutoff);
      assert removedF == OldFailed(start, cutoff);
      db := db.(tasks := tasks, completedTasks := completed, failedTasks := failed, allTasks := all);
      count := c + f;
    }

    /** `get_stats`: the set sizes, and the online/offline split of `get_all_nodes`
        (node totals are read before that scan prunes `active_nodes`). */
    method GetStats(order: seq<string>, now: int) returns (stats: Stats)
      modifies this
      requires Distinct(order) && forall id :: id in order <==> id in db.activeNodes
      ensures stats.nodesTotal == |old(db).activeNodes|
      ensures stats.pending == |old(db).pendingTasks| && stats.running == |old(db).runningTasks|
      ensures stats.completed == |old(db).completedTasks| && stats.failed == |old(db).failedTasks|
      ensures stats.total == |old(db).allTasks|
      ensures db == AllNodesSpec(old(db), order, now).0
      ensures stats.nodesOnline == OnlineCount(AllNodesSpec(old(db), order, now).1)
      ensures stats.nodesOnline + stats.nodesOffline == |AllNodesSpec(old(db), order, now).1|
      ensures stats.nodesOnline + stats.nodesOffline <= stats.nodesTotal
    {
      var total := |db.activeNodes|;
      stats := Stats(total, 0, 0, |db.pendingTasks|, |db.runningTasks|, |db.completedTasks|,
                     |db.failedTasks|, |db.allTasks|);
      ghost var ks0 := db;
      var found := GetAllNodes(order, now);
      AllNodesCharacterized(ks0, order, now);
      DistinctCard(order);
      assert (set x | x in order) == ks0.activeNodes;
      var online, offline := CountStatuses(found);
      stats := stats.(nodesOnline := online, nodesOffline := offline);
    }
  }
}
