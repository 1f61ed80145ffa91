# ExoStack core, modelled in Dafny

ExoStack is a control plane for inference work. Worker nodes ("agents") register with a hub and report their CPU, RAM, GPU devices and loaded models. The hub keeps a registry of nodes and tasks in Redis. It queues tasks by priority and matches each one to a compatible node. A GPU-aware scheduler and a model-aware scheduler score the candidate nodes. A peer-to-peer handoff service moves a running task off an overloaded node. Beside the hub sit the shared services: the database task and node services, metrics collection and alerting, the model registry, model packaging and fine-tuning jobs. The agent side has the health monitor and the model manager. The same repository ships an Indian stock-market pipeline: cleaning and normalising daily price data, tokenising it, fine-tuning a sequence model, predicting, and evaluating. A launcher script starts and stops the hub and the agents.

This project models each of those source files as one Dafny module.
- Records the source treats as values are datatypes.
- Services that update their own fields in place are classes. Their methods state the whole new state in terms of a specification function of the old state.
- Loops in the source are `while` loops with invariants.
- Lemmas prove what the design promises. Examples: capacity is never exceeded, the queue order, that a sort keeps its rows, round trips, what each sweep removes and keeps, that tokenisation is bounded, and that failure paths change nothing.

These things are parameters or oracles:
- Redis is a `Keyspace` value: node and task hashes with expiry times, sets, and the pending sorted set.
- Clocks are `now` parameters.
- Network calls, process control and random choices are oracles whose outcomes are parameters.

Python's floating point is modelled as exact `real` arithmetic, and its string order as the lexicographic order on code points.

Six defects of the code as written are recorded under "## Findings". Each has a member modelling the code as written, with a lemma exhibiting the failure, and a corrected member that the rest of the model uses.

## Model

| member | source | states |
|---|---|---|
| HubModels.ParseNodeStatus | exostack-integration/hub/models.py:6-11 | a parsed node status has the given string as its value |
| HubModels.ParseTaskStatus | exostack-integration/hub/models.py:13-19 | a parsed task status has the given string as its value |
| HubModels.StatusValuesRoundTrip | exostack-integration/hub/models.py:6-19 | every status parses back from its value, a string that is no member's value is rejected, and "queued" is no task status |
| HubModels.NewNodeDefaults | exostack-integration/hub/models.py:30-42 | a node built from an id alone is offline, without capabilities or heartbeat, with zero counters and load |
| HubModels.TaskInputValidation | exostack-integration/hub/models.py:49-56 | a task input builds iff max_tokens is in 1..2048, temperature in [0, 2] and top_p in [0, 1]; the given values are kept and the defaults 100, 0.7, 0.9 filled in; the defaults alone always build |
| HubModels.TaskDefaults | exostack-integration/hub/models.py:67-82 | a task builds iff its priority is in 1..10, and is then pending with 0 retries of 3, a 300 s timeout, no node and no result |
| HubModels.AcceptedRequestYieldsValidTask | exostack-integration/hub/models.py:103-109 | a creation request is accepted iff priority 1..10, retries 0..10 and timeout 30..3600; an accepted one always builds a valid pending task with its priority |
| SharedModels.PriorityValueOrder | exostack-integration/shared/models/base.py:13-17 | ordering priorities by their string value is the alphabetical rank high < low < normal < urgent |
| SharedModels.DefaultTaskShape | exostack-integration/shared/models/base.py:48-62 | a task built with defaults is pending, unassigned, model "auto", normal priority, with the default requirements; two tasks built in one process share one creation time (the default is evaluated once) |
| SharedModels.DefaultNodeHasCapacity | exostack-integration/shared/models/base.py:64-70 | a freshly built agent node holds no task and has room for five |
| SharedModels.CapableDeviceFound | exostack-integration/hub/services/gpu_scheduler.py:142-150 | a device whose capability parses and meets the minimum makes the check succeed |
| SharedModels.FoundDeviceIsCapable | exostack-integration/hub/services/gpu_scheduler.py:142-153 | when the check succeeds, some device's capability parses and meets the minimum |
| SharedModels.FindDeviceWithFreeMemory | exostack-integration/hub/services/gpu_scheduler.py:121-129 | the device loop finds a device exactly when some device's total minus allocated memory reaches the need |
| SharedModels.DeviceMeetsCapability | exostack-integration/hub/services/gpu_scheduler.py:144-150 | one device passes iff both capability strings parse as floats and the device's is at least the minimum |
| SharedModels.FindDeviceWithCapability | exostack-integration/hub/services/gpu_scheduler.py:139-153 | the loop succeeds exactly when some device passes; unparsable ones are skipped |
| SharedModels.FoundDeviceStays | exostack-integration/hub/services/gpu_scheduler.py:143-148 | a device found among the first devices is found in the whole list |
| SharedModels.UnparseableCapabilitySkipped | exostack-integration/hub/services/gpu_scheduler.py:145-150 | a device whose capability does not parse never passes, and an unparsable minimum fails every device |
| GpuScheduling.NodeMeetsRequirements | exostack-integration/hub/services/gpu_scheduler.py:105-163 | the loop over GPU devices answers exactly the requirement predicate (GPU, RAM, free GPU memory, compute capability, spare slot) |
| GpuScheduling.FilterConditions | exostack-integration/hub/services/gpu_scheduler.py:105-159 | a passing node has a spare slot; a GPU requirement, too little RAM, or a GPU-memory or capability requirement on a GPU-less node each rule the node out |
| GpuScheduling.DefaultRequirementsAcceptCpuNodes | exostack-integration/hub/services/gpu_scheduler.py:105-159 | the default requirements accept every node with 1 GB free and a spare slot |
| GpuScheduling.Suitable | exostack-integration/hub/services/gpu_scheduler.py:95-103 | the suitable nodes are exactly the registry's nodes that pass the filter, in registry order |
| GpuScheduling.FindSuitableNodes | exostack-integration/hub/services/gpu_scheduler.py:95-103 | the loop returns exactly the suitable nodes |
| GpuScheduling.CountSupported | exostack-integration/hub/services/gpu_scheduler.py:209-212 | at most one 3-point bonus per preferred model |
| GpuScheduling.BusierNodeScoresLower | exostack-integration/hub/services/gpu_scheduler.py:201-203 | of two nodes differing only in load, the busier one scores strictly lower |
| GpuScheduling.BestIn | exostack-integration/hub/services/gpu_scheduler.py:165-182 | a chosen index is among the nodes scanned and has a defined score |
| GpuScheduling.BestInOk | exostack-integration/hub/services/gpu_scheduler.py:184-203 | the choice is defined iff every passing node's score is defined (no division by zero) |
| GpuScheduling.BestInNone | exostack-integration/hub/services/gpu_scheduler.py:167-170 | no node is chosen iff no scanned node passes the filter |
| GpuScheduling.BestInMeets | exostack-integration/hub/services/gpu_scheduler.py:167-182 | the chosen node passes the filter |
| GpuScheduling.BestInMaximal | exostack-integration/hub/services/gpu_scheduler.py:175-182 | no passing node scores higher than the chosen one |
| GpuScheduling.BestInFirstMaximal | exostack-integration/hub/services/gpu_scheduler.py:180-182 | every earlier passing node scores strictly lower (the stable sort keeps the first of equal scores) |
| GpuScheduling.BestInCharacterized | exostack-integration/hub/services/gpu_scheduler.py:165-182 | the choice is the first passing node of maximal score, nothing iff none passes, an error iff a score divides by zero |
| GpuScheduling.BestInErrPersists | exostack-integration/hub/services/gpu_scheduler.py:175-177 | once a score raises, the rest of the scan keeps the error |
| GpuScheduling.FindBestNode | exostack-integration/hub/services/gpu_scheduler.py:165-182 | the loop returns the specified best node |
| GpuScheduling.InsertByKeyCounts | exostack-integration/hub/services/gpu_scheduler.py:72 | inserting a task into the sorted queue adds exactly that task |
| GpuScheduling.InsertByKeySorted | exostack-integration/hub/services/gpu_scheduler.py:72 | inserting into a sorted queue keeps it sorted by (priority, created_at) |
| GpuScheduling.InsertByKeyStable | exostack-integration/hub/services/gpu_scheduler.py:72 | inserting a task into a sorted queue places it after every task with the same (priority, created_at) key, so each key's tasks keep their order |
| GpuScheduling.SortQueueOrders | exostack-integration/hub/services/gpu_scheduler.py:72 | the sorted queue is ordered by (priority value, creation time) |
| GpuScheduling.SortQueueKeepsTasks | exostack-integration/hub/services/gpu_scheduler.py:72 | the sorted queue is a permutation of the queue |
| GpuScheduling.SortQueueStable | exostack-integration/hub/services/gpu_scheduler.py:72 | the sort is stable: for every key, the tasks with that key come out in their queue order |
| GpuScheduling.EqualKeysKeepSubmissionOrder | exostack-integration/hub/services/gpu_scheduler.py:72 | two tasks with the same priority and creation time come out of the sort in submission order |
| GpuScheduling.SortQueueSorts | exostack-integration/hub/services/gpu_scheduler.py:72 | sorting orders the queue by key, keeps exactly its tasks, and keeps tasks with equal keys in queue order (a stable sort) |
| GpuScheduling.SortedQueueFollowsPriorityStrings | exostack-integration/hub/services/gpu_scheduler.py:72 | the queue is ordered by the priority string, so "high" comes before "low", "normal" and "urgent" |
| GpuScheduling.TryAssign | exostack-integration/hub/services/gpu_scheduler.py:77-86 | one loop iteration equals the step function: assign to the best node, or keep the task |
| GpuScheduling.RunPass | exostack-integration/hub/services/gpu_scheduler.py:76-89 | the loop over the sorted queue equals the pass function |
| GpuScheduling.PassCounts | exostack-integration/hub/services/gpu_scheduler.py:76-93 | every task examined is kept or removed; the node list keeps its length and ids |
| GpuScheduling.StepLoads | exostack-integration/hub/services/gpu_scheduler.py:220-238 | one step adds one to the total load exactly when it assigns the task |
| GpuScheduling.PassLoads | exostack-integration/hub/services/gpu_scheduler.py:76-93 | a pass adds to the total load exactly the number of tasks assigned |
| GpuScheduling.PassKeepsCapacity | exostack-integration/hub/services/gpu_scheduler.py:76-93 | no node ends a pass above its concurrency limit when none started above it |
| GpuScheduling.StepKept | exostack-integration/hub/services/gpu_scheduler.py:81-86 | one step keeps the task or leaves the kept list unchanged |
| GpuScheduling.StepRemoved | exostack-integration/hub/services/gpu_scheduler.py:220-238 | one step appends to the removed list only a task just started running now |
| GpuScheduling.PassKept | exostack-integration/hub/services/gpu_scheduler.py:91-93 | the kept tasks extend the old list, in queue order, and come from the queue |
| GpuScheduling.PassRemoved | exostack-integration/hub/services/gpu_scheduler.py:76-93 | the removed tasks extend the old list and are all running, started now |
| GpuScheduling.PassKeepsUnassignedInOrder | exostack-integration/hub/services/gpu_scheduler.py:76-93 | a pass splits the tasks it examines, in order, into the kept ones (unchanged, appended to the queue) and the removed ones (started now on a node, appended to `tasks_to_remove`); each task lands in exactly one list |
| GpuScheduling.SplitsInOrderCovers | exostack-integration/hub/services/gpu_scheduler.py:89-93 | the kept and removed tasks together number the tasks examined, and every kept task is one of them |
| GpuScheduling.SplitKeepsSorted | exostack-integration/hub/services/gpu_scheduler.py:89-93 | the tasks kept from a sorted list are still sorted |
| GpuScheduling.ProcessedQueueStaysSorted | exostack-integration/hub/services/gpu_scheduler.py:66-93 | after `_process_task_queue` the tasks left in the queue are in sorted order |
| GpuScheduling.FindNode | exostack-integration/hub/services/gpu_scheduler.py:265 | the registry lookup finds the first node with that id, nothing iff none has it |
| GpuScheduling.Release | exostack-integration/hub/services/gpu_scheduler.py:264-267 | releasing keeps the node list's length |
| GpuScheduling.Finish | exostack-integration/hub/services/gpu_scheduler.py:254-261 | the record is completed now; FAILED with the error iff a non-empty error is given, otherwise COMPLETED with the result; id and node kept |
| GpuScheduling.AssignThenCompleteRestores | exostack-integration/hub/services/gpu_scheduler.py:220-274 | assigning then completing a task restores the node loads and both tracking maps |
| GpuScheduling.GpuScheduler.constructor | exostack-integration/hub/services/gpu_scheduler.py:17-22 | empty queue and tracking maps over the registry's nodes |
| GpuScheduling.GpuScheduler.SubmitTask | exostack-integration/hub/services/gpu_scheduler.py:35-54 | accepted iff some node passes the filter now, then appended to the queue; otherwise the task comes back FAILED with "No suitable nodes available" |
| GpuScheduling.GpuScheduler.ProcessTaskQueue | exostack-integration/hub/services/gpu_scheduler.py:66-93 | an empty queue changes nothing; otherwise nodes, running tasks, assignments and queue are those of the pass over the stably sorted queue |
| GpuScheduling.GpuScheduler.CompleteTask | exostack-integration/hub/services/gpu_scheduler.py:244-274 | an unknown id changes nothing; otherwise the finished record, one slot released on its node, and the id gone from both maps; the queue is untouched |
| GpuScheduling.GpuScheduler.GetQueueStatus | exostack-integration/hub/services/gpu_scheduler.py:276-298 | the two counts; one detail (id, requires_gpu, priority string, created_at) per queued task in queue order; one detail (id, assigned node, start time) per running task |
| ModelAwareScheduling.StrategyWeights | exostack-integration/hub/services/model_aware_scheduler.py:276-318 | every strategy's five weights are positive and add up to 1; performance, resource and load strategies weigh their own component 0.4, above compatibility; model affinity weighs compatibility 0.3, highest |
| ModelAwareScheduling.ModelCompatibility | exostack-integration/hub/services/model_aware_scheduler.py:176-213 | the compatibility score lies in [0, 1]; a supported model scores 1, a model unknown to the registry 0.5 |
| ModelAwareScheduling.CompatibilityParts | exostack-integration/hub/services/model_aware_scheduler.py:189-213 | GPU fit, RAM and free GPU memory together are capped at 1; with neither GPU nor CPU fit and too little RAM at most 0.3; a CPU-only fit with enough RAM 0.6 |
| ModelAwareScheduling.AllocatedWithinTotal | exostack-integration/hub/services/model_aware_scheduler.py:229-230 | devices that have not over-allocated have total allocated GPU memory between 0 and the total |
| ModelAwareScheduling.ResourceAvailabilityBounded | exostack-integration/hub/services/model_aware_scheduler.py:215-241 | a node with a free slot, non-negative RAM and no over-allocated device scores its resources in [0, 1] |
| ModelAwareScheduling.LoadBalanceInRange | exostack-integration/hub/services/model_aware_scheduler.py:256-261 | a node under its limit has a load-balance score in (0, 1], and an idle node scores 1 |
| ModelAwareScheduling.PerformanceScore | exostack-integration/hub/services/model_aware_scheduler.py:243-254 | at most 1; 0.5 for a node without a record; positive for a positive recorded speed |
| ModelAwareScheduling.AffinityScore | exostack-integration/hub/services/model_aware_scheduler.py:263-274 | in [0, 1]; 0 exactly when the usage count is not positive; 1 from ten uses on |
| ModelAwareScheduling.WeightedTotalWithin | exostack-integration/hub/services/model_aware_scheduler.py:121-129 | components in [0, 1] give a weighted total in [0, 1] |
| ModelAwareScheduling.WeightedTotalMonotone | exostack-integration/hub/services/model_aware_scheduler.py:121-129 | raising any component never lowers the total |
| ModelAwareScheduling.WeightedTotalBounded | exostack-integration/hub/services/model_aware_scheduler.py:121-129 | the total of unit components lies in [0, 1] and is monotone in each component |
| ModelAwareScheduling.NodeTotal | exostack-integration/hub/services/model_aware_scheduler.py:102-139 | a node is scored iff it passes the basic compatibility check |
| ModelAwareScheduling.NodeTotalBounded | exostack-integration/hub/services/model_aware_scheduler.py:102-139 | a node passing the basic check with sane resources and a non-negative record scores in [0, 1] |
| ModelAwareScheduling.CompatibilityOf | exostack-integration/hub/services/model_aware_scheduler.py:176-213 | the device loop computes exactly the compatibility score |
| ModelAwareScheduling.ScoreNode | exostack-integration/hub/services/model_aware_scheduler.py:102-139 | the method computes exactly the node's score |
| ModelAwareScheduling.PickBest | exostack-integration/hub/services/model_aware_scheduler.py:76-89 | nothing iff no node was scored; otherwise the best index (highest score, earliest among ties) |
| ModelAwareScheduling.BestUnique | exostack-integration/hub/services/model_aware_scheduler.py:80-89 | the best index is unique |
| ModelAwareScheduling.BumpEffects | exostack-integration/hub/services/model_aware_scheduler.py:340-349 | the chosen pair's usage goes up by one and no other pair's changes; its affinity score never drops and strictly rises below ten uses |
| ModelAwareScheduling.Bump | exostack-integration/hub/services/model_aware_scheduler.py:340-349 | the tracked nodes after counting a use are the old ones plus the chosen node |
| ModelAwareScheduling.Totals | exostack-integration/hub/services/model_aware_scheduler.py:69-74 | one score per active node, in registry order, each the node's score |
| ModelAwareScheduling.ScoreAll | exostack-integration/hub/services/model_aware_scheduler.py:69-74 | the loop computes exactly the scores of all nodes |
| ModelAwareScheduling.ModelAwareScheduler.constructor | exostack-integration/hub/services/model_aware_scheduler.py:43-51 | the chosen strategy, empty caches, refresh time now |
| ModelAwareScheduling.ModelAwareScheduler.UpdatePerformanceCache | exostack-integration/hub/services/model_aware_scheduler.py:320-338 | only the refresh time moves, and only once it is five minutes old |
| ModelAwareScheduling.ModelAwareScheduler.FindBestNode | exostack-integration/hub/services/model_aware_scheduler.py:53-100 | nothing iff no active node passes the basic check; otherwise the first node with the best-scored node's id, whose use of the model is counted; the cache refresh runs only when there are nodes |
| Registry.RegisterThenGet | exostack-integration/hub/services/registry.py:27-55 | after registering, the node is active and reads back (within 30 s) with its status, this heartbeat, zero counters and its capabilities; no other node's hash and no task data change |
| Registry.HeartbeatThenGet | exostack-integration/hub/services/registry.py:57-79 | a heartbeat succeeds iff the node's hash is live; a failed one changes nothing; after a success the node reads back until the 24 h expiry, online within 30 s and offline after |
| Registry.GetNodeCharacterized | exostack-integration/hub/services/registry.py:81-100 | a node reads back iff its hash is live; the reply is the stored hash with status "offline" once the heartbeat is more than 30 s old, and that status is written back; asking twice is the same as asking once |
| Registry.AllNodesKeepsData | exostack-integration/hub/services/registry.py:102-120 | listing all nodes changes no node's liveness or heartbeat |
| Registry.AllNodesStepKeepsData | exostack-integration/hub/services/registry.py:108-114 | reading (and possibly dropping) one node of the scan keeps every node's liveness and heartbeat |
| Registry.AllNodesCharacterized | exostack-integration/hub/services/registry.py:102-120 | the listing holds exactly the scanned ids that still have a live hash, and exactly the others leave `active_nodes` |
| Registry.AllNodesDistinct | exostack-integration/hub/services/registry.py:106-111 | scanning a set (no repeated id) lists no node twice |
| Registry.CreateTaskAsWritten | exostack-integration/hub/services/registry.py:141-172 | as written, storing a task fails (its input model and missing node id cannot be serialised) and nothing is stored |
| Registry.CreateTaskEffects | exostack-integration/hub/services/registry.py:141-172 | the task hash is stored with its status, priority and creation time, listed in `all_tasks`, and queued with its priority as score exactly when pending; nothing else changes |
| Registry.UpdateTaskStatusEffects | exostack-integration/hub/services/registry.py:174-223 | succeeds iff the task hash exists; a failure changes nothing; status, time, node, result and completion time are written; running leaves the queue, completed/failed leave the running set for their own set; a completed task's node gains one completed count |
| Registry.OutranksTransitive | exostack-integration/hub/services/registry.py:253-261 | the queue order (higher score first, ties by the member that sorts last) is transitive |
| Registry.OutranksTotal | exostack-integration/hub/services/registry.py:253-261 | any two distinct queued tasks are ordered |
| Registry.TopUnique | exostack-integration/hub/services/registry.py:253-261 | the head of the queue is unique |
| Registry.TopExists | exostack-integration/hub/services/registry.py:253-261 | a non-empty queue has a head |
| Registry.Head | exostack-integration/hub/services/registry.py:253-265 | nothing iff the queue is empty, otherwise the task that outranks every other queued task |
| Registry.CleanupCharacterized | exostack-integration/hub/services/registry.py:313-339 | the cleanup deletes exactly the completed or failed task hashes created before the cutoff, keeps the rest unchanged and leaves nodes, queue and running set alone |
| Registry.CleanupRemovedKeys | exostack-integration/hub/services/registry.py:320-332 | the deleted hashes are the union of the two passes' old completed and old failed tasks |
| Registry.CleanupCount | exostack-integration/hub/services/registry.py:313-335 | the returned count is the number of task hashes deleted |
| Registry.Fetch | exostack-integration/hub/services/registry.py:300-303 | the fetched records are at most as many as the ids asked for |
| Registry.InsertNewestFirstCounts | exostack-integration/hub/services/registry.py:306 | inserting a record into the newest-first list adds exactly that record |
| Registry.InsertNewestFirstOrders | exostack-integration/hub/services/registry.py:306 | inserting into a newest-first list keeps it newest first |
| Registry.SortNewestFirstOrders | exostack-integration/hub/services/registry.py:306 | the sort leaves the records newest first |
| Registry.SortNewestFirstKeeps | exostack-integration/hub/services/registry.py:306 | the sort is a permutation of its input |
| Registry.InsertNewestFirstStable | exostack-integration/hub/services/registry.py:306 | inserting a record into a newest-first list places it after every record created at the same time |
| Registry.SortNewestFirstStable | exostack-integration/hub/services/registry.py:306 | the sort is stable with `reverse=True`: records created at the same time keep their fetch order |
| Registry.AllTasksWindow | exostack-integration/hub/services/registry.py:298 | `[-limit:]` keeps the last min(limit, n) ids; a limit of 0 keeps every id; a negative limit drops the first ones |
| Registry.Sweep | exostack-integration/hub/services/registry.py:320-332 | one pass deletes exactly the members created before the cutoff from the hashes, the finished set and `all_tasks`, and counts them |
| Registry.CountStatuses | exostack-integration/hub/services/registry.py:359-365 | the online count is the number of listed nodes reporting "online"; online plus offline is the number listed |
| Registry.RedisRegistry.RegisterNode | exostack-integration/hub/services/registry.py:27-55 | corrected registration: always succeeds and stores the node as specified |
| Registry.RedisRegistry.RegisterNodeAsWritten | exostack-integration/hub/services/registry.py:27-55 | as written: succeeds iff the node has no capabilities (serialising a capabilities model raises), and a failure stores nothing |
| Registry.RedisRegistry.UpdateNodeHeartbeat | exostack-integration/hub/services/registry.py:57-79 | the new keyspace and the reply are the heartbeat transition |
| Registry.RedisRegistry.GetNode | exostack-integration/hub/services/registry.py:81-100 | the new keyspace and the reply are the read transition |
| Registry.RedisRegistry.GetAllNodes | exostack-integration/hub/services/registry.py:102-120 | the new keyspace and the listing are the scan over `active_nodes` in its iteration order |
| Registry.RedisRegistry.RemoveNode | exostack-integration/hub/services/registry.py:122-138 | the node leaves `active_nodes` and its hash is deleted; the call reports success |
| Registry.RedisRegistry.CreateTask | exostack-integration/hub/services/registry.py:141-172 | corrected creation: always succeeds and stores the task as specified |
| Registry.RedisRegistry.UpdateTaskStatus | exostack-integration/hub/services/registry.py:174-223 | the new keyspace and the reply are the status transition |
| Registry.RedisRegistry.GetTask | exostack-integration/hub/services/registry.py:225-251 | the stored record of the task, nothing iff it has no hash |
| Registry.RedisRegistry.GetPendingTask | exostack-integration/hub/services/registry.py:253-265 | the head of the queue, nothing iff it is empty; the queue is not changed |
| Registry.RedisRegistry.GetTasksByStatus | exostack-integration/hub/services/registry.py:267-292 | the records of exactly the ids in the status's set that still have a hash, each once |
| Registry.RedisRegistry.GetAllTasks | exostack-integration/hub/services/registry.py:294-311 | the records of the last `limit` ids of `all_tasks` that still have a hash, as a permutation sorted newest first, records created at the same time in fetch order |
| Registry.RedisRegistry.CleanupOldTasks | exostack-integration/hub/services/registry.py:313-339 | the new keyspace and the count are the cleanup with cutoff now minus `days` days |
| Registry.RedisRegistry.GetStats | exostack-integration/hub/services/registry.py:341-367 | set sizes read before the scan; online is the number of listed nodes reporting online, and online plus offline never exceeds the node total |
| Registry.RedisRegistry.constructor | exostack-integration/hub/services/registry.py:15-24 | a new registry is connected to an empty store |
| TaskScheduling.AvailableAmong | exostack-integration/hub/services/scheduler.py:94-103 | the kept nodes are exactly the listed nodes that are online with fewer than three running tasks, in listing order |
| TaskScheduling.CountOnListing | exostack-integration/hub/services/scheduler.py:97-102 | counting `node_id == id` over any listing of the running tasks gives the number of running tasks on that node |
| TaskScheduling.AssignSpecEffects | exostack-integration/hub/services/scheduler.py:111-167 | a task without a hash is skipped; otherwise it leaves the queue, takes the node id, and ends completed, failed (simulated failure) or back at pending with the running mark (raised send); other hashes unchanged |
| TaskScheduling.PassTakesOnePerNode | exostack-integration/hub/services/scheduler.py:63-86 | on a well-formed queue one pass removes exactly min(#available nodes, #pending) tasks, one per node, and adds none |
| TaskScheduling.HeadWithoutHashBlocksQueue | exostack-integration/hub/services/scheduler.py:78-83 | a queue head without a task hash is popped for no task and the pass leaves the registry unchanged |
| TaskScheduling.PassLeavesUnqueued | exostack-integration/hub/services/scheduler.py:63-86 | a task not in the pending queue keeps its hash through a pass |
| TaskScheduling.FailTimedOutEffects | exostack-integration/hub/services/scheduler.py:180-184 | failing one task for the timeout marks it failed with "Task timeout", moves it from running to failed and changes no other hash |
| TaskScheduling.TimeoutSweepKeeps | exostack-integration/hub/services/scheduler.py:169-187 | the sweep keeps the task keys and the pending queue, only adds to the failed set and only removes from the running set |
| TaskScheduling.TimeoutSweepLeaves | exostack-integration/hub/services/scheduler.py:169-187 | a task the sweep does not time out keeps its hash and its running membership |
| TaskScheduling.TimeoutSweepFails | exostack-integration/hub/services/scheduler.py:178-184 | a listed task older than 300 s ends failed with "Task timeout", out of running and in failed |
| TaskScheduling.TimeoutSweepPrefix | exostack-integration/hub/services/scheduler.py:169-187 | over any listing of distinct hashes: timed-out tasks are failed, all others untouched, keys and queue kept |
| TaskScheduling.TimeoutSweepEffects | exostack-integration/hub/services/scheduler.py:169-187 | every running task older than 300 s ends failed with "Task timeout"; every other running task is left as it was |
| TaskScheduling.CleanupEvery720 | exostack-integration/hub/services/scheduler.py:189-201 | after n calls the counter is n mod 720 and the n-th call runs the cleanup exactly when 720 divides n |
| TaskScheduling.CancelledTaskIsStillDispatched | exostack-integration/hub/services/scheduler.py:245-256 | as written, a cancelled pending task is marked failed but stays at the head of the queue, and the next pass hands it to a node (it may even complete) |
| TaskScheduling.CancelledTaskIsNeverDispatched | exostack-integration/hub/services/scheduler.py:245-263 | corrected: cancelling succeeds iff the task exists and is pending; the task is failed with "Task cancelled by user", off the queue, and no later pass touches it |
| TaskScheduling.TaskScheduler.Start | exostack-integration/hub/services/scheduler.py:19-27 | starting sets the running flag and keeps the cleanup counter |
| TaskScheduling.TaskScheduler.Stop | exostack-integration/hub/services/scheduler.py:29-42 | stopping clears the running flag and keeps the cleanup counter |
| TaskScheduling.TaskScheduler.GetAvailableNodes | exostack-integration/hub/services/scheduler.py:88-109 | the registry after listing all nodes (expired ones dropped) and the available nodes among them |
| TaskScheduling.TaskScheduler.AssignTaskToNode | exostack-integration/hub/services/scheduler.py:111-167 | the registry afterwards is the assignment of the task to the node with the given dispatch outcome |
| TaskScheduling.TaskScheduler.ProcessPendingTasks | exostack-integration/hub/services/scheduler.py:63-86 | the registry afterwards is one pass of the available nodes over the queue while running, the listing alone otherwise |
| TaskScheduling.TaskScheduler.CheckRunningTasks | exostack-integration/hub/services/scheduler.py:169-187 | the registry afterwards is the timeout sweep over some listing of the running tasks, or unchanged when stopped |
| TaskScheduling.TaskScheduler.CleanupOldTasks | exostack-integration/hub/services/scheduler.py:189-204 | the counter advances modulo 720, and on the 720th call the finished tasks older than seven days are deleted |
| TaskScheduling.TaskScheduler.CreateTaskAsWritten | exostack-integration/hub/services/scheduler.py:206-231 | as written, every call raises, because the registry cannot store the task |
| TaskScheduling.TaskScheduler.CreateTask | exostack-integration/hub/services/scheduler.py:206-231 | corrected: succeeds iff the input and priority 1..10 are valid, returns the new id of a stored pending task, and changes nothing on error |
| TaskScheduling.TaskScheduler.CancelTaskAsWritten | exostack-integration/hub/services/scheduler.py:245-263 | cancellation exactly as written: a pending task is set failed and stays queued |
| TaskScheduling.TaskScheduler.CancelTask | exostack-integration/hub/services/scheduler.py:245-263 | corrected cancellation, which also removes the task from the pending queue |
| TaskScheduling.TaskScheduler.constructor | exostack-integration/hub/services/scheduler.py:15-17 | a new scheduler is not running |
| TaskEndpoints.RouterNodeMeetsRequirements | exostack-integration/hub/routers/tasks.py:408-445 | the device loop answers exactly the router's requirement predicate (GPU, RAM, free GPU memory, spare slot) |
| TaskEndpoints.RouterFilterRelation | exostack-integration/hub/routers/tasks.py:408-441 | the router's check is the scheduler's filter without the compute-capability test: implied by it, equal to it when no capability is asked, and blind to the capability asked |
| TaskEndpoints.FirstSuitableNode | exostack-integration/hub/routers/tasks.py:176-183 | nothing iff no active node passes the router's check, otherwise the first node that does |
| TaskEndpoints.PersistentData | exostack-integration/hub/routers/tasks.py:145-160 | the stored row carries every requirement of the request (GPU, RAM, GPU memory, compute capability, preferred models, duration limit) so they read back unchanged, with the model, input, priority and creator given, the fixed parameters max_tokens 100, temperature 0.7, top_p 0.9, and no tags |
| TaskEndpoints.ParseDbPriority | exostack-integration/hub/routers/tasks.py:153 | `DBTaskPriority(priority)` accepts exactly the four priority strings the task model accepts |
| TaskEndpoints.CreatePersistentTaskAsWritten | exostack-integration/hub/routers/tasks.py:143-210 | as written every call answers 500: an unknown priority before anything is stored, any other after the new row is stored pending, when `registry.get_active_nodes()` (line 177) raises AttributeError |
| TaskEndpoints.CreatePersistentTask | exostack-integration/hub/routers/tasks.py:143-210 | corrected: 500 with nothing stored for an unknown priority or a taken id; otherwise the row is stored, stays "pending" iff no active node passes, and else is assigned and QUEUED on the first passing node, not the best-scoring one |
| TaskEndpoints.ParsePriority | exostack-integration/hub/routers/tasks.py:87 | a parsed priority's value is the given string |
| TaskEndpoints.CreateGpuAwareTask | exostack-integration/hub/routers/tasks.py:57-118 | 200 iff the priority string names a priority and some node passes the scheduler's filter, then the task is queued with the given fields; otherwise 500 (the 400 is re-raised as 500) and the queue is unchanged |
| TaskEndpoints.CreateEndpointAsWritten | exostack-integration/hub/routers/tasks.py:32-55 | as written, every request is answered 500 because task creation always raises |
| TaskEndpoints.CreateEndpoint | exostack-integration/hub/routers/tasks.py:32-55 | corrected: a valid request is answered 200 with the fresh id of a stored, queued pending task with the request's priority |
| TaskEndpoints.NextTaskCodes | exostack-integration/hub/routers/tasks.py:559-595 | 404 iff the agent has no live hash, 400 iff it is not online, "No pending tasks" with an empty queue; otherwise the head of the queue is set running on the agent and leaves the queue |
| TaskEndpoints.FinishCodes | exostack-integration/hub/routers/tasks.py:597-673 | 404 iff the task is unknown, 403 iff it is assigned to another agent, and an error changes nothing; otherwise the task takes the new status and result, leaves the running set for its own set, and a completion counts on the agent |
| TaskEndpoints.UpdateStatusEndpointSpec | exostack-integration/hub/routers/tasks.py:461-483 | 404 iff the registry does not know the task; otherwise updated to the requested status |
| TaskEndpoints.AgentEndpoints.NextTask | exostack-integration/hub/routers/tasks.py:559-595 | the new registry and reply are the next-task transition |
| TaskEndpoints.AgentEndpoints.Finish | exostack-integration/hub/routers/tasks.py:597-673 | the new registry and reply are the finish transition |
| TaskEndpoints.AgentEndpoints.CompleteTask | exostack-integration/hub/routers/tasks.py:597-635 | finishing with status "completed" and the given result |
| TaskEndpoints.AgentEndpoints.FailTask | exostack-integration/hub/routers/tasks.py:637-673 | finishing with status "failed" and a result holding only the error |
| TaskEndpoints.AgentEndpoints.UpdateStatus | exostack-integration/hub/routers/tasks.py:461-483 | the new registry and reply are the status-update transition |
| TaskEndpoints.AgentEndpoints.Cancel | exostack-integration/hub/routers/tasks.py:495-509 | the registry is the cancellation's; 400 "Cannot cancel task" when it is refused |
| NodeEndpoints.HealthScore | exostack-integration/hub/routers/nodes.py:159-181 | the health score is clamped to [0, 100] |
| NodeEndpoints.HealthyNodeScoresFull | exostack-integration/hub/routers/nodes.py:159-181 | a fresh heartbeat, load at most 0.8 and no failures score exactly 100 |
| NodeEndpoints.HealthPenaltiesBounded | exostack-integration/hub/routers/nodes.py:163-179 | the heartbeat penalty is at most 50 (one point per second past 30 s), the failure penalty at most 30, and the load penalty (load - 0.8) * 100 while the score stays positive |
| NodeEndpoints.HealthScoreMonotone | exostack-integration/hub/routers/nodes.py:159-181 | an older heartbeat or a higher load never raises the score |
| NodeEndpoints.RegistrationNode | exostack-integration/hub/routers/nodes.py:23-33 | the node built is online with the request's id and its capabilities, or the default ones when none are given |
| NodeEndpoints.RegisterEndpointAsWritten | exostack-integration/hub/routers/nodes.py:18-55 | as written, the registry cannot store the capabilities, so every registration is answered 500 and nothing is stored |
| NodeEndpoints.RegisterEndpoint | exostack-integration/hub/routers/nodes.py:18-55 | corrected: 200, and the built node is registered |
| NodeEndpoints.RegisteredNodeReadsBack | exostack-integration/hub/routers/nodes.py:18-55 | a node registered through the endpoint reads back online with its capabilities (or the defaults) for the next 30 s |
| NodeEndpoints.HeartbeatEndpointCodes | exostack-integration/hub/routers/nodes.py:57-85 | 200 iff the node's hash is live, then online with this heartbeat and the load and active-task count sent (others kept), no other node touched; otherwise 500 (the 404 is re-raised as 500) and nothing changes |
| NodeEndpoints.HeartbeatEndpoint | exostack-integration/hub/routers/nodes.py:57-85 | the new registry and code are the heartbeat-endpoint transition |
| NodeEndpoints.NodeInfo | exostack-integration/hub/routers/nodes.py:97-109 | the node as the registry reports it iff it has a live hash, else 404; the read's status write-back is kept |
| NodeEndpoints.RemoveEndpoint | exostack-integration/hub/routers/nodes.py:111-125 | always 200 (the registry always reports success), and the node is removed |
| NodeEndpoints.Report | exostack-integration/hub/routers/nodes.py:135-149 | the report's health score lies in [0, 100] and its heartbeat age is now minus the last heartbeat |
| NodeEndpoints.NodeHealth | exostack-integration/hub/routers/nodes.py:127-157 | 404 iff the node has no live hash; otherwise the report of the node as read, offline once the heartbeat is more than 30 s old |
| StatusRules.CountStatus | exostack-integration/hub/routers/status.py:115-116 | a count of statuses is at most the number of nodes |
| StatusRules.CountStatusAll | exostack-integration/hub/routers/status.py:123 | the count reaches the number of nodes exactly when every node has that status |
| StatusRules.CountStatusDisjoint | exostack-integration/hub/routers/status.py:115-117 | counts of two different statuses add up to at most the number of nodes |
| StatusRules.OverallStatusCases | exostack-integration/hub/routers/status.py:110-126 | "unknown" iff no nodes; "critical" iff more than 20% in error; "warning" iff not critical and fewer than half online; "healthy" iff all online; "degraded" otherwise |
| StatusRules.Uptime | exostack-integration/hub/routers/status.py:128-132 | no uptime iff no start time; otherwise the seconds from the start to now |
| NodeDiscovery.MatchesCharacterized | exostack-integration/hub/services/node_discovery.py:238-254 | a node matches iff every required key is present with a number at least the required one (numeric requirement) or an equal value; the check cannot raise when every numeric requirement meets a number |
| NodeDiscovery.AvailablePrefixStep | exostack-integration/hub/services/node_discovery.py:102-111 | scanning one more node is one more filter step |
| NodeDiscovery.AvailableMembers | exostack-integration/hub/services/node_discovery.py:102-111 | a successful scan keeps exactly the ONLINE nodes that match |
| NodeDiscovery.AvailableErrCause | exostack-integration/hub/services/node_discovery.py:108-111 | a scan that raises met an ONLINE node whose capability check raises |
| NodeDiscovery.AvailableOk | exostack-integration/hub/services/node_discovery.py:108-111 | when no ONLINE node's capability check raises, neither does the scan |
| NodeDiscovery.AvailableCharacterized | exostack-integration/hub/services/node_discovery.py:95-113 | over all registered nodes: a successful result holds exactly the ONLINE matching nodes; an error comes from an ONLINE node whose check raises; no such node means no error |
| NodeDiscovery.AvailableErrPersists | exostack-integration/hub/services/node_discovery.py:108-111 | once part of the scan raises, the whole scan raises the same error |
| NodeDiscovery.DiscoveredNodes | exostack-integration/hub/services/node_discovery.py:146-161 | discovery keeps the set of registered nodes |
| NodeDiscovery.DiscoveredConnections | exostack-integration/hub/services/node_discovery.py:146-182 | discovery keeps the set of connection entries |
| NodeDiscovery.NodesPendingEnds | exostack-integration/hub/services/node_discovery.py:151-161 | with every node still to visit nothing has changed, and with none left the nodes are the discovered ones |
| NodeDiscovery.ConnectionsPendingEnds | exostack-integration/hub/services/node_discovery.py:151-161 | the same two ends for the connection sets |
| NodeDiscovery.NodesPendingStep | exostack-integration/hub/services/node_discovery.py:154-158 | pinging one more node changes its entry only (seen now, or OFFLINE) |
| NodeDiscovery.ConnectionsPendingStep | exostack-integration/hub/services/node_discovery.py:154-156 | pinging one more node changes its connection set only (what it reports, when it answers) |
| NodeDiscovery.Discover | exostack-integration/hub/services/node_discovery.py:146-161 | the loop over the nodes computes exactly the discovered nodes and connection sets |
| NodeDiscovery.RoundDropsStaleNodes | exostack-integration/hub/services/node_discovery.py:206-236 | after the status sweep and the cleanup a node is gone iff it was unseen for more than 24 h and either timed out or already OFFLINE; a kept node keeps its id and last-seen time |
| NodeDiscovery.NodeDirectory.constructor | exostack-integration/hub/services/node_discovery.py:32-38 | the given node timeout, no nodes and no connection sets |
| NodeDiscovery.NodeDirectory.RegisterNode | exostack-integration/hub/services/node_discovery.py:59-84 | the node is stored ONLINE, seen now, replacing any earlier entry, with an empty connection set unless it reports its connections |
| NodeDiscovery.NodeDirectory.GetNodeInfo | exostack-integration/hub/services/node_discovery.py:86-93 | the stored node, nothing iff it is unknown |
| NodeDiscovery.NodeDirectory.GetAvailableNodes | exostack-integration/hub/services/node_discovery.py:95-113 | the result is the scan: exactly the ONLINE matching nodes, or the error of an ONLINE node whose check raises, and no error when no check raises |
| NodeDiscovery.NodeDirectory.UpdateNodeStatus | exostack-integration/hub/services/node_discovery.py:115-130 | an unknown node changes nothing; otherwise the new status, seen now, and the given capabilities merged over the old ones |
| NodeDiscovery.NodeDirectory.DiscoverAllNodes | exostack-integration/hub/services/node_discovery.py:146-161 | the nodes and connection sets become the discovered ones |
| NodeDiscovery.NodeDirectory.UpdateNodeStatuses | exostack-integration/hub/services/node_discovery.py:206-216 | every node unseen for longer than the timeout is marked OFFLINE, the others are unchanged |
| NodeDiscovery.NodeDirectory.CleanupStaleNodes | exostack-integration/hub/services/node_discovery.py:218-236 | exactly the nodes OFFLINE and unseen for more than 24 h leave both maps |
| P2PHandoffService.AddPeer | exostack-integration/hub/services/p2p_handoff.py:223-226 | after adding, the node has a connection entry |
| P2PHandoffService.AddPeerValid | exostack-integration/hub/services/p2p_handoff.py:223-226 | adding a node keeps the connection graph symmetric with one entry per known node |
| P2PHandoffService.AddPeerKeeps | exostack-integration/hub/services/p2p_handoff.py:223-226 | a new entry goes after the existing keys and leaves their connections alone |
| P2PHandoffService.ConnectValid | exostack-integration/hub/services/p2p_handoff.py:266-268 | recording a connection in both directions keeps the graph symmetric |
| P2PHandoffService.VerifyKeepsGraph | exostack-integration/hub/services/p2p_handoff.py:215-238 | the connection check keeps the graph symmetric |
| P2PHandoffService.VerifyKeepsConnections | exostack-integration/hub/services/p2p_handoff.py:215-238 | the check only appends to the key order and never drops a connection |
| P2PHandoffService.VerifyEffects | exostack-integration/hub/services/p2p_handoff.py:215-268 | connected iff already connected or the connection can be established; both nodes then have entries; connected iff the edge is recorded both ways; a failed check adds no edge |
| P2PHandoffService.Alternatives | exostack-integration/hub/services/p2p_handoff.py:270-284 | the alternatives are exactly the known nodes other than the source and the target, in key order |
| P2PHandoffService.FirstSuccessCharacterized | exostack-integration/hub/services/p2p_handoff.py:193-213 | the alternatives are tried in order: the answer is the first that succeeds, and none only when every one fails |
| P2PHandoffService.HandleFallback | exostack-integration/hub/services/p2p_handoff.py:167-213 | with the retries used up nothing changes and there is no result; otherwise one more retry is counted and the result is the first alternative's that succeeds |
| P2PHandoffService.InitiateOutcomes | exostack-integration/hub/services/p2p_handoff.py:81-141 | the session is in progress iff the nodes connect and the target answers, and the reply is then completed; otherwise the session fails after one retry and the reply is completed by a fallback or failed with the first error ("Nodes are not connected" when they do not connect); the handoff id is built from task id and time |
| P2PHandoffService.FallbackAvoidsSourceAndTarget | exostack-integration/hub/services/p2p_handoff.py:185-191 | a fallback never goes to the source or to the failed target, only to a known node |
| P2PHandoffService.SweepKeepsSuccessfulSessions | exostack-integration/hub/services/p2p_handoff.py:286-305 | a session whose handoff went through stays IN_PROGRESS and is never swept; a failed one goes once it is an hour old |
| P2PHandoffService.Verify | exostack-integration/hub/services/p2p_handoff.py:215-238 | the method computes exactly the connection-check transition |
| P2PHandoffService.Initiate | exostack-integration/hub/services/p2p_handoff.py:81-141 | the method computes exactly the handoff transition (graph, session, reply) |
| P2PHandoffService.P2PHandoff.VerifyNodeConnection | exostack-integration/hub/services/p2p_handoff.py:215-238 | the graph and answer are the check's; sessions and locks untouched; the graph stays symmetric |
| P2PHandoffService.P2PHandoff.InitiateHandoff | exostack-integration/hub/services/p2p_handoff.py:81-141 | the graph and reply are the handoff's, the session is stored and locked under its handoff id |
| P2PHandoffService.P2PHandoff.CleanupExpiredSessions | exostack-integration/hub/services/p2p_handoff.py:286-305 | exactly the COMPLETED and FAILED sessions started more than an hour ago go, with their locks; the graph is untouched |
| P2PHandoffService.P2PHandoff.constructor | exostack-integration/hub/services/p2p_handoff.py:55-60 | the service starts with no sessions, no node connections and no session locks |
| HandoffManaging.Ranks | exostack-integration/hub/services/p2p_handoff_manager.py:178-186 | one sort key per candidate: its available memory as stored (a text stays a text, a missing one counts as 0), minus its connection count, and its GPU memory as stored when it says it has a GPU |
| HandoffManaging.MemoryRanks | exostack-integration/hub/services/p2p_handoff_manager.py:216-219 | one key per node for the source search: its available memory as stored, a text staying a text |
| HandoffManaging.CompareOrder | exostack-integration/hub/services/p2p_handoff_manager.py:178-186 | Python's `<` on capability values compares two numbers or two texts and raises on a text against a number; where it does not raise it is irreflexive, asymmetric and total |
| HandoffManaging.CompareTransitive | exostack-integration/hub/services/p2p_handoff_manager.py:178-186 | `<` on capability values is transitive |
| HandoffManaging.RankOrder | exostack-integration/hub/services/p2p_handoff_manager.py:178-186 | `<` on key tuples raises for a < b exactly when it raises for b < a, and where it does not raise it is irreflexive, asymmetric and total |
| HandoffManaging.RankTransitive | exostack-integration/hub/services/p2p_handoff_manager.py:178-186 | `<` on key tuples is transitive |
| HandoffManaging.FirstMax | exostack-integration/hub/services/p2p_handoff_manager.py:216-219 | `max` lands on one of the keys, and can raise only TypeError (also lines 230-237) |
| HandoffManaging.FirstMaxChosen | exostack-integration/hub/services/p2p_handoff_manager.py:216-237 | when `max` returns, no key is above the one it chose and every earlier key is below it, so it is the first of the maximal keys; it returns whenever no two keys raise when compared |
| HandoffManaging.SortedHead | exostack-integration/hub/services/p2p_handoff_manager.py:178-188 | the head of `sorted(..., reverse=True)` is one of the keys, or TypeError when two keys cannot be compared |
| HandoffManaging.Others | exostack-integration/hub/services/p2p_handoff_manager.py:169-172 | the candidates are exactly the available nodes whose id is not the source's, in order |
| HandoffManaging.BestTargetChosen | exostack-integration/hub/services/p2p_handoff_manager.py:151-188 | the search raises TypeError exactly when the keys of two candidates raise when compared; otherwise a target exists iff some available node other than the source exists, it is never the source, and no other candidate ranks above it |
| HandoffManaging.FirstWithId | exostack-integration/hub/services/p2p_handoff_manager.py:209-212 | the first node with the preferred id, nothing iff none has it |
| HandoffManaging.PairSourceChosen | exostack-integration/hub/services/p2p_handoff_manager.py:207-220 | the source search lands on the preferred node when it is available, otherwise on a node no node has more available memory than, and raises only when the keys of two available nodes raise when compared |
| HandoffManaging.PairTargetChosen | exostack-integration/hub/services/p2p_handoff_manager.py:222-238 | there is no target candidate iff all available nodes share one id; otherwise the search raises only when the keys of two available nodes raise, and it lands on a node with another id than the source that no other such node ranks above |
| HandoffManaging.HandoffPairChosen | exostack-integration/hub/services/p2p_handoff_manager.py:190-240 | the search raises only TypeError, and only when the keys of two available nodes raise when compared; otherwise no pair iff fewer than two nodes are available or all share one id; else two different nodes, the source being the preferred node when it is available and else one no node has more memory than, and no node other than the source ranks above the target |
| HandoffManaging.TextAgainstNumberRaises | exostack-integration/hub/services/p2p_handoff_manager.py:178-186 | when one candidate reports its available memory as a number and another as a text, the target search raises TypeError |
| HandoffManaging.TextAgainstNumberPairRaises | exostack-integration/hub/services/p2p_handoff_manager.py:216-219 | for the same two nodes and no preferred source, the pair search raises TypeError in `max` over the available memory |
| HandoffManaging.RecordedHandoffIsCleanable | exostack-integration/hub/services/p2p_handoff_manager.py:242-257 | a recorded handoff always has a COMPLETED or FAILED reply, so it can always be cleaned up; PENDING and IN_PROGRESS records never are |
| HandoffManaging.HandoffManager.constructor | exostack-integration/hub/services/p2p_handoff_manager.py:15-19 | a fresh handoff service and discovery service, and no handoffs recorded |
| HandoffManaging.HandoffManager.Hand | exostack-integration/hub/services/p2p_handoff_manager.py:63-84 | the common tail of both entry points: the handoff is started, its session stored and locked, and the record written under the task id |
| HandoffManaging.HandoffManager.HandleOverload | exostack-integration/hub/services/p2p_handoff_manager.py:33-84 | when no target is found, or the search raises (the discovery TypeError or the ranking TypeError), nothing changes and the error propagates; otherwise the task is handed from the node to the best target at priority 2 and recorded |
| HandoffManaging.HandoffManager.CoordinateHandoff | exostack-integration/hub/services/p2p_handoff_manager.py:86-137 | when no pair is found, or the search raises (the discovery TypeError or the ranking TypeError), nothing changes and the error propagates; otherwise the task is handed from the chosen source to the chosen target at the default priority and recorded |
| HandoffManaging.HandoffManager.GetHandoffStatus | exostack-integration/hub/services/p2p_handoff_manager.py:139-149 | the task's record, an error iff none is recorded |
| HandoffManaging.HandoffManager.CleanupHandoff | exostack-integration/hub/services/p2p_handoff_manager.py:242-257 | the record goes exactly when its handoff is COMPLETED, FAILED or CANCELLED; every other record stays |
| DatabaseServices.NewTask | exostack-integration/shared/database/services.py:26-34 | a created task row keeps the id and every supplied column (model, input, parameters, all five requirements, priority, duration limit, creator, tags), is PENDING and unassigned, created and updated now, with no start, completion, duration, result or error yet |
| DatabaseServices.UpdateStatusEffects | exostack-integration/shared/database/services.py:44-80 | a status update sets the status and the update time; a start time is recorded only on the first move to RUNNING; COMPLETED or FAILED records the completion time and, when started, the duration; a non-empty result replaces the result and output tokens; a non-empty error replaces the message; id, fields, assignment and creation time never change, and consistent timing stays consistent |
| DatabaseServices.StartTimeIsStable | exostack-integration/shared/database/services.py:64-65 | over any sequence of status updates, a start time once recorded is never replaced |
| DatabaseServices.OldTaskIds | exostack-integration/shared/database/services.py:132-145 | the ids selected for cleanup are exactly the COMPLETED or FAILED tasks completed before the cutoff |
| DatabaseServices.CountInStatus | exostack-integration/shared/database/services.py:121-130 | the count for a status never exceeds the table size and is 0 exactly when no task has that status |
| DatabaseServices.TaskService.constructor | exostack-integration/shared/database/services.py:23-24 | the service starts with an empty task table |
| DatabaseServices.TaskService.CreateTask | exostack-integration/shared/database/services.py:26-34 | a new id is inserted as a fresh PENDING row and returned; an id already present fails and leaves the table unchanged |
| DatabaseServices.TaskService.GetTask | exostack-integration/shared/database/services.py:36-42 | a task is returned exactly when its id is in the table, and it is that row |
| DatabaseServices.TaskService.UpdateTaskStatus | exostack-integration/shared/database/services.py:44-80 | answers true exactly for a known task; that row becomes its status-updated form and no other row changes |
| DatabaseServices.TaskService.AssignTaskToNode | exostack-integration/shared/database/services.py:82-97 | answers true exactly for a known task; that task gets the node and status QUEUED and nothing else changes |
| DatabaseServices.TaskService.QueueCount | exostack-integration/shared/database/services.py:121-130 | one status's count never exceeds the number of tasks |
| DatabaseServices.TaskService.CleanupOldTasks | exostack-integration/shared/database/services.py:132-160 | deletes exactly the COMPLETED or FAILED tasks completed more than `days` days ago, answers how many were deleted, and leaves no such task behind |
| DatabaseServices.RegisterSpec | exostack-integration/shared/database/services.py:165-193 | a registered node carries the supplied fields, is ACTIVE and seen now; a re-registered node keeps its task counters, a new one starts from the column defaults (0 tasks, 4 concurrent) |
| DatabaseServices.HeartbeatMetricsEffects | exostack-integration/shared/database/services.py:195-216 | a heartbeat without metrics only refreshes the time and status; a heartbeat carrying every metric overwrites all four, whatever they were; the node's fields never change |
| DatabaseServices.SilentIds | exostack-integration/shared/database/services.py:259-267 | the nodes marked by cleanup are exactly those whose last heartbeat is before the cutoff |
| DatabaseServices.MarkInactive | exostack-integration/shared/database/services.py:269-273 | marking keeps the set of nodes (rows are updated, never deleted) |
| DatabaseServices.Ascending | exostack-integration/shared/database/services.py:231 | the ordering of the active-node query lists every id once, in ascending string order |
| DatabaseServices.ActiveIds | exostack-integration/shared/database/services.py:218-230 | an id is selected exactly when its node is ACTIVE with a heartbeat within the last five minutes |
| DatabaseServices.RowsOfActive | exostack-integration/shared/database/services.py:218-233 | the rows looked up for the ascending active ids are exactly the active rows, in ascending node-id order |
| DatabaseServices.NodeService.constructor | exostack-integration/shared/database/services.py:162-163 | the service starts with an empty node table |
| DatabaseServices.NodeService.RegisterNode | exostack-integration/shared/database/services.py:165-193 | an upsert: the row under the node's id becomes the registered row, created or updated, and no other row changes |
| DatabaseServices.NodeService.UpdateNodeHeartbeat | exostack-integration/shared/database/services.py:195-216 | answers true exactly for a known node; that row gets the heartbeat update and no other row changes |
| DatabaseServices.NodeService.ActiveNodes | exostack-integration/shared/database/services.py:218-233 | returns exactly the active rows, ordered by ascending node id |
| DatabaseServices.NodeService.GetNode | exostack-integration/shared/database/services.py:235-241 | a node is returned exactly when its id is in the table, and it is that row |
| DatabaseServices.NodeService.DeactivateNode | exostack-integration/shared/database/services.py:243-257 | answers true exactly for a known node; that node becomes INACTIVE and nothing else changes |
| DatabaseServices.NodeService.CleanupInactiveNodes | exostack-integration/shared/database/services.py:259-278 | every node with a heartbeat before the cutoff is marked INACTIVE and counted, including those already inactive |
| DatabaseConnection.AsyncUrl | exostack-integration/shared/database/connection.py:26-36 | a `postgresql://` URL gets the asyncpg scheme, otherwise a `sqlite:///` URL gets the aiosqlite scheme, with the rest of the URL kept; any other URL is used unchanged |
| DatabaseConnection.AsyncUrlIdempotent | exostack-integration/shared/database/connection.py:26-36 | rewriting an already rewritten URL changes nothing, and the rewrite never moves a URL between the SQLite and the PostgreSQL engine setup (line 49) |
| DatabaseConnection.Lower | exostack-integration/shared/database/connection.py:39 | lower-casing keeps the length and maps every character through the ASCII lower-case table |
| DatabaseConnection.ParseSettingFacts | exostack-integration/shared/database/connection.py:40-41 | a non-empty run of digits parses to its decimal value, a blank setting is an error, and `int(str(i)) == i` for every integer |
| DatabaseConnection.DefaultPoolSettingsParse | exostack-integration/shared/database/connection.py:40-41 | the default pool settings "10" and "20" parse to 10 and 20 |
| DatabaseConnection.DefaultAsyncUrl | exostack-integration/shared/database/connection.py:21-34 | the default URL rewrites to `sqlite+aiosqlite:///./exostack.db` |
| DatabaseConnection.ConfigureEmpty | exostack-integration/shared/database/connection.py:19-41 | with no variables set the configuration is the local SQLite file through aiosqlite, no echo, pool 10 and overflow 20 |
| DatabaseConnection.ConfigureDefaults | exostack-integration/shared/database/connection.py:19-41 | echo is on exactly when DATABASE_ECHO spells "true" in any mix of cases, and the async URL is always the rewrite of the URL |
| DatabaseConnection.AfterLast | exostack-integration/shared/database/connection.py:180 | the text after the last separator holds no separator and is a suffix of the input; it is the whole input when there is no separator |
| DatabaseConnection.ReportedUrl | exostack-integration/shared/database/connection.py:180 | the reported URL never contains '@' (credentials before it are hidden); it is the text after some '@' of the URL, or the whole URL when there is none |
| DatabaseConnection.EngineType | exostack-integration/shared/database/connection.py:181 | the engine type is "postgresql" exactly when the URL contains "postgresql", and "sqlite" otherwise |
| DatabaseConnection.PostgresUrlIsPostgres | exostack-integration/shared/database/connection.py:49-78 | a `postgresql://` URL reports the postgresql engine and never takes the SQLite engine options |
| MetricsCollecting.ThresholdAlerts | exostack-integration/hub/services/metrics_collector.py:164-177 | the check raises at most one alert per threshold |
| MetricsCollecting.ThresholdAlertsCharacterized | exostack-integration/hub/services/metrics_collector.py:164-177 | every alert names the node, a thresholded metric whose number exceeds its threshold, and is "critical" exactly when the value is more than 10 above it, else "warning"; the check fails exactly when some thresholded metric is not a number; without failure every exceeded threshold has its alert |
| MetricsCollecting.ThresholdStep | exostack-integration/hub/services/metrics_collector.py:166-177 | one threshold: an absent metric is skipped, a non-number raises TypeError, a value above raises one alert ahead of the rest, a value at or below adds nothing |
| MetricsCollecting.KeepRecent | exostack-integration/hub/services/metrics_collector.py:199-201 | the kept alerts are the newest suffix: unchanged up to 1000, exactly the last 1000 beyond |
| MetricsCollecting.KeepRecentAbsorbs | exostack-integration/hub/services/metrics_collector.py:197-201 | trimming before appending more changes nothing about what is finally kept |
| MetricsCollecting.AddEachKeepsRecent | exostack-integration/hub/services/metrics_collector.py:164-201 | adding alerts one at a time keeps exactly the 1000 most recent of the old and new alerts together |
| MetricsCollecting.AddEachSnoc | exostack-integration/hub/services/metrics_collector.py:197-201 | adding one more alert after a batch is trimming the batch's result with that alert appended |
| MetricsCollecting.Insert | exostack-integration/hub/services/metrics_collector.py:158-162 | one insertion step of the stable sort grows the list by one |
| MetricsCollecting.InsertCounts | exostack-integration/hub/services/metrics_collector.py:158-162 | an insertion step adds exactly the inserted alert |
| MetricsCollecting.InsertBelow | exostack-integration/hub/services/metrics_collector.py:158-162 | an insertion step keeps every alert at or below a common time bound |
| MetricsCollecting.InsertKeepsOrder | exostack-integration/hub/services/metrics_collector.py:158-162 | inserting into a newest-first list keeps it newest first |
| MetricsCollecting.SortNewestFirst | exostack-integration/hub/services/metrics_collector.py:158-162 | the newest-first sort keeps the length |
| MetricsCollecting.SortNewestFirstOrders | exostack-integration/hub/services/metrics_collector.py:158-162 | the sort's result is newest first |
| MetricsCollecting.SortNewestFirstKeeps | exostack-integration/hub/services/metrics_collector.py:158-162 | the sort's result is a permutation of its input |
| MetricsCollecting.InsertStable | exostack-integration/hub/services/metrics_collector.py:158-162 | inserting an alert into a newest-first list places it after every alert of the same time |
| MetricsCollecting.SortNewestFirstStable | exostack-integration/hub/services/metrics_collector.py:158-162 | the sort is stable: alerts of the same time keep their stored order |
| MetricsCollecting.SortNewestFirstSorts | exostack-integration/hub/services/metrics_collector.py:158-162 | the sort orders newest first, loses or adds nothing, and keeps alerts of the same time in stored order |
| MetricsCollecting.FilterAlerts | exostack-integration/hub/services/metrics_collector.py:151-156 | the kept alerts are exactly those matching the severity and node filters, each filter applying only when given |
| MetricsCollecting.MinOf | exostack-integration/hub/services/metrics_collector.py:84 | `min` of a non-empty list is an element no greater than any other |
| MetricsCollecting.MaxOf | exostack-integration/hub/services/metrics_collector.py:85 | `max` of a non-empty list is an element no smaller than any other |
| MetricsCollecting.SumBetween | exostack-integration/hub/services/metrics_collector.py:83 | a sum of values within bounds lies between the count times each bound |
| MetricsCollecting.StatsOrdered | exostack-integration/hub/services/metrics_collector.py:81-86 | for a non-empty list, min <= average <= max |
| MetricsCollecting.RecentNumbers | exostack-integration/hub/services/metrics_collector.py:71-76 | the numbers collected from a node's entries of the last five minutes are at most one per entry |
| MetricsCollecting.SystemMetrics | exostack-integration/hub/services/metrics_collector.py:64-88 | every reported key has at least one recent number, and its statistics are those of all recent numbers under that key across the nodes |
| MetricsCollecting.ValuesOf | exostack-integration/hub/services/metrics_collector.py:215 | a key's value list is non-empty exactly when some entry carries the key, and its last element is the value of the newest entry carrying it |
| MetricsCollecting.Numbers | exostack-integration/hub/services/metrics_collector.py:215-221 | the numbers of an all-number list, one for one |
| MetricsCollecting.HistoricalMetrics | exostack-integration/hub/services/metrics_collector.py:203-224 | statistics are reported only for keys that some entry carries |
| MetricsCollecting.HistoricalCurrentIsLatest | exostack-integration/hub/services/metrics_collector.py:203-224 | every number-valued key gets statistics, and its "current" is the value of the newest entry carrying the key |
| MetricsCollecting.Prune | exostack-integration/hub/services/metrics_collector.py:54-59 | retention keeps exactly the entries newer than the cutoff, in order |
| MetricsCollecting.AsWrittenKeepsStaleEntries | exostack-integration/hub/services/metrics_collector.py:52-59 | as written the entry older than a day is still stored after the next recording; with retention applied it is gone |
| MetricsCollecting.ImportFixedCollectorBlocks | exostack-integration/hub/services/metrics_collector.py:43-62 | with `timedelta` imported, a CPU reading of 95 makes `_add_alert` wait for the lock `record_metrics` holds, so the collector blocks (also line 188) |
| MetricsCollecting.MetricsCollector.constructor | exostack-integration/hub/services/metrics_collector.py:26-39 | the collector starts with no entries, no alerts and the four thresholds (cpu 80, memory 85, disk 90, gpu 85) |
| MetricsCollecting.MetricsCollector.RecordMetricsAsWritten | exostack-integration/hub/services/metrics_collector.py:41-62 | as written the entry is appended, then the missing `timedelta` raises NameError: nothing is pruned and no alert is raised |
| MetricsCollecting.MetricsCollector.AddAlert | exostack-integration/hub/services/metrics_collector.py:179-201 | the alert is appended and only the last 1000 are kept; nothing else changes |
| MetricsCollecting.MetricsCollector.CheckAlerts | exostack-integration/hub/services/metrics_collector.py:164-177 | the alerts due are added one by one, in threshold order, until a non-number metric raises; the entries are untouched |
| MetricsCollecting.MetricsCollector.RecordMetrics | exostack-integration/hub/services/metrics_collector.py:41-62 | the node's history gains the entry and keeps only the last 24 hours; the alerts due are kept among the last 1000; a non-number thresholded metric reports TypeError |
| MetricsCollecting.MetricsCollector.GetAlerts | exostack-integration/hub/services/metrics_collector.py:143-162 | answers the filtered, newest-first, limited selection of the stored alerts |
| MetricsCollecting.MetricsCollector.GetNodeMetrics | exostack-integration/hub/services/metrics_collector.py:90-106 | nothing exactly for an unknown node or an empty history; otherwise the newest entry is reported as current |
| MetricsCollecting.SelectAlerts | exostack-integration/hub/services/metrics_collector.py:143-162 | the result is newest first, holds only stored alerts matching the filters, and is the first `limit` of the sorted filtered alerts (a Python slice for any limit) |
| AlertManaging.NewRule | exostack-integration/shared/services/alert_manager.py:41-75 | a rule built with missing targets watches every node and model, notifies by email when no channel is given, and starts with nothing counted and never evaluated |
| AlertManaging.DefaultRulesWellFormed | exostack-integration/shared/services/alert_manager.py:546-578 | the three default rules have distinct ids, watch every node, warn strictly before going critical, need at least one violation, start enabled with nothing counted and notify by email |
| AlertManaging.Deliveries | exostack-integration/shared/services/alert_manager.py:423-433 | a notification goes to exactly the configured channels that have a sender (email, webhook, Slack), each with the alert |
| AlertManaging.NotifyEffects | exostack-integration/shared/services/alert_manager.py:410-436 | within fifteen minutes of the last notification for the same alert type and node nothing is sent and nothing is stamped; otherwise one delivery per channel with a sender is appended and only that key is stamped with the time; rules, channels and active alerts never change |
| AlertManaging.TriggerSpec | exostack-integration/shared/services/alert_manager.py:209-241 | the alert is stored under the id built from its type, its node (or "system") and the time, and that id is returned; rules are untouched |
| AlertManaging.ResolveSpec | exostack-integration/shared/services/alert_manager.py:243-256 | an unknown id changes nothing; a stored alert is removed (after its resolution notice); an id that holds a violation key's reference raises TypeError, because that value is not a dict (also lines 537-544) |
| AlertManaging.QuickResolutionIsSilent | exostack-integration/shared/services/alert_manager.py:243-256 | resolving an alert within fifteen minutes of its own notification sends nothing, since the resolution shares the alert's rate-limit key (also lines 410-421) |
| AlertManaging.Raise | exostack-integration/shared/services/alert_manager.py:388-405 | raising stores the alert under its id, points the violation key at that id and resets the rule's counter to zero |
| AlertManaging.HandleSpec | exostack-integration/shared/services/alert_manager.py:372-408 | handling a violation changes only the handled rule, and only its counter; the rule set and channels stay |
| AlertManaging.HandleCounts | exostack-integration/shared/services/alert_manager.py:382-408 | an already active violation key leaves everything unchanged; below the rule's consecutive-violation count only the counter goes up by one |
| AlertManaging.HandleRaises | exostack-integration/shared/services/alert_manager.py:385-405 | on reaching the consecutive-violation count the alert is stored under its id, the violation key remembers that id, and the counter is zero again |
| AlertManaging.ViolationKeyPersists | exostack-integration/shared/services/alert_manager.py:243-256 | once a violation key holds an alert id it stays: further violations keep it, resolving the key raises, and resolving the alert by its own id leaves the key, so the rule never alerts for that target again (also lines 382-408) |
| AlertManaging.NodeViolationCharacterized | exostack-integration/shared/services/alert_manager.py:304-370 | a node gives at most one violation, exactly when it is targeted and reaches either threshold; it is CRITICAL exactly when it reaches the critical one and MEDIUM otherwise, and reports the reading; a heartbeat breaches a limit exactly when it is older than that many minutes; other kinds give none |
| AlertManaging.NodeViolations | exostack-integration/shared/services/alert_manager.py:304-370 | a node list gives at most one violation per node |
| AlertManaging.NodeViolationsCharacterized | exostack-integration/shared/services/alert_manager.py:304-370 | every violation comes from one node of the list, and every violating node contributes its violation |
| AlertManaging.ApplyAll | exostack-integration/shared/services/alert_manager.py:308-323 | handling a node list's violations changes only the evaluated rule's counter, never another rule or the channels |
| AlertManaging.EvaluateRuleSpec | exostack-integration/shared/services/alert_manager.py:288-302 | evaluation succeeds exactly when the rule's kind has an evaluator (GPU, failure-rate and queue rules name methods the class lacks and raise, changing nothing); only the rule's own counter can change |
| AlertManaging.EvaluateTurn | exostack-integration/shared/services/alert_manager.py:278-286 | one rule's turn keeps the rule set and the channels |
| AlertManaging.EvaluateAllSpec | exostack-integration/shared/services/alert_manager.py:274-286 | an evaluation round keeps the rule set and the channels |
| AlertManaging.TurnSkips | exostack-integration/shared/services/alert_manager.py:279-286 | any rule's turn leaves a disabled rule, or one whose evaluation raises, exactly as it was |
| AlertManaging.TurnKeepsKind | exostack-integration/shared/services/alert_manager.py:278-286 | one turn keeps every rule's switch and kind |
| AlertManaging.SkippedRulesUntouched | exostack-integration/shared/services/alert_manager.py:274-286 | a disabled rule, and one of a kind without an evaluator, come out of a round exactly as they went in (never stamped) |
| AlertManaging.EvaluatedRulesStamped | exostack-integration/shared/services/alert_manager.py:278-284 | every enabled rule with an evaluator is stamped with the round's time |
| AlertManaging.EnabledKept | exostack-integration/shared/services/alert_manager.py:274-286 | evaluation never switches a rule on or off nor changes its kind |
| AlertManaging.ApplyAllAppend | exostack-integration/shared/services/alert_manager.py:308-323 | handling one more violation after a batch is handling it on the batch's result |
| AlertManaging.NodeViolationsStep | exostack-integration/shared/services/alert_manager.py:308-323 | one more node appends its violation, if any, after the earlier nodes' |
| AlertManaging.ApplyAllStep | exostack-integration/shared/services/alert_manager.py:308-323 | one more node: its violation, if any, is handled after the earlier ones |
| AlertManaging.EvaluateAllStep | exostack-integration/shared/services/alert_manager.py:278-286 | one more rule's turn comes after the earlier ones |
| AlertManaging.DeliveriesSnoc | exostack-integration/shared/services/alert_manager.py:424-433 | one more channel adds its delivery at the end when it has a sender |
| AlertManaging.AlertManager.constructor | exostack-integration/shared/services/alert_manager.py:111-124 | the manager starts with no rules, channels, active alerts, history or notifications |
| AlertManaging.AlertManager.CreateDefaultConfig | exostack-integration/shared/services/alert_manager.py:546-593 | the three default rules are set under their ids, other rules stay, email is configured, and the alert state is untouched |
| AlertManaging.AlertManager.AddThresholdRule | exostack-integration/shared/services/alert_manager.py:196-200 | the rule is stored under its id, replacing any rule with that id; nothing else changes |
| AlertManaging.AlertManager.RemoveThresholdRule | exostack-integration/shared/services/alert_manager.py:202-207 | the rule is removed; an unknown id changes nothing |
| AlertManaging.AlertManager.SendNotifications | exostack-integration/shared/services/alert_manager.py:410-436 | the new state is the rate-limited notification of the alert |
| AlertManaging.AlertManager.TriggerAlert | exostack-integration/shared/services/alert_manager.py:209-241 | the new state and the returned id are those of the trigger specification |
| AlertManaging.AlertManager.ResolveAlert | exostack-integration/shared/services/alert_manager.py:243-256 | a resolvable id gives the resolved state with no error; a violation key reports TypeError and changes nothing |
| AlertManaging.AlertManager.HandleThresholdViolation | exostack-integration/shared/services/alert_manager.py:372-408 | the new state is the handled violation's |
| AlertManaging.AlertManager.EvaluateNodes | exostack-integration/shared/services/alert_manager.py:304-370 | each node's violation is handled in node order |
| AlertManaging.AlertManager.EvaluateRule | exostack-integration/shared/services/alert_manager.py:288-302 | the new state and the success flag are those of the rule's evaluation |
| AlertManaging.AlertManager.EvaluateThresholds | exostack-integration/shared/services/alert_manager.py:274-286 | every rule, in the rule table's order, takes its turn |
| AlertManaging.AlertManager.EvaluateTurnStep | exostack-integration/shared/services/alert_manager.py:278-286 | one rule's turn: skipped when disabled, stamped when its evaluation went through |
| HealthMonitoring.Trimmed | exostack-integration/agent/health_monitor.py:57-58 | trimming keeps the most recent items: `min(max, length)` of them for a positive bound, and everything for a bound of 0 (Python's `[-0:]`) (also lines 218-219) |
| HealthMonitoring.MetricsBuffer.constructor | exostack-integration/agent/health_monitor.py:38-41 | the buffer starts empty with the given bound |
| HealthMonitoring.MetricsBuffer.GetMetrics | exostack-integration/agent/health_monitor.py:60-62 | the samples of a type, none for a type never seen |
| HealthMonitoring.MetricsBuffer.AddSample | exostack-integration/agent/health_monitor.py:43-58 | the type's samples gain the new sample and are trimmed to the bound; other types are untouched |
| HealthMonitoring.AddSampleKeepsNewest | exostack-integration/agent/health_monitor.py:43-58 | with a positive bound the new sample is the last kept, preceded by the most recent part of the old list, and the list holds `min(bound, old length + 1)` samples |
| HealthMonitoring.CountStatus | exostack-integration/agent/health_monitor.py:176-177 | a status count never exceeds the history's length |
| HealthMonitoring.CompletedDurations | exostack-integration/agent/health_monitor.py:176-182 | there is one duration per completed record |
| HealthMonitoring.Percent | exostack-integration/agent/health_monitor.py:184 | `part / whole * 100` lies in 0..100 when the part is at most the whole |
| HealthMonitoring.CompletedAndFailedAtMostTotal | exostack-integration/agent/health_monitor.py:176-177 | no record is counted both completed and failed |
| HealthMonitoring.TaskStatsCounts | exostack-integration/agent/health_monitor.py:166-192 | an empty history gives all zeros; otherwise completed plus failed is at most the total, and the average duration is over completed records only (0 when none) |
| HealthMonitoring.TaskStatsRate | exostack-integration/agent/health_monitor.py:184 | the success rate is the completed share in percent, between 0 and 100 |
| HealthMonitoring.OverallStatus | exostack-integration/agent/health_monitor.py:194-206 | "critical" exactly when CPU or memory exceeds 90, "warning" exactly when neither does but one exceeds 70, "healthy" exactly when both are at most 70, "unknown" when the reading fails |
| HealthMonitoring.OverallStatusMonotone | exostack-integration/agent/health_monitor.py:194-206 | higher readings never give a better status |
| HealthMonitoring.MlReadyIsCapable | exostack-integration/agent/health_monitor.py:138-139 | a device that is ML ready (6 GB, capability 6.0) is also GPU capable under the default minimums (4 GB, 3.5) (also lines 353-371) |
| HealthMonitoring.QualifiedStays | exostack-integration/agent/health_monitor.py:360-369 | a device found in a prefix of the list is found in the whole list |
| HealthMonitoring.QualifiedFound | exostack-integration/agent/health_monitor.py:360-369 | any qualifying device makes the scan succeed |
| HealthMonitoring.FoundQualifies | exostack-integration/agent/health_monitor.py:360-369 | a successful scan stands for some qualifying device |
| HealthMonitoring.DeviceQualifies | exostack-integration/agent/health_monitor.py:361-369 | one device qualifies exactly when it has enough memory and both capabilities parse as floats with the device's at least the minimum; an unparseable capability only skips the device |
| HealthMonitoring.HealthMonitor.constructor | exostack-integration/agent/health_monitor.py:65-82 | the monitor starts with an empty history and a fresh, empty buffer of 100 samples per type |
| HealthMonitoring.HealthMonitor.RecordTask | exostack-integration/agent/health_monitor.py:208-219 | the record is appended and only the most recent thousand are kept |
| HealthMonitoring.HealthMonitor.IsGpuCapable | exostack-integration/agent/health_monitor.py:353-371 | false without a GPU; otherwise true exactly when some listed device qualifies |
| HealthMonitoring.GpuCapableIffSomeDevice | exostack-integration/agent/health_monitor.py:360-371 | the scan succeeds exactly when some device of the list qualifies |
| ModelRegistering.IsCompatible | exostack-integration/shared/models/model_registry.py:36-44 | a model is compatible exactly when the RAM reaches its minimum and there is a GPU or the model runs on the CPU |
| ModelRegistering.BestQuantization | exostack-integration/shared/models/model_registry.py:46-61 | no quantization at or above the recommended RAM; below it, none exactly when the model offers none; otherwise an offered one: 8bit when the RAM reaches 1.5 times the minimum and 8bit is offered, else 4bit, else q4_0, else the first offered |
| ModelRegistering.EightBitFallback | exostack-integration/shared/models/model_registry.py:52-59 | 8bit below 1.5 times the minimum is only the last-resort fallback: neither 4bit nor q4_0 is offered and 8bit is listed first |
| ModelRegistering.Listed | exostack-integration/shared/models/model_registry.py:130-149 | the listed ids are exactly the registered ids passing the category and compatibility filters, without repeats and in registry order |
| ModelRegistering.Scores | exostack-integration/shared/models/model_registry.py:162-181 | one score per compatible model, in order |
| ModelRegistering.FirstMax | exostack-integration/shared/models/model_registry.py:183-185 | the first position of a maximal score, which a stable descending sort puts first |
| ModelRegistering.RecommendChosen | exostack-integration/shared/models/model_registry.py:151-185 | no recommendation exactly when no model is compatible; otherwise a compatible model that no compatible model outscores, and every compatible model earlier in the registry scores strictly less |
| ModelRegistering.FirstMaxChosen | exostack-integration/shared/models/model_registry.py:183-185 | in a list in registry order, the first maximal score is at least every score and strictly above every earlier one |
| ModelRegistering.QuantizationKey | exostack-integration/shared/models/model_registry.py:201-207 | no quantization (or an empty one) adds no key; 4bit and 8bit add `load_in_4bit` or `load_in_8bit`, anything else adds "quantization"; the key is never one of the three base keys |
| ModelRegistering.ModelRegistry.constructor | exostack-integration/shared/models/model_registry.py:101-124 | with no registry file the registry holds the one DialoGPT model in category "default", with the default loading settings |
| ModelRegistering.ModelRegistry.GetModel | exostack-integration/shared/models/model_registry.py:126-128 | a model is returned exactly when its id is registered, and it is that model |
| ModelRegistering.ModelRegistry.ListModels | exostack-integration/shared/models/model_registry.py:130-149 | the models passing both filters, each once, in registry order |
| ModelRegistering.ModelRegistry.GetRecommendedModel | exostack-integration/shared/models/model_registry.py:151-185 | none exactly when no model is compatible; otherwise a compatible model with the highest score, the earliest in registry order on a tie |
| ModelRegistering.ModelRegistry.GetLoadingConfig | exostack-integration/shared/models/model_registry.py:187-209 | an unknown model raises ValueError; otherwise the registry defaults overlaid with the model's repository, automatic dtype and the device map (auto with a GPU, cpu without), plus the chosen quantization's key; every other default is kept |
| ModelRegistering.ModelRegistry.AddModel | exostack-integration/shared/models/model_registry.py:215-218 | the model is stored under the id, replacing any model there; a new id goes last in registry order, a known one keeps its place |
| ModelRegistering.ModelRegistry.RemoveModel | exostack-integration/shared/models/model_registry.py:220-226 | true exactly when the id was registered; the model is gone and the others keep their order |
| ModelRegistering.Without | exostack-integration/shared/models/model_registry.py:222-223 | dropping an id keeps every other id, in order and without repeats |
| ModelManaging.Usage | exostack-integration/agent/model_manager.py:54-60 | a model not loaded uses 0 GB; a loaded one uses its recorded amount |
| ModelManaging.Usages | exostack-integration/agent/model_manager.py:62-64 | one usage per listed model, in order |
| ModelManaging.SumUsagesCons | exostack-integration/agent/model_manager.py:62-64 | the total of a list is its first model's usage plus the rest's total |
| ModelManaging.UsagesIgnore | exostack-integration/agent/model_manager.py:62-64 | removing a model that is not listed does not change the listed usages |
| ModelManaging.SumWithout | exostack-integration/agent/model_manager.py:62-64 | dropping a loaded model from the list and the table lowers the total by its usage (also lines 207-221) |
| ModelManaging.Remaining | exostack-integration/agent/model_manager.py:218 | the models of the load order not yet removed, in order and without repeats |
| ModelManaging.Drop | exostack-integration/agent/model_manager.py:207-221 | unloading a set of models removes exactly them from the loaded table, the last-used table and the load order, and keeps the state consistent (also lines 275-276) |
| ModelManaging.DropNothing | exostack-integration/agent/model_manager.py:266-277 | unloading no model leaves the state as it was |
| ModelManaging.UnloadAfterDrop | exostack-integration/agent/model_manager.py:275-276 | unloading one more model after a batch is unloading the larger batch |
| ModelManaging.UnloadFacts | exostack-integration/agent/model_manager.py:207-233 | unloading removes the model from both tables and the order, touches no other model, keeps the state consistent, and doing it twice is doing it once |
| ModelManaging.UnloadLowersTotal | exostack-integration/agent/model_manager.py:62-64 | unloading lowers the total model memory by the model's usage (also lines 207-221) |
| ModelManaging.ConsKeepsOrder | exostack-integration/agent/model_manager.py:184-187 | a model used no later than all of an oldest-first list can go in front of it |
| ModelManaging.InsertByAge | exostack-integration/agent/model_manager.py:184-187 | one insertion step of the stable sort grows the list by one |
| ModelManaging.InsertByAgeCounts | exostack-integration/agent/model_manager.py:184-187 | an insertion step adds exactly the inserted model |
| ModelManaging.InsertByAgeMembers | exostack-integration/agent/model_manager.py:184-187 | after an insertion step the list holds the inserted model and the old ones, nothing else |
| ModelManaging.InsertByAgeDistinct | exostack-integration/agent/model_manager.py:184-187 | inserting a model not in a list without repeats gives a list without repeats |
| ModelManaging.InsertByAgeAbove | exostack-integration/agent/model_manager.py:184-187 | an insertion step keeps a lower bound on the last-used times that all the models meet |
| ModelManaging.InsertByAgeKeepsOrder | exostack-integration/agent/model_manager.py:184-187 | inserting into an oldest-first list keeps it oldest first |
| ModelManaging.SortByAge | exostack-integration/agent/model_manager.py:184-187 | the sort keeps the length |
| ModelManaging.SortByAgeOrders | exostack-integration/agent/model_manager.py:184-187 | the sort puts the least recently used first, never-used models (`datetime.min`) before all |
| ModelManaging.SortByAgeCounts | exostack-integration/agent/model_manager.py:184-187 | the sort is a permutation of its input |
| ModelManaging.SortByAgeDistinct | exostack-integration/agent/model_manager.py:184-187 | the sort repeats nothing |
| ModelManaging.InsertByAgeStable | exostack-integration/agent/model_manager.py:184-187 | inserting into an oldest-first list puts the model after every model used at the same time, leaving each time's models in order |
| ModelManaging.SortByAgeStable | exostack-integration/agent/model_manager.py:184-187 | models last used at the same time, the never-used ones among them, keep their load order, as the stable `sorted` keeps them |
| ModelManaging.SortByAgeSorts | exostack-integration/agent/model_manager.py:184-187 | the sort orders least recently used first, loses, adds or repeats nothing, and keeps models used at the same time in load order |
| ModelManaging.EvictCount | exostack-integration/agent/model_manager.py:189-196 | the loop unloads models while the freed total is short of the target: every earlier prefix is short, and it stops at the first prefix that reaches the target or at the end |
| ModelManaging.EvictCountUnique | exostack-integration/agent/model_manager.py:189-196 | the stopping point is the only count with both properties |
| ModelManaging.ShortOfTargetStep | exostack-integration/agent/model_manager.py:190-192 | the loop goes on past a model only while the freed total is short of the target |
| ModelManaging.SortedLoaded | exostack-integration/agent/model_manager.py:184-187 | the eviction order holds every loaded model once, least recently used first |
| ModelManaging.PrefixIsOldest | exostack-integration/agent/model_manager.py:184-196 | in an oldest-first list, every model of a prefix was used no later than any model after it |
| ModelManaging.EnsureSpecKeeps | exostack-integration/agent/model_manager.py:173-205 | freeing memory keeps the state consistent and only removes models; every model kept has its entry and time as before |
| ModelManaging.EnsureSpecEvictsOldest | exostack-integration/agent/model_manager.py:173-205 | enough memory evicts nothing and succeeds; otherwise every evicted model was used no later than every kept one |
| ModelManaging.EnsureSpecFailureEvictsAll | exostack-integration/agent/model_manager.py:189-205 | a failure to free enough memory has evicted every model |
| ModelManaging.UnloadStep | exostack-integration/agent/model_manager.py:190-196 | unloading the next model of the eviction order extends the unloaded prefix by one, and its usage is what it was before the earlier evictions |
| ModelManaging.AutoLoadFacts | exostack-integration/agent/model_manager.py:66-102 | a loaded model is only marked as used now; an unregistered or incompatible model fails and changes nothing; a success leaves the model loaded with its registry configuration and marked as used now; when the second memory reading still reaches the minimum no model is evicted |
| ModelManaging.LoadKeepsConsistent | exostack-integration/agent/model_manager.py:104-171 | loading a model that is not loaded keeps the tables and the load order consistent |
| ModelManaging.SameReadingNeverEvicts | exostack-integration/agent/model_manager.py:66-98 | with one memory reading eviction never happens: the compatibility test already demands the minimum RAM that freeing memory asks for (also lines 173-178) |
| ModelManaging.Cutoff | exostack-integration/agent/model_manager.py:268 | the cutoff is `max_age_hours` hours before now |
| ModelManaging.StaleIds | exostack-integration/agent/model_manager.py:270-273 | the listed ids are exactly those last used before the cutoff, without repeats |
| ModelManaging.StaleIdsAreStale | exostack-integration/agent/model_manager.py:270-273 | listed over the loaded models, the stale ids are exactly the stale set |
| ModelManaging.CleanupExact | exostack-integration/agent/model_manager.py:266-277 | cleanup unloads exactly the models last used before the cutoff and keeps the others as they were |
| ModelManaging.ModelManager.constructor | exostack-integration/agent/model_manager.py:28-47 | the manager starts with no models loaded and records whether a GPU is present |
| ModelManaging.ModelManager.GetModelMemoryUsage | exostack-integration/agent/model_manager.py:54-60 | a model not loaded uses 0 GB; a loaded one its recorded amount |
| ModelManaging.ModelManager.UnloadModel | exostack-integration/agent/model_manager.py:207-233 | always succeeds, and the new state is the model unloaded |
| ModelManaging.ModelManager.EnsureMemoryAvailable | exostack-integration/agent/model_manager.py:173-205 | the new state and the answer are those of the least-recently-used eviction specification |
| ModelManaging.ModelManager.AutoLoadModel | exostack-integration/agent/model_manager.py:66-102 | the new state and the answer are those of the auto-load specification with the registry as it stands |
| ModelManaging.ModelManager.GetModelForInference | exostack-integration/agent/model_manager.py:248-256 | nothing for a model not loaded; otherwise the model, now marked as used; nothing else changes |
| ModelManaging.ModelManager.UnloadAll | exostack-integration/agent/model_manager.py:275-277 | unloading each listed model in turn is unloading the listed set |
| ModelManaging.ModelManager.CleanupOldModels | exostack-integration/agent/model_manager.py:266-277 | exactly the models last used more than `max_age_hours` ago are unloaded, and nothing else changes |
| ModelPackaging.PostInit | exostack-integration/shared/services/model_packaging.py:88-102 | each missing collection gets its default (no quantization options, float16 and float32 precisions, empty tags, preload configuration and loading parameters), a missing creation time is now and a missing update time is the creation time; given fields are kept |
| ModelPackaging.PostInitKeepsGiven | exostack-integration/shared/services/model_packaging.py:88-102 | defaults fill only what is missing: a package given in full comes back as it was, whatever the clock says |
| ModelPackaging.Registered | exostack-integration/shared/services/model_packaging.py:195-200 | the stored package gets the file's checksum when it is local and has none (or an empty one), and the registration time as update time; nothing else changes |
| ModelPackaging.Selected | exostack-integration/shared/services/model_packaging.py:227-242 | the listed packages are exactly the registered ones passing the filter, at most one per id |
| ModelPackaging.IdsOf | exostack-integration/shared/services/model_packaging.py:287 | one model id per package, in order |
| ModelPackaging.SelectedIds | exostack-integration/shared/services/model_packaging.py:284-287 | the ids of the selected packages are exactly the registered ids passing the filter |
| ModelPackaging.PackageLoadingConfig | exostack-integration/shared/services/model_packaging.py:303-330 | the package's loading parameters with the device and dtype set (cuda and float16 on a GPU node for a GPU-compatible package, cpu and float32 otherwise); on a GPU short of the package's GPU memory with 4bit offered, 4-bit loading with float16 compute; on a node short of RAM the context cut to at most 1024; every other parameter as the package gives it |
| ModelPackaging.DefaultPackagesLoading | exostack-integration/shared/services/model_packaging.py:303-330 | TinyLlama on a 2 GB GPU loads on cuda in 4 bit with its full context; Phi-2 on a CPU node with 4 GB loads on the CPU in float32 with its context cut to 1024 (also lines 419-446) |
| ModelPackaging.PackageRegistry.constructor | exostack-integration/shared/services/model_packaging.py:107-118 | the registry starts with no packages |
| ModelPackaging.PackageRegistry.Store | exostack-integration/shared/services/model_packaging.py:203 | the package is stored under its id; a new id goes last in registry order, a known one keeps its place (also lines 448-449) |
| ModelPackaging.PackageRegistry.CreateDefaultRegistry | exostack-integration/shared/services/model_packaging.py:419-451 | TinyLlama and Phi-2 are stored over whatever is there |
| ModelPackaging.PackageRegistry.RegisterPackage | exostack-integration/shared/services/model_packaging.py:188-213 | a package without a model id or a source path is refused and nothing changes; a valid one is stored under its id, stamped and checksummed, and reads back as stored (also lines 332-342) |
| ModelPackaging.PackageRegistry.GetPackage | exostack-integration/shared/services/model_packaging.py:215-217 | a package is returned exactly when its id is registered, and it is that package |
| ModelPackaging.PackageRegistry.ListPackages | exostack-integration/shared/services/model_packaging.py:219-242 | the packages passing every given filter, each a registered package |
| ModelPackaging.PackageRegistry.DownloadModel | exostack-integration/shared/services/model_packaging.py:244-271 | true exactly for a registered model that is cached (and not forced) or whose Hugging Face, URL or local source was fetched; a success for an uncached model needs a fetchable source |
| ModelPackaging.PackageRegistry.Requested | exostack-integration/shared/services/model_packaging.py:273-290 | the ids asked for are the explicit ones and, for a non-empty tag dictionary, those of the registered packages carrying all its tags |
| ModelPackaging.PackageRegistry.Downloaded | exostack-integration/shared/services/model_packaging.py:292-299 | the ids whose download succeeds, in order, without repeats |
| ModelPackaging.PackageRegistry.PreloadModels | exostack-integration/shared/services/model_packaging.py:273-301 | every requested model is tried once; the result is exactly the requested models whose download succeeded, without repeats |
| ModelPackaging.PackageRegistry.GetLoadingConfig | exostack-integration/shared/services/model_packaging.py:303-330 | nothing for an unknown model; otherwise the package's loading configuration for the node |
| ModelPackaging.RegisteredKeepsLoading | exostack-integration/shared/services/model_packaging.py:188-213 | registration leaves the loading configuration a package calls for unchanged (also lines 303-330) |
| ModelPackaging.FiltersConjoin | exostack-integration/shared/services/model_packaging.py:229-242 | the three filters are conjunctive: a package passes all exactly when it passes each alone; with none given every package passes; an empty tag dictionary filters nothing |
| FineTuning.ParseStatus | exostack-integration/shared/services/finetuning_manager.py:17-24 | a parsed status has exactly the given value; an unknown value is rejected (ValueError) (also line 184) |
| FineTuning.ParseStatusValue | exostack-integration/shared/services/finetuning_manager.py:17-24 | every status is read back from its value, so the parse is the exact inverse of the value |
| FineTuning.Progressed | exostack-integration/shared/services/finetuning_manager.py:156-189 | each progress field is overwritten only when the update carries it; a log entry with the resulting epoch, step and losses is appended; a valid status replaces the job's, while an unknown one raises after the progress and log were applied, so only the status stays; configuration, node, checkpoints, times and error never change |
| FineTuning.Finished | exostack-integration/shared/services/finetuning_manager.py:206-249 | a finished job gets its final status and end time now, and a non-empty final model path as its last checkpoint; nothing else changes |
| FineTuning.FindInHistory | exostack-integration/shared/services/finetuning_manager.py:255-259 | the first job of the history with that id, or nothing exactly when no job has it |
| FineTuning.FineTuningManager.constructor | exostack-integration/shared/services/finetuning_manager.py:92-105 | the manager starts with no active jobs and an empty history |
| FineTuning.FineTuningManager.CreateJob | exostack-integration/shared/services/finetuning_manager.py:107-129 | when the configuration is saved the new PENDING job is tracked under its id and the id returned; when saving fails the error propagates and nothing is tracked |
| FineTuning.FineTuningManager.StartJob | exostack-integration/shared/services/finetuning_manager.py:131-154 | false exactly for a job that is not active; otherwise the job is PREPARING on the node from now on and nothing else changes |
| FineTuning.FineTuningManager.UpdateJobProgress | exostack-integration/shared/services/finetuning_manager.py:156-189 | an active job gets the progress update; any other id changes nothing |
| FineTuning.FineTuningManager.SaveCheckpoint | exostack-integration/shared/services/finetuning_manager.py:191-204 | the path is appended to an active job's checkpoints; any other id changes nothing |
| FineTuning.FineTuningManager.Finish | exostack-integration/shared/services/finetuning_manager.py:206-249 | an active job ends with the given status and moves from the active jobs to the end of the history; an unknown id changes nothing |
| FineTuning.FineTuningManager.CompleteJob | exostack-integration/shared/services/finetuning_manager.py:206-227 | an active job is COMPLETED now, with a non-empty final model path as last checkpoint, and moves to the history |
| FineTuning.FineTuningManager.CancelJob | exostack-integration/shared/services/finetuning_manager.py:229-249 | an active job is CANCELLED now, its checkpoints kept, and moves to the history |
| FineTuning.FineTuningManager.GetJobStatus | exostack-integration/shared/services/finetuning_manager.py:251-279 | the report of the active job with that id, else of the first job of the history with it, else nothing |
| FineTuning.FindAfterAppend | exostack-integration/shared/services/finetuning_manager.py:221 | a job appended to the history is found by its id unless an earlier entry has the same id, which is then reported instead (also lines 255-259) |
| FineTuning.JobLifecycle | exostack-integration/shared/services/finetuning_manager.py:107-227 | created, started and completed with a final path, a job starts PENDING with no checkpoints or logs and is then reported as "completed" from the history, with the final path as its only checkpoint, its end time and its node (also lines 251-279) |
| DistributedExecution.FloorDiv | exostack-integration/hub/services/distributed_executor.py:70 | Python's `//`: the quotient rounded toward minus infinity, for either sign of divisor (also line 79, line 182) |
| DistributedExecution.ShardIdInjective | exostack-integration/hub/services/distributed_executor.py:77 | different positions give different shard ids |
| DistributedExecution.ShardCount | exostack-integration/hub/services/distributed_executor.py:68-71 | one shard per `memory_per_shard` of the model, at least one and no more than there are nodes |
| DistributedExecution.PrepareSpec | exostack-integration/hub/services/distributed_executor.py:47-86 | with no nodes it raises, and a `memory_per_shard` of 0 divides by zero; otherwise exactly the shard count of shards, shard `i` with its id, the even share of the model size, the per-shard memory and the GPU flag (defaults 0, 4000, true) |
| DistributedExecution.PreparedShardsFacts | exostack-integration/hub/services/distributed_executor.py:68-86 | the prepared shards number between 1 and the node count, have distinct ids, start unassigned, and split the model evenly: each share times the count is the size less the division's remainder |
| DistributedExecution.ConsByResources | exostack-integration/hub/services/distributed_executor.py:301-313 | a node that no later node outranks can go in front of a best-first list |
| DistributedExecution.InsertByResources | exostack-integration/hub/services/distributed_executor.py:301-313 | one insertion step of the stable sort grows the list by one |
| DistributedExecution.InsertByResourcesCounts | exostack-integration/hub/services/distributed_executor.py:301-313 | an insertion step adds exactly the inserted node |
| DistributedExecution.InsertByResourcesSorts | exostack-integration/hub/services/distributed_executor.py:301-313 | inserting into a best-first list keeps it best first |
| DistributedExecution.SortByResources | exostack-integration/hub/services/distributed_executor.py:301-313 | the sort keeps the length |
| DistributedExecution.SortByResourcesOrders | exostack-integration/hub/services/distributed_executor.py:301-313 | the sort orders by (GPU memory, memory, minus load) descending, a missing capability counting as 0 |
| DistributedExecution.SortByResourcesKeeps | exostack-integration/hub/services/distributed_executor.py:301-313 | the sort is a permutation of the nodes given |
| DistributedExecution.InsertByResourcesStable | exostack-integration/hub/services/distributed_executor.py:301-313 | inserting into a best-first list puts the node after every node with its (GPU memory, memory, load) key, leaving each key's nodes in order |
| DistributedExecution.SortByResourcesStable | exostack-integration/hub/services/distributed_executor.py:301-313 | nodes with equal (GPU memory, memory, load) keep the order they were given in, as sorted(reverse=True) keeps them, so equal nodes take the shards in that order (line 112) |
| DistributedExecution.SortByResourcesSorts | exostack-integration/hub/services/distributed_executor.py:301-313 | best resources first, the same nodes as given, and nodes with equal keys in the order given |
| DistributedExecution.ShardIds | exostack-integration/hub/services/distributed_executor.py:112-113 | one shard id per shard, in order |
| DistributedExecution.Placements | exostack-integration/hub/services/distributed_executor.py:112-117 | shard `i` is planned on the `i`-th node, pending |
| DistributedExecution.DistributeSpec | exostack-integration/hub/services/distributed_executor.py:88-121 | distribution fails exactly when there are no shards (`shards[0]` raises) or fewer nodes than shards |
| DistributedExecution.DistributeAssigns | exostack-integration/hub/services/distributed_executor.py:108-121 | on success every shard is assigned to the node of its rank in resource order and is otherwise unchanged, and the plan sends each shard to that node, pending |
| DistributedExecution.Slice | exostack-integration/hub/services/distributed_executor.py:189 | Python's `s[a:b]` for non-negative bounds, clipped to the sequence |
| DistributedExecution.PerShard | exostack-integration/hub/services/distributed_executor.py:182 | the tokens per shard are at least one |
| DistributedExecution.OffsetIsProduct | exostack-integration/hub/services/distributed_executor.py:185 | run `i` starts at `i` times the run length |
| DistributedExecution.StartOf | exostack-integration/hub/services/distributed_executor.py:185 | the start of run `i` is its offset |
| DistributedExecution.Run | exostack-integration/hub/services/distributed_executor.py:184-189 | a run holds only tokens of the input, the last run taking everything left |
| DistributedExecution.Segment | exostack-integration/hub/services/distributed_executor.py:184-189 | a shard's segment holds only tokens of the input |
| DistributedExecution.RunsPrefix | exostack-integration/hub/services/distributed_executor.py:184-189 | the first `m` runs together are the tokens up to the `m`-th offset |
| DistributedExecution.SegmentsCover | exostack-integration/hub/services/distributed_executor.py:181-189 | all the segments together give back exactly the tokens, in order: nothing is lost or repeated |
| DistributedExecution.Entries | exostack-integration/hub/services/distributed_executor.py:184-193 | one plan entry per position |
| DistributedExecution.ExecutionPlanIsKeyed | exostack-integration/hub/services/distributed_executor.py:167-195 | the plan is the dictionary from the shard ids to their entries |
| DistributedExecution.CreateExecutionPlan | exostack-integration/hub/services/distributed_executor.py:167-195 | it fails exactly when there are no shards (division by zero); otherwise the plan deals the input's words out to the shards in runs |
| DistributedExecution.PlanStep | exostack-integration/hub/services/distributed_executor.py:184-193 | one round of the loop adds shard `i`'s entry, whose run starts at `i` times the run length |
| DistributedExecution.SegmentRoundTrip | exostack-integration/hub/services/distributed_executor.py:181-189 | a segment's text, split again, gives back its run of words |
| DistributedExecution.ExecutionPlanEntry | exostack-integration/hub/services/distributed_executor.py:184-193 | with distinct shard ids, shard `i`'s entry has position `i`, the shard count, the parameters, and a segment whose words are shard `i`'s run of the input's words |
| DistributedExecution.ShardTarget | exostack-integration/hub/services/distributed_executor.py:206-211 | a shard passes exactly when it is assigned a non-empty node id the registry knows, and that node is the target |
| DistributedExecution.AssignedShardTarget | exostack-integration/hub/services/distributed_executor.py:118 | a distributed shard passes the checks exactly when its node is known (also lines 206-211) |
| DistributedExecution.InsertByPosition | exostack-integration/hub/services/distributed_executor.py:256-259 | one insertion step of the stable sort grows the list by one |
| DistributedExecution.InsertByPositionCounts | exostack-integration/hub/services/distributed_executor.py:256-259 | an insertion step adds exactly the inserted result |
| DistributedExecution.InsertByPositionSorts | exostack-integration/hub/services/distributed_executor.py:256-259 | inserting into a position-ordered list keeps it ordered |
| DistributedExecution.SortByPosition | exostack-integration/hub/services/distributed_executor.py:256-259 | the sort keeps the length |
| DistributedExecution.InsertByPositionStable | exostack-integration/hub/services/distributed_executor.py:256-259 | inserting into a position-ordered list puts the result after every result at its position |
| DistributedExecution.SortByPositionSorts | exostack-integration/hub/services/distributed_executor.py:256-259 | the results are ordered by position (missing counting as 0), are a permutation of those given, and results at the same position keep the order they came in |
| DistributedExecution.MaxMemory | exostack-integration/hub/services/distributed_executor.py:263-272 | the running maximum from 0 bounds every result's memory and is 0 or some result's memory |
| DistributedExecution.MaxTime | exostack-integration/hub/services/distributed_executor.py:264-273 | the running maximum from 0 bounds every result's time and is 0 or some result's time |
| DistributedExecution.CombineShardResults | exostack-integration/hub/services/distributed_executor.py:248-282 | the outputs joined in position order and stripped, the output tokens summed, the largest memory use and the longest time |
| DistributedExecution.SumTokensInsert | exostack-integration/hub/services/distributed_executor.py:268 | inserting a result adds its tokens to the total |
| DistributedExecution.SumTokensCons | exostack-integration/hub/services/distributed_executor.py:268 | the total of a list is its first result's tokens plus the rest's |
| DistributedExecution.SumTokensSorted | exostack-integration/hub/services/distributed_executor.py:256-268 | the token total does not depend on the order the shards reported in |
| DistributedExecution.CombinedBounds | exostack-integration/hub/services/distributed_executor.py:248-282 | the combined memory and time bound every shard's, whatever the order, and are 0 or some shard's; the token total is the sum over the results as they came |
| DistributedExecution.DistributedExecutor.constructor | exostack-integration/hub/services/distributed_executor.py:39-45 | the executor starts with no recorded shards |
| DistributedExecution.DistributedExecutor.PrepareModelDistribution | exostack-integration/hub/services/distributed_executor.py:47-86 | the result is the preparation specification for the nodes offered; on success the shards are recorded under the model's name, and nothing is recorded when it raises |
| DistributedExecution.DistributedExecutor.DistributeModel | exostack-integration/hub/services/distributed_executor.py:88-121 | on failure nothing changes; on success the plan is returned and, since the shards are updated in place, a model whose recorded shards are those passed shows the assignment |
| TaskDistribution.ProvisionFailsOnlyWithoutNodes | exostack-integration/hub/services/task_distributor.py:43-57 | with the fixed model configuration (8000 MB in 4000 MB shards), distributing a new model fails exactly when there are no nodes; otherwise the model gets one or two shards, all assigned (also lines 124-139) |
| TaskDistribution.MetricsOf | exostack-integration/hub/services/task_distributor.py:141-162 | metrics are recorded exactly for a COMPLETED task with an end time, with the execution time from start to end |
| TaskDistribution.ViewOf | exostack-integration/hub/services/task_distributor.py:86-104 | the reported task keeps every field but the result, which is replaced by a summary: status "completed", the output's length (0 when absent) and its metrics (empty when absent) |
| TaskDistribution.RunOutcomeCases | exostack-integration/hub/services/task_distributor.py:59-84 | the task completes exactly when provisioning, the run and the metrics hand-off all succeed, and then holds the run's result and end time, which is also returned; otherwise it is FAILED with the first error, which is what the caller sees; start time and model are kept |
| TaskDistribution.TaskDistributor.constructor | exostack-integration/hub/services/task_distributor.py:16-21 | the distributor starts with no tasks and a fresh executor holding no shards |
| TaskDistribution.TaskDistributor.EnsureDistributed | exostack-integration/hub/services/task_distributor.py:43-57 | a model the executor does not have yet is prepared and distributed with the fixed configuration; a model it has is left alone |
| TaskDistribution.TaskDistributor.DistributeTask | exostack-integration/hub/services/task_distributor.py:23-84 | the executor's shard table is provisioned; the task's record goes from PENDING to COMPLETED or FAILED with the error passed on; metrics are handed over exactly when the task completed |
| TaskDistribution.TaskDistributor.RunTask | exostack-integration/hub/services/task_distributor.py:59-84 | once the model is provisioned (or has failed to be), the task's record goes through RUNNING to its outcome and the same outcome is returned |
| TaskDistribution.TaskDistributor.GetTaskStatus | exostack-integration/hub/services/task_distributor.py:86-104 | an unknown task raises ValueError; otherwise its record with the result summarised |
| TaskDistribution.TaskDistributor.CancelTask | exostack-integration/hub/services/task_distributor.py:106-122 | an unknown task raises ValueError; a RUNNING task becomes CANCELLED now; any other task is left as it was; the answer is always "cancelled" with the id |
| TaskDistribution.TaskDistributor.CleanupTask | exostack-integration/hub/services/task_distributor.py:164-176 | the task and its lock are both forgotten |
| Tokenizing.IdOfNameOf | indian_market/scripts/data_processing/tokenize_data.py:25-48 | every id's token name (a special token, or VAL_k for id 5 + k) reads back to that id, so no two ids share a name |
| Tokenizing.VocabularyExtend | indian_market/scripts/data_processing/tokenize_data.py:43-48 | adding VAL_k with the next free id keeps the two maps inverse vocabularies: the new name was not yet taken |
| Tokenizing.VocabularyInverse | indian_market/scripts/data_processing/tokenize_data.py:36-48 | token_to_id and id_to_token are mutual inverses, and VAL_k has id 5 + k |
| Tokenizing.ColumnValues | indian_market/scripts/data_processing/tokenize_data.py:63-69 | a feature's column holds at most one value per row |
| Tokenizing.ColumnValuesEmpty | indian_market/scripts/data_processing/tokenize_data.py:74-75 | a feature's column is empty exactly when no row has its capitalised key |
| Tokenizing.MinOf | indian_market/scripts/data_processing/tokenize_data.py:77 | the minimum is one of the values and no value is below it |
| Tokenizing.MaxOf | indian_market/scripts/data_processing/tokenize_data.py:78 | the maximum is one of the values and no value is above it |
| Tokenizing.RangeOf | indian_market/scripts/data_processing/tokenize_data.py:76-80 | min and max are values of the column and bound every value; the mean lies between them |
| Tokenizing.RangesOverLookup | indian_market/scripts/data_processing/tokenize_data.py:71-80 | a listed feature gets a range exactly when its column is nonempty, and the range is that column's |
| Tokenizing.RangesOfFacts | indian_market/scripts/data_processing/tokenize_data.py:50-80 | after fitting, a feature has a range exactly when some row has its column, and that range spans every value of the column |
| Tokenizing.QuantisedId | indian_market/scripts/data_processing/tokenize_data.py:103-106 | the clamped id is at least 5 and, for a vocabulary above 5, at most vocab_size − 1 |
| Tokenizing.QuantisedIdMonotone | indian_market/scripts/data_processing/tokenize_data.py:103-106 | a larger normalised value never gets a smaller id |
| Tokenizing.NormalizedMonotone | indian_market/scripts/data_processing/tokenize_data.py:97-101 | normalisation against a feature's range is monotone, including the flat-range case fixed at 0.5 |
| Tokenizing.ValueToTokenFacts | indian_market/scripts/data_processing/tokenize_data.py:89-108 | a feature without a range gives the bare UNK id rather than a token name; otherwise a VAL token whose id is within the vocabulary; a flat range always gives the token of 0.5 |
| Tokenizing.ValueToTokenMonotone | indian_market/scripts/data_processing/tokenize_data.py:89-108 | for one feature, a larger value never gets a smaller VAL token |
| Tokenizing.FeatureTokens | indian_market/scripts/data_processing/tokenize_data.py:125-133 | reading a present column before fitting raises AttributeError, and only then; otherwise one token per feature (also lines 71-72) |
| Tokenizing.RowTokensFacts | indian_market/scripts/data_processing/tokenize_data.py:110-138 | a tokenized row has eight tokens: CLS, UNK for each missing column, a value id in [5, vocab_size − 1] for each fitted present one, then SEP |
| Tokenizing.SequenceFeatures | indian_market/scripts/data_processing/tokenize_data.py:155-168 | six tokens per row, one row after another |
| Tokenizing.FitLengthFacts | indian_market/scripts/data_processing/tokenize_data.py:173-178 | the result has exactly max_length tokens: the content followed by PAD when it fits, otherwise its first max_length − 1 tokens and SEP |
| Tokenizing.SequenceTokensFacts | indian_market/scripts/data_processing/tokenize_data.py:140-180 | an encoded sequence has max_length tokens, starts with CLS, carries SEP right after the rows or in the last slot when truncated, and PAD after the content |
| Tokenizing.LabelOf | indian_market/scripts/data_processing/tokenize_data.py:216-230 | a label is 0, 1 or 2; a missing Close raises KeyError and a zero Close ZeroDivisionError |
| Tokenizing.LabelThresholds | indian_market/scripts/data_processing/tokenize_data.py:220-228 | label 0 exactly below −1 %, 2 exactly above +1 %, 1 exactly in between, inclusive |
| Tokenizing.GroupWindows | indian_market/scripts/data_processing/tokenize_data.py:209-232 | a symbol with n windows gives n sequences and n labels |
| Tokenizing.DatasetWindows | indian_market/scripts/data_processing/tokenize_data.py:209-232 | the symbols' windows are concatenated: as many sequences and labels as windows in all symbols |
| Tokenizing.GroupWindowsFacts | indian_market/scripts/data_processing/tokenize_data.py:209-232 | every window of a symbol has max_length tokens and a label in {0, 1, 2} |
| Tokenizing.DatasetWindowsFacts | indian_market/scripts/data_processing/tokenize_data.py:205-235 | every window of every symbol has max_length tokens and a label in {0, 1, 2} |
| Tokenizing.EncodeDatasetFacts | indian_market/scripts/data_processing/tokenize_data.py:182-235 | encoding gives len − sequence_length windows per symbol (none for a shorter symbol), one label per sequence, labels in {0, 1, 2}, sequences max_length long |
| Tokenizing.DecodedWords | indian_market/scripts/data_processing/tokenize_data.py:247-252 | one word per id: its token, or "<UNK>" for an id outside the vocabulary |
| Tokenizing.DecodeWords | indian_market/scripts/data_processing/tokenize_data.py:237-254 | splitting the decoded text on spaces gives back the words, one per id, each the id's token name or "<UNK>" |
| Tokenizing.SavedRows | indian_market/scripts/data_processing/tokenize_data.py:339-341 | one saved line per pair of the zip, so as many as the shorter of inputs and labels |
| Tokenizing.AddSpecialTokens | indian_market/scripts/data_processing/tokenize_data.py:38-41 | the five special tokens get ids 0 to 4, in both directions |
| Tokenizing.AddValueTokens | indian_market/scripts/data_processing/tokenize_data.py:43-48 | VAL_0 … VAL_(vocab_size − 6) get the next ids 5, 6, …, keeping the maps inverse; nothing is added for a vocabulary of 5 or less |
| Tokenizing.AddRow | indian_market/scripts/data_processing/tokenize_data.py:65-69 | each feature's column gains the row's value exactly when the row has the capitalised key |
| Tokenizing.CollectColumns | indian_market/scripts/data_processing/tokenize_data.py:63-69 | every feature's collected values are its column, in row order |
| Tokenizing.RangesOfColumns | indian_market/scripts/data_processing/tokenize_data.py:73-80 | the loop over features builds the range of every listed feature with a nonempty column |
| Tokenizing.ColumnRanges | indian_market/scripts/data_processing/tokenize_data.py:71-80 | the ranges built are those of the fitted data |
| Tokenizing.SimpleKronosTokenizer.constructor | indian_market/scripts/data_processing/tokenize_data.py:19-34 | a new tokenizer has the given sizes, no ranges yet and a full vocabulary of max(vocab_size, 5) tokens |
| Tokenizing.SimpleKronosTokenizer.InitializeVocabulary | indian_market/scripts/data_processing/tokenize_data.py:36-48 | the vocabulary built is inverse in both directions with max(vocab_size, 5) entries |
| Tokenizing.SimpleKronosTokenizer.Fit | indian_market/scripts/data_processing/tokenize_data.py:50-87 | fitting sets the ranges to those of the data and leaves the vocabulary alone |
| MarketRows.FeatureNamesDistinct | indian_market/scripts/data_processing/tokenize_data.py:22 | the six feature names are distinct |
| MarketRows.Capitalize | indian_market/scripts/data_processing/tokenize_data.py:67 | `str.capitalize()` keeps the length (also line 127, line 159) |
| MarketRows.FeatureKeysAreCapitalized | indian_market/scripts/data_processing/tokenize_data.py:22 | each feature name capitalises to the column it reads ("open" to "Open", …, "amount" to "Amount") (also line 67) |
| MarketRows.InsertByDateCounts | indian_market/scripts/data_processing/tokenize_data.py:203 | inserting a row adds exactly that row (also clean_normalize_data.py line 94, clean_normalize_data.py line 169) |
| MarketRows.InsertByDateSorts | indian_market/scripts/data_processing/tokenize_data.py:203 | inserting into a date-sorted list keeps it sorted (also clean_normalize_data.py line 94, clean_normalize_data.py line 169) |
| MarketRows.InsertByDateStable | indian_market/scripts/data_processing/tokenize_data.py:203 | inserting into a date-sorted list puts the row after every row with its date, leaving each date's rows in order (also clean_normalize_data.py line 94, clean_normalize_data.py line 169) |
| MarketRows.SortByDateStable | indian_market/scripts/data_processing/tokenize_data.py:203 | rows with the same date keep their input order, as the stable `list.sort` keeps them (also clean_normalize_data.py line 94, clean_normalize_data.py line 169) |
| MarketRows.SortByDateSorts | indian_market/scripts/data_processing/tokenize_data.py:203 | sorting by the date string leaves dates non-decreasing, keeps exactly the given rows, and keeps rows with the same date in input order (also clean_normalize_data.py line 94, clean_normalize_data.py line 169) |
| MarketRows.Symbols | indian_market/scripts/data_processing/tokenize_data.py:196-199 | the grouping keys are distinct and are exactly the symbols present in the data (also clean_normalize_data.py lines 160-163) |
| MarketRows.RowsOf | indian_market/scripts/data_processing/tokenize_data.py:196-199 | a group holds only rows of its symbol, taken from the data (also clean_normalize_data.py lines 160-163) |
| MarketRows.RowsOfCounts | indian_market/scripts/data_processing/tokenize_data.py:196-199 | every row of the symbol is collected, as often as it occurs (also clean_normalize_data.py lines 160-163) |
| MarketRows.GroupsPartition | indian_market/scripts/data_processing/tokenize_data.py:195-203 | each group has one symbol, is sorted by date and holds every row of that symbol; every row lies in its symbol's group (also clean_normalize_data.py lines 159-169) |
| Predicting.NormalizedInput | indian_market/scripts/evaluation/predict.py:83-92 | a range entry lacking "min" or "max" raises KeyError, and only then; a value inside its feature's range normalises into [0, 1] |
| Predicting.InputToken | indian_market/scripts/evaluation/predict.py:95-97 | the clamped id is at least 5 and, for a vocabulary above 5, at most vocab_size − 1 |
| Predicting.InputScaleDiffersFromTraining | indian_market/scripts/evaluation/predict.py:95 | prediction scales by vocab_size − 100 where the tokenizer scales by vocab_size − 6: with 10000 tokens, a value at the top of its range becomes id 9905 here and 9999 in training |
| Predicting.FeatureInputToken | indian_market/scripts/evaluation/predict.py:78-100 | a missing column gives UNK; a present one a value id in [5, vocab_size − 1]; an error exactly for a present column whose range entry lacks "min" or "max" |
| Predicting.RowInputTokens | indian_market/scripts/evaluation/predict.py:78-100 | one token per feature name |
| Predicting.RowInputTokensAt | indian_market/scripts/evaluation/predict.py:78-100 | token f of a row is the token of feature f |
| Predicting.RowFailureHasCause | indian_market/scripts/evaluation/predict.py:78-100 | a failing row has a failing feature |
| Predicting.FeatureFailureFailsRow | indian_market/scripts/evaluation/predict.py:78-100 | a failing feature fails its row |
| Predicting.RowInputTokensFail | indian_market/scripts/evaluation/predict.py:78-100 | a row fails exactly when one of its features does |
| Predicting.InputBodyFails | indian_market/scripts/evaluation/predict.py:77-100 | the body fails exactly when one of its rows does |
| Predicting.RowTokensInRange | indian_market/scripts/evaluation/predict.py:78-100 | every token of a good row is UNK or a value id in [5, vocab_size − 1] |
| Predicting.InputBodyInRange | indian_market/scripts/evaluation/predict.py:77-100 | every body token is UNK or a value id in [5, vocab_size − 1] |
| Predicting.PreprocessedFacts | indian_market/scripts/evaluation/predict.py:67-116 | a failing body is caught and gives the empty list, and only it does; otherwise 512 ids: CLS, the body and SEP followed by PAD when they fit, else the first 511 and SEP |
| Predicting.Tagged | indian_market/scripts/evaluation/predict.py:136-149 | a model error is passed through as an error result, and only it is; any other output is tagged with its prediction type (also lines 173-186, lines 210-223) |
| Predicting.BatchPredictions | indian_market/scripts/evaluation/predict.py:244-260 | one result per sequence |
| Predicting.BatchPredictionsFacts | indian_market/scripts/evaluation/predict.py:244-260 | result i is the prediction for sequence i under the task |
| Predicting.BatchPredictionsFail | indian_market/scripts/evaluation/predict.py:64-65 | an unknown task gives the "Unknown task" error for every sequence; without a tokenizer every sequence gets an error result (also lines 151-153, lines 255-256) |
| Predicting.KronosPredictor.constructor | indian_market/scripts/evaluation/predict.py:25-30 | the predictor holds the given tokenizer data and load flag |
| Predicting.KronosPredictor.PreprocessInput | indian_market/scripts/evaluation/predict.py:54-116 | without tokenizer data it raises "Tokenizer not loaded"; otherwise the preprocessed ids |
| Predicting.KronosPredictor.BatchPredict | indian_market/scripts/evaluation/predict.py:229-260 | without a loaded model it raises "Model not loaded"; otherwise the batch results |
| Predicting.TokensOfRow | indian_market/scripts/evaluation/predict.py:78-100 | the loop over features computes the row's tokens, or fails exactly when the row does |
| Predicting.RowTokensStep | indian_market/scripts/evaluation/predict.py:78-100 | a failing feature fails the row; a good one extends the tokens of the features before it |
| Predicting.RowErrorStays | indian_market/scripts/evaluation/predict.py:78-100 | once a feature prefix fails, the whole row fails |
| Predicting.BodyErrorStays | indian_market/scripts/evaluation/predict.py:77-100 | a failing row fails the whole body |
| Predicting.SignalOfMeaning | indian_market/scripts/evaluation/predict.py:274-334 | an error gives ERROR with confidence 0; class 2 buys, class 0 sells, anything else holds, with the prediction's confidence; volatility and volume levels "high" give the HIGH signal, others the LOW one; a prediction of any other type gives no signal; each signal carries its index |
| Predicting.SignalsOfPrefix | indian_market/scripts/evaluation/predict.py:274-336 | the signals of a shorter prefix are a prefix of the signals |
| Predicting.SignalsBelong | indian_market/scripts/evaluation/predict.py:274-336 | each signal is the one for the prediction at its index |
| Predicting.SignalsIncrease | indian_market/scripts/evaluation/predict.py:274-336 | signal indices strictly increase |
| Predicting.SignalsCover | indian_market/scripts/evaluation/predict.py:274-336 | every prediction of a known type has a signal |
| Predicting.GenerateTradingSignals | indian_market/scripts/evaluation/predict.py:262-336 | the loop builds exactly the signals of the predictions |
| Predicting.GroupStepKeeps | indian_market/scripts/evaluation/predict.py:353-369 | one more row keeps the grouping invariant: the sequences and the open one concatenate to the rows seen, and each closed sequence has 1 to 30 rows of one symbol, and the open one fewer than 30 rows of the current symbol |
| Predicting.GroupRowsInvariant | indian_market/scripts/evaluation/predict.py:347-369 | the grouping of any rows satisfies the invariant |
| Predicting.TestSequencesFacts | indian_market/scripts/evaluation/predict.py:344-373 | every row lands in exactly one sequence, in order, and every sequence holds 1 to 30 rows of a single symbol |
| Predicting.LoadTestSequences | indian_market/scripts/evaluation/predict.py:344-373 | the grouping loop builds exactly the test sequences of the rows |
| Evaluation.Correct | indian_market/scripts/evaluation/evaluate_model.py:53-60 | no more correct predictions than pairs scored |
| Evaluation.ClassCorrectAtMostTotal | indian_market/scripts/evaluation/evaluate_model.py:59-63 | a class is never right more often than it occurs among the scored labels |
| Evaluation.Ratio | indian_market/scripts/evaluation/evaluate_model.py:66 | a count over a positive total is its exact share and lies in [0, 1]; a zero total gives 0.0; the share is 0 exactly when the count is (also lines 71-74, lines 154-157) |
| Evaluation.AccuracyOf | indian_market/scripts/evaluation/evaluate_model.py:45-47 | a length mismatch is caught and reported, and only it is (also lines 83-85) |
| Evaluation.AccuracyOverall | indian_market/scripts/evaluation/evaluate_model.py:49-66 | the correct count is that of the non-error pairs that match; error entries are skipped but stay in the denominator; the overall accuracy is the correct share and lies in [0, 1] (also lines 76-81) |
| Evaluation.AccuracyPerClass | indian_market/scripts/evaluation/evaluate_model.py:68-74 | each of the three class accuracies is the class's correct share of its scored occurrences, lies in [0, 1], and is 0.0 for a class that never occurs |
| Evaluation.AllErrorsScoreZero | indian_market/scripts/evaluation/evaluate_model.py:54-55 | error entries count neither as correct nor towards any class |
| Evaluation.CalculateAccuracy | indian_market/scripts/evaluation/evaluate_model.py:33-85 | the loop computes exactly the accuracy report |
| Evaluation.Confusion | indian_market/scripts/evaluation/evaluate_model.py:100-109 | the tally is a 3 × 3 matrix |
| Evaluation.ConfusionCells | indian_market/scripts/evaluation/evaluate_model.py:102-109 | each cell counts exactly the non-error pairs with that true label and predicted class |
| Evaluation.ConfusionTotal | indian_market/scripts/evaluation/evaluate_model.py:102-109 | the cells sum to the number of non-error pairs whose label and class both lie in [0, 3) |
| Evaluation.TallyMatrix | indian_market/scripts/evaluation/evaluate_model.py:100-109 | the tally loop over the zip (which stops at the shorter list) computes exactly that matrix (also lines 133-142) |
| Evaluation.CalculateConfusionMatrix | indian_market/scripts/evaluation/evaluate_model.py:87-114 | the matrix returned counts each (true label, predicted class) pair, sums to the in-range scored pairs, and comes with the names down, neutral, up |
| Evaluation.F1 | indian_market/scripts/evaluation/evaluate_model.py:160 | F1 lies in [0, 1] and is 0.0 exactly when precision or recall is |
| Evaluation.ScoreOf | indian_market/scripts/evaluation/evaluate_model.py:147-160 | precision, recall and F1 of a class all lie in [0, 1] |
| Evaluation.ScoreOfRatios | indian_market/scripts/evaluation/evaluate_model.py:149-157 | precision is true positives over the column total and recall over the row total, 0.0 on a zero total |
| Evaluation.ScoreOfF1Zero | indian_market/scripts/evaluation/evaluate_model.py:149-160 | F1 is 0.0 exactly when the class has no true positive |
| Evaluation.ScoresOf | indian_market/scripts/evaluation/evaluate_model.py:144-176 | one score per class, and each macro score is the mean of the three per-class values, in [0, 1] |
| Evaluation.CalculatePrecisionRecallF1 | indian_market/scripts/evaluation/evaluate_model.py:120-182 | the scores returned are those of the tallied matrix |
| Training.Zip | indian_market/scripts/training/fine_tune_model.py:83 | the zip is as long as the shorter list and pairs the entries at each index (also line 412) |
| Training.Unzip | indian_market/scripts/training/fine_tune_model.py:423-425 | taking the pairs apart gives two lists as long as the data, which zip back to it |
| Training.MaxLength | indian_market/scripts/training/fine_tune_model.py:97 | the batch width is the length of some row and no row is longer |
| Training.RowsAt | indian_market/scripts/training/fine_tune_model.py:101-107 | row i of a batch is row i of the slice padded, its mask and its label |
| Training.BatchOfFacts | indian_market/scripts/training/fine_tune_model.py:92-113 | every padded row and mask is as wide as the longest row; a row keeps its tokens and is PAD (0) after them; the mask is 1 exactly on the real tokens; labels stay aligned with their rows |
| Training.Chunks | indian_market/scripts/training/fine_tune_model.py:91-92 | every slice holds 1 to batch_size examples |
| Training.ChunksConcat | indian_market/scripts/training/fine_tune_model.py:91-92 | the slices put back together are the data, in order |
| Training.ChunksCount | indian_market/scripts/training/fine_tune_model.py:91-92 | there are ⌈n / batch_size⌉ slices, all full but the last |
| Training.BatchesOfChunks | indian_market/scripts/training/fine_tune_model.py:90-113 | batch k is built from slice k, and there is one batch per slice |
| Training.PadBatch | indian_market/scripts/training/fine_tune_model.py:93-113 | the padding loop builds exactly the batch of the slice |
| Training.MakeBatches | indian_market/scripts/training/fine_tune_model.py:90-113 | the outer loop builds exactly one batch per slice, in order |
| Training.BatchStep | indian_market/scripts/training/fine_tune_model.py:91-113 | one turn of the outer loop takes the next slice off the remaining data |
| Training.KronosFineTuner.constructor | indian_market/scripts/training/fine_tune_model.py:25-50 | a missing or empty configuration is replaced by the defaults; a given one is kept as is |
| Training.KronosFineTuner.CreateDataLoader | indian_market/scripts/training/fine_tune_model.py:77-116 | an explicit nonzero batch size wins over the configured one; a missing "batch_size", or "seed" when shuffling, raises KeyError; a batch size of 0 raises ValueError; a negative one gives no batches; otherwise the batches of the zipped data, shuffled when asked |
| Training.BatchesKeepOrder | indian_market/scripts/training/fine_tune_model.py:83-116 | without shuffling the batches hold the zipped data in order, ⌈n / batch_size⌉ of them, each but the last holding batch_size examples |
| Training.SplitDataset | indian_market/scripts/training/fine_tune_model.py:408-427 | unpacking an empty part raises, and only that fails; otherwise the two parts are the shuffled data split at int(n · ratio), together exactly the zipped data |
| Training.SplitFailsAtEnds | indian_market/scripts/training/fine_tune_model.py:419-425 | with a ratio in [0, 1] the split fails exactly when int(n · ratio) is 0 or n |
| Training.ParseInts | indian_market/scripts/training/fine_tune_model.py:395 | parsed words give one integer each |
| Training.ParseDataLineSkips | indian_market/scripts/training/fine_tune_model.py:383-390 | a blank line and a line without a comma are skipped, and only they are |
| Training.ParseDataLineSplits | indian_market/scripts/training/fine_tune_model.py:387-400 | any other line is split at its first comma into the tokens and the label |
| Training.DataLines | indian_market/scripts/training/fine_tune_model.py:376-380 | the data lines are all the lines, or all but a leading header |
| Training.LineParses | indian_market/scripts/training/fine_tune_model.py:382-400 | each line is read on its own |
| Training.FailureStays | indian_market/scripts/training/fine_tune_model.py:394-406 | once a line fails to parse, the whole read fails |
| Training.InvalidAborts | indian_market/scripts/training/fine_tune_model.py:394-406 | an unparsable data line fails the read |
| Training.InvalidLineEmpties | indian_market/scripts/training/fine_tune_model.py:394-406 | one unparsable data line anywhere discards everything read, returning two empty lists |
| Training.ReadRows | indian_market/scripts/training/fine_tune_model.py:382-402 | the loop over lines reads exactly the rows of the lines, or fails with them |
| Training.LoadTokenizedDataset | indian_market/scripts/training/fine_tune_model.py:367-406 | the lists returned are those of the file's lines, or empty when the file cannot be read or a line cannot be parsed |
| Training.ParseShownInts | indian_market/scripts/training/fine_tune_model.py:395 | the written token words parse back to the tokens (also tokenize_data.py line 340) |
| Training.ParseDataLineAt | indian_market/scripts/training/fine_tune_model.py:383-400 | a line reading tokens, a comma and a label is read from those two parts |
| Training.SavedLineShape | indian_market/scripts/data_processing/tokenize_data.py:340-341 | a written line, stripped, is the tokens, one comma and the label |
| Training.ParseSavedLine | indian_market/scripts/training/fine_tune_model.py:382-400 | a written line reads back as the pair it was written from (also tokenize_data.py lines 339-341) |
| Training.LoadSaved | indian_market/scripts/training/fine_tune_model.py:367-406 | loading the file the tokenizer script saves gives back the saved pairs: the zip of the two lists (also tokenize_data.py lines 334-348) |
| CleanNormalize.PositiveCheck | indian_market/scripts/data_processing/clean_normalize_data.py:36-37 | the only error of the positivity test is the KeyError of a missing column |
| CleanNormalize.PositiveCheckMeaning | indian_market/scripts/data_processing/clean_normalize_data.py:36-37 | the `or` chain passes exactly when every price column is present and positive, and raises exactly when it reaches a missing column after only positive ones |
| CleanNormalize.Screen | indian_market/scripts/data_processing/clean_normalize_data.py:34-51 | a row is kept exactly when it is valid (positive prices and volume, open and close within low and high, a daily move of at most 20 %); it raises exactly when the positivity test does |
| CleanNormalize.CleanedFailsIff | indian_market/scripts/data_processing/clean_normalize_data.py:34-53 | cleaning raises exactly when some row's checks raise |
| CleanNormalize.CleanedKeepsValid | indian_market/scripts/data_processing/clean_normalize_data.py:34-53 | a successful cleaning keeps only valid rows, and every valid row as often as the input has it |
| CleanNormalize.CleanedIsValidRows | indian_market/scripts/data_processing/clean_normalize_data.py:29-56 | when no row raises, cleaning keeps exactly the valid rows, in order |
| CleanNormalize.CleanedPrefix | indian_market/scripts/data_processing/clean_normalize_data.py:34-53 | rows are appended in input order: cleaning a prefix gives a prefix of the result |
| CleanNormalize.CleanErrorStays | indian_market/scripts/data_processing/clean_normalize_data.py:34-53 | an error part-way is the result of the whole cleaning |
| CleanNormalize.CleanData | indian_market/scripts/data_processing/clean_normalize_data.py:29-56 | the loop computes exactly the cleaned rows or the first error |
| CleanNormalize.Column | indian_market/scripts/data_processing/clean_normalize_data.py:68 | one value per row, in row order |
| CleanNormalize.ScaleBounds | indian_market/scripts/data_processing/clean_normalize_data.py:78-83 | a value between its feature's bounds scales into [0, 1] |
| CleanNormalize.NormalizedFacts | indian_market/scripts/data_processing/clean_normalize_data.py:58-86 | empty data is returned as is with no parameters; otherwise a missing feature column raises, and only then; each row keeps its symbol, date and columns; every feature is scaled into [0, 1] and is 0.0 for a constant feature; other columns are unchanged |
| CleanNormalize.ParamsStep | indian_market/scripts/data_processing/clean_normalize_data.py:67-71 | recording one more feature stores its column's minimum and maximum |
| CleanNormalize.FeatureBounds | indian_market/scripts/data_processing/clean_normalize_data.py:67-71 | the first loop records the bounds of every feature |
| CleanNormalize.NormalizeData | indian_market/scripts/data_processing/clean_normalize_data.py:58-86 | the loops compute exactly the normalised rows and parameters |
| CleanNormalize.Closes | indian_market/scripts/data_processing/clean_normalize_data.py:102-106 | the closes of a run of rows, in order |
| CleanNormalize.SmaBetween | indian_market/scripts/data_processing/clean_normalize_data.py:101-107 | a moving average lies between the least and the greatest close it averages |
| CleanNormalize.IndicateKeepsClose | indian_market/scripts/data_processing/clean_normalize_data.py:97-151 | a row's close is left as it was |
| CleanNormalize.IndicateSmaFacts | indian_market/scripts/data_processing/clean_normalize_data.py:100-107 | from row 19 on a row gets SMA_20 and from row 49 on SMA_50, the mean of its last 20 or 50 closes |
| CleanNormalize.IndicateRsiFacts | indian_market/scripts/data_processing/clean_normalize_data.py:109-129 | from row 14 on a row gets the RSI of its last 15 closes |
| CleanNormalize.IndicateMacdFacts | indian_market/scripts/data_processing/clean_normalize_data.py:130-151 | from row 26 on a row gets its MACD: the 12-close minus the 26-close exponential average |
| CleanNormalize.IndicateKeepsOthers | indian_market/scripts/data_processing/clean_normalize_data.py:97-151 | a row keeps its symbol, its date and every column other than the four indicators; rows before 14 are untouched |
| CleanNormalize.SortKeepsClose | indian_market/scripts/data_processing/clean_normalize_data.py:94 | sorting keeps the rows, so every row still has a close |
| CleanNormalize.IndicateSameCloses | indian_market/scripts/data_processing/clean_normalize_data.py:97-151 | the averages of a row depend only on that row and the closes up to it, so updating rows in place does not change later averages |
| CleanNormalize.IndicateStep | indian_market/scripts/data_processing/clean_normalize_data.py:97-151 | updating row i of the part-way list from its own closes gives the part-way list one row further on |
| CleanNormalize.Gains | indian_market/scripts/data_processing/clean_normalize_data.py:113-117 | the gains of a window are all positive |
| CleanNormalize.Losses | indian_market/scripts/data_processing/clean_normalize_data.py:113-119 | the losses of a window are all non-negative (a flat day is a loss of 0) |
| CleanNormalize.GainsLossesCount | indian_market/scripts/data_processing/clean_normalize_data.py:113-119 | every day-on-day change of the window is counted exactly once, as a gain or as a loss |
| CleanNormalize.RsiBetween | indian_market/scripts/data_processing/clean_normalize_data.py:110-129 | the RSI always lies between 0 and 100 |
| CleanNormalize.RisingWindowNeutral | indian_market/scripts/data_processing/clean_normalize_data.py:110-129 | a window that rises every day has no losses and scores the neutral 50, not 100 |
| CleanNormalize.EmaBetween | indian_market/scripts/data_processing/clean_normalize_data.py:133-149 | an exponential average with a weight strictly between 0 and 1 stays within any bounds of its closes |
| CleanNormalize.MacdBounded | indian_market/scripts/data_processing/clean_normalize_data.py:131-151 | the MACD is at most the spread (greatest minus least) of the last 26 closes in size |
| CleanNormalize.RsiAt | indian_market/scripts/data_processing/clean_normalize_data.py:110-129 | the gain and loss collecting loop and the averaging compute the RSI of the window |
| CleanNormalize.EmaAt | indian_market/scripts/data_processing/clean_normalize_data.py:133-149 | the EMA loop starts at the first close and folds in each later one with the given weight |
| CleanNormalize.SmaColumns | indian_market/scripts/data_processing/clean_normalize_data.py:100-107 | the row gains SMA_20 and SMA_50 exactly when it is far enough into the data |
| CleanNormalize.RsiColumn | indian_market/scripts/data_processing/clean_normalize_data.py:109-129 | the row gains its RSI from row 14 on |
| CleanNormalize.MacdColumn | indian_market/scripts/data_processing/clean_normalize_data.py:130-151 | the row gains its MACD from row 26 on |
| CleanNormalize.IndicateRow | indian_market/scripts/data_processing/clean_normalize_data.py:97-151 | one pass of the indicator loop turns row `i` into its indicated form, reading only the closes of rows up to `i` |
| CleanNormalize.PartlyKeepsCloses | indian_market/scripts/data_processing/clean_normalize_data.py:97-151 | part-way through the loop every row still has its original close |
| CleanNormalize.AddTechnicalIndicators | indian_market/scripts/data_processing/clean_normalize_data.py:88-153 | fewer than 20 rows are returned untouched; otherwise the array is sorted by date in place and every row gets its moving averages, RSI and MACD |
| CleanNormalize.Windows | indian_market/scripts/data_processing/clean_normalize_data.py:173-175 | a group of n rows gives max(0, n − L + 1) windows |
| CleanNormalize.WindowsFacts | indian_market/scripts/data_processing/clean_normalize_data.py:173-175 | window i is the L rows from row i on |
| CleanNormalize.WindowsOfGroupsFacts | indian_market/scripts/data_processing/clean_normalize_data.py:172-175 | the windows of all groups are each a window of some group, as many as the groups give together |
| CleanNormalize.ByDateSlice | indian_market/scripts/data_processing/clean_normalize_data.py:169-174 | a slice of a date-sorted list is date-sorted |
| CleanNormalize.WindowOfGroup | indian_market/scripts/data_processing/clean_normalize_data.py:169-175 | a window of a group is date-sorted and holds the group's symbol |
| CleanNormalize.SequencesFacts | indian_market/scripts/data_processing/clean_normalize_data.py:155-177 | for a positive length, max(0, n − L + 1) windows per symbol, each of L consecutive date-sorted rows of one symbol |
| CleanNormalize.WindowsOf | indian_market/scripts/data_processing/clean_normalize_data.py:173-175 | the inner loop builds exactly the windows of one group |
| CleanNormalize.WindowsOfGroupsStep | indian_market/scripts/data_processing/clean_normalize_data.py:172-175 | the windows of the remaining groups are the next group's windows followed by the rest |
| CleanNormalize.CreateSequences | indian_market/scripts/data_processing/clean_normalize_data.py:155-177 | the loops build exactly the sequences of the data |
| ExoStackLauncher.ParseLineMeaning | start_exostack.py:49-52 | a blank line or one starting with '#' is skipped, and only those; any other line without '=' is malformed (the two-name unpacking raises); otherwise the stripped line is key, '=', value with no '=' in the key |
| ExoStackLauncher.Outcomes | start_exostack.py:49-52 | each line of the file is read on its own, in order |
| ExoStackLauncher.AbortStays | start_exostack.py:49-58 | once a line aborts the read, the whole read aborts |
| ExoStackLauncher.MalformedLineGivesDefaults | start_exostack.py:49-72 | one line without '=' anywhere in the file discards every entry read so far and yields the seven defaults |
| ExoStackLauncher.EntriesLookup | start_exostack.py:44-52 | without malformed lines, a key is set exactly when some line defines it, to the value on the last such line |
| ExoStackLauncher.WellFormedFileLookup | start_exostack.py:42-60 | the same for a whole existing file |
| ExoStackLauncher.ExoStackManager.constructor | start_exostack.py:29-36 | an empty or missing path falls back to ".env.exostack", and the configuration is loaded from it |
| ExoStackLauncher.ExoStackManager.LoadConfig | start_exostack.py:42-60 | a missing file gives the seven defaults; an existing one its entries, or the defaults when a line is malformed |
| ExoStackLauncher.ExoStackManager.ReadEntries | start_exostack.py:49-52 | the loop fills the dictionary line by line and stops at the first malformed line |
| Common.LexLessIrreflexive | indian_market/scripts/data_processing/tokenize_data.py:203 | Python's string order, which the date sort uses, never puts a string before itself |
| Common.LexLessTransitive | indian_market/scripts/data_processing/tokenize_data.py:203 | the string order is transitive |
| Common.LexLessTotal | indian_market/scripts/data_processing/tokenize_data.py:203 | any two different strings are ordered one way or the other |
| Common.ShowInt | indian_market/scripts/data_processing/tokenize_data.py:340-341 | `str(i)` is a nonempty word with no comma and no whitespace |
| Common.ParseShowInt | indian_market/scripts/training/fine_tune_model.py:395 | `int(str(i)) == i` (also line 399, tokenize_data.py lines 340-341) |
| Common.Trunc | indian_market/scripts/data_processing/tokenize_data.py:104 | `int(x)` truncates toward zero (also fine_tune_model.py line 419) |
| Common.SliceFrom | indian_market/scripts/training/fine_tune_model.py:421 | `s[start:]` is a suffix, with a negative start counted from the end and both ends clamped |
| Common.SliceTo | indian_market/scripts/training/fine_tune_model.py:420 | `s[:stop]` is a prefix, with a negative stop counted from the end and both ends clamped (also tokenize_data.py line 175) |
| Common.Words | indian_market/scripts/training/fine_tune_model.py:395 | `s.split()` gives nonempty words without whitespace |
| Common.WordsOfJoin | indian_market/scripts/data_processing/tokenize_data.py:254 | splitting a space-join of such words gives the words back (also line 340, fine_tune_model.py line 395) |
| Common.Strip | indian_market/scripts/training/fine_tune_model.py:383 | `s.strip()` is the part of s between its leading and trailing whitespace and has none at either end (also start_exostack.py lines 50-51) |
| Common.StripNewline | indian_market/scripts/training/fine_tune_model.py:374-383 | stripping a written line drops its newline |

## Left out

General:
- Network transport: every HTTP call (agent pings, handoff requests, inference relay) is an oracle parameter such as `reachable`, `establish`, `execute` or `reported`, because the model cannot see the remote side.
- asyncio tasks, background loops, sleeps and locks: each loop iteration is modelled as one step, and a lock is a set of held keys. Interleavings of concurrent coroutines are not modelled.
- The Redis client and its key expiry: Redis is a `Keyspace` value whose node hashes carry an expiry time checked against `now`. Connection checks (`ping` in the registry constructor) are not modelled.
- JSON serialisation: values are stored as structured records. Only the serialisation failures that matter (a model object passed to `json.dumps`) are modelled.
- Iteration order of Python sets and Redis sets: the order is a parameter that enumerates the set once.
- Object aliasing: tasks, nodes, sessions and shards are values. An update through one reference is therefore not visible through another.
- Floating point: numbers are exact `real`s. Python's `round`, `exp`, `log` and `sqrt` are not modelled. Where the source divides by zero, the model returns the error the source raises.
- Logging and printing.
- Clocks, `uuid` and random values are parameters.

Hub:
- exostack-integration/hub/routers/status.py imports a `Registry` class that the registry module does not define, so the module cannot be imported. Only its two pure helpers are modelled. The endpoints are left out: health_check, system_status, node_health, get_metrics and get_alerts.
- GpuScheduling.GpuScheduler.GetQueueStatus: the running details are a set, because the insertion order of `running_tasks` is not modelled. Times are integers rather than ISO strings.
- TaskEndpoints.CreatePersistentTask: corrected form, which reads the active node list from a parameter and identifies a node by `id` rather than `agent_id` (base.py defines no `agent_id`). As written every call fails; see Findings.
- Unloadable modules: gpu_scheduler.py (line 10) and task_distributor.py (line 9) import `Registry` from the registry module, which defines only the class `RedisRegistry` (registry.py line 12) and its instance `registry` (line 374). Both imports fail, so neither module loads. Nor do routers/tasks.py, which imports gpu_scheduler at line 19, and hub/main.py, which imports the routers and gpu_scheduler at lines 7-9. The hub application therefore cannot start. The model treats each module as if it had loaded.
- exostack-integration/hub/routers/tasks.py:
  - stream_inference is an HTTP relay, so it is left out.
  - get_persistent_task, list_persistent_tasks and get_persistent_task_stats are database listings, left out. get_queue_status delegates to the modelled `get_queue_status` of the GPU scheduler.
  - The status and listing endpoints delegate to registry reads that are modelled.
  - create_batch_tasks repeats task creation, which always raises as written; it is left out.
- exostack-integration/hub/routers/nodes.py: get_nodes_status delegates to the modelled `get_all_nodes`.
- scheduler.py: the start/stop loop, get_task_status, get_system_stats and get_all_tasks (delegations) are left out. The simulated dispatch outcome is a parameter.
- gpu_scheduler.py and model_aware_scheduler.py:
  - Both schedulers, and create_persistent at tasks.py line 177, call `get_active_nodes()` on the registry. RedisRegistry has no such method, so each call would raise AttributeError. The active node list is a parameter instead.
  - start/stop and the scheduling loop are left out.
  - get_scheduling_stats is a report, left out.
- model_aware_scheduler.py:
  - It reads `node.agent_id`, a field the node model lacks; the model identifies nodes by `id`.
  - `shared.config.model_registry` is missing from the repository, so the model catalogue is the `catalog` parameter.
  - The performance-history database query is not modelled.
- node_discovery.py: the discovery loop, the ping retries and the connection probing are oracles. The ERROR status set when discovery itself raises is not modelled.
- p2p_handoff.py: start/stop and the HTTP bodies are left out. A successful session stays IN_PROGRESS, because the source never completes it; the model keeps that behaviour.
- p2p_handoff_manager.py: start/stop is left out, and the task's input data is not modelled.
- HandoffManaging.SortedHead: the merge steps of Python's sort are not modelled. Its outcome is taken as TypeError exactly when two keys cannot be compared, and otherwise as the first of the maximal keys. Any stable comparison sort gives that outcome, because it has compared every two neighbours of its output.
- distributed_executor.py:
  - execute_distributed, the shard scheduling in `_execute_shard`, `_monitor_shard_execution` and `_update_execution_metrics` are left out (orchestration driven by a clock and the scheduler).
  - The module imports a `Registry` and a `get_available_nodes` that do not exist, so the nodes are a parameter.
  - distribute_model's in-place mutation of the shard objects is modelled only for the plan's own recorded shard list.
- task_distributor.py: the executor run and the metrics recording are parameters.

Shared services:
- services.py:
  - get_tasks_by_status and get_tasks_by_node are listing queries, left out.
  - MetricsService is left out; it only inserts and lists rows.
  - Sessions, commits and rollbacks are not modelled.
- Common.ParseInt: accepts an optional sign and ASCII digits inside whitespace. Python's `int` also accepts underscores between digits and non-ASCII decimal digits; those are not modelled. DatabaseConnection.ParseSetting inherits this.
- connection.py: engine and session creation, create_tables, health_check, the row counts of get_stats, cleanup_old_records and init_database are left out (database I/O).
- metrics_collector.py:
  - get_historical_metrics is a listing, left out.
  - The singleton `__new__` is not modelled.
  - Metric keys named `timestamp` or `node_id`, which override the entry's own fields, are not modelled.
- alert_manager.py:
  - load_config and save_config (file I/O) are left out.
  - start/stop and the monitoring loop are left out.
  - SMTP, webhook and Slack delivery are an outbox of sent notifications.
  - get_active_alerts is a listing, left out.
- model_registry.py: loading from YAML/JSON and reload_registry are left out. A `compatible_with` dictionary with missing keys is not modelled.
- model_packaging.py:
  - load_registry and save_registry are left out.
  - The checksum is a parameter, as are download bodies (the `fetched` set).
  - register's mutation of the object passed in is not modelled.
  - The order of list_packages is not stated.
  - The preload order is a parameter.
- finetuning_manager.py: list_jobs is a listing, left out. Directory creation and the job file write are an `ok` flag.

Agent:
- health_monitor.py: psutil, GPUtil and nvidia-smi readings are parameters. get_detailed_health, `_get_system_info`, `_get_resource_usage` and the collection thread are left out.
- model_manager.py:
  - get_loaded_models is a listing, left out.
  - get_recommended_model delegates to the registry, left out.
  - Loading through transformers is an outcome parameter.
  - Memory readings are parameters.

Market pipeline:
- tokenize_data.py: save and load of the tokenizer JSON, load_processed_data (CSV reading and float conversion) and main are left out.
- Tokenizing.EncodeDatasetOf: requires a sequence length of at least 1. With 0, the first label of each symbol would read `rows[-1]`, the symbol's last row, through Python's negative indexing; that case is not modelled. The script itself passes 30.
- predict.py:
  - load_model_and_tokenizer is not modelled: the model is a function parameter, and the tokenizer data and loaded flag are constructor arguments.
  - The metadata of a prediction (input length, model information, timestamp) is dropped.
  - load_test_data's CSV reading and float conversion are left out, as are a missing Symbol column, save_predictions, save_signals and main.
- evaluate_model.py: load_model, evaluate_model (the combination of the three modelled metrics plus a timestamp), print_evaluation_results, load_test_data_with_labels, save_evaluation_results and main are left out.
- fine_tune_model.py:
  - compute_loss, train_step, evaluate, save_checkpoint and fine_tune are left out (tensor training).
  - The method load_tokenized_data (a csv.DictReader variant) and main are left out.
  - The configuration is a map to integers; non-integer settings are not modelled.
  - `random.shuffle` is the `shuffled` parameter, a permutation of the indices.
- clean_normalize_data.py: load_csv_data, save_processed_data, save_sequences and main are left out. The count of removed rows is only printed, so it is not modelled.
- CleanNormalize.AddTechnicalIndicators: requires a Close value in every row, whereas the source raises KeyError part-way through, after sorting in place.
- start_exostack.py: signal handlers, starting and stopping processes, polling the hub, status and main are left out. Only the configuration loading is modelled.

## Findings

| source | as written | input that shows it | evidently intended | confidence | as-written member | corrected member |
|---|---|---|---|---|---|---|
| exostack-integration/hub/services/registry.py:141-172 | `create_task` passes the task's `TaskInput` model (and a `None` node id) to `json.dumps`/Redis. That raises, so it returns False and stores nothing. `TaskScheduler.create_task` then always raises, and the task endpoint always answers 500. | any task, e.g. model "llama", prompt "hi" | the task is stored as pending and queued, and its id returned | not executed | Registry.CreateTaskAsWritten, TaskScheduling.TaskScheduler.CreateTaskAsWritten, TaskEndpoints.CreateEndpointAsWritten | Registry.RedisRegistry.CreateTask, TaskScheduling.TaskScheduler.CreateTask, TaskEndpoints.CreateEndpoint |
| exostack-integration/hub/services/registry.py:27-55 | `register_node` serialises `capabilities` with `json.dumps`. The node endpoint always sets a capabilities model, so the call raises and registration fails. | a registration request from any agent | the node is stored as online with its capabilities | not executed | Registry.RedisRegistry.RegisterNodeAsWritten, NodeEndpoints.RegisterEndpointAsWritten | Registry.RedisRegistry.RegisterNode, NodeEndpoints.RegisterEndpoint |
| exostack-integration/hub/services/scheduler.py:245-263 | `cancel_task` marks a pending task failed but leaves it in the pending queue. The next scheduling pass dispatches it. | create task T, cancel T, run one scheduling pass with a free node | a cancelled task leaves the queue and is never dispatched | not executed | TaskScheduling.CancelledTaskIsStillDispatched, TaskScheduling.TaskScheduler.CancelTaskAsWritten | TaskScheduling.CancelledTaskIsNeverDispatched, TaskScheduling.TaskScheduler.CancelTask |
| exostack-integration/hub/services/metrics_collector.py:41-62 | `record_metrics` uses `timedelta`, which the module never imports. It appends the entry and then raises NameError, so old entries are never pruned and no alert is raised. | any metrics recording, e.g. a `cpu_usage` of 10 | entries older than 24 hours are dropped and threshold alerts are raised | not executed | MetricsCollecting.MetricsCollector.RecordMetricsAsWritten, MetricsCollecting.AsWrittenKeepsStaleEntries | MetricsCollecting.MetricsCollector.RecordMetrics |
| exostack-integration/hub/services/metrics_collector.py:43-62 | Even with `timedelta` imported, `record_metrics` holds the non-reentrant `threading.Lock` while calling `_add_alert`, which acquires it again at line 188. The collector blocks. | a `cpu_usage` of 95 (above its threshold of 80) | the alert is added and the call returns | not executed | MetricsCollecting.ImportFixedCollectorBlocks | MetricsCollecting.MetricsCollector.RecordMetrics |
| exostack-integration/hub/routers/tasks.py:164-194 | `create_persistent` stores the new task and then calls `registry.get_active_nodes()`, which RedisRegistry does not define. The AttributeError is answered 500, and the stored row stays pending, never assigned. Had a node been found, `selected_node.agent_id` (lines 184 and 194) would fail the same way, because the node model has `id`. | a request with priority "normal" and an unused id | the task is stored and queued on the first suitable active node, or stays pending when none passes | not executed | TaskEndpoints.CreatePersistentTaskAsWritten | TaskEndpoints.CreatePersistentTask |
