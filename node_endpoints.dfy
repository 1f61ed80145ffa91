/** The node endpoints of the hub (hub/routers/nodes.py): registration, heartbeat,
    lookup, removal and the per-node health report, over the registry keyspace.

    Registration and heartbeat wrap their bodies in `try ... except Exception`,
    which also catches the `HTTPException`s raised inside them, so their failures
    leave as status 500. Lookup, removal and the health report re-raise an
    `HTTPException` first, so their "not found" leaves as 404. */
module NodeEndpoints {
  import opened Common
  import HubModels
  import opened Registry

  // ---------------------------------------------------------------------------
  // The health score.

  /** `_calculate_health_score`: 100, less the heartbeat, load and failure-rate
      penalties, clamped to [0, 100]. `age` is the seconds since the last heartbeat. */
  function HealthScore(age: real, load: real, completed: int, failed: int): (r: real)
    ensures 0.0 <= r <= 100.0
  {
    var afterHeartbeat := if age > 30.0 then 100.0 - MinReal(50.0, age - 30.0) else 100.0;
    var afterLoad := if load > 0.8 then afterHeartbeat - (load - 0.8) * 100.0 else afterHeartbeat;
    var total := completed + failed;
    var raw := if total > 0 then afterLoad - (failed as real / total as real) * 30.0 else afterLoad;
    MaxReal(0.0, MinReal(100.0, raw))
  }

  /** A fresh heartbeat, a load of at most 0.8 and no failures score exactly 100. */
  lemma HealthyNodeScoresFull(age: real, load: real, completed: int)
    requires age <= 30.0 && load <= 0.8
    ensures HealthScore(age, load, completed, 0) == 100.0
  {
  }

  /** Each penalty on its own: a late heartbeat costs at most 50, a failure history
      (with counts that are not negative) at most 30, and a load above 0.8 exactly
      (load - 0.8) * 100 while that keeps the score positive. */
  lemma HealthPenaltiesBounded(age: real, load: real, completed: nat, failed: nat)
    ensures load <= 0.8 && failed == 0 ==> HealthScore(age, load, completed, failed) >= 50.0
    ensures 30.0 < age <= 80.0 && load <= 0.8 && failed == 0 ==>
              HealthScore(age, load, completed, failed) == 130.0 - age
    ensures age <= 30.0 && load <= 0.8 ==> HealthScore(age, load, completed, failed) >= 70.0
    ensures age <= 30.0 && 0.8 < load < 1.8 && failed == 0 ==>
              HealthScore(age, load, completed, failed) == 100.0 - (load - 0.8) * 100.0
  {
    if age <= 30.0 && load <= 0.8 && completed + failed > 0 {
      QuotientBetween(failed as real, (completed + failed) as real, 0.0, 1.0);
    }
  }

  /** An older heartbeat or a higher load never raises the score. */
  lemma HealthScoreMonotone(age: real, age': real, load: real, load': real, completed: int, failed: int)
    requires age <= age' && load <= load'
    ensures HealthScore(age', load', completed, failed) <= HealthScore(age, load, completed, failed)
  {
  }

  // ---------------------------------------------------------------------------
  // Registration.

  datatype RegistrationRequest = RegistrationRequest(
    id: string,
    capabilities: Option<HubModels.NodeCapabilities>,
    host: Option<string>,
    port: Option<int>,
    version: Option<string>)

  /** The `Node` the endpoint builds: "online", the request's capabilities or the
      default ones, and registered now. */
  function RegistrationNode(req: RegistrationRequest, now: int): (n: HubModels.Node)
    ensures n.id == req.id && n.status == HubModels.Online
    ensures n.capabilities.Some?
    ensures req.capabilities.Some? ==> n.capabilities == req.capabilities
    ensures req.capabilities.None? ==> n.capabilities == Some(HubModels.DefaultNodeCapabilities())
  {
    var caps := if req.capabilities.Some? then req.capabilities.value
                else HubModels.DefaultNodeCapabilities();
    HubModels.Node(req.id, HubModels.Online, Some(caps), None, Some(now),
                   req.host, req.port, req.version, 0, 0, 0.0)
  }

  /** `register_node` as written: the node always carries capabilities, the registry
      cannot serialise them and answers false, and the endpoint answers 500. */
  method RegisterEndpointAsWritten(reg: RedisRegistry, req: RegistrationRequest, now: int)
    returns (code: int)
    modifies reg
    ensures code == 500 && reg.db == old(reg.db)
  {
    var ok := reg.RegisterNodeAsWritten(RegistrationNode(req, now), now);
    if ok {
      code := 200;
    } else {
      code := 500;
    }
  }

  /** `register_node` once the registry stores the capabilities: 200, and the node is
      registered online with the request's capabilities or the defaults. */
  method RegisterEndpoint(reg: RedisRegistry, req: RegistrationRequest, now: int)
    returns (code: int)
    modifies reg
    ensures code == 200
    ensures reg.db == RegisterNodeSpec(old(reg.db), RegistrationNode(req, now), now)
  {
    var ok := reg.RegisterNode(RegistrationNode(req, now), now);
    if ok {
      code := 200;
    } else {
      code := 500;
    }
  }

  /** Registering through the endpoint makes the node read back online, with the
      capabilities it asked for (or the defaults), for the next 30 seconds. */
  lemma RegisteredNodeReadsBack(ks: Keyspace, req: RegistrationRequest, now: int, later: int)
    requires now <= later <= now + HeartbeatTimeout
    ensures var ks' := RegisterNodeSpec(ks, RegistrationNode(req, now), now);
            && GetNodeSpec(ks', req.id, later).1.Some?
            && GetNodeSpec(ks', req.id, later).1.value.status == Some("online")
            && GetNodeSpec(ks', req.id, later).1.value.capabilities
               == Some(if req.capabilities.Some? then req.capabilities.value
                       else HubModels.DefaultNodeCapabilities())
  {
    RegisterThenGet(ks, RegistrationNode(req, now), now, later);
  }

  // ---------------------------------------------------------------------------
  // Heartbeat.

  /** The endpoint's reply and the keyspace after it: the registry heartbeat, then
      HSET of whichever of `current_load` and `active_tasks` the request carries. A
      missing node raises 404 inside the `try`, which turns it into 500. */
  function HeartbeatEndpointSpec(ks: Keyspace, id: string, load: Option<real>,
                                 active: Option<int>, now: int): (r: (Keyspace, int))
  {
    var (ks1, ok) := HeartbeatSpec(ks, id, now);
    if !ok then (ks1, 500)
    else if load.None? && active.None? then (ks1, 200)
    else
      var rec := ks1.nodes[id];
      var rec1 := if load.Some? then rec.(currentLoad := load) else rec;
      var rec2 := if active.Some? then rec1.(activeTasks := active) else rec1;
      (ks1.(nodes := ks1.nodes[id := rec2]), 200)
  }

  /** A heartbeat answers 200 exactly for a live node, and 500 (never 404) otherwise,
      leaving the keyspace as it was; on success the node is online with the new
      heartbeat, and the metrics sent are stored while those not sent are kept. */
  lemma HeartbeatEndpointCodes(ks: Keyspace, id: string, load: Option<real>,
                               active: Option<int>, now: int)
    ensures var (ks', code) := HeartbeatEndpointSpec(ks, id, load, active, now);
            && (code == 200 <==> Live(ks, id, now))
            && (code != 200 ==> code == 500 && ks' == ks)
            && (code == 200 ==>
                  && id in ks'.nodes
                  && ks'.nodes[id].status == Some("online")
                  && ks'.nodes[id].lastHeartbeat == Some(now)
                  && ks'.nodes[id].currentLoad
                     == (if load.Some? then load else ks.nodes[id].currentLoad)
                  && ks'.nodes[id].activeTasks
                     == (if active.Some? then active else ks.nodes[id].activeTasks)
                  && ks'.nodes[id].tasksCompleted == ks.nodes[id].tasksCompleted
                  && (forall other :: other != id && other in ks.nodes ==>
                        other in ks'.nodes && ks'.nodes[other] == ks.nodes[other]))
  {
  }

  method HeartbeatEndpoint(reg: RedisRegistry, id: string, load: Option<real>,
                           active: Option<int>, now: int) returns (code: int)
    modifies reg
    ensures (reg.db, code) == HeartbeatEndpointSpec(old(reg.db), id, load, active, now)
  {
    var ok := reg.UpdateNodeHeartbeat(id, now);
    if !ok {
      return 500;
    }
    if load.Some? || active.Some? {
      var rec := reg.db.nodes[id];
      if load.Some? {
        rec := rec.(currentLoad := load);
      }
      if active.Some? {
        rec := rec.(activeTasks := active);
      }
      reg.db := reg.db.(nodes := reg.db.nodes[id := rec]);
    }
    return 200;
  }

  // ---------------------------------------------------------------------------
  // Lookup, removal and the health report.

  datatype NodeReply = Found(record: NodeRecord) | NodeError(code: int)

  /** `get_node_info`: the node as `get_node` reports it, or 404. */
  method NodeInfo(reg: RedisRegistry, id: string, now: int) returns (r: NodeReply)
    modifies reg
    ensures r.Found? <==> HasData(old(reg.db), id, now)
    ensures r.Found? ==> r.record == Reported(old(reg.db).nodes[id], now)
    ensures r.NodeError? ==> r.code == 404
    ensures reg.db == GetNodeSpec(old(reg.db), id, now).0
  {
    GetNodeCharacterized(reg.db, id, now);
    var found := reg.GetNode(id, now);
    if found.None? {
      return NodeError(404);
    }
    return Found(found.value);
  }

  /** `remove_node`: the registry always reports success, so the reply is 200 even for
      an unknown node. */
  method RemoveEndpoint(reg: RedisRegistry, id: string) returns (code: int)
    modifies reg
    ensures code == 200
    ensures reg.db == RemoveNodeSpec(old(reg.db), id)
  {
    var ok := reg.RemoveNode(id);
    if ok {
      code := 200;
    } else {
      code := 404;
    }
  }

  datatype HealthReport = HealthReport(
    status: string,
    secondsSinceHeartbeat: real,
    currentLoad: real,
    activeTasks: int,
    tasksCompleted: int,
    tasksFailed: int,
    healthScore: real)

  /** The report built from a record `get_node` returned; absent fields read as
      "unknown" and 0. */
  function Report(rec: NodeRecord, now: int): (h: HealthReport)
    requires rec.lastHeartbeat.Some?
    ensures 0.0 <= h.healthScore <= 100.0
    ensures h.secondsSinceHeartbeat == (now - rec.lastHeartbeat.value) as real
  {
    var age := (now - rec.lastHeartbeat.value) as real;
    var load := if rec.currentLoad.Some? then rec.currentLoad.value else 0.0;
    HealthReport(
      if rec.status.Some? then rec.status.value else "unknown",
      age, load,
      if rec.activeTasks.Some? then rec.activeTasks.value else 0,
      rec.tasksCompleted, rec.tasksFailed,
      HealthScore(age, load, rec.tasksCompleted, rec.tasksFailed))
  }

  datatype HealthReply = Health(report: HealthReport) | HealthError(code: int)

  /** `get_node_health`: 404 for a node `get_node` does not find; otherwise the report
      for the record it returned, whose status is "offline" once the heartbeat is
      more than 30 s old. */
  method NodeHealth(reg: RedisRegistry, id: string, now: int) returns (r: HealthReply)
    modifies reg
    ensures r.HealthError? <==> !HasData(old(reg.db), id, now)
    ensures r.HealthError? ==> r.code == 404
    ensures r.Health? ==> r.report == Report(Reported(old(reg.db).nodes[id], now), now)
    ensures r.Health? && now - old(reg.db).nodes[id].lastHeartbeat.value > HeartbeatTimeout ==>
              r.report.status == "offline"
    ensures reg.db == GetNodeSpec(old(reg.db), id, now).0
  {
    GetNodeCharacterized(reg.db, id, now);
    var found := reg.GetNode(id, now);
    if found.None? {
      return HealthError(404);
    }
    return Health(Report(found.value, now));
  }
}
