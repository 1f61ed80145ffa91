/** The alert manager (shared/services/alert_manager.py): threshold rules evaluated
    against the active nodes, violations counted per rule until they raise an alert,
    and notifications rate-limited per alert type and node.

    Times are whole seconds since the epoch. Sending a notification is modelled as
    appending to an outbox; the channels' own delivery (SMTP, HTTP) is not part of
    this model. */
module AlertManaging {
  import opened Common

  const RateLimitSeconds: int := 15 * 60

  datatype ThresholdType =
    CpuUsage | MemoryUsage | GpuUsage | DiskUsage | TaskFailureRate | NodeHeartbeat | QueueLength | ResponseTime

  function ThresholdTypeValue(t: ThresholdType): string
  {
    match t
    case CpuUsage => "cpu_usage"
    case MemoryUsage => "memory_usage"
    case GpuUsage => "gpu_usage"
    case DiskUsage => "disk_usage"
    case TaskFailureRate => "task_failure_rate"
    case NodeHeartbeat => "node_heartbeat"
    case QueueLength => "queue_length"
    case ResponseTime => "response_time"
  }

  datatype Channel = Email | Webhook | Slack | Discord | Sms

  datatype AlertType = ResourceThreshold | NodeFailure | TaskFailure | ModelError | SystemError

  function AlertTypeValue(t: AlertType): string
  {
    match t
    case ResourceThreshold => "resource_threshold"
    case NodeFailure => "node_failure"
    case TaskFailure => "task_failure"
    case ModelError => "model_error"
    case SystemError => "system_error"
  }

  datatype Severity = Low | Medium | High | Critical

  datatype ThresholdRule = ThresholdRule(
    ruleId: string,
    name: string,
    thresholdType: ThresholdType,
    warning: real,
    critical: real,
    windowMinutes: int,
    consecutive: int,
    targetNodes: seq<string>,
    targetModels: seq<string>,
    channels: seq<Channel>,
    escalationDelayMinutes: int,
    enabled: bool,
    lastEvaluated: Option<int>,
    currentViolations: int)

  /** `ThresholdRule(...)`: absent target lists become empty (all nodes, all models),
      absent channels become email only, and the rule starts unevaluated with no
      violations counted. */
  function NewRule(ruleId: string, name: string, thresholdType: ThresholdType, warning: real, critical: real,
                   windowMinutes: int, consecutive: int, targetNodes: Option<seq<string>>,
                   targetModels: Option<seq<string>>, channels: Option<seq<Channel>>,
                   escalationDelayMinutes: int, enabled: bool): (r: ThresholdRule)
    ensures r.targetNodes == (if targetNodes.Some? then targetNodes.value else [])
    ensures r.targetModels == (if targetModels.Some? then targetModels.value else [])
    ensures r.channels == (if channels.Some? then channels.value else [Email])
    ensures r.currentViolations == 0 && r.lastEvaluated.None?
    ensures r.ruleId == ruleId && r.warning == warning && r.critical == critical && r.consecutive == consecutive
  {
    ThresholdRule(ruleId, name, thresholdType, warning, critical, windowMinutes, consecutive,
                  if targetNodes.Some? then targetNodes.value else [],
                  if targetModels.Some? then targetModels.value else [],
                  if channels.Some? then channels.value else [Email],
                  escalationDelayMinutes, enabled, None, 0)
  }

  /** `_create_default_config`'s rules: CPU 80/95 and memory 85/95 after two
      violations, heartbeat 5/10 minutes after one. */
  function DefaultRules(): seq<ThresholdRule>
  {
    [NewRule("cpu_usage_default", "CPU Usage Monitor", CpuUsage, 80.0, 95.0, 5, 2, None, None, None, 30, true),
     NewRule("memory_usage_default", "Memory Usage Monitor", MemoryUsage, 85.0, 95.0, 5, 2, None, None, None, 30, true),
     NewRule("node_heartbeat_default", "Node Heartbeat Monitor", NodeHeartbeat, 5.0, 10.0, 2, 1, None, None, None, 30, true)]
  }

  /** The default rules have distinct ids, watch every node, warn strictly before
      they go critical, and start enabled with nothing counted. */
  lemma DefaultRulesWellFormed()
    ensures var rs := DefaultRules();
            && |rs| == 3
            && (forall i, j :: 0 <= i < j < |rs| ==> rs[i].ruleId != rs[j].ruleId)
            && (forall r :: r in rs ==> r.warning < r.critical && r.targetNodes == [] && r.enabled
                                        && r.currentViolations == 0 && r.consecutive >= 1 && r.channels == [Email])
  {
    var rs := DefaultRules();
    assert rs[0].ruleId[0] == 'c' && rs[1].ruleId[0] == 'm' && rs[2].ruleId[0] == 'n';
  }

  /** The context a threshold alert carries. */
  datatype Context = Context(ruleId: string, thresholdType: ThresholdType, currentValue: real, threshold: real)

  datatype AlertData = AlertData(
    alertType: AlertType,
    severity: Severity,
    title: string,
    message: string,
    nodeId: Option<string>,
    taskId: Option<string>,
    context: Option<Context>)

  /** An `active_alerts` value: the alert itself under its alert id, or, under a
      rule's violation key, the id of the alert that violation raised. */
  datatype ActiveEntry = Raised(data: AlertData) | Ref(alertId: string)

  /** The rate-limit key: the alert type and the node (None when the alert has none). */
  datatype NotifyKey = NotifyKey(alertType: AlertType, nodeId: Option<string>)

  datatype State = State(
    rules: map<string, ThresholdRule>,
    channels: seq<Channel>,
    active: map<string, ActiveEntry>,
    history: map<NotifyKey, int>,
    outbox: seq<(Channel, AlertData)>)

  /** The configured channels that have a sender: email, webhook and Slack. */
  function Deliveries(channels: seq<Channel>, alert: AlertData): (r: seq<(Channel, AlertData)>)
    ensures forall d :: d in r <==> d.1 == alert && d.0 in channels && d.0 in {Email, Webhook, Slack}
  {
    if |channels| == 0 then []
    else
      var rest := Deliveries(channels[1..], alert);
      assert forall c :: c in channels <==> c == channels[0] || c in channels[1..];
      if channels[0] in {Email, Webhook, Slack} then [(channels[0], alert)] + rest else rest
  }

  predicate RateLimited(s: State, key: NotifyKey, now: int)
  {
    key in s.history && now - s.history[key] < RateLimitSeconds
  }

  /** `_send_notifications`: nothing within fifteen minutes of the last notification
      for the same key; otherwise one delivery per configured channel, and the key is
      stamped with the time. */
  function NotifySpec(s: State, alert: AlertData, now: int): State
  {
    var key := NotifyKey(alert.alertType, alert.nodeId);
    if RateLimited(s, key, now) then s
    else s.(outbox := s.outbox + Deliveries(s.channels, alert), history := s.history[key := now])
  }

  /** A rate-limited notification sends nothing and leaves the history alone; any
      other sends to every channel with a sender and stamps the key, and only that
      key. Nothing else in the state changes. */
  lemma NotifyEffects(s: State, alert: AlertData, now: int)
    ensures var key := NotifyKey(alert.alertType, alert.nodeId);
            var r := NotifySpec(s, alert, now);
            && r.rules == s.rules && r.active == s.active && r.channels == s.channels
            && (RateLimited(s, key, now) ==> r.outbox == s.outbox && r.history == s.history)
            && (!RateLimited(s, key, now) ==>
                  && |r.outbox| >= |s.outbox|
                  && r.outbox[..|s.outbox|] == s.outbox
                  && (forall d :: d in r.outbox[|s.outbox|..] <==> d.1 == alert && d.0 in s.channels && d.0 in {Email, Webhook, Slack})
                  && r.history == s.history[key := now])
  {
    var key := NotifyKey(alert.alertType, alert.nodeId);
    if !RateLimited(s, key, now) {
      var r := NotifySpec(s, alert, now);
      assert r.outbox[|s.outbox|..] == Deliveries(s.channels, alert);
    }
  }

  /** `f"{alert_type.value}_{node_id or 'system'}_{int(now)}"`. */
  function AlertId(t: AlertType, nodeId: Option<string>, now: nat): string
  {
    AlertTypeValue(t) + "_" + (if nodeId.Some? && nodeId.value != "" then nodeId.value else "system") + "_" + ShowNat(now)
  }

  /** `trigger_alert`: the alert is stored under its id, then notified. */
  function TriggerSpec(s: State, alert: AlertData, now: nat): (r: (State, string))
    ensures r.1 == AlertId(alert.alertType, alert.nodeId, now)
    ensures r.0.active == s.active[r.1 := Raised(alert)] && r.0.rules == s.rules
  {
    var id := AlertId(alert.alertType, alert.nodeId, now);
    (NotifySpec(s.(active := s.active[id := Raised(alert)]), alert, now), id)
  }

  /** `resolve_alert`: an unknown id changes nothing; an alert is notified as resolved
      (low severity, "RESOLVED: " title) and removed; a violation key, whose value
      is an id and not a dict, raises TypeError. */
  function ResolveSpec(s: State, alertId: string, now: int): (r: Result<State>)
    ensures alertId !in s.active ==> r == Ok(s)
    ensures r.Ok? ==> alertId !in r.value.active && r.value.active == s.active - {alertId}
    ensures r.Err? <==> alertId in s.active && s.active[alertId].Ref?
  {
    if alertId !in s.active then Ok(s)
    else match s.active[alertId]
      case Ref(_) => Err("TypeError")
      case Raised(data) =>
        var resolution := data.(title := "RESOLVED: " + data.title,
                                message := "Alert has been resolved: " + data.message,
                                severity := Low);
        var s1 := NotifySpec(s, resolution, now);
        Ok(s1.(active := s1.active - {alertId}))
  }

  /** Resolving within fifteen minutes of the alert's own notification sends nothing:
      the resolution shares the alert's rate-limit key. */
  lemma QuickResolutionIsSilent(s: State, alert: AlertData, now: nat, later: int)
    requires now <= later < now + RateLimitSeconds
    requires !RateLimited(s, NotifyKey(alert.alertType, alert.nodeId), now)
    ensures var (s1, id) := TriggerSpec(s, alert, now);
            ResolveSpec(s1, id, later).Ok?
            && ResolveSpec(s1, id, later).value.outbox == s1.outbox
  {
  }

  /** One violation found by an evaluation. */
  datatype Violation = Violation(target: string, value: real, severity: Severity, message: string)

  function ViolationKey(ruleId: string, target: string): string
  {
    ruleId + "_" + target
  }

  /** The alert a violation raises. */
  function ViolationAlert(rule: ThresholdRule, v: Violation): AlertData
  {
    AlertData(ResourceThreshold, v.severity, "Threshold Violation: " + rule.name, v.message,
              if Contains(v.target, "node") then Some(v.target) else None, None,
              Some(Context(rule.ruleId, rule.thresholdType, v.value,
                           if v.severity == Critical then rule.critical else rule.warning)))
  }

  /** The rule's violation counter one higher. */
  function Counted(s: State, ruleId: string): State
    requires ruleId in s.rules
  {
    s.(rules := s.rules[ruleId := s.rules[ruleId].(currentViolations := s.rules[ruleId].currentViolations + 1)])
  }

  /** The alert raised: triggered, its id remembered under the violation key, and the
      rule's counter back to zero. */
  function Raise(s: State, ruleId: string, key: string, alert: AlertData, now: nat): (r: State)
    requires ruleId in s.rules
    ensures r.rules == s.rules[ruleId := s.rules[ruleId].(currentViolations := 0)] && r.channels == s.channels
    ensures var alertId := AlertId(alert.alertType, alert.nodeId, now);
            r.active == s.active[alertId := Raised(alert)][key := Ref(alertId)]
  {
    var t := TriggerSpec(s, alert, now);
    t.0.(active := t.0.active[key := Ref(t.1)], rules := t.0.rules[ruleId := t.0.rules[ruleId].(currentViolations := 0)])
  }

  /** `_handle_threshold_violation`: an active violation key changes nothing;
      otherwise the rule's counter goes up, and on reaching the rule's
      `consecutive_violations` an alert is raised, the key remembers its id and the
      counter goes back to zero. */
  function HandleSpec(s: State, ruleId: string, v: Violation, now: nat): (r: State)
    requires ruleId in s.rules
    ensures r.rules.Keys == s.rules.Keys && r.channels == s.channels
    ensures forall id :: id in s.rules && id != ruleId ==> r.rules[id] == s.rules[id]
    ensures forall id :: id in s.rules ==> r.rules[id].(currentViolations := 0) == s.rules[id].(currentViolations := 0)
  {
    var key := ViolationKey(ruleId, v.target);
    var rule := s.rules[ruleId];
    if key in s.active then s
    else if rule.currentViolations + 1 >= rule.consecutive then
      Raise(Counted(s, ruleId), ruleId, key, ViolationAlert(rule, v), now)
    else Counted(s, ruleId)
  }

  /** An active violation key leaves everything as it was; otherwise, below the
      rule's `consecutive_violations`, only the counter goes up by one. */
  lemma HandleCounts(s: State, ruleId: string, v: Violation, now: nat)
    requires ruleId in s.rules
    ensures ViolationKey(ruleId, v.target) in s.active ==> HandleSpec(s, ruleId, v, now) == s
    ensures var rule := s.rules[ruleId];
            ViolationKey(ruleId, v.target) !in s.active && rule.currentViolations + 1 < rule.consecutive ==>
              HandleSpec(s, ruleId, v, now) == s.(rules := s.rules[ruleId := rule.(currentViolations := rule.currentViolations + 1)])
  {
  }

  /** On reaching the rule's `consecutive_violations` the alert is stored under its
      id, the key remembers that id, and the counter is zero again. */
  lemma HandleRaises(s: State, ruleId: string, v: Violation, now: nat)
    requires ruleId in s.rules && ViolationKey(ruleId, v.target) !in s.active
    requires s.rules[ruleId].currentViolations + 1 >= s.rules[ruleId].consecutive
    ensures HandleSpec(s, ruleId, v, now).rules == s.rules[ruleId := s.rules[ruleId].(currentViolations := 0)]
    ensures var alert := ViolationAlert(s.rules[ruleId], v);
            var alertId := AlertId(ResourceThreshold, alert.nodeId, now);
            HandleSpec(s, ruleId, v, now).active == s.active[alertId := Raised(alert)][ViolationKey(ruleId, v.target) := Ref(alertId)]
  {
    var rule := s.rules[ruleId];
    assert rule.(currentViolations := rule.currentViolations + 1).(currentViolations := 0) == rule.(currentViolations := 0);
  }

  /** Once a violation key holds an alert id it stays: handling more violations
      keeps it, and resolving it by name raises instead of removing it. Resolving the
      alert by its own id does not clear the key either, so that rule never alerts
      for that target again. */
  lemma ViolationKeyPersists(s: State, key: string, ruleId: string, v: Violation, now: nat, alertId: string)
    requires key in s.active && s.active[key].Ref? && ruleId in s.rules
    ensures key in HandleSpec(s, ruleId, v, now).active
    ensures ResolveSpec(s, key, now).Err?
    ensures ResolveSpec(s, alertId, now).Ok? ==> key in ResolveSpec(s, alertId, now).value.active
  {
    HandleCounts(s, ruleId, v, now);
  }

  /** A node as `get_active_nodes` returns it: the readings the rules look at. */
  datatype NodeSample = NodeSample(nodeId: string, cpu: real, memory: real, lastHeartbeat: int)

  /** An empty target list means every node. */
  predicate Targeted(rule: ThresholdRule, nodeId: string)
  {
    |rule.targetNodes| == 0 || nodeId in rule.targetNodes
  }

  /** Whether a node's reading has reached `limit` for the rule's kind: CPU and memory
      percentages at or above it, a heartbeat older than `limit` minutes. */
  predicate Breach(rule: ThresholdRule, n: NodeSample, now: int, limit: real)
  {
    match rule.thresholdType
    case CpuUsage => n.cpu >= limit
    case MemoryUsage => n.memory >= limit
    case NodeHeartbeat => (n.lastHeartbeat as real) < (now as real) - limit * 60.0
    case _ => false
  }

  /** The value reported: the percentage, or the minutes since the last heartbeat. */
  function Reading(rule: ThresholdRule, n: NodeSample, now: int): real
  {
    match rule.thresholdType
    case CpuUsage => n.cpu
    case MemoryUsage => n.memory
    case _ => ((now - n.lastHeartbeat) as real) / 60.0
  }

  function NodeMessage(rule: ThresholdRule, n: NodeSample, critical: bool): string
  {
    match rule.thresholdType
    case CpuUsage => (if critical then "Critical CPU usage on " else "High CPU usage on ") + n.nodeId
    case MemoryUsage => (if critical then "Critical memory usage on " else "High memory usage on ") + n.nodeId
    case _ => "Node " + n.nodeId + (if critical then " heartbeat failure" else " heartbeat delayed")
  }

  /** The body of `_evaluate_cpu_usage`, `_evaluate_memory_usage` and
      `_evaluate_node_heartbeat` for one node. */
  function NodeViolation(rule: ThresholdRule, n: NodeSample, now: int): seq<Violation>
  {
    if !Targeted(rule, n.nodeId) then []
    else if Breach(rule, n, now, rule.critical) then
      [Violation(n.nodeId, Reading(rule, n, now), Critical, NodeMessage(rule, n, true))]
    else if Breach(rule, n, now, rule.warning) then
      [Violation(n.nodeId, Reading(rule, n, now), Medium, NodeMessage(rule, n, false))]
    else []
  }

  /** A targeted node violates exactly when its reading reaches either threshold; the
      violation is critical exactly when it reaches the critical one and medium
      otherwise. A heartbeat is late by more than `limit` minutes exactly when its
      reading exceeds `limit`. */
  lemma NodeViolationCharacterized(rule: ThresholdRule, n: NodeSample, now: int)
    ensures |NodeViolation(rule, n, now)| <= 1
    ensures |NodeViolation(rule, n, now)| == 1 <==>
              Targeted(rule, n.nodeId) && (Breach(rule, n, now, rule.critical) || Breach(rule, n, now, rule.warning))
    ensures |NodeViolation(rule, n, now)| == 1 ==>
              var v := NodeViolation(rule, n, now)[0];
              && v.target == n.nodeId && v.value == Reading(rule, n, now)
              && (v.severity == Critical <==> Breach(rule, n, now, rule.critical))
              && (v.severity == Critical || v.severity == Medium)
    ensures rule.thresholdType == NodeHeartbeat ==>
              forall limit: real :: Breach(rule, n, now, limit) <==> Reading(rule, n, now) > limit
    ensures rule.thresholdType !in {CpuUsage, MemoryUsage, NodeHeartbeat} ==> NodeViolation(rule, n, now) == []
  {
    if rule.thresholdType == NodeHeartbeat {
      forall limit: real
        ensures Breach(rule, n, now, limit) <==> Reading(rule, n, now) > limit
      {
        var gap := (now - n.lastHeartbeat) as real;
        assert Reading(rule, n, now) == gap / 60.0;
        assert Breach(rule, n, now, limit) <==> gap > limit * 60.0;
        assert gap / 60.0 * 60.0 == gap;
      }
    }
  }

  /** The violations of a whole node list, in node order. */
  function NodeViolations(rule: ThresholdRule, nodes: seq<NodeSample>, now: int): (r: seq<Violation>)
    ensures |r| <= |nodes|
  {
    if |nodes| == 0 then []
    else
      NodeViolationCharacterized(rule, nodes[|nodes| - 1], now);
      NodeViolations(rule, nodes[..|nodes| - 1], now) + NodeViolation(rule, nodes[|nodes| - 1], now)
  }

  /** Every violation comes from one node, and every violating node gives one. */
  lemma {:induction false} NodeViolationsCharacterized(rule: ThresholdRule, nodes: seq<NodeSample>, now: int)
    ensures forall v :: v in NodeViolations(rule, nodes, now) ==>
              exists i :: 0 <= i < |nodes| && NodeViolation(rule, nodes[i], now) == [v]
    ensures forall i :: 0 <= i < |nodes| && |NodeViolation(rule, nodes[i], now)| == 1 ==>
              NodeViolation(rule, nodes[i], now)[0] in NodeViolations(rule, nodes, now)
  {
    if |nodes| > 0 {
      var init := nodes[..|nodes| - 1];
      var last := nodes[|nodes| - 1];
      NodeViolationsCharacterized(rule, init, now);
      NodeViolationCharacterized(rule, last, now);
      assert forall i :: 0 <= i < |init| ==> init[i] == nodes[i];
      forall v | v in NodeViolations(rule, nodes, now)
        ensures exists i :: 0 <= i < |nodes| && NodeViolation(rule, nodes[i], now) == [v]
      {
        if v in NodeViolations(rule, init, now) {
          var i :| 0 <= i < |init| && NodeViolation(rule, init[i], now) == [v];
          assert NodeViolation(rule, nodes[i], now) == [v];
        } else {
          assert v in NodeViolation(rule, last, now);
          assert NodeViolation(rule, nodes[|nodes| - 1], now) == [v];
        }
      }
    }
  }

  /** Each violation handled in turn, for one rule. */
  function ApplyAll(s: State, ruleId: string, vs: seq<Violation>, now: nat): (r: State)
    requires ruleId in s.rules
    ensures r.rules.Keys == s.rules.Keys && r.channels == s.channels
    ensures forall id :: id in s.rules && id != ruleId ==> r.rules[id] == s.rules[id]
    ensures forall id :: id in s.rules ==> r.rules[id].(currentViolations := 0) == s.rules[id].(currentViolations := 0)
  {
    if |vs| == 0 then s
    else HandleSpec(ApplyAll(s, ruleId, vs[..|vs| - 1], now), ruleId, vs[|vs| - 1], now)
  }

  /** Rule kinds `_evaluate_rule` dispatches to an evaluator the class does not define:
      the lookup raises, and the loop logs it. */
  predicate MissingEvaluator(t: ThresholdType)
  {
    t == GpuUsage || t == TaskFailureRate || t == QueueLength
  }

  /** `_evaluate_rule`: the violations of the rule's kind handled in node order; no
      evaluator (an error) for GPU, failure-rate and queue rules; nothing for disk and
      response-time rules. */
  function EvaluateRuleSpec(s: State, ruleId: string, nodes: seq<NodeSample>, now: nat): (r: (State, bool))
    requires ruleId in s.rules
    ensures r.1 <==> !MissingEvaluator(s.rules[ruleId].thresholdType)
    ensures r.0.rules.Keys == s.rules.Keys && r.0.channels == s.channels
    ensures forall id :: id in s.rules && id != ruleId ==> r.0.rules[id] == s.rules[id]
    ensures forall id :: id in s.rules ==> r.0.rules[id].(currentViolations := 0) == s.rules[id].(currentViolations := 0)
    ensures MissingEvaluator(s.rules[ruleId].thresholdType) ==> r.0 == s
  {
    var rule := s.rules[ruleId];
    if MissingEvaluator(rule.thresholdType) then (s, false)
    else (ApplyAll(s, ruleId, NodeViolations(rule, nodes, now), now), true)
  }

  /** One rule's turn in `_evaluate_thresholds`: skipped when disabled; stamped with
      the time when its evaluation went through. */
  function EvaluateTurn(s: State, id: string, nodes: seq<NodeSample>, now: nat): (r: State)
    requires id in s.rules
    ensures r.rules.Keys == s.rules.Keys && r.channels == s.channels
  {
    if !s.rules[id].enabled then s
    else
      var (s1, ok) := EvaluateRuleSpec(s, id, nodes, now);
      if ok then s1.(rules := s1.rules[id := s1.rules[id].(lastEvaluated := Some(now))]) else s1
  }

  /** `_evaluate_thresholds` over the rules in `order`. */
  function EvaluateAllSpec(s: State, order: seq<string>, nodes: seq<NodeSample>, now: nat): (r: State)
    requires forall i :: 0 <= i < |order| ==> order[i] in s.rules
    ensures r.rules.Keys == s.rules.Keys && r.channels == s.channels
  {
    if |order| == 0 then s
    else EvaluateTurn(EvaluateAllSpec(s, order[..|order| - 1], nodes, now), order[|order| - 1], nodes, now)
  }

  /** One turn leaves a skipped rule alone, whichever rule's turn it is. */
  lemma TurnSkips(s: State, turn: string, nodes: seq<NodeSample>, now: nat, id: string)
    requires turn in s.rules && id in s.rules
    requires !s.rules[id].enabled || MissingEvaluator(s.rules[id].thresholdType)
    ensures EvaluateTurn(s, turn, nodes, now).rules[id] == s.rules[id]
  {
    if s.rules[turn].enabled {
      var (s1, ok) := EvaluateRuleSpec(s, turn, nodes, now);
      assert s1.rules[id] == s.rules[id];
    }
  }

  /** One turn keeps every rule's switch and kind. */
  lemma TurnKeepsKind(s: State, turn: string, nodes: seq<NodeSample>, now: nat, id: string)
    requires turn in s.rules && id in s.rules
    ensures EvaluateTurn(s, turn, nodes, now).rules[id].enabled == s.rules[id].enabled
    ensures EvaluateTurn(s, turn, nodes, now).rules[id].thresholdType == s.rules[id].thresholdType
  {
    if s.rules[turn].enabled {
      var (s1, ok) := EvaluateRuleSpec(s, turn, nodes, now);
      assert s1.rules[id].(currentViolations := 0) == s.rules[id].(currentViolations := 0);
    }
  }

  /** A disabled rule, and a rule of a kind without an evaluator, come out of an
      evaluation round exactly as they went in. */
  lemma {:induction false} SkippedRulesUntouched(s: State, order: seq<string>, nodes: seq<NodeSample>, now: nat, id: string)
    requires forall i :: 0 <= i < |order| ==> order[i] in s.rules
    requires id in s.rules && (!s.rules[id].enabled || MissingEvaluator(s.rules[id].thresholdType))
    ensures EvaluateAllSpec(s, order, nodes, now).rules[id] == s.rules[id]
  {
    if |order| > 0 {
      var init, turn := order[..|order| - 1], order[|order| - 1];
      var before := EvaluateAllSpec(s, init, nodes, now);
      assert EvaluateAllSpec(s, order, nodes, now) == EvaluateTurn(before, turn, nodes, now);
      SkippedRulesUntouched(s, init, nodes, now, id);
      TurnSkips(before, turn, nodes, now, id);
    }
  }

  /** Every enabled rule with an evaluator in the round is stamped with its time. */
  lemma {:induction false} EvaluatedRulesStamped(s: State, order: seq<string>, nodes: seq<NodeSample>, now: nat, k: nat)
    requires forall i :: 0 <= i < |order| ==> order[i] in s.rules
    requires k < |order| && s.rules[order[k]].enabled && !MissingEvaluator(s.rules[order[k]].thresholdType)
    ensures EvaluateAllSpec(s, order, nodes, now).rules[order[k]].lastEvaluated == Some(now)
    ensures EvaluateAllSpec(s, order, nodes, now).rules[order[k]].enabled
  {
    var init := order[..|order| - 1];
    var id := order[k];
    if k < |order| - 1 {
      assert init[k] == id;
      EvaluatedRulesStamped(s, init, nodes, now, k);
    } else {
      EnabledKept(s, init, nodes, now, id);
    }
  }

  /** Evaluation never switches a rule on or off, nor changes its kind. */
  lemma {:induction false} EnabledKept(s: State, order: seq<string>, nodes: seq<NodeSample>, now: nat, id: string)
    requires forall i :: 0 <= i < |order| ==> order[i] in s.rules
    requires id in s.rules
    ensures EvaluateAllSpec(s, order, nodes, now).rules[id].enabled == s.rules[id].enabled
    ensures EvaluateAllSpec(s, order, nodes, now).rules[id].thresholdType == s.rules[id].thresholdType
  {
    if |order| > 0 {
      var init, turn := order[..|order| - 1], order[|order| - 1];
      var before := EvaluateAllSpec(s, init, nodes, now);
      assert EvaluateAllSpec(s, order, nodes, now) == EvaluateTurn(before, turn, nodes, now);
      EnabledKept(s, init, nodes, now, id);
      TurnKeepsKind(before, turn, nodes, now, id);
    }
  }

  class AlertManager {
    var rules: map<string, ThresholdRule>
    var channels: seq<Channel>
    var active: map<string, ActiveEntry>
    var history: map<NotifyKey, int>
    var outbox: seq<(Channel, AlertData)>

    function Current(): State
      reads this
    {
      State(rules, channels, active, history, outbox)
    }

    constructor ()
      ensures Current() == State(map[], [], map[], map[], [])
    {
      rules := map[];
      channels := [];
      active := map[];
      history := map[];
      outbox := [];
    }

    method Assign(st: State)
      modifies this
      ensures Current() == st
    {
      rules, channels, active, history, outbox := st.rules, st.channels, st.active, st.history, st.outbox;
    }

    /** `_create_default_config` without the file write: the three default rules are
        set and email is configured. */
    method CreateDefaultConfig()
      modifies this
      ensures forall r :: r in DefaultRules() ==> r.ruleId in rules && rules[r.ruleId] == r
      ensures forall id :: id in old(rules) && id !in {"cpu_usage_default", "memory_usage_default", "node_heartbeat_default"}
                           ==> id in rules && rules[id] == old(rules)[id]
      ensures Email in channels && (Email in old(channels) ==> channels == old(channels))
      ensures active == old(active) && history == old(history) && outbox == old(outbox)
    {
      var defaults := DefaultRules();
      var i := 0;
      while i < |defaults|
        invariant 0 <= i <= |defaults|
        invariant forall j :: 0 <= j < i ==> defaults[j].ruleId in rules && rules[defaults[j].ruleId] == defaults[j]
        invariant forall id :: id in old(rules) && id !in {"cpu_usage_default", "memory_usage_default", "node_heartbeat_default"}
                               ==> id in rules && rules[id] == old(rules)[id]
        invariant channels == old(channels) && active == old(active) && history == old(history) && outbox == old(outbox)
      {
        rules := rules[defaults[i].ruleId := defaults[i]];
        i := i + 1;
      }
      if Email !in channels {
        channels := channels + [Email];
      }
    }

    /** `add_threshold_rule` without the file write. */
    method AddThresholdRule(rule: ThresholdRule)
      modifies this
      ensures Current() == old(Current()).(rules := old(rules)[rule.ruleId := rule])
    {
      rules := rules[rule.ruleId := rule];
    }

    /** `remove_threshold_rule` without the file write: an unknown id changes nothing. */
    method RemoveThresholdRule(ruleId: string)
      modifies this
      ensures Current() == old(Current()).(rules := old(rules) - {ruleId})
      ensures ruleId !in old(rules) ==> Current() == old(Current())
    {
      if ruleId in rules {
        rules := rules - {ruleId};
      }
    }

    method SendNotifications(alert: AlertData, now: int)
      modifies this
      ensures Current() == NotifySpec(old(Current()), alert, now)
    {
      var key := NotifyKey(alert.alertType, alert.nodeId);
      if key in history && now - history[key] < RateLimitSeconds {
        return;
      }
      var i := 0;
      var sent := [];
      while i < |channels|
        invariant 0 <= i <= |channels|
        invariant Current() == old(Current())
        invariant sent == Deliveries(channels[..i], alert)
      {
        if channels[i] in {Email, Webhook, Slack} {
          sent := sent + [(channels[i], alert)];
        }
        DeliveriesSnoc(channels[..i], channels[i], alert);
        assert channels[..i + 1] == channels[..i] + [channels[i]];
        i := i + 1;
      }
      assert channels[..i] == channels;
      outbox := outbox + sent;
      history := history[key := now];
    }

    method TriggerAlert(alert: AlertData, now: nat) returns (alertId: string)
      modifies this
      ensures (Current(), alertId) == TriggerSpec(old(Current()), alert, now)
    {
      alertId := AlertId(alert.alertType, alert.nodeId, now);
      active := active[alertId := Raised(alert)];
      SendNotifications(alert, now);
    }

    method ResolveAlert(alertId: string, now: int) returns (error: Option<string>)
      modifies this
      ensures ResolveSpec(old(Current()), alertId, now).Ok? ==>
                error.None? && Current() == ResolveSpec(old(Current()), alertId, now).value
      ensures ResolveSpec(old(Current()), alertId, now).Err? ==>
                error == Some(ResolveSpec(old(Current()), alertId, now).msg) && Current() == old(Current())
    {
      if alertId !in active {
        return None;
      }
      match active[alertId]
      case Ref(_) =>
        return Some("TypeError");
      case Raised(data) =>
        var resolution := data.(title := "RESOLVED: " + data.title,
                                message := "Alert has been resolved: " + data.message,
                                severity := Low);
        SendNotifications(resolution, now);
        active := active - {alertId};
        return None;
    }

    method HandleThresholdViolation(ruleId: string, v: Violation, now: nat)
      modifies this
      requires ruleId in rules
      ensures Current() == HandleSpec(old(Current()), ruleId, v, now)
    {
      var key := ViolationKey(ruleId, v.target);
      if key in active {
        return;
      }
      var rule := rules[ruleId];
      rules := rules[ruleId := rule.(currentViolations := rule.currentViolations + 1)];
      if rule.currentViolations + 1 >= rule.consecutive {
        ghost var counted := Current();
        var alertId := TriggerAlert(ViolationAlert(rule, v), now);
        ghost var t := Current();
        active := active[key := Ref(alertId)];
        rules := rules[ruleId := rules[ruleId].(currentViolations := 0)];
        assert Current() == t.(active := t.active[key := Ref(alertId)], rules := t.rules[ruleId := t.rules[ruleId].(currentViolations := 0)]);
        assert (t, alertId) == TriggerSpec(counted, ViolationAlert(rule, v), now);
      }
    }

    /** `_evaluate_cpu_usage`, `_evaluate_memory_usage` and `_evaluate_node_heartbeat`:
        each node's violation handled in node order. */
    method EvaluateNodes(ruleId: string, nodes: seq<NodeSample>, now: nat)
      modifies this
      requires ruleId in rules
      ensures Current() == ApplyAll(old(Current()), ruleId, NodeViolations(old(rules)[ruleId], nodes, now), now)
    {
      var rule := rules[ruleId];
      ghost var start := Current();
      var i := 0;
      while i < |nodes|
        invariant 0 <= i <= |nodes|
        invariant ruleId in rules
        invariant Current() == ApplyAll(start, ruleId, NodeViolations(rule, nodes[..i], now), now)
      {
        var found := NodeViolation(rule, nodes[i], now);
        ghost var before := Current();
        ApplyAllStep(start, ruleId, rule, nodes, i, now);
        if |found| == 1 {
          HandleThresholdViolation(ruleId, found[0], now);
          assert Current() == HandleSpec(before, ruleId, found[0], now);
        }
        i := i + 1;
      }
      assert nodes[..i] == nodes;
    }

    /** `_evaluate_rule`: false when the rule's kind has no evaluator. */
    method EvaluateRule(ruleId: string, nodes: seq<NodeSample>, now: nat) returns (ok: bool)
      modifies this
      requires ruleId in rules
      ensures (Current(), ok) == EvaluateRuleSpec(old(Current()), ruleId, nodes, now)
    {
      if MissingEvaluator(rules[ruleId].thresholdType) {
        return false;
      }
      EvaluateNodes(ruleId, nodes, now);
      return true;
    }

    /** `_evaluate_thresholds`, with `order` the rule dict's order and `nodes` what
        `get_active_nodes` returns. */
    method EvaluateThresholds(order: seq<string>, nodes: seq<NodeSample>, now: nat)
      modifies this
      requires Distinct(order) && forall id :: id in rules <==> id in order
      ensures Current() == EvaluateAllSpec(old(Current()), order, nodes, now)
    {
      ghost var start := Current();
      var i := 0;
      while i < |order|
        invariant 0 <= i <= |order|
        invariant Current() == EvaluateAllSpec(start, order[..i], nodes, now)
      {
        EvaluateAllStep(start, order, i, nodes, now);
        EvaluateTurnStep(order[i], nodes, now);
        i := i + 1;
      }
      assert order[..i] == order;
    }

    /** One rule's turn. */
    method EvaluateTurnStep(id: string, nodes: seq<NodeSample>, now: nat)
      modifies this
      requires id in rules
      ensures Current() == EvaluateTurn(old(Current()), id, nodes, now)
    {
      if rules[id].enabled {
        var ok := EvaluateRule(id, nodes, now);
        if ok {
          rules := rules[id := rules[id].(lastEvaluated := Some(now))];
        }
      }
    }
  }

  /** At most one more violation, handled after the others. */
  lemma ApplyAllAppend(s: State, ruleId: string, vs: seq<Violation>, found: seq<Violation>, now: nat)
    requires ruleId in s.rules && |found| <= 1
    ensures ApplyAll(s, ruleId, vs + found, now) ==
      if |found| == 1 then HandleSpec(ApplyAll(s, ruleId, vs, now), ruleId, found[0], now) else ApplyAll(s, ruleId, vs, now)
  {
    if |found| == 1 {
      assert (vs + found)[..|vs|] == vs;
    } else {
      assert vs + found == vs;
    }
  }

  lemma NodeViolationsStep(rule: ThresholdRule, nodes: seq<NodeSample>, i: nat, now: int)
    requires i < |nodes|
    ensures NodeViolations(rule, nodes[..i + 1], now) == NodeViolations(rule, nodes[..i], now) + NodeViolation(rule, nodes[i], now)
  {
    assert nodes[..i + 1][..i] == nodes[..i];
  }

  /** One more node: its violation, if any, is handled after the earlier ones. */
  lemma ApplyAllStep(s: State, ruleId: string, rule: ThresholdRule, nodes: seq<NodeSample>, i: nat, now: nat)
    requires ruleId in s.rules && i < |nodes|
    ensures |NodeViolation(rule, nodes[i], now)| <= 1
    ensures var before := ApplyAll(s, ruleId, NodeViolations(rule, nodes[..i], now), now);
            var found := NodeViolation(rule, nodes[i], now);
            ApplyAll(s, ruleId, NodeViolations(rule, nodes[..i + 1], now), now) ==
              if |found| == 1 then HandleSpec(before, ruleId, found[0], now) else before
  {
    NodeViolationCharacterized(rule, nodes[i], now);
    NodeViolationsStep(rule, nodes, i, now);
    ApplyAllAppend(s, ruleId, NodeViolations(rule, nodes[..i], now), NodeViolation(rule, nodes[i], now), now);
  }

  /** One more rule's turn. */
  lemma EvaluateAllStep(s: State, order: seq<string>, i: nat, nodes: seq<NodeSample>, now: nat)
    requires i < |order| && forall k :: 0 <= k < |order| ==> order[k] in s.rules
    ensures EvaluateAllSpec(s, order[..i + 1], nodes, now) == EvaluateTurn(EvaluateAllSpec(s, order[..i], nodes, now), order[i], nodes, now)
  {
    assert order[..i + 1][..i] == order[..i];
  }

  lemma DeliveriesSnoc(channels: seq<Channel>, c: Channel, alert: AlertData)
    ensures Deliveries(channels + [c], alert)
            == Deliveries(channels, alert) + (if c in {Email, Webhook, Slack} then [(c, alert)] else [])
  {
    if |channels| > 0 {
      assert (channels + [c])[1..] == channels[1..] + [c];
      DeliveriesSnoc(channels[1..], c, alert);
    }
  }
}
