/** The two rules of the status endpoints (hub/routers/status.py): the overall
    system status from the nodes' statuses, and a node's uptime. */
module StatusRules {
  import opened Common
  import opened HubModels

  /** How many of the statuses equal `s`. */
  function CountStatus(statuses: seq<NodeStatus>, s: NodeStatus): (n: nat)
    ensures n <= |statuses|
  {
    if |statuses| == 0 then 0
    else CountStatus(statuses[..|statuses| - 1], s) + (if statuses[|statuses| - 1] == s then 1 else 0)
  }

  /** The count reaches the length exactly when every status is `s`. */
  lemma {:induction false} CountStatusAll(statuses: seq<NodeStatus>, s: NodeStatus)
    ensures CountStatus(statuses, s) == |statuses| <==> forall i :: 0 <= i < |statuses| ==> statuses[i] == s
  {
    if |statuses| > 0 {
      var init := statuses[..|statuses| - 1];
      CountStatusAll(init, s);
      assert forall i :: 0 <= i < |init| ==> init[i] == statuses[i];
    }
  }

  /** A node counted as one status is not counted as another. */
  lemma {:induction false} CountStatusDisjoint(statuses: seq<NodeStatus>, s: NodeStatus, t: NodeStatus)
    requires s != t
    ensures CountStatus(statuses, s) + CountStatus(statuses, t) <= |statuses|
  {
    if |statuses| > 0 {
      CountStatusDisjoint(statuses[..|statuses| - 1], s, t);
    }
  }

  /** `_calculate_overall_status`. */
  function OverallStatus(statuses: seq<NodeStatus>): (r: string)
  {
    if |statuses| == 0 then "unknown"
    else
      var online := CountStatus(statuses, Online);
      var errors := CountStatus(statuses, Error);
      var total := |statuses|;
      if errors as real > total as real * 0.2 then "critical"
      else if (online as real) < total as real * 0.5 then "warning"
      else if online == total then "healthy"
      else "degraded"
  }

  /** The classifier's cases, read as conditions on the fleet: no nodes is "unknown";
      more than a fifth in error is "critical" whatever else holds; otherwise fewer
      than half online is "warning"; all online is "healthy" (and only then); and
      what remains is "degraded". */
  lemma OverallStatusCases(statuses: seq<NodeStatus>)
    ensures OverallStatus(statuses) == "unknown" <==> |statuses| == 0
    ensures OverallStatus(statuses) == "critical" <==>
              |statuses| > 0 && 5 * CountStatus(statuses, Error) > |statuses|
    ensures OverallStatus(statuses) == "warning" <==>
              && |statuses| > 0 && 5 * CountStatus(statuses, Error) <= |statuses|
              && 2 * CountStatus(statuses, Online) < |statuses|
    ensures OverallStatus(statuses) == "healthy" <==>
              |statuses| > 0 && forall i :: 0 <= i < |statuses| ==> statuses[i] == Online
    ensures OverallStatus(statuses) == "degraded" <==>
              && 5 * CountStatus(statuses, Error) <= |statuses|
              && 2 * CountStatus(statuses, Online) >= |statuses|
              && CountStatus(statuses, Online) < |statuses|
  {
    CountStatusAll(statuses, Online);
    CountStatusDisjoint(statuses, Online, Error);
  }

  /** `_calculate_uptime`: None without a start time, else the seconds since it. */
  function Uptime(start: Option<int>, now: int): (r: Option<real>)
    ensures r.None? <==> start.None?
    ensures r.Some? ==> r.value + start.value as real == now as real
  {
    if start.None? then None else Some((now - start.value) as real)
  }
}
