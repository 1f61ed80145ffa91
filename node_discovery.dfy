/** The peer-to-peer node directory (hub/services/node_discovery.py): registered
    nodes with their last-seen time and connection sets, the capability filter, and
    the periodic sweeps that mark silent nodes offline and drop nodes offline for a
    day.

    Pinging a node and asking it for its connections are network calls; they enter
    as the oracles `reachable` (did a ping answer 200) and `reported` (the
    `connected_nodes` a node answered with, or None when it did not answer 200). */
module NodeDiscovery {
  import opened Common
  import opened HubModels

  const DefaultNodeTimeout: int := 120
  const StaleAfter: int := 86400

  /** A capability value: every Python number, bools included, is `Num`; anything
      else is `Other`. */
  datatype CapValue = Num(n: real) | Other(text: string)

  datatype NodeInfo = NodeInfo(
    nodeId: string,
    host: string,
    port: int,
    capabilities: map<string, CapValue>,
    lastSeen: int,
    status: NodeStatus)

  // ---------------------------------------------------------------------------
  // `_matches_capabilities`.

  /** One requirement: a numeric one needs a value at least as large (comparing a
      non-number with `<` raises TypeError), any other one an equal value. */
  function MeetsOne(caps: map<string, CapValue>, key: string, want: CapValue): Result<bool>
  {
    if key !in caps then Ok(false)
    else if want.Num? then
      (if caps[key].Other? then Err("TypeError") else Ok(caps[key].n >= want.n))
    else Ok(caps[key] == want)
  }

  /** The requirements in their dict order; the first failing one decides. */
  function Matches(caps: map<string, CapValue>, required: seq<(string, CapValue)>): Result<bool>
  {
    if |required| == 0 then Ok(true)
    else match MeetsOne(caps, required[0].0, required[0].1)
      case Err(e) => Err(e)
      case Ok(false) => Ok(false)
      case Ok(true) => Matches(caps, required[1..])
  }

  ghost predicate Comparable(caps: map<string, CapValue>, key: string, want: CapValue)
  {
    key in caps && want.Num? ==> caps[key].Num?
  }

  /** A node matches iff every key is present, with a number at least the required
      one for a numeric requirement and an equal value otherwise; the check raises
      only when a numeric requirement meets a non-number before any requirement
      failed. */
  lemma {:induction false} MatchesCharacterized(caps: map<string, CapValue>, required: seq<(string, CapValue)>)
    ensures Matches(caps, required) == Ok(true) <==>
              forall i :: 0 <= i < |required| ==> MeetsOne(caps, required[i].0, required[i].1) == Ok(true)
    ensures (forall i :: 0 <= i < |required| ==> Comparable(caps, required[i].0, required[i].1))
            ==> Matches(caps, required).Ok?
  {
    if |required| > 0 {
      MatchesCharacterized(caps, required[1..]);
      assert forall i :: 1 <= i < |required| ==> required[i] == required[1..][i - 1];
    }
  }

  /** A node the scan keeps: ONLINE and matching the requirements. */
  predicate Kept(n: NodeInfo, required: seq<(string, CapValue)>)
  {
    n.status == Online && Matches(n.capabilities, required) == Ok(true)
  }

  /** One node of the scan: an earlier error stands; an ONLINE node is checked
      against the requirements and kept when it matches. */
  function ScanStep(prev: Result<seq<NodeInfo>>, n: NodeInfo, required: seq<(string, CapValue)>)
    : Result<seq<NodeInfo>>
  {
    match prev
    case Err(e) => Err(e)
    case Ok(found) =>
      if n.status != Online then Ok(found)
      else match Matches(n.capabilities, required)
        case Err(e) => Err(e)
        case Ok(keep) => Ok(if keep then found + [n] else found)
  }

  /** `get_available_nodes` as a function of the directory and its key order `order`:
      the ONLINE nodes that match, in order; a requirement check that raises makes the
      whole call raise. */
  function AvailableSpec(nodes: map<string, NodeInfo>, order: seq<string>, required: seq<(string, CapValue)>)
    : Result<seq<NodeInfo>>
    requires forall i :: 0 <= i < |order| ==> order[i] in nodes
  {
    if |order| == 0 then Ok([])
    else ScanStep(AvailableSpec(nodes, order[..|order| - 1], required), nodes[order[|order| - 1]], required)
  }

  /** The scan of one more key is one more step. */
  lemma AvailablePrefixStep(nodes: map<string, NodeInfo>, order: seq<string>, i: nat, required: seq<(string, CapValue)>)
    requires i < |order| && forall j :: 0 <= j < |order| ==> order[j] in nodes
    ensures AvailableSpec(nodes, order[..i + 1], required)
            == ScanStep(AvailableSpec(nodes, order[..i], required), nodes[order[i]], required)
  {
    assert order[..i + 1][..i] == order[..i];
  }

  /** A successful scan keeps exactly the ONLINE nodes that match. */
  lemma {:induction false} AvailableMembers(nodes: map<string, NodeInfo>, order: seq<string>, required: seq<(string, CapValue)>)
    requires forall i :: 0 <= i < |order| ==> order[i] in nodes
    requires AvailableSpec(nodes, order, required).Ok?
    ensures forall n :: n in AvailableSpec(nodes, order, required).value <==>
              exists j :: 0 <= j < |order| && nodes[order[j]] == n && Kept(n, required)
  {
    if |order| > 0 {
      var init := order[..|order| - 1];
      var last := nodes[order[|order| - 1]];
      AvailableMembers(nodes, init, required);
      var found := AvailableSpec(nodes, init, required).value;
      var r := AvailableSpec(nodes, order, required).value;
      forall n
        ensures n in r <==> exists j :: 0 <= j < |order| && nodes[order[j]] == n && Kept(n, required)
      {
        if n in r {
          if n in found {
            var j :| 0 <= j < |init| && nodes[init[j]] == n && Kept(n, required);
            assert order[j] == init[j];
          } else {
            assert nodes[order[|order| - 1]] == n && Kept(n, required);
          }
        }
        if exists j :: 0 <= j < |order| && nodes[order[j]] == n && Kept(n, required) {
          var j :| 0 <= j < |order| && nodes[order[j]] == n && Kept(n, required);
          if j < |init| {
            assert nodes[init[j]] == n;
            assert n in found;
          }
        }
      }
    }
  }

  /** A scan that raises met an ONLINE node whose requirement check raises. */
  lemma {:induction false} AvailableErrCause(nodes: map<string, NodeInfo>, order: seq<string>, required: seq<(string, CapValue)>)
    requires forall i :: 0 <= i < |order| ==> order[i] in nodes
    requires AvailableSpec(nodes, order, required).Err?
    ensures exists j :: 0 <= j < |order| && nodes[order[j]].status == Online
                        && Matches(nodes[order[j]].capabilities, required).Err?
  {
    var init := order[..|order| - 1];
    if AvailableSpec(nodes, init, required).Err? {
      AvailableErrCause(nodes, init, required);
      var j :| 0 <= j < |init| && nodes[init[j]].status == Online && Matches(nodes[init[j]].capabilities, required).Err?;
      assert order[j] == init[j];
    } else {
      assert nodes[order[|order| - 1]].status == Online;
    }
  }

  /** When every ONLINE node's requirement check succeeds, so does the scan. */
  lemma {:induction false} AvailableOk(nodes: map<string, NodeInfo>, order: seq<string>, required: seq<(string, CapValue)>)
    requires forall i :: 0 <= i < |order| ==> order[i] in nodes
    requires forall j :: 0 <= j < |order| && nodes[order[j]].status == Online ==>
               Matches(nodes[order[j]].capabilities, required).Ok?
    ensures AvailableSpec(nodes, order, required).Ok?
  {
    if |order| > 0 {
      var init := order[..|order| - 1];
      assert forall j :: 0 <= j < |init| ==> init[j] == order[j];
      AvailableOk(nodes, init, required);
    }
  }

  /** Over a key order that lists exactly the directory's keys: a successful scan
      keeps exactly the ONLINE nodes that match; a scan that raises met an ONLINE
      node whose check raises; and it succeeds when no ONLINE node's check raises. */
  lemma AvailableCharacterized(nodes: map<string, NodeInfo>, order: seq<string>, required: seq<(string, CapValue)>)
    requires forall id :: id in order <==> id in nodes
    ensures AvailableSpec(nodes, order, required).Ok? ==>
              forall n :: n in AvailableSpec(nodes, order, required).value <==>
                exists id :: id in nodes && nodes[id] == n && Kept(n, required)
    ensures AvailableSpec(nodes, order, required).Err? ==>
              exists id :: id in nodes && nodes[id].status == Online && Matches(nodes[id].capabilities, required).Err?
    ensures (forall id :: id in nodes && nodes[id].status == Online ==> Matches(nodes[id].capabilities, required).Ok?)
            ==> AvailableSpec(nodes, order, required).Ok?
  {
    assert forall i :: 0 <= i < |order| ==> order[i] in nodes;
    var r := AvailableSpec(nodes, order, required);
    if r.Ok? {
      AvailableMembers(nodes, order, required);
      forall n | exists id :: id in nodes && nodes[id] == n && Kept(n, required)
        ensures exists j :: 0 <= j < |order| && nodes[order[j]] == n && Kept(n, required)
      {
        var id :| id in nodes && nodes[id] == n && Kept(n, required);
        var j :| 0 <= j < |order| && order[j] == id;
        assert nodes[order[j]] == n;
      }
    } else {
      AvailableErrCause(nodes, order, required);
    }
    if forall id :: id in nodes && nodes[id].status == Online ==> Matches(nodes[id].capabilities, required).Ok? {
      AvailableOk(nodes, order, required);
    }
  }

  /** Once a prefix of the scan raises, the whole scan raises the same error. */
  lemma {:induction false} AvailableErrPersists(nodes: map<string, NodeInfo>, order: seq<string>,
                                                k: nat, required: seq<(string, CapValue)>)
    requires k <= |order| && forall i :: 0 <= i < |order| ==> order[i] in nodes
    requires AvailableSpec(nodes, order[..k], required).Err?
    ensures AvailableSpec(nodes, order, required) == AvailableSpec(nodes, order[..k], required)
  {
    if k < |order| {
      assert order[..|order| - 1][..k] == order[..k];
      AvailableErrPersists(nodes, order[..|order| - 1], k, required);
    } else {
      assert order[..k] == order;
    }
  }

  // ---------------------------------------------------------------------------
  // The sweeps as functions of the directory.

  /** `_update_node_statuses`: nodes unseen for longer than the timeout go OFFLINE. */
  function TimedOutSpec(nodes: map<string, NodeInfo>, now: int, timeout: int): map<string, NodeInfo>
  {
    map id | id in nodes :: if now - nodes[id].lastSeen > timeout then nodes[id].(status := Offline) else nodes[id]
  }

  predicate IsStale(n: NodeInfo, now: int)
  {
    n.status == Offline && now - n.lastSeen > StaleAfter
  }

  function StaleIds(nodes: map<string, NodeInfo>, now: int): set<string>
  {
    set id | id in nodes && IsStale(nodes[id], now)
  }

  /** A node after its ping: seen now when it answers, OFFLINE when it does not. */
  function Pinged(n: NodeInfo, answers: bool, now: int): NodeInfo
  {
    if answers then n.(lastSeen := now) else n.(status := Offline)
  }

  /** `_discover_all_nodes` on the nodes: a node that answers a ping is seen now,
      one that does not goes OFFLINE. */
  function DiscoveredNodes(nodes: map<string, NodeInfo>, reachable: string -> bool, now: int)
    : (r: map<string, NodeInfo>)
    ensures r.Keys == nodes.Keys
  {
    map id | id in nodes :: Pinged(nodes[id], reachable(id), now)
  }

  /** The connection set of `id` after its ping: the one it reports when it answers
      and reports one, its old one otherwise. */
  function Reconnected(nodes: map<string, NodeInfo>, connections: map<string, set<string>>,
                       reachable: string -> bool, reported: string -> Option<set<string>>, id: string)
    : set<string>
    requires id in connections
  {
    if id in nodes && reachable(id) && reported(id).Some? then reported(id).value else connections[id]
  }

  /** ... and on the connection sets: a node that answers takes the connections it
      reports, when it reports them. */
  function DiscoveredConnections(nodes: map<string, NodeInfo>, connections: map<string, set<string>>,
                                 reachable: string -> bool, reported: string -> Option<set<string>>)
    : (r: map<string, set<string>>)
    requires nodes.Keys <= connections.Keys
    ensures r.Keys == connections.Keys
  {
    map id | id in connections :: Reconnected(nodes, connections, reachable, reported, id)
  }

  /** The nodes part way through the discovery loop: those in `todo` not pinged yet. */
  function NodesPending(nodes: map<string, NodeInfo>, reachable: string -> bool, now: int, todo: set<string>)
    : map<string, NodeInfo>
  {
    map id | id in nodes :: if id in todo then nodes[id] else Pinged(nodes[id], reachable(id), now)
  }

  /** The connection sets part way through the discovery loop. */
  function ConnectionsPending(nodes: map<string, NodeInfo>, connections: map<string, set<string>>,
                              reachable: string -> bool, reported: string -> Option<set<string>>, todo: set<string>)
    : map<string, set<string>>
  {
    map id | id in connections :: if id in todo then connections[id] else Reconnected(nodes, connections, reachable, reported, id)
  }

  lemma NodesPendingEnds(nodes: map<string, NodeInfo>, reachable: string -> bool, now: int)
    ensures NodesPending(nodes, reachable, now, nodes.Keys) == nodes
    ensures NodesPending(nodes, reachable, now, {}) == DiscoveredNodes(nodes, reachable, now)
  {
  }

  lemma ConnectionsPendingEnds(nodes: map<string, NodeInfo>, connections: map<string, set<string>>,
                               reachable: string -> bool, reported: string -> Option<set<string>>)
    requires nodes.Keys <= connections.Keys
    ensures ConnectionsPending(nodes, connections, reachable, reported, nodes.Keys) == connections
    ensures ConnectionsPending(nodes, connections, reachable, reported, {}) == DiscoveredConnections(nodes, connections, reachable, reported)
  {
    var m := ConnectionsPending(nodes, connections, reachable, reported, nodes.Keys);
    forall id | id in connections
      ensures m[id] == connections[id]
    {
    }
  }

  /** Pinging one more node changes its entry only. */
  lemma NodesPendingStep(nodes: map<string, NodeInfo>, reachable: string -> bool, now: int, todo: set<string>, id: string)
    requires id in todo && id in nodes
    ensures NodesPending(nodes, reachable, now, todo - {id})
            == NodesPending(nodes, reachable, now, todo)[id := Pinged(nodes[id], reachable(id), now)]
  {
  }

  lemma ConnectionsPendingStep(nodes: map<string, NodeInfo>, connections: map<string, set<string>>,
                               reachable: string -> bool, reported: string -> Option<set<string>>,
                               todo: set<string>, id: string)
    requires id in todo && id in nodes && id in connections
    ensures ConnectionsPending(nodes, connections, reachable, reported, todo - {id})
            == ConnectionsPending(nodes, connections, reachable, reported, todo)[id := Reconnected(nodes, connections, reachable, reported, id)]
  {
  }

  /** The discovery loop, one node at a time. */
  method Discover(nodes: map<string, NodeInfo>, connections: map<string, set<string>>,
                  reachable: string -> bool, reported: string -> Option<set<string>>, now: int)
    returns (nodes': map<string, NodeInfo>, connections': map<string, set<string>>)
    requires nodes.Keys <= connections.Keys
    ensures nodes' == DiscoveredNodes(nodes, reachable, now)
    ensures connections' == DiscoveredConnections(nodes, connections, reachable, reported)
  {
    nodes', connections' := nodes, connections;
    var todo := nodes.Keys;
    NodesPendingEnds(nodes, reachable, now);
    ConnectionsPendingEnds(nodes, connections, reachable, reported);
    while todo != {}
      invariant todo <= nodes.Keys
      invariant nodes' == NodesPending(nodes, reachable, now, todo)
      invariant connections' == ConnectionsPending(nodes, connections, reachable, reported, todo)
      decreases todo
    {
      var id :| id in todo;
      NodesPendingStep(nodes, reachable, now, todo, id);
      ConnectionsPendingStep(nodes, connections, reachable, reported, todo, id);
      if reachable(id) {
        nodes' := nodes'[id := nodes'[id].(lastSeen := now)];
        var r := reported(id);
        if r.Some? {
          connections' := connections'[id := r.value];
        }
      } else {
        nodes' := nodes'[id := nodes'[id].(status := Offline)];
      }
      todo := todo - {id};
    }
  }

  /** A node is dropped by the sweeps of one discovery round (statuses, then stale
      nodes) iff it was unseen for longer than both the timeout and a day, or was
      already offline and unseen for more than a day; every other node survives
      with its record. */
  lemma RoundDropsStaleNodes(nodes: map<string, NodeInfo>, now: int, timeout: int, id: string)
    requires id in nodes
    ensures var marked := TimedOutSpec(nodes, now, timeout);
            && (id !in marked.Keys - StaleIds(marked, now) <==>
                  now - nodes[id].lastSeen > StaleAfter
                  && (now - nodes[id].lastSeen > timeout || nodes[id].status == Offline))
            && (id in marked.Keys - StaleIds(marked, now) ==>
                  marked[id].nodeId == nodes[id].nodeId && marked[id].lastSeen == nodes[id].lastSeen)
  {
  }

  class NodeDirectory {
    var nodeTimeout: int
    var nodes: map<string, NodeInfo>
    var connections: map<string, set<string>>

    /** Every node has a connection set: both are written on registration and
        dropped together by the stale sweep. */
    ghost predicate Valid()
      reads this
    {
      nodes.Keys <= connections.Keys
    }

    constructor (nodeTimeout: int)
      ensures Valid()
      ensures this.nodeTimeout == nodeTimeout && nodes == map[] && connections == map[]
    {
      this.nodeTimeout := nodeTimeout;
      nodes := map[];
      connections := map[];
    }

    /** `register_node`: the node is stored ONLINE and seen now, replacing any earlier
        entry, with an empty connection set unless it reports its connections. */
    method RegisterNode(id: string, host: string, port: int, caps: map<string, CapValue>,
                        now: int, reported: Option<set<string>>) returns (info: NodeInfo)
      modifies this
      requires Valid()
      ensures Valid()
      ensures info == NodeInfo(id, host, port, caps, now, Online)
      ensures nodes == old(nodes)[id := info]
      ensures connections == old(connections)[id := if reported.Some? then reported.value else {}]
      ensures nodeTimeout == old(nodeTimeout)
    {
      info := NodeInfo(id, host, port, caps, now, Online);
      nodes := nodes[id := info];
      connections := connections[id := {}];
      if reported.Some? {
        connections := connections[id := reported.value];
      }
    }

    function GetNodeInfo(id: string): (r: Option<NodeInfo>)
      reads this
      ensures r.Some? <==> id in nodes
      ensures r.Some? ==> r.value == nodes[id]
    {
      if id in nodes then Some(nodes[id]) else None
    }

    /** `get_available_nodes`, with `order` the dict's order: the ONLINE nodes in that
        order, kept only when they match the requirements (an empty requirement list
        keeps all). */
    method GetAvailableNodes(order: seq<string>, required: seq<(string, CapValue)>)
      returns (r: Result<seq<NodeInfo>>)
      requires Distinct(order) && forall id :: id in order <==> id in nodes
      ensures r == AvailableSpec(nodes, order, required)
      ensures r.Ok? ==> forall n :: n in r.value <==> exists id :: id in nodes && nodes[id] == n && Kept(n, required)
      ensures r.Err? ==> exists id :: id in nodes && nodes[id].status == Online
                                      && Matches(nodes[id].capabilities, required).Err?
      ensures (forall id :: id in nodes && nodes[id].status == Online ==>
                 Matches(nodes[id].capabilities, required).Ok?) ==> r.Ok?
    {
      var found: seq<NodeInfo> := [];
      var i := 0;
      while i < |order|
        invariant 0 <= i <= |order|
        invariant AvailableSpec(nodes, order[..i], required) == Ok(found)
      {
        AvailablePrefixStep(nodes, order, i, required);
        var n := nodes[order[i]];
        if n.status == Online {
          var m := Matches(n.capabilities, required);
          if m.Err? {
            AvailableErrPersists(nodes, order, i + 1, required);
            AvailableCharacterized(nodes, order, required);
            return Err(m.msg);
          }
          if m.value {
            found := found + [n];
          }
        }
        i := i + 1;
      }
      r := Ok(found);
      FullPrefix(order, |order|);
      AvailableCharacterized(nodes, order, required);
    }

    /** `update_node_status`: no change for an unknown node; otherwise the new status,
        seen now, and the given capabilities merged over the old ones. */
    method UpdateNodeStatus(id: string, status: NodeStatus, caps: map<string, CapValue>, now: int)
      modifies this
      requires Valid()
      ensures Valid()
      ensures id !in old(nodes) ==> nodes == old(nodes)
      ensures id in old(nodes) ==>
                nodes == old(nodes)[id := old(nodes)[id].(status := status, lastSeen := now,
                                                           capabilities := old(nodes)[id].capabilities + caps)]
      ensures connections == old(connections) && nodeTimeout == old(nodeTimeout)
    {
      if id in nodes {
        var n := nodes[id].(status := status, lastSeen := now);
        if |caps| > 0 {
          n := n.(capabilities := n.capabilities + caps);
        } else {
          assert n.capabilities + caps == n.capabilities;
        }
        nodes := nodes[id := n];
      }
    }

    /** `_discover_all_nodes`. */
    method DiscoverAllNodes(reachable: string -> bool, reported: string -> Option<set<string>>, now: int)
      modifies this
      requires Valid()
      ensures Valid()
      ensures nodes == DiscoveredNodes(old(nodes), reachable, now)
      ensures connections == DiscoveredConnections(old(nodes), old(connections), reachable, reported)
      ensures nodeTimeout == old(nodeTimeout)
    {
      nodes, connections := Discover(nodes, connections, reachable, reported, now);
    }

    /** `_update_node_statuses`. */
    method UpdateNodeStatuses(now: int)
      modifies this
      requires Valid()
      ensures Valid()
      ensures nodes == TimedOutSpec(old(nodes), now, nodeTimeout)
      ensures connections == old(connections) && nodeTimeout == old(nodeTimeout)
    {
      var todo := nodes.Keys;
      ghost var before := nodes;
      while todo != {}
        invariant todo <= before.Keys && nodes.Keys == before.Keys
        invariant forall id :: id in nodes ==>
                    nodes[id] == if id in todo then before[id] else TimedOutSpec(before, now, nodeTimeout)[id]
        invariant connections == old(connections) && nodeTimeout == old(nodeTimeout)
        decreases todo
      {
        var id :| id in todo;
        if now - nodes[id].lastSeen > nodeTimeout {
          nodes := nodes[id := nodes[id].(status := Offline)];
        }
        todo := todo - {id};
      }
    }

    /** `_cleanup_stale_nodes`: exactly the nodes OFFLINE and unseen for more than 24 h
        leave both maps. */
    method CleanupStaleNodes(now: int)
      modifies this
      requires Valid()
      ensures Valid()
      ensures nodes == old(nodes) - StaleIds(old(nodes), now)
      ensures connections == old(connections) - StaleIds(old(nodes), now)
      ensures nodeTimeout == old(nodeTimeout)
    {
      var stale := StaleIds(nodes, now);
      nodes := nodes - stale;
      connections := connections - stale;
    }
  }
}
