/** Peer-to-peer task handoff (hub/services/p2p_handoff.py): handoff sessions, the
    peer-connection graph, the fallback to alternative nodes, and the sweep of old
    sessions.

    The HTTP calls enter as oracles: `establish(s, t)` says whether both `/connect`
    calls answered 200, and `execute(node)` is the JSON body a node's `/handoff`
    answered with, or the error `_execute_handoff` raised. Time is whole seconds. */
module P2PHandoffService {
  import opened Common

  const SessionRetention: int := 3600
  const DefaultMaxRetries: int := 3
  /** The defaults of `HandoffRequest.priority` and `HandoffRequest.timeout`. */
  const DefaultPriority: int := 1
  const DefaultTimeout: int := 300
  const NotConnected: string := "Nodes are not connected"

  datatype HandoffStatus = Pending | InProgress | Completed | Failed | Cancelled

  /** A JSON object as the nodes answer it; Python treats an empty one as false. */
  type Json = map<string, string>

  datatype HandoffRequest = HandoffRequest(
    taskId: string,
    sourceNodeId: string,
    targetNodeId: string,
    modelName: string,
    priority: int,
    timeout: int)

  datatype Session = Session(
    handoffId: string,
    request: HandoffRequest,
    status: HandoffStatus,
    startTime: int,
    endTime: Option<int>,
    result: Option<Json>,
    error: Option<string>,
    retries: int,
    maxRetries: int)

  datatype Response = Response(
    handoffId: string,
    status: HandoffStatus,
    result: Option<Json>,
    error: Option<string>,
    fallbackUsed: bool)

  /** `f"handoff_{task_id}_{int(time.time())}"`. */
  function HandoffId(taskId: string, now: nat): string
  {
    "handoff_" + taskId + "_" + ShowNat(now)
  }

  // ---------------------------------------------------------------------------
  // The connection graph: `node_connections`, with its keys in insertion order.

  datatype Graph = Graph(peers: seq<string>, edges: map<string, set<string>>)

  ghost predicate Symmetric(edges: map<string, set<string>>)
  {
    forall a, b :: a in edges && b in edges[a] ==> b in edges && a in edges[b]
  }

  ghost predicate GraphValid(g: Graph)
  {
    && Distinct(g.peers)
    && (forall x :: x in g.peers <==> x in g.edges)
    && Symmetric(g.edges)
  }

  /** `if node not in node_connections: node_connections[node] = set()`. */
  function AddPeer(g: Graph, x: string): (r: Graph)
    ensures x in r.edges
  {
    if x in g.edges then g else Graph(g.peers + [x], g.edges[x := {}])
  }

  /** `_verify_node_connection`: both nodes get an entry; an existing edge answers
      true at once; otherwise the nodes are asked to connect, and only if both agree
      is the edge added, in both directions. */
  function VerifySpec(g: Graph, s: string, t: string, establish: (string, string) -> bool): (r: (Graph, bool))
  {
    var g1 := AddPeer(AddPeer(g, s), t);
    if t in g1.edges[s] then (g1, true)
    else if establish(s, t) then
      var e1 := g1.edges[s := g1.edges[s] + {t}];
      (Graph(g1.peers, e1[t := e1[t] + {s}]), true)
    else (g1, false)
  }

  lemma AddPeerValid(g: Graph, x: string)
    requires GraphValid(g)
    ensures GraphValid(AddPeer(g, x))
  {
  }

  /** A new entry is appended after the existing keys and leaves their edges alone. */
  lemma AddPeerKeeps(g: Graph, x: string)
    ensures |g.peers| <= |AddPeer(g, x).peers| && AddPeer(g, x).peers[..|g.peers|] == g.peers
    ensures forall y :: y in g.edges ==> y in AddPeer(g, x).edges && AddPeer(g, x).edges[y] == g.edges[y]
  {
  }

  /** Adding an edge in both directions keeps the graph symmetric. */
  lemma ConnectValid(g: Graph, s: string, t: string)
    requires GraphValid(g) && s in g.edges && t in g.edges
    ensures var e1 := g.edges[s := g.edges[s] + {t}];
            GraphValid(Graph(g.peers, e1[t := e1[t] + {s}]))
  {
    var e1 := g.edges[s := g.edges[s] + {t}];
    var e2 := e1[t := e1[t] + {s}];
    forall a, b | a in e2 && b in e2[a]
      ensures b in e2 && a in e2[b]
    {
      if !(a == s && b == t) && !(a == t && b == s) {
        assert b in g.edges[a];
      }
    }
  }

  /** The check keeps the graph symmetric with one entry per known node. */
  lemma VerifyKeepsGraph(g: Graph, s: string, t: string, establish: (string, string) -> bool)
    requires GraphValid(g)
    ensures GraphValid(VerifySpec(g, s, t, establish).0)
  {
    var g0 := AddPeer(g, s);
    var g1 := AddPeer(g0, t);
    AddPeerValid(g, s);
    AddPeerValid(g0, t);
    if t !in g1.edges[s] && establish(s, t) {
      ConnectValid(g1, s, t);
    }
  }

  /** The check only ever appends to the key order and leaves every existing
      connection in place. */
  lemma VerifyKeepsConnections(g: Graph, s: string, t: string, establish: (string, string) -> bool)
    ensures var g' := VerifySpec(g, s, t, establish).0;
            && |g.peers| <= |g'.peers| && g'.peers[..|g.peers|] == g.peers
            && (forall x :: x in g.edges ==> x in g'.edges && g.edges[x] <= g'.edges[x])
  {
    var g0 := AddPeer(g, s);
    var g1 := AddPeer(g0, t);
    AddPeerKeeps(g, s);
    AddPeerKeeps(g0, t);
    assert g1.peers[..|g.peers|] == g0.peers[..|g.peers|];
  }

  /** The check succeeds iff the nodes were already connected or connecting
      worked; afterwards they are connected both ways exactly when it succeeded
      (in a symmetric graph); and a failed check adds no edge. */
  lemma VerifyEffects(g: Graph, s: string, t: string, establish: (string, string) -> bool)
    requires GraphValid(g)
    ensures var (g', ok) := VerifySpec(g, s, t, establish);
            && (ok <==> (s in g.edges && t in g.edges[s]) || establish(s, t))
            && s in g'.edges && t in g'.edges
            && (ok <==> t in g'.edges[s] && s in g'.edges[t])
            && (!ok ==> forall x :: x in g'.edges ==> g'.edges[x] == if x in g.edges then g.edges[x] else {})
  {
  }

  /** `_find_alternative_nodes`: every known node but the source and the target, in
      the dict's order. */
  function Alternatives(peers: seq<string>, source: string, target: string): (r: seq<string>)
    ensures forall x :: x in r <==> x in peers && x != source && x != target
    ensures |r| <= |peers|
  {
    if |peers| == 0 then []
    else
      var rest := Alternatives(peers[1..], source, target);
      if peers[0] != source && peers[0] != target then [peers[0]] + rest else rest
  }

  /** The first alternative whose handoff succeeds, with the body it answered. */
  function FirstSuccess(alts: seq<string>, execute: string -> Result<Json>): (r: Option<(string, Json)>)
  {
    if |alts| == 0 then None
    else if execute(alts[0]).Ok? then Some((alts[0], execute(alts[0]).value))
    else FirstSuccess(alts[1..], execute)
  }

  /** The alternatives are tried in order: the answer is the first that succeeds,
      and None only when every one fails. */
  lemma {:induction false} FirstSuccessCharacterized(alts: seq<string>, execute: string -> Result<Json>)
    ensures FirstSuccess(alts, execute).None? <==> forall i :: 0 <= i < |alts| ==> execute(alts[i]).Err?
    ensures FirstSuccess(alts, execute).Some? ==>
              exists k :: 0 <= k < |alts| && FirstSuccess(alts, execute).value.0 == alts[k]
                          && execute(alts[k]) == Ok(FirstSuccess(alts, execute).value.1)
                          && forall i :: 0 <= i < k ==> execute(alts[i]).Err?
  {
    if |alts| > 0 && execute(alts[0]).Err? {
      FirstSuccessCharacterized(alts[1..], execute);
      var r := FirstSuccess(alts, execute);
      if r.Some? {
        var k :| 0 <= k < |alts| - 1 && r.value.0 == alts[1..][k] && execute(alts[1..][k]) == Ok(r.value.1)
                 && forall i :: 0 <= i < k ==> execute(alts[1..][i]).Err?;
        assert r.value.0 == alts[k + 1];
        assert forall i :: 1 <= i < k + 1 ==> execute(alts[i]).Err? by {
          assert forall i :: 1 <= i < k + 1 ==> alts[i] == alts[1..][i - 1];
        }
      }
      assert forall i :: 1 <= i < |alts| ==> alts[i] == alts[1..][i - 1];
    }
  }

  /** `_handle_fallback`: nothing happens once the retries are used up; otherwise
      one more retry is counted and the alternatives are tried in order. The
      session itself never changes target. */
  method HandleFallback(session: Session, peers: seq<string>, execute: string -> Result<Json>)
    returns (session': Session, result: Option<Json>)
    ensures session.retries >= session.maxRetries ==> session' == session && result.None?
    ensures session.retries < session.maxRetries ==>
              && session' == session.(retries := session.retries + 1)
              && var first := FirstSuccess(Alternatives(peers, session.request.sourceNodeId,
                                                        session.request.targetNodeId), execute);
                 result == if first.Some? then Some(first.value.1) else None
  {
    if session.retries >= session.maxRetries {
      return session, None;
    }
    session' := session.(retries := session.retries + 1);
    var alts := Alternatives(peers, session.request.sourceNodeId, session.request.targetNodeId);
    var i := 0;
    while i < |alts|
      invariant 0 <= i <= |alts|
      invariant FirstSuccess(alts[i..], execute) == FirstSuccess(alts, execute)
    {
      assert alts[i..][1..] == alts[i + 1..];
      var r := execute(alts[i]);
      if r.Ok? {
        return session', Some(r.value);
      }
      i := i + 1;
    }
    return session', None;
  }

  // ---------------------------------------------------------------------------
  // `initiate_handoff` as a specification.

  /** The stored session and the response after the connectivity check, the
      handoff and, on failure, the fallback. */
  function InitiateSpec(g: Graph, request: HandoffRequest, now: nat,
                        establish: (string, string) -> bool, execute: string -> Result<Json>)
    : (r: (Graph, Session, Response))
  {
    var id := HandoffId(request.taskId, now);
    var started := Session(id, request, Pending, now, None, None, None, 0, DefaultMaxRetries);
    var (g', ok) := VerifySpec(g, request.sourceNodeId, request.targetNodeId, establish);
    var outcome := if ok then execute(request.targetNodeId) else Err(NotConnected);
    if outcome.Ok? then
      (g', started.(status := InProgress, result := Some(outcome.value), endTime := Some(now)),
       Response(id, Completed, Some(outcome.value), None, false))
    else
      var failed := started.(status := Failed, error := Some(outcome.msg), retries := 1);
      var first := FirstSuccess(Alternatives(g'.peers, request.sourceNodeId, request.targetNodeId), execute);
      if first.Some? && |first.value.1| > 0 then
        (g', failed, Response(id, Completed, Some(first.value.1), None, true))
      else
        (g', failed, Response(id, Failed, None, Some(outcome.msg), false))
  }

  /** What a handoff leaves behind: the stored session is never COMPLETED, even when
      the response says so; it is IN_PROGRESS with the result exactly when the target
      answered, and FAILED with one retry used otherwise; a FAILED response carries
      the error of the first attempt, and unconnected nodes fail with "Nodes are not
      connected" when no alternative answers. */
  lemma InitiateOutcomes(g: Graph, request: HandoffRequest, now: nat,
                         establish: (string, string) -> bool, execute: string -> Result<Json>)
    requires GraphValid(g)
    ensures var (g', session, response) := InitiateSpec(g, request, now, establish, execute);
            var connected := VerifySpec(g, request.sourceNodeId, request.targetNodeId, establish).1;
            && GraphValid(g')
            && session.status != Completed
            && (session.status == InProgress <==> connected && execute(request.targetNodeId).Ok?)
            && (session.status != InProgress ==> session.status == Failed && session.retries == 1)
            && (session.status == InProgress ==> response.status == Completed && !response.fallbackUsed
                                                 && session.result == response.result)
            && (response.status == Failed ==> response.error == session.error && session.error.Some?)
            && (!connected && response.status == Failed ==> response.error == Some(NotConnected))
            && (response.status == Completed || response.status == Failed)
            && session.handoffId == response.handoffId == HandoffId(request.taskId, now)
  {
    VerifyEffects(g, request.sourceNodeId, request.targetNodeId, establish);
    VerifyKeepsGraph(g, request.sourceNodeId, request.targetNodeId, establish);
    VerifyKeepsConnections(g, request.sourceNodeId, request.targetNodeId, establish);
  }

  /** A fallback never sends the task back to its source or to the target that
      failed. */
  lemma FallbackAvoidsSourceAndTarget(peers: seq<string>, request: HandoffRequest, execute: string -> Result<Json>)
    ensures var first := FirstSuccess(Alternatives(peers, request.sourceNodeId, request.targetNodeId), execute);
            first.Some? ==> first.value.0 != request.sourceNodeId && first.value.0 != request.targetNodeId
                            && first.value.0 in peers
  {
    var alts := Alternatives(peers, request.sourceNodeId, request.targetNodeId);
    FirstSuccessCharacterized(alts, execute);
  }

  // ---------------------------------------------------------------------------
  // The retention sweep.

  predicate Expired(s: Session, now: int)
  {
    (s.status == Completed || s.status == Failed) && now - s.startTime > SessionRetention
  }

  function ExpiredIds(sessions: map<string, Session>, now: int): set<string>
  {
    set id | id in sessions && Expired(sessions[id], now)
  }

  /** Sessions whose handoff went through stay IN_PROGRESS and so are never swept,
      however old they are; failed ones go once they are an hour old. */
  lemma SweepKeepsSuccessfulSessions(g: Graph, request: HandoffRequest, start: nat,
                                     establish: (string, string) -> bool, execute: string -> Result<Json>,
                                     sessions: map<string, Session>, now: int)
    requires var s := InitiateSpec(g, request, start, establish, execute).1;
             s.handoffId in sessions && sessions[s.handoffId] == s
    ensures var s := InitiateSpec(g, request, start, establish, execute).1;
            s.status == InProgress ==> s.handoffId !in ExpiredIds(sessions, now)
    ensures var s := InitiateSpec(g, request, start, establish, execute).1;
            s.status == Failed && now - start > SessionRetention ==> s.handoffId in ExpiredIds(sessions, now)
  {
  }

  /** `_verify_node_connection`, step by step. */
  method Verify(g: Graph, s: string, t: string, establish: (string, string) -> bool)
    returns (g': Graph, ok: bool)
    ensures (g', ok) == VerifySpec(g, s, t, establish)
  {
    g' := g;
    if s !in g'.edges {
      g' := Graph(g'.peers + [s], g'.edges[s := {}]);
    }
    if t !in g'.edges {
      g' := Graph(g'.peers + [t], g'.edges[t := {}]);
    }
    if t in g'.edges[s] {
      return g', true;
    }
    if !establish(s, t) {
      return g', false;
    }
    g' := g'.(edges := g'.edges[s := g'.edges[s] + {t}]);
    g' := g'.(edges := g'.edges[t := g'.edges[t] + {s}]);
    return g', true;
  }

  /** The body of `initiate_handoff` on the graph and the new session. */
  method Initiate(g: Graph, request: HandoffRequest, now: nat, establish: (string, string) -> bool,
                  execute: string -> Result<Json>) returns (g': Graph, session: Session, response: Response)
    ensures (g', session, response) == InitiateSpec(g, request, now, establish, execute)
  {
    var id := HandoffId(request.taskId, now);
    session := Session(id, request, Pending, now, None, None, None, 0, DefaultMaxRetries);
    var ok;
    g', ok := Verify(g, request.sourceNodeId, request.targetNodeId, establish);
    var outcome: Result<Json>;
    if ok {
      session := session.(status := InProgress);
      outcome := execute(request.targetNodeId);
    } else {
      outcome := Err(NotConnected);
    }
    if outcome.Ok? {
      session := session.(result := Some(outcome.value), endTime := Some(now));
      return g', session, Response(id, Completed, Some(outcome.value), None, false);
    }
    session := session.(status := Failed, error := Some(outcome.msg));
    var fallback: Option<Json>;
    session, fallback := HandleFallback(session, g'.peers, execute);
    if fallback.Some? && |fallback.value| > 0 {
      return g', session, Response(id, Completed, fallback, None, true);
    }
    return g', session, Response(id, Failed, None, Some(outcome.msg), false);
  }

  class P2PHandoff {
    var sessions: map<string, Session>
    var graph: Graph
    /** The keys of `session_locks`. */
    var locks: set<string>

    ghost predicate Valid()
      reads this
    {
      GraphValid(graph) && sessions.Keys == locks
    }

    constructor ()
      ensures Valid() && sessions == map[] && graph == Graph([], map[]) && locks == {}
    {
      sessions := map[];
      graph := Graph([], map[]);
      locks := {};
    }

    /** `_verify_node_connection`. */
    method VerifyNodeConnection(s: string, t: string, establish: (string, string) -> bool) returns (ok: bool)
      modifies this
      requires Valid()
      ensures Valid()
      ensures (graph, ok) == VerifySpec(old(graph), s, t, establish)
      ensures sessions == old(sessions) && locks == old(locks)
    {
      VerifyKeepsGraph(graph, s, t, establish);
      graph, ok := Verify(graph, s, t, establish);
    }

    /** `initiate_handoff`: a new lock and session under the handoff id (replacing a
        session of the same task started in the same second), then the check, the
        handoff and the fallback. */
    method InitiateHandoff(request: HandoffRequest, now: nat, establish: (string, string) -> bool,
                           execute: string -> Result<Json>) returns (response: Response)
      modifies this
      requires Valid()
      ensures Valid()
      ensures var (g', session, r) := InitiateSpec(old(graph), request, now, establish, execute);
              && graph == g' && response == r
              && sessions == old(sessions)[session.handoffId := session]
              && locks == old(locks) + {session.handoffId}
    {
      InitiateOutcomes(graph, request, now, establish, execute);
      var session;
      graph, session, response := Initiate(graph, request, now, establish, execute);
      locks := locks + {session.handoffId};
      sessions := sessions[session.handoffId := session];
    }

    /** One pass of `_cleanup_expired_sessions`: exactly the COMPLETED and FAILED
        sessions started more than an hour ago go, with their locks. */
    method CleanupExpiredSessions(now: int)
      modifies this
      requires Valid()
      ensures Valid()
      ensures sessions == old(sessions) - ExpiredIds(old(sessions), now)
      ensures locks == old(locks) - ExpiredIds(old(sessions), now)
      ensures graph == old(graph)
    {
      var expired := ExpiredIds(sessions, now);
      sessions := sessions - expired;
      locks := locks - expired;
    }
  }
}
