/** The handoff manager (hub/services/p2p_handoff_manager.py): choosing a target for
    an overloaded node, choosing a source and target pair, starting the handoff
    through the P2P service, and the table of handoffs it tracks.

    The nodes considered are those `get_available_nodes` returns for the
    requirements {"model_support": model, "status": "online"}, and the connection
    counts are read from the P2P service's graph. */
module HandoffManaging {
  import opened Common
  import opened NodeDiscovery
  import opened P2PHandoffService

  const NoTarget: string := "No suitable target node found for handoff"
  const NoPair: string := "Could not find suitable nodes for handoff"
  /** The priority `handle_overload` gives its requests. */
  const OverloadPriority: int := 2

  /** The requirements both searches pass to `get_available_nodes`, in that order. */
  function Required(model: string): seq<(string, CapValue)>
  {
    [("model_support", Other(model)), ("status", Other("online"))]
  }

  // ---------------------------------------------------------------------------
  // The ranking key.

  const TypeError: string := "TypeError"

  /** `capabilities.get(key, 0)`: the stored value, a text staying a text. */
  function CapGet(caps: map<string, CapValue>, key: string): CapValue
  {
    if key in caps then caps[key] else Num(0.0)
  }

  /** Python truthiness of a capability value. */
  predicate Truthy(v: CapValue)
  {
    if v.Num? then v.n != 0.0 else |v.text| > 0
  }

  /** Python's `a < b` on capability values: numbers by value, texts in string
      order, and a text against a number raises TypeError. */
  function Compare(a: CapValue, b: CapValue): Result<bool>
  {
    if a.Num? && b.Num? then Ok(a.n < b.n)
    else if a.Other? && b.Other? then Ok(LexLess(a.text, b.text))
    else Err(TypeError)
  }

  /** `<` on capability values compares exactly two values of one kind, and on them
      it is irreflexive, asymmetric and total. */
  lemma CompareOrder(a: CapValue, b: CapValue)
    ensures Compare(a, a) == Ok(false)
    ensures Compare(a, b).Ok? <==> (a.Num? <==> b.Num?)
    ensures Compare(a, b) == Ok(true) ==> Compare(b, a) == Ok(false)
    ensures Compare(a, b) == Ok(false) && a != b ==> Compare(b, a) == Ok(true)
  {
    if a.Other? {
      LexLessIrreflexive(a.text);
      if b.Other? {
        if LexLess(a.text, b.text) && LexLess(b.text, a.text) {
          LexLessTransitive(a.text, b.text, a.text);
        }
        if a.text != b.text {
          LexLessTotal(a.text, b.text);
        }
      }
    }
  }

  lemma CompareTransitive(a: CapValue, b: CapValue, c: CapValue)
    requires Compare(a, b) == Ok(true) && Compare(b, c) == Ok(true)
    ensures Compare(a, c) == Ok(true)
  {
    if a.Other? {
      LexLessTransitive(a.text, b.text, c.text);
    }
  }

  /** The sort key of both searches, one field per entry of the key tuple:
      available memory, minus the connection count, and GPU memory when the node
      says it has a GPU. */
  datatype Rank = Rank(memory: CapValue, negLinks: int, gpu: CapValue)

  function RankOf(n: NodeInfo, edges: map<string, set<string>>): Rank
  {
    Rank(CapGet(n.capabilities, "available_memory"),
         -(if n.nodeId in edges then |edges[n.nodeId]| else 0),
         if "gpu_available" in n.capabilities && Truthy(n.capabilities["gpu_available"])
         then CapGet(n.capabilities, "gpu_memory") else Num(0.0))
  }

  /** Python's `<` on key tuples: the first entries that differ decide (and raise
      when they are a text and a number); equal tuples are not below each other. */
  function RankLess(a: Rank, b: Rank): Result<bool>
  {
    if a.memory != b.memory then Compare(a.memory, b.memory)
    else if a.negLinks != b.negLinks then Ok(a.negLinks < b.negLinks)
    else if a.gpu != b.gpu then Compare(a.gpu, b.gpu)
    else Ok(false)
  }

  /** Wherever `<` on key tuples does not raise, it is irreflexive, asymmetric and
      total, and it raises for `a < b` exactly when it raises for `b < a`. */
  lemma RankOrder(a: Rank, b: Rank)
    ensures RankLess(a, a) == Ok(false)
    ensures RankLess(a, b).Ok? <==> RankLess(b, a).Ok?
    ensures RankLess(a, b) == Ok(true) ==> RankLess(b, a) == Ok(false)
    ensures RankLess(a, b) == Ok(false) && a != b ==> RankLess(b, a) == Ok(true)
  {
    CompareOrder(a.memory, b.memory);
    CompareOrder(b.memory, a.memory);
    CompareOrder(a.gpu, b.gpu);
    CompareOrder(b.gpu, a.gpu);
  }

  lemma RankTransitive(a: Rank, b: Rank, c: Rank)
    requires RankLess(a, b) == Ok(true) && RankLess(b, c) == Ok(true)
    ensures RankLess(a, c) == Ok(true)
  {
    CompareOrder(a.memory, c.memory);
    CompareOrder(a.gpu, c.gpu);
    if a.memory != b.memory && b.memory != c.memory {
      CompareTransitive(a.memory, b.memory, c.memory);
    }
    if a.memory == b.memory == c.memory && a.negLinks == b.negLinks == c.negLinks
       && a.gpu != b.gpu && b.gpu != c.gpu {
      CompareTransitive(a.gpu, b.gpu, c.gpu);
    }
  }

  function Ranks(ns: seq<NodeInfo>, edges: map<string, set<string>>): (r: seq<Rank>)
    ensures |r| == |ns| && forall i :: 0 <= i < |ns| ==> r[i] == RankOf(ns[i], edges)
  {
    seq(|ns|, i requires 0 <= i < |ns| => RankOf(ns[i], edges))
  }

  /** The key of the source search: available memory alone. */
  function MemoryRank(n: NodeInfo): Rank
  {
    Rank(CapGet(n.capabilities, "available_memory"), 0, Num(0.0))
  }

  function MemoryRanks(ns: seq<NodeInfo>): (r: seq<Rank>)
    ensures |r| == |ns| && forall i :: 0 <= i < |ns| ==> r[i] == MemoryRank(ns[i])
  {
    seq(|ns|, i requires 0 <= i < |ns| => MemoryRank(ns[i]))
  }

  /** No two keys raise when compared. */
  predicate AllComparable(keys: seq<Rank>)
  {
    forall i, j :: 0 <= i < |keys| && 0 <= j < |keys| ==> RankLess(keys[i], keys[j]).Ok?
  }

  /** Where `max` lands: it keeps the first key and moves to a later one only when
      that one is above (`key(x) > key(m)`, that is `m < x`); a comparison that
      raises ends it with TypeError. */
  function FirstMax(keys: seq<Rank>): (r: Result<nat>)
    requires |keys| > 0
    ensures r.Ok? ==> r.value < |keys|
    ensures r.Err? ==> r.msg == TypeError
    decreases |keys|
  {
    if |keys| == 1 then Ok(0)
    else
      var prev := FirstMax(keys[..|keys| - 1]);
      if prev.Err? then prev
      else
        var above := RankLess(keys[prev.value], keys[|keys| - 1]);
        if above.Err? then Err(above.msg)
        else Ok(if above.value then |keys| - 1 else prev.value)
  }

  /** When `max` returns, no key is above the one it chose and every earlier key is
      below it: it is the first of the maximal keys. It returns whenever no two keys
      raise when compared. */
  lemma {:induction false} FirstMaxChosen(keys: seq<Rank>)
    requires |keys| > 0
    ensures AllComparable(keys) ==> FirstMax(keys).Ok?
    ensures var r := FirstMax(keys);
            r.Ok? ==> && (forall i :: 0 <= i < |keys| ==> RankLess(keys[r.value], keys[i]) == Ok(false))
                      && (forall i :: 0 <= i < r.value ==> RankLess(keys[i], keys[r.value]) == Ok(true))
    decreases |keys|
  {
    if |keys| == 1 {
      RankOrder(keys[0], keys[0]);
    } else {
      var init := keys[..|keys| - 1];
      var x := keys[|keys| - 1];
      assert forall i :: 0 <= i < |init| ==> init[i] == keys[i];
      FirstMaxChosen(init);
      var prev := FirstMax(init);
      if prev.Ok? {
        var m := prev.value;
        var above := RankLess(keys[m], x);
        if above == Ok(true) {
          forall i | 0 <= i < |keys|
            ensures RankLess(keys[i], x) == Ok(true) || i == |keys| - 1
          {
            if i < |keys| - 1 {
              assert RankLess(keys[m], keys[i]) == Ok(false);
              RankOrder(keys[m], keys[i]);
              if keys[i] != keys[m] {
                RankTransitive(keys[i], keys[m], x);
              }
            }
          }
          forall i | 0 <= i < |keys|
            ensures RankLess(x, keys[i]) == Ok(false)
          {
            RankOrder(keys[i], x);
          }
        } else if above == Ok(false) {
          RankOrder(keys[m], x);
        }
      }
    }
  }

  /** The head of `sorted(keys, reverse=True)`. A sort that finishes has compared
      every two neighbours of its output, and through those comparisons every two
      keys are ordered; so the sort raises exactly when some two keys cannot be
      compared. Otherwise the stable descending sort puts the first of the maximal
      keys first, where `max` lands too. */
  function SortedHead(keys: seq<Rank>): (r: Result<nat>)
    requires |keys| > 0
    ensures r.Ok? ==> r.value < |keys|
    ensures r.Err? ==> r.msg == TypeError
  {
    if AllComparable(keys) then FirstMax(keys) else Err(TypeError)
  }

  // ---------------------------------------------------------------------------
  // The two searches.

  /** The nodes whose id is not `id`, in order. */
  function Others(ns: seq<NodeInfo>, id: string): (r: seq<NodeInfo>)
    ensures forall n :: n in r <==> n in ns && n.nodeId != id
  {
    if |ns| == 0 then []
    else
      var rest := Others(ns[1..], id);
      assert forall n :: n in ns <==> n == ns[0] || n in ns[1..];
      if ns[0].nodeId != id then [ns[0]] + rest else rest
  }

  /** `_find_best_target_node` on the nodes found: nothing when no node other than
      the source is available, otherwise the head of the candidates sorted by rank,
      best first, or the TypeError the sort raises. */
  function BestTarget(available: seq<NodeInfo>, edges: map<string, set<string>>, source: string)
    : Result<Option<NodeInfo>>
  {
    var candidates := Others(available, source);
    if |candidates| == 0 then Ok(None)
    else
      var head := SortedHead(Ranks(candidates, edges));
      if head.Err? then Err(head.msg) else Ok(Some(candidates[head.value]))
  }

  /** Two nodes of the list whose keys raise when compared. */
  predicate Mixed(ns: seq<NodeInfo>, edges: map<string, set<string>>)
  {
    exists i, j :: 0 <= i < |ns| && 0 <= j < |ns| && RankLess(RankOf(ns[i], edges), RankOf(ns[j], edges)).Err?
  }

  lemma MixedIsIncomparable(ns: seq<NodeInfo>, edges: map<string, set<string>>)
    ensures Mixed(ns, edges) <==> !AllComparable(Ranks(ns, edges))
  {
    var ranks := Ranks(ns, edges);
    if !AllComparable(ranks) {
      var i, j :| 0 <= i < |ranks| && 0 <= j < |ranks| && RankLess(ranks[i], ranks[j]).Err?;
      assert RankLess(RankOf(ns[i], edges), RankOf(ns[j], edges)).Err?;
    }
  }

  lemma MixedWithin(sub: seq<NodeInfo>, ns: seq<NodeInfo>, edges: map<string, set<string>>)
    requires forall n :: n in sub ==> n in ns
    requires Mixed(sub, edges)
    ensures Mixed(ns, edges)
  {
    var i, j :| 0 <= i < |sub| && 0 <= j < |sub| && RankLess(RankOf(sub[i], edges), RankOf(sub[j], edges)).Err?;
    assert sub[i] in ns && sub[j] in ns;
    var i', j' :| 0 <= i' < |ns| && ns[i'] == sub[i] && 0 <= j' < |ns| && ns[j'] == sub[j];
    assert RankLess(RankOf(ns[i'], edges), RankOf(ns[j'], edges)).Err?;
  }

  /** `max` over the ranks of some nodes returns when no two of them raise, and then
      no node ranks above the one it chose. */
  lemma MaxOverNodes(ns: seq<NodeInfo>, edges: map<string, set<string>>)
    requires |ns| > 0
    ensures var t := FirstMax(Ranks(ns, edges));
            && (!Mixed(ns, edges) ==> t.Ok?)
            && (t.Ok? ==> forall n :: n in ns ==> RankLess(RankOf(ns[t.value], edges), RankOf(n, edges)) == Ok(false))
  {
    var ranks := Ranks(ns, edges);
    FirstMaxChosen(ranks);
    MixedIsIncomparable(ns, edges);
    if FirstMax(ranks).Ok? {
      var k := FirstMax(ranks).value;
      forall n | n in ns
        ensures RankLess(RankOf(ns[k], edges), RankOf(n, edges)) == Ok(false)
      {
        var i :| 0 <= i < |ns| && ns[i] == n;
        assert RankLess(ranks[k], ranks[i]) == Ok(false);
      }
    }
  }

  /** `max` over the available memory of some nodes raises only when two of their
      keys raise, and otherwise no node has more memory than the one it chose. */
  lemma MaxOverMemory(ns: seq<NodeInfo>, edges: map<string, set<string>>)
    requires |ns| > 0
    ensures var t := FirstMax(MemoryRanks(ns));
            && (t.Err? ==> Mixed(ns, edges))
            && (t.Ok? ==> forall n :: n in ns ==> RankLess(MemoryRank(ns[t.value]), MemoryRank(n)) == Ok(false))
  {
    var mem := MemoryRanks(ns);
    FirstMaxChosen(mem);
    if FirstMax(mem).Err? {
      var i, j :| 0 <= i < |mem| && 0 <= j < |mem| && RankLess(mem[i], mem[j]).Err?;
      assert RankLess(RankOf(ns[i], edges), RankOf(ns[j], edges)).Err?;
    } else {
      var k := FirstMax(mem).value;
      forall n | n in ns
        ensures RankLess(MemoryRank(ns[k]), MemoryRank(n)) == Ok(false)
      {
        var i :| 0 <= i < |ns| && ns[i] == n;
        assert RankLess(mem[k], mem[i]) == Ok(false);
      }
    }
  }

  /** The search raises TypeError exactly when the keys of two candidates (the
      available nodes other than the source) raise when compared; otherwise nothing
      is found iff no node other than the source is available, and the node found is
      never the source and no other candidate ranks above it. */
  lemma BestTargetChosen(available: seq<NodeInfo>, edges: map<string, set<string>>, source: string)
    ensures var r := BestTarget(available, edges, source);
            && (r.Err? <==> Mixed(Others(available, source), edges))
            && (r.Err? ==> r.msg == TypeError)
            && (r == Ok(None) <==> forall n :: n in available ==> n.nodeId == source)
    ensures var r := BestTarget(available, edges, source);
            r.Ok? && r.value.Some? ==>
              && r.value.value in available && r.value.value.nodeId != source
              && forall n :: n in available && n.nodeId != source ==>
                   RankLess(RankOf(r.value.value, edges), RankOf(n, edges)) == Ok(false)
  {
    var candidates := Others(available, source);
    if |candidates| > 0 {
      MaxOverNodes(candidates, edges);
      MixedIsIncomparable(candidates, edges);
      assert candidates[0] in available;
    }
  }

  /** `next((n for n in nodes if n.node_id == id), None)` as an index. */
  function FirstWithId(ns: seq<NodeInfo>, id: string): (r: Option<nat>)
    ensures r.None? <==> forall n :: n in ns ==> n.nodeId != id
    ensures r.Some? ==> r.value < |ns| && ns[r.value].nodeId == id
                        && forall i :: 0 <= i < r.value ==> ns[i].nodeId != id
  {
    if |ns| == 0 then None
    else if ns[0].nodeId == id then Some(0)
    else
      var rest := FirstWithId(ns[1..], id);
      assert forall n :: n in ns <==> n == ns[0] || n in ns[1..];
      if rest.None? then None else Some(rest.value + 1)
  }

  /** Whether a preferred source applies: a non-empty id (an empty string is false
      in Python) that some available node carries. */
  predicate PreferredFound(available: seq<NodeInfo>, preferred: Option<string>)
  {
    preferred.Some? && preferred.value != "" && FirstWithId(available, preferred.value).Some?
  }

  /** Where the source search lands: the preferred node when it is available,
      otherwise where `max` over the available memory lands. */
  function PairSource(available: seq<NodeInfo>, preferred: Option<string>): (r: Result<nat>)
    requires |available| > 0
    ensures r.Ok? ==> r.value < |available|
    ensures r.Err? ==> r.msg == TypeError
  {
    if PreferredFound(available, preferred) then Ok(FirstWithId(available, preferred.value).value)
    else FirstMax(MemoryRanks(available))
  }

  /** `_find_handoff_pair` on the nodes found: at least two nodes are needed; the
      source is where the source search lands; the target is where `max` over the
      ranks of the nodes with another id lands. Either `max` can raise TypeError. */
  function HandoffPair(available: seq<NodeInfo>, edges: map<string, set<string>>, preferred: Option<string>)
    : Result<Option<(NodeInfo, NodeInfo)>>
  {
    if |available| < 2 then Ok(None)
    else
      var s := PairSource(available, preferred);
      if s.Err? then Err(s.msg)
      else
        var source := available[s.value];
        var targets := Others(available, source.nodeId);
        if |targets| == 0 then Ok(None)
        else
          var t := FirstMax(Ranks(targets, edges));
          if t.Err? then Err(t.msg) else Ok(Some((source, targets[t.value])))
  }

  /** The source search raises only when the keys of two available nodes raise; it
      lands on the preferred node when that one is available, and otherwise on a node
      no node has more available memory than. */
  lemma PairSourceChosen(available: seq<NodeInfo>, edges: map<string, set<string>>, preferred: Option<string>)
    requires |available| > 0
    ensures var s := PairSource(available, preferred);
            && (s.Err? ==> Mixed(available, edges))
            && (s.Ok? && PreferredFound(available, preferred) ==> available[s.value].nodeId == preferred.value)
            && (s.Ok? && !PreferredFound(available, preferred) ==>
                  forall n :: n in available ==> RankLess(MemoryRank(available[s.value]), MemoryRank(n)) == Ok(false))
  {
    MaxOverMemory(available, edges);
  }

  /** The target search, given a source among the available nodes: there is no
      candidate iff all available nodes share one id; otherwise it raises only when
      the keys of two available nodes raise, and the node it lands on has another id
      than the source and no node with another id ranks above it. */
  lemma PairTargetChosen(available: seq<NodeInfo>, source: NodeInfo, edges: map<string, set<string>>)
    requires source in available
    ensures var targets := Others(available, source.nodeId);
            |targets| == 0 <==> forall i, j :: 0 <= i < |available| && 0 <= j < |available| ==>
                                  available[i].nodeId == available[j].nodeId
    ensures var targets := Others(available, source.nodeId);
            |targets| > 0 ==>
              var t := FirstMax(Ranks(targets, edges));
              && (t.Err? ==> Mixed(available, edges))
              && (t.Ok? ==> && targets[t.value] in available && targets[t.value].nodeId != source.nodeId
                            && forall n :: n in available && n.nodeId != source.nodeId ==>
                                 RankLess(RankOf(targets[t.value], edges), RankOf(n, edges)) == Ok(false))
  {
    var targets := Others(available, source.nodeId);
    if |targets| == 0 {
      assert forall i :: 0 <= i < |available| ==> available[i].nodeId == source.nodeId by {
        forall i | 0 <= i < |available|
          ensures available[i].nodeId == source.nodeId
        {
          assert available[i] in available;
        }
      }
    } else {
      MaxOverNodes(targets, edges);
      if Mixed(targets, edges) {
        MixedWithin(targets, available, edges);
      }
      var i :| 0 <= i < |available| && available[i] == targets[0];
      var j :| 0 <= j < |available| && available[j] == source;
      assert available[i].nodeId != available[j].nodeId;
    }
  }

  /** The search raises only TypeError, and only when the keys of some two available
      nodes raise when compared. Otherwise no pair is found iff fewer than two nodes
      are available or they all share one id; the two nodes found differ; the source
      is the preferred node when that one is available, and otherwise no node has
      more available memory; no node with another id than the source ranks above the
      target. */
  lemma HandoffPairChosen(available: seq<NodeInfo>, edges: map<string, set<string>>, preferred: Option<string>)
    ensures var r := HandoffPair(available, edges, preferred);
            r.Err? ==> && r.msg == TypeError && |available| >= 2 && Mixed(available, edges)
    ensures var r := HandoffPair(available, edges, preferred);
            r.Ok? ==> (r.value.None? <==>
                         || |available| < 2
                         || forall i, j :: 0 <= i < |available| && 0 <= j < |available| ==>
                              available[i].nodeId == available[j].nodeId)
    ensures var r := HandoffPair(available, edges, preferred);
            r.Ok? && r.value.Some? ==>
              var (source, target) := r.value.value;
              && source in available && target in available
              && source.nodeId != target.nodeId
              && (PreferredFound(available, preferred) ==> source.nodeId == preferred.value)
              && (!PreferredFound(available, preferred) ==>
                    forall n :: n in available ==> RankLess(MemoryRank(source), MemoryRank(n)) == Ok(false))
              && forall n :: n in available && n.nodeId != source.nodeId ==>
                   RankLess(RankOf(target, edges), RankOf(n, edges)) == Ok(false)
  {
    if |available| >= 2 {
      PairSourceChosen(available, edges, preferred);
      var s := PairSource(available, preferred);
      if s.Ok? {
        PairTargetChosen(available, available[s.value], edges);
      }
    }
  }

  /** A number and a text as available memory make both keys raise when compared. */
  lemma MemoryKindsClash(a: NodeInfo, b: NodeInfo, edges: map<string, set<string>>)
    requires CapGet(a.capabilities, "available_memory").Num?
    requires CapGet(b.capabilities, "available_memory").Other?
    ensures RankLess(RankOf(a, edges), RankOf(b, edges)) == Err(TypeError)
    ensures RankLess(MemoryRank(a), MemoryRank(b)) == Err(TypeError)
  {
  }

  /** Two candidates, one reporting its available memory as a number and the other
      as a text: the target search raises TypeError. */
  lemma TextAgainstNumberRaises(a: NodeInfo, b: NodeInfo, edges: map<string, set<string>>, source: string)
    requires a.nodeId != source && b.nodeId != source
    requires CapGet(a.capabilities, "available_memory").Num?
    requires CapGet(b.capabilities, "available_memory").Other?
    ensures BestTarget([a, b], edges, source) == Err(TypeError)
  {
    BestTargetChosen([a, b], edges, source);
    MemoryKindsClash(a, b, edges);
    var c := Others([a, b], source);
    assert a in c && b in c;
    var i, j :| 0 <= i < |c| && c[i] == a && 0 <= j < |c| && c[j] == b;
    assert RankLess(RankOf(c[i], edges), RankOf(c[j], edges)).Err?;
  }

  /** The same two nodes, searched for a pair without a preferred source: `max` over
      the available memory raises TypeError. */
  lemma TextAgainstNumberPairRaises(a: NodeInfo, b: NodeInfo, edges: map<string, set<string>>)
    requires CapGet(a.capabilities, "available_memory").Num?
    requires CapGet(b.capabilities, "available_memory").Other?
    ensures HandoffPair([a, b], edges, None) == Err(TypeError)
  {
    MemoryKindsClash(a, b, edges);
    var mem := MemoryRanks([a, b]);
    assert mem[..1] == [MemoryRank(a)] && mem[1] == MemoryRank(b);
    assert FirstMax(mem) == Err(TypeError);
  }

  // ---------------------------------------------------------------------------
  // The manager.

  /** An entry of `_active_handoffs`. */
  datatype HandoffRecord = HandoffRecord(
    handoffId: string,
    status: HandoffStatus,
    timestamp: int,
    sourceNode: string,
    targetNode: string)

  /** The dict both entry points answer with; `handle_overload` has no source key. */
  datatype Reply = Reply(
    status: HandoffStatus,
    handoffId: string,
    sourceNode: Option<string>,
    targetNode: string,
    result: Option<Json>)

  /** The statuses `cleanup_handoff` removes. */
  predicate Finished(s: HandoffStatus)
  {
    s == Completed || s == Failed || s == Cancelled
  }

  /** The target `handle_overload` settles on, or the error it raises. */
  function OverloadTarget(available: Result<seq<NodeInfo>>, edges: map<string, set<string>>, source: string)
    : Result<NodeInfo>
  {
    if available.Err? then Err(available.msg)
    else
      var t := BestTarget(available.value, edges, source);
      if t.Err? then Err(t.msg)
      else if t.value.None? then Err(NoTarget)
      else Ok(t.value.value)
  }

  /** The pair `coordinate_handoff` settles on, or the error it raises. */
  function CoordinatedPair(available: Result<seq<NodeInfo>>, edges: map<string, set<string>>,
                           preferred: Option<string>): Result<(NodeInfo, NodeInfo)>
  {
    if available.Err? then Err(available.msg)
    else
      var p := HandoffPair(available.value, edges, preferred);
      if p.Err? then Err(p.msg)
      else if p.value.None? then Err(NoPair)
      else Ok(p.value.value)
  }

  /** Every handoff the manager records ends COMPLETED or FAILED, so
      `cleanup_handoff` right after it forgets the task; a record still PENDING or
      IN_PROGRESS is never removed. */
  lemma RecordedHandoffIsCleanable(g: Graph, request: HandoffRequest, now: nat,
                                   establish: (string, string) -> bool, execute: string -> Result<Json>)
    requires GraphValid(g)
    ensures Finished(InitiateSpec(g, request, now, establish, execute).2.status)
    ensures !Finished(Pending) && !Finished(InProgress)
  {
    InitiateOutcomes(g, request, now, establish, execute);
  }

  /** The manager's state after a handoff is started and recorded. */
  datatype Handed = Handed(graph: Graph, sessions: map<string, Session>, locks: set<string>,
                           active: map<string, HandoffRecord>, reply: Reply)

  /** Both entry points end the same way: the P2P service runs the request, the
      session is stored and locked, the task's record is (re)written with the
      response, and the reply carries the result only when the handoff completed;
      `coordinate_handoff` also names the source in its reply. */
  function HandSpec(graph: Graph, sessions: map<string, Session>, locks: set<string>,
                    active: map<string, HandoffRecord>, request: HandoffRequest, namesSource: bool,
                    now: nat, establish: (string, string) -> bool, execute: string -> Result<Json>): Handed
  {
    var (g', session, response) := InitiateSpec(graph, request, now, establish, execute);
    Handed(g', sessions[session.handoffId := session], locks + {session.handoffId},
           active[request.taskId := HandoffRecord(response.handoffId, response.status, now,
                                                  request.sourceNodeId, request.targetNodeId)],
           Reply(response.status, response.handoffId, if namesSource then Some(request.sourceNodeId) else None,
                 request.targetNodeId, if response.status == Completed then response.result else None))
  }

  class HandoffManager {
    var p2p: P2PHandoff
    var discovery: NodeDirectory
    var active: map<string, HandoffRecord>

    ghost predicate Valid()
      reads this, p2p, discovery
    {
      p2p.Valid() && discovery.Valid()
    }

    constructor ()
      ensures Valid() && fresh(p2p) && fresh(discovery) && active == map[]
      ensures p2p.sessions == map[] && p2p.graph == Graph([], map[])
      ensures discovery.nodes == map[] && discovery.nodeTimeout == DefaultNodeTimeout
    {
      p2p := new P2PHandoff();
      discovery := new NodeDirectory(DefaultNodeTimeout);
      active := map[];
    }

    /** The common end of both entry points: start the handoff and record it. */
    method Hand(request: HandoffRequest, namesSource: bool, now: nat,
                establish: (string, string) -> bool, execute: string -> Result<Json>) returns (reply: Reply)
      modifies this, p2p
      requires Valid()
      ensures Valid() && p2p == old(p2p) && discovery == old(discovery)
      ensures var h := HandSpec(old(p2p.graph), old(p2p.sessions), old(p2p.locks), old(active), request, namesSource,
                                now, establish, execute);
              && p2p.graph == h.graph && p2p.sessions == h.sessions && p2p.locks == h.locks
              && active == h.active && reply == h.reply
    {
      var response := p2p.InitiateHandoff(request, now, establish, execute);
      active := active[request.taskId := HandoffRecord(response.handoffId, response.status, now,
                                                       request.sourceNodeId, request.targetNodeId)];
      reply := Reply(response.status, response.handoffId, if namesSource then Some(request.sourceNodeId) else None,
                     request.targetNodeId, if response.status == Completed then response.result else None);
    }

    /** `handle_overload`: find a target other than the overloaded node, hand the
        task to it at priority 2, and record the handoff under the task id. Without a
        target (or when the search raises) nothing changes and the error propagates. */
    method HandleOverload(nodeId: string, taskId: string, model: string, order: seq<string>, now: nat,
                          establish: (string, string) -> bool, execute: string -> Result<Json>)
      returns (r: Result<Reply>)
      modifies this, p2p
      requires Valid()
      requires Distinct(order) && forall id :: id in order <==> id in discovery.nodes
      ensures Valid() && p2p == old(p2p) && discovery == old(discovery)
      ensures var pick := OverloadTarget(AvailableSpec(old(discovery.nodes), order, Required(model)),
                                         old(p2p.graph).edges, nodeId);
              pick.Err? ==> && r == Err(pick.msg) && active == old(active)
                            && p2p.graph == old(p2p.graph) && p2p.sessions == old(p2p.sessions)
                            && p2p.locks == old(p2p.locks)
      ensures var pick := OverloadTarget(AvailableSpec(old(discovery.nodes), order, Required(model)),
                                         old(p2p.graph).edges, nodeId);
              pick.Ok? ==>
                var request := HandoffRequest(taskId, nodeId, pick.value.nodeId, model, OverloadPriority, DefaultTimeout);
                var h := HandSpec(old(p2p.graph), old(p2p.sessions), old(p2p.locks), old(active), request, false,
                                  now, establish, execute);
                && p2p.graph == h.graph && p2p.sessions == h.sessions && p2p.locks == h.locks
                && active == h.active && r == Ok(h.reply)
    {
      var available := discovery.GetAvailableNodes(order, Required(model));
      if available.Err? {
        return Err(available.msg);
      }
      var target := BestTarget(available.value, p2p.graph.edges, nodeId);
      if target.Err? {
        return Err(target.msg);
      }
      if target.value.None? {
        return Err(NoTarget);
      }
      var request := HandoffRequest(taskId, nodeId, target.value.value.nodeId, model, OverloadPriority, DefaultTimeout);
      var reply := Hand(request, false, now, establish, execute);
      r := Ok(reply);
    }

    /** `coordinate_handoff`: find a source and target pair, hand the task over at
        the default priority, and record the handoff under the task id. */
    method CoordinateHandoff(taskId: string, model: string, preferred: Option<string>, order: seq<string>,
                             now: nat, establish: (string, string) -> bool, execute: string -> Result<Json>)
      returns (r: Result<Reply>)
      modifies this, p2p
      requires Valid()
      requires Distinct(order) && forall id :: id in order <==> id in discovery.nodes
      ensures Valid() && p2p == old(p2p) && discovery == old(discovery)
      ensures var pair := CoordinatedPair(AvailableSpec(old(discovery.nodes), order, Required(model)),
                                          old(p2p.graph).edges, preferred);
              pair.Err? ==> && r == Err(pair.msg) && active == old(active)
                            && p2p.graph == old(p2p.graph) && p2p.sessions == old(p2p.sessions)
                            && p2p.locks == old(p2p.locks)
      ensures var pair := CoordinatedPair(AvailableSpec(old(discovery.nodes), order, Required(model)),
                                          old(p2p.graph).edges, preferred);
              pair.Ok? ==>
                var request := HandoffRequest(taskId, pair.value.0.nodeId, pair.value.1.nodeId, model,
                                              DefaultPriority, DefaultTimeout);
                var h := HandSpec(old(p2p.graph), old(p2p.sessions), old(p2p.locks), old(active), request, true,
                                  now, establish, execute);
                && p2p.graph == h.graph && p2p.sessions == h.sessions && p2p.locks == h.locks
                && active == h.active && r == Ok(h.reply)
    {
      var available := discovery.GetAvailableNodes(order, Required(model));
      if available.Err? {
        return Err(available.msg);
      }
      var pair := HandoffPair(available.value, p2p.graph.edges, preferred);
      if pair.Err? {
        return Err(pair.msg);
      }
      if pair.value.None? {
        return Err(NoPair);
      }
      var (source, target) := pair.value.value;
      var request := HandoffRequest(taskId, source.nodeId, target.nodeId, model, DefaultPriority, DefaultTimeout);
      var reply := Hand(request, true, now, establish, execute);
      r := Ok(reply);
    }

    /** `get_handoff_status`: the record of the task, or the error for an unknown one. */
    function GetHandoffStatus(taskId: string): (r: Result<HandoffRecord>)
      reads this
      ensures r.Ok? <==> taskId in active
      ensures r.Ok? ==> r.value == active[taskId]
    {
      if taskId in active then Ok(active[taskId])
      else Err("No active handoff found for task " + taskId)
    }

    /** `cleanup_handoff`: the record goes only when its handoff is COMPLETED, FAILED
        or CANCELLED; every other record stays. */
    method CleanupHandoff(taskId: string)
      modifies this
      ensures p2p == old(p2p) && discovery == old(discovery)
      ensures taskId in old(active) && Finished(old(active)[taskId].status) ==> active == old(active) - {taskId}
      ensures !(taskId in old(active) && Finished(old(active)[taskId].status)) ==> active == old(active)
    {
      if taskId in active {
        var info := active[taskId];
        if Finished(info.status) {
          active := active - {taskId};
        }
      }
    }
  }
}
