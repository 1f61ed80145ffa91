/** The agent's model manager (agent/model_manager.py): which models are loaded, when
    each was last used, least-recently-used eviction to make room, auto-loading from
    the registry, unloading and the age-based cleanup.

    Loading itself (tokenizer and weights, the memory it took, the device it landed
    on) is an outcome passed in; psutil's available-memory readings and the clock are
    parameters. Times are whole seconds, and a model with no recorded use sorts
    before every real time, as `datetime.min` does. */
module ModelManaging {
  import opened Common
  import opened ModelRegistering

  const SecondsPerHour: int := 3600

  /** The key of a model never used: below every real time. */
  const NeverUsed: int := -1

  datatype LoadedModel = LoadedModel(config: ModelConfig, memoryUsageGb: real, loadedAt: nat, device: string)

  /** What a successful load reports: the memory it took and the device. */
  datatype LoadOutcome = LoadOutcome(memoryUsageGb: real, device: string)

  /** `loaded_models` (with its keys in insertion order) and `last_used`. */
  datatype ManagerState = ManagerState(loaded: map<string, LoadedModel>, lastUsed: map<string, nat>, order: seq<string>)

  /** The order lists the loaded models once each, and exactly the loaded models have
      a last use: loading records one and unloading drops both. */
  ghost predicate Consistent(s: ManagerState)
  {
    && Distinct(s.order)
    && (forall x :: x in s.order <==> x in s.loaded)
    && s.lastUsed.Keys == s.loaded.Keys
  }

  // ---------------------------------------------------------------------------
  // Memory.

  /** `get_model_memory_usage`: 0 for a model not loaded. */
  function Usage(loaded: map<string, LoadedModel>, id: string): (r: real)
    ensures id !in loaded ==> r == 0.0
    ensures id in loaded ==> r == loaded[id].memoryUsageGb
  {
    if id in loaded then loaded[id].memoryUsageGb else 0.0
  }

  function Usages(loaded: map<string, LoadedModel>, ids: seq<string>): (r: seq<real>)
    ensures |r| == |ids|
    ensures forall i :: 0 <= i < |ids| ==> r[i] == Usage(loaded, ids[i])
  {
    if |ids| == 0 then [] else Usages(loaded, ids[..|ids| - 1]) + [Usage(loaded, ids[|ids| - 1])]
  }

  /** `get_total_model_memory`. */
  function TotalMemory(s: ManagerState): real
  {
    SumReals(Usages(s.loaded, s.order))
  }

  lemma {:induction false} SumRealsCons(x: real, v: seq<real>)
    ensures SumReals([x] + v) == x + SumReals(v)
  {
    if |v| > 0 {
      var n := |v|;
      SumRealsCons(x, v[..n - 1]);
      assert ([x] + v)[..n] == [x] + v[..n - 1];
    }
  }

  lemma SumUsagesCons(loaded: map<string, LoadedModel>, a: string, rest: seq<string>)
    ensures SumReals(Usages(loaded, [a] + rest)) == Usage(loaded, a) + SumReals(Usages(loaded, rest))
  {
    assert Usages(loaded, [a] + rest) == [Usage(loaded, a)] + Usages(loaded, rest);
    SumRealsCons(Usage(loaded, a), Usages(loaded, rest));
  }

  lemma UsagesIgnore(loaded: map<string, LoadedModel>, ids: seq<string>, id: string)
    requires id !in ids
    ensures Usages(loaded - {id}, ids) == Usages(loaded, ids)
  {
  }

  /** Dropping one listed id from the list and the map lowers the sum by its usage. */
  lemma {:induction false} SumWithout(loaded: map<string, LoadedModel>, ids: seq<string>, id: string)
    requires Distinct(ids) && id in ids
    ensures SumReals(Usages(loaded - {id}, Without(ids, id))) == SumReals(Usages(loaded, ids)) - Usage(loaded, id)
  {
    var rest := ids[1..];
    assert ids == [ids[0]] + rest;
    DistinctTail(ids);
    SumUsagesCons(loaded, ids[0], rest);
    if ids[0] == id {
      assert Without(ids, id) == rest;
      UsagesIgnore(loaded, rest, id);
    } else {
      var tail := Without(rest, id);
      assert Without(ids, id) == [ids[0]] + tail;
      assert Usage(loaded - {id}, ids[0]) == Usage(loaded, ids[0]);
      SumWithout(loaded, rest, id);
      SumUsagesCons(loaded - {id}, ids[0], tail);
    }
  }

  // ---------------------------------------------------------------------------
  // Unloading.

  /** The keys of `order` not in `gone`, in order. */
  function Remaining(order: seq<string>, gone: set<string>): (r: seq<string>)
    ensures forall x :: x in r <==> x in order && x !in gone
    ensures Distinct(order) ==> Distinct(r)
  {
    if |order| == 0 then []
    else
      var rest := Remaining(order[1..], gone);
      assert forall x :: x in order <==> x == order[0] || x in order[1..];
      DistinctTail(order);
      if order[0] in gone then rest
      else
        var r := [order[0]] + rest;
        assert forall i :: 1 <= i < |r| ==> r[i] == rest[i - 1];
        r
  }

  lemma {:induction false} RemainingNothing(order: seq<string>)
    ensures Remaining(order, {}) == order
  {
    if |order| > 0 {
      RemainingNothing(order[1..]);
      assert order == [order[0]] + order[1..];
    }
  }

  lemma {:induction false} RemainingIgnores(order: seq<string>, gone: set<string>, x: string)
    requires x !in order
    ensures Remaining(order, gone + {x}) == Remaining(order, gone)
  {
    if |order| > 0 {
      RemainingIgnores(order[1..], gone, x);
    }
  }

  lemma {:induction false} WithoutRemaining(order: seq<string>, gone: set<string>, x: string)
    ensures Without(Remaining(order, gone), x) == Remaining(order, gone + {x})
  {
    if |order| > 0 {
      WithoutRemaining(order[1..], gone, x);
      var t := Remaining(order[1..], gone);
      if order[0] !in gone {
        var r := [order[0]] + t;
        assert r[0] == order[0] && r[1..] == t;
      }
    }
  }

  /** Every model in `gone` unloaded at once. */
  function Drop(s: ManagerState, gone: set<string>): (r: ManagerState)
    ensures Consistent(s) ==> Consistent(r)
    ensures r.loaded == s.loaded - gone && r.lastUsed == s.lastUsed - gone
    ensures forall x :: x in r.order <==> x in s.order && x !in gone
  {
    ManagerState(s.loaded - gone, s.lastUsed - gone, Remaining(s.order, gone))
  }

  /** Dropping nothing leaves the state as it was. */
  lemma DropNothing(s: ManagerState)
    ensures Drop(s, {}) == s
  {
    RemainingNothing(s.order);
    assert s.loaded - {} == s.loaded && s.lastUsed - {} == s.lastUsed;
  }

  /** `unload_model`: nothing for a model not loaded; otherwise both entries go. */
  function Unload(s: ManagerState, id: string): ManagerState
  {
    if id !in s.loaded then s
    else ManagerState(s.loaded - {id}, s.lastUsed - {id}, Without(s.order, id))
  }

  lemma MapMinusMore<V>(m: map<string, V>, gone: set<string>, x: string)
    ensures (m - gone) - {x} == m - (gone + {x})
  {
  }

  lemma MapMinusAbsent<V>(m: map<string, V>, gone: set<string>, x: string)
    requires x !in m || x in gone
    ensures m - (gone + {x}) == m - gone
  {
  }

  /** Unloading one more model after a batch is unloading the larger batch. */
  lemma UnloadAfterDrop(s: ManagerState, gone: set<string>, x: string)
    requires Consistent(s)
    ensures Unload(Drop(s, gone), x) == Drop(s, gone + {x})
  {
    if x in s.loaded - gone {
      WithoutRemaining(s.order, gone, x);
      MapMinusMore(s.loaded, gone, x);
      MapMinusMore(s.lastUsed, gone, x);
    } else {
      if x !in gone {
        RemainingIgnores(s.order, gone, x);
      } else {
        assert gone + {x} == gone;
      }
      MapMinusAbsent(s.loaded, gone, x);
      MapMinusAbsent(s.lastUsed, gone, x);
    }
  }

  /** Unloading removes the model from both maps and the order and touches nothing
      else, and doing it twice is doing it once. */
  lemma UnloadFacts(s: ManagerState, id: string)
    requires Consistent(s)
    ensures var r := Unload(s, id);
            && Consistent(r)
            && id !in r.loaded && id !in r.lastUsed && id !in r.order
            && (forall x :: x != id ==> (x in r.loaded <==> x in s.loaded))
            && (forall x :: x != id && x in s.loaded ==> r.loaded[x] == s.loaded[x] && r.lastUsed[x] == s.lastUsed[x])
            && Unload(r, id) == r
  {
    DropNothing(s);
    UnloadAfterDrop(s, {}, id);
    assert {} + {id} == {id};
  }

  /** Unloading lowers the total model memory by the model's usage. */
  lemma UnloadLowersTotal(s: ManagerState, id: string)
    requires Consistent(s)
    ensures TotalMemory(Unload(s, id)) == TotalMemory(s) - Usage(s.loaded, id)
  {
    if id in s.loaded {
      SumWithout(s.loaded, s.order, id);
    }
  }

  // ---------------------------------------------------------------------------
  // Least-recently-used order.

  /** `last_used.get(id, datetime.min)`. */
  function Age(lastUsed: map<string, nat>, id: string): int
  {
    if id in lastUsed then lastUsed[id] else NeverUsed
  }

  predicate OldestFirst(s: seq<string>, lastUsed: map<string, nat>)
  {
    forall i, j :: 0 <= i < j < |s| ==> Age(lastUsed, s[i]) <= Age(lastUsed, s[j])
  }

  lemma ConsKeepsOrder(h: string, rest: seq<string>, lastUsed: map<string, nat>)
    requires OldestFirst(rest, lastUsed)
    requires forall j :: 0 <= j < |rest| ==> Age(lastUsed, h) <= Age(lastUsed, rest[j])
    ensures OldestFirst([h] + rest, lastUsed)
  {
    var r := [h] + rest;
    assert forall i :: 0 < i < |r| ==> r[i] == rest[i - 1];
  }

  /** Insert after every model used no later: equal times keep their order. */
  function InsertByAge(x: string, s: seq<string>, lastUsed: map<string, nat>): (r: seq<string>)
    ensures |r| == |s| + 1
  {
    if |s| == 0 then [x]
    else if Age(lastUsed, s[0]) <= Age(lastUsed, x) then [s[0]] + InsertByAge(x, s[1..], lastUsed)
    else [x] + s
  }

  lemma {:induction false} InsertByAgeCounts(x: string, s: seq<string>, lastUsed: map<string, nat>)
    ensures multiset(InsertByAge(x, s, lastUsed)) == multiset(s) + multiset{x}
  {
    if |s| > 0 && Age(lastUsed, s[0]) <= Age(lastUsed, x) {
      InsertByAgeCounts(x, s[1..], lastUsed);
      assert s == [s[0]] + s[1..];
    }
  }

  lemma {:induction false} InsertByAgeMembers(x: string, s: seq<string>, lastUsed: map<string, nat>)
    ensures forall y :: y in InsertByAge(x, s, lastUsed) <==> y == x || y in s
  {
    if |s| > 0 && Age(lastUsed, s[0]) <= Age(lastUsed, x) {
      InsertByAgeMembers(x, s[1..], lastUsed);
      assert s == [s[0]] + s[1..];
    }
  }

  lemma {:induction false} InsertByAgeDistinct(x: string, s: seq<string>, lastUsed: map<string, nat>)
    requires Distinct(s) && x !in s
    ensures Distinct(InsertByAge(x, s, lastUsed))
  {
    if |s| > 0 {
      DistinctTail(s);
      if Age(lastUsed, s[0]) <= Age(lastUsed, x) {
        var tail := s[1..];
        assert x !in tail;
        InsertByAgeDistinct(x, tail, lastUsed);
        InsertByAgeMembers(x, tail, lastUsed);
        var rest := InsertByAge(x, tail, lastUsed);
        assert s[0] !in rest;
        var r := [s[0]] + rest;
        assert forall i :: 1 <= i < |r| ==> r[i] == rest[i - 1];
        assert InsertByAge(x, s, lastUsed) == r;
      } else {
        var r := [x] + s;
        assert forall i :: 1 <= i < |r| ==> r[i] == s[i - 1];
      }
    }
  }

  /** Inserting keeps a lower bound on the ages that the list and `x` both meet. */
  lemma {:induction false} InsertByAgeAbove(x: string, s: seq<string>, lastUsed: map<string, nat>, a: int)
    requires a <= Age(lastUsed, x)
    requires forall j :: 0 <= j < |s| ==> a <= Age(lastUsed, s[j])
    ensures forall j :: 0 <= j < |s| + 1 ==> a <= Age(lastUsed, InsertByAge(x, s, lastUsed)[j])
  {
    if |s| > 0 && Age(lastUsed, s[0]) <= Age(lastUsed, x) {
      var tail := s[1..];
      InsertByAgeAbove(x, tail, lastUsed, a);
      var r := InsertByAge(x, s, lastUsed);
      assert r == [s[0]] + InsertByAge(x, tail, lastUsed);
    }
  }

  lemma {:induction false} InsertByAgeKeepsOrder(x: string, s: seq<string>, lastUsed: map<string, nat>)
    requires OldestFirst(s, lastUsed)
    ensures OldestFirst(InsertByAge(x, s, lastUsed), lastUsed)
  {
    if |s| > 0 && Age(lastUsed, s[0]) <= Age(lastUsed, x) {
      var tail := s[1..];
      var a := Age(lastUsed, s[0]);
      assert forall j :: 0 <= j < |tail| ==> tail[j] == s[j + 1];
      InsertByAgeKeepsOrder(x, tail, lastUsed);
      InsertByAgeAbove(x, tail, lastUsed, a);
      var rest := InsertByAge(x, tail, lastUsed);
      ConsKeepsOrder(s[0], rest, lastUsed);
      assert InsertByAge(x, s, lastUsed) == [s[0]] + rest;
    } else if |s| > 0 {
      assert s == [s[0]] + s[1..];
      ConsKeepsOrder(x, s, lastUsed);
    }
  }

  /** Python's stable `sorted(keys, key=last_used.get(x, datetime.min))`. */
  function SortByAge(s: seq<string>, lastUsed: map<string, nat>): (r: seq<string>)
    ensures |r| == |s|
  {
    if |s| == 0 then [] else InsertByAge(s[|s| - 1], SortByAge(s[..|s| - 1], lastUsed), lastUsed)
  }

  lemma {:induction false} SortByAgeOrders(s: seq<string>, lastUsed: map<string, nat>)
    ensures OldestFirst(SortByAge(s, lastUsed), lastUsed)
  {
    if |s| > 0 {
      var init := s[..|s| - 1];
      SortByAgeOrders(init, lastUsed);
      InsertByAgeKeepsOrder(s[|s| - 1], SortByAge(init, lastUsed), lastUsed);
    }
  }

  lemma {:induction false} SortByAgeCounts(s: seq<string>, lastUsed: map<string, nat>)
    ensures multiset(SortByAge(s, lastUsed)) == multiset(s)
  {
    if |s| > 0 {
      var init, x := s[..|s| - 1], s[|s| - 1];
      var sortedInit := SortByAge(init, lastUsed);
      assert SortByAge(s, lastUsed) == InsertByAge(x, sortedInit, lastUsed);
      SortByAgeCounts(init, lastUsed);
      InsertByAgeCounts(x, sortedInit, lastUsed);
      assert s == init + [x];
      assert multiset(s) == multiset(init) + multiset{x};
    }
  }

  lemma {:induction false} SortByAgeDistinct(s: seq<string>, lastUsed: map<string, nat>)
    requires Distinct(s)
    ensures Distinct(SortByAge(s, lastUsed))
  {
    if |s| > 0 {
      var init, x := s[..|s| - 1], s[|s| - 1];
      var sortedInit := SortByAge(init, lastUsed);
      assert Distinct(init);
      assert x !in init;
      SortByAgeDistinct(init, lastUsed);
      SortByAgeCounts(init, lastUsed);
      assert x !in multiset(sortedInit);
      InsertByAgeDistinct(x, sortedInit, lastUsed);
    }
  }

  /** The models of `s` last used at time `a`, in their order in `s`. */
  function UsedAt(s: seq<string>, lastUsed: map<string, nat>, a: int): (r: seq<string>)
    ensures |r| <= |s|
    ensures forall j :: 0 <= j < |r| ==> Age(lastUsed, r[j]) == a
  {
    if |s| == 0 then []
    else (if Age(lastUsed, s[0]) == a then [s[0]] else []) + UsedAt(s[1..], lastUsed, a)
  }

  lemma {:induction false} UsedAtSnoc(s: seq<string>, x: string, lastUsed: map<string, nat>, a: int)
    ensures UsedAt(s + [x], lastUsed, a) == UsedAt(s, lastUsed, a) + (if Age(lastUsed, x) == a then [x] else [])
  {
    if |s| > 0 {
      assert (s + [x])[1..] == s[1..] + [x];
      UsedAtSnoc(s[1..], x, lastUsed, a);
    }
  }

  lemma {:induction false} UsedAtNone(s: seq<string>, lastUsed: map<string, nat>, a: int)
    requires forall j :: 0 <= j < |s| ==> Age(lastUsed, s[j]) != a
    ensures UsedAt(s, lastUsed, a) == []
  {
    if |s| > 0 {
      UsedAtNone(s[1..], lastUsed, a);
    }
  }

  lemma UsedAtCons(h: string, t: seq<string>, lastUsed: map<string, nat>, a: int)
    ensures UsedAt([h] + t, lastUsed, a) == (if Age(lastUsed, h) == a then [h] else []) + UsedAt(t, lastUsed, a)
  {
    assert ([h] + t)[1..] == t;
  }

  lemma OldestFirstTail(s: seq<string>, lastUsed: map<string, nat>)
    requires |s| > 0 && OldestFirst(s, lastUsed)
    ensures OldestFirst(s[1..], lastUsed)
  {
    var tail := s[1..];
    assert forall j :: 0 <= j < |tail| ==> tail[j] == s[j + 1];
  }

  /** No model of an oldest-first list was used before its first one. */
  lemma UsedBeforeFirst(s: seq<string>, lastUsed: map<string, nat>, a: int)
    requires |s| > 0 && OldestFirst(s, lastUsed) && a < Age(lastUsed, s[0])
    ensures UsedAt(s, lastUsed, a) == []
  {
    forall j | 0 <= j < |s| ensures Age(lastUsed, s[j]) != a {
      assert j == 0 || Age(lastUsed, s[0]) <= Age(lastUsed, s[j]);
    }
    UsedAtNone(s, lastUsed, a);
  }

  /** The step of `InsertByAgeStable` past a model used no later than `x`. */
  lemma InsertByAgeStablePast(x: string, s: seq<string>, lastUsed: map<string, nat>, a: int)
    requires |s| > 0 && Age(lastUsed, s[0]) <= Age(lastUsed, x)
    requires UsedAt(InsertByAge(x, s[1..], lastUsed), lastUsed, a)
               == UsedAt(s[1..], lastUsed, a) + (if Age(lastUsed, x) == a then [x] else [])
    ensures UsedAt(InsertByAge(x, s, lastUsed), lastUsed, a)
              == UsedAt(s, lastUsed, a) + (if Age(lastUsed, x) == a then [x] else [])
  {
    var tail := s[1..];
    var ins := InsertByAge(x, tail, lastUsed);
    assert InsertByAge(x, s, lastUsed) == [s[0]] + ins;
    var head := if Age(lastUsed, s[0]) == a then [s[0]] else [];
    UsedAtCons(s[0], ins, lastUsed, a);
    var added := if Age(lastUsed, x) == a then [x] else [];
    assert UsedAt(s, lastUsed, a) == head + UsedAt(tail, lastUsed, a);
    assert UsedAt([s[0]] + ins, lastUsed, a) == head + (UsedAt(tail, lastUsed, a) + added);
    assert head + (UsedAt(tail, lastUsed, a) + added) == (head + UsedAt(tail, lastUsed, a)) + added;
  }

  /** Inserting `x` into an oldest-first list puts it after every model used at the
      same time: for each time the models keep their order, `x` last among them. */
  lemma {:induction false} InsertByAgeStable(x: string, s: seq<string>, lastUsed: map<string, nat>, a: int)
    requires OldestFirst(s, lastUsed)
    ensures UsedAt(InsertByAge(x, s, lastUsed), lastUsed, a)
              == UsedAt(s, lastUsed, a) + (if Age(lastUsed, x) == a then [x] else [])
  {
    if |s| == 0 {
    } else if Age(lastUsed, s[0]) <= Age(lastUsed, x) {
      OldestFirstTail(s, lastUsed);
      InsertByAgeStable(x, s[1..], lastUsed, a);
      InsertByAgeStablePast(x, s, lastUsed, a);
    } else {
      if Age(lastUsed, x) == a {
        UsedBeforeFirst(s, lastUsed, a);
      }
      assert InsertByAge(x, s, lastUsed) == [x] + s;
      UsedAtCons(x, s, lastUsed, a);
    }
  }

  /** Python's `sorted` is stable: models last used at the same time (in particular
      the never-used ones) keep their load order. */
  lemma {:induction false} SortByAgeStable(s: seq<string>, lastUsed: map<string, nat>, a: int)
    ensures UsedAt(SortByAge(s, lastUsed), lastUsed, a) == UsedAt(s, lastUsed, a)
  {
    if |s| > 0 {
      var init, last := s[..|s| - 1], s[|s| - 1];
      SortByAgeStable(init, lastUsed, a);
      SortByAgeOrders(init, lastUsed);
      InsertByAgeStable(last, SortByAge(init, lastUsed), lastUsed, a);
      assert s == init + [last];
      UsedAtSnoc(init, last, lastUsed, a);
    }
  }

  /** The sort puts the least recently used first, never-used models before all,
      loses, adds or repeats nothing, and keeps models used at the same time in
      their load order. */
  lemma SortByAgeSorts(s: seq<string>, lastUsed: map<string, nat>)
    ensures OldestFirst(SortByAge(s, lastUsed), lastUsed)
    ensures multiset(SortByAge(s, lastUsed)) == multiset(s)
    ensures Distinct(s) ==> Distinct(SortByAge(s, lastUsed))
    ensures forall a :: UsedAt(SortByAge(s, lastUsed), lastUsed, a) == UsedAt(s, lastUsed, a)
  {
    SortByAgeOrders(s, lastUsed);
    SortByAgeCounts(s, lastUsed);
    forall a ensures UsedAt(SortByAge(s, lastUsed), lastUsed, a) == UsedAt(s, lastUsed, a) {
      SortByAgeStable(s, lastUsed, a);
    }
    if Distinct(s) {
      SortByAgeDistinct(s, lastUsed);
    }
  }

  // ---------------------------------------------------------------------------
  // Eviction.

  /** How many models the eviction loop unloads, given their usages in eviction
      order: it stops at the first prefix whose usages reach the target, or runs out. */
  function EvictCount(usages: seq<real>, toFree: real): (k: nat)
    ensures k <= |usages|
    ensures forall j :: 0 <= j < k ==> SumReals(usages[..j]) < toFree
    ensures k < |usages| ==> SumReals(usages[..k]) >= toFree
  {
    if |usages| == 0 then 0
    else
      var n := |usages| - 1;
      var k := EvictCount(usages[..n], toFree);
      assert forall j :: 0 <= j <= n ==> usages[..n][..j] == usages[..j];
      if k < n then k
      else if SumReals(usages[..n]) >= toFree then n
      else n + 1
  }

  /** The stopping point is the only one with both properties. */
  lemma EvictCountUnique(usages: seq<real>, toFree: real, i: nat)
    requires i <= |usages|
    requires forall j :: 0 <= j < i ==> SumReals(usages[..j]) < toFree
    requires i == |usages| || SumReals(usages[..i]) >= toFree
    ensures EvictCount(usages, toFree) == i
  {
    var k := EvictCount(usages, toFree);
  }

  /** The loop goes on past a prefix only while its usages fall short of the target. */
  lemma ShortOfTargetStep(usages: seq<real>, toFree: real, i: nat)
    requires i < |usages|
    requires forall j :: 0 <= j < i ==> SumReals(usages[..j]) < toFree
    requires SumReals(usages[..i]) < toFree
    ensures forall j :: 0 <= j < i + 1 ==> SumReals(usages[..j]) < toFree
  {
  }

  function Elements(s: seq<string>): set<string>
  {
    set x | x in s
  }

  /** `_ensure_memory_available`: nothing to do when the memory is already there;
      otherwise unload least recently used first until the freed usage reaches the
      shortfall plus 1 GB, and report whether it did. */
  function EnsureSpec(s: ManagerState, requiredGb: real, available: real): (ManagerState, bool)
  {
    if available >= requiredGb then (s, true)
    else
      var toFree := requiredGb - available + 1.0;
      var sorted := SortByAge(s.order, s.lastUsed);
      var usages := Usages(s.loaded, sorted);
      var k := EvictCount(usages, toFree);
      (Drop(s, Elements(sorted[..k])), SumReals(usages[..k]) >= toFree)
  }

  /** The eviction order holds every loaded model once, least recently used first. */
  lemma SortedLoaded(s: ManagerState)
    requires Consistent(s)
    ensures var sorted := SortByAge(s.order, s.lastUsed);
            && Distinct(sorted) && OldestFirst(sorted, s.lastUsed)
            && forall x :: x in sorted <==> x in s.loaded
  {
    var sorted := SortByAge(s.order, s.lastUsed);
    SortByAgeSorts(s.order, s.lastUsed);
    forall x ensures x in sorted <==> x in s.loaded {
      assert x in sorted <==> x in multiset(sorted);
      assert x in s.order <==> x in multiset(s.order);
    }
  }

  /** In a list ordered least recently used first, a prefix was used no later than
      anything after it. */
  lemma PrefixIsOldest(sorted: seq<string>, lastUsed: map<string, nat>, k: nat)
    requires OldestFirst(sorted, lastUsed) && k <= |sorted|
    ensures forall x, y :: x in sorted[..k] && y in sorted && y !in sorted[..k] ==> Age(lastUsed, x) <= Age(lastUsed, y)
  {
    forall x, y | x in sorted[..k] && y in sorted && y !in sorted[..k]
      ensures Age(lastUsed, x) <= Age(lastUsed, y)
    {
      var i :| 0 <= i < k && sorted[i] == x;
      var j :| 0 <= j < |sorted| && sorted[j] == y;
      assert forall t :: 0 <= t < k ==> sorted[..k][t] == sorted[t];
    }
  }

  /** Eviction keeps the state consistent and only removes models: every model
      kept has its entry and time as before. */
  lemma EnsureSpecKeeps(s: ManagerState, requiredGb: real, available: real)
    requires Consistent(s)
    ensures var r := EnsureSpec(s, requiredGb, available).0;
            && Consistent(r)
            && r.loaded.Keys <= s.loaded.Keys
            && (forall x :: x in r.loaded ==> r.loaded[x] == s.loaded[x] && r.lastUsed[x] == s.lastUsed[x])
  {
    if available < requiredGb {
      var sorted := SortByAge(s.order, s.lastUsed);
      var k := EvictCount(Usages(s.loaded, sorted), requiredGb - available + 1.0);
      assert EnsureSpec(s, requiredGb, available).0 == Drop(s, Elements(sorted[..k]));
    }
  }

  /** Enough memory evicts nothing. Otherwise every model evicted was used no later
      than every model kept. */
  lemma EnsureSpecEvictsOldest(s: ManagerState, requiredGb: real, available: real)
    requires Consistent(s)
    ensures available >= requiredGb ==> EnsureSpec(s, requiredGb, available) == (s, true)
    ensures var r := EnsureSpec(s, requiredGb, available).0;
            forall x, y :: x in s.loaded && x !in r.loaded && y in r.loaded ==> Age(s.lastUsed, x) <= Age(s.lastUsed, y)
  {
    if available < requiredGb {
      var sorted := SortByAge(s.order, s.lastUsed);
      var k := EvictCount(Usages(s.loaded, sorted), requiredGb - available + 1.0);
      assert EnsureSpec(s, requiredGb, available).0.loaded == s.loaded - Elements(sorted[..k]);
      SortedLoaded(s);
      PrefixIsOldest(sorted, s.lastUsed, k);
    }
  }

  /** A failed eviction has evicted every model. */
  lemma EnsureSpecFailureEvictsAll(s: ManagerState, requiredGb: real, available: real)
    requires Consistent(s) && !EnsureSpec(s, requiredGb, available).1
    ensures EnsureSpec(s, requiredGb, available).0.loaded == map[]
  {
    var toFree := requiredGb - available + 1.0;
    var sorted := SortByAge(s.order, s.lastUsed);
    var usages := Usages(s.loaded, sorted);
    var k := EvictCount(usages, toFree);
    assert EnsureSpec(s, requiredGb, available).0.loaded == s.loaded - Elements(sorted[..k]);
    assert SumReals(usages[..k]) < toFree;
    assert k == |sorted|;
    FullPrefix(sorted, k);
    SortedLoaded(s);
  }

  /** One turn of a loop unloading the models of a list in turn: the next model is
      still loaded with its original usage, and unloading it extends the unloaded
      prefix by one. */
  lemma UnloadStep(s0: ManagerState, sorted: seq<string>, i: nat)
    requires Consistent(s0) && Distinct(sorted) && i < |sorted|
    ensures var d := Drop(s0, Elements(sorted[..i]));
            && Usage(d.loaded, sorted[i]) == Usage(s0.loaded, sorted[i])
            && Unload(d, sorted[i]) == Drop(s0, Elements(sorted[..i + 1]))
  {
    assert forall t :: 0 <= t < i ==> sorted[..i][t] == sorted[t];
    assert sorted[i] !in Elements(sorted[..i]);
    UnloadAfterDrop(s0, Elements(sorted[..i]), sorted[i]);
    assert sorted[..i + 1] == sorted[..i] + [sorted[i]];
    assert Elements(sorted[..i + 1]) == Elements(sorted[..i]) + {sorted[i]};
  }

  // ---------------------------------------------------------------------------
  // Loading.

  /** `_load_model_from_config` once the load succeeded: the model is stored with
      its usage, load time and device, and recorded as just used. */
  function Load(s: ManagerState, id: string, config: ModelConfig, outcome: LoadOutcome, now: nat): ManagerState
  {
    ManagerState(s.loaded[id := LoadedModel(config, outcome.memoryUsageGb, now, outcome.device)],
                 s.lastUsed[id := now], s.order + [id])
  }

  /** `auto_load_model`. `config` is what the registry holds for the id; `available`
      and `availableAgain` are the two memory readings (the compatibility test's and
      the eviction's); `outcome` is None when loading raised. */
  function AutoLoadSpec(s: ManagerState, hasGpu: bool, id: string, config: Option<ModelConfig>,
                        available: real, availableAgain: real, outcome: Option<LoadOutcome>, now: nat)
    : (ManagerState, bool)
  {
    if id in s.loaded then (s.(lastUsed := s.lastUsed[id := now]), true)
    else if config.None? then (s, false)
    else if !IsCompatible(config.value, available, hasGpu) then (s, false)
    else
      var (evicted, ok) := EnsureSpec(s, config.value.minRamGb as real, availableAgain);
      if !ok || outcome.None? then (evicted, false)
      else (Load(evicted, id, config.value, outcome.value, now), true)
  }

  /** Auto-loading keeps the state consistent. A loaded model is only marked used; an
      unknown or incompatible one changes nothing; success leaves the model loaded
      and just used; and when the second reading still shows the minimum RAM nothing
      is evicted. */
  lemma AutoLoadFacts(s: ManagerState, hasGpu: bool, id: string, config: Option<ModelConfig>,
                      available: real, availableAgain: real, outcome: Option<LoadOutcome>, now: nat)
    requires Consistent(s)
    ensures var (r, ok) := AutoLoadSpec(s, hasGpu, id, config, available, availableAgain, outcome, now);
            && Consistent(r)
            && (id in s.loaded ==> ok && r.loaded == s.loaded && r.lastUsed == s.lastUsed[id := now])
            && (id !in s.loaded && (config.None? || !IsCompatible(config.value, available, hasGpu)) ==> !ok && r == s)
            && (ok ==> id in r.loaded && id in r.lastUsed && r.lastUsed[id] == now)
            && (ok && id !in s.loaded ==> r.loaded[id].config == config.value)
            && (id !in s.loaded && config.Some? && availableAgain >= config.value.minRamGb as real ==>
                  s.loaded.Keys <= r.loaded.Keys)
  {
    if id !in s.loaded && config.Some? && IsCompatible(config.value, available, hasGpu) {
      var required := config.value.minRamGb as real;
      EnsureSpecKeeps(s, required, availableAgain);
      var (evicted, ok) := EnsureSpec(s, required, availableAgain);
      if ok && outcome.Some? {
        LoadKeepsConsistent(evicted, id, config.value, outcome.value, now);
      }
    }
  }

  /** Loading a model that is not loaded keeps the state consistent. */
  lemma LoadKeepsConsistent(s: ManagerState, id: string, config: ModelConfig, outcome: LoadOutcome, now: nat)
    requires Consistent(s) && id !in s.loaded
    ensures Consistent(Load(s, id, config, outcome, now))
  {
    assert id !in s.order;
    var o := s.order + [id];
    assert forall i :: 0 <= i < |s.order| ==> o[i] == s.order[i];
  }

  /** With a single memory reading eviction never happens: the compatibility test
      already demands the minimum RAM that `_ensure_memory_available` asks for. */
  lemma SameReadingNeverEvicts(s: ManagerState, hasGpu: bool, id: string, config: Option<ModelConfig>,
                               available: real, outcome: Option<LoadOutcome>, now: nat)
    requires Consistent(s)
    ensures s.loaded.Keys <= AutoLoadSpec(s, hasGpu, id, config, available, available, outcome, now).0.loaded.Keys
  {
    AutoLoadFacts(s, hasGpu, id, config, available, available, outcome, now);
  }

  // ---------------------------------------------------------------------------
  // Cleanup.

  /** The cutoff of `cleanup_old_models`: `max_age_hours` before `now`, in seconds. */
  function Cutoff(now: nat, maxAgeHours: int): (r: int)
    ensures r + maxAgeHours * SecondsPerHour == now
  {
    now - maxAgeHours * SecondsPerHour
  }

  /** The models whose last use is before the cutoff. */
  function Stale(s: ManagerState, cutoff: int): set<string>
  {
    set id | id in s.lastUsed && s.lastUsed[id] < cutoff
  }

  /** The list `cleanup_old_models` builds: the ids last used before the cutoff. */
  function StaleIds(ids: seq<string>, lastUsed: map<string, nat>, cutoff: int): (r: seq<string>)
    ensures forall x :: x in r <==> x in ids && x in lastUsed && lastUsed[x] < cutoff
    ensures Distinct(ids) ==> Distinct(r)
  {
    if |ids| == 0 then []
    else
      var rest := StaleIds(ids[1..], lastUsed, cutoff);
      assert forall x :: x in ids <==> x == ids[0] || x in ids[1..];
      DistinctTail(ids);
      if ids[0] in lastUsed && lastUsed[ids[0]] < cutoff then
        var r := [ids[0]] + rest;
        assert forall i :: 1 <= i < |r| ==> r[i] == rest[i - 1];
        r
      else rest
  }

  /** Listed over the loaded models, the stale ids are exactly the stale set. */
  lemma StaleIdsAreStale(s: ManagerState, cutoff: int)
    requires Consistent(s)
    ensures Elements(StaleIds(s.order, s.lastUsed, cutoff)) == Stale(s, cutoff)
    ensures Distinct(StaleIds(s.order, s.lastUsed, cutoff))
  {
  }

  /** `cleanup_old_models` unloads exactly the models last used before the cutoff,
      and keeps the others as they were. */
  lemma CleanupExact(s: ManagerState, cutoff: int)
    requires Consistent(s)
    ensures var r := Drop(s, Stale(s, cutoff));
            && Consistent(r)
            && (forall x :: x in r.loaded <==> x in s.loaded && s.lastUsed[x] >= cutoff)
            && (forall x :: x in r.loaded ==> r.loaded[x] == s.loaded[x] && r.lastUsed[x] == s.lastUsed[x])
  {
  }

  // ---------------------------------------------------------------------------
  // The manager.

  class ModelManager {
    var loaded: map<string, LoadedModel>
    var lastUsed: map<string, nat>
    var order: seq<string>
    const hasGpu: bool

    function Current(): ManagerState
      reads this
    {
      ManagerState(loaded, lastUsed, order)
    }

    ghost predicate Valid()
      reads this
    {
      Consistent(Current())
    }

    constructor (hasGpu: bool)
      ensures Valid() && this.hasGpu == hasGpu
      ensures Current() == ManagerState(map[], map[], [])
    {
      this.hasGpu := hasGpu;
      loaded := map[];
      lastUsed := map[];
      order := [];
    }

    method Assign(s: ManagerState)
      modifies this
      ensures Current() == s
    {
      loaded, lastUsed, order := s.loaded, s.lastUsed, s.order;
    }

    /** `get_model_memory_usage`. */
    function GetModelMemoryUsage(id: string): (r: real)
      reads this
      ensures id !in loaded ==> r == 0.0
      ensures id in loaded ==> r == loaded[id].memoryUsageGb
    {
      Usage(loaded, id)
    }

    /** `unload_model`: always succeeds; see `UnloadFacts`. */
    method UnloadModel(id: string) returns (ok: bool)
      modifies this
      requires Valid()
      ensures Valid() && ok
      ensures Current() == Unload(old(Current()), id)
    {
      UnloadFacts(Current(), id);
      if id !in loaded {
        return true;
      }
      loaded := loaded - {id};
      lastUsed := lastUsed - {id};
      order := Without(order, id);
      return true;
    }

    /** `_ensure_memory_available` with the reading `available`; the loop unloads in
        least-recently-used order until the freed usage reaches the target. */
    method EnsureMemoryAvailable(requiredGb: real, available: real) returns (ok: bool)
      modifies this
      requires Valid()
      ensures Valid()
      ensures (Current(), ok) == EnsureSpec(old(Current()), requiredGb, available)
    {
      if available >= requiredGb {
        return true;
      }
      var toFree := requiredGb - available + 1.0;
      ghost var s0 := Current();
      var sorted := SortByAge(order, lastUsed);
      ghost var usages := Usages(loaded, sorted);
      SortedLoaded(s0);
      DropNothing(s0);
      assert Elements(sorted[..0]) == {};
      var freed := 0.0;
      var i := 0;
      while i < |sorted|
        invariant 0 <= i <= |sorted|
        invariant Current() == Drop(s0, Elements(sorted[..i]))
        invariant freed == SumReals(usages[..i])
        invariant forall j :: 0 <= j < i ==> SumReals(usages[..j]) < toFree
      {
        if freed >= toFree {
          break;
        }
        ShortOfTargetStep(usages, toFree, i);
        var id := sorted[i];
        UnloadStep(s0, sorted, i);
        var memory := GetModelMemoryUsage(id);
        var _ := UnloadModel(id);
        SumRealsPrefix(usages, i);
        freed := freed + memory;
        i := i + 1;
      }
      EvictCountUnique(usages, toFree, i);
      assert EnsureSpec(s0, requiredGb, available) == (Drop(s0, Elements(sorted[..i])), freed >= toFree);
      return freed >= toFree;
    }

    /** `auto_load_model` with the registry as it stands; see `AutoLoadFacts`. */
    method AutoLoadModel(id: string, registry: ModelRegistry, available: real, availableAgain: real,
                         outcome: Option<LoadOutcome>, now: nat) returns (ok: bool)
      modifies this
      requires Valid()
      ensures Valid()
      ensures (Current(), ok) ==
              AutoLoadSpec(old(Current()), hasGpu, id, old(registry.GetModel(id)), available, availableAgain, outcome, now)
    {
      AutoLoadFacts(Current(), hasGpu, id, registry.GetModel(id), available, availableAgain, outcome, now);
      if id in loaded {
        lastUsed := lastUsed[id := now];
        return true;
      }
      var config := registry.GetModel(id);
      if config.None? {
        return false;
      }
      if !IsCompatible(config.value, available, hasGpu) {
        return false;
      }
      var ensured := EnsureMemoryAvailable(config.value.minRamGb as real, availableAgain);
      if !ensured {
        return false;
      }
      if outcome.None? {
        return false;
      }
      loaded := loaded[id := LoadedModel(config.value, outcome.value.memoryUsageGb, now, outcome.value.device)];
      order := order + [id];
      lastUsed := lastUsed[id := now];
      return true;
    }

    /** `get_model_for_inference`: nothing for a model not loaded; otherwise the model,
        now marked as just used. */
    method GetModelForInference(id: string, now: nat) returns (r: Option<LoadedModel>)
      modifies this
      requires Valid()
      ensures Valid()
      ensures r.None? <==> id !in old(loaded)
      ensures r.Some? ==> r.value == old(loaded)[id]
      ensures loaded == old(loaded) && order == old(order)
      ensures lastUsed == if id in old(loaded) then old(lastUsed)[id := now] else old(lastUsed)
    {
      if id !in loaded {
        return None;
      }
      lastUsed := lastUsed[id := now];
      return Some(loaded[id]);
    }

    /** The second half of `cleanup_old_models`: unload each listed model in turn. */
    method UnloadAll(ids: seq<string>)
      modifies this
      requires Valid() && Distinct(ids)
      ensures Valid()
      ensures Current() == Drop(old(Current()), Elements(ids))
    {
      ghost var s0 := Current();
      DropNothing(s0);
      assert Elements(ids[..0]) == {};
      var i := 0;
      while i < |ids|
        invariant 0 <= i <= |ids|
        invariant Current() == Drop(s0, Elements(ids[..i]))
      {
        UnloadStep(s0, ids, i);
        var _ := UnloadModel(ids[i]);
        assert Current() == Drop(s0, Elements(ids[..i + 1]));
        i := i + 1;
      }
      FullPrefix(ids, i);
    }

    /** `cleanup_old_models`: unloads exactly the models last used more than
        `max_age_hours` before `now`, and nothing else changes. */
    method CleanupOldModels(maxAgeHours: int, now: nat)
      modifies this
      requires Valid()
      ensures Valid()
      ensures Current() == Drop(old(Current()), Stale(old(Current()), Cutoff(now, maxAgeHours)))
    {
      var cutoff := Cutoff(now, maxAgeHours);
      var toUnload := StaleIds(order, lastUsed, cutoff);
      StaleIdsAreStale(Current(), cutoff);
      UnloadAll(toUnload);
    }
  }
}
