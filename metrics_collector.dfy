/** The hub's metrics collector (hub/services/metrics_collector.py): per-node
    metric histories kept for a day, threshold alerts kept to the last thousand,
    and the aggregate views over both.

    Times are whole seconds, given as `now`. Metric values are numbers (Python's
    ints, floats and bools) or anything else, which Python refuses to compare
    with a number. */
module MetricsCollecting {
  import opened Common

  const Retention: int := 86400
  const RecentWindow: int := 300
  const MaxAlerts: nat := 1000

  datatype MetricValue = Num(n: real) | Text(text: string)

  /** A stored entry: the time, the node, and the metrics it reported. */
  datatype Entry = Entry(timestamp: int, nodeId: string, fields: map<string, MetricValue>)

  datatype Alert = Alert(
    timestamp: int,
    nodeId: string,
    metricName: string,
    value: real,
    threshold: real,
    severity: string)

  /** `_alert_thresholds`, in the dict's order. */
  const Thresholds: seq<(string, real)> :=
    [("cpu_usage", 80.0), ("memory_usage", 85.0), ("disk_usage", 90.0), ("gpu_usage", 85.0)]

  // ---------------------------------------------------------------------------
  // Alerts.

  /** `_check_alerts`: one alert per thresholded metric above its threshold,
      "critical" more than 10 above it and "warning" otherwise, in threshold order;
      a thresholded metric that is not a number raises TypeError, after the alerts
      for the thresholds before it. */
  function ThresholdAlerts(nodeId: string, metrics: map<string, MetricValue>, now: int,
                           ts: seq<(string, real)>): (r: (seq<Alert>, Option<string>))
    ensures |r.0| <= |ts|
  {
    if |ts| == 0 then ([], None)
    else
      var (name, threshold) := ts[0];
      if name !in metrics then ThresholdAlerts(nodeId, metrics, now, ts[1..])
      else if metrics[name].Text? then ([], Some("TypeError"))
      else
        var value := metrics[name].n;
        var rest := ThresholdAlerts(nodeId, metrics, now, ts[1..]);
        if value > threshold then
          ([Alert(now, nodeId, name, value, threshold,
                  if value > threshold + 10.0 then "critical" else "warning")] + rest.0, rest.1)
        else rest
  }

  /** Every alert is for a reported number above its threshold, critical exactly when
      more than 10 above it; the check raises exactly when some thresholded metric is
      not a number; and when it does not raise, every number above its threshold has
      its alert. */
  lemma {:induction false} ThresholdAlertsCharacterized(nodeId: string, metrics: map<string, MetricValue>,
                                                        now: int, ts: seq<(string, real)>)
    ensures var (alerts, err) := ThresholdAlerts(nodeId, metrics, now, ts);
            && (forall a :: a in alerts ==>
                  && a.nodeId == nodeId && a.timestamp == now
                  && a.metricName in metrics && metrics[a.metricName] == Num(a.value)
                  && (a.metricName, a.threshold) in ts
                  && a.value > a.threshold
                  && (a.severity == "critical" <==> a.value > a.threshold + 10.0)
                  && (a.severity == "critical" || a.severity == "warning"))
            && (err.Some? <==> exists i :: 0 <= i < |ts| && ts[i].0 in metrics && metrics[ts[i].0].Text?)
            && (err.None? ==> forall i :: 0 <= i < |ts| && ts[i].0 in metrics && metrics[ts[i].0].n > ts[i].1 ==>
                  exists a :: a in alerts && a.metricName == ts[i].0 && a.threshold == ts[i].1)
  {
    if |ts| > 0 {
      ThresholdAlertsCharacterized(nodeId, metrics, now, ts[1..]);
      assert forall i :: 1 <= i < |ts| ==> ts[i] == ts[1..][i - 1];
      assert forall x :: x in ts[1..] ==> x in ts;
      var (name, threshold) := ts[0];
      if name in metrics && metrics[name].Num? && metrics[name].n > threshold {
        var a := ThresholdAlerts(nodeId, metrics, now, ts).0[0];
        assert a.metricName == ts[0].0 && a.threshold == ts[0].1;
      }
    }
  }

  /** `self._alerts_store[-1000:]` once it holds more than a thousand. */
  function KeepRecent(s: seq<Alert>): (r: seq<Alert>)
    ensures |r| <= MaxAlerts && |r| <= |s|
    ensures r == s[|s| - |r|..]
    ensures |s| <= MaxAlerts ==> r == s
    ensures |s| > MaxAlerts ==> |r| == MaxAlerts
  {
    if |s| > MaxAlerts then s[|s| - MaxAlerts..] else s
  }

  /** Trimming before appending more changes nothing about what is finally kept. */
  lemma KeepRecentAbsorbs(s: seq<Alert>, t: seq<Alert>)
    ensures KeepRecent(KeepRecent(s) + t) == KeepRecent(s + t)
  {
    if |s| > MaxAlerts {
      var k := s[|s| - MaxAlerts..];
      assert k + t == (s + t)[|s| - MaxAlerts..];
    }
  }

  /** `_add_alert` applied to each alert in turn. */
  function AddEach(store: seq<Alert>, news: seq<Alert>): seq<Alert>
    decreases |news|
  {
    if |news| == 0 then store else AddEach(KeepRecent(store + [news[0]]), news[1..])
  }

  /** Adding alerts one by one keeps exactly the thousand most recent of all of them. */
  lemma {:induction false} AddEachKeepsRecent(store: seq<Alert>, news: seq<Alert>)
    requires |store| <= MaxAlerts
    ensures AddEach(store, news) == KeepRecent(store + news)
    decreases |news|
  {
    if |news| > 0 {
      var grown := store + [news[0]];
      calc {
        AddEach(store, news);
        AddEach(KeepRecent(grown), news[1..]);
        { AddEachKeepsRecent(KeepRecent(grown), news[1..]); }
        KeepRecent(KeepRecent(grown) + news[1..]);
        { KeepRecentAbsorbs(grown, news[1..]); }
        KeepRecent(grown + news[1..]);
        { ShiftHead(store, news); }
        KeepRecent(store + news);
      }
    }
  }

  // ---------------------------------------------------------------------------
  // Sorting alerts newest first.

  predicate NewestFirst(s: seq<Alert>)
  {
    forall i, j :: 0 <= i < j < |s| ==> s[i].timestamp >= s[j].timestamp
  }

  /** Insert after every alert at least as new: equal times keep their order. */
  function Insert(x: Alert, s: seq<Alert>): (r: seq<Alert>)
    ensures |r| == |s| + 1
  {
    if |s| == 0 then [x]
    else if s[0].timestamp >= x.timestamp then [s[0]] + Insert(x, s[1..])
    else [x] + s
  }

  /** Inserting adds exactly `x`. */
  lemma {:induction false} InsertCounts(x: Alert, s: seq<Alert>)
    ensures multiset(Insert(x, s)) == multiset(s) + multiset{x}
  {
    if |s| > 0 && s[0].timestamp >= x.timestamp {
      InsertCounts(x, s[1..]);
      assert s == [s[0]] + s[1..];
    }
  }

  /** An alert no newer than `x` and every alert of `s` is no newer than any alert
      after the insertion. */
  lemma {:induction false} InsertBelow(x: Alert, s: seq<Alert>, top: int)
    requires x.timestamp <= top && forall j :: 0 <= j < |s| ==> s[j].timestamp <= top
    ensures forall j :: 0 <= j < |s| + 1 ==> Insert(x, s)[j].timestamp <= top
  {
    if |s| > 0 && s[0].timestamp >= x.timestamp {
      InsertBelow(x, s[1..], top);
      assert Insert(x, s) == [s[0]] + Insert(x, s[1..]);
    }
  }

  /** Inserting into a newest-first list keeps it newest first. */
  lemma {:induction false} InsertKeepsOrder(x: Alert, s: seq<Alert>)
    requires NewestFirst(s)
    ensures NewestFirst(Insert(x, s))
  {
    if |s| > 0 && s[0].timestamp >= x.timestamp {
      var tail := s[1..];
      assert forall j :: 0 <= j < |tail| ==> tail[j] == s[j + 1];
      InsertKeepsOrder(x, tail);
      InsertBelow(x, tail, s[0].timestamp);
      var rest := Insert(x, tail);
      var r := [s[0]] + rest;
      assert forall i :: 0 < i < |r| ==> r[i] == rest[i - 1];
      assert Insert(x, s) == r;
    } else if |s| > 0 {
      var r := [x] + s;
      assert forall i :: 0 < i < |r| ==> r[i] == s[i - 1];
    }
  }

  /** Python's stable `sorted(..., key=timestamp, reverse=True)`. */
  function SortNewestFirst(s: seq<Alert>): (r: seq<Alert>)
    ensures |r| == |s|
  {
    if |s| == 0 then [] else Insert(s[|s| - 1], SortNewestFirst(s[..|s| - 1]))
  }

  lemma {:induction false} SortNewestFirstOrders(s: seq<Alert>)
    ensures NewestFirst(SortNewestFirst(s))
  {
    if |s| > 0 {
      var init := s[..|s| - 1];
      SortNewestFirstOrders(init);
      InsertKeepsOrder(s[|s| - 1], SortNewestFirst(init));
    }
  }

  lemma {:induction false} SortNewestFirstKeeps(s: seq<Alert>)
    ensures multiset(SortNewestFirst(s)) == multiset(s)
  {
    if |s| > 0 {
      var init, last := s[..|s| - 1], s[|s| - 1];
      SortNewestFirstKeeps(init);
      InsertCounts(last, SortNewestFirst(init));
      MultisetSnoc(s);
    }
  }

  /** The alerts of `s` raised at time `t`, in list order. */
  function StampedAt(s: seq<Alert>, t: int): (r: seq<Alert>)
    ensures |r| <= |s|
    ensures forall j :: 0 <= j < |r| ==> r[j].timestamp == t
  {
    if |s| == 0 then []
    else (if s[0].timestamp == t then [s[0]] else []) + StampedAt(s[1..], t)
  }

  lemma {:induction false} StampedAtSnoc(s: seq<Alert>, x: Alert, t: int)
    ensures StampedAt(s + [x], t) == StampedAt(s, t) + (if x.timestamp == t then [x] else [])
  {
    if |s| > 0 {
      assert (s + [x])[1..] == s[1..] + [x];
      StampedAtSnoc(s[1..], x, t);
    }
  }

  lemma {:induction false} StampedAtNone(s: seq<Alert>, t: int)
    requires forall j :: 0 <= j < |s| ==> s[j].timestamp != t
    ensures StampedAt(s, t) == []
  {
    if |s| > 0 {
      StampedAtNone(s[1..], t);
    }
  }

  /** Inserting `x` into a newest-first list puts it after every alert of the same
      time: for each time the alerts keep their order, `x` last among them. */
  lemma {:induction false} InsertStable(x: Alert, s: seq<Alert>, t: int)
    requires NewestFirst(s)
    ensures StampedAt(Insert(x, s), t) == StampedAt(s, t) + (if x.timestamp == t then [x] else [])
  {
    if |s| == 0 {
    } else if s[0].timestamp >= x.timestamp {
      var tail := s[1..];
      assert NewestFirst(tail) by {
        assert forall j :: 0 <= j < |tail| ==> tail[j] == s[j + 1];
      }
      InsertStable(x, tail, t);
      var ins := Insert(x, tail);
      var head := if s[0].timestamp == t then [s[0]] else [];
      assert Insert(x, s) == [s[0]] + ins;
      assert ([s[0]] + ins)[1..] == ins;
      assert StampedAt([s[0]] + ins, t) == head + StampedAt(ins, t);
      assert StampedAt(s, t) == head + StampedAt(tail, t);
    } else {
      if x.timestamp == t {
        forall j | 0 <= j < |s| ensures s[j].timestamp != t {
          assert j == 0 || s[0].timestamp >= s[j].timestamp;
        }
        StampedAtNone(s, t);
      }
      assert ([x] + s)[1..] == s;
    }
  }

  lemma {:induction false} SortNewestFirstStable(s: seq<Alert>, t: int)
    ensures StampedAt(SortNewestFirst(s), t) == StampedAt(s, t)
  {
    if |s| > 0 {
      var init, last := s[..|s| - 1], s[|s| - 1];
      SortNewestFirstStable(init, t);
      SortNewestFirstOrders(init);
      InsertStable(last, SortNewestFirst(init), t);
      assert s == init + [last];
      StampedAtSnoc(init, last, t);
    }
  }

  /** The sort orders newest first, loses or adds nothing, and, being stable, keeps
      alerts of the same time in their stored order. */
  lemma SortNewestFirstSorts(s: seq<Alert>)
    ensures NewestFirst(SortNewestFirst(s))
    ensures multiset(SortNewestFirst(s)) == multiset(s)
    ensures forall t :: StampedAt(SortNewestFirst(s), t) == StampedAt(s, t)
  {
    SortNewestFirstOrders(s);
    SortNewestFirstKeeps(s);
    forall t ensures StampedAt(SortNewestFirst(s), t) == StampedAt(s, t) {
      SortNewestFirstStable(s, t);
    }
  }

  function FilterAlerts(s: seq<Alert>, severity: Option<string>, node: Option<string>): (r: seq<Alert>)
    ensures forall a :: a in r <==> a in s && Wanted(a, severity, node)
    ensures |r| <= |s|
  {
    if |s| == 0 then []
    else
      var rest := FilterAlerts(s[1..], severity, node);
      assert forall a :: a in s <==> a == s[0] || a in s[1..];
      if Wanted(s[0], severity, node) then [s[0]] + rest else rest
  }

  /** The filters apply only when given and non-empty (an empty string is false). */
  predicate Wanted(a: Alert, severity: Option<string>, node: Option<string>)
  {
    && (severity.Some? && severity.value != "" ==> a.severity == severity.value)
    && (node.Some? && node.value != "" ==> a.nodeId == node.value)
  }

  // ---------------------------------------------------------------------------
  // Aggregates.

  datatype Stats = Stats(average: real, min: real, max: real)
  datatype HistoricalStats = HistoricalStats(average: real, min: real, max: real, current: real)

  function MinOf(s: seq<real>): (r: real)
    requires |s| > 0
    ensures r in s && forall x :: x in s ==> r <= x
  {
    if |s| == 1 then s[0]
    else
      var m := MinOf(s[..|s| - 1]);
      assert forall x :: x in s ==> x in s[..|s| - 1] || x == s[|s| - 1];
      MinReal(m, s[|s| - 1])
  }

  function MaxOf(s: seq<real>): (r: real)
    requires |s| > 0
    ensures r in s && forall x :: x in s ==> x <= r
  {
    if |s| == 1 then s[0]
    else
      var m := MaxOf(s[..|s| - 1]);
      assert forall x :: x in s ==> x in s[..|s| - 1] || x == s[|s| - 1];
      MaxReal(m, s[|s| - 1])
  }

  function StatsOf(s: seq<real>): Stats
    requires |s| > 0
  {
    Stats(SumReals(s) / |s| as real, MinOf(s), MaxOf(s))
  }

  /** The sum lies between |s| times the least and |s| times the greatest value. */
  lemma {:induction false} SumBetween(s: seq<real>, lo: real, hi: real)
    requires forall i :: 0 <= i < |s| ==> lo <= s[i] <= hi
    ensures |s| as real * lo <= SumReals(s) <= |s| as real * hi
  {
    if |s| > 0 {
      var init := s[..|s| - 1];
      assert forall i :: 0 <= i < |init| ==> init[i] == s[i];
      SumBetween(init, lo, hi);
    }
  }

  /** The average of a non-empty list lies between its minimum and its maximum. */
  lemma StatsOrdered(s: seq<real>)
    requires |s| > 0
    ensures StatsOf(s).min <= StatsOf(s).average <= StatsOf(s).max
  {
    var lo, hi := MinOf(s), MaxOf(s);
    var n, total := |s| as real, SumReals(s);
    forall i | 0 <= i < |s| ensures lo <= s[i] <= hi {
      assert s[i] in s;
    }
    SumBetween(s, lo, hi);
    QuotientBetween(total, n, lo, hi);
    assert StatsOf(s) == Stats(total / n, lo, hi);
  }

  /** The numbers a node's recent entries carry under `key` (entries at most five
      minutes old). */
  function RecentNumbers(entries: seq<Entry>, key: string, now: int): (r: seq<real>)
    ensures |r| <= |entries|
  {
    if |entries| == 0 then []
    else
      var e := entries[|entries| - 1];
      var init := RecentNumbers(entries[..|entries| - 1], key, now);
      if now - e.timestamp <= RecentWindow && key in e.fields && e.fields[key].Num?
      then init + [e.fields[key].n] else init
  }

  function AllRecentNumbers(store: map<string, seq<Entry>>, order: seq<string>, key: string, now: int)
    : seq<real>
    requires forall i :: 0 <= i < |order| ==> order[i] in store
  {
    if |order| == 0 then []
    else AllRecentNumbers(store, order[..|order| - 1], key, now) + RecentNumbers(store[order[|order| - 1]], key, now)
  }

  /** Keys with a number in some entry. */
  function NumericKeys(store: map<string, seq<Entry>>): set<string>
  {
    set n, i, k | n in store && 0 <= i < |store[n]| && k in store[n][i].fields && store[n][i].fields[k].Num? :: k
  }

  /** `get_system_metrics`, with `order` the store's key order: for every key with a
      number reported in the last five minutes, the average, minimum and maximum of
      those numbers. */
  function SystemMetrics(store: map<string, seq<Entry>>, order: seq<string>, now: int): (r: map<string, Stats>)
    requires forall i :: 0 <= i < |order| ==> order[i] in store
    ensures forall k :: k in r ==> |AllRecentNumbers(store, order, k, now)| > 0
    ensures forall k :: k in r ==> r[k] == StatsOf(AllRecentNumbers(store, order, k, now))
  {
    map k | k in NumericKeys(store) && |AllRecentNumbers(store, order, k, now)| > 0
      :: StatsOf(AllRecentNumbers(store, order, k, now))
  }

  /** The values of a node's entries under `key`, whatever their type. */
  function ValuesOf(entries: seq<Entry>, key: string): (r: seq<MetricValue>)
    ensures |r| <= |entries|
    ensures |r| > 0 <==> exists i :: 0 <= i < |entries| && key in entries[i].fields
    ensures |r| > 0 ==> exists i :: 0 <= i < |entries| && key in entries[i].fields
                                    && r[|r| - 1] == entries[i].fields[key]
                                    && forall j :: i < j < |entries| ==> key !in entries[j].fields
  {
    if |entries| == 0 then []
    else
      var e := entries[|entries| - 1];
      var init := ValuesOf(entries[..|entries| - 1], key);
      assert forall j :: 0 <= j < |entries| - 1 ==> entries[..|entries| - 1][j] == entries[j];
      if key in e.fields then init + [e.fields[key]] else init
  }

  predicate AllNumbers(vs: seq<MetricValue>)
  {
    forall i :: 0 <= i < |vs| ==> vs[i].Num?
  }

  function Numbers(vs: seq<MetricValue>): (r: seq<real>)
    requires AllNumbers(vs)
    ensures |r| == |vs| && forall i :: 0 <= i < |vs| ==> r[i] == vs[i].n
  {
    seq(|vs|, i requires 0 <= i < |vs| && AllNumbers(vs) => vs[i].n)
  }

  function EntryKeys(entries: seq<Entry>): set<string>
  {
    set i, k | 0 <= i < |entries| && k in entries[i].fields && entries[i].fields[k].Num? :: k
  }

  /** `_calculate_historical_metrics`: for every key with a number in some entry, the
      statistics of all values under that key, with the last one as "current"; a key
      that also carries a non-number makes `sum` raise TypeError. */
  function HistoricalMetrics(entries: seq<Entry>): (r: Result<map<string, HistoricalStats>>)
    ensures r.Ok? ==> forall k :: k in r.value ==> k in EntryKeys(entries)
  {
    if exists k :: k in EntryKeys(entries) && !AllNumbers(ValuesOf(entries, k)) then Err("TypeError")
    else
      Ok(map k | k in EntryKeys(entries) && |ValuesOf(entries, k)| > 0 ::
           var xs := Numbers(ValuesOf(entries, k));
           HistoricalStats(SumReals(xs) / |xs| as real, MinOf(xs), MaxOf(xs), xs[|xs| - 1]))
  }

  /** Every key with a number gets statistics, and its "current" is the value of the
      newest entry that carries the key. */
  lemma HistoricalCurrentIsLatest(entries: seq<Entry>, k: string)
    requires HistoricalMetrics(entries).Ok? && k in EntryKeys(entries)
    ensures k in HistoricalMetrics(entries).value
    ensures exists i :: 0 <= i < |entries| && k in entries[i].fields
                        && entries[i].fields[k] == Num(HistoricalMetrics(entries).value[k].current)
                        && forall j :: i < j < |entries| ==> k !in entries[j].fields
  {
    var vs := ValuesOf(entries, k);
    var i0, k0 :| 0 <= i0 < |entries| && k0 in entries[i0].fields && entries[i0].fields[k0].Num? && k0 == k;
    assert |vs| > 0;
    assert AllNumbers(vs);
    var m := HistoricalMetrics(entries).value;
    var xs := Numbers(vs);
    assert k in m && m[k].current == xs[|xs| - 1];
    var i :| 0 <= i < |entries| && k in entries[i].fields && vs[|vs| - 1] == entries[i].fields[k]
             && forall j :: i < j < |entries| ==> k !in entries[j].fields;
    assert entries[i].fields[k] == Num(m[k].current);
  }

  /** Entries newer than the cutoff, in order. */
  function Prune(entries: seq<Entry>, cutoff: int): (r: seq<Entry>)
    ensures forall e :: e in r <==> e in entries && e.timestamp > cutoff
    ensures |r| <= |entries|
  {
    if |entries| == 0 then []
    else
      var init := Prune(entries[..|entries| - 1], cutoff);
      var e := entries[|entries| - 1];
      assert forall x :: x in entries <==> x in entries[..|entries| - 1] || x == e;
      if e.timestamp > cutoff then init + [e] else init
  }

  /** What `record_metrics` does once `timedelta` is imported but the alert check
      still takes the lock the call already holds: it never returns when an alert is
      due. */
  datatype LockOutcome = Returned | Blocked

  function ImportFixedOutcome(nodeId: string, metrics: map<string, MetricValue>, now: int): LockOutcome
  {
    if |ThresholdAlerts(nodeId, metrics, now, Thresholds).0| > 0 then Blocked else Returned
  }

  /** A CPU reading of 95 is enough to block the collector for good. */
  lemma ImportFixedCollectorBlocks(nodeId: string, now: int)
    ensures ImportFixedOutcome(nodeId, map["cpu_usage" := Num(95.0)], now) == Blocked
  {
    var metrics := map["cpu_usage" := Num(95.0)];
    assert Thresholds[0] == ("cpu_usage", 80.0);
    assert |ThresholdAlerts(nodeId, metrics, now, Thresholds).0| > 0;
  }

  class MetricsCollector {
    var store: map<string, seq<Entry>>
    var alerts: seq<Alert>
    var thresholds: seq<(string, real)>

    ghost predicate Valid()
      reads this
    {
      |alerts| <= MaxAlerts
    }

    constructor ()
      ensures Valid() && store == map[] && alerts == [] && thresholds == Thresholds
    {
      store := map[];
      alerts := [];
      thresholds := Thresholds;
    }

    function History(nodeId: string): seq<Entry>
      reads this
    {
      if nodeId in store then store[nodeId] else []
    }

    /** `record_metrics` as written: the entry is appended, then the undefined
        `timedelta` raises NameError, so no entry is ever pruned and no alert is ever
        raised. */
    method RecordMetricsAsWritten(nodeId: string, metrics: map<string, MetricValue>, now: int)
      returns (error: Option<string>)
      modifies this
      ensures error == Some("NameError") && thresholds == old(thresholds)
      ensures store == old(store)[nodeId := old(History(nodeId)) + [Entry(now, nodeId, metrics)]]
      ensures alerts == old(alerts)
    {
      store := store[nodeId := History(nodeId) + [Entry(now, nodeId, metrics)]];
      return Some("NameError");
    }

    /** `_add_alert`: append and keep the last thousand. */
    method AddAlert(a: Alert)
      modifies this
      requires Valid()
      ensures Valid()
      ensures alerts == KeepRecent(old(alerts) + [a])
      ensures store == old(store) && thresholds == old(thresholds)
    {
      alerts := alerts + [a];
      if |alerts| > MaxAlerts {
        alerts := alerts[|alerts| - MaxAlerts..];
      }
    }

    /** `_check_alerts`: the thresholds in order, each alert added as it is found,
        until a thresholded metric that is not a number raises. */
    method CheckAlerts(nodeId: string, metrics: map<string, MetricValue>, now: int)
      returns (error: Option<string>)
      modifies this
      requires Valid()
      ensures Valid() && store == old(store) && thresholds == old(thresholds)
      ensures alerts == AddEach(old(alerts), ThresholdAlerts(nodeId, metrics, now, thresholds).0)
      ensures error == ThresholdAlerts(nodeId, metrics, now, thresholds).1
    {
      ghost var full := ThresholdAlerts(nodeId, metrics, now, thresholds);
      ghost var initial := alerts;
      ghost var added: seq<Alert> := [];
      FullSuffix(thresholds);
      var i := 0;
      while i < |thresholds|
        invariant 0 <= i <= |thresholds|
        invariant Valid() && store == old(store) && thresholds == old(thresholds)
        invariant alerts == AddEach(initial, added)
        invariant full.0 == added + ThresholdAlerts(nodeId, metrics, now, thresholds[i..]).0
        invariant full.1 == ThresholdAlerts(nodeId, metrics, now, thresholds[i..]).1
      {
        var (name, threshold) := thresholds[i];
        ThresholdStep(nodeId, metrics, now, thresholds, i);
        if name in metrics {
          var value := metrics[name];
          if value.Text? {
            AppendEmpty(added);
            return Some("TypeError");
          }
          if value.n > threshold {
            var a := Alert(now, nodeId, name, value.n, threshold,
                           if value.n > threshold + 10.0 then "critical" else "warning");
            AddEachSnoc(initial, added, a);
            AddAlert(a);
            AppendAssociates(added, [a], ThresholdAlerts(nodeId, metrics, now, thresholds[i + 1..]).0);
            added := added + [a];
          }
        }
        i := i + 1;
      }
      EmptySuffix(thresholds);
      AppendEmpty(added);
      return None;
    }

    /** `record_metrics` with `timedelta` imported and the alert check run under the
        lock already held: the entry is appended, the node's history is cut to the
        last 24 hours, and the alerts due are kept among the last thousand. */
    method RecordMetrics(nodeId: string, metrics: map<string, MetricValue>, now: int)
      returns (error: Option<string>)
      modifies this
      requires Valid()
      ensures Valid()
      ensures store == old(store)[nodeId := Prune(old(History(nodeId)) + [Entry(now, nodeId, metrics)], now - Retention)]
      ensures thresholds == old(thresholds)
      ensures alerts == KeepRecent(old(alerts) + ThresholdAlerts(nodeId, metrics, now, thresholds).0)
      ensures error == ThresholdAlerts(nodeId, metrics, now, thresholds).1
    {
      var entries := History(nodeId) + [Entry(now, nodeId, metrics)];
      store := store[nodeId := Prune(entries, now - Retention)];
      AddEachKeepsRecent(alerts, ThresholdAlerts(nodeId, metrics, now, thresholds).0);
      error := CheckAlerts(nodeId, metrics, now);
    }

    /** `get_alerts`. */
    function GetAlerts(severity: Option<string>, node: Option<string>, limit: int): (r: seq<Alert>)
      reads this
      ensures r == SelectAlerts(alerts, severity, node, limit)
    {
      SliceTo(SortNewestFirst(FilterAlerts(alerts, severity, node)), limit)
    }

    /** `get_node_metrics`: nothing for an unknown node or an empty history;
        otherwise the newest entry and the history's statistics. */
    function GetNodeMetrics(nodeId: string): (r: Result<Option<(Entry, map<string, HistoricalStats>)>>)
      reads this
      ensures r == Ok(None) <==> |History(nodeId)| == 0
      ensures r.Ok? && r.value.Some? ==> r.value.value.0 == History(nodeId)[|History(nodeId)| - 1]
    {
      var entries := History(nodeId);
      if |entries| == 0 then Ok(None)
      else
        var h := HistoricalMetrics(entries);
        if h.Err? then Err(h.msg) else Ok(Some((entries[|entries| - 1], h.value)))
    }
  }

  /** `get_alerts` over a store: the alerts matching the filters, newest first, cut
      at `limit` as a Python slice would. */
  function SelectAlerts(store: seq<Alert>, severity: Option<string>, node: Option<string>, limit: int)
    : (r: seq<Alert>)
    ensures NewestFirst(r)
    ensures forall a :: a in r ==> a in store && Wanted(a, severity, node)
    ensures limit >= 0 ==> |r| == MinInt(limit, |FilterAlerts(store, severity, node)|)
    ensures |r| <= |FilterAlerts(store, severity, node)|
    ensures r == SortNewestFirst(FilterAlerts(store, severity, node))[..|r|]
  {
    var filtered := FilterAlerts(store, severity, node);
    var sorted := SortNewestFirst(filtered);
    SortNewestFirstSorts(filtered);
    var r := SliceTo(sorted, limit);
    assert forall i :: 0 <= i < |r| ==> r[i] == sorted[i];
    forall a | a in r
      ensures a in store && Wanted(a, severity, node)
    {
      assert a in sorted;
      assert a in multiset(sorted);
      assert a in multiset(filtered);
    }
    r
  }

  /** One threshold of the check: skipped when the metric is absent, TypeError when
      it is not a number, an alert when it is above, nothing otherwise. */
  lemma ThresholdStep(nodeId: string, metrics: map<string, MetricValue>, now: int,
                      ts: seq<(string, real)>, i: nat)
    requires i < |ts|
    ensures var (name, threshold) := ts[i];
            var here := ThresholdAlerts(nodeId, metrics, now, ts[i..]);
            var next := ThresholdAlerts(nodeId, metrics, now, ts[i + 1..]);
            && (name !in metrics ==> here == next)
            && (name in metrics && metrics[name].Text? ==> here == ([], Some("TypeError")))
            && (name in metrics && metrics[name].Num? && metrics[name].n > threshold ==>
                  here == ([Alert(now, nodeId, name, metrics[name].n, threshold,
                                  if metrics[name].n > threshold + 10.0 then "critical" else "warning")]
                           + next.0, next.1))
            && (name in metrics && metrics[name].Num? && metrics[name].n <= threshold ==> here == next)
  {
    assert ts[i..][0] == ts[i];
    assert ts[i..][1..] == ts[i + 1..];
  }

  lemma {:induction false} AddEachSnoc(store: seq<Alert>, news: seq<Alert>, a: Alert)
    ensures AddEach(store, news + [a]) == KeepRecent(AddEach(store, news) + [a])
    decreases |news|
  {
    if |news| > 0 {
      assert (news + [a])[1..] == news[1..] + [a];
      AddEachSnoc(KeepRecent(store + [news[0]]), news[1..], a);
    }
  }

  /** As written, a day-old entry is still there after the next recording, however
      old it is. */
  lemma AsWrittenKeepsStaleEntries(store: map<string, seq<Entry>>, nodeId: string,
                                   metrics: map<string, MetricValue>, stale: Entry, now: int)
    requires nodeId in store && stale in store[nodeId] && stale.timestamp <= now - Retention
    ensures stale in (store[nodeId] + [Entry(now, nodeId, metrics)])
    ensures stale !in Prune(store[nodeId] + [Entry(now, nodeId, metrics)], now - Retention)
  {
  }
}
