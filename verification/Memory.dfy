/** The memory module (exporter_memory.go): one request for the nodes, then one more for each node. */
module Memory {
  import opened Config
  import opened Decoder
  import opened Gauges
  import opened Wrappers

  datatype Scope = Scope(config: Config, cluster: string, selfNode: string)

  // The replies to the nested requests, by number; a request without one failed.
  type NodeReplies = imap<nat, Metrics>

  function NodeLabels(scope: Scope, node: StatsInfo): Labels
  {
    [scope.cluster, LabelOf(node, "name"), SelfLabel(scope.config, LabelOf(node, "name") == scope.selfNode)]
  }

  // How many nested requests are made before one fails.
  function Answered(n: nat, replies: NodeReplies): (k: nat)
    ensures k <= n && forall i :: 0 <= i < k ==> i in replies
    ensures k < n ==> k !in replies
  {
    if n == 0 then 0
    else
      var k := Answered(n - 1, replies);
      if k == n - 1 && k in replies then n else k
  }

  function NodeRows(scope: Scope, nodes: seq<StatsInfo>, replies: NodeReplies): (rows: seq<Row>)
    requires forall i :: 0 <= i < |nodes| ==> i in replies
    ensures |rows| == |nodes|
    ensures forall i :: 0 <= i < |nodes| ==> rows[i] == Row(NodeLabels(scope, nodes[i]), replies[i])
  {
    seq(|nodes|, i requires 0 <= i < |nodes| => Row(NodeLabels(scope, nodes[i]), replies[i]))
  }

  lemma {:induction false} RowsOneMore(scope: Scope, nodes: seq<StatsInfo>, n: nat, replies: NodeReplies)
    requires n < |nodes| && forall i :: 0 <= i <= n ==> i in replies
    ensures NodeRows(scope, nodes[..n + 1], replies)
         == NodeRows(scope, nodes[..n], replies) + [Row(NodeLabels(scope, nodes[n]), replies[n])]
  {
  }

  lemma {:induction false} AnsweredStays(k: nat, n: nat, replies: NodeReplies)
    requires Answered(k, replies) == k && k !in replies && k <= n
    ensures Answered(n, replies) == k
    decreases n
  {
    if k < n {
      AnsweredStays(k, n - 1, replies);
    }
  }

  class ExporterMemory {
    const memoryMetricsGauge: GaugeMap

    ghost predicate Valid()
    {
      memoryMetricsGauge.family == "memory"
    }

    constructor (metricMap: GaugeMap, excludeMetrics: seq<string>)
      requires metricMap.family == "memory"
      modifies metricMap
      ensures Valid() && memoryMetricsGauge == metricMap
      ensures metricMap.vecs == old(metricMap.vecs) - Names(excludeMetrics)
    {
      memoryMetricsGauge := metricMap;
      new;
      metricMap.Exclude(excludeMetrics);
    }

    method RecordNodes(scope: Scope, nodes: seq<StatsInfo>, replies: NodeReplies) returns (ok: bool)
      requires memoryMetricsGauge.vecs == Cleared(memoryMetricsGauge.vecs)
      modifies memoryMetricsGauge
      ensures ok == (Answered(|nodes|, replies) == |nodes|)
      ensures memoryMetricsGauge.vecs
           == Table(old(memoryMetricsGauge.vecs).Keys, NodeRows(scope, nodes[..Answered(|nodes|, replies)], replies))
    {
      ghost var keys := memoryMetricsGauge.vecs.Keys;
      ghost var rows := [];
      assert memoryMetricsGauge.vecs == Table(keys, rows);
      for n := 0 to |nodes|
        invariant Answered(n, replies) == n && rows == NodeRows(scope, nodes[..n], replies)
        invariant memoryMetricsGauge.vecs == Table(keys, rows)
      {
        if n !in replies {
          AnsweredStays(n, |nodes|, replies);
          return false;
        }
        var labels := NodeLabels(scope, nodes[n]);
        RecordedTable(keys, rows, Row(labels, replies[n]));
        memoryMetricsGauge.RecordAll(labels, replies[n]);
        RowsOneMore(scope, nodes, n, replies);
        rows := rows + [Row(labels, replies[n])];
      }
      assert nodes[..|nodes|] == nodes;
      return true;
    }

    // When the n-th node's request fails, the nodes before it are already on the gauges, but nothing is sent;
    // the next scrape starts from cleared gauges whatever this one left.
    method Collect(ctx: Context, config: Config, nodes: Option<seq<StatsInfo>>, replies: NodeReplies, ch: Channel)
      returns (ok: bool, ghost batch: seq<Sample>)
      requires Valid()
      modifies memoryMetricsGauge, ch
      ensures ok == (nodes.Some? && Answered(|nodes.value|, replies) == |nodes.value|)
      ensures ch.sent == old(ch.sent) + batch
      ensures !ok ==> batch == []
      ensures ok ==> Listing(batch, AllSamples("memory", memoryMetricsGauge.vecs))
      ensures nodes.None? ==> memoryMetricsGauge.vecs == Cleared(old(memoryMetricsGauge.vecs))
      ensures nodes.Some? ==>
                var scope := Scope(config, OrEmpty(ctx.cluster), OrEmpty(ctx.node));
                var k := Answered(|nodes.value|, replies);
                memoryMetricsGauge.vecs
                == Table(old(memoryMetricsGauge.vecs).Keys, NodeRows(scope, nodes.value[..k], replies))
    {
      memoryMetricsGauge.ResetAll();
      var selfNode := OrEmpty(ctx.node);
      var cluster := OrEmpty(ctx.cluster);
      if nodes == None {
        return false, [];
      }
      var answered := RecordNodes(Scope(config, cluster, selfNode), nodes.value, replies);
      if !answered {
        return false, [];
      }
      batch := memoryMetricsGauge.CollectAll(ch);
      return true, batch;
    }
  }

  ghost predicate DistinctNodes(nodes: seq<StatsInfo>)
  {
    forall i, j :: 0 <= i < j < |nodes| ==> LabelOf(nodes[i], "name") != LabelOf(nodes[j], "name")
  }

  lemma {:induction false} ColumnOfNodes(rows: seq<Row>, key: string)
    requires forall i, j :: 0 <= i < j < |rows| ==> rows[i].labels != rows[j].labels
    ensures DistinctLabels(Column(rows, key))
    ensures forall p :: p in Column(rows, key) ==> exists i :: 0 <= i < |rows| && rows[i].labels == p.labels
    ensures forall i :: 0 <= i < |rows| && key in rows[i].metrics ==>
        Point(rows[i].labels, rows[i].metrics[key]) in Column(rows, key)
    ensures forall i :: 0 <= i < |rows| && key !in rows[i].metrics ==>
              forall p :: p in Column(rows, key) ==> p.labels != rows[i].labels
    decreases |rows|
  {
    if rows != [] {
      var front, last := rows[..|rows| - 1], rows[|rows| - 1];
      assert rows == front + [last];
      ColumnOfNodes(front, key);
      assert forall i :: 0 <= i < |front| ==> front[i] == rows[i];
      forall p | p in Column(front, key)
        ensures p.labels != last.labels
      {
        var i :| 0 <= i < |front| && front[i].labels == p.labels;
        assert rows[i].labels == p.labels;
      }
      assert forall n :: 0 <= n < |Column(front, key)| ==> Column(front, key)[n] in Column(front, key);
    }
  }

  // After a scrape, each node has a series exactly for the metrics its own reply carries, with that reply's values,
  // under cluster, node and self.
  lemma {:induction false} SeriesOfNode(scope: Scope, nodes: seq<StatsInfo>, replies: NodeReplies, key: string, i: nat)
    requires i < |nodes| && DistinctNodes(nodes) && forall n :: 0 <= n < |nodes| ==> n in replies
    ensures var series := Plot(Column(NodeRows(scope, nodes, replies), key));
            var name := LabelOf(nodes[i], "name");
            var self := if scope.config.rabbitConnection == "loadbalancer" then "lb"
                        else if name == scope.selfNode then "1" else "0";
            var labels := [scope.cluster, name, self];
            if key in replies[i] then labels in series && series[labels] == replies[i][key] else labels !in series
  {
    var rows := NodeRows(scope, nodes, replies);
    var labels := NodeLabels(scope, nodes[i]);
    forall a, b | 0 <= a < b < |rows|
      ensures rows[a].labels != rows[b].labels
    {
      assert rows[a].labels[1] == LabelOf(nodes[a], "name") && rows[b].labels[1] == LabelOf(nodes[b], "name");
    }
    ColumnOfNodes(rows, key);
    var points := Column(rows, key);
    PlotDistinct(points);
    PlotAt(points, labels);
    if key in replies[i] {
      var n :| 0 <= n < |points| && points[n] == Point(labels, replies[i][key]);
      assert points[n].labels in Plot(points) && Plot(points)[points[n].labels] == points[n].value;
    } else {
      assert forall n :: 0 <= n < |points| ==> points[n] in points;
      assert rows[i].labels == labels;
    }
  }

  lemma {:induction false} RowOfPoint(rows: seq<Row>, key: string, n: nat) returns (i: nat)
    requires n < |Column(rows, key)|
    ensures i < |rows| && key in rows[i].metrics && rows[i].labels == Column(rows, key)[n].labels
    decreases |rows|
  {
    i := |rows| - 1;
    var front := rows[..i];
    if n < |Column(front, key)| {
      i := RowOfPoint(front, key, n);
    }
  }

  // And no other series: each belongs to a node whose reply carries the metric.
  lemma {:induction false} NoOtherNode(scope: Scope, nodes: seq<StatsInfo>, replies: NodeReplies, key: string,
      labels: Labels)
    returns (i: nat)
    requires forall n :: 0 <= n < |nodes| ==> n in replies
    requires labels in Plot(Column(NodeRows(scope, nodes, replies), key))
    ensures i < |nodes| && key in replies[i]
    ensures labels == [scope.cluster, LabelOf(nodes[i], "name"),
                       SelfLabel(scope.config, LabelOf(nodes[i], "name") == scope.selfNode)]
  {
    var rows := NodeRows(scope, nodes, replies);
    var points := Column(rows, key);
    PlotAt(points, labels);
    var n :| 0 <= n < |points| && points[n].labels == labels;
    i := RowOfPoint(rows, key, n);
  }
}
