/** The connections module (exporter_connections.go): connection metrics summed per label tuple. */
module Connections {
  import opened Config
  import opened Decoder
  import opened Gauges
  import opened Wrappers

  // Which vector a connection contributes to: one of the metric vectors, or the state vector.
  datatype Vector = Metric(key: string) | Status

  datatype Scope = Scope(config: Config, cluster: string, selfNode: string)

  // What one connection adds to one vector, if anything.
  function Reading(scope: Scope, vector: Vector, conn: StatsInfo): Option<Point>
  {
    var self := SelfLabel(scope.config, LabelOf(conn, "node") == scope.selfNode);
    match vector
    case Metric(key) =>
      if key in conn.metrics then
        Some(Point([scope.cluster, LabelOf(conn, "vhost"), LabelOf(conn, "node"), LabelOf(conn, "peer_host"),
                    LabelOf(conn, "user"), self], conn.metrics[key]))
      else None
    case Status =>
      Some(Point([scope.cluster, LabelOf(conn, "vhost"), LabelOf(conn, "node"), LabelOf(conn, "peer_host"),
                  LabelOf(conn, "user"), LabelOf(conn, "state"), self], 1.0))
  }

  function Totals(scope: Scope, vector: Vector, conns: seq<StatsInfo>): Series
  {
    if conns == [] then map[]
    else
      var front := Totals(scope, vector, conns[..|conns| - 1]);
      match Reading(scope, vector, conns[|conns| - 1])
      case None => front
      case Some(p) => Added(front, p.labels, p.value)
  }

  class ExporterConnections {
    const connectionMetricsG: GaugeMap
    const stateMetric: GaugeVec

    ghost predicate Valid()
    {
      connectionMetricsG.family == "connection" && stateMetric.desc == Desc("connection_status", "")
    }

    constructor (metricMap: GaugeMap, excludeMetrics: seq<string>)
      requires metricMap.family == "connection"
      modifies metricMap
      ensures Valid() && connectionMetricsG == metricMap && fresh(stateMetric)
      ensures metricMap.vecs == old(metricMap.vecs) - Names(excludeMetrics)
    {
      connectionMetricsG := metricMap;
      stateMetric := new GaugeVec(Desc("connection_status", ""));
      new;
      metricMap.Exclude(excludeMetrics);
    }

    lemma {:induction false} ConnectionSamplesDisjoint()
      requires Valid()
      ensures AllSamples("connection", connectionMetricsG.vecs) !! SamplesOf(stateMetric.desc, stateMetric.series)
    {
    }

    method AddMetric(scope: Scope, key: string, conns: seq<StatsInfo>)
      requires key in connectionMetricsG.vecs && connectionMetricsG.vecs[key] == map[]
      modifies connectionMetricsG
      ensures connectionMetricsG.vecs == old(connectionMetricsG.vecs)[key := Totals(scope, Metric(key), conns)]
    {
      for n := 0 to |conns|
        invariant connectionMetricsG.vecs == old(connectionMetricsG.vecs)[key := Totals(scope, Metric(key), conns[..n])]
      {
        assert conns[..n + 1][..n] == conns[..n];
        var conn := conns[n];
        if key in conn.metrics {
          var self := SelfLabel(scope.config, LabelOf(conn, "node") == scope.selfNode);
          var labels := [scope.cluster, LabelOf(conn, "vhost"), LabelOf(conn, "node"), LabelOf(conn, "peer_host"),
                         LabelOf(conn, "user"), self];
          assert Reading(scope, Metric(key), conn) == Some(Point(labels, conn.metrics[key]));
          connectionMetricsG.Add(key, labels, conn.metrics[key]);
        }
      }
      assert conns[..|conns|] == conns;
    }

    // For every metric, for every connection that carries it.
    method AddMetrics(scope: Scope, conns: seq<StatsInfo>)
      requires connectionMetricsG.vecs == Cleared(connectionMetricsG.vecs)
      modifies connectionMetricsG
      ensures connectionMetricsG.vecs
           == map key | key in old(connectionMetricsG.vecs) :: Totals(scope, Metric(key), conns)
    {
      ghost var keys := connectionMetricsG.vecs.Keys;
      var rest := connectionMetricsG.vecs.Keys;
      while rest != {}
        invariant rest <= keys && connectionMetricsG.vecs.Keys == keys
        invariant forall key :: key in keys ==>
                    connectionMetricsG.vecs[key] == if key in rest then map[] else Totals(scope, Metric(key), conns)
      {
        var key :| key in rest;
        rest := rest - {key};
        AddMetric(scope, key, conns);
      }
    }

    method AddStates(scope: Scope, conns: seq<StatsInfo>)
      requires stateMetric.series == map[]
      modifies stateMetric
      ensures stateMetric.series == Totals(scope, Status, conns)
    {
      for n := 0 to |conns|
        invariant stateMetric.series == Totals(scope, Status, conns[..n])
      {
        assert conns[..n + 1][..n] == conns[..n];
        var conn := conns[n];
        var self := SelfLabel(scope.config, LabelOf(conn, "node") == scope.selfNode);
        var labels := [scope.cluster, LabelOf(conn, "vhost"), LabelOf(conn, "node"), LabelOf(conn, "peer_host"),
                       LabelOf(conn, "user"), LabelOf(conn, "state"), self];
        assert Reading(scope, Status, conn) == Some(Point(labels, 1.0));
        stateMetric.Add(labels, 1.0);
      }
      assert conns[..|conns|] == conns;
    }

    // On failure nothing is touched: the request comes before the resets.
    method Collect(ctx: Context, config: Config, reply: Option<seq<StatsInfo>>, ch: Channel)
      returns (ok: bool, ghost batch: seq<Sample>)
      requires Valid()
      modifies connectionMetricsG, stateMetric, ch
      ensures ok == reply.Some? && ch.sent == old(ch.sent) + batch
      ensures !ok ==> batch == [] && connectionMetricsG.vecs == old(connectionMetricsG.vecs)
                      && stateMetric.series == old(stateMetric.series)
      ensures ok ==> var scope := Scope(config, OrEmpty(ctx.cluster), OrEmpty(ctx.node));
                && connectionMetricsG.vecs
                   == (map key | key in old(connectionMetricsG.vecs) :: Totals(scope, Metric(key), reply.value))
                && stateMetric.series == Totals(scope, Status, reply.value)
                && Listing(batch, AllSamples("connection", connectionMetricsG.vecs)
                                  + SamplesOf(stateMetric.desc, stateMetric.series))
    {
      if reply == None {
        return false, [];
      }
      connectionMetricsG.ResetAll();
      stateMetric.Reset();
      var scope := Scope(config, OrEmpty(ctx.cluster), OrEmpty(ctx.node));
      AddMetrics(scope, reply.value);
      AddStates(scope, reply.value);
      var first := connectionMetricsG.CollectAll(ch);
      var second := stateMetric.Collect(ch);
      ConnectionSamplesDisjoint();
      ListingUnion(first, AllSamples("connection", connectionMetricsG.vecs),
                   second, SamplesOf(stateMetric.desc, stateMetric.series));
      return true, first + second;
    }
  }

  // --- What the totals are ---

  // What a connection adds to the series with these labels, read off its own fields: its metric, or one to its state.
  function Contribution(scope: Scope, vector: Vector, conn: StatsInfo, labels: Labels): Option<real>
  {
    var self := if scope.config.rabbitConnection == "loadbalancer" then "lb"
                else if LabelOf(conn, "node") == scope.selfNode then "1" else "0";
    match vector
    case Metric(key) =>
      if key in conn.metrics
         && labels == [scope.cluster, LabelOf(conn, "vhost"), LabelOf(conn, "node"), LabelOf(conn, "peer_host"),
                       LabelOf(conn, "user"), self]
      then Some(conn.metrics[key])
      else None
    case Status =>
      if labels == [scope.cluster, LabelOf(conn, "vhost"), LabelOf(conn, "node"), LabelOf(conn, "peer_host"),
                    LabelOf(conn, "user"), LabelOf(conn, "state"), self]
      then Some(1.0)
      else None
  }

  function OrZero(r: Option<real>): real
  {
    match r case Some(value) => value case None => 0.0
  }

  // The sum over all connections with that label tuple.
  function SumAt(scope: Scope, vector: Vector, conns: seq<StatsInfo>, labels: Labels): real
  {
    if conns == [] then 0.0
    else SumAt(scope, vector, conns[..|conns| - 1], labels)
         + OrZero(Contribution(scope, vector, conns[|conns| - 1], labels))
  }

  // The sum of a metric over all connections that carry it.
  function SumAll(key: string, conns: seq<StatsInfo>): real
  {
    if conns == [] then 0.0
    else
      var before, last := SumAll(key, conns[..|conns| - 1]), conns[|conns| - 1];
      if key in last.metrics then before + last.metrics[key] else before
  }

  // What a connection is booked under is what it contributes to.
  lemma {:induction false} ReadingContributes(scope: Scope, vector: Vector, conn: StatsInfo, labels: Labels)
    ensures Contribution(scope, vector, conn, labels)
         == match Reading(scope, vector, conn)
            case Some(p) => if p.labels == labels then Some(p.value) else None
            case None => None
  {
  }

  predicate SomeContributes(scope: Scope, vector: Vector, conns: seq<StatsInfo>, labels: Labels)
  {
    exists conn :: conn in conns && Contribution(scope, vector, conn, labels).Some?
  }

  // A series exists exactly when some connection contributes to it.
  lemma {:induction false} SeriesExists(scope: Scope, vector: Vector, conns: seq<StatsInfo>, labels: Labels)
    ensures labels in Totals(scope, vector, conns) <==> SomeContributes(scope, vector, conns, labels)
    decreases |conns|
  {
    if conns != [] {
      var front, last := conns[..|conns| - 1], conns[|conns| - 1];
      assert conns == front + [last];
      SeriesExists(scope, vector, front, labels);
      ReadingContributes(scope, vector, last, labels);
      assert SomeContributes(scope, vector, conns, labels) <==>
             SomeContributes(scope, vector, front, labels) || Contribution(scope, vector, last, labels).Some?;
    }
  }

  // Each series is the sum over the connections with that label tuple.
  lemma {:induction false} SeriesIsSum(scope: Scope, vector: Vector, conns: seq<StatsInfo>, labels: Labels)
    ensures (if labels in Totals(scope, vector, conns) then Totals(scope, vector, conns)[labels] else 0.0)
         == SumAt(scope, vector, conns, labels)
    decreases |conns|
  {
    if conns != [] {
      SeriesIsSum(scope, vector, conns[..|conns| - 1], labels);
      ReadingContributes(scope, vector, conns[|conns| - 1], labels);
    }
  }

  // The metric series are those of cluster, vhost, node, peer host, user and self, for the connections that carry the
  // metric...
  lemma {:induction false} MetricSeries(scope: Scope, key: string, conns: seq<StatsInfo>, labels: Labels)
    ensures labels in Totals(scope, Metric(key), conns) <==>
            exists conn ::
              && conn in conns && key in conn.metrics
              && labels == [scope.cluster, LabelOf(conn, "vhost"), LabelOf(conn, "node"), LabelOf(conn, "peer_host"),
                            LabelOf(conn, "user"), SelfLabel(scope.config, LabelOf(conn, "node") == scope.selfNode)]
  {
    SeriesExists(scope, Metric(key), conns, labels);
  }

  // ...and the state series, those of all connections, with the state before self.
  lemma {:induction false} StateSeries(scope: Scope, conns: seq<StatsInfo>, labels: Labels)
    ensures labels in Totals(scope, Status, conns) <==>
            exists conn ::
              && conn in conns
              && labels == [scope.cluster, LabelOf(conn, "vhost"), LabelOf(conn, "node"), LabelOf(conn, "peer_host"),
                            LabelOf(conn, "user"), LabelOf(conn, "state"),
                            SelfLabel(scope.config, LabelOf(conn, "node") == scope.selfNode)]
  {
    SeriesExists(scope, Status, conns, labels);
  }

  ghost function SumSeries(series: Series): real
  {
    if series == map[] then 0.0
    else var labels :| labels in series; series[labels] + SumSeries(series - {labels})
  }

  lemma {:induction false} SmallerSeries(series: Series, labels: Labels)
    requires labels in series
    ensures |series - {labels}| < |series|
  {
    assert (series - {labels}).Keys == series.Keys - {labels};
    assert |series.Keys - {labels}| < |series.Keys|;
  }

  lemma {:induction false} SumSeriesAny(series: Series, labels: Labels)
    requires labels in series
    ensures SumSeries(series) == series[labels] + SumSeries(series - {labels})
    decreases |series|
  {
    var first :| first in series && SumSeries(series) == series[first] + SumSeries(series - {first});
    if first != labels {
      SmallerSeries(series, first);
      SmallerSeries(series, labels);
      SumSeriesAny(series - {first}, labels);
      SumSeriesAny(series - {labels}, first);
      assert series - {first} - {labels} == series - {labels} - {first};
    }
  }

  lemma {:induction false} SumAdded(series: Series, labels: Labels, value: real)
    ensures SumSeries(Added(series, labels, value)) == SumSeries(series) + value
  {
    SumSeriesAny(Added(series, labels, value), labels);
    assert Added(series, labels, value) - {labels} == series - {labels};
    if labels in series {
      SumSeriesAny(series, labels);
    } else {
      assert series - {labels} == series;
    }
  }

  // All series of a metric together are the sum over all connections that carry it.
  lemma {:induction false} GrandTotal(scope: Scope, key: string, conns: seq<StatsInfo>)
    ensures SumSeries(Totals(scope, Metric(key), conns)) == SumAll(key, conns)
    decreases |conns|
  {
    if conns != [] {
      var front, last := conns[..|conns| - 1], conns[|conns| - 1];
      GrandTotal(scope, key, front);
      match Reading(scope, Metric(key), last)
      case None =>
      case Some(p) => SumAdded(Totals(scope, Metric(key), front), p.labels, p.value);
    }
  }

  // The state series add up to the number of connections.
  lemma {:induction false} StatesCountConnections(scope: Scope, conns: seq<StatsInfo>)
    ensures SumSeries(Totals(scope, Status, conns)) == |conns| as real
    decreases |conns|
  {
    if conns != [] {
      var front := conns[..|conns| - 1];
      StatesCountConnections(scope, front);
      var p := Reading(scope, Status, conns[|conns| - 1]).value;
      SumAdded(Totals(scope, Status, front), p.labels, p.value);
    }
  }

  function Without(conns: seq<StatsInfo>, i: nat): (rest: seq<StatsInfo>)
    requires i < |conns|
    ensures |rest| == |conns| - 1
  {
    conns[..i] + conns[i + 1..]
  }

  lemma {:induction false} WithoutFront(conns: seq<StatsInfo>, i: nat)
    requires i < |conns| - 1
    ensures Without(conns, i)[..|conns| - 2] == Without(conns[..|conns| - 1], i)
    ensures Without(conns, i)[|conns| - 2] == conns[|conns| - 1]
  {
  }

  lemma {:induction false} SumAtWithout(scope: Scope, vector: Vector, conns: seq<StatsInfo>, labels: Labels, i: nat)
    requires i < |conns|
    ensures SumAt(scope, vector, conns, labels)
         == SumAt(scope, vector, Without(conns, i), labels) + OrZero(Contribution(scope, vector, conns[i], labels))
    decreases |conns|
  {
    var n := |conns| - 1;
    if i == n {
      assert Without(conns, i) == conns[..n];
    } else {
      WithoutFront(conns, i);
      SumAtWithout(scope, vector, conns[..n], labels, i);
    }
  }

  lemma {:induction false} WithoutOne(conns: seq<StatsInfo>, i: nat)
    requires i < |conns|
    ensures multiset(Without(conns, i)) == multiset(conns) - multiset{conns[i]}
  {
    assert conns == conns[..i] + [conns[i]] + conns[i + 1..];
  }

  lemma {:induction false} SameWithout(a: seq<StatsInfo>, b: seq<StatsInfo>, i: nat)
    requires a != [] && i < |b| && b[i] == a[|a| - 1] && multiset(a) == multiset(b)
    ensures multiset(Without(a, |a| - 1)) == multiset(Without(b, i))
  {
    WithoutOne(a, |a| - 1);
    WithoutOne(b, i);
  }

  lemma {:induction false} IndexIn(a: seq<StatsInfo>, b: seq<StatsInfo>) returns (i: nat)
    requires a != [] && multiset(a) == multiset(b)
    ensures i < |b| && b[i] == a[|a| - 1]
  {
    assert a[|a| - 1] in multiset(b);
    i :| 0 <= i < |b| && b[i] == a[|a| - 1];
  }

  lemma {:induction false} SumAtPermuted(scope: Scope, vector: Vector, a: seq<StatsInfo>, b: seq<StatsInfo>,
      labels: Labels)
    requires multiset(a) == multiset(b)
    ensures SumAt(scope, vector, a, labels) == SumAt(scope, vector, b, labels)
    decreases |a|
  {
    if a == [] {
      assert |multiset(b)| == 0;
      assert b == [];
    } else {
      var i := IndexIn(a, b);
      SumAtWithout(scope, vector, a, labels, |a| - 1);
      SumAtWithout(scope, vector, b, labels, i);
      SameWithout(a, b, i);
      SumAtPermuted(scope, vector, Without(a, |a| - 1), Without(b, i), labels);
    }
  }

  // The order in which the reply lists the connections does not matter.
  lemma {:induction false} OrderOfConnectionsIrrelevant(scope: Scope, vector: Vector, a: seq<StatsInfo>,
      b: seq<StatsInfo>)
    requires multiset(a) == multiset(b)
    ensures Totals(scope, vector, a) == Totals(scope, vector, b)
  {
    var s, t := Totals(scope, vector, a), Totals(scope, vector, b);
    forall conn
      ensures conn in a <==> conn in b
    {
      assert conn in multiset(a) <==> conn in multiset(b);
    }
    forall labels
      ensures labels in s <==> labels in t
      ensures labels in s && labels in t ==> s[labels] == t[labels]
    {
      SeriesExists(scope, vector, a, labels);
      SeriesExists(scope, vector, b, labels);
      SeriesIsSum(scope, vector, a, labels);
      SeriesIsSum(scope, vector, b, labels);
      SumAtPermuted(scope, vector, a, b, labels);
    }
  }
}
