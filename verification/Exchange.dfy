/** The exchange module (exporter_exchange.go): counters of the exchanges that pass the filters,
    sent as they are read. */
module Exchange {
  import opened Config
  import opened Decoder
  import opened Gauges
  import opened Wrappers

  const EXCHANGE := "exchange"

  datatype Scope = Scope(config: Config, cluster: string)

  predicate Included(scope: Scope, exchange: StatsInfo)
  {
    var vname, ename := LabelOf(exchange, "vhost"), LabelOf(exchange, "name");
    && vname in scope.config.includeVHost && vname !in scope.config.skipVHost
    && ename in scope.config.includeExchanges && ename !in scope.config.skipExchanges
  }

  function SampleFor(scope: Scope, key: string, exchange: StatsInfo): Sample
    requires key in exchange.metrics
  {
    Sample(Desc(EXCHANGE, key), [scope.cluster, LabelOf(exchange, "vhost"), LabelOf(exchange, "name")],
        exchange.metrics[key])
  }

  // The samples of one metric, in the order of the reply.
  function MetricSamples(scope: Scope, key: string, data: seq<StatsInfo>): seq<Sample>
  {
    if data == [] then []
    else
      var front, last := MetricSamples(scope, key, data[..|data| - 1]), data[|data| - 1];
      if Included(scope, last) && key in last.metrics then front + [SampleFor(scope, key, last)] else front
  }

  // All samples, metric by metric.
  function SamplesInOrder(scope: Scope, order: seq<string>, data: seq<StatsInfo>): seq<Sample>
  {
    if order == [] then []
    else SamplesInOrder(scope, order[..|order| - 1], data) + MetricSamples(scope, order[|order| - 1], data)
  }

  ghost predicate Enumerates(order: seq<string>, keys: set<string>)
  {
    && (forall i, j :: 0 <= i < j < |order| ==> order[i] != order[j])
    && (forall key :: key in order <==> key in keys)
  }

  class ExporterExchange {
    const exchangeMetrics: CounterMap

    ghost predicate Valid()
    {
      exchangeMetrics.family == EXCHANGE
    }

    constructor (metricMap: CounterMap, excludeMetrics: seq<string>)
      requires metricMap.family == EXCHANGE
      modifies metricMap
      ensures Valid() && exchangeMetrics == metricMap
      ensures metricMap.keys == old(metricMap.keys) - Names(excludeMetrics)
    {
      exchangeMetrics := metricMap;
      new;
      metricMap.Exclude(excludeMetrics);
    }

    method SendMetric(scope: Scope, key: string, data: seq<StatsInfo>, ch: Channel)
      requires Valid()
      modifies ch
      ensures ch.sent == old(ch.sent) + MetricSamples(scope, key, data)
    {
      for n := 0 to |data|
        invariant ch.sent == old(ch.sent) + MetricSamples(scope, key, data[..n])
      {
        assert data[..n + 1][..n] == data[..n];
        var exchange := data[n];
        var ename := LabelOf(exchange, "name");
        var vname := LabelOf(exchange, "vhost");
        if vname !in scope.config.includeVHost {
          continue;
        }
        if vname in scope.config.skipVHost {
          continue;
        }
        if ename !in scope.config.includeExchanges {
          continue;
        }
        if ename in scope.config.skipExchanges {
          continue;
        }
        if key in exchange.metrics {
          ch.Send(Sample(Desc(exchangeMetrics.family, key), [scope.cluster, vname, ename], exchange.metrics[key]));
        }
      }
      assert data[..|data|] == data;
    }

    // The metrics are visited in an arbitrary order.
    method Collect(ctx: Context, config: Config, reply: Option<seq<StatsInfo>>, ch: Channel)
      returns (ok: bool, ghost order: seq<string>, ghost batch: seq<Sample>)
      requires Valid()
      modifies ch
      ensures ok == reply.Some? && ch.sent == old(ch.sent) + batch
      ensures !ok ==> batch == []
      ensures ok ==> Enumerates(order, exchangeMetrics.keys)
                     && batch == SamplesInOrder(Scope(config, OrEmpty(ctx.cluster)), order, reply.value)
    {
      order, batch := [], [];
      if reply == None {
        return false, [], [];
      }
      var scope := Scope(config, OrEmpty(ctx.cluster));
      var rest := exchangeMetrics.keys;
      while rest != {}
        invariant rest <= exchangeMetrics.keys && Enumerates(order, exchangeMetrics.keys - rest)
        invariant ch.sent == old(ch.sent) + batch
        invariant batch == SamplesInOrder(scope, order, reply.value)
      {
        var key :| key in rest;
        rest := rest - {key};
        SendMetric(scope, key, reply.value, ch);
        assert (order + [key])[..|order|] == order;
        order := order + [key];
        batch := batch + MetricSamples(scope, key, reply.value);
      }
      return true, order, batch;
    }
  }

  // --- What is sent ---

  ghost predicate Wanted(scope: Scope, key: string, data: seq<StatsInfo>, sample: Sample)
  {
    exists i :: 0 <= i < |data| && Included(scope, data[i]) && key in data[i].metrics
        && sample == SampleFor(scope, key, data[i])
  }

  lemma {:induction false} MetricSamplesMembers(scope: Scope, key: string, data: seq<StatsInfo>, sample: Sample)
    ensures sample in MetricSamples(scope, key, data) <==> Wanted(scope, key, data, sample)
    decreases |data|
  {
    if data != [] {
      var front, last := data[..|data| - 1], data[|data| - 1];
      MetricSamplesMembers(scope, key, front, sample);
      if Wanted(scope, key, front, sample) {
        var i :| 0 <= i < |front| && Included(scope, front[i]) && key in front[i].metrics
                 && sample == SampleFor(scope, key, front[i]);
        assert data[i] == front[i];
      }
      assert Wanted(scope, key, data, sample) <==>
             Wanted(scope, key, front, sample)
             || (Included(scope, last) && key in last.metrics && sample == SampleFor(scope, key, last));
    }
  }

  lemma {:induction false} SamplesInOrderMembers(scope: Scope, order: seq<string>, data: seq<StatsInfo>,
      sample: Sample)
    ensures sample in SamplesInOrder(scope, order, data) <==>
            sample.desc.key in order && Wanted(scope, sample.desc.key, data, sample)
    decreases |order|
  {
    if order != [] {
      var front, last := order[..|order| - 1], order[|order| - 1];
      assert order == front + [last];
      SamplesInOrderMembers(scope, front, data, sample);
      MetricSamplesMembers(scope, last, data, sample);
    }
  }

  // For every metric order, the samples sent are exactly those of the exchanges that pass the four filters and carry
  // the metric, under cluster, vhost and name.
  lemma {:induction false} ExactlyTheWanted(scope: Scope, order: seq<string>, data: seq<StatsInfo>, sample: Sample)
    ensures sample in SamplesInOrder(scope, order, data) <==>
            && sample.desc.family == "exchange" && sample.desc.key in order
            && exists exchange ::
                 && exchange in data
                 && LabelOf(exchange, "vhost") in scope.config.includeVHost
                 && LabelOf(exchange, "vhost") !in scope.config.skipVHost
                 && LabelOf(exchange, "name") in scope.config.includeExchanges
                 && LabelOf(exchange, "name") !in scope.config.skipExchanges
                 && sample.desc.key in exchange.metrics && sample.value == exchange.metrics[sample.desc.key]
                 && sample.labels == [scope.cluster, LabelOf(exchange, "vhost"), LabelOf(exchange, "name")]
  {
    SamplesInOrderMembers(scope, order, data, sample);
    if sample.desc.family == "exchange" {
      assert sample.desc == Desc(EXCHANGE, sample.desc.key);
    }
    assert forall i :: 0 <= i < |data| ==> data[i] in data;
  }

  ghost predicate DistinctNames(data: seq<StatsInfo>)
  {
    forall i, j :: 0 <= i < j < |data| ==>
      LabelOf(data[i], "vhost") != LabelOf(data[j], "vhost") || LabelOf(data[i], "name") != LabelOf(data[j], "name")
  }

  lemma {:induction false} MetricSamplesUnique(scope: Scope, key: string, data: seq<StatsInfo>, i: nat, j: nat)
    requires DistinctNames(data) && i < j < |MetricSamples(scope, key, data)|
    ensures MetricSamples(scope, key, data)[i].labels != MetricSamples(scope, key, data)[j].labels
    decreases |data|
  {
    var front, last := data[..|data| - 1], data[|data| - 1];
    var before := MetricSamples(scope, key, front);
    if j < |before| {
      MetricSamplesUnique(scope, key, front, i, j);
    } else {
      var sample := before[i];
      assert sample in before;
      MetricSamplesMembers(scope, key, front, sample);
      var k :| 0 <= k < |front| && Included(scope, front[k]) && key in front[k].metrics
               && sample == SampleFor(scope, key, front[k]);
      assert data[k] == front[k];
      assert sample.labels[1] == LabelOf(front[k], "vhost") && sample.labels[2] == LabelOf(front[k], "name");
      assert SampleFor(scope, key, last).labels[1] == LabelOf(last, "vhost")
          && SampleFor(scope, key, last).labels[2] == LabelOf(last, "name");
    }
  }

  // When no two exchanges share vhost and name, no metric is sent twice for one label tuple.
  lemma {:induction false} NothingTwice(scope: Scope, order: seq<string>, data: seq<StatsInfo>, i: nat, j: nat)
    requires DistinctNames(data) && (forall a, b :: 0 <= a < b < |order| ==> order[a] != order[b])
    requires i < j < |SamplesInOrder(scope, order, data)|
    ensures SamplesInOrder(scope, order, data)[i].desc != SamplesInOrder(scope, order, data)[j].desc
         || SamplesInOrder(scope, order, data)[i].labels != SamplesInOrder(scope, order, data)[j].labels
    decreases |order|
  {
    var front, last := order[..|order| - 1], order[|order| - 1];
    var before, after := SamplesInOrder(scope, front, data), MetricSamples(scope, last, data);
    if j < |before| {
      NothingTwice(scope, front, data, i, j);
    } else {
      var second := after[j - |before|];
      assert second in after;
      MetricSamplesMembers(scope, last, data, second);
      if i < |before| {
        var first := before[i];
        assert first in before;
        SamplesInOrderMembers(scope, front, data, first);
        var n :| 0 <= n < |front| && front[n] == first.desc.key;
        assert order[n] == front[n];
      } else {
        MetricSamplesUnique(scope, last, data, i - |before|, j - |before|);
      }
    }
  }
}
