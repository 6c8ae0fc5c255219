/** The parts of the Prometheus client the exporter uses: vectors of gauges, metric descriptions,
    and the output channel. */
module Gauges {
  import opened Decoder

  type Labels = seq<string>
  type Series = map<Labels, real>

  datatype Desc = Desc(family: string, key: string)
  datatype Sample = Sample(desc: Desc, labels: Labels, value: real)

  // The channel a scrape sends its samples to.
  class Channel {
    var sent: seq<Sample>

    constructor ()
      ensures sent == []
    {
      sent := [];
    }

    method Send(sample: Sample)
      modifies this
      ensures sent == old(sent) + [sample]
    {
      sent := sent + [sample];
    }
  }

  // --- What is sent ---

  predicate NoRepeats(batch: seq<Sample>)
  {
    forall i, j :: 0 <= i < j < |batch| ==> batch[i] != batch[j]
  }

  // The batch holds each wanted sample once, in some order.
  ghost predicate Listing(batch: seq<Sample>, wanted: set<Sample>)
  {
    NoRepeats(batch) && forall sample :: sample in batch <==> sample in wanted
  }

  ghost function SamplesOf(desc: Desc, series: Series): set<Sample>
  {
    set labels | labels in series :: Sample(desc, labels, series[labels])
  }

  ghost function AllSamples(family: string, vecs: map<string, Series>): set<Sample>
  {
    set key, labels | key in vecs && labels in vecs[key] :: Sample(Desc(family, key), labels, vecs[key][labels])
  }

  lemma {:induction false} ListingUnion(a: seq<Sample>, wantedA: set<Sample>, b: seq<Sample>, wantedB: set<Sample>)
    requires Listing(a, wantedA) && Listing(b, wantedB) && wantedA !! wantedB
    ensures Listing(a + b, wantedA + wantedB)
  {
    forall i, j | 0 <= i < j < |a + b|
      ensures (a + b)[i] != (a + b)[j]
    {
      if i < |a| <= j {
        assert a[i] in a && b[j - |a|] in b;
      }
    }
  }

  lemma {:induction false} SamplesOfMember(desc: Desc, series: Series, sample: Sample)
    ensures sample in SamplesOf(desc, series) <==>
            sample.desc == desc && sample.labels in series && series[sample.labels] == sample.value
  {
    if sample.desc == desc && sample.labels in series && series[sample.labels] == sample.value {
      assert sample == Sample(desc, sample.labels, series[sample.labels]);
    }
  }

  lemma {:induction false} AllSamplesMember(family: string, vecs: map<string, Series>, sample: Sample)
    ensures sample in AllSamples(family, vecs) <==>
            && sample.desc.family == family && sample.desc.key in vecs
            && sample in SamplesOf(sample.desc, vecs[sample.desc.key])
  {
    if sample.desc.family == family && sample.desc.key in vecs {
      var series := vecs[sample.desc.key];
      SamplesOfMember(sample.desc, series, sample);
      assert sample.desc == Desc(family, sample.desc.key);
      if sample in SamplesOf(sample.desc, series) {
        assert sample == Sample(Desc(family, sample.desc.key), sample.labels, vecs[sample.desc.key][sample.labels]);
      }
    }
  }

  lemma {:induction false} OneMoreSeries(desc: Desc, done: Series, labels: Labels, value: real)
    requires labels !in done
    ensures Sample(desc, labels, value) !in SamplesOf(desc, done)
    ensures SamplesOf(desc, done[labels := value]) == SamplesOf(desc, done) + {Sample(desc, labels, value)}
  {
    forall sample
      ensures sample in SamplesOf(desc, done[labels := value])
         <==> sample in SamplesOf(desc, done) + {Sample(desc, labels, value)}
    {
      SamplesOfMember(desc, done[labels := value], sample);
      SamplesOfMember(desc, done, sample);
    }
  }

  lemma {:induction false} OneMoreVector(family: string, done: map<string, Series>, key: string, series: Series)
    requires key !in done
    ensures AllSamples(family, done) !! SamplesOf(Desc(family, key), series)
    ensures AllSamples(family, done[key := series]) == AllSamples(family, done) + SamplesOf(Desc(family, key), series)
  {
    forall sample
      ensures sample in AllSamples(family, done[key := series])
         <==> sample in AllSamples(family, done) + SamplesOf(Desc(family, key), series)
    {
      AllSamplesMember(family, done[key := series], sample);
      AllSamplesMember(family, done, sample);
      SamplesOfMember(Desc(family, key), series, sample);
    }
  }

  method SendSeries(ch: Channel, desc: Desc, series: Series) returns (ghost batch: seq<Sample>)
    modifies ch
    ensures ch.sent == old(ch.sent) + batch && Listing(batch, SamplesOf(desc, series))
  {
    batch := [];
    var rest := series.Keys;
    ghost var done: Series := map[];
    while rest != {}
      invariant rest <= series.Keys && done == series - rest
      invariant ch.sent == old(ch.sent) + batch && Listing(batch, SamplesOf(desc, done))
    {
      var labels :| labels in rest;
      rest := rest - {labels};
      var sample := Sample(desc, labels, series[labels]);
      ch.Send(sample);
      OneMoreSeries(desc, done, labels, series[labels]);
      ListingUnion(batch, SamplesOf(desc, done), [sample], {sample});
      batch := batch + [sample];
      done := done[labels := series[labels]];
    }
    assert done == series;
  }

  // Adding to a series that does not exist yet starts from zero.
  function Added(series: Series, labels: Labels, value: real): Series
  {
    series[labels := (if labels in series then series[labels] else 0.0) + value]
  }

  // One vector of gauges, by label tuple.
  class GaugeVec {
    const desc: Desc

    var series: Series

    constructor (desc: Desc)
      ensures this.desc == desc && series == map[]
    {
      this.desc := desc;
      series := map[];
    }

    method Reset()
      modifies this
      ensures series == map[]
    {
      series := map[];
    }

    method Set(labels: Labels, value: real)
      modifies this
      ensures series == old(series)[labels := value]
    {
      series := series[labels := value];
    }

    method Add(labels: Labels, value: real)
      modifies this
      ensures series == Added(old(series), labels, value)
    {
      series := Added(series, labels, value);
    }

    method DeleteLabelValues(labels: Labels)
      modifies this
      ensures series == old(series) - {labels}
    {
      series := series - {labels};
    }

    method Collect(ch: Channel) returns (ghost batch: seq<Sample>)
      modifies ch
      ensures ch.sent == old(ch.sent) + batch && Listing(batch, SamplesOf(desc, series))
    {
      batch := SendSeries(ch, desc, series);
    }
  }

  function Cleared(vecs: map<string, Series>): map<string, Series>
  {
    map key | key in vecs :: map[]
  }

  function Recorded(vecs: map<string, Series>, labels: Labels, metrics: Metrics): map<string, Series>
  {
    map key | key in vecs :: if key in metrics then vecs[key][labels := metrics[key]] else vecs[key]
  }

  // --- Exclusion lists ---

  function Names(excludeMetrics: seq<string>): set<string>
  {
    set key | key in excludeMetrics
  }

  lemma {:induction false} OneMoreName(excludeMetrics: seq<string>, n: nat)
    requires n < |excludeMetrics|
    ensures Names(excludeMetrics[..n + 1]) == Names(excludeMetrics[..n]) + {excludeMetrics[n]}
  {
    assert excludeMetrics[..n + 1] == excludeMetrics[..n] + [excludeMetrics[n]];
  }

  // --- Package-level maps ---

  // A package-level map from reply keys to gauge vectors. Several exporters, and the package itself, hold the same
  // map object; the vectors are reached only through it, so their series are kept in it.
  class GaugeMap {
    const family: string

    var vecs: map<string, Series>

    constructor (family: string, keys: set<string>)
      ensures this.family == family && vecs == map key | key in keys :: map[]
    {
      this.family := family;
      vecs := map key | key in keys :: map[];
    }

    method Delete(key: string)
      modifies this
      ensures vecs == old(vecs) - {key}
    {
      vecs := vecs - {key};
    }

    // Deletes every excluded key that is there; whoever shares this map sees it gone.
    method Exclude(excludeMetrics: seq<string>)
      modifies this
      ensures vecs == old(vecs) - Names(excludeMetrics)
    {
      for n := 0 to |excludeMetrics|
        invariant vecs == old(vecs) - Names(excludeMetrics[..n])
      {
        OneMoreName(excludeMetrics, n);
        if excludeMetrics[n] in vecs {
          Delete(excludeMetrics[n]);
        }
      }
      assert excludeMetrics[..|excludeMetrics|] == excludeMetrics;
    }

    method Set(key: string, labels: Labels, value: real)
      requires key in vecs
      modifies this
      ensures vecs == old(vecs)[key := old(vecs)[key][labels := value]]
    {
      vecs := vecs[key := vecs[key][labels := value]];
    }

    method Add(key: string, labels: Labels, value: real)
      requires key in vecs
      modifies this
      ensures vecs == old(vecs)[key := Added(old(vecs)[key], labels, value)]
    {
      vecs := vecs[key := Added(vecs[key], labels, value)];
    }

    method Reset(key: string)
      requires key in vecs
      modifies this
      ensures vecs == old(vecs)[key := map[]]
    {
      vecs := vecs[key := map[]];
    }

    method ResetAll()
      modifies this
      ensures vecs == Cleared(old(vecs))
    {
      var rest := vecs.Keys;
      while rest != {}
        invariant rest <= vecs.Keys == old(vecs).Keys
        invariant forall key :: key in vecs ==> vecs[key] == if key in rest then old(vecs)[key] else map[]
      {
        var key :| key in rest;
        rest := rest - {key};
        vecs := vecs[key := map[]];
      }
    }

    // Sets one label tuple in every vector whose key the reply carries.
    method RecordAll(labels: Labels, metrics: Metrics)
      modifies this
      ensures vecs == Recorded(old(vecs), labels, metrics)
    {
      var rest := vecs.Keys;
      while rest != {}
        invariant rest <= vecs.Keys == old(vecs).Keys
        invariant forall key :: key in vecs ==>
                    vecs[key] == if key in rest then old(vecs)[key] else Recorded(old(vecs), labels, metrics)[key]
      {
        var key :| key in rest;
        rest := rest - {key};
        if key in metrics {
          Set(key, labels, metrics[key]);
        }
      }
    }

    method CollectAll(ch: Channel) returns (ghost batch: seq<Sample>)
      modifies ch
      ensures ch.sent == old(ch.sent) + batch && Listing(batch, AllSamples(family, vecs))
    {
      batch := [];
      var rest := vecs.Keys;
      ghost var done: map<string, Series> := map[];
      while rest != {}
        invariant rest <= vecs.Keys && done == vecs - rest
        invariant ch.sent == old(ch.sent) + batch && Listing(batch, AllSamples(family, done))
      {
        var key :| key in rest;
        rest := rest - {key};
        ghost var more := SendSeries(ch, Desc(family, key), vecs[key]);
        ghost var next := vecs - rest;
        assert next == done[key := vecs[key]];
        OneMoreVector(family, done, key, vecs[key]);
        ListingUnion(batch, AllSamples(family, done), more, SamplesOf(Desc(family, key), vecs[key]));
        batch := batch + more;
        done := next;
      }
      assert done == vecs;
    }
  }

  // A package-level map from reply keys to counter descriptions.
  class CounterMap {
    const family: string

    var keys: set<string>

    constructor (family: string, keys: set<string>)
      ensures this.family == family && this.keys == keys
    {
      this.family := family;
      this.keys := keys;
    }

    method Delete(key: string)
      modifies this
      ensures keys == old(keys) - {key}
    {
      keys := keys - {key};
    }

    method Exclude(excludeMetrics: seq<string>)
      modifies this
      ensures keys == old(keys) - Names(excludeMetrics)
    {
      for n := 0 to |excludeMetrics|
        invariant keys == old(keys) - Names(excludeMetrics[..n])
      {
        OneMoreName(excludeMetrics, n);
        if excludeMetrics[n] in keys {
          Delete(excludeMetrics[n]);
        }
      }
      assert excludeMetrics[..|excludeMetrics|] == excludeMetrics;
    }
  }

  // --- Tables: what a vector holds after a list of points has been set on it ---

  datatype Point = Point(labels: Labels, value: real)
  datatype Row = Row(labels: Labels, metrics: Metrics)

  function Plot(points: seq<Point>): Series
  {
    if points == [] then map[]
    else Plot(points[..|points| - 1])[points[|points| - 1].labels := points[|points| - 1].value]
  }

  // The points of one reply key: a row that lacks the key gives none.
  function Column(rows: seq<Row>, key: string): seq<Point>
  {
    if rows == [] then []
    else
      var front, last := Column(rows[..|rows| - 1], key), rows[|rows| - 1];
      if key in last.metrics then front + [Point(last.labels, last.metrics[key])] else front
  }

  function Table(keys: set<string>, rows: seq<Row>): map<string, Series>
  {
    map key | key in keys :: Plot(Column(rows, key))
  }

  lemma {:induction false} PlotOneMore(points: seq<Point>, point: Point)
    ensures Plot(points + [point]) == Plot(points)[point.labels := point.value]
  {
    assert (points + [point])[..|points|] == points;
  }

  lemma {:induction false} RecordedTable(keys: set<string>, rows: seq<Row>, row: Row)
    ensures Recorded(Table(keys, rows), row.labels, row.metrics) == Table(keys, rows + [row])
  {
    assert (rows + [row])[..|rows|] == rows;
    forall key | key in keys && key in row.metrics
      ensures Plot(Column(rows + [row], key)) == Plot(Column(rows, key))[row.labels := row.metrics[key]]
    {
      PlotOneMore(Column(rows, key), Point(row.labels, row.metrics[key]));
    }
  }

  ghost predicate DistinctLabels(points: seq<Point>)
  {
    forall i, j :: 0 <= i < j < |points| ==> points[i].labels != points[j].labels
  }

  // A vector holds exactly the points set on it, the last one winning where label tuples repeat.
  lemma {:induction false} PlotAt(points: seq<Point>, labels: Labels)
    ensures labels in Plot(points) <==> exists i :: 0 <= i < |points| && points[i].labels == labels
    ensures forall i :: 0 <= i < |points| && points[i].labels == labels
                        && (forall j :: i < j < |points| ==> points[j].labels != labels) ==>
              labels in Plot(points) && Plot(points)[labels] == points[i].value
    decreases |points|
  {
    if points != [] {
      var front, last := points[..|points| - 1], points[|points| - 1];
      assert points == front + [last];
      PlotAt(front, labels);
      if exists i :: 0 <= i < |front| && front[i].labels == labels {
        var i :| 0 <= i < |front| && front[i].labels == labels;
        assert points[i].labels == labels;
      }
      assert points[|front|] == last;
      forall i | 0 <= i < |points| && points[i].labels == labels
                 && (forall j :: i < j < |points| ==> points[j].labels != labels)
        ensures labels in Plot(points) && Plot(points)[labels] == points[i].value
      {
        if i < |front| {
          assert points[|front|].labels != labels;
          assert front[i].labels == labels && forall j :: i < j < |front| ==> front[j] == points[j];
        }
      }
    }
  }

  // With distinct label tuples there is exactly one series for each point, holding its value.
  lemma {:induction false} PlotDistinct(points: seq<Point>)
    requires DistinctLabels(points)
    ensures |Plot(points)| == |points|
    ensures forall i :: 0 <= i < |points| ==>
              points[i].labels in Plot(points) && Plot(points)[points[i].labels] == points[i].value
    decreases |points|
  {
    forall i | 0 <= i < |points|
      ensures points[i].labels in Plot(points) && Plot(points)[points[i].labels] == points[i].value
    {
      PlotAt(points, points[i].labels);
    }
    if points != [] {
      var front, last := points[..|points| - 1], points[|points| - 1];
      PlotDistinct(front);
      PlotAt(front, last.labels);
    }
  }
}
