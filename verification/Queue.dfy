/** The queue module (exporter_queue.go). */
module Queue {
  import opened Config
  import opened Decoder
  import opened Gauges
  import opened Picks
  import opened Wrappers

  // --- What one queue gives ---

  // The times the two accepted formats can read, in seconds since 1970.
  type Times = imap<string, real>

  // Everything a scrape depends on besides the reply.
  datatype Scope = Scope(config: Config, cluster: string, selfNode: string, times: Times)

  function ParseTime(times: Times, text: string): Option<real>
  {
    if text in times then Some(times[text]) else None
  }

  predicate Included(scope: Scope, queue: StatsInfo)
  {
    var vname, qname := LabelOf(queue, "vhost"), LabelOf(queue, "name");
    && vname in scope.config.includeVHost && vname !in scope.config.skipVHost
    && qname in scope.config.includeQueues && qname !in scope.config.skipQueues
  }

  function QueueLabels(scope: Scope, queue: StatsInfo): Labels
  {
    [scope.cluster, LabelOf(queue, "vhost"), LabelOf(queue, "name"), LabelOf(queue, "durable"),
        LabelOf(queue, "policy"),
     SelfLabel(scope.config, LabelOf(queue, "node") == scope.selfNode)]
  }

  function IdleSince(scope: Scope, queue: StatsInfo): Option<real>
  {
    if "idle_since" in queue.labels && queue.labels["idle_since"] != ""
        then ParseTime(scope.times, queue.labels["idle_since"])
    else None
  }

  // A running queue with a readable idle time is shown as idle.
  function QueueState(scope: Scope, queue: StatsInfo): string
  {
    var state := LabelOf(queue, "state");
    if IdleSince(scope, queue).Some? && state == "running" then "idle" else state
  }

  // The lower of two metrics, the one that is there, or -1.
  function CollectLowerMetric(metricA: string, metricB: string, queue: StatsInfo): real
  {
    var m := queue.metrics;
    if metricA in m && metricB in m then (if m[metricA] < m[metricB] then m[metricA] else m[metricB])
    else if metricA in m then m[metricA]
    else if metricB in m then m[metricB]
    else -1.0
  }

  datatype Kind = Gauge(key: string) | State | Idle | MaxLength | MaxLengthBytes

  function LimitPoint(labels: Labels, metricA: string, metricB: string, queue: StatsInfo): Option<Point>
  {
    var f := CollectLowerMetric(metricA, metricB, queue);
    if f >= 0.0 then Some(Point(labels, f)) else None
  }

  // The point one included queue puts on a vector, if any.
  function KindPoint(scope: Scope, kind: Kind, queue: StatsInfo): Option<Point>
  {
    var labels := QueueLabels(scope, queue);
    match kind
    case Gauge(key) => if key in queue.metrics then Some(Point(labels, queue.metrics[key])) else None
    case State => Some(Point(labels + [QueueState(scope, queue)], 1.0))
    case Idle => (match IdleSince(scope, queue) case Some(seconds) => Some(Point(labels, seconds)) case None => None)
    case MaxLength => LimitPoint(labels, "arguments.x-max-length", "effective_policy_definition.max-length", queue)
    case MaxLengthBytes =>
      LimitPoint(labels, "arguments.x-max-length-bytes", "effective_policy_definition.max-length-bytes", queue)
  }

  // --- What a whole reply gives ---

  function IncludedQueues(scope: Scope, queues: seq<StatsInfo>): seq<StatsInfo>
  {
    if queues == [] then []
    else
      var front, last := IncludedQueues(scope, queues[..|queues| - 1]), queues[|queues| - 1];
      if Included(scope, last) then front + [last] else front
  }

  function Points(scope: Scope, kind: Kind, queues: seq<StatsInfo>): seq<Point>
  {
    if queues == [] then []
    else
      var front, last := Points(scope, kind, queues[..|queues| - 1]), queues[|queues| - 1];
      match KindPoint(scope, kind, last) case Some(p) => front + [p] case None => front
  }

  function Rows(scope: Scope, queues: seq<StatsInfo>): (rows: seq<Row>)
    ensures |rows| == |queues|
    ensures forall i :: 0 <= i < |queues| ==> rows[i] == Row(QueueLabels(scope, queues[i]), queues[i].metrics)
  {
    seq(|queues|, i requires 0 <= i < |queues| => Row(QueueLabels(scope, queues[i]), queues[i].metrics))
  }

  const LIMIT_KEYS := {"max-length", "max-length-bytes"}

  function LimitKind(key: string): Kind
  {
    if key == "max-length" then MaxLength else MaxLengthBytes
  }

  // Everything the module's vectors hold.
  datatype QueueVectors = QueueVectors(gauges: map<string, Series>, limits: map<string, Series>, state: Series,
      idle: Series)

  function LimitTable(scope: Scope, limitKeys: set<string>, included: seq<StatsInfo>): map<string, Series>
  {
    map key | key in limitKeys :: if key in LIMIT_KEYS then Plot(Points(scope, LimitKind(key), included)) else map[]
  }

  // The vectors after a scrape that saw these included queues: a function of them alone.
  function Vectors(scope: Scope, keys: set<string>, limitKeys: set<string>, included: seq<StatsInfo>): QueueVectors
  {
    QueueVectors(
      Table(keys, Rows(scope, included)),
      LimitTable(scope, limitKeys, included),
      Plot(Points(scope, State, included)),
      Plot(Points(scope, Idle, included)))
  }

  // No vector holds any series.
  predicate NoSeries(v: QueueVectors)
  {
    && (forall key :: key in v.gauges ==> v.gauges[key] == map[])
    && (forall key :: key in v.limits ==> v.limits[key] == map[])
    && v.state == map[] && v.idle == map[]
  }

  function CounterValue(queue: StatsInfo, key: string): real
  {
    if key in queue.metrics then queue.metrics[key] else 0.0
  }

  const COUNTERS := "queue_counter"

  ghost function CountersOf(scope: Scope, keys: set<string>, queue: StatsInfo): set<Sample>
  {
    set key | key in keys :: Sample(Desc(COUNTERS, key), QueueLabels(scope, queue), CounterValue(queue, key))
  }

  // What is sent while going through the queues: for each included queue, its counters in some order.
  ghost predicate CounterRun(scope: Scope, keys: set<string>, included: seq<StatsInfo>, sent: seq<Sample>)
    decreases |included|
  {
    if included == [] then sent == []
    else
      |sent| >= |keys|
      && Listing(sent[|sent| - |keys|..], CountersOf(scope, keys, included[|included| - 1]))
      && CounterRun(scope, keys, included[..|included| - 1], sent[..|sent| - |keys|])
  }

  ghost function VectorSamples(v: QueueVectors): set<Sample>
  {
    AllSamples("queue_limit", v.limits) + AllSamples("queue", v.gauges)
    + SamplesOf(Desc("queue_state", ""), v.state) + SamplesOf(Desc("queue_idle_since", ""), v.idle)
  }

  // They are the series of the limits, of the gauges, of the state vector and of the idle vector.
  lemma {:induction false} VectorSamplesMember(v: QueueVectors, family: string, key: string, labels: Labels,
      value: real)
    ensures Sample(Desc(family, key), labels, value) in VectorSamples(v) <==>
            || (family == "queue_limit" && key in v.limits && labels in v.limits[key] && v.limits[key][labels] == value)
            || (family == "queue" && key in v.gauges && labels in v.gauges[key] && v.gauges[key][labels] == value)
            || (family == "queue_state" && key == "" && labels in v.state && v.state[labels] == value)
            || (family == "queue_idle_since" && key == "" && labels in v.idle && v.idle[labels] == value)
  {
    var sample := Sample(Desc(family, key), labels, value);
    AllSamplesMember("queue_limit", v.limits, sample);
    AllSamplesMember("queue", v.gauges, sample);
    if key in v.limits {
      SamplesOfMember(sample.desc, v.limits[key], sample);
    }
    if key in v.gauges {
      SamplesOfMember(sample.desc, v.gauges[key], sample);
    }
    SamplesOfMember(Desc("queue_state", ""), v.state, sample);
    SamplesOfMember(Desc("queue_idle_since", ""), v.idle, sample);
  }

  predicate TooManyQueues(config: Config, ctx: Context)
  {
    config.maxQueues > 0 && ctx.totalQueues.Some? && ctx.totalQueues.value > config.maxQueues
  }

  predicate CounterMissing(config: Config, ctx: Context)
  {
    config.maxQueues > 0 && ctx.totalQueues.None?
  }

  // --- One queue after the other ---

  function OnePoint(series: Series, point: Option<Point>): Series
  {
    match point case Some(p) => series[p.labels := p.value] case None => series
  }

  lemma {:induction false} PointsOneMore(scope: Scope, kind: Kind, queues: seq<StatsInfo>, queue: StatsInfo)
    ensures Plot(Points(scope, kind, queues + [queue])) == OnePoint(Plot(Points(scope, kind, queues)),
        KindPoint(scope, kind, queue))
  {
    assert (queues + [queue])[..|queues|] == queues;
    match KindPoint(scope, kind, queue)
    case None =>
    case Some(p) => PlotOneMore(Points(scope, kind, queues), p);
  }

  function NextLimits(scope: Scope, limits: map<string, Series>, queue: StatsInfo): map<string, Series>
  {
    map key | key in limits ::
      if key in LIMIT_KEYS then OnePoint(limits[key], KindPoint(scope, LimitKind(key), queue)) else limits[key]
  }

  // One included queue more.
  function NextVectors(scope: Scope, v: QueueVectors, queue: StatsInfo): QueueVectors
  {
    QueueVectors(
      Recorded(v.gauges, QueueLabels(scope, queue), queue.metrics),
      NextLimits(scope, v.limits, queue),
      OnePoint(v.state, KindPoint(scope, State, queue)),
      OnePoint(v.idle, KindPoint(scope, Idle, queue)))
  }

  // All included queues, one after the other.
  function AfterQueues(scope: Scope, v: QueueVectors, included: seq<StatsInfo>): QueueVectors
  {
    if included == [] then v
    else NextVectors(scope, AfterQueues(scope, v, included[..|included| - 1]), included[|included| - 1])
  }

  // Having gone through these included queues: the vectors they leave, and what was sent for them.
  ghost predicate Gone(scope: Scope, keys: set<string>, start: QueueVectors, included: seq<StatsInfo>,
      v: QueueVectors, sent: seq<Sample>)
  {
    v == AfterQueues(scope, start, included) && CounterRun(scope, keys, included, sent)
  }

  lemma {:induction false} CounterRunOneMore(scope: Scope, keys: set<string>, queues: seq<StatsInfo>, queue: StatsInfo,
                                              sent: seq<Sample>, batch: seq<Sample>)
    requires CounterRun(scope, keys, queues, sent) && |batch| == |keys|
        && Listing(batch, CountersOf(scope, keys, queue))
    ensures CounterRun(scope, keys, queues + [queue], sent + batch)
  {
    var longer, all := queues + [queue], sent + batch;
    assert longer[..|longer| - 1] == queues;
    assert all[|all| - |keys|..] == batch && all[..|all| - |keys|] == sent;
  }

  lemma {:induction false} GoneOneMore(scope: Scope, keys: set<string>, start: QueueVectors, included: seq<StatsInfo>,
      queue: StatsInfo, v: QueueVectors, w: QueueVectors, sent: seq<Sample>, batch: seq<Sample>)
    requires Gone(scope, keys, start, included, v, sent) && w == NextVectors(scope, v, queue)
    requires |batch| == |keys| && Listing(batch, CountersOf(scope, keys, queue))
    ensures Gone(scope, keys, start, included + [queue], w, sent + batch)
  {
    assert (included + [queue])[..|included|] == included;
    CounterRunOneMore(scope, keys, included, queue, sent, batch);
  }

  lemma {:induction false} LimitsOneMore(scope: Scope, limitKeys: set<string>, queues: seq<StatsInfo>, queue: StatsInfo)
    ensures LimitTable(scope, limitKeys, queues + [queue]) == NextLimits(scope, LimitTable(scope, limitKeys, queues),
        queue)
  {
    PointsOneMore(scope, MaxLength, queues, queue);
    PointsOneMore(scope, MaxLengthBytes, queues, queue);
  }

  lemma {:induction false} VectorsOneMore(scope: Scope, keys: set<string>, limitKeys: set<string>,
      queues: seq<StatsInfo>, queue: StatsInfo)
    ensures Vectors(scope, keys, limitKeys, queues + [queue])
         == NextVectors(scope, Vectors(scope, keys, limitKeys, queues), queue)
  {
    var row := Row(QueueLabels(scope, queue), queue.metrics);
    assert Rows(scope, queues + [queue]) == Rows(scope, queues) + [row];
    RecordedTable(keys, Rows(scope, queues), row);
    LimitsOneMore(scope, limitKeys, queues, queue);
    PointsOneMore(scope, State, queues, queue);
    PointsOneMore(scope, Idle, queues, queue);
  }

  lemma {:induction false} AfterQueuesIsVectors(scope: Scope, v: QueueVectors, included: seq<StatsInfo>)
    requires NoSeries(v)
    ensures AfterQueues(scope, v, included) == Vectors(scope, v.gauges.Keys, v.limits.Keys, included)
    decreases |included|
  {
    if included == [] {
      assert Rows(scope, included) == [];
    } else {
      var front, last := included[..|included| - 1], included[|included| - 1];
      AfterQueuesIsVectors(scope, v, front);
      VectorsOneMore(scope, v.gauges.Keys, v.limits.Keys, front, last);
      assert included == front + [last];
    }
  }

  lemma {:induction false} VectorSamplesDisjoint(v: QueueVectors)
    ensures AllSamples("queue_limit", v.limits) !! AllSamples("queue", v.gauges)
    ensures AllSamples("queue_limit", v.limits) + AllSamples("queue", v.gauges) !! SamplesOf(Desc("queue_state", ""),
        v.state)
    ensures AllSamples("queue_limit", v.limits) + AllSamples("queue", v.gauges) + SamplesOf(Desc("queue_state", ""),
        v.state)
         !! SamplesOf(Desc("queue_idle_since", ""), v.idle)
  {
  }

  // --- The module's state ---

  // The package-level maps. Exporters made from them hold the same map objects.
  class QueuePackage {
    const queueGaugeVec: GaugeMap
    const queueCounterVec: CounterMap
    const limitsGaugeVec: GaugeMap

    constructor (gaugeKeys: set<string>, counterKeys: set<string>)
      ensures fresh(queueGaugeVec) && fresh(queueCounterVec) && fresh(limitsGaugeVec) && WellFormed()
      ensures queueGaugeVec.vecs.Keys == gaugeKeys && queueCounterVec.keys == counterKeys
      ensures limitsGaugeVec.vecs.Keys == {"max-length", "max-length-bytes"}
    {
      queueGaugeVec := new GaugeMap("queue", gaugeKeys);
      queueCounterVec := new CounterMap(COUNTERS, counterKeys);
      limitsGaugeVec := new GaugeMap("queue_limit", LIMIT_KEYS);
    }

    ghost predicate WellFormed()
    {
      queueGaugeVec != limitsGaugeVec &&
      queueGaugeVec.family == "queue" && queueCounterVec.family == COUNTERS && limitsGaugeVec.family == "queue_limit"
    }

    // The loop over the exclusion list at the head of the exporter's constructor.
    method Exclude(excludeMetrics: seq<string>)
      requires WellFormed()
      modifies queueGaugeVec, queueCounterVec, limitsGaugeVec
      ensures queueGaugeVec.vecs == old(queueGaugeVec.vecs) - Names(excludeMetrics)
      ensures queueCounterVec.keys == old(queueCounterVec.keys) - Names(excludeMetrics)
      ensures limitsGaugeVec.vecs == old(limitsGaugeVec.vecs) - Names(excludeMetrics)
    {
      for n := 0 to |excludeMetrics|
        invariant queueGaugeVec.vecs == old(queueGaugeVec.vecs) - Names(excludeMetrics[..n])
        invariant queueCounterVec.keys == old(queueCounterVec.keys) - Names(excludeMetrics[..n])
        invariant limitsGaugeVec.vecs == old(limitsGaugeVec.vecs) - Names(excludeMetrics[..n])
      {
        var metric := excludeMetrics[n];
        OneMoreName(excludeMetrics, n);
        if metric in queueGaugeVec.vecs {
          queueGaugeVec.Delete(metric);
        }
        if metric in queueCounterVec.keys {
          queueCounterVec.Delete(metric);
        }
        if metric in limitsGaugeVec.vecs {
          limitsGaugeVec.Delete(metric);
        }
      }
      assert excludeMetrics[..|excludeMetrics|] == excludeMetrics;
    }
  }

  class ExporterQueue {
    const package: QueuePackage
    const limitsGauge: GaugeMap
    const queueMetricsGauge: GaugeMap
    const queueMetricsCounter: CounterMap
    const stateMetric: GaugeVec
    const idleSinceMetric: GaugeVec

    // The exporter's maps are the package's own.
    ghost predicate Valid()
    {
      && package.WellFormed()
      && limitsGauge == package.limitsGaugeVec
      && queueMetricsGauge == package.queueGaugeVec
      && queueMetricsCounter == package.queueCounterVec
      && stateMetric != idleSinceMetric
      && stateMetric.desc == Desc("queue_state", "") && idleSinceMetric.desc == Desc("queue_idle_since", "")
    }

    ghost function State(): QueueVectors
      reads limitsGauge, queueMetricsGauge, stateMetric, idleSinceMetric
    {
      QueueVectors(queueMetricsGauge.vecs, limitsGauge.vecs, stateMetric.series, idleSinceMetric.series)
    }

    // Excluded names are deleted from the package's maps, in place.
    constructor (package: QueuePackage, excludeMetrics: seq<string>)
      requires package.WellFormed()
      modifies package.queueGaugeVec, package.queueCounterVec, package.limitsGaugeVec
      ensures Valid() && this.package == package && fresh(stateMetric) && fresh(idleSinceMetric)
      ensures package.queueGaugeVec.vecs == old(package.queueGaugeVec.vecs) - Names(excludeMetrics)
      ensures package.queueCounterVec.keys == old(package.queueCounterVec.keys) - Names(excludeMetrics)
      ensures package.limitsGaugeVec.vecs == old(package.limitsGaugeVec.vecs) - Names(excludeMetrics)
    {
      this.package := package;
      limitsGauge := package.limitsGaugeVec;
      queueMetricsGauge := package.queueGaugeVec;
      queueMetricsCounter := package.queueCounterVec;
      stateMetric := new GaugeVec(Desc("queue_state", ""));
      idleSinceMetric := new GaugeVec(Desc("queue_idle_since", ""));
      new;
      package.Exclude(excludeMetrics);
    }

    method ResetVectors()
      requires Valid()
      modifies limitsGauge, queueMetricsGauge, stateMetric, idleSinceMetric
      ensures NoSeries(State())
      ensures queueMetricsGauge.vecs.Keys == old(queueMetricsGauge.vecs).Keys
          && limitsGauge.vecs.Keys == old(limitsGauge.vecs).Keys
    {
      queueMetricsGauge.ResetAll();
      limitsGauge.ResetAll();
      stateMetric.Reset();
      idleSinceMetric.Reset();
    }

    // Sends every counter of one queue, 0 where the reply lacks it.
    method SendCounters(scope: Scope, queue: StatsInfo, labels: Labels, ch: Channel) returns (ghost batch: seq<Sample>)
      requires labels == QueueLabels(scope, queue) && queueMetricsCounter.family == COUNTERS
      modifies ch
      ensures ch.sent == old(ch.sent) + batch
      ensures |batch| == |queueMetricsCounter.keys|
      ensures Listing(batch, CountersOf(scope, queueMetricsCounter.keys, queue))
    {
      batch := [];
      var keys := queueMetricsCounter.keys;
      var rest := keys;
      while rest != {}
        invariant rest <= keys && |batch| == |keys| - |rest|
        invariant ch.sent == old(ch.sent) + batch
        invariant Listing(batch, CountersOf(scope, keys - rest, queue))
      {
        var key :| key in rest;
        var value := if key in queue.metrics then queue.metrics[key] else 0.0;
        var sample := Sample(Desc(queueMetricsCounter.family, key), labels, value);
        ch.Send(sample);
        ListingUnion(batch, CountersOf(scope, keys - rest, queue), [sample], {sample});
        assert keys - (rest - {key}) == keys - rest + {key};
        assert CountersOf(scope, keys - (rest - {key}), queue) == CountersOf(scope, keys - rest, queue) + {sample};
        batch := batch + [sample];
        rest := rest - {key};
      }
      assert keys - rest == keys;
    }

    method RecordLimit(scope: Scope, queue: StatsInfo, labels: Labels, key: string, metricA: string, metricB: string)
      requires Valid()
      modifies limitsGauge
      ensures limitsGauge.vecs == if key in old(limitsGauge.vecs)
                then old(limitsGauge.vecs)[key := OnePoint(old(limitsGauge.vecs)[key],
                    LimitPoint(labels, metricA, metricB, queue))]
                else old(limitsGauge.vecs)
    {
      if key in package.limitsGaugeVec.vecs {
        var f := CollectLowerMetric(metricA, metricB, queue);
        if f >= 0.0 {
          package.limitsGaugeVec.Set(key, labels, f);
        }
      }
    }

    // The limits are written through the package's map.
    method RecordLimits(scope: Scope, queue: StatsInfo, labels: Labels)
      requires Valid() && labels == QueueLabels(scope, queue)
      modifies limitsGauge
      ensures limitsGauge.vecs == NextLimits(scope, old(limitsGauge.vecs), queue)
    {
      RecordLimit(scope, queue, labels, "max-length", "arguments.x-max-length",
          "effective_policy_definition.max-length");
      RecordLimit(scope, queue, labels, "max-length-bytes", "arguments.x-max-length-bytes",
                  "effective_policy_definition.max-length-bytes");
    }

    method RecordState(scope: Scope, queue: StatsInfo, labels: Labels)
      requires Valid() && labels == QueueLabels(scope, queue)
      modifies stateMetric, idleSinceMetric
      ensures stateMetric.series == OnePoint(old(stateMetric.series), KindPoint(scope, Kind.State, queue))
      ensures idleSinceMetric.series == OnePoint(old(idleSinceMetric.series), KindPoint(scope, Idle, queue))
    {
      var state := LabelOf(queue, "state");
      if "idle_since" in queue.labels && queue.labels["idle_since"] != "" {
        var t := ParseTime(scope.times, queue.labels["idle_since"]);
        if t.Some? {
          if state == "running" {
            state := "idle";
          }
          idleSinceMetric.Set(labels, t.value);
        }
      }
      stateMetric.Set(labels + [state], 1.0);
    }

    // Puts one included queue on the vectors and sends its counters.
    method IncludeQueue(scope: Scope, queue: StatsInfo, ch: Channel) returns (ghost batch: seq<Sample>)
      requires Valid()
      modifies limitsGauge, queueMetricsGauge, stateMetric, idleSinceMetric, ch
      ensures State() == NextVectors(scope, old(State()), queue)
      ensures ch.sent == old(ch.sent) + batch && |batch| == |queueMetricsCounter.keys|
      ensures Listing(batch, CountersOf(scope, queueMetricsCounter.keys, queue))
    {
      var self := SelfLabel(scope.config, LabelOf(queue, "node") == scope.selfNode);
      var labels := [scope.cluster, LabelOf(queue, "vhost"), LabelOf(queue, "name"), LabelOf(queue, "durable"),
                     LabelOf(queue, "policy"), self];
      queueMetricsGauge.RecordAll(labels, queue.metrics);
      batch := SendCounters(scope, queue, labels, ch);
      RecordState(scope, queue, labels);
      RecordLimits(scope, queue, labels);
    }

    // Goes through the queues of the reply and leaves out those that do not pass the four filters.
    method RecordQueues(scope: Scope, queues: seq<StatsInfo>, ch: Channel) returns (ghost counters: seq<Sample>)
      requires Valid()
      modifies limitsGauge, queueMetricsGauge, stateMetric, idleSinceMetric, ch
      ensures State() == AfterQueues(scope, old(State()), IncludedQueues(scope, queues))
      ensures ch.sent == old(ch.sent) + counters
      ensures CounterRun(scope, queueMetricsCounter.keys, IncludedQueues(scope, queues), counters)
    {
      counters := [];
      ghost var included, v := [], State();
      for n := 0 to |queues|
        invariant included == IncludedQueues(scope, queues[..n]) && v == State()
        invariant Gone(scope, queueMetricsCounter.keys, old(State()), included, v, counters)
        invariant ch.sent == old(ch.sent) + counters
      {
        assert queues[..n + 1][..n] == queues[..n];
        var queue := queues[n];
        var qname := LabelOf(queue, "name");
        var vname := LabelOf(queue, "vhost");
        var vhostIncluded, skipVhost := vname in scope.config.includeVHost, vname in scope.config.skipVHost;
        var queueIncluded, queueSkipped := qname in scope.config.includeQueues, qname in scope.config.skipQueues;
        if vhostIncluded && !skipVhost && queueIncluded && !queueSkipped {
          ghost var before := State();
          ghost var batch := IncludeQueue(scope, queue, ch);
          GoneOneMore(scope, queueMetricsCounter.keys, old(State()), included, queue, before, State(), counters, batch);
          counters := counters + batch;
          included, v := included + [queue], State();
        }
      }
      assert queues[..|queues|] == queues;
    }

    // From cleared vectors, the result depends on nothing but the included queues and the live names.
    method RecordReply(scope: Scope, queues: seq<StatsInfo>, ch: Channel) returns (ghost counters: seq<Sample>)
      requires Valid() && NoSeries(State())
      modifies limitsGauge, queueMetricsGauge, stateMetric, idleSinceMetric, ch
      ensures State() == Vectors(scope, old(queueMetricsGauge.vecs).Keys, old(limitsGauge.vecs).Keys,
                                 IncludedQueues(scope, queues))
      ensures ch.sent == old(ch.sent) + counters
      ensures CounterRun(scope, queueMetricsCounter.keys, IncludedQueues(scope, queues), counters)
    {
      counters := RecordQueues(scope, queues, ch);
      AfterQueuesIsVectors(scope, old(State()), IncludedQueues(scope, queues));
    }

    method CollectVectors(ch: Channel) returns (ghost batch: seq<Sample>)
      requires Valid()
      modifies ch
      ensures ch.sent == old(ch.sent) + batch
      ensures Listing(batch, VectorSamples(State()))
    {
      ghost var limits := limitsGauge.CollectAll(ch);
      ghost var gauges := queueMetricsGauge.CollectAll(ch);
      ghost var states := stateMetric.Collect(ch);
      ghost var idles := idleSinceMetric.Collect(ch);
      ghost var v := State();
      VectorSamplesDisjoint(v);
      ghost var limitSamples, gaugeSamples := AllSamples("queue_limit", v.limits), AllSamples("queue", v.gauges);
      ghost var stateSamples := SamplesOf(Desc("queue_state", ""), v.state);
      ghost var idleSamples := SamplesOf(Desc("queue_idle_since", ""), v.idle);
      ListingUnion(limits, limitSamples, gauges, gaugeSamples);
      ListingUnion(limits + gauges, limitSamples + gaugeSamples, states, stateSamples);
      ListingUnion(limits + gauges + states, limitSamples + gaugeSamples + stateSamples, idles, idleSamples);
      batch := limits + gauges + states + idles;
    }

    // One scrape. Whatever the vectors held, they are reset first; over the queue limit, or on failure, nothing is
    // sent.
    method Collect(ctx: Context, config: Config, times: Times, reply: Option<seq<StatsInfo>>, ch: Channel)
      returns (ok: bool, ghost counters: seq<Sample>, ghost batch: seq<Sample>)
      requires Valid()
      modifies limitsGauge, queueMetricsGauge, stateMetric, idleSinceMetric, ch
      ensures var tooMany := ctx.totalQueues.Some? && 0 < config.maxQueues < ctx.totalQueues.value;
              var missing := config.maxQueues > 0 && ctx.totalQueues.None?;
              && ok == (!missing && (tooMany || reply.Some?))
              && (!ok || tooMany ==> counters == [] && batch == [] && NoSeries(State()))
      ensures ch.sent == old(ch.sent) + counters + batch
      ensures queueMetricsGauge.vecs.Keys == old(queueMetricsGauge.vecs).Keys
          && limitsGauge.vecs.Keys == old(limitsGauge.vecs).Keys
      ensures ok && !TooManyQueues(config, ctx) ==>
                var scope := Scope(config, OrEmpty(ctx.cluster), OrEmpty(ctx.node), times);
                var included := IncludedQueues(scope, reply.value);
                && State() == Vectors(scope, old(queueMetricsGauge.vecs).Keys, old(limitsGauge.vecs).Keys, included)
                && CounterRun(scope, queueMetricsCounter.keys, included, counters)
                && Listing(batch, VectorSamples(State()))
    {
      counters, batch := [], [];
      ResetVectors();
      if config.maxQueues > 0 {
        if ctx.totalQueues == None {
          return false, [], [];
        }
        if ctx.totalQueues.value > config.maxQueues {
          return true, [], [];
        }
      }
      var selfNode := OrEmpty(ctx.node);
      var cluster := OrEmpty(ctx.cluster);
      if reply == None {
        return false, [], [];
      }
      var scope := Scope(config, cluster, selfNode, times);
      counters := RecordReply(scope, reply.value, ch);
      batch := CollectVectors(ch);
      return true, counters, batch;
    }
  }

  // --- What the vectors hold when no two included queues share vhost and name ---

  ghost predicate DistinctNames(queues: seq<StatsInfo>)
  {
    forall i, j :: 0 <= i < j < |queues| ==>
      LabelOf(queues[i], "vhost") != LabelOf(queues[j], "vhost") || LabelOf(queues[i], "name") != LabelOf(queues[j],
          "name")
  }

  // A label tuple names its queue.
  lemma {:induction false} LabelsNameQueue(scope: Scope, kind: Kind, queue: StatsInfo)
    ensures QueueLabels(scope, queue)[1] == LabelOf(queue, "vhost")
        && QueueLabels(scope, queue)[2] == LabelOf(queue, "name")
    ensures match KindPoint(scope, kind, queue)
      case Some(p) => |p.labels| > 2 && p.labels[1] == LabelOf(queue, "vhost") && p.labels[2] == LabelOf(queue, "name")
      case None => true
  {
  }

  ghost predicate PointOf(scope: Scope, kind: Kind, queues: seq<StatsInfo>, point: Point)
  {
    exists queue :: queue in queues && KindPoint(scope, kind, queue) == Some(point)
  }

  lemma {:induction false} PointsMembers(scope: Scope, kind: Kind, queues: seq<StatsInfo>, point: Point)
    ensures point in Points(scope, kind, queues) <==> PointOf(scope, kind, queues, point)
    decreases |queues|
  {
    if queues != [] {
      var front, last := queues[..|queues| - 1], queues[|queues| - 1];
      assert queues == front + [last];
      PointsMembers(scope, kind, front, point);
      assert PointOf(scope, kind, queues, point) <==>
             PointOf(scope, kind, front, point) || KindPoint(scope, kind, last) == Some(point);
    }
  }

  lemma {:induction false} QueueOfPoint(scope: Scope, kind: Kind, queues: seq<StatsInfo>, n: nat) returns (k: nat)
    requires n < |Points(scope, kind, queues)|
    ensures k < |queues| && KindPoint(scope, kind, queues[k]) == Some(Points(scope, kind, queues)[n])
  {
    var point := Points(scope, kind, queues)[n];
    PointsMembers(scope, kind, queues, point);
    var queue :| queue in queues && KindPoint(scope, kind, queue) == Some(point);
    k :| 0 <= k < |queues| && queues[k] == queue;
  }

  lemma {:induction false} PointsDistinct(scope: Scope, kind: Kind, queues: seq<StatsInfo>)
    requires DistinctNames(queues)
    ensures DistinctLabels(Points(scope, kind, queues))
    decreases |queues|
  {
    if queues != [] {
      var front, last := queues[..|queues| - 1], queues[|queues| - 1];
      PointsDistinct(scope, kind, front);
      var points := Points(scope, kind, front);
      LabelsNameQueue(scope, kind, last);
      forall i | 0 <= i < |points| && KindPoint(scope, kind, last).Some?
        ensures points[i].labels != KindPoint(scope, kind, last).value.labels
      {
        var k := QueueOfPoint(scope, kind, front, i);
        LabelsNameQueue(scope, kind, front[k]);
        assert front[k] == queues[k];
      }
    }
  }

  // Every vector of a scrape is the plot of one kind of point over the included queues.
  lemma {:induction false} GaugeColumn(scope: Scope, key: string, queues: seq<StatsInfo>)
    ensures Column(Rows(scope, queues), key) == Points(scope, Gauge(key), queues)
    decreases |queues|
  {
    if queues != [] {
      var front := queues[..|queues| - 1];
      assert Rows(scope, queues)[..|front|] == Rows(scope, front);
      GaugeColumn(scope, key, front);
    }
  }

  lemma {:induction false} OwnSeries(scope: Scope, kind: Kind, queues: seq<StatsInfo>, i: nat)
    requires DistinctNames(queues) && i < |queues| && KindPoint(scope, kind, queues[i]).Some?
    ensures var p := KindPoint(scope, kind, queues[i]).value;
            p.labels in Plot(Points(scope, kind, queues)) && Plot(Points(scope, kind, queues))[p.labels] == p.value
  {
    var points, p := Points(scope, kind, queues), KindPoint(scope, kind, queues[i]).value;
    PointsDistinct(scope, kind, queues);
    PlotDistinct(points);
    assert queues[i] in queues;
    PointsMembers(scope, kind, queues, p);
    var n :| 0 <= n < |points| && points[n] == p;
    assert points[n].labels in Plot(points) && Plot(points)[points[n].labels] == points[n].value;
  }

  lemma {:induction false} NoOwnSeries(scope: Scope, kind: Kind, queues: seq<StatsInfo>, i: nat)
    requires DistinctNames(queues) && i < |queues| && KindPoint(scope, kind, queues[i]).None?
    ensures QueueLabels(scope, queues[i]) !in Plot(Points(scope, kind, queues))
  {
    var points, labels := Points(scope, kind, queues), QueueLabels(scope, queues[i]);
    LabelsNameQueue(scope, kind, queues[i]);
    forall n | 0 <= n < |points|
      ensures points[n].labels != labels
    {
      var k := QueueOfPoint(scope, kind, queues, n);
      LabelsNameQueue(scope, kind, queues[k]);
      assert k != i;
    }
    PlotAt(points, labels);
  }

  // Each included queue has exactly the series its own reply calls for, with its own value...
  lemma {:induction false} SeriesOfQueue(scope: Scope, kind: Kind, queues: seq<StatsInfo>, i: nat)
    requires DistinctNames(queues) && i < |queues|
    ensures var series := Plot(Points(scope, kind, queues));
      match KindPoint(scope, kind, queues[i])
      case Some(p) => p.labels in series && series[p.labels] == p.value
      case None => QueueLabels(scope, queues[i]) !in series
  {
    match KindPoint(scope, kind, queues[i])
    case Some(p) => OwnSeries(scope, kind, queues, i);
    case None => NoOwnSeries(scope, kind, queues, i);
  }

  // ...and there is no series that no included queue calls for.
  lemma {:induction false} NoOtherSeries(scope: Scope, kind: Kind, queues: seq<StatsInfo>, labels: Labels)
    returns (i: nat)
    requires labels in Plot(Points(scope, kind, queues))
    ensures i < |queues| && KindPoint(scope, kind, queues[i]).Some?
        && KindPoint(scope, kind, queues[i]).value.labels == labels
  {
    var points := Points(scope, kind, queues);
    PlotAt(points, labels);
    var n :| 0 <= n < |points| && points[n].labels == labels;
    i := QueueOfPoint(scope, kind, queues, n);
  }

  lemma {:induction false} StatePointPerQueue(scope: Scope, queues: seq<StatsInfo>)
    ensures |Points(scope, State, queues)| == |queues|
    decreases |queues|
  {
    if queues != [] {
      StatePointPerQueue(scope, queues[..|queues| - 1]);
    }
  }

  // There is exactly one state series per included queue.
  lemma {:induction false} OneStatePerQueue(scope: Scope, queues: seq<StatsInfo>)
    requires DistinctNames(queues)
    ensures |Plot(Points(scope, State, queues))| == |queues|
  {
    PointsDistinct(scope, State, queues);
    PlotDistinct(Points(scope, State, queues));
    StatePointPerQueue(scope, queues);
  }

  // A limit is the lower of the limits the reply carries, and is shown exactly when none of them is negative.
  lemma {:induction false} LimitIsLowest(labels: Labels, metricA: string, metricB: string, queue: StatsInfo)
    ensures var carried := set key | key in {metricA, metricB} && key in queue.metrics :: queue.metrics[key];
      match LimitPoint(labels, metricA, metricB, queue)
      case Some(p) => p.labels == labels && p.value in carried && forall v :: v in carried ==> 0.0 <= p.value <= v
      case None => carried == {} || exists v :: v in carried && v < 0.0
  {
    var carried := set key | key in {metricA, metricB} && key in queue.metrics :: queue.metrics[key];
    if metricA in queue.metrics {
      assert queue.metrics[metricA] in carried;
    }
    if metricB in queue.metrics {
      assert queue.metrics[metricB] in carried;
    }
  }

  // --- What is sent ---

  // Exactly one sample per included queue and live counter.
  lemma {:induction false} CounterRunSize(scope: Scope, keys: set<string>, included: seq<StatsInfo>, sent: seq<Sample>)
    requires CounterRun(scope, keys, included, sent)
    ensures |sent| == |included| * |keys|
    decreases |included|
  {
    if included != [] {
      var n := |included| - 1;
      CounterRunSize(scope, keys, included[..n], sent[..|sent| - |keys|]);
      assert |included| * |keys| == n * |keys| + |keys|;
    }
  }

  lemma {:induction false} CountersOfMember(scope: Scope, keys: set<string>, queue: StatsInfo, sample: Sample)
    ensures sample in CountersOf(scope, keys, queue) <==>
            && sample.desc.family == COUNTERS && sample.desc.key in keys
            && sample.labels == QueueLabels(scope, queue) && sample.value == CounterValue(queue, sample.desc.key)
  {
    if sample.desc.family == COUNTERS && sample.desc.key in keys {
      assert sample.desc == Desc(COUNTERS, sample.desc.key);
    }
  }

  ghost predicate CounterOf(scope: Scope, keys: set<string>, included: seq<StatsInfo>, sample: Sample)
  {
    exists i :: 0 <= i < |included| && sample in CountersOf(scope, keys, included[i])
  }

  // The samples sent are those of the included queues and no others.
  lemma {:induction false} CounterRunMembers(scope: Scope, keys: set<string>, included: seq<StatsInfo>,
      sent: seq<Sample>, sample: Sample)
    requires CounterRun(scope, keys, included, sent)
    ensures sample in sent <==> CounterOf(scope, keys, included, sample)
    decreases |included|
  {
    if included != [] {
      var front, last := included[..|included| - 1], included[|included| - 1];
      var cut := |sent| - |keys|;
      CounterRunMembers(scope, keys, front, sent[..cut], sample);
      assert sent == sent[..cut] + sent[cut..];
      if CounterOf(scope, keys, front, sample) {
        var i :| 0 <= i < |front| && sample in CountersOf(scope, keys, front[i]);
        assert included[i] == front[i];
      }
      assert CounterOf(scope, keys, included, sample) <==>
             CounterOf(scope, keys, front, sample) || sample in CountersOf(scope, keys, last);
    }
  }

  lemma {:induction false} QueueOfCounter(scope: Scope, keys: set<string>, included: seq<StatsInfo>,
      sent: seq<Sample>, i: nat) returns (k: nat)
    requires CounterRun(scope, keys, included, sent) && i < |sent|
    ensures k < |included| && sent[i].labels == QueueLabels(scope, included[k])
  {
    CounterRunMembers(scope, keys, included, sent, sent[i]);
    k :| 0 <= k < |included| && sent[i] in CountersOf(scope, keys, included[k]);
    CountersOfMember(scope, keys, included[k], sent[i]);
  }

  // With distinct names, no metric is sent twice for one label tuple.
  lemma {:induction false} CounterRunUnique(scope: Scope, keys: set<string>, included: seq<StatsInfo>,
      sent: seq<Sample>, i: nat, j: nat)
    requires CounterRun(scope, keys, included, sent) && DistinctNames(included) && i < j < |sent|
    ensures sent[i].desc != sent[j].desc || sent[i].labels != sent[j].labels
    decreases |included|
  {
    var front, last := included[..|included| - 1], included[|included| - 1];
    var cut := |sent| - |keys|;
    if j < cut {
      CounterRunUnique(scope, keys, front, sent[..cut], i, j);
    } else {
      assert sent[j] == sent[cut..][j - cut] && sent[j] in sent[cut..];
      CountersOfMember(scope, keys, last, sent[j]);
      if i >= cut {
        assert sent[i] == sent[cut..][i - cut] && sent[i] in sent[cut..];
        CountersOfMember(scope, keys, last, sent[i]);
      } else {
        var k := QueueOfCounter(scope, keys, front, sent[..cut], i);
        assert included[k] == front[k];
        LabelsNameQueue(scope, State, front[k]);
        LabelsNameQueue(scope, State, last);
      }
    }
  }

  // --- The same, in terms of the reply alone ---

  lemma {:induction false} IncludedMember(scope: Scope, queues: seq<StatsInfo>, queue: StatsInfo)
    ensures queue in IncludedQueues(scope, queues) <==> queue in queues && Included(scope, queue)
    decreases |queues|
  {
    if queues != [] {
      var front, last := queues[..|queues| - 1], queues[|queues| - 1];
      assert queues == front + [last];
      IncludedMember(scope, front, queue);
    }
  }

  // The included queues are those of the reply that pass the four filters, each once and in order.
  lemma {:induction false} IncludedInOrder(scope: Scope, queues: seq<StatsInfo>) returns (ks: seq<nat>)
    ensures Increasing(ks) && |ks| == |IncludedQueues(scope, queues)| && forall k :: k in ks ==> k < |queues|
    ensures forall i :: 0 <= i < |queues| ==>
              (i in ks <==>
               && LabelOf(queues[i], "vhost") in scope.config.includeVHost
               && LabelOf(queues[i], "vhost") !in scope.config.skipVHost
               && LabelOf(queues[i], "name") in scope.config.includeQueues
               && LabelOf(queues[i], "name") !in scope.config.skipQueues)
    ensures forall k :: 0 <= k < |ks| ==> ks[k] in ks && IncludedQueues(scope, queues)[k] == queues[ks[k]]
    decreases |queues|
  {
    ks := [];
    if queues != [] {
      var n := |queues| - 1;
      var before := IncludedInOrder(scope, queues[..n]);
      ks := before;
      if Included(scope, queues[n]) {
        OneMorePick(before, n);
        ks := before + [n];
      }
    }
  }

  lemma {:induction false} IncludedDistinct(scope: Scope, queues: seq<StatsInfo>)
    requires DistinctNames(queues)
    ensures DistinctNames(IncludedQueues(scope, queues))
  {
    var ks := IncludedInOrder(scope, queues);
  }

  lemma {:induction false} SeriesOfIncluded(scope: Scope, kind: Kind, queues: seq<StatsInfo>, queue: StatsInfo)
    requires DistinctNames(queues) && queue in queues && Included(scope, queue)
    ensures var series := Plot(Points(scope, kind, IncludedQueues(scope, queues)));
      match KindPoint(scope, kind, queue)
      case Some(p) => p.labels in series && series[p.labels] == p.value
      case None => QueueLabels(scope, queue) !in series
  {
    var included := IncludedQueues(scope, queues);
    IncludedDistinct(scope, queues);
    IncludedMember(scope, queues, queue);
    var i :| 0 <= i < |included| && included[i] == queue;
    SeriesOfQueue(scope, kind, included, i);
  }

  // The lowest limit carried is shown, and none when there is none or one is negative.
  predicate ShowsLimit(series: Series, labels: Labels, queue: StatsInfo, metricA: string, metricB: string)
  {
    var carried := set key | key in {metricA, metricB} && key in queue.metrics :: queue.metrics[key];
    if carried != {} && forall v :: v in carried ==> v >= 0.0
    then labels in series && series[labels] in carried && forall v :: v in carried ==> series[labels] <= v
    else labels !in series
  }

  lemma {:induction false} LimitShown(series: Series, labels: Labels, queue: StatsInfo, metricA: string,
      metricB: string)
    requires match LimitPoint(labels, metricA, metricB, queue)
      case Some(p) => p.labels in series && series[p.labels] == p.value
      case None => labels !in series
    ensures ShowsLimit(series, labels, queue, metricA, metricB)
  {
    LimitIsLowest(labels, metricA, metricB, queue);
  }

  // With distinct names, a queue of the reply that passes the four filters is shown, whatever else the reply holds:
  // its state under cluster, vhost, name, durable, policy, self and state, where a running queue whose idle time can be
  // read is idle...
  lemma {:induction false} StateIsShown(scope: Scope, keys: set<string>, limitKeys: set<string>,
      queues: seq<StatsInfo>, queue: StatsInfo)
    requires DistinctNames(queues) && queue in queues
    requires LabelOf(queue, "vhost") in scope.config.includeVHost && LabelOf(queue, "vhost") !in scope.config.skipVHost
    requires LabelOf(queue, "name") in scope.config.includeQueues && LabelOf(queue, "name") !in scope.config.skipQueues
    ensures var v := Vectors(scope, keys, limitKeys, IncludedQueues(scope, queues));
      var self := SelfLabel(scope.config, LabelOf(queue, "node") == scope.selfNode);
      var labels := [scope.cluster, LabelOf(queue, "vhost"), LabelOf(queue, "name"), LabelOf(queue, "durable"),
                     LabelOf(queue, "policy"), self];
      var since := LabelOf(queue, "idle_since");
      var readable := since != "" && since in scope.times;
      var state := if readable && LabelOf(queue, "state") == "running" then "idle" else LabelOf(queue, "state");
      && labels + [state] in v.state && v.state[labels + [state]] == 1.0
      && if readable then labels in v.idle && v.idle[labels] == scope.times[since] else labels !in v.idle
  {
    SeriesOfIncluded(scope, State, queues, queue);
    SeriesOfIncluded(scope, Idle, queues, queue);
  }

  // ...its metrics...
  lemma {:induction false} MetricIsShown(scope: Scope, keys: set<string>, limitKeys: set<string>,
      queues: seq<StatsInfo>, queue: StatsInfo, key: string)
    requires DistinctNames(queues) && queue in queues
    requires LabelOf(queue, "vhost") in scope.config.includeVHost && LabelOf(queue, "vhost") !in scope.config.skipVHost
    requires LabelOf(queue, "name") in scope.config.includeQueues && LabelOf(queue, "name") !in scope.config.skipQueues
    requires key in keys
    ensures var v := Vectors(scope, keys, limitKeys, IncludedQueues(scope, queues));
      var self := SelfLabel(scope.config, LabelOf(queue, "node") == scope.selfNode);
      var labels := [scope.cluster, LabelOf(queue, "vhost"), LabelOf(queue, "name"), LabelOf(queue, "durable"),
                     LabelOf(queue, "policy"), self];
      && key in v.gauges
      && if key in queue.metrics then labels in v.gauges[key] && v.gauges[key][labels] == queue.metrics[key]
         else labels !in v.gauges[key]
  {
    GaugeColumn(scope, key, IncludedQueues(scope, queues));
    SeriesOfIncluded(scope, Gauge(key), queues, queue);
  }

  // ...and its limits, each from the two members of the reply it is named by.
  lemma {:induction false} LimitsAreShown(scope: Scope, keys: set<string>, limitKeys: set<string>,
      queues: seq<StatsInfo>, queue: StatsInfo)
    requires DistinctNames(queues) && queue in queues
    requires LabelOf(queue, "vhost") in scope.config.includeVHost && LabelOf(queue, "vhost") !in scope.config.skipVHost
    requires LabelOf(queue, "name") in scope.config.includeQueues && LabelOf(queue, "name") !in scope.config.skipQueues
    ensures var v := Vectors(scope, keys, limitKeys, IncludedQueues(scope, queues));
      var self := SelfLabel(scope.config, LabelOf(queue, "node") == scope.selfNode);
      var labels := [scope.cluster, LabelOf(queue, "vhost"), LabelOf(queue, "name"), LabelOf(queue, "durable"),
                     LabelOf(queue, "policy"), self];
      && v.limits.Keys == limitKeys
      && ("max-length" in limitKeys ==>
            ShowsLimit(v.limits["max-length"], labels, queue, "arguments.x-max-length",
                       "effective_policy_definition.max-length"))
      && ("max-length-bytes" in limitKeys ==>
            ShowsLimit(v.limits["max-length-bytes"], labels, queue, "arguments.x-max-length-bytes",
                       "effective_policy_definition.max-length-bytes"))
  {
    var included, labels := IncludedQueues(scope, queues), QueueLabels(scope, queue);
    SeriesOfIncluded(scope, MaxLength, queues, queue);
    LimitShown(Plot(Points(scope, MaxLength, included)), labels, queue, "arguments.x-max-length",
               "effective_policy_definition.max-length");
    SeriesOfIncluded(scope, MaxLengthBytes, queues, queue);
    LimitShown(Plot(Points(scope, MaxLengthBytes, included)), labels, queue, "arguments.x-max-length-bytes",
               "effective_policy_definition.max-length-bytes");
  }

  // Some vector has a series with these labels.
  predicate AnySeries(v: QueueVectors, labels: Labels)
  {
    || labels in v.state || labels in v.idle
    || (exists key :: key in v.gauges && labels in v.gauges[key])
    || (exists key :: key in v.limits && labels in v.limits[key])
  }

  lemma {:induction false} KindOfSeries(scope: Scope, keys: set<string>, limitKeys: set<string>,
      included: seq<StatsInfo>, labels: Labels)
    returns (kind: Kind)
    requires AnySeries(Vectors(scope, keys, limitKeys, included), labels)
    ensures labels in Plot(Points(scope, kind, included))
  {
    var v := Vectors(scope, keys, limitKeys, included);
    if labels in v.state {
      kind := State;
    } else if labels in v.idle {
      kind := Idle;
    } else if exists key :: key in v.gauges && labels in v.gauges[key] {
      var key :| key in v.gauges && labels in v.gauges[key];
      GaugeColumn(scope, key, included);
      kind := Gauge(key);
    } else {
      var key :| key in v.limits && labels in v.limits[key];
      kind := LimitKind(key);
    }
  }

  lemma {:induction false} LabelsOfKind(scope: Scope, kind: Kind, queue: StatsInfo)
    requires KindPoint(scope, kind, queue).Some?
    ensures var labels := KindPoint(scope, kind, queue).value.labels;
      && |labels| >= 6 && labels[..6] == QueueLabels(scope, queue)
      && labels[1] == LabelOf(queue, "vhost") && labels[2] == LabelOf(queue, "name")
  {
    var own := QueueLabels(scope, queue);
    assert (own + [QueueState(scope, queue)])[..6] == own && own[..6] == own;
  }

  // And nothing else is shown: every series of every vector is that of a queue of the reply that passes the filters.
  lemma {:induction false} OnlyPassingQueuesShown(scope: Scope, keys: set<string>, limitKeys: set<string>,
      queues: seq<StatsInfo>, labels: Labels)
    returns (queue: StatsInfo)
    requires AnySeries(Vectors(scope, keys, limitKeys, IncludedQueues(scope, queues)), labels)
    ensures |labels| >= 6
    ensures labels[1] in scope.config.includeVHost && labels[1] !in scope.config.skipVHost
    ensures labels[2] in scope.config.includeQueues && labels[2] !in scope.config.skipQueues
    ensures queue in queues
    ensures labels[..6] == [scope.cluster, LabelOf(queue, "vhost"), LabelOf(queue, "name"), LabelOf(queue, "durable"),
                            LabelOf(queue, "policy"),
                            SelfLabel(scope.config, LabelOf(queue, "node") == scope.selfNode)]
  {
    var included := IncludedQueues(scope, queues);
    var kind := KindOfSeries(scope, keys, limitKeys, included, labels);
    var i := NoOtherSeries(scope, kind, included, labels);
    queue := included[i];
    IncludedMember(scope, queues, queue);
    LabelsOfKind(scope, kind, queue);
  }

  // The counters sent are those of the queues of the reply that pass the filters, 0 where the reply lacks one.
  lemma {:induction false} CountersSent(scope: Scope, keys: set<string>, queues: seq<StatsInfo>, sent: seq<Sample>,
      sample: Sample)
    requires CounterRun(scope, keys, IncludedQueues(scope, queues), sent)
    ensures sample in sent <==>
            && sample.desc.family == "queue_counter" && sample.desc.key in keys
            && exists queue ::
                 && queue in queues
                 && LabelOf(queue, "vhost") in scope.config.includeVHost
                 && LabelOf(queue, "vhost") !in scope.config.skipVHost
                 && LabelOf(queue, "name") in scope.config.includeQueues
                 && LabelOf(queue, "name") !in scope.config.skipQueues
                 && sample.labels == [scope.cluster, LabelOf(queue, "vhost"), LabelOf(queue, "name"),
                                      LabelOf(queue, "durable"), LabelOf(queue, "policy"),
                                      SelfLabel(scope.config, LabelOf(queue, "node") == scope.selfNode)]
                 && sample.value == if sample.desc.key in queue.metrics then queue.metrics[sample.desc.key] else 0.0
  {
    var included := IncludedQueues(scope, queues);
    CounterRunMembers(scope, keys, included, sent, sample);
    forall queue
      ensures queue in included <==> queue in queues && Included(scope, queue)
      ensures sample in CountersOf(scope, keys, queue) <==>
              && sample.desc.family == COUNTERS && sample.desc.key in keys
              && sample.labels == QueueLabels(scope, queue) && sample.value == CounterValue(queue, sample.desc.key)
    {
      IncludedMember(scope, queues, queue);
      CountersOfMember(scope, keys, queue, sample);
    }
    assert CounterOf(scope, keys, included, sample) <==>
           exists queue :: queue in included && sample in CountersOf(scope, keys, queue);
  }

  // --- Exclusions over the life of the package ---

  // The live names of a package-level map after exporters were constructed with these exclusion lists.
  function LiveAfter(names: set<string>, exclusions: seq<seq<string>>): set<string>
  {
    if exclusions == [] then names
    else
      var front, last := exclusions[..|exclusions| - 1], exclusions[|exclusions| - 1];
      LiveAfter(names, front) - Names(last)
  }

  // They are the initial names less every name excluded so far: an exclusion is never undone.
  lemma {:induction false} ExclusionsAccumulate(names: set<string>, exclusions: seq<seq<string>>, name: string)
    ensures name in LiveAfter(names, exclusions) <==>
            name in names && forall i :: 0 <= i < |exclusions| ==> name !in exclusions[i]
    decreases |exclusions|
  {
    if exclusions != [] {
      var front := exclusions[..|exclusions| - 1];
      ExclusionsAccumulate(names, front, name);
      assert forall i :: 0 <= i < |front| ==> front[i] == exclusions[i];
    }
  }

  lemma {:induction false} LiveOneMore(names: set<string>, exclusions: seq<seq<string>>, n: nat)
    requires n < |exclusions|
    ensures LiveAfter(names, exclusions[..n + 1]) == LiveAfter(names, exclusions[..n]) - Names(exclusions[n])
  {
    assert exclusions[..n + 1][..n] == exclusions[..n];
  }

  // Exporters constructed one after the other on one package. They all hold its maps, so the earlier ones lose what is
  // excluded for the later ones.
  method ConstructAll(package: QueuePackage, exclusions: seq<seq<string>>) returns (exporters: seq<ExporterQueue>)
    requires package.WellFormed()
    modifies package.queueGaugeVec, package.queueCounterVec, package.limitsGaugeVec
    ensures |exporters| == |exclusions|
    ensures forall e :: e in exporters ==>
              && e.Valid()
              && e.queueMetricsGauge.vecs.Keys == LiveAfter(old(package.queueGaugeVec.vecs).Keys, exclusions)
              && e.queueMetricsCounter.keys == LiveAfter(old(package.queueCounterVec.keys), exclusions)
              && e.limitsGauge.vecs.Keys == LiveAfter(old(package.limitsGaugeVec.vecs).Keys, exclusions)
  {
    exporters := [];
    for n := 0 to |exclusions|
      invariant |exporters| == n
      invariant forall e :: e in exporters ==> e.Valid() && e.package == package
      invariant package.queueGaugeVec.vecs.Keys == LiveAfter(old(package.queueGaugeVec.vecs).Keys, exclusions[..n])
      invariant package.queueCounterVec.keys == LiveAfter(old(package.queueCounterVec.keys), exclusions[..n])
      invariant package.limitsGaugeVec.vecs.Keys == LiveAfter(old(package.limitsGaugeVec.vecs).Keys, exclusions[..n])
    {
      LiveOneMore(old(package.queueGaugeVec.vecs).Keys, exclusions, n);
      LiveOneMore(old(package.queueCounterVec.keys), exclusions, n);
      LiveOneMore(old(package.limitsGaugeVec.vecs).Keys, exclusions, n);
      var exporter := new ExporterQueue(package, exclusions[n]);
      exporters := exporters + [exporter];
    }
    assert exclusions[..|exclusions|] == exclusions;
  }
}
