/** The exporter (exporter.go): one scrape over the overview and every enabled module. */
module Exporter {
  import opened Config
  import opened Decoder
  import opened Gauges
  import opened Overview
  import opened Scrapes
  import opened Wrappers
  import Connections
  import Exchange
  import Memory
  import Queue

  // The implementations of the Exporter interface. OtherModule stands for those that are not modelled further.
  datatype Module =
    | OverviewModule(o: ExporterOverview)
    | QueueModule(q: Queue.ExporterQueue)
    | ConnectionsModule(c: Connections.ExporterConnections)
    | MemoryModule(m: Memory.ExporterMemory)
    | ExchangeModule(x: Exchange.ExporterExchange)
    | OtherModule

  // What the RabbitMQ API answers during one scrape; None is a failed request, or bytes that are not BERT.
  // Another module that is listed succeeds and sends these samples, one that is not listed fails.
  datatype Api = Api(
    overview: Option<OverviewReply>,
    queues: Option<seq<StatsInfo>>,
    connections: Option<seq<StatsInfo>>,
    nodes: Option<seq<StatsInfo>>,
    nodeMemory: Memory.NodeReplies,
    exchanges: Option<seq<StatsInfo>>,
    others: map<string, seq<Sample>>)

  function ContextOf(info: NodeInfo): Context
  {
    Context(Some(info.node), Some(info.clusterName), Some(info.totalQueues))
  }

  predicate Succeeds(ex: Module, name: string, config: Config, info: NodeInfo, api: Api)
  {
    match ex
    case OverviewModule(_) => api.overview.Some?
    case QueueModule(_) => Queue.TooManyQueues(config, ContextOf(info)) || api.queues.Some?
    case ConnectionsModule(_) => api.connections.Some?
    case MemoryModule(_) =>
      api.nodes.Some? && Memory.Answered(|api.nodes.value|, api.nodeMemory) == |api.nodes.value|
    case ExchangeModule(_) => api.exchanges.Some?
    case OtherModule => name in api.others
  }

  ghost predicate ModuleValid(ex: Module)
  {
    match ex
    case OverviewModule(o) => o.Valid()
    case QueueModule(q) => q.Valid()
    case ConnectionsModule(c) => c.Valid()
    case MemoryModule(m) => m.Valid()
    case ExchangeModule(x) => x.Valid()
    case OtherModule => true
  }

  ghost function Footprint(ex: Module): set<object>
  {
    match ex
    case OverviewModule(o) => {o, o.overviewMetrics, o.version}
    case QueueModule(q) => {q.limitsGauge, q.queueMetricsGauge, q.stateMetric, q.idleSinceMetric}
    case ConnectionsModule(c) => {c.connectionMetricsG, c.stateMetric}
    case MemoryModule(m) => {m.memoryMetricsGauge}
    case _ => {}
  }

  // The metric names a module still has after the exclusions.
  datatype Live = Live(gauges: set<string>, limits: set<string>, counters: set<string>)

  ghost function LiveObjects(ex: Module): set<object>
  {
    match ex
    case OverviewModule(o) => {o.overviewMetrics}
    case QueueModule(q) => {q.limitsGauge, q.queueMetricsGauge, q.queueMetricsCounter}
    case ConnectionsModule(c) => {c.connectionMetricsG}
    case MemoryModule(m) => {m.memoryMetricsGauge}
    case ExchangeModule(x) => {x.exchangeMetrics}
    case OtherModule => {}
  }

  ghost function LiveOf(ex: Module): Live
    reads LiveObjects(ex)
  {
    match ex
    case OverviewModule(o) => Live(o.overviewMetrics.vecs.Keys, {}, {})
    case QueueModule(q) => Live(q.queueMetricsGauge.vecs.Keys, q.limitsGauge.vecs.Keys, q.queueMetricsCounter.keys)
    case ConnectionsModule(c) => Live(c.connectionMetricsG.vecs.Keys, {}, {})
    case MemoryModule(m) => Live(m.memoryMetricsGauge.vecs.Keys, {}, {})
    case ExchangeModule(x) => Live({}, {}, x.exchangeMetrics.keys)
    case OtherModule => Live({}, {}, {})
  }

  ghost predicate SendsQueues(live: Live, scope: Queue.Scope, queues: seq<StatsInfo>, batch: seq<Sample>)
  {
    var included := Queue.IncludedQueues(scope, queues);
    var v := Queue.Vectors(scope, live.gauges, live.limits, included);
    exists n :: 0 <= n <= |batch|
      && Queue.CounterRun(scope, live.counters, included, batch[..n])
      && Listing(batch[n..], Queue.VectorSamples(v))
  }

  ghost predicate SendsConnections(live: Live, scope: Connections.Scope, conns: seq<StatsInfo>, batch: seq<Sample>)
  {
    Listing(batch,
            AllSamples("connection", map key | key in live.gauges ::
                Connections.Totals(scope, Connections.Metric(key), conns))
            + SamplesOf(Desc("connection_status", ""), Connections.Totals(scope, Connections.Status, conns)))
  }

  ghost predicate SendsMemory(live: Live, scope: Memory.Scope, nodes: seq<StatsInfo>, replies: Memory.NodeReplies,
      batch: seq<Sample>)
  {
    && (forall i :: 0 <= i < |nodes| ==> i in replies)
    && Listing(batch, AllSamples("memory", Table(live.gauges, Memory.NodeRows(scope, nodes, replies))))
  }

  ghost predicate SendsExchanges(live: Live, scope: Exchange.Scope, data: seq<StatsInfo>, batch: seq<Sample>)
  {
    exists order :: Exchange.Enumerates(order, live.counters) && batch == Exchange.SamplesInOrder(scope, order, data)
  }

  // What a module that succeeds sends is a function of this scrape's replies, the configuration, the live names and the
  // given node info, up to the order of map iterations. Over the queue limit, the queue module sends nothing.
  ghost predicate Sends(ex: Module, name: string, live: Live, config: Config, times: Queue.Times, info: NodeInfo,
      api: Api, batch: seq<Sample>)
  {
    match ex
    case OverviewModule(_) => true
    case QueueModule(_) =>
      if Queue.TooManyQueues(config, ContextOf(info)) then batch == []
      else api.queues.Some? && SendsQueues(live, Queue.Scope(config, info.clusterName, info.node, times),
          api.queues.value, batch)
    case ConnectionsModule(_) =>
      api.connections.Some?
      && SendsConnections(live, Connections.Scope(config, info.clusterName, info.node), api.connections.value, batch)
    case MemoryModule(_) =>
      api.nodes.Some? && SendsMemory(live, Memory.Scope(config, info.clusterName, info.node), api.nodes.value,
          api.nodeMemory, batch)
    case ExchangeModule(_) =>
      api.exchanges.Some? && SendsExchanges(live, Exchange.Scope(config, info.clusterName), api.exchanges.value, batch)
    case OtherModule => name in api.others && batch == api.others[name]
  }

  ghost function OverviewSamples(o: OverviewState): set<Sample>
  {
    SamplesOf(Desc("version_info", ""), o.version) + AllSamples("overview", o.gauges)
  }

  lemma {:induction false} QueueBatch(live: Live, scope: Queue.Scope, queues: seq<StatsInfo>, v: Queue.QueueVectors,
      counters: seq<Sample>, vectors: seq<Sample>)
    requires v == Queue.Vectors(scope, live.gauges, live.limits, Queue.IncludedQueues(scope, queues))
    requires Queue.CounterRun(scope, live.counters, Queue.IncludedQueues(scope, queues), counters)
    requires Listing(vectors, Queue.VectorSamples(v))
    ensures SendsQueues(live, scope, queues, counters + vectors)
  {
    var batch := counters + vectors;
    assert batch[..|counters|] == counters && batch[|counters|..] == vectors;
  }

  method CollectQueue(q: Queue.ExporterQueue, info: NodeInfo, config: Config, times: Queue.Times, api: Api, ch: Channel)
    returns (ok: bool, ghost batch: seq<Sample>)
    requires q.Valid()
    modifies Footprint(QueueModule(q)), ch
    ensures LiveOf(QueueModule(q)) == old(LiveOf(QueueModule(q)))
    ensures ok == Succeeds(QueueModule(q), "", config, info, api)
    ensures ch.sent == old(ch.sent) + batch && (!ok ==> batch == [])
    ensures ok ==> Sends(QueueModule(q), "", LiveOf(QueueModule(q)), config, times, info, api, batch)
  {
    ghost var counters, vectors;
    ok, counters, vectors := q.Collect(ContextOf(info), config, times, api.queues, ch);
    batch := counters + vectors;
    if ok && !Queue.TooManyQueues(config, ContextOf(info)) {
      QueueBatch(LiveOf(QueueModule(q)), Queue.Scope(config, info.clusterName, info.node, times), api.queues.value,
          q.State(), counters, vectors);
    }
  }

  method CollectConnections(c: Connections.ExporterConnections, info: NodeInfo, config: Config, times: Queue.Times,
      api: Api, ch: Channel)
    returns (ok: bool, ghost batch: seq<Sample>)
    requires c.Valid()
    modifies Footprint(ConnectionsModule(c)), ch
    ensures LiveOf(ConnectionsModule(c)) == old(LiveOf(ConnectionsModule(c)))
    ensures ok == api.connections.Some? && ch.sent == old(ch.sent) + batch && (!ok ==> batch == [])
    ensures ok ==> Sends(ConnectionsModule(c), "", LiveOf(ConnectionsModule(c)), config, times, info, api, batch)
  {
    ok, batch := c.Collect(ContextOf(info), config, api.connections, ch);
  }

  method CollectMemory(m: Memory.ExporterMemory, info: NodeInfo, config: Config, times: Queue.Times, api: Api,
      ch: Channel)
    returns (ok: bool, ghost batch: seq<Sample>)
    requires m.Valid()
    modifies Footprint(MemoryModule(m)), ch
    ensures LiveOf(MemoryModule(m)) == old(LiveOf(MemoryModule(m)))
    ensures ok == Succeeds(MemoryModule(m), "", config, info, api)
    ensures ch.sent == old(ch.sent) + batch && (!ok ==> batch == [])
    ensures ok ==> Sends(MemoryModule(m), "", LiveOf(MemoryModule(m)), config, times, info, api, batch)
  {
    ok, batch := m.Collect(ContextOf(info), config, api.nodes, api.nodeMemory, ch);
    if ok {
      assert api.nodes.value[..|api.nodes.value|] == api.nodes.value;
    }
  }

  method CollectOther(name: string, api: Api, ch: Channel) returns (ok: bool, ghost batch: seq<Sample>)
    modifies ch
    ensures ok == (name in api.others) && ch.sent == old(ch.sent) + batch
    ensures batch == if ok then api.others[name] else []
  {
    ok, batch := name in api.others, [];
    if ok {
      for n := 0 to |api.others[name]|
        invariant batch == api.others[name][..n] && ch.sent == old(ch.sent) + batch
      {
        ch.Send(api.others[name][n]);
        batch := batch + [api.others[name][n]];
      }
    }
  }

  // One module's Collect, whichever it is. It is all-or-nothing: a module that fails has sent nothing.
  method CollectModule(ex: Module, name: string, info: NodeInfo, config: Config, times: Queue.Times, api: Api,
      ch: Channel)
    returns (ok: bool, ghost batch: seq<Sample>)
    requires ModuleValid(ex)
    modifies Footprint(ex), ch
    ensures LiveOf(ex) == old(LiveOf(ex))
    ensures ok == Succeeds(ex, name, config, info, api)
    ensures ch.sent == old(ch.sent) + batch && (!ok ==> batch == [])
    ensures ok ==> Sends(ex, name, LiveOf(ex), config, times, info, api, batch)
    ensures ex.OverviewModule? ==> ex.o.State() == NextOverview(old(ex.o.State()), api.overview)
    ensures ex.OverviewModule? && ok ==> Listing(batch, OverviewSamples(ex.o.State()))
  {
    match ex {
      case OverviewModule(o) => ok, batch := o.Collect(api.overview, ch);
      case QueueModule(q) => ok, batch := CollectQueue(q, info, config, times, api, ch);
      case ConnectionsModule(c) => ok, batch := CollectConnections(c, info, config, times, api, ch);
      case MemoryModule(m) => ok, batch := CollectMemory(m, info, config, times, api, ch);
      case ExchangeModule(x) =>
        ghost var order;
        ok, order, batch := x.Collect(ContextOf(info), config, api.exchanges, ch);
      case OtherModule => ok, batch := CollectOther(name, api, ch);
    }
  }

  // Names that no factory is registered for are ignored.
  method EnabledModules(enabledExporters: seq<string>, factories: map<string, Module>)
    returns (enabled: map<string, Module>)
    ensures enabled == map name | name in factories && name in enabledExporters :: factories[name]
  {
    enabled := map[];
    for n := 0 to |enabledExporters|
      invariant enabled == map name | name in factories && name in enabledExporters[..n] :: factories[name]
    {
      assert enabledExporters[..n + 1] == enabledExporters[..n] + [enabledExporters[n]];
      if enabledExporters[n] in factories {
        enabled := enabled[enabledExporters[n] := factories[enabledExporters[n]]];
      }
    }
    assert enabledExporters[..|enabledExporters|] == enabledExporters;
  }

  class Exporter {
    const upMetric: GaugeVec
    const endpointUpMetric: GaugeVec
    const endpointScrapeDurationMetric: GaugeVec
    const modules: map<string, Module>
    const overviewExporter: ExporterOverview

    var lastScrapeOK: bool

    ghost const footprint: set<object>      // all that the modules may change
    ghost const nameHolders: set<object>    // the maps that hold the modules' live names

    ghost function Own(): set<object>
    {
      {this, upMetric, endpointUpMetric, endpointScrapeDurationMetric,
       overviewExporter, overviewExporter.overviewMetrics, overviewExporter.version}
    }

    // Modules share no vectors with one another or with the exporter, and none is registered as "overview".
    ghost predicate Valid()
    {
      && overviewExporter.Valid()
      && upMetric.desc == Desc("up", "") && endpointUpMetric.desc == Desc("module_up", "")
      && endpointScrapeDurationMetric.desc == Desc("module_scrape_duration_seconds", "")
      && overviewExporter.version !in {upMetric, endpointUpMetric, endpointScrapeDurationMetric}
      && OVERVIEW !in modules
      && (forall name :: name in modules ==>
            && ModuleValid(modules[name]) && !modules[name].OverviewModule?
            && Footprint(modules[name]) <= footprint && LiveObjects(modules[name]) <= nameHolders)
      && footprint !! Own() && nameHolders !! Own()
      && (forall a, b :: a in modules && b in modules && a != b ==> Footprint(modules[a]) !! Footprint(modules[b]))
    }

    ghost function State(): View
      reads Own()
    {
      View(overviewExporter.State(), lastScrapeOK, upMetric.series, endpointUpMetric.series,
                endpointScrapeDurationMetric.series.Keys)
    }

    // Which modules succeed, given the node info after this scrape's overview.
    ghost function OutcomeOf(before: OverviewState, config: Config, api: Api): Outcome
    {
      var info := NextOverview(before, api.overview).info;
      Outcome(api.overview, map name | name in modules :: Succeeds(modules[name], name, config, info, api))
    }

    constructor (enabledExporters: seq<string>, factories: map<string, Module>, overview: ExporterOverview,
                 ghost footprint: set<object>, ghost nameHolders: set<object>)
      requires overview.Valid() && overview.nodeInfo == NO_INFO && OVERVIEW !in factories
      requires footprint + nameHolders !! {overview, overview.overviewMetrics, overview.version}
      requires forall name :: name in factories ==>
                 && ModuleValid(factories[name]) && !factories[name].OverviewModule?
                 && Footprint(factories[name]) <= footprint && LiveObjects(factories[name]) <= nameHolders
      requires forall a, b :: a in factories && b in factories && a != b ==>
                 Footprint(factories[a]) !! Footprint(factories[b])
      ensures Valid() && overviewExporter == overview && lastScrapeOK
      ensures modules == map name | name in factories && name in enabledExporters :: factories[name]
      ensures upMetric.series == map[] && endpointUpMetric.series == map[]
          && endpointScrapeDurationMetric.series == map[]
    {
      var enabled := EnabledModules(enabledExporters, factories);
      modules := enabled;
      overviewExporter := overview;
      this.footprint := footprint;
      this.nameHolders := nameHolders;
      upMetric := new GaugeVec(Desc("up", ""));
      endpointUpMetric := new GaugeVec(Desc("module_up", ""));
      endpointScrapeDurationMetric := new GaugeVec(Desc("module_scrape_duration_seconds", ""));
      lastScrapeOK := true;
    }

    method LastScrapeOK() returns (ok: bool)
      ensures ok == lastScrapeOK
    {
      ok := lastScrapeOK;
    }

    // Sets the module's own "module_up" and duration, from the node info as it is now.
    method NoteModule(name: string, ok: bool)
      requires Valid() && ["", "", name] !in endpointUpMetric.series
      modifies endpointUpMetric, endpointScrapeDurationMetric
      ensures State() == AfterModule(old(State()), name, ok)
    {
      var node := overviewExporter.nodeInfo.node;
      var cluster := overviewExporter.nodeInfo.clusterName;
      if cluster != "" && node != "" {
        var seconds: real := *;
        endpointScrapeDurationMetric.Set([cluster, node, name], seconds);
      }
      if !ok {
        endpointUpMetric.Set([cluster, node, name], 0.0);
      } else {
        endpointUpMetric.Set([cluster, node, name], 1.0);
      }
      if node != "" && cluster != "" {
        assert ["", "", name][0] != [cluster, node, name][0];
        endpointUpMetric.DeleteLabelValues(["", "", name]);
      }
    }

    lemma {:induction false} LiveApart(a: string, b: string)
      requires Valid() && a in modules && b in modules && a != b
      ensures LiveObjects(modules[a]) !! Footprint(modules[b])
    {
      assert Footprint(modules[a]) !! Footprint(modules[b]);
    }

    twostate lemma {:induction false} LiveKept(ex: Module)
      requires forall o :: o in LiveObjects(ex) ==> unchanged(o)
      ensures LiveOf(ex) == old(LiveOf(ex))
    {
    }

    method CollectOverview(config: Config, times: Queue.Times, api: Api, ch: Channel)
      returns (ok: bool, ghost batch: seq<Sample>)
      requires Valid() && endpointUpMetric.series == map[] && ch !in nameHolders
      modifies Own() - {this, upMetric}, ch
      ensures ok == api.overview.Some?
      ensures State() == AfterOverview(old(State()), api.overview)
      ensures ch.sent == old(ch.sent) + batch
      ensures if ok then Listing(batch, OverviewSamples(State().overview)) else batch == []
      ensures forall other :: other in modules ==> LiveOf(modules[other]) == old(LiveOf(modules[other]))
    {
      ok, batch := CollectModule(OverviewModule(overviewExporter), OVERVIEW, overviewExporter.nodeInfo, config, times,
          api, ch);
      NoteModule(OVERVIEW, ok);
      forall other | other in modules
        ensures LiveOf(modules[other]) == old(LiveOf(modules[other]))
      {
        LiveKept(modules[other]);
      }
    }

    method CollectWithDuration(name: string, config: Config, times: Queue.Times, api: Api, ch: Channel)
      returns (ok: bool, ghost batch: seq<Sample>)
      requires Valid() && name in modules && ["", "", name] !in endpointUpMetric.series && ch !in nameHolders
      modifies Footprint(modules[name]), endpointUpMetric, endpointScrapeDurationMetric, ch
      ensures ok == Succeeds(modules[name], name, config, overviewExporter.nodeInfo, api)
      ensures overviewExporter.nodeInfo == old(overviewExporter.nodeInfo)
      ensures State() == AfterModule(old(State()), name, ok)
      ensures ch.sent == old(ch.sent) + batch && (!ok ==> batch == [])
      ensures ok ==> Sends(modules[name], name, old(LiveOf(modules[name])), config, times, overviewExporter.nodeInfo,
          api, batch)
      ensures forall other :: other in modules && other != name ==>
          LiveOf(modules[other]) == old(LiveOf(modules[other]))
    {
      ok, batch := CollectModule(modules[name], name, overviewExporter.nodeInfo, config, times, api, ch);
      NoteModule(name, ok);
      forall other | other in modules && other != name
        ensures LiveOf(modules[other]) == old(LiveOf(modules[other]))
      {
        LiveApart(other, name);
        LiveKept(modules[other]);
      }
    }

    ghost predicate PartReported(part: Part, live: map<string, Live>, config: Config, times: Queue.Times,
        info: NodeInfo, api: Api)
    {
      && part.name in modules && part.name in live
      && part.ok == Succeeds(modules[part.name], part.name, config, info, api)
      && if part.ok then Sends(modules[part.name], part.name, live[part.name], config, times, info, api, part.batch)
         else part.batch == []
    }

    // Each part reports its module's outcome in this scrape; a module that succeeded sent what this scrape's replies
    // call for, one that failed sent nothing.
    ghost predicate Reported(parts: seq<Part>, live: map<string, Live>, config: Config, times: Queue.Times,
        info: NodeInfo, api: Api)
    {
      forall i :: 0 <= i < |parts| ==> PartReported(parts[i], live, config, times, info, api)
    }

    // The parts of a complete scrape, in whatever order, amount to one and the same outcome.
    lemma {:induction false} PartsGiveOutcome(parts: seq<Part>, live: map<string, Live>, config: Config,
        times: Queue.Times, info: NodeInfo, api: Api)
      requires Covers(parts, modules.Keys) && Reported(parts, live, config, times, info, api)
      ensures DoneBy(parts) == map name | name in modules :: Succeeds(modules[name], name, config, info, api)
    {
      forall name
        ensures name in DoneBy(parts) <==> name in modules
        ensures name in DoneBy(parts) ==> DoneBy(parts)[name] == Succeeds(modules[name], name, config, info, api)
      {
        DoneByMembers(parts, name);
      }
    }

    ghost predicate HaveNames(names: set<string>, live: map<string, Live>)
      requires Valid() && names <= modules.Keys
      reads nameHolders
    {
      forall name :: name in names ==> name in live && LiveOf(modules[name]) == live[name]
    }

    lemma {:induction false} ReportedOneMore(parts: seq<Part>, part: Part, live: map<string, Live>, config: Config,
        times: Queue.Times, info: NodeInfo, api: Api)
      requires Reported(parts, live, config, times, info, api) && PartReported(part, live, config, times, info, api)
      ensures Reported(parts + [part], live, config, times, info, api)
    {
    }

    // Part way through a scrape: the modules in done have returned with these parts, the others are still to come.
    ghost predicate Progress(start: View, live: map<string, Live>, done: set<string>, allUp: bool, parts: seq<Part>,
        sent: seq<Sample>, config: Config, times: Queue.Times, info: NodeInfo, api: Api, ch: Channel)
      requires Valid() && done <= modules.Keys
      reads Own(), nameHolders, ch
    {
      && overviewExporter.nodeInfo == info
      && HaveNames(modules.Keys - done, live)
      && Noted(start, api.overview, done, parts, allUp, State())
      && Reported(parts, live, config, times, info, api)
      && ch.sent == SentBy(sent, parts)
    }

    method CollectOne(ghost start: View, ghost live: map<string, Live>, ghost done: set<string>, allUp: bool,
        ghost parts: seq<Part>, name: string, config: Config, times: Queue.Times, api: Api, ch: Channel)
      returns (stillUp: bool, ghost part: Part)
      requires Valid() && done <= modules.Keys && name in modules && name !in done && ch !in nameHolders
      requires HaveNames(modules.Keys - done, live)
      requires Noted(start, api.overview, done, parts, allUp, State())
      modifies Footprint(modules[name]), endpointUpMetric, endpointScrapeDurationMetric, ch
      ensures overviewExporter.nodeInfo == old(overviewExporter.nodeInfo)
      ensures Noted(start, api.overview, done + {name}, parts + [part], stillUp, State())
      ensures PartReported(part, live, config, times, overviewExporter.nodeInfo, api)
      ensures ch.sent == old(ch.sent) + part.batch
      ensures HaveNames(modules.Keys - (done + {name}), live)
    {
      ghost var v := State();
      NotedNext(start, api.overview, done, parts, allUp, v, name);
      var ok;
      ghost var batch;
      ok, batch := CollectWithDuration(name, config, times, api, ch);
      stillUp := allUp && ok;
      part := Part(name, ok, batch);
      NotedOneMore(start, api.overview, done, parts, allUp, v, part, State());
    }

    // One more module of the scrape.
    method CollectNext(ghost start: View, ghost live: map<string, Live>, ghost done: set<string>, allUp: bool,
        ghost parts: seq<Part>, ghost sent: seq<Sample>, name: string, config: Config, times: Queue.Times,
        ghost info: NodeInfo, api: Api, ch: Channel)
      returns (stillUp: bool, ghost part: Part)
      requires Valid() && done <= modules.Keys && name in modules && name !in done && ch !in nameHolders
      requires Progress(start, live, done, allUp, parts, sent, config, times, info, api, ch)
      modifies footprint, endpointUpMetric, endpointScrapeDurationMetric, ch
      ensures Progress(start, live, done + {name}, stillUp, parts + [part], sent, config, times, info, api, ch)
    {
      stillUp, part := CollectOne(start, live, done, allUp, parts, name, config, times, api, ch);
      ReportedOneMore(parts, part, live, config, times, info, api);
      SentOneMore(sent, parts, part);
    }

    // The enabled modules, in an arbitrary order.
    method CollectModules(ghost start: View, ghost live: map<string, Live>, config: Config, times: Queue.Times,
        api: Api, ch: Channel)
      returns (allUp: bool, ghost parts: seq<Part>)
      requires Valid() && ch !in nameHolders
      requires Progress(start, live, {}, true, [], ch.sent, config, times, overviewExporter.nodeInfo, api, ch)
      modifies footprint, endpointUpMetric, endpointScrapeDurationMetric, ch
      ensures Progress(start, live, modules.Keys, allUp, parts, old(ch.sent), config, times,
          old(overviewExporter.nodeInfo), api, ch)
    {
      allUp, parts := true, [];
      ghost var info, sent, done := overviewExporter.nodeInfo, ch.sent, {};
      var rest := modules.Keys;
      while rest != {}
        invariant done !! rest && done + rest == modules.Keys
        invariant Progress(start, live, done, allUp, parts, sent, config, times, info, api, ch)
      {
        var name :| name in rest;
        rest := rest - {name};
        ghost var part;
        allUp, part := CollectNext(start, live, done, allUp, parts, sent, name, config, times, info, api, ch);
        done := done + {name};
        parts := parts + [part];
      }
      assert done == modules.Keys;
    }

    // The exporter's own vectors, after all modules.
    method SendOwn(ch: Channel) returns (ghost batch: seq<Sample>)
      requires Valid()
      modifies ch
      ensures ch.sent == old(ch.sent) + batch
      ensures Listing(batch,
          SamplesOf(Desc("up", ""), upMetric.series) + SamplesOf(Desc("module_up", ""), endpointUpMetric.series)
          + SamplesOf(Desc("module_scrape_duration_seconds", ""), endpointScrapeDurationMetric.series))
    {
      ghost var a := upMetric.Collect(ch);
      ghost var b := endpointUpMetric.Collect(ch);
      ghost var c := endpointScrapeDurationMetric.Collect(ch);
      ghost var up := SamplesOf(upMetric.desc, upMetric.series);
      ghost var moduleUp := SamplesOf(endpointUpMetric.desc, endpointUpMetric.series);
      ghost var timed := SamplesOf(endpointScrapeDurationMetric.desc, endpointScrapeDurationMetric.series);
      ListingUnion(a, up, b, moduleUp);
      ListingUnion(a + b, up + moduleUp, c, timed);
      batch := a + b + c;
    }

    ghost function LiveNames(): map<string, Live>
      requires Valid()
      reads nameHolders
    {
      map name | name in modules :: LiveOf(modules[name])
    }

    method ResetOwn()
      requires Valid()
      modifies upMetric, endpointUpMetric, endpointScrapeDurationMetric
      ensures State() == AfterReset(old(State())) && endpointUpMetric.series == map[]
    {
      upMetric.Reset();
      endpointUpMetric.Reset();
      endpointScrapeDurationMetric.Reset();
    }

    // The head of a scrape: the resets and the overview, which leave the modules alone.
    method Begin(config: Config, times: Queue.Times, api: Api, ch: Channel)
      returns (ok: bool, ghost batch: seq<Sample>, ghost live: map<string, Live>)
      requires Valid() && ch !in nameHolders
      modifies Own(), ch
      ensures ok == api.overview.Some? && live == old(LiveNames())
      ensures ch.sent == old(ch.sent) + batch
      ensures if ok then Listing(batch, OverviewSamples(State().overview)) else batch == []
      ensures Progress(old(State()), live, {}, true, [], ch.sent, config, times, overviewExporter.nodeInfo, api, ch)
    {
      live := LiveNames();
      ghost var start := State();
      ResetOwn();
      ok, batch := CollectOverview(config, times, api, ch);
      NoneNoted(start, api.overview);
    }

    // "up" and the outcome that health checks read.
    method Finish(allUp: bool)
      requires Valid() && upMetric.series == map[]
      modifies this, upMetric
      ensures State() == AfterFinish(old(State()), allUp)
    {
      var info := overviewExporter.nodeInfo;
      if allUp {
        upMetric.Set([info.clusterName, info.node], 1.0);
      } else {
        upMetric.Set([info.clusterName, info.node], 0.0);
      }
      lastScrapeOK := allUp;
      if info.clusterName != "" && info.node != "" {
        assert ["", ""][0] != [info.clusterName, info.node][0];
        upMetric.DeleteLabelValues(["", ""]);
      }
    }

    // One scrape, under the mutex. The exporter's state becomes the next view; every module that succeeded has
    // sent what this scrape's replies call for under this scrape's node info; a module that failed has sent nothing.
    method Collect(config: Config, times: Queue.Times, api: Api, ch: Channel)
      returns (ghost overviewBatch: seq<Sample>, ghost parts: seq<Part>, ghost own: seq<Sample>)
      requires Valid() && ch !in nameHolders
      modifies Own(), footprint, ch
      ensures Covers(parts, modules.Keys)
      ensures Reported(parts, old(LiveNames()), config, times, overviewExporter.nodeInfo, api)
      ensures State() == NextView(old(State()), OutcomeOf(old(State().overview), config, api))
      ensures ch.sent == SentBy(old(ch.sent) + overviewBatch, parts) + own
      ensures if api.overview.Some? then Listing(overviewBatch, OverviewSamples(State().overview))
          else overviewBatch == []
      ensures Listing(own,
          SamplesOf(Desc("up", ""), upMetric.series) + SamplesOf(Desc("module_up", ""), endpointUpMetric.series)
          + SamplesOf(Desc("module_scrape_duration_seconds", ""), endpointScrapeDurationMetric.series))
    {
      var ok, modulesUp;
      ghost var live;
      ok, overviewBatch, live := Begin(config, times, api, ch);
      modulesUp, parts := CollectModules(old(State()), live, config, times, api, ch);
      NotedAll(old(State()), api.overview, modules.Keys, parts, modulesUp, State());
      PartsGiveOutcome(parts, live, config, times, overviewExporter.nodeInfo, api);
      Finish(ok && modulesUp);
      own := SendOwn(ch);
    }
  }
}
