/** The overview module (exporter_overview.go): node identity and cluster-wide gauges, kept from scrape to scrape. */
module Overview {
  import opened Config
  import opened Decoder
  import opened Gauges
  import opened Wrappers

  datatype NodeInfo = NodeInfo(node: string, rabbitmqVersion: string, erlangVersion: string, clusterName: string,
      totalQueues: int)

  const NO_INFO := NodeInfo("", "", "", "", 0)

  // What one overview reply gives: its flat map, and the four strings asked for; one that is not found is empty.
  datatype OverviewReply = OverviewReply(metrics: Metrics, node: string, rabbitmqVersion: string,
      erlangVersion: string, clusterName: string)

  // Go converts a float to an int by dropping the fraction.
  function Truncated(r: real): (n: int)
    ensures r >= 0.0 ==> n as real <= r < n as real + 1.0
    ensures r < 0.0 ==> n as real - 1.0 < r <= n as real
  {
    if r >= 0.0 then r.Floor else -((-r).Floor)
  }

  function InfoOf(reply: OverviewReply): NodeInfo
  {
    NodeInfo(reply.node, reply.rabbitmqVersion, reply.erlangVersion, reply.clusterName,
             Truncated(if "object_totals.queues" in reply.metrics then reply.metrics["object_totals.queues"] else 0.0))
  }

  function VersionSeries(info: NodeInfo): Series
  {
    map[[info.rabbitmqVersion, info.erlangVersion, info.node, info.clusterName] := 1.0]
  }

  // Everything the module keeps between scrapes.
  datatype OverviewState = OverviewState(info: NodeInfo, gauges: map<string, Series>, version: Series)

  // One scrape: a reply that could not be had changes nothing; a key the reply lacks keeps its old series.
  function NextOverview(s: OverviewState, reply: Option<OverviewReply>): OverviewState
  {
    match reply
    case None => s
    case Some(r) =>
      var info := InfoOf(r);
      OverviewState(info,
                    map key | key in s.gauges ::
                      if key in r.metrics then map[[info.clusterName] := r.metrics[key]] else s.gauges[key],
                    VersionSeries(info))
  }

  class ExporterOverview {
    const overviewMetrics: GaugeMap
    const version: GaugeVec

    var nodeInfo: NodeInfo

    ghost predicate Valid()
    {
      overviewMetrics.family == "overview" && version.desc == Desc("version_info", "")
    }

    ghost function State(): OverviewState
      reads this, overviewMetrics, version
    {
      OverviewState(nodeInfo, overviewMetrics.vecs, version.series)
    }

    // The package-level maps are passed in: the exporter shares them, and excluded keys are deleted from them in place.
    constructor (metricMap: GaugeMap, version: GaugeVec, excludeMetrics: seq<string>)
      requires metricMap.family == "overview" && version.desc == Desc("version_info", "")
      modifies metricMap
      ensures Valid() && overviewMetrics == metricMap && this.version == version
      ensures nodeInfo == NO_INFO
      ensures metricMap.vecs == old(metricMap.vecs) - Names(excludeMetrics)
    {
      overviewMetrics := metricMap;
      this.version := version;
      nodeInfo := NO_INFO;
      new;
      metricMap.Exclude(excludeMetrics);
    }

    lemma {:induction false} OverviewSamplesDisjoint()
      requires Valid()
      ensures SamplesOf(version.desc, version.series) !! AllSamples("overview", overviewMetrics.vecs)
    {
    }

    // Every gauge whose key the reply carries is reset and given one series; the others are left alone.
    method SetPresent(data: Metrics)
      modifies overviewMetrics
      ensures overviewMetrics.vecs == map key | key in old(overviewMetrics.vecs) ::
                if key in data then map[[nodeInfo.clusterName] := data[key]] else old(overviewMetrics.vecs)[key]
    {
      var rest := overviewMetrics.vecs.Keys;
      while rest != {}
        invariant rest <= overviewMetrics.vecs.Keys == old(overviewMetrics.vecs).Keys
        invariant forall key :: key in overviewMetrics.vecs ==>
                    overviewMetrics.vecs[key] ==
                    if key in rest || key !in data then old(overviewMetrics.vecs)[key]
                    else map[[nodeInfo.clusterName] := data[key]]
      {
        var key :| key in rest;
        rest := rest - {key};
        if key in data {
          overviewMetrics.Reset(key);
          overviewMetrics.Set(key, [nodeInfo.clusterName], data[key]);
        }
      }
    }

    // None is a failed request, or bytes that are not BERT, and returns early; bytes that are not JSON give a blank
    // reply.
    method Collect(reply: Option<OverviewReply>, ch: Channel?) returns (ok: bool, ghost batch: seq<Sample>)
      requires Valid()
      modifies this, overviewMetrics, version, ch
      ensures Valid() && ok == reply.Some?
      ensures State() == NextOverview(old(State()), reply)
      ensures ch != null ==> ch.sent == old(ch.sent) + batch
      ensures !ok ==> batch == []
      ensures ok && ch != null ==> Listing(batch,
          SamplesOf(version.desc, version.series) + AllSamples("overview", overviewMetrics.vecs))
    {
      batch := [];
      if reply == None {
        return false, [];
      }
      var data := reply.value.metrics;
      nodeInfo := nodeInfo.(node := reply.value.node);
      nodeInfo := nodeInfo.(erlangVersion := reply.value.erlangVersion);
      nodeInfo := nodeInfo.(rabbitmqVersion := reply.value.rabbitmqVersion);
      nodeInfo := nodeInfo.(clusterName := reply.value.clusterName);
      nodeInfo := nodeInfo.(totalQueues :=
        Truncated(if "object_totals.queues" in data then data["object_totals.queues"] else 0.0));

      version.Reset();
      version.Set([nodeInfo.rabbitmqVersion, nodeInfo.erlangVersion, nodeInfo.node, nodeInfo.clusterName], 1.0);
      SetPresent(data);
      if ch != null {
        var first := version.Collect(ch);
        var second := overviewMetrics.CollectAll(ch);
        batch := first + second;
        OverviewSamplesDisjoint();
        ListingUnion(first, SamplesOf(version.desc, version.series), second,
            AllSamples("overview", overviewMetrics.vecs));
      }
      return true, batch;
    }
  }

  // --- Runs ---

  type Replies = seq<Option<OverviewReply>>

  function RunOverview(s: OverviewState, replies: Replies): OverviewState
  {
    if replies == [] then s
    else NextOverview(RunOverview(s, replies[..|replies| - 1]), replies[|replies| - 1])
  }

  // The i-th reply is the most recent one that reached a parser, a blank one included.
  ghost predicate MostRecent(replies: Replies, i: int)
  {
    0 <= i < |replies| && replies[i].Some? && forall j :: i < j < |replies| ==> replies[j].None?
  }

  // The i-th reply is the most recent one that carries the key.
  ghost predicate MostRecentWith(replies: Replies, key: string, i: int)
  {
    && 0 <= i < |replies| && replies[i].Some? && key in replies[i].value.metrics
    && forall j :: i < j < |replies| && replies[j].Some? ==> key !in replies[j].value.metrics
  }

  // Over any run, the node info is that of the most recent reply that reached a parser.
  lemma {:induction false} InfoOfMostRecent(s: OverviewState, replies: Replies, i: nat)
    requires MostRecent(replies, i)
    ensures var info, r := RunOverview(s, replies).info, replies[i].value;
      && info.node == r.node && info.clusterName == r.clusterName
      && info.rabbitmqVersion == r.rabbitmqVersion && info.erlangVersion == r.erlangVersion
      && info.totalQueues == (if "object_totals.queues" in r.metrics then Truncated(r.metrics["object_totals.queues"])
                              else 0)
    ensures var r := replies[i].value;
      RunOverview(s, replies).version == map[[r.rabbitmqVersion, r.erlangVersion, r.node, r.clusterName] := 1.0]
    decreases |replies|
  {
    if i < |replies| - 1 {
      assert replies[|replies| - 1].None?;
      InfoOfMostRecent(s, replies[..|replies| - 1], i);
    }
  }

  // While every request fails, everything is as it was.
  lemma {:induction false} NothingReplied(s: OverviewState, replies: Replies)
    requires forall i :: 0 <= i < |replies| ==> replies[i].None?
    ensures RunOverview(s, replies) == s
    decreases |replies|
  {
    if replies != [] {
      NothingReplied(s, replies[..|replies| - 1]);
    }
  }

  lemma {:induction false} RunKeepsKeys(s: OverviewState, replies: Replies)
    ensures RunOverview(s, replies).gauges.Keys == s.gauges.Keys
    decreases |replies|
  {
    if replies != [] {
      RunKeepsKeys(s, replies[..|replies| - 1]);
    }
  }

  // Over any run, each gauge holds the value and cluster label of the most recent reply that carried its
  // key, as its only series.
  lemma {:induction false} GaugeOfMostRecent(s: OverviewState, replies: Replies, key: string, i: nat)
    requires key in s.gauges && MostRecentWith(replies, key, i)
    ensures key in RunOverview(s, replies).gauges
    ensures RunOverview(s, replies).gauges[key]
         == map[[replies[i].value.clusterName] := replies[i].value.metrics[key]]
    decreases |replies|
  {
    var front, last := replies[..|replies| - 1], replies[|replies| - 1];
    RunKeepsKeys(s, front);
    if i < |front| {
      GaugeOfMostRecent(s, front, key, i);
    }
  }

  // A key that no reply carried keeps what it had.
  lemma {:induction false} GaugeNeverCarried(s: OverviewState, replies: Replies, key: string)
    requires key in s.gauges
    requires forall i :: 0 <= i < |replies| && replies[i].Some? ==> key !in replies[i].value.metrics
    ensures key in RunOverview(s, replies).gauges && RunOverview(s, replies).gauges[key] == s.gauges[key]
    decreases |replies|
  {
    if replies != [] {
      GaugeNeverCarried(s, replies[..|replies| - 1], key);
    }
  }

  // So a gauge that starts with no series never holds more than one.
  lemma {:induction false} AtMostOneSeries(s: OverviewState, replies: Replies, key: string)
    requires key in s.gauges && s.gauges[key] == map[]
    ensures key in RunOverview(s, replies).gauges && |RunOverview(s, replies).gauges[key]| <= 1
    decreases |replies|
  {
    if replies != [] {
      AtMostOneSeries(s, replies[..|replies| - 1], key);
    }
  }
}
