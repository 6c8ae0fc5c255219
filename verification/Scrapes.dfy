/** What a scrape does to the exporter's own state, as a function of the modules' outcomes (exporter.go). */
module Scrapes {
  import opened Gauges
  import opened Overview
  import opened Wrappers

  // The name under which the overview is reported; no registered module has it.
  const OVERVIEW := "overview"

  // What the modules made of one scrape: the overview reply, if one reached a parser, and which others succeeded.
  datatype Outcome = Outcome(reply: Option<OverviewReply>, modules: map<string, bool>)

  // The exporter's state that a scrape reads or writes. Of the durations only their label tuples matter.
  datatype View = View(overview: OverviewState, lastScrapeOK: bool, up: Series, moduleUp: Series, timed: set<Labels>)

  function AllUp(out: Outcome): bool
  {
    out.reply.Some? && forall name :: name in out.modules ==> out.modules[name]
  }

  function Flag(ok: bool): real
  {
    if ok then 1.0 else 0.0
  }

  predicate Known(info: NodeInfo)
  {
    info.clusterName != "" && info.node != ""
  }

  function ModuleLabels(info: NodeInfo, name: string): Labels
  {
    [info.clusterName, info.node, name]
  }

  // --- The steps of one scrape ---

  function AfterReset(v: View): View
  {
    v.(up := map[], moduleUp := map[], timed := {})
  }

  // The bookkeeping after one module returned, with the node info as it is then.
  function AfterModule(v: View, name: string, ok: bool): View
  {
    var labels := ModuleLabels(v.overview.info, name);
    v.(moduleUp := v.moduleUp[labels := Flag(ok)], timed := if Known(v.overview.info) then v.timed + {labels}
        else v.timed)
  }

  function AfterOverview(v: View, reply: Option<OverviewReply>): View
  {
    AfterModule(v.(overview := NextOverview(v.overview, reply)), OVERVIEW, reply.Some?)
  }

  function AfterFinish(v: View, allUp: bool): View
  {
    v.(up := v.up[[v.overview.info.clusterName, v.overview.info.node] := Flag(allUp)], lastScrapeOK := allUp)
  }

  // --- A scrape as a whole, and runs of scrapes ---

  function LabelSet(info: NodeInfo, names: set<string>): set<Labels>
  {
    set name | name in names :: ModuleLabels(info, name)
  }

  function FlagFor(replied: bool, modules: map<string, bool>, labels: Labels): real
  {
    Flag(if |labels| > 2 && labels[2] in modules then modules[labels[2]] else replied)
  }

  // One series for the overview and one for each module, all under one cluster and node.
  function ModuleUp(info: NodeInfo, replied: bool, modules: map<string, bool>): Series
  {
    map labels | labels in LabelSet(info, modules.Keys + {OVERVIEW}) ::
      FlagFor(replied, modules, labels)
  }

  function Timed(info: NodeInfo, names: set<string>): set<Labels>
  {
    if Known(info) then LabelSet(info, names) else {}
  }

  // The state when the overview and these modules have returned.
  function Partial(v: View, reply: Option<OverviewReply>, done: map<string, bool>): View
  {
    var overview := NextOverview(v.overview, reply);
    View(overview, v.lastScrapeOK, map[], ModuleUp(overview.info, reply.Some?, done),
         Timed(overview.info, done.Keys + {OVERVIEW}))
  }

  // The state after a scrape: whatever the order of the modules.
  function NextView(v: View, out: Outcome): View
  {
    AfterFinish(Partial(v, out.reply, out.modules), AllUp(out))
  }

  function Run(v: View, outs: seq<Outcome>): View
  {
    if outs == [] then v else NextView(Run(v, outs[..|outs| - 1]), outs[|outs| - 1])
  }

  lemma {:induction false} LabelSetMember(info: NodeInfo, names: set<string>, labels: Labels)
    ensures labels in LabelSet(info, names) <==>
            |labels| == 3 && labels[2] in names && labels == ModuleLabels(info, labels[2])
  {
    if labels in LabelSet(info, names) {
      var name :| name in names && labels == ModuleLabels(info, name);
      assert labels[2] == name;
    }
  }

  lemma {:induction false} LabelSetOne(info: NodeInfo, name: string)
    ensures LabelSet(info, {name}) == {ModuleLabels(info, name)}
  {
  }

  lemma {:induction false} ModuleUpNone(info: NodeInfo, replied: bool, none: map<string, bool>)
    requires none == map[]
    ensures ModuleUp(info, replied, none) == map[ModuleLabels(info, OVERVIEW) := Flag(replied)]
  {
    LabelSetOne(info, OVERVIEW);
    assert none.Keys + {OVERVIEW} == {OVERVIEW};
  }

  lemma {:induction false} PartialStart(v: View, reply: Option<OverviewReply>)
    ensures AfterOverview(AfterReset(v), reply) == Partial(v, reply, map[])
  {
    var info := NextOverview(v.overview, reply).info;
    var none: map<string, bool> := map[];
    ModuleUpNone(info, reply.Some?, none);
    LabelSetOne(info, OVERVIEW);
    assert none.Keys + {OVERVIEW} == {OVERVIEW};
  }

  lemma {:induction false} LabelSetOneMore(info: NodeInfo, names: set<string>, name: string)
    ensures LabelSet(info, names + {name}) == LabelSet(info, names) + {ModuleLabels(info, name)}
    ensures name !in names ==> ModuleLabels(info, name) !in LabelSet(info, names)
  {
    LabelSetMember(info, names, ModuleLabels(info, name));
  }

  lemma {:induction false} ModuleUpOneMore(info: NodeInfo, replied: bool, done: map<string, bool>, name: string,
      ok: bool)
    requires name != OVERVIEW && name !in done
    ensures ModuleUp(info, replied, done[name := ok]) == ModuleUp(info, replied,
        done)[ModuleLabels(info, name) := Flag(ok)]
  {
    var names := done.Keys + {OVERVIEW};
    assert done[name := ok].Keys + {OVERVIEW} == names + {name};
    LabelSetOneMore(info, names, name);
    forall l | l in LabelSet(info, names)
      ensures FlagFor(replied, done[name := ok], l) == FlagFor(replied, done, l)
    {
      LabelSetMember(info, names, l);
    }
    assert FlagFor(replied, done[name := ok], ModuleLabels(info, name)) == Flag(ok);
  }

  lemma {:induction false} PartialOneMore(v: View, reply: Option<OverviewReply>, done: map<string, bool>,
      name: string, ok: bool)
    requires name != OVERVIEW && name !in done
    ensures AfterModule(Partial(v, reply, done), name, ok) == Partial(v, reply, done[name := ok])
  {
    var info := NextOverview(v.overview, reply).info;
    ModuleUpOneMore(info, reply.Some?, done, name, ok);
    assert done[name := ok].Keys + {OVERVIEW} == done.Keys + {OVERVIEW} + {name};
    LabelSetOneMore(info, done.Keys + {OVERVIEW}, name);
  }

  // --- Modules one after the other ---

  // What one module contributed to a scrape: its outcome, and what it sent.
  datatype Part = Part(name: string, ok: bool, batch: seq<Sample>)

  function AfterModules(v: View, parts: seq<Part>): View
  {
    if parts == [] then v
    else AfterModule(AfterModules(v, parts[..|parts| - 1]), parts[|parts| - 1].name, parts[|parts| - 1].ok)
  }

  // What has been sent when the modules have added their parts, in their order.
  function SentBy(before: seq<Sample>, parts: seq<Part>): seq<Sample>
  {
    if parts == [] then before else SentBy(before, parts[..|parts| - 1]) + parts[|parts| - 1].batch
  }

  lemma {:induction false} SentOneMore(before: seq<Sample>, parts: seq<Part>, part: Part)
    ensures SentBy(before, parts + [part]) == SentBy(before, parts) + part.batch
  {
    assert (parts + [part])[..|parts|] == parts;
  }

  lemma {:induction false} AfterOneMore(v: View, parts: seq<Part>, part: Part)
    ensures AfterModules(v, parts + [part]) == AfterModule(AfterModules(v, parts), part.name, part.ok)
  {
    assert (parts + [part])[..|parts|] == parts;
  }

  // Each of these modules has one part.
  ghost predicate Covers(parts: seq<Part>, names: set<string>)
  {
    && (forall i :: 0 <= i < |parts| ==> parts[i].name in names)
    && (forall i, j :: 0 <= i < j < |parts| ==> parts[i].name != parts[j].name)
    && (forall name :: name in names ==> exists i :: 0 <= i < |parts| && parts[i].name == name)
  }

  lemma {:induction false} CoversOneMore(parts: seq<Part>, names: set<string>, part: Part)
    requires Covers(parts, names) && part.name !in names
    ensures Covers(parts + [part], names + {part.name})
  {
    var more := parts + [part];
    forall name | name in names + {part.name}
      ensures exists i :: 0 <= i < |more| && more[i].name == name
    {
      if name == part.name {
        assert more[|parts|].name == name;
      } else {
        var i :| 0 <= i < |parts| && parts[i].name == name;
        assert more[i].name == name;
      }
    }
  }

  function DoneBy(parts: seq<Part>): map<string, bool>
  {
    if parts == [] then map[] else DoneBy(parts[..|parts| - 1])[parts[|parts| - 1].name := parts[|parts| - 1].ok]
  }

  lemma {:induction false} DoneByMembers(parts: seq<Part>, name: string)
    ensures name in DoneBy(parts) <==> exists i :: 0 <= i < |parts| && parts[i].name == name
    ensures name in DoneBy(parts) ==>
              exists i :: 0 <= i < |parts| && parts[i].name == name && parts[i].ok == DoneBy(parts)[name]
    decreases |parts|
  {
    if parts != [] {
      var front, last := parts[..|parts| - 1], parts[|parts| - 1];
      DoneByMembers(front, name);
      assert forall i :: 0 <= i < |front| ==> front[i] == parts[i];
    }
  }

  // In whatever order the modules come, the state is the one their outcomes determine.
  lemma {:induction false} AfterModulesIsPartial(v: View, reply: Option<OverviewReply>, parts: seq<Part>)
    requires forall i :: 0 <= i < |parts| ==> parts[i].name != OVERVIEW
    requires forall i, j :: 0 <= i < j < |parts| ==> parts[i].name != parts[j].name
    ensures AfterModules(AfterOverview(AfterReset(v), reply), parts) == Partial(v, reply, DoneBy(parts))
    decreases |parts|
  {
    if parts == [] {
      PartialStart(v, reply);
    } else {
      var front, last := parts[..|parts| - 1], parts[|parts| - 1];
      AfterModulesIsPartial(v, reply, front);
      DoneByMembers(front, last.name);
      assert forall i :: 0 <= i < |front| ==> front[i] == parts[i];
      PartialOneMore(v, reply, DoneBy(front), last.name, last.ok);
    }
  }

  // The state and the overall outcome when the modules in done have returned with these parts.
  ghost predicate Noted(start: View, reply: Option<OverviewReply>, done: set<string>, parts: seq<Part>, allUp: bool,
      v: View)
  {
    && Covers(parts, done) && OVERVIEW !in done
    && v == AfterModules(AfterOverview(AfterReset(start), reply), parts)
    && (allUp <==> forall i :: 0 <= i < |parts| ==> parts[i].ok)
  }

  lemma {:induction false} NoneNoted(start: View, reply: Option<OverviewReply>)
    ensures Noted(start, reply, {}, [], true, AfterOverview(AfterReset(start), reply))
  {
  }

  // A module that has not returned yet has no series under empty cluster and node.
  lemma {:induction false} NotNotedYet(v: View, reply: Option<OverviewReply>, parts: seq<Part>, name: string)
    requires forall i :: 0 <= i < |parts| ==> parts[i].name != OVERVIEW
    requires forall i, j :: 0 <= i < j < |parts| ==> parts[i].name != parts[j].name
    requires name != OVERVIEW && forall i :: 0 <= i < |parts| ==> parts[i].name != name
    ensures ["", "", name] !in AfterModules(AfterOverview(AfterReset(v), reply), parts).moduleUp
  {
    AfterModulesIsPartial(v, reply, parts);
    DoneByMembers(parts, name);
    var info := NextOverview(v.overview, reply).info;
    LabelSetMember(info, DoneBy(parts).Keys + {OVERVIEW}, ["", "", name]);
  }

  lemma {:induction false} NotedNext(start: View, reply: Option<OverviewReply>, done: set<string>, parts: seq<Part>,
      allUp: bool, v: View, name: string)
    requires Noted(start, reply, done, parts, allUp, v) && name !in done && name != OVERVIEW
    ensures ["", "", name] !in v.moduleUp && forall i :: 0 <= i < |parts| ==> parts[i].name != name
  {
    NotNotedYet(start, reply, parts, name);
  }

  lemma {:induction false} NotedOneMore(start: View, reply: Option<OverviewReply>, done: set<string>,
      parts: seq<Part>, allUp: bool, v: View, part: Part, w: View)
    requires Noted(start, reply, done, parts, allUp, v) && part.name !in done && part.name != OVERVIEW
    requires w == AfterModule(v, part.name, part.ok)
    ensures Noted(start, reply, done + {part.name}, parts + [part], allUp && part.ok, w)
  {
    AfterOneMore(AfterOverview(AfterReset(start), reply), parts, part);
    CoversOneMore(parts, done, part);
    var more := parts + [part];
    assert more[|parts|] == part && forall i :: 0 <= i < |parts| ==> more[i] == parts[i];
  }

  lemma {:induction false} AllUpOf(reply: Option<OverviewReply>, parts: seq<Part>)
    requires forall i, j :: 0 <= i < j < |parts| ==> parts[i].name != parts[j].name
    ensures AllUp(Outcome(reply, DoneBy(parts))) <==> reply.Some? && forall i :: 0 <= i < |parts| ==> parts[i].ok
  {
    forall i | 0 <= i < |parts|
      ensures parts[i].name in DoneBy(parts) && DoneBy(parts)[parts[i].name] == parts[i].ok
    {
      DoneByMembers(parts, parts[i].name);
    }
    forall name | name in DoneBy(parts)
      ensures exists i :: 0 <= i < |parts| && parts[i].name == name
    {
      DoneByMembers(parts, name);
    }
  }

  // When all modules have returned, finishing gives the next view, whatever their order was.
  lemma {:induction false} NotedAll(start: View, reply: Option<OverviewReply>, names: set<string>, parts: seq<Part>,
      allUp: bool, v: View)
    requires Noted(start, reply, names, parts, allUp, v)
    ensures AfterFinish(v, reply.Some? && allUp) == NextView(start, Outcome(reply, DoneBy(parts)))
    ensures v.up == map[]
  {
    AfterModulesIsPartial(start, reply, parts);
    AllUpOf(reply, parts);
  }

  // --- What every run keeps ---

  lemma {:induction false} ModuleUpAt(info: NodeInfo, replied: bool, modules: map<string, bool>, labels: Labels)
    requires OVERVIEW !in modules
    ensures labels in ModuleUp(info, replied, modules) <==>
            |labels| == 3 && (labels[2] == OVERVIEW || labels[2] in modules) && labels == ModuleLabels(info, labels[2])
    ensures labels in ModuleUp(info, replied, modules) ==>
            ModuleUp(info, replied, modules)[labels] == Flag(if labels[2] == OVERVIEW then replied
                else modules[labels[2]])
  {
    LabelSetMember(info, modules.Keys + {OVERVIEW}, labels);
  }

  lemma {:induction false} LabelSetSize(info: NodeInfo, names: set<string>)
    ensures |LabelSet(info, names)| == |names|
    decreases |names|
  {
    if names == {} {
      assert LabelSet(info, names) == {};
    } else {
      var name :| name in names;
      LabelSetSize(info, names - {name});
      LabelSetMember(info, names - {name}, ModuleLabels(info, name));
      assert LabelSet(info, names) == LabelSet(info, names - {name}) + {ModuleLabels(info, name)};
    }
  }

  // "module_up" has exactly one series for each module and the overview, under this view's cluster and node,
  // with 1 for those that succeeded.
  ghost predicate OneSeriesPerModule(w: View, out: Outcome)
  {
    var cluster, node := w.overview.info.clusterName, w.overview.info.node;
    && w.moduleUp.Keys == (set name | name in out.modules.Keys + {"overview"} :: [cluster, node, name])
    && |w.moduleUp| == |out.modules| + 1
    && (forall name :: name in out.modules ==>
          [cluster, node, name] in w.moduleUp
          && w.moduleUp[[cluster, node, name]] == if out.modules[name] then 1.0 else 0.0)
    && [cluster, node, "overview"] in w.moduleUp
    && w.moduleUp[[cluster, node, "overview"]] == (if out.reply.Some? then 1.0 else 0.0)
  }

  // "up" has exactly one series; it is 1 exactly when every "module_up" is 1, and exactly when the scrape counts as OK.
  ghost predicate UpSummarises(w: View)
  {
    var labels := [w.overview.info.clusterName, w.overview.info.node];
    && w.up.Keys == {labels}
    && (w.up[labels] == 1.0 <==> forall l :: l in w.moduleUp ==> w.moduleUp[l] == 1.0)
    && (w.up[labels] == 1.0 <==> w.lastScrapeOK)
    && (w.up[labels] == 0.0 <==> !w.lastScrapeOK)
  }

  // Durations are shown for all modules and the overview, or for none while cluster or node is unknown.
  ghost predicate TimedAllOrNone(w: View, out: Outcome)
  {
    var cluster, node := w.overview.info.clusterName, w.overview.info.node;
    w.timed == if cluster != "" && node != ""
               then set name | name in out.modules.Keys + {"overview"} :: [cluster, node, name]
               else {}
  }

  lemma {:induction false} ModuleUpOf(info: NodeInfo, replied: bool, modules: map<string, bool>, name: string)
    requires OVERVIEW !in modules && (name == OVERVIEW || name in modules)
    ensures var series, labels := ModuleUp(info, replied, modules), ModuleLabels(info, name);
            labels in series && series[labels] == Flag(if name == OVERVIEW then replied else modules[name])
  {
    ModuleUpAt(info, replied, modules, ModuleLabels(info, name));
  }

  lemma {:induction false} ModuleUpSize(info: NodeInfo, replied: bool, modules: map<string, bool>)
    requires OVERVIEW !in modules
    ensures |ModuleUp(info, replied, modules)| == |modules| + 1
  {
    LabelSetSize(info, modules.Keys + {OVERVIEW});
    assert ModuleUp(info, replied, modules).Keys == LabelSet(info, modules.Keys + {OVERVIEW});
  }

  lemma {:induction false} ModuleUpKeys(info: NodeInfo, replied: bool, modules: map<string, bool>)
    ensures ModuleUp(info, replied, modules).Keys
         == set name | name in modules.Keys + {"overview"} :: [info.clusterName, info.node, name]
  {
  }

  lemma {:induction false} NextViewSeries(v: View, out: Outcome)
    requires OVERVIEW !in out.modules
    ensures OneSeriesPerModule(NextView(v, out), out)
  {
    var info := NextView(v, out).overview.info;
    ModuleUpKeys(info, out.reply.Some?, out.modules);
    ModuleUpSize(info, out.reply.Some?, out.modules);
    ModuleUpOf(info, out.reply.Some?, out.modules, OVERVIEW);
    forall name | name in out.modules
      ensures ModuleLabels(info, name) in ModuleUp(info, out.reply.Some?, out.modules)
      ensures ModuleUp(info, out.reply.Some?, out.modules)[ModuleLabels(info, name)] == Flag(out.modules[name])
    {
      ModuleUpOf(info, out.reply.Some?, out.modules, name);
    }
  }

  lemma {:induction false} UpIffAllUp(w: View, out: Outcome)
    requires OVERVIEW !in out.modules
    requires w.moduleUp == ModuleUp(w.overview.info, out.reply.Some?, out.modules)
    ensures (forall labels :: labels in w.moduleUp ==> w.moduleUp[labels] == 1.0) <==> AllUp(out)
  {
    var info := w.overview.info;
    forall labels | labels in w.moduleUp
      ensures w.moduleUp[labels] == Flag(if labels[2] == OVERVIEW then out.reply.Some? else out.modules[labels[2]])
      ensures labels[2] == OVERVIEW || labels[2] in out.modules
    {
      ModuleUpAt(info, out.reply.Some?, out.modules, labels);
    }
    forall name | name == OVERVIEW || name in out.modules
      ensures ModuleLabels(info, name) in w.moduleUp && ModuleLabels(info, name)[2] == name
    {
      ModuleUpAt(info, out.reply.Some?, out.modules, ModuleLabels(info, name));
    }
  }

  lemma {:induction false} NextViewUp(v: View, out: Outcome)
    requires OVERVIEW !in out.modules
    ensures UpSummarises(NextView(v, out))
  {
    UpIffAllUp(NextView(v, out), out);
  }

  // After every scrape of every run.
  lemma {:induction false} AfterEveryScrape(v: View, outs: seq<Outcome>)
    requires outs != [] && OVERVIEW !in outs[|outs| - 1].modules
    ensures OneSeriesPerModule(Run(v, outs), outs[|outs| - 1])
    ensures UpSummarises(Run(v, outs)) && TimedAllOrNone(Run(v, outs), outs[|outs| - 1])
    ensures var out := outs[|outs| - 1];
      Run(v, outs).lastScrapeOK <==> out.reply.Some? && forall name :: name in out.modules ==> out.modules[name]
  {
    var before, out := Run(v, outs[..|outs| - 1]), outs[|outs| - 1];
    NextViewSeries(before, out);
    NextViewUp(before, out);
  }

  function RepliesOf(outs: seq<Outcome>): Replies
  {
    if outs == [] then [] else RepliesOf(outs[..|outs| - 1]) + [outs[|outs| - 1].reply]
  }

  // Over a run, the overview's state is driven by the overview replies alone.
  lemma {:induction false} OverviewOfRun(v: View, outs: seq<Outcome>)
    ensures Run(v, outs).overview == RunOverview(v.overview, RepliesOf(outs)) && |RepliesOf(outs)| == |outs|
    decreases |outs|
  {
    if outs != [] {
      OverviewOfRun(v, outs[..|outs| - 1]);
      var replies := RepliesOf(outs);
      assert replies[..|replies| - 1] == RepliesOf(outs[..|outs| - 1]);
    }
  }

  // Over a run, cluster, node and queue count are those of the most recent overview reply that reached a parser.
  lemma {:induction false} InfoOfRun(v: View, outs: seq<Outcome>, i: nat)
    requires MostRecent(RepliesOf(outs), i)
    ensures var info, r := Run(v, outs).overview.info, RepliesOf(outs)[i].value;
      && info.node == r.node && info.clusterName == r.clusterName
      && info.totalQueues == (if "object_totals.queues" in r.metrics then Truncated(r.metrics["object_totals.queues"])
                              else 0)
  {
    OverviewOfRun(v, outs);
    InfoOfMostRecent(v.overview, RepliesOf(outs), i);
  }
}
