/**
 Runs of overview requests, from the responses of the API on. Only a response that decodes to an object tells who the
 node is; one that decodes to something else, and bytes that are not JSON, still count as a success and wipe it.
 */
module OverviewRuns {
  import opened Client
  import opened Config
  import opened FlatKeys
  import opened Gauges
  import opened JsonMap
  import opened Overview
  import opened Scrapes
  import opened Wrappers
  import B = BertMap
  import Exporter
  import Queue

  ghost predicate Answers(responses: seq<Response>, replies: Replies)
  {
    |responses| == |replies| && forall i :: 0 <= i < |responses| ==> OverviewOf(responses[i], replies[i])
  }

  // A success that says nothing.
  predicate Blanks(response: Response)
  {
    !Fails(response) && !DecodesToObject(response)
  }

  // The most recent response that decodes to an object, or -1.
  function LastDecoded(responses: seq<Response>): (i: int)
    ensures -1 <= i < |responses|
    ensures i >= 0 ==> DecodesToObject(responses[i])
    ensures forall j :: i < j < |responses| ==> !DecodesToObject(responses[j])
  {
    if responses == [] then -1
    else if DecodesToObject(responses[|responses| - 1]) then |responses| - 1
    else LastDecoded(responses[..|responses| - 1])
  }

  predicate BlankAfter(responses: seq<Response>, i: int)
  {
    exists j :: 0 <= j && i < j < |responses| && Blanks(responses[j])
  }

  // The state with the node's identity wiped; the overview gauges stay.
  function Wiped(s: OverviewState): OverviewState
  {
    OverviewState(NO_INFO, s.gauges, VersionSeries(NO_INFO))
  }

  // What the most recent decoded response said, or what was known at the start.
  function LastSaid(s: OverviewState, responses: seq<Response>, replies: Replies): NodeInfo
    requires |responses| == |replies|
    requires forall i :: 0 <= i < |responses| && DecodesToObject(responses[i]) ==> replies[i].Some?
  {
    var i := LastDecoded(responses);
    if i >= 0 then InfoOf(replies[i].value) else s.info
  }

  lemma {:induction false} BlankReply(response: Response, reply: Option<OverviewReply>)
    requires OverviewOf(response, reply) && Blanks(response)
    ensures reply == Some(BLANK_OVERVIEW) && InfoOf(BLANK_OVERVIEW) == NO_INFO
  {
    if response.Bert? {
      var m :| B.BertMapReply(response.decoded.value, m) && m == reply.value.metrics;
      assert m == map[];
    }
  }

  // One response, from any state.
  lemma {:induction false} NextOfResponse(s: OverviewState, response: Response, reply: Option<OverviewReply>)
    requires OverviewOf(response, reply)
    ensures reply.None? <==> Fails(response)
    ensures Fails(response) ==> NextOverview(s, reply) == s
    ensures Blanks(response) ==> NextOverview(s, reply) == Wiped(s)
    ensures DecodesToObject(response) ==> reply.Some? && NextOverview(s, reply).info == InfoOf(reply.value)
  {
    if Blanks(response) {
      BlankReply(response, reply);
      assert NextOverview(s, reply).gauges == s.gauges;
    }
  }

  // Bytes that are not JSON, and a BERT reply that is a number, wipe whatever was known; yet the scrape counts as OK.
  lemma {:induction false} NotJsonWipes(v: View, response: Response, reply: Option<OverviewReply>)
    requires response == Json(None) || response == Bert(Some(B.Num(1.0)))
    requires OverviewOf(response, reply)
    ensures var next := NextView(v, Outcome(reply, map[]));
            next.overview == Wiped(v.overview) && next.lastScrapeOK && next.up == map[["", ""] := 1.0]
  {
    NextOfResponse(v.overview, response, reply);
  }

  // --- Whole runs ---

  lemma {:induction false} BlankAfterOneMore(responses: seq<Response>, response: Response, i: int)
    requires -1 <= i < |responses|
    ensures BlankAfter(responses + [response], i) <==> BlankAfter(responses, i) || Blanks(response)
  {
    var all := responses + [response];
    if BlankAfter(responses, i) {
      var j :| 0 <= j && i < j < |responses| && Blanks(responses[j]);
      assert all[j] == responses[j];
    }
    if Blanks(response) {
      assert all[|responses|] == response;
    }
  }

  // What matters of a reply to the run.
  predicate Fits(response: Response, reply: Option<OverviewReply>)
  {
    && (Fails(response) ==> reply == None)
    && (Blanks(response) ==> reply == Some(BLANK_OVERVIEW))
  }

  ghost predicate AllFit(responses: seq<Response>, replies: Replies)
  {
    |responses| == |replies| && forall i :: 0 <= i < |responses| ==> Fits(responses[i], replies[i])
  }

  lemma {:induction false} AnswersFit(responses: seq<Response>, replies: Replies)
    requires Answers(responses, replies)
    ensures AllFit(responses, replies)
  {
    forall i | 0 <= i < |responses|
      ensures Fits(responses[i], replies[i])
    {
      if Blanks(responses[i]) {
        BlankReply(responses[i], replies[i]);
      }
    }
  }

  // One more response that did not decode.
  lemma {:induction false} NotDecodedNext(s: OverviewState, wiped: bool, response: Response,
      reply: Option<OverviewReply>)
    requires Fits(response, reply) && !DecodesToObject(response)
    ensures NextOverview(if wiped then Wiped(s) else s, reply) == if wiped || Blanks(response) then Wiped(s) else s
  {
    assert InfoOf(BLANK_OVERVIEW) == NO_INFO;
    if Blanks(response) {
      assert NextOverview(s, reply).gauges == s.gauges;
    }
  }

  lemma {:induction false} RunAfter(s: OverviewState, responses: seq<Response>, replies: Replies, i: int)
    requires AllFit(responses, replies) && -1 <= i < |responses|
    requires forall j :: i < j < |responses| ==> !DecodesToObject(responses[j])
    ensures var last := RunOverview(s, replies[..i + 1]);
            RunOverview(s, replies) == if BlankAfter(responses, i) then Wiped(last) else last
    decreases |responses|
  {
    var n, last := |responses| - 1, RunOverview(s, replies[..i + 1]);
    if i < n {
      var before := responses[..n];
      RunAfter(s, before, replies[..n], i);
      assert replies[..n][..i + 1] == replies[..i + 1];
      NotDecodedNext(last, BlankAfter(before, i), responses[n], replies[n]);
      BlankAfterOneMore(before, responses[n], i);
      assert responses == before + [responses[n]];
    } else {
      assert replies[..i + 1] == replies;
    }
  }

  // After any run, the state is the one after the last response that decoded, wiped if a blank one came later.
  lemma {:induction false} RunOfResponses(s: OverviewState, responses: seq<Response>, replies: Replies)
    requires Answers(responses, replies)
    ensures var i := LastDecoded(responses);
            var last := RunOverview(s, replies[..i + 1]);
            RunOverview(s, replies) == if BlankAfter(responses, i) then Wiped(last) else last
  {
    AnswersFit(responses, replies);
    RunAfter(s, responses, replies, LastDecoded(responses));
  }

  lemma {:induction false} DecodedReply(responses: seq<Response>, replies: Replies)
    requires Answers(responses, replies)
    ensures forall i :: 0 <= i < |responses| && DecodesToObject(responses[i]) ==> replies[i].Some?
  {
    forall i | 0 <= i < |responses| && DecodesToObject(responses[i])
      ensures replies[i].Some?
    {
      NextOfResponse(OverviewState(NO_INFO, map[], map[]), responses[i], replies[i]);
    }
  }

  lemma {:induction false} InfoAfter(s: OverviewState, responses: seq<Response>, replies: Replies)
    requires Answers(responses, replies)
    ensures forall i :: 0 <= i < |responses| && DecodesToObject(responses[i]) ==> replies[i].Some?
    ensures RunOverview(s, replies).info ==
            if BlankAfter(responses, LastDecoded(responses)) then NO_INFO else LastSaid(s, responses, replies)
  {
    DecodedReply(responses, replies);
    RunOfResponses(s, responses, replies);
    var i := LastDecoded(responses);
    if i >= 0 {
      var upTo := replies[..i + 1];
      assert upTo[..i] == replies[..i] && upTo[i] == replies[i];
    } else {
      assert replies[..i + 1] == [];
    }
  }

  // Node, cluster and queue count are those of the most recent response that decoded exactly when no blank one came
  // after it, or there was nothing to lose.
  lemma {:induction false} InfoOfLastDecodedIff(s: OverviewState, responses: seq<Response>, replies: Replies)
    requires Answers(responses, replies)
    ensures forall i :: 0 <= i < |responses| && DecodesToObject(responses[i]) ==> replies[i].Some?
    ensures var said := LastSaid(s, responses, replies);
      RunOverview(s, replies).info == said <==> !BlankAfter(responses, LastDecoded(responses)) || said == NO_INFO
  {
    InfoAfter(s, responses, replies);
  }

  // A run in which nothing decoded leaves the whole state as it was exactly when every response failed outright, or the
  // state was wiped already.
  lemma {:induction false} NothingDecodedIff(s: OverviewState, responses: seq<Response>, replies: Replies)
    requires Answers(responses, replies) && LastDecoded(responses) == -1
    ensures RunOverview(s, replies) == s
       <==> (forall i :: 0 <= i < |responses| ==> Fails(responses[i])) || s == Wiped(s)
  {
    RunOfResponses(s, responses, replies);
    assert replies[..0] == [];
    assert BlankAfter(responses, -1) <==> !forall i :: 0 <= i < |responses| ==> Fails(responses[i]);
  }

  // The queue cut-off uses the count of the most recent response that decoded, and is off after a blank one.
  lemma {:induction false} CutOffIff(s: OverviewState, responses: seq<Response>, replies: Replies, config: Config)
    requires Answers(responses, replies)
    ensures forall i :: 0 <= i < |responses| && DecodesToObject(responses[i]) ==> replies[i].Some?
    ensures Queue.TooManyQueues(config, Exporter.ContextOf(RunOverview(s, replies).info)) <==>
            && !BlankAfter(responses, LastDecoded(responses))
            && 0 < config.maxQueues < LastSaid(s, responses, replies).totalQueues
  {
    InfoAfter(s, responses, replies);
  }

  // The same over runs of scrapes, whatever the other modules do.
  lemma {:induction false} InfoOfScrapesIff(v: View, outs: seq<Outcome>, responses: seq<Response>)
    requires Answers(responses, RepliesOf(outs))
    ensures forall i :: 0 <= i < |responses| && DecodesToObject(responses[i]) ==> RepliesOf(outs)[i].Some?
    ensures var said := LastSaid(v.overview, responses, RepliesOf(outs));
      Run(v, outs).overview.info == said <==> !BlankAfter(responses, LastDecoded(responses)) || said == NO_INFO
  {
    OverviewOfRun(v, outs);
    InfoOfLastDecodedIff(v.overview, responses, RepliesOf(outs));
  }

  // --- From the document to what is shown ---

  function TextAt(doc: Doc, key: string): string
    requires doc.Obj?
  {
    if key in doc.fields && doc.fields[key].Str? then doc.fields[key].text else ""
  }

  // A JSON overview sets node, cluster and versions to the document's own strings, whatever was known before.
  lemma {:induction false} DocumentNames(s: OverviewState, doc: Doc, reply: Option<OverviewReply>)
    requires doc.Obj? && OverviewOf(Json(Some(doc)), reply)
    ensures var next := NextOverview(s, reply);
      && next.info.node == TextAt(doc, "node") && next.info.clusterName == TextAt(doc, "cluster_name")
      && next.info.rabbitmqVersion == TextAt(doc, "rabbitmq_version")
      && next.info.erlangVersion == TextAt(doc, "erlang_version")
      && next.version == map[[TextAt(doc, "rabbitmq_version"), TextAt(doc, "erlang_version"), TextAt(doc, "node"),
                              TextAt(doc, "cluster_name")] := 1.0]
  {
  }

  // The queue count is the number under object_totals, if there is one, dropping its fraction.
  lemma {:induction false} DocumentCount(s: OverviewState, doc: Doc, reply: Option<OverviewReply>, totals: Doc, n: real)
    requires doc.Obj? && OverviewOf(Json(Some(doc)), reply) && Unambiguous("", JsonLeaves(doc))
    requires "object_totals" in doc.fields && doc.fields["object_totals"] == totals
    requires totals.Obj? && "queues" in totals.fields && totals.fields["queues"] == Number(n)
    ensures NextOverview(s, reply).info.totalQueues == Truncated(n)
  {
    var path := ["object_totals", "queues"];
    assert path[1..] == ["queues"] && ["queues"][1..] == [];
    assert Lookup(totals.fields["queues"], []) == Some(Number(n));
    assert Lookup(totals, ["queues"]) == Some(Number(n));
    assert Lookup(doc, path) == Some(Number(n));
    ValueHasEntry(doc, reply.value.metrics, path);
    assert KeyFrom("", path) == KeyFrom("object_totals", ["queues"]) == KeyFrom("object_totals.queues", []);
  }

  // Each overview gauge shows the document's own number under its key, labelled with the document's cluster name alone.
  lemma {:induction false} DocumentGauge(s: OverviewState, doc: Doc, reply: Option<OverviewReply>, path: seq<string>,
      n: real)
    requires doc.Obj? && OverviewOf(Json(Some(doc)), reply) && Unambiguous("", JsonLeaves(doc))
    requires path != [] && Lookup(doc, path) == Some(Number(n)) && KeyFrom("", path) in s.gauges
    ensures KeyFrom("", path) in NextOverview(s, reply).gauges
    ensures NextOverview(s, reply).gauges[KeyFrom("", path)] == map[[TextAt(doc, "cluster_name")] := n]
  {
    ValueHasEntry(doc, reply.value.metrics, path);
  }
}
