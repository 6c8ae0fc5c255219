/** From an API response to what a module works on (rabbitClient.go, decoder.go, exporter_overview.go). */
module Client {
  import opened Wrappers
  import opened Decoder
  import opened FlatKeys
  import opened JsonMap
  import opened Overview
  import B = BertMap
  import opened Rendering
  import opened Agreement
  import opened ListAgreement

  // The content type chooses the parser. Bytes that are not JSON still make a reply; bytes that are not BERT do not.
  datatype Response = Failed | Json(body: Option<Doc>) | Bert(decoded: Option<B.Term>)

  ghost predicate StatsOf(response: Response, labels: seq<string>, stats: Option<seq<StatsInfo>>)
  {
    match response
    case Failed => stats == None
    case Json(body) => stats.Some? && JsonStatsReply(body, labels, stats.value)
    case Bert(None) => stats == None
    case Bert(Some(term)) => stats.Some? && B.BertStatsReply(term, labels, stats.value)
  }

  method GetStatsInfo(response: Response, labels: seq<string>) returns (stats: Option<seq<StatsInfo>>)
    ensures StatsOf(response, labels, stats)
  {
    match response {
      case Failed => return None;
      case Json(body) =>
        var reply := new JsonReply(body);
        var q := reply.MakeStatsInfo(labels);
        return Some(q);
      case Bert(None) => return None;
      case Bert(Some(term)) =>
        var reply := new B.BertReply(term);
        var q := reply.MakeStatsInfo(labels);
        return Some(q);
    }
  }

  ghost predicate MapOf(response: Response, m: Option<Metrics>)
  {
    match response
    case Failed => m == None
    case Json(body) => m.Some? && JsonMapReply(body, m.value)
    case Bert(None) => m == None
    case Bert(Some(term)) => m.Some? && B.BertMapReply(term, m.value)
  }

  method GetMetricMap(response: Response) returns (m: Option<Metrics>)
    ensures MapOf(response, m)
  {
    match response {
      case Failed => return None;
      case Json(body) =>
        var reply := new JsonReply(body);
        var metrics := reply.MakeMap();
        return Some(metrics);
      case Bert(None) => return None;
      case Bert(Some(term)) =>
        var reply := new B.BertReply(term);
        var metrics := reply.MakeMap();
        return Some(metrics);
    }
  }

  ghost predicate TextOf(response: Response, key: string, text: string)
  {
    match response
    case Json(body) => text == JsonString(body, key).text
    case Bert(Some(term)) => exists found :: B.BertString(term, key, found) && text == found.text
    case _ => false
  }

  ghost predicate OverviewOf(response: Response, reply: Option<OverviewReply>)
  {
    match reply
    case None => MapOf(response, None)
    case Some(r) =>
      && MapOf(response, Some(r.metrics))
      && TextOf(response, "node", r.node) && TextOf(response, "rabbitmq_version", r.rabbitmqVersion)
      && TextOf(response, "erlang_version", r.erlangVersion) && TextOf(response, "cluster_name", r.clusterName)
  }

  // The JSON reply decodes for the first string and remembers for the others.
  method ReadJsonOverview(body: Option<Doc>) returns (reply: OverviewReply)
    ensures OverviewOf(Json(body), Some(reply))
  {
    var json := new JsonReply(body);
    var metrics := json.MakeMap();
    var node := json.GetString("node");
    var erlang := json.GetString("erlang_version");
    var version := json.GetString("rabbitmq_version");
    var cluster := json.GetString("cluster_name");
    reply := OverviewReply(metrics, node.text, version.text, erlang.text, cluster.text);
  }

  method ReadBertOverview(term: B.Term) returns (reply: OverviewReply)
    ensures OverviewOf(Bert(Some(term)), Some(reply))
  {
    var bert := new B.BertReply(term);
    var metrics := bert.MakeMap();
    var node := bert.GetString("node");
    var erlang := bert.GetString("erlang_version");
    var version := bert.GetString("rabbitmq_version");
    var cluster := bert.GetString("cluster_name");
    reply := OverviewReply(metrics, node.text, version.text, erlang.text, cluster.text);
  }

  method FetchOverview(response: Response) returns (reply: Option<OverviewReply>)
    ensures OverviewOf(response, reply)
  {
    match response {
      case Failed => return None;
      case Json(body) =>
        var r := ReadJsonOverview(body);
        return Some(r);
      case Bert(None) => return None;
      case Bert(Some(term)) =>
        var r := ReadBertOverview(term);
        return Some(r);
    }
  }

  // --- Malformed replies ---

  // The request failed, or the bytes are not BERT.
  predicate Fails(response: Response)
  {
    response == Failed || response == Bert(None)
  }

  predicate DecodesToList(response: Response)
  {
    match response
    case Json(body) => AsObjects(body).Some?
    case Bert(Some(term)) => term.Terms?
    case _ => false
  }

  predicate DecodesToObject(response: Response)
  {
    match response
    case Json(body) => AsObject(body).Some?
    case Bert(Some(term)) => B.IsKV(term)
    case _ => false
  }

  const BLANK_OVERVIEW := OverviewReply(map[], "", "", "", "")

  // Failure to parse is promised to give an empty result. For lists, maps and the overview alike that is so exactly
  // when the response got as far as a parser: bytes that are not JSON, or are not what is asked for, count as an empty
  // success, bytes that are not BERT as an error.
  lemma {:induction false} MalformedReplies(response: Response, labels: seq<string>, stats: Option<seq<StatsInfo>>,
      m: Option<Metrics>, reply: Option<OverviewReply>)
    requires StatsOf(response, labels, stats) && MapOf(response, m) && OverviewOf(response, reply)
    ensures !DecodesToList(response) ==> if Fails(response) then stats == None else stats == Some([])
    ensures !DecodesToObject(response) ==> if Fails(response) then m == None else m == Some(map[])
    ensures !DecodesToObject(response) ==> if Fails(response) then reply == None else reply == Some(BLANK_OVERVIEW)
  {
    if !DecodesToObject(response) && response.Bert? && response.decoded.Some? {
      var trace :| B.BertTrace(response.decoded.value, trace) && m.value == Apply(map[], "", trace);
      assert trace == [];
    }
  }

  // --- The transfer format does not matter ---

  // Every module that works on a list of named objects gets the same list, whichever format the API answered in.
  lemma {:induction false} SameStats(docs: seq<Doc>, terms: seq<B.Term>, labels: seq<string>,
      j: Option<seq<StatsInfo>>, b: Option<seq<StatsInfo>>)
    requires RendersAll(docs, terms) && AllObjects(docs) && ElementsAgree(docs, terms, labels)
    requires StatsOf(Json(Some(Arr(docs))), labels, j) && StatsOf(Bert(Some(B.Terms(terms))), labels, b)
    ensures j == b && j.Some? && (AllNamed(docs) ==> |j.value| == |docs|)
  {
    StatsAgree(docs, terms, labels, j.value, b.value);
  }

  function JsonText(doc: Doc, key: string): string
  {
    JsonString(Some(doc), key).text
  }

  // The strings asked of an overview ignore whether they were found; a member that is not seen reads as empty.
  ghost predicate TextAgrees(doc: Doc, term: B.Term, key: string)
  {
    && (forall value :: B.HasKV(term, key, value) ==> TextOrEmpty(value) == JsonText(doc, key))
    && (Carries(term, key) || JsonText(doc, key) == "")
  }

  lemma {:induction false} TextsAgreeIff(doc: Doc, term: B.Term, key: string)
    requires doc.Obj? && Renders(doc, term)
    ensures (forall b :: TextOf(Bert(Some(term)), key, b) ==> JsonText(doc, key) == b) <==> TextAgrees(doc, term, key)
  {
    ObjectVisits(doc, term);
    var found := SomeBertString(term, key);
    RenderedString(doc, term, key, found);
    assert TextOf(Bert(Some(term)), key, found.text);
    forall b | TextOf(Bert(Some(term)), key, b)
      ensures b == found.text
    {
      var f :| B.BertString(term, key, f) && b == f.text;
      RenderedString(doc, term, key, f);
    }
  }

  lemma {:induction false} SomeBertOverview(term: B.Term) returns (reply: OverviewReply)
    ensures OverviewOf(Bert(Some(term)), Some(reply))
  {
    var trace := B.SomeTrace(term);
    var node := SomeBertString(term, "node");
    var version := SomeBertString(term, "rabbitmq_version");
    var erlang := SomeBertString(term, "erlang_version");
    var cluster := SomeBertString(term, "cluster_name");
    reply := OverviewReply(Apply(map[], "", trace), node.text, version.text, erlang.text, cluster.text);
  }

  lemma {:induction false} SomeJsonOverview(doc: Doc) returns (reply: OverviewReply)
    requires doc.Obj?
    ensures OverviewOf(Json(Some(doc)), Some(reply))
  {
    var trace := JsonMap.SomeTrace(doc);
    assert doc == Obj(doc.fields);
    reply := OverviewReply(Apply(map[], "", trace), JsonText(doc, "node"), JsonText(doc, "rabbitmq_version"),
                           JsonText(doc, "erlang_version"), JsonText(doc, "cluster_name"));
  }

  ghost predicate OverviewsAgree(doc: Doc, term: B.Term)
  {
    forall j, b :: OverviewOf(Json(Some(doc)), j) && OverviewOf(Bert(Some(term)), b) ==> j == b
  }

  ghost predicate SameOverviewParts(doc: Doc, term: B.Term)
  {
    && SameNumbers(doc, term)
    && TextAgrees(doc, term, "node") && TextAgrees(doc, term, "rabbitmq_version")
    && TextAgrees(doc, term, "erlang_version") && TextAgrees(doc, term, "cluster_name")
  }

  lemma {:induction false} SameOverview(doc: Doc, term: B.Term, j: Option<OverviewReply>, b: Option<OverviewReply>)
    requires doc.Obj? && Renders(doc, term) && SameOverviewParts(doc, term)
    requires OverviewOf(Json(Some(doc)), j) && OverviewOf(Bert(Some(term)), b)
    ensures j == b && j.Some?
  {
    MapsAgreeIff(doc, term);
    TextsAgreeIff(doc, term, "node");
    TextsAgreeIff(doc, term, "rabbitmq_version");
    TextsAgreeIff(doc, term, "erlang_version");
    TextsAgreeIff(doc, term, "cluster_name");
  }

  lemma {:induction false} AgreeingReplies(doc: Doc, term: B.Term, j: OverviewReply, b: OverviewReply)
    requires OverviewsAgree(doc, term) && OverviewOf(Json(Some(doc)), Some(j)) && OverviewOf(Bert(Some(term)), Some(b))
    ensures j == b
  {
    assert Some(j) == Some(b);
  }

  lemma {:induction false} TextOfOverview(doc: Doc, term: B.Term, j: OverviewReply, b: OverviewReply, text: string)
    requires OverviewsAgree(doc, term) && OverviewOf(Json(Some(doc)), Some(j)) && OverviewOf(Bert(Some(term)), Some(b))
    ensures TextOf(Bert(Some(term)), "node", text) ==> j.node == text
    ensures TextOf(Bert(Some(term)), "rabbitmq_version", text) ==> j.rabbitmqVersion == text
    ensures TextOf(Bert(Some(term)), "erlang_version", text) ==> j.erlangVersion == text
    ensures TextOf(Bert(Some(term)), "cluster_name", text) ==> j.clusterName == text
  {
    if TextOf(Bert(Some(term)), "node", text) {
      AgreeingReplies(doc, term, j, b.(node := text));
    }
    if TextOf(Bert(Some(term)), "rabbitmq_version", text) {
      AgreeingReplies(doc, term, j, b.(rabbitmqVersion := text));
    }
    if TextOf(Bert(Some(term)), "erlang_version", text) {
      AgreeingReplies(doc, term, j, b.(erlangVersion := text));
    }
    if TextOf(Bert(Some(term)), "cluster_name", text) {
      AgreeingReplies(doc, term, j, b.(clusterName := text));
    }
  }

  lemma {:induction false} AgreeingOverviews(doc: Doc, term: B.Term)
    requires doc.Obj? && Renders(doc, term) && OverviewsAgree(doc, term)
    ensures SameOverviewParts(doc, term)
  {
    var j := SomeJsonOverview(doc);
    var b := SomeBertOverview(term);
    forall p, q | JsonMapReply(Some(doc), p) && B.BertMapReply(term, q)
      ensures p == q
    {
      assert OverviewOf(Json(Some(doc)), Some(j.(metrics := p)));
      assert OverviewOf(Bert(Some(term)), Some(b.(metrics := q)));
    }
    MapsAgreeIff(doc, term);
    forall text
      ensures TextOf(Bert(Some(term)), "node", text) ==> j.node == text
      ensures TextOf(Bert(Some(term)), "rabbitmq_version", text) ==> j.rabbitmqVersion == text
      ensures TextOf(Bert(Some(term)), "erlang_version", text) ==> j.erlangVersion == text
      ensures TextOf(Bert(Some(term)), "cluster_name", text) ==> j.clusterName == text
    {
      TextOfOverview(doc, term, j, b, text);
    }
    TextsAgreeIff(doc, term, "node");
    TextsAgreeIff(doc, term, "rabbitmq_version");
    TextsAgreeIff(doc, term, "erlang_version");
    TextsAgreeIff(doc, term, "cluster_name");
  }

  // Node info and overview gauges do not depend on the format, whatever the iteration orders, exactly when the numbers
  // agree and each of the four strings does.
  lemma {:induction false} OverviewsAgreeIff(doc: Doc, term: B.Term)
    requires doc.Obj? && Renders(doc, term)
    ensures OverviewsAgree(doc, term) <==> SameOverviewParts(doc, term)
  {
    if OverviewsAgree(doc, term) {
      AgreeingOverviews(doc, term);
    } else if SameOverviewParts(doc, term) {
      var j, b :| OverviewOf(Json(Some(doc)), j) && OverviewOf(Bert(Some(term)), b) && j != b;
      SameOverview(doc, term, j, b);
      assert false;
    }
  }
}
