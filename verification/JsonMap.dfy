/** The JSON reply parser (jsonmap.go), starting from the decoded document. */
module JsonMap {
  import opened Wrappers
  import opened Decoder
  import opened FlatKeys
  import opened Picks

  datatype Doc =
    | Null
    | Str(text: string)
    | Number(value: real)
    | Bool(truth: bool)
    | Arr(items: seq<Doc>)
    | Obj(fields: map<string, Doc>)

  // --- What the flat map of a document should hold ---

  // The value reached by following member names through nested objects only.
  function Lookup(doc: Doc, path: seq<string>): Option<Doc>
    decreases |path|
  {
    if path == [] then Some(doc)
    else if doc.Obj? && path[0] in doc.fields then Lookup(doc.fields[path[0]], path[1..])
    else None
  }

  function JsonOwn(doc: Doc): Own
  {
    match doc
    case Number(r) => Scalar(r)
    case Bool(b) => Scalar(if b then 1.0 else 0.0)
    case Arr(items) => Length(|items|)
    case _ => Nothing
  }

  // A leaf is a number or bool, or the length of an array, found by its path.
  predicate HasLeaf(doc: Doc, leaf: Leaf)
  {
    && leaf.path != []
    && Lookup(doc, leaf.path).Some?
    && Stores(JsonOwn(Lookup(doc, leaf.path).value), leaf)
  }

  lemma {:induction false} HasLeafStep(doc: Doc, leaf: Leaf)
    ensures HasLeaf(doc, leaf) <==>
            && leaf.path != [] && doc.Obj? && leaf.path[0] in doc.fields
            && if |leaf.path| == 1 then Stores(JsonOwn(doc.fields[leaf.path[0]]), leaf)
               else HasLeaf(doc.fields[leaf.path[0]], Leaf(leaf.path[1..], leaf.len, leaf.value))
  {
    if leaf.path != [] && doc.Obj? && leaf.path[0] in doc.fields {
      var value := doc.fields[leaf.path[0]];
      assert Lookup(doc, leaf.path) == Lookup(value, leaf.path[1..]);
      if |leaf.path| == 1 {
        assert leaf.path[1..] == [];
        assert Lookup(value, leaf.path[1..]) == Some(value);
      }
    }
  }

  ghost function JsonLeaves(doc: Doc): iset<Leaf>
  {
    iset leaf | HasLeaf(doc, leaf)
  }

  // --- How one traversal may go: members in any order, each once ---

  ghost predicate JsonVisit(doc: Doc, visit: Visit)
    decreases doc, 3
  {
    visit.own == JsonOwn(doc) && JsonTrace(doc, visit.inner)
  }

  // A traversal of the members named in done.
  ghost predicate PartialTrace(doc: Doc, done: set<string>, trace: seq<Visit>)
    requires doc.Obj?
    decreases doc, 1
  {
    && (forall i :: 0 <= i < |trace| ==>
          && trace[i].key in done && trace[i].key in doc.fields
          && JsonVisit(doc.fields[trace[i].key], trace[i]))
    && DistinctKeys(trace)
    && (forall key :: key in done ==> VisitsKey(trace, key))
  }

  ghost predicate JsonTrace(doc: Doc, trace: seq<Visit>)
    decreases doc, 2
  {
    if doc.Obj? then PartialTrace(doc, doc.fields.Keys, trace) else trace == []
  }

  lemma {:induction false} PartialTraceExtended(doc: Doc, done: set<string>, trace: seq<Visit>, visit: Visit)
    requires doc.Obj? && PartialTrace(doc, done, trace)
    requires visit.key in doc.fields && visit.key !in done && JsonVisit(doc.fields[visit.key], visit)
    ensures PartialTrace(doc, done + {visit.key}, trace + [visit])
  {
    var longer := trace + [visit];
    forall key | key in done + {visit.key}
      ensures VisitsKey(longer, key)
    {
      if key == visit.key {
        assert longer[|trace|].key == key;
      } else {
        var i :| 0 <= i < |trace| && trace[i].key == key;
        assert longer[i].key == key;
      }
    }
  }

  // --- The flattening itself ---

  // What is done with one member (the type switch).
  method AddField(toMap: MetricMap, basename: string, k: string, v: Doc) returns (ghost visit: Visit)
    modifies toMap
    ensures visit.key == k && JsonVisit(v, visit)
    ensures toMap.entries == Step(old(toMap.entries), basename, visit)
    decreases v, 1
  {
    var prefix := if basename != "" then basename + "." else "";
    assert prefix + k == Join(basename, k);
    ghost var inner: seq<Visit> := [];
    match v {
      case Number(value) =>
        toMap.entries := toMap.entries[prefix + k := value];
      case Arr(items) =>
        toMap.entries := toMap.entries[prefix + k + "_len" := |items| as real];
      case Obj(fields) =>
        inner := AddFields(toMap, prefix + k, fields);
      case Bool(value) =>
        if value {
          toMap.entries := toMap.entries[prefix + k := 1.0];
        } else {
          toMap.entries := toMap.entries[prefix + k := 0.0];
        }
      case _ =>
    }
    visit := Visit(k, JsonOwn(v), inner);
  }

  // The members not in rest have been added along the trace.
  ghost predicate FieldsAdded(source: map<string, Doc>, rest: set<string>, start: Metrics, basename: string,
      trace: seq<Visit>, m: Metrics)
  {
    && PartialTrace(Obj(source), source.Keys - rest, trace)
    && m == Apply(start, basename, trace)
  }

  lemma {:induction false} FieldAdded(source: map<string, Doc>, rest: set<string>, k: string, start: Metrics,
      basename: string, trace: seq<Visit>, m: Metrics, visit: Visit)
    requires rest <= source.Keys && k in rest && FieldsAdded(source, rest, start, basename, trace, m)
    requires visit.key == k && JsonVisit(source[k], visit)
    ensures FieldsAdded(source, rest - {k}, start, basename, trace + [visit], Step(m, basename, visit))
  {
    ApplyOneMore(start, basename, trace, visit);
    PartialTraceExtended(Obj(source), source.Keys - rest, trace, visit);
    assert source.Keys - rest + {k} == source.Keys - (rest - {k});
  }

  method AddFields(toMap: MetricMap, basename: string, source: map<string, Doc>) returns (ghost trace: seq<Visit>)
    modifies toMap
    ensures JsonTrace(Obj(source), trace)
    ensures toMap.entries == Apply(old(toMap.entries), basename, trace)
    decreases Obj(source), 0
  {
    trace := [];
    var rest := source.Keys;
    while rest != {}
      invariant rest <= source.Keys
      invariant FieldsAdded(source, rest, old(toMap.entries), basename, trace, toMap.entries)
    {
      var k :| k in rest;
      assert source[k] < Obj(source);
      ghost var before := toMap.entries;
      ghost var visit := AddField(toMap, basename, k, source[k]);
      FieldAdded(source, rest, k, old(toMap.entries), basename, trace, before, visit);
      trace := trace + [visit];
      rest := rest - {k};
    }
    assert source.Keys - rest == source.Keys;
  }

  // --- Every traversal writes exactly the leaves ---

  lemma {:induction false} TraceWritesLeaves(doc: Doc, trace: seq<Visit>, leaf: Leaf)
    requires JsonTrace(doc, trace)
    ensures leaf in Written(trace) <==> HasLeaf(doc, leaf)
    decreases doc
  {
    if doc.Obj? && leaf.path != [] && leaf.path[0] in doc.fields {
      var key := leaf.path[0];
      assert VisitsKey(trace, key);
      var i :| 0 <= i < |trace| && trace[i].key == key;
      assert JsonVisit(doc.fields[key], trace[i]);
      var tail := Leaf(leaf.path[1..], leaf.len, leaf.value);
      WrittenByKey(trace, leaf, i);
      WrittenAtMembers(trace[i], leaf);
      HasLeafStep(doc, leaf);
      TraceWritesLeaves(doc.fields[key], trace[i].inner, tail);
    } else {
      WrittenNowhere(trace, leaf);
    }
  }

  lemma {:induction false} TraceLists(doc: Doc, trace: seq<Visit>)
    requires JsonTrace(doc, trace)
    ensures Lists(Written(trace), JsonLeaves(doc))
  {
    forall leaf
      ensures leaf in Written(trace) <==> leaf in JsonLeaves(doc)
    {
      TraceWritesLeaves(doc, trace, leaf);
    }
  }

  // --- Traversals exist, and any leaf can be the last one written ---

  lemma {:induction false} SomePartialTrace(doc: Doc, done: set<string>) returns (trace: seq<Visit>)
    requires doc.Obj? && done <= doc.fields.Keys
    ensures PartialTrace(doc, done, trace)
    decreases doc, 0, |done|
  {
    trace := [];
    if done != {} {
      var key :| key in done;
      var front := SomePartialTrace(doc, done - {key});
      var inner := SomeTrace(doc.fields[key]);
      var visit := Visit(key, JsonOwn(doc.fields[key]), inner);
      PartialTraceExtended(doc, done - {key}, front, visit);
      assert done - {key} + {key} == done;
      trace := front + [visit];
    }
  }

  lemma {:induction false} SomeTrace(doc: Doc) returns (trace: seq<Visit>)
    ensures JsonTrace(doc, trace)
    decreases doc, 1
  {
    trace := [];
    if doc.Obj? {
      trace := SomePartialTrace(doc, doc.fields.Keys);
    }
  }

  // A trace of all members but one, then that one.
  lemma {:induction false} TraceWithLast(doc: Doc, visit: Visit) returns (trace: seq<Visit>)
    requires doc.Obj? && visit.key in doc.fields && JsonVisit(doc.fields[visit.key], visit)
    ensures JsonTrace(doc, trace) && trace != [] && trace[|trace| - 1] == visit
  {
    var front := SomePartialTrace(doc, doc.fields.Keys - {visit.key});
    PartialTraceExtended(doc, doc.fields.Keys - {visit.key}, front, visit);
    assert doc.fields.Keys - {visit.key} + {visit.key} == doc.fields.Keys;
    trace := front + [visit];
  }

  lemma {:induction false} TraceEndingWith(doc: Doc, leaf: Leaf) returns (trace: seq<Visit>)
    requires HasLeaf(doc, leaf)
    ensures JsonTrace(doc, trace) && EndsWith(Written(trace), leaf)
    decreases doc
  {
    HasLeafStep(doc, leaf);
    var key := leaf.path[0];
    var inner := [];
    if |leaf.path| > 1 {
      inner := TraceEndingWith(doc.fields[key], Leaf(leaf.path[1..], leaf.len, leaf.value));
    } else {
      assert !doc.fields[key].Obj?;
    }
    var visit := Visit(key, JsonOwn(doc.fields[key]), inner);
    VisitEndsWith(visit, leaf);
    trace := TraceWithLast(doc, visit);
  }

  lemma {:induction false} SameMapForEveryOrder(doc: Doc, m: Metrics, basename: string, s: seq<Visit>, t: seq<Visit>)
    requires JsonTrace(doc, s) && JsonTrace(doc, t) && Unambiguous(basename, JsonLeaves(doc))
    ensures Apply(m, basename, s) == Apply(m, basename, t)
  {
    TraceLists(doc, s);
    TraceLists(doc, t);
    OrderIrrelevant(m, basename, Written(s), Written(t), JsonLeaves(doc));
  }

  lemma {:induction false} OrdersThatDiffer(doc: Doc, m: Metrics, basename: string)
    returns (s: seq<Visit>, t: seq<Visit>)
    requires !Unambiguous(basename, JsonLeaves(doc))
    ensures JsonTrace(doc, s) && JsonTrace(doc, t) && Apply(m, basename, s) != Apply(m, basename, t)
  {
    var x, y :| x in JsonLeaves(doc) && y in JsonLeaves(doc) && FlatKey(basename, x) == FlatKey(basename, y)
        && x.value != y.value;
    s := TraceEndingWith(doc, x);
    t := TraceEndingWith(doc, y);
    LastWins(m, basename, Written(s), x);
    LastWins(m, basename, Written(t), y);
  }

  // The result is the same for every iteration order of every nested map exactly when no flat key
  // is written with two different numbers.
  lemma {:induction false} OrderIndependence(doc: Doc, m: Metrics, basename: string)
    ensures (forall s, t :: JsonTrace(doc, s) && JsonTrace(doc, t) ==> Apply(m, basename, s) == Apply(m, basename, t))
       <==> Unambiguous(basename, JsonLeaves(doc))
  {
    if Unambiguous(basename, JsonLeaves(doc)) {
      forall s, t | JsonTrace(doc, s) && JsonTrace(doc, t)
        ensures Apply(m, basename, s) == Apply(m, basename, t)
      {
        SameMapForEveryOrder(doc, m, basename, s, t);
      }
    } else {
      var s, t := OrdersThatDiffer(doc, m, basename);
    }
  }

  // --- Well-formed documents: member names are plain, and no array "k" sits beside a scalar "k_len" ---

  predicate PlainNames(doc: Doc)
  {
    doc.Obj? ==> forall key :: key in doc.fields ==> PlainKey(key) && PlainNames(doc.fields[key])
  }

  function BesideLength(path: seq<string>): seq<string>
    requires path != []
  {
    path[..|path| - 1] + [path[|path| - 1] + "_len"]
  }

  // There is an array at the path, and a number or bool where the flat key of its length points.
  predicate LengthBeside(doc: Doc, path: seq<string>)
  {
    && path != []
    && var beside := BesideLength(path);
       && Lookup(doc, path).Some? && Lookup(doc, beside).Some?
       && Lookup(doc, path).value.Arr?
       && JsonOwn(Lookup(doc, beside).value).Scalar?
  }

  // They differ, so one flat key is written with two numbers.
  predicate LengthClash(doc: Doc, path: seq<string>)
  {
    && LengthBeside(doc, path)
    && JsonOwn(Lookup(doc, BesideLength(path)).value).value != |Lookup(doc, path).value.items| as real
  }

  lemma {:induction false} LeafPathPlain(doc: Doc, path: seq<string>)
    requires PlainNames(doc) && path != [] && Lookup(doc, path).Some?
    ensures PlainPath(path)
    decreases |path|
  {
    if |path| > 1 {
      LeafPathPlain(doc.fields[path[0]], path[1..]);
    }
  }

  // A length and a number that share a flat key lie beside each other.
  lemma {:induction false} SharedKeyBeside(doc: Doc, x: Leaf, y: Leaf)
    requires PlainNames(doc) && HasLeaf(doc, x) && HasLeaf(doc, y)
    requires FlatKey("", x) == FlatKey("", y) && x.len && !y.len
    ensures LengthBeside(doc, x.path) && y.path == BesideLength(x.path)
  {
    LeafPathPlain(doc, x.path);
    LeafPathPlain(doc, y.path);
    FlatKeyInjective(x, y);
  }

  lemma {:induction false} SharedKeyNoClash(doc: Doc, x: Leaf, y: Leaf)
    requires PlainNames(doc) && HasLeaf(doc, x) && HasLeaf(doc, y)
    requires FlatKey("", x) == FlatKey("", y) && x.len && !y.len && !LengthClash(doc, x.path)
    ensures x.value == y.value
  {
    SharedKeyBeside(doc, x, y);
  }

  lemma {:induction false} SharedKeySameKind(doc: Doc, x: Leaf, y: Leaf)
    requires PlainNames(doc) && HasLeaf(doc, x) && HasLeaf(doc, y)
    requires FlatKey("", x) == FlatKey("", y) && x.len == y.len
    ensures x == y
  {
    LeafPathPlain(doc, x.path);
    LeafPathPlain(doc, y.path);
    FlatKeyInjective(x, y);
  }

  lemma {:induction false} BesideSharesKey(doc: Doc, path: seq<string>) returns (x: Leaf, y: Leaf)
    requires LengthBeside(doc, path)
    ensures HasLeaf(doc, x) && HasLeaf(doc, y) && x.len && !y.len && FlatKey("", x) == FlatKey("", y)
    ensures x.value == |Lookup(doc, path).value.items| as real
    ensures y.value == JsonOwn(Lookup(doc, BesideLength(path)).value).value
  {
    x := Leaf(path, true, |Lookup(doc, path).value.items| as real);
    y := Leaf(BesideLength(path), false, JsonOwn(Lookup(doc, BesideLength(path)).value).value);
    KeyFromSuffixed("", path, "_len");
  }

  // Among documents with plain names, the flattening is unambiguous exactly when there is no such clash.
  lemma {:induction false} UnambiguousIffNoClash(doc: Doc)
    requires PlainNames(doc)
    ensures Unambiguous("", JsonLeaves(doc)) <==> forall path :: !LengthClash(doc, path)
  {
    forall path | LengthClash(doc, path)
      ensures !Unambiguous("", JsonLeaves(doc))
    {
      var x, y := BesideSharesKey(doc, path);
      assert x in JsonLeaves(doc) && y in JsonLeaves(doc);
    }
    if forall path :: !LengthClash(doc, path) {
      forall x, y | HasLeaf(doc, x) && HasLeaf(doc, y) && FlatKey("", x) == FlatKey("", y)
        ensures x.value == y.value
      {
        if x.len == y.len {
          SharedKeySameKind(doc, x, y);
        } else if x.len {
          SharedKeyNoClash(doc, x, y);
        } else {
          SharedKeyNoClash(doc, y, x);
        }
      }
    }
  }

  // And distinct leaves never share a flat key exactly when there is no number at all beside the length of an array.
  lemma {:induction false} LeavesTellApartIff(doc: Doc)
    requires PlainNames(doc)
    ensures OneLeafPerKey(JsonLeaves(doc)) <==> forall path :: !LengthBeside(doc, path)
  {
    forall path | LengthBeside(doc, path)
      ensures !OneLeafPerKey(JsonLeaves(doc))
    {
      var x, y := BesideSharesKey(doc, path);
      assert x in JsonLeaves(doc) && y in JsonLeaves(doc);
    }
    if forall path :: !LengthBeside(doc, path) {
      forall x, y | HasLeaf(doc, x) && HasLeaf(doc, y) && FlatKey("", x) == FlatKey("", y)
        ensures x == y
      {
        if x.len == y.len {
          SharedKeySameKind(doc, x, y);
        } else if x.len {
          SharedKeyBeside(doc, x, y);
        } else {
          SharedKeyBeside(doc, y, x);
        }
      }
    }
  }

  // --- The reply object ---

  // Decoding into a Go map: an object gives its members, null gives a nil map, anything else fails.
  function AsObject(body: Option<Doc>): Option<map<string, Doc>>
  {
    match body
    case Some(Obj(fields)) => Some(fields)
    case Some(Null) => Some(map[])
    case _ => None
  }

  // Decoding into a slice of Go maps: one bad element fails the whole reply.
  function AsObjects(body: Option<Doc>): Option<seq<map<string, Doc>>>
  {
    match body
    case Some(Arr(items)) =>
      if forall i :: 0 <= i < |items| ==> AsObject(Some(items[i])).Some?
      then Some(seq(|items|, i requires 0 <= i < |items| => AsObject(Some(items[i])).value))
      else None
    case Some(Null) => Some([])
    case _ => None
  }

  predicate Named(element: map<string, Doc>)
  {
    "name" in element || "id" in element
  }

  // The text of a label value; only strings and bools have one.
  function DocText(doc: Doc): string
  {
    match doc
    case Str(text) => text
    case Bool(truth) => if truth then "true" else "false"
    case _ => ""
  }

  function LabelText(element: map<string, Doc>, field: string): string
  {
    if field in element then DocText(element[field]) else ""
  }

  ghost predicate JsonStat(element: map<string, Doc>, labels: seq<string>, info: StatsInfo)
  {
    && info.labels == (map field | field in labels :: LabelText(element, field))
    && exists trace :: JsonTrace(Obj(element), trace) && info.metrics == Apply(map[], "", trace)
  }

  // The statistics of a list: the named elements in order, the others left out.
  ghost predicate JsonStats(elements: seq<map<string, Doc>>, labels: seq<string>, stats: seq<StatsInfo>)
    decreases |elements|
  {
    if elements == [] then stats == []
    else
      var front, last := elements[..|elements| - 1], elements[|elements| - 1];
      if Named(last) then
        stats != [] && JsonStat(last, labels, stats[|stats| - 1]) && JsonStats(front, labels, stats[..|stats| - 1])
      else JsonStats(front, labels, stats)
  }

  ghost predicate JsonStatsReply(body: Option<Doc>, labels: seq<string>, stats: seq<StatsInfo>)
  {
    match AsObjects(body)
    case None => stats == []
    case Some(elements) => JsonStats(elements, labels, stats)
  }

  ghost predicate JsonMapReply(body: Option<Doc>, m: Metrics)
  {
    match AsObject(body)
    case None => m == map[]
    case Some(fields) => exists trace :: JsonTrace(Obj(fields), trace) && m == Apply(map[], "", trace)
  }

  function JsonString(body: Option<Doc>, key: string): Found
  {
    match AsObject(body)
    case None => NOT_FOUND
    case Some(fields) => if key in fields && fields[key].Str? then Found(fields[key].text, true) else NOT_FOUND
  }

  lemma {:induction false} JsonStatsOneMore(elements: seq<map<string, Doc>>, element: map<string, Doc>,
      labels: seq<string>, stats: seq<StatsInfo>, info: StatsInfo)
    requires JsonStats(elements, labels, stats) && Named(element) && JsonStat(element, labels, info)
    ensures JsonStats(elements + [element], labels, stats + [info])
  {
    assert (elements + [element])[..|elements|] == elements && (stats + [info])[..|stats|] == stats;
  }

  // --- What the replies hold, in terms of the document alone ---

  // An entry for an object: a text for every label, and the object's flat map.
  ghost predicate EntryOf(fields: map<string, Doc>, labels: seq<string>, info: StatsInfo)
  {
    && (forall field :: field in info.labels <==> field in labels)
    && (forall field :: field in labels ==>
          if field in fields && fields[field].Str? then info.labels[field] == fields[field].text
          else if field in fields && fields[field] == Bool(true) then info.labels[field] == "true"
          else if field in fields && fields[field] == Bool(false) then info.labels[field] == "false"
          else info.labels[field] == "")
    && JsonMapReply(Some(Obj(fields)), info.metrics)
  }

  lemma {:induction false} StatIsEntry(fields: map<string, Doc>, labels: seq<string>, info: StatsInfo)
    requires JsonStat(fields, labels, info)
    ensures EntryOf(fields, labels, info)
  {
  }

  lemma {:induction false} KeptElements(elements: seq<map<string, Doc>>, labels: seq<string>, stats: seq<StatsInfo>)
    returns (ks: seq<nat>)
    requires JsonStats(elements, labels, stats)
    ensures Increasing(ks) && |ks| == |stats| && forall k :: k in ks ==> k < |elements|
    ensures forall i :: 0 <= i < |elements| ==> (i in ks <==> "name" in elements[i] || "id" in elements[i])
    ensures forall k :: 0 <= k < |stats| ==> ks[k] in ks && EntryOf(elements[ks[k]], labels, stats[k])
    decreases |elements|
  {
    ks := [];
    if elements != [] {
      var n := |elements| - 1;
      if "name" in elements[n] || "id" in elements[n] {
        var before := KeptElements(elements[..n], labels, stats[..|stats| - 1]);
        OneMorePick(before, n);
        StatIsEntry(elements[n], labels, stats[|stats| - 1]);
        ks := before + [n];
      } else {
        ks := KeptElements(elements[..n], labels, stats);
      }
    }
  }

  // The statistics of a list of objects and nulls: one entry for each object with a "name" or an "id" and for no other,
  // in their order.
  lemma {:induction false} StatsOfList(docs: seq<Doc>, labels: seq<string>, stats: seq<StatsInfo>)
    returns (ks: seq<nat>)
    requires forall i :: 0 <= i < |docs| ==> docs[i].Obj? || docs[i].Null?
    requires JsonStatsReply(Some(Arr(docs)), labels, stats)
    ensures Increasing(ks) && |ks| == |stats| && forall k :: k in ks ==> k < |docs|
    ensures forall i :: 0 <= i < |docs| ==>
              (i in ks <==> docs[i].Obj? && ("name" in docs[i].fields || "id" in docs[i].fields))
    ensures forall k :: 0 <= k < |stats| ==>
              ks[k] in ks && docs[ks[k]].Obj? && EntryOf(docs[ks[k]].fields, labels, stats[k])
  {
    assert forall i :: 0 <= i < |docs| ==> AsObject(Some(docs[i])).Some?;
    var elements := AsObjects(Some(Arr(docs))).value;
    ks := KeptElements(elements, labels, stats);
  }

  // Anything else has none.
  lemma {:induction false} StatsOfNoList(body: Option<Doc>, labels: seq<string>, stats: seq<StatsInfo>)
    requires JsonStatsReply(body, labels, stats)
    requires body.Some? && body.value.Arr? ==>
               exists i :: 0 <= i < |body.value.items| && !body.value.items[i].Obj? && !body.value.items[i].Null?
    ensures stats == []
  {
    if body.Some? && body.value.Arr? {
      var items := body.value.items;
      var i :| 0 <= i < |items| && !items[i].Obj? && !items[i].Null?;
      assert AsObject(Some(items[i])).None?;
    }
  }

  lemma {:induction false} LeafDecides(doc: Doc, trace: seq<Visit>, leaf: Leaf)
    requires JsonTrace(doc, trace) && HasLeaf(doc, leaf) && Unambiguous("", JsonLeaves(doc))
    ensures var m := Apply(map[], "", trace);
            FlatKey("", leaf) in m && m[FlatKey("", leaf)] == leaf.value
  {
    var leaves, key := Written(trace), FlatKey("", leaf);
    TraceWritesLeaves(doc, trace, leaf);
    WriteAllAt(map[], "", leaves, key);
    var i := LastWrite("", leaves, key);
    assert leaf in leaves;
    assert i >= 0;
    TraceWritesLeaves(doc, trace, leaves[i]);
    assert leaf in JsonLeaves(doc) && leaves[i] in JsonLeaves(doc);
  }

  // Each number, bool and array reached through objects is found in the flat map, under its dotted path.
  lemma {:induction false} ValueHasEntry(doc: Doc, m: Metrics, path: seq<string>)
    requires doc.Obj? && JsonMapReply(Some(doc), m) && Unambiguous("", JsonLeaves(doc))
    requires path != [] && Lookup(doc, path).Some?
    ensures var key := KeyFrom("", path);
      match Lookup(doc, path).value
      case Number(r) => key in m && m[key] == r
      case Bool(truth) => key in m && m[key] == (if truth then 1.0 else 0.0)
      case Arr(items) => key + "_len" in m && m[key + "_len"] == |items| as real
      case _ => true
  {
    var trace :| JsonTrace(doc, trace) && m == Apply(map[], "", trace);
    var value := Lookup(doc, path).value;
    if !JsonOwn(value).Nothing? {
      var leaf := match value
        case Arr(items) => Leaf(path, true, |items| as real)
        case Number(r) => Leaf(path, false, r)
        case Bool(truth) => Leaf(path, false, if truth then 1.0 else 0.0)
        case _ => Leaf(path, false, 0.0);
      assert HasLeaf(doc, leaf);
      LeafDecides(doc, trace, leaf);
      assert KeyFrom("", path) + "" == KeyFrom("", path);
    }
  }

  // And the flat map holds nothing else.
  lemma {:induction false} EntryHasValue(doc: Doc, m: Metrics, key: string) returns (path: seq<string>)
    requires doc.Obj? && JsonMapReply(Some(doc), m) && key in m
    ensures path != [] && Lookup(doc, path).Some?
    ensures match Lookup(doc, path).value
      case Number(r) => key == KeyFrom("", path) && m[key] == r
      case Bool(truth) => key == KeyFrom("", path) && m[key] == if truth then 1.0 else 0.0
      case Arr(items) => key == KeyFrom("", path) + "_len" && m[key] == |items| as real
      case _ => false
  {
    var trace :| JsonTrace(doc, trace) && m == Apply(map[], "", trace);
    var leaves := Written(trace);
    WriteAllAt(map[], "", leaves, key);
    var leaf := leaves[LastWrite("", leaves, key)];
    assert leaf in leaves;
    TraceWritesLeaves(doc, trace, leaf);
    path := leaf.path;
    assert KeyFrom("", path) + "" == KeyFrom("", path);
  }

  class JsonReply {
    const body: Option<Doc>          // None: the bytes are not JSON

    var keys: Option<map<string, Doc>>

    ghost predicate Valid()
      reads this
    {
      keys.Some? ==> AsObject(body) == keys
    }

    constructor (body: Option<Doc>)
      ensures Valid() && this.body == body && keys == None
    {
      this.body := body;
      keys := None;
    }

    method MakeMap() returns (m: Metrics)
      ensures JsonMapReply(body, m)
    {
      var flMap := new MetricMap();
      var output := AsObject(body);
      if output == None {
        return flMap.entries;
      }
      ghost var trace := AddFields(flMap, "", output.value);
      return flMap.entries;
    }

    static method ReadLabels(el: map<string, Doc>, labels: seq<string>) returns (texts: map<string, string>)
      ensures texts == map field | field in labels :: LabelText(el, field)
    {
      texts := map[];
      for n := 0 to |labels|
        invariant texts == map field | field in labels[..n] :: LabelText(el, field)
      {
        var field := labels[n];
        texts := texts[field := ""];
        if field in el {
          if el[field].Str? {
            texts := texts[field := el[field].text];
          } else if el[field].Bool? {
            texts := texts[field := if el[field].truth then "true" else "false"];
          }
        }
        assert labels[..n + 1] == labels[..n] + [field];
      }
      assert labels[..|labels|] == labels;
    }

    method MakeStatsInfo(labels: seq<string>) returns (stats: seq<StatsInfo>)
      ensures JsonStatsReply(body, labels, stats)
    {
      stats := [];
      var decoded := AsObjects(body);
      if decoded == None {
        return;
      }
      var elements := decoded.value;
      for n := 0 to |elements|
        invariant JsonStats(elements[..n], labels, stats)
      {
        var el := elements[n];
        assert elements[..n + 1][..n] == elements[..n];
        var field := "";
        if "name" in el {
          field := "name";
        }
        if "id" in el {
          field := "id";
        }
        if field != "" {
          var texts := ReadLabels(el, labels);
          var metrics := new MetricMap();
          ghost var trace := AddFields(metrics, "", el);
          JsonStatsOneMore(elements[..n], el, labels, stats, StatsInfo(texts, metrics.entries));
          stats := stats + [StatsInfo(texts, metrics.entries)];
        }
        assert elements[..n + 1] == elements[..n] + [el];
      }
      assert elements[..|elements|] == elements;
    }

    // The decoded members are kept for the next call; what is answered never depends on earlier calls.
    method GetString(key: string) returns (found: Found)
      requires Valid()
      modifies this
      ensures Valid()
      ensures found == JsonString(body, key)
    {
      if keys == None {
        var decoded := AsObject(body);
        if decoded == None {
          return NOT_FOUND;
        }
        keys := if body == Some(Null) then None else decoded; // null decodes to a nil map, which is decoded again
      }
      if keys == None || key !in keys.value {
        return NOT_FOUND;
      }
      match keys.value[key] {
        case Str(text) => return Found(text, true);
        case _ => return NOT_FOUND;
      }
    }
  }
}
