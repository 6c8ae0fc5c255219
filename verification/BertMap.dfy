/** The BERT reply parser (bertmap.go), starting from the decoded Erlang term. */
module BertMap {
  import opened Wrappers
  import opened Decoder
  import opened FlatKeys

  // Lists and tuples share one Go type, so one constructor stands for both.
  datatype Term =
    | Atom(name: string)
    | Text(text: string)                 // binaries, and anything else that prints itself
    | Num(value: real)                   // every integer width, big integers and floats
    | Terms(items: seq<Term>)
    | Dict(entries: map<Term, Term>)
    | Opaque                             // anything the parser has no case for

  type KeyValue = (string, Term)

  // --- Classifying a term ---

  function KeyedTuple(term: Term): (kv: Option<KeyValue>)
    ensures kv.Some? <==> exists key, value :: term == Terms([Atom(key), value])
    ensures kv.Some? ==> term == Terms([Atom(kv.value.0), kv.value.1]) && kv.value.1 < term
  {
    if term.Terms? && |term.items| == 2 && term.items[0].Atom? then
      assert term.items == [Atom(term.items[0].name), term.items[1]];
      Some((term.items[0].name, term.items[1]))
    else None
  }

  // The list of pairs behind any number of {struct, ...} layers; only its first element is checked.
  function ProplistPairs(term: Term): (pairs: Option<seq<Term>>)
    ensures pairs.Some? ==> term.Terms? && forall p :: p in pairs.value ==> p < term
  {
    if !term.Terms? then None
    else if term.items == [] then Some([])
    else
      var tagged := KeyedTuple(term);
      if tagged.Some? && tagged.value.0 == "struct" then ProplistPairs(tagged.value.1)
      else if KeyedTuple(term.items[0]).Some? then Some(term.items)
      else None
  }

  function ParseArray(term: Term): Option<nat>
  {
    if term.Terms? && (ProplistPairs(term).None? || term.items == []) then Some(|term.items|) else None
  }

  function ParseFloaty(term: Term): Option<real>
  {
    match term
    case Num(r) => Some(r)
    case Atom(name) => if name == "true" then Some(1.0) else if name == "false" then Some(0.0) else None
    case _ => None
  }

  function ParseStringy(term: Term): Option<string>
  {
    match term
    case Text(text) => Some(text)
    case Atom(name) => Some(name)
    case _ => None
  }

  function BertOwn(term: Term): Own
  {
    match ParseFloaty(term)
    case Some(r) => Scalar(r)
    case None => match ParseArray(term) case Some(n) => Length(n) case None => Nothing
  }

  predicate IsKV(term: Term)
  {
    term.Dict? || ProplistPairs(term).Some?
  }

  // --- The key-value pairs of a term, and the orders they can be visited in ---

  function KeyedPairs(pairs: seq<Term>): (kvs: seq<KeyValue>)
    ensures forall i :: 0 <= i < |kvs| ==> Terms([Atom(kvs[i].0), kvs[i].1]) in pairs
    ensures forall i :: 0 <= i < |kvs| ==> kvs[i].1 < Terms([Atom(kvs[i].0), kvs[i].1])
  {
    if pairs == [] then []
    else
      var front, last := pairs[..|pairs| - 1], pairs[|pairs| - 1];
      match KeyedTuple(last)
      case Some(kv) => KeyedPairs(front) + [kv]
      case None => KeyedPairs(front)
  }

  function ReadableEntries(order: seq<Term>, entries: map<Term, Term>): (kvs: seq<KeyValue>)
    requires forall key :: key in order ==> key in entries
    ensures forall i :: 0 <= i < |kvs| ==>
              exists key :: key in order && ParseStringy(key) == Some(kvs[i].0) && entries[key] == kvs[i].1
  {
    if order == [] then []
    else
      var front, last := order[..|order| - 1], order[|order| - 1];
      match ParseStringy(last)
      case Some(key) => ReadableEntries(front, entries) + [(key, entries[last])]
      case None => ReadableEntries(front, entries)
  }

  predicate Enumerates(order: seq<Term>, keys: set<Term>)
  {
    && (forall i, j :: 0 <= i < j < |order| ==> order[i] != order[j])
    && (forall key :: key in order ==> key in keys)
    && (forall key :: key in keys ==> key in order)
  }

  // A list is visited in its order, a map in any order.
  ghost predicate IsTraversal(term: Term, kvs: seq<KeyValue>)
    ensures IsTraversal(term, kvs) ==> forall i :: 0 <= i < |kvs| ==> kvs[i].1 < term
  {
    match term
    case Terms(_) => ProplistPairs(term).Some? && kvs == KeyedPairs(ProplistPairs(term).value)
    case Dict(entries) => exists order :: Enumerates(order, entries.Keys) && kvs == ReadableEntries(order, entries)
    case _ => false
  }

  // The pair (key, value) is there to be visited.
  ghost predicate HasKV(term: Term, key: string, value: Term)
  {
    match term
    case Terms(_) => ProplistPairs(term).Some? && Terms([Atom(key), value]) in ProplistPairs(term).value
    case Dict(entries) => exists k :: k in entries && ParseStringy(k) == Some(key) && entries[k] == value
    case _ => false
  }

  lemma {:induction false} KeyedPairsMembers(pairs: seq<Term>, key: string, value: Term)
    ensures (key, value) in KeyedPairs(pairs) <==> Terms([Atom(key), value]) in pairs
  {
    if pairs != [] {
      var front, last := pairs[..|pairs| - 1], pairs[|pairs| - 1];
      assert pairs == front + [last];
      KeyedPairsMembers(front, key, value);
      if last == Terms([Atom(key), value]) {
        assert KeyedTuple(last).Some?;
        assert last.items == [Atom(key), value];
      }
    }
  }

  lemma {:induction false} ReadableEntriesMembers(order: seq<Term>, entries: map<Term, Term>, k: Term)
    requires forall key :: key in order ==> key in entries
    requires k in order && ParseStringy(k).Some?
    ensures (ParseStringy(k).value, entries[k]) in ReadableEntries(order, entries)
  {
    var front, last := order[..|order| - 1], order[|order| - 1];
    assert order == front + [last];
    if k != last {
      ReadableEntriesMembers(front, entries, k);
    }
  }

  // Every traversal visits exactly the pairs that are there.
  lemma {:induction false} TraversalMembers(term: Term, kvs: seq<KeyValue>, key: string, value: Term)
    requires IsTraversal(term, kvs)
    ensures (key, value) in kvs <==> HasKV(term, key, value)
  {
    match term
    case Terms(_) => KeyedPairsMembers(ProplistPairs(term).value, key, value);
    case Dict(entries) =>
      var order :| Enumerates(order, entries.Keys) && kvs == ReadableEntries(order, entries);
      if HasKV(term, key, value) {
        var k :| k in entries && ParseStringy(k) == Some(key) && entries[k] == value;
        ReadableEntriesMembers(order, entries, k);
      }
  }

  ghost predicate TraceAlong(term: Term, kvs: seq<KeyValue>, trace: seq<Visit>)
    decreases term, 0
  {
    && |trace| == |kvs|
    && forall i :: 0 <= i < |kvs| ==> kvs[i].1 < term && trace[i].key == kvs[i].0 && BertVisit(kvs[i].1, trace[i])
  }

  ghost predicate BertTrace(term: Term, trace: seq<Visit>)
    decreases term, 1
  {
    if IsKV(term) then exists kvs :: IsTraversal(term, kvs) && TraceAlong(term, kvs, trace) else trace == []
  }

  ghost predicate BertVisit(term: Term, visit: Visit)
    decreases term, 2
  {
    visit.own == BertOwn(term) && BertTrace(term, visit.inner)
  }

  lemma {:induction false} TraceAlongExtended(term: Term, kvs: seq<KeyValue>, n: nat, trace: seq<Visit>, visit: Visit)
    requires n < |kvs| && TraceAlong(term, kvs[..n], trace)
    requires kvs[n].1 < term && visit.key == kvs[n].0 && BertVisit(kvs[n].1, visit)
    ensures TraceAlong(term, kvs[..n + 1], trace + [visit])
  {
    assert kvs[..n + 1] == kvs[..n] + [kvs[n]];
  }

  // --- The parser's methods ---

  method IterateBertKV(obj: Term) returns (ok: bool, kvs: seq<KeyValue>)
    ensures ok == IsKV(obj)
    ensures if ok then IsTraversal(obj, kvs) else kvs == []
  {
    kvs := [];
    match obj {
      case Terms(_) =>
        var pairs := ProplistPairs(obj);
        if pairs == None {
          return false, [];
        }
        for n := 0 to |pairs.value|
          invariant kvs == KeyedPairs(pairs.value[..n])
        {
          assert pairs.value[..n + 1][..n] == pairs.value[..n];
          var kv := KeyedTuple(pairs.value[n]);
          if kv.Some? {
            kvs := kvs + [kv.value];
          }
        }
        assert pairs.value[..|pairs.value|] == pairs.value;
        return true, kvs;
      case Dict(entries) =>
        var rest := entries.Keys;
        ghost var order := [];
        while rest != {}
          invariant rest <= entries.Keys
          invariant Enumerates(order, entries.Keys - rest)
          invariant kvs == ReadableEntries(order, entries)
        {
          var k :| k in rest;
          rest := rest - {k};
          assert (order + [k])[..|order|] == order;
          var key := ParseStringy(k);
          if key.Some? {
            kvs := kvs + [(key.value, entries[k])];
          }
          order := order + [k];
        }
        return true, kvs;
      case _ =>
        return false, [];
    }
  }

  // What parseProplist does with one pair (its callback).
  method StorePair(toMap: MetricMap, basename: string, kv: KeyValue) returns (ghost visit: Visit)
    modifies toMap
    ensures visit.key == kv.0 && BertVisit(kv.1, visit)
    ensures toMap.entries == Step(old(toMap.entries), basename, visit)
    decreases kv.1, 1
  {
    var prefix := if basename != "" then basename + "." else "";
    var (key, value) := kv;
    assert prefix + key == Join(basename, key);
    var number := ParseFloaty(value);
    if number.Some? {
      toMap.entries := toMap.entries[prefix + key := number.value];
      visit := Visit(key, Scalar(number.value), []);
      assert BertTrace(value, []);
      return;
    }
    var size := ParseArray(value);
    if size.Some? {
      toMap.entries := toMap.entries[prefix + key + "_len" := size.value as real];
    }
    var ok; // a failure is only logged
    ghost var inner;
    ok, inner := ParseProplist(toMap, prefix + key, value);
    visit := Visit(key, BertOwn(value), inner);
  }

  method ParseProplist(toMap: MetricMap, basename: string, maybeProplist: Term)
    returns (ok: bool, ghost trace: seq<Visit>)
    modifies toMap
    ensures ok == IsKV(maybeProplist)
    ensures BertTrace(maybeProplist, trace)
    ensures toMap.entries == Apply(old(toMap.entries), basename, trace)
    ensures !ok ==> toMap.entries == old(toMap.entries)
    decreases maybeProplist, 0
  {
    trace := [];
    var kvs;
    ok, kvs := IterateBertKV(maybeProplist);
    for n := 0 to |kvs|
      invariant TraceAlong(maybeProplist, kvs[..n], trace)
      invariant toMap.entries == Apply(old(toMap.entries), basename, trace)
    {
      ghost var visit := StorePair(toMap, basename, kvs[n]);
      ApplyOneMore(old(toMap.entries), basename, trace, visit);
      TraceAlongExtended(maybeProplist, kvs, n, trace, visit);
      trace := trace + [visit];
    }
    assert kvs[..|kvs|] == kvs;
  }

  // --- Every traversal writes exactly the leaves ---

  // A leaf of a term: its first key is visited, and the rest of it lies in that key's value.
  ghost predicate HasLeaf(term: Term, leaf: Leaf)
    decreases |leaf.path|
  {
    && leaf.path != []
    && exists value :: HasKV(term, leaf.path[0], value) && LeafAt(value, leaf)
  }

  ghost predicate LeafAt(value: Term, leaf: Leaf)
    requires leaf.path != []
    decreases |leaf.path|, 0
  {
    || (|leaf.path| == 1 && Stores(BertOwn(value), leaf))
    || HasLeaf(value, Leaf(leaf.path[1..], leaf.len, leaf.value))
  }

  ghost function BertLeaves(term: Term): iset<Leaf>
  {
    iset leaf | HasLeaf(term, leaf)
  }

  lemma {:induction false} LeafOfTraversal(term: Term, kvs: seq<KeyValue>, leaf: Leaf)
    requires IsTraversal(term, kvs)
    ensures HasLeaf(term, leaf) <==>
            leaf.path != [] && exists i :: 0 <= i < |kvs| && leaf.path[0] == kvs[i].0 && LeafAt(kvs[i].1, leaf)
  {
    if leaf.path != [] {
      forall value
        ensures HasKV(term, leaf.path[0], value) <==> (leaf.path[0], value) in kvs
      {
        TraversalMembers(term, kvs, leaf.path[0], value);
      }
      forall i | 0 <= i < |kvs| && kvs[i].0 == leaf.path[0]
        ensures (leaf.path[0], kvs[i].1) in kvs
      {
        assert kvs[i] == (kvs[i].0, kvs[i].1);
      }
    }
  }

  lemma {:induction false} TraceWritesLeaves(term: Term, trace: seq<Visit>, leaf: Leaf)
    requires BertTrace(term, trace)
    ensures leaf in Written(trace) <==> HasLeaf(term, leaf)
    decreases term, 0
  {
    WrittenMembers(trace, leaf);
    if IsKV(term) {
      var kvs: seq<KeyValue> :| IsTraversal(term, kvs) && TraceAlong(term, kvs, trace);
      forall i | 0 <= i < |kvs|
        ensures leaf in WrittenAt(trace[i]) <==> leaf.path != [] && leaf.path[0] == kvs[i].0 && LeafAt(kvs[i].1, leaf)
      {
        VisitWritesLeaf(kvs[i].1, trace[i], leaf);
      }
      LeafOfTraversal(term, kvs, leaf);
    }
  }

  lemma {:induction false} VisitWritesLeaf(value: Term, visit: Visit, leaf: Leaf)
    requires BertVisit(value, visit)
    ensures leaf in WrittenAt(visit) <==> leaf.path != [] && leaf.path[0] == visit.key && LeafAt(value, leaf)
    decreases value, 1
  {
    WrittenAtMembers(visit, leaf);
    if leaf.path != [] {
      TraceWritesLeaves(value, visit.inner, Leaf(leaf.path[1..], leaf.len, leaf.value));
    }
  }

  lemma {:induction false} TraceLists(term: Term, trace: seq<Visit>)
    requires BertTrace(term, trace)
    ensures Lists(Written(trace), BertLeaves(term))
  {
    forall leaf
      ensures leaf in Written(trace) <==> leaf in BertLeaves(term)
    {
      TraceWritesLeaves(term, trace, leaf);
    }
  }

  // --- Traversals exist ---

  lemma {:induction false} SomeOrder(keys: set<Term>) returns (order: seq<Term>)
    ensures Enumerates(order, keys)
  {
    order := [];
    if keys != {} {
      var key :| key in keys;
      var front := SomeOrder(keys - {key});
      order := front + [key];
      assert order[|front|] == key;
    }
  }

  lemma {:induction false} SomeTraversal(term: Term) returns (kvs: seq<KeyValue>)
    requires IsKV(term)
    ensures IsTraversal(term, kvs)
  {
    match term
    case Terms(_) => kvs := KeyedPairs(ProplistPairs(term).value);
    case Dict(entries) =>
      var order := SomeOrder(entries.Keys);
      kvs := ReadableEntries(order, entries);
  }

  lemma {:induction false} SomeTraceAlong(term: Term, kvs: seq<KeyValue>, n: nat) returns (trace: seq<Visit>)
    requires n <= |kvs| && forall i :: 0 <= i < |kvs| ==> kvs[i].1 < term
    ensures TraceAlong(term, kvs[..n], trace)
    decreases term, n
  {
    trace := [];
    if n > 0 {
      var front := SomeTraceAlong(term, kvs, n - 1);
      var inner := SomeTrace(kvs[n - 1].1);
      var visit := Visit(kvs[n - 1].0, BertOwn(kvs[n - 1].1), inner);
      TraceAlongExtended(term, kvs, n - 1, front, visit);
      trace := front + [visit];
    }
  }

  lemma {:induction false} SomeTrace(term: Term) returns (trace: seq<Visit>)
    ensures BertTrace(term, trace)
    decreases term
  {
    trace := [];
    if IsKV(term) {
      var kvs := SomeTraversal(term);
      trace := SomeTraceAlong(term, kvs, |kvs|);
      assert kvs[..|kvs|] == kvs;
    }
  }

  // --- {struct, ...} layers ---

  function Tagged(layers: nat, term: Term): Term
  {
    if layers == 0 then term else Terms([Atom("struct"), Tagged(layers - 1, term)])
  }

  lemma {:induction false} OneLayer(term: Term)
    requires term.Terms?
    ensures ProplistPairs(Tagged(1, term)) == ProplistPairs(term)
  {
    assert Tagged(0, term) == term;
    var tagged := Tagged(1, term);
    assert tagged.items == [Atom("struct"), term];
    assert KeyedTuple(tagged) == Some(("struct", term));
  }

  lemma {:induction false} SamePairsSameTraces(a: Term, b: Term, trace: seq<Visit>)
    requires ProplistPairs(a).Some? && ProplistPairs(a) == ProplistPairs(b)
    ensures BertTrace(a, trace) <==> BertTrace(b, trace)
  {
    var kvs := KeyedPairs(ProplistPairs(a).value);
    assert IsTraversal(a, kvs) && IsTraversal(b, kvs);
    assert TraceAlong(a, kvs, trace) <==> TraceAlong(b, kvs, trace);
  }

  // Any number of layers around a non-empty proplist changes nothing that is visited or stored.
  lemma {:induction false} LayersChangeNothing(layers: nat, term: Term, visit: Visit)
    requires ProplistPairs(term).Some? && term.items != []
    ensures ProplistPairs(Tagged(layers, term)) == ProplistPairs(term)
    ensures BertVisit(Tagged(layers, term), visit) <==> BertVisit(term, visit)
    decreases layers
  {
    if layers > 0 {
      var inside := Tagged(layers - 1, term);
      LayersChangeNothing(layers - 1, term, visit);
      assert Tagged(1, inside) == Terms([Atom("struct"), Tagged(0, inside)]);
      assert Tagged(0, inside) == inside;
      OneLayer(inside);
      SamePairsSameTraces(Tagged(layers, term), term, visit.inner);
    }
  }

  // A layer around anything else hides it: a tagged map is read as no object at all.
  lemma {:induction false} TaggedMapUnreadable(entries: map<Term, Term>)
    ensures !IsKV(Tagged(1, Dict(entries))) && BertOwn(Tagged(1, Dict(entries))) == Length(2)
  {
    var tagged := Tagged(1, Dict(entries));
    assert Tagged(0, Dict(entries)) == Dict(entries);
    assert tagged.items == [Atom("struct"), Dict(entries)];
    assert KeyedTuple(tagged) == Some(("struct", Dict(entries)));
  }

  // --- The reply object ---

  function LabelTexts(kvs: seq<KeyValue>, labels: seq<string>): map<string, string>
  {
    if kvs == [] then map field | field in labels :: ""
    else
      var before, (key, value) := LabelTexts(kvs[..|kvs| - 1], labels), kvs[|kvs| - 1];
      if key in labels && ParseStringy(value).Some? then before[key := ParseStringy(value).value] else before
  }

  // Every label present in the object can be printed.
  ghost predicate LabelsReadable(obj: Term, labels: seq<string>)
  {
    forall key, value :: HasKV(obj, key, value) && key in labels ==> ParseStringy(value).Some?
  }

  ghost predicate BertStat(obj: Term, labels: seq<string>, info: StatsInfo)
  {
    exists kvs, trace ::
      && IsTraversal(obj, kvs) && TraceAlong(obj, kvs, trace)
      && info == StatsInfo(LabelTexts(kvs, labels), Apply(map[], "", trace))
  }

  ghost predicate BertKept(obj: Term, labels: seq<string>)
  {
    IsKV(obj) && LabelsReadable(obj, labels)
  }

  // The statistics of a list: the objects that could be parsed, in order.
  ghost predicate BertStats(objects: seq<Term>, labels: seq<string>, stats: seq<StatsInfo>)
    decreases |objects|
  {
    if objects == [] then stats == []
    else
      var front, last := objects[..|objects| - 1], objects[|objects| - 1];
      if BertKept(last, labels) then
        stats != [] && BertStat(last, labels, stats[|stats| - 1]) && BertStats(front, labels, stats[..|stats| - 1])
      else BertStats(front, labels, stats)
  }

  ghost predicate BertStatsReply(reply: Term, labels: seq<string>, stats: seq<StatsInfo>)
  {
    if reply.Terms? then BertStats(reply.items, labels, stats) else stats == []
  }

  ghost predicate BertMapReply(reply: Term, m: Metrics)
  {
    exists trace :: BertTrace(reply, trace) && m == Apply(map[], "", trace)
  }

  function FirstText(kvs: seq<KeyValue>, key: string): Found
  {
    if kvs == [] then NOT_FOUND
    else if kvs[0].0 == key then
      match ParseStringy(kvs[0].1) case Some(text) => Found(text, true) case None => NOT_FOUND
    else FirstText(kvs[1..], key)
  }

  ghost predicate BertString(reply: Term, key: string, found: Found)
  {
    if IsKV(reply) then exists kvs :: IsTraversal(reply, kvs) && found == FirstText(kvs, key) else found == NOT_FOUND
  }

  lemma {:induction false} StatTrace(obj: Term, labels: seq<string>, info: StatsInfo)
    requires BertStat(obj, labels, info)
    ensures BertMapReply(obj, info.metrics)
  {
    var kvs: seq<KeyValue>, trace: seq<Visit> :|
      && IsTraversal(obj, kvs) && TraceAlong(obj, kvs, trace)
      && info == StatsInfo(LabelTexts(kvs, labels), Apply(map[], "", trace));
    assert BertTrace(obj, trace);
  }

  // The object parser and the generic parser are written separately but can produce the same maps and no others.
  lemma {:induction false} ObjectMetricsAreGeneric(obj: Term, labels: seq<string>, m: Metrics)
    requires IsKV(obj)
    ensures BertMapReply(obj, m) <==> exists info :: BertStat(obj, labels, info) && info.metrics == m
  {
    if BertMapReply(obj, m) {
      var trace :| BertTrace(obj, trace) && m == Apply(map[], "", trace);
      var kvs: seq<KeyValue> :| IsTraversal(obj, kvs) && TraceAlong(obj, kvs, trace);
      assert BertStat(obj, labels, StatsInfo(LabelTexts(kvs, labels), m));
    }
    if exists info :: BertStat(obj, labels, info) && info.metrics == m {
      var info :| BertStat(obj, labels, info) && info.metrics == m;
      StatTrace(obj, labels, info);
    }
  }

  // The first n pairs of a traversal have been taken into the result, and none of them is an unreadable label.
  ghost predicate Parsed(obj: Term, labels: seq<string>, kvs: seq<KeyValue>, n: int, trace: seq<Visit>, info: StatsInfo)
  {
    && 0 <= n <= |kvs| && TraceAlong(obj, kvs[..n], trace)
    && info == StatsInfo(LabelTexts(kvs[..n], labels), Apply(map[], "", trace))
    && forall i :: 0 <= i < n && kvs[i].0 in labels ==> ParseStringy(kvs[i].1).Some?
  }

  lemma {:induction false} ParsedOneMore(obj: Term, labels: seq<string>, kvs: seq<KeyValue>, n: nat, trace: seq<Visit>,
                                         info: StatsInfo, visit: Visit)
    requires n < |kvs| && Parsed(obj, labels, kvs, n, trace, info) && kvs[n].1 < obj
    requires visit.key == kvs[n].0 && BertVisit(kvs[n].1, visit)
    requires kvs[n].0 in labels ==> ParseStringy(kvs[n].1).Some?
    ensures Parsed(obj, labels, kvs, n + 1, trace + [visit],
                   StatsInfo(if kvs[n].0 in labels then info.labels[kvs[n].0 := ParseStringy(kvs[n].1).value]
                             else info.labels,
                             Step(info.metrics, "", visit)))
  {
    assert kvs[..n + 1][..n] == kvs[..n];
    ApplyOneMore(map[], "", trace, visit);
    TraceAlongExtended(obj, kvs, n, trace, visit);
  }

  // The label part of the object parser's callback: the value is saved once for each label equal to its key.
  method StoreLabel(before: map<string, string>, labels: seq<string>, kv: KeyValue)
    returns (readable: bool, texts: map<string, string>)
    ensures readable <==> (kv.0 in labels ==> ParseStringy(kv.1).Some?)
    ensures readable ==> texts == if kv.0 in labels then before[kv.0 := ParseStringy(kv.1).value] else before
  {
    texts := before;
    for n := 0 to |labels|
      invariant kv.0 in labels[..n] ==> ParseStringy(kv.1).Some?
      invariant texts == if kv.0 in labels[..n] then before[kv.0 := ParseStringy(kv.1).value] else before
    {
      assert labels[..n + 1] == labels[..n] + [labels[n]];
      if kv.0 == labels[n] {
        var text := ParseStringy(kv.1);
        if text == None {
          return false, texts;
        }
        texts := texts[kv.0 := text.value];
      }
    }
    assert labels[..|labels|] == labels;
    return true, texts;
  }

  // The metric part of the object parser's callback, with its own test for arrays.
  method StoreMetric(metrics: MetricMap, kv: KeyValue) returns (ghost visit: Visit)
    modifies metrics
    ensures visit.key == kv.0 && BertVisit(kv.1, visit)
    ensures metrics.entries == Step(old(metrics.entries), "", visit)
  {
    var (key, value) := kv;
    var isSlice := value.Terms?;
    var isProplist := ProplistPairs(value).Some?;
    if isSlice && (!isProplist || |value.items| == 0) {
      metrics.entries := metrics.entries[key + "_len" := |value.items| as real];
    }
    var number := ParseFloaty(value);
    if number.Some? {
      metrics.entries := metrics.entries[key := number.value];
      visit := Visit(key, Scalar(number.value), []);
      assert BertTrace(value, []);
      return;
    }
    var ok; // a failure is ignored
    ghost var inner;
    ok, inner := ParseProplist(metrics, key, value);
    visit := Visit(key, BertOwn(value), inner);
  }

  // The object parser's callback: the label part, then the metric part.
  method ParsePair(ghost obj: Term, labels: seq<string>, kvs: seq<KeyValue>, n: nat, ghost trace: seq<Visit>,
                   before: map<string, string>, metrics: MetricMap)
    returns (readable: bool, texts: map<string, string>, ghost visit: Visit)
    requires n < |kvs| && kvs[n].1 < obj
    requires Parsed(obj, labels, kvs, n, trace, StatsInfo(before, metrics.entries))
    modifies metrics
    ensures readable <==> (kvs[n].0 in labels ==> ParseStringy(kvs[n].1).Some?)
    ensures readable ==> Parsed(obj, labels, kvs, n + 1, trace + [visit], StatsInfo(texts, metrics.entries))
  {
    ghost var info := StatsInfo(before, metrics.entries);
    visit := Visit("", Nothing, []);
    readable, texts := StoreLabel(before, labels, kvs[n]);
    if readable {
      visit := StoreMetric(metrics, kvs[n]);
      ParsedOneMore(obj, labels, kvs, n, trace, info, visit);
    }
  }

  lemma {:induction false} ReadableLabels(obj: Term, kvs: seq<KeyValue>, labels: seq<string>)
    requires IsTraversal(obj, kvs)
    requires forall i :: 0 <= i < |kvs| && kvs[i].0 in labels ==> ParseStringy(kvs[i].1).Some?
    ensures LabelsReadable(obj, labels)
  {
    forall key, value | HasKV(obj, key, value) && key in labels
      ensures ParseStringy(value).Some?
    {
      TraversalMembers(obj, kvs, key, value);
      var i :| 0 <= i < |kvs| && kvs[i] == (key, value);
    }
  }

  lemma {:induction false} ParsedAll(obj: Term, labels: seq<string>, kvs: seq<KeyValue>, trace: seq<Visit>,
      info: StatsInfo)
    requires IsTraversal(obj, kvs) && Parsed(obj, labels, kvs, |kvs|, trace, info)
    ensures BertStat(obj, labels, info) && LabelsReadable(obj, labels)
  {
    assert kvs[..|kvs|] == kvs;
    ReadableLabels(obj, kvs, labels);
  }

  method BlankLabels(labels: seq<string>) returns (texts: map<string, string>)
    ensures texts == map field | field in labels :: ""
  {
    texts := map[];
    for n := 0 to |labels|
      invariant texts == map field | field in labels[..n] :: ""
    {
      texts := texts[labels[n] := ""];
      assert labels[..n + 1] == labels[..n] + [labels[n]];
    }
    assert labels[..|labels|] == labels;
  }

  lemma {:induction false} UnreadableLabel(obj: Term, kvs: seq<KeyValue>, n: nat, labels: seq<string>)
    requires IsTraversal(obj, kvs) && n < |kvs| && kvs[n].0 in labels && ParseStringy(kvs[n].1).None?
    ensures !LabelsReadable(obj, labels)
  {
    assert kvs[n] == (kvs[n].0, kvs[n].1);
    TraversalMembers(obj, kvs, kvs[n].0, kvs[n].1);
  }

  method ParseSingleStatsObject(obj: Term, labels: seq<string>) returns (info: StatsInfo, ok: bool)
    ensures ok <==> BertKept(obj, labels)
    ensures ok ==> BertStat(obj, labels, info)
  {
    info := StatsInfo(map[], map[]);
    var metrics := new MetricMap();
    var texts := BlankLabels(labels);
    var isKV, kvs := IterateBertKV(obj);
    if !isKV {
      return info, false;
    }
    ghost var trace: seq<Visit> := [];
    for n := 0 to |kvs|
      invariant Parsed(obj, labels, kvs, n, trace, StatsInfo(texts, metrics.entries))
    {
      var readable;
      ghost var visit;
      readable, texts, visit := ParsePair(obj, labels, kvs, n, trace, texts, metrics);
      if !readable {
        UnreadableLabel(obj, kvs, n, labels);
        return info, false;
      }
      trace := trace + [visit];
    }
    info := StatsInfo(texts, metrics.entries);
    ParsedAll(obj, labels, kvs, trace, info);
    return info, true;
  }

  lemma {:induction false} BertStatsOneMore(objects: seq<Term>, obj: Term, labels: seq<string>, stats: seq<StatsInfo>,
      info: StatsInfo)
    requires BertStats(objects, labels, stats) && BertKept(obj, labels) && BertStat(obj, labels, info)
    ensures BertStats(objects + [obj], labels, stats + [info])
  {
    assert (objects + [obj])[..|objects|] == objects && (stats + [info])[..|stats|] == stats;
  }

  // --- What the replies hold, in terms of the pairs visited ---

  ghost predicate NoneBefore(kvs: seq<KeyValue>, n: int, key: string)
  {
    forall i :: 0 <= i < n <= |kvs| ==> kvs[i].0 != key
  }

  ghost predicate NoneFrom(kvs: seq<KeyValue>, n: int, key: string)
  {
    forall i :: 0 <= n <= i < |kvs| ==> kvs[i].0 != key
  }

  // The first pair with the key answers, if its value can be printed.
  lemma {:induction false} FirstPairAnswers(kvs: seq<KeyValue>, key: string, n: nat)
    requires n <= |kvs| && NoneBefore(kvs, n, key) && (n < |kvs| ==> kvs[n].0 == key)
    ensures n == |kvs| || ParseStringy(kvs[n].1).None? ==> !FirstText(kvs, key).ok
    ensures n < |kvs| && ParseStringy(kvs[n].1).Some? ==>
              FirstText(kvs, key) == Found(ParseStringy(kvs[n].1).value, true)
    decreases |kvs|
  {
    if n > 0 {
      FirstPairAnswers(kvs[1..], key, n - 1);
    }
  }

  // The last pair with a requested label's key gives its text; a label without a pair is empty.
  lemma {:induction false} LastPairLabels(kvs: seq<KeyValue>, labels: seq<string>, field: string, n: int)
    requires field in labels && forall i :: 0 <= i < |kvs| && kvs[i].0 in labels ==> ParseStringy(kvs[i].1).Some?
    requires -1 <= n < |kvs| && NoneFrom(kvs, n + 1, field) && (n >= 0 ==> kvs[n].0 == field)
    ensures field in LabelTexts(kvs, labels)
    ensures LabelTexts(kvs, labels)[field] == if n >= 0 then ParseStringy(kvs[n].1).value else ""
    decreases |kvs|
  {
    if kvs != [] && n < |kvs| - 1 {
      LastPairLabels(kvs[..|kvs| - 1], labels, field, n);
    }
  }

  class BertReply {
    const objects: Term

    constructor (objects: Term)
      ensures this.objects == objects
    {
      this.objects := objects;
    }

    method MakeMap() returns (m: Metrics)
      ensures BertMapReply(objects, m)
      ensures !IsKV(objects) ==> m == map[]
    {
      var flMap := new MetricMap();
      var ok;
      ghost var trace;
      ok, trace := ParseProplist(flMap, "", objects);
      return flMap.entries;
    }

    method MakeStatsInfo(labels: seq<string>) returns (stats: seq<StatsInfo>)
      ensures BertStatsReply(objects, labels, stats)
    {
      stats := [];
      if !objects.Terms? {
        return;
      }
      var items := objects.items;
      for n := 0 to |items|
        invariant BertStats(items[..n], labels, stats)
      {
        assert items[..n + 1][..n] == items[..n];
        var info, ok := ParseSingleStatsObject(items[n], labels);
        if ok {
          BertStatsOneMore(items[..n], items[n], labels, stats, info);
          stats := stats + [info];
        }
        assert items[..n + 1] == items[..n] + [items[n]];
      }
      assert items[..|items|] == items;
    }

    method GetString(key: string) returns (found: Found)
      ensures BertString(objects, key, found)
    {
      var ok, kvs := IterateBertKV(objects);
      for n := 0 to |kvs|
        invariant FirstText(kvs, key) == FirstText(kvs[n..], key)
      {
        if kvs[n].0 == key {
          match ParseStringy(kvs[n].1) {
            case None => return NOT_FOUND;
            case Some(text) => return Found(text, true);
          }
        }
      }
      return NOT_FOUND;
    }
  }
}
