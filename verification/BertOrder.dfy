/**
 Which iteration orders matter to the BERT parser: lists are visited in their own order, maps in any order, so a flat
 key that is written twice is decided by whichever write can come last.
 */
module BertOrder {
  import opened Wrappers
  import opened Decoder
  import opened FlatKeys
  import opened FinalWrites
  import opened BertMap

  // --- The leaves that can have the last word ---

  ghost predicate PairHasLeaf(kv: KeyValue, leaf: Leaf)
  {
    leaf.path != [] && leaf.path[0] == kv.0 && LeafAt(kv.1, leaf)
  }

  ghost predicate PairWrites(kv: KeyValue, basename: string, key: string)
  {
    exists leaf :: PairHasLeaf(kv, leaf) && FlatKey(basename, leaf) == key
  }

  // The i-th pair may write the leaf last among all it writes, and no later pair writes its flat key.
  ghost predicate DecidesAt(kvs: seq<KeyValue>, i: int, basename: string, leaf: Leaf)
    requires leaf.path != []
    decreases |leaf.path|, 1
  {
    && 0 <= i < |kvs| && kvs[i].0 == leaf.path[0] && MayDecideIn(kvs[i].1, basename, leaf)
    && forall j :: i < j < |kvs| ==> !PairWrites(kvs[j], basename, FlatKey(basename, leaf))
  }

  // A leaf may decide its flat key: in a list it has to sit in the last pair that writes the key, in a map anywhere.
  ghost predicate MayDecide(term: Term, basename: string, leaf: Leaf)
    decreases |leaf.path|, 2
  {
    leaf.path != [] &&
    match term
    case Terms(_) =>
      ProplistPairs(term).Some? && exists i :: DecidesAt(KeyedPairs(ProplistPairs(term).value), i, basename, leaf)
    case Dict(_) => exists value :: HasKV(term, leaf.path[0], value) && MayDecideIn(value, basename, leaf)
    case _ => false
  }

  ghost predicate MayDecideIn(value: Term, basename: string, leaf: Leaf)
    requires leaf.path != []
    decreases |leaf.path|, 0
  {
    || (|leaf.path| == 1 && Stores(BertOwn(value), leaf))
    || MayDecide(value, Join(basename, leaf.path[0]), Leaf(leaf.path[1..], leaf.len, leaf.value))
  }

  lemma {:induction false} DecidersAreLeaves(term: Term, basename: string, leaf: Leaf)
    requires MayDecide(term, basename, leaf)
    ensures HasLeaf(term, leaf)
    decreases |leaf.path|
  {
    var value;
    match term {
      case Terms(_) =>
        var kvs := KeyedPairs(ProplistPairs(term).value);
        var i :| DecidesAt(kvs, i, basename, leaf);
        value := kvs[i].1;
        assert kvs[i] == (leaf.path[0], value) && kvs[i] in kvs;
        TraversalMembers(term, kvs, leaf.path[0], value);
      case Dict(_) =>
        value :| HasKV(term, leaf.path[0], value) && MayDecideIn(value, basename, leaf);
    }
    assert MayDecideIn(value, basename, leaf);
    var inside := Leaf(leaf.path[1..], leaf.len, leaf.value);
    if MayDecide(value, Join(basename, leaf.path[0]), inside) {
      DecidersAreLeaves(value, Join(basename, leaf.path[0]), inside);
    }
    assert LeafAt(value, leaf);
  }

  // --- The same, seen from one traversal ---

  lemma {:induction false} DecidesInTraversal(term: Term, kvs: seq<KeyValue>, i: int, basename: string, leaf: Leaf)
    requires IsTraversal(term, kvs) && leaf.path != [] && DecidesAt(kvs, i, basename, leaf)
    ensures MayDecide(term, basename, leaf)
  {
    match term
    case Terms(_) =>
    case Dict(_) =>
      assert kvs[i] == (leaf.path[0], kvs[i].1) && kvs[i] in kvs;
      TraversalMembers(term, kvs, leaf.path[0], kvs[i].1);
  }

  // A map can be traversed with any one of its readable entries last.
  lemma {:induction false} TraversalWithLast(entries: map<Term, Term>, k: Term) returns (kvs: seq<KeyValue>)
    requires k in entries && ParseStringy(k).Some?
    ensures IsTraversal(Dict(entries), kvs)
    ensures kvs != [] && kvs[|kvs| - 1] == (ParseStringy(k).value, entries[k])
  {
    var front := SomeOrder(entries.Keys - {k});
    var order := front + [k];
    assert order[|front|] == k && order[..|front|] == front;
    assert Enumerates(order, entries.Keys);
    kvs := ReadableEntries(order, entries);
  }

  lemma {:induction false} TraversalThatDecides(term: Term, basename: string, leaf: Leaf)
    returns (kvs: seq<KeyValue>, i: int)
    requires MayDecide(term, basename, leaf)
    ensures IsTraversal(term, kvs) && DecidesAt(kvs, i, basename, leaf)
  {
    match term {
      case Terms(_) =>
        kvs := KeyedPairs(ProplistPairs(term).value);
        i :| DecidesAt(kvs, i, basename, leaf);
      case Dict(entries) =>
        var value :| HasKV(term, leaf.path[0], value) && MayDecideIn(value, basename, leaf);
        var k :| k in entries && ParseStringy(k) == Some(leaf.path[0]) && entries[k] == value;
        kvs := TraversalWithLast(entries, k);
        i := |kvs| - 1;
    }
  }

  // --- Visits ---

  // A value that stores something itself has nothing inside.
  lemma {:induction false} OwnOrInside(value: Term, trace: seq<Visit>)
    requires BertTrace(value, trace) && !BertOwn(value).Nothing?
    ensures trace == []
  {
    if IsKV(value) {
      var kvs: seq<KeyValue> :| IsTraversal(value, kvs) && TraceAlong(value, kvs, trace);
    }
  }

  lemma {:induction false} VisitWrites(value: Term, visit: Visit, basename: string, key: string)
    requires BertVisit(value, visit)
    ensures Writes(basename, WrittenAt(visit), key) <==> PairWrites((visit.key, value), basename, key)
  {
    forall leaf
      ensures leaf in WrittenAt(visit) <==> PairHasLeaf((visit.key, value), leaf)
    {
      VisitWritesLeaf(value, visit, leaf);
    }
  }

  lemma {:induction false} OwnIsFinal(basename: string, visit: Visit, leaf: Leaf)
    requires leaf.path != [] && leaf.path[0] == visit.key && !visit.own.Nothing?
    ensures Final(basename, OwnLeaves(visit.key, visit.own), leaf) <==> |leaf.path| == 1 && Stores(visit.own, leaf)
  {
    var own := OwnLeaves(visit.key, visit.own);
    if |leaf.path| == 1 && Stores(visit.own, leaf) {
      assert leaf.path == [visit.key];
      assert own[0] == leaf && NotWrittenFrom(basename, own, 1, FlatKey(basename, leaf));
    }
  }

  // What is final in a visit: the value's own write, or what is final inside it.
  lemma {:induction false} FinalAtVisit(value: Term, visit: Visit, basename: string, leaf: Leaf)
    requires BertVisit(value, visit) && leaf.path != [] && leaf.path[0] == visit.key
    ensures Final(basename, WrittenAt(visit), leaf) <==>
            || (|leaf.path| == 1 && Stores(BertOwn(value), leaf))
            || Final(Join(basename, visit.key), Written(visit.inner),
                     Leaf(leaf.path[1..], leaf.len, leaf.value))
  {
    var inside := Leaf(leaf.path[1..], leaf.len, leaf.value);
    assert leaf.path == [visit.key] + inside.path && leaf == Below(visit.key, inside);
    var own, below := OwnLeaves(visit.key, visit.own), AllBelow(visit.key, Written(visit.inner));
    FinalConcat(basename, own, below, leaf);
    FinalBelow(basename, visit.key, Written(visit.inner), inside);
    if !visit.own.Nothing? {
      OwnOrInside(value, visit.inner);
      assert below == [] && own + below == own;
      OwnIsFinal(basename, visit, leaf);
    }
  }

  // --- Traces: the final leaves are those that may decide ---

  lemma {:induction false} NothingLater(term: Term, kvs: seq<KeyValue>, trace: seq<Visit>, i: int, basename: string,
      key: string)
    requires TraceAlong(term, kvs, trace) && 0 <= i < |kvs|
    ensures (forall j :: i < j < |kvs| ==> !PairWrites(kvs[j], basename, key)) <==>
            forall j :: i < j < |trace| ==> !Writes(basename, WrittenAt(trace[j]), key)
  {
    forall j | i < j < |kvs|
      ensures PairWrites(kvs[j], basename, key) <==> Writes(basename, WrittenAt(trace[j]), key)
    {
      VisitWrites(kvs[j].1, trace[j], basename, key);
      assert kvs[j] == (trace[j].key, kvs[j].1);
    }
  }

  lemma {:induction false} FinalMayDecide(term: Term, basename: string, trace: seq<Visit>, leaf: Leaf)
    requires BertTrace(term, trace) && Final(basename, Written(trace), leaf)
    ensures MayDecide(term, basename, leaf)
    decreases term
  {
    FinalInTrace(basename, trace, leaf);
    var i :| FinalVisit(basename, trace, i, leaf);
    var kvs: seq<KeyValue> :| IsTraversal(term, kvs) && TraceAlong(term, kvs, trace);
    var visit, value := trace[i], kvs[i].1;
    assert leaf in WrittenAt(visit);
    WrittenAtMembers(visit, leaf);
    FinalAtVisit(value, visit, basename, leaf);
    var inside := Leaf(leaf.path[1..], leaf.len, leaf.value);
    if Final(Join(basename, visit.key), Written(visit.inner), inside) {
      FinalMayDecide(value, Join(basename, visit.key), visit.inner, inside);
    }
    NothingLater(term, kvs, trace, i, basename, FlatKey(basename, leaf));
    DecidesInTraversal(term, kvs, i, basename, leaf);
  }

  // A trace along a traversal with one visit given.
  lemma {:induction false} TraceWith(term: Term, kvs: seq<KeyValue>, i: int, visit: Visit) returns (trace: seq<Visit>)
    requires IsTraversal(term, kvs) && 0 <= i < |kvs| && kvs[i].0 == visit.key && BertVisit(kvs[i].1, visit)
    ensures TraceAlong(term, kvs, trace) && trace[i] == visit
  {
    var some := SomeTraceAlong(term, kvs, |kvs|);
    assert kvs[..|kvs|] == kvs;
    trace := some[i := visit];
  }

  lemma {:induction false} TraceThatEnds(term: Term, basename: string, leaf: Leaf) returns (trace: seq<Visit>)
    requires MayDecide(term, basename, leaf)
    ensures BertTrace(term, trace) && Final(basename, Written(trace), leaf)
    decreases |leaf.path|
  {
    var kvs, i := TraversalThatDecides(term, basename, leaf);
    var key, value := leaf.path[0], kvs[i].1;
    var inside := Leaf(leaf.path[1..], leaf.len, leaf.value);
    var inner;
    if MayDecide(value, Join(basename, key), inside) {
      inner := TraceThatEnds(value, Join(basename, key), inside);
    } else {
      inner := SomeTrace(value);
    }
    var visit := Visit(key, BertOwn(value), inner);
    FinalAtVisit(value, visit, basename, leaf);
    trace := TraceWith(term, kvs, i, visit);
    NothingLater(term, kvs, trace, i, basename, FlatKey(basename, leaf));
    assert FinalVisit(basename, trace, i, leaf);
    FinalInTrace(basename, trace, leaf);
  }

  // --- Order independence ---

  // No two leaves that may decide one flat key hold different numbers.
  ghost predicate Settled(term: Term, basename: string)
  {
    forall x, y ::
      && MayDecide(term, basename, x) && MayDecide(term, basename, y)
      && FlatKey(basename, x) == FlatKey(basename, y)
      ==> x.value == y.value
  }

  lemma {:induction false} SameWrites(term: Term, s: seq<Visit>, t: seq<Visit>)
    requires BertTrace(term, s) && BertTrace(term, t)
    ensures forall leaf :: leaf in Written(s) <==> leaf in Written(t)
  {
    TraceLists(term, s);
    TraceLists(term, t);
  }

  lemma {:induction false} SettledTracesAgree(term: Term, m: Metrics, basename: string, s: seq<Visit>, t: seq<Visit>)
    requires BertTrace(term, s) && BertTrace(term, t) && Settled(term, basename)
    ensures Apply(m, basename, s) == Apply(m, basename, t)
  {
    var p, q := Apply(m, basename, s), Apply(m, basename, t);
    SameWrites(term, s, t);
    forall key
      ensures key in p <==> key in q
      ensures key in p && key in q ==> p[key] == q[key]
    {
      if Writes(basename, Written(s), key) {
        var x := DecidedBy(m, basename, Written(s), key);
        var y := DecidedBy(m, basename, Written(t), key);
        FinalMayDecide(term, basename, s, x);
        FinalMayDecide(term, basename, t, y);
      } else {
        NotWritten(m, basename, Written(s), key);
        NotWritten(m, basename, Written(t), key);
      }
    }
  }

  lemma {:induction false} TracesThatDiffer(term: Term, m: Metrics, basename: string)
    returns (s: seq<Visit>, t: seq<Visit>)
    requires !Settled(term, basename)
    ensures BertTrace(term, s) && BertTrace(term, t) && Apply(m, basename, s) != Apply(m, basename, t)
  {
    var x, y :| MayDecide(term, basename, x) && MayDecide(term, basename, y)
        && FlatKey(basename, x) == FlatKey(basename, y) && x.value != y.value;
    s := TraceThatEnds(term, basename, x);
    t := TraceThatEnds(term, basename, y);
    FinalWins(m, basename, Written(s), x);
    FinalWins(m, basename, Written(t), y);
  }

  // For every term, the result is the same for every iteration order of every nested map exactly when no two leaves
  // that may decide one flat key hold different numbers.
  lemma {:induction false} OrderIndependence(term: Term, m: Metrics, basename: string)
    ensures (forall s, t :: BertTrace(term, s) && BertTrace(term, t) ==> Apply(m, basename, s) == Apply(m, basename, t))
       <==> Settled(term, basename)
  {
    if Settled(term, basename) {
      forall s, t | BertTrace(term, s) && BertTrace(term, t)
        ensures Apply(m, basename, s) == Apply(m, basename, t)
      {
        SettledTracesAgree(term, m, basename, s, t);
      }
    } else {
      var s, t := TracesThatDiffer(term, m, basename);
    }
  }

  // So unambiguous flat keys are enough, for every term.
  lemma {:induction false} UnambiguousIsSettled(term: Term, basename: string)
    requires Unambiguous(basename, BertLeaves(term))
    ensures Settled(term, basename)
  {
    forall x, y | MayDecide(term, basename, x) && MayDecide(term, basename, y)
        && FlatKey(basename, x) == FlatKey(basename, y)
      ensures x.value == y.value
    {
      DecidersAreLeaves(term, basename, x);
      DecidersAreLeaves(term, basename, y);
    }
  }

  // --- A map that is read in two ways, and a list with the same pairs that is not ---

  const TWO_KEYS := Dict(map[Atom("a") := Num(1.0), Text("a") := Num(2.0)])
  const TWO_PAIRS := Terms([Terms([Atom("a"), Num(1.0)]), Terms([Atom("a"), Num(2.0)])])

  lemma {:induction false} LeafAtNumber(r: real, basename: string, leaf: Leaf)
    requires leaf.path != []
    ensures LeafAt(Num(r), leaf) <==> |leaf.path| == 1 && !leaf.len && leaf.value == r
    ensures MayDecideIn(Num(r), basename, leaf) <==> |leaf.path| == 1 && !leaf.len && leaf.value == r
  {
  }

  lemma {:induction false} TwoKeysHold(key: string, value: Term)
    ensures HasKV(TWO_KEYS, key, value) <==> key == "a" && (value == Num(1.0) || value == Num(2.0))
  {
    assert Atom("a") in TWO_KEYS.entries && TWO_KEYS.entries[Atom("a")] == Num(1.0);
    assert Text("a") in TWO_KEYS.entries && TWO_KEYS.entries[Text("a")] == Num(2.0);
    assert ParseStringy(Atom("a")) == Some("a") && ParseStringy(Text("a")) == Some("a");
  }

  lemma {:induction false} TwoKeysWrite(leaf: Leaf)
    ensures HasLeaf(TWO_KEYS, leaf) <==> leaf == Leaf(["a"], false, 1.0) || leaf == Leaf(["a"], false, 2.0)
  {
    if leaf.path != [] {
      assert |leaf.path| == 1 && leaf.path[0] == "a" ==> leaf.path == ["a"];
      forall value
        ensures HasKV(TWO_KEYS, leaf.path[0], value) <==>
                leaf.path[0] == "a" && (value == Num(1.0) || value == Num(2.0))
      {
        TwoKeysHold(leaf.path[0], value);
      }
      LeafAtNumber(1.0, "", leaf);
      LeafAtNumber(2.0, "", leaf);
    }
  }

  lemma {:induction false} KeyOfA(leaf: Leaf)
    requires leaf.path == ["a"] && !leaf.len
    ensures FlatKey("", leaf) == "a"
  {
    assert leaf.path[1..] == [];
    assert KeyFrom("", ["a"]) == KeyFrom("a", []) == "a";
  }

  lemma {:induction false} TwoKeysDecide(r: real)
    requires r == 1.0 || r == 2.0
    ensures BertMapReply(TWO_KEYS, map["a" := r])
  {
    var leaf := Leaf(["a"], false, r);
    TwoKeysHold("a", Num(r));
    LeafAtNumber(r, "", leaf);
    assert MayDecide(TWO_KEYS, "", leaf);
    var trace := TraceThatEnds(TWO_KEYS, "", leaf);
    FinalWins(map[], "", Written(trace), leaf);
    forall x | x in Written(trace)
      ensures FlatKey("", x) == "a"
    {
      TraceWritesLeaves(TWO_KEYS, trace, x);
      TwoKeysWrite(x);
      KeyOfA(x);
    }
    KeyOfA(leaf);
    OneKey(Written(trace), "a", r);
    assert BertMapReply(TWO_KEYS, map["a" := r]);
  }

  // The BERT parser can be given a map with one printed key twice; then the two results depend on the order.
  lemma {:induction false} TwoKeysTwoMaps()
    ensures BertMapReply(TWO_KEYS, map["a" := 1.0]) && BertMapReply(TWO_KEYS, map["a" := 2.0])
  {
    TwoKeysDecide(1.0);
    TwoKeysDecide(2.0);
  }

  lemma {:induction false} TwoPairsVisited()
    ensures ProplistPairs(TWO_PAIRS) == Some(TWO_PAIRS.items)
    ensures KeyedPairs(TWO_PAIRS.items) == [("a", Num(1.0)), ("a", Num(2.0))]
  {
    var pairs := TWO_PAIRS.items;
    assert KeyedTuple(pairs[0]) == Some(("a", Num(1.0))) && KeyedTuple(pairs[1]) == Some(("a", Num(2.0)));
    assert pairs[..1] == [pairs[0]] && pairs[..1][..0] == [];
    assert KeyedPairs(pairs[..1]) == [("a", Num(1.0))];
  }

  lemma {:induction false} TwoPairsWrite(leaf: Leaf)
    ensures HasLeaf(TWO_PAIRS, leaf) <==> leaf == Leaf(["a"], false, 1.0) || leaf == Leaf(["a"], false, 2.0)
  {
    TwoPairsVisited();
    var kvs := KeyedPairs(TWO_PAIRS.items);
    LeafOfTraversal(TWO_PAIRS, kvs, leaf);
    if leaf.path != [] {
      assert |leaf.path| == 1 && leaf.path[0] == "a" ==> leaf.path == ["a"];
      LeafAtNumber(1.0, "", leaf);
      LeafAtNumber(2.0, "", leaf);
      assert kvs[0] == ("a", Num(1.0)) && kvs[1] == ("a", Num(2.0));
    }
  }

  lemma {:induction false} LastPairDecides(leaf: Leaf)
    requires MayDecide(TWO_PAIRS, "", leaf) && FlatKey("", leaf) == "a"
    ensures leaf.value == 2.0
  {
    TwoPairsVisited();
    var kvs := KeyedPairs(TWO_PAIRS.items);
    var y := Leaf(["a"], false, 2.0);
    KeyOfA(y);
    assert PairHasLeaf(kvs[1], y) && PairWrites(kvs[1], "", "a");
    var i :| DecidesAt(kvs, i, "", leaf);
    LeafAtNumber(kvs[i].1.value, "", leaf);
  }

  lemma {:induction false} TwoPairsTrace(trace: seq<Visit>)
    requires BertTrace(TWO_PAIRS, trace)
    ensures Apply(map[], "", trace) == map["a" := 2.0]
  {
    var y := Leaf(["a"], false, 2.0);
    forall leaf | leaf in Written(trace)
      ensures FlatKey("", leaf) == "a"
    {
      TraceWritesLeaves(TWO_PAIRS, trace, leaf);
      TwoPairsWrite(leaf);
      KeyOfA(leaf);
    }
    TwoPairsWrite(y);
    KeyOfA(y);
    TraceWritesLeaves(TWO_PAIRS, trace, y);
    assert Writes("", Written(trace), "a");
    var last := DecidedBy(map[], "", Written(trace), "a");
    FinalMayDecide(TWO_PAIRS, "", trace, last);
    LastPairDecides(last);
    OneKey(Written(trace), "a", 2.0);
  }

  // A list with the same two pairs is just as ambiguous, but its order decides.
  lemma {:induction false} TwoPairsOneMap(m: Metrics)
    requires BertMapReply(TWO_PAIRS, m)
    ensures m == map["a" := 2.0] && !Unambiguous("", BertLeaves(TWO_PAIRS))
  {
    var x, y := Leaf(["a"], false, 1.0), Leaf(["a"], false, 2.0);
    TwoPairsWrite(x);
    TwoPairsWrite(y);
    KeyOfA(x);
    KeyOfA(y);
    assert x in BertLeaves(TWO_PAIRS) && y in BertLeaves(TWO_PAIRS);
    var trace :| BertTrace(TWO_PAIRS, trace) && m == Apply(map[], "", trace);
    TwoPairsTrace(trace);
  }
}
