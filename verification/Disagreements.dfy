/** Replies on which the parsers do not do what is promised, each with what they give instead. */
module Disagreements {
  import opened Wrappers
  import opened Decoder
  import opened FlatKeys
  import opened FinalWrites
  import opened JsonMap
  import B = BertMap
  import opened BertMap
  import opened Rendering
  import opened Agreement
  import opened ListAgreement

  // --- Small replies ---

  function OnePair(key: string, value: Term): Term
  {
    Terms([Terms([Atom(key), value])])
  }

  lemma {:induction false} PairKV(key: string, value: Term, k: string, v: Term)
    ensures ProplistPairs(OnePair(key, value)) == Some([Terms([Atom(key), value])])
    ensures HasKV(OnePair(key, value), k, v) <==> k == key && v == value
  {
    var pair := Terms([Atom(key), value]);
    assert KeyedTuple(pair) == Some((key, value)) && KeyedTuple(Terms([pair])).None?;
    if HasKV(Terms([pair]), k, v) {
      assert Terms([Atom(k), v]) == pair;
      assert [Atom(k), v][0] == pair.items[0] && [Atom(k), v][1] == pair.items[1];
    }
  }

  lemma {:induction false} PairLeaf(key: string, value: Term, leaf: Leaf)
    ensures B.HasLeaf(OnePair(key, value), leaf) <==> leaf.path != [] && leaf.path[0] == key && LeafAt(value, leaf)
  {
    forall k, v
      ensures HasKV(OnePair(key, value), k, v) <==> k == key && v == value
    {
      PairKV(key, value, k, v);
    }
  }

  lemma {:induction false} RendersOnePair(key: string, doc: Doc, value: Term)
    requires Renders(doc, value)
    ensures Renders(Obj(map[key := doc]), OnePair(key, value))
  {
    var whole, pairs := Obj(map[key := doc]), OnePair(key, value);
    assert PairKey(pairs.items[0]) == Some(key);
    assert RendersProplist(whole, pairs);
  }

  lemma {:induction false} OneWrite(leaves: seq<Leaf>, leaf: Leaf)
    requires forall x :: x in leaves <==> x == leaf
    ensures WriteAll(map[], "", leaves) == map[FlatKey("", leaf) := leaf.value]
  {
    assert Writes("", leaves, FlatKey("", leaf));
    var last := DecidedBy(map[], "", leaves, FlatKey("", leaf));
    assert last in leaves;
    OneKey(leaves, FlatKey("", leaf), leaf.value);
  }

  lemma {:induction false} OneLeafJson(doc: Doc, leaf: Leaf, j: Metrics)
    requires doc.Obj? && JsonMapReply(Some(doc), j) && forall x :: JsonMap.HasLeaf(doc, x) <==> x == leaf
    ensures j == map[FlatKey("", leaf) := leaf.value]
  {
    var trace :| JsonTrace(doc, trace) && j == Apply(map[], "", trace);
    forall x
      ensures x in Written(trace) <==> x == leaf
    {
      JsonMap.TraceWritesLeaves(doc, trace, x);
    }
    OneWrite(Written(trace), leaf);
  }

  lemma {:induction false} OneLeafBert(term: Term, leaf: Leaf, b: Metrics)
    requires BertMapReply(term, b) && forall x :: B.HasLeaf(term, x) <==> x == leaf
    ensures b == map[FlatKey("", leaf) := leaf.value]
  {
    var trace :| BertTrace(term, trace) && b == Apply(map[], "", trace);
    forall x
      ensures x in Written(trace) <==> x == leaf
    {
      B.TraceWritesLeaves(term, trace, x);
    }
    OneWrite(Written(trace), leaf);
  }

  lemma {:induction false} KeyOfOne(a: string, len: bool, value: real)
    requires a != ""
    ensures FlatKey("", Leaf([a], len, value)) == a + if len then "_len" else ""
  {
    assert [a][1..] == [];
    assert KeyFrom("", [a]) == KeyFrom(a, []) == a;
  }

  // --- An array taken for an object ---

  const HEAD_DOC := Obj(map["x" := Number(1.0)])
  const LIST_DOC := Obj(map["a" := Arr([HEAD_DOC])])
  const HEAD_TERM := OnePair("x", Num(1.0))
  const TAGGED_HEAD := Terms([Atom("struct"), HEAD_TERM])
  const LIST_TERM := OnePair("a", Terms([TAGGED_HEAD]))

  lemma {:induction false} ListDocLeaf(leaf: Leaf)
    ensures JsonMap.HasLeaf(LIST_DOC, leaf) <==> leaf == Leaf(["a"], true, 1.0)
  {
    HasLeafStep(LIST_DOC, leaf);
    if leaf.path != [] && leaf.path[0] == "a" {
      HasLeafStep(Arr([HEAD_DOC]), Leaf(leaf.path[1..], leaf.len, leaf.value));
      assert |leaf.path| == 1 ==> leaf.path == ["a"];
    }
  }

  lemma {:induction false} ListTermLeaf(leaf: Leaf)
    ensures B.HasLeaf(LIST_TERM, leaf) <==> leaf == Leaf(["a", "struct", "x"], false, 1.0)
  {
    PairLeaf("a", Terms([TAGGED_HEAD]), leaf);
    if leaf.path != [] && leaf.path[0] == "a" {
      var inList := Leaf(leaf.path[1..], leaf.len, leaf.value);
      assert Terms([TAGGED_HEAD]) == OnePair("struct", HEAD_TERM);
      PairLeaf("struct", HEAD_TERM, inList);
      PairKV("struct", HEAD_TERM, "struct", HEAD_TERM);
      if inList.path != [] && inList.path[0] == "struct" {
        var inHead := Leaf(inList.path[1..], leaf.len, leaf.value);
        PairLeaf("x", Num(1.0), inHead);
        PairKV("x", Num(1.0), "x", Num(1.0));
        if inHead.path != [] && inHead.path[0] == "x" {
          var inNumber := Leaf(inHead.path[1..], leaf.len, leaf.value);
          assert !B.HasLeaf(Num(1.0), inNumber);
          assert |inHead.path| == 1 ==> leaf.path == ["a", "struct", "x"];
        }
      }
    }
  }

  lemma {:induction false} RendersList()
    ensures Renders(LIST_DOC, LIST_TERM)
  {
    RendersOnePair("x", Number(1.0), Num(1.0));
    assert IsTagged(TAGGED_HEAD) && RendersObject(HEAD_DOC, TAGGED_HEAD);
    assert Renders(HEAD_DOC, TAGGED_HEAD);
    RendersOnePair("a", Arr([HEAD_DOC]), Terms([TAGGED_HEAD]));
  }

  lemma {:induction false} ListKeys()
    ensures FlatKey("", Leaf(["a"], true, 1.0)) == "a_len"
    ensures FlatKey("", Leaf(["a", "struct", "x"], false, 1.0)) == "a.struct.x"
  {
    KeyOfOne("a", true, 1.0);
    assert ["a", "struct", "x"][1..] == ["struct", "x"] && ["struct", "x"][1..] == ["x"] && ["x"][1..] == [];
    assert KeyFrom("", ["a", "struct", "x"]) == KeyFrom("a", ["struct", "x"]) == KeyFrom("a.struct", ["x"])
        == KeyFrom("a.struct.x", []);
  }

  // Full compatibility is false: an array whose first element is a tagged object loses its length in BERT,
  // and the members of that element show up under a key "struct" instead.
  lemma {:induction false} TaggedHeadLosesLength(j: Metrics, b: Metrics)
    requires JsonMapReply(Some(LIST_DOC), j) && BertMapReply(LIST_TERM, b)
    ensures Renders(LIST_DOC, LIST_TERM)
    ensures j == map["a_len" := 1.0] && b == map["a.struct.x" := 1.0]
  {
    var x, y := Leaf(["a"], true, 1.0), Leaf(["a", "struct", "x"], false, 1.0);
    forall leaf
      ensures JsonMap.HasLeaf(LIST_DOC, leaf) <==> leaf == x
      ensures B.HasLeaf(LIST_TERM, leaf) <==> leaf == y
    {
      ListDocLeaf(leaf);
      ListTermLeaf(leaf);
    }
    OneLeafJson(LIST_DOC, x, j);
    OneLeafBert(LIST_TERM, y, b);
    ListKeys();
    RendersList();
  }

  // --- An object taken for an array ---

  const ARGUMENTS_DOC := Obj(map["arguments" := Obj(map["k" := Number(1.0)])])
  const TEXT_PAIRS := Terms([Terms([Text("k"), Num(1.0)])])
  const ARGUMENTS_TERM := OnePair("arguments", TEXT_PAIRS)

  lemma {:induction false} ArgumentsDocLeaf(leaf: Leaf)
    ensures JsonMap.HasLeaf(ARGUMENTS_DOC, leaf) <==> leaf == Leaf(["arguments", "k"], false, 1.0)
  {
    HasLeafStep(ARGUMENTS_DOC, leaf);
    if leaf.path != [] && leaf.path[0] == "arguments" {
      var inside := Leaf(leaf.path[1..], leaf.len, leaf.value);
      HasLeafStep(Obj(map["k" := Number(1.0)]), inside);
      if inside.path != [] && inside.path[0] == "k" {
        HasLeafStep(Number(1.0), Leaf(inside.path[1..], leaf.len, leaf.value));
        assert |inside.path| == 1 ==> leaf.path == ["arguments", "k"];
      }
    }
  }

  lemma {:induction false} ArgumentsTermLeaf(leaf: Leaf)
    ensures B.HasLeaf(ARGUMENTS_TERM, leaf) <==> leaf == Leaf(["arguments"], true, 1.0)
  {
    PairLeaf("arguments", TEXT_PAIRS, leaf);
    assert KeyedTuple(TEXT_PAIRS.items[0]).None? && KeyedTuple(TEXT_PAIRS).None?;
    if leaf.path != [] && leaf.path[0] == "arguments" {
      assert !B.HasLeaf(TEXT_PAIRS, Leaf(leaf.path[1..], leaf.len, leaf.value));
      assert |leaf.path| == 1 ==> leaf.path == ["arguments"];
    }
  }

  lemma {:induction false} ArgumentsKeys()
    ensures FlatKey("", Leaf(["arguments"], true, 1.0)) == "arguments_len"
    ensures FlatKey("", Leaf(["arguments", "k"], false, 1.0)) == "arguments.k"
  {
    KeyOfOne("arguments", true, 1.0);
    assert ["arguments", "k"][1..] == ["k"] && ["k"][1..] == [];
    assert KeyFrom("", ["arguments", "k"]) == KeyFrom("arguments", ["k"]) == KeyFrom("arguments.k", []);
  }

  lemma {:induction false} RendersArguments()
    ensures Renders(ARGUMENTS_DOC, ARGUMENTS_TERM)
  {
    var inner := Obj(map["k" := Number(1.0)]);
    assert PairKey(TEXT_PAIRS.items[0]) == Some("k");
    assert RendersProplist(inner, TEXT_PAIRS);
    RendersOnePair("arguments", inner, TEXT_PAIRS);
  }

  // A proplist whose keys are strings is no object to the BERT parser, which counts its members instead of reading
  // them.
  lemma {:induction false} TextKeysLoseMembers(j: Metrics, b: Metrics)
    requires JsonMapReply(Some(ARGUMENTS_DOC), j) && BertMapReply(ARGUMENTS_TERM, b)
    ensures Renders(ARGUMENTS_DOC, ARGUMENTS_TERM)
    ensures j == map["arguments.k" := 1.0] && b == map["arguments_len" := 1.0]
  {
    var x, y := Leaf(["arguments", "k"], false, 1.0), Leaf(["arguments"], true, 1.0);
    forall leaf
      ensures JsonMap.HasLeaf(ARGUMENTS_DOC, leaf) <==> leaf == x
      ensures B.HasLeaf(ARGUMENTS_TERM, leaf) <==> leaf == y
    {
      ArgumentsDocLeaf(leaf);
      ArgumentsTermLeaf(leaf);
    }
    OneLeafJson(ARGUMENTS_DOC, x, j);
    OneLeafBert(ARGUMENTS_TERM, y, b);
    ArgumentsKeys();
    RendersArguments();
  }

  // --- One document, two maps ---

  const CLASH_DOC := Obj(map["a" := Arr([Number(1.0)]), "a_len" := Number(5.0)])

  lemma {:induction false} ClashLeaf(leaf: Leaf)
    ensures JsonMap.HasLeaf(CLASH_DOC, leaf) <==> leaf == Leaf(["a"], true, 1.0) || leaf == Leaf(["a_len"], false, 5.0)
  {
    HasLeafStep(CLASH_DOC, leaf);
    if leaf.path != [] && leaf.path[0] in CLASH_DOC.fields {
      HasLeafStep(CLASH_DOC.fields[leaf.path[0]], Leaf(leaf.path[1..], leaf.len, leaf.value));
      assert |leaf.path| == 1 ==> leaf.path == [leaf.path[0]];
    }
  }

  lemma {:induction false} ClashKey(leaf: Leaf)
    requires JsonMap.HasLeaf(CLASH_DOC, leaf)
    ensures FlatKey("", leaf) == "a_len"
  {
    ClashLeaf(leaf);
    KeyOfOne("a", true, 1.0);
    KeyOfOne("a_len", false, 5.0);
  }

  lemma {:induction false} ClashMap(leaf: Leaf)
    requires JsonMap.HasLeaf(CLASH_DOC, leaf)
    ensures JsonMapReply(Some(CLASH_DOC), map["a_len" := leaf.value])
  {
    var trace := TraceEndingWith(CLASH_DOC, leaf);
    ClashKey(leaf);
    forall x | x in Written(trace)
      ensures FlatKey("", x) == "a_len"
    {
      JsonMap.TraceWritesLeaves(CLASH_DOC, trace, x);
      ClashKey(x);
    }
    LastWins(map[], "", Written(trace), leaf);
    OneKey(Written(trace), "a_len", leaf.value);
  }

  // The same JSON reply can be read in two ways, with the length of an array or the number beside it.
  lemma {:induction false} OneDocumentTwoMaps()
    ensures JsonMapReply(Some(CLASH_DOC), map["a_len" := 1.0]) && JsonMapReply(Some(CLASH_DOC), map["a_len" := 5.0])
  {
    var x, y := Leaf(["a"], true, 1.0), Leaf(["a_len"], false, 5.0);
    ClashLeaf(x);
    ClashLeaf(y);
    ClashMap(x);
    ClashMap(y);
  }

  // --- A bool asked for as a string ---

  const BOOL_DOC := Obj(map["node" := Bool(true)])
  const BOOL_TERM := OnePair("node", Atom("true"))

  // A bool is no string in JSON, but its atom is one in BERT.
  lemma {:induction false} BoolIsBertString(found: Found)
    requires BertString(BOOL_TERM, "node", found)
    ensures Renders(BOOL_DOC, BOOL_TERM)
    ensures JsonString(Some(BOOL_DOC), "node") == NOT_FOUND && found == Found("true", true)
  {
    RendersOnePair("node", Bool(true), Atom("true"));
    PairKV("node", Atom("true"), "node", Atom("true"));
    RenderedString(BOOL_DOC, BOOL_TERM, "node", found);
  }

  // --- A number under a label ---

  const QUEUE_DOC := Obj(map["name" := Number(7.0)])
  const QUEUE_TERM := OnePair("name", Num(7.0))

  lemma {:induction false} NumberDropped()
    ensures Renders(QUEUE_DOC, QUEUE_TERM) && !BertKept(QUEUE_TERM, ["name"])
  {
    RendersOnePair("name", Number(7.0), Num(7.0));
    PairKV("name", Num(7.0), "name", Num(7.0));
  }

  lemma {:induction false} NumberKept(stats: seq<StatsInfo>)
    requires JsonStats([QUEUE_DOC.fields], ["name"], stats)
    ensures |stats| == 1 && stats[0].labels == map["name" := ""]
  {
    var before, out := JsonStatsLast([QUEUE_DOC.fields], ["name"], stats);
    assert Named(QUEUE_DOC.fields) && [QUEUE_DOC.fields][..0] == [];
    assert LabelText(QUEUE_DOC.fields, "name") == "";
  }

  // JSON keeps a named object whose label is a number, with an empty label; BERT drops it.
  lemma {:induction false} NumberAsLabel(j: seq<StatsInfo>, b: seq<StatsInfo>)
    requires JsonStatsReply(Some(Arr([QUEUE_DOC])), ["name"], j) && BertStatsReply(Terms([QUEUE_TERM]), ["name"], b)
    ensures Renders(QUEUE_DOC, QUEUE_TERM)
    ensures |j| == 1 && j[0].labels == map["name" := ""] && b == []
  {
    NumberDropped();
    EmptyIffNoneKept([QUEUE_TERM], ["name"], b);
    DecodedElements([QUEUE_DOC]);
    assert ElementsOf([QUEUE_DOC]) == [QUEUE_DOC.fields];
    NumberKept(j);
  }

  // --- A list with one element that is no object ---

  const NAMED_DOC := Obj(map["name" := Str("q")])
  const NAMED_TERM := OnePair("name", Text("q"))

  lemma {:induction false} NamedKept()
    ensures Renders(NAMED_DOC, NAMED_TERM) && BertKept(NAMED_TERM, ["name"])
  {
    RendersOnePair("name", Str("q"), Text("q"));
    forall key, value | HasKV(NAMED_TERM, key, value)
      ensures ParseStringy(value).Some?
    {
      PairKV("name", Text("q"), key, value);
    }
    PairKV("name", Text("q"), "name", Text("q"));
  }

  const BAD_DOCS := [Number(1.0), NAMED_DOC]
  const BAD_TERMS := [Num(1.0), NAMED_TERM]

  lemma {:induction false} AllDropped(stats: seq<StatsInfo>)
    requires JsonStatsReply(Some(Arr(BAD_DOCS)), ["name"], stats)
    ensures stats == []
  {
    assert !BAD_DOCS[0].Obj? && !BAD_DOCS[0].Null?;
    StatsOfNoList(Some(Arr(BAD_DOCS)), ["name"], stats);
  }

  lemma {:induction false} BadRendered()
    ensures RendersAll(BAD_DOCS, BAD_TERMS)
  {
    NamedKept();
    assert Renders(Number(1.0), Num(1.0)) && Renders(NAMED_DOC, NAMED_TERM);
  }

  lemma {:induction false} OneDropped(stats: seq<StatsInfo>)
    requires BertStatsReply(Terms(BAD_TERMS), ["name"], stats)
    ensures stats != []
  {
    NamedKept();
    assert BAD_TERMS[1] == NAMED_TERM;
    EmptyIffNoneKept(BAD_TERMS, ["name"], stats);
  }

  // JSON drops the whole list; BERT drops the one element.
  lemma {:induction false} OneBadElement(j: seq<StatsInfo>, b: seq<StatsInfo>)
    requires JsonStatsReply(Some(Arr(BAD_DOCS)), ["name"], j) && BertStatsReply(Terms(BAD_TERMS), ["name"], b)
    ensures RendersAll(BAD_DOCS, BAD_TERMS) && j == [] && b != []
  {
    BadRendered();
    AllDropped(j);
    OneDropped(b);
  }
}
