/** When the two reply parsers give the same list of statistics. */
module ListAgreement {
  import opened Wrappers
  import opened Decoder
  import opened JsonMap
  import opened BertMap
  import opened Rendering
  import opened Agreement

  // --- Lists of statistics, element by element ---

  function Listed(out: Option<StatsInfo>): seq<StatsInfo>
  {
    match out case Some(info) => [info] case None => []
  }

  lemma {:induction false} ListedEqual(stats: seq<StatsInfo>, x: Option<StatsInfo>, y: Option<StatsInfo>)
    requires stats + Listed(x) == stats + Listed(y)
    ensures x == y
  {
    assert (stats + Listed(x))[|stats|..] == Listed(x) && (stats + Listed(y))[|stats|..] == Listed(y);
    assert |Listed(x)| == |Listed(y)|;
    if x.Some? && y.Some? {
      assert Listed(x)[0] == x.value && Listed(y)[0] == y.value;
    }
  }

  lemma {:induction false} JsonStatsExtended(elements: seq<map<string, Doc>>, fields: map<string, Doc>,
      labels: seq<string>, stats: seq<StatsInfo>, out: Option<StatsInfo>)
    requires JsonStats(elements, labels, stats) && JsonElement(fields, labels, out)
    ensures JsonStats(elements + [fields], labels, stats + Listed(out))
  {
    if out.Some? {
      JsonStatsOneMore(elements, fields, labels, stats, out.value);
    } else {
      assert (elements + [fields])[..|elements|] == elements && stats + [] == stats;
    }
  }

  lemma {:induction false} BertStatsExtended(terms: seq<Term>, term: Term, labels: seq<string>, stats: seq<StatsInfo>,
      out: Option<StatsInfo>)
    requires BertStats(terms, labels, stats) && BertElement(term, labels, out)
    ensures BertStats(terms + [term], labels, stats + Listed(out))
  {
    if out.Some? {
      BertStatsOneMore(terms, term, labels, stats, out.value);
    } else {
      assert (terms + [term])[..|terms|] == terms && stats + [] == stats;
    }
  }

  // The last element's contribution, and the list before it.
  lemma {:induction false} JsonStatsLast(elements: seq<map<string, Doc>>, labels: seq<string>, stats: seq<StatsInfo>)
    returns (before: seq<StatsInfo>, out: Option<StatsInfo>)
    requires elements != [] && JsonStats(elements, labels, stats)
    ensures JsonStats(elements[..|elements| - 1], labels, before)
    ensures JsonElement(elements[|elements| - 1], labels, out) && stats == before + Listed(out)
  {
    if Named(elements[|elements| - 1]) {
      before, out := stats[..|stats| - 1], Some(stats[|stats| - 1]);
    } else {
      before, out := stats, None;
    }
  }

  lemma {:induction false} BertStatsLast(terms: seq<Term>, labels: seq<string>, stats: seq<StatsInfo>)
    returns (before: seq<StatsInfo>, out: Option<StatsInfo>)
    requires terms != [] && BertStats(terms, labels, stats)
    ensures BertStats(terms[..|terms| - 1], labels, before)
    ensures BertElement(terms[|terms| - 1], labels, out) && stats == before + Listed(out)
  {
    if BertKept(terms[|terms| - 1], labels) {
      before, out := stats[..|stats| - 1], Some(stats[|stats| - 1]);
    } else {
      before, out := stats, None;
    }
  }

  lemma {:induction false} SomeJsonStats(elements: seq<map<string, Doc>>, labels: seq<string>)
    returns (stats: seq<StatsInfo>)
    ensures JsonStats(elements, labels, stats)
    decreases |elements|
  {
    stats := [];
    if elements != [] {
      var front, last := elements[..|elements| - 1], elements[|elements| - 1];
      var before := SomeJsonStats(front, labels);
      var out := SomeJsonElement(Obj(last), labels);
      JsonStatsExtended(front, last, labels, before, out);
      assert elements == front + [last];
      stats := before + Listed(out);
    }
  }

  lemma {:induction false} SomeBertElement(term: Term, labels: seq<string>) returns (out: Option<StatsInfo>)
    ensures BertElement(term, labels, out)
  {
    out := None;
    if BertKept(term, labels) {
      var info, kvs := SomeBertStat(term, labels);
      out := Some(info);
    }
  }

  lemma {:induction false} SomeBertStats(terms: seq<Term>, labels: seq<string>) returns (stats: seq<StatsInfo>)
    ensures BertStats(terms, labels, stats)
    decreases |terms|
  {
    stats := [];
    if terms != [] {
      var front, last := terms[..|terms| - 1], terms[|terms| - 1];
      var before := SomeBertStats(front, labels);
      var out := SomeBertElement(last, labels);
      BertStatsExtended(front, last, labels, before, out);
      assert terms == front + [last];
      stats := before + Listed(out);
    }
  }

  // --- Equal lists ---

  ghost predicate AllSame(elements: seq<map<string, Doc>>, terms: seq<Term>, labels: seq<string>)
    requires |elements| == |terms|
  {
    forall i :: 0 <= i < |elements| ==> ElementSame(elements[i], terms[i], labels)
  }

  lemma {:induction false} SameStatistics(elements: seq<map<string, Doc>>, terms: seq<Term>, labels: seq<string>,
      j: seq<StatsInfo>, b: seq<StatsInfo>)
    requires |elements| == |terms| && AllSame(elements, terms, labels)
    requires JsonStats(elements, labels, j) && BertStats(terms, labels, b)
    ensures j == b
    decreases |elements|
  {
    if elements != [] {
      var n := |elements| - 1;
      var j0, x := JsonStatsLast(elements, labels, j);
      var b0, y := BertStatsLast(terms, labels, b);
      assert ElementSame(elements[n], terms[n], labels);
      SameStatistics(elements[..n], terms[..n], labels, j0, b0);
    }
  }

  lemma {:induction false} AllNamedKept(elements: seq<map<string, Doc>>, labels: seq<string>, stats: seq<StatsInfo>)
    requires JsonStats(elements, labels, stats) && forall i :: 0 <= i < |elements| ==> Named(elements[i])
    ensures |stats| == |elements|
    decreases |elements|
  {
    if elements != [] {
      AllNamedKept(elements[..|elements| - 1], labels, stats[..|stats| - 1]);
    }
  }

  ghost predicate CutSame(elements: seq<map<string, Doc>>, terms: seq<Term>, labels: seq<string>)
  {
    forall j, b :: JsonStats(elements, labels, j) && BertStats(terms, labels, b) ==> j == b
  }

  // Cut off anywhere, the two lists give the same.
  ghost predicate PrefixesSame(elements: seq<map<string, Doc>>, terms: seq<Term>, labels: seq<string>)
    requires |elements| == |terms|
  {
    forall n :: 0 <= n <= |elements| ==> CutSame(elements[..n], terms[..n], labels)
  }

  lemma {:induction false} NextElementSame(elements: seq<map<string, Doc>>, terms: seq<Term>, labels: seq<string>,
      fields: map<string, Doc>, term: Term)
    requires CutSame(elements, terms, labels) && CutSame(elements + [fields], terms + [term], labels)
    ensures ElementSame(fields, term, labels)
  {
    var j := SomeJsonStats(elements, labels);
    var b := SomeBertStats(terms, labels);
    forall x, y | JsonElement(fields, labels, x) && BertElement(term, labels, y)
      ensures x == y
    {
      JsonStatsExtended(elements, fields, labels, j, x);
      BertStatsExtended(terms, term, labels, b, y);
      ListedEqual(j, x, y);
    }
  }

  lemma {:induction false} PrefixesSameIff(elements: seq<map<string, Doc>>, terms: seq<Term>, labels: seq<string>)
    requires |elements| == |terms|
    ensures PrefixesSame(elements, terms, labels) <==> AllSame(elements, terms, labels)
  {
    if AllSame(elements, terms, labels) {
      forall n, j, b | 0 <= n <= |elements| && JsonStats(elements[..n], labels, j) && BertStats(terms[..n], labels, b)
        ensures j == b
      {
        SameStatistics(elements[..n], terms[..n], labels, j, b);
      }
    }
    if PrefixesSame(elements, terms, labels) {
      forall i | 0 <= i < |elements|
        ensures ElementSame(elements[i], terms[i], labels)
      {
        assert elements[..i + 1] == elements[..i] + [elements[i]] && terms[..i + 1] == terms[..i] + [terms[i]];
        assert CutSame(elements[..i], terms[..i], labels) && CutSame(elements[..i + 1], terms[..i + 1], labels);
        NextElementSame(elements[..i], terms[..i], labels, elements[i], terms[i]);
      }
    }
  }

  // --- Whole replies ---

  ghost predicate RendersAll(docs: seq<Doc>, terms: seq<Term>)
  {
    |docs| == |terms| && forall i :: 0 <= i < |docs| ==> Renders(docs[i], terms[i])
  }

  // JSON decodes a list only when each of its elements is an object or null.
  predicate AllObjects(docs: seq<Doc>)
  {
    forall i :: 0 <= i < |docs| ==> docs[i].Obj? || docs[i].Null?
  }

  function FieldsOf(doc: Doc): map<string, Doc>
  {
    if doc.Obj? then doc.fields else map[]
  }

  function ElementsOf(docs: seq<Doc>): (elements: seq<map<string, Doc>>)
    ensures |elements| == |docs| && forall i :: 0 <= i < |docs| ==> elements[i] == FieldsOf(docs[i])
  {
    seq(|docs|, i requires 0 <= i < |docs| => FieldsOf(docs[i]))
  }

  predicate AllNamed(docs: seq<Doc>)
  {
    forall i :: 0 <= i < |docs| ==> Named(FieldsOf(docs[i]))
  }

  ghost predicate ElementsAgree(docs: seq<Doc>, terms: seq<Term>, labels: seq<string>)
    requires |docs| == |terms|
  {
    forall i :: 0 <= i < |docs| ==> ElementAgrees(docs[i], terms[i], labels)
  }

  lemma {:induction false} DecodedElements(docs: seq<Doc>)
    ensures AsObjects(Some(Arr(docs))) == if AllObjects(docs) then Some(ElementsOf(docs)) else None
  {
    forall i | 0 <= i < |docs|
      ensures AsObject(Some(docs[i])).Some? <==> docs[i].Obj? || docs[i].Null?
    {
    }
    if AllObjects(docs) {
      assert AsObjects(Some(Arr(docs))).value == ElementsOf(docs);
    }
  }

  lemma {:induction false} ElementSameIff(doc: Doc, term: Term, labels: seq<string>)
    requires Renders(doc, term) && (doc.Obj? || doc.Null?)
    ensures ElementSame(FieldsOf(doc), term, labels) <==> ElementAgrees(doc, term, labels)
  {
    if doc.Obj? {
      ElementsAgreeIff(doc, term, labels);
    } else {
      assert !IsKV(term);
    }
  }

  lemma {:induction false} AllSameIff(docs: seq<Doc>, terms: seq<Term>, labels: seq<string>)
    requires RendersAll(docs, terms) && AllObjects(docs)
    ensures AllSame(ElementsOf(docs), terms, labels) <==> ElementsAgree(docs, terms, labels)
  {
    forall i | 0 <= i < |docs|
      ensures ElementSame(ElementsOf(docs)[i], terms[i], labels) <==> ElementAgrees(docs[i], terms[i], labels)
    {
      ElementSameIff(docs[i], terms[i], labels);
    }
  }

  // For every list of objects and nulls, every rendering of it and every label list with repeats, both parsers give the
  // same statistics in the same order when each element agrees, the elements both leave out included.
  lemma {:induction false} StatsAgree(docs: seq<Doc>, terms: seq<Term>, labels: seq<string>, j: seq<StatsInfo>,
      b: seq<StatsInfo>)
    requires RendersAll(docs, terms) && AllObjects(docs) && ElementsAgree(docs, terms, labels)
    requires JsonStatsReply(Some(Arr(docs)), labels, j) && BertStatsReply(Terms(terms), labels, b)
    ensures j == b && (AllNamed(docs) ==> |j| == |docs|)
  {
    DecodedElements(docs);
    AllSameIff(docs, terms, labels);
    SameStatistics(ElementsOf(docs), terms, labels, j, b);
    if AllNamed(docs) {
      AllNamedKept(ElementsOf(docs), labels, j);
    }
  }

  ghost predicate RepliesSame(docs: seq<Doc>, terms: seq<Term>, labels: seq<string>)
  {
    forall j, b :: JsonStatsReply(Some(Arr(docs)), labels, j) && BertStatsReply(Terms(terms), labels, b) ==> j == b
  }

  lemma {:induction false} RepliesSameIff(docs: seq<Doc>, terms: seq<Term>, labels: seq<string>)
    requires AllObjects(docs)
    ensures RepliesSame(docs, terms, labels) <==> CutSame(ElementsOf(docs), terms, labels)
  {
    DecodedElements(docs);
    forall j, b
      ensures JsonStatsReply(Some(Arr(docs)), labels, j) && BertStatsReply(Terms(terms), labels, b)
         <==> JsonStats(ElementsOf(docs), labels, j) && BertStats(terms, labels, b)
    {
    }
  }

  // The exact condition for lists: they agree wherever they are cut off exactly when each element agrees.
  lemma {:induction false} StatsAgreeIff(docs: seq<Doc>, terms: seq<Term>, labels: seq<string>)
    requires RendersAll(docs, terms) && AllObjects(docs)
    ensures (forall n :: 0 <= n <= |docs| ==> RepliesSame(docs[..n], terms[..n], labels))
       <==> ElementsAgree(docs, terms, labels)
  {
    forall n | 0 <= n <= |docs|
      ensures RepliesSame(docs[..n], terms[..n], labels) <==> CutSame(ElementsOf(docs)[..n], terms[..n], labels)
    {
      RepliesSameIff(docs[..n], terms[..n], labels);
      assert ElementsOf(docs[..n]) == ElementsOf(docs)[..n];
    }
    PrefixesSameIff(ElementsOf(docs), terms, labels);
    AllSameIff(docs, terms, labels);
  }

  lemma {:induction false} EmptyIffNoneKept(terms: seq<Term>, labels: seq<string>, stats: seq<StatsInfo>)
    requires BertStats(terms, labels, stats)
    ensures stats == [] <==> forall i :: 0 <= i < |terms| ==> !BertKept(terms[i], labels)
    decreases |terms|
  {
    if terms != [] && !BertKept(terms[|terms| - 1], labels) {
      EmptyIffNoneKept(terms[..|terms| - 1], labels, stats);
    }
  }

  // One element that is neither object nor null makes the JSON parser drop the whole list, but the BERT parser only
  // that element; so the lists agree exactly when the BERT parser keeps no element at all.
  lemma {:induction false} BrokenListsAgreeIff(docs: seq<Doc>, terms: seq<Term>, labels: seq<string>)
    requires !AllObjects(docs)
    ensures RepliesSame(docs, terms, labels) <==> forall i :: 0 <= i < |terms| ==> !BertKept(terms[i], labels)
  {
    DecodedElements(docs);
    var none: seq<StatsInfo> := [];
    assert JsonStatsReply(Some(Arr(docs)), labels, none);
    var some := SomeBertStats(terms, labels);
    assert BertStatsReply(Terms(terms), labels, some);
    forall b | BertStats(terms, labels, b)
      ensures b == [] <==> forall i :: 0 <= i < |terms| ==> !BertKept(terms[i], labels)
    {
      EmptyIffNoneKept(terms, labels, b);
    }
  }
}
