/** When the two reply parsers give the same: flat maps, strings, labels, and the statistics of one named object. */
module Agreement {
  import opened Wrappers
  import opened Decoder
  import opened FlatKeys
  import opened FinalWrites
  import opened JsonMap
  import B = BertMap
  import opened BertMap
  import BertOrder
  import opened Rendering

  // --- Whole maps ---

  ghost predicate JsonWrites(doc: Doc, key: string)
  {
    exists leaf :: JsonMap.HasLeaf(doc, leaf) && FlatKey("", leaf) == key
  }

  ghost predicate BertWrites(term: Term, key: string)
  {
    exists leaf :: B.HasLeaf(term, leaf) && FlatKey("", leaf) == key
  }

  // Both sides write the same flat keys, and a leaf of the document holds the same number as any leaf of the term that
  // may decide its flat key.
  ghost predicate SameNumbers(doc: Doc, term: Term)
  {
    && (forall key :: JsonWrites(doc, key) <==> BertWrites(term, key))
    && (forall x, y ::
          && JsonMap.HasLeaf(doc, x) && BertOrder.MayDecide(term, "", y) && FlatKey("", x) == FlatKey("", y)
          ==> x.value == y.value)
  }

  lemma {:induction false} JsonTraceWrites(doc: Doc, trace: seq<Visit>, key: string)
    requires JsonTrace(doc, trace)
    ensures Writes("", Written(trace), key) <==> JsonWrites(doc, key)
  {
    forall leaf
      ensures leaf in Written(trace) <==> JsonMap.HasLeaf(doc, leaf)
    {
      JsonMap.TraceWritesLeaves(doc, trace, leaf);
    }
  }

  lemma {:induction false} BertTraceWrites(term: Term, trace: seq<Visit>, key: string)
    requires BertTrace(term, trace)
    ensures Writes("", Written(trace), key) <==> BertWrites(term, key)
  {
    forall leaf
      ensures leaf in Written(trace) <==> B.HasLeaf(term, leaf)
    {
      B.TraceWritesLeaves(term, trace, leaf);
    }
  }

  lemma {:induction false} SameNumbersSameMap(doc: Doc, term: Term, s: seq<Visit>, t: seq<Visit>)
    requires JsonTrace(doc, s) && BertTrace(term, t) && SameNumbers(doc, term)
    ensures Apply(map[], "", s) == Apply(map[], "", t)
  {
    var p, q := Apply(map[], "", s), Apply(map[], "", t);
    forall key
      ensures key in p <==> key in q
      ensures key in p && key in q ==> p[key] == q[key]
    {
      JsonTraceWrites(doc, s, key);
      BertTraceWrites(term, t, key);
      if Writes("", Written(s), key) {
        var x := DecidedBy(map[], "", Written(s), key);
        var y := DecidedBy(map[], "", Written(t), key);
        JsonMap.TraceWritesLeaves(doc, s, x);
        BertOrder.FinalMayDecide(term, "", t, y);
      } else {
        NotWritten(map[], "", Written(s), key);
        NotWritten(map[], "", Written(t), key);
      }
    }
  }

  lemma {:induction false} KeyOfMap(trace: seq<Visit>, key: string)
    ensures key in Apply(map[], "", trace) <==> Writes("", Written(trace), key)
  {
    if Writes("", Written(trace), key) {
      var leaf := DecidedBy(map[], "", Written(trace), key);
    } else {
      NotWritten(map[], "", Written(trace), key);
    }
  }

  ghost predicate AllMapsAgree(doc: Doc, term: Term)
  {
    forall j, b :: JsonMapReply(Some(doc), j) && BertMapReply(term, b) ==> j == b
  }

  lemma {:induction false} AgreeingTraces(doc: Doc, term: Term, s: seq<Visit>, t: seq<Visit>)
    requires doc.Obj? && AllMapsAgree(doc, term) && JsonTrace(doc, s) && BertTrace(term, t)
    ensures Apply(map[], "", s) == Apply(map[], "", t)
  {
    assert doc == Obj(doc.fields);
    assert JsonMapReply(Some(doc), Apply(map[], "", s)) && BertMapReply(term, Apply(map[], "", t));
  }

  lemma {:induction false} AgreeingMapsSameKeys(doc: Doc, term: Term, key: string)
    requires doc.Obj? && AllMapsAgree(doc, term)
    ensures JsonWrites(doc, key) <==> BertWrites(term, key)
  {
    var s := JsonMap.SomeTrace(doc);
    var t := B.SomeTrace(term);
    AgreeingTraces(doc, term, s, t);
    KeyOfMap(s, key);
    KeyOfMap(t, key);
    JsonTraceWrites(doc, s, key);
    BertTraceWrites(term, t, key);
  }

  lemma {:induction false} AgreeingMapsSameNumber(doc: Doc, term: Term, x: Leaf, y: Leaf)
    requires doc.Obj? && AllMapsAgree(doc, term)
    requires JsonMap.HasLeaf(doc, x) && BertOrder.MayDecide(term, "", y) && FlatKey("", x) == FlatKey("", y)
    ensures x.value == y.value
  {
    var s := TraceEndingWith(doc, x);
    var t := BertOrder.TraceThatEnds(term, "", y);
    EndIsFinal("", Written(s), x);
    FinalWins(map[], "", Written(s), x);
    FinalWins(map[], "", Written(t), y);
    AgreeingTraces(doc, term, s, t);
  }

  // For every document and every term, all BERT maps equal all JSON maps, whatever the iteration orders, exactly when
  // both write the same flat keys and the leaves that may decide them hold the same numbers.
  lemma {:induction false} MapsAgreeIff(doc: Doc, term: Term)
    requires doc.Obj?
    ensures AllMapsAgree(doc, term) <==> SameNumbers(doc, term)
  {
    if SameNumbers(doc, term) {
      forall j, b | JsonMapReply(Some(doc), j) && BertMapReply(term, b)
        ensures j == b
      {
        var s :| JsonTrace(doc, s) && j == Apply(map[], "", s);
        var t :| BertTrace(term, t) && b == Apply(map[], "", t);
        SameNumbersSameMap(doc, term, s, t);
      }
    }
    if AllMapsAgree(doc, term) {
      forall key
        ensures JsonWrites(doc, key) <==> BertWrites(term, key)
      {
        AgreeingMapsSameKeys(doc, term, key);
      }
      forall x, y | JsonMap.HasLeaf(doc, x) && BertOrder.MayDecide(term, "", y) && FlatKey("", x) == FlatKey("", y)
        ensures x.value == y.value
      {
        AgreeingMapsSameNumber(doc, term, x, y);
      }
    }
  }

  // --- Faithful renderings ---

  lemma {:induction false} SameTraces(doc: Doc, term: Term, s: seq<Visit>, t: seq<Visit>)
    requires JsonLeaves(doc) == BertLeaves(term) && Unambiguous("", JsonLeaves(doc))
    requires JsonTrace(doc, s) && BertTrace(term, t)
    ensures Apply(map[], "", s) == Apply(map[], "", t)
  {
    JsonMap.TraceLists(doc, s);
    B.TraceLists(term, t);
    OrderIrrelevant(map[], "", Written(s), Written(t), JsonLeaves(doc));
  }

  lemma {:induction false} SameMap(doc: Doc, term: Term, j: Metrics, b: Metrics)
    requires doc.Obj? && JsonLeaves(doc) == BertLeaves(term) && Unambiguous("", JsonLeaves(doc))
    requires JsonMapReply(Some(doc), j) && BertMapReply(term, b)
    ensures j == b
  {
    var s :| JsonTrace(doc, s) && j == Apply(map[], "", s);
    var t :| BertTrace(term, t) && b == Apply(map[], "", t);
    SameTraces(doc, term, s, t);
  }

  // For a faithful rendering, all maps agree exactly when no flat key is written with two different numbers.
  lemma {:induction false} MapsAgreeIffUnambiguous(doc: Doc, term: Term)
    requires doc.Obj? && Renders(doc, term) && Faithful(doc, term)
    ensures AllMapsAgree(doc, term) <==> Unambiguous("", JsonLeaves(doc))
  {
    SameLeavesIffFaithful(doc, term);
    if Unambiguous("", JsonLeaves(doc)) {
      forall j, b | JsonMapReply(Some(doc), j) && BertMapReply(term, b)
        ensures j == b
      {
        SameMap(doc, term, j, b);
      }
    } else {
      var s, t := OrdersThatDiffer(doc, map[], "");
      var u := B.SomeTrace(term);
      if AllMapsAgree(doc, term) {
        AgreeingTraces(doc, term, s, u);
        AgreeingTraces(doc, term, t, u);
      }
    }
  }

  // For documents with plain member names, the conditions a caller can check on the reply are enough.
  lemma {:induction false} MapsAgree(doc: Doc, term: Term, j: Metrics, b: Metrics)
    requires doc.Obj? && Renders(doc, term) && Faithful(doc, term)
    requires PlainNames(doc) && forall path :: !LengthClash(doc, path)
    requires JsonMapReply(Some(doc), j) && BertMapReply(term, b)
    ensures j == b
  {
    UnambiguousIffNoClash(doc);
    MapsAgreeIffUnambiguous(doc, term);
  }

  lemma {:induction false} OnlyOneSide(doc: Doc, term: Term, leaf: Leaf)
    requires OneLeafPerKey(JsonLeaves(doc) + BertLeaves(term))
    requires JsonMap.HasLeaf(doc, leaf) != B.HasLeaf(term, leaf)
    ensures JsonWrites(doc, FlatKey("", leaf)) != BertWrites(term, FlatKey("", leaf))
  {
    var all := JsonLeaves(doc) + BertLeaves(term);
    assert leaf in all;
    forall other | (JsonMap.HasLeaf(doc, other) || B.HasLeaf(term, other)) && FlatKey("", other) == FlatKey("", leaf)
      ensures other == leaf
    {
      assert other in all;
    }
  }

  // When flat keys tell all the leaves of both sides apart, the maps themselves agree exactly for faithful renderings.
  lemma {:induction false} MapsAgreeIffFaithful(doc: Doc, term: Term)
    requires doc.Obj? && Renders(doc, term) && OneLeafPerKey(JsonLeaves(doc) + BertLeaves(term))
    ensures AllMapsAgree(doc, term) <==> Faithful(doc, term)
  {
    if Faithful(doc, term) {
      forall x, y | x in JsonLeaves(doc) && y in JsonLeaves(doc) && FlatKey("", x) == FlatKey("", y)
        ensures x.value == y.value
      {
        assert x in JsonLeaves(doc) + BertLeaves(term) && y in JsonLeaves(doc) + BertLeaves(term);
      }
      MapsAgreeIffUnambiguous(doc, term);
    } else {
      var leaf := DifferingLeaf(doc, term);
      OnlyOneSide(doc, term, leaf);
      MapsAgreeIff(doc, term);
    }
  }

  // --- Single strings ---

  function TextOrEmpty(value: Term): string
  {
    match ParseStringy(value) case Some(text) => text case None => ""
  }

  function Printed(value: Term): Found
  {
    match ParseStringy(value) case Some(text) => Found(text, true) case None => NOT_FOUND
  }

  lemma {:induction false} FirstTextOf(kvs: seq<KeyValue>, key: string, value: Term)
    requires (key, value) in kvs && forall v :: (key, v) in kvs ==> v == value
    ensures FirstText(kvs, key) == Printed(value)
    decreases |kvs|
  {
    assert kvs[0] == (kvs[0].0, kvs[0].1) && kvs[0] in kvs;
    if kvs[0].0 != key {
      assert kvs == [kvs[0]] + kvs[1..];
      FirstTextOf(kvs[1..], key, value);
    }
  }

  lemma {:induction false} FirstTextAbsent(kvs: seq<KeyValue>, key: string)
    requires forall i :: 0 <= i < |kvs| ==> kvs[i].0 != key
    ensures FirstText(kvs, key) == NOT_FOUND
    decreases |kvs|
  {
    if kvs != [] {
      FirstTextAbsent(kvs[1..], key);
    }
  }

  lemma {:induction false} VisitedAt(term: Term, kvs: seq<KeyValue>, i: nat)
    requires IsTraversal(term, kvs) && i < |kvs|
    ensures HasKV(term, kvs[i].0, kvs[i].1)
  {
    assert kvs[i] == (kvs[i].0, kvs[i].1) && kvs[i] in kvs;
    TraversalMembers(term, kvs, kvs[i].0, kvs[i].1);
  }

  // What the BERT parser answers for a member of a rendered object.
  lemma {:induction false} RenderedString(doc: Doc, term: Term, key: string, found: Found)
    requires doc.Obj? && Renders(doc, term) && BertString(term, key, found)
    ensures !Carries(term, key) ==> found == NOT_FOUND
    ensures forall value :: HasKV(term, key, value) ==> found == Printed(value)
  {
    ObjectVisits(doc, term);
    if IsKV(term) {
      var kvs: seq<KeyValue> :| IsTraversal(term, kvs) && found == FirstText(kvs, key);
      if Carries(term, key) {
        var value :| HasKV(term, key, value);
        TraversalMembers(term, kvs, key, value);
        forall v | (key, v) in kvs
          ensures v == value
        {
          TraversalMembers(term, kvs, key, v);
        }
        FirstTextOf(kvs, key, value);
      } else {
        forall i | 0 <= i < |kvs|
          ensures kvs[i].0 != key
        {
          VisitedAt(term, kvs, i);
        }
        FirstTextAbsent(kvs, key);
      }
    }
  }

  lemma {:induction false} SomeBertString(term: Term, key: string) returns (found: Found)
    ensures BertString(term, key, found)
  {
    found := NOT_FOUND;
    if IsKV(term) {
      var kvs := SomeTraversal(term);
      found := FirstText(kvs, key);
    }
  }

  // The member is a string or cannot be printed; one that is not seen is not a string.
  ghost predicate StringAgrees(doc: Doc, term: Term, key: string)
    requires doc.Obj?
  {
    key in doc.fields ==>
      if Carries(term, key) then doc.fields[key].Str? || forall value :: HasKV(term, key, value) ==>
        ParseStringy(value).None?
      else !doc.fields[key].Str?
  }

  // GetString agrees exactly when the member is absent, is a string that is seen, or is something else that is
  // unprintable or unseen: a bool, or a null rendered as an atom, is a string only to the BERT parser.
  lemma {:induction false} StringsAgreeIff(doc: Doc, term: Term, key: string)
    requires doc.Obj? && Renders(doc, term)
    ensures (forall found :: BertString(term, key, found) ==> found == JsonString(Some(doc), key))
       <==> StringAgrees(doc, term, key)
  {
    ObjectVisits(doc, term);
    var found := SomeBertString(term, key);
    RenderedString(doc, term, key, found);
    forall f | BertString(term, key, f)
      ensures f == found
    {
      RenderedString(doc, term, key, f);
    }
    if Carries(term, key) {
      var value :| HasKV(term, key, value);
      assert key in doc.fields && Renders(doc.fields[key], value);
      assert doc.fields[key].Str? ==> Printed(value) == Found(doc.fields[key].text, true);
    }
  }

  // --- Labels ---

  // A label that is seen reads the same on both sides.
  predicate LabelAgrees(doc: Doc, value: Term)
  {
    doc.Str? || doc.Bool? || (doc.Null? && ParseStringy(value) == Some(""))
  }

  // One that is not seen reads as the empty string.
  ghost predicate LabelAgreesAt(doc: Doc, term: Term, key: string)
    requires doc.Obj?
  {
    key in doc.fields ==>
      && (forall value :: HasKV(term, key, value) ==> LabelAgrees(doc.fields[key], value))
      && (Carries(term, key) || DocText(doc.fields[key]) == "")
  }

  ghost predicate LabelsAgree(doc: Doc, term: Term, labels: seq<string>)
    requires doc.Obj?
  {
    forall key :: key in labels ==> LabelAgreesAt(doc, term, key)
  }

  predicate AnyKey(kvs: seq<KeyValue>, key: string)
  {
    kvs != [] && (kvs[|kvs| - 1].0 == key || AnyKey(kvs[..|kvs| - 1], key))
  }

  lemma {:induction false} AnyKeyAt(kvs: seq<KeyValue>, key: string, i: nat)
    requires i < |kvs| && kvs[i].0 == key
    ensures AnyKey(kvs, key)
    decreases |kvs|
  {
    if i < |kvs| - 1 {
      AnyKeyAt(kvs[..|kvs| - 1], key, i);
    }
  }

  lemma {:induction false} AnyKeySomewhere(kvs: seq<KeyValue>, key: string) returns (i: nat)
    requires AnyKey(kvs, key)
    ensures i < |kvs| && kvs[i].0 == key
    decreases |kvs|
  {
    i := |kvs| - 1;
    if kvs[i].0 != key {
      i := AnyKeySomewhere(kvs[..|kvs| - 1], key);
    }
  }

  lemma {:induction false} LabelTextsKeys(kvs: seq<KeyValue>, labels: seq<string>)
    ensures LabelTexts(kvs, labels).Keys == set field | field in labels
    decreases |kvs|
  {
    if kvs != [] {
      LabelTextsKeys(kvs[..|kvs| - 1], labels);
    }
  }

  lemma {:induction false} LabelTextsAt(kvs: seq<KeyValue>, labels: seq<string>, key: string, value: Term)
    requires key in labels && forall i :: 0 <= i < |kvs| && kvs[i].0 == key ==> kvs[i].1 == value
    ensures key in LabelTexts(kvs, labels)
    ensures LabelTexts(kvs, labels)[key] == if AnyKey(kvs, key) then TextOrEmpty(value) else ""
    decreases |kvs|
  {
    if kvs != [] {
      LabelTextsAt(kvs[..|kvs| - 1], labels, key, value);
    }
  }

  lemma {:induction false} KeyVisited(term: Term, kvs: seq<KeyValue>, key: string)
    requires IsTraversal(term, kvs)
    ensures AnyKey(kvs, key) <==> Carries(term, key)
  {
    if AnyKey(kvs, key) {
      var i := AnyKeySomewhere(kvs, key);
      VisitedAt(term, kvs, i);
    }
    if Carries(term, key) {
      var value :| HasKV(term, key, value);
      TraversalMembers(term, kvs, key, value);
      var i :| 0 <= i < |kvs| && kvs[i] == (key, value);
      AnyKeyAt(kvs, key, i);
    }
  }

  // The text that the BERT parser saves for a label of a rendered object.
  lemma {:induction false} RenderedLabel(doc: Doc, term: Term, kvs: seq<KeyValue>, labels: seq<string>, key: string)
    requires doc.Obj? && Renders(doc, term) && IsTraversal(term, kvs) && key in labels
    ensures key in LabelTexts(kvs, labels)
    ensures !Carries(term, key) ==> LabelTexts(kvs, labels)[key] == ""
    ensures forall value :: HasKV(term, key, value) ==> LabelTexts(kvs, labels)[key] == TextOrEmpty(value)
  {
    ObjectVisits(doc, term);
    KeyVisited(term, kvs, key);
    var value := Opaque;
    if Carries(term, key) {
      value :| HasKV(term, key, value);
    }
    forall i | 0 <= i < |kvs| && kvs[i].0 == key
      ensures kvs[i].1 == value
    {
      VisitedAt(term, kvs, i);
    }
    LabelTextsAt(kvs, labels, key, value);
  }

  // Where a label can be printed in BERT, it has the JSON text exactly when LabelAgrees says so.
  lemma {:induction false} LabelTextsEqual(doc: Doc, value: Term)
    requires Renders(doc, value) && ParseStringy(value).Some?
    ensures LabelAgrees(doc, value) <==> ParseStringy(value).value == DocText(doc)
  {
    if doc.Obj? {
      ObjectIsListOrMap(doc, value);
    }
  }

  // One label has the same text on both sides exactly when it agrees.
  lemma {:induction false} LabelEqualIff(doc: Doc, term: Term, kvs: seq<KeyValue>, labels: seq<string>, key: string)
    requires doc.Obj? && Renders(doc, term) && IsTraversal(term, kvs) && LabelsReadable(term, labels)
    requires key in labels
    ensures key in LabelTexts(kvs, labels)
    ensures LabelTexts(kvs, labels)[key] == LabelText(doc.fields, key) <==> LabelAgreesAt(doc, term, key)
  {
    ObjectVisits(doc, term);
    RenderedLabel(doc, term, kvs, labels, key);
    if Carries(term, key) {
      var value :| HasKV(term, key, value);
      LabelTextsEqual(doc.fields[key], value);
    }
  }

  lemma {:induction false} LabelsEqualIff(doc: Doc, term: Term, kvs: seq<KeyValue>, labels: seq<string>)
    requires doc.Obj? && Renders(doc, term) && IsTraversal(term, kvs) && LabelsReadable(term, labels)
    ensures LabelTexts(kvs, labels) == (map field | field in labels :: LabelText(doc.fields, field))
       <==> LabelsAgree(doc, term, labels)
  {
    var texts := LabelTexts(kvs, labels);
    var wanted := map field | field in labels :: LabelText(doc.fields, field);
    LabelTextsKeys(kvs, labels);
    forall key | key in labels
      ensures texts[key] == wanted[key] <==> LabelAgreesAt(doc, term, key)
    {
      LabelEqualIff(doc, term, kvs, labels, key);
    }
    assert texts.Keys == wanted.Keys;
  }

  // --- Elements of a list ---

  ghost predicate JsonElement(fields: map<string, Doc>, labels: seq<string>, out: Option<StatsInfo>)
  {
    if Named(fields) then out.Some? && JsonStat(fields, labels, out.value) else out == None
  }

  ghost predicate BertElement(term: Term, labels: seq<string>, out: Option<StatsInfo>)
  {
    if BertKept(term, labels) then out.Some? && BertStat(term, labels, out.value) else out == None
  }

  // Whatever the iteration orders, the element contributes the same to both lists.
  ghost predicate ElementSame(fields: map<string, Doc>, term: Term, labels: seq<string>)
  {
    forall j, b :: JsonElement(fields, labels, j) && BertElement(term, labels, b) ==> j == b
  }

  // Both sides keep the element, with the same labels and numbers, or both leave it out.
  ghost predicate ElementAgrees(doc: Doc, term: Term, labels: seq<string>)
  {
    if doc.Obj? && Named(doc.fields)
    then BertKept(term, labels) && LabelsAgree(doc, term, labels) && SameNumbers(doc, term)
    else !BertKept(term, labels)
  }

  lemma {:induction false} SomeJsonElement(doc: Doc, labels: seq<string>) returns (out: Option<StatsInfo>)
    requires doc.Obj?
    ensures JsonElement(doc.fields, labels, out)
  {
    var trace := JsonMap.SomeTrace(doc);
    assert doc == Obj(doc.fields);
    var info := StatsInfo(map field | field in labels :: LabelText(doc.fields, field), Apply(map[], "", trace));
    out := if Named(doc.fields) then Some(info) else None;
  }

  lemma {:induction false} SomeBertStat(term: Term, labels: seq<string>) returns (info: StatsInfo, kvs: seq<KeyValue>)
    requires IsKV(term)
    ensures IsTraversal(term, kvs) && BertStat(term, labels, info) && info.labels == LabelTexts(kvs, labels)
  {
    kvs := SomeTraversal(term);
    var trace := SomeTraceAlong(term, kvs, |kvs|);
    assert kvs[..|kvs|] == kvs;
    info := StatsInfo(LabelTexts(kvs, labels), Apply(map[], "", trace));
  }

  lemma {:induction false} BertStatLabels(term: Term, labels: seq<string>, info: StatsInfo)
    returns (kvs: seq<KeyValue>)
    requires BertStat(term, labels, info)
    ensures IsTraversal(term, kvs) && info.labels == LabelTexts(kvs, labels)
  {
    var kvs', trace: seq<Visit> :|
      IsTraversal(term, kvs') && TraceAlong(term, kvs', trace)
      && info == StatsInfo(LabelTexts(kvs', labels), Apply(map[], "", trace));
    kvs := kvs';
  }

  lemma {:induction false} SameElement(doc: Doc, term: Term, labels: seq<string>, j: StatsInfo, b: StatsInfo)
    requires doc.Obj? && Renders(doc, term) && BertKept(term, labels)
    requires LabelsAgree(doc, term, labels) && SameNumbers(doc, term)
    requires JsonStat(doc.fields, labels, j) && BertStat(term, labels, b)
    ensures j == b
  {
    assert doc == Obj(doc.fields);
    var kvs := BertStatLabels(term, labels, b);
    LabelsEqualIff(doc, term, kvs, labels);
    MapsAgreeIff(doc, term);
    StatTrace(term, labels, b);
    assert JsonMapReply(Some(doc), j.metrics);
  }

  lemma {:induction false} DifferingElements(doc: Doc, term: Term, labels: seq<string>)
    returns (j: StatsInfo, b: StatsInfo)
    requires doc.Obj? && Renders(doc, term) && BertKept(term, labels) && Named(doc.fields)
    requires !LabelsAgree(doc, term, labels) || !SameNumbers(doc, term)
    ensures JsonStat(doc.fields, labels, j) && BertStat(term, labels, b) && j != b
  {
    if !LabelsAgree(doc, term, labels) {
      var out := SomeJsonElement(doc, labels);
      var kvs;
      j := out.value;
      b, kvs := SomeBertStat(term, labels);
      LabelsEqualIff(doc, term, kvs, labels);
    } else {
      MapsAgreeIff(doc, term);
      var p, q :| JsonMapReply(Some(doc), p) && BertMapReply(term, q) && p != q;
      assert doc == Obj(doc.fields);
      j := StatsInfo(map field | field in labels :: LabelText(doc.fields, field), p);
      ObjectMetricsAreGeneric(term, labels, q);
      b :| BertStat(term, labels, b) && b.metrics == q;
    }
  }

  // For every object, every rendering of it and every label list, the element contributes the same to both lists
  // exactly when both keep it with the same labels and numbers, or both leave it out.
  lemma {:induction false} ElementsAgreeIff(doc: Doc, term: Term, labels: seq<string>)
    requires doc.Obj? && Renders(doc, term)
    ensures ElementSame(doc.fields, term, labels) <==> ElementAgrees(doc, term, labels)
  {
    var j := SomeJsonElement(doc, labels);
    if !BertKept(term, labels) {
      assert BertElement(term, labels, None);
    } else if !Named(doc.fields) {
      var info, kvs := SomeBertStat(term, labels);
      assert BertElement(term, labels, Some(info));
    } else if ElementAgrees(doc, term, labels) {
      forall j, b | JsonElement(doc.fields, labels, j) && BertElement(term, labels, b)
        ensures j == b
      {
        SameElement(doc, term, labels, j.value, b.value);
      }
    } else {
      var x, y := DifferingElements(doc, term, labels);
      assert JsonElement(doc.fields, labels, Some(x)) && BertElement(term, labels, Some(y));
    }
  }

  // What a caller can check on one named element of a reply; it is enough.
  ghost predicate Compatible(doc: Doc, term: Term, labels: seq<string>)
  {
    && doc.Obj? && Renders(doc, term) && IsKV(term) && Faithful(doc, term)
    && PlainNames(doc) && (forall path :: !LengthClash(doc, path))
    && Named(doc.fields) && LabelsAgree(doc, term, labels)
  }

  lemma {:induction false} CompatibleAgrees(doc: Doc, term: Term, labels: seq<string>)
    requires Compatible(doc, term, labels)
    ensures ElementAgrees(doc, term, labels)
  {
    ObjectVisits(doc, term);
    forall key, value | HasKV(term, key, value) && key in labels
      ensures ParseStringy(value).Some?
    {
      assert LabelAgreesAt(doc, term, key);
      assert LabelAgrees(doc.fields[key], value) && Renders(doc.fields[key], value);
    }
    UnambiguousIffNoClash(doc);
    MapsAgreeIffUnambiguous(doc, term);
    MapsAgreeIff(doc, term);
  }
}
