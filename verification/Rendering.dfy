/**
 What it means that a document and a term stand for the same reply, and when the two parsers then store the same
 numbers: bertmap.go promises parsing "fully compatible" with jsonmap.go.
 */
module Rendering {
  import opened Wrappers
  import opened Decoder
  import opened FlatKeys
  import opened JsonMap
  import B = BertMap
  import opened BertMap

  // --- How a document can be rendered as an Erlang term ---

  // The key of a two-element list headed by an atom or a string.
  function PairKey(term: Term): Option<string>
  {
    if term.Terms? && |term.items| == 2 then ParseStringy(term.items[0]) else None
  }

  predicate KeysDiffer(pairs: seq<Term>)
  {
    forall i, j :: 0 <= i < j < |pairs| ==> PairKey(pairs[i]) != PairKey(pairs[j])
  }

  predicate IsTagged(term: Term)
  {
    term.Terms? && |term.items| == 2 && term.items[0] == Atom("struct")
  }

  predicate BoolName(name: string)
  {
    name == "true" || name == "false"
  }

  // Every object may be a proplist, a map, or either of them behind {struct, _} layers, chosen object by object;
  // its keys may be atoms or strings, chosen key by key.
  ghost predicate Renders(doc: Doc, term: Term)
    decreases doc, 2, term
  {
    match doc
    case Null => term.Opaque? || (term.Atom? && !BoolName(term.name))
    case Str(text) => term == Text(text) || (term == Atom(text) && !BoolName(text))
    case Number(r) => term == Num(r)
    case Bool(b) => term == Atom(if b then "true" else "false")
    case Arr(items) =>
      term.Terms? && |term.items| == |items| && forall i :: 0 <= i < |items| ==> Renders(items[i], term.items[i])
    case Obj(_) => RendersObject(doc, term)
  }

  ghost predicate RendersObject(doc: Doc, term: Term)
    requires doc.Obj?
    decreases doc, 1, term
  {
    || RendersProplist(doc, term)
    || RendersMap(doc, term)
    || (IsTagged(term) && RendersObject(doc, term.items[1]))
  }

  ghost predicate RendersProplist(doc: Doc, term: Term)
    requires doc.Obj?
    decreases doc, 0, term
  {
    && term.Terms?
    && (forall i :: 0 <= i < |term.items| ==>
          && PairKey(term.items[i]).Some? && PairKey(term.items[i]).value in doc.fields
          && Renders(doc.fields[PairKey(term.items[i]).value], term.items[i].items[1]))
    && KeysDiffer(term.items)
    && (forall key :: key in doc.fields ==> exists i :: 0 <= i < |term.items| && PairKey(term.items[i]) == Some(key))
  }

  ghost predicate RendersMap(doc: Doc, term: Term)
    requires doc.Obj?
    decreases doc, 0, term
  {
    && term.Dict?
    && (forall k :: k in term.entries ==>
          && ParseStringy(k).Some? && ParseStringy(k).value in doc.fields
          && Renders(doc.fields[ParseStringy(k).value], term.entries[k]))
    && (forall k, l :: k in term.entries && l in term.entries && ParseStringy(k) == ParseStringy(l) ==> k == l)
    && (forall key :: key in doc.fields ==> exists k :: k in term.entries && ParseStringy(k) == Some(key))
  }

  // --- What the BERT parser can visit in a rendered object: some of its members, each at most once ---

  ghost predicate VisitsMembers(doc: Doc, term: Term)
    requires doc.Obj?
  {
    && (forall key, value :: HasKV(term, key, value) ==> key in doc.fields && Renders(doc.fields[key], value))
    && (forall key, v, w :: HasKV(term, key, v) && HasKV(term, key, w) ==> v == w)
  }

  // The parser gets to see the member.
  ghost predicate Carries(term: Term, key: string)
  {
    exists value :: HasKV(term, key, value)
  }

  lemma {:induction false} ProplistIsItsPairs(doc: Doc, term: Term)
    requires doc.Obj? && RendersProplist(doc, term) && IsKV(term)
    ensures ProplistPairs(term) == Some(term.items)
  {
    if term.items != [] {
      assert PairKey(term.items[0]).Some?;
      assert KeyedTuple(term).None?;
    }
  }

  lemma {:induction false} ProplistVisits(doc: Doc, term: Term)
    requires doc.Obj? && RendersProplist(doc, term)
    ensures VisitsMembers(doc, term)
  {
    if IsKV(term) {
      ProplistIsItsPairs(doc, term);
      forall key, value | HasKV(term, key, value)
        ensures exists i ::
                  0 <= i < |term.items| && PairKey(term.items[i]) == Some(key) && term.items[i].items[1] == value
      {
        var i :| 0 <= i < |term.items| && term.items[i] == Terms([Atom(key), value]);
        assert term.items[i].items == [Atom(key), value];
      }
    }
  }

  lemma {:induction false} MapVisits(doc: Doc, term: Term)
    requires doc.Obj? && RendersMap(doc, term)
    ensures VisitsMembers(doc, term)
    ensures forall key :: key in doc.fields ==> Carries(term, key)
  {
    forall key | key in doc.fields
      ensures Carries(term, key)
    {
      var k :| k in term.entries && ParseStringy(k) == Some(key);
      assert HasKV(term, key, term.entries[k]);
    }
  }

  lemma {:induction false} ObjectVisits(doc: Doc, term: Term)
    requires doc.Obj? && RendersObject(doc, term)
    ensures VisitsMembers(doc, term)
    decreases term
  {
    if RendersProplist(doc, term) {
      ProplistVisits(doc, term);
    } else if RendersMap(doc, term) {
      MapVisits(doc, term);
    } else {
      ObjectVisits(doc, term.items[1]);
      assert term.items == [Atom("struct"), term.items[1]];
      assert KeyedTuple(term) == Some(("struct", term.items[1]));
      assert ProplistPairs(term) == ProplistPairs(term.items[1]);
      assert forall key, value :: HasKV(term, key, value) ==> HasKV(term.items[1], key, value);
    }
  }

  // --- When the members are all seen ---

  // Atom keys in proplists, and no layers around maps.
  ghost predicate Plain(doc: Doc, term: Term)
    requires doc.Obj?
    decreases term
  {
    || (RendersProplist(doc, term) && forall i :: 0 <= i < |term.items| ==> term.items[i].items[0].Atom?)
    || RendersMap(doc, term)
    || (IsTagged(term) && term.items[1].Terms? && Plain(doc, term.items[1]))
  }

  lemma {:induction false} AtomPairs(doc: Doc, term: Term)
    requires doc.Obj? && RendersProplist(doc, term)
    requires forall i :: 0 <= i < |term.items| ==> term.items[i].items[0].Atom?
    ensures ProplistPairs(term) == Some(term.items)
  {
    assert KeyedTuple(term).None? by { assert term.items != [] ==> PairKey(term.items[0]).Some?; }
    assert term.items != [] ==> KeyedTuple(term.items[0]).Some?;
  }

  lemma {:induction false} PairIsSeen(term: Term, i: nat)
    requires term.Terms? && ProplistPairs(term) == Some(term.items)
    requires i < |term.items| && PairKey(term.items[i]).Some? && term.items[i].items[0].Atom?
    ensures Carries(term, PairKey(term.items[i]).value)
  {
    var pair, key := term.items[i], PairKey(term.items[i]).value;
    assert pair.items == [Atom(key), pair.items[1]];
    assert HasKV(term, key, pair.items[1]);
  }

  lemma {:induction false} PairsAreSeen(doc: Doc, term: Term)
    requires doc.Obj? && RendersProplist(doc, term)
    requires forall i :: 0 <= i < |term.items| ==> term.items[i].items[0].Atom?
    ensures IsKV(term) && forall key :: key in doc.fields ==> Carries(term, key)
  {
    AtomPairs(doc, term);
    forall key | key in doc.fields
      ensures Carries(term, key)
    {
      var i :| 0 <= i < |term.items| && PairKey(term.items[i]) == Some(key);
      PairIsSeen(term, i);
    }
  }

  lemma {:induction false} PlainIsSeen(doc: Doc, term: Term)
    requires doc.Obj? && Plain(doc, term)
    ensures IsKV(term) && forall key :: key in doc.fields ==> Carries(term, key)
    decreases term
  {
    if RendersProplist(doc, term) && forall i :: 0 <= i < |term.items| ==> term.items[i].items[0].Atom? {
      PairsAreSeen(doc, term);
    } else if RendersMap(doc, term) {
      MapVisits(doc, term);
    } else {
      var inside := term.items[1];
      PlainIsSeen(doc, inside);
      assert term.items == [Atom("struct"), inside];
      assert KeyedTuple(term) == Some(("struct", inside));
      assert ProplistPairs(term) == ProplistPairs(inside);
      assert forall key, value :: HasKV(inside, key, value) ==> HasKV(term, key, value);
    }
  }

  lemma {:induction false} PairIsMember(doc: Doc, term: Term, i: nat)
    requires doc.Obj? && RendersProplist(doc, term) && i < |term.items|
    ensures PairKey(term.items[i]).Some? && PairKey(term.items[i]).value in doc.fields && KeysDiffer(term.items)
  {
  }

  lemma {:induction false} SeenPairIsAtom(term: Term, i: nat)
    requires term.Terms? && ProplistPairs(term) == Some(term.items) && KeysDiffer(term.items)
    requires i < |term.items| && PairKey(term.items[i]).Some? && Carries(term, PairKey(term.items[i]).value)
    ensures term.items[i].items[0].Atom?
  {
    var key := PairKey(term.items[i]).value;
    var value :| HasKV(term, key, value);
    var j :| 0 <= j < |term.items| && term.items[j] == Terms([Atom(key), value]);
    assert term.items[j].items == [Atom(key), value] && PairKey(term.items[j]) == Some(key);
    assert i == j;
  }

  lemma {:induction false} SeenMemberIsAtom(doc: Doc, term: Term, i: nat)
    requires doc.Obj? && RendersProplist(doc, term) && IsKV(term) && i < |term.items|
    requires forall key :: key in doc.fields ==> Carries(term, key)
    ensures PairKey(term.items[i]).Some? && term.items[i].items[0].Atom?
  {
    ProplistIsItsPairs(doc, term);
    PairIsMember(doc, term, i);
    SeenPairIsAtom(term, i);
  }

  lemma {:induction false} SeenPairsAreAtoms(doc: Doc, term: Term)
    requires doc.Obj? && RendersProplist(doc, term) && IsKV(term)
    requires forall key :: key in doc.fields ==> Carries(term, key)
    ensures forall i :: 0 <= i < |term.items| ==> term.items[i].items[0].Atom?
  {
    forall i | 0 <= i < |term.items|
      ensures PairKey(term.items[i]).Some? && term.items[i].items[0].Atom?
    {
      SeenMemberIsAtom(doc, term, i);
    }
  }

  lemma {:induction false} SeenIsPlain(doc: Doc, term: Term)
    requires doc.Obj? && RendersObject(doc, term) && IsKV(term)
    requires forall key :: key in doc.fields ==> Carries(term, key)
    ensures Plain(doc, term)
    decreases term
  {
    if RendersProplist(doc, term) {
      SeenPairsAreAtoms(doc, term);
    } else if !RendersMap(doc, term) {
      var inside := term.items[1];
      assert term.items == [Atom("struct"), inside];
      assert KeyedTuple(term) == Some(("struct", inside));
      assert ProplistPairs(term) == ProplistPairs(inside);
      assert forall key, value :: HasKV(term, key, value) ==> HasKV(inside, key, value);
      forall key | key in doc.fields
        ensures Carries(inside, key)
      {
        assert Carries(term, key);
      }
      SeenIsPlain(doc, inside);
    }
  }

  // An object is readable with all its members seen exactly when its proplist keys are atoms and no map is tagged.
  lemma {:induction false} SeenIffPlain(doc: Doc, term: Term)
    requires doc.Obj? && Renders(doc, term)
    ensures Plain(doc, term) <==> IsKV(term) && forall key :: key in doc.fields ==> Carries(term, key)
  {
    if Plain(doc, term) {
      PlainIsSeen(doc, term);
    } else if IsKV(term) && forall key :: key in doc.fields ==> Carries(term, key) {
      SeenIsPlain(doc, term);
    }
  }

  // --- The exact condition for the same numbers at the same paths ---

  // The document stores nothing: no number, bool or array is reached through objects.
  predicate Leafless(doc: Doc)
  {
    JsonOwn(doc).Nothing? && (doc.Obj? ==> forall key :: key in doc.fields ==> Leafless(doc.fields[key]))
  }

  // An array must not be taken for an object, and an object inside another must be readable as one and not be the bare
  // empty list, which counts as an array.
  ghost predicate FaithfulAt(doc: Doc, value: Term)
    decreases doc, 1
  {
    match doc
    case Arr(items) => items == [] || !IsKV(value)
    case Obj(_) => IsKV(value) && value != Terms([]) && Faithful(doc, value)
    case _ => true
  }

  // The condition at every value reached through objects; a member that the parser does not see must store nothing.
  ghost predicate Faithful(doc: Doc, term: Term)
    requires doc.Obj?
    decreases doc, 0
  {
    forall key :: key in doc.fields ==>
      && (forall value :: HasKV(term, key, value) ==> FaithfulAt(doc.fields[key], value))
      && (Carries(term, key) || Leafless(doc.fields[key]))
  }

  lemma {:induction false} LeaflessHasNone(doc: Doc, leaf: Leaf)
    requires Leafless(doc)
    ensures !JsonMap.HasLeaf(doc, leaf)
    decreases doc
  {
    HasLeafStep(doc, leaf);
    if doc.Obj? && leaf.path != [] && leaf.path[0] in doc.fields {
      LeaflessHasNone(doc.fields[leaf.path[0]], Leaf(leaf.path[1..], leaf.len, leaf.value));
    }
  }

  // A member that stores something gives a leaf that starts with its key.
  lemma {:induction false} SomeLeafAt(doc: Doc, key: string) returns (leaf: Leaf)
    requires doc.Obj? && key in doc.fields && !Leafless(doc.fields[key])
    ensures JsonMap.HasLeaf(doc, leaf) && leaf.path[0] == key
    decreases doc
  {
    var member := doc.fields[key];
    match JsonOwn(member) {
      case Scalar(r) => leaf := Leaf([key], false, r);
      case Length(n) => leaf := Leaf([key], true, n as real);
      case Nothing =>
        var inner :| inner in member.fields && !Leafless(member.fields[inner]);
        var inside := SomeLeafAt(member, inner);
        leaf := Below(key, inside);
        assert inside == Leaf(leaf.path[1..], leaf.len, leaf.value) && inside.path != [];
    }
    HasLeafStep(doc, leaf);
  }

  lemma {:induction false} SameOwn(doc: Doc, value: Term)
    requires Renders(doc, value) && FaithfulAt(doc, value)
    ensures JsonOwn(doc) == BertOwn(value)
  {
  }

  lemma {:induction false} SameLeaf(doc: Doc, term: Term, leaf: Leaf)
    requires doc.Obj? && Renders(doc, term) && Faithful(doc, term)
    ensures JsonMap.HasLeaf(doc, leaf) <==> B.HasLeaf(term, leaf)
    decreases doc, 0
  {
    HasLeafStep(doc, leaf);
    ObjectVisits(doc, term);
    if leaf.path != [] && leaf.path[0] in doc.fields {
      var key := leaf.path[0];
      var tail := Leaf(leaf.path[1..], leaf.len, leaf.value);
      if Carries(term, key) {
        var value :| HasKV(term, key, value);
        SameLeafAt(doc.fields[key], value, leaf);
        assert B.HasLeaf(term, leaf) <==> LeafAt(value, leaf);
      } else {
        LeaflessHasNone(doc.fields[key], tail);
      }
    }
  }

  lemma {:induction false} NoLeafInside(doc: Doc, value: Term, leaf: Leaf)
    requires !doc.Obj? && Renders(doc, value) && FaithfulAt(doc, value)
    ensures !B.HasLeaf(value, leaf)
  {
    forall key, v
      ensures !HasKV(value, key, v)
    {
    }
  }

  lemma {:induction false} SameLeafAt(member: Doc, value: Term, leaf: Leaf)
    requires leaf.path != [] && Renders(member, value) && FaithfulAt(member, value)
    ensures LeafAt(value, leaf) <==>
            if |leaf.path| == 1 then Stores(JsonOwn(member), leaf)
            else JsonMap.HasLeaf(member, Leaf(leaf.path[1..], leaf.len, leaf.value))
    decreases member, 1
  {
    var tail := Leaf(leaf.path[1..], leaf.len, leaf.value);
    SameOwn(member, value);
    if member.Obj? {
      SameLeaf(member, value, tail);
    } else {
      NoLeafInside(member, value, tail);
      HasLeafStep(member, tail);
    }
  }

  lemma {:induction false} DifferingLeaf(doc: Doc, term: Term) returns (leaf: Leaf)
    requires doc.Obj? && Renders(doc, term) && !Faithful(doc, term)
    ensures JsonMap.HasLeaf(doc, leaf) != B.HasLeaf(term, leaf)
    decreases doc, 0
  {
    ObjectVisits(doc, term);
    var key :| key in doc.fields && !((forall value :: HasKV(term, key, value) ==> FaithfulAt(doc.fields[key], value))
                                      && (Carries(term, key) || Leafless(doc.fields[key])));
    if Carries(term, key) {
      var value :| HasKV(term, key, value);
      leaf := DifferingLeafAt(doc.fields[key], value, key);
      HasLeafStep(doc, leaf);
      assert B.HasLeaf(term, leaf) <==> LeafAt(value, leaf);
    } else {
      leaf := SomeLeafAt(doc, key);
    }
  }

  lemma {:induction false} ObjectIsListOrMap(doc: Doc, term: Term)
    requires doc.Obj? && RendersObject(doc, term)
    ensures term.Terms? || term.Dict?
  {
    if !RendersProplist(doc, term) && !RendersMap(doc, term) {
      assert IsTagged(term);
    }
  }

  lemma {:induction false} UnfaithfulIsList(member: Doc, value: Term)
    requires Renders(member, value) && !FaithfulAt(member, value)
    requires member.Arr? || !IsKV(value) || value == Terms([])
    ensures value.Terms? && BertOwn(value) != JsonOwn(member)
    ensures BertOwn(value) == Length(|value.items|) || JsonOwn(member) == Length(|value.items|)
  {
    if member.Obj? {
      ObjectIsListOrMap(member, value);
    }
  }

  lemma {:induction false} DifferingLeafAt(member: Doc, value: Term, key: string) returns (leaf: Leaf)
    requires Renders(member, value) && !FaithfulAt(member, value)
    ensures leaf.path != [] && leaf.path[0] == key
    ensures LeafAt(value, leaf) !=
            if |leaf.path| == 1 then Stores(JsonOwn(member), leaf)
            else JsonMap.HasLeaf(member, Leaf(leaf.path[1..], leaf.len, leaf.value))
    decreases member, 1
  {
    if member.Arr? || !IsKV(value) || value == Terms([]) {
      UnfaithfulIsList(member, value);
      leaf := Leaf([key], true, |value.items| as real);
      assert !B.HasLeaf(value, Leaf(leaf.path[1..], leaf.len, leaf.value));
    } else {
      var inside := DifferingLeaf(member, value);
      leaf := Below(key, inside);
      assert inside == Leaf(leaf.path[1..], leaf.len, leaf.value);
      HasLeafStep(member, inside);
      assert inside.path != [];
    }
  }

  // For every document and every rendering of it, the two parsers store the same numbers at the same paths exactly when
  // no array is taken for an object, no inner object for an array, and no member that stores something is overlooked.
  lemma {:induction false} SameLeavesIffFaithful(doc: Doc, term: Term)
    requires doc.Obj? && Renders(doc, term)
    ensures JsonLeaves(doc) == BertLeaves(term) <==> Faithful(doc, term)
  {
    if Faithful(doc, term) {
      forall leaf
        ensures leaf in JsonLeaves(doc) <==> leaf in BertLeaves(term)
      {
        SameLeaf(doc, term, leaf);
      }
    } else {
      var leaf := DifferingLeaf(doc, term);
      assert (leaf in JsonLeaves(doc)) != (leaf in BertLeaves(term));
    }
  }
}
