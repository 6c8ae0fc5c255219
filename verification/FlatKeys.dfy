/**
 The dotted keys that both reply parsers write into a flat metric map,
 and the record of the writes one parse makes.
 */
module FlatKeys {
  import opened Decoder
  import opened Strings

  // What a parser stores for one value itself, before it descends into it.
  datatype Own = Nothing | Scalar(value: real) | Length(size: nat)

  // One visited key: what was stored for its value, and what was then visited inside that value.
  datatype Visit = Visit(key: string, own: Own, inner: seq<Visit>)

  // One write into the flat map: the key path below the root, whether it is an array length, and the number.
  datatype Leaf = Leaf(path: seq<string>, len: bool, value: real)

  predicate Stores(own: Own, leaf: Leaf)
  {
    match own
    case Nothing => false
    case Scalar(r) => !leaf.len && leaf.value == r
    case Length(n) => leaf.len && leaf.value == n as real
  }

  function OwnLeaves(key: string, own: Own): seq<Leaf>
  {
    match own
    case Nothing => []
    case Scalar(r) => [Leaf([key], false, r)]
    case Length(n) => [Leaf([key], true, n as real)]
  }

  function Below(key: string, leaf: Leaf): Leaf
  {
    Leaf([key] + leaf.path, leaf.len, leaf.value)
  }

  function AllBelow(key: string, leaves: seq<Leaf>): (below: seq<Leaf>)
    ensures |below| == |leaves|
    ensures forall i :: 0 <= i < |leaves| ==> below[i] == Below(key, leaves[i])
  {
    if leaves == [] then []
    else AllBelow(key, leaves[..|leaves| - 1]) + [Below(key, leaves[|leaves| - 1])]
  }

  function WrittenAt(visit: Visit): seq<Leaf>
    decreases visit
  {
    OwnLeaves(visit.key, visit.own) + AllBelow(visit.key, Written(visit.inner))
  }

  // The writes of a whole traversal, in the order they are made.
  function Written(trace: seq<Visit>): seq<Leaf>
    decreases trace
  {
    if trace == [] then []
    else Written(trace[..|trace| - 1]) + WrittenAt(trace[|trace| - 1])
  }

  // The flat key of a member of the object that sits at basename.
  function Join(basename: string, key: string): string
  {
    if basename != "" then basename + "." + key else key
  }

  function KeyFrom(basename: string, path: seq<string>): string
    decreases |path|
  {
    if path == [] then basename else KeyFrom(Join(basename, path[0]), path[1..])
  }

  function FlatKey(basename: string, leaf: Leaf): string
  {
    KeyFrom(basename, leaf.path) + if leaf.len then "_len" else ""
  }

  // The map after a sequence of writes; a later write to the same flat key wins.
  function WriteAll(m: Metrics, basename: string, leaves: seq<Leaf>): Metrics
  {
    if leaves == [] then m
    else
      var last := leaves[|leaves| - 1];
      WriteAll(m, basename, leaves[..|leaves| - 1])[FlatKey(basename, last) := last.value]
  }

  function Apply(m: Metrics, basename: string, trace: seq<Visit>): Metrics
  {
    WriteAll(m, basename, Written(trace))
  }

  lemma {:induction false} WriteAllConcat(m: Metrics, basename: string, xs: seq<Leaf>, ys: seq<Leaf>)
    ensures WriteAll(m, basename, xs + ys) == WriteAll(WriteAll(m, basename, xs), basename, ys)
    decreases |ys|
  {
    var all := xs + ys;
    if ys == [] {
      assert all == xs;
    } else {
      assert all[..|all| - 1] == xs + ys[..|ys| - 1];
      WriteAllConcat(m, basename, xs, ys[..|ys| - 1]);
    }
  }

  // Writing below a key is writing with that key joined to the basename.
  lemma {:induction false} WriteAllBelow(m: Metrics, basename: string, key: string, leaves: seq<Leaf>)
    ensures WriteAll(m, basename, AllBelow(key, leaves)) == WriteAll(m, Join(basename, key), leaves)
  {
    if leaves != [] {
      var last := leaves[|leaves| - 1];
      assert Below(key, last).path[1..] == last.path;
      assert FlatKey(basename, Below(key, last)) == FlatKey(Join(basename, key), last);
      WriteAllBelow(m, basename, key, leaves[..|leaves| - 1]);
      var below := AllBelow(key, leaves);
      assert below[..|below| - 1] == AllBelow(key, leaves[..|leaves| - 1]);
    }
  }

  // The effect of one visit: first what the value stores itself, then everything inside it.
  function Step(m: Metrics, basename: string, visit: Visit): Metrics
  {
    var here := Join(basename, visit.key);
    var stored := match visit.own
      case Nothing => m
      case Scalar(r) => m[here := r]
      case Length(n) => m[here + "_len" := n as real];
    Apply(stored, here, visit.inner)
  }

  lemma {:induction false} WriteOne(m: Metrics, basename: string, key: string, len: bool, value: real)
    ensures WriteAll(m, basename, [Leaf([key], len, value)])
         == m[Join(basename, key) + (if len then "_len" else "") := value]
  {
    var leaf := Leaf([key], len, value);
    assert leaf.path[1..] == [];
    assert KeyFrom(basename, leaf.path) == Join(basename, key);
    var leaves := [leaf];
    assert leaves[..0] == [];
    assert WriteAll(m, basename, leaves) == WriteAll(m, basename, leaves[..0])[FlatKey(basename, leaf) := value];
  }

  lemma {:induction false} ApplyOneMore(m: Metrics, basename: string, trace: seq<Visit>, visit: Visit)
    ensures Apply(m, basename, trace + [visit]) == Step(Apply(m, basename, trace), basename, visit)
  {
    var longer := trace + [visit];
    assert longer[..|longer| - 1] == trace;
    WriteAllConcat(m, basename, Written(trace), WrittenAt(visit));
    var before := Apply(m, basename, trace);
    var own := OwnLeaves(visit.key, visit.own);
    WriteAllConcat(before, basename, own, AllBelow(visit.key, Written(visit.inner)));
    WriteAllBelow(WriteAll(before, basename, own), basename, visit.key, Written(visit.inner));
    match visit.own
    case Nothing =>
    case Scalar(r) =>
      WriteOne(before, basename, visit.key, false, r);
      assert Join(basename, visit.key) + "" == Join(basename, visit.key);
    case Length(n) =>
      WriteOne(before, basename, visit.key, true, n as real);
  }

  // The writes of a trace are exactly those of its visits.
  ghost predicate InTrace(trace: seq<Visit>, leaf: Leaf)
  {
    exists i :: 0 <= i < |trace| && leaf in WrittenAt(trace[i])
  }

  lemma {:induction false} InLongerTrace(front: seq<Visit>, last: Visit, leaf: Leaf)
    ensures InTrace(front + [last], leaf) <==> InTrace(front, leaf) || leaf in WrittenAt(last)
  {
    var trace := front + [last];
    assert trace[|front|] == last;
    if InTrace(front, leaf) {
      var i :| 0 <= i < |front| && leaf in WrittenAt(front[i]);
      assert trace[i] == front[i];
    }
  }

  lemma {:induction false} WrittenMembers(trace: seq<Visit>, leaf: Leaf)
    ensures leaf in Written(trace) <==> InTrace(trace, leaf)
    decreases |trace|
  {
    if trace != [] {
      var front, last := trace[..|trace| - 1], trace[|trace| - 1];
      WrittenMembers(front, leaf);
      assert trace == front + [last];
      InLongerTrace(front, last, leaf);
    }
  }

  lemma {:induction false} WrittenAtMembers(visit: Visit, leaf: Leaf)
    ensures leaf in WrittenAt(visit) <==>
            && leaf.path != [] && leaf.path[0] == visit.key
            && if |leaf.path| == 1 && Stores(visit.own, leaf) then true
               else Leaf(leaf.path[1..], leaf.len, leaf.value) in Written(visit.inner)
  {
    var inner := Written(visit.inner);
    var below := AllBelow(visit.key, inner);
    if leaf.path != [] && leaf.path[0] == visit.key {
      var tail := Leaf(leaf.path[1..], leaf.len, leaf.value);
      assert leaf.path == [visit.key] + tail.path;
      assert leaf == Below(visit.key, tail);
      if tail in inner {
        var i :| 0 <= i < |inner| && inner[i] == tail;
        assert below[i] == leaf;
      }
      if leaf in below {
        var i :| 0 <= i < |below| && below[i] == leaf;
        assert below[i] == Below(visit.key, inner[i]);
        assert inner[i].path == leaf.path[1..];
      }
      if |leaf.path| == 1 {
        assert leaf.path == [visit.key];
      }
    }
  }

  predicate VisitsKey(trace: seq<Visit>, key: string)
  {
    exists i :: 0 <= i < |trace| && trace[i].key == key
  }

  predicate DistinctKeys(trace: seq<Visit>)
  {
    forall i, j :: 0 <= i < j < |trace| ==> trace[i].key != trace[j].key
  }

  // A leaf is written by a visit of its first key, so by that one visit when keys are distinct.
  lemma {:induction false} WrittenByKey(trace: seq<Visit>, leaf: Leaf, i: nat)
    requires DistinctKeys(trace) && leaf.path != []
    requires i < |trace| && trace[i].key == leaf.path[0]
    ensures leaf in Written(trace) <==> leaf in WrittenAt(trace[i])
  {
    WrittenMembers(trace, leaf);
    if leaf in Written(trace) {
      var j :| 0 <= j < |trace| && leaf in WrittenAt(trace[j]);
      WrittenAtMembers(trace[j], leaf);
    }
  }

  lemma {:induction false} WrittenNowhere(trace: seq<Visit>, leaf: Leaf)
    requires leaf.path == [] || !VisitsKey(trace, leaf.path[0])
    ensures leaf !in Written(trace)
  {
    WrittenMembers(trace, leaf);
    if leaf in Written(trace) {
      var j :| 0 <= j < |trace| && leaf in WrittenAt(trace[j]);
      WrittenAtMembers(trace[j], leaf);
    }
  }

  lemma {:induction false} WrittenByScalar(visit: Visit, leaf: Leaf)
    requires leaf.path == [visit.key] && Stores(visit.own, leaf) && visit.inner == []
    ensures WrittenAt(visit) == [leaf]
  {
    assert OwnLeaves(visit.key, visit.own) == [leaf];
    assert AllBelow(visit.key, Written(visit.inner)) == [];
  }

  predicate EndsWith(leaves: seq<Leaf>, leaf: Leaf)
  {
    leaves != [] && leaves[|leaves| - 1] == leaf
  }

  lemma {:induction false} VisitEndsWith(visit: Visit, leaf: Leaf)
    requires leaf.path != [] && leaf.path[0] == visit.key
    requires if |leaf.path| == 1 then Stores(visit.own, leaf) && visit.inner == []
             else EndsWith(Written(visit.inner), Leaf(leaf.path[1..], leaf.len, leaf.value))
    ensures EndsWith(WrittenAt(visit), leaf)
  {
    if |leaf.path| == 1 {
      assert leaf.path == [visit.key];
      WrittenByScalar(visit, leaf);
    } else {
      assert leaf.path == [visit.key] + leaf.path[1..];
    }
  }

  lemma {:induction false} LastWins(m: Metrics, basename: string, leaves: seq<Leaf>, leaf: Leaf)
    requires EndsWith(leaves, leaf)
    ensures var key := FlatKey(basename, leaf);
            key in WriteAll(m, basename, leaves) && WriteAll(m, basename, leaves)[key] == leaf.value
  {
  }

  // --- Which keys a sequence of writes touches, and who wins ---

  // The last write to a flat key, or -1.
  function LastWrite(basename: string, leaves: seq<Leaf>, key: string): (i: int)
    ensures -1 <= i < |leaves|
    ensures i >= 0 ==> FlatKey(basename, leaves[i]) == key
    ensures forall j :: i < j < |leaves| ==> FlatKey(basename, leaves[j]) != key
  {
    if leaves == [] then -1
    else if FlatKey(basename, leaves[|leaves| - 1]) == key then |leaves| - 1
    else LastWrite(basename, leaves[..|leaves| - 1], key)
  }

  lemma {:induction false} WriteAllAt(m: Metrics, basename: string, leaves: seq<Leaf>, key: string)
    ensures var m' := WriteAll(m, basename, leaves);
            var i := LastWrite(basename, leaves, key);
            if i >= 0 then key in m' && m'[key] == leaves[i].value
            else (key in m' <==> key in m) && (key in m ==> m'[key] == m[key])
    decreases |leaves|
  {
    if leaves != [] {
      WriteAllAt(m, basename, leaves[..|leaves| - 1], key);
    }
  }

  // No two leaves share a flat key.
  ghost predicate OneLeafPerKey(leaves: iset<Leaf>)
  {
    forall x, y :: x in leaves && y in leaves && FlatKey("", x) == FlatKey("", y) ==> x == y
  }

  // No flat key is written with two different numbers.
  ghost predicate Unambiguous(basename: string, leaves: iset<Leaf>)
  {
    forall x, y :: x in leaves && y in leaves && FlatKey(basename, x) == FlatKey(basename, y) ==> x.value == y.value
  }

  ghost predicate Lists(leaves: seq<Leaf>, wanted: iset<Leaf>)
  {
    forall leaf :: leaf in leaves <==> leaf in wanted
  }

  // Two orders of the same unambiguous writes leave the same map.
  lemma {:induction false} OrderIrrelevant(m: Metrics, basename: string, xs: seq<Leaf>, ys: seq<Leaf>,
      wanted: iset<Leaf>)
    requires Lists(xs, wanted) && Lists(ys, wanted) && Unambiguous(basename, wanted)
    ensures WriteAll(m, basename, xs) == WriteAll(m, basename, ys)
  {
    var p, q := WriteAll(m, basename, xs), WriteAll(m, basename, ys);
    forall key
      ensures key in p <==> key in q
      ensures key in p && key in q ==> p[key] == q[key]
    {
      WriteAllAt(m, basename, xs, key);
      WriteAllAt(m, basename, ys, key);
      var i, j := LastWrite(basename, xs, key), LastWrite(basename, ys, key);
      if i >= 0 {
        assert xs[i] in xs && xs[i] in ys && xs[i] in wanted;
      }
      if j >= 0 {
        assert ys[j] in ys && ys[j] in xs && ys[j] in wanted;
      }
    }
  }

  // --- Framing: writes below a non-empty basename ---

  lemma {:induction false} KeyFromPrefix(basename: string, path: seq<string>)
    requires basename != "" && path != []
    ensures basename + "." <= KeyFrom(basename, path)
    decreases |path|
  {
    if |path| > 1 {
      KeyFromPrefix(Join(basename, path[0]), path[1..]);
    }
  }

  // Flattening never removes an entry, and under a non-empty basename it changes only keys that begin with "basename.".
  lemma {:induction false} FlatteningFramed(m: Metrics, basename: string, trace: seq<Visit>, key: string)
    ensures key in m ==> key in Apply(m, basename, trace)
    ensures basename != "" && !(basename + "." <= key) ==>
              && (key in Apply(m, basename, trace) <==> key in m)
              && (key in m ==> Apply(m, basename, trace)[key] == m[key])
  {
    var leaves := Written(trace);
    WriteAllAt(m, basename, leaves, key);
    var i := LastWrite(basename, leaves, key);
    if i >= 0 {
      assert leaves[i] in leaves;
      if leaves[i].path == [] {
        WrittenNowhere(trace, leaves[i]);
      } else if basename != "" {
        KeyFromPrefix(basename, leaves[i].path);
      }
    }
  }

  // --- Keys that can be told apart again ---

  predicate PlainKey(key: string)
  {
    key != "" && '.' !in key
  }

  predicate PlainPath(path: seq<string>)
  {
    path != [] && forall i :: 0 <= i < |path| ==> PlainKey(path[i])
  }

  lemma {:induction false} KeyFromJoin(basename: string, path: seq<string>)
    requires PlainPath(path)
    ensures KeyFrom(basename, path) == Join(basename, KeyFrom("", path))
    ensures KeyFrom("", path) != ""
    decreases |path|
  {
    if |path| > 1 {
      var next := path[1..];
      KeyFromJoin(Join(basename, path[0]), next);
      KeyFromJoin(path[0], next);
      var rest := KeyFrom("", next);
      assert KeyFrom("", path) == path[0] + "." + rest;
      if basename != "" {
        assert basename + "." + path[0] + "." + rest == basename + "." + (path[0] + "." + rest);
      }
    }
  }

  // Splitting a flat key at the dots recovers the path it was made from.
  lemma {:induction false} SplitRecoversPath(path: seq<string>)
    requires PlainPath(path)
    ensures Split(KeyFrom("", path), '.') == path
    decreases |path|
  {
    var head, next := path[0], path[1..];
    SplitWithoutSeparator(head, '.');
    if |path| == 1 {
      assert KeyFrom("", path) == head;
      assert path == [head];
    } else {
      KeyFromJoin(head, next);
      SplitJoined(head, '.', KeyFrom("", next));
      assert KeyFrom("", path) == head + ['.'] + KeyFrom("", next);
      SplitRecoversPath(next);
      assert path == [head] + next;
    }
  }

  // The path whose dotted form is the leaf's flat key, the length suffix included.
  function SuffixedPath(leaf: Leaf): seq<string>
    requires leaf.path != []
  {
    var last := |leaf.path| - 1;
    if leaf.len then leaf.path[..last] + [leaf.path[last] + "_len"] else leaf.path
  }

  lemma {:induction false} KeyFromSuffixed(basename: string, path: seq<string>, suffix: string)
    requires path != []
    ensures KeyFrom(basename, path) + suffix
         == KeyFrom(basename, path[..|path| - 1] + [path[|path| - 1] + suffix])
    decreases |path|
  {
    var suffixed := path[..|path| - 1] + [path[|path| - 1] + suffix];
    if |path| == 1 {
      assert suffixed[1..] == [] && path[1..] == [];
    } else {
      KeyFromSuffixed(Join(basename, path[0]), path[1..], suffix);
      assert suffixed[1..] == path[1..][..|path| - 2] + [path[|path| - 1] + suffix];
    }
  }

  lemma {:induction false} FlatKeyRecovers(leaf: Leaf)
    requires PlainPath(leaf.path)
    ensures Split(FlatKey("", leaf), '.') == SuffixedPath(leaf)
  {
    var suffixed := SuffixedPath(leaf);
    if leaf.len {
      KeyFromSuffixed("", leaf.path, "_len");
      assert PlainKey(leaf.path[|leaf.path| - 1] + "_len");
    }
    assert KeyFrom("", suffixed) == FlatKey("", leaf);
    SplitRecoversPath(suffixed);
  }

  lemma {:induction false} FlatKeyFromSuffixed(leaf: Leaf)
    requires leaf.path != []
    ensures FlatKey("", leaf) == KeyFrom("", SuffixedPath(leaf))
  {
    if leaf.len {
      KeyFromSuffixed("", leaf.path, "_len");
    }
  }

  lemma {:induction false} SameStem(a: string, b: string, suffix: string)
    requires a + suffix == b + suffix
    ensures a == b
  {
    assert |a| == |b|;
    assert a == (a + suffix)[..|a|] == (b + suffix)[..|b|] == b;
  }

  lemma {:induction false} SuffixedPathInjective(x: Leaf, y: Leaf)
    requires x.path != [] && y.path != [] && x.len == y.len
    requires SuffixedPath(x) == SuffixedPath(y)
    ensures x.path == y.path
  {
    if x.len {
      var n := |x.path| - 1;
      assert |SuffixedPath(x)| == n + 1 && |SuffixedPath(y)| == |y.path|;
      assert x.path[n] + "_len" == SuffixedPath(x)[n] == y.path[n] + "_len";
      SameStem(x.path[n], y.path[n], "_len");
      forall i | 0 <= i < n
        ensures x.path[i] == y.path[i]
      {
        assert x.path[i] == SuffixedPath(x)[i] == SuffixedPath(y)[i] == y.path[i];
      }
    }
  }

  // Two leaves share a flat key exactly when their suffixed paths are the same; so two leaves of one kind
  // never do unless their paths are the same.
  lemma {:induction false} FlatKeyInjective(x: Leaf, y: Leaf)
    requires PlainPath(x.path) && PlainPath(y.path)
    ensures FlatKey("", x) == FlatKey("", y) <==> SuffixedPath(x) == SuffixedPath(y)
    ensures FlatKey("", x) == FlatKey("", y) && x.len == y.len ==> x.path == y.path
  {
    FlatKeyRecovers(x);
    FlatKeyRecovers(y);
    FlatKeyFromSuffixed(x);
    FlatKeyFromSuffixed(y);
    if SuffixedPath(x) == SuffixedPath(y) && x.len == y.len {
      SuffixedPathInjective(x, y);
    }
  }
}
