/** The write that has the last word on a flat key, in a sequence of writes and in the trace of a parse. */
module FinalWrites {
  import opened Decoder
  import opened FlatKeys

  ghost predicate NotWrittenFrom(basename: string, leaves: seq<Leaf>, n: int, key: string)
  {
    forall j :: 0 <= n <= j < |leaves| ==> FlatKey(basename, leaves[j]) != key
  }

  // The leaf is written, and nothing written after it has its flat key.
  ghost predicate Final(basename: string, leaves: seq<Leaf>, leaf: Leaf)
  {
    exists i :: 0 <= i < |leaves| && leaves[i] == leaf
        && NotWrittenFrom(basename, leaves, i + 1, FlatKey(basename, leaf))
  }

  ghost predicate Writes(basename: string, leaves: seq<Leaf>, key: string)
  {
    exists leaf :: leaf in leaves && FlatKey(basename, leaf) == key
  }

  // A final leaf decides what its flat key holds.
  lemma {:induction false} FinalWins(m: Metrics, basename: string, leaves: seq<Leaf>, leaf: Leaf)
    requires Final(basename, leaves, leaf)
    ensures var key := FlatKey(basename, leaf);
            key in WriteAll(m, basename, leaves) && WriteAll(m, basename, leaves)[key] == leaf.value
  {
    WriteAllAt(m, basename, leaves, FlatKey(basename, leaf));
  }

  // What a written flat key holds was decided by a final leaf.
  lemma {:induction false} DecidedBy(m: Metrics, basename: string, leaves: seq<Leaf>, key: string)
    returns (leaf: Leaf)
    requires Writes(basename, leaves, key)
    ensures Final(basename, leaves, leaf) && FlatKey(basename, leaf) == key
    ensures key in WriteAll(m, basename, leaves) && WriteAll(m, basename, leaves)[key] == leaf.value
  {
    WriteAllAt(m, basename, leaves, key);
    leaf := leaves[LastWrite(basename, leaves, key)];
  }

  // A flat key that nothing wrote is as it was.
  lemma {:induction false} NotWritten(m: Metrics, basename: string, leaves: seq<Leaf>, key: string)
    requires !Writes(basename, leaves, key)
    ensures key in WriteAll(m, basename, leaves) <==> key in m
    ensures key in m ==> WriteAll(m, basename, leaves)[key] == m[key]
  {
    WriteAllAt(m, basename, leaves, key);
    assert forall i :: 0 <= i < |leaves| ==> leaves[i] in leaves;
  }

  // When every write goes to one flat key, that key is all there is.
  lemma {:induction false} OneKey(leaves: seq<Leaf>, key: string, value: real)
    requires forall leaf :: leaf in leaves ==> FlatKey("", leaf) == key
    requires key in WriteAll(map[], "", leaves) && WriteAll(map[], "", leaves)[key] == value
    ensures WriteAll(map[], "", leaves) == map[key := value]
  {
    forall other | other != key
      ensures other !in WriteAll(map[], "", leaves)
    {
      NotWritten(map[], "", leaves, other);
    }
  }

  lemma {:induction false} FinalInSecond(basename: string, xs: seq<Leaf>, ys: seq<Leaf>, leaf: Leaf)
    requires Final(basename, ys, leaf)
    ensures Final(basename, xs + ys, leaf)
  {
    var key := FlatKey(basename, leaf);
    var i :| 0 <= i < |ys| && ys[i] == leaf && NotWrittenFrom(basename, ys, i + 1, key);
    assert (xs + ys)[|xs| + i] == leaf && NotWrittenFrom(basename, xs + ys, |xs| + i + 1, key);
  }

  lemma {:induction false} FinalInFirst(basename: string, xs: seq<Leaf>, ys: seq<Leaf>, leaf: Leaf)
    requires Final(basename, xs, leaf) && !Writes(basename, ys, FlatKey(basename, leaf))
    ensures Final(basename, xs + ys, leaf)
  {
    var key := FlatKey(basename, leaf);
    var i :| 0 <= i < |xs| && xs[i] == leaf && NotWrittenFrom(basename, xs, i + 1, key);
    assert forall j :: 0 <= j < |ys| ==> ys[j] in ys;
    assert (xs + ys)[i] == leaf && NotWrittenFrom(basename, xs + ys, i + 1, key);
  }

  lemma {:induction false} FinalInWhole(basename: string, xs: seq<Leaf>, ys: seq<Leaf>, leaf: Leaf)
    requires Final(basename, xs + ys, leaf)
    ensures Final(basename, ys, leaf) || (Final(basename, xs, leaf) && !Writes(basename, ys, FlatKey(basename, leaf)))
  {
    var all, key := xs + ys, FlatKey(basename, leaf);
    var i :| 0 <= i < |all| && all[i] == leaf && NotWrittenFrom(basename, all, i + 1, key);
    assert forall j :: 0 <= j < |ys| ==> ys[j] == all[|xs| + j];
    assert forall j :: 0 <= j < |xs| ==> xs[j] == all[j];
    if i < |xs| {
      assert xs[i] == leaf && NotWrittenFrom(basename, xs, i + 1, key);
    } else {
      assert ys[i - |xs|] == leaf && NotWrittenFrom(basename, ys, i - |xs| + 1, key);
    }
  }

  lemma {:induction false} FinalConcat(basename: string, xs: seq<Leaf>, ys: seq<Leaf>, leaf: Leaf)
    ensures Final(basename, xs + ys, leaf) <==>
            Final(basename, ys, leaf) || (Final(basename, xs, leaf) && !Writes(basename, ys, FlatKey(basename, leaf)))
  {
    if Final(basename, xs + ys, leaf) {
      FinalInWhole(basename, xs, ys, leaf);
    } else if Final(basename, ys, leaf) {
      FinalInSecond(basename, xs, ys, leaf);
    } else if Final(basename, xs, leaf) && !Writes(basename, ys, FlatKey(basename, leaf)) {
      FinalInFirst(basename, xs, ys, leaf);
    }
  }

  lemma {:induction false} FlatKeyBelow(basename: string, key: string, leaf: Leaf)
    ensures FlatKey(basename, Below(key, leaf)) == FlatKey(Join(basename, key), leaf)
  {
    assert Below(key, leaf).path[1..] == leaf.path;
  }

  lemma {:induction false} FinalBelow(basename: string, key: string, leaves: seq<Leaf>, leaf: Leaf)
    ensures Final(basename, AllBelow(key, leaves), Below(key, leaf)) <==> Final(Join(basename, key), leaves, leaf)
  {
    var below := AllBelow(key, leaves);
    FlatKeyBelow(basename, key, leaf);
    forall i | 0 <= i < |leaves|
      ensures below[i] == Below(key, leaf) <==> leaves[i] == leaf
      ensures FlatKey(basename, below[i]) == FlatKey(Join(basename, key), leaves[i])
    {
      FlatKeyBelow(basename, key, leaves[i]);
      assert Below(key, leaf).path[1..] == leaf.path && below[i].path[1..] == leaves[i].path;
    }
    var wanted := FlatKey(Join(basename, key), leaf);
    assert forall i :: NotWrittenFrom(basename, below, i, wanted) <==>
        NotWrittenFrom(Join(basename, key), leaves, i, wanted);
  }

  // The last leaf of all is final.
  lemma {:induction false} EndIsFinal(basename: string, leaves: seq<Leaf>, leaf: Leaf)
    requires EndsWith(leaves, leaf)
    ensures Final(basename, leaves, leaf)
  {
    assert NotWrittenFrom(basename, leaves, |leaves| - 1 + 1, FlatKey(basename, leaf));
  }

  // Which visit of a trace decides: the last one that writes the flat key.
  ghost predicate FinalVisit(basename: string, trace: seq<Visit>, i: int, leaf: Leaf)
  {
    && 0 <= i < |trace| && Final(basename, WrittenAt(trace[i]), leaf)
    && forall j :: i < j < |trace| ==> !Writes(basename, WrittenAt(trace[j]), FlatKey(basename, leaf))
  }

  lemma {:induction false} FinalVisitOneMore(basename: string, front: seq<Visit>, last: Visit, leaf: Leaf)
    ensures (exists i :: FinalVisit(basename, front + [last], i, leaf)) <==>
            || Final(basename, WrittenAt(last), leaf)
            || ((exists i :: FinalVisit(basename, front, i, leaf))
                && !Writes(basename, WrittenAt(last), FlatKey(basename, leaf)))
  {
    var trace, n := front + [last], |front|;
    assert trace[n] == last;
    if exists i :: FinalVisit(basename, trace, i, leaf) {
      var i :| FinalVisit(basename, trace, i, leaf);
      if i < n {
        assert trace[i] == front[i] && forall j :: i < j < n ==> trace[j] == front[j];
        assert FinalVisit(basename, front, i, leaf);
      }
    }
    if Final(basename, WrittenAt(last), leaf) {
      assert FinalVisit(basename, trace, n, leaf);
    }
    if !Writes(basename, WrittenAt(last), FlatKey(basename, leaf)) && exists i :: FinalVisit(basename, front, i, leaf) {
      var i :| FinalVisit(basename, front, i, leaf);
      assert FinalVisit(basename, trace, i, leaf);
    }
  }

  lemma {:induction false} FinalInTrace(basename: string, trace: seq<Visit>, leaf: Leaf)
    ensures Final(basename, Written(trace), leaf) <==> exists i :: FinalVisit(basename, trace, i, leaf)
    decreases |trace|
  {
    if trace != [] {
      var n := |trace| - 1;
      var front, last := trace[..n], trace[n];
      FinalInTrace(basename, front, leaf);
      FinalConcat(basename, Written(front), WrittenAt(last), leaf);
      FinalVisitOneMore(basename, front, last, leaf);
      assert trace == front + [last];
    }
  }
}
