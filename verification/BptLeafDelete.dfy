/** Deletion from the leaf level. */
module BptLeafDelete {
  import opened BptLevels
  import opened BptShape
  import opened BptDelete
  import opened BptTree

  ghost function LeafShrunk(n: Node, q: int): Node
    requires |n.key| == |n.val| && 0 <= q < |n.key|
  {
    n.(key := Drop(n.key, q), val := Drop(n.val, q))
  }

  lemma ExpandLeafDrop(lo: int, n: Node, q: int)
    requires n.leaf && |n.key| == |n.val| && 0 <= q < |n.key|
    ensures Expand(lo, LeafShrunk(n, q)) == Drop(Expand(lo, n), q)
  {
    hide Drop;
    DropAt(n.key, q);
    DropAt(n.val, q);
    DropAt(Expand(lo, n), q);
  }

  // ---------------------------------------------------------------- the content after a rewrite

  // A window of leaves rewritten so that it loses the entry at t loses that key from the content.
  lemma LeafContent(X: Image, Y: Image, L: seq<Entry>, m: int, w: int, M: seq<Entry>, t: int)
    requires In(X, L) && Sorted(Flat(X, L)) && 0 <= m <= m + w <= |L| && In(Y, M)
    requires forall i :: 0 <= i < |L| && !(m <= i < m + w) ==> L[i].a in Y && SameEntries(Y[L[i].a], X[L[i].a])
    requires Off(X, L, m) <= t < Off(X, L, m) + |Flat(X, L[m..m + w])|
    requires Flat(Y, M) == Drop(Flat(X, L[m..m + w]), t - Off(X, L, m))
    ensures In(Y, Splice(L, m, w, M)) && 0 <= t < |Flat(X, L)|
    ensures Sorted(Flat(Y, Splice(L, m, w, M)))
    ensures ToMap(Flat(Y, Splice(L, m, w, M))) == ToMap(Flat(X, L)) - {Flat(X, L)[t].lo}
  {
    hide Flat, Drop, Splice, ToMap, Sorted;
    FlatDrop(X, Y, L, m, w, M, t);
    DropSorted(Flat(X, L), t);
  }

  // ---------------------------------------------------------------- a leaf loses a key

  lemma LeafRemove(c: Cfg, X: Image, Y: Image, L: seq<Entry>, top: bool, j: int, q: int, k: int)
    requires Leaves(c, X, L, top) && 0 <= j < |L| && |X[L[j].a].key| == |X[L[j].a].val|
    requires 0 <= q < |X[L[j].a].key| && X[L[j].a].key[q] == k
    requires |X[L[j].a].key| > (if top then 1 else (c.entries + 1) / 2)
    requires Y == X[L[j].a := LeafShrunk(X[L[j].a], q)]
    ensures Leaves(c, Y, L, top)
    ensures ToMap(Flat(Y, L)) == ToMap(Flat(X, L)) - {k}
  {
    hide Flat, Drop, ToMap, Linked;
    var n, M := L[j].a, [L[j]];
    assert LeafNode(c, X[n], n, top);
    assert L[j..j + 1] == M && Splice(L, j, 1, M) == L;
    FlatOne(X, L[j]);
    FlatOne(Y, L[j]);
    ExpandLeafDrop(L[j].lo, X[n], q);
    LeafContent(X, Y, L, j, 1, M, Off(X, L, j) + q);
    FlatAt(X, L, j, q);
    LinksKept(X, Y, L);
    DropAt(X[n].key, q);
    DropAt(X[n].val, q);
    assert LeafNodes(c, Y, L, top);
    assert Bounded(Y, L) by {
      forall i, p | 0 <= i < |L| && 0 <= p < |Y[L[i].a].key| ensures Within(L, i, Y[L[i].a].key[p]) {
        var o := if i == j && p >= q then p + 1 else p;
        assert Within(L, i, X[L[i].a].key[o]);
      }
    }
  }

  // ---------------------------------------------------------------- two neighbours

  ghost predicate LeafPair(X: Image, L: seq<Entry>, m: int, d: int) {
    && 0 <= m < |L| - 1 && In(X, L)
    && X[L[m].a].leaf && |X[L[m].a].key| == |X[L[m].a].val|
    && X[L[m + 1].a].leaf && |X[L[m + 1].a].key| == |X[L[m + 1].a].val|
    && 0 <= d < |X[L[m].a].key| + |X[L[m + 1].a].key|
  }

  // The two leaves as one, with entry d gone.
  ghost function LeafJoinShrunk(X: Image, L: seq<Entry>, m: int, d: int): Node
    requires LeafPair(X, L, m, d)
  {
    var a, b := X[L[m].a], X[L[m + 1].a];
    LeafShrunk(a.(key := a.key + b.key, val := a.val + b.val), d)
  }

  lemma LeafWindow(X: Image, L: seq<Entry>, m: int, d: int)
    requires LeafPair(X, L, m, d)
    ensures |Flat(X, L[m..m + 2])| == |X[L[m].a].key| + |X[L[m + 1].a].key|
    ensures Drop(Flat(X, L[m..m + 2]), d) == Expand(L[m].lo, LeafJoinShrunk(X, L, m, d))
  {
    hide Flat, Drop;
    var a, b := X[L[m].a], X[L[m + 1].a];
    assert L[m..m + 2] == [L[m]] + [L[m + 1]];
    FlatOne(X, L[m]);
    FlatOne(X, L[m + 1]);
    FlatConcat(X, [L[m]], [L[m + 1]]);
    var g := a.(key := a.key + b.key, val := a.val + b.val);
    LeafJoin(L[m].lo, L[m + 1].lo, g, a, b);
    ExpandLeafDrop(L[m].lo, g, d);
  }

  lemma LeafJoin(lo: int, sep: int, g: Node, a: Node, b: Node)
    requires g.leaf && a.leaf && b.leaf && |a.key| == |a.val| && |b.key| == |b.val|
    requires g.key == a.key + b.key && g.val == a.val + b.val
    ensures Expand(lo, g) == Expand(lo, a) + Expand(sep, b)
  {
  }

  // A joined key lies between the bounds of the pair, and the joined keys ascend.
  lemma JoinedKeys(c: Cfg, X: Image, L: seq<Entry>, m: int, d: int, top: bool)
    requires Leaves(c, X, L, top) && LeafPair(X, L, m, d)
    ensures var K := LeafJoinShrunk(X, L, m, d).key;
      && |K| == |X[L[m].a].key| + |X[L[m + 1].a].key| - 1
      && (forall i, j :: 0 <= i < j < |K| ==> K[i] < K[j])
      && (forall i :: 0 <= i < |K| ==> L[m].lo <= K[i] && (m + 2 < |L| ==> K[i] < L[m + 2].lo))
  {
    hide Flat, Linked, NoDup, Drop;
    var a, b := X[L[m].a].key, X[L[m + 1].a].key;
    var K := LeafJoinShrunk(X, L, m, d).key;
    DropAt(a + b, d);
    forall i | 0 <= i < |a + b| ensures L[m].lo <= (a + b)[i] && (m + 2 < |L| ==> (a + b)[i] < L[m + 2].lo) {
      if i < |a| {
        assert Within(L, m, a[i]);
      } else {
        assert Within(L, m + 1, b[i - |a|]);
      }
    }
    forall i, j | 0 <= i < j < |a + b| ensures (a + b)[i] < (a + b)[j] {
      if j < |a| {
        NodeSorted(c, X, L, top, m, i, j);
      } else if i >= |a| {
        NodeSorted(c, X, L, top, m + 1, i - |a|, j - |a|);
      } else {
        assert Within(L, m, a[i]) && Within(L, m + 1, b[j - |a|]);
      }
    }
    forall i, j | 0 <= i < j < |K| ensures K[i] < K[j] {
      var i', j' := if i < d then i else i + 1, if j < d then j else j + 1;
      assert K[i] == (a + b)[i'] && K[j] == (a + b)[j'];
    }
  }

  lemma LeafPairFacts(X: Image, L: seq<Entry>, m: int, d: int)
    requires LeafPair(X, L, m, d)
    ensures LeafJoinShrunk(X, L, m, d).leaf && LeafJoinShrunk(X, L, m, d).self == X[L[m].a].self
    ensures |LeafJoinShrunk(X, L, m, d).key| == |LeafJoinShrunk(X, L, m, d).val|
    ensures |LeafJoinShrunk(X, L, m, d).key| == |X[L[m].a].key| + |X[L[m + 1].a].key| - 1
  {
  }

  // ---------------------------------------------------------------- merge

  lemma LeafMerge(c: Cfg, X: Image, Y: Image, L: seq<Entry>, m: int, d: int)
    requires Leaves(c, X, L, false) && LeafPair(X, L, m, d)
    requires MergeLinks(X, Y, L, m)
    requires SameBody(Y[L[m].a], LeafJoinShrunk(X, L, m, d))
    requires (c.entries + 1) / 2 <= |Y[L[m].a].key| <= c.entries
    requires forall i :: 0 <= i < |L| && i != m && i != m + 1 ==> SameBody(Y[L[i].a], X[L[i].a])
    ensures 0 <= Off(X, L, m) + d < |Flat(X, L)|
    ensures Leaves(c, Y, Drop(L, m + 1), false)
    ensures ToMap(Flat(Y, Drop(L, m + 1))) == ToMap(Flat(X, L)) - {Flat(X, L)[Off(X, L, m) + d].lo}
  {
    hide Flat, Linked, NoDup, LeafJoinShrunk, ToMap, Sorted, Bounded;
    var M, R := [L[m]], Drop(L, m + 1);
    LinkedMerge(X, Y, L, m);
    assert Splice(L, m, 2, M) == R;
    hide Splice;
    LeafWindow(X, L, m, d);
    LeafPairFacts(X, L, m, d);
    FlatOne(Y, L[m]);
    ExpandSame(L[m].lo, Y[L[m].a], LeafJoinShrunk(X, L, m, d));
    LeafContent(X, Y, L, m, 2, M, Off(X, L, m) + d);
    LeafMergeNodes(c, X, Y, L, m, d);
    LeafMergeBounds(c, X, Y, L, m, d);
  }

  lemma LeafMergeNodes(c: Cfg, X: Image, Y: Image, L: seq<Entry>, m: int, d: int)
    requires In(X, L) && LeafNodes(c, X, L, false) && LeafPair(X, L, m, d)
    requires MergeLinks(X, Y, L, m)
    requires SameBody(Y[L[m].a], LeafJoinShrunk(X, L, m, d))
    requires (c.entries + 1) / 2 <= |Y[L[m].a].key| <= c.entries
    requires forall i :: 0 <= i < |L| && i != m && i != m + 1 ==> SameBody(Y[L[i].a], X[L[i].a])
    ensures In(Y, Drop(L, m + 1)) && LeafNodes(c, Y, Drop(L, m + 1), false)
  {
    hide Drop, LeafJoinShrunk;
    LeafPairFacts(X, L, m, d);
    DropAt(L, m + 1);
    assert LeafNode(c, X[L[m].a], L[m].a, false);
  }

  lemma LeafMergeBounds(c: Cfg, X: Image, Y: Image, L: seq<Entry>, m: int, d: int)
    requires Leaves(c, X, L, false) && LeafPair(X, L, m, d)
    requires MergeLinks(X, Y, L, m)
    requires SameBody(Y[L[m].a], LeafJoinShrunk(X, L, m, d))
    requires forall i :: 0 <= i < |L| && i != m && i != m + 1 ==> SameBody(Y[L[i].a], X[L[i].a])
    ensures In(Y, Drop(L, m + 1)) && Sorted(Drop(L, m + 1)) && Bounded(Y, Drop(L, m + 1))
  {
    hide Drop, Flat, Linked, NoDup, LeafJoinShrunk;
    var R := Drop(L, m + 1);
    DropAt(L, m + 1);
    JoinedKeys(c, X, L, m, d, false);
    forall i, q | 0 <= i < |R| && 0 <= q < |Y[R[i].a].key| ensures Within(R, i, Y[R[i].a].key[q]) {
      if i != m {
        var o := if i < m then i else i + 1;
        assert Within(L, o, X[L[o].a].key[q]);
      }
    }
  }

  // ---------------------------------------------------------------- rotate

  lemma LeafRotate(c: Cfg, X: Image, Y: Image, L: seq<Entry>, m: int, d: int, sep: int)
    requires CfgOK(c) && Leaves(c, X, L, false) && LeafPair(X, L, m, d)
    requires In(Y, L)
    requires forall i :: 0 <= i < |L| ==> Y[L[i].a].prev == X[L[i].a].prev && Y[L[i].a].next == X[L[i].a].next
    requires LeafNode(c, Y[L[m].a], L[m].a, false) && LeafNode(c, Y[L[m + 1].a], L[m + 1].a, false)
    requires LeafJoinShrunk(X, L, m, d).key == Y[L[m].a].key + Y[L[m + 1].a].key
    requires LeafJoinShrunk(X, L, m, d).val == Y[L[m].a].val + Y[L[m + 1].a].val
    requires Y[L[m + 1].a].key != [] && sep == Y[L[m + 1].a].key[0]
    requires forall i :: 0 <= i < |L| && i != m && i != m + 1 ==> SameBody(Y[L[i].a], X[L[i].a])
    ensures 0 <= Off(X, L, m) + d < |Flat(X, L)|
    ensures Leaves(c, Y, L[m + 1 := Entry(sep, L[m + 1].a)], false)
    ensures ToMap(Flat(Y, L[m + 1 := Entry(sep, L[m + 1].a)])) == ToMap(Flat(X, L)) - {Flat(X, L)[Off(X, L, m) + d].lo}
  {
    hide Flat, Linked, NoDup, LeafJoinShrunk, ToMap, Sorted, Bounded;
    var e := Entry(sep, L[m + 1].a);
    var M, R := [L[m], e], L[m + 1 := e];
    RelabelLinked(X, Y, L, m + 1, sep);
    assert Splice(L, m, 2, M) == R;
    hide Splice;
    LeafWindow(X, L, m, d);
    LeafPairFacts(X, L, m, d);
    assert Flat(Y, M) == Expand(L[m].lo, LeafJoinShrunk(X, L, m, d)) by {
      FlatOne(Y, L[m]);
      FlatOne(Y, e);
      FlatConcat(Y, [L[m]], [e]);
      assert [L[m]] + [e] == M;
      LeafJoin(L[m].lo, sep, LeafJoinShrunk(X, L, m, d), Y[L[m].a], Y[e.a]);
    }
    LeafContent(X, Y, L, m, 2, M, Off(X, L, m) + d);
    LeafRotateNodes(c, X, Y, L, m, sep);
    LeafRotateBounds(c, X, Y, L, m, d, sep);
  }

  lemma LeafRotateNodes(c: Cfg, X: Image, Y: Image, L: seq<Entry>, m: int, sep: int)
    requires In(X, L) && In(Y, L) && LeafNodes(c, X, L, false) && 0 <= m < |L| - 1
    requires LeafNode(c, Y[L[m].a], L[m].a, false) && LeafNode(c, Y[L[m + 1].a], L[m + 1].a, false)
    requires forall i :: 0 <= i < |L| && i != m && i != m + 1 ==> SameBody(Y[L[i].a], X[L[i].a])
    ensures In(Y, L[m + 1 := Entry(sep, L[m + 1].a)])
    ensures LeafNodes(c, Y, L[m + 1 := Entry(sep, L[m + 1].a)], false)
  {
  }

  lemma LeafRotateBounds(c: Cfg, X: Image, Y: Image, L: seq<Entry>, m: int, d: int, sep: int)
    requires CfgOK(c) && Leaves(c, X, L, false) && LeafPair(X, L, m, d) && In(Y, L)
    requires LeafNode(c, Y[L[m].a], L[m].a, false) && LeafNode(c, Y[L[m + 1].a], L[m + 1].a, false)
    requires LeafJoinShrunk(X, L, m, d).key == Y[L[m].a].key + Y[L[m + 1].a].key
    requires Y[L[m + 1].a].key != [] && sep == Y[L[m + 1].a].key[0]
    requires forall i :: 0 <= i < |L| && i != m && i != m + 1 ==> SameBody(Y[L[i].a], X[L[i].a])
    ensures In(Y, L[m + 1 := Entry(sep, L[m + 1].a)]) && Sorted(L[m + 1 := Entry(sep, L[m + 1].a)])
    ensures Bounded(Y, L[m + 1 := Entry(sep, L[m + 1].a)])
  {
    hide Flat, Linked, NoDup, LeafJoinShrunk;
    var R := L[m + 1 := Entry(sep, L[m + 1].a)];
    var a, b, K := Y[L[m].a].key, Y[L[m + 1].a].key, LeafJoinShrunk(X, L, m, d).key;
    JoinedKeys(c, X, L, m, d, false);
    assert K[0] == a[0] && K[|a|] == sep;
    assert Sorted(R);
    hide Sorted;
    forall i, q | 0 <= i < |R| && 0 <= q < |Y[R[i].a].key| ensures Within(R, i, Y[R[i].a].key[q]) {
      if i == m {
        assert a[q] == K[q];
      } else if i == m + 1 {
        assert b[q] == K[|a| + q];
      } else {
        assert Within(L, i, X[L[i].a].key[q]);
      }
    }
  }
}
