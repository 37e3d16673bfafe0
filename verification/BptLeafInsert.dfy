/** Insertion into the leaf level. */
module BptLeafInsert {
  import opened BptLevels
  import opened BptShape
  import opened BptInsert
  import opened BptTree

  ghost function LeafGrown(n: Node, p: int, k: int, d: int): Node
    requires 0 <= p <= |n.key| == |n.val|
  {
    n.(key := Insert(n.key, p, k), val := Insert(n.val, p, d))
  }

  lemma ExpandInsert(lo: int, n: Node, p: int, k: int, d: int)
    requires n.leaf && 0 <= p <= |n.key| == |n.val|
    ensures Expand(lo, LeafGrown(n, p, k, d)) == Insert(Expand(lo, n), p, Entry(k, d))
  {
    hide Insert;
    InsertAt(n.key, p, k);
    InsertAt(n.val, p, d);
    InsertAt(Expand(lo, n), p, Entry(k, d));
  }

  lemma InsertWithin<T>(A: seq<T>, E: seq<T>, B: seq<T>, p: int, x: T)
    requires 0 <= p <= |E|
    ensures Insert(A + E + B, |A| + p, x) == A + Insert(E, p, x) + B
  {
    assert (A + E + B)[..|A| + p] == A + E[..p];
    assert (A + E + B)[|A| + p..] == E[p..] + B;
  }

  // Replacing leaf j by M, whose entries are the leaf's with one more, inserts that entry in the content.
  lemma FlatInsert(X: Image, Y: Image, L: seq<Entry>, j: int, p: int, M: seq<Entry>, e: Entry)
    requires In(X, L) && 0 <= j < |L| && In(Y, M)
    requires 0 <= p <= |X[L[j].a].val|
    requires forall i :: 0 <= i < |L| && i != j ==> L[i].a in Y && SameEntries(Y[L[i].a], X[L[i].a])
    requires Flat(Y, M) == Insert(Expand(L[j].lo, X[L[j].a]), p, e)
    ensures In(Y, L[..j] + M + L[j + 1..])
    ensures 0 <= Off(X, L, j) + p <= |Flat(X, L)|
    ensures Flat(Y, L[..j] + M + L[j + 1..]) == Insert(Flat(X, L), Off(X, L, j) + p, e)
  {
    hide Flat, Insert;
    FlatRewrite(X, Y, L, j, M);
    FlatSplit(X, L, j);
    InsertWithin(Flat(X, L[..j]), Expand(L[j].lo, X[L[j].a]), Flat(X, L[j + 1..]), p, e);
  }

  // ---------------------------------------------------------------- a leaf with room

  lemma LeafInsert(c: Cfg, X: Image, Y: Image, L: seq<Entry>, top: bool, j: int, p: int, k: int, d: int)
    requires Leaves(c, X, L, top) && 0 <= j < |L| && Within(L, j, k)
    requires Cut(X[L[j].a].key, p, k) && k !in X[L[j].a].key && |X[L[j].a].key| < c.entries
    requires |X[L[j].a].key| == |X[L[j].a].val|
    requires Y == X[L[j].a := LeafGrown(X[L[j].a], p, k, d)]
    ensures Leaves(c, Y, L, top)
    ensures 0 <= Off(X, L, j) + p <= |Flat(X, L)|
    ensures Flat(Y, L) == Insert(Flat(X, L), Off(X, L, j) + p, Entry(k, d))
    ensures ToMap(Flat(Y, L)) == ToMap(Flat(X, L))[k := d]
  {
    hide Flat, Insert, ToMap;
    var n := L[j].a;
    assert LeafNode(c, X[n], n, top);
    InsertAt(X[n].key, p, k);
    InsertAt(X[n].val, p, d);
    assert In(Y, L);
    assert Flat(Y, L) == Insert(Flat(X, L), Off(X, L, j) + p, Entry(k, d)) by {
      FlatOne(Y, L[j]);
      ExpandInsert(L[j].lo, X[n], p, k, d);
      FlatInsert(X, Y, L, j, p, [L[j]], Entry(k, d));
      assert L[..j] + [L[j]] + L[j + 1..] == L;
    }
    LeafDecides(c, X, L, top, j, k, p);
    InsertSorted(Flat(X, L), Off(X, L, j) + p, Entry(k, d));
    assert LeafNodes(c, Y, L, top);
    assert Bounded(Y, L) by {
      GrownBounded(X, Y, L, j, p, k);
    }
    assert Linked(Y, L);
  }

  lemma GrownBounded(X: Image, Y: Image, L: seq<Entry>, j: int, p: int, k: int)
    requires In(X, L) && In(Y, L) && Bounded(X, L) && 0 <= j < |L| && Within(L, j, k)
    requires 0 <= p <= |X[L[j].a].key| && Y[L[j].a].key == Insert(X[L[j].a].key, p, k)
    requires forall i :: 0 <= i < |L| && i != j ==> Y[L[i].a].key == X[L[i].a].key
    ensures Bounded(Y, L)
  {
    hide Insert;
    InsertAt(X[L[j].a].key, p, k);
    forall i, q | 0 <= i < |L| && 0 <= q < |Y[L[i].a].key| ensures Within(L, i, Y[L[i].a].key[q]) {
      if i == j && q != p {
        assert Within(L, i, X[L[i].a].key[if q < p then q else q - 1]);
      } else if i != j {
        assert Within(L, i, X[L[i].a].key[q]);
      }
    }
  }

  // ---------------------------------------------------------------- a full leaf

  ghost predicate LeafHalves(c: Cfg, g: Node, nl: Node, nr: Node, l: int, r: int, cut: int) {
    && |g.key| == |g.val| == c.entries + 1 && cut == (c.entries + 1) / 2 && 1 <= cut < |g.key|
    && nl.self == l && nl.leaf && nl.key == g.key[..cut] && nl.val == g.val[..cut]
    && nr.self == r && nr.leaf && nr.key == g.key[cut..] && nr.val == g.val[cut..]
  }

  lemma LeafHalvesOK(c: Cfg, g: Node, nl: Node, nr: Node, l: int, r: int, cut: int)
    requires CfgOK(c) && LeafHalves(c, g, nl, nr, l, r, cut)
    ensures LeafNode(c, nl, l, false) && LeafNode(c, nr, r, false)
  {
  }

  lemma LeafCut(lo: int, sep: int, g: Node, nl: Node, nr: Node)
    requires g.leaf && nl.leaf && nr.leaf && |g.key| == |g.val|
    requires |nl.key| == |nl.val| && |nr.key| == |nr.val|
    requires g.key == nl.key + nr.key && g.val == nl.val + nr.val
    ensures Expand(lo, g) == Expand(lo, nl) + Expand(sep, nr)
  {
  }

  lemma LeafSplitFlat(c: Cfg, X: Image, Y: Image, L: seq<Entry>, j: int, p: int, k: int, d: int,
                      l: int, r: int, cut: int, g: Node)
    requires In(X, L) && 0 <= j < |L| && X[L[j].a].leaf
    requires 0 <= p <= |X[L[j].a].key| == |X[L[j].a].val|
    requires g == LeafGrown(X[L[j].a], p, k, d)
    requires l in Y && r in Y && LeafHalves(c, g, Y[l], Y[r], l, r, cut)
    requires forall i :: 0 <= i < |L| && i != j ==> L[i].a in Y && SameBody(Y[L[i].a], X[L[i].a])
    ensures In(Y, Grow(L, j, l, r, g.key[cut]))
    ensures 0 <= Off(X, L, j) + p <= |Flat(X, L)|
    ensures Flat(Y, Grow(L, j, l, r, g.key[cut])) == Insert(Flat(X, L), Off(X, L, j) + p, Entry(k, d))
  {
    hide Flat, LeafGrown, Insert;
    var sep := g.key[cut];
    var el, er := Entry(L[j].lo, l), Entry(sep, r);
    FlatOne(Y, el);
    FlatOne(Y, er);
    FlatConcat(Y, [el], [er]);
    assert g.leaf by {
      assert LeafGrown(X[L[j].a], p, k, d).leaf by { LeafGrownLeaf(X[L[j].a], p, k, d); }
    }
    assert g.val == Y[l].val + Y[r].val && g.key == Y[l].key + Y[r].key;
    LeafCut(L[j].lo, sep, g, Y[l], Y[r]);
    ExpandInsert(L[j].lo, X[L[j].a], p, k, d);
    assert [el] + [er] == [el, er];
    FlatInsert(X, Y, L, j, p, [el, er], Entry(k, d));
  }

  lemma LeafGrownLeaf(n: Node, p: int, k: int, d: int)
    requires 0 <= p <= |n.key| == |n.val|
    ensures LeafGrown(n, p, k, d).leaf == n.leaf
  {
  }

  lemma LeafSplit(c: Cfg, X: Image, Y: Image, L: seq<Entry>, top: bool, j: int, p: int, k: int, d: int,
                  l: int, r: int, cut: int, g: Node)
    requires CfgOK(c) && Leaves(c, X, L, top) && 0 <= j < |L| && Within(L, j, k)
    requires top ==> |L| == 1
    requires Cut(X[L[j].a].key, p, k) && k !in X[L[j].a].key
    requires |X[L[j].a].key| == |X[L[j].a].val| && g == LeafGrown(X[L[j].a], p, k, d)
    requires SplitLinks(X, Y, L, j, l, r) && LeafHalves(c, g, Y[l], Y[r], l, r, cut)
    requires forall i :: 0 <= i < |L| && i != j ==> SameBody(Y[L[i].a], X[L[i].a])
    ensures Leaves(c, Y, Grow(L, j, l, r, g.key[cut]), false)
    ensures ToMap(Flat(Y, Grow(L, j, l, r, g.key[cut]))) == ToMap(Flat(X, L))[k := d]
  {
    hide Flat, Insert, ToMap, Grow, LeafGrown, Linked, NoDup, Sorted, Bounded;
    var sep := g.key[cut];
    var M := Grow(L, j, l, r, sep);
    assert LeafNode(c, X[L[j].a], L[j].a, top);
    assert |M| > 0 && In(Y, M) && NoDup(M) && Linked(Y, M) by {
      LinkedSplit(X, Y, L, j, l, r, sep);
      GrowAt(L, j, l, r, sep);
    }
    assert Sorted(Flat(Y, M)) && ToMap(Flat(Y, M)) == ToMap(Flat(X, L))[k := d] by {
      LeafSplitFlat(c, X, Y, L, j, p, k, d, l, r, cut, g);
      LeafDecides(c, X, L, top, j, k, p);
      InsertSorted(Flat(X, L), Off(X, L, j) + p, Entry(k, d));
    }
    assert LeafNodes(c, Y, M, false) by {
      LeafSplitNodes(c, X, Y, L, top, j, l, r, cut, g, sep);
    }
    assert Sorted(M) && Bounded(Y, M) by {
      LeafSplitBounds(c, X, Y, L, top, j, p, k, d, l, r, cut, g);
    }
  }

  lemma LeafSplitNodes(c: Cfg, X: Image, Y: Image, L: seq<Entry>, top: bool, j: int, l: int, r: int, cut: int, g: Node,
                       sep: int)
    requires CfgOK(c) && In(X, L) && LeafNodes(c, X, L, top) && 0 <= j < |L|
    requires top ==> |L| == 1
    requires SplitLinks(X, Y, L, j, l, r) && LeafHalves(c, g, Y[l], Y[r], l, r, cut)
    requires forall i :: 0 <= i < |L| && i != j ==> SameBody(Y[L[i].a], X[L[i].a])
    ensures In(Y, Grow(L, j, l, r, sep)) && LeafNodes(c, Y, Grow(L, j, l, r, sep), false)
  {
    hide Grow, LeafHalves;
    GrowAt(L, j, l, r, sep);
    LeafHalvesOK(c, g, Y[l], Y[r], l, r, cut);
  }

  // What the parts of a split level may hold.
  lemma GrowWithin(L: seq<Entry>, j: int, l: int, r: int, sep: int, i: int, k: int)
    requires 0 <= j < |L| && |Grow(L, j, l, r, sep)| == |L| + 1 && 0 <= i <= |L| && L[j].lo < sep
    requires Within(L, if i <= j then i else i - 1, k) && (i == j ==> k < sep) && (i == j + 1 ==> sep <= k)
    ensures Within(Grow(L, j, l, r, sep), i, k)
  {
    hide Grow;
    GrowAt(L, j, l, r, sep);
  }

  lemma LeafSplitSorted(c: Cfg, X: Image, Y: Image, L: seq<Entry>, top: bool, j: int, p: int, k: int, d: int,
                        l: int, r: int, cut: int, g: Node)
    requires CfgOK(c) && Leaves(c, X, L, top) && 0 <= j < |L| && Within(L, j, k)
    requires Cut(X[L[j].a].key, p, k) && k !in X[L[j].a].key
    requires |X[L[j].a].key| == |X[L[j].a].val| && g == LeafGrown(X[L[j].a], p, k, d)
    requires SplitLinks(X, Y, L, j, l, r) && LeafHalves(c, g, Y[l], Y[r], l, r, cut)
    ensures In(Y, Grow(L, j, l, r, g.key[cut])) && Sorted(Grow(L, j, l, r, g.key[cut])) && L[j].lo < g.key[cut]
    ensures forall i, q :: 0 <= i < q < |g.key| ==> g.key[i] < g.key[q]
    ensures forall i :: 0 <= i < |g.key| ==> Within(L, j, g.key[i])
  {
    hide Grow, Flat, NoDup, Linked, Insert;
    var sep := g.key[cut];
    GrowAt(L, j, l, r, sep);
    GrownSorted(c, X, L, top, j, p, k, g.key);
    assert Within(L, j, g.key[0]) && g.key[0] < sep;
    SortedGrow(L, j, l, r, sep);
  }

  lemma LeafSplitBounds(c: Cfg, X: Image, Y: Image, L: seq<Entry>, top: bool, j: int, p: int, k: int, d: int,
                        l: int, r: int, cut: int, g: Node)
    requires CfgOK(c) && Leaves(c, X, L, top) && 0 <= j < |L| && Within(L, j, k)
    requires Cut(X[L[j].a].key, p, k) && k !in X[L[j].a].key
    requires |X[L[j].a].key| == |X[L[j].a].val| && g == LeafGrown(X[L[j].a], p, k, d)
    requires SplitLinks(X, Y, L, j, l, r) && LeafHalves(c, g, Y[l], Y[r], l, r, cut)
    requires forall i :: 0 <= i < |L| && i != j ==> SameBody(Y[L[i].a], X[L[i].a])
    ensures In(Y, Grow(L, j, l, r, g.key[cut])) && Sorted(Grow(L, j, l, r, g.key[cut]))
    ensures Bounded(Y, Grow(L, j, l, r, g.key[cut]))
  {
    hide Grow, Flat, NoDup, Linked, Insert, Sorted;
    var sep := g.key[cut];
    var M := Grow(L, j, l, r, sep);
    GrowAt(L, j, l, r, sep);
    LeafSplitSorted(c, X, Y, L, top, j, p, k, d, l, r, cut, g);
    forall i, q | 0 <= i < |M| && 0 <= q < |Y[M[i].a].key| ensures Within(M, i, Y[M[i].a].key[q]) {
      var x := Y[M[i].a].key[q];
      if i < j || i > j + 1 {
        var o := if i < j then i else i - 1;
        assert SameBody(Y[L[o].a], X[L[o].a]) && Within(L, o, X[L[o].a].key[q]);
      } else {
        assert x == g.key[if i == j then q else q + cut];
      }
      GrowWithin(L, j, l, r, sep, i, x);
    }
  }

  lemma SortedGrow(L: seq<Entry>, j: int, l: int, r: int, sep: int)
    requires Sorted(L) && 0 <= j < |L| && L[j].lo < sep && (j + 1 < |L| ==> sep < L[j + 1].lo)
    ensures Sorted(Grow(L, j, l, r, sep))
  {
    hide Grow;
    GrowAt(L, j, l, r, sep);
    var M := Grow(L, j, l, r, sep);
    forall a, b | 0 <= a < b < |M| ensures M[a].lo < M[b].lo {
      var a', b' := if a <= j then a else a - 1, if b <= j then b else b - 1;
      assert a' == b' || L[a'].lo < L[b'].lo;
      assert a == j + 1 && b > j + 2 ==> L[j + 1].lo < L[b'].lo;
    }
  }

  lemma GrownSorted(c: Cfg, X: Image, L: seq<Entry>, top: bool, j: int, p: int, k: int, K: seq<int>)
    requires Leaves(c, X, L, top) && 0 <= j < |L| && Within(L, j, k)
    requires Cut(X[L[j].a].key, p, k) && k !in X[L[j].a].key
    requires K == Insert(X[L[j].a].key, p, k)
    ensures forall i, q :: 0 <= i < q < |K| ==> K[i] < K[q]
    ensures forall i :: 0 <= i < |K| ==> Within(L, j, K[i])
  {
    hide Flat, Linked, NoDup, Insert;
    var k0 := X[L[j].a].key;
    InsertAt(k0, p, k);
    forall i | 0 <= i < |K| ensures Within(L, j, K[i]) {
      if i != p {
        assert Within(L, j, k0[if i < p then i else i - 1]);
      }
    }
    forall i, q | 0 <= i < q < |K| ensures K[i] < K[q] {
      if i != p && q != p {
        NodeSorted(c, X, L, top, j, if i < p then i else i - 1, if q < p then q else q - 1);
      }
    }
  }
}
