/** The whole tree: its leaves, its content as a finite map, and a key's place among the leaves. */
module BptTree {
  import opened BptLevels
  import opened BptShape

  // ---------------------------------------------------------------- leaves

  ghost predicate LeafNode(c: Cfg, n: Node, a: int, top: bool) {
    && n.self == a && n.leaf && |n.key| == |n.val|
    && (if top then 1 else (c.entries + 1) / 2) <= |n.key| <= c.entries
  }

  ghost predicate Within(L: seq<Entry>, i: int, k: int)
    requires 0 <= i < |L|
  {
    L[i].lo <= k && (i + 1 < |L| ==> k < L[i + 1].lo)
  }

  ghost predicate Bounded(X: Image, L: seq<Entry>)
    requires In(X, L)
  {
    forall i, q :: 0 <= i < |L| && 0 <= q < |X[L[i].a].key| ==> Within(L, i, X[L[i].a].key[q])
  }

  ghost predicate LeafNodes(c: Cfg, X: Image, L: seq<Entry>, top: bool)
    requires In(X, L)
  {
    forall i :: 0 <= i < |L| ==> LeafNode(c, X[L[i].a], L[i].a, top)
  }

  ghost predicate Leaves(c: Cfg, X: Image, L: seq<Entry>, top: bool) {
    && |L| > 0 && In(X, L) && NoDup(L) && Linked(X, L) && Sorted(L)
    && LeafNodes(c, X, L, top) && Bounded(X, L) && Sorted(Flat(X, L))
  }

  // ---------------------------------------------------------------- the tree

  ghost predicate WellFormed(c: Cfg, X: Image, lv: seq<seq<Entry>>, root: int) {
    && INVALID !in X
    && if lv == [] then X == map[] && root == INVALID
       else
         && Leaves(c, X, lv[0], |lv| == 1)
         && X.Keys == Addrs(lv[0]) + AllAddrs(lv[1..])
         && Upper(c, X, lv[0], lv[1..], root)
  }

  // A sorted association list as a map.
  ghost function ToMap(F: seq<Entry>): map<int, int>
    requires Sorted(F)
  {
    map i | 0 <= i < |F| :: F[i].lo := F[i].a
  }

  ghost function Content(c: Cfg, X: Image, lv: seq<seq<Entry>>, root: int): map<int, int>
    requires WellFormed(c, X, lv, root)
  {
    if lv == [] then map[] else ToMap(Flat(X, lv[0]))
  }

  // ---------------------------------------------------------------- association lists

  // All entries before pos are below k, all from pos on are above it.
  ghost predicate Gap(F: seq<Entry>, pos: int, k: int) {
    && 0 <= pos <= |F|
    && (forall i :: 0 <= i < pos ==> F[i].lo < k)
    && (forall i :: pos <= i < |F| ==> k < F[i].lo)
  }

  lemma InsertSorted(F: seq<Entry>, pos: int, e: Entry)
    requires Sorted(F) && Gap(F, pos, e.lo)
    ensures Sorted(Insert(F, pos, e))
    ensures e.lo !in ToMap(F)
    ensures ToMap(Insert(F, pos, e)) == ToMap(F)[e.lo := e.a]
  {
    hide Insert, ToMap;
    var G := Insert(F, pos, e);
    InsertAt(F, pos, e);
    assert Sorted(G);
    assert e.lo !in ToMap(F) by {
      if e.lo in ToMap(F) {
        var i := Find(F, e.lo);
      }
    }
    var m, g := ToMap(F), ToMap(G);
    forall k | k in m ensures k in g && g[k] == m[k] {
      var i := Find(F, k);
      Has(F, i);
      Has(G, if i < pos then i else i + 1);
    }
    forall k | k in g ensures k in m || k == e.lo {
      var i := Find(G, k);
      if i != pos {
        Has(F, if i < pos then i else i - 1);
      }
    }
    Has(G, pos);
  }

  lemma Has(F: seq<Entry>, i: int)
    requires Sorted(F) && 0 <= i < |F|
    ensures F[i].lo in ToMap(F) && ToMap(F)[F[i].lo] == F[i].a
  {
  }

  lemma Find(F: seq<Entry>, k: int) returns (i: int)
    requires Sorted(F) && k in ToMap(F)
    ensures 0 <= i < |F| && F[i].lo == k && ToMap(F)[k] == F[i].a
  {
    i :| 0 <= i < |F| && F[i].lo == k;
  }

  lemma DropSorted(F: seq<Entry>, pos: int)
    requires Sorted(F) && 0 <= pos < |F|
    ensures Sorted(Drop(F, pos))
    ensures ToMap(Drop(F, pos)) == ToMap(F) - {F[pos].lo}
  {
    hide Drop, ToMap;
    var G := Drop(F, pos);
    DropAt(F, pos);
    assert Sorted(G);
    var m, g := ToMap(F), ToMap(G);
    forall k | k in m && k != F[pos].lo ensures k in g && g[k] == m[k] {
      var i := Find(F, k);
      Has(F, i);
      Has(G, if i < pos then i else i - 1);
    }
    forall k | k in g ensures k in m && k != F[pos].lo {
      var i := Find(G, k);
      Has(F, if i < pos then i else i + 1);
    }
  }

  // ---------------------------------------------------------------- a key's place

  // Leaf j covers k; position p of the leaf is k's place in the whole content.
  lemma KeyBelow(c: Cfg, X: Image, L: seq<Entry>, top: bool, j: int, k: int, f: int)
    requires Leaves(c, X, L, top) && 0 <= j < |L| && Within(L, j, k)
    requires 0 <= f < |Flat(X, L)|
    ensures f < Off(X, L, j) ==> Flat(X, L)[f].lo < k
    ensures f >= Off(X, L, j) + |X[L[j].a].val| ==> k < Flat(X, L)[f].lo
  {
    hide Flat, Linked, NoDup, Off;
    var i, q := Locate(X, L, f);
    FlatAt(X, L, i, q);
    assert LeafNode(c, X[L[i].a], L[i].a, top);
    assert Within(L, i, X[L[i].a].key[q]);
    OffOrder(X, L, i, q, j);
  }

  lemma OffOrder(X: Image, L: seq<Entry>, i: int, q: int, j: int)
    requires In(X, L) && 0 <= i < |L| && 0 <= j < |L| && 0 <= q < |X[L[i].a].val|
    ensures Off(X, L, i) + q < Off(X, L, j) ==> i < j
    ensures Off(X, L, i) + q >= Off(X, L, j) + |X[L[j].a].val| ==> j < i
  {
    if j <= i {
      OffWeak(X, L, j, i);
    }
    if i <= j {
      OffStep(X, L, i);
      OffStep(X, L, j);
      OffWeak(X, L, i + 1, j + 1);
    }
  }

  lemma {:induction false} OffWeak(X: Image, L: seq<Entry>, i: int, j: int)
    requires In(X, L) && 0 <= i <= j <= |L|
    ensures Off(X, L, i) <= Off(X, L, j)
    decreases j
  {
    if i < j {
      OffStep(X, L, j - 1);
      OffWeak(X, L, i, j - 1);
    }
  }

  ghost predicate Cut(K: seq<int>, p: int, k: int) {
    && 0 <= p <= |K|
    && (forall i :: 0 <= i < p ==> K[i] < k)
    && (forall i :: p <= i < |K| ==> k <= K[i])
  }

  // Looking only at the leaf that covers k decides membership, and places k.
  lemma LeafDecides(c: Cfg, X: Image, L: seq<Entry>, top: bool, j: int, k: int, p: int)
    requires Leaves(c, X, L, top) && 0 <= j < |L| && Within(L, j, k)
    requires Cut(X[L[j].a].key, p, k)
    ensures p < |X[L[j].a].key| && X[L[j].a].key[p] == k ==>
      && 0 <= Off(X, L, j) + p < |Flat(X, L)|
      && Flat(X, L)[Off(X, L, j) + p] == Entry(k, X[L[j].a].val[p])
    ensures !(p < |X[L[j].a].key| && X[L[j].a].key[p] == k) ==> Gap(Flat(X, L), Off(X, L, j) + p, k)
  {
    hide Flat, Linked, NoDup;
    var n, F, o := X[L[j].a], Flat(X, L), Off(X, L, j);
    assert LeafNode(c, n, L[j].a, top);
    FlatSplit(X, L, j);
    if p < |n.key| && n.key[p] == k {
      FlatAt(X, L, j, p);
    } else {
      forall f | 0 <= f < |F| ensures f < o + p ==> F[f].lo < k ensures f >= o + p ==> k < F[f].lo {
        if o <= f < o + |n.val| {
          FlatAt(X, L, j, f - o);
          if p < |n.key| {
            NodeSorted(c, X, L, top, j, p, f - o);
          }
        } else {
          KeyBelow(c, X, L, top, j, k, f);
        }
      }
    }
  }

  lemma NodeSorted(c: Cfg, X: Image, L: seq<Entry>, top: bool, j: int, p: int, q: int)
    requires Leaves(c, X, L, top) && 0 <= j < |L|
    requires 0 <= p < |X[L[j].a].key| && 0 <= q < |X[L[j].a].key|
    ensures p < q ==> X[L[j].a].key[p] < X[L[j].a].key[q]
  {
    hide Flat, Linked, NoDup;
    assert LeafNode(c, X[L[j].a], L[j].a, top);
    FlatAt(X, L, j, p);
    FlatAt(X, L, j, q);
  }
}
