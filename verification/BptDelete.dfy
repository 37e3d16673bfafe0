/** Deletion: how one level gives up a child, alone or together with a neighbour. */
module BptDelete {
  import opened BptLevels
  import opened BptShape
  import opened BptInsert

  // ---------------------------------------------------------------- the hole

  // The level above still lists the dead child at position t of C; it has been freed.
  ghost predicate DeleteHole(c: Cfg, X: Image, C: seq<Entry>, t: int, dead: Entry, up: seq<seq<Entry>>, root: int) {
    && 0 <= t <= |C| && In(X, C) && Selfs(X, C) && INVALID !in X && dead.a !in X
    && Sorted(Insert(C, t, dead)) && NoDup(Insert(C, t, dead))
    && Upper(c, X, Insert(C, t, dead), up, root)
  }

  // ---------------------------------------------------------------- windows

  ghost function Splice<T>(L: seq<T>, m: int, w: int, M: seq<T>): seq<T>
    requires 0 <= m <= m + w <= |L|
  {
    L[..m] + M + L[m + w..]
  }

  lemma SpliceAt<T>(L: seq<T>, m: int, w: int, M: seq<T>)
    requires 0 <= m <= m + w <= |L|
    ensures |Splice(L, m, w, M)| == |L| - w + |M|
    ensures forall i {:trigger Splice(L, m, w, M)[i]} :: 0 <= i < m ==> Splice(L, m, w, M)[i] == L[i]
    ensures forall i {:trigger Splice(L, m, w, M)[i]} :: m <= i < m + |M| ==> Splice(L, m, w, M)[i] == M[i - m]
    ensures forall i {:trigger Splice(L, m, w, M)[i]} :: m + |M| <= i < |L| - w + |M| ==>
      Splice(L, m, w, M)[i] == L[i + w - |M|]
  {
  }

  lemma FlatWindow(X: Image, L: seq<Entry>, m: int, w: int)
    requires In(X, L) && 0 <= m <= m + w <= |L|
    ensures Flat(X, L) == Flat(X, L[..m]) + Flat(X, L[m..m + w]) + Flat(X, L[m + w..])
    ensures Off(X, L, m + w) == Off(X, L, m) + |Flat(X, L[m..m + w])|
  {
    hide Flat;
    assert L == L[..m] + L[m..m + w] + L[m + w..];
    assert L[..m + w] == L[..m] + L[m..m + w];
    FlatConcat(X, L[..m], L[m..m + w]);
    FlatConcat(X, L[..m] + L[m..m + w], L[m + w..]);
  }

  lemma FlatSplice(X: Image, Y: Image, L: seq<Entry>, m: int, w: int, M: seq<Entry>)
    requires In(X, L) && 0 <= m <= m + w <= |L| && In(Y, M)
    requires forall i :: 0 <= i < |L| && !(m <= i < m + w) ==> L[i].a in Y && SameEntries(Y[L[i].a], X[L[i].a])
    ensures In(Y, Splice(L, m, w, M))
    ensures Flat(Y, Splice(L, m, w, M)) == Flat(X, L[..m]) + Flat(Y, M) + Flat(X, L[m + w..])
  {
    hide Flat;
    var A, B := L[..m], L[m + w..];
    assert In(Y, A) && In(Y, B);
    FlatFrame(X, Y, A);
    FlatFrame(X, Y, B);
    FlatConcat(Y, A, M);
    FlatConcat(Y, A + M, B);
  }

  lemma DropWithin<T>(A: seq<T>, E: seq<T>, B: seq<T>, p: int)
    requires 0 <= p < |E|
    ensures Drop(A + E + B, |A| + p) == A + Drop(E, p) + B
  {
    assert (A + E + B)[..|A| + p] == A + E[..p];
    assert (A + E + B)[|A| + p + 1..] == E[p + 1..] + B;
  }

  // Rewriting a window so that it loses one child makes the whole level lose that child.
  lemma FlatDrop(X: Image, Y: Image, L: seq<Entry>, m: int, w: int, M: seq<Entry>, t: int)
    requires In(X, L) && 0 <= m <= m + w <= |L| && In(Y, M)
    requires forall i :: 0 <= i < |L| && !(m <= i < m + w) ==> L[i].a in Y && SameEntries(Y[L[i].a], X[L[i].a])
    requires Off(X, L, m) <= t < Off(X, L, m) + |Flat(X, L[m..m + w])|
    requires Flat(Y, M) == Drop(Flat(X, L[m..m + w]), t - Off(X, L, m))
    ensures In(Y, Splice(L, m, w, M)) && 0 <= t < |Flat(X, L)|
    ensures Flat(Y, Splice(L, m, w, M)) == Drop(Flat(X, L), t)
  {
    hide Flat, Drop, Splice;
    FlatSplice(X, Y, L, m, w, M);
    FlatWindow(X, L, m, w);
    DropWithin(Flat(X, L[..m]), Flat(X, L[m..m + w]), Flat(X, L[m + w..]), t - Off(X, L, m));
  }

  // ---------------------------------------------------------------- a level after a local rewrite

  // The nodes of M hold their children; children elsewhere kept their parents.
  ghost predicate Rehomed(X: Image, Y: Image, W: set<int>, M: seq<Entry>)
    requires In(Y, M)
  {
    && (forall i, q :: 0 <= i < |M| && 0 <= q < |Y[M[i].a].val| && Y[M[i].a].val[q] in Y ==>
          && Y[Y[M[i].a].val[q]].parent == M[i].a
          && Y[M[i].a].val[q] in X && X[Y[M[i].a].val[q]].parent in W)
    && (forall s :: s in Y ==> s in X && (X[s].parent !in W ==> Y[s].parent == X[s].parent))
  }

  lemma RewriteLevel(c: Cfg, X: Image, Y: Image, L: seq<Entry>, C: seq<Entry>, top: bool, t: int,
                     m: int, w: int, M: seq<Entry>, W: set<int>)
    requires Level(c, X, L, C, top) && 0 <= m <= m + w <= |L| && In(Y, M) && |M| > 0
    requires W == Addrs(L[m..m + w])
    requires forall i :: 0 <= i < |L| && !(m <= i < m + w) ==> L[i].a in Y && SameBody(Y[L[i].a], X[L[i].a])
    requires forall i :: 0 <= i < |M| ==> InnerNode(c, Y[M[i].a], M[i].a, top)
    requires Off(X, L, m) <= t < Off(X, L, m) + |Flat(X, L[m..m + w])|
    requires Flat(Y, M) == Drop(Flat(X, L[m..m + w]), t - Off(X, L, m))
    requires Rehomed(X, Y, W, M)
    requires In(Y, Splice(L, m, w, M)) && NoDup(Splice(L, m, w, M)) && Linked(Y, Splice(L, m, w, M))
    ensures 0 <= t < |C| && Level(c, Y, Splice(L, m, w, M), Drop(C, t), top)
  {
    hide Flat, Drop, Splice, Linked, NoDup;
    var R := Splice(L, m, w, M);
    SpliceAt(L, m, w, M);
    FlatDrop(X, Y, L, m, w, M, t);
    assert Inner(c, Y, R, top);
    forall i, q | 0 <= i < |R| && 0 <= q < |Y[R[i].a].val| && Y[R[i].a].val[q] in Y
      ensures Y[Y[R[i].a].val[q]].parent == R[i].a
    {
      if m <= i < m + |M| {
        assert R[i] == M[i - m];
      } else {
        var o := if i < m then i else i + w - |M|;
        assert R[i] == L[o];
        OutsideWindow(L, m, w, o);
        assert SameBody(Y[L[o].a], X[L[o].a]);
        var s := X[L[o].a].val[q];
        assert s in Y && s in X;
        assert X[s].parent == L[o].a;
      }
    }
  }

  lemma OutsideWindow(L: seq<Entry>, m: int, w: int, o: int)
    requires NoDup(L) && 0 <= m <= m + w <= |L| && 0 <= o < |L| && !(m <= o < m + w)
    ensures L[o].a !in Addrs(L[m..m + w])
  {
  }

  lemma DropInsert<T>(C: seq<T>, t: int, x: T)
    requires 0 <= t <= |C|
    ensures Drop(Insert(C, t, x), t) == C
  {
  }

  // ---------------------------------------------------------------- a node gives up a child

  ghost function Shrunk(n: Node, q: int): Node
    requires |n.val| == |n.key| + 1 && 1 <= q < |n.val|
  {
    WithPairs(n, Drop(n.key, q - 1), Drop(n.val, q))
  }

  lemma RemoveLevel(c: Cfg, X: Image, Y: Image, L: seq<Entry>, C: seq<Entry>, top: bool, t: int, j: int, q: int)
    requires Level(c, X, L, C, top) && Spot(X, L, j, q, t) && 1 <= q
    requires |X[L[j].a].val| == |X[L[j].a].key| + 1
    requires |X[L[j].a].val| > (if top then 2 else c.order / 2)
    requires L[j].a !in Addrs(C)
    requires Y == X[L[j].a := Shrunk(X[L[j].a], q)]
    ensures 0 <= t < |C| && Level(c, Y, L, Drop(C, t), top)
  {
    hide Flat, Drop, Linked;
    var n, M := L[j].a, [L[j]];
    assert L[j..j + 1] == M;
    assert Splice(L, j, 1, M) == L;
    FlatOne(X, L[j]);
    FlatOne(Y, L[j]);
    ExpandDrop(L[j].lo, X[n], q - 1);
    DropAt(X[n].key, q - 1);
    DropAt(X[n].val, q);
    assert Linked(Y, L) by {
      LinksKept(X, Y, L);
    }
    assert Addrs(M) == {n};
    assert Rehomed(X, Y, Addrs(M), M) by {
      forall i | 0 <= i < |Y[n].val| && Y[n].val[i] in Y
        ensures Y[Y[n].val[i]].parent == n && Y[n].val[i] in X && X[Y[n].val[i]].parent == n
      {
        var o := if i < q then i else i + 1;
        assert Y[n].val[i] == X[n].val[o];
        FlatAt(X, L, j, o);
        assert X[n].val[o] in Addrs(C);
      }
    }
    RewriteLevel(c, X, Y, L, C, top, t, j, 1, M, Addrs(M));
  }

  lemma LinksKept(X: Image, Y: Image, L: seq<Entry>)
    requires In(X, L) && In(Y, L) && Linked(X, L)
    requires forall i :: 0 <= i < |L| ==> Y[L[i].a].prev == X[L[i].a].prev && Y[L[i].a].next == X[L[i].a].next
    ensures Linked(Y, L)
  {
  }

  lemma RemoveUpper(c: Cfg, X: Image, Y: Image, C: seq<Entry>, t: int, dead: Entry, up: seq<seq<Entry>>, root: int,
                    j: int, q: int)
    requires DeleteHole(c, X, C, t, dead, up, root) && up != []
    requires Spot(X, up[0], j, q, t) && 1 <= q
    requires |X[up[0][j].a].val| == |X[up[0][j].a].key| + 1
    requires |X[up[0][j].a].val| > (if |up| == 1 then 2 else c.order / 2)
    requires Y == X[up[0][j].a := Shrunk(X[up[0][j].a], q)]
    ensures Upper(c, Y, C, up, root)
  {
    hide Level, Sorted, NoDup, Insert, Drop;
    var L, C1 := up[0], Insert(C, t, dead);
    var n := L[j].a;
    UpperAddrs(c, X, C1, up, root);
    assert n in Addrs(L);
    RemoveLevel(c, X, Y, L, C1, |up| == 1, t, j, q);
    DropInsert(C, t, dead);
    InsertAddrs(C, t, dead);
    forall i | 0 <= i < |L| && L[i].a in Y ensures L[i].a in X && Y[L[i].a].parent == X[L[i].a].parent {
    }
    UpperAddrs(c, X, L, up[1..], root);
    UpperFrame(c, X, Y, L, up[1..], root);
  }

  lemma InsertAddrs(C: seq<Entry>, t: int, e: Entry)
    requires 0 <= t <= |C|
    ensures Addrs(Insert(C, t, e)) == Addrs(C) + {e.a}
  {
    var D := Insert(C, t, e);
    assert D[t] == e;
    assert forall x :: x in D <==> x in C || x == e;
  }

  // ---------------------------------------------------------------- the root gives up its last but one child

  lemma RootCollapse(c: Cfg, X: Image, Y: Image, C: seq<Entry>, t: int, dead: Entry, up: seq<seq<Entry>>, root: int,
                     q: int)
    requires DeleteHole(c, X, C, t, dead, up, root) && |up| == 1
    requires Spot(X, up[0], 0, q, t) && 1 <= q && |X[up[0][0].a].val| == 2
    requires X[up[0][0].a].val[0] in X
    requires Y == Adopt(X, X[up[0][0].a].val[0], INVALID) - {up[0][0].a}
    ensures |C| == 1 && C[0].a == X[up[0][0].a].val[0] && up[0][0].a == root
    ensures Upper(c, Y, C, [], C[0].a)
  {
    var L, C1 := up[0], Insert(C, t, dead);
    assert Upper(c, X, L, up[1..], root);
    assert up[1..] == [];
    assert L == [Entry(MIN_KEY, root)];
    FlatOne(X, L[0]);
    assert Flat(X, L[..0]) == [];
    assert t == 1 && C1 == Expand(MIN_KEY, X[root]);
    DropInsert(C, t, dead);
    assert Drop(C1, 1) == [C1[0]];
  }

  // ---------------------------------------------------------------- two neighbours

  ghost function Join(a: Node, sep: int, b: Node): Node {
    WithPairs(a, a.key + [sep] + b.key, a.val + b.val)
  }

  ghost predicate Pair(c: Cfg, X: Image, L: seq<Entry>, m: int, d: int) {
    && 0 <= m < |L| - 1 && In(X, L)
    && InnerNode(c, X[L[m].a], L[m].a, false) && InnerNode(c, X[L[m + 1].a], L[m + 1].a, false)
    && 1 <= d < |X[L[m].a].val| + |X[L[m + 1].a].val|
  }

  // The two nodes as one, with child d gone.
  ghost function JoinShrunk(c: Cfg, X: Image, L: seq<Entry>, m: int, d: int): Node
    requires Pair(c, X, L, m, d)
  {
    Shrunk(Join(X[L[m].a], L[m + 1].lo, X[L[m + 1].a]), d)
  }

  lemma WindowPair(c: Cfg, X: Image, L: seq<Entry>, m: int, d: int)
    requires Pair(c, X, L, m, d)
    ensures |Flat(X, L[m..m + 2])| == |X[L[m].a].val| + |X[L[m + 1].a].val|
    ensures Drop(Flat(X, L[m..m + 2]), d) == Expand(L[m].lo, JoinShrunk(c, X, L, m, d))
  {
    hide Flat, Drop;
    var a, b := X[L[m].a], X[L[m + 1].a];
    assert L[m..m + 2] == [L[m]] + [L[m + 1]];
    FlatOne(X, L[m]);
    FlatOne(X, L[m + 1]);
    FlatConcat(X, [L[m]], [L[m + 1]]);
    var g := Join(a, L[m + 1].lo, b);
    ExpandCut(L[m].lo, g, a, b, L[m + 1].lo);
    ExpandDrop(L[m].lo, g, d - 1);
  }

  lemma JoinShrunkShape(c: Cfg, X: Image, L: seq<Entry>, m: int, d: int)
    requires Pair(c, X, L, m, d)
    ensures !JoinShrunk(c, X, L, m, d).leaf && JoinShrunk(c, X, L, m, d).self == L[m].a
    ensures |JoinShrunk(c, X, L, m, d).val| == |JoinShrunk(c, X, L, m, d).key| + 1
    ensures |JoinShrunk(c, X, L, m, d).val| == |X[L[m].a].val| + |X[L[m + 1].a].val| - 1
  {
  }

  // ---------------------------------------------------------------- merge

  // The right node of the pair is gone and its neighbours are linked past it.
  ghost predicate MergeLinks(X: Image, Y: Image, L: seq<Entry>, m: int)
    requires In(X, L) && 0 <= m < |L| - 1
  {
    && (forall i :: 0 <= i < |L| && i != m + 1 ==> L[i].a in Y)
    && Y[L[m].a].prev == X[L[m].a].prev && Y[L[m].a].next == X[L[m + 1].a].next
    && (forall i :: 0 <= i < |L| && i != m && i != m + 1 ==>
          && Y[L[i].a].prev == (if i == m + 2 then L[m].a else X[L[i].a].prev)
          && Y[L[i].a].next == X[L[i].a].next)
  }

  lemma LinkedMerge(X: Image, Y: Image, L: seq<Entry>, m: int)
    requires In(X, L) && NoDup(L) && Linked(X, L) && 0 <= m < |L| - 1
    requires MergeLinks(X, Y, L, m)
    ensures In(Y, Drop(L, m + 1)) && NoDup(Drop(L, m + 1)) && Linked(Y, Drop(L, m + 1))
  {
    hide Drop, Linked, Before, After;
    var M := Drop(L, m + 1);
    DropAt(L, m + 1);
    assert In(Y, M) && NoDup(M);
    forall i | 0 <= i < |M|
      ensures Y[M[i].a].prev == Before(M, i) && Y[M[i].a].next == After(M, i)
    {
      MergeLinkAt(X, Y, L, m, i);
    }
    LinkedIntro(Y, M);
  }

  lemma MergeLinkAt(X: Image, Y: Image, L: seq<Entry>, m: int, i: int)
    requires In(X, L) && Linked(X, L) && 0 <= m < |L| - 1
    requires MergeLinks(X, Y, L, m)
    requires 0 <= i < |Drop(L, m + 1)|
    ensures var M := Drop(L, m + 1);
      M[i].a in Y && Y[M[i].a].prev == Before(M, i) && Y[M[i].a].next == After(M, i)
  {
    hide Drop;
    DropAt(L, m + 1);
    var o := if i <= m then i else i + 1;
    assert X[L[o].a].prev == Before(L, o) && X[L[o].a].next == After(L, o);
    assert X[L[m + 1].a].next == After(L, m + 1);
  }

  lemma MergeLevel(c: Cfg, X: Image, Y: Image, L: seq<Entry>, C: seq<Entry>, t: int, m: int, d: int)
    requires Level(c, X, L, C, false) && Pair(c, X, L, m, d) && t == Off(X, L, m) + d
    requires MergeLinks(X, Y, L, m)
    requires SameBody(Y[L[m].a], JoinShrunk(c, X, L, m, d))
    requires c.order / 2 <= |Y[L[m].a].val| <= c.order
    requires forall i :: 0 <= i < |L| && i != m && i != m + 1 ==> SameBody(Y[L[i].a], X[L[i].a])
    requires Rehomed(X, Y, {L[m].a, L[m + 1].a}, [L[m]])
    ensures 0 <= t < |C| && Level(c, Y, Drop(L, m + 1), Drop(C, t), false)
  {
    hide Flat, Linked, NoDup, JoinShrunk;
    var M := [L[m]];
    LinkedMerge(X, Y, L, m);
    assert Splice(L, m, 2, M) == Drop(L, m + 1);
    assert Addrs(L[m..m + 2]) == {L[m].a, L[m + 1].a} by {
      assert L[m..m + 2] == [L[m], L[m + 1]];
    }
    hide Drop, Splice;
    WindowPair(c, X, L, m, d);
    JoinShrunkShape(c, X, L, m, d);
    FlatOne(Y, L[m]);
    ExpandSame(L[m].lo, Y[L[m].a], JoinShrunk(c, X, L, m, d));
    RewriteLevel(c, X, Y, L, C, false, t, m, 2, M, {L[m].a, L[m + 1].a});
  }

  lemma ExpandSame(lo: int, m: Node, n: Node)
    requires SameEntries(m, n)
    ensures Expand(lo, m) == Expand(lo, n)
  {
  }

  lemma MergeHole(c: Cfg, X: Image, Y: Image, L: seq<Entry>, up: seq<seq<Entry>>, root: int, m: int)
    requires Upper(c, X, L, up, root) && In(X, L) && Sorted(L) && NoDup(L) && 0 <= m < |L| - 1
    requires INVALID !in Y && L[m + 1].a !in Y
    requires forall i :: 0 <= i < |L| && i != m + 1 ==>
      L[i].a in Y && Y[L[i].a].parent == X[L[i].a].parent && Y[L[i].a].self == L[i].a
    requires forall a :: a in AllAddrs(up) ==> a in X && a in Y && Y[a] == X[a]
    ensures DeleteHole(c, Y, Drop(L, m + 1), m + 1, L[m + 1], up, root)
  {
    hide Drop, Insert, Sorted, NoDup;
    UpperFrame(c, X, Y, L, up, root);
    InsertDrop(L, m + 1);
    DropAt(L, m + 1);
    assert In(Y, Drop(L, m + 1)) && Selfs(Y, Drop(L, m + 1));
  }

  lemma InsertDrop<T>(L: seq<T>, t: int)
    requires 0 <= t < |L|
    ensures Insert(Drop(L, t), t, L[t]) == L
  {
  }

  // ---------------------------------------------------------------- rotate

  lemma RotateLevel(c: Cfg, X: Image, Y: Image, L: seq<Entry>, C: seq<Entry>, t: int, m: int, d: int, sep: int)
    requires Level(c, X, L, C, false) && Pair(c, X, L, m, d) && t == Off(X, L, m) + d
    requires In(Y, L)
    requires forall i :: 0 <= i < |L| ==> Y[L[i].a].prev == X[L[i].a].prev && Y[L[i].a].next == X[L[i].a].next
    requires InnerNode(c, Y[L[m].a], L[m].a, false) && InnerNode(c, Y[L[m + 1].a], L[m + 1].a, false)
    requires JoinShrunk(c, X, L, m, d).key == Y[L[m].a].key + [sep] + Y[L[m + 1].a].key
    requires JoinShrunk(c, X, L, m, d).val == Y[L[m].a].val + Y[L[m + 1].a].val
    requires forall i :: 0 <= i < |L| && i != m && i != m + 1 ==> SameBody(Y[L[i].a], X[L[i].a])
    requires Rehomed(X, Y, {L[m].a, L[m + 1].a}, [L[m], Entry(sep, L[m + 1].a)])
    ensures 0 <= t < |C| && Level(c, Y, L[m + 1 := Entry(sep, L[m + 1].a)], Drop(C, t), false)
  {
    hide Flat, Linked, NoDup, JoinShrunk, Drop;
    var e := Entry(sep, L[m + 1].a);
    var M, R := [L[m], e], L[m + 1 := e];
    assert Splice(L, m, 2, M) == R;
    assert Addrs(L[m..m + 2]) == {L[m].a, e.a} by {
      assert L[m..m + 2] == [L[m], L[m + 1]];
    }
    hide Splice;
    RelabelLinked(X, Y, L, m + 1, sep);
    WindowPair(c, X, L, m, d);
    JoinShrunkShape(c, X, L, m, d);
    assert Flat(Y, M) == Expand(L[m].lo, JoinShrunk(c, X, L, m, d)) by {
      FlatOne(Y, L[m]);
      FlatOne(Y, e);
      FlatConcat(Y, [L[m]], [e]);
      assert [L[m]] + [e] == M;
      ExpandCut(L[m].lo, JoinShrunk(c, X, L, m, d), Y[L[m].a], Y[e.a], sep);
    }
    RewriteLevel(c, X, Y, L, C, false, t, m, 2, M, {L[m].a, e.a});
  }

  lemma RelabelLinked(X: Image, Y: Image, L: seq<Entry>, r: int, sep: int)
    requires In(X, L) && In(Y, L) && Linked(X, L) && NoDup(L) && 0 <= r < |L|
    requires forall i :: 0 <= i < |L| ==> Y[L[i].a].prev == X[L[i].a].prev && Y[L[i].a].next == X[L[i].a].next
    ensures In(Y, L[r := Entry(sep, L[r].a)])
    ensures Linked(Y, L[r := Entry(sep, L[r].a)]) && NoDup(L[r := Entry(sep, L[r].a)])
  {
    var R := L[r := Entry(sep, L[r].a)];
    forall i | 0 <= i < |R| ensures Y[R[i].a].prev == Before(R, i) && Y[R[i].a].next == After(R, i) {
      assert X[L[i].a].prev == Before(L, i) && X[L[i].a].next == After(L, i);
    }
  }

  // ---------------------------------------------------------------- the separator above a rotation

  lemma ExpandRelabel(lo: int, n: Node, q: int, sep: int)
    requires !n.leaf && |n.val| == |n.key| + 1 && 1 <= q < |n.val|
    ensures Expand(lo, n.(key := n.key[q - 1 := sep])) == Expand(lo, n)[q := Entry(sep, n.val[q])]
  {
  }

  lemma SeparatorLevel(c: Cfg, X: Image, Y: Image, U: seq<Entry>, L: seq<Entry>, top: bool, u: int, q: int, t: int,
                       sep: int)
    requires Level(c, X, U, L, top) && Spot(X, U, u, q, t) && 1 <= q && 0 <= t < |L|
    requires In(Y, U)
    requires forall i :: 0 <= i < |U| && i != u ==> Y[U[i].a] == X[U[i].a]
    requires |X[U[u].a].val| == |X[U[u].a].key| + 1
    requires Y[U[u].a] == X[U[u].a].(key := X[U[u].a].key[q - 1 := sep])
    requires forall i :: 0 <= i < |L| && L[i].a in Y ==> L[i].a in X && Y[L[i].a].parent == X[L[i].a].parent
    ensures Level(c, Y, U, L[t := Entry(sep, L[t].a)], top)
  {
    hide Flat, NoDup, Linked;
    var p := U[u].a;
    FlatAt(X, U, u, q);
    assert Flat(Y, U) == L[t := Entry(sep, L[t].a)] by {
      FlatSplit(X, U, u);
      ExpandRelabel(U[u].lo, X[p], q, sep);
      FlatOne(Y, U[u]);
      FlatRewrite(X, Y, U, u, [U[u]]);
      assert U[..u] + [U[u]] + U[u + 1..] == U;
    }
    LinksKept(X, Y, U);
    forall i, k | 0 <= i < |U| && 0 <= k < |Y[U[i].a].val| && Y[U[i].a].val[k] in Y
      ensures Y[Y[U[i].a].val[k]].parent == U[i].a
    {
      FlatAt(X, U, i, k);
    }
  }

  lemma SeparatorUpper(c: Cfg, X: Image, Y: Image, L: seq<Entry>, up: seq<seq<Entry>>, root: int, u: int, q: int,
                       t: int, sep: int)
    requires Upper(c, X, L, up, root) && up != []
    requires Spot(X, up[0], u, q, t) && 1 <= q && 0 <= t < |L|
    requires |X[up[0][u].a].val| == |X[up[0][u].a].key| + 1
    requires forall a :: a in AllAddrs(up) ==> a in X && a in Y
    requires forall a :: a in AllAddrs(up) && a != up[0][u].a ==> Y[a] == X[a]
    requires up[0][u].a in Y && Y[up[0][u].a] == X[up[0][u].a].(key := X[up[0][u].a].key[q - 1 := sep])
    requires forall i :: 0 <= i < |L| && L[i].a in Y ==> L[i].a in X && Y[L[i].a].parent == X[L[i].a].parent
    ensures Upper(c, Y, L[t := Entry(sep, L[t].a)], up, root)
  {
    hide Level;
    var U := up[0];
    UpperAddrs(c, X, L, up, root);
    forall i | 0 <= i < |U|
      ensures U[i].a in Addrs(U) && U[i].a in X && U[i].a in Y && Y[U[i].a].parent == X[U[i].a].parent
    {
    }
    assert forall i :: 0 <= i < |U| && i != u ==> Y[U[i].a] == X[U[i].a] by {
      LevelNoDup(c, X, U, L, |up| == 1);
    }
    SeparatorLevel(c, X, Y, U, L, |up| == 1, u, q, t, sep);
    UpperFrame(c, X, Y, U, up[1..], root);
    assert Addrs(L[t := Entry(sep, L[t].a)]) <= Addrs(L) by {
      RelabelAddrs(L, t, sep);
    }
  }

  lemma LevelNoDup(c: Cfg, X: Image, L: seq<Entry>, C: seq<Entry>, top: bool)
    requires Level(c, X, L, C, top)
    ensures forall i, j :: 0 <= i < j < |L| ==> L[i].a != L[j].a
  {
  }

  lemma RelabelAddrs(L: seq<Entry>, t: int, sep: int)
    requires 0 <= t < |L|
    ensures Addrs(L[t := Entry(sep, L[t].a)]) == Addrs(L)
  {
    var R := L[t := Entry(sep, L[t].a)];
    forall a | a in Addrs(R) ensures a in Addrs(L) {
      var i :| 0 <= i < |R| && R[i].a == a;
      assert L[i].a == a;
    }
    forall a | a in Addrs(L) ensures a in Addrs(R) {
      var i :| 0 <= i < |L| && L[i].a == a;
      assert R[i].a == a;
    }
  }
}
