/** Where a node stands: its parent, its neighbours and the parent's separators around it. */
module BptPlace {
  import opened BptLevels
  import opened BptShape
  import opened BptInsert
  import opened BptDelete
  import opened BptTree
  import opened BptBlock
  import opened BptGrow

  // ---------------------------------------------------------------- the parent

  // The node has a parent exactly when there is a level above its own.
  lemma OwnParent(c: Cfg, X: Image, L: seq<Entry>, up: seq<seq<Entry>>, root: int, j: int) returns (u: int, q: int)
    requires Upper(c, X, L, up, root) && In(X, L) && 0 <= j < |L| && INVALID !in X
    ensures up == [] <==> X[L[j].a].parent == INVALID
    ensures up == [] ==> L == [Entry(MIN_KEY, root)]
    ensures up != [] ==>
      && Spot(X, up[0], u, q, j) && up[0][u].a == X[L[j].a].parent
      && InnerNode(c, X[up[0][u].a], up[0][u].a, |up| == 1)
  {
    hide Flat, Linked, NoDup;
    u, q := 0, 0;
    if up != [] {
      u, q := Locate(X, up[0], j);
      ChildOfSpot(c, X, up[0], L, |up| == 1, u, q, j);
      assert InnerNode(c, X[up[0][u].a], up[0][u].a, |up| == 1);
    }
  }

  lemma RouteToChild(c: Cfg, X: Image, U: seq<Entry>, L: seq<Entry>, top: bool, u: int, q: int, j: int, k: int)
    requires Level(c, X, U, L, top) && Sorted(L) && Spot(X, U, u, q, j) && 0 <= j < |L| && Within(L, j, k)
    ensures Route(X[U[u].a].key, q, k)
  {
    hide Flat, Linked, NoDup, Parents;
    assert InnerNode(c, X[U[u].a], U[u].a, top);
    var K := X[U[u].a].key;
    forall m | 0 <= m < |K| ensures m < q ==> K[m] <= k ensures q <= m ==> k < K[m] {
      FlatAt(X, U, u, m + 1);
      assert L[j - q + m + 1].lo == K[m];
    }
  }

  lemma RouteUnique(K: seq<int>, p: int, q: int, k: int)
    requires Route(K, p, k) && Route(K, q, k)
    ensures p == q
  {
    assert p < |K| ==> (p < q <==> K[p] <= k);
    assert q < |K| ==> (q < p <==> K[q] <= k);
  }

  // The first separator of a node lies within the node's own bounds.
  lemma FirstKeyWithin(c: Cfg, X: Image, L: seq<Entry>, C: seq<Entry>, top: bool, j: int)
    requires CfgOK(c) && Level(c, X, L, C, top) && Sorted(C) && 0 <= j < |L|
    ensures InnerNode(c, X[L[j].a], L[j].a, top) && |X[L[j].a].key| > 0 && Within(L, j, X[L[j].a].key[0])
  {
    hide Flat, Linked, NoDup, Parents;
    assert InnerNode(c, X[L[j].a], L[j].a, top);
    FlatAt(X, L, j, 0);
    FlatAt(X, L, j, 1);
    if j + 1 < |L| {
      assert InnerNode(c, X[L[j + 1].a], L[j + 1].a, top);
      OffStep(X, L, j);
      FlatAt(X, L, j + 1, 0);
    }
  }

  // ---------------------------------------------------------------- neighbours under one parent

  lemma LeftSibling(c: Cfg, X: Image, U: seq<Entry>, L: seq<Entry>, top: bool, u: int, q: int, j: int)
    requires Level(c, X, U, L, top) && Spot(X, U, u, q, j) && 1 <= q
    ensures 1 <= j < |L| && L[j].lo == X[U[u].a].key[q - 1] && InnerNode(c, X[U[u].a], U[u].a, top)
  {
    hide Flat, Linked, NoDup, Parents;
    assert InnerNode(c, X[U[u].a], U[u].a, top);
    FlatAt(X, U, u, q);
  }

  lemma RightSibling(c: Cfg, X: Image, U: seq<Entry>, L: seq<Entry>, top: bool, u: int, q: int, j: int)
    requires Level(c, X, U, L, top) && Spot(X, U, u, q, j) && q + 1 < |X[U[u].a].val|
    ensures 0 <= j < |L| - 1 && Spot(X, U, u, q + 1, j + 1)
  {
    hide Flat, Linked, NoDup, Parents;
    FlatAt(X, U, u, q);
    FlatAt(X, U, u, q + 1);
  }

  // ---------------------------------------------------------------- distinct addresses

  // Prev, next and parent of a node that has a parent are three different blocks.
  lemma Relatives(c: Cfg, X: Image, L: seq<Entry>, C: seq<Entry>, up: seq<seq<Entry>>, root: int, j: int, u: int)
    requires Upper(c, X, C, [L] + up, root) && up != [] && 0 <= j < |L| && 0 <= u < |up[0]| && INVALID !in X
    ensures var n, pa := X[L[j].a], up[0][u].a;
      && n.prev == Before(L, j) && n.next == After(L, j) && n.self == L[j].a && pa in X && X[pa].self == pa
      && (n.prev != INVALID ==> j > 0 && n.prev in X && X[n.prev].self == n.prev && n.prev != n.next)
      && (n.next != INVALID ==> j < |L| - 1 && n.next in X && X[n.next].self == n.next)
      && pa != n.prev && pa != n.next && pa != L[j].a && n.prev != L[j].a && n.next != L[j].a
  {
    hide Flat, Parents, Upper;
    var all := [L] + up;
    assert all[1..] == up;
    UpperStep(c, X, C, all, root);
    UpperStep(c, X, L, up, root);
    assert X[L[j].a].prev == Before(L, j) && X[L[j].a].next == After(L, j);
    assert up[0][u].a in Addrs(up[0]) && InnerNode(c, X[up[0][u].a], up[0][u].a, |up| == 1);
    assert L[j].a in Addrs(L) && InnerNode(c, X[L[j].a], L[j].a, |all| == 1);
    if j > 0 {
      assert L[j - 1].a in Addrs(L) && InnerNode(c, X[L[j - 1].a], L[j - 1].a, |all| == 1);
    }
    if j < |L| - 1 {
      assert L[j + 1].a in Addrs(L) && InnerNode(c, X[L[j + 1].a], L[j + 1].a, |all| == 1);
    }
  }

  // ---------------------------------------------------------------- children around a hole

  lemma KeptChild(c: Cfg, X: Image, C: seq<Entry>, t: int, dead: Entry, up: seq<seq<Entry>>, root: int, j: int, p: int)
    requires DeleteHole(c, X, C, t, dead, up, root) && up != [] && In(X, up[0])
    requires 0 <= j < |up[0]| && 0 <= p < |X[up[0][j].a].val| && Off(X, up[0], j) + p != t
    ensures var s := X[up[0][j].a].val[p]; s in X && X[s].self == s && s in Addrs(C) && s !in AllAddrs(up)
  {
    hide Flat, Insert, Level, Upper, Sorted, NoDup;
    UpperStep(c, X, Insert(C, t, dead), up, root);
    var o := Off(X, up[0], j) + p;
    ChildOfSpot(c, X, up[0], Insert(C, t, dead), |up| == 1, j, p, o);
    InsertAt(C, t, dead);
    InsertAddrs(C, t, dead);
    assert C[if o < t then o else o - 1].a == X[up[0][j].a].val[p];
  }

  lemma DeadChild(c: Cfg, X: Image, C: seq<Entry>, t: int, dead: Entry, up: seq<seq<Entry>>, root: int, j: int, p: int)
    requires DeleteHole(c, X, C, t, dead, up, root) && up != [] && Spot(X, up[0], j, p, t)
    ensures X[up[0][j].a].val[p] == dead.a && dead.a !in X && InnerNode(c, X[up[0][j].a], up[0][j].a, |up| == 1)
  {
    hide Flat, Insert, Upper, Sorted, NoDup, Linked, Parents;
    UpperStep(c, X, Insert(C, t, dead), up, root);
    ChildOfSpot(c, X, up[0], Insert(C, t, dead), |up| == 1, j, p, t);
    InsertAt(C, t, dead);
    assert InnerNode(c, X[up[0][j].a], up[0][j].a, |up| == 1);
  }

  lemma DistinctChildren(c: Cfg, X: Image, L: seq<Entry>, C: seq<Entry>, top: bool, j: int)
    requires Level(c, X, L, C, top) && NoDup(C) && 0 <= j < |L|
    ensures forall p, q :: 0 <= p < q < |X[L[j].a].val| ==> X[L[j].a].val[p] != X[L[j].a].val[q]
  {
    hide Flat, Linked, Parents, Inner;
    var V := X[L[j].a].val;
    forall p, q | 0 <= p < q < |V| ensures V[p] != V[q] {
      FlatAt(X, L, j, p);
      FlatAt(X, L, j, q);
    }
  }
}
