/** What the four ways to refill an inner node make of the tree, on values. */
module BptRebalance {
  import opened BptLevels
  import opened BptShape
  import opened BptInsert
  import opened BptDelete
  import opened BptGrow
  import opened BptShrink
  import opened BptPlace

  // Child q of the parent is the node that lost its child remove + 1.
  ghost predicate Beneath(c: Cfg, X: Image, C: seq<Entry>, t: int, dead: Entry, up: seq<seq<Entry>>, root: int,
                          j: int, remove: int, u: int, q: int) {
    && CfgOK(c) && DeleteHole(c, X, C, t, dead, up, root) && |up| >= 2
    && 0 <= remove && Spot(X, up[0], j, remove + 1, t) && Spot(X, up[1], u, q, j)
  }

  lemma Around(c: Cfg, X: Image, C: seq<Entry>, t: int, dead: Entry, up: seq<seq<Entry>>, root: int, j: int,
               remove: int, u: int, q: int)
    requires Beneath(c, X, C, t, dead, up, root, j, remove, u, q)
    ensures Level(c, X, up[0], Insert(C, t, dead), false) && Upper(c, X, up[0], up[1..], root)
    ensures Level(c, X, up[1], up[0], |up| == 2) && NoDup(Insert(C, t, dead))
    ensures In(X, up[0]) && InnerNode(c, X[up[0][j].a], up[0][j].a, false)
    ensures InnerNode(c, X[up[1][u].a], up[1][u].a, |up| == 2)
    ensures up[0][j].a !in AllAddrs(up[1..]) && up[1][u].a in AllAddrs(up[1..])
    ensures Addrs(Insert(C, t, dead)) !! AllAddrs(up)
  {
    hide Flat, Insert, Upper, Linked, Parents, NoDup, Sorted;
    UpperStep(c, X, Insert(C, t, dead), up, root);
    UpperStep(c, X, up[0], up[1..], root);
    assert InnerNode(c, X[up[0][j].a], up[0][j].a, false);
    assert InnerNode(c, X[up[1][u].a], up[1][u].a, |up| == 2);
    assert up[0][j].a in Addrs(up[0]) && up[1][u].a in Addrs(up[1]);
  }

  // The pair of the node at m and its right neighbour, both under child q - 1 and q of the parent.
  lemma PairAround(c: Cfg, X: Image, C: seq<Entry>, t: int, dead: Entry, up: seq<seq<Entry>>, root: int, m: int, u: int,
                   q: int)
    requires CfgOK(c) && DeleteHole(c, X, C, t, dead, up, root) && |up| >= 2
    requires Spot(X, up[1], u, q, m + 1) && 1 <= q
    ensures 0 <= t <= |C| && 0 <= m < |up[0]| - 1 && In(X, up[0])
    ensures InnerNode(c, X[up[0][m].a], up[0][m].a, false) && InnerNode(c, X[up[0][m + 1].a], up[0][m + 1].a, false)
    ensures InnerNode(c, X[up[1][u].a], up[1][u].a, |up| == 2) && up[0][m + 1].lo == X[up[1][u].a].key[q - 1]
    ensures Level(c, X, up[0], Insert(C, t, dead), false) && NoDup(Insert(C, t, dead))
    ensures up[0][m].a != up[0][m + 1].a && up[0][m].a != up[1][u].a && up[0][m + 1].a != up[1][u].a
    ensures up[0][m].a in AllAddrs(up) && up[0][m + 1].a in AllAddrs(up) && up[1][u].a in AllAddrs(up)
  {
    hide Flat, Insert, Upper, Linked, Parents, Sorted;
    UpperStep(c, X, Insert(C, t, dead), up, root);
    UpperStep(c, X, up[0], up[1..], root);
    LeftSibling(c, X, up[1], up[0], |up| == 2, u, q, m + 1);
    assert InnerNode(c, X[up[0][m].a], up[0][m].a, false) && InnerNode(c, X[up[0][m + 1].a], up[0][m + 1].a, false);
    assert up[0][m].a in Addrs(up[0]) && up[0][m + 1].a in Addrs(up[0]) && up[1][u].a in Addrs(up[1]);
    assert AllAddrs(up) == Addrs(up[0]) + AllAddrs(up[1..]);
  }

  // ---------------------------------------------------------------- sequences

  lemma DropRight<T>(A: seq<T>, B: seq<T>, p: int)
    requires 0 <= p < |B|
    ensures Drop(A + B, |A| + p) == A + Drop(B, p)
  {
    assert (A + B)[..|A| + p] == A + B[..p];
  }

  lemma DropLeft<T>(A: seq<T>, B: seq<T>, p: int)
    requires 0 <= p < |A|
    ensures Drop(A + B, p) == Drop(A, p) + B
  {
    assert (A + B)[p + 1..] == A[p + 1..] + B;
  }

  lemma LastFirst<T>(A: seq<T>, B: seq<T>)
    requires |A| > 0
    ensures A + B == A[..|A| - 1] + ([A[|A| - 1]] + B)
  {
  }

  lemma FirstLast<T>(A: seq<T>, B: seq<T>)
    requires |B| > 0
    ensures A + B == (A + [B[0]]) + B[1..]
  {
  }

  lemma Assoc<T>(A: seq<T>, B: seq<T>, D: seq<T>)
    ensures A + (B + D) == A + B + D
  {
  }

  // The pair as one node, the dead child in the right half.
  lemma JoinShrunkRight(c: Cfg, X: Image, L: seq<Entry>, m: int, remove: int)
    requires 0 <= m < |L| - 1 && In(X, L) && Pair(c, X, L, m, |X[L[m].a].val| + remove + 1)
    requires 0 <= remove < |X[L[m + 1].a].key|
    ensures var w := JoinShrunk(c, X, L, m, |X[L[m].a].val| + remove + 1);
      && w.key == X[L[m].a].key + [L[m + 1].lo] + Drop(X[L[m + 1].a].key, remove)
      && w.val == X[L[m].a].val + Drop(X[L[m + 1].a].val, remove + 1)
      && w.self == L[m].a && !w.leaf
  {
    hide Drop;
    DropRight(X[L[m].a].key + [L[m + 1].lo], X[L[m + 1].a].key, remove);
    DropRight(X[L[m].a].val, X[L[m + 1].a].val, remove + 1);
  }

  // The pair as one node, the dead child in the left half.
  lemma JoinShrunkLeft(c: Cfg, X: Image, L: seq<Entry>, m: int, remove: int)
    requires Pair(c, X, L, m, remove + 1) && 0 <= remove < |X[L[m].a].key|
    ensures var w := JoinShrunk(c, X, L, m, remove + 1);
      && w.key == Drop(X[L[m].a].key, remove) + [L[m + 1].lo] + X[L[m + 1].a].key
      && w.val == Drop(X[L[m].a].val, remove + 1) + X[L[m + 1].a].val
      && w.self == L[m].a && !w.leaf
  {
    hide Drop;
    var K, R := X[L[m].a].key, [L[m + 1].lo] + X[L[m + 1].a].key;
    Assoc(K, [L[m + 1].lo], X[L[m + 1].a].key);
    DropLeft(K, R, remove);
    Assoc(Drop(K, remove), [L[m + 1].lo], X[L[m + 1].a].key);
    DropLeft(X[L[m].a].val, X[L[m + 1].a].val, remove + 1);
  }

  lemma DropIn<T>(A: seq<T>, p: int)
    requires 0 <= p < |A|
    ensures |Drop(A, p)| == |A| - 1 && forall x :: x in Drop(A, p) ==> x in A
  {
  }

  // ---------------------------------------------------------------- borrowing

  lemma BorrowLeftDone(c: Cfg, X: Image, Y: Image, C: seq<Entry>, t: int, dead: Entry, up: seq<seq<Entry>>, root: int,
                       j: int, remove: int, u: int, q: int, s: int, sep: int)
    requires Beneath(c, X, C, t, dead, up, root, j, remove, u, q) && 1 <= q && 1 <= j
    requires var n, la, pa := up[0][j].a, up[0][j - 1].a, up[1][u].a;
      && la in X && |X[la].val| > c.order / 2 && |X[la].val| == |X[la].key| + 1 && |X[la].key| > 0
      && |X[pa].val| == |X[pa].key| + 1 && remove < |X[n].key| && remove + 1 < |X[n].val|
      && s in X && s == X[la].val[|X[la].val| - 1] && sep == X[la].key[|X[la].key| - 1]
      && Y == X[s := X[s].(parent := n)]
               [n := X[n].(key := [X[pa].key[q - 1]] + Drop(X[n].key, remove), val := [s] + Drop(X[n].val, remove + 1))]
               [la := X[la].(key := X[la].key[..|X[la].key| - 1], val := X[la].val[..|X[la].val| - 1])]
               [pa := X[pa].(key := X[pa].key[q - 1 := sep])]
    ensures var M := up[0][j := Entry(sep, up[0][j].a)];
      Upper(c, Y, C, [M] + up[1..], root) && Reshaped(X, Y, C, up, [M] + up[1..])
  {
    hide Upper, Level, DeleteHole, Reshaped, Insert, Drop, Flat, JoinShrunk, AllAddrs;
    var n, la, pa, L, m := up[0][j].a, up[0][j - 1].a, up[1][u].a, up[0], j - 1;
    var d := |X[la].val| + remove + 1;
    PairAround(c, X, C, t, dead, up, root, m, u, q);
    OffStep(X, L, m);
    JoinShrunkRight(c, X, L, m, remove);
    var V, K := X[la].val, X[la].key;
    LastFirst(V, Drop(X[n].val, remove + 1));
    calc {
      K + [L[j].lo] + Drop(X[n].key, remove);
      { Assoc(K, [L[j].lo], Drop(X[n].key, remove)); }
      K + ([L[j].lo] + Drop(X[n].key, remove));
      { LastFirst(K, [L[j].lo] + Drop(X[n].key, remove)); }
      K[..|K| - 1] + ([sep] + ([L[j].lo] + Drop(X[n].key, remove)));
      { Assoc(K[..|K| - 1], [sep], [L[j].lo] + Drop(X[n].key, remove)); }
      K[..|K| - 1] + [sep] + ([L[j].lo] + Drop(X[n].key, remove));
    }
    DropIn(X[n].val, remove + 1);
    DropIn(X[n].key, remove);
    KeptChild(c, X, C, t, dead, up, root, m, |V| - 1);
    DistinctChildren(c, X, L, Insert(C, t, dead), false, m);
    assert Stayed(X, Y[la].val, X[la].val, s, false);
    assert Stayed(X, Y[n].val, X[n].val, s, true);
    RotateDone(c, X, Y, C, t, dead, up, root, m, d, sep, s, n, u, q);
  }

  lemma BorrowRightDone(c: Cfg, X: Image, Y: Image, C: seq<Entry>, t: int, dead: Entry, up: seq<seq<Entry>>, root: int,
                        j: int, remove: int, u: int, q: int, s: int, sep: int)
    requires CfgOK(c) && DeleteHole(c, X, C, t, dead, up, root) && |up| >= 2
    requires 0 <= remove && Spot(X, up[0], j, remove + 1, t) && Spot(X, up[1], u, q, j + 1) && 1 <= q && j + 1 < |up[0]|
    requires var n, ra, pa := up[0][j].a, up[0][j + 1].a, up[1][u].a;
      && ra in X && |X[ra].val| > c.order / 2 && |X[ra].val| == |X[ra].key| + 1 && |X[ra].key| > 0
      && |X[pa].val| == |X[pa].key| + 1 && remove < |X[n].key| && remove + 1 < |X[n].val|
      && s in X && s == X[ra].val[0] && sep == X[ra].key[0]
      && Y == X[s := X[s].(parent := n)]
               [n := X[n].(key := Drop(X[n].key, remove) + [X[pa].key[q - 1]], val := Drop(X[n].val, remove + 1) + [s])]
               [ra := X[ra].(key := X[ra].key[1..], val := X[ra].val[1..])]
               [pa := X[pa].(key := X[pa].key[q - 1 := sep])]
    ensures var M := up[0][j + 1 := Entry(sep, up[0][j + 1].a)];
      Upper(c, Y, C, [M] + up[1..], root) && Reshaped(X, Y, C, up, [M] + up[1..])
  {
    hide Upper, Level, DeleteHole, Reshaped, Insert, Drop, Flat, JoinShrunk, AllAddrs;
    var n, ra, pa, L := up[0][j].a, up[0][j + 1].a, up[1][u].a, up[0];
    PairAround(c, X, C, t, dead, up, root, j, u, q);
    OffStep(X, L, j);
    JoinShrunkLeft(c, X, L, j, remove);
    var V, K := X[ra].val, X[ra].key;
    FirstLast(Drop(X[n].val, remove + 1), V);
    FirstLast(Drop(X[n].key, remove) + [L[j + 1].lo], K);
    DropIn(X[n].val, remove + 1);
    DropIn(X[n].key, remove);
    KeptChild(c, X, C, t, dead, up, root, j + 1, 0);
    DistinctChildren(c, X, L, Insert(C, t, dead), false, j + 1);
    assert Stayed(X, Y[ra].val, X[ra].val, s, false);
    assert Stayed(X, Y[n].val, X[n].val, s, true);
    RotateDone(c, X, Y, C, t, dead, up, root, j, remove + 1, sep, s, n, u, q);
  }

  // ---------------------------------------------------------------- merging

  // The hole has moved one level up, to the separator of the pair at m.
  ghost predicate Climbed(c: Cfg, X: Image, Y: Image, C: seq<Entry>, up: seq<seq<Entry>>, root: int, m: int, u: int,
                          q: int) {
    && |up| >= 2 && 0 <= m < |up[0]| - 1
    && Level(c, Y, Drop(up[0], m + 1), C, false)
    && DeleteHole(c, Y, Drop(up[0], m + 1), m + 1, up[0][m + 1], up[1..], root)
    && MergeFrame(X, Y, C, up[0], up[0][m + 1].a)
    && Spot(Y, up[1], u, q, m + 1)
  }

  lemma MergeClimb(c: Cfg, X: Image, Y: Image, C: seq<Entry>, t: int, dead: Entry, up: seq<seq<Entry>>, root: int,
                   m: int, d: int, u: int, q: int)
    requires CfgOK(c) && DeleteHole(c, X, C, t, dead, up, root) && |up| >= 2
    requires Pair(c, X, up[0], m, d) && t == Off(X, up[0], m) + d && Spot(X, up[1], u, q, m + 1)
    requires MergeEffect(X, Y, up[0][m].a, up[0][m + 1].a, X[up[0][m + 1].a].val)
    requires SameBody(Y[up[0][m].a], JoinShrunk(c, X, up[0], m, d))
    requires c.order / 2 <= |Y[up[0][m].a].val| <= c.order
    ensures Climbed(c, X, Y, C, up, root, m, u, q)
  {
    hide Upper, Level, JoinShrunk, Flat, MergeEffect, Insert, NoDup, Sorted;
    MergeStep(c, X, Y, C, t, dead, up, root, m, d);
    UpperStep(c, X, Insert(C, t, dead), up, root);
    UpperStep(c, X, up[0], up[1..], root);
    InsertAddrs(C, t, dead);
    UpperAddrs(c, X, up[0], up[1..], root);
    SpotFrame(X, Y, up[1], u, q, m + 1);
  }

  lemma JoinLeftClimb(c: Cfg, X: Image, Y: Image, C: seq<Entry>, t: int, dead: Entry, up: seq<seq<Entry>>, root: int,
                      j: int, remove: int, u: int, q: int)
    requires Beneath(c, X, C, t, dead, up, root, j, remove, u, q) && 1 <= q && 1 <= j
    requires var n, la, pa := up[0][j].a, up[0][j - 1].a, up[1][u].a;
      && la in X && |X[la].val| <= (c.order + 1) / 2 && |X[n].val| <= (c.order + 1) / 2 && q <= |X[pa].key|
      && remove < |X[n].key| && remove + 1 < |X[n].val|
      && MergeEffect(X, Y, la, n, X[n].val)
      && Y[la].key == X[la].key + [X[pa].key[q - 1]] + Drop(X[n].key, remove)
      && Y[la].val == X[la].val + Drop(X[n].val, remove + 1)
    ensures Climbed(c, X, Y, C, up, root, j - 1, u, q)
  {
    hide Upper, Level, DeleteHole, Insert, Drop, Flat, JoinShrunk, AllAddrs, NoDup, Sorted;
    var la := up[0][j - 1].a;
    PairAround(c, X, C, t, dead, up, root, j - 1, u, q);
    OffStep(X, up[0], j - 1);
    JoinShrunkRight(c, X, up[0], j - 1, remove);
    DropIn(X[up[0][j].a].val, remove + 1);
    MergeClimb(c, X, Y, C, t, dead, up, root, j - 1, |X[la].val| + remove + 1, u, q);
  }

  lemma JoinRightClimb(c: Cfg, X: Image, Y: Image, C: seq<Entry>, t: int, dead: Entry, up: seq<seq<Entry>>, root: int,
                       j: int, remove: int, u: int, q: int)
    requires CfgOK(c) && DeleteHole(c, X, C, t, dead, up, root) && |up| >= 2
    requires 0 <= remove && Spot(X, up[0], j, remove + 1, t) && Spot(X, up[1], u, q, j + 1) && 1 <= q && j + 1 < |up[0]|
    requires var n, ra, pa := up[0][j].a, up[0][j + 1].a, up[1][u].a;
      && ra in X && |X[ra].val| <= (c.order + 1) / 2 && |X[n].val| <= (c.order + 1) / 2 && q <= |X[pa].key|
      && remove < |X[n].key| && remove + 1 < |X[n].val|
      && MergeEffect(X, Y, n, ra, X[ra].val)
      && Y[n].key == Drop(X[n].key, remove) + [X[pa].key[q - 1]] + X[ra].key
      && Y[n].val == Drop(X[n].val, remove + 1) + X[ra].val
    ensures Climbed(c, X, Y, C, up, root, j, u, q)
  {
    hide Upper, Level, DeleteHole, Insert, Drop, Flat, JoinShrunk, AllAddrs, NoDup, Sorted;
    PairAround(c, X, C, t, dead, up, root, j, u, q);
    JoinShrunkLeft(c, X, up[0], j, remove);
    DropIn(X[up[0][j].a].val, remove + 1);
    MergeClimb(c, X, Y, C, t, dead, up, root, j, remove + 1, u, q);
  }
}
