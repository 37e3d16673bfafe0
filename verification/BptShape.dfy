/** The invariant of a whole tree, and of a tree with one level out of step. */
module BptShape {
  import opened BptLevels

  // ---------------------------------------------------------------- inner nodes as pairs

  ghost predicate SameBody(m: Node, n: Node) {
    SameEntries(m, n) && m.self == n.self
  }

  // A key and two children in place of the p-th child.
  ghost function Grow(E: seq<Entry>, p: int, l: int, r: int, key: int): seq<Entry>
    requires 0 <= p < |E|
  {
    E[..p] + [Entry(E[p].lo, l), Entry(key, r)] + E[p + 1..]
  }

  ghost function Drop<T>(E: seq<T>, p: int): seq<T>
    requires 0 <= p < |E|
  {
    E[..p] + E[p + 1..]
  }

  ghost function Insert<T>(E: seq<T>, p: int, x: T): seq<T>
    requires 0 <= p <= |E|
  {
    E[..p] + [x] + E[p..]
  }

  lemma InsertAt<T>(E: seq<T>, p: int, x: T)
    requires 0 <= p <= |E|
    ensures |Insert(E, p, x)| == |E| + 1 && Insert(E, p, x)[p] == x
    ensures forall i {:trigger Insert(E, p, x)[i]} :: 0 <= i < p ==> Insert(E, p, x)[i] == E[i]
    ensures forall i {:trigger Insert(E, p, x)[i]} :: p < i <= |E| ==> Insert(E, p, x)[i] == E[i - 1]
  {
  }

  lemma DropAt<T>(E: seq<T>, p: int)
    requires 0 <= p < |E|
    ensures |Drop(E, p)| == |E| - 1
    ensures forall i {:trigger Drop(E, p)[i]} :: 0 <= i < p ==> Drop(E, p)[i] == E[i]
    ensures forall i {:trigger Drop(E, p)[i]} :: p <= i < |E| - 1 ==> Drop(E, p)[i] == E[i + 1]
  {
  }

  ghost function WithPairs(n: Node, K: seq<int>, S: seq<int>): Node {
    n.(key := K, val := S)
  }

  lemma ExpandGrow(lo: int, n: Node, p: int, l: int, r: int, key: int)
    requires !n.leaf && |n.val| == |n.key| + 1 && 0 <= p < |n.val|
    ensures Expand(lo, WithPairs(n, Insert(n.key, p, key), n.val[..p] + [l, r] + n.val[p + 1..]))
         == Grow(Expand(lo, n), p, l, r, key)
  {
  }

  lemma ExpandDrop(lo: int, n: Node, p: int)
    requires !n.leaf && |n.val| == |n.key| + 1 && 0 <= p < |n.key|
    ensures Expand(lo, WithPairs(n, Drop(n.key, p), Drop(n.val, p + 1))) == Drop(Expand(lo, n), p + 1)
  {
  }

  // Two neighbours under a common separator are one node cut in two.
  lemma ExpandCut(lo: int, m: Node, l: Node, r: Node, sep: int)
    requires !m.leaf && !l.leaf && !r.leaf
    requires |m.val| == |m.key| + 1 && |l.val| == |l.key| + 1 && |r.val| == |r.key| + 1
    requires m.val == l.val + r.val
    requires m.key == l.key + [sep] + r.key
    ensures Expand(lo, m) == Expand(lo, l) + Expand(sep, r)
  {
  }

  // ---------------------------------------------------------------- a level

  ghost predicate InnerNode(c: Cfg, n: Node, a: int, top: bool) {
    && n.self == a && !n.leaf && |n.val| == |n.key| + 1
    && (if top then 2 else c.order / 2) <= |n.val| <= c.order
  }

  ghost predicate Inner(c: Cfg, X: Image, L: seq<Entry>, top: bool)
    requires In(X, L)
  {
    forall i :: 0 <= i < |L| ==> InnerNode(c, X[L[i].a], L[i].a, top)
  }

  // Children that are still part of the tree point back to their node.
  ghost predicate Parents(X: Image, L: seq<Entry>)
    requires In(X, L)
  {
    forall i, q :: 0 <= i < |L| && 0 <= q < |X[L[i].a].val| && X[L[i].a].val[q] in X ==>
      X[X[L[i].a].val[q]].parent == L[i].a
  }

  ghost predicate Level(c: Cfg, X: Image, L: seq<Entry>, C: seq<Entry>, top: bool) {
    && |L| > 0 && In(X, L) && NoDup(L) && Linked(X, L) && Inner(c, X, L, top)
    && Flat(X, L) == C && Parents(X, L)
  }

  ghost function AllAddrs(up: seq<seq<Entry>>): set<int> {
    if up == [] then {} else Addrs(up[0]) + AllAddrs(up[1..])
  }

  // The levels above the list C, ending in the root.
  ghost predicate Upper(c: Cfg, X: Image, C: seq<Entry>, up: seq<seq<Entry>>, root: int)
    decreases |up|
  {
    if up == [] then
      C == [Entry(MIN_KEY, root)] && (root in X ==> X[root].parent == INVALID)
    else
      && Level(c, X, up[0], C, |up| == 1)
      && Addrs(C) !! AllAddrs(up)
      && Upper(c, X, up[0], up[1..], root)
  }

  lemma LevelFrame(c: Cfg, X: Image, Y: Image, L: seq<Entry>, C: seq<Entry>, top: bool)
    requires Level(c, X, L, C, top)
    requires forall i :: 0 <= i < |L| ==> L[i].a in Y && Y[L[i].a] == X[L[i].a]
    requires forall i :: 0 <= i < |C| && C[i].a in Y ==> C[i].a in X && Y[C[i].a].parent == X[C[i].a].parent
    ensures Level(c, Y, L, C, top)
  {
    FlatFrame(X, Y, L);
    forall i, q | 0 <= i < |L| && 0 <= q < |Y[L[i].a].val| && Y[L[i].a].val[q] in Y
      ensures Y[Y[L[i].a].val[q]].parent == L[i].a
    {
      FlatAt(X, L, i, q);
    }
  }

  lemma {:induction false} UpperFrame(c: Cfg, X: Image, Y: Image, C: seq<Entry>, up: seq<seq<Entry>>, root: int)
    requires Upper(c, X, C, up, root)
    requires forall a :: a in AllAddrs(up) ==> a in X && a in Y && Y[a] == X[a]
    requires forall i :: 0 <= i < |C| && C[i].a in Y ==> C[i].a in X && Y[C[i].a].parent == X[C[i].a].parent
    ensures Upper(c, Y, C, up, root)
    decreases |up|
  {
    hide Level;
    if up == [] {
      assert C[0].a == root;
    } else {
      var L := up[0];
      forall i | 0 <= i < |L| ensures L[i].a in X && L[i].a in Y && Y[L[i].a] == X[L[i].a] {
        assert L[i].a in Addrs(L);
      }
      LevelFrame(c, X, Y, L, C, |up| == 1);
      UpperFrame(c, X, Y, L, up[1..], root);
    }
  }

  lemma {:induction false} UpperAddrs(c: Cfg, X: Image, C: seq<Entry>, up: seq<seq<Entry>>, root: int)
    requires Upper(c, X, C, up, root)
    ensures AllAddrs(up) <= X.Keys
    ensures up != [] ==> Addrs(up[0]) <= AllAddrs(up) && Addrs(up[0]) !! AllAddrs(up[1..])
    decreases |up|
  {
    hide Linked, NoDup, Inner, Flat, Parents;
    if up != [] {
      UpperAddrs(c, X, up[0], up[1..], root);
    }
  }
}
