/** From the halves of one node to the level it belongs to, and to the hole above. */
module BptGrow {
  import opened BptLevels
  import opened BptShape
  import opened BptInsert
  import opened BptBlock
  import opened BptEdit
  import opened BptSplit

  // The children of a grown node, in place in the level below.
  lemma GrownInC(c: Cfg, X: Image, C: seq<Entry>, t: int, was: int, L: seq<Entry>, top: bool, j: int, p: int, q: int)
    requires 0 <= t < |C| - 1 && Level(c, X, L, Collapse(C, t, was), top) && Spot(X, L, j, p, t)
    requires |X[L[j].a].val| == |X[L[j].a].key| + 1
    requires 0 <= q <= |X[L[j].a].val|
    ensures var g := Grown(X[L[j].a], p, C[t].a, C[t + 1].a, C[t + 1].lo);
      0 <= t - p + q < |C| && |g.val| == |X[L[j].a].val| + 1 && g.val[q] == C[t - p + q].a
  {
    hide Flat, Linked, NoDup, Inner, Parents, Collapse, Grown;
    var n := X[L[j].a];
    GrownAt(n, p, C[t].a, C[t + 1].a, C[t + 1].lo);
    CollapseIs(C, t, was);
    FlatAt(X, L, j, p);
    if q < p {
      FlatAt(X, L, j, q);
    } else if q > p + 1 {
      FlatAt(X, L, j, q - 1);
    }
  }

  lemma CollapseIs(C: seq<Entry>, t: int, was: int)
    requires 0 <= t < |C| - 1
    ensures |Collapse(C, t, was)| == |C| - 1
    ensures forall i {:trigger Collapse(C, t, was)[i]} :: 0 <= i < t ==> Collapse(C, t, was)[i] == C[i]
    ensures forall i {:trigger Collapse(C, t, was)[i]} :: t < i < |C| - 1 ==> Collapse(C, t, was)[i] == C[i + 1]
  {
  }

  // ---------------------------------------------------------------- links

  lemma HalvedLinks(X: Image, Y: Image, Z: Image, L: seq<Entry>, j: int, n: int, x: int, la: int, ra: int,
                    moved: seq<int>, toLeft: bool, vn: Node, vx: Node)
    requires In(X, L) && NoDup(L) && Linked(X, L) && 0 <= j < |L| && n == L[j].a && x !in X && INVALID !in X
    requires SplitEffect(X, Y, n, x, la, ra, moved, toLeft)
    requires Z == Y[n := vn][x := vx]
    requires if toLeft then vx.prev == X[n].prev && vx.next == n && vn.prev == x && vn.next == X[n].next
             else vn.prev == X[n].prev && vn.next == x && vx.prev == n && vx.next == X[n].next
    ensures SplitLinks(X, Z, L, j, if toLeft then x else n, if toLeft then n else x)
  {
    forall i | 0 <= i < |L| && i != j
      ensures L[i].a in Z && L[i].a != n && L[i].a != x
      ensures Z[L[i].a].prev == (if i == j + 1 then if toLeft then n else x else X[L[i].a].prev)
      ensures Z[L[i].a].next == (if i == j - 1 then if toLeft then x else n else X[L[i].a].next)
    {
      assert X[n].prev == Before(L, j) && X[n].next == After(L, j);
      assert X[L[i].a].prev == Before(L, i) && X[L[i].a].next == After(L, i);
    }
  }

  // ---------------------------------------------------------------- parents

  lemma HalvedAdopted(c: Cfg, X: Image, Y: Image, Z: Image, C: seq<Entry>, t: int, was: int, L: seq<Entry>, top: bool,
                      j: int, p: int, x: int, toLeft: bool, cut: int, vn: Node, vx: Node, g: Node)
    requires 0 <= t < |C| - 1 && In(X, C) && NoDup(C) && INVALID !in X && x !in X
    requires was == C[t].a || was == C[t + 1].a
    requires X[Other(C, t, was)].parent == INVALID
    requires Addrs(C) !! Addrs(L)
    requires Level(c, X, L, Collapse(C, t, was), top) && Spot(X, L, j, p, t)
    requires |X[L[j].a].val| == |X[L[j].a].key| + 1
    requires g == Grown(X[L[j].a], p, C[t].a, C[t + 1].a, C[t + 1].lo)
    requires 0 <= cut <= |g.val| && vx.val == (if toLeft then g.val[..cut] else g.val[cut..])
    requires SplitEffect(X, Y, L[j].a, x, C[t].a, C[t + 1].a, vx.val, toLeft)
    requires Z == Y[L[j].a := vn][x := vx] && vn.parent == X[L[j].a].parent
    ensures Adopted(X, Z, g.val, if toLeft then x else L[j].a, if toLeft then L[j].a else x, cut)
    ensures forall a :: a in g.val ==> a in Addrs(C)
  {
    hide Flat, Linked, Inner, Collapse, Grown, Level, SplitEffect, NoDup, Addrs, Off;
    var l, r := if toLeft then x else L[j].a, if toLeft then L[j].a else x;
    forall q | 0 <= q < |g.val|
      ensures g.val[q] in Addrs(C) && g.val[q] in Z && Z[g.val[q]].parent == (if q < cut then l else r)
    {
      HalvedChild(c, X, Y, Z, C, t, was, L, top, j, p, x, toLeft, cut, vn, vx, g, q);
    }
    forall a | a in X && a !in g.val ensures a in Z && Z[a].parent == X[a].parent {
      HalvedOther(X, Y, Z, C, t, L, j, p, x, toLeft, cut, vn, vx, g, a);
    }
  }

  lemma HalvedChild(c: Cfg, X: Image, Y: Image, Z: Image, C: seq<Entry>, t: int, was: int, L: seq<Entry>, top: bool,
                      j: int, p: int, x: int, toLeft: bool, cut: int, vn: Node, vx: Node, g: Node, q: int)
    requires 0 <= t < |C| - 1 && In(X, C) && NoDup(C) && INVALID !in X && x !in X
    requires was == C[t].a || was == C[t + 1].a
    requires X[Other(C, t, was)].parent == INVALID
    requires Addrs(C) !! Addrs(L)
    requires Level(c, X, L, Collapse(C, t, was), top) && Spot(X, L, j, p, t)
    requires |X[L[j].a].val| == |X[L[j].a].key| + 1
    requires g == Grown(X[L[j].a], p, C[t].a, C[t + 1].a, C[t + 1].lo)
    requires 0 <= cut <= |g.val| && vx.val == (if toLeft then g.val[..cut] else g.val[cut..])
    requires SplitEffect(X, Y, L[j].a, x, C[t].a, C[t + 1].a, vx.val, toLeft)
    requires Z == Y[L[j].a := vn][x := vx] && vn.parent == X[L[j].a].parent
    requires 0 <= q < |g.val|
    ensures g.val[q] in Addrs(C) && g.val[q] in Z
    ensures Z[g.val[q]].parent == if (q < cut) == toLeft then x else L[j].a
  {
    hide Flat, Linked, Inner, Collapse, Grown;
    var n, la, ra, s := L[j].a, C[t].a, C[t + 1].a, g.val[q];
    GrownAt(X[n], p, la, ra, C[t + 1].lo);
    GrownInC(c, X, C, t, was, L, top, j, p, q);
    assert C[t - p + q] in C && n in Addrs(L);
    OneHalf(c, X, C, t, was, L, top, j, p, q, cut, toLeft, g, vx.val);
    assert s in X && s != n && s != x;
    assert s == la || s == ra || (s == X[n].val[if q < p then q else q - 1] && X[s].parent == n);
  }

  lemma HalvedOther(X: Image, Y: Image, Z: Image, C: seq<Entry>, t: int, L: seq<Entry>,
                    j: int, p: int, x: int, toLeft: bool, cut: int, vn: Node, vx: Node, g: Node, a: int)
    requires 0 <= t < |C| - 1 && 0 <= j < |L| && L[j].a in X && x !in X
    requires |X[L[j].a].val| == |X[L[j].a].key| + 1 && 0 <= p < |X[L[j].a].val|
    requires g == Grown(X[L[j].a], p, C[t].a, C[t + 1].a, C[t + 1].lo)
    requires 0 <= cut <= |g.val| && vx.val == (if toLeft then g.val[..cut] else g.val[cut..])
    requires SplitEffect(X, Y, L[j].a, x, C[t].a, C[t + 1].a, vx.val, toLeft)
    requires Z == Y[L[j].a := vn][x := vx] && vn.parent == X[L[j].a].parent
    requires a in X && a !in g.val
    ensures a in Z && Z[a].parent == X[a].parent && a !in vx.val && a != C[t].a && a != C[t + 1].a
  {
    hide Grown;
    GrownAt(X[L[j].a], p, C[t].a, C[t + 1].a, C[t + 1].lo);
    assert g.val[p] == C[t].a && g.val[p + 1] == C[t + 1].a;
  }

  // A child lies in one half only.
  lemma OneHalf(c: Cfg, X: Image, C: seq<Entry>, t: int, was: int, L: seq<Entry>, top: bool, j: int, p: int, q: int,
                cut: int, toLeft: bool, g: Node, moved: seq<int>)
    requires 0 <= t < |C| - 1 && NoDup(C) && Level(c, X, L, Collapse(C, t, was), top) && Spot(X, L, j, p, t)
    requires |X[L[j].a].val| == |X[L[j].a].key| + 1
    requires g == Grown(X[L[j].a], p, C[t].a, C[t + 1].a, C[t + 1].lo)
    requires 0 <= q < |g.val| == |X[L[j].a].val| + 1 && 0 <= cut <= |g.val|
    requires moved == if toLeft then g.val[..cut] else g.val[cut..]
    ensures g.val[q] in moved <==> (q < cut) == toLeft
  {
    hide Flat, Linked, Inner, Collapse, Grown, Level, Spot;
    if g.val[q] in moved {
      var i :| 0 <= i < |moved| && moved[i] == g.val[q];
      var i' := if toLeft then i else i + cut;
      GrownInC(c, X, C, t, was, L, top, j, p, q);
      GrownInC(c, X, C, t, was, L, top, j, p, i');
    }
    if (q < cut) == toLeft {
      assert moved[if toLeft then q else q - cut] == g.val[q];
    }
  }

  // ---------------------------------------------------------------- the step

  ghost function LeftOf(toLeft: bool, n: int, x: int): int { if toLeft then x else n }

  ghost function RightOf(toLeft: bool, n: int, x: int): int { if toLeft then n else x }

  // What a split leaves alone: everything but the level, and but the parents of its children.
  ghost predicate SplitFrame(X: Image, Z: Image, C: seq<Entry>, L: seq<Entry>, x: int) {
    && Z.Keys == X.Keys + {x}
    && (forall a :: a in X && a !in Addrs(C) && a !in Addrs(L) ==> Z[a] == X[a])
    && (forall a :: a in X && a in Addrs(C) && a !in Addrs(L) ==> Z[a] == X[a].(parent := Z[a].parent))
    && (forall a :: a in X && a in Addrs(L) && a !in Addrs(C) ==> Z[a].parent == X[a].parent)
  }

  lemma HalvedFrame(X: Image, Y: Image, Z: Image, C: seq<Entry>, L: seq<Entry>, j: int, x: int, la: int, ra: int,
                    moved: seq<int>, toLeft: bool, vn: Node, vx: Node)
    requires In(X, L) && Linked(X, L) && 0 <= j < |L| && x !in X && INVALID !in X
    requires SplitEffect(X, Y, L[j].a, x, la, ra, moved, toLeft)
    requires Z == Y[L[j].a := vn][x := vx] && vn.parent == X[L[j].a].parent
    requires forall a :: a in moved ==> a in Addrs(C)
    requires la in Addrs(C) && ra in Addrs(C)
    ensures SplitFrame(X, Z, C, L, x)
    ensures forall a :: a in X && a != L[j].a ==> SameBody(Z[a], X[a])
  {
    var n := L[j].a;
    assert n in Addrs(L);
    forall a | a in X && a !in Addrs(L) ensures a != X[n].prev && a != X[n].next {
      assert X[n].prev == Before(L, j) && X[n].next == After(L, j);
      if j > 0 { assert L[j - 1].a in Addrs(L); }
      if j < |L| - 1 { assert L[j + 1].a in Addrs(L); }
    }
  }

  lemma HalvedLevel(c: Cfg, X: Image, Y: Image, Z: Image, C: seq<Entry>, t: int, was: int, up: seq<seq<Entry>>,
                    root: int,
                    j: int, p: int, bn: Block, bx: Block, cut: int, sep: int, toLeft: bool)
    requires CfgOK(c) && InsertHole(c, X, C, t, was, up, root) && up != [] && Spot(X, up[0], j, p, t)
    requires Halved(c, X, Y, bn, bx, C[t].a, C[t + 1].a, C[t + 1].lo, p, cut, sep, toLeft) && bn.self == up[0][j].a
    requires Z == Y[bn.self := View(c, bn)][bx.self := View(c, bx)]
    ensures var l, r := LeftOf(toLeft, bn.self, bx.self), RightOf(toLeft, bn.self, bx.self);
      Level(c, Z, Grow(up[0], j, l, r, sep), C, false)
    ensures SplitFrame(X, Z, C, up[0], bx.self)
  {
    hide Flat, Collapse, Grown, Grow, Upper, SplitEffect, Halves, View, Sorted, Linked, Parents, Inner;
    var L, top, n, x := up[0], |up| == 1, bn.self, bx.self;
    var l, r, vn, vx := LeftOf(toLeft, n, x), RightOf(toLeft, n, x), View(c, bn), View(c, bx);
    UpperStep(c, X, Collapse(C, t, was), up, root);
    var g := Grown(X[n], p, C[t].a, C[t + 1].a, C[t + 1].lo);
    GrownAt(X[n], p, C[t].a, C[t + 1].a, C[t + 1].lo);
    HalvesVal(c, g, Z[l], Z[r], l, r, cut);
    HalvedAdopted(c, X, Y, Z, C, t, was, L, top, j, p, x, toLeft, cut, vn, vx, g);
    HalvedLinks(X, Y, Z, L, j, n, x, C[t].a, C[t + 1].a, vx.val, toLeft, vn, vx);
    assert C[t].a in Addrs(C) && C[t + 1].a in Addrs(C);
    assert forall a :: a in vx.val ==> a in g.val;
    HalvedFrame(X, Y, Z, C, L, j, x, C[t].a, C[t + 1].a, vx.val, toLeft, vn, vx);
    SplitLevel(c, X, Z, C, t, was, L, top, j, p, l, r, cut, g);
  }

  lemma HalvesVal(c: Cfg, g: Node, nl: Node, nr: Node, l: int, r: int, cut: int)
    requires |g.val| == |g.key| + 1 && Halves(c, g, nl, nr, l, r, cut)
    ensures 1 <= cut <= |g.key| && nl.val == g.val[..cut] && nr.val == g.val[cut..]
  {
  }

  lemma UpperStep(c: Cfg, X: Image, C: seq<Entry>, up: seq<seq<Entry>>, root: int)
    requires Upper(c, X, C, up, root) && up != []
    ensures Level(c, X, up[0], C, |up| == 1) && Addrs(C) !! AllAddrs(up) && Upper(c, X, up[0], up[1..], root)
    ensures |up| == 1 ==> |up[0]| == 1
    ensures Addrs(up[0]) <= AllAddrs(up) && Addrs(up[0]) !! AllAddrs(up[1..])
  {
    hide Level;
    UpperAddrs(c, X, C, up, root);
    assert Upper(c, X, up[0], up[1..], root);
  }

  lemma HalvedHole(c: Cfg, X: Image, Y: Image, Z: Image, C: seq<Entry>, t: int, was: int, up: seq<seq<Entry>>,
                   root: int,
                   j: int, p: int, bn: Block, bx: Block, cut: int, sep: int, toLeft: bool)
    requires CfgOK(c) && InsertHole(c, X, C, t, was, up, root) && up != [] && Spot(X, up[0], j, p, t)
    requires Halved(c, X, Y, bn, bx, C[t].a, C[t + 1].a, C[t + 1].lo, p, cut, sep, toLeft) && bn.self == up[0][j].a
    requires Z == Y[bn.self := View(c, bn)][bx.self := View(c, bx)] && bx.self != INVALID
    ensures var l, r := LeftOf(toLeft, bn.self, bx.self), RightOf(toLeft, bn.self, bx.self);
      && Level(c, Z, Grow(up[0], j, l, r, sep), C, false)
      && InsertHole(c, Z, Grow(up[0], j, l, r, sep), j, bn.self, up[1..], root)
      && Addrs(Grow(up[0], j, l, r, sep)) == Addrs(up[0]) + {bx.self}
    ensures SplitFrame(X, Z, C, up[0], bx.self)
  {
    hide Flat, Collapse, Grown, Grow, Upper, SplitEffect, Halves, View, Sorted, Linked, Parents, Inner, NoDup, Spot;
    var L, n, x := up[0], bn.self, bx.self;
    var l, r := LeftOf(toLeft, n, x), RightOf(toLeft, n, x);
    UpperStep(c, X, Collapse(C, t, was), up, root);
    UpperAddrs(c, X, Collapse(C, t, was), up, root);
    HalvedLevel(c, X, Y, Z, C, t, was, up, root, j, p, bn, bx, cut, sep, toLeft);
    assert 0 <= j < |L| && In(X, L) by { SpotIn(X, L, j, p, t); }
    LevelSorted(c, Z, Grow(L, j, l, r, sep), C, false);
    GrowAddrs(L, j, l, r, sep);
    forall i | 0 <= i < |L| ensures L[i].a in Z && Z[L[i].a].parent == X[L[i].a].parent {
      assert L[i].a in Addrs(L);
    }
    assert n in Addrs(L);
    SplitHole(c, X, Z, L, up[1..], root, j, l, r, sep);
  }

  lemma SpotIn(X: Image, L: seq<Entry>, j: int, p: int, t: int)
    requires Spot(X, L, j, p, t)
    ensures In(X, L) && 0 <= j < |L| && L[j].a in X
  {
  }

  // ---------------------------------------------------------------- frames

  // What an update of the levels up leaves alone.
  ghost predicate Reshaped(X: Image, Y: Image, C: seq<Entry>, up: seq<seq<Entry>>, up2: seq<seq<Entry>>) {
    && (forall a :: a in X && a !in Addrs(C) && a !in AllAddrs(up) ==> a in Y && Y[a] == X[a])
    && (forall a :: a in X && a in Addrs(C) ==> a in Y && Y[a] == X[a].(parent := Y[a].parent))
    && Y.Keys - AllAddrs(up2) == X.Keys - AllAddrs(up)
  }

  lemma FrameStep(X: Image, Z: Image, W: Image, C: seq<Entry>, up: seq<seq<Entry>>, M: seq<Entry>, up2: seq<seq<Entry>>,
                  x: int)
    requires up != [] && SplitFrame(X, Z, C, up[0], x) && Reshaped(Z, W, M, up[1..], up2)
    requires Addrs(M) == Addrs(up[0]) + {x} && x !in X
    requires Addrs(C) <= X.Keys && Addrs(C) !! AllAddrs(up)
    ensures Reshaped(X, W, C, up, [M] + up2)
  {
    assert AllAddrs(up) == Addrs(up[0]) + AllAddrs(up[1..]);
    assert ([M] + up2)[1..] == up2;
    assert AllAddrs([M] + up2) == Addrs(M) + AllAddrs(up2);
    assert W.Keys - AllAddrs([M] + up2) == (W.Keys - AllAddrs(up2)) - Addrs(M);
    assert (Z.Keys - AllAddrs(up[1..])) - Addrs(M) == X.Keys - AllAddrs(up);
  }

  // A level and the levels above it make one more level.
  lemma StackLevel(c: Cfg, W: Image, Z: Image, C: seq<Entry>, M: seq<Entry>, up2: seq<seq<Entry>>, root: int,
                   up: seq<seq<Entry>>)
    requires Level(c, Z, M, C, false) && Upper(c, W, M, up2, root) && up2 != []
    requires Reshaped(Z, W, M, up, up2) && Addrs(C) !! Addrs(M) && Addrs(C) !! AllAddrs(up)
    requires In(Z, C) && AllAddrs(up) <= Z.Keys
    ensures Upper(c, W, C, [M] + up2, root)
  {
    hide Upper, Linked, Parents, NoDup, Flat, Inner;
    assert ([M] + up2)[1..] == up2;
    assert AllAddrs([M] + up2) == Addrs(M) + AllAddrs(up2);
    forall i | 0 <= i < |C| ensures C[i].a in Addrs(C) && C[i].a in W && W[C[i].a] == Z[C[i].a] {
      assert C[i].a in Addrs(C);
    }
    StackedLevel(c, W, Z, C, M, up, up2);
    assert Addrs(C) !! AllAddrs(up2) by {
      forall a | a in Addrs(C) ensures a !in AllAddrs(up2) {
        assert a in Z.Keys - AllAddrs(up);
      }
    }
    StackIntro(c, W, C, M, up2, root);
  }

  lemma StackIntro(c: Cfg, W: Image, C: seq<Entry>, M: seq<Entry>, up2: seq<seq<Entry>>, root: int)
    requires Level(c, W, M, C, |[M] + up2| == 1) && Upper(c, W, M, up2, root) && Addrs(C) !! AllAddrs([M] + up2)
    ensures Upper(c, W, C, [M] + up2, root)
  {
    hide Level;
    assert ([M] + up2)[1..] == up2;
  }

  // The level keeps its shape when only its nodes' parents change.
  lemma StackedLevel(c: Cfg, W: Image, Z: Image, C: seq<Entry>, M: seq<Entry>, up: seq<seq<Entry>>,
                     up2: seq<seq<Entry>>)
    requires Level(c, Z, M, C, false) && Reshaped(Z, W, M, up, up2)
    requires forall i :: 0 <= i < |C| ==> C[i].a in Z && C[i].a in W && W[C[i].a] == Z[C[i].a]
    ensures Level(c, W, M, C, false)
  {
    hide Flat, NoDup;
    forall i | 0 <= i < |M| ensures M[i].a in W && W[M[i].a] == Z[M[i].a].(parent := W[M[i].a].parent) {
      assert M[i].a in Addrs(M);
    }
    FlatFrame(Z, W, M);
    LinksSame(Z, W, M);
    forall i, q | 0 <= i < |M| && 0 <= q < |W[M[i].a].val| && W[M[i].a].val[q] in W
      ensures W[W[M[i].a].val[q]].parent == M[i].a
    {
      FlatAt(Z, M, i, q);
    }
  }

  lemma LinksSame(X: Image, Y: Image, L: seq<Entry>)
    requires In(X, L) && In(Y, L) && Linked(X, L)
    requires forall i :: 0 <= i < |L| ==> Y[L[i].a].prev == X[L[i].a].prev && Y[L[i].a].next == X[L[i].a].next
    ensures Linked(Y, L)
  {
  }
}
