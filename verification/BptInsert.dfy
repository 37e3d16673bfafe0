/** Insertion: how one level absorbs a pair of children that replaced one. */
module BptInsert {
  import opened BptLevels
  import opened BptShape

  // ---------------------------------------------------------------- the hole

  // C as the level above still sees it: the pair at t, t+1 is one child, named was.
  ghost function Collapse(C: seq<Entry>, t: int, was: int): seq<Entry>
    requires 0 <= t < |C| - 1
  {
    C[..t] + [Entry(C[t].lo, was)] + C[t + 2..]
  }

  ghost function Other(C: seq<Entry>, t: int, was: int): int
    requires 0 <= t < |C| - 1
  {
    if was == C[t].a then C[t + 1].a else C[t].a
  }

  ghost predicate InsertHole(c: Cfg, X: Image, C: seq<Entry>, t: int, was: int, up: seq<seq<Entry>>, root: int) {
    && 0 <= t < |C| - 1 && In(X, C) && Selfs(X, C) && Sorted(C) && NoDup(C) && INVALID !in X
    && (was == C[t].a || was == C[t + 1].a)
    && X[Other(C, t, was)].parent == INVALID
    && Addrs(C) !! AllAddrs(up)
    && Upper(c, X, Collapse(C, t, was), up, root)
  }

  // ---------------------------------------------------------------- rewriting part of a level

  lemma FlatRewrite(X: Image, Y: Image, L: seq<Entry>, j: int, M: seq<Entry>)
    requires In(X, L) && 0 <= j < |L| && In(Y, M)
    requires forall i :: 0 <= i < |L| && i != j ==>
      L[i].a in Y && SameEntries(Y[L[i].a], X[L[i].a])
    ensures In(Y, L[..j] + M + L[j + 1..])
    ensures Flat(Y, L[..j] + M + L[j + 1..]) == Flat(X, L[..j]) + Flat(Y, M) + Flat(X, L[j + 1..])
  {
    var A, B := L[..j], L[j + 1..];
    assert In(Y, A) && In(Y, B);
    FlatFrame(X, Y, A);
    FlatFrame(X, Y, B);
    FlatConcat(Y, A, M);
    FlatConcat(Y, A + M, B);
  }

  lemma FlatGrow(X: Image, Y: Image, L: seq<Entry>, j: int, p: int, M: seq<Entry>, l: int, r: int, key: int)
    requires In(X, L) && 0 <= j < |L| && In(Y, M)
    requires 0 <= p < |X[L[j].a].val|
    requires forall i :: 0 <= i < |L| && i != j ==>
      L[i].a in Y && SameEntries(Y[L[i].a], X[L[i].a])
    requires Flat(Y, M) == Grow(Expand(L[j].lo, X[L[j].a]), p, l, r, key)
    ensures In(Y, L[..j] + M + L[j + 1..])
    ensures 0 <= Off(X, L, j) + p < |Flat(X, L)|
    ensures Flat(Y, L[..j] + M + L[j + 1..]) == Grow(Flat(X, L), Off(X, L, j) + p, l, r, key)
  {
    hide Flat, Grow;
    FlatRewrite(X, Y, L, j, M);
    FlatSplit(X, L, j);
    GrowWithin(Flat(X, L[..j]), Expand(L[j].lo, X[L[j].a]), Flat(X, L[j + 1..]), p, l, r, key);
  }

  lemma GrowWithin(A: seq<Entry>, E: seq<Entry>, B: seq<Entry>, p: int, l: int, r: int, key: int)
    requires 0 <= p < |E|
    ensures Grow(A + E + B, |A| + p, l, r, key) == A + Grow(E, p, l, r, key) + B
  {
    assert (A + E + B)[..|A| + p] == A + E[..p];
    assert (A + E + B)[|A| + p + 1..] == E[p + 1..] + B;
  }

  lemma CollapseGrow(C: seq<Entry>, t: int, was: int)
    requires 0 <= t < |C| - 1
    ensures Grow(Collapse(C, t, was), t, C[t].a, C[t + 1].a, C[t + 1].lo) == C
  {
  }

  // ---------------------------------------------------------------- a node with room

  ghost predicate Spot(X: Image, L: seq<Entry>, j: int, p: int, t: int) {
    && In(X, L) && 0 <= j < |L| && 0 <= p < |X[L[j].a].val| && t == Off(X, L, j) + p
  }

  ghost function Grown(n: Node, p: int, l: int, r: int, key: int): Node
    requires |n.val| == |n.key| + 1 && 0 <= p < |n.val|
  {
    WithPairs(n, Insert(n.key, p, key), n.val[..p] + [l, r] + n.val[p + 1..])
  }

  ghost function Adopt(X: Image, a: int, parent: int): Image
    requires a in X
  {
    X[a := X[a].(parent := parent)]
  }

  lemma ChildOfSpot(c: Cfg, X: Image, L: seq<Entry>, C: seq<Entry>, top: bool, j: int, p: int, t: int)
    requires Level(c, X, L, C, top) && Spot(X, L, j, p, t)
    ensures 0 <= t < |C| && C[t].a == X[L[j].a].val[p]
    ensures C[t].a in X ==> X[C[t].a].parent == L[j].a
  {
    FlatAt(X, L, j, p);
  }

  lemma SimpleInsertLevel(c: Cfg, X: Image, Y: Image, C: seq<Entry>, t: int, was: int, L: seq<Entry>, top: bool, j: int,
                          p: int)
    requires 0 <= t < |C| - 1 && In(X, C) && INVALID !in X
    requires was == C[t].a || was == C[t + 1].a
    requires X[Other(C, t, was)].parent == INVALID
    requires Addrs(C) !! Addrs(L)
    requires Level(c, X, L, Collapse(C, t, was), top) && Spot(X, L, j, p, t)
    requires |X[L[j].a].val| < c.order
    requires Y == Adopt(Adopt(X, C[t].a, L[j].a), C[t + 1].a, L[j].a)
                    [L[j].a := Grown(X[L[j].a], p, C[t].a, C[t + 1].a, C[t + 1].lo)]
    ensures Level(c, Y, L, C, top)
  {
    hide Flat, Grow, Collapse;
    var n, l, r, key := L[j].a, C[t].a, C[t + 1].a, C[t + 1].lo;
    ChildOfSpot(c, X, L, Collapse(C, t, was), top, j, p, t);
    CollapseAt(C, t, was);
    assert n in Addrs(L) && l in Addrs(C) && r in Addrs(C);
    forall i | 0 <= i < |L| && i != j ensures L[i].a in Y && Y[L[i].a] == X[L[i].a] {
      assert L[i].a in Addrs(L);
    }
    assert Flat(Y, L) == C by {
      FlatOne(Y, L[j]);
      ExpandGrow(L[j].lo, X[n], p, l, r, key);
      FlatGrow(X, Y, L, j, p, [L[j]], l, r, key);
      assert L[..j] + [L[j]] + L[j + 1..] == L;
      CollapseGrow(C, t, was);
    }
    forall i, q | 0 <= i < |L| && 0 <= q < |Y[L[i].a].val| && Y[L[i].a].val[q] in Y
      ensures Y[Y[L[i].a].val[q]].parent == L[i].a
    {
      SimpleInsertParents(c, X, Y, C, t, was, L, top, j, p, i, q);
    }
    assert In(Y, L);
    assert Linked(Y, L);
    assert Inner(c, Y, L, top);
    assert Parents(Y, L);
  }

  lemma CollapseAt(C: seq<Entry>, t: int, was: int)
    requires 0 <= t < |C| - 1
    ensures |Collapse(C, t, was)| == |C| - 1 && Collapse(C, t, was)[t].a == was
  {
  }

  lemma SimpleInsertParents(c: Cfg, X: Image, Y: Image, C: seq<Entry>, t: int, was: int, L: seq<Entry>, top: bool,
                            j: int, p: int, i: int, q: int)
    requires 0 <= t < |C| - 1 && In(X, C) && INVALID !in X
    requires was == C[t].a || was == C[t + 1].a
    requires X[Other(C, t, was)].parent == INVALID
    requires Addrs(C) !! Addrs(L)
    requires Level(c, X, L, Collapse(C, t, was), top) && Spot(X, L, j, p, t)
    requires X[L[j].a].val[p] == was && X[was].parent == L[j].a
    requires Y == Adopt(Adopt(X, C[t].a, L[j].a), C[t + 1].a, L[j].a)
                    [L[j].a := Grown(X[L[j].a], p, C[t].a, C[t + 1].a, C[t + 1].lo)]
    requires 0 <= i < |L| && 0 <= q < |Y[L[i].a].val| && Y[L[i].a].val[q] in Y
    requires forall m :: 0 <= m < |L| && m != j ==> Y[L[m].a] == X[L[m].a]
    ensures Y[Y[L[i].a].val[q]].parent == L[i].a
  {
    var n := L[j].a;
    assert n in Addrs(L) && C[t].a in Addrs(C) && C[t + 1].a in Addrs(C);
    if i == j {
      var s := Y[n].val[q];
      var q' := if q <= p then q else q - 1;
      assert s == C[t].a || s == C[t + 1].a || s == X[n].val[q'];
    } else {
      var s := X[L[i].a].val[q];
      assert X[s].parent == L[i].a;
    }
  }

  // ---------------------------------------------------------------- a node splits

  // In Y the nodes l and r stand where X had the j-th node of L.
  ghost predicate SplitLinks(X: Image, Y: Image, L: seq<Entry>, j: int, l: int, r: int)
    requires In(X, L) && 0 <= j < |L|
  {
    && l in Y && r in Y && l != r
    && (forall i :: 0 <= i < |L| && i != j ==> L[i].a in Y && L[i].a != l && L[i].a != r)
    && Y[l].prev == X[L[j].a].prev && Y[l].next == r
    && Y[r].prev == l && Y[r].next == X[L[j].a].next
    && (forall i :: 0 <= i < |L| && i != j ==>
          && Y[L[i].a].prev == (if i == j + 1 then r else X[L[i].a].prev)
          && Y[L[i].a].next == (if i == j - 1 then l else X[L[i].a].next))
  }

  lemma LinkedSplit(X: Image, Y: Image, L: seq<Entry>, j: int, l: int, r: int, sep: int)
    requires In(X, L) && NoDup(L) && Linked(X, L) && 0 <= j < |L|
    requires SplitLinks(X, Y, L, j, l, r)
    ensures In(Y, Grow(L, j, l, r, sep)) && NoDup(Grow(L, j, l, r, sep)) && Linked(Y, Grow(L, j, l, r, sep))
  {
    hide Grow, Linked, NoDup, Before, After;
    var M := Grow(L, j, l, r, sep);
    GrowAt(L, j, l, r, sep);
    assert In(Y, M);
    assert NoDup(M) by {
      hide Linked;
      SplitNoDup(X, Y, L, j, l, r, sep);
    }
    forall i | 0 <= i < |M|
      ensures Y[M[i].a].prev == Before(M, i) && Y[M[i].a].next == After(M, i)
    {
      SplitLinkAt(X, Y, L, j, l, r, sep, i);
    }
    LinkedIntro(Y, M);
  }

  lemma LinkedIntro(X: Image, L: seq<Entry>)
    requires In(X, L)
    requires forall i {:trigger Before(L, i)} :: 0 <= i < |L| ==>
      X[L[i].a].prev == Before(L, i) && X[L[i].a].next == After(L, i)
    ensures Linked(X, L)
  {
  }

  lemma SplitNoDup(X: Image, Y: Image, L: seq<Entry>, j: int, l: int, r: int, sep: int)
    requires In(X, L) && NoDup(L) && 0 <= j < |L|
    requires SplitLinks(X, Y, L, j, l, r)
    ensures NoDup(Grow(L, j, l, r, sep))
  {
    hide Grow;
    GrowAt(L, j, l, r, sep);
  }

  lemma SplitLinkAt(X: Image, Y: Image, L: seq<Entry>, j: int, l: int, r: int, sep: int, i: int)
    requires In(X, L) && Linked(X, L) && 0 <= j < |L|
    requires SplitLinks(X, Y, L, j, l, r)
    requires 0 <= i < |Grow(L, j, l, r, sep)|
    ensures var M := Grow(L, j, l, r, sep);
      M[i].a in Y && Y[M[i].a].prev == Before(M, i) && Y[M[i].a].next == After(M, i)
  {
    hide Grow;
    GrowAt(L, j, l, r, sep);
    var o := if i <= j then i else i - 1;
    assert X[L[o].a].prev == Before(L, o) && X[L[o].a].next == After(L, o);
  }

  ghost predicate Halves(c: Cfg, g: Node, nl: Node, nr: Node, l: int, r: int, cut: int)
    requires |g.val| == |g.key| + 1
  {
    && |g.val| == c.order + 1 && (cut == c.order / 2 || cut == c.order / 2 + 1) && 1 <= cut <= |g.key|
    && nl.self == l && !nl.leaf && nl.key == g.key[..cut - 1] && nl.val == g.val[..cut]
    && nr.self == r && !nr.leaf && nr.key == g.key[cut..] && nr.val == g.val[cut..]
  }

  // Every child of the split node, new ones included, was adopted by its half; no other child was.
  ghost predicate Adopted(X: Image, Y: Image, S: seq<int>, l: int, r: int, cut: int) {
    && (forall q :: 0 <= q < |S| && S[q] in Y ==> Y[S[q]].parent == (if q < cut then l else r))
    && (forall a :: a in X && a !in S ==> a in Y && Y[a].parent == X[a].parent)
  }

  lemma SplitParents(c: Cfg, X: Image, Y: Image, C: seq<Entry>, t: int, was: int, L: seq<Entry>, top: bool,
                     j: int, p: int, i: int, q: int, S: seq<int>)
    requires 0 <= t < |C| - 1 && In(X, C) && INVALID !in X
    requires was == C[t].a || was == C[t + 1].a
    requires X[Other(C, t, was)].parent == INVALID
    requires Level(c, X, L, Collapse(C, t, was), top) && Spot(X, L, j, p, t)
    requires S == X[L[j].a].val[..p] + [C[t].a, C[t + 1].a] + X[L[j].a].val[p + 1..]
    requires 0 <= i < |L| && i != j && 0 <= q < |X[L[i].a].val| && X[L[i].a].val[q] in X
    ensures X[L[i].a].val[q] !in S
    ensures X[X[L[i].a].val[q]].parent == L[i].a
  {
    hide Flat, Collapse;
    ChildOfSpot(c, X, L, Collapse(C, t, was), top, j, p, t);
    CollapseAt(C, t, was);
  }

  lemma SplitLevel(c: Cfg, X: Image, Y: Image, C: seq<Entry>, t: int, was: int, L: seq<Entry>, top: bool,
                   j: int, p: int, l: int, r: int, cut: int, g: Node)
    requires CfgOK(c) && 0 <= t < |C| - 1 && In(X, C) && INVALID !in X
    requires was == C[t].a || was == C[t + 1].a
    requires X[Other(C, t, was)].parent == INVALID
    requires Level(c, X, L, Collapse(C, t, was), top) && Spot(X, L, j, p, t)
    requires top ==> |L| == 1
    requires SplitLinks(X, Y, L, j, l, r)
    requires g == Grown(X[L[j].a], p, C[t].a, C[t + 1].a, C[t + 1].lo)
    requires Halves(c, g, Y[l], Y[r], l, r, cut)
    requires forall i :: 0 <= i < |L| && i != j ==> SameBody(Y[L[i].a], X[L[i].a])
    requires Adopted(X, Y, g.val, l, r, cut)
    ensures Level(c, Y, Grow(L, j, l, r, g.key[cut - 1]), C, false)
  {
    hide Flat, Collapse, Grow;
    var sep := g.key[cut - 1];
    var M := Grow(L, j, l, r, sep);
    CollapseIn(X, C, t, was);
    LinkedSplit(X, Y, L, j, l, r, sep);
    GrowAt(L, j, l, r, sep);
    SplitFlat(c, X, Y, C, t, was, L, j, p, l, r, cut, g);
    SplitInner(c, X, Y, L, top, j, l, r, cut, g, sep);
    forall i, q | 0 <= i < |M| && 0 <= q < |Y[M[i].a].val| && Y[M[i].a].val[q] in Y
      ensures Y[Y[M[i].a].val[q]].parent == M[i].a
    {
      if i < j || i > j + 1 {
        ParentElsewhere(c, X, Y, C, t, was, L, top, j, p, l, r, cut, g, if i < j then i else i - 1, q);
      }
    }
  }

  lemma SplitInner(c: Cfg, X: Image, Y: Image, L: seq<Entry>, top: bool, j: int, l: int, r: int, cut: int, g: Node,
                   sep: int)
    requires CfgOK(c) && In(X, L) && Inner(c, X, L, top) && (top ==> |L| == 1) && 0 <= j < |L|
    requires SplitLinks(X, Y, L, j, l, r)
    requires |g.val| == |g.key| + 1 && Halves(c, g, Y[l], Y[r], l, r, cut)
    requires forall i :: 0 <= i < |L| && i != j ==> SameBody(Y[L[i].a], X[L[i].a])
    requires In(Y, Grow(L, j, l, r, sep))
    ensures Inner(c, Y, Grow(L, j, l, r, sep), false)
  {
    hide Grow, Halves;
    GrowAt(L, j, l, r, sep);
    HalvesInner(c, g, Y[l], Y[r], l, r, cut);
  }

  // A child of another node of the level kept its parent.
  lemma ParentElsewhere(c: Cfg, X: Image, Y: Image, C: seq<Entry>, t: int, was: int, L: seq<Entry>, top: bool,
                        j: int, p: int, l: int, r: int, cut: int, g: Node, o: int, q: int)
    requires 0 <= t < |C| - 1 && In(X, C) && INVALID !in X
    requires was == C[t].a || was == C[t + 1].a
    requires X[Other(C, t, was)].parent == INVALID
    requires Level(c, X, L, Collapse(C, t, was), top) && Spot(X, L, j, p, t)
    requires |X[L[j].a].val| == |X[L[j].a].key| + 1 && g == Grown(X[L[j].a], p, C[t].a, C[t + 1].a, C[t + 1].lo)
    requires Adopted(X, Y, g.val, l, r, cut)
    requires 0 <= o < |L| && o != j && 0 <= q < |X[L[o].a].val| && X[L[o].a].val[q] in Y
    ensures Y[X[L[o].a].val[q]].parent == L[o].a
  {
    hide Flat, Collapse, NoDup, Linked, Inner, Parents;
    CollapseIn(X, C, t, was);
    FlatAt(X, L, o, q);
    SplitParents(c, X, Y, C, t, was, L, top, j, p, o, q, g.val);
  }

  lemma CollapseIn(X: Image, C: seq<Entry>, t: int, was: int)
    requires 0 <= t < |C| - 1 && In(X, C) && (was == C[t].a || was == C[t + 1].a)
    ensures In(X, Collapse(C, t, was))
  {
  }

  lemma HalvesInner(c: Cfg, g: Node, nl: Node, nr: Node, l: int, r: int, cut: int)
    requires CfgOK(c) && |g.val| == |g.key| + 1 && Halves(c, g, nl, nr, l, r, cut)
    ensures InnerNode(c, nl, l, false) && InnerNode(c, nr, r, false)
  {
  }

  lemma GrowAt(L: seq<Entry>, j: int, l: int, r: int, sep: int)
    requires 0 <= j < |L|
    ensures |Grow(L, j, l, r, sep)| == |L| + 1
    ensures forall i {:trigger Grow(L, j, l, r, sep)[i]} :: 0 <= i < j ==> Grow(L, j, l, r, sep)[i] == L[i]
    ensures forall i {:trigger Grow(L, j, l, r, sep)[i]} :: j + 2 <= i <= |L| ==> Grow(L, j, l, r, sep)[i] == L[i - 1]
    ensures Grow(L, j, l, r, sep)[j] == Entry(L[j].lo, l)
    ensures Grow(L, j, l, r, sep)[j + 1] == Entry(sep, r)
    ensures Collapse(Grow(L, j, l, r, sep), j, L[j].a) == L
  {
  }

  lemma SplitFlat(c: Cfg, X: Image, Y: Image, C: seq<Entry>, t: int, was: int, L: seq<Entry>,
                  j: int, p: int, l: int, r: int, cut: int, g: Node)
    requires 0 <= t < |C| - 1
    requires In(X, L) && Flat(X, L) == Collapse(C, t, was) && Spot(X, L, j, p, t)
    requires !X[L[j].a].leaf && |X[L[j].a].val| == |X[L[j].a].key| + 1
    requires g == Grown(X[L[j].a], p, C[t].a, C[t + 1].a, C[t + 1].lo)
    requires l in Y && r in Y
    requires Halves(c, g, Y[l], Y[r], l, r, cut)
    requires forall i :: 0 <= i < |L| && i != j ==> L[i].a in Y && SameBody(Y[L[i].a], X[L[i].a])
    ensures In(Y, Grow(L, j, l, r, g.key[cut - 1]))
    ensures Flat(Y, Grow(L, j, l, r, g.key[cut - 1])) == C
  {
    hide Flat, Collapse;
    var sep := g.key[cut - 1];
    var el, er := Entry(L[j].lo, l), Entry(sep, r);
    FlatOne(Y, el);
    FlatOne(Y, er);
    FlatConcat(Y, [el], [er]);
    assert g.val == Y[l].val + Y[r].val && g.key == Y[l].key + [sep] + Y[r].key;
    ExpandCut(L[j].lo, g, Y[l], Y[r], sep);
    ExpandGrow(L[j].lo, X[L[j].a], p, C[t].a, C[t + 1].a, C[t + 1].lo);
    assert [el] + [er] == [el, er];
    FlatGrow(X, Y, L, j, p, [el, er], C[t].a, C[t + 1].a, C[t + 1].lo);
    CollapseGrow(C, t, was);
  }

  // ---------------------------------------------------------------- the levels above

  lemma SimpleInsertUpper(c: Cfg, X: Image, Y: Image, C: seq<Entry>, t: int, was: int, up: seq<seq<Entry>>, root: int,
                          j: int, p: int)
    requires InsertHole(c, X, C, t, was, up, root) && up != []
    requires Spot(X, up[0], j, p, t) && |X[up[0][j].a].val| < c.order
    requires |X[up[0][j].a].val| == |X[up[0][j].a].key| + 1
    requires Y == Adopt(Adopt(X, C[t].a, up[0][j].a), C[t + 1].a, up[0][j].a)
                    [up[0][j].a := Grown(X[up[0][j].a], p, C[t].a, C[t + 1].a, C[t + 1].lo)]
    ensures Upper(c, Y, C, up, root)
  {
    hide Level, Sorted, NoDup, Grown, Collapse;
    var L := up[0];
    assert Addrs(C) !! Addrs(L);
    SimpleInsertLevel(c, X, Y, C, t, was, L, |up| == 1, j, p);
    UpperAddrs(c, X, Collapse(C, t, was), up, root);
    assert C[t].a in Addrs(C) && C[t + 1].a in Addrs(C) && L[j].a in Addrs(L);
    UpperAddrs(c, X, L, up[1..], root);
    forall i | 0 <= i < |L| && L[i].a in Y ensures L[i].a in X && Y[L[i].a].parent == X[L[i].a].parent {
      assert L[i].a in Addrs(L);
      GrownSame(X[L[j].a], p, C[t].a, C[t + 1].a, C[t + 1].lo);
    }
    UpperFrame(c, X, Y, L, up[1..], root);
  }

  lemma GrownSame(n: Node, p: int, l: int, r: int, key: int)
    requires |n.val| == |n.key| + 1 && 0 <= p < |n.val|
    ensures Grown(n, p, l, r, key).parent == n.parent
  {
  }

  // A split level is a hole for the level above.
  lemma SplitHole(c: Cfg, X: Image, Y: Image, L: seq<Entry>, up: seq<seq<Entry>>, root: int, j: int, l: int, r: int,
                  sep: int)
    requires Upper(c, X, L, up, root) && In(X, L) && 0 <= j < |L| && INVALID !in Y
    requires var M := Grow(L, j, l, r, sep); In(Y, M) && Selfs(Y, M) && Sorted(M) && NoDup(M)
    requires l != r && (l == L[j].a || r == L[j].a)
    requires l in Y && r in Y && Y[if l == L[j].a then r else l].parent == INVALID
    requires Addrs(L) !! AllAddrs(up)
    requires l !in AllAddrs(up) && r !in AllAddrs(up)
    requires forall i :: 0 <= i < |L| ==> L[i].a in Y && Y[L[i].a].parent == X[L[i].a].parent
    requires forall a :: a in AllAddrs(up) ==> a in X && a in Y && Y[a] == X[a]
    ensures InsertHole(c, Y, Grow(L, j, l, r, sep), j, L[j].a, up, root)
  {
    hide Grow, Collapse, NoDup, Sorted;
    GrowAt(L, j, l, r, sep);
    UpperFrame(c, X, Y, L, up, root);
    GrowAddrs(L, j, l, r, sep);
  }

  lemma LevelSorted(c: Cfg, X: Image, L: seq<Entry>, C: seq<Entry>, top: bool)
    requires CfgOK(c) && Level(c, X, L, C, top) && Sorted(C)
    ensures Sorted(L) && Selfs(X, L)
  {
    hide Flat, Linked, Parents, NoDup;
    SortedUp(X, L);
  }

  lemma GrowAddrs(L: seq<Entry>, j: int, l: int, r: int, sep: int)
    requires 0 <= j < |L|
    ensures Addrs(Grow(L, j, l, r, sep)) <= Addrs(L) + {l, r}
    ensures l == L[j].a || r == L[j].a ==> Addrs(Grow(L, j, l, r, sep)) == Addrs(L) + {l, r}
  {
    var M := Grow(L, j, l, r, sep);
    forall a | a in Addrs(M) ensures a in Addrs(L) + {l, r} {
      var e :| e in M && e.a == a;
    }
    assert M[j].a == l && M[j + 1].a == r;
    if l == L[j].a || r == L[j].a {
      forall a | a in Addrs(L) ensures a in Addrs(M) {
        var i :| 0 <= i < |L| && L[i].a == a;
        assert M[if i < j then i else i + 1] == L[i] || i == j;
      }
    }
  }

  lemma NewRoot(c: Cfg, X: Image, Y: Image, C: seq<Entry>, t: int, was: int, root: int, x: int)
    requires CfgOK(c) && InsertHole(c, X, C, t, was, [], root)
    requires x !in X && x != INVALID
    requires Y == Adopt(Adopt(X, C[t].a, x), C[t + 1].a, x)
                    [x := Node(x, INVALID, INVALID, INVALID, false, [C[t + 1].lo], [C[t].a, C[t + 1].a])]
    ensures Upper(c, Y, C, [[Entry(MIN_KEY, x)]], x)
  {
    hide Upper, Level, AllAddrs;
    var L := [Entry(MIN_KEY, x)];
    NewRootPair(c, X, C, t, was, root);
    NewRootLevel(c, Y, C, x);
    assert [L][1..] == [];
    assert Addrs(C) == {C[0].a, C[1].a} && Addrs(L) == {x};
    NewRootUpper(c, Y, C, L, x);
  }

  lemma NewRootUpper(c: Cfg, Y: Image, C: seq<Entry>, L: seq<Entry>, x: int)
    requires L == [Entry(MIN_KEY, x)] && Level(c, Y, L, C, true) && Addrs(L) !! Addrs(C)
    requires x in Y && Y[x].parent == INVALID
    ensures Upper(c, Y, C, [L], x)
  {
    hide Level;
    assert [L][1..] == [];
    assert AllAddrs([L]) == Addrs(L) + AllAddrs([]);
    assert Upper(c, Y, L, [], x);
  }

  lemma NewRootPair(c: Cfg, X: Image, C: seq<Entry>, t: int, was: int, root: int)
    requires InsertHole(c, X, C, t, was, [], root)
    ensures |C| == 2 && t == 0 && C[0].lo == MIN_KEY && C[0].a != C[1].a && In(X, C)
  {
    CollapseAt(C, t, was);
    assert Collapse(C, t, was)[0] == Entry(MIN_KEY, root);
  }

  lemma NewRootLevel(c: Cfg, Y: Image, C: seq<Entry>, x: int)
    requires CfgOK(c) && |C| == 2 && C[0].lo == MIN_KEY
    requires x in Y && Y[x] == Node(x, INVALID, INVALID, INVALID, false, [C[1].lo], [C[0].a, C[1].a])
    requires forall i :: 0 <= i < |C| && C[i].a in Y ==> Y[C[i].a].parent == x
    ensures Level(c, Y, [Entry(MIN_KEY, x)], C, true)
  {
    var L := [Entry(MIN_KEY, x)];
    FlatOne(Y, L[0]);
    assert C == [C[0], C[1]];
    assert Before(L, 0) == INVALID && After(L, 0) == INVALID;
  }
}
