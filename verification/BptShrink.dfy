/** From a rewritten pair of neighbours to the levels above, on the way up after a deletion. */
module BptShrink {
  import opened BptLevels
  import opened BptShape
  import opened BptInsert
  import opened BptDelete
  import opened BptGrow

  // ---------------------------------------------------------------- rotation

  // A child of the pair is where it was, or is the one that moved.
  ghost predicate Stayed(X: Image, V: seq<int>, W: seq<int>, s: int, here: bool) {
    forall i :: 0 <= i < |V| && V[i] in X ==> if V[i] == s then here else V[i] in W
  }

  lemma RotateRehomed(c: Cfg, X: Image, Y: Image, L: seq<Entry>, C: seq<Entry>, m: int, s: int, target: int, sep: int,
                      pa: int)
    requires Level(c, X, L, C, false) && 0 <= m < |L| - 1
    requires Addrs(C) !! Addrs(L) && s in X && s in Addrs(C) && pa !in Addrs(C) && pa != L[m].a && pa != L[m + 1].a
    requires target == L[m].a || target == L[m + 1].a
    requires s in X[L[m].a].val || s in X[L[m + 1].a].val
    requires L[m].a in Y && L[m + 1].a in Y && Y.Keys == X.Keys && pa in X
    requires forall z :: z in X && z != L[m].a && z != L[m + 1].a && z != pa ==>
      Y[z] == if z == s then X[z].(parent := target) else X[z]
    requires Y[L[m].a].parent == X[L[m].a].parent && Y[L[m + 1].a].parent == X[L[m + 1].a].parent
    requires Y[pa].parent == X[pa].parent
    requires Stayed(X, Y[L[m].a].val, X[L[m].a].val, s, target == L[m].a)
    requires Stayed(X, Y[L[m + 1].a].val, X[L[m + 1].a].val, s, target == L[m + 1].a)
    ensures Rehomed(X, Y, {L[m].a, L[m + 1].a}, [L[m], Entry(sep, L[m + 1].a)])
  {
    hide Flat, Linked, NoDup;
    var a, b, M := L[m].a, L[m + 1].a, [L[m], Entry(sep, L[m + 1].a)];
    assert a in Addrs(L) && b in Addrs(L);
    forall z | z in X[a].val && z in X ensures X[z].parent == a && z in Addrs(C) {
      var q :| 0 <= q < |X[a].val| && X[a].val[q] == z;
      FlatAt(X, L, m, q);
    }
    forall z | z in X[b].val && z in X ensures X[z].parent == b && z in Addrs(C) {
      var q :| 0 <= q < |X[b].val| && X[b].val[q] == z;
      FlatAt(X, L, m + 1, q);
    }
  }

  // Y is X after the pair at m handed the child s over to target, with separator sep in the parent pa.
  ghost predicate RotateEffect(X: Image, Y: Image, a: int, b: int, pa: int, s: int, target: int, q: int, sep: int)
    requires a in X && b in X && pa in X && 1 <= q <= |X[pa].key|
  {
    && Y.Keys == X.Keys && a != b && a != pa && b != pa
    && (forall z :: z in X && z != a && z != b && z != pa ==> Y[z] == if z == s then X[z].(parent := target) else X[z])
    && Y[a] == X[a].(key := Y[a].key, val := Y[a].val)
    && Y[b] == X[b].(key := Y[b].key, val := Y[b].val)
    && Y[pa] == X[pa].(key := X[pa].key[q - 1 := sep])
  }

  lemma RotateDone(c: Cfg, X: Image, Y: Image, C: seq<Entry>, t: int, dead: Entry, up: seq<seq<Entry>>, root: int,
                   m: int, d: int, sep: int, s: int, target: int, u: int, q: int)
    requires DeleteHole(c, X, C, t, dead, up, root) && |up| >= 2
    requires Pair(c, X, up[0], m, d) && t == Off(X, up[0], m) + d
    requires Spot(X, up[1], u, q, m + 1) && 1 <= q && |X[up[1][u].a].val| == |X[up[1][u].a].key| + 1
    requires target == up[0][m].a || target == up[0][m + 1].a
    requires s in X && (s in X[up[0][m].a].val || s in X[up[0][m + 1].a].val)
    requires RotateEffect(X, Y, up[0][m].a, up[0][m + 1].a, up[1][u].a, s, target, q, sep)
    requires InnerNode(c, Y[up[0][m].a], up[0][m].a, false) && InnerNode(c, Y[up[0][m + 1].a], up[0][m + 1].a, false)
    requires JoinShrunk(c, X, up[0], m, d).key == Y[up[0][m].a].key + [sep] + Y[up[0][m + 1].a].key
    requires JoinShrunk(c, X, up[0], m, d).val == Y[up[0][m].a].val + Y[up[0][m + 1].a].val
    requires Stayed(X, Y[up[0][m].a].val, X[up[0][m].a].val, s, target == up[0][m].a)
    requires Stayed(X, Y[up[0][m + 1].a].val, X[up[0][m + 1].a].val, s, target == up[0][m + 1].a)
    ensures var M := up[0][m + 1 := Entry(sep, up[0][m + 1].a)];
      Upper(c, Y, C, [M] + up[1..], root) && Reshaped(X, Y, C, up, [M] + up[1..])
  {
    hide Level, Upper, Sorted, NoDup, Insert, Drop, JoinShrunk, Stayed, InnerNode, Off;
    var L, U, C1 := up[0], up[1], Insert(C, t, dead);
    var a, b, pa, M := L[m].a, L[m + 1].a, U[u].a, L[m + 1 := Entry(sep, L[m + 1].a)];
    UpperStep(c, X, C1, up, root);
    UpperStep(c, X, L, up[1..], root);
    UpperAddrs(c, X, C1, up, root);
    UpperAddrs(c, X, L, up[1..], root);
    InsertAddrs(C, t, dead);
    assert a in Addrs(L) && b in Addrs(L) && pa in Addrs(U) && pa in AllAddrs(up[1..]);
    assert s in Addrs(C1) && s in Addrs(C) by { ChildIn(c, X, L, C1, m, s); }
    RotateOthers(c, X, Y, L, C1, t, m, d, sep, s, target, pa, q);
    DropInsert(C, t, dead);
    LevelIn(c, X, L, C1, false);
    SeparatorUpper(c, X, Y, L, up[1..], root, u, q, m + 1, sep);
    RelabelAddrs(L, m + 1, sep);
    RelabelUp(C, L, M, up);
    StackIntro(c, Y, C, M, up[1..], root);
  }

  lemma RelabelUp(C: seq<Entry>, L: seq<Entry>, M: seq<Entry>, up: seq<seq<Entry>>)
    requires up != [] && up[0] == L && Addrs(M) == Addrs(L)
    ensures AllAddrs([M] + up[1..]) == AllAddrs(up)
  {
    assert ([M] + up[1..])[1..] == up[1..];
  }

  lemma LevelIn(c: Cfg, X: Image, L: seq<Entry>, C: seq<Entry>, top: bool)
    requires Level(c, X, L, C, top)
    ensures In(X, L) && |L| > 0
  {
  }

  lemma ChildIn(c: Cfg, X: Image, L: seq<Entry>, C: seq<Entry>, m: int, s: int)
    requires Level(c, X, L, C, false) && 0 <= m < |L| - 1 && (s in X[L[m].a].val || s in X[L[m + 1].a].val)
    ensures s in Addrs(C)
  {
    hide Flat, Linked, NoDup, Inner, Parents;
    var i := if s in X[L[m].a].val then m else m + 1;
    var q :| 0 <= q < |X[L[i].a].val| && X[L[i].a].val[q] == s;
    FlatAt(X, L, i, q);
  }

  lemma RotateOthers(c: Cfg, X: Image, Y: Image, L: seq<Entry>, C: seq<Entry>, t: int,
                     m: int, d: int, sep: int, s: int, target: int, pa: int, q: int)
    requires Level(c, X, L, C, false) && Pair(c, X, L, m, d) && t == Off(X, L, m) + d
    requires Addrs(C) !! Addrs(L) && s in X && s in Addrs(C) && pa !in Addrs(C) && pa !in Addrs(L) && pa in X
    requires 1 <= q <= |X[pa].key|
    requires target == L[m].a || target == L[m + 1].a
    requires s in X[L[m].a].val || s in X[L[m + 1].a].val
    requires RotateEffect(X, Y, L[m].a, L[m + 1].a, pa, s, target, q, sep)
    requires InnerNode(c, Y[L[m].a], L[m].a, false) && InnerNode(c, Y[L[m + 1].a], L[m + 1].a, false)
    requires JoinShrunk(c, X, L, m, d).key == Y[L[m].a].key + [sep] + Y[L[m + 1].a].key
    requires JoinShrunk(c, X, L, m, d).val == Y[L[m].a].val + Y[L[m + 1].a].val
    requires Stayed(X, Y[L[m].a].val, X[L[m].a].val, s, target == L[m].a)
    requires Stayed(X, Y[L[m + 1].a].val, X[L[m + 1].a].val, s, target == L[m + 1].a)
    ensures 0 <= t < |C| && Level(c, Y, L[m + 1 := Entry(sep, L[m + 1].a)], Drop(C, t), false)
    ensures forall i :: 0 <= i < |L| ==> L[i].a in Y && Y[L[i].a].parent == X[L[i].a].parent
  {
    hide Flat, Linked, JoinShrunk, Drop, Parents, Inner;
    forall i | 0 <= i < |L| ensures L[i].a in Addrs(L) && L[i].a != s && L[i].a != pa {
      assert L[i].a in Addrs(L);
    }
    RotateRehomed(c, X, Y, L, C, m, s, target, sep, pa);
    assert In(Y, L);
    RotateLevel(c, X, Y, L, C, t, m, d, sep);
  }

  // ---------------------------------------------------------------- merge

  // Y is X after a took over from b, which is gone; kids are b's children.
  ghost predicate MergeEffect(X: Image, Y: Image, a: int, b: int, kids: seq<int>)
    requires a in X && b in X
  {
    && Y.Keys == X.Keys - {b} && a != b
    && (forall z :: z in X && z != a && z != b ==>
          Y[z] == X[z].(parent := if z in kids then a else X[z].parent,
                        prev := if z == X[b].next then a else X[z].prev))
    && Y[a] == X[a].(key := Y[a].key, val := Y[a].val, next := X[b].next)
  }

  // What a merge leaves alone: everything but the level, and but the parents of its children.
  ghost predicate MergeFrame(X: Image, Y: Image, C: seq<Entry>, L: seq<Entry>, b: int) {
    && Y.Keys == X.Keys - {b} && b in Addrs(L)
    && (forall z :: z in X && z !in Addrs(C) && z !in Addrs(L) ==> Y[z] == X[z])
    && (forall z :: z in X && z in Addrs(C) && z !in Addrs(L) ==> Y[z] == X[z].(parent := Y[z].parent))
    && (forall z :: z in X && z in Addrs(L) && z !in Addrs(C) && z != b ==> Y[z].parent == X[z].parent)
  }

  lemma MergeLinked(X: Image, Y: Image, C: seq<Entry>, L: seq<Entry>, m: int, kids: seq<int>)
    requires In(X, L) && Linked(X, L) && NoDup(L) && 0 <= m < |L| - 1 && INVALID !in X
    requires Addrs(C) !! Addrs(L) && forall z :: z in kids && z in X ==> z in Addrs(C)
    requires MergeEffect(X, Y, L[m].a, L[m + 1].a, kids)
    ensures MergeLinks(X, Y, L, m) && MergeFrame(X, Y, C, L, L[m + 1].a)
    ensures forall i :: 0 <= i < |L| && i != m && i != m + 1 ==> SameBody(Y[L[i].a], X[L[i].a])
  {
    var a, b := L[m].a, L[m + 1].a;
    assert X[b].next == After(L, m + 1);
    forall i | 0 <= i < |L| ensures L[i].a in Addrs(L) && (i == m + 2 <==> L[i].a == X[b].next) {
      assert L[i].a in Addrs(L);
    }
  }

  lemma MergeRehomed(c: Cfg, X: Image, Y: Image, L: seq<Entry>, C: seq<Entry>, m: int, d: int)
    requires Level(c, X, L, C, false) && Pair(c, X, L, m, d) && Addrs(C) !! Addrs(L)
    requires MergeEffect(X, Y, L[m].a, L[m + 1].a, X[L[m + 1].a].val)
    requires SameBody(Y[L[m].a], JoinShrunk(c, X, L, m, d))
    ensures Rehomed(X, Y, {L[m].a, L[m + 1].a}, [L[m]])
    ensures forall z :: z in X[L[m + 1].a].val && z in X ==> z in Addrs(C)
  {
    hide Flat, Linked, NoDup;
    var a, b := L[m].a, L[m + 1].a;
    assert a in Addrs(L) && b in Addrs(L);
    forall z | z in X[a].val && z in X ensures X[z].parent == a && z in Addrs(C) {
      var q :| 0 <= q < |X[a].val| && X[a].val[q] == z;
      FlatAt(X, L, m, q);
    }
    forall z | z in X[b].val && z in X ensures X[z].parent == b && z in Addrs(C) {
      var q :| 0 <= q < |X[b].val| && X[b].val[q] == z;
      FlatAt(X, L, m + 1, q);
    }
    forall q | 0 <= q < |Y[a].val| && Y[a].val[q] in Y
      ensures Y[Y[a].val[q]].parent == a && Y[a].val[q] in X && X[Y[a].val[q]].parent in {a, b}
    {
      JoinedChild(c, X, L, m, d, q);
    }
  }

  lemma JoinedChild(c: Cfg, X: Image, L: seq<Entry>, m: int, d: int, q: int)
    requires Pair(c, X, L, m, d) && 0 <= q < |JoinShrunk(c, X, L, m, d).val|
    ensures var z := JoinShrunk(c, X, L, m, d).val[q]; z in X[L[m].a].val || z in X[L[m + 1].a].val
  {
    var V, W := X[L[m].a].val, X[L[m + 1].a].val;
    DropAt(V + W, d);
    var o := if q < d then q else q + 1;
    assert JoinShrunk(c, X, L, m, d).val[q] == (V + W)[o];
  }

  lemma MergeStep(c: Cfg, X: Image, Y: Image, C: seq<Entry>, t: int, dead: Entry, up: seq<seq<Entry>>, root: int,
                  m: int, d: int)
    requires CfgOK(c) && DeleteHole(c, X, C, t, dead, up, root) && |up| >= 2
    requires Pair(c, X, up[0], m, d) && t == Off(X, up[0], m) + d
    requires MergeEffect(X, Y, up[0][m].a, up[0][m + 1].a, X[up[0][m + 1].a].val)
    requires SameBody(Y[up[0][m].a], JoinShrunk(c, X, up[0], m, d))
    requires c.order / 2 <= |Y[up[0][m].a].val| <= c.order
    ensures Level(c, Y, Drop(up[0], m + 1), C, false)
    ensures DeleteHole(c, Y, Drop(up[0], m + 1), m + 1, up[0][m + 1], up[1..], root)
    ensures MergeFrame(X, Y, C, up[0], up[0][m + 1].a)
  {
    hide Upper, Sorted, Insert, Drop, JoinShrunk, InnerNode, Off, Flat, Parents, Linked, Inner, NoDup;
    var L, C1 := up[0], Insert(C, t, dead);
    var a, b := L[m].a, L[m + 1].a;
    UpperStep(c, X, C1, up, root);
    UpperAddrs(c, X, C1, up, root);
    InsertAddrs(C, t, dead);
    MergeRehomed(c, X, Y, L, C1, m, d);
    MergeLinked(X, Y, C, L, m, X[b].val);
    MergeLevel(c, X, Y, L, C1, t, m, d);
    DropInsert(C, t, dead);
    LevelSorted(c, X, L, C1, false);
    forall i | 0 <= i < |L| && i != m + 1
      ensures L[i].a in Y && Y[L[i].a].parent == X[L[i].a].parent && Y[L[i].a].self == L[i].a
    {
      assert L[i].a in Addrs(L);
      NotSame(L, i, m + 1);
    }
    assert b in Addrs(L);
    MergeHole(c, X, Y, L, up[1..], root, m);
  }

  lemma NotSame(L: seq<Entry>, i: int, j: int)
    requires NoDup(L) && 0 <= i < |L| && 0 <= j < |L| && i != j
    ensures L[i].a != L[j].a
  {
  }

  // ---------------------------------------------------------------- frames

  lemma SpotFrame(X: Image, Y: Image, L: seq<Entry>, u: int, q: int, t: int)
    requires Spot(X, L, u, q, t)
    requires forall z :: z in Addrs(L) ==> z in X && z in Y && SameEntries(X[z], Y[z])
    ensures Spot(Y, L, u, q, t)
  {
    forall i | 0 <= i < |L| ensures L[i].a in Y && SameEntries(X[L[i].a], Y[L[i].a]) {
      assert L[i].a in Addrs(L);
    }
    FlatFrame(X, Y, L[..u]);
  }

  lemma DropAddrs(L: seq<Entry>, m: int)
    requires NoDup(L) && 0 <= m < |L|
    ensures Addrs(Drop(L, m)) == Addrs(L) - {L[m].a}
  {
    var M := Drop(L, m);
    forall a | a in Addrs(L) && a != L[m].a ensures a in Addrs(M) {
      var i :| 0 <= i < |L| && L[i].a == a;
      assert M[if i < m then i else i - 1] == L[i];
    }
    forall a | a in Addrs(M) ensures a in Addrs(L) && a != L[m].a {
      var i :| 0 <= i < |M| && M[i].a == a;
      assert M[i] == L[if i < m then i else i + 1];
    }
  }

  lemma ShrinkFrame(X: Image, Z: Image, W: Image, C: seq<Entry>, up: seq<seq<Entry>>, M: seq<Entry>,
                    up2: seq<seq<Entry>>, b: int)
    requires up != [] && MergeFrame(X, Z, C, up[0], b) && Reshaped(Z, W, M, up[1..], up2)
    requires Addrs(M) == Addrs(up[0]) - {b} && Addrs(C) !! AllAddrs(up)
    ensures Reshaped(X, W, C, up, [M] + up2)
  {
    assert AllAddrs(up) == Addrs(up[0]) + AllAddrs(up[1..]);
    assert ([M] + up2)[1..] == up2;
    assert AllAddrs([M] + up2) == Addrs(M) + AllAddrs(up2);
    assert W.Keys - AllAddrs([M] + up2) == (W.Keys - AllAddrs(up2)) - Addrs(M);
    assert (Z.Keys - AllAddrs(up[1..])) - Addrs(M) == X.Keys - AllAddrs(up);
  }

  lemma StackShrunk(c: Cfg, W: Image, Z: Image, C: seq<Entry>, M: seq<Entry>, up2: seq<seq<Entry>>, root: int,
                    up: seq<seq<Entry>>)
    requires CfgOK(c) && Level(c, Z, M, C, false) && Upper(c, W, M, up2, root)
    requires Reshaped(Z, W, M, up, up2) && Addrs(C) !! Addrs(M) && Addrs(C) !! AllAddrs(up)
    requires In(Z, C) && AllAddrs(up) <= Z.Keys
    ensures Upper(c, W, C, [M] + up2, root)
  {
    hide Upper, Level;
    assert ([M] + up2)[1..] == up2;
    assert AllAddrs([M] + up2) == Addrs(M) + AllAddrs(up2);
    forall i | 0 <= i < |C| ensures C[i].a in Addrs(C) && C[i].a in W && W[C[i].a] == Z[C[i].a] {
      assert C[i].a in Addrs(C);
    }
    StackedLevel(c, W, Z, C, M, up, up2);
    assert Addrs(C) !! AllAddrs(up2) by {
      forall a | a in Addrs(C) ensures a !in AllAddrs(up2) {
        assert a in Z.Keys - AllAddrs(up);
      }
    }
    TopLevel(c, W, M, C);
    StackIntro(c, W, C, M, up2, root);
  }

  // A level wide enough for the middle of a tree may be its top.
  lemma TopLevel(c: Cfg, X: Image, L: seq<Entry>, C: seq<Entry>)
    requires CfgOK(c) && Level(c, X, L, C, false)
    ensures Level(c, X, L, C, true)
  {
    hide Flat, Linked, NoDup, Parents;
  }

  lemma MergeDone(c: Cfg, X: Image, Z: Image, W: Image, C: seq<Entry>, t: int, dead: Entry, up: seq<seq<Entry>>,
                  root: int,
                  m: int, top: seq<seq<Entry>>, root2: int)
    requires CfgOK(c) && DeleteHole(c, X, C, t, dead, up, root) && |up| >= 2 && 0 <= m < |up[0]| - 1
    requires Level(c, Z, Drop(up[0], m + 1), C, false) && MergeFrame(X, Z, C, up[0], up[0][m + 1].a)
    requires Upper(c, W, Drop(up[0], m + 1), top, root2) && Reshaped(Z, W, Drop(up[0], m + 1), up[1..], top)
    ensures Upper(c, W, C, [Drop(up[0], m + 1)] + top, root2) && Reshaped(X, W, C, up, [Drop(up[0], m + 1)] + top)
  {
    hide Upper, Sorted, NoDup, Reshaped, Level, Insert, Drop, MergeFrame;
    var L, C1, M, b := up[0], Insert(C, t, dead), Drop(up[0], m + 1), up[0][m + 1].a;
    UpperStep(c, X, C1, up, root);
    UpperAddrs(c, X, C1, up, root);
    InsertAddrs(C, t, dead);
    LevelDup(c, X, L, C1, false);
    DropAddrs(L, m + 1);
    ShrinkFrame(X, Z, W, C, up, M, top, b);
    KeptKeys(X, Z, C, up, b);
    StackShrunk(c, W, Z, C, M, top, root2, up[1..]);
  }

  lemma LevelDup(c: Cfg, X: Image, L: seq<Entry>, C: seq<Entry>, top: bool)
    requires Level(c, X, L, C, top)
    ensures NoDup(L)
  {
  }

  lemma KeptKeys(X: Image, Z: Image, C: seq<Entry>, up: seq<seq<Entry>>, b: int)
    requires up != [] && MergeFrame(X, Z, C, up[0], b) && In(X, C)
    requires Addrs(C) !! AllAddrs(up) && Addrs(up[0]) !! AllAddrs(up[1..]) && AllAddrs(up) <= X.Keys
    ensures In(Z, C) && AllAddrs(up[1..]) <= Z.Keys
  {
    forall i | 0 <= i < |C| ensures C[i].a in Z {
      assert C[i].a in Addrs(C);
    }
  }

  // ---------------------------------------------------------------- the ends of the climb

  lemma RemoveDone(c: Cfg, X: Image, Y: Image, C: seq<Entry>, t: int, dead: Entry, up: seq<seq<Entry>>, root: int,
                   j: int, q: int)
    requires DeleteHole(c, X, C, t, dead, up, root) && up != [] && Spot(X, up[0], j, q, t) && 1 <= q
    requires |X[up[0][j].a].val| == |X[up[0][j].a].key| + 1
    requires |X[up[0][j].a].val| > (if |up| == 1 then 2 else c.order / 2)
    requires Y == X[up[0][j].a := Shrunk(X[up[0][j].a], q)]
    ensures Upper(c, Y, C, up, root) && Reshaped(X, Y, C, up, up)
  {
    hide Upper, Sorted, NoDup, Insert, Shrunk;
    RemoveUpper(c, X, Y, C, t, dead, up, root, j, q);
    UpperStep(c, X, Insert(C, t, dead), up, root);
    InsertAddrs(C, t, dead);
    assert up[0][j].a in Addrs(up[0]);
    assert Y.Keys == X.Keys;
  }

  lemma CollapseDone(c: Cfg, X: Image, Y: Image, C: seq<Entry>, t: int, dead: Entry, up: seq<seq<Entry>>, root: int,
                     q: int)
    requires DeleteHole(c, X, C, t, dead, up, root) && |up| == 1
    requires Spot(X, up[0], 0, q, t) && 1 <= q && |X[up[0][0].a].val| == 2
    requires X[up[0][0].a].val[0] in X
    requires Y == Adopt(X, X[up[0][0].a].val[0], INVALID) - {up[0][0].a}
    ensures |C| == 1 && C[0].a == X[up[0][0].a].val[0] && up[0][0].a == root
    ensures Upper(c, Y, C, [], C[0].a) && Reshaped(X, Y, C, up, [])
  {
    hide Upper, Sorted, NoDup, Insert;
    RootCollapse(c, X, Y, C, t, dead, up, root, q);
    UpperStep(c, X, Insert(C, t, dead), up, root);
    InsertAddrs(C, t, dead);
    assert C[0].a in Addrs(C);
    assert up[1..] == [];
    assert AllAddrs(up) == {root} by {
      assert up[0] == [up[0][0]];
      assert Addrs(up[0]) == {root};
    }
    assert Y.Keys - {} == X.Keys - AllAddrs(up);
  }
}
