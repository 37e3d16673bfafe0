/** Descending to the leaf that covers a key. */
module BptSearch {
  import opened BptLevels
  import opened BptShape
  import opened BptInsert
  import opened BptTree
  import opened BptBlock
  import opened BptDisk
  import opened BptEdit

  // ---------------------------------------------------------------- the levels of a tree

  lemma {:induction false} UpperAt(c: Cfg, X: Image, C: seq<Entry>, up: seq<seq<Entry>>, root: int, k: int)
    requires Upper(c, X, C, up, root) && 0 <= k < |up|
    ensures Level(c, X, up[k], if k == 0 then C else up[k - 1], k == |up| - 1)
    ensures k == |up| - 1 ==> up[k] == [Entry(MIN_KEY, root)]
    decreases k
  {
    hide Level;
    if k == 0 {
      assert Upper(c, X, up[0], up[1..], root);
    } else {
      UpperAt(c, X, up[0], up[1..], root, k - 1);
    }
  }

  lemma {:induction false} SortedAt(c: Cfg, X: Image, lv: seq<seq<Entry>>, root: int, k: int)
    requires CfgOK(c) && lv != [] && Upper(c, X, lv[0], lv[1..], root) && Sorted(lv[0]) && 0 <= k < |lv|
    ensures Sorted(lv[k])
    decreases k
  {
    hide Level, Sorted, Upper;
    if k > 0 {
      SortedAt(c, X, lv, root, k - 1);
      UpperAt(c, X, lv[0], lv[1..], root, k - 1);
      LevelSorted(c, X, lv[k], lv[k - 1], k == |lv| - 1);
    }
  }

  lemma TreeLevel(c: Cfg, X: Image, lv: seq<seq<Entry>>, root: int, k: int)
    requires CfgOK(c) && WellFormed(c, X, lv, root) && lv != [] && 0 <= k < |lv|
    ensures |lv[k]| > 0 && In(X, lv[k]) && Sorted(lv[k])
    ensures k == |lv| - 1 ==> lv[k] == [Entry(MIN_KEY, root)]
    ensures k > 0 ==> Level(c, X, lv[k], lv[k - 1], k == |lv| - 1)
    ensures forall j :: 0 <= j < |lv[k]| ==> X[lv[k][j].a].leaf == (k == 0)
  {
    hide Upper, Sorted, Flat, Linked, NoDup, Parents, Bounded;
    SortedAt(c, X, lv, root, k);
    if k > 0 {
      UpperAt(c, X, lv[0], lv[1..], root, k - 1);
    } else if |lv| == 1 {
      assert lv[1..] == [];
      UpperEnd(c, X, lv[0], root);
    }
  }

  lemma UpperEnd(c: Cfg, X: Image, C: seq<Entry>, root: int)
    requires Upper(c, X, C, [], root)
    ensures C == [Entry(MIN_KEY, root)]
  {
  }

  // ---------------------------------------------------------------- one step down

  lemma KeysAscend(c: Cfg, X: Image, L: seq<Entry>, C: seq<Entry>, top: bool, j: int)
    requires Level(c, X, L, C, top) && Sorted(C) && 0 <= j < |L|
    ensures InnerNode(c, X[L[j].a], L[j].a, top) && Ascending(X[L[j].a].key)
  {
    hide Flat, Linked, NoDup, Parents;
    assert InnerNode(c, X[L[j].a], L[j].a, top);
    var K := X[L[j].a].key;
    forall a, b | 0 <= a < b < |K| ensures K[a] < K[b] {
      FlatAt(X, L, j, a + 1);
      FlatAt(X, L, j, b + 1);
    }
  }

  lemma StepDown(c: Cfg, X: Image, L: seq<Entry>, C: seq<Entry>, top: bool, j: int, k: int, p: int)
    requires CfgOK(c) && Level(c, X, L, C, top) && Sorted(C) && 0 <= j < |L| && Within(L, j, k)
    requires Route(X[L[j].a].key, p, k) && |X[L[j].a].val| == |X[L[j].a].key| + 1
    ensures 0 <= Off(X, L, j) + p < |C| && C[Off(X, L, j) + p].a == X[L[j].a].val[p]
    ensures Within(C, Off(X, L, j) + p, k)
  {
    hide Flat, Linked, NoDup, Parents;
    var n, q := X[L[j].a], Off(X, L, j) + p;
    FlatAt(X, L, j, p);
    assert InnerNode(c, n, L[j].a, top);
    if p + 1 < |n.val| {
      FlatAt(X, L, j, p + 1);
    } else if j + 1 < |L| {
      OffStep(X, L, j);
      assert InnerNode(c, X[L[j + 1].a], L[j + 1].a, top);
      FlatAt(X, L, j + 1, 0);
    } else {
      OffStep(X, L, j);
      assert L[..j + 1] == L;
    }
  }

  // ---------------------------------------------------------------- the loop

  // A sound tree, all of it on disk.
  ghost predicate Valid(t: Tree)
    reads t
  {
    t.Inv() && Count(t.used) == 0 && t.held == {} && WellFormed(t.c, t.D, t.lv, t.root) && t.level == |t.lv|
  }

  // Buffer i was filled with the leaf that covers the key, the j-th; -1 stands for the empty tree.
  method SeekLeaf(t: Tree, key: int) returns (i: int, ghost j: int)
    requires Valid(t) && MIN_KEY <= key
    modifies t`cache
    ensures Valid(t)
    ensures t.lv == [] ==> i == -1
    ensures t.lv != [] ==>
      && 0 <= i < MIN_CACHE_NUM && !t.used[i] && 0 <= j < |t.lv[0]| && Within(t.lv[0], j, key)
      && Fits(t.c, t.cache[i]) && t.lv[0][j].a in t.D && View(t.c, t.cache[i]) == t.D[t.lv[0][j].a]
      && t.lv[0][j].a in t.disk && t.cache[i] == t.disk[t.lv[0][j].a]
  {
    hide Tree.Buffers, Tree.OnDisk, Tree.Allocation, Count, View, Level, Leaves, Upper;
    hide WellFormed, Sorted;
    if t.lv != [] {
      TreeLevel(t.c, t.D, t.lv, t.root, |t.lv| - 1);
    }
    TreeRoot(t.c, t.D, t.lv, t.root);
    i := t.NodeSeek(t.root);
    j := 0;
    if i == -1 {
      return;
    }
    ghost var k := |t.lv| - 1;
    while !t.cache[i].leaf
      invariant Valid(t) && t.lv != [] && 0 <= k < |t.lv| && 0 <= i < MIN_CACHE_NUM && !t.used[i]
      invariant 0 <= j < |t.lv[k]| && Within(t.lv[k], j, key)
      invariant Fits(t.c, t.cache[i]) && t.lv[k][j].a in t.D && View(t.c, t.cache[i]) == t.D[t.lv[k][j].a]
      invariant t.lv[k][j].a in t.disk && t.cache[i] == t.disk[t.lv[k][j].a]
      decreases k
    {
      ghost var n := t.D[t.lv[k][j].a];
      ViewInner(t.c, t.cache[i]);
      TreeLevel(t.c, t.D, t.lv, t.root, k);
      TreeLevel(t.c, t.D, t.lv, t.root, k - 1);
      KeysAscend(t.c, t.D, t.lv[k], t.lv[k - 1], k == |t.lv| - 1, j);
      var p := ChildIndex(t.cache[i], key);
      StepDown(t.c, t.D, t.lv[k], t.lv[k - 1], k == |t.lv| - 1, j, key, p);
      j := Off(t.D, t.lv[k], j) + p;
      i := t.NodeSeek(t.cache[i].sub[p]);
      k := k - 1;
    }
    ViewHeader(t.c, t.cache[i]);
    TreeLevel(t.c, t.D, t.lv, t.root, k);
  }

  lemma TreeRoot(c: Cfg, X: Image, lv: seq<seq<Entry>>, root: int)
    requires CfgOK(c) && WellFormed(c, X, lv, root)
    ensures INVALID !in X && (lv == [] <==> root == INVALID) && (lv != [] ==> root in X)
  {
    hide Upper, Leaves, AllAddrs, Addrs;
    if lv != [] {
      TreeLevel(c, X, lv, root, |lv| - 1);
      assert lv[|lv| - 1][0].a in X;
    }
  }
}
