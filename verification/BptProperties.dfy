/**
  What soundness of a tree says about the blocks themselves, without its ghost levels:
  paths from the root, left-to-right order, separators, and who owns which block.
 */
module BptProperties {
  import opened BptLevels
  import opened BptShape
  import opened BptInsert
  import opened BptTree
  import opened BptBlock
  import opened BptDisk
  import opened BptSearch
  import opened BptPut
  import opened BptPlace

  // ---------------------------------------------------------------- paths

  // Child positions to follow from block a.
  ghost predicate PathOK(X: Image, a: int, path: seq<int>)
    decreases |path|
  {
    && a in X
    && (path != [] ==> !X[a].leaf && 0 <= path[0] < |X[a].val| && PathOK(X, X[a].val[path[0]], path[1..]))
  }

  ghost function End(X: Image, a: int, path: seq<int>): (r: int)
    requires PathOK(X, a, path)
    ensures r in X
    decreases |path|
  {
    if path == [] then a else End(X, X[a].val[path[0]], path[1..])
  }

  lemma ChildPlace(c: Cfg, X: Image, lv: seq<seq<Entry>>, root: int, k: int, j: int, p: int) returns (o: int)
    requires CfgOK(c) && WellFormed(c, X, lv, root) && 0 < k < |lv| && 0 <= j < |lv[k]| && In(X, lv[k])
    requires 0 <= p < |X[lv[k][j].a].val|
    ensures 0 <= o < |lv[k - 1]| && lv[k - 1][o].a == X[lv[k][j].a].val[p] && lv[k - 1][o].a in X
    ensures X[lv[k - 1][o].a].parent == lv[k][j].a && o == Off(X, lv[k], j) + p
  {
    hide Upper, Leaves, Sorted, Flat, NoDup, Linked;
    TreeLevel(c, X, lv, root, k);
    TreeLevel(c, X, lv, root, k - 1);
    o := Off(X, lv[k], j) + p;
    ChildOfSpot(c, X, lv[k], lv[k - 1], k == |lv| - 1, j, p, o);
  }

  // All leaves are equally deep: a path ends in a leaf exactly when it is as long as the tree is high.
  lemma {:induction false} PathLevel(c: Cfg, X: Image, lv: seq<seq<Entry>>, root: int, k: int, j: int, path: seq<int>)
      returns (o: int)
    requires CfgOK(c) && WellFormed(c, X, lv, root) && 0 <= k < |lv| && 0 <= j < |lv[k]| && PathOK(X, lv[k][j].a, path)
    ensures |path| <= k && 0 <= o < |lv[k - |path|]| && End(X, lv[k][j].a, path) == lv[k - |path|][o].a
    ensures X[End(X, lv[k][j].a, path)].leaf <==> |path| == k
    decreases |path|
  {
    hide WellFormed, Level, Sorted;
    TreeLevel(c, X, lv, root, k);
    if path == [] {
      o := j;
    } else {
      var i := ChildPlace(c, X, lv, root, k, j, path[0]);
      o := PathLevel(c, X, lv, root, k - 1, i, path[1..]);
    }
  }

  lemma Balanced(t: Tree, path: seq<int>)
    requires Valid(t) && t.root != INVALID && PathOK(t.D, t.root, path)
    ensures t.D[End(t.D, t.root, path)].leaf <==> |path| == t.level - 1
  {
    hide Tree.Buffers, Tree.OnDisk, Tree.Allocation, Count, WellFormed, Level;
    TreeRoot(t.c, t.D, t.lv, t.root);
    TreeLevel(t.c, t.D, t.lv, t.root, |t.lv| - 1);
    var o := PathLevel(t.c, t.D, t.lv, t.root, |t.lv| - 1, 0, path);
  }

  // ---------------------------------------------------------------- every block is on one path

  lemma {:induction false} PathExtend(X: Image, a: int, path: seq<int>, p: int)
    requires PathOK(X, a, path) && !X[End(X, a, path)].leaf && 0 <= p < |X[End(X, a, path)].val|
    requires X[End(X, a, path)].val[p] in X
    ensures PathOK(X, a, path + [p]) && End(X, a, path + [p]) == X[End(X, a, path)].val[p]
    decreases |path|
  {
    if path == [] {
      assert ([] + [p])[1..] == [] && path + [p] == [p];
    } else {
      assert (path + [p])[1..] == path[1..] + [p];
      PathExtend(X, X[a].val[path[0]], path[1..], p);
    }
  }

  lemma {:induction false} PathTo(c: Cfg, X: Image, lv: seq<seq<Entry>>, root: int, k: int, j: int)
      returns (path: seq<int>)
    requires CfgOK(c) && WellFormed(c, X, lv, root) && 0 <= k < |lv| && 0 <= j < |lv[k]|
    ensures PathOK(X, root, path) && End(X, root, path) == lv[k][j].a
    decreases |lv| - k
  {
    hide WellFormed, Sorted, Flat, Linked, NoDup, Parents;
    TreeLevel(c, X, lv, root, k);
    if k == |lv| - 1 {
      assert lv[k][0].a == root;
      path := [];
    } else {
      TreeLevel(c, X, lv, root, k + 1);
      var u, q := Locate(X, lv[k + 1], j);
      var o := ChildPlace(c, X, lv, root, k + 1, u, q);
      path := PathTo(c, X, lv, root, k + 1, u);
      PathExtend(X, root, path, q);
      path := path + [q];
    }
  }

  lemma {:induction false} OnLevel(up: seq<seq<Entry>>, a: int) returns (k: int, j: int)
    requires a in AllAddrs(up)
    ensures 0 <= k < |up| && 0 <= j < |up[k]| && up[k][j].a == a
  {
    if a in Addrs(up[0]) {
      k := 0;
      j :| 0 <= j < |up[0]| && up[0][j].a == a;
    } else {
      k, j := OnLevel(up[1..], a);
      k := k + 1;
    }
  }

  lemma PlaceOf(c: Cfg, X: Image, lv: seq<seq<Entry>>, root: int, a: int) returns (k: int, j: int)
    requires WellFormed(c, X, lv, root) && a in X
    ensures 0 <= k < |lv| && 0 <= j < |lv[k]| && lv[k][j].a == a
  {
    hide Upper, Leaves;
    if a in Addrs(lv[0]) {
      k := 0;
      j :| 0 <= j < |lv[0]| && lv[0][j].a == a;
    } else {
      k, j := OnLevel(lv[1..], a);
      k := k + 1;
    }
  }

  // Every block of the tree can be reached from the root.
  lemma Reachable(t: Tree, a: int) returns (path: seq<int>)
    requires Valid(t) && a in t.D
    ensures PathOK(t.D, t.root, path) && End(t.D, t.root, path) == a
  {
    hide Tree.Buffers, Tree.OnDisk, Tree.Allocation, Count, WellFormed;
    var k, j := PlaceOf(t.c, t.D, t.lv, t.root, a);
    path := PathTo(t.c, t.D, t.lv, t.root, k, j);
  }

  // A block's parent is the one block that lists it; only the root has none.
  lemma ParentLists(t: Tree, a: int)
    requires Valid(t) && a in t.D
    ensures t.D[a].self == a
    ensures a == t.root <==> t.D[a].parent == INVALID
    ensures a != t.root ==> t.D[a].parent in t.D && !t.D[t.D[a].parent].leaf && a in t.D[t.D[a].parent].val
    ensures forall b, q :: b in t.D && !t.D[b].leaf && 0 <= q < |t.D[b].val| && t.D[b].val[q] == a ==>
      b == t.D[a].parent
  {
    hide Tree.Buffers, Tree.OnDisk, Tree.Allocation, Count, WellFormed, Level, Sorted, Flat;
    var X, c, lv, root := t.D, t.c, t.lv, t.root;
    var k, j := PlaceOf(c, X, lv, root, a);
    TreeLevel(c, X, lv, root, k);
    OwnSelf(c, X, lv, root, k, j);
    ParentAt(c, X, lv, root, k, j);
    forall b, q | b in X && !X[b].leaf && 0 <= q < |X[b].val| && X[b].val[q] == a ensures b == X[a].parent {
      var h, i := PlaceOf(c, X, lv, root, b);
      TreeLevel(c, X, lv, root, h);
      var o := ChildPlace(c, X, lv, root, h, i, q);
    }
  }

  lemma OwnSelf(c: Cfg, X: Image, lv: seq<seq<Entry>>, root: int, k: int, j: int)
    requires CfgOK(c) && WellFormed(c, X, lv, root) && 0 <= k < |lv| && 0 <= j < |lv[k]|
    ensures lv[k][j].a in X && X[lv[k][j].a].self == lv[k][j].a
  {
    hide Upper, Sorted, Flat, Linked, NoDup, Parents, Bounded;
    TreeLevel(c, X, lv, root, k);
    if k == 0 {
      assert LeafNode(c, X[lv[0][j].a], lv[0][j].a, |lv| == 1);
    } else {
      assert InnerNode(c, X[lv[k][j].a], lv[k][j].a, k == |lv| - 1);
    }
  }

  lemma ParentAt(c: Cfg, X: Image, lv: seq<seq<Entry>>, root: int, k: int, j: int)
    requires CfgOK(c) && WellFormed(c, X, lv, root) && 0 <= k < |lv| && 0 <= j < |lv[k]| && lv[k][j].a in X
    ensures var a := lv[k][j].a;
      && (a == root <==> X[a].parent == INVALID)
      && (a != root ==> X[a].parent in X && !X[X[a].parent].leaf && a in X[X[a].parent].val)
  {
    hide WellFormed, Sorted, Flat, Linked, NoDup, Parents;
    TreeRoot(c, X, lv, root);
    RootParent(c, X, lv, root);
    if k < |lv| - 1 {
      TreeLevel(c, X, lv, root, k);
      TreeLevel(c, X, lv, root, k + 1);
      var u, q := Locate(X, lv[k + 1], j);
      var o := ChildPlace(c, X, lv, root, k + 1, u, q);
    } else {
      TreeLevel(c, X, lv, root, k);
    }
  }

  lemma {:induction false} RootParent(c: Cfg, X: Image, lv: seq<seq<Entry>>, root: int)
    requires CfgOK(c) && WellFormed(c, X, lv, root) && lv != []
    ensures root in X && X[root].parent == INVALID
  {
    hide WellFormed, Leaves;
    TreeRoot(c, X, lv, root);
    assert Upper(c, X, lv[0], lv[1..], root) by { LeafFacts0(c, X, lv, root); }
    TopParent(c, X, lv[0], lv[1..], root);
  }

  lemma LeafFacts0(c: Cfg, X: Image, lv: seq<seq<Entry>>, root: int)
    requires WellFormed(c, X, lv, root) && lv != []
    ensures Upper(c, X, lv[0], lv[1..], root)
  {
  }

  lemma {:induction false} TopParent(c: Cfg, X: Image, C: seq<Entry>, up: seq<seq<Entry>>, root: int)
    requires Upper(c, X, C, up, root) && root in X
    ensures X[root].parent == INVALID
    decreases |up|
  {
    hide Level;
    if up != [] {
      TopParent(c, X, up[0], up[1..], root);
    }
  }

  // Tree blocks and free blocks share out the file between them.
  lemma Partition(t: Tree)
    requires Valid(t)
    ensures t.fileSize == t.blocks * t.c.bs && Distinct(t.free) && INVALID !in t.D && INVALID !in t.free
    ensures forall a :: a in t.D || a in t.free <==> exists k :: 0 <= k < t.blocks && a == k * t.c.bs
    ensures forall a :: !(a in t.D && a in t.free)
  {
    hide WellFormed, Tree.Buffers, Tree.OnDisk, Count;
    var S := Slots(t.blocks, t.c.bs);
    forall a ensures a in t.D || a in t.free <==> exists k :: 0 <= k < t.blocks && a == k * t.c.bs {
      assert a in S <==> exists k :: 0 <= k < t.blocks && a == k * t.c.bs;
      assert a in t.D.Keys + t.held + (set a | a in t.free) <==> a in S;
    }
    if INVALID in t.free {
      assert INVALID in S;
      SlotValid(t.blocks, t.c.bs, INVALID);
    }
  }

  // ---------------------------------------------------------------- left to right

  ghost function Children(X: Image, nodes: seq<int>): seq<int>
    requires forall i :: 0 <= i < |nodes| ==> nodes[i] in X
  {
    if nodes == [] then [] else Children(X, nodes[..|nodes| - 1]) + X[nodes[|nodes| - 1]].val
  }

  // Breadth-first: the nodes at depth d, left to right.
  ghost predicate IsRow(X: Image, root: int, d: nat, row: seq<int>) {
    if d == 0 then row == [root] && root in X
    else exists above ::
      && IsRow(X, root, d - 1, above) && (forall i :: 0 <= i < |above| ==> above[i] in X)
      && row == Children(X, above)
  }

  ghost function Addresses(L: seq<Entry>): (r: seq<int>)
    ensures |r| == |L| && forall i :: 0 <= i < |L| ==> r[i] == L[i].a
  {
    seq(|L|, i requires 0 <= i < |L| => L[i].a)
  }

  lemma {:induction false} ChildrenFlat(X: Image, L: seq<Entry>)
    requires In(X, L)
    ensures Children(X, Addresses(L)) == Addresses(Flat(X, L))
  {
    if L != [] {
      var M, e := L[..|L| - 1], L[|L| - 1];
      ChildrenFlat(X, M);
      assert Addresses(L)[..|L| - 1] == Addresses(M);
      assert Addresses(Flat(X, L)) == Addresses(Flat(X, M)) + X[e.a].val;
    }
  }

  lemma RowBelow(c: Cfg, X: Image, lv: seq<seq<Entry>>, root: int, k: int)
    requires CfgOK(c) && WellFormed(c, X, lv, root) && 0 < k < |lv|
    ensures In(X, lv[k]) && Children(X, Addresses(lv[k])) == Addresses(lv[k - 1])
  {
    hide WellFormed, Sorted, Linked, NoDup, Parents, Inner, Flat, Children;
    TreeLevel(c, X, lv, root, k);
    ChildrenFlat(X, lv[k]);
  }

  lemma {:induction false} RowIsLevel(c: Cfg, X: Image, lv: seq<seq<Entry>>, root: int, d: nat, row: seq<int>)
    requires CfgOK(c) && WellFormed(c, X, lv, root) && d < |lv| && IsRow(X, root, d, row)
    ensures row == Addresses(lv[|lv| - 1 - d])
  {
    hide WellFormed, Children, Level;
    if d == 0 {
      TreeLevel(c, X, lv, root, |lv| - 1);
    } else {
      var above :| IsRow(X, root, d - 1, above) && (forall i :: 0 <= i < |above| ==> above[i] in X)
                   && row == Children(X, above);
      RowIsLevel(c, X, lv, root, d - 1, above);
      RowBelow(c, X, lv, root, |lv| - d);
    }
  }

  // And there is a row at every depth of the tree.
  lemma {:induction false} RowExists(c: Cfg, X: Image, lv: seq<seq<Entry>>, root: int, d: nat)
    requires CfgOK(c) && WellFormed(c, X, lv, root) && d < |lv|
    ensures IsRow(X, root, d, Addresses(lv[|lv| - 1 - d]))
  {
    hide WellFormed, Children, Level;
    TreeLevel(c, X, lv, root, |lv| - 1 - d);
    if d == 0 {
      TreeRoot(c, X, lv, root);
      assert Addresses(lv[|lv| - 1]) == [root];
    } else {
      var above := Addresses(lv[|lv| - d]);
      RowExists(c, X, lv, root, d - 1);
      RowBelow(c, X, lv, root, |lv| - d);
      assert IsRow(X, root, d - 1, above) && forall i :: 0 <= i < |above| ==> above[i] in X;
    }
  }

  lemma RowAt(t: Tree, d: nat) returns (row: seq<int>)
    requires Valid(t) && d < t.level
    ensures IsRow(t.D, t.root, d, row)
  {
    hide Tree.Buffers, Tree.OnDisk, Tree.Allocation, Count, WellFormed, Level, IsRow, Addresses;
    row := Addresses(t.lv[|t.lv| - 1 - d]);
    RowExists(t.c, t.D, t.lv, t.root, d);
  }

  // On every level the links run exactly left to right, from INVALID to INVALID.
  lemma RowLinks(t: Tree, d: nat, row: seq<int>, i: int)
    requires Valid(t) && d < t.level && IsRow(t.D, t.root, d, row) && 0 <= i < |row|
    ensures row[i] in t.D
    ensures t.D[row[i]].prev == if i == 0 then INVALID else row[i - 1]
    ensures t.D[row[i]].next == if i == |row| - 1 then INVALID else row[i + 1]
  {
    hide Tree.Buffers, Tree.OnDisk, Tree.Allocation, Count, WellFormed, Sorted, Flat, NoDup, Parents, Inner;
    var k := |t.lv| - 1 - d;
    RowIsLevel(t.c, t.D, t.lv, t.root, d, row);
    TreeLevel(t.c, t.D, t.lv, t.root, k);
    LevelLinks(t.c, t.D, t.lv, t.root, k);
    assert t.D[t.lv[k][i].a].prev == Before(t.lv[k], i) && t.D[t.lv[k][i].a].next == After(t.lv[k], i);
  }

  lemma LevelLinks(c: Cfg, X: Image, lv: seq<seq<Entry>>, root: int, k: int)
    requires CfgOK(c) && WellFormed(c, X, lv, root) && 0 <= k < |lv| && In(X, lv[k])
    ensures Linked(X, lv[k])
  {
    hide Upper, Sorted, Flat, NoDup, Parents, Inner, Bounded;
    TreeLevel(c, X, lv, root, k);
  }

  // ---------------------------------------------------------------- separators and fill

  lemma {:induction false} KeysWithin(c: Cfg, X: Image, lv: seq<seq<Entry>>, root: int, k: int, j: int, path: seq<int>,
                                      i: int)
    requires CfgOK(c) && WellFormed(c, X, lv, root) && 0 <= k < |lv| && 0 <= j < |lv[k]| && PathOK(X, lv[k][j].a, path)
    requires X[End(X, lv[k][j].a, path)].leaf && 0 <= i < |X[End(X, lv[k][j].a, path)].key|
    ensures Within(lv[k], j, X[End(X, lv[k][j].a, path)].key[i])
    decreases |path|
  {
    hide WellFormed, Sorted, Level;
    TreeLevel(c, X, lv, root, k);
    if path == [] {
      LeafBound(c, X, lv, root, j, i);
    } else {
      var o := ChildPlace(c, X, lv, root, k, j, path[0]);
      KeysWithin(c, X, lv, root, k - 1, o, path[1..], i);
      ChildBounds(c, X, lv, root, k, j, path[0], X[End(X, lv[k][j].a, path)].key[i]);
    }
  }

  lemma LeafBound(c: Cfg, X: Image, lv: seq<seq<Entry>>, root: int, j: int, i: int)
    requires WellFormed(c, X, lv, root) && lv != [] && 0 <= j < |lv[0]| && 0 <= i < |X[lv[0][j].a].key|
    ensures Within(lv[0], j, X[lv[0][j].a].key[i])
  {
    hide Upper, Sorted, Flat, NoDup, Linked;
  }

  // A key within child p's bounds is within its parent's, and on the right side of the separators.
  lemma ChildBounds(c: Cfg, X: Image, lv: seq<seq<Entry>>, root: int, k: int, j: int, p: int, x: int)
    requires CfgOK(c) && WellFormed(c, X, lv, root) && 0 < k < |lv| && 0 <= j < |lv[k]| && In(X, lv[k])
    requires 0 <= p < |X[lv[k][j].a].val| && 0 <= Off(X, lv[k], j) + p < |lv[k - 1]|
    requires Within(lv[k - 1], Off(X, lv[k], j) + p, x)
    ensures Within(lv[k], j, x) && Route(X[lv[k][j].a].key, p, x)
  {
    hide WellFormed, Flat, Linked, NoDup, Parents;
    var L, C, n := lv[k], lv[k - 1], X[lv[k][j].a];
    TreeLevel(c, X, lv, root, k);
    TreeLevel(c, X, lv, root, k - 1);
    var o := Off(X, L, j) + p;
    assert Spot(X, L, j, p, o);
    RouteToChild(c, X, L, C, k == |lv| - 1, j, p, o, x);
    assert InnerNode(c, n, L[j].a, k == |lv| - 1);
    FlatAt(X, L, j, 0);
    if j + 1 < |L| {
      OffStep(X, L, j);
      assert InnerNode(c, X[L[j + 1].a], L[j + 1].a, k == |lv| - 1);
      FlatAt(X, L, j + 1, 0);
    }
  }

  // Each separator is above every key to its left and at most every key to its right.
  lemma Separators(t: Tree, a: int, p: int, path: seq<int>, i: int)
    requires Valid(t) && a in t.D && !t.D[a].leaf && 0 <= p < |t.D[a].val| && PathOK(t.D, t.D[a].val[p], path)
    requires t.D[End(t.D, t.D[a].val[p], path)].leaf && 0 <= i < |t.D[End(t.D, t.D[a].val[p], path)].key|
    ensures var x := t.D[End(t.D, t.D[a].val[p], path)].key[i];
      && (forall q :: 0 <= q < p && q < |t.D[a].key| ==> t.D[a].key[q] <= x)
      && (forall q :: p <= q < |t.D[a].key| ==> x < t.D[a].key[q])
  {
    hide Tree.Buffers, Tree.OnDisk, Tree.Allocation, Count, WellFormed, Sorted, Level;
    var X, c, lv, root := t.D, t.c, t.lv, t.root;
    var k, j := PlaceOf(c, X, lv, root, a);
    TreeLevel(c, X, lv, root, k);
    var o := ChildPlace(c, X, lv, root, k, j, p);
    KeysWithin(c, X, lv, root, k - 1, o, path, i);
    ChildBounds(c, X, lv, root, k, j, p, X[End(X, X[a].val[p], path)].key[i]);
  }

  // The map is what the leaves hold.
  lemma LeafInMap(t: Tree, a: int, i: int)
    requires Valid(t) && a in t.D && t.D[a].leaf && 0 <= i < |t.D[a].key|
    ensures i < |t.D[a].val| && t.D[a].key[i] in Map(t) && Map(t)[t.D[a].key[i]] == t.D[a].val[i]
  {
    hide Tree.Buffers, Tree.OnDisk, Tree.Allocation, Count, Upper, Sorted, Flat, Linked, NoDup, Bounded, ToMap;
    hide Ascending;
    var X, c, lv, root := t.D, t.c, t.lv, t.root;
    var k, j := PlaceOf(c, X, lv, root, a);
    TreeLevel(c, X, lv, root, k);
    LeafFacts(c, X, lv, root, j);
    FlatAt(X, lv[0], j, i);
    Has(Flat(X, lv[0]), Off(X, lv[0], j) + i);
  }

  lemma MapInLeaf(t: Tree, key: int) returns (a: int, i: int)
    requires Valid(t) && key in Map(t)
    ensures a in t.D && t.D[a].leaf && 0 <= i < |t.D[a].key| == |t.D[a].val|
    ensures t.D[a].key[i] == key && t.D[a].val[i] == Map(t)[key]
  {
    hide Tree.Buffers, Tree.OnDisk, Tree.Allocation, Count, Upper, Sorted, Flat, Linked, NoDup, Bounded, ToMap;
    hide Ascending;
    var X, c, lv, root := t.D, t.c, t.lv, t.root;
    LeafFacts(c, X, lv, root, 0);
    var f := Find(Flat(X, lv[0]), key);
    var j, q := Locate(X, lv[0], f);
    LeafFacts(c, X, lv, root, j);
    FlatAt(X, lv[0], j, q);
    a, i := lv[0][j].a, q;
  }

  // How full a block is.
  lemma Filled(t: Tree, a: int)
    requires Valid(t) && a in t.D
    ensures var n := t.D[a];
      if n.leaf then (if a == t.root then 1 else (t.c.entries + 1) / 2) <= |n.key| == |n.val| <= t.c.entries
      else (if a == t.root then 2 else t.c.order / 2) <= |n.val| <= t.c.order && |n.key| == |n.val| - 1
    ensures Ascending(t.D[a].key)
  {
    hide Tree.Buffers, Tree.OnDisk, Tree.Allocation, Count, Upper, Sorted, Flat, Linked, NoDup, Parents, Bounded;
    hide Ascending;
    var X, c, lv, root := t.D, t.c, t.lv, t.root;
    var k, j := PlaceOf(c, X, lv, root, a);
    TreeLevel(c, X, lv, root, k);
    if k == 0 {
      LeafFacts(c, X, lv, root, j);
    } else {
      TreeLevel(c, X, lv, root, k - 1);
      KeysAscend(c, X, lv[k], lv[k - 1], k == |lv| - 1, j);
    }
  }
}
