/** Inserting upwards: parent_node_build and non_leaf_insert, from a split to the root. */
module BptInsertOps {
  import opened BptLevels
  import opened BptShape
  import opened BptInsert
  import opened BptTree
  import opened BptBlock
  import opened BptDisk
  import opened BptLinks
  import opened BptEdit
  import opened BptSplit
  import opened BptGrow

  // ---------------------------------------------------------------- where the key goes

  lemma ChildKey(c: Cfg, X: Image, C: seq<Entry>, t: int, was: int, L: seq<Entry>, top: bool, j: int, p: int, q: int)
    requires 0 <= t < |C| - 1 && Sorted(C) && Level(c, X, L, Collapse(C, t, was), top) && Spot(X, L, j, p, t)
    requires InnerNode(c, X[L[j].a], L[j].a, top) && 0 <= q < |X[L[j].a].key|
    ensures q < p ==> 0 <= t - p + q + 1 <= t && X[L[j].a].key[q] == C[t - p + q + 1].lo
    ensures p <= q ==> t + 1 < t - p + q + 2 < |C| && X[L[j].a].key[q] == C[t - p + q + 2].lo
  {
    hide Flat, Linked, NoDup, Inner, Parents, Collapse;
    FlatAt(X, L, j, p);
    FlatAt(X, L, j, q + 1);
    CollapseIs(C, t, was);
    CollapseAtT(C, t, was);
  }

  lemma CollapseAtT(C: seq<Entry>, t: int, was: int)
    requires 0 <= t < |C| - 1
    ensures Collapse(C, t, was)[t] == Entry(C[t].lo, was)
  {
  }

  // Binary search finds the place of the new separator, and does not find the separator itself.
  lemma KeyPlace(c: Cfg, X: Image, C: seq<Entry>, t: int, was: int, L: seq<Entry>, top: bool, j: int, p: int)
    requires 0 <= t < |C| - 1 && Sorted(C) && Level(c, X, L, Collapse(C, t, was), top) && Spot(X, L, j, p, t)
    ensures InnerNode(c, X[L[j].a], L[j].a, top)
    ensures Ascending(X[L[j].a].key) && Cut(X[L[j].a].key, p, C[t + 1].lo) && C[t + 1].lo !in X[L[j].a].key
  {
    hide Flat, Linked, NoDup, Parents, Collapse;
    assert InnerNode(c, X[L[j].a], L[j].a, top);
    var K, k := X[L[j].a].key, C[t + 1].lo;
    forall q | 0 <= q < |K| ensures q < p ==> K[q] < k ensures p <= q ==> k < K[q] {
      ChildKey(c, X, C, t, was, L, top, j, p, q);
    }
    forall a, b | 0 <= a < b < |K| ensures K[a] < K[b] {
      ChildKey(c, X, C, t, was, L, top, j, p, a);
      ChildKey(c, X, C, t, was, L, top, j, p, b);
    }
  }

  lemma CutUnique(K: seq<int>, p: int, q: int, k: int)
    requires Cut(K, p, k) && Cut(K, q, k) && k !in K
    ensures p == q
  {
    var m := if p < q then p else q;
    assert m < |K| ==> K[m] in K;
  }

  // ---------------------------------------------------------------- what is on disk only

  // X is the disk, with the blocks la and ra in buffers and node n open.
  ghost predicate Pending(t: Tree, X: Image, n: int, la: int, ra: int)
    reads t
  {
    && X.Keys == t.D.Keys + {la, ra} && t.held == {n, la, ra}
    && forall b :: b in X && b != la && b != ra ==> t.D[b] == X[b]
  }

  // The neighbours of the node, and its children other than the p-th, can be fetched.
  lemma Neighbourhood(t: Tree, c: Cfg, X: Image, C: seq<Entry>, tt: int, was: int, up: seq<seq<Entry>>, root: int,
                      j: int, p: int)
    requires InsertHole(c, X, C, tt, was, up, root) && up != [] && Spot(X, up[0], j, p, tt)
    requires Pending(t, X, up[0][j].a, C[tt].a, C[tt + 1].a)
    ensures var n := X[up[0][j].a];
      && (n.prev != INVALID ==> Fetchable(t, n.prev))
      && (n.next != INVALID ==> Fetchable(t, n.next))
      && (forall q :: 0 <= q < |n.val| && q != p ==> Fetchable(t, n.val[q]))
  {
    hide Flat, Collapse, Parents, Sorted, Upper, Level;
    var L, n := up[0], up[0][j].a;
    UpperStep(c, X, Collapse(C, tt, was), up, root);
    assert C[tt].a in Addrs(C) && C[tt + 1].a in Addrs(C);
    LinkedNeighbours(c, X, L, Collapse(C, tt, was), |up| == 1, j);
    forall q | 0 <= q < |X[n].val| && q != p ensures Fetchable(t, X[n].val[q]) {
      ChildElsewhere(c, X, C, tt, was, L, |up| == 1, j, p, q);
    }
  }

  lemma LinkedNeighbours(c: Cfg, X: Image, L: seq<Entry>, C: seq<Entry>, top: bool, j: int)
    requires Level(c, X, L, C, top) && 0 <= j < |L|
    ensures L[j].a in X && L[j].a in Addrs(L)
    ensures var a := X[L[j].a].prev; a != INVALID ==> a in Addrs(L) && a in X && X[a].self == a && a != L[j].a
    ensures var a := X[L[j].a].next; a != INVALID ==> a in Addrs(L) && a in X && X[a].self == a && a != L[j].a
  {
    hide Flat, Parents;
    assert X[L[j].a].prev == Before(L, j) && X[L[j].a].next == After(L, j);
    if j > 0 {
      assert L[j - 1].a in Addrs(L) && InnerNode(c, X[L[j - 1].a], L[j - 1].a, top);
    }
    if j < |L| - 1 {
      assert L[j + 1].a in Addrs(L) && InnerNode(c, X[L[j + 1].a], L[j + 1].a, top);
    }
  }

  lemma ChildElsewhere(c: Cfg, X: Image, C: seq<Entry>, t: int, was: int, L: seq<Entry>, top: bool, j: int, p: int,
                       q: int)
    requires 0 <= t < |C| - 1 && In(X, C) && Selfs(X, C) && NoDup(C) && Addrs(C) !! Addrs(L)
    requires Level(c, X, L, Collapse(C, t, was), top) && Spot(X, L, j, p, t)
    requires 0 <= q < |X[L[j].a].val| && q != p
    ensures var s := X[L[j].a].val[q]; s in X && X[s].self == s && s != C[t].a && s != C[t + 1].a && s != L[j].a
  {
    hide Flat, Linked, Inner, Parents, Collapse;
    FlatAt(X, L, j, p);
    FlatAt(X, L, j, q);
    CollapseIs(C, t, was);
    var o := if q < p then t - p + q else t - p + q + 1;
    assert C[o].a == X[L[j].a].val[q];
    assert C[o].a in Addrs(C) && L[j].a in Addrs(L);
  }

  // ---------------------------------------------------------------- a node with room

  method NonLeafSimpleInsert(t: Tree, node: int, l: int, r: int, key: int, insert: int)
    requires t.Inv() && Loaded(t, node) && !t.cache[node].leaf && PairLoaded(t, node, node, l, r)
    requires 0 <= insert < t.cache[node].children < t.c.order
    modifies t`cache, t`used, t`held, t`disk, t`D
    ensures t.Inv() && t.used == old(t.used)[l := false][r := false] && Count(t.used) == Count(old(t.used)) - 2
    ensures t.held == old(t.held) - {old(t.cache)[l].self} - {old(t.cache)[r].self}
    ensures Fits(t.c, t.cache[node]) && t.cache[node].self == old(t.cache)[node].self
    ensures var v := View(t.c, old(t.cache)[node]);
      && |v.val| == |v.key| + 1 && insert < |v.val|
      && View(t.c, t.cache[node]) == Grown(v, insert, old(t.cache)[l].self, old(t.cache)[r].self, key)
    ensures var n := old(t.cache)[node].self;
      t.D == old(t.D)[old(t.cache)[l].self := View(t.c, old(t.cache)[l]).(parent := n)]
                     [old(t.cache)[r].self := View(t.c, old(t.cache)[r]).(parent := n)]
  {
    hide Tree.Buffers, Tree.OnDisk, Tree.Allocation, Count, View, Memmove, OpenGap, Grown;
    ghost var b, la, ra := t.cache[node], t.cache[l].self, t.cache[r].self;
    t.Write(node, OpenGap(t.c, t.cache[node], key, insert));
    SubNodeUpdate(t, node, insert, l);
    SubNodeUpdate(t, node, insert + 1, r);
    SimpleInsertView(t.c, b, key, insert, la, ra);
    ViewInner(t.c, b);
    assert t.cache[node].children == b.children by { OpenGapCount(t.c, b, key, insert); }
    t.Write(node, t.cache[node].(children := t.cache[node].children + 1));
  }

  lemma OpenGapCount(c: Cfg, b: Block, key: int, insert: int)
    requires Fits(c, b) && !b.leaf && 0 <= insert < b.children < c.order
    ensures OpenGap(c, b, key, insert).children == b.children
  {
  }

  // ---------------------------------------------------------------- a new root

  // A new root in a buffer, at an offset of its own, with two children.
  method RootNode(t: Tree, la: int, ra: int, key: int) returns (parent: int)
    requires t.Inv() && Count(t.used) == 2
    modifies t`cache, t`used, t`fileSize, t`free, t`held, t`blocks
    ensures t.Inv() && 0 <= parent < MIN_CACHE_NUM && !old(t.used)[parent] && t.used == old(t.used)[parent := true]
    ensures Count(t.used) == 3 && t.cache == old(t.cache)[parent := t.cache[parent]]
    ensures var x := t.cache[parent].self;
      && x != INVALID && x !in t.D && x !in old(t.held) && t.held == old(t.held) + {x} && Fits(t.c, t.cache[parent])
      && View(t.c, t.cache[parent]) == Node(x, INVALID, INVALID, INVALID, false, [key], [la, ra])
  {
    hide Tree.Buffers, Tree.OnDisk, Tree.Allocation, Count, View;
    parent := t.NodeNew(false);
    var b := t.cache[parent];
    t.Write(parent, b.(key := b.key[0 := key], sub := b.sub[0 := la][1 := ra], children := 2));
    ghost var p := t.cache[parent];
    var x := t.NewNodeAppend(parent);
    RootView(t.c, p, x, key, la, ra);
  }

  method RootBuild(t: Tree, l: int, r: int, key: int) returns (ghost x: int)
    requires t.Inv() && Count(t.used) == 2 && Loaded(t, l) && Loaded(t, r) && l != r
    requires t.cache[l].self != t.cache[r].self
    requires t.held == {t.cache[l].self, t.cache[r].self}
    modifies t
    ensures t.Inv() && Count(t.used) == 0 && t.held == {} && t.level == old(t.level) + 1 && t.root == x
    ensures x != INVALID && x !in old(t.D) && x != old(t.cache)[l].self && x != old(t.cache)[r].self
    ensures var la, ra := old(t.cache)[l].self, old(t.cache)[r].self;
      t.D == old(t.D)[la := View(t.c, old(t.cache)[l]).(parent := x)][ra := View(t.c, old(t.cache)[r]).(parent := x)]
                     [x := Node(x, INVALID, INVALID, INVALID, false, [key], [la, ra])]
  {
    hide Tree.Buffers, Tree.OnDisk, Tree.Allocation, Count, View;
    var parent := RootNode(t, t.cache[l].self, t.cache[r].self, key);
    t.root := t.cache[parent].self;
    x := t.root;
    t.SetParent(l, t.cache[parent].self);
    t.SetParent(r, t.cache[parent].self);
    t.level := t.level + 1;
    t.NodeFlush(l);
    t.NodeFlush(r);
    t.NodeFlush(parent);
  }

  lemma RootView(c: Cfg, b: Block, x: int, key: int, la: int, ra: int)
    requires Fits(c, b) && !b.leaf && b.children == 2 && b.key[0] == key && b.sub[0] == la && b.sub[1] == ra
    requires b.parent == INVALID && b.prev == INVALID && b.next == INVALID
    ensures View(c, b.(self := x)) == Node(x, INVALID, INVALID, INVALID, false, [key], [la, ra])
  {
  }

  // ---------------------------------------------------------------- upwards

  // The pair in buffers l and r stands where the level above still has one child.
  ghost predicate Pair(t: Tree, l: int, r: int, key: int, C: seq<Entry>, tt: int, was: int, up: seq<seq<Entry>>)
    reads t
  {
    && t.Inv() && Loaded(t, l) && Loaded(t, r) && l != r && t.cache[l].self != t.cache[r].self
    && InsertHole(t.c, With(t, l, r), C, tt, was, up, t.root)
    && t.cache[l].self == C[tt].a && t.cache[r].self == C[tt + 1].a && key == C[tt + 1].lo
  }

  // Everything is on disk, and the levels above C are in order.
  ghost predicate Settled(t: Tree, X: Image, C: seq<Entry>, up: seq<seq<Entry>>, up2: seq<seq<Entry>>)
    reads t
  {
    && t.Inv() && Count(t.used) == 0 && t.held == {}
    && up2 != [] && Upper(t.c, t.D, C, up2, t.root) && Reshaped(X, t.D, C, up, up2)
  }

  lemma HoleOwner(c: Cfg, X: Image, C: seq<Entry>, t: int, was: int, up: seq<seq<Entry>>, root: int)
      returns (j: int, p: int)
    requires InsertHole(c, X, C, t, was, up, root) && up != []
    ensures Spot(X, up[0], j, p, t)
    ensures was in X && X[was].parent == up[0][j].a && up[0][j].a in X && X[up[0][j].a].self == up[0][j].a
    ensures up[0][j].a != C[t].a && up[0][j].a != C[t + 1].a
  {
    hide Flat, Collapse, Sorted, Upper, NoDup, Linked;
    UpperStep(c, X, Collapse(C, t, was), up, root);
    CollapseAt(C, t, was);
    j, p := Locate(X, up[0], t);
    ChildOfSpot(c, X, up[0], Collapse(C, t, was), |up| == 1, j, p, t);
    assert C[t].a in Addrs(C) && C[t + 1].a in Addrs(C) && up[0][j].a in Addrs(up[0]);
    assert InnerNode(c, X[up[0][j].a], up[0][j].a, |up| == 1);
  }

  // Both of the pair are without parent exactly when the tree has no level above them.
  lemma HoleTop(c: Cfg, X: Image, C: seq<Entry>, t: int, was: int, up: seq<seq<Entry>>, root: int)
    requires InsertHole(c, X, C, t, was, up, root)
    ensures up == [] <==> X[C[t].a].parent == INVALID && X[C[t + 1].a].parent == INVALID
  {
    hide Collapse, Sorted, NoDup;
    if up == [] {
      CollapseAt(C, t, was);
      assert Collapse(C, t, was)[0].a == was;
    } else {
      var j, p := HoleOwner(c, X, C, t, was, up, root);
    }
  }

  lemma NewRootFrame(X: Image, Y: Image, C: seq<Entry>, t: int, x: int)
    requires 0 <= t < |C| - 1 && In(X, C) && x !in X
    requires Y == Adopt(Adopt(X, C[t].a, x), C[t + 1].a, x)
                    [x := Node(x, INVALID, INVALID, INVALID, false, [C[t + 1].lo], [C[t].a, C[t + 1].a])]
    ensures Reshaped(X, Y, C, [], [[Entry(MIN_KEY, x)]])
  {
    var L := [Entry(MIN_KEY, x)];
    assert [L][1..] == [] && Addrs(L) == {x};
    assert AllAddrs([L]) == {x};
    assert C[t].a in Addrs(C) && C[t + 1].a in Addrs(C);
  }

  method ParentNodeBuild(t: Tree, l: int, r: int, key: int,
                         ghost C: seq<Entry>, ghost tt: int, ghost was: int, ghost up: seq<seq<Entry>>)
      returns (ret: int, ghost up2: seq<seq<Entry>>)
    requires Pair(t, l, r, key, C, tt, was, up) && Count(t.used) == 2
    requires t.held == {t.cache[l].self, t.cache[r].self}
    modifies t
    ensures ret == 0 && Settled(t, old(With(t, l, r)), C, up, up2) && t.level - |up2| == old(t.level) - |up|
    decreases |up|, 2
  {
    hide Tree.Buffers, Tree.OnDisk, Tree.Allocation, Count;
    hide Upper, Sorted, NoDup, Collapse, Reshaped, Spot;
    ghost var c, X := t.c, With(t, l, r);
    HoleTop(c, X, C, tt, was, up, t.root);
    if t.cache[l].parent == INVALID && t.cache[r].parent == INVALID {
      ghost var x := RootBuild(t, l, r, key);
      ret := 0;
      up2 := [[Entry(MIN_KEY, x)]];
      NewRoot(c, X, t.D, C, tt, was, old(t.root), x);
      NewRootFrame(X, t.D, C, tt, x);
    } else {
      ghost var j, p := HoleOwner(c, X, C, tt, was, up, t.root);
      if t.cache[r].parent == INVALID {
        var node := t.NodeFetch(t.cache[l].parent);
        ret, up2 := NonLeafInsert(t, node, l, r, key, C, tt, was, up, j, p);
      } else {
        var node := t.NodeFetch(t.cache[r].parent);
        ret, up2 := NonLeafInsert(t, node, l, r, key, C, tt, was, up, j, p);
      }
    }
  }

  method NonLeafInsert(t: Tree, node: int, l: int, r: int, key: int,
                       ghost C: seq<Entry>, ghost tt: int, ghost was: int, ghost up: seq<seq<Entry>>,
                       ghost j: int, ghost p: int)
      returns (ret: int, ghost up2: seq<seq<Entry>>)
    requires Pair(t, l, r, key, C, tt, was, up) && Count(t.used) == 3 && node != l && node != r
    requires up != [] && Spot(With(t, l, r), up[0], j, p, tt) && Open(t, node, up[0][j].a)
    requires t.held == {t.cache[node].self, t.cache[l].self, t.cache[r].self}
    requires up[0][j].a != C[tt].a && up[0][j].a != C[tt + 1].a
    modifies t
    ensures ret == 0 && Settled(t, old(With(t, l, r)), C, up, up2) && t.level - |up2| == old(t.level) - |up|
    decreases |up|, 1
  {
    hide Tree.Buffers, Tree.OnDisk, Tree.Allocation, Count;
    hide Upper, Sorted, NoDup, Collapse, Reshaped, View, InsertHole;
    ghost var c, X, n := t.c, With(t, l, r), up[0][j].a;
    ghost var v := View(c, t.cache[node]);
    HoleKey(c, X, C, tt, was, up, t.root, j, p);
    ViewHeader(c, t.cache[node]);
    ViewInner(c, t.cache[node]);
    var insert := KeyBinarySearch(t.cache[node], key);
    assert insert < 0;
    insert := -insert - 1;
    CutUnique(X[n].key, p, insert, key);
    if t.cache[node].children == t.c.order {
      ret, up2 := NonLeafSplit(t, node, l, r, key, insert, C, tt, was, up, j);
    } else {
      ghost var D, vl, vr := t.D, View(c, t.cache[l]), View(c, t.cache[r]);
      NonLeafSimpleInsert(t, node, l, r, key, insert);
      t.NodeFlush(node);
      ret, up2 := 0, up;
      SimpleDone(c, D, X, t.D, vl, vr, C, tt, was, up, t.root, j, p);
    }
  }

  lemma SimpleDone(c: Cfg, D: Image, X: Image, Y: Image, vl: Node, vr: Node,
                   C: seq<Entry>, t: int, was: int, up: seq<seq<Entry>>, root: int, j: int, p: int)
    requires InsertHole(c, X, C, t, was, up, root) && up != [] && Spot(X, up[0], j, p, t)
    requires C[t].a != C[t + 1].a && up[0][j].a != C[t].a && up[0][j].a != C[t + 1].a
    requires InnerNode(c, X[up[0][j].a], up[0][j].a, |up| == 1) && |X[up[0][j].a].val| < c.order
    requires X == D[C[t].a := vl][C[t + 1].a := vr]
    requires Y == D[C[t].a := vl.(parent := up[0][j].a)][C[t + 1].a := vr.(parent := up[0][j].a)]
                   [up[0][j].a := Grown(X[up[0][j].a], p, C[t].a, C[t + 1].a, C[t + 1].lo)]
    ensures Upper(c, Y, C, up, root) && Reshaped(X, Y, C, up, up)
  {
    hide Upper, Sorted, NoDup, Collapse, Grown;
    var la, ra, n := C[t].a, C[t + 1].a, up[0][j].a;
    assert Y == Adopt(Adopt(X, la, n), ra, n)[n := Grown(X[n], p, la, ra, C[t + 1].lo)];
    SimpleInsertUpper(c, X, Y, C, t, was, up, root, j, p);
    UpperStep(c, X, Collapse(C, t, was), up, root);
    assert la in Addrs(C) && ra in Addrs(C) && n in Addrs(up[0]);
    assert Y.Keys == X.Keys;
  }

  lemma HoleKey(c: Cfg, X: Image, C: seq<Entry>, t: int, was: int, up: seq<seq<Entry>>, root: int, j: int, p: int)
    requires InsertHole(c, X, C, t, was, up, root) && up != [] && Spot(X, up[0], j, p, t)
    ensures InnerNode(c, X[up[0][j].a], up[0][j].a, |up| == 1)
    ensures Ascending(X[up[0][j].a].key) && Cut(X[up[0][j].a].key, p, C[t + 1].lo) && C[t + 1].lo !in X[up[0][j].a].key
  {
    hide Level, Collapse, NoDup, Upper, Sorted;
    UpperStep(c, X, Collapse(C, t, was), up, root);
    KeyPlace(c, X, C, t, was, up[0], |up| == 1, j, p);
  }

  // The full node: one of three ways to split, then on to the parent.
  method NonLeafSplit(t: Tree, node: int, l: int, r: int, key: int, insert: int,
                      ghost C: seq<Entry>, ghost tt: int, ghost was: int, ghost up: seq<seq<Entry>>, ghost j: int)
      returns (ret: int, ghost up2: seq<seq<Entry>>)
    requires Pair(t, l, r, key, C, tt, was, up) && Count(t.used) == 3 && node != l && node != r
    requires up != [] && Spot(With(t, l, r), up[0], j, insert, tt) && Open(t, node, up[0][j].a)
    requires t.held == {t.cache[node].self, t.cache[l].self, t.cache[r].self}
    requires up[0][j].a != C[tt].a && up[0][j].a != C[tt + 1].a
    requires !t.cache[node].leaf && t.cache[node].children == t.c.order && 0 <= insert < t.c.order
    modifies t
    ensures ret == 0 && Settled(t, old(With(t, l, r)), C, up, up2) && t.level - |up2| == old(t.level) - |up|
    decreases |up|, 1, 0
  {
    hide Tree.Buffers, Tree.OnDisk, Tree.Allocation, Count, Halved;
    hide Upper, Sorted, NoDup, Collapse, Reshaped, View, InsertHole, Spot;
    ghost var X := With(t, l, r);
    ghost var la, ra := t.cache[l].self, t.cache[r].self;
    var split := t.cache[node].children / 2;
    var sibling, splitKey;
    ReadyToSplit(t, node, l, r, key, C, tt, was, up, j, insert);
    sibling := t.NodeNew(false);
    if insert < split {
      splitKey := NonLeafSplitLeft(t, node, sibling, l, r, key, insert, split);
      ret, up2 := SplitUp(t, node, sibling, splitKey, true, X, C, tt, was, up, j, insert, split + 1);
    } else if insert == split {
      splitKey := NonLeafSplitRight1(t, node, sibling, l, r, key, insert, split);
      ret, up2 := SplitUp(t, node, sibling, splitKey, false, X, C, tt, was, up, j, insert, split);
    } else {
      splitKey := NonLeafSplitRight2(t, node, sibling, l, r, key, insert, split);
      ret, up2 := SplitUp(t, node, sibling, splitKey, false, X, C, tt, was, up, j, insert, split + 1);
    }
  }

  // The node open in its buffer has its neighbours and children on disk only.
  lemma ReadyToSplit(t: Tree, node: int, l: int, r: int, key: int, C: seq<Entry>, tt: int, was: int,
                     up: seq<seq<Entry>>, j: int, p: int)
    requires Pair(t, l, r, key, C, tt, was, up) && node != l && node != r
    requires up != [] && Spot(With(t, l, r), up[0], j, p, tt) && Open(t, node, up[0][j].a)
    requires t.held == {t.cache[node].self, t.cache[l].self, t.cache[r].self}
    requires up[0][j].a != C[tt].a && up[0][j].a != C[tt + 1].a
    requires !t.cache[node].leaf && t.cache[node].children == t.c.order
    ensures t.cache[node].prev != INVALID ==> Fetchable(t, t.cache[node].prev)
    ensures t.cache[node].next != INVALID ==> Fetchable(t, t.cache[node].next)
    ensures forall q :: 0 <= q < |t.cache[node].sub| && q != p ==> Fetchable(t, t.cache[node].sub[q])
  {
    hide Tree.Buffers, Tree.OnDisk, Tree.Allocation, Upper, Sorted, NoDup, Collapse, View, InsertHole, Spot;
    Neighbourhood(t, t.c, With(t, l, r), C, tt, was, up, t.root, j, p);
    ViewInner(t.c, t.cache[node]);
  }

  method SplitUp(t: Tree, node: int, sibling: int, splitKey: int, toLeft: bool, ghost X: Image,
                 ghost C: seq<Entry>, ghost tt: int, ghost was: int, ghost up: seq<seq<Entry>>,
                 ghost j: int, ghost p: int, ghost cut: int)
      returns (ret: int, ghost up2: seq<seq<Entry>>)
    requires InsertHole(t.c, X, C, tt, was, up, t.root) && up != [] && Spot(X, up[0], j, p, tt)
    requires Parted(t, X, node, sibling, C[tt].a, C[tt + 1].a, C[tt + 1].lo, p, cut, splitKey, toLeft)
    requires t.cache[node].self == up[0][j].a
    modifies t
    ensures ret == 0 && Settled(t, X, C, up, up2) && t.level - |up2| == old(t.level) - |up|
    decreases |up|, 0
  {
    hide Tree.Buffers, Tree.OnDisk, Tree.Allocation, Count, Halved;
    hide Upper, Sorted, NoDup, Collapse, Reshaped, View, Spot, Level, Grow, SplitFrame;
    ghost var c, n, x, old_root := t.c, t.cache[node].self, t.cache[sibling].self, t.root;
    ghost var Z := t.D[n := View(c, t.cache[node])][x := View(c, t.cache[sibling])];
    SpotIn(X, up[0], j, p, tt);
    HalvedSelfs(c, X, t.D, t.cache[node], t.cache[sibling], C[tt].a, C[tt + 1].a, C[tt + 1].lo, p, cut, splitKey,
                toLeft);
    HalvedHole(c, X, t.D, Z, C, tt, was, up, t.root, j, p, t.cache[node], t.cache[sibling], cut, splitKey, toLeft);
    ghost var M := Grow(up[0], j, LeftOf(toLeft, n, x), RightOf(toLeft, n, x), splitKey);
    GrowAt(up[0], j, LeftOf(toLeft, n, x), RightOf(toLeft, n, x), splitKey);
    ghost var top;
    if toLeft {
      assert With(t, sibling, node) == Z;
      ret, top := ParentNodeBuild(t, sibling, node, splitKey, M, j, n, up[1..]);
    } else {
      assert With(t, node, sibling) == Z;
      ret, top := ParentNodeBuild(t, node, sibling, splitKey, M, j, n, up[1..]);
    }
    up2 := [M] + top;
    SplitUpDone(c, X, Z, t.D, C, tt, was, up, old_root, M, top, t.root, x);
  }

  lemma HalvedSelfs(c: Cfg, X: Image, Y: Image, bn: Block, bx: Block, la: int, ra: int, key: int, p: int, cut: int,
                    sep: int, toLeft: bool)
    requires Halved(c, X, Y, bn, bx, la, ra, key, p, cut, sep, toLeft)
    ensures bn.self in X && bx.self !in X
  {
  }

  lemma SplitUpDone(c: Cfg, X: Image, Z: Image, W: Image, C: seq<Entry>, t: int, was: int, up: seq<seq<Entry>>,
                    root: int,
                    M: seq<Entry>, top: seq<seq<Entry>>, root2: int, x: int)
    requires InsertHole(c, X, C, t, was, up, root) && up != []
    requires Level(c, Z, M, C, false) && SplitFrame(X, Z, C, up[0], x) && x !in X
    requires Addrs(M) == Addrs(up[0]) + {x}
    requires top != [] && Upper(c, W, M, top, root2) && Reshaped(Z, W, M, up[1..], top)
    ensures Upper(c, W, C, [M] + top, root2) && Reshaped(X, W, C, up, [M] + top)
  {
    hide Upper, Sorted, NoDup, Collapse, Reshaped, Level;
    UpperStep(c, X, Collapse(C, t, was), up, root);
    UpperAddrs(c, X, Collapse(C, t, was), up, root);
    assert Addrs(C) <= X.Keys;
    FrameStep(X, Z, W, C, up, M, top, x);
    StackLevel(c, W, Z, C, M, top, root2, up[1..]);
  }
}
