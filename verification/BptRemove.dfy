/** non_leaf_remove: a freed child leaves its parent, and the gap is closed on the way up. */
module BptRemove {
  import opened BptLevels
  import opened BptShape
  import opened BptInsert
  import opened BptDelete
  import opened BptTree
  import opened BptBlock
  import opened BptDisk
  import opened BptLinks
  import opened BptEdit
  import opened BptRemoveEdit
  import opened BptSplit
  import opened BptGrow
  import opened BptSearch
  import opened BptShrink
  import opened BptPlace
  import opened BptRebalance
  import opened BptRemoveOps

  // The node open in its buffer still lists the freed child remove + 1.
  ghost predicate Poised(t: Tree, node: int, remove: int, C: seq<Entry>, tt: int, dead: Entry, up: seq<seq<Entry>>,
                         j: int)
    reads t
  {
    && t.Inv() && Count(t.used) == 1 && up != [] && DeleteHole(t.c, t.D, C, tt, dead, up, t.root)
    && 0 <= remove && Spot(t.D, up[0], j, remove + 1, tt) && Open(t, node, up[0][j].a) && t.held == {up[0][j].a}
  }

  // The levels above C are sound again, and nothing else was touched.
  ghost predicate Mended(t: Tree, X: Image, C: seq<Entry>, up: seq<seq<Entry>>, up2: seq<seq<Entry>>)
    reads t
  {
    && t.Inv() && Count(t.used) == 0 && t.held == {}
    && Upper(t.c, t.D, C, up2, t.root) && Reshaped(X, t.D, C, up, up2)
  }

  // What the buffer of an open inner node says.
  lemma OpenInner(t: Tree, i: int, a: int, top: bool)
    requires Open(t, i, a) && InnerNode(t.c, t.D[a], a, top)
    ensures var b, n := t.cache[i], t.D[a];
      && !b.leaf && b.children == |n.val| && n.val == b.sub[..b.children] && n.key == b.key[..b.children - 1]
      && b.children >= 1
      && |b.key| == t.c.order - 1 && |b.sub| == t.c.order && b.children <= t.c.order
      && n.parent == b.parent && n.prev == b.prev && n.next == b.next
      && forall q :: 0 <= q < b.children ==> b.sub[q] == n.val[q]
  {
    hide View, Fits;
    ViewHeader(t.c, t.cache[i]);
    ViewInner(t.c, t.cache[i]);
    FitsInner(t.c, t.cache[i]);
  }

  // ---------------------------------------------------------------- without a neighbour

  method SimplyRemove(t: Tree, node: int, remove: int,
                      ghost C: seq<Entry>, ghost tt: int, ghost dead: Entry, ghost up: seq<seq<Entry>>, ghost j: int)
    requires Poised(t, node, remove, C, tt, dead, up, j)
    requires |t.D[up[0][j].a].val| > (if |up| == 1 then 2 else t.c.order / 2)
    modifies t`cache, t`disk, t`used, t`held, t`D
    ensures Mended(t, old(t.D), C, up, up)
  {
    hide Tree.Buffers, Tree.OnDisk, Tree.Allocation, Count, View, Fits, Upper, DeleteHole, Reshaped, SimpleRemove, Spot;
    SpotBound(t.D, up[0], j, remove + 1, tt);
    ghost var X, n, b := t.D, up[0][j].a, t.cache[node];
    DeadChild(t.c, X, C, tt, dead, up, t.root, j, remove + 1);
    OpenInner(t, node, n, |up| == 1);
    t.Write(node, SimpleRemove(t.c, t.cache[node], remove));
    SimpleRemoveView(t.c, b, remove);
    t.NodeFlush(node);
    RemoveDone(t.c, X, t.D, C, tt, dead, up, t.root, j, remove + 1);
  }

  lemma SpotBound(X: Image, L: seq<Entry>, j: int, p: int, t: int)
    requires Spot(X, L, j, p, t)
    ensures In(X, L) && 0 <= j < |L| && 0 <= p < |X[L[j].a].val|
  {
  }

  // The root's only other child becomes the root.
  method CollapseRoot(t: Tree, node: int, remove: int,
                      ghost C: seq<Entry>, ghost tt: int, ghost dead: Entry, ghost up: seq<seq<Entry>>, ghost j: int)
    requires Poised(t, node, remove, C, tt, dead, up, j) && |up| == 1 && |t.D[up[0][j].a].val| == 2
    modifies t
    ensures Mended(t, old(t.D), C, up, []) && t.level == old(t.level) - 1
  {
    hide Tree.Buffers, Tree.OnDisk, Tree.Allocation, Count, View, Fits, Upper, DeleteHole, Reshaped, Spot;
    SpotBound(t.D, up[0], j, remove + 1, tt);
    ghost var X, n, b, root := t.D, up[0][j].a, t.cache[node], t.root;
    DeadChild(t.c, X, C, tt, dead, up, t.root, j, remove + 1);
    OpenInner(t, node, n, true);
    FirstChild(t.c, X, C, tt, dead, up, t.root, j, remove);
    var child := t.NodeFetch(t.cache[node].sub[0]);
    t.SetParent(child, INVALID);
    t.root := t.cache[child].self;
    t.level := t.level - 1;
    NodeDelete(t, node, -1, -1);
    t.NodeFlush(child);
    assert t.D == Adopt(X, X[n].val[0], INVALID) - {n};
    CollapseDone(t.c, X, t.D, C, tt, dead, up, root, remove + 1);
  }

  lemma FirstChild(c: Cfg, X: Image, C: seq<Entry>, t: int, dead: Entry, up: seq<seq<Entry>>, root: int, j: int,
                   remove: int)
    requires DeleteHole(c, X, C, t, dead, up, root) && |up| == 1 && 0 <= remove && Spot(X, up[0], j, remove + 1, t)
    ensures j == 0 && var s := X[up[0][0].a].val[0]; s in X && X[s].self == s && s != up[0][0].a
  {
    hide Upper, Insert, Sorted, NoDup, Flat;
    UpperStep(c, X, Insert(C, t, dead), up, root);
    KeptChild(c, X, C, t, dead, up, root, j, 0);
    assert up[0][0].a in Addrs(up[0]);
  }

  // ---------------------------------------------------------------- with a neighbour

  // The children that are left can be read, since only the levels above are in buffers.
  ghost predicate Apart(X: Image, up: seq<seq<Entry>>, V: seq<int>, skip: int) {
    forall p :: 0 <= p < |V| && p != skip ==> V[p] in X && X[V[p]].self == V[p] && V[p] !in AllAddrs(up)
  }

  lemma ChildrenApart(c: Cfg, X: Image, C: seq<Entry>, t: int, dead: Entry, up: seq<seq<Entry>>, root: int, j: int,
                      p: int, k: int)
    requires DeleteHole(c, X, C, t, dead, up, root) && up != [] && Spot(X, up[0], j, p, t) && 0 <= k < |up[0]|
    ensures Apart(X, up, X[up[0][k].a].val, if k == j then p else -1)
  {
    hide Upper, DeleteHole, Flat;
    var V := X[up[0][k].a].val;
    forall o | 0 <= o < |V| && o != (if k == j then p else -1)
      ensures V[o] in X && X[V[o]].self == V[o] && V[o] !in AllAddrs(up)
    {
      OtherChild(X, up[0], j, p, k, o);
      KeptChild(c, X, C, t, dead, up, root, k, o);
    }
  }

  // Different children of a level have different positions below it.
  lemma OtherChild(X: Image, L: seq<Entry>, j: int, p: int, k: int, o: int)
    requires In(X, L) && 0 <= j < |L| && 0 <= k < |L| && 0 <= p < |X[L[j].a].val| && 0 <= o < |X[L[k].a].val|
    requires k != j || o != p
    ensures Off(X, L, k) + o != Off(X, L, j) + p
  {
    if k < j {
      OffStep(X, L, k);
      OffWeak(X, L, k + 1, j);
    } else if j < k {
      OffStep(X, L, j);
      OffWeak(X, L, j + 1, k);
    }
  }

  // A node, its siblings and its parent as read in for a rebalance.
  ghost predicate Gathered(t: Tree, node: int, l: int, r: int, parent: int, remove: int,
                           C: seq<Entry>, tt: int, dead: Entry, up: seq<seq<Entry>>, j: int, u: int, q: int)
    reads t
  {
    && Beneath(t.c, t.D, C, tt, dead, up, t.root, j, remove, u, q)
    && Family(t, node, l, r, parent, up[0][j].a, Before(up[0], j), After(up[0], j), up[1][u].a)
    && t.held <= AllAddrs(up) && t.D[up[0][j].a].next == After(up[0], j)
    && |t.D[up[0][j].a].val| <= (t.c.order + 1) / 2
  }

  // The node's left neighbour has the same parent, and both are as the buffers say.
  ghost predicate LeftReady(t: Tree, node: int, l: int, r: int, parent: int, i: int, remove: int, up: seq<seq<Entry>>,
                            j: int, u: int)
    reads t
  {
    && |up| >= 2 && 1 <= j < |up[0]| && 0 <= u < |up[1]|
    && Family(t, node, l, r, parent, up[0][j].a, up[0][j - 1].a, After(up[0], j), up[1][u].a)
    && t.D[up[0][j].a].next == After(up[0], j) && up[0][j - 1].a != INVALID
    && !t.cache[node].leaf && !t.cache[l].leaf && !t.cache[parent].leaf
    && 0 <= remove < t.cache[node].children - 1 && t.cache[l].children >= 2 && 0 <= i < t.cache[parent].children - 1
    && t.cache[node].children <= (t.c.order + 1) / 2 && t.cache[l].children <= t.c.order
    && Fetchable(t, t.cache[l].sub[t.cache[l].children - 1])
    && (forall q :: 0 <= q < t.cache[node].children && q != remove + 1 ==> Fetchable(t, t.cache[node].sub[q]))
    && t.cache[node].sub[remove + 1] !in t.D
    && t.cache[l].children == |t.D[up[0][j - 1].a].val| && t.cache[node].children == |t.D[up[0][j].a].val|
    && |t.D[up[0][j - 1].a].val| == |t.D[up[0][j - 1].a].key| + 1 && |t.D[up[1][u].a].val| == |t.D[up[1][u].a].key| + 1
    && i < |t.D[up[1][u].a].key|
  }

  lemma GetLeftReady(t: Tree, node: int, l: int, r: int, parent: int, i: int, remove: int,
                     C: seq<Entry>, tt: int, dead: Entry, up: seq<seq<Entry>>, j: int, u: int)
    requires Gathered(t, node, l, r, parent, remove, C, tt, dead, up, j, u, i + 1) && 0 <= i
    ensures LeftReady(t, node, l, r, parent, i, remove, up, j, u)
  {
    hide Tree.Buffers, Tree.OnDisk, Tree.Allocation, Count, View, Fits, Upper, Level, DeleteHole, Spot, Flat, AllAddrs;
    hide Insert;
    var X, c, root := t.D, t.c, t.root;
    BeneathIn(c, X, C, tt, dead, up, root, j, remove, u, i + 1);
    PairAround(c, X, C, tt, dead, up, root, j - 1, u, i + 1);
    OpenInner(t, node, up[0][j].a, false);
    OpenInner(t, l, up[0][j - 1].a, false);
    OpenInner(t, parent, up[1][u].a, |up| == 2);
    ChildrenApart(c, X, C, tt, dead, up, root, j, remove + 1, j);
    ChildrenApart(c, X, C, tt, dead, up, root, j, remove + 1, j - 1);
    DeadChild(c, X, C, tt, dead, up, root, j, remove + 1);
  }

  method RefillLeft(t: Tree, node: int, l: int, r: int, parent: int, i: int, remove: int,
                    ghost C: seq<Entry>, ghost tt: int, ghost dead: Entry, ghost up: seq<seq<Entry>>,
                    ghost j: int, ghost u: int)
      returns (ghost up2: seq<seq<Entry>>)
    requires Gathered(t, node, l, r, parent, remove, C, tt, dead, up, j, u, i + 1) && 0 <= i
    modifies t
    ensures Mended(t, old(t.D), C, up, up2) && t.level - |up2| == old(t.level) - |up|
    decreases |up|, 0
  {
    hide Tree.Buffers, Tree.OnDisk, Tree.Allocation, Count, View, Fits, Upper, Level, DeleteHole, Reshaped, Spot, Flat;
    hide Drop, AllAddrs, MergeEffect, Insert;
    ghost var X, c, root := t.D, t.c, t.root;
    GetLeftReady(t, node, l, r, parent, i, remove, C, tt, dead, up, j, u);
    ghost var n, la, pa := up[0][j].a, up[0][j - 1].a, up[1][u].a;
    if t.cache[l].children > (t.c.order + 1) / 2 {
      ghost var s, sep := X[la].val[|X[la].val| - 1], X[la].key[|X[la].key| - 1];
      BorrowLeft(t, node, l, r, parent, i, remove, n, la, After(up[0], j), pa);
      up2 := [up[0][j := Entry(sep, n)]] + up[1..];
      BorrowLeftDone(c, X, t.D, C, tt, dead, up, root, j, remove, u, i + 1, s, sep);
    } else {
      JoinLeft(t, node, l, r, parent, i, remove, n, la, After(up[0], j), pa);
      ghost var Z := t.D;
      JoinLeftClimb(c, X, Z, C, tt, dead, up, root, j, remove, u, i + 1);
      ghost var top := NonLeafRemove(t, parent, i, Drop(up[0], j), j, up[0][j], up[1..], u);
      up2 := [Drop(up[0], j)] + top;
      MergeDone(c, X, Z, t.D, C, tt, dead, up, root, j - 1, top, t.root);
    }
  }

  lemma BeneathIn(c: Cfg, X: Image, C: seq<Entry>, t: int, dead: Entry, up: seq<seq<Entry>>, root: int, j: int,
                  remove: int, u: int, q: int)
    requires Beneath(c, X, C, t, dead, up, root, j, remove, u, q)
    ensures 0 <= j < |up[0]| && up[0][j].a in X && 0 <= u < |up[1]| && up[1][u].a in X
    ensures remove + 1 < |X[up[0][j].a].val|
    ensures 0 <= q < |X[up[1][u].a].val|
  {
  }

  ghost predicate RightReady(t: Tree, node: int, l: int, r: int, parent: int, i: int, remove: int, up: seq<seq<Entry>>,
                             j: int, u: int)
    reads t
  {
    && |up| >= 2 && 0 <= j < |up[0]| - 1 && 0 <= u < |up[1]|
    && Family(t, node, l, r, parent, up[0][j].a, Before(up[0], j), up[0][j + 1].a, up[1][u].a)
    && up[0][j + 1].a != INVALID
    && !t.cache[node].leaf && !t.cache[r].leaf && !t.cache[parent].leaf
    && 0 <= remove < t.cache[node].children - 1 && t.cache[r].children >= 2 && 0 <= i < t.cache[parent].children - 1
    && t.cache[node].children <= (t.c.order + 1) / 2 && t.cache[r].children <= t.c.order
    && (forall q :: 0 <= q < t.cache[r].children ==> Fetchable(t, t.cache[r].sub[q]))
    && (t.cache[r].next != INVALID ==>
          Fetchable(t, t.cache[r].next) && t.cache[r].next !in t.cache[r].sub[..t.cache[r].children])
    && t.cache[r].children == |t.D[up[0][j + 1].a].val| && t.cache[node].children == |t.D[up[0][j].a].val|
    && |t.D[up[0][j + 1].a].val| == |t.D[up[0][j + 1].a].key| + 1 && |t.D[up[1][u].a].val| == |t.D[up[1][u].a].key| + 1
    && i < |t.D[up[1][u].a].key| && Spot(t.D, up[1], u, i + 1, j + 1)
  }

  // The neighbour after next.
  lemma Second(c: Cfg, X: Image, C: seq<Entry>, t: int, dead: Entry, up: seq<seq<Entry>>, root: int, j: int, u: int,
               held: set<int>)
    requires DeleteHole(c, X, C, t, dead, up, root) && |up| >= 2 && 0 <= j < |up[0]| - 1 && In(X, up[0])
    requires 0 <= u < |up[1]|
    requires held == {up[0][j].a, up[1][u].a} + Opt(Before(up[0], j)) + Opt(up[0][j + 1].a)
    ensures var a := X[up[0][j + 1].a].next;
      a != INVALID ==> a in X && X[a].self == a && a !in held && a in AllAddrs(up)
  {
    hide Upper, Flat, Parents, Insert, AllAddrs, Sorted;
    var L := up[0];
    UpperStep(c, X, Insert(C, t, dead), up, root);
    UpperStep(c, X, L, up[1..], root);
    assert X[L[j + 1].a].next == After(L, j + 1);
    assert up[1][u].a in Addrs(up[1]);
    if j + 2 < |L| {
      assert L[j + 2].a in Addrs(L) && InnerNode(c, X[L[j + 2].a], L[j + 2].a, false);
    }
  }

  lemma NotAmong(X: Image, up: seq<seq<Entry>>, V: seq<int>, a: int)
    requires Apart(X, up, V, -1) && a in AllAddrs(up)
    ensures a !in V
  {
  }

  lemma GetRightReady(t: Tree, node: int, l: int, r: int, parent: int, i: int, remove: int,
                      C: seq<Entry>, tt: int, dead: Entry, up: seq<seq<Entry>>, j: int, u: int)
    requires Gathered(t, node, l, r, parent, remove, C, tt, dead, up, j, u, i) && i + 1 < |t.D[up[1][u].a].val|
    ensures RightReady(t, node, l, r, parent, i, remove, up, j, u)
  {
    hide Tree.Buffers, Tree.OnDisk, Tree.Allocation, Count, View, Fits, Upper, Level, DeleteHole, Spot, Flat, AllAddrs;
    hide Insert;
    var X, c, root := t.D, t.c, t.root;
    BeneathIn(c, X, C, tt, dead, up, root, j, remove, u, i);
    Around(c, X, C, tt, dead, up, root, j, remove, u, i);
    RightSibling(c, X, up[1], up[0], |up| == 2, u, i, j);
    PairAround(c, X, C, tt, dead, up, root, j, u, i + 1);
    OpenInner(t, node, up[0][j].a, false);
    OpenInner(t, r, up[0][j + 1].a, false);
    OpenInner(t, parent, up[1][u].a, |up| == 2);
    ChildrenApart(c, X, C, tt, dead, up, root, j, remove + 1, j + 1);
    Second(c, X, C, tt, dead, up, root, j, u, t.held);
    if t.cache[r].next != INVALID {
      NotAmong(X, up, X[up[0][j + 1].a].val, t.cache[r].next);
    }
  }

  method RefillRight(t: Tree, node: int, l: int, r: int, parent: int, i: int, remove: int,
                     ghost C: seq<Entry>, ghost tt: int, ghost dead: Entry, ghost up: seq<seq<Entry>>,
                     ghost j: int, ghost u: int)
      returns (ghost up2: seq<seq<Entry>>)
    requires Gathered(t, node, l, r, parent, remove, C, tt, dead, up, j, u, i) && i + 1 < |t.D[up[1][u].a].val|
    modifies t
    ensures Mended(t, old(t.D), C, up, up2) && t.level - |up2| == old(t.level) - |up|
    decreases |up|, 0
  {
    hide Tree.Buffers, Tree.OnDisk, Tree.Allocation, Count, View, Fits, Upper, Level, DeleteHole, Reshaped, Spot, Flat;
    hide Drop, AllAddrs, MergeEffect, Insert;
    ghost var X, c, root := t.D, t.c, t.root;
    GetRightReady(t, node, l, r, parent, i, remove, C, tt, dead, up, j, u);
    ghost var n, ra, pa := up[0][j].a, up[0][j + 1].a, up[1][u].a;
    if t.cache[r].children > (t.c.order + 1) / 2 {
      ghost var s, sep := X[ra].val[0], X[ra].key[0];
      BorrowRight(t, node, l, r, parent, i, remove, n, Before(up[0], j), ra, pa);
      up2 := [up[0][j + 1 := Entry(sep, ra)]] + up[1..];
      BorrowRightDone(c, X, t.D, C, tt, dead, up, root, j, remove, u, i + 1, s, sep);
    } else {
      JoinRight(t, node, l, r, parent, i, remove, n, Before(up[0], j), ra, pa);
      ghost var Z := t.D;
      JoinRightClimb(c, X, Z, C, tt, dead, up, root, j, remove, u, i + 1);
      ghost var top := NonLeafRemove(t, parent, i, Drop(up[0], j + 1), j + 1, up[0][j + 1], up[1..], u);
      up2 := [Drop(up[0], j + 1)] + top;
      MergeDone(c, X, Z, t.D, C, tt, dead, up, root, j, top, t.root);
    }
  }

  // ---------------------------------------------------------------- the whole step

  // What a rebalance is about to read in.
  lemma Surroundings(t: Tree, node: int, remove: int, C: seq<Entry>, tt: int, dead: Entry, up: seq<seq<Entry>>, j: int)
      returns (u: int, q: int)
    requires Poised(t, node, remove, C, tt, dead, up, j) && |up| >= 2
    ensures Beneath(t.c, t.D, C, tt, dead, up, t.root, j, remove, u, q)
    ensures var b := t.cache[node];
      && b.prev == Before(up[0], j) && b.next == After(up[0], j) && b.parent == up[1][u].a
      && b.children == |t.D[up[0][j].a].val| && |b.key| > 0
      && (b.prev != INVALID ==> Fetchable(t, b.prev)) && (b.next != INVALID ==> Fetchable(t, b.next))
      && b.parent != INVALID && Fetchable(t, b.parent)
      && (b.prev != INVALID ==> b.prev != b.next) && b.parent != b.prev && b.parent != b.next
      && t.D[up[0][j].a].next == After(up[0], j)
    ensures forall k :: Route(t.D[up[1][u].a].key, k, t.cache[node].key[0]) ==> k == q
    ensures Ascending(t.D[up[1][u].a].key)
    ensures {up[0][j].a, up[1][u].a} + Opt(Before(up[0], j)) + Opt(After(up[0], j)) <= AllAddrs(up)
    ensures q > 0 ==> j > 0
    ensures q + 1 < |t.D[up[1][u].a].val| ==> j + 1 < |up[0]|
  {
    hide Tree.Buffers, Tree.OnDisk, Tree.Allocation, Count, View, Fits, Upper, Flat, Insert, Level, Sorted;
    var X, c, root := t.D, t.c, t.root;
    var E := Insert(C, tt, dead);
    UpperStep(c, X, E, up, root);
    UpperStep(c, X, up[0], up[1..], root);
    u, q := OwnParent(c, X, up[0], up[1..], root, j);
    assert [up[0]] + up[1..] == up;
    Relatives(c, X, up[0], E, up[1..], root, j, u);
    FirstKeyWithin(c, X, up[0], E, false, j);
    OpenInner(t, node, up[0][j].a, false);
    assert t.cache[node].key[0] == X[up[0][j].a].key[0];
    LevelSorted(c, X, up[0], E, false);
    RouteToChild(c, X, up[1], up[0], |up| == 2, u, q, j, X[up[0][j].a].key[0]);
    forall k | Route(X[up[1][u].a].key, k, t.cache[node].key[0]) ensures k == q {
      RouteUnique(X[up[1][u].a].key, k, q, t.cache[node].key[0]);
    }
    KeysAscend(c, X, up[1], up[0], |up| == 2, u);
    NearAddrs(up, j, u);
    if q > 0 {
      LeftSibling(c, X, up[1], up[0], |up| == 2, u, q, j);
    }
    if q + 1 < |X[up[1][u].a].val| {
      RightSibling(c, X, up[1], up[0], |up| == 2, u, q, j);
    }
  }

  lemma NearAddrs(up: seq<seq<Entry>>, j: int, u: int)
    requires |up| >= 2 && 0 <= j < |up[0]| && 0 <= u < |up[1]|
    ensures {up[0][j].a, up[1][u].a} + Opt(Before(up[0], j)) + Opt(After(up[0], j)) <= AllAddrs(up)
  {
    assert up[0][j].a in Addrs(up[0]) && up[1][u].a in Addrs(up[1]);
    assert j > 0 ==> up[0][j - 1].a in Addrs(up[0]);
    assert j < |up[0]| - 1 ==> up[0][j + 1].a in Addrs(up[0]);
    assert AllAddrs(up) == Addrs(up[0]) + AllAddrs(up[1..]);
    assert AllAddrs(up[1..]) == Addrs(up[1]) + AllAddrs(up[1..][1..]);
  }

  method Rebalance(t: Tree, node: int, remove: int,
                   ghost C: seq<Entry>, ghost tt: int, ghost dead: Entry, ghost up: seq<seq<Entry>>, ghost j: int)
      returns (ghost up2: seq<seq<Entry>>)
    requires Poised(t, node, remove, C, tt, dead, up, j) && |up| >= 2
    requires t.cache[node].children <= (t.c.order + 1) / 2
    modifies t
    ensures Mended(t, old(t.D), C, up, up2) && t.level - |up2| == old(t.level) - |up|
    decreases |up|, 1
  {
    hide Tree.Buffers, Tree.OnDisk, Tree.Allocation, Count, View, Fits, Upper, DeleteHole, Reshaped, Spot, Flat;
    hide AllAddrs;
    ghost var u, q := Surroundings(t, node, remove, C, tt, dead, up, j);
    SpotBound(t.D, up[0], j, remove + 1, tt);
    SpotBound(t.D, up[1], u, q, j);
    var l, r, parent := FetchFamily(t, node, up[0][j].a);
    ParentInner(t.c, t.D, C, tt, dead, up, t.root, j, remove, u, q);
    OpenInner(t, parent, up[1][u].a, |up| == 2);
    var i := ParentKeyIndex(t.cache[parent], t.cache[node].key[0]);
    assert Route(t.D[up[1][u].a].key, i + 1, t.cache[node].key[0]);
    assert Gathered(t, node, l, r, parent, remove, C, tt, dead, up, j, u, q);
    var s := SiblingSelect(t, l, r, parent, i);
    if s == LEFT_SIBLING {
      up2 := RefillLeft(t, node, l, r, parent, i, remove, C, tt, dead, up, j, u);
    } else {
      up2 := RefillRight(t, node, l, r, parent, i + 1, remove, C, tt, dead, up, j, u);
    }
  }

  lemma ParentInner(c: Cfg, X: Image, C: seq<Entry>, t: int, dead: Entry, up: seq<seq<Entry>>, root: int, j: int,
                    remove: int, u: int, q: int)
    requires Beneath(c, X, C, t, dead, up, root, j, remove, u, q)
    ensures 0 <= u < |up[1]| && up[1][u].a in X && InnerNode(c, X[up[1][u].a], up[1][u].a, |up| == 2)
  {
    hide Upper, DeleteHole, Level;
    Around(c, X, C, t, dead, up, root, j, remove, u, q);
  }

  method NonLeafRemove(t: Tree, node: int, remove: int,
                       ghost C: seq<Entry>, ghost tt: int, ghost dead: Entry, ghost up: seq<seq<Entry>>, ghost j: int)
      returns (ghost up2: seq<seq<Entry>>)
    requires Poised(t, node, remove, C, tt, dead, up, j)
    modifies t
    ensures Mended(t, old(t.D), C, up, up2) && t.level - |up2| == old(t.level) - |up|
    decreases |up|, 2
  {
    hide Tree.Buffers, Tree.OnDisk, Tree.Allocation, Count, View, Fits, Upper, DeleteHole, Reshaped, Spot;
    SpotBound(t.D, up[0], j, remove + 1, tt);
    DeadChild(t.c, t.D, C, tt, dead, up, t.root, j, remove + 1);
    OpenInner(t, node, up[0][j].a, |up| == 1);
    ParentOrTop(t.c, t.D, C, tt, dead, up, t.root, j);
    if t.cache[node].parent == INVALID {
      if t.cache[node].children == 2 {
        CollapseRoot(t, node, remove, C, tt, dead, up, j);
        up2 := [];
      } else {
        SimplyRemove(t, node, remove, C, tt, dead, up, j);
        up2 := up;
      }
    } else if t.cache[node].children <= (t.c.order + 1) / 2 {
      up2 := Rebalance(t, node, remove, C, tt, dead, up, j);
    } else {
      SimplyRemove(t, node, remove, C, tt, dead, up, j);
      up2 := up;
    }
  }

  lemma ParentOrTop(c: Cfg, X: Image, C: seq<Entry>, t: int, dead: Entry, up: seq<seq<Entry>>, root: int, j: int)
    requires DeleteHole(c, X, C, t, dead, up, root) && up != [] && In(X, up[0]) && 0 <= j < |up[0]|
    ensures |up| == 1 <==> X[up[0][j].a].parent == INVALID
  {
    hide Upper, Insert, Sorted, NoDup;
    UpperStep(c, X, Insert(C, t, dead), up, root);
    var u, q := OwnParent(c, X, up[0], up[1..], root, j);
  }
}
