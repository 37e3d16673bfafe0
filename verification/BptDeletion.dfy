/** The delete half of bplus_tree_put, over whole trees. */
module BptDeletion {
  import opened BptLevels
  import opened BptShape
  import opened BptInsert
  import opened BptDelete
  import opened BptTree
  import opened BptBlock
  import opened BptDisk
  import opened BptLinks
  import opened BptEdit
  import opened BptLeafEdit
  import opened BptLeafDelete
  import opened BptLeafRemoveEdit
  import opened BptSplit
  import opened BptGrow
  import opened BptSearch
  import opened BptPut
  import opened BptShrink
  import opened BptPlace
  import opened BptRemoveOps
  import opened BptRemove
  import opened BptLeafRemoveOps
  import opened BptLeafMend

  ghost predicate Removed(t: Tree, m: map<int, int>, key: int)
    reads t
  {
    Valid(t) && Map(t) == m - {key}
  }

  // The leaf is open in its buffer; its entry remove is the key.
  ghost predicate LeafPoised(t: Tree, leaf: int, remove: int, key: int, j: int)
    reads t
  {
    && t.Inv() && Count(t.used) == 1 && Listed(t.c, t.D, t.lv, t.root, j, remove, key) && t.level == |t.lv|
    && Open(t, leaf, t.lv[0][j].a) && t.held == {t.lv[0][j].a}
  }

  // What the buffer of an open leaf says.
  lemma OpenLeaf(t: Tree, i: int, a: int, top: bool)
    requires Open(t, i, a) && LeafNode(t.c, t.D[a], a, top)
    ensures var b, n := t.cache[i], t.D[a];
      && b.leaf && b.children == |n.val| == |n.key| && n.val == b.data[..b.children] && n.key == b.key[..b.children]
      && |b.key| == t.c.entries == |b.data| && b.children <= t.c.entries
      && n.parent == b.parent && n.prev == b.prev && n.next == b.next
  {
    hide View, Fits;
    ViewHeader(t.c, t.cache[i]);
    ViewLeaf(t.c, t.cache[i]);
    LeafRoom(t.c, t.cache[i]);
  }

  method LeafSimplyRemove(t: Tree, leaf: int, remove: int, ghost key: int, ghost j: int)
    requires LeafPoised(t, leaf, remove, key, j)
    requires |t.D[t.lv[0][j].a].key| > (if |t.lv| == 1 then 1 else (t.c.entries + 1) / 2)
    modifies t`cache, t`used, t`held, t`disk, t`D
    ensures Removed(t, old(Content(t.c, t.D, t.lv, t.root)), key)
  {
    hide Tree.Buffers, Tree.OnDisk, Tree.Allocation, Count, View, Fits, LeafClose, LeafShrunk, WellFormed, Content;
    hide Leaves, Upper, Flat, AllAddrs, ToMap;
    ghost var X, b, n := t.D, t.cache[leaf], t.lv[0][j].a;
    LeafFacts(t.c, X, t.lv, t.root, j);
    OpenLeaf(t, leaf, n, |t.lv| == 1);
    t.Write(leaf, LeafClose(t.c, t.cache[leaf], remove));
    LeafCloseView(t.c, b, remove);
    t.NodeFlush(leaf);
    SimpleRemoved(t.c, X, t.D, t.lv, t.root, j, remove, key);
  }

  method LeafLastRemove(t: Tree, leaf: int, ghost remove: int, ghost key: int, ghost j: int)
    requires LeafPoised(t, leaf, remove, key, j) && |t.lv| == 1 && |t.D[t.lv[0][j].a].key| == 1
    modifies t
    ensures Removed(t, old(Content(t.c, t.D, t.lv, t.root)), key)
  {
    hide Tree.Buffers, Tree.OnDisk, Tree.Allocation, Count, View, Fits, WellFormed, Content;
    ghost var X, lv, root := t.D, t.lv, t.root;
    t.root := INVALID;
    t.level := 0;
    NodeDelete(t, leaf, -1, -1);
    t.lv := [];
    LastRemoved(t.c, X, t.D, lv, root, j, remove, key);
  }

  // ---------------------------------------------------------------- with a neighbour

  ghost predicate LeafGathered(t: Tree, leaf: int, l: int, r: int, parent: int, remove: int, key: int, j: int, u: int,
                               q: int)
    reads t
  {
    && Hanging(t.c, t.D, t.lv, t.root, j, remove, key, u, q) && t.level == |t.lv|
    && Family(t, leaf, l, r, parent, t.lv[0][j].a, Before(t.lv[0], j), After(t.lv[0], j), t.lv[1][u].a)
    && t.D[t.lv[0][j].a].next == After(t.lv[0], j)
    && |t.D[t.lv[0][j].a].val| <= (t.c.entries + 1) / 2
  }

  // Both leaves and the parent, as the buffers say.
  lemma GetTrio(t: Tree, leaf: int, sib: int, parent: int, m: int, u: int, q: int, toLeft: bool)
    requires t.Inv() && CfgOK(t.c) && WellFormed(t.c, t.D, t.lv, t.root) && |t.lv| >= 2
    requires Spot(t.D, t.lv[1], u, q, m + 1) && 1 <= q
    requires 0 <= m < |t.lv[0]| - 1
    requires Open(t, leaf, t.lv[0][if toLeft then m + 1 else m].a)
    requires Open(t, sib, t.lv[0][if toLeft then m else m + 1].a)
    requires Open(t, parent, t.lv[1][u].a) && leaf != sib && leaf != parent && sib != parent
    ensures LeafTrio(t, leaf, sib, parent, q - 1)
    ensures var n, s, pa := t.D[t.cache[leaf].self], t.D[t.cache[sib].self], t.D[t.lv[1][u].a];
      && t.cache[leaf].children == |n.key| == |n.val| && t.cache[sib].children == |s.key| == |s.val| && q <= |pa.key|
      && t.cache[sib].next == s.next
  {
    hide Tree.Buffers, Tree.OnDisk, Tree.Allocation, Count, View, Fits, WellFormed, Content, Leaves, Upper, Flat;
    hide AllAddrs, ToMap;
    LeafPairAround(t.c, t.D, t.lv, t.root, m, u, q);
    SpotBound(t.D, t.lv[1], u, q, m + 1);
    OpenLeaf(t, leaf, t.lv[0][if toLeft then m + 1 else m].a, false);
    OpenLeaf(t, sib, t.lv[0][if toLeft then m else m + 1].a, false);
    OpenInner(t, parent, t.lv[1][u].a, |t.lv| == 2);
  }

  method LeafRefillLeft(t: Tree, leaf: int, l: int, r: int, parent: int, i: int, remove: int, ghost key: int,
                        ghost j: int, ghost u: int)
    requires LeafGathered(t, leaf, l, r, parent, remove, key, j, u, i + 1) && 0 <= i && 1 <= j
    modifies t
    ensures Removed(t, old(Content(t.c, t.D, t.lv, t.root)), key)
  {
    hide Tree.Buffers, Tree.OnDisk, Tree.Allocation, Count, View, Fits, WellFormed, Content, Leaves, Upper, Flat;
    hide AllAddrs, ToMap;
    hide Drop, MergeEffect, DeleteHole, Reshaped, Spot;
    ghost var X: Image, c, root, lv: seq<seq<Entry>> := t.D, t.c, t.root, t.lv;
    LeafPairAround(c, X, lv, root, j - 1, u, i + 1);
    SpotBound(X, lv[1], u, i + 1, j);
    GetTrio(t, leaf, l, parent, j - 1, u, i + 1, true);
    ghost var n, la, ra, pa := lv[0][j].a, lv[0][j - 1].a, After(lv[0], j), lv[1][u].a;
    if t.cache[l].children > (t.c.entries + 1) / 2 {
      ghost var k, d := X[la].key[|X[la].key| - 1], X[la].val[|X[la].val| - 1];
      LeafBorrowLeft(t, leaf, l, r, parent, i, remove, n, la, ra, pa);
      t.lv := [lv[0][j := Entry(k, n)]] + lv[1..];
      LeafBorrowLeftDone(c, X, t.D, lv, root, j, remove, key, u, i + 1, k, d);
    } else {
      LeafJoinLeft(t, leaf, l, r, parent, i, remove, n, la, ra, pa);
      ghost var Z := t.D;
      LeafJoinLeftClimb(c, X, Z, lv, root, j, remove, key, u, i + 1);
      ghost var top := NonLeafRemove(t, parent, i, Drop(lv[0], j), j, lv[0][j], lv[1..], u);
      t.lv := [Drop(lv[0], j)] + top;
      Reshrunk(c, Z, t.D, Drop(lv[0], j), lv[1..], top, t.root);
    }
  }

  // The leaf after next can be read.
  lemma LeafSecond(t: Tree, j: int, u: int)
    requires WellFormed(t.c, t.D, t.lv, t.root) && |t.lv| >= 2 && 0 <= j < |t.lv[0]| - 1 && 0 <= u < |t.lv[1]|
    requires t.held == {t.lv[0][j].a, t.lv[1][u].a} + Opt(Before(t.lv[0], j)) + Opt(t.lv[0][j + 1].a)
    ensures t.lv[0][j + 1].a in t.D
    ensures var a := t.D[t.lv[0][j + 1].a].next; a != INVALID ==> Fetchable(t, a)
  {
    hide Upper, Flat, AllAddrs, Sorted, Bounded, ToMap;
    var L, X := t.lv[0], t.D;
    UpperStep(t.c, X, L, t.lv[1..], t.root);
    assert X[L[j + 1].a].next == After(L, j + 1);
    assert t.lv[1][u].a in Addrs(t.lv[1]);
    if j + 2 < |L| {
      assert L[j + 2].a in Addrs(L) && LeafNode(t.c, X[L[j + 2].a], L[j + 2].a, false);
    }
  }

  method LeafRefillRight(t: Tree, leaf: int, l: int, r: int, parent: int, i: int, remove: int, ghost key: int,
                         ghost j: int, ghost u: int)
    requires LeafGathered(t, leaf, l, r, parent, remove, key, j, u, i) && i + 1 < |t.D[t.lv[1][u].a].val|
    requires j + 1 < |t.lv[0]|
    modifies t
    ensures Removed(t, old(Content(t.c, t.D, t.lv, t.root)), key)
  {
    hide Tree.Buffers, Tree.OnDisk, Tree.Allocation, Count, View, Fits, WellFormed, Content, Leaves, Upper, Flat;
    hide AllAddrs, ToMap;
    hide Drop, MergeEffect, DeleteHole, Reshaped, Spot, Level;
    ghost var X: Image, c, root, lv: seq<seq<Entry>> := t.D, t.c, t.root, t.lv;
    NextSpot(c, X, lv, root, j, u, i);
    LeafPairAround(c, X, lv, root, j, u, i + 1);
    LeafSecond(t, j, u);
    GetTrio(t, leaf, r, parent, j, u, i + 1, false);
    ghost var n, la, ra, pa := lv[0][j].a, Before(lv[0], j), lv[0][j + 1].a, lv[1][u].a;
    if t.cache[r].children > (t.c.entries + 1) / 2 {
      ghost var k := X[ra].key[1];
      LeafBorrowRight(t, leaf, l, r, parent, i, remove, n, la, ra, pa);
      t.lv := [lv[0][j + 1 := Entry(k, ra)]] + lv[1..];
      LeafBorrowRightDone(c, X, t.D, lv, root, j, remove, key, u, i + 1, k);
    } else {
      LeafJoinRight(t, leaf, l, r, parent, i, remove, n, la, ra, pa);
      ghost var Z := t.D;
      LeafJoinRightClimb(c, X, Z, lv, root, j, remove, key, u, i + 1);
      ghost var top := NonLeafRemove(t, parent, i, Drop(lv[0], j + 1), j + 1, lv[0][j + 1], lv[1..], u);
      t.lv := [Drop(lv[0], j + 1)] + top;
      Reshrunk(c, Z, t.D, Drop(lv[0], j + 1), lv[1..], top, t.root);
    }
  }

  lemma NextSpot(c: Cfg, X: Image, lv: seq<seq<Entry>>, root: int, j: int, u: int, q: int)
    requires WellFormed(c, X, lv, root) && |lv| >= 2 && Spot(X, lv[1], u, q, j) && q + 1 < |X[lv[1][u].a].val|
    ensures 0 <= u < |lv[1]| && Spot(X, lv[1], u, q + 1, j + 1) && 0 <= q
  {
    hide Upper, Flat, Leaves, Level;
    UpperStep(c, X, lv[0], lv[1..], root);
    RightSibling(c, X, lv[1], lv[0], |lv| == 2, u, q, j);
  }

  // ---------------------------------------------------------------- the whole step

  // What refilling the leaf is about to read in.
  lemma LeafSurroundings(t: Tree, leaf: int, remove: int, key: int, j: int) returns (u: int, q: int)
    requires LeafPoised(t, leaf, remove, key, j) && |t.lv| >= 2
    ensures Hanging(t.c, t.D, t.lv, t.root, j, remove, key, u, q)
    ensures InnerNode(t.c, t.D[t.lv[1][u].a], t.lv[1][u].a, |t.lv| == 2)
    ensures var b := t.cache[leaf];
      && b.prev == Before(t.lv[0], j) && b.next == After(t.lv[0], j) && b.parent == t.lv[1][u].a
      && b.children == |t.D[t.lv[0][j].a].val| && |b.key| > 0
      && (b.prev != INVALID ==> Fetchable(t, b.prev)) && (b.next != INVALID ==> Fetchable(t, b.next))
      && b.parent != INVALID && Fetchable(t, b.parent)
      && (b.prev != INVALID ==> b.prev != b.next) && b.parent != b.prev && b.parent != b.next
      && t.D[t.lv[0][j].a].next == After(t.lv[0], j)
    ensures forall k :: Route(t.D[t.lv[1][u].a].key, k, t.cache[leaf].key[0]) ==> k == q
    ensures Ascending(t.D[t.lv[1][u].a].key)
    ensures q > 0 ==> j > 0 && t.cache[leaf].prev != INVALID
    ensures q + 1 < |t.D[t.lv[1][u].a].val| ==> j + 1 < |t.lv[0]| && t.cache[leaf].next != INVALID
  {
    hide Tree.Buffers, Tree.OnDisk, Tree.Allocation, Count, View, Fits, Upper, Flat, Level, Sorted, ToMap, AllAddrs;
    hide Ascending;
    var X, c, root, lv := t.D, t.c, t.root, t.lv;
    LeafFacts(c, X, lv, root, j);
    UpperStep(c, X, lv[0], lv[1..], root);
    u, q := OwnParent(c, X, lv[0], lv[1..], root, j);
    OpenLeaf(t, leaf, lv[0][j].a, false);
    LeafRelatives(c, X, lv, root, j, u);
    assert t.cache[leaf].key[0] == X[lv[0][j].a].key[0];
    LeafWithin(c, X, lv[0], j);
    RouteToChild(c, X, lv[1], lv[0], |lv| == 2, u, q, j, X[lv[0][j].a].key[0]);
    forall k | Route(X[lv[1][u].a].key, k, t.cache[leaf].key[0]) ensures k == q {
      RouteUnique(X[lv[1][u].a].key, k, q, t.cache[leaf].key[0]);
    }
    KeysAscend(c, X, lv[1], lv[0], |lv| == 2, u);
    if q > 0 {
      LeftSibling(c, X, lv[1], lv[0], |lv| == 2, u, q, j);
    }
    if q + 1 < |X[lv[1][u].a].val| {
      RightSibling(c, X, lv[1], lv[0], |lv| == 2, u, q, j);
    }
  }

  lemma LeafWithin(c: Cfg, X: Image, L: seq<Entry>, j: int)
    requires CfgOK(c) && Leaves(c, X, L, false) && 0 <= j < |L|
    ensures |X[L[j].a].key| > 0 && Within(L, j, X[L[j].a].key[0]) && Sorted(L)
  {
    hide Flat, Linked, NoDup;
    assert LeafNode(c, X[L[j].a], L[j].a, false);
  }

  lemma LeafRelatives(c: Cfg, X: Image, lv: seq<seq<Entry>>, root: int, j: int, u: int)
    requires |lv| >= 2 && Leaves(c, X, lv[0], false) && Upper(c, X, lv[0], lv[1..], root)
    requires 0 <= j < |lv[0]| && 0 <= u < |lv[1]| && INVALID !in X
    ensures var L, n, pa := lv[0], X[lv[0][j].a], lv[1][u].a;
      && n.prev == Before(L, j) && n.next == After(L, j) && n.self == L[j].a && pa in X && X[pa].self == pa
      && (n.prev != INVALID <==> j > 0) && (n.next != INVALID <==> j < |L| - 1)
      && (n.prev != INVALID ==> n.prev in X && X[n.prev].self == n.prev && n.prev != n.next)
      && (n.next != INVALID ==> n.next in X && X[n.next].self == n.next)
      && pa != n.prev && pa != n.next && pa != L[j].a && n.prev != L[j].a && n.next != L[j].a
  {
    hide Flat, Parents, Upper, Bounded, Sorted;
    var L := lv[0];
    UpperStep(c, X, L, lv[1..], root);
    assert X[L[j].a].prev == Before(L, j) && X[L[j].a].next == After(L, j);
    assert lv[1][u].a in Addrs(lv[1]) && InnerNode(c, X[lv[1][u].a], lv[1][u].a, |lv| == 2);
    assert L[j].a in Addrs(L) && LeafNode(c, X[L[j].a], L[j].a, false);
    if j > 0 {
      assert L[j - 1].a in Addrs(L) && LeafNode(c, X[L[j - 1].a], L[j - 1].a, false);
    }
    if j < |L| - 1 {
      assert L[j + 1].a in Addrs(L) && LeafNode(c, X[L[j + 1].a], L[j + 1].a, false);
    }
  }

  method LeafRebalance(t: Tree, leaf: int, remove: int, ghost key: int, ghost j: int)
    requires LeafPoised(t, leaf, remove, key, j) && |t.lv| >= 2 && t.cache[leaf].children <= (t.c.entries + 1) / 2
    modifies t
    ensures Removed(t, old(Content(t.c, t.D, t.lv, t.root)), key)
  {
    hide Tree.Buffers, Tree.OnDisk, Tree.Allocation, Count, View, Fits, WellFormed, Content, Leaves, Upper, Flat;
    hide AllAddrs, ToMap, Spot;
    ghost var u, q := LeafSurroundings(t, leaf, remove, key, j);
    SpotBound(t.D, t.lv[1], u, q, j);
    var l, r, parent := FetchFamily(t, leaf, t.lv[0][j].a);
    OpenInner(t, parent, t.lv[1][u].a, |t.lv| == 2);
    var i := ParentKeyIndex(t.cache[parent], t.cache[leaf].key[0]);
    assert Route(t.D[t.lv[1][u].a].key, i + 1, t.cache[leaf].key[0]);
    assert LeafGathered(t, leaf, l, r, parent, remove, key, j, u, q);
    var s := SiblingSelect(t, l, r, parent, i);
    if s == LEFT_SIBLING {
      LeafRefillLeft(t, leaf, l, r, parent, i, remove, key, j, u);
    } else {
      LeafRefillRight(t, leaf, l, r, parent, i + 1, remove, key, j, u);
    }
  }

  // leaf_remove: the leaf the search ended in gives up the key, if it has it.
  method LeafRemoveKey(t: Tree, leaf: int, key: int, ghost j: int) returns (ret: int)
    requires Valid(t) && AtLeaf(t, leaf, j, key)
    modifies t
    ensures key !in old(Map(t)) ==> ret == -1 && Valid(t) && Map(t) == old(Map(t)) && t.disk == old(t.disk)
    ensures key in old(Map(t)) ==> ret == 0 && Removed(t, old(Map(t)), key)
  {
    hide Tree.Buffers, Tree.OnDisk, Tree.Allocation, View, WellFormed, Content, Count, Leaves, Upper, Flat, AllAddrs;
    hide ToMap;
    LeafFacts(t.c, t.D, t.lv, t.root, j);
    ViewHeader(t.c, t.cache[leaf]);
    ViewLeaf(t.c, t.cache[leaf]);
    var remove := KeyBinarySearch(t.cache[leaf], key);
    Lookup(t.c, t.D, t.lv, t.root, j, key, if remove >= 0 then remove else -remove - 1);
    if remove < 0 {
      return -1;
    }
    t.Claim(leaf);
    LeafParentOrTop(t.c, t.D, t.lv, t.root, j);
    assert LeafPoised(t, leaf, remove, key, j);
    if t.cache[leaf].parent == INVALID {
      if t.cache[leaf].children == 1 {
        LeafLastRemove(t, leaf, remove, key, j);
      } else {
        LeafSimplyRemove(t, leaf, remove, key, j);
      }
    } else if t.cache[leaf].children <= (t.c.entries + 1) / 2 {
      LeafRebalance(t, leaf, remove, key, j);
    } else {
      LeafSimplyRemove(t, leaf, remove, key, j);
    }
    ret := 0;
  }

  lemma LeafParentOrTop(c: Cfg, X: Image, lv: seq<seq<Entry>>, root: int, j: int)
    requires WellFormed(c, X, lv, root) && lv != [] && 0 <= j < |lv[0]|
    ensures lv[0][j].a in X && (|lv| == 1 <==> X[lv[0][j].a].parent == INVALID)
  {
    hide Upper, Sorted, NoDup, Flat;
    var u, q := OwnParent(c, X, lv[0], lv[1..], root, j);
  }

  method TreeDelete(t: Tree, key: int) returns (ret: int)
    requires Valid(t) && MIN_KEY <= key
    modifies t
    ensures key !in old(Map(t)) ==> ret == -1 && Valid(t) && Map(t) == old(Map(t)) && t.disk == old(t.disk)
    ensures key in old(Map(t)) ==> ret == 0 && Removed(t, old(Map(t)), key)
  {
    hide Tree.Buffers, Tree.OnDisk, Tree.Allocation, Count, View, WellFormed, Content;
    ghost var j;
    var node;
    ret := -1;
    node, j := SeekLeaf(t, key);
    if node != -1 {
      ret := LeafRemoveKey(t, node, key, j);
    } else {
      EmptyContent(t.c, t.D, t.lv, t.root);
    }
  }
}
