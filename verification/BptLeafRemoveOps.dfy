/** The four ways to refill a leaf, in the buffers. */
module BptLeafRemoveOps {
  import opened BptLevels
  import opened BptShape
  import opened BptBlock
  import opened BptDisk
  import opened BptLinks
  import opened BptEdit
  import opened BptLeafEdit
  import opened BptRemoveEdit
  import opened BptLeafRemoveEdit
  import opened BptSplit
  import opened BptShrink
  import opened BptRemoveOps

  // Two leaves and their parent are in buffers.
  ghost predicate LeafTrio(t: Tree, leaf: int, sib: int, parent: int, i: int)
    reads t
  {
    && t.Inv() && Loaded(t, leaf) && Loaded(t, sib) && Loaded(t, parent) && leaf != sib && leaf != parent
    && sib != parent
    && t.cache[leaf].leaf && t.cache[sib].leaf && !t.cache[parent].leaf
    && 1 <= t.cache[sib].children && 0 <= i < t.cache[parent].children - 1
  }

  // ---------------------------------------------------------------- borrowing

  method LeafShiftFromLeft(t: Tree, leaf: int, l: int, parent: int, i: int, remove: int)
    requires LeafTrio(t, leaf, l, parent, i) && 0 <= remove < t.cache[leaf].children
    modifies t`cache
    ensures t.Inv() && |t.cache| == |t.used| == MIN_CACHE_NUM
    ensures forall k :: 0 <= k < MIN_CACHE_NUM && k != leaf && k != l && k != parent ==> t.cache[k] == old(t.cache)[k]
    ensures var b, left, p := old(t.cache)[leaf], old(t.cache)[l], old(t.cache)[parent];
      && 1 <= left.children <= |left.key| == |left.data| && i < |p.key|
      && t.cache[leaf] == LeafTakeLeft(t.c, b, left.key[left.children - 1], left.data[left.children - 1], remove)
      && t.cache[l] == left.(children := left.children - 1)
      && t.cache[parent] == p.(key := p.key[i := left.key[left.children - 1]])
  {
    hide Tree.Buffers, Tree.OnDisk, Tree.Allocation, Count, View, LeafTakeLeft;
    var left, p := t.cache[l], t.cache[parent];
    t.Write(leaf, LeafTakeLeft(t.c, t.cache[leaf], left.key[left.children - 1], left.data[left.children - 1], remove));
    t.Write(l, left.(children := left.children - 1));
    LeafTakeLeftFirst(t.c, old(t.cache)[leaf], left.key[left.children - 1], left.data[left.children - 1], remove);
    t.Write(parent, p.(key := p.key[i := t.cache[leaf].key[0]]));
  }

  lemma LeafTakeLeftFirst(c: Cfg, b: Block, key: int, data: int, remove: int)
    requires Fits(c, b) && b.leaf && 0 <= remove < b.children
    ensures LeafTakeLeft(c, b, key, data, remove).key[0] == key
  {
    hide Memmove;
  }

  method LeafBorrowLeft(t: Tree, leaf: int, l: int, r: int, parent: int, i: int, remove: int,
                        ghost n: int, ghost la: int, ghost ra: int, ghost pa: int)
    requires Family(t, leaf, l, r, parent, n, la, ra, pa) && la != INVALID && LeafTrio(t, leaf, l, parent, i)
    requires 0 <= remove < t.cache[leaf].children
    modifies t`cache, t`used, t`held, t`disk, t`D
    ensures t.Inv() && Count(t.used) == 0 && t.held == {}
    ensures var X := old(t.D);
      && |X[la].key| == |X[la].val| > 0 && remove < |X[n].key| == |X[n].val| && i < |X[pa].key|
      && var k, d := X[la].key[|X[la].key| - 1], X[la].val[|X[la].val| - 1];
      && t.D == X[n := X[n].(key := [k] + Drop(X[n].key, remove), val := [d] + Drop(X[n].val, remove))]
                 [la := X[la].(key := X[la].key[..|X[la].key| - 1], val := X[la].val[..|X[la].val| - 1])]
                 [pa := X[pa].(key := X[pa].key[i := k])]
  {
    hide Tree.Buffers, Tree.OnDisk, Tree.Allocation, Count, View, Memmove, Drop, LeafTakeLeft, Fits;
    ghost var b, left, p := t.cache[leaf], t.cache[l], t.cache[parent];
    ViewLeaf(t.c, b);
    ViewLeaf(t.c, left);
    ViewInner(t.c, p);
    LeafShiftFromLeft(t, leaf, l, parent, i, remove);
    LeafTakeLeftView(t.c, b, left.key[left.children - 1], left.data[left.children - 1], remove);
    SetKeyView(t.c, p, i, left.key[left.children - 1]);
    LeafLessOneView(t.c, left);
    t.NodeFlush(leaf);
    t.NodeFlush(l);
    FlushBack(t, r, ra);
    t.NodeFlush(parent);
  }

  method LeafShiftFromRight(t: Tree, leaf: int, r: int, parent: int, i: int)
    requires LeafTrio(t, leaf, r, parent, i) && t.cache[leaf].children < t.c.entries && t.cache[r].children >= 2
    modifies t`cache
    ensures t.Inv() && |t.cache| == |t.used| == MIN_CACHE_NUM
    ensures forall k :: 0 <= k < MIN_CACHE_NUM && k != leaf && k != r && k != parent ==> t.cache[k] == old(t.cache)[k]
    ensures var b, right, p := old(t.cache)[leaf], old(t.cache)[r], old(t.cache)[parent];
      && 2 <= right.children <= |right.key| == |right.data| && i < |p.key|
      && t.cache[leaf] == LeafTakeRight(t.c, b, right.key[0], right.data[0])
      && t.cache[r] == LeafGiveFirst(t.c, right)
      && t.cache[parent] == p.(key := p.key[i := right.key[1]])
  {
    hide Tree.Buffers, Tree.OnDisk, Tree.Allocation, Count, View, LeafTakeRight, LeafGiveFirst;
    var right, p := t.cache[r], t.cache[parent];
    t.Write(leaf, LeafTakeRight(t.c, t.cache[leaf], right.key[0], right.data[0]));
    t.Write(r, LeafGiveFirst(t.c, right));
    t.Write(parent, p.(key := p.key[i := t.cache[r].key[0]]));
  }

  method LeafBorrowRight(t: Tree, leaf: int, l: int, r: int, parent: int, i: int, remove: int,
                         ghost n: int, ghost la: int, ghost ra: int, ghost pa: int)
    requires Family(t, leaf, l, r, parent, n, la, ra, pa) && ra != INVALID && LeafTrio(t, leaf, r, parent, i)
    requires 0 <= remove < t.cache[leaf].children && t.cache[r].children >= 2
    modifies t`cache, t`used, t`held, t`disk, t`D
    ensures t.Inv() && Count(t.used) == 0 && t.held == {}
    ensures var X := old(t.D);
      && |X[ra].key| == |X[ra].val| > 1 && remove < |X[n].key| == |X[n].val| && i < |X[pa].key|
      && t.D == X[n := X[n].(key := Drop(X[n].key, remove) + [X[ra].key[0]],
                             val := Drop(X[n].val, remove) + [X[ra].val[0]])]
                 [ra := X[ra].(key := X[ra].key[1..], val := X[ra].val[1..])]
                 [pa := X[pa].(key := X[pa].key[i := X[ra].key[1]])]
  {
    hide Tree.Buffers, Tree.OnDisk, Tree.Allocation, Count, View, Memmove, Drop, LeafTakeRight, LeafGiveFirst;
    hide LeafClose, Fits;
    ghost var b, right, p := t.cache[leaf], t.cache[r], t.cache[parent];
    ViewLeaf(t.c, b);
    ViewLeaf(t.c, right);
    ViewInner(t.c, p);
    LeafRoom(t.c, b);
    t.Write(leaf, LeafClose(t.c, t.cache[leaf], remove));
    ghost var b1 := t.cache[leaf];
    LeafCloseView(t.c, b, remove);
    LeafShiftFromRight(t, leaf, r, parent, i);
    LeafTakeRightView(t.c, b1, right.key[0], right.data[0]);
    SetKeyView(t.c, p, i, right.key[1]);
    LeafGiveFirstView(t.c, right);
    t.NodeFlush(leaf);
    FlushBack(t, l, la);
    t.NodeFlush(r);
    t.NodeFlush(parent);
  }

  lemma LeafRoom(c: Cfg, b: Block)
    requires Fits(c, b) && b.leaf
    ensures b.children <= c.entries == |b.key| == |b.data|
  {
  }

  // ---------------------------------------------------------------- merging

  lemma LeafMergeEffect(X: Image, Y: Image, a: int, va: Node, b: int, nx: int, vx: Node)
    requires a in X && b in X && a != b && INVALID !in X
    requires nx == X[b].next && nx != a && nx != b
    requires nx != INVALID ==> nx in X && vx == X[nx]
    requires va == X[a].(key := va.key, val := va.val, next := va.next)
    requires Y == Bypass(X, a, va, nx, vx) - {b}
    ensures MergeEffect(X, Y, a, b, [])
  {
  }

  method LeafJoinLeft(t: Tree, leaf: int, l: int, r: int, parent: int, i: int, remove: int,
                      ghost n: int, ghost la: int, ghost ra: int, ghost pa: int)
    requires Family(t, leaf, l, r, parent, n, la, ra, pa) && la != INVALID && LeafTrio(t, leaf, l, parent, i)
    requires t.D[n].next == ra
    requires 0 <= remove < t.cache[leaf].children && t.cache[l].children + t.cache[leaf].children - 1 <= t.c.entries
    modifies t`cache, t`used, t`held, t`disk, t`D, t`free
    ensures t.Inv() && Count(t.used) == 1 && t.held == {pa} && Open(t, parent, pa)
    ensures t.cache[parent] == old(t.cache)[parent]
    ensures var X := old(t.D);
      && remove < |X[n].key| == |X[n].val|
      && MergeEffect(X, t.D, la, n, [])
      && t.D[la].key == X[la].key + Drop(X[n].key, remove)
      && t.D[la].val == X[la].val + Drop(X[n].val, remove)
  {
    hide Tree.Buffers, Tree.OnDisk, Tree.Allocation, Count, View, Memmove, LeafMergeInto, Drop, Fits, MergeEffect;
    ghost var X, b, left := t.D, t.cache[leaf], t.cache[l];
    ViewLeaf(t.c, b);
    ViewLeaf(t.c, left);
    t.Write(l, LeafMergeInto(t.c, t.cache[l], t.cache[leaf], remove));
    LeafMergeIntoView(t.c, left, b, remove);
    ghost var vl, vr := NodeOf(t, l), NodeOf(t, r);
    NodeDelete(t, leaf, l, r);
    LeafMergeEffect(X, t.D, la, vl, n, ra, vr);
  }

  method LeafJoinRight(t: Tree, leaf: int, l: int, r: int, parent: int, i: int, remove: int,
                       ghost n: int, ghost la: int, ghost ra: int, ghost pa: int)
    requires Family(t, leaf, l, r, parent, n, la, ra, pa) && ra != INVALID && LeafTrio(t, leaf, r, parent, i)
    requires 0 <= remove < t.cache[leaf].children && t.cache[leaf].children - 1 + t.cache[r].children <= t.c.entries
    requires t.cache[r].next != INVALID ==> Fetchable(t, t.cache[r].next)
    modifies t`cache, t`used, t`held, t`disk, t`D, t`free
    ensures t.Inv() && Count(t.used) == 1 && t.held == {pa} && Open(t, parent, pa)
    ensures t.cache[parent] == old(t.cache)[parent]
    ensures var X := old(t.D);
      && remove < |X[n].key| == |X[n].val|
      && MergeEffect(X, t.D, n, ra, [])
      && t.D[n].key == Drop(X[n].key, remove) + X[ra].key
      && t.D[n].val == Drop(X[n].val, remove) + X[ra].val
  {
    hide Tree.Buffers, Tree.OnDisk, Tree.Allocation, Count, View, Memmove, LeafMergeFrom, LeafClose, Drop, Fits;
    hide MergeEffect;
    ghost var X, b, right, rra := t.D, t.cache[leaf], t.cache[r], t.cache[r].next;
    ViewLeaf(t.c, b);
    ViewLeaf(t.c, right);
    t.Write(leaf, LeafClose(t.c, t.cache[leaf], remove));
    LeafCloseView(t.c, b, remove);
    ghost var b1 := t.cache[leaf];
    t.Write(leaf, LeafMergeFrom(t.c, t.cache[leaf], t.cache[r]));
    LeafMergeFromView(t.c, b1, right);
    ghost var vn := NodeOf(t, leaf);
    ghost var vr := CutRight(t, leaf, r);
    LeafMergeEffect(X, t.D, n, vn, ra, rra, vr);
    FlushBack(t, l, la);
  }
}
