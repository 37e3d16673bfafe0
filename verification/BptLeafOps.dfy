/** leaf_insert: a new key goes into the leaf that covers it. */
module BptLeafOps {
  import opened BptLevels
  import opened BptShape
  import opened BptInsert
  import opened BptTree
  import opened BptLeafInsert
  import opened BptBlock
  import opened BptDisk
  import opened BptLinks
  import opened BptEdit
  import opened BptLeafEdit
  import opened BptSplit
  import opened BptGrow

  // ---------------------------------------------------------------- splitting a leaf

  // Blocks bn and bx are the halves of leaf n of X with the new entry, Y the rest of the tree.
  ghost predicate LeafHalved(c: Cfg, X: Image, Y: Image, bn: Block, bx: Block, p: int, key: int, data: int, sep: int,
                             toLeft: bool) {
    && Fits(c, bn) && Fits(c, bx) && bn.self in X && bx.self !in X
    && var n, x, cut := bn.self, bx.self, (c.entries + 1) / 2;
    && 0 <= p <= |X[n].key| == |X[n].val| == c.entries
    && var g, vn, vx := LeafGrown(X[n], p, key, data), View(c, bn), View(c, bx);
    && (if toLeft then LeafHalves(c, g, vx, vn, x, n, cut) else LeafHalves(c, g, vn, vx, n, x, cut))
    && 0 <= cut < |g.key| && sep == g.key[cut]
    && SplitEffect(X, Y, n, x, INVALID, INVALID, [], toLeft)
    && vx.parent == INVALID && vn.parent == X[n].parent
    && (if toLeft then vx.prev == X[n].prev && vx.next == n && vn.prev == x && vn.next == X[n].next
        else vn.prev == X[n].prev && vn.next == x && vx.prev == n && vx.next == X[n].next)
  }

  ghost predicate LeafParted(t: Tree, X: Image, leaf: int, sib: int, p: int, key: int, data: int, sep: int,
                             toLeft: bool)
    reads t
  {
    && t.Inv() && Loaded(t, leaf) && Loaded(t, sib) && leaf != sib && Count(t.used) == 2
    && t.held == {t.cache[leaf].self, t.cache[sib].self}
    && LeafHalved(t.c, X, t.D, t.cache[leaf], t.cache[sib], p, key, data, sep, toLeft)
  }

  ghost predicate LeafReady(t: Tree, leaf: int, sib: int)
    reads t
  {
    && t.Inv() && Count(t.used) == 2 && leaf != sib
    && 0 <= leaf < MIN_CACHE_NUM && Open(t, leaf, t.cache[leaf].self) && FullLeaf(t.c, t.cache[leaf])
    && 0 <= sib < MIN_CACHE_NUM && t.used[sib] && t.cache[sib].self == INVALID && t.cache[sib].parent == INVALID
    && t.cache[sib].leaf && Fits(t.c, t.cache[sib])
    && t.held == {t.cache[leaf].self}
    && (t.cache[leaf].prev != INVALID ==> Fetchable(t, t.cache[leaf].prev))
    && (t.cache[leaf].next != INVALID ==> Fetchable(t, t.cache[leaf].next))
  }

  // Redirecting a link does not change the entries.
  lemma LeafGrownHeader(m: Node, n: Node, p: int, k: int, d: int)
    requires SameEntries(m, n) && 0 <= p <= |n.key| == |n.val|
    ensures LeafGrown(m, p, k, d).key == LeafGrown(n, p, k, d).key
    ensures LeafGrown(m, p, k, d).val == LeafGrown(n, p, k, d).val
  {
  }

  lemma LeafLeftHalved(c: Cfg, D: Image, Y: Image, b0: Block, m: Block, bn: Block, bx: Block, key: int, data: int,
                       insert: int)
    requires FullLeaf(c, b0) && 0 <= insert < (c.entries + 1) / 2
    requires b0.self in D && View(c, b0) == D[b0.self] && INVALID !in D && bx.self !in D
    requires b0.prev != b0.self && (b0.prev != INVALID ==> b0.prev in D)
    requires Fits(c, m) && m.leaf && m.self == bx.self && m.parent == INVALID && m.prev == b0.prev && m.next == b0.self
    requires bx == LeafLeft(c, m, b0.(prev := bx.self), key, data, insert, (c.entries + 1) / 2)
    requires bn == LeafShift(c, b0.(prev := bx.self), (c.entries + 1) / 2)
    requires Y == if b0.prev == INVALID then D else D[b0.prev := D[b0.prev].(next := bx.self)]
    ensures bn.children > 0 && LeafHalved(c, D, Y, bn, bx, insert, key, data, bn.key[0], true)
  {
    hide LeafLeft, LeafShift, Memmove, LeafGrown, LeafHalves;
    var n1, split := b0.(prev := bx.self), (c.entries + 1) / 2;
    LeafLeftView(c, n1, m, key, data, insert, split);
    LeafGrownHeader(View(c, b0), View(c, n1), insert, key, data);
    SameLeafHalves(c, LeafGrown(View(c, n1), insert, key, data), LeafGrown(View(c, b0), insert, key, data),
                   View(c, bx), View(c, bn), bx.self, b0.self, split);
    ViewLeaf(c, bn);
    ViewLeaf(c, bx);
  }

  lemma SameLeafHalves(c: Cfg, g: Node, h: Node, nl: Node, nr: Node, l: int, r: int, cut: int)
    requires g.key == h.key && g.val == h.val && LeafHalves(c, g, nl, nr, l, r, cut)
    ensures LeafHalves(c, h, nl, nr, l, r, cut) && 0 <= cut < |h.key|
  {
  }

  lemma LeafRightHalved(c: Cfg, D: Image, Y: Image, b0: Block, m: Block, bn: Block, bx: Block, key: int, data: int,
                        insert: int)
    requires FullLeaf(c, b0) && (c.entries + 1) / 2 <= insert <= c.entries
    requires b0.self in D && View(c, b0) == D[b0.self] && INVALID !in D && bx.self !in D
    requires b0.next != b0.self && (b0.next != INVALID ==> b0.next in D)
    requires Fits(c, m) && m.leaf && m.self == bx.self && m.parent == INVALID && m.prev == b0.self && m.next == b0.next
    requires bx == LeafRight(c, m, b0.(next := bx.self), key, data, insert, (c.entries + 1) / 2)
    requires bn == b0.(next := bx.self, children := (c.entries + 1) / 2)
    requires Y == if b0.next == INVALID then D else D[b0.next := D[b0.next].(prev := bx.self)]
    ensures bx.children > 0 && LeafHalved(c, D, Y, bn, bx, insert, key, data, bx.key[0], false)
  {
    hide LeafRight, Memmove, LeafGrown, LeafHalves;
    var n1, split := b0.(next := bx.self), (c.entries + 1) / 2;
    LeafRightView(c, n1, m, key, data, insert, split);
    LeafGrownHeader(View(c, b0), View(c, n1), insert, key, data);
    SameLeafHalves(c, LeafGrown(View(c, n1), insert, key, data), LeafGrown(View(c, b0), insert, key, data),
                   View(c, bn), View(c, bx), b0.self, bx.self, split);
    ViewLeaf(c, bn);
    ViewLeaf(c, bx);
  }

  method LeafSplitLeft(t: Tree, leaf: int, left: int, key: int, data: int, insert: int) returns (splitKey: int)
    requires LeafReady(t, leaf, left) && 0 <= insert < (t.c.entries + 1) / 2
    modifies t`cache, t`used, t`held, t`disk, t`D, t`fileSize, t`free, t`blocks
    ensures t.Inv() && t.cache[leaf].self == old(t.cache)[leaf].self
    ensures LeafParted(t, old(t.D), leaf, left, insert, key, data, splitKey, true)
  {
    hide Tree.Buffers, Tree.OnDisk, Tree.Allocation, Count, View, Memmove, LeafLeft, LeafShift, LeafHalved;
    ghost var D, b0 := t.D, t.cache[leaf];
    ViewHeader(t.c, b0);
    var split := (t.cache[leaf].children + 1) / 2;
    LeftNodeAdd(t, leaf, left);
    ghost var m := t.cache[left];
    t.Write(left, LeafLeft(t.c, t.cache[left], t.cache[leaf], key, data, insert, split));
    t.Write(leaf, LeafShift(t.c, t.cache[leaf], split));
    LeafLeftHalved(t.c, D, t.D, b0, m, t.cache[leaf], t.cache[left], key, data, insert);
    splitKey := t.cache[leaf].key[0];
  }

  method LeafSplitRight(t: Tree, leaf: int, right: int, key: int, data: int, insert: int) returns (splitKey: int)
    requires LeafReady(t, leaf, right) && (t.c.entries + 1) / 2 <= insert <= t.c.entries
    modifies t`cache, t`used, t`held, t`disk, t`D, t`fileSize, t`free, t`blocks
    ensures t.Inv() && t.cache[leaf].self == old(t.cache)[leaf].self
    ensures LeafParted(t, old(t.D), leaf, right, insert, key, data, splitKey, false)
  {
    hide Tree.Buffers, Tree.OnDisk, Tree.Allocation, Count, View, Memmove, LeafRight, LeafHalved;
    ghost var D, b0 := t.D, t.cache[leaf];
    ViewHeader(t.c, b0);
    var split := (t.cache[leaf].children + 1) / 2;
    RightNodeAdd(t, leaf, right);
    ghost var m := t.cache[right];
    t.Write(right, LeafRight(t.c, t.cache[right], t.cache[leaf], key, data, insert, split));
    t.Write(leaf, t.cache[leaf].(children := split));
    LeafRightHalved(t.c, D, t.D, b0, m, t.cache[leaf], t.cache[right], key, data, insert);
    splitKey := t.cache[right].key[0];
  }

  // ---------------------------------------------------------------- the leaf level after the split

  lemma LeafHalvedHole(c: Cfg, X: Image, Y: Image, Z: Image, L: seq<Entry>, up: seq<seq<Entry>>, root: int, j: int,
                       p: int,
                       key: int, data: int, bn: Block, bx: Block, sep: int, toLeft: bool)
    requires CfgOK(c) && Leaves(c, X, L, up == []) && Upper(c, X, L, up, root) && INVALID !in X
    requires X.Keys == Addrs(L) + AllAddrs(up)
    requires 0 <= j < |L| && Within(L, j, key) && Cut(X[L[j].a].key, p, key) && key !in X[L[j].a].key
    requires LeafHalved(c, X, Y, bn, bx, p, key, data, sep, toLeft) && bn.self == L[j].a && bx.self != INVALID
    requires Z == Y[bn.self := View(c, bn)][bx.self := View(c, bx)]
    ensures var M := Grow(L, j, LeftOf(toLeft, bn.self, bx.self), RightOf(toLeft, bn.self, bx.self), sep);
      && Leaves(c, Z, M, false) && ToMap(Flat(Z, M)) == ToMap(Flat(X, L))[key := data]
      && InsertHole(c, Z, M, j, bn.self, up, root)
      && Addrs(M) == Addrs(L) + {bx.self} && Z.Keys == X.Keys + {bx.self}
  {
    hide Flat, ToMap, Grow, LeafGrown, LeafHalves, View, SplitEffect, Upper, Sorted, NoDup, Linked, Bounded, LeafNodes;
    var n, x := bn.self, bx.self;
    var l, r := LeftOf(toLeft, n, x), RightOf(toLeft, n, x);
    var M := Grow(L, j, l, r, sep);
    assert |L| == 1 || up != [] by { LeafTop(c, X, L, up, root); }
    HalvedLinks(X, Y, Z, L, j, n, x, INVALID, INVALID, [], toLeft, View(c, bn), View(c, bx));
    LeafEffect(X, Y, Z, L, j, x, toLeft, View(c, bn), View(c, bx));
    LeafSplit(c, X, Z, L, up == [], j, p, key, data, l, r, (c.entries + 1) / 2, LeafGrown(X[n], p, key, data));
    GrowAddrs(L, j, l, r, sep);
    LeafSelfs(c, Z, M, false);
    UpperDisjoint(c, X, L, up, root);
    forall i | 0 <= i < |L| ensures L[i].a in Z && Z[L[i].a].parent == X[L[i].a].parent {
    }
    assert L[j].a in Addrs(L);
    SplitHole(c, X, Z, L, up, root, j, l, r, sep);
  }

  lemma LeafTop(c: Cfg, X: Image, L: seq<Entry>, up: seq<seq<Entry>>, root: int)
    requires Upper(c, X, L, up, root)
    ensures up == [] ==> |L| == 1
  {
  }

  lemma UpperDisjoint(c: Cfg, X: Image, C: seq<Entry>, up: seq<seq<Entry>>, root: int)
    requires Upper(c, X, C, up, root)
    ensures Addrs(C) !! AllAddrs(up) && AllAddrs(up) <= X.Keys
  {
    UpperAddrs(c, X, C, up, root);
  }

  lemma LeafSelfs(c: Cfg, X: Image, L: seq<Entry>, top: bool)
    requires Leaves(c, X, L, top)
    ensures In(X, L) && Selfs(X, L) && Sorted(L) && NoDup(L) && Linked(X, L)
  {
  }

  // Linking a leaf in touches its neighbours' links, nothing else.
  lemma LeafEffect(X: Image, Y: Image, Z: Image, L: seq<Entry>, j: int, x: int, toLeft: bool, vn: Node, vx: Node)
    requires In(X, L) && Linked(X, L) && 0 <= j < |L| && x !in X && INVALID !in X
    requires SplitEffect(X, Y, L[j].a, x, INVALID, INVALID, [], toLeft)
    requires Z == Y[L[j].a := vn][x := vx] && vn.parent == X[L[j].a].parent
    ensures Z.Keys == X.Keys + {x}
    ensures forall a :: a in X ==> Z[a].parent == X[a].parent
    ensures forall a :: a in X && a != L[j].a ==> SameBody(Z[a], X[a])
    ensures forall a :: a in X && a !in Addrs(L) ==> Z[a] == X[a]
  {
    var n := L[j].a;
    assert n in Addrs(L);
    forall a | a in X && a !in Addrs(L) ensures a != X[n].prev && a != X[n].next {
      assert X[n].prev == Before(L, j) && X[n].next == After(L, j);
      if j > 0 { assert L[j - 1].a in Addrs(L); }
      if j < |L| - 1 { assert L[j + 1].a in Addrs(L); }
    }
  }

  // ---------------------------------------------------------------- the leaves while the levels above change

  lemma LeavesFrame(c: Cfg, X: Image, Y: Image, L: seq<Entry>, top: bool)
    requires Leaves(c, X, L, top)
    requires forall a :: a in Addrs(L) ==> a in Y && Y[a] == X[a].(parent := Y[a].parent)
    ensures Leaves(c, Y, L, top) && Flat(Y, L) == Flat(X, L)
  {
    hide Flat, NoDup, Sorted;
    forall i | 0 <= i < |L| ensures L[i].a in Y && Y[L[i].a] == X[L[i].a].(parent := Y[L[i].a].parent) {
      assert L[i].a in Addrs(L);
    }
    FlatFrame(X, Y, L);
    LinksSame(X, Y, L);
    forall i, q | 0 <= i < |L| && 0 <= q < |Y[L[i].a].key| ensures Within(L, i, Y[L[i].a].key[q]) {
      assert Within(L, i, X[L[i].a].key[q]);
    }
  }

  lemma Regrown(c: Cfg, Z: Image, W: Image, M: seq<Entry>, up: seq<seq<Entry>>, up2: seq<seq<Entry>>, root: int)
    requires Leaves(c, Z, M, false) && Upper(c, W, M, up2, root) && up2 != [] && Reshaped(Z, W, M, up, up2)
    requires INVALID !in W && Z.Keys == Addrs(M) + AllAddrs(up) && Addrs(M) !! AllAddrs(up)
    ensures WellFormed(c, W, [M] + up2, root)
    ensures Content(c, W, [M] + up2, root) == ToMap(Flat(Z, M))
  {
    hide Flat, ToMap, Sorted, NoDup, Linked, Bounded, LeafNodes, Upper, AllAddrs;
    LeavesFrame(c, Z, W, M, false);
    assert ([M] + up2)[1..] == up2;
    UpperDisjoint(c, W, M, up2, root);
    assert Z.Keys - AllAddrs(up) == Addrs(M);
    assert W.Keys == Addrs(M) + AllAddrs(up2);
  }
}
