/** A full inner node splits in two around a pair of children that replaces one of its own. */
module BptSplit {
  import opened BptLevels
  import opened BptInsert
  import opened BptBlock
  import opened BptDisk
  import opened BptLinks
  import opened BptEdit

  // The tree with the children in buffers l and r taken from there.
  ghost function With(t: Tree, l: int, r: int): Image
    requires |t.cache| == MIN_CACHE_NUM && 0 <= l < MIN_CACHE_NUM && 0 <= r < MIN_CACHE_NUM
    requires Fits(t.c, t.cache[l]) && Fits(t.c, t.cache[r])
    reads t
  {
    t.D[t.cache[l].self := View(t.c, t.cache[l])][t.cache[r].self := View(t.c, t.cache[r])]
  }

  // A node is open in a buffer, as on disk.
  ghost predicate Open(t: Tree, i: int, a: int)
    reads t
  {
    && 0 <= i < MIN_CACHE_NUM && |t.used| == |t.cache| == MIN_CACHE_NUM && t.used[i] && t.cache[i].self == a
    && Fits(t.c, t.cache[i]) && a in t.D && View(t.c, t.cache[i]) == t.D[a]
  }

  // A buffer holds a block that has an address.
  ghost predicate Loaded(t: Tree, i: int)
    reads t
  {
    && 0 <= i < MIN_CACHE_NUM && |t.used| == |t.cache| == MIN_CACHE_NUM && t.used[i]
    && t.cache[i].self != INVALID && Fits(t.c, t.cache[i])
  }

  ghost predicate Blank(t: Tree, i: int)
    reads t
  {
    && 0 <= i < MIN_CACHE_NUM && |t.used| == |t.cache| == MIN_CACHE_NUM && t.used[i]
    && t.cache[i].self == INVALID && t.cache[i].parent == INVALID && !t.cache[i].leaf && Fits(t.c, t.cache[i])
  }

  // Who points to whom after a split: the children of the new node x, of the old node n, and the rest.
  ghost function NewParent(X: Image, a: int, moved: seq<int>, la: int, ra: int, n: int, x: int): int
    requires a in X
  {
    if a in moved then x else if a == la || a == ra then n else X[a].parent
  }

  // The blocks other than n after x was linked in on one side of n.
  ghost predicate SplitEffect(X: Image, Y: Image, n: int, x: int, la: int, ra: int, moved: seq<int>, toLeft: bool)
    requires n in X
  {
    && Y.Keys == X.Keys
    && forall a :: a in X && a != n ==>
         Y[a] == X[a].(parent := NewParent(X, a, moved, la, ra, n, x),
                       prev := if !toLeft && a == X[n].next then x else X[a].prev,
                       next := if toLeft && a == X[n].prev then x else X[a].next)
  }

  // The node to split is open, its neighbours and all its children but the p-th are on disk only.
  ghost predicate Splittable(t: Tree, node: int, sib: int, p: int)
    reads t
  {
    && t.Inv() && Count(t.used) == 4
    && Loaded(t, node) && FullInner(t.c, t.cache[node]) && Blank(t, sib) && node != sib
    && t.cache[node].self in t.held
    && (t.cache[node].prev != INVALID ==> Fetchable(t, t.cache[node].prev))
    && (t.cache[node].next != INVALID ==> Fetchable(t, t.cache[node].next))
    && (forall q :: 0 <= q < |t.cache[node].sub| && q != p ==> Fetchable(t, t.cache[node].sub[q]))
  }

  ghost predicate PairLoaded(t: Tree, node: int, sib: int, l: int, r: int)
    reads t
  {
    && Loaded(t, l) && Loaded(t, r) && node != l && node != r && sib != l && sib != r && l != r
    && 0 <= node < |t.cache| && t.cache[l].self != t.cache[r].self
    && t.cache[node].self != t.cache[l].self && t.cache[node].self != t.cache[r].self
  }

  // Assembling the effect from the steps: link, adopt, flush the pair.
  lemma EffectIntro(D: Image, D1: Image, D3: Image, X: Image, n: int, x: int, la: int, ra: int, vl: Node, vr: Node,
                    S: set<int>, moved: seq<int>, toLeft: bool)
    requires n in D && la != ra && n != la && n != ra && x !in D
    requires X == D[la := vl][ra := vr]
    requires var p := if toLeft then D[n].prev else D[n].next;
      && p != la && p != ra && p != n && (p != INVALID ==> p in D)
      && D1 == (if p == INVALID then D else if toLeft then D[p := D[p].(next := x)] else D[p := D[p].(prev := x)])
    requires D3 == AdoptAll(D1, S, x)[la := vl.(parent := if la in moved then x else n)]
                                     [ra := vr.(parent := if ra in moved then x else n)]
    requires la !in S && ra !in S && n !in S && INVALID !in D
    requires forall a :: a != la && a != ra ==> (a in S <==> a in moved)
    ensures SplitEffect(X, D3, n, x, la, ra, moved, toLeft)
  {
  }

  // ---------------------------------------------------------------- to the left

  // Links the new left node in, copies its share over and adopts the children copied.
  method SplitLeftFill(t: Tree, node: int, left: int, key: int, insert: int, split: int) returns (ghost S: set<int>)
    requires Splittable(t, node, left, insert)
    requires split == t.c.order / 2 && 0 <= insert <= split
    modifies t`cache, t`used, t`held, t`disk, t`D, t`fileSize, t`free, t`blocks
    ensures t.Inv() && t.used == old(t.used) && Kept(t.used, old(t.cache), t.cache, node, left)
    ensures t.cache[left].self != INVALID && t.cache[left].self !in old(t.D) && t.cache[left].self !in old(t.held)
    ensures t.held == old(t.held) + {t.cache[left].self}
    ensures t.cache[node] == old(t.cache)[node].(prev := t.cache[left].self)
    ensures var b := old(t.cache)[left].(self := t.cache[left].self, prev := old(t.cache)[node].prev,
                                         next := t.cache[node].self);
      t.cache[left] == LeftCopy(t.c, b, t.cache[node], key, insert, split)
    ensures forall i :: 0 <= i < split + 1 && i != insert && i != insert + 1 ==> t.cache[left].sub[i] in S
    ensures forall s :: s in S ==> s in old(t.D) && s !in old(t.held)
    ensures forall s :: s in S ==>
      exists i :: 0 <= i < split + 1 && i != insert && i != insert + 1 && t.cache[left].sub[i] == s
    ensures t.D == var p := old(t.cache)[node].prev;
      AdoptAll(if p == INVALID then old(t.D) else old(t.D)[p := old(t.D)[p].(next := t.cache[left].self)], S,
               t.cache[left].self)
  {
    hide Tree.Buffers, Tree.OnDisk, Tree.Allocation, Count, View, Memmove, LeftCopy, AdoptAll;
    LeftNodeAdd(t, node, left);
    ghost var b, n := t.cache[left], t.cache[node];
    t.Write(left, LeftCopy(t.c, t.cache[left], t.cache[node], key, insert, split));
    LeftCopySubs(t.c, b, n, key, insert, split);
    S := FlushSubs(t, left, 0, split + 1, insert);
  }

  // Places the pair, and closes up the old node.
  method SplitLeftPair(t: Tree, node: int, left: int, l: int, r: int, key: int, insert: int, split: int)
      returns (splitKey: int)
    requires t.Inv() && Loaded(t, node) && Loaded(t, left) && node != left && PairLoaded(t, node, left, l, r)
    requires FullInner(t.c, t.cache[node]) && !t.cache[left].leaf
    requires split == t.c.order / 2 && 0 <= insert <= split
    modifies t`cache, t`used, t`held, t`disk, t`D
    ensures t.Inv() && t.used == old(t.used)[l := false][r := false] && Count(t.used) == Count(old(t.used)) - 2
    ensures t.held == old(t.held) - {old(t.cache)[l].self} - {old(t.cache)[r].self}
    ensures var o, la, ra := old(t.cache)[left], old(t.cache)[l].self, old(t.cache)[r].self;
      t.cache[left] == o.(sub := if insert == split then o.sub[insert := la] else o.sub[insert := la][insert + 1 := ra])
    ensures var b := old(t.cache)[node];
      && t.cache[node] == RightShift(t.c, b, if insert == split then old(t.cache)[r].self else b.sub[split], split)
      && splitKey == if insert == split then key else b.key[split - 1]
    ensures var x, n := old(t.cache)[left].self, old(t.cache)[node].self;
      t.D == old(t.D)[old(t.cache)[l].self := View(t.c, old(t.cache)[l]).(parent := x)]
                     [old(t.cache)[r].self := View(t.c, old(t.cache)[r]).(parent := if insert == split then n else x)]
  {
    hide Tree.Buffers, Tree.OnDisk, Tree.Allocation, Count, View, Memmove, RightShift;
    SubNodeUpdate(t, left, insert, l);
    if insert == split {
      SubNodeUpdate(t, node, 0, r);
      splitKey := key;
      ShiftAgain(t.c, old(t.cache)[node], t.cache[node].sub[0], split);
      t.Write(node, RightShift(t.c, t.cache[node], t.cache[node].sub[0], split));
    } else {
      SubNodeUpdate(t, left, insert + 1, r);
      splitKey := t.cache[node].key[split - 1];
      t.Write(node, RightShift(t.c, t.cache[node], t.cache[node].sub[split], split));
    }
  }

  lemma ShiftAgain(c: Cfg, b: Block, first: int, split: int)
    requires FullInner(c, b) && split == c.order / 2
    ensures FullInner(c, b.(sub := b.sub[0 := first]))
    ensures RightShift(c, b.(sub := b.sub[0 := first]), first, split) == RightShift(c, b, first, split)
  {
    assert b.sub[0 := first][0 := first] == b.sub[0 := first];
  }

  // Blocks bn and bx are the halves of node n of X, with Y the rest of the tree.
  ghost predicate Halved(c: Cfg, X: Image, Y: Image, bn: Block, bx: Block, la: int, ra: int, key: int, p: int, cut: int,
                         splitKey: int, toLeft: bool)
  {
    && Fits(c, bn) && Fits(c, bx) && bn.self in X && bx.self !in X
    && var n, x := bn.self, bx.self;
    && |X[n].val| == |X[n].key| + 1 && 0 <= p < |X[n].val|
    && var g, vn, vx := Grown(X[n], p, la, ra, key), View(c, bn), View(c, bx);
    && (if toLeft then Halves(c, g, vx, vn, x, n, cut) else Halves(c, g, vn, vx, n, x, cut))
    && splitKey == g.key[cut - 1]
    && SplitEffect(X, Y, n, x, la, ra, vx.val, toLeft)
    && vx.parent == INVALID && vn.parent == X[n].parent
    && (if toLeft then vx.prev == X[n].prev && vx.next == n && vn.prev == x && vn.next == X[n].next
        else vn.prev == X[n].prev && vn.next == x && vx.prev == n && vx.next == X[n].next)
  }

  // The node and its new sibling in their buffers, everything else on disk.
  ghost predicate Parted(t: Tree, X: Image, node: int, sib: int, la: int, ra: int, key: int, p: int, cut: int,
                         splitKey: int, toLeft: bool)
    reads t
  {
    && t.Inv() && Loaded(t, node) && Loaded(t, sib) && node != sib && Count(t.used) == 2
    && t.held == {t.cache[node].self, t.cache[sib].self}
    && Halved(t.c, X, t.D, t.cache[node], t.cache[sib], la, ra, key, p, cut, splitKey, toLeft)
  }

  lemma GrownHeader(m: Node, n: Node, p: int, l: int, r: int, key: int)
    requires |n.val| == |n.key| + 1 && 0 <= p < |n.val| && SameEntries(m, n)
    ensures Grown(m, p, l, r, key).key == Grown(n, p, l, r, key).key
    ensures Grown(m, p, l, r, key).val == Grown(n, p, l, r, key).val
  {
  }

  lemma LeftHalves(c: Cfg, old_: Block, node: Block, left: Block, key: int, pivot: int, split: int, l: int, r: int,
                   e: Block, n: Block)
    requires FullInner(c, old_) && node == old_.(prev := node.prev) && Fits(c, left) && !left.leaf && FullInner(c, node)
    requires split == c.order / 2 && 0 <= pivot <= split
    requires var o := LeftCopy(c, left, node, key, pivot, split);
      e == o.(sub := if pivot == split then o.sub[pivot := l] else o.sub[pivot := l][pivot + 1 := r])
    requires n == RightShift(c, node, if pivot == split then r else node.sub[split], split)
    ensures var g := Grown(View(c, old_), pivot, l, r, key);
      && Fits(c, e) && Halves(c, g, View(c, e), View(c, n), left.self, node.self, split + 1)
      && g.key[split] == if pivot == split then key else node.key[split - 1]
    ensures e == left.(children := e.children, key := e.key, sub := e.sub)
    ensures n == node.(children := n.children, key := n.key, sub := n.sub)
  {
    SplitLeftView(c, node, left, key, pivot, split, l, r, e.sub);
    GrownHeader(View(c, old_), View(c, node), pivot, l, r, key);
  }

  lemma LeftHalved(c: Cfg, D: Image, D1: Image, Y: Image, b0: Block, m: Block, o: Block, bn: Block, bx: Block,
                   vl: Node, vr: Node,
                   la: int, ra: int, S: set<int>, key: int, insert: int, split: int, splitKey: int)
    requires FullInner(c, b0) && split == c.order / 2 && 0 <= insert <= split
    requires b0.self in D && View(c, b0) == D[b0.self] && INVALID !in D && bx.self !in D
    requires la != ra && b0.self != la && b0.self != ra && b0.prev != la && b0.prev != ra && b0.prev != b0.self
    requires bx.self != la && bx.self != ra
    requires b0.prev != INVALID ==> b0.prev in D
    requires la !in S && ra !in S && b0.self !in S
    requires Fits(c, m) && !m.leaf && m.self == bx.self && m.parent == INVALID && m.prev == b0.prev && m.next == b0.self
    requires o == LeftCopy(c, m, b0.(prev := bx.self), key, insert, split)
    requires bx == o.(sub := if insert == split then o.sub[insert := la] else o.sub[insert := la][insert + 1 := ra])
    requires bn == RightShift(c, b0.(prev := bx.self), if insert == split then ra else b0.sub[split], split)
    requires forall i :: 0 <= i < split + 1 && i != insert && i != insert + 1 ==> o.sub[i] in S
    requires forall s :: s in S ==> exists i :: 0 <= i < split + 1 && i != insert && i != insert + 1 && o.sub[i] == s
    requires splitKey == if insert == split then key else b0.key[split - 1]
    requires D1 == if b0.prev == INVALID then D else D[b0.prev := D[b0.prev].(next := bx.self)]
    requires Y == AdoptAll(D1, S, bx.self)[la := vl.(parent := bx.self)]
                                          [ra := vr.(parent := if insert == split then b0.self else bx.self)]
    ensures Halved(c, D[la := vl][ra := vr], Y, bn, bx, la, ra, key, insert, split + 1, splitKey, true)
  {
    hide Halves, Memmove, LeftCopy, RightShift, Grown, AdoptAll, SplitEffect, View;
    ViewInner(c, b0);
    LeftHalves(c, b0, b0.(prev := bx.self), m, key, insert, split, la, ra, bx, bn);
    ViewInner(c, bx);
    ViewInner(c, bn);
    hide Fits, FullInner;
    LeftEffect(D, D1, Y, D[b0.self], o.sub, bx.sub, bx.self, vl, vr, la, ra, S, insert, split);
  }

  lemma LeftEffect(D: Image, D1: Image, Y: Image, n: Node, sub0: seq<int>, sub: seq<int>, x: int, vl: Node, vr: Node,
                   la: int, ra: int, S: set<int>, insert: int, split: int)
    requires n.self in D && n == D[n.self] && INVALID !in D && x !in D && 0 <= insert <= split
    requires la != ra && n.self != la && n.self != ra && n.prev != la && n.prev != ra && n.prev != n.self
    requires n.prev != INVALID ==> n.prev in D
    requires la !in S && ra !in S && n.self !in S && split + 1 < |sub0|
    requires sub == if insert == split then sub0[insert := la] else sub0[insert := la][insert + 1 := ra]
    requires forall i :: 0 <= i < split + 1 && i != insert && i != insert + 1 ==> sub0[i] in S
    requires forall s :: s in S ==> exists i :: 0 <= i < split + 1 && i != insert && i != insert + 1 && sub0[i] == s
    requires D1 == if n.prev == INVALID then D else D[n.prev := D[n.prev].(next := x)]
    requires Y == AdoptAll(D1, S, x)[la := vl.(parent := x)][ra := vr.(parent := if insert == split then n.self else x)]
    ensures SplitEffect(D[la := vl][ra := vr], Y, n.self, x, la, ra, sub[..split + 1], true)
  {
    hide AdoptAll, SplitEffect;
    LeftMoved(sub0, sub, insert, split, la, ra, S);
    EffectIntro(D, D1, Y, D[la := vl][ra := vr], n.self, x, la, ra, vl, vr, S, sub[..split + 1], true);
  }

  method NonLeafSplitLeft(t: Tree, node: int, left: int, l: int, r: int, key: int, insert: int, split: int)
      returns (splitKey: int)
    requires Splittable(t, node, left, insert) && PairLoaded(t, node, left, l, r)
    requires t.cache[node].self in t.D && View(t.c, t.cache[node]) == t.D[t.cache[node].self]
    requires t.held == {t.cache[node].self, t.cache[l].self, t.cache[r].self}
    requires split == t.c.order / 2 && 0 <= insert <= split
    modifies t`cache, t`used, t`held, t`disk, t`D, t`fileSize, t`free, t`blocks
    ensures t.Inv() && t.cache[node].self == old(t.cache)[node].self
    ensures Parted(t, old(With(t, l, r)), node, left, old(t.cache)[l].self, old(t.cache)[r].self, key, insert,
                   split + 1, splitKey, true)
  {
    hide Tree.Buffers, Tree.OnDisk, Tree.Allocation, Count, LeftCopy, RightShift, AdoptAll, Halved, View, Kept, Memmove;
    ghost var D, la, ra := t.D, t.cache[l].self, t.cache[r].self;
    ghost var S := SplitLeftFill(t, node, left, key, insert, split);
    KeptAt(t.used, old(t.cache), t.cache, node, left, l);
    KeptAt(t.used, old(t.cache), t.cache, node, left, r);
    ghost var o := t.cache[left];
    splitKey := SplitLeftPair(t, node, left, l, r, key, insert, split);
    ghost var b0, x := old(t.cache)[node], t.cache[left].self;
    LeftHalved(t.c, D, if b0.prev == INVALID then D else D[b0.prev := D[b0.prev].(next := x)], t.D, b0,
               old(t.cache)[left].(self := x, prev := b0.prev, next := b0.self), o, t.cache[node], t.cache[left],
               View(t.c, old(t.cache)[l]), View(t.c, old(t.cache)[r]), la, ra, S, key, insert, split, splitKey);
  }

  lemma KeptAt(used: seq<bool>, before: seq<Block>, after: seq<Block>, a: int, b: int, k: int)
    requires Kept(used, before, after, a, b) && 0 <= k < |used| && used[k] && k != a && k != b
    ensures |before| == |after| == |used| && after[k] == before[k]
  {
  }

  lemma LeftMoved(before: seq<int>, after: seq<int>, insert: int, split: int, la: int, ra: int, S: set<int>)
    requires 0 <= insert <= split < |before| && la != ra && la !in S && ra !in S
    requires after == if insert == split then before[insert := la] else before[insert := la][insert + 1 := ra]
    requires forall i :: 0 <= i < split + 1 && i != insert && i != insert + 1 ==> before[i] in S
    requires forall s :: s in S ==> exists i :: 0 <= i < split + 1 && i != insert && i != insert + 1 && before[i] == s
    ensures la in after[..split + 1] && (ra in after[..split + 1] <==> insert < split)
    ensures forall a :: a != la && a != ra ==> (a in S <==> a in after[..split + 1])
  {
    MovedPair(before, after, split + 1, insert, la, ra, S);
    forall a | a != la && a != ra ensures a in S <==> a in after[..split + 1] {
      MovedSet(before, after, split + 1, insert, la, ra, S, a);
    }
  }

  // ---------------------------------------------------------------- to the right

  lemma AdoptLater(X: Image, S: set<int>, p: int, la: int, vl: Node, ra: int, vr: Node)
    requires la !in S && ra !in S
    ensures AdoptAll(X[la := vl][ra := vr], S, p) == AdoptAll(X, S, p)[la := vl][ra := vr]
  {
  }

  lemma RightMoved(sub: seq<int>, hi: int, skip: int, la: int, ra: int, S: set<int>)
    requires 0 <= skip && skip + 1 < hi <= |sub| && la != ra && la !in S && ra !in S
    requires sub[skip] == la && sub[skip + 1] == ra
    requires forall i :: 0 <= i < hi && i != skip && i != skip + 1 ==> sub[i] in S
    requires forall s :: s in S ==> exists i :: 0 <= i < hi && i != skip && i != skip + 1 && sub[i] == s
    ensures la in sub[..hi] && ra in sub[..hi]
    ensures forall a :: a != la && a != ra ==> (a in S <==> a in sub[..hi])
  {
    MovedPair(sub, sub, hi, skip, la, ra, S);
    forall a | a != la && a != ra ensures a in S <==> a in sub[..hi] {
      MovedSet(sub, sub, hi, skip, la, ra, S, a);
    }
  }

  lemma RightHalved(c: Cfg, D: Image, D1: Image, Y: Image, b0: Block, bn: Block, bx: Block, vl: Node, vr: Node,
                    la: int, ra: int, S: set<int>, key: int, insert: int, pivot: int, cut: int, splitKey: int)
    requires FullInner(c, b0) && Fits(c, bn) && Fits(c, bx) && !bx.leaf && 0 <= insert < c.order
    requires b0.self in D && View(c, b0) == D[b0.self] && INVALID !in D && bx.self !in D
    requires la != ra && b0.self != la && b0.self != ra && b0.next != la && b0.next != ra && b0.next != b0.self
    requires bx.self != la && bx.self != ra
    requires b0.next != INVALID ==> b0.next in D
    requires la !in S && ra !in S && b0.self !in S
    requires bx.parent == INVALID && bx.prev == b0.self && bx.next == b0.next
    requires bn == b0.(next := bx.self, children := bn.children)
    requires |D[b0.self].val| == |D[b0.self].key| + 1 && insert < |D[b0.self].val|
    requires Halves(c, Grown(D[b0.self], insert, la, ra, key), View(c, bn), View(c, bx), b0.self, bx.self, cut)
    requires splitKey == Grown(D[b0.self], insert, la, ra, key).key[cut - 1]
    requires 0 <= pivot && pivot + 1 < bx.children && bx.sub[pivot] == la && bx.sub[pivot + 1] == ra
    requires forall i :: 0 <= i < bx.children && i != pivot && i != pivot + 1 ==> bx.sub[i] in S
    requires forall s :: s in S ==> exists i :: 0 <= i < bx.children && i != pivot && i != pivot + 1 && bx.sub[i] == s
    requires D1 == if b0.next == INVALID then D else D[b0.next := D[b0.next].(prev := bx.self)]
    requires Y == AdoptAll(D1[la := vl.(parent := bx.self)][ra := vr.(parent := bx.self)], S, bx.self)
    ensures Halved(c, D[la := vl][ra := vr], Y, bn, bx, la, ra, key, insert, cut, splitKey, false)
  {
    hide Halves, Grown, AdoptAll, SplitEffect, View;
    ViewInner(c, b0);
    ViewInner(c, bx);
    ViewInner(c, bn);
    assert SplitEffect(D[la := vl][ra := vr], Y, b0.self, bx.self, la, ra, View(c, bx).val, false) by {
      RightMoved(bx.sub, bx.children, pivot, la, ra, S);
      AdoptLater(D1, S, bx.self, la, vl.(parent := bx.self), ra, vr.(parent := bx.self));
      EffectIntro(D, D1, Y, D[la := vl][ra := vr], b0.self, bx.self, la, ra, vl, vr, S, bx.sub[..bx.children], false);
    }
  }

  lemma Right1Halves(c: Cfg, b0: Block, n1: Block, h: Block, bn: Block, bx: Block, key: int, split: int, la: int,
                     ra: int)
    requires FullInner(c, b0) && n1 == b0.(next := n1.next) && Fits(c, h) && !h.leaf && split == c.order / 2
    requires h.children == c.order - split + 1 && h.key[0] == key && h.sub[0] == la && h.sub[1] == ra
    requires bn == n1.(children := split) && bx == RightTail(c, h, n1, split)
    ensures var g := Grown(View(c, b0), split, la, ra, key);
      && Fits(c, bn) && Halves(c, g, View(c, bn), View(c, bx), b0.self, h.self, split)
      && g.key[split - 1] == b0.key[split - 1]
  {
    SplitRight1View(c, n1, h, key, split, la, ra);
    hide RightTail;
    GrownHeader(View(c, n1), View(c, b0), split, la, ra, key);
  }

  lemma Right2Halves(c: Cfg, b0: Block, n1: Block, b: Block, h: Block, bn: Block, bx: Block, key: int, insert: int,
                     pivot: int, split: int, la: int, ra: int)
    requires FullInner(c, b0) && n1 == b0.(next := n1.next) && Fits(c, b) && !b.leaf && split == c.order / 2
    requires split < insert < c.order && pivot == insert - split - 1
    requires h == RightHead(c, b, n1, key, pivot, split)
    requires bn == n1.(children := split + 1)
    requires bx == RightRest(c, h.(sub := h.sub[pivot := la][pivot + 1 := ra]), n1, insert, pivot, split)
    ensures var g := Grown(View(c, b0), insert, la, ra, key);
      Fits(c, bn) && Halves(c, g, View(c, bn), View(c, bx), b0.self, b.self, split + 1) && g.key[split] == b0.key[split]
  {
    SplitRight2View(c, n1, b, key, insert, pivot, split, la, ra);
    hide RightHead, RightRest;
    GrownHeader(View(c, n1), View(c, b0), insert, la, ra, key);
  }

  // The pair opens the right node, followed by the children after it.
  method SplitRight1Place(t: Tree, node: int, right: int, l: int, r: int, key: int, split: int)
    requires t.Inv() && Loaded(t, node) && Loaded(t, right) && node != right && PairLoaded(t, node, right, l, r)
    requires FullInner(t.c, t.cache[node]) && !t.cache[right].leaf && split == t.c.order / 2
    modifies t`cache, t`used, t`held, t`disk, t`D
    ensures t.Inv() && t.used == old(t.used)[l := false][r := false] && Count(t.used) == Count(old(t.used)) - 2
    ensures t.held == old(t.held) - {old(t.cache)[l].self} - {old(t.cache)[r].self}
    ensures t.cache[node] == old(t.cache)[node].(children := split)
    ensures var b, la, ra := old(t.cache)[right], old(t.cache)[l].self, old(t.cache)[r].self;
      var h := b.(children := t.c.order - split + 1, key := b.key[0 := key], sub := b.sub[0 := la][1 := ra]);
      Fits(t.c, h) && t.cache[right] == RightTail(t.c, h, old(t.cache)[node], split)
    ensures var x := old(t.cache)[right].self;
      t.D == old(t.D)[old(t.cache)[l].self := View(t.c, old(t.cache)[l]).(parent := x)]
                     [old(t.cache)[r].self := View(t.c, old(t.cache)[r]).(parent := x)]
  {
    hide Tree.Buffers, Tree.OnDisk, Tree.Allocation, Count, View, Memmove, RightTail;
    var b, c := t.cache[node], t.cache[right];
    t.Write(node, b.(children := split));
    t.Write(right, c.(children := t.c.order - split + 1, key := c.key[0 := key]));
    SubNodeUpdate(t, right, 0, l);
    SubNodeUpdate(t, right, 1, r);
    t.Write(right, RightTail(t.c, t.cache[right], b, split));
  }

  lemma RightTailSubs(c: Cfg, right: Block, node: Block, split: int)
    requires Fits(c, right) && !right.leaf && FullInner(c, node) && split == c.order / 2
    requires right.children == c.order - split + 1
    ensures var o := RightTail(c, right, node, split);
      && o.children == right.children && o.sub[0] == right.sub[0] && o.sub[1] == right.sub[1]
      && (forall i {:trigger o.sub[i]} :: 2 <= i < o.children ==> o.sub[i] == node.sub[split + i - 1])
  {
    hide Memmove;
  }

  // The new node x is filled and linked in, and the pair flushed; its other children are still to be adopted.
  ghost predicate Filled(t: Tree, node: int, right: int, D: Image, b0: Block, la: int, vl: Node, ra: int, vr: Node,
                         p: int, pivot: int)
    reads t
  {
    && t.Inv() && Count(t.used) == 2 && Loaded(t, node) && Loaded(t, right) && node != right
    && var bx := t.cache[right];
    && t.cache[node] == b0.(next := bx.self, children := t.cache[node].children)
    && !bx.leaf && bx.parent == INVALID && bx.prev == b0.self && bx.next == b0.next && bx.self !in D
    && t.held == {b0.self, bx.self} && b0.self in D && INVALID !in D && bx.self != la && bx.self != ra
    && la != ra && b0.self != la && b0.self != ra && b0.next != la && b0.next != ra && b0.next != b0.self
    && (b0.next != INVALID ==> b0.next in D && D[b0.next].self == b0.next)
    && t.D == (if b0.next == INVALID then D else D[b0.next := D[b0.next].(prev := bx.self)])
                [la := vl.(parent := bx.self)][ra := vr.(parent := bx.self)]
    && (forall q :: 0 <= q < |b0.sub| && q != p ==>
          && b0.sub[q] in D && D[b0.sub[q]].self == b0.sub[q]
          && b0.sub[q] != b0.self && b0.sub[q] != la && b0.sub[q] != ra)
    && 0 <= pivot && pivot + 1 < bx.children && bx.sub[pivot] == la && bx.sub[pivot + 1] == ra
  }

  // Child i of the new node was a child of the old one, and not the p-th.
  ghost predicate Copied(b0: Block, bx: Block, p: int, i: int)
    requires 0 <= i < |bx.sub|
  {
    exists q :: 0 <= q < |b0.sub| && q != p && b0.sub[q] == bx.sub[i]
  }

  method FinishRight(t: Tree, node: int, right: int, lo: int, skip: int, ghost D: Image, ghost b0: Block,
                     ghost la: int, ghost vl: Node, ghost ra: int, ghost vr: Node,
                     ghost key: int, ghost insert: int, ghost cut: int, ghost splitKey: int)
    requires Filled(t, node, right, D, b0, la, vl, ra, vr, insert, skip) && (lo == 0 || (skip == 0 && lo == 2))
    requires FullInner(t.c, b0) && View(t.c, b0) == D[b0.self] && 0 <= insert < t.c.order
    requires lo <= t.cache[right].children
    requires Halves(t.c, Grown(D[b0.self], insert, la, ra, key), View(t.c, t.cache[node]), View(t.c, t.cache[right]),
                    b0.self, t.cache[right].self, cut)
    requires splitKey == Grown(D[b0.self], insert, la, ra, key).key[cut - 1]
    requires t.cache[right].children <= |t.cache[right].sub|
    requires forall i :: 0 <= i < t.cache[right].children && i != skip && i != skip + 1 ==>
      Copied(b0, t.cache[right], insert, i)
    modifies t`cache, t`used, t`held, t`disk, t`D
    ensures t.Inv() && t.used == old(t.used) && t.held == old(t.held)
    ensures t.cache[node] == old(t.cache)[node] && t.cache[right] == old(t.cache)[right]
    ensures Halved(t.c, D[la := vl][ra := vr], t.D, t.cache[node], t.cache[right], la, ra, key, insert, cut, splitKey,
                   false)
  {
    hide Tree.Buffers, Tree.OnDisk, Tree.Allocation, Count, AdoptAll, Halved, View, Kept, Halves, Grown, Fits;
    ghost var bx, used := t.cache[right], t.used;
    ViewInner(t.c, b0);
    forall i | 0 <= i < bx.children && i != skip && i != skip + 1
      ensures Fetchable(t, bx.sub[i]) && bx.sub[i] != b0.self && bx.sub[i] != la && bx.sub[i] != ra
    {
      assert Copied(b0, bx, insert, i);
      var q :| 0 <= q < |b0.sub| && q != insert && b0.sub[q] == bx.sub[i];
    }
    ghost var before := t.cache;
    ghost var S := FlushSubs(t, right, lo, t.cache[right].children, skip);
    KeptAt(t.used, before, t.cache, -1, -1, right);
    KeptAt(t.used, before, t.cache, -1, -1, node);
    RightHalved(t.c, D, if b0.next == INVALID then D else D[b0.next := D[b0.next].(prev := bx.self)], t.D, b0,
                t.cache[node], t.cache[right],
                vl, vr, la, ra, S, key, insert, skip, cut, splitKey);
  }

  method NonLeafSplitRight1(t: Tree, node: int, right: int, l: int, r: int, key: int, insert: int, split: int)
      returns (splitKey: int)
    requires Splittable(t, node, right, insert) && PairLoaded(t, node, right, l, r)
    requires t.cache[node].self in t.D && View(t.c, t.cache[node]) == t.D[t.cache[node].self]
    requires t.held == {t.cache[node].self, t.cache[l].self, t.cache[r].self}
    requires split == t.c.order / 2 && insert == split
    modifies t`cache, t`used, t`held, t`disk, t`D, t`fileSize, t`free, t`blocks
    ensures t.Inv() && t.cache[node].self == old(t.cache)[node].self
    ensures Parted(t, old(With(t, l, r)), node, right, old(t.cache)[l].self, old(t.cache)[r].self, key, insert, split,
                   splitKey, false)
  {
    hide Tree.Buffers, Tree.OnDisk, Tree.Allocation, Count, RightTail, AdoptAll, Halved, View, Kept, Memmove, Halves;
    hide Grown;
    ghost var c, D, la, ra := t.c, t.D, t.cache[l].self, t.cache[r].self;
    RightNodeAdd(t, node, right);
    KeptAt(t.used, old(t.cache), t.cache, node, right, l);
    KeptAt(t.used, old(t.cache), t.cache, node, right, r);
    ghost var b0, n1, b := old(t.cache)[node], t.cache[node], t.cache[right];
    splitKey := t.cache[node].key[split - 1];
    SplitRight1Place(t, node, right, l, r, key, split);
    ghost var h := b.(children := c.order - split + 1, key := b.key[0 := key], sub := b.sub[0 := la][1 := ra]);
    RightTailSubs(c, h, n1, split);
    Right1Halves(c, b0, n1, h, t.cache[node], t.cache[right], key, split, la, ra);
    forall i | 2 <= i < t.cache[right].children ensures Copied(b0, t.cache[right], insert, i) {
      assert b0.sub[split + i - 1] == t.cache[right].sub[i];
    }
    FinishRight(t, node, right, 2, 0, D, b0, la, View(c, old(t.cache)[l]), ra, View(c, old(t.cache)[r]), key, insert,
                split, splitKey);
  }

  // The children before the pair, the pair, and the children after it.
  method SplitRight2Place(t: Tree, node: int, right: int, l: int, r: int, key: int, insert: int, split: int)
    requires t.Inv() && Loaded(t, node) && Loaded(t, right) && node != right && PairLoaded(t, node, right, l, r)
    requires FullInner(t.c, t.cache[node]) && !t.cache[right].leaf && split == t.c.order / 2
    requires split < insert < t.c.order
    modifies t`cache, t`used, t`held, t`disk, t`D
    ensures t.Inv() && t.used == old(t.used)[l := false][r := false] && Count(t.used) == Count(old(t.used)) - 2
    ensures t.held == old(t.held) - {old(t.cache)[l].self} - {old(t.cache)[r].self}
    ensures t.cache[node] == old(t.cache)[node].(children := split + 1)
    ensures var la, ra, n, pivot := old(t.cache)[l].self, old(t.cache)[r].self, old(t.cache)[node], insert - split - 1;
      var h := RightHead(t.c, old(t.cache)[right], n, key, pivot, split);
      t.cache[right] == RightRest(t.c, h.(sub := h.sub[pivot := la][pivot + 1 := ra]), n, insert, pivot, split)
    ensures var x := old(t.cache)[right].self;
      t.D == old(t.D)[old(t.cache)[l].self := View(t.c, old(t.cache)[l]).(parent := x)]
                     [old(t.cache)[r].self := View(t.c, old(t.cache)[r]).(parent := x)]
  {
    hide Tree.Buffers, Tree.OnDisk, Tree.Allocation, Count, View, Memmove, RightHead, RightRest;
    var b, pivot := t.cache[node], insert - split - 1;
    t.Write(node, b.(children := split + 1));
    t.Write(right, RightHead(t.c, t.cache[right], b, key, pivot, split));
    SubNodeUpdate(t, right, pivot, l);
    SubNodeUpdate(t, right, pivot + 1, r);
    t.Write(right, RightRest(t.c, t.cache[right], b, insert, pivot, split));
  }

  lemma RightRestSubs(c: Cfg, b: Block, h: Block, node: Block, key: int, insert: int, pivot: int, split: int, la: int,
                      ra: int)
    requires Fits(c, b) && !b.leaf && FullInner(c, node) && split == c.order / 2
    requires split < insert < c.order && pivot == insert - split - 1
    requires h == RightHead(c, b, node, key, pivot, split)
    ensures var o := RightRest(c, h.(sub := h.sub[pivot := la][pivot + 1 := ra]), node, insert, pivot, split);
      && o.children == c.order - split && pivot + 1 < o.children && o.sub[pivot] == la && o.sub[pivot + 1] == ra
      && (forall i {:trigger o.sub[i]} :: 0 <= i < pivot ==> o.sub[i] == node.sub[split + 1 + i])
      && (forall i {:trigger o.sub[i]} :: pivot + 2 <= i < o.children ==> o.sub[i] == node.sub[split + i])
  {
    hide Memmove;
  }

  method NonLeafSplitRight2(t: Tree, node: int, right: int, l: int, r: int, key: int, insert: int, split: int)
      returns (splitKey: int)
    requires Splittable(t, node, right, insert) && PairLoaded(t, node, right, l, r)
    requires t.cache[node].self in t.D && View(t.c, t.cache[node]) == t.D[t.cache[node].self]
    requires t.held == {t.cache[node].self, t.cache[l].self, t.cache[r].self}
    requires split == t.c.order / 2 && split < insert < t.c.order
    modifies t`cache, t`used, t`held, t`disk, t`D, t`fileSize, t`free, t`blocks
    ensures t.Inv() && t.cache[node].self == old(t.cache)[node].self
    ensures Parted(t, old(With(t, l, r)), node, right, old(t.cache)[l].self, old(t.cache)[r].self, key, insert,
                   split + 1, splitKey, false)
  {
    hide Tree.Buffers, Tree.OnDisk, Tree.Allocation, Count, RightHead, RightRest, AdoptAll, Halved, View, Kept, Memmove;
    hide Halves, Grown;
    ghost var c, D, la, ra, pivot := t.c, t.D, t.cache[l].self, t.cache[r].self, insert - split - 1;
    RightNodeAdd(t, node, right);
    KeptAt(t.used, old(t.cache), t.cache, node, right, l);
    KeptAt(t.used, old(t.cache), t.cache, node, right, r);
    ghost var b0, n1, b := old(t.cache)[node], t.cache[node], t.cache[right];
    splitKey := t.cache[node].key[split];
    SplitRight2Place(t, node, right, l, r, key, insert, split);
    ghost var h := RightHead(c, b, n1, key, pivot, split);
    RightRestSubs(c, b, h, n1, key, insert, pivot, split, la, ra);
    Right2Halves(c, b0, n1, b, h, t.cache[node], t.cache[right], key, insert, pivot, split, la, ra);
    forall i | 0 <= i < t.cache[right].children && i != pivot && i != pivot + 1
      ensures Copied(b0, t.cache[right], insert, i)
    {
      assert b0.sub[if i < pivot then split + 1 + i else split + i] == t.cache[right].sub[i];
    }
    FinishRight(t, node, right, 0, insert - split - 1, D, b0, la, View(c, old(t.cache)[l]), ra,
                View(c, old(t.cache)[r]),
                key, insert, split + 1, splitKey);
  }
}
