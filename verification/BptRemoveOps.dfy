/** Deleting upwards: non_leaf_remove, from a freed child to the root. */
module BptRemoveOps {
  import opened BptLevels
  import opened BptShape
  import opened BptBlock
  import opened BptDisk
  import opened BptLinks
  import opened BptEdit
  import opened BptRemoveEdit
  import opened BptSplit
  import opened BptShrink

  // ---------------------------------------------------------------- the node, its siblings and its parent

  ghost predicate OpenOrNull(t: Tree, i: int, a: int)
    reads t
  {
    if a == INVALID then i == -1 else Open(t, i, a)
  }

  ghost function Opt(a: int): set<int> {
    if a == INVALID then {} else {a}
  }

  // A node, its neighbours and its parent are in buffers, unchanged.
  ghost predicate Family(t: Tree, node: int, l: int, r: int, parent: int, n: int, la: int, ra: int, pa: int)
    reads t
  {
    && t.Inv() && Open(t, node, n) && OpenOrNull(t, l, la) && OpenOrNull(t, r, ra) && Open(t, parent, pa)
    && node != l && node != r && node != parent && l != parent && r != parent && (l != -1 ==> l != r)
    && n != INVALID && pa != INVALID && n != la && n != ra && n != pa && la != pa && ra != pa
    && (la != INVALID ==> la != ra)
    && t.held == {n, pa} + Opt(la) + Opt(ra)
    && Count(t.used) == 2 + Bit(la != INVALID) + Bit(ra != INVALID)
  }

  method FetchFamily(t: Tree, node: int, ghost n: int) returns (l: int, r: int, parent: int)
    requires t.Inv() && Count(t.used) == 1 && Open(t, node, n) && n != INVALID && t.held == {n}
    requires var b := t.cache[node];
      && (b.prev != INVALID ==> Fetchable(t, b.prev)) && (b.next != INVALID ==> Fetchable(t, b.next))
      && b.parent != INVALID && Fetchable(t, b.parent)
      && (b.prev != INVALID ==> b.prev != b.next) && b.parent != b.prev && b.parent != b.next
    modifies t`cache, t`used, t`held
    ensures var b := old(t.cache)[node]; Family(t, node, l, r, parent, n, b.prev, b.next, b.parent)
    ensures t.cache[node] == old(t.cache)[node]
  {
    hide Tree.Buffers, Tree.OnDisk, Tree.Allocation, Count, View, Fits;
    l := t.NodeFetch(t.cache[node].prev);
    r := t.NodeFetch(t.cache[node].next);
    parent := t.NodeFetch(t.cache[node].parent);
  }

  const LEFT_SIBLING := 0
  const RIGHT_SIBLING := 1

  // The child position of the sibling chosen, for the node at position i + 1.
  function SiblingAt(i: int, s: int): int { if s == LEFT_SIBLING then i else i + 2 }

  method SiblingSelect(t: Tree, l: int, r: int, parent: int, i: int) returns (s: int)
    requires 0 <= parent < |t.cache|
    requires i != -1 && i != t.cache[parent].children - 2 ==> 0 <= l < |t.cache| && 0 <= r < |t.cache|
    ensures s == LEFT_SIBLING || s == RIGHT_SIBLING
    ensures i == -1 ==> s == RIGHT_SIBLING
    ensures i != -1 && i == t.cache[parent].children - 2 ==> s == LEFT_SIBLING
    ensures -1 <= i < t.cache[parent].children - 1 && t.cache[parent].children >= 2 ==>
      0 <= SiblingAt(i, s) < t.cache[parent].children && (SiblingAt(i, s) == i || SiblingAt(i, s) == i + 2)
    ensures i != -1 && i != t.cache[parent].children - 2 ==>
      (s == LEFT_SIBLING <==> t.cache[l].children >= t.cache[r].children)
  {
    if i == -1 {
      return RIGHT_SIBLING;
    } else if i == t.cache[parent].children - 2 {
      return LEFT_SIBLING;
    } else {
      return if t.cache[l].children >= t.cache[r].children then LEFT_SIBLING else RIGHT_SIBLING;
    }
  }

  // ---------------------------------------------------------------- the four ways

  // Flushes a sibling that was only looked at.
  method FlushBack(t: Tree, i: int, ghost a: int)
    requires t.Inv() && OpenOrNull(t, i, a)
    modifies t`disk, t`used, t`held, t`D
    ensures t.Inv() && t.D == old(t.D) && t.held == old(t.held) - Opt(a)
    ensures t.used == Unused(old(t.used), i) && Count(t.used) == Count(old(t.used)) - Bit(a != INVALID)
  {
    hide Tree.Buffers, Tree.OnDisk, Tree.Allocation, Count, View, Fits;
    t.NodeFlush(i);
  }

  // The last child of the left sibling moves over, through the parent's separator.
  method NonLeafShiftFromLeft(t: Tree, node: int, l: int, parent: int, i: int, remove: int)
    requires t.Inv() && Loaded(t, node) && Loaded(t, l) && Loaded(t, parent) && node != l && node != parent
    requires l != parent
    requires !t.cache[node].leaf && !t.cache[l].leaf && !t.cache[parent].leaf && Count(t.used) < MIN_CACHE_NUM
    requires 0 <= remove < t.cache[node].children - 1 && t.cache[l].children >= 2
    requires 0 <= i < t.cache[parent].children - 1
    requires Fetchable(t, t.cache[l].sub[t.cache[l].children - 1])
    modifies t`cache, t`used, t`held, t`disk, t`D
    ensures t.Inv() && t.used == old(t.used) && t.held == old(t.held)
    ensures forall k :: 0 <= k < MIN_CACHE_NUM && t.used[k] && k != node && k != l && k != parent ==>
      t.cache[k] == old(t.cache)[k]
    ensures var b, left, p := old(t.cache)[node], old(t.cache)[l], old(t.cache)[parent];
      && t.cache[node] == TakeFromLeft(t.c, b, p.key[i], left.sub[left.children - 1], remove)
      && t.cache[l] == left.(children := left.children - 1)
      && t.cache[parent] == p.(key := p.key[i := left.key[left.children - 2]])
    ensures var s := old(t.cache)[l].sub[old(t.cache)[l].children - 1];
      t.D == old(t.D)[s := old(t.D)[s].(parent := old(t.cache)[node].self)]
  {
    hide Tree.Buffers, Tree.OnDisk, Tree.Allocation, Count, View, Memmove, TakeFromLeft;
    var b, left, p := t.cache[node], t.cache[l], t.cache[parent];
    t.Write(node, TakeFromLeft(t.c, b, p.key[i], left.sub[left.children - 1], remove));
    t.Write(parent, p.(key := p.key[i := left.key[left.children - 2]]));
    SubNodeFlush(t, node, left.sub[left.children - 1]);
    t.Write(l, left.(children := left.children - 1));
  }

  method BorrowLeft(t: Tree, node: int, l: int, r: int, parent: int, i: int, remove: int,
                    ghost n: int, ghost la: int, ghost ra: int, ghost pa: int)
    requires Family(t, node, l, r, parent, n, la, ra, pa) && la != INVALID
    requires !t.cache[node].leaf && !t.cache[l].leaf && !t.cache[parent].leaf
    requires 0 <= remove < t.cache[node].children - 1 && t.cache[l].children >= 2
    requires 0 <= i < t.cache[parent].children - 1
    requires Fetchable(t, t.cache[l].sub[t.cache[l].children - 1])
    modifies t`cache, t`used, t`held, t`disk, t`D
    ensures t.Inv() && Count(t.used) == 0 && t.held == {}
    ensures var X := old(t.D);
      && 0 < |X[la].key| && 0 < |X[la].val| && remove < |X[n].key| && remove + 1 < |X[n].val| && i < |X[pa].key|
      && var s, sep := X[la].val[|X[la].val| - 1], X[la].key[|X[la].key| - 1];
      && s in X
      && t.D == X[s := X[s].(parent := n)]
                 [n := X[n].(key := [X[pa].key[i]] + Drop(X[n].key, remove), val := [s] + Drop(X[n].val, remove + 1))]
                 [la := X[la].(key := X[la].key[..|X[la].key| - 1], val := X[la].val[..|X[la].val| - 1])]
                 [pa := X[pa].(key := X[pa].key[i := sep])]
  {
    hide Tree.Buffers, Tree.OnDisk, Tree.Allocation, Count, View, Memmove, Drop, TakeFromLeft, Fits;
    ghost var b, left, p := t.cache[node], t.cache[l], t.cache[parent];
    ViewInner(t.c, b);
    ViewInner(t.c, left);
    ViewInner(t.c, p);
    FitsInner(t.c, left);
    FitsInner(t.c, p);
    NonLeafShiftFromLeft(t, node, l, parent, i, remove);
    TakeFromLeftView(t.c, b, p.key[i], left.sub[left.children - 1], remove);
    SetKeyView(t.c, p, i, left.key[left.children - 2]);
    LessOneView(t.c, left);
    t.NodeFlush(node);
    t.NodeFlush(l);
    FlushBack(t, r, ra);
    t.NodeFlush(parent);
  }

  lemma FitsInner(c: Cfg, b: Block)
    requires Fits(c, b) && !b.leaf
    ensures |b.key| == c.order - 1 && |b.sub| == c.order && 0 <= b.children <= c.order
  {
  }

  // The first child of the right sibling moves over.
  method NonLeafShiftFromRight(t: Tree, node: int, r: int, parent: int, i: int)
    requires t.Inv() && Loaded(t, node) && Loaded(t, r) && Loaded(t, parent) && node != r && node != parent
    requires r != parent
    requires !t.cache[node].leaf && !t.cache[r].leaf && !t.cache[parent].leaf && Count(t.used) < MIN_CACHE_NUM
    requires 1 <= t.cache[node].children < t.c.order && t.cache[r].children >= 2
    requires 0 <= i < t.cache[parent].children - 1
    requires Fetchable(t, t.cache[r].sub[0])
    modifies t`cache, t`used, t`held, t`disk, t`D
    ensures t.Inv() && t.used == old(t.used) && t.held == old(t.held)
    ensures forall k :: 0 <= k < MIN_CACHE_NUM && t.used[k] && k != node && k != r && k != parent ==>
      t.cache[k] == old(t.cache)[k]
    ensures var b, right, p := old(t.cache)[node], old(t.cache)[r], old(t.cache)[parent];
      && t.cache[node] == TakeFromRight(t.c, b, p.key[i], right.sub[0])
      && t.cache[r] == GiveFirst(t.c, right)
      && t.cache[parent] == p.(key := p.key[i := right.key[0]])
    ensures var s := old(t.cache)[r].sub[0];
      t.D == old(t.D)[s := old(t.D)[s].(parent := old(t.cache)[node].self)]
  {
    hide Tree.Buffers, Tree.OnDisk, Tree.Allocation, Count, View, Memmove, TakeFromRight, GiveFirst;
    var b, right, p := t.cache[node], t.cache[r], t.cache[parent];
    t.Write(node, TakeFromRight(t.c, b, p.key[i], right.sub[0]));
    t.Write(parent, p.(key := p.key[i := right.key[0]]));
    SubNodeFlush(t, node, right.sub[0]);
    t.Write(r, GiveFirst(t.c, t.cache[r]));
  }

  method BorrowRight(t: Tree, node: int, l: int, r: int, parent: int, i: int, remove: int,
                     ghost n: int, ghost la: int, ghost ra: int, ghost pa: int)
    requires Family(t, node, l, r, parent, n, la, ra, pa) && ra != INVALID
    requires !t.cache[node].leaf && !t.cache[r].leaf && !t.cache[parent].leaf
    requires 0 <= remove < t.cache[node].children - 1 && t.cache[r].children >= 2
    requires 0 <= i < t.cache[parent].children - 1
    requires Fetchable(t, t.cache[r].sub[0])
    modifies t`cache, t`used, t`held, t`disk, t`D
    ensures t.Inv() && Count(t.used) == 0 && t.held == {}
    ensures var X := old(t.D);
      && 0 < |X[ra].key| && 0 < |X[ra].val| && remove < |X[n].key| && remove + 1 < |X[n].val| && i < |X[pa].key|
      && var s := X[ra].val[0];
      && s in X
      && t.D == X[s := X[s].(parent := n)]
                 [n := X[n].(key := Drop(X[n].key, remove) + [X[pa].key[i]], val := Drop(X[n].val, remove + 1) + [s])]
                 [ra := X[ra].(key := X[ra].key[1..], val := X[ra].val[1..])]
                 [pa := X[pa].(key := X[pa].key[i := X[ra].key[0]])]
  {
    hide Tree.Buffers, Tree.OnDisk, Tree.Allocation, Count, View, Memmove, Drop, TakeFromRight, GiveFirst, SimpleRemove;
    hide Fits;
    ghost var b, right, p := t.cache[node], t.cache[r], t.cache[parent];
    ViewInner(t.c, b);
    ViewInner(t.c, right);
    ViewInner(t.c, p);
    FitsInner(t.c, b);
    FitsInner(t.c, right);
    FitsInner(t.c, p);
    t.Write(node, SimpleRemove(t.c, t.cache[node], remove));
    ghost var b1 := t.cache[node];
    SimpleRemoveView(t.c, b, remove);
    NonLeafShiftFromRight(t, node, r, parent, i);
    TakeFromRightView(t.c, b1, p.key[i], right.sub[0]);
    SetKeyView(t.c, p, i, right.key[0]);
    GiveFirstView(t.c, right);
    t.NodeFlush(node);
    FlushBack(t, l, la);
    t.NodeFlush(r);
    t.NodeFlush(parent);
  }

  // ---------------------------------------------------------------- merges

  lemma MergeEffectIntro(X: Image, Y: Image, S: set<int>, a: int, va: Node, b: int, kids: seq<int>, nx: int, vx: Node)
    requires a in X && b in X && a != b && INVALID !in X
    requires a !in S && b !in S && nx !in S && nx == X[b].next && nx != a && nx != b
    requires nx != INVALID ==> nx in X && vx == X[nx]
    requires forall z :: z in X ==> (z in S <==> z in kids)
    requires va == X[a].(key := va.key, val := va.val, next := va.next)
    requires Y == Bypass(AdoptAll(X, S, a), a, va, nx, vx) - {b}
    ensures MergeEffect(X, Y, a, b, kids)
  {
  }

  // The node's children, all but the dead one, join the left sibling.
  method NonLeafMergeIntoLeft(t: Tree, node: int, l: int, parent: int, i: int, remove: int) returns (ghost S: set<int>)
    requires t.Inv() && Loaded(t, node) && Loaded(t, l) && Loaded(t, parent) && node != l && node != parent
    requires l != parent
    requires !t.cache[node].leaf && !t.cache[l].leaf && !t.cache[parent].leaf && Count(t.used) < MIN_CACHE_NUM
    requires 0 <= remove < t.cache[node].children - 1 && 1 <= t.cache[l].children
    requires 0 <= i < t.cache[parent].children - 1
    requires t.cache[l].children + t.cache[node].children - 1 <= t.c.order
    requires forall q :: 0 <= q < t.cache[node].children && q != remove + 1 ==> Fetchable(t, t.cache[node].sub[q])
    modifies t`cache, t`used, t`held, t`disk, t`D
    ensures t.Inv() && t.used == old(t.used) && t.held == old(t.held) && Kept(t.used, old(t.cache), t.cache, l, -1)
    ensures t.cache[l] == MergeInto(t.c, old(t.cache)[l], old(t.cache)[node], old(t.cache)[parent].key[i], remove)
    ensures forall q :: 0 <= q < old(t.cache)[node].children && q != remove + 1 ==> old(t.cache)[node].sub[q] in S
    ensures forall s :: s in S ==>
      exists q :: 0 <= q < old(t.cache)[node].children && q != remove + 1 && old(t.cache)[node].sub[q] == s
    ensures t.D == AdoptAll(old(t.D), S, old(t.cache)[l].self)
  {
    hide Tree.Buffers, Tree.OnDisk, Tree.Allocation, Count, View, Memmove, MergeInto, AdoptAll;
    var b, left, p := t.cache[node], t.cache[l], t.cache[parent];
    t.Write(l, MergeInto(t.c, left, b, p.key[i], remove));
    MergeIntoSubs(t.c, left, b, p.key[i], remove);
    ghost var m := t.cache[l].sub;
    S := FlushSubs(t, l, left.children, left.children + b.children - 1, -2);
    forall q | 0 <= q < b.children && q != remove + 1 ensures b.sub[q] in S {
      assert m[left.children + if q <= remove then q else q - 1] == b.sub[q];
    }
    forall s | s in S ensures exists q :: 0 <= q < b.children && q != remove + 1 && b.sub[q] == s {
      var k :| left.children <= k < left.children + b.children - 1 && m[k] == s;
      var q := if k - left.children <= remove then k - left.children else k - left.children + 1;
      assert b.sub[q] == s;
    }
  }

  lemma MergeIntoSubs(c: Cfg, left: Block, node: Block, pk: int, remove: int)
    requires Fits(c, left) && !left.leaf && Fits(c, node) && !node.leaf && left.children >= 1
    requires 0 <= remove < node.children - 1 && left.children + node.children - 1 <= c.order
    ensures var m := MergeInto(c, left, node, pk, remove).sub;
      && |m| == c.order
      && (forall k {:trigger m[k]} :: left.children <= k <= left.children + remove ==>
            m[k] == node.sub[k - left.children])
      && (forall k {:trigger m[k]} :: left.children + remove < k < left.children + node.children - 1 ==>
            m[k] == node.sub[k - left.children + 1])
  {
    hide Memmove;
  }

  // The members of S are the node's children that are still there.
  lemma KidsSet(X: Image, sub: seq<int>, n: int, dead: int, S: set<int>)
    requires 0 <= dead < n <= |sub| && sub[dead] !in X
    requires forall q :: 0 <= q < n && q != dead ==> sub[q] in S
    requires forall s :: s in S ==> exists q :: 0 <= q < n && q != dead && sub[q] == s
    ensures forall z :: z in X ==> (z in S <==> z in sub[..n])
  {
    var V := sub[..n];
    forall z | z in X ensures z in S <==> z in V {
      if z in S {
        var q :| 0 <= q < n && q != dead && sub[q] == z;
        assert V[q] == z;
      }
      if z in V {
        var q :| 0 <= q < n && V[q] == z;
        assert sub[q] == z;
      }
    }
  }

  method JoinLeft(t: Tree, node: int, l: int, r: int, parent: int, i: int, remove: int,
                  ghost n: int, ghost la: int, ghost ra: int, ghost pa: int)
    requires Family(t, node, l, r, parent, n, la, ra, pa) && la != INVALID && t.D[n].next == ra
    requires !t.cache[node].leaf && !t.cache[l].leaf && !t.cache[parent].leaf
    requires 0 <= remove < t.cache[node].children - 1 && 1 <= t.cache[l].children
    requires 0 <= i < t.cache[parent].children - 1
    requires t.cache[l].children + t.cache[node].children - 1 <= t.c.order
    requires forall q :: 0 <= q < t.cache[node].children && q != remove + 1 ==> Fetchable(t, t.cache[node].sub[q])
    requires t.cache[node].sub[remove + 1] !in t.D
    modifies t`cache, t`used, t`held, t`disk, t`D, t`free
    ensures t.Inv() && Count(t.used) == 1 && t.held == {pa} && Open(t, parent, pa)
    ensures t.cache[parent] == old(t.cache)[parent]
    ensures var X := old(t.D);
      && remove < |X[n].key| && remove + 1 < |X[n].val| && i < |X[pa].key|
      && MergeEffect(X, t.D, la, n, X[n].val)
      && t.D[la].key == X[la].key + [X[pa].key[i]] + Drop(X[n].key, remove)
      && t.D[la].val == X[la].val + Drop(X[n].val, remove + 1)
  {
    hide Tree.Buffers, Tree.OnDisk, Tree.Allocation, Count, View, Memmove, MergeInto, AdoptAll, Drop, Fits, MergeEffect;
    ghost var X, b, left, p := t.D, t.cache[node], t.cache[l], t.cache[parent];
    ViewInner(t.c, b);
    ViewInner(t.c, left);
    ViewInner(t.c, p);
    FitsInner(t.c, b);
    FitsInner(t.c, p);
    ghost var S := NonLeafMergeIntoLeft(t, node, l, parent, i, remove);
    MergeIntoView(t.c, left, b, p.key[i], remove);
    ghost var vl, vr := NodeOf(t, l), NodeOf(t, r);
    NodeDelete(t, node, l, r);
    KidsSet(X, b.sub, b.children, remove + 1, S);
    MergeEffectIntro(X, t.D, S, la, vl, n, X[n].val, ra, vr);
    MergedOpen(X, t.D, S, la, vl, n, ra, vr, pa);
  }

  // The parent is not touched by the merge below it.
  lemma MergedOpen(X: Image, Y: Image, S: set<int>, a: int, va: Node, b: int, nx: int, vx: Node, pa: int)
    requires pa in X && pa !in S && pa != a && pa != b && pa != nx && a != INVALID && a != b && a != nx
    requires Y == Bypass(AdoptAll(X, S, a), a, va, nx, vx) - {b}
    ensures pa in Y && Y[pa] == X[pa] && a in Y && Y[a] == va.(next := nx)
  {
  }

  // The right sibling's children join the node.
  method NonLeafMergeFromRight(t: Tree, node: int, r: int, parent: int, i: int) returns (ghost S: set<int>)
    requires t.Inv() && Loaded(t, node) && Loaded(t, r) && Loaded(t, parent) && node != r && node != parent
    requires r != parent
    requires !t.cache[node].leaf && !t.cache[r].leaf && !t.cache[parent].leaf && Count(t.used) < MIN_CACHE_NUM
    requires 1 <= t.cache[node].children && 1 <= t.cache[r].children && 0 <= i < t.cache[parent].children - 1
    requires t.cache[node].children + t.cache[r].children <= t.c.order
    requires forall q :: 0 <= q < t.cache[r].children ==> Fetchable(t, t.cache[r].sub[q])
    modifies t`cache, t`used, t`held, t`disk, t`D
    ensures t.Inv() && t.used == old(t.used) && t.held == old(t.held) && Kept(t.used, old(t.cache), t.cache, node, -1)
    ensures t.cache[node] == MergeFrom(t.c, old(t.cache)[node], old(t.cache)[r], old(t.cache)[parent].key[i])
    ensures forall z :: z in S <==> z in old(t.cache)[r].sub[..old(t.cache)[r].children]
    ensures t.D == AdoptAll(old(t.D), S, old(t.cache)[node].self)
  {
    hide Tree.Buffers, Tree.OnDisk, Tree.Allocation, Count, View, Memmove, MergeFrom, AdoptAll;
    var b, right, p := t.cache[node], t.cache[r], t.cache[parent];
    t.Write(node, MergeFrom(t.c, b, right, p.key[i]));
    MergeFromSubs(t.c, b, right, p.key[i]);
    ghost var m, V := t.cache[node].sub, right.sub[..right.children];
    S := FlushSubs(t, node, b.children, b.children + right.children, -2);
    forall z | z in V ensures z in S {
      var q :| 0 <= q < |V| && V[q] == z;
      assert m[b.children + q] == z;
    }
    forall z | z in S ensures z in V {
      var k :| b.children <= k < b.children + right.children && m[k] == z;
      assert V[k - b.children] == z;
    }
  }

  lemma MergeFromSubs(c: Cfg, node: Block, right: Block, pk: int)
    requires Fits(c, node) && !node.leaf && Fits(c, right) && !right.leaf && node.children >= 1 && right.children >= 1
    requires node.children + right.children <= c.order
    ensures var m := MergeFrom(c, node, right, pk).sub;
      && |m| == c.order
      && (forall k {:trigger m[k]} :: node.children <= k < node.children + right.children ==>
            m[k] == right.sub[k - node.children])
  {
    hide Memmove;
  }

  method JoinRight(t: Tree, node: int, l: int, r: int, parent: int, i: int, remove: int,
                   ghost n: int, ghost la: int, ghost ra: int, ghost pa: int)
    requires Family(t, node, l, r, parent, n, la, ra, pa) && ra != INVALID
    requires !t.cache[node].leaf && !t.cache[r].leaf && !t.cache[parent].leaf
    requires 0 <= remove < t.cache[node].children - 1 && 1 <= t.cache[r].children
    requires 0 <= i < t.cache[parent].children - 1
    requires t.cache[node].children - 1 + t.cache[r].children <= t.c.order
    requires forall q :: 0 <= q < t.cache[r].children ==> Fetchable(t, t.cache[r].sub[q])
    requires t.cache[r].next != INVALID ==>
      Fetchable(t, t.cache[r].next) && t.cache[r].next !in t.cache[r].sub[..t.cache[r].children]
    modifies t`cache, t`used, t`held, t`disk, t`D, t`free
    ensures t.Inv() && Count(t.used) == 1 && t.held == {pa} && Open(t, parent, pa)
    ensures t.cache[parent] == old(t.cache)[parent]
    ensures var X := old(t.D);
      && remove < |X[n].key| && remove + 1 < |X[n].val| && i < |X[pa].key|
      && MergeEffect(X, t.D, n, ra, X[ra].val)
      && t.D[n].key == Drop(X[n].key, remove) + [X[pa].key[i]] + X[ra].key
      && t.D[n].val == Drop(X[n].val, remove + 1) + X[ra].val
  {
    hide Tree.Buffers, Tree.OnDisk, Tree.Allocation, Count, View, Memmove, MergeFrom, SimpleRemove, AdoptAll, Drop;
    hide Fits, MergeEffect;
    ghost var X, rra := t.D, t.cache[r].next;
    ViewInner(t.c, t.cache[node]);
    ViewInner(t.c, t.cache[r]);
    ViewInner(t.c, t.cache[parent]);
    FitsInner(t.c, t.cache[parent]);
    ghost var S := RemoveAndMerge(t, node, r, parent, i, remove);
    SurvivesAdoption(X, S, n, rra, la);
    ghost var vn := NodeOf(t, node);
    ghost var vr := CutRight(t, node, r);
    MergeEffectIntro(X, t.D, S, n, vn, ra, X[ra].val, rra, vr);
    MergedOpen(X, t.D, S, n, vn, ra, rra, vr, pa);
    if la != INVALID {
      MergedOpen(X, t.D, S, n, vn, ra, rra, vr, la);
    }
    FlushBack(t, l, la);
  }

  // Frees the right neighbour, with the neighbour after it read in to be linked past it.
  method CutRight(t: Tree, node: int, r: int) returns (ghost vr: Node)
    requires t.Inv() && Count(t.used) < MIN_CACHE_NUM && Loaded(t, node) && Loaded(t, r) && node != r
    requires t.cache[r].next != INVALID ==> Fetchable(t, t.cache[r].next)
    modifies t`cache, t`used, t`held, t`disk, t`D, t`free
    ensures t.Inv() && Kept(t.used, old(t.cache), t.cache, -1, -1) && Count(t.used) == Count(old(t.used)) - 2
    ensures t.used == old(t.used)[r := false][node := false]
    ensures t.held == old(t.held) - {old(t.cache)[node].self, old(t.cache)[r].self}
    ensures var rra := old(t.cache)[r].next;
      && (rra != INVALID ==> rra in old(t.D) && vr == old(t.D)[rra])
      && t.D == Bypass(old(t.D), old(t.cache)[node].self, View(t.c, old(t.cache)[node]), rra, vr)
                - {old(t.cache)[r].self}
  {
    hide Tree.Buffers, Tree.OnDisk, Tree.Allocation, Count, View, Fits, Bypass;
    var rr := t.NodeFetch(t.cache[r].next);
    vr := NodeOf(t, rr);
    NodeDelete(t, r, node, rr);
  }

  lemma SurvivesAdoption(X: Image, S: set<int>, p: int, a: int, b: int)
    requires a != INVALID ==> a in X && a !in S
    requires b != INVALID ==> b in X && b !in S
    ensures a != INVALID ==> a in AdoptAll(X, S, p) && AdoptAll(X, S, p)[a] == X[a]
    ensures b != INVALID ==> b in AdoptAll(X, S, p) && AdoptAll(X, S, p)[b] == X[b]
  {
  }

  // The dead child goes first, then the right sibling's children come in.
  method RemoveAndMerge(t: Tree, node: int, r: int, parent: int, i: int, remove: int) returns (ghost S: set<int>)
    requires t.Inv() && Loaded(t, node) && Loaded(t, r) && Loaded(t, parent) && node != r && node != parent
    requires r != parent
    requires !t.cache[node].leaf && !t.cache[r].leaf && !t.cache[parent].leaf && Count(t.used) < MIN_CACHE_NUM
    requires 0 <= remove < t.cache[node].children - 1 && 1 <= t.cache[r].children
    requires 0 <= i < t.cache[parent].children - 1
    requires t.cache[node].children - 1 + t.cache[r].children <= t.c.order
    requires forall q :: 0 <= q < t.cache[r].children ==> Fetchable(t, t.cache[r].sub[q])
    modifies t`cache, t`used, t`held, t`disk, t`D
    ensures t.Inv() && t.used == old(t.used) && t.held == old(t.held) && Kept(t.used, old(t.cache), t.cache, node, -1)
    ensures var v, w := View(t.c, old(t.cache)[node]), View(t.c, old(t.cache)[r]);
      && remove < |v.key| && remove + 1 < |v.val| && i < |View(t.c, old(t.cache)[parent]).key|
      && View(t.c, t.cache[node]) == v.(key := Drop(v.key, remove) + [View(t.c, old(t.cache)[parent]).key[i]] + w.key,
                                        val := Drop(v.val, remove + 1) + w.val)
      && (forall z :: z in S <==> z in w.val)
    ensures t.cache[node].self == old(t.cache)[node].self && Loaded(t, node)
    ensures t.D == AdoptAll(old(t.D), S, old(t.cache)[node].self)
  {
    hide Tree.Buffers, Tree.OnDisk, Tree.Allocation, Count, View, Memmove, MergeFrom, SimpleRemove, AdoptAll, Drop;
    hide Fits;
    ghost var b, right, p := t.cache[node], t.cache[r], t.cache[parent];
    ViewInner(t.c, b);
    ViewInner(t.c, right);
    ViewInner(t.c, p);
    FitsInner(t.c, p);
    t.Write(node, SimpleRemove(t.c, t.cache[node], remove));
    SimpleRemoveView(t.c, b, remove);
    ghost var b1 := t.cache[node];
    S := NonLeafMergeFromRight(t, node, r, parent, i);
    MergeFromView(t.c, b1, right, p.key[i]);
  }
}
