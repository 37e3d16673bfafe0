/** Steps shared by insertion and deletion: sibling links and parent pointers on disk. */
module BptLinks {
  import opened BptLevels
  import opened BptBlock
  import opened BptDisk

  // The buffers in use, other than a and b, keep what they hold.
  ghost predicate Kept(used: seq<bool>, before: seq<Block>, after: seq<Block>, a: int, b: int) {
    && |used| == |before| == |after|
    && forall k :: 0 <= k < |used| && used[k] && k != a && k != b ==> after[k] == before[k]
  }

  // Where a block may be fetched: on disk, under its own address, and in no buffer.
  ghost predicate Fetchable(t: Tree, a: int)
    reads t
  {
    a in t.D && t.D[a].self == a && a !in t.held
  }

  method SubNodeFlush(t: Tree, parent: int, a: int)
    requires t.Inv() && Count(t.used) < MIN_CACHE_NUM && Fetchable(t, a)
    requires 0 <= parent < MIN_CACHE_NUM && t.used[parent]
    modifies t`cache, t`used, t`held, t`disk, t`D
    ensures t.Inv() && t.used == old(t.used) && t.held == old(t.held)
    ensures Kept(t.used, old(t.cache), t.cache, -1, -1)
    ensures t.D == old(t.D)[a := old(t.D)[a].(parent := t.cache[parent].self)]
  {
    hide Tree.Buffers, Tree.OnDisk, Tree.Allocation, Count, View, Fits;
    var i := t.NodeFetch(a);
    var p := t.cache[parent].self;
    t.SetParent(i, p);
    t.NodeFlush(i);
  }

  // X with the blocks in S made children of p.
  ghost function AdoptAll(X: Image, S: set<int>, p: int): Image {
    map a | a in X :: if a in S then X[a].(parent := p) else X[a]
  }

  // Points the children lo..hi of a node back to it, on disk, passing over skip and skip + 1.
  method FlushSubs(t: Tree, node: int, lo: int, hi: int, skip: int) returns (ghost S: set<int>)
    requires t.Inv() && Count(t.used) < MIN_CACHE_NUM
    requires 0 <= node < MIN_CACHE_NUM && t.used[node] && 0 <= lo <= hi <= |t.cache[node].sub|
    requires forall i :: lo <= i < hi && i != skip && i != skip + 1 ==> Fetchable(t, t.cache[node].sub[i])
    modifies t`cache, t`used, t`held, t`disk, t`D
    ensures t.Inv() && t.used == old(t.used) && t.held == old(t.held)
    ensures Kept(t.used, old(t.cache), t.cache, -1, -1)
    ensures forall i :: lo <= i < hi && i != skip && i != skip + 1 ==> t.cache[node].sub[i] in S
    ensures forall s :: s in S ==> exists i :: lo <= i < hi && i != skip && i != skip + 1 && t.cache[node].sub[i] == s
    ensures t.D == AdoptAll(old(t.D), S, t.cache[node].self)
  {
    hide Tree.Buffers, Tree.OnDisk, Tree.Allocation, Count, View, Fits;
    ghost var X, sub, p := t.D, t.cache[node].sub, t.cache[node].self;
    S := {};
    var i := lo;
    assert t.D == AdoptAll(X, S, p);
    while i < hi
      invariant lo <= i <= hi
      invariant t.Inv() && t.used == old(t.used) && t.held == old(t.held)
      invariant Kept(t.used, old(t.cache), t.cache, -1, -1)
      invariant forall k :: lo <= k < i && k != skip && k != skip + 1 ==> sub[k] in S
      invariant forall s :: s in S ==> exists k :: lo <= k < i && k != skip && k != skip + 1 && sub[k] == s
      invariant t.D == AdoptAll(X, S, p)
    {
      if i != skip && i != skip + 1 {
        AdoptMore(X, S, p, sub[i]);
        SubNodeFlush(t, node, t.cache[node].sub[i]);
        S := S + {sub[i]};
      }
      i := i + 1;
    }
  }

  lemma AdoptMore(X: Image, S: set<int>, p: int, a: int)
    requires a in X
    ensures a in AdoptAll(X, S, p) && AdoptAll(X, S, p)[a].self == X[a].self
    ensures AdoptAll(X, S, p)[a := AdoptAll(X, S, p)[a].(parent := p)] == AdoptAll(X, S + {a}, p)
  {
  }

  // Links a new node in on the left of node.
  method LeftNodeAdd(t: Tree, node: int, left: int)
    requires t.Inv() && Count(t.used) < MIN_CACHE_NUM
    requires 0 <= node < MIN_CACHE_NUM && t.used[node] && t.cache[node].self != INVALID
    requires 0 <= left < MIN_CACHE_NUM && t.used[left] && t.cache[left].self == INVALID
    requires t.cache[node].prev != INVALID ==> Fetchable(t, t.cache[node].prev)
    modifies t`cache, t`used, t`held, t`disk, t`D, t`fileSize, t`free, t`blocks
    ensures t.Inv() && t.used == old(t.used)
    ensures Kept(t.used, old(t.cache), t.cache, node, left)
    ensures t.cache[left].self != INVALID && t.cache[left].self !in old(t.D) && t.cache[left].self !in old(t.held)
    ensures t.held == old(t.held) + {t.cache[left].self}
    ensures t.cache[left] ==
      old(t.cache)[left].(self := t.cache[left].self, prev := old(t.cache)[node].prev, next := t.cache[node].self)
    ensures t.cache[node] == old(t.cache)[node].(prev := t.cache[left].self)
    ensures t.D == var p := old(t.cache)[node].prev;
      if p == INVALID then old(t.D) else old(t.D)[p := old(t.D)[p].(next := t.cache[left].self)]
  {
    hide Tree.Buffers, Tree.OnDisk, Tree.Allocation, Count, View, Fits;
    var a := t.NewNodeAppend(left);
    var prev := t.NodeFetch(t.cache[node].prev);
    if prev != -1 {
      t.SetNext(prev, a);
      t.SetPrev(left, t.cache[prev].self);
      t.NodeFlush(prev);
    } else {
      t.SetPrev(left, INVALID);
    }
    t.SetNext(left, t.cache[node].self);
    t.SetPrev(node, t.cache[left].self);
  }

  // Links a new node in on the right of node.
  method RightNodeAdd(t: Tree, node: int, right: int)
    requires t.Inv() && Count(t.used) < MIN_CACHE_NUM
    requires 0 <= node < MIN_CACHE_NUM && t.used[node] && t.cache[node].self != INVALID
    requires 0 <= right < MIN_CACHE_NUM && t.used[right] && t.cache[right].self == INVALID
    requires t.cache[node].next != INVALID ==> Fetchable(t, t.cache[node].next)
    modifies t`cache, t`used, t`held, t`disk, t`D, t`fileSize, t`free, t`blocks
    ensures t.Inv() && t.used == old(t.used)
    ensures Kept(t.used, old(t.cache), t.cache, node, right)
    ensures t.cache[right].self != INVALID && t.cache[right].self !in old(t.D) && t.cache[right].self !in old(t.held)
    ensures t.held == old(t.held) + {t.cache[right].self}
    ensures t.cache[right] ==
      old(t.cache)[right].(self := t.cache[right].self, prev := t.cache[node].self, next := old(t.cache)[node].next)
    ensures t.cache[node] == old(t.cache)[node].(next := t.cache[right].self)
    ensures t.D == var p := old(t.cache)[node].next;
      if p == INVALID then old(t.D) else old(t.D)[p := old(t.D)[p].(prev := t.cache[right].self)]
  {
    hide Tree.Buffers, Tree.OnDisk, Tree.Allocation, Count, View, Fits;
    var a := t.NewNodeAppend(right);
    var next := t.NodeFetch(t.cache[node].next);
    if next != -1 {
      t.SetPrev(next, a);
      t.SetNext(right, t.cache[next].self);
      t.NodeFlush(next);
    } else {
      t.SetNext(right, INVALID);
    }
    t.SetPrev(right, t.cache[node].self);
    t.SetNext(node, t.cache[right].self);
  }

  lemma SubFits(c: Cfg, b: Block, index: int, a: int)
    requires Fits(c, b) && 0 <= index < |b.sub|
    ensures Fits(c, b.(sub := b.sub[index := a]))
  {
  }

  method SubNodeUpdate(t: Tree, parent: int, index: int, child: int)
    requires t.Inv() && 0 <= parent < MIN_CACHE_NUM && t.used[parent] && parent != child
    requires !t.cache[parent].leaf && 0 <= index < |t.cache[parent].sub|
    requires 0 <= child < MIN_CACHE_NUM && t.used[child] && t.cache[child].self != INVALID
    requires Fits(t.c, t.cache[parent]) && Fits(t.c, t.cache[child])
    modifies t`cache, t`used, t`held, t`disk, t`D
    ensures t.Inv() && t.used == old(t.used)[child := false] && Count(t.used) == Count(old(t.used)) - 1
    ensures t.held == old(t.held) - {old(t.cache)[child].self}
    ensures Kept(t.used, old(t.cache), t.cache, parent, -1)
    ensures t.cache[parent] == old(t.cache)[parent].(sub := old(t.cache)[parent].sub[index := old(t.cache)[child].self])
    ensures t.D ==
      old(t.D)[old(t.cache)[child].self := View(t.c, old(t.cache)[child]).(parent := old(t.cache)[parent].self)]
  {
    hide Tree.Buffers, Tree.OnDisk, Tree.Allocation, Count, View, Fits;
    var b := t.cache[parent];
    var b' := b.(sub := b.sub[index := t.cache[child].self]);
    assert Fits(t.c, b') by { SubFits(t.c, b, index, t.cache[child].self); }
    t.Write(parent, b');
    t.SetParent(child, t.cache[parent].self);
    t.NodeFlush(child);
  }

  // X with the neighbours la and ra of a node linked to each other; INVALID stands for no neighbour.
  ghost function Bypass(X: Image, la: int, l: Node, ra: int, r: Node): Image {
    var Y := if ra != INVALID then X[ra := r.(prev := la)] else X;
    if la != INVALID then Y[la := l.(next := ra)] else Y
  }

  ghost predicate Nullable(t: Tree, i: int)
    reads t
  {
    i == -1 || (0 <= i < |t.used| == |t.cache| && t.used[i] && t.cache[i].self != INVALID && Fits(t.c, t.cache[i]))
  }

  ghost function AddrOf(t: Tree, i: int): int
    requires Nullable(t, i)
    reads t
  {
    if i == -1 then INVALID else t.cache[i].self
  }

  ghost function NodeOf(t: Tree, i: int): Node
    requires Nullable(t, i)
    reads t
  {
    if i == -1 then Node(0, 0, 0, 0, true, [], []) else View(t.c, t.cache[i])
  }

  ghost function Unused(used: seq<bool>, i: int): seq<bool>
    requires i == -1 || 0 <= i < |used|
  {
    if i == -1 then used else used[i := false]
  }

  method LinkPast(t: Tree, left: int, right: int)
    requires t.Inv() && Nullable(t, left) && Nullable(t, right) && (left != -1 ==> left != right)
    modifies t`cache, t`used, t`held, t`disk, t`D
    ensures t.Inv() && |t.used| == |t.cache|
    ensures forall k :: 0 <= k < |t.used| && k != left && k != right ==> t.cache[k] == old(t.cache)[k]
    ensures Count(t.used) == Count(old(t.used)) - Bit(left != -1) - Bit(right != -1)
    ensures t.used == Unused(Unused(old(t.used), right), left)
    ensures t.held == old(t.held) - {old(AddrOf(t, right))} - {old(AddrOf(t, left))}
    ensures t.D ==
      Bypass(old(t.D), old(AddrOf(t, left)), old(NodeOf(t, left)), old(AddrOf(t, right)), old(NodeOf(t, right)))
  {
    hide Tree.Buffers, Tree.OnDisk, Tree.Allocation, Count, View, Fits;
    if left != -1 {
      if right != -1 {
        t.SetNext(left, t.cache[right].self);
        t.SetPrev(right, t.cache[left].self);
        t.NodeFlush(right);
      } else {
        t.SetNext(left, INVALID);
      }
      t.NodeFlush(left);
    } else {
      if right != -1 {
        t.SetPrev(right, INVALID);
        t.NodeFlush(right);
      }
    }
  }

  // Frees a node after linking its neighbours past it.
  method NodeDelete(t: Tree, node: int, left: int, right: int)
    requires t.Inv() && 0 <= node < MIN_CACHE_NUM && t.used[node] && t.cache[node].self != INVALID
    requires Nullable(t, left) && Nullable(t, right)
    requires node != left && node != right && (left != -1 ==> left != right)
    modifies t`cache, t`used, t`held, t`disk, t`D, t`free
    ensures t.Inv() && Kept(t.used, old(t.cache), t.cache, -1, -1)
    ensures Count(t.used) == Count(old(t.used)) - 1 - Bit(left != -1) - Bit(right != -1)
    ensures t.used == Unused(Unused(old(t.used), right), left)[node := false]
    ensures t.held == old(t.held) - {old(AddrOf(t, right))} - {old(AddrOf(t, left))} - {old(t.cache)[node].self}
    ensures t.D ==
      Bypass(old(t.D), old(AddrOf(t, left)), old(NodeOf(t, left)), old(AddrOf(t, right)), old(NodeOf(t, right)))
                     - {old(t.cache)[node].self}
  {
    hide Tree.Buffers, Tree.OnDisk, Tree.Allocation, Count, View, Fits, Bypass;
    LinkPast(t, left, right);
    t.Discard(node);
  }
}
