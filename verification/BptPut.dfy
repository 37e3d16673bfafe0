/** bplus_tree_get and the insert half of bplus_tree_put, over whole trees. */
module BptPut {
  import opened BptLevels
  import opened BptShape
  import opened BptInsert
  import opened BptTree
  import opened BptLeafInsert
  import opened BptBlock
  import opened BptDisk
  import opened BptLinks
  import opened BptEdit
  import opened BptLeafEdit
  import opened BptSplit
  import opened BptGrow
  import opened BptInsertOps
  import opened BptSearch
  import opened BptLeafOps

  // The map the tree stands for.
  ghost function Map(t: Tree): map<int, int>
    requires Valid(t)
    reads t
  {
    Content(t.c, t.D, t.lv, t.root)
  }

  // Buffer i holds the j-th leaf, which covers the key.
  ghost predicate AtLeaf(t: Tree, i: int, j: int, key: int)
    reads t
  {
    && t.lv != [] && 0 <= i < MIN_CACHE_NUM && |t.cache| == |t.used| == MIN_CACHE_NUM && !t.used[i]
    && 0 <= j < |t.lv[0]| && Within(t.lv[0], j, key)
    && Fits(t.c, t.cache[i]) && t.lv[0][j].a in t.D && View(t.c, t.cache[i]) == t.D[t.lv[0][j].a]
  }

  lemma LeafFacts(c: Cfg, X: Image, lv: seq<seq<Entry>>, root: int, j: int)
    requires WellFormed(c, X, lv, root) && lv != [] && 0 <= j < |lv[0]|
    ensures Leaves(c, X, lv[0], |lv| == 1) && LeafNode(c, X[lv[0][j].a], lv[0][j].a, |lv| == 1)
    ensures Ascending(X[lv[0][j].a].key)
    ensures Upper(c, X, lv[0], lv[1..], root) && X.Keys == Addrs(lv[0]) + AllAddrs(lv[1..]) && INVALID !in X
    ensures Content(c, X, lv, root) == ToMap(Flat(X, lv[0]))
  {
    hide Flat, ToMap, Upper, Linked, NoDup;
    var n, top := X[lv[0][j].a], |lv| == 1;
    assert LeafNode(c, n, lv[0][j].a, top);
    forall a, b | 0 <= a < b < |n.key| ensures n.key[a] < n.key[b] {
      NodeSorted(c, X, lv[0], top, j, a, b);
    }
  }

  // What binary search in the covering leaf says about the whole map.
  lemma Lookup(c: Cfg, X: Image, lv: seq<seq<Entry>>, root: int, j: int, key: int, p: int)
    requires WellFormed(c, X, lv, root) && lv != [] && 0 <= j < |lv[0]| && Within(lv[0], j, key)
    requires Cut(X[lv[0][j].a].key, p, key)
    ensures var n, m := X[lv[0][j].a], Content(c, X, lv, root);
      if p < |n.key| == |n.val| && n.key[p] == key then key in m && m[key] == n.val[p] else key !in m
  {
    hide Flat, ToMap, Upper, Linked, NoDup, Sorted;
    LeafFacts(c, X, lv, root, j);
    LeafDecides(c, X, lv[0], |lv| == 1, j, key, p);
    var F := Flat(X, lv[0]);
    if p < |X[lv[0][j].a].key| && X[lv[0][j].a].key[p] == key {
      Has(F, Off(X, lv[0], j) + p);
    } else {
      if key in ToMap(F) {
        var i := Find(F, key);
      }
    }
  }

  // ---------------------------------------------------------------- get

  // A long cut down to an int.
  function ToInt32(x: int): (r: int)
    ensures -0x8000_0000 <= r < 0x8000_0000
    ensures -0x8000_0000 <= x < 0x8000_0000 ==> r == x
  {
    (x + 0x8000_0000) % 0x1_0000_0000 - 0x8000_0000
  }

  method Get(t: Tree, key: int) returns (ret: int)
    requires Valid(t) && MIN_KEY <= key
    modifies t`cache
    ensures Valid(t) && Map(t) == old(Map(t))
    ensures ret == if key in Map(t) then ToInt32(Map(t)[key]) else -1
  {
    hide Tree.Buffers, Tree.OnDisk, Tree.Allocation, Count, View, WellFormed, Content, ToInt32;
    var node;
    ghost var j;
    ret := -1;
    node, j := SeekLeaf(t, key);
    if node != -1 {
      LeafFacts(t.c, t.D, t.lv, t.root, j);
      ViewHeader(t.c, t.cache[node]);
      ViewLeaf(t.c, t.cache[node]);
      var i := KeyBinarySearch(t.cache[node], key);
      Lookup(t.c, t.D, t.lv, t.root, j, key, if i >= 0 then i else -i - 1);
      ret := if i >= 0 then ToInt32(t.cache[node].data[i]) else -1;
    } else {
      EmptyContent(t.c, t.D, t.lv, t.root);
    }
  }

  lemma EmptyContent(c: Cfg, X: Image, lv: seq<seq<Entry>>, root: int)
    requires WellFormed(c, X, lv, root) && lv == []
    ensures Content(c, X, lv, root) == map[] && X == map[]
  {
  }

  // ---------------------------------------------------------------- insert

  ghost predicate Inserted(t: Tree, m: map<int, int>, key: int, data: int)
    reads t
  {
    Valid(t) && Map(t) == m[key := data]
  }

  // The leaf has room.
  method LeafSimpleInsert(t: Tree, leaf: int, key: int, data: int, insert: int, ghost j: int)
    requires t.Inv() && Count(t.used) == 1 && t.lv != [] && 0 <= j < |t.lv[0]| && Open(t, leaf, t.lv[0][j].a)
    requires t.held == {t.lv[0][j].a} && WellFormed(t.c, t.D, t.lv, t.root) && t.level == |t.lv|
    requires Within(t.lv[0], j, key) && key !in t.D[t.lv[0][j].a].key && Cut(t.D[t.lv[0][j].a].key, insert, key)
    requires t.cache[leaf].leaf && 0 <= insert <= t.cache[leaf].children < t.c.entries
    modifies t`cache, t`used, t`held, t`disk, t`D
    ensures Inserted(t, old(Content(t.c, t.D, t.lv, t.root)), key, data)
  {
    hide Tree.Buffers, Tree.OnDisk, Tree.Allocation, Count, View, LeafOpen, LeafGrown, WellFormed, Content;
    ghost var X, b, n := t.D, t.cache[leaf], t.lv[0][j].a;
    t.Write(leaf, LeafOpen(t.c, t.cache[leaf], key, data, insert));
    t.NodeFlush(leaf);
    ViewLeaf(t.c, b);
    LeafOpenView(t.c, b, key, data, insert);
    SimpleInserted(t.c, X, t.D, t.lv, t.root, j, insert, key, data);
  }

  lemma SimpleInserted(c: Cfg, X: Image, Y: Image, lv: seq<seq<Entry>>, root: int, j: int, p: int, key: int, data: int)
    requires WellFormed(c, X, lv, root) && lv != [] && 0 <= j < |lv[0]| && Within(lv[0], j, key)
    requires key !in X[lv[0][j].a].key && Cut(X[lv[0][j].a].key, p, key)
    requires |X[lv[0][j].a].key| == |X[lv[0][j].a].val| < c.entries
    requires Y == X[lv[0][j].a := LeafGrown(X[lv[0][j].a], p, key, data)]
    ensures WellFormed(c, Y, lv, root) && Content(c, Y, lv, root) == Content(c, X, lv, root)[key := data]
  {
    hide Flat, ToMap, Upper, Leaves;
    LeafFacts(c, X, lv, root, j);
    var L, n := lv[0], lv[0][j].a;
    LeafInsert(c, X, Y, L, |lv| == 1, j, p, key, data);
    assert Y.Keys == X.Keys;
    UpperDisjoint(c, X, L, lv[1..], root);
    assert n in Addrs(L);
    UpperFrame(c, X, Y, L, lv[1..], root);
  }

  // The leaf is full: split it, then build upwards.
  method LeafSplitInsert(t: Tree, leaf: int, key: int, data: int, insert: int, ghost j: int) returns (ret: int)
    requires t.Inv() && Count(t.used) == 1 && t.lv != [] && 0 <= j < |t.lv[0]| && Open(t, leaf, t.lv[0][j].a)
    requires t.held == {t.lv[0][j].a} && WellFormed(t.c, t.D, t.lv, t.root) && t.level == |t.lv|
    requires Within(t.lv[0], j, key) && key !in t.D[t.lv[0][j].a].key && Cut(t.D[t.lv[0][j].a].key, insert, key)
    requires t.cache[leaf].leaf && 0 <= insert <= t.cache[leaf].children == t.c.entries
    modifies t
    ensures ret == 0 && Inserted(t, old(Content(t.c, t.D, t.lv, t.root)), key, data)
  {
    hide Tree.Buffers, Tree.OnDisk, Tree.Allocation, Count, View, WellFormed, Content, Leaves, Upper, LeafHalved;
    hide InsertHole, ToMap, Flat;
    ghost var c, X, lv, root, n := t.c, t.D, t.lv, t.root, t.lv[0][j].a;
    LeafFacts(c, X, lv, root, j);
    LeafNeighbours(t, c, X, lv, root, j);
    ViewHeader(c, t.cache[leaf]);
    var split := (t.c.entries + 1) / 2;
    var sibling := t.NodeNew(true);
    var splitKey;
    if insert < split {
      splitKey := LeafSplitLeft(t, leaf, sibling, key, data, insert);
    } else {
      splitKey := LeafSplitRight(t, leaf, sibling, key, data, insert);
    }
    ret := LeafSplitUp(t, leaf, sibling, splitKey, insert < split, X, j, insert, key, data);
  }

  method LeafSplitUp(t: Tree, leaf: int, sibling: int, splitKey: int, toLeft: bool,
                     ghost X: Image, ghost j: int, ghost p: int, ghost key: int, ghost data: int) returns (ret: int)
    requires t.lv != [] && 0 <= j < |t.lv[0]| && WellFormed(t.c, X, t.lv, t.root) && t.level == |t.lv|
    requires Within(t.lv[0], j, key) && key !in X[t.lv[0][j].a].key && Cut(X[t.lv[0][j].a].key, p, key)
    requires LeafParted(t, X, leaf, sibling, p, key, data, splitKey, toLeft) && t.cache[leaf].self == t.lv[0][j].a
    modifies t
    ensures ret == 0 && Inserted(t, old(Content(t.c, X, t.lv, t.root)), key, data)
  {
    hide Tree.Buffers, Tree.OnDisk, Tree.Allocation, Count, View, WellFormed, Content, Leaves, Upper, LeafHalved;
    hide InsertHole, ToMap, Flat, Reshaped;
    hide Grow;
    ghost var c, lv, root, n, x := t.c, t.lv, t.root, t.cache[leaf].self, t.cache[sibling].self;
    LeafFacts(c, X, lv, root, j);
    LeafHalvedSelfs(c, X, t.D, t.cache[leaf], t.cache[sibling], p, key, data, splitKey, toLeft);
    ghost var Z := t.D[n := View(c, t.cache[leaf])][x := View(c, t.cache[sibling])];
    LeafHalvedHole(c, X, t.D, Z, lv[0], lv[1..], root, j, p, key, data, t.cache[leaf], t.cache[sibling], splitKey,
                   toLeft);
    ghost var M := Grow(lv[0], j, LeftOf(toLeft, n, x), RightOf(toLeft, n, x), splitKey);
    GrowAt(lv[0], j, LeftOf(toLeft, n, x), RightOf(toLeft, n, x), splitKey);
    ghost var up2;
    if toLeft {
      assert With(t, sibling, leaf) == Z;
      ret, up2 := ParentNodeBuild(t, sibling, leaf, splitKey, M, j, n, lv[1..]);
    } else {
      assert With(t, leaf, sibling) == Z;
      ret, up2 := ParentNodeBuild(t, leaf, sibling, splitKey, M, j, n, lv[1..]);
    }
    t.lv := [M] + up2;
    UpperDisjoint(c, X, lv[0], lv[1..], root);
    Regrown(c, Z, t.D, M, lv[1..], up2, t.root);
  }

  lemma LeafHalvedSelfs(c: Cfg, X: Image, Y: Image, bn: Block, bx: Block, p: int, key: int, data: int, sep: int,
                        toLeft: bool)
    requires LeafHalved(c, X, Y, bn, bx, p, key, data, sep, toLeft)
    ensures bn.self in X && bx.self !in X
  {
  }

  // The neighbours of an open leaf can be fetched.
  lemma LeafNeighbours(t: Tree, c: Cfg, X: Image, lv: seq<seq<Entry>>, root: int, j: int)
    requires WellFormed(c, X, lv, root) && lv != [] && 0 <= j < |lv[0]| && t.D == X && t.held == {lv[0][j].a}
    ensures var n := X[lv[0][j].a];
      && (n.prev != INVALID ==> Fetchable(t, n.prev))
      && (n.next != INVALID ==> Fetchable(t, n.next))
  {
    hide Flat, ToMap, Upper, Sorted, Bounded;
    var L, n := lv[0], lv[0][j].a;
    assert X[n].prev == Before(L, j) && X[n].next == After(L, j);
    if j > 0 { assert LeafNode(c, X[L[j - 1].a], L[j - 1].a, |lv| == 1); }
    if j < |L| - 1 { assert LeafNode(c, X[L[j + 1].a], L[j + 1].a, |lv| == 1); }
  }

  // leaf_insert: the leaf the search ended in takes the key, unless it has it.
  method LeafInsertKey(t: Tree, leaf: int, key: int, data: int, ghost j: int) returns (ret: int)
    requires Valid(t) && AtLeaf(t, leaf, j, key)
    modifies t
    ensures key in old(Map(t)) ==> ret == -1 && Valid(t) && Map(t) == old(Map(t)) && t.disk == old(t.disk)
    ensures key !in old(Map(t)) ==> ret == 0 && Inserted(t, old(Map(t)), key, data)
  {
    hide Tree.Buffers, Tree.OnDisk, Tree.Allocation, View, WellFormed, Content, Count, Leaves, Upper, Flat, AllAddrs;
    hide ToMap;
    LeafFacts(t.c, t.D, t.lv, t.root, j);
    ViewHeader(t.c, t.cache[leaf]);
    ViewLeaf(t.c, t.cache[leaf]);
    var insert := KeyBinarySearch(t.cache[leaf], key);
    Lookup(t.c, t.D, t.lv, t.root, j, key, if insert >= 0 then insert else -insert - 1);
    if insert >= 0 {
      return -1;
    }
    insert := -insert - 1;
    t.Claim(leaf);
    if t.cache[leaf].children == t.c.entries {
      ret := LeafSplitInsert(t, leaf, key, data, insert, j);
    } else {
      LeafSimpleInsert(t, leaf, key, data, insert, j);
      ret := 0;
    }
  }

  // The first key of a tree makes its root, a leaf.
  method NewRootLeaf(t: Tree, key: int, data: int)
    requires Valid(t) && t.lv == [] && MIN_KEY <= key
    modifies t
    ensures Inserted(t, map[], key, data)
  {
    hide Tree.Buffers, Tree.OnDisk, Tree.Allocation, Count, View, WellFormed, Content;
    EmptyContent(t.c, t.D, t.lv, t.root);
    var root := t.NodeNew(true);
    var b := t.cache[root];
    t.Write(root, b.(key := b.key[0 := key], data := b.data[0 := data], children := 1));
    b := t.cache[root];
    t.root := t.NewNodeAppend(root);
    t.level := 1;
    t.NodeFlush(root);
    t.lv := [[Entry(MIN_KEY, t.root)]];
    OneLeafView(t.c, b, t.root, key, data);
    OneLeaf(t.c, t.D, t.root, key, data);
  }

  lemma OneLeafView(c: Cfg, b: Block, x: int, key: int, data: int)
    requires Fits(c, b) && b.leaf && b.children == 1 && b.key[0] == key && b.data[0] == data
    requires b.parent == INVALID && b.prev == INVALID && b.next == INVALID
    ensures View(c, b.(self := x)) == Node(x, INVALID, INVALID, INVALID, true, [key], [data])
  {
  }

  lemma OneLeaf(c: Cfg, X: Image, x: int, key: int, data: int)
    requires CfgOK(c) && MIN_KEY <= key && x != INVALID
    requires X == map[x := Node(x, INVALID, INVALID, INVALID, true, [key], [data])]
    ensures WellFormed(c, X, [[Entry(MIN_KEY, x)]], x)
    ensures Content(c, X, [[Entry(MIN_KEY, x)]], x) == map[key := data]
  {
    var L := [Entry(MIN_KEY, x)];
    var lv := [L];
    assert lv[1..] == [];
    FlatOne(X, L[0]);
    assert Flat(X, L) == [Entry(key, data)];
    assert Before(L, 0) == INVALID && After(L, 0) == INVALID;
    assert Addrs(L) == {x};
    assert Leaves(c, X, L, true);
    assert Upper(c, X, L, [], x);
    Has(Flat(X, L), 0);
  }

  method TreeInsert(t: Tree, key: int, data: int) returns (ret: int)
    requires Valid(t) && MIN_KEY <= key
    modifies t
    ensures key in old(Map(t)) ==> ret == -1 && Valid(t) && Map(t) == old(Map(t)) && t.disk == old(t.disk)
    ensures key !in old(Map(t)) ==> ret == 0 && Inserted(t, old(Map(t)), key, data)
  {
    hide Tree.Buffers, Tree.OnDisk, Tree.Allocation, Count, View, WellFormed, Content;
    ghost var j;
    var node;
    node, j := SeekLeaf(t, key);
    if node != -1 {
      ret := LeafInsertKey(t, node, key, data, j);
    } else {
      EmptyContent(t.c, t.D, t.lv, t.root);
      NewRootLeaf(t, key, data);
      ret := 0;
    }
  }
}
