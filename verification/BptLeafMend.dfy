/** What removing a key makes of the whole tree, on values. */
module BptLeafMend {
  import opened BptLevels
  import opened BptShape
  import opened BptInsert
  import opened BptDelete
  import opened BptTree
  import opened BptLeafDelete
  import opened BptGrow
  import opened BptLeafOps
  import opened BptPut
  import opened BptShrink
  import opened BptPlace
  import opened BptRebalance

  // Entry remove of the j-th leaf is the key.
  ghost predicate Listed(c: Cfg, X: Image, lv: seq<seq<Entry>>, root: int, j: int, remove: int, key: int) {
    && CfgOK(c) && WellFormed(c, X, lv, root) && lv != [] && 0 <= j < |lv[0]|
    && 0 <= remove < |X[lv[0][j].a].key| == |X[lv[0][j].a].val| && X[lv[0][j].a].key[remove] == key
  }

  lemma SimpleRemoved(c: Cfg, X: Image, Y: Image, lv: seq<seq<Entry>>, root: int, j: int, remove: int, key: int)
    requires Listed(c, X, lv, root, j, remove, key)
    requires |X[lv[0][j].a].key| > (if |lv| == 1 then 1 else (c.entries + 1) / 2)
    requires Y == X[lv[0][j].a := LeafShrunk(X[lv[0][j].a], remove)]
    ensures WellFormed(c, Y, lv, root) && Content(c, Y, lv, root) == Content(c, X, lv, root) - {key}
  {
    hide Flat, ToMap, Upper, Leaves;
    LeafFacts(c, X, lv, root, j);
    var L, n := lv[0], lv[0][j].a;
    LeafRemove(c, X, Y, L, |lv| == 1, j, remove, key);
    assert Y.Keys == X.Keys;
    UpperDisjoint(c, X, L, lv[1..], root);
    assert n in Addrs(L);
    UpperFrame(c, X, Y, L, lv[1..], root);
  }

  lemma LastRemoved(c: Cfg, X: Image, Y: Image, lv: seq<seq<Entry>>, root: int, j: int, remove: int, key: int)
    requires Listed(c, X, lv, root, j, remove, key) && |lv| == 1 && |X[lv[0][j].a].key| == 1
    requires Y == X - {lv[0][j].a}
    ensures WellFormed(c, Y, [], INVALID) && Content(c, Y, [], INVALID) == Content(c, X, lv, root) - {key}
  {
    hide ToMap, Leaves;
    LeafFacts(c, X, lv, root, j);
    assert lv[1..] == [];
    var L, e := lv[0], lv[0][0];
    assert L == [e] && Addrs(L) == {e.a};
    FlatOne(X, e);
    assert Y == map[];
    var F := Flat(X, L);
    assert Sorted(F);
    forall k | k in ToMap(F) ensures k == key {
      var i := Find(F, k);
    }
  }

  // ---------------------------------------------------------------- with a neighbour

  // Child q of the parent is the leaf.
  ghost predicate Hanging(c: Cfg, X: Image, lv: seq<seq<Entry>>, root: int, j: int, remove: int, key: int, u: int,
                          q: int) {
    Listed(c, X, lv, root, j, remove, key) && |lv| >= 2 && Spot(X, lv[1], u, q, j)
  }

  // The leaves at m and m + 1, children q - 1 and q of their parent.
  lemma LeafPairAround(c: Cfg, X: Image, lv: seq<seq<Entry>>, root: int, m: int, u: int, q: int)
    requires CfgOK(c) && WellFormed(c, X, lv, root) && |lv| >= 2 && Spot(X, lv[1], u, q, m + 1) && 1 <= q
    ensures 0 <= m < |lv[0]| - 1 && In(X, lv[0]) && Leaves(c, X, lv[0], false) && Upper(c, X, lv[0], lv[1..], root)
    ensures LeafNode(c, X[lv[0][m].a], lv[0][m].a, false) && LeafNode(c, X[lv[0][m + 1].a], lv[0][m + 1].a, false)
    ensures InnerNode(c, X[lv[1][u].a], lv[1][u].a, |lv| == 2)
    ensures lv[0][m].a != lv[0][m + 1].a && lv[0][m].a != lv[1][u].a && lv[0][m + 1].a != lv[1][u].a
    ensures X.Keys == Addrs(lv[0]) + AllAddrs(lv[1..]) && Addrs(lv[0]) !! AllAddrs(lv[1..])
    ensures AllAddrs(lv[1..]) <= X.Keys
    ensures lv[1][u].a in AllAddrs(lv[1..]) && INVALID !in X
    ensures Content(c, X, lv, root) == ToMap(Flat(X, lv[0]))
  {
    hide Flat, ToMap, Upper, Linked, Parents, Bounded, Sorted;
    UpperStep(c, X, lv[0], lv[1..], root);
    LeftSibling(c, X, lv[1], lv[0], |lv| == 2, u, q, m + 1);
    assert LeafNode(c, X[lv[0][m].a], lv[0][m].a, false) && LeafNode(c, X[lv[0][m + 1].a], lv[0][m + 1].a, false);
    assert lv[0][m].a in Addrs(lv[0]) && lv[0][m + 1].a in Addrs(lv[0]) && lv[1][u].a in Addrs(lv[1]);
    UpperDisjoint(c, X, lv[0], lv[1..], root);
  }

  // A rotation of leaves and the new separator in their parent, together.
  lemma RotateTree(c: Cfg, X: Image, Y: Image, lv: seq<seq<Entry>>, root: int, m: int, d: int, sep: int, u: int, q: int)
    requires CfgOK(c) && WellFormed(c, X, lv, root) && |lv| >= 2 && Spot(X, lv[1], u, q, m + 1) && 1 <= q
    requires LeafPair(X, lv[0], m, d) && Y.Keys == X.Keys
    requires LeafNode(c, Y[lv[0][m].a], lv[0][m].a, false) && LeafNode(c, Y[lv[0][m + 1].a], lv[0][m + 1].a, false)
    requires forall a :: a in X && a != lv[0][m].a && a != lv[0][m + 1].a && a != lv[1][u].a ==> Y[a] == X[a]
    requires |X[lv[1][u].a].val| == |X[lv[1][u].a].key| + 1
    requires Y[lv[1][u].a] == X[lv[1][u].a].(key := X[lv[1][u].a].key[q - 1 := sep])
    requires Y[lv[0][m].a] == X[lv[0][m].a].(key := Y[lv[0][m].a].key, val := Y[lv[0][m].a].val)
    requires Y[lv[0][m + 1].a] == X[lv[0][m + 1].a].(key := Y[lv[0][m + 1].a].key, val := Y[lv[0][m + 1].a].val)
    requires LeafJoinShrunk(X, lv[0], m, d).key == Y[lv[0][m].a].key + Y[lv[0][m + 1].a].key
    requires LeafJoinShrunk(X, lv[0], m, d).val == Y[lv[0][m].a].val + Y[lv[0][m + 1].a].val
    requires Y[lv[0][m + 1].a].key != [] && sep == Y[lv[0][m + 1].a].key[0]
    ensures var lv2 := [lv[0][m + 1 := Entry(sep, lv[0][m + 1].a)]] + lv[1..];
      && WellFormed(c, Y, lv2, root) && 0 <= Off(X, lv[0], m) + d < |Flat(X, lv[0])|
      && Content(c, Y, lv2, root) == Content(c, X, lv, root) - {Flat(X, lv[0])[Off(X, lv[0], m) + d].lo}
  {
    hide Flat, ToMap, Upper, Leaves, LeafJoinShrunk, AllAddrs;
    LeafPairAround(c, X, lv, root, m, u, q);
    var L, up := lv[0], lv[1..];
    forall i | 0 <= i < |L| ensures L[i].a in Y && L[i].a != lv[1][u].a {
      assert L[i].a in Addrs(L);
    }
    LevelDistinct(c, X, L);
    LeafRotate(c, X, Y, L, m, d, sep);
    SeparatorUpper(c, X, Y, L, up, root, u, q, m + 1, sep);
    RelabelAddrs(L, m + 1, sep);
    var M := L[m + 1 := Entry(sep, L[m + 1].a)];
    assert ([M] + up)[1..] == up;
  }

  lemma LevelDistinct(c: Cfg, X: Image, L: seq<Entry>)
    requires Leaves(c, X, L, false)
    ensures forall i, j :: 0 <= i < j < |L| ==> L[i].a != L[j].a
  {
  }

  // The position of the removed entry among all entries.
  lemma RemovedEntry(c: Cfg, X: Image, L: seq<Entry>, j: int, remove: int)
    requires Leaves(c, X, L, false) && 0 <= j < |L| && 0 <= remove < |X[L[j].a].key|
    ensures remove < |X[L[j].a].val| && X[L[j].a].leaf
    ensures 0 <= Off(X, L, j) + remove < |Flat(X, L)| && Flat(X, L)[Off(X, L, j) + remove].lo == X[L[j].a].key[remove]
    ensures j > 0 ==> Off(X, L, j) == Off(X, L, j - 1) + |X[L[j - 1].a].key|
  {
    hide Flat, Linked, NoDup, Bounded, Sorted;
    assert LeafNode(c, X[L[j].a], L[j].a, false);
    FlatAt(X, L, j, remove);
    if j > 0 {
      assert LeafNode(c, X[L[j - 1].a], L[j - 1].a, false);
      OffStep(X, L, j - 1);
    }
  }

  lemma JoinedRight(X: Image, L: seq<Entry>, m: int, remove: int)
    requires 0 <= m < |L| - 1 && In(X, L) && LeafPair(X, L, m, |X[L[m].a].key| + remove)
    requires 0 <= remove < |X[L[m + 1].a].key|
    ensures var w := LeafJoinShrunk(X, L, m, |X[L[m].a].key| + remove);
      && w.key == X[L[m].a].key + Drop(X[L[m + 1].a].key, remove)
      && w.val == X[L[m].a].val + Drop(X[L[m + 1].a].val, remove)
      && w.leaf && w.self == X[L[m].a].self
  {
    hide Drop;
    DropRight(X[L[m].a].key, X[L[m + 1].a].key, remove);
    DropRight(X[L[m].a].val, X[L[m + 1].a].val, remove);
  }

  lemma JoinedLeft(X: Image, L: seq<Entry>, m: int, remove: int)
    requires LeafPair(X, L, m, remove) && 0 <= remove < |X[L[m].a].key|
    ensures var w := LeafJoinShrunk(X, L, m, remove);
      && w.key == Drop(X[L[m].a].key, remove) + X[L[m + 1].a].key
      && w.val == Drop(X[L[m].a].val, remove) + X[L[m + 1].a].val
      && w.leaf && w.self == X[L[m].a].self
  {
    hide Drop;
    DropLeft(X[L[m].a].key, X[L[m + 1].a].key, remove);
    DropLeft(X[L[m].a].val, X[L[m + 1].a].val, remove);
  }

  lemma LeafBorrowLeftDone(c: Cfg, X: Image, Y: Image, lv: seq<seq<Entry>>, root: int, j: int, remove: int, key: int,
                           u: int, q: int, k: int, d: int)
    requires Hanging(c, X, lv, root, j, remove, key, u, q) && 1 <= q && 1 <= j
    requires var n, la, pa := lv[0][j].a, lv[0][j - 1].a, lv[1][u].a;
      && la in X && |X[la].key| == |X[la].val| > (c.entries + 1) / 2 && q <= |X[pa].key|
      && k == X[la].key[|X[la].key| - 1] && d == X[la].val[|X[la].val| - 1]
      && Y == X[n := X[n].(key := [k] + Drop(X[n].key, remove), val := [d] + Drop(X[n].val, remove))]
               [la := X[la].(key := X[la].key[..|X[la].key| - 1], val := X[la].val[..|X[la].val| - 1])]
               [pa := X[pa].(key := X[pa].key[q - 1 := k])]
    ensures var lv2 := [lv[0][j := Entry(k, lv[0][j].a)]] + lv[1..];
      WellFormed(c, Y, lv2, root) && Content(c, Y, lv2, root) == Content(c, X, lv, root) - {key}
  {
    hide WellFormed, Content, Flat, Drop, LeafJoinShrunk, Leaves, Upper, AllAddrs;
    var n, la, L := lv[0][j].a, lv[0][j - 1].a, lv[0];
    LeafPairAround(c, X, lv, root, j - 1, u, q);
    RemovedEntry(c, X, L, j, remove);
    JoinedRight(X, L, j - 1, remove);
    LastFirst(X[la].key, Drop(X[n].key, remove));
    LastFirst(X[la].val, Drop(X[n].val, remove));
    DropIn(X[n].key, remove);
    DropIn(X[n].val, remove);
    RotateTree(c, X, Y, lv, root, j - 1, |X[la].key| + remove, k, u, q);
  }

  lemma LeafBorrowRightDone(c: Cfg, X: Image, Y: Image, lv: seq<seq<Entry>>, root: int, j: int, remove: int, key: int,
                            u: int, q: int, k: int)
    requires Listed(c, X, lv, root, j, remove, key) && |lv| >= 2 && Spot(X, lv[1], u, q, j + 1) && 1 <= q
    requires j + 1 < |lv[0]|
    requires var n, ra, pa := lv[0][j].a, lv[0][j + 1].a, lv[1][u].a;
      && ra in X && |X[ra].key| == |X[ra].val| > (c.entries + 1) / 2 && q <= |X[pa].key| && k == X[ra].key[1]
      && Y == X[n := X[n].(key := Drop(X[n].key, remove) + [X[ra].key[0]],
                           val := Drop(X[n].val, remove) + [X[ra].val[0]])]
               [ra := X[ra].(key := X[ra].key[1..], val := X[ra].val[1..])]
               [pa := X[pa].(key := X[pa].key[q - 1 := k])]
    ensures var lv2 := [lv[0][j + 1 := Entry(k, lv[0][j + 1].a)]] + lv[1..];
      WellFormed(c, Y, lv2, root) && Content(c, Y, lv2, root) == Content(c, X, lv, root) - {key}
  {
    hide WellFormed, Content, Flat, Drop, LeafJoinShrunk, Leaves, Upper, AllAddrs;
    var n, ra, L := lv[0][j].a, lv[0][j + 1].a, lv[0];
    LeafPairAround(c, X, lv, root, j, u, q);
    RemovedEntry(c, X, L, j, remove);
    JoinedLeft(X, L, j, remove);
    FirstLast(Drop(X[n].key, remove), X[ra].key);
    FirstLast(Drop(X[n].val, remove), X[ra].val);
    DropIn(X[n].key, remove);
    DropIn(X[n].val, remove);
    RotateTree(c, X, Y, lv, root, j, remove, k, u, q);
  }

  // ---------------------------------------------------------------- merges

  // The leaves are right again; the level above still lists the one that is gone.
  ghost predicate LeafClimbed(c: Cfg, Y: Image, lv: seq<seq<Entry>>, root: int, m: int, u: int, q: int,
                              want: map<int, int>) {
    && |lv| >= 2 && 0 <= m < |lv[0]| - 1
    && var M := Drop(lv[0], m + 1);
    && Leaves(c, Y, M, false) && ToMap(Flat(Y, M)) == want
    && DeleteHole(c, Y, M, m + 1, lv[0][m + 1], lv[1..], root) && Spot(Y, lv[1], u, q, m + 1)
    && Y.Keys == Addrs(M) + AllAddrs(lv[1..]) && Addrs(M) !! AllAddrs(lv[1..])
  }

  lemma LeafMergeClimb(c: Cfg, X: Image, Y: Image, lv: seq<seq<Entry>>, root: int, m: int, d: int, u: int, q: int)
    requires CfgOK(c) && WellFormed(c, X, lv, root) && |lv| >= 2 && Spot(X, lv[1], u, q, m + 1) && 1 <= q
    requires LeafPair(X, lv[0], m, d) && MergeEffect(X, Y, lv[0][m].a, lv[0][m + 1].a, [])
    requires SameBody(Y[lv[0][m].a], LeafJoinShrunk(X, lv[0], m, d))
    requires (c.entries + 1) / 2 <= |Y[lv[0][m].a].key| <= c.entries
    ensures 0 <= Off(X, lv[0], m) + d < |Flat(X, lv[0])|
    ensures LeafClimbed(c, Y, lv, root, m, u, q, Content(c, X, lv, root) - {Flat(X, lv[0])[Off(X, lv[0], m) + d].lo})
  {
    hide WellFormed, Content, Flat, ToMap, Upper, Leaves, LeafJoinShrunk, AllAddrs, MergeLinks, MergeFrame, MergeEffect;
    hide Linked;
    hide NoDup, Sorted, Selfs, DeleteHole, Drop, Spot;
    LeafPairAround(c, X, lv, root, m, u, q);
    var L := lv[0];
    LeafSelfs(c, X, L, false);
    assert Addrs([]) == {};
    MergeLinked(X, Y, [], L, m, []);
    LeafMerge(c, X, Y, L, m, d);
    LeafPairFacts(X, L, m, d);
    LeafMergeAbove(c, X, Y, lv, root, m, u, q);
  }

  lemma LeafMergeAbove(c: Cfg, X: Image, Y: Image, lv: seq<seq<Entry>>, root: int, m: int, u: int, q: int)
    requires |lv| >= 2 && Upper(c, X, lv[0], lv[1..], root) && In(X, lv[0]) && Selfs(X, lv[0]) && Sorted(lv[0])
    requires NoDup(lv[0])
    requires 0 <= m < |lv[0]| - 1 && INVALID !in X && Addrs(lv[0]) !! AllAddrs(lv[1..])
    requires X.Keys == Addrs(lv[0]) + AllAddrs(lv[1..])
    requires MergeEffect(X, Y, lv[0][m].a, lv[0][m + 1].a, []) && MergeFrame(X, Y, [], lv[0], lv[0][m + 1].a)
    requires Y[lv[0][m].a].self == lv[0][m].a && Spot(X, lv[1], u, q, m + 1)
    ensures DeleteHole(c, Y, Drop(lv[0], m + 1), m + 1, lv[0][m + 1], lv[1..], root) && Spot(Y, lv[1], u, q, m + 1)
    ensures Y.Keys == Addrs(Drop(lv[0], m + 1)) + AllAddrs(lv[1..]) && Addrs(Drop(lv[0], m + 1)) !! AllAddrs(lv[1..])
  {
    hide Upper, Sorted, AllAddrs, Drop, NoDup, Selfs, DeleteHole, Spot, MergeEffect;
    var L, up := lv[0], lv[1..];
    UpperAddrs(c, X, L, up, root);
    assert L[m].a in Addrs(L) && L[m + 1].a in Addrs(L);
    assert Addrs([]) == {};
    LeafMergeHole(c, X, Y, lv, root, m);
    UpperFirst(c, X, L, up, root);
    SpotFrame(X, Y, up[0], u, q, m + 1);
    DropAddrs(L, m + 1);
  }

  lemma UpperFirst(c: Cfg, X: Image, L: seq<Entry>, up: seq<seq<Entry>>, root: int)
    requires Upper(c, X, L, up, root) && up != []
    ensures Addrs(up[0]) <= AllAddrs(up)
  {
  }

  lemma LeafMergeHole(c: Cfg, X: Image, Y: Image, lv: seq<seq<Entry>>, root: int, m: int)
    requires |lv| >= 2 && Upper(c, X, lv[0], lv[1..], root) && In(X, lv[0]) && Selfs(X, lv[0]) && Sorted(lv[0])
    requires NoDup(lv[0])
    requires 0 <= m < |lv[0]| - 1 && INVALID !in X && Addrs(lv[0]) !! AllAddrs(lv[1..]) && AllAddrs(lv[1..]) <= X.Keys
    requires MergeEffect(X, Y, lv[0][m].a, lv[0][m + 1].a, []) && MergeFrame(X, Y, [], lv[0], lv[0][m + 1].a)
    requires Y[lv[0][m].a].self == lv[0][m].a
    ensures DeleteHole(c, Y, Drop(lv[0], m + 1), m + 1, lv[0][m + 1], lv[1..], root)
  {
    hide Upper, Sorted, AllAddrs, Drop;
    var L := lv[0];
    forall i | 0 <= i < |L| && i != m + 1
      ensures L[i].a in Y && Y[L[i].a].parent == X[L[i].a].parent && Y[L[i].a].self == L[i].a
    {
      NotSame(L, i, m + 1);
      assert L[i].a in Addrs(L);
    }
    MergeHole(c, X, Y, L, lv[1..], root, m);
  }

  lemma LeafJoinLeftClimb(c: Cfg, X: Image, Y: Image, lv: seq<seq<Entry>>, root: int, j: int, remove: int, key: int,
                          u: int, q: int)
    requires Hanging(c, X, lv, root, j, remove, key, u, q) && 1 <= q && 1 <= j
    requires var n, la := lv[0][j].a, lv[0][j - 1].a;
      && la in X && |X[la].key| <= (c.entries + 1) / 2 && |X[n].key| <= (c.entries + 1) / 2
      && MergeEffect(X, Y, la, n, [])
      && Y[la].key == X[la].key + Drop(X[n].key, remove) && Y[la].val == X[la].val + Drop(X[n].val, remove)
    ensures LeafClimbed(c, Y, lv, root, j - 1, u, q, Content(c, X, lv, root) - {key})
  {
    hide WellFormed, Content, Flat, Drop, LeafJoinShrunk, Leaves, Upper, AllAddrs;
    var n, la, L := lv[0][j].a, lv[0][j - 1].a, lv[0];
    LeafPairAround(c, X, lv, root, j - 1, u, q);
    RemovedEntry(c, X, L, j, remove);
    JoinedRight(X, L, j - 1, remove);
    DropIn(X[n].key, remove);
    LeafMergeClimb(c, X, Y, lv, root, j - 1, |X[la].key| + remove, u, q);
  }

  lemma LeafJoinRightClimb(c: Cfg, X: Image, Y: Image, lv: seq<seq<Entry>>, root: int, j: int, remove: int, key: int,
                           u: int, q: int)
    requires Listed(c, X, lv, root, j, remove, key) && |lv| >= 2 && Spot(X, lv[1], u, q, j + 1) && 1 <= q
    requires j + 1 < |lv[0]|
    requires var n, ra := lv[0][j].a, lv[0][j + 1].a;
      && ra in X && |X[ra].key| <= (c.entries + 1) / 2 && |X[n].key| <= (c.entries + 1) / 2
      && MergeEffect(X, Y, n, ra, [])
      && Y[n].key == Drop(X[n].key, remove) + X[ra].key && Y[n].val == Drop(X[n].val, remove) + X[ra].val
    ensures LeafClimbed(c, Y, lv, root, j, u, q, Content(c, X, lv, root) - {key})
  {
    hide WellFormed, Content, Flat, Drop, LeafJoinShrunk, Leaves, Upper, AllAddrs;
    var n, L := lv[0][j].a, lv[0];
    LeafPairAround(c, X, lv, root, j, u, q);
    RemovedEntry(c, X, L, j, remove);
    JoinedLeft(X, L, j, remove);
    DropIn(X[n].key, remove);
    LeafMergeClimb(c, X, Y, lv, root, j, remove, u, q);
  }

  // ---------------------------------------------------------------- the tree after the climb

  lemma Reshrunk(c: Cfg, Z: Image, W: Image, M: seq<Entry>, up: seq<seq<Entry>>, up2: seq<seq<Entry>>, root: int)
    requires CfgOK(c) && Leaves(c, Z, M, false) && Upper(c, W, M, up2, root) && Reshaped(Z, W, M, up, up2)
    requires INVALID !in W && Z.Keys == Addrs(M) + AllAddrs(up) && Addrs(M) !! AllAddrs(up)
    ensures WellFormed(c, W, [M] + up2, root)
    ensures Content(c, W, [M] + up2, root) == ToMap(Flat(Z, M))
  {
    hide Flat, ToMap, Sorted, NoDup, Linked, Bounded, Upper, AllAddrs;
    LeavesFrame(c, Z, W, M, false);
    assert LeafNodes(c, W, M, |[M] + up2| == 1) by {
      forall i | 0 <= i < |M| ensures LeafNode(c, W[M[i].a], M[i].a, |[M] + up2| == 1) {
        assert LeafNode(c, W[M[i].a], M[i].a, false);
      }
    }
    hide LeafNodes;
    assert ([M] + up2)[1..] == up2;
    UpperDisjoint(c, W, M, up2, root);
    assert Z.Keys - AllAddrs(up) == Addrs(M);
    assert W.Keys == Addrs(M) + AllAddrs(up2);
  }
}
