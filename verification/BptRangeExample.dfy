/** A tree of two leaves on which get_range misses a key. */
module BptRangeExample {
  import opened BptLevels
  import opened BptShape
  import opened BptTree
  import opened BptBlock
  import opened BptMap
  import opened BptRange

  // 128-byte blocks after putting 10, 20, ..., 90: the leaf split at the eighth key.
  const LEFT := Node(0, 256, INVALID, 128, true, [10, 20, 30, 40], [1, 2, 3, 4])
  const RIGHT := Node(128, 256, 0, INVALID, true, [50, 60, 70, 80, 90], [5, 6, 7, 8, 9])
  const ROOT := Node(256, INVALID, INVALID, INVALID, false, [50], [0, 128])
  const RIGHT_BLOCK := Block(128, 256, 0, INVALID, true, 5, [50, 60, 70, 80, 90, 80, 0], [], [5, 6, 7, 8, 9, 8, 0])
  const LEAVES := [Entry(MIN_KEY, 0), Entry(50, 128)]
  const TOP := [Entry(MIN_KEY, 256)]

  ghost function Example(): Image {
    map[0 := LEFT, 128 := RIGHT, 256 := ROOT]
  }

  ghost const ENTRIES := [Entry(10, 1), Entry(20, 2), Entry(30, 3), Entry(40, 4),
                          Entry(50, 5), Entry(60, 6), Entry(70, 7), Entry(80, 8), Entry(90, 9)]

  lemma ExampleEntries()
    ensures In(Example(), LEAVES) && Flat(Example(), LEAVES) == ENTRIES && Off(Example(), LEAVES, 1) == 4
  {
    hide Flat;
    var X, L := Example(), LEAVES;
    assert L == [L[0]] + [L[1]];
    FlatOne(X, L[0]);
    FlatOne(X, L[1]);
    FlatConcat(X, [L[0]], [L[1]]);
    assert Expand(MIN_KEY, LEFT) == [Entry(10, 1), Entry(20, 2), Entry(30, 3), Entry(40, 4)];
    assert Expand(50, RIGHT) == [Entry(50, 5), Entry(60, 6), Entry(70, 7), Entry(80, 8), Entry(90, 9)];
    assert L[..1] == [L[0]];
  }

  lemma ExampleSorted()
    ensures Sorted(ENTRIES)
  {
    assert forall i :: 0 <= i < |ENTRIES| ==> ENTRIES[i].lo == 10 * (i + 1);
  }

  lemma ExampleBounds()
    ensures In(Example(), LEAVES) && Bounded(Example(), LEAVES)
  {
    assert forall q :: 0 <= q < 4 ==> LEFT.key[q] == 10 * (q + 1);
    assert forall q :: 0 <= q < 5 ==> RIGHT.key[q] == 10 * (q + 5);
  }

  lemma ExampleLeaves()
    ensures In(Example(), LEAVES) && Leaves(Config(128), Example(), LEAVES, false)
  {
    hide Flat, Sorted, Bounded;
    var L := LEAVES;
    ExampleEntries();
    ExampleSorted();
    ExampleBounds();
    assert Sorted(L) by { SortedPair(L); }
    assert Before(L, 0) == INVALID && After(L, 0) == 128 && Before(L, 1) == 0 && After(L, 1) == INVALID;
  }

  lemma SortedPair(L: seq<Entry>)
    requires |L| == 2 && L[0].lo < L[1].lo
    ensures Sorted(L)
  {
  }

  lemma ExampleTree()
    ensures WellFormed(Config(128), Example(), [LEAVES, TOP], 256)
  {
    hide Leaves, Flat;
    var X, lv := Example(), [LEAVES, TOP];
    assert lv[1..] == [TOP] && [TOP][1..] == [];
    ExampleLeaves();
    FlatOne(X, TOP[0]);
    assert Expand(MIN_KEY, ROOT) == LEAVES;
    assert Before(TOP, 0) == INVALID && After(TOP, 0) == INVALID;
    assert Level(Config(128), X, TOP, LEAVES, true);
    assert Addrs(LEAVES) == {0, 128} by {
      assert LEAVES[0].a in Addrs(LEAVES) && LEAVES[1].a in Addrs(LEAVES);
    }
    assert Addrs(TOP) == {256} by {
      assert TOP[0].a in Addrs(TOP);
    }
    assert AllAddrs([TOP]) == {256};
    assert Upper(Config(128), X, TOP, [], 256);
    assert Upper(Config(128), X, LEAVES, [TOP], 256);
    assert X.Keys == {0, 128, 256};
  }

  // Asked for 45 to 55, get_range stops in the left leaf, keeps index 4 in the right one, reads 90 there
  // and answers that nothing was found; yet 50 is there.
  lemma RangeMisses()
    ensures WellFormed(Config(128), Example(), [LEAVES, TOP], 256) && In(Example(), LEAVES)
    ensures Within(LEAVES, 0, 45) && Cut(Example()[LEAVES[0].a].key, 4, 45)
    ensures Fits(Config(128), RIGHT_BLOCK) && View(Config(128), RIGHT_BLOCK) == Example()[LEAVES[1].a]
    ensures RangeEnd(Example(), LEAVES, RIGHT_BLOCK, 0, 4, 55) == -1
    ensures !RightAt(Flat(Example(), LEAVES), 45, 55, -1) && !RangeAnswer(ToMap(Flat(Example(), LEAVES)), 45, 55, -1)
    ensures !Reaches(Example(), LEAVES, 0, 45) && !Harmless(Example(), LEAVES, RIGHT_BLOCK, 1, 4, 55)
  {
    hide WellFormed, Flat;
    ExampleTree();
    ExampleEntries();
    assert ENTRIES[4].lo == 50;
    assert ENTRIES[8].lo == 90;
    ExampleHas();
  }

  // Key 50 is in the map, with another value than -1.
  lemma ExampleHas()
    ensures !RangeAnswer(ToMap(ENTRIES), 45, 55, -1)
  {
    hide ToMap;
    ExampleSorted();
    Has(ENTRIES, 4);
    var m := ToMap(ENTRIES);
    assert 50 in m && m[50] == 5;
    forall k | k in m ensures m[k] != -1 {
      var i := Find(ENTRIES, k);
    }
  }
}
