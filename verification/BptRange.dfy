/** bplus_tree_get_range: the last entry of a key range, found by walking the leaves. */
module BptRange {
  import opened BptLevels
  import opened BptShape
  import opened BptTree
  import opened BptBlock
  import opened BptDisk
  import opened BptEdit
  import opened BptLeafEdit
  import opened BptSearch
  import opened BptPut

  // ---------------------------------------------------------------- reads past the children count

  // key(node)[i].  The entry after the last of the key array is the start of the data array.
  function KeyRead(b: Block, i: int): int
    requires 0 <= i <= |b.key| == |b.data| && |b.data| > 0
  {
    if i < |b.key| then b.key[i] else ToInt32(b.data[0])
  }

  // data(node)[i].  What lies after the data array is anything.
  function DataRead(b: Block, i: int, beyond: int): int
    requires 0 <= i <= |b.data|
  {
    if i < |b.data| then b.data[i] else beyond
  }

  // ---------------------------------------------------------------- the walk, on the list of entries

  // The last position from pos on whose key is at most max, if the one at pos is; else at.
  ghost function ScanTo(F: seq<Entry>, pos: int, max: int, at: int): int
    requires 0 <= pos
    decreases |F| - pos
  {
    if pos < |F| && F[pos].lo <= max then ScanTo(F, pos + 1, max, pos) else at
  }

  lemma {:induction false} ScanLast(F: seq<Entry>, pos: int, max: int, at: int)
    requires 0 <= pos <= |F|
    ensures var r := ScanTo(F, pos, max, at);
      if pos < |F| && F[pos].lo <= max then
        pos <= r < |F| && F[r].lo <= max && (r + 1 < |F| ==> max < F[r + 1].lo)
      else r == at
    decreases |F| - pos
  {
    if pos < |F| && F[pos].lo <= max {
      ScanLast(F, pos + 1, max, pos);
    }
  }

  lemma ScanStep(F: seq<Entry>, pos: int, max: int, at: int)
    requires 0 <= pos
    ensures ScanTo(F, pos, max, at) == if pos < |F| && F[pos].lo <= max then ScanTo(F, pos + 1, max, pos) else at
  {
  }

  // Position at holds the greatest key of the range; -1 says the range is empty.
  ghost predicate RightAt(F: seq<Entry>, min: int, max: int, at: int) {
    if at == -1 then forall i :: 0 <= i < |F| ==> !(min <= F[i].lo <= max)
    else 0 <= at < |F| && min <= F[at].lo <= max && (at + 1 < |F| ==> max < F[at + 1].lo)
  }

  // What that means for the map.
  ghost predicate RangeAnswer(m: map<int, int>, min: int, max: int, r: int) {
    if exists k :: k in m && min <= k <= max
    then exists k :: k in m && min <= k <= max && m[k] == r && forall x :: x in m && min <= x <= max ==> x <= k
    else r == -1
  }

  lemma RightAnswer(F: seq<Entry>, min: int, max: int, at: int)
    requires Sorted(F) && RightAt(F, min, max, at)
    ensures RangeAnswer(ToMap(F), min, max, if at == -1 then -1 else F[at].a)
  {
    hide ToMap;
    var m := ToMap(F);
    if at == -1 {
      forall k | k in m ensures !(min <= k <= max) {
        var i := Find(F, k);
      }
    } else {
      Has(F, at);
      var k := F[at].lo;
      forall x | x in m && min <= x <= max ensures x <= k {
        var i := Find(F, x);
      }
    }
  }

  // ---------------------------------------------------------------- the walk, over the leaves

  // Buffer node was filled with the j-th leaf.
  ghost predicate AtNode(t: Tree, node: int, j: int)
    reads t
  {
    && t.lv != [] && 0 <= j < |t.lv[0]| && 0 <= node < MIN_CACHE_NUM && |t.cache| == MIN_CACHE_NUM
    && t.lv[0][j].a in t.D && t.lv[0][j].a in t.disk && t.cache[node] == t.disk[t.lv[0][j].a]
    && Fits(t.c, t.cache[node]) && View(t.c, t.cache[node]) == t.D[t.lv[0][j].a]
  }

  ghost function Entries(t: Tree): seq<Entry>
    requires Valid(t) && t.lv != []
    reads t
  {
    Flat(t.D, t.lv[0])
  }

  // The entry of leaf j at i, and where the walk goes from there.
  lemma WalkStep(c: Cfg, X: Image, lv: seq<seq<Entry>>, root: int, j: int, i: int)
    requires CfgOK(c) && WellFormed(c, X, lv, root) && lv != [] && 0 <= j < |lv[0]|
    ensures In(X, lv[0]) && LeafNode(c, X[lv[0][j].a], lv[0][j].a, |lv| == 1) && 0 <= Off(X, lv[0], j)
    ensures Off(X, lv[0], j + 1) == Off(X, lv[0], j) + |X[lv[0][j].a].key| <= |Flat(X, lv[0])|
    ensures j + 1 == |lv[0]| ==> Off(X, lv[0], j + 1) == |Flat(X, lv[0])|
    ensures X[lv[0][j].a].next == After(lv[0], j)
    ensures j + 1 < |lv[0]| ==> lv[0][j + 1].a != INVALID
    ensures 0 <= i < |X[lv[0][j].a].key| ==>
      && Off(X, lv[0], j) + i < |Flat(X, lv[0])|
      && Flat(X, lv[0])[Off(X, lv[0], j) + i] == Entry(X[lv[0][j].a].key[i], X[lv[0][j].a].val[i])
  {
    hide Flat, Upper, Sorted, Bounded, ToMap, NoDup;
    var L := lv[0];
    assert LeafNode(c, X[L[j].a], L[j].a, |lv| == 1);
    OffStep(X, L, j);
    OffWeak(X, L, j + 1, |L|);
    assert L[..|L|] == L;
    assert X[L[j].a].next == After(L, j);
    if 0 <= i < |X[L[j].a].key| {
      FlatAt(X, L, j, i);
    }
  }

  // b lies where a leaf should, with room for an index of i.
  ghost predicate Indexable(b: Block, i: int) {
    0 <= i <= |b.key| == |b.data| && |b.data| > 0 && b.children <= |b.key|
  }

  // Where a walk from entry i of leaf j, in block b, ends; -2 is an entry that is not there.
  ghost function WalkEnd(X: Image, L: seq<Entry>, b: Block, j: int, i: int, max: int): int
    requires In(X, L) && 0 <= j < |L| && Indexable(b, i)
  {
    if i < b.children then ScanTo(Flat(X, L), Off(X, L, j) + i, max, -1)
    else if KeyRead(b, i) <= max then ScanTo(Flat(X, L), Off(X, L, j + 1), max, -2)
    else -1
  }

  method WalkLeaves(t: Tree, first: int, index: int, max: int, beyond: int, ghost j0: int)
      returns (start: int, ghost at: int)
    requires Valid(t) && AtNode(t, first, j0) && t.cache[first].leaf && 0 <= index <= t.c.entries && In(t.D, t.lv[0])
    modifies t`cache
    ensures Valid(t)
    ensures var b := old(t.cache)[first];
      && b.leaf && |b.key| == |b.data| == t.c.entries > 0
      && at == WalkEnd(t.D, t.lv[0], b, j0, index, max)
      && -2 <= at < |Entries(t)|
      && start == if at == -1 then -1 else if at == -2 then DataRead(b, index, beyond) else Entries(t)[at].a
  {
    hide Tree.Buffers, Tree.OnDisk, Tree.Allocation, Count, View, WellFormed, Flat, ScanTo, Fits;
    var node, i := first, index;
    ghost var j, b := j0, t.cache[first];
    LeafBuffer(t, first, j0, index);
    ghost var F, goal := Entries(t), WalkEnd(t.D, t.lv[0], b, j0, index, max);
    start, at := -1, -1;
    ghost var entry := true;
    while node != -1 && KeyRead(t.cache[node], i) <= max
      invariant Valid(t) && F == Entries(t)
      invariant entry ==> node == first && i == index && j == j0 && t.cache == old(t.cache) && start == -1 && at == -1
      invariant node != -1 ==>
        && AtNode(t, node, j) && t.cache[node].leaf
        && 0 <= i <= |t.cache[node].key| == |t.cache[node].data| && |t.cache[node].data| > 0
      invariant !entry && node != -1 ==>
        i < t.cache[node].children && ScanTo(F, Off(t.D, t.lv[0], j) + i, max, at) == goal
      invariant !entry && node == -1 ==> at == goal
      invariant -2 <= at < |F| && (at >= 0 ==> start == F[at].a) && (at == -2 ==> start == DataRead(b, index, beyond))
      invariant (at == -1 ==> start == -1)
      decreases node != -1, |t.lv[0]| - j, |F| - i
    {
      LeafBuffer(t, node, j, i);
      ScanStep(F, Off(t.D, t.lv[0], j) + i, max, at);
      start := DataRead(t.cache[node], i, beyond);
      at := if i < t.cache[node].children then Off(t.D, t.lv[0], j) + i else -2;
      entry := false;
      i := i + 1;
      if i >= t.cache[node].children {
        node := t.NodeSeek(t.cache[node].next);
        i := 0;
        j := j + 1;
        if node != -1 {
          LeafBuffer(t, node, j, i);
        } else {
          ScanStep(F, |F|, max, at);
        }
      }
    }
    if node != -1 {
      LeafBuffer(t, node, j, i);
      ScanStep(F, Off(t.D, t.lv[0], j) + i, max, at);
    }
  }

  // What the buffer of the j-th leaf says about the entries.
  lemma LeafBuffer(t: Tree, node: int, j: int, i: int)
    requires Valid(t) && AtNode(t, node, j)
    ensures var b, X, L := t.cache[node], t.D, t.lv[0];
      && b.leaf && |b.key| == |b.data| == t.c.entries > 0 && 0 < b.children <= t.c.entries && In(X, L)
      && 0 <= Off(X, L, j) && Off(X, L, j + 1) == Off(X, L, j) + b.children <= |Entries(t)|
      && (j + 1 == |L| ==> Off(X, L, j + 1) == |Entries(t)|)
      && b.next == After(L, j) && (j + 1 < |L| ==> L[j + 1].a != INVALID && L[j + 1].a in X)
      && (0 <= i < b.children ==> Off(X, L, j) + i < |Entries(t)| && Entries(t)[Off(X, L, j) + i] == Entry(b.key[i],
                                                                                                           b.data[i]))
  {
    hide Tree.Buffers, Tree.OnDisk, Tree.Allocation, Count, View, WellFormed, Flat, Fits;
    WalkStep(t.c, t.D, t.lv, t.root, j, i);
    ViewHeader(t.c, t.cache[node]);
    ViewLeaf(t.c, t.cache[node]);
    LeafArrays(t.c, t.cache[node]);
  }

  lemma LeafArrays(c: Cfg, b: Block)
    requires Fits(c, b) && b.leaf
    ensures |b.key| == |b.data| == c.entries && b.children <= c.entries
  {
  }

  // ---------------------------------------------------------------- when the walk starts in the right place

  // The entries from p0 on are those with keys of at least min.
  ghost predicate From(F: seq<Entry>, p0: int, min: int) {
    0 <= p0 <= |F| && (forall i :: 0 <= i < p0 ==> F[i].lo < min) && (forall i :: p0 <= i < |F| ==> min <= F[i].lo)
  }

  // Starting at p1 instead of p0 is right exactly if the walk takes a step, or has none to take.
  lemma ScanRight(F: seq<Entry>, p0: int, p1: int, min: int, max: int, none: int)
    requires Sorted(F) && From(F, p0, min) && p0 <= p1 <= |F| && min <= max && (none == -1 || none == -2)
    ensures RightAt(F, min, max, ScanTo(F, p1, max, none)) <==>
      (p1 < |F| && F[p1].lo <= max) || (none == -1 && (p0 == |F| || max < F[p0].lo))
  {
    hide ScanTo;
    ScanLast(F, p1, max, none);
  }

  // The leaf that covers min has a key from min on, or is the last.
  ghost predicate Reaches(X: Image, L: seq<Entry>, j: int, min: int)
    requires In(X, L) && 0 <= j < |L|
  {
    j == |L| - 1 || exists i :: 0 <= i < |X[L[j].a].key| && min <= X[L[j].a].key[i]
  }

  // The walk has moved on to leaf n, in block b, with its index still at i: what it reads there does no harm.
  ghost predicate Harmless(X: Image, L: seq<Entry>, b: Block, n: int, i: int, max: int)
    requires In(X, L) && 0 <= n < |L| && Indexable(b, i)
  {
    if i < b.children then b.key[i] <= max || max < b.key[0]
    else if KeyRead(b, i) <= max then n + 1 < |L| && X[L[n + 1].a].key != [] && X[L[n + 1].a].key[0] <= max
    else max < b.key[0]
  }

  // The position get_range ends at, the search having stopped at entry p of leaf j.
  ghost function RangeEnd(X: Image, L: seq<Entry>, next: Block, j: int, p: int, max: int): int
    requires In(X, L) && 0 <= j < |L| && 0 <= p && Indexable(next, p)
  {
    if p < |X[L[j].a].key| then ScanTo(Flat(X, L), Off(X, L, j) + p, max, -1)
    else if j == |L| - 1 then -1
    else WalkEnd(X, L, next, j + 1, p, max)
  }

  lemma Start(c: Cfg, X: Image, lv: seq<seq<Entry>>, root: int, j: int, min: int, p: int)
    requires CfgOK(c) && WellFormed(c, X, lv, root) && lv != [] && 0 <= j < |lv[0]| && Within(lv[0], j, min)
    requires Cut(X[lv[0][j].a].key, p, min)
    ensures Sorted(Flat(X, lv[0])) && From(Flat(X, lv[0]), Off(X, lv[0], j) + p, min)
    ensures p < |X[lv[0][j].a].key| <==> exists i :: 0 <= i < |X[lv[0][j].a].key| && min <= X[lv[0][j].a].key[i]
  {
    hide Flat, Upper, Linked, NoDup, ToMap, Bounded;
    LeafFacts(c, X, lv, root, j);
    LeafDecides(c, X, lv[0], |lv| == 1, j, min, p);
  }

  // get_range is right exactly when the leaf it first comes to has a key from min on or is the last,
  // or else when the index it keeps does no harm in the next leaf.
  lemma RangeExact(c: Cfg, X: Image, lv: seq<seq<Entry>>, root: int, next: Block, j: int, p: int, min: int, max: int)
    requires CfgOK(c) && WellFormed(c, X, lv, root) && lv != [] && 0 <= j < |lv[0]| && Within(lv[0], j, min)
    requires min <= max
    requires In(X, lv[0]) && Cut(X[lv[0][j].a].key, p, min) && Indexable(next, p)
    requires p == |X[lv[0][j].a].key| && j + 1 < |lv[0]| ==> Fits(c, next) && View(c, next) == X[lv[0][j + 1].a]
    ensures RightAt(Flat(X, lv[0]), min, max, RangeEnd(X, lv[0], next, j, p, max))
      <==> Reaches(X, lv[0], j, min) || (j + 1 < |lv[0]| && Harmless(X, lv[0], next, j + 1, p, max))
  {
    hide WellFormed, Flat, ScanTo, View, Sorted, Fits;
    var L, F := lv[0], Flat(X, lv[0]);
    Start(c, X, lv, root, j, min, p);
    WalkStep(c, X, lv, root, j, p);
    var p0 := Off(X, L, j) + p;
    if p < |X[L[j].a].key| {
      ScanRight(F, p0, p0, min, max, -1);
    } else if j + 1 < |L| {
      WalkStep(c, X, lv, root, j + 1, 0);
      WalkStep(c, X, lv, root, j + 1, p);
      ViewHeader(c, next);
      ViewLeaf(c, next);
      if p < next.children {
        ScanRight(F, p0, p0 + p, min, max, -1);
      } else {
        ScanRight(F, p0, Off(X, L, j + 2), min, max, -2);
        ScanRight(F, p0, |F|, min, max, -1);
        ScanStep(F, |F|, max, -1);
        if j + 2 < |L| {
          WalkStep(c, X, lv, root, j + 2, 0);
        }
      }
    }
  }

  // ---------------------------------------------------------------- get_range

  // What get_range did, the search having stopped at entry p of leaf j: it ended at position at,
  // the right one if the leaf reaches min, and otherwise exactly if its index does no harm.
  ghost predicate Outcome(t: Tree, min: int, max: int, start: int, j: int, p: int, at: int)
    requires Valid(t) && t.lv != []
    reads t
  {
    var L := t.lv[0];
    && 0 <= j < |L| && Within(L, j, min) && In(t.D, L) && Cut(t.D[L[j].a].key, p, min)
    && -2 <= at < |Entries(t)| && (at == -1 ==> start == -1) && (at >= 0 ==> start == Entries(t)[at].a)
    && (if Reaches(t.D, L, j, min) then RightAt(Entries(t), min, max, at)
        else
          && j + 1 < |L| && L[j + 1].a in t.disk && Indexable(t.disk[L[j + 1].a], p)
          && (RightAt(Entries(t), min, max, at) <==> Harmless(t.D, L, t.disk[L[j + 1].a], j + 1, p, max)))
  }

  method RangeFrom(t: Tree, leaf: int, min: int, max: int, beyond: int, ghost j: int)
      returns (start: int, ghost p: int, ghost at: int)
    requires Valid(t) && AtNode(t, leaf, j) && Within(t.lv[0], j, min) && min <= max
    modifies t`cache
    ensures Valid(t) && Outcome(t, min, max, start, j, p, at)
  {
    hide Tree.Buffers, Tree.OnDisk, Tree.Allocation, Count, View, WellFormed, Flat, ScanTo, Sorted, Fits, RightAt;
    hide Harmless;
    hide Leaves, Upper, ToMap, AllAddrs;
    start, at := -1, -1;
    var node := leaf;
    LeafBuffer(t, node, j, 0);
    ghost var b := t.cache[node];
    LeafFacts(t.c, t.D, t.lv, t.root, j);
    ViewLeaf(t.c, t.cache[node]);
    var i := KeyBinarySearch(t.cache[node], min);
    p := if i < 0 then -i - 1 else i;
    Start(t.c, t.D, t.lv, t.root, j, min, p);
    if i < 0 {
      i := -i - 1;
      if i >= t.cache[node].children {
        node := t.NodeSeek(t.cache[node].next);
      }
    }
    ghost var next := if node == -1 then b else t.cache[node];
    if node != -1 {
      ghost var n := if p < b.children then j else j + 1;
      LeafBuffer(t, node, n, p);
      start, at := WalkLeaves(t, node, i, max, beyond, n);
    }
    AtRangeEnd(t.D, t.lv[0], next, j, p, max);
    RangeExact(t.c, t.D, t.lv, t.root, next, j, p, min, max);
  }

  lemma AtRangeEnd(X: Image, L: seq<Entry>, b: Block, j: int, p: int, max: int)
    requires In(X, L) && 0 <= j < |L| && 0 <= p && Indexable(b, p)
    ensures RangeEnd(X, L, b, j, p, max) ==
      if p < |X[L[j].a].key| then ScanTo(Flat(X, L), Off(X, L, j) + p, max, -1)
      else if j == |L| - 1 then -1 else WalkEnd(X, L, b, j + 1, p, max)
  {
  }

  method GetRange(t: Tree, key1: int, key2: int, beyond: int)
      returns (start: int, ghost j: int, ghost p: int, ghost at: int)
    requires Valid(t) && MIN_KEY <= key1 && MIN_KEY <= key2
    modifies t`cache
    ensures Valid(t) && Map(t) == old(Map(t)) && t.disk == old(t.disk)
    ensures t.lv == [] ==> start == -1
    ensures t.lv != [] ==>
      var min, max := if key1 <= key2 then key1 else key2, if key1 <= key2 then key2 else key1;
      && Outcome(t, min, max, start, j, p, at)
      && (RightAt(Entries(t), min, max, at) ==> RangeAnswer(Map(t), min, max, start))
  {
    hide Tree.Buffers, Tree.OnDisk, Tree.Allocation, Count, View, WellFormed, Content, Flat, Sorted, ToMap, Fits;
    hide RightAt, Leaves, Upper;
    start, at, p := -1, -1, 0;
    var min := if key1 <= key2 then key1 else key2;
    var max := if min == key1 then key2 else key1;
    var node;
    node, j := SeekLeaf(t, min);
    if node != -1 {
      start, p, at := RangeFrom(t, node, min, max, beyond, j);
      LeafFacts(t.c, t.D, t.lv, t.root, j);
      if RightAt(Entries(t), min, max, at) {
        EntriesSorted(t);
        RightAnswer(Entries(t), min, max, at);
        NotBeyond(Entries(t), min, max, at);
      }
    }
  }

  lemma EntriesSorted(t: Tree)
    requires Valid(t) && t.lv != []
    ensures Sorted(Entries(t))
  {
  }

  lemma NotBeyond(F: seq<Entry>, min: int, max: int, at: int)
    requires RightAt(F, min, max, at)
    ensures -1 <= at < |F|
  {
  }
}
