/**
  The shape of the B+ tree kept by bplustree.c, stated on values.

  A level of the tree is the left-to-right list of its nodes.  Each list element
  carries the address of a node and the lowest key the node may hold; for the first
  node of a level that bound is MIN_KEY.  Expanding every node of a level into its
  children must give the level below, separators included.
 */
module BptLevels {
  const INVALID: int := 0xdeadbeef
  const MIN_KEY: int := -0x8000_0000

  // Block size, children per inner node, entries per leaf.
  datatype Cfg = Cfg(bs: int, order: int, entries: int)

  predicate CfgOK(c: Cfg) {
    c.bs > 0 && c.bs % 2 == 0 && c.order >= 4 && c.entries >= 1
  }

  // What a block holds, without the unused tail of its arrays; val is the
  // children of an inner node, or the data of a leaf.
  datatype Node = Node(self: int, parent: int, prev: int, next: int, leaf: bool,
                       key: seq<int>, val: seq<int>)

  type Image = map<int, Node>

  datatype Entry = Entry(lo: int, a: int)

  // ---------------------------------------------------------------- levels

  // What a node contributes to the level below: a leaf its keys with their data,
  // an inner node its children with their lowest keys.
  ghost function Expand(lo: int, n: Node): (r: seq<Entry>)
    ensures |r| == |n.val|
    ensures forall i :: 0 <= i < |r| ==> r[i] == Entry(KeyAt(lo, n, i), n.val[i])
  {
    seq(|n.val|, i requires 0 <= i < |n.val| => Entry(KeyAt(lo, n, i), n.val[i]))
  }

  ghost function KeyAt(lo: int, n: Node, i: int): int
    requires 0 <= i
  {
    if n.leaf && i < |n.key| then n.key[i]
    else if !n.leaf && 0 < i <= |n.key| then n.key[i - 1]
    else lo
  }

  ghost predicate In(X: Image, L: seq<Entry>) {
    forall i :: 0 <= i < |L| ==> L[i].a in X
  }

  ghost predicate Selfs(X: Image, L: seq<Entry>)
    requires In(X, L)
  {
    forall i :: 0 <= i < |L| ==> X[L[i].a].self == L[i].a
  }

  ghost function Flat(X: Image, L: seq<Entry>): seq<Entry>
    requires In(X, L)
  {
    if L == [] then []
    else Flat(X, L[..|L| - 1]) + Expand(L[|L| - 1].lo, X[L[|L| - 1].a])
  }

  ghost predicate Sorted(L: seq<Entry>) {
    forall i, j :: 0 <= i < j < |L| ==> L[i].lo < L[j].lo
  }

  ghost predicate NoDup(L: seq<Entry>) {
    forall i, j :: 0 <= i < j < |L| ==> L[i].a != L[j].a
  }

  ghost function Before(L: seq<Entry>, i: int): int
    requires 0 <= i < |L|
  {
    if i == 0 then INVALID else L[i - 1].a
  }

  ghost function After(L: seq<Entry>, i: int): int
    requires 0 <= i < |L|
  {
    if i == |L| - 1 then INVALID else L[i + 1].a
  }

  ghost predicate Linked(X: Image, L: seq<Entry>)
    requires In(X, L)
  {
    forall i {:trigger Before(L, i)} {:trigger After(L, i)} :: 0 <= i < |L| ==>
      X[L[i].a].prev == Before(L, i) && X[L[i].a].next == After(L, i)
  }

  ghost function Addrs(L: seq<Entry>): set<int> {
    set e | e in L :: e.a
  }

  // ---------------------------------------------------------------- flattening

  lemma {:induction false} FlatConcat(X: Image, A: seq<Entry>, B: seq<Entry>)
    requires In(X, A) && In(X, B)
    ensures In(X, A + B)
    ensures Flat(X, A + B) == Flat(X, A) + Flat(X, B)
  {
    if B == [] {
      assert A + B == A;
    } else {
      var b, e := B[..|B| - 1], B[|B| - 1];
      FlatConcat(X, A, b);
      assert (A + B)[..|A + B| - 1] == A + b && (A + B)[|A + B| - 1] == e;
      calc {
        Flat(X, A + B);
        Flat(X, A + b) + Expand(e.lo, X[e.a]);
        (Flat(X, A) + Flat(X, b)) + Expand(e.lo, X[e.a]);
        Flat(X, A) + (Flat(X, b) + Expand(e.lo, X[e.a]));
        Flat(X, A) + Flat(X, B);
      }
    }
  }

  ghost predicate SameEntries(m: Node, n: Node) {
    m.key == n.key && m.val == n.val && m.leaf == n.leaf
  }

  lemma {:induction false} FlatFrame(X: Image, Y: Image, L: seq<Entry>)
    requires In(X, L) && In(Y, L)
    requires forall i :: 0 <= i < |L| ==> SameEntries(X[L[i].a], Y[L[i].a])
    ensures Flat(X, L) == Flat(Y, L)
  {
    if L != [] {
      FlatFrame(X, Y, L[..|L| - 1]);
      var e := L[|L| - 1];
      assert Expand(e.lo, X[e.a]) == Expand(e.lo, Y[e.a]) by {
        hide Flat;
      }
    }
  }

  lemma FlatOne(X: Image, e: Entry)
    requires e.a in X
    ensures In(X, [e]) && Flat(X, [e]) == Expand(e.lo, X[e.a])
  {
    assert [e][..0] == [];
  }

  // The j-th node's p-th child sits at this position of the level below.
  ghost function Off(X: Image, L: seq<Entry>, j: int): int
    requires In(X, L) && 0 <= j <= |L|
  {
    |Flat(X, L[..j])|
  }

  lemma FlatSplit(X: Image, L: seq<Entry>, j: int)
    requires In(X, L) && 0 <= j < |L|
    ensures Flat(X, L) == Flat(X, L[..j]) + Expand(L[j].lo, X[L[j].a]) + Flat(X, L[j + 1..])
  {
    assert L == L[..j] + ([L[j]] + L[j + 1..]);
    FlatOne(X, L[j]);
    FlatConcat(X, [L[j]], L[j + 1..]);
    FlatConcat(X, L[..j], [L[j]] + L[j + 1..]);
  }

  lemma FlatAt(X: Image, L: seq<Entry>, j: int, p: int)
    requires In(X, L) && 0 <= j < |L| && 0 <= p < |X[L[j].a].val|
    ensures 0 <= Off(X, L, j) + p < |Flat(X, L)|
    ensures Flat(X, L)[Off(X, L, j) + p] == Expand(L[j].lo, X[L[j].a])[p]
  {
    FlatSplit(X, L, j);
  }

  lemma {:induction false} Locate(X: Image, L: seq<Entry>, t: int) returns (j: int, p: int)
    requires In(X, L) && 0 <= t < |Flat(X, L)|
    ensures 0 <= j < |L| && 0 <= p < |X[L[j].a].val| && t == Off(X, L, j) + p
  {
    var m := |L| - 1;
    if t < |Flat(X, L[..m])| {
      j, p := Locate(X, L[..m], t);
      assert L[..m][..j] == L[..j];
    } else {
      j, p := m, t - |Flat(X, L[..m])|;
    }
  }

  ghost predicate Populated(X: Image, L: seq<Entry>)
    requires In(X, L)
  {
    forall i :: 0 <= i < |L| ==> !X[L[i].a].leaf && |X[L[i].a].val| > 0
  }

  lemma OffStep(X: Image, L: seq<Entry>, j: int)
    requires In(X, L) && 0 <= j < |L|
    ensures Off(X, L, j + 1) == Off(X, L, j) + |X[L[j].a].val|
  {
    assert L[..j + 1][..j] == L[..j];
  }

  lemma {:induction false} OffMono(X: Image, L: seq<Entry>, i: int, j: int)
    requires In(X, L) && Populated(X, L) && 0 <= i < j <= |L|
    ensures Off(X, L, i) < Off(X, L, j)
    decreases j
  {
    OffStep(X, L, j - 1);
    if i < j - 1 {
      OffMono(X, L, i, j - 1);
    }
  }

  // The bound of a node is the bound of its first child, so order is inherited.
  lemma SortedUp(X: Image, L: seq<Entry>)
    requires In(X, L) && Populated(X, L) && Sorted(Flat(X, L))
    ensures Sorted(L)
  {
    forall i, j | 0 <= i < j < |L|
      ensures L[i].lo < L[j].lo
    {
      FlatAt(X, L, i, 0);
      FlatAt(X, L, j, 0);
      OffMono(X, L, i, j);
    }
  }
}
