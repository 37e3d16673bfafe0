/** The LRU list: a circular doubly linked list through a dummy head. */
module LruRing {
  const HEAD := -1

  // The i-th element, with the head on either side of the list.
  function Nth(order: seq<int>, i: int): int {
    if 0 <= i < |order| then order[i] else HEAD
  }

  function After(order: seq<int>, i: int): int { Nth(order, i + 1) }

  function Before(order: seq<int>, i: int): int { Nth(order, i - 1) }

  ghost predicate Distinct(order: seq<int>) {
    && (forall i :: 0 <= i < |order| ==> order[i] >= 0)
    && forall i, j :: 0 <= i < j < |order| ==> order[i] != order[j]
  }

  // The links run through the elements in order and back.
  ghost predicate Ring(next: map<int, int>, prev: map<int, int>, order: seq<int>) {
    && Distinct(order)
    && (forall x :: x in next <==> x == HEAD || x in order)
    && (forall x :: x in prev <==> x == HEAD || x in order)
    && (forall i {:trigger After(order, i)} :: -1 <= i < |order| ==> next[Nth(order, i)] == After(order, i))
    && (forall i {:trigger Before(order, i)} :: 0 <= i <= |order| ==> prev[Nth(order, i)] == Before(order, i))
  }

  function Without(order: seq<int>, i: int): (r: seq<int>)
    requires 0 <= i < |order|
    ensures |r| == |order| - 1
    ensures forall k {:trigger r[k]} :: 0 <= k < i ==> r[k] == order[k]
    ensures forall k {:trigger r[k]} :: i <= k < |r| ==> r[k] == order[k + 1]
  {
    order[..i] + order[i + 1..]
  }

  function With(order: seq<int>, i: int, e: int): (r: seq<int>)
    requires 0 <= i <= |order|
    ensures |r| == |order| + 1 && r[i] == e
    ensures forall k {:trigger r[k]} :: 0 <= k < i ==> r[k] == order[k]
    ensures forall k {:trigger r[k]} :: i < k < |r| ==> r[k] == order[k - 1]
  {
    order[..i] + [e] + order[i..]
  }

  // ---------------------------------------------------------------- unlink

  lemma NthDistinct(order: seq<int>, i: int, j: int)
    requires Distinct(order) && -1 <= i < |order| && -1 <= j < |order| && i != j
    ensures Nth(order, i) != Nth(order, j)
  {
  }

  lemma MemberOut(order: seq<int>, i: int, x: int)
    requires Distinct(order) && 0 <= i < |order|
    ensures x in Without(order, i) <==> x in order && x != order[i]
  {
    var r := Without(order, i);
    if x in r {
      var k :| 0 <= k < |r| && r[k] == x;
      assert order[if k < i then k else k + 1] == x;
    }
    if x in order && x != order[i] {
      var k :| 0 <= k < |order| && order[k] == x;
      assert r[if k < i then k else k - 1] == x;
    }
  }

  lemma Unlink(next: map<int, int>, prev: map<int, int>, order: seq<int>, i: int, next2: map<int, int>,
               prev2: map<int, int>)
    requires Ring(next, prev, order) && 0 <= i < |order|
    requires next2 == next[Nth(order, i - 1) := Nth(order, i + 1)] - {order[i]}
    requires prev2 == prev[Nth(order, i + 1) := Nth(order, i - 1)] - {order[i]}
    ensures Ring(next2, prev2, Without(order, i))
  {
    hide Without;
    var r := Without(order, i);
    assert Distinct(r);
    forall x ensures (x in next2 <==> x == HEAD || x in r) && (x in prev2 <==> x == HEAD || x in r) {
      MemberOut(order, i, x);
    }
    forall k | -1 <= k < |r| ensures next2[Nth(r, k)] == After(r, k) {
      UnlinkNext(next, prev, order, i, next2, k);
    }
    forall k | 0 <= k <= |r| ensures prev2[Nth(r, k)] == Before(r, k) {
      UnlinkPrev(next, prev, order, i, prev2, k);
    }
  }

  lemma UnlinkNext(next: map<int, int>, prev: map<int, int>, order: seq<int>, i: int, next2: map<int, int>, k: int)
    requires Ring(next, prev, order) && 0 <= i < |order| && -1 <= k < |order| - 1
    requires next2 == next[Nth(order, i - 1) := Nth(order, i + 1)] - {order[i]}
    ensures var r := Without(order, i); Nth(r, k) in next2 && next2[Nth(r, k)] == After(r, k)
  {
    hide Without;
    var r, o := Without(order, i), if k < i then k else k + 1;
    assert Nth(r, k) == Nth(order, o);
    assert next[Nth(order, o)] == After(order, o);
    NthDistinct(order, o, i);
    if o != i - 1 {
      NthDistinct(order, o, i - 1);
    }
  }

  lemma UnlinkPrev(next: map<int, int>, prev: map<int, int>, order: seq<int>, i: int, prev2: map<int, int>, k: int)
    requires Ring(next, prev, order) && 0 <= i < |order| && 0 <= k <= |order| - 1
    requires prev2 == prev[Nth(order, i + 1) := Nth(order, i - 1)] - {order[i]}
    ensures var r := Without(order, i); Nth(r, k) in prev2 && prev2[Nth(r, k)] == Before(r, k)
  {
    hide Without;
    var r, o := Without(order, i), if k < i then k else k + 1;
    assert Nth(r, k) == Nth(order, o);
    assert prev[Nth(order, o)] == Before(order, o);
    BackDistinct(order, o, i);
    if o != i + 1 {
      BackDistinct(order, o, i + 1);
    }
  }

  lemma BackDistinct(order: seq<int>, i: int, j: int)
    requires Distinct(order) && 0 <= i <= |order| && 0 <= j <= |order| && i != j
    ensures Nth(order, i) != Nth(order, j)
  {
  }

  // ---------------------------------------------------------------- link

  lemma MemberIn(order: seq<int>, i: int, e: int, x: int)
    requires 0 <= i <= |order|
    ensures x in With(order, i, e) <==> x in order || x == e
  {
    var r := With(order, i, e);
    if x in r {
      var k :| 0 <= k < |r| && r[k] == x;
      if k != i {
        assert order[if k < i then k else k - 1] == x;
      }
    }
    if x in order {
      var k :| 0 <= k < |order| && order[k] == x;
      assert r[if k < i then k else k + 1] == x;
    }
    assert r[i] == e;
  }

  // e goes in before position i.
  lemma Link(next: map<int, int>, prev: map<int, int>, order: seq<int>, i: int, e: int, next2: map<int, int>,
             prev2: map<int, int>)
    requires Ring(next, prev, order) && 0 <= i <= |order| && e >= 0 && e !in order
    requires next2 == next[e := Nth(order, i)][Nth(order, i - 1) := e]
    requires prev2 == prev[e := Nth(order, i - 1)][Nth(order, i) := e]
    ensures Ring(next2, prev2, With(order, i, e))
  {
    hide With;
    var r := With(order, i, e);
    DistinctWith(order, i, e);
    forall x ensures (x in next2 <==> x == HEAD || x in r) && (x in prev2 <==> x == HEAD || x in r) {
      MemberIn(order, i, e, x);
    }
    forall k | -1 <= k < |r| ensures next2[Nth(r, k)] == After(r, k) {
      LinkNext(next, prev, order, i, e, next2, k);
    }
    forall k | 0 <= k <= |r| ensures prev2[Nth(r, k)] == Before(r, k) {
      LinkPrev(next, prev, order, i, e, prev2, k);
    }
  }

  lemma DistinctWith(order: seq<int>, i: int, e: int)
    requires Distinct(order) && 0 <= i <= |order| && e >= 0 && e !in order
    ensures Distinct(With(order, i, e))
  {
    hide With;
    var r := With(order, i, e);
    forall a, b | 0 <= a < b < |r| ensures r[a] != r[b] {
      assert a != i ==> r[a] == order[if a < i then a else a - 1];
      assert b != i ==> r[b] == order[if b < i then b else b - 1];
    }
    forall a | 0 <= a < |r| ensures r[a] >= 0 {
      assert a != i ==> r[a] == order[if a < i then a else a - 1];
    }
  }

  lemma LinkNext(next: map<int, int>, prev: map<int, int>, order: seq<int>, i: int, e: int, next2: map<int, int>,
                 k: int)
    requires Ring(next, prev, order) && 0 <= i <= |order| && e >= 0 && e !in order && -1 <= k <= |order|
    requires next2 == next[e := Nth(order, i)][Nth(order, i - 1) := e]
    ensures var r := With(order, i, e); Nth(r, k) in next2 && next2[Nth(r, k)] == After(r, k)
  {
    hide With;
    var r := With(order, i, e);
    if k == i {
      assert Nth(r, k) == e && Nth(order, i - 1) != e;
    } else {
      var o := if k < i then k else k - 1;
      assert Nth(r, k) == Nth(order, o) != e;
      assert next[Nth(order, o)] == After(order, o);
      if o != i - 1 {
        NthDistinct(order, o, i - 1);
      }
    }
  }

  lemma LinkPrev(next: map<int, int>, prev: map<int, int>, order: seq<int>, i: int, e: int, prev2: map<int, int>,
                 k: int)
    requires Ring(next, prev, order) && 0 <= i <= |order| && e >= 0 && e !in order && 0 <= k <= |order| + 1
    requires prev2 == prev[e := Nth(order, i - 1)][Nth(order, i) := e]
    ensures var r := With(order, i, e); Nth(r, k) in prev2 && prev2[Nth(r, k)] == Before(r, k)
  {
    hide With;
    var r := With(order, i, e);
    if k == i {
      assert Nth(r, k) == e && Nth(order, i) != e;
    } else {
      var o := if k < i then k else k - 1;
      assert Nth(r, k) == Nth(order, o) != e;
      assert prev[Nth(order, o)] == Before(order, o);
      if o != i {
        BackDistinct(order, o, i);
      }
    }
  }
}
