/** Keeping the pools within their capacities, as the code does it: step by step, with its assertions. */
module LruOverflow {
  import opened LruRing
  import opened LruPools
  import opened LruLife

  // The links of the LRU list, its two pool pointers and its usage counters.
  datatype List = List(next: map<int, int>, prev: map<int, int>, lowPri: int, bottomPri: int, usage: int, high: int,
                       low: int)

  // The list from oldest to newest, and where its bottom and low pools end.
  datatype Shape = Shape(order: seq<int>, b: int, l: int)

  ghost predicate ListOK(hs: seq<Slot>, t: List, s: Shape, late: int) {
    Pools(hs, t.next, t.prev, s.order, s.b, s.l, t.lowPri, t.bottomPri, t.usage, t.high, t.low, late)
  }

  // Some placing of the pools accounts for links, pointers, flags and counters.
  ghost predicate Accounted(hs: seq<Slot>, t: List) {
    exists s :: ListOK(hs, t, s, 0)
  }

  lemma IsAccounted(hs: seq<Slot>, t: List, s: Shape)
    requires ListOK(hs, t, s, 0)
    ensures Accounted(hs, t)
  {
  }

  ghost predicate AllLive(hs: seq<Slot>, order: seq<int>) {
    forall i :: 0 <= i < |order| ==> IsLive(hs, order[i])
  }

  // Failed: an assertion did not hold, or the walk came back to the list's head.
  datatype Outcome = Failed | Done(hs: seq<Slot>, t: List)

  // ---------------------------------------------------------------- the two loops

  // The first loop, its pointer standing before position q.
  ghost function OverHigh(hs: seq<Slot>, t: List, order: seq<int>, q: int, cap: int): (o: Outcome)
    requires AllLive(hs, order) && 0 <= q <= |order|
    ensures o.Done? ==> AllLive(o.hs, order)
    decreases |order| - q
  {
    if t.high <= cap then Done(hs, t)
    else if q == |order| || Charge(hs, order[q]) > t.high then Failed
    else
      var x, c := order[q], Charge(hs, order[q]);
      OverHigh(SetPool(hs, x, false, true), t.(lowPri := x, high := t.high - c, low := t.low + c), order, q + 1, cap)
  }

  // The second loop, its pointer standing before position p.
  ghost function OverLow(hs: seq<Slot>, t: List, order: seq<int>, p: int, cap: int): (o: Outcome)
    requires AllLive(hs, order) && 0 <= p <= |order|
    decreases |order| - p
  {
    if t.low <= cap then Done(hs, t)
    else if p == |order| || Charge(hs, order[p]) > t.low then Failed
    else
      var x, c := order[p], Charge(hs, order[p]);
      OverLow(SetPool(hs, x, false, false), t.(bottomPri := x, low := t.low - c), order, p + 1, cap)
  }

  ghost function Maintained(hs: seq<Slot>, t: List, order: seq<int>, q: int, p: int, highCap: int, lowCap: int): Outcome
    requires AllLive(hs, order) && 0 <= q <= |order| && 0 <= p <= |order|
  {
    match OverHigh(hs, t, order, q, highCap)
    case Failed => Failed
    case Done(hs2, t2) => OverLow(hs2, t2, order, p, lowCap)
  }

  // The assertion that fails in the first loop: the next entry is the head, or weighs more than is left.
  ghost predicate TrippedHigh(hs: seq<Slot>, t: List, cap: int) {
    t.high > cap && t.lowPri in t.next && (t.next[t.lowPri] == HEAD || Charge(hs, t.next[t.lowPri]) > t.high)
  }

  // And in the second.
  ghost predicate TrippedLow(hs: seq<Slot>, t: List, cap: int) {
    t.low > cap && t.bottomPri in t.next && (t.next[t.bottomPri] == HEAD || Charge(hs, t.next[t.bottomPri]) > t.low)
  }

  // Whether taking the charges from position i on one by one brings the usage down to the capacity.
  function Drained(hs: seq<Slot>, order: seq<int>, i: int, have: int, cap: int): bool
    requires 0 <= i <= |order|
    decreases |order| - i
  {
    have <= cap || (i < |order| && Charge(hs, order[i]) <= have && Drained(hs, order, i + 1,
                                                                           have - Charge(hs, order[i]), cap))
  }

  lemma {:induction false} HighDrained(hs: seq<Slot>, was: seq<Slot>, t: List, order: seq<int>, q: int, cap: int)
    requires AllLive(hs, order) && 0 <= q <= |order| && forall x :: Charge(hs, x) == Charge(was, x)
    ensures OverHigh(hs, t, order, q, cap).Done? <==> Drained(was, order, q, t.high, cap)
    decreases |order| - q
  {
    if t.high > cap && q < |order| {
      var x, c := order[q], Charge(hs, order[q]);
      HighDrained(SetPool(hs, x, false, true), was, t.(lowPri := x, high := t.high - c, low := t.low + c), order, q + 1,
                  cap);
    }
  }

  // ---------------------------------------------------------------- pools that agree stay in agreement

  lemma ListLive(hs: seq<Slot>, t: List, s: Shape, late: int)
    requires ListOK(hs, t, s, late)
    ensures AllLive(hs, s.order) && Ring(t.next, t.prev, s.order) && Distinct(s.order) && 0 <= s.b <= s.l <= |s.order|
    ensures late == 1 ==> 0 < s.l
    ensures t.lowPri == Nth(s.order, s.l - 1 - late) && t.bottomPri == Nth(s.order, s.b - 1)
  {
    hide Weight;
  }

  lemma {:induction false} HighFits(hs: seq<Slot>, t: List, s: Shape, cap: int) returns (l: int)
    requires ListOK(hs, t, s, 0) && AllLive(hs, s.order) && 0 <= s.l <= |s.order| && 0 <= cap
    ensures var o := OverHigh(hs, t, s.order, s.l, cap);
      o.Done? && ListOK(o.hs, o.t, s.(l := l), 0) && o.t.high <= cap && Reflagged(hs, o.hs, s.order)
    ensures t.high <= cap ==> l == s.l
    decreases |s.order| - s.l
  {
    hide Pools, Reflagged, SetPool;
    NotReflagged(hs, s.order);
    l := s.l;
    if t.high > cap {
      HighToLow(hs, t.next, t.prev, s.order, s.b, s.l, t.lowPri, t.bottomPri, t.usage, t.high, t.low);
      HighCovers(hs, t, s);
      var x, c := s.order[s.l], Charge(hs, s.order[s.l]);
      var hs2, t2 := SetPool(hs, x, false, true), t.(lowPri := x, high := t.high - c, low := t.low + c);
      ListLive(hs2, t2, s.(l := s.l + 1), 0);
      l := HighFits(hs2, t2, s.(l := s.l + 1), cap);
      ReflagOne(hs, hs, s.order, x, false, true);
      ReflagTwice(hs, hs2, OverHigh(hs, t, s.order, s.l, cap).hs, s.order);
    }
  }

  lemma HighCovers(hs: seq<Slot>, t: List, s: Shape)
    requires ListOK(hs, t, s, 0) && 0 <= s.l < |s.order|
    ensures IsLive(hs, s.order[s.l]) && Charge(hs, s.order[s.l]) <= t.high
  {
    WeightMono(hs, s.order, s.l + 1, |s.order|);
    WeightStep(hs, s.order, s.l + 1);
  }

  lemma {:induction false} LowFits(hs: seq<Slot>, t: List, s: Shape, late: int, cap: int) returns (b: int)
    requires ListOK(hs, t, s, late) && AllLive(hs, s.order) && 0 <= s.b <= |s.order| && 0 <= cap
    ensures var o := OverLow(hs, t, s.order, s.b, cap);
      o.Done? && ListOK(o.hs, o.t, s.(b := b), late) && o.t.low <= cap && o.t.high == t.high && Reflagged(hs, o.hs,
                                                                                                          s.order)
    ensures t.low <= cap ==> b == s.b
    decreases |s.order| - s.b
  {
    hide Pools, Reflagged, SetPool;
    NotReflagged(hs, s.order);
    b := s.b;
    if t.low > cap {
      LowToBottom(hs, t.next, t.prev, s.order, s.b, s.l, t.lowPri, t.bottomPri, t.usage, t.high, t.low, late);
      LowCovers(hs, t, s, late);
      var x, c := s.order[s.b], Charge(hs, s.order[s.b]);
      var hs2, t2 := SetPool(hs, x, false, false), t.(bottomPri := x, low := t.low - c);
      ListLive(hs2, t2, s.(b := s.b + 1), late);
      b := LowFits(hs2, t2, s.(b := s.b + 1), late, cap);
      ReflagOne(hs, hs, s.order, x, false, false);
      ReflagTwice(hs, hs2, OverLow(hs, t, s.order, s.b, cap).hs, s.order);
    }
  }

  lemma LowCovers(hs: seq<Slot>, t: List, s: Shape, late: int)
    requires ListOK(hs, t, s, late) && 0 <= s.b < s.l <= |s.order|
    ensures IsLive(hs, s.order[s.b]) && Charge(hs, s.order[s.b]) <= t.low
  {
    WeightMono(hs, s.order, s.b + 1, s.l);
    WeightStep(hs, s.order, s.b + 1);
  }

  // The loops succeed on pools that agree, and bring both within their capacities.  With the low pointer
  // still to be moved this takes a high pool that is within its capacity already.
  lemma MaintainFits(hs: seq<Slot>, t: List, s: Shape, late: int, highCap: int, lowCap: int) returns (s2: Shape)
    requires ListOK(hs, t, s, late) && 0 <= highCap && 0 <= lowCap && (late == 0 || (late == 1 && t.high <= highCap))
    requires AllLive(hs, s.order) && 0 <= s.l - late <= |s.order| && 0 <= s.b <= |s.order|
    ensures var o := Maintained(hs, t, s.order, s.l - late, s.b, highCap, lowCap);
      && o.Done? && ListOK(o.hs, o.t, s2, late) && o.t.high <= highCap && o.t.low <= lowCap
      && Reflagged(hs, o.hs, s.order)
      && (t.high <= highCap && t.low <= lowCap ==> o == Done(hs, t) && s2 == s)
    ensures s2.order == s.order && (late == 1 ==> s2.l == s.l)
  {
    hide Pools, Reflagged, SetPool;
    s2 := s;
    var o := OverHigh(hs, t, s.order, s.l - late, highCap);
    NotReflagged(hs, s.order);
    if late == 0 {
      var l := HighFits(hs, t, s, highCap);
      s2 := s.(l := l);
    }
    var b := LowFits(o.hs, o.t, s2, late, lowCap);
    ReflagTwice(hs, o.hs, Maintained(hs, t, s.order, s.l - late, s.b, highCap, lowCap).hs, s.order);
    s2 := s2.(b := b);
  }

  // ---------------------------------------------------------------- an entry for the low pool, the high one over
  // capacity

  // What the loops leave alone: all but the pool flags, and no flag puts an entry into the high pool.
  ghost predicate Lowered(hs: seq<Slot>, hs2: seq<Slot>) {
    && |hs2| == |hs|
    && forall x :: IsLive(hs, x) ==>
          IsLive(hs2, x) && Charge(hs2, x) == Charge(hs, x) && (hs2[x].h.inHigh ==> hs[x].h.inHigh)
  }

  lemma {:induction false} HighEffect(hs: seq<Slot>, t: List, order: seq<int>, q: int, cap: int) returns (k: int)
    requires AllLive(hs, order) && Distinct(order) && 0 <= q <= |order| && OverHigh(hs, t, order, q, cap).Done?
    ensures var o := OverHigh(hs, t, order, q, cap);
      && 0 <= k <= |order| - q && (k == 0 <==> t.high <= cap) && o.t.high <= cap && Lowered(hs, o.hs)
      && o.t == t.(lowPri := o.t.lowPri, high := o.t.high, low := o.t.low)
      && (k == 1 ==> o.t.high == t.high - Charge(hs, order[q])) && (k >= 1 ==> !o.hs[order[q]].h.inHigh)
      && (k >= 2 ==> !o.hs[order[q + 1]].h.inHigh)
    decreases |order| - q
  {
    k := 0;
    if t.high > cap {
      var x, c := order[q], Charge(hs, order[q]);
      var hs2, t2 := SetPool(hs, x, false, true), t.(lowPri := x, high := t.high - c, low := t.low + c);
      assert Lowered(hs, hs2);
      var j := HighEffect(hs2, t2, order, q + 1, cap);
      k := j + 1;
    }
  }

  lemma {:induction false} LowEffect(hs: seq<Slot>, t: List, order: seq<int>, p: int, cap: int)
    requires AllLive(hs, order) && 0 <= p <= |order| && OverLow(hs, t, order, p, cap).Done?
    ensures var o := OverLow(hs, t, order, p, cap);
      Lowered(hs, o.hs) && o.t == t.(bottomPri := o.t.bottomPri, low := o.t.low)
    decreases |order| - p
  {
    if t.low > cap {
      var x, c := order[p], Charge(hs, order[p]);
      var hs2 := SetPool(hs, x, false, false);
      assert Lowered(hs, hs2);
      LowEffect(hs2, t.(bottomPri := x, low := t.low - c), order, p + 1, cap);
    }
  }

  // If the high pool is over its capacity when an entry has just gone into the low pool, the first entry
  // the loop takes out of the high pool is that very one, which is not in it.  Should the loops end at all,
  // then with the low pointer moved to the entry, no placing of the pools accounts for flags and counters.
  lemma LateOverflow(hs: seq<Slot>, t: List, s: Shape, highCap: int, lowCap: int, s2: Shape)
    requires ListOK(hs, t, s, 1) && t.high > highCap
    requires AllLive(hs, s.order) && 0 < s.l <= |s.order| && 0 <= s.b <= |s.order|
    ensures var o := Maintained(hs, t, s.order, s.l - 1, s.b, highCap, lowCap);
      o.Done? ==> !ListOK(o.hs, o.t.(lowPri := s.order[s.l - 1]), s2, 0)
  {
    hide Ring, Weight, OverHigh, OverLow;
    var o := Maintained(hs, t, s.order, s.l - 1, s.b, highCap, lowCap);
    if o.Done? && ListOK(o.hs, o.t.(lowPri := s.order[s.l - 1]), s2, 0) {
      ListLive(hs, t, s, 1);
      var h := OverHigh(hs, t, s.order, s.l - 1, highCap);
      var k := HighEffect(hs, t, s.order, s.l - 1, highCap);
      LowEffect(h.hs, h.t, s.order, s.b, lowCap);
      assert forall x :: IsLive(hs, x) ==> Charge(o.hs, x) == Charge(hs, x);
      WeightFrame(hs, o.hs, s.order, s.l);
      WeightFrame(hs, o.hs, s.order, |s.order|);
      RingUnique(t.next, t.prev, s.order, s2.order);
      if s2.l != s.l {
        NthDistinct(s.order, s.l - 1, s2.l - 1);
      }
    }
  }

  lemma LateOverflows(hs: seq<Slot>, t: List, s: Shape, highCap: int, lowCap: int, hs2: seq<Slot>, t2: List)
    requires ListOK(hs, t, s, 1) && AllLive(hs, s.order) && 0 < s.l <= |s.order| && 0 <= s.b <= |s.order|
    requires var o := Maintained(hs, t, s.order, s.l - 1, s.b, highCap, lowCap);
      o.Done? && hs2 == o.hs && t2 == o.t.(lowPri := s.order[s.l - 1])
    ensures t.high > highCap ==> !Accounted(hs2, t2)
  {
    hide Pools;
    if t.high > highCap {
      forall s2 ensures !ListOK(hs2, t2, s2, 0) {
        LateOverflow(hs, t, s, highCap, lowCap, s2);
      }
    }
  }

  lemma SetPoolCharge(hs: seq<Slot>, e: int, inHigh: bool, inLow: bool)
    requires IsLive(hs, e)
    ensures forall x :: Charge(SetPool(hs, e, inHigh, inLow), x) == Charge(hs, x)
  {
  }

  lemma MaintainDrained(hs: seq<Slot>, was: seq<Slot>, t: List, order: seq<int>, q: int, p: int, highCap: int,
                        lowCap: int)
    requires AllLive(hs, order) && 0 <= q <= |order| && 0 <= p <= |order| && forall x :: Charge(hs, x) == Charge(was, x)
    ensures Maintained(hs, t, order, q, p, highCap, lowCap).Done? ==> Drained(was, order, q, t.high, highCap)
    ensures Drained(was, order, q, t.high, highCap) <==> OverHigh(hs, t, order, q, highCap).Done?
  {
    hide OverHigh, Drained;
    HighDrained(hs, was, t, order, q, highCap);
  }

  lemma HighKeeps(hs: seq<Slot>, t: List, order: seq<int>, q: int, cap: int)
    requires AllLive(hs, order) && 0 <= q <= |order|
    ensures var o := OverHigh(hs, t, order, q, cap); o.Done? ==>
      o.t == t.(lowPri := o.t.lowPri, high := o.t.high, low := o.t.low)
    decreases |order| - q
  {
    if t.high > cap && q < |order| {
      var x, c := order[q], Charge(hs, order[q]);
      HighKeeps(SetPool(hs, x, false, true), t.(lowPri := x, high := t.high - c, low := t.low + c), order, q + 1, cap);
    }
  }

  lemma RingUnique(next: map<int, int>, prev: map<int, int>, a: seq<int>, b: seq<int>)
    requires Ring(next, prev, a) && Ring(next, prev, b)
    ensures a == b
  {
    if |a| <= |b| {
      SameFrom(next, prev, a, b, |a|);
    } else {
      SameFrom(next, prev, b, a, |b|);
    }
  }

  lemma {:induction false} SameFrom(next: map<int, int>, prev: map<int, int>, a: seq<int>, b: seq<int>, i: int)
    requires Ring(next, prev, a) && Ring(next, prev, b) && 0 <= i <= |a| <= |b|
    ensures a[..i] == b[..i] && Nth(a, i) == Nth(b, i)
  {
    RingBefore(next, prev, a, i);
    RingBefore(next, prev, b, i);
    if i > 0 {
      SameFrom(next, prev, a, b, i - 1);
      assert a[i - 1] == b[i - 1];
    }
  }

  // ---------------------------------------------------------------- what the high pool holds

  function Dropped(order: seq<int>, x: int): seq<int> {
    if order == [] then []
    else
      var n := |order| - 1;
      Dropped(order[..n], x) + (if order[n] == x then [] else [order[n]])
  }

  lemma {:induction false} DroppedNone(order: seq<int>, x: int)
    requires x !in order
    ensures Dropped(order, x) == order
  {
    if order != [] {
      DroppedNone(order[..|order| - 1], x);
    }
  }

  lemma {:induction false} DroppedAt(order: seq<int>, i: int)
    requires Distinct(order) && 0 <= i < |order|
    ensures Dropped(order, order[i]) == Without(order, i)
  {
    var n := |order| - 1;
    assert Distinct(order[..n]);
    if i == n {
      DroppedNone(order[..n], order[n]);
    } else {
      DroppedAt(order[..n], i);
      assert order[..n][i] == order[i];
    }
  }

  // The charges of those flagged as high.
  function HighUse(hs: seq<Slot>, order: seq<int>): int {
    if order == [] then 0
    else
      var x := order[|order| - 1];
      HighUse(hs, order[..|order| - 1]) + (if IsLive(hs, x) && hs[x].h.inHigh then hs[x].h.charge else 0)
  }

  lemma {:induction false} HighPrefix(hs: seq<Slot>, order: seq<int>, b: int, l: int, k: int)
    requires Flagged(hs, order, b, l) && 0 <= l <= |order| && 0 <= k <= |order|
    ensures HighUse(hs, order[..k]) == if k <= l then 0 else Weight(hs, order, k) - Weight(hs, order, l)
  {
    if k > 0 {
      HighPrefix(hs, order, b, l, k - 1);
      assert order[..k][..k - 1] == order[..k - 1];
    }
  }

  lemma HighIs(hs: seq<Slot>, t: List, s: Shape)
    requires ListOK(hs, t, s, 0)
    ensures t.high == HighUse(hs, s.order)
  {
    hide Ring, Weight;
    HighPrefix(hs, s.order, s.b, s.l, |s.order|);
    assert s.order[..|s.order|] == s.order;
  }

  lemma {:induction false} HighSame(hs: seq<Slot>, hs2: seq<Slot>, order: seq<int>)
    requires SameOn(hs, hs2, order)
    ensures HighUse(hs2, order) == HighUse(hs, order)
  {
    if order != [] {
      HighSame(hs, hs2, order[..|order| - 1]);
    }
  }

  // How many entries go, oldest first, until the total is within the capacity.
  function Evictions(hs: seq<Slot>, order: seq<int>, total: int, capacity: int): (k: int)
    ensures 0 <= k <= |order|
  {
    if order == [] || total <= capacity then 0
    else 1 + Evictions(hs, order[1..], total - Charge(hs, order[0]), capacity)
  }

  lemma EvictionStep(hs: seq<Slot>, order: seq<int>, total: int, capacity: int)
    ensures order == [] || total <= capacity ==> Evictions(hs, order, total, capacity) == 0
    ensures order != [] && total > capacity ==>
      Evictions(hs, order, total, capacity) == 1 + Evictions(hs, order[1..], total - Charge(hs, order[0]), capacity)
  {
  }

  // ---------------------------------------------------------------- places on the list

  // 2 in the high pool, 1 in the low one, 0 in the bottom one.
  function Rank(h: Handle): int { if h.inHigh then 2 else if h.inLow then 1 else 0 }

  // Position i is where the newest of that pool goes: after all of its pool and those below, before all above.
  ghost predicate NewestOf(hs: seq<Slot>, order: seq<int>, i: int, rank: int) {
    && 0 <= i <= |order|
    && forall j :: 0 <= j < |order| ==> IsLive(hs, order[j]) && (j < i <==> Rank(hs[order[j]].h) <= rank)
  }

  ghost predicate Listed(hs: seq<Slot>, left: seq<int>, order: seq<int>, e: int, rank: int) {
    exists i :: NewestOf(hs, left, i, rank) && order == With(left, i, e)
  }

  lemma IsListed(hs: seq<Slot>, t: List, s: Shape, e: int, rank: int, i: int)
    requires ListOK(hs, t, s, 0) && 0 <= rank <= 2
    requires i == if rank == 2 then |s.order| else if rank == 1 then s.l else s.b
    ensures 0 <= i <= |s.order| && Listed(hs, s.order, With(s.order, i, e), e, rank)
  {
    hide Weight, With, Ring;
    assert NewestOf(hs, s.order, i, rank);
  }

  // The slots of these entries are the same.
  ghost predicate SameOn(hs: seq<Slot>, hs2: seq<Slot>, order: seq<int>) {
    forall i :: 0 <= i < |order| ==> IsLive(hs, order[i]) && IsLive(hs2, order[i]) && hs2[order[i]] == hs[order[i]]
  }

  lemma ListedSame(hs: seq<Slot>, hs2: seq<Slot>, left: seq<int>, order: seq<int>, e: int, rank: int)
    requires SameOn(hs, hs2, left) && Listed(hs, left, order, e, rank)
    ensures Listed(hs2, left, order, e, rank)
  {
    hide With;
    var i :| NewestOf(hs, left, i, rank) && order == With(left, i, e);
    assert NewestOf(hs2, left, i, rank);
  }
}
