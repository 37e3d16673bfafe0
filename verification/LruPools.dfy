/** The three pools of the LRU list, on values: where they end, what they hold, what they weigh. */
module LruPools {
  import opened LruRing

  datatype Priority = High | Low | Bottom

  datatype Handle = Handle(key: int, charge: int, refs: int, inCache: bool, inHigh: bool, inLow: bool,
                           hit: bool, priority: Priority, standalone: bool)

  // Handles by number; a freed one is gone for good.
  datatype Slot = Gone | Live(h: Handle)

  predicate IsLive(hs: seq<Slot>, x: int) { 0 <= x < |hs| && hs[x].Live? }

  function Charge(hs: seq<Slot>, x: int): int { if IsLive(hs, x) then hs[x].h.charge else 0 }

  // What the first k elements weigh.
  function Weight(hs: seq<Slot>, order: seq<int>, k: int): int
    requires 0 <= k <= |order|
  {
    if k == 0 then 0 else Weight(hs, order, k - 1) + Charge(hs, order[k - 1])
  }

  // Elements before b are in the bottom pool, those from b to l in the low one, the rest in the high one.
  ghost predicate Flagged(hs: seq<Slot>, order: seq<int>, b: int, l: int) {
    forall i :: 0 <= i < |order| ==>
      && IsLive(hs, order[i]) && hs[order[i]].h.charge >= 0
      && hs[order[i]].h.inHigh == (i >= l) && hs[order[i]].h.inLow == (b <= i < l)
  }

  // late: the low-pool pointer is still to be moved to the entry just put in.
  ghost predicate Pools(hs: seq<Slot>, next: map<int, int>, prev: map<int, int>, order: seq<int>, b: int, l: int,
                        lowPri: int, bottomPri: int, lru: int, high: int, low: int, late: int) {
    && Ring(next, prev, order) && 0 <= b <= l <= |order| && (late == 0 || (late == 1 && l > 0))
    && lowPri == Nth(order, l - 1 - late) && bottomPri == Nth(order, b - 1)
    && Flagged(hs, order, b, l)
    && low == Weight(hs, order, l) - Weight(hs, order, b)
    && high == Weight(hs, order, |order|) - Weight(hs, order, l)
    && lru == Weight(hs, order, |order|)
  }

  // ---------------------------------------------------------------- weights

  lemma {:induction false} WeightFrame(hs: seq<Slot>, hs2: seq<Slot>, order: seq<int>, k: int)
    requires 0 <= k <= |order| && forall i :: 0 <= i < k ==> Charge(hs2, order[i]) == Charge(hs, order[i])
    ensures Weight(hs2, order, k) == Weight(hs, order, k)
  {
    if k > 0 {
      WeightFrame(hs, hs2, order, k - 1);
    }
  }

  lemma {:induction false} WeightWithout(hs: seq<Slot>, order: seq<int>, i: int, k: int)
    requires 0 <= i < |order| && 0 <= k < |order|
    ensures Weight(hs, Without(order, i), k) ==
      if k <= i then Weight(hs, order, k) else Weight(hs, order, k + 1) - Charge(hs, order[i])
  {
    hide Without;
    if k > 0 {
      WeightWithout(hs, order, i, k - 1);
    }
  }

  lemma {:induction false} WeightWith(hs: seq<Slot>, order: seq<int>, i: int, e: int, k: int)
    requires 0 <= i <= |order| && 0 <= k <= |order| + 1
    ensures Weight(hs, With(order, i, e), k) ==
      if k <= i then Weight(hs, order, k) else Weight(hs, order, k - 1) + Charge(hs, e)
  {
    hide With;
    if k > 0 {
      WeightWith(hs, order, i, e, k - 1);
    }
  }

  lemma {:induction false} WeightMono(hs: seq<Slot>, order: seq<int>, a: int, b: int)
    requires 0 <= a <= b <= |order| && forall i :: a <= i < b ==> Charge(hs, order[i]) >= 0
    ensures Weight(hs, order, a) <= Weight(hs, order, b)
    decreases b
  {
    if a < b {
      WeightMono(hs, order, a, b - 1);
    }
  }

  // ---------------------------------------------------------------- taking an element out

  // Where a boundary is after element i is gone.
  function Closer(k: int, i: int): int { if i < k then k - 1 else k }

  lemma PoolsRemove(hs: seq<Slot>, next: map<int, int>, prev: map<int, int>, order: seq<int>, b: int, l: int,
                    lowPri: int, bottomPri: int, lru: int, high: int, low: int, i: int)
    requires Pools(hs, next, prev, order, b, l, lowPri, bottomPri, lru, high, low, 0) && 0 <= i < |order|
    ensures var e := order[i];
      && e in next && e in prev
      && var n, p, c := next[e], prev[e], Charge(hs, e);
      && Pools(hs, next[p := n] - {e}, prev[n := p] - {e}, Without(order, i), Closer(b, i), Closer(l, i),
               if lowPri == e then p else lowPri, if bottomPri == e then p else bottomPri, lru - c,
               if i >= l then high - c else high, if b <= i < l then low - c else low, 0)
  {
    hide Without, Ring, Weight;
    var e := order[i];
    RingAt(next, prev, order, i);
    Unlink(next, prev, order, i, next[prev[e] := next[e]] - {e}, prev[next[e] := prev[e]] - {e});
    WeightWithout(hs, order, i, Closer(b, i));
    WeightWithout(hs, order, i, Closer(l, i));
    WeightWithout(hs, order, i, |order| - 1);
    WeightStep(hs, order, b);
    WeightStep(hs, order, l);
    WeightStep(hs, order, |order|);
    PointerOut(order, l, i);
    PointerOut(order, b, i);
    assert Flagged(hs, Without(order, i), Closer(b, i), Closer(l, i));
  }

  lemma WeightStep(hs: seq<Slot>, order: seq<int>, k: int)
    requires 0 <= k <= |order|
    ensures k > 0 ==> Weight(hs, order, k) == Weight(hs, order, k - 1) + Charge(hs, order[k - 1])
  {
  }

  lemma RingAt(next: map<int, int>, prev: map<int, int>, order: seq<int>, i: int)
    requires Ring(next, prev, order) && 0 <= i < |order|
    ensures order[i] in next && order[i] in prev && next[order[i]] == Nth(order, i + 1)
    ensures prev[order[i]] == Nth(order, i - 1)
    ensures Distinct(order)
  {
    assert next[Nth(order, i)] == After(order, i) && prev[Nth(order, i)] == Before(order, i);
  }

  // A pool pointer follows its boundary when an element goes.
  lemma PointerOut(order: seq<int>, k: int, i: int)
    requires Distinct(order) && 0 <= k <= |order| && 0 <= i < |order|
    ensures (if Nth(order, k - 1) ==
      order[i] then Nth(order, i - 1) else Nth(order, k - 1)) == Nth(Without(order, i), Closer(k, i) - 1)
  {
    hide Without;
    if Nth(order, k - 1) == order[i] {
      assert k - 1 == i;
    }
  }

  // ---------------------------------------------------------------- putting an element in

  // Element e, with its flags set, goes in at the end of the bottom pool, the low pool or the list.
  lemma PoolsInsert(hs: seq<Slot>, next: map<int, int>, prev: map<int, int>, order: seq<int>, b: int, l: int,
                    lowPri: int, bottomPri: int, lru: int, high: int, low: int, i: int, e: int)
    requires Pools(hs, next, prev, order, b, l, lowPri, bottomPri, lru, high, low, 0)
    requires (i == b || i == l || i == |order|)
    requires e !in order && e >= 0 && IsLive(hs, e) && hs[e].h.charge >= 0
    requires hs[e].h.inHigh == (i == |order| && hs[e].h.inHigh)
    requires hs[e].h.inLow ==> i == l && !hs[e].h.inHigh
    requires !hs[e].h.inHigh && !hs[e].h.inLow ==> i == b
    ensures var p := Nth(order, i - 1); p in next && next[p] == Nth(order, i)
    ensures var p, c := Nth(order, i - 1), Charge(hs, e);
      var n := next[p];
      var next2, prev2, r := next[e := n][p := e], prev[e := p][n := e], With(order, i, e);
      && Ring(next2, prev2, r)
      && (hs[e].h.inHigh ==> Pools(hs, next2, prev2, r, b, l, lowPri, bottomPri, lru + c, high + c, low, 0))
      && (hs[e].h.inLow ==> Pools(hs, next2, prev2, r, b, l + 1, lowPri, bottomPri, lru + c, high, low + c, 1))
      && (!hs[e].h.inHigh && !hs[e].h.inLow ==>
            Pools(hs, next2, prev2, r, b + 1, l + 1, if b == l then e else lowPri, e, lru + c, high, low, 0))
  {
    hide With, Ring, Weight;
    var p := Nth(order, i - 1);
    var r := With(order, i, e);
    RingBefore(next, prev, order, i);
    Link(next, prev, order, i, e, next[e := Nth(order, i)][p := e], prev[e := p][Nth(order, i) := e]);
    WeightWith(hs, order, i, e, b);
    WeightWith(hs, order, i, e, b + 1);
    WeightWith(hs, order, i, e, l);
    WeightWith(hs, order, i, e, l + 1);
    WeightWith(hs, order, i, e, |order| + 1);
  }

  lemma RingBefore(next: map<int, int>, prev: map<int, int>, order: seq<int>, i: int)
    requires Ring(next, prev, order) && 0 <= i <= |order|
    ensures Nth(order, i - 1) in next && next[Nth(order, i - 1)] == Nth(order, i)
    ensures Nth(order, i) in prev && prev[Nth(order, i)] == Nth(order, i - 1)
  {
    assert next[Nth(order, i - 1)] == After(order, i - 1);
    assert prev[Nth(order, i)] == Before(order, i);
  }

  // ---------------------------------------------------------------- moving the boundaries

  function SetPool(hs: seq<Slot>, x: int, inHigh: bool, inLow: bool): seq<Slot>
    requires IsLive(hs, x)
  {
    hs[x := Live(hs[x].h.(inHigh := inHigh, inLow := inLow))]
  }

  lemma SetPoolWeights(hs: seq<Slot>, x: int, inHigh: bool, inLow: bool, order: seq<int>, k: int)
    requires IsLive(hs, x) && 0 <= k <= |order|
    ensures Weight(SetPool(hs, x, inHigh, inLow), order, k) == Weight(hs, order, k)
  {
    WeightFrame(hs, SetPool(hs, x, inHigh, inLow), order, k);
  }

  // The first entry of the high pool becomes the last of the low one.
  lemma HighToLow(hs: seq<Slot>, next: map<int, int>, prev: map<int, int>, order: seq<int>, b: int, l: int,
                  lowPri: int, bottomPri: int, lru: int, high: int, low: int)
    requires Pools(hs, next, prev, order, b, l, lowPri, bottomPri, lru, high, low, 0) && high > 0
    ensures 0 <= l < |order| && order[l] in order && lowPri in next && next[lowPri] == order[l] != HEAD
    ensures IsLive(hs, order[l])
    ensures var x := order[l];
      Pools(SetPool(hs, x, false, true), next, prev, order, b, l + 1, x, bottomPri, lru, high - hs[x].h.charge,
            low + hs[x].h.charge, 0)
  {
    hide Ring, Weight;
    RingBefore(next, prev, order, l);
    RingDistinct(next, prev, order);
    var x := order[l];
    var hs2 := SetPool(hs, x, false, true);
    SetPoolWeights(hs, x, false, true, order, b);
    SetPoolWeights(hs, x, false, true, order, l);
    SetPoolWeights(hs, x, false, true, order, l + 1);
    SetPoolWeights(hs, x, false, true, order, |order|);
    WeightStep(hs, order, l + 1);
  }

  lemma RingDistinct(next: map<int, int>, prev: map<int, int>, order: seq<int>)
    requires Ring(next, prev, order)
    ensures Distinct(order)
  {
  }

  // The first entry of the low pool becomes the last of the bottom one.
  lemma LowToBottom(hs: seq<Slot>, next: map<int, int>, prev: map<int, int>, order: seq<int>, b: int, l: int,
                    lowPri: int, bottomPri: int, lru: int, high: int, low: int, late: int)
    requires Pools(hs, next, prev, order, b, l, lowPri, bottomPri, lru, high, low, late) && low > 0
    ensures 0 <= b < l <= |order| && order[b] in order && bottomPri in next && next[bottomPri] == order[b] != HEAD
    ensures IsLive(hs, order[b])
    ensures var x := order[b];
      Pools(SetPool(hs, x, false, false), next, prev, order, b + 1, l, lowPri, x, lru, high, low - hs[x].h.charge, late)
  {
    hide Ring, Weight;
    RingBefore(next, prev, order, b);
    RingDistinct(next, prev, order);
    var x := order[b];
    SetPoolWeights(hs, x, false, false, order, b);
    SetPoolWeights(hs, x, false, false, order, b + 1);
    SetPoolWeights(hs, x, false, false, order, l);
    SetPoolWeights(hs, x, false, false, order, |order|);
    WeightStep(hs, order, b + 1);
  }

  lemma ElementFacts(hs: seq<Slot>, next: map<int, int>, prev: map<int, int>, order: seq<int>, b: int, l: int,
                     lowPri: int, bottomPri: int, lru: int, high: int, low: int, i: int)
    requires Pools(hs, next, prev, order, b, l, lowPri, bottomPri, lru, high, low, 0) && 0 <= i < |order|
    ensures IsLive(hs, order[i]) && order[i] in next && order[i] in prev
    ensures var h := hs[order[i]].h; h.charge >= 0 && h.inHigh == (i >= l) && h.inLow == (b <= i < l)
  {
  }

  lemma PointerCaughtUp(hs: seq<Slot>, next: map<int, int>, prev: map<int, int>, order: seq<int>, b: int, l: int,
                        lowPri: int, bottomPri: int, lru: int, high: int, low: int)
    requires Pools(hs, next, prev, order, b, l, lowPri, bottomPri, lru, high, low, 1)
    ensures 0 < l <= |order| && Pools(hs, next, prev, order, b, l, order[l - 1], bottomPri, lru, high, low, 0)
  {
  }

  // Setting the flags of a handle that is not on the list changes nothing about the pools.
  lemma PoolsOutside(hs: seq<Slot>, next: map<int, int>, prev: map<int, int>, order: seq<int>, b: int, l: int,
                     lowPri: int, bottomPri: int, lru: int, high: int, low: int, hs2: seq<Slot>)
    requires Pools(hs, next, prev, order, b, l, lowPri, bottomPri, lru, high, low, 0)
    requires |hs| <= |hs2| && forall x :: 0 <= x < |hs| && x in order ==> hs2[x] == hs[x]
    ensures Pools(hs2, next, prev, order, b, l, lowPri, bottomPri, lru, high, low, 0)
  {
    hide Ring, Weight;
    WeightFrame(hs, hs2, order, b);
    WeightFrame(hs, hs2, order, l);
    WeightFrame(hs, hs2, order, |order|);
  }

  lemma PointersAgree(hs: seq<Slot>, next: map<int, int>, prev: map<int, int>, order: seq<int>, b: int, l: int,
                      lowPri: int, bottomPri: int, lru: int, high: int, low: int)
    requires Pools(hs, next, prev, order, b, l, lowPri, bottomPri, lru, high, low, 0)
    ensures lowPri == bottomPri <==> b == l
    ensures 0 <= b <= l <= |order| && HEAD in prev && prev[HEAD] == Nth(order, |order| - 1)
    ensures lowPri == Nth(order, l - 1) && bottomPri == Nth(order, b - 1)
  {
    RingBefore(next, prev, order, |order|);
    RingDistinct(next, prev, order);
    if b < l {
      NthDistinct(order, b - 1, l - 1);
    }
  }
}
