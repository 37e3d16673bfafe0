/** The life of a handle: in the table, on the list, referenced, freed. */
module LruLife {
  import opened Sums
  import opened LruPools

  // ---------------------------------------------------------------- handles

  function SlotCharge(s: Slot): int { if s.Gone? then 0 else s.h.charge }

  // A handle is in one of three states: referenced and in the table, unreferenced and in the table,
  // and then on the LRU list; or referenced and not in the table.  Otherwise it has been freed.
  ghost predicate HandleOK(h: Handle, x: int, table: map<int, int>, order: seq<int>) {
    && h.refs >= 0 && h.charge >= 0 && (h.refs > 0 || h.inCache)
    && (h.inCache <==> h.key in table && table[h.key] == x)
    && (x in order <==> h.inCache && h.refs == 0)
  }

  ghost predicate Lifecycle(hs: seq<Slot>, table: map<int, int>, order: seq<int>, usage: int) {
    && (forall k :: k in table ==> IsLive(hs, table[k]) && hs[table[k]].h.key == k)
    && (forall x :: 0 <= x < |hs| && hs[x].Live? ==> HandleOK(hs[x].h, x, table, order))
    && usage == Sum(hs, SlotCharge)
  }

  // The same handles, but for the pool flags of those on the list.
  ghost predicate Reflagged(hs: seq<Slot>, hs2: seq<Slot>, order: seq<int>) {
    && |hs2| == |hs|
    && (forall x :: 0 <= x < |hs| ==>
          hs2[x].Live? == hs[x].Live? && (hs[x].Live? ==> hs2[x].h == hs[x].h.(inHigh := hs2[x].h.inHigh,
                                                                               inLow := hs2[x].h.inLow)))
    && (forall x :: 0 <= x < |hs| && x !in order ==> hs2[x] == hs[x])
  }

  lemma NotReflagged(hs: seq<Slot>, order: seq<int>)
    ensures Reflagged(hs, hs, order)
  {
  }

  lemma ReflagOne(hs: seq<Slot>, hs2: seq<Slot>, order: seq<int>, x: int, inHigh: bool, inLow: bool)
    requires Reflagged(hs, hs2, order) && IsLive(hs2, x) && x in order
    ensures Reflagged(hs, SetPool(hs2, x, inHigh, inLow), order)
  {
  }

  lemma ReflagTwice(a: seq<Slot>, b: seq<Slot>, c: seq<Slot>, order: seq<int>)
    requires Reflagged(a, b, order) && Reflagged(b, c, order)
    ensures Reflagged(a, c, order)
  {
  }

  // ---------------------------------------------------------------- how it changes

  lemma LifeAt(hs: seq<Slot>, table: map<int, int>, order: seq<int>, usage: int, x: int)
    requires Lifecycle(hs, table, order, usage) && IsLive(hs, x)
    ensures HandleOK(hs[x].h, x, table, order)
  {
  }

  // A handle's references or flags change; key, charge and place in the table do not.
  lemma LifeUpdate(hs: seq<Slot>, table: map<int, int>, order: seq<int>, usage: int, x: int, h: Handle,
                   order2: seq<int>)
    requires Lifecycle(hs, table, order, usage) && IsLive(hs, x)
    requires h.key == hs[x].h.key && h.charge == hs[x].h.charge && h.inCache == hs[x].h.inCache
    requires HandleOK(h, x, table, order2)
    requires forall y :: y != x ==> (y in order2 <==> y in order)
    ensures Lifecycle(hs[x := Live(h)], table, order2, usage)
  {
    SumAt(hs, SlotCharge, x, Live(h));
  }

  // An unreferenced handle, off the list by now, leaves the table and is freed.
  lemma LifeDrop(hs: seq<Slot>, table: map<int, int>, order: seq<int>, usage: int, x: int, order2: seq<int>)
    requires Lifecycle(hs, table, order, usage) && IsLive(hs, x) && hs[x].h.inCache
    requires forall y :: y in order2 <==> y in order && y != x
    ensures Lifecycle(hs[x := Gone], table - {hs[x].h.key}, order2, usage - hs[x].h.charge)
  {
    SumAt(hs, SlotCharge, x, Gone);
  }

  // A referenced handle leaves the table.
  lemma LifeUncache(hs: seq<Slot>, table: map<int, int>, order: seq<int>, usage: int, x: int)
    requires Lifecycle(hs, table, order, usage) && IsLive(hs, x) && hs[x].h.inCache && hs[x].h.refs > 0
    ensures Lifecycle(hs[x := Live(hs[x].h.(inCache := false))], table - {hs[x].h.key}, order, usage)
  {
    SumAt(hs, SlotCharge, x, Live(hs[x].h.(inCache := false)));
  }

  // The last reference to a handle that is not in the table goes.
  lemma LifeFree(hs: seq<Slot>, table: map<int, int>, order: seq<int>, usage: int, x: int)
    requires Lifecycle(hs, table, order, usage) && IsLive(hs, x) && !hs[x].h.inCache
    ensures Lifecycle(hs[x := Gone], table, order, usage - hs[x].h.charge)
  {
    SumAt(hs, SlotCharge, x, Gone);
  }

  // A new handle, with a number of its own.
  lemma LifeAppend(hs: seq<Slot>, table: map<int, int>, order: seq<int>, usage: int, h: Handle, order2: seq<int>)
    requires Lifecycle(hs, table, order, usage) && (h.inCache ==> h.key !in table) && |hs| !in order
    requires h.refs >= 0 && h.charge >= 0 && (h.refs > 0 || h.inCache)
    requires forall y :: y in order2 <==> y in order || (y == |hs| && h.inCache && h.refs == 0)
    ensures Lifecycle(hs + [Live(h)], if h.inCache then table[h.key := |hs|] else table, order2, usage + h.charge)
  {
    SumPush(hs, SlotCharge, Live(h));
    var hs2, table2 := hs + [Live(h)], if h.inCache then table[h.key := |hs|] else table;
    forall x | 0 <= x < |hs2| && hs2[x].Live? ensures HandleOK(hs2[x].h, x, table2, order2) {
      if x < |hs| {
        LifeAt(hs, table, order, usage, x);
      }
    }
  }

  lemma LifeGone(hs: seq<Slot>, table: map<int, int>, order: seq<int>, usage: int)
    requires Lifecycle(hs, table, order, usage)
    ensures Lifecycle(hs + [Gone], table, order, usage)
  {
    SumPush(hs, SlotCharge, Gone);
  }

  lemma LifeReflag(hs: seq<Slot>, hs2: seq<Slot>, table: map<int, int>, order: seq<int>, usage: int, on: seq<int>)
    requires Lifecycle(hs, table, order, usage) && Reflagged(hs, hs2, on)
    ensures Lifecycle(hs2, table, order, usage)
  {
    SameSum(hs, hs2);
  }

  lemma {:induction false} SameSum(hs: seq<Slot>, hs2: seq<Slot>)
    requires |hs| == |hs2| && forall x :: 0 <= x < |hs| ==> SlotCharge(hs[x]) == SlotCharge(hs2[x])
    ensures Sum(hs, SlotCharge) == Sum(hs2, SlotCharge)
  {
    if hs != [] {
      SameSum(hs[..|hs| - 1], hs2[..|hs| - 1]);
    }
  }
}
