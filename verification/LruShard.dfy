/** An LRU cache shard: each method is what one call does under the shard's mutex. */
module LruShard {
  import opened LruRing
  import opened LruPools
  import opened LruLife
  import opened LruOverflow

  class Shard {
    var capacity: int
    var strict: bool
    var usage: int
    var table: map<int, int>
    var handles: seq<Slot>
    var list: List
    var highOn: bool        // high_pri_pool_ratio_ > 0
    var lowOn: bool         // low_pri_pool_ratio_ > 0
    var highCap: int
    var lowCap: int
    ghost var shape: Shape

    ghost predicate PoolsFit()
      reads this
    {
      list.high <= highCap && list.low <= lowCap
    }

    // The cache holds more than it may only if there is nothing left to evict.
    ghost predicate Sound()
      reads this
    {
      && ListOK(handles, list, shape, 0) && 0 <= highCap && 0 <= lowCap && Lifecycle(handles, table, shape.order, usage)
      && (usage > capacity ==> shape.order == [])
    }

    ghost predicate Valid()
      reads this
    {
      Sound() && PoolsFit()
    }

    // What no eviction can free.
    function Pinned(): int
      reads this
    {
      usage - list.usage
    }

    // ---------------------------------------------------------------- the list

    // Moves entries from the high pool to the low one until the high one fits; false if an assertion fails.
    method OverflowHigh(ghost q: int) returns (ok: bool)
      requires Ring(list.next, list.prev, shape.order) && AllLive(handles, shape.order)
      requires 0 <= q <= |shape.order| && list.lowPri == Nth(shape.order, q - 1)
      modifies `handles, `list
      ensures var o := OverHigh(old(handles), old(list), shape.order, q, highCap);
        (ok <==> o.Done?) && (ok ==> handles == o.hs && list == o.t)
      ensures !ok ==> TrippedHigh(handles, list, highCap)
    {
      hide Ring;
      ghost var i := q;
      while list.high > highCap
        invariant list.next == old(list).next && list.prev == old(list).prev && AllLive(handles, shape.order)
        invariant q <= i <= |shape.order| && list.lowPri == Nth(shape.order, i - 1)
        invariant OverHigh(old(handles), old(list), shape.order, q, highCap) ==
          OverHigh(handles, list, shape.order, i, highCap)
        decreases |shape.order| - i
      {
        RingBefore(list.next, list.prev, shape.order, i);
        RingDistinct(list.next, list.prev, shape.order);
        var x := list.next[list.lowPri];
        if x == HEAD {
          return false;
        }
        var c := handles[x].h.charge;
        if list.high < c {
          return false;
        }
        handles := SetPool(handles, x, false, true);
        list := list.(lowPri := x, high := list.high - c, low := list.low + c);
        i := i + 1;
      }
      ok := true;
    }

    // Moves entries from the low pool to the bottom one until the low one fits; false if an assertion fails.
    method OverflowLow(ghost p: int) returns (ok: bool)
      requires Ring(list.next, list.prev, shape.order) && AllLive(handles, shape.order)
      requires 0 <= p <= |shape.order| && list.bottomPri == Nth(shape.order, p - 1)
      modifies `handles, `list
      ensures var o := OverLow(old(handles), old(list), shape.order, p, lowCap);
        (ok <==> o.Done?) && (ok ==> handles == o.hs && list == o.t)
      ensures !ok ==> TrippedLow(handles, list, lowCap)
    {
      hide Ring;
      ghost var i := p;
      while list.low > lowCap
        invariant list.next == old(list).next && list.prev == old(list).prev && AllLive(handles, shape.order)
        invariant p <= i <= |shape.order| && list.bottomPri == Nth(shape.order, i - 1)
        invariant OverLow(old(handles), old(list), shape.order, p, lowCap) ==
          OverLow(handles, list, shape.order, i, lowCap)
        decreases |shape.order| - i
      {
        RingBefore(list.next, list.prev, shape.order, i);
        RingDistinct(list.next, list.prev, shape.order);
        var x := list.next[list.bottomPri];
        if x == HEAD {
          return false;
        }
        var c := handles[x].h.charge;
        if list.low < c {
          return false;
        }
        handles := SetPool(handles, x, false, false);
        list := list.(bottomPri := x, low := list.low - c);
        i := i + 1;
      }
      ok := true;
    }

    // The low pointer stands before position q, the bottom one before p.
    method MaintainPoolSize(ghost q: int, ghost p: int) returns (ok: bool)
      requires Ring(list.next, list.prev, shape.order) && AllLive(handles, shape.order)
      requires 0 <= q <= |shape.order| && list.lowPri == Nth(shape.order, q - 1)
      requires 0 <= p <= |shape.order| && list.bottomPri == Nth(shape.order, p - 1)
      modifies `handles, `list
      ensures var o := Maintained(old(handles), old(list), shape.order, q, p, highCap, lowCap);
        (ok <==> o.Done?) && (ok ==> handles == o.hs && list == o.t)
      ensures !ok ==> TrippedHigh(handles, list, highCap) || TrippedLow(handles, list, lowCap)
      ensures !OverHigh(old(handles), old(list), shape.order, q, highCap).Done? ==> TrippedHigh(handles, list, highCap)
    {
      hide Ring;
      HighKeeps(handles, list, shape.order, q, highCap);
      ok := OverflowHigh(q);
      if ok {
        ok := OverflowLow(p);
      }
    }

    method LRU_Remove(e: int, ghost i: int)
      requires ListOK(handles, list, shape, 0) && 0 <= i < |shape.order| && shape.order[i] == e
      modifies `list, `shape
      ensures ListOK(handles, list, shape, 0) && shape.order == Without(old(shape).order, i)
      ensures list.high <= old(list).high && list.low <= old(list).low
      ensures list.usage == old(list).usage - Charge(handles, e)
    {
      hide Pools, Without;
      ghost var s := shape;
      ElementFacts(handles, list.next, list.prev, s.order, s.b, s.l, list.lowPri, list.bottomPri, list.usage, list.high,
                   list.low, i);
      PoolsRemove(handles, list.next, list.prev, s.order, s.b, s.l, list.lowPri, list.bottomPri, list.usage, list.high,
                  list.low, i);
      var t, p, n, h := list, list.prev[e], list.next[e], handles[e].h;
      if t.lowPri == e {
        t := t.(lowPri := p);
      }
      if t.bottomPri == e {
        t := t.(bottomPri := p);
      }
      t := t.(next := t.next[p := n] - {e}, prev := t.prev[n := p] - {e}, usage := t.usage - h.charge);
      if h.inHigh {
        t := t.(high := t.high - h.charge);
      } else if h.inLow {
        t := t.(low := t.low - h.charge);
      }
      list := t;
      shape := Shape(Without(s.order, i), Closer(s.b, i), Closer(s.l, i));
    }

    // Links e in before position i, after p, with its flags set.
    method PutIn(e: int, p: int, inHigh: bool, inLow: bool, ghost i: int)
      requires ListOK(handles, list, shape, 0) && IsLive(handles, e) && handles[e].h.charge >= 0 && e !in shape.order
      requires 0 <= i <= |shape.order| && p == Nth(shape.order, i - 1) && p in list.next
      modifies `handles, `list, `shape
      ensures var s, t, c, hs := old(shape), old(list), old(handles)[e].h.charge, SetPool(old(handles), e, inHigh,
                                                                                          inLow);
        && handles == hs && shape == s.(order := With(s.order, i, e))
        && list == t.(next := t.next[e := t.next[p]][p := e], prev := t.prev[e := p][t.next[p] := e],
                      usage := t.usage + c)
    {
      var n := list.next[p];
      handles := SetPool(handles, e, inHigh, inLow);
      list := list.(next := list.next[e := n][p := e], prev := list.prev[e := p][n := e],
                    usage := list.usage + handles[e].h.charge);
      shape := shape.(order := With(shape.order, i, e));
    }

    predicate ToHigh(h: Handle)
      reads this
    {
      highOn && (h.priority.High? || h.hit)
    }

    predicate ToLow(h: Handle)
      reads this
    {
      !ToHigh(h) && lowOn && (h.priority.High? || h.priority.Low? || h.hit)
    }

    // The low pool is about to get an entry while the high one is over its capacity.
    predicate Jams(h: Handle)
      reads this
    {
      ToLow(h) && list.high > highCap
    }

    // The pool an entry is bound for.
    function PoolOf(h: Handle): int
      reads this
    {
      if ToHigh(h) then 2 else if ToLow(h) then 1 else 0
    }

    // An entry goes in as the newest of its pool.
    ghost function Spot(h: Handle): int
      reads this
    {
      if ToHigh(h) then |shape.order| else if ToLow(h) then shape.l else shape.b
    }

    // As the newest of the whole list.
    method InsertHigh(e: int) returns (ok: bool)
      requires ListOK(handles, list, shape, 0) && 0 <= highCap && 0 <= lowCap
      requires IsLive(handles, e) && handles[e].h.charge >= 0 && e !in shape.order
      modifies `handles, `list, `shape
      ensures ok && ListOK(handles, list, shape, 0) && PoolsFit() && Reflagged(old(handles), handles, shape.order)
      ensures shape.order == With(old(shape).order, |old(shape).order|, e)
      ensures forall x :: x in shape.order <==> x in old(shape).order || x == e
      ensures old(list.low <= lowCap && list.high + handles[e].h.charge <= highCap) ==>
        list.high == old(list.high + handles[e].h.charge) && list.low == old(list).low && shape.l == old(shape).l
    {
      hide Pools, Reflagged, With, SetPool, Maintained;
      var h := handles[e].h;
      ghost var s, t, hs := shape, list, handles;
      PointersAgree(handles, list.next, list.prev, s.order, s.b, s.l, list.lowPri, list.bottomPri, list.usage,
                    list.high, list.low);
      InsertReady(hs, t, s, e, |s.order|, true, false);
      PutIn(e, list.prev[HEAD], true, false, |s.order|);
      list := list.(high := list.high + h.charge);
      ghost var mid := handles;
      ListLive(handles, list, shape, 0);
      ghost var s2 := MaintainFits(handles, list, shape, 0, highCap, lowCap);
      ok := MaintainPoolSize(shape.l, shape.b);
      shape := s2;
      ReflagTwice(hs, mid, handles, shape.order);
    }

    // What shows of a failed assertion.  The high pool's loop is the one that fails exactly if taking the charges
    // from the new entry on does not bring the pool within its capacity.
    ghost predicate Trips(hs: seq<Slot>, s: Shape, e: int, high: int, ok: bool)
      reads `handles, `list, `highCap, `lowCap
    {
      && (!ok ==> TrippedHigh(handles, list, highCap) || TrippedLow(handles, list, lowCap))
      && 0 <= s.l <= |s.order|
      && (!Drained(hs, With(s.order, s.l, e), s.l, high, highCap) ==> !ok && TrippedHigh(handles, list, highCap))
    }

    // As the newest of the low pool.
    method InsertLow(e: int) returns (ok: bool)
      requires ListOK(handles, list, shape, 0) && 0 <= highCap && 0 <= lowCap
      requires IsLive(handles, e) && handles[e].h.charge >= 0 && e !in shape.order
      modifies `handles, `list, `shape
      ensures 0 <= old(shape).l <= |old(shape).order|
      ensures old(list).high <= highCap ==> ok && ListOK(handles, list, shape, 0) && PoolsFit()
      ensures old(list).high <= highCap ==>
        && Reflagged(old(handles), handles, shape.order) && shape.order == With(old(shape).order, old(shape).l, e)
        && forall x :: x in shape.order <==> x in old(shape).order || x == e
      ensures Trips(old(handles), old(shape), e, old(list).high, ok)
      ensures old(list).high > highCap ==> !(ok && Accounted(handles, list))
    {
      hide Pools, Reflagged, With, SetPool, Drained, Maintained, Accounted;
      var h := handles[e].h;
      ghost var s, t, hs := shape, list, handles;
      PointersAgree(handles, list.next, list.prev, s.order, s.b, s.l, list.lowPri, list.bottomPri, list.usage,
                    list.high, list.low);
      InsertReady(hs, t, s, e, s.l, false, true);
      PutIn(e, list.lowPri, false, true, s.l);
      list := list.(low := list.low + h.charge);
      shape := shape.(l := shape.l + 1);
      ghost var mid, t1, s1 := handles, list, shape;
      ListLive(handles, list, shape, 1);
      SetPoolCharge(hs, e, false, true);
      MaintainDrained(mid, hs, t1, s1.order, s1.l - 1, s1.b, highCap, lowCap);
      ghost var s2 := s1;
      if list.high <= highCap {
        s2 := MaintainFits(handles, list, shape, 1, highCap, lowCap);
      }
      ok := MaintainPoolSize(shape.l - 1, shape.b);
      if ok {
        ghost var t2 := list;
        list := list.(lowPri := e);
        shape := s2;
        LateOverflows(mid, t1, s1, highCap, lowCap, handles, list);
        if t.high <= highCap {
          ReflagTwice(hs, mid, handles, shape.order);
          PointerCaughtUp(handles, t2.next, t2.prev, s2.order, s2.b, s2.l, t2.lowPri, t2.bottomPri, t2.usage, t2.high,
                          t2.low);
        }
      }
    }

    // As the newest of the bottom pool.
    method InsertBottom(e: int)
      requires ListOK(handles, list, shape, 0) && IsLive(handles, e) && handles[e].h.charge >= 0 && e !in shape.order
      modifies `handles, `list, `shape
      ensures ListOK(handles, list, shape, 0) && (old(PoolsFit()) ==> PoolsFit())
      ensures Reflagged(old(handles), handles, shape.order)
      ensures 0 <= old(shape).b <= |old(shape).order| && shape.order == With(old(shape).order, old(shape).b, e)
      ensures forall x :: x in shape.order <==> x in old(shape).order || x == e
    {
      hide Pools, Reflagged, With, SetPool;
      ghost var s, t, hs := shape, list, handles;
      PointersAgree(handles, list.next, list.prev, s.order, s.b, s.l, list.lowPri, list.bottomPri, list.usage,
                    list.high, list.low);
      InsertReady(hs, t, s, e, s.b, false, false);
      PutIn(e, list.bottomPri, false, false, s.b);
      if list.bottomPri == list.lowPri {
        list := list.(lowPri := e);
      }
      list := list.(bottomPri := e);
      shape := shape.(b := shape.b + 1, l := shape.l + 1);
    }

    // False if an assertion fails.  The list is in order afterwards exactly unless the entry is bound for the
    // low pool and finds the high pool over its capacity.
    method LRU_Insert(e: int) returns (ok: bool)
      requires ListOK(handles, list, shape, 0) && 0 <= highCap && 0 <= lowCap
      requires IsLive(handles, e) && handles[e].h.charge >= 0 && e !in shape.order
      modifies `handles, `list, `shape
      ensures ok && Accounted(handles, list) <==> !old(Jams(handles[e].h))
      ensures !old(Jams(handles[e].h)) ==>
        ListOK(handles, list, shape, 0) && Reflagged(old(handles), handles, shape.order)
      ensures !old(Jams(handles[e].h)) && old(PoolsFit() || ToHigh(handles[e].h) || ToLow(handles[e].h)) ==> PoolsFit()
      ensures !old(Jams(handles[e].h)) ==> forall x :: x in shape.order <==> x in old(shape).order || x == e
      ensures !old(Jams(handles[e].h)) ==>
        var i := old(Spot(handles[e].h)); 0 <= i <= |old(shape).order| && shape.order == With(old(shape).order, i, e)
      ensures old(ToHigh(handles[e].h) && list.low <= lowCap && list.high + handles[e].h.charge <= highCap) ==>
        list.high == old(list.high + handles[e].h.charge) && list.low == old(list).low && shape.l == old(shape).l
      ensures 0 <= old(shape).l <= |old(shape).order|
      ensures !ok ==> old(ToLow(handles[e].h))
      ensures old(ToLow(handles[e].h)) ==> Trips(old(handles), old(shape), e, old(list).high, ok)
      ensures !old(Jams(handles[e].h)) ==>
        Listed(old(handles), old(shape).order, shape.order, e, old(PoolOf(handles[e].h)))
    {
      hide Pools, Reflagged, With, Drained, Accounted, Listed, Trips;
      ListLive(handles, list, shape, 0);
      var h := handles[e].h;
      IsListed(handles, list, shape, e, PoolOf(h), Spot(h));
      if ToHigh(h) {
        ok := InsertHigh(e);
        IsAccounted(handles, list, shape);
      } else if ToLow(h) {
        ghost var high := list.high;
        ok := InsertLow(e);
        if high <= highCap {
          IsAccounted(handles, list, shape);
        }
      } else {
        InsertBottom(e);
        IsAccounted(handles, list, shape);
        ok := true;
      }
    }

    // ---------------------------------------------------------------- eviction and removal

    // An unreferenced entry leaves list and table and is freed.
    method Discard(e: int, ghost i: int)
      requires ListOK(handles, list, shape, 0) && Lifecycle(handles, table, shape.order, usage)
      requires 0 <= i < |shape.order| && shape.order[i] == e
      modifies `list, `shape, `table, `handles, `usage
      ensures ListOK(handles, list, shape, 0) && Lifecycle(handles, table, shape.order, usage)
      ensures shape.order == Without(old(shape).order, i) && list.high <= old(list).high && list.low <= old(list).low
      ensures Pinned() == old(Pinned())
      ensures IsLive(old(handles), e) && handles == old(handles)[e := Gone]
      ensures usage == old(usage) - old(handles)[e].h.charge <= old(usage)
      ensures table == old(table) - {old(handles)[e].h.key}
    {
      hide Pools, Without, Lifecycle;
      ghost var s, hs := shape, handles;
      OnList(handles, table, s, list, usage, i);
      LRU_Remove(e, i);
      OffList(s.order, i);
      LifeDrop(hs, table, s.order, usage, e, shape.order);
      table := table - {handles[e].h.key};
      usage := usage - handles[e].h.charge;
      handles := handles[e := Gone];
      PoolsOutside(hs, list.next, list.prev, shape.order, shape.b, shape.l, list.lowPri, list.bottomPri, list.usage,
                   list.high, list.low, handles);
    }

    // Frees from the oldest on until there is room for the charge or nothing is left to free; never one more than that.
    method EvictFromLRU(charge: int) returns (ghost k: int)
      requires ListOK(handles, list, shape, 0) && Lifecycle(handles, table, shape.order, usage)
      modifies `list, `shape, `table, `handles, `usage
      ensures ListOK(handles, list, shape, 0) && Lifecycle(handles, table, shape.order, usage)
      ensures list.high <= old(list).high && list.low <= old(list).low
      ensures (usage + charge <= capacity || shape.order == []) && usage <= old(usage) && |handles| == |old(handles)|
      ensures 0 <= k <= |old(shape).order| && shape.order == old(shape).order[k..]
      ensures Needed(old(handles), old(shape).order, k, usage + charge, capacity)
      ensures k == Evictions(old(handles), old(shape).order, old(usage) + charge, capacity)
      ensures Pinned() == old(Pinned()) && (usage + charge <= capacity <==> Pinned() + charge <= capacity)
      ensures Trimmed(old(handles), handles, old(shape).order, old(table), table)
      ensures NoneNeeded(k, old(usage) + charge, capacity, old(shape).order)
      ensures Idle(k, old(handles), handles, old(list), list, old(shape), shape, old(table), table)
      ensures (k == 0 ==> usage == old(usage))
    {
      hide Pools, Without, Lifecycle, Trimmed, Evictions;
      k := 0;
      NotTrimmed(handles, shape.order, table);
      Oldest(handles, list, shape);
      assert shape.order == old(shape).order[0..];
      while usage + charge > capacity && list.next[HEAD] != HEAD
        invariant ListOK(handles, list, shape, 0) && Lifecycle(handles, table, shape.order, usage)
        invariant list.high <= old(list).high && list.low <= old(list).low
        invariant 0 <= k <= |old(shape).order| && shape.order == old(shape).order[k..] && Pinned() == old(Pinned())
        invariant Needed(old(handles), old(shape).order, k, usage + charge, capacity)
        invariant k > 0 ==> old(usage) + charge > capacity
        invariant Evictions(old(handles), old(shape).order, old(usage) + charge, capacity)
          == k + Evictions(old(handles), shape.order, usage + charge, capacity)
        invariant Idle(k, old(handles), handles, old(list), list, old(shape), shape, old(table), table)
        invariant (k == 0 ==> usage == old(usage))
        invariant Trimmed(old(handles), handles, old(shape).order, old(table), table) && usage <= old(usage)
        invariant |handles| == |old(handles)|
        invariant HEAD in list.next && (list.next[HEAD] == HEAD <==> shape.order == [])
        invariant (shape.order != [] ==> list.next[HEAD] == shape.order[0])
        decreases |shape.order|
      {
        EvictionStep(old(handles), shape.order, usage + charge, capacity);
        TrimMore(old(handles), handles, old(shape).order, old(table), table, list.next[HEAD]);
        OnList(handles, table, shape, list, usage, 0);
        SameWeight(old(handles), handles, old(shape).order, old(table), table, list.next[HEAD]);
        Discard(list.next[HEAD], 0);
        assert shape.order == old(shape).order[k + 1..] == old(shape).order[k..][1..];
        k := k + 1;
        Oldest(handles, list, shape);
      }
      EvictionStep(old(handles), shape.order, usage + charge, capacity);
      ListWeight(handles, list, shape);
    }

    // ---------------------------------------------------------------- the operations

    // An empty shard; pool capacities are what the ratios make of the capacity.
    constructor (capacity: int, strict: bool, highCap: int, lowCap: int, highOn: bool, lowOn: bool)
      requires 0 <= highCap && 0 <= lowCap && 0 <= capacity
      ensures Valid() && handles == [] && table == map[] && usage == 0 && list.usage == list.high == list.low == 0
      ensures this.capacity == capacity && this.strict == strict && this.highCap == highCap && this.lowCap == lowCap
      ensures this.highOn == highOn && this.lowOn == lowOn && shape == Shape([], 0, 0)
    {
      this.capacity, this.strict, this.highCap, this.lowCap := capacity, strict, highCap, lowCap;
      this.highOn, this.lowOn := highOn, lowOn;
      usage, table, handles := 0, map[], [];
      list := List(map[HEAD := HEAD], map[HEAD := HEAD], HEAD, HEAD, 0, 0, 0);
      shape := Shape([], 0, 0);
      new;
      hide Pools, Lifecycle;
      NothingYet(list, shape);
    }

    method Lookup(key: int) returns (e: int)
      requires Sound()
      modifies `list, `shape, `handles
      ensures Sound() && (old(PoolsFit()) ==> PoolsFit()) && e == (if key in table then table[key] else -1)
      ensures e == -1 ==> handles == old(handles)
      ensures e != -1 ==>
        && IsLive(old(handles), e)
        && var h := old(handles)[e].h;
           handles == old(handles)[e := Live(h.(refs := h.refs + 1, hit := true))]
      ensures e != -1 && e !in old(shape).order ==> shape == old(shape)
      ensures e != -1 && e in old(shape).order ==>
        e !in shape.order && exists i :: 0 <= i < |old(shape).order| && shape.order == Without(old(shape).order, i)
    {
      hide Pools, Without, Lifecycle;
      if key !in table {
        return -1;
      }
      e := table[key];
      InTable(handles, table, shape.order, usage, key);
      ghost var s, hs := shape, handles;
      var h := handles[e].h;
      if h.refs == 0 {
        ghost var i :| 0 <= i < |shape.order| && shape.order[i] == e;
        OnList(handles, table, s, list, usage, i);
        LRU_Remove(e, i);
        OffList(s.order, i);
      }
      var h' := h.(refs := h.refs + 1, hit := true);
      LifeUpdate(handles, table, s.order, usage, e, h', shape.order);
      handles := handles[e := Live(h')];
      PoolsOutside(hs, list.next, list.prev, shape.order, shape.b, shape.l, list.lowPri, list.bottomPri, list.usage,
                   list.high, list.low, handles);
    }

    method Ref(e: int)
      requires Sound() && IsLive(handles, e) && handles[e].h.refs > 0
      modifies `handles
      ensures Sound() && (old(PoolsFit()) ==> PoolsFit())
      ensures handles == old(handles)[e := Live(old(handles)[e].h.(refs := old(handles)[e].h.refs + 1))]
    {
      hide Pools, Lifecycle;
      LifeAt(handles, table, shape.order, usage, e);
      var h' := handles[e].h.(refs := handles[e].h.refs + 1);
      LifeUpdate(handles, table, shape.order, usage, e, h', shape.order);
      ghost var hs := handles;
      handles := handles[e := Live(h')];
      PoolsOutside(hs, list.next, list.prev, shape.order, shape.b, shape.l, list.lowPri, list.bottomPri, list.usage,
                   list.high, list.low, handles);
    }

    method Erase(key: int)
      requires Sound()
      modifies `list, `shape, `table, `handles, `usage
      ensures Sound() && (old(PoolsFit()) ==> PoolsFit()) && table == old(table) - {key} && usage <= old(usage)
      ensures shape.order == Remaining(old(shape).order, old(table), key)
      ensures key in old(table) ==> old(table)[key] !in shape.order
      ensures |shape.order| <= |old(shape).order|
      ensures list.high <= old(list).high && list.low <= old(list).low
      ensures key !in old(table) ==>
        handles == old(handles) && list == old(list) && shape == old(shape) && usage == old(usage)
      ensures key in old(table) ==>
        var e := old(table)[key];
        && IsLive(old(handles), e)
        && handles == old(handles)[e := if old(handles)[e].h.refs == 0 then Gone
                                        else Live(old(handles)[e].h.(inCache := false))]
    {
      hide Pools, Without, Lifecycle;
      if key in table {
        var e := table[key];
        InTable(handles, table, shape.order, usage, key);
        if handles[e].h.refs == 0 {
          ghost var i :| 0 <= i < |shape.order| && shape.order[i] == e;
          ListLive(handles, list, shape, 0);
          DroppedAt(shape.order, i);
          OffList(shape.order, i);
          Discard(e, i);
        } else {
          DroppedNone(shape.order, e);
          Uncache(e);
        }
      } else {
        assert table == table - {key};
      }
    }

    // A referenced entry leaves the table but lives on.
    method Uncache(e: int)
      requires Sound() && IsLive(handles, e) && handles[e].h.inCache && handles[e].h.refs > 0
      modifies `table, `handles
      ensures Sound() && (old(PoolsFit()) ==> PoolsFit())
      ensures handles == old(handles)[e := Live(old(handles)[e].h.(inCache := false))]
      ensures table == old(table) - {old(handles)[e].h.key}
    {
      hide Pools, Lifecycle;
      LifeAt(handles, table, shape.order, usage, e);
      LifeUncache(handles, table, shape.order, usage, e);
      ghost var hs := handles;
      table := table - {handles[e].h.key};
      handles := handles[e := Live(handles[e].h.(inCache := false))];
      PoolsOutside(hs, list.next, list.prev, shape.order, shape.b, shape.l, list.lowPri, list.bottomPri, list.usage,
                   list.high, list.low, handles);
    }

    // Drops a reference; the last one puts the entry back on the list, or frees it if it is erased, asked to go,
    // or if the cache holds too much.
    method Release(e: int, eraseIfLast: bool) returns (freed: bool, ok: bool)
      requires Sound() && IsLive(handles, e) && handles[e].h.refs > 0
      modifies `list, `shape, `table, `handles, `usage
      ensures ok && Accounted(handles, list) <==> !old(Relists(handles[e].h, eraseIfLast) && Jams(handles[e].h))
      ensures ok && Accounted(handles, list) ==> Sound() && (old(PoolsFit()) ==> PoolsFit())
      ensures freed == old(handles[e].h.refs == 1 && !Relists(handles[e].h, eraseIfLast))
      ensures ok && Accounted(handles, list) ==>
        var h := old(handles)[e].h;
        && (freed ==> handles == old(handles)[e := Gone] && usage == old(usage) - h.charge)
        && (freed ==> table == if h.inCache then old(table) - {h.key} else old(table))
        && (!freed ==> table == old(table) && usage == old(usage) && (e in shape.order <==> h.refs == 1))
        && (!freed ==> Reflagged(old(handles)[e := Live(h.(refs := h.refs - 1))], handles, shape.order))
    {
      hide Pools, Without, Lifecycle, Reflagged, Accounted, With, Drained;
      LifeAt(handles, table, shape.order, usage, e);
      ghost var s, hs := shape, handles;
      var h := handles[e].h;
      var h' := h.(refs := h.refs - 1);
      freed, ok := false, true;
      if h'.refs > 0 {
        LifeUpdate(handles, table, shape.order, usage, e, h', shape.order);
        handles := handles[e := Live(h')];
        PoolsOutside(hs, list.next, list.prev, shape.order, shape.b, shape.l, list.lowPri, list.bottomPri, list.usage,
                     list.high, list.low, handles);
        NotReflagged(handles, shape.order);
        IsAccounted(handles, list, shape);
      } else if h.inCache && !(usage > capacity || eraseIfLast) {
        handles := handles[e := Live(h')];
        PoolsOutside(hs, list.next, list.prev, s.order, s.b, s.l, list.lowPri, list.bottomPri, list.usage, list.high,
                     list.low, handles);
        ghost var mid := handles;
        ok := LRU_Insert(e);
        if ok && Accounted(handles, list) {
          LifeUpdate(hs, table, s.order, usage, e, h', shape.order);
          LifeReflag(mid, handles, table, shape.order, usage, shape.order);
        }
      } else {
        if h.inCache {
          assert shape.order == [] || eraseIfLast;
          LifeDrop(hs, table, s.order, usage, e, s.order);
          table := table - {h.key};
        } else {
          LifeFree(hs, table, s.order, usage, e);
        }
        usage := usage - h.charge;
        handles := handles[e := Gone];
        PoolsOutside(hs, list.next, list.prev, s.order, s.b, s.l, list.lowPri, list.bottomPri, list.usage, list.high,
                     list.low, handles);
        IsAccounted(handles, list, shape);
        freed := true;
      }
    }

    // The last reference to an entry goes, and the entry onto the list.
    predicate Relists(h: Handle, eraseIfLast: bool)
      reads this
    {
      h.refs == 1 && h.inCache && usage <= capacity && !eraseIfLast
    }

    // A handle made and freed within one call.
    method NeverLived()
      requires Sound()
      modifies `handles
      ensures Sound() && (old(PoolsFit()) ==> PoolsFit()) && handles == old(handles) + [Gone]
    {
      hide Pools, Lifecycle;
      ghost var hs := handles;
      LifeGone(handles, table, shape.order, usage);
      handles := handles + [Gone];
      PoolsOutside(hs, list.next, list.prev, shape.order, shape.b, shape.l, list.lowPri, list.bottomPri, list.usage,
                   list.high, list.low, handles);
    }

    // A key that is not in the table gets an entry.
    method Add(key: int, charge: int, priority: Priority, wantHandle: bool) returns (e: int, ok: bool)
      requires Sound() && charge >= 0 && key !in table
      requires usage + charge <= capacity || (shape.order == [] && wantHandle)
      modifies `list, `shape, `table, `handles, `usage
      ensures ok && Accounted(handles, list)
        <==> wantHandle || !old(Jams(Made(key, charge, priority, wantHandle)))
      ensures e == |old(handles)| && table == old(table)[key := e] && usage == old(usage) + charge
      ensures ok && Accounted(handles, list) ==> Sound() && (old(PoolsFit()) ==> PoolsFit())
      ensures ok && Accounted(handles, list) ==>
        Reflagged(old(handles) + [Live(Made(key, charge, priority, wantHandle))], handles, shape.order)
      ensures if wantHandle then ok
        else Placed(old(handles), old(list), old(shape), Made(key, charge, priority, false), ok)
      ensures ok && Accounted(handles, list) ==>
        ListedAs(old(handles), old(shape).order, e, wantHandle, old(PoolOf(Made(key, charge, priority, false))))
    {
      hide Pools, Without, Lifecycle, Reflagged, With, Drained, Accounted, Listed, Trips;
      e, ok := |handles|, true;
      var h := Made(key, charge, priority, wantHandle);
      ghost var s, hs := shape, handles;
      OnlyLive(handles, list, shape);
      ListLive(handles, list, shape, 0);
      handles := handles + [Live(h)];
      PoolsOutside(hs, list.next, list.prev, s.order, s.b, s.l, list.lowPri, list.bottomPri, list.usage, list.high,
                   list.low, handles);
      ghost var mid := handles;
      if !wantHandle {
        ok := LRU_Insert(e);
      } else {
        NotReflagged(handles, shape.order);
        IsAccounted(handles, list, shape);
      }
      ghost var good := ok && Accounted(handles, list);
      if good {
        LifeAppend(hs, table, s.order, usage, h, shape.order);
        if !wantHandle {
          OnListSame(hs, mid, s.order);
          ListedSame(mid, hs, s.order, shape.order, e, old(PoolOf(Made(key, charge, priority, false))));
        }
      }
      table := table[key := e];
      usage := usage + charge;
      if good {
        LifeReflag(mid, handles, table, shape.order, usage, shape.order);
      }
    }

    // The list is what is left, with the entry in its place unless it is held.
    ghost predicate ListedAs(hs: seq<Slot>, left: seq<int>, e: int, wantHandle: bool, rank: int)
      reads this
    {
      if wantHandle then shape.order == left else Listed(hs, left, shape.order, e, rank)
    }

    // Gives the key a new entry in place of the one it may have.
    method Admit(key: int, charge: int, priority: Priority, wantHandle: bool)
        returns (e: int, ok: bool)
      requires Sound() && charge >= 0 && (usage + charge <= capacity || (shape.order == [] && wantHandle))
      modifies `list, `shape, `table, `handles, `usage
      ensures ok && Accounted(handles, list)
        <==> wantHandle || !old(ToLow(Made(key, charge, priority, false))) || old(HighLeft(key)) <= highCap
      ensures ok && Accounted(handles, list) ==>
        Sound() && (old(PoolsFit()) ==> PoolsFit()) && usage <= old(usage) + charge
      ensures e == |old(handles)| && table == old(table)[key := e]
      ensures ok && Accounted(handles, list) ==> |handles| == e + 1 && IsLive(handles, e)
      ensures ok && Accounted(handles, list) ==>
        handles[e].h.key == key && handles[e].h.charge == charge && handles[e].h.refs == (if wantHandle then 1 else 0)
      ensures ok && Accounted(handles, list) ==>
        && KeepsHeld(old(handles), handles, if key in old(table) then old(table)[key] else -1)
        && NeverReturn(old(handles), handles)
      ensures key !in old(table) ==> usage == old(usage) + charge
      ensures key !in old(table) && !wantHandle ==>
        Placed(old(handles), old(list), old(shape), Made(key, charge, priority, false), ok)
      ensures ok && Accounted(handles, list) ==>
        ListedAs(old(handles), Remaining(old(shape).order, old(table), key), e, wantHandle,
                 old(PoolOf(Made(key, charge, priority, false))))
    {
      hide Pools, Without, Lifecycle, Reflagged, KeepsHeld, NeverReturn, With, Drained, Accounted, Listed, Trips;
      hide HighUse, Remaining, Dropped, SameOn;
      Erase(key);
      ErasedCrowd(old(handles), old(table), key, handles, list, shape);
      ghost var hs, h, left := handles, Made(key, charge, priority, wantHandle), shape.order;
      e, ok := Add(key, charge, priority, wantHandle);
      if ok && Accounted(handles, list) {
        StillLive(hs + [Live(h)], handles, shape.order, e);
        InsertedFrame(old(handles), old(table), key, hs, h, handles, table, shape.order, usage);
        if !wantHandle {
          ListedSame(hs, old(handles), left, shape.order, e, old(PoolOf(Made(key, charge, priority, false))));
        }
      }
    }

    // The entry a fresh handle is.
    function Made(key: int, charge: int, priority: Priority, wantHandle: bool): Handle {
      Handle(key, charge, if wantHandle then 1 else 0, true, false, false, false, priority, false)
    }

    // A fresh entry that overflows no pool adds to the high one what it weighs; one for the low pool is let
    // through only if its charge and then those of the high pool bring the high pool within its capacity.
    ghost predicate Placed(hs: seq<Slot>, t: List, s: Shape, h: Handle, ok: bool)
      reads this
    {
      && (ToHigh(h) && t.low <= lowCap && t.high + h.charge <= highCap ==>
            list.high == t.high + h.charge && list.low == t.low && shape.l == s.l)
      && (ToLow(h) ==> Trips(hs + [Live(h)], s, |hs|, t.high, ok)) && (!ToLow(h) ==> ok)
    }

    // What the high pool holds without the entry of that key.
    ghost function HighLeft(key: int): int
      reads this
    {
      HighUse(handles, Remaining(shape.order, table, key))
    }

    // What the high pool holds when an entry of that key and charge, after the evictions and the removal of the
    // entry it replaces, goes onto the list.
    ghost function Crowd(key: int, charge: int): int
      reads this
    {
      HighUse(handles, Remaining(Left(charge), table, key))
    }

    // What evictions to make room for the charge leave of the list.
    ghost function Left(charge: int): seq<int>
      reads this
    {
      shape.order[Evictions(handles, shape.order, usage + charge, capacity)..]
    }

    lemma CrowdAtMost(key: int, charge: int)
      requires Sound()
      ensures Crowd(key, charge) <= list.high
    {
      hide Pools, Lifecycle, HighUse, Dropped, Evictions;
      HighIs(handles, list, shape);
      FewerHighLeft(handles, list, shape, Evictions(handles, shape.order, usage + charge, capacity), table, key);
    }

    // Where the list begins after the evictions.
    method SkipEvicted(charge: int) returns (x: int, ghost k: int)
      requires Ring(list.next, list.prev, shape.order) && AllLive(handles, shape.order)
      ensures 0 <= k <= |shape.order| && x == Nth(shape.order, k)
      ensures k == Evictions(handles, shape.order, usage + charge, capacity)
    {
      hide Ring, Evictions;
      ghost var order := shape.order;
      k := 0;
      RingBefore(list.next, list.prev, order, 0);
      RingDistinct(list.next, list.prev, order);
      var total := usage + charge;
      x := list.next[HEAD];
      assert order[0..] == order;
      while total > capacity && x != HEAD
        invariant 0 <= k <= |order| && x == Nth(order, k)
        invariant Evictions(handles, order, usage + charge, capacity)
          == k + Evictions(handles, order[k..], total, capacity)
        decreases |order| - k
      {
        EvictionStep(handles, order[k..], total, capacity);
        assert order[k..][1..] == order[k + 1..];
        RingBefore(list.next, list.prev, order, k + 1);
        total := total - handles[x].h.charge;
        x := list.next[x];
        k := k + 1;
      }
      EvictionStep(handles, order[k..], total, capacity);
    }

    // The same, found by walking the list.
    method FindCrowd(key: int, charge: int) returns (crowd: int)
      requires Sound()
      ensures crowd == Crowd(key, charge)
    {
      hide Pools, Lifecycle, HighUse, Dropped, Evictions, Ring;
      ListLive(handles, list, shape, 0);
      var victim := if key in table then table[key] else HEAD;
      ghost var order := shape.order;
      var x;
      ghost var k;
      x, k := SkipEvicted(charge);
      crowd := 0;
      ghost var i := k;
      NoneHigh(handles, victim);
      assert order[k..k] == [];
      while x != HEAD
        invariant k <= i <= |order| && x == Nth(order, i) && crowd == HighUse(handles, Dropped(order[k..i], victim))
        decreases |order| - i
      {
        OneMoreHigh(handles, order[k..i], x, victim);
        assert order[k..i + 1] == order[k..i] + [x];
        RingBefore(list.next, list.prev, order, i + 1);
        if x != victim && handles[x].h.inHigh {
          crowd := crowd + handles[x].h.charge;
        }
        x := list.next[x];
        i := i + 1;
      }
      assert order[k..i] == order[k..];
      if key !in table {
        DroppedNone(order[k..], HEAD);
      }
    }

    // Evicts to make room; fails if that is not enough and the limit is strict, and pretends to have inserted
    // and evicted at once if no handle is wanted.
    method InsertItem(key: int, charge: int, priority: Priority, wantHandle: bool)
        returns (status: bool, e: int, ok: bool)
      requires Sound() && charge >= 0
      modifies `list, `shape, `table, `handles, `usage
      ensures e == -1 <==> old(Pinned()) + charge > capacity && (strict || !wantHandle)
      ensures status <==> e != -1 || !wantHandle
      ensures ok && Accounted(handles, list) <==>
        e == -1 || wantHandle || !old(ToLow(Made(key, charge, priority, false))) || old(Crowd(key, charge)) <= highCap
      ensures old(Crowd(key, charge)) <= old(list).high
      ensures ok && Accounted(handles, list) ==> Sound() && (old(PoolsFit()) ==> PoolsFit())
      ensures e != -1 ==> e == |old(handles)| && key in table && table[key] == e
      ensures ok && Accounted(handles, list) && e != -1 ==> e == |handles| - 1 && IsLive(handles, e)
      ensures ok && Accounted(handles, list) && e != -1 ==>
        handles[e].h.key == key && handles[e].h.charge == charge && handles[e].h.refs == (if wantHandle then 1 else 0)
      ensures ok && Accounted(handles, list) && strict && e != -1 ==> usage <= capacity
      ensures ok && Accounted(handles, list) ==>
        forall k :: k in table && k != key ==> k in old(table) && table[k] == old(table)[k]
      ensures ok && Accounted(handles, list) ==>
        forall k :: k in old(table) && k !in table ==> old(table)[k] in old(shape).order
      ensures ok && Accounted(handles, list) ==>
        && KeepsHeld(old(handles), handles, if e != -1 && key in old(table) then old(table)[key] else -1)
        && NeverReturn(old(handles), handles)
      ensures old(usage) + charge <= capacity && key !in old(table) && !wantHandle ==>
        && Placed(old(handles), old(list), old(shape), Made(key, charge, priority, false), ok)
        && (e != -1 ==> table == old(table)[key := e] && usage == old(usage) + charge)
      ensures e == -1 ==> shape.order == old(Left(charge))
      ensures ok && Accounted(handles, list) && e != -1 ==>
        ListedAs(old(handles), Remaining(old(Left(charge)), old(table), key), e, wantHandle,
                 old(PoolOf(Made(key, charge, priority, false))))
    {
      hide Pools, Lifecycle, Trimmed, Drained, With, Accounted, HighUse, Remaining, Dropped, Evictions, Listed, Trips;
      hide Needed, SameOn;
      ghost var k := EvictFromLRU(charge);
      EvictedFrame(old(handles), old(table), old(shape).order, old(usage), handles, table);
      EvictedCrowd(old(handles), old(table), old(shape).order, old(usage), handles, list, shape, table, usage, key);
      if usage + charge > capacity && (strict || !wantHandle) {
        NeverLived();
        IsAccounted(handles, list, shape);
        return !wantHandle, -1, true;
      }
      status := true;
      ghost var hs, left := handles, Remaining(shape.order, table, key);
      e, ok := Admit(key, charge, priority, wantHandle);
      if ok && Accounted(handles, list) && !wantHandle {
        ListedSame(hs, old(handles), left, shape.order, e, old(PoolOf(Made(key, charge, priority, false))));
      }
    }

    // An entry that is in no table, held by the caller alone; without charge if need be and allowed.
    method CreateStandalone(key: int, charge: int, allowUncharged: bool) returns (e: int)
      requires Sound() && charge >= 0
      modifies `list, `shape, `table, `handles, `usage
      ensures Sound() && (old(PoolsFit()) ==> PoolsFit())
      ensures e == -1 <==> strict && !allowUncharged && old(Pinned()) + charge > capacity
      ensures e != -1 ==>
        && e == |old(handles)| && IsLive(handles, e) && handles[e].h.refs == 1 && !handles[e].h.inCache
        && handles[e].h.standalone
        && handles[e].h.charge == (if strict && old(Pinned()) + charge > capacity then 0 else charge)
      ensures strict ==> usage <= capacity || usage <= old(usage)
      ensures |handles| == |old(handles)| + 1 && shape.order == old(Left(charge))
      ensures Trimmed(old(handles), handles[..|old(handles)|], old(shape).order, old(table), table)
    {
      hide Pools, Without, Lifecycle, Trimmed, NoneNeeded, Needed, Idle;
      ghost var k := EvictFromLRU(charge);
      ghost var hs1 := handles;
      assert handles[..|handles|] == handles;
      var c := charge;
      if strict && usage + charge > capacity {
        if !allowUncharged {
          NeverLived();
          assert handles[..|old(handles)|] == hs1;
          return -1;
        }
        c := 0;
      }
      e := |handles|;
      var h := Handle(key, c, 1, false, false, false, false, Low, true);
      ghost var hs := handles;
      OnlyLive(handles, list, shape);
      LifeAppend(hs, table, shape.order, usage, h, shape.order);
      handles := handles + [Live(h)];
      assert handles[..|old(handles)|] == hs1;
      usage := usage + c;
      PoolsOutside(hs, list.next, list.prev, shape.order, shape.b, shape.l, list.lowPri, list.bottomPri, list.usage,
                   list.high, list.low, handles);
    }

    // Pool capacities follow the capacity; entries are evicted to fit it.  The pools themselves are not rebalanced,
    // so they fit afterwards only if their capacities did not fall below what they hold.
    method SetCapacity(capacity: int, highCap: int, lowCap: int)
      requires Sound() && 0 <= highCap && 0 <= lowCap
      modifies this
      ensures Sound() && (old(list).high <= highCap && old(list).low <= lowCap ==> PoolsFit())
      ensures this.capacity == capacity && this.highCap == highCap && this.lowCap == lowCap
      ensures Trimmed(old(handles), handles, old(shape).order, old(table), table) && unchanged(`strict, `highOn, `lowOn)
      ensures shape.order == old(shape).order[Evictions(old(handles), old(shape).order, old(usage), capacity)..]
      ensures old(usage) <= capacity ==>
        && handles == old(handles) && list == old(list) && shape == old(shape) && table == old(table)
        && usage == old(usage)
    {
      hide Pools, Without, Lifecycle, Trimmed;
      this.capacity, this.highCap, this.lowCap := capacity, highCap, lowCap;
      ghost var k := EvictFromLRU(0);
    }

    method SetHighPriorityPoolRatio(on: bool, highCap: int)
      requires Sound() && 0 <= highCap
      modifies this
      ensures Valid() && this.highCap == highCap && shape.order == old(shape).order
      ensures Reflagged(old(handles), handles, shape.order)
    {
      hide Pools, Lifecycle, Reflagged;
      this.highOn, this.highCap := on, highCap;
      ListLive(handles, list, shape, 0);
      ghost var s := MaintainFits(handles, list, shape, 0, this.highCap, this.lowCap);
      var ok := MaintainPoolSize(shape.l, shape.b);
      shape := s;
      LifeReflag(old(handles), handles, table, shape.order, usage, shape.order);
    }

    method SetLowPriorityPoolRatio(on: bool, lowCap: int)
      requires Sound() && 0 <= lowCap
      modifies this
      ensures Valid() && this.lowCap == lowCap && shape.order == old(shape).order
      ensures Reflagged(old(handles), handles, shape.order)
    {
      hide Pools, Lifecycle, Reflagged;
      this.lowOn, this.lowCap := on, lowCap;
      ListLive(handles, list, shape, 0);
      ghost var s := MaintainFits(handles, list, shape, 0, this.highCap, this.lowCap);
      var ok := MaintainPoolSize(shape.l, shape.b);
      shape := s;
      LifeReflag(old(handles), handles, table, shape.order, usage, shape.order);
    }

    method EraseUnRefEntries()
      requires Sound()
      modifies `list, `shape, `table, `handles, `usage
      ensures Sound() && (old(PoolsFit()) ==> PoolsFit()) && shape.order == []
      ensures Trimmed(old(handles), handles, old(shape).order, old(table), table)
      ensures forall x :: IsLive(handles, x) ==> handles[x].h.refs > 0
    {
      hide Pools, Without, Lifecycle, Trimmed;
      NotTrimmed(handles, shape.order, table);
      Oldest(handles, list, shape);
      ghost var k := 0;
      assert shape.order == old(shape).order[0..];
      while list.next[HEAD] != HEAD
        invariant Sound() && list.high <= old(list).high && list.low <= old(list).low && 0 <= k <= |old(shape).order|
        invariant shape.order == old(shape).order[k..]
        invariant Trimmed(old(handles), handles, old(shape).order, old(table), table)
        invariant HEAD in list.next && (list.next[HEAD] == HEAD <==> shape.order == [])
        invariant (shape.order != [] ==> list.next[HEAD] == shape.order[0])
        decreases |shape.order|
      {
        TrimMore(old(handles), handles, old(shape).order, old(table), table, list.next[HEAD]);
        OnList(handles, table, shape, list, usage, 0);
        Discard(list.next[HEAD], 0);
        assert shape.order == old(shape).order[k + 1..];
        k := k + 1;
        Oldest(handles, list, shape);
      }
      forall x | IsLive(handles, x) ensures handles[x].h.refs > 0 {
        LifeAt(handles, table, shape.order, usage, x);
      }
    }
  }

  // Had the last of the first k been kept, there would still be too much.
  ghost predicate Needed(hs: seq<Slot>, order: seq<int>, k: int, total: int, capacity: int)
    requires 0 <= k <= |order|
  {
    k > 0 ==> total + Charge(hs, order[k - 1]) > capacity
  }

  // Nothing is evicted exactly if there was room to begin with, or nothing to evict.
  ghost predicate NoneNeeded(k: int, total: int, capacity: int, order: seq<int>) {
    k == 0 <==> total <= capacity || order == []
  }

  ghost predicate Idle(k: int, hs: seq<Slot>, hs2: seq<Slot>, t: List, t2: List, s: Shape, s2: Shape,
                       table: map<int, int>, table2: map<int, int>) {
    k == 0 ==> hs2 == hs && t2 == t && s2 == s && table2 == table
  }

  lemma OnListSame(hs: seq<Slot>, hs2: seq<Slot>, order: seq<int>)
    requires AllLive(hs, order) && |hs| <= |hs2| && hs2[..|hs|] == hs
    ensures SameOn(hs2, hs, order)
  {
    assert forall x :: 0 <= x < |hs| ==> hs2[x] == hs2[..|hs|][x];
  }

  // The list without the entry the key has in the table.
  function Remaining(order: seq<int>, table: map<int, int>, key: int): seq<int> {
    if key in table then Dropped(order, table[key]) else order
  }

  // Erasing a key leaves the slots of what remains on the list alone.
  lemma ErasedCrowd(was: seq<Slot>, table: map<int, int>, key: int, now: seq<Slot>, t: List, s: Shape)
    requires key !in table ==> now == was
    requires key in table ==>
      && IsLive(was, table[key]) && |now| == |was| && table[key] !in s.order
      && forall x :: 0 <= x < |was| && x != table[key] ==> now[x] == was[x]
    requires ListOK(now, t, s, 0)
    ensures t.high == HighUse(was, s.order) && SameOn(now, was, s.order)
  {
    hide Pools, HighUse;
    HighIs(now, t, s);
    ListLive(now, t, s, 0);
    HighSame(now, was, s.order);
  }

  // After the evictions, what is left of the list is as it was, and the key's entry, if it is gone, is not on it.
  lemma EvictedCrowd(was: seq<Slot>, table: map<int, int>, order: seq<int>, usage: int,
                     now: seq<Slot>, t: List, s: Shape, table2: map<int, int>, usage2: int, key: int)
    requires Trimmed(was, now, order, table, table2) && Lifecycle(now, table2, s.order, usage2) && ListOK(now, t, s, 0)
    requires Lifecycle(was, table, order, usage)
    ensures Remaining(s.order, table, key) == Remaining(s.order, table2, key)
    ensures HighUse(was, Remaining(s.order, table, key)) == HighUse(now, Remaining(s.order, table2, key)) <= t.high
    ensures SameOn(now, was, Remaining(s.order, table2, key))
  {
    hide Pools, HighUse, Dropped;
    ListLive(now, t, s, 0);
    if key in table && key !in table2 {
      var x := table[key];
      assert IsLive(now, x) ==> HandleOK(now[x].h, x, table2, s.order);
      DroppedNone(s.order, x);
    }
    var left := Remaining(s.order, table, key);
    RemainingOn(now, t, s, table, key);
    HighSame(now, was, left);
  }

  lemma RemainingOn(hs: seq<Slot>, t: List, s: Shape, table: map<int, int>, key: int)
    requires ListOK(hs, t, s, 0)
    ensures AllLive(hs, Remaining(s.order, table, key)) && HighUse(hs, Remaining(s.order, table, key)) <= t.high
  {
    hide Pools, HighUse, Dropped;
    ListLive(hs, t, s, 0);
    HighIs(hs, t, s);
    if key in table {
      DroppedLess(hs, t, s, table[key]);
    }
  }

  lemma NoneHigh(hs: seq<Slot>, x: int)
    ensures HighUse(hs, Dropped([], x)) == 0
  {
  }

  lemma OneMoreHigh(hs: seq<Slot>, order: seq<int>, e: int, x: int)
    requires IsLive(hs, e)
    ensures HighUse(hs, Dropped(order + [e], x)) ==
      HighUse(hs, Dropped(order, x)) + (if e != x && hs[e].h.inHigh then hs[e].h.charge else 0)
  {
    var d := Dropped(order, x);
    assert (order + [e])[..|order|] == order;
    assert (d + [e])[..|d|] == d && d + [] == d;
  }

  lemma FewerHighLeft(hs: seq<Slot>, t: List, s: Shape, k: int, table: map<int, int>, key: int)
    requires ListOK(hs, t, s, 0) && 0 <= k <= |s.order|
    ensures HighUse(hs, Remaining(s.order[k..], table, key)) <= HighUse(hs, s.order)
  {
    HighSplit(hs, s.order, k);
    HighSign(hs, s.order[..k]);
    if key in table {
      FewerHigh(hs, s.order[k..], table[key]);
    }
  }

  lemma {:induction false} HighSplit(hs: seq<Slot>, order: seq<int>, k: int)
    requires 0 <= k <= |order|
    ensures HighUse(hs, order) == HighUse(hs, order[..k]) + HighUse(hs, order[k..])
  {
    if k == |order| {
      assert order[..k] == order;
    } else {
      var n := |order| - 1;
      HighSplit(hs, order[..n], k);
      assert order[..n][..k] == order[..k] && order[..n][k..] == order[k..][..n - k];
    }
  }

  lemma {:induction false} HighSign(hs: seq<Slot>, order: seq<int>)
    requires forall i :: 0 <= i < |order| ==> IsLive(hs, order[i]) && hs[order[i]].h.charge >= 0
    ensures HighUse(hs, order) >= 0
  {
    if order != [] {
      HighSign(hs, order[..|order| - 1]);
    }
  }

  lemma DroppedLess(hs: seq<Slot>, t: List, s: Shape, x: int)
    requires ListOK(hs, t, s, 0)
    ensures AllLive(hs, Dropped(s.order, x)) && HighUse(hs, Dropped(s.order, x)) <= HighUse(hs, s.order)
  {
    FewerHigh(hs, s.order, x);
  }

  lemma {:induction false} FewerHigh(hs: seq<Slot>, order: seq<int>, x: int)
    requires forall i :: 0 <= i < |order| ==> IsLive(hs, order[i]) && hs[order[i]].h.charge >= 0
    ensures AllLive(hs, Dropped(order, x)) && HighUse(hs, Dropped(order, x)) <= HighUse(hs, order)
  {
    if order != [] {
      var n := |order| - 1;
      FewerHigh(hs, order[..n], x);
      var d := Dropped(order[..n], x);
      assert (d + [order[n]])[..|d|] == d;
      assert d + [] == d;
    }
  }

  lemma ListWeight(hs: seq<Slot>, t: List, s: Shape)
    requires ListOK(hs, t, s, 0)
    ensures t.usage >= 0 && (s.order == [] ==> t.usage == 0)
  {
    WeightMono(hs, s.order, 0, |s.order|);
  }

  lemma SameWeight(hs: seq<Slot>, hs2: seq<Slot>, order: seq<int>, table: map<int, int>, table2: map<int, int>, x: int)
    requires Trimmed(hs, hs2, order, table, table2) && IsLive(hs2, x)
    ensures Charge(hs, x) == hs2[x].h.charge
  {
  }

  // Referenced handles are as they were, but that the victim has left the table.
  ghost predicate KeepsHeld(was: seq<Slot>, now: seq<Slot>, victim: int) {
    forall x :: IsLive(was, x) && was[x].h.refs > 0 ==>
      x < |now| && now[x] == if x == victim then Live(was[x].h.(inCache := false)) else was[x]
  }

  // A handle is freed once: what is gone stays gone, and no number is used again.
  ghost predicate NeverReturn(was: seq<Slot>, now: seq<Slot>) {
    |was| <= |now| && forall x :: 0 <= x < |was| && was[x].Gone? ==> now[x].Gone?
  }

  // Evictions leave referenced handles alone, and take keys only with their unreferenced entries.
  lemma EvictedFrame(was: seq<Slot>, table: map<int, int>, order: seq<int>, usage: int, now: seq<Slot>,
                     table2: map<int, int>)
    requires Lifecycle(was, table, order, usage) && Trimmed(was, now, order, table, table2)
    ensures forall x :: IsLive(was, x) && was[x].h.refs > 0 ==> x < |now| && now[x] == was[x]
    ensures NeverReturn(was, now)
    ensures forall k :: k in table2 ==> k in table && table2[k] == table[k]
    ensures forall k :: k in table && k !in table2 ==>
      table[k] in order && !(IsLive(was, table[k]) && was[table[k]].h.refs > 0)
  {
  }

  lemma InsertedFrame(was: seq<Slot>, table: map<int, int>, key: int, erased: seq<Slot>, h: Handle,
                      now: seq<Slot>, table2: map<int, int>, order2: seq<int>, usage2: int)
    requires key !in table ==> erased == was
    requires key in table ==>
      var e := table[key];
      IsLive(was, e) && erased == was[e := if was[e].h.refs == 0 then Gone else Live(was[e].h.(inCache := false))]
    requires Reflagged(erased + [Live(h)], now, order2) && Lifecycle(now, table2, order2, usage2)
    ensures KeepsHeld(was, now, if key in table then table[key] else -1) && NeverReturn(was, now)
  {
  }

  lemma StillLive(hs: seq<Slot>, hs2: seq<Slot>, order: seq<int>, x: int)
    requires Reflagged(hs, hs2, order) && IsLive(hs, x)
    ensures |hs2| == |hs| && IsLive(hs2, x) && hs2[x].h.key == hs[x].h.key && hs2[x].h.charge == hs[x].h.charge
    ensures hs2[x].h.refs == hs[x].h.refs
  {
  }

  lemma OnlyLive(hs: seq<Slot>, t: List, s: Shape)
    requires ListOK(hs, t, s, 0)
    ensures |hs| !in s.order && forall x :: x in s.order ==> 0 <= x < |hs|
  {
    hide Weight;
    forall x | x in s.order ensures 0 <= x < |hs| {
      var i :| 0 <= i < |s.order| && s.order[i] == x;
      assert IsLive(hs, s.order[i]);
    }
  }

  lemma NothingYet(t: List, s: Shape)
    requires t == List(map[HEAD := HEAD], map[HEAD := HEAD], HEAD, HEAD, 0, 0, 0) && s == Shape([], 0, 0)
    ensures ListOK([], t, s, 0) && Lifecycle([], map[], [], 0)
  {
    var order: seq<int> := [];
    assert Nth(order, -1) == Nth(order, 0) == HEAD;
    assert Ring(t.next, t.prev, order);
  }

  lemma InTable(hs: seq<Slot>, table: map<int, int>, order: seq<int>, usage: int, key: int)
    requires Lifecycle(hs, table, order, usage) && key in table
    ensures var x := table[key];
      && IsLive(hs, x) && hs[x].h.key == key && hs[x].h.inCache && hs[x].h.refs >= 0 && hs[x].h.charge >= 0
      && (x in order <==> hs[x].h.refs == 0)
  {
    LifeAt(hs, table, order, usage, table[key]);
  }

  // The first of the list, as the head points to it.
  lemma Oldest(hs: seq<Slot>, t: List, s: Shape)
    requires ListOK(hs, t, s, 0)
    ensures HEAD in t.next && (t.next[HEAD] == HEAD <==> s.order == [])
    ensures (s.order != [] ==> t.next[HEAD] == s.order[0])
  {
    RingBefore(t.next, t.prev, s.order, 0);
    RingDistinct(t.next, t.prev, s.order);
  }

  lemma OnList(hs: seq<Slot>, table: map<int, int>, s: Shape, t: List, usage: int, i: int)
    requires ListOK(hs, t, s, 0) && Lifecycle(hs, table, s.order, usage) && 0 <= i < |s.order|
    ensures var x := s.order[i];
      && IsLive(hs, x) && hs[x].h.inCache && hs[x].h.refs == 0 && hs[x].h.charge >= 0
      && hs[x].h.key in table && table[hs[x].h.key] == x
    ensures Distinct(s.order)
  {
    hide Weight;
    ElementFacts(hs, t.next, t.prev, s.order, s.b, s.l, t.lowPri, t.bottomPri, t.usage, t.high, t.low, i);
    LifeAt(hs, table, s.order, usage, s.order[i]);
  }

  lemma OffList(order: seq<int>, i: int)
    requires Distinct(order) && 0 <= i < |order|
    ensures forall y :: y in Without(order, i) <==> y in order && y != order[i]
  {
    hide Without;
    forall y ensures y in Without(order, i) <==> y in order && y != order[i] {
      MemberOut(order, i, y);
    }
  }

  // Some of the handles that were on the list are gone, and their keys with them.
  ghost predicate Trimmed(hs: seq<Slot>, hs2: seq<Slot>, order: seq<int>, table: map<int, int>, table2: map<int, int>) {
    && |hs2| == |hs| && (forall x :: 0 <= x < |hs| ==> hs2[x] == hs[x] || (x in order && hs2[x].Gone?))
    && (forall k :: k in table2 ==> k in table && table2[k] == table[k])
    && (forall k :: k in table && k !in table2 ==> table[k] in order)
  }

  lemma NotTrimmed(hs: seq<Slot>, order: seq<int>, table: map<int, int>)
    ensures Trimmed(hs, hs, order, table, table)
  {
  }

  lemma TrimMore(hs: seq<Slot>, hs2: seq<Slot>, order: seq<int>, table: map<int, int>, table2: map<int, int>, x: int)
    requires Trimmed(hs, hs2, order, table, table2)
    ensures x in order && IsLive(hs2, x) && hs2[x].h.key in table2 && table2[hs2[x].h.key] == x ==>
      Trimmed(hs, hs2[x := Gone], order, table, table2 - {hs2[x].h.key})
  {
  }

  lemma InsertReady(hs: seq<Slot>, t: List, s: Shape, e: int, i: int, inHigh: bool, inLow: bool)
    requires ListOK(hs, t, s, 0) && IsLive(hs, e) && hs[e].h.charge >= 0 && e !in s.order
    requires inHigh ==> i == |s.order| && !inLow
    requires inLow ==> i == s.l && !inHigh
    requires !inHigh && !inLow ==> i == s.b
    ensures var hs2, r := SetPool(hs, e, inHigh, inLow), s.order;
      && 0 <= i <= |r| && Nth(r, i - 1) in t.next && Reflagged(hs, hs2, With(r, i, e))
      && (forall x :: x in With(r, i, e) <==> x in r || x == e) && With(r, i, e)[i] == e
      && var p, c := Nth(r, i - 1), hs[e].h.charge;
      && var n := t.next[p];
      && var next2, prev2, r2 := t.next[e := n][p := e], t.prev[e := p][n := e], With(r, i, e);
      && (inHigh ==> Pools(hs2, next2, prev2, r2, s.b, s.l, t.lowPri, t.bottomPri, t.usage + c, t.high + c, t.low, 0))
      && (inLow ==> Pools(hs2, next2, prev2, r2, s.b, s.l + 1, t.lowPri, t.bottomPri, t.usage + c, t.high, t.low + c,
                          1))
      && (!inHigh && !inLow ==>
            Pools(hs2, next2, prev2, r2, s.b + 1, s.l + 1, if s.b == s.l then e else t.lowPri, e, t.usage + c, t.high,
                  t.low, 0))
  {
    hide Pools, With, Reflagged;
    var hs2, r := SetPool(hs, e, inHigh, inLow), s.order;
    PointersAgree(hs, t.next, t.prev, r, s.b, s.l, t.lowPri, t.bottomPri, t.usage, t.high, t.low);
    PoolsOutside(hs, t.next, t.prev, r, s.b, s.l, t.lowPri, t.bottomPri, t.usage, t.high, t.low, hs2);
    PoolsInsert(hs2, t.next, t.prev, r, s.b, s.l, t.lowPri, t.bottomPri, t.usage, t.high, t.low, i, e);
    forall x ensures x in With(r, i, e) <==> x in r || x == e {
      MemberIn(r, i, e, x);
    }
    NotReflagged(hs, With(r, i, e));
    ReflagOne(hs, hs, With(r, i, e), e, inHigh, inLow);
  }
}
