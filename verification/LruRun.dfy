/** Runs of an LRU shard: any calls in any order, by clients that release only what they hold. */
module LruRun {
  import opened Sums
  import opened LruRing
  import opened LruPools
  import opened LruLife
  import opened LruOverflow
  import opened LruShard

  datatype Op =
    | Insert(key: int, charge: nat, priority: Priority, wantHandle: bool)
    | Look(key: int)
    | Refer(e: int)
    | Drop(e: int, eraseIfLast: bool)
    | Standalone(key: int, charge: nat, allowUncharged: bool)
    | EraseKey(key: int)
    | Capacity(capacity: nat, high: nat, low: nat)
    | HighRatio(on: bool, cap: nat)
    | LowRatio(on: bool, cap: nat)
    | Sweep

  predicate Allowed(s: Shard, op: Op)
    reads s
  {
    op.Refer? || op.Drop? ==> IsLive(s.handles, op.e) && s.handles[op.e].h.refs > 0
  }

  // The call puts no entry into the low pool while the high one is over its capacity: exactly what InsertItem
  // and Release need.
  ghost predicate Clear(s: Shard, op: Op)
    requires Allowed(s, op)
    reads s
  {
    match op
    case Insert(key, charge, priority, wantHandle) =>
      || wantHandle || !s.ToLow(s.Made(key, charge, priority, false)) || s.Crowd(key, charge) <= s.highCap
      || s.Pinned() + charge > s.capacity
    case Drop(e, eraseIfLast) => !(s.Relists(s.handles[e].h, eraseIfLast) && s.Jams(s.handles[e].h))
    case _ => true
  }

  method IsClear(s: Shard, op: Op) returns (clear: bool)
    requires s.Sound() && Allowed(s, op)
    ensures clear == Clear(s, op)
  {
    hide Pools, Lifecycle, Shard.Crowd;
    match op
    case Insert(key, charge, priority, wantHandle) =>
      var crowd := s.FindCrowd(key, charge);
      clear := wantHandle || !s.ToLow(s.Made(key, charge, priority, false)) || crowd <= s.highCap
               || s.Pinned() + charge > s.capacity;
    case Drop(e, eraseIfLast) => clear := !(s.Relists(s.handles[e].h, eraseIfLast) && s.Jams(s.handles[e].h));
    case _ => clear := true;
  }

  // The call does not take a pool's capacity below what the pool holds.
  predicate Within(s: Shard, op: Op)
    reads s
  {
    op.Capacity? ==> s.list.high <= op.high && s.list.low <= op.low
  }

  lemma ReflaggedNeverReturn(was: seq<Slot>, now: seq<Slot>, order: seq<int>)
    requires Reflagged(was, now, order)
    ensures NeverReturn(was, now)
  {
  }

  lemma TrimmedNeverReturn(was: seq<Slot>, now: seq<Slot>, order: seq<int>, table: map<int, int>, table2: map<int, int>)
    requires Trimmed(was, now, order, table, table2)
    ensures NeverReturn(was, now)
  {
  }

  method Step(s: Shard, op: Op)
    requires s.Sound() && Allowed(s, op) && Clear(s, op)
    modifies s
    ensures s.Sound() && NeverReturn(old(s.handles), s.handles)
    ensures old(s.PoolsFit() && Within(s, op)) ==> s.PoolsFit()
  {
    hide Pools, Lifecycle, Reflagged, Trimmed, KeepsHeld, Drained;
    match op
    case Insert(key, charge, priority, wantHandle) =>
      var status, e, ok;
      status, e, ok := s.InsertItem(key, charge, priority, wantHandle);
    case Look(key) => var e := s.Lookup(key);
    case Refer(e) => s.Ref(e);
    case Drop(e, eraseIfLast) =>
      ghost var was := s.handles;
      var freed, ok := s.Release(e, eraseIfLast);
      if !freed {
        ReflaggedNeverReturn(was[e := Live(was[e].h.(refs := was[e].h.refs - 1))], s.handles, s.shape.order);
      }
    case Standalone(key, charge, allowUncharged) =>
      ghost var was, order, table := s.handles, s.shape.order, s.table;
      var e := s.CreateStandalone(key, charge, allowUncharged);
      TrimmedNeverReturn(was, s.handles[..|was|], order, table, s.table);
    case EraseKey(key) => s.Erase(key);
    case Capacity(capacity, high, low) =>
      ghost var was, order, table := s.handles, s.shape.order, s.table;
      s.SetCapacity(capacity, high, low);
      TrimmedNeverReturn(was, s.handles, order, table, s.table);
    case HighRatio(on, cap) =>
      ghost var was := s.handles;
      s.SetHighPriorityPoolRatio(on, cap);
      ReflaggedNeverReturn(was, s.handles, s.shape.order);
    case LowRatio(on, cap) =>
      ghost var was := s.handles;
      s.SetLowPriorityPoolRatio(on, cap);
      ReflaggedNeverReturn(was, s.handles, s.shape.order);
    case Sweep =>
      ghost var was, order, table := s.handles, s.shape.order, s.table;
      s.EraseUnRefEntries();
      TrimmedNeverReturn(was, s.handles, order, table, s.table);
  }

  // Whatever the calls and however the capacities move: after each call that does not jam, list, table and
  // counters agree, the list is empty if the shard is over capacity, and what was freed stays freed.
  method Run(s: Shard, ops: seq<Op>)
    requires s.Sound()
    modifies s
    ensures s.Sound() && NeverReturn(old(s.handles), s.handles)
  {
    hide Shard.Sound;
    for i := 0 to |ops|
      invariant s.Sound() && NeverReturn(old(s.handles), s.handles)
    {
      if Allowed(s, ops[i]) {
        var clear := IsClear(s, ops[i]);
        if clear {
          Step(s, ops[i]);
        }
      }
    }
  }

  lemma FitsIsClear(s: Shard, op: Op)
    requires s.Valid() && Allowed(s, op)
    ensures Clear(s, op)
  {
    hide Pools, Lifecycle;
    if op.Insert? {
      s.CrowdAtMost(op.key, op.charge);
    }
  }

  // If no capacity falls below what its pool holds, nothing ever jams and the pools stay within them.
  method RunWithin(s: Shard, ops: seq<Op>)
    requires s.Valid()
    modifies s
    ensures s.Valid() && NeverReturn(old(s.handles), s.handles)
  {
    hide Shard.Sound;
    for i := 0 to |ops|
      invariant s.Valid() && NeverReturn(old(s.handles), s.handles)
    {
      if Allowed(s, ops[i]) && Within(s, ops[i]) {
        FitsIsClear(s, ops[i]);
        Step(s, ops[i]);
      }
    }
  }

  // ---------------------------------------------------------------- a jam

  lemma Apart(order: seq<int>)
    requires Distinct(order)
    ensures |order| > 1 ==> Nth(order, 0) != Nth(order, 1)
  {
  }

  lemma OneEntry(s: Shard)
    requires s.Sound() && |s.handles| == 1 && IsLive(s.handles, 0) && s.handles[0].h.refs == 0
    requires s.handles[0].h.charge == 5
    ensures s.usage == 5 && s.shape.order == [0]
  {
    var order := s.shape.order;
    assert HandleOK(s.handles[0].h, 0, s.table, order);
    assert Sum(s.handles, SlotCharge) == SlotCharge(s.handles[0]) by { assert s.handles[..0] == []; }
    ListLive(s.handles, s.list, s.shape, 0);
    assert 0 in order;
    Apart(order);
    assert |order| > 1 ==> Nth(order, 0) == 0 == Nth(order, 1);
  }

  lemma Stuck(hs: seq<Slot>)
    requires |hs| == 2 && Charge(hs, 0) == 5 && Charge(hs, 1) == 1
    ensures !Drained(hs, With([0], 0, 1), 0, 5, 3)
  {
    var order := With([0], 0, 1);
    assert order[0] == 1 && order[1] == 0;
    assert !Drained(hs, order, 1, 4, 3);
  }

  // A high-priority entry of charge 5 in a shard of capacity 10, both ratios one half; the capacity falls to 6.
  method TwoCalls() returns (s: Shard)
    ensures fresh(s) && s.Sound() && s.usage == 5 && s.table == map[1 := 0] && s.shape.order == [0] && s.shape.l == 0
    ensures |s.handles| == 1 && IsLive(s.handles, 0) && s.handles[0].h.charge == 5 && s.list.high == 5
    ensures s.capacity == 6 && s.highCap == 3 && s.lowCap == 3 && !s.strict && s.highOn && s.lowOn
  {
    hide Pools, Lifecycle, KeepsHeld, Drained, With, Shard.Trips, Listed;
    s := new Shard(10, false, 5, 5, true, true);
    var status, e, ok := s.InsertItem(1, 5, High, false);
    OneEntry(s);
    s.SetCapacity(6, 3, 3);
  }

  // Then a low-priority entry of charge 1 is inserted: it is in the table and charged, but the high pool is still
  // over its capacity, and the next entry to be taken out of it weighs more than it is said to hold.
  method ThreeCalls() returns (s: Shard, ok: bool)
    ensures fresh(s) && s.capacity == 6 && s.highCap == 3 && s.table == map[1 := 0, 2 := 1] && s.usage == 6
    ensures !ok && TrippedHigh(s.handles, s.list, s.highCap)
  {
    hide Pools, Lifecycle, KeepsHeld, Drained, With, Listed;
    s := TwoCalls();
    ListWeight(s.handles, s.list, s.shape);
    Stuck(s.handles + [Live(s.Made(2, 1, Low, false))]);
    var status, e;
    status, e, ok := s.InsertItem(2, 1, Low, false);
  }
}
