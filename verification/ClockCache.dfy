/** A clock table in strict mode, one call at a time: occupancy limit, charging, eviction and the table together. */
module ClockCache {
  import opened Arith
  import opened ClockProbe
  import opened ClockSlot
  import opened ClockPaths
  import opened ClockTable
  import opened ClockEvict
  import opened Sums

  datatype Status = Ok | Overwritten | MemoryLimit

  function Self(x: int): int { x }

  lemma {:induction false} StoredFreed(was: seq<Cell>, now: seq<Cell>, n: nat)
    requires n <= |was| == |now|
    requires forall s :: 0 <= s < n && Occupied(now[s]) ==> Occupied(was[s]) && now[s].charge == was[s].charge
    ensures Stored(was, n) == Stored(now, n) + Freed(was, now, n)
  {
    if n > 0 {
      StoredFreed(was, now, n - 1);
    }
  }

  lemma SweptFreed(was: seq<Cell>, now: seq<Cell>, p: nat, n: nat)
    requires Swept(was, now, p, n)
    ensures |was| == |now| && Stored(was, |was|) == Stored(now, |now|) + Freed(was, now, |now|)
  {
    hide Swept, Freed, Stored;
    SweptSizes(was, now, p, n);
    forall s | 0 <= s < |now| && Occupied(now[s]) ensures Occupied(was[s]) && now[s].charge == was[s].charge {
      StillThere(was, now, p, n, s);
    }
    StoredFreed(was, now, |now|);
  }

  lemma SweptSizes(was: seq<Cell>, now: seq<Cell>, p: nat, n: nat)
    requires Swept(was, now, p, n)
    ensures |was| == |now| > 0
  {
  }

  lemma SizesPositive(t: Table)
    requires t.Valid()
    ensures |t.cells| == Pow2(t.bits) > 0
  {
  }

  class Cache {
    const table: Table
    const capacity: int
    const limit: int        // occupancy_limit_, below the number of slots
    const metadata: int     // what the table itself is charged
    var usage: int
    var alone: seq<int>     // the charges of standalone entries, zero once released
    var pointer: nat

    ghost predicate Valid()
      reads this, table
    {
      && table.Valid() && 0 <= limit < Pow2(table.bits) && table.occupancy <= limit
      && usage == metadata + Stored(table.cells, |table.cells|) + Sum(alone, Self) && usage <= capacity
      && forall i :: 0 <= i < |alone| ==> alone[i] >= 0
    }

    constructor (bits: nat, capacity: int, limit: int, metadata: int)
      requires 0 <= limit < Pow2(bits) && metadata <= capacity
      ensures Valid() && fresh(table) && alone == [] && usage == metadata
    {
      var t := new Table(bits);
      table, this.capacity, this.limit, this.metadata := t, capacity, limit, metadata;
      usage, alone, pointer := metadata, [], 0;
      NothingStored(t.cells, |t.cells|);
    }

    // Makes room for a charge and, if asked, for one more entry; takes back what it charged if it cannot.
    // batches: how far it ran the clock for that.
    method ChargeUsage(charge: int, needEvict: bool) returns (ok: bool, batches: nat)
      requires Valid() && charge >= 0 && (!needEvict ==> table.occupancy < limit)
      modifies `usage, `pointer, table`cells, table`disp, table`occupancy
      ensures table.Valid() && table.occupancy <= old(table.occupancy)
      ensures Swept(old(table.cells), table.cells, old(pointer), STEP_SIZE * batches)
      ensures pointer == old(pointer) + STEP_SIZE * batches
      ensures usage == metadata + Stored(table.cells, |table.cells|) + Sum(alone, Self) + (if ok then charge else 0)
      ensures usage <= capacity && (ok ==> table.occupancy < limit)
      ensures ok <==>
        && charge <= capacity
        && old(usage) + charge - Freed(old(table.cells), table.cells, |table.cells|) <= capacity
        && (needEvict ==> table.occupancy < old(table.occupancy))
      ensures Ran(old(table.cells), old(pointer), batches,
                  Request(old(usage) + charge - capacity, needEvict), charge <= capacity)
      ensures !ok && charge <= capacity ==> batches == MaxBatches(|table.cells|)
    {
      hide Pow2, Sound, Population, Stored, Freed, Swept, Sum, Short;
      ghost var was := table.cells;
      SizesPositive(table);
      batches := 0;
      SweptStart(was, pointer);
      NothingFreed(was, |was|);
      if charge > capacity {
        return false, 0;
      }
      var before := usage;
      usage := Min(capacity, before + charge);
      var need := before + charge - usage;
      var request := if needEvict && need == 0 then 1 else need;
      if request > 0 {
        var freed, count;
        freed, count, batches := Evict(table, pointer, request);
        pointer := pointer + STEP_SIZE * batches;
        SweptFreed(was, table.cells, old(pointer), STEP_SIZE * batches);
        if freed > need {
          assert count > 0;
          usage := usage - (freed - need);
        } else if freed < need || (needEvict && count == 0) {
          usage := usage - (freed + (usage - before));
          return false, batches;
        }
        assert count > 0;
      }
      ok := true;
    }

    // The slot given is -1 if the entry did not go into the table.
    method Insert(key: Key, value: int, charge: int, cd: int, wantHandle: bool)
        returns (status: Status, e: int, ghost mid: seq<Cell>, ghost batches: nat)
      requires Valid() && charge >= 0 && 1 <= cd <= MAX_COUNTDOWN
      modifies `usage, `alone, `pointer, table`cells, table`disp, table`depth, table`occupancy
      ensures Valid() && Swept(old(table.cells), mid, old(pointer), STEP_SIZE * batches) && |mid| == |table.cells|
      ensures Ran(old(table.cells), old(pointer), batches,
                  Request(old(usage) + charge - capacity, old(table.occupancy) == limit), charge <= capacity)
      ensures status.MemoryLimit? <==>
        || charge > capacity
        || old(usage) + charge - Freed(old(table.cells), mid, |mid|) > capacity
        || (old(table.occupancy) == limit && Freshly(old(table.cells), mid) == 0)
      ensures status.MemoryLimit? ==> e == -1 && table.cells == mid && alone == old(alone)
      ensures status.MemoryLimit? && charge <= capacity ==> batches == MaxBatches(|mid|)
      ensures status.MemoryLimit? && charge <= capacity ==>
        forall s :: 0 <= s < |mid| && Exposed(mid[s]) ==> Worn(old(table.cells)[s], mid[s])
      ensures e != -1 ==>
        && 0 <= e < |mid| && !Occupied(mid[e]) && alone == old(alone)
        && table.cells == mid[e := Cell(Meta(cd, cd - Hit(wantHandle), false, Visible), key, value, charge)]
      ensures !status.MemoryLimit? && e == -1 ==> exists v :: 0 <= v < |mid| && Match(mid[v], key)
      ensures !status.MemoryLimit? && e == -1 ==>
        forall s :: 0 <= s < |mid| ==>
          table.cells[s] == mid[s] || (Match(mid[s], key) && table.cells[s] == Table.Boosted(mid[s], cd))
      ensures pointer == old(pointer) + STEP_SIZE * batches
      ensures !status.MemoryLimit? && e == -1 ==> alone == if wantHandle then old(alone) + [charge] else old(alone)
    {
      hide Pow2, Sound, Population, Stored, Freed, Swept, Sum, Short, Exposed;
      SizesPositive(table);
      var needEvict := table.occupancy + 1 > limit;
      var ok;
      ok, batches := ChargeUsage(charge, needEvict);
      mid := table.cells;
      SweptSizes(old(table.cells), mid, old(pointer), STEP_SIZE * batches);
      if !ok {
        if charge <= capacity {
          forall s | 0 <= s < |mid| && Exposed(mid[s]) ensures Worn(old(table.cells)[s], mid[s]) {
            SoundCell(table.bits, old(table.cells), old(table.disp), old(table.depth), s);
            EvictLeaves(old(table.cells), mid, old(pointer), s);
          }
        }
        return MemoryLimit, -1, mid, batches;
      }
      status := Ok;
      e := table.InsertEntry(key, value, charge, cd, wantHandle);
      if e != -1 {
        StoredAt(mid, e, table.cells[e], |mid|);
      } else {
        SameStored(mid, table.cells, |mid|);
        if wantHandle {
          SumPush(alone, Self, charge);
          alone := alone + [charge];
          status := Overwritten;
        } else {
          usage := usage - charge;
        }
      }
    }

    method Lookup(key: Key, callback: bool) returns (e: int)
      requires Valid()
      modifies table`cells
      ensures Valid() && (e != -1 ==> 0 <= e < |table.cells| && Match(table.cells[e], key))
      ensures e == -1 ==> forall s :: 0 <= s < |table.cells| ==> !Match(table.cells[s], key)
    {
      hide Pow2, Sound, Population, Stored, Sum;
      ghost var was, n := table.cells, 0;
      e, n := table.Lookup(key, callback);
      ghost var others := if e == -1 then table.cells else table.cells[e := was[e]];
      PassedSame(table.bits, key, n, was, others);
      assert forall s :: 0 <= s < |was| && s != e ==> table.cells[s] == others[s];
      SameStored(was, table.cells, |was|);
    }

    method Release(e: nat, useful: bool, eraseIfLast: bool) returns (erased: bool)
      requires Valid() && e < |table.cells| && Shareable(table.cells[e].meta.state) && Refcount(table.cells[e].meta) > 0
      modifies `usage, table`cells, table`disp, table`occupancy
      ensures Valid() && usage == old(usage) - (if erased then old(table.cells)[e].charge else 0)
    {
      hide Pow2, Sound, Population, Stored, Sum;
      ghost var was := table.cells;
      var charge := table.cells[e].charge;
      SoundCell(table.bits, table.cells, table.disp, table.depth, e);
      erased := table.Release(e, useful, eraseIfLast);
      StoredAt(was, e, table.cells[e], |was|);
      if erased {
        usage := usage - charge;
      }
    }

    method Erase(key: Key)
      requires Valid()
      modifies `usage, table`cells, table`disp, table`occupancy
      ensures Valid() && forall s :: 0 <= s < |table.cells| ==> !Match(table.cells[s], key)
    {
      hide Pow2, Sound, Population, Stored, Sum;
      var reclaimed := table.Erase(key);
      usage := usage - reclaimed;
    }

    method ReleaseStandalone(i: nat)
      requires Valid() && i < |alone|
      modifies `usage, `alone
      ensures Valid() && alone == old(alone)[i := 0] && usage == old(usage) - old(alone)[i]
    {
      hide Pow2, Sound, Population, Stored, Sum;
      SumAt(alone, Self, i, 0);
      usage := usage - alone[i];
      alone := alone[i := 0];
    }
  }

  // What has to be freed: the excess, or if there is none but a slot is wanted, anything.
  function Request(excess: int, needEvict: bool): int {
    if excess > 0 then excess else if needEvict then 1 else 0
  }

  // The clock runs exactly if there is something to free, and no longer than it takes.
  ghost predicate Ran(was: seq<Cell>, p: nat, batches: nat, request: int, admitted: bool) {
    && (batches == 0 <==> !admitted || request == 0)
    && (batches > 1 ==> Short(was, p, batches - 1, request))
    && batches <= MaxBatches(|was|)
  }

  // An entry that a full run has left: it had three turns to lose, and has lost them.
  ghost predicate Worn(was: Cell, now: Cell) {
    && was.meta.state.Visible? && Refcount(was.meta) == 0 && was.meta.acq >= MAX_COUNTDOWN
    && now.meta.state.Visible? && now.meta.acq == 0 && now.key == was.key
  }

  // Slots that were occupied and no longer are.
  function Freshly(was: seq<Cell>, now: seq<Cell>): int {
    Population(was, |was|) - Population(now, |now|)
  }

  lemma PassedSame(bits: nat, k: Key, n: nat, was: seq<Cell>, now: seq<Cell>)
    requires Passed(bits, k, n, was, now)
    ensures |now| == |was| && forall s :: 0 <= s < |was| ==>
      Occupied(now[s]) == Occupied(was[s]) && now[s].charge == was[s].charge
  {
    hide On;
  }

  lemma NothingStored(cells: seq<Cell>, n: nat)
    requires n <= |cells| && forall s :: 0 <= s < |cells| ==> !Occupied(cells[s])
    ensures Stored(cells, n) == 0
  {
  }

  // ---------------------------------------------------------------- runs

  datatype Op =
    | InsertOp(key: Key, value: int, charge: nat, cd: int, wantHandle: bool)
    | LookupOp(key: Key, callback: bool)
    | ReleaseOp(e: nat, useful: bool, eraseIfLast: bool)
    | EraseOp(key: Key)
    | StandaloneOp(i: nat)

  predicate Allowed(c: Cache, op: Op)
    reads c, c.table
  {
    match op
    case InsertOp(_, _, _, cd, _) => 1 <= cd <= MAX_COUNTDOWN
    case ReleaseOp(e, _, _) =>
      e < |c.table.cells| && Shareable(c.table.cells[e].meta.state) && Refcount(c.table.cells[e].meta) > 0
    case StandaloneOp(i) => i < |c.alone|
    case _ => true
  }

  // In every run the table keeps a free slot, so that no insert ever fails for want of one.
  method Run(c: Cache, ops: seq<Op>)
    requires c.Valid()
    modifies c, c.table
    ensures c.Valid() && c.table.occupancy <= c.limit
    ensures exists s :: 0 <= s < |c.table.cells| && !Occupied(c.table.cells[s])
  {
    hide Cache.Valid;
    for i := 0 to |ops|
      invariant c.Valid()
    {
      if Allowed(c, ops[i]) {
        match ops[i] {
          case InsertOp(key, value, charge, cd, wantHandle) =>
            var status, e;
            ghost var mid, batches;
            status, e, mid, batches := c.Insert(key, value, charge, cd, wantHandle);
          case LookupOp(key, callback) => var e := c.Lookup(key, callback);
          case ReleaseOp(e, useful, eraseIfLast) => var erased := c.Release(e, useful, eraseIfLast);
          case EraseOp(key) => c.Erase(key);
          case StandaloneOp(j) => c.ReleaseStandalone(j);
        }
      }
    }
    FreeSlot(c);
  }

  lemma FreeSlot(c: Cache)
    requires c.Valid()
    ensures c.table.occupancy <= c.limit && exists s :: 0 <= s < |c.table.cells| && !Occupied(c.table.cells[s])
  {
    hide Pow2, Population, Stored, Sum;
    var cells := c.table.cells;
    SizesPositive(c.table);
    if forall s :: 0 <= s < |cells| ==> Occupied(cells[s]) {
      FullPopulation(cells, |cells|);
    }
  }
}
