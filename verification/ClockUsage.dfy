/**
  Usage and occupancy of a clock table in strict mode, under any number of threads.

  What a thread has added to usage_ beyond the entries that exist, or not yet given back for
  entries it removed, is the thread's amount in flight; it follows from where the thread is.
 */
module ClockUsage {
  import opened Arith
  import opened Sums

  // ---------------------------------------------------------------- entries

  datatype Cell = None | Some(charge: int)

  function ChargeOf(c: Cell): int { if c.None? then 0 else c.charge }

  function IsSome(c: Cell): int { if c.None? then 0 else 1 }

  // ---------------------------------------------------------------- threads

  // What the charging is for: a table insert, which may return a handle, or a standalone entry,
  // which may do without a charge.
  datatype Kind = Insert(handle: bool) | Create(allowUncharged: bool)

  datatype PC =
    | Idle
    | Began(kind: Kind, charge: int, forOccupancy: bool)             // counted in occupancy_, if an insert
    | Loaded(kind: Kind, charge: int, forOccupancy: bool, seen: int) // read usage_
    | Evicting(kind: Kind, charge: int, forOccupancy: bool, seen: int, raised: int, freed: int, count: int)
    | Settling(kind: Kind, charge: int, forOccupancy: bool, seen: int, raised: int, freed: int, count: int)
    | Charged(kind: Kind, charge: int)       // usage_ covers the charge
    | GivingUp(kind: Kind)                   // charging failed
    | Reverting(charge: int)                 // not inserted, no handle wanted
    | Alone(charge: int)                     // about to make a standalone entry
    | AloneMade(charge: int)                 // made; standalone_usage_ not yet raised
    | Taken(charge: int)                     // owns a removed table entry
    | TakenCounted(charge: int)              // occupancy_ lowered, usage_ not yet
    | AloneTaken(charge: int)                // deleted a standalone entry
    | AloneTakenCounted(charge: int)         // standalone_usage_ lowered, usage_ not yet

  function InFlight(pc: PC): int {
    match pc
    case Evicting(_, _, _, seen, raised, freed, _) => raised - seen + freed
    case Settling(_, _, _, seen, raised, freed, _) => raised - seen + freed
    case Charged(_, c) => c
    case Reverting(c) => c
    case Alone(c) => c
    case Taken(c) => c
    case TakenCounted(c) => c
    case AloneTaken(c) => c
    case AloneTakenCounted(c) => c
    case _ => 0
  }

  function Unit(kind: Kind): int { if kind.Insert? then 1 else 0 }

  // Units of occupancy_ that belong to no entry.
  function OccFlight(pc: PC): int {
    match pc
    case Began(kind, _, _) => Unit(kind)
    case Loaded(kind, _, _, _) => Unit(kind)
    case Evicting(kind, _, _, _, _, _, count) => Unit(kind) + count
    case Settling(kind, _, _, _, _, _, _) => Unit(kind)
    case Charged(kind, _) => Unit(kind)
    case GivingUp(kind) => Unit(kind)
    case Taken(_) => 1
    case _ => 0
  }

  // What standalone_usage_ has too much.
  function AloneFlight(pc: PC): int {
    match pc
    case AloneMade(c) => -c
    case AloneTaken(c) => c
    case _ => 0
  }

  // ---------------------------------------------------------------- the table

  datatype Table = Table(capacity: int, limit: int, metadata: int,
                         usage: int, occupancy: int, aloneUsage: int,
                         slots: seq<Cell>, alone: seq<Cell>, threads: seq<PC>)

  datatype Label =
    | CallInsert(charge: int, handle: bool)
    | CallCreate(charge: int, allowUncharged: bool)
    | CallTake(slot: int)             // erase, release or scan takes a table entry
    | CallTakeAlone(index: int)       // the last reference to a standalone entry goes
    | Evict(slot: int)                // the clock takes an entry
    | Place(slot: int)                // DoInsert publishes in a free slot
    | Advance(fail: bool)             // the next step; fail: a weak exchange, or DoInsert, fails

  function Need(charge: int, seen: int, raised: int): int { seen + charge - raised }

  predicate Can(t: Table, i: int, l: Label) {
    && 0 <= i < |t.threads|
    && var pc := t.threads[i];
       match l
       case CallInsert(c, _) => pc.Idle? && c >= 0
       case CallCreate(c, _) => pc.Idle? && c >= 0
       case CallTake(k) => pc.Idle? && 0 <= k < |t.slots| && t.slots[k].Some?
       case CallTakeAlone(k) => pc.Idle? && 0 <= k < |t.alone| && t.alone[k].Some?
       case Evict(k) =>
         && pc.Evicting? && (Need(pc.charge, pc.seen, pc.raised) > 0 || pc.forOccupancy)
         && 0 <= k < |t.slots| && t.slots[k].Some?
       case Place(k) => pc.Charged? && pc.kind.Insert? && 0 <= k < |t.slots| && t.slots[k].None?
       case Advance(fail) => !pc.Idle? && (pc.Charged? && pc.kind.Insert? ==> fail)
  }

  function At(t: Table, i: int, pc: PC): Table
    requires 0 <= i < |t.threads|
  {
    t.(threads := t.threads[i := pc])
  }

  function Next(t: Table, i: int, l: Label): Table
    requires Can(t, i, l)
  {
    var pc := t.threads[i];
    match l
    case CallInsert(c, handle) =>
      At(t, i, Began(Insert(handle), c, t.occupancy + 1 > t.limit)).(occupancy := t.occupancy + 1)
    case CallCreate(c, allow) => At(t, i, Began(Create(allow), c, false))
    case CallTake(k) => At(t, i, Taken(t.slots[k].charge)).(slots := t.slots[k := None])
    case CallTakeAlone(k) => At(t, i, AloneTaken(t.alone[k].charge)).(alone := t.alone[k := None])
    case Evict(k) =>
      var now := Evicting(pc.kind, pc.charge, pc.forOccupancy, pc.seen, pc.raised, pc.freed + t.slots[k].charge,
                          pc.count + 1);
      At(t, i, now).(slots := t.slots[k := None])
    case Place(k) => At(t, i, Idle).(slots := t.slots[k := Some(pc.charge)])
    case Advance(fail) => Resume(t, i, fail)
  }

  function Resume(t: Table, i: int, fail: bool): Table
    requires 0 <= i < |t.threads|
  {
    match t.threads[i]
    case Idle => t
    case Began(kind, c, occ) => At(t, i, if c > t.capacity then GivingUp(kind) else Loaded(kind, c, occ, t.usage))
    case Loaded(kind, c, occ, seen) =>
      var raised := Min(t.capacity, seen + c);
      if raised == seen then At(t, i, Evicting(kind, c, occ, seen, raised, 0, 0))
      else if t.usage == seen && !fail then At(t, i, Evicting(kind, c, occ, seen, raised, 0, 0)).(usage := raised)
      else At(t, i, Loaded(kind, c, occ, t.usage))
    case Evicting(kind, c, occ, seen, raised, freed, count) =>
      if Need(c, seen, raised) > 0 || occ
      then At(t, i, Settling(kind, c, occ, seen, raised, freed, count)).(occupancy := t.occupancy - count)
      else At(t, i, Charged(kind, c))
    case Settling(kind, c, occ, seen, raised, freed, count) =>
      var need := Need(c, seen, raised);
      if freed > need then At(t, i, Charged(kind, c)).(usage := t.usage - (freed - need))
      else if freed < need || (occ && count == 0) then
        At(t, i, GivingUp(kind)).(usage := t.usage - (freed + (raised - seen)))
      else At(t, i, Charged(kind, c))
    case Charged(kind, c) =>
      if kind.Create? then At(t, i, Alone(c))
      else At(t, i, if kind.handle then Alone(c) else Reverting(c)).(occupancy := t.occupancy - 1)
    case GivingUp(kind) =>
      if kind.Insert? then At(t, i, Idle).(occupancy := t.occupancy - 1)
      else At(t, i, if kind.allowUncharged then Alone(0) else Idle)
    case Reverting(c) => At(t, i, Idle).(usage := t.usage - c)
    case Alone(c) => At(t, i, AloneMade(c)).(alone := t.alone + [Some(c)])
    case AloneMade(c) => At(t, i, Idle).(aloneUsage := t.aloneUsage + c)
    case Taken(c) => At(t, i, TakenCounted(c)).(occupancy := t.occupancy - 1)
    case TakenCounted(c) => At(t, i, Idle).(usage := t.usage - c)
    case AloneTaken(c) => At(t, i, AloneTakenCounted(c)).(aloneUsage := t.aloneUsage - c)
    case AloneTakenCounted(c) => At(t, i, Idle).(usage := t.usage - c)
  }

  // ---------------------------------------------------------------- the invariant

  ghost predicate ChargingOK(capacity: int, c: int, seen: int, raised: int, freed: int, count: int) {
    && 0 <= c <= capacity && 0 <= seen <= capacity && raised == Min(capacity, seen + c)
    && 0 <= freed && 0 <= count && (freed > 0 ==> count > 0)
  }

  ghost predicate ThreadOK(capacity: int, pc: PC) {
    match pc
    case Idle => true
    case Began(_, c, _) => c >= 0
    case Loaded(_, c, _, seen) => 0 <= c <= capacity && 0 <= seen <= capacity
    case Evicting(_, c, occ, seen, raised, freed, count) =>
      ChargingOK(capacity, c, seen, raised, freed, count) && (count > 0 ==> Need(c, seen, raised) > 0 || occ)
    case Settling(_, c, occ, seen, raised, freed, count) =>
      ChargingOK(capacity, c, seen, raised, freed, count) && (Need(c, seen, raised) > 0 || occ)
    case Charged(_, c) => c >= 0
    case GivingUp(_) => true
    case Reverting(c) => c >= 0
    case Alone(c) => c >= 0
    case AloneMade(c) => c >= 0
    case Taken(c) => c >= 0
    case TakenCounted(c) => c >= 0
    case AloneTaken(c) => c >= 0
    case AloneTakenCounted(c) => c >= 0
  }

  // What the sums need to know of a thread that evicts: it does so for a reason.
  ghost predicate Reasoned(pc: PC) {
    match pc
    case Evicting(_, c, occ, seen, raised, freed, count) =>
      && raised <= seen + c && 0 <= count && (count == 0 ==> freed == 0)
      && (count > 0 ==> Need(c, seen, raised) > 0 || occ)
    case Settling(_, c, _, seen, raised, _, _) => raised <= seen + c
    case _ => true
  }

  // The three counters are accounted for.
  ghost predicate Books(t: Table) {
    && t.usage == t.metadata + Sum(t.slots, ChargeOf) + Sum(t.alone, ChargeOf) + Sum(t.threads, InFlight)
    && t.occupancy == Sum(t.slots, IsSome) + Sum(t.threads, OccFlight)
    && t.aloneUsage == Sum(t.alone, ChargeOf) + Sum(t.threads, AloneFlight)
    && (forall k :: 0 <= k < |t.threads| ==> Reasoned(t.threads[k]))
  }

  // Nothing is negative, and usage_ is within the capacity.
  ghost predicate Signs(t: Table) {
    && 0 <= t.metadata && t.usage <= t.capacity
    && (forall k :: 0 <= k < |t.slots| ==> ChargeOf(t.slots[k]) >= 0)
    && (forall k :: 0 <= k < |t.alone| ==> ChargeOf(t.alone[k]) >= 0)
    && (forall k :: 0 <= k < |t.threads| ==> ThreadOK(t.capacity, t.threads[k]))
  }

  ghost predicate Inv(t: Table) { Books(t) && Signs(t) }

  lemma FlightsNonNegative(capacity: int, pc: PC)
    requires ThreadOK(capacity, pc)
    ensures InFlight(pc) >= 0 && OccFlight(pc) >= 0
  {
  }

  // What one thread and one cell can change.
  lemma BooksKept(t: Table, i: int, u: Table)
    requires Books(t) && 0 <= i < |t.threads| && |u.threads| == |t.threads| && u.threads == t.threads[i := u.threads[i]]
    requires u.metadata == t.metadata && Reasoned(u.threads[i])
    requires (u.usage - t.usage) - (Sum(u.slots, ChargeOf) - Sum(t.slots, ChargeOf))
             - (Sum(u.alone, ChargeOf) - Sum(t.alone, ChargeOf))
      == InFlight(u.threads[i]) - InFlight(t.threads[i])
    requires (u.occupancy - t.occupancy) - (Sum(u.slots, IsSome) - Sum(t.slots, IsSome)) ==
      OccFlight(u.threads[i]) - OccFlight(t.threads[i])
    requires (u.aloneUsage - t.aloneUsage) - (Sum(u.alone, ChargeOf) - Sum(t.alone, ChargeOf)) ==
      AloneFlight(u.threads[i]) - AloneFlight(t.threads[i])
    ensures Books(u)
  {
    hide Sum, Reasoned, InFlight, OccFlight, AloneFlight;
    SumAt(t.threads, InFlight, i, u.threads[i]);
    SumAt(t.threads, OccFlight, i, u.threads[i]);
    SumAt(t.threads, AloneFlight, i, u.threads[i]);
  }

  lemma BooksAt(t: Table, i: int)
    requires Books(t) && 0 <= i < |t.threads|
    ensures Reasoned(t.threads[i])
  {
  }

  lemma Bounds(t: Table, i: int)
    requires Inv(t) && 0 <= i < |t.threads|
    ensures ThreadOK(t.capacity, t.threads[i]) && 0 <= InFlight(t.threads[i]) && 0 <= OccFlight(t.threads[i])
    ensures t.metadata + InFlight(t.threads[i]) <= t.usage <= t.capacity && OccFlight(t.threads[i]) <= t.occupancy
    ensures 0 <= t.metadata
  {
    hide Sum, ThreadOK, InFlight, OccFlight, AloneFlight;
    forall k | 0 <= k < |t.threads| ensures InFlight(t.threads[k]) >= 0 && OccFlight(t.threads[k]) >= 0 {
      FlightsNonNegative(t.capacity, t.threads[k]);
    }
    SumNonNegative(t.slots, ChargeOf);
    SumNonNegative(t.slots, IsSome);
    SumNonNegative(t.alone, ChargeOf);
    SumBound(t.threads, InFlight, i);
    SumBound(t.threads, OccFlight, i);
  }

  lemma CellSet(cells: seq<Cell>, k: int, c: Cell)
    requires 0 <= k < |cells|
    ensures Sum(cells[k := c], ChargeOf) == Sum(cells, ChargeOf) - ChargeOf(cells[k]) + ChargeOf(c)
    ensures Sum(cells[k := c], IsSome) == Sum(cells, IsSome) - IsSome(cells[k]) + IsSome(c)
  {
    SumAt(cells, ChargeOf, k, c);
    SumAt(cells, IsSome, k, c);
  }

  // ---------------------------------------------------------------- every step keeps the books

  lemma CallBooks(t: Table, i: int, l: Label)
    requires Books(t) && Can(t, i, l) && !l.Advance?
    ensures Books(Next(t, i, l))
  {
    hide Sum, Books;
    BooksAt(t, i);
    match l {
      case CallTake(k) => CellSet(t.slots, k, None);
      case CallTakeAlone(k) => CellSet(t.alone, k, None);
      case Evict(k) => CellSet(t.slots, k, None);
      case Place(k) => CellSet(t.slots, k, Some(t.threads[i].charge));
      case _ =>
    }
    BooksKept(t, i, Next(t, i, l));
  }

  predicate Charging(pc: PC) { pc.Began? || pc.Loaded? || pc.Evicting? || pc.Settling? }

  // Raising usage_ by an exchange, evicting, and refunding or rolling back.
  lemma ChargeBooks(t: Table, i: int, fail: bool)
    requires Books(t) && 0 <= i < |t.threads| && Charging(t.threads[i])
    ensures Books(Resume(t, i, fail))
  {
    hide Sum, Books;
    BooksAt(t, i);
    BooksKept(t, i, Resume(t, i, fail));
  }

  lemma FinishBooks(t: Table, i: int, fail: bool)
    requires Books(t) && 0 <= i < |t.threads| && !Charging(t.threads[i]) && !t.threads[i].Idle?
    ensures Books(Resume(t, i, fail))
  {
    hide Sum, Books;
    BooksAt(t, i);
    if t.threads[i].Alone? {
      SumPush(t.alone, ChargeOf, Some(t.threads[i].charge));
    }
    BooksKept(t, i, Resume(t, i, fail));
  }

  lemma StepBooks(t: Table, i: int, l: Label)
    requires Books(t) && Can(t, i, l)
    ensures Books(Next(t, i, l))
  {
    hide Books, Resume;
    if !l.Advance? {
      CallBooks(t, i, l);
    } else if Charging(t.threads[i]) {
      ChargeBooks(t, i, l.fail);
    } else {
      FinishBooks(t, i, l.fail);
    }
  }

  // ---------------------------------------------------------------- and the signs

  lemma SignsKept(t: Table, i: int, u: Table)
    requires Signs(t) && 0 <= i < |t.threads| == |u.threads| && u.threads == t.threads[i := u.threads[i]]
    requires u.capacity == t.capacity && u.metadata == t.metadata && ThreadOK(u.capacity, u.threads[i])
    requires u.usage <= u.capacity
    requires forall k :: 0 <= k < |u.slots| ==> ChargeOf(u.slots[k]) >= 0
    requires forall k :: 0 <= k < |u.alone| ==> ChargeOf(u.alone[k]) >= 0
    ensures Signs(u)
  {
    hide ThreadOK;
  }

  lemma CellsOK(t: Table)
    requires Inv(t)
    ensures (forall k :: 0 <= k < |t.slots| ==> ChargeOf(t.slots[k]) >= 0)
    ensures (forall k :: 0 <= k < |t.alone| ==> ChargeOf(t.alone[k]) >= 0)
  {
  }

  lemma CallSigns(t: Table, i: int, l: Label)
    requires Inv(t) && Can(t, i, l) && !l.Advance?
    ensures Signs(Next(t, i, l))
  {
    hide Sum, Books, Signs, Inv;
    Bounds(t, i);
    CellsOK(t);
    assert Signs(t) by { InvSigns(t); }
    SignsKept(t, i, Next(t, i, l));
  }

  lemma InvSigns(t: Table)
    requires Inv(t)
    ensures Books(t) && Signs(t)
  {
  }

  lemma ResumeSigns(t: Table, i: int, fail: bool)
    requires Inv(t) && 0 <= i < |t.threads| && !t.threads[i].Idle?
    ensures Signs(Resume(t, i, fail))
  {
    hide Sum, Books, Signs, Inv;
    Bounds(t, i);
    CellsOK(t);
    assert Signs(t) by { InvSigns(t); }
    SignsKept(t, i, Resume(t, i, fail));
  }

  lemma StepKeeps(t: Table, i: int, l: Label)
    requires Inv(t) && Can(t, i, l)
    ensures Inv(Next(t, i, l))
  {
    hide Books, Signs, Resume;
    StepBooks(t, i, l);
    if l.Advance? {
      ResumeSigns(t, i, l.fail);
    } else {
      CallSigns(t, i, l);
    }
  }

  // ---------------------------------------------------------------- runs

  datatype Run = Run(states: seq<Table>, who: seq<int>, what: seq<Label>)

  ghost predicate Initial(t: Table) {
    && 0 <= t.metadata == t.usage && t.occupancy == 0 && t.aloneUsage == 0 && t.alone == []
    && (forall k :: 0 <= k < |t.slots| ==> t.slots[k] == None)
    && (forall k :: 0 <= k < |t.threads| ==> t.threads[k] == Idle)
  }

  ghost predicate IsRun(r: Run) {
    && |r.states| == |r.who| + 1 == |r.what| + 1 && Initial(r.states[0])
    && forall k :: 0 <= k < |r.who| ==>
          Can(r.states[k], r.who[k], r.what[k]) && r.states[k + 1] == Next(r.states[k], r.who[k], r.what[k])
  }

  lemma InitialBooks(t: Table)
    requires Initial(t)
    ensures Books(t) && (t.metadata <= t.capacity ==> Inv(t))
  {
    SumZero(t.slots, ChargeOf);
    SumZero(t.slots, IsSome);
    SumZero(t.threads, InFlight);
    SumZero(t.threads, OccFlight);
    SumZero(t.threads, AloneFlight);
  }

  // The table's own charge fits the capacity.
  ghost predicate Roomy(r: Run)
    requires IsRun(r)
  {
    r.states[0].metadata <= r.states[0].capacity
  }

  lemma {:induction false} Reached(r: Run, k: nat)
    requires IsRun(r) && k < |r.states|
    ensures Books(r.states[k]) && (Roomy(r) ==> Inv(r.states[k]))
  {
    hide Books, Signs, Next;
    if k == 0 {
      InitialBooks(r.states[0]);
    } else {
      Reached(r, k - 1);
      StepBooks(r.states[k - 1], r.who[k - 1], r.what[k - 1]);
      if Roomy(r) {
        StepKeeps(r.states[k - 1], r.who[k - 1], r.what[k - 1]);
      }
    }
  }

  // In every interleaving the three counters are exactly accounted for.
  lemma UsageAccounted(r: Run, k: nat)
    requires IsRun(r) && k < |r.states|
    ensures var t := r.states[k];
      && t.usage == t.metadata + Sum(t.slots, ChargeOf) + Sum(t.alone, ChargeOf) + Sum(t.threads, InFlight)
      && t.occupancy == Sum(t.slots, IsSome) + Sum(t.threads, OccFlight)
      && t.aloneUsage == Sum(t.alone, ChargeOf) + Sum(t.threads, AloneFlight)
  {
    hide Sum;
    Reached(r, k);
  }

  // And if the table's own charge fits the capacity, usage_ stays within it and nothing in flight is negative.
  lemma UsageBounded(r: Run, k: nat)
    requires IsRun(r) && Roomy(r) && k < |r.states|
    ensures var t := r.states[k];
      && t.usage <= t.capacity
      && forall i :: 0 <= i < |t.threads| ==> InFlight(t.threads[i]) >= 0 && OccFlight(t.threads[i]) >= 0
  {
    hide Sum;
    Reached(r, k);
    forall i | 0 <= i < |r.states[k].threads|
      ensures InFlight(r.states[k].threads[i]) >= 0 && OccFlight(r.states[k].threads[i]) >= 0
    {
      Bounds(r.states[k], i);
    }
  }

  // That takes a capacity that covers the table's own charge, and no more.
  lemma BoundExact(r: Run)
    requires IsRun(r)
    ensures (forall k :: 0 <= k < |r.states| ==> r.states[k].usage <= r.states[k].capacity) <==> Roomy(r)
  {
    if Roomy(r) {
      forall k | 0 <= k < |r.states| ensures r.states[k].usage <= r.states[k].capacity {
        UsageBounded(r, k);
      }
    }
  }

  // With no operation under way the counters are the entries, no more and no less.
  lemma Quiescent(r: Run, k: nat)
    requires IsRun(r) && k < |r.states| && forall i :: 0 <= i < |r.states[k].threads| ==>
      r.states[k].threads[i].Idle?
    ensures var t := r.states[k];
      && t.usage == t.metadata + Sum(t.slots, ChargeOf) + Sum(t.alone, ChargeOf)
      && t.occupancy == Sum(t.slots, IsSome) && t.aloneUsage == Sum(t.alone, ChargeOf)
  {
    hide Sum;
    Reached(r, k);
    var t := r.states[k];
    SumZero(t.threads, InFlight);
    SumZero(t.threads, OccFlight);
    SumZero(t.threads, AloneFlight);
  }

  // No subtraction underflows: neither counter goes below zero, nor usage_ below the table's metadata.
  lemma NoUnderflow(r: Run, k: nat, i: int)
    requires IsRun(r) && Roomy(r) && k < |r.states| && 0 <= i < |r.states[k].threads|
    ensures var t, pc := r.states[k], r.states[k].threads[i];
      && t.usage - InFlight(pc) >= t.metadata && t.occupancy - OccFlight(pc) >= 0
      && (pc.Taken? ==> t.occupancy > 0 && t.usage >= pc.charge)
      && (pc.TakenCounted? || pc.AloneTakenCounted? || pc.Reverting? ==> t.usage >= pc.charge)
      && (pc.Settling? ==> t.usage >= pc.freed + (pc.raised - pc.seen))
  {
    hide Sum, Inv;
    Reached(r, k);
    Bounds(r.states[k], i);
  }

  // An insert that had to evict and goes on has evicted something.
  lemma EvictedIfNeeded(r: Run, k: nat, i: int)
    requires IsRun(r) && Roomy(r) && k < |r.states| && 0 <= i < |r.states[k].threads|
    requires r.states[k].threads[i].Settling?
    ensures Resume(r.states[k], i, false).threads[i].Charged? ==> r.states[k].threads[i].count > 0
  {
    hide Sum, Inv;
    Reached(r, k);
    Bounds(r.states[k], i);
  }
}
