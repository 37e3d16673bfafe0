/** Clock eviction: how far one run goes and what it leaves behind. */
module ClockEvict {
  import opened Arith
  import opened ClockSlot
  import opened ClockPaths
  import opened ClockTable

  const STEP_SIZE := 4

  // ---------------------------------------------------------------- one visit

  // An entry that the clock may touch: shareable and unreferenced.
  predicate Exposed(c: Cell) { Shareable(c.meta.state) && Refcount(c.meta) == 0 }

  predicate Expired(c: Cell) { Exposed(c) && !(c.meta.state.Visible? && c.meta.acq > 0) }

  function CountDown(m: Meta): Meta {
    var n := Min(m.acq - 1, MAX_COUNTDOWN - 1);
    Meta(n, n, m.hit, Visible)
  }

  // What one visit of the clock makes of an entry.
  function Visited(c: Cell): Cell {
    if !Exposed(c) then c
    else if Expired(c) then c.(meta := VACANT)
    else c.(meta := CountDown(c.meta))
  }

  function VisitedTimes(c: Cell, v: nat): Cell {
    if v == 0 then c else Visited(VisitedTimes(c, v - 1))
  }

  // ---------------------------------------------------------------- how often a slot comes up

  // Of n consecutive positions of the clock pointer from p on, those that fall on slot s.
  function Visits(p: nat, n: nat, size: nat, s: nat): nat
    requires size > 0
  {
    if n == 0 then 0 else Visits(p, n - 1, size, s) + (if (p + n - 1) % size == s then 1 else 0)
  }

  lemma {:induction false} VisitsSplit(p: nat, m: nat, n: nat, size: nat, s: nat)
    requires size > 0
    ensures Visits(p, m + n, size, s) == Visits(p, m, size, s) + Visits(p + m, n, size, s)
  {
    if n > 0 {
      VisitsSplit(p, m, n - 1, size, s);
      assert m + n - 1 == m + (n - 1);
    }
  }

  // A whole turn of the clock visits every slot once.
  lemma {:induction false} OneTurn(p: nat, size: nat, s: nat)
    requires s < size
    ensures Visits(p, size, size, s) == 1
  {
    if p == 0 {
      FirstTurn(size, size, s);
    } else {
      OneTurn(p - 1, size, s);
      VisitsSplit(p - 1, 1, size, size, s);
      VisitsSplit(p - 1, size, 1, size, s);
      assert Visits(p - 1, 1, size, s) == if (p - 1) % size == s then 1 else 0;
      assert Visits(p - 1 + size, 1, size, s) == if (p - 1 + size) % size == s then 1 else 0;
      SameSlot(p - 1, size);
    }
  }

  lemma SameSlot(x: nat, size: nat)
    requires size > 0
    ensures (x + size) % size == x % size
  {
    Split(x % size, x / size + 1, size);
  }

  lemma {:induction false} FirstTurn(n: nat, size: nat, s: nat)
    requires s < size && n <= size
    ensures Visits(0, n, size, s) == if s < n then 1 else 0
  {
    if n > 0 {
      FirstTurn(n - 1, size, s);
      Split(n - 1, 0, size);
    }
  }

  lemma ThreeTurns(p: nat, n: nat, size: nat, s: nat)
    requires s < size && n >= 3 * size
    ensures Visits(p, n, size, s) >= 3
  {
    hide Visits;
    OneTurn(p, size, s);
    OneTurn(p + size, size, s);
    OneTurn(p + 2 * size, size, s);
    VisitsSplit(p, size, size, size, s);
    VisitsSplit(p, 2 * size, size, size, s);
    VisitsSplit(p, 3 * size, n - 3 * size, size, s);
  }

  // ---------------------------------------------------------------- what three visits leave

  lemma {:induction false} GoneStaysGone(c: Cell, v: nat)
    requires !Exposed(c)
    ensures VisitedTimes(c, v) == c
  {
    if v > 0 {
      GoneStaysGone(c, v - 1);
    }
  }

  lemma {:induction false} VisitsCompose(c: Cell, a: nat, b: nat)
    ensures VisitedTimes(c, a + b) == VisitedTimes(VisitedTimes(c, a), b)
  {
    if b > 0 {
      VisitsCompose(c, a, b - 1);
      assert a + b - 1 == a + (b - 1);
    }
  }

  lemma VisitCases(c: Cell)
    ensures !Exposed(c) ==> Visited(c) == c
    ensures Expired(c) ==> Visited(c) == c.(meta := VACANT)
    ensures Exposed(c) && !Expired(c) ==>
      Visited(c) == c.(meta := CountDown(c.meta)) && c.meta.state.Visible? && c.meta.acq > 0
  {
  }

  // An entry still exposed after a visit was visible and counted down.
  lemma OneVisit(c: Cell)
    requires Exposed(Visited(c))
    ensures Exposed(c) && c.meta.state.Visible? && c.meta.acq > 0
    ensures Visited(c) == c.(meta := CountDown(c.meta))
  {
    hide Visited, CountDown;
    VisitCases(c);
  }

  // Countdown runs 2, 1, 0 and then the entry goes.
  // What is left exposed had a count to take before the visit.
  lemma CountBefore(c: Cell)
    requires Exposed(Visited(c))
    ensures Exposed(c) && c.meta.state.Visible? && Visited(c).meta.state.Visible? && Visited(c).key == c.key
    ensures c.meta.acq > 0 && Visited(c).meta.acq == Min(c.meta.acq - 1, MAX_COUNTDOWN - 1)
  {
    hide Visited;
    OneVisit(c);
  }

  lemma ThreeVisits(c: Cell)
    requires Exposed(Visited(Visited(Visited(c))))
    ensures c.meta.state.Visible? && Refcount(c.meta) == 0 && c.meta.acq >= MAX_COUNTDOWN
    ensures var d := Visited(Visited(Visited(c)));
      d.meta.acq == 0 && d.meta.state.Visible? && d.key == c.key && !Exposed(Visited(d))
  {
    hide Visited, Min;
    var a := Visited(c);
    var b := Visited(a);
    CountBefore(b);
    CountBefore(a);
    CountBefore(c);
    Bottomed(c.meta.acq, a.meta.acq, b.meta.acq, Visited(b).meta.acq);
    LastVisit(Visited(b));
  }

  lemma Bottomed(x: int, y: int, z: int, w: int)
    requires y == Min(x - 1, MAX_COUNTDOWN - 1) && z == Min(y - 1, MAX_COUNTDOWN - 1)
    requires w == Min(z - 1, MAX_COUNTDOWN - 1)
    requires z >= 1
    ensures w == 0 && x >= MAX_COUNTDOWN
  {
  }

  // An entry whose countdown is at zero goes.
  lemma LastVisit(c: Cell)
    requires Exposed(c) && c.meta.acq == 0
    ensures !Exposed(Visited(c))
  {
    hide Visited;
    VisitCases(c);
    NotExposed(c);
  }

  lemma NotExposed(c: Cell)
    ensures !Exposed(c.(meta := VACANT))
  {
  }

  lemma Times(c: Cell)
    ensures VisitedTimes(c, 1) == Visited(c) && VisitedTimes(c, 3) == Visited(Visited(Visited(c)))
  {
    assert VisitedTimes(c, 0) == c;
    assert VisitedTimes(c, 1) == Visited(VisitedTimes(c, 0));
    assert VisitedTimes(c, 2) == Visited(VisitedTimes(c, 1));
  }

  // An unreferenced entry outlives three visits only if it was visible with a countdown of at least
  // three, and only just: it then stands at zero and has been visited exactly three times.
  lemma {:induction false} SurvivesThree(c: Cell, v: nat)
    requires v >= 3 && 0 <= c.meta.rel <= c.meta.acq && Exposed(VisitedTimes(c, v))
    ensures c.meta.state.Visible? && Refcount(c.meta) == 0 && c.meta.acq >= MAX_COUNTDOWN && v == 3
    ensures VisitedTimes(c, v).meta.acq == 0 && VisitedTimes(c, v).meta.state.Visible?
    ensures VisitedTimes(c, v).key == c.key
  {
    hide VisitedTimes, Visited, Exposed;
    var d := Visited(Visited(Visited(c)));
    Times(c);
    Times(d);
    VisitsCompose(c, 3, v - 3);
    if !Exposed(d) {
      GoneStaysGone(d, v - 3);
    } else {
      ThreeVisits(c);
      if v > 3 {
        VisitsCompose(d, 1, v - 4);
        GoneStaysGone(Visited(d), v - 4);
      } else {
        NoVisits(d);
      }
    }
  }

  lemma NoVisits(c: Cell)
    ensures VisitedTimes(c, 0) == c
  {
  }

  // ---------------------------------------------------------------- the eviction run

  // What has been freed: entries that were there and are gone.
  function Freed(was: seq<Cell>, now: seq<Cell>, n: nat): int
    requires n <= |was| == |now|
  {
    if n == 0 then 0
    else Freed(was, now, n - 1) + (if Occupied(was[n - 1]) && !Occupied(now[n - 1]) then was[n - 1].charge else 0)
  }

  lemma {:induction false} FreedAt(was: seq<Cell>, now: seq<Cell>, n: nat, e: nat, c: Cell)
    requires n <= |was| == |now| && e < |was| && (Occupied(now[e]) || !Occupied(c))
    requires Occupied(now[e]) ==> Occupied(was[e])
    ensures Freed(was, now[e := c], n) ==
      Freed(was, now, n) + if e < n && Occupied(now[e]) && !Occupied(c) then was[e].charge else 0
  {
    if n > 0 {
      FreedAt(was, now, n - 1, e, c);
    }
  }

  lemma {:induction false} NothingFreed(was: seq<Cell>, n: nat)
    requires n <= |was|
    ensures Freed(was, was, n) == 0
  {
    if n > 0 {
      NothingFreed(was, n - 1);
    }
  }

  // Each entry has been visited as often as the clock pointer has passed its slot.
  ghost predicate Swept(was: seq<Cell>, now: seq<Cell>, p: nat, n: nat) {
    |was| == |now| > 0 && forall s :: 0 <= s < |now| ==> now[s] == VisitedTimes(was[s], Visits(p, n, |now|, s))
  }

  lemma SweptMore(was: seq<Cell>, now: seq<Cell>, p: nat, n: nat, e: nat)
    requires Swept(was, now, p, n) && e == (p + n) % |now| < |now|
    ensures Swept(was, now[e := Visited(now[e])], p, n + 1)
  {
    hide Visited;
    var next := now[e := Visited(now[e])];
    forall s | 0 <= s < |next| ensures next[s] == VisitedTimes(was[s], Visits(p, n + 1, |next|, s)) {
      assert Visits(p, n + 1, |next|, s) == Visits(p, n, |next|, s) + (if (p + n) % |next| == s then 1 else 0);
    }
  }

  lemma SweptStart(was: seq<Cell>, p: nat)
    requires |was| > 0
    ensures Swept(was, was, p, 0)
  {
  }

  // One visit: the entry counts down, or is freed and its charge reported.
  method ClockUpdate(t: Table, e: nat) returns (taken: bool, freed: int)
    requires t.Valid() && e < |t.cells|
    modifies t`cells, t`disp, t`occupancy
    ensures t.Valid() && t.cells == old(t.cells)[e := Visited(old(t.cells)[e])] && t.depth == old(t.depth)
    ensures freed == if Occupied(old(t.cells)[e]) && !Occupied(t.cells[e]) then old(t.cells)[e].charge else 0
    ensures taken == Expired(old(t.cells)[e]) && t.occupancy == old(t.occupancy) - Hit(taken)
    ensures 0 <= freed && (!taken ==> freed == 0)
  {
    hide Pow2, Sound, Population;
    taken, freed := false, 0;
    var c := t.cells[e];
    SoundCell(t.bits, t.cells, t.disp, t.depth, e);
    if Refcount(c.meta) != 0 || !Shareable(c.meta.state) {
      assert t.cells == t.cells[e := c];
      return;
    }
    if c.meta.state.Visible? && c.meta.acq > 0 {
      t.SetMeta(e, CountDown(c.meta));
    } else {
      t.Remove(e);
      taken, freed := true, c.charge;
    }
  }

  // The most batches a run makes: three turns of the clock, and one more batch.
  function MaxBatches(size: nat): nat { (3 * size + STEP_SIZE - 1) / STEP_SIZE + 1 }

  // That many batches free less than was asked.
  ghost predicate Short(was: seq<Cell>, p: nat, batches: nat, requested: int) {
    exists now :: Swept(was, now, p, STEP_SIZE * batches) && Freed(was, now, |now|) < requested
  }

  lemma NotEnough(was: seq<Cell>, now: seq<Cell>, p: nat, batches: nat, requested: int)
    requires Swept(was, now, p, STEP_SIZE * batches) && Freed(was, now, |now|) < requested
    ensures Short(was, p, batches, requested)
  {
  }

  // Runs the clock from pointer p until enough is freed or three turns are done.
  method Evict(t: Table, p: nat, requested: int) returns (freed: int, count: int, batches: nat)
    requires t.Valid() && requested > 0
    modifies t`cells, t`disp, t`occupancy
    ensures t.Valid() && |t.cells| == |old(t.cells)| > 0
    ensures 1 <= batches <= MaxBatches(|t.cells|)
    ensures Swept(old(t.cells), t.cells, p, STEP_SIZE * batches) && freed == Freed(old(t.cells), t.cells, |t.cells|)
    ensures freed < requested ==> batches == MaxBatches(|t.cells|)
    ensures batches > 1 ==> Short(old(t.cells), p, batches - 1, requested)
    ensures count == old(t.occupancy) - t.occupancy >= 0 && 0 <= freed && (count == 0 ==> freed == 0)
  {
    hide Pow2, Sound, Population, Visited, Swept, Freed, Short;
    ghost var was := t.cells;
    SoundSizes(t.bits, t.cells, t.disp, t.depth);
    var size := |t.cells|;
    var pointer, last := p, p + MAX_COUNTDOWN * size;
    freed, count, batches := 0, 0, 0;
    SweptStart(was, p);
    NothingFreed(was, |was|);
    while true
      invariant t.Valid() && |t.cells| == size > 0 && pointer == p + STEP_SIZE * batches && batches < MaxBatches(size)
      invariant Swept(was, t.cells, p, STEP_SIZE * batches) && freed == Freed(was, t.cells, size)
      invariant count == old(t.occupancy) - t.occupancy >= 0 && 0 <= freed && (count == 0 ==> freed == 0)
      invariant freed < requested
      decreases MaxBatches(size) - batches
    {
      ghost var n := STEP_SIZE * batches;
      NotEnough(was, t.cells, p, batches, requested);
      var i := 0;
      while i < STEP_SIZE
        invariant 0 <= i <= STEP_SIZE && t.Valid() && |t.cells| == size
        invariant Swept(was, t.cells, p, n + i) && freed == Freed(was, t.cells, size)
        invariant count == old(t.occupancy) - t.occupancy >= 0 && 0 <= freed && (count == 0 ==> freed == 0)
      {
        var e := (pointer + i) % size;
        SweptMore(was, t.cells, p, n + i, e);
        StillThere(was, t.cells, p, n + i, e);
        FreedAt(was, t.cells, size, e, Visited(t.cells[e]));
        var taken, f := ClockUpdate(t, e);
        if taken {
          freed, count := freed + f, count + 1;
        }
        i := i + 1;
      }
      batches := batches + 1;
      if freed >= requested {
        return;
      }
      if pointer >= last {
        return;
      }
      pointer := pointer + STEP_SIZE;
    }
  }

  // Visits remove entries and change no key and no charge.
  lemma {:induction false} VisitsKeep(c: Cell, v: nat)
    ensures Occupied(VisitedTimes(c, v)) ==> Occupied(c) && VisitedTimes(c, v).charge == c.charge
  {
    if v > 0 {
      VisitsKeep(c, v - 1);
    }
  }

  lemma StillThere(was: seq<Cell>, now: seq<Cell>, p: nat, n: nat, e: nat)
    requires Swept(was, now, p, n) && e < |now|
    ensures Occupied(now[e]) ==> Occupied(was[e]) && now[e].charge == was[e].charge
    ensures Occupied(now[e]) || !Occupied(Visited(now[e]))
  {
    VisitsKeep(was[e], Visits(p, n, |now|, e));
  }

  // A run that comes back with less than was asked leaves no unreferenced invisible entry, and every
  // unreferenced entry it leaves had a countdown of at least three and now stands at zero.
  lemma EvictLeaves(was: seq<Cell>, now: seq<Cell>, p: nat, e: nat)
    requires Swept(was, now, p, STEP_SIZE * MaxBatches(|now|)) && e < |now| && Exposed(now[e])
    requires 0 <= was[e].meta.rel <= was[e].meta.acq
    ensures was[e].meta.state.Visible? && Refcount(was[e].meta) == 0 && was[e].meta.acq >= MAX_COUNTDOWN
    ensures now[e].meta.state.Visible? && now[e].meta.acq == 0 && now[e].key == was[e].key
  {
    hide VisitedTimes, Visited, Visits;
    var n := STEP_SIZE * MaxBatches(|now|);
    ThreeTurns(p, n, |now|, e);
    SurvivesThree(was[e], Visits(p, n, |now|, e));
  }
}
