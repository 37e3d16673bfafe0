/** The fixed-size HyperClockCache table, one operation at a time. */
module ClockTable {
  import opened Arith
  import opened ClockProbe
  import opened ClockSlot
  import opened ClockPaths

  class Table {
    const bits: nat
    var cells: seq<Cell>
    var disp: seq<int>
    var occupancy: int
    // How many slots were probed before the one an entry is in.
    ghost var depth: seq<nat>

    ghost predicate Valid()
      reads this
    {
      Sound(bits, cells, disp, depth) && occupancy == Population(cells, |cells|)
    }

    // An empty table of 2^bits slots.
    constructor (bits: nat)
      ensures this.bits == bits && Valid() && occupancy == 0 && |cells| == Pow2(bits)
      ensures forall s :: 0 <= s < |cells| ==> !Occupied(cells[s])
    {
      this.bits := bits;
      var n := Pow2(bits);
      cells := seq(n, _ => Cell(VACANT, Key(0, 0), 0, 0));
      disp := seq(n, _ => 0);
      depth := seq(n, _ => 0 as nat);
      occupancy := 0;
      new;
      forall s: nat ensures Passing(bits, cells, depth, s, n) == 0 && Population(cells, n) == 0 {
        NonePassing(bits, cells, depth, s, n);
      }
    }

    // ---------------------------------------------------------------- displacements

    method Rollback(key: Key, h: nat, ghost n: nat)
      requires |disp| == Pow2(bits) && n < Pow2(bits) && Probe(bits, key, n) == h
      modifies `disp
      ensures Shifted(bits, key, n, old(disp), disp, -1)
    {
      hide Pow2, Probe;
      var current := First(bits, key);
      ghost var i: nat := 0;
      assert current == Probe(bits, key, 0) by { ProbeStart(bits, key); }
      while current != h
        invariant i <= n && current == Probe(bits, key, i) < Pow2(bits)
        invariant Shifted(bits, key, i, old(disp), disp, -1)
        decreases n - i
      {
        NotOn(bits, key, i);
        disp := disp[current := disp[current] - 1];
        ProbeNext(bits, key, i);
        current := After(bits, key, current);
        i := i + 1;
      }
      if i < n {
        ProbeInjective(bits, key, i, n);
      }
    }

    // ---------------------------------------------------------------- lookup

    // probed: how many slots were looked at before the one returned, or in all.
    method Lookup(key: Key, callback: bool) returns (e: int, ghost probed: nat)
      requires Valid()
      modifies `cells
      ensures Valid() && |cells| == |old(cells)|
      ensures e == -1 ==>
        Passed(bits, key, probed, old(cells), cells) && forall s :: 0 <= s < |cells| ==> !Match(cells[s], key)
      ensures e != -1 ==>
        0 <= e < |old(cells)| && Match(old(cells)[e], key) && cells[e] == Looked(old(cells)[e], callback)
      ensures e != -1 ==> Passed(bits, key, probed, old(cells), cells[e := old(cells)[e]])
    {
      hide Pow2, Probe, On, Passing, Population, Sound, Clear, Match, Brushed, Looked;
      var first := First(bits, key);
      var current := first;
      probed := 0;
      ProbeStart(bits, key);
      ClearStart(bits, cells, key);
      SoundSizes(bits, cells, disp, depth);
      while true
        invariant Valid() && |cells| == |disp| == Pow2(bits) && probed < Pow2(bits)
        invariant current == Probe(bits, key, probed) && current < Pow2(bits)
        invariant Clear(bits, cells, key, probed) && Passed(bits, key, probed, old(cells), cells)
        decreases Pow2(bits) - probed
      {
        PassMore(bits, key, probed, old(cells), cells);
        if Match(cells[current], key) {
          LookKeeps(bits, cells, disp, depth, current, key, callback);
          ghost var c := cells[current];
          cells := cells[current := Looked(cells[current], callback)];
          assert cells[current := c][current := old(cells)[current]] == cells[current := c];
          return current, probed;
        }
        BrushKeeps(bits, cells, disp, depth, key, probed, current);
        PopulationAt(cells, current, Brushed(cells[current]));
        BrushedOccupied(cells[current]);
        cells := cells[current := Brushed(cells[current])];
        ClearMore(bits, cells, key, probed);
        probed := probed + 1;
        if disp[current] == 0 {
          NoneLeft(bits, cells, disp, depth, key, probed - 1);
          return -1, probed;
        }
        ProbeNext(bits, key, probed - 1);
        current := After(bits, key, current);
        if current == first {
          Round(bits, key, probed - 1);
          NoneLeft(bits, cells, disp, depth, key, probed - 1);
          return -1, probed;
        }
        NotYet(bits, key, probed - 1);
      }
    }

    // An entry found: one more reference and, if there is an eviction callback, the hit bit.
    static function Looked(c: Cell, callback: bool): Cell {
      c.(meta := c.meta.(acq := c.meta.acq + 1, hit := c.meta.hit || callback))
    }

    // ---------------------------------------------------------------- insert

    // An entry found again by an insert: its clock starts over, its references stay.
    static function Boosted(c: Cell, cd: int): Cell {
      c.(meta := c.meta.(acq := c.meta.acq + cd, rel := c.meta.rel + cd))
    }

    // -1 if a visible entry of the key was found, whose clock is then boosted, or if there was no room.
    method DoInsert(key: Key, value: int, charge: int, cd: int, keep: bool) returns (e: int, ghost v: int)
      requires Sound(bits, cells, disp, depth) && charge >= 0 && 1 <= cd <= MAX_COUNTDOWN
      modifies `cells, `disp, `depth
      ensures Sound(bits, cells, disp, depth)
      ensures e != -1 ==>
        && 0 <= e < |old(cells)| && !Occupied(old(cells)[e])
        && cells == old(cells)[e := Cell(Meta(cd, cd - Hit(keep), false, Visible), key, value, charge)]
      ensures e == -1 ==> disp == old(disp) && depth == old(depth)
      ensures e == -1 && v == -1 ==> cells == old(cells) && forall s :: 0 <= s < |cells| ==> Occupied(cells[s])
      ensures e == -1 && v != -1 ==>
        && 0 <= v < |old(cells)| && Match(old(cells)[v], key)
        && cells == old(cells)[v := Boosted(old(cells)[v], cd)]
    {
      hide Pow2, Probe, On, Passing, Population;
      var first := First(bits, key);
      var current := first;
      ghost var i: nat, was := 0, disp;
      ProbeStart(bits, key);
      v := -1;
      while true
        invariant Sound(bits, cells, was, depth) && cells == old(cells) && depth == old(depth) && was == old(disp)
        invariant i < Pow2(bits) && current == Probe(bits, key, i) && current < Pow2(bits) == |disp|
        invariant Blocked(bits, cells, key, i) && Shifted(bits, key, i, was, disp, 1)
        decreases Pow2(bits) - i
      {
        var c := cells[current];
        if !Occupied(c) {
          var c' := Cell(Meta(cd, cd - Hit(keep), false, Visible), key, value, charge);
          Fill(bits, cells, was, depth, disp, current, c', i);
          cells := cells[current := c'];
          depth := depth[current := i];
          return current, -1;
        }
        if Match(c, key) {
          var c' := Boosted(c, cd);
          Touch(bits, cells, was, depth, current, c');
          cells := cells[current := c'];
          ghost var mid := disp;
          Rollback(key, current, i);
          Undone(bits, key, i, was, mid, disp);
          return -1, current;
        }
        BlockedMore(bits, cells, key, i);
        ProbeNext(bits, key, i);
        var next := After(bits, key, current);
        if next == first {
          Round(bits, key, i);
          ghost var mid := disp;
          Rollback(key, current, i);
          Undone(bits, key, i, was, mid, disp);
          AllBlocked(bits, cells, key);
          return -1, -1;
        }
        NotYet(bits, key, i);
        ShiftMore(bits, key, i, was, disp);
        disp := disp[current := disp[current] + 1];
        current := next;
        i := i + 1;
      }
    }

    // The sequential part of an insert: occupancy_ is raised first and lowered again on failure.
    method InsertEntry(key: Key, value: int, charge: int, cd: int, keep: bool) returns (e: int)
      requires Valid() && charge >= 0 && 1 <= cd <= MAX_COUNTDOWN
      modifies `cells, `disp, `depth, `occupancy
      ensures Valid()
      ensures e != -1 ==>
        && 0 <= e < |old(cells)| && !Occupied(old(cells)[e]) && occupancy == old(occupancy) + 1
        && cells == old(cells)[e := Cell(Meta(cd, cd - Hit(keep), false, Visible), key, value, charge)]
      ensures e == -1 && old(occupancy) < Pow2(bits) ==> exists v :: 0 <= v < |old(cells)| && Match(old(cells)[v], key)
      ensures e == -1 ==> occupancy == old(occupancy) && disp == old(disp) && |cells| == |old(cells)|
      ensures e == -1 ==> forall s :: 0 <= s < |cells| ==>
        cells[s] == old(cells)[s] || (Match(old(cells)[s], key) && cells[s] == Boosted(old(cells)[s], cd))
    {
      hide Pow2, Sound, Population;
      ghost var C, N := cells, |cells|;
      occupancy := occupancy + 1;
      ghost var v;
      e, v := DoInsert(key, value, charge, cd, keep);
      if e == -1 {
        occupancy := occupancy - 1;
        if v != -1 {
          PopulationAt(C, v, cells[v]);
        } else if old(occupancy) < Pow2(bits) {
          SoundSizes(bits, cells, disp, depth);
          FullPopulation(cells, N);
        }
      } else {
        PopulationAt(C, e, cells[e]);
      }
    }

    // ---------------------------------------------------------------- removal

    // Frees the entry of slot e: its path is rolled back and the slot marked empty.
    method Remove(e: nat)
      requires Valid() && e < |cells| && Occupied(cells[e])
      modifies `cells, `disp, `occupancy
      ensures Valid() && cells == old(cells)[e := old(cells)[e].(meta := VACANT)] && occupancy == old(occupancy) - 1
    {
      hide Pow2, Probe, On, Passing, Population;
      ghost var was := disp;
      Rollback(cells[e].key, e, depth[e]);
      var c := cells[e].(meta := VACANT);
      Vacate(bits, cells, was, depth, disp, e, c);
      PopulationAt(cells, e, c);
      cells := cells[e := c];
      occupancy := occupancy - 1;
    }

    // What an erase makes of a slot it looks at: an unreferenced entry of the key goes, a referenced one becomes
    // invisible, and anything else is as a lookup leaves it.
    static function Erased(c: Cell, key: Key): Cell {
      if !Match(c, key) then Brushed(c)
      else if Refcount(c.meta) == 0 then c.(meta := VACANT)
      else c.(meta := c.meta.(state := Invisible))
    }

    method Erase(key: Key) returns (reclaimed: int)
      requires Valid()
      modifies `cells, `disp, `occupancy
      ensures Valid() && |cells| == |old(cells)| && occupancy <= old(occupancy)
      ensures forall s :: 0 <= s < |cells| ==> !Match(cells[s], key)
      ensures forall s :: 0 <= s < |cells| && Occupied(old(cells)[s]) ==> cells[s] == Erased(old(cells)[s], key)
      ensures forall s :: 0 <= s < |cells| && !Occupied(old(cells)[s]) ==>
        cells[s] == old(cells)[s] || cells[s] == Brushed(old(cells)[s])
      ensures reclaimed == Stored(old(cells), |old(cells)|) - Stored(cells, |cells|) >= 0
    {
      hide Pow2, Probe, On, Passing, Population, Sound, Clear, Erased, Match, Brushed, Stored;
      var first := First(bits, key);
      var current := first;
      ghost var i: nat := 0;
      reclaimed := 0;
      ProbeStart(bits, key);
      ClearStart(bits, cells, key);
      SoundSizes(bits, cells, disp, depth);
      while true
        invariant Valid() && |cells| == |old(cells)| == |disp| == Pow2(bits) && i < Pow2(bits)
        invariant current == Probe(bits, key, i) && current < Pow2(bits) && occupancy <= old(occupancy)
        invariant Clear(bits, cells, key, i) && Wiped(bits, key, i, old(cells), cells)
        invariant reclaimed == Stored(old(cells), |old(cells)|) - Stored(cells, |cells|) >= 0
        decreases Pow2(bits) - i
      {
        WipeMore(bits, key, i, old(cells), cells);
        ClearKept(bits, cells, key, i, current);
        var r := EraseAt(current, key);
        reclaimed := reclaimed + r;
        SoundSizes(bits, cells, disp, depth);
        ClearMore(bits, cells, key, i);
        if disp[current] == 0 {
          NoneLeft(bits, cells, disp, depth, key, i);
          AllErased(bits, key, i + 1, old(cells), cells);
          return;
        }
        ProbeNext(bits, key, i);
        current := After(bits, key, current);
        if current == first {
          Round(bits, key, i);
          NoneLeft(bits, cells, disp, depth, key, i);
          AllErased(bits, key, i + 1, old(cells), cells);
          return;
        }
        NotYet(bits, key, i);
        i := i + 1;
      }
    }

    // The entry of one slot: referenced, made invisible, and taken if that reference is the only one.
    method EraseAt(e: nat, key: Key) returns (reclaimed: int)
      requires Valid() && e < |cells|
      modifies `cells, `disp, `occupancy
      ensures Valid() && cells == old(cells)[e := Erased(old(cells)[e], key)] && depth == old(depth)
      ensures occupancy <= old(occupancy) && reclaimed == Stored(old(cells), |old(cells)|) - Stored(cells, |cells|) >= 0
    {
      hide Pow2, Probe, On, Passing, Population, Stored;
      ghost var was := cells;
      StoredAt(cells, e, Erased(cells[e], key), |cells|);
      reclaimed := 0;
      var m := cells[e].meta;
      if m.state.Visible? && cells[e].key == key {
        m := m.(acq := m.acq + 1, state := Invisible);
        SetMeta(e, m);
        if Refcount(m) > 1 {
          SetMeta(e, m.(acq := m.acq - 1));
        } else {
          reclaimed := cells[e].charge;
          Remove(e);
        }
      } else {
        var c := Brushed(cells[e]);
        Touch(bits, cells, disp, depth, e, c);
        PopulationAt(cells, e, c);
        cells := cells[e := c];
      }
    }

    // An update of the meta word that keeps the slot occupied.
    method SetMeta(e: nat, m: Meta)
      requires Valid() && e < |cells| && Occupied(cells[e]) && 0 <= m.rel <= m.acq
      requires (m.state.Invisible? || m.state.Visible?)
      modifies `cells
      ensures Valid() && cells == old(cells)[e := old(cells)[e].(meta := m)]
    {
      hide Pow2, Probe, On, Passing, Population;
      var c := cells[e].(meta := m);
      Touch(bits, cells, disp, depth, e, c);
      PopulationAt(cells, e, c);
      cells := cells[e := c];
    }

    method Release(e: nat, useful: bool, eraseIfLast: bool) returns (erased: bool)
      requires Valid() && e < |cells| && Shareable(cells[e].meta.state) && Refcount(cells[e].meta) > 0
      modifies `cells, `disp, `occupancy
      ensures Valid() && occupancy == old(occupancy) - Hit(erased)
      ensures var m := old(cells)[e].meta;
        var m' := if useful then m.(rel := m.rel + 1) else m.(acq := m.acq - 1);
        && erased == ((eraseIfLast || m.state.Invisible?) && Refcount(m) == 1)
        && cells == old(cells)[e := old(cells)[e].(meta := if erased then VACANT else m')]
    {
      hide Pow2, Probe, On, Passing, Population, Sound;
      var m := cells[e].meta;
      var invisible := m.state.Invisible?;
      m := if useful then m.(rel := m.rel + 1) else m.(acq := m.acq - 1);
      SoundCell(bits, cells, disp, depth, e);
      SetMeta(e, m);
      erased := (eraseIfLast || invisible) && Refcount(m) == 0;
      if erased {
        Remove(e);
      }
    }
  }

  lemma LookKeeps(bits: nat, cells: seq<Cell>, disp: seq<int>, depth: seq<nat>, e: nat, key: Key, callback: bool)
    requires Sound(bits, cells, disp, depth) && e < |cells| && Match(cells[e], key)
    ensures Sound(bits, cells[e := Table.Looked(cells[e], callback)], disp, depth)
    ensures Population(cells[e := Table.Looked(cells[e], callback)], |cells|) == Population(cells, |cells|)
  {
    hide Pow2, Probe, On, Passing, Population;
    Touch(bits, cells, disp, depth, e, Table.Looked(cells[e], callback));
    PopulationAt(cells, e, Table.Looked(cells[e], callback));
  }

  lemma BrushedOccupied(c: Cell)
    ensures Occupied(Brushed(c)) == Occupied(c)
  {
  }

  // The first n slots probed are as an erase leaves them.
  ghost predicate Wiped(bits: nat, k: Key, n: nat, was: seq<Cell>, now: seq<Cell>) {
    && |now| == |was|
    && forall s :: 0 <= s < |was| ==> now[s] == if On(bits, k, n, s) then Table.Erased(was[s], k) else was[s]
  }

  lemma WipeMore(bits: nat, k: Key, n: nat, was: seq<Cell>, now: seq<Cell>)
    requires n < Pow2(bits) && Wiped(bits, k, n, was, now) && Probe(bits, k, n) < |now|
    ensures Wiped(bits, k, n + 1, was, now[Probe(bits, k, n) := Table.Erased(now[Probe(bits, k, n)], k)])
  {
    hide Probe, Table.Erased;
    NotOn(bits, k, n);
  }

  lemma AllErased(bits: nat, k: Key, n: nat, was: seq<Cell>, now: seq<Cell>)
    requires Wiped(bits, k, n, was, now) && forall s :: 0 <= s < |now| ==> !Match(now[s], k)
    ensures forall s :: 0 <= s < |now| && Occupied(was[s]) ==> now[s] == Table.Erased(was[s], k)
    ensures forall s :: 0 <= s < |now| && !Occupied(was[s]) ==> now[s] == was[s] || now[s] == Brushed(was[s])
  {
    hide On;
  }

  // What the entries of the first n slots are charged.
  function Stored(cells: seq<Cell>, n: nat): int
    requires n <= |cells|
  {
    if n == 0 then 0 else Stored(cells, n - 1) + (if Occupied(cells[n - 1]) then cells[n - 1].charge else 0)
  }

  lemma {:induction false} SameStored(was: seq<Cell>, now: seq<Cell>, n: nat)
    requires n <= |was| == |now|
    requires forall s :: 0 <= s < |was| ==> Occupied(now[s]) == Occupied(was[s]) && now[s].charge == was[s].charge
    ensures Stored(now, n) == Stored(was, n)
  {
    if n > 0 {
      SameStored(was, now, n - 1);
    }
  }

  lemma {:induction false} StoredAt(cells: seq<Cell>, e: nat, c: Cell, n: nat)
    requires e < |cells| && n <= |cells|
    ensures Stored(cells[e := c], n) == Stored(cells, n) + if e < n then
      (if Occupied(c) then c.charge else 0) - (if Occupied(cells[e]) then cells[e].charge else 0) else 0
  {
    if n > 0 {
      StoredAt(cells, e, c, n - 1);
    }
  }

  lemma ClearStart(bits: nat, cells: seq<Cell>, key: Key)
    ensures Clear(bits, cells, key, 0)
  {
  }

  lemma ClearKept(bits: nat, cells: seq<Cell>, key: Key, i: nat, e: nat)
    requires Clear(bits, cells, key, i) && e < |cells|
    ensures Clear(bits, cells[e := Table.Erased(cells[e], key)], key, i) && !Match(Table.Erased(cells[e], key), key)
  {
    hide On;
  }

  lemma PopulationAt(cells: seq<Cell>, e: nat, c: Cell)
    requires e < |cells|
    ensures Population(cells[e := c], |cells|) ==
      Population(cells, |cells|) + Hit(Occupied(c)) - Hit(Occupied(cells[e]))
  {
    var depth := seq(|cells|, _ => 0 as nat);
    PassingAt(0, cells, depth, 0, |cells|, e, c, 0);
  }

  lemma SoundSizes(bits: nat, cells: seq<Cell>, disp: seq<int>, depth: seq<nat>)
    requires Sound(bits, cells, disp, depth)
    ensures |cells| == |disp| == |depth| == Pow2(bits)
  {
  }

  lemma SoundCell(bits: nat, cells: seq<Cell>, disp: seq<int>, depth: seq<nat>, e: nat)
    requires Sound(bits, cells, disp, depth) && e < |cells|
    ensures 0 <= cells[e].meta.rel <= cells[e].meta.acq && |cells| == |depth| && cells[e].charge >= 0
  {
  }
}
