/** Displacement counts: how many stored entries were probed past a slot. */
module ClockPaths {
  import opened Arith
  import opened ClockProbe
  import opened ClockSlot

  datatype Cell = Cell(meta: Meta, key: Key, value: int, charge: int)

  predicate Occupied(c: Cell) { !c.meta.state.Empty? }

  const VACANT := Meta(0, 0, false, Empty)

  // A probe that finds no entry leaves the acquire counter raised; an insert writes the word afresh.
  function Brushed(c: Cell): Cell { if Occupied(c) then c else c.(meta := AddAcq(c.meta, 1)) }

  // Slot s is among the first n probed for the key.
  predicate On(bits: nat, k: Key, n: nat, s: nat) {
    n > 0 && (Probe(bits, k, n - 1) == s || On(bits, k, n - 1, s))
  }

  function Hit(b: bool): int { if b then 1 else 0 }

  function Passes(bits: nat, c: Cell, depth: nat, s: nat): int {
    Hit(Occupied(c) && On(bits, c.key, depth, s))
  }

  // Of the first n slots, those whose entry was probed past slot s.
  function Passing(bits: nat, cells: seq<Cell>, depth: seq<nat>, s: nat, n: nat): int
    requires n <= |cells| == |depth|
  {
    if n == 0 then 0 else Passing(bits, cells, depth, s, n - 1) + Passes(bits, cells[n - 1], depth[n - 1], s)
  }

  function Population(cells: seq<Cell>, n: nat): int
    requires n <= |cells|
  {
    if n == 0 then 0 else Population(cells, n - 1) + Hit(Occupied(cells[n - 1]))
  }

  ghost predicate CellOK(bits: nat, c: Cell, depth: nat, e: nat) {
    && 0 <= c.meta.rel <= c.meta.acq && c.charge >= 0 && !c.meta.state.Construction?
    && (Occupied(c) ==> depth < Pow2(bits) && Probe(bits, c.key, depth) == e)
  }

  ghost predicate Sound(bits: nat, cells: seq<Cell>, disp: seq<int>, depth: seq<nat>) {
    && |cells| == |disp| == |depth| == Pow2(bits)
    && (forall e :: 0 <= e < |cells| ==> CellOK(bits, cells[e], depth[e], e))
    && (forall s :: 0 <= s < |disp| ==> disp[s] == Passing(bits, cells, depth, s, |cells|))
  }

  // ---------------------------------------------------------------- paths

  lemma {:induction false} OnAt(bits: nat, k: Key, n: nat, i: nat)
    requires i < n
    ensures On(bits, k, n, Probe(bits, k, i))
  {
    hide Probe;
    if i < n - 1 {
      OnAt(bits, k, n - 1, i);
    }
  }

  lemma {:induction false} OnHas(bits: nat, k: Key, n: nat, s: nat) returns (i: nat)
    requires On(bits, k, n, s)
    ensures i < n && Probe(bits, k, i) == s
  {
    hide Probe;
    if Probe(bits, k, n - 1) == s {
      i := n - 1;
    } else {
      i := OnHas(bits, k, n - 1, s);
    }
  }

  // The end of a path is not on it.
  lemma NotOn(bits: nat, k: Key, n: nat)
    requires n < Pow2(bits)
    ensures !On(bits, k, n, Probe(bits, k, n))
  {
    hide Probe, On;
    if On(bits, k, n, Probe(bits, k, n)) {
      var i := OnHas(bits, k, n, Probe(bits, k, n));
      ProbeInjective(bits, k, i, n);
    }
  }

  // ---------------------------------------------------------------- counting

  lemma {:induction false} PassingAt(bits: nat, cells: seq<Cell>, depth: seq<nat>, s: nat, n: nat, e: nat, c: Cell,
                                     d: nat)
    requires n <= |cells| == |depth| && e < |cells|
    ensures Passing(bits, cells[e := c], depth[e := d], s, n) ==
      Passing(bits, cells, depth, s, n)
      + if e < n then Passes(bits, c, d, s) - Passes(bits, cells[e], depth[e], s) else 0
    ensures Population(cells[e := c], n) ==
      Population(cells, n) + if e < n then Hit(Occupied(c)) - Hit(Occupied(cells[e])) else 0
  {
    hide On;
    if n > 0 {
      PassingAt(bits, cells, depth, s, n - 1, e, c, d);
    }
  }

  lemma {:induction false} PassingBound(bits: nat, cells: seq<Cell>, depth: seq<nat>, s: nat, n: nat, e: nat)
    requires e < n <= |cells| == |depth|
    ensures Passing(bits, cells, depth, s, n) >= Passes(bits, cells[e], depth[e], s)
  {
    hide On;
    if n > 0 {
      PassingNonNegative(bits, cells, depth, s, n - 1);
      if e < n - 1 {
        PassingBound(bits, cells, depth, s, n - 1, e);
      }
    }
  }

  lemma {:induction false} PassingNonNegative(bits: nat, cells: seq<Cell>, depth: seq<nat>, s: nat, n: nat)
    requires n <= |cells| == |depth|
    ensures Passing(bits, cells, depth, s, n) >= 0
  {
    hide On;
    if n > 0 {
      PassingNonNegative(bits, cells, depth, s, n - 1);
    }
  }

  lemma {:induction false} NonePassing(bits: nat, cells: seq<Cell>, depth: seq<nat>, s: nat, n: nat)
    requires n <= |cells| == |depth| && forall e :: 0 <= e < n ==> !Occupied(cells[e])
    ensures Passing(bits, cells, depth, s, n) == 0 && Population(cells, n) == 0
  {
    if n > 0 {
      NonePassing(bits, cells, depth, s, n - 1);
    }
  }

  // An entry is counted at every slot probed before its own: a zero count ends a search rightly.
  lemma Counted(bits: nat, cells: seq<Cell>, disp: seq<int>, depth: seq<nat>, e: nat, i: nat)
    requires Sound(bits, cells, disp, depth) && e < |cells| && Occupied(cells[e]) && i < depth[e]
    ensures disp[Probe(bits, cells[e].key, i)] > 0
  {
    hide Probe, On, Passing;
    var s := Probe(bits, cells[e].key, i);
    OnAt(bits, cells[e].key, depth[e], i);
    PassingBound(bits, cells, depth, s, |cells|, e);
  }

  lemma {:induction false} FullPopulation(cells: seq<Cell>, n: nat)
    requires n <= |cells| && forall e :: 0 <= e < n ==> Occupied(cells[e])
    ensures Population(cells, n) == n
  {
    if n > 0 {
      FullPopulation(cells, n - 1);
    }
  }

  // ---------------------------------------------------------------- what operations do

  // disp with one more, or one less, at the first n slots probed for the key.
  ghost predicate Shifted(bits: nat, k: Key, n: nat, was: seq<int>, disp: seq<int>, step: int) {
    |disp| == |was| && forall s :: 0 <= s < |was| ==> disp[s] == was[s] + step * Hit(On(bits, k, n, s))
  }

  lemma Fill(bits: nat, cells: seq<Cell>, disp: seq<int>, depth: seq<nat>, disp2: seq<int>, e: nat, c: Cell, n: nat)
    requires Sound(bits, cells, disp, depth) && e < |cells| && !Occupied(cells[e]) && Occupied(c)
    requires CellOK(bits, c, n, e)
    requires Shifted(bits, c.key, n, disp, disp2, 1)
    ensures Sound(bits, cells[e := c], disp2, depth[e := n])
  {
    hide Passing, On, Probe;
    forall s | 0 <= s < |disp2| ensures disp2[s] == Passing(bits, cells[e := c], depth[e := n], s, |cells|) {
      PassingAt(bits, cells, depth, s, |cells|, e, c, n);
    }
  }

  lemma Vacate(bits: nat, cells: seq<Cell>, disp: seq<int>, depth: seq<nat>, disp2: seq<int>, e: nat, c: Cell)
    requires Sound(bits, cells, disp, depth) && e < |cells| && Occupied(cells[e]) && !Occupied(c)
    requires CellOK(bits, c, depth[e], e)
    requires Shifted(bits, cells[e].key, depth[e], disp, disp2, -1)
    ensures Sound(bits, cells[e := c], disp2, depth)
  {
    hide Passing, On, Probe;
    assert depth == depth[e := depth[e]];
    forall s | 0 <= s < |disp2| ensures disp2[s] == Passing(bits, cells[e := c], depth, s, |cells|) {
      PassingAt(bits, cells, depth, s, |cells|, e, c, depth[e]);
    }
  }

  lemma Touch(bits: nat, cells: seq<Cell>, disp: seq<int>, depth: seq<nat>, e: nat, c: Cell)
    requires Sound(bits, cells, disp, depth) && e < |cells| && CellOK(bits, c, depth[e], e)
    requires c.key == cells[e].key && Occupied(c) == Occupied(cells[e])
    ensures Sound(bits, cells[e := c], disp, depth)
  {
    hide Passing, On, Probe;
    assert depth == depth[e := depth[e]];
    forall s | 0 <= s < |disp| ensures disp[s] == Passing(bits, cells[e := c], depth, s, |cells|) {
      PassingAt(bits, cells, depth, s, |cells|, e, c, depth[e]);
    }
  }

  lemma Undone(bits: nat, k: Key, n: nat, a: seq<int>, b: seq<int>, c: seq<int>)
    requires Shifted(bits, k, n, a, b, 1) && Shifted(bits, k, n, b, c, -1)
    ensures c == a
  {
    hide On;
  }

  // ---------------------------------------------------------------- searching

  predicate Match(c: Cell, k: Key) { c.meta.state.Visible? && c.key == k }

  // No entry found among the first n slots probed.
  ghost predicate Clear(bits: nat, cells: seq<Cell>, k: Key, n: nat) {
    forall s :: 0 <= s < |cells| && On(bits, k, n, s) ==> !Match(cells[s], k)
  }

  lemma ClearMore(bits: nat, cells: seq<Cell>, k: Key, n: nat)
    requires Clear(bits, cells, k, n) && Probe(bits, k, n) < |cells| && !Match(cells[Probe(bits, k, n)], k)
    ensures Clear(bits, cells, k, n + 1)
  {
    hide Probe;
    assert forall s :: On(bits, k, n + 1, s) ==> s == Probe(bits, k, n) || On(bits, k, n, s);
  }

  // A search that stops at a zero count, or has come round, has missed nothing.
  lemma NoneLeft(bits: nat, cells: seq<Cell>, disp: seq<int>, depth: seq<nat>, k: Key, i: nat)
    requires Sound(bits, cells, disp, depth) && i < Pow2(bits) && Clear(bits, cells, k, i + 1)
    requires disp[Probe(bits, k, i)] == 0 || i + 1 == Pow2(bits)
    ensures forall e :: 0 <= e < |cells| ==> !Match(cells[e], k)
  {
    hide Probe, On, Pow2, Passing;
    forall e | 0 <= e < |cells| ensures !Match(cells[e], k) {
      if Match(cells[e], k) {
        if depth[e] <= i {
          OnAt(bits, k, i + 1, depth[e]);
        } else {
          Counted(bits, cells, disp, depth, e, i);
        }
      }
    }
  }

  // The first n slots probed have been looked at.
  ghost predicate Passed(bits: nat, k: Key, n: nat, was: seq<Cell>, now: seq<Cell>) {
    |now| == |was| && forall s :: 0 <= s < |was| ==> now[s] == if On(bits, k, n, s) then Brushed(was[s]) else was[s]
  }

  lemma PassMore(bits: nat, k: Key, n: nat, was: seq<Cell>, now: seq<Cell>)
    requires n < Pow2(bits) && Passed(bits, k, n, was, now) && Probe(bits, k, n) < |now|
    ensures now[Probe(bits, k, n)] == was[Probe(bits, k, n)]
    ensures Passed(bits, k, n + 1, was, now[Probe(bits, k, n) := Brushed(now[Probe(bits, k, n)])])
  {
    hide Probe, Brushed;
    NotOn(bits, k, n);
  }

  lemma BrushKeeps(bits: nat, cells: seq<Cell>, disp: seq<int>, depth: seq<nat>, k: Key, n: nat, e: nat)
    requires Sound(bits, cells, disp, depth) && Clear(bits, cells, k, n) && e < |cells|
    ensures Sound(bits, cells[e := Brushed(cells[e])], disp, depth) && Clear(bits, cells[e := Brushed(cells[e])], k, n)
    ensures Match(Brushed(cells[e]), k) == Match(cells[e], k)
  {
    hide Probe, On, Passing;
    Touch(bits, cells, disp, depth, e, Brushed(cells[e]));
  }

  // Coming back to the first slot takes a whole round.
  lemma Round(bits: nat, k: Key, i: nat)
    requires i < Pow2(bits) && Probe(bits, k, i + 1) == First(bits, k)
    ensures i + 1 == Pow2(bits)
  {
    hide Probe, Pow2;
    assert First(bits, k) == Probe(bits, k, 0) by { ProbeStart(bits, k); }
    if i + 1 < Pow2(bits) {
      ProbeInjective(bits, k, 0, i + 1);
    }
  }

  lemma NotYet(bits: nat, k: Key, i: nat)
    requires i < Pow2(bits) && Probe(bits, k, i + 1) != First(bits, k)
    ensures i + 1 < Pow2(bits)
  {
    hide Probe, Pow2;
    ProbeCycle(bits, k);
  }

  lemma ProbeStart(bits: nat, k: Key)
    ensures Probe(bits, k, 0) == First(bits, k) < Pow2(bits)
    ensures forall s: nat {:trigger On(bits, k, 0, s)} :: !On(bits, k, 0, s)
  {
  }

  lemma ProbeNext(bits: nat, k: Key, i: nat)
    ensures Probe(bits, k, i + 1) == After(bits, k, Probe(bits, k, i)) < Pow2(bits)
  {
  }

  // All slots are on a path of full length.
  lemma AllOn(bits: nat, k: Key, s: nat)
    requires s < Pow2(bits)
    ensures On(bits, k, Pow2(bits), s)
  {
    hide Probe, Pow2, On;
    var i := ProbeReaches(bits, k, s);
    OnAt(bits, k, Pow2(bits), i);
  }

  // All of the first n slots probed are taken, none by a visible entry of the key.
  ghost predicate Blocked(bits: nat, cells: seq<Cell>, k: Key, n: nat) {
    forall s :: 0 <= s < |cells| && On(bits, k, n, s) ==> Occupied(cells[s]) && !Match(cells[s], k)
  }

  lemma BlockedMore(bits: nat, cells: seq<Cell>, k: Key, n: nat)
    requires Blocked(bits, cells, k, n) && Probe(bits, k, n) < |cells|
    requires Occupied(cells[Probe(bits, k, n)]) && !Match(cells[Probe(bits, k, n)], k)
    ensures Blocked(bits, cells, k, n + 1)
  {
    hide Probe;
    assert forall s :: On(bits, k, n + 1, s) ==> s == Probe(bits, k, n) || On(bits, k, n, s);
  }

  lemma AllBlocked(bits: nat, cells: seq<Cell>, k: Key)
    requires |cells| == Pow2(bits) && Blocked(bits, cells, k, Pow2(bits))
    ensures forall s :: 0 <= s < |cells| ==> Occupied(cells[s])
  {
    hide Probe, Pow2, On;
    forall s | 0 <= s < |cells| ensures Occupied(cells[s]) {
      AllOn(bits, k, s);
    }
  }

  // One more step along the path.
  lemma ShiftMore(bits: nat, k: Key, n: nat, was: seq<int>, disp: seq<int>)
    requires n < Pow2(bits) && Shifted(bits, k, n, was, disp, 1) && Probe(bits, k, n) < |disp|
    ensures Shifted(bits, k, n + 1, was, disp[Probe(bits, k, n) := disp[Probe(bits, k, n)] + 1], 1)
  {
    hide Probe;
    NotOn(bits, k, n);
  }
}
