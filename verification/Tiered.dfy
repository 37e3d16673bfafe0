/** One memory budget shared by a primary cache and a compressed secondary cache. */
module Tiered {
  import opened Arith
  import opened Reservation

  // A placeholder's handle: its charge, until the last reference is released with erase.
  datatype Placeholder = Live(charge: int) | Gone

  // The part of a placeholder's charge that the secondary cache gives up.
  function Share(charge: int, secondary: int, capacity: int): int
    requires 0 < capacity
  {
    charge * secondary / capacity
  }

  function Charge(p: Placeholder): int {
    if p.Live? then p.charge else 0
  }

  function Charged(ps: seq<Placeholder>): int {
    if ps == [] then 0 else Charged(ps[..|ps| - 1]) + Charge(ps[|ps| - 1])
  }

  function Given(ps: seq<Placeholder>, secondary: int, capacity: int): int
    requires 0 < capacity
  {
    if ps == [] then 0
    else Given(ps[..|ps| - 1], secondary, capacity) + Share(Charge(ps[|ps| - 1]), secondary, capacity)
  }

  ghost predicate Sizes(ps: seq<Placeholder>) {
    forall i :: 0 <= i < |ps| ==> Charge(ps[i]) >= 0
  }

  lemma AtMost(x: int, z: int, n: int)
    requires 0 < n && n * x < n * (z + 1)
    ensures x <= z
  {
    assert n * (z + 1) - n * x == n * (z + 1 - x);
  }

  // Cutting before adding never gives more than adding before cutting.
  lemma FloorsAdd(a: int, b: int, n: int)
    requires 0 < n
    ensures a / n + b / n <= (a + b) / n
  {
    var x, y, z := a / n, b / n, (a + b) / n;
    AtMost(x + y, z, n);
  }

  lemma {:induction false} GivenOfTotal(ps: seq<Placeholder>, secondary: int, capacity: int)
    requires 0 < capacity
    ensures Given(ps, secondary, capacity) <= Charged(ps) * secondary / capacity
  {
    if ps == [] {
      assert 0 * secondary == 0;
    } else {
      var front, c := ps[..|ps| - 1], Charge(ps[|ps| - 1]);
      GivenOfTotal(front, secondary, capacity);
      FloorsAdd(Charged(front) * secondary, c * secondary, capacity);
      assert Charged(ps) * secondary == Charged(front) * secondary + c * secondary;
    }
  }

  lemma DivUpTo(a: int, b: int, n: int)
    requires 0 < n && a <= b * n
    ensures a / n <= b
  {
    AtMost(a / n, b, n);
  }

  lemma Scale(a: int, b: int, k: int)
    requires a <= b && 0 <= k
    ensures a * k <= k * b
  {
  }

  // Placeholders that fit the primary cache together never ask for more than
  // the secondary cache has.
  lemma SharesFit(ps: seq<Placeholder>, secondary: int, capacity: int)
    requires 0 < capacity && 0 <= secondary && Charged(ps) <= capacity
    ensures Given(ps, secondary, capacity) <= secondary
  {
    GivenOfTotal(ps, secondary, capacity);
    Scale(Charged(ps), capacity, secondary);
    DivUpTo(Charged(ps) * secondary, secondary, capacity);
  }

  lemma ShareSign(c: int, secondary: int, capacity: int)
    requires 0 < capacity && 0 <= secondary && 0 <= c
    ensures 0 <= Share(c, secondary, capacity)
  {
    assert c * secondary >= 0;
  }

  lemma {:induction false} GivenSign(ps: seq<Placeholder>, secondary: int, capacity: int)
    requires 0 < capacity && 0 <= secondary && Sizes(ps)
    ensures 0 <= Given(ps, secondary, capacity)
  {
    if ps != [] {
      GivenSign(ps[..|ps| - 1], secondary, capacity);
      ShareSign(Charge(ps[|ps| - 1]), secondary, capacity);
    }
  }

  lemma {:induction false} GivenBack(ps: seq<Placeholder>, i: int, secondary: int, capacity: int)
    requires 0 < capacity && 0 <= i < |ps|
    ensures Given(ps[i := Gone], secondary, capacity)
      == Given(ps, secondary, capacity) - Share(Charge(ps[i]), secondary, capacity)
    ensures Charged(ps[i := Gone]) == Charged(ps) - Charge(ps[i])
  {
    var n := |ps| - 1;
    assert 0 * secondary == 0;
    if i == n {
      assert ps[i := Gone][..n] == ps[..n];
    } else {
      GivenBack(ps[..n], i, secondary, capacity);
      assert ps[i := Gone][..n] == ps[..n][i := Gone];
    }
  }

  lemma {:induction false} GivenNone(ps: seq<Placeholder>, secondary: int, capacity: int)
    requires 0 < capacity && forall i :: 0 <= i < |ps| ==> ps[i] == Gone
    ensures Given(ps, secondary, capacity) == 0
  {
    assert 0 * secondary == 0;
    if ps != [] {
      GivenNone(ps[..|ps| - 1], secondary, capacity);
    }
  }

  // The condition is needed: one placeholder larger than the primary cache,
  // when the whole budget belongs to the secondary cache.
  lemma OverchargedTakesTooMuch(capacity: int)
    requires 0 < capacity
    ensures Given([Live(capacity + 1)], capacity, capacity) > capacity
  {
    assert [Live(capacity + 1)][..0] == [];
    assert 0 * capacity == 0;
    Split(0, capacity + 1, capacity);
  }

  class Adapter {
    const primary: Manager      // pri_cache_res_: what the primary cache sets aside
    const deflated: Manager     // what the secondary cache has been shrunk by
    const secondary: int        // the secondary cache's capacity
    const capacity: int         // the primary cache's capacity
    var placeholders: seq<Placeholder>

    ghost predicate Valid()
      reads this, primary, deflated
    {
      && primary != deflated && primary.Valid() && deflated.Valid()
      && !primary.delayed && !deflated.delayed
      && 0 < capacity && 0 <= secondary && Sizes(placeholders)
      && deflated.memoryUsed == Given(placeholders, secondary, capacity)
      && primary.memoryUsed + deflated.memoryUsed == secondary
    }

    constructor (secondary: int, capacity: int, accepts: nat)
      requires 0 < capacity && 0 <= secondary
      ensures Valid() && fresh(primary) && fresh(deflated) && placeholders == []
      ensures this.secondary == secondary && this.capacity == capacity
      ensures secondary <= DUMMY * accepts ==> primary.Tight(secondary)
    {
      var p := new Manager(false);
      var d := new Manager(false);
      var ok := p.UpdateCacheReservation(secondary, accepts);
      primary, deflated := p, d;
      this.secondary, this.capacity, placeholders := secondary, capacity, [];
    }

    // The size_t arithmetic stays above zero exactly when the shares still fit;
    // SharesFit says they do whenever the charges fit the primary cache.
    ghost predicate Fits(charge: int)
      reads this
      requires 0 < capacity
    {
      Given(placeholders + [Live(charge)], secondary, capacity) <= secondary
    }

    // A placeholder goes in (the target cache has room for it or not).  The secondary cache accepts so many dummy
    // entries, the primary one so many.  Three assertions: that the secondary cache was deflated, that the primary
    // reservation covers the share (held), and that it was lowered (ok).
    method Insert(charge: int, inserted: bool, secondaryAccepts: nat, primaryAccepts: nat)
        returns (ok: bool, deflation: bool, held: bool)
      requires Valid() && 0 <= charge
      modifies this, primary, deflated
      ensures held <==> !inserted || old(Fits(charge))
      ensures inserted ==> (deflation <==>
                              old(Given(placeholders + [Live(charge)], secondary, capacity))
                              <= old(deflated.reserved) + DUMMY * secondaryAccepts)
      ensures ok <==> inserted && held && primary.memoryUsed <= old(primary.reserved) + DUMMY * primaryAccepts
      ensures inserted && held && old(primary.Tight(primary.memoryUsed)) ==> ok
      ensures held ==> Valid()
      ensures held ==> placeholders == if inserted then old(placeholders) + [Live(charge)] else old(placeholders)
      ensures ok ==> primary.Tight(primary.memoryUsed)
      ensures inserted && deflation ==> deflated.Tight(deflated.memoryUsed)
    {
      if !inserted {
        return false, true, true;
      }
      var share := Share(charge, secondary, capacity);
      ghost var next := placeholders + [Live(charge)];
      assert next[..|placeholders|] == placeholders;
      ShareSign(charge, secondary, capacity);
      deflation := deflated.UpdateBy(share, true, secondaryAccepts);
      if primary.memoryUsed < share {
        return false, deflation, false;
      }
      ok := primary.UpdateBy(share, false, primaryAccepts);
      placeholders := placeholders + [Live(charge)];
      held := true;
    }

    // The last reference to a placeholder is released and the entry erased.
    method Release(i: int, secondaryAccepts: nat, primaryAccepts: nat) returns (inflation: bool, ok: bool)
      requires Valid() && 0 <= i < |placeholders| && placeholders[i].Live?
      modifies this, primary, deflated
      ensures Valid() && placeholders == old(placeholders)[i := Gone]
      ensures inflation <==> deflated.memoryUsed <= old(deflated.reserved) + DUMMY * secondaryAccepts
      ensures old(deflated.Tight(deflated.memoryUsed)) ==> inflation
      ensures ok <==> primary.memoryUsed <= old(primary.reserved) + DUMMY * primaryAccepts
      ensures ok ==> primary.Tight(primary.memoryUsed)
      ensures inflation ==> deflated.Tight(deflated.memoryUsed)
    {
      var share := Share(placeholders[i].charge, secondary, capacity);
      assert placeholders[i].charge == Charge(placeholders[i]);
      ShareSign(placeholders[i].charge, secondary, capacity);
      GivenBack(placeholders, i, secondary, capacity);
      GivenSign(placeholders[i := Gone], secondary, capacity);
      inflation := deflated.UpdateBy(share, false, secondaryAccepts);
      ok := primary.UpdateBy(share, true, primaryAccepts);
      placeholders := placeholders[i := Gone];
    }
  }

  // Charges that fit together keep every later insertion clear of underflow.
  lemma FitsWithin(a: Adapter, charge: int)
    requires a.Valid() && Charged(a.placeholders) + charge <= a.capacity
    ensures a.Fits(charge)
  {
    var next := a.placeholders + [Live(charge)];
    assert next[..|a.placeholders|] == a.placeholders;
    SharesFit(next, a.secondary, a.capacity);
  }

  // With every placeholder released the whole budget is back where it began.
  lemma AllReleased(a: Adapter)
    requires a.Valid() && forall i :: 0 <= i < |a.placeholders| ==> a.placeholders[i] == Gone
    ensures a.primary.memoryUsed == a.secondary && a.deflated.memoryUsed == 0
  {
    GivenNone(a.placeholders, a.secondary, a.capacity);
  }
}
