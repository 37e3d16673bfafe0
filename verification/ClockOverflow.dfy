/** How a slot comes to a near-overflow correction that loses count: one reference kept, and many lookups. */
module ClockOverflow {
  import opened ClockSlot

  ghost function Last(r: Run): Slot
    requires |r.states| > 0
  {
    r.states[|r.states| - 1]
  }

  lemma Extend(r: Run, i: int, l: Label) returns (r2: Run)
    requires IsRun(r) && Can(Last(r), i, l) && InRange(Next(Last(r), i, l).meta)
    requires Corrects(Last(r), i, l) ==> TopsAgree(Last(r).meta)
    ensures IsRun(r2) && |r2.states| > 0 && Last(r2) == Next(Last(r), i, l)
  {
    hide IsStep, Next, Can;
    assert IsStep(Last(r), i, l, Next(Last(r), i, l)) by { Taken(Last(r), i, l); }
    r2 := Run(r.states + [Next(Last(r), i, l)], r.who + [i], r.what + [l]);
    forall k | 0 <= k < |r2.who| ensures IsStep(r2.states[k], r2.who[k], r2.what[k], r2.states[k + 1]) {
      if k < |r.who| {
        assert IsStep(r.states[k], r.who[k], r.what[k], r.states[k + 1]);
      }
    }
  }

  lemma Taken(s: Slot, i: int, l: Label)
    requires Can(s, i, l) && (Corrects(s, i, l) ==> TopsAgree(s.meta))
    ensures IsStep(s, i, l, Next(s, i, l))
  {
    hide Next, Can;
  }

  // One thread, which holds a handle, after n lookups and releases.
  function Kept(n: int): Slot {
    Slot(Meta(n + 1, n, false, Visible), Data(0, 0), [Thread(1, Idle)], false)
  }

  lemma Opened() returns (r: Run)
    ensures IsRun(r) && |r.states| > 0 && Last(r) == Kept(0)
  {
    r := Run([Slot(Meta(0, 0, false, Empty), Data(0, 0), [Thread(0, Idle)], false)], [], []);
    r := Extend(r, 0, CallInsert(Data(0, 0), 1, true));
    r := Extend(r, 0, Advance(false));
    r := Extend(r, 0, Advance(false));
  }

  // A lookup and a release; the correction, if there is one, is still to come.
  lemma Pair(r: Run, n: nat) returns (r2: Run)
    requires IsRun(r) && |r.states| > 0 && Last(r) == Kept(n) && n + 2 < 2 * COUNTER_TOP
    ensures IsRun(r2) && |r2.states| > 0
    ensures Last(r2) == Kept(n + 1).(threads :=
      [Thread(1, if Fires(Meta(n + 2, n, false, Visible)) then Correct else Idle)])
  {
    hide IsRun, Fires;
    var a := Extend(r, 0, CallLookup(0));
    assert Last(a) == Slot(Meta(n + 2, n, false, Visible), Data(0, 0), [Thread(1, LookRead(0))], false);
    var b := Extend(a, 0, Advance(false));
    assert Last(b) == Slot(Meta(n + 2, n, false, Visible), Data(0, 0), [Thread(2, Idle)], false);
    r2 := Extend(b, 0, CallRelease(true, false));
  }

  lemma {:induction false} Pairs(n: nat) returns (r: Run)
    requires n + 1 < COUNTER_TOP
    ensures IsRun(r) && |r.states| > 0 && Last(r) == Kept(n)
  {
    hide IsRun, Fires;
    if n == 0 {
      r := Opened();
    } else {
      r := Pairs(n - 1);
      r := Pair(r, n - 1);
      if Fires(Meta(n + 1, n - 1, false, Visible)) {
        r := Extend(r, 0, Advance(false));
      }
    }
  }

  // A run whose next step is a correction with one reference out and the top bits apart: the count is lost.
  lemma CorrectionLosesCount() returns (r: Run)
    ensures IsRun(r) && Can(Last(r), 0, Advance(false)) && Corrects(Last(r), 0, Advance(false))
    ensures Refcount(Last(r).meta) == 1 == Total(Last(r).threads) && !TopsAgree(Last(r).meta)
    ensures Inv(Last(r)) && !Inv(Next(Last(r), 0, Advance(false)))
    ensures Refcount(Next(Last(r), 0, Advance(false)).meta) < 0
  {
    r := Pairs(COUNTER_TOP - 2);
    r := Pair(r, COUNTER_TOP - 2);
    assert (COUNTER_TOP - 2) / 4 == 0x7ff_ffff;
    Reached(r, |r.states| - 1);
    CorrectExact(Last(r), 0, false);
  }
}
