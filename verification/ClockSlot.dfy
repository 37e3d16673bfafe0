/**
  One slot of the HyperClockCache table under any number of threads.

  Every atomic operation on the slot's meta word is one step.  A thread is a count of the
  handles its callers hold plus the place it has reached inside a table operation; what it
  holds for its own use follows from that place.
 */
module ClockSlot {
  import opened Arith
  import opened Sums

  // ---------------------------------------------------------------- the meta word

  datatype State = Empty | Construction | Invisible | Visible

  predicate Shareable(s: State) { s.Invisible? || s.Visible? }

  datatype Meta = Meta(acq: int, rel: int, hit: bool, state: State)

  const COUNTER_TOP := 0x2000_0000   // 1 << (kCounterNumBits - 1)
  const MAX_COUNTDOWN := 3

  function Refcount(m: Meta): int { m.acq - m.rel }

  function ClearTop(x: int): int { if x >= COUNTER_TOP then x - COUNTER_TOP else x }

  // CorrectNearOverflow looks at the top bit of the release counter and at bit kMaxCountdown + 1.
  predicate Fires(m: Meta) { m.rel >= COUNTER_TOP || (m.rel / (MAX_COUNTDOWN + 1)) % 2 == 1 }

  // Counters within their thirty bits.
  predicate InRange(m: Meta) { 0 <= m.acq < 2 * COUNTER_TOP && 0 <= m.rel < 2 * COUNTER_TOP }

  // Both counters have their top bit set, or neither has.
  predicate TopsAgree(m: Meta) { m.acq >= COUNTER_TOP <==> m.rel >= COUNTER_TOP }

  // The scan's test of a state against a mask of the shareable bit and, if only visible entries are wanted, the
  // visible bit: any bit will do, so that invisible entries pass all the same.
  predicate Admits(s: State, visibleOnly: bool): (r: bool)
    ensures r <==> Shareable(s)
  {
    Shareable(s) || (visibleOnly && s.Visible?)
  }

  // ---------------------------------------------------------------- threads

  datatype Data = Data(key: int, value: int)

  datatype PC =
    | Idle
    | InsProbe(d: Data, cd: int)               // saw a visible entry, about to take cd references
    | InsRead(d: Data, cd: int)                // holds them, about to compare keys
    | InsMatch(cd: int)                        // same key, about to release them as used
    | InsOwn(d: Data, cd: int, keep: bool)     // owns the empty slot
    | InsReady(cd: int, keep: bool)            // has written the data, about to publish
    | Undo(n: int)                             // about to take n references back
    | Correct                                  // about to clear the top counter bits
    | LookRead(key: int)                       // holds a reference to a visible entry
    | LookHit(key: int)                        // of the key looked for, about to set the hit bit
    | RelLoop(m: Meta)                         // released; would erase if m is still there
    | ClkLoaded(m: Meta)                       // clock update read m
    | ScanLoaded(m: Meta)                      // erase-unreferenced read m
    | EraRead(key: int)                        // holds a reference to a visible entry
    | EraHide(key: int)                        // of the key to erase
    | EraLoop(key: int, m: Meta)               // made it invisible; would take it if m is still there
    | AppLoaded                                // about to take a reference for a scan
    | AppHold                                  // holds it
    | Freeing                                  // owns the slot, about to free the data and mark it empty

  datatype Thread = Thread(handles: int, pc: PC)

  function Transient(pc: PC): int {
    match pc
    case InsRead(_, cd) => cd
    case InsMatch(cd) => cd
    case Undo(n) => n
    case LookRead(_) => 1
    case LookHit(_) => 1
    case EraRead(_) => 1
    case EraHide(_) => 1
    case EraLoop(_, _) => 1
    case AppHold => 1
    case _ => 0
  }

  function Held(t: Thread): int { t.handles + Transient(t.pc) }

  function Owns(pc: PC): int { if pc.InsOwn? || pc.InsReady? || pc.Freeing? then 1 else 0 }

  function Owning(t: Thread): int { Owns(t.pc) }

  function Total(ts: seq<Thread>): int { Sum(ts, Held) }

  function Owners(ts: seq<Thread>): int { Sum(ts, Owning) }

  // ---------------------------------------------------------------- the slot

  // callback: whether an eviction callback is installed, so that lookups set the hit bit.
  datatype Slot = Slot(meta: Meta, data: Data, threads: seq<Thread>, callback: bool)

  datatype Label =
    | CallInsert(d: Data, cd: int, keep: bool)
    | CallLookup(key: int)
    | CallRef
    | CallRelease(useful: bool, eraseLast: bool)
    | CallErase(key: int)
    | CallClock
    | CallScan
    | CallApply(mustBeVisible: bool)
    | Give(to: int)                  // passes a handle to another thread
    | Advance(spurious: bool)        // the next step of the operation; a weak exchange may fail spuriously

  predicate Can(s: Slot, i: int, l: Label) {
    && 0 <= i < |s.threads|
    && match l
       case Advance(_) => !s.threads[i].pc.Idle?
       case CallInsert(_, cd, _) => s.threads[i].pc.Idle? && 1 <= cd <= MAX_COUNTDOWN
       case CallRef => s.threads[i].pc.Idle? && s.threads[i].handles > 0
       case CallRelease(_, _) => s.threads[i].pc.Idle? && s.threads[i].handles > 0
       case Give(to) => s.threads[i].pc.Idle? && s.threads[i].handles > 0 && 0 <= to < |s.threads| && to != i
       case _ => s.threads[i].pc.Idle?
  }

  const TAKEN := Meta(0, 0, false, Construction)

  function AddAcq(m: Meta, n: int): Meta { m.(acq := m.acq + n) }
  function AddRel(m: Meta, n: int): Meta { m.(rel := m.rel + n) }

  // What one atomic step leaves: the word, the data, and the thread that took it.
  datatype Effect = Effect(meta: Meta, data: Data, thread: Thread)

  function Next(s: Slot, i: int, l: Label): Slot
    requires Can(s, i, l)
  {
    match l
    case Give(to) =>
      var t, u := s.threads[i], s.threads[to];
      s.(threads := s.threads[i := t.(handles := t.handles - 1)][to := u.(handles := u.handles + 1)])
    case _ =>
      var e := Step(s.meta, s.data, s.threads[i], l, s.callback);
      Slot(e.meta, e.data, s.threads[i := e.thread], s.callback)
  }

  function Step(m: Meta, d: Data, t: Thread, l: Label, callback: bool): Effect {
    match l
    case CallInsert(entry, cd, keep) =>
      if m.state.Empty? then Effect(m.(state := Construction), d, t.(pc := InsOwn(entry, cd, keep)))
      else if m.state.Visible? then Effect(m, d, t.(pc := InsProbe(entry, cd)))
      else Effect(m, d, t)
    case CallLookup(key) =>
      Effect(AddAcq(m, 1), d,
             t.(pc := if m.state.Visible? then LookRead(key) else if m.state.Invisible? then Undo(1) else Idle))
    case CallRef => Effect(AddAcq(m, 1), d, t.(handles := t.handles + 1))
    case CallRelease(useful, eraseLast) =>
      var m' := if useful then AddRel(m, 1) else AddAcq(m, -1);
      var pc := if eraseLast || m.state.Invisible? then RelLoop(m') else if Fires(m) then Correct else Idle;
      Effect(m', d, Thread(t.handles - 1, pc))
    case CallErase(key) =>
      Effect(AddAcq(m, 1), d,
             t.(pc := if m.state.Visible? then EraRead(key) else if m.state.Invisible? then Undo(1) else Idle))
    case CallClock =>
      Effect(m, d, t.(pc := if Refcount(m) == 0 && Shareable(m.state) then ClkLoaded(m) else Idle))
    case CallScan =>
      Effect(m, d, t.(pc := if Refcount(m) == 0 && Shareable(m.state) then ScanLoaded(m) else Idle))
    case CallApply(mustBeVisible) =>
      Effect(m, d, t.(pc := if Admits(m.state, mustBeVisible) then AppLoaded else Idle))
    case Give(_) => Effect(m, d, t)
    case Advance(spurious) => Resume(m, d, t, spurious, callback)
  }

  function Inserting(m: Meta, d: Data, t: Thread): Effect
    requires t.pc.InsProbe? || t.pc.InsRead? || t.pc.InsMatch? || t.pc.InsOwn? || t.pc.InsReady?
  {
    match t.pc
    case InsProbe(entry, cd) =>
      Effect(AddAcq(m, cd), d,
             t.(pc := if m.state.Visible? then InsRead(entry, cd) else if m.state.Invisible? then Undo(cd) else Idle))
    case InsRead(entry, cd) => Effect(m, d, t.(pc := if d.key == entry.key then InsMatch(cd) else Undo(cd)))
    case InsMatch(cd) => Effect(AddRel(m, cd), d, t.(pc := if Fires(m) then Correct else Idle))
    case InsOwn(entry, cd, keep) => Effect(m, entry, t.(pc := InsReady(cd, keep)))
    case InsReady(cd, keep) =>
      var k := if keep then 1 else 0;
      Effect(Meta(cd, cd - k, false, Visible), d, Thread(t.handles + k, Idle))
  }

  function Using(m: Meta, d: Data, t: Thread, callback: bool): Effect
    requires t.pc.Undo? || t.pc.LookRead? || t.pc.LookHit? || t.pc.AppLoaded? || t.pc.AppHold?
  {
    match t.pc
    case Undo(n) => Effect(AddAcq(m, -n), d, t.(pc := Idle))
    case LookRead(key) =>
      Effect(m, d,
             if d.key != key then t.(pc := Undo(1))
             else if callback then t.(pc := LookHit(key)) else Thread(t.handles + 1, Idle))
    case LookHit(_) => Effect(m.(hit := true), d, Thread(t.handles + 1, Idle))
    case AppLoaded => Effect(AddAcq(m, 1), d, t.(pc := if Shareable(m.state) then AppHold else Idle))
    case AppHold => Effect(m, d, t.(pc := Undo(1)))
  }

  function Evicting(m: Meta, d: Data, t: Thread, spurious: bool): Effect
    requires t.pc.RelLoop? || t.pc.ClkLoaded? || t.pc.ScanLoaded?
  {
    match t.pc
    case RelLoop(e) =>
      if Refcount(e) != 0 then Effect(m, d, t.(pc := if Fires(e) then Correct else Idle))
      else if !Shareable(e.state) then Effect(m, d, t.(pc := Idle))
      else if m == e && !spurious then Effect(TAKEN, d, t.(pc := Freeing))
      else Effect(m, d, t.(pc := RelLoop(m)))
    case ClkLoaded(e) =>
      if e.state.Visible? && e.acq > 0 then
        var n := Min(e.acq - 1, MAX_COUNTDOWN - 1);
        Effect(if m == e then Meta(n, n, e.hit, Visible) else m, d, t.(pc := Idle))
      else if m == e then Effect(TAKEN.(hit := e.hit), d, t.(pc := Freeing))
      else Effect(m, d, t.(pc := Idle))
    case ScanLoaded(e) =>
      if m == e then Effect(TAKEN, d, t.(pc := Freeing)) else Effect(m, d, t.(pc := Idle))
  }

  function Erasing(m: Meta, d: Data, t: Thread, spurious: bool): Effect
    requires t.pc.EraRead? || t.pc.EraHide? || t.pc.EraLoop?
  {
    match t.pc
    case EraRead(key) => Effect(m, d, t.(pc := if d.key == key then EraHide(key) else Undo(1)))
    case EraHide(key) =>
      var m' := if m.state.Visible? then m.(state := Invisible) else m;
      Effect(m', d, t.(pc := EraLoop(key, m')))
    case EraLoop(key, e) =>
      if Refcount(e) > 1 then Effect(m, d, t.(pc := Undo(1)))
      else if m == e && !spurious then Effect(TAKEN, d, t.(pc := Freeing))
      else Effect(m, d, t.(pc := EraLoop(key, m)))
  }

  function Resume(m: Meta, d: Data, t: Thread, spurious: bool, callback: bool): Effect {
    match t.pc
    case InsProbe(_, _) | InsRead(_, _) | InsMatch(_) | InsOwn(_, _, _) | InsReady(_, _) => Inserting(m, d, t)
    case RelLoop(_) | ClkLoaded(_) | ScanLoaded(_) => Evicting(m, d, t, spurious)
    case EraRead(_) | EraHide(_) | EraLoop(_, _) => Erasing(m, d, t, spurious)
    case LookRead(_) | LookHit(_) | Undo(_) | AppLoaded | AppHold => Using(m, d, t, callback)
    case Freeing => Effect(Meta(0, 0, false, Empty), d, t.(pc := Idle))
    case Correct => Effect(m.(acq := ClearTop(m.acq), rel := ClearTop(m.rel)), d, t.(pc := Idle))
    case Idle => Effect(m, d, t)
  }

  // ---------------------------------------------------------------- the invariant

  ghost predicate ThreadOK(m: Meta, d: Data, t: Thread) {
    && t.handles >= 0 && Transient(t.pc) >= 0
    && match t.pc
       case InsProbe(_, cd) => 1 <= cd
       case InsRead(_, cd) => 1 <= cd
       case InsMatch(cd) => 1 <= cd
       case InsOwn(_, cd, _) => 1 <= cd
       case InsReady(cd, _) => 1 <= cd
       case LookHit(key) => d.key == key
       case EraHide(key) => d.key == key
       case EraLoop(key, e) => d.key == key && Refcount(e) > 0 && e.state == Invisible && m.state == Invisible
       case RelLoop(e) => e.rel <= e.acq
       case ClkLoaded(e) => Refcount(e) == 0 && Shareable(e.state)
       case ScanLoaded(e) => Refcount(e) == 0 && Shareable(e.state)
       case _ => true
  }

  // References are counted exactly, and a slot under construction has exactly one owner.
  ghost predicate Inv(s: Slot) {
    && 0 <= s.meta.rel <= s.meta.acq
    && Total(s.threads) == (if Shareable(s.meta.state) then Refcount(s.meta) else 0)
    && Owners(s.threads) == (if s.meta.state == Construction then 1 else 0)
    && forall i :: 0 <= i < |s.threads| ==> ThreadOK(s.meta, s.data, s.threads[i])
  }

  // ---------------------------------------------------------------- sums over threads

  lemma TotalAt(ts: seq<Thread>, i: int, t: Thread)
    requires 0 <= i < |ts|
    ensures Total(ts[i := t]) == Total(ts) - Held(ts[i]) + Held(t)
    ensures Owners(ts[i := t]) == Owners(ts) - Owns(ts[i].pc) + Owns(t.pc)
  {
    SumAt(ts, Held, i, t);
    SumAt(ts, Owning, i, t);
  }

  lemma TwoHold(ts: seq<Thread>, i: int, j: int)
    requires 0 <= i < j < |ts| && forall k :: 0 <= k < |ts| ==> Held(ts[k]) >= 0
    ensures Total(ts) >= Held(ts[i]) + Held(ts[j]) && Owners(ts) >= Owns(ts[i].pc) + Owns(ts[j].pc)
  {
    SumBound2(ts, Held, i, j);
    SumBound2(ts, Owning, i, j);
  }

  lemma Holding(s: Slot, i: int)
    requires Inv(s) && 0 <= i < |s.threads|
    ensures Held(s.threads[i]) >= 0
    ensures Held(s.threads[i]) > 0 ==> Shareable(s.meta.state) && Refcount(s.meta) >= Held(s.threads[i])
    ensures Owns(s.threads[i].pc) == 1 ==> s.meta.state == Construction
  {
    SumBound(s.threads, Held, i);
    SumBound(s.threads, Owning, i);
  }

  // ---------------------------------------------------------------- every step keeps the invariant

  function Counted(m: Meta): int { if Shareable(m.state) then Refcount(m) else 0 }

  function Claimed(m: Meta): int { if m.state == Construction then 1 else 0 }

  // What a thread about to step knows.
  ghost predicate Ready(m: Meta, d: Data, t: Thread) {
    && m.rel <= m.acq && ThreadOK(m, d, t) && Held(t) >= 0
    && (Held(t) > 0 ==> Shareable(m.state) && Refcount(m) >= Held(t))
    && (Owns(t.pc) == 1 ==> m.state == Construction)
  }

  // Nobody else holds a reference.
  ghost predicate Alone(m: Meta, t: Thread) { Counted(m) <= Held(t) }

  // A fair step: the thread's new place accounts for what the word gained or lost,
  // and unless nobody else holds a reference, holders see the same entry.
  ghost predicate Fair(m: Meta, d: Data, t: Thread, e: Effect) {
    && e.meta.rel <= e.meta.acq && ThreadOK(e.meta, e.data, e.thread)
    && Counted(e.meta) == Counted(m) - Held(t) + Held(e.thread)
    && Claimed(e.meta) == Claimed(m) - Owns(t.pc) + Owns(e.thread.pc)
    && (!Alone(m, t) ==> e.data == d && (m.state == Invisible ==> e.meta.state == Invisible))
  }

  lemma AboutTo(s: Slot, i: int)
    requires Inv(s) && 0 <= i < |s.threads|
    ensures Ready(s.meta, s.data, s.threads[i]) && 0 <= s.meta.rel && ThreadOK(s.meta, s.data, s.threads[i])
  {
    hide Total, Owners;
    Holding(s, i);
  }

  lemma Kept(s: Slot, i: int, e: Effect)
    requires Inv(s) && 0 <= i < |s.threads| && Fair(s.meta, s.data, s.threads[i], e) && 0 <= e.meta.rel
    ensures Inv(Slot(e.meta, e.data, s.threads[i := e.thread], s.callback))
  {
    hide Total, Owners;
    TotalAt(s.threads, i, e.thread);
    forall k | 0 <= k < |s.threads| && k != i ensures ThreadOK(e.meta, e.data, s.threads[k]) {
      TwoHold(s.threads, if k < i then k else i, if k < i then i else k);
    }
  }

  lemma CallFair(m: Meta, d: Data, t: Thread, l: Label, callback: bool)
    requires Ready(m, d, t) && t.pc.Idle? && !l.Advance? && !l.Give?
    requires (l.CallInsert? ==> 1 <= l.cd) && (l.CallRef? || l.CallRelease? ==> t.handles > 0)
    ensures Fair(m, d, t, Step(m, d, t, l, callback))
  {
    hide Fires;
  }

  lemma GiveKeeps(s: Slot, i: int, to: int)
    requires Inv(s) && Can(s, i, Give(to))
    ensures Inv(Next(s, i, Give(to)))
  {
    hide Total, Owners;
    var t, u := s.threads[i], s.threads[to];
    var ts := s.threads[i := t.(handles := t.handles - 1)];
    TotalAt(s.threads, i, t.(handles := t.handles - 1));
    TotalAt(ts, to, u.(handles := u.handles + 1));
  }

  lemma InsertFair(m: Meta, d: Data, t: Thread)
    requires Ready(m, d, t) && (t.pc.InsProbe? || t.pc.InsRead? || t.pc.InsMatch? || t.pc.InsOwn? || t.pc.InsReady?)
    ensures Fair(m, d, t, Inserting(m, d, t))
  {
    hide Fires;
  }

  // A step that leaves the word and what the thread holds as they are.
  lemma StayFair(m: Meta, d: Data, t: Thread, pc: PC)
    requires Ready(m, d, t) && ThreadOK(m, d, t.(pc := pc)) && Transient(pc) == Transient(t.pc)
    requires Owns(pc) == Owns(t.pc)
    ensures Fair(m, d, t, Effect(m, d, t.(pc := pc)))
  {
    hide ThreadOK, Transient;
  }

  // The exchanges that take a slot succeed only when nobody holds a reference,
  lemma TakenFair(m: Meta, d: Data, t: Thread, hit: bool)
    requires Ready(m, d, t) && Refcount(m) == 0 && Shareable(m.state) && Transient(t.pc) == Owns(t.pc) == 0
    ensures Fair(m, d, t, Effect(Meta(0, 0, hit, Construction), d, t.(pc := Freeing)))
  {
    assert Held(t) == 0 == t.handles;
  }

  lemma TakeFair(m: Meta, d: Data, t: Thread, spurious: bool)
    requires Ready(m, d, t) && (t.pc.RelLoop? || t.pc.ScanLoaded?)
    ensures Fair(m, d, t, Evicting(m, d, t, spurious))
  {
    hide Fair, Fires;
    var e := t.pc.m;
    if Refcount(e) == 0 && Shareable(e.state) && m == e && (t.pc.RelLoop? ==> !spurious) {
      TakenFair(m, d, t, false);
    } else {
      StayFair(m, d, t, Evicting(m, d, t, spurious).thread.pc);
    }
  }

  lemma TickFair(m: Meta, d: Data, t: Thread, n: int)
    requires Ready(m, d, t) && t.pc.ClkLoaded? && Refcount(m) == 0 && m.state.Visible?
    ensures Fair(m, d, t, Effect(Meta(n, n, m.hit, Visible), d, t.(pc := Idle)))
  {
  }

  lemma ClockFair(m: Meta, d: Data, t: Thread, spurious: bool)
    requires Ready(m, d, t) && t.pc.ClkLoaded?
    ensures Fair(m, d, t, Evicting(m, d, t, spurious))
  {
    hide Fair, Fires;
    if m != t.pc.m {
      StayFair(m, d, t, Idle);
    } else if m.state.Visible? && m.acq > 0 {
      TickFair(m, d, t, Min(m.acq - 1, MAX_COUNTDOWN - 1));
    } else {
      TakenFair(m, d, t, m.hit);
    }
  }

  // or, in an erase, when nobody else does.
  lemma EraseFair(m: Meta, d: Data, t: Thread, spurious: bool)
    requires Ready(m, d, t) && (t.pc.EraRead? || t.pc.EraHide? || t.pc.EraLoop?)
    ensures Fair(m, d, t, Erasing(m, d, t, spurious))
  {
    hide Fires;
  }

  lemma UseFair(m: Meta, d: Data, t: Thread, callback: bool)
    requires Ready(m, d, t) && (t.pc.LookRead? || t.pc.LookHit? || t.pc.Undo? || t.pc.AppLoaded? || t.pc.AppHold?)
    ensures Fair(m, d, t, Using(m, d, t, callback))
  {
    hide Fires;
  }

  lemma CorrectFair(m: Meta, d: Data, t: Thread)
    requires Ready(m, d, t) && t.pc.Correct? && TopsAgree(m)
    ensures Fair(m, d, t, Effect(m.(acq := ClearTop(m.acq), rel := ClearTop(m.rel)), d, t.(pc := Idle)))
  {
  }

  lemma FreeFair(m: Meta, d: Data, t: Thread)
    requires Ready(m, d, t) && t.pc.Freeing?
    ensures Fair(m, d, t, Effect(Meta(0, 0, false, Empty), d, t.(pc := Idle)))
  {
  }

  lemma ResumeFair(m: Meta, d: Data, t: Thread, spurious: bool, callback: bool)
    requires Ready(m, d, t) && !t.pc.Idle? && (t.pc.Correct? ==> TopsAgree(m))
    ensures Fair(m, d, t, Resume(m, d, t, spurious, callback))
  {
    hide Inserting, Using, Evicting, Erasing, Fair, Ready, ClearTop;
    match t.pc
    case InsProbe(_, _) | InsRead(_, _) | InsMatch(_) | InsOwn(_, _, _) | InsReady(_, _) => InsertFair(m, d, t);
    case RelLoop(_) | ScanLoaded(_) => TakeFair(m, d, t, spurious);
    case ClkLoaded(_) => ClockFair(m, d, t, spurious);
    case EraRead(_) | EraHide(_) | EraLoop(_, _) => EraseFair(m, d, t, spurious);
    case LookRead(_) | LookHit(_) | Undo(_) | AppLoaded | AppHold => UseFair(m, d, t, callback);
    case Freeing => FreeFair(m, d, t);
    case Correct => CorrectFair(m, d, t);
  }

  lemma ReleasedCount(m: Meta, d: Data, t: Thread, l: Label, callback: bool)
    requires 0 <= m.rel && ThreadOK(m, d, t)
    ensures 0 <= Step(m, d, t, l, callback).meta.rel
  {
    hide Fires;
  }

  predicate Corrects(s: Slot, i: int, l: Label)
    requires Can(s, i, l)
  {
    l.Advance? && s.threads[i].pc.Correct?
  }

  lemma StepKeeps(s: Slot, i: int, l: Label)
    requires Inv(s) && Can(s, i, l) && (Corrects(s, i, l) ==> TopsAgree(s.meta))
    ensures Inv(Next(s, i, l))
  {
    hide Inv, Resume, Fair, Ready;
    if l.Give? {
      GiveKeeps(s, i, l.to);
    } else {
      AboutTo(s, i);
      if l.Advance? {
        ResumeFair(s.meta, s.data, s.threads[i], l.spurious, s.callback);
      } else {
        CallFair(s.meta, s.data, s.threads[i], l, s.callback);
      }
      ReleasedCount(s.meta, s.data, s.threads[i], l, s.callback);
      Kept(s, i, Step(s.meta, s.data, s.threads[i], l, s.callback));
    }
  }

  // ---------------------------------------------------------------- runs

  datatype Run = Run(states: seq<Slot>, who: seq<int>, what: seq<Label>)

  // A run from an empty slot.  The counters stay within their bits, and when they are corrected their top bits agree.
  ghost predicate IsRun(r: Run) {
    && |r.states| == |r.who| + 1 == |r.what| + 1
    && Initial(r.states[0])
    && (forall k :: 0 <= k < |r.states| ==> InRange(r.states[k].meta))
    && forall k :: 0 <= k < |r.who| ==> IsStep(r.states[k], r.who[k], r.what[k], r.states[k + 1])
  }

  ghost predicate IsStep(s: Slot, i: int, l: Label, s2: Slot) {
    Can(s, i, l) && s2 == Next(s, i, l) && (Corrects(s, i, l) ==> TopsAgree(s.meta))
  }

  ghost predicate Initial(s: Slot) {
    s.meta == Meta(0, 0, false, Empty) && forall i :: 0 <= i < |s.threads| ==> s.threads[i] == Thread(0, Idle)
  }

  lemma {:induction false} Reached(r: Run, k: nat)
    requires IsRun(r) && k < |r.states|
    ensures Inv(r.states[k])
  {
    hide Inv, Next;
    if k == 0 {
      assert Inv(r.states[0]) by { InitialInv(r.states[0]); }
    } else {
      Reached(r, k - 1);
      assert IsStep(r.states[k - 1], r.who[k - 1], r.what[k - 1], r.states[k - 1 + 1]);
      StepKeeps(r.states[k - 1], r.who[k - 1], r.what[k - 1]);
    }
  }

  lemma InitialInv(s: Slot)
    requires Initial(s)
    ensures Inv(s)
  {
    SumZero(s.threads, Held);
    SumZero(s.threads, Owning);
  }

  // In every reachable state the references held by all threads are exactly the difference of the
  // counters, and the slot is under construction exactly when one thread owns it, with no reference held.
  lemma CountedExactly(r: Run, k: nat)
    requires IsRun(r) && k < |r.states|
    ensures var s := r.states[k];
      && (Shareable(s.meta.state) ==> Total(s.threads) == s.meta.acq - s.meta.rel)
      && (!Shareable(s.meta.state) ==>
            Total(s.threads) == 0 && forall i :: 0 <= i < |s.threads| ==> Held(s.threads[i]) == 0)
      && Owners(s.threads) == (if s.meta.state == Construction then 1 else 0)
      && (forall i, j :: 0 <= i < j < |s.threads| ==> !(Owns(s.threads[i].pc) == 1 && Owns(s.threads[j].pc) == 1))
  {
    hide Total, Owners;
    var s := r.states[k];
    Reached(r, k);
    forall i | 0 <= i < |s.threads| ensures !Shareable(s.meta.state) ==> Held(s.threads[i]) == 0 {
      Holding(s, i);
    }
    forall i, j | 0 <= i < j < |s.threads| ensures !(Owns(s.threads[i].pc) == 1 && Owns(s.threads[j].pc) == 1) {
      TwoHold(s.threads, i, j);
    }
  }

  // No step changes what a thread with a reference sees.
  lemma StepPreservesData(s: Slot, i: int, l: Label, j: int)
    requires Inv(s) && Can(s, i, l) && 0 <= j < |s.threads| && Held(s.threads[j]) > 0
    ensures Next(s, i, l).data == s.data
  {
    hide Total, Owners, Fires, ClearTop, Inv;
    Holding(s, i);
    Holding(s, j);
  }

  // While a thread keeps at least one reference, key and value stay as they are and the slot is not taken.
  lemma {:induction false} ReferencedIsStable(r: Run, j: int, a: nat, b: nat)
    requires IsRun(r) && a <= b < |r.states|
    requires forall k :: a <= k <= b ==> 0 <= j < |r.states[k].threads| && Held(r.states[k].threads[j]) > 0
    ensures r.states[b].data == r.states[a].data
    ensures forall k :: a <= k <= b ==> Shareable(r.states[k].meta.state)
    decreases b - a
  {
    hide Inv, Next, Total, Owners;
    Reached(r, b);
    Holding(r.states[b], j);
    if a < b {
      ReferencedIsStable(r, j, a, b - 1);
      Reached(r, b - 1);
      assert IsStep(r.states[b - 1], r.who[b - 1], r.what[b - 1], r.states[b - 1 + 1]);
      StepPreservesData(r.states[b - 1], r.who[b - 1], r.what[b - 1], j);
    }
  }

  // ---------------------------------------------------------------- the assertions in the code

  // Release and Ref find a shareable entry with a reference outstanding; Erase and Lookup hand out the key asked for.
  lemma AssertionsHold(r: Run, k: nat, i: int)
    requires IsRun(r) && k < |r.states| && 0 <= i < |r.states[k].threads|
    ensures var s, t := r.states[k], r.states[k].threads[i];
      && (t.handles > 0 ==> Shareable(s.meta.state) && s.meta.acq != s.meta.rel)
      && (t.pc.Undo? && t.pc.n > 0 ==> Refcount(s.meta) > 0)
      && (t.pc.EraLoop? ==> Refcount(t.pc.m) > 0 && s.data.key == t.pc.key)
      && (t.pc.LookHit? ==> s.data.key == t.pc.key)
      && (t.pc.InsReady? || t.pc.Freeing? ==> s.meta.state == Construction)
  {
    hide Total, Owners;
    Reached(r, k);
    Holding(r.states[k], i);
  }

  // ---------------------------------------------------------------- near overflow

  // Clearing the top bits keeps the count of references exactly when both counters have theirs set or neither.
  lemma CorrectionExact(m: Meta)
    requires InRange(m)
    ensures ClearTop(m.acq) - ClearTop(m.rel) == m.acq - m.rel <==> TopsAgree(m)
  {
  }

  // Of a live entry the correction keeps the invariant exactly then.
  lemma CorrectExact(s: Slot, i: int, spurious: bool)
    requires Inv(s) && Can(s, i, Advance(spurious)) && s.threads[i].pc.Correct? && InRange(s.meta)
    requires Shareable(s.meta.state)
    ensures Inv(Next(s, i, Advance(spurious))) <==> TopsAgree(s.meta)
  {
    if TopsAgree(s.meta) {
      StepKeeps(s, i, Advance(spurious));
    } else {
      CorrectionExact(s.meta);
      TotalAt(s.threads, i, s.threads[i].(pc := Idle));
    }
  }
}
