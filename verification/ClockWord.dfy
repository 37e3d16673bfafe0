/** The 64-bit meta word of a slot, and why its fields can be reasoned about one by one. */
module ClockWord {
  import opened Arith
  import opened ClockSlot

  const COUNTER := 0x4000_0000                  // 1 << kCounterNumBits
  const HIT := 0x1000_0000_0000_0000            // 1 << kHitBitShift
  const STATE := 0x2000_0000_0000_0000          // 1 << kStateShift
  const WORD := 0x1_0000_0000_0000_0000

  function Marker(s: State): int {
    match s
    case Empty => 0
    case Construction => 4
    case Invisible => 6
    case Visible => 7
  }

  ghost predicate Fits(m: Meta) { 0 <= m.acq < COUNTER && 0 <= m.rel < COUNTER }

  function Pack(m: Meta): int {
    m.acq + m.rel * COUNTER + (if m.hit then HIT else 0) + Marker(m.state) * STATE
  }

  // Every field can be read back from the word, which fits in 64 bits.
  lemma Fields(m: Meta)
    requires Fits(m)
    ensures 0 <= Pack(m) < WORD
    ensures Pack(m) % COUNTER == m.acq
    ensures (Pack(m) / COUNTER) % COUNTER == m.rel
    ensures Pack(m) / HIT % 2 == (if m.hit then 1 else 0)
    ensures Pack(m) / STATE == Marker(m.state)
  {
    var h := if m.hit then 1 else 0;
    var top := h + 2 * Marker(m.state);
    var high := m.rel + top * COUNTER;
    assert Pack(m) == m.acq + high * COUNTER;
    Split(m.acq, high, COUNTER);
    Split(m.rel, top, COUNTER);
    assert Pack(m) == (m.acq + m.rel * COUNTER) + top * HIT;
    Split(m.acq + m.rel * COUNTER, top, HIT);
    assert Pack(m) == (m.acq + m.rel * COUNTER + h * HIT) + Marker(m.state) * STATE;
    Split(m.acq + m.rel * COUNTER + h * HIT, Marker(m.state), STATE);
  }

  // Comparing words is comparing fields, so an exchange on the word is one on the fields.
  lemma PackInjective(m: Meta, n: Meta)
    requires Fits(m) && Fits(n) && Pack(m) == Pack(n)
    ensures m == n
  {
    Fields(m);
    Fields(n);
  }

  // fetch_add and fetch_sub on one counter leave the other fields alone, as long as the counter stays in range.
  lemma AddsAreLocal(m: Meta, n: int)
    requires Fits(m) && 0 <= n
    ensures m.acq + n < COUNTER ==> Fits(AddAcq(m, n)) && (Pack(m) + n) % WORD == Pack(AddAcq(m, n))
    ensures m.rel + n < COUNTER ==> Fits(AddRel(m, n)) && (Pack(m) + n * COUNTER) % WORD == Pack(AddRel(m, n))
    ensures n <= m.acq ==> Fits(AddAcq(m, -n)) && (Pack(m) - n) % WORD == Pack(AddAcq(m, -n))
  {
    if m.acq + n < COUNTER {
      Fields(AddAcq(m, n));
      Split(Pack(AddAcq(m, n)), 0, WORD);
    }
    if m.rel + n < COUNTER {
      Fields(AddRel(m, n));
      Split(Pack(AddRel(m, n)), 0, WORD);
    }
    if n <= m.acq {
      Fields(AddAcq(m, -n));
      Split(Pack(AddAcq(m, -n)), 0, WORD);
    }
  }

  // GetRefcount subtracts whole words and masks.
  lemma RefcountMasked(m: Meta)
    requires Fits(m) && m.rel <= m.acq
    ensures (Pack(m) - Pack(m) / COUNTER) % COUNTER == Refcount(m)
  {
    Fields(m);
    var high := Pack(m) / COUNTER;
    var top := high / COUNTER;
    assert Pack(m) == m.acq + high * COUNTER && high == m.rel + top * COUNTER;
    assert Pack(m) - high == Refcount(m) + (high - top) * COUNTER;
    Split(Refcount(m), high - top, COUNTER);
  }

  // A carry out of the acquire counter lands in the release counter.
  lemma CarryMisreads()
    ensures var m := Meta(COUNTER - 1, 0, false, Visible);
      Fits(m) && Pack(m) + 1 == Pack(Meta(0, 1, false, Visible))
  {
  }
}
