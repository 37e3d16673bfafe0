/** Double hashing over a table whose size is a power of two. */
module ClockProbe {
  import opened Arith

  datatype Key = Key(h0: nat, h1: nat)   // hashed_key[0] and hashed_key[1]

  // hashed_key[0] | 1
  function Increment(k: Key): (r: nat)
    ensures r % 2 == 1
  {
    if k.h0 % 2 == 1 then k.h0 else k.h0 + 1
  }

  function First(bits: nat, k: Key): nat { k.h1 % Pow2(bits) }

  function After(bits: nat, k: Key, current: nat): nat { (current + Increment(k)) % Pow2(bits) }

  // The i-th slot probed.
  function Probe(bits: nat, k: Key, i: nat): (s: nat)
    ensures s < Pow2(bits)
  {
    if i == 0 then First(bits, k) else After(bits, k, Probe(bits, k, i - 1))
  }

  // ---------------------------------------------------------------- arithmetic modulo the table size

  lemma ModAdd(x: nat, y: nat, n: nat)
    requires n > 0
    ensures (x % n + y) % n == (x + y) % n
  {
    var q, r := (x % n + y) / n, (x % n + y) % n;
    assert x + y == (x / n + q) * n + r;
    Split(r, x / n + q, n);
  }

  lemma {:induction false} ProbeClosed(bits: nat, k: Key, i: nat)
    ensures Probe(bits, k, i) == (k.h1 + i * Increment(k)) % Pow2(bits)
  {
    if i > 0 {
      ProbeClosed(bits, k, i - 1);
      var x, inc := k.h1 + (i - 1) * Increment(k), Increment(k);
      ModAdd(x, inc, Pow2(bits));
      assert x + inc == k.h1 + i * Increment(k);
    }
  }

  // No slot is probed twice within one round.
  lemma ProbeInjective(bits: nat, k: Key, i: nat, j: nat)
    requires i < j < Pow2(bits)
    ensures Probe(bits, k, i) != Probe(bits, k, j)
  {
    hide Probe, Pow2;
    ProbeClosed(bits, k, i);
    ProbeClosed(bits, k, j);
    NotCongruent(bits, k.h1, Increment(k), i, j);
  }

  lemma NotCongruent(bits: nat, base: nat, inc: nat, i: nat, j: nat)
    requires i < j < Pow2(bits) && inc % 2 == 1
    ensures (base + i * inc) % Pow2(bits) != (base + j * inc) % Pow2(bits)
  {
    hide Pow2;
    var n, x, y := Pow2(bits), base + i * inc, base + j * inc;
    if x % n == y % n {
      assert y == x + inc * (j - i);
      var m := SameResidue(x, y, n);
      OddCancels(bits, inc, j - i, m);
      var q: nat :| j - i == q * n;
      if q >= 1 {
        Product(q, n);
      }
    }
  }

  lemma ProbeCycle(bits: nat, k: Key)
    ensures Probe(bits, k, Pow2(bits)) == First(bits, k)
  {
    hide Probe, Pow2;
    ProbeClosed(bits, k, Pow2(bits));
    FullTurn(k.h1, Increment(k), Pow2(bits));
  }

  lemma FullTurn(x: nat, m: nat, n: nat)
    requires n > 0
    ensures (x + n * m) % n == x % n
  {
    assert x + n * m == (x / n + m) * n + x % n;
    Split(x % n, x / n + m, n);
  }

  // ---------------------------------------------------------------- every slot is probed

  ghost function Probed(bits: nat, k: Key, i: nat): set<nat> {
    if i == 0 then {} else Probed(bits, k, i - 1) + {Probe(bits, k, i - 1)}
  }

  lemma {:induction false} ProbedHas(bits: nat, k: Key, i: nat, s: nat) returns (j: nat)
    requires s in Probed(bits, k, i)
    ensures j < i && Probe(bits, k, j) == s
  {
    if s == Probe(bits, k, i - 1) {
      j := i - 1;
    } else {
      j := ProbedHas(bits, k, i - 1, s);
    }
  }

  lemma {:induction false} ProbedSize(bits: nat, k: Key, i: nat)
    requires i <= Pow2(bits)
    ensures |Probed(bits, k, i)| == i
  {
    if i > 0 {
      ProbedSize(bits, k, i - 1);
      if Probe(bits, k, i - 1) in Probed(bits, k, i - 1) {
        var j := ProbedHas(bits, k, i - 1, Probe(bits, k, i - 1));
        ProbeInjective(bits, k, j, i - 1);
      }
    }
  }

  ghost function Below(n: nat): set<nat> {
    if n == 0 then {} else Below(n - 1) + {n - 1}
  }

  lemma {:induction false} BelowMember(n: nat, x: nat)
    ensures x in Below(n) <==> x < n
  {
    if n > 0 {
      BelowMember(n - 1, x);
    }
  }

  lemma {:induction false} BelowSize(n: nat)
    ensures |Below(n)| == n
  {
    if n > 0 {
      BelowSize(n - 1);
      BelowMember(n - 1, n - 1);
    }
  }

  lemma SameSize(a: set<nat>, b: set<nat>)
    requires a <= b && |a| == |b|
    ensures a == b
  {
    assert b == a + (b - a);
    assert |b - a| == 0;
  }

  // The number of probes before slot s is reached.
  lemma ProbeReaches(bits: nat, k: Key, s: nat) returns (i: nat)
    requires s < Pow2(bits)
    ensures i < Pow2(bits) && Probe(bits, k, i) == s
  {
    hide Probe, Pow2, Probed, Below;
    var n := Pow2(bits);
    ProbedSize(bits, k, n);
    BelowSize(n);
    forall x | x in Probed(bits, k, n) ensures x in Below(n) {
      var j := ProbedHas(bits, k, n, x);
      BelowMember(n, x);
    }
    SameSize(Probed(bits, k, n), Below(n));
    BelowMember(n, s);
    i := ProbedHas(bits, k, n, s);
  }
}
