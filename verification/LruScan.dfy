/** Scanning a shard's table piece by piece, with the table growing in between. */
module LruScan {
  import opened Arith

  const END := 0xffff_ffff_ffff_ffff      // SIZE_MAX

  // Buckets are chosen by the upper bits of a 32-bit hash.
  function Bucket(bits: nat, hash: nat): nat
    requires bits <= 32
  {
    Quotient(hash, Pow2(32 - bits))
  }

  // One call of ApplyToSomeEntries: the table's length bits, the bound given, the state before and after.
  datatype Call = Call(bits: nat, count: nat, before: nat, after: nat)

  function Begin(c: Call): nat
    requires c.bits <= 31
  {
    Quotient(c.before, Pow2(64 - c.bits))
  }

  function Finish(c: Call): nat
    requires c.bits <= 31
  {
    var end := Begin(c) + c.count;
    if end >= Pow2(c.bits) then Pow2(c.bits) else end
  }

  ghost predicate Performed(c: Call) {
    && c.bits <= 31 && c.count > 0 && c.before < END
    && c.after == if Begin(c) + c.count >= Pow2(c.bits) then END else (Begin(c) + c.count) * Pow2(64 - c.bits)
  }

  predicate Visits(c: Call, hash: nat)
    requires c.bits <= 31
  {
    Begin(c) <= Bucket(c.bits, hash) < Finish(c)
  }

  // A whole scan: from state zero until the end is signalled, the table never shrinking.
  ghost predicate Scan(cs: seq<Call>) {
    && |cs| > 0 && cs[0].before == 0 && cs[|cs| - 1].after == END
    && (forall i :: 0 <= i < |cs| ==> Performed(cs[i]))
    && (forall i :: 0 <= i < |cs| - 1 ==>
          cs[i].after != END && cs[i + 1].before == cs[i].after && cs[i].bits <= cs[i + 1].bits)
  }

  // ---------------------------------------------------------------- powers and positions

  // Where a hash stands among all states.
  function Position(hash: nat): nat { hash * Pow2(32) }

  lemma Scaled(x: nat, n: nat, k: nat)
    requires n > 0 && k > 0
    ensures n * k > 0 && (x * k) / (n * k) == x / n
  {
    var q, r := x / n, x % n;
    assert x * k == r * k + q * (n * k);
    assert 0 <= r * k < n * k by { Less(r, n, k); }
    Split(r * k, q, n * k);
  }

  lemma Less(r: nat, n: nat, k: nat)
    requires r < n && k > 0
    ensures r * k < n * k
  {
  }

  lemma BucketPosition(bits: nat, hash: nat)
    requires bits <= 31
    ensures Bucket(bits, hash) == Position(hash) / Pow2(64 - bits)
  {
    hide Pow2;
    PowAdd(32 - bits, 32);
    assert 32 - bits + 32 == 64 - bits;
    Scaled(hash, Pow2(32 - bits), Pow2(32));
  }

  // x lies in the i-th block of n, or later.
  lemma Blocks(x: nat, i: nat, n: nat)
    requires n > 0
    ensures i <= x / n <==> i * n <= x
  {
    var q, r := x / n, x % n;
    assert x == q * n + r;
    if i <= q {
      assert i * n <= q * n by { if i < q { Less(i, q, n); } }
    } else {
      assert (q + 1) * n <= i * n by { if q + 1 < i { Less(q + 1, i, n); } }
    }
  }

  // ---------------------------------------------------------------- a scan covers every hash once

  // The state before a call is on a bucket boundary of the table it finds.
  lemma {:induction false} Aligned(cs: seq<Call>, i: nat)
    requires Scan(cs) && i < |cs|
    ensures Begin(cs[i]) * Pow2(64 - cs[i].bits) == cs[i].before
  {
    hide Pow2;
    if i == 0 {
      Split(0, 0, Pow2(64 - cs[0].bits));
    } else {
      var c, d := cs[i - 1], cs[i];
      assert c.after != END && d.before == c.after && c.bits <= d.bits;
      var k, n := Pow2(d.bits - c.bits), Pow2(64 - d.bits);
      PowAdd(d.bits - c.bits, 64 - d.bits);
      assert d.bits - c.bits + (64 - d.bits) == 64 - c.bits;
      var e := Begin(c) + c.count;
      assert d.before == e * (k * n) == (e * k) * n by { Regroup(e, k, n); }
      Split(0, e * k, n);
    }
  }

  lemma Regroup(e: nat, k: nat, n: nat)
    ensures e * (k * n) == (e * k) * n
  {
  }

  // A call visits the hashes whose position is at or after the state before it and before the state after it.
  lemma VisitsInterval(cs: seq<Call>, i: nat, hash: nat)
    requires Scan(cs) && i < |cs| && hash < Pow2(32)
    ensures Visits(cs[i], hash)
      <==> cs[i].before <= Position(hash) && (cs[i].after == END || Position(hash) < cs[i].after)
  {
    hide Pow2;
    var c := cs[i];
    var n, x := Pow2(64 - c.bits), Position(hash);
    Aligned(cs, i);
    BucketPosition(c.bits, hash);
    Blocks(x, Begin(c), n);
    Blocks(x, Begin(c) + c.count, n);
    LastBucket(c.bits, hash);
    NotTheEnd(c);
  }

  lemma LastBucket(bits: nat, hash: nat)
    requires bits <= 31 && hash < Pow2(32)
    ensures Bucket(bits, hash) < Pow2(bits)
  {
    hide Pow2;
    PowAdd(bits, 32 - bits);
    assert bits + (32 - bits) == 32;
    Blocks(hash, Pow2(bits), Pow2(32 - bits));
  }

  // A state that is a bucket boundary is never mistaken for the end.
  lemma BoundaryIsEven(e: nat, bits: nat)
    requires bits <= 31
    ensures (e * Pow2(64 - bits)) % 2 == 0
  {
    hide Pow2;
    PowAdd(1, 63 - bits);
    PowOne();
    assert 1 + (63 - bits) == 64 - bits;
    Regroup(e, 2, Pow2(63 - bits));
    assert e * Pow2(64 - bits) == 2 * (e * Pow2(63 - bits));
  }

  lemma NotTheEnd(c: Call)
    requires Performed(c)
    ensures c.after == END <==> Begin(c) + c.count >= Pow2(c.bits)
  {
    hide Pow2;
    BoundaryIsEven(Begin(c) + c.count, c.bits);
  }

  lemma StateBound(c: Call)
    requires Performed(c)
    ensures c.after <= END
  {
    hide Pow2;
    Pow32();
    PowAdd(32, 32);
    PowAdd(c.bits, 64 - c.bits);
    assert c.bits + (64 - c.bits) == 64;
    if Begin(c) + c.count < Pow2(c.bits) {
      Less(Begin(c) + c.count, Pow2(c.bits), Pow2(64 - c.bits));
    }
  }

  // The states ascend, so intervals do not overlap and leave no gap.
  lemma {:induction false} StatesAscend(cs: seq<Call>, i: nat, j: nat)
    requires Scan(cs) && i < j < |cs|
    ensures cs[i].after <= cs[j].before
    decreases j
  {
    hide Pow2;
    if i < j - 1 {
      StatesAscend(cs, i, j - 1);
      Ascends(cs, j - 1);
    }
  }

  lemma CallAscends(c: Call)
    requires Performed(c)
    ensures c.before < c.after
  {
    hide Pow2;
    var n := Pow2(64 - c.bits);
    Ceiling(c.before, n);
    if c.count > 1 {
      Less(Begin(c) + 1, Begin(c) + c.count, n);
    }
  }

  lemma Ceiling(x: nat, n: nat)
    requires n > 0
    ensures x < (Quotient(x, n) + 1) * n
  {
    assert (x / n + 1) * n == x / n * n + n;
  }

  lemma Ascends(cs: seq<Call>, i: nat)
    requires Scan(cs) && i < |cs| - 1
    ensures cs[i].before < cs[i].after == cs[i + 1].before
  {
    hide Pow2;
    var c := cs[i];
    Aligned(cs, i);
    Less(Begin(c), Begin(c) + c.count, Pow2(64 - c.bits));
  }

  lemma {:induction false} FindCall(cs: seq<Call>, i: nat, hash: nat) returns (k: nat)
    requires Scan(cs) && i < |cs| && hash < Pow2(32) && cs[i].before <= Position(hash)
    ensures i <= k < |cs| && Visits(cs[k], hash)
    decreases |cs| - i
  {
    hide Pow2;
    VisitsInterval(cs, i, hash);
    if Visits(cs[i], hash) {
      k := i;
    } else {
      assert cs[i].after != END && i < |cs| - 1;
      k := FindCall(cs, i + 1, hash);
    }
  }

  // An entry that is in the table throughout is visited by exactly one call of the scan.
  lemma ExactlyOnce(cs: seq<Call>, hash: nat) returns (k: nat)
    requires Scan(cs) && hash < Pow2(32)
    ensures k < |cs| && Visits(cs[k], hash)
    ensures forall i :: 0 <= i < |cs| && i != k ==> !Visits(cs[i], hash)
  {
    hide Pow2;
    k := FindCall(cs, 0, hash);
    VisitsInterval(cs, k, hash);
    forall i | 0 <= i < |cs| && i != k ensures !Visits(cs[i], hash) {
      VisitsInterval(cs, i, hash);
      if i < k {
        StatesAscend(cs, i, k);
      } else {
        StatesAscend(cs, k, i);
      }
    }
  }
}
