/** MurmurHash3_x86_32 over bytes: what a single differing block, or tail, does to the hash. */
module MurmurHash {
  import opened Murmur

  ghost predicate Bytes(key: seq<int>) {
    |key| < 0x8000_0000 && forall i :: 0 <= i < |key| ==> 0 <= key[i] < 256
  }

  // The i-th four bytes, lowest first.
  function Block(key: seq<int>, i: nat): int
    requires 4 * i + 4 <= |key|
  {
    key[4 * i] + 0x100 * key[4 * i + 1] + 0x1_0000 * key[4 * i + 2] + 0x100_0000 * key[4 * i + 3]
  }

  lemma BlockWord(key: seq<int>, i: nat)
    requires Bytes(key) && 4 * i + 4 <= |key|
    ensures Word(Block(key, i))
  {
  }

  // The hash after the first n blocks.
  ghost function Body(key: seq<int>, seed: nat, n: nat): (h: nat)
    requires Bytes(key) && 4 * n <= |key| && Word(seed)
    ensures Word(h)
  {
    if n == 0 then seed
    else
      BlockWord(key, n - 1);
      StepWord(Body(key, seed, n - 1), Block(key, n - 1));
      Step(Body(key, seed, n - 1), Block(key, n - 1))
  }

  // The last one to three bytes.
  function Tail(key: seq<int>): int {
    var n, t := |key| / 4 * 4, |key| % 4;
    (if t >= 3 then key[n + 2] * 0x1_0000 else 0) + (if t >= 2 then key[n + 1] * 0x100 else 0)
    + (if t >= 1 then key[n] else 0)
  }

  lemma TailWord(key: seq<int>)
    requires Bytes(key)
    ensures Word(Tail(key))
  {
  }

  function WithTail(key: seq<int>, h: nat): nat
    requires Tail(key) >= 0
  {
    if |key| % 4 == 0 then h else Xor(h, Scramble(Tail(key)))
  }

  ghost function Hash(key: seq<int>, seed: nat): nat
    requires Bytes(key) && Word(seed)
  {
    TailWord(key);
    Fmix(Xor(WithTail(key, Body(key, seed, |key| / 4)), |key|))
  }

  method MurmurHash3_x86_32(key: seq<int>, seed: nat) returns (out: nat)
    requires Bytes(key) && Word(seed)
    ensures out == Hash(key, seed)
  {
    hide Step, Fmix, Xor, Scramble;
    var nblocks := |key| / 4;
    var h := seed;
    var i := 0;
    while i < nblocks
      invariant 0 <= i <= nblocks && h == Body(key, seed, i)
    {
      BlockWord(key, i);
      h := Step(h, Block(key, i));
      i := i + 1;
    }
    var k, n := 0, nblocks * 4;
    if |key| % 4 >= 3 {
      k := k + key[n + 2] * 0x1_0000;
    }
    if |key| % 4 >= 2 {
      k := k + key[n + 1] * 0x100;
    }
    if |key| % 4 >= 1 {
      k := k + key[n];
      h := Xor(h, Scramble(k));
    }
    out := Fmix(Xor(h, |key|));
  }

  // ---------------------------------------------------------------- telling keys apart

  lemma {:induction false} SameBody(key: seq<int>, key2: seq<int>, seed: nat, n: nat)
    requires Bytes(key) && Bytes(key2) && Word(seed) && 4 * n <= |key| == |key2|
    requires forall j :: 0 <= j < 4 * n ==> key[j] == key2[j]
    ensures Body(key, seed, n) == Body(key2, seed, n)
  {
    hide Step;
    if n > 0 {
      SameBody(key, key2, seed, n - 1);
    }
  }

  // Blocks after the i-th being equal, equal hashes after them mean equal hashes before.
  lemma {:induction false} BodyBack(key: seq<int>, key2: seq<int>, seed: nat, i: nat, n: nat)
    requires Bytes(key) && Bytes(key2) && Word(seed) && i <= n && 4 * n <= |key| == |key2|
    requires forall j :: 4 * i <= j < 4 * n ==> key[j] == key2[j]
    requires Body(key, seed, n) == Body(key2, seed, n)
    ensures Body(key, seed, i) == Body(key2, seed, i)
    decreases n
  {
    hide Step;
    if i < n {
      BlockWord(key, n - 1);
      BlockWord(key2, n - 1);
      assert Block(key, n - 1) == Block(key2, n - 1);
      StepInjective(Body(key, seed, n - 1), Block(key, n - 1), Body(key2, seed, n - 1), Block(key2, n - 1));
      BodyBack(key, key2, seed, i, n - 1);
    }
  }

  lemma BlockInjective(key: seq<int>, key2: seq<int>, i: nat)
    requires Bytes(key) && Bytes(key2) && |key| == |key2| && 4 * i + 4 <= |key| && Block(key, i) == Block(key2, i)
    ensures forall j :: 4 * i <= j < 4 * i + 4 ==> key[j] == key2[j]
  {
    var a, b, c, d := key[4 * i], key[4 * i + 1], key[4 * i + 2], key[4 * i + 3];
    var a2, b2, c2, d2 := key2[4 * i], key2[4 * i + 1], key2[4 * i + 2], key2[4 * i + 3];
    Digits(a, b + 0x100 * (c + 0x100 * d), a2, b2 + 0x100 * (c2 + 0x100 * d2));
    Digits(b, c + 0x100 * d, b2, c2 + 0x100 * d2);
    Digits(c, d, c2, d2);
  }

  lemma Digits(a: int, rest: int, b: int, rest2: int)
    requires 0 <= a < 0x100 && 0 <= b < 0x100 && a + 0x100 * rest == b + 0x100 * rest2
    ensures a == b && rest == rest2
  {
  }

  // Undoing the end of the hash, for keys of one length.
  lemma HashBack(key: seq<int>, key2: seq<int>, seed: nat)
    requires Bytes(key) && Bytes(key2) && Word(seed) && |key| == |key2| && Hash(key, seed) == Hash(key2, seed)
    ensures Tail(key) >= 0 && Tail(key2) >= 0
    ensures WithTail(key, Body(key, seed, |key| / 4)) == WithTail(key2, Body(key2, seed, |key| / 4))
  {
    hide Fmix, Xor, Scramble, Body;
    TailWord(key);
    TailWord(key2);
    var x, y := WithTail(key, Body(key, seed, |key| / 4)), WithTail(key2, Body(key2, seed, |key| / 4));
    MixedWord(key, Body(key, seed, |key| / 4));
    MixedWord(key2, Body(key2, seed, |key| / 4));
    XorWord(x, |key|);
    XorWord(y, |key|);
    FmixInjective(Xor(x, |key|), Xor(y, |key|));
    XorCancelsRight(x, y, |key|);
  }

  lemma MixedWord(key: seq<int>, h: nat)
    requires Bytes(key) && Word(h)
    ensures Tail(key) >= 0 && Word(WithTail(key, h))
  {
    hide Xor, Scramble;
    TailWord(key);
    ScrambleWord(Tail(key));
    XorWord(h, Scramble(Tail(key)));
  }

  // Keys that differ only within one aligned block have different hashes.
  lemma OneBlockDecides(key: seq<int>, key2: seq<int>, seed: nat, i: nat)
    requires Bytes(key) && Bytes(key2) && Word(seed) && |key| == |key2| && i < |key| / 4
    requires forall j :: 0 <= j < |key| && !(4 * i <= j < 4 * i + 4) ==> key[j] == key2[j]
    requires Hash(key, seed) == Hash(key2, seed)
    ensures key == key2
  {
    hide Xor, Scramble, Body, Hash, Step;
    var n := |key| / 4;
    HashBack(key, key2, seed);
    assert Tail(key) == Tail(key2);
    if |key| % 4 != 0 {
      XorCancelsRight(Body(key, seed, n), Body(key2, seed, n), Scramble(Tail(key)));
    }
    BodyBack(key, key2, seed, i + 1, n);
    SameBody(key, key2, seed, i);
    BlockWord(key, i);
    BlockWord(key2, i);
    BodyStep(key, seed, i);
    BodyStep(key2, seed, i);
    StepInjective(Body(key, seed, i), Block(key, i), Body(key2, seed, i), Block(key2, i));
    BlockInjective(key, key2, i);
  }

  lemma BodyStep(key: seq<int>, seed: nat, n: nat)
    requires Bytes(key) && 4 * n + 4 <= |key| && Word(seed)
    ensures Word(Block(key, n)) && Body(key, seed, n + 1) == Step(Body(key, seed, n), Block(key, n))
  {
    BlockWord(key, n);
  }

  // Keys that differ only in the tail have different hashes.
  lemma TailDecides(key: seq<int>, key2: seq<int>, seed: nat)
    requires Bytes(key) && Bytes(key2) && Word(seed) && |key| == |key2|
    requires forall j :: 0 <= j < |key| / 4 * 4 ==> key[j] == key2[j]
    requires Hash(key, seed) == Hash(key2, seed)
    ensures key == key2
  {
    hide Xor, Scramble, Body, Hash, Step;
    HashBack(key, key2, seed);
    SameBody(key, key2, seed, |key| / 4);
    if |key| % 4 != 0 {
      TailWord(key);
      TailWord(key2);
      XorCancelsLeft(Body(key, seed, |key| / 4), Scramble(Tail(key)), Scramble(Tail(key2)));
      ScrambleInjective(Tail(key), Tail(key2));
      TailInjective(key, key2);
    }
  }

  lemma TailInjective(key: seq<int>, key2: seq<int>)
    requires Bytes(key) && Bytes(key2) && |key| == |key2| && Tail(key) == Tail(key2)
    ensures forall j :: |key| / 4 * 4 <= j < |key| ==> key[j] == key2[j]
  {
    var n, t := |key| / 4 * 4, |key| % 4;
    assert t >= 1 ==> key[n] == key2[n];
    assert t >= 2 ==> key[n + 1] == key2[n + 1];
    assert t >= 3 ==> key[n + 2] == key2[n + 2];
  }
}
