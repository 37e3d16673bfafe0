/**
  MurmurHash3_x86_32 on 32-bit words: every mixing step after a difference is a bijection.

  Words are naturals below 2^32, handled bit by bit; an or, or an exclusive or, of words with no
  bit in common is their sum, and is written so.
 */
module Murmur {
  import opened Arith

  const WORD := 0x1_0000_0000

  predicate Word(x: int) { 0 <= x < WORD }

  // ---------------------------------------------------------------- exclusive or and shifts

  function Xor(a: nat, b: nat): nat {
    if a == 0 && b == 0 then 0 else (a % 2 + b % 2) % 2 + 2 * Xor(a / 2, b / 2)
  }

  // x >> s
  function Shr(x: nat, s: nat): nat {
    if s == 0 then x else Shr(x / 2, s - 1)
  }

  lemma XorBits(a: nat, b: nat)
    ensures Xor(a, b) % 2 == (a % 2 + b % 2) % 2 && Xor(a, b) / 2 == Xor(a / 2, b / 2)
  {
  }

  lemma {:induction false} XorUndo(a: nat, b: nat)
    ensures Xor(a, Xor(a, b)) == b
    decreases a + b
  {
    if a != 0 || b != 0 {
      XorUndo(a / 2, b / 2);
      XorUndoStep(a, b);
    }
  }

  lemma XorUndoStep(a: nat, b: nat)
    requires Xor(a / 2, Xor(a / 2, b / 2)) == b / 2
    ensures Xor(a, Xor(a, b)) == b
  {
    hide Xor;
    XorBits(a, b);
    XorBits(a, Xor(a, b));
  }

  lemma {:induction false} XorSwap(a: nat, b: nat)
    ensures Xor(a, b) == Xor(b, a)
  {
    if a != 0 || b != 0 {
      XorSwap(a / 2, b / 2);
    }
  }

  lemma {:induction false} XorBound(a: nat, b: nat, bits: nat)
    requires a < Pow2(bits) && b < Pow2(bits)
    ensures Xor(a, b) < Pow2(bits)
  {
    if a != 0 || b != 0 {
      XorBound(a / 2, b / 2, bits - 1);
    }
  }

  lemma {:induction false} XorShift(a: nat, b: nat, s: nat)
    ensures Shr(Xor(a, b), s) == Xor(Shr(a, s), Shr(b, s))
  {
    if s > 0 {
      XorShift(a / 2, b / 2, s - 1);
      XorBits(a, b);
    }
  }

  lemma XorCancelsLeft(a: nat, x: nat, y: nat)
    requires Xor(a, x) == Xor(a, y)
    ensures x == y
  {
    hide Xor;
    XorUndo(a, x);
    XorUndo(a, y);
  }

  lemma XorCancelsRight(a: nat, b: nat, x: nat)
    requires Xor(a, x) == Xor(b, x)
    ensures a == b
  {
    hide Xor;
    XorSwap(a, x);
    XorSwap(b, x);
    XorCancelsLeft(x, a, b);
  }

  lemma {:induction false} ShrSmaller(x: nat, s: nat)
    ensures Shr(x, s) <= x && (x > 0 && s > 0 ==> Shr(x, s) < x)
  {
    if s > 0 {
      ShrSmaller(x / 2, s - 1);
    }
  }

  // ---------------------------------------------------------------- the steps of the mixers

  // h ^ (h >> s)
  function Fold(h: nat, s: nat): nat { Xor(h, Shr(h, s)) }

  // The upper bits of a fold are the fold of the upper bits, so the word can be read off from the top.
  lemma {:induction false} FoldInjective(x: nat, y: nat, s: nat)
    requires s > 0 && Fold(x, s) == Fold(y, s)
    ensures x == y
    decreases x + y
  {
    if x > 0 || y > 0 {
      hide Xor, Shr;
      XorShift(x, Shr(x, s), s);
      XorShift(y, Shr(y, s), s);
      ShrSmaller(x, s);
      ShrSmaller(y, s);
      FoldInjective(Shr(x, s), Shr(y, s), s);
      XorCancelsRight(x, y, Shr(x, s));
    }
  }

  lemma XorWord(x: nat, y: nat)
    requires Word(x) && Word(y)
    ensures Word(Xor(x, y))
  {
    Pow32();
    XorBound(x, y, 32);
  }

  lemma FoldWord(x: nat, s: nat)
    requires Word(x)
    ensures Word(Fold(x, s))
  {
    hide Xor, Shr;
    ShrSmaller(x, s);
    XorWord(x, Shr(x, s));
  }

  function Times(x: nat, c: nat): nat { (x * c) % WORD }

  // Products with an odd factor tell words apart.
  lemma TimesInjective(x: nat, y: nat, c: nat)
    requires Word(x) && Word(y) && c % 2 == 1 && Times(x, c) == Times(y, c)
    ensures x == y
  {
    if x <= y {
      TimesApart(x, y, c);
    } else {
      TimesApart(y, x, c);
    }
  }

  lemma TimesApart(x: nat, y: nat, c: nat)
    requires x <= y && Word(y) && c % 2 == 1 && Times(x, c) == Times(y, c)
    ensures x == y
  {
    hide Pow2;
    Pow32();
    assert x * c <= y * c;
    var m := SameResidue(x * c, y * c, WORD);
    assert c * (y - x) == y * c - x * c;
    OddCancels(32, c, y - x, m);
  }

  // One bit to the left, the top bit coming in at the bottom.
  function Rotl1(x: nat): nat { if x < WORD / 2 then 2 * x else 2 * x - WORD + 1 }

  function Rotl(x: nat, r: nat): nat {
    if r == 0 then x else Rotl1(Rotl(x, r - 1))
  }

  lemma {:induction false} RotlWord(x: nat, r: nat)
    requires Word(x)
    ensures Word(Rotl(x, r))
  {
    if r > 0 {
      RotlWord(x, r - 1);
    }
  }

  lemma {:induction false} RotlInjective(x: nat, y: nat, r: nat)
    requires Word(x) && Word(y) && Rotl(x, r) == Rotl(y, r)
    ensures x == y
  {
    if r > 0 {
      RotlWord(x, r - 1);
      RotlWord(y, r - 1);
      RotlInjective(x, y, r - 1);
    }
  }

  // r single rotations are (x << r) | (x >> (32 - r)).
  lemma {:induction false} RotlShifts(x: nat, r: nat)
    requires Word(x) && r <= 32
    ensures x % Pow2(32 - r) >= 0 && Rotl(x, r) == (x % Pow2(32 - r)) * Pow2(r) + x / Pow2(32 - r)
  {
    if r == 0 {
      Pow32();
      Split(x, 0, WORD);
    } else {
      RotlShifts(x, r - 1);
      var p, q := Pow2(32 - r), Pow2(r - 1);
      Half(r);
      assert Pow2(33 - r) == 2 * p && Pow2(r) == 2 * q;
      RotlStep(x, p, q, Rotl(x, r - 1));
    }
  }

  lemma Half(r: nat)
    requires 0 < r <= 32
    ensures Pow2(32 - r) * Pow2(r - 1) == WORD / 2
  {
    hide Pow2;
    PowAdd(32 - r, r - 1);
    assert 32 - r + (r - 1) == 31;
    PowAdd(1, 31);
    Pow32();
    assert Pow2(1) == 2 by { PowOne(); }
  }

  lemma RotlStep(x: nat, p: nat, q: nat, y: nat)
    requires Word(x) && p > 0 && q > 0 && p * q == WORD / 2 && y == (x % (2 * p)) * q + x / (2 * p)
    ensures Rotl1(y) == (x % p) * (2 * q) + x / p
  {
    var h, l := Quotient(x, 2 * p), Remainder(x, 2 * p);
    var t, m := Quotient(l, p), Remainder(l, p);
    Halve(x, p, h, l, t, m);
    Below(x, h, p, q);
    RotlBits(t, m, h, p, q, y);
  }

  function Remainder(x: nat, n: nat): (r: nat)
    requires n > 0
    ensures r < n
  {
    x % n
  }

  // The digits of x in base p and in base 2p.
  lemma Halve(x: nat, p: nat, h: nat, l: nat, t: nat, m: nat)
    requires p > 0 && h == x / (2 * p) && l == x % (2 * p) && t == l / p && m == l % p
    ensures t < 2 && x / p == 2 * h + t && x % p == m && l == t * p + m
  {
    assert x == l + h * (2 * p) && l == t * p + m;
    if t >= 2 {
      Grows(t, 2, p);
    }
    Regrouped(h, t, p, m);
    Split(m, 2 * h + t, p);
  }

  lemma Below(x: nat, h: nat, p: nat, q: nat)
    requires Word(x) && p > 0 && h == x / (2 * p) && p * q == WORD / 2
    ensures h < q
  {
    assert x == x % (2 * p) + h * (2 * p);
    Doubled(p, q);
    if h >= q {
      Grows(h, q, 2 * p);
    }
  }

  lemma RotlBits(t: nat, m: nat, h: nat, p: nat, q: nat, y: nat)
    requires t < 2 && m < p && h < q && p * q == WORD / 2 && y == (t * p + m) * q + h
    ensures Rotl1(y) == m * (2 * q) + (2 * h + t)
  {
    Spread(t, p, m, q);
    Doubled(m, q);
    Distributes(m, q);
    Grows(p, m + 1, q);
  }

  lemma Grows(a: nat, b: nat, p: nat)
    requires a >= b
    ensures a * p >= b * p
  {
  }

  lemma Regrouped(h: nat, t: nat, p: nat, m: nat)
    ensures (t * p + m) + h * (2 * p) == m + (2 * h + t) * p
  {
  }

  lemma Doubled(p: nat, q: nat)
    ensures q * (2 * p) == 2 * (p * q) && p * (2 * q) == 2 * (p * q)
  {
  }

  lemma Distributes(m: nat, q: nat)
    ensures (m + 1) * q == m * q + q
  {
  }

  lemma Spread(t: nat, p: nat, m: nat, q: nat)
    ensures (t * p + m) * q == t * (p * q) + m * q
  {
  }

  // ---------------------------------------------------------------- scramble, step, finish

  const C1 := 0xcc9e2d51
  const C2 := 0x1b873593

  // What a block is turned into before it meets the hash.
  function Scramble(k: nat): nat { Times(Rotl(Times(k, C1), 15), C2) }

  lemma ScrambleInjective(k: nat, k2: nat)
    requires Word(k) && Word(k2) && Scramble(k) == Scramble(k2)
    ensures k == k2
  {
    hide Rotl, Times;
    TimesWord(k, C1);
    TimesWord(k2, C1);
    RotlWord(Times(k, C1), 15);
    RotlWord(Times(k2, C1), 15);
    TimesInjective(Rotl(Times(k, C1), 15), Rotl(Times(k2, C1), 15), C2);
    RotlInjective(Times(k, C1), Times(k2, C1), 15);
    TimesInjective(k, k2, C1);
  }

  lemma TimesWord(x: nat, c: nat)
    ensures Word(Times(x, c))
  {
  }

  function Step(h: nat, k: nat): nat { (Rotl(Xor(h, Scramble(k)), 13) * 5 + 0xe6546b64) % WORD }

  lemma AddInjective(x: nat, y: nat)
    requires Word(x) && Word(y) && (x * 5 + 0xe6546b64) % WORD == (y * 5 + 0xe6546b64) % WORD
    ensures x == y
  {
    var q := (x * 5 + 0xe6546b64) / WORD - (y * 5 + 0xe6546b64) / WORD;
    assert 5 * (x - y) == q * WORD;
    assert -5 < q < 5;
  }

  // A step can be undone if the block is known, and tells blocks apart if the hash before it is.
  lemma StepInjective(h: nat, k: nat, h2: nat, k2: nat)
    requires Word(h) && Word(k) && Word(h2) && Word(k2) && Step(h, k) == Step(h2, k2)
    ensures k == k2 ==> h == h2
    ensures h == h2 ==> k == k2
  {
    hide Rotl, Times, Xor, Scramble;
    ScrambleWord(k);
    ScrambleWord(k2);
    var x, y := Xor(h, Scramble(k)), Xor(h2, Scramble(k2));
    XorWord(h, Scramble(k));
    XorWord(h2, Scramble(k2));
    RotlWord(x, 13);
    RotlWord(y, 13);
    AddInjective(Rotl(x, 13), Rotl(y, 13));
    RotlInjective(x, y, 13);
    if k == k2 {
      XorCancelsRight(h, h2, Scramble(k));
    }
    if h == h2 {
      XorCancelsLeft(h, Scramble(k), Scramble(k2));
      ScrambleInjective(k, k2);
    }
  }

  lemma ScrambleWord(k: nat)
    ensures Word(Scramble(k))
  {
    hide Rotl;
    TimesWord(Rotl(Times(k, C1), 15), C2);
  }

  lemma StepWord(h: nat, k: nat)
    ensures Word(Step(h, k))
  {
  }

  function Fmix(h: nat): nat {
    Fold(Times(Fold(Times(Fold(h, 16), 0x85ebca6b), 13), 0xc2b2ae35), 16)
  }

  lemma FmixInjective(h: nat, h2: nat)
    requires Word(h) && Word(h2) && Fmix(h) == Fmix(h2)
    ensures h == h2
  {
    hide Fold, Times;
    var a, a2 := Fold(h, 16), Fold(h2, 16);
    var b, b2 := Times(a, 0x85ebca6b), Times(a2, 0x85ebca6b);
    var c, c2 := Fold(b, 13), Fold(b2, 13);
    FoldWord(h, 16);
    FoldWord(h2, 16);
    TimesWord(a, 0x85ebca6b);
    TimesWord(a2, 0x85ebca6b);
    FoldWord(b, 13);
    FoldWord(b2, 13);
    FoldInjective(Times(c, 0xc2b2ae35), Times(c2, 0xc2b2ae35), 16);
    TimesInjective(c, c2, 0xc2b2ae35);
    FoldInjective(b, b2, 13);
    TimesInjective(a, a2, 0x85ebca6b);
    FoldInjective(h, h2, 16);
  }
}
