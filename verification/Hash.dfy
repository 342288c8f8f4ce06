/** The key-to-position pipeline of internal/balancer/ring.go: FNV-1a-64 followed by the Murmur3
    64-bit finalizer.  A 64-bit word is a natural number below WORD and every multiplication wraps
    explicitly; a Go string is a sequence of characters, each standing for one byte. */
module Hash {
  import opened Arith

  const WORD: nat := 0x1_0000_0000_0000_0000

  predicate IsWord(h: int) {
    0 <= h < 0x1_0000_0000_0000_0000
  }

  /** Bitwise exclusive or. */
  function Xor(a: nat, b: nat): nat
    decreases a + b
  {
    if a == 0 && b == 0 then 0 else (a + b) % 2 + 2 * Xor(a / 2, b / 2)
  }

  function Times(h: nat, factor: nat): nat {
    h * factor % 0x1_0000_0000_0000_0000
  }

  function XorShift(h: nat): nat {
    Xor(h, h / 0x2_0000_0000)
  }

  function Fmix64(h: nat): nat {
    XorShift(Times(XorShift(Times(XorShift(h), 0xff51afd7ed558ccd)), 0xc4ceb9fe1a85ec53))
  }

  /** The finalizer run backwards: each multiplier is replaced by its inverse modulo 2^64. */
  function Unmix64(h: nat): nat {
    XorShift(Times(XorShift(Times(XorShift(h), 0x9cb4b2f8129337db)), 0x4f74430c22a54005))
  }

  /** One FNV-1a step, the loop body of the standard library's Write. */
  function FnvStep(h: nat, c: char): nat {
    Times(Xor(h, c as nat), 0x100000001b3)
  }

  function Fnv1a(h: nat, key: string): nat
    decreases |key|
  {
    if key == "" then h else Fnv1a(FnvStep(h, key[0]), key[1..])
  }

  const FNV_OFFSET: nat := 0xcbf29ce484222325

  /** The ring position of a key. */
  function HashKey(key: string): nat {
    Fmix64(Fnv1a(FNV_OFFSET, key))
  }

  // ---------- wrap-around multiplication ----------

  lemma DivDiv(x: nat, p: nat)
    requires p > 0
    ensures x / (2 * p) == x / 2 / p
  {
    var h := x / 2;
    var q, r := h / p, h % p;
    DivUnique(x, 2 * p, q, 2 * r + x % 2);
  }

  function Pow2(k: nat): (p: nat)
    ensures p > 0
  {
    if k == 0 then 1 else 2 * Pow2(k - 1)
  }

  lemma {:induction false} Pow2Sum(j: nat, k: nat)
    ensures Pow2(j + k) == Pow2(j) * Pow2(k)
  {
    if j > 0 { Pow2Sum(j - 1, k); }
  }

  lemma Doubled(k: nat, p: nat)
    requires Pow2(k) == p
    ensures Pow2(2 * k) == p * p
  {
    Pow2Sum(k, k);
  }

  lemma WordBits()
    ensures Pow2(64) == WORD && Pow2(33) == 0x2_0000_0000
  {
    Doubled(2, 4);
    Doubled(4, 16);
    Doubled(8, 0x100);
    Doubled(16, 0x1_0000);
    Doubled(32, 0x1_0000_0000);
  }

  /** A multiplier with an inverse modulo 2^64 is undone by that inverse. */
  lemma TimesUndone(h: nat, factor: nat, inverse: nat, k: nat)
    requires IsWord(h) && factor * inverse == 1 + k * WORD
    ensures Times(Times(h, factor), inverse) == h
  {
    var q, r := h * factor / WORD, h * factor % WORD;
    calc {
      r * inverse;
      (h * factor - q * WORD) * inverse;
      h * factor * inverse - q * WORD * inverse;
      { assert h * factor * inverse == h * (factor * inverse); }
      h * (1 + k * WORD) - q * WORD * inverse;
      { assert q * WORD * inverse == q * inverse * WORD; }
      WORD * (h * k - q * inverse) + h;
    }
    DivUnique(r * inverse, WORD, h * k - q * inverse, h);
  }

  // ---------- exclusive or ----------

  lemma {:induction false} XorZero(a: nat)
    ensures Xor(a, 0) == a
  {
    if a != 0 { XorZero(a / 2); }
  }

  lemma XorBits(a: nat, b: nat)
    ensures Xor(a, b) / 2 == Xor(a / 2, b / 2)
    ensures Xor(a, b) % 2 == (a + b) % 2
  {}

  lemma ParityBack(a: nat, b: nat, x: nat)
    requires x % 2 == (a + b) % 2
    ensures (x + b) % 2 == a % 2
  {}

  lemma {:induction false} XorTwice(a: nat, b: nat)
    ensures Xor(Xor(a, b), b) == a
    decreases a + b
  {
    if a == 0 && b == 0 {
    } else {
      var x := Xor(a, b);
      XorBits(a, b);
      XorBits(x, b);
      calc {
        Xor(x, b) / 2;
        Xor(x / 2, b / 2);
        Xor(Xor(a / 2, b / 2), b / 2);
        { XorTwice(a / 2, b / 2); }
        a / 2;
      }
      ParityBack(a, b, x);
    }
  }

  lemma {:induction false} XorCommutes(a: nat, b: nat)
    ensures Xor(a, b) == Xor(b, a)
    decreases a + b
  {
    if a != 0 || b != 0 { XorCommutes(a / 2, b / 2); }
  }

  lemma {:induction false} XorBounded(a: nat, b: nat, k: nat)
    requires a < Pow2(k) && b < Pow2(k)
    ensures Xor(a, b) < Pow2(k)
  {
    if k > 0 { XorBounded(a / 2, b / 2, k - 1); }
  }

  function ShiftRight(x: nat, k: nat): nat {
    if k == 0 then x else ShiftRight(x / 2, k - 1)
  }

  lemma {:induction false} ShiftRightDivides(x: nat, k: nat)
    ensures ShiftRight(x, k) == x / Pow2(k)
  {
    if k > 0 {
      DivDiv(x, Pow2(k - 1));
      ShiftRightDivides(x / 2, k - 1);
    }
  }

  /** Shifting right distributes over exclusive or. */
  lemma {:induction false} XorShiftsRight(a: nat, b: nat, k: nat)
    ensures ShiftRight(Xor(a, b), k) == Xor(ShiftRight(a, k), ShiftRight(b, k))
  {
    if k > 0 {
      XorBits(a, b);
      XorShiftsRight(a / 2, b / 2, k - 1);
    }
  }

  lemma XorWord(a: nat, b: nat)
    requires IsWord(a) && IsWord(b)
    ensures IsWord(Xor(a, b))
  {
    WordBits();
    XorBounded(a, b, 64);
  }

  // ---------- the finalizer is a bijection ----------

  /** The shift is by more than half the word, so doing it twice restores the word. */
  lemma XorShiftTwice(h: nat)
    requires IsWord(h)
    ensures IsWord(XorShift(h)) && XorShift(XorShift(h)) == h
    ensures XorShift(h) == Xor(h, ShiftRight(h, 33))
  {
    var s := h / 0x2_0000_0000;
    XorWord(h, s);
    WordBits();
    XorShiftsRight(h, s, 33);
    ShiftRightDivides(h, 33);
    ShiftRightDivides(s, 33);
    ShiftRightDivides(Xor(h, s), 33);
    assert s / 0x2_0000_0000 == 0;
    XorZero(s);
    XorTwice(h, s);
  }

  lemma Mix1Undone(h: nat)
    requires IsWord(h)
    ensures Times(Times(h, 0xff51afd7ed558ccd), 0x4f74430c22a54005) == h
    ensures Times(Times(h, 0x4f74430c22a54005), 0xff51afd7ed558ccd) == h
  {
    TimesUndone(h, 0xff51afd7ed558ccd, 0x4f74430c22a54005, 5710046619856821070);
    TimesUndone(h, 0x4f74430c22a54005, 0xff51afd7ed558ccd, 5710046619856821070);
  }

  lemma Mix2Undone(h: nat)
    requires IsWord(h)
    ensures Times(Times(h, 0xc4ceb9fe1a85ec53), 0x9cb4b2f8129337db) == h
    ensures Times(Times(h, 0x9cb4b2f8129337db), 0xc4ceb9fe1a85ec53) == h
  {
    TimesUndone(h, 0xc4ceb9fe1a85ec53, 0x9cb4b2f8129337db, 8680939279959119233);
    TimesUndone(h, 0x9cb4b2f8129337db, 0xc4ceb9fe1a85ec53, 8680939279959119233);
  }

  lemma PrimeUndone(h: nat)
    requires IsWord(h)
    ensures Times(Times(h, 0x100000001b3), 0xce965057aff6957b) == h
    ensures Times(Times(h, 0xce965057aff6957b), 0x100000001b3) == h
  {
    TimesUndone(h, 0x100000001b3, 0xce965057aff6957b, 887285111055);
    TimesUndone(h, 0xce965057aff6957b, 0x100000001b3, 887285111055);
  }

  /** Fmix64 is a bijection on 64-bit words, and Unmix64 is its inverse on both sides. */
  lemma Fmix64Bijective(h: nat)
    requires IsWord(h)
    ensures IsWord(Fmix64(h)) && Unmix64(Fmix64(h)) == h
    ensures IsWord(Unmix64(h)) && Fmix64(Unmix64(h)) == h
  {
    FmixUndone(h);
    UnmixUndone(h);
  }

  lemma FmixUndone(h: nat)
    requires IsWord(h)
    ensures IsWord(Fmix64(h)) && Unmix64(Fmix64(h)) == h
  {
    XorShiftTwice(h);
    var a := Times(XorShift(h), 0xff51afd7ed558ccd);
    Mix1Undone(XorShift(h));
    XorShiftTwice(a);
    var b := Times(XorShift(a), 0xc4ceb9fe1a85ec53);
    Mix2Undone(XorShift(a));
    XorShiftTwice(b);
  }

  lemma UnmixUndone(h: nat)
    requires IsWord(h)
    ensures IsWord(Unmix64(h)) && Fmix64(Unmix64(h)) == h
  {
    XorShiftTwice(h);
    var a := Times(XorShift(h), 0x9cb4b2f8129337db);
    Mix2Undone(XorShift(h));
    XorShiftTwice(a);
    var b := Times(XorShift(a), 0x4f74430c22a54005);
    Mix1Undone(XorShift(a));
    XorShiftTwice(b);
  }

  // ---------- each FNV-1a step is a bijection for a fixed byte ----------

  /** The state before a byte, recovered from the state after it. */
  function FnvUnstep(h: nat, c: char): nat {
    Xor(Times(h, 0xce965057aff6957b), c as nat)
  }

  lemma FnvStepBijective(h: nat, c: char)
    requires IsWord(h)
    ensures IsWord(FnvStep(h, c)) && FnvUnstep(FnvStep(h, c), c) == h
    ensures Times(FnvStep(h, c), 0xce965057aff6957b) == Xor(h, c as nat)
    ensures IsWord(FnvUnstep(h, c)) && FnvStep(FnvUnstep(h, c), c) == h
  {
    XorWord(h, c as nat);
    PrimeUndone(Xor(h, c as nat));
    XorTwice(h, c as nat);
    var g := Times(h, 0xce965057aff6957b);
    XorWord(g, c as nat);
    XorTwice(g, c as nat);
    PrimeUndone(h);
  }

  lemma FnvStepSeparatesBytes(h: nat, c: char, d: char)
    requires IsWord(h) && c != d
    ensures FnvStep(h, c) != FnvStep(h, d)
  {
    XorWord(h, c as nat);
    XorWord(h, d as nat);
    PrimeUndone(Xor(h, c as nat));
    PrimeUndone(Xor(h, d as nat));
    XorCommutes(h, c as nat);
    XorCommutes(h, d as nat);
    XorTwice(c as nat, h);
    XorTwice(d as nat, h);
  }

  // ---------- what the pipeline separates ----------

  lemma {:induction false} FnvInjective(g: nat, h: nat, key: string)
    requires IsWord(g) && IsWord(h)
    ensures IsWord(Fnv1a(h, key))
    ensures Fnv1a(g, key) == Fnv1a(h, key) ==> g == h
    decreases |key|
  {
    if key != "" {
      FnvStepBijective(g, key[0]);
      FnvStepBijective(h, key[0]);
      FnvInjective(FnvStep(g, key[0]), FnvStep(h, key[0]), key[1..]);
    }
  }

  lemma {:induction false} FnvAppend(h: nat, a: string, b: string)
    ensures Fnv1a(h, a + b) == Fnv1a(Fnv1a(h, a), b)
    decreases |a|
  {
    if a == "" {
      assert a + b == b;
    } else {
      assert (a + b)[1..] == a[1..] + b;
      FnvAppend(FnvStep(h, a[0]), a[1..], b);
    }
  }

  /** Two keys of equal length that differ in exactly one byte never share a ring position. */
  lemma OneByteApart(prefix: string, c: char, d: char, suffix: string)
    requires c != d
    ensures HashKey(prefix + [c] + suffix) != HashKey(prefix + [d] + suffix)
  {
    var h := Fnv1a(FNV_OFFSET, prefix);
    FnvInjective(FNV_OFFSET, FNV_OFFSET, prefix);
    SplitAtByte(prefix, c, suffix);
    SplitAtByte(prefix, d, suffix);
    FnvStepBijective(h, c);
    FnvStepBijective(h, d);
    FnvStepSeparatesBytes(h, c, d);
    FnvInjective(FnvStep(h, c), FnvStep(h, d), suffix);
    CollisionsAreFnvCollisions(prefix + [c] + suffix, prefix + [d] + suffix);
  }

  lemma SplitAtByte(prefix: string, c: char, suffix: string)
    ensures Fnv1a(FNV_OFFSET, prefix + [c] + suffix) == Fnv1a(FnvStep(Fnv1a(FNV_OFFSET, prefix), c), suffix)
  {
    assert prefix + [c] + suffix == prefix + ([c] + suffix);
    FnvAppend(FNV_OFFSET, prefix, [c] + suffix);
    assert ([c] + suffix)[1..] == suffix;
  }

  /** The finalizer neither adds nor removes collisions: two keys share a position exactly when their FNV sums agree. */
  lemma CollisionsAreFnvCollisions(a: string, b: string)
    ensures HashKey(a) == HashKey(b) <==> Fnv1a(FNV_OFFSET, a) == Fnv1a(FNV_OFFSET, b)
  {
    FnvInjective(FNV_OFFSET, FNV_OFFSET, a);
    FnvInjective(FNV_OFFSET, FNV_OFFSET, b);
    Fmix64Bijective(Fnv1a(FNV_OFFSET, a));
    Fmix64Bijective(Fnv1a(FNV_OFFSET, b));
  }

  /** The finalizer is applied to the FNV-1a sum from the standard offset, and undoing it recovers that sum. */
  lemma FinalizerRecovered(key: string)
    ensures IsWord(HashKey(key)) && Unmix64(HashKey(key)) == Fnv1a(0xcbf29ce484222325, key)
  {
    FnvInjective(FNV_OFFSET, FNV_OFFSET, key);
    Fmix64Bijective(Fnv1a(FNV_OFFSET, key));
  }
}
