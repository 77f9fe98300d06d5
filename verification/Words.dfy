/** BITMAP_WORD: one machine word of a bitmap element, with the operators bitmap.c applies to it.
    Every operator is a named function, so that proofs about lists of words can hide its bit-vector body. */
module Words {
  type Word = bv64

  const WORD_BITS: nat := 64
  const ZERO: Word := 0
  const ONES: Word := 0xFFFF_FFFF_FFFF_FFFF

  function And(a: Word, b: Word): Word { a & b }

  function Or(a: Word, b: Word): Word { a | b }

  function Xor(a: Word, b: Word): Word { a ^ b }

  function Not(a: Word): Word { !a }

  function Half(a: Word): Word { a >> 1 }

  function Double(a: Word): Word { a << 1 }

  function Pred(a: Word): Word { a - 1 }

  predicate Odd(a: Word) { a & 1 == 1 }

  predicate Leq(a: Word, b: Word) { a <= b }

  /** `w >> n`, one position at a time. */
  function Shr(w: Word, n: nat): Word
    decreases n
  {
    if n == 0 then w else Shr(Half(w), n - 1)
  }

  /** `w << n`, one position at a time. */
  function Shl(w: Word, n: nat): Word
    decreases n
  {
    if n == 0 then w else Double(Shl(w, n - 1))
  }

  /** The source's test `(w >> i) & 1`. */
  predicate Bit(w: Word, i: nat) {
    Odd(Shr(w, i))
  }

  /** The source's `(1 << n) - 1`. */
  function Below(n: nat): Word {
    Pred(Shl(1, n))
  }

  // ---- one step of each operator, no shift counts ----

  lemma HalfAnd(a: Word, b: Word)
    ensures Half(And(a, b)) == And(Half(a), Half(b))
    ensures Odd(And(a, b)) <==> Odd(a) && Odd(b)
  {}

  lemma HalfXor(a: Word, b: Word)
    ensures Half(Xor(a, b)) == Xor(Half(a), Half(b))
    ensures Odd(Xor(a, b)) <==> Odd(a) != Odd(b)
  {}

  lemma HalfOr(a: Word, b: Word)
    ensures Half(Or(a, b)) == Or(Half(a), Half(b))
    ensures Odd(Or(a, b)) <==> Odd(a) || Odd(b)
  {}

  lemma NotAsXor(a: Word)
    ensures Not(a) == Xor(a, ONES)
  {}

  lemma HalfDouble(a: Word)
    ensures Half(Double(a)) == And(a, Half(ONES))
    ensures !Odd(Double(a))
  {}

  lemma PredOfDouble(a: Word)
    ensures Pred(Double(a)) == Or(Double(Pred(a)), 1)
  {}

  lemma HalfMonotone(a: Word, b: Word)
    requires Leq(a, b)
    ensures Leq(Half(a), Half(b))
  {}

  lemma HalfZero(a: Word)
    ensures Half(a) == 0 && !Odd(a) <==> a == 0
  {}

  lemma SmallWords(a: Word)
    ensures Half(0) == 0 && Half(1) == 0 && Odd(1) && !Odd(0)
    ensures Pred(1) == 0
    ensures 0 <= a <= ONES
  {}

  lemma XorZero(a: Word, b: Word)
    ensures Xor(a, b) == 0 <==> a == b
  {}

  lemma OrZero(a: Word, b: Word)
    ensures Or(a, b) == 0 <==> a == 0 && b == 0
  {}

  lemma LowMaskStep(a: Word)
    requires a & (a + 1) == 0
    ensures Half(a) & (Half(a) + 1) == 0
    ensures a != 0 ==> Odd(a)
  {}

  lemma Half4(a: Word)
    ensures Half(Half(Half(Half(a)))) == a >> 4
  {}

  // ---- shifts ----

  lemma {:induction false} ShrLast(w: Word, n: nat)
    ensures Shr(w, n + 1) == Half(Shr(w, n))
    decreases n
  {
    hide Half;
    if n > 0 { ShrLast(Half(w), n - 1); }
  }

  lemma {:induction false} ShrAdd(w: Word, m: nat, n: nat)
    ensures Shr(Shr(w, m), n) == Shr(w, m + n)
    decreases m
  {
    hide Half;
    if m > 0 { ShrAdd(Half(w), m - 1, n); }
  }

  lemma {:induction false} ShrZero(n: nat)
    ensures Shr(ZERO, n) == 0
  {
    hide Half;
    SmallWords(0);
    if n > 0 { ShrZero(n - 1); }
  }

  lemma {:induction false} ShrMonotone(a: Word, b: Word, n: nat)
    requires Leq(a, b)
    ensures Leq(Shr(a, n), Shr(b, n))
    decreases n
  {
    hide Half, Leq;
    HalfMonotone(a, b);
    if n > 0 { ShrMonotone(Half(a), Half(b), n - 1); }
  }

  lemma Shr4(w: Word, n: nat)
    requires n >= 4
    ensures Shr(w, n) == Shr(w >> 4, n - 4)
  {
    hide Half;
    Half4(w);
    assert Shr(w, n) == Shr(Half(Half(w)), n - 2);
    assert Shr(Half(Half(w)), n - 2) == Shr(Half(Half(Half(Half(w)))), n - 4);
  }

  /** The all-ones word shifted by 63 is 1, and by more is 0. */
  lemma OnesEnd()
    ensures Shr(ONES, 63) == 1
  {
    hide Half, Shr;
    ShrNibble();
    Shr4(ONES, 63); Shr4(0x0FFF_FFFF_FFFF_FFFF, 59); Shr4(0x00FF_FFFF_FFFF_FFFF, 55); Shr4(0x000F_FFFF_FFFF_FFFF, 51);
    Shr4(0xFFFF_FFFF_FFFF, 47); Shr4(0x0FFF_FFFF_FFFF, 43); Shr4(0x00FF_FFFF_FFFF, 39); Shr4(0x000F_FFFF_FFFF, 35);
    Shr4(0xFFFF_FFFF, 31); Shr4(0x0FFF_FFFF, 27); Shr4(0x00FF_FFFF, 23); Shr4(0x000F_FFFF, 19);
    Shr4(0xFFFF, 15); Shr4(0x0FFF, 11); Shr4(0x00FF, 7);
  }

  lemma ShrNibble()
    ensures Shr(0x0F, 3) == 1
  {
    assert Shr(0x0F, 3) == Shr(0x07, 2);
    assert Shr(0x07, 2) == Shr(0x03, 1);
    assert Shr(0x03, 1) == Shr(0x01, 0);
  }

  lemma {:induction false} LowMask(n: nat)
    ensures Shr(ONES, n) & (Shr(ONES, n) + 1) == 0
  {
    if n > 0 {
      LowMask(n - 1);
      ShrLast(ONES, n - 1);
      LowMaskStep(Shr(ONES, n - 1));
    }
  }

  lemma ShrAll(w: Word, n: nat)
    requires n >= WORD_BITS
    ensures Shr(w, n) == 0
  {
    SmallWords(w);
    ShrMonotone(w, ONES, 63);
    OnesEnd();
    ShrLast(w, 63);
    HalfMonotone(Shr(w, 63), 1);
    ShrAdd(w, 64, n - 64);
    ShrZero(n - 64);
  }

  // ---- what each operator does to each bit ----

  lemma BitZero(i: nat)
    ensures !Bit(ZERO, i)
  {
    ShrZero(i);
  }

  lemma BitOnes(i: nat)
    requires i < WORD_BITS
    ensures Bit(ONES, i)
  {
    LowMask(i);
    LowMaskStep(Shr(ONES, i));
    if Shr(ONES, i) == 0 {
      ShrAdd(ONES, i, 63 - i);
      ShrZero(63 - i);
      OnesEnd();
    }
  }

  lemma {:induction false} BitAnd(a: Word, b: Word, i: nat)
    ensures Bit(And(a, b), i) <==> Bit(a, i) && Bit(b, i)
    decreases i
  {
    hide And, Odd, Half;
    HalfAnd(a, b);
    if i > 0 { BitAnd(Half(a), Half(b), i - 1); }
  }

  lemma {:induction false} BitXor(a: Word, b: Word, i: nat)
    ensures Bit(Xor(a, b), i) <==> Bit(a, i) != Bit(b, i)
    decreases i
  {
    hide Xor, Odd, Half;
    HalfXor(a, b);
    if i > 0 { BitXor(Half(a), Half(b), i - 1); }
  }

  lemma {:induction false} BitOr(a: Word, b: Word, i: nat)
    ensures Bit(Or(a, b), i) <==> Bit(a, i) || Bit(b, i)
    decreases i
  {
    hide Or, Odd, Half;
    HalfOr(a, b);
    if i > 0 { BitOr(Half(a), Half(b), i - 1); }
  }

  lemma BitNot(a: Word, i: nat)
    requires i < WORD_BITS
    ensures Bit(Not(a), i) <==> !Bit(a, i)
  {
    hide Not, Xor, Odd;
    NotAsXor(a);
    BitOnes(i);
    BitXor(a, ONES, i);
  }

  lemma BitShr(w: Word, n: nat, i: nat)
    ensures Bit(Shr(w, n), i) <==> Bit(w, n + i)
  {
    hide Half, Odd;
    ShrAdd(w, n, i);
  }

  lemma BitDouble(w: Word, i: nat)
    requires i < WORD_BITS
    ensures Bit(Double(w), i) <==> i > 0 && Bit(w, i - 1)
  {
    HalfDouble(w);
    if i > 0 {
      BitOnes(i);
      BitAnd(w, Half(ONES), i - 1);
      hide Half, Odd, And, Double;
    }
  }

  lemma {:induction false} BitShl(n: nat, i: nat)
    requires n < WORD_BITS && i < WORD_BITS
    ensures Bit(Shl(1, n), i) <==> i == n
    decreases n
  {
    SmallWords(0);
    if n > 0 {
      BitDouble(Shl(1, n - 1), i);
      if i > 0 { BitShl(n - 1, i - 1); }
    } else if i > 0 {
      BitZero(i - 1);
    }
  }

  lemma {:induction false} BitBelow(n: nat, i: nat)
    requires n < WORD_BITS && i < WORD_BITS
    ensures Bit(Below(n), i) <==> i < n
    decreases n
  {
    SmallWords(0);
    if n == 0 {
      BitZero(i);
    } else {
      PredOfDouble(Shl(1, n - 1));
      hide Half, Odd, Double, Pred, Or;
      BitOr(Double(Below(n - 1)), 1, i);
      BitDouble(Below(n - 1), i);
      BitShl(0, i);
      if i > 0 { BitBelow(n - 1, i - 1); }
    }
  }

  // ---- a word is its bits ----

  /** A word with no bit from position n on is exhausted by a shift of n. */
  lemma {:induction false} NoBitsLeft(w: Word, n: nat)
    requires n <= WORD_BITS
    requires forall i :: n <= i < WORD_BITS ==> !Bit(w, i)
    ensures Shr(w, n) == 0
    decreases WORD_BITS - n
  {
    if n == WORD_BITS {
      ShrAll(w, n);
    } else {
      NoBitsLeft(w, n + 1);
      ShrLast(w, n);
      assert !Bit(w, n);
      HalfZero(Shr(w, n));
    }
  }

  lemma NonZeroHasBit(w: Word)
    requires w != 0
    ensures exists i :: 0 <= i < WORD_BITS && Bit(w, i)
  {
    if !exists i :: 0 <= i < WORD_BITS && Bit(w, i) {
      NoBitsLeft(w, 0);
    }
  }

  lemma WordExtensional(a: Word, b: Word)
    requires forall i :: 0 <= i < WORD_BITS ==> (Bit(a, i) <==> Bit(b, i))
    ensures a == b
  {
    hide Xor, Odd;
    XorZero(a, b);
    if Xor(a, b) != 0 {
      NonZeroHasBit(Xor(a, b));
      var i :| 0 <= i < WORD_BITS && Bit(Xor(a, b), i);
      BitXor(a, b, i);
    }
  }

  /** The source computes a & ~b as a ^ (a & b). */
  lemma Clearing(a: Word, b: Word)
    ensures Xor(a, And(a, b)) == And(a, Not(b))
    ensures Xor(b, And(a, b)) == And(Not(a), b)
  {
    hide And, Not, Xor, Bit;
    forall i | 0 <= i < WORD_BITS
      ensures Bit(Xor(a, And(a, b)), i) <==> Bit(And(a, Not(b)), i)
      ensures Bit(Xor(b, And(a, b)), i) <==> Bit(And(Not(a), b), i)
    {
      BitXor(a, And(a, b), i);
      BitXor(b, And(a, b), i);
      BitAnd(a, b, i);
      BitAnd(a, Not(b), i);
      BitAnd(Not(a), b, i);
      BitNot(a, i);
      BitNot(b, i);
    }
    WordExtensional(Xor(a, And(a, b)), And(a, Not(b)));
    WordExtensional(Xor(b, And(a, b)), And(Not(a), b));
  }

  /** Clearing no bit changes nothing, and clearing one does. */
  lemma ClearingChanges(a: Word, b: Word)
    ensures And(a, b) == ZERO <==> And(a, Not(b)) == a
  {
    XorSelf(a, And(a, b));
    Clearing(a, b);
  }

  lemma XorSelf(a: Word, c: Word)
    ensures Xor(a, c) == a <==> c == ZERO
  {}
}
