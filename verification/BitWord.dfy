/** A 64-bit word and its bits (bitops.h, bitmap.h, asm-generic/bitops). */
module BitWord {
  type Word = bv64

  const ONES: Word := 0xffff_ffff_ffff_ffff

  function And(a: Word, b: Word): Word { a & b }
  function Or(a: Word, b: Word): Word { a | b }
  function Xor(a: Word, b: Word): Word { a ^ b }
  function Not(a: Word): Word { !a }
  function Half(w: Word): Word { w >> 1 }
  function Twice(w: Word): Word { w << 1 }
  predicate Odd(w: Word) { w & 1 == 1 }

  /** w >> s */
  function Shr(w: Word, s: nat): Word { if s == 0 then w else Half(Shr(w, s - 1)) }

  /** w << s */
  function Shl(w: Word, s: nat): Word { if s == 0 then w else Twice(Shl(w, s - 1)) }

  /** Bit i of a word; there is none from 64 on. */
  predicate Bit(w: Word, i: nat) { Odd(Shr(w, i)) }

  // ---- one place ----

  lemma {:induction false} HalfAnd(a: Word, b: Word)
    ensures Half(And(a, b)) == And(Half(a), Half(b))
  {}

  lemma {:induction false} HalfOr(a: Word, b: Word)
    ensures Half(Or(a, b)) == Or(Half(a), Half(b))
  {}

  lemma {:induction false} HalfXor(a: Word, b: Word)
    ensures Half(Xor(a, b)) == Xor(Half(a), Half(b))
  {}

  lemma {:induction false} OddOps(a: Word, b: Word)
    ensures Odd(And(a, b)) <==> Odd(a) && Odd(b)
    ensures Odd(Or(a, b)) <==> Odd(a) || Odd(b)
    ensures Odd(Xor(a, b)) <==> Odd(a) != Odd(b)
    ensures !Odd(Twice(a)) && !Odd(0)
  {}

  lemma {:induction false} WordOps(a: Word)
    ensures Half(0) == 0 && And(a, ONES) == a && Xor(a, ONES) == Not(a)
  {}

  // ---- shifts ----

  lemma {:induction false} ShrSum(w: Word, s: nat, i: nat)
    ensures Shr(Shr(w, s), i) == Shr(w, s + i)
  {
    hide Half;
    if i > 0 { ShrSum(w, s, i - 1); }
  }

  lemma {:induction false} ShrOps(a: Word, b: Word, i: nat)
    ensures Shr(And(a, b), i) == And(Shr(a, i), Shr(b, i))
    ensures Shr(Or(a, b), i) == Or(Shr(a, i), Shr(b, i))
    ensures Shr(Xor(a, b), i) == Xor(Shr(a, i), Shr(b, i))
    ensures Shr(0, i) == 0
  {
    hide Half; hide And; hide Or; hide Xor;
    if i > 0 {
      ShrOps(a, b, i - 1);
      HalfAnd(Shr(a, i - 1), Shr(b, i - 1));
      HalfOr(Shr(a, i - 1), Shr(b, i - 1));
      HalfXor(Shr(a, i - 1), Shr(b, i - 1));
      WordOps(a);
    }
  }

  // ---- the bits of an expression ----

  lemma {:induction false} OpsBit(a: Word, b: Word, i: nat)
    ensures Bit(And(a, b), i) <==> Bit(a, i) && Bit(b, i)
    ensures Bit(Or(a, b), i) <==> Bit(a, i) || Bit(b, i)
    ensures Bit(Xor(a, b), i) <==> Bit(a, i) != Bit(b, i)
    ensures !Bit(0, i)
  {
    hide Half; hide And; hide Or; hide Xor; hide Odd; hide Shr;
    ShrOps(a, b, i);
    OddOps(Shr(a, i), Shr(b, i));
  }

  lemma {:induction false} RightBit(w: Word, s: nat, i: nat)
    ensures Bit(Shr(w, s), i) <==> Bit(w, s + i)
  {
    hide Shr; hide Odd;
    ShrSum(w, s, i);
  }

  /** x is 2^n - 1. */
  predicate Run(x: Word) { x & (x + 1) == 0 }

  lemma {:induction false} RunHalf(x: Word)
    requires Run(x)
    ensures Run(Half(x)) && (x != 0 ==> Odd(x)) && Run(ONES)
  {}

  lemma {:induction false} OnesRun(i: nat)
    ensures Run(Shr(ONES, i)) && (i < 64 ==> Shr(ONES, i) != 0)
  {
    OnesShifted();
    hide Half; hide Odd; hide Run;
    if i == 0 { RunHalf(ONES); } else {
      OnesRun(i - 1);
      RunHalf(Shr(ONES, i - 1));
    }
    if i < 64 && Shr(ONES, i) == 0 {
      ShrSum(ONES, i, 63 - i);
      ShrOps(0, 0, 63 - i);
    }
  }

  lemma {:induction false} OnesShifted()
    ensures Shr(ONES, 32) == 0xffff_ffff && Shr(ONES, 48) == 0xffff && Shr(ONES, 56) == 0xff
    ensures Shr(ONES, 63) == 1 && Shr(ONES, 64) == 0
  {
    assert Shr(ONES, 8) == 0xff_ffff_ffff_ffff && Shr(ONES, 16) == 0xffff_ffff_ffff && Shr(ONES, 24) == 0xff_ffff_ffff;
    assert Shr(ONES, 32) == 0xffff_ffff && Shr(ONES, 40) == 0xff_ffff && Shr(ONES, 48) == 0xffff;
    assert Shr(ONES, 56) == 0xff;
  }

  lemma {:induction false} OnesBit(i: nat)
    ensures Bit(ONES, i) <==> i < 64
  {
    hide Half; hide Odd; hide Run; hide Shr;
    OnesRun(i);
    if i < 64 { RunHalf(Shr(ONES, i)); } else {
      OnesShifted();
      ShrSum(ONES, 64, i - 64);
      ShrOps(0, 0, i - 64);
      OddOps(0, 0);
    }
  }

  lemma {:induction false} OneBit(i: nat)
    ensures Bit(1, i) <==> i == 0
  {
    OneHalf();
    hide Half; hide Odd;
    if i > 0 {
      ShrSum(1, 1, i - 1);
      assert Shr(1, 1) == Half(Shr(1, 0));
      ShrOps(0, 0, i - 1);
    }
  }

  lemma {:induction false} OneHalf()
    ensures Odd(1) && Half(1) == 0 && !Odd(0)
  {}

  lemma {:induction false} NotBit(a: Word, i: nat)
    ensures Bit(Not(a), i) <==> i < 64 && !Bit(a, i)
    ensures Bit(a, i) ==> i < 64
  {
    hide *;
    WordOps(a);
    OnesBit(i);
    OpsBit(a, ONES, i);
  }

  lemma {:induction false} LeftBit(w: Word, s: nat, i: nat)
    ensures Bit(Shl(w, s), i) <==> s <= i < 64 && Bit(w, i - s)
  {
    hide *;
    if s == 0 { NotBit(w, i); assert Shl(w, 0) == w by { ShlStep(w, 0); } } else {
      ShlStep(w, s);
      TwiceBit(Shl(w, s - 1), i);
      if i > 0 { LeftBit(w, s - 1, i - 1); }
    }
  }

  lemma {:induction false} ShlStep(w: Word, s: nat)
    ensures Shl(w, s) == if s == 0 then w else Twice(Shl(w, s - 1))
  {
    hide Twice;
  }

  lemma {:induction false} TwiceBit(w: Word, i: nat)
    ensures Bit(Twice(w), i) <==> 0 < i < 64 && Bit(w, i - 1)
  {
    hide Half; hide Odd; hide Twice; hide Shr; hide And;
    if i == 0 { OddOps(w, w); assert Shr(Twice(w), 0) == Twice(w) by { ShrZero(Twice(w)); } } else {
      HalfTwice(w);
      HalfBit(Twice(w), i - 1);
      OpsBit(w, Half(ONES), i - 1);
      HalfBit(ONES, i - 1);
      OnesBit(i);
    }
  }

  lemma {:induction false} HalfTwice(w: Word)
    ensures Half(Twice(w)) == And(w, Half(ONES))
  {}

  lemma {:induction false} ShrZero(w: Word)
    ensures Shr(w, 0) == w
  {}

  lemma {:induction false} HalfBit(w: Word, i: nat)
    ensures Bit(Half(w), i) <==> Bit(w, i + 1)
  {
    hide Half; hide Odd;
    ShrSum(w, 1, i);
    assert Shr(w, 1) == Half(Shr(w, 0));
  }

  // ---- words without bits ----

  lemma {:induction false} ShrAll(w: Word)
    ensures Shr(w, 64) == 0
  {
    hide *;
    WordOps(w);
    ShrOps(w, ONES, 64);
    OnesShifted();
    AndZero(Shr(w, 64));
  }

  lemma {:induction false} AndZero(w: Word)
    ensures And(w, 0) == 0
  {}

  /** A word that is not 0 has a set bit. */
  lemma {:induction false} SomeBit(w: Word)
    requires w != 0
    ensures exists i: nat :: i < 64 && Bit(w, i)
  {
    hide Shr; hide Odd;
    ShrZero(w);
    if forall i: nat :: i < 64 ==> !Bit(w, i) {
      ShrAll(w);
      GoneFrom(w, 0);
    }
  }

  lemma {:induction false} GoneFrom(w: Word, k: nat)
    requires k <= 64 && Shr(w, 64) == 0 && forall i: nat :: k <= i < 64 ==> !Bit(w, i)
    ensures Shr(w, k) == 0
    decreases 64 - k
  {
    hide Half; hide Odd;
    if k < 64 {
      GoneFrom(w, k + 1);
      assert !Bit(w, k);
      NoHalf(Shr(w, k));
    }
  }

  lemma {:induction false} NoHalf(w: Word)
    requires Half(w) == 0 && !Odd(w)
    ensures w == 0
  {}
}
