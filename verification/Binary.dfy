/**
 * The number that a bitmap denotes in binary, and the position of its highest bit (bitmap.c, asm-generic/bitops/fls.h).
 */
module Binary {
  import opened Arith
  import opened BitWord
  import opened FindBit
  import opened Powers

  /** The number that the first n bits denote. */
  function Value(words: seq<Word>, n: nat): nat
  {
    if n == 0 then 0 else Value(words, n - 1) + if At(words, n - 1) then Pow2(n - 1) else 0
  }

  lemma {:induction false} ValueBound(words: seq<Word>, n: nat)
    ensures Value(words, n) < Pow2(n)
  {
    hide At;
    if n > 0 { ValueBound(words, n - 1); }
  }

  lemma {:induction false} ClearValue(words: seq<Word>, lo: nat, hi: nat)
    requires lo <= hi && Clear(words, lo, hi)
    ensures Value(words, hi) == Value(words, lo)
  {
    hide At;
    if lo < hi { ClearValue(words, lo, hi - 1); }
  }

  /** A number below 2^m has no bits from m on. */
  lemma {:induction false} ValueClear(words: seq<Word>, m: nat, n: nat)
    requires m <= n && Value(words, n) < Pow2(m)
    ensures Clear(words, m, n)
  {
    hide At;
    if m < n {
      Pow2Mono(m, n - 1);
      ValueClear(words, m, n - 1);
    }
  }

  /** Moving all bits up by k multiplies by 2^k. */
  lemma {:induction false} ShiftValue(s: seq<Word>, t: seq<Word>, k: nat, n: nat)
    requires forall i: nat :: i < n + k ==> (At(t, i) <==> i >= k && At(s, i - k))
    ensures Value(t, n + k) == Pow2(k) * Value(s, n)
  {
    hide At; hide Pow2;
    if n == 0 {
      ClearValue(t, 0, k);
    } else {
      ShiftValue(s, t, k, n - 1);
      Pow2Sum(k, n - 1);
      Dist(Pow2(k), Value(s, n - 1), Pow2(n - 1));
    }
  }

  /** Joining bitmaps that share no bit adds their numbers. */
  lemma {:induction false} JoinValue(s: seq<Word>, t: seq<Word>, u: seq<Word>, n: nat)
    requires forall i: nat :: i < n ==> (At(u, i) <==> At(s, i) || At(t, i)) && !(At(s, i) && At(t, i))
    ensures Value(u, n) == Value(s, n) + Value(t, n)
  {
    hide At; hide Pow2;
    if n > 0 { JoinValue(s, t, u, n - 1); }
  }

  // ---- words ----

  /** The number that a word denotes. */
  function WordValue(w: Word): nat { Value([w], 64) }

  lemma {:induction false} AtWord(w: Word, i: nat)
    ensures At([w], i) <==> Bit(w, i)
  {
    hide Bit;
    if i >= 64 { NotBit(w, i); }
  }

  lemma {:induction false} WordClear(w: Word, m: nat)
    requires m <= 64
    ensures WordValue(w) < Pow2(m) <==> forall i: nat :: i >= m ==> !Bit(w, i)
  {
    hide Bit; hide Pow2; hide At; hide Value;
    if WordValue(w) < Pow2(m) {
      ValueClear([w], m, 64);
      forall i: nat | i >= m
        ensures !Bit(w, i)
      {
        AtWord(w, i);
        NotBit(w, i);
        assert i < 64 ==> !At([w], i);
      }
    }
    if forall i: nat :: i >= m ==> !Bit(w, i) {
      forall i: nat | m <= i < 64
        ensures !At([w], i)
      {
        AtWord(w, i);
      }
      ClearValue([w], m, 64);
      ValueBound([w], m);
    }
  }

  /** Shifting a word left multiplies, when nothing is lost. */
  lemma {:induction false} ShlValue(w: Word, k: nat)
    requires k <= 64 && WordValue(w) < Pow2(64 - k)
    ensures WordValue(Shl(w, k)) == Pow2(k) * WordValue(w)
  {
    hide Bit; hide Pow2; hide At; hide Shl;
    WordClear(w, 64 - k);
    var t := [Shl(w, k)];
    forall i: nat | i < 64 - k + k
      ensures At(t, i) <==> i >= k && At([w], i - k)
    {
      AtWord(Shl(w, k), i);
      LeftBit(w, k, i);
      if i >= k { AtWord(w, i - k); }
    }
    forall i: nat | 64 - k <= i < 64
      ensures !At([w], i)
    {
      AtWord(w, i);
    }
    ShiftValue([w], t, k, 64 - k);
    ClearValue([w], 64 - k, 64);
  }

  lemma {:induction false} OrValue(a: Word, b: Word, m: nat)
    requires m <= 64 && WordValue(b) < Pow2(m) && forall i: nat :: i < m ==> !Bit(a, i)
    ensures WordValue(Or(a, b)) == WordValue(a) + WordValue(b)
  {
    hide Bit; hide Pow2; hide At; hide Or;
    WordClear(b, m);
    forall i: nat
      ensures At([Or(a, b)], i) <==> At([a], i) || At([b], i)
      ensures !(At([a], i) && At([b], i))
    {
      AtWord(Or(a, b), i);
      AtWord(a, i);
      AtWord(b, i);
      OpsBit(a, b, i);
    }
    JoinValue([a], [b], [Or(a, b)], 64);
  }

  /** A number as a word. */
  function ToWord(d: nat): Word { if d == 0 then 0 else Or(Shl(ToWord(d / 2), 1), FromBool(d % 2 == 1)) }

  function FromBool(b: bool): Word { if b then 1 else 0 }

  lemma {:induction false} ZeroOne()
    ensures WordValue(0) == 0 && WordValue(FromBool(false)) == 0 && WordValue(FromBool(true)) == 1
  {
    hide Bit; hide At;
    forall i: nat
      ensures !At([0], i) && (At([1], i) <==> i == 0)
    {
      AtWord(0, i);
      AtWord(1, i);
      OpsBit(0, 0, i);
      OneBit(i);
    }
    ClearValue([0], 0, 64);
    ClearValue([1], 1, 64);
    assert Value([1], 1) == Value([1], 0) + Pow2(0);
  }

  lemma {:induction false} ToWordValue(d: nat, n: nat)
    requires d < Pow2(n) && n <= 64
    ensures WordValue(ToWord(d)) == d
  {
    hide Bit; hide At; hide Or; hide Shl; hide WordValue; hide FromBool; hide Value; hide Pow2;
    ZeroOne();
    if d == 0 { assert ToWord(d) == 0; } else {
      PowStep(n, d);
      ToWordValue(d / 2, n - 1);
      Append(ToWord(d / 2), d % 2 == 1, n - 1);
    }
  }

  lemma {:induction false} PowStep(n: nat, d: nat)
    requires 0 < d < Pow2(n)
    ensures n > 0 && d / 2 < Pow2(n - 1)
  {}

  lemma {:induction false} Append(w: Word, b: bool, n: nat)
    requires WordValue(w) < Pow2(n) && n < 64
    ensures WordValue(Or(Shl(w, 1), FromBool(b))) == 2 * WordValue(w) + if b then 1 else 0
  {
    hide Bit; hide At; hide Or; hide Shl; hide WordValue; hide FromBool; hide Value;
    ZeroOne();
    Pow2Mono(n, 63);
    ShlValue(w, 1);
    assert Pow2(1) == 2 * Pow2(0);
    forall i: nat | i < 1
      ensures !Bit(Shl(w, 1), i)
    {
      LeftBit(w, 1, i);
    }
    OrValue(Shl(w, 1), FromBool(b), 1);
  }

  // ---- fls ----

  /** The s bits below bit 32. */
  function High(s: nat): Word
    requires s <= 32
  {
    And(Low(32), Not(Low(32 - s)))
  }

  lemma {:induction false} HighBit(s: nat, i: nat)
    requires s <= 32
    ensures Bit(High(s), i) <==> 32 - s <= i < 32
  {
    hide Bit; hide Low; hide And; hide Not;
    LowBit(32, i);
    LowBit(32 - s, i);
    NotBit(Low(32 - s), i);
    OpsBit(Low(32), Not(Low(32 - s)), i);
  }

  lemma {:induction false} HighMasks()
    ensures High(16) == 0xffff_0000 && High(8) == 0xff00_0000 && High(4) == 0xf000_0000
    ensures High(2) == 0xc000_0000 && High(1) == 0x8000_0000
  {
    OnesShifted();
    assert Low(24) == 0xff_ffff by { assert Shr(ONES, 36) == 0xfff_ffff; assert Shr(ONES, 40) == 0xff_ffff; }
    assert Low(28) == 0xfff_ffff && Low(30) == 0x3fff_ffff && Low(31) == 0x7fff_ffff;
  }

  /** The bits of x0 are those below r, and they are in x, moved up to end at bit 32. */
  ghost predicate Raised(x0: Word, x: Word, r: nat)
  {
    && (forall i: nat :: i < r <= 32 ==> (Bit(x0, i) <==> Bit(x, i + (32 - r))))
    && (forall i: nat :: i >= r ==> !Bit(x0, i))
  }

  /** One of the s bits below bit 32 is set. */
  ghost predicate TopBit(x: Word, s: nat) { exists i: nat :: 32 <= i + s && i < 32 && Bit(x, i) }

  lemma {:induction false} FlsStep(x0: Word, x: Word, r: nat, s: nat)
    requires 2 * s <= r <= 32 && Raised(x0, x, r) && TopBit(x, 2 * s)
    ensures And(x, High(s)) != 0 ==> TopBit(x, s)
    ensures And(x, High(s)) == 0 ==> var y := And(Shl(x, s), Low(32)); Raised(x0, y, r - s) && TopBit(y, s)
  {
    hide Bit; hide And; hide High; hide Shl; hide Low; hide Raised;
    if And(x, High(s)) != 0 {
      SomeBit(And(x, High(s)));
      var i: nat :| i < 64 && Bit(And(x, High(s)), i);
      OpsBit(x, High(s), i);
      HighBit(s, i);
    } else {
      forall i: nat | 32 <= i + s && i < 32
        ensures !Bit(x, i)
      {
        OpsBit(x, High(s), i);
        HighBit(s, i);
        OpsBit(0, 0, i);
      }
      FlsShift(x0, x, r, s);
    }
  }

  lemma {:induction false} UpBit(x: Word, s: nat, i: nat)
    requires s <= i < 32
    ensures Bit(And(Shl(x, s), Low(32)), i) <==> Bit(x, i - s)
  {
    hide Bit; hide And; hide Shl; hide Low;
    OpsBit(Shl(x, s), Low(32), i);
    LeftBit(x, s, i);
    LowBit(32, i);
  }

  lemma {:induction false} FlsShift(x0: Word, x: Word, r: nat, s: nat)
    requires 2 * s <= r <= 32 && Raised(x0, x, r) && TopBit(x, 2 * s)
    requires forall i: nat :: 32 <= i + s && i < 32 ==> !Bit(x, i)
    ensures var y := And(Shl(x, s), Low(32)); Raised(x0, y, r - s) && TopBit(y, s)
  {
    hide Bit; hide And; hide Shl; hide Low; hide Raised;
    var y := And(Shl(x, s), Low(32));
    var i: nat :| 32 <= i + 2 * s && i < 32 && Bit(x, i);
    UpBit(x, s, i + s);
    forall j: nat
      ensures j >= r - s ==> !Bit(x0, j)
      ensures j < r - s ==> (Bit(x0, j) <==> Bit(y, j + (32 - (r - s))))
    {
      RaisedAt(x0, x, r, j);
      if j < r - s { UpBit(x, s, j + (32 - (r - s))); }
    }
    RaisedIf(x0, y, r - s);
  }

  lemma {:induction false} RaisedAt(x0: Word, x: Word, r: nat, j: nat)
    requires Raised(x0, x, r) && r <= 32
    ensures if j < r then Bit(x0, j) <==> Bit(x, j + (32 - r)) else !Bit(x0, j)
  {
    hide Bit;
  }

  lemma {:induction false} RaisedIf(x0: Word, x: Word, r: nat)
    requires r <= 32
    requires forall i: nat :: i < r ==> (Bit(x0, i) <==> Bit(x, i + (32 - r)))
    requires forall i: nat :: i >= r ==> !Bit(x0, i)
    ensures Raised(x0, x, r)
  {
    hide Bit;
  }

  /** fls: the number of bits that it takes to write x, which is an unsigned 32-bit number. */
  method Fls(x0: Word) returns (r: nat)
    requires WordValue(x0) < Pow2(32)
    ensures r <= 32 && WordValue(x0) < Pow2(r) && (r > 0 ==> Pow2(r - 1) <= WordValue(x0))
  {
    hide *;
    var x := x0;
    r := 32;
    if x == 0 {
      ZeroOne();
      assert Pow2(0) == 1 by { PowZero(); }
      return 0;
    }
    FlsStart(x);
    HighMasks();
    LowMasks();
    FlsStep(x0, x, r, 16);
    if And(x, 0xffff_0000) == 0 {
      x := And(Shl(x, 16), 0xffff_ffff);
      r := r - 16;
    }
    FlsStep(x0, x, r, 8);
    if And(x, 0xff00_0000) == 0 {
      x := And(Shl(x, 8), 0xffff_ffff);
      r := r - 8;
    }
    FlsStep(x0, x, r, 4);
    if And(x, 0xf000_0000) == 0 {
      x := And(Shl(x, 4), 0xffff_ffff);
      r := r - 4;
    }
    FlsStep(x0, x, r, 2);
    if And(x, 0xc000_0000) == 0 {
      x := And(Shl(x, 2), 0xffff_ffff);
      r := r - 2;
    }
    FlsStep(x0, x, r, 1);
    if And(x, 0x8000_0000) == 0 {
      x := And(Shl(x, 1), 0xffff_ffff);
      r := r - 1;
    }
    FlsEnd(x0, x, r);
  }

  lemma {:induction false} PowZero()
    ensures Pow2(0) == 1
  {}

  lemma {:induction false} FlsStart(x: Word)
    requires x != 0 && WordValue(x) < Pow2(32)
    ensures Raised(x, x, 32) && TopBit(x, 32)
  {
    hide Bit; hide WordValue; hide Pow2;
    WordClear(x, 32);
    SomeBit(x);
  }

  lemma {:induction false} FlsEnd(x0: Word, x: Word, r: nat)
    requires 0 < r <= 32 && Raised(x0, x, r) && TopBit(x, 1)
    ensures Pow2(r - 1) <= WordValue(x0) < Pow2(r)
  {
    hide Bit; hide WordValue; hide Pow2; hide Raised;
    RaisedAt(x0, x, r, r - 1);
    forall i: nat | i >= r
      ensures !Bit(x0, i)
    {
      RaisedAt(x0, x, r, i);
    }
    WordClear(x0, r);
    WordClear(x0, r - 1);
  }
}
