/** Counting the set bits of a word in parallel (hweight.c). */
module Hweight {
  import opened BitWord

  // ---- the steps ----

  function Pairs(w: Word): Word { w - ((w >> 1) & 0x5555_5555_5555_5555) }
  function Nibbles(w: Word): Word { (w & 0x3333_3333_3333_3333) + ((w >> 2) & 0x3333_3333_3333_3333) }
  function Bytes(w: Word): Word { (w + (w >> 4)) & 0x0f0f_0f0f_0f0f_0f0f }
  function Gather(w: Word): Word { (w * 0x0101_0101_0101_0101) >> 56 }
  function Fold8(w: Word): Word { w + (w >> 8) }
  function Fold16(w: Word): Word { w + (w >> 16) }
  function Fold32(w: Word): Word { (w + (w >> 32)) & 0xff }

  function Plus(a: Word, b: Word): Word { a + b }

  // ---- sums of fields of 1, 2, 4 and 8 bits ----

  function Low1(w: Word): Word { w & 1 }
  function Low2(w: Word): Word { w & 3 }
  function Low4(w: Word): Word { w & 15 }
  function Low8(w: Word): Word { w & 255 }
  function Drop2(w: Word): Word { w >> 2 }
  function Drop4(w: Word): Word { w >> 4 }
  function Drop8(w: Word): Word { w >> 8 }

  function F1(w: Word, n: nat): Word { if n == 0 then 0 else Plus(Low1(w), F1(Half(w), n - 1)) }
  function F2(w: Word, n: nat): Word { if n == 0 then 0 else Plus(Low2(w), F2(Drop2(w), n - 1)) }
  function F4(w: Word, n: nat): Word { if n == 0 then 0 else Plus(Low4(w), F4(Drop4(w), n - 1)) }
  function F8(w: Word, n: nat): Word { if n == 0 then 0 else Plus(Low8(w), F8(Drop8(w), n - 1)) }

  lemma {:induction false} PairsStep(w: Word)
    ensures Low2(Pairs(w)) == Plus(Low1(w), Low1(Half(w)))
    ensures Drop2(Pairs(w)) == Pairs(Half(Half(w)))
  {}

  lemma {:induction false} NibblesStep(w: Word)
    ensures Low4(Nibbles(w)) == Plus(Low2(w), Low2(Drop2(w)))
    ensures Drop4(Nibbles(w)) == Nibbles(Drop2(Drop2(w)))
  {}

  predicate Small(w: Word) { w & 0x8888_8888_8888_8888 == 0 }
  predicate Tiny(w: Word) { w & 0xf0f0_f0f0_f0f0_f0f0 == 0 }

  lemma {:induction false} BytesStep(w: Word)
    requires Small(w)
    ensures Low8(Bytes(w)) == Plus(Low4(w), Low4(Drop4(w)))
    ensures Drop8(Bytes(w)) == Bytes(Drop4(Drop4(w))) && Small(Drop4(Drop4(w)))
  {}

  lemma {:induction false} Sizes(w: Word)
    ensures Small(Nibbles(w)) && Tiny(Bytes(w))
  {}

  // ---- gathering the eight bytes ----

  function B0(w: Word): Word { w & 255 }
  function B1(w: Word): Word { (w >> 8) & 255 }
  function B2(w: Word): Word { (w >> 16) & 255 }
  function B3(w: Word): Word { (w >> 24) & 255 }
  function B4(w: Word): Word { (w >> 32) & 255 }
  function B5(w: Word): Word { (w >> 40) & 255 }
  function B6(w: Word): Word { (w >> 48) & 255 }
  function B7(w: Word): Word { (w >> 56) & 255 }

  /** The sum of the bytes, by pairs. */
  function Eight(w: Word): Word
  {
    Plus(Plus(Plus(B0(w), B1(w)), Plus(B2(w), B3(w))), Plus(Plus(B4(w), B5(w)), Plus(B6(w), B7(w))))
  }

  predicate Tiny2(w: Word) { w & 0xe0e0_e0e0_e0e0_e0e0 == 0 }
  predicate Tiny4(w: Word) { w & 0xc0c0_c0c0_c0c0_c0c0 == 0 }

  // The multiplication is three, each of which adds one shifted copy.

  function Top(w: Word): Word { w >> 56 }

  function By8(w: Word): Word { w * 0x101 }
  function By16(w: Word): Word { w * 0x1_0001 }
  function By32(w: Word): Word { w * 0x1_0000_0001 }

  lemma {:induction false} GatherTop(w: Word)
    ensures Gather(w) == Top(By32(By16(By8(w))))
  {
    hide *;
    GatherRaw(w);
    ByDefs(w);
  }

  lemma {:induction false} GatherRaw(w: Word)
    ensures Gather(w) == Top(((w * 0x101) * 0x1_0001) * 0x1_0000_0001)
  {}

  lemma {:induction false} ByDefs(w: Word)
    ensures By8(w) == w * 0x101 && By16(w * 0x101) == (w * 0x101) * 0x1_0001
    ensures By32((w * 0x101) * 0x1_0001) == ((w * 0x101) * 0x1_0001) * 0x1_0000_0001
  {}

  lemma {:induction false} By8Is(w: Word)
    requires Tiny(w)
    ensures B1(By8(w)) == Plus(B0(w), B1(w)) && B3(By8(w)) == Plus(B2(w), B3(w))
    ensures B5(By8(w)) == Plus(B4(w), B5(w)) && B7(By8(w)) == Plus(B6(w), B7(w)) && Tiny2(By8(w))
  {}

  lemma {:induction false} By16Is(w: Word)
    requires Tiny2(w)
    ensures B3(By16(w)) == Plus(B1(w), B3(w)) && B7(By16(w)) == Plus(B5(w), B7(w)) && Tiny4(By16(w))
  {}

  lemma {:induction false} By32Is(w: Word)
    requires Tiny4(w)
    ensures Top(By32(w)) == Plus(B3(w), B7(w))
  {}

  lemma {:induction false} GatherIs(w: Word)
    requires Tiny(w)
    ensures Gather(w) == Eight(w)
  {
    hide *;
    GatherTop(w);
    By8Is(w);
    By16Is(By8(w));
    By32Is(By16(By8(w)));
    EightIs(w);
  }

  lemma {:induction false} EightIs(w: Word)
    ensures Eight(w) == Plus(Plus(Plus(B0(w), B1(w)), Plus(B2(w), B3(w))), Plus(Plus(B4(w), B5(w)), Plus(B6(w), B7(w))))
  {}

  lemma {:induction false} Fold8Is(w: Word)
    requires Tiny(w)
    ensures B0(Fold8(w)) == Plus(B0(w), B1(w)) && B2(Fold8(w)) == Plus(B2(w), B3(w))
    ensures B4(Fold8(w)) == Plus(B4(w), B5(w)) && B6(Fold8(w)) == Plus(B6(w), B7(w)) && Tiny2(Fold8(w))
  {}

  lemma {:induction false} Fold16Is(w: Word)
    requires Tiny2(w)
    ensures B0(Fold16(w)) == Plus(B0(w), B2(w)) && B4(Fold16(w)) == Plus(B4(w), B6(w)) && Tiny4(Fold16(w))
  {}

  lemma {:induction false} Fold32Is(w: Word)
    requires Tiny4(w)
    ensures Fold32(w) == Plus(B0(w), B4(w))
  {}

  lemma {:induction false} FoldsIs(w: Word)
    requires Tiny(w)
    ensures Fold32(Fold16(Fold8(w))) == Eight(w)
  {
    hide *;
    Fold8Is(w);
    Fold16Is(Fold8(w));
    Fold32Is(Fold16(Fold8(w)));
    EightIs(w);
  }

  // ---- every step keeps the sum ----

  lemma {:induction false} PairsKeep(w: Word, n: nat)
    ensures F1(w, 2 * n) == F2(Pairs(w), n)
    decreases n
  {
    hide Plus;
    hide Low1; hide Low2; hide Half; hide Drop2; hide Pairs;
    if n > 0 {
      PairsStep(w);
      PairsKeep(Half(Half(w)), n - 1);
      Assoc(Low1(w), Low1(Half(w)), F1(Half(Half(w)), 2 * n - 2));
    }
  }

  lemma {:induction false} Assoc(a: Word, b: Word, c: Word)
    ensures Plus(a, Plus(b, c)) == Plus(Plus(a, b), c)
  {
    AssocRaw(a, b, c);
    assert Plus(a, b + c) == a + (b + c);
    assert Plus(a + b, c) == (a + b) + c;
  }

  lemma {:induction false} AssocRaw(a: Word, b: Word, c: Word)
    ensures a + (b + c) == (a + b) + c
  {}

  lemma {:induction false} NibblesKeep(w: Word, n: nat)
    ensures F2(w, 2 * n) == F4(Nibbles(w), n)
    decreases n
  {
    hide Plus;
    hide Low2; hide Low4; hide Drop2; hide Drop4; hide Nibbles;
    if n > 0 {
      NibblesStep(w);
      NibblesKeep(Drop2(Drop2(w)), n - 1);
      Assoc(Low2(w), Low2(Drop2(w)), F2(Drop2(Drop2(w)), 2 * n - 2));
    }
  }

  lemma {:induction false} BytesKeep(w: Word, n: nat)
    requires Small(w)
    ensures F4(w, 2 * n) == F8(Bytes(w), n)
    decreases n
  {
    hide Plus;
    hide Low4; hide Low8; hide Drop4; hide Drop8; hide Bytes; hide Small;
    if n > 0 {
      BytesStep(w);
      BytesKeep(Drop4(Drop4(w)), n - 1);
      Assoc(Low4(w), Low4(Drop4(w)), F4(Drop4(Drop4(w)), 2 * n - 2));
    }
  }

  lemma {:induction false} DropBytes(w: Word)
    ensures Low8(w) == B0(w) && B0(Drop8(w)) == B1(w) && B1(Drop8(w)) == B2(w) && B2(Drop8(w)) == B3(w)
    ensures B3(Drop8(w)) == B4(w) && B4(Drop8(w)) == B5(w) && B5(Drop8(w)) == B6(w) && B6(Drop8(w)) == B7(w)
  {}

  lemma {:induction false} Two(w: Word, n: nat)
    requires n >= 2
    ensures F8(w, n) == Plus(Plus(B0(w), B1(w)), F8(Drop8(Drop8(w)), n - 2))
  {
    hide Low8; hide Drop8; hide B0; hide B1; hide Plus;
    DropBytes(w);
    DropBytes(Drop8(w));
    Assoc(B0(w), B1(w), F8(Drop8(Drop8(w)), n - 2));
  }

  /** The eight bytes, two at a time. */
  lemma {:induction false} EightBytes(w: Word)
    ensures F8(w, 8) == Eight(w)
  {
    hide Drop8; hide Low8; hide Plus; hide B0; hide B1; hide B2; hide B3; hide B4; hide B5; hide B6; hide B7;
    var v := Drop8(Drop8(w));
    var u := Drop8(Drop8(v));
    var t := Drop8(Drop8(u));
    Two(w, 8);
    Two(v, 6);
    Two(u, 4);
    Two(t, 2);
    Tower(w);
    Regroup(Plus(B0(w), B1(w)), Plus(B2(w), B3(w)), Plus(B4(w), B5(w)), Plus(B6(w), B7(w)));
  }

  lemma {:induction false} Tower(w: Word)
    ensures var v := Drop8(Drop8(w)); B0(v) == B2(w) && B1(v) == B3(w)
    ensures var u := Drop8(Drop8(Drop8(Drop8(w)))); B0(u) == B4(w) && B1(u) == B5(w)
    ensures var t := Drop8(Drop8(Drop8(Drop8(Drop8(Drop8(w)))))); B0(t) == B6(w) && B1(t) == B7(w)
  {
    DropBytes(w);
    DropBytes(Drop8(w));
    DropBytes(Drop8(Drop8(w)));
    DropBytes(Drop8(Drop8(Drop8(w))));
    DropBytes(Drop8(Drop8(Drop8(Drop8(w)))));
    DropBytes(Drop8(Drop8(Drop8(Drop8(Drop8(w))))));
    hide *;
  }

  lemma {:induction false} Regroup(a: Word, b: Word, c: Word, d: Word)
    ensures Plus(a, Plus(b, Plus(c, Plus(d, 0)))) == Plus(Plus(a, b), Plus(c, d))
  {
    hide Plus;
    NoMore(d);
    Assoc(a, b, Plus(c, d));
  }

  lemma {:induction false} NoMore(d: Word)
    ensures Plus(d, 0) == d
  {}

  // ---- counting ----

  function Val(w: Word): nat { w as int }

  /** The number of set bits among the first n. */
  function Count(w: Word, n: nat): (c: nat)
    ensures c <= n
  {
    if n == 0 then 0 else Count(w, n - 1) + if Bit(w, n - 1) then 1 else 0
  }

  /** The same, from the other end. */
  lemma {:induction false} CountFirst(w: Word, n: nat)
    ensures Count(w, n + 1) == (if Odd(w) then 1 else 0) + Count(Half(w), n)
  {
    hide Odd; hide Half;
    if n == 0 { assert Count(w, 1) == Count(w, 0) + if Bit(w, 0) then 1 else 0; } else {
      CountFirst(w, n - 1);
      HalfBit(w, n - 1);
    }
  }

  lemma {:induction false} FieldsCount(w: Word, n: nat)
    requires n <= 64
    ensures Val(F1(w, n)) == Count(w, n)
    decreases n
  {
    hide Plus; hide Low1; hide Odd; hide Half; hide Bit; hide Val;
    if n == 0 { ValZero(); } else {
      FieldsCount(Half(w), n - 1);
      CountFirst(w, n - 1);
      AddBit(w, F1(Half(w), n - 1));
    }
  }

  lemma {:induction false} AddBit(w: Word, s: Word)
    requires Val(s) < 64
    ensures Val(Plus(Low1(w), s)) == (if Odd(w) then 1 else 0) + Val(s)
  {
    hide Plus, Low1, Odd, Val;
    LowOdd(w);
    PlusNone(s);
    PlusOne(s);
  }

  lemma {:induction false} LowOdd(w: Word)
    ensures Low1(w) == if Odd(w) then 1 else 0
  {}

  lemma {:induction false} PlusNone(s: Word)
    ensures Plus(0, s) == s
  {}

  lemma {:induction false} PlusOne(s: Word)
    requires Val(s) < 64
    ensures Val(Plus(1, s)) == 1 + Val(s)
  {
    assert s < 64;
  }

  lemma {:induction false} ValZero()
    ensures Val(0) == 0
  {}

  /** The first three steps leave bytes whose sum is the number of set bits. */
  lemma {:induction false} SumKept(w: Word)
    ensures var z := Bytes(Nibbles(Pairs(w))); Small(Nibbles(Pairs(w))) && Tiny(z) && Val(Eight(z)) == Count(w, 64)
  {
    hide *;
    PairsKeep(w, 32);
    NibblesKeep(Pairs(w), 16);
    Sizes(Pairs(w));
    Sizes(Nibbles(Pairs(w)));
    BytesKeep(Nibbles(Pairs(w)), 8);
    EightBytes(Bytes(Nibbles(Pairs(w))));
    FieldsCount(w, 64);
  }

  /** __sw_hweight64, with a fast multiplier and without. */
  function Hweight64(w: Word, fast: bool): nat
  {
    var res := Bytes(Nibbles(Pairs(w)));
    Val(if fast then Gather(res) else Fold32(Fold16(Fold8(res))))
  }

  /** Both variants count the set bits. */
  lemma {:induction false} Hweight64Counts(w: Word, fast: bool)
    ensures Hweight64(w, fast) == Count(w, 64)
  {
    hide Val, Gather, Fold8, Fold16, Fold32, Bytes, Nibbles, Pairs, Count, Eight;
    hide Small; hide Tiny;
    var z := Bytes(Nibbles(Pairs(w)));
    SumKept(w);
    GatherIs(z);
    FoldsIs(z);
  }

  // ---- 32 bits ----

  type Word32 = bv32

  function Pairs32(w: Word32): Word32 { w - ((w >> 1) & 0x5555_5555) }
  function Nibbles32(w: Word32): Word32 { (w & 0x3333_3333) + ((w >> 2) & 0x3333_3333) }
  function Bytes32(w: Word32): Word32 { (w + (w >> 4)) & 0x0f0f_0f0f }
  function Gather32(w: Word32): Word32 { (w * 0x0101_0101) >> 24 }
  function Fold8In32(w: Word32): Word32 { w + (w >> 8) }
  function Fold16In32(w: Word32): Word32 { (w + (w >> 16)) & 0xff }

  /** The word as the low half of a 64-bit one. */
  function Ext(w: Word32): Word { w as Word }

  lemma {:induction false} Pairs32Is(w: Word32)
    ensures Ext(Pairs32(w)) == Pairs(Ext(w))
  {
    hide *;
    PairsRaw(w);
    PairsDefs(w);
  }

  lemma {:induction false} PairsRaw(w: Word32)
    ensures (w - ((w >> 1) & 0x5555_5555)) as Word == (w as Word) - (((w as Word) >> 1) & 0x5555_5555_5555_5555)
  {}

  lemma {:induction false} PairsDefs(w: Word32)
    ensures Ext(w) == w as Word && Pairs32(w) == w - ((w >> 1) & 0x5555_5555)
    ensures Ext(w - ((w >> 1) & 0x5555_5555)) == (w - ((w >> 1) & 0x5555_5555)) as Word
    ensures Pairs(w as Word) == (w as Word) - (((w as Word) >> 1) & 0x5555_5555_5555_5555)
  {}

  lemma {:induction false} Nibbles32Is(w: Word32)
    ensures Ext(Nibbles32(w)) == Nibbles(Ext(w))
  {}

  lemma {:induction false} Bytes32Is(w: Word32)
    requires Small(Ext(w))
    ensures Ext(Bytes32(w)) == Bytes(Ext(w))
  {}

  lemma {:induction false} Gather32Is(w: Word32)
    requires Tiny(Ext(w))
    ensures Ext(Gather32(w)) == Plus(Plus(B0(Ext(w)), B1(Ext(w))), Plus(B2(Ext(w)), B3(Ext(w))))
  {}

  lemma {:induction false} Folds32Is(w: Word32)
    requires Tiny(Ext(w))
    ensures Ext(Fold16In32(Fold8In32(w))) == Plus(Plus(B0(Ext(w)), B1(Ext(w))), Plus(B2(Ext(w)), B3(Ext(w))))
  {}

  lemma {:induction false} HighHalf(w: Word32)
    ensures B4(Ext(w)) == 0 && B5(Ext(w)) == 0 && B6(Ext(w)) == 0 && B7(Ext(w)) == 0
  {}

  lemma {:induction false} EightLow(w: Word)
    requires B4(w) == 0 && B5(w) == 0 && B6(w) == 0 && B7(w) == 0
    ensures Eight(w) == Plus(Plus(B0(w), B1(w)), Plus(B2(w), B3(w)))
  {
    hide Plus; hide B0; hide B1; hide B2; hide B3;
    NoMore(0);
    NoMore(Plus(Plus(B0(w), B1(w)), Plus(B2(w), B3(w))));
  }

  /** __sw_hweight32, with a fast multiplier and without. */
  function Hweight32(w: Word32, fast: bool): nat
  {
    var res := Bytes32(Nibbles32(Pairs32(w)));
    Val(Ext(if fast then Gather32(res) else Fold16In32(Fold8In32(res))))
  }

  /** Both variants count the set bits. */
  lemma {:induction false} Hweight32Counts(w: Word32, fast: bool)
    ensures Hweight32(w, fast) == Count(Ext(w), 64)
  {
    hide Val, Gather32, Fold8In32, Fold16In32, Bytes32, Nibbles32, Pairs32, Count, Eight;
    hide Small; hide Tiny; hide Ext; hide Bytes; hide Nibbles; hide Pairs; hide Plus;
    hide B0; hide B1; hide B2; hide B3; hide B4; hide B5; hide B6; hide B7;
    var z := Bytes32(Nibbles32(Pairs32(w)));
    Pairs32Is(w);
    Nibbles32Is(Pairs32(w));
    SumKept(Ext(w));
    Bytes32Is(Nibbles32(Pairs32(w)));
    Gather32Is(z);
    Folds32Is(z);
    HighHalf(z);
    EightLow(Ext(z));
  }
}
