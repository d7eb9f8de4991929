/** Searching a bitmap for the next set or clear bit (find_bit.c, asm-generic/bitops/__ffs.h). */
module FindBit {
  import opened BitWord

  /** Bit i of a bitmap. */
  predicate At(words: seq<Word>, i: nat) { i / 64 < |words| && Bit(words[i / 64], i % 64) }

  /** BITMAP_FIRST_WORD_MASK */
  function FirstMask(start: nat): Word { Shl(ONES, start % 64) }

  /** BITMAP_LAST_WORD_MASK */
  function LastMask(nbits: nat): Word { Shr(ONES, (64 - nbits % 64) % 64) }

  lemma {:induction false} MaskBits(n: nat, i: nat)
    ensures Bit(FirstMask(n), i) <==> n % 64 <= i < 64
    ensures Bit(LastMask(n), i) <==> i < if n % 64 == 0 then 64 else n % 64
  {
    hide Bit; hide Shl; hide Shr;
    LeftBit(ONES, n % 64, i);
    if n % 64 <= i { OnesBit(i - n % 64); }
    RightBit(ONES, (64 - n % 64) % 64, i);
    OnesBit((64 - n % 64) % 64 + i);
  }

  /** The low s bits. */
  function Low(s: nat): Word
    requires s <= 64
  {
    Shr(ONES, 64 - s)
  }

  lemma {:induction false} LowBit(s: nat, i: nat)
    requires s <= 64
    ensures Bit(Low(s), i) <==> i < s
  {
    hide Bit; hide Shr;
    RightBit(ONES, 64 - s, i);
    OnesBit(64 - s + i);
  }

  lemma {:induction false} LowMasks()
    ensures Low(32) == 0xffff_ffff && Low(16) == 0xffff && Low(8) == 0xff && Low(4) == 0xf && Low(2) == 0x3
      && Low(1) == 0x1
  {
    OnesShifted();
    assert Low(4) == 0xf && Low(2) == 0x3;
  }

  /** The first set bit of w is at num or above, and word is what is left of w there. */
  ghost predicate Narrowed(w: Word, word: Word, num: nat)
  {
    word == Shr(w, num) && forall j: nat :: j < num ==> !Bit(w, j)
  }

  lemma {:induction false} Narrow(w: Word, word: Word, num: nat, s: nat)
    requires Narrowed(w, word, num) && s <= 64 && And(word, Low(s)) == 0
    ensures Narrowed(w, Shr(word, s), num + s)
  {
    hide And; hide Bit; hide Shr; hide Low;
    ShrSum(w, num, s);
    forall j: nat | num <= j < num + s
      ensures !Bit(w, j)
    {
      RightBit(w, num, j - num);
      LowBit(s, j - num);
      OpsBit(word, Low(s), j - num);
    }
  }

  lemma {:induction false} ShrTwo(w: Word)
    ensures Shr(w, 1) == w >> 1 && Shr(w, 2) == w >> 2 && Shr(w, 4) == w >> 4
  {}

  /** A shift by twice as much, and what it leaves of a word that has a set bit. */
  lemma {:induction false} ShrEight(w: Word)
    ensures Shr(w, 8) == w >> 8
  {
    ShrSum(w, 4, 4);
    ShrTwo(w);
    ShrTwo(w >> 4);
  }

  lemma {:induction false} ShrSixteen(w: Word)
    ensures Shr(w, 16) == w >> 16
  {
    ShrSum(w, 8, 8);
    ShrEight(w);
    ShrEight(w >> 8);
  }

  lemma {:induction false} ShrThirtyTwo(w: Word)
    ensures Shr(w, 32) == w >> 32
  {
    ShrSum(w, 16, 16);
    ShrSixteen(w);
    ShrSixteen(w >> 16);
  }

  lemma {:induction false} Upper32(word: Word)
    requires word != 0 && And(word, 0xffff_ffff) == 0
    ensures And(Shr(word, 32), 0xffff_ffff) != 0
  {
    ShrThirtyTwo(word);
  }

  lemma {:induction false} Upper16(word: Word)
    requires And(word, 0xffff_ffff) != 0 && And(word, 0xffff) == 0
    ensures And(Shr(word, 16), 0xffff) != 0
  {
    ShrSixteen(word);
  }

  lemma {:induction false} Upper8(word: Word)
    requires And(word, 0xffff) != 0 && And(word, 0xff) == 0
    ensures And(Shr(word, 8), 0xff) != 0
  {
    ShrEight(word);
  }

  lemma {:induction false} Upper4(word: Word)
    requires And(word, 0xff) != 0 && And(word, 0xf) == 0
    ensures And(Shr(word, 4), 0xf) != 0
  {
    ShrTwo(word);
  }

  lemma {:induction false} Upper2(word: Word)
    requires And(word, 0xf) != 0 && And(word, 0x3) == 0
    ensures And(Shr(word, 2), 0x3) != 0
  {
    ShrTwo(word);
  }

  lemma {:induction false} Lowest(word: Word)
    requires And(word, 0x3) != 0
    ensures if And(word, 0x1) == 0 then Odd(Shr(word, 1)) else Odd(word)
  {
    ShrTwo(word);
  }

  /** __ffs: halves the word until one bit is left. */
  method Ffs(word0: Word) returns (num: nat)
    requires word0 != 0
    ensures num < 64 && Bit(word0, num) && forall j: nat :: j < num ==> !Bit(word0, j)
  {
    hide And; hide Shr; hide Low; hide Odd;
    LowMasks();
    var word := word0;
    num := 0;
    ShrZero(word0);
    if And(word, 0xffff_ffff) == 0 {
      Upper32(word);
      Narrow(word0, word, num, 32);
      num := num + 32;
      word := Shr(word, 32);
    }
    if And(word, 0xffff) == 0 {
      Upper16(word);
      Narrow(word0, word, num, 16);
      num := num + 16;
      word := Shr(word, 16);
    }
    if And(word, 0xff) == 0 {
      Upper8(word);
      Narrow(word0, word, num, 8);
      num := num + 8;
      word := Shr(word, 8);
    }
    if And(word, 0xf) == 0 {
      Upper4(word);
      Narrow(word0, word, num, 4);
      num := num + 4;
      word := Shr(word, 4);
    }
    if And(word, 0x3) == 0 {
      Upper2(word);
      Narrow(word0, word, num, 2);
      num := num + 2;
      word := Shr(word, 2);
    }
    Lowest(word);
    if And(word, 0x1) == 0 {
      Narrow(word0, word, num, 1);
      num := num + 1;
    }
  }

  /** Bit i is one that the search is for. */
  ghost predicate Wanted(words: seq<Word>, invert: Word, i: nat) { At(words, i) != (invert == ONES) }

  /** No bit in [lo, hi) is wanted. */
  ghost predicate None(words: seq<Word>, invert: Word, lo: nat, hi: nat)
  {
    forall i: nat :: lo <= i < hi ==> !Wanted(words, invert, i)
  }

  /** The bits of a fetched word, with those below lo masked off. */
  ghost predicate Fetched(words: seq<Word>, invert: Word, tmp: Word, start: nat, lo: nat)
  {
    forall j: nat :: j < 64 ==> (Bit(tmp, j) <==> lo <= start + j && Wanted(words, invert, start + j))
  }

  /** Bit j of the word that bit number start begins. */
  lemma {:induction false} Place(start: nat, j: nat)
    requires start % 64 == 0 && j < 64
    ensures (start + j) / 64 == start / 64 && (start + j) % 64 == j
  {}

  lemma {:induction false} Fetch(words: seq<Word>, invert: Word, start: nat, lo: nat)
    requires invert == 0 || invert == ONES
    requires start % 64 == 0 && start <= lo < start + 64 && start / 64 < |words|
    ensures Fetched(words, invert, And(Xor(words[start / 64], invert), FirstMask(lo)), start, lo)
    ensures lo == start ==> Fetched(words, invert, Xor(words[start / 64], invert), start, lo)
  {
    hide And, Xor, Bit, FirstMask, LastMask, Wanted;
    var w := words[start / 64];
    forall j: nat | j < 64
      ensures Bit(Xor(w, invert), j) <==> Wanted(words, invert, start + j)
      ensures Bit(And(Xor(w, invert), FirstMask(lo)), j) <==> lo <= start + j && Wanted(words, invert, start + j)
    {
      FetchBit(words, invert, start, lo, j);
    }
  }

  lemma {:induction false} FetchBit(words: seq<Word>, invert: Word, start: nat, lo: nat, j: nat)
    requires invert == 0 || invert == ONES
    requires start % 64 == 0 && start <= lo < start + 64 && start / 64 < |words| && j < 64
    ensures var w := Xor(words[start / 64], invert);
      && (Bit(w, j) <==> Wanted(words, invert, start + j))
      && (Bit(And(w, FirstMask(lo)), j) <==> lo <= start + j && Wanted(words, invert, start + j))
  {
    hide And, Xor, Bit, FirstMask, LastMask;
    var w := words[start / 64];
    Place(start, j);
    Place(start, lo - start);
    OpsBit(w, invert, j);
    OpsBit(Xor(w, invert), FirstMask(lo), j);
    OnesBit(j);
    OpsBit(0, 0, j);
    MaskBits(lo, j);
  }

  lemma {:induction false} ZeroWord(words: seq<Word>, invert: Word, start: nat, lo: nat)
    requires Fetched(words, invert, 0, start, lo) && start <= lo
    ensures None(words, invert, lo, start + 64)
  {
    hide Bit; hide Wanted;
    forall i: nat | lo <= i < start + 64
      ensures !Wanted(words, invert, i)
    {
      OpsBit(0, 0, i - start);
      assert Bit(0, i - start) <==> lo <= start + (i - start) && Wanted(words, invert, start + (i - start));
    }
  }

  /** _find_next_bit: the least bit from start0 on that is set, or clear when invert is all ones. */
  method FindNext(words: array<Word>, nbits: nat, start0: nat, invert: Word) returns (r: nat)
    requires nbits <= 64 * words.Length && (invert == 0 || invert == ONES)
    ensures r <= nbits && None(words[..], invert, start0, r)
    ensures r < nbits ==> start0 <= r && Wanted(words[..], invert, r)
    ensures start0 >= nbits ==> r == nbits
  {
    hide And; hide Xor; hide Bit; hide FirstMask; hide LastMask; hide Wanted; hide Fetched;
    if start0 >= nbits { return nbits; }
    var start := start0;
    ghost var lo := start;
    var tmp := Xor(words[start / 64], invert);
    tmp := And(tmp, FirstMask(start));
    start := start / 64 * 64;
    Fetch(words[..], invert, start, lo);
    while tmp == 0
      invariant start % 64 == 0 && start <= lo < start + 64 && start < nbits
      invariant start0 <= lo && None(words[..], invert, start0, lo)
      invariant Fetched(words[..], invert, tmp, start, lo)
      decreases nbits - start
    {
      ZeroWord(words[..], invert, start, lo);
      start := start + 64;
      lo := start;
      if start >= nbits { return nbits; }
      tmp := Xor(words[start / 64], invert);
      Fetch(words[..], invert, start, lo);
    }
    var num := Ffs(tmp);
    FirstOne(words[..], invert, tmp, start, lo, num);
    r := if start + num < nbits then start + num else nbits;
  }

  lemma {:induction false} FirstOne(words: seq<Word>, invert: Word, tmp: Word, start: nat, lo: nat, num: nat)
    requires Fetched(words, invert, tmp, start, lo) && start <= lo
    requires num < 64 && Bit(tmp, num) && forall j: nat :: j < num ==> !Bit(tmp, j)
    ensures lo <= start + num && Wanted(words, invert, start + num) && None(words, invert, lo, start + num)
  {
    hide Bit; hide Wanted;
    forall i: nat | lo <= i < start + num
      ensures !Wanted(words, invert, i)
    {
      assert !Bit(tmp, i - start);
      assert start + (i - start) == i;
    }
  }

  /** All bits in [lo, hi) are clear. */
  ghost predicate Clear(words: seq<Word>, lo: nat, hi: nat)
  {
    forall i: nat :: lo <= i < hi ==> !At(words, i)
  }

  /** find_next_bit */
  method FindNextBit(words: array<Word>, size: nat, offset: nat) returns (r: nat)
    requires size <= 64 * words.Length
    ensures r <= size && Clear(words[..], offset, r)
    ensures r < size ==> offset <= r && At(words[..], r)
    ensures offset >= size ==> r == size
  {
    hide At;
    r := FindNext(words, size, offset, 0);
    forall i: nat | offset <= i < r
      ensures !At(words[..], i)
    {
      assert !Wanted(words[..], 0, i);
    }
  }

  /** find_next_zero_bit */
  method FindNextZeroBit(words: array<Word>, size: nat, offset: nat) returns (r: nat)
    requires size <= 64 * words.Length
    ensures r <= size && forall i: nat :: offset <= i < r ==> At(words[..], i)
    ensures r < size ==> offset <= r && !At(words[..], r)
    ensures offset >= size ==> r == size
  {
    hide At;
    r := FindNext(words, size, offset, ONES);
    forall i: nat | offset <= i < r
      ensures At(words[..], i)
    {
      assert !Wanted(words[..], ONES, i);
    }
  }

  /** find_first_bit */
  method FindFirstBit(words: array<Word>, size: nat) returns (r: nat)
    requires size <= 64 * words.Length
    ensures r <= size && Clear(words[..], 0, r) && (r < size ==> At(words[..], r))
  {
    hide Bit;
    var idx := 0;
    while idx * 64 < size
      invariant Clear(words[..], 0, idx * 64)
      decreases size - idx * 64
    {
      if words[idx] != 0 {
        var num := Ffs(words[idx]);
        assert (idx * 64 + num) / 64 == idx && (idx * 64 + num) % 64 == num;
        forall i: nat | i < idx * 64 + num
          ensures !At(words[..], i)
        {
          if i >= idx * 64 { assert i / 64 == idx && !Bit(words[idx], i % 64); }
        }
        return if idx * 64 + num < size then idx * 64 + num else size;
      }
      forall i: nat | i < idx * 64 + 64
        ensures !At(words[..], i)
      {
        if i >= idx * 64 { OpsBit(0, 0, i % 64); assert i / 64 == idx; }
      }
      idx := idx + 1;
    }
    r := size;
  }
}
