/** First-fit search for an aligned run of clear bits (bitmap.c, bitmap_find_next_zero_area_off). */
module ZeroArea {
  import opened BitWord
  import opened Arith
  import opened CTypes
  import opened FindBit

  /** mask is one less than a power of two: a divisor of 2^64. */
  predicate IsMask(mask: nat) { TWO64 % (mask + 1) == 0 }

  /** x & ~mask */
  function Clip(x: nat, mask: nat): nat { x - x % (mask + 1) }

  /** __ALIGN_MASK in an unsigned long. */
  function AlignMask(x: nat, mask: nat): nat { Clip(ULong(x + mask), mask) }

  /** start plus the offset is a multiple of the power of two. */
  predicate Aligned(start: nat, mask: nat, offset: nat) { (start + offset) % (mask + 1) == 0 }

  /** An aligned run of nr clear bits, within the bitmap. */
  ghost predicate Area(words: seq<Word>, size: nat, nr: nat, mask: nat, offset: nat, at: nat)
  {
    Aligned(at, mask, offset) && at + nr <= size && Clear(words, at, at + nr)
  }

  /** No such run starts in [lo, hi). */
  ghost predicate NoArea(words: seq<Word>, size: nat, nr: nat, mask: nat, offset: nat, lo: nat, hi: nat)
  {
    forall at: nat :: lo <= at < hi ==> !Area(words, size, nr, mask, offset, at)
  }

  /** The least number from x on that is aligned. */
  ghost predicate Rounds(x: nat, mask: nat, offset: nat, r: nat)
  {
    x <= r <= x + mask && Aligned(r, mask, offset) && forall y: nat :: x <= y < r ==> !Aligned(y, mask, offset)
  }

  /** z is the first clear bit from start on, or size. */
  ghost predicate FirstClear(words: seq<Word>, size: nat, start: nat, z: nat)
  {
    && z <= size
    && (forall i: nat :: start <= i < z ==> At(words, i))
    && (z < size ==> start <= z && !At(words, z))
  }

  // ---- wrapping ----

  lemma {:induction false} WrapOff(x: int, q: int)
    ensures ULong(x - TWO64 * q) == ULong(x)
  {
    RestOff(x, TWO64, q);
  }

  lemma {:induction false} WrapTwice(x: int, y: int)
    ensures ULong(ULong(x) + y) == ULong(x + y)
  {
    DivMod(x, TWO64);
    WrapOff(x + y, x / TWO64);
  }

  /** Wrapping does not change what is left over from a power of two. */
  lemma {:induction false} WrapRest(z: nat, m: int)
    requires m > 0 && TWO64 % m == 0
    ensures ULong(z) % m == z % m && ULong(z) == z - TWO64 * (z / TWO64)
  {
    var k, q := TWO64 / m, z / TWO64;
    DivMod(TWO64, m);
    DivMod(z, TWO64);
    assert TWO64 * q == m * (k * q) by { Assoc(m, k, q); }
    RestOff(z, m, k * q);
  }

  // ---- rounding up ----

  lemma {:induction false} RoundsPlain(index: nat, mask: nat, offset: nat)
    ensures var z := index + offset + mask; var r := z - z % (mask + 1) - offset; Rounds(index, mask, offset, r)
  {
    var m, z := mask + 1, index + offset + mask;
    DivMod(z, m);
    RestIs(z - z % m, m, z / m, 0);
    var r := z - z % m - offset;
    forall y: nat | index <= y < r
      ensures !Aligned(y, mask, offset)
    {
      if Aligned(y, mask, offset) { Apart(y + offset, r + offset, m); }
    }
  }

  /** Rounding up gives the next aligned index, even where index + align_offset wraps. */
  lemma {:induction false} AlignRounds(index: nat, mask: nat, offset: nat)
    requires IsMask(mask) && index + mask < TWO64
    ensures Rounds(index, mask, offset, ULong(AlignMask(ULong(index + offset), mask) - offset))
  {
    hide Rounds; hide ULong;
    var m, z := mask + 1, index + offset + mask;
    var r := z - z % m - offset;
    RoundsPlain(index, mask, offset);
    WrapTwice(index + offset, mask);
    WrapRest(z, m);
    WrapOff(r, z / TWO64);
    assert AlignMask(ULong(index + offset), mask) == ULong(z) - z % m;
    InWord(index, mask, offset, r);
  }

  lemma {:induction false} InWord(index: nat, mask: nat, offset: nat, r: nat)
    requires Rounds(index, mask, offset, r) && index + mask < TWO64
    ensures ULong(r) == r
  {}

  /** bitmap_find_next_zero_area_off */
  method Find(words: array<Word>, size: nat, start0: nat, nr: nat, mask: nat, offset: nat) returns (index: nat)
    requires size <= 64 * words.Length && IsMask(mask) && size + mask + nr < TWO64
    // At most size exactly when there is an area to be found, and then it is the first one.
    ensures nr > 0 ==> NoArea(words[..], size, nr, mask, offset, start0, if index <= size then index else size)
    ensures nr > 0 && index <= size ==> start0 <= index && Area(words[..], size, nr, mask, offset, index)
    // Zero bits are found at the alignment of the first clear bit, not at the first aligned bit.
    ensures nr == 0 ==> exists z: nat :: FirstClear(words[..], size, start0, z) && Rounds(z, mask, offset, index)
  {
    hide At; hide AlignMask; hide ULong; hide Aligned; hide IsMask;
    var start := start0;
    while true
      invariant start0 <= start && (start != start0 ==> nr > 0)
      invariant nr > 0 ==> NoArea(words[..], size, nr, mask, offset, start0, start)
      decreases size - start
    {
      index := FindNextZeroBit(words, size, start);
      ghost var z := index;
      AlignRounds(index, mask, offset);
      index := ULong(AlignMask(ULong(index + offset), mask) - offset);
      Skipped(words[..], size, nr, mask, offset, start, z, index);
      var end := index + nr;
      if end > size {
        return end;
      }
      var i := FindNextBit(words, end, index);
      if i >= end {
        return index;
      }
      Blocked(words[..], size, nr, mask, offset, index, i);
      start := i + 1;
    }
  }

  lemma {:induction false} Skipped(words: seq<Word>, size: nat, nr: nat, mask: nat, offset: nat, start: nat, z: nat,
          index: nat)
    requires Rounds(z, mask, offset, index) && forall i: nat :: start <= i < z ==> At(words, i)
    ensures nr > 0 ==> NoArea(words, size, nr, mask, offset, start, index)
  {
    hide At; hide Aligned;
    forall at: nat | start <= at < index && nr > 0
      ensures !Area(words, size, nr, mask, offset, at)
    {
      if at < z { assert At(words, at); }
    }
  }

  lemma {:induction false} Blocked(words: seq<Word>, size: nat, nr: nat, mask: nat, offset: nat, index: nat, i: nat)
    requires index <= i < index + nr && At(words, i)
    ensures NoArea(words, size, nr, mask, offset, index, i + 1)
  {
    hide At; hide Aligned;
  }

  /** Bit i is clear, or past the end. */
  predicate Stops(words: seq<Word>, size: nat, i: nat) { i >= size || !At(words, i) }

  /**
   * For nr = 0 the search is not first fit: that is the first aligned index r0 from start on. It is found
   * exactly when there is a clear bit, or the end of the bitmap, between start and r0; with start past the
   * end, when nothing in between is aligned.
   */
  lemma {:induction false} NothingWanted(words: seq<Word>, size: nat, start: nat, mask: nat, offset: nat, z: nat,
          r: nat, r0: nat)
    requires FirstClear(words, size, start, z) && Rounds(z, mask, offset, r) && Rounds(start, mask, offset, r0)
    ensures start <= size ==> (r == r0 <==> exists i: nat :: start <= i <= r0 && Stops(words, size, i))
    ensures start > size ==> (r == r0 <==> forall i: nat :: size <= i < start ==> !Aligned(i, mask, offset))
  {
    hide At; hide Aligned;
    if start > size {
      assert z == size && r <= r0;
      if r < start { assert Aligned(r, mask, offset); } else { assert r == r0; }
    } else {
      if r == r0 { assert Stops(words, size, z); }
      if i: nat :| start <= i <= r0 && Stops(words, size, i) {
        assert z <= i;
        assert !(r < r0) && !(r0 < r);
      }
    }
  }

  /** With one bit set and none wanted, index 0 would do, but the answer is not 0. */
  lemma {:induction false} NotFirstFit(z: nat, r: nat)
    requires FirstClear([1], 64, 0, z) && Rounds(z, 0, 0, r)
    ensures Area([1], 64, 0, 0, 0, 0) && r == 1
  {
    hide Bit;
    OneBit(0);
    OneBit(1);
    assert At([1], 0) && !At([1], 1);
    assert z == 1;
  }
}
