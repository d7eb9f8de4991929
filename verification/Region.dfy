/** Power-of-two regions of a bitmap: __reg_op and the three calls built on it (bitmap.c). */
module Region {
  import opened BitWord
  import opened FindBit
  import opened Powers
  import opened Arith

  /** Small regions fit a word and divide it, large ones are made of whole words. */
  lemma {:induction false} Sizes(order: nat)
    ensures order < 6 ==> Pow2(order) in {1, 2, 4, 8, 16, 32}
    ensures order >= 6 ==> Pow2(order) % 64 == 0 && Pow2(order) >= 64
  {
    if order > 6 { Sizes(order - 1); }
    assert Pow2(3) == 8;
  }

  /** The region of n bits at pos lies in the bitmap, aligned to its size. */
  predicate InMap(len: nat, pos: nat, order: nat) { pos % Pow2(order) == 0 && pos + Pow2(order) <= 64 * len }

  /** Exactly the bits in [lo, hi) have been set to v. */
  ghost predicate Painted(before: seq<Word>, after: seq<Word>, lo: nat, hi: nat, v: bool)
  {
    && |after| == |before|
    && forall i: nat :: i < 64 * |before| ==> At(after, i) == if lo <= i < hi then v else At(before, i)
  }

  /** The mask with bits [offset, offset + n), built without shifting by 64. */
  function RegMask(n: nat, offset: nat): Word
    requires 1 <= n
  {
    var mask := Shl(1, n - 1);
    Shl(Sum(mask, Less(mask)), offset)
  }

  function Sum(a: Word, b: Word): Word { a + b }
  function Less(a: Word): Word { a - 1 }

  lemma {:induction false} FillStep(m: Word)
    ensures Sum(Twice(m), Less(Twice(m))) == Or(Twice(Sum(m, Less(m))), 1)
  {
    hide *;
    FillRaw(m);
    FillDefs(m);
  }

  lemma {:induction false} FillRaw(m: Word)
    ensures Sum(m << 1, (m << 1) - 1) == Or((m + (m - 1)) << 1, 1)
  {}

  lemma {:induction false} FillDefs(m: Word)
    ensures Twice(m) == m << 1 && Less(m << 1) == (m << 1) - 1
    ensures Less(m) == m - 1 && Sum(m, m - 1) == m + (m - 1) && Twice(m + (m - 1)) == (m + (m - 1)) << 1
  {}

  lemma {:induction false} FillBit(n: nat, i: nat)
    requires 1 <= n <= 64
    ensures Bit(Sum(Shl(1, n - 1), Less(Shl(1, n - 1))), i) <==> i < n
  {
    hide Bit; hide Sum; hide Less; hide Twice; hide Or;
    if n == 1 { FillOne(); OneBit(i); } else {
      var m := Shl(1, n - 2);
      FillStep(m);
      var f := Sum(m, Less(m));
      OpsBit(Twice(f), 1, i);
      OneBit(i);
      TwiceBit(f, i);
      if i > 0 { FillBit(n - 1, i - 1); }
    }
  }

  lemma {:induction false} FillOne()
    ensures Sum(1, Less(1)) == 1
  {}

  lemma {:induction false} RegMaskBit(n: nat, offset: nat, i: nat)
    requires 1 <= n && offset + n <= 64
    ensures Bit(RegMask(n, offset), i) <==> offset <= i < offset + n
  {
    hide Bit; hide Shl; hide Sum; hide Less;
    LeftBit(Sum(Shl(1, n - 1), Less(Shl(1, n - 1))), offset, i);
    if offset <= i { FillBit(n, i - offset); }
  }

  // ---- __reg_op ----

  /** What the loops of __reg_op work on: the words from index on, each with the same mask. */
  ghost predicate Spanned(len: nat, pos: nat, order: nat, index: nat, nlongs: nat, mask: Word)
  {
    && index + nlongs <= len
    && forall i: nat :: i < 64 * len ==>
        (pos <= i < pos + Pow2(order) <==> index <= i / 64 < index + nlongs && Bit(mask, i % 64))
  }

  lemma {:induction false} SpanIs(len: nat, pos: nat, order: nat)
    requires InMap(len, pos, order)
    ensures var n := Pow2(order);
      && Spanned(len, pos, order, pos / 64, (n + 63) / 64, RegMask(if n < 64 then n else 64, pos % 64))
  {
    hide Bit; hide RegMask;
    Sizes(order);
    var n := Pow2(order);
    var nbits := if n < 64 then n else 64;
    Fits(pos, n);
    var mask := RegMask(nbits, pos % 64);
    forall i: nat | i < 64 * len
      ensures pos <= i < pos + n <==> pos / 64 <= i / 64 < pos / 64 + (n + 63) / 64 && Bit(mask, i % 64)
    {
      RegMaskBit(nbits, pos % 64, i % 64);
    }
  }

  lemma {:induction false} Fits(pos: nat, n: nat)
    requires n in {1, 2, 4, 8, 16, 32} || (n % 64 == 0 && n > 0)
    requires pos % n == 0
    ensures n < 64 ==> pos % 64 + n <= 64 && (n + 63) / 64 == 1
    ensures n >= 64 ==> pos % 64 == 0 && (n + 63) / 64 == n / 64
  {
    if n >= 64 { Whole(pos, n / 64); } else { FitsSmall(pos, n, 64 / n); }
  }

  lemma {:induction false} FitsSmall(pos: nat, n: nat, k: nat)
    requires n > 0 && n * k == 64 && pos % n == 0
    ensures pos % 64 + n <= 64
  {
    assert 64 * (pos / 64) == n * (k * (pos / 64)) by { Assoc(n, k, pos / 64); }
    RestOff(pos, n, k * (pos / 64));
    RestIs(64, n, k, 0);
    Apart(pos % 64, 64, n);
  }

  lemma {:induction false} Whole(pos: nat, k: nat)
    requires k > 0 && pos % (64 * k) == 0
    ensures pos % 64 == 0
  {
    var q := pos / (64 * k);
    assert pos == (64 * k) * q;
    assert (64 * k) * q == 64 * (k * q) by { Assoc(64, k, q); }
  }

  lemma {:induction false} SpanFree(s: seq<Word>, pos: nat, order: nat, index: nat, nlongs: nat, mask: Word)
    requires Spanned(|s|, pos, order, index, nlongs, mask) && pos + Pow2(order) <= 64 * |s|
    requires forall k :: index <= k < index + nlongs ==> And(s[k], mask) == 0
    ensures Clear(s, pos, pos + Pow2(order))
  {
    hide Bit; hide And; hide Pow2;
    forall i: nat | pos <= i < pos + Pow2(order)
      ensures !At(s, i)
    {
      OpsBit(s[i / 64], mask, i % 64);
      OpsBit(0, 0, i % 64);
    }
  }

  lemma {:induction false} SpanTaken(s: seq<Word>, pos: nat, order: nat, index: nat, nlongs: nat, mask: Word, k: nat,
          j: nat)
    requires Spanned(|s|, pos, order, index, nlongs, mask) && index <= k < index + nlongs
    requires j < 64 && Bit(And(s[k], mask), j)
    ensures !Clear(s, pos, pos + Pow2(order))
  {
    hide Bit; hide And; hide Pow2;
    OpsBit(s[k], mask, j);
    Place(64 * k, j);
    assert At(s, 64 * k + j);
  }

  /** REG_OP_ISFREE */
  method IsFree(words: array<Word>, pos: nat, order: nat) returns (ret: bool)
    requires InMap(words.Length, pos, order)
    ensures ret <==> Clear(words[..], pos, pos + Pow2(order))
  {
    hide Bit; hide RegMask; hide And; hide Spanned; hide Clear; hide Pow2;
    var n := Pow2(order);
    var index, nlongs, mask := pos / 64, (n + 63) / 64, RegMask(if n < 64 then n else 64, pos % 64);
    SpanIs(words.Length, pos, order);
    SpanIn(words.Length, pos, order, index, nlongs, mask);
    for i := 0 to nlongs
      invariant forall k :: index <= k < index + i ==> And(words[k], mask) == 0
    {
      if And(words[index + i], mask) != 0 {
        var j := Ffs(And(words[index + i], mask));
        SpanTaken(words[..], pos, order, index, nlongs, mask, index + i, j);
        return false;
      }
    }
    SpanFree(words[..], pos, order, index, nlongs, mask);
    ret := true;
  }

  lemma {:induction false} SpanIn(len: nat, pos: nat, order: nat, index: nat, nlongs: nat, mask: Word)
    requires Spanned(len, pos, order, index, nlongs, mask)
    ensures index + nlongs <= len
  {}

  lemma {:induction false} SpanPainted(s: seq<Word>, t: seq<Word>, pos: nat, order: nat, index: nat, nlongs: nat,
          mask: Word, v: bool)
    requires Spanned(|s|, pos, order, index, nlongs, mask) && |t| == |s|
    requires forall k :: 0 <= k < |s| ==>
      t[k] == if index <= k < index + nlongs then (if v then Or(s[k], mask) else And(s[k], Not(mask))) else s[k]
    ensures Painted(s, t, pos, pos + Pow2(order), v)
  {
    hide Bit; hide And; hide Or; hide Not; hide Pow2;
    forall i: nat | i < 64 * |s|
      ensures At(t, i) == if pos <= i < pos + Pow2(order) then v else At(s, i)
    {
      OpsBit(s[i / 64], mask, i % 64);
      OpsBit(s[i / 64], Not(mask), i % 64);
      NotBit(mask, i % 64);
    }
  }

  /** REG_OP_ALLOC and REG_OP_RELEASE */
  method Paint(words: array<Word>, pos: nat, order: nat, v: bool)
    requires InMap(words.Length, pos, order)
    modifies words
    ensures Painted(old(words[..]), words[..], pos, pos + Pow2(order), v)
  {
    hide Bit; hide RegMask; hide And; hide Or; hide Not; hide Spanned; hide Painted; hide Pow2;
    var n := Pow2(order);
    var index, nlongs, mask := pos / 64, (n + 63) / 64, RegMask(if n < 64 then n else 64, pos % 64);
    SpanIs(words.Length, pos, order);
    SpanIn(words.Length, pos, order, index, nlongs, mask);
    for i := 0 to nlongs
      invariant forall k :: 0 <= k < words.Length ==>
        words[k] == if index <= k < index + i then (if v then Or(old(words[k]), mask)
            else And(old(words[k]), Not(mask)))
                    else old(words[k])
    {
      words[index + i] := if v then Or(words[index + i], mask) else And(words[index + i], Not(mask));
    }
    SpanPainted(old(words[..]), words[..], pos, order, index, nlongs, mask, v);
  }

  // ---- the allocator ----

  const ENOMEM: int := 12
  const EBUSY: int := 16

  /** Whether pos is where an allocation of this order could go. */
  ghost predicate Vacant(words: seq<Word>, bits: nat, pos: nat, order: nat)
  {
    pos % Pow2(order) == 0 && pos + Pow2(order) <= bits && Clear(words, pos, pos + Pow2(order))
  }

  /** The first vacant region has been taken, or there is none. */
  ghost predicate FirstTaken(before: seq<Word>, after: seq<Word>, bits: nat, order: nat, r: int)
  {
    if r >= 0 then
      && Vacant(before, bits, r, order) && (forall p: nat :: p < r ==> !Vacant(before, bits, p, order))
      && Painted(before, after, r, r + Pow2(order), true)
    else
      r == -ENOMEM && after == before && forall p: nat :: !Vacant(before, bits, p, order)
  }

  /** bitmap_find_free_region */
  method FindFreeRegion(words: array<Word>, bits: nat, order: nat) returns (r: int)
    requires bits <= 64 * words.Length
    modifies words
    ensures FirstTaken(old(words[..]), words[..], bits, order, r)
  {
    hide Clear; hide Painted; hide Pow2;
    var pos := 0;
    while pos + Pow2(order) <= bits
      invariant pos % Pow2(order) == 0 && words[..] == old(words[..])
      invariant forall p: nat :: p < pos ==> !Vacant(words[..], bits, p, order)
      decreases bits - pos
    {
      var free := IsFree(words, pos, order);
      if free {
        Paint(words, pos, order, true);
        return pos;
      }
      NextRegion(words[..], bits, pos, order);
      pos := pos + Pow2(order);
    }
    forall p: nat
      ensures !Vacant(words[..], bits, p, order)
    {}
    r := -ENOMEM;
  }

  lemma {:induction false} NextRegion(words: seq<Word>, bits: nat, pos: nat, order: nat)
    requires pos % Pow2(order) == 0 && !Vacant(words, bits, pos, order)
    ensures (pos + Pow2(order)) % Pow2(order) == 0
    ensures forall p: nat :: pos <= p < pos + Pow2(order) ==> !Vacant(words, bits, p, order)
  {
    hide Pow2; hide Clear;
    var n := Pow2(order);
    Next(pos, n);
  }

  lemma {:induction false} Next(pos: nat, n: nat)
    requires n > 0 && pos % n == 0
    ensures (pos + n) % n == 0 && forall p: nat :: pos < p < pos + n ==> p % n != 0
  {
    forall p: nat | pos < p < pos + n
      ensures p % n == p - pos
    {
      RestIs(p, n, pos / n, p - pos);
    }
    RestIs(pos + n, n, pos / n + 1, 0);
  }

  /** bitmap_release_region */
  method ReleaseRegion(words: array<Word>, pos: nat, order: nat)
    requires InMap(words.Length, pos, order)
    modifies words
    ensures Painted(old(words[..]), words[..], pos, pos + Pow2(order), false)
  {
    Paint(words, pos, order, false);
  }

  /** bitmap_allocate_region */
  method AllocateRegion(words: array<Word>, pos: nat, order: nat) returns (r: int)
    requires InMap(words.Length, pos, order)
    modifies words
    ensures if Clear(old(words[..]), pos, pos + Pow2(order))
      then r == 0 && Painted(old(words[..]), words[..], pos, pos + Pow2(order), true)
      else r == -EBUSY && words[..] == old(words[..])
  {
    var free := IsFree(words, pos, order);
    if !free { return -EBUSY; }
    Paint(words, pos, order, true);
    r := 0;
  }
}
