/** Shifting a bitmap, also in place (bitmap.c: __bitmap_shift_right, __bitmap_shift_left). */
module Shift {
  import opened BitWord
  import opened FindBit
  import opened Remap
  import opened Weight

  /** Word k of the source, with what is past nbits masked off in the last one. */
  function Masked(src: seq<Word>, k: nat, lim: nat, mask: Word): Word
    requires k < |src|
  {
    if k == lim - 1 then And(src[k], mask) else src[k]
  }

  /** What the loop of __bitmap_shift_right stores in word k. */
  function RightWord(src: seq<Word>, k: nat, off: nat, rem: nat, lim: nat, mask: Word): Word
    requires off + k < lim <= |src| && rem < 64
  {
    var upper := if rem == 0 || off + k + 1 >= lim then 0 else Shl(Masked(src, off + k + 1, lim, mask), 64 - rem);
    var lower := Shr(Masked(src, off + k, lim, mask), rem);
    Or(lower, upper)
  }

  /** Bit i of a bitmap of nbits. */
  predicate In(words: seq<Word>, nbits: nat, i: nat) { i < nbits && At(words, i) }

  lemma {:induction false} MaskedBit(src: seq<Word>, k: nat, nbits: nat, j: nat)
    requires nbits <= 64 * |src| && k < (nbits + 63) / 64 && j < 64
    ensures Bit(Masked(src, k, (nbits + 63) / 64, LastMask(nbits)), j) <==> In(src, nbits, 64 * k + j)
  {
    hide Bit; hide And; hide LastMask; hide At;
    AtPlace(src, k, j);
    MaskBits(nbits, j);
    OpsBit(src[k], LastMask(nbits), j);
    LastWord(nbits, k, j);
  }

  lemma {:induction false} LastWord(nbits: nat, k: nat, j: nat)
    requires k < (nbits + 63) / 64 && j < 64
    ensures 64 * k + j < nbits <==> k < (nbits + 63) / 64 - 1 || j < if nbits % 64 == 0 then 64 else nbits % 64
  {}

  lemma {:induction false} RightWordBit(src: seq<Word>, k: nat, off: nat, rem: nat, nbits: nat, j: nat)
    requires nbits <= 64 * |src| && off + k < (nbits + 63) / 64 && rem < 64 && j < 64
    ensures Bit(RightWord(src, k, off, rem, (nbits + 63) / 64, LastMask(nbits)), j) <==>
      In(src, nbits, 64 * (off + k) + rem + j)
  {
    hide Bit; hide Or; hide Shl; hide Shr; hide LastMask; hide At; hide Masked;
    var lim, mask := (nbits + 63) / 64, LastMask(nbits);
    var lower := Masked(src, off + k, lim, mask);
    RightBit(lower, rem, j);
    NotBit(lower, rem + j);
    if rem + j < 64 { MaskedBit(src, off + k, nbits, rem + j); }
    OpsBit(0, 0, j);
    if rem == 0 || off + k + 1 >= lim {
      OpsBit(Shr(lower, rem), 0, j);
      if rem + j >= 64 { PastEnd(nbits, off + k, rem + j); }
    } else {
      var upper := Masked(src, off + k + 1, lim, mask);
      OpsBit(Shr(lower, rem), Shl(upper, 64 - rem), j);
      LeftBit(upper, 64 - rem, j);
      if rem + j >= 64 { MaskedBit(src, off + k + 1, nbits, rem + j - 64); }
    }
  }

  lemma {:induction false} PastEnd(nbits: nat, k: nat, j: nat)
    requires k + 1 >= (nbits + 63) / 64 && j >= 64
    ensures 64 * k + j >= nbits
  {}

  /** The shifted bitmap: bit i + shift of the source has moved to bit i, and zeros have come in. */
  ghost predicate MovedDown(dst: seq<Word>, src: seq<Word>, shift: nat, nbits: nat)
  {
    forall i: nat :: i < Rounded(nbits) ==> (At(dst, i) <==> In(src, nbits, i + shift))
  }

  lemma {:induction false} RightWords(dst: seq<Word>, src: seq<Word>, shift: nat, nbits: nat)
    requires nbits <= 64 * |src| && nbits <= 64 * |dst| && shift / 64 <= (nbits + 63) / 64
    requires forall k: nat :: k + shift / 64 < (nbits + 63) / 64 ==>
      dst[k] == RightWord(src, k, shift / 64, shift % 64, (nbits + 63) / 64, LastMask(nbits))
    requires forall k: nat :: k + shift / 64 >= (nbits + 63) / 64 && k < (nbits + 63) / 64 ==> dst[k] == 0
    ensures MovedDown(dst, src, shift, nbits)
  {
    hide Bit; hide RightWord; hide LastMask; hide In;
    forall i: nat | i < Rounded(nbits)
      ensures At(dst, i) <==> In(src, nbits, i + shift)
    {
      var k, j := i / 64, i % 64;
      if k + shift / 64 < (nbits + 63) / 64 {
        RightWordBit(src, k, shift / 64, shift % 64, nbits, j);
        assert 64 * (shift / 64 + k) + shift % 64 + j == i + shift;
      } else {
        OpsBit(0, 0, j);
        ShiftedOut(src, nbits, i, shift);
      }
    }
  }

  lemma {:induction false} ShiftedOut(src: seq<Word>, nbits: nat, i: nat, shift: nat)
    requires i / 64 + shift / 64 >= (nbits + 63) / 64
    ensures !In(src, nbits, i + shift)
  {}

  /** memset to 0 of n words from lo on. */
  method ZeroFill(dst: array<Word>, lo: nat, n: nat)
    requires lo + n <= dst.Length
    modifies dst
    ensures forall i :: lo <= i < lo + n ==> dst[i] == 0
    ensures forall i :: 0 <= i < lo || lo + n <= i < dst.Length ==> dst[i] == old(dst[i])
  {
    for j := 0 to n
      invariant forall i :: lo <= i < lo + j ==> dst[i] == 0
      invariant forall i :: 0 <= i < lo || lo + j <= i < dst.Length ==> dst[i] == old(dst[i])
    {
      dst[lo + j] := 0;
    }
  }

  /** No unused bit of the last word is set. */
  ghost predicate Clean(words: seq<Word>, nbits: nat) { Clear(words, nbits, Rounded(nbits)) }

  lemma {:induction false} RightClean(dst: seq<Word>, src: seq<Word>, shift: nat, nbits: nat)
    requires MovedDown(dst, src, shift, nbits)
    ensures Clean(dst, nbits)
  {}

  /** __bitmap_shift_right. The zeros stored at the end must lie in the bitmap; no unused bit is set afterwards. */
  method ShiftRight(dst: array<Word>, src: array<Word>, shift: nat, nbits: nat)
    requires nbits <= 64 * dst.Length && nbits <= 64 * src.Length && shift / 64 <= (nbits + 63) / 64
    modifies dst
    ensures MovedDown(dst[..], old(src[..]), shift, nbits) && TailKept(old(dst[..]), dst[..], nbits)
    ensures Clean(dst[..], nbits)
  {
    hide RightWord; hide LastMask; hide MovedDown; hide Clean;
    var lim := (nbits + 63) / 64;
    var off, rem := shift / 64, shift % 64;
    var mask := LastMask(nbits);
    ghost var s := src[..];
    var k := 0;
    while off + k < lim
      invariant off + k <= lim
      invariant forall j :: 0 <= j < k ==> dst[j] == RightWord(s, j, off, rem, lim, mask)
      invariant forall j :: k <= j < dst.Length ==> dst[j] == old(dst[j])
      invariant forall j :: k <= j < src.Length ==> src[j] == s[j]
    {
      RightSame(s, src[..], k, off, rem, lim, mask);
      dst[k] := RightWord(src[..], k, off, rem, lim, mask);
      k := k + 1;
    }
    if off > 0 { ZeroFill(dst, lim - off, off); }
    RightWords(dst[..], s, shift, nbits);
    RightClean(dst[..], s, shift, nbits);
  }

  lemma {:induction false} RightSame(s: seq<Word>, t: seq<Word>, k: nat, off: nat, rem: nat, lim: nat, mask: Word)
    requires off + k < lim <= |s| == |t| && rem < 64 && forall j :: k <= j < |s| ==> t[j] == s[j]
    ensures RightWord(t, k, off, rem, lim, mask) == RightWord(s, k, off, rem, lim, mask)
  {
    hide And; hide Or; hide Shl; hide Shr;
  }

  // ---- to the left ----

  /** What the loop of __bitmap_shift_left stores off words above word k. */
  function LeftWord(src: seq<Word>, k: nat, rem: nat): Word
    requires k < |src| && rem < 64
  {
    var lower := if rem > 0 && k > 0 then Shr(src[k - 1], 64 - rem) else 0;
    var upper := Shl(src[k], rem);
    Or(lower, upper)
  }

  /** Bit i of the source has moved to bit i + shift, also from and to the unused bits of the last word. */
  ghost predicate MovedUp(dst: seq<Word>, src: seq<Word>, shift: nat, nbits: nat)
  {
    forall i: nat :: i < Rounded(nbits) ==> (At(dst, i) <==> i >= shift && At(src, i - shift))
  }

  lemma {:induction false} LeftWordBit(src: seq<Word>, k: nat, rem: nat, j: nat)
    requires k < |src| && rem < 64 && j < 64
    ensures Bit(LeftWord(src, k, rem), j) <==> 64 * k + j >= rem && At(src, 64 * k + j - rem)
  {
    hide Bit; hide Or; hide Shl; hide Shr; hide At;
    LeftBit(src[k], rem, j);
    if j >= rem { AtPlace(src, k, j - rem); }
    OpsBit(0, 0, j);
    if rem > 0 && k > 0 {
      OpsBit(Shr(src[k - 1], 64 - rem), Shl(src[k], rem), j);
      RightBit(src[k - 1], 64 - rem, j);
      NotBit(src[k - 1], 64 - rem + j);
      if j < rem { AtPlace(src, k - 1, 64 - rem + j); }
    } else {
      OpsBit(0, Shl(src[k], rem), j);
    }
  }

  lemma {:induction false} LeftWords(dst: seq<Word>, src: seq<Word>, shift: nat, nbits: nat)
    requires nbits <= 64 * |src| && nbits <= 64 * |dst| && shift / 64 <= (nbits + 63) / 64
    requires forall k: nat :: shift / 64 <= k < (nbits + 63) / 64 ==>
      dst[k] == LeftWord(src, k - shift / 64, shift % 64)
    requires forall k: nat :: k < shift / 64 ==> dst[k] == 0
    ensures MovedUp(dst, src, shift, nbits)
  {
    hide Bit; hide LeftWord; 
    forall i: nat | i < Rounded(nbits)
      ensures At(dst, i) <==> i >= shift && At(src, i - shift)
    {
      var k, j := i / 64, i % 64;
      if k < shift / 64 { OpsBit(0, 0, j); } else {
        LeftWordBit(src, k - shift / 64, shift % 64, j);
        assert 64 * (k - shift / 64) + j - shift % 64 == i - shift;
      }
    }
  }

  /** __bitmap_shift_left. The zeros stored at the end must lie in the bitmap. */
  method ShiftLeft(dst: array<Word>, src: array<Word>, shift: nat, nbits: nat)
    requires nbits <= 64 * dst.Length && nbits <= 64 * src.Length && shift / 64 <= (nbits + 63) / 64
    modifies dst
    ensures MovedUp(dst[..], old(src[..]), shift, nbits) && TailKept(old(dst[..]), dst[..], nbits)
  {
    hide LeftWord; hide MovedUp;
    var lim := (nbits + 63) / 64;
    var off, rem := shift / 64, shift % 64;
    ghost var s := src[..];
    var k: int := lim - off - 1;
    while k >= 0
      invariant -1 <= k < lim - off
      invariant forall j :: k + off < j < lim ==> dst[j] == LeftWord(s, j - off, rem)
      invariant forall j :: 0 <= j <= k + off || lim <= j < dst.Length ==> dst[j] == old(dst[j])
      invariant forall j :: 0 <= j <= k + off && j < src.Length ==> src[j] == s[j]
      decreases k
    {
      LeftSame(s, src[..], k, rem);
      dst[k + off] := LeftWord(src[..], k, rem);
      k := k - 1;
    }
    if off > 0 { ZeroFill(dst, 0, off); }
    LeftWords(dst[..], s, shift, nbits);
  }

  lemma {:induction false} LeftSame(s: seq<Word>, t: seq<Word>, k: nat, rem: nat)
    requires k < |s| == |t| && rem < 64 && forall j :: 0 <= j <= k ==> t[j] == s[j]
    ensures LeftWord(t, k, rem) == LeftWord(s, k, rem)
  {
    hide And; hide Or; hide Shl; hide Shr;
  }

  // ---- what the shifts keep ----

  /** Left and back right keeps the bits that are not shifted off the top. */
  lemma {:induction false} LeftRight(src: seq<Word>, mid: seq<Word>, back: seq<Word>, shift: nat, nbits: nat)
    requires MovedUp(mid, src, shift, nbits) && MovedDown(back, mid, shift, nbits)
    ensures forall i: nat :: i < nbits ==> (At(back, i) <==> i + shift < nbits && At(src, i))
  {
    hide At;
    InRounded(nbits);
    forall i: nat | i < nbits
      ensures At(back, i) <==> i + shift < nbits && At(src, i)
    {
      assert At(back, i) <==> In(mid, nbits, i + shift);
    }
  }

  /** A left shift leaves unused bits set, just when the source has a bit that moves there. */
  lemma {:induction false} LeftClean(dst: seq<Word>, src: seq<Word>, shift: nat, nbits: nat)
    requires MovedUp(dst, src, shift, nbits)
    ensures Clean(dst, nbits) <==> forall i: nat :: nbits <= i + shift < Rounded(nbits) ==> !At(src, i)
  {
    hide At; hide Rounded;
    if Clean(dst, nbits) {
      forall i: nat | nbits <= i + shift < Rounded(nbits)
        ensures !At(src, i)
      {
        assert !At(dst, i + shift);
      }
    }
  }

  /** So a clean source can give an unclean result: the one bit of a bitmap of size 1, shifted by 1. */
  lemma {:induction false} LeftUnclean(dst: seq<Word>)
    requires MovedUp(dst, [1], 1, 1)
    ensures Clean([1], 1) && !Clean(dst, 1)
  {
    hide Bit;
    forall i: nat | 1 <= i < 64
      ensures !At([1], i)
    {
      OneBit(i);
    }
    OneBit(0);
    assert At([1], 0);
    assert At(dst, 1);
  }
}
