/** Setting and clearing a run of bits word by word (bitmap.c: __bitmap_set, __bitmap_clear). */
module SetRange {
  import opened BitWord
  import opened FindBit
  import opened Region

  /** *p |= mask, or *p &= ~mask. */
  function Stroke(w: Word, mask: Word, v: bool): Word { if v then Or(w, mask) else And(w, Not(mask)) }

  lemma {:induction false} StrokePaints(s: seq<Word>, p: nat, mask: Word, lo: nat, hi: nat, v: bool)
    requires p < |s| && forall j: nat :: j < 64 ==> (Bit(mask, j) <==> lo <= 64 * p + j < hi)
    requires 64 * p <= lo && hi <= 64 * p + 64
    ensures Painted(s, s[p := Stroke(s[p], mask, v)], lo, hi, v)
  {
    hide Bit; hide And; hide Or; hide Not;
    var t := s[p := Stroke(s[p], mask, v)];
    forall i: nat | i < 64 * |s|
      ensures At(t, i) == if lo <= i < hi then v else At(s, i)
    {
      OpsBit(s[i / 64], mask, i % 64);
      OpsBit(s[i / 64], Not(mask), i % 64);
      NotBit(mask, i % 64);
    }
  }

  lemma {:induction false} PaintJoin(r: seq<Word>, s: seq<Word>, t: seq<Word>, lo: nat, mid: nat, hi: nat, v: bool)
    requires Painted(r, s, lo, mid, v) && Painted(s, t, mid, hi, v) && lo <= mid <= hi
    ensures Painted(r, t, lo, hi, v)
  {
    hide At;
  }

  /** The mask for the word that cur is in covers what is left of that word from cur on. */
  lemma {:induction false} FirstCovers(cur: nat, j: nat)
    requires j < 64
    ensures Bit(FirstMask(cur), j) <==> cur <= 64 * (cur / 64) + j < 64 * (cur / 64) + 64
  {
    hide Bit; hide FirstMask; hide LastMask;
    MaskBits(cur, j);
  }

  lemma {:induction false} LastCovers(cur: nat, size: nat, j: nat)
    requires j < 64 && cur < size < 64 * (cur / 64) + 64
    ensures Bit(And(FirstMask(cur), LastMask(size)), j) <==> cur <= 64 * (cur / 64) + j < size
  {
    hide Bit; hide FirstMask; hide LastMask; hide And;
    MaskBits(cur, j);
    MaskBits(size, j);
    OpsBit(FirstMask(cur), LastMask(size), j);
  }

  /** __bitmap_set, and __bitmap_clear when v is false. */
  method SetBits(words: array<Word>, start: nat, len0: nat, v: bool)
    requires start + len0 <= 64 * words.Length
    modifies words
    ensures Painted(old(words[..]), words[..], start, start + len0, v)
  {
    hide Painted; hide Stroke; hide FirstMask; hide LastMask; hide And; hide Bit;
    var p, len := start / 64, len0;
    var size := start + len;
    var bitsToSet := 64 - start % 64;
    var mask := FirstMask(start);
    ghost var cur := start;
    NoPaint(words[..], start, v);
    while len - bitsToSet >= 0
      invariant start <= cur && len >= 0 && cur + len == size && p == cur / 64 && bitsToSet == 64 - cur % 64
        && mask == FirstMask(cur)
      invariant Painted(old(words[..]), words[..], start, cur, v)
      decreases len
    {
      ghost var s, next := words[..], 64 * p + 64;
      forall j: nat | j < 64
        ensures Bit(mask, j) <==> cur <= 64 * p + j < next
      {
        FirstCovers(cur, j);
      }
      StrokePaints(s, p, mask, cur, next, v);
      words[p] := Stroke(words[p], mask, v);
      assert words[..] == s[p := Stroke(s[p], mask, v)];
      PaintJoin(old(words[..]), s, words[..], start, cur, next, v);
      len := len - bitsToSet;
      bitsToSet := 64;
      mask := ONES;
      p := p + 1;
      cur := next;
      FirstWhole(cur);
    }
    if len != 0 {
      ghost var s := words[..];
      forall j: nat | j < 64
        ensures Bit(And(mask, LastMask(size)), j) <==> cur <= 64 * p + j < size
      {
        LastCovers(cur, size, j);
      }
      mask := And(mask, LastMask(size));
      StrokePaints(s, p, mask, cur, size, v);
      words[p] := Stroke(words[p], mask, v);
      assert words[..] == s[p := Stroke(s[p], mask, v)];
      PaintJoin(old(words[..]), s, words[..], start, cur, size, v);
    }
  }

  lemma {:induction false} NoPaint(s: seq<Word>, start: nat, v: bool)
    ensures Painted(s, s, start, start, v)
  {
    hide At;
  }

  lemma {:induction false} FirstWhole(cur: nat)
    requires cur % 64 == 0
    ensures FirstMask(cur) == ONES
  {}
}
