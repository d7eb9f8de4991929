/** Mapping the bits of one bitmap by the order of others (bitmap.c: remap, bitremap, onto, fold). */
module Remap {
  import opened BitWord
  import opened FindBit
  import opened Weight

  /** p goes to q: the bit with the same ordinal, modulo the weight of range; bits outside domain stay. */
  predicate Maps(domain: seq<Word>, range: seq<Word>, n: nat, p: nat, q: nat)
  {
    if p < n && At(domain, p) && Rank(range, n) > 0 then IsOrd(range, n, Rank(domain, p) % Rank(range, n), q)
      else q == p
  }

  lemma {:induction false} MapsOne(domain: seq<Word>, range: seq<Word>, n: nat, p: nat, q: nat, r: nat)
    requires Maps(domain, range, n, p, q) && Maps(domain, range, n, p, r)
    ensures q == r
  {
    hide At; hide Rank; hide IsOrd;
    if p < n && At(domain, p) && Rank(range, n) > 0 { OrdUnique(range, n, Rank(domain, p) % Rank(range, n), q, r); }
  }

  /**
   * The first nbits bits of dst are the images of the set bits of src below lim,
   * and the rest of its last word is clear.
   */
  ghost predicate Image(dst: seq<Word>, src: seq<Word>, domain: seq<Word>, range: seq<Word>, n: nat, lim: nat)
  {
    forall q: nat :: q < Rounded(n) ==>
        (At(dst, q) <==> exists p: nat :: p < lim && At(src, p) && Maps(domain, range, n, p, q))
  }

  /** nbits rounded up to whole words. */
  function Rounded(n: nat): nat { (n + 63) / 64 * 64 }

  /** Words past the bitmap are as before. */
  ghost predicate TailKept(before: seq<Word>, after: seq<Word>, n: nat)
  {
    |after| == |before| && forall k :: (n + 63) / 64 <= k < |before| ==> after[k] == before[k]
  }

  /** bitmap_zero */
  method Zero(dst: array<Word>, nbits: nat)
    requires nbits <= 64 * dst.Length
    modifies dst
    ensures Clear(dst[..], 0, Rounded(nbits)) && TailKept(old(dst[..]), dst[..], nbits)
  {
    hide Bit;
    var len := (nbits + 63) / 64;
    for k := 0 to len
      invariant forall j :: 0 <= j < k ==> dst[j] == 0
      invariant forall j :: k <= j < dst.Length ==> dst[j] == old(dst[j])
    {
      dst[k] := 0;
    }
    ZeroWords(dst[..], len);
  }

  lemma {:induction false} ZeroWords(s: seq<Word>, len: nat)
    requires len <= |s| && forall j :: 0 <= j < len ==> s[j] == 0
    ensures Clear(s, 0, 64 * len)
  {
    hide Bit;
    forall i: nat | i < 64 * len
      ensures !At(s, i)
    {
      OpsBit(0, 0, i % 64);
    }
  }

  /** set_bit */
  method SetBit(nr: nat, dst: array<Word>)
    requires nr < 64 * dst.Length
    modifies dst
    ensures forall i: nat :: At(dst[..], i) <==> i == nr || At(old(dst[..]), i)
    ensures forall k :: 0 <= k < dst.Length && k != nr / 64 ==> dst[k] == old(dst[k])
  {
    hide Bit; hide Or; hide Shl;
    dst[nr / 64] := Or(dst[nr / 64], Shl(1, nr % 64));
    OneSet(old(dst[..]), dst[..], nr);
  }

  lemma {:induction false} OneSet(s: seq<Word>, t: seq<Word>, nr: nat)
    requires nr < 64 * |s| && t == s[nr / 64 := Or(s[nr / 64], Shl(1, nr % 64))]
    ensures forall i: nat :: At(t, i) <==> i == nr || At(s, i)
  {
    hide Bit; hide Or; hide Shl;
    forall i: nat
      ensures At(t, i) <==> i == nr || At(s, i)
    {
      if i / 64 == nr / 64 {
        OpsBit(s[nr / 64], Shl(1, nr % 64), i % 64);
        LeftBit(1, nr % 64, i % 64);
        if nr % 64 <= i % 64 { OneBit(i % 64 - nr % 64); }
      }
    }
  }

  /** bitmap_bitremap */
  method BitRemap(oldbit: int, domain: array<Word>, range: array<Word>, bits: nat) returns (r: int)
    requires bits <= 64 * domain.Length && bits <= 64 * range.Length
    requires -0x8000_0000 <= oldbit && bits < 0x8000_0000
    ensures if oldbit >= 0 then r >= 0 && Maps(domain[..], range[..], bits, oldbit, r) else r == oldbit
  {
    hide At; hide Rank; hide IsOrd;
    var w := BitmapWeight(range, bits, true);
    var n := PosToOrd(domain, if oldbit < 0 then oldbit + 0x1_0000_0000 else oldbit, bits);
    if n < 0 || w == 0 {
      r := oldbit;
      OrdMeans();
    } else {
      OrdMeans();
      ModBelow(n, w);
      r := OrdToPos(range, n % w, bits);
    }
  }

  lemma {:induction false} OrdMeans()
    ensures forall s: seq<Word>, n: nat, k: nat, p: nat :: IsOrd(s, n, k, p) ==> p < n && At(s, p) && Rank(s, p) == k
  {}

  lemma {:induction false} ModBelow(n: nat, w: nat)
    requires w > 0
    ensures 0 <= n % w < w
  {}

  /** A bitmap that shares its words with the destination is zeroed with it, and then has no bits. */
  function Seen(words: array<Word>, dst: array<Word>): seq<Word>
    reads words
  {
    if words == dst then [] else words[..]
  }

  lemma {:induction false} RankNone(words: seq<Word>, n: nat)
    requires Clear(words, 0, n)
    ensures Rank(words, n) == 0
  {
    RankClear(words, 0, n);
  }

  lemma {:induction false} WeightSeen(now: seq<Word>, b: seq<Word>, n: nat)
    requires b == now || (b == [] && Clear(now, 0, n))
    ensures Rank(now, n) == Rank(b, n) && (b != now ==> Rank(b, n) == 0)
  {
    hide Rank;
    if b != now {
      RankNone(now, n);
      RankNone(b, n);
    }
  }

  lemma {:induction false} ClearLess(s: seq<Word>, n: nat)
    requires Clear(s, 0, Rounded(n))
    ensures Clear(s, 0, n)
  {
    hide At;
  }

  lemma {:induction false} NoImage(dst: seq<Word>, s: seq<Word>, a: seq<Word>, b: seq<Word>, n: nat)
    requires Clear(dst, 0, Rounded(n))
    ensures Image(dst, s, a, b, n, 0)
  {
    hide At; hide Maps;
  }

  lemma {:induction false} SkipClear(dst: seq<Word>, s: seq<Word>, a: seq<Word>, b: seq<Word>, n: nat, lo: nat, hi: nat)
    requires Image(dst, s, a, b, n, lo) && lo <= hi && Clear(s, lo, hi)
    ensures Image(dst, s, a, b, n, hi)
  {
    hide At; hide Maps; hide Rounded;
    forall q: nat | q < Rounded(n)
      ensures At(dst, q) <==> exists p: nat :: p < hi && At(s, p) && Maps(a, b, n, p, q)
    {
      if p: nat :| p < hi && At(s, p) && Maps(a, b, n, p, q) { assert p < lo; }
    }
  }

  lemma {:induction false} OneMore(before: seq<Word>, after: seq<Word>, s: seq<Word>, a: seq<Word>, b: seq<Word>,
          n: nat, p: nat, q: nat)
    requires Image(before, s, a, b, n, p) && At(s, p) && Maps(a, b, n, p, q)
    requires forall i: nat :: At(after, i) <==> i == q || At(before, i)
    ensures Image(after, s, a, b, n, p + 1)
  {
    hide At; hide Maps; hide Rounded;
    forall r: nat | r < Rounded(n)
      ensures At(after, r) <==> exists o: nat :: o < p + 1 && At(s, o) && Maps(a, b, n, o, r)
    {
      if o: nat :| o < p + 1 && At(s, o) && Maps(a, b, n, o, r) && o == p { MapsOne(a, b, n, p, q, r); }
    }
  }

  /** What bitmap_pos_to_ord says about the domain, also when that has been zeroed. */
  lemma {:induction false} OrdSeen(now: seq<Word>, a: seq<Word>, n: nat, p: nat, ord: int)
    requires a == now || (a == [] && (p < n ==> !At(now, p)))
    requires if ord < 0 then p >= n || !At(now, p) else IsOrd(now, n, ord, p)
    ensures if ord < 0 then p >= n || !At(a, p) else IsOrd(a, n, ord, p) && At(a, p) && Rank(a, p) == ord
  {
    hide Bit; hide Rank;
  }

  /** The loop body of bitmap_remap: sets the image of one bit. */
  method Move(dst: array<Word>, oldbit: nat, domain: array<Word>, range: array<Word>, nbits: nat, w: nat,
          ghost a: seq<Word>, ghost b: seq<Word>)
    returns (ghost q: nat)
    requires nbits <= 64 * dst.Length && nbits <= 64 * domain.Length && nbits <= 64 * range.Length && oldbit < nbits
    requires a == domain[..] || (a == [] && !At(domain[..], oldbit))
    requires w == Rank(b, nbits) && (w > 0 ==> b == range[..])
    modifies dst
    ensures q < nbits && Maps(a, b, nbits, oldbit, q) && (a != [] || q == oldbit)
    ensures forall i: nat :: At(dst[..], i) <==> i == q || At(old(dst[..]), i)
    ensures TailKept(old(dst[..]), dst[..], nbits)
  {
    hide Rank; hide Bit; hide TailKept;
    var n := PosToOrd(domain, oldbit, nbits);
    OrdSeen(domain[..], a, nbits, oldbit, n);
    if n < 0 || w == 0 {
      q := oldbit;
      InWords(nbits, q, old(dst[..]));
      SetBit(oldbit, dst);
    } else {
      ModBelow(n, w);
      var pos := OrdToPos(range, n % w, nbits);
      q := pos;
      InWords(nbits, q, old(dst[..]));
      SetBit(pos, dst);
    }
    TailSame(old(dst[..]), dst[..], nbits, q);
  }

  lemma {:induction false} InWords(n: nat, q: nat, s: seq<Word>)
    requires q < n <= 64 * |s|
    ensures q < Rounded(n) && q / 64 < (n + 63) / 64 <= |s|
  {}

  lemma {:induction false} TailSame(before: seq<Word>, after: seq<Word>, n: nat, q: nat)
    requires |after| == |before| && q / 64 < (n + 63) / 64
    requires forall k :: 0 <= k < |before| && k != q / 64 ==> after[k] == before[k]
    ensures TailKept(before, after, n)
  {}

  lemma {:induction false} TailJoin(r: seq<Word>, s: seq<Word>, t: seq<Word>, n: nat)
    requires TailKept(r, s, n) && TailKept(s, t, n)
    ensures TailKept(r, t, n)
  {}

  /** bitmap_remap */
  method Remap(dst: array<Word>, src: array<Word>, domain: array<Word>, range: array<Word>, nbits: nat)
    requires nbits <= 64 * dst.Length && nbits <= 64 * src.Length && nbits <= 64 * domain.Length
      && nbits <= 64 * range.Length
    modifies dst
    ensures dst == src ==> dst[..] == old(dst[..])
    ensures dst != src ==> Image(dst[..], src[..], Seen(domain, dst), Seen(range, dst), nbits, nbits)
    ensures dst != src ==> TailKept(old(dst[..]), dst[..], nbits)
  {
    hide At; hide Rank; hide Image; hide Maps; hide TailKept; hide Rounded;
    if dst == src { return; }
    Zero(dst, nbits);
    ClearLess(dst[..], nbits);
    ghost var a, b, s := Seen(domain, dst), Seen(range, dst), src[..];
    var w := BitmapWeight(range, nbits, true);
    WeightSeen(range[..], b, nbits);
    NoImage(dst[..], s, a, b, nbits);
    var oldbit := FindFirstBit(src, nbits);
    SkipClear(dst[..], s, a, b, nbits, 0, oldbit);
    while oldbit < nbits
      invariant oldbit <= nbits && (oldbit < nbits ==> At(s, oldbit))
      invariant Image(dst[..], s, a, b, nbits, oldbit) && TailKept(old(dst[..]), dst[..], nbits)
      invariant domain == dst ==> Clear(dst[..], oldbit, nbits)
      decreases nbits - oldbit
    {
      ghost var before := dst[..];
      ghost var q := Move(dst, oldbit, domain, range, nbits, w, a, b);
      OneMore(before, dst[..], s, a, b, nbits, oldbit, q);
      TailJoin(old(dst[..]), before, dst[..], nbits);
      var next := FindNextBit(src, nbits, oldbit + 1);
      SkipClear(dst[..], s, a, b, nbits, oldbit + 1, next);
      oldbit := next;
    }
  }

  /** Remapping there and back, between maps of equal weight, restores a bitmap that lies within the domain. */
  lemma {:induction false} RoundTrip(src: seq<Word>, mid: seq<Word>, back: seq<Word>, a: seq<Word>, b: seq<Word>,
          n: nat)
    requires Rank(a, n) == Rank(b, n) && forall i: nat :: i < n && At(src, i) ==> At(a, i)
    requires Image(mid, src, a, b, n, n) && Image(back, mid, b, a, n, n)
    ensures forall i: nat :: i < n ==> (At(back, i) <==> At(src, i))
  {
    hide At; hide Rank; hide Maps; hide IsOrd; hide Rounded;
    forall i: nat | i < n
      ensures At(back, i) <==> At(src, i)
    {
      InRounded(n);
      if At(src, i) {
        var q := Goes(a, b, n, i);
        assert At(mid, q);
        assert Maps(b, a, n, q, i);
      }
      if At(back, i) {
        var q: nat :| q < n && At(mid, q) && Maps(b, a, n, q, i);
        var p: nat :| p < n && At(src, p) && Maps(a, b, n, p, q);
        var r := Goes(a, b, n, p);
        MapsOne(a, b, n, p, q, r);
        MapsOne(b, a, n, q, p, i);
      }
    }
  }

  lemma {:induction false} InRounded(n: nat)
    ensures n <= Rounded(n)
  {}

  /** Where a bit of the domain goes, and that it comes back from there. */
  lemma {:induction false} Goes(a: seq<Word>, b: seq<Word>, n: nat, p: nat) returns (q: nat)
    requires Rank(a, n) == Rank(b, n) && p < n && At(a, p)
    ensures q < n && Maps(a, b, n, p, q) && Maps(b, a, n, q, p)
  {
    hide At; hide Rank;
    var k := Rank(a, p);
    assert IsOrd(a, n, k, p);
    OrdRange(a, n, k);
    OrdRange(b, n, k);
    q :| IsOrd(b, n, k, q);
    Same(k, Rank(a, n));
  }

  lemma {:induction false} Same(k: nat, w: nat)
    requires k < w
    ensures k % w == k
  {}

  // ---- onto and fold ----

  /** Bit q is the m-th set bit of relmap, for an m that is set in orig. */
  ghost predicate Onto(dst: seq<Word>, orig: seq<Word>, relmap: seq<Word>, bits: nat, lim: nat)
  {
    forall q: nat :: q < Rounded(bits) ==>
        (At(dst, q) <==> q < lim && exists m: nat :: At(orig, m) && IsOrd(relmap, bits, m, q))
  }

  /** bitmap_onto */
  method BitmapOnto(dst: array<Word>, orig: array<Word>, relmap: array<Word>, bits: nat)
    requires bits <= 64 * dst.Length && bits <= 64 * orig.Length && bits <= 64 * relmap.Length
    modifies dst
    ensures dst == orig ==> dst[..] == old(dst[..])
    ensures dst != orig ==>
      Onto(dst[..], orig[..], Seen(relmap, dst), bits, bits) && TailKept(old(dst[..]), dst[..], bits)
  {
    hide At; hide Rank; hide IsOrd; hide Onto; hide TailKept; hide Rounded;
    if dst == orig { return; }
    Zero(dst, bits);
    ClearLess(dst[..], bits);
    ghost var a, s := Seen(relmap, dst), orig[..];
    NotOnto(dst[..], s, a, bits);
    var m := 0;
    var n := FindFirstBit(relmap, bits);
    if relmap == dst { EmptyClear(a, n); }
    SkipOnto(dst[..], s, a, bits, 0, n);
    RankClear(a, 0, n);
    RankNone(a, 0);
    while n < bits
      invariant n <= bits && (n < bits ==> At(a, n)) && (relmap == dst ==> n >= bits)
      invariant n < bits ==> m == Rank(a, n)
      invariant Onto(dst[..], s, a, bits, n) && TailKept(old(dst[..]), dst[..], bits)
      decreases bits - n
    {
      ghost var before := dst[..];
      RankBelow(a, n);
      var b := TestBit(orig, m);
      if b {
        InWords(bits, n, before);
        SetBit(n, dst);
        TailSame(before, dst[..], bits, n);
        TailJoin(old(dst[..]), before, dst[..], bits);
      }
      OneOnto(before, dst[..], s, a, bits, n, m, b);
      m := m + 1;
      var next := FindNextBit(relmap, bits, n + 1);
      SkipOnto(dst[..], s, a, bits, n + 1, next);
      RankClear(a, n + 1, next);
      n := next;
    }
  }

  lemma {:induction false} EmptyClear(s: seq<Word>, n: nat)
    requires s == []
    ensures Clear(s, 0, n)
  {}

  lemma {:induction false} RankBelow(words: seq<Word>, n: nat)
    requires At(words, n)
    ensures Rank(words, n) <= n && Rank(words, n + 1) == Rank(words, n) + 1
  {
    hide At;
  }

  lemma {:induction false} NotOnto(dst: seq<Word>, orig: seq<Word>, relmap: seq<Word>, bits: nat)
    requires Clear(dst, 0, Rounded(bits))
    ensures Onto(dst, orig, relmap, bits, 0)
  {
    hide At; hide IsOrd;
  }

  lemma {:induction false} SkipOnto(dst: seq<Word>, orig: seq<Word>, relmap: seq<Word>, bits: nat, lo: nat, hi: nat)
    requires Onto(dst, orig, relmap, bits, lo) && lo <= hi && Clear(relmap, lo, hi)
    ensures Onto(dst, orig, relmap, bits, hi)
  {
    hide At; hide Rounded; hide Rank;
    forall q: nat | q < Rounded(bits)
      ensures At(dst, q) <==> q < hi && exists m: nat :: At(orig, m) && IsOrd(relmap, bits, m, q)
    {
      if lo <= q < hi { assert !At(relmap, q); }
    }
  }

  lemma {:induction false} OneOnto(before: seq<Word>, after: seq<Word>, orig: seq<Word>, relmap: seq<Word>, bits: nat,
          n: nat, m: nat, b: bool)
    requires Onto(before, orig, relmap, bits, n) && n < bits && At(relmap, n) && m == Rank(relmap, n)
      && b == At(orig, m)
    requires if b then forall i: nat :: At(after, i) <==> i == n || At(before, i) else after == before
    ensures Onto(after, orig, relmap, bits, n + 1)
  {
    hide At; hide Rounded; hide Rank;
    assert IsOrd(relmap, bits, m, n);
    forall q: nat | q < Rounded(bits)
      ensures At(after, q) <==> q < n + 1 && exists k: nat :: At(orig, k) && IsOrd(relmap, bits, k, q)
    {
    }
  }

  /** Bit q is set exactly when orig has a bit p with q = p mod sz. */
  ghost predicate Folded(dst: seq<Word>, orig: seq<Word>, sz: nat, nbits: nat, lim: nat)
  {
    forall q: nat :: q < Rounded(nbits) ==> (At(dst, q) <==> exists p: nat :: p < lim && At(orig, p) && Rem(p, sz) == q)
  }

  function Rem(p: nat, sz: nat): nat { if sz == 0 then 0 else p % sz }

  /** bitmap_fold; a size of 0 divides by 0 unless there is no bit to fold. */
  method BitmapFold(dst: array<Word>, orig: array<Word>, sz: nat, nbits: nat)
    requires nbits <= 64 * dst.Length && nbits <= 64 * orig.Length
    requires sz > 0 || Clear(orig[..], 0, nbits)
    modifies dst
    ensures dst == orig ==> dst[..] == old(dst[..])
    ensures dst != orig ==> Folded(dst[..], orig[..], sz, nbits, nbits) && TailKept(old(dst[..]), dst[..], nbits)
  {
    hide At; hide Folded; hide TailKept; hide Rounded;
    if dst == orig { return; }
    Zero(dst, nbits);
    ghost var s := orig[..];
    NotFolded(dst[..], s, sz, nbits);
    var oldbit := FindFirstBit(orig, nbits);
    SkipFolded(dst[..], s, sz, nbits, 0, oldbit);
    while oldbit < nbits
      invariant oldbit <= nbits && (oldbit < nbits ==> At(s, oldbit))
      invariant Folded(dst[..], s, sz, nbits, oldbit) && TailKept(old(dst[..]), dst[..], nbits)
      decreases nbits - oldbit
    {
      ghost var before := dst[..];
      RemLess(oldbit, sz);
      InWords(nbits, oldbit % sz, before);
      SetBit(oldbit % sz, dst);
      TailSame(before, dst[..], nbits, oldbit % sz);
      TailJoin(old(dst[..]), before, dst[..], nbits);
      OneFolded(before, dst[..], s, sz, nbits, oldbit);
      var next := FindNextBit(orig, nbits, oldbit + 1);
      SkipFolded(dst[..], s, sz, nbits, oldbit + 1, next);
      oldbit := next;
    }
  }

  lemma {:induction false} RemLess(p: nat, sz: nat)
    requires sz > 0
    ensures 0 <= p % sz <= p && p % sz < sz
  {
    if p < sz { Same(p, sz); }
  }

  lemma {:induction false} NotFolded(dst: seq<Word>, orig: seq<Word>, sz: nat, n: nat)
    requires Clear(dst, 0, Rounded(n))
    ensures Folded(dst, orig, sz, n, 0)
  {
    hide At;
  }

  lemma {:induction false} SkipFolded(dst: seq<Word>, orig: seq<Word>, sz: nat, n: nat, lo: nat, hi: nat)
    requires Folded(dst, orig, sz, n, lo) && lo <= hi && Clear(orig, lo, hi)
    ensures Folded(dst, orig, sz, n, hi)
  {
    hide At; hide Rounded; hide Rem;
    forall q: nat | q < Rounded(n)
      ensures At(dst, q) <==> exists p: nat :: p < hi && At(orig, p) && Rem(p, sz) == q
    {
      if p: nat :| p < hi && At(orig, p) && Rem(p, sz) == q { assert p < lo; }
    }
  }

  lemma {:induction false} OneFolded(before: seq<Word>, after: seq<Word>, orig: seq<Word>, sz: nat, n: nat, p: nat)
    requires Folded(before, orig, sz, n, p) && At(orig, p)
    requires forall i: nat :: At(after, i) <==> i == Rem(p, sz) || At(before, i)
    ensures Folded(after, orig, sz, n, p + 1)
  {
    hide At; hide Rounded; hide Rem;
  }

  /** Folding by the weight of relmap and then mapping onto it puts bit m at the (m mod weight)-th set bit of relmap. */
  lemma {:induction false} FoldOnto(orig: seq<Word>, tmp: seq<Word>, dst: seq<Word>, relmap: seq<Word>, bits: nat)
    requires Folded(tmp, orig, Rank(relmap, bits), bits, bits) && Onto(dst, tmp, relmap, bits, bits)
    ensures forall q: nat :: q < bits ==>
      (At(dst, q) <==> exists m: nat :: m < bits && At(orig, m) && IsOrd(relmap, bits, Rem(m, Rank(relmap, bits)), q))
  {
    hide At; hide Rounded; hide Rem; hide IsOrd; hide Rank;
    var w := Rank(relmap, bits);
    InRounded(bits);
    forall q: nat | q < bits
      ensures At(dst, q) <==> exists m: nat :: m < bits && At(orig, m) && IsOrd(relmap, bits, Rem(m, w), q)
    {
      if At(dst, q) {
        var k: nat :| At(tmp, k) && IsOrd(relmap, bits, k, q);
        OrdRange(relmap, bits, k);
        RankAtMost(relmap, bits);
        var m: nat :| m < bits && At(orig, m) && Rem(m, w) == k;
      }
      if m: nat :| m < bits && At(orig, m) && IsOrd(relmap, bits, Rem(m, w), q) {
        OrdRange(relmap, bits, Rem(m, w));
        RankAtMost(relmap, bits);
        assert At(tmp, Rem(m, w));
      }
    }
  }

  lemma {:induction false} RankAtMost(words: seq<Word>, n: nat)
    ensures Rank(words, n) <= n
  {}
}
