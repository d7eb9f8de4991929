/** Rank and select in a bitmap, and the remapping operations built on them (bitmap.c). */
module Weight {
  import opened BitWord
  import opened FindBit
  import opened Hweight

  /** The number of set bits before bit n. */
  function Rank(words: seq<Word>, n: nat): (r: nat)
    ensures r <= n
  {
    if n == 0 then 0 else Rank(words, n - 1) + if At(words, n - 1) then 1 else 0
  }

  lemma {:induction false} AtPlace(words: seq<Word>, k: nat, j: nat)
    requires k < |words| && j < 64
    ensures At(words, 64 * k + j) <==> Bit(words[k], j)
  {
    hide Bit;
    Place(64 * k, j);
  }

  lemma {:induction false} WordRank(words: seq<Word>, k: nat, m: nat)
    requires k < |words| && m <= 64
    ensures Rank(words, 64 * k + m) == Rank(words, 64 * k) + Count(words[k], m)
  {
    hide Bit; hide At;
    if m > 0 {
      WordRank(words, k, m - 1);
      AtPlace(words, k, m - 1);
    }
  }

  /** Masking off the bits from m on leaves the count of those before m. */
  lemma {:induction false} MaskCount(w: Word, mask: Word, m: nat, n: nat)
    requires forall i: nat :: i < n ==> (Bit(mask, i) <==> i < m)
    ensures Count(And(w, mask), n) == Count(w, if n < m then n else m)
  {
    hide Bit; hide And;
    if n > 0 {
      MaskCount(w, mask, m, n - 1);
      OpsBit(w, mask, n - 1);
    }
  }

  lemma {:induction false} LastCount(w: Word, n: nat)
    requires n % 64 != 0
    ensures Count(And(w, LastMask(n)), 64) == Count(w, n % 64)
  {
    hide Bit; hide And; hide LastMask; hide Count;
    forall i: nat
      ensures Bit(LastMask(n), i) <==> i < n % 64
    {
      MaskBits(n, i);
    }
    MaskCount(w, LastMask(n), n % 64, 64);
  }

  /** __bitmap_weight */
  method BitmapWeight(words: array<Word>, bits: nat, fast: bool) returns (w: nat)
    requires bits <= 64 * words.Length
    ensures w == Rank(words[..], bits)
  {
    hide Rank; hide Count; hide And; hide LastMask; hide Hweight64;
    var lim := bits / 64;
    w := 0;
    RankZero(words[..]);
    for k := 0 to lim
      invariant w == Rank(words[..], 64 * k)
    {
      Hweight64Counts(words[k], fast);
      WordRank(words[..], k, 64);
      w := w + Hweight64(words[k], fast);
    }
    if bits % 64 != 0 {
      Hweight64Counts(And(words[lim], LastMask(bits)), fast);
      WordRank(words[..], lim, bits % 64);
      LastCount(words[lim], bits);
      w := w + Hweight64(And(words[lim], LastMask(bits)), fast);
    }
  }

  lemma {:induction false} RankZero(words: seq<Word>)
    ensures Rank(words, 0) == 0
  {}

  // ---- rank and select ----

  /** p is the position of the set bit with ordinal k, among the first n bits. */
  predicate IsOrd(words: seq<Word>, n: nat, k: nat, p: nat) { p < n && At(words, p) && Rank(words, p) == k }

  lemma {:induction false} RankMono(words: seq<Word>, p: nat, q: nat)
    requires p <= q
    ensures Rank(words, p) <= Rank(words, q)
  {
    if p < q { RankMono(words, p, q - 1); }
  }

  /** A position has one ordinal, and an ordinal has one position. */
  lemma {:induction false} OrdUnique(words: seq<Word>, n: nat, k: nat, p: nat, q: nat)
    requires IsOrd(words, n, k, p) && IsOrd(words, n, k, q)
    ensures p == q
  {
    hide At;
    if p < q {
      RankMono(words, p + 1, q);
    } else if q < p {
      RankMono(words, q + 1, p);
    }
  }

  /** The ordinals in use are those below the weight. */
  lemma {:induction false} OrdRange(words: seq<Word>, n: nat, k: nat)
    ensures k < Rank(words, n) <==> exists p: nat :: IsOrd(words, n, k, p)
  {
    hide At;
    if n > 0 {
      OrdRange(words, n - 1, k);
      if k < Rank(words, n - 1) {
        var p: nat :| IsOrd(words, n - 1, k, p);
        assert IsOrd(words, n, k, p);
      } else if k < Rank(words, n) {
        assert IsOrd(words, n, k, n - 1);
      } else if p: nat :| IsOrd(words, n, k, p) {
        RankMono(words, p + 1, n);
      }
    }
  }

  /** bitmap_pos_to_ord: the ordinal of the bit at pos, if it is set. */
  method PosToOrd(words: array<Word>, pos: nat, nbits: nat) returns (ord: int)
    requires nbits <= 64 * words.Length
    ensures if ord < 0 then ord == -1 && (pos >= nbits || !At(words[..], pos)) else IsOrd(words[..], nbits, ord, pos)
  {
    hide At; hide Rank;
    if pos >= nbits { return -1; }
    var b := TestBit(words, pos);
    if !b { return -1; }
    ord := BitmapWeight(words, pos, true);
  }

  /** test_bit */
  method TestBit(words: array<Word>, nr: nat) returns (b: bool)
    requires nr < 64 * words.Length
    ensures b == At(words[..], nr)
  {
    hide Bit;
    b := Bit(words[nr / 64], nr % 64);
  }

  /** bitmap_ord_to_pos: the position of the bit with the given ordinal, or nbits. */
  method OrdToPos(words: array<Word>, ord0: nat, nbits: nat) returns (pos: nat)
    requires nbits <= 64 * words.Length
    ensures if ord0 < Rank(words[..], nbits) then IsOrd(words[..], nbits, ord0, pos) else pos == nbits
  {
    hide At;
    var ord := ord0;
    pos := FindFirstBit(words, nbits);
    RankClear(words[..], 0, pos);
    while pos < nbits && ord > 0
      invariant pos <= nbits && (pos < nbits ==> At(words[..], pos))
      invariant Rank(words[..], pos) + ord == ord0
      decreases nbits - pos
    {
      ord := ord - 1;
      ghost var p := pos + 1;
      pos := FindNextBit(words, nbits, pos + 1);
      if p <= pos { RankClear(words[..], p, pos); }
    }
    if pos < nbits { RankMono(words[..], pos + 1, nbits); }
  }

  lemma {:induction false} RankClear(words: seq<Word>, lo: nat, hi: nat)
    requires lo <= hi && Clear(words, lo, hi)
    ensures Rank(words, hi) == Rank(words, lo)
  {
    hide At;
    if lo < hi { RankClear(words, lo, hi - 1); }
  }
}
