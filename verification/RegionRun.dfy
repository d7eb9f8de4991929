/** Any run of region calls: live regions stay disjoint and account for every set bit (bitmap.c). */
module RegionRun {
  import opened BitWord
  import opened FindBit
  import opened Powers
  import opened Region
  import opened Weight

  datatype Reg = Reg(pos: nat, order: nat)

  /** A bitmap, and the regions that have been handed out and not been given back. */
  datatype Pool = Pool(words: seq<Word>, live: seq<Reg>)

  /** A call with its result; a release is of a live region. */
  datatype Call = FindFree(bits: nat, order: nat, r: int) | Allocate(reg: Reg, r: int) | Release(k: nat)

  /** What the contract of each call says. */
  ghost predicate Step(p: Pool, c: Call, q: Pool)
  {
    match c
    case FindFree(bits, order, r) =>
      && bits <= 64 * |p.words| && FirstTaken(p.words, q.words, bits, order, r)
      && q.live == if r >= 0 then p.live + [Reg(r, order)] else p.live
    case Allocate(reg, r) =>
      && InMap(|p.words|, reg.pos, reg.order)
      && (if Clear(p.words, reg.pos, End(reg))
          then r == 0 && Painted(p.words, q.words, reg.pos, End(reg), true) && q.live == p.live + [reg]
          else r == -EBUSY && q == p)
    case Release(k) =>
      && k < |p.live| && q.live == p.live[..k] + p.live[k + 1..]
      && Painted(p.words, q.words, p.live[k].pos, End(p.live[k]), false)
  }

  function End(r: Reg): nat { r.pos + Pow2(r.order) }

  predicate Covers(r: Reg, i: nat) { r.pos <= i < End(r) }

  predicate Apart2(r: Reg, s: Reg) { End(r) <= s.pos || End(s) <= r.pos }

  function Total(live: seq<Reg>): nat {
    if live == [] then 0 else Total(live[..|live| - 1]) + Pow2(live[|live| - 1].order)
  }

  /**
   * Live regions are aligned, in the bitmap and disjoint; the set bits are
   * theirs, and as many as their sizes add up to.
   */
  ghost predicate Kept(p: Pool)
  {
    && (forall r :: r in p.live ==> InMap(|p.words|, r.pos, r.order))
    && (forall j, k :: 0 <= j < k < |p.live| ==> Apart2(p.live[j], p.live[k]))
    && (forall i: nat :: i < 64 * |p.words| ==> (At(p.words, i) <==> exists r :: r in p.live && Covers(r, i)))
    && Rank(p.words, 64 * |p.words|) == Total(p.live)
  }

  lemma {:induction false} RankPainted(s: seq<Word>, t: seq<Word>, lo: nat, hi: nat, n: nat)
    requires Painted(s, t, lo, hi, true) && Clear(s, lo, hi) && lo <= hi && n <= 64 * |s|
    ensures Rank(t, n) == Rank(s, n) + if n <= lo then 0 else if n <= hi then n - lo else hi - lo
  {
    hide At;
    if n > 0 { RankPainted(s, t, lo, hi, n - 1); }
  }

  lemma {:induction false} TotalWithout(live: seq<Reg>, k: nat)
    requires k < |live|
    ensures Total(live) == Total(live[..k] + live[k + 1..]) + Pow2(live[k].order)
  {
    hide Pow2;
    var n := |live| - 1;
    if k == n { assert live[..k] + live[k + 1..] == live[..n]; } else {
      TotalWithout(live[..n], k);
      var rest := live[..k] + live[k + 1..];
      assert rest[..n - 1] == live[..n][..k] + live[..n][k + 1..];
      assert rest[n - 1] == live[n];
    }
  }

  lemma {:induction false} NoneShared(r: Reg, s: Reg)
    requires forall i: nat :: !(Covers(r, i) && Covers(s, i))
    ensures Apart2(r, s)
  {
    hide Pow2;
    assert !(Covers(r, r.pos) && Covers(s, r.pos));
    assert !(Covers(r, s.pos) && Covers(s, s.pos));
  }

  lemma {:induction false} TakeKeeps(p: Pool, q: Pool, reg: Reg)
    requires Kept(p) && InMap(|p.words|, reg.pos, reg.order) && Clear(p.words, reg.pos, End(reg))
    requires Painted(p.words, q.words, reg.pos, End(reg), true) && q.live == p.live + [reg]
    ensures Kept(q)
  {
    hide At; hide Pow2; hide Rank;
    forall j | 0 <= j < |p.live|
      ensures Apart2(p.live[j], reg)
    {
      var r := p.live[j];
      assert r in p.live;
      forall i: nat
        ensures !(Covers(r, i) && Covers(reg, i))
      {
        assert Covers(r, i) ==> At(p.words, i);
      }
      NoneShared(r, reg);
    }
    forall i: nat | i < 64 * |q.words|
      ensures At(q.words, i) <==> exists r :: r in q.live && Covers(r, i)
    {
      if At(q.words, i) && !Covers(reg, i) {
        var r :| r in p.live && Covers(r, i);
        assert r in q.live;
      }
      if Covers(reg, i) { assert reg in q.live; }
      if r :| r in q.live && Covers(r, i) && r != reg { assert r in p.live; }
    }
    RankPainted(p.words, q.words, reg.pos, End(reg), 64 * |p.words|);
    assert q.live[..|q.live| - 1] == p.live;
  }

  /** The regions that are left are the others, all apart from the one given back. */
  lemma {:induction false} Others(live: seq<Reg>, k: nat, rest: seq<Reg>)
    requires k < |live| && rest == live[..k] + live[k + 1..]
    requires forall j, l :: 0 <= j < l < |live| ==> Apart2(live[j], live[l])
    ensures forall r :: r in rest ==> r in live && Apart2(r, live[k])
    ensures forall r :: r in live && r != live[k] ==> r in rest
    ensures forall j, l :: 0 <= j < l < |rest| ==> Apart2(rest[j], rest[l])
  {
    hide Apart2;
    forall r | r in rest
      ensures r in live && Apart2(r, live[k])
    {
      var j :| 0 <= j < |rest| && rest[j] == r;
      AtOther(live, k, rest, j);
      Symmetric(live[k], r);
    }
    forall r | r in live && r != live[k]
      ensures r in rest
    {
      var j :| 0 <= j < |live| && live[j] == r;
      AtOther(live, k, rest, if j < k then j else j - 1);
    }
    forall j, l | 0 <= j < l < |rest|
      ensures Apart2(rest[j], rest[l])
    {
      AtOther(live, k, rest, j);
      AtOther(live, k, rest, l);
    }
  }

  lemma {:induction false} AtOther(live: seq<Reg>, k: nat, rest: seq<Reg>, j: nat)
    requires k < |live| && rest == live[..k] + live[k + 1..] && j < |rest|
    ensures rest[j] == live[if j < k then j else j + 1]
  {}

  lemma {:induction false} Symmetric(r: Reg, s: Reg)
    ensures Apart2(r, s) <==> Apart2(s, r)
  {}

  lemma {:induction false} GiveKeeps(p: Pool, q: Pool, k: nat)
    requires Kept(p) && k < |p.live| && q.live == p.live[..k] + p.live[k + 1..]
    requires Painted(p.words, q.words, p.live[k].pos, End(p.live[k]), false)
    ensures Kept(q)
  {
    hide At; hide Pow2; hide Rank;
    var reg := p.live[k];
    assert reg in p.live;
    Others(p.live, k, q.live);
    forall i: nat | i < 64 * |q.words|
      ensures At(q.words, i) <==> exists r :: r in q.live && Covers(r, i)
    {
      if At(q.words, i) {
        var r :| r in p.live && Covers(r, i);
        assert r in q.live;
      }
      if r :| r in q.live && Covers(r, i) { assert Apart2(r, reg); }
    }
    GiveCounts(p, q, reg);
    TotalWithout(p.live, k);
  }

  lemma {:induction false} GiveCounts(p: Pool, q: Pool, reg: Reg)
    requires Kept(p) && reg in p.live && Painted(p.words, q.words, reg.pos, End(reg), false)
    ensures Rank(p.words, 64 * |p.words|) == Rank(q.words, 64 * |p.words|) + Pow2(reg.order)
  {
    hide At; hide Pow2; hide Rank;
    forall i: nat | Covers(reg, i)
      ensures At(p.words, i) && !At(q.words, i)
    {}
    RankPainted(q.words, p.words, reg.pos, End(reg), 64 * |p.words|);
  }

  /** Every call keeps the pool in order. */
  lemma {:induction false} StepKeeps(p: Pool, c: Call, q: Pool)
    requires Kept(p) && Step(p, c, q)
    ensures Kept(q)
  {
    hide Kept; hide Clear; hide Painted; hide Pow2;
    match c
    case FindFree(bits, order, r) =>
      if r >= 0 { TakeKeeps(p, q, Reg(r, order)); } else { assert q == p; }
    case Allocate(reg, r) =>
      if Clear(p.words, reg.pos, End(reg)) { TakeKeeps(p, q, reg); }
    case Release(k) => GiveKeeps(p, q, k);
  }

  /** So does every run, from an empty bitmap on. */
  lemma {:induction false} RunKeeps(run: seq<Pool>, calls: seq<Call>)
    requires |run| == |calls| + 1 && run[0].live == [] && Clear(run[0].words, 0, 64 * |run[0].words|)
    requires forall k :: 0 <= k < |calls| ==> Step(run[k], calls[k], run[k + 1])
    ensures forall k :: 0 <= k < |run| ==> Kept(run[k])
  {
    hide Step; hide At; hide Rank;
    RankClear(run[0].words, 0, 64 * |run[0].words|);
    RankZero(run[0].words);
    assert Kept(run[0]);
    hide Kept;
    for n := 0 to |calls|
      invariant forall k :: 0 <= k <= n ==> Kept(run[k])
    {
      StepKeeps(run[n], calls[n], run[n + 1]);
    }
  }

  /** When a search fails, every region of that size overlaps a live one. */
  lemma {:induction false} FailsOnlyFull(p: Pool, bits: nat, order: nat, q: Pool, pos: nat)
    requires Kept(p) && Step(p, FindFree(bits, order, -ENOMEM), q)
    requires pos % Pow2(order) == 0 && pos + Pow2(order) <= bits
    ensures exists r :: r in p.live && !Apart2(r, Reg(pos, order))
  {
    hide At; hide Pow2; hide Rank;
    assert !Vacant(p.words, bits, pos, order);
    var i: nat :| pos <= i < pos + Pow2(order) && At(p.words, i);
    var r :| r in p.live && Covers(r, i);
    assert !Apart2(r, Reg(pos, order));
  }
}
