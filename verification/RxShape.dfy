/** How the radix tree grows and shrinks without changing the map (radix-tree.c:635-808, 846-866). */
module RxShape {
  import opened RxModel
  import opened RxHeap
  import opened RxSteps

  /** The shift of the next node on top. */
  function HeightShift(h: Shot): nat { if h.top.Child? && h.top.n in h.m then h.m[h.top.n].shift + 6 else 0 }

  lemma {:induction false} RangeShift(h: Shot, k: nat)
    requires Linked(h)
    ensures InRange(h, k) <==> Shr(k, HeightShift(h)) == 0
  {
    if h.top.Child? { LinkedAt(h, h.top.n); }
  }

  // ---- radix_tree_extend: one more node on top ----

  ghost predicate Grown(g: Shot, h: Shot, n: RxNode) {
    && n !in g.m && h.top == Child(n) && h.m.Keys == g.m.Keys + {n}
    && h.m[n] == Rec(HeightShift(g), 0, 1, null, NoSlots()[0 := g.top], h.m[n].tags, 0) && |h.m[n].tags| == 3
    && forall m :: m in g.m ==> h.m[m] == if g.top == Child(m) then g.m[m].(parent := n) else g.m[m]
  }

  lemma {:induction false} GrownNode(g: Shot, h: Shot, n: RxNode, m: RxNode)
    requires Grown(g, h, n) && m in g.m && NodeOk(g, m) && (g.top.Child? ==> g.top.n in g.m && NodeOk(g, g.top.n))
    requires g.top.Child? ==> g.m[g.top.n].parent == null
    ensures NodeOk(h, m)
  {}

  lemma {:induction false} GrownLinked(g: Shot, h: Shot, n: RxNode)
    requires Linked(g) && Grown(g, h, n) && HeightShift(g) <= 60
    ensures Linked(h)
  {
    hide NodeOk;
    forall m | m in h.m ensures NodeOk(h, m) {
      if m == n { GrownTop(g, h, n); } else { GrownNode(g, h, n, m); }
    }
  }

  lemma {:induction false} GrownTop(g: Shot, h: Shot, n: RxNode)
    requires Linked(g) && Grown(g, h, n) && HeightShift(g) <= 60
    ensures NodeOk(h, n)
  {
    hide Linked;
    FitsZero(HeightShift(g) + 6);
    if g.top.Child? { TopAt(g); BasicAt(g, g.top.n); }
  }

  lemma {:induction false} TopAt(h: Shot)
    requires Linked(h) && h.top.Child?
    ensures h.top.n in h.m && h.m[h.top.n].parent == null && NodeOk(h, h.top.n)
  {}

  lemma {:induction false} GrownSlot(g: Shot, h: Shot, n: RxNode, M: map<nat, Entry>, o: nat)
    requires Linked(g) && Holds(g, M) && Grown(g, h, n) && o < 64
    ensures SlotHolds(h.m[n], o, M) && (o > 0 ==> !Used(h.m[n], o, M))
    ensures Used(h.m[n], 0, M) <==> g.top != Null || 0 in M
  {
    hide Linked;
    if g.top.Child? { TopAt(g); BasicAt(g, g.top.n); }
    forall k | k in M ensures Shr(k, HeightShift(g)) == 0 {}
  }

  lemma {:induction false} GrownSound(g: Shot, h: Shot, n: RxNode, M: map<nat, Entry>)
    requires Sound(g, M) && Grown(g, h, n) && HeightShift(g) <= 60 && (g.top != Null || 0 in M)
    ensures Sound(h, M)
  {
    hide NodeOk, SlotHolds, UsedSlots, Linked;
    GrownLinked(g, h, n);
    forall m, o | m in h.m && 0 <= o < |h.m[m].slots| ensures SlotHolds(h.m[m], o, M) {
      if m == n { GrownSlot(g, h, n, M, o); } else { assert SlotHolds(g.m[m], o, M); SameSlot(g.m[m], h.m[m], o, M); }
    }
    forall m | m in h.m ensures h.m[m].count == |UsedSlots(h.m[m], M)| {
      if m == n { GrownCount(g, h, n, M); } else { SameSlots(g.m[m], h.m[m], M); }
    }
    GrownTopHolds(g, h, n, M);
  }

  lemma {:induction false} SameSlot(r: Rec, r': Rec, o: nat, M: map<nat, Entry>)
    requires r'.slots == r.slots && r'.shift == r.shift && r'.prefix == r.prefix && o < |r.slots| && SlotHolds(r, o, M)
    ensures SlotHolds(r', o, M)
  {}

  lemma {:induction false} SameSlots(r: Rec, r': Rec, M: map<nat, Entry>)
    requires r'.slots == r.slots && r'.shift == r.shift && r'.prefix == r.prefix
    ensures |UsedSlots(r', M)| == |UsedSlots(r, M)|
  {
    SameSize(UsedSlots(r, M), UsedSlots(r', M));
  }

  lemma {:induction false} GrownTopHolds(g: Shot, h: Shot, n: RxNode, M: map<nat, Entry>)
    requires Linked(g) && TopHolds(g, M) && Grown(g, h, n)
    ensures TopHolds(h, M)
  {
    hide Linked;
    forall k | k in M ensures Covers(h.m[n], k) {
      KeysInRange(g, M, k);
      assert Shr(k, HeightShift(g) + 6) == Shr(k, HeightShift(g)) / 64;
    }
  }

  lemma {:induction false} GrownCount(g: Shot, h: Shot, n: RxNode, M: map<nat, Entry>)
    requires Linked(g) && Holds(g, M) && Grown(g, h, n) && (g.top != Null || 0 in M)
    ensures |UsedSlots(h.m[n], M)| == 1
  {
    hide Used, Linked, Holds;
    forall o | 0 <= o < 64 ensures o in UsedSlots(h.m[n], M) <==> o == 0 { GrownSlot(g, h, n, M, o); }
    assert UsedSlots(h.m[n], M) == {0};
  }

  /** The new top node's bits, given what they must be. */
  lemma {:induction false} GrownTagged(g: Shot, h: Shot, n: RxNode, t: nat, S: iset<nat>)
    requires Linked(g) && Linked(h) && Grown(g, h, n) && t < 3 && TagOk(g, t, S)
    requires 0 in h.m[n].tags[t] <==> t in g.tags
    requires forall o: nat :: o > 0 ==> (o in h.m[n].tags[t] <==> o < 64 && Any(S, HeightShift(g), o))
    requires RootTagged(h, t, S)
    ensures TagOk(h, t, S)
  {
    hide Linked, NodeOk;
    forall m, o: nat | m in h.m && t < |h.m[m].tags| ensures SlotTagged(h.m[m], t, o, S) {
      if m != n {
        assert SlotTagged(g.m[m], t, o, S);
      } else if o == 0 {
        GrownFirst(g, t, S);
      }
    }
  }

  lemma {:induction false} GrownFirst(g: Shot, t: nat, S: iset<nat>)
    requires Linked(g) && RootTagged(g, t, S)
    ensures t in g.tags <==> Any(S, HeightShift(g), 0)
  {
    hide Linked;
    forall k ensures InRange(g, k) <==> Shr(k, HeightShift(g)) == 0 { RangeShift(g, k); }
  }

  lemma {:induction false} ShrOfShl(q: nat, s: nat)
    requires s % 6 == 0
    ensures Shr(Shl(q, s), s) == q
  {
    ShrShl(Shl(q, s), q, s);
    ShrShl(Shl(q, s), q + 1, s);
    ShlNext(q, s);
  }

  lemma {:induction false} ShlNext(q: nat, s: nat)
    ensures Shl(q, s) < Shl(q + 1, s)
  {
    if s >= 6 { ShlNext(q, s - 6); }
  }

  /** Extending an ordinary tree. */
  lemma {:induction false} GrownGood(g: Shot, h: Shot, n: RxNode, M: map<nat, Entry>, T: seq<iset<nat>>)
    requires Good(g, M, T, false) && Grown(g, h, n) && HeightShift(g) <= 60 && g.top != Null && h.tags == g.tags
    requires forall t :: 0 <= t < 3 ==> h.m[n].tags[t] == if t in g.tags then {0} else {}
    ensures Good(h, M, T, false)
  {
    hide Sound, TagOk, Mode, Linked;
    GrownSound(g, h, n, M);
    forall t | 0 <= t < 3 ensures TagOk(h, t, T[t]) {
      assert TagOk(g, t, T[t]);
      GrownPlain(g, h, n, M, T, t);
    }
  }

  lemma {:induction false} SoundParts(h: Shot, M: map<nat, Entry>)
    requires Sound(h, M)
    ensures Linked(h) && Holds(h, M) && Counted(h, M) && TopHolds(h, M)
  {}

  lemma {:induction false} GrownPlain(g: Shot, h: Shot, n: RxNode, M: map<nat, Entry>, T: seq<iset<nat>>, t: nat)
    requires Sound(g, M) && Sound(h, M) && Mode(false, M, T) && Grown(g, h, n) && t < 3 && TagOk(g, t, T[t])
      && h.tags == g.tags
    requires h.m[n].tags[t] == if t in g.tags then {0} else {}
    ensures TagOk(h, t, T[t])
  {
    hide Linked, Counted, Holds;
    SoundParts(g, M); SoundParts(h, M);
    var S := T[t];
    forall k | k in S
      ensures InRange(g, k) && InRange(h, k) && Shr(k, HeightShift(g)) == 0
    {
      KeysInRange(g, M, k); KeysInRange(h, M, k);
    }
    GrownTagged(g, h, n, t, S);
  }

  lemma {:induction false} KeysInRange(h: Shot, M: map<nat, Entry>, k: nat)
    requires Linked(h) && TopHolds(h, M) && k in M
    ensures InRange(h, k) && Shr(k, HeightShift(h)) == 0
  {
    hide Linked;
    RangeShift(h, k);
  }

  /** Extending an IDR. */
  lemma {:induction false} GrownIdr(g: Shot, h: Shot, n: RxNode, M: map<nat, Entry>, T: seq<iset<nat>>)
    requires Good(g, M, T, true) && Grown(g, h, n) && HeightShift(g) <= 60 && (g.top != Null || 0 in M)
      && h.tags == g.tags + {0}
    requires forall o: nat :: o in h.m[n].tags[0] <==> o < 64 && (o == 0 ==> 0 in g.tags)
    requires h.m[n].tags[1] == {} && h.m[n].tags[2] == {}
    ensures Good(h, M, T, true)
  {
    hide Sound, TagOk, Linked, Any;
    GrownSound(g, h, n, M);
    SoundParts(g, M); SoundParts(h, M);
    forall t | 0 <= t < 3 ensures TagOk(h, t, T[t]) {
      assert TagOk(g, t, T[t]);
      if t == 0 { GrownFree(g, h, n, M, T); } else { GrownEmpty(g, h, n, M, T, t); }
    }
  }

  lemma {:induction false} GrownEmpty(g: Shot, h: Shot, n: RxNode, M: map<nat, Entry>, T: seq<iset<nat>>, t: nat)
    requires Linked(g) && Linked(h) && Mode(true, M, T) && Grown(g, h, n) && (t == 1 || t == 2)
      && TagOk(g, t, T[t]) && h.tags == g.tags + {0}
    requires h.m[n].tags[t] == {}
    ensures TagOk(h, t, T[t])
  {
    hide Linked;
    GrownTagged(g, h, n, t, T[t]);
  }

  lemma {:induction false} GrownFree(g: Shot, h: Shot, n: RxNode, M: map<nat, Entry>, T: seq<iset<nat>>)
    requires Linked(g) && TopHolds(g, M) && Linked(h) && Mode(true, M, T) && Grown(g, h, n) && TagOk(g, 0, T[0])
      && h.tags == g.tags + {0}
    requires forall o: nat :: o in h.m[n].tags[0] <==> o < 64 && (o == 0 ==> 0 in g.tags)
    ensures TagOk(h, 0, T[0])
  {
    hide Linked, NodeOk;
    var s := HeightShift(g);
    HeightDigits(g);
    forall o: nat | 0 < o < 64 ensures Any(T[0], s, o) && Shl(o, s) in T[0] {
      ShrOfShl(o, s);
      if Shl(o, s) in M { KeysInRange(g, M, Shl(o, s)); }
      AnyIn(T[0], s, Shl(o, s));
    }
    var k := Shl(1, s);
    assert Shr(k, s) == 1 by { ShrOfShl(1, s); }
    assert Shr(k, s + 6) == 0;
    assert InRange(h, k) && k in T[0];
    GrownTagged(g, h, n, 0, T[0]);
  }

  lemma {:induction false} HeightDigits(h: Shot)
    requires Linked(h)
    ensures HeightShift(h) % 6 == 0 && HeightShift(h) <= 66
  {
    hide Linked;
    if h.top.Child? { TopAt(h); }
  }

  // ---- a new child in an empty slot, or a first node ----

  /** A fresh node c in the empty slot o of n. */
  ghost predicate Sprouted(g: Shot, h: Shot, n: RxNode, o: nat, c: RxNode) {
    && c !in g.m && n in g.m && o < 64 && |g.m[n].slots| == 64 && g.m[n].slots[o] == Null && g.m[n].shift >= 6
    && Fits(Lead(g.m[n], o), g.m[n].shift - 6)
    && h.top == g.top && h.tags == g.tags && h.m.Keys == g.m.Keys + {c}
    && h.m[c] == Rec(g.m[n].shift - 6, o, 0, n, NoSlots(), h.m[c].tags, Lead(g.m[n], o)) && |h.m[c].tags| == 3
    && h.m[n] == g.m[n].(slots := g.m[n].slots[o := Child(c)], count := g.m[n].count + 1)
    && forall m :: m in g.m && m != n ==> h.m[m] == g.m[m]
  }

  lemma {:induction false} SproutedNode(g: Shot, h: Shot, n: RxNode, o: nat, c: RxNode, m: RxNode)
    requires Sprouted(g, h, n, o, c) && NodeOk(g, n) && m in h.m && (m != c ==> NodeOk(g, m))
    ensures NodeOk(h, m)
  {}

  lemma {:induction false} NotUnder(S: iset<nat>, s: nat, q: nat, o: nat)
    requires !Any(S, s + 6, q) && o < 64
    ensures !Any(S, s, 64 * q + o)
  {
    if Any(S, s, 64 * q + o) { AnyUp(S, s, q, o); }
  }

  lemma {:induction false} NotKey(M: map<nat, Entry>, k: nat)
    requires !Any(Keys(M), 0, k)
    ensures k !in M
  {
    if k in M { AnyIn(Keys(M), 0, k); }
  }

  /** The slots of the new node are empty, and rightly so. */
  lemma {:induction false} SproutedSlot(g: Shot, h: Shot, n: RxNode, o: nat, c: RxNode, M: map<nat, Entry>, p: nat)
    requires Sprouted(g, h, n, o, c) && SlotHolds(g.m[n], o, M) && p < 64
    ensures SlotHolds(h.m[c], p, M) && !Used(h.m[c], p, M)
  {
    var r := h.m[c];
    NotUnder(Keys(M), r.shift, r.prefix, p);
    if r.shift == 0 { NotKey(M, Lead(r, p)); }
  }

  lemma {:induction false} SproutedSound(g: Shot, h: Shot, n: RxNode, o: nat, c: RxNode, M: map<nat, Entry>)
    requires Sound(g, M) && Sprouted(g, h, n, o, c)
    ensures Sound(h, M)
  {
    hide NodeOk, SlotHolds, UsedSlots, Used;
    assert SlotHolds(g.m[n], o, M);
    forall m | m in h.m ensures NodeOk(h, m) { SproutedNode(g, h, n, o, c, m); }
    forall m, p | m in h.m && 0 <= p < |h.m[m].slots| ensures SlotHolds(h.m[m], p, M) {
      if m == c {
        SproutedSlot(g, h, n, o, c, M, p);
      } else {
        assert SlotHolds(g.m[m], p, M);
        if m == n { SproutedParent(g.m[n], h.m[n], o, c, M, p); }
      }
    }
    forall m | m in h.m ensures h.m[m].count == |UsedSlots(h.m[m], M)| {
      if m == c {
        forall p | 0 <= p < 64 ensures !Used(h.m[c], p, M) { SproutedSlot(g, h, n, o, c, M, p); }
        NoSlotUsed(h.m[c], M);
      } else if m == n {
        SproutedCount(g.m[n], h.m[n], o, c, M);
      }
    }
  }

  lemma {:induction false} SproutedParent(r: Rec, r': Rec, o: nat, c: RxNode, M: map<nat, Entry>, p: nat)
    requires p < |r.slots| && o < |r.slots| && r.shift >= 6 && SlotHolds(r, p, M)
    requires r' == r.(slots := r.slots[o := Child(c)], count := r.count + 1)
    ensures SlotHolds(r', p, M)
  {}

  lemma {:induction false} SproutedCount(r: Rec, r': Rec, o: nat, c: RxNode, M: map<nat, Entry>)
    requires |r.slots| == 64 && o < 64 && r.shift >= 6 && r.slots[o] == Null
    requires r' == r.(slots := r.slots[o := Child(c)], count := r.count + 1)
    ensures |UsedSlots(r', M)| == |UsedSlots(r, M)| + 1
  {
    CountSlot(r, r', M, M, o);
  }

  lemma {:induction false} NoSlotUsed(r: Rec, M: map<nat, Entry>)
    requires forall p :: 0 <= p < |r.slots| ==> !Used(r, p, M)
    ensures |UsedSlots(r, M)| == 0
  {
    assert UsedSlots(r, M) == {};
  }

  lemma {:induction false} SproutedTagged(g: Shot, h: Shot, n: RxNode, o: nat, c: RxNode, t: nat, S: iset<nat>)
    requires Linked(g) && Sprouted(g, h, n, o, c) && t < 3 && TagOk(g, t, S)
    requires forall p: nat :: p in h.m[c].tags[t] <==> p < 64 && Any(S, h.m[c].shift, Lead(h.m[c], p))
    ensures TagOk(h, t, S)
  {
    forall k ensures InRange(h, k) <==> InRange(g, k) {}
    assert RootTagged(h, t, S);
    forall m, p: nat | m in h.m && t < |h.m[m].tags| ensures SlotTagged(h.m[m], t, p, S) {
      if m != c { assert SlotTagged(g.m[m], t, p, S); }
    }
  }

  /** A new node has no tags in an ordinary tree; in an IDR, all of its ids are free. */
  ghost predicate FreshTags(r: Rec, idr: bool) {
    && |r.tags| == 3 && r.tags[1] == {} && r.tags[2] == {}
    && forall o: nat :: o in r.tags[0] <==> idr && o < 64
  }

  lemma {:induction false} SproutedGood(g: Shot, h: Shot, n: RxNode, o: nat, c: RxNode, M: map<nat, Entry>,
          T: seq<iset<nat>>, idr: bool)
    requires Good(g, M, T, idr) && Sprouted(g, h, n, o, c) && FreshTags(h.m[c], idr)
    ensures Good(h, M, T, idr)
  {
    hide Sound, TagOk, Mode, Any, FreshTags;
    SproutedSound(g, h, n, o, c, M);
    forall t | 0 <= t < 3 ensures TagOk(h, t, T[t]) {
      assert TagOk(g, t, T[t]);
      SproutedTag(g, h, n, o, c, M, T, idr, t);
    }
  }

  lemma {:induction false} SproutedTag(g: Shot, h: Shot, n: RxNode, o: nat, c: RxNode, M: map<nat, Entry>,
          T: seq<iset<nat>>, idr: bool, t: nat)
    requires Sound(g, M) && |T| == 3 && t < 3 && TagOk(g, t, T[t]) && Mode(idr, M, T) && Sprouted(g, h, n, o, c)
      && FreshTags(h.m[c], idr)
    ensures TagOk(h, t, T[t])
  {
    hide Linked, Counted;
    assert SlotHolds(g.m[n], o, M);
    var r := h.m[c];
    forall p: nat ensures p in r.tags[t] <==> p < 64 && Any(T[t], r.shift, Lead(r, p)) {
      if p < 64 {
        if Any(Keys(M), r.shift, Lead(r, p)) { AnyUp(Keys(M), r.shift, r.prefix, p); }
        if idr && t == 0 {
          var k := Shl(Lead(r, p), r.shift);
          NodeDigits(g, n);
          ShrOfShl(Lead(r, p), r.shift);
          if k in M { AnyIn(Keys(M), r.shift, k); }
          AnyIn(T[0], r.shift, k);
        } else if Any(T[t], r.shift, Lead(r, p)) {
          AnyMono(T[t], Keys(M), r.shift, Lead(r, p));
        }
      }
    }
    SproutedTagged(g, h, n, o, c, t, T[t]);
  }

  lemma {:induction false} NodeDigits(h: Shot, n: RxNode)
    requires Linked(h) && n in h.m
    ensures h.m[n].shift % 6 == 0
  {
    hide Linked;
    BasicAt(h, n);
  }

  /** The first node of an empty tree. */
  ghost predicate Planted(g: Shot, h: Shot, c: RxNode, s: nat) {
    && g.top == Null && h.top == Child(c) && h.tags == g.tags && h.m.Keys == {c}
    && h.m[c] == Rec(s, 0, 0, null, NoSlots(), h.m[c].tags, 0) && |h.m[c].tags| == 3 && s % 6 == 0 && s <= 60
  }

  lemma {:induction false} PlantedGood(g: Shot, h: Shot, c: RxNode, s: nat, T: seq<iset<nat>>, idr: bool)
    requires Good(g, map[], T, idr) && Planted(g, h, c, s) && FreshTags(h.m[c], idr)
    ensures Good(h, map[], T, idr)
  {
    hide Any;
    var M: map<nat, Entry> := map[];
    FitsZero(s + 6);
    assert NodeOk(h, c);
    forall p | 0 <= p < 64 ensures !Any(Keys(M), s, p) { NothingThere(M, s, p); }
    NoSlotUsed(h.m[c], M);
    assert Sound(h, M);
    forall t | 0 <= t < 3 ensures TagOk(h, t, T[t]) { PlantedTag(g, h, c, s, T, idr, t); }
  }

  lemma {:induction false} NothingThere(M: map<nat, Entry>, s: nat, q: nat)
    requires M == map[]
    ensures !Any(Keys(M), s, q)
  {}

  lemma {:induction false} PlantedTag(g: Shot, h: Shot, c: RxNode, s: nat, T: seq<iset<nat>>, idr: bool, t: nat)
    requires Linked(h) && Mode(idr, map[], T) && t < 3 && TagOk(g, t, T[t]) && Planted(g, h, c, s)
      && FreshTags(h.m[c], idr)
    ensures TagOk(h, t, T[t])
  {
    hide Linked;
    var S := T[t];
    if idr && t == 0 {
      assert 0 in S && Shr(0, s + 6) == 0 by { ShrZero(s + 6); }
      assert InRange(g, 0) && InRange(h, 0);
    } else {
      var M: map<nat, Entry> := map[];
      forall k ensures k !in S { assert k in S ==> k in M; }
    }
    assert RootTagged(h, t, S);
    forall m, p: nat | m in h.m && t < |h.m[m].tags| ensures SlotTagged(h.m[m], t, p, S) {
      if idr && t == 0 && p < 64 {
        ShrOfShl(p, s);
        AnyIn(S, s, Shl(p, s));
      }
    }
  }

  lemma {:induction false} ShrZero(s: nat)
    ensures Shr(0, s) == 0
  {
    if s >= 6 { ShrZero(s - 6); }
  }
}
