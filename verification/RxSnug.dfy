/**
 * The canonical form of a radix tree: no node without an entry below it, and no
 * more levels than the largest index needs.
 */
module RxSnug {
  import opened RxModel
  import opened RxSteps
  import opened RxShape
  import opened RxShrink

  /** Every node leads to an index in K. */
  ghost predicate Lively(h: Shot, K: iset<nat>) {
    forall n :: n in h.m ==> Any(K, h.m[n].shift + 6, h.m[n].prefix)
  }

  /** And some index in K needs the top node. */
  ghost predicate Snug(h: Shot, K: iset<nat>) {
    && Lively(h, K)
    && (h.top.Child? ==> h.top.n in h.m && Needs(K, h.m[h.top.n].shift))
  }

  /** The top node is not one that radix_tree_shrink takes off: with a lone entry or child, in its first slot. */
  ghost predicate Lowered(h: Shot) {
    h.top.Child? ==>
      && h.top.n in h.m && |h.m[h.top.n].slots| == 64
      && var r := h.m[h.top.n];
        r.count != 1 || r.slots[0] == Null || (!r.slots[0].Child? && r.shift > 0)
  }

  /** What operations on a tree or an IDR keep: no node is in vain. */
  ghost predicate Trim(h: Shot, M: map<nat, Entry>) { Lively(h, Keys(M)) && Lowered(h) }

  /** Some index in K has digits left at this shift. */
  ghost predicate Needs(K: iset<nat>, s: nat) { exists k :: k in K && Shr(k, s) > 0 }

  lemma {:induction false} NeedsOne(K: iset<nat>, s: nat, k: nat)
    requires k in K && Shr(k, s) > 0
    ensures Needs(K, s)
  {}

  // ---- what it amounts to ----

  /** In a canonical tree no node is empty, and radix_tree_shrink has nothing to do. */
  lemma {:induction false} SnugCounts(h: Shot, M: map<nat, Entry>, n: RxNode)
    requires Sound(h, M) && Snug(h, Keys(M)) && n in h.m
    ensures h.m[n].count > 0
    ensures h.top == Child(n) && h.m[n].count == 1 ==> |h.m[n].slots| == 64 && h.m[n].slots[0] == Null
  {
    hide Linked, Holds, Counted, UsedSlots;
    BasicAt(h, n);
    var r := h.m[n];
    assert Any(Keys(M), r.shift + 6, r.prefix);
    var o := UsedUnder(h, M, n);
    if h.top == Child(n) && r.count == 1 && r.slots[0] != Null {
      var k :| k in Keys(M) && Shr(k, r.shift) > 0;
      TopAt(h);
      SoundParts(h, M);
      assert Covers(r, k);
      CoversLeads(r, k);
      UsedFor(h, M, n, k);
      FirstOnly(h, M, n, Digit(r, k));
    }
  }

  lemma {:induction false} SnugTrim(h: Shot, M: map<nat, Entry>)
    requires Sound(h, M) && Snug(h, Keys(M))
    ensures Trim(h, M)
  {
    if h.top.Child? {
      SnugCounts(h, M, h.top.n);
      SoundParts(h, M); TopAt(h); BasicAt(h, h.top.n);
    }
  }

  /** Conversely, such a tree is canonical, but that an IDR keeps a node for a lone id 0 with a NULL entry. */
  lemma {:induction false} TrimSnug(h: Shot, M: map<nat, Entry>)
    requires Sound(h, M) && Trim(h, M)
    ensures Snug(h, Keys(M)) || (M.Keys == {0} && M[0] == Null && h.top.Child? && HeightShift(h) == 6)
  {
    if h.top.Child? {
      SoundParts(h, M); TopAt(h);
      ShrinkStops(h, M, h.top.n);
    } else {
      NoNodes(h);
    }
  }

  lemma {:induction false} NoneLively(h: Shot)
    requires Lively(h, Keys(map[]))
    ensures h.m == map[]
  {
    AnyNone();
  }

  lemma {:induction false} AnyNone()
    ensures forall s: nat, p: nat :: !Any(Keys(map[]), s, p)
  {}

  /** Without indices in use there are no nodes. */
  lemma {:induction false} TrimEmpty(h: Shot)
    requires Sound(h, map[]) && Lively(h, Keys(map[]))
    ensures h.top == Null && h.m == map[]
  {
    NoneLively(h);
    SoundParts(h, map[]);
    if h.top.Child? { TopAt(h); }
  }

  /** A slot in use leads to an index in use, if the child in it does. */
  lemma {:induction false} UsedIndex(h: Shot, M: map<nat, Entry>, n: RxNode, o: nat)
    requires Sound(h, M) && n in h.m && o < 64 && |h.m[n].slots| == 64 && Used(h.m[n], o, M)
    requires h.m[n].slots[o].Child? ==>
      var c := h.m[n].slots[o].n; c in h.m && Any(Keys(M), h.m[c].shift + 6, h.m[c].prefix)
    ensures Any(Keys(M), h.m[n].shift, Lead(h.m[n], o))
  {
    hide Linked;
    BasicAt(h, n);
    if h.m[n].slots[o].Child? {
      ChildAt(h, n, o);
    } else {
      assert SlotHolds(h.m[n], o, M);
      if h.m[n].shift == 0 { AnyIn(Keys(M), 0, Lead(h.m[n], o)); } else { NotItem(h, n, o); }
    }
  }

  lemma {:induction false} OtherUsed(r: Rec, M: map<nat, Entry>) returns (o: nat)
    requires |UsedSlots(r, M)| > 0 && |r.slots| == 64 && (|UsedSlots(r, M)| > 1 || !Used(r, 0, M))
    ensures 0 < o < 64 && Used(r, o, M)
  {
    var U := UsedSlots(r, M);
    if 0 in U {
      assert |U - {0}| > 0;
      o :| o in U - {0};
    } else {
      o :| o in U;
    }
  }

  /** Where radix_tree_shrink stops, the top node is needed. */
  lemma {:induction false} ShrinkStops(h: Shot, M: map<nat, Entry>, n: RxNode)
    requires Sound(h, M) && h.top == Child(n) && n in h.m && Trim(h, M)
    ensures Snug(h, Keys(M)) || (M.Keys == {0} && M[0] == Null && h.m[n].shift == 0)
  {
    hide Linked, Holds;
    var r := h.m[n];
    SoundParts(h, M);
    TopAt(h); BasicAt(h, n); CountAt(h, M, n);
    var p := UsedUnder(h, M, n);
    if h.m[n].shift > 0 { NotItem(h, n, 0); }
    HoldsAt(h, M, n, 0);
    if |UsedSlots(r, M)| == 1 && Used(r, 0, M) {
      LoneZero(h, M, n);
      return;
    }
    var o := OtherUsed(r, M);
    if r.slots[o].Child? {
      ChildAt(h, n, o); assert Any(Keys(M), h.m[r.slots[o].n].shift + 6, h.m[r.slots[o].n].prefix);
    }
    UsedIndex(h, M, n, o);
    var k :| k in Keys(M) && Shr(k, r.shift) == o;
    NeedsOne(Keys(M), r.shift, k);
  }

  lemma {:induction false} LoneZero(h: Shot, M: map<nat, Entry>, n: RxNode)
    requires Sound(h, M) && h.top == Child(n) && n in h.m && h.m[n].shift == 0 && h.m[n].prefix == 0
    requires |h.m[n].slots| == 64 && |UsedSlots(h.m[n], M)| == 1 && Used(h.m[n], 0, M) && h.m[n].slots[0] == Null
    ensures M.Keys == {0} && M[0] == Null
  {
    hide Linked;
    var r := h.m[n];
    assert SlotHolds(r, 0, M);
    forall k | k in M ensures k == 0 {
      UsedFor(h, M, n, k);
      OneElement(UsedSlots(r, M), 0, Digit(r, k));
      CoversLeads(r, k);
    }
  }

  lemma {:induction false} OneElement(s: set<nat>, a: nat, b: nat)
    requires |s| == 1 && a in s && b in s
    ensures a == b
  {
    var rest := s - {a};
    assert |rest| == 0;
    assert b !in rest;
  }

  lemma {:induction false} HoldsAt(h: Shot, M: map<nat, Entry>, n: RxNode, o: nat)
    requires Holds(h, M) && n in h.m && o < |h.m[n].slots|
    ensures SlotHolds(h.m[n], o, M)
  {}

  lemma {:induction false} FirstOnly(h: Shot, M: map<nat, Entry>, n: RxNode, o: nat)
    requires Sound(h, M) && n in h.m && |h.m[n].slots| == 64 && h.m[n].count == 1 && h.m[n].slots[0] != Null
      && 0 < o < 64
    ensures !Used(h.m[n], o, M)
  {
    OnlyFirst(h.m[n], M, o);
  }

  /** The slot of an index in use is used. */
  lemma {:induction false} UsedFor(h: Shot, M: map<nat, Entry>, n: RxNode, k: nat)
    requires Sound(h, M) && n in h.m && Covers(h.m[n], k) && k in M
    ensures |h.m[n].slots| == 64 && Used(h.m[n], Digit(h.m[n], k), M)
  {
    hide Linked, Counted;
    BasicAt(h, n);
    var r := h.m[n];
    CoversLeads(r, k);
    assert SlotHolds(r, Digit(r, k), M);
    AnyIn(Keys(M), r.shift, k);
  }

  lemma {:induction false} UsedUnder(h: Shot, M: map<nat, Entry>, n: RxNode) returns (o: nat)
    requires Sound(h, M) && n in h.m && Any(Keys(M), h.m[n].shift + 6, h.m[n].prefix)
    ensures h.m[n].count > 0 && |h.m[n].slots| == 64 && o < 64 && Used(h.m[n], o, M)
  {
    hide Linked;
    BasicAt(h, n);
    var k :| k in Keys(M) && Shr(k, h.m[n].shift + 6) == h.m[n].prefix;
    UsedFor(h, M, n, k);
    o := Digit(h.m[n], k);
    assert o in UsedSlots(h.m[n], M);
  }

  /** A lone index 0 is stored directly in the root. */
  lemma {:induction false} SnugLoneZero(h: Shot, M: map<nat, Entry>)
    requires Sound(h, M) && Snug(h, Keys(M)) && forall k :: k in M ==> k == 0
    ensures h.top == At(M, 0) && h.m == map[]
  {
    if h.top.Child? {
      var k :| k in Keys(M) && Shr(k, h.m[h.top.n].shift) > 0;
      ShrZero(h.m[h.top.n].shift);
    }
    NoNodes(h);
  }

  /** The shape of the tree: which digits have a node, at which level. */
  ghost function Shape(h: Shot): iset<(nat, nat)> { iset n | n in h.m :: (h.m[n].shift, h.m[n].prefix) }

  /** Where the canonical tree of a set of indices has nodes. */
  ghost predicate Wanted(K: iset<nat>, s: nat, q: nat) { s % 6 == 0 && Any(K, s + 6, q) && Needs(K, s) }

  lemma {:induction false} NeedsLess(K: iset<nat>, s: nat, s': nat)
    requires Needs(K, s') && s <= s' && s % 6 == 0 && s' % 6 == 0
    ensures Needs(K, s)
  {
    var k :| k in K && Shr(k, s') > 0;
    if Shr(k, s) == 0 { ShrZero(s); ShrUp(k, 0, s, s'); ShrZero(s'); }
  }

  /** Every node is wanted. */
  lemma {:induction false} NodesWanted(h: Shot, M: map<nat, Entry>, n: RxNode)
    requires Sound(h, M) && Snug(h, Keys(M)) && n in h.m
    ensures Wanted(Keys(M), h.m[n].shift, h.m[n].prefix)
  {
    hide Linked;
    TopHighest(h, n); BasicAt(h, n); BasicAt(h, h.top.n);
    NeedsLess(Keys(M), h.m[n].shift, h.m[h.top.n].shift);
  }

  /** Walking down from the top finds a node for every wanted level of an index in use. */
  lemma {:induction false} WalkDown(h: Shot, M: map<nat, Entry>, n: RxNode, k: nat, s: nat) returns (m: RxNode)
    requires Sound(h, M) && n in h.m && k in M && Covers(h.m[n], k) && s % 6 == 0 && s <= h.m[n].shift
    ensures m in h.m && h.m[m].shift == s && Covers(h.m[m], k)
    decreases h.m[n].shift
  {
    hide Linked, Counted;
    BasicAt(h, n);
    if h.m[n].shift == s {
      m := n;
    } else {
      var r := h.m[n];
      var o := Digit(r, k);
      CoversLeads(r, k);
      assert SlotHolds(r, o, M);
      AnyIn(Keys(M), r.shift, k);
      ChildAt(h, n, o);
      BasicAt(h, r.slots[o].n);
      m := WalkDown(h, M, r.slots[o].n, k, s);
    }
  }

  lemma {:induction false} WantedNodes(h: Shot, M: map<nat, Entry>, s: nat, q: nat)
    requires Sound(h, M) && Wanted(Keys(M), s, q)
    ensures (s, q) in Shape(h)
  {
    hide Linked;
    var k :| k in Keys(M) && Shr(k, s + 6) == q;
    var j :| j in Keys(M) && Shr(j, s) > 0;
    SoundParts(h, M);
    KeysInRange(h, M, j);
    HeightDigits(h);
    if HeightShift(h) <= s { ShrZero(HeightShift(h)); ShrUp(j, 0, HeightShift(h), s); ShrZero(s); }
    TopAt(h); BasicAt(h, h.top.n);
    KeysInRange(h, M, k);
    var m := WalkDown(h, M, h.top.n, k, s);
    assert (h.m[m].shift, h.m[m].prefix) == (s, q);
  }

  /** Two canonical trees with the same indices have the same shape, whatever their histories. */
  lemma {:induction false} SameShape(h: Shot, M: map<nat, Entry>, h': Shot, M': map<nat, Entry>)
    requires Sound(h, M) && Snug(h, Keys(M)) && Sound(h', M') && Snug(h', Keys(M')) && M.Keys == M'.Keys
    ensures Shape(h) == Shape(h') && (h.top.Child? <==> h'.top.Child?)
    ensures M == M' && !h.top.Child? ==> h.top == h'.top
  {
    hide Sound, Snug;
    assert Keys(M) == Keys(M');
    forall s: nat, q: nat
      ensures (s, q) in Shape(h) <==> (s, q) in Shape(h')
    {
      OneShape(h, M, h', M', s, q); OneShape(h', M', h, M, s, q);
    }
    TopShape(h, M); TopShape(h', M');
  }

  lemma {:induction false} OneShape(h: Shot, M: map<nat, Entry>, h': Shot, M': map<nat, Entry>, s: nat, q: nat)
    requires Sound(h, M) && Snug(h, Keys(M)) && Sound(h', M') && Keys(M) == Keys(M')
    ensures (s, q) in Shape(h) ==> (s, q) in Shape(h')
  {
    hide Sound, Snug;
    if (s, q) in Shape(h) {
      var n :| n in h.m && (h.m[n].shift, h.m[n].prefix) == (s, q);
      NodesWanted(h, M, n);
      WantedNodes(h', M', s, q);
    }
  }

  lemma {:induction false} TopShape(h: Shot, M: map<nat, Entry>)
    requires Sound(h, M)
    ensures h.top.Child? <==> Shape(h) != iset{}
    ensures !h.top.Child? ==> h.top == At(M, 0)
  {
    if h.top.Child? {
      assert (h.m[h.top.n].shift, h.m[h.top.n].prefix) in Shape(h);
    } else {
      NoNodes(h);
    }
  }

  // ---- steps ----

  /** No bottom node but `but` is without an entry; a bottom node is only ever made for an entry. */
  ghost predicate Tidy(h: Shot, but: RxNode?) {
    forall n :: n in h.m && n != but && h.m[n].shift == 0 ==> h.m[n].count > 0
  }

  lemma {:induction false} TidyGrown(g: Shot, h: Shot, n: RxNode)
    requires Grown(g, h, n) && Tidy(g, null)
    ensures Tidy(h, null)
  {
    forall m | m in h.m && m != null && h.m[m].shift == 0
      ensures h.m[m].count > 0
    {
      if m in g.m { assert h.m[m].count == g.m[m].count; }
    }
  }

  lemma {:induction false} TidySprouted(g: Shot, h: Shot, n: RxNode, o: nat, c: RxNode)
    requires Sprouted(g, h, n, o, c) && Tidy(g, null)
    ensures Tidy(h, c) && (h.m[c].shift > 0 ==> Tidy(h, null))
  {
    forall m | m in h.m && m != c && h.m[m].shift == 0
      ensures h.m[m].count > 0
    {
      if m != n { assert h.m[m] == g.m[m]; }
    }
  }

  lemma {:induction false} TidyPlanted(g: Shot, h: Shot, c: RxNode, s: nat)
    requires Planted(g, h, c, s)
    ensures Tidy(h, c) && (s > 0 ==> Tidy(h, null))
  {}

  lemma {:induction false} LivelyGrown(g: Shot, h: Shot, n: RxNode, K: iset<nat>)
    requires Linked(g) && Grown(g, h, n) && Lively(g, K) && (!g.top.Child? ==> 0 in K)
    ensures Lively(h, K)
  {
    hide Linked;
    HeightDigits(g);
    var s := HeightShift(g);
    if g.top.Child? {
      TopAt(g); BasicAt(g, g.top.n);
      var k :| k in K && Shr(k, s) == 0;
      assert Shr(k, s + 6) == 0;
    } else {
      ShrZero(s + 6);
    }
    assert Any(K, s + 6, 0);
    forall m | m in h.m
      ensures Any(K, h.m[m].shift + 6, h.m[m].prefix)
    {
      if m in g.m { assert Any(K, g.m[m].shift + 6, g.m[m].prefix); }
    }
  }

  lemma {:induction false} SnugGrown(g: Shot, h: Shot, n: RxNode, K: iset<nat>, index: nat)
    requires Linked(g) && Grown(g, h, n) && Snug(g, K) && index in K && Shr(index, HeightShift(g)) > 0
    requires !g.top.Child? ==> 0 in K
    ensures Snug(h, K)
  {
    hide Linked, Lively;
    LivelyGrown(g, h, n, K);
    NeedsOne(K, HeightShift(g), index);
  }

  lemma {:induction false} LivelySprouted(g: Shot, h: Shot, n: RxNode, o: nat, c: RxNode, K: iset<nat>, index: nat)
    requires Sprouted(g, h, n, o, c) && Lively(g, K) && index in K && Covers(g.m[n], index) && o == Digit(g.m[n], index)
    ensures Lively(h, K) && (Snug(g, K) ==> Snug(h, K))
  {
    CoversLeads(g.m[n], index);
    AnyIn(K, g.m[n].shift, index);
    forall m | m in h.m
      ensures Any(K, h.m[m].shift + 6, h.m[m].prefix)
    {
      if m in g.m { assert Any(K, g.m[m].shift + 6, g.m[m].prefix); }
    }
  }

  lemma {:induction false} SnugPlanted(g: Shot, h: Shot, c: RxNode, s: nat, K: iset<nat>, index: nat)
    requires Planted(g, h, c, s) && index in K && Shr(index, s + 6) == 0 && Shr(index, s) > 0
    ensures Snug(h, K)
  {
    AnyIn(K, s + 6, index);
    NeedsOne(K, s, index);
  }

  /** A step on the way to index keeps the tree canonical, and its nodes alive, once the index counts as in use. */
  ghost predicate SnugKept(g: Shot, h: Shot, M: map<nat, Entry>, index: nat) {
    forall K: iset<nat> :: index in K && Keys(M) <= K ==> AsSnug(g, h, K)
  }

  ghost predicate AsSnug(g: Shot, h: Shot, K: iset<nat>) {
    (Lively(g, K) ==> Lively(h, K)) && (Snug(g, K) ==> Snug(h, K))
  }

  lemma {:induction false} KeptNothing(g: Shot, M: map<nat, Entry>, index: nat)
    ensures SnugKept(g, g, M, index)
  {}

  lemma {:induction false} KeptBoth(g: Shot, h: Shot, i: Shot, M: map<nat, Entry>, index: nat)
    requires SnugKept(g, h, M, index) && SnugKept(h, i, M, index)
    ensures SnugKept(g, i, M, index)
  {
    hide Snug, Lively;
    forall K: iset<nat> | index in K && Keys(M) <= K ensures AsSnug(g, i, K) {
      assert AsSnug(g, h, K) && AsSnug(h, i, K);
    }
  }

  lemma {:induction false} KeptGrown(g: Shot, h: Shot, n: RxNode, M: map<nat, Entry>, index: nat)
    requires Sound(g, M) && Grown(g, h, n) && Shr(index, HeightShift(g)) > 0 && (g.top != Null || 0 in M)
    ensures SnugKept(g, h, M, index)
  {
    hide Linked, Snug, Grown, Counted, Lively;
    forall K: iset<nat> | index in K && Keys(M) <= K ensures AsSnug(g, h, K) {
      if !g.top.Child? { assert 0 in M; assert 0 in Keys(M); }
      if Lively(g, K) { LivelyGrown(g, h, n, K); }
      if Snug(g, K) { SnugGrown(g, h, n, K, index); }
    }
  }

  lemma {:induction false} KeptSprouted(g: Shot, h: Shot, n: RxNode, o: nat, c: RxNode, M: map<nat, Entry>, index: nat)
    requires Sprouted(g, h, n, o, c) && Covers(g.m[n], index) && o == Digit(g.m[n], index)
    ensures SnugKept(g, h, M, index)
  {
    hide Lively, Sprouted;
    forall K: iset<nat> | index in K && Keys(M) <= K ensures AsSnug(g, h, K) {
      if Lively(g, K) { LivelySprouted(g, h, n, o, c, K, index); }
    }
  }

  lemma {:induction false} KeptPlanted(g: Shot, h: Shot, c: RxNode, s: nat, M: map<nat, Entry>, index: nat)
    requires Planted(g, h, c, s) && Shr(index, s + 6) == 0 && Shr(index, s) > 0
    ensures SnugKept(g, h, M, index)
  {
    hide Lively, Planted;
    forall K: iset<nat> | index in K && Keys(M) <= K ensures AsSnug(g, h, K) {
      SnugPlanted(g, h, c, s, K, index);
    }
  }

  /** The same for nodes on top, which do not make empty bottom nodes either. */
  ghost predicate GrowthKept(g: Shot, h: Shot, M: map<nat, Entry>, index: nat) {
    SnugKept(g, h, M, index) && (Tidy(g, null) ==> Tidy(h, null))
  }

  lemma {:induction false} GrowthNothing(g: Shot, M: map<nat, Entry>, index: nat)
    ensures GrowthKept(g, g, M, index)
  {}

  lemma {:induction false} GrowthBoth(g: Shot, h: Shot, n: RxNode, i: Shot, M: map<nat, Entry>, index: nat)
    requires Sound(h, M) && Grown(h, i, n) && Shr(index, HeightShift(h)) > 0 && (h.top != Null || 0 in M)
      && GrowthKept(g, h, M, index)
    ensures GrowthKept(g, i, M, index)
  {
    hide SnugKept, Tidy, Sound, Grown;
    KeptGrown(h, i, n, M, index);
    KeptBoth(g, h, i, M, index);
    if Tidy(h, null) { TidyGrown(h, i, n); }
  }
}
