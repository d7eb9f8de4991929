/** How the radix tree gives nodes back without changing the map (radix-tree.c:695-808). */
module RxShrink {
  import opened RxModel
  import opened RxHeap
  import opened RxSteps
  import opened RxShape

  lemma {:induction false} UsedNone(r: Rec, M: map<nat, Entry>, o: nat)
    requires |UsedSlots(r, M)| == 0 && o < |r.slots|
    ensures !Used(r, o, M)
  {
    assert o !in UsedSlots(r, M);
  }

  /** Nothing is in use below a node whose count is zero. */
  lemma {:induction false} EmptyNode(h: Shot, M: map<nat, Entry>, n: RxNode, k: nat)
    requires Sound(h, M) && n in h.m && h.m[n].count == 0 && Covers(h.m[n], k)
    ensures k !in M
  {
    hide Linked;
    BasicAt(h, n);
    var r := h.m[n];
    var o := Digit(r, k);
    CoversLeads(r, k);
    UsedNone(r, M, o);
    assert SlotHolds(r, o, M);
    if k in M { AnyIn(Keys(M), r.shift, k); }
  }

  /** A node whose slots are all unused is nobody's parent. */
  lemma {:induction false} NoChildren(h: Shot, M: map<nat, Entry>, n: RxNode, m: RxNode)
    requires Sound(h, M) && n in h.m && m in h.m && h.m[m].parent == n
    ensures h.m[n].count != 0
  {
    LinkedAt(h, m);
    if h.m[n].count == 0 { UsedNone(h.m[n], M, h.m[m].offset); }
  }

  // ---- a node without entries goes ----

  ghost predicate Pruned(g: Shot, h: Shot, n: RxNode, p: RxNode) {
    && n in g.m && g.m[n].parent == p && p in g.m && n != p && g.m[n].offset < |g.m[p].slots|
    && h.top == g.top && h.tags == g.tags && h.m.Keys == g.m.Keys - {n}
    && h.m[p] == g.m[p].(slots := g.m[p].slots[g.m[n].offset := Null], count := g.m[p].count - 1)
    && forall m :: m in g.m && m != n && m != p ==> h.m[m] == g.m[m]
  }

  lemma {:induction false} PrunedNode(g: Shot, h: Shot, n: RxNode, p: RxNode, m: RxNode)
    requires Pruned(g, h, n, p) && m in h.m && NodeOk(g, m) && NodeOk(g, n) && NodeOk(g, p) && g.m[m].parent != n
    ensures NodeOk(h, m)
  {}

  lemma {:induction false} PrunedSound(g: Shot, h: Shot, M: map<nat, Entry>, n: RxNode, p: RxNode)
    requires Sound(g, M) && Pruned(g, h, n, p) && g.m[n].count == 0
    ensures Sound(h, M)
  {
    hide NodeOk, SlotHolds, UsedSlots, Used, Any;
    LinkedAt(g, n);
    PrunedPlace(g, n);
    forall m | m in h.m ensures NodeOk(h, m) {
      if g.m[m].parent == n { NoChildren(g, M, n, m); }
      PrunedNode(g, h, n, p, m);
    }
    forall m, o | m in h.m && 0 <= o < |h.m[m].slots| ensures SlotHolds(h.m[m], o, M) {
      assert SlotHolds(g.m[m], o, M);
      if m == p { PrunedSlot(g, h, M, n, p, o); }
    }
    forall m | m in h.m ensures h.m[m].count == |UsedSlots(h.m[m], M)| {
      if m == p { PrunedCount(g.m[p], h.m[p], g.m[n].offset, n, M); }
    }
    PrunedTop(g, h, M, n, p);
  }

  lemma {:induction false} PrunedPlace(g: Shot, n: RxNode)
    requires Linked(g) && n in g.m && g.m[n].parent != null
    ensures var p := g.m[n].parent;
      && p in g.m && |g.m[p].slots| == 64 && g.m[n].offset < 64 && g.m[p].slots[g.m[n].offset] == Child(n)
      && g.m[p].shift == g.m[n].shift + 6
      && g.m[n].prefix == Lead(g.m[p], g.m[n].offset)
  {
    LinkedAt(g, n);
  }

  lemma {:induction false} PrunedTop(g: Shot, h: Shot, M: map<nat, Entry>, n: RxNode, p: RxNode)
    requires Linked(g) && TopHolds(g, M) && Pruned(g, h, n, p)
    ensures TopHolds(h, M) && (h.top.Child? ==> h.top.n in h.m && h.m[h.top.n].parent == null)
  {
    hide NodeOk;
  }

  lemma {:induction false} PrunedSlot(g: Shot, h: Shot, M: map<nat, Entry>, n: RxNode, p: RxNode, o: nat)
    requires Sound(g, M) && Pruned(g, h, n, p) && g.m[n].count == 0 && o < |h.m[p].slots| && SlotHolds(g.m[p], o, M)
    ensures SlotHolds(h.m[p], o, M)
  {
    hide Linked, Holds, Counted;
    PrunedPlace(g, n);
    var r := g.m[p];
    if o == g.m[n].offset && Any(Keys(M), r.shift, Lead(r, o)) {
      var k :| k in Keys(M) && Shr(k, r.shift) == Lead(r, o);
      EmptyNode(g, M, n, k);
    }
  }

  lemma {:induction false} PrunedCount(r: Rec, r': Rec, o: nat, n: RxNode, M: map<nat, Entry>)
    requires |r.slots| == 64 && o < 64 && r.slots[o] == Child(n) && r.shift > 0
    requires r' == r.(slots := r.slots[o := Null], count := r.count - 1)
    ensures |UsedSlots(r', M)| == |UsedSlots(r, M)| - 1
  {
    CountSlot(r, r', M, M, o);
  }

  lemma {:induction false} PrunedTag(g: Shot, h: Shot, n: RxNode, p: RxNode, t: nat, S: iset<nat>)
    requires Linked(g) && TagOk(g, t, S) && Pruned(g, h, n, p)
    ensures TagOk(h, t, S)
  {
    forall k ensures InRange(h, k) <==> InRange(g, k) {}
    assert RootTagged(h, t, S);
    forall m, o: nat | m in h.m && t < |h.m[m].tags|
      ensures SlotTagged(h.m[m], t, o, S)
    {
      assert SlotTagged(g.m[m], t, o, S);
    }
  }

  lemma {:induction false} PrunedGood(g: Shot, h: Shot, M: map<nat, Entry>, T: seq<iset<nat>>, idr: bool, n: RxNode,
          p: RxNode)
    requires Good(g, M, T, idr) && Pruned(g, h, n, p) && g.m[n].count == 0
    ensures Good(h, M, T, idr)
  {
    hide Sound, TagOk, Mode, Pruned;
    PrunedSound(g, h, M, n, p);
    SoundParts(g, M);
    forall t | 0 <= t < 3 ensures TagOk(h, t, T[t]) { assert TagOk(g, t, T[t]); PrunedTag(g, h, n, p, t, T[t]); }
  }

  // ---- the last node goes ----

  /** Below a top node without entries there is nothing. */
  lemma {:induction false} LastNode(h: Shot, M: map<nat, Entry>, n: RxNode, m: RxNode)
    requires Sound(h, M) && n in h.m && h.m[n].count == 0 && h.top == Child(n) && m in h.m
    ensures m == n
    decreases 60 - h.m[m].shift
  {
    hide Holds, Counted;
    LinkedAt(h, m);
    if h.m[m].parent != null {
      LinkedAt(h, h.m[m].parent);
      LastNode(h, M, n, h.m[m].parent);
      NoChildren(h, M, n, m);
    }
  }

  /** delete_node reaches the top: the tree is empty. */
  lemma {:induction false} UprootedGood(g: Shot, h: Shot, M: map<nat, Entry>, T: seq<iset<nat>>, idr: bool, n: RxNode)
    requires Good(g, M, T, idr) && n in g.m && g.m[n].count == 0 && g.top == Child(n)
    requires h == Shot(Null, if idr then g.tags else {}, g.m - {n})
    ensures Good(h, M, T, idr) && M == map[]
  {
    hide TagOk, Used, UsedSlots;
    forall m | m in g.m ensures m == n { LastNode(g, M, n, m); }
    forall k | k in M ensures false { EmptyNode(g, M, n, k); }
    assert h.m == map[] && M == map[];
    forall t | 0 <= t < 3 ensures TagOk(h, t, T[t]) {
      assert TagOk(g, t, T[t]);
      UprootedTag(g, h, M, T, idr, n, t);
    }
  }

  lemma {:induction false} UprootedTag(g: Shot, h: Shot, M: map<nat, Entry>, T: seq<iset<nat>>, idr: bool, n: RxNode,
          t: nat)
    requires Linked(g) && Mode(idr, M, T) && M == map[] && t < 3 && TagOk(g, t, T[t]) && n in g.m && g.top == Child(n)
    requires h == Shot(Null, if idr then g.tags else {}, map[])
    ensures TagOk(h, t, T[t])
  {
    hide Linked;
    if idr && t == 0 {
      RangeShift(g, 0);
      ShrZero(HeightShift(g));
      assert 0 in T[0] && InRange(g, 0) && InRange(h, 0);
    } else {
      forall k ensures k !in T[t] { assert k in T[t] ==> k in M; }
    }
  }

  // ---- radix_tree_shrink: the top node's first slot becomes the root ----

  ghost predicate Shrunk(g: Shot, h: Shot, n: RxNode) {
    && g.top == Child(n) && n in g.m && |g.m[n].slots| == 64 && |g.m[n].tags| == 3 && g.m[n].count == 1
    && g.m[n].slots[0] != Null
    && (g.m[n].slots[0].Child? || g.m[n].shift == 0)
    && h.top == g.m[n].slots[0] && h.m.Keys == g.m.Keys - {n}
    && forall m :: m in h.m ==> h.m[m] == if h.top == Child(m) then g.m[m].(parent := null) else g.m[m]
  }

  lemma {:induction false} OnlyFirst(r: Rec, M: map<nat, Entry>, o: nat)
    requires |r.slots| == 64 && |UsedSlots(r, M)| == 1 && r.slots[0] != Null && 0 < o < 64
    ensures !Used(r, o, M)
  {
    var U := UsedSlots(r, M);
    assert 0 in U;
    if Used(r, o, M) {
      assert o in U && {0, o} <= U;
      SubsetSize({0, o}, U);
    }
  }

  lemma {:induction false} SubsetSize(A: set<nat>, B: set<nat>)
    requires A <= B
    ensures |A| <= |B|
  {
    if A != {} {
      var x :| x in A;
      SubsetSize(A - {x}, B - {x});
    }
  }

  lemma {:induction false} ShrunkKeys(g: Shot, h: Shot, M: map<nat, Entry>, n: RxNode, k: nat)
    requires Sound(g, M) && Shrunk(g, h, n) && k in M
    ensures Shr(k, g.m[n].shift) == 0
  {
    hide Linked;
    BasicAt(g, n); TopAt(g);
    var r := g.m[n];
    var o := Digit(r, k);
    CoversLeads(r, k);
    assert Covers(r, k);
    if o != 0 {
      OnlyFirst(r, M, o);
      assert SlotHolds(r, o, M);
      AnyIn(Keys(M), r.shift, k);
    }
  }

  lemma {:induction false} ShrunkParents(g: Shot, h: Shot, M: map<nat, Entry>, n: RxNode, m: RxNode)
    requires Sound(g, M) && Shrunk(g, h, n) && m in h.m && g.m[m].parent == n
    ensures h.top == Child(m)
  {
    LinkedAt(g, m);
    if g.m[m].offset != 0 { OnlyFirst(g.m[n], M, g.m[m].offset); }
  }

  lemma {:induction false} ShrunkNode(g: Shot, h: Shot, n: RxNode, m: RxNode)
    requires Shrunk(g, h, n) && m in h.m && NodeOk(g, m) && NodeOk(g, n) && g.m[n].parent == null
    requires g.m[m].parent == n ==> h.top == Child(m)
    ensures NodeOk(h, m)
  {}

  lemma {:induction false} ShrunkSound(g: Shot, h: Shot, M: map<nat, Entry>, n: RxNode)
    requires Sound(g, M) && Shrunk(g, h, n)
    ensures Sound(h, M)
  {
    hide NodeOk, SlotHolds, UsedSlots, Used, Any;
    TopAt(g);
    assert SlotHolds(g.m[n], 0, M);
    forall m | m in h.m ensures NodeOk(h, m) {
      if g.m[m].parent == n { ShrunkParents(g, h, M, n, m); }
      ShrunkNode(g, h, n, m);
    }
    forall m, o | m in h.m && 0 <= o < |h.m[m].slots| ensures SlotHolds(h.m[m], o, M) {
      assert SlotHolds(g.m[m], o, M);
      SameSlot(g.m[m], h.m[m], o, M);
    }
    forall m | m in h.m ensures h.m[m].count == |UsedSlots(h.m[m], M)| { SameSlots(g.m[m], h.m[m], M); }
    ShrunkTop(g, h, M, n);
  }

  lemma {:induction false} ShrunkTop(g: Shot, h: Shot, M: map<nat, Entry>, n: RxNode)
    requires Sound(g, M) && Shrunk(g, h, n)
    ensures TopHolds(h, M) && (h.top.Child? ==> h.top.n in h.m && h.m[h.top.n].parent == null)
    ensures HeightShift(h) == g.m[n].shift
  {
    hide Linked, Counted;
    BasicAt(g, n); TopAt(g);
    assert SlotHolds(g.m[n], 0, M);
    if g.m[n].slots[0].Child? { ChildAt(g, n, 0); }
    forall k | k in M ensures Shr(k, g.m[n].shift) == 0 { ShrunkKeys(g, h, M, n, k); }
  }

  lemma {:induction false} ShrunkGood(g: Shot, h: Shot, M: map<nat, Entry>, T: seq<iset<nat>>, idr: bool, n: RxNode)
    requires Good(g, M, T, idr) && Shrunk(g, h, n)
    requires h.tags == if idr && 0 !in g.m[n].tags[0] then g.tags - {0} else g.tags
    ensures Good(h, M, T, idr)
  {
    hide Sound, TagOk, Mode;
    ShrunkSound(g, h, M, n);
    forall t | 0 <= t < 3 ensures TagOk(h, t, T[t]) { assert TagOk(g, t, T[t]); ShrunkTag(g, h, M, T, idr, n, t); }
  }

  lemma {:induction false} ShrunkTag(g: Shot, h: Shot, M: map<nat, Entry>, T: seq<iset<nat>>, idr: bool, n: RxNode,
          t: nat)
    requires Sound(g, M) && Sound(h, M) && Mode(idr, M, T) && Shrunk(g, h, n) && t < 3 && TagOk(g, t, T[t])
    requires h.tags == if idr && 0 !in g.m[n].tags[0] then g.tags - {0} else g.tags
    ensures TagOk(h, t, T[t])
  {
    hide Linked, Holds, Counted;
    var S := T[t];
    ShrunkTop(g, h, M, n);
    BasicAt(g, n); TopAt(g);
    forall k ensures (InRange(h, k) <==> Shr(k, g.m[n].shift) == 0) && (InRange(h, k) ==> InRange(g, k)) {
      RangeShift(h, k); RangeShift(g, k);
    }
    assert SlotTagged(g.m[n], t, 0, S);
    if !(idr && t == 0) {
      forall k | k in S ensures InRange(h, k) && InRange(g, k) { ShrunkKeys(g, h, M, n, k); }
    }
    ShrunkRoot(g, h, n, t, S, idr);
    forall m, o: nat | m in h.m && t < |h.m[m].tags|
      ensures SlotTagged(h.m[m], t, o, S)
    {
      assert SlotTagged(g.m[m], t, o, S);
    }
  }

  lemma {:induction false} ShrunkRoot(g: Shot, h: Shot, n: RxNode, t: nat, S: iset<nat>, idr: bool)
    requires Shrunk(g, h, n) && t < 3 && RootTagged(g, t, S) && SlotTagged(g.m[n], t, 0, S) && g.m[n].prefix == 0
    requires forall k :: (InRange(h, k) <==> Shr(k, g.m[n].shift) == 0) && (InRange(h, k) ==> InRange(g, k))
    requires h.tags == if idr && 0 !in g.m[n].tags[0] then g.tags - {0} else g.tags
    requires !(idr && t == 0) ==> forall k :: k in S ==> InRange(h, k)
    ensures RootTagged(h, t, S)
  {}
}
