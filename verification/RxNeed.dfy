/** How many nodes it takes to make a slot for an index (radix-tree.c:635-686, 827-876). */
module RxNeed {
  import opened RxModel
  import opened RxSteps
  import opened RxShape
  import opened RxSnug

  /** A node of this level covers the index. */
  ghost predicate Covered(h: Shot, k: nat, s: nat) {
    exists n :: n in h.m && h.m[n].shift == s && Covers(h.m[n], k)
  }

  /** The number of levels below s without a node that covers the index. */
  ghost function Uncovered(h: Shot, k: nat, s: nat): nat {
    if s < 6 then 0 else Uncovered(h, k, s - 6) + if Covered(h, k, s - 6) then 0 else 1
  }

  /** The lowest level from s on whose range has the index. */
  function Reach(k: nat, s: nat): (r: nat)
    ensures r >= s
    decreases 60 - s
  {
    if Shr(k, s + 6) == 0 || s >= 60 then s else Reach(k, s + 6)
  }

  /**
   * The nodes that are missing: new levels on top, of which an empty tree needs the topmost only, and the levels below
   * them without a node that covers the index.
   */
  ghost function Missing(h: Shot, M: map<nat, Entry>, k: nat): nat {
    if InRange(h, k) then Uncovered(h, k, HeightShift(h))
    else
      var s := Reach(k, HeightShift(h));
      (if h.top == Null && M == map[] then 1 else (s + 6 - HeightShift(h)) / 6) + s / 6
  }

  /** From g to h, with `left` nodes available before and left' after: as many have been taken as are missing less. */
  ghost predicate Paid(g: Shot, left: nat, h: Shot, left': nat, M: map<nat, Entry>, k: nat) {
    left - left' == Missing(g, M, k) - Missing(h, M, k)
  }

  lemma {:induction false} PaidNothing(g: Shot, left: nat, M: map<nat, Entry>, k: nat)
    ensures Paid(g, left, g, left, M, k)
  {}

  lemma {:induction false} PaidBoth(g: Shot, left: nat, h: Shot, left': nat, i: Shot, left'': nat, M: map<nat, Entry>,
          k: nat)
    requires Paid(g, left, h, left', M, k) && Paid(h, left', i, left'', M, k)
    ensures Paid(g, left, i, left'', M, k)
  {
    hide Missing;
  }

  lemma {:induction false} PaidOne(g: Shot, left: nat, h: Shot, left': nat, M: map<nat, Entry>, k: nat)
    requires Missing(h, M, k) + 1 == Missing(g, M, k) && left' + 1 == left
    ensures Paid(g, left, h, left', M, k)
  {
    hide Missing;
  }

  lemma {:induction false} NoneCovered(h: Shot, k: nat, s: nat)
    requires s % 6 == 0 && forall n :: n in h.m && h.m[n].shift < s ==> !Covers(h.m[n], k)
    ensures Uncovered(h, k, s) == s / 6
  {
    if s >= 6 { NoneCovered(h, k, s - 6); }
  }

  lemma {:induction false} AllCovered(h: Shot, k: nat, s: nat)
    requires forall s' :: 0 <= s' < s && s' % 6 == 0 ==> Covered(h, k, s')
    requires s % 6 == 0
    ensures Uncovered(h, k, s) == 0
  {
    if s >= 6 { AllCovered(h, k, s - 6); }
  }

  /** A node that covers an index has one above it that does, up to the top. */
  lemma {:induction false} CoveredUp(h: Shot, n: RxNode, k: nat, s: nat)
    requires Linked(h) && n in h.m && Covers(h.m[n], k) && s % 6 == 0 && h.m[n].shift <= s < HeightShift(h)
    ensures InRange(h, k) && Covered(h, k, s)
    decreases 60 - h.m[n].shift
  {
    hide Linked, NodeOk;
    BasicAt(h, n); TopHighest(h, n); TopAt(h); BasicAt(h, h.top.n);
    if h.m[n].parent != null {
      ParentCovers(h, n, k);
      if h.m[n].shift < s { CoveredUp(h, h.m[n].parent, k, s); } else { CoveredUp(h, h.m[n].parent, k, s + 6); }
    }
  }

  lemma {:induction false} CoveredIn(h: Shot, n: RxNode, k: nat)
    requires Linked(h) && n in h.m && Covers(h.m[n], k)
    ensures InRange(h, k)
  {
    hide Linked, NodeOk;
    BasicAt(h, n); TopHighest(h, n); TopAt(h); BasicAt(h, h.top.n);
    CoveredUp(h, n, k, h.m[n].shift);
  }

  /** One more node on top is one less to come. */
  lemma {:induction false} GrownMissing(g: Shot, h: Shot, n: RxNode, M: map<nat, Entry>, k: nat)
    requires Linked(g) && Grown(g, h, n) && (g.top != Null || M != map[]) && HeightShift(g) <= 60
    requires Shr(k, HeightShift(g)) > 0 && Shr(k, 66) == 0
    ensures Missing(h, M, k) + 1 == Missing(g, M, k)
  {
    hide Linked;
    var H := HeightShift(g);
    HeightDigits(g);
    RangeShift(g, k);
    if Shr(k, H + 6) == 0 {
      forall m | m in h.m && h.m[m].shift < H ensures !Covers(h.m[m], k) {
        if m in g.m && Covers(g.m[m], k) { CoveredIn(g, m, k); }
      }
      NoneCovered(h, k, H);
      assert h.m[n].shift == H && Covers(h.m[n], k);
      assert Covered(h, k, H);
    }
  }

  /** The first node of an empty tree. */
  lemma {:induction false} PlantedMissing(g: Shot, h: Shot, c: RxNode, s: nat, M: map<nat, Entry>, k: nat)
    requires Linked(g) && Planted(g, h, c, s) && M == map[] && s == Reach(k, 0)
    requires Shr(k, s + 6) == 0 && Shr(k, s) > 0
    ensures Missing(h, M, k) + 1 == Missing(g, M, k)
  {
    hide Linked;
    RangeShift(g, k);
    NoneCovered(h, k, s);
    assert h.m[c].shift == s && Covers(h.m[c], k);
    assert Covered(h, k, s);
    if k == 0 { ShrZero(s); }
  }

  /** One more node below. */
  lemma {:induction false} SproutedMissing(g: Shot, h: Shot, n: RxNode, o: nat, c: RxNode, M: map<nat, Entry>, k: nat)
    requires Linked(g) && Sprouted(g, h, n, o, c) && Covers(g.m[n], k) && o == Digit(g.m[n], k)
    ensures Missing(h, M, k) + 1 == Missing(g, M, k)
  {
    hide Linked;
    CoversLeads(g.m[n], k);
    CoveredIn(g, n, k);
    BasicAt(g, n);
    TopHighest(g, n); TopAt(g); BasicAt(g, g.top.n);
    forall m | m in g.m && h.m[n].shift - 6 == g.m[m].shift ensures !Covers(g.m[m], k) {
      if Covers(g.m[m], k) { OnPath(g, m, n, k); }
    }
    OneCovered(g, h, c, k, HeightShift(g));
  }

  lemma {:induction false} OneCovered(g: Shot, h: Shot, c: RxNode, k: nat, s: nat)
    requires c !in g.m && h.m.Keys == g.m.Keys + {c} && Covers(h.m[c], k)
    requires forall m :: m in g.m ==> h.m[m].shift == g.m[m].shift && h.m[m].prefix == g.m[m].prefix
    requires !Covered(g, k, h.m[c].shift) && h.m[c].shift % 6 == 0 && s % 6 == 0
    ensures Uncovered(h, k, s) + (if h.m[c].shift < s then 1 else 0) == Uncovered(g, k, s)
  {
    if s >= 6 {
      OneCovered(g, h, c, k, s - 6);
      if Covered(g, k, s - 6) {
        var m :| m in g.m && g.m[m].shift == s - 6 && Covers(g.m[m], k);
        assert m in h.m && h.m[m].shift == s - 6 && Covers(h.m[m], k);
      }
      if Covered(h, k, s - 6) && h.m[c].shift != s - 6 {
        var m :| m in h.m && h.m[m].shift == s - 6 && Covers(h.m[m], k);
        assert m in g.m && g.m[m].shift == s - 6 && Covers(g.m[m], k);
      }
    }
  }

  /** Nothing is missing once there is a bottom node, or a root without nodes for index 0. */
  lemma {:induction false} SlotMissing(h: Shot, M: map<nat, Entry>, node: RxNode?, k: nat)
    requires Linked(h)
    requires if node == null then !h.top.Child? && k == 0
      else node in h.m && h.m[node].shift == 0 && Covers(h.m[node], k)
    ensures Missing(h, M, k) == 0
  {
    hide Linked;
    if node != null {
      CoveredIn(h, node, k);
      HeightDigits(h);
      forall s | 0 <= s < HeightShift(h) && s % 6 == 0 ensures Covered(h, k, s) { CoveredUp(h, node, k, s); }
      AllCovered(h, k, HeightShift(h));
    }
  }

  /** Something is missing below an empty slot. */
  lemma {:induction false} GapMissing(h: Shot, M: map<nat, Entry>, n: RxNode, k: nat)
    requires Linked(h) && n in h.m && h.m[n].shift >= 6 && Covers(h.m[n], k) && |h.m[n].slots| == 64
    requires !h.m[n].slots[Digit(h.m[n], k)].Child?
    ensures Missing(h, M, k) > 0
  {
    hide Linked;
    CoveredIn(h, n, k);
    BasicAt(h, n); TopHighest(h, n); TopAt(h); BasicAt(h, h.top.n);
    var s := h.m[n].shift - 6;
    if Covered(h, k, s) {
      var m :| m in h.m && h.m[m].shift == s && Covers(h.m[m], k);
      OnPath(h, m, n, k);
    }
    SomeUncovered(h, k, s, HeightShift(h));
  }

  lemma {:induction false} SomeUncovered(h: Shot, k: nat, s: nat, s': nat)
    requires s % 6 == 0 && s' % 6 == 0 && s < s' && !Covered(h, k, s)
    ensures Uncovered(h, k, s') > 0
  {
    if s < s' - 6 { SomeUncovered(h, k, s, s' - 6); }
  }

  lemma {:induction false} RangeMissing(h: Shot, M: map<nat, Entry>, k: nat)
    requires !InRange(h, k)
    ensures Missing(h, M, k) > 0
  {}

  lemma {:induction false} ReachIs(k: nat, s: nat, r: nat)
    requires s % 6 == 0 && r % 6 == 0 && s <= r <= 60 && Shr(k, r + 6) == 0 && (r > s ==> Shr(k, r) > 0)
    ensures Reach(k, s) == r
    decreases r - s
  {
    if s < r {
      if Shr(k, s + 6) == 0 { ShrZero(s + 6); ShrUp(k, 0, s + 6, r); ShrZero(r); }
      ReachIs(k, s + 6, r);
    }
  }

  // ---- in a canonical tree ----

  /** A place for a node that is wanted once k is in use, and was not before. */
  ghost predicate New(K: iset<nat>, k: nat, s: nat, q: nat) { Wanted(K + iset{k}, s, q) && !Wanted(K, s, q) }

  /** Those at one level are above k, or on the way to what was there. */
  ghost function NewAt(K: iset<nat>, k: nat, s: nat): set<(nat, nat)> {
    (if New(K, k, s, Shr(k, s + 6)) then {(s, Shr(k, s + 6))} else {}) + if New(K, k, s, 0) then {(s, 0)} else {}
  }

  ghost function NewBelow(K: iset<nat>, k: nat, s: nat): set<(nat, nat)> {
    if s < 6 then {} else NewBelow(K, k, s - 6) + NewAt(K, k, s - 6)
  }

  lemma {:induction false} NewLevels(K: iset<nat>, k: nat, s: nat)
    ensures forall p :: p in NewBelow(K, k, s) ==> p.0 < s
  {
    if s >= 6 { NewLevels(K, k, s - 6); }
  }

  lemma {:induction false} NewCount(K: iset<nat>, k: nat, s: nat)
    requires s >= 6
    ensures |NewBelow(K, k, s)| == |NewBelow(K, k, s - 6)|
      + (if New(K, k, s - 6, Shr(k, s)) then 1 else 0) + if Shr(k, s) != 0 && New(K, k, s - 6, 0) then 1 else 0
  {
    hide New;
    NewLevels(K, k, s - 6);
    var a, b := NewBelow(K, k, s - 6), NewAt(K, k, s - 6);
    assert a !! b;
    var x, y := (s - 6, Shr(k, s)), (s - 6, 0);
    if Shr(k, s) != 0 && New(K, k, s - 6, 0) && New(K, k, s - 6, Shr(k, s)) { assert b == {x, y} && x != y; }
  }

  /** All new places are listed. */
  lemma {:induction false} NewAll(K: iset<nat>, k: nat, s: nat, q: nat)
    requires New(K, k, s, q) && forall j :: j in K + iset{k} ==> Shr(j, 66) == 0
    ensures (s, q) in NewBelow(K, k, 66)
  {
    var K' := K + iset{k};
    var j :| j in K' && Shr(j, s) > 0;
    if s > 60 { ShrZero(66); ShrUp(j, 0, 66, s); ShrZero(s); }
    if q != Shr(k, s + 6) {
      var i :| i in K' && Shr(i, s + 6) == q;
      assert i in K;
      AnyIn(K, s + 6, i);
      assert !Needs(K, s);
      assert !(Shr(i, s) > 0);
      assert q == 0;
    }
    NewIn(K, k, s, q, 66);
  }

  lemma {:induction false} NewIn(K: iset<nat>, k: nat, s: nat, q: nat, s': nat)
    requires New(K, k, s, q) && s % 6 == 0 && s' % 6 == 0 && s < s' && (q == 0 || q == Shr(k, s + 6))
    ensures (s, q) in NewBelow(K, k, s')
  {
    hide New;
    if s < s' - 6 { NewIn(K, k, s, q, s' - 6); }
  }

  /** Where the indices in use need a level, only the node above k can be new. */
  lemma {:induction false} NewNeeded(K: iset<nat>, k: nat, s: nat, q: nat)
    requires Needs(K, s) && s % 6 == 0
    ensures New(K, k, s, q) <==> q == Shr(k, s + 6) && !Any(K, s + 6, q)
  {
    var K' := K + iset{k};
    var j :| j in K && Shr(j, s) > 0;
    NeedsOne(K', s, j);
    if Any(K', s + 6, q) && !Any(K, s + 6, q) {
      var i :| i in K' && Shr(i, s + 6) == q;
      if i in K { AnyIn(K, s + 6, i); }
    }
    AnyIn(K', s + 6, k);
  }

  lemma {:induction false} TopNeeds(h: Shot, M: map<nat, Entry>, s: nat)
    requires Sound(h, M) && Snug(h, Keys(M)) && s % 6 == 0
    ensures Needs(Keys(M), s) <==> s < HeightShift(h)
  {
    hide Linked, Counted;
    SoundParts(h, M);
    HeightDigits(h);
    var H := HeightShift(h);
    if s < H {
      TopAt(h); BasicAt(h, h.top.n);
      NeedsLess(Keys(M), s, H - 6);
    } else if Needs(Keys(M), s) {
      var j :| j in Keys(M) && Shr(j, s) > 0;
      KeysInRange(h, M, j);
      RangeShift(h, j);
      ShrZero(H); ShrUp(j, 0, H, s); ShrZero(s);
    }
  }

  /** A node covers k just where it is not new. */
  lemma {:induction false} CoveredWanted(h: Shot, M: map<nat, Entry>, k: nat, s: nat)
    requires Sound(h, M) && Snug(h, Keys(M)) && s % 6 == 0 && s < HeightShift(h)
    ensures Covered(h, k, s) <==> !New(Keys(M), k, s, Shr(k, s + 6))
    ensures Shr(k, s + 6) != 0 ==> !New(Keys(M), k, s, 0)
  {
    hide Sound, Snug;
    TopNeeds(h, M, s);
    NewNeeded(Keys(M), k, s, Shr(k, s + 6));
    NewNeeded(Keys(M), k, s, 0);
    if Covered(h, k, s) {
      var n :| n in h.m && h.m[n].shift == s && Covers(h.m[n], k);
      NodesWanted(h, M, n);
    }
    if Any(Keys(M), s + 6, Shr(k, s + 6)) {
      WantedNodes(h, M, s, Shr(k, s + 6));
      ShapeCovers(h, k, s);
    }
  }

  lemma {:induction false} ShapeCovers(h: Shot, k: nat, s: nat)
    requires (s, Shr(k, s + 6)) in Shape(h)
    ensures Covered(h, k, s)
  {
    var n :| n in h.m && (h.m[n].shift, h.m[n].prefix) == (s, Shr(k, s + 6));
    assert Covers(h.m[n], k);
  }

  lemma {:induction false} CountCovered(h: Shot, M: map<nat, Entry>, k: nat, s: nat)
    requires Sound(h, M) && Snug(h, Keys(M)) && s % 6 == 0 && s <= HeightShift(h)
    ensures |NewBelow(Keys(M), k, s)| == Uncovered(h, k, s)
  {
    hide Sound, Snug, New, Covered;
    if s >= 6 {
      CountCovered(h, M, k, s - 6);
      NewCount(Keys(M), k, s);
      CoveredWanted(h, M, k, s - 6);
    }
  }

  /** From the height of the tree on, levels are new below the one that k reaches. */
  lemma {:induction false} NewAbove(h: Shot, M: map<nat, Entry>, k: nat, s: nat, q: nat)
    requires Sound(h, M) && Snug(h, Keys(M)) && s % 6 == 0 && s >= HeightShift(h)
    ensures New(Keys(M), k, s, q) <==> Shr(k, s) > 0 && (q == Shr(k, s + 6) || (M != map[] && q == 0))
  {
    var K := Keys(M);
    var K' := K + iset{k};
    hide Linked, Counted, Snug;
    SoundParts(h, M);
    HeightDigits(h);
    TopNeeds(h, M, s);
    forall j | j in K ensures Shr(j, s) == 0 && Shr(j, s + 6) == 0 {
      KeysInRange(h, M, j); RangeShift(h, j);
      ShrZero(HeightShift(h)); ShrUp(j, 0, HeightShift(h), s); ShrZero(s);
    }
    if Shr(k, s) > 0 { NeedsOne(K', s, k); }
    AnyIn(K', s + 6, k);
    if j :| j in M { assert j in K'; AnyIn(K', s + 6, j); }
  }

  lemma {:induction false} CountAbove(h: Shot, M: map<nat, Entry>, k: nat, s: nat)
    requires Sound(h, M) && Snug(h, Keys(M)) && s % 6 == 0 && s >= HeightShift(h)
    requires s > HeightShift(h) ==> Shr(k, s - 6) > 0 && Shr(k, s) > 0
    ensures |NewBelow(Keys(M), k, s)| == Uncovered(h, k, HeightShift(h))
      + (if M == map[] then 1 else 2) * ((s - HeightShift(h)) / 6)
    decreases s
  {
    hide Sound, Snug, New, Covered, Uncovered, HeightShift, NewBelow, Shr;
    var H := HeightShift(h);
    HeightMod(h, M);
    if s == H {
      CountCovered(h, M, k, s);
    } else {
      if s - 6 > H { LessDigits(k, s); }
      assert (s - H) / 6 == (s - 6 - H) / 6 + 1;
      CountAbove(h, M, k, s - 6);
      NewCount(Keys(M), k, s);
      NewAbove(h, M, k, s - 6, Shr(k, s));
      NewAbove(h, M, k, s - 6, 0);
    }
  }

  lemma {:induction false} LessDigits(k: nat, s: nat)
    requires s >= 12 && Shr(k, s - 6) > 0
    ensures Shr(k, s - 12) > 0
  {}

  lemma {:induction false} HeightMod(h: Shot, M: map<nat, Entry>)
    requires Sound(h, M)
    ensures HeightShift(h) % 6 == 0 && HeightShift(h) <= 66
  {
    SoundParts(h, M);
    HeightDigits(h);
  }

  lemma {:induction false} CountRest(h: Shot, M: map<nat, Entry>, k: nat, s: nat, s': nat)
    requires Sound(h, M) && Snug(h, Keys(M)) && s % 6 == 0 && s' % 6 == 0 && HeightShift(h) <= s <= s' && Shr(k, s) == 0
    ensures |NewBelow(Keys(M), k, s')| == |NewBelow(Keys(M), k, s)|
    decreases s'
  {
    hide Sound, Snug, New, NewBelow, Shr, HeightShift;
    if s < s' {
      CountRest(h, M, k, s, s' - 6);
      NewCount(Keys(M), k, s');
      NewAbove(h, M, k, s' - 6, Shr(k, s'));
      NewAbove(h, M, k, s' - 6, 0);
      ShrZero(s); ShrUp(k, 0, s, s' - 6); ShrZero(s' - 6);
    }
  }

  lemma {:induction false} ReachParts(k: nat, s: nat)
    requires s % 6 == 0 && s <= 66 && Shr(k, s) > 0 && Shr(k, 66) == 0
    ensures var r := Reach(k, s);
      r % 6 == 0 && r <= 60 && Shr(k, r) > 0 && Shr(k, r + 6) == 0 && (r > s ==> Shr(k, r - 6) > 0)
    decreases 66 - s
  {
    if Shr(k, s + 6) > 0 && s < 60 {
      ReachParts(k, s + 6);
      assert Reach(k, s) == Reach(k, s + 6);
    }
  }

  lemma {:induction false} MissingParts(h: Shot, M: map<nat, Entry>, k: nat)
    requires Sound(h, M) && Snug(h, Keys(M))
    ensures Shr(k, HeightShift(h)) == 0 ==> Missing(h, M, k) == Uncovered(h, k, HeightShift(h))
    ensures M == map[] ==> HeightShift(h) == 0
    ensures Shr(k, HeightShift(h)) > 0 ==>
      && Uncovered(h, k, HeightShift(h)) == HeightShift(h) / 6
      && Missing(h, M, k) == Reach(k, HeightShift(h)) / 6
          + if M == map[] then 1 else (Reach(k, HeightShift(h)) + 6 - HeightShift(h)) / 6
  {
    hide Linked, Counted;
    SoundParts(h, M);
    HeightDigits(h);
    RangeShift(h, k);
    if Shr(k, HeightShift(h)) > 0 {
      forall n | n in h.m ensures !Covers(h.m[n], k) { if Covers(h.m[n], k) { CoveredIn(h, n, k); } }
      NoneCovered(h, k, HeightShift(h));
    }
  }

  /** In a canonical tree, the nodes missing are those that the canonical tree with k has besides. */
  lemma {:induction false} MissingWanted(h: Shot, M: map<nat, Entry>, k: nat)
    requires Sound(h, M) && Snug(h, Keys(M)) && Shr(k, 66) == 0
    ensures |NewBelow(Keys(M), k, 66)| == Missing(h, M, k)
  {
    hide Sound, Snug, New, Covered, Uncovered, NewBelow, HeightShift, Shr, Missing, Reach;
    var H := HeightShift(h);
    HeightMod(h, M);
    MissingParts(h, M, k);
    if Shr(k, H) == 0 {
      CountCovered(h, M, k, H);
      CountRest(h, M, k, H, 66);
    } else {
      var s := Reach(k, H);
      ReachParts(k, H);
      CountAbove(h, M, k, s);
      NewCount(Keys(M), k, s + 6);
      NewAbove(h, M, k, s, 0);
      CountRest(h, M, k, s + 6, 66);
    }
  }
}
