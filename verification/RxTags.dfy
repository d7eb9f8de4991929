/** Setting, clearing and reading tags (radix-tree.c:1363-1592). */
module RxTags {
  import opened CTypes
  import opened RxModel
  import opened RxHeap
  import opened RxSteps
  import opened RxShape
  import opened RxSnug
  import opened RxTree
  import opened RxInsert

  /** Only bits of tag t have changed. */
  ghost predicate Retag(g: Shot, h: Shot, t: nat) {
    && h.top == g.top && h.m.Keys == g.m.Keys && (forall u :: u != t ==> (u in h.tags <==> u in g.tags))
    && (forall n :: n in g.m ==> |h.m[n].tags| == |g.m[n].tags| && h.m[n] == g.m[n].(tags := h.m[n].tags))
    && (forall n, u :: n in g.m && 0 <= u < |g.m[n].tags| && u != t ==> h.m[n].tags[u] == g.m[n].tags[u])
  }

  lemma {:induction false} RetagBoth(g: Shot, h: Shot, i: Shot, t: nat)
    requires Retag(g, h, t) && Retag(h, i, t)
    ensures Retag(g, i, t)
  {}

  lemma {:induction false} BitRetag(g: Shot, h: Shot, t: nat, n: RxNode, k: nat, bit: bool)
    requires BitPut(g, h, t, n, k, bit)
    ensures Retag(g, h, t)
  {}

  lemma {:induction false} RetagOthers(g: Shot, h: Shot, t: nat, u: nat, S: iset<nat>)
    requires Retag(g, h, t) && u != t && TagOk(g, u, S)
    ensures TagOk(h, u, S)
  {
    forall j ensures InRange(h, j) <==> InRange(g, j) {}
    assert RootTagged(h, u, S);
    forall n, o: nat | n in h.m && u < |h.m[n].tags|
      ensures SlotTagged(h.m[n], u, o, S)
    {
      assert SlotTagged(g.m[n], u, o, S);
    }
  }

  lemma {:induction false} RetagSnug(g: Shot, h: Shot, t: nat, K: iset<nat>)
    requires Retag(g, h, t)
    ensures AsSnug(g, h, K)
  {
    forall n | n in h.m && Lively(g, K)
      ensures Any(K, h.m[n].shift + 6, h.m[n].prefix)
    {
      assert Any(K, g.m[n].shift + 6, g.m[n].prefix);
    }
  }

  /** A finished update of one tag. */
  lemma {:induction false} RetagGood(g: Shot, h: Shot, t: nat, S: iset<nat>, M: map<nat, Entry>, T: seq<iset<nat>>)
    requires Sound(g, M) && |T| == 3 && t < 3 && (forall u :: 0 <= u < 3 && u != t ==> TagOk(g, u, T[u]))
      && Retag(g, h, t) && TagOk(h, t, S)
    ensures Sound(h, M) && Tagged(h, T[t := S]) && Stored'(g, h)
  {
    hide Sound, TagOk, Snug;
    RetaggedSound(g, h, M);
    var T' := T[t := S];
    forall u | 0 <= u < 3 ensures TagOk(h, u, T'[u]) { if u != t { RetagOthers(g, h, t, u, T[u]); } }
    forall K ensures AsSnug(g, h, K) { RetagSnug(g, h, t, K); }
  }

  /** The canonical form is not touched. */
  ghost predicate Stored'(g: Shot, h: Shot) { forall K :: AsSnug(g, h, K) }

  /** Where a walk towards the root is: at a node that covers k, or past the top. */
  ghost predicate Climbing(h: Shot, node: RxNode?, offset: nat, k: nat) {
    if node == null then InRange(h, k) else node in h.m && Covers(h.m[node], k) && offset == Digit(h.m[node], k)
  }

  ghost function LevelOf(h: Shot, node: RxNode?): nat {
    if node != null && node in h.m then h.m[node].shift else HeightShift(h)
  }

  lemma {:induction false} ClimbUp(h: Shot, n: RxNode, k: nat)
    requires Linked(h) && n in h.m && Covers(h.m[n], k)
    ensures Climbing(h, h.m[n].parent, h.m[n].offset, k) && LevelOf(h, h.m[n].parent) == h.m[n].shift + 6
  {
    LinkedAt(h, n);
    if h.m[n].parent != null { ParentCovers(h, n, k); }
  }

  lemma {:induction false} ClimbTop(h: Shot, t: nat, A: iset<nat>, B: iset<nat>)
    requires Linked(h) && TagSplit(h, t, A, B, HeightShift(h))
    ensures TagSplit(h, t, A, B, 66)
  {
    hide Linked;
    var s := HeightShift(h);
    forall n, o: nat | n in h.m && t < |h.m[n].tags| ensures SplitSlot(h.m[n], t, o, A, B, 66) {
      BasicAt(h, n); TopHighest(h, n); TopAt(h);
      assert SplitSlot(h.m[n], t, o, A, B, s);
    }
  }

  /** What changes while one tag of one index is being updated. */
  ghost predicate Updating(g: Shot, h: Shot, t: nat, A: iset<nat>, B: iset<nat>, k: nat, s: nat) {
    Retag(g, h, t) && h.tags == g.tags && Linked(h) && TagSplit(h, t, A, B, s) && RootTagged(h, t, B)
        && DifferAt(A, B, k)
  }

  lemma {:induction false} UpdateStarts(g: Shot, t: nat, A: iset<nat>, B: iset<nat>, k: nat)
    requires Linked(g) && TagOk(g, t, B) && DifferAt(A, B, k)
    ensures Updating(g, g, t, A, B, k, 0)
  {
    hide Linked;
    SplitStart(g, t, A, B);
  }

  lemma {:induction false} UpdateBit(g: Shot, h: Shot, i: Shot, t: nat, A: iset<nat>, B: iset<nat>, n: RxNode, k: nat,
          bit: bool, M: map<nat, Entry>)
    requires Sound(g, M) && Updating(g, h, t, A, B, k, LevelOf(h, n)) && BitPut(h, i, t, n, k, bit)
    requires bit <==> Any(A, h.m[n].shift, Shr(k, h.m[n].shift))
    ensures Updating(g, i, t, A, B, k, h.m[n].shift + 6)
  {
    hide Linked, Sound, TagSplit, Retag;
    TagBitUp(h, i, t, A, B, n, k, bit);
    BitRetag(h, i, t, n, k, bit);
    RetagBoth(g, h, i, t);
    RetagLinked(g, i, t, M);
    RetagRoot(h, i, t, n, k, bit, B);
    BitRoot(h, i, t, n, k, bit);
  }

  lemma {:induction false} BitRoot(h: Shot, i: Shot, t: nat, n: RxNode, k: nat, bit: bool)
    requires BitPut(h, i, t, n, k, bit)
    ensures i.tags == h.tags
  {}

  lemma {:induction false} RetagLinked(g: Shot, h: Shot, t: nat, M: map<nat, Entry>)
    requires Sound(g, M) && Retag(g, h, t)
    ensures Linked(h) && Sound(h, M)
  {
    hide Linked;
    RetaggedSound(g, h, M);
  }

  lemma {:induction false} RetagRoot(h: Shot, i: Shot, t: nat, n: RxNode, k: nat, bit: bool, B: iset<nat>)
    requires BitPut(h, i, t, n, k, bit) && RootTagged(h, t, B)
    ensures RootTagged(i, t, B)
  {
    forall j ensures InRange(i, j) <==> InRange(h, j) {}
  }

  // ---- node_tag_set ----

  /** Some index below a slot whose bit was set carries the tag, so nothing changes further up. */
  lemma {:induction false} SetStops(g: Shot, h: Shot, t: nat, A: iset<nat>, B: iset<nat>, n: RxNode, k: nat)
    requires Updating(g, h, t, A, B, k, LevelOf(h, n)) && n in h.m && Covers(h.m[n], k) && t < |h.m[n].tags|
    requires k in A && B <= A && Digit(h.m[n], k) in h.m[n].tags[t]
    ensures TagOk(h, t, A)
  {
    hide Linked, Retag;
    var s := h.m[n].shift;
    BasicAt(h, n);
    CoversLeads(h.m[n], k);
    assert SplitSlot(h.m[n], t, Digit(h.m[n], k), A, B, s);
    AnyMono(B, A, s, Shr(k, s));
    SplitEnds(h, t, A, B, k, s);
    TopCovers(h, n, k);
    var j :| j in B && Shr(j, s) == Shr(k, s);
    ShrUp(j, k, s, s + 6);
    TopCovers(h, n, j);
    assert InRange(h, j) && InRange(h, k);
    SplitDone(h, t, A, B);
  }

  /** node_tag_set */
  method NodeTagSet(root: RxRoot, node0: RxNode?, tag: nat, offset0: nat, ghost k: nat, ghost A: iset<nat>,
          ghost B: iset<nat>)
    requires Sound(root.Now(), root.items) && tag < 3 && TagOk(root.Now(), tag, B) && k in A && B <= A
      && DifferAt(A, B, k)
    requires Climbing(root.Now(), node0, offset0, k) && (node0 != null ==> node0.shift == 0)
    requires node0 == null ==> !root.rnode.Child?
    modifies root`tags, root.pool
    ensures Retag(old(root.Now()), root.Now(), tag) && TagOk(root.Now(), tag, A)
  {
    hide Sound, Linked, TagSplit, Retag, BitPut, Climbing;
    ghost var g := root.Now();
    SoundParts(g, root.items);
    var node, offset := node0, offset0;
    StartClimb(g, node, offset, k);
    UpdateStarts(g, tag, A, B, k);
    RetagSame(g, tag);
    while node != null
      invariant Updating(g, root.Now(), tag, A, B, k, LevelOf(root.Now(), node))
        && Climbing(root.Now(), node, offset, k)
      invariant node != null ==> node in root.pool && node.shift <= 60
      decreases if node == null then 0 else 1 + 60 - node.shift
    {
      ghost var h := root.Now();
      AtNode(h, node, offset, k);
      assert h.m[node].tags == node.tags && h.m[node].offset == node.offset && h.m[node].parent == node.parent
          && h.m[node].shift == node.shift;
      if offset in node.tags[tag] {
        SetStops(g, h, tag, A, B, node, k);
        return;
      }
      root.SetTag(node, tag, node.tags[tag] + {offset});
      ghost var i := root.Now();
      BitIs(h, i, tag, node, k, offset, true);
      AnyIn(A, h.m[node].shift, k);
      UpdateBit(g, h, i, tag, A, B, node, k, true, root.items);
      BitSame(h, i, tag, node, k, true);
      ClimbUp(i, node, k);
      UpShift(i, node);
      offset := node.offset;
      node := node.parent;
    }
    ghost var h := root.Now();
    ClimbTop(h, tag, A, B);
    if tag !in root.tags {
      root.SetTags(root.tags + {tag});
    }
    SetRoot(g, h, root.Now(), tag, A, B, k, offset);
  }

  lemma {:induction false} StartClimb(g: Shot, node: RxNode?, offset: nat, k: nat)
    requires Linked(g) && Climbing(g, node, offset, k) && (node == null ==> !g.top.Child?)
    ensures node == null ==> LevelOf(g, node) == 0
    ensures node != null ==> node in g.m && g.m[node].shift <= 60
  {
    hide Linked;
    if node != null { BasicAt(g, node); }
  }

  lemma {:induction false} RetagSame(g: Shot, t: nat)
    ensures Retag(g, g, t)
  {}

  lemma {:induction false} AtNode(h: Shot, node: RxNode, offset: nat, k: nat)
    requires Linked(h) && Climbing(h, node, offset, k)
    ensures node in h.m && |h.m[node].tags| == 3 && offset == Digit(h.m[node], k) && Covers(h.m[node], k)
  {
    hide Linked;
    BasicAt(h, node);
  }

  lemma {:induction false} BitIs(h: Shot, i: Shot, t: nat, node: RxNode, k: nat, offset: nat, bit: bool)
    requires node in h.m && |h.m[node].tags| == 3 && t < 3 && offset == Digit(h.m[node], k) && Covers(h.m[node], k)
    requires i == PutTag(h, node, t, if bit then h.m[node].tags[t] + {offset} else h.m[node].tags[t] - {offset})
    ensures BitPut(h, i, t, node, k, bit)
  {}

  lemma {:induction false} BitSame(h: Shot, i: Shot, t: nat, node: RxNode, k: nat, bit: bool)
    requires BitPut(h, i, t, node, k, bit)
    ensures node in i.m && i.m[node].shift == h.m[node].shift && Covers(i.m[node], k) && i.m.Keys == h.m.Keys
    ensures i.m[node].parent == h.m[node].parent && i.m[node].offset == h.m[node].offset
  {}

  lemma {:induction false} UpShift(h: Shot, n: RxNode)
    requires Linked(h) && n in h.m
    ensures h.m[n].parent != null ==> h.m[n].parent in h.m && h.m[n].shift < h.m[h.m[n].parent].shift <= 60
  {
    LinkedAt(h, n);
    if h.m[n].parent != null { BasicAt(h, h.m[n].parent); }
  }

  lemma {:induction false} SetRoot(g: Shot, h: Shot, i: Shot, t: nat, A: iset<nat>, B: iset<nat>, k: nat, offset: nat)
    requires Updating(g, h, t, A, B, k, HeightShift(h)) && TagSplit(h, t, A, B, 66) && Climbing(h, null, offset, k)
      && k in A && B <= A
    requires i == PutTags(h, h.tags + {t})
    ensures Retag(g, i, t) && TagOk(i, t, A)
  {
    hide Linked;
    forall j ensures InRange(i, j) <==> InRange(h, j) {}
    assert InRange(i, k);
    RootOnly(h, i, t, A, B);
    SplitDone(i, t, A, B);
  }

  /** Links and bits do not depend on the root's tags. */
  lemma {:induction false} RootOnly(h: Shot, i: Shot, t: nat, A: iset<nat>, B: iset<nat>)
    requires Linked(h) && TagSplit(h, t, A, B, 66) && i.top == h.top && i.m == h.m
    ensures Linked(i) && TagSplit(i, t, A, B, 66)
  {
    forall n | n in i.m ensures NodeOk(i, n) { LinkedAt(h, n); }
    forall n, o: nat | n in i.m && t < |i.m[n].tags|
      ensures SplitSlot(i.m[n], t, o, A, B, 66)
    {
      assert SplitSlot(h.m[n], t, o, A, B, 66);
    }
  }

  // ---- node_tag_clear ----

  /** The bit was not set: the index does not carry the tag, and nothing has to change. */
  lemma {:induction false} ClearIdle(g: Shot, h: Shot, t: nat, A: iset<nat>, B: iset<nat>, n: RxNode, k: nat)
    requires Updating(g, h, t, A, B, k, LevelOf(h, n)) && n in h.m && Covers(h.m[n], k) && t < |h.m[n].tags|
    requires k !in A && Digit(h.m[n], k) !in h.m[n].tags[t]
    ensures TagOk(h, t, A)
  {
    hide Linked, Retag;
    var s := h.m[n].shift;
    CoversLeads(h.m[n], k);
    assert SplitSlot(h.m[n], t, Digit(h.m[n], k), A, B, s);
    if k in B { AnyIn(B, s, k); }
    assert A == B;
    forall m, o: nat | m in h.m && t < |h.m[m].tags|
      ensures SlotTagged(h.m[m], t, o, A)
    {
      assert SplitSlot(h.m[m], t, o, A, B, s);
    }
  }

  /** Another index below the node carries the tag. */
  lemma {:induction false} ClearStops(g: Shot, h: Shot, t: nat, A: iset<nat>, B: iset<nat>, n: RxNode, k: nat)
    requires n in h.m && Updating(g, h, t, A, B, k, h.m[n].shift + 6) && Covers(h.m[n], k) && t < |h.m[n].tags|
    requires A <= B && h.m[n].tags[t] != {}
    ensures TagOk(h, t, A)
  {
    hide Linked, Retag;
    var s := h.m[n].shift;
    BasicAt(h, n);
    var o :| o in h.m[n].tags[t];
    var up := s + 6;
    assert SplitSlot(h.m[n], t, o, A, B, up);
    AnyUp(A, s, h.m[n].prefix, o);
    AnyMono(A, B, up, Shr(k, up));
    SplitEnds(h, t, A, B, k, up);
    var j :| j in A && Shr(j, up) == Shr(k, up);
    TopCovers(h, n, j);
    assert InRange(h, j) && j in B;
    SplitDone(h, t, A, B);
  }

  /** No index below the node carries the tag any more. */
  lemma {:induction false} ClearGoesOn(g: Shot, h: Shot, t: nat, A: iset<nat>, B: iset<nat>, n: RxNode, k: nat)
    requires n in h.m && Updating(g, h, t, A, B, k, h.m[n].shift + 6) && Covers(h.m[n], k) && t < |h.m[n].tags|
      && h.m[n].tags[t] == {}
    ensures !Any(A, h.m[n].shift + 6, Shr(k, h.m[n].shift + 6))
  {
    hide Linked, Retag;
    var s := h.m[n].shift;
    var up := s + 6;
    if Any(A, up, h.m[n].prefix) {
      var o := AnySlot(A, s, h.m[n].prefix);
      SlotBit(h, t, A, B, n, o);
    }
  }

  lemma {:induction false} SlotBit(h: Shot, t: nat, A: iset<nat>, B: iset<nat>, n: RxNode, o: nat)
    requires n in h.m && t < |h.m[n].tags| && TagSplit(h, t, A, B, h.m[n].shift + 6) && o < 64
      && Any(A, h.m[n].shift, 64 * h.m[n].prefix + o)
    ensures o in h.m[n].tags[t]
  {
    var up := h.m[n].shift + 6;
    assert SplitSlot(h.m[n], t, o, A, B, up);
  }

  /** node_tag_clear */
  method NodeTagClear(root: RxRoot, node0: RxNode?, tag: nat, offset0: nat, ghost k: nat, ghost A: iset<nat>,
          ghost B: iset<nat>)
    requires Sound(root.Now(), root.items) && tag < 3 && TagOk(root.Now(), tag, B) && k !in A && A <= B
      && DifferAt(A, B, k)
    requires Climbing(root.Now(), node0, offset0, k) && (node0 != null ==> node0.shift == 0)
    requires node0 == null ==> !root.rnode.Child?
    modifies root`tags, root.pool
    ensures Retag(old(root.Now()), root.Now(), tag) && TagOk(root.Now(), tag, A)
  {
    hide Sound, Linked, TagSplit, Retag, BitPut, Climbing, Any;
    ghost var g := root.Now();
    SoundParts(g, root.items);
    var node, offset := node0, offset0;
    StartClimb(g, node, offset, k);
    UpdateStarts(g, tag, A, B, k);
    RetagSame(g, tag);
    ClearLeaf(A, k);
    while node != null
      invariant Updating(g, root.Now(), tag, A, B, k, LevelOf(root.Now(), node))
        && Climbing(root.Now(), node, offset, k)
      invariant node != null ==> node in root.pool && node.shift <= 60
      invariant !Any(A, LevelOf(root.Now(), node), Shr(k, LevelOf(root.Now(), node)))
      decreases if node == null then 0 else 1 + 60 - node.shift
    {
      ghost var h := root.Now();
      AtNode(h, node, offset, k);
      assert h.m[node].tags == node.tags && h.m[node].offset == node.offset && h.m[node].parent == node.parent
          && h.m[node].shift == node.shift;
      if offset !in node.tags[tag] {
        ClearIdle(g, h, tag, A, B, node, k);
        return;
      }
      root.SetTag(node, tag, node.tags[tag] - {offset});
      ghost var i := root.Now();
      BitIs(h, i, tag, node, k, offset, false);
      UpdateBit(g, h, i, tag, A, B, node, k, false, root.items);
      BitSame(h, i, tag, node, k, false);
      assert i.m[node].tags == node.tags;
      if node.tags[tag] != {} {
        ClearStops(g, i, tag, A, B, node, k);
        return;
      }
      ClearGoesOn(g, i, tag, A, B, node, k);
      ClimbUp(i, node, k);
      UpShift(i, node);
      offset := node.offset;
      node := node.parent;
    }
    ghost var h := root.Now();
    ClimbTop(h, tag, A, B);
    if tag in root.tags {
      root.SetTags(root.tags - {tag});
    }
    ClearRoot(g, h, root.Now(), tag, A, B, k, offset);
  }

  lemma {:induction false} ClearLeaf(A: iset<nat>, k: nat)
    requires k !in A
    ensures !Any(A, 0, Shr(k, 0))
  {}

  lemma {:induction false} ClearRoot(g: Shot, h: Shot, i: Shot, t: nat, A: iset<nat>, B: iset<nat>, k: nat, offset: nat)
    requires Updating(g, h, t, A, B, k, HeightShift(h)) && TagSplit(h, t, A, B, 66) && Climbing(h, null, offset, k)
    requires !Any(A, HeightShift(h), Shr(k, HeightShift(h))) && i == PutTags(h, h.tags - {t})
    ensures Retag(g, i, t) && TagOk(i, t, A)
  {
    hide Linked;
    RangeShift(h, k);
    forall j ensures InRange(i, j) <==> InRange(h, j) {}
    forall j | j in A ensures !InRange(i, j) { RangeShift(h, j); if InRange(h, j) { AnyIn(A, HeightShift(h), j); } }
    RootOnly(h, i, t, A, B);
    SplitDone(i, t, A, B);
  }

  // ---- radix_tree_tag_set ----

  /** The walk down: the levels from s up have been updated. */
  ghost predicate Downing(g: Shot, h: Shot, t: nat, A: iset<nat>, B: iset<nat>, k: nat, s: nat) {
    Retag(g, h, t) && h.tags == g.tags && Linked(h) && TagSplit(h, t, B, A, s) && RootTagged(h, t, B)
        && DifferAt(B, A, k) && k in A && B <= A
  }

  lemma {:induction false} DownStarts(g: Shot, t: nat, A: iset<nat>, B: iset<nat>, k: nat)
    requires Linked(g) && TagOk(g, t, B) && DifferAt(B, A, k) && k in A && B <= A
    ensures Downing(g, g, t, A, B, k, HeightShift(g))
  {
    hide Linked;
    var s := HeightShift(g);
    forall n, o: nat | n in g.m && t < |g.m[n].tags| ensures SplitSlot(g.m[n], t, o, B, A, s) {
      TopHighest(g, n); TopAt(g);
      assert SlotTagged(g.m[n], t, o, B);
    }
  }

  lemma {:induction false} DownBit(g: Shot, h: Shot, i: Shot, t: nat, M: map<nat, Entry>, A: iset<nat>, B: iset<nat>,
          k: nat, n: RxNode)
    requires Sound(g, M) && n in h.m && Downing(g, h, t, A, B, k, h.m[n].shift + 6) && Covers(h.m[n], k)
      && t < |h.m[n].tags|
    requires i == if Digit(h.m[n], k) in h.m[n].tags[t] then h else PutTag(h, n, t, h.m[n].tags[t] + {Digit(h.m[n], k)})
    ensures Downing(g, i, t, A, B, k, h.m[n].shift)
  {
    hide Linked, Sound, TagSplit, Retag;
    var o := Digit(h.m[n], k);
    if o in h.m[n].tags[t] {
      assert h.m[n].tags[t] + {o} == h.m[n].tags[t]; assert h.m[n].tags[t := h.m[n].tags[t]] == h.m[n].tags;
    }
    assert BitPut(h, i, t, n, k, true);
    AnyIn(A, h.m[n].shift, k);
    TagBitDown(h, i, t, B, A, n, k, true);
    BitRetag(h, i, t, n, k, true);
    RetagBoth(g, h, i, t);
    RetagLinked(g, i, t, M);
    RetagRoot(h, i, t, n, k, true, B);
  }

  lemma {:induction false} DownRoot(g: Shot, h: Shot, i: Shot, t: nat, A: iset<nat>, B: iset<nat>, k: nat)
    requires Downing(g, h, t, A, B, k, 0) && InRange(h, k) && i == PutTags(h, h.tags + {t})
    ensures Retag(g, i, t) && TagOk(i, t, A)
  {
    hide Linked;
    forall j ensures InRange(i, j) <==> InRange(h, j) {}
    assert InRange(i, k);
    forall n, o: nat | n in i.m && t < |i.m[n].tags|
      ensures SlotTagged(i.m[n], t, o, A)
    {
      assert SplitSlot(h.m[n], t, o, B, A, 0);
    }
  }

  /** Retagging does not move anything. */
  lemma {:induction false} RetagPlace(g: Shot, h: Shot, t: nat, M: map<nat, Entry>, n: RxNode, k: nat)
    requires Sound(g, M) && Retag(g, h, t) && n in h.m && Covers(h.m[n], k)
    ensures Linked(h) && |h.m[n].slots| == 64 && |h.m[n].tags| == 3 && h.m[n].shift % 6 == 0
    ensures var e := h.m[n].slots[Digit(h.m[n], k)];
      && (e.Child? ==> e.n in h.m && Covers(h.m[e.n], k) && h.m[e.n].shift + 6 == h.m[n].shift)
      && (!e.Child? ==> e == At(M, k))
  {
    hide Linked, Holds;
    RetagLinked(g, h, t, M);
    SoundParts(h, M);
    BasicAt(h, n);
    CoversLeads(h.m[n], k);
    if h.m[n].slots[Digit(h.m[n], k)].Child? { ChildAt(h, n, Digit(h.m[n], k)); }
    AtLeaf(h, M, n, k);
  }

  /** An index in use has its entry at the bottom. */
  lemma {:induction false} PresentAtBottom(h: Shot, M: map<nat, Entry>, n: RxNode, k: nat)
    requires Sound(h, M) && n in h.m && Covers(h.m[n], k) && k in M && |h.m[n].slots| == 64
      && !h.m[n].slots[Digit(h.m[n], k)].Child?
    ensures h.m[n].shift == 0
  {
    if h.m[n].shift > 0 { NotBelow(h, M, n, k); }
  }

  /** What the walk reads at `parent`. */
  lemma {:induction false} DownReads(g: Shot, h: Shot, t: nat, M: map<nat, Entry>, A: iset<nat>, B: iset<nat>, k: nat,
          n: RxNode)
    requires Sound(g, M) && n in h.m && Downing(g, h, t, A, B, k, h.m[n].shift + 6) && Covers(h.m[n], k) && k in M
    ensures |h.m[n].slots| == 64 && |h.m[n].tags| == 3
    ensures var e := h.m[n].slots[Digit(h.m[n], k)];
      && (e.Child? ==> e.n in h.m && Covers(h.m[e.n], k) && h.m[e.n].shift + 6 == h.m[n].shift)
      && (!e.Child? ==> e == At(M, k) && h.m[n].shift == 0)
  {
    hide Linked, Holds, TagSplit;
    RetagPlace(g, h, t, M, n, k);
    RetagLinked(g, h, t, M);
    if !h.m[n].slots[Digit(h.m[n], k)].Child? { PresentAtBottom(h, M, n, k); }
  }

  lemma {:induction false} PresentTop(h: Shot, M: map<nat, Entry>, k: nat)
    requires Sound(h, M) && k in M
    ensures InRange(h, k)
      && (h.top.Child? ==> h.top.n in h.m && Covers(h.m[h.top.n], k) && HeightShift(h) == h.m[h.top.n].shift + 6)
    ensures !h.top.Child? ==> h.top == M[k] && HeightShift(h) == 0
  {}

  lemma {:induction false} PutKeeps(h: Shot, n: RxNode, t: nat, s: set<nat>, m: RxNode)
    requires n in h.m && t < |h.m[n].tags| && m in h.m
    ensures var i := PutTag(h, n, t, s); m in i.m && i.m[m].shift == h.m[m].shift && i.m[m].prefix == h.m[m].prefix
  {}

  /** The walk of radix_tree_tag_set has reached `entry`. */
  ghost predicate DownTo(g: Shot, h: Shot, t: nat, M: map<nat, Entry>, A: iset<nat>, B: iset<nat>, k: nat,
          entry: Entry) {
    if entry.Child? then entry.n in h.m && Covers(h.m[entry.n], k) && Downing(g, h, t, A, B, k, h.m[entry.n].shift + 6)
    else entry == At(M, k) && Downing(g, h, t, A, B, k, 0)
  }

  /** One level of radix_tree_tag_set. */
  method TagSetStep(root: RxRoot, parent: RxNode, index: nat, tag: nat, ghost g: Shot, ghost A: iset<nat>,
          ghost B: iset<nat>) returns (entry: Entry)
    requires Sound(g, root.items) && tag < 3 && index in root.items
      && DownTo(g, root.Now(), tag, root.items, A, B, index, Child(parent))
    requires parent in root.pool
    modifies parent`tags
    ensures DownTo(g, root.Now(), tag, root.items, A, B, index, entry)
    ensures entry.Child? ==> entry.n in root.pool && entry.n.shift < parent.shift
  {
    hide Sound, Linked, Downing, Retag, Holds, RxRoot.Now;
    ghost var h, M := root.Now(), root.items;
    root.Reads(); root.ReadsAt(parent);
    DownReads(g, h, tag, M, A, B, index, parent);
    var offset := Shr(index, parent.shift) % 64;
    entry := parent.slots[offset];
    // BUG_ON(!node) does not fire: the index is in use
    if offset !in parent.tags[tag] {
      root.SetTag(parent, tag, parent.tags[tag] + {offset});
      if entry.Child? { PutKeeps(h, parent, tag, h.m[parent].tags[tag] + {offset}, entry.n); }
    }
    root.Reads();
    if entry.Child? { root.ReadsAt(entry.n); }
    DownBit(g, h, root.Now(), tag, M, A, B, index, parent);
  }

  lemma {:induction false} DownTop(g: Shot, t: nat, M: map<nat, Entry>, A: iset<nat>, B: iset<nat>, k: nat)
    requires Sound(g, M) && k in M && Downing(g, g, t, A, B, k, HeightShift(g))
    ensures DownTo(g, g, t, M, A, B, k, g.top)
  {
    hide Downing;
    PresentTop(g, M, k);
  }

  lemma {:induction false} DownEnd(g: Shot, h: Shot, t: nat, M: map<nat, Entry>, A: iset<nat>, B: iset<nat>, k: nat,
          entry: Entry)
    requires DownTo(g, h, t, M, A, B, k, entry) && !entry.Child?
    ensures entry == At(M, k) && Downing(g, h, t, A, B, k, 0)
  {}

  /**
   * radix_tree_tag_set: the tags from the root down to the item. Setting a tag on
   * a missing item is a bug of the caller.
   */
  method TagSet(root: RxRoot, index: nat, tag: nat) returns (item: Entry)
    requires Valid(root) && !root.idr && tag < 3 && index <= ULONG_MAX && index in root.items
    modifies root, root.pool
    ensures Valid(root) && root.pool == old(root.pool) && root.items == old(root.items) && item == root.items[index]
    ensures root.tagged == old(root.tagged)[tag := old(root.tagged)[tag] + iset{index}]
    ensures Stored'(old(root.Now()), root.Now())
  {
    hide Sound, Linked, Downing, DownTo, Retag, TagOk, Holds, Stored', RxRoot.Now;
    ghost var g, M, T := root.Now(), root.items, root.tagged;
    root.Reads();
    ghost var B := T[tag];
    ghost var A := B + iset{index};
    ValidParts(root);
    DownStarts(g, tag, A, B, index);
    DownTop(g, tag, M, A, B, index);
    TopIn(g);
    var entry := root.rnode;
    while entry.Child?
      invariant root.items == M && root.tagged == T && root.pool == old(root.pool)
      invariant DownTo(g, root.Now(), tag, M, A, B, index, entry) && (entry.Child? ==> entry.n in root.pool)
      decreases if entry.Child? then 1 + entry.n.shift else 0
    {
      entry := TagSetStep(root, entry.n, index, tag, g, A, B);
    }
    ghost var h := root.Now();
    DownEnd(g, h, tag, M, A, B, index, entry);
    root.Reads();
    if tag !in root.tags {
      root.SetTags(root.tags + {tag});
    }
    assert h.tags + {tag} == root.tags;
    TagSetDone(g, h, root.Now(), tag, A, B, index, M, T);
    root.tagged := T[tag := A];
    return entry;
  }

  lemma {:induction false} TopIn(h: Shot)
    requires Linked(h)
    ensures h.top.Child? ==> h.top.n in h.m
  {}

  lemma {:induction false} TagSetDone(g: Shot, h: Shot, i: Shot, t: nat, A: iset<nat>, B: iset<nat>, k: nat, M: map<nat,
          Entry>, T: seq<iset<nat>>)
    requires Good(g, M, T, false) && t < 3 && B == T[t] && A == B + iset{k} && k in M
    requires Downing(g, h, t, A, B, k, 0) && i.top == h.top && i.m == h.m && i.tags == h.tags + {t}
    ensures Good(i, M, T[t := A], false) && Stored'(g, i)
  {
    hide Sound, TagOk, Linked, Retag, TagSplit, Snug;
    PresentTop(g, M, k);
    RetagRange(g, h, t, k);
    DownRoot(g, h, i, t, A, B, k);
    RetagGood(g, i, t, A, M, T);
    assert Mode(false, M, T[t := A]);
  }

  lemma {:induction false} RetagRange(g: Shot, h: Shot, t: nat, k: nat)
    requires Retag(g, h, t)
    ensures InRange(h, k) <==> InRange(g, k)
  {}

  // ---- radix_tree_tag_clear, radix_tree_tag_get, radix_tree_tagged ----

  lemma {:induction false} FoundClimbs(h: Shot, M: map<nat, Entry>, node: RxNode?, offset: nat, k: nat)
    requires Sound(h, M) && k in M && InRange(h, k)
    requires node != null ==>
      && node in h.m && Covers(h.m[node], k) && offset == Digit(h.m[node], k) && |h.m[node].slots| == 64
      && !h.m[node].slots[offset].Child?
    ensures Climbing(h, node, offset, k) && (node != null ==> h.m[node].shift == 0)
  {
    hide Linked, Holds;
    if node != null { PresentAtBottom(h, M, node, k); }
  }

  lemma {:induction false} TagsOf(h: Shot, M: map<nat, Entry>, T: seq<iset<nat>>, idr: bool, t: nat)
    requires Good(h, M, T, idr) && t < 3
    ensures |T| == 3 && TagOk(h, t, T[t])
  {}

  /** radix_tree_tag_clear: clears the tag of an item, and above it where no other item has it. */
  method TagClear(root: RxRoot, index: nat, tag: nat) returns (item: Entry)
    requires Valid(root) && !root.idr && tag < 3 && index <= ULONG_MAX
    modifies root, root.pool
    ensures Valid(root) && root.pool == old(root.pool) && root.items == old(root.items) && item == At(root.items, index)
    ensures root.tagged == old(root.tagged)[tag := old(root.tagged)[tag] - iset{index}]
    ensures Stored'(old(root.Now()), root.Now())
  {
    hide Sound, Linked, Retag, TagOk, Holds, Stored', Climbing, RxRoot.Now;
    ghost var g, M, T := root.Now(), root.items, root.tagged;
    root.Reads();
    ghost var A := T[tag] - iset{index};
    ValidParts(root);
    TagsOf(g, M, T, false, tag);
    var found, parent, offset;
    item, found, parent, offset := LookupSlot(root, index);
    if item != Null {
      if parent != null { root.ReadsAt(parent); }
      FoundClimbs(g, M, parent, offset, index);
      NodeTagClear(root, parent, tag, offset, index, A, T[tag]);
      TagClearDone(g, root.Now(), tag, A, M, T);
    } else {
      assert index !in T[tag];
      assert T[tag := A] == T by { assert A == T[tag]; }
      StoredSame(g);
    }
    root.tagged := T[tag := A];
  }

  lemma {:induction false} StoredSame(g: Shot)
    ensures Stored'(g, g)
  {}

  lemma {:induction false} TagClearDone(g: Shot, i: Shot, t: nat, A: iset<nat>, M: map<nat, Entry>, T: seq<iset<nat>>)
    requires Good(g, M, T, false) && t < 3 && A <= T[t] && Retag(g, i, t) && TagOk(i, t, A)
    ensures Good(i, M, T[t := A], false) && Stored'(g, i)
  {
    hide Sound, TagOk, Linked, Retag, Snug;
    RetagGood(g, i, t, A, M, T);
    assert Mode(false, M, T[t := A]);
  }

  /** radix_tree_tag_get: whether the index carries the tag. */
  method TagGet(root: RxRoot, index: nat, tag: nat) returns (set_: bool)
    requires Valid(root) && tag < 3 && index <= ULONG_MAX
    ensures set_ <==> index in root.tagged[tag] && InRange(root.Now(), index)
    ensures !root.idr ==> (set_ <==> index in root.tagged[tag])
  {
    hide Sound, Linked, TagOk, Holds, SlotTagged;
    ghost var h, M, T := root.Now(), root.items, root.tagged;
    ValidParts(root);
    TagsOf(h, M, T, root.idr, tag);
    TaggedInRange(h, M, T, root.idr, tag, index);
    var entry, maxindex, shift := LoadRoot(root);
    if tag !in root.tags { return false; }
    if index > maxindex { return false; }
    RangeAt(h, M, index);
    RootOne(h, T[tag], tag, index);
    while entry.Child?
      invariant entry.Child? ==> entry.n in root.pool && Covers(h.m[entry.n], index)
      invariant !entry.Child? ==> index in T[tag]
      decreases if entry.Child? && entry.n in root.pool then 1 + entry.n.shift else 0
    {
      var parent := entry.n;
      assert h.m[parent].slots == parent.slots && h.m[parent].shift == parent.shift && h.m[parent].tags == parent.tags;
      GetReads(h, M, T, root.idr, tag, parent, index);
      var offset := Shr(index, parent.shift) % 64;
      entry := parent.slots[offset];
      if offset !in parent.tags[tag] { return false; }
    }
    return true;
  }

  lemma {:induction false} TaggedInRange(h: Shot, M: map<nat, Entry>, T: seq<iset<nat>>, idr: bool, t: nat, k: nat)
    requires Good(h, M, T, idr) && t < 3
    ensures k in T[t] && InRange(h, k) ==> t in h.tags
    ensures !idr && k in T[t] ==> InRange(h, k)
  {
    assert RootTagged(h, t, T[t]) by { assert TagOk(h, t, T[t]); }
    if !idr && k in T[t] { PresentTop(h, M, k); }
  }

  /** In a tree without nodes the root's tag is the tag of index 0. */
  lemma {:induction false} RootOne(h: Shot, S: iset<nat>, t: nat, k: nat)
    requires TagOk(h, t, S) && t in h.tags && InRange(h, k)
    ensures !h.top.Child? ==> k in S
  {}

  /** One step of radix_tree_tag_get. */
  lemma {:induction false} GetReads(h: Shot, M: map<nat, Entry>, T: seq<iset<nat>>, idr: bool, t: nat, n: RxNode,
          k: nat)
    requires Good(h, M, T, idr) && t < 3 && n in h.m && Covers(h.m[n], k)
    ensures |h.m[n].slots| == 64 && |h.m[n].tags| == 3
    ensures Digit(h.m[n], k) !in h.m[n].tags[t] ==> k !in T[t]
    ensures var e := h.m[n].slots[Digit(h.m[n], k)];
      && (e.Child? ==> e.n in h.m && Covers(h.m[e.n], k) && h.m[e.n].shift < h.m[n].shift)
      && (!e.Child? && Digit(h.m[n], k) in h.m[n].tags[t] ==> k in T[t])
  {
    hide Linked, Counted;
    BasicAt(h, n);
    var r := h.m[n];
    var o := Digit(r, k);
    CoversLeads(r, k);
    if r.slots[o].Child? { ChildAt(h, n, o); }
    assert TagOk(h, t, T[t]);
    assert SlotTagged(r, t, o, T[t]);
    if k in T[t] { AnyIn(T[t], r.shift, k); }
    if !r.slots[o].Child? && o in r.tags[t] && r.shift > 0 { EmptySlotTag(h, M, T, idr, t, n, k); }
  }

  /** A tag bit over an empty slot: only the free ids of an IDR have that, and then all of them are free. */
  lemma {:induction false} EmptySlotTag(h: Shot, M: map<nat, Entry>, T: seq<iset<nat>>, idr: bool, t: nat, n: RxNode,
          k: nat)
    requires Good(h, M, T, idr) && t < 3 && n in h.m && Covers(h.m[n], k) && h.m[n].shift > 0 && |h.m[n].slots| == 64
    requires !h.m[n].slots[Digit(h.m[n], k)].Child? && Any(T[t], h.m[n].shift, Shr(k, h.m[n].shift))
    ensures k in T[t]
  {
    hide Linked, Counted;
    NotBelow(h, M, n, k);
    if !(idr && t == 0) {
      var j :| j in T[t] && Shr(j, h.m[n].shift) == Shr(k, h.m[n].shift);
      CoversLeads(h.m[n], j); CoversLeads(h.m[n], k);
      NotBelow(h, M, n, j);
    }
  }

  /** radix_tree_tagged: whether any item carries the tag; in an IDR, whether an id that the tree covers does. */
  method IsTagged(root: RxRoot, tag: nat) returns (any: bool)
    requires Valid(root) && tag < 3
    ensures any <==> exists k :: k in root.tagged[tag] && InRange(root.Now(), k)
    ensures !root.idr ==> (any <==> exists k :: k in root.tagged[tag])
  {
    ghost var h, M, T := root.Now(), root.items, root.tagged;
    TagsOf(h, M, T, root.idr, tag);
    forall k ensures k in T[tag] && !root.idr ==> InRange(h, k) { TaggedInRange(h, M, T, root.idr, tag, k); }
    any := tag in root.tags;
  }
}
