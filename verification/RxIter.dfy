/**
 * Iteration in chunks, and the gang lookups (radix-tree.c:224-245,
 * 262-293, 1604-1627, 1745-1947; radix-tree.h:396-592).
 */
module RxIter {
  import opened CTypes
  import opened RxModel
  import opened RxHeap
  import opened RxSteps
  import opened RxShape
  import opened RxTree
  import opened RxInsert
  import opened RxTags

  /** struct radix_tree_iter; tags is the bit mask, as the set of its bits. */
  class RxIter {
    var index: nat
    var next_index: nat
    var tags: set<nat>
    var node: RxNode?

    /** radix_tree_iter_init */
    constructor (start: nat)
      ensures index == 0 && next_index == start && tags == {} && node == null
    {
      index, next_index, tags, node := 0, start, {}, null;
    }
  }

  /** A slot: root->rnode, or one of a node. */
  datatype Slot = NoSlot | RootSlot | NodeSlot(node: RxNode, offset: nat)

  /** Indices with something to see: an id in use with a NULL entry is not among them. */
  ghost function Shown(M: map<nat, Entry>): iset<nat> { iset k | k in M && M[k] != Null }

  /** What is iterated over: all entries, or those with a tag. */
  ghost function Goal(M: map<nat, Entry>, T: seq<iset<nat>>, tagged: bool, t: nat): iset<nat> {
    if !tagged then Shown(M) else if t < |T| then T[t] else iset{}
  }

  /** An ordinary tree, or an IDR that is not searched by tags: those are the free ids. */
  ghost predicate Fit(h: Shot, M: map<nat, Entry>, T: seq<iset<nat>>, tagged: bool) {
    Good(h, M, T, false) || (!tagged && Good(h, M, T, true))
  }

  lemma {:induction false} FitParts(root: RxRoot, tagged: bool)
    requires Valid(root) && (root.idr ==> !tagged)
    ensures Fit(root.Now(), root.items, root.tagged, tagged)
  {}

  /** In an ordinary tree there is something to see for every index in use. */
  lemma {:induction false} AllShown(root: RxRoot, tag: nat)
    requires Valid(root)
    ensures !root.idr ==> Goal(root.items, root.tagged, false, tag) == Keys(root.items)
  {
    hide Sound, Tagged;
    assert Mode(root.idr, root.items, root.tagged);
  }

  /** No index of S lies in [lo, hi). */
  ghost predicate Skips(S: iset<nat>, lo: int, hi: int) { forall k: nat :: k in S ==> !(lo <= k < hi) }

  // ---- digits and ranges ----

  /** index & ~node_maxindex(node): the digits below the node are cleared. */
  function Align(i: nat, shift: nat): nat { Shl(Shr(i, shift + 6), shift + 6) }

  /** (index | node_maxindex(node)) + 1, in unsigned long arithmetic. */
  function RangeEnd(i: nat, shift: nat): nat { Shl(Shr(i, shift + 6) + 1, shift + 6) % TWO64 }

  /** (index & ~node_maxindex(node)) + (offset << node->shift), in unsigned long arithmetic. */
  function SlotIndex(i: nat, shift: nat, o: nat): nat { (Align(i, shift) + Shl(o, shift)) % TWO64 }

  /** The first index below slot o of a node. */
  function FirstIndex(r: Rec, o: nat): nat { Shl(Lead(r, o), r.shift) }

  /** The range of a node ends at or before 2^64, except for a node with shift 60. */
  lemma {:induction false} RangeEnds(k: nat, s: nat)
    requires k <= ULONG_MAX && s % 6 == 0 && s <= 60
    ensures Shl(Shr(k, s) + 1, s) <= TWO64
  {
    var q, n := Shr(k, s), Shl(16, 60 - s);
    ShlCompose(16, 60 - s, s);
    ShlTop(16);
    ShrShl(k, n, s);
    ShlLess(q + 1, n, s);
  }

  /**
   * A slot's first index, computed from any index of the node; it comes out as 0 exactly
   * when it is past the last index there is.
   */
  lemma {:induction false} SlotIndexIs(k: nat, r: Rec, o: nat)
    requires Covers(r, k) && k <= ULONG_MAX && r.shift % 6 == 0 && r.shift <= 60 && o <= 64 && Digit(r, k) < o
    requires r.shift == 60 ==> o <= 16 || o == 64
    ensures FirstIndex(r, o) > k
    ensures if FirstIndex(r, o) <= ULONG_MAX then SlotIndex(k, r.shift, o) == FirstIndex(r, o)
      else SlotIndex(k, r.shift, o) == 0
  {
    hide Shr, Shl, Align;
    var s, q := r.shift, r.prefix;
    CoversLeads(r, k);
    ShrShl(k, Lead(r, o), s);
    SlotSum(k, r, o);
    if s < 60 {
      RangeEnds(k, s + 6);
      ShlTimes(q + 1, s);
      ShlNested(q + 1, s);
      ShlLess(Lead(r, o), 64 * (q + 1), s);
    } else {
      BeyondMax(k, 60); ShlValues();
      ShlTop(o);
    }
  }

  lemma {:induction false} ShlNested(a: nat, s: nat)
    requires s % 6 == 0
    ensures Shl(a, s + 6) == Shl(64 * a, s)
  {
    ShlTimes(a, s);
  }

  lemma {:induction false} SlotSum(k: nat, r: Rec, o: nat)
    requires Covers(r, k) && r.shift % 6 == 0
    ensures Align(k, r.shift) + Shl(o, r.shift) == FirstIndex(r, o)
  {
    ShlNested(r.prefix, r.shift);
    ShlAdd(64 * r.prefix, o, r.shift);
  }

  /** Where the range of a bottom node ends. */
  lemma {:induction false} RangeEndIs(k: nat, r: Rec)
    requires Covers(r, k) && k <= ULONG_MAX && r.shift == 0
    ensures 64 * r.prefix + 64 <= TWO64 && RangeEnd(k, 0) == (64 * r.prefix + 64) % TWO64
  {
    RangeEnds(k, 6);
    assert Shl(Shr(k, 6) + 1, 6) == 64 * (r.prefix + 1);
  }

  // ---- one level of the descent ----

  /** Nothing to find in slot o. */
  predicate Hole(slots: seq<Entry>, bits: set<nat>, tagged: bool, o: nat)
    requires o < |slots|
  {
    if tagged then o !in bits else slots[o] == Null
  }

  /** Tags of one kind in a node, if the iteration is over tags. */
  function Bits(r: Rec, tagged: bool, t: nat): set<nat> { if tagged && t < |r.tags| then r.tags[t] else {} }

  lemma {:induction false} HoleEmpty(h: Shot, M: map<nat, Entry>, T: seq<iset<nat>>, tagged: bool, t: nat, n: RxNode,
          o: nat)
    requires Fit(h, M, T, tagged) && n in h.m && t < 3 && o < 64 && |h.m[n].slots| == 64 && |h.m[n].tags| == 3
    requires Hole(h.m[n].slots, Bits(h.m[n], tagged, t), tagged, o)
    ensures !Any(Goal(M, T, tagged, t), h.m[n].shift, Lead(h.m[n], o))
  {
    hide Linked, Counted;
    if tagged {
      assert TagOk(h, t, T[t]);
      assert SlotTagged(h.m[n], t, o, T[t]);
    } else {
      assert SlotHolds(h.m[n], o, M);
      if h.m[n].shift == 0 { LeafKey(M, Lead(h.m[n], o)); } else { ShownKeys(M, h.m[n].shift, Lead(h.m[n], o)); }
    }
  }

  lemma {:induction false} LeafKey(M: map<nat, Entry>, k: nat)
    requires At(M, k) == Null
    ensures !Any(Shown(M), 0, k)
  {}

  lemma {:induction false} ShownKeys(M: map<nat, Entry>, s: nat, q: nat)
    ensures Any(Shown(M), s, q) ==> Any(Keys(M), s, q)
  {
    if Any(Shown(M), s, q) { AnyMono(Shown(M), Keys(M), s, q); }
  }

  /** Between the slot of k and slot o there is nothing to find. */
  lemma {:induction false} HolesSkip(h: Shot, M: map<nat, Entry>, T: seq<iset<nat>>, tagged: bool, t: nat, n: RxNode,
          k: nat, o: nat)
    requires Fit(h, M, T, tagged) && n in h.m && t < 3 && |h.m[n].slots| == 64 && |h.m[n].tags| == 3
      && Covers(h.m[n], k)
    requires Digit(h.m[n], k) < o <= 64
    requires forall p: nat :: Digit(h.m[n], k) <= p < o ==> Hole(h.m[n].slots, Bits(h.m[n], tagged, t), tagged, p)
    ensures Skips(Goal(M, T, tagged, t), k, FirstIndex(h.m[n], o))
  {
    var r, S := h.m[n], Goal(M, T, tagged, t);
    CoversLeads(r, k);
    forall j: nat | j in S && k <= j < FirstIndex(r, o) ensures false {
      ShrMono(k, j, r.shift);
      ShrShl(j, Lead(r, o), r.shift);
      var p := Shr(j, r.shift) - 64 * r.prefix;
      HoleEmpty(h, M, T, tagged, t, n, p);
      AnyIn(S, r.shift, j);
    }
  }

  lemma {:induction false} SkipsOn(S: iset<nat>, a: int, b: int, c: int)
    requires Skips(S, a, b) && Skips(S, b, c)
    ensures Skips(S, a, c)
  {}

  /** In the one node with shift 60 nothing is found beyond slot 16, the first past the last index. */
  lemma {:induction false} NoHoleSmall(h: Shot, M: map<nat, Entry>, T: seq<iset<nat>>, tagged: bool, t: nat, n: RxNode,
          o: nat)
    requires Fit(h, M, T, tagged) && n in h.m && t < 3 && o < 64 && |h.m[n].slots| == 64 && |h.m[n].tags| == 3
      && h.m[n].shift == 60
    requires !Hole(h.m[n].slots, Bits(h.m[n], tagged, t), tagged, o)
    ensures o <= 16
  {
    hide Linked, Counted;
    TopHighest(h, n); TopAt(h); BasicAt(h, h.top.n); BasicAt(h, n);
    assert h.m[n].prefix == 0;
    ShlTop(16); ShlTop(o);
    if tagged {
      assert TagOk(h, t, T[t]);
      assert SlotTagged(h.m[n], t, o, T[t]);
      var k :| k in T[t] && Shr(k, 60) == o;
      assert k in M;
      ShrShl(k, 16, 60);
    } else {
      NotItem(h, n, o); ChildAt(h, n, o);
      var c := h.m[n].slots[o].n;
      FitsAt(h, c);
    }
  }

  lemma {:induction false} FitsAt(h: Shot, n: RxNode)
    requires Linked(h) && n in h.m
    ensures Fits(h.m[n].prefix, h.m[n].shift)
  {
    LinkedAt(h, n);
  }

  // ---- the code ----

  /** radix_tree_find_next_bit: the lowest bit from offset0 on, or 64. */
  method FindNextBit(bits: set<nat>, offset0: nat) returns (offset: nat)
    requires offset0 <= 64
    ensures offset0 <= offset <= 64 && (offset < 64 ==> offset in bits)
    ensures forall p :: offset0 <= p < offset ==> p !in bits
  {
    offset := offset0;
    while offset < 64 && offset !in bits
      invariant offset0 <= offset <= 64 && forall p :: offset0 <= p < offset ==> p !in bits
    {
      offset := offset + 1;
    }
  }

  /** The loop that skips empty slots. */
  method FindNextEntry(slots: seq<Entry>, offset0: nat) returns (offset: nat)
    requires |slots| == 64 && offset0 < 64
    ensures offset0 < offset <= 64 && (offset < 64 ==> slots[offset] != Null)
    ensures forall p :: offset0 < p < offset ==> slots[p] == Null
  {
    offset := offset0 + 1;
    while offset < 64
      invariant offset0 < offset <= 64 && forall p :: offset0 < p < offset ==> slots[p] == Null
    {
      if slots[offset] != Null { break; }
      offset := offset + 1;
    }
  }

  /** r is s >> k. */
  ghost predicate Shifted(r: set<nat>, s: set<nat>, k: nat) { forall b: nat :: b in r <==> b < 64 && b + k in s }

  /** tags >> k */
  method ShiftRight(bits: set<nat>, k: nat) returns (r: set<nat>)
    ensures Shifted(r, bits, k)
  {
    r := {};
    for b := 0 to 64
      invariant forall c: nat :: c in r <==> c < b && c + k in bits
    {
      if b + k in bits { r := r + {b}; }
    }
  }

  /** How the search below one index ends: at a slot, at the end of a node's range, or past the last index. */
  datatype Step = Found(node: RxNode, offset: nat, index: nat) | Restart(index: nat) | Over

  /** The next offset that is not a hole: radix_tree_find_next_bit, or the loop over the slots. */
  method NextOffset(node: RxNode, offset0: nat, tagged: bool, tag: nat) returns (offset: nat)
    requires tag < 3 && |node.slots| == 64 && |node.tags| == 3 && offset0 < 64
    requires if tagged then offset0 !in node.tags[tag] else node.slots[offset0] == Null
    ensures offset0 < offset <= 64
    ensures var bits := if tagged then node.tags[tag] else {};
      && (offset < 64 ==> !Hole(node.slots, bits, tagged, offset))
      && forall p: nat :: offset0 <= p < offset ==> Hole(node.slots, bits, tagged, p)
  {
    if tagged {
      offset := FindNextBit(node.tags[tag], offset0 + 1);
    } else {
      offset := FindNextEntry(node.slots, offset0);
    }
  }

  /** The next offset that is not a hole, and the index it stands for. */
  method SkipHoles(root: RxRoot, node: RxNode, index0: nat, tagged: bool, tag: nat) returns (offset: nat, index: nat)
    requires Valid(root) && (root.idr ==> !tagged) && tag < 3 && index0 <= ULONG_MAX && node in root.pool
      && Covers(root.Now().m[node], index0)
    requires |node.slots| == 64 && |node.tags| == 3
    requires Hole(node.slots, Bits(root.Now().m[node], tagged, tag), tagged, Digit(root.Now().m[node], index0))
    ensures var r, S := root.Now().m[node], Goal(root.items, root.tagged, tagged, tag);
      && Digit(r, index0) < offset <= 64 && (offset < 64 ==> !Hole(node.slots, Bits(r, tagged, tag), tagged, offset))
      && (if index == 0 then Skips(S, index0, TWO64)
        else index0 < index <= ULONG_MAX && Skips(S, index0, index) && index == FirstIndex(r, offset))
      && (index != 0 && offset < 64 ==> Leads(r, offset, index))
  {
    hide Good, Linked, Goal, Any, RxRoot.Now, FirstIndex, Fit, Hole, Skips;
    ghost var h, M, T := root.Now(), root.items, root.tagged;
    root.Reads(); root.ReadsAt(node);
    ghost var r := h.m[node];
    ValidParts(root);
    FitParts(root, tagged);
    BasicAt(h, node);
    IsHole(node.slots, Bits(r, tagged, tag), tagged, Digit(r, index0));
    offset := NextOffset(node, Shr(index0, node.shift) % 64, tagged, tag);
    HolesSkip(h, M, T, tagged, tag, node, index0, offset);
    if node.shift == 60 && offset < 64 { NoHoleSmall(h, M, T, tagged, tag, node, offset); }
    SlotIndexIs(index0, r, offset);
    index := SlotIndex(index0, node.shift, offset);
    if index == 0 { SkipsToEnd(Goal(M, T, tagged, tag), index0, FirstIndex(r, offset)); }
    FirstLeads(r, offset);
  }

  lemma {:induction false} IsHole(slots: seq<Entry>, bits: set<nat>, tagged: bool, o: nat)
    requires o < |slots| && Hole(slots, bits, tagged, o)
    ensures if tagged then o !in bits else slots[o] == Null
  {}

  lemma {:induction false} FirstLeads(r: Rec, o: nat)
    requires r.shift % 6 == 0
    ensures Leads(r, o, FirstIndex(r, o))
  {
    ShrOfShl(Lead(r, o), r.shift);
  }

  lemma {:induction false} GoalShown(M: map<nat, Entry>, T: seq<iset<nat>>, tagged: bool, t: nat, h: Shot)
    requires Fit(h, M, T, tagged) && t < 3
    ensures forall k: nat :: k in Goal(M, T, tagged, t) ==> k in M && M[k] != Null
  {
    hide Sound, Tagged;
    if tagged { assert Mode(false, M, T); }
    forall k: nat | k in Goal(M, T, tagged, t) ensures k in M && M[k] != Null {
      if tagged { assert k in T[t]; }
    }
  }

  lemma {:induction false} SkipsToEnd(S: iset<nat>, lo: int, hi: int)
    requires Skips(S, lo, hi) && hi > ULONG_MAX
    ensures Skips(S, lo, TWO64)
  {}

  lemma {:induction false} FoundIndex(h: Shot, M: map<nat, Entry>, T: seq<iset<nat>>, tagged: bool, t: nat, n: RxNode,
          k: nat)
    requires Fit(h, M, T, tagged) && n in h.m && t < 3 && |h.m[n].slots| == 64 && |h.m[n].tags| == 3
      && Covers(h.m[n], k)
    requires !Hole(h.m[n].slots, Bits(h.m[n], tagged, t), tagged, Digit(h.m[n], k))
    ensures var e := h.m[n].slots[Digit(h.m[n], k)];
      && e != Null
      && (e.Child? ==> e.n in h.m && Covers(h.m[e.n], k) && h.m[e.n].shift < h.m[n].shift)
      && (e.Item? ==> h.m[n].shift == 0 && k in Goal(M, T, tagged, t))
  {
    hide Linked, Counted;
    var r, o := h.m[n], Digit(h.m[n], k);
    CoversLeads(r, k);
    if r.slots[o].Child? {
      ChildAt(h, n, o);
    } else {
      if r.shift > 0 { NotItem(h, n, o); }
      AtLeaf(h, M, n, k);
      if tagged {
        assert TagOk(h, t, T[t]);
        assert SlotTagged(r, t, o, T[t]);
        var j :| j in T[t] && Shr(j, r.shift) == Lead(r, o);
        CoversLeads(r, j);
        AtLeaf(h, M, n, j);
        assert j in M;
      }
    }
  }

  /** The do-loop of radix_tree_next_chunk. */
  method DescendChunk(root: RxRoot, top: RxNode, index0: nat, tagged: bool, tag: nat) returns (step: Step)
    requires Valid(root) && (root.idr ==> !tagged) && tag < 3 && index0 <= ULONG_MAX && top in root.pool
      && Covers(root.Now().m[top], index0)
    ensures var S := Goal(root.items, root.tagged, tagged, tag);
      match step
      case Over => Skips(S, index0, TWO64)
      case Restart(index) => index0 < index <= ULONG_MAX && Skips(S, index0, index)
      case Found(node, offset, index) =>
        && node in root.pool && node.shift == 0 && Covers(root.Now().m[node], index)
        && offset == Digit(root.Now().m[node], index)
        && index0 <= index <= ULONG_MAX && index in S && Skips(S, index0, index)
  {
    hide Good, Linked, Goal, Any, RxRoot.Now, FirstIndex, Skips;
    ghost var h, M, T := root.Now(), root.items, root.tagged;
    ValidParts(root);
    ghost var S := Goal(M, T, tagged, tag);
    root.Reads();
    var node, index := top, index0;
    SkipsNone(S, index0);
    while true
      invariant node in root.pool && index0 <= index <= ULONG_MAX && Covers(h.m[node], index) && Skips(S, index0, index)
      decreases node.shift
    {
      root.ReadsAt(node);
      BasicAt(h, node);
      var offset := Shr(index, node.shift) % 64;
      var child := node.slots[offset];
      var hole := if tagged then offset !in node.tags[tag] else child == Null;
      if hole {
        ghost var before := index;
        offset, index := SkipHoles(root, node, index, tagged, tag);
        if index == 0 {  // overflow after ~0UL
          SkipsOn(S, index0, before, TWO64);
          return Over;
        }
        SkipsOn(S, index0, before, index);
        if offset == 64 { return Restart(index); }
        child := node.slots[offset];
        LeadsCovers(h.m[node], offset, index);
      }
      FoundIndex(h, M, T, tagged, tag, node, index);
      if !child.Child? {
        return Found(node, offset, index);
      }
      root.ReadsAt(child.n);
      node := child.n;
    }
  }

  lemma {:induction false} SkipsNone(S: iset<nat>, k: int)
    ensures Skips(S, k, k)
  {}

  lemma {:induction false} LeadsCovers(r: Rec, o: nat, k: nat)
    requires Leads(r, o, k) && o < 64
    ensures Covers(r, k) && o == Digit(r, k)
  {
    CoversLeads(r, k);
  }

  /** The iterator stands at a slot with an item. */
  ghost predicate StandsAt(root: RxRoot, iter: RxIter, slot: Slot, tagged: bool, tag: nat)
    reads root, root.pool, iter
  {
    match slot
    case NoSlot => false
    case RootSlot => !root.rnode.Child? && iter.index == 0 && iter.next_index == 1 && iter.tags == {0}
        && iter.node == null
    case NodeSlot(n, o) =>
      && n in root.pool && n.shift == 0 && Covers(root.Now().m[n], iter.index)
      && o == Digit(root.Now().m[n], iter.index) && iter.node == n
      && iter.index <= ULONG_MAX && iter.next_index == (64 * n.prefix + 64) % TWO64
      && (tagged ==> tag < |n.tags| && Shifted(iter.tags, n.tags[tag], o))
  }

  /** radix_tree_next_chunk: from next_index on, the first index to visit. */
  method NextChunk(root: RxRoot, iter: RxIter, tagged: bool, tag: nat) returns (slot: Slot)
    requires Valid(root) && (root.idr ==> !tagged) && tag < 3 && iter.next_index <= ULONG_MAX
    modifies iter
    ensures var S, start := Goal(root.items, root.tagged, tagged, tag), old(iter.next_index);
      var over := start == 0 && old(iter.index) != 0;
      if slot.NoSlot? then over || Skips(S, start, TWO64)
      else
        && !over && StandsAt(root, iter, slot, tagged, tag)
        && start <= iter.index && iter.index in S && Skips(S, start, iter.index)
  {
    hide Good, Linked, Goal, Any, FirstIndex, Skips, Holds, Sound, Counted, Tagged, TopHolds, InRange, HeightShift,
      RxRoot.Now;
    ghost var h, M, T := root.Now(), root.items, root.tagged;
    ValidParts(root);
    root.Reads();
    ghost var S, start := Goal(M, T, tagged, tag), iter.next_index;
    SkipsNone(S, start);
    if tagged && tag !in root.tags {
      NoTag(h, M, T, tag);
      NothingLeft(S, start);
      return NoSlot;
    }
    var index := iter.next_index;
    if index == 0 && iter.index != 0 { return NoSlot; }
    while true
      invariant start <= index <= ULONG_MAX && Skips(S, start, index)
      invariant iter.index == old(iter.index) && iter.next_index == old(iter.next_index)
      decreases TWO64 - index
    {
      var child, maxindex, shift := LoadRoot(root);
      RangeAt(h, M, index);
      if index > maxindex || child == Null {
        OutOfRange(h, M, T, tagged, tag, index);
        SkipsOn(S, start, index, TWO64);
        return NoSlot;
      }
      if !child.Child? {
        OneSlot(h, M, T, tagged, tag);
        iter.index := index;
        iter.next_index := maxindex + 1;
        iter.tags := {0};
        iter.node := null;
        return RootSlot;
      }
      var step := DescendChunk(root, child.n, index, tagged, tag);
      match step
      case Over =>
        SkipsOn(S, start, index, TWO64);
        return NoSlot;
      case Restart(i) =>
        SkipsOn(S, start, index, i);
        index := i;
      case Found(node, offset, i) =>
        SkipsOn(S, start, index, i);
        SetPlace(root, iter, node, offset, i, tagged, tag);
        return NodeSlot(node, offset);
    }
  }

  lemma {:induction false} NoTag(h: Shot, M: map<nat, Entry>, T: seq<iset<nat>>, t: nat)
    requires Good(h, M, T, false) && t < 3 && t !in h.tags
    ensures forall k: nat :: k !in Goal(M, T, true, t)
  {
    forall k: nat ensures k !in Goal(M, T, true, t) { TaggedInRange(h, M, T, false, t, k); }
  }

  lemma {:induction false} NothingLeft(S: iset<nat>, lo: int)
    requires forall k: nat :: k !in S
    ensures Skips(S, lo, TWO64)
  {}

  lemma {:induction false} OutOfRange(h: Shot, M: map<nat, Entry>, T: seq<iset<nat>>, tagged: bool, t: nat, index: nat)
    requires Fit(h, M, T, tagged) && t < 3 && (!InRange(h, index) || h.top == Null)
    ensures Skips(Goal(M, T, tagged, t), index, TWO64)
  {
    var S := Goal(M, T, tagged, t);
    forall k: nat | k in S && index <= k < TWO64 ensures false {
      GoalShown(M, T, tagged, t, h);
      PresentTop(h, M, k);
      if !InRange(h, index) { ShrMono(index, k, HeightShift(h)); RangeShift(h, k); RangeShift(h, index); }
    }
  }

  lemma {:induction false} OneSlot(h: Shot, M: map<nat, Entry>, T: seq<iset<nat>>, tagged: bool, t: nat)
    requires Fit(h, M, T, tagged) && t < 3 && h.top.Item? && (tagged ==> t in h.tags)
    ensures 0 in Goal(M, T, tagged, t)
  {
    if tagged { assert TagOk(h, t, T[t]); }
  }

  /** The end of radix_tree_next_chunk. */
  method SetPlace(root: RxRoot, iter: RxIter, node: RxNode, offset: nat, index: nat, tagged: bool, tag: nat)
    requires Valid(root) && tag < 3 && node in root.pool && node.shift == 0 && index <= ULONG_MAX
    requires Covers(root.Now().m[node], index) && offset == Digit(root.Now().m[node], index)
    modifies iter
    ensures iter.index == index && StandsAt(root, iter, NodeSlot(node, offset), tagged, tag)
  {
    hide Good, RxRoot.Now, Sound, Holds, Counted, Tagged, TopHolds, Linked, Mode, Align, RangeEnd;
    ValidParts(root);
    root.Reads(); root.ReadsAt(node);
    BasicAt(root.Now(), node);
    iter.index := (Align(index, node.shift) + Shl(offset, node.shift)) % TWO64;
    PlaceIndex(root.Now().m[node], index);
    RangeEndIs(index, root.Now().m[node]);
    iter.next_index := RangeEnd(index, node.shift);
    iter.node := node;
    if tagged {
      iter.tags := ShiftRight(node.tags[tag], offset);
    }
  }

  lemma {:induction false} PlaceIndex(r: Rec, k: nat)
    requires Covers(r, k) && r.shift == 0 && k <= ULONG_MAX
    ensures (Align(k, 0) + Shl(Digit(r, k), 0)) % TWO64 == k
  {
    assert Shl(Shr(k, 6), 6) == 64 * Shr(k, 6) && Shr(k, 6) == k / 64;
  }
}
