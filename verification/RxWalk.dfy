/** The for-each loops over a radix tree, and the gang lookups (radix-tree.c:1840-1947; radix-tree.h:534-640). */
module RxWalk {
  import opened CTypes
  import opened RxModel
  import opened RxHeap
  import opened RxSteps
  import opened RxTree
  import opened RxIter

  /** One past the last index of the chunk that the iterator is in. */
  ghost function ChunkEnd(slot: Slot): int
    reads if slot.NodeSlot? then {slot.node} else {}
  {
    match slot
    case NoSlot => 0
    case RootSlot => 1
    case NodeSlot(n, _) => 64 * n.prefix + 64
  }

  lemma {:induction false} ChunkFits(root: RxRoot, iter: RxIter, slot: Slot, tagged: bool, tag: nat)
    requires Valid(root) && StandsAt(root, iter, slot, tagged, tag)
    ensures iter.index < ChunkEnd(slot) <= TWO64 && iter.next_index == ChunkEnd(slot) % TWO64
    ensures slot.NodeSlot? ==>
      && slot.offset < 64 && iter.index == 64 * slot.node.prefix + slot.offset && |slot.node.slots| == 64
      && |slot.node.tags| == 3
      && root.Now().m[slot.node] == Rec(slot.node.shift, slot.node.offset, slot.node.count, slot.node.parent,
          slot.node.slots, slot.node.tags, slot.node.prefix)
  {
    hide Good, Linked, Holds, Counted, Tagged, Mode, TopHolds;
    ValidParts(root);
    if slot.NodeSlot? {
      root.ReadsAt(slot.node);
      BasicAt(root.Now(), slot.node);
      RangeEndIs(iter.index, root.Now().m[slot.node]);
      CoversLeads(root.Now().m[slot.node], iter.index);
    }
  }

  /** Slot p of a bottom node stands for index 64 * prefix + p. */
  lemma {:induction false} LeafFound(h: Shot, M: map<nat, Entry>, T: seq<iset<nat>>, tagged: bool, t: nat, n: RxNode,
          p: nat)
    requires Fit(h, M, T, tagged) && n in h.m && t < 3 && p < 64 && |h.m[n].slots| == 64 && |h.m[n].tags| == 3
      && h.m[n].shift == 0
    ensures Covers(h.m[n], Lead(h.m[n], p)) && Digit(h.m[n], Lead(h.m[n], p)) == p
    ensures Lead(h.m[n], p) in Goal(M, T, tagged, t) <==> !Hole(h.m[n].slots, Bits(h.m[n], tagged, t), tagged, p)
  {
    hide Linked, Counted;
    var r, k := h.m[n], Lead(h.m[n], p);
    assert Leads(r, p, k);
    CoversLeads(r, k);
    if Hole(r.slots, Bits(r, tagged, t), tagged, p) {
      HoleEmpty(h, M, T, tagged, t, n, p);
      if k in Goal(M, T, tagged, t) { AnyIn(Goal(M, T, tagged, t), 0, k); }
    } else {
      FoundIndex(h, M, T, tagged, t, n, k);
      if r.slots[p].Child? { ChildAt(h, n, p); }
    }
  }

  /** Holes in a row of a bottom node. */
  lemma {:induction false} LeafSkips(h: Shot, M: map<nat, Entry>, T: seq<iset<nat>>, tagged: bool, t: nat, n: RxNode,
          a: nat, b: nat)
    requires Fit(h, M, T, tagged) && n in h.m && t < 3 && a <= b <= 64 && |h.m[n].slots| == 64
      && |h.m[n].tags| == 3 && h.m[n].shift == 0
    requires forall p: nat :: a <= p < b ==> Hole(h.m[n].slots, Bits(h.m[n], tagged, t), tagged, p)
    ensures Skips(Goal(M, T, tagged, t), Lead(h.m[n], a), Lead(h.m[n], b))
  {
    hide Fit, Goal, Hole, Covers, Digit;
    forall k: nat | k in Goal(M, T, tagged, t) && Lead(h.m[n], a) <= k < Lead(h.m[n], b) ensures false {
      var p := k - 64 * h.m[n].prefix;
      assert k == Lead(h.m[n], p) && a <= p < b;
      LeafFound(h, M, T, tagged, t, n, p);
    }
  }

  /** What radix_tree_next_slot promises, for an iterator that was at index i0 in a chunk that ends at next0. */
  ghost predicate Advanced(root: RxRoot, iter: RxIter, i0: nat, next0: nat, end: int, r: Slot, tagged: bool, tag: nat)
    reads root, root.pool, iter
  {
    var S := Goal(root.items, root.tagged, tagged, tag);
    && iter.next_index == next0 && i0 <= iter.index
    && (r.NoSlot? ==> Skips(S, i0 + 1, end))
    && (!r.NoSlot? ==>
        && StandsAt(root, iter, r, tagged, tag) && i0 < iter.index && iter.index in S && Skips(S, i0 + 1, iter.index))
  }

  /** radix_tree_next_slot, without tags. */
  method NextPlain(root: RxRoot, iter: RxIter, slot: Slot) returns (r: Slot)
    requires Valid(root) && StandsAt(root, iter, slot, false, 0)
    modifies iter
    ensures Advanced(root, iter, old(iter.index), old(iter.next_index), old(ChunkEnd(slot)), r, false, 0)
  {
    hide Good, Linked, Goal, Skips, RxRoot.Now, Holds, Sound, Counted, Tagged, TopHolds, StandsAt;
    ghost var h, M, T := root.Now(), root.items, root.tagged;
    ValidParts(root);
    root.Reads();
    ChunkFits(root, iter, slot, false, 0);
    ghost var start := iter.index;
    var count := (iter.next_index - iter.index) % TWO64;
    if slot.RootSlot? {
      SkipsNone(Goal(M, T, false, 0), start + 1);
      return NoSlot;
    }
    PlaceParts(root, iter, slot, false, 0);
    var node, o := slot.node, slot.offset;
    assert count == 64 - o;
    while true
      invariant slot.offset <= o < 64 && count == 64 - o && iter.index == 64 * node.prefix + o
        && iter.next_index == old(iter.next_index) && iter.node == node
      invariant forall p: nat :: slot.offset < p <= o ==> node.slots[p] == Null
      decreases 64 - o
    {
      count := count - 1;
      if count <= 0 { break; }
      o := o + 1;
      iter.index := iter.index + 1;
      if node.slots[o] != Null {
        LeafFound(h, M, T, false, 0, node, o);
        LeafSkips(h, M, T, false, 0, node, slot.offset + 1, o);
        PlaceAt(root, iter, node, o, false, 0);
        return NodeSlot(node, o);
      }
    }
    LeafSkips(h, M, T, false, 0, node, slot.offset + 1, 64);
    return NoSlot;
  }

  lemma {:induction false} PlaceParts(root: RxRoot, iter: RxIter, slot: Slot, tagged: bool, tag: nat)
    requires StandsAt(root, iter, slot, tagged, tag) && slot.NodeSlot?
    ensures slot.node in root.pool && slot.node.shift == 0 && iter.node == slot.node && iter.index <= ULONG_MAX
    ensures iter.next_index == (64 * slot.node.prefix + 64) % TWO64
    ensures tagged ==> tag < |slot.node.tags| && Shifted(iter.tags, slot.node.tags[tag], slot.offset)
  {}

  lemma {:induction false} PlaceAt(root: RxRoot, iter: RxIter, n: RxNode, o: nat, tagged: bool, tag: nat)
    requires n in root.pool && n.shift == 0 && iter.node == n && n in root.Now().m
      && Covers(root.Now().m[n], iter.index) && o == Digit(root.Now().m[n], iter.index)
    requires iter.index <= ULONG_MAX && iter.next_index == (64 * n.prefix + 64) % TWO64
    requires tagged ==> tag < |n.tags| && Shifted(iter.tags, n.tags[tag], o)
    ensures StandsAt(root, iter, NodeSlot(n, o), tagged, tag)
  {}

  lemma {:induction false} TagSkips(h: Shot, M: map<nat, Entry>, T: seq<iset<nat>>, t: nat, n: RxNode, a: nat, b: nat)
    requires Good(h, M, T, false) && n in h.m && t < 3 && a <= b <= 64 && |h.m[n].slots| == 64
      && |h.m[n].tags| == 3 && h.m[n].shift == 0
    requires forall p: nat :: a <= p < b ==> p !in h.m[n].tags[t]
    ensures Skips(Goal(M, T, true, t), Lead(h.m[n], a), Lead(h.m[n], b))
  {
    LeafSkips(h, M, T, true, t, n, a, b);
  }

  lemma {:induction false} TagFound(h: Shot, M: map<nat, Entry>, T: seq<iset<nat>>, t: nat, n: RxNode, p: nat)
    requires Good(h, M, T, false) && n in h.m && t < 3 && p < 64 && |h.m[n].slots| == 64 && |h.m[n].tags| == 3
      && h.m[n].shift == 0
    requires p in h.m[n].tags[t]
    ensures Covers(h.m[n], Lead(h.m[n], p)) && Digit(h.m[n], Lead(h.m[n], p)) == p
      && Lead(h.m[n], p) in Goal(M, T, true, t)
  {
    LeafFound(h, M, T, true, t, n, p);
  }

  /** The bits after the current one: how far the next one is, and the word from there on (radix-tree.h:549-563). */
  method AdvanceBits(tags0: set<nat>, ghost bits: set<nat>, ghost o: nat) returns (tags: set<nat>, offset: nat)
    requires Shifted(tags0, bits, o) && forall b: nat :: b in bits ==> b < 64
    ensures tags == {} ==> forall p: nat :: o < p < 64 ==> p !in bits
    ensures tags != {} ==>
      && o + offset + 1 < 64 && o + offset + 1 in bits && (forall p: nat :: o < p < o + offset + 1 ==> p !in bits)
      && Shifted(tags, bits, o + offset + 1)
  {
    hide Shifted;
    offset := 0;
    tags := ShiftRight(tags0, 1);
    ShiftTwice(bits, tags0, tags, o, 1);
    if tags == {} {
      NoBits(bits, tags, o + 1);
      return;
    }
    ghost var t1 := tags;
    if 0 !in tags {
      offset := FindNextBit(tags, 0);  // __ffs
      tags := ShiftRight(tags, offset);
      ShiftTwice(bits, t1, tags, o + 1, offset);
    }
    FirstBit(bits, t1, o + 1, offset);
    ZeroBit(tags, bits, o + 1 + offset);
  }

  lemma {:induction false} ZeroBit(r: set<nat>, s: set<nat>, k: nat)
    requires Shifted(r, s, k) && k in s
    ensures r != {}
  {
    assert 0 + k in s && 0 in r;
  }

  /** What stands behind the next bit of a node. */
  lemma {:induction false} BitFacts(h: Shot, M: map<nat, Entry>, T: seq<iset<nat>>, t: nat, n: RxNode, o: nat,
          tags: set<nat>, offset: nat)
    requires Good(h, M, T, false) && n in h.m && t < 3 && o < 64 && |h.m[n].slots| == 64 && |h.m[n].tags| == 3
      && h.m[n].shift == 0
    requires tags == {} ==> forall p: nat :: o < p < 64 ==> p !in h.m[n].tags[t]
    requires tags != {} ==>
      && o + offset + 1 < 64 && o + offset + 1 in h.m[n].tags[t]
      && forall p: nat :: o < p < o + offset + 1 ==> p !in h.m[n].tags[t]
    ensures var S, k := Goal(M, T, true, t), Lead(h.m[n], o);
      && (tags == {} ==> Skips(S, k + 1, 64 * h.m[n].prefix + 64))
      && (tags != {} ==>
          && Skips(S, k + 1, k + offset + 1) && k + offset + 1 in S
          && Covers(h.m[n], k + offset + 1) && Digit(h.m[n], k + offset + 1) == o + offset + 1)
  {
    hide Good, Goal, Skips;
    if tags == {} {
      TagSkips(h, M, T, t, n, o + 1, 64);
    } else {
      TagFound(h, M, T, t, n, o + offset + 1);
      TagSkips(h, M, T, t, n, o + 1, o + offset + 1);
    }
  }

  /** radix_tree_next_slot over tags, in a node: iter->tags is the rest of the node's bits. */
  method NextTaggedBit(root: RxRoot, iter: RxIter, node: RxNode, o: nat, tag: nat) returns (r: Slot)
    requires Valid(root) && !root.idr && tag < 3 && StandsAt(root, iter, NodeSlot(node, o), true, tag)
    modifies iter
    ensures Advanced(root, iter, old(iter.index), old(iter.next_index), old(ChunkEnd(NodeSlot(node, o))), r, true, tag)
  {
    hide Good, Linked, Goal, Skips, RxRoot.Now, Holds, Sound, Counted, Tagged, TopHolds, StandsAt, Shifted, Mode,
      Covers, Digit;
    ghost var h, M, T := root.Now(), root.items, root.tagged;
    ValidParts(root);
    root.Reads();
    ChunkFits(root, iter, NodeSlot(node, o), true, tag);
    PlaceParts(root, iter, NodeSlot(node, o), true, tag);
    BitsSmall(h, M, T, tag, node);
    var tags, offset := AdvanceBits(iter.tags, node.tags[tag], o);
    BitFacts(h, M, T, tag, node, o, tags, offset);
    iter.tags := tags;
    if tags == {} {
      return NoSlot;
    }
    iter.index := iter.index + offset + 1;
    PlaceAt(root, iter, node, o + offset + 1, true, tag);
    return NodeSlot(node, o + offset + 1);
  }

  /** radix_tree_next_slot, over tags. */
  method NextTagged(root: RxRoot, iter: RxIter, slot: Slot, tag: nat) returns (r: Slot)
    requires Valid(root) && !root.idr && tag < 3 && StandsAt(root, iter, slot, true, tag)
    modifies iter
    ensures Advanced(root, iter, old(iter.index), old(iter.next_index), old(ChunkEnd(slot)), r, true, tag)
  {
    hide Good, Linked, Goal, Skips, RxRoot.Now, Holds, Sound, Counted, Tagged, TopHolds, StandsAt;
    if slot.RootSlot? {
      RootTags(root, iter, slot, tag);
      ChunkFits(root, iter, slot, true, tag);
      iter.tags := ShiftRight(iter.tags, 1);
      assert iter.tags == {};
      SkipsNone(Goal(root.items, root.tagged, true, tag), iter.index + 1);
      return NoSlot;
    }
    PlaceParts2(root, iter, slot, tag);
    r := NextTaggedBit(root, iter, slot.node, slot.offset, tag);
  }

  lemma {:induction false} PlaceParts2(root: RxRoot, iter: RxIter, slot: Slot, tag: nat)
    requires StandsAt(root, iter, slot, true, tag)
    ensures slot.NodeSlot? || slot.RootSlot?
  {}

  lemma {:induction false} ShiftTwice(s: set<nat>, r1: set<nat>, r2: set<nat>, k1: nat, k2: nat)
    requires Shifted(r1, s, k1) && Shifted(r2, r1, k2) && forall b: nat :: b in s ==> b < 64
    ensures Shifted(r2, s, k1 + k2)
  {
    forall b: nat ensures b in r2 <==> b < 64 && b + (k1 + k2) in s {
      assert b + k2 + k1 == b + (k1 + k2);
      assert b + k2 in r1 <==> b + k2 < 64 && b + k2 + k1 in s;
    }
  }

  lemma {:induction false} NoBits(s: set<nat>, r: set<nat>, k: nat)
    requires Shifted(r, s, k) && r == {}
    ensures forall p: nat :: k <= p < 64 ==> p !in s
  {
    forall p: nat | k <= p < 64 ensures p !in s {
      assert p - k !in r && p - k + k == p;
    }
  }

  /** The lowest bit of a shifted word is the next bit of the word. */
  lemma {:induction false} FirstBit(s: set<nat>, r: set<nat>, k: nat, o: nat)
    requires Shifted(r, s, k) && r != {} && (forall b: nat :: b in s ==> b < 64)
    requires o <= 64 && (o < 64 ==> o in r) && forall p :: 0 <= p < o ==> p !in r
    ensures k + o < 64 && k + o in s && forall p: nat :: k <= p < k + o ==> p !in s
  {
    SomeBit(r, o);
    assert o + k in s;
    forall p: nat | k <= p < k + o ensures p !in s {
      assert p - k !in r && p - k + k == p;
    }
  }

  lemma {:induction false} RootTags(root: RxRoot, iter: RxIter, slot: Slot, tag: nat)
    requires StandsAt(root, iter, slot, true, tag) && slot.RootSlot?
    ensures iter.tags == {0}
  {}

  lemma {:induction false} BitsSmall(h: Shot, M: map<nat, Entry>, T: seq<iset<nat>>, t: nat, n: RxNode)
    requires Good(h, M, T, false) && n in h.m && t < |h.m[n].tags| <= 3
    ensures forall b: nat :: b in h.m[n].tags[t] ==> b < 64
  {
    assert TagOk(h, t, T[t]);
    forall b: nat | b in h.m[n].tags[t] ensures b < 64 { assert SlotTagged(h.m[n], t, b, T[t]); }
  }

  lemma {:induction false} SomeBit(s: set<nat>, o: nat)
    requires s != {} && (forall b: nat :: b in s ==> b < 64) && o <= 64 && forall p :: 0 <= p < o ==> p !in s
    ensures o < 64
  {
    var b :| b in s;
  }

  /** radix_tree_next_slot */
  method NextSlot(root: RxRoot, iter: RxIter, slot: Slot, tagged: bool, tag: nat) returns (r: Slot)
    requires Valid(root) && (root.idr ==> !tagged) && tag < 3 && StandsAt(root, iter, slot, tagged, tag)
    modifies iter
    ensures Advanced(root, iter, old(iter.index), old(iter.next_index), old(ChunkEnd(slot)), r, tagged, tag)
  {
    hide Good, Goal, Skips, RxRoot.Now;
    if tagged {
      r := NextTagged(root, iter, slot, tag);
    } else {
      PlainPlace(root, iter, slot, tag);
      r := NextPlain(root, iter, slot);
      GoalPlain(root.items, root.tagged, tag);
    }
  }

  lemma {:induction false} PlainPlace(root: RxRoot, iter: RxIter, slot: Slot, tag: nat)
    requires StandsAt(root, iter, slot, false, tag)
    ensures StandsAt(root, iter, slot, false, 0)
  {}

  lemma {:induction false} GoalPlain(M: map<nat, Entry>, T: seq<iset<nat>>, tag: nat)
    ensures Goal(M, T, false, 0) == Goal(M, T, false, tag)
  {}

  // ---- the loops ----

  ghost predicate Ascending(s: seq<nat>) { forall i, j :: 0 <= i < j < |s| ==> s[i] < s[j] }

  /** s lists the indices of S in [lo, hi), in order. */
  ghost predicate Lists(s: seq<nat>, S: iset<nat>, lo: int, hi: int) {
    && Ascending(s) && (forall i :: 0 <= i < |s| ==> lo <= s[i] < hi && s[i] in S)
    && forall k: nat :: k in S && lo <= k < hi ==> k in s
  }

  lemma {:induction false} ListsStart(S: iset<nat>, lo: int)
    ensures Lists([], S, lo, lo)
  {}

  lemma {:induction false} ListsSkip(s: seq<nat>, S: iset<nat>, lo: int, mid: int, hi: int)
    requires Lists(s, S, lo, mid) && mid <= hi && Skips(S, mid, hi)
    ensures Lists(s, S, lo, hi)
  {
    forall k: nat | k in S && lo <= k < hi ensures k in s {}
  }

  lemma {:induction false} ListsOne(s: seq<nat>, S: iset<nat>, lo: int, k: nat)
    requires Lists(s, S, lo, k) && k in S && lo <= k
    ensures Lists(s + [k], S, lo, k + 1)
  {
    forall j: nat | j in S && lo <= j < k + 1
      ensures j in s + [k]
    {
      if j < k { assert j in s; } else { assert (s + [k])[|s|] == k; }
    }
  }

  /** Between two chunks: the indices below pos have been visited, and the next chunk is looked for from there. */
  ghost predicate Between(iter: RxIter, pos: int)
    reads iter
  {
    0 <= pos <= TWO64 && iter.next_index == pos % TWO64 && (pos == TWO64 ==> iter.index != 0)
        && (iter.next_index == 0 && iter.index != 0 ==> pos == TWO64)
  }

  /** The next slot to visit: `slot || (slot = radix_tree_next_chunk(root, iter, flags))`. */
  method Chunk(root: RxRoot, iter: RxIter, slot0: Slot, tagged: bool, tag: nat, ghost visited: seq<nat>,
          ghost start: nat, ghost pos: int) returns (slot: Slot)
    requires Valid(root) && (root.idr ==> !tagged) && tag < 3
      && Lists(visited, Goal(root.items, root.tagged, tagged, tag), start, pos) && start <= pos
    requires if slot0.NoSlot? then Between(iter, pos)
      else
        && StandsAt(root, iter, slot0, tagged, tag) && pos == iter.index
        && iter.index in Goal(root.items, root.tagged, tagged, tag)
    modifies iter
    ensures slot.NoSlot? ==> Lists(visited, Goal(root.items, root.tagged, tagged, tag), start, TWO64)
    ensures !slot.NoSlot? ==>
      && StandsAt(root, iter, slot, tagged, tag) && start <= pos <= iter.index
      && iter.index in Goal(root.items, root.tagged, tagged, tag)
    ensures !slot.NoSlot? ==> Lists(visited, Goal(root.items, root.tagged, tagged, tag), start, iter.index)
  {
    hide Good, Goal, Skips, Lists, StandsAt, RxRoot.Now;
    slot := slot0;
    if slot.NoSlot? {
      slot := NextChunk(root, iter, tagged, tag);
      if slot.NoSlot? {
        if pos < TWO64 { ListsSkip(visited, Goal(root.items, root.tagged, tagged, tag), start, pos, TWO64); }
      } else {
        ListsSkip(visited, Goal(root.items, root.tagged, tagged, tag), start, pos, iter.index);
      }
    }
  }

  /** slot = radix_tree_next_slot(slot, iter, flags), after the visit. */
  method Advance(root: RxRoot, iter: RxIter, slot0: Slot, tagged: bool, tag: nat, ghost visited: seq<nat>,
          ghost start: nat) returns (slot: Slot, ghost pos: int)
    requires Valid(root) && (root.idr ==> !tagged) && tag < 3 && StandsAt(root, iter, slot0, tagged, tag)
    requires start <= iter.index
    requires Lists(visited, Goal(root.items, root.tagged, tagged, tag), start, iter.index + 1)
    modifies iter
    ensures start <= pos && Lists(visited, Goal(root.items, root.tagged, tagged, tag), start, pos)
      && old(iter.index) < pos
    ensures if slot.NoSlot? then Between(iter, pos)
      else
        && StandsAt(root, iter, slot, tagged, tag) && pos == iter.index
        && iter.index in Goal(root.items, root.tagged, tagged, tag)
  {
    hide Good, Goal, Skips, Lists, StandsAt, RxRoot.Now;
    ChunkFits(root, iter, slot0, tagged, tag);
    ghost var i0, end := iter.index, ChunkEnd(slot0);
    ChunkLong(root, iter, slot0, tagged, tag);
    slot := NextSlot(root, iter, slot0, tagged, tag);
    pos := if slot.NoSlot? then end else iter.index;
    ListsSkip(visited, Goal(root.items, root.tagged, tagged, tag), start, i0 + 1, pos);
  }

  /** The last chunk there can be does not begin at index 0. */
  lemma {:induction false} ChunkLong(root: RxRoot, iter: RxIter, slot: Slot, tagged: bool, tag: nat)
    requires Valid(root) && StandsAt(root, iter, slot, tagged, tag)
    ensures ChunkEnd(slot) == TWO64 ==> iter.index != 0
  {
    hide Good;
    ChunkFits(root, iter, slot, tagged, tag);
  }

  /**
   * radix_tree_for_each_slot, or radix_tree_for_each_tagged: every index from start on, once and in order. An IDR is
   * gone through without tags; ids in use whose entry is NULL are passed over.
   */
  method ForEach(root: RxRoot, start: nat, tagged: bool, tag: nat) returns (visited: seq<nat>)
    requires Valid(root) && (root.idr ==> !tagged) && tag < 3 && start <= ULONG_MAX
    ensures Lists(visited, Goal(root.items, root.tagged, tagged, tag), start, TWO64)
    ensures !tagged && !root.idr ==> Lists(visited, Keys(root.items), start, TWO64)
  {
    hide Good, Valid, Goal, Skips, Lists, StandsAt, RxRoot.Now, Keys, ChunkEnd;
    AllShown(root, tag);
    var iter := new RxIter(start);
    visited := [];
    var slot := NoSlot;
    ghost var pos: int := start;
    ListsStart(Goal(root.items, root.tagged, tagged, tag), start);
    while true
      invariant fresh(iter) && Lists(visited, Goal(root.items, root.tagged, tagged, tag), start, pos) && start <= pos
      invariant if slot.NoSlot? then Between(iter, pos)
        else
          && StandsAt(root, iter, slot, tagged, tag) && pos == iter.index
          && iter.index in Goal(root.items, root.tagged, tagged, tag)
      decreases TWO64 - pos
    {
      slot := Chunk(root, iter, slot, tagged, tag, visited, start, pos);
      if slot.NoSlot? { return; }
      ListsOne(visited, Goal(root.items, root.tagged, tagged, tag), start, iter.index);
      ChunkFits(root, iter, slot, tagged, tag);
      visited := visited + [iter.index];
      slot, pos := Advance(root, iter, slot, tagged, tag, visited, start);
    }
  }

  /** The entries of the listed indices. */
  ghost predicate EntriesOf(results: seq<Entry>, keys: seq<nat>, M: map<nat, Entry>) {
    |results| == |keys| && forall i :: 0 <= i < |keys| ==> results[i] == At(M, keys[i]) && results[i] != Null
  }

  lemma {:induction false} EntriesMore(results: seq<Entry>, keys: seq<nat>, M: map<nat, Entry>, k: nat)
    requires EntriesOf(results, keys, M) && At(M, k) != Null
    ensures EntriesOf(results + [At(M, k)], keys + [k], M)
  {}

  /** rcu_dereference_raw(*slot) */
  method Deref(root: RxRoot, iter: RxIter, slot: Slot, tagged: bool, tag: nat) returns (entry: Entry)
    requires Valid(root) && (root.idr ==> !tagged) && tag < 3 && StandsAt(root, iter, slot, tagged, tag)
      && iter.index in Goal(root.items, root.tagged, tagged, tag)
    ensures entry == At(root.items, iter.index) && entry != Null
  {
    hide Linked, Counted;
    ghost var h, M := root.Now(), root.items;
    ValidParts(root);
    GoalShown(M, root.tagged, tagged, tag, h);
    match slot
    case RootSlot =>
      entry := root.rnode;
    case NodeSlot(node, offset) =>
      BasicAt(h, node);
      entry := node.slots[offset];
      if h.m[node].slots[offset].Child? { ChildAt(h, node, offset); }
      AtLeaf(h, M, node, iter.index);
  }

  /** radix_tree_gang_lookup and radix_tree_gang_lookup_tag: the first maxItems entries from an index on. */
  method GangLookup(root: RxRoot, first: nat, maxItems: nat, tagged: bool, tag: nat)
    returns (results: seq<Entry>, ghost keys: seq<nat>)
    requires Valid(root) && (root.idr ==> !tagged) && tag < 3 && first <= ULONG_MAX
    ensures EntriesOf(results, keys, root.items) && |results| <= maxItems
    ensures var end := if |keys| < maxItems then TWO64 else if maxItems == 0 then first else keys[maxItems - 1] + 1;
      Lists(keys, Goal(root.items, root.tagged, tagged, tag), first, end)
  {
    hide Good, Goal, Skips, Lists, StandsAt, RxRoot.Now, EntriesOf;
    results, keys := [], [];
    ListsStart(Goal(root.items, root.tagged, tagged, tag), first);
    EntriesNone(root.items);
    if maxItems == 0 { return; }
    var iter := new RxIter(first);
    var slot := NoSlot;
    ghost var pos: int := first;
    while true
      invariant fresh(iter) && Lists(keys, Goal(root.items, root.tagged, tagged, tag), first, pos) && first <= pos
      invariant if slot.NoSlot? then Between(iter, pos)
        else
          && StandsAt(root, iter, slot, tagged, tag) && pos == iter.index
          && iter.index in Goal(root.items, root.tagged, tagged, tag)
      invariant EntriesOf(results, keys, root.items) && |results| == |keys| < maxItems
      decreases TWO64 - pos
    {
      slot := Chunk(root, iter, slot, tagged, tag, keys, first, pos);
      if slot.NoSlot? { return; }
      var entry := Deref(root, iter, slot, tagged, tag);
      EntriesMore(results, keys, root.items, iter.index);
      ListsOne(keys, Goal(root.items, root.tagged, tagged, tag), first, iter.index);
      ChunkFits(root, iter, slot, tagged, tag);
      results, keys := results + [entry], keys + [iter.index];
      if |results| == maxItems { return; }
      slot, pos := Advance(root, iter, slot, tagged, tag, keys, first);
    }
  }

  lemma {:induction false} EntriesNone(M: map<nat, Entry>)
    ensures EntriesOf([], [], M)
  {}
}
