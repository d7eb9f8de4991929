/** Making a slot for an index, and inserting an entry (radix-tree.c:827-876, 976-1029). */
module RxInsert {
  import opened CTypes
  import opened RxModel
  import opened RxHeap
  import opened RxSteps
  import opened RxShape
  import opened RxSnug
  import opened RxNeed
  import opened RxTree

  /** The level below slot `offset` of node, or below the root when node is null, has no node yet. */
  ghost predicate Gap(h: Shot, M: map<nat, Entry>, node: RxNode?, offset: nat, shift: nat) {
    if node == null then h.top == Null && M == map[] && shift % 6 == 0 && shift <= 60
    else
      && node in h.m && offset < 64 && |h.m[node].slots| == 64 && h.m[node].slots[offset] == Null
      && h.m[node].shift == shift + 6 && Fits(Lead(h.m[node], offset), shift)
  }

  /** The new child is in place. */
  ghost predicate Filled(g: Shot, h: Shot, node: RxNode?, offset: nat, shift: nat, c: RxNode) {
    if node == null then Planted(g, h, c, shift) else Sprouted(g, h, node, offset, c)
  }

  ghost function GapPrefix(h: Shot, node: RxNode?,
          offset: nat): nat { if node != null && node in h.m then Lead(h.m[node], offset) else 0 }

  /** The new child before it is linked. */
  ghost function ChildRec(g: Shot, node: RxNode?, offset: nat, shift: nat, idr: bool): Rec {
    Zeroed(shift, if node == null then 0 else offset, 0, node,
        GapPrefix(g, node, offset)).(tags := [if idr then AllBits(64) else {}, {}, {}])
  }

  /** Allocates a child; in an IDR all its ids are free (radix-tree.c:853-858, 2185-2191). */
  method NewChild(root: RxRoot, mem: Allocator, node: RxNode?, offset: nat, shift: nat) returns (child: RxNode?)
    modifies root`pool, mem
    ensures child == null ==>
      mem.left == 0 == old(mem.left) && root.pool == old(root.pool) && root.Now() == old(root.Now())
    ensures child != null ==>
      && mem.left == old(mem.left) - 1 && fresh(child) && child !in old(root.pool)
      && root.pool == old(root.pool) + {child} && child.shift == shift
      && root.Now() == PutRec(old(root.Now()), child, ChildRec(old(root.Now()), node, offset, shift, root.idr))
  {
    hide RxRoot.Now, GapPrefix;
    ghost var g := root.Now();
    child := root.NodeAlloc(mem, shift, if node == null then 0 else offset, 0, node, GapPrefix(g, node, offset));
    if child == null { return; }
    root.ReadsAt(child);
    assert root.Now().m[child].tags == child.tags == NoTags();
    if root.idr {
      root.SetTag(child, 0, AllBits(64));
      assert NoTags()[0 := AllBits(64)] == [AllBits(64), {}, {}];
    }
    root.ReadsAt(child);
  }

  /** Allocates a child below a slot and links it (radix-tree.c:853-861, 2185-2194). */
  method AddChild(root: RxRoot, mem: Allocator, node: RxNode?, offset: nat, shift: nat) returns (child: RxNode?)
    requires Valid(root) && Gap(root.Now(), root.items, node, offset, shift)
    modifies root, root.pool, mem
    ensures Valid(root) && root.items == old(root.items) && root.tagged == old(root.tagged)
    ensures child == null ==>
      mem.left == 0 == old(mem.left) && root.pool == old(root.pool) && root.Now() == old(root.Now())
    ensures child != null ==>
      && mem.left == old(mem.left) - 1 && fresh(child) && root.pool == old(root.pool) + {child} && child.shift == shift
      && Filled(old(root.Now()), root.Now(), node, offset, shift, child)
    ensures node != null ==> HeightShift(root.Now()) == old(HeightShift(root.Now()))
  {
    hide Good, ChildRec, Filled, RxRoot.Now;
    ghost var g := root.Now();
    root.Reads();
    child := NewChild(root, mem, node, offset, shift);
    if child == null { return; }
    ghost var g1 := root.Now();
    root.ReadsAt(child);
    if node == null {
      root.SetTop(Child(child));
    } else {
      root.Reads(); root.ReadsAt(node);
      assert g1.m[node] == g.m[node];
      root.SetSlot(node, offset, Child(child));
      root.SetCount(node, node.count + 1);
    }
    AddDone(g, g1, root.Now(), node, offset, shift, child, root.items, root.tagged, root.idr);
    if node != null { FilledHeight(g, root.Now(), node, offset, shift, child, root.items, root.tagged, root.idr); }
  }

  lemma {:induction false} FilledHeight(g: Shot, h: Shot, node: RxNode, offset: nat, shift: nat, c: RxNode, M: map<nat,
          Entry>, T: seq<iset<nat>>, idr: bool)
    requires Good(g, M, T, idr) && Filled(g, h, node, offset, shift, c)
    ensures HeightShift(h) == HeightShift(g)
  {
    hide NodeOk;
  }

  lemma {:induction false} FilledTidy(g: Shot, h: Shot, node: RxNode?, offset: nat, shift: nat, c: RxNode)
    requires Filled(g, h, node, offset, shift, c) && Tidy(g, null) && c in h.m && h.m[c].shift == shift
    ensures Tidy(h, if shift == 0 then c else null)
  {
    hide Tidy;
    if node == null { TidyPlanted(g, h, c, shift); } else { TidySprouted(g, h, node, offset, c); }
  }

  lemma {:induction false} TidyLess(h: Shot, but: RxNode?)
    requires Tidy(h, null)
    ensures Tidy(h, but)
  {}

  lemma {:induction false} AddDone(g: Shot, g1: Shot, h: Shot, node: RxNode?, offset: nat, shift: nat, c: RxNode,
          M: map<nat, Entry>, T: seq<iset<nat>>, idr: bool)
    requires Good(g, M, T, idr) && Gap(g, M, node, offset, shift) && c !in g.m
    requires g1 == PutRec(g, c, ChildRec(g, node, offset, shift, idr))
    requires node == null ==> h == PutTop(g1, Child(c))
    requires node != null ==> h == PutCount(PutSlot(g1, node, offset, Child(c)), node, g1.m[node].count + 1)
    ensures Good(h, M, T, idr) && Filled(g, h, node, offset, shift, c)
  {
    hide Good;
    AllBitsAre(64);
    assert FreshTags(h.m[c], idr);
    if node == null {
      EmptyNodes(g, M, T, idr);
      assert Planted(g, h, c, shift);
      PlantedGood(g, h, c, shift, T, idr);
    } else {
      assert Sprouted(g, h, node, offset, c);
      SproutedGood(g, h, node, offset, c, M, T, idr);
    }
  }

  lemma {:induction false} EmptyNodes(h: Shot, M: map<nat, Entry>, T: seq<iset<nat>>, idr: bool)
    requires Good(h, M, T, idr) && h.top == Null
    ensures h.m == map[]
  {
    NoNodes(h);
  }

  /** Where __radix_tree_create is: about to look at the entry of slot `offset` of node, or of the root. */
  ghost predicate AtSlot(h: Shot, node: RxNode?, offset: nat, child: Entry, shift: nat, index: nat) {
    if node == null then
      && child == h.top
      && (child.Child? ==> child.n in h.m && Covers(h.m[child.n], index) && h.m[child.n].shift + 6 == shift)
    else
      && node in h.m && Covers(h.m[node], index) && offset == Digit(h.m[node], index) && h.m[node].shift == shift
      && |h.m[node].slots| == 64 && child == h.m[node].slots[offset]
  }

  lemma {:induction false} Descend(h: Shot, node: RxNode, index: nat)
    requires Linked(h) && node in h.m && Covers(h.m[node], index)
    ensures AtSlot(h, node, Digit(h.m[node], index),
        if |h.m[node].slots| == 64 then h.m[node].slots[Digit(h.m[node], index)] else Null, h.m[node].shift, index)
    ensures h.m[node].shift <= 60 && h.m[node].shift % 6 == 0 && |h.m[node].slots| == 64
  {
    hide Linked;
    BasicAt(h, node);
  }

  /** Above the bottom level a slot holds a child, whose shift is given, or nothing. */
  lemma {:induction false} NextDown(h: Shot, M: map<nat, Entry>, node: RxNode?, offset: nat, child: Entry, shift: nat,
          index: nat)
    requires Linked(h) && Holds(h, M) && AtSlot(h, node, offset, child, shift + 6, index)
    requires node == null ==> child.Child? || (child == Null && M == map[] && shift % 6 == 0 && shift <= 60)
    requires index < LIMIT
    ensures child.Child? || child == Null
    ensures child.Child? ==> child.n in h.m && Covers(h.m[child.n], index) && h.m[child.n].shift == shift
    ensures child == Null ==> Gap(h, M, node, offset, shift) && index !in M
    ensures node != null ==> shift % 6 == 0 && shift <= 54
  {
    hide Linked, Holds;
    if node != null {
      BasicAt(h, node);
      NotItem(h, node, offset);
      CoversLeads(h.m[node], index);
      FitsLead(h.m[node], offset, index);
      if child.Child? { ChildAt(h, node, offset); } else { NotBelow(h, M, node, index); }
    }
  }

  /** An empty slot above the bottom means that its indices are not in use. */
  lemma {:induction false} NotBelow(h: Shot, M: map<nat, Entry>, n: RxNode, index: nat)
    requires Holds(h, M) && n in h.m && |h.m[n].slots| == 64 && h.m[n].shift > 0 && Covers(h.m[n], index)
    requires !h.m[n].slots[Digit(h.m[n], index)].Child?
    ensures index !in M
  {
    CoversLeads(h.m[n], index);
    assert SlotHolds(h.m[n], Digit(h.m[n], index), M);
    if index in M { AnyIn(Keys(M), h.m[n].shift, index); }
  }

  lemma {:induction false} FilledCovers(g: Shot, h: Shot, node: RxNode?, offset: nat, shift: nat, c: RxNode, index: nat)
    requires Filled(g, h, node, offset, shift, c)
    requires node == null ==> Shr(index, shift + 6) == 0
    requires node != null ==>
      Covers(g.m[node], index) && offset == Digit(g.m[node], index) && g.m[node].shift == shift + 6
    ensures c in h.m && Covers(h.m[c], index) && h.m[c].shift == shift
  {
    if node != null { CoversLeads(g.m[node], index); }
  }

  lemma {:induction false} FilledKept(g: Shot, h: Shot, node: RxNode?, offset: nat, shift: nat, c: RxNode, M: map<nat,
          Entry>, index: nat)
    requires Filled(g, h, node, offset, shift, c)
    requires node == null ==> Shr(index, shift + 6) == 0 && Shr(index, shift) > 0
    requires node != null ==> Covers(g.m[node], index) && offset == Digit(g.m[node], index)
    ensures SnugKept(g, h, M, index)
  {
    hide SnugKept, Planted, Sprouted;
    if node == null { KeptPlanted(g, h, c, shift, M, index); } else { KeptSprouted(g, h, node, offset, c, M, index); }
  }

  lemma {:induction false} FilledMissing(g: Shot, h: Shot, node: RxNode?, offset: nat, shift: nat, c: RxNode,
          M: map<nat, Entry>, index: nat)
    requires Linked(g) && Gap(g, M, node, offset, shift) && Filled(g, h, node, offset, shift, c)
    requires node == null ==> Shr(index, shift + 6) == 0 && Shr(index, shift) > 0
    requires node != null ==> Covers(g.m[node], index) && offset == Digit(g.m[node], index)
    ensures Missing(h, M, index) + 1 == Missing(g, M, index)
  {
    hide Planted, Sprouted, Missing, Linked;
    if node == null {
      ReachIs(index, 0, shift);
      PlantedMissing(g, h, c, shift, M, index);
    } else {
      SproutedMissing(g, h, node, offset, c, M, index);
    }
  }

  lemma {:induction false} StillMissing(h: Shot, M: map<nat, Entry>, node: RxNode?, offset: nat, shift: nat, index: nat)
    requires Linked(h) && Gap(h, M, node, offset, shift)
    requires node == null ==> Shr(index, shift) > 0
    requires node != null ==> Covers(h.m[node], index) && offset == Digit(h.m[node], index)
    ensures Missing(h, M, index) > 0
  {
    hide Missing, Linked;
    if node == null {
      if index == 0 { ShrZero(shift); }
      RangeMissing(h, M, index);
    } else {
      GapMissing(h, M, node, index);
    }
  }

  /** The slot of an index exists: the root itself, or a slot of a bottom node. */
  ghost predicate SlotFor(h: Shot, node: RxNode?, offset: nat, index: nat) {
    if node == null then !h.top.Child? && index == 0
    else
      && node in h.m && h.m[node].shift == 0 && |h.m[node].slots| == 64
      && Covers(h.m[node], index) && offset == Digit(h.m[node], index)
  }

  lemma {:induction false} SlotReached(h: Shot, node: RxNode?, offset: nat, child: Entry, index: nat)
    requires Linked(h) && AtSlot(h, node, offset, child, 0, index)
    requires node == null ==> child.Child? || index == 0
    ensures SlotFor(h, node, offset, index)
  {}

  /** Below the top, x and 2^64 + x have the same digits. */
  lemma {:induction false} WrapDigits(x: nat, s: nat)
    requires s % 6 == 0 && s <= 60
    ensures Shr(TWO64 + x, s) == Shl(16, 60 - s) + Shr(x, s)
    ensures s <= 54 ==> Shr(TWO64 + x, s) % 64 == Shr(x, s) % 64
  {
    hide Shr, Shl;
    ShlCompose(16, 60 - s, s);
    ShlTop(16);
    ShrAdd(Shl(16, 60 - s), x, s);
    if s <= 54 { ShlWhole(16, 60 - s); }
  }

  /** The node in a slot above the bottom, or a new one where there is none. */
  method NextNode(root: RxRoot, mem: Allocator, node0: RxNode?, offset0: nat, child0: Entry, shift: nat, ghost at: nat)
    returns (node: RxNode?)
    requires Valid(root) && AtSlot(root.Now(), node0, offset0, child0, shift + 6, at) && at < LIMIT
    requires node0 == null ==> child0.Child? || (child0 == Null && root.items == map[] && shift % 6 == 0 && shift <= 60)
    requires node0 == null && child0 == Null ==> Shr(at, shift + 6) == 0 && Shr(at, shift) > 0
    modifies root, root.pool, mem
    ensures Valid(root) && root.items == old(root.items) && root.tagged == old(root.tagged)
    ensures fresh(root.pool - old(root.pool)) && old(root.pool) <= root.pool
    ensures SnugKept(old(root.Now()), root.Now(), root.items, at)
    ensures Paid(old(root.Now()), old(mem.left), root.Now(), mem.left, root.items, at)
    ensures node == null ==> mem.left == 0 == old(mem.left) && root.Now() == old(root.Now()) && at !in root.items
    ensures node == null ==> Missing(root.Now(), root.items, at) > 0
    ensures node != null ==>
      node in root.Now().m && Covers(root.Now().m[node], at) && root.Now().m[node].shift == shift
    ensures old(mem.left) - 1 <= mem.left <= old(mem.left)
    ensures at in root.items || child0 != Null ==> mem.left == old(mem.left) && root.Now() == old(root.Now())
    ensures node0 != null || child0 != Null ==> HeightShift(root.Now()) == old(HeightShift(root.Now()))
    ensures Tidy(old(root.Now()), null) && node != null ==> Tidy(root.Now(), if shift == 0 then node else null)
  {
    hide Tidy, Good, Linked, Holds, Gap, Filled, SnugKept, RxRoot.Now, Paid, Missing;
    ghost var g := root.Now();
    ValidParts(root);
    NextDown(g, root.items, node0, offset0, child0, shift, at);
    KeptNothing(g, root.items, at);
    PaidNothing(g, mem.left, root.items, at);
    if child0 == Null {
      StillMissing(g, root.items, node0, offset0, shift, at);
      node := AddChild(root, mem, node0, offset0, shift);
      if node == null { return; }
      FilledMissing(g, root.Now(), node0, offset0, shift, node, root.items, at);
      PaidOne(g, old(mem.left), root.Now(), mem.left, root.items, at);
      FilledCovers(g, root.Now(), node0, offset0, shift, node, at);
      FilledKept(g, root.Now(), node0, offset0, shift, node, root.items, at);
      if Tidy(g, null) { FilledTidy(g, root.Now(), node0, offset0, shift, node); }
    } else {
      node := child0.n;
      if Tidy(g, null) { TidyLess(g, node); }
    }
  }

  /**
   * One turn of the loop that goes down. `at` is the index as a number; index is what an unsigned long has of it,
   * which below the top leads the same way.
   */
  method StepDown(root: RxRoot, mem: Allocator, node0: RxNode?, offset0: nat, child0: Entry, shift: nat, index: nat,
          ghost at: nat)
    returns (node: RxNode?, offset: nat, child: Entry)
    requires Valid(root) && AtSlot(root.Now(), node0, offset0, child0, shift + 6, at)
    requires at == index <= ULONG_MAX || (TWO64 <= at == TWO64 + index < LIMIT && shift <= 54 && node0 != null)
    requires node0 == null ==> child0.Child? || (child0 == Null && root.items == map[] && shift % 6 == 0 && shift <= 60)
    requires node0 == null && child0 == Null ==> Shr(at, shift + 6) == 0 && Shr(at, shift) > 0
    modifies root, root.pool, mem
    ensures Valid(root) && root.items == old(root.items) && root.tagged == old(root.tagged)
    ensures fresh(root.pool - old(root.pool)) && old(root.pool) <= root.pool
    ensures SnugKept(old(root.Now()), root.Now(), root.items, at)
    ensures Paid(old(root.Now()), old(mem.left), root.Now(), mem.left, root.items, at)
    ensures node == null ==> mem.left == 0 == old(mem.left) && root.Now() == old(root.Now()) && at !in root.items
    ensures node == null ==> Missing(root.Now(), root.items, at) > 0
    ensures node != null ==> AtSlot(root.Now(), node, offset, child, shift, at) && shift <= 60 && shift % 6 == 0
    ensures old(mem.left) - 1 <= mem.left <= old(mem.left)
    ensures at in root.items || child0 != Null ==> mem.left == old(mem.left) && root.Now() == old(root.Now())
    ensures node0 != null || child0 != Null ==> HeightShift(root.Now()) == old(HeightShift(root.Now()))
    ensures Tidy(old(root.Now()), null) && node != null ==> Tidy(root.Now(), if shift == 0 then node else null)
  {
    hide Tidy, Good, Linked, SnugKept, RxRoot.Now, Paid, Missing;
    node := NextNode(root, mem, node0, offset0, child0, shift, at);
    if node == null { return null, 0, Null; }
    ValidParts(root);
    Descend(root.Now(), node, at);
    if at != index { WrapDigits(index, shift); }
    root.Reads(); root.ReadsAt(node);
    offset := Shr(index, node.shift) % 64;
    child := node.slots[offset];
  }

  lemma {:induction false} AtTop(h: Shot, M: map<nat, Entry>, index: nat)
    requires Linked(h) && TopHolds(h, M)
    ensures InRange(h, index) ==> AtSlot(h, null, 0, h.top, HeightShift(h), index)
    ensures InRange(h, index) && !h.top.Child? ==> index == 0 && HeightShift(h) == 0
    ensures !h.top.Child? ==> forall s :: AtSlot(h, null, 0, h.top, s, index)
    ensures !InRange(h, index) ==> index !in M
    ensures HeightShift(h) % 6 == 0 && HeightShift(h) <= 66
  {
    hide Linked;
    HeightDigits(h);
    if h.top.Child? { TopAt(h); }
  }

  /** An empty tree gets its nodes from the loop: at the level that radix_tree_extend has found. */
  lemma {:induction false} FirstLevel(h: Shot, index: nat, shift: nat)
    requires Linked(h) && !InRange(h, index) && shift >= 6 && Reaches(index, HeightShift(h), shift - 6)
    ensures shift % 6 == 0 && 6 <= shift <= 66 && Shr(index, shift) == 0 && Shr(index, shift - 6) > 0
  {
    hide Linked;
    RangeShift(h, index);
  }

  /** What the root holds for an index in range: a node, the entry itself, or nothing in an empty tree. */
  ghost predicate TopEntry(child: Entry, M: map<nat, Entry>, shift: nat, index: nat) {
    || child.Child? || (shift == 0 && index == 0)
    || (child == Null && M == map[] && 6 <= shift && Shr(index, shift) == 0 && Shr(index, shift - 6) > 0)
  }

  /** The beginning of __radix_tree_create: the tree is made high enough. */
  method MakeRoom(root: RxRoot, mem: Allocator, index: nat) returns (enomem: bool, child: Entry, shift: nat)
    requires Valid(root) && index <= ULONG_MAX
    modifies root, root.pool, mem
    ensures Valid(root) && root.items == old(root.items) && root.tagged == old(root.tagged)
    ensures fresh(root.pool - old(root.pool)) && old(root.pool) <= root.pool
    ensures GrowthKept(old(root.Now()), root.Now(), root.items, index)
    ensures Paid(old(root.Now()), old(mem.left), root.Now(), mem.left, root.items, index)
    ensures enomem ==> mem.left == 0 && index !in root.items && Missing(root.Now(), root.items, index) > 0
    ensures !enomem ==> AtSlot(root.Now(), null, 0, child, shift, index) && shift % 6 == 0 && shift <= 66
    ensures !enomem ==> TopEntry(child, root.items, shift, index)
    ensures index in root.items ==> root.Now() == old(root.Now())
    ensures enomem ==> old(mem.left) <= mem.left + 10
    ensures mem.left <= old(mem.left) <= mem.left + 11 && (!enomem && child == Null ==> mem.left == old(mem.left))
  {
    hide Good, Linked, Holds, GrowthKept, Sound, Counted, AtSlot, InRange, HeightShift, Reaches, Paid, Missing;
    ghost var g := root.Now();
    ValidParts(root);
    GrowthNothing(g, root.items, index);
    PaidNothing(g, mem.left, root.items, index);
    AtTop(g, root.items, index);
    var maxindex;
    child, maxindex, shift := LoadRoot(root);
    enomem := false;
    if index > maxindex {
      enomem, shift := Extend(root, mem, index, shift);
      ValidParts(root);
      AtTop(root.Now(), root.items, index);
      if enomem { return; }
      child := root.rnode;
      FirstLevel(g, index, shift);
    }
  }

  lemma {:induction false} GrowthSnug(g: Shot, h: Shot, M: map<nat, Entry>, index: nat)
    requires GrowthKept(g, h, M, index)
    ensures SnugKept(g, h, M, index)
  {}

  /** __radix_tree_create for one index: -ENOMEM, or its slot. */
  method Create(root: RxRoot, mem: Allocator, index: nat) returns (enomem: bool, node: RxNode?, offset: nat)
    requires Valid(root) && index <= ULONG_MAX && !root.idr
    modifies root, root.pool, mem
    ensures Valid(root) && root.items == old(root.items) && root.tagged == old(root.tagged)
    ensures fresh(root.pool - old(root.pool)) && old(root.pool) <= root.pool
    ensures SnugKept(old(root.Now()), root.Now(), root.items, index)
    ensures enomem <==> old(mem.left) < Missing(old(root.Now()), root.items, index)
    ensures enomem ==> mem.left == 0 && index !in root.items
    ensures !enomem ==> old(mem.left) == mem.left + Missing(old(root.Now()), root.items, index)
    ensures !enomem ==> SlotFor(root.Now(), node, offset, index)
    ensures index in root.items ==> root.Now() == old(root.Now())
    ensures mem.left <= old(mem.left) <= mem.left + 21 && (enomem ==> old(mem.left) <= mem.left + 20)
  {
    hide Good, Linked, Holds, SnugKept, Sound, Counted, AtSlot, SlotFor, Paid, Missing;
    ghost var g := root.Now();
    var child, shift;
    enomem, child, shift := MakeRoom(root, mem, index);
    GrowthSnug(g, root.Now(), root.items, index);
    if enomem {
      PaidShort(g, old(mem.left), root.Now(), mem.left, root.items, index);
      return true, null, 0;
    }
    node, offset := null, 0;
    ghost var left := mem.left;
    ghost var top, height := child, shift;
    while shift > 0
      invariant Valid(root) && root.items == old(root.items) && root.tagged == old(root.tagged)
      invariant fresh(root.pool - old(root.pool)) && old(root.pool) <= root.pool
      invariant SnugKept(g, root.Now(), root.items, index)
      invariant Paid(g, old(mem.left), root.Now(), mem.left, root.items, index)
      invariant AtSlot(root.Now(), node, offset, child, shift, index) && shift % 6 == 0 && shift <= height <= 66
      invariant node == null ==> TopEntry(child, root.items, shift, index)
      invariant node == null ==> shift == height && child == top
      invariant index in root.items ==> root.Now() == g
      invariant mem.left <= left
        && 6 * (left - mem.left) + (if node != null && top != Null then 6 else 0) <= height - shift
      decreases shift
    {
      ghost var h, before := root.Now(), mem.left;
      shift := shift - 6;
      node, offset, child := StepDown(root, mem, node, offset, child, shift, index, index);
      KeptBoth(g, h, root.Now(), root.items, index);
      PaidBoth(g, old(mem.left), h, before, root.Now(), mem.left, root.items, index);
      if node == null {
        PaidShort(g, old(mem.left), root.Now(), mem.left, root.items, index);
        return true, null, 0;
      }
    }
    ValidParts(root);
    SlotReached(root.Now(), node, offset, child, index);
    PaidAll(g, old(mem.left), root.Now(), mem.left, root.items, node, offset, index);
  }

  /** The allocator has run dry before all was there. */
  lemma {:induction false} PaidShort(g: Shot, left: nat, h: Shot, left': nat, M: map<nat, Entry>, index: nat)
    requires Paid(g, left, h, left', M, index) && left' == 0 && Missing(h, M, index) > 0
    ensures left < Missing(g, M, index)
  {
    hide Missing;
  }

  /** The slot is there: exactly what was missing has been taken. */
  lemma {:induction false} PaidAll(g: Shot, left: nat, h: Shot, left': nat, M: map<nat, Entry>, node: RxNode?,
          offset: nat, index: nat)
    requires Paid(g, left, h, left', M, index) && Linked(h) && SlotFor(h, node, offset, index)
    ensures left == left' + Missing(g, M, index)
  {
    hide Missing, Linked;
    SlotMissing(h, M, node, index);
  }

  // ---- radix_tree_insert ----

  datatype Inserted = Ok | Exists | NoMemory

  /** RADIX_TREE_PRELOAD_SIZE */
  const PRELOAD_SIZE: int := 21

  /** The entry in a slot. */
  method EntryAt(root: RxRoot, node: RxNode?, offset: nat) returns (entry: Entry)
    requires node != null ==> node in root.pool && offset < |node.slots|
    ensures entry == if node == null then root.rnode else node.slots[offset]
  {
    entry := if node == null then root.rnode else node.slots[offset];
  }

  /** What a store to the slot of an index promises: tags and canonical form are not touched. */
  ghost predicate Stored(g: Shot, h: Shot) {
    && (forall t, S :: TagOk(g, t, S) ==> TagOk(h, t, S))
    && forall K :: AsSnug(g, h, K)
  }

  /** The store when the slot is root->rnode. */
  method StoreTop(root: RxRoot, entry: Entry, ghost M': map<nat, Entry>)
    requires Sound(root.Now(), root.items) && !root.rnode.Child?
    requires !entry.Child? && SameElse(root.items, M', 0) && At(M', 0) == entry
    modifies root
    ensures root.pool == old(root.pool) && root.items == M' && root.tagged == old(root.tagged) && Sound(root.Now(), M')
    ensures Stored(old(root.Now()), root.Now()) && root.rnode == entry && root.Now() == PutTop(old(root.Now()), entry)
  {
    hide Sound, TagOk, Snug, RxRoot.Now;
    ghost var g, M := root.Now(), root.items;
    root.Reads();
    root.items := M';
    root.SetTop(entry);
    ghost var h := root.Now();
    SoundParts(g, M);
    TopSound(g, h, M, M', entry);
    forall t, S | TagOk(g, t, S) ensures TagOk(h, t, S) { TopTag(g, h, entry, t, S); }
    forall K ensures AsSnug(g, h, K) { TopSnug(g, h, entry, K); }
  }

  /** The store to a slot of a bottom node, with the count. */
  method StoreLeaf(root: RxRoot, node: RxNode, offset: nat, entry: Entry, count: int, ghost index: nat,
          ghost M': map<nat, Entry>)
    requires Sound(root.Now(), root.items) && SlotFor(root.Now(), node, offset, index) && index < LIMIT
    requires !entry.Child? && SameElse(root.items, M', index) && At(M', index) == entry
    requires count == (if index in M' then 1 else 0) - (if index in root.items then 1 else 0)
    modifies root`items, node
    ensures root.items == M' && root.tagged == old(root.tagged) && Sound(root.Now(), M')
    ensures Stored(old(root.Now()), root.Now()) && LeafPut(old(root.Now()), root.Now(), node, index, entry)
  {
    hide Sound, TagOk, Snug, RxRoot.Now;
    ghost var g, M := root.Now(), root.items;
    root.Reads(); root.ReadsAt(node);
    root.items := M';
    root.SetSlot(node, offset, entry);
    root.SetCount(node, node.count + count);
    ghost var h := root.Now();
    assert LeafPut(g, h, node, index, entry);
    LeafStored(g, h, node, index, entry, M, M');
  }

  lemma {:induction false} LeafStored(g: Shot, h: Shot, node: RxNode, index: nat, entry: Entry, M: map<nat, Entry>,
          M': map<nat, Entry>)
    requires Sound(g, M) && LeafPut(g, h, node, index, entry) && SameElse(M, M', index) && At(M', index) == entry
      && index < LIMIT
    requires h.m[node].count == g.m[node].count + (if index in M' then 1 else 0) - (if index in M then 1 else 0)
    ensures Sound(h, M') && Stored(g, h)
  {
    hide Sound, TagOk, Snug, LeafPut, SameElse, Holds, Counted, Linked;
    SoundParts(g, M);
    LeafSound(g, h, M, M', node, index, entry);
    forall t, S | TagOk(g, t, S) ensures TagOk(h, t, S) { LeafTags(g, h, node, index, entry, t, S); }
    forall K ensures AsSnug(g, h, K) { LeafSnug(g, h, node, index, entry, K); }
  }

  /** *slot = entry, and node->count += count: the entry of index changes, and nothing else. */
  method StoreEntry(root: RxRoot, node: RxNode?, offset: nat, entry: Entry, count: int, ghost index: nat,
          ghost M': map<nat, Entry>)
    requires Sound(root.Now(), root.items) && SlotFor(root.Now(), node, offset, index) && index < LIMIT
    requires !entry.Child? && SameElse(root.items, M', index) && At(M', index) == entry
    requires node != null ==> count == (if index in M' then 1 else 0) - (if index in root.items then 1 else 0)
    modifies root, root.pool
    ensures root.pool == old(root.pool) && root.items == M' && root.tagged == old(root.tagged) && Sound(root.Now(), M')
    ensures Stored(old(root.Now()), root.Now())
    ensures node == null ==> root.Now() == PutTop(old(root.Now()), entry)
    ensures node != null ==> LeafPut(old(root.Now()), root.Now(), node, index, entry)
  {
    hide Sound, Stored, LeafPut;
    if node == null {
      StoreTop(root, entry, M');
    } else {
      StoreLeaf(root, node, offset, entry, count, index, M');
    }
  }

  lemma {:induction false} TopTag(g: Shot, h: Shot, e: Entry, t: nat, S: iset<nat>)
    requires Linked(g) && !g.top.Child? && !e.Child? && h == PutTop(g, e) && TagOk(g, t, S)
    ensures TagOk(h, t, S)
  {
    NoNodes(g);
    forall j ensures InRange(h, j) <==> InRange(g, j) {}
  }

  lemma {:induction false} TopSnug(g: Shot, h: Shot, e: Entry, K: iset<nat>)
    requires !e.Child? && h == PutTop(g, e)
    ensures AsSnug(g, h, K)
  {}

  lemma {:induction false} LeafSnug(g: Shot, h: Shot, n: RxNode, k: nat, e: Entry, K: iset<nat>)
    requires LeafPut(g, h, n, k, e)
    ensures AsSnug(g, h, K)
  {
    forall m | m in h.m && Lively(g, K)
      ensures Any(K, h.m[m].shift + 6, h.m[m].prefix)
    {
      assert Any(K, g.m[m].shift + 6, g.m[m].prefix);
    }
  }

  lemma {:induction false} LivelyMore(h: Shot, K: iset<nat>, K': iset<nat>)
    requires Lively(h, K) && K <= K'
    ensures Lively(h, K')
  {
    forall n | n in h.m
      ensures Any(K', h.m[n].shift + 6, h.m[n].prefix)
    {
      AnyMono(K, K', h.m[n].shift + 6, h.m[n].prefix);
    }
  }

  lemma {:induction false} SnugMore(h: Shot, K: iset<nat>, K': iset<nat>)
    requires Snug(h, K) && K <= K'
    ensures Snug(h, K')
  {
    LivelyMore(h, K, K');
    if h.top.Child? {
      var k :| k in K && Shr(k, h.m[h.top.n].shift) > 0;
      NeedsOne(K', h.m[h.top.n].shift, k);
    }
  }

  /** The canonical form survives a completed insertion, and so do nodes that are alive. */
  lemma {:induction false} InsertSnug(g: Shot, h: Shot, i: Shot, M: map<nat, Entry>, M': map<nat, Entry>, index: nat)
    requires SnugKept(g, h, M, index) && (forall K :: AsSnug(h, i, K)) && M'.Keys == M.Keys + {index}
    ensures Snug(g, Keys(M)) ==> Snug(i, Keys(M'))
    ensures Snug(g, Keys(M')) ==> Snug(i, Keys(M'))
    ensures Lively(g, Keys(M)) ==> Lively(i, Keys(M'))
  {
    hide Snug, Lively;
    if Snug(g, Keys(M)) { SnugMore(g, Keys(M), Keys(M')); }
    if Lively(g, Keys(M)) { LivelyMore(g, Keys(M), Keys(M')); }
    assert AsSnug(g, h, Keys(M')) && AsSnug(h, i, Keys(M'));
  }

  /** What is in the slot of an index. */
  lemma {:induction false} SlotEntry(h: Shot, M: map<nat, Entry>, T: seq<iset<nat>>, idr: bool, node: RxNode?,
          offset: nat, index: nat)
    requires Good(h, M, T, idr) && SlotFor(h, node, offset, index)
    ensures At(M, index) == if node == null then h.top else h.m[node].slots[offset]
    ensures !idr && index !in M ==> forall t :: 0 <= t < 3 ==> index !in T[t]
    ensures !idr ==> (index in M <==> At(M, index) != Null)
    ensures node != null && index !in M && !idr ==>
      |h.m[node].tags| == 3 && forall t :: 0 <= t < 3 ==> offset !in h.m[node].tags[t]
    ensures node == null && index !in M && !idr ==> forall t :: 0 <= t < 3 ==> t !in h.tags
  {
    if node != null {
      LinkedAt(h, node);
      CoversLeads(h.m[node], index);
      AtLeaf(h, M, node, index);
      forall t | 0 <= t < 3 && index !in T[t] ensures offset !in h.m[node].tags[t] { LeafBit(h, T[t], t, node, index); }
    } else {
      forall t | 0 <= t < 3 && !idr && index !in M
        ensures t !in h.tags
      {
        assert TagOk(h, t, T[t]); assert RootTagged(h, t, T[t]);
      }
    }
  }

  /** A bit at the bottom level is the tag of one index. */
  lemma {:induction false} LeafBit(h: Shot, S: iset<nat>, t: nat, n: RxNode, k: nat)
    requires TagOk(h, t, S) && n in h.m && h.m[n].shift == 0 && Covers(h.m[n], k) && t < |h.m[n].tags|
    ensures Digit(h.m[n], k) in h.m[n].tags[t] <==> k in S
  {
    CoversLeads(h.m[n], k);
    assert SlotTagged(h.m[n], t, Digit(h.m[n], k), S);
    if k in S { AnyIn(S, 0, k); }
  }

  /** Nothing is missing for an index in use. */
  lemma {:induction false} PresentMissing(h: Shot, M: map<nat, Entry>, index: nat)
    requires Sound(h, M) && index in M
    ensures Missing(h, M, index) == 0
  {
    hide Linked, Missing, Counted;
    SoundParts(h, M);
    KeysInRange(h, M, index);
    if h.top.Child? {
      TopAt(h); BasicAt(h, h.top.n);
      var m := WalkDown(h, M, h.top.n, index, 0);
      SlotMissing(h, M, m, index);
    } else {
      SlotMissing(h, M, null, index);
    }
  }

  /** radix_tree_insert */
  method Insert(root: RxRoot, mem: Allocator, index: nat, item: Val) returns (r: Inserted)
    requires Valid(root) && index <= ULONG_MAX && !root.idr
    modifies root, root.pool, mem
    ensures Valid(root) && root.tagged == old(root.tagged) && fresh(root.pool - old(root.pool))
    ensures r.Ok? ==> index !in old(root.items) && root.items == old(root.items)[index := Item(item)]
    ensures r.Exists? <==> index in old(root.items)
    ensures !r.Ok? ==> root.items == old(root.items)
    ensures r.Exists? ==> root.Now() == old(root.Now()) && mem.left == old(mem.left)
    ensures r.NoMemory? <==>
      index !in old(root.items) && old(mem.left) < Missing(old(root.Now()), old(root.items), index)
    ensures r.Ok? ==> old(mem.left) == mem.left + Missing(old(root.Now()), old(root.items), index)
    ensures mem.left <= old(mem.left) <= mem.left + PRELOAD_SIZE
    ensures r.NoMemory? ==> mem.left == 0 && old(mem.left) < PRELOAD_SIZE
    ensures r.Ok? && Snug(old(root.Now()), Keys(old(root.items))) ==> Snug(root.Now(), Keys(root.items))
  {
    hide Sound, TagOk, Snug, SnugKept, SlotFor, LeafPut, Missing;
    ghost var g, M := root.Now(), root.items;
    if index in M { PresentMissing(g, M, index); }
    var enomem, node, offset := Create(root, mem, index);
    if enomem { return NoMemory; }
    ghost var h := root.Now();
    SlotEntry(h, M, root.tagged, false, node, offset, index);
    SlotPlace(h, node, offset, index);
    var entry := EntryAt(root, node, offset);
    if entry != Null { return Exists; }
    ghost var M' := M[index := Item(item)];
    StoreEntry(root, node, offset, Item(item), 1, index, M');
    InsertSnug(g, h, root.Now(), M, M', index);
    InsertMode(M, M', root.tagged, index);
    return Ok;
  }

  lemma {:induction false} SlotPlace(h: Shot, node: RxNode?, offset: nat, index: nat)
    requires SlotFor(h, node, offset, index)
    ensures node != null ==> node in h.m && offset < 64 && |h.m[node].slots| == 64
  {}

  lemma {:induction false} InsertMode(M: map<nat, Entry>, M': map<nat, Entry>, T: seq<iset<nat>>, index: nat)
    requires Mode(false, M, T) && index <= ULONG_MAX && (exists e: Entry :: e.Item? && M' == M[index := e])
    ensures Mode(false, M', T)
  {}
}
