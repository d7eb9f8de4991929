/** Lookup and insertion (radix-tree.c:613-689, 827-876, 978-1060). */
module RxTree {
  import opened CTypes
  import opened RxModel
  import opened RxHeap
  import opened RxSteps
  import opened RxShape
  import opened RxSnug
  import opened RxNeed

  /** A radix tree at rest: memory holds the map and the tags. */
  ghost predicate Valid(root: RxRoot)
    reads root, root.pool
  {
    Good(root.Now(), root.items, root.tagged, root.idr)
  }

  lemma {:induction false} ValidParts(root: RxRoot)
    requires Valid(root)
    ensures Sound(root.Now(), root.items) && Linked(root.Now()) && Holds(root.Now(), root.items)
    ensures Counted(root.Now(), root.items) && TopHolds(root.Now(), root.items)
    ensures Tagged(root.Now(), root.tagged) && Mode(root.idr, root.items, root.tagged)
  {}

  // ---- lookup ----

  /** What radix_tree_load_root tells. */
  method LoadRoot(root: RxRoot) returns (entry: Entry, maxindex: nat, shift: nat)
    requires Linked(root.Now())
    ensures entry == root.rnode && shift == HeightShift(root.Now())
    ensures forall k: nat :: k <= ULONG_MAX ==> (k > maxindex <==> !InRange(root.Now(), k))
    ensures entry.Child? ==> entry.n in root.pool && maxindex == ShiftMax(entry.n.shift)
    ensures !entry.Child? ==> maxindex == 0
  {
    hide Linked;
    entry := root.rnode;
    ghost var h := root.Now();
    if entry.Child? {
      TopAt(h); BasicAt(h, entry.n);
      maxindex, shift := ShiftMax(entry.n.shift), entry.n.shift + 6;
      forall k: nat | k <= ULONG_MAX ensures k > maxindex <==> !InRange(h, k) {
        BeyondMax(k, entry.n.shift); RangeShift(h, k);
      }
    } else {
      maxindex, shift := 0, 0;
    }
  }

  /**
   * __radix_tree_lookup: the entry, and the slot it was read from, if there is one: slot `offset` of
   * `node`, or root->rnode when node is null.
   */
  method LookupSlot(root: RxRoot, index: nat) returns (entry: Entry, found: bool, node: RxNode?, offset: nat)
    requires Linked(root.Now()) && Holds(root.Now(), root.items) && index <= ULONG_MAX
    ensures entry == At(root.items, index) && (found <==> InRange(root.Now(), index))
    ensures found && node == null ==> !root.rnode.Child? && root.rnode == entry && index == 0
    ensures found && node != null ==>
      && node in root.pool && Covers(root.Now().m[node], index) && offset == Digit(root.Now().m[node], index)
      && |node.slots| == 64 && node.slots[offset] == entry
  {
    hide Linked, Holds;
    ghost var h := root.Now();
    var maxindex, shift;
    entry, maxindex, shift := LoadRoot(root);
    node, offset := null, 0;
    RangeAt(h, root.items, index);
    if index > maxindex {
      return Null, false, null, 0;
    }
    found := true;
    while entry.Child?
      invariant entry.Child? ==> entry.n in root.pool && Covers(h.m[entry.n], index)
      invariant node == null ==> entry == root.rnode
      invariant node != null ==> node in root.pool && Covers(h.m[node], index) && offset == Digit(h.m[node], index)
      invariant node != null ==> |node.slots| == 64 && node.slots[offset] == entry
      decreases if entry.Child? && entry.n in root.pool then 1 + entry.n.shift else 0
    {
      node := entry.n;
      BasicAt(h, node);
      assert h.m[node].shift == node.shift && h.m[node].slots == node.slots;
      offset := Shr(index, node.shift) % 64;
      entry := node.slots[offset];
      if entry.Child? {
        ChildAt(h, node, offset);
        CoversLeads(h.m[node], index);
      }
    }
    if node != null { AtLeaf(h, root.items, node, index); }
  }

  lemma {:induction false} RangeAt(h: Shot, M: map<nat, Entry>, k: nat)
    requires Linked(h) && Holds(h, M)
    ensures !InRange(h, k) ==> At(M, k) == Null
    ensures InRange(h, k) && !h.top.Child? ==> At(M, k) == h.top && k == 0
    ensures InRange(h, k) && h.top.Child? ==> h.top.n in h.m && Covers(h.m[h.top.n], k)
  {}

  /** radix_tree_lookup */
  method Lookup(root: RxRoot, index: nat) returns (entry: Entry)
    requires Valid(root) && index <= ULONG_MAX
    ensures entry == At(root.items, index)
  {
    ValidParts(root);
    var found, node, offset;
    entry, found, node, offset := LookupSlot(root, index);
  }

  // ---- radix_tree_extend ----

  /** All 64 bits of a tag. */
  function AllBits(n: nat): set<nat> { if n == 0 then {} else AllBits(n - 1) + {n - 1} }

  lemma {:induction false} AllBitsAre(n: nat)
    ensures forall o: nat :: o in AllBits(n) <==> o < n
  {
    if n > 0 { AllBitsAre(n - 1); }
  }

  /** The levels that radix_tree_extend aims at: the lowest one whose range has the index. */
  ghost predicate Reaches(index: nat, shift: nat, maxshift: nat) {
    && maxshift % 6 == 0 && shift <= maxshift <= 60 && Shr(index, maxshift + 6) == 0
    && (maxshift > shift ==> Shr(index, maxshift) > 0)
  }

  method FindShift(index: nat, shift: nat) returns (maxshift: nat)
    requires index <= ULONG_MAX && shift % 6 == 0 && shift <= 60
    ensures Reaches(index, shift, maxshift)
  {
    maxshift := shift;
    BeyondMax(index, maxshift);
    while index > ShiftMax(maxshift)
      invariant shift <= maxshift <= 60 && maxshift % 6 == 0 && (maxshift > shift ==> Shr(index, maxshift) > 0)
      invariant index > ShiftMax(maxshift) <==> Shr(index, maxshift + 6) > 0
      decreases 60 - maxshift
    {
      ShlValues();
      maxshift := maxshift + 6;
      BeyondMax(index, maxshift);
    }
  }

  /** The bits of the new top node: in an ordinary tree those of the root, in an IDR all but used-up ones. */
  function TopTags(idr: bool, tags: set<nat>): seq<set<nat>> {
    if idr then [if 0 in tags then AllBits(64) else AllBits(64) - {0}, {}, {}]
    else [if 0 in tags then {0} else {}, if 1 in tags then {0} else {}, if 2 in tags then {0} else {}]
  }

  /** The new top node of an IDR: all ids are free, but perhaps those below slot 0. */
  method TagIdrTop(root: RxRoot, node: RxNode)
    requires node in root.pool && node.tags == NoTags()
    modifies root`tags, node`tags
    ensures node.tags == TopTags(true, old(root.tags)) && root.tags == old(root.tags) + {0}
    ensures root.Now() == old(root.Now()).(tags := root.tags,
        m := old(root.Now().m)[node := old(root.Now().m[node]).(tags := node.tags)])
  {
    hide RxRoot.Now, AllBits;
    root.Reads(); root.ReadsAt(node);
    root.SetTag(node, 0, AllBits(64));
    if 0 !in root.tags {
      root.SetTag(node, 0, node.tags[0] - {0});
      root.SetTags(root.tags + {0});
    }
    assert root.tags == old(root.tags) + {0};
  }

  /** The new top node of an ordinary tree: slot 0 has the tags of the root. */
  method TagPlainTop(root: RxRoot, node: RxNode)
    requires node in root.pool && node.tags == NoTags()
    modifies node`tags
    ensures node.tags == TopTags(false, root.tags)
    ensures root.Now() == old(root.Now()).(m := old(root.Now().m)[node := old(root.Now().m[node]).(tags := node.tags)])
  {
    hide RxRoot.Now;
    ghost var g := root.Now();
    root.ReadsAt(node);
    var tag := 0;
    while tag < 3
      invariant 0 <= tag <= 3 && |node.tags| == 3
      invariant forall t :: 0 <= t < 3 ==> node.tags[t] == if t < tag && t in root.tags then {0} else {}
      invariant root.Now() == g.(m := g.m[node := g.m[node].(tags := node.tags)])
    {
      if tag in root.tags {
        root.SetTag(node, tag, node.tags[tag] + {0});
      }
      tag := tag + 1;
    }
  }

  /** Sets the tags of the new top node (radix-tree.c:657-669). */
  method TagNewTop(root: RxRoot, node: RxNode)
    requires node in root.pool && node.tags == NoTags()
    modifies root`tags, node`tags
    ensures node.tags == TopTags(root.idr, old(root.tags))
    ensures root.tags == old(root.tags) + (if root.idr then {0} else {})
    ensures root.Now() == old(root.Now()).(tags := root.tags,
        m := old(root.Now().m)[node := old(root.Now().m[node]).(tags := node.tags)])
  {
    hide TopTags, RxRoot.Now;
    root.Reads();
    if root.idr {
      TagIdrTop(root, node);
    } else {
      TagPlainTop(root, node);
      assert root.tags == old(root.tags);
    }
  }

  /** A tagged node that nothing points at yet. */
  ghost function TopAdded(g: Shot, node: RxNode, idr: bool): Shot {
    var r := Zeroed(HeightShift(g), 0, 1, null, 0).(tags := TopTags(idr, g.tags));
    Shot(g.top, g.tags + (if idr then {0} else {}), g.m[node := r])
  }

  /** The old tree hangs below slot 0 of the new node, which is the root now. */
  ghost function TopLinked(g: Shot, node: RxNode): Shot
    requires node in g.m && |g.m[node].slots| == 64
  {
    var g' := if g.top.Child? && g.top.n in g.m && g.top.n != node then PutParent(g, g.top.n, node) else g;
    PutTop(PutSlot(g', node, 0, g.top), Child(node))
  }

  /** Allocates the new top node and sets its tags. */
  method AddTop(root: RxRoot, mem: Allocator, shift: nat) returns (node: RxNode?)
    requires shift == HeightShift(root.Now())
    modifies root`tags, root`pool, mem
    ensures node == null ==>
      mem.left == 0 == old(mem.left) && root.pool == old(root.pool) && root.Now() == old(root.Now())
    ensures node != null ==>
      && mem.left == old(mem.left) - 1 && fresh(node) && node !in old(root.pool) && root.pool == old(root.pool) + {node}
      && root.Now() == TopAdded(old(root.Now()), node, root.idr) && node.shift == shift
  {
    hide HeightShift, RxRoot.Now, TopTags;
    ghost var g := root.Now();
    root.Reads();
    node := root.NodeAlloc(mem, shift, 0, 1, null, 0);
    if node == null { return; }
    root.ReadsAt(node);
    TagNewTop(root, node);
    root.ReadsAt(node);
    assert root.Now().m == TopAdded(g, node, root.idr).m;
  }

  /** Makes the new node the root. */
  method LinkTop(root: RxRoot, node: RxNode, entry: Entry)
    requires node in root.pool && |node.slots| == 64 && entry == root.rnode
      && (entry.Child? ==> entry.n in root.pool && entry.n != node)
    modifies root`rnode, node`slots, if entry.Child? then {entry.n} else {}
    ensures root.rnode == Child(node) && node.shift == old(node.shift)
    ensures node in old(root.Now()).m && |old(root.Now()).m[node].slots| == 64
      && root.Now() == TopLinked(old(root.Now()), node)
  {
    hide RxRoot.Now;
    root.Reads(); root.ReadsAt(node);
    if entry.Child? {
      root.SetParent(entry.n, node);
    }
    root.SetSlot(node, 0, entry);
    root.SetTop(Child(node));
  }

  /** One round of the loop in radix_tree_extend. */
  method ExtendOnce(root: RxRoot, mem: Allocator, entry: Entry) returns (node: RxNode?)
    requires Valid(root) && entry == root.rnode && HeightShift(root.Now()) <= 60
    requires entry != Null || (root.idr && 0 in root.items)
    modifies root, root.pool, mem
    ensures Valid(root) && root.items == old(root.items) && root.tagged == old(root.tagged)
    ensures node == null ==>
      mem.left == 0 == old(mem.left) && root.pool == old(root.pool) && root.Now() == old(root.Now())
    ensures node != null ==>
      && mem.left == old(mem.left) - 1 && fresh(node) && root.pool == old(root.pool) + {node}
          && root.rnode == Child(node)
      && Grown(old(root.Now()), root.Now(), node) && node.shift == old(HeightShift(root.Now()))
  {
    hide Good, Linked, Grown, HeightShift, RxRoot.Now, TopAdded, TopLinked, Sound, Holds, Counted, TopHolds, Tagged,
      Mode;
    ghost var g := root.Now();
    ValidParts(root); root.Reads();
    if entry.Child? { TopAt(g); }
    var e, maxindex, shift := LoadRoot(root);
    node := AddTop(root, mem, shift);
    if node == null { return; }
    ghost var g2 := root.Now();
    AddedSlots(g, node, root.idr);
    root.Reads(); root.ReadsAt(node);
    LinkTop(root, node, entry);
    ExtendDone(g, root.Now(), node, root.items, root.tagged, root.idr);
  }

  lemma {:induction false} AddedSlots(g: Shot, node: RxNode, idr: bool)
    ensures var h := TopAdded(g, node, idr); node in h.m && |h.m[node].slots| == 64 && h.top == g.top
  {}

  lemma {:induction false} TopIsGrown(g: Shot, node: RxNode, idr: bool)
    requires Linked(g) && node !in g.m
    ensures var g' := TopAdded(g, node, idr);
      node in g'.m && |g'.m[node].slots| == 64 && Grown(g, TopLinked(g', node), node)
    ensures var h := TopLinked(TopAdded(g, node, idr), node);
      h.tags == g.tags + (if idr then {0} else {}) && h.m[node].tags == TopTags(idr, g.tags)
  {
    hide NodeOk, TopTags;
    TopTagsThree(idr, g.tags);
  }

  lemma {:induction false} TopTagsThree(idr: bool, tags: set<nat>)
    ensures |TopTags(idr, tags)| == 3
  {}

  lemma {:induction false} ExtendDone(g: Shot, h: Shot, node: RxNode, M: map<nat, Entry>, T: seq<iset<nat>>, idr: bool)
    requires Good(g, M, T, idr) && HeightShift(g) <= 60 && node !in g.m && (g.top != Null || (idr && 0 in M))
    requires var g' := TopAdded(g, node, idr); node in g'.m && |g'.m[node].slots| == 64 && h == TopLinked(g', node)
    ensures Good(h, M, T, idr) && Grown(g, h, node)
  {
    hide Good, Grown, TopAdded, TopLinked;
    AllBitsAre(64);
    GoodLinked(g, M, T, idr);
    TopIsGrown(g, node, idr);
    if idr { GrownIdr(g, h, node, M, T); } else { assert h.tags == g.tags; GrownGood(g, h, node, M, T); }
  }

  lemma {:induction false} GoodLinked(h: Shot, M: map<nat, Entry>, T: seq<iset<nat>>, idr: bool)
    requires Good(h, M, T, idr)
    ensures Linked(h)
  {}

  lemma {:induction false} ExtendStarts(h: Shot, index: nat)
    requires Linked(h) && index <= ULONG_MAX && !InRange(h, index)
    ensures HeightShift(h) % 6 == 0 && HeightShift(h) <= 60
  {
    hide Linked;
    HeightDigits(h); RangeShift(h, index); BeyondMax(index, 60); ShlValues();
  }

  lemma {:induction false} NothingYet(root: RxRoot)
    requires Valid(root) && root.rnode == Null && (!root.idr || 0 in root.tags)
    ensures root.items == map[]
  {
    ValidParts(root);
    var h, M := root.Now(), root.items;
    if root.idr {
      assert RootTagged(h, 0, root.tagged[0]) by { assert TagOk(h, 0, root.tagged[0]); }
      var k :| k in root.tagged[0] && InRange(h, k);
      assert 0 !in M;
    }
    forall k | k in M ensures false {}
  }

  lemma {:induction false} SomethingThere(root: RxRoot)
    requires Valid(root) && (root.rnode != Null || (root.idr && 0 !in root.tags))
    ensures root.rnode != Null || (root.idr && 0 in root.items)
  {
    ValidParts(root);
    if root.rnode == Null {
      assert RootTagged(root.Now(), 0, root.tagged[0]) by { assert TagOk(root.Now(), 0, root.tagged[0]); }
      assert InRange(root.Now(), 0);
    }
  }

  lemma {:induction false} ReachesUp(index: nat, shift: nat, maxshift: nat)
    requires Reaches(index, shift, maxshift)
    ensures shift <= maxshift <= 60 && maxshift % 6 == 0
  {}

  /** On the way up the index is out of range. */
  lemma {:induction false} ReachesPast(index: nat, shift0: nat, shift: nat, maxshift: nat)
    requires Reaches(index, shift0, maxshift) && shift0 <= shift <= maxshift && shift % 6 == 0 && shift0 % 6 == 0
    requires Shr(index, shift0) > 0
    ensures Shr(index, shift) > 0
  {
    if Shr(index, shift) == 0 {
      ShrZero(shift); ShrUp(index, 0, shift, maxshift); ShrZero(maxshift);
    }
  }

  lemma {:induction false} GrownShift(root: RxRoot, node: RxNode)
    requires node in root.pool && root.rnode == Child(node)
    ensures HeightShift(root.Now()) == node.shift + 6
  {}

  lemma {:induction false} ReachesIn(root: RxRoot, index: nat, shift0: nat, maxshift: nat)
    requires Valid(root) && Reaches(index, shift0, maxshift) && HeightShift(root.Now()) == maxshift + 6
    ensures InRange(root.Now(), index)
  {
    ValidParts(root);
    RangeShift(root.Now(), index);
  }

  /** What one more node on top does for the canonical form. */
  method ExtendSnugly(root: RxRoot, mem: Allocator, entry: Entry, ghost index: nat, ghost g: Shot)
    returns (node: RxNode?)
    requires Valid(root) && entry == root.rnode && HeightShift(root.Now()) <= 60 && (entry != Null || (root.idr
      && 0 in root.items))
    requires GrowthKept(g, root.Now(), root.items, index) && Shr(index, HeightShift(root.Now())) > 0
    requires Shr(index, 66) == 0
    modifies root, root.pool, mem
    ensures Valid(root) && root.items == old(root.items) && root.tagged == old(root.tagged)
    ensures node == null ==>
      mem.left == 0 == old(mem.left) && root.pool == old(root.pool) && HeightShift(root.Now()) <= 60
    ensures node != null ==>
      && mem.left == old(mem.left) - 1 && fresh(node) && root.pool == old(root.pool) + {node}
          && root.rnode == Child(node)
      && HeightShift(root.Now()) == old(HeightShift(root.Now())) + 6
    ensures GrowthKept(g, root.Now(), root.items, index)
    ensures Paid(old(root.Now()), old(mem.left), root.Now(), mem.left, root.items, index)
    ensures node == null ==> root.Now() == old(root.Now())
    ensures 6 * (old(mem.left) - mem.left) == HeightShift(root.Now()) - old(HeightShift(root.Now()))
  {
    hide Good, Linked, Grown, HeightShift, GrowthKept, RxRoot.Now, Sound, Holds, Counted, TopHolds, Tagged, Mode, Paid;
    ghost var h := root.Now();
    ValidParts(root); root.Reads();
    PaidNothing(h, mem.left, root.items, index);
    node := ExtendOnce(root, mem, entry);
    if node != null {
      GrownMissing(h, root.Now(), node, root.items, index);
      PaidOne(h, old(mem.left), root.Now(), mem.left, root.items, index);
      GrownShift(root, node);
      GrowthBoth(g, h, node, root.Now(), root.items, index);
    }
  }

  /** The loop of radix_tree_extend. */
  method ExtendLoop(root: RxRoot, mem: Allocator, entry0: Entry, shift0: nat, maxshift: nat,
          ghost index: nat) returns (enomem: bool)
    requires Valid(root) && entry0 == root.rnode && shift0 == HeightShift(root.Now())
      && (entry0 != Null || (root.idr && 0 in root.items))
    requires Reaches(index, shift0, maxshift) && shift0 % 6 == 0 && Shr(index, shift0) > 0
    modifies root, root.pool, mem
    ensures Valid(root) && root.items == old(root.items) && root.tagged == old(root.tagged)
    ensures fresh(root.pool - old(root.pool)) && old(root.pool) <= root.pool
    ensures GrowthKept(old(root.Now()), root.Now(), root.items, index)
    ensures Paid(old(root.Now()), old(mem.left), root.Now(), mem.left, root.items, index)
    ensures enomem ==> mem.left == 0 && HeightShift(root.Now()) <= 60 && Missing(root.Now(), root.items, index) > 0
    ensures mem.left <= old(mem.left) && 6 * (old(mem.left) - mem.left) == HeightShift(root.Now()) - shift0
    ensures !enomem ==> root.rnode.Child? && HeightShift(root.Now()) == maxshift + 6
  {
    hide Good, HeightShift, GrowthKept, RxRoot.Now, Reaches, Paid, Missing;
    ghost var g := root.Now();
    GrowthNothing(g, root.items, index);
    PaidNothing(g, mem.left, root.items, index);
    ReachesAll(index, shift0, maxshift);
    var entry, shift := entry0, shift0;
    ReachesUp(index, shift0, maxshift);
    while true
      invariant Valid(root) && root.items == old(root.items) && root.tagged == old(root.tagged)
      invariant fresh(root.pool - old(root.pool)) && old(root.pool) <= root.pool
      invariant shift == HeightShift(root.Now()) && shift0 <= shift <= maxshift && shift % 6 == 0
      invariant mem.left <= old(mem.left) && 6 * (old(mem.left) - mem.left) == shift - shift0
      invariant entry == root.rnode && (entry != Null || (root.idr && 0 in root.items))
      invariant GrowthKept(g, root.Now(), root.items, index)
      invariant Paid(g, old(mem.left), root.Now(), mem.left, root.items, index)
      decreases maxshift - shift
    {
      ReachesPast(index, shift0, shift, maxshift);
      ghost var h, left := root.Now(), mem.left;
      var node := ExtendSnugly(root, mem, entry, index, g);
      PaidBoth(g, old(mem.left), h, left, root.Now(), mem.left, root.items, index);
      if node == null {
        OutMissing(root, index);
        return true;
      }
      entry := Child(node);
      shift := shift + 6;
      if shift > maxshift { break; }
    }
    return false;
  }

  lemma {:induction false} ReachesAll(index: nat, shift: nat, maxshift: nat)
    requires Reaches(index, shift, maxshift)
    ensures Shr(index, 66) == 0
  {
    ShrZero(maxshift + 6); ShrUp(index, 0, maxshift + 6, 66); ShrZero(66);
  }

  lemma {:induction false} OutMissing(root: RxRoot, index: nat)
    requires Valid(root) && Shr(index, HeightShift(root.Now())) > 0
    ensures Missing(root.Now(), root.items, index) > 0
  {
    ValidParts(root);
    RangeShift(root.Now(), index);
    RangeMissing(root.Now(), root.items, index);
  }

  /** radix_tree_extend: -ENOMEM, or the new height. */
  method Extend(root: RxRoot, mem: Allocator, index: nat, shift0: nat) returns (enomem: bool, shift: nat)
    requires Valid(root) && index <= ULONG_MAX && shift0 == HeightShift(root.Now()) && !InRange(root.Now(), index)
    modifies root, root.pool, mem
    ensures Valid(root) && root.items == old(root.items) && root.tagged == old(root.tagged)
    ensures fresh(root.pool - old(root.pool)) && old(root.pool) <= root.pool
    ensures GrowthKept(old(root.Now()), root.Now(), root.items, index)
    ensures Paid(old(root.Now()), old(mem.left), root.Now(), mem.left, root.items, index)
    ensures enomem ==> mem.left == 0 && HeightShift(root.Now()) <= 60 && Missing(root.Now(), root.items, index) > 0
    ensures mem.left <= old(mem.left) && 6 * (old(mem.left) - mem.left) == HeightShift(root.Now()) - shift0
    ensures !enomem ==> shift >= 6 && Reaches(index, shift0, shift - 6)
    ensures !enomem && root.rnode == Null ==> root.Now() == old(root.Now()) && root.items == map[]
    ensures !enomem && root.rnode != Null ==>
      root.rnode.Child? && HeightShift(root.Now()) == shift && InRange(root.Now(), index)
  {
    hide Good, Linked, Reaches, HeightShift, InRange, GrowthKept, Sound, Holds, TopHolds, Counted, Tagged, Mode,
      RxRoot.Now, Paid, Missing;
    ghost var g := root.Now();
    ValidParts(root);
    ExtendStarts(g, index);
    GrowthNothing(g, root.items, index);
    PaidNothing(g, mem.left, root.items, index);
    var maxshift := FindShift(index, shift0);
    var entry := root.rnode;
    if entry == Null && (!root.idr || 0 in root.tags) {
      NothingYet(root);
      return false, maxshift + 6;
    }
    RangeShift(g, index);
    SomethingThere(root);
    enomem := ExtendLoop(root, mem, entry, shift0, maxshift, index);
    if enomem { return true, 0; }
    ReachesIn(root, index, shift0, maxshift);
    return false, maxshift + 6;
  }
}
