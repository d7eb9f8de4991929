/** Deleting an entry, freeing nodes upwards and lowering the tree (radix-tree.c:695-808, 2004-2073). */
module RxDelete {
  import opened CTypes
  import opened RxModel
  import opened RxHeap
  import opened RxSteps
  import opened RxShape
  import opened RxShrink
  import opened RxSnug
  import opened RxTree
  import opened RxInsert
  import opened RxTags

  // ---- no empty bottom nodes ----

  lemma {:induction false} TidyShrunk(g: Shot, h: Shot, n: RxNode)
    requires Shrunk(g, h, n) && Tidy(g, null)
    ensures Tidy(h, null)
  {
    forall m | m in h.m && m != null && h.m[m].shift == 0
      ensures h.m[m].count > 0
    {
      assert h.m[m].count == g.m[m].count;
    }
  }

  lemma {:induction false} TidyPruned(g: Shot, h: Shot, n: RxNode, p: RxNode)
    requires Pruned(g, h, n, p) && Tidy(g, n) && g.m[p].shift > 0
    ensures Tidy(h, null)
  {
    forall m | m in h.m && m != null && h.m[m].shift == 0
      ensures h.m[m].count > 0
    {
      if m != p { assert h.m[m] == g.m[m]; }
    }
  }

  lemma {:induction false} TidyUsed(h: Shot, n: RxNode)
    requires n in h.m && Tidy(h, n) && h.m[n].count > 0
    ensures Tidy(h, null)
  {}

  lemma {:induction false} TidyGone(h: Shot, M: map<nat, Entry>)
    requires Sound(h, M) && !h.top.Child?
    ensures Tidy(h, null)
  {
    NoNodes(h);
  }

  lemma {:induction false} TidyPlace(g: Shot, h: Shot, i: Shot, node: RxNode?, index: nat, e: Entry)
    requires SamePlace(g, h) && Tidy(g, null)
      && if node == null then i == PutTop(h, e) else LeafPut(h, i, node, index, e)
    ensures Tidy(i, node)
  {
    forall m | m in i.m && m != node && i.m[m].shift == 0 ensures i.m[m].count > 0 {
      assert i.m[m] == h.m[m] && h.m[m].count == g.m[m].count;
    }
  }

  lemma {:induction false} CountNat(h: Shot, M: map<nat, Entry>, n: RxNode)
    requires Sound(h, M) && n in h.m
    ensures h.m[n].count >= 0
  {}

  // ---- radix_tree_shrink ----

  lemma {:induction false} ChildOther(h: Shot, n: RxNode, o: nat)
    requires Linked(h) && n in h.m && o < 64 && |h.m[n].slots| == 64 && h.m[n].slots[o].Child?
    ensures h.m[n].slots[o].n != n
  {
    hide Linked;
    ChildAt(h, n, o);
  }

  lemma {:induction false} SomeUsed(r: Rec, M: map<nat, Entry>) returns (o: nat)
    requires |UsedSlots(r, M)| > 0 && |r.slots| == 64
    ensures o < 64 && Used(r, o, M)
  {
    o :| o in UsedSlots(r, M);
  }

  lemma {:induction false} NoTop(h: Shot, M: map<nat, Entry>)
    requires Sound(h, M) && !h.top.Child?
    ensures Snug(h, Keys(M)) && Lively(h, Keys(M)) && Lowered(h)
  {
    NoNodes(h);
  }

  lemma {:induction false} ShrunkLively(g: Shot, h: Shot, n: RxNode, K: iset<nat>)
    requires Shrunk(g, h, n) && Lively(g, K)
    ensures Lively(h, K)
  {
    forall m | m in h.m
      ensures Any(K, h.m[m].shift + 6, h.m[m].prefix)
    {
      assert Any(K, g.m[m].shift + 6, g.m[m].prefix);
    }
  }

  /** radix_tree_shrink takes one level off. */
  method ShrinkOnce(root: RxRoot, node: RxNode, child: Entry)
    requires Valid(root) && root.rnode == Child(node) && node in root.pool && |node.slots| == 64 && |node.tags| == 3
    requires node.count == 1 && child == node.slots[0] && child != Null && (child.Child? || node.shift == 0)
    modifies root, root.pool
    ensures Valid(root) && root.items == old(root.items) && root.tagged == old(root.tagged)
      && root.pool == old(root.pool) - {node}
    ensures Shrunk(old(root.Now()), root.Now(), node)
  {
    hide Good, Linked, Shrunk, RxRoot.Now, Sound, Holds, Counted, Tagged, TopHolds, Mode;
    ghost var g, M, T := root.Now(), root.items, root.tagged;
    ValidParts(root);
    root.Reads(); root.ReadsAt(node);
    if child.Child? {
      ChildAt(g, node, 0); ChildOther(g, node, 0);
      root.SetParent(child.n, null);
    }
    root.SetTop(child);
    root.Reads();
    if root.idr && 0 !in node.tags[0] {
      root.SetTags(root.tags - {0});
    }
    ghost var h := root.Now();
    root.Free(node);
    ShrinkDone(g, h, root.Now(), M, T, root.idr, node);
  }

  /** radix_tree_shrink */
  method Shrink(root: RxRoot) returns (shrunk: bool)
    requires Valid(root)
    modifies root, root.pool
    ensures Valid(root) && root.items == old(root.items) && root.tagged == old(root.tagged)
      && root.pool <= old(root.pool)
    ensures Lowered(root.Now())
    ensures Lively(old(root.Now()), Keys(root.items)) ==> Lively(root.Now(), Keys(root.items))
    ensures shrunk <==> root.pool != old(root.pool)
    ensures Tidy(old(root.Now()), null) ==> Tidy(root.Now(), null)
  {
    hide Tidy, Good, Linked, Shrunk, Lively, Holds, RxRoot.Now, Sound, Counted, Tagged, TopHolds, Mode, Lowered;
    ghost var M, T, live := root.items, root.tagged, Lively(root.Now(), Keys(root.items));
    shrunk := false;
    while true
      invariant Valid(root) && root.items == M && root.tagged == T && root.pool <= old(root.pool)
      invariant live ==> Lively(root.Now(), Keys(M))
      invariant shrunk <==> root.pool != old(root.pool)
      invariant Tidy(old(root.Now()), null) ==> Tidy(root.Now(), null)
      decreases |root.pool|
    {
      ghost var g := root.Now();
      ValidParts(root);
      root.Reads();
      IsLowered(g);
      if !root.rnode.Child? { return; }
      var node := root.rnode.n;
      TopAt(g); BasicAt(g, node);
      root.ReadsAt(node);
      if node.count != 1 { return; }
      var child := node.slots[0];
      if child == Null { return; }
      if !child.Child? && node.shift > 0 { return; }
      ShrinkOnce(root, node, child);
      if live { ShrunkLively(g, root.Now(), node, Keys(M)); }
      if Tidy(g, null) { TidyShrunk(g, root.Now(), node); }
      Fewer(g.m.Keys, node);
      shrunk := true;
    }
  }

  lemma {:induction false} IsLowered(h: Shot)
    requires Linked(h)
    ensures h.top.Child? ==> h.top.n in h.m && |h.m[h.top.n].slots| == 64
    ensures Lowered(h) <==> h.top.Child? ==>
      var r := h.m[h.top.n]; r.count != 1 || r.slots[0] == Null || (!r.slots[0].Child? && r.shift > 0)
  {
    hide Linked;
    if h.top.Child? { TopAt(h); BasicAt(h, h.top.n); }
  }

  lemma {:induction false} Fewer(s: set<RxNode>, n: RxNode)
    requires n in s
    ensures |s - {n}| < |s| && s - {n} < s
  {}

  lemma {:induction false} ShrinkDone(g: Shot, h: Shot, i: Shot, M: map<nat, Entry>, T: seq<iset<nat>>, idr: bool,
          n: RxNode)
    requires Good(g, M, T, idr) && g.top == Child(n) && n in g.m && |g.m[n].slots| == 64 && |g.m[n].tags| == 3
      && g.m[n].count == 1 && g.m[n].slots[0] != Null
    requires g.m[n].slots[0].Child? || g.m[n].shift == 0
    requires g.m[n].slots[0].Child? ==> g.m[n].slots[0].n in g.m && g.m[n].slots[0].n != n
    requires h.top == g.m[n].slots[0] && h.tags == (if idr && 0 !in g.m[n].tags[0] then g.tags - {0} else g.tags)
    requires h.m == if g.m[n].slots[0].Child? then g.m[g.m[n].slots[0].n := g.m[g.m[n].slots[0].n].(parent := null)]
      else g.m
    requires i == h.(m := h.m - {n})
    ensures Good(i, M, T, idr) && Shrunk(g, i, n)
  {
    hide Good;
    assert Shrunk(g, i, n);
    ShrunkGood(g, i, M, T, idr, n);
  }

  // ---- delete_node ----

  /** No node is in vain but perhaps n, which covers an index k that has just gone, and those above it. */
  ghost predicate NearlyLively(h: Shot, K: iset<nat>, n: RxNode, k: nat) {
    && n in h.m && Covers(h.m[n], k)
    && forall m :: m in h.m && m != n ==>
      Any(K, h.m[m].shift + 6, h.m[m].prefix) || (Covers(h.m[m], k) && h.m[m].shift > h.m[n].shift)
  }

  /** A node that still has entries is alive, and so is all that is above it. */
  lemma {:induction false} NodeLives(h: Shot, M: map<nat, Entry>, n: RxNode, k: nat)
    requires Sound(h, M) && h.m.Keys != {} && NearlyLively(h, Keys(M), n, k) && h.m[n].count != 0
    ensures Lively(h, Keys(M))
  {
    hide Linked, Holds, Needs;
    BasicAt(h, n);
    CountAt(h, M, n);
    var r := h.m[n];
    var o := SomeUsed(r, M);
    if r.slots[o].Child? {
      ChildAt(h, n, o);
      var c := r.slots[o].n;
      assert h.m[c].shift < r.shift && Any(Keys(M), h.m[c].shift + 6, h.m[c].prefix);
    }
    UsedIndex(h, M, n, o);
    AnyUp(Keys(M), r.shift, r.prefix, o);
    forall m | m in h.m ensures Any(Keys(M), h.m[m].shift + 6, h.m[m].prefix) {
      BasicAt(h, m);
      if m != n && !Any(Keys(M), h.m[m].shift + 6, h.m[m].prefix) {
        AnyRise(Keys(M), k, r.shift + 6, h.m[m].shift + 6);
      }
    }
  }

  lemma {:induction false} PrunedNearly(g: Shot, h: Shot, n: RxNode, p: RxNode, K: iset<nat>, k: nat)
    requires Linked(g) && Pruned(g, h, n, p) && NearlyLively(g, K, n, k) && g.m[n].parent == p
    ensures NearlyLively(h, K, p, k)
  {
    hide Linked, Needs;
    ParentCovers(g, n, k);
    TopOther(g, n, p);
    forall m | m in h.m && m != p
      ensures Any(K, h.m[m].shift + 6, h.m[m].prefix) || (Covers(h.m[m], k) && h.m[m].shift > h.m[p].shift)
    {
      BasicAt(g, m); BasicAt(g, n);
      assert Any(K, g.m[m].shift + 6, g.m[m].prefix) || (Covers(g.m[m], k) && g.m[m].shift > g.m[n].shift);
      if Covers(g.m[m], k) && g.m[m].shift == g.m[p].shift { Unique(g, m, p, k); }
    }
  }

  lemma {:induction false} TopOther(g: Shot, n: RxNode, p: RxNode)
    requires Linked(g) && n in g.m && g.m[n].parent == p
    ensures g.top != Child(n)
  {
    if g.top == Child(n) { TopAt(g); }
  }

  /** parent->slots[offset] = NULL; parent->count--; */
  method UnlinkChild(root: RxRoot, parent: RxNode, offset: nat)
    requires parent in root.pool && offset < |parent.slots|
    modifies parent
    ensures var r := old(root.Now().m[parent]); var g := old(root.Now());
      root.Now() == g.(m := g.m[parent := r.(slots := old(parent.slots)[offset := Null], count := r.count - 1)])
  {
    ghost var g := root.Now();
    assert g.m[parent].slots == parent.slots && g.m[parent].count == parent.count;
    root.SetSlot(parent, offset, Null);
    root.SetCount(parent, parent.count - 1);
  }

  /** delete_node unlinks a node without entries from its parent. */
  method Prune(root: RxRoot, node: RxNode, parent: RxNode)
    requires Valid(root) && node in root.pool && node.count == 0 && node.parent == parent
    modifies root, root.pool
    ensures Valid(root) && root.items == old(root.items) && root.tagged == old(root.tagged)
      && root.pool == old(root.pool) - {node}
    ensures parent in root.pool && Pruned(old(root.Now()), root.Now(), node, parent)
  {
    hide Good, Linked, Pruned;
    ghost var g, M, T := root.Now(), root.items, root.tagged;
    ValidParts(root);
    assert g.m[node].parent == parent && g.m[node].offset == node.offset && g.m[node].count == 0;
    PrunedPlace(g, node); NotOwnParent(g, node);
    assert g.m[parent].slots == parent.slots;
    UnlinkChild(root, parent, node.offset);
    root.Free(node);
    PruneDone(g, root.Now(), M, T, root.idr, node, parent);
  }

  lemma {:induction false} NotOwnParent(h: Shot, n: RxNode)
    requires Linked(h) && n in h.m
    ensures h.m[n].parent != n
  {
    LinkedAt(h, n);
  }

  lemma {:induction false} PruneDone(g: Shot, h: Shot, M: map<nat, Entry>, T: seq<iset<nat>>, idr: bool, n: RxNode,
          p: RxNode)
    requires Good(g, M, T, idr) && n in g.m && g.m[n].parent == p && p in g.m && n != p
      && g.m[n].offset < |g.m[p].slots| && g.m[n].count == 0
    requires h == g.(m := g.m[p := g.m[p].(slots := g.m[p].slots[g.m[n].offset := Null],
        count := g.m[p].count - 1)] - {n})
    ensures Good(h, M, T, idr) && Pruned(g, h, n, p)
  {
    hide Good;
    assert Pruned(g, h, n, p);
    PrunedGood(g, h, M, T, idr, n, p);
  }

  /** delete_node frees the top node: the tree is empty. */
  method Uproot(root: RxRoot, node: RxNode)
    requires Valid(root) && node in root.pool && node.count == 0 && node.parent == null
    modifies root, root.pool
    ensures Valid(root) && root.items == old(root.items) == map[] && root.tagged == old(root.tagged)
      && root.pool == old(root.pool) - {node}
    ensures root.rnode == Null
  {
    hide Good, Linked;
    ghost var g, M, T := root.Now(), root.items, root.tagged;
    ValidParts(root);
    BasicAt(g, node);
    assert g.m[node].parent == null && g.m[node].count == 0;
    if !root.idr {
      root.SetTags({});
    }
    root.SetTop(Null);
    root.Free(node);
    UprootedGood(g, root.Now(), M, T, root.idr, node);
  }

  /** Unlinking a node below the top leaves the top as it is, unless it is the parent. */
  lemma {:induction false} PrunedLowered(g: Shot, h: Shot, n: RxNode, p: RxNode)
    requires Linked(g) && Pruned(g, h, n, p) && g.m[n].parent == p && (Lowered(g) || g.top == Child(n))
    ensures Lowered(h) || h.top == Child(p)
  {
    hide Linked;
    TopOther(g, n, p);
  }

  /** In an ordinary tree that is canonical. */
  lemma {:induction false} PlainTrim(root: RxRoot)
    requires Valid(root)
    ensures !root.idr && Trim(root.Now(), root.items) ==> Snug(root.Now(), Keys(root.items))
  {
    hide Snug, Trim;
    ValidParts(root);
    if !root.idr && Trim(root.Now(), root.items) { TrimSnug(root.Now(), root.items); }
  }

  /** delete_node: k is the index whose entry has gone from node0. */
  method DeleteNode(root: RxRoot, node0: RxNode, ghost k: nat) returns (deleted: bool)
    requires Valid(root) && node0 in root.pool
    modifies root, root.pool
    ensures Valid(root) && root.items == old(root.items) && root.tagged == old(root.tagged)
      && root.pool <= old(root.pool)
    ensures NearlyLively(old(root.Now()), Keys(root.items), node0, k) ==> Lively(root.Now(), Keys(root.items))
    ensures Lowered(old(root.Now())) || old(root.rnode) == Child(node0) ==> Lowered(root.Now())
    ensures !root.idr && Trim(root.Now(), root.items) ==> Snug(root.Now(), Keys(root.items))
    ensures deleted <==> root.pool != old(root.pool)
    ensures Tidy(old(root.Now()), node0) ==> Tidy(root.Now(), null)
  {
    hide Tidy, Good, Linked, Pruned, Lively, Snug, Holds, NearlyLively, Lowered, Counted, RxRoot.Now, Sound, Tagged,
      TopHolds, Mode, Trim;
    ghost var M, T, live := root.items, root.tagged, NearlyLively(root.Now(), Keys(root.items), node0, k);
    ghost var low := Lowered(root.Now()) || root.rnode == Child(node0);
    var node := node0;
    deleted := false;
    while true
      invariant Valid(root) && root.items == M && root.tagged == T && root.pool <= old(root.pool) && node in root.pool
      invariant live ==> NearlyLively(root.Now(), Keys(M), node, k)
      invariant low ==> Lowered(root.Now()) || root.rnode == Child(node)
      invariant deleted <==> root.pool != old(root.pool)
      invariant Tidy(old(root.Now()), node0) ==> Tidy(root.Now(), node)
      decreases |root.pool|
    {
      ghost var g := root.Now();
      ValidParts(root);
      root.Reads(); root.ReadsAt(node);
      BasicAt(g, node);
      if node.count != 0 {
        if live { NodeLives(g, M, node, k); }
        CountNat(g, M, node);
        if Tidy(g, node) { TidyUsed(g, node); }
        if Child(node) == root.rnode {
          var shrunk := Shrink(root);
          deleted := deleted || shrunk;
        }
        PlainTrim(root);
        return;
      }
      var parent := node.parent;
      Fewer(g.m.Keys, node);
      if parent != null {
        Prune(root, node, parent);
        if live { PrunedNearly(g, root.Now(), node, parent, Keys(M), k); }
        if low { PrunedLowered(g, root.Now(), node, parent); }
        root.Reads();
        if Tidy(g, node) {
          PrunedPlace(g, node); TidyPruned(g, root.Now(), node, parent); TidyLess(root.Now(), parent);
        }
      } else {
        Uproot(root, node);
      }
      deleted := true;
      if parent == null {
        ValidParts(root);
        root.Reads();
        NoTop(root.Now(), M);
        TidyGone(root.Now(), M);
        PlainTrim(root);
        return;
      }
      node := parent;
    }
  }

  // ---- radix_tree_delete ----

  /** One tag after an entry has gone: an ordinary tree forgets the index, an IDR has a free id more. */
  function TagAfter(S: iset<nat>, index: nat, idr: bool, t: nat): iset<nat> {
    if !idr then S - iset{index} else if t == 0 then S + iset{index} else S
  }

  function TagsAfter(T: seq<iset<nat>>, index: nat, idr: bool): seq<iset<nat>>
    requires |T| == 3
  {
    [TagAfter(T[0], index, idr, 0), TagAfter(T[1], index, idr, 1), TagAfter(T[2], index, idr, 2)]
  }

  /** The tags of a slot that is about to become empty. */
  method TagsOff(root: RxRoot, node: RxNode?, offset: nat, index: nat)
    requires Valid(root) && Climbing(root.Now(), node, offset, index) && (node != null ==> node.shift == 0)
      && (node == null ==> !root.rnode.Child?)
    modifies root`tags, root.pool
    ensures Sound(root.Now(), root.items) && Tagged(root.Now(), TagsAfter(root.tagged, index, root.idr))
    ensures Stored'(old(root.Now()), root.Now()) && SamePlace(old(root.Now()), root.Now())
  {
    hide Sound, TagOk, Climbing, Stored';
    ghost var g, M, T := root.Now(), root.items, root.tagged;
    StoredSame(g);
    if root.idr {
      NodeTagSet(root, node, 0, offset, index, T[0] + iset{index}, T[0]);
      TagsOffDone(g, root.Now(), 0, M, T, T, index, true);
      assert TagsAfter(T, index, true) == T[0 := T[0] + iset{index}];
    } else {
      ghost var U := T;
      var tag := 0;
      while tag < 3
        invariant 0 <= tag <= 3 && |U| == 3 && Sound(root.Now(), M) && Tagged(root.Now(), U)
        invariant forall t :: 0 <= t < 3 ==> U[t] == if t < tag then T[t] - iset{index} else T[t]
        invariant Stored'(g, root.Now()) && SamePlace(g, root.Now()) && root.items == M && root.tagged == T
          && root.pool == old(root.pool)
      {
        ghost var h := root.Now();
        PlaceClimbs(g, h, node, offset, index);
        if node != null { assert h.m[node].shift == node.shift; }
        NodeTagClear(root, node, tag, offset, index, T[tag] - iset{index}, T[tag]);
        TagsOffDone(h, root.Now(), tag, M, U, T, index, false);
        StoredBoth(g, h, root.Now());
        U := U[tag := T[tag] - iset{index}];
        tag := tag + 1;
      }
      assert U == TagsAfter(T, index, false);
    }
  }

  /** The nodes, where they are and what they hold are the same. */
  ghost predicate SamePlace(g: Shot, h: Shot) {
    h.top == g.top && h.m.Keys == g.m.Keys && forall n :: n in g.m ==> h.m[n] == g.m[n].(tags := h.m[n].tags)
  }

  lemma {:induction false} PlaceClimbs(g: Shot, h: Shot, node: RxNode?, offset: nat, k: nat)
    requires SamePlace(g, h) && Climbing(g, node, offset, k)
    ensures Climbing(h, node, offset, k)
      && (node != null ==> node in g.m && node in h.m && h.m[node].shift == g.m[node].shift)
  {}

  lemma {:induction false} StoredBoth(g: Shot, h: Shot, i: Shot)
    requires Stored'(g, h) && Stored'(h, i)
    ensures Stored'(g, i)
  {
    hide Snug, Lively;
    forall K ensures AsSnug(g, i, K) { assert AsSnug(g, h, K) && AsSnug(h, i, K); }
  }

  lemma {:induction false} TagsOffDone(g: Shot, h: Shot, t: nat, M: map<nat, Entry>, U: seq<iset<nat>>,
          T: seq<iset<nat>>, index: nat, idr: bool)
    requires Sound(g, M) && |U| == 3 && |T| == 3 && t < 3 && Tagged(g, U) && Retag(g, h, t)
    requires TagOk(h, t, if idr then T[t] + iset{index} else T[t] - iset{index})
    ensures Sound(h, M) && Tagged(h, U[t := if idr then T[t] + iset{index} else T[t] - iset{index}])
      && Stored'(g, h) && SamePlace(g, h)
  {
    hide Sound, TagOk, Snug;
    RetagGood(g, h, t, if idr then T[t] + iset{index} else T[t] - iset{index}, M, U);
  }

  lemma {:induction false} TaggedStored(g: Shot, h: Shot, T: seq<iset<nat>>)
    requires Tagged(g, T) && Stored(g, h)
    ensures Tagged(h, T) && Stored'(g, h)
  {
    hide TagOk, Snug;
  }

  lemma {:induction false} ModeAfter(M: map<nat, Entry>, T: seq<iset<nat>>, index: nat, idr: bool)
    requires Mode(idr, M, T)
    ensures Mode(idr, M - {index}, TagsAfter(T, index, idr))
  {}

  /** After the entry of index k has left its leaf. */
  lemma {:induction false} NearlyAfter(g: Shot, h: Shot, M: map<nat, Entry>, n: RxNode, k: nat)
    requires Sound(h, M - {k}) && Lively(h, Keys(M)) && n in h.m && h.m[n].shift == 0 && Covers(h.m[n], k)
    ensures NearlyLively(h, Keys(M - {k}), n, k)
  {
    hide Linked, Holds, Counted;
    SoundParts(h, M - {k});
    TopHighest(h, n);
    var K, K' := Keys(M), Keys(M - {k});
    forall m | m in h.m && m != n
      ensures Any(K', h.m[m].shift + 6, h.m[m].prefix) || (Covers(h.m[m], k) && h.m[m].shift > 0)
    {
      assert Any(K, h.m[m].shift + 6, h.m[m].prefix);
      if Covers(h.m[m], k) {
        if h.m[m].shift == 0 { Unique(h, m, n, k); }
      } else {
        AnyMono(K, K', h.m[m].shift + 6, h.m[m].prefix);
      }
    }
  }

  /** Only the record of the node with the slot changes. */
  lemma {:induction false} LoweredAfter(g: Shot, h: Shot, i: Shot, n: RxNode, k: nat, e: Entry)
    requires SamePlace(g, h) && LeafPut(h, i, n, k, e) && Lowered(g)
    ensures Lowered(i) || i.top == Child(n)
  {}

  lemma {:induction false} InUseClimbs(h: Shot, M: map<nat, Entry>, node: RxNode?, offset: nat, k: nat)
    requires SlotFor(h, node, offset, k)
    ensures Climbing(h, node, offset, k) && (node != null ==> node in h.m && h.m[node].shift == 0)
    ensures node == null ==> !h.top.Child?
  {}

  lemma {:induction false} PlaceSlot(g: Shot, h: Shot, node: RxNode?, offset: nat, k: nat)
    requires SlotFor(g, node, offset, k) && SamePlace(g, h)
    ensures SlotFor(h, node, offset, k)
  {}

  lemma {:induction false} LeafPlace(g: Shot, h: Shot, node: RxNode, offset: nat, k: nat, e: Entry)
    requires SlotFor(g, node, offset, k) && LeafPut(g, h, node, k, e)
    ensures node in h.m && h.m[node].shift == 0 && Covers(h.m[node], k)
  {}

  /** __radix_tree_delete: the entry of an index in use goes, and with it what it alone kept. */
  method DeleteSlot(root: RxRoot, node: RxNode?, offset: nat, index: nat)
    requires Valid(root) && index <= ULONG_MAX && SlotFor(root.Now(), node, offset, index) && index in root.items
    modifies root, root.pool
    ensures Valid(root) && root.items == old(root.items) - {index}
      && root.tagged == TagsAfter(old(root.tagged), index, root.idr)
    ensures root.pool <= old(root.pool)
    ensures !root.idr && Snug(old(root.Now()), Keys(old(root.items))) ==> Snug(root.Now(), Keys(root.items))
    ensures Lively(old(root.Now()), Keys(old(root.items))) ==> Lively(root.Now(), Keys(root.items))
    ensures Trim(old(root.Now()), old(root.items)) ==> Trim(root.Now(), root.items)
    ensures Tidy(old(root.Now()), null) ==> Tidy(root.Now(), null)
  {
    hide Tidy, Sound, SlotFor, Climbing, Stored, Stored', Snug, Lively, Lowered, LeafPut, NearlyLively, Tagged,
      SamePlace, TagsAfter;
    ghost var g, M, T := root.Now(), root.items, root.tagged;
    if Snug(g, Keys(M)) { SnugTrim(g, M); }
    InUseClimbs(g, M, node, offset, index);
    if node != null { assert g.m[node].shift == node.shift; }
    TagsOff(root, node, offset, index);
    ghost var h := root.Now();
    PlaceSlot(g, h, node, offset, index);
    StoreEntry(root, node, offset, Null, -1, index, M - {index});
    ghost var i := root.Now();
    root.tagged := TagsAfter(T, index, root.idr);
    ModeAfter(M, T, index, root.idr);
    TaggedStored(h, i, root.tagged);
    StoredBoth(g, h, i);
    if Tidy(g, null) { TidyPlace(g, h, i, node, index, Null); }
    if node != null {
      LeafPlace(h, i, node, offset, index, Null);
      if Lively(g, Keys(M)) {
        SnugOf(g, i, Keys(M));
        NearlyAfter(g, i, M, node, index);
      }
      if Lowered(g) { LoweredAfter(g, h, i, node, index, Null); }
      root.Reads();
      var deleted := DeleteNode(root, node, index);
    } else {
      TopStays(h, i);
      NoTop(i, M - {index});
      TidyGone(i, M - {index});
    }
  }

  lemma {:induction false} TopStays(h: Shot, i: Shot)
    requires i == PutTop(h, Null)
    ensures !i.top.Child?
  {}

  lemma {:induction false} SnugOf(g: Shot, h: Shot, K: iset<nat>)
    requires Stored'(g, h)
    ensures (Snug(g, K) ==> Snug(h, K)) && (Lively(g, K) ==> Lively(h, K))
  {
    assert AsSnug(g, h, K);
  }

  /** Whether IDR_FREE is set for a slot that holds NULL: whether the id is free. */
  lemma {:induction false} FreeBit(h: Shot, M: map<nat, Entry>, T: seq<iset<nat>>, node: RxNode?, offset: nat, k: nat)
    requires Good(h, M, T, true) && InRange(h, k) && At(M, k) == Null
    requires node == null ==> h.top == Null && k == 0
    requires node != null ==>
      && node in h.m && Covers(h.m[node], k) && offset == Digit(h.m[node], k) && |h.m[node].slots| == 64
      && h.m[node].slots[offset] == Null
    ensures node != null ==> |h.m[node].tags| == 3
    ensures (if node == null then 0 in h.tags else offset in h.m[node].tags[0]) <==> k !in M
    ensures k in M ==> SlotFor(h, node, offset, k)
  {
    hide Linked, Counted;
    assert TagOk(h, 0, T[0]);
    if node == null {
      assert RootTagged(h, 0, T[0]);
    } else {
      BasicAt(h, node);
      CoversLeads(h.m[node], k);
      assert SlotTagged(h.m[node], 0, offset, T[0]);
      if h.m[node].shift > 0 { NotBelow(h, M, node, k); }
      if k in T[0] { AnyIn(T[0], h.m[node].shift, k); }
    }
  }

  /** Whether a slot was found in which the index is in use. */
  lemma {:induction false} FoundSlot(h: Shot, M: map<nat, Entry>, node: RxNode?, offset: nat, k: nat)
    requires Sound(h, M) && k in M && InRange(h, k)
    requires node == null ==> !h.top.Child? && k == 0
    requires node != null ==>
      && node in h.m && Covers(h.m[node], k) && offset == Digit(h.m[node], k) && |h.m[node].slots| == 64
      && !h.m[node].slots[offset].Child?
    ensures SlotFor(h, node, offset, k)
  {
    hide Linked, Holds;
    if node != null { PresentAtBottom(h, M, node, k); }
  }

  /** node_tag_get */
  method NodeTagGet(root: RxRoot, node: RxNode?, tag: nat, offset: nat) returns (set_: bool)
    requires node != null ==> tag < |node.tags|
    ensures set_ <==> if node == null then tag in root.tags else offset in node.tags[tag]
  {
    set_ := if node != null then offset in node.tags[tag] else tag in root.tags;
  }

  /** radix_tree_delete_item: item is NULL for any. */
  method DeleteItem(root: RxRoot, index: nat, item: Entry) returns (entry: Entry)
    requires Valid(root) && index <= ULONG_MAX && !item.Child?
    modifies root, root.pool
    ensures Valid(root) && root.pool <= old(root.pool)
    ensures var hit := index in old(root.items) && (item == Null || old(root.items)[index] == item);
      && entry == (if hit then old(root.items)[index] else Null)
      && root.items == (if hit then old(root.items) - {index} else old(root.items))
      && root.tagged == (if hit then TagsAfter(old(root.tagged), index, root.idr) else old(root.tagged))
      && (!hit ==> root.Now() == old(root.Now()))
    ensures !root.idr && Snug(old(root.Now()), Keys(old(root.items))) ==> Snug(root.Now(), Keys(root.items))
    ensures Lively(old(root.Now()), Keys(old(root.items))) ==> Lively(root.Now(), Keys(root.items))
    ensures Trim(old(root.Now()), old(root.items)) ==> Trim(root.Now(), root.items)
    ensures Tidy(old(root.Now()), null) ==> Tidy(root.Now(), null)
  {
    hide Tidy, Sound, Snug, Lively, Lowered, Linked, Holds, TagsAfter, InRange;
    ghost var h, M, T := root.Now(), root.items, root.tagged;
    ValidParts(root);
    var found, node, offset;
    entry, found, node, offset := LookupSlot(root, index);
    if index in M { PresentTop(h, M, index); }
    if !found { return Null; }
    if entry == Null {
      if !root.idr { NoNulls(M, T, index); return Null; }
      FreeBit(h, M, T, node, offset, index);
      if node != null { assert h.m[node].tags == node.tags; }
      var free := NodeTagGet(root, node, 0, offset);
      if free { return Null; }
    }
    FoundSlot(h, M, node, offset, index);
    if item != Null && entry != item { return Null; }
    DeleteSlot(root, node, offset, index);
  }

  lemma {:induction false} NoNulls(M: map<nat, Entry>, T: seq<iset<nat>>, k: nat)
    requires Mode(false, M, T) && At(M, k) == Null
    ensures k !in M
  {}

  /** radix_tree_delete */
  method Delete(root: RxRoot, index: nat) returns (entry: Entry)
    requires Valid(root) && index <= ULONG_MAX
    modifies root, root.pool
    ensures Valid(root) && root.pool <= old(root.pool) && entry == At(old(root.items), index)
      && root.items == old(root.items) - {index}
    ensures index in old(root.items) ==> root.tagged == TagsAfter(old(root.tagged), index, root.idr)
    ensures index !in old(root.items) ==> root.tagged == old(root.tagged) && root.Now() == old(root.Now())
    ensures !root.idr && Snug(old(root.Now()), Keys(old(root.items))) ==> Snug(root.Now(), Keys(root.items))
    ensures Lively(old(root.Now()), Keys(old(root.items))) ==> Lively(root.Now(), Keys(root.items))
    ensures Trim(old(root.Now()), old(root.items)) ==> Trim(root.Now(), root.items)
    ensures Tidy(old(root.Now()), null) ==> Tidy(root.Now(), null)
  {
    hide Tidy, Good, Snug, Lively, Lowered, TagsAfter;
    entry := DeleteItem(root, index, Null);
    assert index !in old(root.items) ==> old(root.items) - {index} == old(root.items);
  }
}
