/** rb_erase and the cached and augmented entry points (rbtree.c:463-502, rbtree_augmented.h:60-76, 274-292). */
module RbErase {
  import opened Seqs
  import opened RbModel
  import opened RbHeap
  import opened RbInsert
  import opened RbWalk
  import opened RbEraseColor
  import opened RbUnlink
  import opened RbSuccessor

  // ---- order ----

  /** s with every occurrence of x taken out. */
  ghost function Without(s: seq<RbNode>, x: RbNode): seq<RbNode> {
    if s == [] then [] else (if s[0] == x then [] else [s[0]]) + Without(s[1..], x)
  }

  lemma {:induction false} WithoutNone(s: seq<RbNode>, x: RbNode)
    requires x !in s
    ensures Without(s, x) == s
  {
    if s != [] {
      assert s[0] in s;
      WithoutNone(s[1..], x);
    }
  }

  lemma {:induction false} WithoutConcat(a: seq<RbNode>, b: seq<RbNode>, x: RbNode)
    ensures Without(a + b, x) == Without(a, x) + Without(b, x)
  {
    if a == [] {
      assert a + b == b;
    } else {
      assert (a + b)[1..] == a[1..] + b;
      WithoutConcat(a[1..], b, x);
    }
  }

  lemma {:induction false} WithoutOne(a: seq<RbNode>, x: RbNode, b: seq<RbNode>)
    requires x !in a && x !in b
    ensures Without(a + [x] + b, x) == a + b
  {
    hide Without;
    WithoutConcat(a + [x], b, x);
    WithoutConcat(a, [x], x);
    WithoutNone(a, x); WithoutNone(b, x);
    WithoutSelf(x);
    assert Without(a + [x] + b, x) == (a + []) + b;
  }

  lemma {:induction false} WithoutSelf(x: RbNode)
    ensures Without([x], x) == []
  {
    assert Without([x][1..], x) == [];
  }

  /** Joining a node's subtrees takes exactly that node out of the order. */
  lemma {:induction false} DoomedOrder(k: Ctx, l: Tree, node: RbNode, c: Color, r: Tree)
    requires Apart(Plug(k, Node(l, node, c, r)))
    ensures Before(k) + Inorder(l) + Inorder(r) + After(k) == Without(Inorder(Plug(k, Node(l, node, c, r))), node)
  {
    var t := Node(l, node, c, r);
    var a, b := Before(k) + Inorder(l), Inorder(r) + After(k);
    InorderAt(k, t);
    ApartNoDup(Plug(k, t));
    var s := a + [node] + b;
    assert s[|a|] == node;
    forall i | 0 <= i < |a| ensures a[i] != node { assert s[i] == a[i]; }
    forall i | 0 <= i < |b| ensures b[i] != node { assert s[|a| + 1 + i] == b[i]; }
    WithoutOne(a, node, b);
    assert a + Inorder(r) + After(k) == a + b;
  }

  /** The leftmost cache after node has gone, whether it was the leftmost or not. */
  lemma {:induction false} FirstWithout(s: seq<RbNode>, x: RbNode, y: RbNode?)
    requires NoDup(s) && x in s
    ensures s[0] == x && Follows(s, x, y) ==> y == FirstOf(Without(s, x))
    ensures s[0] != x ==> FirstOf(s) == FirstOf(Without(s, x))
  {
    if s[0] == x {
      forall i | 0 <= i < |s[1..]| ensures s[1..][i] != x { assert s[1..][i] == s[i + 1]; }
      WithoutNone(s[1..], x);
      if Follows(s, x, y) { FollowsAt(s, 0, y); }
    }
  }

  // ---- unlinking ----

  /** What the unlinking leaves behind: a red-black tree, or one that is a black node short at an empty slot. */
  ghost predicate Torn(T: Tree, k: Ctx, rebalance: RbNode?) {
    if rebalance == null then IsRB(T) else k.In? && k.x == rebalance && T == Plug(k, Leaf) && RBK(k, 1)
  }

  lemma {:induction false} SpliceTorn(k: Ctx, l: Tree, node: RbNode, c: Color, r: Tree, t: Tree, rebalance: RbNode?)
    requires IsRB(Plug(k, Node(l, node, c, r))) && ((l.Leaf? && t == r) || (r.Leaf? && t == l))
    requires rebalance == if t.Leaf? && c.Black? then Up(k) else null
    ensures Torn(Plug(k, Paint(t, c)), k, rebalance)
  {
    hide IsRB, RBK;
    SpliceRB(k, l, node, c, r, t);
  }

  lemma {:induction false} PromotedTorn(k: Ctx, l: Tree, node: RbNode, c: Color, r: Tree, kk: Ctx, s: RbNode, cs: Color,
          r2: Tree, rebalance: RbNode?)
    requires IsRB(Plug(k, Node(l, node, c, r))) && Succ(r, kk, s, cs, r2)
    requires rebalance == if r2.Leaf? && cs.Black? then UpTo(kk, s) else null
    ensures Torn(Promoted(k, l, s, c, kk, r2), Graft(kk, In(R, s, c, l, k)), rebalance)
  {
    hide IsRB, RBK, Succ, Promoted;
    PromotedRB(k, l, node, c, r, kk, s, cs, r2);
  }

  lemma {:induction false} DoomedParts1(h: Shot, k: Ctx, l: Tree, node: RbNode, c: Color, r: Tree, pool: set<RbNode>,
          augment: Option<Compute>)
    requires Doomed(h, k, l, node, c, r, pool, augment)
    ensures IsRB(Plug(k, Node(l, node, c, r))) && Apart(Plug(k, Node(l, node, c, r)))
  {}

  /** __rb_erase_augmented, but for the leftmost cache. */
  method UnlinkNode(root: RbRoot, node: RbNode, augment: Option<Compute>, ghost k: Ctx, ghost l: Tree, ghost c: Color,
          ghost r: Tree)
    returns (rebalance: RbNode?, ghost T: Tree, ghost k': Ctx)
    requires Doomed(root.Now(), k, l, node, c, r, root.pool, augment) && AllLoopless(root.log)
    modifies root, root.pool
    ensures root.Kept() && Grows(old(root.log), root.log, root.pool)
    ensures Spliced(root.Now(), T, node, root.pool) && AugRep(root.Now(), T, augment) && Torn(T, k', rebalance)
    ensures Inorder(T) == Without(Inorder(Plug(k, Node(l, node, c, r))), node)
  {
    hide AugRep, IsRB, AllLoopless, Grows, Doomed, Spliced, Torn, Plug, Inorder, Without, Promoted, Apart, RepK, Rep,
      Nodes;
    ghost var g := root.Now();
    DoomedReads(g, k, l, node, c, r, root.pool, augment);
    DoomedParts1(g, k, l, node, c, r, root.pool, augment);
    DoomedOrder(k, l, node, c, r);
    var child := node.right;
    var tmp := node.left;
    if tmp == null {
      rebalance := UnlinkRight(root, node, augment, k, l, c, r);
      T, k' := Plug(k, Paint(r, c)), k;
      SpliceTorn(k, l, node, c, r, r, rebalance);
    } else if child == null {
      UnlinkLeft(root, node, augment, k, l, c, r);
      rebalance, T, k' := null, Plug(k, Paint(l, c)), k;
      SpliceTorn(k, l, node, c, r, l, null);
    } else {
      ghost var s, kk, cs, r2;
      rebalance, s, kk, cs, r2 := UnlinkTwo(root, node, augment, k, l, c, r);
      T, k' := Promoted(k, l, s, c, kk, r2), Graft(kk, In(R, s, c, l, k));
      PromotedTorn(k, l, node, c, r, kk, s, cs, r2, rebalance);
      PromotedOrder(k, l, s, c, r, kk, cs, r2);
    }
  }

  // ---- the erased node leaves ----

  lemma {:induction false} DropRep(g: Shot, h: Shot, T: Tree, node: RbNode, pool: set<RbNode>, augment: Option<Compute>)
    requires Spliced(g, T, node, pool) && AugRep(g, T, augment)
    requires h.top == g.top && h.m == g.m - {node} && h.aug == g.aug - {node}
    ensures RepTree(h, T) && Apart(T) && pool - {node} == Nodes(T) && AugRep(h, T, augment)
    ensures LeadsInto(g, node, pool - {node})
  {
    RepFrame(g, h, T, null);
    if augment.Some? { AugFrame(g, h, T, augment.value); }
  }

  lemma {:induction false} DropSettled(h: Shot, T: Tree, k: Ctx, pool: set<RbNode>, augment: Option<Compute>)
    requires RepTree(h, T) && Apart(T) && pool == Nodes(T) && AugRep(h, T, augment) && Torn(T, k, null)
    ensures Settled(h, T, pool, augment)
  {}

  lemma {:induction false} DropDeficit(h: Shot, T: Tree, k: Ctx, rebalance: RbNode, pool: set<RbNode>,
          augment: Option<Compute>)
    requires RepTree(h, T) && Apart(T) && pool == Nodes(T) && AugRep(h, T, augment) && Torn(T, k, rebalance)
    ensures Deficit(h, k, Leaf, 0, pool, augment) && k.x == rebalance && T == Plug(k, Leaf)
  {}

  lemma {:induction false} ToDoom(root: RbRoot, node: RbNode, augment: Option<Compute>)
    returns (k: Ctx, l: Tree, c: Color, r: Tree)
    requires root.Valid() && node in root.pool && AugRep(root.Now(), root.tree, augment)
    ensures Doomed(root.Now(), k, l, node, c, r, root.pool, augment) && root.tree == Plug(k, Node(l, node, c, r))
    ensures AllLoopless(root.log)
  {
    hide IsRB, RepTree, AugRep, AllLoopless;
    var t;
    k, t := Locate(Top, root.tree, node);
    l, c, r := t.l, t.c, t.r;
  }

  /** Records the tree that memory has come to hold. */
  ghost method Settle(root: RbRoot, T: Tree, augment: Option<Compute>)
    requires Settled(root.Now(), T, root.pool, augment) && AllLoopless(root.log)
    modifies root`tree
    ensures root.tree == T && root.Valid() && AugRep(root.Now(), root.tree, augment)
  {
    hide AugRep, IsRB, AllLoopless, Apart, RepTree, Nodes;
    root.tree := T;
  }

  /** What an erase promises about the cached leftmost node. */
  twostate predicate LeftmostKept(root: RbRoot, node: RbNode, leftmost: Leftmost?)
    reads root, leftmost
  {
    leftmost != null ==>
      && (old(leftmost.node) != node ==> leftmost.node == old(leftmost.node))
      && (old(leftmost.node) == old(FirstOf(Inorder(root.tree))) ==> leftmost.node == FirstOf(Inorder(root.tree)))
  }

  /** A snapshot with the erased node in it, also once it is out of the tree. */
  ghost function With(h: Shot, x: RbNode): Shot
    reads x
  {
    if x in h.m then h else Beside(h, x, Rec(x.left, x.right, x.parent, x.color))
  }

  /** Readers that stand on x when it is erased find their way out: no descent from it, or from elsewhere, can loop. */
  ghost predicate LeavesReaders(log: seq<Shot>, log': seq<Shot>, x: RbNode)
    reads x
  {
    forall i :: |log| <= i < |log'| ==> x in With(log'[i], x).m && Loopless(With(log'[i], x))
  }

  /** Unlinking is done with the node in the pool, recolouring without it, and without touching it. */
  lemma {:induction false} ReadersLeave(log: seq<Shot>, mid: seq<Shot>, log': seq<Shot>, x: RbNode, S: set<RbNode>,
          h: Shot)
    requires Grows(log, mid, S) && Grows(mid, log', S - {x}) && x in S && LeadsInto(h, x, S - {x})
    requires x.left == h.m[x].left && x.right == h.m[x].right
    ensures LeavesReaders(log, log', x)
  {
    hide Loopless, Beside;
    assert Kid(h.m[x], L) == x.left && Kid(h.m[x], R) == x.right;
    forall i | |log| <= i < |log'| ensures x in With(log'[i], x).m && Loopless(With(log'[i], x)) {
      assert Loopless(log'[i]);
      if i < |mid| {
        assert log'[i] == mid[i];
      } else {
        BesideLoopless(log'[i], x, Rec(x.left, x.right, x.parent, x.color));
        BesideIn(log'[i], x, Rec(x.left, x.right, x.parent, x.color));
      }
    }
  }

  lemma {:induction false} BesideIn(h: Shot, x: RbNode, r: Rec)
    ensures x in Beside(h, x, r).m
  {}

  /** __rb_erase_augmented, but for the leftmost cache, then ____rb_erase_color if there is a deficit. */
  method EraseNode(root: RbRoot, node: RbNode, augment: Option<Compute>)
    requires root.Valid() && node in root.pool && AugRep(root.Now(), root.tree, augment)
    modifies root, root.pool
    ensures root.Valid() && AugRep(root.Now(), root.tree, augment) && root.GoesOn() && old(root.log) <= root.log
    ensures Inorder(root.tree) == Without(old(Inorder(root.tree)), node) && root.pool == old(root.pool) - {node}
    ensures LeavesReaders(old(root.log), root.log, node)
  {
    hide AugRep, IsRB, AllLoopless, Grows, LeavesReaders, LeadsInto, Doomed, Spliced, Torn, Deficit, Settled, Plug,
      Inorder, Without, Apart, RepTree, Nodes, NoDup, Follows, RbRoot.Now, RbRoot.Traced, Steps;
    ghost var k, l, c, r := ToDoom(root, node, augment);
    var rebalance;
    ghost var T, k';
    rebalance, T, k' := UnlinkNode(root, node, augment, k, l, c, r);
    ghost var g, mid := root.Now(), root.log;
    root.ReadsAt(node);
    root.Drop(node);
    DropRep(g, root.Now(), T, node, old(root.pool), augment);
    GrowsMeans(old(root.log), mid, old(root.pool));
    GrowsNot(root.log, root.pool);
    if rebalance != null {
      DropDeficit(root.Now(), T, k', rebalance, root.pool, augment);
      T := EraseColor(root, rebalance, augment, k', 0);
    } else {
      DropSettled(root.Now(), T, k', root.pool, augment);
    }
    ReadersLeave(old(root.log), mid, root.log, node, old(root.pool), g);
    GrowsMeans(mid, root.log, root.pool);
    Settle(root, T, augment);
  }

  lemma {:induction false} OrderOf(root: RbRoot, node: RbNode)
    requires root.Valid() && node in root.pool
    ensures NoDup(Inorder(root.tree)) && node in Inorder(root.tree)
  {
    ApartNoDup(root.tree);
    InorderNodes(root.tree);
  }

  /** rb_erase_augmented */
  method EraseAugmented(root: RbRoot, node: RbNode, leftmost: Leftmost?, augment: Option<Compute>)
    requires root.Valid() && node in root.pool && AugRep(root.Now(), root.tree, augment)
    modifies root, root.pool, if leftmost == null then {} else {leftmost}
    ensures root.Valid() && AugRep(root.Now(), root.tree, augment) && root.Recorded()
    ensures Inorder(root.tree) == Without(old(Inorder(root.tree)), node) && root.pool == old(root.pool) - {node}
    ensures LeftmostKept(root, node, leftmost) && LeavesReaders(old(root.log), root.log, node)
  {
    hide AugRep, IsRB, AllLoopless, LeavesReaders, Inorder, Without, Apart, RepTree, Nodes, NoDup, Follows, RbRoot.Now,
      RbRoot.Traced, Steps, SlotsBut;
    OrderOf(root, node);
    ghost var s := Inorder(root.tree);
    ghost var next: RbNode? := null;
    if leftmost != null && node == leftmost.node {
      leftmost.node := Next(root, node);
      next := leftmost.node;
    }
    FirstWithout(s, node, next);
    root.Begin();
    SameSelf(root.Now());
    EraseNode(root, node, augment);
    root.Ends();
  }

  // ---- entry points without callbacks ----

  /** rb_erase */
  method Erase(root: RbRoot, node: RbNode)
    requires root.Valid() && node in root.pool
    modifies root, root.pool
    ensures root.Valid() && root.Recorded() && LeavesReaders(old(root.log), root.log, node)
    ensures Inorder(root.tree) == Without(old(Inorder(root.tree)), node) && root.pool == old(root.pool) - {node}
  {
    hide Inorder, Without, Apart, RepTree, Nodes, IsRB, AllLoopless, LeavesReaders;
    EraseAugmented(root, node, null, None);
  }

  /** rb_erase_cached */
  method EraseCached(root: RbRoot, leftmost: Leftmost, node: RbNode)
    requires root.Valid() && node in root.pool && leftmost.node == FirstOf(Inorder(root.tree))
    modifies root, root.pool, leftmost
    ensures root.Valid() && root.Recorded() && LeavesReaders(old(root.log), root.log, node)
    ensures Inorder(root.tree) == Without(old(Inorder(root.tree)), node) && root.pool == old(root.pool) - {node}
    ensures leftmost.node == FirstOf(Inorder(root.tree))
  {
    hide Inorder, Without, Apart, RepTree, Nodes, IsRB, AllLoopless, LeavesReaders;
    EraseAugmented(root, node, leftmost, None);
  }

  /** rb_insert_color */
  method InsertColor(root: RbRoot, node: RbNode, ghost k: Ctx)
    requires root.Shaped() && root.tree == Plug(k, Node(Leaf, node, Red, Leaf)) && IsRB(Plug(k, Leaf))
    modifies root, root.pool
    ensures root.Valid() && Inorder(root.tree) == old(Inorder(root.tree)) && root.pool == old(root.pool)
      && root.Recorded()
  {
    hide Inorder, Apart, RepTree, Nodes, IsRB, AllLoopless, Plug;
    Insert(root, node, false, null, None, k);
  }

  lemma {:induction false} FirstPlug(k: Ctx, node: RbNode)
    ensures FirstOf(Inorder(Plug(k, Node(Leaf, node, Red, Leaf)))) == if Before(k) == [] then node
      else FirstOf(Before(k))
    ensures Before(k) != [] ==> FirstOf(Inorder(Plug(k, Leaf))) == FirstOf(Before(k))
    ensures forall x :: x in Before(k) ==> x in KNodes(k)
  {
    PlugInorder(k, Leaf); PlugInorder(k, Node(Leaf, node, Red, Leaf));
    PlugInorder(k, Leaf); PlugNodes(k, Leaf); InorderNodes(Plug(k, Leaf));
    forall x | x in Before(k) ensures x in KNodes(k) { assert x in Inorder(Plug(k, Leaf)); }
  }

  /** rb_insert_color_cached: the cache stays right exactly when the caller's flag says whether the node comes first. */
  method InsertColorCached(root: RbRoot, leftmost: Leftmost, node: RbNode, newleft: bool, ghost k: Ctx)
    requires root.Shaped() && root.tree == Plug(k, Node(Leaf, node, Red, Leaf)) && IsRB(Plug(k, Leaf))
    requires leftmost.node == FirstOf(Inorder(Plug(k, Leaf)))
    modifies root, root.pool, leftmost
    ensures root.Valid() && Inorder(root.tree) == old(Inorder(root.tree)) && root.pool == old(root.pool)
      && root.Recorded()
    ensures leftmost.node == FirstOf(Inorder(root.tree)) <==> (newleft <==> Before(k) == [])
  {
    hide Inorder, Apart, RepTree, Nodes, KNodes, IsRB, AllLoopless, Plug;
    FirstPlug(k, node);
    CachedFirst(k, node);
    Insert(root, node, newleft, leftmost, None, k);
  }

  lemma {:induction false} CachedFirst(k: Ctx, node: RbNode)
    requires Apart(Plug(k, Node(Leaf, node, Red, Leaf)))
    ensures node !in Inorder(Plug(k, Leaf)) && node !in Before(k)
  {
    PlugApart(k, Node(Leaf, node, Red, Leaf));
    PlugNodes(k, Leaf); InorderNodes(Plug(k, Leaf)); FirstPlug(k, node);
  }
}
