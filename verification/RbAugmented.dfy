/** Inserting into a tree with callbacks, and what its augmented values add up to (rbtree_augmented.h:50-112). */
module RbAugmented {
  import opened Seqs
  import opened Compare
  import opened RbModel
  import opened RbHeap
  import opened RbRotate
  import opened RbInsert
  import opened RbUnlink
  import opened RbWalk
  import opened RbErase
  import opened RbOrder
  import opened RbSearch

  // ---- the fold of a sequence ----

  /** The nodes' values, combined from the right. */
  ghost function Fold(s: seq<RbNode>, f: Compute): Option<Aug> {
    if s == [] then None else Some(f(None, s[0].val, Fold(s[1..], f)))
  }

  lemma {:induction false} FoldAround(a: seq<RbNode>, x: RbNode, b: seq<RbNode>, f: Compute)
    requires Associative(f)
    ensures Fold(a + [x] + b, f) == Some(f(Fold(a, f), x.val, Fold(b, f)))
  {
    if a == [] {
      assert a + [x] + b == [x] + b && ([x] + b)[1..] == b;
    } else {
      FoldAround(a[1..], x, b, f);
      assert (a + [x] + b)[1..] == a[1..] + [x] + b;
    }
  }

  /** The shape of a tree does not matter for the value of its root. */
  lemma {:induction false} AggIsFold(t: Tree, f: Compute)
    requires Associative(f)
    ensures Agg(t, f) == Fold(Inorder(t), f)
  {
    if t.Node? {
      AggIsFold(t.l, f); AggIsFold(t.r, f);
      FoldAround(Inorder(t.l), t.x, Inorder(t.r), f);
    }
  }

  /** What every node below stores is the fold of the nodes below it, in order. */
  lemma {:induction false} StoredIsFold(h: Shot, k: Ctx, t: Tree, f: Compute)
    requires AugRep(h, Plug(k, t), Some(f))
    ensures AugOf(h, Head(t)) == Fold(Inorder(t), f)
  {
    PlugAug(h, k, t, f);
    AugHead(h, t, f);
    AggIsFold(t, f);
  }

  // ---- insertion ----

  /** The new node stores its own value; what the nodes above it store does not count it yet. */
  lemma {:induction false} LinkedDirty(g: Shot, h: Shot, k: Ctx, node: RbNode, f: Compute)
    requires AugRep(g, Plug(k, Leaf), Some(f)) && node !in KNodes(k)
    requires RepTree(h, Plug(k, Node(Leaf, node, Red, Leaf))) && Apart(Plug(k, Node(Leaf, node, Red, Leaf)))
    requires h.aug == g.aug[node := f(None, node.val, None)]
    ensures Propagating(h, k, Node(Leaf, node, Red, Leaf), f, null) && Up(k) == UpTo(k, null)
  {
    var t := Node(Leaf, node, Red, Leaf);
    PlugAug(g, k, Leaf, f);
    AugKFrame(g, h, k, f, None);
    AugKDirty(h, k, f, None);
    PlugRep(h, k, t); PlugApart(k, t);
    RepKIsPath(h, k, node);
  }

  lemma {:induction false} ShapedLinks(root: RbRoot, h: Shot)
    requires root.pool == Nodes(root.tree) && Apart(root.tree) && RepTree(h, root.tree) && AllLoopless(root.log)
    requires root.Now().top == h.top && root.Now().m == h.m
    ensures root.Shaped()
  {
    RepTreeLinks(h, root.Now(), root.tree);
  }

  lemma {:induction false} NotOnPath(k: Ctx, node: RbNode)
    requires node !in Nodes(Plug(k, Leaf))
    ensures node !in KNodes(k)
  {
    PlugNodes(k, Leaf);
  }

  lemma {:induction false} SameMaps(h: Shot, h': Shot)
    requires h.top == h'.top && h.m == h'.m
    ensures SameSlots(h, h')
  {}

  /**
   * rb_link_node, rbcompute for the new node, rbname_propagate for the nodes above it, and rb_insert_augmented, or
   * rb_insert_augmented_cached where there is a cache.
   */
  method LinkAugmented(root: RbRoot, leftmost: Leftmost?, node: RbNode, parent: RbNode?, s: Side, newleft: bool,
          f: Compute, ghost k: Ctx)
    requires root.Valid() && node !in root.pool && AugRep(root.Now(), root.tree, Some(f))
    requires root.tree == Plug(k, Leaf) && parent == Up(k) && (k.In? ==> k.s == s) && (newleft ==> leftmost != null)
    modifies root, root.pool, node, if leftmost == null then {} else {leftmost}
    ensures root.Valid() && AugRep(root.Now(), root.tree, Some(f)) && root.Recorded()
    ensures root.pool == old(root.pool) + {node} && Inorder(root.tree) == Inorder(Plug(k, Node(Leaf, node, Red, Leaf)))
    ensures leftmost != null ==> leftmost.node == if newleft then node else old(leftmost.node)
  {
    hide RepTree, Rep, Apart, Nodes, KNodes, Inorder, AugRep, AugOk, AllLoopless, Plug, IsRB, RbRoot.Now, Propagating,
      Associative;
    ghost var g := root.Now();
    NotOnPath(k, node);
    node.aug := f(None, node.val, None);
    assert root.Now() == g;
    LinkNode(root, node, parent, s, k);
    ghost var h := root.Now();
    LinkedDirty(g, h, k, node, f);
    Propagate(root, parent, null, f, k, Node(Leaf, node, Red, Leaf));
    ShapedLinks(root, h);
    AugRepSome(g, root.Now(), Plug(k, Leaf), root.tree, f);
    ghost var h' := root.Now();
    Insert(root, node, newleft, leftmost, Some(f), k);
    SameMaps(h, h');
    StepsFirst(g, h, h', old(root.log), root.log, root.Now());
  }

  /** The search of MY_RB_TREE_INSERT, then an augmented insertion into a tree with a cached first node. */
  method InsertAugmented(root: RbRoot, leftmost: Leftmost, node: RbNode, cmp: Cmp<Val>, f: Compute)
    requires root.Valid() && node !in root.pool && TotalPreorder(cmp) && NonIncreasing(Inorder(root.tree), cmp)
    requires AugRep(root.Now(), root.tree, Some(f)) && leftmost.node == FirstOf(Inorder(root.tree))
    modifies root, root.pool, node, leftmost
    ensures root.Valid() && root.pool == old(root.pool) + {node} && root.Recorded()
    ensures Inorder(root.tree) == Placed(old(Inorder(root.tree)), node, cmp) && NonIncreasing(Inorder(root.tree), cmp)
    ensures AugRep(root.Now(), root.tree, Some(f)) && leftmost.node == FirstOf(Inorder(root.tree))
  {
    hide RepTree, Apart, AllLoopless, Inorder, IsRB, Plug, TotalPreorder, NonIncreasing, Present, Nodes, Placed, Fenced,
      AugRep, RbRoot.Now;
    ghost var k, steps;
    var parent, side;
    parent, side, k, steps := Seek(root, node, cmp);
    NotThere(root, node);
    FlagTells(k, node, Inorder(root.tree), cmp);
    FirstPlug(k, node);
    var newleft := leftmost.node == null || cmp(leftmost.node.val, node.val) < 0;
    LinkAugmented(root, leftmost, node, parent, side, newleft, f, k);
  }
}
