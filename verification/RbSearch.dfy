/** MY_RB_TREE_INSERT and MY_RB_TREE_FIND (myrbtree.h:47-83). */
module RbSearch {
  import opened Seqs
  import opened Compare
  import opened Powers
  import opened RbModel
  import opened RbHeap
  import opened RbInsert
  import opened RbWalk
  import opened RbErase
  import opened RbOrder

  /** Everything beyond the hole compares with v as the search path says. */
  ghost predicate Fenced(k: Ctx, v: Val, cmp: Cmp<Val>) {
    AllAtLeast(Before(k), v, cmp) && AllBelow(After(k), v, cmp)
  }

  lemma {:induction false} FenceLeft(k: Ctx, t: Tree, v: Val, cmp: Cmp<Val>)
    requires TotalPreorder(cmp) && NonIncreasing(Inorder(Plug(k, t)), cmp) && t.Node? && Fenced(k, v, cmp)
      && cmp(t.x.val, v) < 0
    ensures Fenced(DownCtx(k, t, L), v, cmp)
  {
    hide TotalPreorder, Inorder, Plug;
    InorderAt(k, t);
    var s, r := Inorder(Plug(k, t)), Inorder(t.r);
    var i := |Before(k) + Inorder(t.l)|;
    assert s[i] == t.x;
    forall j | 0 <= j < |r| ensures cmp(r[j].val, v) < 0 {
      assert s[i + 1 + j] == r[j];
      Smaller(t.x.val, r[j].val, v, cmp);
    }
  }

  lemma {:induction false} FenceRight(k: Ctx, t: Tree, v: Val, cmp: Cmp<Val>)
    requires TotalPreorder(cmp) && NonIncreasing(Inorder(Plug(k, t)), cmp) && t.Node? && Fenced(k, v, cmp)
      && cmp(t.x.val, v) >= 0
    ensures Fenced(DownCtx(k, t, R), v, cmp)
  {
    hide TotalPreorder, Inorder, Plug;
    InorderAt(k, t);
    var s, l := Inorder(Plug(k, t)), Inorder(t.l);
    var i := |Before(k) + l|;
    assert s[i] == t.x;
    forall j | 0 <= j < |l| ensures cmp(l[j].val, v) >= 0 {
      assert s[|Before(k)| + j] == l[j];
      Trans(l[j].val, t.x.val, v, cmp);
    }
  }

  /** Nodes larger than v, with no equal among them. */
  ghost predicate AllAbove(s: seq<RbNode>, v: Val, cmp: Cmp<Val>) { forall i :: 0 <= i < |s| ==> cmp(s[i].val, v) > 0 }

  lemma {:induction false} FenceAbove(k: Ctx, t: Tree, v: Val, cmp: Cmp<Val>)
    requires TotalPreorder(cmp) && NonIncreasing(Inorder(Plug(k, t)), cmp) && t.Node?
      && AllAbove(Before(k), v, cmp) && cmp(t.x.val, v) > 0
    ensures AllAbove(Before(DownCtx(k, t, R)), v, cmp)
  {
    hide TotalPreorder, Inorder, Plug;
    InorderAt(k, t);
    var s, l := Inorder(Plug(k, t)), Inorder(t.l);
    var i := |Before(k) + l|;
    assert s[i] == t.x;
    forall j | 0 <= j < |l| ensures cmp(l[j].val, v) > 0 {
      assert s[|Before(k)| + j] == l[j];
      assert cmp(l[j].val, t.x.val) >= 0;
      Flip(l[j].val, v, cmp); Flip(t.x.val, v, cmp);
      if cmp(v, l[j].val) >= 0 { Trans(v, l[j].val, t.x.val, cmp); }
    }
  }

  ghost predicate Present(s: seq<RbNode>, v: Val, cmp: Cmp<Val>) { exists i :: 0 <= i < |s| && cmp(s[i].val, v) == 0 }

  lemma {:induction false} NotPresent(k: Ctx, v: Val, cmp: Cmp<Val>)
    requires AllAbove(Before(k), v, cmp) && AllBelow(After(k), v, cmp)
    ensures !Present(Inorder(Plug(k, Leaf)), v, cmp)
  {
    PlugInorder(k, Leaf);
    var s := Inorder(Plug(k, Leaf));
    forall i | 0 <= i < |s| ensures cmp(s[i].val, v) != 0 {
      if i < |Before(k)| { assert s[i] == Before(k)[i]; } else { assert s[i] == After(k)[i - |Before(k)|]; }
    }
  }

  lemma {:induction false} IsPresent(k: Ctx, t: Tree, v: Val, cmp: Cmp<Val>)
    requires t.Node? && cmp(t.x.val, v) == 0
    ensures Present(Inorder(Plug(k, t)), v, cmp) && t.x in Inorder(Plug(k, t))
  {
    InorderAt(k, t);
    assert Inorder(Plug(k, t))[|Before(k) + Inorder(t.l)|] == t.x;
  }

  /** A search that has gone `steps` nodes deep in a tree of n nodes has made at most 2 * log2(n + 1) steps. */
  lemma {:induction false} StepsBound(root: RbRoot, k: Ctx, t: Tree, steps: nat)
    requires root.Valid() && root.tree == Plug(k, t) && steps <= Depth(k) + Height(t)
    ensures Pow2(steps) <= (|Inorder(root.tree)| + 1) * (|Inorder(root.tree)| + 1)
  {
    hide RepTree, Apart, AllLoopless, Inorder;
    DepthHeight(k, t);
    HeightBound(root.tree);
    CountInorder(root.tree);
    Pow2Mono(steps, Height(root.tree));
  }

  /** MY_RB_TREE_FIND; `steps` counts the nodes it compares with. */
  method Find(root: RbRoot, key: Val, cmp: Cmp<Val>) returns (res: RbNode?, ghost steps: nat)
    requires root.Valid() && TotalPreorder(cmp) && NonIncreasing(Inorder(root.tree), cmp)
    ensures res == null <==> !Present(Inorder(root.tree), key, cmp)
    ensures res != null ==> res in Inorder(root.tree) && cmp(res.val, key) == 0
    ensures Pow2(steps) <= (|Inorder(root.tree)| + 1) * (|Inorder(root.tree)| + 1)
  {
    hide RepTree, Apart, AllLoopless, Inorder, IsRB, Plug, TotalPreorder, NonIncreasing, Present;
    var p := root.rb_node;
    ghost var k, t := Top, root.tree;
    steps := 0;
    RootOf(root);
    while p != null
      invariant root.tree == Plug(k, t) && p == Head(t) && (p != null ==> p in root.pool)
      invariant AllAbove(Before(k), key, cmp) && AllBelow(After(k), key, cmp) && steps == Depth(k)
      decreases t
    {
      NodeAt(root.Now(), k, t);
      steps := steps + 1;
      var r := cmp(p.val, key);
      if r < 0 {
        AboveAtLeast(Before(k), key, cmp);
        FenceLeft(k, t, key, cmp);
        Down(k, t, L);
        k, t := DownCtx(k, t, L), t.l;
        p := p.left;
      } else if r > 0 {
        FenceAbove(k, t, key, cmp);
        Down(k, t, R);
        k, t := DownCtx(k, t, R), t.r;
        p := p.right;
      } else {
        IsPresent(k, t, key, cmp);
        StepsBound(root, k, t, steps);
        return p, steps;
      }
    }
    NotPresent(k, key, cmp);
    StepsBound(root, k, t, steps);
    res := null;
  }

  lemma {:induction false} AboveAtLeast(s: seq<RbNode>, v: Val, cmp: Cmp<Val>)
    requires AllAbove(s, v, cmp)
    ensures AllAtLeast(s, v, cmp)
  {}

  lemma {:induction false} RootOf(root: RbRoot)
    requires root.Valid()
    ensures root.rb_node == Head(root.tree) && (root.rb_node != null ==> root.rb_node in root.pool)
    ensures Plug(Top, root.tree) == root.tree && Before(Top) == [] && After(Top) == []
  {}

  /** MY_RB_TREE_INSERT; `steps` counts the nodes the search compares with. */
  method InsertNode(root: RbRoot, node: RbNode, cmp: Cmp<Val>) returns (ghost steps: nat)
    requires root.Valid() && node !in root.pool && TotalPreorder(cmp) && NonIncreasing(Inorder(root.tree), cmp)
    modifies root, root.pool, node
    ensures root.Valid() && root.pool == old(root.pool) + {node} && root.Recorded()
    ensures Inorder(root.tree) == Placed(old(Inorder(root.tree)), node, cmp) && NonIncreasing(Inorder(root.tree), cmp)
    ensures Pow2(steps) <= old((|Inorder(root.tree)| + 1) * (|Inorder(root.tree)| + 1))
  {
    hide RepTree, Apart, AllLoopless, Inorder, IsRB, Plug, TotalPreorder, NonIncreasing, Present, Nodes, Placed, Fenced,
      RbRoot.Now, Steps, SameSlots;
    ghost var k;
    var parent, s;
    parent, s, k, steps := Seek(root, node, cmp);
    LinkNode(root, node, parent, s, k);
    ghost var h := root.Now();
    InsertColor(root, node, k);
    SameSelf(h);
    StepsFirst(old(root.Now()), h, h, old(root.log), root.log, root.Now());
  }

  /** The search of MY_RB_TREE_INSERT: the empty slot that the node goes to. */
  method Seek(root: RbRoot, node: RbNode, cmp: Cmp<Val>)
    returns (parent: RbNode?, s: Side, ghost k: Ctx, ghost steps: nat)
    requires root.Valid() && TotalPreorder(cmp) && NonIncreasing(Inorder(root.tree), cmp)
    ensures root.tree == Plug(k, Leaf) && parent == Up(k) && (k.In? ==> k.s == s)
    ensures Inorder(Plug(k, Node(Leaf, node, Red, Leaf))) == Placed(Inorder(root.tree), node, cmp)
    ensures NonIncreasing(Placed(Inorder(root.tree), node, cmp), cmp)
    ensures Pow2(steps) <= (|Inorder(root.tree)| + 1) * (|Inorder(root.tree)| + 1)
  {
    hide RepTree, Apart, AllLoopless, Inorder, IsRB, Plug, TotalPreorder, NonIncreasing, Present, Nodes, Placed, Fenced;
    var p := root.rb_node;
    parent, s, steps := null, L, 0;
    ghost var t := root.tree;
    k := Top;
    RootOf(root);
    FenceTop(node.val, cmp);
    while p != null
      invariant root.tree == Plug(k, t) && p == Head(t) && (p != null ==> p in root.pool)
      invariant parent == Up(k) && (k.In? ==> k.s == s) && Fenced(k, node.val, cmp) && steps == Depth(k)
      decreases t
    {
      NodeAt(root.Now(), k, t);
      steps := steps + 1;
      parent := p;
      if cmp(p.val, node.val) < 0 {
        FenceLeft(k, t, node.val, cmp);
        Down(k, t, L);
        k, t := DownCtx(k, t, L), t.l;
        p, s := p.left, L;
      } else {
        FenceRight(k, t, node.val, cmp);
        Down(k, t, R);
        k, t := DownCtx(k, t, R), t.r;
        p, s := p.right, R;
      }
    }
    StepsBound(root, k, t, steps);
    PlacedNonIncreasing(Inorder(root.tree), node, cmp);
    LinkedOrder(k, node, cmp);
  }

  lemma {:induction false} FenceTop(v: Val, cmp: Cmp<Val>)
    ensures Fenced(Top, v, cmp)
  {}

  lemma {:induction false} LinkedOrder(k: Ctx, node: RbNode, cmp: Cmp<Val>)
    requires Fenced(k, node.val, cmp)
    ensures Inorder(Plug(k, Node(Leaf, node, Red, Leaf))) == Placed(Inorder(Plug(k, Leaf)), node, cmp)
  {
    PlugInorder(k, Leaf); PlugInorder(k, Node(Leaf, node, Red, Leaf));
    assert Before(k) + Inorder(Leaf) + After(k) == Before(k) + After(k);
    PlacedSplit(Before(k), After(k), node, cmp);
  }

  /** The loops that myrbtree.h calls sort order: from rb_last on with rb_prev, keys never fall. */
  method ForEachSorted(root: RbRoot, cmp: Cmp<Val>) returns (visited: seq<RbNode>)
    requires root.Shaped() && TotalPreorder(cmp) && NonIncreasing(Inorder(root.tree), cmp)
    ensures |visited| == |Inorder(root.tree)|
    ensures forall i, j :: 0 <= i < j < |visited| ==>
      visited[i] != visited[j] && cmp(visited[i].val, visited[j].val) <= 0
  {
    ghost var s := Inorder(root.tree);
    ApartNoDup(root.tree);
    visited := ForEachReverse(root);
    hide TotalPreorder;
    forall i, j | 0 <= i < j < |visited| ensures visited[i] != visited[j] && cmp(visited[i].val, visited[j].val) <= 0 {
      Flip(visited[i].val, visited[j].val, cmp);
      assert visited[i] == s[|s| - 1 - i] && visited[j] == s[|s| - 1 - j];
    }
  }

  /** The caller's flag: the new node comes first if the cached one compares below it, or there is none. */
  lemma {:induction false} FlagTells(k: Ctx, node: RbNode, s: seq<RbNode>, cmp: Cmp<Val>)
    requires Inorder(Plug(k, Leaf)) == s && Inorder(Plug(k, Node(Leaf, node, Red, Leaf))) == Placed(s, node, cmp)
      && node !in s
    ensures Before(k) == [] <==> FirstOf(s) == null || cmp(s[0].val, node.val) < 0
  {
    FirstPlug(k, node);
    PlugInorder(k, Leaf);
  }

  /** The search of MY_RB_TREE_INSERT, then rb_link_node and rb_insert_color_cached. */
  method InsertNodeCached(root: RbRoot, leftmost: Leftmost, node: RbNode, cmp: Cmp<Val>)
    requires root.Valid() && node !in root.pool && TotalPreorder(cmp) && NonIncreasing(Inorder(root.tree), cmp)
    requires leftmost.node == FirstOf(Inorder(root.tree))
    modifies root, root.pool, node, leftmost
    ensures root.Valid() && root.pool == old(root.pool) + {node} && root.Recorded()
    ensures Inorder(root.tree) == Placed(old(Inorder(root.tree)), node, cmp) && NonIncreasing(Inorder(root.tree), cmp)
    ensures leftmost.node == FirstOf(Inorder(root.tree))
  {
    hide RepTree, Apart, AllLoopless, Inorder, IsRB, Plug, TotalPreorder, NonIncreasing, Present, Nodes, Placed, Fenced,
      RbRoot.Now, Steps, SameSlots;
    ghost var k, steps;
    var parent, side;
    parent, side, k, steps := Seek(root, node, cmp);
    NotThere(root, node);
    FlagTells(k, node, Inorder(root.tree), cmp);
    var newleft := leftmost.node == null || cmp(leftmost.node.val, node.val) < 0;
    LinkNode(root, node, parent, side, k);
    ghost var h := root.Now();
    InsertColorCached(root, leftmost, node, newleft, k);
    SameSelf(h);
    StepsFirst(old(root.Now()), h, h, old(root.log), root.log, root.Now());
  }

  lemma {:induction false} NotThere(root: RbRoot, node: RbNode)
    requires root.Valid() && node !in root.pool
    ensures node !in Inorder(root.tree)
  {
    InorderNodes(root.tree);
  }
}
