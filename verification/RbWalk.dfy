/** Reading the tree: rb_first, rb_last, rb_next, rb_prev and the post-order walk (rbtree.c:473-672). */
module RbWalk {
  import opened Seqs
  import opened RbModel
  import opened RbHeap
  import opened RbRotate

  // ---- sequences ----

  ghost function FirstOf(s: seq<RbNode>): RbNode? { if s == [] then null else s[0] }

  ghost function LastOf(s: seq<RbNode>): RbNode? { if s == [] then null else s[|s| - 1] }

  /** What follows x in s. */
  ghost predicate Follows(s: seq<RbNode>, x: RbNode, y: RbNode?) {
    exists i :: 0 <= i < |s| && s[i] == x && y == FirstOf(s[i + 1..])
  }

  /** What precedes x in s. */
  ghost predicate Precedes(s: seq<RbNode>, x: RbNode, y: RbNode?) {
    exists i :: 0 <= i < |s| && s[i] == x && y == LastOf(s[..i])
  }

  /** In a sequence without repetitions, rb_next and rb_prev undo each other. */
  lemma {:induction false} FollowsPrecedes(s: seq<RbNode>, x: RbNode, y: RbNode)
    requires NoDup(s)
    ensures Follows(s, x, y) <==> Precedes(s, y, x)
  {
    if Follows(s, x, y) {
      var i :| 0 <= i < |s| && s[i] == x && y == FirstOf(s[i + 1..]);
      assert s[i + 1] == y && LastOf(s[..i + 1]) == x;
    }
    if Precedes(s, y, x) {
      var i :| 0 <= i < |s| && s[i] == y && x == LastOf(s[..i]);
      var j := i - 1;
      assert 0 <= j < |s| && s[j] == x && y == FirstOf(s[j + 1..]);
    }
  }

  lemma {:induction false} SplitFollows(s: seq<RbNode>, a: seq<RbNode>, x: RbNode, b: seq<RbNode>)
    requires s == a + [x] + b
    ensures Follows(s, x, FirstOf(b)) && Precedes(s, x, LastOf(a))
  {
    assert s[|a|] == x && s[|a| + 1..] == b && s[..|a|] == a;
  }

  // ---- what the walks read ----

  lemma {:induction false} NodeAt(h: Shot, k: Ctx, t: Tree)
    requires RepTree(h, Plug(k, t)) && Apart(Plug(k, t)) && t.Node?
    ensures t.x in h.m && h.m[t.x].left == Head(t.l) && h.m[t.x].right == Head(t.r) && h.m[t.x].parent == Up(k)
    ensures k.In? ==> k.x in h.m && k.x != t.x
    ensures k.In? ==> Kid(h.m[k.x], k.s) == t.x && Kid(h.m[k.x], Other(k.s)) == Head(k.far) && Head(k.far) != t.x
    ensures t.l.Node? ==> t.l.x in h.m
    ensures t.r.Node? ==> t.r.x in h.m
    ensures k.In? && k.far.Node? ==> k.far.x in h.m
  {
    PlugRep(h, k, t); PlugApart(k, t);
    if k.In? { assert k.far.Node? ==> k.far.x in Nodes(k.far); }
    assert t.x in Nodes(t);
  }

  lemma {:induction false} InorderAt(k: Ctx, t: Tree)
    requires t.Node?
    ensures Inorder(Plug(k, t)) == (Before(k) + Inorder(t.l)) + [t.x] + (Inorder(t.r) + After(k))
  {
    PlugInorder(k, t);
  }

  /** The node at the end of a sequence that side s names. */
  ghost function EndOf(s: Side, q: seq<RbNode>): RbNode? { if s.L? then FirstOf(q) else LastOf(q) }

  /** What lies beyond the hole on side s. */
  ghost function Beyond(s: Side, k: Ctx): seq<RbNode> { if s.L? then Before(k) else After(k) }

  ghost function Sub(t: Tree, s: Side): Tree
    requires t.Node?
  {
    if s.L? then t.l else t.r
  }

  /** The hole of t's subtree on side s. */
  ghost function DownCtx(k: Ctx, t: Tree, s: Side): Ctx
    requires t.Node?
  {
    In(s, t.x, t.c, Sub(t, Other(s)), k)
  }

  lemma {:induction false} Down(k: Ctx, t: Tree, s: Side)
    requires t.Node?
    ensures Plug(DownCtx(k, t, s), Sub(t, s)) == Plug(k, t)
    ensures Sub(t, s).Node? ==> EndOf(s, Inorder(t)) == EndOf(s, Inorder(Sub(t, s)))
    ensures Sub(t, s).Leaf? ==> EndOf(s, Inorder(t)) == t.x
  {
    if t.l.Node? { assert Inorder(t.l) != []; }
    if t.r.Node? { assert Inorder(t.r) != []; }
  }

  // ---- the code ----

  /** `while (n->rb_left) n = n->rb_left`, or the same to the right. */
  method Descend(root: RbRoot, n0: RbNode, s: Side, ghost k0: Ctx, ghost t0: Tree) returns (n: RbNode)
    requires root.Shaped() && t0.Node? && t0.x == n0 && Plug(k0, t0) == root.tree
    ensures n == EndOf(s, Inorder(t0))
  {
    n := n0;
    ghost var k, t := k0, t0;
    NodeAt(root.Now(), k, t);
    while ChildOf(n, s) != null
      invariant n in root.pool && t.Node? && t.x == n && Plug(k, t) == root.tree
        && EndOf(s, Inorder(t)) == EndOf(s, Inorder(t0))
      decreases t
    {
      NodeAt(root.Now(), k, t);
      Down(k, t, s);
      k, t := DownCtx(k, t, s), Sub(t, s);
      n := ChildOf(n, s);
      NodeAt(root.Now(), k, t);
    }
    NodeAt(root.Now(), k, t);
    Down(k, t, s);
  }

  /** `while ((parent = rb_parent(n)) && n == parent->rb_right) n = parent`, or the same with rb_left. */
  method Climb(root: RbRoot, n0: RbNode, s: Side, ghost k0: Ctx, ghost t0: Tree) returns (parent: RbNode?)
    requires root.Shaped() && t0.Node? && t0.x == n0 && Plug(k0, t0) == root.tree
    ensures parent == EndOf(Other(s), Beyond(s, k0))
  {
    var n := n0;
    ghost var k, t := k0, t0;
    NodeAt(root.Now(), k, t);
    parent := n.parent;
    while parent != null && n == ChildOf(parent, s)
      invariant n in root.pool && t.Node? && t.x == n && Plug(k, t) == root.tree && Beyond(s, k) == Beyond(s, k0)
      invariant parent == Up(k) && (parent != null ==> parent in root.pool)
      decreases Depth(k)
    {
      NodeAt(root.Now(), k, t);
      n := parent;
      k, t := k.up, Mk(k.s, t, k.x, k.c, k.far);
      NodeAt(root.Now(), k, t);
      parent := n.parent;
    }
    NodeAt(root.Now(), k, t);
  }

  method First(root: RbRoot) returns (n: RbNode?)
    requires root.Shaped()
    ensures n == FirstOf(Inorder(root.tree))
  {
    n := root.rb_node;
    if n == null { return null; }
    n := Descend(root, n, L, Top, root.tree);
  }

  method Last(root: RbRoot) returns (n: RbNode?)
    requires root.Shaped()
    ensures n == LastOf(Inorder(root.tree))
  {
    n := root.rb_node;
    if n == null { return null; }
    n := Descend(root, n, R, Top, root.tree);
  }

  lemma {:induction false} AtNode(root: RbRoot, node: RbNode) returns (k: Ctx, t: Tree)
    requires root.Shaped() && node in root.pool
    ensures Plug(k, t) == root.tree && t.Node? && t.x == node
    ensures node.left == Head(t.l) && node.right == Head(t.r) && node.parent == Up(k) && node.parent != node
    ensures Follows(Inorder(root.tree), node, FirstOf(Inorder(t.r) + After(k)))
    ensures Precedes(Inorder(root.tree), node, LastOf(Before(k) + Inorder(t.l)))
  {
    k, t := Locate(Top, root.tree, node);
    NodeAt(root.Now(), k, t);
    InorderAt(k, t);
    SplitFollows(Inorder(root.tree), Before(k) + Inorder(t.l), node, Inorder(t.r) + After(k));
  }

  method Next(root: RbRoot, node: RbNode) returns (r: RbNode?)
    requires root.Shaped() && node in root.pool
    ensures Follows(Inorder(root.tree), node, r)
  {
    ghost var k, t := AtNode(root, node);
    if node.parent == node { return null; }  // RB_EMPTY_NODE
    if node.right != null {
      Down(k, t, R);
      r := Descend(root, node.right, L, DownCtx(k, t, R), t.r);
    } else {
      r := Climb(root, node, R, k, t);
    }
  }

  method Prev(root: RbRoot, node: RbNode) returns (r: RbNode?)
    requires root.Shaped() && node in root.pool
    ensures Precedes(Inorder(root.tree), node, r)
  {
    hide Precedes, AllLoopless, Apart, RepTree, RbRoot.Now;
    ghost var k, t := AtNode(root, node);
    if node.parent == node { return null; }  // RB_EMPTY_NODE
    if node.left != null {
      Down(k, t, L);
      r := Descend(root, node.left, R, DownCtx(k, t, L), t.l);
    } else {
      r := Climb(root, node, L, k, t);
    }
  }

  lemma {:induction false} FollowsAt(s: seq<RbNode>, i: nat, y: RbNode?)
    requires NoDup(s) && i < |s| && Follows(s, s[i], y)
    ensures y == FirstOf(s[i + 1..])
  {}

  lemma {:induction false} InPool(t: Tree, i: nat)
    requires i < |Inorder(t)|
    ensures Inorder(t)[i] in Nodes(t)
  {
    InorderNodes(t);
    assert Inorder(t)[i] in Inorder(t);
  }

  /** The for-each macro over rb_first and rb_next visits every node once, in order. */
  method ForEach(root: RbRoot) returns (visited: seq<RbNode>)
    requires root.Shaped()
    ensures visited == Inorder(root.tree)
  {
    visited := [];
    ghost var s := Inorder(root.tree);
    ApartNoDup(root.tree);
    var pos := First(root);
    while pos != null
      invariant |visited| <= |s| && visited == s[..|visited|] && pos == FirstOf(s[|visited|..])
      decreases |s| - |visited|
    {
      ghost var i := |visited|;
      InPool(root.tree, i);
      var n := Next(root, pos);
      FollowsAt(s, i, n);
      visited := visited + [pos];
      pos := n;
    }
  }

  /** The loops from rb_last on with rb_prev. */
  method ForEachReverse(root: RbRoot) returns (visited: seq<RbNode>)
    requires root.Shaped()
    ensures |visited| == |Inorder(root.tree)|
    ensures forall i :: 0 <= i < |visited| ==> visited[i] == Inorder(root.tree)[|visited| - 1 - i]
  {
    hide Inorder, Precedes, NoDup, RbRoot.Now, AllLoopless, IsRB, Rep;
    visited := [];
    ghost var s := Inorder(root.tree);
    ApartNoDup(root.tree);
    var pos := Last(root);
    while pos != null
      invariant |visited| <= |s| && pos == LastOf(s[..|s| - |visited|])
      invariant forall i :: 0 <= i < |visited| ==> visited[i] == s[|s| - 1 - i]
      decreases |s| - |visited|
    {
      ghost var i := |s| - 1 - |visited|;
      InPool(root.tree, i);
      var n := Prev(root, pos);
      PrecedesAt(s, i, n);
      visited := visited + [pos];
      pos := n;
    }
  }

  lemma {:induction false} PrecedesAt(s: seq<RbNode>, i: nat, y: RbNode?)
    requires NoDup(s) && i < |s| && Precedes(s, s[i], y)
    ensures y == LastOf(s[..i])
  {}

  // ---- post-order ----

  ghost function Postorder(t: Tree): seq<RbNode> {
    match t
    case Leaf => []
    case Node(l, x, _, r) => Postorder(l) + Postorder(r) + [x]
  }

  ghost function PostBefore(k: Ctx): seq<RbNode> {
    match k
    case Top => []
    case In(s, _, _, far, up) => if s.L? then PostBefore(up) else PostBefore(up) + Postorder(far)
  }

  ghost function PostAfter(k: Ctx): seq<RbNode> {
    match k
    case Top => []
    case In(s, x, _, far, up) => (if s.L? then Postorder(far) else []) + [x] + PostAfter(up)
  }

  lemma {:induction false} PlugPostorder(k: Ctx, t: Tree)
    ensures Postorder(Plug(k, t)) == PostBefore(k) + Postorder(t) + PostAfter(k)
  {
    if k.In? { PlugPostorder(k.up, Mk(k.s, t, k.x, k.c, k.far)); }
  }

  lemma {:induction false} PostorderNodes(t: Tree)
    ensures forall n :: n in Postorder(t) ==> n in Nodes(t)
    ensures forall n :: n in Nodes(t) ==> n in Postorder(t)
  {
    if t.Node? { PostorderNodes(t.l); PostorderNodes(t.r); }
  }

  lemma {:induction false} PostorderNoDup(t: Tree)
    requires Apart(t)
    ensures NoDup(Postorder(t))
  {
    if t.Node? {
      PostorderNoDup(t.l); PostorderNoDup(t.r);
      PostorderNodes(t.l); PostorderNodes(t.r);
      NoDupConcat(Postorder(t.l), Postorder(t.r));
      NoDupConcat(Postorder(t.l) + Postorder(t.r), [t.x]);
    }
  }

  /** Every node comes after both of its children. */
  lemma {:induction false} ChildrenFirst(h: Shot, t: Tree, p: RbNode?, i: nat, j: nat)
    requires Rep(h, t, p) && Apart(t) && i < |Postorder(t)| && j < |Postorder(t)|
    requires var x, y := Postorder(t)[i], Postorder(t)[j]; x in h.m && (y == h.m[x].left || y == h.m[x].right)
    ensures j < i
  {
    var a, b := Postorder(t.l), Postorder(t.r);
    var x, y := Postorder(t)[i], Postorder(t)[j];
    PostorderNodes(t.l); PostorderNodes(t.r);
    RepRanked(h, t.l, t.x); RepRanked(h, t.r, t.x);
    assert y == Kid(h.m[x], L) || y == Kid(h.m[x], R);
    if i < |a| {
      assert x == a[i] && x in a;
      assert y in Nodes(t.l);
      if j < |a| {
        ChildrenFirst(h, t.l, t.x, i, j);
      }
    } else if i < |a| + |b| {
      assert x == b[i - |a|] && x in b;
      assert y in Nodes(t.r);
      if j < |a| {
      } else if j < |a| + |b| {
        assert y == b[j - |a|];
        ChildrenFirst(h, t.r, t.x, i - |a|, j - |a|);
      }
    } else {
      assert y in Nodes(t.l) + Nodes(t.r);
    }
  }

  /**
   * What a post-order walk has yet to read above a hole whose slot holds y: the path up, and the subtrees to come. The
   * walk has been in a subtree on the left already, and nothing is said about it.
   */
  ghost predicate AheadK(h: Shot, k: Ctx, y: RbNode?) {
    match k
    case Top => true
    case In(s, x, _, far, up) =>
      && x in h.m && h.m[x].parent == Up(up) && Kid(h.m[x], s) == y && Kid(h.m[x], Other(s)) == Head(far)
          && Head(far) != y
      && (s.L? ==> Rep(h, far, x) && Apart(far)) && AheadK(h, up, x)
  }

  /** The walk has come to node n in the hole k, and has been below it. */
  ghost predicate Reached(h: Shot, k: Ctx, n: RbNode) { n in h.m && h.m[n].parent == Up(k) && AheadK(h, k, n) }

  lemma {:induction false} AheadStarts(h: Shot, k: Ctx, t: Tree)
    requires RepK(h, k, Head(t)) && t.Node? && Apart(Plug(k, t))
    ensures AheadK(h, k, t.x)
  {
    PlugApart(k, t);
    if k.In? {
      HeadIn(k.far);
      AheadStarts(h, k.up, Mk(k.s, t, k.x, k.c, k.far));
    }
  }

  /** Only nodes that the walk has yet to come to matter. */
  lemma {:induction false} AheadFrame(g: Shot, h: Shot, k: Ctx, y: RbNode?)
    requires AheadK(g, k, y) && forall n :: n in PostAfter(k) && n in g.m ==> n in h.m && h.m[n] == g.m[n]
    ensures AheadK(h, k, y)
  {
    if k.In? {
      assert k.x in PostAfter(k);
      if k.s.L? {
        PostorderNodes(k.far);
        RepFrame(g, h, k.far, k.x);
      }
      AheadFrame(g, h, k.up, k.x);
    }
  }

  lemma {:induction false} DeeperLeft(h: Shot, k: Ctx, t: Tree)
    requires t.Node? && Rep(h, t, Up(k)) && Apart(t) && AheadK(h, k, t.x) && t.l.Node?
    ensures Rep(h, t.l, t.x) && Apart(t.l) && AheadK(h, DownCtx(k, t, L), t.l.x)
    ensures Postorder(t.l) + PostAfter(DownCtx(k, t, L)) == Postorder(t) + PostAfter(k)
  {
    hide Postorder, PostAfter;
    HeadIn(t.l); HeadIn(t.r);
    PostDown(k, t);
  }

  /** The post-order from a node's first child on. */
  lemma {:induction false} PostDown(k: Ctx, t: Tree)
    requires t.Node?
    ensures Postorder(t.l) + PostAfter(DownCtx(k, t, L)) == Postorder(t) + PostAfter(k)
    ensures t.l.Leaf? ==> Postorder(t.r) + PostAfter(DownCtx(k, t, R)) == Postorder(t) + PostAfter(k)
  {
    var a, b, c := Postorder(t.l), Postorder(t.r), PostAfter(k);
    assert PostAfter(DownCtx(k, t, L)) == b + [t.x] + c && PostAfter(DownCtx(k, t, R)) == [] + [t.x] + c;
    assert a + (b + [t.x] + c) == (a + b + [t.x]) + c;
    if t.l.Leaf? { assert b + ([] + [t.x] + c) == ([] + b + [t.x]) + c; }
  }

  lemma {:induction false} DeeperRight(h: Shot, k: Ctx, t: Tree)
    requires t.Node? && Rep(h, t, Up(k)) && Apart(t) && AheadK(h, k, t.x) && t.l.Leaf? && t.r.Node?
    ensures Rep(h, t.r, t.x) && Apart(t.r) && AheadK(h, DownCtx(k, t, R), t.r.x)
    ensures Postorder(t.r) + PostAfter(DownCtx(k, t, R)) == Postorder(t) + PostAfter(k)
  {
    hide Postorder, PostAfter;
    PostDown(k, t);
  }

  lemma {:induction false} DeepReads(h: Shot, k: Ctx, t: Tree)
    requires t.Node? && Rep(h, t, Up(k))
    ensures t.x in h.m && h.m[t.x].left == Head(t.l) && h.m[t.x].right == Head(t.r) && h.m[t.x].parent == Up(k)
    ensures t.l.Leaf? && t.r.Leaf? ==> Postorder(t) == [t.x]
    ensures t.l.Node? ==> t.l.x in h.m
    ensures t.r.Node? ==> t.r.x in h.m
  {}

  /** rb_left_deepest_node */
  method LeftDeepest(root: RbRoot, n0: RbNode, ghost k0: Ctx, ghost t0: Tree) returns (n: RbNode, ghost k: Ctx)
    requires t0.Node? && t0.x == n0 && Rep(root.Now(), t0, Up(k0)) && Apart(t0) && AheadK(root.Now(), k0, n0)
    ensures n in root.pool && Reached(root.Now(), k, n) && [n] + PostAfter(k) == Postorder(t0) + PostAfter(k0)
  {
    hide Rep, Apart, AheadK, RbRoot.Now, Postorder, PostAfter;
    n := n0;
    ghost var t;
    k, t := k0, t0;
    ghost var h := root.Now();
    root.Reads();
    DeepReads(h, k, t);
    while true
      invariant t.Node? && t.x == n && n in root.pool && Rep(h, t, Up(k)) && Apart(t) && AheadK(h, k, n)
      invariant Postorder(t) + PostAfter(k) == Postorder(t0) + PostAfter(k0)
      decreases t
    {
      DeepReads(h, k, t);
      root.ReadsAt(n);
      if n.left != null {
        DeeperLeft(h, k, t);
        k, t := DownCtx(k, t, L), t.l;
        n := n.left;
      } else if n.right != null {
        DeeperRight(h, k, t);
        k, t := DownCtx(k, t, R), t.r;
        n := n.right;
      } else {
        return;
      }
    }
  }

  /** rb_first_postorder */
  method FirstDeepest(root: RbRoot) returns (n: RbNode?, ghost k: Ctx)
    requires root.Shaped()
    ensures if n == null then Postorder(root.tree) == []
      else n in root.pool && Reached(root.Now(), k, n) && [n] + PostAfter(k) == Postorder(root.tree)
  {
    if root.rb_node == null { return null, Top; }
    n, k := LeftDeepest(root, root.rb_node, Top, root.tree);
    assert Postorder(root.tree) + PostAfter(Top) == Postorder(root.tree);
  }

  /** The node that it returns. */
  method FirstPostorder(root: RbRoot) returns (n: RbNode?)
    requires root.Shaped()
    ensures n == FirstOf(Postorder(root.tree))
  {
    ghost var k;
    n, k := FirstDeepest(root);
  }

  /** rb_next_postorder, at a node that the walk has come to. */
  method NextFrom(root: RbRoot, node: RbNode, ghost k: Ctx) returns (r: RbNode?, ghost k': Ctx)
    requires node in root.pool && Reached(root.Now(), k, node)
    ensures if r == null then PostAfter(k) == []
      else r in root.pool && Reached(root.Now(), k', r) && [r] + PostAfter(k') == PostAfter(k)
  {
    hide RbRoot.Now, Rep, Apart;
    root.Reads();
    root.ReadsAt(node);
    var parent := node.parent;
    if parent != null { root.ReadsAt(parent); }
    if parent != null && node == parent.left && parent.right != null {
      ghost var up := In(R, k.x, k.c, Node(Leaf, node, Red, Leaf), k.up);
      r, k' := LeftDeepest(root, parent.right, up, k.far);
      assert PostAfter(k) == Postorder(k.far) + ([k.x] + PostAfter(k.up));
    } else {
      return parent, if k.Top? then k else k.up;
    }
  }

  /** The walk comes to every node. */
  lemma {:induction false} ReachedPostorder(root: RbRoot, node: RbNode) returns (k: Ctx)
    requires root.Shaped() && node in root.pool
    ensures Reached(root.Now(), k, node) && Follows(Postorder(root.tree), node, FirstOf(PostAfter(k)))
  {
    var t;
    k, t := Locate(Top, root.tree, node);
    hide AllLoopless, RbRoot.Now, Follows;
    NodeAt(root.Now(), k, t);
    PlugRep(root.Now(), k, t);
    AheadStarts(root.Now(), k, t);
    PlugPostorder(k, t);
    SplitFollows(Postorder(root.tree), PostBefore(k) + Postorder(t.l) + Postorder(t.r), node, PostAfter(k));
  }

  /** rb_next_postorder, at any node */
  method NextPostorder(root: RbRoot, node: RbNode?) returns (r: RbNode?)
    requires root.Shaped() && (node != null ==> node in root.pool)
    ensures node == null ==> r == null
    ensures node != null ==> Follows(Postorder(root.tree), node, r)
  {
    if node == null { return null; }
    hide Postorder, PostAfter, RbRoot.Now, Follows, Reached, RepTree, Apart, Nodes, AllLoopless;
    ghost var k := ReachedPostorder(root, node);
    ghost var k';
    r, k' := NextFrom(root, node, k);
  }

  /**
   * rbtree_postorder_for_each_entry_safe: every node once, in post-order, whatever the body of the loop does
   * to the node it is given; it may free it.
   */
  method ForEachPostorder(root: RbRoot) returns (visited: seq<RbNode>)
    requires root.Shaped()
    modifies root.pool
    ensures visited == Postorder(root.tree)
  {
    hide Postorder, PostAfter, RbRoot.Now, Reached, SameBut, NoDup;
    ghost var s := Postorder(root.tree);
    PostorderNoDup(root.tree);
    visited := [];
    ghost var k;
    var pos;
    pos, k := FirstDeepest(root);
    while pos != null
      invariant s == if pos == null then visited else visited + [pos] + PostAfter(k)
      invariant pos != null ==> pos in root.pool && Reached(root.Now(), k, pos)
      decreases |s| - |visited|
    {
      ghost var g, k' := root.Now(), k;
      var n;
      n, k' := NextFrom(root, pos, k);
      Spoil(root, pos);  // the body of the loop
      if n != null {
        NotVisited(s, visited, pos, [n] + PostAfter(k'));
        SpoiltFrame(g, root.Now(), k', n, pos);
      }
      visited := visited + [pos];
      pos, k := n, k';
    }
  }

  /** Anything may happen to a node that the walk has left. */
  method Spoil(root: RbRoot, x: RbNode)
    requires x in root.pool
    modifies x
    ensures SameBut(old(root.Now()), root.Now(), old(root.Now()).m.Keys, x)
  {
    x.left, x.right, x.parent, x.color := *, *, *, *;
  }

  lemma {:induction false} NotVisited(s: seq<RbNode>, a: seq<RbNode>, x: RbNode, b: seq<RbNode>)
    requires NoDup(s) && s == a + [x] + b
    ensures x !in b
  {
    forall i | 0 <= i < |b| ensures b[i] != x { assert s[|a|] == x && s[|a| + 1 + i] == b[i]; }
  }

  lemma {:induction false} SpoiltFrame(g: Shot, h: Shot, k: Ctx, n: RbNode, x: RbNode)
    requires Reached(g, k, n) && x !in [n] + PostAfter(k) && SameBut(g, h, g.m.Keys, x)
    ensures Reached(h, k, n)
  {
    assert n in [n] + PostAfter(k);
    forall m | m in PostAfter(k) && m in g.m ensures m in h.m && h.m[m] == g.m[m] { assert m in [n] + PostAfter(k); }
    AheadFrame(g, h, k, n);
  }
}
