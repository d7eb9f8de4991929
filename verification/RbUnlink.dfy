/** __rb_erase_augmented: takes a node out of the tree (rbtree_augmented.h:78-112, 166-272). */
module RbUnlink {
  import opened RbModel
  import opened RbHeap
  import opened RbRotate
  import opened RbInsert

  // ---- a path inside a subtree ----

  /** The node right above the hole of a path whose outermost node hangs under `stop`. */
  function UpTo(k: Ctx, stop: RbNode?): RbNode? { if k.Top? then stop else k.x }

  /** The path kk, continued by base. */
  function Graft(kk: Ctx, base: Ctx): Ctx {
    match kk
    case Top => base
    case In(s, x, c, far, up) => In(s, x, c, far, Graft(up, base))
  }

  lemma {:induction false} GraftPlug(kk: Ctx, base: Ctx, t: Tree)
    ensures Plug(Graft(kk, base), t) == Plug(base, Plug(kk, t))
  {
    if kk.In? { GraftPlug(kk.up, base, Mk(kk.s, t, kk.x, kk.c, kk.far)); }
  }

  /** Colours do not depend on which node sits where the paths meet. */
  lemma {:induction false} GraftRBK(kk: Ctx, s: Side, x: RbNode, y: RbNode, c: Color, far: Tree, up: Ctx, h: nat)
    requires RBK(Graft(kk, In(s, x, c, far, up)), h)
    ensures RBK(Graft(kk, In(s, y, c, far, up)), h)
  {
    if kk.In? {
      if kk.up.In? { assert Graft(kk.up, In(s, y, c, far, up)).In?; }
      GraftRBK(kk.up, s, x, y, c, far, up, Rise(h, kk.c));
    }
  }

  predicate AllLeft(kk: Ctx) { kk.In? ==> kk.s.L? && AllLeft(kk.up) }

  /** Memory along the path, whose outermost node hangs under `stop`. */
  ghost predicate RepPath(h: Shot, k: Ctx, y: RbNode?, stop: RbNode?) {
    match k
    case Top => true
    case In(s, x, c, far, up) =>
      x in h.m && h.m[x] == MkRec(s, y, Head(far), UpTo(up, stop), c) && Rep(h, far, x) && RepPath(h, up, x, stop)
  }

  lemma {:induction false} PlugRepPath(h: Shot, k: Ctx, t: Tree, stop: RbNode?)
    ensures Rep(h, Plug(k, t), stop) <==> RepPath(h, k, Head(t), stop) && Rep(h, t, UpTo(k, stop))
  {
    if k.In? { PlugRepPath(h, k.up, Mk(k.s, t, k.x, k.c, k.far), stop); }
  }

  lemma {:induction false} RepKIsPath(h: Shot, k: Ctx, y: RbNode?)
    requires RepK(h, k, y)
    ensures RepPath(h, k, y, null)
  {
    if k.In? { RepKIsPath(h, k.up, k.x); }
  }

  lemma {:induction false} RepPathFrame(g: Shot, h: Shot, k: Ctx, y: RbNode?, stop: RbNode?)
    requires RepPath(g, k, y, stop) && Same(g, h, KNodes(k))
    ensures RepPath(h, k, y, stop)
  {
    if k.In? { RepFrame(g, h, k.far, k.x); RepPathFrame(g, h, k.up, k.x, stop); }
  }

  /** The slot above the hole gets a new value. */
  lemma {:induction false} RepPathSlot(g: Shot, h: Shot, k: Ctx, y: RbNode?, z: RbNode?, stop: RbNode?)
    requires RepPath(g, k, y, stop) && ApartK(k)
    requires k.In? ==> k.x in h.m && h.m[k.x] == WithKid(g.m[k.x], k.s, z)
    requires SameBut(g, h, KNodes(k), Up(k))
    ensures RepPath(h, k, z, stop)
  {
    if k.In? { RepFrame(g, h, k.far, k.x); RepPathFrame(g, h, k.up, k.x, stop); }
  }

  /** The outermost node of a path. */
  function Outer(k: Ctx): RbNode? { if k.Top? then null else if k.up.Top? then k.x else Outer(k.up) }

  lemma {:induction false} OuterHead(k: Ctx, t: Tree)
    requires k.In?
    ensures Head(Plug(k, t)) == Outer(k) && Outer(k) in KNodes(k)
  {
    if k.up.In? { OuterHead(k.up, Mk(k.s, t, k.x, k.c, k.far)); }
  }

  /** The outermost node gets a new parent. */
  lemma {:induction false} RepPathStop(g: Shot, h: Shot, k: Ctx, y: RbNode?, stop: RbNode?, stop': RbNode?)
    requires RepPath(g, k, y, stop) && ApartK(k)
    requires k.In? ==> Outer(k) in g.m && Outer(k) in h.m && h.m[Outer(k)] == g.m[Outer(k)].(parent := stop')
    requires SameBut(g, h, KNodes(k), Outer(k))
    ensures RepPath(h, k, y, stop')
  {
    if k.In? {
      OuterHead(k, Leaf);
      if k.up.In? { OuterHead(k.up, Leaf); }
      RepFrame(g, h, k.far, k.x);
      RepPathStop(g, h, k.up, k.x, stop, stop');
    }
  }

  // ---- augmented values on the way up ----

  /** The first node above the hole may store anything; the ones above it agree with what it stores. */
  ghost predicate Dirty(h: Shot, k: Ctx, f: Compute) {
    k.In? ==> k.x in h.aug && AugOk(h, k.far, f) && AugK(h, k.up, f, AugOf(h, k.x))
  }

  lemma {:induction false} AugKDirty(h: Shot, k: Ctx, f: Compute, v: Option<Aug>)
    requires AugK(h, k, f, v)
    ensures Dirty(h, k, f)
  {}

  /** If the recomputed value is the stored one, everything above is right already. */
  lemma {:induction false} PropagateStops(h: Shot, k: Ctx, t: Tree, f: Compute, stop: RbNode?)
    requires k.In? && RepPath(h, k, Head(t), stop) && AugOk(h, t, f) && Dirty(h, k, f)
    requires k.x in h.m && h.aug[k.x] == Computed(h, k.x, f)
    ensures AugOk(h, Plug(k, t), f)
  {
    AugHead(h, t, f); AugHead(h, k.far, f);
    PlugAug(h, k, t, f);
  }

  /** Otherwise the value is stored and the next node up may be wrong. */
  lemma {:induction false} PropagateGoesOn(g: Shot, h: Shot, k: Ctx, t: Tree, f: Compute, stop: RbNode?)
    requires k.In? && RepPath(g, k, Head(t), stop) && AugOk(g, t, f) && Dirty(g, k, f)
    requires ApartK(k) && k.x !in Nodes(t) && k.x in g.m && h == PutAug(g, k.x, Computed(g, k.x, f))
    ensures AugOk(h, Mk(k.s, t, k.x, k.c, k.far), f) && Dirty(h, k.up, f)
  {
    AugHead(g, t, f); AugHead(g, k.far, f);
    AugFrame(g, h, t, f); AugFrame(g, h, k.far, f);
    MkAug(h, k.s, t, k.x, k.c, k.far, f);
    if k.up.In? {
      AugFrame(g, h, k.up.far, f);
      AugKFrame(g, h, k.up.up, f, AugOf(g, k.up.x));
    }
  }

  lemma {:induction false} RepPathLinks(g: Shot, h: Shot, k: Ctx, y: RbNode?, stop: RbNode?)
    requires RepPath(g, k, y, stop) && g.m == h.m
    ensures RepPath(h, k, y, stop)
  {
    RepPathFrame(g, h, k, y, stop);
  }

  /** What holds while the values between the hole and `stop` are being repaired. */
  ghost predicate Propagating(h: Shot, k: Ctx, t: Tree, f: Compute, stop: RbNode?) {
    && RepPath(h, k, Head(t), stop) && AugOk(h, t, f) && Dirty(h, k, f)
    && ApartK(k) && Apart(t) && KNodes(k) !! Nodes(t) && stop !in KNodes(k)
  }

  lemma {:induction false} PropagateStep(g: Shot, h: Shot, k: Ctx, t: Tree, f: Compute, stop: RbNode?)
    requires k.In? && Propagating(g, k, t, f, stop) && k.x in g.m && h == PutAug(g, k.x, Computed(g, k.x, f))
    ensures Propagating(h, k.up, Mk(k.s, t, k.x, k.c, k.far), f, stop)
  {
    PropagateGoesOn(g, h, k, t, f, stop);
    RepPathLinks(g, h, k.up, k.x, stop);
    MkApart(k.s, t, k.x, k.c, k.far);
  }

  lemma {:induction false} PropagateReads(h: Shot, k: Ctx, t: Tree, f: Compute, stop: RbNode?)
    requires k.In? && Propagating(h, k, t, f, stop) && (t.Node? ==> t.x in h.m)
    ensures k.x in h.m && k.x in h.aug && h.m[k.x].parent == UpTo(k.up, stop) && k.x != stop
    ensures h.m[k.x].left != null ==> h.m[k.x].left in h.m
    ensures h.m[k.x].right != null ==> h.m[k.x].right in h.m
  {}

  /** rbname_propagate(rb, stop) */
  method Propagate(root: RbRoot, rb0: RbNode?, stop: RbNode?, f: Compute, ghost k0: Ctx, ghost t0: Tree)
    requires Propagating(root.Now(), k0, t0, f, stop) && rb0 == UpTo(k0, stop)
    requires t0.Node? ==> t0.x in root.pool
    modifies root, root.pool
    ensures root.Kept() && root.log == old(root.log) && root.Now().m == old(root.Now().m)
      && root.Now().top == old(root.Now().top)
    ensures AugOk(root.Now(), Plug(k0, t0), f)
    ensures forall n :: n !in KNodes(k0) ==> AugOf(root.Now(), n) == AugOf(old(root.Now()), n)
  {
    hide RepPath, AugOk, Apart, ApartK, Nodes, Dirty, Propagating;
    ghost var g := root.Now();
    ghost var k, t := k0, t0;
    var rb := rb0;
    while rb != stop
      invariant Propagating(root.Now(), k, t, f, stop) && rb == UpTo(k, stop) && Plug(k, t) == Plug(k0, t0)
      invariant root.Kept() && root.log == old(root.log) && root.Now().m == g.m && root.Now().top == g.top
      invariant KNodes(k) <= KNodes(k0) && (t.Node? ==> t.x in g.m)
      invariant forall n :: n !in KNodes(k0) ==> AugOf(root.Now(), n) == AugOf(g, n)
      decreases Depth(k)
    {
      assert k.In?;
      ghost var h := root.Now();
      PropagateReads(h, k, t, f, stop);
      var augmented := f(if rb.left == null then None else Some(rb.left.aug), rb.val,
                         if rb.right == null then None else Some(rb.right.aug));
      assert augmented == Computed(h, rb, f);
      if rb.aug == augmented {
        PropagateEnds(h, k, t, f, stop);
        return;
      }
      root.SetAug(rb, augmented);
      PropagateStep(h, root.Now(), k, t, f, stop);
      k, t := k.up, Mk(k.s, t, k.x, k.c, k.far);
      rb := rb.parent;
    }
    PropagateTop(root.Now(), k, t, f, stop);
  }

  lemma {:induction false} PropagateEnds(h: Shot, k: Ctx, t: Tree, f: Compute, stop: RbNode?)
    requires k.In? && Propagating(h, k, t, f, stop) && k.x in h.m && k.x in h.aug && h.aug[k.x] == Computed(h, k.x, f)
    ensures AugOk(h, Plug(k, t), f)
  {
    PropagateStops(h, k, t, f, stop);
  }

  lemma {:induction false} PropagateTop(h: Shot, k: Ctx, t: Tree, f: Compute, stop: RbNode?)
    requires Propagating(h, k, t, f, stop) && UpTo(k, stop) == stop
    ensures AugOk(h, Plug(k, t), f)
  {}

  // ---- Case 1: at most one child ----

  /** __rb_change_child hits the slot of the hole. */
  lemma {:induction false} ChildSlot(h: Shot, k: Ctx, node: RbNode, y: RbNode?)
    requires RepK(h, k, node) && ApartK(k) && node !in KNodes(k)
    ensures k.In? ==> k.x in h.m && k.x != node
    ensures PutChild(h, node, y, Up(k)) == if k.Top? then PutTop(h, y) else PutKid(h, k.x, k.s, y)
  {
    if k.In? { HeadIn(k.far); }
  }

  /** The only child t takes the place and the colour of its parent. */
  lemma {:induction false} SpliceRep(g: Shot, h: Shot, k: Ctx, node: RbNode, c: Color, t: Tree)
    requires RepK(g, k, node) && RepAny(g, t) && ApartK(k) && Apart(t) && KNodes(k) !! Nodes(t)
    requires k.Top? ==> h.top == Head(t)
    requires k.In? ==> h.top == g.top && k.x in g.m && k.x in h.m && h.m[k.x] == WithKid(g.m[k.x], k.s, Head(t))
    requires t.Node? ==> t.x in g.m && t.x in h.m && h.m[t.x] == g.m[t.x].(parent := Up(k), color := c)
    requires SameOff(g, h, Up(k), Head(t), null, null)
    ensures RepTree(h, Plug(k, Paint(t, c)))
  {
    HeadIn(t); UpIn(k);
    RepMove(g, h, t, Up(k), c);
    RepKMove(g, h, k, node, Head(t));
    PlugRep(h, k, Paint(t, c));
  }

  lemma {:induction false} SpliceOrder(k: Ctx, node: RbNode, c: Color, t: Tree)
    ensures Nodes(Plug(k, Paint(t, c))) == KNodes(k) + Nodes(t)
    ensures Inorder(Plug(k, Paint(t, c))) == Before(k) + Inorder(t) + After(k)
    ensures Apart(Plug(k, Paint(t, c))) <==> ApartK(k) && Apart(t) && KNodes(k) !! Nodes(t)
  {
    PlugNodes(k, Paint(t, c)); PlugInorder(k, Paint(t, c)); PlugApart(k, Paint(t, c));
  }

  /** While a node with at most one child goes, and once it is gone, nothing loops. */
  lemma {:induction false} SpliceLoopless(h: Shot, g: Shot, k: Ctx, node: RbNode, c: Color, t: Tree)
    requires RepTree(g, Plug(k, Paint(t, c))) && Apart(Plug(k, Paint(t, c))) && node !in Nodes(Plug(k, Paint(t, c)))
    requires h.m.Keys == g.m.Keys == Nodes(Plug(k, Paint(t, c))) + {node}
    requires forall n :: n in h.m ==> h.m[n].left == g.m[n].left && h.m[n].right == g.m[n].right
    requires (h.m[node].left == null && h.m[node].right == Head(t)) || (h.m[node].left == Head(t)
      && h.m[node].right == null)
    ensures Loopless(h)
  {
    SpliceOrder(k, node, c, t);
    HeadIn(t);
    NearLoopless(h, g, Plug(k, Paint(t, c)), node, Head(t));
  }

  /** Colours: a lone child is red and its parent black; without a child, a black node leaves a deficit. */
  lemma {:induction false} SpliceRB(k: Ctx, l: Tree, node: RbNode, c: Color, r: Tree, t: Tree)
    requires IsRB(Plug(k, Node(l, node, c, r))) && ((l.Leaf? && t == r) || (r.Leaf? && t == l))
    ensures t.Node? || c.Red? || k.Top? ==> IsRB(Plug(k, Paint(t, c)))
    ensures t.Leaf? && c.Black? && k.In? ==> RBK(k, 1)
  {
    var h := UnplugRB(k, Node(l, node, c, r));
    if t.Node? {
      assert RB(Paint(t, c), 1);
      PlugRB(k, Paint(t, c), 1);
    } else if c.Red? {
      PlugRB(k, Leaf, 0);
    } else if k.Top? {
      assert RB(Leaf, 0);
    }
  }

  lemma {:induction false} SpliceDirty(h: Shot, g: Shot, k: Ctx, l: Tree, node: RbNode, c: Color, r: Tree, t: Tree,
          augment: Option<Compute>)
    requires AugRep(h, Plug(k, Node(l, node, c, r)), augment) && (t == l || t == r) && g.aug == h.aug
    requires RepTree(g, Plug(k, Paint(t, c))) && Apart(Plug(k, Paint(t, c)))
    ensures augment.Some? ==> Propagating(g, k, Paint(t, c), augment.value, null)
  {
    if augment.Some? {
      var f := augment.value;
      PlugAug(h, k, Node(l, node, c, r), f);
      AugFrame(h, g, t, f);
      AugKFrame(h, g, k, f, Agg(Node(l, node, c, r), f));
      AugKDirty(g, k, f, Agg(Node(l, node, c, r), f));
      PlugRep(g, k, Paint(t, c)); PlugApart(k, Paint(t, c));
      RepKIsPath(g, k, Head(t));
    }
  }

  /** A tree about to lose the node in hole k. */
  ghost predicate Doomed(h: Shot, k: Ctx, l: Tree, node: RbNode, c: Color, r: Tree, pool: set<RbNode>,
          augment: Option<Compute>) {
    var t := Plug(k, Node(l, node, c, r));
    RepTree(h, t) && Apart(t) && pool == Nodes(t) && IsRB(t) && AugRep(h, t, augment)
  }

  /** Links and order are final; the node is still in the pool, and its own links still lead into the tree. */
  ghost predicate Spliced(h: Shot, T: Tree, node: RbNode, pool: set<RbNode>) {
    RepTree(h, T) && Apart(T) && node !in Nodes(T) && pool == Nodes(T) + {node} && LeadsInto(h, node, Nodes(T))
  }

  lemma {:induction false} DoomedReads(h: Shot, k: Ctx, l: Tree, node: RbNode, c: Color, r: Tree, pool: set<RbNode>,
          augment: Option<Compute>)
    requires Doomed(h, k, l, node, c, r, pool, augment)
    ensures node in h.m && h.m[node] == Rec(Head(l), Head(r), Up(k), c)
    ensures k.In? ==> k.x in h.m
    ensures l.Node? ==> l.x in h.m && l.x != node
    ensures r.Node? ==> r.x in h.m && r.x != node
    ensures RepK(h, k, node) && Rep(h, l, node) && Rep(h, r, node)
    ensures ApartK(k) && Apart(l) && Apart(r) && node !in KNodes(k) && node !in Nodes(l) && node !in Nodes(r)
    ensures KNodes(k) !! Nodes(l) && KNodes(k) !! Nodes(r) && Nodes(l) !! Nodes(r)
    ensures pool == KNodes(k) + Nodes(l) + {node} + Nodes(r)
    ensures k.In? ==> k.x != node && k.x != Head(l) && k.x != Head(r)
    ensures AugRep(h, Plug(k, Node(l, node, c, r)), augment) && IsRB(Plug(k, Node(l, node, c, r)))
  {
    hide AugRep, IsRB;
    PlugRep(h, k, Node(l, node, c, r));
    PlugApart(k, Node(l, node, c, r));
    PlugNodes(k, Node(l, node, c, r));
    UpIn(k); HeadIn(l); HeadIn(r);
  }

  /** Case 1 with no left child, or with only a left child: the stores, in either order. */
  lemma {:induction false} SpliceDone(g: Shot, h1: Shot, h: Shot, k: Ctx, l: Tree, node: RbNode, c: Color, r: Tree,
          t: Tree, pool: set<RbNode>, augment: Option<Compute>)
    requires Doomed(g, k, l, node, c, r, pool, augment) && g.m.Keys == pool
    requires (l.Leaf? && t == r) || (r.Leaf? && t == l)
    requires k.Top? ==> h.top == Head(t)
    requires k.In? ==> h.top == g.top && k.x in g.m && k.x in h.m && h.m[k.x] == WithKid(g.m[k.x], k.s, Head(t))
    requires t.Node? ==> t.x in g.m && t.x in h.m && h.m[t.x] == g.m[t.x].(parent := Up(k), color := c)
    requires SameOff(g, h, Up(k), Head(t), null, null) && h.m.Keys == g.m.Keys && h.aug == g.aug
    requires h1.m.Keys == g.m.Keys && forall n :: n in h1.m ==>
      h1.m[n].left == h.m[n].left && h1.m[n].right == h.m[n].right
    ensures Spliced(h, Plug(k, Paint(t, c)), node, pool)
    ensures Inorder(Plug(k, Paint(t, c))) == Before(k) + Inorder(l) + Inorder(r) + After(k)
    ensures Loopless(h1)
    ensures augment.Some? ==> Propagating(h, k, Paint(t, c), augment.value, null)
  {
    hide AugRep, IsRB, Rep, RepK, RepTree, Loopless, Propagating, Doomed, Nodes, KNodes, Apart, ApartK;
    SpliceSpliced(g, h, k, l, node, c, r, t, pool, augment);
    DoomedReads(g, k, l, node, c, r, pool, augment);
    assert h.m[node] == g.m[node];
    SpliceLoopless(h1, h, k, node, c, t);
    SpliceDirty(g, h, k, l, node, c, r, t, augment);
  }

  lemma {:induction false} SpliceSpliced(g: Shot, h: Shot, k: Ctx, l: Tree, node: RbNode, c: Color, r: Tree, t: Tree,
          pool: set<RbNode>, augment: Option<Compute>)
    requires Doomed(g, k, l, node, c, r, pool, augment)
    requires (l.Leaf? && t == r) || (r.Leaf? && t == l)
    requires k.Top? ==> h.top == Head(t)
    requires k.In? ==> h.top == g.top && k.x in g.m && k.x in h.m && h.m[k.x] == WithKid(g.m[k.x], k.s, Head(t))
    requires t.Node? ==> t.x in g.m && t.x in h.m && h.m[t.x] == g.m[t.x].(parent := Up(k), color := c)
    requires SameOff(g, h, Up(k), Head(t), null, null)
    ensures Spliced(h, Plug(k, Paint(t, c)), node, pool)
    ensures Inorder(Plug(k, Paint(t, c))) == Before(k) + Inorder(l) + Inorder(r) + After(k)
    ensures Up(k) != node && Head(t) != node
  {
    hide AugRep, IsRB, Rep, RepAny, RepK, RepTree, Doomed, Nodes, KNodes, Apart, ApartK, Inorder, Before, After, Plug;
    DoomedReads(g, k, l, node, c, r, pool, augment);
    RepIsAny(g, t, node);
    SpliceRep(g, h, k, node, c, t);
    SpliceOrder(k, node, c, t);
    LeafEmpty(l); LeafEmpty(r);
    HeadIn(t);
    assert h.m[node] == g.m[node];
  }

  lemma {:induction false} LeafEmpty(t: Tree)
    ensures t.Leaf? ==> Nodes(t) == {} && Inorder(t) == []
  {}

  /** Case 1, when there is no left child. */
  method UnlinkRight(root: RbRoot, node: RbNode, augment: Option<Compute>, ghost k: Ctx, ghost l: Tree, ghost c: Color,
          ghost r: Tree)
    returns (rebalance: RbNode?)
    requires Doomed(root.Now(), k, l, node, c, r, root.pool, augment) && AllLoopless(root.log) && l == Leaf
    modifies root, root.pool
    ensures root.Kept() && Grows(old(root.log), root.log, root.pool)
    ensures Spliced(root.Now(), Plug(k, Paint(r, c)), node, root.pool)
      && AugRep(root.Now(), Plug(k, Paint(r, c)), augment)
    ensures Inorder(Plug(k, Paint(r, c))) == Before(k) + Inorder(l) + Inorder(r) + After(k)
    ensures rebalance == if r.Leaf? && c.Black? then Up(k) else null
  {
    hide AugRep, IsRB, Rep, RepK, RepTree, Loopless, AllLoopless, Grows, Propagating, Doomed, Nodes, KNodes, Apart,
      ApartK, Spliced, Plug, Inorder, PutChild, RbRoot.Now;
    ghost var g := root.Now();
    root.Reads();
    DoomedReads(g, k, l, node, c, r, root.pool, augment);
    root.ReadsAt(node);
    ChildSlot(g, k, node, Head(r));
    var child := node.right;
    var parent := node.parent;
    root.ChangeChild(node, child, parent);
    ghost var h1 := root.Now();
    root.Reads(); root.ReadsAt(node);
    if child != null {
      root.SetParentColor(child, parent, node.color);
      rebalance := null;
    } else {
      rebalance := if node.color.Black? then parent else null;
    }
    ghost var h := root.Now();
    SpliceDone(g, h1, h, k, l, node, c, r, r, root.pool, augment);
    LogGrows1(old(root.log), h1, root.log, root.pool);
    match augment
    case None => AugRepNone(root.Now(), Plug(k, Paint(r, c)));
    case Some(f) =>
      Propagate(root, parent, null, f, k, Paint(r, c));
      SplicedLinks(h, root.Now(), Plug(k, Paint(r, c)), node, root.pool);
      AugRepSome(g, root.Now(), Plug(k, Node(l, node, c, r)), Plug(k, Paint(r, c)), f);
  }

  lemma {:induction false} AugRepNone(h: Shot, t: Tree)
    ensures AugRep(h, t, None)
  {}

  lemma {:induction false} AugRepSome(g: Shot, h: Shot, t0: Tree, t: Tree, f: Compute)
    requires AugRep(g, t0, Some(f)) && AugOk(h, t, f)
    ensures AugRep(h, t, Some(f))
  {}

  lemma {:induction false} SplicedLinks(g: Shot, h: Shot, T: Tree, node: RbNode, pool: set<RbNode>)
    requires Spliced(g, T, node, pool) && g.top == h.top && g.m == h.m
    ensures Spliced(h, T, node, pool)
  {
    RepTreeLinks(g, h, T);
  }

  /** Case 1, when there is only a left child. */
  method UnlinkLeft(root: RbRoot, node: RbNode, augment: Option<Compute>, ghost k: Ctx, ghost l: Tree, ghost c: Color,
          ghost r: Tree)
    requires Doomed(root.Now(), k, l, node, c, r, root.pool, augment) && AllLoopless(root.log) && l.Node? && r == Leaf
    modifies root, root.pool
    ensures root.Kept() && Grows(old(root.log), root.log, root.pool)
    ensures Spliced(root.Now(), Plug(k, Paint(l, c)), node, root.pool)
      && AugRep(root.Now(), Plug(k, Paint(l, c)), augment)
    ensures Inorder(Plug(k, Paint(l, c))) == Before(k) + Inorder(l) + Inorder(r) + After(k)
  {
    hide AugRep, IsRB, Rep, RepK, RepTree, Loopless, AllLoopless, Grows, Propagating, Doomed, Nodes, KNodes, Apart,
      ApartK, Spliced, Plug, Inorder, PutChild, RbRoot.Now;
    ghost var g := root.Now();
    root.Reads();
    DoomedReads(g, k, l, node, c, r, root.pool, augment);
    root.ReadsAt(node);
    var tmp := node.left;
    root.SetParentColor(tmp, node.parent, node.color);
    root.ReadsAt(node);
    var parent := node.parent;
    ghost var i := root.Now();
    LeftSlot(g, i, k, l, node, c);
    root.ChangeChild(node, tmp, parent);
    ghost var h := root.Now();
    SpliceDone(g, h, h, k, l, node, c, r, l, root.pool, augment);
    LogGrows1(old(root.log), h, root.log, root.pool);
    match augment
    case None => AugRepNone(root.Now(), Plug(k, Paint(l, c)));
    case Some(f) =>
      Propagate(root, parent, null, f, k, Paint(l, c));
      SplicedLinks(h, root.Now(), Plug(k, Paint(l, c)), node, root.pool);
      AugRepSome(g, root.Now(), Plug(k, Node(l, node, c, r)), Plug(k, Paint(l, c)), f);
  }

  lemma {:induction false} LeftSlot(g: Shot, h: Shot, k: Ctx, l: Tree, node: RbNode, c: Color)
    requires RepK(g, k, node) && ApartK(k) && node !in KNodes(k) && KNodes(k) !! Nodes(l) && l.Node? && l.x in g.m
    requires h == PutParentColor(g, l.x, Up(k), c)
    ensures k.In? ==> k.x in g.m && k.x in h.m && h.m[k.x] == g.m[k.x]
    ensures PutChild(h, node, l.x, Up(k)) == if k.Top? then PutTop(h, l.x) else PutKid(h, k.x, k.s, l.x)
  {
    HeadIn(l); UpIn(k);
    RepKFrame(g, h, k, node);
    ChildSlot(h, k, node, l.x);
  }
}
