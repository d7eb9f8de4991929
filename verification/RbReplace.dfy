/** rb_replace_node: swaps a node for one that is not in the tree (rbtree.c:596-614). */
module RbReplace {
  import opened Seqs
  import opened RbModel
  import opened RbHeap
  import opened RbRotate
  import opened RbInsert
  import opened RbWalk
  import opened RbUnlink
  import opened RbErase

  ghost predicate Replaced(s: seq<RbNode>, s': seq<RbNode>, x: RbNode, y: RbNode) {
    |s'| == |s| && forall i :: 0 <= i < |s| ==> s'[i] == if s[i] == x then y else s[i]
  }

  lemma {:induction false} ReplaceOrder(k: Ctx, l: Tree, x: RbNode, y: RbNode, c: Color, r: Tree)
    requires Apart(Plug(k, Node(l, x, c, r)))
    ensures Replaced(Inorder(Plug(k, Node(l, x, c, r))), Inorder(Plug(k, Node(l, y, c, r))), x, y)
  {
    InorderAt(k, Node(l, x, c, r)); InorderAt(k, Node(l, y, c, r));
    ApartNoDup(Plug(k, Node(l, x, c, r)));
    var i := |Before(k) + Inorder(l)|;
    assert Inorder(Plug(k, Node(l, x, c, r)))[i] == x;
  }

  lemma {:induction false} ReplaceRB(k: Ctx, l: Tree, x: RbNode, y: RbNode, c: Color, r: Tree)
    requires IsRB(Plug(k, Node(l, x, c, r)))
    ensures IsRB(Plug(k, Node(l, y, c, r)))
  {
    var h := UnplugRB(k, Node(l, x, c, r));
    PlugRB(k, Node(l, y, c, r), h);
  }

  lemma {:induction false} ReplaceApart(k: Ctx, l: Tree, x: RbNode, y: RbNode, c: Color, r: Tree)
    requires Apart(Plug(k, Node(l, x, c, r))) && y !in Nodes(Plug(k, Node(l, x, c, r)))
    ensures Apart(Plug(k, Node(l, y, c, r))) && x !in Nodes(Plug(k, Node(l, y, c, r)))
    ensures Nodes(Plug(k, Node(l, y, c, r))) == KNodes(k) + Nodes(l) + {y} + Nodes(r)
    ensures Nodes(Plug(k, Node(l, x, c, r))) == KNodes(k) + Nodes(l) + {x} + Nodes(r)
    ensures ApartK(k) && Apart(l) && Apart(r) && KNodes(k) !! Nodes(l) && KNodes(k) !! Nodes(r) && Nodes(l) !! Nodes(r)
    ensures x !in KNodes(k) && x !in Nodes(l) && x !in Nodes(r) && y !in KNodes(k) && y !in Nodes(l) && y !in Nodes(r)
  {
    PlugApart(k, Node(l, x, c, r)); PlugNodes(k, Node(l, x, c, r));
    PlugApart(k, Node(l, y, c, r)); PlugNodes(k, Node(l, y, c, r));
  }

  /** The stores of rb_replace_node, seen as a whole. */
  lemma {:induction false} ReplaceRep(g: Shot, h: Shot, k: Ctx, l: Tree, x: RbNode, y: RbNode, c: Color, r: Tree)
    requires RepTree(g, Plug(k, Node(l, x, c, r))) && Apart(Plug(k, Node(l, x, c, r)))
      && y !in Nodes(Plug(k, Node(l, x, c, r)))
    requires y in h.m && h.m[y] == Rec(Head(l), Head(r), Up(k), c)
    requires l.Node? ==> l.x in g.m && l.x in h.m && h.m[l.x] == g.m[l.x].(parent := y)
    requires r.Node? ==> r.x in g.m && r.x in h.m && h.m[r.x] == g.m[r.x].(parent := y)
    requires k.Top? ==> h.top == y
    requires k.In? ==> h.top == g.top && k.x in g.m && k.x in h.m && h.m[k.x] == WithKid(g.m[k.x], k.s, y)
    requires SameOff(g, h, Head(l), Head(r), Up(k), y)
    ensures RepTree(h, Plug(k, Node(l, y, c, r)))
  {
    hide RepTree, Apart, Nodes, KNodes, ApartK;
    ReplaceApart(k, l, x, y, c, r);
    ReplaceSubtrees(g, h, k, l, x, y, c, r);
    PlugRep(h, k, Node(l, y, c, r));
  }

  lemma {:induction false} ReplaceSubtrees(g: Shot, h: Shot, k: Ctx, l: Tree, x: RbNode, y: RbNode, c: Color, r: Tree)
    requires RepTree(g, Plug(k, Node(l, x, c, r)))
    requires ApartK(k) && Apart(l) && Apart(r) && KNodes(k) !! Nodes(l) && KNodes(k) !! Nodes(r) && Nodes(l) !! Nodes(r)
    requires y !in KNodes(k) && y !in Nodes(l) && y !in Nodes(r)
    requires l.Node? ==> l.x in g.m && l.x in h.m && h.m[l.x] == g.m[l.x].(parent := y)
    requires r.Node? ==> r.x in g.m && r.x in h.m && h.m[r.x] == g.m[r.x].(parent := y)
    requires k.Top? ==> h.top == y
    requires k.In? ==> h.top == g.top && k.x in g.m && k.x in h.m && h.m[k.x] == WithKid(g.m[k.x], k.s, y)
    requires SameOff(g, h, Head(l), Head(r), Up(k), y)
    ensures Rep(h, l, y) && Rep(h, r, y) && RepK(h, k, y)
  {
    hide RepTree, Apart, ApartK, RepK;
    PlugRep(g, k, Node(l, x, c, r));
    HeadIn(l); HeadIn(r); UpIn(k);
    RepKMove(g, h, k, x, y);
    SubtreeUnder(g, h, l, x, y);
    SubtreeUnder(g, h, r, x, y);
  }

  lemma {:induction false} SubtreeUnder(g: Shot, h: Shot, t: Tree, x: RbNode, y: RbNode)
    requires Rep(g, t, x) && Apart(t) && SameBut(g, h, Nodes(t), Head(t))
    requires t.Node? ==> t.x in g.m && t.x in h.m && h.m[t.x] == g.m[t.x].(parent := y)
    ensures Rep(h, t, y)
  {
    if t.Node? { RepFrame(g, h, t.l, t.x); RepFrame(g, h, t.r, t.x); }
  }

  /** The victim still points into the tree when the last store is made. */
  lemma {:induction false} ReplaceLoopless(h: Shot, k: Ctx, l: Tree, x: RbNode, y: RbNode, c: Color, r: Tree)
    requires RepTree(h, Plug(k, Node(l, y, c, r))) && Apart(Plug(k, Node(l, y, c, r)))
      && x !in Nodes(Plug(k, Node(l, y, c, r)))
    requires h.m.Keys == Nodes(Plug(k, Node(l, y, c, r))) + {x}
    requires h.m[x].left == Head(l) && h.m[x].right == Head(r)
    ensures Loopless(h)
  {
    var t := Node(l, y, c, r);
    SizePlug(k, t);
    PlugNodes(k, t); PlugApart(k, t);
    HeadIn(l); HeadIn(r);
    SizeAtBound(l, Head(l)); SizeAtBound(r, Head(r));
    NearLoopless(h, h, Plug(k, t), x, y);
  }

  /** The last store hits the slot that points at the victim. */
  lemma {:induction false} ReplaceSlot(g: Shot, h: Shot, k: Ctx, l: Tree, x: RbNode, y: RbNode, r: Tree)
    requires RepK(g, k, x) && ApartK(k) && x !in KNodes(k) && y !in KNodes(k)
    requires KNodes(k) !! Nodes(l) && KNodes(k) !! Nodes(r)
    requires SameOff(g, h, Head(l), Head(r), y, y) && h.top == g.top
    ensures k.In? ==> k.x in g.m && k.x in h.m && h.m[k.x] == g.m[k.x]
    ensures PutChild(h, x, y, Up(k)) == if k.Top? then PutTop(h, y) else PutKid(h, k.x, k.s, y)
  {
    HeadIn(l); HeadIn(r); UpIn(k);
    OffSame(g, h, Head(l), Head(r), y, y, KNodes(k));
    RepKFrame(g, h, k, x);
    ChildSlot(h, k, x, y);
  }

  lemma {:induction false} DropVictim(g: Shot, h: Shot, T: Tree, x: RbNode)
    requires RepTree(g, T) && x !in Nodes(T) && h.top == g.top && h.m == g.m - {x}
    ensures RepTree(h, T) && AugRep(h, T, None)
  {
    RepFrame(g, h, T, null);
  }

  lemma {:induction false} DistinctHeads(k: Ctx, l: Tree, r: Tree)
    requires KNodes(k) !! Nodes(l) && KNodes(k) !! Nodes(r) && Nodes(l) !! Nodes(r)
    ensures l.Node? ==> Head(l) != Head(r) && Head(l) != Up(k)
    ensures r.Node? ==> Head(r) != Up(k)
  {
    HeadIn(l); HeadIn(r); UpIn(k);
  }

  lemma {:induction false} Settles(h: Shot, T: Tree, pool: set<RbNode>)
    requires IsRB(T) && RepTree(h, T) && Apart(T) && pool == Nodes(T)
    ensures Settled(h, T, pool, None)
  {}

  ghost function PutParentIf(h: Shot, x: RbNode?, p: RbNode): Shot
    requires x != null ==> x in h.m
  {
    if x == null then h else PutParent(h, x, p)
  }

  /** The stores of rb_replace_node. */
  method ReplaceStores(root: RbRoot, victim: RbNode, new_: RbNode)
    requires victim in root.pool && new_ !in root.pool
    requires victim.left != null ==> victim.left in root.pool
    requires victim.right != null ==> victim.right in root.pool
    requires victim.parent != null ==> victim.parent in root.pool
    requires victim.left != victim && victim.right != victim
    modifies root, root.pool, new_
    ensures root.pool == old(root.pool) + {new_} && root.tree == old(root.tree)
      && root.log == old(root.log) + [root.Now()]
    ensures var g := old(root.Now()); var v := g.m[victim];
      var i := PutParentIf(PutParentIf(PutNew(g, new_, v, old(new_.aug)), v.left, new_), v.right, new_);
      root.Now() == PutChild(i, victim, new_, v.parent)
    ensures root.mark == |old(root.log)| && SameSlots(old(root.Now()), root.start)
    ensures old(root.pool) <= root.start.m.Keys
    ensures root.Traced()
  {
    hide PutChild, RbRoot.Traced, RbRoot.Now, SlotsBut;
    ghost var g := root.Now();
    root.Reads(); root.ReadsAt(victim);
    NewSlots(g, new_, g.m[victim], new_.aug);
    var parent := victim.parent;
    root.CopyNode(new_, victim);
    root.Begin();
    if victim.left != null { root.SetParent(victim.left, new_); }
    root.ReadsAt(victim);
    if victim.right != null { root.SetParent(victim.right, new_); }
    root.ReadsAt(victim);
    root.ChangeChild(victim, new_, parent);
  }

  /** What those stores amount to, but for the last one. */
  lemma {:induction false} AroundRun(g: Shot, i: Shot, l: RbNode?, x: RbNode, y: RbNode, r: RbNode?, a: Aug)
    requires x in g.m && l != x && r != x && y !in g.m && (l != null ==> l in g.m && l != r) && (r != null ==> r in g.m)
    requires i == PutParentIf(PutParentIf(PutNew(g, y, g.m[x], a), l, y), r, y)
    ensures i.top == g.top && i.m.Keys == g.m.Keys + {y} && i.m[y] == g.m[x] && i.m[x] == g.m[x]
    ensures l != null ==> i.m[l] == g.m[l].(parent := y)
    ensures r != null ==> i.m[r] == g.m[r].(parent := y)
    ensures forall n :: n in g.m && n != l && n != r ==> n in i.m && i.m[n] == g.m[n]
  {}

  /** What those stores amount to. */
  lemma {:induction false} ReplaceRun(g: Shot, h: Shot, k: Ctx, l: Tree, x: RbNode, y: RbNode, c: Color, r: Tree,
          a: Aug)
    requires RepK(g, k, x) && ApartK(k) && x in g.m && g.m[x] == Rec(Head(l), Head(r), Up(k), c)
    requires x !in KNodes(k) && x !in Nodes(l) && x !in Nodes(r)
    requires KNodes(k) !! Nodes(l) && KNodes(k) !! Nodes(r) && Nodes(l) !! Nodes(r) && y !in g.m
    requires l.Node? ==> l.x in g.m
    requires r.Node? ==> r.x in g.m
    requires k.In? ==> k.x in g.m
    requires h == PutChild(PutParentIf(PutParentIf(PutNew(g, y, g.m[x], a), Head(l), y), Head(r), y), x, y, Up(k))
    ensures h.m.Keys == g.m.Keys + {y} && h.m[y] == Rec(Head(l), Head(r), Up(k), c) && h.m[x] == g.m[x]
    ensures l.Node? ==> h.m[l.x] == g.m[l.x].(parent := y)
    ensures r.Node? ==> h.m[r.x] == g.m[r.x].(parent := y)
    ensures k.Top? ==> h.top == y
    ensures k.In? ==> h.top == g.top && h.m[k.x] == WithKid(g.m[k.x], k.s, y)
    ensures SameOff(g, h, Head(l), Head(r), Up(k), y)
  {
    hide RepK, PutChild, ApartK, Nodes, KNodes;
    var i := PutParentIf(PutParentIf(PutNew(g, y, g.m[x], a), Head(l), y), Head(r), y);
    DistinctHeads(k, l, r); HeadIn(l); HeadIn(r); UpIn(k);
    RepKIn(g, k, x);
    AroundRun(g, i, Head(l), x, y, Head(r), a);
    ReplaceSlot(g, i, k, l, x, y, r);
  }

  /** All of it: the tree that memory holds once the victim has left. */
  lemma {:induction false} ReplaceDone(g: Shot, h: Shot, h': Shot, k: Ctx, l: Tree, x: RbNode, y: RbNode, c: Color,
          r: Tree, a: Aug, pool: set<RbNode>)
    requires Doomed(g, k, l, x, c, r, pool, None) && g.m.Keys == pool && x in g.m && y !in pool
    requires Head(l) != null ==> Head(l) in g.m
    requires Head(r) != null ==> Head(r) in g.m
    requires Up(k) != null ==> Up(k) in g.m
    requires h == PutChild(PutParentIf(PutParentIf(PutNew(g, y, g.m[x], a), Head(l), y), Head(r), y), x, y, Up(k))
    requires h'.top == h.top && h'.m == h.m - {x}
    ensures Loopless(h) && Settled(h', Plug(k, Node(l, y, c, r)), pool + {y} - {x}, None)
    ensures Replaced(Inorder(Plug(k, Node(l, x, c, r))), Inorder(Plug(k, Node(l, y, c, r))), x, y)
  {
    hide IsRB, RepTree, Apart, Nodes, KNodes, Loopless, Plug, Inorder, Rep, RepK, AugRep, Replaced, PutChild, ApartK,
      PutNew;
    ghost var T := Plug(k, Node(l, y, c, r));
    DoomedReads(g, k, l, x, c, r, pool, None);
    ReplaceApart(k, l, x, y, c, r);
    ReplaceRun(g, h, k, l, x, y, c, r, a);
    ReplaceRep(g, h, k, l, x, y, c, r);
    ReplaceLoopless(h, k, l, x, y, c, r);
    ReplaceOrder(k, l, x, y, c, r);
    ReplaceRB(k, l, x, y, c, r);
    DropVictim(h, h', T, x);
    Settles(h', T, pool + {y} - {x});
  }

  /** rb_replace_node */
  method ReplaceNode(root: RbRoot, victim: RbNode, new_: RbNode)
    requires root.Valid() && victim in root.pool && new_ !in root.pool
    modifies root, root.pool, new_
    ensures root.Valid() && root.Recorded() && root.pool == old(root.pool) - {victim} + {new_}
    ensures Replaced(old(Inorder(root.tree)), Inorder(root.tree), victim, new_)
  {
    hide IsRB, RepTree, Apart, Nodes, KNodes, Loopless, AllLoopless, Plug, Inorder, Rep, RepK, AugRep, Replaced, Doomed,
      PutChild, PutParentIf, ApartK, Settled, RbRoot.Now, RbRoot.Traced, Steps, SameSlots,
      Same, SameOff;
    ghost var g := root.Now();
    root.Reads(); root.ReadsAt(victim);
    AugRepNone(g, root.tree);
    ghost var k, l, c, r := ToDoom(root, victim, None);
    DoomedReads(g, k, l, victim, c, r, root.pool, None);
    ghost var a, pool := new_.aug, root.pool;
    assert g.m.Keys == pool;
    ReplaceStores(root, victim, new_);
    ghost var h := root.Now();
    root.Drop(victim);
    assert Head(l) == g.m[victim].left && Head(r) == g.m[victim].right && Up(k) == g.m[victim].parent;
    ReplaceDone(g, h, root.Now(), k, l, victim, new_, c, r, a, pool);
    LogGrows1(old(root.log), h, root.log, h.m.Keys);
    assert root.pool == pool + {new_} - {victim};
    Settle(root, Plug(k, Node(l, new_, c, r)), None);
    root.Ends();
  }
}
