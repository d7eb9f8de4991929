/**
 * __rb_erase_augmented, Cases 2 and 3: the successor takes the place of a node
 * with two children (rbtree_augmented.h:200-268).
 */
module RbSuccessor {
  import opened RbModel
  import opened RbHeap
  import opened RbRotate
  import opened RbInsert
  import opened RbUnlink

  // ---- the parts ----

  /** The tree once s, with colour c, has taken node's place above l and what is left of the right subtree. */
  function Promoted(k: Ctx, l: Tree, s: RbNode, c: Color, kk: Ctx, r2: Tree): Tree {
    Plug(k, Node(l, s, c, Plug(kk, Paint(r2, Black))))
  }

  /** The successor s is at the left end kk of node's right subtree. */
  ghost predicate Succ(r: Tree, kk: Ctx, s: RbNode, cs: Color, r2: Tree) {
    AllLeft(kk) && r == Plug(kk, Node(Leaf, s, cs, r2))
  }

  ghost predicate Parts(k: Ctx, l: Tree, node: RbNode, s: RbNode, kk: Ctx, r2: Tree) {
    && node != s && ApartK(k) && ApartK(kk) && Apart(l) && Apart(r2)
    && node !in KNodes(k) && node !in KNodes(kk) && node !in Nodes(l) && node !in Nodes(r2)
    && s !in KNodes(k) && s !in KNodes(kk) && s !in Nodes(l) && s !in Nodes(r2)
    && KNodes(k) !! KNodes(kk) && KNodes(k) !! Nodes(l) && KNodes(k) !! Nodes(r2)
    && KNodes(kk) !! Nodes(l) && KNodes(kk) !! Nodes(r2) && Nodes(l) !! Nodes(r2)
  }

  lemma {:induction false} DoomedParts(k: Ctx, l: Tree, node: RbNode, c: Color, r: Tree, kk: Ctx, s: RbNode, cs: Color,
          r2: Tree)
    requires Apart(Plug(k, Node(l, node, c, r))) && Succ(r, kk, s, cs, r2)
    ensures Parts(k, l, node, s, kk, r2)
    ensures Nodes(Plug(k, Node(l, node, c, r))) == KNodes(k) + Nodes(l) + {node, s} + KNodes(kk) + Nodes(r2)
  {
    PlugApart(k, Node(l, node, c, r)); PlugNodes(k, Node(l, node, c, r));
    PlugApart(kk, Node(Leaf, s, cs, r2)); PlugNodes(kk, Node(Leaf, s, cs, r2));
  }

  lemma {:induction false} PaintSame(t: Tree, c: Color)
    ensures Nodes(Paint(t, c)) == Nodes(t) && Inorder(Paint(t, c)) == Inorder(t)
      && (Apart(Paint(t, c)) <==> Apart(t)) && Head(Paint(t, c)) == Head(t)
  {}

  lemma {:induction false} PromotedApart(k: Ctx, l: Tree, node: RbNode, s: RbNode, c: Color, kk: Ctx, r2: Tree)
    requires Parts(k, l, node, s, kk, r2)
    ensures Apart(Promoted(k, l, s, c, kk, r2)) && node !in Nodes(Promoted(k, l, s, c, kk, r2))
    ensures Nodes(Promoted(k, l, s, c, kk, r2)) == KNodes(k) + Nodes(l) + {s} + KNodes(kk) + Nodes(r2)
  {
    var r2' := Paint(r2, Black);
    PaintSame(r2, Black);
    PlugApart(kk, r2'); PlugNodes(kk, r2');
    PlugApart(k, Node(l, s, c, Plug(kk, r2'))); PlugNodes(k, Node(l, s, c, Plug(kk, r2')));
  }

  lemma {:induction false} LeftBefore(kk: Ctx)
    requires AllLeft(kk)
    ensures Before(kk) == []
  {
    if kk.In? { LeftBefore(kk.up); }
  }

  lemma {:induction false} PromotedOrder(k: Ctx, l: Tree, s: RbNode, c: Color, r: Tree, kk: Ctx, cs: Color, r2: Tree)
    requires Succ(r, kk, s, cs, r2)
    ensures Inorder(Promoted(k, l, s, c, kk, r2)) == Before(k) + Inorder(l) + Inorder(r) + After(k)
  {
    hide AllLeft;
    var r2' := Paint(r2, Black);
    PaintSame(r2, Black);
    LeftBefore(kk);
    PlugInorder(kk, r2'); PlugInorder(kk, Node(Leaf, s, cs, r2));
    PlugInorder(k, Node(l, s, c, Plug(kk, r2')));
    assert Inorder(Node(Leaf, s, cs, r2)) == [s] + Inorder(r2);
    assert Inorder(r) == [s] + (Inorder(r2) + After(kk));
    assert Inorder(Plug(kk, r2')) == Inorder(r2) + After(kk);
    RegroupFour(Before(k), Inorder(l), s, Inorder(r2) + After(kk), After(k));
  }

  lemma {:induction false} RegroupFour(a: seq<RbNode>, b: seq<RbNode>, x: RbNode, c: seq<RbNode>, d: seq<RbNode>)
    ensures a + (b + [x] + c) + d == a + b + ([x] + c) + d
  {}

  // ---- colours ----

  /** Either the tree is in order, or exactly the paths through the successor's old place miss a black node. */
  lemma {:induction false} PromotedRB(k: Ctx, l: Tree, node: RbNode, c: Color, r: Tree, kk: Ctx, s: RbNode, cs: Color,
          r2: Tree)
    requires IsRB(Plug(k, Node(l, node, c, r))) && Succ(r, kk, s, cs, r2)
    ensures Promoted(k, l, s, c, kk, r2) == Plug(Graft(kk, In(R, s, c, l, k)), Paint(r2, Black))
    ensures r2.Node? || cs.Red? ==> IsRB(Promoted(k, l, s, c, kk, r2))
    ensures r2.Leaf? && cs.Black? ==> RBK(Graft(kk, In(R, s, c, l, k)), 1)
  {
    var G0, G1 := Graft(kk, In(R, node, c, l, k)), Graft(kk, In(R, s, c, l, k));
    var t := Node(Leaf, s, cs, r2);
    GraftPlug(kk, In(R, node, c, l, k), t);
    GraftPlug(kk, In(R, s, c, l, k), Paint(r2, Black));
    var h := UnplugRB(G0, t);
    GraftRBK(kk, R, node, s, c, l, k, h);
    if r2.Node? {
      assert RB(Paint(r2, Black), 1);
      PlugRB(G1, Paint(r2, Black), 1);
    } else if cs.Red? {
      PlugRB(G1, Leaf, 0);
    }
  }

  // ---- memory: taking the successor out (Case 3) ----

  /** The successor is free: the path kk now ends in its only child and hangs under it. */
  ghost predicate Detached(h: Shot, k: Ctx, l: Tree, node: RbNode, c: Color, s: RbNode, kk: Ctx, r2: Tree) {
    && node in h.m && h.m[node].left == Head(l) && h.m[node].parent == Up(k) && h.m[node].color == c
    && h.m[node].right in {s, Head(Plug(kk, r2))}
    && s in h.m && h.m[s].left == null && h.m[s].right == Head(Plug(kk, r2))
    && RepPath(h, kk, Head(r2), s) && RepAny(h, r2) && Rep(h, l, node) && RepK(h, k, node)
  }

  /** Case 2: the successor is the right child and needs no taking out. */
  lemma {:induction false} DetachedNow(g: Shot, k: Ctx, l: Tree, node: RbNode, c: Color, r: Tree, s: RbNode, cs: Color,
          r2: Tree, pool: set<RbNode>, augment: Option<Compute>)
    requires Doomed(g, k, l, node, c, r, pool, augment) && Succ(r, Top, s, cs, r2)
    ensures Detached(g, k, l, node, c, s, Top, r2)
  {
    hide AugRep, IsRB;
    DoomedReads(g, k, l, node, c, r, pool, augment);
    RepIsAny(g, r2, s);
  }

  ghost predicate DetachRun(g: Shot, a1: Shot, a2: Shot, a3: Shot, s: RbNode, p: RbNode, y: RbNode, r2: Tree) {
    && p in g.m && a1 == PutKid(g, p, L, Head(r2))
    && s in a1.m && a2 == PutKid(a1, s, R, y)
    && y in a2.m && a3 == PutParent(a2, y, s)
  }

  lemma {:induction false} DetachPath(g: Shot, a1: Shot, a2: Shot, a3: Shot, node: RbNode, s: RbNode, kk: Ctx, r2: Tree,
          y: RbNode)
    requires kk.In? && y == Outer(kk) && DetachRun(g, a1, a2, a3, s, kk.x, y, r2)
    requires RepPath(g, kk, s, node) && ApartK(kk) && AllLeft(kk) && s !in KNodes(kk)
    ensures RepPath(a3, kk, Head(r2), s)
  {
    OuterHead(kk, Leaf); UpIn(kk);
    RepPathSlot(g, a1, kk, s, Head(r2), node);
    RepPathFrame(a1, a2, kk, Head(r2), node);
    RepPathStop(a2, a3, kk, Head(r2), node, s);
  }

  lemma {:induction false} DetachOff(g: Shot, a1: Shot, a2: Shot, a3: Shot, s: RbNode, p: RbNode, y: RbNode, r2: Tree)
    requires DetachRun(g, a1, a2, a3, s, p, y, r2)
    ensures SameOff(g, a3, s, p, y, null) && a3.top == g.top && a3.m.Keys == g.m.Keys
    ensures s != p && s != y ==> s in g.m && a3.m[s] == g.m[s].(right := y)
  {}

  lemma {:induction false} DetachDone(g: Shot, a1: Shot, a2: Shot, a3: Shot, k: Ctx, l: Tree, node: RbNode, c: Color,
          r: Tree, kk: Ctx, s: RbNode, cs: Color, r2: Tree, y: RbNode, pool: set<RbNode>, augment: Option<Compute>)
    requires Doomed(g, k, l, node, c, r, pool, augment) && Succ(r, kk, s, cs, r2) && kk.In?
    requires y == Outer(kk) && DetachRun(g, a1, a2, a3, s, kk.x, y, r2)
    ensures Detached(a3, k, l, node, c, s, kk, r2)
  {
    hide AugRep, IsRB, RepTree;
    DoomedReads(g, k, l, node, c, r, pool, augment);
    DoomedParts(k, l, node, c, r, kk, s, cs, r2);
    PlugRepPath(g, kk, Node(Leaf, s, cs, r2), node);
    OuterHead(kk, r2); OuterHead(kk, Node(Leaf, s, cs, r2)); UpIn(kk);
    DetachPath(g, a1, a2, a3, node, s, kk, r2, y);
    DetachOff(g, a1, a2, a3, s, kk.x, y, r2);
    DetachFrames(g, a3, k, l, node, s, kk, r2, y);
  }

  lemma {:induction false} DetachFrames(g: Shot, h: Shot, k: Ctx, l: Tree, node: RbNode, s: RbNode, kk: Ctx, r2: Tree,
          y: RbNode)
    requires Parts(k, l, node, s, kk, r2) && kk.In? && y in KNodes(kk) && kk.x in KNodes(kk)
    requires SameOff(g, h, s, kk.x, y, null) && g.top == h.top
    requires Rep(g, r2, s) && Rep(g, l, node) && RepK(g, k, node) && node in g.m
    ensures RepAny(h, r2) && Rep(h, l, node) && RepK(h, k, node) && node in h.m && h.m[node] == g.m[node]
  {
    OffSame(g, h, s, kk.x, y, null, Nodes(r2)); OffSame(g, h, s, kk.x, y, null, Nodes(l));
    OffSame(g, h, s, kk.x, y, null, KNodes(k));
    RepFrame(g, h, r2, s); RepFrame(g, h, l, node); RepKFrame(g, h, k, node);
    RepIsAny(h, r2, s);
  }

  // ---- memory: putting the successor in node's place ----

  ghost predicate PromoteRun(h: Shot, b1: Shot, b2: Shot, b3: Shot, b4: Shot, b5: Shot, k: Ctx, l: Tree, node: RbNode,
          c: Color, s: RbNode, par: RbNode, r2: Tree) {
    && s in h.m && b1 == PutKid(h, s, L, Head(l))
    && l.Node? && l.x in b1.m && b2 == PutParent(b1, l.x, s)
    && (k.In? ==> k.x in b2.m) && b3 == PutChild(b2, node, s, Up(k))
    && s in b3.m && b4 == PutParentColor(b3, s, Up(k), c)
    && (r2.Node? ==> r2.x in b4.m) && b5 == PutIf(b4, Head(r2), par, Black)
  }

  lemma {:induction false} PromoteSlot(h: Shot, b1: Shot, b2: Shot, b3: Shot, b4: Shot, b5: Shot, k: Ctx, l: Tree,
          node: RbNode, c: Color, s: RbNode, par: RbNode, r2: Tree)
    requires PromoteRun(h, b1, b2, b3, b4, b5, k, l, node, c, s, par, r2)
    requires RepK(h, k, node) && ApartK(k) && node !in KNodes(k) && s !in KNodes(k) && Nodes(l) !! KNodes(k)
    ensures b3 == if k.Top? then PutTop(b2, s) else PutKid(b2, k.x, k.s, s)
  {
    HeadIn(l);
    assert Same(h, b2, KNodes(k));
    RepKFrame(h, b2, k, node);
    ChildSlot(b2, k, node, s);
  }

  /** What promoting the successor changes, record by record. */
  lemma {:induction false} PromoteRecords(h: Shot, b1: Shot, b2: Shot, b3: Shot, b4: Shot, b5: Shot, k: Ctx, l: Tree,
          node: RbNode, c: Color, s: RbNode, par: RbNode, r2: Tree)
    requires PromoteRun(h, b1, b2, b3, b4, b5, k, l, node, c, s, par, r2)
    requires b3 == if k.Top? then PutTop(b2, s) else PutKid(b2, k.x, k.s, s)
    requires k.In? ==> k.x != s && k.x != l.x && k.x != Head(r2)
    requires s != l.x && s != Head(r2) && l.x != Head(r2)
    ensures b5.m.Keys == h.m.Keys && SameOff(h, b5, s, l.x, Head(r2), Up(k)) && b5.aug == h.aug
    ensures b5.m[s] == Rec(Head(l), h.m[s].right, Up(k), c)
    ensures l.x in h.m && b5.m[l.x] == h.m[l.x].(parent := s)
    ensures r2.Node? ==> r2.x in h.m && b5.m[r2.x] == h.m[r2.x].(parent := par, color := Black)
    ensures k.Top? ==> b5.top == s
    ensures k.In? ==> b5.top == h.top && k.x in h.m && b5.m[k.x] == WithKid(h.m[k.x], k.s, s)
  {}

  lemma {:induction false} PromoteFrames(h: Shot, g: Shot, k: Ctx, l: Tree, node: RbNode, c: Color, s: RbNode, kk: Ctx,
          r2: Tree)
    requires Detached(h, k, l, node, c, s, kk, r2) && Parts(k, l, node, s, kk, r2) && l.Node?
    requires g.m.Keys == h.m.Keys && SameOff(h, g, s, l.x, Head(r2), Up(k))
    requires g.m[s] == Rec(Head(l), h.m[s].right, Up(k), c)
    requires l.x in h.m && g.m[l.x] == h.m[l.x].(parent := s)
    requires r2.Node? ==> r2.x in h.m && g.m[r2.x] == h.m[r2.x].(parent := UpTo(kk, s), color := Black)
    requires k.Top? ==> g.top == s
    requires k.In? ==> g.top == h.top && k.x in h.m && g.m[k.x] == WithKid(h.m[k.x], k.s, s)
    ensures Rep(g, l, s) && RepK(g, k, s) && Rep(g, Paint(r2, Black), UpTo(kk, s)) && RepPath(g, kk, Head(r2), s)
  {
    HeadIn(l); HeadIn(r2); UpIn(k);
    RepIsAny(h, l, node);
    RepMove(h, g, l, s, l.c);
    RepMove(h, g, r2, UpTo(kk, s), Black);
    RepKMove(h, g, k, node, s);
    OffSame(h, g, s, l.x, Head(r2), Up(k), KNodes(kk));
    RepPathFrame(h, g, kk, Head(r2), s);
  }

  lemma {:induction false} PromoteDone(h: Shot, b1: Shot, b2: Shot, b3: Shot, b4: Shot, b5: Shot, k: Ctx, l: Tree,
          node: RbNode, c: Color, s: RbNode, kk: Ctx, r2: Tree)
    requires Detached(h, k, l, node, c, s, kk, r2) && Parts(k, l, node, s, kk, r2)
    requires PromoteRun(h, b1, b2, b3, b4, b5, k, l, node, c, s, if kk.Top? then s else kk.x, r2)
    ensures RepTree(b5, Promoted(k, l, s, c, kk, r2)) && b5.m.Keys == h.m.Keys && b5.aug == h.aug
  {
    PromotePlaces(k, l, node, s, kk, r2);
    PromoteSlot(h, b1, b2, b3, b4, b5, k, l, node, c, s, UpTo(kk, s), r2);
    PromoteRecords(h, b1, b2, b3, b4, b5, k, l, node, c, s, UpTo(kk, s), r2);
    PromoteFrames(h, b5, k, l, node, c, s, kk, r2);
    var r2' := Paint(r2, Black);
    PaintSame(r2, Black);
    HeadPaint(kk, r2);
    PlugRepPath(b5, kk, r2', s);
    PlugRep(b5, k, Node(l, s, c, Plug(kk, r2')));
  }

  lemma {:induction false} HeadPaint(kk: Ctx, r2: Tree)
    ensures Head(Plug(kk, Paint(r2, Black))) == Head(Plug(kk, r2))
  {
    if kk.In? { OuterHead(kk, r2); OuterHead(kk, Paint(r2, Black)); }
  }

  lemma {:induction false} PromotePlaces(k: Ctx, l: Tree, node: RbNode, s: RbNode, kk: Ctx, r2: Tree)
    requires Parts(k, l, node, s, kk, r2)
    ensures k.In? ==> k.x != s && k.x != Head(l) && k.x != Head(r2) && k.x != node
    ensures s != Head(l) && s != Head(r2) && (l.Node? ==> Head(l) != Head(r2))
    ensures node != Head(l) && node != Head(r2) && node != s
  {
    UpIn(k); HeadIn(l); HeadIn(r2);
  }

  // ---- no loops on the way ----

  lemma {:induction false} SizePath(kk: Ctx, t: Tree)
    ensures Size(t) <= Size(Plug(kk, t))
  {
    if kk.In? { SizePath(kk.up, Mk(kk.s, t, kk.x, kk.c, kk.far)); }
  }

  lemma {:induction false} PromotedSizes(k: Ctx, l: Tree, s: RbNode, c: Color, kk: Ctx, r2: Tree)
    requires Apart(Promoted(k, l, s, c, kk, r2))
    ensures var T := Promoted(k, l, s, c, kk, r2);
      && SizeAt(T, Head(l)) < SizeAt(T, s) && SizeAt(T, Head(Plug(kk, r2))) < SizeAt(T, s)
      && SizeAt(T, Head(r2)) < SizeAt(T, s)
      && (k.In? ==> SizeAt(T, s) < SizeAt(T, k.x) && SizeAt(T, Head(k.far)) < SizeAt(T, k.x))
  {
    var r2' := Paint(r2, Black);
    var q := Plug(kk, r2');
    var T := Promoted(k, l, s, c, kk, r2);
    HeadPaint(kk, r2);
    StepSize(k, L, l, s, c, q);
    if k.In? { StepSize(k.up, k.s, Node(l, s, c, q), k.x, k.c, k.far); }
    SizeAtBound(T, null);
    if r2.Node? {
      var kq := In(R, s, c, l, k);
      GraftPlug(kk, kq, r2');
      assert Plug(kq, q) == T;
      SizePlug(Graft(kk, kq), r2'); SizePlug(kq, q);
      SizePath(kk, r2');
      HeadIn(r2');
      assert SizeAt(r2', r2'.x) == Size(r2');
    }
  }

  /** Children between old and new: those of s and node, and the slot above. */
  ghost predicate Between(h: Shot, k: Ctx, l: Tree, node: RbNode, s: RbNode, kk: Ctx, r2: Tree) {
    && s in h.m && node in h.m && (k.In? ==> k.x in h.m)
    && (h.m[s].left == null || h.m[s].left == Head(l))
        && (h.m[s].right == Head(r2) || h.m[s].right == Head(Plug(kk, r2)))
    && h.m[node].left == Head(l) && (h.m[node].right == s || h.m[node].right == Head(Plug(kk, r2)))
    && (k.In? ==> Kid(h.m[k.x], k.s) in {node, s} && Kid(h.m[k.x], Other(k.s)) == Head(k.far))
  }

  /** A child-pointer state between the old tree and the new one: s, node and the slot above may be old or new. */
  ghost predicate InBetween(h: Shot, g: Shot, k: Ctx, l: Tree, node: RbNode, s: RbNode, kk: Ctx, r2: Tree) {
    h.m.Keys == g.m.Keys && SameKids(h, g, s, Up(k)) && Between(h, k, l, node, s, kk, r2)
  }

  /** Whatever the three nodes point at in between is of lower rank. */
  ghost predicate KidsBelow(h: Shot, T: Tree, k: Ctx, l: Tree, node: RbNode, s: RbNode, kk: Ctx, r2: Tree) {
    && Below(h, T, node, s, s, Head(l)) && Below(h, T, node, s, s, Head(r2))
    && Below(h, T, node, s, s, Head(Plug(kk, r2)))
    && Below(h, T, node, s, node, Head(l)) && Below(h, T, node, s, node, s)
    && Below(h, T, node, s, node, Head(Plug(kk, r2)))
    && (k.In? ==>
        Below(h, T, node, s, k.x, node) && Below(h, T, node, s, k.x, s) && Below(h, T, node, s, k.x, Head(k.far)))
  }

  lemma {:induction false} BetweenKid(h: Shot, g: Shot, T: Tree, k: Ctx, l: Tree, node: RbNode, s: RbNode, kk: Ctx,
          r2: Tree, n: RbNode, side: Side)
    requires InBetween(h, g, k, l, node, s, kk, r2) && KidsBelow(h, T, k, l, node, s, kk, r2)
    requires g.m.Keys == Nodes(T) + {node} && n in h.m
    ensures (n in Nodes(T) && n in g.m && Kid(h.m[n], side) == Kid(g.m[n], side))
      || Below(h, T, node, s, n, Kid(h.m[n], side))
  {
    hide Nodes, Plug;
    if k.In? && n == k.x && side != k.s { assert side == Other(k.s); }
  }

  lemma {:induction false} BetweenNear(h: Shot, g: Shot, k: Ctx, l: Tree, node: RbNode, s: RbNode, c: Color, kk: Ctx,
          r2: Tree)
    requires Parts(k, l, node, s, kk, r2) && InBetween(h, g, k, l, node, s, kk, r2)
    requires g.m.Keys == Nodes(Promoted(k, l, s, c, kk, r2)) + {node}
    ensures var T := Promoted(k, l, s, c, kk, r2);
      && Apart(T) && node !in Nodes(T)
      && forall n, side :: n in h.m ==>
        || (n in Nodes(T) && n in g.m && Kid(h.m[n], side) == Kid(g.m[n], side))
        || Below(h, T, node, s, n, Kid(h.m[n], side))
  {
    var T := Promoted(k, l, s, c, kk, r2);
    PromotedApart(k, l, node, s, c, kk, r2);
    PromotedSizes(k, l, s, c, kk, r2);
    PromotePlaces(k, l, node, s, kk, r2);
    PromotedHeads(k, l, s, c, kk, r2);
    hide Parts, Nodes, KNodes, Apart, Promoted, Plug, SizeAt, Below, KidsBelow, Between, SameKids;
    BetweenBelow(h, T, k, l, node, s, kk, r2);
    forall n, side | n in h.m
      ensures (n in Nodes(T) && n in g.m && Kid(h.m[n], side) == Kid(g.m[n], side))
        || Below(h, T, node, s, n, Kid(h.m[n], side))
    {
      BetweenKid(h, g, T, k, l, node, s, kk, r2, n, side);
    }
  }

  lemma {:induction false} BetweenLoopless(h: Shot, g: Shot, k: Ctx, l: Tree, node: RbNode, s: RbNode, c: Color,
          kk: Ctx, r2: Tree)
    requires RepTree(g, Promoted(k, l, s, c, kk, r2)) && Parts(k, l, node, s, kk, r2)
      && InBetween(h, g, k, l, node, s, kk, r2)
    requires g.m.Keys == Nodes(Promoted(k, l, s, c, kk, r2)) + {node}
    ensures Loopless(h)
  {
    hide Parts, Nodes, Apart, RepTree, Promoted, Below, Loopless;
    BetweenNear(h, g, k, l, node, s, c, kk, r2);
    assert h.m.Keys == g.m.Keys;
    hide InBetween;
    NearLoopless(h, g, Promoted(k, l, s, c, kk, r2), node, s);
  }

  lemma {:induction false} PromotedHeads(k: Ctx, l: Tree, s: RbNode, c: Color, kk: Ctx, r2: Tree)
    ensures var T := Promoted(k, l, s, c, kk, r2);
      && s in Nodes(T) && (l.Node? ==> l.x in Nodes(T)) && (r2.Node? ==> r2.x in Nodes(T))
      && (Head(Plug(kk, r2)) != null ==> Head(Plug(kk, r2)) in Nodes(T))
      && (k.In? ==> k.x in Nodes(T) && (k.far.Node? ==> k.far.x in Nodes(T)))
  {
    var q := Plug(kk, Paint(r2, Black));
    PlugNodes(k, Node(l, s, c, q)); PlugNodes(kk, Paint(r2, Black)); PaintSame(r2, Black);
    HeadPaint(kk, r2);
    HeadIn(l); HeadIn(r2); HeadIn(q); UpIn(k);
    if k.In? { HeadIn(k.far); }
  }

  lemma {:induction false} BetweenBelow(h: Shot, T: Tree, k: Ctx, l: Tree, node: RbNode, s: RbNode, kk: Ctx, r2: Tree)
    requires h.m.Keys == Nodes(T) + {node} && node !in Nodes(T) && s in Nodes(T)
    requires l.Node? ==> l.x in Nodes(T)
    requires r2.Node? ==> r2.x in Nodes(T)
    requires Head(Plug(kk, r2)) != null ==> Head(Plug(kk, r2)) in Nodes(T)
    requires k.In? ==> k.x in Nodes(T) && (k.far.Node? ==> k.far.x in Nodes(T))
    requires SizeAt(T, Head(l)) < SizeAt(T, s) && SizeAt(T, Head(Plug(kk, r2))) < SizeAt(T, s)
      && SizeAt(T, Head(r2)) < SizeAt(T, s)
    requires k.In? ==> SizeAt(T, s) < SizeAt(T, k.x) && SizeAt(T, Head(k.far)) < SizeAt(T, k.x)
    ensures KidsBelow(h, T, k, l, node, s, kk, r2)
  {}

  lemma {:induction false} PromoteKids(h: Shot, b1: Shot, b2: Shot, b3: Shot, b4: Shot, b5: Shot, k: Ctx, l: Tree,
          node: RbNode, c: Color, s: RbNode, par: RbNode, r2: Tree)
    requires PromoteRun(h, b1, b2, b3, b4, b5, k, l, node, c, s, par, r2)
    requires b3 == if k.Top? then PutTop(b2, s) else PutKid(b2, k.x, k.s, s)
    ensures h.m.Keys == b1.m.Keys == b2.m.Keys == b3.m.Keys == b5.m.Keys
    ensures SameKids(h, b1, s, null) && SameKids(b1, b2, null, null) && SameKids(b2, b3, Up(k), null)
      && SameKids(b3, b5, null, null)
  {
    hide PutChild, SameKids;
    KidsPutKid(h, s, L, Head(l));
    KidsPutPC(b1, l.x, s, Red);
    if k.In? { KidsPutKid(b2, k.x, k.s, s); } else { KidsPutTop(b2, s); }
    KidsPutPC(b3, s, Up(k), c);
    if r2.Node? { KidsPutPC(b4, r2.x, par, Black); KidsTrans(b3, b4, b5); }
  }

  lemma {:induction false} KidsPutTop(h: Shot, y: RbNode?)
    ensures SameKids(h, PutTop(h, y), null, null)
  {}

  lemma {:induction false} PromoteBetween(h: Shot, b1: Shot, b2: Shot, b3: Shot, b4: Shot, b5: Shot, k: Ctx, l: Tree,
          node: RbNode, c: Color, s: RbNode, kk: Ctx, r2: Tree)
    requires Detached(h, k, l, node, c, s, kk, r2) && Parts(k, l, node, s, kk, r2)
    requires PromoteRun(h, b1, b2, b3, b4, b5, k, l, node, c, s, if kk.Top? then s else kk.x, r2)
    ensures InBetween(h, b5, k, l, node, s, kk, r2) && InBetween(b1, b5, k, l, node, s, kk, r2)
      && InBetween(b3, b5, k, l, node, s, kk, r2)
  {
    PromotePlaces(k, l, node, s, kk, r2);
    PromoteSlot(h, b1, b2, b3, b4, b5, k, l, node, c, s, UpTo(kk, s), r2);
    PromoteKids(h, b1, b2, b3, b4, b5, k, l, node, c, s, UpTo(kk, s), r2);
    hide Parts, RepAny, RepK, Rep, PutChild, Nodes, KNodes;
    DetachedBetween(h, k, l, node, c, s, kk, r2);
    KidsBetween(h, b1, b2, b3, k, l, node, s, kk, r2);
    KidsChain(h, b1, b2, b3, b5, s, Up(k));
  }

  lemma {:induction false} DetachedBetween(h: Shot, k: Ctx, l: Tree, node: RbNode, c: Color, s: RbNode, kk: Ctx,
          r2: Tree)
    requires Detached(h, k, l, node, c, s, kk, r2)
    ensures Between(h, k, l, node, s, kk, r2)
  {
    assert k.In? ==> k.x in h.m && Kid(h.m[k.x], k.s) == node && Kid(h.m[k.x], Other(k.s)) == Head(k.far);
  }

  lemma {:induction false} KidsBetween(h: Shot, b1: Shot, b2: Shot, b3: Shot, k: Ctx, l: Tree, node: RbNode, s: RbNode,
          kk: Ctx, r2: Tree)
    requires Between(h, k, l, node, s, kk, r2) && s != node && (k.In? ==> k.x != s && k.x != node)
    requires h.m.Keys == b1.m.Keys == b2.m.Keys && b1 == PutKid(h, s, L, Head(l)) && SameKids(b1, b2, null, null)
    requires b3 == if k.Top? then PutTop(b2, s) else PutKid(b2, k.x, k.s, s)
    ensures Between(b1, k, l, node, s, kk, r2) && Between(b3, k, l, node, s, kk, r2)
  {
    assert Between(b1, k, l, node, s, kk, r2);
    assert Between(b2, k, l, node, s, kk, r2);
  }

  lemma {:induction false} KidsChain(h: Shot, b1: Shot, b2: Shot, b3: Shot, b5: Shot, s: RbNode, up: RbNode?)
    requires SameKids(h, b1, s, null) && SameKids(b1, b2, null, null) && SameKids(b2, b3, up, null)
      && SameKids(b3, b5, null, null)
    ensures SameKids(h, b5, s, up) && SameKids(b1, b5, s, up) && SameKids(b3, b5, s, up)
  {}

  lemma {:induction false} DetachBetween(g: Shot, a1: Shot, a2: Shot, a3: Shot, F: Shot, k: Ctx, l: Tree, node: RbNode,
          s: RbNode, kk: Ctx, r2: Tree, y: RbNode)
    requires kk.In? && DetachRun(g, a1, a2, a3, s, kk.x, y, r2) && InBetween(a3, F, k, l, node, s, kk, r2)
    requires s in g.m && g.m[s].left == null && g.m[s].right == Head(r2)
    requires node != s && s != kk.x && (k.In? ==> k.x != s)
    ensures InBetween(a1, F, k, l, node, s, kk, r2) && InBetween(a2, F, k, l, node, s, kk, r2)
  {
    hide InBetween, DetachRun;
    DetachSecond(g, a1, a2, a3, F, k, l, node, s, kk, r2, y);
    DetachFirst(g, a1, a2, a3, F, k, l, node, s, kk, r2, y);
  }

  lemma {:induction false} DetachSecond(g: Shot, a1: Shot, a2: Shot, a3: Shot, F: Shot, k: Ctx, l: Tree, node: RbNode,
          s: RbNode, kk: Ctx, r2: Tree, y: RbNode)
    requires kk.In? && DetachRun(g, a1, a2, a3, s, kk.x, y, r2) && InBetween(a3, F, k, l, node, s, kk, r2)
    ensures InBetween(a2, F, k, l, node, s, kk, r2)
  {
    KidsPutPC(a2, y, s, Red);
  }

  lemma {:induction false} DetachFirst(g: Shot, a1: Shot, a2: Shot, a3: Shot, F: Shot, k: Ctx, l: Tree, node: RbNode,
          s: RbNode, kk: Ctx, r2: Tree, y: RbNode)
    requires kk.In? && DetachRun(g, a1, a2, a3, s, kk.x, y, r2) && InBetween(a2, F, k, l, node, s, kk, r2)
    requires s in g.m && g.m[s].left == null && g.m[s].right == Head(r2)
    requires node != s && s != kk.x && (k.In? ==> k.x != s)
    ensures InBetween(a1, F, k, l, node, s, kk, r2)
  {
    KidsPutKid(a1, s, R, y);
    assert a1.m[s].left == null && a1.m[s].right == Head(r2);
  }

  // ---- augmented values ----

  /**
   * After copy, s stores node's old value; all other stored values are right for their own,
   * new subtrees, or are propagated to next.
   */
  ghost predicate AugMoved(h: Shot, k: Ctx, l: Tree, s: RbNode, t: Tree, augment: Option<Compute>) {
    augment.Some? ==>
      Associative(augment.value) && s in h.aug && AugOk(h, l, augment.value) && AugOk(h, t, augment.value)
      && AugK(h, k, augment.value, AugOf(h, s))
  }

  lemma {:induction false} CopyAug(g: Shot, h: Shot, k: Ctx, l: Tree, node: RbNode, c: Color, r: Tree, kk: Ctx,
          s: RbNode, cs: Color, r2: Tree, f: Compute)
    requires AugRep(g, Plug(k, Node(l, node, c, r)), Some(f)) && Succ(r, kk, s, cs, r2) && Parts(k, l, node, s, kk, r2)
    requires node in g.aug && h.aug == g.aug[s := g.aug[node]]
    ensures AugMoved(h, k, l, s, r2, Some(f)) && Dirty(h, kk, f)
  {
    hide Plug, Nodes, KNodes, Apart, ApartK, AllLeft;
    PlugAug(g, k, Node(l, node, c, r), f);
    PlugAug(g, kk, Node(Leaf, s, cs, r2), f);
    AugFrame(g, h, l, f); AugFrame(g, h, r2, f);
    AugKFrame(g, h, k, f, AugOf(g, node));
    AugKFrame(g, h, kk, f, Agg(Node(Leaf, s, cs, r2), f));
    AugKDirty(h, kk, f, Agg(Node(Leaf, s, cs, r2), f));
  }

  /** Values that a store outside k, l and s leaves alone. */
  lemma {:induction false} MovedFrame(g: Shot, h: Shot, k: Ctx, l: Tree, s: RbNode, t: Tree, t': Tree,
          augment: Option<Compute>, P: set<RbNode>)
    requires AugMoved(g, k, l, s, t, augment) && s !in P && Nodes(l) !! P && KNodes(k) !! P
    requires forall n :: n !in P ==> AugOf(h, n) == AugOf(g, n)
    requires augment.Some? ==> AugOk(h, t', augment.value)
    ensures AugMoved(h, k, l, s, t', augment)
  {
    if augment.Some? {
      AugFrame(g, h, l, augment.value);
      AugKFrame(g, h, k, augment.value, AugOf(g, s));
      assert AugOf(h, s).Some?;
    }
  }

  lemma {:induction false} PaintAug(h: Shot, kk: Ctx, r2: Tree, f: Compute)
    requires AugOk(h, Plug(kk, r2), f)
    ensures AugOk(h, Plug(kk, Paint(r2, Black)), f)
  {
    PlugAug(h, kk, r2, f); PlugAug(h, kk, Paint(r2, Black), f);
  }

  lemma {:induction false} FinalDirty(h: Shot, F: Shot, k: Ctx, l: Tree, node: RbNode, s: RbNode, c: Color, kk: Ctx,
          r2: Tree, f: Compute)
    requires AugMoved(h, k, l, s, Plug(kk, r2), Some(f)) && F.aug == h.aug && Parts(k, l, node, s, kk, r2)
    requires RepTree(F, Promoted(k, l, s, c, kk, r2))
    ensures Propagating(F, In(R, s, c, l, k), Plug(kk, Paint(r2, Black)), f, null)
    ensures Plug(In(R, s, c, l, k), Plug(kk, Paint(r2, Black))) == Promoted(k, l, s, c, kk, r2)
  {
    var K, q := In(R, s, c, l, k), Plug(kk, Paint(r2, Black));
    PaintAug(h, kk, r2, f);
    AugFrame(h, F, q, f); AugFrame(h, F, l, f);
    AugKFrame(h, F, k, f, AugOf(h, s));
    PromotedApart(k, l, node, s, c, kk, r2);
    PlugRep(F, K, q); PlugApart(K, q);
    RepKIsPath(F, K, Head(q));
  }

  // ---- the code ----

  lemma {:induction false} PathReads(h: Shot, kk: Ctx, t: Tree, stop: RbNode)
    requires Rep(h, Plug(kk, t), stop) && t.Node?
    ensures t.x in h.m && h.m[t.x].left == Head(t.l) && h.m[t.x].right == Head(t.r) && h.m[t.x].color == t.c
    ensures t.l.Node? ==> t.l.x in h.m
    ensures t.r.Node? ==> t.r.x in h.m
  {
    PlugRepPath(h, kk, t, stop);
  }

  lemma {:induction false} SpineDown(kk: Ctx, t: Tree)
    requires t.Node? && AllLeft(kk)
    ensures AllLeft(In(L, t.x, t.c, t.r, kk)) && Plug(In(L, t.x, t.c, t.r, kk), t.l) == Plug(kk, t)
  {}

  /** The descent to the leftmost node of node's right subtree. */
  method FindSuccessor(root: RbRoot, node: RbNode, child: RbNode, tmp0: RbNode, ghost r: Tree)
    returns (parent: RbNode, successor: RbNode, ghost kk: Ctx, ghost cs: Color, ghost r2: Tree)
    requires Rep(root.Now(), r, node) && r.Node? && r.x == child && r.l.Node? && r.l.x == tmp0
    ensures Succ(r, kk, successor, cs, r2) && kk.In? && kk.x == parent && parent in root.pool && successor in root.pool
    ensures successor.left == null && successor.right == Head(r2) && successor.color == cs
      && (r2.Node? ==> r2.x in root.pool)
  {
    hide Rep, AllLeft;
    successor := child;
    var tmp := tmp0;
    ghost var t := r;
    kk := Top;
    assert AllLeft(Top) && Plug(Top, r) == r by { SpineTop(r); }
    PathReads(root.Now(), kk, t, node);
    while true
      invariant AllLeft(kk) && r == Plug(kk, t) && t.Node? && t.x == successor && t.l.Node? && t.l.x == tmp
      invariant successor in root.pool && tmp in root.pool
      decreases t
    {
      parent := successor;
      successor := tmp;
      SpineDown(kk, t);
      kk, t := In(L, t.x, t.c, t.r, kk), t.l;
      PathReads(root.Now(), kk, t, node);
      if successor.left == null { break; }
      tmp := successor.left;
    }
    cs, r2 := t.c, t.r;
    assert t == Node(Leaf, successor, cs, r2);
  }

  lemma {:induction false} SpineTop(t: Tree)
    ensures AllLeft(Top) && Plug(Top, t) == t
  {}

  /** augment->copy(was, now) */
  method AugCopy(root: RbRoot, was: RbNode, now: RbNode, augment: Option<Compute>)
    requires was in root.pool && now in root.pool
    modifies root, root.pool
    ensures root.Kept() && root.log == old(root.log)
    ensures root.Now() == old(if augment.None? then root.Now() else PutAug(root.Now(), now, was.aug))
  {
    if augment.Some? { root.SetAug(now, was.aug); }
  }

  /** Case 3: the stores that take the successor out of its place. */
  method TakeOut(root: RbRoot, parent: RbNode, successor: RbNode, child: RbNode, child2: RbNode?, ghost r2: Tree)
    returns (ghost a1: Shot, ghost a2: Shot, ghost a3: Shot)
    requires parent in root.pool && successor in root.pool && child in root.pool && child2 == Head(r2)
    modifies root, root.pool
    ensures root.Kept() && DetachRun(old(root.Now()), a1, a2, a3, successor, parent, child, r2)
    ensures root.Now() == a3 && a3.aug == old(root.Now().aug) && root.log == old(root.log) + [a1] + [a2]
  {
    root.StoreLeft(parent, child2);
    a1 := root.Now();
    root.StoreRight(successor, child);
    a2 := root.Now();
    root.SetParent(child, successor);
    a3 := root.Now();
  }

  /** The stores that put the successor in node's place. */
  method Promote(root: RbRoot, node: RbNode, successor: RbNode, parent: RbNode, child2: RbNode?, ghost k: Ctx,
          ghost l: Tree, ghost c: Color, ghost r2: Tree)
    returns (rebalance: RbNode?, ghost b1: Shot, ghost b2: Shot, ghost b3: Shot, ghost b4: Shot, ghost b5: Shot)
    requires node in root.pool && successor in root.pool && node != successor && node.left == Head(l)
      && node.parent == Up(k) && node.color == c
    requires l.Node? && l.x in root.pool && l.x != node && l.x != successor
      && (k.In? ==> k.x in root.pool && k.x != node)
    requires child2 == Head(r2) && (r2.Node? ==> r2.x in root.pool && r2.x != successor)
    requires k.In? ==> k.x != successor
    modifies root, root.pool
    ensures root.Kept() && PromoteRun(old(root.Now()), b1, b2, b3, b4, b5, k, l, node, c, successor, parent, r2)
    ensures root.Now() == b5 && root.log == old(root.log) + [b1] + [b3]
    ensures rebalance == if r2.Leaf? && old(successor.color).Black? then parent else null
  {
    ghost var h := root.Now();
    var tmp := node.left;
    root.StoreLeft(successor, tmp);
    b1 := root.Now();
    root.SetParent(tmp, successor);
    b2 := root.Now();
    assert b2.m[node] == h.m[node] && b2.m[successor].color == h.m[successor].color;
    tmp := node.parent;
    root.ChangeChild(node, successor, tmp);
    b3 := root.Now();
    KeptByChange(b2, node, successor, Up(k));
    var wasBlack := successor.color.Black?;
    root.SetParentColor(successor, node.parent, node.color);
    b4 := root.Now();
    if child2 != null {
      root.SetParentColor(child2, parent, Black);
      rebalance := null;
    } else {
      rebalance := if wasBlack then parent else null;
    }
    b5 := root.Now();
  }

  lemma {:induction false} KeptByChange(h: Shot, node: RbNode, s: RbNode, up: RbNode?)
    requires node in h.m && s in h.m && (up != null ==> up in h.m && up != node && up != s)
    ensures PutChild(h, node, s, up).m[node] == h.m[node] && PutChild(h, node, s, up).m[s] == h.m[s]
  {}

  /** Links only. */
  lemma {:induction false} DetachedLinks(g: Shot, h: Shot, k: Ctx, l: Tree, node: RbNode, c: Color, s: RbNode, kk: Ctx,
          r2: Tree)
    requires Detached(g, k, l, node, c, s, kk, r2) && g.m == h.m && g.top == h.top
    ensures Detached(h, k, l, node, c, s, kk, r2)
  {
    RepPathFrame(g, h, kk, Head(r2), s); RepAnyFrame(g, h, r2); RepFrame(g, h, l, node); RepKFrame(g, h, k, node);
  }

  /** What Case 3's callbacks start from. */
  lemma {:induction false} CopyPropagating(g: Shot, h: Shot, k: Ctx, l: Tree, node: RbNode, c: Color, r: Tree, kk: Ctx,
          s: RbNode, cs: Color, r2: Tree, f: Compute)
    requires AugRep(g, Plug(k, Node(l, node, c, r)), Some(f)) && Succ(r, kk, s, cs, r2) && Parts(k, l, node, s, kk, r2)
    requires node in g.aug && h.aug == g.aug[s := g.aug[node]] && Detached(h, k, l, node, c, s, kk, r2)
    ensures AugMoved(h, k, l, s, r2, Some(f)) && Propagating(h, kk, r2, f, s)
  {
    hide AugRep, Plug;
    CopyAug(g, h, k, l, node, c, r, kk, s, cs, r2, f);
  }

  /** copy and the first propagate: values right for everything but the successor's new place. */
  method MoveAug(root: RbRoot, node: RbNode, successor: RbNode, parent: RbNode, augment: Option<Compute>, ghost g: Shot,
          ghost k: Ctx, ghost l: Tree, ghost c: Color, ghost r: Tree, ghost kk: Ctx, ghost cs: Color, ghost r2: Tree)
    requires node in root.pool && successor in root.pool && (r2.Node? ==> r2.x in root.pool)
    requires AugRep(g, Plug(k, Node(l, node, c, r)), augment) && g.aug == root.Now().aug
    requires Succ(r, kk, successor, cs, r2) && Parts(k, l, node, successor, kk, r2)
    requires Detached(root.Now(), k, l, node, c, successor, kk, r2) && parent == UpTo(kk, successor)
    modifies root, root.pool
    ensures root.Kept() && root.log == old(root.log)
    ensures root.Now().m == old(root.Now().m) && root.Now().top == old(root.Now().top)
    ensures AugMoved(root.Now(), k, l, successor, Plug(kk, r2), augment)
      && Detached(root.Now(), k, l, node, c, successor, kk, r2)
  {
    hide AugRep, Parts, Detached, Succ, AugMoved, Propagating, Plug, Nodes, KNodes;
    ghost var i := root.Now();
    AugCopy(root, node, successor, augment);
    ghost var h := root.Now();
    DetachedLinks(i, h, k, l, node, c, successor, kk, r2);
    match augment
    case None => MovedNone(h, k, l, successor, Plug(kk, r2));
    case Some(f) =>
      CopyPropagating(g, h, k, l, node, c, r, kk, successor, cs, r2, f);
      PathOffSuccessor(k, l, node, successor, kk, r2);
      if parent != successor {
        Propagate(root, parent, successor, f, kk, r2);
        MovedPath(h, root.Now(), k, l, node, successor, kk, r2, f);
      } else {
        SpineTop(r2);
      }
      DetachedLinks(i, root.Now(), k, l, node, c, successor, kk, r2);
  }

  lemma {:induction false} PathOffSuccessor(k: Ctx, l: Tree, node: RbNode, s: RbNode, kk: Ctx, r2: Tree)
    requires Parts(k, l, node, s, kk, r2)
    ensures kk.In? ==> kk.x != s
  {
    UpIn(kk);
  }

  lemma {:induction false} MovedNone(h: Shot, k: Ctx, l: Tree, s: RbNode, t: Tree)
    ensures AugMoved(h, k, l, s, t, None)
  {}

  lemma {:induction false} MovedPath(g: Shot, h: Shot, k: Ctx, l: Tree, node: RbNode, s: RbNode, kk: Ctx, r2: Tree,
          f: Compute)
    requires AugMoved(g, k, l, s, r2, Some(f)) && Parts(k, l, node, s, kk, r2) && AugOk(h, Plug(kk, r2), f)
    requires forall n :: n !in KNodes(kk) ==> AugOf(h, n) == AugOf(g, n)
    ensures AugMoved(h, k, l, s, Plug(kk, r2), Some(f))
  {
    MovedFrame(g, h, k, l, s, r2, Plug(kk, r2), Some(f), KNodes(kk));
  }

  /** The log of taking the successor out: nothing in Case 2, the two child stores in Case 3. */
  ghost predicate TakenLog(g: Shot, h: Shot, taken: seq<Shot>, a3: Shot, s: RbNode, kk: Ctx, r2: Tree) {
    if kk.Top? then taken == []
    else
      && |taken| == 2 && Outer(kk) != null && a3.m == h.m
      && DetachRun(g, taken[0], taken[1], a3, s, kk.x, Outer(kk), r2)
  }

  lemma {:induction false} TakenLoopless(g: Shot, h: Shot, F: Shot, taken: seq<Shot>, a3: Shot, k: Ctx, l: Tree,
          node: RbNode, s: RbNode, c: Color, kk: Ctx, r2: Tree)
    requires TakenLog(g, h, taken, a3, s, kk, r2) && InBetween(h, F, k, l, node, s, kk, r2)
      && Parts(k, l, node, s, kk, r2)
    requires RepTree(F, Promoted(k, l, s, c, kk, r2)) && F.m.Keys == Nodes(Promoted(k, l, s, c, kk, r2)) + {node}
    requires s in g.m && g.m[s].left == null && g.m[s].right == Head(r2)
    ensures AllLoopless(taken) && forall i :: 0 <= i < |taken| ==> taken[i].m.Keys == F.m.Keys
  {
    hide Promoted, RepTree, Nodes, KNodes, Loopless, Plug;
    if kk.In? {
      PathOffSuccessor(k, l, node, s, kk, r2); PromotePlaces(k, l, node, s, kk, r2);
      var a1, a2, y := taken[0], taken[1], Outer(kk);
      DetachBetween(g, a1, a2, a3, F, k, l, node, s, kk, r2, y);
      BetweenLoopless(a1, F, k, l, node, s, c, kk, r2);
      BetweenLoopless(a2, F, k, l, node, s, c, kk, r2);
    }
  }

  lemma {:induction false} LogJoins(log: seq<Shot>, taken: seq<Shot>, b1: Shot, b3: Shot, log': seq<Shot>,
          S: set<RbNode>)
    requires AllLoopless(log) && AllLoopless(taken) && Loopless(b1) && Loopless(b3)
    requires log' == log + taken + [b1] + [b3] && b1.m.Keys == b3.m.Keys == S
    requires forall i :: 0 <= i < |taken| ==> taken[i].m.Keys == S
    ensures Grows(log, log', S)
  {
    hide Loopless;
  }

  /** Case 3 up to the point where the successor is free. */
  method FreeDeep(root: RbRoot, node: RbNode, child: RbNode, tmp: RbNode, augment: Option<Compute>, ghost k: Ctx,
          ghost l: Tree, ghost c: Color, ghost r: Tree)
    returns (parent: RbNode, successor: RbNode, child2: RbNode?, ghost kk: Ctx, ghost cs: Color, ghost r2: Tree,
             ghost taken: seq<Shot>, ghost a3: Shot)
    requires Doomed(root.Now(), k, l, node, c, r, root.pool, augment) && Rep(root.Now(), r, node)
    requires r.Node? && r.x == child && r.l.Node? && r.l.x == tmp && child in root.pool
    modifies root, root.pool
    ensures root.Kept() && root.log == old(root.log) + taken
      && TakenLog(old(root.Now()), root.Now(), taken, a3, successor, kk, r2)
    ensures Succ(r, kk, successor, cs, r2) && Parts(k, l, node, successor, kk, r2)
    ensures Detached(root.Now(), k, l, node, c, successor, kk, r2)
    ensures root.Now().aug == old(root.Now().aug)
    ensures successor in root.pool && successor.color == cs && parent == UpTo(kk, successor)
    ensures old(root.Now()).m[successor].left == null && old(root.Now()).m[successor].right == Head(r2)
    ensures child2 == Head(r2) && (child2 != null ==> child2 in root.pool)
  {
    hide Doomed, Rep, RepK, RepAny, Apart, ApartK, Nodes, KNodes, Parts, Detached, Succ, Plug, AugRep, IsRB, RepTree;
    ghost var g := root.Now();
    parent, successor, kk, cs, r2 := FindSuccessor(root, node, child, tmp, r);
    child2 := successor.right;
    DoomedFacts(g, k, l, node, c, r, kk, successor, cs, r2, root.pool, augment);
    ghost var a1, a2;
    a1, a2, a3 := TakeOut(root, parent, successor, child, child2, r2);
    taken := [a1, a2];
    DetachDone(g, a1, a2, a3, k, l, node, c, r, kk, successor, cs, r2, child, root.pool, augment);
    assert a3.m[successor].color == g.m[successor].color;
  }

  /** Cases 2 and 3 up to the point where the successor is free. */
  method FreeLinks(root: RbRoot, node: RbNode, augment: Option<Compute>, ghost k: Ctx, ghost l: Tree, ghost c: Color,
          ghost r: Tree)
    returns (parent: RbNode, successor: RbNode, child2: RbNode?, ghost kk: Ctx, ghost cs: Color, ghost r2: Tree,
             ghost taken: seq<Shot>, ghost a3: Shot)
    requires Doomed(root.Now(), k, l, node, c, r, root.pool, augment) && r.Node?
    modifies root, root.pool
    ensures root.Kept() && root.log == old(root.log) + taken
      && TakenLog(old(root.Now()), root.Now(), taken, a3, successor, kk, r2)
    ensures Succ(r, kk, successor, cs, r2) && Parts(k, l, node, successor, kk, r2)
    ensures Detached(root.Now(), k, l, node, c, successor, kk, r2)
    ensures root.Now().aug == old(root.Now().aug)
    ensures node in root.pool && successor in root.pool && successor.color == cs && parent == UpTo(kk, successor)
    ensures old(root.Now()).m[successor].left == null && old(root.Now()).m[successor].right == Head(r2)
    ensures child2 == Head(r2) && (child2 != null ==> child2 in root.pool)
  {
    hide Doomed, Rep, RepK, RepAny, Apart, ApartK, Nodes, KNodes, Parts, Detached, Succ, Plug, AugRep, IsRB, RepTree;
    ghost var g := root.Now();
    DoomedReads(g, k, l, node, c, r, root.pool, augment);
    RootReads(g, r, node);
    var child := node.right;
    var tmp := child.left;
    if tmp == null {
      parent, successor := child, child;
      child2 := successor.right;
      kk, cs, r2, taken, a3 := Top, r.c, r.r, [], g;
      SuccTop(r);
      DoomedFacts(g, k, l, node, c, r, kk, successor, cs, r2, root.pool, augment);
      DetachedNow(g, k, l, node, c, r, successor, cs, r2, root.pool, augment);
    } else {
      parent, successor, child2, kk, cs, r2, taken, a3 := FreeDeep(root, node, child, tmp, augment, k, l, c, r);
    }
  }

  /** Cases 2 and 3 up to the point where the successor is free and all values but its own are right. */
  method Free(root: RbRoot, node: RbNode, augment: Option<Compute>, ghost k: Ctx, ghost l: Tree, ghost c: Color,
          ghost r: Tree)
    returns (parent: RbNode, successor: RbNode, child2: RbNode?, ghost kk: Ctx, ghost cs: Color, ghost r2: Tree,
             ghost taken: seq<Shot>, ghost a3: Shot)
    requires Doomed(root.Now(), k, l, node, c, r, root.pool, augment) && r.Node?
    modifies root, root.pool
    ensures root.Kept() && root.log == old(root.log) + taken
      && TakenLog(old(root.Now()), root.Now(), taken, a3, successor, kk, r2)
    ensures Succ(r, kk, successor, cs, r2) && Parts(k, l, node, successor, kk, r2)
    ensures Detached(root.Now(), k, l, node, c, successor, kk, r2)
      && AugMoved(root.Now(), k, l, successor, Plug(kk, r2), augment)
    ensures node in root.pool && successor in root.pool && successor.color == cs && parent == UpTo(kk, successor)
    ensures old(root.Now()).m[successor].left == null && old(root.Now()).m[successor].right == Head(r2)
    ensures child2 == Head(r2) && (child2 != null ==> child2 in root.pool)
  {
    hide Doomed, Rep, RepK, RepAny, Apart, ApartK, Nodes, KNodes, Parts, Detached, AugMoved, Succ, Plug, AugRep, IsRB,
      RepTree;
    ghost var g := root.Now();
    DoomedReads(g, k, l, node, c, r, root.pool, augment);
    parent, successor, child2, kk, cs, r2, taken, a3 := FreeLinks(root, node, augment, k, l, c, r);
    ghost var h := root.Now();
    MoveAug(root, node, successor, parent, augment, g, k, l, c, r, kk, cs, r2);
    assert successor.color == root.Now().m[successor].color == h.m[successor].color;
    assert TakenLog(g, root.Now(), taken, a3, successor, kk, r2);
  }

  lemma {:induction false} RootReads(h: Shot, r: Tree, p: RbNode)
    requires Rep(h, r, p) && r.Node?
    ensures r.x in h.m && h.m[r.x].left == Head(r.l) && h.m[r.x].right == Head(r.r) && h.m[r.x].color == r.c
    ensures r.l.Node? ==> r.l.x in h.m
    ensures r.r.Node? ==> r.r.x in h.m
  {}

  lemma {:induction false} SuccTop(r: Tree)
    requires r.Node? && r.l.Leaf?
    ensures Succ(r, Top, r.x, r.c, r.r)
  {}

  lemma {:induction false} DoomedFacts(g: Shot, k: Ctx, l: Tree, node: RbNode, c: Color, r: Tree, kk: Ctx, s: RbNode,
          cs: Color, r2: Tree, pool: set<RbNode>, augment: Option<Compute>)
    requires Doomed(g, k, l, node, c, r, pool, augment) && Succ(r, kk, s, cs, r2)
    ensures Parts(k, l, node, s, kk, r2) && pool == KNodes(k) + Nodes(l) + {node, s} + KNodes(kk) + Nodes(r2)
    ensures kk.In? ==> Outer(kk) == Head(r) && kk.x != s
  {
    DoomedParts(k, l, node, c, r, kk, s, cs, r2);
    if kk.In? { OuterHead(kk, Node(Leaf, s, cs, r2)); PathOffSuccessor(k, l, node, s, kk, r2); }
  }

  /** What Promote needs to know about memory. */
  lemma {:induction false} PromoteReads(h: Shot, k: Ctx, l: Tree, node: RbNode, c: Color, s: RbNode, kk: Ctx, r2: Tree)
    requires Detached(h, k, l, node, c, s, kk, r2) && Parts(k, l, node, s, kk, r2)
    ensures node in h.m && s in h.m && node != s && h.m[node].left == Head(l) && h.m[node].parent == Up(k)
      && h.m[node].color == c
    ensures l.Node? ==> l.x in h.m && l.x != node && l.x != s
    ensures k.In? ==> k.x in h.m && k.x != node && k.x != s
    ensures r2.Node? ==> r2.x in h.m && r2.x != s
  {
    PromotePlaces(k, l, node, s, kk, r2);
  }

  /** Once the successor is in place: the new tree, and no loops on the way. */
  lemma {:induction false} PromotedDone(h: Shot, b1: Shot, b2: Shot, b3: Shot, b4: Shot, F: Shot, k: Ctx, l: Tree,
          node: RbNode, c: Color, s: RbNode, kk: Ctx, r2: Tree, pool: set<RbNode>)
    requires Detached(h, k, l, node, c, s, kk, r2) && Parts(k, l, node, s, kk, r2)
    requires PromoteRun(h, b1, b2, b3, b4, F, k, l, node, c, s, if kk.Top? then s else kk.x, r2)
    requires h.m.Keys == pool == KNodes(k) + Nodes(l) + {node, s} + KNodes(kk) + Nodes(r2)
    ensures Spliced(F, Promoted(k, l, s, c, kk, r2), node, pool) && F.aug == h.aug
    ensures Loopless(b1) && Loopless(b3) && InBetween(h, F, k, l, node, s, kk, r2) && F.m.Keys == pool
    ensures b1.m.Keys == b3.m.Keys == pool
  {
    hide Detached, Parts, PromoteRun, Promoted, RepTree, Loopless, InBetween, Nodes, KNodes, Apart, LeadsInto;
    PromoteDone(h, b1, b2, b3, b4, F, k, l, node, c, s, kk, r2);
    PromotedApart(k, l, node, s, c, kk, r2);
    PromoteBetween(h, b1, b2, b3, b4, F, k, l, node, c, s, kk, r2);
    BetweenLoopless(b1, F, k, l, node, s, c, kk, r2);
    BetweenLoopless(b3, F, k, l, node, s, c, kk, r2);
    BetweenLeads(h, F, k, l, node, s, c, kk, r2);
    assert b1.m.Keys == b3.m.Keys == F.m.Keys by {
      BetweenKeys(b1, F, k, l, node, s, kk, r2); BetweenKeys(b3, F, k, l, node, s, kk, r2);
    }
  }

  lemma {:induction false} BetweenKeys(h: Shot, g: Shot, k: Ctx, l: Tree, node: RbNode, s: RbNode, kk: Ctx, r2: Tree)
    requires InBetween(h, g, k, l, node, s, kk, r2)
    ensures h.m.Keys == g.m.Keys
  {}

  lemma {:induction false} BetweenLeads(h: Shot, g: Shot, k: Ctx, l: Tree, node: RbNode, s: RbNode, c: Color, kk: Ctx,
          r2: Tree)
    requires InBetween(h, g, k, l, node, s, kk, r2) && Parts(k, l, node, s, kk, r2)
    ensures LeadsInto(g, node, Nodes(Promoted(k, l, s, c, kk, r2)))
  {
    hide Nodes, Promoted, KNodes, Plug;
    PromotePlaces(k, l, node, s, kk, r2);
    PromotedHeads(k, l, s, c, kk, r2);
  }

  /** Cases 2 and 3, links only. */
  method UnlinkTwoLinks(root: RbRoot, node: RbNode, augment: Option<Compute>, ghost k: Ctx, ghost l: Tree,
          ghost c: Color, ghost r: Tree)
    returns (rebalance: RbNode?, successor: RbNode, ghost kk: Ctx, ghost cs: Color, ghost r2: Tree)
    requires Doomed(root.Now(), k, l, node, c, r, root.pool, augment) && AllLoopless(root.log) && l.Node? && r.Node?
    modifies root, root.pool
    ensures root.Kept() && Grows(old(root.log), root.log, root.pool)
    ensures Succ(r, kk, successor, cs, r2) && Parts(k, l, node, successor, kk, r2)
    ensures Spliced(root.Now(), Promoted(k, l, successor, c, kk, r2), node, root.pool)
    ensures AugMoved(root.Now(), k, l, successor, Plug(kk, r2), augment)
    ensures rebalance == if r2.Leaf? && cs.Black? then UpTo(kk, successor) else null
    ensures successor in root.pool
  {
    hide Doomed, Rep, RepK, RepAny, Apart, ApartK, Nodes, KNodes, Parts, Detached, AugMoved, Succ, Plug, AugRep, IsRB,
      RepTree;
    hide AllLoopless, Grows, Loopless, TakenLog, PromoteRun, Spliced, Promoted, InBetween;
    ghost var g := root.Now();
    var parent, child2;
    ghost var taken, a3;
    parent, successor, child2, kk, cs, r2, taken, a3 := Free(root, node, augment, k, l, c, r);
    ghost var h := root.Now();
    PromoteReads(h, k, l, node, c, successor, kk, r2);
    ghost var b1, b2, b3, b4, b5;
    rebalance, b1, b2, b3, b4, b5 := Promote(root, node, successor, parent, child2, k, l, c, r2);
    DoomedFacts(g, k, l, node, c, r, kk, successor, cs, r2, root.pool, augment);
    PromotedDone(h, b1, b2, b3, b4, b5, k, l, node, c, successor, kk, r2, root.pool);
    SplicedTree(b5, Promoted(k, l, successor, c, kk, r2), node, root.pool);
    TakenLoopless(g, h, b5, taken, a3, k, l, node, successor, c, kk, r2);
    LogJoins(old(root.log), taken, b1, b3, root.log, root.pool);
    MovedSame(h, b5, k, l, successor, Plug(kk, r2), augment);
  }

  lemma {:induction false} SplicedTree(h: Shot, T: Tree, node: RbNode, pool: set<RbNode>)
    requires Spliced(h, T, node, pool)
    ensures RepTree(h, T) && pool == Nodes(T) + {node} && Apart(T) && node !in Nodes(T)
  {
    hide RepTree, Nodes, Apart;
  }

  lemma {:induction false} MovedSame(g: Shot, h: Shot, k: Ctx, l: Tree, s: RbNode, t: Tree, augment: Option<Compute>)
    requires AugMoved(g, k, l, s, t, augment) && g.aug == h.aug
    ensures AugMoved(h, k, l, s, t, augment)
  {
    if augment.Some? {
      AugFrame(g, h, l, augment.value); AugFrame(g, h, t, augment.value);
      AugKFrame(g, h, k, augment.value, AugOf(g, s));
    }
  }

  /** Cases 2 and 3. */
  method UnlinkTwo(root: RbRoot, node: RbNode, augment: Option<Compute>, ghost k: Ctx, ghost l: Tree, ghost c: Color,
          ghost r: Tree)
    returns (rebalance: RbNode?, ghost s: RbNode, ghost kk: Ctx, ghost cs: Color, ghost r2: Tree)
    requires Doomed(root.Now(), k, l, node, c, r, root.pool, augment) && AllLoopless(root.log) && l.Node? && r.Node?
    modifies root, root.pool
    ensures root.Kept() && Grows(old(root.log), root.log, root.pool)
    ensures Succ(r, kk, s, cs, r2)
    ensures Spliced(root.Now(), Promoted(k, l, s, c, kk, r2), node, root.pool)
    ensures AugRep(root.Now(), Promoted(k, l, s, c, kk, r2), augment)
    ensures rebalance == if r2.Leaf? && cs.Black? then UpTo(kk, s) else null
  {
    hide Doomed, Rep, Nodes, KNodes, Parts, AugMoved, Succ, Plug, AugRep, RepTree, AllLoopless, Grows, Spliced,
      Promoted, Propagating, AugOk;
    var successor;
    rebalance, successor, kk, cs, r2 := UnlinkTwoLinks(root, node, augment, k, l, c, r);
    s := successor;
    ghost var F := root.Now();
    ghost var T := Promoted(k, l, s, c, kk, r2);
    match augment
    case None => AugRepNone(root.Now(), T);
    case Some(f) =>
      SplicedTree(F, T, node, root.pool);
      FinalDirty(F, F, k, l, node, s, c, kk, r2, f);
      PromotedTop(k, l, s, c, kk, r2, node, F, root.pool);
      Propagate(root, successor, null, f, In(R, s, c, l, k), Plug(kk, Paint(r2, Black)));
      SplicedLinks(F, root.Now(), T, node, root.pool);
      MovedAssociative(F, k, l, s, Plug(kk, r2), f);
      AugRepFrom(root.Now(), T, f);
  }

  lemma {:induction false} MovedAssociative(h: Shot, k: Ctx, l: Tree, s: RbNode, t: Tree, f: Compute)
    requires AugMoved(h, k, l, s, t, Some(f))
    ensures Associative(f)
  {}

  lemma {:induction false} AugRepFrom(h: Shot, t: Tree, f: Compute)
    requires Associative(f) && AugOk(h, t, f)
    ensures AugRep(h, t, Some(f))
  {}

  lemma {:induction false} PromotedTop(k: Ctx, l: Tree, s: RbNode, c: Color, kk: Ctx, r2: Tree, node: RbNode, h: Shot,
          pool: set<RbNode>)
    requires Spliced(h, Promoted(k, l, s, c, kk, r2), node, pool)
    ensures var q := Plug(kk, Paint(r2, Black)); q.Node? ==> q.x in pool
  {
    var q := Plug(kk, Paint(r2, Black));
    PlugNodes(k, Node(l, s, c, q));
    HeadIn(q);
  }
}
