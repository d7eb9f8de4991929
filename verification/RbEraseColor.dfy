/** ____rb_erase_color: repairs a tree in which one subtree is a black node short (rbtree.c:249-430). */
module RbEraseColor {
  import opened RbModel
  import opened RbHeap
  import opened RbRotate
  import opened RbInsert

  // ---- shapes and colours ----

  /** Hole and sibling: the hole is on side s of p, and the sibling q has near child b and far child a. */
  function Sib(s: Side, p: RbNode, cp: Color, a: Tree, q: RbNode, cq: Color, b: Tree, up: Ctx): Ctx {
    In(s, p, cp, Mk(Other(s), a, q, cq, b), up)
  }

  lemma {:induction false} SibView(s: Side, p: RbNode, cp: Color, a: Tree, q: RbNode, cq: Color, b: Tree, up: Ctx,
          t: Tree)
    ensures Plug(Sib(s, p, cp, a, q, cq, b, up), t) == Plug(up, Lower(Other(s), a, q, cq, b, p, cp, t))
  {}

  /** Case 1 turns a red sibling into a red parent with a black sibling. */
  lemma {:induction false} RedSiblingRB(s: Side, p: RbNode, cp: Color, a: Tree, q: RbNode, b: Tree, up: Ctx, t: Tree,
          bh: nat)
    requires RBK(Sib(s, p, cp, a, q, Red, b, up), bh + 1)
    ensures cp == Black && b.Node? && b.c.Black?
    ensures RBK(In(s, p, Red, b, In(s, q, Black, a, up)), bh + 1)
    ensures Plug(up, Lifted(Other(s), a, q, Black, b, p, Red, t)) == Plug(In(s, p, Red, b, In(s, q, Black, a, up)), t)
  {
    assert RB(Mk(Other(s), a, q, Red, b), bh + 1);
    assert RB(b, bh + 1) && Blk(b);
  }

  /** Case 2 takes a black node off the sibling's side too. */
  lemma {:induction false} FlipSiblingRB(s: Side, p: RbNode, cp: Color, a: Tree, q: RbNode, b: Tree, up: Ctx, t: Tree,
          bh: nat)
    requires RBK(Sib(s, p, cp, a, q, Black, b, up), bh + 1) && RB(t, bh) && Blk(t) && Blk(a) && Blk(b)
    ensures RB(Mk(s, t, p, Black, Mk(Other(s), a, q, Red, b)), bh + 1)
    ensures RBK(up, if cp == Black then bh + 2 else bh + 1)
    ensures cp == Red || up.Top? ==> IsRB(Plug(up, Mk(s, t, p, Black, Mk(Other(s), a, q, Red, b))))
  {
    var t' := Mk(s, t, p, Black, Mk(Other(s), a, q, Red, b));
    assert RB(Mk(Other(s), a, q, Red, b), bh);
    if cp == Red || up.Top? { PlugRB(up, t', bh + 1); }
  }

  /** Case 4: the red far nephew pays for the missing black node. */
  lemma {:induction false} LiftSiblingRB(s: Side, p: RbNode, cp: Color, a: Tree, q: RbNode, b: Tree, up: Ctx, t: Tree,
          bh: nat)
    requires RBK(up, Rise(bh + 1, cp)) && (cp == Red ==> up.In? && up.c.Black?)
    requires RB(t, bh) && RB(b, bh) && RB(Paint(a, Black), bh + 1)
    ensures IsRB(Plug(up, Lifted(Other(s), Paint(a, Black), q, cp, b, p, Black, t)))
  {
    var p' := Mk(Other(s), b, p, Black, t);
    assert RB(p', bh + 1) && Blk(p') && Blk(Paint(a, Black));
    PlugRB(up, Lifted(Other(s), Paint(a, Black), q, cp, b, p, Black, t), Rise(bh + 1, cp));
  }

  // ---- the invariant ----

  /** The loop invariant: every path through the hole is one black node short, and nothing else is wrong. */
  ghost predicate Deficit(h: Shot, k: Ctx, t: Tree, bh: nat, pool: set<RbNode>, augment: Option<Compute>) {
    && k.In? && Blk(t) && RB(t, bh) && RBK(k, bh + 1)
    && RepTree(h, Plug(k, t)) && Apart(Plug(k, t)) && pool == Nodes(Plug(k, t)) && AugRep(h, Plug(k, t), augment)
  }

  /** What the loop reads about parent, sibling and nephews. */
  lemma {:induction false} DeficitReads(h: Shot, k: Ctx, t: Tree)
    requires k.In? && k.far.Node? && RepTree(h, Plug(k, t)) && Apart(Plug(k, t))
    ensures k.x in h.m && h.m[k.x].color == k.c && h.m[k.x].parent == Up(k.up)
    ensures Kid(h.m[k.x], k.s) == Head(t) && Kid(h.m[k.x], Other(k.s)) == k.far.x && Head(t) != k.far.x
      && k.x != k.far.x
    ensures k.far.x in h.m && h.m[k.far.x].color == k.far.c && h.m[k.far.x].parent == k.x
    ensures h.m[k.far.x].left == Head(k.far.l) && h.m[k.far.x].right == Head(k.far.r)
    ensures k.far.l.Node? ==> k.far.l.x in h.m && h.m[k.far.l.x].color == k.far.l.c
    ensures k.far.r.Node? ==> k.far.r.x in h.m && h.m[k.far.r.x].color == k.far.r.c
    ensures k.up.In? ==> k.up.x in h.m
  {
    PlugRep(h, k, t); PlugApart(k, t);
    HeadIn(t); HeadIn(k.far);
    assert Rep(h, k.far, k.x);
    assert Rep(h, k.far.l, k.far.x) && Rep(h, k.far.r, k.far.x);
  }

  lemma {:induction false} SiblingThere(k: Ctx, bh: nat)
    requires k.In? && RBK(k, bh + 1)
    ensures k.far.Node?
  {}

  // ---- Case 2 ----

  /** The stores of Case 2: the sibling turns red, and a red parent black. */
  lemma {:induction false} FlipSiblingRep(g: Shot, h: Shot, s: Side, p: RbNode, cp: Color, a: Tree, q: RbNode, b: Tree,
          up: Ctx, t: Tree)
    requires RepTree(g, Plug(Sib(s, p, cp, a, q, Black, b, up), t)) && Apart(Plug(Sib(s, p, cp, a, q, Black, b, up), t))
    requires p in g.m && q in g.m && p in h.m && q in h.m && h.top == g.top && SameOff(g, h, p, q, null, null)
    requires h.m[q] == g.m[q].(parent := p, color := Red) && h.m[p] == g.m[p].(color := Black)
    ensures RepTree(h, Plug(up, Mk(s, t, p, Black, Mk(Other(s), a, q, Red, b))))
  {
    var k := Sib(s, p, cp, a, q, Black, b, up);
    PlugRep(g, k, t); PlugApart(k, t); UpIn(k);
    MkApart(Other(s), a, q, Black, b);
    assert RepK(g, up, p) && Rep(g, Mk(Other(s), a, q, Black, b), p);
    OffSame(g, h, p, q, null, null, Nodes(t)); RepFrame(g, h, t, p);
    OffSame(g, h, p, q, null, null, Nodes(a)); RepFrame(g, h, a, q);
    OffSame(g, h, p, q, null, null, Nodes(b)); RepFrame(g, h, b, q);
    OffSame(g, h, p, q, null, null, KNodes(up)); RepKFrame(g, h, up, p);
    assert Rep(h, Mk(Other(s), a, q, Red, b), p);
    PlugRep(h, up, Mk(s, t, p, Black, Mk(Other(s), a, q, Red, b)));
  }

  /** Recolouring keeps order, nodes and folds. */
  lemma {:induction false} FlipSiblingOrder(s: Side, p: RbNode, cp: Color, a: Tree, q: RbNode, b: Tree, up: Ctx,
          t: Tree)
    ensures var t0, t1 := Plug(Sib(s, p, cp, a, q, Black, b, up), t),
        Plug(up, Mk(s, t, p, Black, Mk(Other(s), a, q, Red, b)));
      Inorder(t0) == Inorder(t1) && Nodes(t0) == Nodes(t1) && (Apart(t0) <==> Apart(t1))
  {
    var f0, f1 := Mk(Other(s), a, q, Black, b), Mk(Other(s), a, q, Red, b);
    var u0, u1 := Mk(s, t, p, cp, f0), Mk(s, t, p, Black, f1);
    assert Plug(Sib(s, p, cp, a, q, Black, b, up), t) == Plug(up, u0);
    assert Inorder(f0) == Inorder(f1) && Nodes(f0) == Nodes(f1) && (Apart(f0) <==> Apart(f1));
    PlugInorder(up, u0); PlugInorder(up, u1);
    PlugNodes(up, u0); PlugNodes(up, u1);
    PlugApart(up, u0); PlugApart(up, u1);
  }

  lemma {:induction false} FlipSiblingAug(h: Shot, augment: Option<Compute>, s: Side, p: RbNode, cp: Color, a: Tree,
          q: RbNode, b: Tree, up: Ctx, t: Tree)
    requires AugRep(h, Plug(Sib(s, p, cp, a, q, Black, b, up), t), augment)
    ensures AugRep(h, Plug(up, Mk(s, t, p, Black, Mk(Other(s), a, q, Red, b))), augment)
  {
    if augment.Some? {
      var f := augment.value;
      var f0, f1 := Mk(Other(s), a, q, Black, b), Mk(Other(s), a, q, Red, b);
      var u0, u1 := Mk(s, t, p, cp, f0), Mk(s, t, p, Black, f1);
      assert Plug(Sib(s, p, cp, a, q, Black, b, up), t) == Plug(up, u0);
      PlugAug(h, up, u0, f); PlugAug(h, up, u1, f);
      MkAug(h, s, t, p, cp, f0, f); MkAug(h, s, t, p, Black, f1, f);
      MkAug(h, Other(s), a, q, Black, b, f); MkAug(h, Other(s), a, q, Red, b, f);
    }
  }

  // ---- Cases 1 and 4: rotate at parent ----

  /** The link stores of Case 4 (lift n over o, paint n's far child black). */
  ghost predicate LiftRun(h0: Shot, h1: Shot, h2: Shot, h3: Shot, h4: Shot, s: Side, a: Tree, n: RbNode, b: Tree,
          o: RbNode) {
    && o in h0.m && h1 == PutKid(h0, o, s, Head(b))
    && n in h1.m && h2 == PutKid(h1, n, Other(s), o)
    && a.Node? && a.x in h2.m && (b.Node? ==> b.x in h2.m)
    && h3 == (if b.Node? then PutParent(PutParentColor(h2, a.x, n, Black), b.x, o)
        else PutParentColor(h2, a.x, n, Black))
    && o in h3.m && n in h3.m && (h3.m[o].parent != null ==> h3.m[o].parent in h3.m)
    && h4 == PutRotated(h3, o, n, Black)
  }

  lemma {:induction false} LiftIsRotation(h0: Shot, h1: Shot, h2: Shot, h3: Shot, h4: Shot, s: Side, k: Ctx, a: Tree,
          n: RbNode, b: Tree, o: RbNode, u: Tree)
    requires LiftRun(h0, h1, h2, h3, h4, s, a, n, b, o)
    requires Ready(h0, s, k, a, n, b, o, u) && Rep(h0, b, n) && Sep(k, a, n, b, o, u)
    ensures RotationRun(h0, h1, h2, h3, h4, s, k, a, Black, n, b, ColorOf(b), o, Black, u)
  {
    HeadIn(a); HeadIn(b);
  }

  lemma {:induction false} LiftDone(h0: Shot, h1: Shot, h2: Shot, h3: Shot, h4: Shot, s: Side, k: Ctx, a: Tree,
          n: RbNode, nc: Color, b: Tree, o: RbNode, oc: Color, u: Tree)
    requires LiftRun(h0, h1, h2, h3, h4, s, a, n, b, o)
    requires Ready(h0, s, k, a, n, b, o, u) && Rep(h0, b, n) && Sep(k, a, n, b, o, u) && h0.m[o].color == oc
    requires h0.m.Keys == Nodes(Plug(k, Lower(s, a, n, nc, b, o, oc, u)))
    ensures RepTree(h4, Plug(k, Lifted(s, Paint(a, Black), n, oc, b, o, Black, u))) && h4.m.Keys == h0.m.Keys
      && h4.aug == h0.aug
    ensures Loopless(h1) && Loopless(h2) && Loopless(h4)
  {
    hide Rep, RepK, RepAny, RepTree, Sep, Ready, Nodes, KNodes, Plug, RotationRun, PutRotated, Loopless;
    LiftIsRotation(h0, h1, h2, h3, h4, s, k, a, n, b, o, u);
    assert Paint(b, ColorOf(b)) == b;
    RotationDone(h0, h1, h2, h3, h4, s, k, a, Black, n, b, ColorOf(b), o, Black, u);
    PaintOrder(s, k, a, n, nc, oc, b, o, oc, Black, u);
    RotationLoopless(h0, h1, h2, h3, h4, s, k, a, Black, n, b, ColorOf(b), o, Black, u);
  }

  /** A rotation that also paints the far child keeps order and nodes. */
  lemma {:induction false} PaintOrder(s: Side, k: Ctx, a: Tree, n: RbNode, nc: Color, nc': Color, b: Tree, o: RbNode,
          oc: Color, oc': Color, u: Tree)
    ensures var t0, t1 := Plug(k, Lower(s, a, n, nc, b, o, oc, u)),
        Plug(k, Lifted(s, Paint(a, Black), n, nc', b, o, oc', u));
      Inorder(t0) == Inorder(t1) && Nodes(t0) == Nodes(t1) && (Apart(t0) <==> Apart(t1))
  {
    var a' := Paint(a, Black);
    assert Inorder(a) == Inorder(a') && Nodes(a) == Nodes(a') && (Apart(a) <==> Apart(a'));
    RotateOrder(s, k, a', n, nc, nc', b, o, oc, oc', u);
    SepLower(s, k, a, n, nc, b, o, oc, u); SepLifted(s, k, a', n, nc', b, o, oc', u);
    var l, l' := Lower(s, a, n, nc, b, o, oc, u), Lower(s, a', n, nc, b, o, oc, u);
    PlugInorder(k, l); PlugInorder(k, l');
    PlugNodes(k, l); PlugNodes(k, l');
  }

  lemma {:induction false} LiftAug(h: Shot, augment: Option<Compute>, s: Side, k: Ctx, a: Tree, n: RbNode, nc: Color,
          b: Tree, o: RbNode, oc: Color, u: Tree)
    requires Sep(k, a, n, b, o, u) && o in h.m && o in h.aug
    requires Kid(h.m[o], s) == Head(b) && Kid(h.m[o], Other(s)) == Head(u)
    requires AugRep(h, Plug(k, Lower(s, a, n, nc, b, o, oc, u)), augment)
    ensures AugRep(PutAugRotated(h, o, n, augment), Plug(k, Lifted(s, Paint(a, Black), n, oc, b, o, Black, u)), augment)
  {
    if augment.Some? {
      var f, g := augment.value, PutAugRotated(h, o, n, augment);
      RotateAug(h, f, s, k, a, n, nc, oc, b, o, oc, Black, u);
      PaintFarAug(g, f, s, k, a, n, oc, b, o, Black, u);
    }
  }

  lemma {:induction false} PaintFarAug(g: Shot, f: Compute, s: Side, k: Ctx, a: Tree, n: RbNode, nc: Color, b: Tree,
          o: RbNode, oc: Color, u: Tree)
    requires AugOk(g, Plug(k, Lifted(s, a, n, nc, b, o, oc, u)), f)
    ensures AugOk(g, Plug(k, Lifted(s, Paint(a, Black), n, nc, b, o, oc, u)), f)
  {
    var i, a' := Mk(s, b, o, oc, u), Paint(a, Black);
    PlugAug(g, k, Lifted(s, a, n, nc, b, o, oc, u), f);
    MkAug(g, s, a, n, nc, i, f); MkAug(g, s, a', n, nc, i, f);
    PlugAug(g, k, Lifted(s, a', n, nc, b, o, oc, u), f);
  }

  /** The two parent stores of Case 4. */
  method AdoptNephews(root: RbRoot, parent: RbNode, sibling: RbNode, tmp1: RbNode, tmp2: RbNode?)
    requires tmp1 in root.pool && (tmp2 != null ==> tmp2 in root.pool)
    requires parent != tmp1 && parent != tmp2 && parent in root.pool
    modifies root, root.pool
    ensures root.Kept() && root.log == old(root.log) && parent.parent == old(parent.parent)
    ensures root.Now() == old(var i := PutParentColor(root.Now(), tmp1, sibling, Black);
                              if tmp2 == null then i else PutParent(i, tmp2, parent))
  {
    ghost var h := root.Now();
    root.SetParentColor(tmp1, sibling, Black);
    if tmp2 != null {
      root.SetParent(tmp2, parent);
    }
    assert root.Now().m[parent] == h.m[parent];
  }

  /** The stores of Case 4, up to the callback. */
  method LiftSiblingLinks(root: RbRoot, parent: RbNode, sibling: RbNode, tmp1: RbNode, s: Side, ghost k: Ctx,
          ghost a: Tree, ghost b: Tree, ghost qc: Color, ghost pc: Color, ghost t: Tree)
    requires Ready(root.Now(), Other(s), k, a, sibling, b, parent, t) && Sep(k, a, sibling, b, parent, t)
    requires Rep(root.Now(), b, sibling) && a.Node? && tmp1 == a.x && parent.color == pc
    requires root.pool == Nodes(Plug(k, Lower(Other(s), a, sibling, qc, b, parent, pc, t)))
    requires AllLoopless(root.log)
    modifies root, root.pool
    ensures root.Kept() && Grows(old(root.log), root.log, root.pool)
    ensures RepTree(root.Now(), Plug(k, Lifted(Other(s), Paint(a, Black), sibling, pc, b, parent, Black, t)))
    ensures root.Now().aug == old(root.Now().aug)
  {
    hide Rep, RepK, RepAny, RepTree, Sep, Ready, Nodes, KNodes, Plug, PutRotated, Loopless, AllLoopless, Grows, Lower,
      Lifted, RbRoot.Now;
    ghost var h0 := root.Now();
    ReadyIn(h0, Other(s), k, a, sibling, b, parent, t);
    SiblingIn(h0, Other(s), k, a, sibling, b, parent, t);
    root.Reads(); root.ReadsAt(sibling); root.ReadsAt(parent);
    var tmp2 := ChildOf(sibling, s);
    root.StoreKid(parent, Other(s), tmp2);
    ghost var h1 := root.Now();
    root.StoreKid(sibling, s, parent);
    ghost var h2 := root.Now();
    AdoptNephews(root, parent, sibling, tmp1, tmp2);
    ghost var h3 := root.Now();
    root.Reads(); root.ReadsAt(parent);
    root.RotateSetParents(parent, sibling, Black);
    ghost var h4 := root.Now();
    LiftDone(h0, h1, h2, h3, h4, Other(s), k, a, sibling, qc, b, parent, pc, t);
    LogGrows(old(root.log), h1, h2, h4, root.log, root.pool);
  }

  lemma {:induction false} SiblingIn(h: Shot, s: Side, k: Ctx, a: Tree, n: RbNode, b: Tree, o: RbNode, u: Tree)
    requires Ready(h, s, k, a, n, b, o, u) && Sep(k, a, n, b, o, u)
    ensures n in h.m && Kid(h.m[n], Other(s)) == Head(b) && (a.Node? ==> a.x in h.m)
    ensures n != o && Head(a) != o && Head(b) != o
  {
    HeadIn(a); HeadIn(b);
  }

  /** Case 4: rotate at parent and flip colours; sibling's far child tmp1 pays the missing black. */
  method LiftSibling(root: RbRoot, parent: RbNode, sibling: RbNode, tmp1: RbNode, s: Side, augment: Option<Compute>,
          ghost k: Ctx, ghost a: Tree, ghost b: Tree, ghost qc: Color, ghost pc: Color, ghost t: Tree)
    requires Ready(root.Now(), Other(s), k, a, sibling, b, parent, t) && Sep(k, a, sibling, b, parent, t)
    requires Rep(root.Now(), b, sibling) && a.Node? && tmp1 == a.x && parent.color == pc
    requires root.pool == Nodes(Plug(k, Lower(Other(s), a, sibling, qc, b, parent, pc, t)))
    requires AllLoopless(root.log)
    requires AugRep(root.Now(), Plug(k, Lower(Other(s), a, sibling, qc, b, parent, pc, t)), augment)
    modifies root, root.pool
    ensures root.Kept() && Grows(old(root.log), root.log, root.pool)
    ensures RepTree(root.Now(), Plug(k, Lifted(Other(s), Paint(a, Black), sibling, pc, b, parent, Black, t)))
    ensures AugRep(root.Now(), Plug(k, Lifted(Other(s), Paint(a, Black), sibling, pc, b, parent, Black, t)), augment)
  {
    hide Rep, RepK, RepAny, RepTree, Sep, Ready, Nodes, KNodes, Plug, PutRotated, Loopless, AllLoopless, Grows, Lower,
      Lifted, AugRep;
    ghost var h0 := root.Now();
    ReadyIn(h0, Other(s), k, a, sibling, b, parent, t);
    LiftSiblingLinks(root, parent, sibling, tmp1, s, k, a, b, qc, pc, t);
    ghost var h4 := root.Now();
    LiftedKids(h4, Other(s), k, Paint(a, Black), sibling, pc, b, parent, Black, t);
    AugRotate(root, parent, sibling, augment);
    AugRepMaps(h0, h4, Plug(k, Lower(Other(s), a, sibling, qc, b, parent, pc, t)), augment);
    LiftAug(h4, augment, Other(s), k, a, sibling, qc, b, parent, pc, t);
    RepTreeLinks(h4, root.Now(), Plug(k, Lifted(Other(s), Paint(a, Black), sibling, pc, b, parent, Black, t)));
  }

  // ---- Case 3: rotate at sibling ----

  /**
   * The link stores of Case 3: n, near child of q, goes over q and under p; parents
   * and colours of n and q are left stale.
   */
  ghost predicate NephewRun(h0: Shot, h1: Shot, h2: Shot, h3: Shot, h4: Shot, s: Side, p: RbNode, n: RbNode, b: Tree,
          q: RbNode) {
    && q in h0.m && h1 == PutKid(h0, q, s, Head(b))
    && n in h1.m && h2 == PutKid(h1, n, Other(s), q)
    && p in h2.m && h3 == PutKid(h2, p, Other(s), n)
    && (b.Node? ==> b.x in h3.m) && h4 == PutIf(h3, Head(b), q, Black)
  }

  /** The full rotation that Case 3 and Case 4 complete together. */
  ghost function NephewIdeal(h2: Shot, n: RbNode, b: Tree, q: RbNode): Shot
    requires q in h2.m && n in h2.m && (b.Node? ==> b.x in h2.m)
    requires h2.m[q].parent != null ==> h2.m[q].parent in h2.m
    requires b.Node? ==> b.x != q
  {
    PutRotated(PutIf(h2, Head(b), q, Black), q, n, Black)
  }

  lemma {:induction false} NephewIsRotation(h0: Shot, h1: Shot, h2: Shot, h3: Shot, h4: Shot, s: Side, p: RbNode,
          pc: Color, up: Ctx, a: Tree, n: RbNode, b: Tree, q: RbNode, u: Tree, t: Tree)
    requires NephewRun(h0, h1, h2, h3, h4, s, p, n, b, q) && Blk(b)
    requires RepTree(h0, Plug(In(Other(s), p, pc, t, up), Lower(s, a, n, Red, b, q, Black, u)))
    requires Sep(In(Other(s), p, pc, t, up), a, n, b, q, u)
    ensures h2.m[q].parent == p && p in h2.m && (b.Node? ==> b.x != q)
    ensures var i := PutIf(h2, Head(b), q, Black);
      RotationRun(h0, h1, h2, i, NephewIdeal(h2, n, b, q), s, In(Other(s), p, pc, t, up),
                  a, ColorOf(a), n, b, Black, q, Black, u)
    ensures h0.m[q].color == Black
  {
    ReadyFrom(h0, s, In(Other(s), p, pc, t, up), a, n, Red, b, q, Black, u);
    HeadIn(a); HeadIn(b);
    hide RepTree, Rep, RepK, Plug, Lower, Nodes, KNodes, Apart;
  }

  lemma {:induction false} NephewLoopless(h0: Shot, h1: Shot, h2: Shot, h3: Shot, h4: Shot, s: Side, p: RbNode,
          pc: Color, up: Ctx, a: Tree, n: RbNode, b: Tree, q: RbNode, u: Tree, t: Tree)
    requires NephewRun(h0, h1, h2, h3, h4, s, p, n, b, q) && Blk(b)
    requires RepTree(h0, Plug(In(Other(s), p, pc, t, up), Lower(s, a, n, Red, b, q, Black, u)))
    requires Sep(In(Other(s), p, pc, t, up), a, n, b, q, u)
    requires h0.m.Keys == Nodes(Plug(In(Other(s), p, pc, t, up), Lower(s, a, n, Red, b, q, Black, u)))
    ensures h2.m[q].parent == p && p in h2.m && (b.Node? ==> b.x != q)
    ensures var i := NephewIdeal(h2, n, b, q);
      && RepTree(i, Plug(In(Other(s), p, pc, t, up), Lifted(s, a, n, Black, b, q, Black, u)))
      && i.m.Keys == h0.m.Keys == Nodes(Plug(In(Other(s), p, pc, t, up), Lifted(s, a, n, Black, b, q, Black, u)))
      && i.aug == h0.aug
    ensures Loopless(h1) && Loopless(h2)
  {
    hide Rep, RepTree, RepAny, RepK, Sep, Plug, Nodes, KNodes, RotationRun, Loopless, Lower, Lifted, PutRotated;
    var km := In(Other(s), p, pc, t, up);
    assert Paint(a, ColorOf(a)) == a && Paint(b, Black) == b;
    NephewIsRotation(h0, h1, h2, h3, h4, s, p, pc, up, a, n, b, q, u, t);
    var j, i := PutIf(h2, Head(b), q, Black), NephewIdeal(h2, n, b, q);
    RotationDone(h0, h1, h2, j, i, s, km, a, ColorOf(a), n, b, Black, q, Black, u);
    RotateOrder(s, km, a, n, Red, Black, b, q, Black, Black, u);
    RotationLoopless(h0, h1, h2, j, i, s, km, a, ColorOf(a), n, b, Black, q, Black, u);
  }

  lemma {:induction false} RotatedUnder(h: Shot, q: RbNode, n: RbNode, p: RbNode, o: Side)
    requires q in h.m && n in h.m && p in h.m && h.m[q].parent == p && q != n && q != p && n != p
    requires Kid(h.m[p], o) == q && Kid(h.m[p], Other(o)) != q
    ensures var i := PutRotated(h, q, n, Black);
      && i.m.Keys == h.m.Keys && i.top == h.top && SameOff(h, i, q, n, p, null)
      && i.m[q].left == h.m[q].left && i.m[q].right == h.m[q].right
      && i.m[n].left == h.m[n].left && i.m[n].right == h.m[n].right
      && i.m[p] == WithKid(h.m[p], o, n)
  {}

  /** How the memory after Case 3 differs from the ideal one. */
  lemma {:induction false} NephewStale(h2: Shot, h3: Shot, h4: Shot, s: Side, p: RbNode, n: RbNode, b: Tree, q: RbNode)
    requires q in h2.m && n in h2.m && p in h2.m && h2.m[q].parent == p && q != n && q != p && n != p
    requires b.Node? ==> b.x in h2.m && b.x != q && b.x != p && b.x != n
    requires h3 == PutKid(h2, p, Other(s), n) && h4 == PutIf(h3, Head(b), q, Black)
    requires Kid(h2.m[p], Other(s)) == q && Kid(h2.m[p], s) != q
    ensures var i := NephewIdeal(h2, n, b, q);
      && h4.top == i.top && SameOff(i, h4, n, q, null, null) && i.m.Keys == h3.m.Keys == h4.m.Keys == h2.m.Keys
      && n in i.m && q in i.m && n in h4.m && q in h4.m
      && h4.m[n].left == i.m[n].left && h4.m[n].right == i.m[n].right
      && h4.m[q].left == i.m[q].left && h4.m[q].right == i.m[q].right
  {
    hide PutRotated, SameKids;
    RotatedUnder(PutIf(h2, Head(b), q, Black), q, n, p, Other(s));
  }

  lemma {:induction false} NephewKids(h2: Shot, h3: Shot, s: Side, p: RbNode, n: RbNode, b: Tree, q: RbNode)
    requires q in h2.m && n in h2.m && p in h2.m && h2.m[q].parent == p && q != n && q != p && n != p
    requires b.Node? ==> b.x in h2.m && b.x != q && b.x != p && b.x != n
    requires h3 == PutKid(h2, p, Other(s), n)
    requires Kid(h2.m[p], Other(s)) == q && Kid(h2.m[p], s) != q
    ensures SameKids(h3, NephewIdeal(h2, n, b, q), null, null)
  {
    hide PutRotated;
    RotatedUnder(PutIf(h2, Head(b), q, Black), q, n, p, Other(s));
  }

  lemma {:induction false} NephewLinks(h0: Shot, h1: Shot, h2: Shot, h3: Shot, h4: Shot, s: Side, p: RbNode, pc: Color,
          up: Ctx, a: Tree, n: RbNode, b: Tree, q: RbNode, u: Tree, t: Tree)
    requires NephewRun(h0, h1, h2, h3, h4, s, p, n, b, q)
    requires RepTree(h0, Plug(In(Other(s), p, pc, t, up), Lower(s, a, n, Red, b, q, Black, u)))
    requires Sep(In(Other(s), p, pc, t, up), a, n, b, q, u)
    ensures q in h2.m && n in h2.m && p in h2.m && h2.m[q].parent == p && q != n && q != p && n != p
    ensures b.Node? ==> b.x in h2.m && b.x != q && b.x != p && b.x != n
    ensures Kid(h2.m[p], Other(s)) == q && Kid(h2.m[p], s) == Head(t) && Head(t) != q
  {
    ReadyFrom(h0, s, In(Other(s), p, pc, t, up), a, n, Red, b, q, Black, u);
    HeadIn(t); HeadIn(b);
  }

  lemma {:induction false} NephewReady(h: Shot, i: Shot, s: Side, p: RbNode, pc: Color, up: Ctx, a: Tree, n: RbNode,
          b: Tree, q: RbNode, u: Tree, t: Tree)
    requires RepTree(i, Plug(In(Other(s), p, pc, t, up), Lifted(s, a, n, Black, b, q, Black, u)))
    requires Sep(In(Other(s), p, pc, t, up), a, n, b, q, u)
    requires h.top == i.top && SameOff(i, h, n, q, null, null)
    requires n in h.m && n in i.m && h.m[n].left == i.m[n].left && h.m[n].right == i.m[n].right
    requires q in h.m && q in i.m && h.m[q].left == i.m[q].left && h.m[q].right == i.m[q].right
    ensures Ready(h, Other(s), up, Mk(s, b, q, Black, u), n, a, p, t) && Rep(h, a, n) && h.m[p].color == pc
  {
    var km := In(Other(s), p, pc, t, up);
    PlugRep(i, km, Lifted(s, a, n, Black, b, q, Black, u));
    assert Rep(i, Mk(s, b, q, Black, u), n);
    assert Rep(i, a, n) && Rep(i, b, q) && Rep(i, u, q) && Rep(i, t, p) && RepK(i, up, p);
    OffSame(i, h, n, q, null, null, Nodes(a)); OffSame(i, h, n, q, null, null, Nodes(b));
    OffSame(i, h, n, q, null, null, Nodes(u)); OffSame(i, h, n, q, null, null, Nodes(t));
    OffSame(i, h, n, q, null, null, KNodes(up));
    RepFrame(i, h, a, n); RepFrame(i, h, b, q); RepFrame(i, h, u, q); RepFrame(i, h, t, p); RepKFrame(i, h, up, p);
    RepIsAny(h, a, n);
  }

  lemma {:induction false} NephewDone(h0: Shot, h1: Shot, h2: Shot, h3: Shot, h4: Shot, s: Side, p: RbNode, pc: Color,
          up: Ctx, a: Tree, n: RbNode, b: Tree, q: RbNode, u: Tree, t: Tree)
    requires NephewRun(h0, h1, h2, h3, h4, s, p, n, b, q) && Blk(b)
    requires RepTree(h0, Plug(In(Other(s), p, pc, t, up), Lower(s, a, n, Red, b, q, Black, u)))
    requires Sep(In(Other(s), p, pc, t, up), a, n, b, q, u)
    requires h0.m.Keys == Nodes(Plug(In(Other(s), p, pc, t, up), Lower(s, a, n, Red, b, q, Black, u)))
    ensures Loopless(h1) && Loopless(h2) && Loopless(h3)
    ensures Ready(h4, Other(s), up, Mk(s, b, q, Black, u), n, a, p, t) && Rep(h4, a, n) && h4.m[p].color == pc
  {
    hide Rep, RepTree, RepAny, RepK, Sep, Plug, Nodes, KNodes, Loopless, Ready, Lower, Lifted, SameOff, NephewIdeal;
    var km := In(Other(s), p, pc, t, up);
    NephewLoopless(h0, h1, h2, h3, h4, s, p, pc, up, a, n, b, q, u, t);
    NephewLinks(h0, h1, h2, h3, h4, s, p, pc, up, a, n, b, q, u, t);
    NephewStale(h2, h3, h4, s, p, n, b, q);
    NephewKids(h2, h3, s, p, n, b, q);
    var i := NephewIdeal(h2, n, b, q);
    NephewReady(h4, i, s, p, pc, up, a, n, b, q, u, t);
    SepLifted(s, km, a, n, Black, b, q, Black, u);
    PatchLoopless0(h3, i, Plug(km, Lifted(s, a, n, Black, b, q, Black, u)));
  }

  lemma {:induction false} PatchLoopless0(h: Shot, g: Shot, t: Tree)
    requires RepTree(g, t) && Apart(t) && h.m.Keys == g.m.Keys == Nodes(t) && SameKids(h, g, null, null)
    ensures Loopless(h)
  {
    NearLoopless(h, g, t, null, null);
  }

  /** The stores of Case 3, up to the callback. */
  method LiftNephewLinks(root: RbRoot, parent: RbNode, sibling: RbNode, tmp2: RbNode, s: Side, ghost up: Ctx,
          ghost pc: Color, ghost a: Tree, ghost b: Tree, ghost u: Tree, ghost t: Tree)
    requires RepTree(root.Now(), Plug(In(Other(s), parent, pc, t, up), Lower(s, a, tmp2, Red, b, sibling, Black, u)))
    requires Sep(In(Other(s), parent, pc, t, up), a, tmp2, b, sibling, u) && Blk(b)
    requires root.pool == Nodes(Plug(In(Other(s), parent, pc, t, up), Lower(s, a, tmp2, Red, b, sibling, Black, u)))
    requires AllLoopless(root.log)
    modifies root, root.pool
    ensures root.Kept() && Grows(old(root.log), root.log, root.pool)
    ensures Ready(root.Now(), Other(s), up, Mk(s, b, sibling, Black, u), tmp2, a, parent, t)
    ensures Rep(root.Now(), a, tmp2) && parent in root.pool && parent.color == pc
    ensures root.Now().aug == old(root.Now().aug)
  {
    hide Rep, RepK, RepAny, RepTree, Sep, Ready, Nodes, KNodes, Plug, Loopless, AllLoopless, Grows, Lower, Lifted;
    ghost var h0 := root.Now();
    NephewIn(h0, s, parent, pc, up, a, tmp2, b, sibling, u, t);
    var tmp1 := ChildOf(tmp2, Other(s));
    root.StoreKid(sibling, s, tmp1);
    ghost var h1 := root.Now();
    root.StoreKid(tmp2, Other(s), sibling);
    ghost var h2 := root.Now();
    root.StoreKid(parent, Other(s), tmp2);
    ghost var h3 := root.Now();
    if tmp1 != null {
      root.SetParentColor(tmp1, sibling, Black);
    }
    ghost var h4 := root.Now();
    NephewDone(h0, h1, h2, h3, h4, s, parent, pc, up, a, tmp2, b, sibling, u, t);
    LogGrows(old(root.log), h1, h2, h3, root.log, root.pool);
  }

  lemma {:induction false} NephewIn(h: Shot, s: Side, p: RbNode, pc: Color, up: Ctx, a: Tree, n: RbNode, b: Tree,
          q: RbNode, u: Tree, t: Tree)
    requires RepTree(h, Plug(In(Other(s), p, pc, t, up), Lower(s, a, n, Red, b, q, Black, u)))
    ensures p in h.m && n in h.m && q in h.m && Kid(h.m[n], Other(s)) == Head(b) && (b.Node? ==> b.x in h.m)
  {
    ReadyFrom(h, s, In(Other(s), p, pc, t, up), a, n, Red, b, q, Black, u);
  }

  lemma {:induction false} NephewAug(h: Shot, augment: Option<Compute>, s: Side, k: Ctx, a: Tree, n: RbNode, b: Tree,
          q: RbNode, u: Tree)
    requires Sep(k, a, n, b, q, u) && q in h.m && q in h.aug
    requires Kid(h.m[q], s) == Head(b) && Kid(h.m[q], Other(s)) == Head(u)
    requires AugRep(h, Plug(k, Lower(s, a, n, Red, b, q, Black, u)), augment)
    ensures AugRep(PutAugRotated(h, q, n, augment), Plug(k, Lifted(s, a, n, Red, b, q, Black, u)), augment)
  {
    hide Sep, Plug, AugOk, Associative, Lower, Lifted;
    if augment.Some? { RotateAug(h, augment.value, s, k, a, n, Red, Red, b, q, Black, Black, u); }
  }

  lemma {:induction false} ReadyKids(h: Shot, s: Side, k: Ctx, near: Tree, x: RbNode, c: Color, far: Tree, n: RbNode,
          b: Tree, o: RbNode, u: Tree, z: Side)
    requires Ready(h, s, k, Mk(z, near, x, c, far), n, b, o, u)
    ensures x in h.m && Kid(h.m[x], z) == Head(near) && Kid(h.m[x], Other(z)) == Head(far)
    ensures near.Node? ==> near.x in h.m
    ensures far.Node? ==> far.x in h.m
  {
    assert RepAny(h, Mk(z, near, x, c, far));
  }

  lemma {:induction false} ReadyLinks2(g: Shot, h: Shot, s: Side, k: Ctx, a: Tree, n: RbNode, b: Tree, o: RbNode,
          u: Tree)
    requires Ready(g, s, k, a, n, b, o, u) && Rep(g, b, n) && g.top == h.top && g.m == h.m
    ensures Ready(h, s, k, a, n, b, o, u) && Rep(h, b, n)
  {
    RepAnyFrame(g, h, a); RepFrame(g, h, b, n); RepFrame(g, h, u, o); RepKFrame(g, h, k, o);
    RepIsAny(h, b, n);
  }

  /** Case 3: rotate at sibling, so that the near nephew tmp2 becomes the sibling. */
  method LiftNephew(root: RbRoot, parent: RbNode, sibling: RbNode, tmp2: RbNode, s: Side, augment: Option<Compute>,
          ghost up: Ctx, ghost pc: Color, ghost a: Tree, ghost b: Tree, ghost u: Tree, ghost t: Tree)
    requires RepTree(root.Now(), Plug(In(Other(s), parent, pc, t, up), Lower(s, a, tmp2, Red, b, sibling, Black, u)))
    requires Sep(In(Other(s), parent, pc, t, up), a, tmp2, b, sibling, u) && Blk(b)
    requires root.pool == Nodes(Plug(In(Other(s), parent, pc, t, up), Lower(s, a, tmp2, Red, b, sibling, Black, u)))
    requires AllLoopless(root.log)
    requires AugRep(root.Now(), Plug(In(Other(s), parent, pc, t, up), Lower(s, a, tmp2, Red, b, sibling, Black, u)),
        augment)
    modifies root, root.pool
    ensures root.Kept() && Grows(old(root.log), root.log, root.pool)
    ensures Ready(root.Now(), Other(s), up, Mk(s, b, sibling, Black, u), tmp2, a, parent, t)
    ensures Rep(root.Now(), a, tmp2) && parent in root.pool && parent.color == pc
    ensures AugRep(root.Now(), Plug(In(Other(s), parent, pc, t, up), Lifted(s, a, tmp2, Red, b, sibling, Black, u)),
        augment)
  {
    hide Rep, RepK, RepAny, RepTree, Sep, Ready, Nodes, KNodes, Plug, Loopless, AllLoopless, Grows, Lower, Lifted,
      AugRep;
    ghost var km := In(Other(s), parent, pc, t, up);
    ghost var h0 := root.Now();
    LiftNephewLinks(root, parent, sibling, tmp2, s, up, pc, a, b, u, t);
    ghost var h4 := root.Now();
    ReadyKids(h4, Other(s), up, b, sibling, Black, u, tmp2, a, parent, t, s);
    ReadyIn(h4, Other(s), up, Mk(s, b, sibling, Black, u), tmp2, a, parent, t);
    AugRotate(root, sibling, tmp2, augment);
    AugRepMaps(h0, h4, Plug(km, Lower(s, a, tmp2, Red, b, sibling, Black, u)), augment);
    NephewAug(h4, augment, s, km, a, tmp2, b, sibling, u);
    ReadyLinks2(h4, root.Now(), Other(s), up, Mk(s, b, sibling, Black, u), tmp2, a, parent, t);
  }

  // ---- the loop ----

  lemma {:induction false} SibIs(k: Ctx)
    requires k.In? && k.far.Node?
    ensures k == Sib(k.s, k.x, k.c, Near(k.far, Other(k.s)), k.far.x, k.far.c, Near(k.far, k.s), k.up)
  {}

  /** The deficit seen from the parent: what Ready, Sep and the colours say. */
  lemma {:induction false} DeficitView(h: Shot, k: Ctx, t: Tree, bh: nat, pool: set<RbNode>, augment: Option<Compute>,
          a: Tree, b: Tree)
    requires Deficit(h, k, t, bh, pool, augment) && k.far.Node?
    requires a == Near(k.far, Other(k.s)) && b == Near(k.far, k.s)
    ensures Plug(k, t) == Plug(k.up, Lower(Other(k.s), a, k.far.x, k.far.c, b, k.x, k.c, t))
    ensures Sep(k.up, a, k.far.x, b, k.x, t)
    ensures Ready(h, Other(k.s), k.up, a, k.far.x, b, k.x, t) && Rep(h, a, k.far.x) && Rep(h, b, k.far.x)
    ensures h.m[k.x].color == k.c
  {
    hide RepTree, Rep, Apart, Nodes, IsRB, Ready, Sep, AugRep;
    SibIs(k);
    SibView(k.s, k.x, k.c, a, k.far.x, k.far.c, b, k.up, t);
    SepLower(Other(k.s), k.up, a, k.far.x, k.far.c, b, k.x, k.c, t);
    ReadyFrom(h, Other(k.s), k.up, a, k.far.x, k.far.c, b, k.x, k.c, t);
  }

  /** Case 1, as it moves the deficit one level down under a red parent. */
  lemma {:induction false} RedSiblingView(h: Shot, k: Ctx, t: Tree, bh: nat, pool: set<RbNode>,
          augment: Option<Compute>, a: Tree, b: Tree)
    requires Deficit(h, k, t, bh, pool, augment) && k.far.Node? && k.far.c.Red?
    requires a == Near(k.far, Other(k.s)) && b == Near(k.far, k.s)
    ensures k.c.Black? && b.Node? && b.c.Black?
    ensures var k1 := In(k.s, k.x, Red, b, In(k.s, k.far.x, Black, a, k.up));
      && RBK(k1, bh + 1)
      && Plug(k1, t) == Plug(k.up, Lifted(Other(k.s), a, k.far.x, Black, b, k.x, Red, t))
      && Apart(Plug(k1, t)) && Nodes(Plug(k1, t)) == Nodes(Plug(k, t)) && Inorder(Plug(k1, t)) == Inorder(Plug(k, t))
  {
    hide RepTree, Rep, Apart, Nodes, Inorder, Sep, AugRep;
    SibIs(k);
    SibView(k.s, k.x, k.c, a, k.far.x, k.far.c, b, k.up, t);
    RedSiblingRB(k.s, k.x, k.c, a, k.far.x, b, k.up, t, bh);
    SepLower(Other(k.s), k.up, a, k.far.x, k.far.c, b, k.x, k.c, t);
    SepLifted(Other(k.s), k.up, a, k.far.x, Black, b, k.x, Red, t);
    RotateOrder(Other(k.s), k.up, a, k.far.x, Red, Black, b, k.x, Black, Red, t);
  }

  method RedSibling(root: RbRoot, parent: RbNode, sibling: RbNode, s: Side, augment: Option<Compute>, ghost k: Ctx,
          ghost t: Tree, ghost bh: nat)
    returns (tmp1: RbNode, ghost k1: Ctx)
    requires Deficit(root.Now(), k, t, bh, root.pool, augment) && AllLoopless(root.log)
    requires k.s == s && k.x == parent && k.far.Node? && k.far.x == sibling && k.far.c.Red?
    modifies root, root.pool
    ensures root.Kept() && Grows(old(root.log), root.log, root.pool)
    ensures Deficit(root.Now(), k1, t, bh, root.pool, augment) && Inorder(Plug(k1, t)) == Inorder(Plug(k, t))
    ensures k1.s == s && k1.x == parent && k1.c.Red? && k1.far.Node? && k1.far.x == tmp1 && k1.far.c.Black?
  {
    hide RepTree, Rep, RepK, Apart, ApartK, Nodes, KNodes, Inorder, Ready, Sep, AugRep, Lower, Lifted, AllLoopless,
      Grows, Plug, RB, RBK;
    ghost var a, b := Near(k.far, Other(s)), Near(k.far, s);
    DeficitReads(root.Now(), k, t);
    DeficitView(root.Now(), k, t, bh, root.pool, augment, a, b);
    RedSiblingView(root.Now(), k, t, bh, root.pool, augment, a, b);
    tmp1 := ChildOf(sibling, s);
    LiftParent(root, parent, sibling, tmp1, Other(s), augment, k.up, a, b, t);
    k1 := In(s, parent, Red, b, In(s, sibling, Black, a, k.up));
  }

  /** The subtree at the parent after Case 2. */
  function FlippedSib(k: Ctx, t: Tree): Tree
    requires k.In? && k.far.Node?
  {
    Mk(k.s, t, k.x, Black, k.far.(c := Red))
  }

  lemma {:induction false} FlipSiblingView(g: Shot, h: Shot, k: Ctx, t: Tree, bh: nat, pool: set<RbNode>,
          augment: Option<Compute>)
    requires Deficit(g, k, t, bh, pool, augment) && k.far.Node? && k.far.c.Black? && Blk(k.far.l) && Blk(k.far.r)
    requires k.x in g.m && k.far.x in g.m && k.x in h.m && k.far.x in h.m && h.top == g.top && h.aug == g.aug
    requires SameOff(g, h, k.x, k.far.x, null, null)
    requires h.m[k.far.x] == g.m[k.far.x].(parent := k.x, color := Red) && h.m[k.x] == g.m[k.x].(color := Black)
    ensures k.c.Black? && k.up.In? ==> Deficit(h, k.up, FlippedSib(k, t), bh + 1, pool, augment)
    ensures k.c.Red? || k.up.Top? ==> Settled(h, Plug(k.up, FlippedSib(k, t)), pool, augment)
    ensures Inorder(Plug(k.up, FlippedSib(k, t))) == Inorder(Plug(k, t))
  {
    hide RepTree, Rep, RepK, Apart, ApartK, Nodes, KNodes, Inorder, AugRep, SameOff, Plug;
    var a, b := Near(k.far, Other(k.s)), Near(k.far, k.s);
    SibIs(k);
    assert FlippedSib(k, t) == Mk(k.s, t, k.x, Black, Mk(Other(k.s), a, k.far.x, Red, b));
    FlipSiblingRB(k.s, k.x, k.c, a, k.far.x, b, k.up, t, bh);
    FlipSiblingRep(g, h, k.s, k.x, k.c, a, k.far.x, b, k.up, t);
    FlipSiblingOrder(k.s, k.x, k.c, a, k.far.x, b, k.up, t);
    AugRepMaps(g, h, Plug(k, t), augment);
    FlipSiblingAug(h, augment, k.s, k.x, k.c, a, k.far.x, b, k.up, t);
  }

  /** Case 2, up to the decision where to go on. */
  method FlipSibling(root: RbRoot, parent: RbNode, sibling: RbNode, augment: Option<Compute>, ghost k: Ctx,
          ghost t: Tree, ghost bh: nat)
    returns (up: bool)
    requires Deficit(root.Now(), k, t, bh, root.pool, augment) && AllLoopless(root.log)
    requires k.x == parent && k.far.Node? && k.far.x == sibling && k.far.c.Black? && Blk(k.far.l) && Blk(k.far.r)
    modifies root, root.pool
    ensures root.Kept() && root.log == old(root.log) && parent in root.pool && parent.parent == Up(k.up)
    ensures up <==> k.c.Black? && k.up.In?
    ensures up ==> Deficit(root.Now(), k.up, FlippedSib(k, t), bh + 1, root.pool, augment)
    ensures !up ==> Settled(root.Now(), Plug(k.up, FlippedSib(k, t)), root.pool, augment)
    ensures Inorder(Plug(k.up, FlippedSib(k, t))) == Inorder(Plug(k, t))
  {
    hide RepTree, Rep, RepK, Apart, ApartK, Nodes, KNodes, Inorder, AugRep, Plug, RB, RBK, IsRB;
    ghost var g := root.Now();
    DeficitReads(g, k, t);
    root.SetParentColor(sibling, parent, Red);
    if parent.color.Red? {
      root.SetBlack(parent);
      up := false;
    } else {
      up := parent.parent != null;
    }
    FlipSiblingView(g, root.Now(), k, t, bh, root.pool, augment);
  }

  /** Case 4 on its own: what the rotation at parent leaves is a red-black tree. */
  lemma {:induction false} FarView(k: Ctx, t: Tree, bh: nat, a: Tree, b: Tree)
    requires k.In? && k.far.Node? && k.far.c.Black? && RBK(k, bh + 1) && RB(t, bh)
    requires a == Near(k.far, Other(k.s)) && b == Near(k.far, k.s) && a.Node? && a.c.Red? && Apart(Plug(k, t))
    ensures var t' := Plug(k.up, Lifted(Other(k.s), Paint(a, Black), k.far.x, k.c, b, k.x, Black, t));
      IsRB(t') && Apart(t') && Nodes(t') == Nodes(Plug(k, t)) && Inorder(t') == Inorder(Plug(k, t))
  {
    assert RB(k.far, bh + 1);
    assert RB(a, bh) && RB(b, bh);
    assert RB(Paint(a, Black), bh + 1);
    SibIs(k);
    SibView(k.s, k.x, k.c, a, k.far.x, Black, b, k.up, t);
    LiftSiblingRB(k.s, k.x, k.c, a, k.far.x, b, k.up, t, bh);
    PaintOrder(Other(k.s), k.up, a, k.far.x, Black, k.c, b, k.x, k.c, Black, t);
  }

  method FarNephew(root: RbRoot, parent: RbNode, sibling: RbNode, tmp1: RbNode, s: Side, augment: Option<Compute>,
          ghost k: Ctx, ghost t: Tree, ghost bh: nat) returns (ghost t': Tree)
    requires Deficit(root.Now(), k, t, bh, root.pool, augment) && AllLoopless(root.log)
    requires k.s == s && k.x == parent && k.far.Node? && k.far.x == sibling && k.far.c.Black?
    requires Near(k.far, Other(s)).Node? && Near(k.far, Other(s)).c.Red? && tmp1 == Near(k.far, Other(s)).x
    modifies root, root.pool
    ensures root.Kept() && Grows(old(root.log), root.log, root.pool)
    ensures Settled(root.Now(), t', root.pool, augment) && Inorder(t') == Inorder(Plug(k, t))
  {
    hide RepTree, Rep, RepK, Apart, ApartK, Nodes, KNodes, Inorder, Ready, Sep, AugRep, Lower, Lifted, AllLoopless,
      Grows, Plug, RB, RBK, IsRB;
    ghost var a, b := Near(k.far, Other(s)), Near(k.far, s);
    DeficitReads(root.Now(), k, t);
    DeficitView(root.Now(), k, t, bh, root.pool, augment, a, b);
    FarView(k, t, bh, a, b);
    LiftSibling(root, parent, sibling, tmp1, s, augment, k.up, a, b, Black, k.c, t);
    t' := Plug(k.up, Lifted(Other(s), Paint(a, Black), sibling, k.c, b, parent, Black, t));
  }

  /** Cases 3 and 4 together, on the tree: the near nephew b = (a', n, b') ends up on top. */
  lemma {:induction false} NearView(h: Shot, k: Ctx, t: Tree, bh: nat, pool: set<RbNode>, augment: Option<Compute>,
          a: Tree, a': Tree, n: RbNode, b': Tree)
    requires Deficit(h, k, t, bh, pool, augment) && k.far.Node? && k.far.c.Black?
    requires a == Near(k.far, Other(k.s)) && Blk(a) && Near(k.far, k.s) == Mk(k.s, a', n, Red, b')
    ensures Blk(b')
    ensures var s, q, km, A := k.s, k.far.x, In(Other(k.s), k.x, k.c, t, k.up), Mk(k.s, b', k.far.x, Black, a);
      && Plug(k, t) == Plug(km, Lower(s, a', n, Red, b', q, Black, a)) && Sep(km, a', n, b', q, a)
      && Plug(km, Lifted(s, a', n, Red, b', q, Black, a)) == Plug(k.up, Lower(Other(s), A, n, Red, a', k.x, k.c, t))
      && Sep(k.up, A, n, a', k.x, t)
      && Nodes(Plug(k.up, Lower(Other(s), A, n, Red, a', k.x, k.c, t))) == Nodes(Plug(k, t))
      && var t' := Plug(k.up, Lifted(Other(s), Paint(A, Black), n, k.c, a', k.x, Black, t));
         IsRB(t') && Apart(t') && Nodes(t') == Nodes(Plug(k, t)) && Inorder(t') == Inorder(Plug(k, t))
  {
    hide RepTree, Rep, Apart, Nodes, Inorder, Sep, AugRep;
    var s, q, km, A := k.s, k.far.x, In(Other(k.s), k.x, k.c, t, k.up), Mk(k.s, b', k.far.x, Black, a);
    NearRB(k, t, bh, a, a', n, b');
    NearPlug(k, t, a, a', n, b');
    SepLower(s, km, a', n, Red, b', q, Black, a);
    SepLifted(s, km, a', n, Red, b', q, Black, a);
    RotateOrder(s, km, a', n, Red, Red, b', q, Black, Black, a);
    SepLower(Other(s), k.up, A, n, Red, a', k.x, k.c, t);
    PaintOrder(Other(s), k.up, A, n, Red, k.c, a', k.x, k.c, Black, t);
    LiftSiblingRB(s, k.x, k.c, A, n, a', k.up, t, bh);
  }

  lemma {:induction false} NearPlug(k: Ctx, t: Tree, a: Tree, a': Tree, n: RbNode, b': Tree)
    requires k.In? && k.far.Node? && k.far.c.Black?
    requires a == Near(k.far, Other(k.s)) && Near(k.far, k.s) == Mk(k.s, a', n, Red, b')
    ensures var s, q, km, A := k.s, k.far.x, In(Other(k.s), k.x, k.c, t, k.up), Mk(k.s, b', k.far.x, Black, a);
      && Plug(k, t) == Plug(km, Lower(s, a', n, Red, b', q, Black, a))
      && Plug(km, Lifted(s, a', n, Red, b', q, Black, a)) == Plug(k.up, Lower(Other(s), A, n, Red, a', k.x, k.c, t))
  {}

  lemma {:induction false} NearRB(k: Ctx, t: Tree, bh: nat, a: Tree, a': Tree, n: RbNode, b': Tree)
    requires k.In? && RBK(k, bh + 1) && k.far.Node? && k.far.c.Black?
    requires a == Near(k.far, Other(k.s)) && Blk(a) && Near(k.far, k.s) == Mk(k.s, a', n, Red, b')
    ensures Blk(a') && Blk(b') && RB(a', bh) && RB(Paint(Mk(k.s, b', k.far.x, Black, a), Black), bh + 1)
    ensures RBK(k.up, Rise(bh + 1, k.c)) && (k.c == Red ==> k.up.In? && k.up.c.Black?)
  {
    assert RB(k.far, bh + 1);
    assert RB(a, bh) && RB(Mk(k.s, a', n, Red, b'), bh);
    assert RB(a', bh) && RB(b', bh);
  }

  method NearNephew(root: RbRoot, parent: RbNode, sibling: RbNode, tmp2: RbNode, s: Side, augment: Option<Compute>,
          ghost k: Ctx, ghost t: Tree, ghost bh: nat) returns (ghost t': Tree)
    requires Deficit(root.Now(), k, t, bh, root.pool, augment) && AllLoopless(root.log)
    requires k.s == s && k.x == parent && k.far.Node? && k.far.x == sibling && k.far.c.Black?
      && Blk(Near(k.far, Other(s)))
    requires Near(k.far, s).Node? && Near(k.far, s).c.Red? && tmp2 == Near(k.far, s).x
    modifies root, root.pool
    ensures root.Kept() && Grows(old(root.log), root.log, root.pool)
    ensures Settled(root.Now(), t', root.pool, augment) && Inorder(t') == Inorder(Plug(k, t))
  {
    hide RepTree, Rep, RepK, RepAny, Apart, ApartK, Nodes, KNodes, Inorder, Ready, Sep, AugRep, Lower, Lifted,
      AllLoopless, Grows, Plug, RB, RBK, IsRB;
    ghost var a, b := Near(k.far, Other(s)), Near(k.far, s);
    ghost var a', b' := Near(b, s), Near(b, Other(s));
    ghost var A := Mk(s, b', sibling, Black, a);
    NearView(root.Now(), k, t, bh, root.pool, augment, a, a', tmp2, b');
    LiftNephew(root, parent, sibling, tmp2, s, augment, k.up, k.c, a', b', a, t);
    ghost var mid := root.log;
    GrowsMeans(old(root.log), mid, root.pool);
    // tmp1 = sibling, sibling = tmp2, and on to Case 4
    LiftSibling(root, parent, tmp2, sibling, s, augment, k.up, A, a', Red, k.c, t);
    GrowsOn(old(root.log), mid, root.log, root.pool);
    t' := Plug(k.up, Lifted(Other(s), Paint(A, Black), tmp2, k.c, a', parent, Black, t));
  }

  /** The loop body once the sibling is black: Cases 2, 3 and 4. */
  method BlackSibling(root: RbRoot, parent: RbNode, sibling: RbNode, s: Side, augment: Option<Compute>, ghost k: Ctx,
          ghost t: Tree, ghost bh: nat)
    returns (up: bool, ghost k': Ctx, ghost t': Tree)
    requires Deficit(root.Now(), k, t, bh, root.pool, augment) && AllLoopless(root.log)
    requires k.s == s && k.x == parent && k.far.Node? && k.far.x == sibling && k.far.c.Black?
    modifies root, root.pool
    ensures root.Kept() && Grows(old(root.log), root.log, root.pool)
    ensures Inorder(Plug(k', t')) == Inorder(Plug(k, t))
    ensures up ==> Deficit(root.Now(), k', t', bh + 1, root.pool, augment) && k' == k.up && k.c.Black?
    ensures up ==> parent in root.pool && parent.parent == Up(k') && Head(t') == parent
    ensures !up ==> Settled(root.Now(), Plug(k', t'), root.pool, augment)
  {
    hide RepTree, Rep, RepK, Apart, ApartK, Nodes, KNodes, Inorder, Ready, Sep, AugRep, AllLoopless, Grows, Plug, RB,
      RBK, IsRB, RbRoot.Now, Settled;
    DeficitReads(root.Now(), k, t);
    root.Reads(); root.ReadsAt(parent); root.ReadsAt(sibling);
    var tmp1 := ChildOf(sibling, Other(s));
    if tmp1 != null { root.ReadsAt(tmp1); }
    if tmp1 == null || tmp1.color.Black? {
      var tmp2 := ChildOf(sibling, s);
      if tmp2 != null { root.ReadsAt(tmp2); }
      if tmp2 == null || tmp2.color.Black? {
        up := FlipSibling(root, parent, sibling, augment, k, t, bh);
        GrowsNot(root.log, root.pool);
        return up, k.up, FlippedSib(k, t);
      }
      ghost var T := NearNephew(root, parent, sibling, tmp2, s, augment, k, t, bh);
      PlugTop(T);
      return false, Top, T;
    }
    ghost var T := FarNephew(root, parent, sibling, tmp1, s, augment, k, t, bh);
    PlugTop(T);
    return false, Top, T;
  }

  /** One side of the loop body: the short subtree is parent's child on side s. */
  method EraseStep(root: RbRoot, parent: RbNode, s: Side, augment: Option<Compute>, ghost k0: Ctx, ghost t: Tree,
          ghost bh: nat)
    returns (up: bool, ghost k': Ctx, ghost t': Tree)
    requires Deficit(root.Now(), k0, t, bh, root.pool, augment) && AllLoopless(root.log)
    requires k0.s == s && k0.x == parent
    modifies root, root.pool
    ensures root.Kept() && Grows(old(root.log), root.log, root.pool)
    ensures Inorder(Plug(k', t')) == Inorder(Plug(k0, t))
    ensures up ==> Deficit(root.Now(), k', t', bh + 1, root.pool, augment) && Depth(k') < Depth(k0)
    ensures up ==> parent in root.pool && parent.parent == Up(k') && Head(t') == parent
    ensures !up ==> Settled(root.Now(), Plug(k', t'), root.pool, augment)
  {
    hide RepTree, Rep, RepK, Apart, ApartK, Nodes, KNodes, Inorder, Ready, Sep, AugRep, AllLoopless, Grows, Plug, RB,
      RBK, IsRB, RbRoot.Now, Settled;
    ghost var k := k0;
    SiblingThere(k, bh);
    DeficitReads(root.Now(), k, t);
    root.Reads(); root.ReadsAt(parent);
    var sibling := ChildOf(parent, Other(s));
    root.ReadsAt(sibling);
    GrowsNot(root.log, root.pool);
    if sibling.color.Red? {
      sibling, k := RedSibling(root, parent, sibling, s, augment, k, t, bh);
    }
    ghost var mid := root.log;
    GrowsMeans(old(root.log), mid, root.pool);
    up, k', t' := BlackSibling(root, parent, sibling, s, augment, k, t, bh);
    GrowsOn(old(root.log), mid, root.log, root.pool);
  }

  lemma {:induction false} PlugTop(t: Tree)
    ensures Plug(Top, t) == t
  {}

  /** ____rb_erase_color: node, the head of the short subtree, is NULL at first; parent is the node above it. */
  method EraseColor(root: RbRoot, parent0: RbNode, augment: Option<Compute>, ghost k0: Ctx, ghost bh0: nat)
    returns (ghost T: Tree)
    requires Deficit(root.Now(), k0, Leaf, bh0, root.pool, augment) && AllLoopless(root.log) && k0.x == parent0
    modifies root, root.pool
    ensures Settled(root.Now(), T, root.pool, augment) && Inorder(T) == Inorder(Plug(k0, Leaf))
    ensures root.Kept() && Grows(old(root.log), root.log, root.pool)
  {
    hide RepTree, Rep, RepK, Apart, ApartK, Nodes, KNodes, Inorder, Sep, AugRep, AllLoopless, Grows, Plug, RB, RBK,
      IsRB, Settled;
    var node: RbNode?, parent := null, parent0;
    ghost var k, t, bh := k0, Leaf, bh0;
    GrowsNot(root.log, root.pool);
    while true
      invariant Deficit(root.Now(), k, t, bh, root.pool, augment) && k.x == parent && Head(t) == node
      invariant Grows(old(root.log), root.log, root.pool) && root.Kept()
      invariant Inorder(Plug(k, t)) == Inorder(Plug(k0, Leaf))
      decreases Depth(k)
    {
      SiblingThere(k, bh);
      DeficitReads(root.Now(), k, t);
      ghost var mid := root.log;
      GrowsMeans(old(root.log), mid, root.pool);
      var sibling := parent.right;
      var up;
      if node != sibling {  // node == parent->rb_left
        up, k, t := EraseStep(root, parent, L, augment, k, t, bh);
      } else {
        up, k, t := EraseStep(root, parent, R, augment, k, t, bh);
      }
      GrowsOn(old(root.log), mid, root.log, root.pool);
      if !up {
        return Plug(k, t);
      }
      node := parent;
      parent := parent.parent;
      bh := bh + 1;
    }
  }
}
