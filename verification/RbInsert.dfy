/** rb_link_node and __rb_insert (rbtree.c:103-243, rbtree.h:107-114). */
module RbInsert {
  import opened RbModel
  import opened RbHeap
  import opened RbRotate

  // ---- reading a represented tree ----

  lemma {:induction false} ReadyFrom(h: Shot, s: Side, k: Ctx, a: Tree, n: RbNode, nc: Color, b: Tree, o: RbNode,
          oc: Color, u: Tree)
    requires RepTree(h, Plug(k, Lower(s, a, n, nc, b, o, oc, u)))
    ensures Ready(h, s, k, a, n, b, o, u) && h.m[o].color == oc && h.m[n].color == nc && h.m[n].parent == o
    ensures Kid(h.m[o], s) == n && Rep(h, a, n) && Rep(h, b, n)
  {
    PlugRep(h, k, Lower(s, a, n, nc, b, o, oc, u));
    var i := Mk(s, a, n, nc, b);
    assert Rep(h, i, o);
    RepIsAny(h, a, n); RepIsAny(h, b, n);
  }

  // ---- colours, case by case ----

  /** Case 1: flipping the colours of parent, uncle and grandparent moves the red-red clash two levels up. */
  lemma {:induction false} FlipRB(k: Ctx, t: Tree, h: nat)
    requires RBK(k, h) && RB(t, h) && t.Node? && t.c.Red? && k.In? && k.c.Red? && k.up.far.Node? && k.up.far.c.Red?
    ensures k.up.In? && k.up.c.Black? && RBK(k.up.up, h + 1)
    ensures RB(Flipped(k, t), h + 1)
  {}

  /** The subtree at the grandparent after Case 1. */
  function Flipped(k: Ctx, t: Tree): Tree
    requires k.In? && k.up.In?
  {
    Mk(k.up.s, Mk(k.s, t, k.x, Black, k.far), k.up.x, Red, Paint(k.up.far, Black))
  }

  /** Case 3, reached directly: the outer grandchild is the red node. */
  lemma {:induction false} OuterRB(k: Ctx, t: Tree, h: nat)
    requires RBK(k, h) && RB(t, h) && t.Node? && t.c.Red? && k.In? && k.c.Red? && Blk(k.up.far) && k.s == k.up.s
    ensures k.up.In? && k.up.c.Black?
    ensures IsRB(Plug(k.up.up, Lifted(k.s, t, k.x, Black, k.far, k.up.x, Red, k.up.far)))
  {
    var t' := Lifted(k.s, t, k.x, Black, k.far, k.up.x, Red, k.up.far);
    assert RB(Mk(k.s, k.far, k.up.x, Red, k.up.far), h);
    PlugRB(k.up.up, t', h + 1);
  }

  /** Case 2 and then Case 3: the inner grandchild a'-n-b' is the red node and ends up on top. */
  lemma {:induction false} InnerRB(k: Ctx, a: Tree, n: RbNode, b: Tree, h: nat)
    requires RBK(k, h) && k.In? && k.c.Red? && Blk(k.up.far) && k.s == Other(k.up.s)
    requires RB(Mk(k.s, a, n, Red, b), h)
    ensures k.up.In? && k.up.c.Black?
    ensures IsRB(Plug(k.up.up, Lifted(k.up.s, Mk(k.s, b, k.x, Red, k.far), n, Black, a, k.up.x, Red, k.up.far)))
  {
    var p' := Mk(k.s, b, k.x, Red, k.far);
    var g' := Mk(k.up.s, a, k.up.x, Red, k.up.far);
    assert RB(p', h) && RB(g', h);
    PlugRB(k.up.up, Mk(k.up.s, p', n, Black, g'), h + 1);
  }

  // ---- memory, case by case ----

  /** The four link stores of Case 2 (rotate the inner grandchild n over p), before any store to g. */
  ghost predicate InnerRun(h0: Shot, h1: Shot, h2: Shot, h3: Shot, h4: Shot, s: Side, n: RbNode, b: Tree, p: RbNode) {
    && p in h0.m && h1 == PutKid(h0, p, Other(s), Head(b))
    && n in h1.m && h2 == PutKid(h1, n, s, p)
    && (b.Node? ==> b.x in h2.m) && h3 == PutIf(h2, Head(b), p, Black)
    && p in h3.m && h4 == PutParentColor(h3, p, n, Red)
  }

  /** Case 2 is a full rotation except that g still points at p and n's parent is stale. */
  lemma {:induction false} InnerIsRotation(h0: Shot, h1: Shot, h2: Shot, h3: Shot, h4: Shot, s: Side, k: Ctx, a: Tree,
          n: RbNode, b: Tree, p: RbNode, far: Tree, g: RbNode, u: Tree)
    requires InnerRun(h0, h1, h2, h3, h4, s, n, b, p) && Blk(b)
    requires RepTree(h0, Plug(In(s, g, Black, u, k), Lower(Other(s), a, n, Red, b, p, Red, far)))
    requires Sep(In(s, g, Black, u, k), a, n, b, p, far)
    ensures h3.m[p].parent == g && g in h3.m
    ensures RotationRun(h0, h1, h2, h3, PutRotated(h3, p, n, Red), Other(s), In(s, g, Black, u, k),
                        a, if a.Node? then a.c else Red, n, b, Black, p, Red, far)
    ensures h0.m[p].color == Red
  {
    ReadyFrom(h0, Other(s), In(s, g, Black, u, k), a, n, Red, b, p, Red, far);
    HeadIn(a); HeadIn(b);
  }

  lemma {:induction false} InnerLoopless(h0: Shot, h1: Shot, h2: Shot, h3: Shot, h4: Shot, s: Side, k: Ctx, a: Tree,
          n: RbNode, b: Tree, p: RbNode, far: Tree, g: RbNode, u: Tree)
    requires InnerRun(h0, h1, h2, h3, h4, s, n, b, p) && Blk(b)
    requires RepTree(h0, Plug(In(s, g, Black, u, k), Lower(Other(s), a, n, Red, b, p, Red, far)))
    requires Sep(In(s, g, Black, u, k), a, n, b, p, far)
    requires h0.m.Keys == Nodes(Plug(In(s, g, Black, u, k), Lower(Other(s), a, n, Red, b, p, Red, far)))
    ensures Loopless(h1) && Loopless(h2)
    ensures h3.m[p].parent == g && g in h3.m
    ensures RepTree(PutRotated(h3, p, n, Red), Plug(In(s, g, Black, u, k), Lifted(Other(s), a, n, Red, b, p, Red, far)))
  {
    var km, ca := In(s, g, Black, u, k), if a.Node? then a.c else Red;
    assert Paint(a, ca) == a && Paint(b, Black) == b && p in h3.m && n in h3.m;
    InnerIsRotation(h0, h1, h2, h3, h4, s, k, a, n, b, p, far, g, u);
    var h := PutRotated(h3, p, n, Red);
    RotationDone(h0, h1, h2, h3, h, Other(s), km, a, ca, n, b, Black, p, Red, far);
    RotateOrder(Other(s), km, a, n, Red, Red, b, p, Red, Red, far);
    RotationLoopless(h0, h1, h2, h3, h, Other(s), km, a, ca, n, b, Black, p, Red, far);
  }

  /** After Case 2, everything Case 3 looks at is in place. */
  lemma {:induction false} InnerReady(h: Shot, i: Shot, s: Side, k: Ctx, a: Tree, n: RbNode, b: Tree, p: RbNode,
          far: Tree, g: RbNode, u: Tree)
    requires RepTree(i, Plug(In(s, g, Black, u, k), Lifted(Other(s), a, n, Red, b, p, Red, far)))
    requires Sep(In(s, g, Black, u, k), a, n, b, p, far)
    requires h.top == i.top && SameOff(i, h, n, g, null, null)
    requires n in h.m && n in i.m && h.m[n].left == i.m[n].left && h.m[n].right == i.m[n].right
    requires g in h.m && g in i.m && h.m[g] == WithKid(i.m[g], s, p)
    ensures Ready(h, s, k, Mk(Other(s), b, p, Red, far), n, a, g, u)
    ensures Rep(h, Mk(Other(s), b, p, Red, far), n) && Rep(h, a, n) && h.m[g].color == Black
  {
    var p' := Mk(Other(s), b, p, Red, far);
    PlugRep(i, In(s, g, Black, u, k), Lifted(Other(s), a, n, Red, b, p, Red, far));
    MkApart(Other(s), b, p, Red, far);
    assert Rep(i, p', n) && Rep(i, a, n) && Rep(i, u, g) && RepK(i, k, g);
    OffSame(i, h, n, g, null, null, Nodes(p')); OffSame(i, h, n, g, null, null, Nodes(a));
    OffSame(i, h, n, g, null, null, Nodes(u)); OffSame(i, h, n, g, null, null, KNodes(k));
    RepFrame(i, h, p', n); RepFrame(i, h, a, n); RepFrame(i, h, u, g); RepKFrame(i, h, k, g);
    RepIsAny(h, p', n); RepIsAny(h, a, n);
  }

  /** The link stores of Case 3 (lift n over o). */
  ghost predicate OuterRun(h0: Shot, h1: Shot, h2: Shot, h3: Shot, h4: Shot, s: Side, n: RbNode, b: Tree, o: RbNode) {
    && o in h0.m && h1 == PutKid(h0, o, s, Head(b))
    && n in h1.m && h2 == PutKid(h1, n, Other(s), o)
    && (b.Node? ==> b.x in h2.m) && h3 == PutIf(h2, Head(b), o, Black)
    && o in h3.m && n in h3.m && (h3.m[o].parent != null ==> h3.m[o].parent in h3.m)
    && h4 == PutRotated(h3, o, n, Red)
  }

  function ColorOf(t: Tree): Color { if t.Node? then t.c else Red }

  lemma {:induction false} OuterIsRotation(h0: Shot, h1: Shot, h2: Shot, h3: Shot, h4: Shot, s: Side, k: Ctx, a: Tree,
          n: RbNode, b: Tree, o: RbNode, u: Tree)
    requires OuterRun(h0, h1, h2, h3, h4, s, n, b, o) && Blk(b)
    requires Ready(h0, s, k, a, n, b, o, u) && Rep(h0, a, n) && Sep(k, a, n, b, o, u)
    ensures RotationRun(h0, h1, h2, h3, h4, s, k, a, ColorOf(a), n, b, Black, o, Red, u)
  {
    HeadIn(a); HeadIn(b);
  }

  lemma {:induction false} OuterDone(h0: Shot, h1: Shot, h2: Shot, h3: Shot, h4: Shot, s: Side, k: Ctx, a: Tree,
          n: RbNode, b: Tree, o: RbNode, u: Tree)
    requires OuterRun(h0, h1, h2, h3, h4, s, n, b, o) && Blk(b)
    requires Ready(h0, s, k, a, n, b, o, u) && Rep(h0, a, n) && Sep(k, a, n, b, o, u) && h0.m[o].color == Black
    requires h0.m.Keys == Nodes(Plug(k, Lower(s, a, n, Red, b, o, Black, u)))
    ensures RepTree(h4, Plug(k, Lifted(s, a, n, Black, b, o, Red, u))) && h4.m.Keys == h0.m.Keys && h4.aug == h3.aug
    ensures Loopless(h1) && Loopless(h2) && Loopless(h4)
  {
    hide Rep, RepK, RepAny, RepTree, Sep, Ready, Nodes, KNodes, Plug, OuterRun, RotationRun, PutRotated, Loopless;
    OuterIsRotation(h0, h1, h2, h3, h4, s, k, a, n, b, o, u);
    assert Paint(a, ColorOf(a)) == a && Paint(b, Black) == b;
    RotationDone(h0, h1, h2, h3, h4, s, k, a, ColorOf(a), n, b, Black, o, Red, u);
    RotateOrder(s, k, a, n, Red, Black, b, o, Black, Red, u);
    RotationLoopless(h0, h1, h2, h3, h4, s, k, a, ColorOf(a), n, b, Black, o, Red, u);
  }

  // ---- the code ----

  /** rbname_rotate, or dummy_rotate. */
  method AugRotate(root: RbRoot, was: RbNode, now: RbNode, augment: Option<Compute>)
    requires was in root.pool && now in root.pool
    requires was.left != null ==> was.left in root.pool
    requires was.right != null ==> was.right in root.pool
    modifies root, root.pool
    ensures root.Kept() && root.Now() == old(PutAugRotated(root.Now(), was, now, augment)) && root.log == old(root.log)
  {
    hide RbRoot.Now;
    match augment
    case None =>
    case Some(f) =>
      root.Reads(); root.ReadsAt(was);
      root.SetAug(now, was.aug);
      ghost var h := root.Now();
      root.Reads(); root.ReadsAt(was);
      if was.left != null { root.ReadsAt(was.left); }
      if was.right != null { root.ReadsAt(was.right); }
      root.SetAug(was, f(if was.left == null then None else Some(was.left.aug), was.val,
                         if was.right == null then None else Some(was.right.aug)));
      assert root.Now() == PutAug(h, was, Computed(h, was, f));
  }

  /** Every node of the represented tree stores its fold, when there are callbacks. */
  ghost predicate AugRep(h: Shot, t: Tree, augment: Option<Compute>) {
    augment.Some? ==> Associative(augment.value) && AugOk(h, t, augment.value)
  }

  lemma {:induction false} ReadyIn(h: Shot, s: Side, k: Ctx, a: Tree, n: RbNode, b: Tree, o: RbNode, u: Tree)
    requires Ready(h, s, k, a, n, b, o, u)
    ensures n in h.m && o in h.m && h.m[o].parent == Up(k) && (k.In? ==> k.x in h.m)
    ensures b.Node? ==> b.x in h.m
    ensures u.Node? ==> u.x in h.m
  {}

  lemma {:induction false} LogGrows(log: seq<Shot>, h1: Shot, h2: Shot, h3: Shot, log': seq<Shot>, S: set<RbNode>)
    requires AllLoopless(log) && Loopless(h1) && Loopless(h2) && Loopless(h3)
    requires log' == log + [h1] + [h2] + [h3] && h1.m.Keys == h2.m.Keys == h3.m.Keys == S
    ensures Grows(log, log', S)
  {
    hide Loopless;
  }

  lemma {:induction false} OuterAug(h: Shot, augment: Option<Compute>, s: Side, k: Ctx, a: Tree, n: RbNode, b: Tree,
          o: RbNode, u: Tree)
    requires Sep(k, a, n, b, o, u) && o in h.m && o in h.aug
    requires Kid(h.m[o], s) == Head(b) && Kid(h.m[o], Other(s)) == Head(u)
    requires AugRep(h, Plug(k, Lower(s, a, n, Red, b, o, Black, u)), augment)
    ensures AugRep(PutAugRotated(h, o, n, augment), Plug(k, Lifted(s, a, n, Black, b, o, Red, u)), augment)
  {
    hide Sep, Plug, AugOk, Associative, Lower, Lifted;
    if augment.Some? { RotateAug(h, augment.value, s, k, a, n, Red, Black, b, o, Black, Red, u); }
  }

  /** Rep only looks at the links. */
  lemma {:induction false} RepTreeLinks(g: Shot, h: Shot, t: Tree)
    requires RepTree(g, t) && g.top == h.top && g.m == h.m
    ensures RepTree(h, t)
  {
    RepIn(g, t, null);
    RepFrame(g, h, t, null);
  }

  lemma {:induction false} LiftedKids(h: Shot, s: Side, k: Ctx, a: Tree, n: RbNode, nc: Color, b: Tree, o: RbNode,
          oc: Color, u: Tree)
    requires RepTree(h, Plug(k, Lifted(s, a, n, nc, b, o, oc, u)))
    ensures o in h.m && Kid(h.m[o], s) == Head(b) && Kid(h.m[o], Other(s)) == Head(u)
    ensures b.Node? ==> b.x in h.m
    ensures u.Node? ==> u.x in h.m
  {
    PlugRep(h, k, Lifted(s, a, n, nc, b, o, oc, u));
    assert Rep(h, Mk(s, b, o, oc, u), n);
    assert Rep(h, b, o) && Rep(h, u, o);
  }

  /** AugRep looks at the augmented values only. */
  lemma {:induction false} AugRepMaps(g: Shot, h: Shot, t: Tree, augment: Option<Compute>)
    requires AugRep(g, t, augment) && g.aug == h.aug
    ensures AugRep(h, t, augment)
  {
    if augment.Some? { AugFrame(g, h, t, augment.value); }
  }

  /** The stores of Case 3, up to the callback. */
  method LiftParentLinks(root: RbRoot, gparent: RbNode, parent: RbNode, tmp: RbNode?, s: Side, ghost k: Ctx,
          ghost a: Tree, ghost b: Tree, ghost u: Tree)
    requires Ready(root.Now(), s, k, a, parent, b, gparent, u) && Sep(k, a, parent, b, gparent, u)
    requires Rep(root.Now(), a, parent) && Blk(b) && tmp == Head(b) && gparent.color == Black
    requires root.pool == Nodes(Plug(k, Lower(s, a, parent, Red, b, gparent, Black, u)))
    requires AllLoopless(root.log)
    modifies root, root.pool
    ensures root.Kept() && Grows(old(root.log), root.log, root.pool)
    ensures RepTree(root.Now(), Plug(k, Lifted(s, a, parent, Black, b, gparent, Red, u)))
    ensures root.Now().aug == old(root.Now().aug)
  {
    hide Rep, RepK, RepAny, RepTree, Sep, Ready, Nodes, KNodes, Plug, PutRotated, Loopless, AllLoopless, Grows, Lower,
      Lifted;
    ghost var h0 := root.Now();
    ReadyIn(h0, s, k, a, parent, b, gparent, u);
    root.StoreKid(gparent, s, tmp);
    ghost var h1 := root.Now();
    root.StoreKid(parent, Other(s), gparent);
    ghost var h2 := root.Now();
    if tmp != null {
      root.SetParentColor(tmp, gparent, Black);
    }
    ghost var h3 := root.Now();
    root.RotateSetParents(gparent, parent, Red);
    ghost var h4 := root.Now();
    OuterDone(h0, h1, h2, h3, h4, s, k, a, parent, b, gparent, u);
    LogGrows(old(root.log), h1, h2, h4, root.log, root.pool);
  }

  /** Case 3: node's uncle is black and node is on the outer side; rotate at gparent. */
  method LiftParent(root: RbRoot, gparent: RbNode, parent: RbNode, tmp: RbNode?, s: Side, augment: Option<Compute>,
          ghost k: Ctx, ghost a: Tree, ghost b: Tree, ghost u: Tree)
    requires Ready(root.Now(), s, k, a, parent, b, gparent, u) && Sep(k, a, parent, b, gparent, u)
    requires Rep(root.Now(), a, parent) && Blk(b) && tmp == Head(b) && gparent.color == Black
    requires root.pool == Nodes(Plug(k, Lower(s, a, parent, Red, b, gparent, Black, u)))
    requires AllLoopless(root.log)
    requires AugRep(root.Now(), Plug(k, Lower(s, a, parent, Red, b, gparent, Black, u)), augment)
    modifies root, root.pool
    ensures root.Kept() && Grows(old(root.log), root.log, root.pool)
    ensures RepTree(root.Now(), Plug(k, Lifted(s, a, parent, Black, b, gparent, Red, u)))
    ensures AugRep(root.Now(), Plug(k, Lifted(s, a, parent, Black, b, gparent, Red, u)), augment)
  {
    hide Rep, RepK, RepAny, RepTree, Sep, Ready, Nodes, KNodes, Plug, PutRotated, Loopless, AllLoopless, Grows, Lower,
      Lifted, AugRep;
    ghost var h0 := root.Now();
    ReadyIn(h0, s, k, a, parent, b, gparent, u);
    LiftParentLinks(root, gparent, parent, tmp, s, k, a, b, u);
    ghost var h4 := root.Now();
    LiftedKids(h4, s, k, a, parent, Black, b, gparent, Red, u);
    AugRotate(root, gparent, parent, augment);
    AugRepMaps(h0, h4, Plug(k, Lower(s, a, parent, Red, b, gparent, Black, u)), augment);
    OuterAug(h4, augment, s, k, a, parent, b, gparent, u);
    RepTreeLinks(h4, root.Now(), Plug(k, Lifted(s, a, parent, Black, b, gparent, Red, u)));
  }

  lemma {:induction false} InnerAug(h: Shot, augment: Option<Compute>, s: Side, k: Ctx, a: Tree, n: RbNode, b: Tree,
          o: RbNode, u: Tree)
    requires Sep(k, a, n, b, o, u) && o in h.m && o in h.aug
    requires Kid(h.m[o], s) == Head(b) && Kid(h.m[o], Other(s)) == Head(u)
    requires AugRep(h, Plug(k, Lower(s, a, n, Red, b, o, Red, u)), augment)
    ensures AugRep(PutAugRotated(h, o, n, augment), Plug(k, Lifted(s, a, n, Red, b, o, Red, u)), augment)
  {
    hide Sep, Plug, AugOk, Associative, Lower, Lifted;
    if augment.Some? { RotateAug(h, augment.value, s, k, a, n, Red, Red, b, o, Red, Red, u); }
  }

  /** What the last stores of Case 2 leave, seen from the ideal rotated memory i. */
  lemma {:induction false} InnerStale(h: Shot, h4: Shot, s: Side, k: Ctx, a: Tree, n: RbNode, b: Tree, p: RbNode,
          far: Tree, g: RbNode, u: Tree)
    requires p in h.m && n in h.m && g in h.m && h.m[p].parent == g && p != n && p != g && n != g
    requires h4 == PutParentColor(h, p, n, Red) && h.m[p].color == Red && Kid(h.m[g], s) == p
      && Kid(h.m[g], Other(s)) != p
    ensures var i := PutRotated(h, p, n, Red);
      && h4.top == i.top && SameOff(i, h4, n, g, null, null) && i.m.Keys == h4.m.Keys
      && h4.m[n].left == i.m[n].left && h4.m[n].right == i.m[n].right
      && h4.m[g] == WithKid(i.m[g], s, p)
  {}

  lemma {:induction false} InnerDone(h0: Shot, h1: Shot, h2: Shot, h3: Shot, h4: Shot, s: Side, k: Ctx, a: Tree,
          n: RbNode, b: Tree, p: RbNode, far: Tree, g: RbNode, u: Tree)
    requires InnerRun(h0, h1, h2, h3, h4, s, n, b, p) && Blk(b)
    requires RepTree(h0, Plug(In(s, g, Black, u, k), Lower(Other(s), a, n, Red, b, p, Red, far)))
    requires Sep(In(s, g, Black, u, k), a, n, b, p, far)
    requires h0.m.Keys == Nodes(Plug(In(s, g, Black, u, k), Lower(Other(s), a, n, Red, b, p, Red, far)))
    ensures Loopless(h1) && Loopless(h2)
    ensures Ready(h4, s, k, Mk(Other(s), b, p, Red, far), n, a, g, u)
    ensures Rep(h4, Mk(Other(s), b, p, Red, far), n) && Rep(h4, a, n) && h4.m[g].color == Black
  {
    hide RepTree, Rep, RepAny, RotationRun, PutRotated, Loopless, Ready, SameOff, Lower, Lifted;
    InnerLoopless(h0, h1, h2, h3, h4, s, k, a, n, b, p, far, g, u);
    InnerLinks(h0, h1, h2, h3, h4, s, k, a, n, b, p, far, g, u);
    InnerStale(h3, h4, s, k, a, n, b, p, far, g, u);
    InnerReady(h4, PutRotated(h3, p, n, Red), s, k, a, n, b, p, far, g, u);
  }

  lemma {:induction false} InnerLinks(h0: Shot, h1: Shot, h2: Shot, h3: Shot, h4: Shot, s: Side, k: Ctx, a: Tree,
          n: RbNode, b: Tree, p: RbNode, far: Tree, g: RbNode, u: Tree)
    requires InnerRun(h0, h1, h2, h3, h4, s, n, b, p)
    requires RepTree(h0, Plug(In(s, g, Black, u, k), Lower(Other(s), a, n, Red, b, p, Red, far)))
    requires Sep(In(s, g, Black, u, k), a, n, b, p, far)
    ensures g in h3.m && Kid(h3.m[g], s) == p && Kid(h3.m[g], Other(s)) == Head(u) && Head(u) != p
      && h3.m[p].color == Red
    ensures p != n && p != g && n != g
  {
    ReadyFrom(h0, Other(s), In(s, g, Black, u, k), a, n, Red, b, p, Red, far);
    HeadIn(u); HeadIn(b);
  }

  lemma {:induction false} RepKids(h: Shot, s: Side, near: Tree, x: RbNode, c: Color, far: Tree, p: RbNode?)
    requires Rep(h, Mk(s, near, x, c, far), p)
    ensures x in h.m && Kid(h.m[x], s) == Head(near) && Kid(h.m[x], Other(s)) == Head(far)
    ensures near.Node? ==> near.x in h.m
    ensures far.Node? ==> far.x in h.m
    ensures h.m[x].parent == p && h.m[x].color == c && Rep(h, near, x) && Rep(h, far, x)
  {}

  /** Ready and Rep only look at the links. */
  lemma {:induction false} ReadyLinks(g: Shot, h: Shot, s: Side, k: Ctx, a: Tree, n: RbNode, b: Tree, o: RbNode,
          u: Tree)
    requires Ready(g, s, k, a, n, b, o, u) && Rep(g, a, n) && Rep(g, b, n) && g.top == h.top && g.m == h.m
    ensures Ready(h, s, k, a, n, b, o, u) && Rep(h, a, n) && Rep(h, b, n)
  {
    RepFrame(g, h, a, n); RepFrame(g, h, b, n); RepFrame(g, h, u, o); RepKFrame(g, h, k, o);
    RepIsAny(h, a, n); RepIsAny(h, b, n);
  }

  lemma {:induction false} LogGrows1(log: seq<Shot>, h1: Shot, log': seq<Shot>, S: set<RbNode>)
    requires AllLoopless(log) && Loopless(h1) && log' == log + [h1] && h1.m.Keys == S
    ensures Grows(log, log', S)
  {
    hide Loopless;
  }

  lemma {:induction false} LogGrows2(log: seq<Shot>, h1: Shot, h2: Shot, log': seq<Shot>)
    requires AllLoopless(log) && Loopless(h1) && Loopless(h2)
    requires log' == log + [h1] + [h2]
    ensures AllLoopless(log') && log <= log'
  {
    hide Loopless;
  }

  /** The stores of Case 2, up to the callback. */
  method RotateParentLinks(root: RbRoot, parent: RbNode, node: RbNode, s: Side, ghost k: Ctx, ghost a: Tree,
          ghost b: Tree, ghost far: Tree, ghost g: RbNode, ghost u: Tree)
    requires RepTree(root.Now(), Plug(In(s, g, Black, u, k), Lower(Other(s), a, node, Red, b, parent, Red, far)))
    requires Sep(In(s, g, Black, u, k), a, node, b, parent, far) && Blk(b)
    requires root.pool == Nodes(Plug(In(s, g, Black, u, k), Lower(Other(s), a, node, Red, b, parent, Red, far)))
    requires AllLoopless(root.log)
    modifies root, root.pool
    ensures root.Kept() && AllLoopless(root.log) && old(root.log) <= root.log
    ensures Ready(root.Now(), s, k, Mk(Other(s), b, parent, Red, far), node, a, g, u)
    ensures Rep(root.Now(), Mk(Other(s), b, parent, Red, far), node) && Rep(root.Now(), a, node) && g in root.pool
      && g.color == Black
    ensures root.Now().aug == old(root.Now().aug)
  {
    hide Rep, RepK, RepAny, RepTree, Sep, Ready, Nodes, KNodes, Plug, Loopless, AllLoopless, Lower, Lifted;
    ghost var h0 := root.Now();
    ReadyFrom(h0, Other(s), In(s, g, Black, u, k), a, node, Red, b, parent, Red, far);
    ReadyIn(h0, Other(s), In(s, g, Black, u, k), a, node, b, parent, far);
    InReady(h0, s, k, a, node, b, parent, far, g, u);
    var tmp := ChildOf(node, s);
    root.StoreKid(parent, Other(s), tmp);
    ghost var h1 := root.Now();
    root.StoreKid(node, s, parent);
    ghost var h2 := root.Now();
    if tmp != null {
      root.SetParentColor(tmp, parent, Black);
    }
    ghost var h3 := root.Now();
    root.SetParentColor(parent, node, Red);
    ghost var h4 := root.Now();
    InnerDone(h0, h1, h2, h3, h4, s, k, a, node, b, parent, far, g, u);
    LogGrows2(old(root.log), h1, h2, root.log);
  }

  lemma {:induction false} InReady(h: Shot, s: Side, k: Ctx, a: Tree, n: RbNode, b: Tree, p: RbNode, far: Tree,
          g: RbNode, u: Tree)
    requires Ready(h, Other(s), In(s, g, Black, u, k), a, n, b, p, far)
    ensures n in h.m && Kid(h.m[n], s) == Head(b)
  {}

  /** Case 2: node's uncle is black and node is on the inner side; rotate at parent. */
  method RotateParent(root: RbRoot, parent: RbNode, node: RbNode, s: Side, augment: Option<Compute>, ghost k: Ctx,
          ghost a: Tree, ghost b: Tree, ghost far: Tree, ghost g: RbNode, ghost u: Tree)
    requires RepTree(root.Now(), Plug(In(s, g, Black, u, k), Lower(Other(s), a, node, Red, b, parent, Red, far)))
    requires Sep(In(s, g, Black, u, k), a, node, b, parent, far) && Blk(b)
    requires root.pool == Nodes(Plug(In(s, g, Black, u, k), Lower(Other(s), a, node, Red, b, parent, Red, far)))
    requires AllLoopless(root.log)
    requires AugRep(root.Now(), Plug(In(s, g, Black, u, k), Lower(Other(s), a, node, Red, b, parent, Red, far)),
        augment)
    modifies root, root.pool
    ensures root.Kept() && AllLoopless(root.log) && old(root.log) <= root.log
    ensures Ready(root.Now(), s, k, Mk(Other(s), b, parent, Red, far), node, a, g, u)
    ensures Rep(root.Now(), Mk(Other(s), b, parent, Red, far), node) && g in root.pool && g.color == Black
    ensures AugRep(root.Now(), Plug(In(s, g, Black, u, k), Lifted(Other(s), a, node, Red, b, parent, Red, far)),
        augment)
  {
    hide Rep, RepK, RepAny, RepTree, Sep, Ready, Nodes, KNodes, Plug, Loopless, AllLoopless, Lower, Lifted, AugRep;
    ghost var km := In(s, g, Black, u, k);
    ghost var p' := Mk(Other(s), b, parent, Red, far);
    ghost var h0 := root.Now();
    RotateParentLinks(root, parent, node, s, k, a, b, far, g, u);
    ghost var h4 := root.Now();
    RepKids(h4, Other(s), b, parent, Red, far, node);
    ReadyIn(h4, s, k, p', node, a, g, u);
    AugRotate(root, parent, node, augment);
    AugRepMaps(h0, h4, Plug(km, Lower(Other(s), a, node, Red, b, parent, Red, far)), augment);
    InnerAug(h4, augment, Other(s), km, a, node, b, parent, far);
    ReadyLinks(h4, root.Now(), s, k, p', node, a, g, u);
  }

  // ---- Case 1 ----

  ghost predicate FlipRun(h0: Shot, h1: Shot, h2: Shot, h3: Shot, k: Ctx) {
    && k.In? && k.up.In? && k.up.far.Node?
    && k.up.far.x in h0.m && h1 == PutParentColor(h0, k.up.far.x, k.up.x, Black)
    && k.x in h1.m && h2 == PutParentColor(h1, k.x, k.up.x, Black)
    && k.up.x in h2.m && h3 == PutParentColor(h2, k.up.x, h2.m[k.up.x].parent, Red)
  }

  lemma {:induction false} FlipRep(h0: Shot, h1: Shot, h2: Shot, h3: Shot, k: Ctx, t: Tree)
    requires FlipRun(h0, h1, h2, h3, k)
    requires RepTree(h0, Plug(k, t)) && Apart(Plug(k, t))
    ensures RepTree(h3, Plug(k.up.up, Flipped(k, t)))
  {
    PlugRep(h0, k, t);
    PlugApart(k, t);
    FlipFrames(h0, h1, h2, h3, k, t);
    PlugRep(h3, k.up.up, Flipped(k, t));
  }

  lemma {:induction false} FlipFrames(h0: Shot, h1: Shot, h2: Shot, h3: Shot, k: Ctx, t: Tree)
    requires FlipRun(h0, h1, h2, h3, k)
    requires RepK(h0, k, Head(t)) && Rep(h0, t, k.x) && ApartK(k) && Apart(t) && KNodes(k) !! Nodes(t)
    ensures RepK(h3, k.up.up, k.up.x) && Rep(h3, Flipped(k, t), Up(k.up.up))
  {
    var p, g, far, u, up := k.x, k.up.x, k.far, k.up.far, k.up.up;
    UpIn(k); UpIn(k.up); UpIn(up); HeadIn(u);
    assert RepK(h0, k.up, p) && RepK(h0, up, g) && Rep(h0, far, p) && Rep(h0, u, g);
    FlipOff(h0, h1, h2, h3, k);
    OffSame(h0, h3, p, g, u.x, null, Nodes(t)); RepFrame(h0, h3, t, p);
    OffSame(h0, h3, p, g, u.x, null, Nodes(far)); RepFrame(h0, h3, far, p);
    OffSame(h0, h3, p, g, u.x, null, KNodes(up)); RepKFrame(h0, h3, up, g);
    RepIsAny(h0, u, g);
    RepMove(h0, h3, u, g, Black);
    assert Rep(h3, Mk(k.s, t, p, Black, far), g);
  }

  lemma {:induction false} FlipOff(h0: Shot, h1: Shot, h2: Shot, h3: Shot, k: Ctx)
    requires FlipRun(h0, h1, h2, h3, k) && k.x != k.up.x && k.x != k.up.far.x && k.up.x != k.up.far.x
    ensures SameOff(h0, h3, k.x, k.up.x, k.up.far.x, null) && h3.top == h0.top
    ensures h3.m[k.up.far.x] == h0.m[k.up.far.x].(parent := k.up.x, color := Black)
    ensures k.x in h0.m && h3.m[k.x] == h0.m[k.x].(parent := k.up.x, color := Black)
    ensures k.up.x in h0.m && h3.m[k.up.x] == h0.m[k.up.x].(color := Red)
  {}

  lemma {:induction false} FlipOrder(k: Ctx, t: Tree)
    requires k.In? && k.up.In?
    ensures Inorder(Plug(k.up.up, Flipped(k, t))) == Inorder(Plug(k, t))
    ensures Nodes(Plug(k.up.up, Flipped(k, t))) == Nodes(Plug(k, t))
    ensures Apart(Plug(k.up.up, Flipped(k, t))) <==> Apart(Plug(k, t))
  {
    var t2 := Mk(k.up.s, Mk(k.s, t, k.x, k.c, k.far), k.up.x, k.up.c, k.up.far);
    var t3 := Flipped(k, t);
    assert Plug(k.up.up, t2) == Plug(k, t);
    var i, i', u, u' := Mk(k.s, t, k.x, k.c, k.far), Mk(k.s, t, k.x, Black, k.far), k.up.far, Paint(k.up.far, Black);
    assert Inorder(i) == Inorder(i') && Nodes(i) == Nodes(i') && (Apart(i) <==> Apart(i'));
    assert Inorder(u) == Inorder(u') && Nodes(u) == Nodes(u') && (Apart(u) <==> Apart(u'));
    PlugInorder(k.up.up, t2); PlugInorder(k.up.up, t3);
    PlugNodes(k.up.up, t2); PlugNodes(k.up.up, t3);
    PlugApart(k.up.up, t2); PlugApart(k.up.up, t3);
  }

  lemma {:induction false} FlipAug(h: Shot, augment: Option<Compute>, k: Ctx, t: Tree)
    requires k.In? && k.up.In? && AugRep(h, Plug(k, t), augment)
    ensures AugRep(h, Plug(k.up.up, Flipped(k, t)), augment)
  {
    if augment.Some? {
      var f := augment.value;
      var i, i', u, u' := Mk(k.s, t, k.x, k.c, k.far), Mk(k.s, t, k.x, Black, k.far), k.up.far, Paint(k.up.far, Black);
      var t2 := Mk(k.up.s, i, k.up.x, k.up.c, u);
      assert Plug(k.up.up, t2) == Plug(k, t);
      PlugAug(h, k.up.up, t2, f);
      MkAug(h, k.up.s, i, k.up.x, k.up.c, u, f);
      MkAug(h, k.s, t, k.x, k.c, k.far, f); MkAug(h, k.s, t, k.x, Black, k.far, f);
      assert Agg(u', f) == Agg(u, f) && (AugOk(h, u', f) <==> AugOk(h, u, f));
      MkAug(h, k.up.s, i', k.up.x, Red, u', f);
      PlugAug(h, k.up.up, Flipped(k, t), f);
    }
  }

  // ---- the loop ----

  /** The loop invariant: the red tree t in hole k may clash with the red node above it; all else is in order. */
  ghost predicate Clash(h: Shot, k: Ctx, t: Tree, bh: nat, pool: set<RbNode>, augment: Option<Compute>) {
    && t.Node? && t.c.Red? && RB(t, bh) && RBK(k, bh)
    && RepTree(h, Plug(k, t)) && Apart(Plug(k, t)) && pool == Nodes(Plug(k, t)) && AugRep(h, Plug(k, t), augment)
  }

  /** A red-black tree in memory. */
  ghost predicate Settled(h: Shot, t: Tree, pool: set<RbNode>, augment: Option<Compute>) {
    IsRB(t) && RepTree(h, t) && Apart(t) && pool == Nodes(t) && AugRep(h, t, augment)
  }

  /** What the loop reads when the parent is red. */
  lemma {:induction false} ClashReads(h: Shot, k: Ctx, t: Tree)
    requires t.Node? && RepTree(h, Plug(k, t)) && Apart(Plug(k, t)) && k.In? && k.up.In?
    ensures t.x in h.m && h.m[t.x].parent == k.x
    ensures k.x in h.m && h.m[k.x].parent == k.up.x && h.m[k.x].color == k.c
    ensures Kid(h.m[k.x], k.s) == t.x && Kid(h.m[k.x], Other(k.s)) == Head(k.far) && Head(k.far) != t.x
    ensures k.up.x in h.m && h.m[k.up.x].parent == Up(k.up.up)
    ensures Kid(h.m[k.up.x], k.up.s) == k.x && Kid(h.m[k.up.x], Other(k.up.s)) == Head(k.up.far)
      && Head(k.up.far) != k.x
    ensures k.up.far.Node? ==> k.up.far.x in h.m && h.m[k.up.far.x].color == k.up.far.c
    ensures k.up.up.In? ==> k.up.up.x in h.m
    ensures k.x != k.up.x && (k.up.far.Node? ==> k.up.far.x != k.x && k.up.far.x != k.up.x)
  {
    PlugRep(h, k, t);
    PlugApart(k, t);
    HeadIn(k.far); HeadIn(k.up.far); HeadIn(t);
    UpIn(k.up);
    assert RepK(h, k.up.up, k.up.x);
  }

  /** Case 1, memory and all. */
  method FlipColors(root: RbRoot, parent: RbNode, gparent: RbNode, tmp: RbNode, augment: Option<Compute>, ghost k: Ctx,
          ghost t: Tree, ghost bh: nat)
    requires Clash(root.Now(), k, t, bh, root.pool, augment) && AllLoopless(root.log)
    requires k.In? && k.c.Red? && k.up.In? && k.up.far.Node? && k.up.far.c.Red?
    requires parent == k.x && gparent == k.up.x && tmp == k.up.far.x
    modifies root, root.pool
    ensures root.Kept() && root.log == old(root.log)
    ensures Clash(root.Now(), k.up.up, Flipped(k, t), bh + 1, root.pool, augment)
    ensures gparent.parent == Up(k.up.up)
    ensures Inorder(Plug(k.up.up, Flipped(k, t))) == Inorder(Plug(k, t))
  {
    hide Rep, RepK, RepTree, Nodes, KNodes, Plug, Apart, ApartK, RB, RBK, AugRep;
    ghost var h0 := root.Now();
    ClashReads(h0, k, t);
    root.SetParentColor(tmp, gparent, Black);
    ghost var h1 := root.Now();
    root.SetParentColor(parent, gparent, Black);
    ghost var h2 := root.Now();
    root.SetParentColor(gparent, gparent.parent, Red);
    FlipRep(h0, h1, h2, root.Now(), k, t);
    FlipOrder(k, t);
    FlipRB(k, t, bh);
    AugRepMaps(h0, root.Now(), Plug(k, t), augment);
    FlipAug(root.Now(), augment, k, t);
  }

  function Near(t: Tree, s: Side): Tree
    requires t.Node?
  {
    if s.L? then t.l else t.r
  }

  /** The tree seen from the grandparent when the clash is on the outer side. */
  lemma {:induction false} OuterView(h: Shot, k: Ctx, t: Tree, bh: nat, pool: set<RbNode>, augment: Option<Compute>,
          s: Side)
    requires Clash(h, k, t, bh, pool, augment)
    requires k.In? && k.c.Red? && k.up.In? && k.up.s == s == k.s && Blk(k.up.far)
    ensures k.up.c.Black? && Blk(k.far)
    ensures Plug(k, t) == Plug(k.up.up, Lower(s, t, k.x, Red, k.far, k.up.x, Black, k.up.far))
    ensures Sep(k.up.up, t, k.x, k.far, k.up.x, k.up.far)
    ensures Ready(h, s, k.up.up, t, k.x, k.far, k.up.x, k.up.far) && Rep(h, t, k.x) && h.m[k.up.x].color == Black
    ensures var t' := Plug(k.up.up, Lifted(s, t, k.x, Black, k.far, k.up.x, Red, k.up.far));
      IsRB(t') && Apart(t') && Nodes(t') == Nodes(Plug(k, t)) && Inorder(t') == Inorder(Plug(k, t))
  {
    hide RepTree, Rep, Apart, Nodes, Inorder, IsRB, Ready, Sep, AugRep;
    OuterRB(k, t, bh);
    assert Plug(k, t) == Plug(k.up.up, Lower(s, t, k.x, Red, k.far, k.up.x, Black, k.up.far));
    SepLower(s, k.up.up, t, k.x, Red, k.far, k.up.x, Black, k.up.far);
    SepLifted(s, k.up.up, t, k.x, Black, k.far, k.up.x, Red, k.up.far);
    ReadyFrom(h, s, k.up.up, t, k.x, Red, k.far, k.up.x, Black, k.up.far);
    RotateOrder(s, k.up.up, t, k.x, Red, Black, k.far, k.up.x, Black, Red, k.up.far);
  }

  /** The same when the clash is on the inner side, before and after Case 2. */
  lemma {:induction false} InnerView(h: Shot, k: Ctx, t: Tree, bh: nat, pool: set<RbNode>, augment: Option<Compute>,
          s: Side, a: Tree, b: Tree)
    requires Clash(h, k, t, bh, pool, augment)
    requires k.In? && k.c.Red? && k.up.In? && k.up.s == s == Other(k.s) && Blk(k.up.far)
    requires a == Near(t, k.s) && b == Near(t, s)
    ensures k.up.c.Black? && Blk(a) && Blk(b)
    ensures Plug(k, t) == Plug(In(s, k.up.x, Black, k.up.far, k.up.up),
        Lower(Other(s), a, t.x, Red, b, k.x, Red, k.far))
    ensures Sep(In(s, k.up.x, Black, k.up.far, k.up.up), a, t.x, b, k.x, k.far)
    ensures var p' := Mk(Other(s), b, k.x, Red, k.far);
      && Plug(In(s, k.up.x, Black, k.up.far, k.up.up), Lifted(Other(s), a, t.x, Red, b, k.x, Red, k.far))
         == Plug(k.up.up, Lower(s, p', t.x, Red, a, k.up.x, Black, k.up.far))
      && Sep(k.up.up, p', t.x, a, k.up.x, k.up.far)
      && Nodes(Plug(k.up.up, Lower(s, p', t.x, Red, a, k.up.x, Black, k.up.far))) == Nodes(Plug(k, t))
      && var t' := Plug(k.up.up, Lifted(s, p', t.x, Black, a, k.up.x, Red, k.up.far));
         IsRB(t') && Apart(t') && Nodes(t') == Nodes(Plug(k, t)) && Inorder(t') == Inorder(Plug(k, t))
  {
    hide RepTree, Rep, Apart, Nodes, Inorder, IsRB, Ready, Sep, AugRep;
    var km, p' := In(s, k.up.x, Black, k.up.far, k.up.up), Mk(Other(s), b, k.x, Red, k.far);
    SepLower(Other(s), km, a, t.x, Red, b, k.x, Red, k.far);
    SepLifted(Other(s), km, a, t.x, Red, b, k.x, Red, k.far);
    SepLower(s, k.up.up, p', t.x, Red, a, k.up.x, Black, k.up.far);
    SepLifted(s, k.up.up, p', t.x, Black, a, k.up.x, Red, k.up.far);
    RotateOrder(Other(s), km, a, t.x, Red, Red, b, k.x, Red, Red, k.far);
    RotateOrder(s, k.up.up, p', t.x, Red, Black, a, k.up.x, Black, Red, k.up.far);
    InnerRB(k, a, t.x, b, bh);
  }

  /** One side of the loop body: parent is gparent's child on side s. */
  method Step(root: RbRoot, node: RbNode, parent: RbNode, gparent: RbNode, s: Side, augment: Option<Compute>,
          ghost k: Ctx, ghost t: Tree, ghost bh: nat)
    returns (done: bool, ghost k': Ctx, ghost t': Tree)
    requires Clash(root.Now(), k, t, bh, root.pool, augment) && AllLoopless(root.log)
    requires k.In? && k.c.Red? && k.up.In? && k.up.s == s
    requires node == t.x && parent == k.x && gparent == k.up.x
    modifies root, root.pool
    ensures root.Kept() && AllLoopless(root.log) && old(root.log) <= root.log
    ensures Inorder(Plug(k', t')) == Inorder(Plug(k, t))
    ensures !done ==> Clash(root.Now(), k', t', bh + 1, root.pool, augment) && Depth(k') < Depth(k)
    ensures !done ==> t'.x == gparent && gparent.parent == Up(k')
    ensures done ==> Settled(root.Now(), Plug(k', t'), root.pool, augment)
  {
    hide RepTree, Rep, RepK, Apart, ApartK, Nodes, KNodes, Inorder, IsRB, Ready, Sep, AugRep, Lower, Lifted,
      AllLoopless, Plug, RB, RBK;
    ghost var g, u, far, up := k.up.x, k.up.far, k.far, k.up.up;
    ClashReads(root.Now(), k, t);
    var tmp := ChildOf(gparent, Other(s));
    if tmp != null && tmp.color.Red? {
      FlipColors(root, parent, gparent, tmp, augment, k, t, bh);
      return false, up, Flipped(k, t);
    }
    done := true;
    k' := up;
    tmp := ChildOf(parent, Other(s));
    if node == tmp {
      ghost var a, b := Near(t, k.s), Near(t, s);
      ghost var p' := Mk(Other(s), b, parent, Red, far);
      InnerView(root.Now(), k, t, bh, root.pool, augment, s, a, b);
      RotateParent(root, parent, node, s, augment, up, a, b, far, g, u);
      ghost var h := root.Now();
      ReadyA(h, s, up, p', node, a, g, u);
      tmp := ChildOf(node, Other(s));
      LiftParent(root, gparent, node, tmp, s, augment, up, p', a, u);
      t' := Lifted(s, p', node, Black, a, gparent, Red, u);
    } else {
      OuterView(root.Now(), k, t, bh, root.pool, augment, s);
      LiftParent(root, gparent, parent, tmp, s, augment, up, t, far, u);
      t' := Lifted(s, t, parent, Black, far, gparent, Red, u);
    }
  }

  lemma {:induction false} ReadyA(h: Shot, s: Side, k: Ctx, a: Tree, n: RbNode, b: Tree, o: RbNode, u: Tree)
    requires Ready(h, s, k, a, n, b, o, u)
    ensures n in h.m && Kid(h.m[n], Other(s)) == Head(b)
  {}

  lemma {:induction false} StartClash(h: Shot, k: Ctx, node: RbNode, pool: set<RbNode>, augment: Option<Compute>)
    requires RepTree(h, Plug(k, Node(Leaf, node, Red, Leaf))) && Apart(Plug(k, Node(Leaf, node, Red, Leaf)))
    requires pool == Nodes(Plug(k, Node(Leaf, node, Red, Leaf))) && IsRB(Plug(k, Leaf))
    requires AugRep(h, Plug(k, Node(Leaf, node, Red, Leaf)), augment)
    ensures Clash(h, k, Node(Leaf, node, Red, Leaf), 0, pool, augment)
  {
    var bh := UnplugRB(k, Leaf);
  }

  /** What the loop reads about node and parent. */
  lemma {:induction false} ClashLinks(h: Shot, k: Ctx, t: Tree)
    requires t.Node? && RepTree(h, Plug(k, t))
    ensures t.x in h.m && h.m[t.x].parent == Up(k) && h.m[t.x].color == t.c
    ensures k.In? ==> k.x in h.m && h.m[k.x].parent == Up(k.up) && h.m[k.x].color == k.c
  {
    PlugRep(h, k, t);
  }

  lemma {:induction false} ClashTop(k: Ctx, bh: nat)
    requires RBK(k, bh) && k.In? && k.c.Red?
    ensures k.up.In?
  {}

  /** The clash is gone once the red node is the root: it is painted black. */
  lemma {:induction false} EndAtRoot(g: Shot, h: Shot, t: Tree, bh: nat, pool: set<RbNode>, augment: Option<Compute>)
    requires Clash(g, Top, t, bh, pool, augment) && t.x in g.m && h == PutParentColor(g, t.x, null, Black)
    ensures Settled(h, Plug(Top, Paint(t, Black)), pool, augment)
    ensures Inorder(Plug(Top, Paint(t, Black))) == Inorder(Plug(Top, t))
  {
    RepIsAny(g, t, null);
    RepMove(g, h, t, null, Black);
    assert RB(Paint(t, Black), bh + 1);
    if augment.Some? { AugFrame(g, h, t.l, augment.value); AugFrame(g, h, t.r, augment.value); }
  }

  /** There is no clash under a black parent. */
  lemma {:induction false} EndUnderBlack(h: Shot, k: Ctx, t: Tree, bh: nat, pool: set<RbNode>, augment: Option<Compute>)
    requires Clash(h, k, t, bh, pool, augment) && k.In? && k.c.Black?
    ensures Settled(h, Plug(k, t), pool, augment)
  {
    PlugRB(k, t, bh);
  }

  /** One turn of the loop where node and parent are both red: gparent's left side, or its mirror image. */
  method Climb(root: RbRoot, node: RbNode, parent: RbNode, augment: Option<Compute>, ghost k: Ctx, ghost t: Tree,
          ghost bh: nat)
    returns (gparent: RbNode, done: bool, ghost k': Ctx, ghost t': Tree)
    requires Clash(root.Now(), k, t, bh, root.pool, augment) && AllLoopless(root.log)
    requires node == t.x && parent == Up(k) && parent in root.pool && parent.color.Red?
    modifies root, root.pool
    ensures root.Kept() && AllLoopless(root.log) && old(root.log) <= root.log
    ensures Inorder(Plug(k', t')) == Inorder(Plug(k, t))
    ensures !done ==> Clash(root.Now(), k', t', bh + 1, root.pool, augment) && Depth(k') < Depth(k)
    ensures !done ==> t'.x == gparent && gparent in root.pool && gparent.parent == Up(k')
    ensures done ==> Settled(root.Now(), Plug(k', t'), root.pool, augment)
  {
    hide RepTree, Rep, RepK, Apart, ApartK, Nodes, KNodes, Inorder, Ready, Sep, AugRep, AllLoopless, Plug, RB, RBK,
      Settled, IsRB, RbRoot.Traced;
    ClashLinks(root.Now(), k, t);
    ClashTop(k, bh);
    gparent := parent.parent;
    ClashReads(root.Now(), k, t);
    var tmp := gparent.right;
    if parent != tmp {  // parent == gparent->rb_left
      done, k', t' := Step(root, node, parent, gparent, L, augment, k, t, bh);
    } else {
      done, k', t' := Step(root, node, parent, gparent, R, augment, k, t, bh);
    }
    if !done { ClashLinks(root.Now(), k', t'); }
  }

  /** The loop of __rb_insert. */
  method Rebalance(root: RbRoot, node: RbNode, augment: Option<Compute>, ghost k0: Ctx, ghost t0: Tree, ghost bh0: nat)
    returns (ghost t: Tree)
    requires Clash(root.Now(), k0, t0, bh0, root.pool, augment) && AllLoopless(root.log) && t0.x == node
    modifies root, root.pool
    ensures Settled(root.Now(), t, root.pool, augment) && Inorder(t) == Inorder(Plug(k0, t0))
    ensures root.Kept() && AllLoopless(root.log) && old(root.log) <= root.log
  {
    hide RepTree, Rep, RepK, Apart, ApartK, Nodes, KNodes, Inorder, Ready, Sep, AugRep, AllLoopless, Plug, RB, RBK,
      Settled, IsRB, RbRoot.Traced;
    var cur := node;
    ghost var k, bh := k0, bh0;
    t := t0;
    ClashLinks(root.Now(), k, t);
    var parent := cur.parent;
    while true
      invariant Clash(root.Now(), k, t, bh, root.pool, augment) && t.x == cur && parent == Up(k) && cur in root.pool
      invariant AllLoopless(root.log) && old(root.log) <= root.log && root.Kept()
      invariant Inorder(Plug(k, t)) == Inorder(Plug(k0, t0))
      decreases Depth(k)
    {
      if parent == null {
        ghost var h := root.Now();
        root.SetParentColor(cur, null, Black);
        assert k == Top;
        EndAtRoot(h, root.Now(), t, bh, root.pool, augment);
        return Plug(k, Paint(t, Black));
      }
      ClashLinks(root.Now(), k, t);
      if parent.color.Black? {
        EndUnderBlack(root.Now(), k, t, bh, root.pool, augment);
        return Plug(k, t);
      }
      var done;
      cur, done, k, t := Climb(root, cur, parent, augment, k, t, bh);
      if done {
        return Plug(k, t);
      }
      bh := bh + 1;
      parent := cur.parent;
    }
  }

  /** __rb_insert: repairs the tree after rb_link_node has put the red node in hole k of a red-black tree. */
  method Insert(root: RbRoot, node: RbNode, newleft: bool, leftmost: Leftmost?, augment: Option<Compute>, ghost k: Ctx)
    requires root.Shaped() && root.tree == Plug(k, Node(Leaf, node, Red, Leaf)) && IsRB(Plug(k, Leaf))
    requires AugRep(root.Now(), root.tree, augment)
    requires newleft ==> leftmost != null
    modifies root, root.pool, if leftmost == null then {} else {leftmost}
    ensures root.Valid() && Inorder(root.tree) == old(Inorder(root.tree)) && root.pool == old(root.pool)
    ensures AugRep(root.Now(), root.tree, augment)
    ensures root.Recorded()
    ensures leftmost != null ==> leftmost.node == if newleft then node else old(leftmost.node)
  {
    hide RepTree, Apart, Nodes, Inorder, AugRep, AllLoopless, Plug, IsRB, RbRoot.Traced, Steps, SlotsBut, RbRoot.Now;
    root.Begin();
    SameSelf(root.Now());
    StartClash(root.Now(), k, node, root.pool, augment);
    if newleft {
      leftmost.node := node;
    }
    ghost var t := Rebalance(root, node, augment, k, Node(Leaf, node, Red, Leaf), 0);
    root.tree := t;
    root.Ends();
  }

  lemma {:induction false} LinkRep(g: Shot, h: Shot, k: Ctx, node: RbNode)
    requires RepTree(g, Plug(k, Leaf)) && Apart(Plug(k, Leaf)) && node !in Nodes(Plug(k, Leaf))
    requires node in h.m && h.m[node] == Rec(null, null, Up(k), Red)
    requires k.Top? ==> h.top == node
    requires k.In? ==> h.top == g.top && k.x in g.m && k.x in h.m && h.m[k.x] == WithKid(g.m[k.x], k.s, node)
    requires SameOff(g, h, node, Up(k), null, null)
    ensures RepTree(h, Plug(k, Node(Leaf, node, Red, Leaf))) && Apart(Plug(k, Node(Leaf, node, Red, Leaf)))
    ensures Nodes(Plug(k, Node(Leaf, node, Red, Leaf))) == Nodes(Plug(k, Leaf)) + {node}
  {
    var t := Node(Leaf, node, Red, Leaf);
    PlugRep(g, k, Leaf); PlugApart(k, Leaf); PlugNodes(k, Leaf);
    RepKMove(g, h, k, null, node);
    PlugRep(h, k, t); PlugApart(k, t); PlugNodes(k, t);
  }

  /** rb_link_node: hangs a red node at the empty slot on side s of parent, or at the root. */
  method LinkNode(root: RbRoot, node: RbNode, parent: RbNode?, s: Side, ghost k: Ctx)
    requires root.Shaped() && node !in root.pool
    requires root.tree == Plug(k, Leaf) && parent == Up(k) && (k.In? ==> k.s == s)
    modifies root, root.pool, node
    ensures root.Shaped() && root.tree == Plug(k, Node(Leaf, node, Red, Leaf))
    ensures root.pool == old(root.pool) + {node} && root.log == old(root.log) + [root.Now()] && root.Recorded()
    ensures root.Now().aug == old(root.Now().aug[node := node.aug])
  {
    hide Rep, RepTree, Apart, Nodes, Loopless, AllLoopless, Plug, RepK, RbRoot.Now, RbRoot.Traced, Steps, SlotsBut;
    ghost var g := root.Now();
    root.Reads();
    ClashLinks0(g, k);
    NewSlots(g, node, Rec(null, null, parent, Red), node.aug);
    root.InitNode(node, parent);
    root.Begin();
    if parent == null {
      root.StoreTop(node);
    } else {
      root.StoreKid(parent, s, node);
    }
    ghost var h := root.Now();
    root.Reads();
    assert h.aug == g.aug[node := old(node.aug)];
    LinkRep(g, h, k, node);
    TreeLoopless(h, Plug(k, Node(Leaf, node, Red, Leaf)));
    LogGrows1(old(root.log), h, root.log, root.pool);
    root.tree := Plug(k, Node(Leaf, node, Red, Leaf));
    assert root.Now() == h;
    root.Ends();
  }

  lemma {:induction false} ClashLinks0(h: Shot, k: Ctx)
    requires RepTree(h, Plug(k, Leaf))
    ensures k.In? ==> k.x in h.m
  {
    PlugRep(h, k, Leaf);
  }
}
