/** The rotation shared by insertion and erasure: links, loops and augmented values. */
module RbRotate {
  import opened RbModel
  import opened RbHeap

  /** `if (y) rb_set_parent_color(y, p, c)` */
  function PutIf(h: Shot, y: RbNode?, p: RbNode?, c: Color): Shot
    requires y != null ==> y in h.m
  {
    if y == null then h else PutParentColor(h, y, p, c)
  }

  /** o with its s-child n, before and after the rotation that lifts n. */
  function Lower(s: Side, a: Tree, n: RbNode, nc: Color, b: Tree, o: RbNode, oc: Color, u: Tree): Tree {
    Mk(s, Mk(s, a, n, nc, b), o, oc, u)
  }

  function Lifted(s: Side, a: Tree, n: RbNode, nc: Color, b: Tree, o: RbNode, oc: Color, u: Tree): Tree {
    Mk(s, a, n, nc, Mk(s, b, o, oc, u))
  }

  /** Memory just before __rb_rotate_set_parents(o, n): the child pointers of o and n are in place. */
  ghost predicate Twisted(h: Shot, s: Side, k: Ctx, a: Tree, n: RbNode, b: Tree, o: RbNode, u: Tree) {
    && o in h.m && n in h.m && h.m[o].parent == Up(k)
    && Kid(h.m[o], s) == Head(b) && Kid(h.m[o], Other(s)) == Head(u)
    && Kid(h.m[n], s) == Head(a) && Kid(h.m[n], Other(s)) == o
    && Rep(h, a, n) && Rep(h, b, o) && Rep(h, u, o) && RepK(h, k, o)
  }

  /** The six parts a rotation rearranges are disjoint. */
  ghost predicate Sep(k: Ctx, a: Tree, n: RbNode, b: Tree, o: RbNode, u: Tree) {
    && n != o && ApartK(k) && Apart(a) && Apart(b) && Apart(u)
    && n !in Nodes(a) && n !in Nodes(b) && n !in Nodes(u) && n !in KNodes(k)
    && o !in Nodes(a) && o !in Nodes(b) && o !in Nodes(u) && o !in KNodes(k)
    && Nodes(a) !! Nodes(b) && Nodes(a) !! Nodes(u) && Nodes(b) !! Nodes(u)
    && Nodes(a) !! KNodes(k) && Nodes(b) !! KNodes(k) && Nodes(u) !! KNodes(k)
  }

  lemma {:induction false} SepLower(s: Side, k: Ctx, a: Tree, n: RbNode, nc: Color, b: Tree, o: RbNode, oc: Color,
          u: Tree)
    ensures Apart(Plug(k, Lower(s, a, n, nc, b, o, oc, u))) <==> Sep(k, a, n, b, o, u)
  {
    var i := Mk(s, a, n, nc, b);
    PlugApart(k, Lower(s, a, n, nc, b, o, oc, u));
    MkApart(s, a, n, nc, b); MkApart(s, i, o, oc, u);
  }

  lemma {:induction false} SepLifted(s: Side, k: Ctx, a: Tree, n: RbNode, nc: Color, b: Tree, o: RbNode, oc: Color,
          u: Tree)
    ensures Apart(Plug(k, Lifted(s, a, n, nc, b, o, oc, u))) <==> Sep(k, a, n, b, o, u)
  {
    var i := Mk(s, b, o, oc, u);
    PlugApart(k, Lifted(s, a, n, nc, b, o, oc, u));
    MkApart(s, b, o, oc, u); MkApart(s, a, n, nc, i);
  }

  lemma {:induction false} LiftOrder(s: Side, a: Tree, n: RbNode, nc: Color, nc': Color, b: Tree, o: RbNode, oc: Color,
          oc': Color, u: Tree)
    ensures Inorder(Lower(s, a, n, nc, b, o, oc, u)) == Inorder(Lifted(s, a, n, nc', b, o, oc', u))
    ensures Nodes(Lower(s, a, n, nc, b, o, oc, u)) == Nodes(Lifted(s, a, n, nc', b, o, oc', u))
  {
    var A, B, U := Inorder(a), Inorder(b), Inorder(u);
    MkApart(s, a, n, nc, b); MkApart(s, Mk(s, a, n, nc, b), o, oc, u);
    MkApart(s, b, o, oc', u); MkApart(s, a, n, nc', Mk(s, b, o, oc', u));
    if s.L? { Regroup(A, n, B, o, U); } else { Regroup(U, o, B, n, A); }
  }

  lemma {:induction false} Regroup(a: seq<RbNode>, x: RbNode, b: seq<RbNode>, y: RbNode, c: seq<RbNode>)
    ensures (a + [x] + b) + [y] + c == a + [x] + (b + [y] + c)
  {}

  /** A rotation keeps the nodes and their order. */
  lemma {:induction false} RotateOrder(s: Side, k: Ctx, a: Tree, n: RbNode, nc: Color, nc': Color, b: Tree, o: RbNode,
          oc: Color, oc': Color, u: Tree)
    ensures Inorder(Plug(k, Lower(s, a, n, nc, b, o, oc, u))) == Inorder(Plug(k, Lifted(s, a, n, nc', b, o, oc', u)))
    ensures Nodes(Plug(k, Lower(s, a, n, nc, b, o, oc, u))) == Nodes(Plug(k, Lifted(s, a, n, nc', b, o, oc', u)))
  {
    var t, t' := Lower(s, a, n, nc, b, o, oc, u), Lifted(s, a, n, nc', b, o, oc', u);
    LiftOrder(s, a, n, nc, nc', b, o, oc, oc', u);
    PlugInorder(k, t); PlugInorder(k, t');
    PlugNodes(k, t); PlugNodes(k, t');
  }

  lemma {:induction false} MkApart(s: Side, near: Tree, x: RbNode, c: Color, far: Tree)
    ensures Nodes(Mk(s, near, x, c, far)) == Nodes(near) + {x} + Nodes(far)
    ensures Inorder(Mk(s, near, x, c, far)) == if s.L? then Inorder(near) + [x] + Inorder(far)
      else Inorder(far) + [x] + Inorder(near)
    ensures Apart(Mk(s, near, x, c, far)) <==>
      Apart(near) && Apart(far) && x !in Nodes(near) && x !in Nodes(far) && Nodes(near) !! Nodes(far)
  {}

  /** What __rb_rotate_set_parents changes, record by record. */
  lemma {:induction false} RotatedRecords(h: Shot, k: Ctx, n: RbNode, o: RbNode, c: Color)
    requires o in h.m && n in h.m && n != o && h.m[o].parent == Up(k) && RepK(h, k, o)
    requires ApartK(k) && o !in KNodes(k) && n !in KNodes(k)
    ensures h.m[o].parent != null ==> h.m[o].parent in h.m
    ensures var g := PutRotated(h, o, n, c);
      && g.m.Keys == h.m.Keys && g.aug == h.aug
      && g.m[o] == h.m[o].(parent := n, color := c)
      && g.m[n] == h.m[n].(parent := Up(k), color := h.m[o].color)
      && (k.Top? ==> g.top == n)
      && (k.In? ==> g.top == h.top && k.x in h.m && g.m[k.x] == WithKid(h.m[k.x], k.s, n)
                    && Kid(h.m[k.x], k.s) == o && Kid(h.m[k.x], Other(k.s)) == Head(k.far))
      && SameOff(h, g, o, n, Up(k), null)
  {
    hide Plug, Apart;
    if k.In? {
      assert k.far.Node? ==> k.far.x in Nodes(k.far);
    }
  }

  lemma {:induction false} RotateRep(h: Shot, s: Side, k: Ctx, a: Tree, n: RbNode, b: Tree, o: RbNode, u: Tree,
          c: Color)
    requires Twisted(h, s, k, a, n, b, o, u) && Sep(k, a, n, b, o, u)
    ensures h.m[o].parent != null ==> h.m[o].parent in h.m
    ensures var g := PutRotated(h, o, n, c);
      && RepK(g, k, n) && Rep(g, Lifted(s, a, n, h.m[o].color, b, o, c, u), Up(k))
      && g.m.Keys == h.m.Keys && g.aug == h.aug
  {
    RotatedRecords(h, k, n, o, c);
    var g := PutRotated(h, o, n, c);
    RepIn(h, a, n); RepIn(h, b, o); RepIn(h, u, o); RepKIn(h, k, o);
    RepFrame(h, g, a, n);
    RepFrame(h, g, b, o);
    RepFrame(h, g, u, o);
    RepKMove(h, g, k, o, n);
  }

  /** A child-pointer state on the way to a rotation: n may still have b, and the slot above may still have o. */
  ghost predicate OnTheWay(h: Shot, g: Shot, s: Side, k: Ctx, a: Tree, n: RbNode, b: Tree, o: RbNode) {
    && h.m.Keys == g.m.Keys && n in h.m && (k.In? ==> k.x in h.m)
    && SameKids(h, g, n, Up(k))
    && Kid(h.m[n], s) == Head(a) && Kid(h.m[n], Other(s)) in {Head(b), o}
    && (k.In? ==> Kid(h.m[k.x], k.s) in {o, n} && Kid(h.m[k.x], Other(k.s)) == Head(k.far))
  }

  lemma {:induction false} RotateLoopless(h: Shot, g: Shot, s: Side, k: Ctx, a: Tree, n: RbNode, nc: Color, b: Tree,
          o: RbNode, oc: Color, u: Tree)
    requires RepTree(g, Plug(k, Lifted(s, a, n, nc, b, o, oc, u))) && Sep(k, a, n, b, o, u)
    requires g.m.Keys == Nodes(Plug(k, Lifted(s, a, n, nc, b, o, oc, u)))
    requires OnTheWay(h, g, s, k, a, n, b, o)
    ensures Loopless(h)
  {
    var t := Plug(k, Lifted(s, a, n, nc, b, o, oc, u));
    SepLifted(s, k, a, n, nc, b, o, oc, u);
    LiftedSizes(s, k, a, n, nc, b, o, oc, u);
    PatchLoopless(h, g, t, n, s, Up(k), if k.In? then k.s else L);
  }

  /** A snapshot that differs from a represented tree in the children of two nodes, which still point down. */
  lemma {:induction false} PatchLoopless(h: Shot, g: Shot, t: Tree, n: RbNode, s: Side, up: RbNode?, us: Side)
    requires RepTree(g, t) && Apart(t) && h.m.Keys == g.m.Keys == Nodes(t)
    requires SameKids(h, g, n, up)
    requires n in h.m ==>
      Below(h, t, null, null, n, Kid(h.m[n], s)) && Below(h, t, null, null, n, Kid(h.m[n], Other(s)))
    requires up != null && up in h.m ==>
      Below(h, t, null, null, up, Kid(h.m[up], us)) && Below(h, t, null, null, up, Kid(h.m[up], Other(us)))
    ensures Loopless(h)
  {
    forall x, z | x in h.m ensures Kid(h.m[x], z) == Kid(g.m[x], z) || Below(h, t, null, null, x, Kid(h.m[x], z)) {
      assert z == s || z == Other(s);
      assert z == us || z == Other(us);
    }
    NearLoopless(h, g, t, null, null);
  }

  /** The subtrees of a lifted tree get smaller on the way down. */
  lemma {:induction false} LiftedSizes(s: Side, k: Ctx, a: Tree, n: RbNode, nc: Color, b: Tree, o: RbNode, oc: Color,
          u: Tree)
    requires Apart(Plug(k, Lifted(s, a, n, nc, b, o, oc, u)))
    ensures var t := Plug(k, Lifted(s, a, n, nc, b, o, oc, u));
      && Nodes(a) + {n, o} + Nodes(b) <= Nodes(t)
      && SizeAt(t, Head(a)) < SizeAt(t, n)
      && SizeAt(t, Head(b)) < SizeAt(t, o) < SizeAt(t, n)
      && (k.In? ==>
        && {k.x} + Nodes(k.far) <= Nodes(t)
        && SizeAt(t, n) < SizeAt(t, k.x) && SizeAt(t, Head(k.far)) < SizeAt(t, k.x))
  {
    var i := Mk(s, b, o, oc, u);
    var t' := Mk(s, a, n, nc, i);
    var t := Plug(k, t');
    PlugApart(k, t'); PlugNodes(k, t');
    MkApart(s, b, o, oc, u); MkApart(s, a, n, nc, i);
    SizeAtBound(t, null);
    StepSize(k, s, a, n, nc, i);
    StepSize(In(Other(s), n, nc, a, k), s, b, o, oc, u);
    if k.In? { StepSize(k.up, k.s, t', k.x, k.c, k.far); }
  }

  /** Either child of a node has the smaller subtree. */
  lemma {:induction false} StepSize(k: Ctx, s: Side, near: Tree, x: RbNode, c: Color, far: Tree)
    requires Apart(Plug(k, Mk(s, near, x, c, far)))
    ensures var t := Plug(k, Mk(s, near, x, c, far));
      SizeAt(t, Head(near)) < SizeAt(t, x) && SizeAt(t, Head(far)) < SizeAt(t, x)
  {
    var t := Plug(k, Mk(s, near, x, c, far));
    var kn, kf := In(s, x, c, far, k), In(Other(s), x, c, near, k);
    assert Plug(kn, near) == t == Plug(kf, far);
    SizePlug(kn, near); SizePlug(kf, far);
    SizeAtBound(t, null);
  }

  /** Memory before a rotation: n's parent and colour, and o's child on side s, may be out of date. */
  ghost predicate Ready(h: Shot, s: Side, k: Ctx, a: Tree, n: RbNode, b: Tree, o: RbNode, u: Tree) {
    && o in h.m && n in h.m && h.m[o].parent == Up(k) && Kid(h.m[o], Other(s)) == Head(u)
    && Kid(h.m[n], s) == Head(a) && Kid(h.m[n], Other(s)) == Head(b)
    && RepAny(h, a) && RepAny(h, b) && Rep(h, u, o) && RepK(h, k, o)
  }

  /** The roots of a and b are hung under n and o with colours ca and cb; nothing else changes. */
  ghost predicate Adopted(g: Shot, h: Shot, a: Tree, ca: Color, n: RbNode, b: Tree, cb: Color, o: RbNode) {
    && h.top == g.top && h.m.Keys == g.m.Keys
    && (a.Node? ==> a.x in g.m && h.m[a.x] == g.m[a.x].(parent := n, color := ca))
    && (b.Node? ==> b.x in g.m && h.m[b.x] == g.m[b.x].(parent := o, color := cb))
    && SameOff(g, h, Head(a), Head(b), null, null)
  }

  /** A whole rotation as the code runs it, store by store. */
  ghost predicate RotationRun(h0: Shot, h1: Shot, h2: Shot, h3: Shot, h4: Shot, s: Side, k: Ctx, a: Tree, ca: Color,
          n: RbNode, b: Tree, cb: Color, o: RbNode, c: Color, u: Tree) {
    && Ready(h0, s, k, a, n, b, o, u) && Sep(k, a, n, b, o, u)
    && h1 == PutKid(h0, o, s, Head(b))
    && h2 == PutKid(h1, n, Other(s), o)
    && Adopted(h2, h3, a, ca, n, b, cb, o)
    && (h3.m[o].parent != null ==> h3.m[o].parent in h3.m)
    && h4 == PutRotated(h3, o, n, c)
  }

  /** What the stores before __rb_rotate_set_parents change, record by record. */
  lemma {:induction false} RotationRecords(h0: Shot, h1: Shot, h2: Shot, h3: Shot, h4: Shot, s: Side, k: Ctx, a: Tree,
          ca: Color, n: RbNode, b: Tree, cb: Color, o: RbNode, c: Color, u: Tree)
    requires RotationRun(h0, h1, h2, h3, h4, s, k, a, ca, n, b, cb, o, c, u)
    ensures h3.top == h0.top && h1.m.Keys == h2.m.Keys == h3.m.Keys == h0.m.Keys
    ensures h3.m[o] == WithKid(h0.m[o], s, Head(b))
    ensures h3.m[n] == WithKid(h0.m[n], Other(s), o)
    ensures a.Node? ==> a.x in h0.m && h3.m[a.x] == h0.m[a.x].(parent := n, color := ca)
    ensures b.Node? ==> b.x in h0.m && h3.m[b.x] == h0.m[b.x].(parent := o, color := cb)
    ensures SameOff(h0, h3, o, n, Head(a), Head(b))
  {
    assert o != Head(a) && o != Head(b) && n != Head(a) && n != Head(b);
  }

  lemma {:induction false} RotationTwists(h0: Shot, h1: Shot, h2: Shot, h3: Shot, h4: Shot, s: Side, k: Ctx, a: Tree,
          ca: Color, n: RbNode, b: Tree, cb: Color, o: RbNode, c: Color, u: Tree)
    requires RotationRun(h0, h1, h2, h3, h4, s, k, a, ca, n, b, cb, o, c, u)
    ensures Twisted(h3, s, k, Paint(a, ca), n, Paint(b, cb), o, u)
    ensures h3.m.Keys == h0.m.Keys && h3.m[o].color == h0.m[o].color
  {
    hide Rep, RepK, RepAny, Nodes, KNodes, Apart, ApartK, Sep, Same, SameOff, Adopted, PutRotated;
    RotationRecords(h0, h1, h2, h3, h4, s, k, a, ca, n, b, cb, o, c, u);
    RotationFrames(h0, h3, k, a, ca, n, b, cb, o, u);
  }

  lemma {:induction false} RotationFrames(h0: Shot, h3: Shot, k: Ctx, a: Tree, ca: Color, n: RbNode, b: Tree, cb: Color,
          o: RbNode, u: Tree)
    requires RepAny(h0, a) && RepAny(h0, b) && Rep(h0, u, o) && RepK(h0, k, o) && Sep(k, a, n, b, o, u)
    requires h3.top == h0.top && h3.m.Keys == h0.m.Keys
    requires a.Node? ==> a.x in h0.m && h3.m[a.x] == h0.m[a.x].(parent := n, color := ca)
    requires b.Node? ==> b.x in h0.m && h3.m[b.x] == h0.m[b.x].(parent := o, color := cb)
    requires SameOff(h0, h3, o, n, Head(a), Head(b))
    ensures Rep(h3, Paint(a, ca), n) && Rep(h3, Paint(b, cb), o) && Rep(h3, u, o) && RepK(h3, k, o)
  {
    HeadIn(a); HeadIn(b);
    assert SameBut(h0, h3, Nodes(a), Head(a)) && SameBut(h0, h3, Nodes(b), Head(b));
    assert Same(h0, h3, Nodes(u)) && Same(h0, h3, KNodes(k));
    assert Apart(a) && Apart(b);
    RepMove(h0, h3, a, n, ca);
    RepMove(h0, h3, b, o, cb);
    RepFrame(h0, h3, u, o);
    RepKFrame(h0, h3, k, o);
  }

  lemma {:induction false} RotationDone(h0: Shot, h1: Shot, h2: Shot, h3: Shot, h4: Shot, s: Side, k: Ctx, a: Tree,
          ca: Color, n: RbNode, b: Tree, cb: Color, o: RbNode, c: Color, u: Tree)
    requires RotationRun(h0, h1, h2, h3, h4, s, k, a, ca, n, b, cb, o, c, u)
    ensures RepTree(h4, Plug(k, Lifted(s, Paint(a, ca), n, h0.m[o].color, Paint(b, cb), o, c, u)))
    ensures h4.m.Keys == h0.m.Keys && h4.aug == h3.aug
  {
    RotationTwists(h0, h1, h2, h3, h4, s, k, a, ca, n, b, cb, o, c, u);
    hide RotationRun, Twisted, Sep;
    RotateRep(h3, s, k, Paint(a, ca), n, Paint(b, cb), o, u, c);
    PlugRep(h4, k, Lifted(s, Paint(a, ca), n, h0.m[o].color, Paint(b, cb), o, c, u));
  }

  lemma {:induction false} SepPaint(k: Ctx, a: Tree, ca: Color, n: RbNode, b: Tree, cb: Color, o: RbNode, u: Tree)
    requires Sep(k, a, n, b, o, u)
    ensures Sep(k, Paint(a, ca), n, Paint(b, cb), o, u)
  {
    assert Nodes(Paint(a, ca)) == Nodes(a) && Nodes(Paint(b, cb)) == Nodes(b);
  }

  lemma {:induction false} SameKidsRun(h0: Shot, h1: Shot, h2: Shot, h3: Shot, h4: Shot, s: Side, k: Ctx, a: Tree,
          ca: Color, n: RbNode, b: Tree, cb: Color, o: RbNode, c: Color, u: Tree)
    requires RotationRun(h0, h1, h2, h3, h4, s, k, a, ca, n, b, cb, o, c, u)
    ensures SameKids(h1, h3, n, null) && SameKids(h2, h3, n, null)
  {
    assert Adopted(h2, h3, a, ca, n, b, cb, o);
  }

  lemma {:induction false} RotationKids(h0: Shot, h1: Shot, h2: Shot, h3: Shot, h4: Shot, s: Side, k: Ctx, a: Tree,
          ca: Color, n: RbNode, b: Tree, cb: Color, o: RbNode, c: Color, u: Tree)
    requires RotationRun(h0, h1, h2, h3, h4, s, k, a, ca, n, b, cb, o, c, u)
    ensures OnTheWay(h1, h4, s, k, a, n, b, o) && OnTheWay(h2, h4, s, k, a, n, b, o)
  {
    RotationTwists(h0, h1, h2, h3, h4, s, k, a, ca, n, b, cb, o, c, u);
    assert n != Head(a) && n != Head(b);
    SameKidsRun(h0, h1, h2, h3, h4, s, k, a, ca, n, b, cb, o, c, u);
    assert Kid(h1.m[n], s) == Head(a) && Kid(h1.m[n], Other(s)) == Head(b);
    assert Kid(h2.m[n], s) == Head(a) && Kid(h2.m[n], Other(s)) == o;
    assert h1.m.Keys == h2.m.Keys == h3.m.Keys;
    assert n != o && n in h3.m && o in h3.m && h3.m[o].parent == Up(k) && RepK(h3, k, o);
    assert (h3.m[o].parent != null ==> h3.m[o].parent in h3.m) && h4 == PutRotated(h3, o, n, c);
    assert ApartK(k) && o !in KNodes(k) && n !in KNodes(k);
    TwistOnTheWay(h1, h3, s, k, a, n, b, o, c);
    TwistOnTheWay(h2, h3, s, k, a, n, b, o, c);
  }

  lemma {:induction false} TwistOnTheWay(h: Shot, h3: Shot, s: Side, k: Ctx, a: Tree, n: RbNode, b: Tree, o: RbNode,
          c: Color)
    requires o in h3.m && n in h3.m && n != o && h3.m[o].parent == Up(k) && RepK(h3, k, o)
    requires ApartK(k) && o !in KNodes(k) && n !in KNodes(k)
    requires h.m.Keys == h3.m.Keys && SameKids(h, h3, n, null)
    requires Kid(h.m[n], s) == Head(a) && Kid(h.m[n], Other(s)) in {Head(b), o}
    requires h3.m[o].parent != null ==> h3.m[o].parent in h3.m
    ensures OnTheWay(h, PutRotated(h3, o, n, c), s, k, a, n, b, o)
  {
    UpIn(k);
    RotatedRecords(h3, k, n, o, c);
    RotatedKids(h3, PutRotated(h3, o, n, c), n, o, Up(k));
  }

  lemma {:induction false} UpIn(k: Ctx)
    ensures k.In? ==> k.x in KNodes(k)
  {}

  /** The child pointers of all nodes but two are the same. */
  ghost predicate SameKids(g: Shot, h: Shot, p: RbNode?, q: RbNode?) {
    forall x :: x in g.m && x != p && x != q ==> x in h.m && g.m[x].left == h.m[x].left && g.m[x].right == h.m[x].right
  }

  lemma {:induction false} KidsPutPC(h: Shot, x: RbNode, p: RbNode?, c: Color)
    requires x in h.m
    ensures SameKids(h, PutParentColor(h, x, p, c), null, null) && SameKids(h, PutParent(h, x, p), null, null)
  {}

  lemma {:induction false} KidsPutKid(h: Shot, x: RbNode, s: Side, y: RbNode?)
    requires x in h.m
    ensures SameKids(h, PutKid(h, x, s, y), x, null)
  {}

  lemma {:induction false} KidsTrans(f: Shot, g: Shot, h: Shot)
    requires SameKids(f, g, null, null) && SameKids(g, h, null, null)
    ensures SameKids(f, h, null, null)
  {}

  lemma {:induction false} RotatedKids(g: Shot, h: Shot, n: RbNode, o: RbNode, up: RbNode?)
    requires n in g.m && o in g.m && n in h.m && o in h.m && SameOff(g, h, o, n, up, null)
    requires h.m[o].left == g.m[o].left && h.m[o].right == g.m[o].right
    requires h.m[n].left == g.m[n].left && h.m[n].right == g.m[n].right
    ensures SameKids(g, h, up, null)
  {}

  lemma {:induction false} RotationLoopless(h0: Shot, h1: Shot, h2: Shot, h3: Shot, h4: Shot, s: Side, k: Ctx, a: Tree,
          ca: Color, n: RbNode, b: Tree, cb: Color, o: RbNode, c: Color, u: Tree)
    requires RotationRun(h0, h1, h2, h3, h4, s, k, a, ca, n, b, cb, o, c, u)
    requires h0.m.Keys == Nodes(Plug(k, Lifted(s, Paint(a, ca), n, h0.m[o].color, Paint(b, cb), o, c, u)))
    ensures Loopless(h1) && Loopless(h2) && Loopless(h4)
  {
    RotationDone(h0, h1, h2, h3, h4, s, k, a, ca, n, b, cb, o, c, u);
    RotationKids(h0, h1, h2, h3, h4, s, k, a, ca, n, b, cb, o, c, u);
    var a', b', nc := Paint(a, ca), Paint(b, cb), h0.m[o].color;
    SepPaint(k, a, ca, n, b, cb, o, u);
    assert Head(a') == Head(a) && Head(b') == Head(b);
    assert OnTheWay(h1, h4, s, k, a', n, b', o) && OnTheWay(h2, h4, s, k, a', n, b', o);
    SepLifted(s, k, a', n, nc, b', o, c, u);
    RotateLoopless(h1, h4, s, k, a', n, nc, b', o, c, u);
    RotateLoopless(h2, h4, s, k, a', n, nc, b', o, c, u);
    TreeLoopless(h4, Plug(k, Lifted(s, a', n, nc, b', o, c, u)));
  }

  // ---- augmented values ----

  /** The stores of rbname_rotate(was, now), when there are callbacks. */
  function PutAugRotated(h: Shot, was: RbNode, now: RbNode, augment: Option<Compute>): Shot
    requires was in h.m && was in h.aug
  {
    match augment
    case None => h
    case Some(f) =>
      var g := PutAug(h, now, h.aug[was]);
      PutAug(g, was, Computed(g, was, f))
  }

  lemma {:induction false} MkAug(h: Shot, s: Side, near: Tree, x: RbNode, c: Color, far: Tree, f: Compute)
    ensures Agg(Mk(s, near, x, c, far), f) ==
      Some(if s.L? then f(Agg(near, f), x.val, Agg(far, f)) else f(Agg(far, f), x.val, Agg(near, f)))
    ensures AugOk(h, Mk(s, near, x, c, far), f) <==>
      AugOf(h, x) == Agg(Mk(s, near, x, c, far), f) && AugOk(h, near, f) && AugOk(h, far, f)
  {}

  lemma {:induction false} AugHead(h: Shot, t: Tree, f: Compute)
    requires AugOk(h, t, f)
    ensures AugOf(h, Head(t)) == Agg(t, f)
  {}

  /** Recomputing only the node that went down is enough, for a fold that does not see the shape. */
  lemma {:induction false} LowerAug(h: Shot, f: Compute, s: Side, k: Ctx, a: Tree, n: RbNode, nc: Color, b: Tree,
          o: RbNode, oc: Color, u: Tree)
    ensures AugOk(h, Plug(k, Lower(s, a, n, nc, b, o, oc, u)), f) <==>
      AugPieces(h, f, k, a, b, u, Agg(Lower(s, a, n, nc, b, o, oc, u), f)) &&
      AugOf(h, o) == Agg(Lower(s, a, n, nc, b, o, oc, u), f) && AugOf(h, n) == Agg(Mk(s, a, n, nc, b), f)
  {
    hide AugOk, AugK, Agg, Plug;
    PlugAug(h, k, Lower(s, a, n, nc, b, o, oc, u), f);
    MkAug(h, s, Mk(s, a, n, nc, b), o, oc, u, f); MkAug(h, s, a, n, nc, b, f);
  }

  lemma {:induction false} LiftedAug(h: Shot, f: Compute, s: Side, k: Ctx, a: Tree, n: RbNode, nc: Color, b: Tree,
          o: RbNode, oc: Color, u: Tree)
    ensures AugOk(h, Plug(k, Lifted(s, a, n, nc, b, o, oc, u)), f) <==>
      AugPieces(h, f, k, a, b, u, Agg(Lifted(s, a, n, nc, b, o, oc, u), f)) &&
      AugOf(h, n) == Agg(Lifted(s, a, n, nc, b, o, oc, u), f) && AugOf(h, o) == Agg(Mk(s, b, o, oc, u), f)
  {
    hide AugOk, AugK, Agg, Plug;
    PlugAug(h, k, Lifted(s, a, n, nc, b, o, oc, u), f);
    MkAug(h, s, a, n, nc, Mk(s, b, o, oc, u), f); MkAug(h, s, b, o, oc, u, f);
  }

  ghost predicate AugPieces(h: Shot, f: Compute, k: Ctx, a: Tree, b: Tree, u: Tree, v: Option<Aug>) {
    AugK(h, k, f, v) && AugOk(h, a, f) && AugOk(h, b, f) && AugOk(h, u, f)
  }

  lemma {:induction false} LiftAgg(f: Compute, s: Side, a: Tree, n: RbNode, nc: Color, nc': Color, b: Tree, o: RbNode,
          oc: Color, oc': Color, u: Tree)
    requires Associative(f)
    ensures Agg(Lower(s, a, n, nc, b, o, oc, u), f) == Agg(Lifted(s, a, n, nc', b, o, oc', u), f)
  {}

  lemma {:induction false} AugPiecesFrame(h: Shot, g: Shot, f: Compute, k: Ctx, a: Tree, n: RbNode, b: Tree, o: RbNode,
          u: Tree, v: Option<Aug>)
    requires AugPieces(h, f, k, a, b, u, v) && Sep(k, a, n, b, o, u)
    requires forall x :: x != n && x != o ==> AugOf(h, x) == AugOf(g, x)
    ensures AugPieces(g, f, k, a, b, u, v)
  {
    hide AugOk, AugK, Agg, Nodes, KNodes, Apart, ApartK;
    AugFrame(h, g, a, f); AugFrame(h, g, b, f); AugFrame(h, g, u, f);
    AugKFrame(h, g, k, f, v);
  }

  lemma {:induction false} RotateAug(h: Shot, f: Compute, s: Side, k: Ctx, a: Tree, n: RbNode, nc: Color, nc': Color,
          b: Tree, o: RbNode, oc: Color, oc': Color, u: Tree)
    requires Associative(f) && Sep(k, a, n, b, o, u)
    requires AugOk(h, Plug(k, Lower(s, a, n, nc, b, o, oc, u)), f)
    requires o in h.m && Kid(h.m[o], s) == Head(b) && Kid(h.m[o], Other(s)) == Head(u) && o in h.aug
    ensures AugOk(PutAugRotated(h, o, n, Some(f)), Plug(k, Lifted(s, a, n, nc', b, o, oc', u)), f)
  {
    hide AugOk, AugK, Agg, Nodes, KNodes, Apart, ApartK, Plug;
    var t := Lower(s, a, n, nc, b, o, oc, u);
    var g := PutAugRotated(h, o, n, Some(f));
    LowerAug(h, f, s, k, a, n, nc, b, o, oc, u);
    LiftedAug(g, f, s, k, a, n, nc', b, o, oc', u);
    LiftAgg(f, s, a, n, nc, nc', b, o, oc, oc', u);
    AugPiecesFrame(h, g, f, k, a, n, b, o, u, Agg(t, f));
    MkAug(g, s, b, o, oc', u, f);
    AugHead(h, b, f); AugHead(h, u, f);
    HeadIn(b); HeadIn(u);
  }

  lemma {:induction false} HeadIn(t: Tree)
    ensures t.Node? ==> Head(t) in Nodes(t)
  {}
}
