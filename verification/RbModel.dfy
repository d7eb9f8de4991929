/** The red-black tree as a value: nodes, shapes, contexts and the invariants of rbtree.c:34-47. */
module RbModel {
  import opened Seqs

  /** What a client stores in the structure that embeds an rb_node; only comparators look inside. */
  type Val(!new)

  /** The augmented value a client keeps per node. */
  type Aug(==, !new)

  datatype Option<T> = None | Some(value: T)

  datatype Color = Red | Black

  /** struct rb_node, with __rb_parent_color split into its two parts. */
  class RbNode {
    const val: Val
    var left: RbNode?
    var right: RbNode?
    var parent: RbNode?
    var color: Color
    var aug: Aug

    /** A node that RB_CLEAR_NODE has marked as being in no tree. */
    constructor (val: Val, aug: Aug)
      ensures this.val == val && this.aug == aug && parent == this
    {
      this.val, this.aug := val, aug;
      left, right, parent, color := null, null, this, Red;
    }
  }

  datatype Tree = Leaf | Node(l: Tree, x: RbNode, c: Color, r: Tree)

  datatype Side = L | R

  /** A tree with one subtree missing: the path from the hole up to the root. */
  datatype Ctx = Top | In(s: Side, x: RbNode, c: Color, far: Tree, up: Ctx)

  function Other(s: Side): Side { if s.L? then R else L }

  /** The tree at x with `near` on side s and `far` on the other one. */
  function Mk(s: Side, near: Tree, x: RbNode, c: Color, far: Tree): Tree {
    if s.L? then Node(near, x, c, far) else Node(far, x, c, near)
  }

  function Plug(k: Ctx, t: Tree): Tree {
    match k
    case Top => t
    case In(s, x, c, far, up) => Plug(up, Mk(s, t, x, c, far))
  }

  function Head(t: Tree): RbNode? { if t.Leaf? then null else t.x }

  /** The node right above the hole. */
  function Up(k: Ctx): RbNode? { if k.Top? then null else k.x }

  function Paint(t: Tree, c: Color): Tree { if t.Leaf? then Leaf else t.(c := c) }

  function Depth(k: Ctx): nat { if k.Top? then 0 else 1 + Depth(k.up) }

  // ---- contents ----

  ghost function Nodes(t: Tree): set<RbNode> {
    match t
    case Leaf => {}
    case Node(l, x, _, r) => Nodes(l) + {x} + Nodes(r)
  }

  ghost function KNodes(k: Ctx): set<RbNode> {
    match k
    case Top => {}
    case In(_, x, _, far, up) => {x} + Nodes(far) + KNodes(up)
  }

  function Inorder(t: Tree): seq<RbNode> {
    match t
    case Leaf => []
    case Node(l, x, _, r) => Inorder(l) + [x] + Inorder(r)
  }

  /** What comes before the hole in order. */
  function Before(k: Ctx): seq<RbNode> {
    match k
    case Top => []
    case In(s, x, _, far, up) => if s.L? then Before(up) else Before(up) + Inorder(far) + [x]
  }

  /** What comes after the hole in order. */
  function After(k: Ctx): seq<RbNode> {
    match k
    case Top => []
    case In(s, x, _, far, up) => if s.L? then [x] + Inorder(far) + After(up) else After(up)
  }

  /** No node occurs twice. */
  ghost predicate Apart(t: Tree) {
    match t
    case Leaf => true
    case Node(l, x, _, r) =>
      Apart(l) && Apart(r) && x !in Nodes(l) && x !in Nodes(r) && Nodes(l) !! Nodes(r)
  }

  ghost predicate ApartK(k: Ctx) {
    match k
    case Top => true
    case In(_, x, _, far, up) =>
      Apart(far) && ApartK(up) && x !in Nodes(far) && x !in KNodes(up) && Nodes(far) !! KNodes(up)
  }

  lemma {:induction false} PlugNodes(k: Ctx, t: Tree)
    ensures Nodes(Plug(k, t)) == KNodes(k) + Nodes(t)
  {
    if k.In? { PlugNodes(k.up, Mk(k.s, t, k.x, k.c, k.far)); }
  }

  lemma {:induction false} PlugApart(k: Ctx, t: Tree)
    ensures Apart(Plug(k, t)) <==> ApartK(k) && Apart(t) && KNodes(k) !! Nodes(t)
  {
    if k.In? { PlugApart(k.up, Mk(k.s, t, k.x, k.c, k.far)); }
  }

  lemma {:induction false} PlugInorder(k: Ctx, t: Tree)
    ensures Inorder(Plug(k, t)) == Before(k) + Inorder(t) + After(k)
  {
    if k.In? { PlugInorder(k.up, Mk(k.s, t, k.x, k.c, k.far)); }
  }

  lemma {:induction false} InorderNodes(t: Tree)
    ensures forall n :: n in Inorder(t) ==> n in Nodes(t)
    ensures forall n :: n in Nodes(t) ==> n in Inorder(t)
  {
    if t.Node? { InorderNodes(t.l); InorderNodes(t.r); }
  }

  lemma {:induction false} ApartNoDup(t: Tree)
    requires Apart(t)
    ensures NoDup(Inorder(t))
  {
    if t.Node? {
      ApartNoDup(t.l); ApartNoDup(t.r);
      InorderNodes(t.l); InorderNodes(t.r);
      var a, b := Inorder(t.l), Inorder(t.r);
      NoDupConcat(a, [t.x]);
      NoDupConcat(a + [t.x], b);
    }
  }

  /** Finds the position of a node. */
  lemma {:induction false} Locate(k0: Ctx, t: Tree, n: RbNode) returns (k: Ctx, sub: Tree)
    requires n in Nodes(t)
    ensures Plug(k, sub) == Plug(k0, t) && sub.Node? && sub.x == n
    decreases t
  {
    if t.x == n {
      k, sub := k0, t;
    } else if n in Nodes(t.l) {
      k, sub := Locate(In(L, t.x, t.c, t.r, k0), t.l, n);
    } else {
      k, sub := Locate(In(R, t.x, t.c, t.l, k0), t.r, n);
    }
  }

  // ---- augmented values ----

  /** rbcompute: a node's value from its left child's, its own payload and its right child's. */
  type Compute = (Option<Aug>, Val, Option<Aug>) -> Aug

  /** The value depends on the in-order sequence below a node only, not on the shape. */
  ghost predicate Associative(f: Compute) {
    forall a, v, b, w, c :: f(Some(f(a, v, b)), w, c) == f(a, v, Some(f(b, w, c)))
  }

  function Agg(t: Tree, f: Compute): Option<Aug> {
    match t
    case Leaf => None
    case Node(l, x, _, r) => Some(f(Agg(l, f), x.val, Agg(r, f)))
  }

  // ---- colour invariants ----

  predicate Blk(t: Tree) { t.Leaf? || t.c.Black? }

  /** Properties 4 and 5: red nodes have black children, and every path to a leaf has h black nodes. */
  predicate RB(t: Tree, h: nat) {
    match t
    case Leaf => h == 0
    case Node(l, _, Red, r) => Blk(l) && Blk(r) && RB(l, h) && RB(r, h)
    case Node(l, _, Black, r) => h > 0 && RB(l, h - 1) && RB(r, h - 1)
  }

  /** The tree is a red-black tree: property 2 on top of 4 and 5. */
  ghost predicate IsRB(t: Tree) { Blk(t) && exists h: nat :: RB(t, h) }

  /** The context is red-black once the hole holds a black tree with h black nodes on every path. */
  predicate RBK(k: Ctx, h: nat) {
    match k
    case Top => true
    case In(_, _, Red, far, up) => RB(far, h) && Blk(far) && up.In? && up.c.Black? && RBK(up, h)
    case In(_, _, Black, far, up) => RB(far, h) && RBK(up, h + 1)
  }

  /** A red tree may only hang under a black node. */
  predicate Fits(k: Ctx, t: Tree) { Blk(t) || (k.In? && k.c.Black?) }

  function Rise(h: nat, c: Color): nat { if c.Black? then h + 1 else h }

  lemma {:induction false} PlugRB(k: Ctx, t: Tree, h: nat)
    requires RBK(k, h) && RB(t, h) && Fits(k, t)
    ensures IsRB(Plug(k, t))
  {
    if k.In? { PlugRB(k.up, Mk(k.s, t, k.x, k.c, k.far), Rise(h, k.c)); }
  }

  lemma {:induction false} UnplugRB(k: Ctx, t: Tree) returns (h: nat)
    requires IsRB(Plug(k, t))
    ensures RBK(k, h) && RB(t, h) && Fits(k, t)
  {
    if k.Top? {
      h :| RB(t, h);
    } else {
      var h' := UnplugRB(k.up, Mk(k.s, t, k.x, k.c, k.far));
      h := if k.c.Black? then h' - 1 else h';
    }
  }
}
