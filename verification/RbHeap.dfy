/** The red-black tree in memory: the root object, its primitive stores, and what a snapshot of memory represents. */
module RbHeap {
  import opened RbModel

  datatype Rec = Rec(left: RbNode?, right: RbNode?, parent: RbNode?, color: Color)

  /** A snapshot of memory: the root pointer and the fields of the nodes in play. */
  datatype Shot = Shot(top: RbNode?, m: map<RbNode, Rec>, aug: map<RbNode, Aug>)

  function Kid(r: Rec, s: Side): RbNode? { if s.L? then r.left else r.right }

  /** The record whose child on side s is `near`. */
  function MkRec(s: Side, near: RbNode?, far: RbNode?, parent: RbNode?, c: Color): Rec {
    if s.L? then Rec(near, far, parent, c) else Rec(far, near, parent, c)
  }

  function WithKid(r: Rec, s: Side, y: RbNode?): Rec {
    if s.L? then r.(left := y) else r.(right := y)
  }

  // ---- one store each ----

  /** The field that a side names. */
  function ChildOf(x: RbNode, s: Side): RbNode?
    reads x`left, x`right
  {
    if s.L? then x.left else x.right
  }

  function PutTop(h: Shot, y: RbNode?): Shot { h.(top := y) }

  function PutKid(h: Shot, x: RbNode, s: Side, y: RbNode?): Shot
    requires x in h.m
  {
    h.(m := h.m[x := WithKid(h.m[x], s, y)])
  }

  function PutParent(h: Shot, x: RbNode, p: RbNode?): Shot
    requires x in h.m
  {
    h.(m := h.m[x := h.m[x].(parent := p)])
  }

  function PutColor(h: Shot, x: RbNode, c: Color): Shot
    requires x in h.m
  {
    h.(m := h.m[x := h.m[x].(color := c)])
  }

  function PutParentColor(h: Shot, x: RbNode, p: RbNode?, c: Color): Shot
    requires x in h.m
  {
    h.(m := h.m[x := h.m[x].(parent := p, color := c)])
  }

  function PutNew(h: Shot, x: RbNode, r: Rec, a: Aug): Shot {
    Shot(h.top, h.m[x := r], h.aug[x := a])
  }

  function PutAug(h: Shot, x: RbNode, a: Aug): Shot {
    h.(aug := h.aug[x := a])
  }

  /** The slot that points at `was`: a child slot of its parent, or the root pointer. */
  function PutChild(h: Shot, was: RbNode, now: RbNode?, parent: RbNode?): Shot
    requires parent != null ==> parent in h.m
  {
    if parent == null then PutTop(h, now)
    else if h.m[parent].left == was then PutKid(h, parent, L, now)
    else PutKid(h, parent, R, now)
  }

  // ---- what memory represents ----

  /** Memory at the subtree under parent p is exactly t. */
  ghost predicate Rep(h: Shot, t: Tree, p: RbNode?) {
    match t
    case Leaf => true
    case Node(l, x, c, r) =>
      x in h.m && h.m[x] == Rec(Head(l), Head(r), p, c) && Rep(h, l, x) && Rep(h, r, x)
  }

  /** Memory around the hole is exactly k, and the slot of the hole holds `y`. */
  ghost predicate RepK(h: Shot, k: Ctx, y: RbNode?) {
    match k
    case Top => h.top == y
    case In(s, x, c, far, up) =>
      x in h.m && h.m[x] == MkRec(s, y, Head(far), Up(up), c) && Rep(h, far, x) && RepK(h, up, x)
  }

  ghost predicate RepTree(h: Shot, t: Tree) { h.top == Head(t) && Rep(h, t, null) }

  lemma {:induction false} PlugRep(h: Shot, k: Ctx, t: Tree)
    ensures RepTree(h, Plug(k, t)) <==> RepK(h, k, Head(t)) && Rep(h, t, Up(k))
  {
    if k.In? { PlugRep(h, k.up, Mk(k.s, t, k.x, k.c, k.far)); }
  }

  lemma {:induction false} RepIn(h: Shot, t: Tree, p: RbNode?)
    requires Rep(h, t, p)
    ensures Nodes(t) <= h.m.Keys
  {
    if t.Node? { RepIn(h, t.l, t.x); RepIn(h, t.r, t.x); }
  }

  lemma {:induction false} RepKIn(h: Shot, k: Ctx, y: RbNode?)
    requires RepK(h, k, y)
    ensures KNodes(k) <= h.m.Keys
  {
    if k.In? { RepIn(h, k.far, k.x); RepKIn(h, k.up, k.x); }
  }

  /** The links of the nodes in S are the same in both snapshots. */
  ghost predicate Same(g: Shot, h: Shot, S: set<RbNode>) {
    forall n :: n in S && n in g.m ==> n in h.m && h.m[n] == g.m[n]
  }

  /** The same, for all nodes of S but one. */
  ghost predicate SameBut(g: Shot, h: Shot, S: set<RbNode>, p: RbNode?) {
    forall n :: n in S && n != p && n in g.m ==> n in h.m && h.m[n] == g.m[n]
  }

  /** The links of all nodes but four are the same in both snapshots. */
  ghost predicate SameOff(g: Shot, h: Shot, p: RbNode?, q: RbNode?, r: RbNode?, s: RbNode?) {
    forall n :: n in g.m && n != p && n != q && n != r && n != s ==> n in h.m && h.m[n] == g.m[n]
  }

  lemma {:induction false} OffSame(g: Shot, h: Shot, p: RbNode?, q: RbNode?, r: RbNode?, s: RbNode?, S: set<RbNode>)
    requires SameOff(g, h, p, q, r, s) && p !in S && q !in S && r !in S && s !in S
    ensures Same(g, h, S)
  {}

  lemma {:induction false} RepFrame(g: Shot, h: Shot, t: Tree, p: RbNode?)
    requires Rep(g, t, p) && Same(g, h, Nodes(t))
    ensures Rep(h, t, p)
  {
    if t.Node? { RepFrame(g, h, t.l, t.x); RepFrame(g, h, t.r, t.x); }
  }

  /** Memory holds t, except that nothing is known about the parent and colour stored in its root. */
  ghost predicate RepAny(h: Shot, t: Tree) {
    t.Node? ==>
      t.x in h.m && h.m[t.x].left == Head(t.l) && h.m[t.x].right == Head(t.r) && Rep(h, t.l, t.x) && Rep(h, t.r, t.x)
  }

  lemma {:induction false} RepIsAny(h: Shot, t: Tree, p: RbNode?)
    requires Rep(h, t, p)
    ensures RepAny(h, t)
  {}

  /** A subtree whose root gets a new parent and colour. */
  lemma {:induction false} RepMove(g: Shot, h: Shot, t: Tree, p: RbNode?, c: Color)
    requires RepAny(g, t) && Apart(t)
    requires t.Node? ==> t.x in h.m && h.m[t.x] == g.m[t.x].(parent := p, color := c)
    requires SameBut(g, h, Nodes(t), Head(t))
    ensures Rep(h, Paint(t, c), p)
  {
    if t.Node? { RepFrame(g, h, t.l, t.x); RepFrame(g, h, t.r, t.x); }
  }

  lemma {:induction false} RepAnyFrame(g: Shot, h: Shot, t: Tree)
    requires RepAny(g, t) && Same(g, h, Nodes(t))
    ensures RepAny(h, t)
  {
    if t.Node? { RepFrame(g, h, t.l, t.x); RepFrame(g, h, t.r, t.x); }
  }

  /** The context around a hole whose slot gets a new value. */
  lemma {:induction false} RepKMove(g: Shot, h: Shot, k: Ctx, y: RbNode?, z: RbNode?)
    requires RepK(g, k, y) && ApartK(k)
    requires k.Top? ==> h.top == z
    requires k.In? ==> h.top == g.top && k.x in h.m && h.m[k.x] == WithKid(g.m[k.x], k.s, z)
    requires SameBut(g, h, KNodes(k), Up(k))
    ensures RepK(h, k, z)
  {
    if k.In? {
      RepFrame(g, h, k.far, k.x);
      RepKFrame(g, h, k.up, k.x);
    }
  }

  lemma {:induction false} RepKFrame(g: Shot, h: Shot, k: Ctx, y: RbNode?)
    requires RepK(g, k, y) && g.top == h.top && Same(g, h, KNodes(k))
    ensures RepK(h, k, y)
  {
    if k.In? {
      RepFrame(g, h, k.far, k.x);
      RepKFrame(g, h, k.up, k.x);
    }
  }

  // ---- augmented values in memory ----

  function AugOf(h: Shot, x: RbNode?): Option<Aug> {
    if x != null && x in h.aug then Some(h.aug[x]) else None
  }

  /** What rbcompute(x) returns. */
  function Computed(h: Shot, x: RbNode, f: Compute): Aug
    requires x in h.m
  {
    f(AugOf(h, h.m[x].left), x.val, AugOf(h, h.m[x].right))
  }

  /** Every node of t stores the fold of its subtree. */
  ghost predicate AugOk(h: Shot, t: Tree, f: Compute) {
    match t
    case Leaf => true
    case Node(l, x, _, r) => AugOf(h, x) == Agg(t, f) && AugOk(h, l, f) && AugOk(h, r, f)
  }

  /** Every node of k stores the right value as long as the hole folds to v. */
  ghost predicate AugK(h: Shot, k: Ctx, f: Compute, v: Option<Aug>) {
    match k
    case Top => true
    case In(s, x, _, far, up) =>
      var w := Some(if s.L? then f(v, x.val, Agg(far, f)) else f(Agg(far, f), x.val, v));
      AugOf(h, x) == w && AugOk(h, far, f) && AugK(h, up, f, w)
  }

  lemma {:induction false} PlugAug(h: Shot, k: Ctx, t: Tree, f: Compute)
    ensures AugOk(h, Plug(k, t), f) <==> AugK(h, k, f, Agg(t, f)) && AugOk(h, t, f)
  {
    if k.In? { PlugAug(h, k.up, Mk(k.s, t, k.x, k.c, k.far), f); }
  }

  ghost predicate SameAug(g: Shot, h: Shot, S: set<RbNode>) {
    forall n :: n in S ==> AugOf(h, n) == AugOf(g, n)
  }

  lemma {:induction false} AugFrame(g: Shot, h: Shot, t: Tree, f: Compute)
    requires AugOk(g, t, f) && SameAug(g, h, Nodes(t))
    ensures AugOk(h, t, f)
  {
    if t.Node? { AugFrame(g, h, t.l, f); AugFrame(g, h, t.r, f); }
  }

  lemma {:induction false} AugKFrame(g: Shot, h: Shot, k: Ctx, f: Compute, v: Option<Aug>)
    requires AugK(g, k, f, v) && SameAug(g, h, KNodes(k))
    ensures AugK(h, k, f, v)
  {
    if k.In? {
      AugFrame(g, h, k.far, f);
      AugKFrame(g, h, k.up, f, AugOf(g, k.x));
    }
  }

  // ---- loops in the child pointers ----

  /** Following child pointers from n only meets valid nodes and ends within `fuel` steps. */
  ghost predicate Finishes(h: Shot, n: RbNode?, fuel: nat) {
    n == null ||
    (n in h.m && fuel > 0 && Finishes(h, h.m[n].left, fuel - 1) && Finishes(h, h.m[n].right, fuel - 1))
  }

  /** No descent that starts at any node in the snapshot can go on for ever. */
  ghost predicate Loopless(h: Shot) {
    exists fuel: nat :: AllFinish(h, fuel)
  }

  ghost predicate AllFinish(h: Shot, fuel: nat) { forall n :: n in h.m ==> Finishes(h, n, fuel) }

  function Size(t: Tree): nat { if t.Leaf? then 0 else 1 + Size(t.l) + Size(t.r) }

  /** The size of the subtree at n. */
  ghost function SizeAt(t: Tree, n: RbNode?): nat {
    match t
    case Leaf => 0
    case Node(l, x, _, r) => if n == x then Size(t) else if n in Nodes(l) then SizeAt(l, n) else SizeAt(r, n)
  }

  /** Ranks the nodes of t by size, and a node `gone` that is on its way out just above `heir`. */
  ghost function Rank(t: Tree, gone: RbNode?, heir: RbNode?, n: RbNode?): nat {
    if n == null then 0 else if n == gone then 2 * SizeAt(t, heir) + 1 else 2 * SizeAt(t, n)
  }

  ghost predicate Below(h: Shot, t: Tree, gone: RbNode?, heir: RbNode?, n: RbNode, y: RbNode?) {
    y == null || (y in h.m && Rank(t, gone, heir, y) < Rank(t, gone, heir, n))
  }

  lemma {:induction false} SizeAtBound(t: Tree, n: RbNode?)
    ensures SizeAt(t, n) <= Size(t)
    ensures n in Nodes(t) ==> SizeAt(t, n) > 0
    ensures n !in Nodes(t) ==> SizeAt(t, n) == 0
  {
    if t.Node? { SizeAtBound(t.l, n); SizeAtBound(t.r, n); }
  }

  lemma {:induction false} SizePlug(k: Ctx, t: Tree)
    requires Apart(Plug(k, t))
    ensures forall n :: n in Nodes(t) ==> SizeAt(Plug(k, t), n) == SizeAt(t, n)
    ensures k.In? ==> SizeAt(Plug(k, t), k.x) > Size(t)
  {
    if k.In? {
      var u := Mk(k.s, t, k.x, k.c, k.far);
      SizePlug(k.up, u);
      PlugApart(k.up, u);
    }
  }

  lemma {:induction false} RankedFinishes(h: Shot, t: Tree, gone: RbNode?, heir: RbNode?, n: RbNode, fuel: nat)
    requires forall m :: m in h.m ==>
      Below(h, t, gone, heir, m, h.m[m].left) && Below(h, t, gone, heir, m, h.m[m].right)
    requires n in h.m && Rank(t, gone, heir, n) < fuel
    ensures Finishes(h, n, fuel)
    decreases fuel
  {
    assert Below(h, t, gone, heir, n, h.m[n].left) && Below(h, t, gone, heir, n, h.m[n].right);
    if h.m[n].left != null { RankedFinishes(h, t, gone, heir, h.m[n].left, fuel - 1); }
    if h.m[n].right != null { RankedFinishes(h, t, gone, heir, h.m[n].right, fuel - 1); }
  }

  lemma {:induction false} RepRanked(h: Shot, t: Tree, p: RbNode?)
    requires Rep(h, t, p) && Apart(t)
    ensures forall n, s :: n in Nodes(t) && n in h.m ==>
      var y := Kid(h.m[n], s); y == null || (y in Nodes(t) && SizeAt(t, y) < SizeAt(t, n))
  {
    if t.Node? {
      RepRanked(h, t.l, t.x); RepRanked(h, t.r, t.x);
      SizeAtBound(t.l, Head(t.l)); SizeAtBound(t.r, Head(t.r));
    }
  }

  /** A snapshot whose child pointers are those of a represented tree, up to some that point down in rank. */
  lemma {:induction false} NearLoopless(h: Shot, g: Shot, t: Tree, gone: RbNode?, heir: RbNode?)
    requires RepTree(g, t) && Apart(t)
    requires gone !in Nodes(t)
    requires forall n :: n in Nodes(t) ==> n in h.m
    requires forall n :: n in h.m ==> n in Nodes(t) || n == gone
    requires forall n, s :: n in h.m ==>
      (n in Nodes(t) && n in g.m && Kid(h.m[n], s) == Kid(g.m[n], s)) || Below(h, t, gone, heir, n, Kid(h.m[n], s))
    ensures Loopless(h)
  {
    RepRanked(g, t, null);
    RepIn(g, t, null);
    forall n, s | n in h.m ensures Below(h, t, gone, heir, n, Kid(h.m[n], s)) {}
    var fuel := 2 * Size(t) + 2;
    forall n | n in h.m ensures Finishes(h, n, fuel) {
      assert Below(h, t, gone, heir, n, Kid(h.m[n], L)) && Below(h, t, gone, heir, n, Kid(h.m[n], R));
      SizeAtBound(t, n); SizeAtBound(t, heir);
      forall m | m in h.m ensures Below(h, t, gone, heir, m, h.m[m].left) && Below(h, t, gone, heir, m, h.m[m].right) {
        assert Below(h, t, gone, heir, m, Kid(h.m[m], L)) && Below(h, t, gone, heir, m, Kid(h.m[m], R));
      }
      RankedFinishes(h, t, gone, heir, n, fuel);
    }
    assert AllFinish(h, fuel);
  }

  lemma {:induction false} TreeLoopless(g: Shot, t: Tree)
    requires RepTree(g, t) && Apart(t) && g.m.Keys == Nodes(t)
    ensures Loopless(g)
  {
    NearLoopless(g, g, t, null, null);
  }

  ghost predicate AllLoopless(log: seq<Shot>) { forall i :: 0 <= i < |log| ==> Loopless(log[i]) }

  /** The log goes on without loops, with snapshots of the nodes of S. */
  ghost predicate Grows(log: seq<Shot>, log': seq<Shot>, S: set<RbNode>) {
    log <= log' && AllLoopless(log') && forall i :: |log| <= i < |log'| ==> log'[i].m.Keys == S
  }

  lemma {:induction false} GrowsMeans(log: seq<Shot>, log': seq<Shot>, S: set<RbNode>)
    requires Grows(log, log', S)
    ensures log <= log' && AllLoopless(log')
  {}

  lemma {:induction false} GrowsNot(log: seq<Shot>, S: set<RbNode>)
    requires AllLoopless(log)
    ensures Grows(log, log, S)
  {}

  lemma {:induction false} GrowsOn(log: seq<Shot>, mid: seq<Shot>, log': seq<Shot>, S: set<RbNode>)
    requires Grows(log, mid, S) && Grows(mid, log', S)
    ensures Grows(log, log', S)
  {
    hide AllLoopless;
    forall i | |log| <= i < |log'| ensures log'[i].m.Keys == S { if i < |mid| { assert log'[i] == mid[i]; } }
  }

  // ---- one store at a time ----

  /** On the nodes in both snapshots, no child slot differs but perhaps the one on side s of x. */
  ghost predicate SlotsBut(g: Shot, h: Shot, x: RbNode?, s: Side) {
    forall n, z :: n in g.m && n in h.m && !(n == x && z == s) ==> Kid(g.m[n], z) == Kid(h.m[n], z)
  }

  /** The root pointer and all child slots agree. */
  ghost predicate SameSlots(g: Shot, h: Shot) { g.top == h.top && SlotsBut(g, h, null, L) }

  /** At most the root pointer or one child slot differs: one store leads from g to h. */
  ghost predicate OneStore(g: Shot, h: Shot) {
    SlotsBut(g, h, null, L) || (g.top == h.top && exists x, s :: x in g.m && SlotsBut(g, h, x, s))
  }

  lemma {:induction false} OneStoreIs(g: Shot, h: Shot, x: RbNode?, s: Side)
    requires SlotsBut(g, h, x, s) && (x == null || g.top == h.top)
    ensures OneStore(g, h)
  {
    if x == null || x !in g.m { assert SlotsBut(g, h, null, L); }
  }

  /** What comes before position i of the log: g at first. */
  ghost function Prior(g: Shot, log: seq<Shot>, i: nat): Shot
    requires i <= |log|
  {
    if i == 0 then g else log[i - 1]
  }

  /** The snapshots lead from g to h one store at a time, and leave none out. */
  ghost predicate Steps(g: Shot, log: seq<Shot>, h: Shot) {
    && (forall i :: 0 <= i < |log| ==> OneStore(Prior(g, log, i), log[i]))
    && SameSlots(Prior(g, log, |log|), h)
  }

  lemma {:induction false} SameSelf(h: Shot)
    ensures SameSlots(h, h)
  {}

  lemma {:induction false} NewSlots(h: Shot, x: RbNode, r: Rec, a: Aug)
    requires x !in h.m
    ensures SameSlots(h, PutNew(h, x, r, a)) && h.m.Keys <= PutNew(h, x, r, a).m.Keys
  {}

  lemma {:induction false} KidSlot(h: Shot, x: RbNode, s: Side, y: RbNode?)
    requires x in h.m
    ensures SlotsBut(h, PutKid(h, x, s, y), x, s)
  {}

  lemma {:induction false} StepsNone(g: Shot)
    ensures Steps(g, [], g)
  {}

  lemma {:induction false} StepsStore(g: Shot, log: seq<Shot>, h: Shot, i: Shot, x: RbNode?, s: Side)
    requires Steps(g, log, h) && SlotsBut(h, i, x, s) && (x == null || h.top == i.top) && i.m.Keys == h.m.Keys
    ensures Steps(g, log + [i], i)
  {
    var last := Prior(g, log, |log|);
    assert SlotsBut(last, i, x, s);
    hide OneStore;
    OneStoreIs(last, i, x, s);
    var log' := log + [i];
    forall j | 0 <= j < |log'| ensures OneStore(Prior(g, log', j), log'[j]) {
      if j < |log| { assert log'[j] == log[j] && Prior(g, log', j) == Prior(g, log, j); }
    }
  }

  /** A store to a child slot, or to the root pointer, has been logged. */
  lemma {:induction false} LogStore(g: Shot, mark: nat, log: seq<Shot>, h: Shot, log': seq<Shot>, i: Shot, x: RbNode?,
          s: Side)
    requires SlotsBut(h, i, x, s) && (x == null || h.top == i.top) && i.m.Keys == h.m.Keys && log' == log + [i]
    ensures mark <= |log| && Steps(g, log[mark..], h) ==> mark <= |log'| && Steps(g, log'[mark..], i)
  {
    hide Steps;
    if mark <= |log| && Steps(g, log[mark..], h) {
      StepsStore(g, log[mark..], h, i, x, s);
      assert log'[mark..] == log[mark..] + [i];
    }
  }

  /** Other stores, or nodes that leave. */
  lemma {:induction false} StepsQuiet(g: Shot, log: seq<Shot>, h: Shot, i: Shot)
    requires Steps(g, log, h) && SameSlots(h, i) && i.m.Keys <= h.m.Keys
    ensures Steps(g, log, i)
  {
    hide OneStore;
  }

  /** A node that nothing points at has come first. */
  lemma {:induction false} StepsNew(g: Shot, h: Shot, log: seq<Shot>, i: Shot)
    requires Steps(h, log, i) && SameSlots(g, h) && g.m.Keys <= h.m.Keys
    ensures Steps(g, log, i)
  {
    if log != [] {
      FirstStore(h, log, i);
      OneStoreFrom(g, h, log[0]);
    }
    hide OneStore;
    forall j | 0 <= j < |log| ensures OneStore(Prior(g, log, j), log[j]) {
      if j > 0 { assert Prior(g, log, j) == Prior(h, log, j); }
    }
  }

  lemma {:induction false} FirstStore(g: Shot, log: seq<Shot>, h: Shot)
    requires Steps(g, log, h) && log != []
    ensures OneStore(g, log[0])
  {
    assert Prior(g, log, 0) == g;
  }

  lemma {:induction false} OneStoreFrom(g: Shot, h: Shot, i: Shot)
    requires OneStore(h, i) && SameSlots(g, h) && g.m.Keys <= h.m.Keys
    ensures OneStore(g, i)
  {
    if SlotsBut(h, i, null, L) {
      OneStoreIs(g, i, null, L);
    } else {
      var x, s :| x in h.m && SlotsBut(h, i, x, s);
      OneStoreIs(g, i, x, s);
    }
  }

  /** An operation after one that has made a single store. */
  lemma {:induction false} StepsFirst(g: Shot, h: Shot, h': Shot, log: seq<Shot>, log': seq<Shot>, i: Shot)
    requires Steps(g, [h], h) && SameSlots(h, h') && h.m.Keys <= h'.m.Keys
    requires log + [h] <= log' && Steps(h', log'[|log| + 1..], i)
    ensures log <= log' && Steps(g, log'[|log|..], i)
  {
    var rest, all := log'[|log| + 1..], log'[|log|..];
    StepsNew(h, h', rest, i);
    FirstStore(g, [h], h);
    hide OneStore, SameSlots;
    assert all == [h] + rest;
    forall j | 0 <= j < |all| ensures OneStore(Prior(g, all, j), all[j]) {
      if j > 0 { assert Prior(g, all, j) == Prior(h, rest, j - 1) && all[j] == rest[j - 1]; }
    }
    assert Prior(g, all, |all|) == Prior(h, rest, |rest|);
  }

  // ---- a node that has been taken out ----

  /** The children of x, in the tree or not, are in S. */
  ghost predicate LeadsInto(h: Shot, x: RbNode, S: set<RbNode>) {
    x in h.m && forall s :: Kid(h.m[x], s) == null || Kid(h.m[x], s) in S
  }

  /** The snapshot with a node beside the tree, on which a reader may still stand. */
  function Beside(h: Shot, x: RbNode, r: Rec): Shot { h.(m := h.m[x := r]) }

  lemma {:induction false} BesideFinishes(h: Shot, x: RbNode, r: Rec, n: RbNode?, fuel: nat)
    requires Finishes(h, n, fuel) && x !in h.m
    ensures Finishes(Beside(h, x, r), n, fuel)
  {
    if n != null { BesideFinishes(h, x, r, h.m[n].left, fuel - 1); BesideFinishes(h, x, r, h.m[n].right, fuel - 1); }
  }

  lemma {:induction false} FinishesLonger(h: Shot, n: RbNode?, fuel: nat)
    requires Finishes(h, n, fuel)
    ensures Finishes(h, n, fuel + 1)
  {
    if n != null { FinishesLonger(h, h.m[n].left, fuel - 1); FinishesLonger(h, h.m[n].right, fuel - 1); }
  }

  /** A descent from the node beside the tree gets into the tree, and ends there. */
  lemma {:induction false} BesideLoopless(h: Shot, x: RbNode, r: Rec)
    requires Loopless(h) && x !in h.m && (r.left == null || r.left in h.m) && (r.right == null || r.right in h.m)
    ensures Loopless(Beside(h, x, r))
  {
    var fuel: nat :| AllFinish(h, fuel);
    var i := Beside(h, x, r);
    forall n | n in h.m || n == null ensures Finishes(i, n, fuel) && Finishes(i, n, fuel + 1) {
      BesideFinishes(h, x, r, n, fuel);
      FinishesLonger(i, n, fuel);
    }
    assert i.m[x] == r && Finishes(i, r.left, fuel) && Finishes(i, r.right, fuel);
    assert AllFinish(i, fuel + 1);
  }

  // ---- the root object ----

  /** The rb_leftmost field of struct rb_root_cached, passed around by address. */
  class Leftmost {
    var node: RbNode?

    constructor () ensures node == null { node := null; }
  }

  /**
   * struct rb_root, with ghost state: the tree it holds, a log of memory after every child-pointer store, and memory
   * and the length of the log when the operation under way began.
   */
  class RbRoot {
    var rb_node: RbNode?
    ghost var tree: Tree
    ghost var pool: set<RbNode>
    ghost var log: seq<Shot>
    ghost var start: Shot
    ghost var mark: nat

    constructor ()
      ensures rb_node == null && tree == Leaf && pool == {} && log == []
    {
      rb_node, tree, pool, log := null, Leaf, {}, [];
      start, mark := Shot(null, map[], map[]), 0;
    }

    ghost function Now(): Shot
      reads `rb_node, `pool, pool
    {
      Shot(rb_node, map n | n in pool :: Rec(n.left, n.right, n.parent, n.color), map n | n in pool :: n.aug)
    }

    /** What a snapshot says about the root. */
    lemma Reads()
      ensures Now().top == rb_node && Now().m.Keys == pool && Now().aug.Keys == pool
    {}

    /** What a snapshot says about a node. */
    lemma ReadsAt(n: RbNode)
      requires n in pool
      ensures n in Now().m && Now().m[n] == Rec(n.left, n.right, n.parent, n.color) && n in Now().aug
        && Now().aug[n] == n.aug
    {}

    /** The pool is exactly the tree, which is what memory holds; nothing is said about colours. */
    ghost predicate Shaped()
      reads this, pool
    {
      pool == Nodes(tree) && Apart(tree) && RepTree(Now(), tree) && AllLoopless(log)
    }

    /** A red-black tree at rest. */
    ghost predicate Valid()
      reads this, pool
    {
      Shaped() && IsRB(tree)
    }

    /** The log has every store to a child pointer since the operation under way began. */
    ghost predicate Traced()
      reads `rb_node, `pool, `log, `start, `mark, pool
    {
      mark <= |log| && Steps(start, log[mark..], Now())
    }

    /** An operation begins. */
    ghost method Begin()
      modifies `start, `mark
      ensures start == Now() && mark == |log| && Traced()
    {
      start, mark := Now(), |log|;
      StepsNone(start);
    }

    /** The operation under way goes on, and no store is missing in the log. */
    twostate predicate GoesOn()
      reads `rb_node, `pool, `log, `start, `mark, pool
    {
      start == old(start) && mark == old(mark) && (old(Traced()) ==> Traced())
    }

    /** Everything but the nodes' fields, the root pointer and the log is as before. */
    twostate predicate Kept()
      reads this, pool
    {
      pool == old(pool) && tree == old(tree) && GoesOn()
    }

    /** The log has every store to a child pointer that an operation has made. */
    twostate predicate Recorded()
      reads `rb_node, `pool, `log, pool
    {
      old(log) <= log && Steps(old(Now()), log[|old(log)|..], Now())
    }

    /** An operation ends. A node may have been filled in before it began. */
    twostate lemma Ends()
      requires Traced() && mark == |old(log)| && old(log) <= log
      requires SameSlots(old(Now()), start) && old(Now()).m.Keys <= start.m.Keys
      ensures Recorded()
    {
      StepsNew(old(Now()), start, log[mark..], Now());
    }

    /** Other stores need not be logged. */
    twostate lemma QuietGoesOn()
      requires SameSlots(old(Now()), Now()) && pool <= old(pool)
      requires log == old(log) && start == old(start) && mark == old(mark)
      ensures GoesOn()
    {
      if old(Traced()) { StepsQuiet(start, log[mark..], old(Now()), Now()); }
    }

    /** WRITE_ONCE(x->rb_left, y) */
    method StoreLeft(x: RbNode, y: RbNode?)
      requires x in pool
      modifies this, pool
      ensures Kept() && Now() == old(PutKid(Now(), x, L, y)) && log == old(log) + [Now()]
    {
      log := log + [PutKid(Now(), x, L, y)];
      x.left := y;
      assert Now().m == old(PutKid(Now(), x, L, y)).m && Now().aug == old(Now().aug);
      KidSlot(old(Now()), x, L, y);
      LogStore(start, mark, old(log), old(Now()), log, Now(), x, L);
    }

    /** WRITE_ONCE(x->rb_right, y) */
    method StoreRight(x: RbNode, y: RbNode?)
      requires x in pool
      modifies this, pool
      ensures Kept() && Now() == old(PutKid(Now(), x, R, y)) && log == old(log) + [Now()]
    {
      log := log + [PutKid(Now(), x, R, y)];
      x.right := y;
      assert Now().m == old(PutKid(Now(), x, R, y)).m && Now().aug == old(Now().aug);
      KidSlot(old(Now()), x, R, y);
      LogStore(start, mark, old(log), old(Now()), log, Now(), x, R);
    }

    method StoreKid(x: RbNode, s: Side, y: RbNode?)
      requires x in pool
      modifies this, pool
      ensures Kept() && Now() == old(PutKid(Now(), x, s, y)) && log == old(log) + [Now()]
    {
      if s.L? { StoreLeft(x, y); } else { StoreRight(x, y); }
    }

    /** The field stores of rb_link_node: a red leaf that nothing points at yet. */
    method InitNode(node: RbNode, parent: RbNode?)
      requires node !in pool
      modifies this, node
      ensures pool == old(pool) + {node} && tree == old(tree) && log == old(log)
      ensures Now() == old(PutNew(Now(), node, Rec(null, null, parent, Red), node.aug))
    {
      node.parent, node.color := parent, Red;
      node.left, node.right := null, null;
      pool := pool + {node};
      assert Now().m == old(Now().m)[node := Rec(null, null, parent, Red)];
      assert Now().aug == old(Now().aug)[node := node.aug];
    }

    /** *node = *from, for the rb_node part of a node that nothing points at yet. */
    method CopyNode(node: RbNode, from: RbNode)
      requires node !in pool && from in pool
      modifies this, node
      ensures pool == old(pool) + {node} && tree == old(tree) && log == old(log)
      ensures Now() == old(PutNew(Now(), node, Now().m[from], node.aug))
    {
      node.left, node.right, node.parent, node.color := from.left, from.right, from.parent, from.color;
      pool := pool + {node};
      assert Now().m == old(Now().m)[node := old(Now().m[from])];
      assert Now().aug == old(Now().aug)[node := node.aug];
    }

    /** WRITE_ONCE(root->rb_node, y) */
    method StoreTop(y: RbNode?)
      modifies this, pool
      ensures Kept() && Now() == old(PutTop(Now(), y)) && log == old(log) + [Now()]
    {
      log := log + [PutTop(Now(), y)];
      rb_node := y;
      assert Now().m == old(Now().m) && Now().aug == old(Now().aug);
      LogStore(start, mark, old(log), old(Now()), log, Now(), null, L);
    }

    method SetParent(x: RbNode, p: RbNode?)
      requires x in pool
      modifies this, pool
      ensures Kept() && Now() == old(PutParent(Now(), x, p)) && log == old(log)
    {
      x.parent := p;
      assert Now().m == old(PutParent(Now(), x, p)).m;
      QuietGoesOn();
    }

    method SetParentColor(x: RbNode, p: RbNode?, c: Color)
      requires x in pool
      modifies this, pool
      ensures Kept() && Now() == old(PutParentColor(Now(), x, p, c)) && log == old(log)
    {
      x.parent, x.color := p, c;
      assert Now().m == old(PutParentColor(Now(), x, p, c)).m;
      QuietGoesOn();
    }

    method SetBlack(x: RbNode)
      requires x in pool
      modifies this, pool
      ensures Kept() && Now() == old(PutColor(Now(), x, Black)) && log == old(log)
    {
      x.color := Black;
      assert Now().m == old(PutColor(Now(), x, Black)).m;
      QuietGoesOn();
    }

    /** An erased node leaves the pool. */
    ghost method Drop(x: RbNode)
      modifies `pool
      ensures pool == old(pool) - {x}
      ensures Now().top == old(Now().top) && Now().m == old(Now().m) - {x} && Now().aug == old(Now().aug) - {x}
      ensures GoesOn()
    {
      pool := pool - {x};
      QuietGoesOn();
    }

    method SetAug(x: RbNode, a: Aug)
      requires x in pool
      modifies this, pool
      ensures Kept() && Now() == old(PutAug(Now(), x, a)) && log == old(log)
    {
      x.aug := a;
      assert Now().m == old(Now().m) && Now().aug == old(PutAug(Now(), x, a)).aug;
      QuietGoesOn();
    }

    /** __rb_change_child */
    method ChangeChild(was: RbNode, now: RbNode?, parent: RbNode?)
      requires parent != null ==> parent in pool
      modifies this, pool
      ensures Kept() && Now() == old(PutChild(Now(), was, now, parent)) && log == old(log) + [Now()]
    {
      if parent != null {
        if parent.left == was {
          StoreLeft(parent, now);
        } else {
          StoreRight(parent, now);
        }
      } else {
        StoreTop(now);
      }
    }

    /** __rb_rotate_set_parents */
    method RotateSetParents(was: RbNode, now: RbNode, c: Color)
      requires was in pool && now in pool && (was.parent != null ==> was.parent in pool)
      modifies this, pool
      ensures Kept() && Now() == old(PutRotated(Now(), was, now, c)) && log == old(log) + [Now()]
    {
      var parent := was.parent;
      SetParentColor(now, was.parent, was.color);
      SetParentColor(was, now, c);
      ChangeChild(was, now, parent);
    }
  }

  /** The stores of __rb_rotate_set_parents. */
  function PutRotated(h: Shot, was: RbNode, now: RbNode, c: Color): Shot
    requires was in h.m && now in h.m && (h.m[was].parent != null ==> h.m[was].parent in h.m)
  {
    var r := h.m[was];
    PutChild(PutParentColor(PutParentColor(h, now, r.parent, r.color), was, now, c), was, now, r.parent)
  }
}
