/** Whole runs of MY_RB_TREE_INSERT and rb_erase on one tree (myrbtree.h, rbtree.c). */
module RbRun {
  import opened Compare
  import opened RbModel
  import opened RbHeap
  import opened RbInsert
  import opened RbWalk
  import opened RbErase
  import opened RbOrder
  import opened RbSearch
  import opened RbAugmented

  /** Every node is inserted while it is out of the tree, and erased while it is in. */
  ghost predicate Legal(ops: seq<Op>) {
    forall i :: 0 <= i < |ops| ==> (ops[i].Ins? <==> ops[i].x !in Arrived(ops[..i]))
  }

  ghost function Touched(ops: seq<Op>): set<RbNode> { set i | 0 <= i < |ops| :: ops[i].x }

  ghost function Elems(s: seq<RbNode>): set<RbNode> { set n | n in s }

  /** A red-black tree that holds what the operations add up to. */
  ghost predicate Going(root: RbRoot, ops: seq<Op>, cmp: Cmp<Val>)
    reads root, root.pool
  {
    && root.Valid() && root.pool == Elems(Arrived(ops))
    && Inorder(root.tree) == Order(ops, cmp) && NonIncreasing(Inorder(root.tree), cmp)
  }

  /** One operation, on a tree whose nodes are the ones that have arrived. */
  method Do(root: RbRoot, op: Op, cmp: Cmp<Val>, ghost before: seq<Op>)
    requires Going(root, before, cmp) && TotalPreorder(cmp)
    requires op.Ins? <==> op.x !in Arrived(before)
    modifies root, root.pool, op.x
    ensures Going(root, before + [op], cmp) && root.pool <= old(root.pool) + {op.x} && root.Recorded()
  {
    hide RbRoot.Now, RbRoot.Valid, RbRoot.Recorded, TotalPreorder, NonIncreasing, Placed, Without, Arrived, Order;
    Onward(before, op, cmp);
    assert op.x in Arrived(before) <==> op.x in Elems(Arrived(before));
    match op {
      case Ins(x) =>
        ghost var steps := InsertNode(root, x, cmp);
      case Del(x) =>
        WithoutNonIncreasing(Inorder(root.tree), x, cmp);
        Erase(root, x);
        InWithout(Arrived(before), x);
    }
  }

  lemma {:induction false} Onward(before: seq<Op>, op: Op, cmp: Cmp<Val>)
    ensures Order(before + [op], cmp) == if op.Ins? then Placed(Order(before, cmp), op.x, cmp)
      else Without(Order(before, cmp), op.x)
    ensures Arrived(before + [op]) == if op.Ins? then Arrived(before) + [op.x] else Without(Arrived(before), op.x)
  {
    hide Placed; hide Without;
    assert (before + [op])[..|before|] == before;
  }

  /**
   * After any run the tree is a red-black tree, no intermediate state of it had a loop, and its order is the
   * one that RbOrder.RunOrder speaks about.
   */
  method Run(ops: seq<Op>, cmp: Cmp<Val>) returns (root: RbRoot)
    requires Legal(ops) && TotalPreorder(cmp)
    modifies Touched(ops)
    ensures fresh(root) && root.Valid() && Inorder(root.tree) == Order(ops, cmp)
    ensures NonIncreasing(Inorder(root.tree), cmp)
  {
    root := new RbRoot();
    EmptyValid(root, cmp);
    assert ops[..0] == [];
    hide *;
    for i := 0 to |ops|
      invariant fresh(root) && root.pool <= Touched(ops) && Going(root, ops[..i], cmp)
    {
      InTouched(ops, i);
      Do(root, ops[i], cmp, ops[..i]);
    }
    assert ops[..|ops|] == ops;
    GoingOrder(root, ops, cmp);
  }

  /** One operation on a tree with a cached first node. */
  method DoCached(root: RbRoot, leftmost: Leftmost, op: Op, cmp: Cmp<Val>, ghost before: seq<Op>)
    requires Going(root, before, cmp) && TotalPreorder(cmp) && leftmost.node == FirstOf(Inorder(root.tree))
    requires op.Ins? <==> op.x !in Arrived(before)
    modifies root, root.pool, op.x, leftmost
    ensures Going(root, before + [op], cmp) && root.pool <= old(root.pool) + {op.x} && root.Recorded()
    ensures leftmost.node == FirstOf(Inorder(root.tree))
  {
    hide RbRoot.Now, RbRoot.Valid, RbRoot.Recorded, TotalPreorder, NonIncreasing, Placed, Without, Arrived, Order;
    Onward(before, op, cmp);
    assert op.x in Arrived(before) <==> op.x in Elems(Arrived(before));
    match op {
      case Ins(x) =>
        InsertNodeCached(root, leftmost, x, cmp);
      case Del(x) =>
        WithoutNonIncreasing(Inorder(root.tree), x, cmp);
        EraseCached(root, leftmost, x);
        InWithout(Arrived(before), x);
    }
  }

  /** The same run on a tree with a cache: after every operation rb_first_cached, which reads it, is rb_first. */
  method RunCached(ops: seq<Op>, cmp: Cmp<Val>) returns (root: RbRoot, leftmost: Leftmost)
    requires Legal(ops) && TotalPreorder(cmp)
    modifies Touched(ops)
    ensures fresh(root) && fresh(leftmost) && root.Valid() && Inorder(root.tree) == Order(ops, cmp)
    ensures leftmost.node == FirstOf(Order(ops, cmp))
  {
    root := new RbRoot();
    leftmost := new Leftmost();
    EmptyValid(root, cmp);
    assert ops[..0] == [];
    hide *;
    for i := 0 to |ops|
      invariant fresh(root) && fresh(leftmost) && root.pool <= Touched(ops)
      invariant Going(root, ops[..i], cmp) && leftmost.node == FirstOf(Inorder(root.tree))
    {
      InTouched(ops, i);
      DoCached(root, leftmost, ops[i], cmp, ops[..i]);
    }
    assert ops[..|ops|] == ops;
    GoingOrder(root, ops, cmp);
  }

  /** One operation on a tree with callbacks and a cached first node. */
  method DoAugmented(root: RbRoot, leftmost: Leftmost, op: Op, cmp: Cmp<Val>, f: Compute, ghost before: seq<Op>)
    requires Going(root, before, cmp) && TotalPreorder(cmp) && leftmost.node == FirstOf(Inorder(root.tree))
    requires AugRep(root.Now(), root.tree, Some(f)) && (op.Ins? <==> op.x !in Arrived(before))
    modifies root, root.pool, op.x, leftmost
    ensures Going(root, before + [op], cmp) && root.pool <= old(root.pool) + {op.x} && root.Recorded()
    ensures AugRep(root.Now(), root.tree, Some(f)) && leftmost.node == FirstOf(Inorder(root.tree))
  {
    hide RbRoot.Now, RbRoot.Valid, RbRoot.Recorded, TotalPreorder, NonIncreasing, Placed, Without, Arrived, Order,
      AugRep;
    Onward(before, op, cmp);
    assert op.x in Arrived(before) <==> op.x in Elems(Arrived(before));
    match op {
      case Ins(x) =>
        InsertAugmented(root, leftmost, x, cmp, f);
      case Del(x) =>
        WithoutNonIncreasing(Inorder(root.tree), x, cmp);
        EraseAugmented(root, x, leftmost, Some(f));
        InWithout(Arrived(before), x);
    }
  }

  /**
   * The same run on a tree with callbacks: every node stores the fold of its subtree, so that the top one stores the
   * fold of all values in order, whatever shape the tree has come to have.
   */
  method RunAugmented(ops: seq<Op>, cmp: Cmp<Val>, f: Compute) returns (root: RbRoot, leftmost: Leftmost)
    requires Legal(ops) && TotalPreorder(cmp) && Associative(f)
    modifies Touched(ops)
    ensures fresh(root) && fresh(leftmost) && root.Valid() && Inorder(root.tree) == Order(ops, cmp)
    ensures leftmost.node == FirstOf(Order(ops, cmp)) && AugOk(root.Now(), root.tree, f)
    ensures AugOf(root.Now(), root.rb_node) == Fold(Order(ops, cmp), f)
  {
    root := new RbRoot();
    leftmost := new Leftmost();
    EmptyValid(root, cmp);
    assert ops[..0] == [];
    assert AugRep(root.Now(), root.tree, Some(f));
    hide *;
    for i := 0 to |ops|
      invariant fresh(root) && fresh(leftmost) && root.pool <= Touched(ops)
      invariant Going(root, ops[..i], cmp) && leftmost.node == FirstOf(Inorder(root.tree))
      invariant AugRep(root.Now(), root.tree, Some(f))
    {
      InTouched(ops, i);
      DoAugmented(root, leftmost, ops[i], cmp, f, ops[..i]);
    }
    assert ops[..|ops|] == ops;
    GoingOrder(root, ops, cmp);
    TopStores(root, f);
  }

  lemma {:induction false} TopStores(root: RbRoot, f: Compute)
    requires root.Valid() && AugRep(root.Now(), root.tree, Some(f))
    ensures AugOk(root.Now(), root.tree, f) && AugOf(root.Now(), root.rb_node) == Fold(Inorder(root.tree), f)
  {
    StoredIsFold(root.Now(), Top, root.tree, f);
  }

  lemma {:induction false} InTouched(ops: seq<Op>, i: nat)
    requires i < |ops| && Legal(ops)
    ensures ops[i].x in Touched(ops) && (ops[i].Ins? <==> ops[i].x !in Arrived(ops[..i]))
    ensures ops[..i + 1] == ops[..i] + [ops[i]]
  {}

  lemma {:induction false} GoingOrder(root: RbRoot, ops: seq<Op>, cmp: Cmp<Val>)
    requires Going(root, ops, cmp)
    ensures root.Valid() && Inorder(root.tree) == Order(ops, cmp) && NonIncreasing(Inorder(root.tree), cmp)
  {}

  lemma {:induction false} EmptyValid(root: RbRoot, cmp: Cmp<Val>)
    requires root.rb_node == null && root.tree == Leaf && root.pool == {} && root.log == []
    ensures Going(root, [], cmp) && Inorder(root.tree) == []
  {
    assert RB(Leaf, 0);
  }

  lemma {:induction false} InWithout(s: seq<RbNode>, x: RbNode)
    ensures Elems(Without(s, x)) == Elems(s) - {x}
  {
    if s != [] {
      InWithout(s[1..], x);
      var first := if s[0] == x then [] else [s[0]];
      ElemsConcat(first, Without(s[1..], x));
      ElemsConcat([s[0]], s[1..]);
      assert s == [s[0]] + s[1..];
      assert Elems([s[0]]) == {s[0]};
    }
  }

  lemma {:induction false} ElemsConcat(a: seq<RbNode>, b: seq<RbNode>)
    ensures Elems(a + b) == Elems(a) + Elems(b)
  {}
}
