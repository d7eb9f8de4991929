/** Search order and height: what a run of inserts and erases leaves in the tree (myrbtree.h:47-83, rbtree.c:34-47). */
module RbOrder {
  import opened Compare
  import opened Powers
  import opened RbModel
  import opened RbErase

  /**
   * Never rises: smaller keys are to the right, because the search goes left when the node's key is the smaller one.
   */
  ghost predicate NonIncreasing(s: seq<RbNode>, cmp: Cmp<Val>) {
    forall i, j :: 0 <= i < j < |s| ==> cmp(s[i].val, s[j].val) >= 0
  }

  ghost predicate AllAtLeast(s: seq<RbNode>, v: Val, cmp: Cmp<Val>) {
    forall i :: 0 <= i < |s| ==> cmp(s[i].val, v) >= 0
  }

  ghost predicate AllBelow(s: seq<RbNode>, v: Val, cmp: Cmp<Val>) { forall i :: 0 <= i < |s| ==> cmp(s[i].val, v) < 0 }

  /** s with x inserted in front of the first smaller key. */
  ghost function Placed(s: seq<RbNode>, x: RbNode, cmp: Cmp<Val>): seq<RbNode> {
    if s == [] || cmp(s[0].val, x.val) < 0 then [x] + s else [s[0]] + Placed(s[1..], x, cmp)
  }

  lemma {:induction false} PlacedSplit(a: seq<RbNode>, b: seq<RbNode>, x: RbNode, cmp: Cmp<Val>)
    requires AllAtLeast(a, x.val, cmp) && AllBelow(b, x.val, cmp)
    ensures Placed(a + b, x, cmp) == a + [x] + b
  {
    if a == [] {
      assert a + b == b;
    } else {
      assert (a + b)[1..] == a[1..] + b;
      PlacedSplit(a[1..], b, x, cmp);
    }
  }

  /** A sequence in order splits where x belongs. */
  lemma {:induction false} SplitAt(s: seq<RbNode>, v: Val, cmp: Cmp<Val>) returns (i: nat)
    requires TotalPreorder(cmp) && NonIncreasing(s, cmp)
    ensures i <= |s| && AllAtLeast(s[..i], v, cmp) && AllBelow(s[i..], v, cmp)
  {
    i := 0;
    while i < |s| && cmp(s[i].val, v) >= 0
      invariant i <= |s| && AllAtLeast(s[..i], v, cmp)
    {
      i := i + 1;
    }
    if i < |s| {
      hide TotalPreorder;
      forall j | 0 <= j < |s[i..]| ensures cmp(s[i..][j].val, v) < 0 {
        if j > 0 { Smaller(s[i].val, s[i + j].val, v, cmp); }
      }
    }
  }

  lemma {:induction false} PlacedNonIncreasing(s: seq<RbNode>, x: RbNode, cmp: Cmp<Val>)
    requires TotalPreorder(cmp) && NonIncreasing(s, cmp)
    ensures NonIncreasing(Placed(s, x, cmp), cmp)
  {
    var i := SplitAt(s, x.val, cmp);
    PlacedSplit(s[..i], s[i..], x, cmp);
    assert s[..i] + s[i..] == s;
    var p := s[..i] + [x] + s[i..];
    forall a, b | 0 <= a < b < |p| ensures cmp(p[a].val, p[b].val) >= 0 {
      if b == i { assert p[a] == s[..i][a]; }
      if a == i { assert p[b] == s[i..][b - i - 1]; assert cmp(p[b].val, x.val) < 0; }
    }
  }

  lemma {:induction false} WithoutNonIncreasing(s: seq<RbNode>, x: RbNode, cmp: Cmp<Val>)
    requires NonIncreasing(s, cmp)
    ensures NonIncreasing(Without(s, x), cmp)
    ensures forall y :: y in Without(s, x) ==> y in s
  {
    if s != [] {
      var rest := Without(s[1..], x);
      WithoutNonIncreasing(s[1..], x, cmp);
      if s[0] != x {
        forall j | 0 < j < |[s[0]] + rest| ensures cmp(s[0].val, ([s[0]] + rest)[j].val) >= 0 {
          var y := rest[j - 1];
          assert y in s[1..];
          var i :| 0 <= i < |s[1..]| && s[1..][i] == y;
          assert s[i + 1] == y;
        }
      }
    }
  }

  // ---- equal keys ----

  /** The nodes of s whose key equals v, in the order of s. */
  ghost function Equals(s: seq<RbNode>, v: Val, cmp: Cmp<Val>): seq<RbNode> {
    if s == [] then [] else (if cmp(s[0].val, v) == 0 then [s[0]] else []) + Equals(s[1..], v, cmp)
  }

  lemma {:induction false} EqualsConcat(a: seq<RbNode>, b: seq<RbNode>, v: Val, cmp: Cmp<Val>)
    ensures Equals(a + b, v, cmp) == Equals(a, v, cmp) + Equals(b, v, cmp)
  {
    if a == [] {
      assert a + b == b;
    } else {
      assert (a + b)[1..] == a[1..] + b && (a + b)[0] == a[0];
      EqualsConcat(a[1..], b, v, cmp);
      var e := if cmp(a[0].val, v) == 0 then [a[0]] else [];
      assert e + (Equals(a[1..], v, cmp) + Equals(b, v, cmp)) == e + Equals(a[1..], v, cmp) + Equals(b, v, cmp);
    }
  }

  lemma {:induction false} EqualsNone(s: seq<RbNode>, v: Val, cmp: Cmp<Val>)
    requires AllBelow(s, v, cmp)
    ensures Equals(s, v, cmp) == []
  {
    if s != [] {
      assert cmp(s[0].val, v) < 0;
      EqualsNone(s[1..], v, cmp);
    }
  }

  lemma {:induction false} EqualsOne(x: RbNode, v: Val, cmp: Cmp<Val>)
    ensures Equals([x], v, cmp) == if cmp(x.val, v) == 0 then [x] else []
  {
    assert Equals([x][1..], v, cmp) == [];
  }

  /** A new node goes behind all nodes with its key. */
  lemma {:induction false} PlacedEquals(s: seq<RbNode>, x: RbNode, v: Val, cmp: Cmp<Val>)
    requires TotalPreorder(cmp) && NonIncreasing(s, cmp)
    ensures Equals(Placed(s, x, cmp), v, cmp) == Equals(s, v, cmp) + Equals([x], v, cmp)
  {
    hide TotalPreorder, NonIncreasing, Equals, Placed;
    var i := SplitAt(s, x.val, cmp);
    var a, b := s[..i], s[i..];
    PlacedSplit(a, b, x, cmp);
    assert a + b == s;
    EqualsConcat(a + [x], b, v, cmp); EqualsConcat(a, [x], v, cmp); EqualsConcat(a, b, v, cmp);
    EqualsOne(x, v, cmp);
    if cmp(x.val, v) == 0 {
      BelowEqual(b, x, v, cmp);
      EqualsNone(b, v, cmp);
      assert Equals(b, v, cmp) == [];
    }
  }

  lemma {:induction false} BelowEqual(s: seq<RbNode>, x: RbNode, v: Val, cmp: Cmp<Val>)
    requires TotalPreorder(cmp) && AllBelow(s, x.val, cmp) && cmp(x.val, v) == 0
    ensures AllBelow(s, v, cmp)
  {
    hide TotalPreorder;
    Flip(x.val, v, cmp);
    forall j | 0 <= j < |s| ensures cmp(s[j].val, v) < 0 {
      assert cmp(s[j].val, x.val) < 0;
      if cmp(s[j].val, v) >= 0 { Trans(s[j].val, v, x.val, cmp); }
    }
  }

  lemma {:induction false} WithoutEquals(s: seq<RbNode>, x: RbNode, v: Val, cmp: Cmp<Val>)
    ensures Equals(Without(s, x), v, cmp) == Without(Equals(s, v, cmp), x)
  {
    if s != [] {
      WithoutEquals(s[1..], x, v, cmp);
      var h := if s[0] == x then [] else [s[0]];
      var e := if cmp(s[0].val, v) == 0 then [s[0]] else [];
      EqualsConcat(h, Without(s[1..], x), v, cmp);
      WithoutConcat(e, Equals(s[1..], v, cmp), x);
      EqualsOne(s[0], v, cmp);
      WithoutOneOf(s[0], x);
    }
  }

  lemma {:induction false} WithoutOneOf(y: RbNode, x: RbNode)
    ensures Without([y], x) == if y == x then [] else [y]
  {
    assert Without([y][1..], x) == [];
  }

  // ---- runs ----

  datatype Op = Ins(x: RbNode) | Del(x: RbNode)

  /** The in-order sequence after a run on an empty tree; every step is what the code does to it (RbSearch, RbErase). */
  ghost function Order(ops: seq<Op>, cmp: Cmp<Val>): seq<RbNode> {
    if ops == [] then []
    else
      var s := Order(ops[..|ops| - 1], cmp);
      match ops[|ops| - 1]
      case Ins(x) => Placed(s, x, cmp)
      case Del(x) => Without(s, x)
  }

  /** The nodes present after a run, oldest first. */
  ghost function Arrived(ops: seq<Op>): seq<RbNode> {
    if ops == [] then []
    else
      var s := Arrived(ops[..|ops| - 1]);
      match ops[|ops| - 1]
      case Ins(x) => s + [x]
      case Del(x) => Without(s, x)
  }

  /** After any run the keys never rise, and among equal keys the nodes are in the order of their insertion. */
  lemma {:induction false} RunOrder(ops: seq<Op>, cmp: Cmp<Val>, v: Val)
    requires TotalPreorder(cmp)
    ensures NonIncreasing(Order(ops, cmp), cmp)
    ensures Equals(Order(ops, cmp), v, cmp) == Equals(Arrived(ops), v, cmp)
  {
    if ops != [] {
      var rest := ops[..|ops| - 1];
      RunOrder(rest, cmp, v);
      var s, a := Order(rest, cmp), Arrived(rest);
      match ops[|ops| - 1]
      case Ins(x) =>
        PlacedNonIncreasing(s, x, cmp);
        PlacedEquals(s, x, v, cmp);
        EqualsConcat(a, [x], v, cmp);
      case Del(x) =>
        WithoutNonIncreasing(s, x, cmp);
        WithoutEquals(s, x, v, cmp); WithoutEquals(a, x, v, cmp);
    }
  }

  // ---- height ----

  function Height(t: Tree): nat {
    match t
    case Leaf => 0
    case Node(l, _, _, r) => 1 + if Height(l) >= Height(r) then Height(l) else Height(r)
  }

  function Count(t: Tree): nat { if t.Leaf? then 0 else 1 + Count(t.l) + Count(t.r) }

  lemma {:induction false} CountInorder(t: Tree)
    ensures Count(t) == |Inorder(t)|
  {
    if t.Node? { CountInorder(t.l); CountInorder(t.r); }
  }

  /** h black nodes per path: at least 2^h - 1 nodes, and a height of at most twice that. */
  lemma {:induction false} BlackHeight(t: Tree, h: nat)
    requires RB(t, h)
    ensures Count(t) + 1 >= Pow2(h) && Height(t) <= 2 * h + 1 && (Blk(t) ==> Height(t) <= 2 * h)
  {
    if t.Node? {
      var h' := if t.c.Black? then h - 1 else h;
      BlackHeight(t.l, h'); BlackHeight(t.r, h');
    }
  }

  /** The height is at most 2 * log2(n + 1), in integers. */
  lemma {:induction false} HeightBound(t: Tree)
    requires IsRB(t)
    ensures Pow2(Height(t)) <= (Count(t) + 1) * (Count(t) + 1)
  {
    hide RB, Height, Pow2;
    var h: nat :| RB(t, h);
    BlackHeight(t, h);
    Pow2Mono(Height(t), h + h);
    Pow2Sum(h, h);
    Squares(Pow2(h), Count(t) + 1);
  }

  lemma {:induction false} Squares(a: nat, b: nat)
    requires a <= b
    ensures a * a <= b * b
  {
    assert a * a <= a * b;
    assert a * b <= b * b;
  }

  lemma {:induction false} DepthHeight(k: Ctx, t: Tree)
    ensures Height(Plug(k, t)) >= Depth(k) + Height(t)
  {
    if k.In? { DepthHeight(k.up, Mk(k.s, t, k.x, k.c, k.far)); }
  }
}
