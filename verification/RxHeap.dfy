/** The radix tree root and its primitive stores (radix-tree.c:171-222, 393-432; radix-tree.h:93-137). */
module RxHeap {
  import opened RxModel

  /** The node allocator: how many more nodes it can deliver. */
  class Allocator {
    var left: nat

    constructor (left: nat) ensures this.left == left { this.left := left; }
  }

  function PutTop(h: Shot, e: Entry): Shot { h.(top := e) }

  function PutTags(h: Shot, s: set<nat>): Shot { h.(tags := s) }

  function PutRec(h: Shot, n: RxNode, r: Rec): Shot { h.(m := h.m[n := r]) }

  function PutSlot(h: Shot, n: RxNode, o: nat, e: Entry): Shot
    requires n in h.m && o < |h.m[n].slots|
  {
    PutRec(h, n, h.m[n].(slots := h.m[n].slots[o := e]))
  }

  function PutCount(h: Shot, n: RxNode, c: int): Shot
    requires n in h.m
  {
    PutRec(h, n, h.m[n].(count := c))
  }

  function PutParent(h: Shot, n: RxNode, p: RxNode?): Shot
    requires n in h.m
  {
    PutRec(h, n, h.m[n].(parent := p))
  }

  function PutTag(h: Shot, n: RxNode, t: nat, s: set<nat>): Shot
    requires n in h.m && t < |h.m[n].tags|
  {
    PutRec(h, n, h.m[n].(tags := h.m[n].tags[t := s]))
  }

  function Zeroed(shift: nat, offset: nat, count: int, parent: RxNode?, prefix: nat): Rec {
    Rec(shift, offset, count, parent, NoSlots(), NoTags(), prefix)
  }

  /** struct radix_tree_root, with the nodes it is made of, the map that it stands for, and the tagged indices. */
  class RxRoot {
    const idr: bool
    var rnode: Entry
    var tags: set<nat>
    ghost var pool: set<RxNode>
    ghost var items: map<nat, Entry>
    ghost var tagged: seq<iset<nat>>

    /** RADIX_TREE_INIT, or IDR_INIT, which sets the IDR_FREE tag. */
    constructor (idr: bool)
      ensures this.idr == idr && rnode == Null && pool == {} && tags == (if idr then {0} else {})
      ensures items == map[] && tagged == [if idr then FreeIds(map[]) else iset{}, iset{}, iset{}]
    {
      this.idr, rnode, pool, items := idr, Null, {}, map[];
      tags := if idr then {0} else {};
      tagged := [if idr then FreeIds(map[]) else iset{}, iset{}, iset{}];
    }

    ghost function Now(): Shot
      reads `rnode, `tags, `pool, pool
    {
      Shot(rnode, tags, map n | n in pool :: Rec(n.shift, n.offset, n.count, n.parent, n.slots, n.tags, n.prefix))
    }

    /** What a snapshot says about the root. */
    lemma Reads()
      ensures Now().top == rnode && Now().tags == tags && Now().m.Keys == pool
    {}

    /** What a snapshot says about a node. */
    lemma ReadsAt(n: RxNode)
      requires n in pool
      ensures n in Now().m && Now().m[n] == Rec(n.shift, n.offset, n.count, n.parent, n.slots, n.tags, n.prefix)
    {}

    method SetTop(e: Entry)
      modifies this`rnode
      ensures rnode == e && Now() == old(PutTop(Now(), e))
    {
      rnode := e;
      assert Now().m == old(Now().m);
    }

    method SetTags(s: set<nat>)
      modifies this`tags
      ensures tags == s && Now() == old(PutTags(Now(), s))
    {
      tags := s;
      assert Now().m == old(Now().m);
    }

    method SetSlot(n: RxNode, o: nat, e: Entry)
      requires n in pool && o < |n.slots|
      modifies n`slots
      ensures n.slots == old(n.slots)[o := e] && n in Now().m && Now() == old(PutSlot(Now(), n, o, e))
    {
      n.slots := n.slots[o := e];
      assert Now().m == old(PutSlot(Now(), n, o, e)).m;
    }

    method SetCount(n: RxNode, c: int)
      requires n in pool
      modifies n`count
      ensures n.count == c && n in Now().m && Now() == old(PutCount(Now(), n, c))
    {
      n.count := c;
      assert Now().m == old(PutCount(Now(), n, c)).m;
    }

    method SetParent(n: RxNode, p: RxNode?)
      requires n in pool
      modifies n`parent
      ensures n.parent == p && n in Now().m && Now() == old(PutParent(Now(), n, p))
    {
      n.parent := p;
      assert Now().m == old(PutParent(Now(), n, p)).m;
    }

    /** Replaces the bits of one tag in a node. */
    method SetTag(n: RxNode, t: nat, s: set<nat>)
      requires n in pool && t < |n.tags|
      modifies n`tags
      ensures n.tags == old(n.tags)[t := s] && n in Now().m && Now() == old(PutTag(Now(), n, t, s))
    {
      n.tags := n.tags[t := s];
      assert Now().m == old(PutTag(Now(), n, t, s)).m;
    }

    /** radix_tree_node_alloc: a zeroed node, or NULL when there is no memory. */
    method NodeAlloc(mem: Allocator, shift: nat, offset: nat, count: int, parent: RxNode?, ghost prefix: nat)
      returns (n: RxNode?)
      modifies this`pool, mem
      ensures n == null <==> old(mem.left) == 0
      ensures n == null ==> mem.left == 0 && pool == old(pool) && Now() == old(Now())
      ensures n != null ==> mem.left == old(mem.left) - 1 && fresh(n) && n !in old(pool) && pool == old(pool) + {n}
      ensures n != null ==> Now() == PutRec(old(Now()), n, Zeroed(shift, offset, count, parent, prefix))
    {
      if mem.left == 0 {
        n := null;
      } else {
        mem.left := mem.left - 1;
        n := new RxNode(shift, offset, count, parent, prefix);
        pool := pool + {n};
        assert Now().m == PutRec(old(Now()), n, Zeroed(shift, offset, count, parent, prefix)).m;
      }
    }

    /** A freed node leaves the pool. */
    ghost method Free(n: RxNode)
      modifies this`pool
      ensures pool == old(pool) - {n} && Now() == old(Now().(m := Now().m - {n}))
    {
      pool := pool - {n};
      assert Now().m == old(Now().m) - {n};
    }
  }
}
