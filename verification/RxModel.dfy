/**
 * The radix tree in memory, seen as a snapshot, and what it has to do with a map from
 * index to entry (radix-tree.c, radix-tree.h).
 */
module RxModel {
  import opened CTypes

  /** 17 * 2^60: where the first child of the top node that is past the last index ends. */
  const LIMIT: int := 0x1_1000_0000_0000_0000

  const MAP_SIZE: int := 64

  /** What a user stores: a data pointer or an exceptional entry, never NULL. */
  type Val(==, !new)

  /** The contents of a slot. */
  datatype Entry = Null | Item(x: Val) | Child(n: RxNode)

  /** struct radix_tree_node. The prefix says which indices the node covers: those that it is the leading digits of. */
  class RxNode {
    var shift: nat
    var offset: nat
    var count: int
    var parent: RxNode?
    var slots: seq<Entry>
    var tags: seq<set<nat>>
    ghost var prefix: nat

    /** A node fresh from the allocator: all slots and tags are zero. */
    constructor (shift: nat, offset: nat, count: int, parent: RxNode?, ghost prefix: nat)
      ensures this.shift == shift && this.offset == offset && this.count == count && this.parent == parent
      ensures slots == NoSlots() && tags == NoTags() && this.prefix == prefix
    {
      this.shift, this.offset, this.count, this.parent, this.prefix := shift, offset, count, parent, prefix;
      slots, tags := NoSlots(), NoTags();
    }
  }

  function NoSlots(): (s: seq<Entry>)
    ensures |s| == MAP_SIZE && forall o :: 0 <= o < MAP_SIZE ==> s[o] == Null
  {
    seq(MAP_SIZE, _ => Null)
  }

  function NoTags(): seq<set<nat>> { [{}, {}, {}] }

  // ---- digits ----

  /** k >> s, for s a multiple of 6. */
  function Shr(k: nat, s: nat): nat { if s < 6 then k else Shr(k, s - 6) / 64 }

  /** q << s, before any wrap-around. */
  function Shl(q: nat, s: nat): nat { if s < 6 then q else 64 * Shl(q, s - 6) }

  /** k is below q << s exactly when its leading digits are below q. */
  lemma {:induction false} ShrShl(k: nat, q: nat, s: nat)
    ensures Shr(k, s) < q <==> k < Shl(q, s)
    decreases s
  {
    if s >= 6 {
      ShrShl(k, 64 * q, s - 6);
      ShlTimes(q, s - 6);
    }
  }

  lemma {:induction false} ShlTimes(q: nat, s: nat)
    ensures Shl(64 * q, s) == 64 * Shl(q, s)
  {
    if s >= 6 { ShlTimes(q, s - 6); }
  }

  lemma {:induction false} ShrMono(j: nat, k: nat, s: nat)
    requires j <= k
    ensures Shr(j, s) <= Shr(k, s)
  {
    if s >= 6 { ShrMono(j, k, s - 6); }
  }

  /** Leading digits determine fewer leading digits. */
  lemma {:induction false} ShrUp(j: nat, k: nat, s: nat, s': nat)
    requires s <= s' && s % 6 == 0 && s' % 6 == 0 && Shr(j, s) == Shr(k, s)
    ensures Shr(j, s') == Shr(k, s')
  {
    if s < s' { ShrUp(j, k, s, s' - 6); }
  }

  /** shift_maxindex: the largest index below a node with this shift, in unsigned long arithmetic. */
  function ShiftMax(shift: nat): nat { (Shl(64, shift) - 1) % TWO64 }

  lemma {:induction false} ShlValues()
    ensures Shl(64, 54) == 0x1000_0000_0000_0000 && Shl(64, 60) == 4 * TWO64
  {
    assert Shl(64, 0) == 64 && Shl(64, 6) == 4096 && Shl(64, 12) == 0x4_0000;
    assert Shl(64, 18) == 0x100_0000 && Shl(64, 24) == 0x4000_0000;
    assert Shl(64, 30) == 0x10_0000_0000 && Shl(64, 36) == 0x400_0000_0000;
    assert Shl(64, 42) == 0x1_0000_0000_0000 && Shl(64, 48) == 0x40_0000_0000_0000;
  }

  lemma {:induction false} ShlAdd(a: nat, b: nat, s: nat)
    ensures Shl(a + b, s) == Shl(a, s) + Shl(b, s)
  {
    if s >= 6 { ShlAdd(a, b, s - 6); }
  }

  lemma {:induction false} ShlLess(a: nat, b: nat, s: nat)
    requires a <= b
    ensures Shl(a, s) <= Shl(b, s)
  {
    if s >= 6 { ShlLess(a, b, s - 6); }
  }

  lemma {:induction false} ShlCompose(a: nat, u: nat, v: nat)
    requires u % 6 == 0 && v % 6 == 0
    ensures Shl(Shl(a, u), v) == Shl(a, u + v)
  {
    if v >= 6 { ShlCompose(a, u, v - 6); }
  }

  /** Multiples of 2^60. */
  lemma {:induction false} ShlTop(o: nat)
    ensures Shl(o, 60) == o * 0x1000_0000_0000_0000
  {
    assert Shl(o, 0) == o && Shl(o, 6) == o * 64 && Shl(o, 12) == o * 4096 && Shl(o, 18) == o * 0x4_0000;
    assert Shl(o, 24) == o * 0x100_0000 && Shl(o, 30) == o * 0x4000_0000 && Shl(o, 36) == o * 0x10_0000_0000;
    assert Shl(o, 42) == o * 0x400_0000_0000 && Shl(o, 48) == o * 0x1_0000_0000_0000;
    assert Shl(o, 54) == o * 0x40_0000_0000_0000;
  }

  lemma {:induction false} ShlWhole(q: nat, s: nat)
    requires s >= 6
    ensures Shl(q, s) % 64 == 0
  {}

  lemma {:induction false} ShrAdd(a: nat, x: nat, s: nat)
    requires s % 6 == 0
    ensures Shr(Shl(a, s) + x, s) == a + Shr(x, s)
  {
    hide Shr, Shl;
    var q := Shr(x, s);
    ShrShl(x, q, s); ShrShl(x, q + 1, s);
    ShlAdd(a, q, s); ShlAdd(a, q + 1, s);
    ShrShl(Shl(a, s) + x, a + q, s); ShrShl(Shl(a, s) + x, a + q + 1, s);
  }

  lemma {:induction false} ShlMono(q: nat, s: nat, s': nat)
    requires s <= s' && s % 6 == 0 && s' % 6 == 0 && q > 0
    ensures 0 < Shl(q, s) <= Shl(q, s')
    decreases s'
  {
    if s < s' { ShlMono(q, s, s' - 6); } else if s > 0 { ShlMono(q, s - 6, s - 6); }
  }

  /** An index lies beyond a node's range exactly when digits are left over; the wrap at shift 60 does not matter. */
  lemma {:induction false} BeyondMax(k: nat, s: nat)
    requires k <= ULONG_MAX && s <= 60 && s % 6 == 0
    ensures k > ShiftMax(s) <==> Shr(k, s + 6) > 0
  {
    ShlValues();
    ShrShl(k, 1, s + 6);
    ShlTimes(1, s);
    if s < 60 { ShlMono(64, s, 54); } else { assert (4 * TWO64 - 1) % TWO64 == ULONG_MAX; }
  }

  // ---- snapshots ----

  datatype Rec = Rec(shift: nat, offset: nat, count: int, parent: RxNode?, slots: seq<Entry>, tags: seq<set<nat>>,
          prefix: nat)

  /** root->rnode, the root's tags, and the nodes. */
  datatype Shot = Shot(top: Entry, tags: set<nat>, m: map<RxNode, Rec>)

  /** The digits that lead to slot o of a node. */
  function Lead(r: Rec, o: nat): nat { 64 * r.prefix + o }

  /** Index k belongs to slot o. */
  predicate Leads(r: Rec, o: nat, k: nat) { Shr(k, r.shift) == Lead(r, o) }

  /** Index k belongs below the node. */
  predicate Covers(r: Rec, k: nat) { Shr(k, r.shift + 6) == r.prefix }

  /** radix_tree_descend: (index >> shift) & MAP_MASK */
  function Digit(r: Rec, k: nat): nat { Shr(k, r.shift) % 64 }

  lemma {:induction false} CoversLeads(r: Rec, k: nat)
    ensures Covers(r, k) ==> Leads(r, Digit(r, k), k)
    ensures forall o :: 0 <= o < 64 && Leads(r, o, k) ==> Covers(r, k) && o == Digit(r, k)
  {}

  /** Some index in S has these leading digits. */
  ghost predicate Any(S: iset<nat>, s: nat, q: nat) { exists k :: k in S && Shr(k, s) == q }

  lemma {:induction false} AnyIn(S: iset<nat>, s: nat, k: nat)
    requires k in S
    ensures Any(S, s, Shr(k, s))
  {}

  lemma {:induction false} AnyMono(S: iset<nat>, S': iset<nat>, s: nat, q: nat)
    requires Any(S, s, q) && forall k :: k in S && Shr(k, s) == q ==> k in S'
    ensures Any(S', s, q)
  {
    var k :| k in S && Shr(k, s) == q;
    assert k in S';
  }

  /** An index below a node is in one of its slots. */
  lemma {:induction false} AnySlot(S: iset<nat>, s: nat, q: nat) returns (o: nat)
    requires Any(S, s + 6, q)
    ensures o < 64 && Any(S, s, 64 * q + o)
  {
    var k :| k in S && Shr(k, s + 6) == q;
    o := Shr(k, s) % 64;
    assert Shr(k, s) == 64 * q + o;
  }

  lemma {:induction false} AnyUp(S: iset<nat>, s: nat, q: nat, o: nat)
    requires o < 64 && Any(S, s, 64 * q + o)
    ensures Any(S, s + 6, q)
  {
    var k :| k in S && Shr(k, s) == 64 * q + o;
    assert Shr(k, s + 6) == q;
  }

  // ---- links ----

  /**
   * Some index below LIMIT is below the node. From 2^64 on, indices are past the last one: only
   * a search that wraps gets there (RxIdr).
   */
  predicate Fits(prefix: nat, shift: nat) { Shl(prefix, shift + 6) < LIMIT }

  /** A node agrees with its parent and its children. */
  ghost predicate NodeOk(h: Shot, n: RxNode)
    requires n in h.m
  {
    var r := h.m[n];
    && |r.slots| == 64 && |r.tags| == 3 && r.shift % 6 == 0 && r.shift <= 60 && r.offset < 64 && Fits(r.prefix, r.shift)
    && (r.parent == null ==> h.top == Child(n) && r.prefix == 0 && r.offset == 0)
    && (r.parent != null ==>
        && r.parent in h.m && |h.m[r.parent].slots| == 64 && h.m[r.parent].slots[r.offset] == Child(n)
        && h.m[r.parent].shift == r.shift + 6 && r.prefix == Lead(h.m[r.parent], r.offset))
    && (forall o :: 0 <= o < 64 && r.slots[o].Child? ==>
        r.shift > 0 && r.slots[o].n in h.m && h.m[r.slots[o].n].parent == n && h.m[r.slots[o].n].offset == o)
    && (forall o :: 0 <= o < 64 && r.slots[o].Item? ==> r.shift == 0)
  }

  ghost predicate Linked(h: Shot) {
    && (h.top.Child? ==> h.top.n in h.m && h.m[h.top.n].parent == null)
    && forall n :: n in h.m ==> NodeOk(h, n)
  }

  lemma {:induction false} LinkedAt(h: Shot, n: RxNode)
    requires Linked(h) && n in h.m
    ensures NodeOk(h, n)
  {}

  lemma {:induction false} FitsZero(s: nat)
    ensures Shl(0, s) == 0 && (s >= 6 ==> Fits(0, s - 6))
  {
    if s >= 6 { FitsZero(s - 6); }
  }

  /** The child below slot o, on the way to an index. */
  lemma {:induction false} FitsLead(r: Rec, o: nat, k: nat)
    requires Leads(r, o, k) && k < LIMIT && r.shift >= 6
    ensures Fits(Lead(r, o), r.shift - 6)
  {
    ShrShl(k, Lead(r, o), r.shift);
  }

  lemma {:induction false} BasicAt(h: Shot, n: RxNode)
    requires Linked(h) && n in h.m
    ensures var r := h.m[n];
      && |r.slots| == 64 && |r.tags| == 3 && r.shift % 6 == 0 && r.shift <= 60 && r.offset < 64
      && (r.parent == null ==> h.top == Child(n) && r.prefix == 0 && r.offset == 0)
  {
    hide Linked;
    LinkedAt(h, n);
  }

  /** A node's child in a slot. */
  lemma {:induction false} ChildAt(h: Shot, n: RxNode, o: nat)
    requires Linked(h) && n in h.m && o < 64 && |h.m[n].slots| == 64 && h.m[n].slots[o].Child?
    ensures var c := h.m[n].slots[o].n;
      c in h.m && h.m[c].parent == n && h.m[c].offset == o && h.m[c].shift + 6 == h.m[n].shift
          && h.m[c].prefix == Lead(h.m[n], o)
  {
    LinkedAt(h, n);
    LinkedAt(h, h.m[n].slots[o].n);
  }

  lemma {:induction false} NotItem(h: Shot, n: RxNode, o: nat)
    requires Linked(h) && n in h.m && |h.m[n].slots| == 64 && o < 64 && h.m[n].shift > 0
    ensures !h.m[n].slots[o].Item?
  {
    LinkedAt(h, n);
  }

  /** A node's parent. */
  lemma {:induction false} ParentAt(h: Shot, n: RxNode)
    requires Linked(h) && n in h.m && h.m[n].parent != null
    ensures var r, p := h.m[n], h.m[n].parent;
      p in h.m && |h.m[p].slots| == 64 && r.offset < 64 && h.m[p].slots[r.offset] == Child(n)
      && h.m[p].shift == r.shift + 6 && r.prefix == Lead(h.m[p], r.offset)
  {
    hide Linked, Fits, Lead;
    LinkedAt(h, n);
  }

  lemma {:induction false} ParentCovers(h: Shot, n: RxNode, k: nat)
    requires Linked(h) && n in h.m && Covers(h.m[n], k) && h.m[n].parent != null
    ensures var p := h.m[n].parent;
      p in h.m && Covers(h.m[p], k) && Digit(h.m[p], k) == h.m[n].offset && h.m[p].shift == h.m[n].shift + 6
    ensures var p := h.m[n].parent; |h.m[p].slots| == 64 && h.m[p].slots[Digit(h.m[p], k)] == Child(n)
  {
    ParentAt(h, n);
    hide Linked;
    CoversLeads(h.m[h.m[n].parent], k);
    assert Leads(h.m[h.m[n].parent], h.m[n].offset, k);
  }

  /** The top node is above all others. */
  lemma {:induction false} TopHighest(h: Shot, n: RxNode)
    requires Linked(h) && n in h.m
    ensures h.top.Child? && h.m[n].shift <= h.m[h.top.n].shift && (h.m[n].shift == h.m[h.top.n].shift ==> n == h.top.n)
    decreases 60 - h.m[n].shift
  {
    LinkedAt(h, n);
    if h.m[n].parent != null {
      LinkedAt(h, h.m[n].parent);
      TopHighest(h, h.m[n].parent);
    }
  }

  /** Two nodes of one level that cover an index are the same. */
  lemma {:induction false} Unique(h: Shot, n: RxNode, n': RxNode, k: nat)
    requires Linked(h) && n in h.m && n' in h.m && h.m[n].shift == h.m[n'].shift && Covers(h.m[n], k)
      && Covers(h.m[n'], k)
    ensures n == n'
    decreases 60 - h.m[n].shift
  {
    TopHighest(h, n); TopHighest(h, n');
    LinkedAt(h, n); LinkedAt(h, n');
    if h.m[n].parent != null && h.m[n'].parent != null {
      ParentCovers(h, n, k); ParentCovers(h, n', k);
      LinkedAt(h, h.m[n].parent);
      Unique(h, h.m[n].parent, h.m[n'].parent, k);
    }
  }

  /** Above a node that covers an index, the index leads through child pointers. */
  lemma {:induction false} OnPath(h: Shot, n: RxNode, n': RxNode, k: nat)
    requires Linked(h) && n in h.m && n' in h.m && h.m[n].shift < h.m[n'].shift && Covers(h.m[n], k)
      && Covers(h.m[n'], k)
    ensures |h.m[n'].slots| == 64 && h.m[n'].slots[Digit(h.m[n'], k)].Child?
    decreases h.m[n'].shift - h.m[n].shift
  {
    hide Linked, NodeOk;
    LinkedAt(h, n'); Shifts(h, n, n');
    TopHighest(h, n); TopHighest(h, n');
    ParentCovers(h, n, k);
    var p := h.m[n].parent;
    if h.m[p].shift == h.m[n'].shift {
      Unique(h, p, n', k);
    } else {
      OnPath(h, p, n', k);
    }
  }

  /** A node below another one is not the top, and at least one level below. */
  lemma {:induction false} Shifts(h: Shot, n: RxNode, n': RxNode)
    requires Linked(h) && n in h.m && n' in h.m && h.m[n].shift < h.m[n'].shift
    ensures h.m[n].parent != null && h.m[n].shift + 6 <= h.m[n'].shift
  {
    hide Linked, NodeOk;
    BasicAt(h, n); BasicAt(h, n');
    TopHighest(h, n');
  }

  // ---- contents ----

  ghost function Keys(M: map<nat, Entry>): iset<nat> { iset k | k in M }

  ghost function FreeIds(M: map<nat, Entry>): iset<nat> { iset k: nat | k !in M }

  /** What the map says about an index. */
  function At(M: map<nat, Entry>, k: nat): Entry { if k in M then M[k] else Null }

  /** A slot agrees with the map: the entry of an index at the bottom, and no empty slot above an index in use. */
  ghost predicate SlotHolds(r: Rec, o: nat, M: map<nat, Entry>)
    requires o < |r.slots|
  {
    if r.shift == 0 then r.slots[o] == At(M, Lead(r, o))
    else r.slots[o].Child? || !Any(Keys(M), r.shift, Lead(r, o))
  }

  ghost predicate TopHolds(h: Shot, M: map<nat, Entry>) {
    match h.top
    case Child(n) => n in h.m && forall k :: k in M ==> Covers(h.m[n], k)
    case _ => h.top == At(M, 0) && forall k :: k in M ==> k == 0
  }

  /** Memory holds the map. */
  ghost predicate Holds(h: Shot, M: map<nat, Entry>) {
    && TopHolds(h, M)
    && (forall k :: k in M ==> k < LIMIT && !M[k].Child?)
    && forall n, o :: n in h.m && 0 <= o < |h.m[n].slots| ==> SlotHolds(h.m[n], o, M)
  }

  /** A slot that counts: it has an entry, or (IDR only) stands for an index in use with a NULL entry. */
  ghost predicate Used(r: Rec, o: nat, M: map<nat, Entry>)
    requires o < |r.slots|
  {
    r.slots[o] != Null || (r.shift == 0 && Lead(r, o) in M)
  }

  ghost function UsedSlots(r: Rec, M: map<nat, Entry>): set<nat> { set o | 0 <= o < |r.slots| && Used(r, o, M) }

  /** node->count is the number of slots in use. */
  ghost predicate Counted(h: Shot, M: map<nat, Entry>) {
    forall n :: n in h.m ==> h.m[n].count == |UsedSlots(h.m[n], M)|
  }

  lemma {:induction false} CountAt(h: Shot, M: map<nat, Entry>, n: RxNode)
    requires Counted(h, M) && n in h.m
    ensures h.m[n].count == |UsedSlots(h.m[n], M)|
  {}

  /** The index lies in the range of the tree as it is. */
  ghost predicate InRange(h: Shot, k: nat) {
    if h.top.Child? then h.top.n in h.m && Covers(h.m[h.top.n], k) else k == 0
  }

  ghost predicate SlotTagged(r: Rec, t: nat, o: nat, S: iset<nat>)
    requires t < |r.tags|
  {
    o in r.tags[t] <==> o < 64 && Any(S, r.shift, Lead(r, o))
  }

  ghost predicate RootTagged(h: Shot, t: nat, S: iset<nat>) { t in h.tags <==> exists k :: k in S && InRange(h, k) }

  /** A tag bit is set exactly above the indices that carry the tag. */
  ghost predicate TagOk(h: Shot, t: nat, S: iset<nat>) {
    RootTagged(h, t, S) && forall n, o: nat :: n in h.m && t < |h.m[n].tags| ==> SlotTagged(h.m[n], t, o, S)
  }

  ghost predicate Tagged(h: Shot, T: seq<iset<nat>>) { |T| == 3 && forall t :: 0 <= t < 3 ==> TagOk(h, t, T[t]) }

  // ---- lookup ----

  /** Where the entry of an index is, or a reason why it has none. */
  lemma {:induction false} AtLeaf(h: Shot, M: map<nat, Entry>, n: RxNode, k: nat)
    requires Linked(h) && Holds(h, M) && n in h.m && Covers(h.m[n], k)
    ensures |h.m[n].slots| == 64
    ensures !h.m[n].slots[Digit(h.m[n], k)].Child? ==> h.m[n].slots[Digit(h.m[n], k)] == At(M, k)
  {
    LinkedAt(h, n);
    var r := h.m[n];
    var o := Digit(r, k);
    CoversLeads(r, k);
    assert SlotHolds(r, o, M);
    if r.shift > 0 && !r.slots[o].Child? {
      if k in M { AnyIn(Keys(M), r.shift, k); }
    }
  }
}
