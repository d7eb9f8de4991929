/** Finding and taking the lowest free id of an IDR (radix-tree.c:2159-2228, 1171-1184, 1258-1263, 1480-1549). */
module RxIdr {
  import opened CTypes
  import opened RxModel
  import opened RxHeap
  import opened RxSteps
  import opened RxShape
  import opened RxSnug
  import opened RxNeed
  import opened RxTree
  import opened RxInsert
  import opened RxTags
  import opened RxIter

  // ---- free ids ----

  /** Between id k and slot o of its node no id is free. */
  lemma {:induction false} BitsSkip(h: Shot, M: map<nat, Entry>, T: seq<iset<nat>>, n: RxNode, k: nat, o: nat)
    requires Good(h, M, T, true) && n in h.m && |h.m[n].tags| == 3 && Covers(h.m[n], k) && Digit(h.m[n], k) < o <= 64
    requires forall p: nat :: Digit(h.m[n], k) <= p < o ==> p !in h.m[n].tags[0]
    ensures Skips(T[0], k, FirstIndex(h.m[n], o))
  {
    hide Linked, Sound;
    var r, S := h.m[n], T[0];
    CoversLeads(r, k);
    assert TagOk(h, 0, S);
    forall j: nat | j in S && k <= j < FirstIndex(r, o) ensures false {
      ShrMono(k, j, r.shift);
      ShrShl(j, Lead(r, o), r.shift);
      var p := Shr(j, r.shift) - 64 * r.prefix;
      assert SlotTagged(r, 0, p, S);
      AnyIn(S, r.shift, j);
    }
  }

  /** g is the first free index from 2^64 on, and is in the first child of the top node that is past the last index. */
  ghost predicate Spare(M: map<nat, Entry>, g: nat) {
    TWO64 <= g < LIMIT && g !in M && forall k: nat :: TWO64 <= k < g ==> k in M
  }

  lemma {:induction false} SpareFree(M: map<nat, Entry>, T: seq<iset<nat>>, g: nat)
    requires Mode(true, M, T) && Spare(M, g)
    ensures g in T[0]
  {}

  lemma {:induction false} ULongIs(at: nat)
    ensures at < LIMIT ==> ULong(at) == if at < TWO64 then at else at - TWO64
  {}

  /** Clearing the digits below a node, with 2^64 or without. */
  lemma {:induction false} AlignWraps(x: nat, s: nat)
    requires s % 6 == 0 && s <= 54
    ensures Align(TWO64 + x, s) == TWO64 + Align(x, s)
  {
    hide Shr, Shl;
    WrapDigits(x, s + 6);
    ShlAdd(Shl(16, 54 - s), Shr(x, s + 6), s + 6);
    ShlCompose(16, 54 - s, s + 6);
    ShlTop(16);
  }

  /** What an unsigned long has of an index still leads through the node. */
  ghost predicate Wrapped(r: Rec, at: nat, start: nat) {
    start == ULong(at) && at < LIMIT && (at < TWO64 || r.shift <= 54)
  }

  lemma {:induction false} WrappedDigit(r: Rec, at: nat, start: nat)
    requires Wrapped(r, at, start) && Covers(r, at) && r.shift % 6 == 0
    ensures Shr(start, r.shift) % 64 == Digit(r, at)
  {
    hide Shr;
    ULongIs(at);
    if at >= TWO64 { WrapDigits(start, r.shift); }
  }

  /** next_index gives the first index behind slot o, in an unsigned long. */
  lemma {:induction false} WrappedNext(r: Rec, at: nat, start: nat, o: nat)
    requires Wrapped(r, at, start) && Covers(r, at) && r.shift % 6 == 0 && Digit(r, at) < o <= 64
    ensures SlotIndex(start, r.shift, o) == ULong(FirstIndex(r, o)) && at < FirstIndex(r, o)
  {
    hide Shr, Shl, Align;
    ULongIs(at);
    SlotSum(at, r, o);
    if at >= TWO64 { AlignWraps(start, r.shift); }
    CoversLeads(r, at);
    ShrShl(at, Lead(r, o), r.shift);
  }

  /** The next slot with a free id: its first index is 2^64 at the latest, or if that has been passed, the spare one. */
  lemma {:induction false} NextBound(h: Shot, M: map<nat, Entry>, T: seq<iset<nat>>, n: RxNode, k: nat, o: nat, g: nat)
    requires Good(h, M, T, true) && Spare(M, g) && n in h.m && k < g && Covers(h.m[n], k)
    requires Digit(h.m[n], k) < o <= 64 && Skips(T[0], k, FirstIndex(h.m[n], o))
    ensures FirstIndex(h.m[n], o) <= g && (k < TWO64 ==> FirstIndex(h.m[n], o) <= TWO64)
  {
    hide Sound, Tagged, Skips, FirstIndex, Shr, Shl;
    SpareFree(M, T, g);
    GoodLinked(h, M, T, true);
    hide Linked;
    SkipsNot(T[0], k, FirstIndex(h.m[n], o), g);
    BasicAt(h, n);
    if k < TWO64 { if h.m[n].shift == 60 { TopFirst(h, n, o); } else { NodeEnds(k, h.m[n], o); } }
  }

  /** A node with shift 60 is the top one. */
  lemma {:induction false} TopFirst(h: Shot, n: RxNode, o: nat)
    requires Linked(h) && n in h.m && h.m[n].shift == 60
    ensures FirstIndex(h.m[n], o) == o * 0x1000_0000_0000_0000
  {
    hide Shr, Shl;
    TopHighest(h, n); TopAt(h); BasicAt(h, h.top.n);
    hide Linked;
    ShlTop(o);
  }

  /** Below the top, the range of a node ends at 2^64 or before. */
  lemma {:induction false} NodeEnds(k: nat, r: Rec, o: nat)
    requires Covers(r, k) && k <= ULONG_MAX && r.shift % 6 == 0 && r.shift < 60 && o <= 64
    ensures FirstIndex(r, o) <= FirstIndex(r, 64) <= TWO64
  {
    hide Shr, Shl;
    RangeEnds(k, r.shift + 6);
    ShlNested(r.prefix + 1, r.shift);
    ShlLess(Lead(r, o), Lead(r, 64), r.shift);
  }

  lemma {:induction false} SkipsNot(S: iset<nat>, lo: int, hi: int, k: nat)
    requires Skips(S, lo, hi) && k in S
    ensures lo <= k ==> hi <= k
  {}

  // ---- where a search wraps ----

  /** No id from s on is free. */
  ghost predicate AllUsed(M: map<nat, Entry>, s: nat) { forall k: nat :: s <= k <= ULONG_MAX ==> k in M }

  /** All ids that share their digits from level l up with s are in use. */
  ghost predicate Whole(M: map<nat, Entry>, s: nat, l: nat) { forall k: nat :: Shr(k, l) == Shr(s, l) ==> k in M }

  /** The level, at most l, of the largest such block. */
  ghost function Block(M: map<nat, Entry>, s: nat, l: nat): nat {
    if l < 6 || Whole(M, s, l) then l else Block(M, s, l - 6)
  }

  /** Where the search goes first: to the end of the node whose slot the largest block of used ids around s is. */
  ghost function FirstStop(M: map<nat, Entry>, s: nat): nat {
    var b := Block(M, s, 60);
    Shl(Shr(s, b + 6) + 1, b + 6)
  }

  /** The largest power of 64 that is not above t. */
  function Unit(t: nat): (u: nat)
    requires t > 0
    ensures 0 < u <= t
  {
    if t < 64 then 1 else 64 * Unit(t / 64)
  }

  /** Where the search goes last before it gets to 2^64, if no id from c on is free. */
  function LastStop(c: nat): (d: nat)
    requires c < TWO64
    ensures c <= d < TWO64
  {
    TWO64 - Unit(TWO64 - c)
  }

  /** From c on, the search gets past 2^64 without stopping above max. */
  predicate Passes(c: nat, max: nat) { c >= TWO64 || LastStop(c) <= max }

  /**
   * When the search for a free id in [start, max] wraps: none is free, not even above max, and no stop is above max.
   */
  ghost predicate Slips(M: map<nat, Entry>, start: nat, max: nat) {
    start <= max && AllUsed(M, start) && Passes(FirstStop(M, start), max)
  }

  /** With ULONG_MAX for max, that is whenever no id is free. */
  lemma {:induction false} SlipsAtMax(M: map<nat, Entry>, start: nat)
    requires start <= ULONG_MAX
    ensures Slips(M, start, ULONG_MAX) <==> AllUsed(M, start)
  {
    hide Block, FirstStop, Unit;
  }

  lemma {:induction false} UnitShl(u: nat, s: nat)
    requires u > 0 && s % 6 == 0
    ensures Shl(u, s) > 0 && Unit(Shl(u, s)) == Shl(Unit(u), s)
  {
    if s >= 6 { UnitShl(u, s - 6); }
  }

  /**
   * From a stop c, a slot at level s of its node, the search goes on to the end
   * of that slot: the last stop is the same.
   */
  lemma {:induction false} StopOn(c: nat, s: nat)
    requires s % 6 == 0 && s <= 60 && c < TWO64 && c == Shl(Shr(c, s), s) && Shr(c, s) % 64 != 0
    ensures c + Shl(1, s) <= TWO64
      && if c + Shl(1, s) == TWO64 then LastStop(c) == c else LastStop(c + Shl(1, s)) == LastStop(c)
  {
    hide Shr, Shl;
    var q, w := Shr(c, s), Shl(16, 60 - s);
    ShlCompose(16, 60 - s, s);
    ShlTop(16);
    ShrShl(c, w, s);
    ShlAdd(q, w - q, s);
    ShlAdd(q, 1, s);
    ShlAdd(w - q - 1, 1, s);
    assert w % 64 == 0 || s == 60 by { if s < 60 { ShlWhole(16, 60 - s); } }
    if s == 60 { assert Shl(16, 0) == 16 by { ShlNone(16); } }
    var u := w - q;
    assert u > 0 && u % 64 != 0;
    UnitShl(u, s);
    ShlLess(1, u, s);
    if u > 1 {
      UnitShl(u - 1, s);
      assert Unit(u - 1) == Unit(u);
    } else {
      assert Unit(1) == 1;
      ShlZero(s);
    }
  }

  lemma {:induction false} ShlNone(q: nat)
    ensures Shl(q, 0) == q
  {}

  lemma {:induction false} ShlZero(s: nat)
    ensures Shl(0, s) == 0
  {
    if s >= 6 { ShlZero(s - 6); }
  }

  // ---- the search ----

  /** Where the descent looks: at slot `offset` of node, whose first index is `at`. */
  ghost predicate Looking(h: Shot, node: RxNode, offset: nat, at: nat) {
    node in h.m && offset <= 64 && FirstIndex(h.m[node], offset) == at && (offset < 64 ==> Leads(h.m[node], offset, at))
  }

  /** When all ids from k on are in use, no later slot of the node has a free one, up to ULONG_MAX. */
  lemma {:induction false} NoLaterSlot(h: Shot, M: map<nat, Entry>, T: seq<iset<nat>>, n: RxNode, k: nat, o: nat)
    requires Good(h, M, T, true) && n in h.m && |h.m[n].tags| == 3 && AllUsed(M, k) && o < 64 && o in h.m[n].tags[0]
    requires h.m[n].shift % 6 == 0 && h.m[n].shift <= 60
    ensures FirstIndex(h.m[n], o) < k || FirstIndex(h.m[n], o) > ULONG_MAX
  {
    hide Sound, Shr, Shl;
    var r := h.m[n];
    assert TagOk(h, 0, T[0]);
    assert SlotTagged(r, 0, o, T[0]);
    var j: nat :| j in T[0] && Shr(j, r.shift) == Lead(r, o);
    FirstLeads(r, o);
    ShrShl(j, Lead(r, o), r.shift);
    if FirstIndex(r, o) <= ULONG_MAX {
      RangeEnds(FirstIndex(r, o), r.shift);
      ShrShl(j, Lead(r, o) + 1, r.shift);
    }
  }

  /**
   * A slot without free ids: the next one with any, and what an unsigned long has of
   * its first index (radix-tree.c:2200-2205).
   */
  method NextFree(root: RxRoot, node: RxNode, start0: nat, ghost at0: nat, ghost g: nat)
    returns (offset: nat, start: nat, ghost at: nat)
    requires Valid(root) && root.idr && Spare(root.items, g) && node in root.pool && at0 < g
    requires Covers(root.Now().m[node], at0) && Wrapped(root.Now().m[node], at0, start0)
    requires |node.tags| == 3 && Digit(root.Now().m[node], at0) !in node.tags[0]
    ensures Looking(root.Now(), node, offset, at) && at0 < at <= g && start == ULong(at)
    ensures at0 < TWO64 ==> at <= TWO64
    ensures Skips(root.tagged[0], at0, at) && (AllUsed(root.items, at0) && at < TWO64 ==> offset == 64)
    ensures offset < 64 ==> offset in node.tags[0]
  {
    hide Good, Linked, Skips, RxRoot.Now, FirstIndex, ULong, AllUsed, Wrapped, Spare;
    ghost var h, M, T := root.Now(), root.items, root.tagged;
    ValidParts(root);
    root.Reads(); root.ReadsAt(node);
    BasicAt(h, node);
    WrappedDigit(h.m[node], at0, start0);
    offset := Shr(start0, node.shift) % 64;
    ghost var o0 := offset;
    offset := FindNextBit(node.tags[0], offset + 1);
    forall p: nat | o0 <= p < offset ensures p !in node.tags[0] {}
    BitsSkip(h, M, T, node, at0, offset);
    WrappedNext(h.m[node], at0, start0, offset);
    NextBound(h, M, T, node, at0, offset, g);
    at := FirstIndex(h.m[node], offset);
    start := SlotIndex(start0, node.shift, offset);
    FirstLeads(h.m[node], offset);
    if AllUsed(M, at0) && at < TWO64 && offset < 64 { NoLaterSlot(h, M, T, node, at0, offset); }
  }

  lemma {:induction false} UpOne(h: Shot, n: RxNode, at: nat)
    requires Linked(h) && Looking(h, n, 64, at) && h.m[n].parent != null
    ensures var p := h.m[n].parent;
      p in h.m && Looking(h, p, h.m[n].offset + 1, at) && h.m[p].shift == h.m[n].shift + 6 <= 60
  {
    hide Linked;
    BasicAt(h, n);
    ParentAt(h, n);
    var r, p := h.m[n], h.m[n].parent;
    BasicAt(h, p);
    assert 64 * r.prefix + 64 == 64 * Lead(h.m[p], r.offset) + 64 == 64 * Lead(h.m[p], r.offset + 1);
    ShlNested(Lead(h.m[p], r.offset + 1), r.shift);
    FirstLeads(h.m[p], r.offset + 1);
  }

  /** at is the first index past the range of the tree. */
  ghost predicate PastTop(h: Shot, at: nat) { h.top.Child? && Looking(h, h.top.n, 64, at) }

  /** Climbing out of nodes whose last slots have no free id (radix-tree.c:2206-2212). */
  method ClimbOut(root: RxRoot, node0: RxNode, offset0: nat, ghost at: nat) returns (node: RxNode?, offset: nat)
    requires Valid(root) && Looking(root.Now(), node0, offset0, at)
    ensures node != null ==> node in root.pool && Looking(root.Now(), node, offset, at) && offset < 64
    ensures node == null ==> offset0 == 64 && PastTop(root.Now(), at)
    ensures offset0 < 64 ==> node == node0 && offset == offset0
    ensures node != null && offset0 == 64 ==> node.shift > 0 && offset > 0
  {
    hide Good, Linked, RxRoot.Now, Looking;
    ghost var h := root.Now();
    ValidParts(root);
    root.Reads();
    LookingIn(h, node0, offset0, at);
    node, offset := node0, offset0;
    while offset == 64
      invariant node != null && node in root.pool && Looking(h, node, offset, at) && offset <= 64
      invariant offset0 < 64 ==> node == node0 && offset == offset0
      invariant (node == node0 && offset == offset0) || (node.shift > 0 && offset > 0)
      decreases 60 - node.shift
    {
      root.ReadsAt(node);
      BasicAt(h, node);
      offset := node.offset + 1;
      if node.parent == null { return null, offset; }
      UpOne(h, node, at);
      root.ReadsAt(node.parent);
      LookingIn(h, node.parent, offset, at);
      node := node.parent;
    }
  }

  lemma {:induction false} LookingIn(h: Shot, n: RxNode, o: nat, at: nat)
    requires Looking(h, n, o, at)
    ensures n in h.m && o <= 64
    ensures o < 64 ==> Leads(h.m[n], o, at)
  {}

  /** What is past the range of the tree is not in use. It is not from 2^64 on: a tree of full height covers LIMIT. */
  lemma {:induction false} PastIsFree(h: Shot, M: map<nat, Entry>, at: nat)
    requires Linked(h) && TopHolds(h, M) && PastTop(h, at)
    ensures at !in M && !(TWO64 <= at < LIMIT)
  {
    hide Shr, Shl;
    var n := h.top.n;
    TopAt(h);
    BasicAt(h, n);
    hide Linked;
    assert at == Shl(64, h.m[n].shift);
    PastIndex(h.m[n].shift);
  }

  lemma {:induction false} PastIndex(s: nat)
    requires s % 6 == 0 && s <= 60
    ensures Shr(Shl(64, s), s + 6) == 1 && !(TWO64 <= Shl(64, s) < LIMIT)
  {
    hide Shr, Shl;
    ShlNested(1, s);
    ShrOfShl(1, s + 6);
    ShlValues();
    if s < 60 { ShlMono(64, s, 54); }
  }

  /**
   * What one turn of the loop comes to: it goes on, the range is exhausted (-ENOSPC), or the tree is too low (grow).
   */
  datatype Move = Stay | Full | Restart

  /** What has been found: the slot of an index with its id, a start for another round, or an error. */
  datatype Outcome = Free(node: RxNode?, offset: nat, index: nat) | Grow(start: nat) | NoSpace | NoMemory

  /** The slot of a free id. */
  ghost predicate FreeSlot(h: Shot, M: map<nat, Entry>, node: RxNode?, offset: nat, index: nat) {
    SlotFor(h, node, offset, index) && index !in M
  }

  /** The bit of a slot at the bottom: the id is free. */
  lemma {:induction false} FreeAtBottom(h: Shot, M: map<nat, Entry>, T: seq<iset<nat>>, n: RxNode, k: nat)
    requires Good(h, M, T, true) && n in h.m && Covers(h.m[n], k) && |h.m[n].tags| == 3
      && Digit(h.m[n], k) in h.m[n].tags[0] && h.m[n].shift == 0
    ensures k !in M
  {
    assert TagOk(h, 0, T[0]);
    LeafBit(h, T[0], 0, n, k);
  }

  /** The bit of a slot: whether any id that leads through it is free. */
  lemma {:induction false} FreeBelow(h: Shot, M: map<nat, Entry>, T: seq<iset<nat>>, n: RxNode, k: nat)
    requires Good(h, M, T, true) && n in h.m && Covers(h.m[n], k) && |h.m[n].tags| == 3
    ensures Digit(h.m[n], k) in h.m[n].tags[0] <==> !Whole(M, k, h.m[n].shift)
  {
    hide Sound;
    CoversLeads(h.m[n], k);
    assert TagOk(h, 0, T[0]);
    assert SlotTagged(h.m[n], 0, Digit(h.m[n], k), T[0]);
    if !Whole(M, k, h.m[n].shift) {
      var j: nat :| Shr(j, h.m[n].shift) == Shr(k, h.m[n].shift) && j !in M;
      AnyIn(T[0], h.m[n].shift, j);
    }
  }

  /** The slot the search goes on with. */
  method Resume(root: RxRoot, node: RxNode, offset: nat, ghost at: nat) returns (child: Entry, shift: nat)
    requires Valid(root) && node in root.pool && Looking(root.Now(), node, offset, at) && offset < 64
    ensures AtSlot(root.Now(), node, offset, child, shift, at) && shift == node.shift && shift % 6 == 0 && shift <= 60
  {
    hide Good, Linked, RxRoot.Now;
    ghost var h := root.Now();
    ValidParts(root);
    root.Reads(); root.ReadsAt(node);
    BasicAt(h, node);
    LeadsCovers(h.m[node], offset, at);
    child, shift := node.slots[offset], node.shift;
  }

  // ---- stops ----

  /** The next stop is the end of node r, if no id from s on is free. */
  ghost predicate Poised(M: map<nat, Entry>, s: nat, max: nat, r: Rec) {
    AllUsed(M, s) ==> (Slips(M, s, max) <==> Passes(FirstIndex(r, 64), max))
  }

  /** The search is at a stop, a slot at level l of its node that is not the first slot. */
  ghost predicate AtStop(M: map<nat, Entry>, s: nat, max: nat, l: nat, at: nat) {
    && 6 <= l <= 60 && l % 6 == 0 && at < TWO64 && at == Shl(Shr(at, l), l) && Shr(at, l) % 64 != 0
    && (Slips(M, s, max) <==> LastStop(at) <= max)
  }

  /** From level l up, no block around s is all in use. */
  ghost predicate NoWhole(M: map<nat, Entry>, s: nat, l: nat) {
    forall i: nat :: l <= i <= 60 && i % 6 == 0 ==> !Whole(M, s, i)
  }

  /**
   * Where the search is on its way past 2^64, if no id from s on is free: still
   * before its first stop, at a stop, or past.
   */
  ghost predicate Track(M: map<nat, Entry>, s: nat, max: nat, l: nat, at: nat) {
    AllUsed(M, s) ==> (at == s && NoWhole(M, s, l)) || AtStop(M, s, max, l, at) || at >= TWO64
  }

  lemma {:induction false} BlockIs(M: map<nat, Entry>, s: nat, l: nat, i: nat)
    requires NoWhole(M, s, l + 6) && Whole(M, s, l) && l <= i <= 60 && l % 6 == 0 && i % 6 == 0
    ensures Block(M, s, i) == l
  {
    hide Whole;
    if l < i { BlockIs(M, s, l, i - 6); }
  }

  /** Into a node: either its slot has a free id, or the next stop is its end. */
  lemma {:induction false} Enter(h: Shot, M: map<nat, Entry>, T: seq<iset<nat>>, n: RxNode, s: nat, max: nat, at: nat)
    requires Good(h, M, T, true) && n in h.m && Covers(h.m[n], at) && |h.m[n].tags| == 3 && h.m[n].shift % 6 == 0
    requires s <= at <= max <= ULONG_MAX && h.m[n].shift <= 60 && Track(M, s, max, h.m[n].shift + 6, at)
    ensures Digit(h.m[n], at) !in h.m[n].tags[0] ==> Poised(M, s, max, h.m[n])
    ensures Digit(h.m[n], at) in h.m[n].tags[0] ==> Track(M, s, max, h.m[n].shift, at)
  {
    hide Good, Whole, Shr, Shl, AllUsed, LastStop;
    var r := h.m[n];
    FreeBelow(h, M, T, n, at);
    if AllUsed(M, s) {
      if AtStop(M, s, max, r.shift + 6, at) {
        StopBlock(M, s, at, r.shift);
        StopEnd(r, at);
        StopOn(at, r.shift + 6);
      } else if Whole(M, s, r.shift) {
        BlockIs(M, s, r.shift, 60);
        EndOf(r, s);
      }
    }
  }

  /** The end of a node, from any index below it. */
  lemma {:induction false} EndOf(r: Rec, k: nat)
    requires Covers(r, k) && r.shift % 6 == 0
    ensures FirstIndex(r, 64) == Shl(Shr(k, r.shift + 6) + 1, r.shift + 6)
  {
    ShlNested(r.prefix + 1, r.shift);
  }

  /** A node that begins at a stop ends where the slot of the stop does. */
  lemma {:induction false} StopEnd(r: Rec, at: nat)
    requires Covers(r, at) && r.shift % 6 == 0 && at == Shl(Shr(at, r.shift + 6), r.shift + 6)
    ensures FirstIndex(r, 64) == at + Shl(1, r.shift + 6)
  {
    hide Shr, Shl;
    EndOf(r, at);
    ShlAdd(Shr(at, r.shift + 6), 1, r.shift + 6);
  }

  /** Below a stop all ids are in use. */
  lemma {:induction false} StopBlock(M: map<nat, Entry>, s: nat, at: nat, l: nat)
    requires AllUsed(M, s) && s <= at <= ULONG_MAX && l % 6 == 0 && l < 60 && at == Shl(Shr(at, l + 6), l + 6)
    ensures Whole(M, at, l)
  {
    hide Shr, Shl;
    forall k: nat | Shr(k, l) == Shr(at, l)
      ensures k in M
    {
      ShrUp(k, at, l, l + 6);
      ShrShl(k, Shr(at, l + 6), l + 6);
      RangeEnds(at, l + 6);
      ShrShl(k, Shr(at, l + 6) + 1, l + 6);
    }
  }

  // ---- turns ----

  /** What a jump from a slot without free ids comes to. */
  ghost predicate Jumped(M: map<nat, Entry>, S: iset<nat>, s: nat, max: nat, g: nat, move: Move, shift: nat, start: nat,
          at: nat) {
    && start == ULong(at) && s <= at <= g
    && match move
       case Full => Skips(S, s, max + 1) && (Slips(M, s, max) ==> g - TWO64 > max)
       case Restart => s < at <= max && Skips(S, s, at) && at !in M
       case Stay => Skips(S, s, at) && (at <= max || Slipped(M, s, max, at)) && Track(M, s, max, shift, at)
  }

  /** The search has got past 2^64, and what an unsigned long has of the index is not above max. */
  ghost predicate Slipped(M: map<nat, Entry>, s: nat, max: nat, at: nat) {
    at >= TWO64 && at - TWO64 <= max && Slips(M, s, max)
  }

  /** The stop is above max. */
  lemma {:induction false} JumpFull(M: map<nat, Entry>, S: iset<nat>, s: nat, max: nat, r: Rec, o: nat, at: nat)
    requires Poised(M, s, max, r) && at == FirstIndex(r, o) && max < at <= ULONG_MAX && s <= max && Skips(S, s, at)
    requires AllUsed(M, s) ==> o == 64
    ensures Skips(S, s, max + 1) && !Slips(M, s, max)
  {
    hide Block, FirstStop, Unit, FirstIndex, AllUsed;
  }

  /** There is no stop before 2^64. */
  lemma {:induction false} JumpPast(M: map<nat, Entry>, S: iset<nat>, s: nat, max: nat, r: Rec, o: nat)
    requires Poised(M, s, max, r) && FirstIndex(r, o) == TWO64 && o <= 64 && Skips(S, s, TWO64)
    requires forall k: nat :: k in S <==> k !in M
    ensures Slips(M, s, max)
  {
    hide Slips, Shl;
    ShlLess(Lead(r, o), Lead(r, 64), r.shift);
    assert AllUsed(M, s);
  }

  /** There is one: the search goes on there. */
  lemma {:induction false} JumpStop(h: Shot, M: map<nat, Entry>, s: nat, max: nat, r: Rec, n: RxNode, o: nat, at: nat)
    requires n in h.m && Looking(h, n, o, at) && o < 64 && h.m[n].shift % 6 == 0 && h.m[n].shift <= 60
    requires Poised(M, s, max, r) && at < TWO64
      && (AllUsed(M, s) ==> FirstIndex(r, 64) == at && h.m[n].shift >= 6 && o > 0)
    ensures Track(M, s, max, h.m[n].shift, at)
  {
    hide Slips, Shr, Shl, AllUsed, LastStop;
    assert Lead(h.m[n], o) % 64 == o;
  }

  /** From a slot without free ids on to one with a free id, if there is one. */
  method Jump(root: RxRoot, node0: RxNode, start0: nat, max: nat, ghost s: nat, ghost at0: nat, ghost g: nat)
    returns (move: Move, node: RxNode, offset: nat, child: Entry, shift: nat, start: nat, ghost at: nat)
    requires Valid(root) && root.idr && Spare(root.items, g) && s <= max <= ULONG_MAX && node0 in root.pool
    requires Covers(root.Now().m[node0], at0) && Wrapped(root.Now().m[node0], at0, start0) && s <= at0 < g
    requires |node0.tags| == 3 && Digit(root.Now().m[node0], at0) !in node0.tags[0]
    requires Skips(root.tagged[0], s, at0)
    requires if at0 <= max then Poised(root.items, s, max, root.Now().m[node0]) else Slipped(root.items, s, max, at0)
    ensures Jumped(root.items, root.tagged[0], s, max, g, move, shift, start, at) && at0 < at
    ensures move.Stay? ==>
      AtSlot(root.Now(), node, offset, child, shift, at) && shift % 6 == 0 && shift <= 60 && node in root.pool
    ensures move.Stay? && shift == 0 ==> at !in root.items
  {
    hide Good, Linked, RxRoot.Now, Skips, Looking, FirstIndex, Poised, Slips, Track, ULong, AllUsed, Sound, AtSlot,
      PastTop, TopHolds, Wrapped, Spare;
    ghost var h, M, T := root.Now(), root.items, root.tagged;
    ValidParts(root);
    ModeOf(root);
    TopOf(root);
    root.Reads();
    node, child, shift := node0, Null, 0;
    offset, start, at := NextFree(root, node0, start0, at0, g);
    SpareBelow(M, g);
    ULongIs(at);
    ghost var r, o := h.m[node0], offset;
    FirstAt(h, node0, o, at);
    UsedFrom(M, s, at0);
    SkipsOn(T[0], s, at0, at);
    if start > max {
      if at0 <= max { JumpFull(M, T[0], s, max, r, o, at); } else { SkipsPart(T[0], s, at, max + 1); }
      return Full, node, offset, child, shift, start, at;
    }
    LookingIn(h, node0, o, at);
    if at0 <= max && at == TWO64 { JumpPast(M, T[0], s, max, r, o); }
    var up;
    up, offset := ClimbOut(root, node0, offset, at);
    if up == null {
      PastIsFree(h, M, at);
      return Move.Restart, node, offset, child, shift, start, at;
    }
    node := up;
    child, shift := Resume(root, node, offset, at);
    move := Stay;
    root.ReadsAt(node);
    if at < TWO64 { JumpStop(h, M, s, max, r, node, offset, at); } else { TrackPast(M, s, max, shift, at); }
    if shift == 0 {
      LeadsCovers(h.m[node0], o, at);
      FreeAtBottom(h, M, T, node0, at);
    }
  }

  lemma {:induction false} SpareBelow(M: map<nat, Entry>, g: nat)
    requires Spare(M, g)
    ensures TWO64 <= g < LIMIT
  {}

  lemma {:induction false} FirstAt(h: Shot, n: RxNode, o: nat, at: nat)
    requires Looking(h, n, o, at)
    ensures n in h.m && at == FirstIndex(h.m[n], o)
  {}

  lemma {:induction false} ModeOf(root: RxRoot)
    requires Valid(root) && root.idr
    ensures |root.tagged| == 3 && forall k: nat :: k in root.tagged[0] <==> k !in root.items
  {}

  lemma {:induction false} UsedFrom(M: map<nat, Entry>, s: nat, at: nat)
    requires s <= at
    ensures AllUsed(M, s) ==> AllUsed(M, at)
  {}

  lemma {:induction false} TrackPast(M: map<nat, Entry>, s: nat, max: nat, l: nat, at: nat)
    requires at >= TWO64
    ensures Track(M, s, max, l, at)
  {}

  // ---- idr_get_free_cmn ----

  /** One turn of the loop, after the step down: on to a slot with a free id. s is where the search began. */
  method Onward(root: RxRoot, node0: RxNode, offset0: nat, child0: Entry, shift0: nat, start0: nat, max: nat,
          ghost s: nat, ghost at0: nat, ghost g: nat)
    returns (move: Move, node: RxNode, offset: nat, child: Entry, shift: nat, start: nat, ghost at: nat)
    requires Valid(root) && root.idr && Spare(root.items, g) && node0 in root.pool && s <= at0 <= g
      && s <= max <= ULONG_MAX
    requires start0 == ULong(at0) && (at0 <= max || (Slipped(root.items, s, max, at0) && shift0 <= 54))
    requires AtSlot(root.Now(), node0, offset0, child0, shift0, at0) && shift0 <= 60 && shift0 % 6 == 0
    requires Skips(root.tagged[0], s, at0) && Track(root.items, s, max, shift0 + 6, at0)
    ensures Jumped(root.items, root.tagged[0], s, max, g, move, shift, start, at) && at0 <= at
    ensures move.Stay? ==>
      AtSlot(root.Now(), node, offset, child, shift, at) && shift % 6 == 0 && shift <= 60 && node in root.pool
    ensures move.Stay? && shift == 0 ==> at !in root.items
    ensures move.Stay? && at == at0 ==> node == node0 && shift == shift0
    ensures at0 !in root.items ==> move.Stay? && at == at0
    ensures Tidy(root.Now(), if shift0 == 0 then node0 else null) && move.Stay? ==>
      Tidy(root.Now(), if shift == 0 then node else null)
    ensures Tidy(root.Now(), if shift0 == 0 then node0 else null) && !move.Stay? ==> Tidy(root.Now(), null)
  {
    hide Good, Linked, RxRoot.Now, Skips, Looking, FirstIndex, Tidy, Poised, Slips, Track, Whole, ULong, AllUsed;
    ghost var h, M, T := root.Now(), root.items, root.tagged;
    ValidParts(root);
    root.Reads(); root.ReadsAt(node0);
    BasicAt(h, node0);
    FreeBelow(h, M, T, node0, at0);
    if offset0 !in node0.tags[0] {
      WholeUsed(M, at0, shift0);
      if at0 <= max { Enter(h, M, T, node0, s, max, at0); }
      if Tidy(h, if shift0 == 0 then node0 else null) { TidyUsed(h, M, T, node0, at0); }
      move, node, offset, child, shift, start, at := Jump(root, node0, start0, max, s, at0, g);
      if move.Stay? && Tidy(h, null) { TidyLess(h, node); }
    } else {
      move, node, offset, child, shift, start, at := Stay, node0, offset0, child0, shift0, start0, at0;
      if at0 <= max { Enter(h, M, T, node0, s, max, at0); } else { TrackPast(M, s, max, shift, at0); }
      if shift0 == 0 { FreeAtBottom(h, M, T, node0, at0); }
    }
  }

  lemma {:induction false} WholeUsed(M: map<nat, Entry>, k: nat, l: nat)
    requires Whole(M, k, l)
    ensures k in M
  {}

  /** A bottom node with a bit cleared has an entry. */
  lemma {:induction false} TidyUsed(h: Shot, M: map<nat, Entry>, T: seq<iset<nat>>, n: RxNode, k: nat)
    requires Good(h, M, T, true) && n in h.m && Covers(h.m[n], k) && |h.m[n].tags| == 3
      && Digit(h.m[n], k) !in h.m[n].tags[0]
    requires Tidy(h, if h.m[n].shift == 0 then n else null)
    ensures Tidy(h, null)
  {
    if h.m[n].shift == 0 {
      hide Linked;
      assert TagOk(h, 0, T[0]);
      LeafBit(h, T[0], 0, n, k);
      UsedFor(h, M, n, k);
      assert Digit(h.m[n], k) in UsedSlots(h.m[n], M);
      assert h.m[n].count == |UsedSlots(h.m[n], M)|;
    }
  }

  /**
   * What an outcome says about the ids from s on. The slot of a free id is that of index `at`; it is returned for
   * the id that `at` is in an unsigned long.
   */
  ghost predicate Answers(h: Shot, M: map<nat, Entry>, S: iset<nat>, s: nat, max: nat, g: nat, out: Outcome, at: nat) {
    match out
    case Free(node, offset, index) =>
      && FreeSlot(h, M, node, offset, at) && index == ULong(at) && s <= at <= g && Skips(S, s, at)
      && (at <= max || Slipped(M, s, max, at))
    case Grow(next) => s < next <= max && Skips(S, s, next) && next !in M
    case NoSpace => Skips(S, s, max + 1) && (Slips(M, s, max) ==> g - TWO64 > max)
    case NoMemory => at !in M && s <= at <= g && Skips(S, s, at) && (at <= max || Slipped(M, s, max, at))
  }

  /** What has happened on the way to index at: nodes have been added for it, as many as were missing. */
  ghost predicate Reached(g: Shot, left: nat, h: Shot, left': nat, M: map<nat, Entry>, out: Outcome, at: nat) {
    if out.Free? || out.NoMemory? then
      && SnugKept(g, h, M, at) && Paid(g, left, h, left', M, at)
      && (Missing(h, M, at) == 0 <==> out.Free?)
    else h == g && left' == left
  }

  /** The loop of idr_get_free_cmn, up to the next growth of the tree. */
  method Search(root: RxRoot, mem: Allocator, child0: Entry, shift0: nat, s: nat, max: nat, ghost g: nat)
    returns (out: Outcome, ghost at: nat)
    requires Valid(root) && root.idr && Spare(root.items, g) && s <= max <= ULONG_MAX
    requires AtSlot(root.Now(), null, 0, child0, shift0, s) && shift0 % 6 == 0 && shift0 <= 66
    requires TopEntry(child0, root.items, shift0, s) && Track(root.items, s, max, shift0, s)
    requires !child0.Child? && shift0 == 0 ==> s == 0 && 0 !in root.items
    modifies root, root.pool, mem
    ensures Valid(root) && root.items == old(root.items) && root.tagged == old(root.tagged)
    ensures fresh(root.pool - old(root.pool)) && old(root.pool) <= root.pool
    ensures Answers(root.Now(), root.items, root.tagged[0], s, max, g, out, at) && (out.NoMemory? ==> mem.left == 0)
    ensures Reached(old(root.Now()), old(mem.left), root.Now(), mem.left, root.items, out, at)
    ensures mem.left <= old(mem.left) <= mem.left + (if child0.Child? then 10 else 11)
        && (out.Grow? ==> mem.left == old(mem.left))
    ensures out.NoMemory? ==> old(mem.left) <= (if child0.Child? then 9 else 10)
    ensures Tidy(old(root.Now()), null) ==> Tidy(root.Now(), if out.Free? then out.node else null)
    ensures shift0 == 0 && out.Free? ==> out.node == null
    ensures child0.Child? ==> HeightShift(root.Now()) == old(HeightShift(root.Now()))
    ensures child0.Child? && shift0 == 6 && out.Free? && at == s ==> root.Now() == old(root.Now())
  {
    hide Good, Linked, RxRoot.Now, Skips, AtSlot, SnugKept, Sound, Holds, Counted, Tagged, TopHolds, Tidy, HeightShift,
      Slips, Track, ULong, FreeSlot, GrowthKept, Spare, Paid, Missing;
    ghost var was := root.Now();
    ValidParts(root);
    SpareBelow(root.items, g);
    ULongIs(s);
    var node: RxNode?, offset, child, shift, start := null, 0, child0, shift0, s;
    at := s;
    SkipsNone(root.tagged[0], s);
    KeptNothing(was, root.items, at); PaidNothing(was, mem.left, root.items, at);
    ghost var cap := if child0.Child? then 60 else 66;
    while shift > 0
      invariant Valid(root) && root.items == old(root.items) && root.tagged == old(root.tagged)
      invariant fresh(root.pool - old(root.pool)) && old(root.pool) <= root.pool
      invariant Under(root, node, offset, child, shift, start, s, max, at, g)
      invariant node == null ==> child == child0 && shift == shift0 && at == s
      invariant node != null && shift == 0 ==> at !in root.items
      invariant Tidy(was, null) ==> Tidy(root.Now(), if shift == 0 then node else null)
      invariant shift0 == 0 ==> node == null && shift == 0
      invariant child0.Child? ==> HeightShift(root.Now()) == HeightShift(was)
      invariant child0.Child? && shift0 == 6 && at == s ==> root.Now() == was && (node == null || shift == 0)
      invariant SnugKept(was, root.Now(), root.items, at)
      invariant Paid(was, old(mem.left), root.Now(), mem.left, root.items, at)
      invariant at in root.items ==> root.Now() == was && mem.left == old(mem.left)
      invariant mem.left <= old(mem.left)
      invariant mem.left == old(mem.left)
          || (at !in root.items && node != null && 6 * (old(mem.left) - mem.left) + shift <= cap)
      decreases g - at, shift
    {
      ghost var h, left, at0 := root.Now(), mem.left, at;
      var move;
      move, node, offset, child, shift, start, at := Turn(root, mem, node, offset, child, shift, start, max, s, at, g);
      if at0 in root.items {
        KeptNothing(was, root.items, at); PaidNothing(was, mem.left, root.items, at);
      } else {
        KeptBoth(was, h, root.Now(), root.items, at);
        PaidBoth(was, old(mem.left), h, left, root.Now(), mem.left, root.items, at);
      }
      if node == null { return Outcome.NoMemory, at; }
      if move.Full? { return NoSpace, at; }
      if move.Restart? { ULongIs(at); return Grow(start), at; }
    }
    ValidParts(root);
    SlotReached(root.Now(), node, offset, child, at);
    TopNotChild(root.Now(), node, offset, child, at);
    IsFreeSlot(root.Now(), root.items, node, offset, at);
    FreeMissing(root.Now(), root.items, node, offset, at);
    return Free(node, offset, start), at;
  }

  /**
   * The search from s has come to the slot that leads to `at`, having skipped all
   * before, with level `shift` to look at.
   */
  ghost predicate Under(root: RxRoot, node: RxNode?, offset: nat, child: Entry, shift: nat, start: nat, s: nat,
          max: nat, at: nat, g: nat)
    reads root, root.pool
  {
    && AtSlot(root.Now(), node, offset, child, shift, at) && shift % 6 == 0 && shift <= 66
    && (if node == null then TopEntry(child, root.items, shift, at) else shift <= 60)
    && |root.tagged| == 3 && s <= at <= g && Skips(root.tagged[0], s, at) && start == ULong(at)
    && Track(root.items, s, max, shift, at) && (at <= max || (Slipped(root.items, s, max, at) && node != null))
  }

  /** One turn of the loop: down, with a new node if there is none, and on if the slot there has no free id. */
  method Turn(root: RxRoot, mem: Allocator, node0: RxNode?, offset0: nat, child0: Entry, shift0: nat, start0: nat,
          max: nat, ghost s: nat, ghost at0: nat, ghost g: nat)
    returns (move: Move, node: RxNode?, offset: nat, child: Entry, shift: nat, start: nat, ghost at: nat)
    requires Valid(root) && root.idr && Spare(root.items, g) && s <= max <= ULONG_MAX && shift0 > 0
    requires Under(root, node0, offset0, child0, shift0, start0, s, max, at0, g)
    modifies root, root.pool, mem
    ensures Valid(root) && root.items == old(root.items) && root.tagged == old(root.tagged)
    ensures fresh(root.pool - old(root.pool)) && old(root.pool) <= root.pool
    ensures SnugKept(old(root.Now()), root.Now(), root.items, at0)
    ensures Paid(old(root.Now()), old(mem.left), root.Now(), mem.left, root.items, at0)
    ensures node == null ==> mem.left == 0 == old(mem.left) && root.Now() == old(root.Now()) && at0 !in root.items
    ensures node == null ==> at == at0 && Missing(root.Now(), root.items, at) > 0
    ensures node != null ==>
      && Jumped(root.items, root.tagged[0], s, max, g, move, shift, start, at) && at0 <= at
      && (move.Stay? ==> Under(root, node, offset, child, shift, start, s, max, at, g))
      && (move.Stay? && at == at0 ==> shift == shift0 - 6) && (move.Stay? && shift == 0 ==> at !in root.items)
      && (at0 !in root.items ==> move.Stay? && at == at0)
    ensures old(mem.left) - 1 <= mem.left <= old(mem.left) && (at0 in root.items ==> mem.left == old(mem.left))
    ensures child0 != Null ==> mem.left == old(mem.left) && root.Now() == old(root.Now())
    ensures at0 in root.items ==> root.Now() == old(root.Now())
    ensures node0 != null || child0 != Null ==> HeightShift(root.Now()) == old(HeightShift(root.Now()))
    ensures Tidy(old(root.Now()), null) ==>
      Tidy(root.Now(), if node != null && move.Stay? && shift == 0 then node else null)
  {
    hide Good, Linked, RxRoot.Now, Skips, AtSlot, SnugKept, Sound, Holds, Counted, Tagged, TopHolds, Tidy, HeightShift,
      Slips, Track, ULong, FreeSlot, GrowthKept, Spare, Paid, Missing;
    SpareBelow(root.items, g);
    ModeOf(root);
    ULongIs(at0);
    shift := shift0 - 6;
    start, at, move := start0, at0, Stay;
    ghost var was := root.Now();
    node, offset, child := StepDown(root, mem, node0, offset0, child0, shift, start, at);
    if node == null { return; }
    SlotIn(root.Now(), node, offset, child, shift, at);
    root.Reads();
    move, node, offset, child, shift, start, at := Onward(root, node, offset, child, shift, start, max, s, at, g);
  }

  lemma {:induction false} IsFreeSlot(h: Shot, M: map<nat, Entry>, node: RxNode?, offset: nat, at: nat)
    requires SlotFor(h, node, offset, at) && at !in M
    ensures FreeSlot(h, M, node, offset, at)
  {}

  lemma {:induction false} FreeMissing(h: Shot, M: map<nat, Entry>, node: RxNode?, offset: nat, at: nat)
    requires Linked(h) && SlotFor(h, node, offset, at)
    ensures Missing(h, M, at) == 0
  {
    hide Missing, Linked;
    SlotMissing(h, M, node, at);
  }

  lemma {:induction false} SlotIn(h: Shot, node: RxNode, offset: nat, child: Entry, shift: nat, at: nat)
    requires AtSlot(h, node, offset, child, shift, at)
    ensures node in h.m
  {}

  lemma {:induction false} TopNotChild(h: Shot, node: RxNode?, offset: nat, child: Entry, at: nat)
    requires AtSlot(h, node, offset, child, 0, at)
    ensures node == null ==> !child.Child?
  {}

  lemma {:induction false} SkipsPart(S: iset<nat>, lo: int, hi: int, mid: int)
    requires Skips(S, lo, hi) && mid <= hi
    ensures Skips(S, lo, mid)
  {}

  lemma {:induction false} NoneInRange(h: Shot, M: map<nat, Entry>, T: seq<iset<nat>>, maxindex: nat, start: nat,
          g: nat)
    requires Good(h, M, T, true) && Spare(M, g) && 0 !in h.tags
    requires forall k: nat :: k <= ULONG_MAX ==> (k > maxindex <==> !InRange(h, k))
    ensures maxindex < ULONG_MAX && Skips(T[0], start, maxindex + 1)
  {
    SpareFree(M, T, g);
    GoodLinked(h, M, T, true);
    hide Sound;
    assert TagOk(h, 0, T[0]);
    assert RootTagged(h, 0, T[0]);
    if InRange(h, ULONG_MAX) { LastInRange(h, g); }
  }

  /** A tree that covers the last id has shift 60, and then slots to spare. */
  lemma {:induction false} LastInRange(h: Shot, g: nat)
    requires Linked(h) && InRange(h, ULONG_MAX) && g < LIMIT
    ensures InRange(h, g)
  {
    hide Shr, Linked;
    TopAt(h); BasicAt(h, h.top.n);
    var s := h.m[h.top.n].shift;
    if s < 60 { LastDigit(s); }
    PastDigits(g);
  }

  lemma {:induction false} LastDigit(s: nat)
    requires s < 60 && s % 6 == 0
    ensures Shr(ULONG_MAX, s + 6) > 0
  {
    hide Shr, Shl;
    ShlTop(1);
    ShrShl(ULONG_MAX, 1, 60);
    if Shr(ULONG_MAX, s + 6) == 0 {
      ShrOfZero(s + 6); ShrOfZero(60);
      ShrUp(0, ULONG_MAX, s + 6, 60);
    }
  }

  lemma {:induction false} PastDigits(g: nat)
    requires g < LIMIT
    ensures Shr(g, 66) == 0
  {
    hide Shr;
    ShlValues(); ShlTimes(1, 60);
    ShrShl(g, 1, 66);
  }

  lemma {:induction false} ShrOfZero(s: nat)
    ensures Shr(0, s) == 0
  {
    if s >= 6 { ShrOfZero(s - 6); }
  }

  lemma {:induction false} ZeroFree(h: Shot, M: map<nat, Entry>, T: seq<iset<nat>>)
    requires Good(h, M, T, true) && 0 in h.tags && !h.top.Child?
    ensures 0 !in M
  {
    assert TagOk(h, 0, T[0]);
  }

  /** The search begins at the root: if no id is free from there on, the tree has its full height. */
  lemma {:induction false} TrackStarts(h: Shot, M: map<nat, Entry>, s: nat, max: nat)
    requires Linked(h) && TopHolds(h, M) && s <= ULONG_MAX
    ensures Track(M, s, max, HeightShift(h), s)
  {
    hide Whole, AtStop, Shr;
    if AllUsed(M, s) {
      assert ULONG_MAX in M;
      KeysInRange(h, M, ULONG_MAX);
      TopAt(h); BasicAt(h, h.top.n);
      if h.m[h.top.n].shift < 60 { LastDigit(h.m[h.top.n].shift); }
    }
  }

  lemma {:induction false} TrackFree(M: map<nat, Entry>, s: nat, max: nat, l: nat)
    requires s !in M && s <= ULONG_MAX
    ensures Track(M, s, max, l, s) && forall r: nat, m: nat :: r <= s ==> !Slips(M, r, m)
  {}

  /** From `grow:` on: the tree is made high enough for the lowest id that may be free. */
  method Prepare(root: RxRoot, mem: Allocator, start0: nat, max: nat, ghost g: nat)
    returns (stop: bool, out: Outcome, child: Entry, shift: nat, start: nat)
    requires Valid(root) && root.idr && Spare(root.items, g) && start0 <= max <= ULONG_MAX
    modifies root, root.pool, mem
    ensures Valid(root) && root.items == old(root.items) && root.tagged == old(root.tagged)
    ensures fresh(root.pool - old(root.pool)) && old(root.pool) <= root.pool
    ensures stop ==> (out.NoSpace? || (out.NoMemory? && mem.left == 0 && old(mem.left) <= 10))
    ensures stop && out.NoSpace? ==> root.Now() == old(root.Now()) && mem.left == old(mem.left)
    ensures stop && out.NoMemory? ==>
      && start0 <= start <= max && Skips(root.tagged[0], start0, start) && start !in root.items
      && Missing(root.Now(), root.items, start) > 0
    ensures !stop || out.NoMemory? ==>
      && SnugKept(old(root.Now()), root.Now(), root.items, start)
      && Paid(old(root.Now()), old(mem.left), root.Now(), mem.left, root.items, start)
    ensures !stop && start in root.items ==> root.Now() == old(root.Now()) && mem.left == old(mem.left)
    ensures stop && out.NoSpace? ==>
      Skips(root.tagged[0], start0, max + 1) && (Slips(root.items, start0, max) ==> g - TWO64 > max)
    ensures !stop ==>
      && start0 <= start <= max && Skips(root.tagged[0], start0, start) && child == root.rnode
      && AtSlot(root.Now(), null, 0, child, shift, start) && shift % 6 == 0 && shift <= 66
      && TopEntry(child, root.items, shift, start)
      && (!child.Child? && shift == 0 ==> start == 0 && 0 !in root.items)
      && Track(root.items, start, max, shift, start) && (start == start0 || start !in root.items)
    ensures mem.left <= old(mem.left) <= mem.left + 11 && (!stop && !child.Child? ==> mem.left == old(mem.left))
    ensures !stop && mem.left != old(mem.left) ==> start !in root.items
    ensures Tidy(old(root.Now()), null) ==> Tidy(root.Now(), null)
  {
    hide Good, Linked, RxRoot.Now, Skips, AtSlot, GrowthKept, SnugKept, Sound, Holds, Counted, Tagged, InRange,
      HeightShift, Reaches, Tidy, Slips, Track, TopHolds, Spare, Paid, Missing;
    ghost var h, M, T := root.Now(), root.items, root.tagged;
    ValidParts(root);
    ModeOf(root);
    TopOf(root);
    root.Reads();
    start, stop, out := start0, false, NoSpace;
    SkipsNone(T[0], start0);
    var maxindex;
    child, maxindex, shift := LoadRoot(root);
    if 0 !in root.tags {
      NoneInRange(h, M, T, maxindex, start, g);
      start := if start >= maxindex + 1 then start else maxindex + 1;
    }
    StartsOn(T[0], start0, start, maxindex, 0 in root.tags);
    AtTop(h, M, start);
    if start != start0 { TrackFree(M, start, max, 0); }
    if start > max {
      SkipsPart(T[0], start0, start, max + 1);
      stop := true;
      return;
    }
    if start > maxindex {
      var error;
      error, shift := Extend(root, mem, start, shift);
      GrowthTidy(h, root.Now(), M, start);
      GrowthSnug(h, root.Now(), M, start);
      if error {
        stop, out := true, Outcome.NoMemory;
        return;
      }
      child := root.rnode;
      ValidParts(root);
      AtTop(root.Now(), M, start);
      FirstLevel(h, start, shift);
      root.Reads();
      TrackFree(M, start, max, shift);
    } else {
      KeptNothing(h, M, start); PaidNothing(h, mem.left, M, start);
      TrackStarts(h, M, start, max);
      if !child.Child? { ZeroFree(h, M, T); }
    }
  }

  lemma {:induction false} TopOf(root: RxRoot)
    requires Valid(root)
    ensures TopHolds(root.Now(), root.items)
  {}

  lemma {:induction false} StartsOn(S: iset<nat>, start0: nat, start: nat, maxindex: nat, tagged: bool)
    requires tagged ==> start == start0
    requires !tagged ==> Skips(S, start0, maxindex + 1) && (start == start0 || start == maxindex + 1)
    ensures Skips(S, start0, start)
  {}

  /** Where the search began a round later than asked for, the id there is free, and it cannot miss it. */
  lemma {:induction false} AnswersFrom(h: Shot, M: map<nat, Entry>, S: iset<nat>, s: nat, mid: nat, max: nat, g: nat,
          out: Outcome, at: nat)
    requires Answers(h, M, S, mid, max, g, out, at) && Skips(S, s, mid) && s <= mid <= max <= ULONG_MAX
    requires (forall k: nat :: k in S <==> k !in M) && (mid == s || mid !in M)
    ensures Answers(h, M, S, s, max, g, out, at) && (mid !in M ==> out.Free? || out.NoMemory?)
  {
    hide FreeSlot, ULong, FirstStop, Passes;
  }

  /** One round from `grow:` on. */
  method Round(root: RxRoot, mem: Allocator, start0: nat, max: nat, ghost g: nat) returns (out: Outcome, ghost at: nat)
    requires Valid(root) && root.idr && Spare(root.items, g) && start0 <= max <= ULONG_MAX
    modifies root, root.pool, mem
    ensures Valid(root) && root.items == old(root.items) && root.tagged == old(root.tagged)
    ensures fresh(root.pool - old(root.pool)) && old(root.pool) <= root.pool
    ensures Answers(root.Now(), root.items, root.tagged[0], start0, max, g, out, at)
    ensures Reached(old(root.Now()), old(mem.left), root.Now(), mem.left, root.items, out, at)
    ensures mem.left <= old(mem.left) <= mem.left + PRELOAD_SIZE && (out.Grow? ==> mem.left == old(mem.left))
    ensures out.NoMemory? ==> mem.left == 0 && old(mem.left) < PRELOAD_SIZE
    ensures Tidy(old(root.Now()), null) ==> Tidy(root.Now(), if out.Free? then out.node else null)
    ensures Tidy(old(root.Now()), null) && out.Free? ==> Sturdy(root.Now(), out.node, at)
  {
    hide Good, Linked, RxRoot.Now, Skips, AtSlot, Sound, Holds, Counted, Tagged, HeightShift, Tidy, Sturdy, Answers,
      Track, Slips, TopEntry, Spare, SnugKept, Paid, Missing, Reached;
    ghost var h := root.Now();
    var stop, child, shift, start;
    stop, out, child, shift, start := Prepare(root, mem, start0, max, g);
    at := start;
    if stop {
      ModeOf(root);
      ReachedStop(h, old(mem.left), root.Now(), mem.left, root.items, out, at);
      SpareBelow(root.items, g);
      StopAnswers(root.Now(), root.items, root.tagged[0], start0, max, g, out, at);
      return;
    }
    ValidParts(root);
    ModeOf(root);
    root.Reads();
    ghost var i, left := root.Now(), mem.left;
    out, at := Search(root, mem, child, shift, start, max, g);
    ValidParts(root);
    ReachedFrom(h, old(mem.left), i, left, root.Now(), mem.left, root.items, root.tagged[0], start, max, g, out, at);
    AnswersFrom(root.Now(), root.items, root.tagged[0], start0, start, max, g, out, at);
    if Tidy(h, null) && out.Free? {
      SturdyFound(i, root.Now(), root.items, start, max, g, root.tagged[0], child, shift, out, at);
    }
  }

  lemma {:induction false} ReachedStop(g: Shot, left: nat, h: Shot, left': nat, M: map<nat, Entry>, out: Outcome,
          at: nat)
    requires out.NoSpace? ==> h == g && left' == left
    requires out.NoMemory? ==> SnugKept(g, h, M, at) && Paid(g, left, h, left', M, at) && Missing(h, M, at) > 0
    requires out.NoSpace? || out.NoMemory?
    ensures Reached(g, left, h, left', M, out, at)
  {
    hide SnugKept, Paid, Missing;
  }

  /** If the tree has been made higher for the first id that may be free, that is the one found. */
  lemma {:induction false} ReachedFrom(g: Shot, left: nat, h: Shot, left': nat, i: Shot, left'': nat, M: map<nat,
          Entry>, S: iset<nat>, start: nat, max: nat, spare: nat, out: Outcome, at: nat)
    requires SnugKept(g, h, M, start) && Paid(g, left, h, left', M, start) && Reached(h, left', i, left'', M, out, at)
    requires start in M ==> h == g && left' == left
    requires Answers(i, M, S, start, max, spare, out, at) && start <= max && forall k: nat :: k in S <==> k !in M
    ensures Reached(g, left, i, left'', M, out, at)
  {
    hide SnugKept, Paid, Missing, FreeSlot, ULong, Slips;
    if start !in M {
      assert start in S;
      if out.Free? || out.NoMemory? {
        assert at == start;
        KeptBoth(g, h, i, M, at);
        PaidBoth(g, left, h, left', i, left'', M, at);
      }
    }
  }

  lemma {:induction false} StopAnswers(h: Shot, M: map<nat, Entry>, S: iset<nat>, s: nat, max: nat, g: nat,
          out: Outcome, at: nat)
    requires out.NoMemory? ==> at !in M && s <= at <= g && Skips(S, s, at) && at <= max
    requires out.NoMemory? || (out.NoSpace? && Skips(S, s, max + 1) && (Slips(M, s, max) ==> g - TWO64 > max))
    ensures Answers(h, M, S, s, max, g, out, at)
  {}

  lemma {:induction false} GrowthTidy(g: Shot, h: Shot, M: map<nat, Entry>, index: nat)
    requires GrowthKept(g, h, M, index)
    ensures Tidy(g, null) ==> Tidy(h, null)
  {}

  /**
   * The slot of id 0 is not in a top node that is empty: radix_tree_shrink must not
   * free the node that the iterator is in.
   */
  ghost predicate Sturdy(h: Shot, node: RxNode?, index: nat) {
    node != null && h.top == Child(node) && index == 0 ==> node in h.m && h.m[node].count > 0
  }

  lemma {:induction false} SturdyFound(g0: Shot, h: Shot, M: map<nat, Entry>, start: nat, max: nat, g: nat,
          S: iset<nat>, child: Entry, shift: nat, out: Outcome, at: nat)
    requires Tidy(g0, null) && Linked(g0) && Linked(h) && out.Free? && Answers(h, M, S, start, max, g, out, at)
      && g0.top == child
    requires AtSlot(g0, null, 0, child, shift, start) && TopEntry(child, M, shift, start)
    requires child.Child? ==> HeightShift(h) == HeightShift(g0)
    requires child.Child? && shift == 6 && at == start ==> h == g0
    requires shift == 0 ==> out.node == null
    ensures Sturdy(h, out.node, at)
  {
    hide Slips, ULong;
    if out.node != null && h.top == Child(out.node) && at == 0 {
      assert start == 0;
      ShrZero(shift); if shift >= 6 { ShrZero(shift - 6); }
      assert h.m[out.node].shift == 0;
      TopIn(g0);
    }
  }

  /** Some index past the last id has room for an entry. */
  ghost predicate Roomy(M: map<nat, Entry>) { exists g: nat :: Spare(M, g) }

  /** The first such index: where the entry goes when a search slips. */
  ghost function Lost(M: map<nat, Entry>): (g: nat)
    requires Roomy(M)
    ensures Spare(M, g)
  {
    var g: nat :| Spare(M, g); g
  }

  /** While there are fewer than 2^60 entries, there is room. */
  lemma {:induction false} FewRoomy(M: map<nat, Entry>)
    requires |M| < LIMIT - TWO64
    ensures Roomy(M)
  {
    hide Spare, Roomy;
    if k: nat :| TWO64 <= k < LIMIT && k !in M {
      FirstFree(M, TWO64, k);
    } else {
      Fills(M, TWO64, LIMIT - TWO64);
    }
  }

  lemma {:induction false} Fills(M: map<nat, Entry>, lo: nat, n: nat)
    requires forall k: nat :: lo <= k < lo + n ==> k in M
    ensures |M| >= n
  {
    if n > 0 {
      var k := lo + n - 1;
      Fills(M - {k}, lo, n - 1);
      assert M == (M - {k})[k := M[k]];
    }
  }

  lemma {:induction false} FirstFree(M: map<nat, Entry>, lo: nat, k: nat)
    requires TWO64 <= lo <= k < LIMIT && k !in M && forall j: nat :: TWO64 <= j < lo ==> j in M
    ensures Roomy(M)
    decreases k - lo
  {
    if lo in M { FirstFree(M, lo + 1, k); } else { assert Spare(M, lo); }
  }

  lemma {:induction false} ReachedNot(g: Shot, left: nat, h: Shot, left': nat, M: map<nat, Entry>, out: Outcome,
          at: nat)
    requires Reached(g, left, h, left', M, out, at) && !out.Free? && !out.NoMemory?
    ensures h == g && left' == left
  {}

  /** The index that an entry is meant for: the lowest free id in [s, max], or the lost index when the search slips. */
  ghost predicate Aim(M: map<nat, Entry>, s: nat, max: nat, at: nat)
    requires Roomy(M)
  {
    if Slips(M, s, max) then at == Lost(M) <= TWO64 + max
    else s <= at <= max && at !in M && forall k: nat :: s <= k < at ==> k in M
  }

  /**
   * idr_get_free_cmn: the lowest free id in [start0, max] with its slot, or -ENOSPC exactly when there is none;
   * except when the search slips past 2^64. It then goes on with id 0, but in slots past the last id, and finds the
   * first of these that is free: if what an unsigned long has of its index is not above max, that is the id it
   * returns, used or not, in range or not.
   */
  method GetFree(root: RxRoot, mem: Allocator, start0: nat, max: nat) returns (out: Outcome, ghost at: nat)
    requires Valid(root) && root.idr && Roomy(root.items) && max <= ULONG_MAX
    modifies root, root.pool, mem
    ensures Valid(root) && root.items == old(root.items) && root.tagged == old(root.tagged)
    ensures fresh(root.pool - old(root.pool)) && old(root.pool) <= root.pool
    ensures mem.left <= old(mem.left) <= mem.left + PRELOAD_SIZE
    ensures var lost := Lost(old(root.items)) - TWO64;
      match out
      case Free(node, offset, index) =>
        && FreeSlot(root.Now(), root.items, node, offset, at)
        && if Slips(root.items, start0, max) then index == lost <= max && at == TWO64 + lost
           else start0 <= index <= max && at == index && forall k: nat :: start0 <= k < index ==> k in root.items
      case NoSpace =>
        && (Slips(root.items, start0, max) ==> lost > max)
        && forall k: nat :: start0 <= k <= max ==> k in root.items
      case NoMemory => mem.left == 0 && old(mem.left) < PRELOAD_SIZE && Aim(root.items, start0, max, at)
      case Grow(_) => false
    ensures Reached(old(root.Now()), old(mem.left), root.Now(), mem.left, root.items, out, at)
    ensures Tidy(old(root.Now()), null) ==> Tidy(root.Now(), if out.Free? then out.node else null)
    ensures Tidy(old(root.Now()), null) && out.Free? ==> Sturdy(root.Now(), out.node, at)
  {
    hide Good, RxRoot.Now, Skips, FreeSlot, Tidy, Sturdy, Answers, Slips, ULong, Spare, Lost, Reached;
    ghost var T, g := root.tagged, Lost(root.items);
    ValidParts(root);
    ModeOf(root);
    var start := start0;
    SkipsNone(T[0], start0);
    at := 0;
    if start0 > max {
      NeverSlips(root.items, start0, max);
      ReachedStop(root.Now(), mem.left, root.Now(), mem.left, root.items, NoSpace, at);
      return NoSpace, at;
    }
    while true
      invariant Valid(root) && root.items == old(root.items) && root.tagged == T
      invariant fresh(root.pool - old(root.pool)) && old(root.pool) <= root.pool && mem.left == old(mem.left)
      invariant start0 <= start <= max && Skips(T[0], start0, start) && (start == start0 || start !in root.items)
      invariant root.Now() == old(root.Now())
      decreases max - start
    {
      out, at := Round(root, mem, start, max, g);
      ValidParts(root);
      ModeOf(root);
      AnswersFrom(root.Now(), root.items, T[0], start0, start, max, g, out, at);
      if !out.Grow? {
        AnswersMean(root.Now(), root.items, T, start0, max, g, out, at);
        return;
      }
      ReachedNot(old(root.Now()), old(mem.left), root.Now(), mem.left, root.items, out, at);
      GrowMeans(root.Now(), root.items, T[0], start, max, g, out, at);
      GrowMeans(root.Now(), root.items, T[0], start0, max, g, out, at);
      start := out.start;
    }
  }

  lemma {:induction false} NeverSlips(M: map<nat, Entry>, s: nat, max: nat)
    requires s > max
    ensures !Slips(M, s, max)
  {}

  lemma {:induction false} GrowMeans(h: Shot, M: map<nat, Entry>, S: iset<nat>, s: nat, max: nat, g: nat, out: Outcome,
          at: nat)
    requires out.Grow? && Answers(h, M, S, s, max, g, out, at)
    ensures s < out.start <= max && Skips(S, s, out.start) && out.start !in M
  {}

  lemma {:induction false} AnswersMean(h: Shot, M: map<nat, Entry>, T: seq<iset<nat>>, s: nat, max: nat, g: nat,
          out: Outcome, at: nat)
    requires Mode(true, M, T) && Spare(M, g) && Answers(h, M, T[0], s, max, g, out, at) && s <= max <= ULONG_MAX
    ensures match out
      case Free(node, offset, index) =>
        && FreeSlot(h, M, node, offset, at)
        && if Slips(M, s, max) then index == g - TWO64 <= max && at == g
           else s <= index <= max && at == index && forall k: nat :: s <= k < index ==> k in M
      case NoSpace => (Slips(M, s, max) ==> g - TWO64 > max) && forall k: nat :: s <= k <= max ==> k in M
      case NoMemory =>
        if Slips(M, s, max) then at == g <= TWO64 + max
        else s <= at <= max && at !in M && forall k: nat :: s <= k < at ==> k in M
      case _ => true
  {
    hide Passes, FirstStop;
    forall k: nat | k !in M ensures k in T[0] {}
    if out.Free? { ULongIs(at); FreeNotIn(h, M, out.node, out.offset, at); }
    hide FreeSlot;
  }

  lemma {:induction false} FreeNotIn(h: Shot, M: map<nat, Entry>, node: RxNode?, offset: nat, at: nat)
    requires FreeSlot(h, M, node, offset, at)
    ensures at !in M
  {}

  // ---- taking an id ----

  /** calculate_count: an entry for a free id is one more, whatever it is (radix-tree.c:1171-1184). */
  method CalculateCount(root: RxRoot, node: RxNode?, offset: nat, item: Entry, old_: Entry) returns (count: int)
    requires root.idr && (node != null ==> |node.tags| == 3)
    ensures count ==
      if (if node == null then 0 in root.tags else offset in node.tags[0]) && old_ == Null then 1
      else if !(if node == null then 0 in root.tags else offset in node.tags[0]) then 0
      else (if item == Null then 0 else 1) - 1
  {
    var free := if node != null then offset in node.tags[0] else 0 in root.tags;
    if !free { return 0; }
    if old_ == Null { return 1; }
    count := (if item == Null then 0 else 1) - (if old_ == Null then 0 else 1);
  }

  lemma {:induction false} TakenFacts(h: Shot, M: map<nat, Entry>, T: seq<iset<nat>>, node: RxNode?, offset: nat,
          index: nat)
    requires Good(h, M, T, true) && FreeSlot(h, M, node, offset, index)
    ensures (if node == null then h.top else h.m[node].slots[offset]) == Null
    ensures node != null ==> |h.m[node].tags| == 3 && offset in h.m[node].tags[0]
    ensures node == null ==> 0 in h.tags
    ensures Climbing(h, node, offset, index)
      && (node != null ==> node in h.m && h.m[node].shift == 0 && offset < 64 && |h.m[node].slots| == 64)
  {
    hide Sound;
    SlotEntry(h, M, T, true, node, offset, index);
    assert TagOk(h, 0, T[0]);
    GoodLinked(h, M, T, true);
    if node != null {
      BasicAt(h, node);
      LeafBit(h, T[0], 0, node, index);
    } else {
      assert RootTagged(h, 0, T[0]);
    }
  }

  /** After the store, delete_node has nothing to do: the node has entries, and as a top node it is not shrunk. */
  lemma {:induction false} NothingToFree(g: Shot, h: Shot, M: map<nat, Entry>, node: RxNode, index: nat, e: Entry)
    requires Sound(g, M) && Sound(h, M[index := e]) && LeafPut(g, h, node, index, e) && index !in M && index < LIMIT
    requires h.m[node].count == g.m[node].count + 1 && Sturdy(g, node, index)
    ensures h.m[node].count > 0
    ensures h.top == Child(node) ==> h.m[node].count != 1 || h.m[node].slots[0] == Null
  {
    hide Linked, Holds;
    CountAt(g, M, node); CountAt(h, M[index := e], node);
    BasicAt(h, node);
    if h.top == Child(node) && h.m[node].count == 1 && h.m[node].slots[0] != Null {
      TopAt(h);
      assert index != 0;
      assert h.m[node].prefix == 0 && Covers(h.m[node], index) && Digit(h.m[node], index) == index;
      UsedFor(h, M[index := e], node, index);
      FirstOnly(h, M[index := e], node, index);
    }
  }

  /** Once the slot has its entry, there is no empty bottom node left. */
  lemma {:induction false} TidyTaken(g: Shot, h: Shot, node: RxNode?, index: nat, e: Entry)
    requires Tidy(g, node)
    requires if node == null then h == PutTop(g, e) else LeafPut(g, h, node, index, e) && h.m[node].count > 0
    ensures Tidy(h, null)
  {
    forall m | m in h.m && m != null && h.m[m].shift == 0
      ensures h.m[m].count > 0
    {
      if m != node { assert h.m[m] == g.m[m]; }
    }
  }

  lemma {:induction false} TidyRetag(g: Shot, h: Shot, t: nat)
    requires Retag(g, h, t) && Tidy(g, null)
    ensures Tidy(h, null)
  {
    forall m | m in h.m && m != null && h.m[m].shift == 0
      ensures h.m[m].count > 0
    {
      assert h.m[m].count == g.m[m].count;
    }
  }

  lemma {:induction false} TakenGood(g: Shot, h: Shot, i: Shot, M: map<nat, Entry>, T: seq<iset<nat>>, index: nat,
          e: Entry)
    requires Mode(true, M, T) && index !in M && (forall t :: 0 <= t < 3 ==> TagOk(h, t, T[t]))
    requires Sound(i, M[index := e]) && Retag(h, i, 0) && TagOk(i, 0, T[0] - iset{index})
    ensures Good(i, M[index := e], T[0 := T[0] - iset{index}], true)
  {
    hide Sound, TagOk, Retag;
    var T' := T[0 := T[0] - iset{index}];
    forall t | 0 <= t < 3 ensures TagOk(i, t, T'[t]) { if t != 0 { RetagOthers(h, i, 0, t, T[t]); } }
  }

  /**
   * radix_tree_iter_replace, which stores the item in the slot of a free id, and radix_tree_iter_tag_clear,
   * which takes the id out of the free ones.
   */
  method IterReplace(root: RxRoot, node: RxNode?, offset: nat, item: Entry, ghost at: nat)
    requires Valid(root) && root.idr && FreeSlot(root.Now(), root.items, node, offset, at) && at < LIMIT && !item.Child?
    requires Tidy(root.Now(), node) && Sturdy(root.Now(), node, at)
    modifies root, root.pool
    ensures Valid(root) && Tidy(root.Now(), null) && root.pool == old(root.pool)
    ensures root.items == old(root.items)[at := item] && Stored'(old(root.Now()), root.Now())
  {
    hide Good, RxRoot.Now, FreeSlot, Tidy, Sturdy, Sound, Tagged, Linked, Holds, Counted, TopHolds, Stored, LeafPut,
      Climbing, Retag, SlotFor, TagOk, Stored', AsSnug;
    ghost var M, T := root.items, root.tagged;
    ghost var g := root.Now();
    ValidParts(root);
    root.Reads();
    TakenFacts(g, M, T, node, offset, at);
    SlotOf(g, M, node, offset, at);
    if node != null { root.ReadsAt(node); }
    var was := EntryAt(root, node, offset);
    var count := CalculateCount(root, node, offset, item, was);
    StoreEntry(root, node, offset, item, count, at, M[at := item]);
    ghost var h := root.Now();
    root.Reads();
    StoredTags(g, h, T);
    if node != null {
      root.ReadsAt(node);
      LeafCount(g, h, M, node, at, item);
      // delete_node(root, node): nothing to free
      NothingToFree(g, h, M, node, at, item);
    }
    TidyTaken(g, h, node, at, item);
    ClimbsOn(g, h, node, offset, at, item);
    if node != null { root.ReadsAt(node); }
    NodeTagClear(root, node, 0, offset, at, T[0] - iset{at}, T[0]);
    ghost var i := root.Now();
    RetagLinked(h, i, 0, M[at := item]);
    TakenGood(g, h, i, M, T, at, item);
    TidyRetag(h, i, 0);
    ReplacedSnug(g, h, i);
    root.tagged := T[0 := T[0] - iset{at}];
  }

  lemma {:induction false} ReplacedSnug(g: Shot, h: Shot, i: Shot)
    requires Stored(g, h) && Retag(h, i, 0)
    ensures Stored'(g, i)
  {
    hide Lively, Snug, Retag, TagOk;
    forall K ensures AsSnug(g, i, K) {
      assert AsSnug(g, h, K);
      RetagSnug(h, i, 0, K);
    }
  }

  /** The index that an answer stands for: past the last id when the search slipped. */
  ghost function Place(M: map<nat, Entry>, s: nat, max: nat, index: nat): (at: nat) {
    if Slips(M, s, max) then TWO64 + index else index
  }

  /**
   * idr_get_free_cmn, radix_tree_iter_replace and radix_tree_iter_tag_clear in a row, as an IDR takes an id: the
   * lowest free one in [start, max], or -ENOSPC exactly when there is none. But where the search slips, the entry
   * goes to the first free index past the last id, to which no id leads, and the caller gets what an unsigned long
   * has of it. RxDelete.Delete gives an id back.
   */
  method Take(root: RxRoot, mem: Allocator, start: nat, max: nat, item: Entry) returns (out: Outcome)
    requires Valid(root) && root.idr && Roomy(root.items) && max <= ULONG_MAX && !item.Child? && Tidy(root.Now(), null)
    modifies root, root.pool, mem
    ensures Valid(root) && Tidy(root.Now(), null) && fresh(root.pool - old(root.pool))
    ensures mem.left <= old(mem.left) <= mem.left + PRELOAD_SIZE
    ensures var M, lost := old(root.items), Lost(old(root.items)) - TWO64;
      match out
      case Free(_, _, index) =>
        if Slips(M, start, max) then index == lost <= max && root.items == M[TWO64 + lost := item]
        else
          && start <= index <= max && index !in M && root.items == M[index := item]
          && forall k: nat :: start <= k < index ==> k in M
      case NoSpace =>
        && root.items == M && (Slips(M, start, max) ==> lost > max)
        && forall k: nat :: start <= k <= max ==> k in M
      case NoMemory => root.items == M && mem.left == 0 && old(mem.left) < PRELOAD_SIZE
      case Grow(_) => false
    ensures out.NoMemory? <==> Short(old(root.Now()), old(root.items), start, max, old(mem.left))
    ensures out.Free? ==> old(mem.left) == mem.left + Missing(old(root.Now()), old(root.items),
        Place(old(root.items), start, max, out.index))
    ensures out.NoSpace? ==> root.Now() == old(root.Now()) && mem.left == old(mem.left)
    ensures !out.NoMemory? && Lively(old(root.Now()), Keys(old(root.items))) ==> Lively(root.Now(), Keys(root.items))
    ensures !out.NoMemory? && Trim(old(root.Now()), old(root.items)) ==> Trim(root.Now(), root.items)
  {
    hide Good, RxRoot.Now, Valid, FreeSlot, Tidy, Sturdy, Slips, ULong, Spare, Lost, Aim, Short, Lively, Trim, Reached,
      Missing, Stored', Keys, Roomy, Place;
    ghost var g, left, M, at := root.Now(), mem.left, root.items, 0;
    SpareBelow(M, Lost(M));
    SoundOf(root);
    out, at := GetFree(root, mem, start, max);
    ghost var h := root.Now();
    if out.Free? { FreeNotIn(h, M, out.node, out.offset, at); }
    AimIs(M, start, max, out, at);
    ShortIs(g, left, h, mem.left, M, start, max, out, at);
    if !out.Free? {
      if out.NoSpace? { ReachedNot(g, left, h, mem.left, M, out, at); }
      return;
    }
    IterReplace(root, out.node, out.offset, item, at);
    SoundOf(root);
    TakenTrim(g, left, h, mem.left, root.Now(), M, at, item, out);
  }

  lemma {:induction false} SoundOf(root: RxRoot)
    requires Valid(root)
    ensures Sound(root.Now(), root.items)
  {}

  /** The index that the entry is meant for needs more nodes than there are. */
  ghost predicate Short(h: Shot, M: map<nat, Entry>, s: nat, max: nat, left: nat)
    requires Roomy(M)
  {
    exists at: nat :: Aim(M, s, max, at) && left < Missing(h, M, at)
  }

  lemma {:induction false} AimIs(M: map<nat, Entry>, s: nat, max: nat, out: Outcome, at: nat)
    requires Roomy(M)
    requires out.Free? ==>
      && at !in M
      && if Slips(M, s, max) then at == Lost(M) == TWO64 + out.index && out.index <= max
         else s <= at <= max && at == out.index && forall k: nat :: s <= k < at ==> k in M
    requires out.NoSpace? ==>
      (Slips(M, s, max) ==> Lost(M) - TWO64 > max) && forall k: nat :: s <= k <= max ==> k in M
    ensures out.Free? ==> Aim(M, s, max, at) && at == Place(M, s, max, out.index)
    ensures out.NoSpace? ==> forall k: nat :: !Aim(M, s, max, k)
  {
    hide Slips, Lost;
  }

  lemma {:induction false} ShortIs(g: Shot, left: nat, h: Shot, left': nat, M: map<nat, Entry>, s: nat, max: nat,
          out: Outcome, at: nat)
    requires Roomy(M) && Reached(g, left, h, left', M, out, at) && (out.NoMemory? ==> left' == 0)
    requires out.Free? || out.NoMemory? ==> Aim(M, s, max, at)
    requires out.NoSpace? ==> forall k: nat :: !Aim(M, s, max, k)
    requires !out.Grow?
    ensures out.NoMemory? <==> Short(g, M, s, max, left)
    ensures out.Free? ==> left == left' + Missing(g, M, at)
  {
    hide Missing, Slips, Lost, SnugKept, Spare;
    if at': nat :| Aim(M, s, max, at') && left < Missing(g, M, at') {
      if out.Free? || out.NoMemory? { assert at' == at; }
    }
  }

  /** An entry at index at makes the nodes on the way to it worth keeping, and the top one needed. */
  lemma {:induction false} TakenTrim(g: Shot, left: nat, h: Shot, left': nat, i: Shot, M: map<nat, Entry>, at: nat,
          e: Entry, out: Outcome)
    requires Sound(g, M) && Sound(i, M[at := e]) && at !in M && Reached(g, left, h, left', M, out, at) && out.Free?
    requires Stored'(h, i)
    ensures Lively(g, Keys(M)) ==> Lively(i, Keys(M[at := e]))
    ensures Trim(g, M) ==> Trim(i, M[at := e])
  {
    hide Sound, SnugKept, Snug, Lively, Lowered, Paid, Missing;
    var M' := M[at := e];
    InsertSnug(g, h, i, M, M', at);
    if Trim(g, M) {
      TrimMore(g, M, at, e);
      SnugTrim(i, M');
    }
  }

  lemma {:induction false} TrimMore(h: Shot, M: map<nat, Entry>, at: nat, e: Entry)
    requires Sound(h, M) && Trim(h, M) && at !in M
    ensures Snug(h, Keys(M[at := e]))
  {
    hide Sound, Lively, Lowered;
    TrimSnug(h, M);
    var K, K' := Keys(M), Keys(M[at := e]);
    assert K <= K';
    if Snug(h, K) {
      SnugMore(h, K, K');
    } else {
      LivelyMore(h, K, K');
      TopHere(h, M);
      NeedsOne(K', 0, at);
    }
  }

  lemma {:induction false} TopHere(h: Shot, M: map<nat, Entry>)
    requires Sound(h, M)
    ensures h.top.Child? ==> h.top.n in h.m
  {}

  /** With exactly the ids below a power of 64 in use, as after any others have been given back, no tag says free. */
  lemma {:induction false} FullRoot(h: Shot, M: map<nat, Entry>, T: seq<iset<nat>>, s: nat)
    requires Good(h, M, T, true) && Trim(h, M) && s % 6 == 0 && s >= 6 && forall k: nat :: k in M <==> k < Shl(1, s)
    ensures HeightShift(h) == s && 0 !in h.tags
  {
    hide Trim, Snug, Shl, Shr, Linked, Counted, Holds;
    TrimSnug(h, M);
    ShlMono(1, 6, s);
    assert Shl(1, 6) == 64 by { ShlSix(); }
    assert 1 in M.Keys;
    HeightMod(h, M);
    ShrShl(Shl(1, s) - 1, 1, s);
    LastNeeds(M, s);
    TopNeeds(h, M, s - 6); TopNeeds(h, M, s);
    if Needs(Keys(M), s) { var k :| k in Keys(M) && Shr(k, s) > 0; ShrShl(k, 1, s); }
    assert TagOk(h, 0, T[0]);
    if 0 in h.tags {
      var k :| k in T[0] && InRange(h, k);
      RangeShift(h, k);
      ShrShl(k, 1, s);
    }
  }

  lemma {:induction false} ShlSix()
    ensures Shl(1, 6) == 64
  {}

  lemma {:induction false} LastNeeds(M: map<nat, Entry>, s: nat)
    requires s % 6 == 0 && s >= 6 && forall k: nat :: k in M <==> k < Shl(1, s)
    ensures Needs(Keys(M), s - 6)
  {
    hide Shr;
    var k := Shl(1, s - 6);
    ShlMono(1, 0, s - 6);
    ShrShl(k, 1, s - 6);
    NeedsOne(Keys(M), s - 6, k);
  }

  /** Every slip takes a later index, and nothing else does: ids 0, 1, 2 and so on are handed out that way. */
  lemma {:induction false} LostMoves(M: map<nat, Entry>, k: nat, e: Entry)
    requires Roomy(M) && Roomy(M[k := e])
    ensures if k == Lost(M) then Lost(M[k := e]) > Lost(M) else Lost(M[k := e]) == Lost(M)
  {
    var g, g' := Lost(M), Lost(M[k := e]);
    assert g < g' ==> g in M[k := e];
    assert g' < g ==> g' in M[k := e] || k == g';
  }

  lemma {:induction false} LostIs(M: map<nat, Entry>, g: nat)
    requires Spare(M, g)
    ensures Roomy(M) && Lost(M) == g
  {
    var g' := Lost(M);
    assert (g < g' ==> g in M) && (g' < g ==> g' in M);
  }

  lemma {:induction false} SlipsNot(M: map<nat, Entry>, s: nat, max: nat)
    requires s !in M && s <= ULONG_MAX
    ensures !Slips(M, s, max)
  {}

  /** An id is asked for by itself. */
  method TakeOne(root: RxRoot, mem: Allocator, id: nat, item: Val, ghost g: nat) returns (out: Outcome)
    requires Valid(root) && root.idr && Spare(root.items, g) && id <= ULONG_MAX && Tidy(root.Now(), null)
    requires mem.left >= PRELOAD_SIZE && (id in root.items ==> id == ULONG_MAX)
    modifies root, root.pool, mem
    ensures Valid(root) && Tidy(root.Now(), null) && fresh(root.pool - old(root.pool))
      && mem.left + PRELOAD_SIZE >= old(mem.left)
    ensures out.Free? && out.index == (if id in old(root.items) then g - TWO64 else id)
    ensures root.items == old(root.items)[if id in old(root.items) then g else id := Item(item)]
  {
    hide Good, RxRoot.Now, Tidy, Valid, Slips, Lost;
    LostIs(root.items, g);
    if id in root.items { SlipsAtMax(root.items, id); } else { SlipsNot(root.items, id, id); }
    out := Take(root, mem, id, id, Item(item));
  }

  /** An empty IDR is asked for the first id and for the last one. */
  method FirstAndLast(mem: Allocator, zero: Val, last: Val) returns (root: RxRoot, first: nat, second: nat)
    requires mem.left >= 2 * PRELOAD_SIZE
    modifies mem
    ensures fresh(root) && fresh(root.pool) && Valid(root) && root.idr && Tidy(root.Now(), null)
    ensures root.items == map[0 := Item(zero), ULONG_MAX := Item(last)] && first == 0 && second == ULONG_MAX
    ensures Spare(root.items, TWO64) && mem.left + 2 * PRELOAD_SIZE >= old(mem.left)
  {
    hide Good, RxRoot.Now, Tidy, Valid, Spare, ULong;
    root := new RxRoot(true);
    EmptyIdr(root);
    SpareNone();
    SpareKeeps(map[], 0, Item(zero), TWO64);
    SpareKeeps(map[0 := Item(zero)], ULONG_MAX, Item(last), TWO64);
    var a := TakeOne(root, mem, 0, zero, TWO64);
    var b := TakeOne(root, mem, ULONG_MAX, last, TWO64);
    first, second := a.index, b.index;
  }

  /** Then it is asked for the last id twice more. The calls do not fail with -ENOSPC: they return ids 0 and 1. */
  method TwiceMore(root: RxRoot, mem: Allocator, last: Val) returns (third: nat, fourth: nat)
    requires Valid(root) && root.idr && Tidy(root.Now(), null) && mem.left >= 2 * PRELOAD_SIZE
    requires Spare(root.items, TWO64) && ULONG_MAX in root.items && TWO64 + 1 !in root.items
    modifies root, root.pool, mem
    ensures Valid(root) && third == 0 && fourth == 1
    ensures root.items == old(root.items)[TWO64 := Item(last)][TWO64 + 1 := Item(last)]
  {
    SpareNext(root.items, Item(last), TWO64);
    hide Good, RxRoot.Now, Tidy, Valid, Spare;
    var a := TakeOne(root, mem, ULONG_MAX, last, TWO64);
    var b := TakeOne(root, mem, ULONG_MAX, last, TWO64 + 1);
    third, fourth := a.index, b.index;
  }

  /** Neither id was in range. Id 0 was not free either, and still finds the first item; id 1 finds nothing. */
  method LastIdTwice(mem: Allocator, zero: Val, last: Val)
    returns (first: nat, second: nat, third: nat, fourth: nat, found: Entry, lost: Entry)
    requires mem.left >= 4 * PRELOAD_SIZE
    modifies mem
    ensures first == 0 && second == ULONG_MAX && third == 0 && fourth == 1
    ensures found == Item(zero) && lost == Null
  {
    hide Good, RxRoot.Now, Tidy, Valid, Spare;
    var root;
    root, first, second := FirstAndLast(mem, zero, last);
    third, fourth := TwiceMore(root, mem, last);
    found := Lookup(root, 0);
    lost := Lookup(root, 1);
  }

  lemma {:induction false} SpareNone()
    ensures Spare(map[], TWO64)
  {}

  lemma {:induction false} SpareKeeps(M: map<nat, Entry>, k: nat, e: Entry, g: nat)
    requires Spare(M, g) && k < TWO64
    ensures Spare(M[k := e], g)
  {}

  lemma {:induction false} SpareNext(M: map<nat, Entry>, e: Entry, g: nat)
    requires Spare(M, g) && g + 1 < LIMIT && g + 1 !in M
    ensures Spare(M[g := e], g + 1)
  {}

  lemma {:induction false} EmptyIdr(root: RxRoot)
    requires root.idr && root.rnode == Null && root.pool == {} && root.tags == {0}
    requires root.items == map[] && root.tagged == [FreeIds(map[]), iset{}, iset{}]
    ensures Valid(root) && Tidy(root.Now(), null)
  {
    var h := root.Now();
    assert 0 in root.tagged[0] && InRange(h, 0);
  }

  lemma {:induction false} SlotOf(h: Shot, M: map<nat, Entry>, node: RxNode?, offset: nat, index: nat)
    requires FreeSlot(h, M, node, offset, index)
    ensures SlotFor(h, node, offset, index) && index !in M && (node == null ==> !h.top.Child?)
  {}

  lemma {:induction false} StoredTags(g: Shot, h: Shot, T: seq<iset<nat>>)
    requires Tagged(g, T) && Stored(g, h)
    ensures forall t :: 0 <= t < 3 ==> |T| == 3 && TagOk(h, t, T[t])
  {
    hide TagOk, Snug;
  }

  lemma {:induction false} LeafCount(g: Shot, h: Shot, M: map<nat, Entry>, node: RxNode, index: nat, e: Entry)
    requires Sound(g, M) && Sound(h, M[index := e]) && LeafPut(g, h, node, index, e) && index !in M
    ensures h.m[node].count == g.m[node].count + 1
  {
    hide Linked, Holds;
    BasicAt(g, node);
    CoversLeads(g.m[node], index);
    CountAt(g, M, node); CountAt(h, M[index := e], node);
    OneUsed(g, h, M, node, index, e);
    CountSlot(g.m[node], h.m[node], M, M[index := e], Digit(g.m[node], index));
  }

  lemma {:induction false} OneUsed(g: Shot, h: Shot, M: map<nat, Entry>, node: RxNode, index: nat, e: Entry)
    requires Sound(g, M) && LeafPut(g, h, node, index, e) && index !in M
    ensures var o := Digit(g.m[node], index);
      && !Used(g.m[node], o, M) && Used(h.m[node], o, M[index := e])
      && forall p :: 0 <= p < 64 && p != o ==> (Used(h.m[node], p, M[index := e]) <==> Used(g.m[node], p, M))
  {
    hide Linked, Counted;
    CoversLeads(g.m[node], index);
    assert SlotHolds(g.m[node], Digit(g.m[node], index), M);
    assert Lead(g.m[node], Digit(g.m[node], index)) == index;
  }

  lemma {:induction false} ClimbsOn(g: Shot, h: Shot, node: RxNode?, offset: nat, index: nat, e: Entry)
    requires Climbing(g, node, offset, index) && (node == null ==> !g.top.Child? && !e.Child?)
    requires if node == null then h == PutTop(g, e) else LeafPut(g, h, node, index, e)
    ensures Climbing(h, node, offset, index) && (node == null ==> !h.top.Child?)
      && (node != null ==> node in h.m && h.m[node].shift == 0)
  {}
}
