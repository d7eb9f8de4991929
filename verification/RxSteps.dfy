/** What single updates of the radix tree do to the map and the tags that it holds. */
module RxSteps {
  import opened CTypes
  import opened RxModel
  import opened RxHeap

  /** An ordinary tree stores no NULL and tags only what it stores; an IDR keeps in tag 0 which ids are free. */
  ghost predicate Mode(idr: bool, M: map<nat, Entry>, T: seq<iset<nat>>) {
    && |T| == 3
    && (!idr ==>
        && (forall k :: k in M ==> M[k].Item? && k <= ULONG_MAX)
        && forall t, k :: 0 <= t < 3 && k in T[t] ==> k in M)
    && (idr ==> T[1] == iset{} && T[2] == iset{} && forall k: nat :: k in T[0] <==> k !in M)
  }

  /** Links, contents and counts, whatever the tags. */
  ghost predicate Sound(h: Shot, M: map<nat, Entry>) { Linked(h) && Holds(h, M) && Counted(h, M) }

  ghost predicate Good(h: Shot, M: map<nat, Entry>, T: seq<iset<nat>>, idr: bool) {
    Sound(h, M) && Tagged(h, T) && Mode(idr, M, T)
  }

  // ---- sets of slots ----

  lemma {:induction false} OneMore(A: set<nat>, B: set<nat>, o: nat)
    requires o !in A && forall p :: p in B <==> p in A || p == o
    ensures |B| == |A| + 1
  {
    assert B == A + {o};
  }

  lemma {:induction false} SameSize(A: set<nat>, B: set<nat>)
    requires forall p :: p in B <==> p in A
    ensures |B| == |A|
  {
    assert A == B;
  }

  /** The count after slot o has changed. */
  lemma {:induction false} CountSlot(r: Rec, r': Rec, M: map<nat, Entry>, M': map<nat, Entry>, o: nat)
    requires |r.slots| == 64 && |r'.slots| == 64 && o < 64
    requires forall p :: 0 <= p < 64 && p != o ==> (Used(r', p, M') <==> Used(r, p, M))
    ensures |UsedSlots(r', M')| ==
      |UsedSlots(r, M)| + (if Used(r', o, M') then 1 else 0) - (if Used(r, o, M) then 1 else 0)
  {
    var A, B := UsedSlots(r, M), UsedSlots(r', M');
    if Used(r', o, M') && !Used(r, o, M) {
      OneMore(A, B, o);
    } else if !Used(r', o, M') && Used(r, o, M) {
      OneMore(B, A, o);
    } else {
      SameSize(A, B);
    }
  }

  // ---- one entry ----

  /** The map is the same but for one index. */
  ghost predicate SameElse(M: map<nat, Entry>, M': map<nat, Entry>, k: nat) {
    forall j :: j != k ==> (j in M <==> j in M') && (j in M ==> M[j] == M'[j])
  }

  /** Leaf slot (n, o) of index k gets a new entry. */
  ghost predicate LeafPut(g: Shot, h: Shot, n: RxNode, k: nat, e: Entry) {
    && n in g.m && g.m[n].shift == 0 && Covers(g.m[n], k) && |g.m[n].slots| == 64 && !e.Child?
    && h.top == g.top && h.tags == g.tags && n in h.m && h.m == g.m[n := h.m[n]]
    && h.m[n] == g.m[n].(slots := g.m[n].slots[Digit(g.m[n], k) := e], count := h.m[n].count)
  }

  lemma {:induction false} LeafLinked(g: Shot, h: Shot, n: RxNode, k: nat, e: Entry)
    requires Linked(g) && LeafPut(g, h, n, k, e)
    ensures Linked(h)
  {
    hide NodeOk;
    forall n' | n' in h.m ensures NodeOk(h, n') { LeafNode(g, h, n, k, e, n'); }
  }

  lemma {:induction false} LeafNode(g: Shot, h: Shot, n: RxNode, k: nat, e: Entry, n': RxNode)
    requires LeafPut(g, h, n, k, e) && n' in g.m && NodeOk(g, n) && NodeOk(g, n')
    ensures NodeOk(h, n')
  {}

  /** Slots elsewhere do not lead to k, or lead on to a child. */
  lemma {:induction false} ElseSlot(g: Shot, n: RxNode, k: nat, n': RxNode, o: nat, M: map<nat, Entry>, M': map<nat,
          Entry>)
    requires Linked(g) && n in g.m && g.m[n].shift == 0 && Covers(g.m[n], k) && n' in g.m && n' != n
    requires o < 64 && |g.m[n'].slots| == 64 && SlotHolds(g.m[n'], o, M) && SameElse(M, M', k)
    ensures SlotHolds(g.m[n'], o, M') && (Used(g.m[n'], o, M') <==> Used(g.m[n'], o, M))
  {
    hide Linked;
    var r := g.m[n'];
    CoversLeads(r, k);
    BasicAt(g, n');
    if r.shift == 0 {
      if Lead(r, o) == k { Unique(g, n, n', k); }
    } else if !r.slots[o].Child? {
      if Any(Keys(M'), r.shift, Lead(r, o)) {
        var j :| j in Keys(M') && Shr(j, r.shift) == Lead(r, o);
        if j == k {
          OnPath(g, n, n', k);
        } else {
          AnyIn(Keys(M), r.shift, j);
        }
      }
    }
  }

  lemma {:induction false} LeafHolds(g: Shot, h: Shot, M: map<nat, Entry>, M': map<nat, Entry>, n: RxNode, k: nat,
          e: Entry)
    requires Linked(g) && Holds(g, M) && LeafPut(g, h, n, k, e) && SameElse(M, M', k) && At(M', k) == e && k < LIMIT
    ensures Holds(h, M')
  {
    hide Linked, SlotHolds;
    TopCovers(g, n, k);
    forall j | j in M' ensures j < LIMIT && !M'[j].Child? {}
    forall n', o | n' in h.m && 0 <= o < |h.m[n'].slots| ensures SlotHolds(h.m[n'], o, M') {
      BasicAt(g, n');
      assert SlotHolds(g.m[n'], o, M);
      if n' == n { LeafSlot(g.m[n], h.m[n], o, k, e, M, M'); } else { ElseSlot(g, n, k, n', o, M, M'); }
    }
  }

  lemma {:induction false} LeafSlot(r: Rec, r': Rec, o: nat, k: nat, e: Entry, M: map<nat, Entry>, M': map<nat, Entry>)
    requires r.shift == 0 && |r.slots| == 64 && o < 64 && Covers(r, k) && SlotHolds(r, o, M) && SameElse(M, M', k)
      && At(M', k) == e
    requires r' == r.(slots := r.slots[Digit(r, k) := e], count := r'.count)
    ensures SlotHolds(r', o, M') && (o != Digit(r, k) ==> (Used(r', o, M') <==> Used(r, o, M)))
  {
    CoversLeads(r, k);
  }

  /** An index below some node is in the range of the tree. */
  lemma {:induction false} TopCovers(h: Shot, n: RxNode, k: nat)
    requires Linked(h) && n in h.m && Covers(h.m[n], k)
    ensures h.top.Child? && h.top.n in h.m && Covers(h.m[h.top.n], k)
    decreases 60 - h.m[n].shift
  {
    LinkedAt(h, n);
    if h.m[n].parent != null {
      ParentCovers(h, n, k);
      LinkedAt(h, h.m[n].parent);
      TopCovers(h, h.m[n].parent, k);
    }
  }

  lemma {:induction false} LeafCounted(g: Shot, h: Shot, M: map<nat, Entry>, M': map<nat, Entry>, n: RxNode, k: nat,
          e: Entry)
    requires Linked(g) && Holds(g, M) && Counted(g, M) && LeafPut(g, h, n, k, e) && SameElse(M, M', k) && At(M', k) == e
    requires h.m[n].count == g.m[n].count + (if k in M' then 1 else 0) - (if k in M then 1 else 0)
    ensures Counted(h, M')
  {
    hide Linked, SlotHolds;
    forall n' | n' in h.m ensures h.m[n'].count == |UsedSlots(h.m[n'], M')| {
      BasicAt(g, n');
      if n' == n {
        var r, o := g.m[n], Digit(g.m[n], k);
        CoversLeads(r, k);
        forall p | 0 <= p < 64 && p != o ensures Used(h.m[n], p, M') <==> Used(r, p, M) {
          LeafSlot(r, h.m[n], p, k, e, M, M');
        }
        assert SlotHolds(r, o, M);
        LeafUsed(r, o, k, M); LeafUsed2(h.m[n], o, k, e, M');
        CountSlot(r, h.m[n], M, M', o);
      } else {
        forall o | 0 <= o < 64 ensures Used(h.m[n'], o, M') <==> Used(g.m[n'], o, M) {
          assert SlotHolds(g.m[n'], o, M);
          ElseSlot(g, n, k, n', o, M, M');
        }
        SameSize(UsedSlots(g.m[n'], M), UsedSlots(h.m[n'], M'));
      }
    }
  }

  lemma {:induction false} LeafUsed(r: Rec, o: nat, k: nat, M: map<nat, Entry>)
    requires r.shift == 0 && o < |r.slots| && Lead(r, o) == k && SlotHolds(r, o, M)
    ensures Used(r, o, M) <==> k in M
  {}

  lemma {:induction false} LeafUsed2(r: Rec, o: nat, k: nat, e: Entry, M: map<nat, Entry>)
    requires r.shift == 0 && o < |r.slots| && Lead(r, o) == k && r.slots[o] == e && At(M, k) == e
    ensures Used(r, o, M) <==> k in M
  {}

  /** Putting, changing or removing the entry of k in its leaf slot. */
  lemma {:induction false} LeafSound(g: Shot, h: Shot, M: map<nat, Entry>, M': map<nat, Entry>, n: RxNode, k: nat,
          e: Entry)
    requires Sound(g, M) && LeafPut(g, h, n, k, e) && SameElse(M, M', k) && At(M', k) == e && k < LIMIT
    requires h.m[n].count == g.m[n].count + (if k in M' then 1 else 0) - (if k in M then 1 else 0)
    ensures Sound(h, M')
  {
    hide Linked, Holds, Counted, LeafPut;
    LeafLinked(g, h, n, k, e);
    LeafHolds(g, h, M, M', n, k, e);
    LeafCounted(g, h, M, M', n, k, e);
  }

  lemma {:induction false} LeafTags(g: Shot, h: Shot, n: RxNode, k: nat, e: Entry, t: nat, S: iset<nat>)
    requires Linked(g) && LeafPut(g, h, n, k, e) && TagOk(g, t, S)
    ensures TagOk(h, t, S)
  {
    hide NodeOk;
    forall j ensures InRange(h, j) <==> InRange(g, j) {}
    assert RootTagged(h, t, S);
    forall m, o: nat | m in h.m && t < |h.m[m].tags|
      ensures SlotTagged(h.m[m], t, o, S)
    {
      assert SlotTagged(g.m[m], t, o, S);
    }
  }

  /** The same for an entry that sits directly in root->rnode. */
  lemma {:induction false} TopSound(g: Shot, h: Shot, M: map<nat, Entry>, M': map<nat, Entry>, e: Entry)
    requires Sound(g, M) && !g.top.Child? && !e.Child? && h == PutTop(g, e) && SameElse(M, M', 0) && At(M', 0) == e
    ensures Sound(h, M')
  {
    NoNodes(g);
  }

  /** Without a top node there are no nodes. */
  lemma {:induction false} NoNodes(h: Shot)
    requires Linked(h) && !h.top.Child?
    ensures h.m == map[]
  {
    if n :| n in h.m { TopHighest(h, n); }
  }

  // ---- tags ----

  ghost predicate SplitSlot(r: Rec, t: nat, o: nat, A: iset<nat>, B: iset<nat>, s: nat)
    requires t < |r.tags|
  {
    SlotTagged(r, t, o, if r.shift < s then A else B)
  }

  /** While tag t goes from one set to another on the path of an index: levels below s are at A, the others at B. */
  ghost predicate TagSplit(h: Shot, t: nat, A: iset<nat>, B: iset<nat>, s: nat) {
    forall n, o: nat :: n in h.m && t < |h.m[n].tags| ==> SplitSlot(h.m[n], t, o, A, B, s)
  }

  ghost predicate DifferAt(A: iset<nat>, B: iset<nat>, k: nat) { forall j :: j != k ==> (j in A <==> j in B) }

  lemma {:induction false} AnySame(A: iset<nat>, B: iset<nat>, k: nat, s: nat, q: nat)
    requires DifferAt(A, B, k) && Shr(k, s) != q
    ensures Any(A, s, q) <==> Any(B, s, q)
  {
    if Any(A, s, q) { AnyMono(A, B, s, q); }
    if Any(B, s, q) { AnyMono(B, A, s, q); }
  }

  /** Bit (n, o) of tag t is updated for the path of k. */
  ghost predicate BitPut(g: Shot, h: Shot, t: nat, n: RxNode, k: nat, bit: bool) {
    && n in g.m && t < |g.m[n].tags| && Covers(g.m[n], k) && h.top == g.top && h.tags == g.tags
    && h == PutTag(g, n, t, if bit then g.m[n].tags[t] + {Digit(g.m[n], k)} else g.m[n].tags[t] - {Digit(g.m[n], k)})
  }

  /** The step from level s to the next one up. */
  lemma {:induction false} TagBitUp(g: Shot, h: Shot, t: nat, A: iset<nat>, B: iset<nat>, n: RxNode, k: nat, bit: bool)
    requires Linked(g) && BitPut(g, h, t, n, k, bit) && DifferAt(A, B, k)
    requires TagSplit(g, t, A, B, g.m[n].shift) && (bit <==> Any(A, g.m[n].shift, Shr(k, g.m[n].shift)))
    ensures TagSplit(h, t, A, B, g.m[n].shift + 6)
  {
    hide Linked;
    var s := g.m[n].shift;
    var up := s + 6;
    CoversLeads(g.m[n], k);
    BasicAt(g, n);
    forall n', o: nat | n' in h.m && t < |h.m[n'].tags|
      ensures SplitSlot(h.m[n'], t, o, A, B, up)
    {
      BasicAt(g, n');
      var r := g.m[n'];
      assert SplitSlot(r, t, o, A, B, s);
      if n' == n {
        if o != Digit(r, k) && o < 64 { CoversLeads(r, k); AnySame(A, B, k, s, Lead(r, o)); }
      } else if r.shift == s && o < 64 {
        CoversLeads(r, k);
        if Covers(r, k) { Unique(g, n, n', k); }
        AnySame(A, B, k, s, Lead(r, o));
      }
    }
  }

  /** The step from level s down: the levels from s up are at B already. */
  lemma {:induction false} TagBitDown(g: Shot, h: Shot, t: nat, A: iset<nat>, B: iset<nat>, n: RxNode, k: nat,
          bit: bool)
    requires Linked(g) && BitPut(g, h, t, n, k, bit) && DifferAt(A, B, k)
    requires TagSplit(g, t, A, B, g.m[n].shift + 6) && (bit <==> Any(B, g.m[n].shift, Shr(k, g.m[n].shift)))
    ensures TagSplit(h, t, A, B, g.m[n].shift)
  {
    hide Linked;
    var s := g.m[n].shift;
    CoversLeads(g.m[n], k);
    BasicAt(g, n);
    forall n', o: nat | n' in h.m && t < |h.m[n'].tags|
      ensures SplitSlot(h.m[n'], t, o, A, B, s)
    {
      BasicAt(g, n');
      var r := g.m[n'];
      assert SplitSlot(r, t, o, A, B, s + 6);
      if n' == n {
        if o != Digit(r, k) && o < 64 { CoversLeads(r, k); AnySame(A, B, k, s, Lead(r, o)); }
      } else if r.shift == s && o < 64 {
        CoversLeads(r, k);
        if Covers(r, k) { Unique(g, n, n', k); }
        AnySame(A, B, k, s, Lead(r, o));
      }
    }
  }

  /** A node that differs in its tags only. */
  lemma {:induction false} RetaggedSound(g: Shot, h: Shot, M: map<nat, Entry>)
    requires Sound(g, M) && h.top == g.top && h.m.Keys == g.m.Keys
    requires forall n :: n in g.m ==> |h.m[n].tags| == |g.m[n].tags| && h.m[n] == g.m[n].(tags := h.m[n].tags)
    ensures Sound(h, M)
  {
    hide NodeOk, UsedSlots, SlotHolds;
    forall n | n in h.m ensures NodeOk(h, n) { RetaggedNode(g, h, n); }
    forall n | n in h.m ensures h.m[n].count == |UsedSlots(h.m[n], M)| { RetaggedSlots(g.m[n], h.m[n], M); }
    forall n, o | n in h.m && 0 <= o < |h.m[n].slots| ensures SlotHolds(h.m[n], o, M) {
      assert SlotHolds(g.m[n], o, M);
      RetaggedSlot(g.m[n], h.m[n], o, M);
    }
  }

  lemma {:induction false} RetaggedNode(g: Shot, h: Shot, n: RxNode)
    requires h.top == g.top && h.m.Keys == g.m.Keys && n in g.m && NodeOk(g, n)
    requires forall n :: n in g.m ==> |h.m[n].tags| == |g.m[n].tags| && h.m[n] == g.m[n].(tags := h.m[n].tags)
    ensures NodeOk(h, n)
  {}

  lemma {:induction false} RetaggedSlots(r: Rec, r': Rec, M: map<nat, Entry>)
    requires r' == r.(tags := r'.tags)
    ensures |UsedSlots(r', M)| == |UsedSlots(r, M)|
  {
    SameSize(UsedSlots(r, M), UsedSlots(r', M));
  }

  lemma {:induction false} RetaggedSlot(r: Rec, r': Rec, o: nat, M: map<nat, Entry>)
    requires r' == r.(tags := r'.tags) && o < |r.slots| && SlotHolds(r, o, M)
    ensures SlotHolds(r', o, M)
  {}

  /** Above a slot where A and B agree, they agree all the way up. */
  lemma {:induction false} SplitEnds(h: Shot, t: nat, A: iset<nat>, B: iset<nat>, k: nat, s: nat)
    requires Linked(h) && TagSplit(h, t, A, B, s) && DifferAt(A, B, k) && s % 6 == 0
    requires Any(A, s, Shr(k, s)) && Any(B, s, Shr(k, s))
    ensures TagSplit(h, t, A, B, 66)
  {
    hide Linked;
    forall n, o: nat | n in h.m && t < |h.m[n].tags| ensures SplitSlot(h.m[n], t, o, A, B, 66) {
      BasicAt(h, n);
      var r := h.m[n];
      assert SplitSlot(r, t, o, A, B, s);
      if r.shift >= s && o < 64 {
        if Leads(r, o, k) {
          AnyRise(A, k, s, r.shift); AnyRise(B, k, s, r.shift);
        } else {
          AnySame(A, B, k, r.shift, Lead(r, o));
        }
      }
    }
  }

  lemma {:induction false} AnyRise(S: iset<nat>, k: nat, s: nat, s': nat)
    requires s <= s' && s % 6 == 0 && s' % 6 == 0 && Any(S, s, Shr(k, s))
    ensures Any(S, s', Shr(k, s'))
  {
    var j :| j in S && Shr(j, s) == Shr(k, s);
    ShrUp(j, k, s, s');
  }

  /** Once all levels are at A, only the root is left. */
  lemma {:induction false} SplitDone(h: Shot, t: nat, A: iset<nat>, B: iset<nat>)
    requires Linked(h) && TagSplit(h, t, A, B, 66) && RootTagged(h, t, A)
    ensures TagOk(h, t, A)
  {
    hide Linked;
    forall n, o: nat | n in h.m && t < |h.m[n].tags| ensures SlotTagged(h.m[n], t, o, A) {
      BasicAt(h, n);
      assert SplitSlot(h.m[n], t, o, A, B, 66);
    }
  }

  /** Before anything has changed, all levels are at B; with a top-down walk, below A. */
  lemma {:induction false} SplitStart(h: Shot, t: nat, A: iset<nat>, B: iset<nat>)
    requires Linked(h) && TagOk(h, t, B)
    ensures TagSplit(h, t, A, B, 0) && TagSplit(h, t, B, A, 66)
  {
    hide Linked;
    forall n, o: nat | n in h.m && t < |h.m[n].tags|
      ensures SplitSlot(h.m[n], t, o, B, A, 66) && SplitSlot(h.m[n], t, o, A, B, 0)
    {
      BasicAt(h, n);
      assert SlotTagged(h.m[n], t, o, B);
    }
  }
}
